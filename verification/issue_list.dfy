/** The issue list: fetching the chosen version's issues with their corrective-action
    counts in one batch (`fetchIssues`), switching versions, and the edit and delete
    mutations, each followed by a re-fetch that replaces the list wholesale
    (`saveEditIssue`, `deleteIssue`). */
module IssueList {
  import opened Basics
  import opened ReviewState

  /** Where a list of issues is read from. */
  datatype IssuesEndpoint = FormIssues(formId: int) | FormPreviousIssues(formId: int)

  function EndpointFor(formId: int, version: IssueVersion): (e: IssuesEndpoint)
    ensures e.formId == formId
    ensures e.FormIssues? <==> version == Current
  {
    match version
    case Current => FormIssues(formId)
    case Previous => FormPreviousIssues(formId)
  }

  const FetchIssuesFailed: string := "Failed to fetch issues"
  const UpdateIssueFailed: string := "Failed to update issue"
  const DeleteIssueFailed: string := "Failed to delete issue"

  /** The banner for a failed issue request: a fixed message, the error's text as details. */
  function RequestFailed(message: string, e: HttpError): ApiError {
    ApiError(message, e.message, ErrorDebug(e.message))
  }

  /** What a fetch leaves behind: the list, the counts, the banner, and whether the counts
      were requested. */
  datatype FetchOutcome = FetchOutcome(issues: seq<Issue>, counts: map<int, int>, apiError: Option<ApiError>, countsRequested: bool)

  /** The two requests of `fetchIssues` and what their replies leave behind. The issues
      reply's `data` may be absent (read as no issues); the counts are requested only for a
      non-empty list; a failure of either request leaves the list as it was. */
  function FetchOutcomeOf(s: Session, issuesReply: Reply<Option<seq<Issue>>>, countsReply: Reply<Option<map<int, int>>>): (o: FetchOutcome)
    ensures o.countsRequested <==> issuesReply.Replied? && issuesReply.body.Some? && |issuesReply.body.value| > 0
    ensures issuesReply.Replied? && (o.countsRequested ==> countsReply.Replied?) ==>
              o.issues == issuesReply.body.GetOr([]) && o.apiError == s.apiError
    ensures issuesReply.Threw? ==>
              o.issues == s.issues && o.apiError == Some(RequestFailed(FetchIssuesFailed, issuesReply.error))
    ensures o.countsRequested && countsReply.Threw? ==>
              o.issues == s.issues && o.apiError == Some(RequestFailed(FetchIssuesFailed, countsReply.error))
    ensures o.countsRequested && countsReply.Replied? && countsReply.body.Some? ==> o.counts == countsReply.body.value
    ensures !(o.countsRequested && countsReply.Replied? && countsReply.body.Some?) ==> o.counts == s.correctiveActionCounts
  {
    match issuesReply
    case Threw(e) => FetchOutcome(s.issues, s.correctiveActionCounts, Some(RequestFailed(FetchIssuesFailed, e)), false)
    case Replied(data) =>
      if data.Some? && |data.value| > 0 then
        match countsReply
        case Threw(e) => FetchOutcome(s.issues, s.correctiveActionCounts, Some(RequestFailed(FetchIssuesFailed, e)), true)
        case Replied(counts) => FetchOutcome(data.value, counts.GetOr(s.correctiveActionCounts), s.apiError, true)
      else FetchOutcome([], s.correctiveActionCounts, s.apiError, false)
  }

  datatype Fetched = Fetched(state: Session, endpoint: IssuesEndpoint, countsRequested: bool)

  /** `fetchIssues(version)`: reads the version's endpoint, and touches only the list, the
      counts, the banner and the loading flag, which is off again afterwards. */
  function FetchIssues(s: Session, formId: int, version: IssueVersion,
                       issuesReply: Reply<Option<seq<Issue>>>, countsReply: Reply<Option<map<int, int>>>): (r: Fetched)
    ensures r.endpoint == EndpointFor(formId, version)
    ensures var o := FetchOutcomeOf(s, issuesReply, countsReply);
            r.state == s.(issues := o.issues, correctiveActionCounts := o.counts, apiError := o.apiError, issuesLoading := false)
            && r.countsRequested == o.countsRequested
  {
    var o := FetchOutcomeOf(s, issuesReply, countsReply);
    Fetched(s.(issues := o.issues, correctiveActionCounts := o.counts, apiError := o.apiError, issuesLoading := false),
            EndpointFor(formId, version), o.countsRequested)
  }

  /** What the version effect did: the new state, and the endpoint it read, if any. */
  datatype Switched = Switched(state: Session, endpoint: Option<IssuesEndpoint>)

  /** Choosing a version from the selector: the version changes, and the effect fetches its
      issues only when the form prop carries a truthy id. */
  function SetIssueVersion(s: Session, formPropId: Option<int>, version: IssueVersion,
                           issuesReply: Reply<Option<seq<Issue>>>, countsReply: Reply<Option<map<int, int>>>): (r: Switched)
    ensures r.state.issueVersion == version
    ensures r.endpoint.Some? <==> TruthyId(formPropId)
    ensures TruthyId(formPropId) ==> r.endpoint == Some(EndpointFor(formPropId.value, version))
    ensures !TruthyId(formPropId) ==> r.state == s.(issueVersion := version)
    ensures r.state.expandedIssues == s.expandedIssues && r.state.correctiveActions == s.correctiveActions
  {
    if TruthyId(formPropId) then
      var f := FetchIssues(s.(issueVersion := version), formPropId.value, version, issuesReply, countsReply);
      Switched(f.state, Some(f.endpoint))
    else Switched(s.(issueVersion := version), None)
  }

  /** A successful fetch shows exactly what the server returned, whatever was listed before. */
  lemma FetchReplacesWholesale(s1: Session, s2: Session, formId: int, version: IssueVersion,
                               data: seq<Issue>, countsReply: Reply<Option<map<int, int>>>)
    requires |data| == 0 || countsReply.Replied?
    ensures FetchIssues(s1, formId, version, Replied(Some(data)), countsReply).state.issues
            == FetchIssues(s2, formId, version, Replied(Some(data)), countsReply).state.issues
            == data
  {
  }

  /** A mutating request: the issue it targets and, for an update, the body sent. */
  datatype IssueRequest = UpdateIssue(issueId: int, fields: IssueFields) | RemoveIssue(issueId: int)

  /** What a mutation did: the new state, the mutating request it sent, and the list it
      re-fetched afterwards, if any. */
  datatype Mutation = Mutation(state: Session, sent: Option<IssueRequest>, refetch: Option<IssuesEndpoint>)

  /** `saveEditIssue`: sends the edit form for the issue being edited, then re-fetches the
      form's current issues, whichever version is shown. On success the list is the
      re-fetched one and editing ends; on any failure the edit stays open and the list is
      unchanged. */
  function SaveEditIssue(s: Session, formId: int, putReply: Reply<()>, getReply: Reply<Option<seq<Issue>>>): (r: Mutation)
    ensures s.editingIssue.None? ==> r == Mutation(s, None, None)
    ensures s.editingIssue.Some? ==> r.sent == Some(UpdateIssue(s.editingIssue.value.id, s.editFields))
    ensures r.refetch.Some? <==> s.editingIssue.Some? && putReply.Replied?
    ensures r.refetch.Some? ==> r.refetch.value == FormIssues(formId)
    ensures r.refetch.Some? && getReply.Replied? ==>
              r.state == CancelEditIssue(s).(issues := getReply.body.GetOr([]))
    ensures r.sent.Some? && putReply.Threw? ==>
              r.state == s.(apiError := Some(RequestFailed(UpdateIssueFailed, putReply.error)))
    ensures r.refetch.Some? && getReply.Threw? ==>
              r.state == s.(apiError := Some(RequestFailed(UpdateIssueFailed, getReply.error)))
  {
    if s.editingIssue.None? then Mutation(s, None, None)
    else
      var sent := Some(UpdateIssue(s.editingIssue.value.id, s.editFields));
      match putReply
      case Threw(e) => Mutation(s.(apiError := Some(RequestFailed(UpdateIssueFailed, e))), sent, None)
      case Replied(_) =>
        match getReply
        case Threw(e) => Mutation(s.(apiError := Some(RequestFailed(UpdateIssueFailed, e))), sent, Some(FormIssues(formId)))
        case Replied(data) => Mutation(CancelEditIssue(s.(issues := data.GetOr([]))), sent, Some(FormIssues(formId)))
  }

  /** `deleteIssue`: deletes the issue awaiting confirmation (none when its id is falsy),
      then re-fetches the form's current issues. On success the list is the re-fetched one
      and the dialog closes. */
  function DeleteIssue(s: Session, formId: int, deleteReply: Reply<()>, getReply: Reply<Option<seq<Issue>>>): (r: Mutation)
    ensures !TruthyId(s.deleteIssueId) ==> r == Mutation(s, None, None)
    ensures TruthyId(s.deleteIssueId) ==> r.sent == Some(RemoveIssue(s.deleteIssueId.value))
    ensures r.refetch.Some? <==> TruthyId(s.deleteIssueId) && deleteReply.Replied?
    ensures r.refetch.Some? ==> r.refetch.value == FormIssues(formId)
    ensures r.refetch.Some? && getReply.Replied? ==>
              r.state == CancelDeleteIssue(s).(issues := getReply.body.GetOr([]))
    ensures r.sent.Some? && deleteReply.Threw? ==>
              r.state == s.(apiError := Some(RequestFailed(DeleteIssueFailed, deleteReply.error)))
    ensures r.refetch.Some? && getReply.Threw? ==>
              r.state == s.(apiError := Some(RequestFailed(DeleteIssueFailed, getReply.error)))
  {
    if !TruthyId(s.deleteIssueId) then Mutation(s, None, None)
    else
      var sent := Some(RemoveIssue(s.deleteIssueId.value));
      match deleteReply
      case Threw(e) => Mutation(s.(apiError := Some(RequestFailed(DeleteIssueFailed, e))), sent, None)
      case Replied(_) =>
        match getReply
        case Threw(e) => Mutation(s.(apiError := Some(RequestFailed(DeleteIssueFailed, e))), sent, Some(FormIssues(formId)))
        case Replied(data) => Mutation(CancelDeleteIssue(s.(issues := data.GetOr([]))), sent, Some(FormIssues(formId)))
  }

  /** After a successful edit the list is exactly the server's, never the old list patched;
      the corrective-action counts are not refreshed with it. */
  lemma EditReplacesList(s: Session, formId: int, data: Option<seq<Issue>>)
    requires s.editingIssue.Some?
    ensures SaveEditIssue(s, formId, Replied(()), Replied(data)).state.issues == data.GetOr([])
    ensures SaveEditIssue(s, formId, Replied(()), Replied(data)).state.correctiveActionCounts == s.correctiveActionCounts
  {
  }

  /** After a successful delete the list is exactly the server's, and the counts are kept. */
  lemma DeleteReplacesList(s: Session, formId: int, data: Option<seq<Issue>>)
    requires TruthyId(s.deleteIssueId)
    ensures DeleteIssue(s, formId, Replied(()), Replied(data)).state.issues == data.GetOr([])
    ensures DeleteIssue(s, formId, Replied(()), Replied(data)).state.correctiveActionCounts == s.correctiveActionCounts
  {
  }
}
