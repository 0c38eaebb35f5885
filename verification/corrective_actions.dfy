/** Corrective actions under each issue: the expand/collapse toggle with its lazily filled
    per-issue cache (`toggleCorrectiveActions`), and the rule deciding whether an issue
    offers its edit and delete controls. */
module CorrectiveActions {
  import opened Basics
  import opened ReviewState
  import opened IssueList

  const FetchActionsFailed: string := "Failed to fetch corrective actions"

  /** What the toggle did: the new state and whether it requested the issue's actions. */
  datatype Toggled = Toggled(state: Session, fetched: bool)

  /** `toggleCorrectiveActions(id)`: flips the issue's expanded flag, and only when that
      expands it and no list is cached yet, requests the list, caches it (an absent
      `data` as `[]`) and clears the issue's loading flag. */
  function ToggleCorrectiveActions(s: Session, issueId: int, reply: Reply<Option<seq<CorrectiveAction>>>): (r: Toggled)
    ensures IsExpanded(r.state, issueId) == !IsExpanded(s, issueId)
    ensures issueId in r.state.expandedIssues
    ensures forall k :: k != issueId ==>
              (k in r.state.expandedIssues <==> k in s.expandedIssues)
              && (k in s.expandedIssues ==> r.state.expandedIssues[k] == s.expandedIssues[k])
    ensures r.fetched <==> !IsExpanded(s, issueId) && !ActionsCached(s, issueId)
    ensures !r.fetched ==>
              r.state.correctiveActions == s.correctiveActions
              && r.state.loadingCorrectiveActions == s.loadingCorrectiveActions && r.state.apiError == s.apiError
    ensures r.fetched ==>
              r.state.loadingCorrectiveActions == s.loadingCorrectiveActions[issueId := false]
    ensures r.fetched && reply.Replied? ==>
              r.state.correctiveActions == s.correctiveActions[issueId := reply.body.GetOr([])]
              && r.state.apiError == s.apiError
    ensures r.fetched && reply.Threw? ==>
              r.state.correctiveActions == s.correctiveActions
              && r.state.apiError == Some(ApiError(FetchActionsFailed, reply.error.message, ErrorDebug(reply.error.message)))
    ensures r.state.(expandedIssues := s.expandedIssues, correctiveActions := s.correctiveActions,
                     loadingCorrectiveActions := s.loadingCorrectiveActions, apiError := s.apiError) == s
  {
    var expanded := !IsExpanded(s, issueId);
    var fetch := expanded && !ActionsCached(s, issueId);
    // While the request is out the issue's loading flag is on; the handler's `finally`
    // turns it off again from the flags as they were before the toggle.
    var actions := if fetch && reply.Replied? then s.correctiveActions[issueId := reply.body.GetOr([])] else s.correctiveActions;
    var error := if fetch && reply.Threw? then Some(ApiError(FetchActionsFailed, reply.error.message, ErrorDebug(reply.error.message))) else s.apiError;
    var loading := if fetch then s.loadingCorrectiveActions[issueId := false] else s.loadingCorrectiveActions;
    Toggled(s.(expandedIssues := s.expandedIssues[issueId := expanded], correctiveActions := actions,
               loadingCorrectiveActions := loading, apiError := error), fetch)
  }

  /** Once a list is cached, toggling never requests it again, whatever the reply would be. */
  lemma CacheHitNeverFetches(s: Session, issueId: int, reply: Reply<Option<seq<CorrectiveAction>>>)
    requires ActionsCached(s, issueId)
    ensures !ToggleCorrectiveActions(s, issueId, reply).fetched
    ensures ToggleCorrectiveActions(s, issueId, reply).state.correctiveActions == s.correctiveActions
  {
  }

  /** Expanding with a successful fetch, collapsing, and expanding again requests the list
      once: the second expansion is served from the cache. */
  lemma ExpandCollapseExpandFetchesOnce(s: Session, issueId: int, data: Option<seq<CorrectiveAction>>,
                                        r2: Reply<Option<seq<CorrectiveAction>>>, r3: Reply<Option<seq<CorrectiveAction>>>)
    requires !IsExpanded(s, issueId) && !ActionsCached(s, issueId)
    ensures var t1 := ToggleCorrectiveActions(s, issueId, Replied(data));
            var t2 := ToggleCorrectiveActions(t1.state, issueId, r2);
            var t3 := ToggleCorrectiveActions(t2.state, issueId, r3);
            t1.fetched && !t2.fetched && !t3.fetched
            && IsExpanded(t3.state, issueId)
            && t3.state.correctiveActions[issueId] == data.GetOr([])
  {
  }

  /** Two toggles restore the issue's flag. */
  lemma ToggleTwiceRestoresFlag(s: Session, issueId: int, r1: Reply<Option<seq<CorrectiveAction>>>, r2: Reply<Option<seq<CorrectiveAction>>>)
    ensures IsExpanded(ToggleCorrectiveActions(ToggleCorrectiveActions(s, issueId, r1).state, issueId, r2).state, issueId)
            == IsExpanded(s, issueId)
  {
  }

  // ---------------------------------------------------------------------------
  // Edit and delete controls

  /** Whether an issue row shows its edit and delete buttons, as the row renders it: on the
      current version, when the issue's cached list is missing or empty. The counts are not
      consulted. */
  predicate ShowsEditControls(s: Session, issueId: int) {
    s.issueVersion == Current
    && (!ActionsCached(s, issueId) || |s.correctiveActions[issueId]| == 0)
  }

  /** The buttons show on an issue whose counts record corrective actions, as long as its
      list has not been fetched. */
  lemma ControlsShownDespiteRecordedActions(s: Session, issueId: int)
    requires s.issueVersion == Current && !ActionsCached(s, issueId)
    requires issueId in s.correctiveActionCounts && s.correctiveActionCounts[issueId] > 0
    ensures ShowsEditControls(s, issueId)
  {
  }

  /** The rule as the row's own comment states it: current-version issues that have no
      corrective actions, judged by the batch counts as well as by the cached list. */
  predicate ShowsEditControlsCorrected(s: Session, issueId: int) {
    ShowsEditControls(s, issueId)
    && (issueId !in s.correctiveActionCounts || s.correctiveActionCounts[issueId] <= 0)
  }

  /** The corrected rule offers the controls only on issues with no known corrective
      action, and never where the rule as written does not. */
  lemma CorrectedControlsOnlyWithoutActions(s: Session, issueId: int)
    requires ShowsEditControlsCorrected(s, issueId)
    ensures s.issueVersion == Current
    ensures issueId in s.correctiveActionCounts ==> s.correctiveActionCounts[issueId] <= 0
    ensures issueId in s.correctiveActions ==> s.correctiveActions[issueId] == []
    ensures ShowsEditControls(s, issueId)
  {
  }

  /** Whether an issue's row is on screen with its buttons: the modal shows the form rather
      than its loading or error screen, the list has finished loading and holds the issue,
      and the row is not the one whose edit form is open. */
  predicate RowShowsButtons(s: Session, issue: Issue) {
    !s.loading && s.formError.None? && !s.issuesLoading && issue in s.issues
    && !(s.editingIssue.Some? && s.editingIssue.value.id == issue.id)
  }

  /** Clicking Edit on an issue row: the edit form opens, on the issue's own fields,
      exactly where the row is on screen and the rule as written shows the button. */
  function ClickEdit(s: Session, issue: Issue): (r: Session)
    ensures RowShowsButtons(s, issue) && ShowsEditControls(s, issue.id) ==>
              r.editingIssue == Some(issue) && r.editFields == IssueFields(issue.description, issue.severity, issue.dueDate)
    ensures !(RowShowsButtons(s, issue) && ShowsEditControls(s, issue.id)) ==> r == s
    ensures r.(editingIssue := s.editingIssue, editFields := s.editFields) == s
  {
    if RowShowsButtons(s, issue) && ShowsEditControls(s, issue.id) then StartEditIssue(s, issue) else s
  }

  /** Clicking Delete on an issue row: the confirmation opens exactly where the row is on
      screen and the rule as written shows the button. */
  function ClickDelete(s: Session, issue: Issue): (r: Session)
    ensures RowShowsButtons(s, issue) && ShowsEditControls(s, issue.id) ==>
              r.isDeleting && r.deleteIssueId == Some(issue.id)
    ensures !(RowShowsButtons(s, issue) && ShowsEditControls(s, issue.id)) ==> r == s
    ensures r.(isDeleting := s.isDeleting, deleteIssueId := s.deleteIssueId) == s
  {
    if RowShowsButtons(s, issue) && ShowsEditControls(s, issue.id) then ConfirmDeleteIssue(s, issue.id) else s
  }

  /** A click never discards an edit in progress: the row being edited shows its form, not
      its buttons, so clicking it changes nothing. */
  lemma EditInProgressKept(s: Session, issue: Issue)
    requires s.editingIssue.Some? && s.editingIssue.value.id == issue.id
    ensures ClickEdit(s, issue) == s && ClickDelete(s, issue) == s
  {
  }

  /** As written, a listed issue whose counts record corrective actions can still be opened
      for editing and put up for deletion while its list has not been fetched. */
  lemma RecordedActionsStillMutable(s: Session, issue: Issue)
    requires RowShowsButtons(s, issue)
    requires s.issueVersion == Current && !ActionsCached(s, issue.id)
    requires issue.id in s.correctiveActionCounts && s.correctiveActionCounts[issue.id] > 0
    ensures ClickEdit(s, issue).editingIssue == Some(issue)
    ensures ClickDelete(s, issue).deleteIssueId == Some(issue.id)
  {
    ControlsShownDespiteRecordedActions(s, issue.id);
  }

  /** The controls show only on the current version, so the re-fetch that follows an edit or
      a delete started from them reads the version on screen, though it always asks for
      the current issues. */
  lemma MutationsRefetchShownVersion(s: Session, issue: Issue, formId: int, getReply: Reply<Option<seq<Issue>>>)
    requires RowShowsButtons(s, issue) && ShowsEditControls(s, issue.id) && issue.id != 0
    ensures SaveEditIssue(ClickEdit(s, issue), formId, Replied(()), getReply).refetch == Some(EndpointFor(formId, s.issueVersion))
    ensures DeleteIssue(ClickDelete(s, issue), formId, Replied(()), getReply).refetch == Some(EndpointFor(formId, s.issueVersion))
  {
  }

  /** Clicking Edit under the corrected rule. */
  function ClickEditCorrected(s: Session, issue: Issue): (r: Session)
    ensures ShowsEditControlsCorrected(s, issue.id) ==> r == ClickEdit(s, issue)
    ensures !ShowsEditControlsCorrected(s, issue.id) ==> r == s
  {
    if ShowsEditControlsCorrected(s, issue.id) then ClickEdit(s, issue) else s
  }

  /** Clicking Delete under the corrected rule. */
  function ClickDeleteCorrected(s: Session, issue: Issue): (r: Session)
    ensures ShowsEditControlsCorrected(s, issue.id) ==> r == ClickDelete(s, issue)
    ensures !ShowsEditControlsCorrected(s, issue.id) ==> r == s
  {
    if ShowsEditControlsCorrected(s, issue.id) then ClickDelete(s, issue) else s
  }

  /** With the corrected rule, an issue whose counts record an action can be neither opened
      for editing nor put up for deletion. */
  lemma RecordedActionsBlockMutation(s: Session, issue: Issue)
    requires issue.id in s.correctiveActionCounts && s.correctiveActionCounts[issue.id] > 0
    ensures ClickEditCorrected(s, issue) == s && ClickDeleteCorrected(s, issue) == s
  {
  }
}
