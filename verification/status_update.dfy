/** The status panel: validating the issue a rejection raises (`validateIssueFields`),
    mapping the chosen label to a status id, building and guarding the update request,
    and classifying a failed request (`handleStatusChange`).

    The clock is an input: `todayStart` is the instant of today's local midnight, which
    the handler computes with `setHours(0, 0, 0, 0)`. */
module StatusUpdate {
  import opened Basics
  import opened Text
  import opened ReviewState

  const RejectedLabel: string := "Rejected"
  const ApprovedLabel: string := "Approved"

  const ApprovedStatusId: int := 5
  const RejectedStatusId: int := 4

  const DescriptionRequired: string := "Issue description is required"
  const SeverityRequired: string := "Severity level is required"
  const DueDateRequired: string := "Due date is required"
  const DueDateInPast: string := "Due date must be in the future"

  // ---------------------------------------------------------------------------
  // Issue validation

  datatype Validation = Validation(errors: map<Field, string>, valid: bool)

  /** `validateIssueFields`: checks only when the chosen status is Rejected, and then checks
      the three fields independently, reporting every failure at once. */
  function ValidateIssueFields(status: string, fields: IssueFields, todayStart: int): (v: Validation)
    ensures v.valid <==> v.errors == map[]
    ensures status != RejectedLabel ==> v.errors == map[]
    ensures DescriptionField in v.errors <==> status == RejectedLabel && Trim(fields.description) == []
    ensures SeverityField in v.errors <==> status == RejectedLabel && fields.severity == ""
    ensures DueDateField in v.errors <==>
              status == RejectedLabel && (fields.dueDate.None? || fields.dueDate.value < todayStart)
    ensures DescriptionField in v.errors ==> v.errors[DescriptionField] == DescriptionRequired
    ensures SeverityField in v.errors ==> v.errors[SeverityField] == SeverityRequired
    ensures DueDateField in v.errors ==>
              v.errors[DueDateField] == (if fields.dueDate.None? then DueDateRequired else DueDateInPast)
  {
    if status != RejectedLabel then Validation(map[], true)
    else
      var e1: map<Field, string> := if Trim(fields.description) == [] then map[DescriptionField := DescriptionRequired] else map[];
      var e2 := if fields.severity == "" then e1[SeverityField := SeverityRequired] else e1;
      var e3 :=
        if fields.dueDate.None? then e2[DueDateField := DueDateRequired]
        else if fields.dueDate.value < todayStart then e2[DueDateField := DueDateInPast]
        else e2;
      Validation(e3, |e3| == 0)
  }

  /** A blank description, an empty severity and a past due date are all reported together. */
  lemma AllThreeErrorsReported(description: string, due: int, todayStart: int)
    requires forall i :: 0 <= i < |description| ==> IsJsWhitespace(description[i])
    requires due < todayStart
    ensures ValidateIssueFields(RejectedLabel, IssueFields(description, "", Some(due)), todayStart).errors
            == map[DescriptionField := DescriptionRequired, SeverityField := SeverityRequired, DueDateField := DueDateInPast]
  {
    TrimEmptyIffBlank(description);
  }

  /** Whether the description passes depends on the description alone. */
  lemma DescriptionCheckIndependent(status: string, f: IssueFields, g: IssueFields, t1: int, t2: int)
    requires f.description == g.description
    ensures (DescriptionField in ValidateIssueFields(status, f, t1).errors)
            == (DescriptionField in ValidateIssueFields(status, g, t2).errors)
  {
  }

  /** A due date any time today passes: the comparison is against midnight. */
  lemma DueTodayPasses(todayStart: int, secondsIntoDay: nat, description: string, severity: string)
    requires Trim(description) != [] && severity != ""
    ensures ValidateIssueFields(RejectedLabel, IssueFields(description, severity, Some(todayStart + secondsIntoDay)), todayStart).valid
  {
  }

  /** Any non-empty severity passes, listed level or not. */
  lemma AnySeverityPasses(severity: string, fields: IssueFields, todayStart: int)
    requires severity != ""
    ensures SeverityField !in ValidateIssueFields(RejectedLabel, fields.(severity := severity), todayStart).errors
  {
  }

  // ---------------------------------------------------------------------------
  // Status mapping

  /** The status id sent for a label: Rejected maps to 4, every other label to 5, the
      same id Approved maps to. */
  function StatusIdFor(statusLabel: string): (id: int)
    ensures id == RejectedStatusId <==> statusLabel == RejectedLabel
    ensures id == ApprovedStatusId <==> statusLabel != RejectedLabel
  {
    match statusLabel
    case "Approved" => ApprovedStatusId
    case "Rejected" => RejectedStatusId
    case _ => ApprovedStatusId
  }

  /** An unrecognised label, such as the initial `'Pending Review'`, is sent as an approval. */
  lemma UnknownLabelApproves()
    ensures StatusIdFor("Pending Review") == StatusIdFor(ApprovedLabel)
  {
  }

  // ---------------------------------------------------------------------------
  // Failure classification

  datatype FailureClass = ServerError | NoResponse | RequestError

  /** The first of `response`, `request`, neither that the error carries. */
  function ClassOf(e: HttpError): (c: FailureClass)
    ensures c == ServerError <==> e.response.Some?
    ensures c == NoResponse <==> e.response.None? && e.requestSent
    ensures c == RequestError <==> e.response.None? && !e.requestSent
  {
    if e.response.Some? then ServerError
    else if e.requestSent then NoResponse
    else RequestError
  }

  const DefaultServerDetails: string := "The server encountered an internal error."
  const NoResponseMessage: string := "No response from server"
  const NoResponseDetails: string := "The server did not respond to the request."
  const UnknownErrorMessage: string := "Unknown error"
  const RequestErrorDetails: string := "An error occurred while preparing the request."

  function ServerErrorMessage(status: nat): string {
    "Server Error (" + NatToString(status) + ")"
  }

  /** The banner for a failed status update, with the request it was for kept as debug data. */
  function ClassifyFailure(e: HttpError, formId: int, payload: StatusPayload): (a: ApiError)
    ensures a.debug == RequestDebug(formId, payload, e.response, e.message)
    ensures ClassOf(e) == ServerError ==>
              a.message == ServerErrorMessage(e.response.value.status)
              && a.details == TextOr(e.response.value.message, DefaultServerDetails)
    ensures ClassOf(e) == NoResponse ==> a.message == NoResponseMessage && a.details == NoResponseDetails
    ensures ClassOf(e) == RequestError ==>
              a.message == TextOr(Some(e.message), UnknownErrorMessage) && a.details == RequestErrorDetails
  {
    var debug := RequestDebug(formId, payload, e.response, e.message);
    match ClassOf(e)
    case ServerError =>
      ApiError(ServerErrorMessage(e.response.value.status), TextOr(e.response.value.message, DefaultServerDetails), debug)
    case NoResponse => ApiError(NoResponseMessage, NoResponseDetails, debug)
    case RequestError => ApiError(TextOr(Some(e.message), UnknownErrorMessage), RequestErrorDetails, debug)
  }

  /** The status code shown in a server-error banner reads back as the response's code. */
  lemma ServerStatusReadsBack(status: nat)
    ensures var m := ServerErrorMessage(status);
            |m| == 15 + |NatToString(status)|
            && m[..14] == "Server Error ("
            && m[14..|m| - 1] == NatToString(status)
            && DigitsValue(m[14..|m| - 1]) == status
  {
    NatToStringRoundTrip(status);
  }

  /** A server answer takes precedence over the request having gone out. */
  lemma ResponseWinsOverRequest(e: HttpError, formId: int, payload: StatusPayload)
    requires e.response.Some? && e.requestSent
    ensures ClassifyFailure(e, formId, payload).message == ServerErrorMessage(e.response.value.status)
  {
  }

  // ---------------------------------------------------------------------------
  // Submitting

  /** The id of the loaded form detail (`formData?.id`): none before the detail arrives. */
  function FormDataId(s: Session): Option<int> {
    if s.formData.Some? then s.formData.value.id else None
  }

  /** `formData?.id || form?.id`. */
  function ChosenFormId(formDataId: Option<int>, formPropId: Option<int>): (id: Option<int>)
    ensures TruthyId(id) <==> TruthyId(formDataId) || TruthyId(formPropId)
    ensures TruthyId(formDataId) ==> id == formDataId
  {
    if TruthyId(formDataId) then formDataId else formPropId
  }

  /** The request body: the issue keys only for Rejected, the due date only when present. */
  function BuildPayload(status: string, fields: IssueFields): (p: StatusPayload)
    ensures p.statusId == StatusIdFor(status)
    ensures p.issueDescription.Some? <==> status == RejectedLabel
    ensures p.issueSeverity.Some? <==> status == RejectedLabel
    ensures p.issueDueDate.Some? <==> status == RejectedLabel && fields.dueDate.Some?
    ensures status == RejectedLabel ==>
              p.issueDescription == Some(fields.description) && p.issueSeverity == Some(fields.severity)
              && p.issueDueDate == fields.dueDate
  {
    if status == RejectedLabel then
      StatusPayload(RejectedStatusId, Some(fields.description), Some(fields.severity), fields.dueDate)
    else StatusPayload(StatusIdFor(status), None, None, None)
  }

  const MissingIdMessage: string := "Form ID is missing"
  const MissingIdDetails: string := "Cannot update the form status because the form ID is missing."

  /** Whether the handler sends a request: it needs a form id and, for Rejected, valid fields. */
  predicate SubmitAllowed(s: Session, formPropId: Option<int>, todayStart: int) {
    TruthyId(ChosenFormId(FormDataId(s), formPropId))
    && (s.selectedStatus == RejectedLabel ==> ValidateIssueFields(s.selectedStatus, s.issueFields, todayStart).valid)
  }

  /** The handler up to the request: either it stopped (no form id, or invalid issue
      fields), or it has the form id and body to send. */
  datatype Prepared = Stopped(state: Session) | Ready(state: Session, formId: int, payload: StatusPayload)

  function PrepareSubmission(s: Session, formPropId: Option<int>, todayStart: int): (p: Prepared)
    ensures p.Ready? <==> SubmitAllowed(s, formPropId, todayStart)
    ensures p.Ready? ==>
              p.formId == ChosenFormId(FormDataId(s), formPropId).value
              && p.payload == BuildPayload(s.selectedStatus, s.issueFields)
    ensures !TruthyId(ChosenFormId(FormDataId(s), formPropId)) ==>
              p.state == s.(apiError := Some(ApiError(MissingIdMessage, MissingIdDetails, MissingIdDebug(FormDataId(s), formPropId))))
    ensures TruthyId(ChosenFormId(FormDataId(s), formPropId)) ==>
              p.state == s.(apiError := None, isSubmitting := false,
                            issueErrors := if s.selectedStatus == RejectedLabel
                                           then ValidateIssueFields(s.selectedStatus, s.issueFields, todayStart).errors
                                           else s.issueErrors)
  {
    var cleared := s.(apiError := None);
    var formId := ChosenFormId(FormDataId(s), formPropId);
    if !TruthyId(formId) then
      Stopped(cleared.(apiError := Some(ApiError(MissingIdMessage, MissingIdDetails, MissingIdDebug(FormDataId(s), formPropId)))))
    else if s.selectedStatus == RejectedLabel then
      var v := ValidateIssueFields(s.selectedStatus, s.issueFields, todayStart);
      var validated := cleared.(issueErrors := v.errors, isSubmitting := false);
      if v.valid then Ready(validated, formId.value, BuildPayload(s.selectedStatus, s.issueFields))
      else Stopped(validated)
    else Ready(cleared.(isSubmitting := false), formId.value, BuildPayload(s.selectedStatus, s.issueFields))
  }

  /** The outcome of pressing Update: the new state, the request sent if any (form id and
      body), and whether the page was reloaded after a successful update. */
  datatype Submission = Submission(state: Session, request: Option<(int, StatusPayload)>, reloaded: bool)

  /** `handleStatusChange`. `reply` is what the update request returns, if one is sent.
      `isSubmitting` is back to false when the handler returns; success alerts and
      reloads the page, failure shows the classified banner. */
  function HandleStatusChange(s: Session, formPropId: Option<int>, todayStart: int, reply: Reply<()>): (r: Submission)
    ensures r.request.Some? <==> SubmitAllowed(s, formPropId, todayStart)
    ensures r.request.Some? ==>
              r.request.value == (ChosenFormId(FormDataId(s), formPropId).value, BuildPayload(s.selectedStatus, s.issueFields))
    ensures r.reloaded <==> r.request.Some? && reply.Replied?
    ensures r.request.Some? && reply.Threw? ==>
              r.state == PrepareSubmission(s, formPropId, todayStart).state.(
                apiError := Some(ClassifyFailure(reply.error, r.request.value.0, r.request.value.1)))
    ensures r.request.None? || reply.Replied? ==> r.state == PrepareSubmission(s, formPropId, todayStart).state
  {
    match PrepareSubmission(s, formPropId, todayStart)
    case Stopped(st) => Submission(st, None, false)
    case Ready(st, formId, payload) =>
      match reply
      case Replied(_) => Submission(st, Some((formId, payload)), true)
      case Threw(e) => Submission(st.(apiError := Some(ClassifyFailure(e, formId, payload))), Some((formId, payload)), false)
  }

  /** A rejection that is sent always carries a due date, so the handler's own check for
      one never fails. */
  lemma SentRejectionHasDueDate(s: Session, formPropId: Option<int>, todayStart: int, reply: Reply<()>)
    requires s.selectedStatus == RejectedLabel
    ensures var r := HandleStatusChange(s, formPropId, todayStart, reply);
            r.request.Some? ==> r.request.value.1.issueDueDate.Some? && r.request.value.1.issueDueDate.value >= todayStart
  {
  }

  /** A rejection with invalid fields sends nothing and shows every field error. */
  lemma InvalidRejectionSendsNothing(s: Session, formId: int, todayStart: int, reply: Reply<()>)
    requires s.selectedStatus == RejectedLabel && formId != 0
    requires !ValidateIssueFields(RejectedLabel, s.issueFields, todayStart).valid
    ensures var r := HandleStatusChange(s, Some(formId), todayStart, reply);
            r.request.None? && !r.reloaded && r.state.issueErrors != map[]
  {
  }

  /** Once a detail with a truthy id is loaded, every update request goes to that id,
      whatever the prop carries. */
  lemma SubmissionTargetsLoadedForm(s: Session, formPropId: Option<int>, todayStart: int, reply: Reply<()>)
    requires s.formData.Some? && TruthyId(s.formData.value.id)
    ensures var r := HandleStatusChange(s, formPropId, todayStart, reply);
            r.request.Some? ==> r.request.value.0 == s.formData.value.id.value
  {
  }
}
