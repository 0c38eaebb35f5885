/** The state one open `FormReviewModal` holds, as one record, and the handlers that only
    move local state (start/cancel editing an issue, confirm/cancel deleting one).
    Every handler is one sequential transition from a session to a session; what the
    network answers is an input of the handler that sends the request. */
module ReviewState {
  import opened Basics

  /** Which snapshot of the form's issues is shown. */
  datatype IssueVersion = Current | Previous

  /** An issue raised against the form. Due dates are instants in seconds. */
  datatype Issue = Issue(id: int, description: string, severity: string, dueDate: Option<int>)

  datatype CorrectiveAction = CorrectiveAction(id: int, description: string, completionDate: Option<int>, verificationDate: Option<int>)

  /** The editable fields of an issue: the reject form's, or the edit form's. */
  datatype IssueFields = IssueFields(description: string, severity: string, dueDate: Option<int>)

  /** The keys of the issue-validation error map. */
  datatype Field = DescriptionField | SeverityField | DueDateField

  /** The body of a status-update request: `issue_*` keys are absent unless set. */
  datatype StatusPayload = StatusPayload(
    statusId: int,
    issueDescription: Option<string>,
    issueSeverity: Option<string>,
    issueDueDate: Option<int>)

  /** The technical details an API error keeps for disclosure on demand. */
  datatype Debug =
    | MissingIdDebug(formDataId: Option<int>, formPropId: Option<int>)
    | RequestDebug(formId: int, payload: StatusPayload, serverResponse: Option<ServerResponse>, errorMessage: string)
    | ErrorDebug(errorMessage: string)

  /** The banner shown below the status panel. */
  datatype ApiError = ApiError(message: string, details: string, debug: Debug)

  /** An AI compliance analysis. */
  datatype Analysis = Analysis(
    complianceScore: int,
    riskLevel: string,
    keyFindings: seq<string>,
    recommendations: seq<string>,
    areasOfConcern: seq<string>,
    positiveAspects: seq<string>)

  /** A stored analysis, which arrives either as an object or as JSON text. */
  datatype StoredAnalysis = AsObject(analysis: Analysis) | AsText(text: string)

  /** The form detail the server returns: its top-level `id`, and the stored analysis of
      its `form` under either spelling, `aiAnalysis` or `ai_analysis`. */
  datatype FormDetails = FormDetails(id: Option<int>, aiAnalysis: Option<StoredAnalysis>, aiAnalysisSnake: Option<StoredAnalysis>)

  datatype Session = Session(
    // detail load
    loading: bool,
    formData: Option<FormDetails>,
    formError: Option<string>,
    apiError: Option<ApiError>,
    // status panel
    selectedStatus: string,
    isSubmitting: bool,
    issueFields: IssueFields,
    issueErrors: map<Field, string>,
    // issue editing and deletion
    editingIssue: Option<Issue>,
    editFields: IssueFields,
    isDeleting: bool,
    deleteIssueId: Option<int>,
    // issue list
    issueVersion: IssueVersion,
    issuesLoading: bool,
    issues: seq<Issue>,
    correctiveActionCounts: map<int, int>,
    // corrective actions, per issue id
    expandedIssues: map<int, bool>,
    correctiveActions: map<int, seq<CorrectiveAction>>,
    loadingCorrectiveActions: map<int, bool>,
    // analysis
    aiAnalysis: Option<Analysis>,
    isAnalyzing: bool,
    analysisError: Option<string>)

  const EmptyFields: IssueFields := IssueFields("", "", None)

  /** The state a modal opens in, given the form's status label (`'Pending Review'` when
      it has none). */
  function Opened(status: Option<string>): (s: Session)
    ensures s.loading && s.issues == [] && s.issueVersion == Current
    ensures s.aiAnalysis.None? && !s.isAnalyzing && s.editingIssue.None? && !s.isDeleting
    ensures s.selectedStatus == TextOr(status, "Pending Review")
  {
    Session(true, None, None, None, TextOr(status, "Pending Review"), false, EmptyFields, map[],
            None, EmptyFields, false, None, Current, false, [], map[], map[], map[], map[],
            None, false, None)
  }

  /** `startEditIssue`: the edit form opens on the issue's own fields. */
  function StartEditIssue(s: Session, issue: Issue): (r: Session)
    ensures r.editingIssue == Some(issue)
    ensures r.editFields == IssueFields(issue.description, issue.severity, issue.dueDate)
    ensures r.(editingIssue := s.editingIssue, editFields := s.editFields) == s
  {
    s.(editingIssue := Some(issue), editFields := IssueFields(issue.description, issue.severity, issue.dueDate))
  }

  /** `cancelEditIssue`: no issue is being edited and the edit form is blank. */
  function CancelEditIssue(s: Session): (r: Session)
    ensures r.editingIssue.None? && r.editFields == EmptyFields
    ensures r.(editingIssue := s.editingIssue, editFields := s.editFields) == s
  {
    s.(editingIssue := None, editFields := EmptyFields)
  }

  /** Cancelling undoes starting an edit. */
  lemma CancelUndoesStartEdit(s: Session, issue: Issue)
    requires s.editingIssue.None? && s.editFields == EmptyFields
    ensures CancelEditIssue(StartEditIssue(s, issue)) == s
  {
  }

  /** `confirmDeleteIssue`: the confirmation dialog opens for the issue. */
  function ConfirmDeleteIssue(s: Session, issueId: int): (r: Session)
    ensures r.isDeleting && r.deleteIssueId == Some(issueId)
    ensures r.(isDeleting := s.isDeleting, deleteIssueId := s.deleteIssueId) == s
  {
    s.(deleteIssueId := Some(issueId), isDeleting := true)
  }

  /** `cancelDeleteIssue`: the confirmation dialog closes. */
  function CancelDeleteIssue(s: Session): (r: Session)
    ensures !r.isDeleting && r.deleteIssueId.None?
    ensures r.(isDeleting := s.isDeleting, deleteIssueId := s.deleteIssueId) == s
  {
    s.(deleteIssueId := None, isDeleting := false)
  }

  /** `expandedIssues[id]`, with a missing entry read as collapsed. */
  predicate IsExpanded(s: Session, issueId: int) {
    issueId in s.expandedIssues && s.expandedIssues[issueId]
  }

  /** `!correctiveActions[id]`: no list is cached. A cached empty list is an array and
      therefore truthy, so it counts as cached. */
  predicate ActionsCached(s: Session, issueId: int) {
    issueId in s.correctiveActions
  }
}
