# Nexus Comply: dashboard aggregation and form review, modelled in Dafny

This project models two pieces of the Nexus Comply audit-compliance application.

- **The administrator dashboard** (`DashboardController::index`). It computes:
  - the average audit completion time over a fixed June 2025 reporting window;
  - the month's three compliance buckets with their rounded percentages;
  - the five most relevant recent activities.

  When any query fails, it renders an empty page.
- **The manager's form review modal** (`FormReviewModal`). It:
  - loads a form's details and its stored AI analysis, or generates one;
  - lists the form's issues for the current or the previous version, with corrective-action counts fetched in one batch;
  - edits and deletes issues;
  - expands issues to show their corrective actions, which are fetched once and cached per issue;
  - validates and submits an approval or rejection, classifying a failed request into a banner;
  - shortens attachment file names for display.

Every handler is a pure function from a `Session` record (the modal's state) to a new one. What a request returns is an input: a `Reply` that either carries a body or the `HttpError` the client threw. The clock (`todayStart`, `monthStart`), JSON parsing (`parse`) and URL decoding (`decode`) are inputs too. The database the controller queries is an input (`Queried`): a snapshot of its tables, or the exception a query raised.

Modules:

| module | file | models |
|---|---|---|
| `Basics` | basics.dfy | optional values, request outcomes, JavaScript truthiness |
| `Text` | text.dfy | substring search, whitespace trimming, split-by-separator, decimal rendering |
| `Sorting` | sorting.dfy | a sort by integer key with a permutation guarantee |
| `Dashboard` | dashboard.dfy | `DashboardController::index` |
| `ReviewState` | review_state.dfy | the modal's state and its local-only handlers |
| `StatusUpdate` | status_update.dfy | `validateIssueFields`, `handleStatusChange` |
| `IssueList` | issue_list.dfy | `fetchIssues`, the version selector, `saveEditIssue`, `deleteIssue` |
| `CorrectiveActions` | corrective_actions.dfy | `toggleCorrectiveActions`, the edit/delete button rule |
| `FormLoad` | form_load.dfy | `fetchFormDetails`, `generateAIAnalysis`, the stored-analysis effect |
| `FileNames` | file_names.dfy | `extractFileName` |

Three behaviours of the code worth noting:

- A rejection's severity only has to be non-empty. It is not checked against the four listed levels (`StatusUpdate.AnySeverityPasses`).
- Any label other than `Rejected` is sent as status id 5. This includes the initial `Pending Review` (`StatusUpdate.UnknownLabelApproves`).
- Switching the issue version keeps the per-issue corrective-action cache and expansion flags (`IssueList.SetIssueVersion`).

## Model

| member | source | states |
|---|---|---|
| Dashboard.KeyByName | app_laravel/app/Http/Controllers/Admin/DashboardController.php:21 | The status map holds exactly the names some row carries. Each name maps to the id of the last row with that name, as a keyed collection overwrites earlier rows. |
| Dashboard.Qualifying | app_laravel/app/Http/Controllers/Admin/DashboardController.php:24-34 | An audit enters the average iff both times are present, its end lies between 2025-06-01 00:00:00 and 2025-06-30 23:59:59 inclusive, and it does not end before it starts. |
| Dashboard.QualifyingAppend | app_laravel/app/Http/Controllers/Admin/DashboardController.php:24-34 | The selection is row by row: selecting from two concatenated lists selects from each. |
| Dashboard.ContributionHours | app_laravel/app/Http/Controllers/Admin/DashboardController.php:35-39 | An audit contributes its duration in hours: never negative, and exactly its seconds divided by 3600. |
| Dashboard.SumHoursBounds | app_laravel/app/Http/Controllers/Admin/DashboardController.php:35-39 | The summed hours are at most the number of audits times any bound on each duration. |
| Dashboard.AverageCompletionTime | app_laravel/app/Http/Controllers/Admin/DashboardController.php:29-44 | The reported average is never negative, and it is 0 when no audit qualifies. |
| Dashboard.AverageAtMostLongest | app_laravel/app/Http/Controllers/Admin/DashboardController.php:29-44 | The average never exceeds the longest qualifying duration. |
| Dashboard.MalformedAuditIgnored | app_laravel/app/Http/Controllers/Admin/DashboardController.php:30-34 | Adding an audit that ends before it starts leaves the average unchanged. |
| Dashboard.InstantAuditQualifies | app_laravel/app/Http/Controllers/Admin/DashboardController.php:33 | An audit in the window that ends at its start instant qualifies, with a duration of 0 hours. |
| Dashboard.TwoAndAHalfHours | app_laravel/app/Http/Controllers/Admin/DashboardController.php:38 | A single 9000-second audit averages to exactly 2.5 hours. The average is not rounded. |
| Dashboard.ComputeAverage | app_laravel/app/Http/Controllers/Admin/DashboardController.php:29-44 | A single pass over the audits, summing and counting the qualifying ones, returns the reference average. |
| Dashboard.Percentage | app_laravel/app/Http/Controllers/Admin/DashboardController.php:78-80 | The percentage is count/total*100 rounded half up: p satisfies total*(2p-1) <= 200*count < total*(2p+1). It is at most 100 when count <= total. |
| Dashboard.Buckets | app_laravel/app/Http/Controllers/Admin/DashboardController.php:49-81 | Each bucket keeps its count. With no audits this month every percentage is 0; otherwise each is that bucket's rounded share of the sum of the three counts. |
| Dashboard.PercentagesNeedNotSumToHundred | app_laravel/app/Http/Controllers/Admin/DashboardController.php:74-81 | Counts 1, 1, 1 give 33, 33, 33: the percentages sum to 99, not 100. |
| Dashboard.Compliance | app_laravel/app/Http/Controllers/Admin/DashboardController.php:49-81 | Each bucket counts the audits created since the month's start whose status is the bucket's: `approved` for fully compliant, `pending` or `rejected` for partially compliant, `draft` for non-compliant. A missing status name matches audits without a status in the single-status buckets and matches nothing in the two-status one. The percentages are the rounded shares of those counts. |
| Dashboard.ComplianceSnoc | app_laravel/app/Http/Controllers/Admin/DashboardController.php:49-71 | One more audit raises by one exactly the buckets whose query it matches, and leaves the other counts as they were. |
| Dashboard.AuditLandsInItsBucket | app_laravel/app/Http/Controllers/Admin/DashboardController.php:49-71 | With the four statuses under distinct ids, an audit created this month raises the bucket of its status by one and no other. An audit created earlier, or with any other status, changes no count. |
| Dashboard.ComplianceWithinMonth | app_laravel/app/Http/Controllers/Admin/DashboardController.php:49-71 | When approved, pending, rejected and draft exist, and approved and draft have ids distinct from each other and from pending and rejected, no audit is counted twice. The buckets then hold at most the audits created since the month's start. |
| Dashboard.MissingStatusesCountNullTwice | app_laravel/app/Http/Controllers/Admin/DashboardController.php:51-68 | Without approved and draft statuses, both of those buckets match a null status, so one status-less audit is counted as fully and as non-compliant. |
| Dashboard.Priority | app_laravel/app/Http/Controllers/Admin/DashboardController.php:91-95 | The tie rank is 1 iff the details contain "was assigned to outlet". It is 2 iff they do not but contain "was created". Otherwise it is 3. |
| Dashboard.SortKeyMatchesComparator | app_laravel/app/Http/Controllers/Admin/DashboardController.php:88-97 | The comparator (newer first, then lower rank) is negative, zero or positive exactly when one integer key is less than, equal to or greater than the other. It is therefore a total preorder a sort can use. |
| Dashboard.FetchRecent | app_laravel/app/Http/Controllers/Admin/DashboardController.php:84-87 | The fetch returns min(20, n) entries drawn from the log. |
| Dashboard.RecentActivities | app_laravel/app/Http/Controllers/Admin/DashboardController.php:84-99 | The feed holds min(5, n) entries drawn from the fetched 20, in comparator order. |
| Dashboard.RecentAreAmongLatest | app_laravel/app/Http/Controllers/Admin/DashboardController.php:84-87 | Every shown entry is at least as new as every log entry the fetch left out. |
| Dashboard.RecentAreTheFirstFive | app_laravel/app/Http/Controllers/Admin/DashboardController.php:88-99 | Every shown entry sorts no later than every fetched entry that was not shown. |
| Dashboard.AssignmentWinsTies | app_laravel/app/Http/Controllers/Admin/DashboardController.php:89-96 | At equal times an assignment entry sorts before any entry that is not one. |
| Dashboard.ToEntries | app_laravel/app/Http/Controllers/Admin/DashboardController.php:100-106 | Each shown activity maps, position by position, to its id, details and time. |
| Dashboard.ComputeStatistics | app_laravel/app/Http/Controllers/Admin/DashboardController.php:41-46 | The outlet figure is the number of active outlets. The user figure is the number of users with a verified email. The pending figure is the number of audits whose status is `pending`, or audits without a status when no status has that name. The average is the reference average. |
| Dashboard.CountIsPositions | app_laravel/app/Http/Controllers/Admin/DashboardController.php:41-45 | Counting the rows that satisfy a condition gives the number of positions holding such a row. |
| Dashboard.Index | app_laravel/app/Http/Controllers/Admin/DashboardController.php:17-119 | A failed query gives empty statistics, empty compliance data and no activities. A readable database gives the statistics and compliance buckets of its tables, the reference average, and as the feed the min(5, n) most relevant of the 20 newest activities, in comparator order. |
| Dashboard.NeverPartial | app_laravel/app/Http/Controllers/Admin/DashboardController.php:108-118 | Statistics and compliance data are present together or absent together, and the fallback carries no activities. |
| Text.ContainsIffOccurs | app_laravel/app/Http/Controllers/Admin/DashboardController.php:92-93 | The substring test holds exactly when the phrase occurs at some position. |
| Sorting.SortByKey | app_laravel/app/Http/Controllers/Admin/DashboardController.php:88 | The sorted list is ordered by key and is a permutation of its input. |
| Sorting.PrefixOfSorted | app_laravel/app/Http/Controllers/Admin/DashboardController.php:98-99 | Taking a prefix of a sorted list keeps it sorted and drawn from the list. |
| ReviewState.Opened | app_laravel/resources/js/Pages/Manager/Audits/Partials/FormReviewModal.jsx:8-53 | A modal opens loading, on the current version, with no issues, analysis, edit or deletion. Its status is the form's, or "Pending Review" when that is empty. |
| ReviewState.StartEditIssue | app_laravel/resources/js/Pages/Manager/Audits/Partials/FormReviewModal.jsx:69-74 | The edit form opens on the issue's own description, severity and due date. Nothing else changes. |
| ReviewState.CancelEditIssue | app_laravel/resources/js/Pages/Manager/Audits/Partials/FormReviewModal.jsx:77-82 | No issue is being edited and the edit form is blank. Nothing else changes. |
| ReviewState.CancelUndoesStartEdit | app_laravel/resources/js/Pages/Manager/Audits/Partials/FormReviewModal.jsx:69-82 | From a state with no edit open, starting an edit and cancelling it returns exactly that state. |
| ReviewState.ConfirmDeleteIssue | app_laravel/resources/js/Pages/Manager/Audits/Partials/FormReviewModal.jsx:114-117 | The confirmation dialog opens for that issue id. Nothing else changes. |
| ReviewState.CancelDeleteIssue | app_laravel/resources/js/Pages/Manager/Audits/Partials/FormReviewModal.jsx:120-123 | The dialog closes and no issue awaits deletion. Nothing else changes. |
| StatusUpdate.ValidateIssueFields | app_laravel/resources/js/Pages/Manager/Audits/Partials/FormReviewModal.jsx:148-175 | Only a rejection is checked. The description errs iff it is blank after trimming. The severity errs iff it is empty. The due date errs iff it is absent or before today's midnight. Each error has its message, and the fields are valid iff there are no errors. |
| StatusUpdate.AllThreeErrorsReported | app_laravel/resources/js/Pages/Manager/Audits/Partials/FormReviewModal.jsx:148-175 | A blank description, an empty severity and a past date are reported together, not just the first. |
| StatusUpdate.DescriptionCheckIndependent | app_laravel/resources/js/Pages/Manager/Audits/Partials/FormReviewModal.jsx:152-154 | Whether the description errs depends on the description alone. |
| StatusUpdate.DueTodayPasses | app_laravel/resources/js/Pages/Manager/Audits/Partials/FormReviewModal.jsx:163-170 | A due date at any time today passes, because it is compared with today's midnight. |
| StatusUpdate.AnySeverityPasses | app_laravel/resources/js/Pages/Manager/Audits/Partials/FormReviewModal.jsx:156-158 | Any non-empty severity passes, whether or not it is a listed level. |
| StatusUpdate.StatusIdFor | app_laravel/resources/js/Pages/Manager/Audits/Partials/FormReviewModal.jsx:199-210 | The id is 4 iff the label is Rejected, and 5 for every other label. |
| StatusUpdate.UnknownLabelApproves | app_laravel/resources/js/Pages/Manager/Audits/Partials/FormReviewModal.jsx:199-210 | Submitting the initial "Pending Review" sends the same id as an approval. |
| StatusUpdate.ClassOf | app_laravel/resources/js/Pages/Manager/Audits/Partials/FormReviewModal.jsx:246-261 | A failure is a server error iff the server answered. It is "no response" iff it did not but a request was sent. It is a request error otherwise. |
| StatusUpdate.ClassifyFailure | app_laravel/resources/js/Pages/Manager/Audits/Partials/FormReviewModal.jsx:241-276 | The banner's message and details follow the class: "Server Error (status)" with the server's message or a default, the fixed no-response texts, or the error's message or "Unknown error". Its debug data keeps the form id, the request body, the server response and the error message. |
| StatusUpdate.ServerStatusReadsBack | app_laravel/resources/js/Pages/Manager/Audits/Partials/FormReviewModal.jsx:247 | The status code in a server-error banner can be read back from the text between the parentheses. |
| StatusUpdate.ResponseWinsOverRequest | app_laravel/resources/js/Pages/Manager/Audits/Partials/FormReviewModal.jsx:246-255 | When the server answered, the banner is a server error even though the request was also sent. |
| StatusUpdate.ChosenFormId | app_laravel/resources/js/Pages/Manager/Audits/Partials/FormReviewModal.jsx:183 | The id used is truthy iff the detail's id or the prop's id is. The detail's id is preferred. |
| StatusUpdate.BuildPayload | app_laravel/resources/js/Pages/Manager/Audits/Partials/FormReviewModal.jsx:213-228 | The body carries the label's status id. It has issue keys iff the status is Rejected, and then the form's values. It has a due date only when one was entered. |
| StatusUpdate.PrepareSubmission | app_laravel/resources/js/Pages/Manager/Audits/Partials/FormReviewModal.jsx:178-228 | A request is ready iff the loaded detail's id or the prop's id is truthy and, for a rejection, the fields are valid. A missing id shows the "Form ID is missing" banner. A rejection stores its field errors, and submission is off again after a stop. |
| StatusUpdate.HandleStatusChange | app_laravel/resources/js/Pages/Manager/Audits/Partials/FormReviewModal.jsx:178-279 | It sends exactly the prepared request, to the chosen form id, iff submission is allowed. It reloads iff that request succeeded. A failure shows the classified banner, and nothing else changes. |
| StatusUpdate.SubmissionTargetsLoadedForm | app_laravel/resources/js/Pages/Manager/Audits/Partials/FormReviewModal.jsx:183 | Once a detail with a truthy id is loaded, every update request goes to that id, whatever the prop's id. |
| StatusUpdate.SentRejectionHasDueDate | app_laravel/resources/js/Pages/Manager/Audits/Partials/FormReviewModal.jsx:160-228 | Every rejection that is sent was built from a chosen due-date instant no earlier than today's midnight. |
| StatusUpdate.InvalidRejectionSendsNothing | app_laravel/resources/js/Pages/Manager/Audits/Partials/FormReviewModal.jsx:217-221 | A rejection with invalid fields sends nothing, does not reload, and leaves field errors on display. |
| IssueList.EndpointFor | app_laravel/resources/js/Pages/Manager/Audits/Partials/FormReviewModal.jsx:335-353 | The current version reads the form's issues and the previous version reads its previous issues, both for the given form id. |
| IssueList.FetchOutcomeOf | app_laravel/resources/js/Pages/Manager/Audits/Partials/FormReviewModal.jsx:331-370 | Counts are requested iff the list is non-empty. A successful fetch shows the server's list (none when `data` is absent). Counts are replaced only when returned. A failure of either request keeps the old list and shows "Failed to fetch issues". |
| IssueList.FetchIssues | app_laravel/resources/js/Pages/Manager/Audits/Partials/FormReviewModal.jsx:331-373 | It reads the version's endpoint and changes only the list, the counts, the banner and the loading flag, which ends off. |
| IssueList.SetIssueVersion | app_laravel/resources/js/Pages/Manager/Audits/Partials/FormReviewModal.jsx:414-419 | Choosing a version sets it. Its issues are fetched from that version's endpoint iff the form prop has a truthy id; otherwise nothing else changes. The expansion flags and the action cache are kept. |
| IssueList.FetchReplacesWholesale | app_laravel/resources/js/Pages/Manager/Audits/Partials/FormReviewModal.jsx:366 | After a successful fetch the list is the server's, whatever was listed before. |
| IssueList.SaveEditIssue | app_laravel/resources/js/Pages/Manager/Audits/Partials/FormReviewModal.jsx:85-111 | With no issue being edited, nothing is sent. Otherwise an update of the edited issue's id with the edit form's description, severity and due date is sent. On success the form's current issues are re-fetched, whichever version is shown. On full success the list is replaced and the edit closes. A failure shows "Failed to update issue" and changes nothing else. |
| IssueList.DeleteIssue | app_laravel/resources/js/Pages/Manager/Audits/Partials/FormReviewModal.jsx:126-146 | With no truthy id awaiting deletion, nothing is sent. Otherwise a delete of that id is sent, and on success the form's current issues are re-fetched. On full success the list is replaced and the dialog closes. A failure shows "Failed to delete issue" and changes nothing else. |
| IssueList.EditReplacesList | app_laravel/resources/js/Pages/Manager/Audits/Partials/FormReviewModal.jsx:97-103 | After a successful edit the list is the server's, and the counts are not refreshed. |
| IssueList.DeleteReplacesList | app_laravel/resources/js/Pages/Manager/Audits/Partials/FormReviewModal.jsx:132-138 | After a successful delete the list is the server's, and the counts are not refreshed. |
| CorrectiveActions.ToggleCorrectiveActions | app_laravel/resources/js/Pages/Manager/Audits/Partials/FormReviewModal.jsx:527-560 | Only the issue's expansion flag flips. The list is requested iff the toggle expands an issue with no cached list. A reply is cached (absent `data` as empty), and a failure shows "Failed to fetch corrective actions". The issue's loading flag ends off. |
| CorrectiveActions.CacheHitNeverFetches | app_laravel/resources/js/Pages/Manager/Audits/Partials/FormReviewModal.jsx:534 | With a list cached, even an empty one, toggling never requests it and leaves the cache as it is. |
| CorrectiveActions.ExpandCollapseExpandFetchesOnce | app_laravel/resources/js/Pages/Manager/Audits/Partials/FormReviewModal.jsx:527-560 | Expand, collapse, expand requests the list once, and the issue ends expanded showing the fetched list. |
| CorrectiveActions.ToggleTwiceRestoresFlag | app_laravel/resources/js/Pages/Manager/Audits/Partials/FormReviewModal.jsx:529-531 | Two toggles restore the issue's expansion flag. |
| CorrectiveActions.ControlsShownDespiteRecordedActions | app_laravel/resources/js/Pages/Manager/Audits/Partials/FormReviewModal.jsx:1116-1117 | As written, an issue whose counts record actions still shows edit and delete while its list is not cached. |
| CorrectiveActions.CorrectedControlsOnlyWithoutActions | app_laravel/resources/js/Pages/Manager/Audits/Partials/FormReviewModal.jsx:1116-1117 | The corrected rule shows the controls only on current-version issues with no recorded and no cached action, and only where the written rule would. |
| CorrectiveActions.ClickEdit | app_laravel/resources/js/Pages/Manager/Audits/Partials/FormReviewModal.jsx:1009-1121 | Edit opens the issue's edit form, with the issue's own fields, exactly where the row is on screen with its buttons and the rule as written shows them: the list is loaded and holds the issue, and the issue is not the one being edited. Elsewhere it does nothing. Only the edit fields change. |
| CorrectiveActions.ClickDelete | app_laravel/resources/js/Pages/Manager/Audits/Partials/FormReviewModal.jsx:1009-1129 | Delete opens the confirmation for the issue exactly where the row is on screen with its buttons and the rule as written shows them. Elsewhere it does nothing. Only the deletion fields change. |
| CorrectiveActions.EditInProgressKept | app_laravel/resources/js/Pages/Manager/Audits/Partials/FormReviewModal.jsx:1023-1024 | The row being edited shows its form instead of its buttons, so neither click can discard an edit in progress. |
| CorrectiveActions.RecordedActionsStillMutable | app_laravel/resources/js/Pages/Manager/Audits/Partials/FormReviewModal.jsx:1116-1129 | As written, a listed issue whose counts record actions can still be opened for editing and put up for deletion while its list is not cached. |
| CorrectiveActions.MutationsRefetchShownVersion | app_laravel/resources/js/Pages/Manager/Audits/Partials/FormReviewModal.jsx:1117 | Edit and delete start only on the current version, so the re-fetch that follows them reads the version on screen. |
| CorrectiveActions.ClickEditCorrected | app_laravel/resources/js/Pages/Manager/Audits/Partials/FormReviewModal.jsx:1116-1121 | Under the corrected rule, Edit acts as the written one where the corrected rule shows the button and does nothing elsewhere. |
| CorrectiveActions.ClickDeleteCorrected | app_laravel/resources/js/Pages/Manager/Audits/Partials/FormReviewModal.jsx:1116-1129 | Under the corrected rule, Delete acts as the written one where the corrected rule shows the button and does nothing elsewhere. |
| CorrectiveActions.RecordedActionsBlockMutation | app_laravel/resources/js/Pages/Manager/Audits/Partials/FormReviewModal.jsx:1116 | Under the corrected rule, an issue with recorded actions can be neither edited nor deleted. |
| FormLoad.GenerationErrorOf | app_laravel/resources/js/Pages/Manager/Audits/Partials/FormReviewModal.jsx:589-594 | A thrown generation shows the server's `error` when present. Otherwise it shows the error's message, else a fixed text, and the result is never empty. |
| FormLoad.SettleGeneration | app_laravel/resources/js/Pages/Manager/Audits/Partials/FormReviewModal.jsx:576-597 | A settled generation shows the returned analysis on success. On failure it keeps whatever analysis is shown and shows the error. Generation ends not running, and only the analysis fields change. |
| FormLoad.GenerateAnalysisFrom | app_laravel/resources/js/Pages/Manager/Audits/Partials/FormReviewModal.jsx:564-597 | Called from an earlier render, the request is sent iff a form id exists and that render had no generation running and no analysis shown. What it sets lands on the state the modal has when it settles. |
| FormLoad.GenerateAnalysis | app_laravel/resources/js/Pages/Manager/Audits/Partials/FormReviewModal.jsx:564-597 | Clicked from the current render: without a form id only an error is shown. The request is sent iff a form id exists, no generation is running and no analysis is shown. Success shows the returned analysis, and failure shows the reply's error or a default. Only the analysis fields change, and generation ends not running. |
| FormLoad.GenerationIsIdempotent | app_laravel/resources/js/Pages/Manager/Audits/Partials/FormReviewModal.jsx:570-573 | Once an analysis is shown, asking again sends nothing and changes nothing. |
| FormLoad.FailedGenerationCanRetry | app_laravel/resources/js/Pages/Manager/Audits/Partials/FormReviewModal.jsx:576-597 | After a failed generation a new request can be sent. |
| FormLoad.EitherStored | app_laravel/resources/js/Pages/Manager/Audits/Partials/FormReviewModal.jsx:296 | The stored analysis is the first truthy one of the two spellings. It is truthy iff either is. |
| FormLoad.ReadStored | app_laravel/resources/js/Pages/Manager/Audits/Partials/FormReviewModal.jsx:297-312 | Nothing is read iff the value is falsy. An object is used as is. Text is parsed, and it is unreadable iff the parse fails. |
| FormLoad.AdoptInitialAnalysis | app_laravel/resources/js/Pages/Manager/Audits/Partials/FormReviewModal.jsx:385-411 | The prop's stored analysis (`ai_analysis` first) is shown. Unreadable text shows the format error. Nothing stored leaves the state alone. |
| FormLoad.InitialAnalysisSuppressesGeneration | app_laravel/resources/js/Pages/Manager/Audits/Partials/FormReviewModal.jsx:313-316 | Under the corrected guard, an analysis taken from the prop keeps a later detail load without one from generating, and it stays shown. |
| FormLoad.AfterDetails | app_laravel/resources/js/Pages/Manager/Audits/Partials/FormReviewModal.jsx:293-322 | The detail is kept and loading ends. Issues are fetched iff the stored analysis is not unreadable text. A generation is sent iff nothing is stored and the render the load runs in had no analysis shown and none generating. A successful one shows its analysis. A stored analysis is what is shown. Unreadable text stops with only the format error. |
| FormLoad.FetchFormDetails | app_laravel/resources/js/Pages/Manager/Audits/Partials/FormReviewModal.jsx:283-328 | Loading always ends. A missing form id shows "No form ID provided". A failed detail request shows its message or "Failed to load form details". Neither case sends anything further. |
| FormLoad.OpeningLoadGeneratesIffNothingStored | app_laravel/resources/js/Pages/Manager/Audits/Partials/FormReviewModal.jsx:380-382 | The load started on opening generates exactly when the detail reply stores no analysis, whatever the modal shows when the reply arrives. |
| FormLoad.PropAnalysisReplacedOnOpen | app_laravel/resources/js/Pages/Manager/Audits/Partials/FormReviewModal.jsx:313-316 | An analysis adopted from the prop does not stop the opening load from generating, and a successful generation replaces it. |
| FormLoad.FetchFormDetailsCorrected | app_laravel/resources/js/Pages/Manager/Audits/Partials/FormReviewModal.jsx:313-316 | With the guard reading the state the modal has when the reply arrives, an analysis already shown is never regenerated and something stays shown. |
| FormLoad.ParseFailureSkipsIssueFetch | app_laravel/resources/js/Pages/Manager/Audits/Partials/FormReviewModal.jsx:300-307 | Stored text that does not parse stops the load before issues are requested, so the list stays as it was. |
| FormLoad.StoredAnalysisSuppressesGeneration | app_laravel/resources/js/Pages/Manager/Audits/Partials/FormReviewModal.jsx:297-317 | A stored analysis object means no generation request. Issues are still fetched, and the stored analysis is shown. |
| FormLoad.GenerationAndIssueFetchCommute | app_laravel/resources/js/Pages/Manager/Audits/Partials/FormReviewModal.jsx:313-319 | The un-awaited generation and the issue fetch set disjoint state, so either order of arrival gives the same state. |
| FileNames.RawFileName | app_laravel/resources/js/Pages/Manager/Audits/Partials/FormReviewModal.jsx:504-508 | The raw name never contains a query separator. |
| FileNames.Extension | app_laravel/resources/js/Pages/Manager/Audits/Partials/FormReviewModal.jsx:515 | The extension contains no dot, and it is empty for a name without one. |
| FileNames.Shorten | app_laravel/resources/js/Pages/Manager/Audits/Partials/FormReviewModal.jsx:514-519 | A name of at most 40 characters is kept. A longer one is its first 37 characters, then "...", then "." and the extension when there is one, and nothing more. |
| FileNames.ExtractFileName | app_laravel/resources/js/Pages/Manager/Audits/Partials/FormReviewModal.jsx:499-524 | An empty URL shows "File". An undecodable name shows "Attached File". Otherwise the decoded, shortened last path segment is shown. |
| FileNames.RawFileNameOfBuiltUrl | app_laravel/resources/js/Pages/Manager/Audits/Partials/FormReviewModal.jsx:504-508 | For a URL built as directory, "/", name and optional "?query", the raw name is exactly the name. |
| FileNames.ShortNameShownAsUploaded | app_laravel/resources/js/Pages/Manager/Audits/Partials/FormReviewModal.jsx:499-521 | A short name that decodes to itself is shown as it was uploaded. |
| FileNames.ShortenKeepsExtension | app_laravel/resources/js/Pages/Manager/Audits/Partials/FormReviewModal.jsx:514-517 | Shortening keeps the extension of every name that has a dot. |
| FileNames.LongNameWithoutDot | app_laravel/resources/js/Pages/Manager/Audits/Partials/FormReviewModal.jsx:515-516 | A long name without a dot ends in the ellipsis, with nothing after it. |
| Text.TrimEmptyIffBlank | app_laravel/resources/js/Pages/Manager/Audits/Partials/FormReviewModal.jsx:152 | Trimming yields the empty string iff every character is JavaScript whitespace. |
| Text.NatToStringRoundTrip | app_laravel/resources/js/Pages/Manager/Audits/Partials/FormReviewModal.jsx:247 | The decimal rendering of a number reads back as that number. |

## Left out

- Database access, Inertia rendering, HTTP transport, `console` logging, `alert` and the page reload are left out. Query results and request outcomes are inputs, and the reload is a flag.
- Dashboard.AverageCompletionTime: Laravel's float average is modelled with exact reals, so floating-point rounding of seconds/3600 is not modelled.
- Dashboard.Percentage: `round()` of the float `count/total*100` is modelled exactly. Float error before rounding is assumed not to move a value across .5.
- The timestamps are integer seconds on one clock. The window bounds are the UTC instants of the literal strings. Carbon's time-zone conversions and the string form `strcmp` compares are not modelled, and `strcmp` is taken to agree with time order for same-format timestamps.
- `Carbon::now()->startOfMonth()` is the `monthStart` input, and `diffForHumans()` text is not produced (entries keep `createdAt`).
- The database's order among rows with equal `created_at` under `latest()->take(20)` is unspecified. The model fixes it to the log's order.
- Sorting.SortByKey: stability (equal keys keep input order) is not proved, only order and permutation. The insertion sort keeps equal keys in input order, as PHP 8's `sort` does, but no contract says so. When entries tie on time and rank around the fifth place, the tie order decides which of them are shown.
- React scheduling is left out: each handler runs to completion as one transition. The detail load is the one handler modelled with the render it closes over (`seen`), because its guards read that render's state while the modal has moved on. Other stale closures and interleavings with other handlers are not modelled. The one interleaving the load leaves open (generation versus issue fetch) is covered by FormLoad.GenerationAndIssueFetchCommute.
- The effect that clears `apiError` and `issueErrors` when the status or the issue fields change (FormReviewModal.jsx lines 59-68) is not modelled, and neither is `showStatusError` or `responseDebug`.
- The due date is an instant. The `YYYY-MM-DD` text `toISOString` produces for the request is not modelled (the payload keeps the instant).
- StatusUpdate.SentRejectionHasDueDate: states the bound for the chosen instant, not for the date sent. The request carries the UTC calendar date of that instant (line 226), so for a user east of UTC who picks today's local midnight the date sent is yesterday's.
- IssueList.SaveEditIssue: the body's due date is the instant, not the UTC `YYYY-MM-DD` text sent at line 92.
- The issue-version effect also runs when the modal opens, alongside the detail load's own issue fetch. IssueList.SetIssueVersion models it as the selector's change only.
- String lengths are counted in characters. JavaScript's UTF-16 code units are not modelled, and neither is URL decoding, which is the `decode` input.
- JSON parsing is the `parse` input. Text that parses to something other than an analysis object, such as `null`, is not distinguished.
- The "Try Again" button inside the form view (lines 709-725) is unreachable, because a form error returns early at line 609. It is not modelled.
- Rendering (JSX, badge classes, date formatting helpers) is not modelled beyond the rule that decides whether edit/delete buttons are shown.

## Findings

| source | as written | input that shows it | evidently intended | confidence | as-written member | corrected member |
|---|---|---|---|---|---|---|
| app_laravel/resources/js/Pages/Manager/Audits/Partials/FormReviewModal.jsx:1116-1117 | Edit/delete buttons show when the issue's action list is not cached or is empty. The batch counts are not consulted. | A current-version issue with `correctiveActionCounts[id] = 1` whose actions were never expanded shows Edit and Delete. | The comment says the buttons are only for issues that "don't have corrective actions", so an issue whose counts record an action should not offer them. | not executed | CorrectiveActions.ControlsShownDespiteRecordedActions | CorrectiveActions.CorrectedControlsOnlyWithoutActions |
| app_laravel/resources/js/Pages/Manager/Audits/Partials/FormReviewModal.jsx:313-316 | The load started on opening checks `!aiAnalysis` and calls `generateAIAnalysis` from the first render's closure, where the analysis is still `null`. | A form prop carrying an analysis object and a detail reply without one: the prop's analysis is adopted, a generation is still sent, and a successful one replaces the adopted analysis. | The comment says generation is for an analysis "not already loaded from props", so an adopted analysis should suppress it. | medium; not executed | FormLoad.PropAnalysisReplacedOnOpen | FormLoad.InitialAnalysisSuppressesGeneration |
