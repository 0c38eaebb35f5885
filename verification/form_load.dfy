/** Loading an open review: the form detail request (`fetchFormDetails`), reading the
    analysis stored with the form, and asking the server for a new one when none exists
    (`generateAIAnalysis`). JSON parsing is an input (`parse`), a partial function: `None`
    is the exception `JSON.parse` throws. */
module FormLoad {
  import opened Basics
  import opened ReviewState
  import opened IssueList

  const NoFormIdForAnalysis: string := "No form ID provided for analysis"
  const GenerationFailed: string := "Failed to generate analysis"
  const GenerationThrew: string := "Failed to generate AI analysis"
  const NoFormId: string := "No form ID provided"
  const DetailsFailed: string := "Failed to load form details"
  const UnreadableAnalysis: string := "Could not display saved analysis. Data format error."

  /** The body of the generate-analysis reply. */
  datatype AnalysisReply = AnalysisReply(success: bool, analysis: Option<Analysis>, error: Option<string>)

  /** What generation did: the new state and whether the request was sent. */
  datatype Generated = Generated(state: Session, requested: bool)

  /** The message for a generation request that threw: the server's `error` field, else
      the error's own message, else a fixed text. */
  function GenerationErrorOf(e: HttpError): (m: string)
    ensures m != ""
    ensures e.response.Some? && TruthyText(e.response.value.error) ==> m == e.response.value.error.value
    ensures !(e.response.Some? && TruthyText(e.response.value.error)) && e.message != "" ==> m == e.message
  {
    var fromServer := if e.response.Some? then e.response.value.error else None;
    TextOr(fromServer, TextOr(Some(e.message), GenerationThrew))
  }

  /** What a sent generation request leaves behind once it settles, applied to the state as
      it is when the reply arrives: the returned analysis on success, the error otherwise,
      and no generation running. Only the three analysis fields change. */
  function SettleGeneration(s: Session, reply: Reply<AnalysisReply>): (r: Session)
    ensures !r.isAnalyzing
    ensures reply.Replied? && reply.body.success ==>
              r.aiAnalysis == reply.body.analysis && r.analysisError.None?
    ensures reply.Replied? && !reply.body.success ==>
              r.aiAnalysis == s.aiAnalysis && r.analysisError == Some(TextOr(reply.body.error, GenerationFailed))
    ensures reply.Threw? ==>
              r.aiAnalysis == s.aiAnalysis && r.analysisError == Some(GenerationErrorOf(reply.error))
    ensures r.(aiAnalysis := s.aiAnalysis, isAnalyzing := s.isAnalyzing, analysisError := s.analysisError) == s
  {
    // `isAnalyzing` is on while the request is out and off again once it settles.
    var analysis := if reply.Replied? && reply.body.success then reply.body.analysis else s.aiAnalysis;
    var error :=
      match reply
      case Replied(body) => if body.success then None else Some(TextOr(body.error, GenerationFailed))
      case Threw(e) => Some(GenerationErrorOf(e));
    s.(aiAnalysis := analysis, analysisError := error, isAnalyzing := false)
  }

  /** `generateAIAnalysis` called from a render whose state was `seen`: its guards read the
      captured `seen`, while what it sets lands on the state `s` the modal has by then.
      Without a form id only an error is shown; while `seen` has a generation running or an
      analysis shown nothing happens; otherwise the request is sent and settles. */
  function GenerateAnalysisFrom(seen: Session, s: Session, formPropId: Option<int>, reply: Reply<AnalysisReply>): (r: Generated)
    ensures !TruthyId(formPropId) ==>
              r == Generated(s.(analysisError := Some(NoFormIdForAnalysis)), false)
    ensures r.requested <==> TruthyId(formPropId) && !seen.isAnalyzing && seen.aiAnalysis.None?
    ensures TruthyId(formPropId) && !r.requested ==> r.state == s
    ensures r.requested ==> r.state == SettleGeneration(s, reply)
  {
    if !TruthyId(formPropId) then Generated(s.(analysisError := Some(NoFormIdForAnalysis)), false)
    else if seen.isAnalyzing || seen.aiAnalysis.Some? then Generated(s, false)
    else Generated(SettleGeneration(s, reply), true)
  }

  /** `generateAIAnalysis` from the button, whose render shows the current state: without a
      form id only an error is shown; while a generation runs or an analysis is shown
      nothing happens; otherwise the request is sent and its analysis, or its error, is
      shown. Only the three analysis fields ever change. */
  function GenerateAnalysis(s: Session, formPropId: Option<int>, reply: Reply<AnalysisReply>): (r: Generated)
    ensures !TruthyId(formPropId) ==>
              r == Generated(s.(analysisError := Some(NoFormIdForAnalysis)), false)
    ensures r.requested <==> TruthyId(formPropId) && !s.isAnalyzing && s.aiAnalysis.None?
    ensures TruthyId(formPropId) && !r.requested ==> r.state == s
    ensures r.requested ==> !r.state.isAnalyzing
    ensures r.requested && reply.Replied? && reply.body.success ==>
              r.state.aiAnalysis == reply.body.analysis && r.state.analysisError.None?
    ensures r.requested && reply.Replied? && !reply.body.success ==>
              r.state.aiAnalysis.None?
              && r.state.analysisError == Some(TextOr(reply.body.error, GenerationFailed))
    ensures r.requested && reply.Threw? ==>
              r.state.aiAnalysis.None? && r.state.analysisError == Some(GenerationErrorOf(reply.error))
    ensures r.state.(aiAnalysis := s.aiAnalysis, isAnalyzing := s.isAnalyzing, analysisError := s.analysisError) == s
  {
    GenerateAnalysisFrom(s, s, formPropId, reply)
  }

  /** Once an analysis is shown, asking again sends nothing and changes nothing. */
  lemma GenerationIsIdempotent(s: Session, formPropId: Option<int>, body: AnalysisReply, again: Reply<AnalysisReply>)
    requires TruthyId(formPropId) && body.success && body.analysis.Some?
    ensures var first := GenerateAnalysis(s, formPropId, Replied(body));
            var second := GenerateAnalysis(first.state, formPropId, again);
            !second.requested && second.state == first.state
  {
  }

  /** A failed generation can be retried: it leaves no analysis and no generation running. */
  lemma FailedGenerationCanRetry(s: Session, formPropId: Option<int>, failure: Reply<AnalysisReply>, again: Reply<AnalysisReply>)
    requires TruthyId(formPropId) && !s.isAnalyzing && s.aiAnalysis.None?
    requires failure.Threw? || !failure.body.success
    ensures GenerateAnalysis(GenerateAnalysis(s, formPropId, failure).state, formPropId, again).requested
  {
  }

  // ---------------------------------------------------------------------------
  // The stored analysis

  /** JavaScript truthiness of a stored analysis: an object always, text unless empty. */
  predicate StoredTruthy(a: Option<StoredAnalysis>) {
    a.Some? && (a.value.AsText? ==> a.value.text != "")
  }

  /** `a || b` on two stored analyses. */
  function EitherStored(a: Option<StoredAnalysis>, b: Option<StoredAnalysis>): (r: Option<StoredAnalysis>)
    ensures StoredTruthy(r) <==> StoredTruthy(a) || StoredTruthy(b)
    ensures StoredTruthy(a) ==> r == a
    ensures !StoredTruthy(a) ==> r == b
  {
    if StoredTruthy(a) then a else b
  }

  /** What reading a stored analysis gives: nothing stored, an analysis, or text that does
      not parse. */
  datatype StoredRead = NothingStored | Read(analysis: Analysis) | Unparsable

  function ReadStored(a: Option<StoredAnalysis>, parse: string -> Option<Analysis>): (r: StoredRead)
    ensures r.NothingStored? <==> !StoredTruthy(a)
    ensures StoredTruthy(a) && a.value.AsObject? ==> r == Read(a.value.analysis)
    ensures StoredTruthy(a) && a.value.AsText? ==>
              (r.Unparsable? <==> parse(a.value.text).None?)
              && (parse(a.value.text).Some? ==> r == Read(parse(a.value.text).value))
  {
    if !StoredTruthy(a) then NothingStored
    else
      match a.value
      case AsObject(x) => Read(x)
      case AsText(t) =>
        match parse(t)
        case Some(x) => Read(x)
        case None => Unparsable
  }

  /** The analysis stored with the form prop, read when the modal opens or the prop changes
      (`ai_analysis` first): a stored analysis is shown, unreadable text shows an error, and
      nothing stored leaves the state alone. */
  function AdoptInitialAnalysis(s: Session, snake: Option<StoredAnalysis>, camel: Option<StoredAnalysis>,
                                parse: string -> Option<Analysis>): (r: Session)
    ensures ReadStored(EitherStored(snake, camel), parse).NothingStored? ==> r == s
    ensures ReadStored(EitherStored(snake, camel), parse).Read? ==>
              r == s.(aiAnalysis := Some(ReadStored(EitherStored(snake, camel), parse).analysis))
    ensures ReadStored(EitherStored(snake, camel), parse).Unparsable? ==>
              r == s.(analysisError := Some(UnreadableAnalysis))
  {
    match ReadStored(EitherStored(snake, camel), parse)
    case NothingStored => s
    case Read(x) => s.(aiAnalysis := Some(x))
    case Unparsable => s.(analysisError := Some(UnreadableAnalysis))
  }

  // ---------------------------------------------------------------------------
  // The detail load

  /** What the detail load did: the new state, and which follow-up requests it sent. */
  datatype Loaded = Loaded(state: Session, generation: bool, issuesFetched: bool)

  /** The steps after the detail reply arrived, run in the closure of the render whose
      state was `seen`: show the stored analysis, or, when none is stored and `seen` shows
      none, generate one; then fetch the issues of `seen`'s version. What they set lands on
      the state `s` the modal has when the reply arrives. */
  function AfterDetails(s: Session, seen: Session, formId: int, d: FormDetails, parse: string -> Option<Analysis>,
                        analysisReply: Reply<AnalysisReply>,
                        issuesReply: Reply<Option<seq<Issue>>>, countsReply: Reply<Option<map<int, int>>>): (r: Loaded)
    requires formId != 0
    ensures r.state.formData == Some(d) && !r.state.loading
    ensures r.issuesFetched <==> !ReadStored(EitherStored(d.aiAnalysis, d.aiAnalysisSnake), parse).Unparsable?
    ensures r.generation <==>
              ReadStored(EitherStored(d.aiAnalysis, d.aiAnalysisSnake), parse).NothingStored?
              && seen.aiAnalysis.None? && !seen.isAnalyzing
    ensures r.generation && analysisReply.Replied? && analysisReply.body.success ==>
              r.state.aiAnalysis == analysisReply.body.analysis
    ensures ReadStored(EitherStored(d.aiAnalysis, d.aiAnalysisSnake), parse).Read? ==>
              r.state.aiAnalysis == Some(ReadStored(EitherStored(d.aiAnalysis, d.aiAnalysisSnake), parse).analysis)
    ensures ReadStored(EitherStored(d.aiAnalysis, d.aiAnalysisSnake), parse).Unparsable? ==>
              r.state == s.(formData := Some(d), analysisError := Some(UnreadableAnalysis), loading := false)
  {
    var shown := s.(formData := Some(d));
    match ReadStored(EitherStored(d.aiAnalysis, d.aiAnalysisSnake), parse)
    case Unparsable => Loaded(shown.(analysisError := Some(UnreadableAnalysis), loading := false), false, false)
    case Read(x) =>
      var f := FetchIssues(shown.(aiAnalysis := Some(x)), formId, seen.issueVersion, issuesReply, countsReply);
      Loaded(f.state.(loading := false), false, true)
    case NothingStored =>
      var g := if seen.aiAnalysis.None? then GenerateAnalysisFrom(seen, shown, Some(formId), analysisReply) else Generated(shown, false);
      var f := FetchIssues(g.state, formId, seen.issueVersion, issuesReply, countsReply);
      Loaded(f.state.(loading := false), g.requested, true)
  }

  /** `fetchFormDetails` run in the closure of the render whose state was `seen`: without a
      form id, or when the detail request fails, the modal shows the load error; otherwise
      the detail is kept and `AfterDetails` runs. */
  function FetchFormDetails(s: Session, seen: Session, formPropId: Option<int>, detailsReply: Reply<FormDetails>,
                            parse: string -> Option<Analysis>, analysisReply: Reply<AnalysisReply>,
                            issuesReply: Reply<Option<seq<Issue>>>, countsReply: Reply<Option<map<int, int>>>): (r: Loaded)
    ensures !r.state.loading
    ensures !TruthyId(formPropId) ==>
              r == Loaded(s.(formError := Some(NoFormId), loading := false), false, false)
    ensures TruthyId(formPropId) && detailsReply.Threw? ==>
              r == Loaded(s.(formError := Some(TextOr(Some(detailsReply.error.message), DetailsFailed)), loading := false), false, false)
    ensures TruthyId(formPropId) && detailsReply.Replied? ==>
              r == AfterDetails(s, seen, formPropId.value, detailsReply.body, parse, analysisReply, issuesReply, countsReply)
  {
    if !TruthyId(formPropId) then Loaded(s.(formError := Some(NoFormId), loading := false), false, false)
    else
      match detailsReply
      case Threw(e) => Loaded(s.(formError := Some(TextOr(Some(e.message), DetailsFailed)), loading := false), false, false)
      case Replied(d) => AfterDetails(s, seen, formPropId.value, d, parse, analysisReply, issuesReply, countsReply)
  }

  /** The load the opening effect starts runs in the first render's closure, where no
      analysis is shown and none is generating: it generates exactly when the detail reply
      stores no analysis, whatever the modal shows by the time the reply arrives. */
  lemma OpeningLoadGeneratesIffNothingStored(s: Session, status: Option<string>, formId: int, d: FormDetails,
                                             parse: string -> Option<Analysis>, analysisReply: Reply<AnalysisReply>,
                                             issuesReply: Reply<Option<seq<Issue>>>, countsReply: Reply<Option<map<int, int>>>)
    requires formId != 0
    ensures FetchFormDetails(s, Opened(status), Some(formId), Replied(d), parse, analysisReply, issuesReply, countsReply).generation
            <==> ReadStored(EitherStored(d.aiAnalysis, d.aiAnalysisSnake), parse).NothingStored?
  {
  }

  /** An analysis adopted from the form prop does not stop the opening load from generating
      when the detail reply stores none: the load's guard still sees the first render's
      empty analysis, and a successful generation replaces the adopted one. */
  lemma PropAnalysisReplacedOnOpen(status: Option<string>, a: Analysis, b: Analysis, formId: int, d: FormDetails,
                                   parse: string -> Option<Analysis>,
                                   issuesReply: Reply<Option<seq<Issue>>>, countsReply: Reply<Option<map<int, int>>>)
    requires formId != 0 && a != b
    requires !StoredTruthy(d.aiAnalysis) && !StoredTruthy(d.aiAnalysisSnake)
    ensures var withProp := AdoptInitialAnalysis(Opened(status), Some(AsObject(a)), None, parse);
            var r := FetchFormDetails(withProp, Opened(status), Some(formId), Replied(d), parse,
                                      Replied(AnalysisReply(true, Some(b), None)), issuesReply, countsReply);
            withProp.aiAnalysis == Some(a) && r.generation && r.state.aiAnalysis == Some(b)
  {
  }

  /** The load as its comment intends it: the guard reads the state the modal has when the
      detail reply arrives, so an analysis already shown is never regenerated and stays
      shown unless the reply stores another. */
  function FetchFormDetailsCorrected(s: Session, formPropId: Option<int>, detailsReply: Reply<FormDetails>,
                                     parse: string -> Option<Analysis>, analysisReply: Reply<AnalysisReply>,
                                     issuesReply: Reply<Option<seq<Issue>>>, countsReply: Reply<Option<map<int, int>>>): (r: Loaded)
    ensures s.aiAnalysis.Some? ==> !r.generation && r.state.aiAnalysis.Some?
    ensures s.aiAnalysis.None? && !s.isAnalyzing ==>
              r == FetchFormDetails(s, s, formPropId, detailsReply, parse, analysisReply, issuesReply, countsReply)
  {
    FetchFormDetails(s, s, formPropId, detailsReply, parse, analysisReply, issuesReply, countsReply)
  }

  /** Under the corrected guard, an analysis taken from the prop keeps a detail reply
      without one from generating, and it stays shown. */
  lemma InitialAnalysisSuppressesGeneration(s: Session, a: Analysis, formId: int, d: FormDetails,
                                            parse: string -> Option<Analysis>, analysisReply: Reply<AnalysisReply>,
                                            issuesReply: Reply<Option<seq<Issue>>>, countsReply: Reply<Option<map<int, int>>>)
    requires formId != 0
    requires !StoredTruthy(d.aiAnalysis) && !StoredTruthy(d.aiAnalysisSnake)
    ensures var withProp := AdoptInitialAnalysis(s, Some(AsObject(a)), None, parse);
            var r := FetchFormDetailsCorrected(withProp, Some(formId), Replied(d), parse, analysisReply, issuesReply, countsReply);
            !r.generation && r.issuesFetched && r.state.aiAnalysis == Some(a)
  {
  }

  /** Stored text that does not parse stops the load before the issues are requested: the
      issue list stays as it was. */
  lemma ParseFailureSkipsIssueFetch(s: Session, formId: int, d: FormDetails, parse: string -> Option<Analysis>,
                                    analysisReply: Reply<AnalysisReply>,
                                    issuesReply: Reply<Option<seq<Issue>>>, countsReply: Reply<Option<map<int, int>>>)
    requires formId != 0
    requires d.aiAnalysis == Some(AsText("{")) && parse("{").None?
    ensures var r := FetchFormDetails(s, s, Some(formId), Replied(d), parse, analysisReply, issuesReply, countsReply);
            !r.issuesFetched && !r.generation
            && r.state.issues == s.issues && r.state.analysisError == Some(UnreadableAnalysis)
  {
  }

  /** A stored analysis means no generation request, and the stored one is what is shown. */
  lemma StoredAnalysisSuppressesGeneration(s: Session, formId: int, d: FormDetails, a: Analysis,
                                           analysisReply: Reply<AnalysisReply>,
                                           issuesReply: Reply<Option<seq<Issue>>>, countsReply: Reply<Option<map<int, int>>>)
    requires formId != 0 && d.aiAnalysis == Some(AsObject(a))
    ensures forall parse: string -> Option<Analysis> ::
              var r := FetchFormDetails(s, s, Some(formId), Replied(d), parse, analysisReply, issuesReply, countsReply);
              !r.generation && r.issuesFetched && r.state.aiAnalysis == Some(a)
  {
  }

  /** The generation request is not awaited before the issues are fetched; what the two
      set touches disjoint parts of the state, so either order of arrival ends in the same
      state. */
  lemma GenerationAndIssueFetchCommute(s: Session, formId: int, version: IssueVersion,
                                       analysisReply: Reply<AnalysisReply>,
                                       issuesReply: Reply<Option<seq<Issue>>>, countsReply: Reply<Option<map<int, int>>>)
    ensures FetchIssues(SettleGeneration(s, analysisReply), formId, version, issuesReply, countsReply).state
            == SettleGeneration(FetchIssues(s, formId, version, issuesReply, countsReply).state, analysisReply)
  {
  }
}
