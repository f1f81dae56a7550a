/**
 The validator (`graph/thesis_validation.py`) and the compiler (`graph/thesis_compiler.py`) of
 thesis candidates, which have to agree on what a publishable thesis is.
 */
module ThesisArtifact {
  import opened Text
  import Stability
  import Confidence

  // ----- candidates -----

  /** `observed` is the evidence kind. */
  datatype EvidenceItem = EvidenceItem(observed: bool)

  /** Plain items carry no evidence of their own. */
  datatype ResearchItem = ResearchItem(text: string, evidence: seq<EvidenceItem>)

  datatype Candidate = Candidate(
    rating: string,
    direction: string,
    confidence: Option<int>,
    marketType: string,
    actionSummary: string,
    investmentThesis: string,
    confirmation: string,
    invalidation: string,
    entryZone: string,
    targetZones: seq<string>,
    profitTargets: seq<string>,
    downsideObjectives: seq<string>,
    accumulationZones: seq<string>,
    keyReasons: seq<ResearchItem>,
    risks: seq<ResearchItem>,
    monitorNext: seq<ResearchItem>,
    supportingEvidence: seq<EvidenceItem>,
    missingData: seq<string>)

  /** The structured payload: its schema version as text, and the candidate if it parses. */
  datatype Payload = Payload(schemaVersion: string, parsed: Option<Candidate>)

  // ----- the validator -----

  datatype Severity = Blocker | Warning

  datatype Issue = Issue(code: string, severity: Severity)

  datatype Status = Valid | Degraded | Blocked

  datatype Validation = Validation(
    status: Status, issues: seq<Issue>, degradationReasons: seq<string>, blockedReasons: seq<string>,
    confidenceCap: Option<int>)

  const STRUCTURED := "portfolio_decision_structured"
  const JSON_BLOCK := "portfolio_decision_json_block"

  function Codes(issues: seq<Issue>, severity: Severity): seq<string> {
    if issues == [] then []
    else (if issues[0].severity == severity then [issues[0].code] else []) + Codes(issues[1..], severity)
  }

  /** Cleaned, without blanks and repetitions. */
  function Dedupe(values: seq<string>): seq<string> {
    if values == [] then []
    else
      var front, last := Dedupe(values[..|values| - 1]), Strip(values[|values| - 1]);
      if last == "" || last in front then front else front + [last]
  }

  function DirectionAlias(text: string): Option<Stability.Direction> {
    var t := Lower(Strip(text));
    if t == "long" || t == "buy" || t == "bullish" then Some(Stability.Long)
    else if t == "short" || t == "sell" || t == "bearish" then Some(Stability.Short)
    else if t == "watch" || t == "hold" then Some(Stability.Watch)
    else if t == "avoid" then Some(Stability.Avoid)
    else if t == "neutral" then Some(Stability.Neutral)
    else None
  }

  predicate Allowed(rating: Stability.Rating, direction: Stability.Direction) {
    match rating
    case Buy => direction == Stability.Long
    case Overweight => direction == Stability.Long
    case Hold => direction == Stability.Watch || direction == Stability.Neutral
    case Underweight => direction == Stability.Avoid
    case Sell => direction == Stability.Short
  }

  /** A text names a direction exactly if it is one of its words, outer spaces and case aside. */
  lemma DirectionIffWord(text: string)
    ensures var word := Lower(Strip(text));
            && (DirectionAlias(text) == Some(Stability.Long) <==> word in ["long", "buy", "bullish"])
            && (DirectionAlias(text) == Some(Stability.Short) <==> word in ["short", "sell", "bearish"])
            && (DirectionAlias(text) == Some(Stability.Watch) <==> word in ["watch", "hold"])
            && (DirectionAlias(text) == Some(Stability.Avoid) <==> word == "avoid")
            && (DirectionAlias(text) == Some(Stability.Neutral) <==> word == "neutral")
  {
    hide Lower, Strip;
    assert |"long"| == 4 && |"buy"| == 3 && |"bullish"| == 7 && |"short"| == 5 && |"sell"| == 4 && |"bearish"| == 7;
    assert |"watch"| == 5 && |"hold"| == 4 && |"avoid"| == 5 && |"neutral"| == 7;
    assert "long"[0] != "sell"[0] && "long"[0] != "hold"[0] && "sell"[0] != "hold"[0];
    assert "bullish"[1] != "bearish"[1] && "bullish"[0] != "neutral"[0] && "bearish"[0] != "neutral"[0];
    assert "short"[0] != "watch"[0] && "short"[0] != "avoid"[0] && "watch"[0] != "avoid"[0];
  }

  /** The validator allows exactly the directions to which the builder may resolve the rating. */
  lemma AllowedIffResolved(rating: Stability.Rating, direction: Stability.Direction)
    ensures Allowed(rating, direction) <==>
            exists requested :: Stability.ResolveDirection(Stability.Label(rating), requested) == direction
  {
    hide Lower, Strip;
    forall requested { Stability.DirectionOfRating(Stability.Label(rating), requested); }
    Stability.LabelNormalizes(rating);
    assert Stability.ResolveDirection(Stability.Label(rating), None) == Stability.ResolveDirection(Stability.Label(rating), None);
    assert Allowed(rating, direction) ==>
             Stability.ResolveDirection(Stability.Label(rating), Some(direction)) == direction;
  }

  function Texts(items: seq<ResearchItem>): seq<string> {
    if items == [] then []
    else (if Strip(items[0].text) == "" then [] else [Strip(items[0].text)]) + Texts(items[1..])
  }

  /** The cleaned texts of the items that have one. */
  lemma {:induction false} TextsMean(items: seq<ResearchItem>)
    ensures forall i | 0 <= i < |items| && Strip(items[i].text) != "" :: Strip(items[i].text) in Texts(items)
    ensures forall x | x in Texts(items) :: x != "" && exists i | 0 <= i < |items| :: Strip(items[i].text) == x
  {
    hide Strip;
    if items != [] {
      var rest := items[1..];
      TextsMean(rest);
      forall i | 0 <= i < |items| && Strip(items[i].text) != "" ensures Strip(items[i].text) in Texts(items) {
        assert i > 0 ==> rest[i - 1] == items[i];
      }
      forall x | x in Texts(items) ensures x != "" && exists i | 0 <= i < |items| :: Strip(items[i].text) == x {
        if x in Texts(rest) {
          var i :| 0 <= i < |rest| && Strip(rest[i].text) == x;
          assert items[i + 1] == rest[i];
        } else {
          assert Strip(items[0].text) == x;
        }
      }
    }
  }

  /** And they keep their order. */
  lemma {:induction false} TextsSplit(a: seq<ResearchItem>, b: seq<ResearchItem>)
    ensures Texts(a + b) == Texts(a) + Texts(b)
  {
    hide Strip;
    if a == [] {
      assert a + b == b;
    } else {
      assert (a + b)[0] == a[0] && (a + b)[1..] == a[1..] + b;
      TextsSplit(a[1..], b);
    }
  }

  function ItemEvidence(items: seq<ResearchItem>): seq<EvidenceItem> {
    if items == [] then [] else items[0].evidence + ItemEvidence(items[1..])
  }

  function AllEvidence(c: Candidate): seq<EvidenceItem> {
    c.supportingEvidence + ItemEvidence(c.keyReasons + c.risks + c.monitorNext)
  }

  predicate HasObjectives(c: Candidate) {
    c.targetZones != [] || c.profitTargets != [] || c.downsideObjectives != [] || c.accumulationZones != []
  }

  /** The issues after one more check. */
  function Then(issues: seq<Issue>, condition: bool, code: string, severity: Severity): seq<Issue> {
    if condition then issues + [Issue(code, severity)] else issues
  }

  function AfterStance(issues: seq<Issue>, c: Candidate): seq<Issue> {
    var rating, direction := Stability.NormalizeRating(c.rating), DirectionAlias(c.direction);
    var a := Then(issues, rating.None?, "rating_missing_or_invalid", Blocker);
    var b := Then(a, direction.None?, "direction_missing_or_invalid", Blocker);
    Then(b, Conflicts(rating, direction), "rating_direction_conflict", Blocker)
  }

  predicate Conflicts(rating: Option<Stability.Rating>, direction: Option<Stability.Direction>) {
    rating.Some? && direction.Some? && !Allowed(rating.value, direction.value)
  }

  function AfterFields(issues: seq<Issue>, c: Candidate): seq<Issue> {
    var a := Then(issues, c.confidence.None?, "confidence_missing", Blocker);
    var b := Then(a, Strip(c.actionSummary) == "", "action_summary_missing", Blocker);
    var d := Then(b, Strip(c.confirmation) == "", "confirmation_condition_missing", Blocker);
    Then(d, Strip(c.invalidation) == "", "invalidation_missing", Blocker)
  }

  predicate Unreasoned(c: Candidate) {
    Texts(c.keyReasons) == [] && Texts(c.risks) == [] && c.missingData == []
  }

  function LabelName(dataLabel: Confidence.DataLabel): string {
    match dataLabel
    case Clean => "clean"
    case DegradedData => "degraded"
    case InsufficientData => "insufficient_data"
  }

  function AfterWarnings(issues: seq<Issue>, c: Candidate, dataLabel: Confidence.DataLabel): seq<Issue> {
    var evidence := AllEvidence(c);
    var a := Then(issues, Strip(c.entryZone) == "", "entry_zone_missing", Warning);
    var b := Then(a, !HasObjectives(c), "target_zones_missing", Warning);
    var d := Then(b, evidence == [], "supporting_evidence_missing", Warning);
    var e := Then(d, evidence != [] && EvidenceItem(true) !in evidence, "supporting_evidence_reasoning_only", Warning);
    var f := Then(e, c.missingData != [], "missing_data_declared", Warning);
    Then(f, dataLabel != Confidence.Clean, "data_quality_" + LabelName(dataLabel), Warning)
  }

  function AfterCandidate(
    issues: seq<Issue>, c: Candidate, executes: bool, dataLabel: Confidence.DataLabel): seq<Issue>
  {
    var a := AfterFields(AfterStance(issues, c), c);
    var b := Then(a, Unreasoned(c), "reasons_or_missing_data_missing", Blocker);
    AfterWarnings(Then(b, executes, "execution_instruction_detected", Blocker), c, dataLabel)
  }

  predicate Structured(source: Option<string>) {
    source == Some(STRUCTURED) || source == Some(JSON_BLOCK)
  }

  /** Every issue, in the order found. `executes` finds order instructions in the candidate's text. */
  function AllIssues(
    payload: Option<Payload>, source: Option<string>, dataLabel: Confidence.DataLabel, executes: Candidate -> bool): seq<Issue>
  {
    var a := Then([], !Structured(source), "candidate_source_not_structured", Blocker);
    match payload
    case None => Then(a, true, "structured_candidate_missing", Blocker)
    case Some(p) =>
      var b := Then(a, Strip(p.schemaVersion) == "", "schema_version_missing", Blocker);
      match p.parsed
      case None => Then(b, true, "candidate_schema_invalid", Blocker)
      case Some(c) => AfterCandidate(b, c, executes(c), dataLabel)
  }

  // ----- what the status means -----

  predicate HasBlocker(issues: seq<Issue>) {
    exists i | 0 <= i < |issues| :: issues[i].severity.Blocker?
  }

  lemma ThenMeans(issues: seq<Issue>, condition: bool, code: string, severity: Severity)
    ensures HasBlocker(Then(issues, condition, code, severity)) <==> HasBlocker(issues) || (condition && severity.Blocker?)
    ensures Then(issues, condition, code, severity) == [] <==> issues == [] && !condition
  {
    var after := Then(issues, condition, code, severity);
    assert forall i | 0 <= i < |issues| :: after[i] == issues[i];
    assert condition ==> after[|issues|] == Issue(code, severity);
  }

  /** A candidate the desk may publish. */
  predicate Publishable(c: Candidate, executes: bool) {
    && Stability.NormalizeRating(c.rating).Some? && DirectionAlias(c.direction).Some?
    && Allowed(Stability.NormalizeRating(c.rating).value, DirectionAlias(c.direction).value)
    && c.confidence.Some?
    && Strip(c.actionSummary) != "" && Strip(c.confirmation) != "" && Strip(c.invalidation) != ""
    && !Unreasoned(c) && !executes
  }

  predicate Complete(c: Candidate, dataLabel: Confidence.DataLabel) {
    && Strip(c.entryZone) != "" && HasObjectives(c) && EvidenceItem(true) in AllEvidence(c) && c.missingData == []
    && dataLabel == Confidence.Clean
  }

  predicate Accepted(payload: Option<Payload>, source: Option<string>, executes: Candidate -> bool) {
    && Structured(source)
    && payload.Some? && Strip(payload.value.schemaVersion) != "" && payload.value.parsed.Some?
    && Publishable(payload.value.parsed.value, executes(payload.value.parsed.value))
  }

  lemma StanceMeans(issues: seq<Issue>, c: Candidate)
    ensures var rating, direction := Stability.NormalizeRating(c.rating), DirectionAlias(c.direction);
            var fine := rating.Some? && direction.Some? && !Conflicts(rating, direction);
            && (HasBlocker(AfterStance(issues, c)) <==> HasBlocker(issues) || !fine)
            && (AfterStance(issues, c) == [] <==> issues == [] && fine)
  {
    hide Then, HasBlocker, Stability.NormalizeRating, DirectionAlias, Allowed;
    var rating, direction := Stability.NormalizeRating(c.rating), DirectionAlias(c.direction);
    ThenMeans(issues, rating.None?, "rating_missing_or_invalid", Blocker);
    var a := Then(issues, rating.None?, "rating_missing_or_invalid", Blocker);
    ThenMeans(a, direction.None?, "direction_missing_or_invalid", Blocker);
    var b := Then(a, direction.None?, "direction_missing_or_invalid", Blocker);
    ThenMeans(b, Conflicts(rating, direction), "rating_direction_conflict", Blocker);
  }

  lemma FieldsMean(issues: seq<Issue>, c: Candidate)
    ensures var fine := c.confidence.Some? && Strip(c.actionSummary) != "" && Strip(c.confirmation) != "" && Strip(c.invalidation) != "";
            && (HasBlocker(AfterFields(issues, c)) <==> HasBlocker(issues) || !fine)
            && (AfterFields(issues, c) == [] <==> issues == [] && fine)
  {
    hide Then, HasBlocker, Strip;
    ThenMeans(issues, c.confidence.None?, "confidence_missing", Blocker);
    var a := Then(issues, c.confidence.None?, "confidence_missing", Blocker);
    ThenMeans(a, Strip(c.actionSummary) == "", "action_summary_missing", Blocker);
    var b := Then(a, Strip(c.actionSummary) == "", "action_summary_missing", Blocker);
    ThenMeans(b, Strip(c.confirmation) == "", "confirmation_condition_missing", Blocker);
    var d := Then(b, Strip(c.confirmation) == "", "confirmation_condition_missing", Blocker);
    ThenMeans(d, Strip(c.invalidation) == "", "invalidation_missing", Blocker);
  }

  lemma WarningsMean(issues: seq<Issue>, c: Candidate, dataLabel: Confidence.DataLabel)
    ensures HasBlocker(AfterWarnings(issues, c, dataLabel)) <==> HasBlocker(issues)
    ensures AfterWarnings(issues, c, dataLabel) == [] <==> issues == [] && Complete(c, dataLabel)
  {
    hide Then, HasBlocker, Strip, AllEvidence, HasObjectives, LabelName;
    var evidence := AllEvidence(c);
    ThenMeans(issues, Strip(c.entryZone) == "", "entry_zone_missing", Warning);
    var a := Then(issues, Strip(c.entryZone) == "", "entry_zone_missing", Warning);
    ThenMeans(a, !HasObjectives(c), "target_zones_missing", Warning);
    var b := Then(a, !HasObjectives(c), "target_zones_missing", Warning);
    ThenMeans(b, evidence == [], "supporting_evidence_missing", Warning);
    var d := Then(b, evidence == [], "supporting_evidence_missing", Warning);
    ThenMeans(d, evidence != [] && EvidenceItem(true) !in evidence, "supporting_evidence_reasoning_only", Warning);
    var e := Then(d, evidence != [] && EvidenceItem(true) !in evidence, "supporting_evidence_reasoning_only", Warning);
    ThenMeans(e, c.missingData != [], "missing_data_declared", Warning);
    var f := Then(e, c.missingData != [], "missing_data_declared", Warning);
    ThenMeans(f, dataLabel != Confidence.Clean, "data_quality_" + LabelName(dataLabel), Warning);
  }

  /** There is a blocking issue exactly when the candidate is not accepted, and no issue at all
      exactly when it is accepted and complete. */
  lemma IssuesMean(
    payload: Option<Payload>, source: Option<string>, dataLabel: Confidence.DataLabel, executes: Candidate -> bool)
    ensures HasBlocker(AllIssues(payload, source, dataLabel, executes)) <==> !Accepted(payload, source, executes)
    ensures AllIssues(payload, source, dataLabel, executes) == [] <==>
            Accepted(payload, source, executes) && Complete(payload.value.parsed.value, dataLabel)
  {
    hide Then, HasBlocker, Strip, Structured, Complete, Unreasoned, Conflicts, AfterStance, AfterFields, AfterWarnings,
      Stability.NormalizeRating, DirectionAlias, Allowed;
    NoBlocker();
    ThenMeans([], !Structured(source), "candidate_source_not_structured", Blocker);
    var a := Then([], !Structured(source), "candidate_source_not_structured", Blocker);
    match payload
    case None => ThenMeans(a, true, "structured_candidate_missing", Blocker);
    case Some(p) =>
      ThenMeans(a, Strip(p.schemaVersion) == "", "schema_version_missing", Blocker);
      var b := Then(a, Strip(p.schemaVersion) == "", "schema_version_missing", Blocker);
      match p.parsed {
        case None => ThenMeans(b, true, "candidate_schema_invalid", Blocker);
        case Some(c) =>
          CandidateMeans(b, c, executes(c), dataLabel);
      }
  }

  lemma NoBlocker()
    ensures !HasBlocker([])
  {
  }

  lemma CandidateMeans(issues: seq<Issue>, c: Candidate, executes: bool, dataLabel: Confidence.DataLabel)
    ensures HasBlocker(AfterCandidate(issues, c, executes, dataLabel)) <==> HasBlocker(issues) || !Publishable(c, executes)
    ensures AfterCandidate(issues, c, executes, dataLabel) == [] <==>
            issues == [] && Publishable(c, executes) && Complete(c, dataLabel)
  {
    hide Then, HasBlocker, Strip, Complete, Unreasoned, AfterStance, AfterFields, AfterWarnings,
      Stability.NormalizeRating, DirectionAlias, Allowed;
    StanceMeans(issues, c);
    FieldsMean(AfterStance(issues, c), c);
    var a := AfterFields(AfterStance(issues, c), c);
    ThenMeans(a, Unreasoned(c), "reasons_or_missing_data_missing", Blocker);
    var b := Then(a, Unreasoned(c), "reasons_or_missing_data_missing", Blocker);
    ThenMeans(b, executes, "execution_instruction_detected", Blocker);
    WarningsMean(Then(b, executes, "execution_instruction_detected", Blocker), c, dataLabel);
  }

  // ----- which issues are reported -----

  lemma ThenReports(issues: seq<Issue>, condition: bool, code: string, severity: Severity, x: Issue)
    ensures x in Then(issues, condition, code, severity) <==> x in issues || (condition && x == Issue(code, severity))
  {
  }

  lemma {:induction false} EvidenceMeans(items: seq<ResearchItem>, x: EvidenceItem)
    ensures x in ItemEvidence(items) <==> exists i | 0 <= i < |items| :: x in items[i].evidence
    ensures ItemEvidence(items) == [] <==> forall i | 0 <= i < |items| :: items[i].evidence == []
  {
    if items != [] {
      var rest := items[1..];
      EvidenceMeans(rest, x);
      assert forall i | 0 < i < |items| :: items[i] == rest[i - 1];
      if x in ItemEvidence(rest) {
        var i :| 0 <= i < |rest| && x in rest[i].evidence;
        assert x in items[i + 1].evidence;
      }
      if ItemEvidence(items) == [] {
        assert forall i | 0 < i < |items| :: items[i].evidence == rest[i - 1].evidence;
      }
    }
  }

  /** Some item the candidate shows, or the candidate itself, rests on this kind of evidence. */
  ghost predicate RestsOn(c: Candidate, x: EvidenceItem) {
    || x in c.supportingEvidence
    || (exists i | 0 <= i < |c.keyReasons| :: x in c.keyReasons[i].evidence)
    || (exists i | 0 <= i < |c.risks| :: x in c.risks[i].evidence)
    || (exists i | 0 <= i < |c.monitorNext| :: x in c.monitorNext[i].evidence)
  }

  lemma {:induction false} ItemEvidenceSplits(a: seq<ResearchItem>, b: seq<ResearchItem>)
    ensures ItemEvidence(a + b) == ItemEvidence(a) + ItemEvidence(b)
  {
    if a == [] {
      assert a + b == b;
    } else {
      assert (a + b)[0] == a[0] && (a + b)[1..] == a[1..] + b;
      ItemEvidenceSplits(a[1..], b);
    }
  }

  lemma AllEvidenceMeans(c: Candidate, x: EvidenceItem)
    ensures x in AllEvidence(c) <==> RestsOn(c, x)
  {
    ItemEvidenceSplits(c.keyReasons + c.risks, c.monitorNext);
    ItemEvidenceSplits(c.keyReasons, c.risks);
    EvidenceMeans(c.keyReasons, x);
    EvidenceMeans(c.risks, x);
    EvidenceMeans(c.monitorNext, x);
    hide ItemEvidence;
  }

  lemma NoEvidenceIff(c: Candidate)
    ensures AllEvidence(c) == [] <==> !RestsOn(c, EvidenceItem(true)) && !RestsOn(c, EvidenceItem(false))
  {
    AllEvidenceMeans(c, EvidenceItem(true));
    AllEvidenceMeans(c, EvidenceItem(false));
    hide AllEvidence, RestsOn;
    if AllEvidence(c) != [] {
      var x := AllEvidence(c)[0];
      assert x in AllEvidence(c);
      assert x == EvidenceItem(true) || x == EvidenceItem(false) by {
        assert x == EvidenceItem(x.observed);
      }
    }
  }

  /** No reason, no risk and no missing data is named. */
  lemma UnreasonedIff(c: Candidate)
    ensures Unreasoned(c) <==>
            && (forall i | 0 <= i < |c.keyReasons| :: Strip(c.keyReasons[i].text) == "")
            && (forall i | 0 <= i < |c.risks| :: Strip(c.risks[i].text) == "")
            && c.missingData == []
  {
    TextsMean(c.keyReasons);
    TextsMean(c.risks);
    hide Strip, Texts;
    if Texts(c.keyReasons) != [] {
      assert Texts(c.keyReasons)[0] in Texts(c.keyReasons);
    }
    if Texts(c.risks) != [] {
      assert Texts(c.risks)[0] in Texts(c.risks);
    }
  }

  ghost predicate StanceIssue(c: Candidate, x: Issue) {
    var rating, direction := Stability.NormalizeRating(c.rating), DirectionAlias(c.direction);
    && x.severity.Blocker?
    && (|| (x.code == "rating_missing_or_invalid" && rating.None?)
        || (x.code == "direction_missing_or_invalid" && direction.None?)
        || (x.code == "rating_direction_conflict" && rating.Some? && direction.Some?
            && !Allowed(rating.value, direction.value)))
  }

  ghost predicate FieldIssue(c: Candidate, executes: bool, x: Issue) {
    && x.severity.Blocker?
    && (|| (x.code == "confidence_missing" && c.confidence.None?)
        || (x.code == "action_summary_missing" && Strip(c.actionSummary) == "")
        || (x.code == "confirmation_condition_missing" && Strip(c.confirmation) == "")
        || (x.code == "invalidation_missing" && Strip(c.invalidation) == "")
        || (x.code == "reasons_or_missing_data_missing" && Unreasoned(c))
        || (x.code == "execution_instruction_detected" && executes))
  }

  ghost predicate WarningIssue(c: Candidate, dataLabel: Confidence.DataLabel, x: Issue) {
    && x.severity.Warning?
    && (|| (x.code == "entry_zone_missing" && Strip(c.entryZone) == "")
        || (&& x.code == "target_zones_missing"
            && c.targetZones == c.profitTargets == c.downsideObjectives == c.accumulationZones == [])
        || (x.code == "supporting_evidence_missing" && !RestsOn(c, EvidenceItem(true)) && !RestsOn(c, EvidenceItem(false)))
        || (x.code == "supporting_evidence_reasoning_only" && !RestsOn(c, EvidenceItem(true)) && RestsOn(c, EvidenceItem(false)))
        || (x.code == "missing_data_declared" && c.missingData != [])
        || (x.code == "data_quality_degraded" && dataLabel.DegradedData?)
        || (x.code == "data_quality_insufficient_data" && dataLabel.InsufficientData?))
  }

  /** Which issue is reported when. */
  ghost predicate Reportable(
    payload: Option<Payload>, source: Option<string>, dataLabel: Confidence.DataLabel, executes: Candidate -> bool, x: Issue)
  {
    || (&& x == Issue("candidate_source_not_structured", Blocker)
        && source != Some("portfolio_decision_structured") && source != Some("portfolio_decision_json_block"))
    || (x == Issue("structured_candidate_missing", Blocker) && payload.None?)
    || (x == Issue("schema_version_missing", Blocker) && payload.Some? && Strip(payload.value.schemaVersion) == "")
    || (x == Issue("candidate_schema_invalid", Blocker) && payload.Some? && payload.value.parsed.None?)
    || (&& payload.Some? && payload.value.parsed.Some?
        && var c := payload.value.parsed.value;
           StanceIssue(c, x) || FieldIssue(c, executes(c), x) || WarningIssue(c, dataLabel, x))
  }

  lemma StanceReports(issues: seq<Issue>, c: Candidate, x: Issue)
    ensures x in AfterStance(issues, c) <==> x in issues || StanceIssue(c, x)
  {
    hide Then, Stability.NormalizeRating, DirectionAlias, Allowed;
    var rating, direction := Stability.NormalizeRating(c.rating), DirectionAlias(c.direction);
    ThenReports(issues, rating.None?, "rating_missing_or_invalid", Blocker, x);
    var a := Then(issues, rating.None?, "rating_missing_or_invalid", Blocker);
    ThenReports(a, direction.None?, "direction_missing_or_invalid", Blocker, x);
    var b := Then(a, direction.None?, "direction_missing_or_invalid", Blocker);
    ThenReports(b, Conflicts(rating, direction), "rating_direction_conflict", Blocker, x);
  }

  lemma FieldsReport(issues: seq<Issue>, c: Candidate, executes: bool, x: Issue)
    ensures var a := AfterFields(issues, c);
            var b := Then(a, Unreasoned(c), "reasons_or_missing_data_missing", Blocker);
            x in Then(b, executes, "execution_instruction_detected", Blocker) <==> x in issues || FieldIssue(c, executes, x)
  {
    hide Then, Strip, Unreasoned;
    ThenReports(issues, c.confidence.None?, "confidence_missing", Blocker, x);
    var a := Then(issues, c.confidence.None?, "confidence_missing", Blocker);
    ThenReports(a, Strip(c.actionSummary) == "", "action_summary_missing", Blocker, x);
    var b := Then(a, Strip(c.actionSummary) == "", "action_summary_missing", Blocker);
    ThenReports(b, Strip(c.confirmation) == "", "confirmation_condition_missing", Blocker, x);
    var d := Then(b, Strip(c.confirmation) == "", "confirmation_condition_missing", Blocker);
    ThenReports(d, Strip(c.invalidation) == "", "invalidation_missing", Blocker, x);
    var e := Then(d, Strip(c.invalidation) == "", "invalidation_missing", Blocker);
    ThenReports(e, Unreasoned(c), "reasons_or_missing_data_missing", Blocker, x);
    var f := Then(e, Unreasoned(c), "reasons_or_missing_data_missing", Blocker);
    ThenReports(f, executes, "execution_instruction_detected", Blocker, x);
  }

  lemma QualityCode(dataLabel: Confidence.DataLabel)
    ensures dataLabel.DegradedData? ==> "data_quality_" + LabelName(dataLabel) == "data_quality_degraded"
    ensures dataLabel.InsufficientData? ==> "data_quality_" + LabelName(dataLabel) == "data_quality_insufficient_data"
  {
  }

  lemma WarningsReport(issues: seq<Issue>, c: Candidate, dataLabel: Confidence.DataLabel, x: Issue)
    ensures x in AfterWarnings(issues, c, dataLabel) <==> x in issues || WarningIssue(c, dataLabel, x)
  {
    NoEvidenceIff(c);
    AllEvidenceMeans(c, EvidenceItem(true));
    QualityCode(dataLabel);
    hide Then, Strip, AllEvidence, LabelName, RestsOn;
    var evidence := AllEvidence(c);
    ThenReports(issues, Strip(c.entryZone) == "", "entry_zone_missing", Warning, x);
    var a := Then(issues, Strip(c.entryZone) == "", "entry_zone_missing", Warning);
    ThenReports(a, !HasObjectives(c), "target_zones_missing", Warning, x);
    var b := Then(a, !HasObjectives(c), "target_zones_missing", Warning);
    ThenReports(b, evidence == [], "supporting_evidence_missing", Warning, x);
    var d := Then(b, evidence == [], "supporting_evidence_missing", Warning);
    ThenReports(d, evidence != [] && EvidenceItem(true) !in evidence, "supporting_evidence_reasoning_only", Warning, x);
    var e := Then(d, evidence != [] && EvidenceItem(true) !in evidence, "supporting_evidence_reasoning_only", Warning);
    ThenReports(e, c.missingData != [], "missing_data_declared", Warning, x);
    var f := Then(e, c.missingData != [], "missing_data_declared", Warning);
    ThenReports(f, dataLabel != Confidence.Clean, "data_quality_" + LabelName(dataLabel), Warning, x);
  }

  /** The validator reports exactly the issues that are there. */
  lemma ReportedIff(
    payload: Option<Payload>, source: Option<string>, dataLabel: Confidence.DataLabel, executes: Candidate -> bool, x: Issue)
    ensures x in AllIssues(payload, source, dataLabel, executes) <==> Reportable(payload, source, dataLabel, executes, x)
  {
    hide Then, Strip, StanceIssue, FieldIssue, WarningIssue, AfterStance, AfterFields, AfterWarnings, Unreasoned;
    ThenReports([], !Structured(source), "candidate_source_not_structured", Blocker, x);
    var a := Then([], !Structured(source), "candidate_source_not_structured", Blocker);
    match payload
    case None => ThenReports(a, true, "structured_candidate_missing", Blocker, x);
    case Some(p) =>
      ThenReports(a, Strip(p.schemaVersion) == "", "schema_version_missing", Blocker, x);
      var b := Then(a, Strip(p.schemaVersion) == "", "schema_version_missing", Blocker);
      match p.parsed {
        case None => ThenReports(b, true, "candidate_schema_invalid", Blocker, x);
        case Some(c) =>
          StanceReports(b, c, x);
          FieldsReport(AfterStance(b, c), c, executes(c), x);
          var d := Then(AfterFields(AfterStance(b, c), c), Unreasoned(c), "reasons_or_missing_data_missing", Blocker);
          WarningsReport(Then(d, executes(c), "execution_instruction_detected", Blocker), c, dataLabel, x);
      }
  }

  // ----- the methods -----

  /** Issue codes start with a visible character, so cleaning never loses one. */
  predicate Named(code: string) {
    code != "" && !IsSpace(code[0])
  }

  class IssueLog {
    var issues: seq<Issue>
    var degradationReasons: seq<string>
    var blockedReasons: seq<string>

    constructor ()
      ensures Valid() && issues == []
    {
      issues, degradationReasons, blockedReasons := [], [], [];
    }

    ghost predicate Valid()
      reads this
    {
      && degradationReasons == Codes(issues, Warning) && blockedReasons == Codes(issues, Blocker)
      && forall i | 0 <= i < |issues| :: Named(issues[i].code)
    }

    /** `_add_issue` under a condition: the reasons stay the codes of the issues of their kind. */
    method AddIf(condition: bool, code: string, severity: Severity)
      requires Valid() && Named(code)
      modifies this
      ensures Valid() && issues == Then(old(issues), condition, code, severity)
    {
      if condition {
        CodesAppend(issues, Issue(code, severity), Warning);
        CodesAppend(issues, Issue(code, severity), Blocker);
        issues := issues + [Issue(code, severity)];
        if severity.Blocker? {
          blockedReasons := blockedReasons + [code];
        } else {
          degradationReasons := degradationReasons + [code];
        }
      }
    }

    /** `_result`. */
    method Result(cap: Option<int>) returns (v: Validation)
      requires Valid()
      ensures v.issues == issues && v.confidenceCap == cap
      ensures forall i | 0 <= i < |issues| :: Named(issues[i].code)
      ensures v.status == if Codes(issues, Blocker) != [] then Blocked else if Codes(issues, Warning) != [] then Degraded else Status.Valid
      ensures v.degradationReasons == Dedupe(Codes(issues, Warning)) && v.blockedReasons == Dedupe(Codes(issues, Blocker))
    {
      var status := if blockedReasons != [] then Blocked else if degradationReasons != [] then Degraded else Status.Valid;
      v := Validation(status, issues, Dedupe(degradationReasons), Dedupe(blockedReasons), cap);
    }
  }

  lemma {:induction false} CodesAppend(issues: seq<Issue>, issue: Issue, severity: Severity)
    ensures Codes(issues + [issue], severity) ==
            Codes(issues, severity) + if issue.severity == severity then [issue.code] else []
  {
    var all := issues + [issue];
    if issues == [] {
      assert all[1..] == [];
    } else {
      assert all[0] == issues[0] && all[1..] == issues[1..] + [issue];
      CodesAppend(issues[1..], issue, severity);
    }
  }

  /** `ThesisValidator.validate`. */
  method Validate(
    payload: Option<Payload>, source: Option<string>, dataLabel: Confidence.DataLabel, executes: Candidate -> bool)
    returns (v: Validation)
    ensures v.issues == AllIssues(payload, source, dataLabel, executes)
    ensures v.confidenceCap == Confidence.LabelCap(dataLabel)
    ensures v.status.Blocked? <==> !Accepted(payload, source, executes)
    ensures v.status.Valid? <==> Accepted(payload, source, executes) && Complete(payload.value.parsed.value, dataLabel)
    ensures v.blockedReasons == Dedupe(Codes(v.issues, Blocker))
    ensures v.degradationReasons == Dedupe(Codes(v.issues, Warning))
    ensures v.status.Degraded? ==> v.degradationReasons != []
  {
    var log := new IssueLog();
    hide Strip, Codes, Dedupe, Then, HasBlocker, Accepted, Complete, AfterCandidate;
    var cap := Confidence.LabelCap(dataLabel);
    log.AddIf(!Structured(source), "candidate_source_not_structured", Blocker);
    match payload {
      case None =>
        log.AddIf(true, "structured_candidate_missing", Blocker);
      case Some(p) =>
        log.AddIf(Strip(p.schemaVersion) == "", "schema_version_missing", Blocker);
        match p.parsed {
          case None =>
            log.AddIf(true, "candidate_schema_invalid", Blocker);
          case Some(c) =>
            CheckCandidate(c, executes(c), dataLabel, log);
        }
    }
    v := log.Result(cap);
    CodesEmptyIff(v.issues);
    CodesSurvive(v.issues, Warning);
    IssuesMean(payload, source, dataLabel, executes);
  }

  method CheckCandidate(c: Candidate, executes: bool, dataLabel: Confidence.DataLabel, log: IssueLog)
    requires log.Valid()
    modifies log
    ensures log.Valid() && log.issues == AfterCandidate(old(log.issues), c, executes, dataLabel)
  {
    hide Then, AfterStance, AfterFields, AfterWarnings, IssueLog.Valid;
    CheckStance(c, log);
    CheckFields(c, log);
    log.AddIf(Unreasoned(c), "reasons_or_missing_data_missing", Blocker);
    log.AddIf(executes, "execution_instruction_detected", Blocker);
    CheckWarnings(c, dataLabel, log);
  }

  method CheckStance(c: Candidate, log: IssueLog)
    requires log.Valid()
    modifies log
    ensures log.Valid() && log.issues == AfterStance(old(log.issues), c)
  {
    hide Then, Stability.NormalizeRating, DirectionAlias, Allowed, IssueLog.Valid;
    var rating, direction := Stability.NormalizeRating(c.rating), DirectionAlias(c.direction);
    log.AddIf(rating.None?, "rating_missing_or_invalid", Blocker);
    log.AddIf(direction.None?, "direction_missing_or_invalid", Blocker);
    log.AddIf(Conflicts(rating, direction), "rating_direction_conflict", Blocker);
  }

  method CheckFields(c: Candidate, log: IssueLog)
    requires log.Valid()
    modifies log
    ensures log.Valid() && log.issues == AfterFields(old(log.issues), c)
  {
    hide Then, Strip, IssueLog.Valid;
    log.AddIf(c.confidence.None?, "confidence_missing", Blocker);
    log.AddIf(Strip(c.actionSummary) == "", "action_summary_missing", Blocker);
    log.AddIf(Strip(c.confirmation) == "", "confirmation_condition_missing", Blocker);
    log.AddIf(Strip(c.invalidation) == "", "invalidation_missing", Blocker);
  }

  method CheckWarnings(c: Candidate, dataLabel: Confidence.DataLabel, log: IssueLog)
    requires log.Valid()
    modifies log
    ensures log.Valid() && log.issues == AfterWarnings(old(log.issues), c, dataLabel)
  {
    hide Then, Strip, AllEvidence, HasObjectives, LabelName, IssueLog.Valid;
    var evidence := AllEvidence(c);
    log.AddIf(Strip(c.entryZone) == "", "entry_zone_missing", Warning);
    log.AddIf(!HasObjectives(c), "target_zones_missing", Warning);
    log.AddIf(evidence == [], "supporting_evidence_missing", Warning);
    log.AddIf(evidence != [] && EvidenceItem(true) !in evidence, "supporting_evidence_reasoning_only", Warning);
    log.AddIf(c.missingData != [], "missing_data_declared", Warning);
    log.AddIf(dataLabel != Confidence.Clean, "data_quality_" + LabelName(dataLabel), Warning);
  }

  lemma {:induction false} CodesEmptyIff(issues: seq<Issue>)
    ensures Codes(issues, Blocker) != [] <==> HasBlocker(issues)
    ensures Codes(issues, Blocker) == [] && Codes(issues, Warning) == [] <==> issues == []
  {
    if issues != [] {
      CodesEmptyIff(issues[1..]);
      if HasBlocker(issues) {
        var i :| 0 <= i < |issues| && issues[i].severity.Blocker?;
        assert i > 0 ==> issues[1..][i - 1] == issues[i];
      }
      if HasBlocker(issues[1..]) {
        var i :| 0 <= i < |issues[1..]| && issues[1..][i].severity.Blocker?;
        assert issues[i + 1] == issues[1..][i];
      }
    }
  }

  lemma {:induction false} CodesSurvive(issues: seq<Issue>, severity: Severity)
    requires forall i | 0 <= i < |issues| :: Named(issues[i].code)
    ensures Dedupe(Codes(issues, severity)) == [] <==> Codes(issues, severity) == []
  {
    var codes := Codes(issues, severity);
    if codes != [] {
      CodesNamed(issues, severity);
      DedupeExact(codes);
      StripBlankIff(codes[0]);
      assert codes[0][0] in codes[0];
      assert Strip(codes[0]) in Dedupe(codes);
    }
  }

  lemma {:induction false} CodesNamed(issues: seq<Issue>, severity: Severity)
    requires forall i | 0 <= i < |issues| :: Named(issues[i].code)
    ensures forall i | 0 <= i < |Codes(issues, severity)| :: Named(Codes(issues, severity)[i])
  {
    if issues != [] {
      CodesNamed(issues[1..], severity);
    }
  }

  /** And each in the place where it first came. */
  lemma {:induction false} DedupeInOrder(values: seq<string>, n: nat)
    requires n <= |values|
    ensures Dedupe(values[..n]) <= Dedupe(values)
    decreases |values|
  {
    hide Strip;
    if n == |values| {
      assert values[..n] == values;
    } else {
      var front := values[..|values| - 1];
      DedupeInOrder(front, n);
      assert front[..n] == values[..n];
    }
  }

  /** Deduplication keeps each cleaned text once and nothing else. */
  lemma {:induction false} DedupeExact(values: seq<string>)
    ensures Distinct(Dedupe(values))
    ensures forall x | x in Dedupe(values) :: x != "" && exists i | 0 <= i < |values| :: Strip(values[i]) == x
    ensures forall i | 0 <= i < |values| && Strip(values[i]) != "" :: Strip(values[i]) in Dedupe(values)
  {
    hide Strip;
    if values != [] {
      var n := |values| - 1;
      var front := values[..n];
      DedupeExact(front);
      forall x | x in Dedupe(values) ensures x != "" && exists i | 0 <= i < |values| :: Strip(values[i]) == x {
        if x in Dedupe(front) {
          var i :| 0 <= i < |front| && Strip(front[i]) == x;
          assert Strip(values[i]) == x;
        } else {
          assert Strip(values[n]) == x;
        }
      }
      forall i | 0 <= i < |values| && Strip(values[i]) != "" ensures Strip(values[i]) in Dedupe(values) {
        assert i < n ==> front[i] == values[i];
      }
    }
  }
}
