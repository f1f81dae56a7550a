/**
 Data quality and final confidence of a thesis (`graph/thesis_builder.py`). All quantities are
 percentage points: reals while the code computes with them, integers once it has rounded them
 to two decimals.
 */
module Confidence {
  import opened Text
  import opened Stability

  function Lesser(a: real, b: real): real {
    if b < a then b else a
  }

  function Least(a: int, b: int): int {
    if b < a then b else a
  }

  function Clamp(x: real): real {
    if x < 0.0 then 0.0 else if x > 100.0 then 100.0 else x
  }

  /** Rounding to the nearest integer, ties to the even one. */
  function Round(x: real): int {
    var f := x.Floor;
    var d := x - f as real;
    if d < 0.5 then f
    else if d > 0.5 then f + 1
    else if f % 2 == 0 then f else f + 1
  }

  lemma RoundIsNearest(x: real)
    ensures -0.5 <= Round(x) as real - x <= 0.5
    ensures Round(x) as real - x == 0.5 || Round(x) as real - x == -0.5 ==> Round(x) % 2 == 0
    ensures x == x.Floor as real ==> Round(x) == x.Floor
  {
  }

  lemma RoundMonotone(x: real, y: real)
    requires x <= y
    ensures Round(x) <= Round(y)
  {
    if x.Floor < y.Floor {
      assert Round(x) <= x.Floor + 1;
    }
  }

  /** A bound that is itself a whole number survives rounding. */
  lemma RoundWithin(x: real, lo: int, hi: int)
    requires lo as real <= x <= hi as real
    ensures lo <= Round(x) <= hi
  {
    RoundMonotone(lo as real, x);
    RoundMonotone(x, hi as real);
    RoundIsNearest(lo as real);
    RoundIsNearest(hi as real);
  }

  function Sum(xs: seq<real>): real {
    if xs == [] then 0.0 else xs[0] + Sum(xs[1..])
  }

  function Average(xs: seq<real>): real
    requires xs != []
  {
    Sum(xs) / |xs| as real
  }

  predicate Percentages(xs: seq<real>) {
    forall i | 0 <= i < |xs| :: 0.0 <= xs[i] <= 100.0
  }

  lemma {:induction false} SumBounds(xs: seq<real>)
    requires Percentages(xs)
    ensures 0.0 <= Sum(xs) <= 100.0 * |xs| as real
  {
    if xs != [] {
      SumBounds(xs[1..]);
    }
  }

  /** The average is the sum over the number of values, and sums add up. */
  lemma {:induction false} SumSplits(a: seq<real>, b: seq<real>)
    ensures Sum(a + b) == Sum(a) + Sum(b)
    ensures |a| == 1 ==> Sum(a) == a[0]
    ensures a != [] ==> Average(a) * |a| as real == Sum(a)
  {
    if a == [] {
      assert a + b == b;
    } else {
      assert (a + b)[0] == a[0] && (a + b)[1..] == a[1..] + b;
      SumSplits(a[1..], b);
    }
  }

  lemma AverageBounds(xs: seq<real>)
    requires xs != [] && Percentages(xs)
    ensures 0.0 <= Average(xs) <= 100.0
  {
    SumBounds(xs);
  }

  // ----- data quality -----

  /** `codes` are the canonical machine codes of a source; `insufficientNewsText` says that the
      opinion's text reports an insufficient pre-computed news context. */
  datatype Opinion = Opinion(
    isNews: bool, quality: Option<real>, codes: seq<string>, insufficientNewsText: bool)

  datatype Run = Run(missingCore: bool, completedDegraded: bool, reported: bool, codes: seq<string>)

  datatype Evidence = Evidence(
    signalQualities: seq<real>,
    opinions: seq<Opinion>,
    run: Option<Run>,
    otherCodes: seq<string>,      // from the payload, the run, the contract and stale data
    optionalCodes: set<string>,
    contractReasons: nat,
    staleItems: nat)

  ghost predicate ValidEvidence(e: Evidence) {
    && Percentages(e.signalQualities)
    && forall i | 0 <= i < |e.opinions| && e.opinions[i].quality.Some? ::
         0.0 <= e.opinions[i].quality.value <= 100.0
  }

  datatype DataLabel = Clean | DegradedData | InsufficientData

  function Known(values: seq<Option<real>>): seq<real> {
    if values == [] then []
    else (match values[0] case Some(v) => [v] case None => []) + Known(values[1..])
  }

  function QualitiesOf(opinions: seq<Opinion>): seq<Option<real>> {
    seq(|opinions|, i requires 0 <= i < |opinions| => opinions[i].quality)
  }

  function OpinionQualities(opinions: seq<Opinion>): seq<real> {
    Known(QualitiesOf(opinions))
  }

  /** The known values, in their order. */
  lemma {:induction false} KnownSplits(a: seq<Option<real>>, b: seq<Option<real>>)
    ensures Known(a + b) == Known(a) + Known(b)
    ensures |a| == 1 ==> Known(a) == match a[0] case None => [] case Some(v) => [v]
  {
    if a == [] {
      assert a + b == b;
    } else {
      assert (a + b)[0] == a[0] && (a + b)[1..] == a[1..] + b;
      KnownSplits(a[1..], b);
    }
  }

  lemma {:induction false} KnownPercentages(values: seq<Option<real>>)
    requires forall i | 0 <= i < |values| && values[i].Some? :: 0.0 <= values[i].value <= 100.0
    ensures Percentages(Known(values))
  {
    if values != [] {
      KnownPercentages(values[1..]);
    }
  }

  /** The run itself reports a degradation that its market type does not make optional. */
  predicate RunDegraded(run: Run, optionalCodes: set<string>) {
    && (run.reported || run.missingCore || run.completedDegraded)
    && ((exists i | 0 <= i < |run.codes| :: run.codes[i] !in optionalCodes) || (run.completedDegraded && run.codes == []))
  }

  predicate OpinionHasCode(opinions: seq<Opinion>, code: string) {
    exists i | 0 <= i < |opinions| :: code in opinions[i].codes
  }

  predicate InsufficientNews(e: Evidence) {
    || OpinionHasCode(e.opinions, "news_context_insufficient_data")
    || "news_context_insufficient_data" in e.otherCodes
    || (exists i | 0 <= i < |e.opinions| :: e.opinions[i].isNews && e.opinions[i].insufficientNewsText)
    || (exists i | 0 <= i < |e.opinions| :: e.opinions[i].isNews && "insufficient_news_evidence" in e.opinions[i].codes)
  }

  predicate OtherEvidenceIsGood(e: Evidence) {
    || (exists i | 0 <= i < |e.signalQualities| :: e.signalQualities[i] >= 75.0)
    || (exists i | 0 <= i < |e.opinions| ::
          !e.opinions[i].isNews && e.opinions[i].quality.Some? && e.opinions[i].quality.value >= 75.0)
  }

  predicate OnchainMissing(e: Evidence) {
    && (OpinionHasCode(e.opinions, "missing_onchain_flows") || OpinionHasCode(e.opinions, "insufficient_onchain_evidence"))
    && "missing_onchain_flows" !in e.optionalCodes
  }

  predicate CountsAsMissing(code: string, optionalCodes: set<string>) {
    StartsWith(code, "missing_") && code !in optionalCodes
  }

  predicate SomethingMissing(e: Evidence) {
    || (exists i | 0 <= i < |e.otherCodes| :: CountsAsMissing(e.otherCodes[i], e.optionalCodes))
    || (exists i, j | 0 <= i < |e.opinions| && 0 <= j < |e.opinions[i].codes| ::
          CountsAsMissing(e.opinions[i].codes[j], e.optionalCodes))
  }

  /** The ceilings that apply before the stale-data deduction, and the ones that apply after it. */
  function EarlyCeiling(e: Evidence): real {
    var signals := if e.signalQualities == [] then 100.0 else Average(e.signalQualities);
    var qualities := OpinionQualities(e.opinions);
    var opinions := if qualities == [] then 100.0 else Average(qualities);
    var run := match e.run
      case None => 100.0
      case Some(r) => if r.missingCore then 25.0 else if RunDegraded(r, e.optionalCodes) then 60.0 else 100.0;
    var contract := if e.contractReasons > 0 then 65.0 else 100.0;
    Lesser(Lesser(signals, opinions), Lesser(run, contract))
  }

  function StaleDeduction(n: nat): real {
    Lesser(5.0 * n as real, 20.0)
  }

  function LateCeiling(e: Evidence): real {
    var news := if !InsufficientNews(e) then 100.0 else if OtherEvidenceIsGood(e) then 60.0 else 34.0;
    var onchain := if OnchainMissing(e) then 60.0 else 100.0;
    var missing := if SomethingMissing(e) then 60.0 else 100.0;
    Lesser(news, Lesser(onchain, missing))
  }

  function Quality(e: Evidence): int {
    Round(Clamp(Lesser(EarlyCeiling(e) - StaleDeduction(e.staleItems), LateCeiling(e))))
  }

  function LabelFor(quality: int): DataLabel {
    if quality < 35 then InsufficientData else if quality < 75 then DegradedData else Clean
  }

  /** `_derive_data_quality`: one running value, lowered step by step, ends at the closed form. */
  method DeriveDataQuality(e: Evidence) returns (result: int, dataLabel: DataLabel)
    requires ValidEvidence(e)
    ensures result == Quality(e) && dataLabel == LabelFor(result)
  {
    hide Average, Known, InsufficientNews, OtherEvidenceIsGood, OnchainMissing, SomethingMissing, RunDegraded, Round;
    var quality := 100.0;
    if e.signalQualities != [] {
      quality := Lesser(quality, Average(e.signalQualities));
    }
    var qualities := OpinionQualities(e.opinions);
    if qualities != [] {
      quality := Lesser(quality, Average(qualities));
    }
    QualitiesBounded(e);
    if e.run.Some? && e.run.value.missingCore {
      quality := Lesser(quality, 25.0);
    } else if e.run.Some? && RunDegraded(e.run.value, e.optionalCodes) {
      quality := Lesser(quality, 60.0);
    }
    if e.contractReasons > 0 {
      quality := Lesser(quality, 65.0);
    }
    assert quality == EarlyCeiling(e);
    if e.staleItems > 0 {
      quality := quality - Lesser(5.0 * e.staleItems as real, 20.0);
    }
    assert quality == EarlyCeiling(e) - StaleDeduction(e.staleItems);
    if InsufficientNews(e) {
      var newsCap := if OtherEvidenceIsGood(e) then 60.0 else 34.0;
      quality := Lesser(quality, newsCap);
    }
    if OnchainMissing(e) {
      quality := Lesser(quality, 60.0);
    }
    if SomethingMissing(e) {
      quality := Lesser(quality, 60.0);
    }
    result := Round(Clamp(quality));
    if result < 35 {
      dataLabel := InsufficientData;
    } else if result < 75 {
      dataLabel := DegradedData;
    } else {
      dataLabel := Clean;
    }
  }

  lemma QualitiesBounded(e: Evidence)
    requires ValidEvidence(e)
    ensures e.signalQualities != [] ==> 0.0 <= Average(e.signalQualities) <= 100.0
    ensures var q := OpinionQualities(e.opinions); q != [] ==> 0.0 <= Average(q) <= 100.0
  {
    hide Average, Known;
    KnownPercentages(QualitiesOf(e.opinions));
    if e.signalQualities != [] {
      AverageBounds(e.signalQualities);
    }
    if OpinionQualities(e.opinions) != [] {
      AverageBounds(OpinionQualities(e.opinions));
    }
  }

  // What the tests on the evidence come to, defect by defect.

  ghost predicate NewsFallsShort(e: Evidence) {
    || (exists o | o in e.opinions :: "news_context_insufficient_data" in o.codes)
    || "news_context_insufficient_data" in e.otherCodes
    || (exists o | o in e.opinions :: o.isNews && (o.insufficientNewsText || "insufficient_news_evidence" in o.codes))
  }

  ghost predicate OthersMakeUp(e: Evidence) {
    || (exists q | q in e.signalQualities :: q >= 75.0)
    || (exists o | o in e.opinions :: !o.isNews && o.quality.Some? && o.quality.value >= 75.0)
  }

  ghost predicate FlowsMissing(e: Evidence) {
    && "missing_onchain_flows" !in e.optionalCodes
    && exists o | o in e.opinions :: "missing_onchain_flows" in o.codes || "insufficient_onchain_evidence" in o.codes
  }

  /** Some code that starts with `missing_` and is not optional is reported anywhere. */
  ghost predicate CodeMissing(e: Evidence) {
    exists code | code !in e.optionalCodes && |code| >= 8 && code[..8] == "missing_" ::
      code in e.otherCodes || exists o | o in e.opinions :: code in o.codes
  }

  ghost predicate RunFallsShort(r: Run, optionalCodes: set<string>) {
    || ((r.reported || r.missingCore || r.completedDegraded) && exists code | code in r.codes :: code !in optionalCodes)
    || (r.completedDegraded && r.codes == [])
  }

  lemma DefectsMean(e: Evidence)
    ensures InsufficientNews(e) <==> NewsFallsShort(e)
    ensures OtherEvidenceIsGood(e) <==> OthersMakeUp(e)
    ensures OnchainMissing(e) <==> FlowsMissing(e)
  {
    assert forall i | 0 <= i < |e.opinions| :: e.opinions[i] in e.opinions;
    assert forall i | 0 <= i < |e.signalQualities| :: e.signalQualities[i] in e.signalQualities;
  }

  lemma MissingMeans(e: Evidence)
    ensures SomethingMissing(e) <==> CodeMissing(e)
  {
    assert |"missing_"| == 8;
    if SomethingMissing(e) {
      if i :| 0 <= i < |e.otherCodes| && CountsAsMissing(e.otherCodes[i], e.optionalCodes) {
        assert e.otherCodes[i] in e.otherCodes;
      } else {
        var i, j :|
          0 <= i < |e.opinions| && 0 <= j < |e.opinions[i].codes| &&
          CountsAsMissing(e.opinions[i].codes[j], e.optionalCodes);
        assert e.opinions[i] in e.opinions && e.opinions[i].codes[j] in e.opinions[i].codes;
      }
    }
    if CodeMissing(e) {
      var code :|
        code !in e.optionalCodes && |code| >= 8 && code[..8] == "missing_"
        && (code in e.otherCodes || exists o | o in e.opinions :: code in o.codes);
      assert CountsAsMissing(code, e.optionalCodes);
    }
  }

  lemma RunMeans(r: Run, optionalCodes: set<string>)
    ensures RunDegraded(r, optionalCodes) <==> RunFallsShort(r, optionalCodes)
  {
    assert forall i | 0 <= i < |r.codes| :: r.codes[i] in r.codes;
  }

  /** The limits measured or set before the stale items are deducted. */
  ghost predicate EarlyLimit(e: Evidence, c: real) {
    || c == 100.0
    || (e.signalQualities != [] && c == Average(e.signalQualities))
    || (OpinionQualities(e.opinions) != [] && c == Average(OpinionQualities(e.opinions)))
    || (e.run.Some? && e.run.value.missingCore && c == 25.0)
    || (e.run.Some? && RunFallsShort(e.run.value, e.optionalCodes) && !e.run.value.missingCore && c == 60.0)
    || (e.contractReasons > 0 && c == 65.0)
  }

  ghost predicate LateLimit(e: Evidence, c: real) {
    || (NewsFallsShort(e) && c == if OthersMakeUp(e) then 60.0 else 34.0)
    || (FlowsMissing(e) && c == 60.0)
    || (CodeMissing(e) && c == 60.0)
  }

  /** One of the limits on the quality; stale items cost five points each and twenty at most. */
  ghost predicate Limit(e: Evidence, c: real) {
    EarlyLimit(e, c + if e.staleItems >= 4 then 20.0 else 5.0 * e.staleItems as real) || LateLimit(e, c)
  }

  /** The quality is the least of the limits that apply, at least zero and rounded. */
  lemma QualityIsLeastLimit(e: Evidence)
    requires ValidEvidence(e)
    ensures exists x ::
              && Limit(e, x) && (forall c | Limit(e, c) :: x <= c)
              && Quality(e) == Round(if x < 0.0 then 0.0 else x)
  {
    EarlyIsLeast(e);
    LateIsLeast(e);
    hide EarlyLimit, LateLimit, EarlyCeiling, LateCeiling, Round, ValidEvidence, Average, Known;
    var early, late := EarlyCeiling(e) - StaleDeduction(e.staleItems), LateCeiling(e);
    var x := Lesser(early, late);
    assert Limit(e, early);
    assert Limit(e, x);
  }

  lemma EarlyIsLeast(e: Evidence)
    requires ValidEvidence(e)
    ensures EarlyLimit(e, EarlyCeiling(e)) && EarlyCeiling(e) <= 100.0
    ensures forall c | EarlyLimit(e, c) :: EarlyCeiling(e) <= c
  {
    if e.run.Some? {
      RunMeans(e.run.value, e.optionalCodes);
    }
    QualitiesBounded(e);
    hide Average, Known, QualitiesOf, RunDegraded, RunFallsShort;
  }

  lemma LateIsLeast(e: Evidence)
    ensures LateCeiling(e) == 100.0 || LateLimit(e, LateCeiling(e))
    ensures forall c | LateLimit(e, c) :: LateCeiling(e) <= c
  {
    DefectsMean(e);
    MissingMeans(e);
    hide InsufficientNews, OtherEvidenceIsGood, OnchainMissing, SomethingMissing,
      NewsFallsShort, OthersMakeUp, FlowsMissing, CodeMissing;
  }

  lemma LabelIff(quality: int)
    ensures LabelFor(quality) == InsufficientData <==> quality < 35
    ensures LabelFor(quality) == Clean <==> quality >= 75
  {
  }

  lemma QualityBounds(e: Evidence)
    ensures 0 <= Quality(e) <= 100
    ensures e.run.Some? && e.run.value.missingCore ==> Quality(e) <= 25 && LabelFor(Quality(e)) == InsufficientData
    ensures InsufficientNews(e) && !OtherEvidenceIsGood(e) ==> LabelFor(Quality(e)) == InsufficientData
    ensures e.contractReasons > 0 || OnchainMissing(e) || SomethingMissing(e) || InsufficientNews(e) ==>
              LabelFor(Quality(e)) != Clean
  {
    hide Average, Known, InsufficientNews, OtherEvidenceIsGood, OnchainMissing, SomethingMissing, RunDegraded, Round;
    var x := Clamp(Lesser(EarlyCeiling(e) - StaleDeduction(e.staleItems), LateCeiling(e)));
    RoundWithin(x, 0, 100);
    if x <= 25.0 { RoundWithin(x, 0, 25); }
    if x <= 34.0 { RoundWithin(x, 0, 34); }
    if x <= 65.0 { RoundWithin(x, 0, 65); }
  }

  /** `worse` reports the same measurements as `e` and every defect `e` reports, perhaps more. */
  ghost predicate AtLeastAsDefective(worse: Evidence, e: Evidence) {
    && worse.signalQualities == e.signalQualities && OpinionQualities(worse.opinions) == OpinionQualities(e.opinions)
    && (e.run.Some? && e.run.value.missingCore ==> worse.run.Some? && worse.run.value.missingCore)
    && (e.run.Some? && RunDegraded(e.run.value, e.optionalCodes) ==>
          worse.run.Some? && (worse.run.value.missingCore || RunDegraded(worse.run.value, worse.optionalCodes)))
    && (e.contractReasons > 0 ==> worse.contractReasons > 0)
    && worse.staleItems >= e.staleItems
    && (InsufficientNews(e) ==> InsufficientNews(worse))
    && (OtherEvidenceIsGood(worse) ==> OtherEvidenceIsGood(e))
    && (OnchainMissing(e) ==> OnchainMissing(worse))
    && (SomethingMissing(e) ==> SomethingMissing(worse))
  }

  /** More defects never raise the quality. */
  lemma QualityMonotone(worse: Evidence, e: Evidence)
    requires AtLeastAsDefective(worse, e)
    ensures Quality(worse) <= Quality(e)
  {
    hide Average, Known, InsufficientNews, OtherEvidenceIsGood, OnchainMissing, SomethingMissing, RunDegraded, Round;
    RoundMonotone(
      Clamp(Lesser(EarlyCeiling(worse) - StaleDeduction(worse.staleItems), LateCeiling(worse))),
      Clamp(Lesser(EarlyCeiling(e) - StaleDeduction(e.staleItems), LateCeiling(e))));
  }

  // ----- final confidence -----

  datatype Base = PortfolioManager | DebateConsensus | OpinionAverage | QuantOnly | Unavailable

  datatype Mark = QualityCapped | LowQuantCapped | MtfPenalized

  datatype Source = Source(base: Base, marks: seq<Mark>)

  datatype Estimate = Estimate(confidence: Option<int>, source: Source)

  datatype Inputs = Inputs(
    structured: Option<real>,
    quant: Option<real>,
    quantBias: Bias,
    debate: Option<real>,
    opinions: seq<real>,           // the known confidences of the opinions
    direction: Direction,
    staleItems: nat,
    contractReasons: nat)

  ghost predicate ValidInputs(i: Inputs) {
    && (i.structured.Some? ==> 0.0 <= i.structured.value <= 100.0)
    && (i.quant.Some? ==> 0.0 <= i.quant.value <= 100.0)
    && (i.debate.Some? ==> 0.0 <= i.debate.value <= 100.0)
    && Percentages(i.opinions)
  }

  /** `_quant_alignment_adjustment`. */
  function Alignment(quant: Option<real>, quantBias: Bias, direction: Direction): real {
    match quant
    case None => 0.0
    case Some(q) =>
      var bias := DirectionBias(direction);
      if quantBias == Unknown || bias == Unknown then 0.0
      else if quantBias == Flat then
        if bias == Flat then Lesser(q * 0.05, 3.0) else -Lesser((100.0 - q) * 0.05, 5.0)
      else if quantBias == bias then Lesser(q * 0.08, 6.0)
      else -Lesser(q * 0.18, 15.0)
  }

  lemma AlignmentBounds(quant: Option<real>, quantBias: Bias, direction: Direction)
    requires quant.Some? ==> 0.0 <= quant.value <= 100.0
    ensures -15.0 <= Alignment(quant, quantBias, direction) <= 6.0
    ensures quantBias == DirectionBias(direction) ==> Alignment(quant, quantBias, direction) >= 0.0
    ensures quantBias != DirectionBias(direction) ==> Alignment(quant, quantBias, direction) <= 0.0
  {
  }

  /** What the quantitative signal adds or takes: up to 6 points for agreement on a side and up to 3
      on standing aside, at most 5 off for a side it does not see and at most 15 for the other one. */
  lemma AlignmentAmounts(q: real, quantBias: Bias, direction: Direction)
    requires 0.0 <= q <= 100.0
    ensures Alignment(None, quantBias, direction) == 0.0
    ensures var a, bias := Alignment(Some(q), quantBias, direction), DirectionBias(direction);
            match quantBias
            case Unknown => a == 0.0
            case Flat =>
              if bias == Flat then a == if q >= 60.0 then 3.0 else 0.05 * q
              else a == 0.05 * q - 5.0
            case _ =>
              if bias == quantBias then a == if q >= 75.0 then 6.0 else 0.08 * q
              else a == if 0.18 * q >= 15.0 then -15.0 else -0.18 * q
  {
  }

  function Adjusted(i: Inputs, base: real): int {
    Round(Clamp(
      base + Alignment(i.quant, i.quantBias, i.direction)
      - Lesser(2.0 * i.staleItems as real, 10.0)
      - Lesser(2.0 * i.contractReasons as real, 10.0)))
  }

  /** `_derive_final_confidence`. */
  function Derive(i: Inputs): Estimate {
    if i.structured.Some? then Estimate(Some(Round(i.structured.value)), Source(PortfolioManager, []))
    else if i.debate.Some? then Estimate(Some(Adjusted(i, i.debate.value)), Source(DebateConsensus, []))
    else if i.opinions != [] then Estimate(Some(Adjusted(i, Average(i.opinions))), Source(OpinionAverage, []))
    else if i.quant.Some? then Estimate(Some(Round(i.quant.value)), Source(QuantOnly, []))
    else Estimate(None, Source(Unavailable, []))
  }

  /** The portfolio manager's own confidence counts first and as it is; then the debate's and the
      average opinion, both adjusted by the quantitative signal and by two points for each stale and
      each contract item, ten at most for either; last the quantitative confidence alone. */
  lemma DerivedFrom(i: Inputs)
    ensures var d := Derive(i);
            var x :=
              (if i.debate.Some? then i.debate.value else if i.opinions != [] then Average(i.opinions) else 0.0)
              + Alignment(i.quant, i.quantBias, i.direction)
              - (if i.staleItems >= 5 then 10.0 else 2.0 * i.staleItems as real)
              - (if i.contractReasons >= 5 then 10.0 else 2.0 * i.contractReasons as real);
            var adjusted := Round(if x < 0.0 then 0.0 else if x > 100.0 then 100.0 else x);
            && d.source.marks == []
            && d.source.base == (if i.structured.Some? then PortfolioManager else if i.debate.Some? then DebateConsensus
                                 else if i.opinions != [] then OpinionAverage else if i.quant.Some? then QuantOnly
                                 else Unavailable)
            && match d.source.base
               case PortfolioManager => d.confidence == Some(Round(i.structured.value))
               case QuantOnly => d.confidence == Some(Round(i.quant.value))
               case Unavailable => d.confidence == None
               case _ => d.confidence == Some(adjusted)
  {
    hide Round, Average, Alignment;
  }

  function Marked(s: Source, m: Mark): Source {
    s.(marks := s.marks + [m])
  }

  /** The cap shared by the builder and the validator. */
  function LabelCap(dataLabel: DataLabel): Option<int> {
    match dataLabel
    case Clean => None
    case DegradedData => Some(45)
    case InsufficientData => Some(25)
  }

  function CapByQuality(e: Estimate, dataLabel: DataLabel): Estimate {
    match (LabelCap(dataLabel), e.confidence)
    case (Some(cap), Some(c)) => if c <= cap then e else Estimate(Some(cap), Marked(e.source, QualityCapped))
    case _ => e
  }

  function QuantCap(quant: real): int {
    Least(25, Round(quant + 10.0))
  }

  predicate LowQuant(quant: Option<real>, s: Source) {
    quant.Some? && quant.value <= 25.0 && s.base == PortfolioManager
  }

  function CapByQuant(e: Estimate, quant: Option<real>): Estimate {
    if e.confidence.None? || !LowQuant(quant, e.source) then e
    else if e.confidence.value <= QuantCap(quant.value) then e
    else Estimate(Some(QuantCap(quant.value)), Marked(e.source, LowQuantCapped))
  }

  datatype Timeframes = Timeframes(score: Option<real>, daily: Option<Bias>, monthly: Option<Bias>)

  /** The penalty of `_mtf_penalty_from_state`. */
  function MtfPenalty(t: Timeframes): int {
    match t.score
    case None => 0
    case Some(raw) =>
      var score := Clamp(raw);
      var penalty := if score < 40.0 then 20 else if score < 60.0 then 10 else if score < 70.0 then 5 else 0;
      if t.daily.Some? && t.monthly.Some? && t.daily != t.monthly && score < 70.0 && penalty < 10 then 10 else penalty
  }

  function Penalize(e: Estimate, penalty: int): Estimate {
    if e.confidence.None? || penalty <= 0 then e
    else
      var c := e.confidence.value - penalty;
      Estimate(Some(if c < 0 then 0 else c), Marked(e.source, MtfPenalized))
  }

  function FinalConfidence(i: Inputs, dataLabel: DataLabel, t: Timeframes): Estimate {
    Penalize(CapByQuant(CapByQuality(Derive(i), dataLabel), i.quant), MtfPenalty(t))
  }

  /** A lower alignment score never costs less; there is no penalty exactly from 70 on, the full one
      below 40, and below 70 a daily trend against the monthly one costs at least 10. */
  lemma PenaltyByScore(t: Timeframes, u: Timeframes)
    requires t.score.Some? && u.score.Some? && t.score.value <= u.score.value
    requires t.daily == u.daily && t.monthly == u.monthly
    ensures MtfPenalty(t) >= MtfPenalty(u)
    ensures MtfPenalty(t) == 0 <==> t.score.value >= 70.0
    ensures MtfPenalty(t) in {0, 5, 10, 20}
    ensures t.score.value < 40.0 ==> MtfPenalty(t) == 20
    ensures t.score.value < 70.0 && t.daily.Some? && t.monthly.Some? && t.daily != t.monthly ==> MtfPenalty(t) >= 10
  {
  }

  /** Score by score: 20, 10 or 5 points below 40, 60 and 70, and 10 instead of 5 if the daily trend
      goes against the monthly one. */
  lemma PenaltyExact(t: Timeframes)
    ensures t.score.None? ==> MtfPenalty(t) == 0
    ensures t.score.Some? ==>
              var s, apart := t.score.value, t.daily.Some? && t.monthly.Some? && t.daily.value != t.monthly.value;
              && (MtfPenalty(t) == 20 <==> s < 40.0)
              && (MtfPenalty(t) == 10 <==> 40.0 <= s < 60.0 || (60.0 <= s < 70.0 && apart))
              && (MtfPenalty(t) == 5 <==> 60.0 <= s < 70.0 && !apart)
  {
  }

  lemma DerivedInRange(i: Inputs)
    requires ValidInputs(i)
    ensures Derive(i).confidence.Some? ==> 0 <= Derive(i).confidence.value <= 100
    ensures Derive(i).confidence.None? <==> i.structured.None? && i.debate.None? && i.opinions == [] && i.quant.None?
  {
    hide Average, Round;
    if i.structured.Some? { RoundWithin(i.structured.value, 0, 100); }
    if i.quant.Some? { RoundWithin(i.quant.value, 0, 100); }
    AdjustedInRange(i, if i.debate.Some? then i.debate.value else if i.opinions != [] then Average(i.opinions) else 0.0);
  }

  lemma AdjustedInRange(i: Inputs, base: real)
    ensures 0 <= Adjusted(i, base) <= 100
  {
    hide Round, Alignment;
    RoundWithin(
      Clamp(base + Alignment(i.quant, i.quantBias, i.direction)
            - Lesser(2.0 * i.staleItems as real, 10.0)
            - Lesser(2.0 * i.contractReasons as real, 10.0)), 0, 100);
  }

  /** The steps after the derivation in closed form: the smallest of the caps that apply, less the
      penalty, never below zero. */
  function ClosedForm(derived: int, dataLabel: DataLabel, base: Base, quant: Option<real>, penalty: int): int {
    var byLabel := match LabelCap(dataLabel) case None => derived case Some(cap) => Least(derived, cap);
    var byQuant := if LowQuant(quant, Source(base, [])) then Least(byLabel, QuantCap(quant.value)) else byLabel;
    if byQuant < penalty then 0 else byQuant - penalty
  }

  lemma PipelineClosedForm(i: Inputs, dataLabel: DataLabel, t: Timeframes)
    requires ValidInputs(i)
    ensures FinalConfidence(i, dataLabel, t).confidence ==
            match Derive(i).confidence
            case None => None
            case Some(c) => Some(ClosedForm(c, dataLabel, Derive(i).source.base, i.quant, MtfPenalty(t)))
  {
    hide Round, Average, Adjusted;
    DerivedInRange(i);
    if i.quant.Some? {
      RoundWithin(Clamp(i.quant.value + 10.0), 0, 100);
    }
  }

  /** The end result in figures: at most 45 with degraded and 25 with insufficient data, at most ten
      above a quantitative confidence of 25 or less and 25 in any case if the portfolio manager named
      the confidence, then the penalty off. The source tells which of these took effect. */
  lemma FinalInFigures(i: Inputs, dataLabel: DataLabel, t: Timeframes)
    requires ValidInputs(i)
    ensures var d, f := Derive(i), FinalConfidence(i, dataLabel, t);
            && (f.confidence.None? <==> d.confidence.None?) && f.source.base == d.source.base
            && (d.confidence.Some? ==>
                  var c := d.confidence.value;
                  var a := if dataLabel == DegradedData && c > 45 then 45
                           else if dataLabel == InsufficientData && c > 25 then 25 else c;
                  var weak := i.structured.Some? && i.quant.Some? && i.quant.value <= 25.0;
                  var b := if weak && a > 25 then 25 else a;
                  var e := if weak && b > Round(i.quant.value + 10.0) then Round(i.quant.value + 10.0) else b;
                  var g := if e - MtfPenalty(t) < 0 then 0 else e - MtfPenalty(t);
                  && f.confidence.value == g
                  && (QualityCapped in f.source.marks <==> a < c)
                  && (LowQuantCapped in f.source.marks <==> e < a)
                  && (MtfPenalized in f.source.marks <==> MtfPenalty(t) > 0))
  {
    DerivedFrom(i);
    DerivedInRange(i);
    if i.quant.Some? {
      RoundWithin(i.quant.value + 10.0, 0, 110);
    }
    assert MtfPenalty(t) >= 0;
    hide Round, Average, Adjusted, Alignment, MtfPenalty;
  }

  /** Every later step only lowers the derived value and keeps it in range; the data label and a
      weak quantitative signal bound the end result. */
  lemma ConfidenceBounds(i: Inputs, dataLabel: DataLabel, t: Timeframes)
    requires ValidInputs(i)
    ensures var derived, capped := Derive(i), CapByQuality(Derive(i), dataLabel);
            var quantCapped, final := CapByQuant(capped, i.quant), FinalConfidence(i, dataLabel, t);
            && (final.confidence.None? <==> derived.confidence.None?)
            && (final.confidence.Some? ==>
                  && 0 <= final.confidence.value <= quantCapped.confidence.value <= capped.confidence.value
                     <= derived.confidence.value <= 100
                  && (dataLabel == DegradedData ==> final.confidence.value <= 45)
                  && (dataLabel == InsufficientData ==> final.confidence.value <= 25)
                  && (i.structured.Some? && i.quant.Some? && i.quant.value <= 25.0 ==>
                        final.confidence.value <= Least(25, Round(i.quant.value + 10.0))))
  {
    hide Round, Average, Adjusted;
    DerivedInRange(i);
    if i.quant.Some? {
      RoundWithin(Clamp(i.quant.value + 10.0), 0, 100);
    }
  }

  /** Without core data no thesis is more than 25% confident, whatever the model claimed. */
  lemma MissingCoreIsInsufficient(e: Evidence, i: Inputs, t: Timeframes)
    requires ValidInputs(i) && e.run.Some? && e.run.value.missingCore
    ensures var c := FinalConfidence(i, LabelFor(Quality(e)), t).confidence; c.Some? ==> c.value <= 25
  {
    QualityBounds(e);
    ConfidenceBounds(i, LabelFor(Quality(e)), t);
  }

  /** Without a confidence of the portfolio manager, stale or missing items never raise it either. */
  lemma StaleNeverHelps(i: Inputs, staleItems: nat, contractReasons: nat)
    requires staleItems >= i.staleItems && contractReasons >= i.contractReasons
    ensures var low := Derive(i.(staleItems := staleItems, contractReasons := contractReasons));
            && low.source == Derive(i).source
            && (low.confidence.Some? ==> Derive(i).confidence.Some? && low.confidence.value <= Derive(i).confidence.value)
  {
    hide Round, Average, Alignment;
    var j := i.(staleItems := staleItems, contractReasons := contractReasons);
    if i.debate.Some? {
      AdjustedMonotone(i, j, i.debate.value);
    } else if i.opinions != [] {
      AdjustedMonotone(i, j, Average(i.opinions));
    }
  }

  lemma AdjustedMonotone(i: Inputs, j: Inputs, base: real)
    requires j == i.(staleItems := j.staleItems, contractReasons := j.contractReasons)
    requires j.staleItems >= i.staleItems && j.contractReasons >= i.contractReasons
    ensures Adjusted(j, base) <= Adjusted(i, base)
  {
    hide Round, Alignment;
    var a := base + Alignment(i.quant, i.quantBias, i.direction);
    RoundMonotone(
      Clamp(a - Lesser(2.0 * j.staleItems as real, 10.0) - Lesser(2.0 * j.contractReasons as real, 10.0)),
      Clamp(a - Lesser(2.0 * i.staleItems as real, 10.0) - Lesser(2.0 * i.contractReasons as real, 10.0)));
  }

  /** More defects in the evidence, and more stale or missing items among the inputs, never raise the
      final confidence. */
  lemma FinalMonotone(worse: Evidence, e: Evidence, j: Inputs, i: Inputs, t: Timeframes)
    requires ValidInputs(i) && AtLeastAsDefective(worse, e)
    requires j == i.(staleItems := j.staleItems, contractReasons := j.contractReasons)
    requires j.staleItems >= i.staleItems && j.contractReasons >= i.contractReasons
    ensures var low, high := FinalConfidence(j, LabelFor(Quality(worse)), t), FinalConfidence(i, LabelFor(Quality(e)), t);
            low.confidence.Some? ==> high.confidence.Some? && low.confidence.value <= high.confidence.value
  {
    hide Round, Average, Adjusted, Quality, Derive, FinalConfidence, AtLeastAsDefective, MtfPenalty;
    QualityMonotone(worse, e);
    PipelineClosedForm(j, LabelFor(Quality(worse)), t);
    PipelineClosedForm(i, LabelFor(Quality(e)), t);
    StaleNeverHelps(i, j.staleItems, j.contractReasons);
  }

  /** As the builder runs it, where quality and confidence count the same stale and contract items. */
  function Shared(i: Inputs, e: Evidence): Inputs {
    i.(staleItems := e.staleItems, contractReasons := e.contractReasons)
  }

  lemma DefectsNeverHelp(worse: Evidence, e: Evidence, i: Inputs, t: Timeframes)
    requires ValidInputs(i) && AtLeastAsDefective(worse, e) && worse.contractReasons >= e.contractReasons
    ensures var low := FinalConfidence(Shared(i, worse), LabelFor(Quality(worse)), t);
            var high := FinalConfidence(Shared(i, e), LabelFor(Quality(e)), t);
            low.confidence.Some? ==> high.confidence.Some? && low.confidence.value <= high.confidence.value
  {
    hide Quality, FinalConfidence;
    FinalMonotone(worse, e, Shared(i, worse), Shared(i, e), t);
  }

  // ----- the compiler's cap -----

  /** `_capped_confidence` of `thesis_compiler.py`. */
  function CappedConfidence(confidence: Option<int>, cap: Option<int>): Option<int> {
    match (confidence, cap)
    case (None, _) => cap
    case (_, None) => confidence
    case (Some(c), Some(k)) => Some(Least(c, k))
  }

  /** What the compiler renders: the final confidence, or the candidate's own if there is none. */
  function Rendered(final: Option<int>, candidate: Option<int>, dataLabel: DataLabel): Option<int> {
    CappedConfidence(if final.Some? then final else candidate, LabelCap(dataLabel))
  }

  /** It is the smaller of that and the label's cap, and the cap alone if neither is known. */
  lemma RenderedIsCapped(final: Option<int>, candidate: Option<int>, dataLabel: DataLabel)
    ensures var r, own := Rendered(final, candidate, dataLabel), if final.Some? then final else candidate;
            match dataLabel
            case Clean => r == own
            case DegradedData => r == Some(if own.Some? && own.value < 45 then own.value else 45)
            case InsufficientData => r == Some(if own.Some? && own.value < 25 then own.value else 25)
  {
  }

  /** The compiler renders exactly the builder's confidence unless there was none and a fallback
      fills the gap: the candidate's own value, or failing that the cap itself. */
  lemma SecondCapIsNoOpIff(i: Inputs, dataLabel: DataLabel, t: Timeframes, candidate: Option<int>)
    requires ValidInputs(i)
    ensures var final := FinalConfidence(i, dataLabel, t).confidence;
            Rendered(final, candidate, dataLabel) == final <==>
            final.Some? || (candidate.None? && dataLabel == Clean)
  {
    hide Round, Average, Adjusted, FinalConfidence, Derive;
    ConfidenceBounds(i, dataLabel, t);
  }
}
