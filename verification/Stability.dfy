/**
 The thesis stability guard of `graph/thesis_builder.py`: a rerun that arrives within the cooldown of
 the previous thesis keeps the previous stance unless it brings override evidence.
 */
module Stability {
  import opened Reals
  import opened Text

  datatype Rating = Buy | Overweight | Hold | Underweight | Sell

  datatype Direction = Long | Short | Watch | Avoid | Neutral

  datatype Bias = Bullish | Bearish | Flat | Unknown

  datatype Status = Valid | Degraded | Blocked

  // ----- ratings and directions -----

  /** `normalize_rating`: free text to the five-tier scale. */
  function NormalizeRating(text: string): Option<Rating> {
    var t := Lower(Strip(text));
    if t == "buy" then Some(Buy)
    else if t == "overweight" then Some(Overweight)
    else if t == "hold" then Some(Hold)
    else if t == "underweight" then Some(Underweight)
    else if t == "sell" then Some(Sell)
    else None
  }

  function Label(r: Rating): string {
    match r
    case Buy => "Buy"
    case Overweight => "Overweight"
    case Hold => "Hold"
    case Underweight => "Underweight"
    case Sell => "Sell"
  }

  function Word(r: Rating): string {
    match r
    case Buy => "buy"
    case Overweight => "overweight"
    case Hold => "hold"
    case Underweight => "underweight"
    case Sell => "sell"
  }

  lemma LabelLowers(r: Rating)
    ensures Lower(Label(r)) == Word(r) && Strip(Label(r)) == Label(r)
  {
    StripSolid(Label(r));
  }

  lemma LabelNormalizes(r: Rating)
    ensures NormalizeRating(Label(r)) == Some(r)
  {
    hide Lower, Strip;
    LabelLowers(r);
    assert |"buy"| == 3 && |"overweight"| == 10 && |"hold"| == 4 && |"underweight"| == 11 && |"sell"| == 4;
    assert "hold"[0] != "sell"[0];
  }

  /** A text is a rating exactly if it is one of the five words, outer spaces and case aside. */
  lemma RatingIffWord(text: string, r: Rating)
    ensures NormalizeRating(text) == Some(r) <==> Lower(Strip(text)) == Word(r)
  {
    hide Lower, Strip;
    assert |"buy"| == 3 && |"overweight"| == 10 && |"hold"| == 4 && |"underweight"| == 11 && |"sell"| == 4;
    assert "hold"[0] != "sell"[0];
  }

  function DirectionBias(d: Direction): Bias {
    match d
    case Long => Bullish
    case Short => Bearish
    case Avoid => Bearish
    case Watch => Flat
    case Neutral => Flat
  }

  function RatingBias(rating: string): Bias {
    match NormalizeRating(rating)
    case None => Unknown
    case Some(r) =>
      match r
      case Buy => Bullish
      case Overweight => Bullish
      case Hold => Flat
      case Underweight => Bearish
      case Sell => Bearish
  }

  function DirectionFromRating(rating: string): Direction {
    match NormalizeRating(rating)
    case None => Watch
    case Some(r) =>
      match r
      case Buy => Long
      case Overweight => Long
      case Sell => Short
      case Underweight => Avoid
      case Hold => Watch
  }

  /** `_resolve_direction`: the first tests compare the rating as written. */
  function ResolveDirection(rating: string, requested: Option<Direction>): Direction {
    if rating == "Underweight" then Avoid
    else if rating == "Sell" then Short
    else if rating == "Buy" || rating == "Overweight" then Long
    else if requested == Some(Neutral) || requested == Some(Watch) then requested.value
    else DirectionFromRating(rating)
  }

  predicate AsWritten(rating: string) {
    NormalizeRating(rating).Some? && rating == Label(NormalizeRating(rating).value)
  }

  /** The resolved direction leans the way the rating does exactly when the rating is on the scale
      and is not a misspelt directional one beside a neutral request. */
  lemma ResolvedAgreesIff(rating: string, requested: Option<Direction>)
    ensures DirectionBias(ResolveDirection(rating, requested)) == RatingBias(rating) <==>
            && NormalizeRating(rating).Some?
            && (AsWritten(rating) || NormalizeRating(rating) == Some(Hold)
                || !(requested == Some(Neutral) || requested == Some(Watch)))
  {
    hide Lower, Strip;
    LabelNormalizes(Buy);
    LabelNormalizes(Overweight);
    LabelNormalizes(Hold);
    LabelNormalizes(Underweight);
    LabelNormalizes(Sell);
  }

  /** The direction named by a rating: only a sell goes short and only an underweight avoids, however
      they are spelt, unless a neutral or watching stance was asked for. That request gives way only
      to the four directional labels written exactly. */
  lemma DirectionOfRating(rating: string, requested: Option<Direction>)
    ensures var d, r := ResolveDirection(rating, requested), NormalizeRating(rating);
            if requested == Some(Neutral) || requested == Some(Watch) then
              match rating
              case "Sell" => d == Short
              case "Underweight" => d == Avoid
              case "Buy" => d == Long
              case "Overweight" => d == Long
              case _ => d == requested.value
            else
              && (d == Short <==> r == Some(Sell)) && (d == Avoid <==> r == Some(Underweight))
              && (d == Long <==> r == Some(Buy) || r == Some(Overweight))
              && (d == Watch <==> r == Some(Hold) || r == None)
  {
    hide Lower, Strip;
    LabelNormalizes(Buy);
    LabelNormalizes(Overweight);
    LabelNormalizes(Underweight);
    LabelNormalizes(Sell);
    assert "Sell" != "Buy" && "Sell" != "Underweight" && "Sell" != "Overweight" && "Buy" != "Underweight" by {
      assert |"Sell"| == 4 && |"Buy"| == 3 && |"Underweight"| == 11 && |"Overweight"| == 10;
    }
    assert "Buy" != "Overweight" && "Underweight" != "Overweight" by {
      assert |"Buy"| == 3 && |"Underweight"| == 11 && |"Overweight"| == 10;
    }
  }

  // ----- theses -----

  datatype Plan = Plan(
    entryZone: string,
    confirmation: string,
    invalidation: string,
    targetZones: seq<string>,
    profitTargets: seq<string>,
    downsideObjectives: seq<string>,
    accumulationZones: seq<string>,
    indicatorThresholds: seq<string>)

  datatype Summary = Summary(
    rating: string, direction: Direction, confidence: Option<real>, plan: Plan, actionSummary: string)

  datatype Proposal = Proposal(direction: Direction, rating: string, confidence: Option<real>, plan: Plan, actionSummary: string)

  /** The `stability_guard` entry of a thesis's evidence. */
  datatype GuardNote =
    | NoNote
    | ArtifactBlocked
    | OverridePresent(previousId: string)
    | Retained(previousId: string, proposed: Proposal)

  /** A thesis as the journal stores it; times are minutes, and `overrideText` says whether its text
      names one of the override terms. */
  datatype Record = Record(
    id: string,
    runId: string,
    symbol: string,
    workspace: string,
    createdAt: real,
    status: Status,
    overrideText: bool,
    direction: Direction,
    confidence: Option<real>,
    heuristicConfidence: Option<real>,
    plan: Plan,
    monitorNext: seq<string>,
    summary: Option<Summary>,
    note: GuardNote)

  function RatingOf(t: Record): string {
    match t.summary
    case Some(s) => s.rating
    case None =>
      match t.direction
      case Long => "Overweight"
      case Short => "Underweight"
      case Avoid => "Underweight"
      case Neutral => "Hold"
      case Watch => "Hold"
  }

  function Normalized(c: Option<real>): Option<real> {
    match c
    case None => None
    case Some(x) => Some(if x > 1.0 then 1.0 else if x < 0.0 then 0.0 else x)
  }

  function Distance(a: real, b: real): (d: real)
    ensures d >= 0.0
  {
    if a >= b then a - b else b - a
  }

  /** The value of the unit interval nearest to a confidence. */
  lemma NormalizedIsNearest(x: real, y: real)
    requires 0.0 <= y <= 1.0
    ensures Normalized(Some(x)).Some? && 0.0 <= Normalized(Some(x)).value <= 1.0
    ensures Distance(x, Normalized(Some(x)).value) <= Distance(x, y)
  {
  }

  function ConfidenceDelta(a: Option<real>, b: Option<real>): real {
    if Normalized(a).Some? && Normalized(b).Some? then Distance(Normalized(a).value, Normalized(b).value) else 0.0
  }

  /** Confidences in the unit interval differ by their distance; an unknown one makes no difference. */
  lemma DeltaIsDistance(a: Option<real>, b: Option<real>)
    ensures a.None? || b.None? ==> ConfidenceDelta(a, b) == 0.0
    ensures a.Some? && b.Some? && 0.0 <= b.value <= a.value <= 1.0 ==>
              ConfidenceDelta(a, b) == ConfidenceDelta(b, a) == a.value - b.value
  {
  }

  // ----- the journal -----

  datatype Config = Config(
    enabled: bool, cooldownMinutes: real, maxConfidenceDelta: real, flipOverrideConfidence: real, memoryLimit: int)

  function AtLeastZero(x: real): real {
    if x < 0.0 then 0.0 else x
  }

  /** A thesis without a workspace belongs to the local one. */
  function Workspace(id: string): string {
    Strip(if id == "" then "local" else id)
  }

  predicate SameKey(a: Record, b: Record, upper: string -> string) {
    upper(Strip(a.symbol)) == upper(Strip(b.symbol)) && Workspace(a.workspace) == Workspace(b.workspace)
  }

  predicate Eligible(candidate: Record, t: Record, upper: string -> string) {
    && candidate.id != t.id
    && !(candidate.runId != "" && candidate.runId == t.runId)
    && SameKey(candidate, t, upper)
  }

  function FirstEligible(journal: seq<Record>, t: Record, upper: string -> string): Option<Record> {
    if journal == [] then None
    else if Eligible(journal[0], t, upper) then Some(journal[0])
    else FirstEligible(journal[1..], t, upper)
  }

  /** What `list_theses` returns of a journal kept newest first. */
  function Remembered(journal: seq<Record>, cfg: Config): seq<Record> {
    var limit := if cfg.memoryLimit < 1 then 1 else cfg.memoryLimit;
    if |journal| <= limit then journal else journal[..limit]
  }

  /** What the journal calls a thesis: symbol in upper case and workspace, `local` if none is set. */
  function KeyOf(t: Record, upper: string -> string): (string, string) {
    (upper(Strip(t.symbol)), if t.workspace == "" then "local" else Strip(t.workspace))
  }

  /** The i-th newest thesis is the one a rerun follows: the newest, within the memory limit, of the
      same symbol and workspace, with another id and from another run. */
  ghost predicate NewestOfSeries(journal: seq<Record>, i: nat, t: Record, cfg: Config, upper: string -> string) {
    && i < |journal| && (i < cfg.memoryLimit || i == 0)
    && journal[i].id != t.id && (journal[i].runId == "" || journal[i].runId != t.runId)
    && KeyOf(journal[i], upper) == KeyOf(t, upper)
    && forall j | 0 <= j < i ::
         || journal[j].id == t.id || (journal[j].runId != "" && journal[j].runId == t.runId)
         || KeyOf(journal[j], upper) != KeyOf(t, upper)
  }

  lemma {:induction false} FirstEligibleAt(journal: seq<Record>, t: Record, upper: string -> string) returns (i: nat)
    ensures i <= |journal| && forall j | 0 <= j < i :: !Eligible(journal[j], t, upper)
    ensures FirstEligible(journal, t, upper) == if i == |journal| then None else Some(journal[i])
    ensures i < |journal| ==> Eligible(journal[i], t, upper)
  {
    hide Eligible;
    if journal == [] || Eligible(journal[0], t, upper) {
      i := 0;
    } else {
      var k := FirstEligibleAt(journal[1..], t, upper);
      i := k + 1;
      forall j | 0 <= j < i ensures !Eligible(journal[j], t, upper) {
        assert j > 0 ==> journal[j] == journal[1..][j - 1];
      }
    }
  }

  lemma LocalIsStripped()
    ensures Strip("local") == "local"
  {
    StripSolid("local");
  }

  lemma EligibleMeans(p: Record, t: Record, upper: string -> string)
    ensures Eligible(p, t, upper) <==>
            && p.id != t.id && (p.runId == "" || p.runId != t.runId) && KeyOf(p, upper) == KeyOf(t, upper)
  {
    hide Strip;
    LocalIsStripped();
  }

  /** The first eligible thesis among the remembered ones is exactly the newest of the series. */
  lemma NewestIsFirst(journal: seq<Record>, t: Record, cfg: Config, upper: string -> string)
    ensures var first := FirstEligible(Remembered(journal, cfg), t, upper);
            && (first.None? <==> forall i: nat :: !NewestOfSeries(journal, i, t, cfg, upper))
            && (first.Some? ==> exists i: nat :: NewestOfSeries(journal, i, t, cfg, upper) && first.value == journal[i])
  {
    var seen := Remembered(journal, cfg);
    var i := FirstEligibleAt(seen, t, upper);
    forall j | 0 <= j < |seen|
      ensures Eligible(seen[j], t, upper) <==>
              && journal[j].id != t.id && (journal[j].runId == "" || journal[j].runId != t.runId)
              && KeyOf(journal[j], upper) == KeyOf(t, upper)
    {
      EligibleMeans(seen[j], t, upper);
    }
    hide Eligible, KeyOf, FirstEligible;
    if i < |seen| {
      assert NewestOfSeries(journal, i, t, cfg, upper);
    } else {
      assert forall k: nat | NewestOfSeries(journal, k, t, cfg, upper) :: k < |seen|;
    }
  }

  lemma NewestIsUnique(journal: seq<Record>, i: nat, t: Record, cfg: Config, upper: string -> string)
    requires NewestOfSeries(journal, i, t, cfg, upper)
    ensures FirstEligible(Remembered(journal, cfg), t, upper) == Some(journal[i])
  {
    NewestIsFirst(journal, t, cfg, upper);
    hide KeyOf, FirstEligible;
    var k: nat :|
      NewestOfSeries(journal, k, t, cfg, upper) && FirstEligible(Remembered(journal, cfg), t, upper) == Some(journal[k]);
    assert k == i;
  }

  /** The journal without the theses of other symbols and workspaces. */
  function OfKey(journal: seq<Record>, key: (string, string), upper: string -> string): seq<Record> {
    if journal == [] then []
    else (if KeyOf(journal[0], upper) == key then [journal[0]] else []) + OfKey(journal[1..], key, upper)
  }

  lemma {:induction false} OfKeyMeans(journal: seq<Record>, key: (string, string), upper: string -> string)
    ensures forall p :: p in OfKey(journal, key, upper) <==> p in journal && KeyOf(p, upper) == key
    ensures Subsequence(OfKey(journal, key, upper), journal)
  {
    hide KeyOf;
    if journal == [] {
      StandingIsSelecting(OfKey(journal, key, upper), journal, []);
    } else {
      OfKeyMeans(journal[1..], key, upper);
      SubsequenceBehind(OfKey(journal[1..], key, upper), journal);
      hide Subsequence;
      assert journal == [journal[0]] + journal[1..];
      assert [] + OfKey(journal[1..], key, upper) == OfKey(journal[1..], key, upper);
    }
  }

  lemma {:induction false} OthersNeverFirst(journal: seq<Record>, t: Record, upper: string -> string)
    ensures FirstEligible(OfKey(journal, KeyOf(t, upper), upper), t, upper) == FirstEligible(journal, t, upper)
    ensures |OfKey(journal, KeyOf(t, upper), upper)| <= |journal|
  {
    if journal != [] {
      OthersNeverFirst(journal[1..], t, upper);
      EligibleMeans(journal[0], t, upper);
      hide Eligible, KeyOf;
      var rest := OfKey(journal[1..], KeyOf(t, upper), upper);
      if KeyOf(journal[0], upper) == KeyOf(t, upper) {
        assert ([journal[0]] + rest)[1..] == rest;
      } else {
        assert [] + rest == rest;
      }
    }
  }

  // ----- the guard -----

  predicate HasOverride(t: Record, cfg: Config) {
    && Normalized(t.confidence).Some?
    && Normalized(t.confidence).value >= AtLeastZero(cfg.flipOverrideConfidence)
    && t.overrideText
  }

  predicate WithinCooldown(p: Record, t: Record, cfg: Config) {
    0.0 <= t.createdAt - p.createdAt <= AtLeastZero(cfg.cooldownMinutes)
  }

  predicate Steady(p: Record, t: Record, cfg: Config) {
    && DirectionBias(p.direction) == DirectionBias(t.direction)
    && RatingBias(RatingOf(p)) == RatingBias(RatingOf(t))
    && ConfidenceDelta(p.confidence, t.confidence) <= AtLeastZero(cfg.maxConfidenceDelta)
  }

  /** The thesis the guard measures a new one against, if it intervenes at all. */
  function Baseline(t: Record, journal: seq<Record>, cfg: Config, upper: string -> string): Option<Record> {
    if !cfg.enabled || t.status == Blocked then None
    else
      match FirstEligible(Remembered(journal, cfg), t, upper)
      case None => None
      case Some(p) => if WithinCooldown(p, t, cfg) && !Steady(p, t, cfg) then Some(p) else None
  }

  predicate Applies(t: Record, journal: seq<Record>, cfg: Config, upper: string -> string) {
    Baseline(t, journal, cfg, upper).Some? && !HasOverride(t, cfg)
  }

  function Proposed(t: Record): Proposal {
    Proposal(t.direction, RatingOf(t), t.confidence, t.plan, if t.summary.Some? then t.summary.value.actionSummary else "")
  }

  function MergedSummary(p: Record, t: Record): Option<Summary> {
    match (p.summary, t.summary)
    case (Some(s), _) => Some(s.(rating := RatingOf(p), direction := p.direction, confidence := p.confidence))
    case (None, Some(s)) =>
      Some(s.(rating := RatingOf(p), direction := p.direction, confidence := p.confidence, plan := p.plan))
    case (None, None) => None
  }

  /** What the guard leaves behind. */
  function Guarded(t: Record, journal: seq<Record>, cfg: Config, upper: string -> string): Record {
    if cfg.enabled && t.status == Blocked then t.(note := ArtifactBlocked)
    else
      match Baseline(t, journal, cfg, upper)
      case None => t
      case Some(p) =>
        if HasOverride(t, cfg) then t.(note := OverridePresent(p.id))
        else
          t.(direction := p.direction, confidence := p.confidence, heuristicConfidence := p.heuristicConfidence,
             plan := p.plan, monitorNext := p.monitorNext, summary := MergedSummary(p, t),
             note := Retained(p.id, Proposed(t)))
  }

  class Thesis {
    const id: string
    const runId: string
    const symbol: string
    const workspace: string
    const createdAt: real
    const status: Status
    const overrideText: bool
    var direction: Direction
    var confidence: Option<real>
    var heuristicConfidence: Option<real>
    var plan: Plan
    var monitorNext: seq<string>
    var summary: Option<Summary>
    var note: GuardNote

    constructor (r: Record)
      ensures Snapshot() == r
    {
      id, runId, symbol, workspace, createdAt := r.id, r.runId, r.symbol, r.workspace, r.createdAt;
      status, overrideText, direction, confidence := r.status, r.overrideText, r.direction, r.confidence;
      heuristicConfidence, plan, monitorNext := r.heuristicConfidence, r.plan, r.monitorNext;
      summary, note := r.summary, r.note;
    }

    function Snapshot(): Record
      reads this
    {
      Record(id, runId, symbol, workspace, createdAt, status, overrideText, direction, confidence,
             heuristicConfidence, plan, monitorNext, summary, note)
    }

    /** `_latest_previous_thesis`. */
    method LatestPrevious(journal: seq<Record>, cfg: Config, upper: string -> string) returns (previous: Option<Record>)
      ensures previous == FirstEligible(Remembered(journal, cfg), Snapshot(), upper)
      ensures previous.None? <==> forall i: nat :: !NewestOfSeries(journal, i, Snapshot(), cfg, upper)
      ensures previous.Some? ==>
                exists i: nat :: NewestOfSeries(journal, i, Snapshot(), cfg, upper) && previous.value == journal[i]
    {
      NewestIsFirst(journal, Snapshot(), cfg, upper);
      hide NewestOfSeries;
      var candidates := Remembered(journal, cfg);
      for i := 0 to |candidates|
        invariant FirstEligible(candidates, Snapshot(), upper) == FirstEligible(candidates[i..], Snapshot(), upper)
      {
        var candidate := candidates[i];
        assert candidates[i..][1..] == candidates[i + 1..];
        if candidate.id == id {
          continue;
        }
        if candidate.runId != "" && candidate.runId == runId {
          continue;
        }
        if upper(Strip(candidate.symbol)) != upper(Strip(symbol)) {
          continue;
        }
        if Workspace(candidate.workspace) != Workspace(workspace) {
          continue;
        }
        return Some(candidate);
      }
      previous := None;
    }

    /** `_apply_stability_guard`. */
    method ApplyStabilityGuard(journal: seq<Record>, cfg: Config, upper: string -> string)
      modifies this
      ensures Snapshot() == Guarded(old(Snapshot()), journal, cfg, upper)
    {
      hide RatingBias, Strip, FirstEligible, Remembered, Normalized;
      if !cfg.enabled {
        return;
      }
      if status == Blocked {
        note := ArtifactBlocked;
        return;
      }
      var latest := LatestPrevious(journal, cfg, upper);
      if latest.None? {
        return;
      }
      var previous := latest.value;
      var age := createdAt - previous.createdAt;
      if age < 0.0 || age > AtLeastZero(cfg.cooldownMinutes) {
        return;
      }
      var previousRating, proposedRating := RatingOf(previous), RatingOf(Snapshot());
      var ratingChanged := RatingBias(previousRating) != RatingBias(proposedRating);
      var directionChanged := DirectionBias(previous.direction) != DirectionBias(direction);
      var delta := ConfidenceDelta(previous.confidence, confidence);
      if !directionChanged && !ratingChanged && delta <= AtLeastZero(cfg.maxConfidenceDelta) {
        return;
      }
      if HasOverride(Snapshot(), cfg) {
        note := OverridePresent(previous.id);
        return;
      }
      var proposed := Proposed(Snapshot());
      direction := previous.direction;
      confidence := previous.confidence;
      heuristicConfidence := previous.heuristicConfidence;
      plan := previous.plan;
      monitorNext := previous.monitorNext;
      if previous.summary.Some? {
        summary := Some(previous.summary.value.(
          rating := previousRating, direction := previous.direction, confidence := previous.confidence));
      } else if summary.Some? {
        summary := Some(summary.value.(
          rating := previousRating, direction := previous.direction, confidence := previous.confidence,
          plan := previous.plan));
      }
      note := Retained(previous.id, proposed);
    }
  }

  // ----- one step -----

  /** A guarded thesis carries the stance and rating of its baseline, word for word. */
  lemma AppliedKeepsStance(t: Record, journal: seq<Record>, cfg: Config, upper: string -> string)
    requires Applies(t, journal, cfg, upper)
    ensures var g, p := Guarded(t, journal, cfg, upper), Baseline(t, journal, cfg, upper).value;
            && g.direction == p.direction && RatingOf(g) == RatingOf(p) && g.confidence == p.confidence
            && g.plan == p.plan
            && (g.summary.Some? ==> g.summary.value.direction == g.direction && g.summary.value.confidence == g.confidence)
  {
  }

  /** The guard intervenes exactly if the thesis follows one of its own series within the cooldown and
      leans another way in direction or rating, or differs by more than the allowed confidence. With
      override evidence it only takes note; without, the thesis gets what the earlier one said. */
  lemma GuardIntervenes(t: Record, journal: seq<Record>, i: nat, cfg: Config, upper: string -> string)
    requires cfg.enabled && t.status != Blocked && NewestOfSeries(journal, i, t, cfg, upper)
    ensures var p, g := journal[i], Guarded(t, journal, cfg, upper);
            var age := t.createdAt - p.createdAt;
            var steady :=
              && DirectionBias(p.direction) == DirectionBias(t.direction)
              && RatingBias(RatingOf(p)) == RatingBias(RatingOf(t))
              && ConfidenceDelta(p.confidence, t.confidence) <= AtLeastZero(cfg.maxConfidenceDelta);
            if age < 0.0 || (age > cfg.cooldownMinutes && age > 0.0) || steady then g == t
            else if && t.overrideText && t.confidence.Some?
                    && (cfg.flipOverrideConfidence <= 0.0
                        || (cfg.flipOverrideConfidence <= 1.0 && t.confidence.value >= cfg.flipOverrideConfidence))
            then g == t.(note := OverridePresent(p.id))
            else
              && g.note == Retained(p.id, Proposed(t))
              && g.direction == p.direction && g.confidence == p.confidence
              && g.heuristicConfidence == p.heuristicConfidence && g.plan == p.plan && g.monitorNext == p.monitorNext
              && RatingOf(g) == RatingOf(p)
              && (p.summary.Some? && t.summary.Some? ==> g.summary.value.actionSummary == p.summary.value.actionSummary)
  {
    NewestIsUnique(journal, i, t, cfg, upper);
    hide RatingBias, FirstEligible, NewestOfSeries, ConfidenceDelta;
  }

  /** Without such a thesis, or switched off, it does nothing; a blocked thesis is only noted. */
  lemma GuardStaysOut(t: Record, journal: seq<Record>, cfg: Config, upper: string -> string)
    requires !cfg.enabled || t.status == Blocked || forall i: nat :: !NewestOfSeries(journal, i, t, cfg, upper)
    ensures Guarded(t, journal, cfg, upper) == if cfg.enabled && t.status == Blocked then t.(note := ArtifactBlocked) else t
  {
    NewestIsFirst(journal, t, cfg, upper);
    hide FirstEligible, NewestOfSeries;
  }

  /** As long as the whole journal is remembered, theses of other symbols or workspaces never matter. */
  lemma OthersNeverMatter(t: Record, journal: seq<Record>, cfg: Config, upper: string -> string)
    requires |journal| <= cfg.memoryLimit || |journal| <= 1
    ensures Guarded(t, OfKey(journal, KeyOf(t, upper), upper), cfg, upper) == Guarded(t, journal, cfg, upper)
    ensures forall p :: p in OfKey(journal, KeyOf(t, upper), upper) <==> p in journal && KeyOf(p, upper) == KeyOf(t, upper)
  {
    OthersNeverFirst(journal, t, upper);
    OfKeyMeans(journal, KeyOf(t, upper), upper);
    hide FirstEligible, KeyOf, OfKey;
  }

  /** The guard never changes which thesis this is, and what it overrules stays in the evidence. */
  lemma GuardLosesNothing(t: Record, journal: seq<Record>, cfg: Config, upper: string -> string)
    ensures var g := Guarded(t, journal, cfg, upper);
            && g.id == t.id && g.runId == t.runId && g.symbol == t.symbol && g.workspace == t.workspace
            && g.createdAt == t.createdAt && g.status == t.status
            && (Applies(t, journal, cfg, upper) ==> g.note.Retained? && g.note.proposed == Proposed(t))
            && (!Applies(t, journal, cfg, upper) ==> g == t.(note := g.note))
  {
  }

  /** Whatever the guard does, the result is steady against the previous thesis, unless that is
      out of reach or overridden. */
  lemma GuardSteadies(t: Record, p: Record, journal: seq<Record>, cfg: Config, upper: string -> string)
    requires cfg.enabled && t.status != Blocked && !HasOverride(t, cfg)
    requires FirstEligible(Remembered(journal, cfg), t, upper) == Some(p) && WithinCooldown(p, t, cfg)
    ensures Steady(p, Guarded(t, journal, cfg, upper), cfg)
    ensures p.confidence.Some? && t.confidence.Some? ==> Guarded(t, journal, cfg, upper).confidence.Some?
  {
    hide RatingBias, FirstEligible, Strip;
    if Applies(t, journal, cfg, upper) {
      AppliedKeepsStance(t, journal, cfg, upper);
    }
  }

  /** The guard restores a confidence the new run's cap forbids exactly when it applies and the
      previous confidence was above that cap. */
  lemma CapHoldsIff(t: Record, journal: seq<Record>, cfg: Config, upper: string -> string, cap: real)
    requires t.confidence.Some? ==> t.confidence.value <= cap
    ensures var g := Guarded(t, journal, cfg, upper);
            (g.confidence.Some? ==> g.confidence.value <= cap) <==>
            !(Applies(t, journal, cfg, upper) && Baseline(t, journal, cfg, upper).value.confidence.Some?
              && Baseline(t, journal, cfg, upper).value.confidence.value > cap)
  {
    hide RatingBias, FirstEligible, Strip;
  }

  // ----- coherence over every run -----

  /** The official rating and the direction lean the same way. */
  predicate Coherent(t: Record) {
    RatingBias(RatingOf(t)) == DirectionBias(t.direction)
  }

  /** A thesis fresh from the builder: its direction is resolved from its rating. */
  ghost predicate Built(t: Record) {
    && t.summary.Some?
    && exists r, requested | t.summary.value.rating == Label(r) ::
         t.direction == t.summary.value.direction == ResolveDirection(Label(r), requested)
  }

  const NO_PLAN := Plan("", "", "", [], [], [], [], [])

  function Sample(id: string, createdAt: real, confidence: real): Record {
    Record(id, "", "BTC", "local", createdAt, Valid, false, Watch, Some(confidence), None, NO_PLAN, [],
           Some(Summary("Hold", Watch, Some(confidence), NO_PLAN, "")), NoNote)
  }

  /** The case occurs among theses as the builder makes them: a rerun with insufficient data, capped
      at 0.25, goes back to 0.9. */
  lemma CapCanBeExceeded(upper: string -> string)
    ensures var cfg := Config(true, 60.0, 0.2, 0.75, 50);
            var previous, rerun := Sample("a", 0.0, 0.9), Sample("b", 5.0, 0.25);
            && Built(previous) && Built(rerun)
            && Guarded(rerun, [previous], cfg, upper).confidence == Some(0.9)
  {
    hide RatingBias, Strip, NormalizeRating;
    var a, b := Sample("a", 0.0, 0.9), Sample("b", 5.0, 0.25);
    assert Label(Hold) == "Hold" && ResolveDirection("Hold", Some(Watch)) == Watch;
    assert "a" != "b" by { assert "a"[0] != "b"[0]; }
    assert Eligible(a, b, upper);
    assert FirstEligible([a], b, upper) == Some(a);
  }

  /** A thesis without a summary is rated by its direction, and by the milder grade of each side. */
  lemma UnratedIsMild(t: Record)
    requires t.summary.None?
    ensures Coherent(t)
    ensures NormalizeRating(RatingOf(t)).Some?
    ensures NormalizeRating(RatingOf(t)) != Some(Buy) && NormalizeRating(RatingOf(t)) != Some(Sell)
  {
    hide Lower, Strip;
    LabelNormalizes(Overweight);
    LabelNormalizes(Underweight);
    LabelNormalizes(Hold);
  }

  lemma BuiltIsCoherent(t: Record)
    requires Built(t)
    ensures Coherent(t)
  {
    var r, requested :|
      t.summary.value.rating == Label(r) &&
      t.direction == t.summary.value.direction == ResolveDirection(Label(r), requested);
    LabelNormalizes(r);
    ResolvedAgreesIff(Label(r), requested);
  }

  lemma GuardKeepsCoherence(t: Record, journal: seq<Record>, cfg: Config, upper: string -> string)
    requires Coherent(t) && forall p | p in journal :: Coherent(p)
    ensures Coherent(Guarded(t, journal, cfg, upper))
  {
    hide RatingBias, Strip;
    if Applies(t, journal, cfg, upper) {
      AppliedKeepsStance(t, journal, cfg, upper);
      FirstIsMember(Remembered(journal, cfg), t, upper);
      assert Baseline(t, journal, cfg, upper).value in journal;
    } else {
      GuardLosesNothing(t, journal, cfg, upper);
      assert RatingOf(Guarded(t, journal, cfg, upper)) == RatingOf(t);
    }
  }

  lemma {:induction false} FirstIsMember(journal: seq<Record>, t: Record, upper: string -> string)
    requires FirstEligible(journal, t, upper).Some?
    ensures FirstEligible(journal, t, upper).value in journal
  {
    if !Eligible(journal[0], t, upper) {
      FirstIsMember(journal[1..], t, upper);
    }
  }

  /** The journal, newest first, after the given proposals have gone through the guard. */
  function JournalAfter(proposals: seq<Record>, start: seq<Record>, cfg: Config, upper: string -> string): seq<Record> {
    if proposals == [] then start
    else
      var before := JournalAfter(proposals[..|proposals| - 1], start, cfg, upper);
      [Guarded(proposals[|proposals| - 1], before, cfg, upper)] + before
  }

  /** In every run, whatever the symbols, times and overrides, every journaled thesis is coherent. */
  lemma {:induction false} EveryThesisCoherent(
    proposals: seq<Record>, start: seq<Record>, cfg: Config, upper: string -> string)
    requires forall t | t in start :: Coherent(t)
    requires forall t | t in proposals :: Built(t)
    ensures forall t | t in JournalAfter(proposals, start, cfg, upper) :: Coherent(t)
  {
    if proposals != [] {
      var front, t := proposals[..|proposals| - 1], proposals[|proposals| - 1];
      EveryThesisCoherent(front, start, cfg, upper);
      BuiltIsCoherent(t);
      GuardKeepsCoherence(t, JournalAfter(front, start, cfg, upper), cfg, upper);
    }
  }

  // ----- rerun chains -----

  /** A rerun, and what other theses were journaled since the one before it, newest first. */
  datatype Link = Link(proposal: Record, others: seq<Record>)

  function ChainJournal(
    first: Record, links: seq<Link>, older: seq<Record>, cfg: Config, upper: string -> string): (j: seq<Record>)
    ensures j != []
  {
    if links == [] then [first] + older
    else
      var before := ChainJournal(first, links[..|links| - 1], older, cfg, upper);
      var last := links[|links| - 1];
      [Guarded(last.proposal, last.others + before, cfg, upper)] + (last.others + before)
  }

  /** The rerun belongs to the same symbol and workspace as the newest thesis of the chain, arrives
      within its cooldown and the journal's memory, and has neither override nor blocker. */
  predicate Links(link: Link, journal: seq<Record>, cfg: Config, upper: string -> string)
    requires journal != []
  {
    var t := link.proposal;
    && Eligible(journal[0], t, upper)
    && (forall o | o in link.others :: !Eligible(o, t, upper))
    && |link.others| < (if cfg.memoryLimit < 1 then 1 else cfg.memoryLimit)
    && WithinCooldown(journal[0], t, cfg)
    && t.status != Blocked && !HasOverride(t, cfg)
  }

  /** Every rerun of the chain links to the journal the ones before it left. */
  predicate Chained(first: Record, links: seq<Link>, older: seq<Record>, cfg: Config, upper: string -> string) {
    links != [] ==>
      var front := links[..|links| - 1];
      && Chained(first, front, older, cfg, upper)
      && Links(links[|links| - 1], ChainJournal(first, front, older, cfg, upper), cfg, upper)
  }

  lemma {:induction false} SkipsOthers(others: seq<Record>, journal: seq<Record>, t: Record, upper: string -> string)
    requires journal != [] && Eligible(journal[0], t, upper)
    requires forall o | o in others :: !Eligible(o, t, upper)
    ensures FirstEligible(others + journal, t, upper) == Some(journal[0])
  {
    if others == [] {
      assert others + journal == journal;
    } else {
      assert (others + journal)[1..] == others[1..] + journal;
      assert others[0] in others;
      SkipsOthers(others[1..], journal, t, upper);
    }
  }

  lemma LinkFindsPrevious(link: Link, journal: seq<Record>, cfg: Config, upper: string -> string)
    requires journal != [] && Links(link, journal, cfg, upper)
    ensures FirstEligible(Remembered(link.others + journal, cfg), link.proposal, upper) == Some(journal[0])
  {
    hide Eligible, WithinCooldown, HasOverride;
    var all := link.others + journal;
    var seen := Remembered(all, cfg);
    var k := |seen| - |link.others|;
    assert seen == link.others + journal[..k];
    SkipsOthers(link.others, journal[..k], link.proposal, upper);
  }

  predicate KnownConfidences(first: Record, links: seq<Link>) {
    first.confidence.Some? && forall i | 0 <= i < |links| :: links[i].proposal.confidence.Some?
  }

  /** Same biases; and if `known`, confidences at most n steps apart. */
  predicate Stable(first: Record, newest: Record, n: nat, known: bool, cfg: Config) {
    && DirectionBias(newest.direction) == DirectionBias(first.direction)
    && RatingBias(RatingOf(newest)) == RatingBias(RatingOf(first))
    && (known ==>
          && newest.confidence.Some? && first.confidence.Some?
          && Distance(Normalized(newest.confidence).value, Normalized(first.confidence).value)
             <= Times(AtLeastZero(cfg.maxConfidenceDelta), n))
  }

  lemma StableStep(first: Record, p: Record, g: Record, n: nat, known: bool, cfg: Config)
    requires Stable(first, p, n, known, cfg) && Steady(p, g, cfg)
    requires known ==> g.confidence.Some?
    ensures Stable(first, g, n + 1, known, cfg)
  {
    hide Times, RatingBias, RatingOf, AtLeastZero;
    TimesAdd(AtLeastZero(cfg.maxConfidenceDelta), n, 1);
  }

  /** Along a chain of reruns without override evidence neither bias ever moves, and a known
      confidence drifts by at most the allowed step per rerun. */
  lemma {:induction false} ChainIsStable(
    first: Record, links: seq<Link>, older: seq<Record>, cfg: Config, upper: string -> string)
    requires cfg.enabled
    requires Chained(first, links, older, cfg, upper)
    ensures Stable(first, ChainJournal(first, links, older, cfg, upper)[0], |links|, KnownConfidences(first, links), cfg)
  {
    if links == [] {
      ChainStart(first, KnownConfidences(first, links), cfg);
    } else {
      var n := |links| - 1;
      var front, last := links[..n], links[n];
      if KnownConfidences(first, links) {
        KnownSplits(first, links);
      }
      var before := ChainJournal(first, front, older, cfg, upper);
      assert ChainJournal(first, links, older, cfg, upper)[0] == Guarded(last.proposal, last.others + before, cfg, upper);
      hide *;
      ChainIsStable(first, front, older, cfg, upper);
      LinkSteadies(last, before, cfg, upper);
      var known := KnownConfidences(first, links);
      StableWeaken(first, before[0], n, KnownConfidences(first, front), known, cfg);
      StableStep(first, before[0], Guarded(last.proposal, last.others + before, cfg, upper), n, known, cfg);
    }
  }

  lemma KnownSplits(first: Record, links: seq<Link>)
    requires links != [] && KnownConfidences(first, links)
    ensures KnownConfidences(first, links[..|links| - 1]) && links[|links| - 1].proposal.confidence.Some?
  {
  }

  lemma ChainStart(first: Record, known: bool, cfg: Config)
    requires known ==> first.confidence.Some?
    ensures Stable(first, first, 0, known, cfg)
  {
    hide RatingBias;
  }

  lemma StableWeaken(first: Record, p: Record, n: nat, known: bool, known': bool, cfg: Config)
    requires Stable(first, p, n, known, cfg) && (known' ==> known)
    ensures Stable(first, p, n, known', cfg)
    ensures known' ==> p.confidence.Some?
  {
    hide RatingBias, Times;
  }

  lemma LinkSteadies(link: Link, journal: seq<Record>, cfg: Config, upper: string -> string)
    requires cfg.enabled && journal != [] && Links(link, journal, cfg, upper)
    ensures var g := Guarded(link.proposal, link.others + journal, cfg, upper);
            && Steady(journal[0], g, cfg)
            && (journal[0].confidence.Some? && link.proposal.confidence.Some? ==> g.confidence.Some?)
  {
    hide Steady, Guarded, Eligible, HasOverride, WithinCooldown;
    LinkFindsPrevious(link, journal, cfg, upper);
    GuardSteadies(link.proposal, journal[0], link.others + journal, cfg, upper);
  }
}
