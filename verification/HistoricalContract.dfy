/** Historical data windows, provider declarations and the contract between them. */
module HistoricalContract {
  import opened Text

  datatype Semantics = AsOf | Latest | Hybrid

  /** Dates are day numbers. */
  datatype DataWindow = DataWindow(anchor: int, lookbackDays: int, forwardDays: int) {
    function Start(): int { anchor - lookbackDays }

    function End(): int { anchor + forwardDays }

    predicate Covers(d: int) { Start() <= d <= End() }

    predicate Overlaps(other: DataWindow) { Start() <= other.End() && other.Start() <= End() }
  }

  /** The bounds every window is validated against when it is built. */
  predicate ValidWindow(w: DataWindow) {
    1 <= w.lookbackDays <= 3650 && w.forwardDays >= 0
  }

  /** Two windows overlap exactly when some day lies in both. */
  lemma OverlapsIffSharedDay(a: DataWindow, b: DataWindow)
    requires ValidWindow(a) && ValidWindow(b)
    ensures a.Overlaps(b) <==> exists d :: a.Covers(d) && b.Covers(d)
  {
    if a.Overlaps(b) {
      var d := if a.Start() >= b.Start() then a.Start() else b.Start();
      assert a.Covers(d) && b.Covers(d);
    }
  }

  datatype Endpoint = Endpoint(name: string, semantics: Semantics, maxLookbackDays: nat)

  datatype Declaration = Declaration(defaultSemantics: Semantics, endpoints: seq<Endpoint>)

  datatype Issue =
    | UnknownVendor
    | LatestOnly
    | HybridInStrictMode
    | LookbackTooLong
    | ForwardWindow

  function CapabilityFor(endpoints: seq<Endpoint>, name: string): Option<Endpoint> {
    if endpoints == [] then None
    else if endpoints[0].name == name then Some(endpoints[0])
    else CapabilityFor(endpoints[1..], name)
  }

  /** The first endpoint of that name counts; without one the default semantics and a year do. */
  lemma {:induction false} CapabilityIsFirst(endpoints: seq<Endpoint>, name: string)
    ensures CapabilityFor(endpoints, name).None? <==> forall i | 0 <= i < |endpoints| :: endpoints[i].name != name
    ensures CapabilityFor(endpoints, name).Some? ==>
              exists i | 0 <= i < |endpoints| ::
                && endpoints[i].name == name && CapabilityFor(endpoints, name) == Some(endpoints[i])
                && forall j | 0 <= j < i :: endpoints[j].name != name
  {
    if endpoints != [] && endpoints[0].name != name {
      var rest := endpoints[1..];
      CapabilityIsFirst(rest, name);
      assert forall i | 0 < i < |endpoints| :: endpoints[i] == rest[i - 1];
      if CapabilityFor(rest, name).Some? {
        var i :|
          0 <= i < |rest| && rest[i].name == name && CapabilityFor(rest, name) == Some(rest[i])
          && forall j | 0 <= j < i :: rest[j].name != name;
        assert endpoints[i + 1] == rest[i];
      }
    }
  }

  lemma UndeclaredEndpoint(d: Declaration, name: string)
    requires forall i | 0 <= i < |d.endpoints| :: d.endpoints[i].name != name
    ensures SemanticsFor(d, name) == d.defaultSemantics && MaxLookback(d, name) == 365
  {
    CapabilityIsFirst(d.endpoints, name);
  }

  function SemanticsFor(d: Declaration, name: string): Semantics {
    match CapabilityFor(d.endpoints, name)
    case None => d.defaultSemantics
    case Some(e) => e.semantics
  }

  function MaxLookback(d: Declaration, name: string): nat {
    match CapabilityFor(d.endpoints, name)
    case None => 365
    case Some(e) => e.maxLookbackDays
  }

  /** Whether data of these semantics may stand in for what the contract asks. */
  predicate Suffices(semantics: Semantics, required: Semantics, allowHybrid: bool) {
    required.AsOf? ==> semantics.AsOf? || (semantics.Hybrid? && allowHybrid)
  }

  /** The declaration serves the contract: its semantics suffice, every day of the window lies within
      the declared history, and no day of point-in-time data lies after the anchor. */
  ghost predicate Serves(w: DataWindow, required: Semantics, d: Declaration, name: string, allowHybrid: bool) {
    && Suffices(SemanticsFor(d, name), required, allowHybrid)
    && forall day | w.Covers(day) ::
         && w.anchor - MaxLookback(d, name) <= day
         && (SemanticsFor(d, name).AsOf? ==> day <= w.anchor)
  }

  /** `HistoricalDataContract.validate_against`: the issues are listed in the order of the checks, and
      there are none exactly when the declaration serves the contract. */
  method ValidateAgainst(w: DataWindow, required: Semantics, d: Declaration, name: string, allowHybrid: bool)
    returns (issues: seq<Issue>)
    ensures ValidWindow(w) ==> (issues == [] <==> Serves(w, required, d, name, allowHybrid))
    ensures issues == ContractIssues(w, required, d, name, allowHybrid)
  {
    issues := [];
    var semantics := SemanticsFor(d, name);
    if required.AsOf? {
      if semantics.Latest? {
        issues := issues + [LatestOnly];
      }
      if semantics.Hybrid? && !allowHybrid {
        issues := issues + [HybridInStrictMode];
      }
    }
    if w.lookbackDays > MaxLookback(d, name) {
      issues := issues + [LookbackTooLong];
    }
    if w.forwardDays > 0 && semantics.AsOf? {
      issues := issues + [ForwardWindow];
    }
    if ValidWindow(w) {
      NoIssuesIffServes(w, required, d, name, allowHybrid);
    }
  }

  lemma NoIssuesIffServes(w: DataWindow, required: Semantics, d: Declaration, name: string, allowHybrid: bool)
    requires ValidWindow(w)
    ensures ContractIssues(w, required, d, name, allowHybrid) == [] <==> Serves(w, required, d, name, allowHybrid)
  {
    assert w.Covers(w.Start()) && w.Covers(w.End());
  }

  function When(condition: bool, issue: Issue): seq<Issue> {
    if condition then [issue] else []
  }

  function ContractIssues(
    w: DataWindow, required: Semantics, d: Declaration, name: string, allowHybrid: bool): seq<Issue>
  {
    var semantics := SemanticsFor(d, name);
    When(required.AsOf? && semantics.Latest?, LatestOnly)
    + When(required.AsOf? && semantics.Hybrid? && !allowHybrid, HybridInStrictMode)
    + When(w.lookbackDays > MaxLookback(d, name), LookbackTooLong)
    + When(w.forwardDays > 0 && semantics.AsOf?, ForwardWindow)
  }

  /** `validate_historical_request`: unknown vendors are refused. */
  function RequestIssues(
    declarations: map<string, Declaration>, vendor: string, name: string, w: DataWindow,
    required: Semantics, allowHybrid: bool): seq<Issue>
  {
    if Lower(vendor) in declarations
    then ContractIssues(w, required, declarations[Lower(vendor)], name, allowHybrid)
    else [UnknownVendor]
  }

  /** `validate_historical_request`, as the router calls it: a request is free of issues exactly when
      the vendor has a declaration and that serves the contract. */
  method ValidateRequest(
    declarations: map<string, Declaration>, vendor: string, name: string, w: DataWindow,
    required: Semantics, allowHybrid: bool)
    returns (issues: seq<Issue>)
    ensures issues == RequestIssues(declarations, vendor, name, w, required, allowHybrid)
    ensures ValidWindow(w) ==>
              (issues == [] <==>
                 Lower(vendor) in declarations && Serves(w, required, declarations[Lower(vendor)], name, allowHybrid))
  {
    if Lower(vendor) !in declarations {
      return [UnknownVendor];
    }
    issues := ValidateAgainst(w, required, declarations[Lower(vendor)], name, allowHybrid);
  }

  /** A strict replay accepts a vendor exactly when it declares point-in-time semantics and enough
      history for the method, and the window does not reach past its anchor. */
  lemma StrictAcceptsIff(
    declarations: map<string, Declaration>, vendor: string, name: string, w: DataWindow)
    requires ValidWindow(w)
    ensures RequestIssues(declarations, vendor, name, w, AsOf, false) == [] <==>
            && Lower(vendor) in declarations
            && SemanticsFor(declarations[Lower(vendor)], name).AsOf?
            && w.lookbackDays <= MaxLookback(declarations[Lower(vendor)], name)
            && w.forwardDays == 0
  {
  }

  /** No vendor declares point-in-time data for anything, as in the repository's current table. */
  predicate NoAsOf(declarations: map<string, Declaration>) {
    forall v | v in declarations ::
      && !declarations[v].defaultSemantics.AsOf?
      && forall i | 0 <= i < |declarations[v].endpoints| :: !declarations[v].endpoints[i].semantics.AsOf?
  }

  lemma {:induction false} CapabilityIsDeclared(endpoints: seq<Endpoint>, name: string)
    requires CapabilityFor(endpoints, name).Some?
    ensures CapabilityFor(endpoints, name).value in endpoints && CapabilityFor(endpoints, name).value.name == name
  {
    if endpoints[0].name != name {
      CapabilityIsDeclared(endpoints[1..], name);
    }
  }

  /** Then a strict replay is refused by every vendor for every method. */
  lemma NoAsOfRefusesStrict(
    declarations: map<string, Declaration>, vendor: string, name: string, w: DataWindow)
    requires NoAsOf(declarations)
    ensures RequestIssues(declarations, vendor, name, w, AsOf, false) != []
  {
    if Lower(vendor) in declarations {
      var d := declarations[Lower(vendor)];
      if CapabilityFor(d.endpoints, name).Some? {
        CapabilityIsDeclared(d.endpoints, name);
      }
    }
  }

  // ----- the current table -----

  const CCXT := Declaration(Latest, [
    Endpoint("get_crypto_ohlcv", Hybrid, 365),
    Endpoint("get_crypto_ticker", Latest, 0),
    Endpoint("get_crypto_funding_rate", Latest, 0),
    Endpoint("get_crypto_funding_rate_history", Hybrid, 90),
    Endpoint("get_crypto_open_interest", Latest, 0),
    Endpoint("get_crypto_open_interest_history", Hybrid, 90),
    Endpoint("get_crypto_liquidations", Latest, 0),
    Endpoint("get_crypto_long_short_ratio", Latest, 0),
    Endpoint("get_indicators", Hybrid, 365)])

  const COINGECKO := Declaration(Latest, [
    Endpoint("get_crypto_ohlcv", Hybrid, 365),
    Endpoint("get_crypto_nvt", Latest, 0),
    Endpoint("get_crypto_supply", Latest, 0),
    Endpoint("get_crypto_exchange_metrics", Latest, 0)])

  const DECLARATIONS: map<string, Declaration> := map["ccxt" := CCXT, "coingecko" := COINGECKO]

  /** Today a strict point-in-time request is refused for every vendor, method and window, and a
      lenient one is accepted only for endpoints declared hybrid. */
  lemma CurrentTableRefusesStrict(vendor: string, name: string, w: DataWindow)
    ensures RequestIssues(DECLARATIONS, vendor, name, w, AsOf, false) != []
    ensures RequestIssues(DECLARATIONS, vendor, name, w, AsOf, true) == [] ==>
              && Lower(vendor) in DECLARATIONS
              && Endpoint(name, Hybrid, MaxLookback(DECLARATIONS[Lower(vendor)], name)) in DECLARATIONS[Lower(vendor)].endpoints
              && w.lookbackDays <= MaxLookback(DECLARATIONS[Lower(vendor)], name)
  {
    CurrentTableHasNoAsOf();
    NoAsOfRefusesStrict(DECLARATIONS, vendor, name, w);
    if Lower(vendor) in DECLARATIONS {
      var d := DECLARATIONS[Lower(vendor)];
      assert !d.defaultSemantics.AsOf? && d.defaultSemantics.Latest?;
      if CapabilityFor(d.endpoints, name).Some? {
        CapabilityIsDeclared(d.endpoints, name);
        var e := CapabilityFor(d.endpoints, name).value;
        assert !e.semantics.AsOf?;
        assert e == Endpoint(name, e.semantics, MaxLookback(d, name));
      }
    }
  }

  lemma CurrentTableHasNoAsOf()
    ensures NoAsOf(DECLARATIONS)
  {
    forall v | v in DECLARATIONS
      ensures !DECLARATIONS[v].defaultSemantics.AsOf?
      ensures forall i | 0 <= i < |DECLARATIONS[v].endpoints| :: !DECLARATIONS[v].endpoints[i].semantics.AsOf?
    {
      assert DECLARATIONS[v] == CCXT || DECLARATIONS[v] == COINGECKO;
    }
  }
}
