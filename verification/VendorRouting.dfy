/** The ordered vendor chain of `route_to_vendor` and its live path. */
module VendorRouting {
  import opened Text
  import opened Errors
  import opened ProviderRuntime

  function SplitOn(s: string, sep: char): (parts: seq<string>)
    ensures parts != []
  {
    if s == [] then [[]]
    else
      var rest := SplitOn(s[1..], sep);
      if s[0] == sep then [[]] + rest else [[s[0]] + rest[0]] + rest[1..]
  }

  function StripAll(parts: seq<string>): seq<string> {
    if parts == [] then [] else [Strip(parts[0])] + StripAll(parts[1..])
  }

  /** The vendors of `available` that are not in `chain` yet, appended in their order. */
  function Extend(chain: seq<string>, available: seq<string>): seq<string>
    decreases |available|
  {
    if available == [] then chain
    else Extend(if available[0] in chain then chain else chain + [available[0]], available[1..])
  }

  /** Configured vendors first, then every other vendor that implements the method. */
  function Chain(vendorConfig: string, available: seq<string>): seq<string> {
    Extend(StripAll(SplitOn(vendorConfig, ',')), available)
  }

  /** The chain starts with the configured vendors as written and reaches every available vendor;
      the vendors added to the configured ones are available ones, none of them twice. */
  lemma {:induction false} ExtendCovers(chain: seq<string>, available: seq<string>)
    ensures chain <= Extend(chain, available)
    ensures forall v | v in available :: v in Extend(chain, available)
    ensures forall v | v in Extend(chain, available) :: v in chain || v in available
    ensures Distinct(chain) ==> Distinct(Extend(chain, available))
    decreases |available|
  {
    if available != [] {
      var next := if available[0] in chain then chain else chain + [available[0]];
      ExtendCovers(next, available[1..]);
      forall v | v in available ensures v in Extend(chain, available) {
        if v == available[0] {
          assert v in next;
          var i :| 0 <= i < |next| && next[i] == v;
          assert Extend(chain, available)[i] == v;
        }
      }
    }
  }

  /** The vendors added are the available ones not configured, each once and in their order. */
  lemma {:induction false} ExtendKeepsOrder(chain: seq<string>, available: seq<string>)
    ensures chain <= Extend(chain, available)
    ensures var added := Extend(chain, available)[|chain|..];
            && Subsequence(added, available) && Distinct(added)
            && forall v | v in added :: v !in chain
    decreases |available|
  {
    ExtendCovers(chain, available);
    if available == [] {
      StandingIsSelecting(Extend(chain, available)[|chain|..], available, []);
    } else {
      var v, rest := available[0], available[1..];
      var next := if v in chain then chain else chain + [v];
      ExtendKeepsOrder(next, rest);
      assert Extend(chain, available) == Extend(next, rest);
      hide Extend, Subsequence;
      var later := Extend(next, rest)[|next|..];
      SubsequenceBehind(later, available);
      if v !in chain {
        assert Extend(chain, available)[|chain|..] == [v] + later;
        assert v in next;
      }
    }
  }

  /** The chain of a method: the configured names as written between the commas, then the vendors
      that implement it but are not configured, in their order; nobody available is left out. */
  lemma ChainIsConfiguredFirst(c: Catalogue, methodName: string)
    ensures var chain, available := ChainFor(c, methodName), Available(c, methodName);
            var configured := StripAll(SplitOn(if methodName in c.config then c.config[methodName] else "default", ','));
            && configured <= chain
            && Subsequence(chain[|configured|..], available) && Distinct(chain[|configured|..])
            && (forall v | v in chain[|configured|..] :: v !in configured)
            && (forall v | v in available :: v in chain)
  {
    var configured := StripAll(SplitOn(ConfigFor(c, methodName), ','));
    hide SplitOn, StripAll, Extend;
    ExtendCovers(configured, Available(c, methodName));
    ExtendKeepsOrder(configured, Available(c, methodName));
  }

  datatype Visit =
    | Disabled(vendor: string)
    | Unsupported(vendor: string)
    | Rejected(vendor: string)
    | Failed(vendor: string, error: Error)
    | Succeeded(vendor: string, response: Response)

  datatype Catalogue = Catalogue(
    categorised: set<string>,            // methods that belong to a tool category
    vendors: map<string, seq<string>>,   // method -> vendors that implement it, in order
    config: map<string, string>,         // method -> configured vendor chain
    disabled: set<string>,
    runtime: RuntimeConfig)

  function Available(c: Catalogue, methodName: string): seq<string> {
    if methodName in c.vendors then c.vendors[methodName] else []
  }

  function ConfigFor(c: Catalogue, methodName: string): string {
    if methodName in c.config then c.config[methodName] else "default"
  }

  function ChainFor(c: Catalogue, methodName: string): seq<string> {
    Chain(ConfigFor(c, methodName), Available(c, methodName))
  }

  function NoVendor(methodName: string): Error {
    Project(DataProviderError, "No available vendor for '" + methodName + "'")
  }

  function UnknownMethod(methodName: string): Error {
    Project(DataProviderError, "Method '" + methodName + "' not found in any category")
  }

  function StrictRefusal(): Error {
    Project(PolicyViolationError, "[STRICT MODE] historical contract validation failed")
  }

  /** Whether the loop goes on to the next vendor after a visit; a strict replay stops at the first
      vendor whose contract is refused. */
  predicate GoesOn(v: Visit, strict: bool) {
    match v
    case Failed(_, e) => IsFallbackable(e)
    case Succeeded(_, _) => false
    case Rejected(_) => !strict
    case _ => true
  }

  /** The trace follows the chain; disabled and unsupported vendors are passed over, all others
      are called (or, in a replay, rejected by contract). */
  ghost predicate FollowsChain(trace: seq<Visit>, chain: seq<string>, c: Catalogue, methodName: string) {
    && |trace| <= |chain|
    && forall i | 0 <= i < |trace| ::
         && trace[i].vendor == chain[i]
         && (trace[i].Disabled? <==> chain[i] in c.disabled)
         && (trace[i].Unsupported? <==> chain[i] !in c.disabled && chain[i] !in Available(c, methodName))
  }

  /** First success, and exhaustive: every visit before the last one let the loop go on; a value
      comes from the last visit, an error is either the last visit's or says that the whole chain
      was tried in vain. */
  ghost predicate Conclusive(
    trace: seq<Visit>, chain: seq<string>, methodName: string, strict: bool, result: CallResult)
  {
    && (forall i | 0 <= i < |trace| - 1 :: GoesOn(trace[i], strict))
    && match result
       case Ok(r) => trace != [] && trace[|trace| - 1] == Succeeded(trace[|trace| - 1].vendor, r)
       case Err(e) =>
         || (trace != [] && !GoesOn(trace[|trace| - 1], strict) && EndsWith(trace[|trace| - 1], e))
         || (|trace| == |chain| && (forall i | 0 <= i < |trace| :: GoesOn(trace[i], strict)) &&
             e == NoVendor(methodName))
  }

  /** The error a visit ends the loop with. */
  predicate EndsWith(v: Visit, e: Error) {
    match v
    case Failed(_, error) => e == error
    case Rejected(_) => e.Project? && e.cls == PolicyViolationError
    case _ => false
  }

  /** The call a visit stands for: a vendor that was tried has been called once, with the caller's
      arguments, and the visit reports what the call came to. */
  function Called(v: Visit, methodName: string, call: CallArgs): seq<Invocation> {
    match v
    case Failed(vendor, e) => [Invocation(vendor, methodName, call, Err(e))]
    case Succeeded(vendor, r) => [Invocation(vendor, methodName, call, Ok(r))]
    case _ => []
  }

  function AllCalled(trace: seq<Visit>, methodName: string, call: CallArgs): seq<Invocation> {
    if trace == [] then []
    else AllCalled(trace[..|trace| - 1], methodName, call) + Called(trace[|trace| - 1], methodName, call)
  }

  /** What a loop has added to the invocations. */
  ghost predicate Accounted(
    before: seq<Invocation>, after: seq<Invocation>, trace: seq<Visit>, methodName: string, call: CallArgs)
  {
    after == before + AllCalled(trace, methodName, call)
  }

  lemma AccountedStep(
    before: seq<Invocation>, after: seq<Invocation>, trace: seq<Visit>, v: Visit, methodName: string, call: CallArgs)
    requires Accounted(before, after, trace, methodName, call)
    ensures Accounted(before, after + Called(v, methodName, call), trace + [v], methodName, call)
  {
    assert (trace + [v])[..|trace|] == trace;
  }

  /** The loop between two visits: all of them let it go on. */
  ghost predicate Underway(trace: seq<Visit>, chain: seq<string>, c: Catalogue, methodName: string, strict: bool) {
    && FollowsChain(trace, chain, c, methodName)
    && forall k | 0 <= k < |trace| :: GoesOn(trace[k], strict)
  }

  lemma LoopBegins(
    chain: seq<string>, c: Catalogue, methodName: string, strict: bool, called: seq<Invocation>, call: CallArgs)
    ensures Underway([], chain, c, methodName, strict) && Accounted(called, called, [], methodName, call)
  {
  }

  /** One more visit keeps the loop under way or ends it. */
  lemma LoopStep(
    trace: seq<Visit>, visit: Visit, chain: seq<string>, c: Catalogue, methodName: string, strict: bool)
    requires |trace| < |chain| && Underway(trace, chain, c, methodName, strict)
    requires visit.vendor == chain[|trace|]
    requires visit.Disabled? <==> visit.vendor in c.disabled
    requires visit.Unsupported? <==> visit.vendor !in c.disabled && visit.vendor !in Available(c, methodName)
    ensures FollowsChain(trace + [visit], chain, c, methodName)
    ensures visit.Succeeded? ==> Conclusive(trace + [visit], chain, methodName, strict, Ok(visit.response))
    ensures visit.Rejected? && strict ==>
              Conclusive(trace + [visit], chain, methodName, strict, Err(StrictRefusal()))
    ensures visit.Failed? && !IsFallbackable(visit.error) ==>
              Conclusive(trace + [visit], chain, methodName, strict, Err(visit.error))
    ensures !visit.Succeeded? && !(visit.Rejected? && strict) && !(visit.Failed? && !IsFallbackable(visit.error)) ==>
              Underway(trace + [visit], chain, c, methodName, strict)
  {
    hide IsFallbackable;
    var next := trace + [visit];
    assert next[|next| - 1] == visit;
    assert forall k | 0 <= k < |trace| :: next[k] == trace[k];
  }

  lemma LoopEnds(trace: seq<Visit>, chain: seq<string>, c: Catalogue, methodName: string, strict: bool)
    requires Underway(trace, chain, c, methodName, strict) && |trace| == |chain|
    ensures FollowsChain(trace, chain, c, methodName)
    ensures Conclusive(trace, chain, methodName, strict, Err(NoVendor(methodName)))
  {
  }

  class Router {
    const catalogue: Catalogue
    const runtime: Runtime

    constructor (catalogue: Catalogue, runtime: Runtime)
      ensures this.catalogue == catalogue && this.runtime == runtime
    {
      this.catalogue, this.runtime := catalogue, runtime;
    }

    /** Tries one vendor of the chain. */
    method TryVendor(vendor: string, methodName: string, call: CallArgs) returns (visit: Visit)
      modifies runtime
      ensures visit.vendor == vendor && !visit.Rejected?
      ensures visit.Disabled? <==> vendor in catalogue.disabled
      ensures visit.Unsupported? <==> vendor !in catalogue.disabled && vendor !in Available(catalogue, methodName)
      ensures visit.Disabled? || visit.Unsupported? ==> runtime.submissions == old(runtime.submissions)
      ensures runtime.invocations == old(runtime.invocations) + Called(visit, methodName, call)
      ensures old(runtime.submissions) <= runtime.submissions
      ensures forall i | |old(runtime.submissions)| <= i < |runtime.submissions| ::
                runtime.submissions[i] == Submission(vendor, methodName, call)
    {
      if vendor in catalogue.disabled {
        return Disabled(vendor);
      }
      if vendor !in Available(catalogue, methodName) {
        return Unsupported(vendor);
      }
      var result, made := runtime.Invoke(vendor, methodName, call, catalogue.runtime);
      visit := match result case Ok(r) => Succeeded(vendor, r) case Err(e) => Failed(vendor, e);
    }

    /** `route_to_vendor` outside a replay. */
    method RouteToVendor(methodName: string, call: CallArgs) returns (result: CallResult, trace: seq<Visit>)
      modifies runtime
      ensures methodName !in catalogue.categorised || methodName !in catalogue.vendors ==>
                trace == [] && result == Err(UnknownMethod(methodName)) && runtime.submissions == old(runtime.submissions)
      ensures Accounted(old(runtime.invocations), runtime.invocations, trace, methodName, call)
      ensures methodName in catalogue.categorised && methodName in catalogue.vendors ==>
                var chain := ChainFor(catalogue, methodName);
                FollowsChain(trace, chain, catalogue, methodName) && Conclusive(trace, chain, methodName, false, result)
    {
      hide *;
      trace := [];
      var chain := ChainFor(catalogue, methodName);
      LoopBegins(chain, catalogue, methodName, false, runtime.invocations, call);
      if methodName !in catalogue.categorised || methodName !in catalogue.vendors {
        return Err(UnknownMethod(methodName)), [];
      }
      for i := 0 to |chain|
        invariant |trace| == i && Underway(trace, chain, catalogue, methodName, false)
        invariant Accounted(old(runtime.invocations), runtime.invocations, trace, methodName, call)
      {
        ghost var called := runtime.invocations;
        var visit := TryVendor(chain[i], methodName, call);
        LoopStep(trace, visit, chain, catalogue, methodName, false);
        AccountedStep(old(runtime.invocations), called, trace, visit, methodName, call);
        trace := trace + [visit];
        if visit.Succeeded? {
          return Ok(visit.response), trace;
        }
        if visit.Failed? && !IsFallbackable(visit.error) {
          return Err(visit.error), trace;
        }
      }
      LoopEnds(trace, chain, catalogue, methodName, false);
      result := Err(NoVendor(methodName));
    }
  }
}
