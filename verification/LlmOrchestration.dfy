/**
 `LLMOrchestrator`: lazy creation of fallback LLMs, provider switching and execution with
 fallback, on top of the circuit breaker. The run is sequential; what the stage function, the
 client factory and the clock answer is left open through `World`.
 */
module LlmOrchestration {
  import opened Text
  import opened Errors
  import opened CircuitBreaker

  datatype Llm = Llm(id: int)

  datatype Pair = Pair(deep: Llm, quick: Llm)

  datatype StageOutcome = Returned(value: int) | Raised(error: Error)

  /** What building the two clients of a fallback provider comes to. */
  datatype Build = NoModels | Built(pair: Pair) | BuildFailed

  /** The n-th call of the stage function, the n-th build and the n-th clock reading. */
  datatype World = World(stage: nat -> StageOutcome, build: nat -> Build, clock: nat -> real)

  ghost predicate Monotone(clock: nat -> real) {
    forall i: nat, j: nat | i <= j :: clock(i) <= clock(j)
  }

  lemma NextTick(clock: nat -> real, n: nat)
    requires Monotone(clock)
    ensures clock(n) <= clock(n + 1)
  {
  }

  datatype Outcome =
    | Success(value: int)
    | Failure(error: Error)
    | NoAttempt  // `raise last_error` with no error to raise

  /** What the loop did with one provider. */
  datatype Visit =
    | SkippedOpen(provider: string)
    | NotSwitched(provider: string)
    | Attempted(provider: string, llms: Pair, outcome: StageOutcome)

  function Without(providers: seq<string>, p: string): (r: seq<string>) {
    if providers == [] then []
    else (if providers[0] == p then [] else [providers[0]]) + Without(providers[1..], p)
  }

  /** The providers in the order they are tried. */
  function Order(active: string, fallbacks: seq<string>): (order: seq<string>)
    ensures order != [] && order[0] == active
  {
    [active] + Without(fallbacks, active)
  }

  lemma {:induction false} WithoutDistinct(providers: seq<string>, p: string)
    requires Distinct(providers)
    ensures Distinct(Without(providers, p))
    ensures forall q :: q in Without(providers, p) <==> q in providers && q != p
  {
    if providers != [] {
      assert Distinct(providers[1..]) by {
        forall i, j | 0 <= i < j < |providers[1..]| ensures providers[1..][i] != providers[1..][j] {
          assert providers[i + 1] != providers[j + 1];
        }
      }
      WithoutDistinct(providers[1..], p);
      assert providers[0] !in providers[1..];
    }
  }

  /** With distinct fallback providers the order has no repetition, so the loop, which visits each
      position of the order at most once, attempts each provider at most once. */
  lemma OrderDistinct(active: string, fallbacks: seq<string>)
    requires Distinct(fallbacks)
    ensures Distinct(Order(active, fallbacks))
    ensures forall q :: q in Order(active, fallbacks) <==> q == active || q in fallbacks
  {
    WithoutDistinct(fallbacks, active);
    var rest := Without(fallbacks, active);
    forall i, j | 0 <= i < j < |[active] + rest|
      ensures ([active] + rest)[i] != ([active] + rest)[j]
    {
      assert ([active] + rest)[j] == rest[j - 1];
      assert rest[j - 1] in rest;
    }
  }

  /** These are the positions of all entries other than the active provider. */
  predicate OthersAt(fallbacks: seq<string>, active: string, positions: seq<nat>) {
    forall i: nat | i < |fallbacks| :: i in positions <==> fallbacks[i] != active
  }

  /** After the active provider the order has every other fallback entry, in the configured order. */
  lemma OrderFollowsFallbacks(active: string, fallbacks: seq<string>)
    ensures var order := Order(active, fallbacks);
            && order[0] == active
            && exists positions ::
                 StandsAt(order[1..], fallbacks, positions) && OthersAt(fallbacks, active, positions)
    ensures Subsequence(Order(active, fallbacks), [active] + fallbacks)
  {
    var rest := WithoutPositions(fallbacks, active);
    var order := Order(active, fallbacks);
    assert order[1..] == Without(fallbacks, active);
    hide Without, StandsAt, OthersAt;
    assert StandsAt(order[1..], fallbacks, rest) && OthersAt(fallbacks, active, rest);
    assert order == [active] + order[1..] && ([active] + fallbacks)[1..] == fallbacks;
    SubsequenceBehind(order[1..], [active] + fallbacks);
  }

  lemma {:induction false} WithoutPositions(providers: seq<string>, p: string) returns (positions: seq<nat>)
    ensures StandsAt(Without(providers, p), providers, positions) && OthersAt(providers, p, positions)
  {
    if providers == [] {
      positions := [];
    } else {
      var rest := WithoutPositions(providers[1..], p);
      positions := (if providers[0] == p then [] else [0]) + seq(|rest|, i requires 0 <= i < |rest| => rest[i] + 1);
      StandsShifted(Without(providers[1..], p), providers, p, rest, positions);
      OthersShifted(providers, p, rest, positions);
    }
  }

  lemma StandsShifted(part: seq<string>, providers: seq<string>, p: string, rest: seq<nat>, positions: seq<nat>)
    requires providers != [] && StandsAt(part, providers[1..], rest)
    requires positions == (if providers[0] == p then [] else [0]) + seq(|rest|, i requires 0 <= i < |rest| => rest[i] + 1)
    ensures StandsAt((if providers[0] == p then [] else [providers[0]]) + part, providers, positions)
  {
    forall i | 0 <= i < |rest| ensures providers[rest[i] + 1] == part[i] {
      assert providers[1..][rest[i]] == part[i];
    }
  }

  lemma OthersShifted(providers: seq<string>, p: string, rest: seq<nat>, positions: seq<nat>)
    requires providers != [] && OthersAt(providers[1..], p, rest)
    requires positions == (if providers[0] == p then [] else [0]) + seq(|rest|, i requires 0 <= i < |rest| => rest[i] + 1)
    ensures OthersAt(providers, p, positions)
  {
    var shift := |positions| - |rest|;
    forall i: nat | i < |providers| ensures i in positions <==> providers[i] != p {
      if i > 0 {
        assert providers[1..][i - 1] == providers[i];
        if i in positions {
          var j :| 0 <= j < |positions| && positions[j] == i;
          assert rest[j - shift] == i - 1;
        }
        if i - 1 in rest {
          var j :| 0 <= j < |rest| && rest[j] == i - 1;
          assert positions[j + shift] == i;
        }
      }
    }
  }

  function Attempts(trace: seq<Visit>): seq<StageOutcome> {
    if trace == [] then []
    else
      var front := Attempts(trace[..|trace| - 1]);
      var last := trace[|trace| - 1];
      if last.Attempted? then front + [last.outcome] else front
  }

  predicate RetryableAttempt(v: Visit) {
    v.Attempted? ==> v.outcome.Raised? && IsRetryable(v.outcome.error)
  }

  /** The state that the lazy creation of fallback LLMs reads and writes. */
  datatype Cache = Cache(pairs: map<string, Pair>, history: seq<Event>, ticks: nat, builds: nat)

  /** A provider without a pair, other than the active one, is built if its circuit, judged by its
      history, is not open; a build that fails is charged to it as a failure. */
  function CacheStep(c: Cache, world: World, policy: Policy, active: string, provider: string): Cache {
    if provider in c.pairs || provider == active then c
    else
      var now := world.clock(c.ticks);
      var checked := c.(history := c.history + [Check(provider, now)], ticks := c.ticks + 1);
      if ShouldBeOpen(c.history, provider, now, policy) then checked
      else
        var built := checked.(builds := c.builds + 1);
        match world.build(c.builds)
        case NoModels => built
        case Built(pair) => built.(pairs := c.pairs[provider := pair])
        case BuildFailed =>
          built.(history := checked.history + [Record(provider, false, world.clock(checked.ticks))],
                 ticks := checked.ticks + 1)
  }

  function Cached(c: Cache, world: World, policy: Policy, active: string, providers: seq<string>): Cache {
    if providers == [] then c
    else
      CacheStep(Cached(c, world, policy, active, providers[..|providers| - 1]), world, policy, active,
                providers[|providers| - 1])
  }

  lemma CachedStep(c: Cache, world: World, policy: Policy, active: string, providers: seq<string>, n: nat)
    requires n < |providers|
    ensures Cached(c, world, policy, active, providers[..n + 1]) ==
            CacheStep(Cached(c, world, policy, active, providers[..n]), world, policy, active, providers[n])
  {
    assert providers[..n + 1][..n] == providers[..n];
  }

  /** The check a visit begins with. */
  function Checked(c: Cache, world: World, provider: string): Cache {
    c.(history := c.history + [Check(provider, world.clock(c.ticks))], ticks := c.ticks + 1)
  }

  /** The record an attempt ends with. */
  function Recorded(c: Cache, world: World, provider: string, success: bool): Cache {
    c.(history := c.history + [Record(provider, success, world.clock(c.ticks))], ticks := c.ticks + 1)
  }

  /** Where a visit stands once it is ready to attempt: a fallback has had the missing pairs built. */
  function Prepared(
    c: Cache, world: World, policy: Policy, active: string, fallbacks: seq<string>, provider: string, fallback: bool): Cache
  {
    var checked := Checked(c, world, provider);
    if fallback then Cached(checked, world, policy, active, fallbacks) else checked
  }

  // ----- when nobody can be attempted -----

  predicate OpenNow(c: Cache, world: World, policy: Policy, provider: string) {
    ShouldBeOpen(c.history, provider, world.clock(c.ticks), policy)
  }

  /** No attempt on the provider: its circuit is open, or it is a fallback that has no pair even
      after the missing ones have been built. */
  predicate Misses(
    c: Cache, world: World, policy: Policy, active: string, fallbacks: seq<string>, provider: string, fallback: bool)
  {
    || OpenNow(c, world, policy, provider)
    || (fallback && provider !in Prepared(c, world, policy, active, fallbacks, provider, fallback).pairs)
  }

  function AfterMiss(
    c: Cache, world: World, policy: Policy, active: string, fallbacks: seq<string>, provider: string, fallback: bool): Cache
  {
    if OpenNow(c, world, policy, provider) then Checked(c, world, provider)
    else Prepared(c, world, policy, active, fallbacks, provider, fallback)
  }

  /** The state after the first n providers of the order have been missed. */
  function AfterMisses(
    c: Cache, world: World, policy: Policy, active: string, fallbacks: seq<string>, order: seq<string>, n: nat): Cache
    requires n <= |order|
  {
    if n == 0 then c
    else
      AfterMiss(AfterMisses(c, world, policy, active, fallbacks, order, n - 1), world, policy, active, fallbacks,
                order[n - 1], n > 1)
  }

  /** Each of the first n providers is missed, given that the ones before it were. */
  predicate NobodyAmong(
    c: Cache, world: World, policy: Policy, active: string, fallbacks: seq<string>, order: seq<string>, n: nat)
    requires n <= |order|
  {
    n > 0 ==>
      && NobodyAmong(c, world, policy, active, fallbacks, order, n - 1)
      && Misses(AfterMisses(c, world, policy, active, fallbacks, order, n - 1), world, policy, active, fallbacks,
                order[n - 1], n > 1)
  }

  /** From this state a call of `execute_with_fallback` attempts nobody. */
  predicate NobodyReachable(c: Cache, world: World, policy: Policy, active: string, fallbacks: seq<string>) {
    var order := Order(active, fallbacks);
    NobodyAmong(c, world, policy, active, fallbacks, order, |order|)
  }

  lemma {:induction false} NobodyAmongFewer(
    c: Cache, world: World, policy: Policy, active: string, fallbacks: seq<string>, order: seq<string>, n: nat, m: nat)
    requires m <= n <= |order| && NobodyAmong(c, world, policy, active, fallbacks, order, n)
    ensures NobodyAmong(c, world, policy, active, fallbacks, order, m)
    decreases n
  {
    if m < n {
      NobodyAmongFewer(c, world, policy, active, fallbacks, order, n - 1, m);
    }
  }

  /** It takes an open circuit of the active provider, so never happens before it has failed. */
  lemma NobodyReachableNeedsOpenActive(c: Cache, world: World, policy: Policy, active: string, fallbacks: seq<string>)
    requires NobodyReachable(c, world, policy, active, fallbacks)
    ensures OpenNow(c, world, policy, active)
    ensures exists i | 0 <= i < |c.history| :: Concerns(c.history[i], active) && !c.history[i].success
  {
    var order := Order(active, fallbacks);
    NobodyAmongFewer(c, world, policy, active, fallbacks, order, |order|, 1);
    OpenNeedsFailure(c.history, active, world.clock(c.ticks), policy);
  }

  lemma {:induction false} OpenNeedsFailure(history: seq<Event>, provider: string, now: real, policy: Policy)
    requires LastFailureAt(history, provider).Some?
    ensures exists i | 0 <= i < |history| :: Concerns(history[i], provider) && !history[i].success
  {
    var front, last := history[..|history| - 1], history[|history| - 1];
    if Concerns(last, provider) && !last.success {
      assert history[|history| - 1] == last;
    } else {
      OpenNeedsFailure(front, provider, now, policy);
      var i :| 0 <= i < |front| && Concerns(front[i], provider) && !front[i].success;
      assert history[i] == front[i];
    }
  }

  /** Without fallbacks it is exactly that. */
  lemma NobodyReachableAlone(c: Cache, world: World, policy: Policy, active: string)
    ensures NobodyReachable(c, world, policy, active, []) <==> OpenNow(c, world, policy, active)
  {
    var order := Order(active, []);
    assert order == [active];
    assert AfterMisses(c, world, policy, active, [], order, 0) == c;
    assert NobodyAmong(c, world, policy, active, [], order, 0);
  }

  /** It does happen: one recorded failure at threshold 1, and a fallback without models. */
  lemma NobodyReachableHappens(stage: nat -> StageOutcome)
    ensures var world := World(stage, n => NoModels, n => 1.0);
            var c := Cache(map[], [Record("openai", false, 0.0)], 1, 0);
            NobodyReachable(c, world, Policy(1, 300.0), "openai", ["groq"])
  {
    var world := World(stage, n => NoModels, n => 1.0);
    var policy := Policy(1, 300.0);
    var first := Record("openai", false, 0.0);
    var c := Cache(map[], [first], 1, 0);
    var order := Order("openai", ["groq"]);
    assert "openai" != "groq" by { assert |"openai"| != |"groq"|; }
    assert order == ["openai", "groq"];
    TrippedOnce("openai", 0.0, policy);
    assert OpenNow(c, world, policy, "openai");
    assert AfterMisses(c, world, policy, "openai", ["groq"], order, 0) == c;
    var c1 := AfterMisses(c, world, policy, "openai", ["groq"], order, 1);
    assert c1 == Checked(c, world, "openai");
    var c2 := Checked(c1, world, "groq");
    assert ["groq"][..0] == [];
    assert Cached(c2, world, policy, "openai", ["groq"]) == CacheStep(c2, world, policy, "openai", "groq");
    assert NobodyAmong(c, world, policy, "openai", ["groq"], order, 0);
    assert NobodyAmong(c, world, policy, "openai", ["groq"], order, 1);
  }

  lemma TrippedOnce(provider: string, at: real, policy: Policy)
    requires policy.threshold == 1 && policy.window > 1.0
    ensures ShouldBeOpen([Record(provider, false, at)], provider, at + 1.0, policy)
  {
    var history := [Record(provider, false, at)];
    assert history[..0] == [];
    assert TrailingFailures(history, provider) == 1;
  }

  /** Pairs are only added, for configured providers other than the active one, and the history
      only grows. */
  lemma {:induction false} CachedGrows(c: Cache, world: World, policy: Policy, active: string, providers: seq<string>)
    ensures var after := Cached(c, world, policy, active, providers);
            && c.history <= after.history && c.builds <= after.builds
            && c.pairs.Items <= after.pairs.Items
            && (forall p | p in after.pairs && p !in c.pairs :: p in providers && p != active)
            && (active in after.pairs <==> active in c.pairs)
  {
    hide ShouldBeOpen;
    if providers != [] {
      var front, last := providers[..|providers| - 1], providers[|providers| - 1];
      CachedGrows(c, world, policy, active, front);
      var before := Cached(c, world, policy, active, front);
      CacheStepGrows(before, world, policy, active, last);
      assert providers == front + [last];
    }
  }

  lemma CacheStepGrows(c: Cache, world: World, policy: Policy, active: string, provider: string)
    ensures var after := CacheStep(c, world, policy, active, provider);
            && c.history <= after.history && c.builds <= after.builds
            && c.pairs.Items <= after.pairs.Items
            && (forall p | p in after.pairs && p !in c.pairs :: p == provider && p != active)
  {
    hide ShouldBeOpen;
    var after := CacheStep(c, world, policy, active, provider);
    forall item | item in c.pairs.Items ensures item in after.pairs.Items {
      assert item.0 in after.pairs && after.pairs[item.0] == item.1;
    }
  }

  /** At position k of the history the provider's circuit was checked and reported open or not. */
  predicate CheckAt(history: seq<Event>, k: nat, provider: string, open: bool, policy: Policy) {
    && k < |history| && history[k].Check? && history[k].provider == provider
    && (open <==> ShouldBeOpen(history[..k], provider, history[k].at, policy))
  }

  /** A build was made after a check that found the circuit closed, and its outcome is the b-th one. */
  predicate BuildAt(c: Cache, after: Cache, policy: Policy, provider: string, k: nat, b: nat) {
    |c.history| <= k && CheckAt(after.history, k, provider, false, policy) && c.builds <= b < after.builds
  }

  /** Why a provider is still without a pair: its circuit was open, it has no models, or its build
      failed, which was recorded as a failure at once. */
  predicate FailedAt(c: Cache, after: Cache, world: World, policy: Policy, provider: string, k: nat, b: nat) {
    || (|c.history| <= k && CheckAt(after.history, k, provider, true, policy))
    || (&& BuildAt(c, after, policy, provider, k, b)
        && (|| world.build(b).NoModels?
            || (&& world.build(b).BuildFailed? && k + 1 < |after.history| && after.history[k + 1].Record?
                && after.history[k + 1].provider == provider && !after.history[k + 1].success)))
  }

  /** A new pair is what some build made after a check that found the provider's circuit closed; and
      every configured provider left without a pair was checked, and found open or not buildable. */
  lemma {:induction false} PairsComeFromBuilds(
    c: Cache, world: World, policy: Policy, active: string, providers: seq<string>, p: string)
    requires p !in c.pairs
    ensures var after := Cached(c, world, policy, active, providers);
            && (p in after.pairs ==>
                  exists k, b :: BuildAt(c, after, policy, p, k, b) && world.build(b) == Built(after.pairs[p]))
            && (p in providers && p != active && p !in after.pairs ==>
                  exists k, b :: FailedAt(c, after, world, policy, p, k, b))
  {
    hide ShouldBeOpen, CacheStep, BuildAt, FailedAt;
    if providers != [] {
      var front, last := providers[..|providers| - 1], providers[|providers| - 1];
      PairsComeFromBuilds(c, world, policy, active, front, p);
      CachedGrows(c, world, policy, active, front);
      var before := Cached(c, world, policy, active, front);
      CacheStepGrows(before, world, policy, active, last);
      assert providers == front + [last];
      CacheStepBuilds(c, before, world, policy, active, last, p);
      if p in before.pairs {
        PairStays(before.pairs, Cached(c, world, policy, active, providers).pairs, p);
      }
    }
  }

  lemma CacheStepBuilds(
    c: Cache, before: Cache, world: World, policy: Policy, active: string, provider: string, p: string)
    requires p !in c.pairs && c.history <= before.history && c.builds <= before.builds
    requires p in before.pairs ==>
               exists k, b :: BuildAt(c, before, policy, p, k, b) && world.build(b) == Built(before.pairs[p])
    ensures var after := CacheStep(before, world, policy, active, provider);
            && (p in after.pairs ==>
                  exists k, b :: BuildAt(c, after, policy, p, k, b) && world.build(b) == Built(after.pairs[p]))
            && (p == provider && p != active && p !in after.pairs ==>
                  exists k, b :: FailedAt(c, after, world, policy, p, k, b))
            && (forall k, b | FailedAt(c, before, world, policy, p, k, b) :: FailedAt(c, after, world, policy, p, k, b))
  {
    var after := CacheStep(before, world, policy, active, provider);
    CacheStepGrows(before, world, policy, active, provider);
    forall k | 0 <= k < |before.history|
      ensures after.history[k] == before.history[k] && after.history[..k] == before.history[..k]
    {
    }
    var n := |before.history|;
    if p in before.pairs {
      var k, b :| BuildAt(c, before, policy, p, k, b) && world.build(b) == Built(before.pairs[p]);
      assert BuildAt(c, after, policy, p, k, b);
    } else if p == provider && p != active {
      assert after.history[..n] == before.history;
      assert CheckAt(after.history, n, p, ShouldBeOpen(before.history, p, world.clock(before.ticks), policy), policy);
      if p in after.pairs {
        assert BuildAt(c, after, policy, p, n, before.builds);
      } else {
        assert FailedAt(c, after, world, policy, p, n, before.builds);
      }
    }
  }

  lemma NothingCached(c: Cache, world: World, policy: Policy, active: string)
    ensures Cached(c, world, policy, active, []) == c
  {
  }

  lemma SameActivePair(before: map<string, Pair>, after: map<string, Pair>, active: string)
    requires before.Items <= after.Items && (active in after ==> active in before)
    ensures active in before <==> active in after
    ensures active in before ==> after[active] == before[active]
  {
    if active in before {
      assert (active, before[active]) in before.Items;
      assert (active, before[active]) in after.Items;
    }
  }

  class SwitchableLLM {
    var target: Llm

    constructor (target: Llm)
      ensures this.target == target
    {
      this.target := target;
    }

    method SetTarget(target: Llm)
      modifies this
      ensures this.target == target
    {
      this.target := target;
    }
  }

  /** The graph object that keeps its own references to the LLMs. */
  class Host {
    var deepThinking: SwitchableLLM
    var quickThinking: SwitchableLLM
    var setupDeep: SwitchableLLM
    var setupQuick: SwitchableLLM
    var signalLlm: Llm            // what the signal processor was built with

    constructor (deep: SwitchableLLM, quick: SwitchableLLM)
      ensures deepThinking == deep && quickThinking == quick && setupDeep == deep && setupQuick == quick
      ensures signalLlm == quick.target
    {
      deepThinking, quickThinking, setupDeep, setupQuick := deep, quick, deep, quick;
      signalLlm := quick.target;
    }

    ghost predicate RefersTo(deep: SwitchableLLM, quick: SwitchableLLM, signal: Llm)
      reads this
    {
      && deepThinking == setupDeep == deep && quickThinking == setupQuick == quick
      && signalLlm == signal
    }
  }

  class LLMOrchestrator {
    const world: World
    const enabled: bool
    const fallbackProviders: seq<string>
    const policy: Policy
    const deep: SwitchableLLM
    const quick: SwitchableLLM
    const host: Host
    ghost const primary: string
    ghost const primaryPair: Pair

    var circuits: map<string, Circuit>
    var fallbackLlms: map<string, Pair>
    var activeProvider: string
    var configuredProvider: string

    ghost var history: seq<Event>
    var ticks: nat
    var calls: nat
    var builds: nat

    constructor (
      world: World, enabled: bool, fallbackProviders: seq<string>, policy: Policy,
      provider: string, deep: SwitchableLLM, quick: SwitchableLLM, host: Host)
      requires Monotone(world.clock)
      requires deep != quick
      ensures Valid() && Coherent()
      ensures this.world == world && this.enabled == enabled && this.policy == policy
      ensures this.deep == deep && this.quick == quick && this.host == host
      ensures |this.fallbackProviders| == |fallbackProviders|
      ensures forall i | 0 <= i < |fallbackProviders| ::
                this.fallbackProviders[i] == Lower(fallbackProviders[i])
      ensures activeProvider == Lower(provider) && history == [] && fallbackLlms == map[]
    {
      this.world, this.enabled, this.policy := world, enabled, policy;
      this.deep, this.quick, this.host := deep, quick, host;
      this.fallbackProviders :=
        seq(|fallbackProviders|, i requires 0 <= i < |fallbackProviders| => Lower(fallbackProviders[i]));
      primary, primaryPair := Lower(provider), Pair(deep.target, quick.target);
      circuits, fallbackLlms := map[], map[];
      activeProvider, configuredProvider := Lower(provider), provider;
      history, ticks, calls, builds := [], 0, 0, 0;
    }

    /** The circuits are what the recorded history makes of them, and no event lies in the future. */
    ghost predicate Valid()
      reads this`circuits, this`history, this`ticks
    {
      && deep != quick
      && Monotone(world.clock)
      && Chronological(history)
      && NotAfter(history, world.clock(ticks))
      && circuits == Replay(history, policy)
      && (!enabled ==> history == [])
    }

    /** Both proxies point at the pair of the active provider. */
    ghost predicate Coherent()
      reads this`activeProvider, this`fallbackLlms, deep, quick
    {
      Pair(deep.target, quick.target) ==
      if activeProvider in fallbackLlms then fallbackLlms[activeProvider] else primaryPair
    }

    method IsCircuitOpen(provider: string) returns (open: bool)
      requires Valid() && enabled
      modifies this`circuits, this`history, this`ticks
      ensures Valid()
      ensures history == old(history) + [Check(provider, world.clock(old(ticks)))] && ticks == old(ticks) + 1
      ensures open <==> ShouldBeOpen(old(history), provider, world.clock(old(ticks)), policy)
    {
      var now := world.clock(ticks);
      BreakerRefinesHistory(history, provider, now, policy);
      if provider !in circuits {
        open := false;
      } else {
        var cb := circuits[provider];
        if cb.state.Closed? {
          open := false;
        } else if cb.state.Open? {
          if now - cb.openedAt >= policy.window {
            circuits := circuits[provider := cb.(state := HalfOpen)];
            open := false;
          } else {
            open := true;
          }
        } else {
          open := false;
        }
      }
      AppendEvent(history, Check(provider, now), policy, world.clock(ticks + 1));
      history, ticks := history + [Check(provider, now)], ticks + 1;
    }

    method RecordResult(provider: string, success: bool)
      requires Valid()
      modifies this`circuits, this`history, this`ticks
      ensures Valid()
      ensures history ==
              if enabled then old(history) + [Record(provider, success, world.clock(old(ticks)))]
              else old(history)
      ensures ticks == old(ticks) + if enabled then 1 else 0
      ensures enabled && success ==>
                var c := CircuitOf(circuits, provider); c.state.Closed? && c.failures == 0
    {
      if !enabled {
        return;
      }
      hide Replay, Chronological, NotAfter, Monotone;
      NextTick(world.clock, ticks);
      var now := world.clock(ticks);
      var cb := if provider in circuits then circuits[provider] else FRESH;
      if success {
        cb := cb.(state := Closed, failures := 0);
      } else if cb.state.HalfOpen? {
        cb := cb.(state := Open, openedAt := now);
      } else {
        cb := cb.(failures := cb.failures + 1);
        if cb.failures >= policy.threshold {
          cb := cb.(state := Open, openedAt := now);
        }
      }
      assert cb == AfterRecord(CircuitOf(circuits, provider), success, now, policy);
      circuits := circuits[provider := cb];
      AppendEvent(history, Record(provider, success, now), policy, world.clock(ticks + 1));
      history, ticks := history + [Record(provider, success, now)], ticks + 1;
    }

    ghost function CacheState(): Cache
      reads this
    {
      Cache(fallbackLlms, history, ticks, builds)
    }

    /** `ensure_fallback_llms`, on the circuits, does what the history-based specification says. */
    method EnsureFallbackLlms()
      requires Valid() && Coherent()
      modifies this`circuits, this`history, this`ticks, this`fallbackLlms, this`builds
      ensures Valid() && Coherent()
      ensures CacheState() ==
              if enabled then Cached(old(CacheState()), world, policy, activeProvider, fallbackProviders)
              else old(CacheState())
      ensures old(history) <= history && old(fallbackLlms.Items) <= fallbackLlms.Items
      ensures forall p | p in fallbackLlms && p !in old(fallbackLlms) ::
                p in fallbackProviders && p != activeProvider
    {
      hide LLMOrchestrator.Valid, ShouldBeOpen, CircuitOf, Cached;
      ghost var first := CacheState();
      CachedGrows(first, world, policy, activeProvider, fallbackProviders);
      NothingCached(first, world, policy, activeProvider);
      assert fallbackProviders[..0] == [];
      if !enabled || fallbackProviders == [] {
        return;
      }
      var active := activeProvider;
      for i := 0 to |fallbackProviders|
        invariant Valid()
        invariant CacheState() == Cached(first, world, policy, activeProvider, fallbackProviders[..i])
      {
        var provider := fallbackProviders[i];
        CachedStep(first, world, policy, activeProvider, fallbackProviders, i);
        if provider in fallbackLlms || provider == active {
          continue;
        }
        var open := IsCircuitOpen(provider);
        if open {
          continue;
        }
        var built := world.build(builds);
        builds := builds + 1;
        match built {
          case NoModels =>
          case Built(pair) => fallbackLlms := fallbackLlms[provider := pair];
          case BuildFailed => RecordResult(provider, false);
        }
      }
      assert fallbackProviders[..|fallbackProviders|] == fallbackProviders;
      SameActivePair(first.pairs, fallbackLlms, activeProvider);
    }

    /** Makes a cached provider the active one and repoints both proxies at its pair. */
    method SwitchProvider(provider: string) returns (switched: bool)
      requires Valid() && Coherent()
      modifies this`activeProvider, this`configuredProvider, deep, quick, host
      ensures Valid() && Coherent()
      ensures switched <==> provider in fallbackLlms
      ensures switched ==> host.RefersTo(deep, quick, fallbackLlms[provider].quick)
      ensures activeProvider == if switched then provider else old(activeProvider)
      ensures switched ==> configuredProvider == provider
      ensures !switched ==> deep.target == old(deep.target) && quick.target == old(quick.target)
    {
      if provider !in fallbackLlms {
        return false;
      }
      var pair := fallbackLlms[provider];
      activeProvider := provider;
      configuredProvider := provider;
      ApplyProviderSwitch(pair);
      switched := true;
    }

    /** The `on_provider_switched` callback: the proxies get new targets, and the host's references
        are set again. */
    method ApplyProviderSwitch(pair: Pair)
      requires deep != quick
      modifies deep, quick, host
      ensures Pair(deep.target, quick.target) == pair
      ensures host.RefersTo(deep, quick, pair.quick)
    {
      deep.SetTarget(pair.deep);
      quick.SetTarget(pair.quick);
      host.signalLlm := pair.quick;
      host.deepThinking, host.quickThinking := deep, quick;
      host.setupQuick, host.setupDeep := quick, deep;
    }

    /** Makes sure there is a pair for the provider and switches to it, if it can. */
    method SwitchToFallback(provider: string) returns (switched: bool)
      requires Valid() && Coherent() && enabled
      modifies this`circuits, this`history, this`ticks, this`fallbackLlms, this`builds
      modifies this`activeProvider, this`configuredProvider, deep, quick, host
      ensures Valid() && Coherent()
      ensures CacheState() == Cached(old(CacheState()), world, policy, old(activeProvider), fallbackProviders)
      ensures old(history) <= history && old(fallbackLlms.Items) <= fallbackLlms.Items
      ensures switched <==> provider in fallbackLlms
      ensures activeProvider == if switched then provider else old(activeProvider)
    {
      EnsureFallbackLlms();
      switched := SwitchProvider(provider);
    }

    /** Runs the stage function once on the current proxies and records how it went. */
    method Attempt(provider: string) returns (outcome: StageOutcome, llms: Pair)
      requires Valid() && Coherent() && enabled
      modifies this`circuits, this`history, this`ticks, this`calls
      ensures Valid() && Coherent()
      ensures calls == old(calls) + 1 && outcome == world.stage(old(calls))
      ensures CacheState() == Recorded(old(CacheState()), world, provider, outcome.Returned?)
      ensures history == old(history) + [Record(provider, outcome.Returned?, world.clock(old(ticks)))]
      ensures llms == Pair(deep.target, quick.target)
      ensures outcome.Returned? ==>
                var c := CircuitOf(circuits, provider); c.state.Closed? && c.failures == 0
    {
      outcome := world.stage(calls);
      calls := calls + 1;
      llms := Pair(deep.target, quick.target);
      RecordResult(provider, outcome.Returned?);
    }

    /** One pass of the provider loop. */
    method VisitProvider(provider: string, fallback: bool) returns (visit: Visit)
      requires Valid() && Coherent() && enabled
      modifies this`circuits, this`history, this`ticks, this`fallbackLlms, this`builds, this`calls
      modifies this`activeProvider, this`configuredProvider, deep, quick, host
      ensures Valid() && Coherent()
      ensures VisitFaithful(visit, old(CacheState()), CacheState(), provider, fallback, old(activeProvider),
                            fallbackProviders, world, policy)
      ensures visit.provider == provider
      ensures old(CacheState()).pairs.Items <= CacheState().pairs.Items
      ensures visit.Attempted? ==>
                && calls == old(calls) + 1 && visit.outcome == world.stage(old(calls))
                && (fallback ==> provider in CacheState().pairs && visit.llms == CacheState().pairs[provider])
                && activeProvider == (if fallback then provider else old(activeProvider))
      ensures !visit.Attempted? ==> calls == old(calls) && activeProvider == old(activeProvider)
      ensures visit.Attempted? && visit.outcome.Returned? ==>
                var c := CircuitOf(circuits, provider); c.state.Closed? && c.failures == 0
    {
      hide LLMOrchestrator.Valid, ShouldBeOpen, CircuitOf, Cached;
      var open := IsCircuitOpen(provider);
      if open {
        return SkippedOpen(provider);
      }
      var ready := true;
      if fallback {
        ready := SwitchToFallback(provider);
      }
      if ready {
        var outcome, llms := Attempt(provider);
        visit := Attempted(provider, llms, outcome);
      } else {
        visit := NotSwitched(provider);
      }
    }

    /** The provider loop. `starts` are the states its visits began in. */
    method TryProviders(order: seq<string>) returns (result: Outcome, trace: seq<Visit>, ghost starts: seq<Cache>)
      requires Valid() && Coherent() && enabled
      requires order != [] && order[0] == activeProvider
      modifies this`circuits, this`history, this`ticks, this`fallbackLlms, this`builds, this`calls
      modifies this`activeProvider, this`configuredProvider, deep, quick, host
      ensures Valid() && Coherent()
      ensures Faithful(trace, starts, order, old(CacheState()), CacheState(), old(activeProvider), fallbackProviders,
                       world, policy)
      ensures Answered(trace, world.stage, old(calls)) && calls == old(calls) + |Attempts(trace)|
      ensures Conclusive(trace, order, result)
      ensures activeProvider == ActiveAfter(trace, old(activeProvider))
      ensures result.Success? ==>
                && trace != [] && activeProvider == trace[|trace| - 1].provider
                && var c := CircuitOf(circuits, activeProvider); c.state.Closed? && c.failures == 0
    {
      hide *;
      trace, starts := [], [];
      var lastError: Option<Error> := None;
      var idx := 0;
      TraceBegins(order, CacheState(), world, policy, calls, activeProvider, fallbackProviders);
      while idx < |order|
        invariant Valid() && Coherent()
        invariant idx == |trace| <= |order|
        invariant Faithful(trace, starts, order, old(CacheState()), CacheState(), old(activeProvider),
                           fallbackProviders, world, policy)
        invariant UnderWay(trace, world.stage, old(calls), calls, lastError)
        invariant idx == 0 ==> activeProvider == order[0]
        invariant activeProvider == ActiveAfter(trace, old(activeProvider))
      {
        ghost var start, made := CacheState(), calls;
        var visit := VisitProvider(order[idx], idx > 0);
        FaithfulGrows(trace, starts, order, old(CacheState()), start, CacheState(), old(activeProvider),
                      fallbackProviders, world, policy, visit);
        TraceGrows(trace, order, visit, world.stage, old(calls), made, lastError);
        ActiveStep(trace, visit, old(activeProvider));
        trace, starts := trace + [visit], starts + [start];
        if visit.Attempted? {
          match visit.outcome {
            case Returned(v) =>
              result := Success(v);
              return;
            case Raised(e) =>
              lastError := Some(e);
              if !IsRetryable(e) {
                result := Failure(e);
                return;
              }
          }
        }
        idx := idx + 1;
      }
      result := match lastError case None => NoAttempt case Some(e) => Failure(e);
      TraceEnds(trace, order, world.stage, old(calls), calls, lastError);
    }

    /** `execute_with_fallback`. It ends in `raise None` exactly when nobody was reachable. */
    method ExecuteWithFallback() returns (result: Outcome, trace: seq<Visit>, ghost starts: seq<Cache>)
      requires Valid() && Coherent()
      modifies this`circuits, this`history, this`ticks, this`fallbackLlms, this`builds, this`calls
      modifies this`activeProvider, this`configuredProvider, deep, quick, host
      ensures Valid() && Coherent()
      ensures !enabled ==>
                && calls == old(calls) + 1 && trace == [] && activeProvider == old(activeProvider)
                && result == (match world.stage(old(calls))
                              case Returned(v) => Success(v)
                              case Raised(e) => Failure(e))
      ensures enabled ==>
                var order := Order(old(activeProvider), fallbackProviders);
                && Faithful(trace, starts, order, old(CacheState()), CacheState(), old(activeProvider),
                            fallbackProviders, world, policy)
                && Answered(trace, world.stage, old(calls)) && calls == old(calls) + |Attempts(trace)|
                && Conclusive(trace, order, result)
                && activeProvider == ActiveAfter(trace, old(activeProvider))
                && Subsequence(AttemptedProviders(trace), [old(activeProvider)] + fallbackProviders)
      ensures result.NoAttempt? <==>
                enabled && NobodyReachable(old(CacheState()), world, policy, old(activeProvider), fallbackProviders)
      ensures enabled && result.Success? ==>
                && trace != [] && activeProvider == trace[|trace| - 1].provider
                && var c := CircuitOf(circuits, activeProvider); c.state.Closed? && c.failures == 0
    {
      if !enabled {
        var outcome := world.stage(calls);
        calls := calls + 1;
        match outcome {
          case Returned(v) => return Success(v), [], [];
          case Raised(e) => return Failure(e), [], [];
        }
      }
      hide *;
      ghost var first, active := CacheState(), activeProvider;
      result, trace, starts := TryProviders(Order(activeProvider, fallbackProviders));
      NoAttemptIff(trace, starts, first, CacheState(), active, fallbackProviders, world, policy, result);
      AttemptsFollowConfiguration(trace, starts, first, CacheState(), active, fallbackProviders, world, policy);
    }
  }

  /** The visits, each as its start demands, lead from `first` to `final`, and every fallback attempt
      ran on the cached pair of its own provider. */
  ghost predicate Faithful(
    trace: seq<Visit>, starts: seq<Cache>, order: seq<string>, first: Cache, final: Cache, active: string,
    fallbacks: seq<string>, world: World, policy: Policy)
  {
    && VisitsFaithful(trace, starts, order, first, final, active, fallbacks, world, policy)
    && PairsFaithful(trace, order, final.pairs)
  }

  ghost predicate VisitsFaithful(
    trace: seq<Visit>, starts: seq<Cache>, order: seq<string>, first: Cache, final: Cache, active: string,
    fallbacks: seq<string>, world: World, policy: Policy)
    decreases |trace|
  {
    && |trace| == |starts| <= |order|
    && if trace == [] then final == first
       else
         var n := |trace| - 1;
         && VisitsFaithful(trace[..n], starts[..n], order, first, starts[n], active, fallbacks, world, policy)
         && VisitFaithful(trace[n], starts[n], final, order[n], n > 0, ActiveAfter(trace[..n], active), fallbacks,
                          world, policy)
  }

  ghost predicate PairsFaithful(trace: seq<Visit>, order: seq<string>, cached: map<string, Pair>) {
    && |trace| <= |order|
    && forall i | 0 < i < |trace| && trace[i].Attempted? :: order[i] in cached && trace[i].llms == cached[order[i]]
  }

  /** A visit begins with its circuit check and skips exactly an open circuit, doing nothing more. A
      fallback has the missing pairs built first and is not switched to exactly when it has none
      then; the first provider always goes on. An attempt ends with the record of its outcome. */
  ghost predicate VisitFaithful(
    visit: Visit, start: Cache, end: Cache, provider: string, fallback: bool, active: string, fallbacks: seq<string>,
    world: World, policy: Policy)
  {
    var ready := Prepared(start, world, policy, active, fallbacks, provider, fallback);
    && visit.provider == provider
    && (visit.SkippedOpen? <==> OpenNow(start, world, policy, provider))
    && (visit.Attempted? <==> !Misses(start, world, policy, active, fallbacks, provider, fallback))
    && end == match visit
              case SkippedOpen(_) => Checked(start, world, provider)
              case NotSwitched(_) => ready
              case Attempted(_, _, outcome) => Recorded(ready, world, provider, outcome.Returned?)
  }

  /** The active provider is the one attempted last. */
  function ActiveAfter(trace: seq<Visit>, active: string): string {
    if trace == [] then active
    else if trace[|trace| - 1].Attempted? then trace[|trace| - 1].provider
    else ActiveAfter(trace[..|trace| - 1], active)
  }

  lemma ActiveStep(trace: seq<Visit>, visit: Visit, active: string)
    ensures ActiveAfter(trace + [visit], active) == if visit.Attempted? then visit.provider else ActiveAfter(trace, active)
  {
    assert (trace + [visit])[..|trace|] == trace;
  }

  /** The providers attempted, in order. */
  function AttemptedProviders(trace: seq<Visit>): seq<string> {
    if trace == [] then []
    else
      var front, last := AttemptedProviders(trace[..|trace| - 1]), trace[|trace| - 1];
      if last.Attempted? then front + [last.provider] else front
  }

  lemma {:induction false} VisitsFollowOrder(
    trace: seq<Visit>, starts: seq<Cache>, order: seq<string>, first: Cache, final: Cache, active: string,
    fallbacks: seq<string>, world: World, policy: Policy)
    requires VisitsFaithful(trace, starts, order, first, final, active, fallbacks, world, policy)
    ensures forall i | 0 <= i < |trace| :: trace[i].provider == order[i]
  {
    hide OpenNow, Misses, Prepared;
    if trace != [] {
      var n := |trace| - 1;
      VisitsFollowOrder(trace[..n], starts[..n], order, first, starts[n], active, fallbacks, world, policy);
      assert forall i | 0 <= i < n :: trace[i] == trace[..n][i];
    }
  }

  /** The first visit starts where the call did, and is skipped or attempted. */
  lemma {:induction false} FirstVisit(
    trace: seq<Visit>, starts: seq<Cache>, order: seq<string>, first: Cache, final: Cache, active: string,
    fallbacks: seq<string>, world: World, policy: Policy)
    requires VisitsFaithful(trace, starts, order, first, final, active, fallbacks, world, policy) && trace != []
    ensures |starts| > 0 && starts[0] == first && !trace[0].NotSwitched?
  {
    hide OpenNow, Prepared;
    var n := |trace| - 1;
    if n > 0 {
      FirstVisit(trace[..n], starts[..n], order, first, starts[n], active, fallbacks, world, policy);
    }
  }

  /** The attempted providers are a selection of the visited ones, and there is one per attempt. */
  lemma {:induction false} AttemptedAreVisited(trace: seq<Visit>)
    ensures |AttemptedProviders(trace)| == |Attempts(trace)| <= |trace|
    ensures forall q | q in AttemptedProviders(trace) :: exists i | 0 <= i < |trace| :: trace[i].provider == q
    ensures (forall i, j | 0 <= i < j < |trace| :: trace[i].provider != trace[j].provider) ==>
              Distinct(AttemptedProviders(trace))
  {
    if trace != [] {
      var n := |trace| - 1;
      var front := trace[..n];
      AttemptedAreVisited(front);
      assert forall i | 0 <= i < n :: front[i] == trace[i];
      forall q | q in AttemptedProviders(trace) ensures exists i | 0 <= i < |trace| :: trace[i].provider == q {
        if q in AttemptedProviders(front) {
          var i :| 0 <= i < |front| && front[i].provider == q;
          assert trace[i].provider == q;
        } else {
          assert trace[n].provider == q;
        }
      }
      if trace[n].Attempted? && trace[n].provider in AttemptedProviders(front) {
        var i :| 0 <= i < |front| && front[i].provider == trace[n].provider;
        assert trace[i].provider == trace[n].provider;
      }
    }
  }

  /** The history a visit added: it begins with a check of the visited provider, and after an attempt
      ends with the record of how that went. */
  ghost predicate Noted(visit: Visit, before: seq<Event>, after: seq<Event>, provider: string) {
    && |before| < |after| && before <= after
    && after[|before|].Check? && after[|before|].provider == provider
    && (visit.Attempted? ==>
          var last := after[|after| - 1];
          last.Record? && last.provider == provider && (last.success <==> visit.outcome.Returned?))
  }

  /** The history right after the i-th visit. */
  function HistoryAfter(starts: seq<Cache>, final: Cache, i: nat): seq<Event> {
    if i + 1 < |starts| then starts[i + 1].history else final.history
  }

  /** Every visit is noted, and no event of the history is lost. */
  lemma {:induction false} VisitsAreNoted(
    trace: seq<Visit>, starts: seq<Cache>, order: seq<string>, first: Cache, final: Cache, active: string,
    fallbacks: seq<string>, world: World, policy: Policy)
    requires VisitsFaithful(trace, starts, order, first, final, active, fallbacks, world, policy)
    ensures |trace| == |starts| <= |order| && first.history <= final.history
    ensures forall i | 0 <= i < |trace| ::
              Noted(trace[i], starts[i].history, HistoryAfter(starts, final, i), order[i])
  {
    hide OpenNow, Misses, Prepared, Noted, Recorded, Checked, VisitFaithful;
    if trace != [] {
      var n := |trace| - 1;
      VisitsAreNoted(trace[..n], starts[..n], order, first, starts[n], active, fallbacks, world, policy);
      VisitIsNoted(trace[n], starts[n], final, order[n], n > 0, ActiveAfter(trace[..n], active), fallbacks, world, policy);
      forall i | 0 <= i < |trace|
        ensures Noted(trace[i], starts[i].history, HistoryAfter(starts, final, i), order[i])
      {
        if i < n {
          assert trace[..n][i] == trace[i] && starts[..n][i] == starts[i];
          assert i + 1 < n ==> starts[..n][i + 1] == starts[i + 1];
          assert HistoryAfter(starts[..n], starts[n], i) == HistoryAfter(starts, final, i);
        }
      }
    }
  }

  lemma VisitIsNoted(
    visit: Visit, start: Cache, end: Cache, provider: string, fallback: bool, active: string, fallbacks: seq<string>,
    world: World, policy: Policy)
    requires VisitFaithful(visit, start, end, provider, fallback, active, fallbacks, world, policy)
    ensures Noted(visit, start.history, end.history, provider) && start.history <= end.history
  {
    hide OpenNow, Misses, Cached;
    CachedGrows(Checked(start, world, provider), world, policy, active, fallbacks);
  }

  lemma {:induction false} AttemptedStandAt(trace: seq<Visit>, order: seq<string>) returns (positions: seq<nat>)
    requires |trace| <= |order| && forall i | 0 <= i < |trace| :: trace[i].provider == order[i]
    ensures StandsAt(AttemptedProviders(trace), order, positions) && AllBelow(positions, |trace|)
  {
    if trace == [] {
      positions := [];
    } else {
      var n := |trace| - 1;
      assert forall i | 0 <= i < n :: trace[..n][i] == trace[i];
      positions := AttemptedStandAt(trace[..n], order);
      hide StandsAt, AllBelow;
      StandsFurther(AttemptedProviders(trace[..n]), order, positions, n);
      if trace[n].Attempted? {
        positions := positions + [n];
      }
    }
  }

  /** The active provider is tried first and the fallbacks in the configured order. */
  lemma AttemptsFollowConfiguration(
    trace: seq<Visit>, starts: seq<Cache>, first: Cache, final: Cache, active: string, fallbacks: seq<string>,
    world: World, policy: Policy)
    requires Faithful(trace, starts, Order(active, fallbacks), first, final, active, fallbacks, world, policy)
    ensures Subsequence(AttemptedProviders(trace), [active] + fallbacks)
  {
    var order := Order(active, fallbacks);
    VisitsFollowOrder(trace, starts, order, first, final, active, fallbacks, world, policy);
    FaithfulLength(trace, starts, order, first, final, active, fallbacks, world, policy);
    hide *;
    var positions := AttemptedStandAt(trace, order);
    StandingIsSelecting(AttemptedProviders(trace), order, positions);
    OrderFollowsFallbacks(active, fallbacks);
    SubsequenceOfSubsequence(AttemptedProviders(trace), order, [active] + fallbacks);
  }

  /** With distinct fallback providers no provider is visited twice; so the stage function, which
      is called once per attempt, is called at most once for any provider, and only for providers
      of the order. */
  lemma VisitedOnce(
    trace: seq<Visit>, starts: seq<Cache>, first: Cache, final: Cache, active: string, fallbacks: seq<string>,
    world: World, policy: Policy)
    requires Distinct(fallbacks)
    requires Faithful(trace, starts, Order(active, fallbacks), first, final, active, fallbacks, world, policy)
    ensures forall i, j | 0 <= i < j < |trace| :: trace[i].provider != trace[j].provider
    ensures |AttemptedProviders(trace)| == |Attempts(trace)| && Distinct(AttemptedProviders(trace))
    ensures forall q | q in AttemptedProviders(trace) :: q in Order(active, fallbacks)
    ensures Subsequence(AttemptedProviders(trace), [active] + fallbacks)
  {
    AttemptsFollowConfiguration(trace, starts, first, final, active, fallbacks, world, policy);
    var order := Order(active, fallbacks);
    OrderDistinct(active, fallbacks);
    VisitsFollowOrder(trace, starts, order, first, final, active, fallbacks, world, policy);
    AttemptedAreVisited(trace);
    hide VisitsFaithful, PairsFaithful, Order, Subsequence;
    forall q | q in AttemptedProviders(trace) ensures q in order {
      var i :| 0 <= i < |trace| && trace[i].provider == q;
      assert order[i] == q;
    }
  }

  /** As long as nobody was attempted, the run is the one of misses, step by step. */
  lemma {:induction false} MissesSoFar(
    trace: seq<Visit>, starts: seq<Cache>, order: seq<string>, first: Cache, final: Cache, active: string,
    fallbacks: seq<string>, world: World, policy: Policy)
    requires VisitsFaithful(trace, starts, order, first, final, active, fallbacks, world, policy)
    ensures Attempts(trace) == [] <==> NobodyAmong(first, world, policy, active, fallbacks, order, |trace|)
    ensures Attempts(trace) == [] ==>
              && final == AfterMisses(first, world, policy, active, fallbacks, order, |trace|)
              && ActiveAfter(trace, active) == active
  {
    hide OpenNow, Prepared, Checked, Recorded;
    if trace != [] {
      var n := |trace| - 1;
      MissesSoFar(trace[..n], starts[..n], order, first, starts[n], active, fallbacks, world, policy);
    }
  }

  lemma NoAttemptIff(
    trace: seq<Visit>, starts: seq<Cache>, first: Cache, final: Cache, active: string, fallbacks: seq<string>,
    world: World, policy: Policy, result: Outcome)
    requires Faithful(trace, starts, Order(active, fallbacks), first, final, active, fallbacks, world, policy)
    requires Conclusive(trace, Order(active, fallbacks), result)
    ensures result.NoAttempt? <==> NobodyReachable(first, world, policy, active, fallbacks)
  {
    hide Order, VisitsFaithful, PairsFaithful, NobodyAmong;
    var order := Order(active, fallbacks);
    MissesSoFar(trace, starts, order, first, final, active, fallbacks, world, policy);
    AnsweredMeansAttempt(trace, order, result);
    if NobodyReachable(first, world, policy, active, fallbacks) {
      FaithfulLength(trace, starts, order, first, final, active, fallbacks, world, policy);
      NobodyAmongFewer(first, world, policy, active, fallbacks, order, |order|, |trace|);
    }
  }

  lemma AnsweredMeansAttempt(trace: seq<Visit>, order: seq<string>, result: Outcome)
    requires Conclusive(trace, order, result)
    ensures result.NoAttempt? <==> Attempts(trace) == []
    ensures result.NoAttempt? ==> |trace| == |order|
  {
  }

  lemma FaithfulLength(
    trace: seq<Visit>, starts: seq<Cache>, order: seq<string>, first: Cache, final: Cache, active: string,
    fallbacks: seq<string>, world: World, policy: Policy)
    requires VisitsFaithful(trace, starts, order, first, final, active, fallbacks, world, policy)
    ensures |trace| == |starts| <= |order|
  {
  }

  /** The attempts saw the stage function's answers in the order it gave them. */
  ghost predicate Answered(trace: seq<Visit>, stage: nat -> StageOutcome, first: nat) {
    forall k | 0 <= k < |Attempts(trace)| :: Attempts(trace)[k] == stage(first + k)
  }

  /** How the result follows from the trace: all attempts but the last failed retryably; a success
      or a non-retryable error is the last attempt; otherwise every provider of the order was
      visited and the last attempt's error is raised, if there was an attempt at all. */
  ghost predicate Conclusive(trace: seq<Visit>, order: seq<string>, result: Outcome) {
    && (forall i | 0 <= i < |trace| - 1 :: RetryableAttempt(trace[i]))
    && match result
       case Success(v) =>
         trace != [] && trace[|trace| - 1].Attempted? && trace[|trace| - 1].outcome == Returned(v)
       case Failure(e) =>
         && Attempts(trace) != [] && Attempts(trace)[|Attempts(trace)| - 1] == Raised(e)
         && if IsRetryable(e)
            then |trace| == |order| && RetryableAttempt(trace[|trace| - 1])
            else trace[|trace| - 1].Attempted? && trace[|trace| - 1].outcome == Raised(e)
       case NoAttempt => |trace| == |order| && Attempts(trace) == []
  }

  /** The loop invariant: every attempt so far saw its answer and failed retryably, the last one
      with `lastError`. */
  ghost predicate UnderWay(
    trace: seq<Visit>, stage: nat -> StageOutcome, first: nat, calls: nat, lastError: Option<Error>)
  {
    && Answered(trace, stage, first)
    && calls == first + |Attempts(trace)|
    && (forall i | 0 <= i < |trace| :: RetryableAttempt(trace[i]))
    && match lastError
       case None => Attempts(trace) == []
       case Some(e) =>
         IsRetryable(e) && Attempts(trace) != [] && Attempts(trace)[|Attempts(trace)| - 1] == Raised(e)
  }

  lemma TraceBegins(
    order: seq<string>, c: Cache, world: World, policy: Policy, first: nat, active: string, fallbacks: seq<string>)
    ensures Faithful([], [], order, c, c, active, fallbacks, world, policy)
    ensures UnderWay([], world.stage, first, first, None)
    ensures ActiveAfter([], active) == active
  {
  }

  lemma AttemptsStep(trace: seq<Visit>, visit: Visit)
    ensures Attempts(trace + [visit]) ==
            if visit.Attempted? then Attempts(trace) + [visit.outcome] else Attempts(trace)
  {
    assert (trace + [visit])[..|trace|] == trace;
  }

  lemma TraceGrows(
    trace: seq<Visit>, order: seq<string>, visit: Visit, stage: nat -> StageOutcome, first: nat,
    calls: nat, lastError: Option<Error>)
    requires UnderWay(trace, stage, first, calls, lastError)
    requires visit.Attempted? ==> visit.outcome == stage(calls)
    ensures !visit.Attempted? ==> UnderWay(trace + [visit], stage, first, calls, lastError)
    ensures visit.Attempted? ==>
              && Answered(trace + [visit], stage, first)
              && calls + 1 == first + |Attempts(trace + [visit])|
              && match visit.outcome
                 case Returned(v) => Conclusive(trace + [visit], order, Success(v))
                 case Raised(e) =>
                   if IsRetryable(e) then UnderWay(trace + [visit], stage, first, calls + 1, Some(e))
                   else Conclusive(trace + [visit], order, Failure(e))
  {
    AttemptsStep(trace, visit);
    hide Attempts, IsRetryable;
    assert forall i | 0 <= i < |trace| :: (trace + [visit])[i] == trace[i];
  }

  lemma TraceEnds(
    trace: seq<Visit>, order: seq<string>, stage: nat -> StageOutcome, first: nat, calls: nat,
    lastError: Option<Error>)
    requires UnderWay(trace, stage, first, calls, lastError) && |trace| == |order|
    ensures Answered(trace, stage, first) && calls == first + |Attempts(trace)|
    ensures Conclusive(trace, order, match lastError case None => NoAttempt case Some(e) => Failure(e))
  {
    if lastError.Some? && trace == [] {
      assert Attempts(trace) == [];
    }
  }

  lemma PairStays(cached: map<string, Pair>, now: map<string, Pair>, provider: string)
    requires cached.Items <= now.Items && provider in cached
    ensures provider in now && now[provider] == cached[provider]
  {
    assert (provider, cached[provider]) in cached.Items;
    assert (provider, cached[provider]) in now.Items;
  }

  lemma FaithfulGrows(
    trace: seq<Visit>, starts: seq<Cache>, order: seq<string>, first: Cache, start: Cache, end: Cache, active: string,
    fallbacks: seq<string>, world: World, policy: Policy, visit: Visit)
    requires Faithful(trace, starts, order, first, start, active, fallbacks, world, policy) && |trace| < |order|
    requires VisitFaithful(visit, start, end, order[|trace|], |trace| > 0, ActiveAfter(trace, active), fallbacks,
                           world, policy)
    requires start.pairs.Items <= end.pairs.Items
    requires visit.Attempted? && |trace| > 0 ==>
               order[|trace|] in end.pairs && visit.llms == end.pairs[order[|trace|]]
    ensures Faithful(trace + [visit], starts + [start], order, first, end, active, fallbacks, world, policy)
  {
    hide VisitFaithful, PairsFaithful;
    var n := |trace|;
    FaithfulLength(trace, starts, order, first, start, active, fallbacks, world, policy);
    assert (trace + [visit])[..n] == trace && (starts + [start])[..n] == starts;
    PairsGrow(trace, order, start.pairs, end.pairs, visit);
  }

  lemma PairsGrow(
    trace: seq<Visit>, order: seq<string>, cached: map<string, Pair>, now: map<string, Pair>, visit: Visit)
    requires PairsFaithful(trace, order, cached) && |trace| < |order| && cached.Items <= now.Items
    requires visit.Attempted? && |trace| > 0 ==> order[|trace|] in now && visit.llms == now[order[|trace|]]
    ensures PairsFaithful(trace + [visit], order, now)
  {
    forall i | 0 < i < |trace| && trace[i].Attempted? ensures order[i] in now && trace[i].llms == now[order[i]] {
      PairStays(cached, now, order[i]);
    }
  }
}
