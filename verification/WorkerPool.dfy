/**
 The swappable worker pool of `dataflows/interface.py`: executors guarded by bounded semaphores,
 as the interleaved atomic steps of any number of provider calls.

 A pool is one generation: an executor and the semaphore created with it. A call keeps the pair it
 fetched, even if the globals are replaced before it acquires, submits or finishes.
 */
module WorkerPool {
  import opened Text

  datatype Pool = Pool(workers: nat, free: nat, open: bool)

  datatype Future = Pending | Running | Done | Cancelled

  datatype Call =
    | Fetched(pool: nat)                                    // waiting for a permit
    | GaveUp                                                // pool saturated until the timeout
    | Holding(pool: nat)                                    // permit acquired, nothing submitted
    | Submitted(pool: nat, future: Future, attached: bool)  // is the releasing callback attached?
    | Released(pool: nat)

  datatype Permit = Permit(call: nat, pool: nat)

  /** `overflow` is the ValueError a bounded semaphore raises when released too often. */
  datatype System = System(
    pools: seq<Pool>,
    current: Option<nat>,
    calls: map<nat, Call>,
    overflow: bool,
    granted: seq<Permit>,
    returned: seq<Permit>)

  const START := System([], None, map[], false, [], [])

  datatype Action =
    | Fetch(call: nat, maxWorkers: int)
    | Acquire(call: nat)
    | AcquireTimeout(call: nat)
    | Submit(call: nat)
    | SubmitFails(call: nat)
    | Attach(call: nat)
    | StartRunning(call: nat)
    | Finish(call: nat)
    | Cancel(call: nat)

  function Workers(maxWorkers: int): (w: nat)
  {
    if maxWorkers < 1 then 1 else maxWorkers
  }

  /** `_get_provider_executor`: reuse the current pair or replace it and shut the old executor down. */
  function Current(s: System, maxWorkers: int): System {
    var workers := Workers(maxWorkers);
    if s.current.Some? && s.current.value < |s.pools| && s.pools[s.current.value].workers == workers then s
    else
      var closed :=
        if s.current.Some? && s.current.value < |s.pools|
        then s.pools[s.current.value := s.pools[s.current.value].(open := false)]
        else s.pools;
      s.(pools := closed + [Pool(workers, workers, true)], current := Some(|closed|))
  }

  predicate Enabled(s: System, a: Action) {
    match a
    case Fetch(c, _) => c !in s.calls
    case Acquire(c) =>
      c in s.calls && s.calls[c].Fetched? && s.calls[c].pool < |s.pools| && s.pools[s.calls[c].pool].free > 0
    case AcquireTimeout(c) => c in s.calls && s.calls[c].Fetched?
    case Submit(c) =>
      c in s.calls && s.calls[c].Holding? && s.calls[c].pool < |s.pools| && s.pools[s.calls[c].pool].open
    case SubmitFails(c) => c in s.calls && s.calls[c].Holding?
    case Attach(c) => c in s.calls && s.calls[c].Submitted? && !s.calls[c].attached
    case StartRunning(c) => c in s.calls && s.calls[c].Submitted? && s.calls[c].future.Pending?
    case Finish(c) => c in s.calls && s.calls[c].Submitted? && s.calls[c].future.Running?
    case Cancel(c) => c in s.calls && s.calls[c].Submitted? && s.calls[c].future.Pending?
  }

  /** `semaphore.release()` by a call, after which the call holds nothing. */
  function Release(s: System, c: nat, pool: nat): System
  {
    if pool >= |s.pools| || s.pools[pool].free >= s.pools[pool].workers then
      s.(overflow := true, calls := s.calls[c := Released(pool)], returned := s.returned + [Permit(c, pool)])
    else
      s.(pools := s.pools[pool := s.pools[pool].(free := s.pools[pool].free + 1)],
         calls := s.calls[c := Released(pool)],
         returned := s.returned + [Permit(c, pool)])
  }

  /** A future that ends runs its callback at once if it is attached. */
  function Resolve(s: System, c: nat, future: Future): System
    requires c in s.calls && s.calls[c].Submitted?
  {
    if s.calls[c].attached then Release(s, c, s.calls[c].pool)
    else s.(calls := s.calls[c := s.calls[c].(future := future)])
  }

  function Next(s: System, a: Action): System
    requires Enabled(s, a)
  {
    match a
    case Fetch(c, maxWorkers) =>
      var s' := Current(s, maxWorkers);
      s'.(calls := s'.calls[c := Fetched(s'.current.value)])
    case Acquire(c) =>
      var g := s.calls[c].pool;
      s.(pools := s.pools[g := s.pools[g].(free := s.pools[g].free - 1)],
         calls := s.calls[c := Holding(g)],
         granted := s.granted + [Permit(c, g)])
    case AcquireTimeout(c) => s.(calls := s.calls[c := GaveUp])
    case Submit(c) => s.(calls := s.calls[c := Submitted(s.calls[c].pool, Pending, false)])
    case SubmitFails(c) => Release(s, c, s.calls[c].pool)
    case Attach(c) =>
      if s.calls[c].future.Done? || s.calls[c].future.Cancelled?
      then Release(s, c, s.calls[c].pool)  // a callback added to a finished future runs at once
      else s.(calls := s.calls[c := s.calls[c].(attached := true)])
    case StartRunning(c) => s.(calls := s.calls[c := s.calls[c].(future := Running)])
    case Finish(c) => Resolve(s, c, Done)
    case Cancel(c) => Resolve(s, c, Cancelled)
  }

  // ----- conservation -----

  predicate Unsubmitted(call: Call, pool: nat) {
    call.Holding? && call.pool == pool
  }

  predicate InFlight(call: Call, pool: nat) {
    call.Submitted? && call.pool == pool
  }

  function UnsubmittedOf(s: System, pool: nat): set<nat> {
    set c | c in s.calls && Unsubmitted(s.calls[c], pool)
  }

  function InFlightOf(s: System, pool: nat): set<nat> {
    set c | c in s.calls && InFlight(s.calls[c], pool)
  }

  /** Free permits, acquired but unsubmitted calls and unreleased submissions add up to the workers. */
  predicate Conserved(s: System, pool: nat)
    requires pool < |s.pools|
  {
    s.pools[pool].free + |UnsubmittedOf(s, pool)| + |InFlightOf(s, pool)| == s.pools[pool].workers
  }

  predicate Holds(call: Call) {
    call.Holding? || call.Submitted?
  }

  predicate PoolKnown(s: System, call: Call) {
    call.GaveUp? || call.pool < |s.pools|
  }

  /** The log agrees with the phases: a permit is out exactly while its call holds it, and comes
      back once, to the pool it was taken from. */
  ghost predicate Accounted(s: System) {
    && Distinct(s.granted) && Distinct(s.returned)
    && (forall p | p in s.granted ::
          p.call in s.calls && (Holds(s.calls[p.call]) || s.calls[p.call].Released?)
          && s.calls[p.call].pool == p.pool)
    && (forall c | c in s.calls && (Holds(s.calls[c]) || s.calls[c].Released?) ::
          Permit(c, s.calls[c].pool) in s.granted)
    && (forall p :: p in s.returned <==> p in s.granted && s.calls[p.call].Released?)
  }

  ghost predicate Invariant(s: System) {
    && (s.current.Some? ==> s.current.value < |s.pools|)
    && (forall c | c in s.calls :: PoolKnown(s, s.calls[c]))
    && (forall g: nat | g < |s.pools| :: Conserved(s, g))
    && Accounted(s)
    && !s.overflow
  }

  /** What one call contributes to the count of a pool. */
  function Held(call: Call, pool: nat): int {
    if Unsubmitted(call, pool) || InFlight(call, pool) then 1 else 0
  }

  lemma SwapCount(a: set<nat>, b: set<nat>, c: nat, put: bool)
    requires forall d :: d in b <==> if d == c then put else d in a
    ensures |b| == |a| - (if c in a then 1 else 0) + (if put then 1 else 0)
  {
    var rest := a - {c};
    assert rest == b - {c};
    assert a == if c in a then rest + {c} else rest;
    assert b == if put then rest + {c} else rest;
  }

  lemma UnsubmittedChange(s: System, t: System, c: nat, call: Call, pool: nat)
    requires t.calls == s.calls[c := call]
    ensures |UnsubmittedOf(t, pool)| ==
            |UnsubmittedOf(s, pool)|
            - (if c in s.calls && Unsubmitted(s.calls[c], pool) then 1 else 0)
            + (if Unsubmitted(call, pool) then 1 else 0)
  {
    var before, after := UnsubmittedOf(s, pool), UnsubmittedOf(t, pool);
    assert forall d | d != c :: d in t.calls <==> d in s.calls;
    assert forall d | d != c && d in s.calls :: t.calls[d] == s.calls[d];
    SwapCount(before, after, c, Unsubmitted(call, pool));
  }

  lemma InFlightChange(s: System, t: System, c: nat, call: Call, pool: nat)
    requires t.calls == s.calls[c := call]
    ensures |InFlightOf(t, pool)| ==
            |InFlightOf(s, pool)|
            - (if c in s.calls && InFlight(s.calls[c], pool) then 1 else 0)
            + (if InFlight(call, pool) then 1 else 0)
  {
    var before, after := InFlightOf(s, pool), InFlightOf(t, pool);
    assert forall d | d != c :: d in t.calls <==> d in s.calls;
    assert forall d | d != c && d in s.calls :: t.calls[d] == s.calls[d];
    SwapCount(before, after, c, InFlight(call, pool));
  }

  /** How the count of a pool changes when one call changes phase. */
  lemma PhaseChange(s: System, t: System, c: nat, call: Call, pool: nat)
    requires t.calls == s.calls[c := call]
    ensures |UnsubmittedOf(t, pool)| + |InFlightOf(t, pool)| ==
            |UnsubmittedOf(s, pool)| + |InFlightOf(s, pool)|
            - (if c in s.calls then Held(s.calls[c], pool) else 0) + Held(call, pool)
  {
    hide UnsubmittedOf, InFlightOf;
    UnsubmittedChange(s, t, c, call, pool);
    InFlightChange(s, t, c, call, pool);
  }

  lemma DistinctAppend<T>(s: seq<T>, x: T)
    requires Distinct(s) && x !in s
    ensures Distinct(s + [x])
  {
  }

  /** A permit that is out leaves room for itself in the semaphore. */
  lemma PermitLeavesRoom(s: System, c: nat)
    requires Invariant(s) && c in s.calls && Holds(s.calls[c])
    ensures s.calls[c].pool < |s.pools|
    ensures s.pools[s.calls[c].pool].free < s.pools[s.calls[c].pool].workers
  {
    var pool := s.calls[c].pool;
    assert PoolKnown(s, s.calls[c]) && Conserved(s, pool);
    assert c in UnsubmittedOf(s, pool) || c in InFlightOf(s, pool);
  }

  lemma ReleaseConserves(s: System, c: nat, pool: nat)
    requires Invariant(s) && c in s.calls && Holds(s.calls[c])
    requires pool < |s.pools|
    ensures Release(s, c, s.calls[c].pool).overflow == false
    ensures |Release(s, c, s.calls[c].pool).pools| == |s.pools|
    ensures Conserved(Release(s, c, s.calls[c].pool), pool)
  {
    PermitLeavesRoom(s, c);
    assert Conserved(s, pool);
    PhaseChange(s, Release(s, c, s.calls[c].pool), c, Released(s.calls[c].pool), pool);
  }

  lemma ReleaseAccounts(s: System, c: nat)
    requires Accounted(s) && c in s.calls && Holds(s.calls[c])
    ensures Accounted(Release(s, c, s.calls[c].pool))
  {
    var permit := Permit(c, s.calls[c].pool);
    assert permit in s.granted && permit !in s.returned;
    DistinctAppend(s.returned, permit);
  }

  lemma ReleaseKeeps(s: System, c: nat)
    requires Invariant(s) && c in s.calls && Holds(s.calls[c])
    ensures Invariant(Release(s, c, s.calls[c].pool))
  {
    var t := Release(s, c, s.calls[c].pool);
    PermitLeavesRoom(s, c);
    forall g: nat | g < |t.pools| ensures Conserved(t, g) {
      ReleaseConserves(s, c, g);
    }
    ReleaseAccounts(s, c);
    forall d | d in t.calls ensures PoolKnown(t, t.calls[d]) {
      assert d in s.calls && PoolKnown(s, s.calls[d]);
    }
  }

  /** A call that keeps or never had its permit changes phase; pools and log stay. */
  lemma RephaseKeeps(s: System, c: nat, call: Call)
    requires Invariant(s) && c in s.calls
    requires || (Holds(s.calls[c]) && Holds(call) && call.pool == s.calls[c].pool)
             || (s.calls[c].Fetched? && call.GaveUp?)
    ensures Invariant(s.(calls := s.calls[c := call]))
  {
    var t := s.(calls := s.calls[c := call]);
    forall g: nat | g < |t.pools| ensures Conserved(t, g) {
      assert Conserved(s, g);
      PhaseChange(s, t, c, call, g);
    }
    assert PoolKnown(s, s.calls[c]);
  }

  lemma AcquireKeeps(s: System, c: nat)
    requires Invariant(s) && Enabled(s, Acquire(c))
    ensures Invariant(Next(s, Acquire(c)))
  {
    var t, pool := Next(s, Acquire(c)), s.calls[c].pool;
    forall g: nat | g < |t.pools| ensures Conserved(t, g) {
      assert Conserved(s, g);
      PhaseChange(s, t, c, Holding(pool), g);
    }
    assert Permit(c, pool) !in s.granted;
    DistinctAppend(s.granted, Permit(c, pool));
  }

  lemma FetchConserves(s: System, c: nat, maxWorkers: int, pool: nat)
    requires Invariant(s) && Enabled(s, Fetch(c, maxWorkers))
    requires pool < |Next(s, Fetch(c, maxWorkers)).pools|
    ensures Conserved(Next(s, Fetch(c, maxWorkers)), pool)
  {
    var t := Next(s, Fetch(c, maxWorkers));
    PhaseChange(s, t, c, t.calls[c], pool);
    if pool < |s.pools| {
      assert Conserved(s, pool);
    } else {
      forall d | d in s.calls ensures Held(s.calls[d], pool) == 0 {
        assert PoolKnown(s, s.calls[d]);
      }
      assert UnsubmittedOf(s, pool) == {} && InFlightOf(s, pool) == {};
    }
  }

  lemma FetchKeeps(s: System, c: nat, maxWorkers: int)
    requires Invariant(s) && Enabled(s, Fetch(c, maxWorkers))
    ensures Invariant(Next(s, Fetch(c, maxWorkers)))
  {
    var t := Next(s, Fetch(c, maxWorkers));
    forall g: nat | g < |t.pools| ensures Conserved(t, g) {
      FetchConserves(s, c, maxWorkers, g);
    }
    forall d | d in t.calls ensures PoolKnown(t, t.calls[d]) {
      assert d == c || PoolKnown(s, s.calls[d]);
    }
  }

  lemma StepKeeps(s: System, a: Action)
    requires Invariant(s) && Enabled(s, a)
    ensures Invariant(Next(s, a))
  {
    match a
    case Fetch(c, maxWorkers) => FetchKeeps(s, c, maxWorkers);
    case Acquire(c) => AcquireKeeps(s, c);
    case AcquireTimeout(c) => RephaseKeeps(s, c, GaveUp);
    case Submit(c) => RephaseKeeps(s, c, Submitted(s.calls[c].pool, Pending, false));
    case SubmitFails(c) => ReleaseKeeps(s, c);
    case Attach(c) =>
      if s.calls[c].future.Done? || s.calls[c].future.Cancelled? {
        ReleaseKeeps(s, c);
      } else {
        RephaseKeeps(s, c, s.calls[c].(attached := true));
      }
    case StartRunning(c) => RephaseKeeps(s, c, s.calls[c].(future := Running));
    case Finish(c) =>
      if s.calls[c].attached {
        ReleaseKeeps(s, c);
      } else {
        RephaseKeeps(s, c, s.calls[c].(future := Done));
      }
    case Cancel(c) =>
      if s.calls[c].attached {
        ReleaseKeeps(s, c);
      } else {
        RephaseKeeps(s, c, s.calls[c].(future := Cancelled));
      }
  }

  // ----- whole runs -----

  /** The states of an execution: any interleaving of enabled steps from the empty system. */
  ghost predicate Execution(states: seq<System>, actions: seq<Action>) {
    && |states| == |actions| + 1
    && states[0] == START
    && forall i | 0 <= i < |actions| ::
         Enabled(states[i], actions[i]) && states[i + 1] == Next(states[i], actions[i])
  }

  /** Safety of every run: at every moment each generation's permits are conserved, permits come
      back at most once and to their own generation, and no semaphore ever overflows. */
  lemma {:induction false} EveryRunConserves(states: seq<System>, actions: seq<Action>, n: nat)
    requires Execution(states, actions) && n < |states|
    ensures Invariant(states[n])
    ensures forall g: nat | g < |states[n].pools| :: Conserved(states[n], g)
    ensures Distinct(states[n].returned) && forall p | p in states[n].returned :: p in states[n].granted
    ensures !states[n].overflow
    decreases n
  {
    if n > 0 {
      EveryRunConserves(states, actions, n - 1);
      assert Enabled(states[n - 1], actions[n - 1]) && states[n - 1 + 1] == Next(states[n - 1], actions[n - 1]);
      StepKeeps(states[n - 1], actions[n - 1]);
    }
  }

  /** Nothing leaks: once no call holds a permit, every permit granted has come back exactly once
      and every generation, replaced or not, is at full strength again. */
  lemma IdleMeansFull(s: System)
    requires Invariant(s)
    requires forall c | c in s.calls :: !Holds(s.calls[c])
    ensures forall g: nat | g < |s.pools| :: s.pools[g].free == s.pools[g].workers
    ensures Distinct(s.granted) && Distinct(s.returned)
    ensures forall p :: p in s.granted <==> p in s.returned
  {
    forall g: nat | g < |s.pools| ensures s.pools[g].free == s.pools[g].workers {
      assert Conserved(s, g);
      assert UnsubmittedOf(s, g) == {} && InFlightOf(s, g) == {};
    }
  }

  function RunningOf(s: System, pool: nat): set<nat> {
    set c | c in s.calls && InFlight(s.calls[c], pool) && s.calls[c].future.Running?
  }

  /** No generation ever runs more calls at once than it has workers. */
  lemma NeverMoreThanWorkers(s: System, pool: nat)
    requires Invariant(s) && pool < |s.pools|
    ensures |RunningOf(s, pool)| <= s.pools[pool].workers
  {
    assert Conserved(s, pool);
    var rest := InFlightOf(s, pool) - RunningOf(s, pool);
    assert InFlightOf(s, pool) == RunningOf(s, pool) + rest;
    assert |InFlightOf(s, pool)| == |RunningOf(s, pool)| + |rest|;
  }

  // ----- a held permit can always come back -----

  /** The call an action belongs to. */
  function CallOf(a: Action): nat {
    a.call
  }

  predicate Resolved(future: Future) {
    future.Done? || future.Cancelled?
  }

  /** No callback is lost: a future that has ended without releasing still waits for its callback. */
  ghost predicate CallbacksPending(s: System) {
    forall c | c in s.calls && s.calls[c].Submitted? && Resolved(s.calls[c].future) :: !s.calls[c].attached
  }

  lemma StepKeepsCallbacks(s: System, a: Action)
    requires CallbacksPending(s) && Enabled(s, a)
    ensures CallbacksPending(Next(s, a))
  {
    var t := Next(s, a);
    forall c | c in t.calls && t.calls[c].Submitted? && Resolved(t.calls[c].future) ensures !t.calls[c].attached {
      if c != CallOf(a) {
        OthersLeaveAlone(s, a, c);
      }
    }
  }

  /** A step of one call changes the phase of no other. */
  lemma OthersLeaveAlone(s: System, a: Action, c: nat)
    requires Enabled(s, a) && c != CallOf(a)
    ensures c in Next(s, a).calls <==> c in s.calls
    ensures c in s.calls ==> Next(s, a).calls[c] == s.calls[c]
  {
  }

  /** A call that holds a permit always has a step of its own to take: it is never stuck, whatever
      the other calls did, even if its executor was replaced and shut down. */
  lemma HolderCanStep(s: System, c: nat)
    requires CallbacksPending(s) && c in s.calls && Holds(s.calls[c])
    ensures exists a :: CallOf(a) == c && Enabled(s, a)
  {
    var a :=
      if s.calls[c].Holding? then SubmitFails(c)
      else
        match s.calls[c].future
        case Pending => StartRunning(c)
        case Running => Finish(c)
        case _ => Attach(c);
    assert CallOf(a) == c && Enabled(s, a);
  }

  /** How many steps of its own a call takes at most until it has given its permit back. */
  function StepsLeft(call: Call): (n: nat)
    ensures Holds(call) ==> 0 < n <= 4
  {
    match call
    case Holding(_) => 4
    case Submitted(_, future, attached) =>
      if Resolved(future) then 1 else (if future.Running? then 1 else 2) + if attached then 0 else 1
    case _ => 0
  }

  /** Every step a holder takes gives the permit back to its own pool or brings that closer. */
  lemma OwnStepShrinks(s: System, a: Action)
    requires Invariant(s) && Enabled(s, a) && CallOf(a) in s.calls && Holds(s.calls[CallOf(a)])
    ensures var c, t := CallOf(a), Next(s, a);
            && c in t.calls
            && if Holds(t.calls[c])
               then t.calls[c].pool == s.calls[c].pool && StepsLeft(t.calls[c]) < StepsLeft(s.calls[c])
               else t.calls[c] == Released(s.calls[c].pool) && Permit(c, s.calls[c].pool) in t.returned
  {
    hide Invariant;
    var c, t := CallOf(a), Next(s, a);
    if t.calls[c].Released? {
      assert t.returned[|t.returned| - 1] == Permit(c, s.calls[c].pool);
    }
  }

  lemma ReleasedIsFinal(s: System, a: Action, c: nat)
    requires Enabled(s, a) && c in s.calls && s.calls[c].Released?
    ensures c in Next(s, a).calls && Next(s, a).calls[c] == s.calls[c] && CallOf(a) != c
  {
  }

  function Counts(a: Action, c: nat): nat {
    if CallOf(a) == c then 1 else 0
  }

  /** How many of the actions from i up to j are steps of the call. */
  function OwnSteps(actions: seq<Action>, c: nat, i: nat, j: nat): nat
    requires i <= j <= |actions|
    decreases j - i
  {
    if i == j then 0 else Counts(actions[i], c) + OwnSteps(actions, c, i + 1, j)
  }

  /** A call that held a permit in phase `was` has since taken `own` steps: it still holds it and has
      come that much closer, or it has given it back to the same pool. */
  ghost predicate OnTheWay(was: Call, c: nat, own: nat, s: System)
    requires Holds(was)
  {
    && c in s.calls
    && if Holds(s.calls[c]) then s.calls[c].pool == was.pool && own + StepsLeft(s.calls[c]) <= StepsLeft(was)
       else s.calls[c] == Released(was.pool) && Permit(c, was.pool) in s.returned
  }

  lemma OnTheWayStep(was: Call, c: nat, own: nat, s: System, a: Action)
    requires Holds(was) && OnTheWay(was, c, own, s) && Invariant(s) && Enabled(s, a)
    ensures OnTheWay(was, c, own + Counts(a, c), Next(s, a))
  {
    hide Invariant, Enabled, Next, StepsLeft;
    ReturnedGrows(s, a);
    if CallOf(a) != c {
      OthersLeaveAlone(s, a, c);
    } else if Holds(s.calls[c]) {
      OwnStepShrinks(s, a);
    } else {
      ReleasedIsFinal(s, a, c);
    }
  }

  lemma OnTheWayBegins(c: nat, s: System)
    requires c in s.calls && Holds(s.calls[c])
    ensures OnTheWay(s.calls[c], c, 0, s)
  {
  }

  lemma InvariantAt(states: seq<System>, actions: seq<Action>, n: nat)
    requires Execution(states, actions) && n < |states|
    ensures Invariant(states[n])
  {
    EveryRunConserves(states, actions, n);
  }

  lemma StepOnTheWay(
    states: seq<System>, actions: seq<Action>, was: Call, c: nat, n: nat, own: nat)
    requires Execution(states, actions) && n < |actions|
    requires Holds(was) && OnTheWay(was, c, own, states[n])
    ensures OnTheWay(was, c, own + Counts(actions[n], c), states[n + 1])
  {
    InvariantAt(states, actions, n);
    ExecutionStep(states, actions, n);
    hide *;
    var s, a := states[n], actions[n];
    OnTheWayStep(was, c, own, s, a);
  }

  lemma OwnStepsFrom(actions: seq<Action>, c: nat, i: nat, j: nat, own: nat, after: nat)
    requires i < j <= |actions| && after == own + Counts(actions[i], c)
    ensures own + OwnSteps(actions, c, i, j) == after + OwnSteps(actions, c, i + 1, j)
  {
  }

  lemma NoSteps(actions: seq<Action>, c: nat, i: nat)
    requires i <= |actions|
    ensures OwnSteps(actions, c, i, i) == 0
  {
  }

  lemma {:induction false} StaysOnTheWay(
    states: seq<System>, actions: seq<Action>, was: Call, c: nat, own: nat, i: nat, j: nat, total: nat)
    requires Execution(states, actions) && |states| == |actions| + 1 && i <= j <= |actions|
    requires Holds(was) && OnTheWay(was, c, own, states[i])
    requires total == own + OwnSteps(actions, c, i, j)
    ensures OnTheWay(was, c, total, states[j])
    decreases j - i
  {
    hide *;
    if i < j {
      StepOnTheWay(states, actions, was, c, i, own);
      var after := own + Counts(actions[i], c);
      OwnStepsFrom(actions, c, i, j, own, after);
      StaysOnTheWay(states, actions, was, c, after, i + 1, j, total);
    } else {
      NoSteps(actions, c, i);
    }
  }

  /** In every interleaving, a call that holds a permit has given it back as soon as it has taken
      `StepsLeft` steps of its own, at most four; until then it can always take the next one. */
  lemma PermitComesBack(states: seq<System>, actions: seq<Action>, c: nat, i: nat, j: nat)
    requires Execution(states, actions) && i <= j <= |actions|
    requires c in states[i].calls && Holds(states[i].calls[c])
    ensures OnTheWay(states[i].calls[c], c, OwnSteps(actions, c, i, j), states[j])
    ensures OwnSteps(actions, c, i, j) >= StepsLeft(states[i].calls[c]) ==> states[j].calls[c].Released?
    ensures !states[j].calls[c].Released? ==> exists a :: CallOf(a) == c && Enabled(states[j], a)
  {
    RunKeepsCallbacks(states, actions, j);
    OnTheWayBegins(c, states[i]);
    StaysOnTheWay(states, actions, states[i].calls[c], c, 0, i, j, OwnSteps(actions, c, i, j));
    hide Execution, Invariant, CallbacksPending, Enabled, Next, OwnSteps;
    if Holds(states[j].calls[c]) {
      HolderCanStep(states[j], c);
    }
  }

  lemma ExecutionStep(states: seq<System>, actions: seq<Action>, n: nat)
    requires Execution(states, actions) && n < |actions|
    ensures Enabled(states[n], actions[n]) && states[n + 1] == Next(states[n], actions[n])
  {
  }

  lemma ReturnedGrows(s: System, a: Action)
    requires Enabled(s, a)
    ensures forall p | p in s.returned :: p in Next(s, a).returned
  {
    assert s.returned <= Next(s, a).returned;
  }

  lemma {:induction false} RunKeepsCallbacks(states: seq<System>, actions: seq<Action>, n: nat)
    requires Execution(states, actions) && n < |states|
    ensures CallbacksPending(states[n])
    decreases n
  {
    hide Enabled, Next;
    if n > 0 {
      RunKeepsCallbacks(states, actions, n - 1);
      ExecutionStep(states, actions, n - 1);
      StepKeepsCallbacks(states[n - 1], actions[n - 1]);
    }
  }

  // ----- the pool a call gets -----

  /** The current generation takes submissions and every replaced one is shut down. */
  ghost predicate OnlyCurrentOpen(s: System) {
    forall g: nat | g < |s.pools| :: s.pools[g].open <==> s.current == Some(g)
  }

  /** A call fetches the current generation, which is open and has the size it asked for, at least
      one. The generation before is kept exactly when it has that size; otherwise a new one, all
      permits free, follows it and it is shut down. */
  lemma FetchServes(s: System, c: nat, maxWorkers: int)
    requires Invariant(s) && OnlyCurrentOpen(s) && Enabled(s, Fetch(c, maxWorkers))
    ensures var t, asked := Next(s, Fetch(c, maxWorkers)), if maxWorkers >= 1 then maxWorkers else 1;
            var fits := s.current.Some? && s.pools[s.current.value].workers == asked;
            && c in t.calls && t.calls[c].Fetched? && t.current == Some(t.calls[c].pool)
            && t.calls[c].pool < |t.pools| && t.pools[t.calls[c].pool].workers == asked
            && t.pools[t.calls[c].pool].open && OnlyCurrentOpen(t)
            && (fits <==> t.pools == s.pools)
            && (fits ==> t.current == s.current)
            && (!fits ==>
                  && |t.pools| == |s.pools| + 1 && t.calls[c].pool == |s.pools|
                  && t.pools[|s.pools|].free == asked
                  && forall g: nat | g < |s.pools| :: t.pools[g] == s.pools[g].(open := false))
  {
  }

  /** A generation never changes its size, and once shut down it stays so and takes no submission. */
  lemma PoolsKeepSize(s: System, a: Action, g: nat)
    requires Enabled(s, a) && g < |s.pools|
    ensures var t := Next(s, a);
            && g < |t.pools| && t.pools[g].workers == s.pools[g].workers
            && (t.pools[g].open ==> s.pools[g].open)
            && (!s.pools[g].open ==> InFlightOf(t, g) <= InFlightOf(s, g))
  {
    var t := Next(s, a);
    forall c | c in InFlightOf(t, g) && !s.pools[g].open ensures c in InFlightOf(s, g) {
      if c != CallOf(a) {
        OthersLeaveAlone(s, a, c);
      }
    }
  }

  lemma StepKeepsOpen(s: System, a: Action)
    requires Invariant(s) && OnlyCurrentOpen(s) && Enabled(s, a)
    ensures OnlyCurrentOpen(Next(s, a))
  {
    if a.Fetch? {
      FetchServes(s, a.call, a.maxWorkers);
    }
  }

  lemma {:induction false} RunKeepsOpen(states: seq<System>, actions: seq<Action>, n: nat)
    requires Execution(states, actions) && n < |states|
    ensures OnlyCurrentOpen(states[n])
    decreases n
  {
    hide Enabled, Next, Invariant;
    if n > 0 {
      RunKeepsOpen(states, actions, n - 1);
      InvariantAt(states, actions, n - 1);
      ExecutionStep(states, actions, n - 1);
      StepKeepsOpen(states[n - 1], actions[n - 1]);
    }
  }

  lemma {:induction false} SizeStays(states: seq<System>, actions: seq<Action>, g: nat, i: nat, j: nat)
    requires Execution(states, actions) && i <= j < |states| && g < |states[i].pools|
    ensures g < |states[j].pools| && states[j].pools[g].workers == states[i].pools[g].workers
    decreases j
  {
    hide Enabled, Next;
    if i < j {
      SizeStays(states, actions, g, i, j - 1);
      ExecutionStep(states, actions, j - 1);
      PoolsKeepSize(states[j - 1], actions[j - 1], g);
    }
  }

  function HoldersOf(s: System, pool: nat): set<nat> {
    set c | c in s.calls && Holds(s.calls[c]) && s.calls[c].pool == pool
  }

  /** A waiting call can have a permit exactly while fewer calls hold one than the pool has workers. */
  lemma AcquireIffRoom(s: System, pool: nat)
    requires Invariant(s) && pool < |s.pools|
    ensures |HoldersOf(s, pool)| <= s.pools[pool].workers
    ensures forall d | d in s.calls && s.calls[d] == Fetched(pool) ::
              Enabled(s, Acquire(d)) <==> |HoldersOf(s, pool)| < s.pools[pool].workers
  {
    assert Conserved(s, pool);
    assert HoldersOf(s, pool) == UnsubmittedOf(s, pool) + InFlightOf(s, pool);
    assert UnsubmittedOf(s, pool) !! InFlightOf(s, pool);
    assert |HoldersOf(s, pool)| == |UnsubmittedOf(s, pool)| + |InFlightOf(s, pool)|;
  }

  /** In every interleaving, from the moment a call fetched a pool with n workers, at most n calls
      hold permits of that pool, and as long as there are fewer every call waiting for one can
      have it, whatever replaced the pool meanwhile. */
  lemma FetchedPoolAdmits(states: seq<System>, actions: seq<Action>, c: nat, n: int, i: nat, j: nat)
    requires Execution(states, actions) && i < j < |states| && actions[i] == Fetch(c, n)
    ensures c in states[i + 1].calls && states[i + 1].calls[c].Fetched?
    ensures var pool, asked := states[i + 1].calls[c].pool, if n >= 1 then n else 1;
            && |HoldersOf(states[j], pool)| <= asked
            && forall d | d in states[j].calls && states[j].calls[d] == Fetched(pool) ::
                 Enabled(states[j], Acquire(d)) <==> |HoldersOf(states[j], pool)| < asked
  {
    hide Enabled, Next, Invariant, OnlyCurrentOpen, HoldersOf;
    InvariantAt(states, actions, i);
    RunKeepsOpen(states, actions, i);
    ExecutionStep(states, actions, i);
    FetchServes(states[i], c, n);
    SizeStays(states, actions, states[i + 1].calls[c].pool, i + 1, j);
    InvariantAt(states, actions, j);
    AcquireIffRoom(states[j], states[i + 1].calls[c].pool);
  }
}
