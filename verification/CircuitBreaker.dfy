/**
 The per-provider circuit breaker of `llm_clients/orchestrator.py` as a state machine, and its
 meaning as a predicate on the history of lock-protected calls.

 Every call of `is_circuit_open` and `record_result` runs under one lock, so an execution of any
 number of threads is one sequence of events whose clock readings never decrease.
 */
module CircuitBreaker {
  import opened Text

  datatype State = Closed | Open | HalfOpen

  datatype Circuit = Circuit(state: State, failures: nat, openedAt: real)

  const FRESH := Circuit(Closed, 0, 0.0)

  datatype Policy = Policy(threshold: int, window: real)

  datatype Event =
    | Check(provider: string, at: real)
    | Record(provider: string, success: bool, at: real)

  // ----- the machine -----

  function CircuitOf(circuits: map<string, Circuit>, provider: string): Circuit {
    if provider in circuits then circuits[provider] else FRESH
  }

  predicate ReportsOpen(c: Circuit, now: real, policy: Policy) {
    c.state.Open? && now - c.openedAt < policy.window
  }

  function AfterCheck(c: Circuit, now: real, policy: Policy): Circuit {
    if c.state.Open? && now - c.openedAt >= policy.window then c.(state := HalfOpen) else c
  }

  function AfterRecord(c: Circuit, success: bool, now: real, policy: Policy): Circuit {
    if success then
      c.(state := Closed, failures := 0)
    else if c.state.HalfOpen? then
      c.(state := Open, openedAt := now)
    else if c.failures + 1 >= policy.threshold then
      Circuit(Open, c.failures + 1, now)
    else
      c.(failures := c.failures + 1)
  }

  function Step(circuits: map<string, Circuit>, e: Event, policy: Policy): map<string, Circuit> {
    match e
    case Check(p, now) =>
      if p in circuits then circuits[p := AfterCheck(circuits[p], now, policy)] else circuits
    case Record(p, success, now) =>
      circuits[p := AfterRecord(CircuitOf(circuits, p), success, now, policy)]
  }

  function Replay(history: seq<Event>, policy: Policy): map<string, Circuit> {
    if history == [] then map[]
    else Step(Replay(history[..|history| - 1], policy), history[|history| - 1], policy)
  }

  // ----- what the history says -----

  predicate Concerns(e: Event, provider: string) {
    e.Record? && e.provider == provider
  }

  /** How many failures were recorded for the provider since its last recorded success. */
  function TrailingFailures(history: seq<Event>, provider: string): nat {
    if history == [] then 0
    else
      var front, last := history[..|history| - 1], history[|history| - 1];
      if !Concerns(last, provider) then TrailingFailures(front, provider)
      else if last.success then 0
      else 1 + TrailingFailures(front, provider)
  }

  function LastFailureAt(history: seq<Event>, provider: string): Option<real> {
    if history == [] then None
    else
      var front, last := history[..|history| - 1], history[|history| - 1];
      if Concerns(last, provider) && !last.success then Some(last.at)
      else LastFailureAt(front, provider)
  }

  /** A threshold below one trips on the first failure, exactly as a threshold of one does. */
  function EffectiveThreshold(policy: Policy): (t: int)
  {
    if policy.threshold < 1 then 1 else policy.threshold
  }

  predicate ShouldBeOpen(history: seq<Event>, provider: string, now: real, policy: Policy) {
    && TrailingFailures(history, provider) >= EffectiveThreshold(policy)
    && LastFailureAt(history, provider).Some?
    && now - LastFailureAt(history, provider).value < policy.window
  }

  predicate Chronological(history: seq<Event>) {
    forall i, j | 0 <= i <= j < |history| :: history[i].at <= history[j].at
  }

  predicate NotAfter(history: seq<Event>, now: real) {
    forall i | 0 <= i < |history| :: history[i].at <= now
  }

  // ----- the machine implements the history -----

  ghost predicate Tracks(c: Circuit, history: seq<Event>, provider: string, now: real, policy: Policy) {
    var run := TrailingFailures(history, provider);
    && (c.state.Closed? <==> run < EffectiveThreshold(policy))
    && (c.state.Closed? ==> c.failures == run)
    && (!c.state.Closed? ==> LastFailureAt(history, provider) == Some(c.openedAt))
    && (!c.state.Closed? ==> c.failures >= EffectiveThreshold(policy))
    && (c.state.HalfOpen? ==> now - c.openedAt >= policy.window)
  }

  lemma {:induction false} ReplayTracks(history: seq<Event>, provider: string, now: real, policy: Policy)
    requires Chronological(history) && NotAfter(history, now)
    ensures Tracks(CircuitOf(Replay(history, policy), provider), history, provider, now, policy)
  {
    if history != [] {
      var front, last := history[..|history| - 1], history[|history| - 1];
      assert NotAfter(front, last.at) by {
        forall i | 0 <= i < |front| ensures front[i].at <= last.at {
          assert front[i] == history[i];
        }
      }
      ReplayTracks(front, provider, last.at, policy);
    }
  }

  /** For every interleaving of checks and records: a circuit reports open at `now` exactly when
      the run of failures since the last success reached the threshold and the last failure is
      less than a window old; it is closed exactly when the run is shorter than the threshold, and
      then its counter is the length of the run. */
  lemma BreakerRefinesHistory(history: seq<Event>, provider: string, now: real, policy: Policy)
    requires Chronological(history) && NotAfter(history, now)
    ensures var c := CircuitOf(Replay(history, policy), provider);
            var run := TrailingFailures(history, provider);
            && (ReportsOpen(c, now, policy) <==> ShouldBeOpen(history, provider, now, policy))
            && (c.state.Closed? <==> run < EffectiveThreshold(policy))
            && (c.state.Closed? ==> c.failures == run)
  {
    ReplayTracks(history, provider, now, policy);
  }

  /** Checks are invisible to the specification, so a half-open circuit does not limit itself to a
      single probe: once the window has elapsed, every check is let through until the next result
      is recorded, however many checks came before it. */
  lemma {:induction false} HalfOpenAdmitsEveryProbe(
    history: seq<Event>, probes: seq<Event>, provider: string, now: real, policy: Policy)
    requires Chronological(history + probes) && NotAfter(history + probes, now)
    requires forall i | 0 <= i < |probes| :: probes[i].Check?
    requires LastFailureAt(history, provider).Some?
    requires now - LastFailureAt(history, provider).value >= policy.window
    ensures !ReportsOpen(CircuitOf(Replay(history + probes, policy), provider), now, policy)
  {
    ChecksLeaveNoTrace(history, probes, provider);
    BreakerRefinesHistory(history + probes, provider, now, policy);
  }

  lemma {:induction false} ChecksLeaveNoTrace(history: seq<Event>, probes: seq<Event>, provider: string)
    requires forall i | 0 <= i < |probes| :: probes[i].Check?
    ensures TrailingFailures(history + probes, provider) == TrailingFailures(history, provider)
    ensures LastFailureAt(history + probes, provider) == LastFailureAt(history, provider)
  {
    if probes == [] {
      assert history + probes == history;
    } else {
      var front := probes[..|probes| - 1];
      ChecksLeaveNoTrace(history, front, provider);
      assert (history + probes)[..|history + probes| - 1] == history + front;
    }
  }

  /** Appending one event at or after the others. */
  lemma AppendEvent(history: seq<Event>, e: Event, policy: Policy, later: real)
    requires Chronological(history) && NotAfter(history, e.at) && e.at <= later
    ensures Replay(history + [e], policy) == Step(Replay(history, policy), e, policy)
    ensures Chronological(history + [e]) && NotAfter(history + [e], later)
  {
    assert (history + [e])[..|history + [e]| - 1] == history;
  }
}
