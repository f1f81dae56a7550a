/** A whole historical replay: any sequence of tool calls under one point-in-time contract. */
module HistoricalReplay {
  import opened Text
  import opened Errors
  import opened ProviderRuntime
  import opened VendorRouting
  import opened HistoricalContract
  import opened ReplayAudit
  import opened HistoricalRouting

  datatype Request = Request(methodName: string, call: CallArgs)

  datatype ReplayResult =
    | FutureAnchor
    | GraphFailed(calls: seq<AuditEntry>)
    | AuditFailed(calls: seq<AuditEntry>, issues: seq<Finding>)
    | Completed(calls: seq<AuditEntry>)

  // ----- what the run leaves in the configuration, and what the router reads from it -----

  datatype WindowSettings = WindowSettings(anchor: Option<int>, lookbackDays: Option<int>, forwardDays: Option<int>)

  datatype Settings = Settings(enabled: bool, anchor: int, window: Option<WindowSettings>, semantics: string, strict: bool)

  function OrElse<T>(o: Option<T>, default: T): T {
    match o case None => default case Some(v) => v
  }

  /** The replay branch of `route_to_vendor`; `None` means the live path. */
  function ContractFrom(s: Settings): Option<Contract> {
    if !s.enabled || s.window.None? then None
    else
      var w := s.window.value;
      Some(Contract(
        DataWindow(OrElse(w.anchor, s.anchor), OrElse(w.lookbackDays, 30), OrElse(w.forwardDays, 0)),
        if s.semantics == "latest" then Latest else if s.semantics == "hybrid" then Hybrid else AsOf,
        s.strict))
  }

  /** The router leaves the live path exactly if replay is on and a window is set; what the window
      leaves open is the anchor of the settings, thirty days back and none forward, and what is not
      named otherwise must be point-in-time data. */
  lemma ContractIff(s: Settings)
    ensures ContractFrom(s).Some? <==> s.enabled && s.window.Some?
    ensures ContractFrom(s).Some? ==>
              var c, w := ContractFrom(s).value, s.window.value;
              && (c.window.anchor == if w.anchor.Some? then w.anchor.value else s.anchor)
              && (c.window.lookbackDays == if w.lookbackDays.Some? then w.lookbackDays.value else 30)
              && (c.window.forwardDays == if w.forwardDays.Some? then w.forwardDays.value else 0)
              && c.strict == s.strict
              && (c.required.Latest? <==> s.semantics == "latest") && (c.required.Hybrid? <==> s.semantics == "hybrid")
  {
    assert |"latest"| == |"hybrid"| && "latest"[0] != "hybrid"[0];
  }

  function ReplaySettings(anchor: int, lookbackDays: int, strict: bool): Settings {
    Settings(true, anchor, Some(WindowSettings(Some(anchor), Some(lookbackDays), Some(0))), "as_of", strict)
  }

  /** The submission carries what it should for one of the run's first n requests. */
  ghost predicate Requested(
    lib: Library, accepts: (string, string) -> bool, s: Submission, requests: seq<Request>, n: nat, w: DataWindow)
    requires n <= |requests|
  {
    exists k | 0 <= k < n ::
      && s.methodName == requests[k].methodName
      && Carries(lib, accepts, s.vendor, requests[k].methodName, requests[k].call, s.call, w)
  }

  /** Every submission since `before` does. */
  ghost predicate AllRequested(
    lib: Library, accepts: (string, string) -> bool, before: seq<Submission>, after: seq<Submission>,
    requests: seq<Request>, n: nat, w: DataWindow)
    requires n <= |requests|
  {
    before <= after && forall i | |before| <= i < |after| :: Requested(lib, accepts, after[i], requests, n, w)
  }

  lemma NothingRequested(
    lib: Library, accepts: (string, string) -> bool, submissions: seq<Submission>, requests: seq<Request>, w: DataWindow)
    ensures AllRequested(lib, accepts, submissions, submissions, requests, 0, w)
  {
  }

  lemma RequestedGrows(
    lib: Library, accepts: (string, string) -> bool, first: seq<Submission>, before: seq<Submission>,
    after: seq<Submission>, requests: seq<Request>, n: nat, w: DataWindow)
    requires n < |requests| && AllRequested(lib, accepts, first, before, requests, n, w)
    requires Delivered(lib, accepts, before, after, requests[n].methodName, requests[n].call, w)
    ensures AllRequested(lib, accepts, first, after, requests, n + 1, w)
  {
    hide Carries;
    forall i | |first| <= i < |after| ensures Requested(lib, accepts, after[i], requests, n + 1, w) {
      if i < |before| {
        assert after[i] == before[i];
        assert Requested(lib, accepts, before[i], requests, n, w);
      }
    }
  }

  /** `HistoricalReplay.run`. The research graph is any sequence of tool calls; it may end in an
      error of its own. No tool call sees anything later than the anchor, no price or indicator
      provider is asked for it, and the closing audit never finds a violation. A strict replay asks
      nobody anything unless some vendor declares point-in-time data. */
  method Run(
    router: HistoricalRouter, anchor: int, today: int, lookbackDays: int, strict: bool,
    requests: seq<Request>, graphFails: bool, researchRunId: string)
    returns (outcome: ReplayResult, answers: seq<CallResult>)
    requires Lawful(router.lib)
    requires 1 <= lookbackDays <= 3650
    requires router.session.calls == []
    modifies router.runtime, router.session
    ensures outcome.FutureAnchor? <==> anchor > today
    ensures outcome.FutureAnchor? ==> router.session.calls == [] && answers == []
    ensures anchor <= today ==>
              && |answers| == |requests|
              && (forall i | 0 <= i < |answers| && answers[i].Ok? :: OnTime(router.lib, answers[i].response, anchor))
              && outcome == if graphFails then GraphFailed(router.session.calls)
                            else Completed(router.session.calls)
    ensures outcome.Completed? && researchRunId != "" ==>
              forall i | 0 <= i < |outcome.calls| :: outcome.calls[i].researchRunId == Some(researchRunId)
    ensures Sent(router.lib, old(router.runtime.submissions), router.runtime.submissions, anchor)
    ensures anchor <= today ==>
              AllRequested(router.lib, router.accepts, old(router.runtime.submissions), router.runtime.submissions,
                           requests, |requests|, DataWindow(anchor, lookbackDays, 0))
    ensures strict && NoAsOf(router.declarations) ==> router.runtime.submissions == old(router.runtime.submissions)
  {
    answers := [];
    NothingSent(router.lib, router.runtime.submissions, anchor);
    if anchor > today {
      return FutureAnchor, [];
    }
    ReplayContract(anchor, lookbackDays, strict);
    EmptyLogFits(router.lib, DataWindow(anchor, lookbackDays, 0));
    NothingRequested(router.lib, router.accepts, router.runtime.submissions, requests, DataWindow(anchor, lookbackDays, 0));
    hide *;
    var contract := ContractFrom(ReplaySettings(anchor, lookbackDays, strict)).value;
    var window := contract.window;
    for i := 0 to |requests|
      invariant |answers| == i
      invariant forall k | 0 <= k < |answers| && answers[k].Ok? :: OnTime(router.lib, answers[k].response, anchor)
      invariant Sent(router.lib, old(router.runtime.submissions), router.runtime.submissions, anchor)
      invariant AllRequested(router.lib, router.accepts, old(router.runtime.submissions), router.runtime.submissions,
                             requests, i, window)
      invariant LogFits(router.lib, router.session.calls, window)
      invariant strict && NoAsOf(router.declarations) ==> router.runtime.submissions == old(router.runtime.submissions)
    {
      if strict && NoAsOf(router.declarations) {
        StrictRefusesAll(router.declarations, requests[i].methodName, contract);
      }
      ghost var sent, logged := router.runtime.submissions, router.session.calls;
      var answer, trace := router.Route(requests[i].methodName, requests[i].call, contract);
      SubmissionsGrow(router.lib, old(router.runtime.submissions), sent, router.runtime.submissions, anchor);
      RequestedGrows(router.lib, router.accepts, old(router.runtime.submissions), sent, router.runtime.submissions,
                     requests, i, window);
      LoggedFits(router.lib, router.accepts, logged, router.session.calls, trace, requests[i].methodName,
                 requests[i].call, window, router.session.researchRunId);
      answers := answers + [answer];
    }
    if graphFails {
      return GraphFailed(router.session.calls), answers;
    }
    ghost var logged := router.session.calls;
    router.session.BindResearchRunId(researchRunId);
    BindingFits(router.lib, logged, router.session.calls, researchRunId, window);
    AuditCleanForReplay(router.lib, router.session.calls, window);
    outcome := CloseAudit(router.lib, router.session.calls, anchor);
  }

  /** The closing audit fails exactly when some timestamp of the log lies after the anchor. */
  method CloseAudit(lib: Library, calls: seq<AuditEntry>, anchor: int) returns (outcome: ReplayResult)
    ensures outcome.Completed? <==> forall e, f :: e in calls ==> !Exceeds(lib, e, f, anchor)
    ensures outcome == Completed(calls) || (outcome.AuditFailed? && outcome.calls == calls && outcome.issues != [])
  {
    var issues := TimestampIssues(lib, calls, anchor);
    IssuesIffExceeds(lib, calls, issues, anchor);
    if issues != [] {
      return AuditFailed(calls, issues);
    }
    outcome := Completed(calls);
  }

  lemma IssuesIffExceeds(lib: Library, calls: seq<AuditEntry>, issues: seq<Finding>, anchor: int)
    requires forall f :: f in issues <==> exists i | 0 <= i < |calls| :: Reported(lib, calls[i], f, anchor)
    ensures issues == [] <==> forall e, f :: e in calls ==> !Exceeds(lib, e, f, anchor)
  {
    forall e, f | e in calls && Exceeds(lib, e, f, anchor) ensures issues != [] {
      var finding := Finding(e.vendor, e.methodName, f, FieldInstant(lib, e, f).value);
      var i :| 0 <= i < |calls| && calls[i] == e;
      assert Reported(lib, calls[i], finding, anchor);
      assert finding in issues;
    }
    if issues != [] {
      var finding := issues[0];
      assert finding in issues;
      var i :| 0 <= i < |calls| && Reported(lib, calls[i], finding, anchor);
      assert calls[i] in calls && Exceeds(lib, calls[i], finding.field, anchor);
    }
  }

  lemma StrictRefusesAll(declarations: map<string, Declaration>, methodName: string, contract: Contract)
    requires NoAsOf(declarations) && contract.strict && contract.required.AsOf?
    ensures RefusedByAll(declarations, methodName, contract)
  {
    forall vendor ensures Refuses(declarations, vendor, methodName, contract) {
      NoAsOfRefusesStrict(declarations, vendor, methodName, contract.window);
    }
  }

  lemma AuditCleanForReplay(lib: Library, calls: seq<AuditEntry>, w: DataWindow)
    requires Lawful(lib) && 1 <= w.lookbackDays <= 3650 && w.forwardDays == 0 && LogFits(lib, calls, w)
    ensures forall e, f :: e in calls ==> !Exceeds(lib, e, f, w.anchor)
  {
    AuditCleanIff(lib, calls, w);
  }

  /** A replay's settings always lead to the point-in-time path, without a forward window. */
  lemma ReplayContract(anchor: int, lookbackDays: int, strict: bool)
    ensures ContractFrom(ReplaySettings(anchor, lookbackDays, strict)) ==
            Some(Contract(DataWindow(anchor, lookbackDays, 0), AsOf, strict))
  {
  }

  lemma EmptyLogFits(lib: Library, w: DataWindow)
    ensures LogFits(lib, [], w)
  {
  }

  lemma BindingFits(lib: Library, before: seq<AuditEntry>, after: seq<AuditEntry>, id: string, w: DataWindow)
    requires LogFits(lib, before, w) && |after| == |before|
    requires id == "" ==> after == before
    requires id != "" ==> forall i | 0 <= i < |after| :: after[i] == before[i].(researchRunId := Some(id))
    ensures LogFits(lib, after, w)
  {
    forall i | 0 <= i < |after| ensures EntryFits(lib, after[i], w) {
      assert EntryFits(lib, before[i], w);
    }
  }
}
