/** `route_to_vendor_historical`: the vendor chain under a point-in-time contract, with an audit. */
module HistoricalRouting {
  import opened Text
  import opened Errors
  import opened ProviderRuntime
  import opened VendorRouting
  import opened HistoricalContract
  import opened ReplayAudit

  const OHLCV := "get_crypto_ohlcv"
  const INDICATORS := "get_indicators"

  // ----- preparing a call -----

  datatype Prepared = Ready(call: CallArgs, requestedEndTime: string) | Refused(error: Error)

  function ArgOrKeyword(call: CallArgs, index: nat, key: string): string {
    if |call.args| > index then call.args[index]
    else if key in call.kwargs then call.kwargs[key] else ""
  }

  function SetArgOrKeyword(call: CallArgs, index: nat, key: string, value: string): CallArgs {
    if |call.args| > index then call.(args := call.args[index := value])
    else call.(kwargs := call.kwargs[key := value])
  }

  function SetDefault(kwargs: map<string, string>, key: string, value: string, wanted: bool): map<string, string> {
    if !wanted || key in kwargs then kwargs else kwargs[key := value]
  }

  /** `_validate_requested_timestamp`: unlike the audit it does not strip the text. */
  predicate RequestOnTime(lib: Library, value: string, anchor: int) {
    lib.parse(value).Some? && DateOf(lib.parse(value).value) <= anchor
  }

  function PrepareDated(lib: Library, call: CallArgs, key: string, default: string, w: DataWindow): Prepared {
    var requested := ArgOrKeyword(call, 2, key);
    var call' := if requested == "" then SetArgOrKeyword(call, 2, key, default) else call;
    var value := if requested == "" then default else requested;
    if RequestOnTime(lib, value, w.anchor) then Ready(call', value)
    else Refused(Project(PolicyViolationError, "LOOKAHEAD DETECTED or unparsable timestamp"))
  }

  /** `_prepare_historical_call`; `accepts` says whether the provider takes a keyword. */
  function Prepare(
    lib: Library, accepts: (string, string) -> bool, vendor: string, methodName: string, call: CallArgs,
    w: DataWindow): Prepared
  {
    var asOf, end := lib.dateText(w.anchor), lib.dateText(w.End());
    if methodName == OHLCV then PrepareDated(lib, call, "end_date", end, w)
    else if methodName == INDICATORS then PrepareDated(lib, call, "curr_date", asOf, w)
    else
      var kwargs := SetDefault(call.kwargs, "as_of", asOf, accepts(vendor, "as_of"));
      Ready(call.(kwargs := SetDefault(kwargs, "end_time", end, accepts(vendor, "end_time"))), end)
  }

  /** A price or indicator provider is asked for nothing after the anchor. */
  predicate AsksOnTime(lib: Library, methodName: string, call: CallArgs, anchor: int) {
    && (methodName == OHLCV ==> RequestOnTime(lib, ArgOrKeyword(call, 2, "end_date"), anchor))
    && (methodName == INDICATORS ==> RequestOnTime(lib, ArgOrKeyword(call, 2, "curr_date"), anchor))
  }

  lemma PreparedAsksOnTime(
    lib: Library, accepts: (string, string) -> bool, vendor: string, methodName: string, call: CallArgs,
    w: DataWindow)
    requires Prepare(lib, accepts, vendor, methodName, call, w).Ready?
    ensures var p := Prepare(lib, accepts, vendor, methodName, call, w);
            && AsksOnTime(lib, methodName, p.call, w.anchor)
            && (p.requestedEndTime == lib.dateText(w.End()) || RequestOnTime(lib, p.requestedEndTime, w.anchor))
  {
  }

  // ----- what a provider is sent -----

  /** The date a price or indicator call asks for: the third argument or the keyword, unless blank. */
  function AskedDate(given: CallArgs, key: string, default: string): string {
    if |given.args| > 2 && given.args[2] != "" then given.args[2]
    else if |given.args| <= 2 && key in given.kwargs && given.kwargs[key] != "" then given.kwargs[key]
    else default
  }

  ghost predicate SameBeside(sent: map<string, string>, given: map<string, string>, keys: set<string>) {
    forall k | k !in keys :: (k in sent <==> k in given) && (k in given ==> sent[k] == given[k])
  }

  /** The date stands where the caller's would; everything else is the caller's. */
  ghost predicate CarriesDate(given: CallArgs, sent: CallArgs, key: string, date: string) {
    if |given.args| > 2 then
      && sent.kwargs == given.kwargs && |sent.args| == |given.args| && sent.args[2] == date
      && forall i | 0 <= i < |given.args| && i != 2 :: sent.args[i] == given.args[i]
    else
      && sent.args == given.args && SameBeside(sent.kwargs, given.kwargs, {key})
      && key in sent.kwargs && sent.kwargs[key] == date
  }

  /** A time bound is the caller's value, or else the router's if the provider takes the keyword. */
  predicate CarriesBound(given: map<string, string>, sent: map<string, string>, key: string, bound: string, taken: bool) {
    if key in given then key in sent && sent[key] == given[key]
    else (key in sent <==> taken) && (taken ==> sent[key] == bound)
  }

  /** What a provider may be sent for a call: prices up to the caller's date or the end of the window,
      indicators as of the caller's date or the anchor, and anything else with the window's bounds. */
  ghost predicate Carries(
    lib: Library, accepts: (string, string) -> bool, vendor: string, methodName: string, given: CallArgs,
    sent: CallArgs, w: DataWindow)
  {
    var asOf, end := lib.dateText(w.anchor), lib.dateText(w.anchor + w.forwardDays);
    if methodName == OHLCV then CarriesDate(given, sent, "end_date", AskedDate(given, "end_date", end))
    else if methodName == INDICATORS then CarriesDate(given, sent, "curr_date", AskedDate(given, "curr_date", asOf))
    else
      && sent.args == given.args && SameBeside(sent.kwargs, given.kwargs, {"as_of", "end_time"})
      && CarriesBound(given.kwargs, sent.kwargs, "as_of", asOf, accepts(vendor, "as_of"))
      && CarriesBound(given.kwargs, sent.kwargs, "end_time", end, accepts(vendor, "end_time"))
  }

  lemma PreparedCarries(
    lib: Library, accepts: (string, string) -> bool, vendor: string, methodName: string, call: CallArgs,
    w: DataWindow)
    requires Prepare(lib, accepts, vendor, methodName, call, w).Ready?
    ensures var p := Prepare(lib, accepts, vendor, methodName, call, w);
            && Carries(lib, accepts, vendor, methodName, call, p.call, w)
            && p.requestedEndTime ==
               if methodName == INDICATORS then AskedDate(call, "curr_date", lib.dateText(w.anchor))
               else if methodName == OHLCV then AskedDate(call, "end_date", lib.dateText(w.anchor + w.forwardDays))
               else lib.dateText(w.anchor + w.forwardDays)
  {
    assert "as_of" != "end_time" by { assert |"as_of"| != |"end_time"|; }
  }

  predicate NotAfterDay(lib: Library, text: string, day: int) {
    lib.parse(text).Some? && lib.parse(text).value / 86400 <= day
  }

  /** A call is refused only if the date it asks for does not parse or lies after the anchor, with an
      error that ends the request at once; every other method is always ready. */
  lemma ReadyIff(
    lib: Library, accepts: (string, string) -> bool, vendor: string, methodName: string, call: CallArgs,
    w: DataWindow)
    ensures var p := Prepare(lib, accepts, vendor, methodName, call, w);
            && (p.Ready? <==>
                  && (methodName == OHLCV ==>
                        NotAfterDay(lib, AskedDate(call, "end_date", lib.dateText(w.anchor + w.forwardDays)), w.anchor))
                  && (methodName == INDICATORS ==>
                        NotAfterDay(lib, AskedDate(call, "curr_date", lib.dateText(w.anchor)), w.anchor)))
            && (p.Refused? ==> p.error.Project? && p.error.cls == PolicyViolationError && !IsFallbackable(p.error))
  {
    assert |OHLCV| != |INDICATORS|;
  }

  /** Without a date of the caller's an indicator call is always ready, and a price call exactly when
      the window has no forward part. */
  lemma BlankDateReadyIff(
    lib: Library, accepts: (string, string) -> bool, vendor: string, methodName: string, call: CallArgs,
    w: DataWindow)
    requires Lawful(lib)
    requires methodName == OHLCV ==> AskedDate(call, "end_date", "") == ""
    requires methodName == INDICATORS ==> AskedDate(call, "curr_date", "") == ""
    ensures Prepare(lib, accepts, vendor, methodName, call, w).Ready? <==> methodName != OHLCV || w.forwardDays <= 0
  {
    ReadyIff(lib, accepts, vendor, methodName, call, w);
    hide Prepare;
    assert |OHLCV| != |INDICATORS|;
    assert lib.parse(lib.dateText(w.anchor)) == Some(w.anchor * DAY);
    assert lib.parse(lib.dateText(w.anchor + w.forwardDays)) == Some((w.anchor + w.forwardDays) * DAY);
    DateOfDay(w.anchor);
    DateOfDay(w.anchor + w.forwardDays);
  }

  /** Every submission from position |before| on carries what it should. */
  ghost predicate Delivered(
    lib: Library, accepts: (string, string) -> bool, before: seq<Submission>, after: seq<Submission>,
    methodName: string, call: CallArgs, w: DataWindow)
  {
    && before <= after
    && forall i | |before| <= i < |after| ::
         && after[i].methodName == methodName
         && Carries(lib, accepts, after[i].vendor, methodName, call, after[i].call, w)
  }

  /** The same of the calls made, whether or not they reached the provider. */
  ghost predicate Addressed(
    lib: Library, accepts: (string, string) -> bool, before: seq<Invocation>, after: seq<Invocation>,
    methodName: string, call: CallArgs, w: DataWindow)
  {
    && before <= after
    && forall i | |before| <= i < |after| ::
         && after[i].methodName == methodName
         && Carries(lib, accepts, after[i].vendor, methodName, call, after[i].call, w)
  }

  // ----- audit entries -----

  /** What the router may write into the log of a window. */
  ghost predicate EntryFits(lib: Library, e: AuditEntry, w: DataWindow) {
    && e.asOf == lib.dateText(w.anchor)
    && e.endTime == lib.dateText(w.End())
    && (e.requestedEndTime == lib.dateText(w.End()) || RequestOnTime(lib, e.requestedEndTime, w.anchor))
    && (e.responseMax.Some? ==>
          exists t | DateOf(t) <= w.anchor :: e.responseMax.value == lib.instantText(t))
  }

  ghost predicate LogFits(lib: Library, calls: seq<AuditEntry>, w: DataWindow) {
    forall i | 0 <= i < |calls| :: EntryFits(lib, calls[i], w)
  }

  /** The final audit finds nothing in a log the router wrote exactly when the window has no
      forward part, or nothing was logged. A replay's window has none. */
  lemma AuditCleanIff(lib: Library, calls: seq<AuditEntry>, w: DataWindow)
    requires Lawful(lib) && ValidWindow(w) && LogFits(lib, calls, w)
    ensures (forall e, f :: e in calls ==> !Exceeds(lib, e, f, w.anchor)) <==> w.forwardDays == 0 || calls == []
  {
    forall e, f | e in calls && w.forwardDays == 0 ensures !Exceeds(lib, e, f, w.anchor) {
      EntryClean(lib, e, w, f);
    }
    if w.forwardDays > 0 && calls != [] {
      var e := calls[0];
      assert EntryFits(lib, e, w);
      EndTimeExceeds(lib, e, w);
      assert e in calls;
    }
  }

  lemma ParseOfExact(lib: Library, text: string)
    requires Lawful(lib) && lib.parse(text).Some?
    ensures ParseTimestamp(lib, text) == lib.parse(text)
  {
  }

  lemma DateOfDay(d: int)
    ensures DateOf(d * DAY) == d
  {
  }

  lemma EntryClean(lib: Library, e: AuditEntry, w: DataWindow, f: Field)
    requires Lawful(lib) && EntryFits(lib, e, w) && w.forwardDays == 0
    ensures !Exceeds(lib, e, f, w.anchor)
  {
    hide Strip;
    assert lib.parse(lib.dateText(w.anchor)) == Some(w.anchor * DAY);
    DateOfDay(w.anchor);
    ParseOfExact(lib, lib.dateText(w.anchor));
    match f
    case RequestedEndTime =>
      if e.requestedEndTime != lib.dateText(w.anchor) {
        ParseOfExact(lib, e.requestedEndTime);
      }
    case ResponseMaxTimestamp =>
      if e.responseMax.Some? {
        var t :| DateOf(t) <= w.anchor && e.responseMax.value == lib.instantText(t);
        assert lib.parse(lib.instantText(t)) == Some(t);
        ParseOfExact(lib, lib.instantText(t));
      }
    case _ =>
  }

  lemma EndTimeExceeds(lib: Library, e: AuditEntry, w: DataWindow)
    requires Lawful(lib) && EntryFits(lib, e, w) && w.forwardDays > 0
    ensures Exceeds(lib, e, EndTime, w.anchor)
  {
    assert lib.parse(lib.dateText(w.End())) == Some(w.End() * DAY);
    DateOfDay(w.End());
    ParseOfExact(lib, lib.dateText(w.End()));
  }

  // ----- the router -----

  datatype Contract = Contract(window: DataWindow, required: Semantics, strict: bool)

  /** The visits that leave an audit entry. */
  function Reached(trace: seq<Visit>): seq<Visit> {
    if trace == [] then []
    else
      var front, last := Reached(trace[..|trace| - 1]), trace[|trace| - 1];
      if last.Disabled? || last.Unsupported? then front else front + [last]
  }

  function StatusOf(v: Visit): Status {
    match v
    case Rejected(_) => StatusRejected
    case Succeeded(_, _) => StatusSuccess
    case _ => StatusFailed
  }

  /** The entry a visit leaves behind, before the session adds its run id. */
  function EntryOf(
    lib: Library, accepts: (string, string) -> bool, v: Visit, methodName: string, call: CallArgs, w: DataWindow): AuditEntry
  {
    var prepared := Prepare(lib, accepts, v.vendor, methodName, call, w);
    var latest := if v.Succeeded? then ResponseMax(lib, v.response) else None;
    AuditEntry(
      v.vendor, methodName, StatusOf(v), lib.dateText(w.anchor), lib.dateText(w.End()),
      if v.Succeeded? && prepared.Ready? then prepared.requestedEndTime else lib.dateText(w.End()),
      if latest.Some? then Some(lib.instantText(latest.value)) else None,
      None)
  }

  /** The entry names the vendor, the method, the window and how the visit ended, and of a success
      also the date that was asked for and the latest timestamp that came back. */
  lemma EntryShows(
    lib: Library, accepts: (string, string) -> bool, v: Visit, methodName: string, call: CallArgs, w: DataWindow)
    requires v.Succeeded? ==> Prepare(lib, accepts, v.vendor, methodName, call, w).Ready?
    ensures var e := EntryOf(lib, accepts, v, methodName, call, w);
            && e.vendor == v.vendor && e.methodName == methodName
            && e.asOf == lib.dateText(w.anchor) && e.endTime == lib.dateText(w.anchor + w.forwardDays)
            && (e.status == StatusSuccess <==> v.Succeeded?) && (e.status == StatusRejected <==> v.Rejected?)
            && e.requestedEndTime ==
               (if v.Succeeded? && methodName == INDICATORS then AskedDate(call, "curr_date", lib.dateText(w.anchor))
                else if v.Succeeded? && methodName == OHLCV then AskedDate(call, "end_date", lib.dateText(w.anchor + w.forwardDays))
                else lib.dateText(w.anchor + w.forwardDays))
            && (e.responseMax.Some? <==> v.Succeeded? && ResponseMax(lib, v.response).Some?)
            && (e.responseMax.Some? ==> e.responseMax.value == lib.instantText(ResponseMax(lib, v.response).value))
  {
    if v.Succeeded? {
      PreparedCarries(lib, accepts, v.vendor, methodName, call, w);
    }
    hide Prepare, ResponseMax, AskedDate;
    assert |OHLCV| != |INDICATORS|;
  }

  lemma EntryOfFits(
    lib: Library, accepts: (string, string) -> bool, v: Visit, methodName: string, call: CallArgs, w: DataWindow,
    runId: Option<string>)
    requires v.Succeeded? ==> OnTime(lib, v.response, w.anchor)
    ensures EntryFits(lib, EntryOf(lib, accepts, v, methodName, call, w).(researchRunId := runId), w)
  {
    var prepared := Prepare(lib, accepts, v.vendor, methodName, call, w);
    if v.Succeeded? && prepared.Ready? {
      PreparedAsksOnTime(lib, accepts, v.vendor, methodName, call, w);
    }
    hide Prepare, ResponseMax;
    var latest := if v.Succeeded? then ResponseMax(lib, v.response) else None;
    if latest.Some? {
      assert DateOf(latest.value) <= w.anchor;
    }
  }

  /** What the router makes of a provider's answer: a value from after the anchor is an error. */
  function Judged(lib: Library, vendor: string, result: CallResult, anchor: int): Visit {
    match result
    case Err(e) => Failed(vendor, e)
    case Ok(r) =>
      if OnTime(lib, r, anchor) then Succeeded(vendor, r)
      else Failed(vendor, Project(PolicyViolationError, "LOOKAHEAD DETECTED"))
  }

  /** The invocations one visit stands for: none if the vendor was passed over, rejected or asked
      for the future, else one, on the prepared arguments, whose answer decided the visit. */
  ghost predicate Explains(
    lib: Library, accepts: (string, string) -> bool, v: Visit, made: seq<Invocation>, methodName: string,
    call: CallArgs, w: DataWindow)
  {
    if v.Disabled? || v.Unsupported? || v.Rejected? then made == []
    else
      match Prepare(lib, accepts, v.vendor, methodName, call, w)
      case Refused(error) => made == [] && v == Failed(v.vendor, error)
      case Ready(prepared, _) =>
        && |made| == 1
        && made[0] == Invocation(v.vendor, methodName, prepared, made[0].result)
        && v == Judged(lib, v.vendor, made[0].result, w.anchor)
  }

  /** The same for a whole trace, visit by visit. */
  ghost predicate AllExplained(
    lib: Library, accepts: (string, string) -> bool, trace: seq<Visit>, made: seq<Invocation>, methodName: string,
    call: CallArgs, w: DataWindow)
    decreases |trace|
  {
    if trace == [] then made == []
    else
      exists k | 0 <= k <= |made| ::
        && AllExplained(lib, accepts, trace[..|trace| - 1], made[..k], methodName, call, w)
        && Explains(lib, accepts, trace[|trace| - 1], made[k..], methodName, call, w)
  }

  /** Every submission from position `from` on asks for nothing after the anchor. */
  ghost predicate SubmissionsOnTime(lib: Library, submissions: seq<Submission>, from: nat, anchor: int) {
    forall i | from <= i < |submissions| ::
      AsksOnTime(lib, submissions[i].methodName, submissions[i].call, anchor)
  }

  /** What a run of the vendor loop may add to the submissions. */
  ghost predicate Sent(lib: Library, before: seq<Submission>, after: seq<Submission>, anchor: int) {
    before <= after && SubmissionsOnTime(lib, after, |before|, anchor)
  }

  /** What a run of the vendor loop adds to the audit log: one entry per vendor reached, in order. */
  ghost predicate Logged(
    lib: Library, accepts: (string, string) -> bool, before: seq<AuditEntry>, after: seq<AuditEntry>,
    trace: seq<Visit>, methodName: string, call: CallArgs, w: DataWindow, runId: Option<string>)
  {
    && |after| == |before| + |Reached(trace)| && before <= after
    && (forall i | 0 <= i < |Reached(trace)| ::
          after[|before| + i] ==
          EntryOf(lib, accepts, Reached(trace)[i], methodName, call, w).(researchRunId := runId))
    && (forall i | 0 <= i < |Reached(trace)| && Reached(trace)[i].Succeeded? ::
          OnTime(lib, Reached(trace)[i].response, w.anchor))
  }

  /** What a run of the vendor loop adds to the invocations. */
  ghost predicate Invoked(
    lib: Library, accepts: (string, string) -> bool, before: seq<Invocation>, after: seq<Invocation>,
    trace: seq<Visit>, methodName: string, call: CallArgs, w: DataWindow)
  {
    before <= after && AllExplained(lib, accepts, trace, after[|before|..], methodName, call, w)
  }

  predicate Refuses(declarations: map<string, Declaration>, vendor: string, methodName: string, contract: Contract) {
    RequestIssues(declarations, vendor, methodName, contract.window, contract.required, !contract.strict) != []
  }

  ghost predicate RefusedByAll(declarations: map<string, Declaration>, methodName: string, contract: Contract) {
    forall vendor :: Refuses(declarations, vendor, methodName, contract)
  }

  lemma RefusedByOne(declarations: map<string, Declaration>, methodName: string, contract: Contract, vendor: string)
    requires RefusedByAll(declarations, methodName, contract)
    ensures Refuses(declarations, vendor, methodName, contract)
  {
  }

  class HistoricalRouter {
    const catalogue: Catalogue
    const declarations: map<string, Declaration>
    const lib: Library
    const accepts: (string, string) -> bool
    const runtime: Runtime
    const session: AuditSession

    constructor (
      catalogue: Catalogue, declarations: map<string, Declaration>, lib: Library,
      accepts: (string, string) -> bool, runtime: Runtime, session: AuditSession)
      ensures this.catalogue == catalogue && this.declarations == declarations && this.lib == lib
      ensures this.accepts == accepts && this.runtime == runtime && this.session == session
    {
      this.catalogue, this.declarations, this.lib, this.accepts := catalogue, declarations, lib, accepts;
      this.runtime, this.session := runtime, session;
    }

    /** `_record_historical_call`. */
    method RecordCall(
      vendor: string, methodName: string, w: DataWindow, status: Status, requested: Option<string>,
      latest: Option<int>)
      modifies session`calls
      ensures session.calls == old(session.calls) + [
        AuditEntry(
          vendor, methodName, status, lib.dateText(w.anchor), lib.dateText(w.End()),
          if requested.Some? then requested.value else lib.dateText(w.End()),
          if latest.Some? then Some(lib.instantText(latest.value)) else None,
          session.researchRunId)]
    {
      var entry := AuditEntry(
        vendor, methodName, status, lib.dateText(w.anchor), lib.dateText(w.End()),
        if requested.Some? then requested.value else lib.dateText(w.End()),
        if latest.Some? then Some(lib.instantText(latest.value)) else None,
        None);
      session.Record(entry);
    }

    /** Tries one vendor under the contract and writes its audit entry. */
    method TryVendor(vendor: string, methodName: string, call: CallArgs, contract: Contract) returns (visit: Visit)
      modifies runtime, session`calls
      ensures visit.vendor == vendor
      ensures visit.Disabled? <==> vendor in catalogue.disabled
      ensures visit.Unsupported? <==> vendor !in catalogue.disabled && vendor !in Available(catalogue, methodName)
      ensures visit.Rejected? <==>
                && vendor !in catalogue.disabled && vendor in Available(catalogue, methodName)
                && Refuses(declarations, vendor, methodName, contract)
      ensures visit.Succeeded? ==> OnTime(lib, visit.response, contract.window.anchor)
      ensures old(runtime.invocations) <= runtime.invocations
      ensures Explains(lib, accepts, visit, runtime.invocations[|old(runtime.invocations)|..], methodName, call, contract.window)
      ensures visit.Disabled? || visit.Unsupported? || visit.Rejected? ==>
                runtime.submissions == old(runtime.submissions)
      ensures Sent(lib, old(runtime.submissions), runtime.submissions, contract.window.anchor)
      ensures Delivered(lib, accepts, old(runtime.submissions), runtime.submissions, methodName, call, contract.window)
      ensures Addressed(lib, accepts, old(runtime.invocations), runtime.invocations, methodName, call, contract.window)
      ensures session.calls == old(session.calls) +
              if visit.Disabled? || visit.Unsupported? then []
              else [EntryOf(lib, accepts, visit, methodName, call, contract.window).(researchRunId := session.researchRunId)]
    {
      var w := contract.window;
      hide ResponseMax, Appends, Resilient, RequestIssues, Carries;
      if vendor in catalogue.disabled {
        return Disabled(vendor);
      }
      if vendor !in Available(catalogue, methodName) {
        return Unsupported(vendor);
      }
      var issues := ValidateRequest(declarations, vendor, methodName, w, contract.required, !contract.strict);
      if issues != [] {
        RecordCall(vendor, methodName, w, StatusRejected, None, None);
        return Rejected(vendor);
      }
      match Prepare(lib, accepts, vendor, methodName, call, w) {
        case Refused(error) =>
          visit := Failed(vendor, error);
          RecordCall(vendor, methodName, w, StatusFailed, None, None);
        case Ready(prepared, requested) =>
          visit := CallPrepared(vendor, methodName, call, prepared, requested, w);
      }
    }

    /** The call itself, once its arguments are prepared. */
    method CallPrepared(
      vendor: string, methodName: string, call: CallArgs, prepared: CallArgs, requested: string, w: DataWindow)
      returns (visit: Visit)
      requires Prepare(lib, accepts, vendor, methodName, call, w) == Ready(prepared, requested)
      modifies runtime, session`calls
      ensures visit.vendor == vendor && (visit.Failed? || visit.Succeeded?)
      ensures visit.Succeeded? ==> OnTime(lib, visit.response, w.anchor)
      ensures old(runtime.invocations) <= runtime.invocations
      ensures Explains(lib, accepts, visit, runtime.invocations[|old(runtime.invocations)|..], methodName, call, w)
      ensures Sent(lib, old(runtime.submissions), runtime.submissions, w.anchor)
      ensures Delivered(lib, accepts, old(runtime.submissions), runtime.submissions, methodName, call, w)
      ensures Addressed(lib, accepts, old(runtime.invocations), runtime.invocations, methodName, call, w)
      ensures session.calls == old(session.calls) +
              [EntryOf(lib, accepts, visit, methodName, call, w).(researchRunId := session.researchRunId)]
    {
      PreparedAsksOnTime(lib, accepts, vendor, methodName, call, w);
      PreparedCarries(lib, accepts, vendor, methodName, call, w);
      hide Prepare, AsksOnTime, Carries, ResponseMax, Resilient, RequestOnTime;
      var result, made := runtime.Invoke(vendor, methodName, prepared, catalogue.runtime);
      AppendsSent(lib, old(runtime.submissions), runtime.submissions, Submission(vendor, methodName, prepared), made, w.anchor);
      assert runtime.invocations[|old(runtime.invocations)|..] == [Invocation(vendor, methodName, prepared, result)];
      match result {
        case Err(error) =>
          visit := Failed(vendor, error);
          RecordCall(vendor, methodName, w, StatusFailed, None, None);
        case Ok(response) =>
          if OnTime(lib, response, w.anchor) {
            visit := Succeeded(vendor, response);
            RecordCall(vendor, methodName, w, StatusSuccess, Some(requested), ResponseMax(lib, response));
          } else {
            visit := Failed(vendor, Project(PolicyViolationError, "LOOKAHEAD DETECTED"));
            RecordCall(vendor, methodName, w, StatusFailed, None, None);
          }
      }
    }

    /** The vendor loop of `route_to_vendor_historical`. */
    method Route(methodName: string, call: CallArgs, contract: Contract)
      returns (result: CallResult, trace: seq<Visit>)
      modifies runtime, session`calls
      ensures result.Ok? ==> OnTime(lib, result.response, contract.window.anchor)
      ensures Sent(lib, old(runtime.submissions), runtime.submissions, contract.window.anchor)
      ensures Delivered(lib, accepts, old(runtime.submissions), runtime.submissions, methodName, call, contract.window)
      ensures Addressed(lib, accepts, old(runtime.invocations), runtime.invocations, methodName, call, contract.window)
      ensures Logged(lib, accepts, old(session.calls), session.calls, trace, methodName, call, contract.window, session.researchRunId)
      ensures Invoked(lib, accepts, old(runtime.invocations), runtime.invocations, trace, methodName, call, contract.window)
      ensures RefusedByAll(declarations, methodName, contract) ==> runtime.submissions == old(runtime.submissions)
      ensures methodName !in catalogue.categorised ==> trace == [] && result == Err(UnknownMethod(methodName))
      ensures methodName in catalogue.categorised ==>
                var chain := ChainFor(catalogue, methodName);
                && FollowsChain(trace, chain, catalogue, methodName)
                && Conclusive(trace, chain, methodName, contract.strict, result)
    {
      hide *;
      trace := [];
      var w := contract.window;
      var chain := ChainFor(catalogue, methodName);
      LoopBegins(chain, catalogue, methodName, contract.strict, [], call);
      NothingSent(lib, runtime.submissions, w.anchor);
      NothingDelivered(lib, accepts, runtime.submissions, runtime.invocations, methodName, call, w);
      NothingLogged(lib, accepts, session.calls, methodName, call, w, session.researchRunId);
      NothingInvoked(lib, accepts, runtime.invocations, methodName, call, w);
      if methodName !in catalogue.categorised {
        return Err(UnknownMethod(methodName)), [];
      }
      for i := 0 to |chain|
        invariant |trace| == i && Underway(trace, chain, catalogue, methodName, contract.strict)
        invariant Sent(lib, old(runtime.submissions), runtime.submissions, w.anchor)
        invariant Delivered(lib, accepts, old(runtime.submissions), runtime.submissions, methodName, call, w)
        invariant Addressed(lib, accepts, old(runtime.invocations), runtime.invocations, methodName, call, w)
        invariant RefusedByAll(declarations, methodName, contract) ==> runtime.submissions == old(runtime.submissions)
        invariant Logged(lib, accepts, old(session.calls), session.calls, trace, methodName, call, w, session.researchRunId)
        invariant Invoked(lib, accepts, old(runtime.invocations), runtime.invocations, trace, methodName, call, w)
      {
        ghost var sent, logged, called := runtime.submissions, session.calls, runtime.invocations;
        var visit := TryVendor(chain[i], methodName, call, contract);
        if RefusedByAll(declarations, methodName, contract) {
          RefusedByOne(declarations, methodName, contract, chain[i]);
        }
        LoopStep(trace, visit, chain, catalogue, methodName, contract.strict);
        SubmissionsGrow(lib, old(runtime.submissions), sent, runtime.submissions, w.anchor);
        DeliveredGrows(lib, accepts, old(runtime.submissions), sent, runtime.submissions, methodName, call, w);
        AddressedGrows(lib, accepts, old(runtime.invocations), called, runtime.invocations, methodName, call, w);
        LogGrows(lib, accepts, old(session.calls), logged, trace, visit, methodName, call, w, session.researchRunId);
        InvokedGrows(lib, accepts, old(runtime.invocations), called, runtime.invocations, trace, visit, methodName, call, w);
        trace := trace + [visit];
        if visit.Succeeded? {
          return Ok(visit.response), trace;
        }
        if visit.Rejected? && contract.strict {
          return Err(StrictRefusal()), trace;
        }
        if visit.Failed? && !IsFallbackable(visit.error) {
          return Err(visit.error), trace;
        }
      }
      LoopEnds(trace, chain, catalogue, methodName, contract.strict);
      result := Err(NoVendor(methodName));
    }
  }

  lemma NothingSent(lib: Library, submissions: seq<Submission>, anchor: int)
    ensures Sent(lib, submissions, submissions, anchor)
  {
  }

  lemma NothingDelivered(
    lib: Library, accepts: (string, string) -> bool, submissions: seq<Submission>, made: seq<Invocation>,
    methodName: string, call: CallArgs, w: DataWindow)
    ensures Delivered(lib, accepts, submissions, submissions, methodName, call, w)
    ensures Addressed(lib, accepts, made, made, methodName, call, w)
  {
  }

  lemma DeliveredGrows(
    lib: Library, accepts: (string, string) -> bool, first: seq<Submission>, before: seq<Submission>,
    after: seq<Submission>, methodName: string, call: CallArgs, w: DataWindow)
    requires Delivered(lib, accepts, first, before, methodName, call, w)
    requires Delivered(lib, accepts, before, after, methodName, call, w)
    ensures Delivered(lib, accepts, first, after, methodName, call, w)
  {
    hide Carries;
    assert forall i | 0 <= i < |before| :: after[i] == before[i];
  }

  lemma AddressedGrows(
    lib: Library, accepts: (string, string) -> bool, first: seq<Invocation>, before: seq<Invocation>,
    after: seq<Invocation>, methodName: string, call: CallArgs, w: DataWindow)
    requires Addressed(lib, accepts, first, before, methodName, call, w)
    requires Addressed(lib, accepts, before, after, methodName, call, w)
    ensures Addressed(lib, accepts, first, after, methodName, call, w)
  {
    hide Carries;
    assert forall i | 0 <= i < |before| :: after[i] == before[i];
  }

  lemma NothingLogged(
    lib: Library, accepts: (string, string) -> bool, calls: seq<AuditEntry>, methodName: string, call: CallArgs,
    w: DataWindow, runId: Option<string>)
    ensures Logged(lib, accepts, calls, calls, [], methodName, call, w, runId)
  {
  }

  lemma NothingInvoked(
    lib: Library, accepts: (string, string) -> bool, made: seq<Invocation>, methodName: string, call: CallArgs,
    w: DataWindow)
    ensures Invoked(lib, accepts, made, made, [], methodName, call, w)
  {
    assert made[|made|..] == [];
  }

  lemma AppendsSent(
    lib: Library, before: seq<Submission>, after: seq<Submission>, s: Submission, made: nat, anchor: int)
    requires Appends(before, after, s, made) && AsksOnTime(lib, s.methodName, s.call, anchor)
    ensures Sent(lib, before, after, anchor)
  {
    hide AsksOnTime;
  }

  lemma SubmissionsGrow(
    lib: Library, first: seq<Submission>, before: seq<Submission>, after: seq<Submission>, anchor: int)
    requires Sent(lib, first, before, anchor) && Sent(lib, before, after, anchor)
    ensures Sent(lib, first, after, anchor)
  {
    forall i | |first| <= i < |after| ensures AsksOnTime(lib, after[i].methodName, after[i].call, anchor) {
      if i < |before| {
        assert after[i] == before[i];
      }
    }
  }

  lemma LogGrows(
    lib: Library, accepts: (string, string) -> bool, first: seq<AuditEntry>, before: seq<AuditEntry>,
    trace: seq<Visit>, visit: Visit, methodName: string, call: CallArgs, w: DataWindow, runId: Option<string>)
    requires Logged(lib, accepts, first, before, trace, methodName, call, w, runId)
    requires visit.Succeeded? ==> OnTime(lib, visit.response, w.anchor)
    ensures var after := before +
              if visit.Disabled? || visit.Unsupported? then []
              else [EntryOf(lib, accepts, visit, methodName, call, w).(researchRunId := runId)];
            Logged(lib, accepts, first, after, trace + [visit], methodName, call, w, runId)
  {
    hide EntryOf, OnTime;
    ReachedStep(trace, visit);
  }

  lemma ReachedStep(trace: seq<Visit>, visit: Visit)
    ensures Reached(trace + [visit]) ==
            if visit.Disabled? || visit.Unsupported? then Reached(trace) else Reached(trace) + [visit]
  {
    assert (trace + [visit])[..|trace|] == trace;
  }

  lemma InvokedGrows(
    lib: Library, accepts: (string, string) -> bool, first: seq<Invocation>, before: seq<Invocation>,
    after: seq<Invocation>, trace: seq<Visit>, visit: Visit, methodName: string, call: CallArgs, w: DataWindow)
    requires Invoked(lib, accepts, first, before, trace, methodName, call, w) && before <= after
    requires Explains(lib, accepts, visit, after[|before|..], methodName, call, w)
    ensures Invoked(lib, accepts, first, after, trace + [visit], methodName, call, w)
  {
    hide Explains;
    var made, k := after[|first|..], |before| - |first|;
    assert (trace + [visit])[..|trace|] == trace;
    assert made[..k] == before[|first|..] && made[k..] == after[|before|..];
  }

  /** Everything the router logs fits the window. */
  lemma LoggedFits(
    lib: Library, accepts: (string, string) -> bool, before: seq<AuditEntry>, after: seq<AuditEntry>,
    trace: seq<Visit>, methodName: string, call: CallArgs, w: DataWindow, runId: Option<string>)
    requires Logged(lib, accepts, before, after, trace, methodName, call, w, runId) && LogFits(lib, before, w)
    ensures LogFits(lib, after, w)
  {
    hide EntryFits, OnTime, EntryOf;
    forall i | 0 <= i < |after| ensures EntryFits(lib, after[i], w) {
      if i < |before| {
        assert after[i] == before[i];
      } else {
        var v := Reached(trace)[i - |before|];
        assert after[|before| + (i - |before|)] == after[i];
        EntryOfFits(lib, accepts, v, methodName, call, w, runId);
      }
    }
  }
}
