/** The audit log of a historical replay and the timestamps found in provider output. */
module ReplayAudit {
  import opened Text
  import opened ProviderRuntime
  import opened HistoricalContract

  /** What the code takes from the library: ISO parsing to UTC instants in seconds, ISO formatting,
      CSV reading and the search for date-like substrings. */
  datatype Library = Library(
    parse: string -> Option<int>,
    dateText: int -> string,
    instantText: int -> string,
    csv: string -> CsvRead,
    dates: string -> seq<string>)

  /** A row maps the column names it has a cell for to their text. */
  datatype CsvRead = CsvError | Csv(fields: seq<string>, rows: seq<map<string, string>>)

  const DAY := 86400

  function DateOf(instant: int): int {
    instant / DAY
  }

  /** Formatting is undone by parsing, and text with outer spaces does not parse. */
  ghost predicate Lawful(lib: Library) {
    && (forall d :: lib.parse(lib.dateText(d)) == Some(d * DAY))
    && (forall t :: lib.parse(lib.instantText(t)) == Some(t))
    && (forall s :: lib.parse(s).Some? ==> s != "" && Strip(s) == s)
  }

  /** `_parse_timestamp`: the text is stripped first. */
  function ParseTimestamp(lib: Library, text: string): Option<int> {
    if Strip(text) == "" then None else lib.parse(Strip(text))
  }

  function Max(a: int, b: int): int {
    if a >= b then a else b
  }

  /** The latest of the texts that parse. */
  function LatestOf(lib: Library, texts: seq<string>): Option<int> {
    if texts == [] then None
    else
      match (ParseTimestamp(lib, texts[0]), LatestOf(lib, texts[1..]))
      case (None, rest) => rest
      case (Some(t), None) => Some(t)
      case (Some(t), Some(u)) => Some(Max(t, u))
  }

  predicate IsTimestampField(name: string) {
    Lower(name) in {"timestamp", "date", "time"}
  }

  function TimestampField(fields: seq<string>): Option<string> {
    if fields == [] then None
    else if IsTimestampField(fields[0]) then Some(fields[0])
    else TimestampField(fields[1..])
  }

  function Column(rows: seq<map<string, string>>, field: string): seq<string> {
    if rows == [] then []
    else (if field in rows[0] then [rows[0][field]] else []) + Column(rows[1..], field)
  }

  /** The texts of the first timestamp column, if the output is CSV with one. */
  function TimestampColumn(lib: Library, text: string): seq<string> {
    match lib.csv(text)
    case CsvError => []
    case Csv(fields, rows) =>
      match TimestampField(fields)
      case None => []
      case Some(field) => Column(rows, field)
  }

  /** `extract_response_max_timestamp`: the timestamp column if anything in it parses, else every
      date-like substring. */
  function ResponseMax(lib: Library, value: Response): Option<int> {
    match value
    case Moment(t) => Some(t)
    case Prose(raw) =>
      var text := Strip(raw);
      if text == "" then None
      else
        var column := LatestOf(lib, TimestampColumn(lib, text));
        if column.Some? then column else LatestOf(lib, lib.dates(text))
    case _ => None
  }

  lemma {:induction false} LatestIsMax(lib: Library, texts: seq<string>)
    ensures forall i | 0 <= i < |texts| && ParseTimestamp(lib, texts[i]).Some? ::
              LatestOf(lib, texts).Some? && ParseTimestamp(lib, texts[i]).value <= LatestOf(lib, texts).value
    ensures LatestOf(lib, texts).Some? ==>
              exists i | 0 <= i < |texts| :: ParseTimestamp(lib, texts[i]) == LatestOf(lib, texts)
  {
    if texts != [] {
      var rest := texts[1..];
      LatestIsMax(lib, rest);
      forall i | 0 <= i < |texts| && ParseTimestamp(lib, texts[i]).Some?
        ensures LatestOf(lib, texts).Some? && ParseTimestamp(lib, texts[i]).value <= LatestOf(lib, texts).value
      {
        if i > 0 {
          assert texts[i] == rest[i - 1];
        }
      }
      if LatestOf(lib, texts).Some? && LatestOf(lib, texts) != ParseTimestamp(lib, texts[0]) {
        var i :| 0 <= i < |rest| && ParseTimestamp(lib, rest[i]) == LatestOf(lib, rest);
        assert texts[i + 1] == rest[i];
      }
    }
  }

  /** The text, outer spaces aside, is this instant. */
  predicate Names(lib: Library, text: string, t: int) {
    Strip(text) != "" && lib.parse(Strip(text)) == Some(t)
  }

  ghost predicate NamesAny(lib: Library, texts: seq<string>) {
    exists i, t | 0 <= i < |texts| :: Names(lib, texts[i], t)
  }

  ghost predicate IsLatest(lib: Library, texts: seq<string>, t: int) {
    && (exists i | 0 <= i < |texts| :: Names(lib, texts[i], t))
    && forall i, u | 0 <= i < |texts| && Names(lib, texts[i], u) :: u <= t
  }

  /** The cell stands in row j of the first column named timestamp, date or time, in any case. */
  predicate CellAt(lib: Library, text: string, i: nat, j: nat, cell: string) {
    && lib.csv(text).Csv? && i < |lib.csv(text).fields| && j < |lib.csv(text).rows|
    && Lower(lib.csv(text).fields[i]) in ["timestamp", "date", "time"]
    && (forall k | 0 <= k < i :: Lower(lib.csv(text).fields[k]) !in ["timestamp", "date", "time"])
    && lib.csv(text).fields[i] in lib.csv(text).rows[j] && lib.csv(text).rows[j][lib.csv(text).fields[i]] == cell
  }

  lemma {:induction false} TimestampFieldAt(fields: seq<string>) returns (i: nat)
    ensures i <= |fields| && TimestampField(fields) == if i == |fields| then None else Some(fields[i])
    ensures forall k | 0 <= k < i :: Lower(fields[k]) !in ["timestamp", "date", "time"]
    ensures i < |fields| ==> Lower(fields[i]) in ["timestamp", "date", "time"]
  {
    hide Lower;
    if fields == [] || IsTimestampField(fields[0]) {
      i := 0;
    } else {
      var k := TimestampFieldAt(fields[1..]);
      i := k + 1;
      forall j | 0 <= j < i ensures Lower(fields[j]) !in ["timestamp", "date", "time"] {
        assert j > 0 ==> fields[1..][j - 1] == fields[j];
      }
    }
  }

  lemma {:induction false} ColumnMeans(rows: seq<map<string, string>>, field: string, cell: string)
    ensures cell in Column(rows, field) <==> exists j | 0 <= j < |rows| :: field in rows[j] && rows[j][field] == cell
  {
    if rows != [] {
      var rest := rows[1..];
      ColumnMeans(rest, field, cell);
      if j :| 0 <= j < |rows| && field in rows[j] && rows[j][field] == cell {
        assert j > 0 ==> rest[j - 1] == rows[j];
      }
      if j :| 0 <= j < |rest| && field in rest[j] && rest[j][field] == cell {
        assert rows[j + 1] == rest[j];
      }
    }
  }

  /** The timestamp column holds exactly the cells of that column. */
  lemma TimestampColumnMeans(lib: Library, text: string, cell: string)
    ensures cell in TimestampColumn(lib, text) <==> exists i, j :: CellAt(lib, text, i, j, cell)
  {
    hide Lower, TimestampField, Column;
    if lib.csv(text).Csv? {
      var fields, rows := lib.csv(text).fields, lib.csv(text).rows;
      var i := TimestampFieldAt(fields);
      if i < |fields| {
        ColumnMeans(rows, fields[i], cell);
        if cell in Column(rows, fields[i]) {
          var j :| 0 <= j < |rows| && fields[i] in rows[j] && rows[j][fields[i]] == cell;
          assert CellAt(lib, text, i, j, cell);
        }
        if k, j :| CellAt(lib, text, k, j, cell) {
          assert k == i;
        }
      }
    }
  }

  lemma LatestIfNamed(lib: Library, texts: seq<string>)
    ensures LatestOf(lib, texts).Some? <==> NamesAny(lib, texts)
    ensures LatestOf(lib, texts).Some? ==> IsLatest(lib, texts, LatestOf(lib, texts).value)
  {
    LatestIsMax(lib, texts);
    hide Strip;
    forall i, u | 0 <= i < |texts| && Names(lib, texts[i], u)
      ensures LatestOf(lib, texts).Some? && u <= LatestOf(lib, texts).value
    {
      assert ParseTimestamp(lib, texts[i]) == Some(u);
    }
    if LatestOf(lib, texts).Some? {
      var i :| 0 <= i < |texts| && ParseTimestamp(lib, texts[i]) == LatestOf(lib, texts);
      assert Names(lib, texts[i], LatestOf(lib, texts).value);
    }
  }

  /** The timestamp of an output: a moment's own instant; of a text the latest in the timestamp
      column, or, if nothing there is a timestamp, the latest of the dates found in the text; none
      exactly if nothing parses. */
  lemma ResponseMaxMeans(lib: Library, value: Response)
    ensures value.Moment? ==> ResponseMax(lib, value) == Some(value.instant)
    ensures value.Nothing? || value.Other? ==> ResponseMax(lib, value) == None
    ensures value.Prose? ==>
              var text, r := Strip(value.text), ResponseMax(lib, value);
              var column, found := TimestampColumn(lib, text), lib.dates(text);
              && (r.None? <==> text == "" || (!NamesAny(lib, column) && !NamesAny(lib, found)))
              && (r.Some? ==> IsLatest(lib, if NamesAny(lib, column) then column else found, r.value))
  {
    hide Strip, LatestOf, TimestampColumn;
    if value.Prose? {
      LatestIfNamed(lib, TimestampColumn(lib, Strip(value.text)));
      LatestIfNamed(lib, lib.dates(Strip(value.text)));
    }
  }

  /** The latest timestamp found lies on or before the anchor, if any was found. */
  predicate OnTime(lib: Library, value: Response, anchor: int) {
    ResponseMax(lib, value).Some? ==> DateOf(ResponseMax(lib, value).value) <= anchor
  }

  /** Any instant up to the last second of the anchor's day is in time, and none after. */
  lemma OnTimeIff(lib: Library, value: Response, anchor: int)
    ensures OnTime(lib, value, anchor) <==>
            forall t :: ResponseMax(lib, value) == Some(t) ==> t < (anchor + 1) * 86400
  {
    hide ResponseMax;
  }

  /** Then so does every timestamp of the output's timestamp column. */
  lemma OnTimeColumn(lib: Library, raw: string, anchor: int)
    requires OnTime(lib, Prose(raw), anchor) && Strip(raw) != ""
    ensures forall i | 0 <= i < |TimestampColumn(lib, Strip(raw))| &&
                       ParseTimestamp(lib, TimestampColumn(lib, Strip(raw))[i]).Some? ::
              DateOf(ParseTimestamp(lib, TimestampColumn(lib, Strip(raw))[i]).value) <= anchor
  {
    LatestIsMax(lib, TimestampColumn(lib, Strip(raw)));
  }

  // ----- the log -----

  datatype Status = StatusRejected | StatusFailed | StatusSuccess

  datatype AuditEntry = AuditEntry(
    vendor: string,
    methodName: string,
    status: Status,
    asOf: string,
    endTime: string,
    requestedEndTime: string,
    responseMax: Option<string>,
    researchRunId: Option<string>)

  class AuditSession {
    const anchor: int
    var researchRunId: Option<string>
    var calls: seq<AuditEntry>

    constructor (anchor: int)
      ensures this.anchor == anchor && calls == [] && researchRunId == None
    {
      this.anchor := anchor;
      researchRunId, calls := None, [];
    }

    /** `record`: the session supplies the run id. */
    method Record(entry: AuditEntry)
      modifies this`calls
      ensures calls == old(calls) + [entry.(researchRunId := researchRunId)]
    {
      calls := calls + [entry.(researchRunId := researchRunId)];
    }

    /** `bind_research_run_id`: every entry, recorded before or after, carries the real run id. */
    method BindResearchRunId(id: string)
      modifies this
      ensures |calls| == |old(calls)|
      ensures id == "" ==> calls == old(calls) && researchRunId == old(researchRunId)
      ensures id != "" ==>
                && researchRunId == Some(id)
                && forall i | 0 <= i < |calls| :: calls[i] == old(calls)[i].(researchRunId := Some(id))
    {
      if id == "" {
        return;
      }
      researchRunId := Some(id);
      for i := 0 to |calls|
        invariant |calls| == |old(calls)| && researchRunId == Some(id)
        invariant forall k | 0 <= k < i :: calls[k] == old(calls)[k].(researchRunId := Some(id))
        invariant forall k | i <= k < |calls| :: calls[k] == old(calls)[k]
      {
        calls := calls[i := calls[i].(researchRunId := Some(id))];
      }
    }
  }

  // ----- the final audit -----

  datatype Field = RequestedEndTime | EndTime | AsOfField | ResponseMaxTimestamp

  datatype Finding = Finding(vendor: string, methodName: string, field: Field, instant: int)

  function FieldText(e: AuditEntry, f: Field): Option<string> {
    match f
    case RequestedEndTime => Some(e.requestedEndTime)
    case EndTime => Some(e.endTime)
    case AsOfField => Some(e.asOf)
    case ResponseMaxTimestamp => e.responseMax
  }

  function FieldInstant(lib: Library, e: AuditEntry, f: Field): Option<int> {
    match FieldText(e, f)
    case None => None
    case Some(text) => ParseTimestamp(lib, text)
  }

  predicate Exceeds(lib: Library, e: AuditEntry, f: Field, anchor: int) {
    FieldInstant(lib, e, f).Some? && DateOf(FieldInstant(lib, e, f).value) > anchor
  }

  /** A timestamp exceeds the anchor exactly if it parses and lies on a later day. */
  lemma ExceedsIff(lib: Library, e: AuditEntry, anchor: int)
    ensures Exceeds(lib, e, RequestedEndTime, anchor) <==>
            exists t :: Names(lib, e.requestedEndTime, t) && t >= (anchor + 1) * 86400
    ensures Exceeds(lib, e, EndTime, anchor) <==> exists t :: Names(lib, e.endTime, t) && t >= (anchor + 1) * 86400
    ensures Exceeds(lib, e, AsOfField, anchor) <==> exists t :: Names(lib, e.asOf, t) && t >= (anchor + 1) * 86400
    ensures Exceeds(lib, e, ResponseMaxTimestamp, anchor) <==>
            e.responseMax.Some? && exists t :: Names(lib, e.responseMax.value, t) && t >= (anchor + 1) * 86400
  {
    forall text: string
      ensures (ParseTimestamp(lib, text).Some? && DateOf(ParseTimestamp(lib, text).value) > anchor) <==>
              exists t :: Names(lib, text, t) && t >= (anchor + 1) * 86400
    {
      if ParseTimestamp(lib, text).Some? {
        assert Names(lib, text, ParseTimestamp(lib, text).value);
      }
    }
  }

  /** A finding names the entry, the field and the instant that lies after the anchor. */
  ghost predicate Reported(lib: Library, e: AuditEntry, f: Finding, anchor: int) {
    && f.vendor == e.vendor && f.methodName == e.methodName
    && Exceeds(lib, e, f.field, anchor)
    && FieldInstant(lib, e, f.field) == Some(f.instant)
  }

  const FIELDS: seq<Field> := [RequestedEndTime, EndTime, AsOfField, ResponseMaxTimestamp]

  /** `replay_timestamp_issues`. */
  method TimestampIssues(lib: Library, calls: seq<AuditEntry>, anchor: int) returns (issues: seq<Finding>)
    ensures forall f :: f in issues <==> exists i | 0 <= i < |calls| :: Reported(lib, calls[i], f, anchor)
  {
    issues := [];
    for i := 0 to |calls|
      invariant forall f :: f in issues <==>
                  exists k | 0 <= k < i :: Reported(lib, calls[k], f, anchor)
    {
      for j := 0 to |FIELDS|
        invariant forall f :: f in issues <==>
                    || (exists k | 0 <= k < i :: Reported(lib, calls[k], f, anchor))
                    || (f.field in FIELDS[..j] && Reported(lib, calls[i], f, anchor))
      {
        var field := FIELDS[j];
        assert FIELDS[..j + 1] == FIELDS[..j] + [field];
        if Exceeds(lib, calls[i], field, anchor) {
          issues := issues + [Finding(calls[i].vendor, calls[i].methodName, field, FieldInstant(lib, calls[i], field).value)];
        }
      }
      assert FIELDS[..|FIELDS|] == FIELDS;
    }
  }
}
