/** `config/toml_writer.py`: a nested dictionary written as TOML lines. */
module TomlWriter {

  /** The values below the tables; `None` is written as an empty string. */
  datatype Scalar =
    | Bool(b: bool)
    | Int(n: int)
    | Str(s: string)
    | Null
    | List(items: seq<Scalar>)

  datatype Value = Leaf(scalar: Scalar) | Table(entries: seq<Entry>)

  datatype Entry = Entry(key: string, value: Value)  // one item of a dictionary, in insertion order

  // ----- strings and keys -----

  function HexDigit(n: int): char
    requires 0 <= n < 16
  {
    if n < 10 then ('0' as int + n) as char else ('a' as int + n - 10) as char
  }

  function EscapeChar(c: char): string {
    var n := c as int;
    if c == '"' then "\\\""
    else if c == '\\' then "\\\\"
    else if n == 0x08 then "\\b"
    else if n == 0x0C then "\\f"
    else if c == '\n' then "\\n"
    else if c == '\r' then "\\r"
    else if c == '\t' then "\\t"
    else if n < 0x20 || n == 0x7F then "\\u00" + [HexDigit(n / 16), HexDigit(n % 16)]
    else [c]
  }

  function Escape(s: string): string {
    if s == [] then [] else EscapeChar(s[0]) + Escape(s[1..])
  }

  function Quoted(s: string): string {
    "\"" + Escape(s) + "\""
  }

  /** What may stand in a bare key of TOML v1.0.0. */
  predicate IsBareChar(c: char) {
    'a' <= c <= 'z' || 'A' <= c <= 'Z' || '0' <= c <= '9' || c == '_' || c == '-'
  }

  predicate IsAscii(c: char) {
    c as int < 0x80
  }

  /** What the writer takes for a bare character: `u` is `str.isalnum` outside ASCII, where it knows
      the letters and digits of every script. */
  predicate IsWordChar(u: char -> bool, c: char) {
    if IsAscii(c) then IsBareChar(c) else u(c)
  }

  predicate IsBare(u: char -> bool, key: string) {
    key != [] && forall i | 0 <= i < |key| :: IsWordChar(u, key[i])
  }

  function Hex4(n: int): string
    requires 0 <= n < 0x10000
  {
    [HexDigit(n / 4096), HexDigit(n / 256 % 16), HexDigit(n / 16 % 16), HexDigit(n % 16)]
  }

  /** `json.dumps` of a key: outside ASCII every character is a `\u` escape, or two of them. */
  function AsciiEscapeChar(c: char): string {
    var n := c as int;
    if n < 0x80 then EscapeChar(c)
    else if n < 0x10000 then "\\u" + Hex4(n)
    else "\\u" + Hex4(0xD800 + (n - 0x10000) / 1024) + "\\u" + Hex4(0xDC00 + n % 1024)
  }

  function AsciiEscape(s: string): string {
    if s == [] then [] else AsciiEscapeChar(s[0]) + AsciiEscape(s[1..])
  }

  function KeyText(u: char -> bool, key: string): string {
    if IsBare(u, key) then key else "\"" + AsciiEscape(key) + "\""
  }

  // ----- values -----

  function NatText(n: nat): string {
    if n < 10 then [HexDigit(n)] else NatText(n / 10) + [HexDigit(n % 10)]
  }

  function IntText(n: int): string {
    if n < 0 then "-" + NatText(-n) else NatText(n)
  }

  function ValueText(v: Scalar): string {
    match v
    case Bool(b) => if b then "true" else "false"
    case Int(n) => IntText(n)
    case List(items) => "[" + ItemsText(items) + "]"
    case Null => "\"\""
    case Str(s) => Quoted(s)
  }

  function ItemsText(items: seq<Scalar>): string {
    if items == [] then ""
    else if |items| == 1 then ValueText(items[0])
    else ValueText(items[0]) + ", " + ItemsText(items[1..])
  }

  // ----- lines -----

  function ScalarLine(u: char -> bool, key: string, v: Scalar): string {
    KeyText(u, key) + " = " + ValueText(v)
  }

  function PathText(u: char -> bool, path: seq<string>): string {
    if path == [] then ""
    else if |path| == 1 then KeyText(u, path[0])
    else KeyText(u, path[0]) + "." + PathText(u, path[1..])
  }

  function HeaderLine(u: char -> bool, path: seq<string>): string {
    "[" + PathText(u, path) + "]"
  }

  function WithHeader(u: char -> bool, lines: seq<string>, path: seq<string>): seq<string> {
    if path == [] then lines
    else (if lines != [] && lines[|lines| - 1] != "" then lines + [""] else lines) + [HeaderLine(u, path)]
  }

  function ScalarsOf(entries: seq<Entry>): seq<(string, Scalar)> {
    if entries == [] then []
    else
      match entries[0].value
      case Leaf(v) => [(entries[0].key, v)] + ScalarsOf(entries[1..])
      case Table(_) => ScalarsOf(entries[1..])
  }

  function ScalarLines(u: char -> bool, items: seq<(string, Scalar)>): seq<string> {
    if items == [] then [] else [ScalarLine(u, items[0].0, items[0].1)] + ScalarLines(u, items[1..])
  }

  /** The lines after the section `entries` at `path` has been appended to `lines`. */
  function Section(u: char -> bool, lines: seq<string>, entries: seq<Entry>, path: seq<string>): seq<string>
    decreases entries, 1
  {
    SubSections(u, WithHeader(u, lines, path) + ScalarLines(u, ScalarsOf(entries)), entries, path)
  }

  function SubSections(u: char -> bool, lines: seq<string>, entries: seq<Entry>, path: seq<string>): seq<string>
    decreases entries, 0
  {
    if entries == [] then lines
    else
      var next :=
        match entries[0].value
        case Leaf(_) => lines
        case Table(sub) => Section(u, lines, sub, path + [entries[0].key]);
      SubSections(u, next, entries[1..], path)
  }

  // ----- the writer itself -----

  class LineBuffer {
    var lines: seq<string>

    constructor ()
      ensures lines == []
    {
      lines := [];
    }

    method Append(line: string)
      modifies this
      ensures lines == old(lines) + [line]
    {
      lines := lines + [line];
    }
  }

  function TablesOf(entries: seq<Entry>): seq<Entry> {
    if entries == [] then []
    else
      match entries[0].value
      case Leaf(_) => TablesOf(entries[1..])
      case Table(_) => [entries[0]] + TablesOf(entries[1..])
  }

  lemma {:induction false} SubSectionsOfTables(u: char -> bool, lines: seq<string>, entries: seq<Entry>, path: seq<string>)
    ensures SubSections(u, lines, entries, path) == SubSections(u, lines, TablesOf(entries), path)
    decreases |entries|
  {
    if entries != [] {
      match entries[0].value
      case Leaf(_) =>
        SubSectionsOfTables(u, lines, entries[1..], path);
      case Table(sub) =>
        var next := Section(u, lines, sub, path + [entries[0].key]);
        SubSectionsOfTables(u, next, entries[1..], path);
        assert TablesOf(entries)[1..] == TablesOf(entries[1..]);
    }
  }

  /** The two lists the writer splits a dictionary into. */
  method Split(entries: seq<Entry>) returns (scalars: seq<(string, Scalar)>, tables: seq<Entry>)
    ensures scalars == ScalarsOf(entries) && tables == TablesOf(entries)
    ensures forall e | e in tables :: e in entries && e.value.Table?
  {
    scalars, tables := [], [];
    for i := 0 to |entries|
      invariant scalars + ScalarsOf(entries[i..]) == ScalarsOf(entries)
      invariant tables + TablesOf(entries[i..]) == TablesOf(entries)
      invariant forall e | e in tables :: e in entries && e.value.Table?
    {
      assert entries[i..][1..] == entries[i + 1..];
      match entries[i].value {
        case Leaf(v) => scalars := scalars + [(entries[i].key, v)];
        case Table(_) => tables := tables + [entries[i]];
      }
    }
  }

  method WriteScalars(u: char -> bool, buffer: LineBuffer, scalars: seq<(string, Scalar)>)
    modifies buffer
    ensures buffer.lines == old(buffer.lines) + ScalarLines(u, scalars)
  {
    hide ScalarLine;
    ghost var goal := buffer.lines + ScalarLines(u, scalars);
    for i := 0 to |scalars|
      invariant buffer.lines + ScalarLines(u, scalars[i..]) == goal
    {
      ghost var before, rest := buffer.lines, ScalarLines(u, scalars[i + 1..]);
      var line := ScalarLine(u, scalars[i].0, scalars[i].1);
      assert scalars[i..][1..] == scalars[i + 1..];
      buffer.Append(line);
      assert (before + [line]) + rest == before + ([line] + rest);
    }
  }

  /** `write_toml_section`: scalars first, then one section per nested table. */
  method WriteSection(u: char -> bool, buffer: LineBuffer, entries: seq<Entry>, path: seq<string>)
    modifies buffer
    ensures buffer.lines == Section(u, old(buffer.lines), entries, path)
    decreases entries
  {
    var scalars, tables := Split(entries);
    if path != [] {
      if buffer.lines != [] && buffer.lines[|buffer.lines| - 1] != "" {
        buffer.Append("");
      }
      buffer.Append(HeaderLine(u, path));
    }
    WriteScalars(u, buffer, scalars);
    ghost var goal := Section(u, old(buffer.lines), entries, path);
    SubSectionsOfTables(u, buffer.lines, entries, path);
    for i := 0 to |tables|
      invariant SubSections(u, buffer.lines, tables[i..], path) == goal
    {
      assert tables[i] in entries;
      WriteSection(u, buffer, tables[i].value.entries, path + [tables[i].key]);
      assert tables[i..][1..] == tables[i + 1..];
    }
  }
}
