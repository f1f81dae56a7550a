/**
 A reader for the part of TOML v1.0.0 (sections "Keys", "String", "Integer", "Array" and "Table")
 that the writer uses. It is stricter than TOML: a table header must name a table that is new and
 whose parent has been declared. What it accepts, it reads as TOML does.
 */
module TomlReader {
  import opened Text
  import opened TomlWriter

  /** A document as what is found at each path from the root. */
  datatype Cell = TableCell | ValueCell(value: Scalar)

  type Doc = map<seq<string>, Cell>

  datatype Reader = Reader(doc: Doc, table: seq<string>)

  const START := Reader(map[[] := TableCell], [])

  // ----- strings -----

  function HexValue(c: char): Option<nat> {
    if '0' <= c <= '9' then Some(c as int - '0' as int)
    else if 'a' <= c <= 'f' then Some(c as int - 'a' as int + 10)
    else if 'A' <= c <= 'F' then Some(c as int - 'A' as int + 10)
    else None
  }

  /** Four hexadecimal digits naming a character; surrogates name none. */
  function CodePoint(s: string): Option<char> {
    if |s| < 4 then None
    else
      match (HexValue(s[0]), HexValue(s[1]), HexValue(s[2]), HexValue(s[3]))
      case (Some(a), Some(b), Some(c), Some(d)) =>
        if a > 15 || b > 15 || c > 15 || d > 15 then None
        else
          var n := ((a * 16 + b) * 16 + c) * 16 + d;
          if 0xD800 <= n < 0xE000 || n >= 0x10000 then None else Some(n as char)
      case _ => None
  }

  function SimpleEscape(c: char): Option<char> {
    if c == '"' then Some('"')
    else if c == '\\' then Some('\\')
    else if c == 'b' then Some(8 as char)
    else if c == 'f' then Some(12 as char)
    else if c == 'n' then Some('\n')
    else if c == 'r' then Some('\r')
    else if c == 't' then Some('\t')
    else None
  }

  predicate IsControl(c: char) {
    (c as int < 0x20 && c != '\t') || c as int == 0x7F
  }

  function Prepend(c: char, r: Option<(string, string)>): Option<(string, string)> {
    match r
    case None => None
    case Some((content, rest)) => Some(([c] + content, rest))
  }

  /** Reads a basic string after its opening quote: its content and what follows the closing one. */
  function ReadString(s: string): (r: Option<(string, string)>)
    ensures r.Some? ==> |r.value.1| < |s|
  {
    if s == [] then None
    else if s[0] == '"' then Some(([], s[1..]))
    else if s[0] == '\\' then
      if |s| < 2 then None
      else if s[1] == 'u' then
        match CodePoint(s[2..])
        case None => None
        case Some(c) => Prepend(c, ReadString(s[6..]))
      else
        match SimpleEscape(s[1])
        case None => None
        case Some(c) => Prepend(c, ReadString(s[2..]))
    else if IsControl(s[0]) then None
    else Prepend(s[0], ReadString(s[1..]))
  }

  // ----- keys -----

  function BareLength(s: string): (n: nat)
    ensures n <= |s|
  {
    if s != [] && IsBareChar(s[0]) then 1 + BareLength(s[1..]) else 0
  }

  function ReadKey(s: string): (r: Option<(string, string)>)
    ensures r.Some? ==> |r.value.1| < |s|
  {
    if s != [] && s[0] == '"' then ReadString(s[1..])
    else
      var n := BareLength(s);
      if n == 0 then None else Some((s[..n], s[n..]))
  }

  /** Reads a dotted key up to the bracket that closes a table header. */
  function ReadPath(s: string): Option<(seq<string>, string)>
    decreases |s|
  {
    match ReadKey(s)
    case None => None
    case Some((key, rest)) =>
      if rest == [] then None
      else if rest[0] == ']' then Some(([key], rest[1..]))
      else if rest[0] == '.' then
        match ReadPath(rest[1..])
        case None => None
        case Some((path, end)) => Some(([key] + path, end))
      else None
  }

  // ----- values -----

  function DigitsLength(s: string): (n: nat)
    ensures n <= |s|
    ensures forall i | 0 <= i < n :: '0' <= s[i] <= '9'
  {
    if s != [] && '0' <= s[0] <= '9' then 1 + DigitsLength(s[1..]) else 0
  }

  function DigitsValue(s: string): nat
    requires forall i | 0 <= i < |s| :: '0' <= s[i] <= '9'
  {
    if s == [] then 0 else 10 * DigitsValue(s[..|s| - 1]) + (s[|s| - 1] as int - '0' as int)
  }

  /** A decimal integer without superfluous leading zeros. */
  function ReadNat(s: string): (r: Option<(nat, string)>)
    ensures r.Some? ==> |r.value.1| < |s|
  {
    var n := DigitsLength(s);
    if n == 0 || (n > 1 && s[0] == '0') then None else Some((DigitsValue(s[..n]), s[n..]))
  }

  function ReadValue(s: string): (r: Option<(Scalar, string)>)
    ensures r.Some? ==> |r.value.1| < |s|
    decreases |s|, 0
  {
    if s == [] then None
    else if s[0] == '"' then
      match ReadString(s[1..])
      case None => None
      case Some((content, rest)) => Some((Str(content), rest))
    else if s[0] == '[' then
      if |s| > 1 && s[1] == ']' then Some((List([]), s[2..]))
      else
        match ReadItems(s[1..])
        case None => None
        case Some((items, rest)) => Some((List(items), rest))
    else if "true" <= s then Some((Bool(true), s[4..]))
    else if "false" <= s then Some((Bool(false), s[5..]))
    else if s[0] == '-' then
      match ReadNat(s[1..])
      case None => None
      case Some((n, rest)) => Some((Int(0 - (n as int)), rest))
    else
      match ReadNat(s)
      case None => None
      case Some((n, rest)) => Some((Int(n), rest))
  }

  /** Reads the items of a non-empty array and its closing bracket. */
  function ReadItems(s: string): (r: Option<(seq<Scalar>, string)>)
    ensures r.Some? ==> |r.value.1| < |s|
    decreases |s|, 1
  {
    match ReadValue(s)
    case None => None
    case Some((v, rest)) =>
      if rest != [] && rest[0] == ']' then Some(([v], rest[1..]))
      else if ", " <= rest then
        match ReadItems(rest[2..])
        case None => None
        case Some((items, end)) => Some(([v] + items, end))
      else None
  }

  // ----- lines and documents -----

  function Declare(r: Reader, path: seq<string>): Option<Reader>
    requires path != []
  {
    var parent := path[..|path| - 1];
    if path in r.doc || parent !in r.doc || !r.doc[parent].TableCell? then None
    else Some(Reader(r.doc[path := TableCell], path))
  }

  function Assign(r: Reader, key: string, v: Scalar): Option<Reader> {
    if r.table + [key] in r.doc then None
    else Some(r.(doc := r.doc[r.table + [key] := ValueCell(v)]))
  }

  function ReadLine(line: string, r: Reader): Option<Reader> {
    if line == [] then Some(r)
    else if line[0] == '[' then
      match ReadPath(line[1..])
      case None => None
      case Some((path, rest)) => if rest != [] || path == [] then None else Declare(r, path)
    else
      match ReadKey(line)
      case None => None
      case Some((key, rest)) =>
        if !(" = " <= rest) then None
        else
          match ReadValue(rest[3..])
          case None => None
          case Some((v, end)) => if end != [] then None else Assign(r, key, v)
  }

  function ReadLines(lines: seq<string>, r: Reader): Option<Reader> {
    if lines == [] then Some(r)
    else
      match ReadLine(lines[0], r)
      case None => None
      case Some(next) => ReadLines(lines[1..], next)
  }

  /** The lines of a text, each ended by a newline. */
  function SplitLines(text: string): seq<string> {
    if text == [] then []
    else if text[0] == '\n' then [[]] + SplitLines(text[1..])
    else
      var rest := SplitLines(text[1..]);
      if rest == [] then [[text[0]]] else [[text[0]] + rest[0]] + rest[1..]
  }

  function JoinLines(lines: seq<string>): string {
    if lines == [] then [] else lines[0] + "\n" + JoinLines(lines[1..])
  }

  function ReadText(text: string): Option<Doc> {
    match ReadLines(SplitLines(text), START)
    case None => None
    case Some(r) => Some(r.doc)
  }
}
