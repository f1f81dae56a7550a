/** Reading back what the writer wrote: strings, keys, values and lines. */
module TomlLines {
  import opened Text
  import opened TomlWriter
  import opened TomlReader

  // ----- strings -----

  lemma HexRoundTrip(n: int)
    requires 0 <= n < 16
    ensures HexValue(HexDigit(n)) == Some(n)
  {
  }

  lemma ReadPlain(c: char, tail: string)
    requires c != '"' && c != '\\' && !IsControl(c)
    ensures ReadString([c] + tail) == Prepend(c, ReadString(tail))
  {
    assert ([c] + tail)[1..] == tail;
  }

  lemma ReadSimpleEscape(e: char, tail: string)
    requires SimpleEscape(e).Some?
    ensures ReadString(['\\', e] + tail) == Prepend(SimpleEscape(e).value, ReadString(tail))
  {
    assert (['\\', e] + tail)[2..] == tail;
  }

  lemma ReadUnicodeEscape(n: nat, tail: string)
    requires n < 0xD800 || 0xE000 <= n < 0x10000
    ensures ReadString("\\u" + Hex4(n) + tail) == Prepend(n as char, ReadString(tail))
  {
    var s := "\\u" + Hex4(n) + tail;
    HexCode(n, s[2..]);
    assert s[6..] == tail;
  }

  lemma HexCode(n: int, s: string)
    requires 0 <= n < 0x10000 && Hex4(n) <= s
    ensures CodePoint(s) == if 0xD800 <= n < 0xE000 then None else Some(n as char)
  {
    HexRoundTrip(n / 4096);
    HexRoundTrip(n / 256 % 16);
    HexRoundTrip(n / 16 % 16);
    HexRoundTrip(n % 16);
    assert s[0] == Hex4(n)[0] && s[1] == Hex4(n)[1] && s[2] == Hex4(n)[2] && s[3] == Hex4(n)[3];
    assert n / 256 == n / 4096 * 16 + n / 256 % 16;
    assert n / 16 == n / 256 * 16 + n / 16 % 16;
    assert n == n / 16 * 16 + n % 16;
  }

  lemma ControlEscape(c: char)
    requires (c as int < 0x20 || c as int == 0x7F) && |EscapeChar(c)| != 2
    ensures EscapeChar(c) == "\\u" + Hex4(c as int)
  {
    hide HexDigit;
    var n := c as int;
    assert n / 4096 == 0 && n / 256 % 16 == 0 && n / 16 % 16 == n / 16;
    ZeroDigit();
  }

  lemma ZeroDigit()
    ensures HexDigit(0) == '0'
  {
  }

  lemma EscapeCharRead(c: char, tail: string)
    ensures ReadString(EscapeChar(c) + tail) == Prepend(c, ReadString(tail))
  {
    hide ReadString, CodePoint, Hex4, HexDigit;
    var e := EscapeChar(c);
    if |e| == 2 {
      assert e == ['\\', e[1]];
      ReadSimpleEscape(e[1], tail);
    } else if c as int < 0x20 || c as int == 0x7F {
      ControlEscape(c);
      ReadUnicodeEscape(c as int, tail);
    } else {
      ReadPlain(c, tail);
    }
  }

  /** Unescaping undoes escaping. */
  lemma {:induction false} StringRoundTrip(s: string, rest: string)
    ensures ReadString(Escape(s) + "\"" + rest) == Some((s, rest))
  {
    if s == [] {
      assert Escape(s) + "\"" + rest == "\"" + rest;
      assert ("\"" + rest)[1..] == rest;
    } else {
      var tail := Escape(s[1..]) + "\"" + rest;
      assert Escape(s) + "\"" + rest == EscapeChar(s[0]) + tail;
      StringRoundTrip(s[1..], rest);
      EscapeCharRead(s[0], tail);
      assert [s[0]] + s[1..] == s;
    }
  }

  // ----- keys -----

  lemma {:induction false} BareLengthOf(key: string, rest: string)
    requires forall i | 0 <= i < |key| :: IsBareChar(key[i])
    requires rest != [] ==> !IsBareChar(rest[0])
    ensures BareLength(key + rest) == |key|
  {
    if key == [] {
      assert key + rest == rest;
    } else {
      BareLengthOf(key[1..], rest);
      assert (key + rest)[1..] == key[1..] + rest;
    }
  }

  /** Whether the written key is valid TOML for the key: a bare one has to be ASCII, and a quoted one
      must not need a surrogate pair, whose halves TOML does not accept. */
  predicate Readable(u: char -> bool, key: string) {
    if IsBare(u, key) then forall i | 0 <= i < |key| :: IsAscii(key[i])
    else forall i | 0 <= i < |key| :: key[i] as int < 0x10000
  }

  lemma AsciiEscapeCharRead(c: char, tail: string)
    ensures ReadString(AsciiEscapeChar(c) + tail) ==
            if c as int < 0x10000 then Prepend(c, ReadString(tail)) else None
  {
    var n := c as int;
    if n < 0x80 {
      EscapeCharRead(c, tail);
    } else if n < 0x10000 {
      ReadUnicodeEscape(n, tail);
    } else {
      var high := 0xD800 + (n - 0x10000) / 1024;
      var s := AsciiEscapeChar(c) + tail;
      assert Hex4(high) <= s[2..];
      HexCode(high, s[2..]);
    }
  }

  /** A quoted key is read back exactly if all its characters lie in the basic plane; otherwise the
      string does not read at all. */
  lemma {:induction false} QuotedKeyRead(key: string, rest: string)
    ensures ReadString(AsciiEscape(key) + "\"" + rest) ==
            if forall i | 0 <= i < |key| :: key[i] as int < 0x10000 then Some((key, rest)) else None
  {
    hide AsciiEscapeChar;
    if key == [] {
      assert AsciiEscape(key) + "\"" + rest == "\"" + rest;
      assert ("\"" + rest)[1..] == rest;
    } else {
      var tail := AsciiEscape(key[1..]) + "\"" + rest;
      assert AsciiEscape(key) + "\"" + rest == AsciiEscapeChar(key[0]) + tail;
      QuotedKeyRead(key[1..], rest);
      hide ReadString, AsciiEscape;
      AsciiEscapeCharRead(key[0], tail);
      assert [key[0]] + key[1..] == key;
      assert (forall i | 0 <= i < |key| :: key[i] as int < 0x10000) <==>
          key[0] as int < 0x10000 && forall i | 0 <= i < |key[1..]| :: key[1..][i] as int < 0x10000 by {
        assert forall i | 1 <= i < |key| :: key[i] == key[1..][i - 1];
        assert forall i | 0 <= i < |key[1..]| :: key[1..][i] == key[i + 1];
      }
    }
  }

  lemma {:induction false} BareKeyStops(key: string, rest: string)
    requires exists i | 0 <= i < |key| :: !IsBareChar(key[i])
    ensures var n := BareLength(key + rest); n < |key| && !IsBareChar((key + rest)[n]) && (key + rest)[n] == key[n]
  {
    var s := key + rest;
    assert s[0] == key[0];
    if IsBareChar(key[0]) {
      var i :| 0 <= i < |key| && !IsBareChar(key[i]);
      assert key[1..][i - 1] == key[i];
      BareKeyStops(key[1..], rest);
      assert s[1..] == key[1..] + rest;
    }
  }

  /** What follows a bare key that is no TOML key is not what a reader looks for. */
  lemma UnreadableKey(u: char -> bool, key: string, rest: string)
    requires !Readable(u, key)
    ensures match ReadKey(KeyText(u, key) + rest)
            case None => true
            case Some((_, after)) => after != [] && !IsAscii(after[0])
    ensures KeyText(u, key) != [] && KeyText(u, key)[0] != '['
  {
    hide ReadString, AsciiEscape, BareLength;
    var s := KeyText(u, key) + rest;
    if IsBare(u, key) {
      var i :| 0 <= i < |key| && !IsAscii(key[i]);
      assert !IsBareChar(key[i]);
      BareKeyStops(key, rest);
      var n := BareLength(key + rest);
      assert IsWordChar(u, key[0]) && s[0] == key[0] != '"';
      assert s[n..][0] == s[n] == key[n] && IsWordChar(u, key[n]);
    } else {
      QuotedKeyRead(key, rest);
      assert s[0] == '"' && s[1..] == AsciiEscape(key) + "\"" + rest;
    }
  }

  lemma KeyRoundTrip(u: char -> bool, key: string, rest: string)
    requires Readable(u, key)
    requires rest != [] ==> !IsBareChar(rest[0])
    ensures ReadKey(KeyText(u, key) + rest) == Some((key, rest))
  {
    hide ReadString, AsciiEscape, BareLength;
    var s := KeyText(u, key) + rest;
    if IsBare(u, key) {
      assert forall i | 0 <= i < |key| :: IsWordChar(u, key[i]) && IsAscii(key[i]);
      BareLengthOf(key, rest);
      assert s[0] == key[0];
      assert s[..|key|] == key && s[|key|..] == rest;
    } else {
      QuotedKeyRead(key, rest);
      assert s[0] == '"' && s[1..] == AsciiEscape(key) + "\"" + rest;
    }
  }

  predicate AllReadable(u: char -> bool, path: seq<string>) {
    forall i | 0 <= i < |path| :: Readable(u, path[i])
  }

  lemma {:induction false} PathRoundTrip(u: char -> bool, path: seq<string>)
    requires path != [] && AllReadable(u, path)
    ensures ReadPath(PathText(u, path) + "]") == Some((path, ""))
    decreases |path|
  {
    hide KeyText, ReadKey, Readable;
    if |path| == 1 {
      KeyRoundTrip(u, path[0], "]");
      assert [path[0]] == path && "]"[1..] == "";
    } else {
      var tail := PathText(u, path[1..]) + "]";
      assert PathText(u, path) + "]" == KeyText(u, path[0]) + ("." + tail);
      KeyRoundTrip(u, path[0], "." + tail);
      assert ("." + tail)[1..] == tail;
      PathRoundTrip(u, path[1..]);
      assert [path[0]] + path[1..] == path;
    }
  }

  // ----- values -----

  /** What a scalar is after a round trip: `None` has become the empty string. */
  function ReadBack(v: Scalar): Scalar {
    match v
    case Null => Str("")
    case List(items) => List(ReadBackItems(items))
    case _ => v
  }

  function ReadBackItems(items: seq<Scalar>): seq<Scalar> {
    if items == [] then [] else [ReadBack(items[0])] + ReadBackItems(items[1..])
  }

  /** What may follow a value inside a line: nothing, a comma or a closing bracket. */
  predicate Ends(rest: string) {
    rest != [] ==> rest[0] == ',' || rest[0] == ']'
  }

  lemma {:induction false} NatTextDigits(n: nat)
    ensures NatText(n) != []
    ensures forall i | 0 <= i < |NatText(n)| :: '0' <= NatText(n)[i] <= '9'
    ensures DigitsValue(NatText(n)) == n
    ensures n > 0 ==> NatText(n)[0] != '0'
  {
    if n >= 10 {
      NatTextDigits(n / 10);
      assert NatText(n)[..|NatText(n)| - 1] == NatText(n / 10);
    }
  }

  lemma {:induction false} DigitsLengthOf(digits: string, rest: string)
    requires forall i | 0 <= i < |digits| :: '0' <= digits[i] <= '9'
    requires rest != [] ==> !('0' <= rest[0] <= '9')
    ensures DigitsLength(digits + rest) == |digits|
  {
    if digits == [] {
      assert digits + rest == rest;
    } else {
      DigitsLengthOf(digits[1..], rest);
      assert (digits + rest)[1..] == digits[1..] + rest;
    }
  }

  lemma NatRoundTrip(n: nat, rest: string)
    requires Ends(rest)
    ensures ReadNat(NatText(n) + rest) == Some((n, rest))
  {
    var digits := NatText(n);
    NatTextDigits(n);
    DigitsLengthOf(digits, rest);
    assert (digits + rest)[..|digits|] == digits && (digits + rest)[|digits|..] == rest;
    if |digits| > 1 {
      assert n > 0;
    }
  }

  lemma ReadValueAtDigit(s: string)
    requires s != [] && '0' <= s[0] <= '9'
    ensures ReadValue(s) == match ReadNat(s)
                            case None => None
                            case Some((n, rest)) => Some((Int(n), rest))
  {
    assert !("true" <= s) && !("false" <= s);
  }

  lemma ReadValueAtMinus(s: string)
    ensures ReadValue("-" + s) == match ReadNat(s)
                                  case None => None
                                  case Some((n, rest)) => Some((Int(0 - (n as int)), rest))
  {
    var t := "-" + s;
    assert t[0] == '-' && t[1..] == s;
    assert !("true" <= t) && !("false" <= t);
  }

  lemma IntRoundTrip(n: int, rest: string)
    requires Ends(rest)
    ensures ReadValue(IntText(n) + rest) == Some((Int(n), rest))
  {
    hide NatText, ReadNat, ReadValue, DigitsValue;
    var size: nat := if n < 0 then -n else n;
    NatTextDigits(size);
    NatRoundTrip(size, rest);
    var s := NatText(size) + rest;
    assert s[0] == NatText(size)[0];
    if n < 0 {
      assert IntText(n) + rest == "-" + s;
      ReadValueAtMinus(s);
    } else {
      ReadValueAtDigit(s);
    }
  }

  lemma BoolRoundTrip(b: bool, rest: string)
    ensures ReadValue(ValueText(Bool(b)) + rest) == Some((Bool(b), rest))
  {
    if b {
      assert ("true" + rest)[4..] == rest && "true" <= "true" + rest;
    } else {
      assert ("false" + rest)[5..] == rest && "false" <= "false" + rest;
    }
  }

  lemma ReadValueAtQuote(content: string, rest: string)
    ensures ReadValue(Quoted(content) + rest) == Some((Str(content), rest))
  {
    hide ReadString, Escape;
    StringRoundTrip(content, rest);
    var s := Quoted(content) + rest;
    assert s[0] == '"' && s[1..] == Escape(content) + "\"" + rest;
  }

  lemma {:induction false} ValueRoundTrip(v: Scalar, rest: string)
    requires Ends(rest)
    ensures ReadValue(ValueText(v) + rest) == Some((ReadBack(v), rest))
    decreases v, 0
  {
    match v
    case Bool(b) => BoolRoundTrip(b, rest);
    case Int(n) => IntRoundTrip(n, rest);
    case Null =>
      assert Quoted("") == ValueText(v);
      ReadValueAtQuote("", rest);
    case Str(s) => ReadValueAtQuote(s, rest);
    case List(items) =>
      if items == [] {
        assert ValueText(v) + rest == "[]" + rest;
        assert ("[]" + rest)[2..] == rest;
      } else {
        ListRoundTrip(items, rest);
      }
  }

  lemma {:induction false} ListRoundTrip(items: seq<Scalar>, rest: string)
    requires items != []
    ensures ReadValue(ValueText(List(items)) + rest) == Some((List(ReadBackItems(items)), rest))
    decreases items, 2
  {
    var inner := ItemsText(items) + "]" + rest;
    assert ValueText(List(items)) + rest == "[" + inner;
    assert ("[" + inner)[1..] == inner;
    ValueTextStart(items[0]);
    assert inner[0] == ItemsText(items)[0] == ValueText(items[0])[0];
    ItemsRoundTrip(items, rest);
  }

  lemma {:induction false} ItemsRoundTrip(items: seq<Scalar>, rest: string)
    requires items != []
    ensures ReadItems(ItemsText(items) + "]" + rest) == Some((ReadBackItems(items), rest))
    decreases items, 1
  {
    hide ReadValue, ValueText;
    var s := ItemsText(items) + "]" + rest;
    if |items| == 1 {
      assert s == ValueText(items[0]) + ("]" + rest);
      ValueRoundTrip(items[0], "]" + rest);
      assert ("]" + rest)[1..] == rest;
      assert items[1..] == [];
      assert ReadBackItems(items) == [ReadBack(items[0])];
    } else {
      var tail := ItemsText(items[1..]) + "]" + rest;
      assert s == ValueText(items[0]) + (", " + tail);
      ValueRoundTrip(items[0], ", " + tail);
      assert (", " + tail)[2..] == tail && ", " <= ", " + tail;
      ItemsRoundTrip(items[1..], rest);
    }
  }

  lemma ValueTextStart(v: Scalar)
    ensures ValueText(v) != [] && ValueText(v)[0] != ']'
  {
    if v.Int? {
      NatTextDigits(if v.n < 0 then -v.n else v.n);
    }
  }

  // ----- lines -----

  lemma KeyTextStart(u: char -> bool, key: string)
    ensures KeyText(u, key) != [] && KeyText(u, key)[0] != '['
  {
    if IsBare(u, key) {
      assert IsWordChar(u, key[0]);
    }
  }

  lemma ScalarLineRoundTrip(u: char -> bool, key: string, v: Scalar, r: Reader)
    requires Readable(u, key)
    requires r.table + [key] !in r.doc
    ensures ReadLine(ScalarLine(u, key, v), r) ==
            Some(r.(doc := r.doc[r.table + [key] := ValueCell(ReadBack(v))]))
  {
    hide ReadKey, ReadValue, ValueText, ReadPath, Readable, KeyText;
    KeyTextStart(u, key);
    var line, rest := ScalarLine(u, key, v), " = " + ValueText(v);
    assert line == KeyText(u, key) + rest;
    KeyRoundTrip(u, key, rest);
    assert line[0] == KeyText(u, key)[0] && line[0] != '[';
    assert " = " <= rest && rest[3..] == ValueText(v);
    ValueRoundTrip(v, "");
    assert ValueText(v) + "" == ValueText(v);
  }

  lemma HeaderLineRoundTrip(u: char -> bool, path: seq<string>, r: Reader)
    requires path != [] && path !in r.doc && AllReadable(u, path)
    requires path[..|path| - 1] in r.doc && r.doc[path[..|path| - 1]].TableCell?
    ensures ReadLine(HeaderLine(u, path), r) == Some(Reader(r.doc[path := TableCell], path))
  {
    hide ReadPath, PathText, AllReadable;
    PathRoundTrip(u, path);
    assert HeaderLine(u, path)[1..] == PathText(u, path) + "]";
  }

  // ----- keys that are lost -----

  /** No reader gets past the line, whatever it has read before. */
  ghost predicate Unreadable(line: string) {
    forall r :: ReadLine(line, r).None?
  }

  lemma UnreadableScalarLine(u: char -> bool, key: string, v: Scalar)
    requires !Readable(u, key)
    ensures Unreadable(ScalarLine(u, key, v))
  {
    hide ReadKey, ReadValue, ValueText, ReadPath, Readable, KeyText;
    var line, rest := ScalarLine(u, key, v), " = " + ValueText(v);
    assert line == KeyText(u, key) + rest;
    UnreadableKey(u, key, rest);
    assert line[0] == KeyText(u, key)[0];
    forall r ensures ReadLine(line, r).None? {
      match ReadKey(line)
      case None =>
      case Some((_, after)) => assert !(" = " <= after);
    }
  }

  lemma {:induction false} UnreadablePath(u: char -> bool, path: seq<string>)
    requires !AllReadable(u, path)
    ensures ReadPath(PathText(u, path) + "]").None?
    decreases |path|
  {
    hide KeyText, ReadKey, Readable;
    var tail := if |path| == 1 then "]" else "." + (PathText(u, path[1..]) + "]");
    assert PathText(u, path) + "]" == KeyText(u, path[0]) + tail;
    if !Readable(u, path[0]) {
      UnreadableKey(u, path[0], tail);
    } else {
      KeyRoundTrip(u, path[0], tail);
      var i :| 0 <= i < |path| && !Readable(u, path[i]);
      assert path[1..][i - 1] == path[i];
      UnreadablePath(u, path[1..]);
      assert tail[1..] == PathText(u, path[1..]) + "]";
    }
  }

  lemma UnreadableHeaderLine(u: char -> bool, path: seq<string>)
    requires !AllReadable(u, path)
    ensures Unreadable(HeaderLine(u, path))
  {
    hide ReadPath, PathText, AllReadable;
    UnreadablePath(u, path);
    assert HeaderLine(u, path)[1..] == PathText(u, path) + "]";
  }

  ghost predicate SomeUnreadable(lines: seq<string>) {
    exists i | 0 <= i < |lines| :: Unreadable(lines[i])
  }

  lemma {:induction false} UnreadableLines(lines: seq<string>, r: Reader)
    requires SomeUnreadable(lines)
    ensures ReadLines(lines, r).None?
  {
    hide ReadLine, Unreadable;
    var i :| 0 <= i < |lines| && Unreadable(lines[i]);
    if i == 0 {
      FailsAtOnce(lines[0], r);
    } else if ReadLine(lines[0], r).Some? {
      assert lines[1..][i - 1] == lines[i];
      UnreadableLines(lines[1..], ReadLine(lines[0], r).value);
    }
  }

  lemma FailsAtOnce(line: string, r: Reader)
    requires Unreadable(line)
    ensures ReadLine(line, r).None?
  {
  }

  lemma {:induction false} ReadLinesAppend(a: seq<string>, b: seq<string>, r: Reader)
    ensures ReadLines(a + b, r) == match ReadLines(a, r)
                                   case None => None
                                   case Some(next) => ReadLines(b, next)
  {
    hide ReadLine;
    if a == [] {
      assert a + b == b;
    } else {
      assert (a + b)[1..] == a[1..] + b;
      match ReadLine(a[0], r)
      case None =>
      case Some(next) => ReadLinesAppend(a[1..], b, next);
    }
  }
}
