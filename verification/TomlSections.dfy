/** Reading back what the writer wrote: sections and whole documents. */
module TomlSections {
  import opened Text
  import opened TomlWriter
  import opened TomlReader
  import opened TomlLines

  /** What the scalars and the nested tables of a section contribute to the document. */
  function ScalarsDoc(items: seq<(string, Scalar)>, path: seq<string>): Doc {
    if items == [] then map[]
    else map[path + [items[0].0] := ValueCell(ReadBack(items[0].1))] + ScalarsDoc(items[1..], path)
  }

  function SectionDoc(entries: seq<Entry>, path: seq<string>): Doc
    decreases entries, 1
  {
    map[path := TableCell] + ScalarsDoc(ScalarsOf(entries), path) + SubSectionsDoc(entries, path)
  }

  function SubSectionsDoc(entries: seq<Entry>, path: seq<string>): Doc
    decreases entries, 0
  {
    if entries == [] then map[]
    else
      match entries[0].value
      case Leaf(_) => SubSectionsDoc(entries[1..], path)
      case Table(sub) => SectionDoc(sub, path + [entries[0].key]) + SubSectionsDoc(entries[1..], path)
  }

  predicate DistinctKeys(entries: seq<Entry>) {
    forall i, j | 0 <= i < j < |entries| :: entries[i].key != entries[j].key
  }

  /** A nested Python dictionary: no key twice in any of the tables. */
  predicate WellFormed(entries: seq<Entry>)
    decreases entries
  {
    && DistinctKeys(entries)
    && forall i | 0 <= i < |entries| && entries[i].value.Table? :: WellFormed(entries[i].value.entries)
  }

  /** Nothing is known yet about the path or anything below it. */
  ghost predicate Fresh(doc: Doc, path: seq<string>) {
    forall q | q in doc :: !(path <= q)
  }

  predicate HasTable(doc: Doc, path: seq<string>) {
    path in doc && doc[path].TableCell?
  }

  predicate ItemsReadable(u: char -> bool, items: seq<(string, Scalar)>) {
    forall i | 0 <= i < |items| :: Readable(u, items[i].0)
  }

  /** Every key of the dictionary and of all its tables is written as valid TOML. */
  predicate KeysReadable(u: char -> bool, entries: seq<Entry>)
    decreases entries, 1
  {
    ItemsReadable(u, ScalarsOf(entries)) && TablesReadable(u, entries)
  }

  predicate TablesReadable(u: char -> bool, entries: seq<Entry>)
    decreases entries, 0
  {
    entries != [] ==>
      && (match entries[0].value
          case Leaf(_) => true
          case Table(sub) => Readable(u, entries[0].key) && KeysReadable(u, sub))
      && TablesReadable(u, entries[1..])
  }

  predicate DistinctItems(items: seq<(string, Scalar)>) {
    forall i, j | 0 <= i < j < |items| :: items[i].0 != items[j].0
  }

  lemma {:induction false} ScalarsRead(u: char -> bool, items: seq<(string, Scalar)>, r: Reader)
    requires DistinctItems(items) && ItemsReadable(u, items)
    requires forall i | 0 <= i < |items| :: r.table + [items[i].0] !in r.doc
    ensures ReadLines(ScalarLines(u, items), r) == Some(r.(doc := r.doc + ScalarsDoc(items, r.table)))
  {
    hide ReadLine, ScalarLine, Readable;
    if items == [] {
      assert r.doc + map[] == r.doc;
    } else {
      ScalarLineRoundTrip(u, items[0].0, items[0].1, r);
      var next := r.(doc := r.doc[r.table + [items[0].0] := ValueCell(ReadBack(items[0].1))]);
      forall i | 0 <= i < |items[1..]| ensures r.table + [items[1..][i].0] !in next.doc {
        assert items[1..][i] == items[i + 1];
        assert (r.table + [items[0].0])[|r.table|] != (r.table + [items[i + 1].0])[|r.table|];
      }
      ScalarsRead(u, items[1..], next);
      assert ScalarLines(u, items)[1..] == ScalarLines(u, items[1..]);
      assert r.doc + ScalarsDoc(items, r.table) == next.doc + ScalarsDoc(items[1..], r.table);
    }
  }

  // ----- where a section's paths lie -----

  predicate HasKey(entries: seq<Entry>, key: string) {
    exists i | 0 <= i < |entries| :: entries[i].key == key
  }

  /** A path strictly below `path` whose next step is a key of the entries. */
  predicate Below(q: seq<string>, path: seq<string>, entries: seq<Entry>) {
    |path| < |q| && path <= q && HasKey(entries, q[|path|])
  }

  lemma HasKeyTail(entries: seq<Entry>, key: string)
    requires entries != []
    ensures HasKey(entries, key) <==> entries[0].key == key || HasKey(entries[1..], key)
  {
    if HasKey(entries, key) && entries[0].key != key {
      var i :| 0 <= i < |entries| && entries[i].key == key;
      assert entries[1..][i - 1].key == key;
    }
    if HasKey(entries[1..], key) {
      var i :| 0 <= i < |entries[1..]| && entries[1..][i].key == key;
      assert entries[i + 1].key == key;
    }
  }

  lemma {:induction false} ScalarsDocBelow(entries: seq<Entry>, path: seq<string>)
    ensures forall q | q in ScalarsDoc(ScalarsOf(entries), path) :: Below(q, path, entries)
    ensures forall q | q in ScalarsDoc(ScalarsOf(entries), path) :: |q| == |path| + 1
  {
    if entries != [] {
      ScalarsDocBelow(entries[1..], path);
      forall q | q in ScalarsDoc(ScalarsOf(entries), path)
        ensures Below(q, path, entries) && |q| == |path| + 1
      {
        if q in ScalarsDoc(ScalarsOf(entries[1..]), path) {
          HasKeyTail(entries, q[|path|]);
        } else {
          assert entries[0].key == q[|path|];
        }
      }
    }
  }

  lemma {:induction false} SectionDocBelow(entries: seq<Entry>, path: seq<string>)
    ensures path in SectionDoc(entries, path) && SectionDoc(entries, path)[path] == TableCell
    ensures forall q | q in SectionDoc(entries, path) :: path <= q
    decreases entries, 1
  {
    ScalarsDocBelow(entries, path);
    SubSectionsDocBelow(entries, path);
  }

  lemma {:induction false} SubSectionsDocBelow(entries: seq<Entry>, path: seq<string>)
    ensures forall q | q in SubSectionsDoc(entries, path) :: Below(q, path, entries)
    decreases entries, 0
  {
    if entries != [] {
      SubSectionsDocBelow(entries[1..], path);
      if entries[0].value.Table? {
        SectionDocBelow(entries[0].value.entries, path + [entries[0].key]);
      }
      forall q | q in SubSectionsDoc(entries, path) ensures Below(q, path, entries) {
        if q in SubSectionsDoc(entries[1..], path) {
          HasKeyTail(entries, q[|path|]);
        } else {
          assert path + [entries[0].key] <= q;
          assert entries[0].key == q[|path|];
        }
      }
    }
  }

  lemma {:induction false} ScalarsHaveKeys(entries: seq<Entry>)
    ensures forall i | 0 <= i < |ScalarsOf(entries)| :: HasKey(entries, ScalarsOf(entries)[i].0)
  {
    if entries != [] {
      ScalarsHaveKeys(entries[1..]);
      forall i | 0 <= i < |ScalarsOf(entries)| ensures HasKey(entries, ScalarsOf(entries)[i].0) {
        HasKeyTail(entries, ScalarsOf(entries)[i].0);
      }
    }
  }

  lemma {:induction false} ScalarsDistinct(entries: seq<Entry>)
    requires DistinctKeys(entries)
    ensures DistinctItems(ScalarsOf(entries))
  {
    if entries != [] {
      hide HasKey;
      var items, rest := ScalarsOf(entries), ScalarsOf(entries[1..]);
      TailDistinct(entries);
      ScalarsDistinct(entries[1..]);
      ScalarsHaveKeys(entries[1..]);
      if entries[0].value.Leaf? {
        forall i, j | 0 <= i < j < |items| ensures items[i].0 != items[j].0 {
          assert items[j] == rest[j - 1];
          assert i > 0 ==> items[i] == rest[i - 1];
        }
      }
    }
  }

  lemma TailDistinct(entries: seq<Entry>)
    requires entries != [] && DistinctKeys(entries)
    ensures DistinctKeys(entries[1..]) && !HasKey(entries[1..], entries[0].key)
  {
    forall i | 0 <= i < |entries[1..]| ensures entries[1..][i].key != entries[0].key {
      assert entries[1..][i] == entries[i + 1];
    }
    forall i, j | 0 <= i < j < |entries[1..]| ensures entries[1..][i].key != entries[1..][j].key {
      assert entries[1..][i] == entries[i + 1] && entries[1..][j] == entries[j + 1];
    }
  }

  // ----- reading a section -----

  lemma HeaderRead(u: char -> bool, lines: seq<string>, path: seq<string>, r: Reader)
    requires ReadLines(lines, START) == Some(r)
    requires path == [] ==> r == START
    requires path != [] ==> Fresh(r.doc, path) && HasTable(r.doc, path[..|path| - 1])
    requires AllReadable(u, path)
    ensures ReadLines(WithHeader(u, lines, path), START) == Some(Reader(r.doc[path := TableCell], path))
  {
    hide HeaderLine, AllReadable;
    if path != [] {
      ReadLinesAppend(lines, [""], START);
      assert ReadLines([""], r) == Some(r);
      var before := if lines != [] && lines[|lines| - 1] != "" then lines + [""] else lines;
      HeaderLineRoundTrip(u, path, r);
      ReadLinesAppend(before, [HeaderLine(u, path)], START);
      assert [HeaderLine(u, path)][1..] == [];
    } else {
      assert START.doc[[] := TableCell] == START.doc;
    }
  }

  /** Declaring a table and filling in its scalars leaves the paths of its nested tables free. */
  lemma TableKeyFresh(entries: seq<Entry>, i: nat, path: seq<string>, doc: Doc)
    requires i < |entries| && entries[i].value.Table? && DistinctKeys(entries)
    requires path == [] ==> doc == START.doc
    requires path != [] ==> Fresh(doc, path)
    ensures Fresh(doc[path := TableCell] + ScalarsDoc(ScalarsOf(entries), path), path + [entries[i].key])
  {
    var key := entries[i].key;
    var scalars := ScalarsDoc(ScalarsOf(entries), path);
    var all := doc[path := TableCell] + scalars;
    ScalarsDocBelow(entries, path);
    TableKeyIsNoScalar(entries, i, path);
    forall q | q in all ensures !(path + [key] <= q) {
      assert q in scalars && path + [key] <= q ==> q == path + [key];
      assert path + [key] <= q ==> path <= q;
    }
  }

  lemma {:induction false} TableKeyIsNoScalar(entries: seq<Entry>, i: nat, path: seq<string>)
    requires i < |entries| && entries[i].value.Table? && DistinctKeys(entries)
    ensures path + [entries[i].key] !in ScalarsDoc(ScalarsOf(entries), path)
  {
    var key := entries[i].key;
    TailDistinct(entries);
    ScalarsDocBelow(entries[1..], path);
    assert (path + [key])[|path|] == key;
    if i > 0 {
      TableKeyIsNoScalar(entries[1..], i - 1, path);
      assert (path + [key])[|path|] != (path + [entries[0].key])[|path|];
    }
  }

  lemma {:induction false} SectionRead(u: char -> bool, lines: seq<string>, entries: seq<Entry>, path: seq<string>, r: Reader)
    returns (end: Reader)
    requires ReadLines(lines, START) == Some(r)
    requires WellFormed(entries) && KeysReadable(u, entries) && AllReadable(u, path)
    requires path == [] ==> r == START
    requires path != [] ==> Fresh(r.doc, path) && HasTable(r.doc, path[..|path| - 1])
    ensures ReadLines(Section(u, lines, entries, path), START) == Some(end)
    ensures end.doc == r.doc + SectionDoc(entries, path)
    decreases entries, 1
  {
    hide ScalarLines, ReadLines, WithHeader, Fresh, DistinctItems, Section, SectionDoc, ItemsReadable, TablesReadable, AllReadable;
    var filled := ScalarsFilledIn(u, lines, entries, path, r);
    end := SubSectionsRead(u, WithHeader(u, lines, path) + ScalarLines(u, ScalarsOf(entries)), entries, path, filled);
    SectionUnfolds(u, lines, entries, path, r.doc);
  }

  lemma SectionUnfolds(u: char -> bool, lines: seq<string>, entries: seq<Entry>, path: seq<string>, doc: Doc)
    ensures Section(u, lines, entries, path) ==
            SubSections(u, WithHeader(u, lines, path) + ScalarLines(u, ScalarsOf(entries)), entries, path)
    ensures doc + SectionDoc(entries, path) ==
            doc[path := TableCell] + ScalarsDoc(ScalarsOf(entries), path) + SubSectionsDoc(entries, path)
  {
    hide SubSections, SubSectionsDoc, ScalarsDoc;
  }

  /** Reading the header and the scalars of a section. */
  lemma ScalarsFilledIn(u: char -> bool, lines: seq<string>, entries: seq<Entry>, path: seq<string>, r: Reader)
    returns (filled: Reader)
    requires ReadLines(lines, START) == Some(r)
    requires DistinctKeys(entries) && ItemsReadable(u, ScalarsOf(entries)) && AllReadable(u, path)
    requires path == [] ==> r == START
    requires path != [] ==> Fresh(r.doc, path) && HasTable(r.doc, path[..|path| - 1])
    ensures filled.doc == r.doc[path := TableCell] + ScalarsDoc(ScalarsOf(entries), path)
    ensures ReadLines(WithHeader(u, lines, path) + ScalarLines(u, ScalarsOf(entries)), START) == Some(filled)
    ensures HasTable(filled.doc, path)
    ensures forall i | 0 <= i < |entries| && entries[i].value.Table? ::
              Fresh(filled.doc, path + [entries[i].key])
  {
    hide ScalarLines, ReadLines, WithHeader, ScalarsDoc, ItemsReadable, AllReadable;
    var scalars := ScalarsOf(entries);
    var declared := Reader(r.doc[path := TableCell], path);
    HeaderRead(u, lines, path, r);
    ScalarsDistinct(entries);
    forall i | 0 <= i < |scalars| ensures path + [scalars[i].0] !in declared.doc {
      assert path <= path + [scalars[i].0];
    }
    ScalarsRead(u, scalars, declared);
    filled := Reader(declared.doc + ScalarsDoc(scalars, path), path);
    ReadLinesAppend(WithHeader(u, lines, path), ScalarLines(u, scalars), START);
    ScalarsDocBelow(entries, path);
    forall i | 0 <= i < |entries| && entries[i].value.Table?
      ensures Fresh(filled.doc, path + [entries[i].key])
    {
      TableKeyFresh(entries, i, path, r.doc);
    }
  }

  lemma {:induction false} SubSectionsRead(u: char -> bool, lines: seq<string>, entries: seq<Entry>, path: seq<string>, r: Reader)
    returns (end: Reader)
    requires ReadLines(lines, START) == Some(r)
    requires WellFormed(entries) && HasTable(r.doc, path)
    requires TablesReadable(u, entries) && AllReadable(u, path)
    requires forall i | 0 <= i < |entries| && entries[i].value.Table? :: Fresh(r.doc, path + [entries[i].key])
    ensures ReadLines(SubSections(u, lines, entries, path), START) == Some(end)
    ensures end.doc == r.doc + SubSectionsDoc(entries, path)
    decreases entries, 0
  {
    hide ReadLines, Section, SectionDoc, KeysReadable, Readable;
    end := r;
    if entries == [] {
      assert r.doc + map[] == r.doc;
    } else {
      var key, rest := entries[0].key, entries[1..];
      TailDistinct(entries);
      assert forall i | 0 <= i < |rest| :: rest[i] == entries[i + 1];
      match entries[0].value
      case Leaf(_) =>
        end := SubSectionsRead(u, lines, rest, path, r);
      case Table(sub) =>
        var below := path + [key];
        assert below[..|below| - 1] == path;
        var next := SectionRead(u, lines, sub, below, r);
        SectionDocBelow(sub, below);
        forall i | 0 <= i < |rest| && rest[i].value.Table? ensures Fresh(next.doc, path + [rest[i].key]) {
          SiblingFresh(r.doc, sub, path, key, rest[i].key);
        }
        end := SubSectionsRead(u, Section(u, lines, sub, below), rest, path, next);
        assert end.doc == r.doc + (SectionDoc(sub, below) + SubSectionsDoc(rest, path));
    }
  }

  /** A table's paths do not get in the way of its sibling. */
  lemma SiblingFresh(doc: Doc, sub: seq<Entry>, path: seq<string>, key: string, other: string)
    requires key != other && Fresh(doc, path + [other])
    ensures Fresh(doc + SectionDoc(sub, path + [key]), path + [other])
  {
    hide SectionDoc;
    SectionDocBelow(sub, path + [key]);
    forall q | q in SectionDoc(sub, path + [key]) ensures !(path + [other] <= q) {
      assert path + [key] <= q;
      assert q[|path|] == (path + [key])[|path|] == key;
      assert (path + [other])[|path|] == other;
    }
  }

  // ----- what the document contains -----

  /** What a nested dictionary holds at a path of keys. */
  function Lookup(entries: seq<Entry>, q: seq<string>): Option<Cell>
    decreases entries, 1
  {
    if q == [] then Some(TableCell) else LookupKey(entries, q)
  }

  function LookupKey(entries: seq<Entry>, q: seq<string>): Option<Cell>
    requires q != []
    decreases entries, 0
  {
    if entries == [] then None
    else if entries[0].key != q[0] then LookupKey(entries[1..], q)
    else
      match entries[0].value
      case Leaf(v) => if |q| == 1 then Some(ValueCell(ReadBack(v))) else None
      case Table(sub) => Lookup(sub, q[1..])
  }

  ghost predicate Holds(doc: Doc, q: seq<string>, cell: Option<Cell>) {
    match cell
    case None => q !in doc
    case Some(c) => q in doc && doc[q] == c
  }

  lemma LookupNoKey(entries: seq<Entry>, q: seq<string>)
    requires q != [] && !HasKey(entries, q[0])
    ensures LookupKey(entries, q).None?
  {
    if entries != [] {
      HasKeyTail(entries, q[0]);
      LookupNoKey(entries[1..], q);
    }
  }

  function Contents(entries: seq<Entry>, path: seq<string>): Doc {
    ScalarsDoc(ScalarsOf(entries), path) + SubSectionsDoc(entries, path)
  }

  lemma {:induction false} SectionLookup(entries: seq<Entry>, path: seq<string>, q: seq<string>)
    requires WellFormed(entries)
    ensures Holds(SectionDoc(entries, path), path + q, Lookup(entries, q))
    decreases entries, 1
  {
    ScalarsDocBelow(entries, path);
    SubSectionsDocBelow(entries, path);
    if q == [] {
      assert path + q == path;
    } else {
      ContentsLookup(entries, path, q);
    }
  }

  lemma {:induction false} ContentsLookup(entries: seq<Entry>, path: seq<string>, q: seq<string>)
    requires WellFormed(entries) && q != []
    ensures Holds(Contents(entries, path), path + q, LookupKey(entries, q))
    decreases entries, 0
  {
    if entries != [] {
      var key, rest := entries[0].key, entries[1..];
      TailDistinct(entries);
      assert forall i | 0 <= i < |rest| :: rest[i] == entries[i + 1];
      ContentsLookup(rest, path, q);
      assert (path + q)[|path|] == q[0];
      if q[0] == key {
        LookupNoKey(rest, q);
        ScalarsDocBelow(rest, path);
        SubSectionsDocBelow(rest, path);
        match entries[0].value
        case Leaf(v) =>
          assert path + q == path + [key] <==> |q| == 1;
        case Table(sub) =>
          assert path + q == (path + [key]) + q[1..];
          SectionLookup(sub, path + [key], q[1..]);
      } else {
        match entries[0].value
        case Leaf(v) =>
          assert (path + [key])[|path|] != q[0];
        case Table(sub) =>
          SectionDocBelow(sub, path + [key]);
          assert (path + [key])[|path|] == key;
      }
    }
  }

  // ----- documents -----

  predicate IsLine(line: string) {
    '\n' !in line
  }

  lemma EscapeNoNewline(s: string)
    ensures IsLine(Escape(s)) && IsLine(Quoted(s))
  {
    if s != [] {
      EscapeNoNewline(s[1..]);
      assert IsLine(EscapeChar(s[0]));
    }
  }

  lemma {:induction false} AsciiEscapeNoNewline(s: string)
    ensures IsLine(AsciiEscape(s))
  {
    if s != [] {
      AsciiEscapeNoNewline(s[1..]);
      assert IsLine(AsciiEscapeChar(s[0]));
    }
  }

  lemma KeyTextIsLine(u: char -> bool, key: string)
    ensures IsLine(KeyText(u, key))
  {
    AsciiEscapeNoNewline(key);
    assert !IsWordChar(u, '\n');
  }

  lemma {:induction false} ValueTextIsLine(v: Scalar)
    ensures IsLine(ValueText(v))
    decreases v, 0
  {
    match v
    case Int(n) => NatTextDigits(if n < 0 then -n else n);
    case Str(s) => EscapeNoNewline(s);
    case List(items) => ItemsTextIsLine(items);
    case _ =>
  }

  lemma {:induction false} ItemsTextIsLine(items: seq<Scalar>)
    ensures IsLine(ItemsText(items))
    decreases items, 0
  {
    if items != [] {
      ValueTextIsLine(items[0]);
      ItemsTextIsLine(items[1..]);
    }
  }

  lemma {:induction false} PathTextIsLine(u: char -> bool, path: seq<string>)
    ensures IsLine(PathText(u, path))
  {
    if path != [] {
      KeyTextIsLine(u, path[0]);
      PathTextIsLine(u, path[1..]);
    }
  }

  predicate AllLines(lines: seq<string>) {
    forall i | 0 <= i < |lines| :: IsLine(lines[i])
  }

  lemma {:induction false} ScalarLinesAreLines(u: char -> bool, items: seq<(string, Scalar)>)
    ensures AllLines(ScalarLines(u, items))
  {
    if items != [] {
      KeyTextIsLine(u, items[0].0);
      ValueTextIsLine(items[0].1);
      ScalarLinesAreLines(u, items[1..]);
    }
  }

  lemma {:induction false} SectionLines(u: char -> bool, lines: seq<string>, entries: seq<Entry>, path: seq<string>)
    requires AllLines(lines)
    ensures AllLines(Section(u, lines, entries, path))
    decreases entries, 1
  {
    PathTextIsLine(u, path);
    ScalarLinesAreLines(u, ScalarsOf(entries));
    SubSectionLines(u, WithHeader(u, lines, path) + ScalarLines(u, ScalarsOf(entries)), entries, path);
  }

  lemma {:induction false} SubSectionLines(u: char -> bool, lines: seq<string>, entries: seq<Entry>, path: seq<string>)
    requires AllLines(lines)
    ensures AllLines(SubSections(u, lines, entries, path))
    decreases entries, 0
  {
    if entries != [] {
      match entries[0].value
      case Leaf(_) => SubSectionLines(u, lines, entries[1..], path);
      case Table(sub) =>
        SectionLines(u, lines, sub, path + [entries[0].key]);
        SubSectionLines(u, Section(u, lines, sub, path + [entries[0].key]), entries[1..], path);
    }
  }

  lemma {:induction false} SplitLine(line: string, rest: string)
    requires IsLine(line)
    ensures SplitLines(line + "\n" + rest) == [line] + SplitLines(rest)
  {
    var text := line + "\n" + rest;
    if line == [] {
      assert text[1..] == rest;
    } else {
      assert text[1..] == line[1..] + "\n" + rest;
      SplitLine(line[1..], rest);
      assert [line[0]] + line[1..] == line;
    }
  }

  lemma {:induction false} SplitJoin(lines: seq<string>)
    requires AllLines(lines)
    ensures SplitLines(JoinLines(lines)) == lines
  {
    if lines != [] {
      assert IsLine(lines[0]);
      assert AllLines(lines[1..]) by {
        forall i | 0 <= i < |lines[1..]| ensures IsLine(lines[1..][i]) {
          assert lines[1..][i] == lines[i + 1];
        }
      }
      SplitLine(lines[0], JoinLines(lines[1..]));
      SplitJoin(lines[1..]);
      assert lines == [lines[0]] + lines[1..];
    }
  }

  // ----- keys that are lost -----

  lemma {:induction false} UnreadableItems(u: char -> bool, items: seq<(string, Scalar)>)
    requires !ItemsReadable(u, items)
    ensures SomeUnreadable(ScalarLines(u, items))
  {
    hide ScalarLine, Readable, Unreadable;
    var i :| 0 <= i < |items| && !Readable(u, items[i].0);
    var lines := ScalarLines(u, items);
    if i == 0 {
      UnreadableScalarLine(u, items[0].0, items[0].1);
      assert Unreadable(lines[0]);
    } else {
      assert items[1..][i - 1] == items[i];
      UnreadableItems(u, items[1..]);
      UnreadableRest([ScalarLine(u, items[0].0, items[0].1)], ScalarLines(u, items[1..]));
    }
  }

  lemma UnreadableRest(front: seq<string>, lines: seq<string>)
    requires SomeUnreadable(front) || SomeUnreadable(lines)
    ensures SomeUnreadable(front + lines)
  {
    hide Unreadable;
    if SomeUnreadable(front) {
      var i :| 0 <= i < |front| && Unreadable(front[i]);
      assert (front + lines)[i] == front[i];
    } else {
      var i :| 0 <= i < |lines| && Unreadable(lines[i]);
      assert (front + lines)[|front| + i] == lines[i];
    }
  }

  lemma {:induction false} SectionKeepsUnreadable(u: char -> bool, lines: seq<string>, entries: seq<Entry>, path: seq<string>)
    requires SomeUnreadable(lines)
    ensures SomeUnreadable(Section(u, lines, entries, path))
    decreases entries, 1
  {
    hide SomeUnreadable, ScalarLines;
    HeaderKeepsUnreadable(u, lines, path);
    UnreadableRest(WithHeader(u, lines, path), ScalarLines(u, ScalarsOf(entries)));
    SubSectionsKeepUnreadable(u, WithHeader(u, lines, path) + ScalarLines(u, ScalarsOf(entries)), entries, path);
  }

  lemma HeaderKeepsUnreadable(u: char -> bool, lines: seq<string>, path: seq<string>)
    requires SomeUnreadable(lines) || (path != [] && !AllReadable(u, path))
    ensures SomeUnreadable(WithHeader(u, lines, path))
  {
    hide Unreadable, HeaderLine;
    if path != [] {
      var before := if lines != [] && lines[|lines| - 1] != "" then lines + [""] else lines;
      if SomeUnreadable(lines) {
        UnreadableRest(lines, [""]);
      } else {
        UnreadableHeaderLine(u, path);
        assert Unreadable([HeaderLine(u, path)][0]);
      }
      UnreadableRest(before, [HeaderLine(u, path)]);
    }
  }

  lemma {:induction false} SubSectionsKeepUnreadable(u: char -> bool, lines: seq<string>, entries: seq<Entry>, path: seq<string>)
    requires SomeUnreadable(lines)
    ensures SomeUnreadable(SubSections(u, lines, entries, path))
    decreases entries, 0
  {
    hide SomeUnreadable, Section;
    if entries != [] {
      match entries[0].value
      case Leaf(_) => SubSectionsKeepUnreadable(u, lines, entries[1..], path);
      case Table(sub) =>
        SectionKeepsUnreadable(u, lines, sub, path + [entries[0].key]);
        SubSectionsKeepUnreadable(u, Section(u, lines, sub, path + [entries[0].key]), entries[1..], path);
    }
  }

  /** A key that is not written as TOML spoils the section it is in. */
  lemma {:induction false} SectionSpoilt(u: char -> bool, lines: seq<string>, entries: seq<Entry>, path: seq<string>)
    requires !KeysReadable(u, entries) || (path != [] && !AllReadable(u, path))
    ensures SomeUnreadable(Section(u, lines, entries, path))
    decreases entries, 1
  {
    hide SomeUnreadable, ScalarLines, WithHeader, ItemsReadable, TablesReadable, AllReadable;
    var header, scalars := WithHeader(u, lines, path), ScalarLines(u, ScalarsOf(entries));
    if path != [] && !AllReadable(u, path) {
      HeaderKeepsUnreadable(u, lines, path);
      UnreadableRest(header, scalars);
      SubSectionsKeepUnreadable(u, header + scalars, entries, path);
    } else if !ItemsReadable(u, ScalarsOf(entries)) {
      UnreadableItems(u, ScalarsOf(entries));
      UnreadableRest(header, scalars);
      SubSectionsKeepUnreadable(u, header + scalars, entries, path);
    } else {
      SubSectionsSpoilt(u, header + scalars, entries, path);
    }
  }

  lemma {:induction false} SubSectionsSpoilt(u: char -> bool, lines: seq<string>, entries: seq<Entry>, path: seq<string>)
    requires !TablesReadable(u, entries)
    ensures SomeUnreadable(SubSections(u, lines, entries, path))
    decreases entries, 0
  {
    hide SomeUnreadable, Section, KeysReadable, Readable;
    match entries[0].value
    case Leaf(_) => SubSectionsSpoilt(u, lines, entries[1..], path);
    case Table(sub) =>
      var below := path + [entries[0].key];
      if Readable(u, entries[0].key) && KeysReadable(u, sub) {
        SubSectionsSpoilt(u, Section(u, lines, sub, below), entries[1..], path);
      } else {
        if !Readable(u, entries[0].key) {
          assert below[|path|] == entries[0].key;
        }
        SectionSpoilt(u, lines, sub, below);
        SubSectionsKeepUnreadable(u, Section(u, lines, sub, below), entries[1..], path);
      }
  }

  lemma TextLines(u: char -> bool, data: seq<Entry>)
    ensures SplitLines(JoinLines(Section(u, [], data, []))) == Section(u, [], data, [])
  {
    SectionLines(u, [], data, []);
    SplitJoin(Section(u, [], data, []));
  }

  /** The written text reads exactly when every key is written as valid TOML, and then it holds, at
      every path of keys, what the original held: the same tables, the same scalars, `None` as an
      empty string, and nothing else. That the strict reader accepts the text says that every table
      is declared once and after its parent. */
  lemma RoundTrip(u: char -> bool, data: seq<Entry>)
    requires WellFormed(data)
    ensures var read := ReadText(JoinLines(Section(u, [], data, [])));
            && (read.Some? <==> KeysReadable(u, data))
            && (read.Some? ==> forall q :: Holds(read.value, q, Lookup(data, q)))
  {
    hide Section, KeysReadable, SectionDoc;
    TextLines(u, data);
    if KeysReadable(u, data) {
      var end := SectionRead(u, [], data, [], START);
      SectionDocBelow(data, []);
      forall q ensures Holds(end.doc, q, Lookup(data, q)) {
        SectionLookup(data, [], q);
        assert [] + q == q;
        assert Holds(SectionDoc(data, []), q, Lookup(data, q));
      }
    } else {
      SectionSpoilt(u, [], data, []);
      UnreadableLines(Section(u, [], data, []), START);
    }
  }

  // ----- when the condition holds -----

  predicate AsciiKeys(entries: seq<Entry>)
    decreases entries
  {
    forall i | 0 <= i < |entries| ::
      && (forall k | 0 <= k < |entries[i].key| :: IsAscii(entries[i].key[k]))
      && (entries[i].value.Table? ==> AsciiKeys(entries[i].value.entries))
  }

  /** ASCII keys are always safe. */
  lemma {:induction false} AsciiKeysAreReadable(u: char -> bool, entries: seq<Entry>)
    requires AsciiKeys(entries)
    ensures KeysReadable(u, entries)
    decreases entries, 1
  {
    AsciiScalars(u, entries);
    AsciiTables(u, entries);
  }

  lemma {:induction false} AsciiScalars(u: char -> bool, entries: seq<Entry>)
    requires AsciiKeys(entries)
    ensures ItemsReadable(u, ScalarsOf(entries))
    decreases |entries|
  {
    if entries != [] {
      assert AsciiKeys(entries[1..]) by {
        assert forall i | 0 <= i < |entries[1..]| :: entries[1..][i] == entries[i + 1];
      }
      AsciiScalars(u, entries[1..]);
      assert Readable(u, entries[0].key);
    }
  }

  lemma {:induction false} AsciiTables(u: char -> bool, entries: seq<Entry>)
    requires AsciiKeys(entries)
    ensures TablesReadable(u, entries)
    decreases entries, 0
  {
    if entries != [] {
      assert AsciiKeys(entries[1..]) by {
        assert forall i | 0 <= i < |entries[1..]| :: entries[1..][i] == entries[i + 1];
      }
      AsciiTables(u, entries[1..]);
      if entries[0].value.Table? {
        assert Readable(u, entries[0].key);
        AsciiKeysAreReadable(u, entries[0].value.entries);
      }
    }
  }

  /** A key with an accented letter is written bare, and the whole text is lost. */
  lemma AccentedKeyIsLost(u: char -> bool, v: Scalar)
    requires u(0xE9 as char)
    ensures ReadText(JoinLines(Section(u, [], [Entry([0xE9 as char], Leaf(v))], []))).None?
  {
    var key := [0xE9 as char];
    var data := [Entry(key, Leaf(v))];
    assert IsBare(u, key) && !IsAscii(key[0]);
    assert !Readable(u, key);
    assert ScalarsOf(data)[0].0 == key;
    assert !KeysReadable(u, data);
    RoundTrip(u, data);
  }
}
