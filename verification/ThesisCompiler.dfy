/** `ThesisCompiler.compile`: the text of a validated candidate, section by section. */
module ThesisCompiler {
  import opened Text
  import opened ThesisArtifact
  import Confidence
  import Stability

  datatype Key = Stance | Thesis | KeyReasons | Risks | Confirmation | Invalidation | MonitorNext | DataCaveats

  datatype Section = Section(key: Key, title: string, text: string)

  datatype TextSource = Compiled | Diagnostic | Missing

  datatype Compilation = Compilation(
    text: string, source: TextSource, sections: seq<Section>, omitted: seq<Key>, caveats: seq<string>)

  // ----- text -----

  /** `sep.join` of the parts that are not blank, cleaned. */
  function Joined(parts: seq<string>, sep: string): string {
    if parts == [] then ""
    else
      var first, rest := Strip(parts[0]), Joined(parts[1..], sep);
      if first == "" then rest else if rest == "" then first else first + sep + rest
  }

  function Bullets(items: seq<string>): string {
    if items == [] then ""
    else if |items| == 1 then "- " + items[0]
    else "- " + items[0] + "\n" + Bullets(items[1..])
  }

  function Block(s: Section): string {
    s.title + (if StartsWith(s.text, "- ") then ":\n" else ": ") + s.text
  }

  function Render(sections: seq<Section>): string {
    if sections == [] then ""
    else if |sections| == 1 then Block(sections[0])
    else Block(sections[0]) + "\n\n" + Render(sections[1..])
  }

  /** Every section can be read in the rendered text. */
  lemma {:induction false} RenderContains(sections: seq<Section>, i: nat)
    requires i < |sections|
    ensures Contains(Render(sections), sections[i].text)
  {
    if i == 0 {
      var s := sections[0];
      var head := s.title + (if StartsWith(s.text, "- ") then ":\n" else ": ");
      assert Block(s) == head + s.text + "";
      PartOfWhole(head, s.text, "");
      if |sections| > 1 {
        ContainsWider("", Block(s), "\n\n" + Render(sections[1..]), s.text);
        assert Render(sections) == "" + Block(s) + ("\n\n" + Render(sections[1..]));
      }
    } else {
      RenderContains(sections[1..], i - 1);
      var head := Block(sections[0]) + "\n\n";
      ContainsWider(head, Render(sections[1..]), "", sections[i].text);
      assert Render(sections) == head + Render(sections[1..]) + "";
    }
  }

  /** The join is blank only if every part is. */
  lemma {:induction false} JoinedSolid(parts: seq<string>, sep: string)
    ensures Joined(parts, sep) != "" <==> exists i | 0 <= i < |parts| :: Strip(parts[i]) != ""
    ensures Joined(parts, sep) != "" ==> Strip(Joined(parts, sep)) != ""
  {
    hide Strip;
    if parts != [] {
      var first, rest := Strip(parts[0]), Joined(parts[1..], sep);
      JoinedSolid(parts[1..], sep);
      if rest != "" {
        var i :| 0 <= i < |parts[1..]| && Strip(parts[1..][i]) != "";
        assert parts[i + 1] == parts[1..][i];
      }
      if exists i | 0 <= i < |parts| :: Strip(parts[i]) != "" {
        var i :| 0 <= i < |parts| && Strip(parts[i]) != "";
        assert i > 0 ==> parts[1..][i - 1] == parts[i];
      }
      StripIdempotent(parts[0]);
      StripBlankIff(first);
      StripBlankIff(Joined(parts, sep));
      if first != "" {
        var c :| c in first && !IsSpace(c);
        assert c in Joined(parts, sep);
      }
    }
  }

  /** The parts stand in their order, cleaned and separated; a blank part leaves no trace. */
  lemma {:induction false} JoinedSplits(a: seq<string>, b: seq<string>, sep: string)
    ensures var x, y := Joined(a, sep), Joined(b, sep);
            Joined(a + b, sep) == if x == "" then y else if y == "" then x else x + sep + y
  {
    hide Strip;
    if a == [] {
      assert a + b == b;
    } else {
      assert (a + b)[0] == a[0] && (a + b)[1..] == a[1..] + b;
      JoinedSplits(a[1..], b, sep);
      var first, x, y := Strip(a[0]), Joined(a[1..], sep), Joined(b, sep);
      assert first + sep + (x + sep + y) == (first + sep + x) + sep + y;
    }
  }

  lemma JoinedAlone(part: string, sep: string)
    ensures Joined([part], sep) == Strip(part)
  {
  }

  /** A join of cleaned parts is clean. */
  lemma {:induction false} JoinedIsClean(parts: seq<string>, sep: string)
    ensures Strip(Joined(parts, sep)) == Joined(parts, sep)
    ensures Joined(parts, sep) != "" ==>
              !IsSpace(Joined(parts, sep)[0]) && !IsSpace(Joined(parts, sep)[|Joined(parts, sep)| - 1])
  {
    if parts == [] {
      StripBlankIff("");
    } else {
      JoinedIsClean(parts[1..], sep);
      StripEnds(parts[0]);
      hide Strip, IsSpace;
      var first, rest := Strip(parts[0]), Joined(parts[1..], sep);
      StripIdempotent(parts[0]);
      if first != "" && rest != "" {
        StripSolid(first + sep + rest);
      }
    }
  }

  lemma JoinedContains(parts: seq<string>, i: nat, sep: string)
    requires i < |parts|
    ensures Contains(Joined(parts, sep), Strip(parts[i]))
  {
    hide Strip, Contains, Joined;
    assert parts == parts[..i] + ([parts[i]] + parts[i + 1..]);
    JoinedSplits(parts[..i], [parts[i]] + parts[i + 1..], sep);
    JoinedSplits([parts[i]], parts[i + 1..], sep);
    JoinedAlone(parts[i], sep);
    var x, text, y := Joined(parts[..i], sep), Strip(parts[i]), Joined(parts[i + 1..], sep);
    var whole := Joined(parts, sep);
    if text == "" {
      ContainsNothing(whole);
    } else {
      var before, after := if x == "" then "" else x + sep, if y == "" then "" else sep + y;
      assert whole == before + text + after;
      PartOfWhole(before, text, after);
    }
  }

  lemma ContainsNothing(s: string)
    ensures Contains(s, "")
  {
    assert PartAt(s, 0, "");
  }

  /** The first two parts stand side by side. */
  lemma JoinedBegins(parts: seq<string>, sep: string)
    requires |parts| >= 2 && Strip(parts[0]) != "" && Strip(parts[1]) != ""
    ensures Contains(Joined(parts, sep), Strip(parts[0]) + sep + Strip(parts[1]))
  {
    hide Strip, Contains;
    var front, back := [parts[0], parts[1]], parts[2..];
    assert parts == front + back;
    assert front == [parts[0]] + [parts[1]];
    JoinedSplits([parts[0]], [parts[1]], sep);
    JoinedAlone(parts[0], sep);
    JoinedAlone(parts[1], sep);
    JoinedSplits(front, back, sep);
    var x, y := Joined(front, sep), Joined(back, sep);
    assert x == Strip(parts[0]) + sep + Strip(parts[1]);
    PartOfWhole("", x, if y == "" then "" else sep + y);
    assert Joined(parts, sep) == "" + x + if y == "" then "" else sep + y;
  }

  /** One line per item, in their order. */
  lemma {:induction false} BulletsSplit(a: seq<string>, b: seq<string>)
    requires a != [] && b != []
    ensures Bullets(a + b) == Bullets(a) + "\n" + Bullets(b)
  {
    assert (a + b)[0] == a[0] && (a + b)[1..] == a[1..] + b;
    if |a| == 1 {
      assert a[1..] + b == b;
    } else {
      BulletsSplit(a[1..], b);
      var head, x, y := "- " + a[0] + "\n", Bullets(a[1..]), Bullets(b);
      assert head + (x + "\n" + y) == (head + x) + "\n" + y;
    }
  }

  lemma BulletAlone(item: string)
    ensures Bullets([item]) == "- " + item
  {
  }

  lemma {:induction false} BulletsContain(items: seq<string>, i: nat)
    requires i < |items|
    ensures Contains(Bullets(items), "- " + items[i])
  {
    hide Contains;
    if i == 0 {
      PartOfWhole("", "- " + items[0], if |items| == 1 then "" else "\n" + Bullets(items[1..]));
      assert Bullets(items) == "" + ("- " + items[0]) + if |items| == 1 then "" else "\n" + Bullets(items[1..]);
    } else {
      BulletsContain(items[1..], i - 1);
      ContainsWider("- " + items[0] + "\n", Bullets(items[1..]), "", "- " + items[i]);
      assert Bullets(items) == "- " + items[0] + "\n" + Bullets(items[1..]) + "";
    }
  }

  /** The sections follow each other in the text, with a blank line between. */
  lemma {:induction false} RenderSplits(a: seq<Section>, b: seq<Section>)
    requires a != [] && b != []
    ensures Render(a + b) == Render(a) + "\n\n" + Render(b)
  {
    hide Block;
    assert (a + b)[0] == a[0] && (a + b)[1..] == a[1..] + b;
    if |a| == 1 {
      assert a[1..] + b == b;
    } else {
      RenderSplits(a[1..], b);
      var head, x, y := Block(a[0]) + "\n\n", Render(a[1..]), Render(b);
      assert head + (x + "\n\n" + y) == (head + x) + "\n\n" + y;
    }
  }

  /** A section reads as its title and its text, a list on lines of its own. */
  lemma RenderAlone(s: Section)
    ensures Render([s]) == s.title + ":" + (if StartsWith(s.text, "- ") then "\n" else " ") + s.text
  {
  }

  // ----- sections -----

  datatype Draft = Draft(sections: seq<Section>, omitted: seq<Key>)

  function WithText(d: Draft, key: Key, title: string, text: string, tracked: bool): Draft {
    if Strip(text) != "" then d.(sections := d.sections + [Section(key, title, Strip(text))])
    else if tracked then d.(omitted := d.omitted + [key])
    else d
  }

  function WithList(d: Draft, key: Key, title: string, items: seq<string>): Draft {
    if Dedupe(items) != [] then d.(sections := d.sections + [Section(key, title, Bullets(Dedupe(items)))])
    else d.(omitted := d.omitted + [key])
  }

  predicate Shows(d: Draft, key: Key) {
    exists i | 0 <= i < |d.sections| :: d.sections[i].key == key
  }

  ghost predicate ShowsText(sections: seq<Section>, key: Key, title: string, text: string) {
    Section(key, title, text) in sections
  }

  /** Where a key stands among the sections of a thesis. */
  function Rank(key: Key): nat {
    match key
    case Stance => 0
    case Thesis => 1
    case KeyReasons => 2
    case Risks => 3
    case Confirmation => 4
    case Invalidation => 5
    case MonitorNext => 6
    case DataCaveats => 7
  }

  /** Each key at most once, in the order of the ranks, and only of ranks below the bound. */
  predicate InOrder(sections: seq<Section>, below: nat) {
    && (forall i | 0 <= i < |sections| :: Rank(sections[i].key) < below)
    && (forall i, j | 0 <= i < j < |sections| :: Rank(sections[i].key) < Rank(sections[j].key))
  }

  lemma InOrderGrows(sections: seq<Section>, s: Section)
    requires InOrder(sections, Rank(s.key))
    ensures InOrder(sections + [s], Rank(s.key) + 1)
  {
  }

  lemma InOrderWider(sections: seq<Section>, n: nat)
    requires InOrder(sections, n)
    ensures InOrder(sections, n + 1)
  {
  }

  /** One more section changes only its own key, which is shown unless its content is blank. */
  lemma TextStep(d: Draft, key: Key, title: string, text: string, tracked: bool, k: Key)
    ensures var after := WithText(d, key, title, text, tracked);
            && (Shows(after, k) <==> Shows(d, k) || (k == key && Strip(text) != ""))
            && (k in after.omitted <==> k in d.omitted || (k == key && tracked && Strip(text) == ""))
            && d.sections <= after.sections
            && (Strip(text) != "" ==> ShowsText(after.sections, key, title, Strip(text)))
            && (InOrder(d.sections, Rank(key)) ==> InOrder(after.sections, Rank(key) + 1))
  {
    hide Strip, InOrder, Rank;
    var after := WithText(d, key, title, text, tracked);
    if InOrder(d.sections, Rank(key)) {
      InOrderGrows(d.sections, Section(key, title, Strip(text)));
      InOrderWider(d.sections, Rank(key));
    }
    assert forall i | 0 <= i < |d.sections| :: after.sections[i] == d.sections[i];
    assert Strip(text) != "" ==> after.sections[|d.sections|] == Section(key, title, Strip(text));
  }

  lemma ListStep(d: Draft, key: Key, title: string, items: seq<string>, k: Key)
    ensures var after := WithList(d, key, title, items);
            && (Shows(after, k) <==> Shows(d, k) || (k == key && Dedupe(items) != []))
            && (k in after.omitted <==> k in d.omitted || (k == key && Dedupe(items) == []))
            && d.sections <= after.sections
            && (Dedupe(items) != [] ==> ShowsText(after.sections, key, title, Bullets(Dedupe(items))))
            && (InOrder(d.sections, Rank(key)) ==> InOrder(after.sections, Rank(key) + 1))
  {
    hide Dedupe, Bullets, InOrder, Rank;
    var after := WithList(d, key, title, items);
    if InOrder(d.sections, Rank(key)) {
      InOrderGrows(d.sections, Section(key, title, Bullets(Dedupe(items))));
      InOrderWider(d.sections, Rank(key));
    }
    assert forall i | 0 <= i < |d.sections| :: after.sections[i] == d.sections[i];
    assert Dedupe(items) != [] ==> after.sections[|d.sections|] == Section(key, title, Bullets(Dedupe(items)));
  }

  function StanceText(c: Candidate, confidence: Option<int>, percent: int -> string): string {
    Joined(
      [c.rating, c.direction]
      + (match confidence case None => [] case Some(n) => ["confidence " + percent(n)])
      + (if c.marketType == "" then [] else ["market " + c.marketType]),
      " / ")
  }

  /** The sections before the caveats. */
  function Body(c: Candidate, confidence: Option<int>, percent: int -> string): Draft {
    var a := WithText(Draft([], []), Stance, "Stance", StanceText(c, confidence, percent), false);
    var b := WithText(a, Thesis, "Thesis", Joined([c.actionSummary, c.investmentThesis], " "), false);
    var d := WithList(b, KeyReasons, "Key reasons", Texts(c.keyReasons));
    var e := WithList(d, Risks, "Risks", Texts(c.risks));
    var f := WithText(e, Confirmation, "Confirmation", c.confirmation, true);
    var g := WithText(f, Invalidation, "Invalidation", c.invalidation, true);
    WithList(g, MonitorNext, "Monitor next", Texts(c.monitorNext))
  }

  function Composed(c: Candidate, v: Validation, confidence: Option<int>, percent: int -> string): Draft {
    var body := Body(c, confidence, percent);
    var caveats := Dedupe(v.degradationReasons + c.missingData);
    if v.status.Degraded? && caveats != [] then WithList(body, DataCaveats, "Data caveats", caveats) else body
  }

  class Document {
    var sections: seq<Section>
    var omitted: seq<Key>

    constructor ()
      ensures Contents() == Draft([], [])
    {
      sections, omitted := [], [];
    }

    function Contents(): Draft
      reads this
    {
      Draft(sections, omitted)
    }

    /** `_append_section`; an omission is noted only for a tracked section. */
    method AppendSection(key: Key, title: string, text: string, tracked: bool)
      modifies this
      ensures Contents() == WithText(old(Contents()), key, title, text, tracked)
      ensures sections == old(sections) + if Strip(text) == "" then [] else [Section(key, title, Strip(text))]
      ensures omitted == old(omitted) + if Strip(text) == "" && tracked then [key] else []
    {
      var clean := Strip(text);
      if clean == "" {
        if tracked {
          omitted := omitted + [key];
        }
        return;
      }
      sections := sections + [Section(key, title, clean)];
    }

    /** `_append_list_section`. */
    method AppendListSection(key: Key, title: string, items: seq<string>)
      modifies this
      ensures Contents() == WithList(old(Contents()), key, title, items)
      ensures sections == old(sections) + if Dedupe(items) == [] then [] else [Section(key, title, Bullets(Dedupe(items)))]
      ensures omitted == old(omitted) + if Dedupe(items) == [] then [key] else []
    {
      var cleaned := Dedupe(items);
      if cleaned == [] {
        omitted := omitted + [key];
        return;
      }
      sections := sections + [Section(key, title, Bullets(cleaned))];
    }
  }

  /** The confidence a compilation shows. */
  function Shown(c: Candidate, v: Validation, confidence: Option<int>): Option<int> {
    Confidence.CappedConfidence(if confidence.Some? then confidence else c.confidence, v.confidenceCap)
  }

  /** `ThesisCompiler.compile`. */
  method Compile(candidate: Option<Candidate>, v: Validation, confidence: Option<int>, percent: int -> string)
    returns (r: Compilation)
    ensures r.source.Diagnostic? <==> v.status.Blocked?
    ensures r.source.Missing? <==> !v.status.Blocked? && candidate.None?
    ensures r.source.Compiled? ==>
              && Draft(r.sections, r.omitted) == Composed(candidate.value, v, Shown(candidate.value, v, confidence), percent)
              && r.text == Render(r.sections)
              && r.caveats == if v.status.Degraded? then Dedupe(v.degradationReasons + candidate.value.missingData) else []
    ensures r.source.Missing? ==> r.text == "Thesis text missing."
    ensures r.source.Diagnostic? ==>
              && (r.caveats == [] ==> r.text == "Thesis blocked.")
              && (forall i | 0 <= i < |r.caveats| :: Contains(r.text, "- " + r.caveats[i]))
              && (forall x | x in v.blockedReasons + v.degradationReasons && Strip(x) != "" :: Strip(x) in r.caveats)
    ensures !r.source.Compiled? ==> r.sections == [] && r.omitted == [] && r.caveats == DiagnosticCaveats(v)
  {
    if v.status.Blocked? {
      var reasons := Dedupe(v.blockedReasons + v.degradationReasons);
      ReasonsListed(v.blockedReasons + v.degradationReasons);
      return Compilation(
        "Thesis blocked." + if reasons == [] then "" else "\nReasons:\n" + Bullets(reasons), Diagnostic, [], [], reasons);
    }
    if candidate.None? {
      return Compilation("Thesis text missing.", Missing, [], [], ["structured_candidate_missing"]);
    }
    hide Strip, Dedupe, Texts, StanceText, Joined, Render, WithText, WithList, Confidence.CappedConfidence;
    var c := candidate.value;
    var rendered := Shown(c, v, confidence);
    var doc := new Document();
    doc.AppendSection(Stance, "Stance", StanceText(c, rendered, percent), false);
    doc.AppendSection(Thesis, "Thesis", Joined([c.actionSummary, c.investmentThesis], " "), false);
    doc.AppendListSection(KeyReasons, "Key reasons", Texts(c.keyReasons));
    doc.AppendListSection(Risks, "Risks", Texts(c.risks));
    doc.AppendSection(Confirmation, "Confirmation", c.confirmation, true);
    doc.AppendSection(Invalidation, "Invalidation", c.invalidation, true);
    doc.AppendListSection(MonitorNext, "Monitor next", Texts(c.monitorNext));
    var caveats := Dedupe(v.degradationReasons + c.missingData);
    if v.status.Degraded? && caveats != [] {
      doc.AppendListSection(DataCaveats, "Data caveats", caveats);
    }
    r := Compilation(
      Render(doc.sections), Compiled, doc.sections, doc.omitted, if v.status.Degraded? then caveats else []);
  }

  lemma ReasonsListed(values: seq<string>)
    ensures forall i | 0 <= i < |Dedupe(values)| ::
              Contains("Thesis blocked." + ("\nReasons:\n" + Bullets(Dedupe(values))), "- " + Dedupe(values)[i])
    ensures forall x | x in values && Strip(x) != "" :: Strip(x) in Dedupe(values)
  {
    DedupeExact(values);
    hide Dedupe, Bullets, Contains, Strip;
    var reasons := Dedupe(values);
    var head := "Thesis blocked." + "\nReasons:\n";
    forall i | 0 <= i < |reasons|
      ensures Contains("Thesis blocked." + ("\nReasons:\n" + Bullets(reasons)), "- " + reasons[i])
    {
      BulletsContain(reasons, i);
      ContainsWider(head, Bullets(reasons), "", "- " + reasons[i]);
      assert head + Bullets(reasons) + "" == "Thesis blocked." + ("\nReasons:\n" + Bullets(reasons));
    }
  }

  function DiagnosticCaveats(v: Validation): seq<string> {
    if v.status.Blocked? then Dedupe(v.blockedReasons + v.degradationReasons) else ["structured_candidate_missing"]
  }

  // ----- validator and compiler agree -----

  const REQUIRED: set<Key> := {Stance, Thesis, Confirmation, Invalidation}

  const TRACKED: set<Key> := {KeyReasons, Risks, Confirmation, Invalidation, MonitorNext}

  lemma StanceSolid(c: Candidate, executes: bool, confidence: Option<int>, percent: int -> string)
    requires Publishable(c, executes)
    ensures Strip(StanceText(c, confidence, percent)) != ""
    ensures Strip(Joined([c.actionSummary, c.investmentThesis], " ")) != ""
  {
    RatingSolid(c.rating);
    hide Strip;
    var parts :=
      [c.rating, c.direction]
      + (match confidence case None => [] case Some(n) => ["confidence " + percent(n)])
      + (if c.marketType == "" then [] else ["market " + c.marketType]);
    assert parts[0] == c.rating;
    JoinedSolid(parts, " / ");
    var sentences := [c.actionSummary, c.investmentThesis];
    assert Strip(sentences[0]) != "";
    JoinedSolid(sentences, " ");
  }

  lemma RatingSolid(text: string)
    requires Stability.NormalizeRating(text).Some?
    ensures Strip(text) != ""
  {
    assert Strip(text) == "" ==> Lower(Strip(text)) == "";
  }

  /** What the body shows and omits, key by key. */
  lemma BodyShows(c: Candidate, confidence: Option<int>, percent: int -> string, k: Key)
    ensures var body := Body(c, confidence, percent);
            && (Shows(body, k) <==>
                  match k
                  case Stance => Strip(StanceText(c, confidence, percent)) != ""
                  case Thesis => Strip(Joined([c.actionSummary, c.investmentThesis], " ")) != ""
                  case KeyReasons => Dedupe(Texts(c.keyReasons)) != []
                  case Risks => Dedupe(Texts(c.risks)) != []
                  case Confirmation => Strip(c.confirmation) != ""
                  case Invalidation => Strip(c.invalidation) != ""
                  case MonitorNext => Dedupe(Texts(c.monitorNext)) != []
                  case DataCaveats => false)
            && (k in body.omitted <==> k in TRACKED && !Shows(body, k))
  {
    hide Strip, Dedupe, Texts, StanceText, Joined, WithText, WithList, Shows;
    var z := Draft([], []);
    NothingShown(k);
    TextStep(z, Stance, "Stance", StanceText(c, confidence, percent), false, k);
    var a := WithText(z, Stance, "Stance", StanceText(c, confidence, percent), false);
    TextStep(a, Thesis, "Thesis", Joined([c.actionSummary, c.investmentThesis], " "), false, k);
    var b := WithText(a, Thesis, "Thesis", Joined([c.actionSummary, c.investmentThesis], " "), false);
    ListStep(b, KeyReasons, "Key reasons", Texts(c.keyReasons), k);
    var d := WithList(b, KeyReasons, "Key reasons", Texts(c.keyReasons));
    ListStep(d, Risks, "Risks", Texts(c.risks), k);
    var e := WithList(d, Risks, "Risks", Texts(c.risks));
    TextStep(e, Confirmation, "Confirmation", c.confirmation, true, k);
    var f := WithText(e, Confirmation, "Confirmation", c.confirmation, true);
    TextStep(f, Invalidation, "Invalidation", c.invalidation, true, k);
    var g := WithText(f, Invalidation, "Invalidation", c.invalidation, true);
    ListStep(g, MonitorNext, "Monitor next", Texts(c.monitorNext), k);
  }

  lemma ShownStays(before: seq<Section>, after: seq<Section>, key: Key, title: string, text: string)
    requires before <= after && ShowsText(before, key, title, text)
    ensures ShowsText(after, key, title, text)
  {
    var i :| 0 <= i < |before| && before[i] == Section(key, title, text);
    assert after[i] == before[i];
  }

  lemma TextThere(d: Draft, key: Key, title: string, text: string, tracked: bool, last: seq<Section>)
    requires WithText(d, key, title, text, tracked).sections <= last && Strip(text) != ""
    ensures ShowsText(last, key, title, Strip(text))
  {
    hide Strip, WithText, ShowsText;
    TextStep(d, key, title, text, tracked, key);
    ShownStays(WithText(d, key, title, text, tracked).sections, last, key, title, Strip(text));
  }

  lemma ListThere(d: Draft, key: Key, title: string, items: seq<string>, last: seq<Section>)
    requires WithList(d, key, title, items).sections <= last && Dedupe(items) != []
    ensures ShowsText(last, key, title, Bullets(Dedupe(items)))
  {
    hide Dedupe, WithList, ShowsText, Bullets;
    ListStep(d, key, title, items, key);
    ShownStays(WithList(d, key, title, items).sections, last, key, title, Bullets(Dedupe(items)));
  }

  /** What the sections of the body say, and their order. */
  lemma BodyReads(c: Candidate, confidence: Option<int>, percent: int -> string)
    requires Strip(StanceText(c, confidence, percent)) != "" && Strip(Joined([c.actionSummary, c.investmentThesis], " ")) != ""
    requires Strip(c.confirmation) != "" && Strip(c.invalidation) != ""
    ensures var s := Body(c, confidence, percent).sections;
            && InOrder(s, 7)
            && ShowsText(s, Stance, "Stance", Strip(StanceText(c, confidence, percent)))
            && ShowsText(s, Thesis, "Thesis", Strip(Joined([c.actionSummary, c.investmentThesis], " ")))
            && (Dedupe(Texts(c.keyReasons)) != [] ==>
                  ShowsText(s, KeyReasons, "Key reasons", Bullets(Dedupe(Texts(c.keyReasons)))))
            && (Dedupe(Texts(c.risks)) != [] ==> ShowsText(s, Risks, "Risks", Bullets(Dedupe(Texts(c.risks)))))
            && ShowsText(s, Confirmation, "Confirmation", Strip(c.confirmation))
            && ShowsText(s, Invalidation, "Invalidation", Strip(c.invalidation))
            && (Dedupe(Texts(c.monitorNext)) != [] ==>
                  ShowsText(s, MonitorNext, "Monitor next", Bullets(Dedupe(Texts(c.monitorNext)))))
  {
    hide Strip, Dedupe, Texts, StanceText, Joined, WithText, WithList, Bullets, InOrder, ShowsText, Shows;
    var z, stance := Draft([], []), StanceText(c, confidence, percent);
    var sentences := Joined([c.actionSummary, c.investmentThesis], " ");
    NothingInOrder();
    TextStep(z, Stance, "Stance", stance, false, Stance);
    var a := WithText(z, Stance, "Stance", stance, false);
    TextStep(a, Thesis, "Thesis", sentences, false, Stance);
    var b := WithText(a, Thesis, "Thesis", sentences, false);
    ListStep(b, KeyReasons, "Key reasons", Texts(c.keyReasons), Stance);
    var d := WithList(b, KeyReasons, "Key reasons", Texts(c.keyReasons));
    ListStep(d, Risks, "Risks", Texts(c.risks), Stance);
    var e := WithList(d, Risks, "Risks", Texts(c.risks));
    TextStep(e, Confirmation, "Confirmation", c.confirmation, true, Stance);
    var f := WithText(e, Confirmation, "Confirmation", c.confirmation, true);
    TextStep(f, Invalidation, "Invalidation", c.invalidation, true, Stance);
    var g := WithText(f, Invalidation, "Invalidation", c.invalidation, true);
    ListStep(g, MonitorNext, "Monitor next", Texts(c.monitorNext), Stance);
    var last := WithList(g, MonitorNext, "Monitor next", Texts(c.monitorNext)).sections;
    TextThere(z, Stance, "Stance", stance, false, last);
    TextThere(a, Thesis, "Thesis", sentences, false, last);
    TextThere(e, Confirmation, "Confirmation", c.confirmation, true, last);
    TextThere(f, Invalidation, "Invalidation", c.invalidation, true, last);
    if Dedupe(Texts(c.keyReasons)) != [] {
      ListThere(b, KeyReasons, "Key reasons", Texts(c.keyReasons), last);
    }
    if Dedupe(Texts(c.risks)) != [] {
      ListThere(d, Risks, "Risks", Texts(c.risks), last);
    }
    if Dedupe(Texts(c.monitorNext)) != [] {
      ListThere(g, MonitorNext, "Monitor next", Texts(c.monitorNext), last);
    }
  }

  lemma NothingInOrder()
    ensures InOrder([], 0)
  {
  }

  // ----- what a reader finds -----

  /** The section under this key and title contains the part. */
  ghost predicate Mentions(sections: seq<Section>, key: Key, title: string, part: string) {
    exists i | 0 <= i < |sections| ::
      sections[i].key == key && sections[i].title == title && Contains(sections[i].text, part)
  }

  /** Every text that is not blank has its own line there, cleaned. */
  ghost predicate Lists(sections: seq<Section>, key: Key, title: string, texts: seq<string>) {
    forall i | 0 <= i < |texts| && Strip(texts[i]) != "" :: Mentions(sections, key, title, "- " + Strip(texts[i]))
  }

  function Raw(items: seq<ResearchItem>): seq<string> {
    seq(|items|, i requires 0 <= i < |items| => items[i].text)
  }

  /** The thesis as a reader finds it: the stance, both sentences, the two conditions word for word,
      each reason, risk and monitor item in its own section, all in this order. */
  ghost predicate Reads(sections: seq<Section>, c: Candidate, shown: Option<int>, percent: int -> string) {
    && InOrder(sections, 8)
    && Mentions(sections, Stance, "Stance", Strip(c.rating) + " / " + Strip(c.direction))
    && (shown.Some? ==> Mentions(sections, Stance, "Stance", Strip("confidence " + percent(shown.value))))
    && (c.marketType != "" ==> Mentions(sections, Stance, "Stance", Strip("market " + c.marketType)))
    && Mentions(sections, Thesis, "Thesis", Strip(c.actionSummary))
    && Mentions(sections, Thesis, "Thesis", Strip(c.investmentThesis))
    && Lists(sections, KeyReasons, "Key reasons", Raw(c.keyReasons))
    && Lists(sections, Risks, "Risks", Raw(c.risks))
    && ShowsText(sections, Confirmation, "Confirmation", Strip(c.confirmation))
    && ShowsText(sections, Invalidation, "Invalidation", Strip(c.invalidation))
    && Lists(sections, MonitorNext, "Monitor next", Raw(c.monitorNext))
  }

  lemma TextMentions(sections: seq<Section>, key: Key, title: string, text: string, part: string)
    requires ShowsText(sections, key, title, text) && Contains(text, part)
    ensures Mentions(sections, key, title, part)
  {
    var i :| 0 <= i < |sections| && sections[i] == Section(key, title, text);
  }

  lemma ListsTexts(sections: seq<Section>, key: Key, title: string, texts: seq<string>)
    requires Dedupe(texts) != [] ==> ShowsText(sections, key, title, Bullets(Dedupe(texts)))
    ensures Lists(sections, key, title, texts)
  {
    hide Strip, ShowsText, Bullets, Mentions;
    DedupeExact(texts);
    forall i | 0 <= i < |texts| && Strip(texts[i]) != "" ensures Mentions(sections, key, title, "- " + Strip(texts[i])) {
      var k :| 0 <= k < |Dedupe(texts)| && Dedupe(texts)[k] == Strip(texts[i]);
      BulletsContain(Dedupe(texts), k);
      TextMentions(sections, key, title, Bullets(Dedupe(texts)), "- " + Strip(texts[i]));
    }
  }

  lemma ListsItems(sections: seq<Section>, key: Key, title: string, items: seq<ResearchItem>)
    requires Dedupe(Texts(items)) != [] ==> ShowsText(sections, key, title, Bullets(Dedupe(Texts(items))))
    ensures Lists(sections, key, title, Raw(items))
  {
    hide Strip, ShowsText, Bullets, Mentions;
    ListsTexts(sections, key, title, Texts(items));
    TextsMean(items);
    forall i | 0 <= i < |items| && Strip(items[i].text) != ""
      ensures Mentions(sections, key, title, "- " + Strip(items[i].text))
    {
      var k :| 0 <= k < |Texts(items)| && Texts(items)[k] == Strip(items[i].text);
      StripIdempotent(items[i].text);
    }
  }

  lemma StanceMentions(sections: seq<Section>, c: Candidate, confidence: Option<int>, percent: int -> string)
    requires Strip(c.rating) != "" && Strip(c.direction) != ""
    requires ShowsText(sections, Stance, "Stance", Strip(StanceText(c, confidence, percent)))
    ensures Mentions(sections, Stance, "Stance", Strip(c.rating) + " / " + Strip(c.direction))
    ensures confidence.Some? ==> Mentions(sections, Stance, "Stance", Strip("confidence " + percent(confidence.value)))
    ensures c.marketType != "" ==> Mentions(sections, Stance, "Stance", Strip("market " + c.marketType))
  {
    hide Strip, Joined, ShowsText, Mentions, Contains;
    var parts :=
      [c.rating, c.direction]
      + (match confidence case None => [] case Some(n) => ["confidence " + percent(n)])
      + (if c.marketType == "" then [] else ["market " + c.marketType]);
    var text := Joined(parts, " / ");
    assert text == StanceText(c, confidence, percent);
    JoinedIsClean(parts, " / ");
    JoinedBegins(parts, " / ");
    TextMentions(sections, Stance, "Stance", text, Strip(c.rating) + " / " + Strip(c.direction));
    if confidence.Some? {
      JoinedContains(parts, 2, " / ");
      TextMentions(sections, Stance, "Stance", text, Strip("confidence " + percent(confidence.value)));
    }
    if c.marketType != "" {
      JoinedContains(parts, |parts| - 1, " / ");
      TextMentions(sections, Stance, "Stance", text, Strip("market " + c.marketType));
    }
  }

  lemma ThesisMentions(sections: seq<Section>, c: Candidate)
    requires ShowsText(sections, Thesis, "Thesis", Strip(Joined([c.actionSummary, c.investmentThesis], " ")))
    ensures Mentions(sections, Thesis, "Thesis", Strip(c.actionSummary))
    ensures Mentions(sections, Thesis, "Thesis", Strip(c.investmentThesis))
  {
    hide Strip, Joined, ShowsText, Mentions, Contains;
    var parts := [c.actionSummary, c.investmentThesis];
    JoinedIsClean(parts, " ");
    JoinedContains(parts, 0, " ");
    JoinedContains(parts, 1, " ");
    TextMentions(sections, Thesis, "Thesis", Joined(parts, " "), Strip(c.actionSummary));
    TextMentions(sections, Thesis, "Thesis", Joined(parts, " "), Strip(c.investmentThesis));
  }

  lemma MoreInOrder(sections: seq<Section>, n: nat, m: nat)
    requires InOrder(sections, n) && n <= m
    ensures InOrder(sections, m)
  {
  }

  lemma PublishableSolid(c: Candidate, executes: bool)
    requires Publishable(c, executes)
    ensures Strip(c.rating) != "" && Strip(c.direction) != "" && Strip(c.confirmation) != "" && Strip(c.invalidation) != ""
  {
    RatingSolid(c.rating);
    assert Strip(c.direction) == "" ==> Lower(Strip(c.direction)) == "";
  }

  lemma BodyFound(c: Candidate, executes: bool, confidence: Option<int>, percent: int -> string)
    requires Publishable(c, executes)
    ensures Reads(Body(c, confidence, percent).sections, c, confidence, percent)
    ensures InOrder(Body(c, confidence, percent).sections, 7)
  {
    PublishableSolid(c, executes);
    StanceSolid(c, executes, confidence, percent);
    hide Strip, Dedupe, Texts, StanceText, Joined, Body, Bullets, InOrder, ShowsText, Mentions, Lists, Publishable;
    BodyReads(c, confidence, percent);
    var s := Body(c, confidence, percent).sections;
    MoreInOrder(s, 7, 8);
    StanceMentions(s, c, confidence, percent);
    ThesisMentions(s, c);
    ListsItems(s, KeyReasons, "Key reasons", c.keyReasons);
    ListsItems(s, Risks, "Risks", c.risks);
    ListsItems(s, MonitorNext, "Monitor next", c.monitorNext);
  }

  lemma NothingShown(k: Key)
    ensures !Shows(Draft([], []), k)
  {
  }

  /** A draft that shows all it must, accounts for every tracked section exactly once, and carries
      caveats exactly when the thesis is degraded. */
  ghost predicate Faithful(d: Draft, degraded: bool) {
    && (forall k | k in REQUIRED :: Shows(d, k))
    && (forall k | k in TRACKED :: Shows(d, k) <==> k !in d.omitted)
    && (Shows(d, DataCaveats) <==> degraded)
  }

  lemma BodyIsFaithful(c: Candidate, executes: bool, confidence: Option<int>, percent: int -> string)
    requires Publishable(c, executes)
    ensures Faithful(Body(c, confidence, percent), false)
  {
    StanceSolid(c, executes, confidence, percent);
    assert Strip(c.confirmation) != "" && Strip(c.invalidation) != "";
    hide *;
    var body := Body(c, confidence, percent);
    forall k | k in REQUIRED ensures Shows(body, k) {
      BodyShows(c, confidence, percent, k);
    }
    forall k | k in TRACKED ensures Shows(body, k) <==> k !in body.omitted {
      BodyShows(c, confidence, percent, k);
    }
    BodyShows(c, confidence, percent, DataCaveats);
    FaithfulBody(body);
  }

  lemma FaithfulBody(d: Draft)
    requires forall k | k in REQUIRED :: Shows(d, k)
    requires forall k | k in TRACKED :: Shows(d, k) <==> k !in d.omitted
    requires !Shows(d, DataCaveats)
    ensures Faithful(d, false)
  {
  }

  lemma CaveatsKeepFaith(d: Draft, caveats: seq<string>)
    requires Faithful(d, false) && Dedupe(caveats) != []
    ensures Faithful(WithList(d, DataCaveats, "Data caveats", caveats), true)
  {
    hide Dedupe, Shows, WithList;
    forall k { ListStep(d, DataCaveats, "Data caveats", caveats, k); }
  }

  lemma ComposedIsFaithful(c: Candidate, executes: bool, v: Validation, confidence: Option<int>, percent: int -> string)
    requires Publishable(c, executes)
    requires v.status.Degraded? ==> v.degradationReasons != [] && Solid(v.degradationReasons)
    ensures Faithful(Composed(c, v, confidence, percent), v.status.Degraded?)
  {
    hide Publishable, Faithful, Body, Dedupe, Solid, WithList;
    BodyIsFaithful(c, executes, confidence, percent);
    if v.status.Degraded? {
      CaveatsRemain(v.degradationReasons, c.missingData);
      CaveatsKeepFaith(Body(c, confidence, percent), Dedupe(v.degradationReasons + c.missingData));
    }
  }

  lemma MentionStays(before: seq<Section>, after: seq<Section>, key: Key, title: string, part: string)
    requires before <= after && Mentions(before, key, title, part)
    ensures Mentions(after, key, title, part)
  {
    hide Contains;
    var i :| 0 <= i < |before| && before[i].key == key && before[i].title == title && Contains(before[i].text, part);
    assert after[i] == before[i];
  }

  lemma ListStays(before: seq<Section>, after: seq<Section>, key: Key, title: string, texts: seq<string>)
    requires before <= after && Lists(before, key, title, texts)
    ensures Lists(after, key, title, texts)
  {
    hide Strip, Mentions;
    forall i | 0 <= i < |texts| && Strip(texts[i]) != "" ensures Mentions(after, key, title, "- " + Strip(texts[i])) {
      MentionStays(before, after, key, title, "- " + Strip(texts[i]));
    }
  }

  lemma ReadsStays(
    before: seq<Section>, after: seq<Section>, c: Candidate, shown: Option<int>, percent: int -> string)
    requires before <= after && InOrder(after, 8) && Reads(before, c, shown, percent)
    ensures Reads(after, c, shown, percent)
  {
    hide Strip, Mentions, Lists, InOrder, ShowsText, Raw;
    MentionStays(before, after, Stance, "Stance", Strip(c.rating) + " / " + Strip(c.direction));
    if shown.Some? {
      MentionStays(before, after, Stance, "Stance", Strip("confidence " + percent(shown.value)));
    }
    if c.marketType != "" {
      MentionStays(before, after, Stance, "Stance", Strip("market " + c.marketType));
    }
    MentionStays(before, after, Thesis, "Thesis", Strip(c.actionSummary));
    MentionStays(before, after, Thesis, "Thesis", Strip(c.investmentThesis));
    ListStays(before, after, KeyReasons, "Key reasons", Raw(c.keyReasons));
    ListStays(before, after, Risks, "Risks", Raw(c.risks));
    ShownStays(before, after, Confirmation, "Confirmation", Strip(c.confirmation));
    ShownStays(before, after, Invalidation, "Invalidation", Strip(c.invalidation));
    ListStays(before, after, MonitorNext, "Monitor next", Raw(c.monitorNext));
  }

  lemma CaveatsListed(sections: seq<Section>, texts: seq<string>)
    requires Dedupe(Dedupe(texts)) != [] ==> ShowsText(sections, DataCaveats, "Data caveats", Bullets(Dedupe(Dedupe(texts))))
    ensures Lists(sections, DataCaveats, "Data caveats", texts)
  {
    hide Strip, ShowsText, Bullets, Mentions;
    ListsTexts(sections, DataCaveats, "Data caveats", Dedupe(texts));
    DedupeExact(texts);
    forall i | 0 <= i < |texts| && Strip(texts[i]) != ""
      ensures Mentions(sections, DataCaveats, "Data caveats", "- " + Strip(texts[i]))
    {
      var k :| 0 <= k < |Dedupe(texts)| && Dedupe(texts)[k] == Strip(texts[i]);
      StripIdempotent(texts[i]);
    }
  }

  /** The whole thesis reads as it should, and a degraded one also lists every caveat. */
  lemma ComposedReads(c: Candidate, executes: bool, v: Validation, confidence: Option<int>, percent: int -> string)
    requires Publishable(c, executes)
    ensures var s := Composed(c, v, confidence, percent).sections;
            && Reads(s, c, confidence, percent)
            && (v.status.Degraded? ==> Lists(s, DataCaveats, "Data caveats", v.degradationReasons + c.missingData))
  {
    hide Publishable, Reads, Body, Dedupe, WithList, InOrder, ShowsText, Bullets, Lists, Shows;
    BodyFound(c, executes, confidence, percent);
    var body, all := Body(c, confidence, percent), v.degradationReasons + c.missingData;
    var caveats := Dedupe(all);
    if v.status.Degraded? && caveats != [] {
      ListStep(body, DataCaveats, "Data caveats", caveats, DataCaveats);
      ReadsStays(body.sections, Composed(c, v, confidence, percent).sections, c, confidence, percent);
    }
    if v.status.Degraded? {
      NothingDeduped();
      CaveatsListed(Composed(c, v, confidence, percent).sections, all);
    }
  }

  lemma NothingDeduped()
    ensures Dedupe([]) == []
  {
  }

  predicate Solid(texts: seq<string>) {
    forall i | 0 <= i < |texts| :: Strip(texts[i]) != ""
  }

  /** Cleaned caveats are not blank, so cleaning them again leaves some. */
  lemma CaveatsRemain(reasons: seq<string>, missing: seq<string>)
    requires reasons != [] && Solid(reasons)
    ensures Dedupe(reasons + missing) != [] && Dedupe(Dedupe(reasons + missing)) != []
  {
    var all := reasons + missing;
    assert all[0] == reasons[0] && Strip(reasons[0]) != "";
    DedupeExact(all);
    assert Strip(all[0]) in Dedupe(all);
    ReasonsSolid(all);
    DedupeExact(Dedupe(all));
    assert Strip(Dedupe(all)[0]) in Dedupe(Dedupe(all));
  }

  /** Validation followed by compilation, as the builder runs them: it gives the validator the
      payload and the compiler the candidate the payload parses to. */
  method BuildText(
    payload: Option<Payload>, source: Option<string>, dataLabel: Confidence.DataLabel,
    executes: Candidate -> bool, confidence: Option<int>, percent: int -> string)
    returns (v: Validation, r: Compilation)
    ensures r.source == if Accepted(payload, source, executes) then Compiled else Diagnostic
    ensures v.status.Blocked? <==> r.source.Diagnostic?
    ensures r.source.Compiled? ==>
              && Faithful(Draft(r.sections, r.omitted), v.status.Degraded?)
              && Reads(r.sections, payload.value.parsed.value, Shown(payload.value.parsed.value, v, confidence), percent)
              && (v.status.Degraded? ==>
                    Lists(r.sections, DataCaveats, "Data caveats",
                          v.degradationReasons + payload.value.parsed.value.missingData))
              && (forall i | 0 <= i < |r.sections| :: Contains(r.text, r.sections[i].text))
              && Shown(payload.value.parsed.value, v, confidence) ==
                 Confidence.Rendered(confidence, payload.value.parsed.value.confidence, dataLabel)
  {
    v := Validate(payload, source, dataLabel, executes);
    var candidate := if payload.None? then None else payload.value.parsed;
    r := Compile(candidate, v, confidence, percent);
    hide Publishable, Composed, Faithful, Render, Contains, Dedupe, Strip, Reads, Lists;
    if r.source.Compiled? {
      var c := candidate.value;
      if v.status.Degraded? {
        ReasonsSolid(Codes(v.issues, Warning));
      }
      ComposedIsFaithful(c, executes(c), v, Shown(c, v, confidence), percent);
      ComposedReads(c, executes(c), v, Shown(c, v, confidence), percent);
      forall i | 0 <= i < |r.sections| ensures Contains(r.text, r.sections[i].text) {
        RenderContains(r.sections, i);
      }
    }
  }

  lemma ReasonsSolid(values: seq<string>)
    ensures Solid(Dedupe(values))
  {
    DedupeExact(values);
    forall i | 0 <= i < |Dedupe(values)| ensures Strip(Dedupe(values)[i]) != "" {
      assert Dedupe(values)[i] in Dedupe(values);
      var j :| 0 <= j < |values| && Strip(values[j]) == Dedupe(values)[i];
      StripIdempotent(values[j]);
    }
  }
}
