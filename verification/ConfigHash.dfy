/**
 The canonical form that `graph/config_hash.py` hashes: top-level paths dropped, secrets redacted,
 keys sorted. What follows it, JSON text and SHA-256, is not modelled.
 */
module ConfigHash {
  import opened Text

  datatype Json =
    | Null
    | Bool(b: bool)
    | Num(n: int)
    | Str(s: string)
    | List(items: seq<Json>)
    | Dict(entries: seq<Entry>)  // in insertion order

  datatype Entry = Entry(key: string, value: Json)

  // ----- the code -----

  /** Case folding of the pattern's letters under `re.IGNORECASE`. */
  function Fold(c: char): char {
    if c as int == 0x130 || c as int == 0x131 then 'i'
    else if c as int == 0x17F then 's'
    else if c as int == 0x212A then 'k'
    else LowerChar(c)
  }

  const SECRET_PARTS: seq<string> := [
    "apikey", "api_key", "api-key", "token", "secret", "password", "authorization", "auth",
    "credential", "clientsecret", "client_secret", "client-secret"
  ]

  function Folded(key: string): string {
    seq(|key|, i requires 0 <= i < |key| => Fold(key[i]))
  }

  predicate IsSecret(key: string) {
    exists k | 0 <= k < |SECRET_PARTS| :: Contains(Folded(key), SECRET_PARTS[k])
  }

  /** A secret word stands at position i of the key, whatever its case. */
  predicate SecretAt(key: string, k: nat, i: nat)
    requires k < |SECRET_PARTS|
  {
    i + |SECRET_PARTS[k]| <= |key| && Lower(key[i..i + |SECRET_PARTS[k]|]) == SECRET_PARTS[k]
  }

  /** ASCII letters fold to lower case; beyond ASCII only the dotted and the dotless i, the long s and
      the Kelvin sign fold to a letter. */
  lemma AsciiFolds(c: char)
    ensures c as int < 128 ==> Fold(c) == LowerChar(c)
    ensures c as int >= 128 ==>
              && (c in [0x130 as char, 0x131 as char] <==> Fold(c) == 'i')
              && (c == 0x17F as char <==> Fold(c) == 's') && (c == 0x212A as char <==> Fold(c) == 'k')
              && (Fold(c) as int < 128 ==> Fold(c) in ['i', 's', 'k'])
  {
  }

  lemma FoldedSlice(key: string, i: nat, n: nat)
    requires i + n <= |key| && forall j | i <= j < i + n :: key[j] as int < 128
    ensures Folded(key)[i..i + n] == Lower(key[i..i + n])
  {
    hide Fold, LowerChar;
    forall j | i <= j < i + n { AsciiFolds(key[j]); }
  }

  /** The words are ASCII and in lower case, and so is whatever lowers to one. */
  lemma LowersToWord(c: char, d: char)
    requires LowerChar(c) == d && d as int < 128
    ensures c as int < 128
  {
  }

  lemma WordsAreAscii(k: nat)
    requires k < |SECRET_PARTS|
    ensures forall j | 0 <= j < |SECRET_PARTS[k]| :: SECRET_PARTS[k][j] as int < 128
  {
  }

  /** A key with a secret word in it is secret, in whatever case the word is written; an ASCII key is
      secret only then. */
  lemma SecretIff(key: string)
    ensures (exists k: nat, i: nat | k < |SECRET_PARTS| :: SecretAt(key, k, i)) ==> IsSecret(key)
    ensures (forall c | c in key :: c as int < 128) ==>
              (IsSecret(key) <==> exists k: nat, i: nat | k < |SECRET_PARTS| :: SecretAt(key, k, i))
  {
    hide Fold, LowerChar;
    var folded := Folded(key);
    forall k: nat, i: nat | k < |SECRET_PARTS| && SecretAt(key, k, i) ensures Contains(folded, SECRET_PARTS[k]) {
      SecretFolds(key, k, i);
    }
    if (forall c | c in key :: c as int < 128) && IsSecret(key) {
      var k: nat :| k < |SECRET_PARTS| && Contains(folded, SECRET_PARTS[k]);
      var i: nat :| i <= |folded| && PartAt(folded, i, SECRET_PARTS[k]);
      assert forall j | 0 <= j < |key| :: key[j] in key;
      FoldedSlice(key, i, |SECRET_PARTS[k]|);
      assert SecretAt(key, k, i);
    }
  }

  lemma SecretFolds(key: string, k: nat, i: nat)
    requires k < |SECRET_PARTS| && SecretAt(key, k, i)
    ensures Contains(Folded(key), SECRET_PARTS[k])
  {
    var n := |SECRET_PARTS[k]|;
    WordsAreAscii(k);
    hide Fold, LowerChar;
    forall j | i <= j < i + n ensures key[j] as int < 128 {
      assert Lower(key[i..i + n])[j - i] == LowerChar(key[j]);
      LowersToWord(key[j], SECRET_PARTS[k][j - i]);
    }
    FoldedSlice(key, i, n);
    assert PartAt(Folded(key), i, SECRET_PARTS[k]);
  }

  /** Writing a key in lower case, or something before or behind it, never uncovers it. */
  lemma SecretStays(before: string, key: string, after: string)
    ensures IsSecret(Lower(key)) <==> IsSecret(key)
    ensures IsSecret(key) ==> IsSecret(before + key + after)
  {
    FoldOfLower(key);
    FoldOfThree(before, key, after);
    hide Fold, LowerChar, Lower;
    if IsSecret(key) {
      var k :| 0 <= k < |SECRET_PARTS| && Contains(Folded(key), SECRET_PARTS[k]);
      ContainsWider(Folded(before), Folded(key), Folded(after), SECRET_PARTS[k]);
    }
  }

  lemma FoldOfLower(key: string)
    ensures Folded(Lower(key)) == Folded(key)
  {
    forall j | 0 <= j < |key| ensures Fold(LowerChar(key[j])) == Fold(key[j]) {
      LowerKeepsSpaces(key[j]);
    }
  }

  lemma FoldOfThree(a: string, b: string, c: string)
    ensures Folded(a + b + c) == Folded(a) + Folded(b) + Folded(c)
  {
    hide Fold;
  }

  const EXCLUDED_TOP_KEYS: set<string> := {"project_dir", "results_dir", "data_cache_dir"}

  const REDACTED := Str("[REDACTED]")

  function Redact(v: Json): Json {
    match v
    case Dict(entries) => Dict(RedactEntries(entries))
    case List(items) => List(RedactItems(items))
    case _ => v
  }

  function RedactEntries(entries: seq<Entry>): seq<Entry> {
    if entries == [] then []
    else
      var e := entries[0];
      [Entry(e.key, if IsSecret(e.key) then REDACTED else Redact(e.value))] + RedactEntries(entries[1..])
  }

  function RedactItems(items: seq<Json>): seq<Json> {
    if items == [] then [] else [Redact(items[0])] + RedactItems(items[1..])
  }

  /** The order of `sorted` on strings: by code point, a prefix first. */
  predicate Before(a: string, b: string) {
    if b == [] then false
    else if a == [] then true
    else a[0] < b[0] || (a[0] == b[0] && Before(a[1..], b[1..]))
  }

  function Insert(e: Entry, sorted: seq<Entry>): seq<Entry> {
    if sorted == [] || Before(e.key, sorted[0].key) then [e] + sorted
    else [sorted[0]] + Insert(e, sorted[1..])
  }

  function SortDict(v: Json): Json {
    match v
    case Dict(entries) => Dict(SortEntries(entries))
    case List(items) => List(SortItems(items))
    case _ => v
  }

  function SortEntries(entries: seq<Entry>): seq<Entry> {
    if entries == [] then []
    else Insert(Entry(entries[0].key, SortDict(entries[0].value)), SortEntries(entries[1..]))
  }

  function SortItems(items: seq<Json>): seq<Json> {
    if items == [] then [] else [SortDict(items[0])] + SortItems(items[1..])
  }

  function Exclude(entries: seq<Entry>): seq<Entry> {
    if entries == [] then []
    else (if entries[0].key in EXCLUDED_TOP_KEYS then [] else [entries[0]]) + Exclude(entries[1..])
  }

  /** The value `compute_config_hash` serialises. */
  function Canonical(config: seq<Entry>): Json {
    SortDict(Redact(Dict(Exclude(config))))
  }

  // ----- Python dictionaries -----

  predicate DistinctKeys(entries: seq<Entry>) {
    forall i, j | 0 <= i < j < |entries| :: entries[i].key != entries[j].key
  }

  predicate WellFormed(v: Json) {
    match v
    case Dict(entries) => DistinctKeys(entries) && forall i | 0 <= i < |entries| :: WellFormed(entries[i].value)
    case List(items) => forall i | 0 <= i < |items| :: WellFormed(items[i])
    case _ => true
  }

  function Lookup(entries: seq<Entry>, key: string): Option<Json> {
    if entries == [] then None
    else if entries[0].key == key then Some(entries[0].value)
    else Lookup(entries[1..], key)
  }

  function Keys(entries: seq<Entry>): set<string> {
    set i | 0 <= i < |entries| :: entries[i].key
  }

  lemma LookupFinds(entries: seq<Entry>, key: string)
    ensures Lookup(entries, key).Some? <==> key in Keys(entries)
    ensures Lookup(entries, key).Some? ==>
              exists i | 0 <= i < |entries| :: entries[i] == Entry(key, Lookup(entries, key).value)
  {
    if entries != [] && entries[0].key != key {
      LookupFinds(entries[1..], key);
      if Lookup(entries, key).Some? {
        var i :| 0 <= i < |entries[1..]| && entries[1..][i] == Entry(key, Lookup(entries, key).value);
        assert entries[i + 1] == entries[1..][i];
      }
      if key in Keys(entries) {
        var i :| 0 <= i < |entries| && entries[i].key == key;
        assert entries[1..][i - 1].key == key;
      }
    } else if entries != [] {
      assert entries[0] == Entry(key, entries[0].value);
    }
  }

  lemma LookupAt(entries: seq<Entry>, i: nat)
    requires i < |entries| && DistinctKeys(entries)
    ensures Lookup(entries, entries[i].key) == Some(entries[i].value)
  {
    if i > 0 {
      assert DistinctKeys(entries[1..]);
      LookupAt(entries[1..], i - 1);
    }
  }

  // ----- the order of keys -----

  lemma BeforeTrichotomy(a: string, b: string)
    ensures a == b || Before(a, b) || Before(b, a)
    ensures !(Before(a, b) && Before(b, a)) && !Before(a, a)
  {
    if a != [] && b != [] && a[0] == b[0] {
      BeforeTrichotomy(a[1..], b[1..]);
      assert a == [a[0]] + a[1..] && b == [b[0]] + b[1..];
    }
    if a != [] {
      BeforeTrichotomy(a[1..], a[1..]);
    }
  }

  lemma BeforeTransitive(a: string, b: string, c: string)
    requires Before(a, b) && Before(b, c)
    ensures Before(a, c)
  {
    if a != [] && a[0] == b[0] == c[0] {
      BeforeTransitive(a[1..], b[1..], c[1..]);
    }
  }

  /** Each key is before all later ones. */
  predicate Sorted(entries: seq<Entry>) {
    entries == [] ||
    ((forall i | 0 < i < |entries| :: Before(entries[0].key, entries[i].key)) && Sorted(entries[1..]))
  }

  lemma {:induction false} InsertSorts(e: Entry, sorted: seq<Entry>)
    requires Sorted(sorted) && Lookup(sorted, e.key).None?
    ensures Sorted(Insert(e, sorted))
    ensures forall k :: Lookup(Insert(e, sorted), k) ==
                        if k == e.key then Some(e.value) else Lookup(sorted, k)
    ensures forall x | x in Insert(e, sorted) :: x == e || x in sorted
  {
    if sorted != [] {
      var head := sorted[0];
      BeforeTrichotomy(e.key, head.key);
      if Before(e.key, head.key) {
        forall i | 0 < i < |[e] + sorted| ensures Before(e.key, ([e] + sorted)[i].key) {
          if i > 1 {
            BeforeTransitive(e.key, head.key, sorted[i - 1].key);
          }
        }
      } else {
        InsertSorts(e, sorted[1..]);
        var tail := Insert(e, sorted[1..]);
        forall i | 0 < i < |[head] + tail| ensures Before(head.key, ([head] + tail)[i].key) {
          assert tail[i - 1] in tail;
        }
      }
    }
  }

  /** Two sorted entry lists with the same content are the same list. */
  lemma {:induction false} SortedUnique(xs: seq<Entry>, ys: seq<Entry>)
    requires Sorted(xs) && Sorted(ys)
    requires forall k :: Lookup(xs, k) == Lookup(ys, k)
    ensures xs == ys
  {
    assert xs != [] ==> Lookup(ys, xs[0].key).Some?;
    assert ys != [] ==> Lookup(xs, ys[0].key).Some?;
    if xs != [] && ys != [] {
      HeadIsLeast(xs, ys[0].key);
      HeadIsLeast(ys, xs[0].key);
      BeforeTrichotomy(xs[0].key, ys[0].key);
      forall k ensures Lookup(xs[1..], k) == Lookup(ys[1..], k) {
        assert Lookup(xs, k) == Lookup(ys, k);
        if k == xs[0].key {
          HeadNotInTail(xs);
          HeadNotInTail(ys);
        }
      }
      SortedUnique(xs[1..], ys[1..]);
    }
  }

  lemma HeadIsLeast(xs: seq<Entry>, key: string)
    requires Sorted(xs) && xs != [] && Lookup(xs, key).Some?
    ensures key == xs[0].key || Before(xs[0].key, key)
  {
    LookupFinds(xs, key);
  }

  lemma HeadNotInTail(xs: seq<Entry>)
    requires Sorted(xs) && xs != []
    ensures Lookup(xs[1..], xs[0].key).None?
  {
    LookupFinds(xs[1..], xs[0].key);
    if Lookup(xs[1..], xs[0].key).Some? {
      var i :| 0 <= i < |xs[1..]| && xs[1..][i].key == xs[0].key;
      assert xs[i + 1].key == xs[0].key;
      BeforeTrichotomy(xs[0].key, xs[0].key);
    }
  }

  // ----- what the canonical form contains -----

  function Canon(v: Json): Json {
    SortDict(Redact(v))
  }

  function CanonEntries(entries: seq<Entry>): seq<Entry> {
    SortEntries(RedactEntries(entries))
  }

  function CanonValue(key: string, v: Json): Json {
    if IsSecret(key) then REDACTED else Canon(v)
  }

  lemma {:induction false} CanonEntriesContent(entries: seq<Entry>)
    requires DistinctKeys(entries)
    ensures Sorted(CanonEntries(entries))
    ensures forall k :: Lookup(CanonEntries(entries), k) ==
                        match Lookup(entries, k)
                        case None => None
                        case Some(v) => Some(CanonValue(k, v))
  {
    if entries != [] {
      var e := entries[0];
      assert DistinctKeys(entries[1..]) by {
        forall i, j | 0 <= i < j < |entries[1..]| ensures entries[1..][i].key != entries[1..][j].key {
          assert entries[i + 1].key != entries[j + 1].key;
        }
      }
      CanonEntriesContent(entries[1..]);
      LookupFinds(entries[1..], e.key);
      var redacted := RedactEntries(entries);
      assert redacted[1..] == RedactEntries(entries[1..]);
      var first := Entry(e.key, CanonValue(e.key, e.value));
      assert first == Entry(redacted[0].key, SortDict(redacted[0].value));
      assert CanonEntries(entries) == Insert(first, CanonEntries(entries[1..]));
      InsertSorts(first, CanonEntries(entries[1..]));
    }
  }

  // ----- which configs have the same canonical form -----

  /** Equal up to the order of keys at every level and up to values under secret keys. */
  ghost predicate Agree(a: Json, b: Json)
    decreases a
  {
    match (a, b)
    case (Dict(xs), Dict(ys)) =>
      && Keys(xs) == Keys(ys)
      && forall i, j | 0 <= i < |xs| && 0 <= j < |ys| && xs[i].key == ys[j].key && !IsSecret(xs[i].key) ::
           Agree(xs[i].value, ys[j].value)
    case (List(xs), List(ys)) => |xs| == |ys| && forall i | 0 <= i < |xs| :: Agree(xs[i], ys[i])
    case _ => a == b
  }

  lemma CanonItemsAt(items: seq<Json>)
    ensures |SortItems(RedactItems(items))| == |items|
    ensures forall i | 0 <= i < |items| :: SortItems(RedactItems(items))[i] == Canon(items[i])
  {
    if items != [] {
      CanonItemsAt(items[1..]);
      assert RedactItems(items)[1..] == RedactItems(items[1..]);
    }
  }

  lemma DictsIffEntries(xs: seq<Entry>, ys: seq<Entry>)
    requires DistinctKeys(xs) && DistinctKeys(ys)
    ensures CanonEntries(xs) == CanonEntries(ys) <==>
            && Keys(xs) == Keys(ys)
            && forall i, j | 0 <= i < |xs| && 0 <= j < |ys| && xs[i].key == ys[j].key && !IsSecret(xs[i].key) ::
                 Canon(xs[i].value) == Canon(ys[j].value)
  {
    CanonEntriesContent(xs);
    CanonEntriesContent(ys);
    if CanonEntries(xs) == CanonEntries(ys) {
      SameContent(xs, ys);
    } else if
      && Keys(xs) == Keys(ys)
      && forall i, j | 0 <= i < |xs| && 0 <= j < |ys| && xs[i].key == ys[j].key && !IsSecret(xs[i].key) ::
           Canon(xs[i].value) == Canon(ys[j].value)
    {
      forall k ensures Lookup(CanonEntries(xs), k) == Lookup(CanonEntries(ys), k) {
        LookupFinds(xs, k);
        LookupFinds(ys, k);
      }
      SortedUnique(CanonEntries(xs), CanonEntries(ys));
    }
  }

  lemma SameContent(xs: seq<Entry>, ys: seq<Entry>)
    requires DistinctKeys(xs) && DistinctKeys(ys)
    requires CanonEntries(xs) == CanonEntries(ys)
    ensures Keys(xs) == Keys(ys)
    ensures forall i, j | 0 <= i < |xs| && 0 <= j < |ys| && xs[i].key == ys[j].key && !IsSecret(xs[i].key) ::
              Canon(xs[i].value) == Canon(ys[j].value)
  {
    CanonEntriesContent(xs);
    CanonEntriesContent(ys);
    forall k ensures k in Keys(xs) <==> k in Keys(ys) {
      LookupFinds(xs, k);
      LookupFinds(ys, k);
      assert Lookup(CanonEntries(xs), k) == Lookup(CanonEntries(ys), k);
    }
    forall i, j | 0 <= i < |xs| && 0 <= j < |ys| && xs[i].key == ys[j].key && !IsSecret(xs[i].key)
      ensures Canon(xs[i].value) == Canon(ys[j].value)
    {
      LookupAt(xs, i);
      LookupAt(ys, j);
      assert Lookup(CanonEntries(xs), xs[i].key) == Lookup(CanonEntries(ys), ys[j].key);
    }
  }

  lemma {:induction false} CanonIffAgree(a: Json, b: Json)
    requires WellFormed(a) && WellFormed(b)
    ensures Canon(a) == Canon(b) <==> Agree(a, b)
    decreases a
  {
    match (a, b)
    case (Dict(xs), Dict(ys)) =>
      forall i, j | 0 <= i < |xs| && 0 <= j < |ys| && xs[i].key == ys[j].key
        ensures Canon(xs[i].value) == Canon(ys[j].value) <==> Agree(xs[i].value, ys[j].value)
      {
        CanonIffAgree(xs[i].value, ys[j].value);
      }
      DictsIffEntries(xs, ys);
    case (List(xs), List(ys)) =>
      CanonItemsAt(xs);
      CanonItemsAt(ys);
      if |xs| == |ys| {
        forall i | 0 <= i < |xs| ensures Canon(xs[i]) == Canon(ys[i]) <==> Agree(xs[i], ys[i]) {
          CanonIffAgree(xs[i], ys[i]);
        }
        if Agree(a, b) {
          assert SortItems(RedactItems(xs)) == SortItems(RedactItems(ys));
        }
        if Canon(a) == Canon(b) {
          forall i | 0 <= i < |xs| ensures Agree(xs[i], ys[i]) {
            assert SortItems(RedactItems(xs))[i] == SortItems(RedactItems(ys))[i];
          }
        }
      }
    case _ =>
  }

  lemma ExcludeContent(config: seq<Entry>)
    ensures forall e :: e in Exclude(config) <==> e in config && e.key !in EXCLUDED_TOP_KEYS
    ensures DistinctKeys(config) ==> DistinctKeys(Exclude(config))
  {
    if config != [] {
      ExcludeContent(config[1..]);
      assert config == [config[0]] + config[1..];
      if DistinctKeys(config) {
        assert DistinctKeys(config[1..]) by {
          forall i, j | 0 <= i < j < |config[1..]| ensures config[1..][i].key != config[1..][j].key {
            assert config[i + 1].key != config[j + 1].key;
          }
        }
        forall e | e in Exclude(config[1..]) ensures e.key != config[0].key {
          var j :| 0 <= j < |config[1..]| && config[1..][j] == e;
          assert config[j + 1].key != config[0].key;
        }
      }
    }
  }

  /** Two configs that agree apart from key order, secret values and the excluded top-level paths. */
  ghost predicate ConfigsAgree(c1: seq<Entry>, c2: seq<Entry>) {
    && Keys(c1) - EXCLUDED_TOP_KEYS == Keys(c2) - EXCLUDED_TOP_KEYS
    && forall x, y | x in c1 && y in c2 && x.key == y.key && x.key !in EXCLUDED_TOP_KEYS && !IsSecret(x.key) ::
         Agree(x.value, y.value)
  }

  /** The canonical form is exact: it forgets key order, secrets and excluded paths, and nothing
      else. */
  lemma CanonicalIffConfigsAgree(c1: seq<Entry>, c2: seq<Entry>)
    requires WellFormed(Dict(c1)) && WellFormed(Dict(c2))
    ensures Canonical(c1) == Canonical(c2) <==> ConfigsAgree(c1, c2)
  {
    var xs, ys := Exclude(c1), Exclude(c2);
    ExcludeContent(c1);
    ExcludeContent(c2);
    KeysOfExcluded(c1);
    KeysOfExcluded(c2);
    assert WellFormed(Dict(xs)) by {
      forall i | 0 <= i < |xs| ensures WellFormed(xs[i].value) {
        assert xs[i] in xs;
      }
    }
    assert WellFormed(Dict(ys)) by {
      forall i | 0 <= i < |ys| ensures WellFormed(ys[i].value) {
        assert ys[i] in ys;
      }
    }
    CanonIffAgree(Dict(xs), Dict(ys));
    AgreeByMembership(xs, ys);
  }

  lemma KeysOfExcluded(config: seq<Entry>)
    ensures Keys(Exclude(config)) == Keys(config) - EXCLUDED_TOP_KEYS
  {
    ExcludeContent(config);
    forall k ensures k in Keys(Exclude(config)) <==> k in Keys(config) - EXCLUDED_TOP_KEYS {
      if k in Keys(Exclude(config)) {
        var i :| 0 <= i < |Exclude(config)| && Exclude(config)[i].key == k;
        assert Exclude(config)[i] in config;
      }
      if k in Keys(config) - EXCLUDED_TOP_KEYS {
        var i :| 0 <= i < |config| && config[i].key == k;
        assert config[i] in Exclude(config);
      }
    }
  }

  lemma AgreeByMembership(xs: seq<Entry>, ys: seq<Entry>)
    ensures Agree(Dict(xs), Dict(ys)) <==>
            && Keys(xs) == Keys(ys)
            && forall x, y | x in xs && y in ys && x.key == y.key && !IsSecret(x.key) :: Agree(x.value, y.value)
  {
    if Agree(Dict(xs), Dict(ys)) {
      forall x, y | x in xs && y in ys && x.key == y.key && !IsSecret(x.key) ensures Agree(x.value, y.value) {
        var i :| 0 <= i < |xs| && xs[i] == x;
        var j :| 0 <= j < |ys| && ys[j] == y;
      }
    }
  }

  // ----- redaction and sorting -----

  lemma {:induction false} RedactInsert(e: Entry, sorted: seq<Entry>)
    ensures RedactEntries(Insert(e, sorted)) ==
            Insert(Entry(e.key, if IsSecret(e.key) then REDACTED else Redact(e.value)), RedactEntries(sorted))
  {
    if sorted == [] || Before(e.key, sorted[0].key) {
      assert ([e] + sorted)[1..] == sorted;
    } else {
      RedactInsert(e, sorted[1..]);
      assert ([sorted[0]] + Insert(e, sorted[1..]))[1..] == Insert(e, sorted[1..]);
      assert RedactEntries(sorted)[1..] == RedactEntries(sorted[1..]);
    }
  }

  /** It does not matter whether secrets are redacted before or after sorting. */
  lemma {:induction false} RedactSortCommute(v: Json)
    ensures Redact(SortDict(v)) == SortDict(Redact(v))
    decreases v, 0
  {
    match v
    case Dict(entries) => RedactSortEntries(entries);
    case List(items) => RedactSortItems(items);
    case _ =>
  }

  lemma {:induction false} RedactSortEntries(entries: seq<Entry>)
    ensures RedactEntries(SortEntries(entries)) == SortEntries(RedactEntries(entries))
    decreases entries, 0
  {
    if entries != [] {
      var e := entries[0];
      RedactSortCommute(e.value);
      RedactSortEntries(entries[1..]);
      RedactInsert(Entry(e.key, SortDict(e.value)), SortEntries(entries[1..]));
      assert RedactEntries(entries)[1..] == RedactEntries(entries[1..]);
    }
  }

  lemma {:induction false} RedactSortItems(items: seq<Json>)
    ensures RedactItems(SortItems(items)) == SortItems(RedactItems(items))
    decreases items, 0
  {
    if items != [] {
      RedactSortCommute(items[0]);
      RedactSortItems(items[1..]);
      assert SortItems(items)[1..] == SortItems(items[1..]);
      assert RedactItems(items)[1..] == RedactItems(items[1..]);
    }
  }

  lemma {:induction false} RedactIdempotent(v: Json)
    ensures Redact(Redact(v)) == Redact(v)
    decreases v, 0
  {
    match v
    case Dict(entries) => RedactEntriesIdempotent(entries);
    case List(items) => RedactItemsIdempotent(items);
    case _ =>
  }

  lemma {:induction false} RedactEntriesIdempotent(entries: seq<Entry>)
    ensures RedactEntries(RedactEntries(entries)) == RedactEntries(entries)
    decreases entries, 0
  {
    if entries != [] {
      RedactIdempotent(entries[0].value);
      RedactEntriesIdempotent(entries[1..]);
      assert RedactEntries(entries)[1..] == RedactEntries(entries[1..]);
    }
  }

  lemma {:induction false} RedactItemsIdempotent(items: seq<Json>)
    ensures RedactItems(RedactItems(items)) == RedactItems(items)
    decreases items, 0
  {
    if items != [] {
      RedactIdempotent(items[0]);
      RedactItemsIdempotent(items[1..]);
      assert RedactItems(items)[1..] == RedactItems(items[1..]);
    }
  }

  /** Sorting a sorted list whose values are already sorted changes nothing. */
  lemma {:induction false} SortSorted(entries: seq<Entry>)
    requires Sorted(entries)
    requires forall e | e in entries :: SortDict(e.value) == e.value
    ensures SortEntries(entries) == entries
  {
    if entries != [] {
      SortSorted(entries[1..]);
      assert entries[0] in entries;
    }
  }

  lemma {:induction false} SortIdempotent(v: Json)
    requires WellFormed(v)
    ensures SortDict(SortDict(v)) == SortDict(v)
    decreases v, 0
  {
    match v
    case Dict(entries) =>
      SortEntriesContent(entries);
      SortSorted(SortEntries(entries));
    case List(items) => SortItemsIdempotent(items);
    case _ =>
  }

  lemma {:induction false} SortEntriesContent(entries: seq<Entry>)
    requires DistinctKeys(entries) && forall i | 0 <= i < |entries| :: WellFormed(entries[i].value)
    ensures Sorted(SortEntries(entries))
    ensures forall k :: Lookup(SortEntries(entries), k).Some? <==> Lookup(entries, k).Some?
    ensures forall e | e in SortEntries(entries) :: SortDict(e.value) == e.value
    decreases entries, 0
  {
    if entries != [] {
      assert DistinctKeys(entries[1..]) by {
        forall i, j | 0 <= i < j < |entries[1..]| ensures entries[1..][i].key != entries[1..][j].key {
          assert entries[i + 1].key != entries[j + 1].key;
        }
      }
      SortIdempotent(entries[0].value);
      SortEntriesContent(entries[1..]);
      LookupFinds(entries[1..], entries[0].key);
      InsertSorts(Entry(entries[0].key, SortDict(entries[0].value)), SortEntries(entries[1..]));
    }
  }

  lemma {:induction false} SortItemsIdempotent(items: seq<Json>)
    requires forall i | 0 <= i < |items| :: WellFormed(items[i])
    ensures SortItems(SortItems(items)) == SortItems(items)
    decreases items, 0
  {
    if items != [] {
      SortIdempotent(items[0]);
      SortItemsIdempotent(items[1..]);
      assert SortItems(items)[1..] == SortItems(items[1..]);
    }
  }
}
