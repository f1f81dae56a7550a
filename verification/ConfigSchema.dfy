/**
 The parts of `validate_and_normalize_config` that the router and the LLM orchestrator rely on:
 vendor chains, fallback providers and the breaker threshold.
 */
module ConfigSchema {
  import opened Text
  import opened VendorRouting
  import opened LlmOrchestration
  import opened CircuitBreaker

  // ----- lower-casing and stripping -----

  lemma {:induction false} StripLeftOfLower(s: string)
    ensures StripLeft(Lower(s)) == Lower(StripLeft(s))
  {
    if s != [] {
      LowerKeepsSpaces(s[0]);
      assert Lower(s)[1..] == Lower(s[1..]);
      StripLeftOfLower(s[1..]);
    }
  }

  lemma {:induction false} StripRightOfLower(s: string)
    ensures StripRight(Lower(s)) == Lower(StripRight(s))
  {
    if s != [] {
      LowerKeepsSpaces(s[|s| - 1]);
      assert Lower(s)[..|s| - 1] == Lower(s[..|s| - 1]);
      StripRightOfLower(s[..|s| - 1]);
    }
  }

  /** The order of the two does not matter, and doing both twice changes nothing. */
  lemma StripLowerCommute(s: string)
    ensures Strip(Lower(s)) == Lower(Strip(s))
    ensures Lower(Lower(s)) == Lower(s)
    ensures Lower(Strip(Lower(Strip(s)))) == Lower(Strip(s))
  {
    StripLeftOfLower(s);
    StripRightOfLower(StripLeft(s));
    LowerTwice(s);
    LowerTwice(Strip(s));
    StripLeftOfLower(Strip(s));
    StripRightOfLower(StripLeft(Strip(s)));
    StripIdempotent(s);
  }

  // ----- vendor chains -----

  datatype ChainValue = Written(text: string) | Listed(items: seq<string>) | Unusable

  function NonEmptyNames(parts: seq<string>): seq<string> {
    if parts == [] then []
    else (if Strip(parts[0]) == "" then [] else [Lower(Strip(parts[0]))]) + NonEmptyNames(parts[1..])
  }

  /** `_parse_vendor_chain`. */
  function ParseChain(value: ChainValue): seq<string> {
    match value
    case Written(text) => NonEmptyNames(SplitOn(text, ','))
    case Listed(items) => NonEmptyNames(items)
    case Unusable => []
  }

  /** `",".join(vendors)`. */
  function Join(vendors: seq<string>): string {
    if vendors == [] then []
    else if |vendors| == 1 then vendors[0]
    else vendors[0] + "," + Join(vendors[1..])
  }

  datatype ChainResult = Accepted(text: string) | EmptyChain | UnknownVendors(vendors: seq<string>)

  function Unknown(vendors: seq<string>, known: set<string>): seq<string> {
    if vendors == [] then []
    else (if vendors[0] in known then [] else [vendors[0]]) + Unknown(vendors[1..], known)
  }

  /** One entry of `data_vendors` or `tool_vendors`. */
  function NormalizeChain(value: ChainValue, known: set<string>): ChainResult {
    var vendors := ParseChain(value);
    if vendors == [] then EmptyChain
    else if Unknown(vendors, known) != [] then UnknownVendors(Unknown(vendors, known))
    else Accepted(Join(vendors))
  }

  lemma {:induction false} SplitOfWord(word: string, sep: char)
    requires sep !in word
    ensures SplitOn(word, sep) == [word]
  {
    if word != [] {
      SplitOfWord(word[1..], sep);
      assert word == [word[0]] + word[1..];
    }
  }

  lemma {:induction false} SplitAfterWord(word: string, rest: string, sep: char)
    requires sep !in word
    ensures SplitOn(word + [sep] + rest, sep) == [word] + SplitOn(rest, sep)
  {
    var text := word + [sep] + rest;
    if word == [] {
      assert text[1..] == rest;
    } else {
      assert text[1..] == word[1..] + [sep] + rest;
      SplitAfterWord(word[1..], rest, sep);
      assert word == [word[0]] + word[1..];
      assert ([word[1..]] + SplitOn(rest, sep))[1..] == SplitOn(rest, sep);
    }
  }

  /** Splitting at commas undoes the join of comma-free names. */
  lemma {:induction false} SplitOfJoin(vendors: seq<string>)
    requires vendors != [] && forall v | v in vendors :: ',' !in v
    ensures SplitOn(Join(vendors), ',') == vendors
  {
    assert vendors[0] in vendors;
    if |vendors| == 1 {
      SplitOfWord(vendors[0], ',');
      assert vendors == [vendors[0]];
    } else {
      SplitOfJoin(vendors[1..]);
      SplitAfterWord(vendors[0], Join(vendors[1..]), ',');
      assert vendors == [vendors[0]] + vendors[1..];
    }
  }

  /** And joining undoes splitting, of any text; no part has a comma. */
  lemma {:induction false} JoinOfSplit(text: string)
    ensures Join(SplitOn(text, ',')) == text
    ensures forall part | part in SplitOn(text, ',') :: ',' !in part
  {
    if text != [] {
      var rest := SplitOn(text[1..], ',');
      JoinOfSplit(text[1..]);
      assert rest == [rest[0]] + rest[1..];
      if text[0] == ',' {
        assert ([[]] + rest)[1..] == rest;
      } else {
        var parts := [[text[0]] + rest[0]] + rest[1..];
        assert parts[1..] == rest[1..];
        assert rest[0] in rest;
        if |rest| > 1 {
          assert [text[0]] + (rest[0] + "," + Join(rest[1..])) == ([text[0]] + rest[0]) + "," + Join(parts[1..]);
        }
      }
    }
  }

  /** What becomes of the parts of a chain: stripped and lower-cased, blank ones dropped. */
  lemma {:induction false} NamesMean(parts: seq<string>)
    ensures forall i | 0 <= i < |parts| && Strip(parts[i]) != "" :: Lower(Strip(parts[i])) in NonEmptyNames(parts)
    ensures forall v | v in NonEmptyNames(parts) :: exists i | 0 <= i < |parts| :: Strip(parts[i]) != "" && v == Lower(Strip(parts[i]))
  {
    hide Strip, Lower;
    if parts != [] {
      var rest := parts[1..];
      NamesMean(rest);
      forall i | 0 <= i < |parts| && Strip(parts[i]) != "" ensures Lower(Strip(parts[i])) in NonEmptyNames(parts) {
        assert i > 0 ==> rest[i - 1] == parts[i];
      }
      forall v | v in NonEmptyNames(parts)
        ensures exists i | 0 <= i < |parts| :: Strip(parts[i]) != "" && v == Lower(Strip(parts[i]))
      {
        if v in NonEmptyNames(rest) {
          var i :| 0 <= i < |rest| && Strip(rest[i]) != "" && v == Lower(Strip(rest[i]));
          assert parts[i + 1] == rest[i];
        } else {
          assert v == Lower(Strip(parts[0]));
        }
      }
    }
  }

  lemma {:induction false} NamesConcat(a: seq<string>, b: seq<string>)
    ensures NonEmptyNames(a + b) == NonEmptyNames(a) + NonEmptyNames(b)
  {
    hide Strip, Lower;
    if a == [] {
      assert a + b == b;
    } else {
      assert (a + b)[0] == a[0] && (a + b)[1..] == a[1..] + b;
      NamesConcat(a[1..], b);
    }
  }

  /** A chain is accepted exactly when some name is left and every name left is known, and then its
      text lists exactly these names in their order; otherwise the unknown ones are reported. */
  lemma AcceptedIff(value: ChainValue, known: set<string>)
    ensures var r, parts := NormalizeChain(value, known),
                            match value case Written(text) => SplitOn(text, ',') case Listed(items) => items case Unusable => [];
            && (r.EmptyChain? <==> forall i | 0 <= i < |parts| :: Strip(parts[i]) == "")
            && (r.Accepted? <==>
                  && !r.EmptyChain?
                  && forall i | 0 <= i < |parts| && Strip(parts[i]) != "" :: Lower(Strip(parts[i])) in known)
            && (r.UnknownVendors? ==>
                  forall v :: v in r.vendors <==>
                    v !in known && exists i | 0 <= i < |parts| :: Strip(parts[i]) != "" && v == Lower(Strip(parts[i])))
            && (r.Accepted? ==> r.text == Join(NonEmptyNames(parts)))
  {
    hide Strip, Lower, SplitOn, Join;
    var parts := match value case Written(text) => SplitOn(text, ',') case Listed(items) => items case Unusable => [];
    NamesMean(parts);
    UnknownExact(NonEmptyNames(parts), known);
    if NonEmptyNames(parts) != [] {
      assert NonEmptyNames(parts)[0] in NonEmptyNames(parts);
    }
    if Unknown(NonEmptyNames(parts), known) != [] {
      assert Unknown(NonEmptyNames(parts), known)[0] in Unknown(NonEmptyNames(parts), known);
    }
  }

  lemma {:induction false} UnknownExact(vendors: seq<string>, known: set<string>)
    ensures forall v :: v in Unknown(vendors, known) <==> v in vendors && v !in known
  {
    if vendors != [] {
      UnknownExact(vendors[1..], known);
      assert vendors == [vendors[0]] + vendors[1..];
    }
  }

  /** A name that the normalisation leaves alone. */
  predicate Settled(name: string) {
    name != "" && Strip(name) == name && Lower(name) == name
  }

  lemma {:induction false} NamesSettled(parts: seq<string>)
    ensures forall v | v in NonEmptyNames(parts) :: Settled(v)
  {
    if parts != [] {
      NamesSettled(parts[1..]);
      StripLowerCommute(parts[0]);
      StripIdempotent(parts[0]);
      StripLowerCommute(Strip(parts[0]));
      if Strip(parts[0]) != "" {
        assert |Lower(Strip(parts[0]))| == |Strip(parts[0])|;
        assert Settled(Lower(Strip(parts[0])));
      }
    }
  }

  lemma {:induction false} NamesOfSettled(names: seq<string>)
    requires forall v | v in names :: Settled(v)
    ensures NonEmptyNames(names) == names && StripAll(names) == names
  {
    if names != [] {
      assert Settled(names[0]);
      NamesOfSettled(names[1..]);
      assert names == [names[0]] + names[1..];
    }
  }

  lemma {:induction false} UnknownNone(vendors: seq<string>, known: set<string>)
    requires Unknown(vendors, known) == []
    ensures forall v | v in vendors :: v in known
  {
    if vendors != [] {
      UnknownNone(vendors[1..], known);
    }
  }

  /** An accepted chain is read back, by the normaliser and by the router alike, as exactly the
      vendors that were accepted; accepting it again changes nothing. */
  lemma AcceptedChainIsStable(value: ChainValue, known: set<string>)
    requires forall k | k in known :: ',' !in k
    requires NormalizeChain(value, known).Accepted?
    ensures var text := NormalizeChain(value, known).text;
            && ParseChain(Written(text)) == ParseChain(value)
            && StripAll(SplitOn(text, ',')) == ParseChain(value)
            && NormalizeChain(Written(text), known) == Accepted(text)
  {
    var vendors := ParseChain(value);
    UnknownNone(vendors, known);
    match value {
      case Written(text) => NamesSettled(SplitOn(text, ','));
      case Listed(items) => NamesSettled(items);
      case Unusable =>
    }
    SplitOfJoin(vendors);
    NamesOfSettled(vendors);
  }

  /** So the router tries the accepted vendors first, in the accepted order. */
  lemma RouterFollowsAcceptedChain(value: ChainValue, known: set<string>, available: seq<string>)
    requires forall k | k in known :: ',' !in k
    requires NormalizeChain(value, known).Accepted?
    ensures ParseChain(value) <= Chain(NormalizeChain(value, known).text, available)
  {
    AcceptedChainIsStable(value, known);
    ExtendCovers(ParseChain(value), available);
  }

  // ----- fallback providers -----

  function Key(p: string): string {
    Strip(Lower(p))
  }

  /** The entries kept, given the keys already seen. */
  function Kept(providers: seq<string>, primary: string, seen: set<string>): seq<string> {
    if providers == [] then []
    else
      var key := Key(providers[0]);
      if key == "" || (primary != "" && key == primary) || key in seen then Kept(providers[1..], primary, seen)
      else [Strip(providers[0])] + Kept(providers[1..], primary, seen + {key})
  }

  /** The fallback list with the primary and repetitions dropped; `None` if a name is unknown. */
  method NormalizeFallbacks(providers: seq<string>, primaryName: string, known: set<string>)
    returns (result: Option<seq<string>>)
    ensures result.None? <==> exists p :: p in providers && Lower(p) !in known
    ensures result.Some? ==> result.value == Kept(providers, Key(primaryName), {})
  {
    hide Strip, Lower, Key, Kept;
    for i := 0 to |providers|
      invariant forall k | 0 <= k < i :: Lower(providers[k]) in known
    {
      if Lower(providers[i]) !in known {
        assert providers[i] in providers;
        return None;
      }
    }
    var primary := Key(primaryName);
    var seen: set<string>, filtered := {}, [];
    assert providers[0..] == providers;
    for i := 0 to |providers|
      invariant Kept(providers, primary, {}) == filtered + Kept(providers[i..], primary, seen)
    {
      var p := providers[i];
      var key := Key(p);
      KeptStep(providers, i, primary, seen);
      if key == "" {
        continue;
      }
      if primary != "" && key == primary {
        continue;
      }
      if key in seen {
        continue;
      }
      seen := seen + {key};
      filtered := filtered + [Strip(p)];
    }
    NothingKept(providers[|providers|..], primary, seen);
    result := Some(filtered);
  }

  lemma KeptStep(providers: seq<string>, i: nat, primary: string, seen: set<string>)
    requires i < |providers|
    ensures var p, rest := providers[i], providers[i + 1..];
            Kept(providers[i..], primary, seen) ==
            if Wanted(Key(p), primary, seen) then [Strip(p)] + Kept(rest, primary, seen + {Key(p)})
            else Kept(rest, primary, seen)
  {
    hide Strip, Key;
    assert providers[i..][1..] == providers[i + 1..];
  }

  lemma NothingKept(providers: seq<string>, primary: string, seen: set<string>)
    requires providers == []
    ensures Kept(providers, primary, seen) == []
  {
  }

  lemma KeyOfStripped(p: string)
    ensures Key(Strip(p)) == Key(p) && Strip(Strip(p)) == Strip(p)
  {
    StripLowerCommute(p);
    StripLowerCommute(Strip(p));
    StripIdempotent(p);
  }

  predicate Wanted(key: string, primary: string, seen: set<string>) {
    key != "" && !(primary != "" && key == primary) && key !in seen
  }

  predicate HasKey(providers: seq<string>, key: string) {
    exists i | 0 <= i < |providers| :: Key(providers[i]) == key
  }

  predicate KeysDistinct(providers: seq<string>) {
    forall i, j | 0 <= i < j < |providers| :: Key(providers[i]) != Key(providers[j])
  }

  lemma HasKeySplits(ps: seq<string>)
    requires ps != []
    ensures forall key :: HasKey(ps, key) <==> Key(ps[0]) == key || HasKey(ps[1..], key)
    ensures KeysDistinct(ps) <==> KeysDistinct(ps[1..]) && !HasKey(ps[1..], Key(ps[0]))
  {
    hide Key;
    var rest := ps[1..];
    assert forall i | 1 <= i < |ps| :: ps[i] == rest[i - 1];
    assert forall i | 0 <= i < |rest| :: rest[i] == ps[i + 1];
  }

  /** Exactly the wanted keys survive, each once. */
  lemma {:induction false} KeptKeys(providers: seq<string>, primary: string, seen: set<string>)
    ensures forall key :: HasKey(Kept(providers, primary, seen), key) <==>
                          HasKey(providers, key) && Wanted(key, primary, seen)
    ensures KeysDistinct(Kept(providers, primary, seen))
    ensures forall p | p in Kept(providers, primary, seen) :: Strip(p) == p
  {
    hide Key, Strip, HasKey, KeysDistinct;
    if providers == [] {
      NoKeys();
    } else {
      var key := Key(providers[0]);
      HasKeySplits(providers);
      if Wanted(key, primary, seen) {
        KeptKeys(providers[1..], primary, seen + {key});
        KeyOfStripped(providers[0]);
        HasKeySplits(Kept(providers, primary, seen));
      } else {
        KeptKeys(providers[1..], primary, seen);
      }
    }
  }

  lemma NoKeys()
    ensures KeysDistinct([]) && forall key :: !HasKey([], key)
  {
  }

  /** A list with distinct wanted keys and no outer spaces is left as it is. */
  lemma {:induction false} KeptUnchanged(providers: seq<string>, primary: string, seen: set<string>)
    requires KeysDistinct(providers)
    requires forall i | 0 <= i < |providers| :: Wanted(Key(providers[i]), primary, seen) && Strip(providers[i]) == providers[i]
    ensures Kept(providers, primary, seen) == providers
  {
    hide Key, Strip;
    if providers != [] {
      KeptUnchanged(providers[1..], primary, seen + {Key(providers[0])});
      assert providers == [providers[0]] + providers[1..];
    }
  }

  lemma KeptIdempotent(providers: seq<string>, primary: string)
    ensures Kept(Kept(providers, primary, {}), primary, {}) == Kept(providers, primary, {})
  {
    hide Key, Strip, Kept;
    var kept := Kept(providers, primary, {});
    KeptKeys(providers, primary, {});
    forall i | 0 <= i < |kept| ensures Wanted(Key(kept[i]), primary, {}) && Strip(kept[i]) == kept[i] {
      assert HasKey(kept, Key(kept[i]));
      assert kept[i] in kept;
    }
    KeptUnchanged(kept, primary, {});
  }

  /** The whole second pass: as long as the known names have no outer spaces, the test for unknown
      names accepts what the first pass kept, so the normaliser returns its own result. */
  lemma SecondPassAccepts(providers: seq<string>, primary: string, known: set<string>)
    requires forall k | k in known :: Strip(k) == k
    requires forall p | p in providers :: Lower(p) in known
    ensures forall p | p in Kept(providers, primary, {}) :: Lower(p) in known
    ensures Kept(Kept(providers, primary, {}), primary, {}) == Kept(providers, primary, {})
  {
    KeptIdempotent(providers, primary);
    KeptFrom(providers, primary, {});
    hide Kept, Strip, Lower;
    forall p | p in Kept(providers, primary, {}) ensures Lower(p) in known {
      var q :| q in providers && Strip(q) == p;
      StripLowerCommute(q);
      assert Strip(Lower(q)) == Lower(q);
    }
  }

  lemma {:induction false} KeptFrom(providers: seq<string>, primary: string, seen: set<string>)
    ensures forall p | p in Kept(providers, primary, seen) :: exists q :: q in providers && Strip(q) == p
  {
    hide Strip, Key;
    if providers != [] {
      var key := Key(providers[0]);
      KeptFrom(providers[1..], primary, seen);
      KeptFrom(providers[1..], primary, seen + {key});
      assert providers[0] in providers;
    }
  }

  // ----- what the orchestrator is given -----

  function LowerAll(providers: seq<string>): seq<string> {
    seq(|providers|, i requires 0 <= i < |providers| => Lower(providers[i]))
  }

  /** The orchestrator, which lower-cases an accepted list, holds distinct providers other than the
      primary one, and its threshold is the one the breaker really applies. */
  lemma AcceptedConfigFitsOrchestrator(providers: seq<string>, primaryName: string, active: string, policy: Policy)
    requires policy.threshold >= 1
    ensures var fallbacks := LowerAll(Kept(providers, Key(primaryName), {}));
            && Distinct(fallbacks) && Distinct(Order(active, fallbacks))
            && (Key(primaryName) != "" ==> Key(primaryName) !in fallbacks)
            && EffectiveThreshold(policy) == policy.threshold
  {
    var kept := Kept(providers, Key(primaryName), {});
    var fallbacks := LowerAll(kept);
    KeptKeys(providers, Key(primaryName), {});
    hide Strip, Lower, Kept, Key, Order;
    forall i | 0 <= i < |fallbacks| ensures fallbacks[i] == Key(kept[i]) {
      assert kept[i] in kept;
      LowerIsKey(kept[i]);
    }
    OrderDistinct(active, fallbacks);
    assert Key(primaryName) != "" ==> !HasKey(kept, Key(primaryName));
  }

  lemma LowerIsKey(p: string)
    requires Strip(p) == p
    ensures Lower(p) == Key(p)
  {
    StripLowerCommute(p);
  }
}
