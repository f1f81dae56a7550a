/** The few operations on Python strings that the modelled code relies on. */
module Text {

  datatype Option<+T> = None | Some(value: T)

  /** The characters `str.strip()` removes. */
  predicate IsSpace(c: char) {
    var n := c as int;
    || 0x09 <= n <= 0x0D
    || 0x1C <= n <= 0x20
    || n == 0x85 || n == 0xA0 || n == 0x1680
    || 0x2000 <= n <= 0x200A
    || n == 0x2028 || n == 0x2029 || n == 0x202F || n == 0x205F || n == 0x3000
  }

  function StripLeft(s: string): string {
    if s != [] && IsSpace(s[0]) then StripLeft(s[1..]) else s
  }

  function StripRight(s: string): string {
    if s != [] && IsSpace(s[|s| - 1]) then StripRight(s[..|s| - 1]) else s
  }

  function Strip(s: string): string {
    StripRight(StripLeft(s))
  }

  /** `str.lower()` on ASCII; every other character is left as it is. */
  function LowerChar(c: char): char {
    if 'A' <= c <= 'Z' then (c as int + 32) as char else c
  }

  function Lower(s: string): string {
    seq(|s|, i requires 0 <= i < |s| => LowerChar(s[i]))
  }

  lemma LowerKeepsSpaces(c: char)
    ensures IsSpace(LowerChar(c)) == IsSpace(c) && LowerChar(LowerChar(c)) == LowerChar(c)
  {
  }

  lemma LowerTwice(s: string)
    ensures Lower(Lower(s)) == Lower(s)
  {
    forall i | 0 <= i < |s| ensures Lower(Lower(s))[i] == Lower(s)[i] {
      LowerKeepsSpaces(s[i]);
    }
  }

  predicate PartAt(s: string, i: nat, part: string) {
    i + |part| <= |s| && s[i..i + |part|] == part
  }

  predicate StartsWith(s: string, prefix: string) {
    PartAt(s, 0, prefix)
  }

  predicate Contains(s: string, part: string) {
    exists i: nat | i <= |s| :: PartAt(s, i, part)
  }

  predicate Distinct<T(==)>(s: seq<T>) {
    forall i, j | 0 <= i < j < |s| :: s[i] != s[j]
  }

  /** The parts stand in the whole at these positions, from left to right. */
  predicate StandsAt<T(==)>(part: seq<T>, whole: seq<T>, positions: seq<nat>) {
    && |positions| == |part|
    && (forall i | 0 <= i < |part| :: positions[i] < |whole| && whole[positions[i]] == part[i])
    && (forall i, j | 0 <= i < j < |part| :: positions[i] < positions[j])
  }

  ghost predicate Subsequence<T>(part: seq<T>, whole: seq<T>) {
    exists positions :: StandsAt(part, whole, positions)
  }

  /** A selection of a selection is a selection of the whole. */
  lemma SubsequenceOfSubsequence<T>(part: seq<T>, middle: seq<T>, whole: seq<T>)
    requires Subsequence(part, middle) && Subsequence(middle, whole)
    ensures Subsequence(part, whole)
  {
    var a :| StandsAt(part, middle, a);
    var b :| StandsAt(middle, whole, b);
    var c := seq(|a|, i requires 0 <= i < |a| => b[a[i]]);
    assert StandsAt(part, whole, c);
  }

  lemma SubsequenceBehind<T>(part: seq<T>, whole: seq<T>)
    requires whole != [] && Subsequence(part, whole[1..])
    ensures Subsequence(part, whole) && Subsequence([whole[0]] + part, whole)
  {
    var positions :| StandsAt(part, whole[1..], positions);
    var shifted := seq(|positions|, i requires 0 <= i < |positions| => positions[i] + 1);
    StandsLater(part, whole, positions, shifted);
    StandsWithFirst(part, whole, shifted);
    StandingIsSelecting(part, whole, shifted);
    StandingIsSelecting([whole[0]] + part, whole, [0] + shifted);
  }

  lemma StandsLater<T>(part: seq<T>, whole: seq<T>, positions: seq<nat>, shifted: seq<nat>)
    requires whole != [] && StandsAt(part, whole[1..], positions) && |shifted| == |positions|
    requires forall i | 0 <= i < |positions| :: shifted[i] == positions[i] + 1
    ensures StandsAt(part, whole, shifted) && forall i | 0 <= i < |shifted| :: shifted[i] > 0
  {
    forall i | 0 <= i < |part| ensures shifted[i] < |whole| && whole[shifted[i]] == part[i] {
      assert whole[1..][positions[i]] == part[i];
    }
  }

  lemma StandsWithFirst<T>(part: seq<T>, whole: seq<T>, shifted: seq<nat>)
    requires whole != [] && StandsAt(part, whole, shifted) && forall i | 0 <= i < |shifted| :: shifted[i] > 0
    ensures StandsAt([whole[0]] + part, whole, [0] + shifted)
  {
  }

  predicate AllBelow(positions: seq<nat>, n: nat) {
    forall i | 0 <= i < |positions| :: positions[i] < n
  }

  lemma StandsFurther<T>(part: seq<T>, whole: seq<T>, positions: seq<nat>, n: nat)
    requires StandsAt(part, whole, positions) && AllBelow(positions, n)
    ensures AllBelow(positions, n + 1)
    ensures n < |whole| ==>
              StandsAt(part + [whole[n]], whole, positions + [n]) && AllBelow(positions + [n], n + 1)
  {
  }

  lemma StandingIsSelecting<T>(part: seq<T>, whole: seq<T>, positions: seq<nat>)
    requires StandsAt(part, whole, positions)
    ensures Subsequence(part, whole)
  {
  }

  lemma StripLeftIsSuffix(s: string) returns (k: nat)
    ensures k <= |s| && StripLeft(s) == s[k..]
    ensures k < |s| ==> !IsSpace(s[k])
  {
    if s != [] && IsSpace(s[0]) {
      var j := StripLeftIsSuffix(s[1..]);
      assert s[1..][j..] == s[j + 1..];
      k := j + 1;
    } else {
      k := 0;
    }
  }

  lemma StripRightIsPrefix(s: string) returns (k: nat)
    ensures k <= |s| && StripRight(s) == s[..k]
    ensures k > 0 ==> !IsSpace(s[k - 1])
  {
    if s != [] && IsSpace(s[|s| - 1]) {
      k := StripRightIsPrefix(s[..|s| - 1]);
      assert s[..|s| - 1][..k] == s[..k];
    } else {
      k := |s|;
    }
  }

  /** A stripped string has no space at either end, so stripping it again changes nothing. */
  lemma StripIdempotent(s: string)
    ensures Strip(Strip(s)) == Strip(s)
  {
    var l := StripLeft(s);
    var i := StripLeftIsSuffix(s);
    var k := StripRightIsPrefix(l);
    var r := Strip(s);
    if r != [] {
      assert r[0] == l[0];
      assert r[|r| - 1] == l[k - 1];
    }
  }

  lemma StripEnds(s: string)
    ensures Strip(s) != "" ==> !IsSpace(Strip(s)[0]) && !IsSpace(Strip(s)[|Strip(s)| - 1])
  {
    var l := StripLeft(s);
    var i := StripLeftIsSuffix(s);
    var k := StripRightIsPrefix(l);
    if Strip(s) != [] {
      assert Strip(s)[0] == l[0];
      assert Strip(s)[k - 1] == l[k - 1];
    }
  }

  /** Text without spaces at its ends is left alone. */
  lemma StripSolid(s: string)
    requires s != [] && !IsSpace(s[0]) && !IsSpace(s[|s| - 1])
    ensures Strip(s) == s
  {
  }

  /** Stripping leaves nothing exactly of text that is all spaces. */
  lemma StripBlankIff(s: string)
    ensures Strip(s) == "" <==> forall c | c in s :: IsSpace(c)
  {
    var i := StripLeftIsSuffix(s);
    var k := StripRightIsPrefix(StripLeft(s));
    if Strip(s) != "" {
      assert Strip(s)[k - 1] == s[i + k - 1];
    } else if i < |s| {
      assert StripLeft(s)[0] == s[i];
      LeadingKept(StripLeft(s));
      assert false;
    } else {
      AllSpaces(s);
    }
  }

  lemma LeadingKept(s: string)
    requires s != [] && !IsSpace(s[0])
    ensures StripRight(s) != ""
  {
    if |s| > 1 && IsSpace(s[|s| - 1]) {
      LeadingKept(s[..|s| - 1]);
    }
  }

  lemma AllSpaces(s: string)
    requires StripLeft(s) == ""
    ensures forall c | c in s :: IsSpace(c)
  {
    if s != [] {
      AllSpaces(s[1..]);
      assert s == [s[0]] + s[1..];
    }
  }

  lemma PartOfWhole(before: string, part: string, after: string)
    ensures Contains(before + part + after, part)
  {
    assert PartAt(before + part + after, |before|, part);
  }

  lemma ContainsWider(before: string, s: string, after: string, part: string)
    requires Contains(s, part)
    ensures Contains(before + s + after, part)
  {
    var i: nat :| i <= |s| && PartAt(s, i, part);
    assert (before + s + after)[|before| + i..|before| + i + |part|] == s[i..i + |part|];
    assert PartAt(before + s + after, |before| + i, part);
  }
}
