/**
 The per-vendor rate limiter of `dataflows/interface.py`. Its critical section runs under one lock
 and reads the clock inside it, so any interleaving of callers is one sequence of reservations.
 A reservation's slot is the moment its caller is let through, `max(now, next_allowed)`.
 */
module RateLimiter {
  import opened Text

  /** One caller let through: when it asked, when it may go, and the gap it puts after itself. */
  datatype Slot = Slot(vendor: string, asked: real, at: real, interval: real)

  function OfVendor(slots: seq<Slot>, vendor: string): seq<Slot> {
    if slots == [] then []
    else
      var front, last := OfVendor(slots[..|slots| - 1], vendor), slots[|slots| - 1];
      if last.vendor == vendor then front + [last] else front
  }

  function Max(a: real, b: real): real {
    if a >= b then a else b
  }

  /** Each slot is the earliest moment that is not before its caller asked and keeps the previous
      slot's gap. */
  ghost predicate Earliest(slots: seq<Slot>) {
    forall i | 0 <= i < |slots| ::
      slots[i].at == if i == 0 then slots[i].asked
                     else Max(slots[i].asked, slots[i - 1].at + slots[i - 1].interval)
  }

  ghost predicate Spaced(slots: seq<Slot>, interval: real) {
    forall i | 0 <= i < |slots| :: slots[i].interval >= interval
  }

  /** What the table holds for a vendor, given the slots reserved for it so far. */
  ghost predicate Agrees(nextAllowed: map<string, real>, vendor: string, mine: seq<Slot>) {
    && Earliest(mine)
    && (vendor in nextAllowed <==> mine != [])
    && (mine != [] ==> nextAllowed[vendor] == mine[|mine| - 1].at + mine[|mine| - 1].interval)
  }

  lemma OfVendorAppend(slots: seq<Slot>, slot: Slot, vendor: string)
    ensures OfVendor(slots + [slot], vendor) ==
            if slot.vendor == vendor then OfVendor(slots, vendor) + [slot] else OfVendor(slots, vendor)
  {
    assert (slots + [slot])[..|slots + [slot]| - 1] == slots;
  }

  lemma EarliestAppend(mine: seq<Slot>, slot: Slot)
    requires Earliest(mine)
    requires slot.at == if mine == [] then slot.asked
                        else Max(slot.asked, mine[|mine| - 1].at + mine[|mine| - 1].interval)
    ensures Earliest(mine + [slot])
  {
  }

  class Limiter {
    var nextAllowed: map<string, real>
    ghost var slots: seq<Slot>

    constructor ()
      ensures Valid() && slots == []
    {
      nextAllowed, slots := map[], [];
    }

    ghost predicate Valid()
      reads this
    {
      forall v :: Agrees(nextAllowed, v, OfVendor(slots, v))
    }

    /** Reserves the next slot of a vendor and returns how long the caller sleeps. `Valid` says that
        the new slot is the earliest one and that the other vendors' slots are as they were. */
    method Apply(vendor: string, ratePerSec: real, now: real) returns (wait: real)
      requires Valid()
      modifies this
      ensures Valid()
      ensures wait >= 0.0
      ensures ratePerSec <= 0.0 ==> wait == 0.0 && slots == old(slots)
      ensures ratePerSec > 0.0 ==>
                slots == old(slots) + [Slot(vendor, now, now + wait, 1.0 / ratePerSec)]
    {
      if ratePerSec <= 0.0 {
        return 0.0;
      }
      var interval := 1.0 / ratePerSec;
      var next := if vendor in nextAllowed then nextAllowed[vendor] else now;
      wait := Max(0.0, next - now);
      var scheduled := Max(now, next) + interval;
      ghost var slot, before := Slot(vendor, now, now + wait, interval), nextAllowed;
      assert Agrees(before, vendor, OfVendor(slots, vendor));
      nextAllowed := nextAllowed[vendor := scheduled];
      EarliestAppend(OfVendor(slots, vendor), slot);
      forall v ensures Agrees(nextAllowed, v, OfVendor(slots + [slot], v)) {
        assert Agrees(before, v, OfVendor(slots, v));
        OfVendorAppend(slots, slot, v);
      }
      slots := slots + [slot];
    }
  }

  /** Slots of one vendor are at least (j - i) intervals apart. */
  lemma {:induction false} PairwiseApart(slots: seq<Slot>, interval: real, i: nat, j: nat)
    requires Earliest(slots) && Spaced(slots, interval) && interval > 0.0
    requires i <= j < |slots|
    ensures slots[j].at - slots[i].at >= (j - i) as real * interval
    decreases j
  {
    if i < j {
      PairwiseApart(slots, interval, i, j - 1);
      assert (j - i) as real * interval == (j - 1 - i) as real * interval + interval;
    }
  }

  /** The positions of the slots that fall into a closed window of time. */
  ghost function InWindow(slots: seq<Slot>, from: real, length: real): set<int> {
    set i | 0 <= i < |slots| && from <= slots[i].at <= from + length
  }

  lemma {:induction false} RangeSize(s: set<int>, lo: int, hi: int)
    requires forall i | i in s :: lo <= i <= hi
    ensures |s| <= if lo <= hi then hi - lo + 1 else 0
    decreases hi - lo
  {
    if lo <= hi {
      RangeSize(s - {hi}, lo, hi - 1);
    } else {
      assert forall i :: i !in s;
      assert s == {};
    }
  }

  lemma {:induction false} LeastOf(s: set<int>) returns (m: int)
    requires exists i :: i in s
    ensures m in s && forall i | i in s :: m <= i
    decreases |s|
  {
    var x :| x in s;
    var rest := s - {x};
    assert s == rest + {x};
    m := x;
    if exists i :: i in rest {
      var least := LeastOf(rest);
      m := if x < least then x else least;
    }
  }

  lemma WithinReach(slots: seq<Slot>, rate: real, length: real, first: nat, i: nat)
    requires rate > 0.0
    requires Earliest(slots) && Spaced(slots, 1.0 / rate)
    requires first <= i < |slots| && slots[i].at - slots[first].at <= length
    ensures i - first <= (length * rate).Floor
  {
    PairwiseApart(slots, 1.0 / rate, first, i);
    GapBound((i - first) as real, rate, length);
  }

  /** At a rate of `rate` calls a second, any closed window of length T holds at most
      floor(T * rate) + 1 slots of one vendor, whoever reserved them and whenever they asked. */
  lemma WindowHoldsAtMost(slots: seq<Slot>, rate: real, from: real, length: real)
    requires rate > 0.0 && length >= 0.0
    requires Earliest(slots) && Spaced(slots, 1.0 / rate)
    ensures |InWindow(slots, from, length)| <= (length * rate).Floor + 1
  {
    var inside := InWindow(slots, from, length);
    var reach := (length * rate).Floor;
    assert reach >= 0 by {
      MulMonotone(0.0, length, rate);
    }
    if exists i :: i in inside {
      var first := LeastOf(inside);
      forall i | i in inside ensures first <= i <= first + reach {
        WithinReach(slots, rate, length, first, i);
      }
      RangeSize(inside, first, first + reach);
    } else {
      assert inside == {};
    }
  }

  /** The same bound for a limiter in use, as long as the vendor's callers asked for at most `rate`. */
  lemma LimitHolds(limiter: Limiter, vendor: string, rate: real, from: real, length: real)
    requires limiter.Valid()
    requires rate > 0.0 && length >= 0.0
    requires Spaced(OfVendor(limiter.slots, vendor), 1.0 / rate)
    ensures |InWindow(OfVendor(limiter.slots, vendor), from, length)| <= (length * rate).Floor + 1
  {
    assert Agrees(limiter.nextAllowed, vendor, OfVendor(limiter.slots, vendor));
    WindowHoldsAtMost(OfVendor(limiter.slots, vendor), rate, from, length);
  }

  lemma GapBound(n: real, rate: real, length: real)
    requires rate > 0.0 && length >= n * (1.0 / rate)
    ensures n <= length * rate
  {
    var interval := 1.0 / rate;
    assert interval * rate == 1.0;
    assert n == n * (interval * rate) == (n * interval) * rate;
    MulMonotone(n * interval, length, rate);
  }

  lemma MulMonotone(a: real, b: real, c: real)
    requires a <= b && c > 0.0
    ensures a * c <= b * c
  {
  }
}
