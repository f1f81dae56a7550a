/** Daily candles in pages (`dataflows/ccxt_provider.py`): fetch, remove duplicates, sort, cut to range. */
module Ohlcv {
  import opened Errors

  datatype Candle = Candle(ts: int, bar: seq<real>)

  datatype Reply = Candles(candles: seq<Candle>) | Failed(error: Error)

  /** The exchange's answer to the n-th request, which asks for candles from a timestamp on. */
  datatype Exchange = Exchange(page: (nat, int) -> Reply)

  const FETCH_LIMIT := 1000

  // ----- paging -----

  function Prepend(front: seq<Candle>, rest: Reply): Reply {
    match rest
    case Failed(e) => Failed(e)
    case Candles(cs) => Candles(front + cs)
  }

  /** Whether another page follows the non-empty page `cs`, asked for from `since` on. */
  predicate Continues(cs: seq<Candle>, since: int, end: int)
    requires cs != []
  {
    var last := cs[|cs| - 1].ts;
    last < end && |cs| >= FETCH_LIMIT && last + 1 > since
  }

  function Fetched(ex: Exchange, n: nat, since: int, end: int): Reply
    decreases if since <= end then end - since + 1 else 0
  {
    match ex.page(n, since)
    case Failed(e) => Failed(e)
    case Candles(cs) =>
      if cs == [] || !Continues(cs, since, end) then Candles(cs)
      else Prepend(cs, Fetched(ex, n + 1, cs[|cs| - 1].ts + 1, end))
  }

  lemma PrependTwice(a: seq<Candle>, b: seq<Candle>, rest: Reply)
    ensures Prepend(a, Prepend(b, rest)) == Prepend(a + b, rest)
  {
    if rest.Candles? {
      assert a + (b + rest.candles) == (a + b) + rest.candles;
    }
  }

  /** One turn of the loop, with the candles gathered so far. */
  lemma FetchTurn(ex: Exchange, all: seq<Candle>, n: nat, since: int, end: int)
    ensures match ex.page(n, since)
            case Failed(e) => Prepend(all, Fetched(ex, n, since, end)) == Failed(e)
            case Candles(cs) =>
              if cs == [] then Prepend(all, Fetched(ex, n, since, end)) == Candles(all)
              else
                Prepend(all, Fetched(ex, n, since, end)) ==
                if Continues(cs, since, end) then Prepend(all + cs, Fetched(ex, n + 1, cs[|cs| - 1].ts + 1, end))
                else Candles(all + cs)
  {
    assert all + [] == all;
    var page := ex.page(n, since);
    if page.Candles? && page.candles != [] {
      PrependTwice(all, page.candles, Fetched(ex, n + 1, page.candles[|page.candles| - 1].ts + 1, end));
    }
  }

  lemma PrependNothing(reply: Reply)
    ensures Prepend([], reply) == reply
  {
    if reply.Candles? {
      assert [] + reply.candles == reply.candles;
    }
  }

  /** `_fetch_ohlcv_until`: it stops for any exchange whatever, since every further request starts
      later than the one before and not after the end. */
  method FetchUntil(ex: Exchange, since: int, end: int) returns (reply: Reply, requests: nat)
    ensures reply == Fetched(ex, 0, since, end)
    ensures 1 <= requests <= if since < end then end - since + 1 else 1
  {
    hide Fetched, Prepend;
    var all, fetchSince := [], since;
    requests := 0;
    PrependNothing(Fetched(ex, 0, since, end));
    while true
      invariant Fetched(ex, 0, since, end) == Prepend(all, Fetched(ex, requests, fetchSince, end))
      invariant requests <= fetchSince - since
      invariant requests > 0 ==> fetchSince <= end
      decreases end - fetchSince
    {
      FetchTurn(ex, all, requests, fetchSince, end);
      var page := ex.page(requests, fetchSince);
      requests := requests + 1;
      match page {
        case Failed(e) =>
          return Failed(e), requests;
        case Candles(cs) =>
          if cs == [] {
            break;
          }
          all := all + cs;
          var last := cs[|cs| - 1].ts;
          if last >= end || |cs| < FETCH_LIMIT {
            break;
          }
          if last + 1 <= fetchSince {
            break;
          }
          fetchSince := last + 1;
      }
    }
    reply := Candles(all);
  }

  // ----- an honest exchange -----

  ghost predicate Ascending(cs: seq<Candle>) {
    forall i, j | 0 <= i < j < |cs| :: cs[i].ts < cs[j].ts
  }

  function From(book: seq<Candle>, since: int): seq<Candle> {
    if book == [] || book[0].ts >= since then book else From(book[1..], since)
  }

  function Page(book: seq<Candle>, since: int): seq<Candle> {
    var rest := From(book, since);
    if |rest| <= FETCH_LIMIT then rest else rest[..FETCH_LIMIT]
  }

  /** The exchange serves a fixed book: the first candles not older than asked for. */
  ghost predicate Honest(ex: Exchange, book: seq<Candle>) {
    && Ascending(book)
    && forall n, since :: ex.page(n, since) == Candles(Page(book, since))
  }

  lemma {:induction false} FromIsSuffix(book: seq<Candle>, since: int) returns (k: nat)
    requires Ascending(book)
    ensures k <= |book| && From(book, since) == book[k..]
    ensures forall i | 0 <= i < |book| :: book[i].ts >= since <==> k <= i
  {
    if book == [] || book[0].ts >= since {
      k := 0;
    } else {
      var rest := book[1..];
      assert Ascending(rest);
      var j := FromIsSuffix(rest, since);
      k := j + 1;
      assert rest[j..] == book[k..];
      forall i | 0 <= i < |book| ensures book[i].ts >= since <==> k <= i {
        if i > 0 {
          assert book[i] == rest[i - 1];
        }
      }
    }
  }

  /** Asking from just after a candle on yields what follows it. */
  lemma FromNext(book: seq<Candle>, since: int, n: nat)
    requires Ascending(book) && 0 < n <= |From(book, since)|
    ensures var rest := From(book, since);
            From(book, rest[n - 1].ts + 1) == rest[n..] && rest[n - 1].ts >= since
  {
    var rest := From(book, since);
    var k := FromIsSuffix(book, since);
    var j := FromIsSuffix(book, rest[n - 1].ts + 1);
    assert rest[n - 1] == book[k + n - 1] && !(book[k + n - 1].ts >= rest[n - 1].ts + 1);
    assert k + n < |book| ==> book[k + n].ts >= rest[n - 1].ts + 1;
    assert book[k..][n..] == book[k + n..];
  }

  /** Against an honest exchange the pages are a gap-free stretch of the book that starts at the
      requested time and does not stop before the end of the range or of the book. */
  lemma {:induction false} FetchesStretch(ex: Exchange, book: seq<Candle>, n: nat, since: int, end: int)
    requires Honest(ex, book)
    ensures var rest, reply := From(book, since), Fetched(ex, n, since, end);
            && reply.Candles? && reply.candles <= rest
            && (|reply.candles| < |rest| ==> reply.candles != [] && reply.candles[|reply.candles| - 1].ts >= end)
    decreases if since <= end then end - since + 1 else 0
  {
    var rest, cs := From(book, since), Page(book, since);
    assert ex.page(n, since) == Candles(cs);
    if cs != [] {
      FromNext(book, since, |cs|);
      if Continues(cs, since, end) {
        var next := cs[|cs| - 1].ts + 1;
        FetchesStretch(ex, book, n + 1, next, end);
        assert rest == cs + rest[|cs|..];
      }
    }
  }

  // ----- the data frame -----

  predicate TimeIn(cs: seq<Candle>, ts: int) {
    exists i | 0 <= i < |cs| :: cs[i].ts == ts
  }

  /** `drop_duplicates` keeps the first candle of each timestamp. */
  function KeepFirst(cs: seq<Candle>): seq<Candle> {
    if cs == [] then []
    else
      var front, last := KeepFirst(cs[..|cs| - 1]), cs[|cs| - 1];
      if TimeIn(front, last.ts) then front else front + [last]
  }

  function Insert(c: Candle, cs: seq<Candle>): seq<Candle> {
    if cs == [] || c.ts <= cs[0].ts then [c] + cs else [cs[0]] + Insert(c, cs[1..])
  }

  function Sorted(cs: seq<Candle>): seq<Candle> {
    if cs == [] then [] else Insert(cs[0], Sorted(cs[1..]))
  }

  function InRange(cs: seq<Candle>, start: int, end: int): seq<Candle> {
    if cs == [] then []
    else (if start <= cs[0].ts <= end then [cs[0]] else []) + InRange(cs[1..], start, end)
  }

  datatype Frame =
    | Rows(rows: seq<Candle>)
    | EndBeforeStart
    | NoData
    | NoneInRange
    | ExchangeError(error: Error)

  /** `_get_crypto_ohlcv_df`, with the two days as timestamps. */
  method GetFrame(ex: Exchange, start: int, end: int) returns (frame: Frame)
    ensures end < start <==> frame == EndBeforeStart
    ensures frame.ExchangeError? ==> Fetched(ex, 0, start, end) == Failed(frame.error)
    ensures frame.Rows? ==>
              && frame.rows != [] && Ascending(frame.rows)
              && Fetched(ex, 0, start, end).Candles?
              && forall c | c in frame.rows :: start <= c.ts <= end && c in Fetched(ex, 0, start, end).candles
    ensures forall book | Honest(ex, book) && start <= end ::
              if InRange(book, start, end) == [] then frame == NoData || frame == NoneInRange
              else frame == Rows(InRange(book, start, end))
  {
    if end < start {
      return EndBeforeStart;
    }
    hide Honest;
    var reply, requests := FetchUntil(ex, start, end);
    forall book | Honest(ex, book)
      ensures reply.Candles? && InRange(Sorted(KeepFirst(reply.candles)), start, end) == InRange(book, start, end)
    {
      FrameIsBook(ex, book, start, end);
    }
    match reply {
      case Failed(e) =>
        frame := ExchangeError(e);
      case Candles(raw) =>
        if raw == [] {
          return NoData;
        }
        KeepFirstDistinct(raw);
        SortedAscending(KeepFirst(raw));
        var rows := InRange(Sorted(KeepFirst(raw)), start, end);
        InRangeAscending(Sorted(KeepFirst(raw)), start, end);
        if rows == [] {
          return NoneInRange;
        }
        frame := Rows(rows);
    }
  }

  // ----- duplicates, order and range, for any candles -----

  ghost predicate TimesDistinct(cs: seq<Candle>) {
    forall i, j | 0 <= i < j < |cs| :: cs[i].ts != cs[j].ts
  }

  lemma {:induction false} KeepFirstDistinct(cs: seq<Candle>)
    ensures TimesDistinct(KeepFirst(cs))
    ensures forall c | c in KeepFirst(cs) :: c in cs
    ensures forall c | c in cs :: TimeIn(KeepFirst(cs), c.ts)
  {
    if cs != [] {
      var front, last := cs[..|cs| - 1], cs[|cs| - 1];
      KeepFirstDistinct(front);
      forall c | c in cs ensures TimeIn(KeepFirst(cs), c.ts) {
        if c in front {
          var i :| 0 <= i < |KeepFirst(front)| && KeepFirst(front)[i].ts == c.ts;
          assert KeepFirst(cs)[i].ts == c.ts;
        } else {
          assert c == last;
          if !TimeIn(KeepFirst(front), last.ts) {
            assert KeepFirst(cs)[|KeepFirst(front)|].ts == c.ts;
          }
        }
      }
    }
  }

  lemma {:induction false} InsertAscending(c: Candle, cs: seq<Candle>)
    requires Ascending(cs) && forall d | d in cs :: d.ts != c.ts
    ensures Ascending(Insert(c, cs))
    ensures forall d :: d in Insert(c, cs) <==> d == c || d in cs
  {
    if cs != [] && c.ts > cs[0].ts {
      assert Ascending(cs[1..]);
      InsertAscending(c, cs[1..]);
      assert forall d | d in Insert(c, cs[1..]) :: d.ts > cs[0].ts by {
        forall d | d in Insert(c, cs[1..]) ensures d.ts > cs[0].ts {
          if d != c {
            assert d in cs[1..];
          }
        }
      }
    }
  }

  lemma {:induction false} SortedAscending(cs: seq<Candle>)
    requires TimesDistinct(cs)
    ensures Ascending(Sorted(cs))
    ensures forall c :: c in Sorted(cs) <==> c in cs
  {
    if cs != [] {
      SortedAscending(cs[1..]);
      forall d | d in Sorted(cs[1..]) ensures d.ts != cs[0].ts {
        var i :| 0 <= i < |cs[1..]| && cs[1..][i] == d;
        assert cs[i + 1] == d;
      }
      InsertAscending(cs[0], Sorted(cs[1..]));
    }
  }

  lemma {:induction false} InRangeAscending(cs: seq<Candle>, start: int, end: int)
    requires Ascending(cs)
    ensures Ascending(InRange(cs, start, end))
    ensures forall c :: c in InRange(cs, start, end) <==> c in cs && start <= c.ts <= end
  {
    if cs != [] {
      AscendingTail(cs);
      InRangeAscending(cs[1..], start, end);
      forall c | c in InRange(cs[1..], start, end) ensures c.ts > cs[0].ts {
        assert c in cs[1..];
      }
    }
  }

  // ----- the same on a stretch of an ascending book -----

  lemma AscendingFront(cs: seq<Candle>)
    requires Ascending(cs) && cs != []
    ensures Ascending(cs[..|cs| - 1]) && !TimeIn(cs[..|cs| - 1], cs[|cs| - 1].ts)
  {
  }

  lemma {:induction false} KeepFirstOfAscending(cs: seq<Candle>)
    requires Ascending(cs)
    ensures KeepFirst(cs) == cs
  {
    hide Ascending;
    if cs != [] {
      AscendingFront(cs);
      KeepFirstOfAscending(cs[..|cs| - 1]);
      assert cs == cs[..|cs| - 1] + [cs[|cs| - 1]];
    }
  }

  lemma {:induction false} SortedOfAscending(cs: seq<Candle>)
    requires Ascending(cs)
    ensures Sorted(cs) == cs
  {
    if cs != [] {
      assert Ascending(cs[1..]);
      SortedOfAscending(cs[1..]);
    }
  }

  lemma {:induction false} InRangeSplits(a: seq<Candle>, b: seq<Candle>, start: int, end: int)
    ensures InRange(a + b, start, end) == InRange(a, start, end) + InRange(b, start, end)
  {
    if a == [] {
      assert a + b == b;
    } else {
      assert (a + b)[1..] == a[1..] + b;
      InRangeSplits(a[1..], b, start, end);
    }
  }

  lemma {:induction false} OutOfRange(cs: seq<Candle>, start: int, end: int)
    requires forall i | 0 <= i < |cs| :: !(start <= cs[i].ts <= end)
    ensures InRange(cs, start, end) == []
  {
    if cs != [] {
      OutOfRange(cs[1..], start, end);
    }
  }

  lemma StretchAscending(book: seq<Candle>, i: nat, j: nat)
    requires Ascending(book) && i <= j <= |book|
    ensures Ascending(book[i..j])
  {
  }

  lemma OldOutOfRange(book: seq<Candle>, k: nat, start: int, end: int)
    requires k <= |book| && forall i | 0 <= i < k :: book[i].ts < start
    ensures InRange(book[..k], start, end) == []
  {
    OutOfRange(book[..k], start, end);
  }

  lemma NewOutOfRange(book: seq<Candle>, k: nat, start: int, end: int)
    requires Ascending(book) && k <= |book|
    requires k < |book| ==> k > 0 && book[k - 1].ts >= end
    ensures InRange(book[k..], start, end) == []
  {
    forall i | 0 <= i < |book[k..]| ensures !(start <= book[k..][i].ts <= end) {
      assert book[k..][i] == book[k + i];
    }
    OutOfRange(book[k..], start, end);
  }

  lemma {:induction false} SplitInThree(book: seq<Candle>, k: nat, m: nat, start: int, end: int)
    requires k <= m <= |book|
    ensures InRange(book, start, end) ==
            InRange(book[..k], start, end) + InRange(book[k..m], start, end) + InRange(book[m..], start, end)
  {
    hide InRange;
    assert book == book[..m] + book[m..];
    InRangeSplits(book[..m], book[m..], start, end);
    assert book[..m] == book[..k] + book[k..m];
    InRangeSplits(book[..k], book[k..m], start, end);
  }

  /** Where in the book the fetched stretch begins and ends. */
  lemma FetchedStretch(ex: Exchange, book: seq<Candle>, start: int, end: int) returns (k: nat, m: nat)
    requires Honest(ex, book)
    ensures Fetched(ex, 0, start, end).Candles?
    ensures k <= m <= |book| && Fetched(ex, 0, start, end).candles == book[k..m]
    ensures forall i | 0 <= i < k :: book[i].ts < start
    ensures m < |book| ==> m > 0 && book[m - 1].ts >= end
  {
    FetchesStretch(ex, book, 0, start, end);
    HonestAscending(ex, book);
    hide *;
    k := FromIsSuffix(book, start);
    var got := Fetched(ex, 0, start, end).candles;
    m := k + |got|;
    StretchOfSuffix(book, k, got);
    assert got != [] ==> got[|got| - 1] == book[m - 1];
  }

  /** Fetching, removing duplicates, sorting and cutting gives exactly the book's candles in range. */
  lemma FrameIsBook(ex: Exchange, book: seq<Candle>, start: int, end: int)
    requires Honest(ex, book)
    ensures var reply := Fetched(ex, 0, start, end);
            reply.Candles? && InRange(Sorted(KeepFirst(reply.candles)), start, end) == InRange(book, start, end)
  {
    HonestAscending(ex, book);
    hide *;
    var k, m := FetchedStretch(ex, book, start, end);
    StretchAscending(book, k, m);
    KeepFirstOfAscending(book[k..m]);
    SortedOfAscending(book[k..m]);
    SplitInThree(book, k, m, start, end);
    OldOutOfRange(book, k, start, end);
    NewOutOfRange(book, m, start, end);
  }

  lemma HonestAscending(ex: Exchange, book: seq<Candle>)
    requires Honest(ex, book)
    ensures Ascending(book)
  {
  }

  lemma StretchOfSuffix(book: seq<Candle>, k: nat, got: seq<Candle>)
    requires k <= |book| && got <= book[k..]
    ensures got == book[k..k + |got|]
  {
  }

  // ----- an exchange that caps its pages -----

  function Take(cs: seq<Candle>, n: nat): seq<Candle> {
    if |cs| <= n then cs else cs[..n]
  }

  /** The exchange serves a fixed book, but never more than `cap` candles a page. */
  ghost predicate Capped(ex: Exchange, book: seq<Candle>, cap: nat) {
    && Ascending(book)
    && forall n, since :: ex.page(n, since) == Candles(Take(Page(book, since), cap))
  }

  /** The paging loop takes a page shorter than its own limit for the last one, so an exchange with
      a lower cap is read completely exactly when the range fits into one capped page. */
  lemma CappedIffOnePage(ex: Exchange, book: seq<Candle>, cap: nat, start: int, end: int)
    requires Capped(ex, book, cap)
    ensures Fetched(ex, 0, start, end).Candles?
    ensures InRange(Sorted(KeepFirst(Fetched(ex, 0, start, end).candles)), start, end) == InRange(book, start, end) <==>
            cap >= FETCH_LIMIT || |InRange(book, start, end)| <= cap
  {
    if cap >= FETCH_LIMIT {
      CapTooHighToMatter(ex, book, cap);
      FrameIsBook(ex, book, start, end);
    } else {
      CappedStopsAtOnce(ex, book, cap, start, end);
      CappedAscending(ex, book, cap);
      OnePage(book, cap, start, end);
    }
  }

  lemma CapTooHighToMatter(ex: Exchange, book: seq<Candle>, cap: nat)
    requires Capped(ex, book, cap) && cap >= FETCH_LIMIT
    ensures Honest(ex, book)
  {
    forall n, since ensures ex.page(n, since) == Candles(Page(book, since)) {
      assert |Page(book, since)| <= FETCH_LIMIT;
    }
  }

  lemma CappedAscending(ex: Exchange, book: seq<Candle>, cap: nat)
    requires Capped(ex, book, cap)
    ensures Ascending(book)
  {
  }

  lemma CappedStopsAtOnce(ex: Exchange, book: seq<Candle>, cap: nat, start: int, end: int)
    requires Capped(ex, book, cap) && cap < FETCH_LIMIT
    ensures Fetched(ex, 0, start, end) == Candles(Take(From(book, start), cap))
  {
    hide From;
    var page := Take(Page(book, start), cap);
    assert ex.page(0, start) == Candles(page);
    assert |page| < FETCH_LIMIT;
    assert page == Take(From(book, start), cap);
  }

  lemma AscendingTail(cs: seq<Candle>)
    requires Ascending(cs) && cs != []
    ensures Ascending(cs[1..]) && forall i | 0 <= i < |cs[1..]| :: cs[1..][i].ts > cs[0].ts
  {
  }

  /** In an ascending stretch from the start of the range on, the candles in range come first. */
  lemma {:induction false} RangeIsPrefix(cs: seq<Candle>, start: int, end: int)
    requires Ascending(cs) && forall i | 0 <= i < |cs| :: cs[i].ts >= start
    ensures InRange(cs, start, end) <= cs
    ensures |InRange(cs, start, end)| < |cs| ==> cs[|InRange(cs, start, end)|].ts > end
  {
    if cs != [] {
      AscendingTail(cs);
      if cs[0].ts <= end {
        RangeIsPrefix(cs[1..], start, end);
        assert cs == [cs[0]] + cs[1..];
      } else {
        OutOfRange(cs[1..], start, end);
      }
    }
  }

  /** Of candles from the start of the range on, the first `cap` hold the range exactly if it has no
      more than that. */
  lemma CappedRange(rest: seq<Candle>, cap: nat, start: int, end: int)
    requires Ascending(rest) && forall i | 0 <= i < |rest| :: rest[i].ts >= start
    ensures InRange(Take(rest, cap), start, end) == InRange(rest, start, end) <==> |InRange(rest, start, end)| <= cap
  {
    var page := Take(rest, cap);
    var after := rest[|page|..];
    assert rest == page + after;
    RangeIsPrefix(rest, start, end);
    TakeRangeIsPrefix(rest, cap, start, end);
    hide Ascending, InRange;
    InRangeSplits(page, after, start, end);
    var inPage, inRest := InRange(page, start, end), InRange(rest, start, end);
    assert |inRest| == |inPage| + |InRange(after, start, end)|;
  }

  lemma TakeRangeIsPrefix(rest: seq<Candle>, cap: nat, start: int, end: int)
    requires Ascending(rest) && forall i | 0 <= i < |rest| :: rest[i].ts >= start
    ensures var page := Take(rest, cap);
            && |InRange(page, start, end)| <= |page| <= cap
            && (|InRange(page, start, end)| < |page| ==> |InRange(rest[|page|..], start, end)| == 0)
            && (|InRange(page, start, end)| == |page| < cap ==> page == rest)
  {
    var page := Take(rest, cap);
    assert page == rest[..|page|];
    StretchAscending(rest, 0, |page|);
    RangeIsPrefix(page, start, end);
    if |InRange(page, start, end)| < |page| {
      var late := page[|InRange(page, start, end)|];
      forall i | 0 <= i < |rest[|page|..]| ensures rest[|page|..][i].ts > end {
        assert rest[|page|..][i] == rest[|page| + i] && rest[|InRange(page, start, end)|] == late;
      }
      OutOfRange(rest[|page|..], start, end);
    }
  }

  lemma FromIsLate(book: seq<Candle>, start: int, end: int)
    requires Ascending(book)
    ensures Ascending(From(book, start)) && forall i | 0 <= i < |From(book, start)| :: From(book, start)[i].ts >= start
    ensures InRange(book, start, end) == InRange(From(book, start), start, end)
  {
    var k := FromIsSuffix(book, start);
    StretchAscending(book, k, |book|);
    assert book[k..|book|] == From(book, start) && book == book[..k] + book[k..];
    assert forall i | 0 <= i < |From(book, start)| :: From(book, start)[i] == book[k + i];
    hide Ascending, From, InRange;
    InRangeSplits(book[..k], book[k..], start, end);
    OldOutOfRange(book, k, start, end);
  }

  lemma OnePage(book: seq<Candle>, cap: nat, start: int, end: int)
    requires Ascending(book)
    ensures var page := Take(From(book, start), cap);
            InRange(Sorted(KeepFirst(page)), start, end) == InRange(book, start, end) <==>
            |InRange(book, start, end)| <= cap
  {
    var rest, page := From(book, start), Take(From(book, start), cap);
    assert page == rest[0..|page|];
    hide Ascending, From, InRange, KeepFirst, Sorted, Take;
    FromIsLate(book, start, end);
    StretchAscending(rest, 0, |page|);
    KeepFirstOfAscending(page);
    SortedOfAscending(page);
    CappedRange(rest, cap, start, end);
  }
}
