/** News deduplication and story clusters (`dataflows/news_context_provider.py`). */
module News {
  import opened Text

  datatype Item = Item(
    url: string,              // canonical
    title: string,
    sourceName: string,
    sourceCategory: string,
    tags: seq<string>,
    relevance: real)

  // ----- dictionaries keep the order in which keys are first set -----

  function FirstSeen<K(==)>(keys: seq<K>): seq<K> {
    if keys == [] then []
    else
      var front, last := FirstSeen(keys[..|keys| - 1]), keys[|keys| - 1];
      if last in front then front else front + [last]
  }

  lemma {:induction false} FirstSeenExact<K>(keys: seq<K>)
    ensures Distinct(FirstSeen(keys))
    ensures forall k :: k in FirstSeen(keys) <==> k in keys
  {
    if keys != [] {
      var front, last := keys[..|keys| - 1], keys[|keys| - 1];
      FirstSeenExact(front);
      assert keys == front + [last];
    }
  }

  // ----- groups and their leads -----

  function KeysOf<K>(items: seq<Item>, key: Item -> K): seq<K> {
    seq(|items|, i requires 0 <= i < |items| => key(items[i]))
  }

  /** The items with one key, in their order. */
  function Group<K(==)>(items: seq<Item>, key: Item -> K, k: K): seq<Item> {
    if items == [] then []
    else
      var front, last := Group(items[..|items| - 1], key, k), items[|items| - 1];
      if key(last) == k then front + [last] else front
  }

  /** The first of the most relevant items. */
  function Lead(group: seq<Item>): Item
    requires group != []
  {
    var last := group[|group| - 1];
    if |group| == 1 then last
    else
      var best := Lead(group[..|group| - 1]);
      if last.relevance > best.relevance then last else best
  }

  lemma {:induction false} LeadIsEarliestMaximal(group: seq<Item>) returns (i: nat)
    requires group != []
    ensures i < |group| && Lead(group) == group[i]
    ensures forall j | 0 <= j < |group| :: group[j].relevance <= group[i].relevance
    ensures forall j | 0 <= j < i :: group[j].relevance < group[i].relevance
  {
    i := |group| - 1;
    if i > 0 {
      var front := group[..i];
      var j := LeadIsEarliestMaximal(front);
      assert front[j] == group[j];
      if group[i].relevance <= Lead(front).relevance {
        i := j;
      }
    }
  }

  /** How the order of keys and the groups change with one more item. */
  lemma OneMore<K>(items: seq<Item>, key: Item -> K, n: nat)
    requires n < |items|
    ensures FirstSeen(KeysOf(items[..n + 1], key)) ==
            var seen := FirstSeen(KeysOf(items[..n], key));
            if key(items[n]) in seen then seen else seen + [key(items[n])]
    ensures forall k :: Group(items[..n + 1], key, k) ==
                        if key(items[n]) == k then Group(items[..n], key, k) + [items[n]] else Group(items[..n], key, k)
  {
    assert items[..n + 1][..n] == items[..n];
    assert KeysOf(items[..n + 1], key)[..n] == KeysOf(items[..n], key);
  }

  lemma {:induction false} GroupExact<K>(items: seq<Item>, key: Item -> K, k: K)
    ensures forall item :: item in Group(items, key, k) <==> item in items && key(item) == k
    ensures Group(items, key, k) != [] <==> k in KeysOf(items, key)
  {
    if items != [] {
      var front, last := items[..|items| - 1], items[|items| - 1];
      GroupExact(front, key, k);
      assert items == front + [last];
      assert KeysOf(items, key) == KeysOf(front, key) + [key(last)];
    }
  }

  /** These are the positions of the items with this key. */
  ghost predicate KeyedAt<K>(items: seq<Item>, key: Item -> K, k: K, positions: seq<nat>) {
    forall i: nat | i < |items| :: i in positions <==> key(items[i]) == k
  }

  /** The group has the items at exactly the positions with its key, in their order. */
  lemma {:induction false} GroupPositions<K>(items: seq<Item>, key: Item -> K, k: K) returns (positions: seq<nat>)
    ensures StandsAt(Group(items, key, k), items, positions) && KeyedAt(items, key, k, positions)
  {
    if items == [] {
      positions := [];
    } else {
      var n := |items| - 1;
      var front := GroupPositions(items[..n], key, k);
      positions := if key(items[n]) == k then front + [n] else front;
      StandsWithOneMore(Group(items[..n], key, k), items, front);
      KeyedWithOneMore(items, key, k, Group(items[..n], key, k), front, positions);
    }
  }

  lemma KeyedWithOneMore<K>(
    items: seq<Item>, key: Item -> K, k: K, part: seq<Item>, front: seq<nat>, positions: seq<nat>)
    requires items != [] && StandsAt(part, items[..|items| - 1], front)
    requires KeyedAt(items[..|items| - 1], key, k, front)
    requires positions == if key(items[|items| - 1]) == k then front + [|items| - 1] else front
    ensures KeyedAt(items, key, k, positions)
  {
    var n := |items| - 1;
    assert n !in front;
    forall i: nat | i < n ensures i in positions <==> key(items[i]) == k {
      assert items[..n][i] == items[i];
    }
  }

  lemma StandsWithOneMore(part: seq<Item>, items: seq<Item>, positions: seq<nat>)
    requires items != [] && StandsAt(part, items[..|items| - 1], positions)
    ensures StandsAt(part, items, positions)
    ensures StandsAt(part + [items[|items| - 1]], items, positions + [|items| - 1])
  {
    forall i | 0 <= i < |part| ensures items[positions[i]] == part[i] {
      assert items[..|items| - 1][positions[i]] == items[positions[i]];
    }
  }

  /** Keys keep the place where they were first seen. */
  lemma {:induction false} FirstSeenInOrder<K>(keys: seq<K>, n: nat)
    requires n <= |keys|
    ensures FirstSeen(keys[..n]) <= FirstSeen(keys)
    decreases |keys|
  {
    if n == |keys| {
      assert keys[..n] == keys;
    } else {
      var front := keys[..|keys| - 1];
      FirstSeenInOrder(front, n);
      assert front[..n] == keys[..n];
    }
  }

  // ----- deduplication -----

  datatype StoryKey = StoryKey(url: string, title: string)

  function StoryOf(normalizedTitle: string -> string): Item -> StoryKey {
    (item: Item) => StoryKey(item.url, normalizedTitle(item.title))
  }

  /** Two items tell one story exactly if they agree on the URL and on the normalized title. */
  lemma SameStoryIff(a: Item, b: Item, normalizedTitle: string -> string)
    ensures StoryOf(normalizedTitle)(a) == StoryOf(normalizedTitle)(b) <==>
            a.url == b.url && normalizedTitle(a.title) == normalizedTitle(b.title)
  {
  }

  /** What deduplication should leave: the lead of every story, stories in first-seen order. */
  function Leads<K(==)>(items: seq<Item>, key: Item -> K, order: seq<K>): seq<Item>
    requires forall k | k in order :: Group(items, key, k) != []
  {
    seq(|order|, i requires 0 <= i < |order| => Lead(Group(items, key, order[i])))
  }

  /** `_dedupe_items`. */
  method DedupeItems(items: seq<Item>, normalizedTitle: string -> string) returns (result: seq<Item>)
    ensures var key := StoryOf(normalizedTitle);
            var order := FirstSeen(KeysOf(items, key));
            && (forall k | k in order :: Group(items, key, k) != [])
            && result == Leads(items, key, order)
  {
    var key := StoryOf(normalizedTitle);
    var order: seq<StoryKey>, byKey: map<StoryKey, Item> := [], map[];
    hide StoryOf, FirstSeen, Group, Lead, KeysOf, LedBy;
    NothingYet(key);
    assert items[..0] == [];
    for n := 0 to |items|
      invariant LedBy(items[..n], key, order, byKey)
    {
      var item := items[n];
      LedStep(items, key, n, order, byKey);
      if key(item) !in byKey {
        order := order + [key(item)];
        byKey := byKey[key(item) := item];
      } else if item.relevance > byKey[key(item)].relevance {
        byKey := byKey[key(item) := item];
      }
    }
    assert items[..|items|] == items;
    LedMeans(items, key, order, byKey);
    result := seq(|order|, i requires 0 <= i < |order| => byKey[order[i]]);
  }

  ghost predicate LedBy<K(!new)>(items: seq<Item>, key: Item -> K, order: seq<K>, byKey: map<K, Item>) {
    && order == FirstSeen(KeysOf(items, key))
    && (forall k :: k in byKey <==> k in order)
    && (forall k :: k in byKey <==> Group(items, key, k) != [])
    && (forall k | k in byKey :: byKey[k] == Lead(Group(items, key, k)))
  }

  lemma LedMeans<K(!new)>(items: seq<Item>, key: Item -> K, order: seq<K>, byKey: map<K, Item>)
    requires LedBy(items, key, order, byKey)
    ensures order == FirstSeen(KeysOf(items, key))
    ensures forall k | k in order :: k in byKey && Group(items, key, k) != [] && byKey[k] == Lead(Group(items, key, k))
  {
  }

  lemma LedStep<K(!new)>(items: seq<Item>, key: Item -> K, n: nat, order: seq<K>, byKey: map<K, Item>)
    requires n < |items| && LedBy(items[..n], key, order, byKey)
    ensures var item, k := items[n], key(items[n]);
            LedBy(items[..n + 1], key, if k in byKey then order else order + [k],
                  if k !in byKey || item.relevance > byKey[k].relevance then byKey[k := item] else byKey)
  {
    hide FirstSeen, Group, Lead, KeysOf;
    OneMore(items, key, n);
    LeadStep(Group(items[..n], key, key(items[n])), items[n]);
  }

  lemma NothingYet<K(!new)>(key: Item -> K)
    ensures LedBy([], key, [], map[]) && GroupedBy([], key, [], map[])
  {
  }

  ghost predicate GroupedBy<K(!new)>(items: seq<Item>, key: Item -> K, order: seq<K>, grouped: map<K, seq<Item>>) {
    && order == FirstSeen(KeysOf(items, key))
    && (forall k :: k in grouped <==> k in order)
    && (forall k :: k in grouped <==> Group(items, key, k) != [])
    && (forall k | k in grouped :: grouped[k] == Group(items, key, k))
  }

  lemma GroupedStep<K(!new)>(items: seq<Item>, key: Item -> K, n: nat, order: seq<K>, grouped: map<K, seq<Item>>)
    requires n < |items| && GroupedBy(items[..n], key, order, grouped)
    ensures var k := key(items[n]);
            GroupedBy(items[..n + 1], key, if k in grouped then order else order + [k],
                      grouped[k := (if k in grouped then grouped[k] else []) + [items[n]]])
  {
    hide FirstSeen, Group, KeysOf;
    OneMore(items, key, n);
  }

  lemma LeadStep(group: seq<Item>, item: Item)
    ensures Lead(group + [item]) == if group == [] || item.relevance > Lead(group).relevance then item else Lead(group)
  {
    assert (group + [item])[..|group|] == group;
  }

  /** The outcome has each story once, in first-seen order. */
  lemma LeadsHaveTheirKeys<K>(items: seq<Item>, key: Item -> K)
    ensures var order := FirstSeen(KeysOf(items, key));
            && Distinct(order) && (forall k | k in order :: Group(items, key, k) != [])
            && KeysOf(Leads(items, key, order), key) == order
  {
    var order := FirstSeen(KeysOf(items, key));
    FirstSeenExact(KeysOf(items, key));
    forall k | k in order ensures Group(items, key, k) != [] && key(Lead(Group(items, key, k))) == k {
      GroupExact(items, key, k);
      var j := LeadIsEarliestMaximal(Group(items, key, k));
      assert Lead(Group(items, key, k)) in Group(items, key, k);
    }
    var once := Leads(items, key, order);
    assert forall i | 0 <= i < |order| :: once[i] == Lead(Group(items, key, order[i])) && order[i] in order;
  }

  /** Deduplicating the outcome again changes nothing. */
  lemma DedupeIsIdempotent<K>(items: seq<Item>, key: Item -> K)
    requires forall k | k in FirstSeen(KeysOf(items, key)) :: Group(items, key, k) != []
    ensures var once := Leads(items, key, FirstSeen(KeysOf(items, key)));
            && (forall k | k in FirstSeen(KeysOf(once, key)) :: Group(once, key, k) != [])
            && Leads(once, key, FirstSeen(KeysOf(once, key))) == once
  {
    var order := FirstSeen(KeysOf(items, key));
    var once := Leads(items, key, order);
    LeadsHaveTheirKeys(items, key);
    FirstSeenOfDistinct(order);
    LeadsHaveTheirKeys(once, key);
    forall i | 0 <= i < |order| ensures Lead(Group(once, key, order[i])) == once[i] {
      var lead := Lead(Group(once, key, order[i]));
      assert order[i] in order;
      GroupExact(once, key, order[i]);
      var j := LeadIsEarliestMaximal(Group(once, key, order[i]));
      assert lead in Group(once, key, order[i]);
      var m :| 0 <= m < |once| && once[m] == lead;
      assert KeysOf(once, key)[m] == order[m] == order[i];
    }
  }

  lemma {:induction false} FirstSeenOfDistinct<K>(keys: seq<K>)
    requires Distinct(keys)
    ensures FirstSeen(keys) == keys
  {
    if keys != [] {
      var front := keys[..|keys| - 1];
      FirstSeenOfDistinct(front);
      assert keys == front + [keys[|keys| - 1]];
      assert keys[|keys| - 1] !in front;
    }
  }

  // ----- clusters -----

  datatype Cluster = Cluster(
    tag: string, leadTitle: string, leadSource: string, articleCount: nat, supportingUrls: seq<string>)

  /** `_cluster_tag`. */
  function ClusterTag(item: Item): string {
    if "listing" in item.tags || "delisting" in item.tags then "exchange_listing_or_margin"
    else if item.tags != [] then item.tags[0] else item.sourceCategory
  }

  function TagOf(): Item -> string {
    (item: Item) => ClusterTag(item)
  }

  function Urls(items: seq<Item>): seq<string> {
    seq(|items|, i requires 0 <= i < |items| => items[i].url)
  }

  function ClusterOf(tag: string, group: seq<Item>): Cluster
    requires group != []
  {
    Cluster(tag, Lead(group).title, Lead(group).sourceName, |group|, Urls(group))
  }

  /** An item is filed under listings if any tag says so, else under its first tag, else its source's
      category. */
  lemma TagMeans(item: Item)
    ensures (exists i | 0 <= i < |item.tags| :: item.tags[i] == "listing" || item.tags[i] == "delisting") ==>
              ClusterTag(item) == "exchange_listing_or_margin"
    ensures (forall i | 0 <= i < |item.tags| :: item.tags[i] != "listing" && item.tags[i] != "delisting") ==>
              if item.tags == [] then ClusterTag(item) == item.sourceCategory else ClusterTag(item) == item.tags[0]
  {
  }

  /** A cluster has the tag, one URL per item of its group in their order, and the headline of the
      earliest item of highest relevance. */
  lemma ClusterShows(tag: string, group: seq<Item>)
    requires group != []
    ensures var c := ClusterOf(tag, group);
            && c.tag == tag && c.articleCount == |c.supportingUrls| == |group|
            && (forall i | 0 <= i < |group| :: c.supportingUrls[i] == group[i].url)
            && exists k | 0 <= k < |group| ::
                 && c.leadTitle == group[k].title && c.leadSource == group[k].sourceName
                 && (forall j | 0 <= j < |group| :: group[j].relevance <= group[k].relevance)
                 && (forall j | 0 <= j < k :: group[j].relevance < group[k].relevance)
  {
    var k := LeadIsEarliestMaximal(group);
  }

  function Tags(items: seq<Item>): seq<string> {
    FirstSeen(KeysOf(items, TagOf()))
  }

  /** One cluster per tag, in first-seen order. */
  function Clusters(items: seq<Item>, tags: seq<string>): seq<Cluster>
    requires forall t | t in tags :: Group(items, TagOf(), t) != []
  {
    seq(|tags|, i requires 0 <= i < |tags| => ClusterOf(tags[i], Group(items, TagOf(), tags[i])))
  }

  /** `c` goes behind every cluster that is at least as large. */
  function Insert(sorted: seq<Cluster>, c: Cluster): seq<Cluster> {
    if sorted == [] || sorted[|sorted| - 1].articleCount >= c.articleCount then sorted + [c]
    else Insert(sorted[..|sorted| - 1], c) + [sorted[|sorted| - 1]]
  }

  /** Largest first; clusters of one size stay in their order. */
  function SortedByCount(clusters: seq<Cluster>): seq<Cluster> {
    if clusters == [] then [] else Insert(SortedByCount(clusters[..|clusters| - 1]), clusters[|clusters| - 1])
  }

  /** The grouping loop of `_build_story_clusters`. */
  method GroupByTag(items: seq<Item>) returns (order: seq<string>, grouped: map<string, seq<Item>>)
    ensures order == Tags(items)
    ensures forall t :: t in grouped <==> t in order
    ensures forall t | t in order :: grouped[t] == Group(items, TagOf(), t) && grouped[t] != []
  {
    var key := TagOf();
    order, grouped := [], map[];
    hide TagOf, FirstSeen, Group, Lead, KeysOf, GroupedBy;
    NothingYet(key);
    assert items[..0] == [];
    for n := 0 to |items|
      invariant GroupedBy(items[..n], key, order, grouped)
    {
      var tag := key(items[n]);
      GroupedStep(items, key, n, order, grouped);
      var before := if tag in grouped then grouped[tag] else [];
      if tag !in grouped {
        order := order + [tag];
      }
      grouped := grouped[tag := before + [items[n]]];
    }
    assert items[..|items|] == items;
    GroupedMeans(items, key, order, grouped);
  }

  lemma GroupedMeans(items: seq<Item>, key: Item -> string, order: seq<string>, grouped: map<string, seq<Item>>)
    requires GroupedBy(items, key, order, grouped)
    ensures order == FirstSeen(KeysOf(items, key))
    ensures forall t :: t in grouped <==> t in order
    ensures forall t | t in order :: grouped[t] == Group(items, key, t) && grouped[t] != []
  {
  }

  /** `_build_story_clusters`, before the caller truncates. */
  method BuildStoryClusters(items: seq<Item>) returns (clusters: seq<Cluster>)
    ensures forall t | t in Tags(items) :: Group(items, TagOf(), t) != []
    ensures clusters == SortedByCount(Clusters(items, Tags(items)))
  {
    var order, grouped := GroupByTag(items);
    hide Tags, TagOf, Group, Lead, ClusterOf;
    clusters := [];
    for n := 0 to |order|
      invariant |clusters| == n
      invariant forall i | 0 <= i < n :: clusters[i] == ClusterOf(order[i], Group(items, TagOf(), order[i]))
    {
      var group := grouped[order[n]];
      clusters := clusters + [ClusterOf(order[n], group)];
    }
    assert clusters == Clusters(items, order);
    clusters := SortedByCount(clusters);
  }

  // ----- conservation -----

  function TotalCount(clusters: seq<Cluster>): nat {
    if clusters == [] then 0 else TotalCount(clusters[..|clusters| - 1]) + clusters[|clusters| - 1].articleCount
  }

  function GroupsTotal(items: seq<Item>, tags: seq<string>): nat {
    if tags == [] then 0
    else GroupsTotal(items, tags[..|tags| - 1]) + |Group(items, TagOf(), tags[|tags| - 1])|
  }

  /** One more item adds one to exactly one group. */
  lemma {:induction false} GroupsTotalGrows(items: seq<Item>, tags: seq<string>, item: Item)
    requires Distinct(tags)
    ensures GroupsTotal(items + [item], tags) == GroupsTotal(items, tags) + if ClusterTag(item) in tags then 1 else 0
  {
    if tags != [] {
      var front, last := tags[..|tags| - 1], tags[|tags| - 1];
      assert tags == front + [last];
      assert last !in front;
      GroupsTotalGrows(items, front, item);
      assert (items + [item])[..|items|] == items;
    }
  }

  lemma {:induction false} GroupsTotalNone(tags: seq<string>)
    ensures GroupsTotal([], tags) == 0
  {
    if tags != [] {
      GroupsTotalNone(tags[..|tags| - 1]);
    }
  }

  lemma {:induction false} GroupsTotalIsSize(items: seq<Item>, tags: seq<string>)
    requires Distinct(tags) && forall item | item in items :: ClusterTag(item) in tags
    ensures GroupsTotal(items, tags) == |items|
  {
    if items == [] {
      GroupsTotalNone(tags);
    } else {
      var front, last := items[..|items| - 1], items[|items| - 1];
      GroupsTotalIsSize(front, tags);
      assert items == front + [last];
      GroupsTotalGrows(front, tags, last);
    }
  }

  lemma {:induction false} TotalOfClusters(items: seq<Item>, tags: seq<string>)
    requires forall t | t in tags :: Group(items, TagOf(), t) != []
    ensures TotalCount(Clusters(items, tags)) == GroupsTotal(items, tags)
  {
    hide Group, TagOf;
    if tags != [] {
      TotalOfClusters(items, tags[..|tags| - 1]);
      assert Clusters(items, tags)[..|tags| - 1] == Clusters(items, tags[..|tags| - 1]);
    }
  }

  ghost predicate Descending(cs: seq<Cluster>) {
    forall i, j | 0 <= i < j < |cs| :: cs[i].articleCount >= cs[j].articleCount
  }

  function OfSize(cs: seq<Cluster>, n: nat): seq<Cluster> {
    if cs == [] then []
    else OfSize(cs[..|cs| - 1], n) + if cs[|cs| - 1].articleCount == n then [cs[|cs| - 1]] else []
  }

  lemma Append(cs: seq<Cluster>, c: Cluster)
    ensures TotalCount(cs + [c]) == TotalCount(cs) + c.articleCount
    ensures forall n: nat :: OfSize(cs + [c], n) == OfSize(cs, n) + if c.articleCount == n then [c] else []
  {
    assert (cs + [c])[..|cs|] == cs;
  }

  lemma {:induction false} InsertCounts(sorted: seq<Cluster>, c: Cluster)
    ensures multiset(Insert(sorted, c)) == multiset(sorted) + multiset{c}
    ensures TotalCount(Insert(sorted, c)) == TotalCount(sorted) + c.articleCount
  {
    hide TotalCount, OfSize;
    Append(sorted, c);
    if sorted != [] && sorted[|sorted| - 1].articleCount < c.articleCount {
      var front, last := sorted[..|sorted| - 1], sorted[|sorted| - 1];
      InsertCounts(front, c);
      assert sorted == front + [last];
      Append(front, last);
      Append(Insert(front, c), last);
    }
  }

  predicate AllAtLeast(cs: seq<Cluster>, n: nat) {
    forall i | 0 <= i < |cs| :: cs[i].articleCount >= n
  }

  lemma {:induction false} InsertAtLeast(sorted: seq<Cluster>, c: Cluster, n: nat)
    requires AllAtLeast(sorted, n) && c.articleCount >= n
    ensures AllAtLeast(Insert(sorted, c), n)
  {
    if sorted != [] && sorted[|sorted| - 1].articleCount < c.articleCount {
      InsertAtLeast(sorted[..|sorted| - 1], c, n);
    }
  }

  lemma DescendingAppend(cs: seq<Cluster>, c: Cluster)
    ensures Descending(cs + [c]) <==> Descending(cs) && AllAtLeast(cs, c.articleCount)
  {
    var all := cs + [c];
    if Descending(all) {
      assert forall i | 0 <= i < |cs| :: cs[i] == all[i] && all[i].articleCount >= all[|cs|].articleCount;
    }
  }

  lemma {:induction false} InsertDescending(sorted: seq<Cluster>, c: Cluster)
    requires Descending(sorted)
    ensures Descending(Insert(sorted, c))
  {
    if sorted == [] {
      assert Descending([c]);
    } else {
      var front, last := sorted[..|sorted| - 1], sorted[|sorted| - 1];
      assert sorted == front + [last];
      DescendingAppend(front, last);
      hide Descending;
      if last.articleCount >= c.articleCount {
        assert AllAtLeast(sorted, c.articleCount);
        DescendingAppend(sorted, c);
      } else {
        InsertDescending(front, c);
        InsertAtLeast(front, c, last.articleCount);
        DescendingAppend(Insert(front, c), last);
      }
    }
  }

  lemma {:induction false} InsertStable(sorted: seq<Cluster>, c: Cluster, n: nat)
    ensures OfSize(Insert(sorted, c), n) == OfSize(sorted, n) + if c.articleCount == n then [c] else []
  {
    hide TotalCount, OfSize;
    Append(sorted, c);
    if sorted != [] && sorted[|sorted| - 1].articleCount < c.articleCount {
      var front, last := sorted[..|sorted| - 1], sorted[|sorted| - 1];
      InsertStable(front, c, n);
      assert sorted == front + [last];
      Append(front, last);
      Append(Insert(front, c), last);
    }
  }

  /** Sorting loses, invents and relabels nothing, puts large clusters first, and keeps clusters of
      one size in their order. */
  lemma {:induction false} SortKeeps(clusters: seq<Cluster>)
    ensures Descending(SortedByCount(clusters))
    ensures multiset(SortedByCount(clusters)) == multiset(clusters)
    ensures TotalCount(SortedByCount(clusters)) == TotalCount(clusters)
    ensures forall n: nat :: OfSize(SortedByCount(clusters), n) == OfSize(clusters, n)
  {
    hide Insert, TotalCount, OfSize;
    if clusters == [] {
    } else {
      var front, last := clusters[..|clusters| - 1], clusters[|clusters| - 1];
      SortKeeps(front);
      InsertDescending(SortedByCount(front), last);
      InsertCounts(SortedByCount(front), last);
      forall n: nat { InsertStable(SortedByCount(front), last, n); }
      assert clusters == front + [last];
      Append(front, last);
    }
  }

  lemma ClusterCountsAddUp(items: seq<Item>)
    requires forall t | t in Tags(items) :: Group(items, TagOf(), t) != []
    ensures TotalCount(Clusters(items, Tags(items))) == |items|
  {
    var tags := Tags(items);
    FirstSeenExact(KeysOf(items, TagOf()));
    hide Group, FirstSeen, TotalCount, GroupsTotal, Clusters;
    forall item | item in items ensures ClusterTag(item) in tags {
      var i :| 0 <= i < |items| && items[i] == item;
      assert KeysOf(items, TagOf())[i] == ClusterTag(item);
    }
    GroupsTotalIsSize(items, tags);
    TotalOfClusters(items, tags);
  }

  /** Every item is in exactly the cluster of its tag, with its URL; the counts add up to the number
      of items, and the largest clusters come first. */
  lemma ClustersConserveItems(items: seq<Item>)
    requires forall t | t in Tags(items) :: Group(items, TagOf(), t) != []
    ensures var clusters := SortedByCount(Clusters(items, Tags(items)));
            && TotalCount(clusters) == |items| && Descending(clusters)
            && Distinct(Tags(items)) && multiset(clusters) == multiset(Clusters(items, Tags(items)))
    ensures forall t, item :: item in Group(items, TagOf(), t) <==> item in items && ClusterTag(item) == t
  {
    FirstSeenExact(KeysOf(items, TagOf()));
    hide FirstSeen, SortedByCount, TotalCount, Clusters, Group;
    SortKeeps(Clusters(items, Tags(items)));
    ClusterCountsAddUp(items);
    forall t { GroupExact(items, TagOf(), t); }
  }
}
