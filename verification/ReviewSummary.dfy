/** The review summary: the last receipt per current item, split by first and repeat occurrences
    of an organization, with the 90th percentile of active time. */
module ReviewSummary {
  import opened Prelude
  import opened Receipts

  datatype ReviewItem = ReviewItem(key: Key, organization: Key, audited: string)

  // ---------------------------------------------------------------- occurrence position

  /** The order (audit_date, review_key). */
  predicate Precedes(a: ReviewItem, b: ReviewItem) {
    if a.audited != b.audited then Le(a.audited, b.audited) else Le(a.key, b.key)
  }

  /** Stable sort by (audit_date, review_key). */
  function SortItems(xs: seq<ReviewItem>): seq<ReviewItem> { SortBy(Precedes, xs) }

  ghost predicate Ordered(xs: seq<ReviewItem>) {
    forall i, j :: 0 <= i < j < |xs| ==> Precedes(xs[i], xs[j])
  }

  lemma PrecedesTotal(a: ReviewItem, b: ReviewItem)
    ensures Precedes(a, b) || Precedes(b, a)
    ensures Precedes(a, b) && Precedes(b, a) ==> a.audited == b.audited && a.key == b.key
  {
    hide Le;
    LeTotal(a.audited, b.audited);
    LeTotal(a.key, b.key);
    if Le(a.audited, b.audited) && Le(b.audited, a.audited) { LeAntisymmetric(a.audited, b.audited); }
    if Le(a.key, b.key) && Le(b.key, a.key) { LeAntisymmetric(a.key, b.key); }
  }

  lemma PrecedesTransitive(a: ReviewItem, b: ReviewItem, c: ReviewItem)
    requires Precedes(a, b) && Precedes(b, c)
    ensures Precedes(a, c)
  {
    hide Le;
    if a.audited == b.audited == c.audited { LeTransitive(a.key, b.key, c.key); }
    if a.audited != b.audited && b.audited != c.audited {
      LeTransitive(a.audited, b.audited, c.audited);
      if a.audited == c.audited { LeAntisymmetric(a.audited, b.audited); }
    }
  }

  lemma SortItemsOrders(xs: seq<ReviewItem>)
    ensures Ordered(SortItems(xs)) && multiset(SortItems(xs)) == multiset(xs)
  {
    hide Precedes, SortBy;
    forall a, b ensures Precedes(a, b) || Precedes(b, a) { PrecedesTotal(a, b); }
    forall a, b, c | Precedes(a, b) && Precedes(b, c) ensures Precedes(a, c) { PrecedesTransitive(a, b, c); }
    SortBySorts(Precedes, x => 0, xs);
  }

  function Siblings(items: seq<ReviewItem>, organization: Key): seq<ReviewItem> {
    if items == [] then []
    else
      var before, last := Siblings(items[..|items| - 1], organization), items[|items| - 1];
      if last.organization == organization then before + [last] else before
  }

  lemma {:induction false} SiblingsAre(items: seq<ReviewItem>, organization: Key)
    ensures forall x :: x in Siblings(items, organization) <==> x in items && x.organization == organization
  {
    if items != [] {
      var n := |items| - 1;
      SiblingsAre(items[..n], organization);
      assert items == items[..n] + [items[n]];
    }
  }

  lemma {:induction false} SiblingsAreDistinct(items: seq<ReviewItem>, organization: Key)
    requires DistinctReviewKeys(items)
    ensures DistinctReviewKeys(Siblings(items, organization))
  {
    if items != [] {
      var n := |items| - 1;
      var before := Siblings(items[..n], organization);
      SiblingsAreDistinct(items[..n], organization);
      SiblingsAre(items[..n], organization);
      forall i | 0 <= i < |before| ensures before[i].key != items[n].key {
        assert before[i] in items[..n];
        var k :| 0 <= k < n && items[k] == before[i];
      }
    }
  }

  ghost predicate DistinctReviewKeys(items: seq<ReviewItem>) {
    forall i, j :: 0 <= i < j < |items| ==> items[i].key != items[j].key
  }

  /** How many siblings come before the target in (audit_date, review_key) order. */
  ghost function Rank(siblings: seq<ReviewItem>, target: ReviewItem): nat {
    Total(Mapped(Counted(target), siblings))
  }

  /** Another item of the same organization with an earlier audit date, or with the same one and a
      smaller review key. */
  ghost predicate ComesBefore(x: ReviewItem, target: ReviewItem) {
    && x.organization == target.organization && x.key != target.key
    && if x.audited == target.audited then Le(x.key, target.key) else Le(x.audited, target.audited)
  }

  lemma {:induction false} SiblingsCount(items: seq<ReviewItem>, organization: Key)
    ensures |Siblings(items, organization)| == |set i | 0 <= i < |items| && items[i].organization == organization|
  {
    var f := (x: ReviewItem) => x.organization == organization;
    WhereStep(items, f);
    if items != [] {
      var init := items[..|items| - 1];
      SiblingsCount(init, organization);
      assert Where(init, f) == set i | 0 <= i < |init| && init[i].organization == organization;
    }
    assert Where(items, f) == set i | 0 <= i < |items| && items[i].organization == organization;
  }

  ghost function Counted(target: ReviewItem): ReviewItem -> nat {
    (x: ReviewItem) => if x.key != target.key && Precedes(x, target) then 1 else 0
  }

  lemma {:induction false} RankWhere(items: seq<ReviewItem>, target: ReviewItem)
    ensures Rank(Siblings(items, target.organization), target) == |Where(items, (x: ReviewItem) => ComesBefore(x, target))|
  {
    hide Le;
    WhereStep(items, (x: ReviewItem) => ComesBefore(x, target));
    if items == [] {
      assert Mapped(Counted(target), []) == [];
    } else {
      var init, last := items[..|items| - 1], items[|items| - 1];
      RankWhere(init, target);
      var before := Siblings(init, target.organization);
      if last.organization == target.organization {
        assert Mapped(Counted(target), before + [last])[..|before|] == Mapped(Counted(target), before);
      }
    }
  }

  lemma RankIs(items: seq<ReviewItem>, target: ReviewItem)
    ensures Rank(Siblings(items, target.organization), target) == |set i | 0 <= i < |items| && ComesBefore(items[i], target)|
  {
    RankWhere(items, target);
    assert Where(items, (x: ReviewItem) => ComesBefore(x, target)) == set i | 0 <= i < |items| && ComesBefore(items[i], target);
  }

  /** The 1-based position of a pending item among its organization's items.  It is always found,
      and with distinct review keys it is one more than the item's rank. */
  method OccurrencePosition(items: seq<ReviewItem>, target: ReviewItem) returns (index: nat, count: nat)
    requires target in items
    ensures 1 <= index <= count == |set i | 0 <= i < |items| && items[i].organization == target.organization|
    ensures DistinctReviewKeys(items) ==> index == 1 + |set i | 0 <= i < |items| && ComesBefore(items[i], target)|
  {
    hide Siblings, SortItems, Precedes, ComesBefore, Rank;
    var siblings := Siblings(items, target.organization);
    var sorted := SortItems(siblings);
    SiblingsAre(items, target.organization);
    SortItemsOrders(siblings);
    SameElements(sorted, siblings);
    assert target in sorted;
    var i := 0;
    while sorted[i].key != target.key
      invariant i < |sorted| && forall j :: 0 <= j < i ==> sorted[j].key != target.key
      decreases |sorted| - i
    {
      i := i + 1;
    }
    index, count := i + 1, |sorted|;
    SiblingsCount(items, target.organization);
    if DistinctReviewKeys(items) {
      RankIs(items, target);
      SiblingsAreDistinct(items, target.organization);
      PositionIsRank(siblings, sorted, target, i);
    }
  }

  lemma PositionIsRank(siblings: seq<ReviewItem>, sorted: seq<ReviewItem>, target: ReviewItem, i: nat)
    requires multiset(siblings) == multiset(sorted) && Ordered(sorted) && DistinctReviewKeys(siblings) && target in siblings
    requires i < |sorted| && sorted[i].key == target.key
    ensures Rank(siblings, target) == i
  {
    hide Precedes;
    var f := Counted(target);
    SameElements(siblings, sorted);
    KeysIdentify(siblings, sorted[i], target);
    MappedShuffles(f, siblings, sorted);
    TotalShuffles(Mapped(f, siblings), Mapped(f, sorted));
    forall j | 0 <= j < |sorted| ensures f(sorted[j]) == if j < i then 1 else 0 {
      if j != i {
        SortedKeysDiffer(siblings, sorted, i, j);
        PrecedesTotal(sorted[j], sorted[i]);
      }
    }
    StepTotal(Mapped(f, sorted), i);
  }

  lemma KeysIdentify(xs: seq<ReviewItem>, a: ReviewItem, b: ReviewItem)
    requires DistinctReviewKeys(xs) && a in xs && b in xs && a.key == b.key
    ensures a == b
  {
  }

  lemma SortedKeysDiffer(siblings: seq<ReviewItem>, sorted: seq<ReviewItem>, i: nat, j: nat)
    requires multiset(siblings) == multiset(sorted) && DistinctReviewKeys(siblings) && i < |sorted| && j < |sorted| && i != j
    ensures sorted[i].key != sorted[j].key
  {
    assert NoRepeats(siblings);
    NoRepeatsIsMultiset(siblings, sorted);
    assert sorted[i] in siblings && sorted[j] in siblings && sorted[i] != sorted[j];
  }

  lemma {:induction false} StepTotal(ns: seq<nat>, i: nat)
    requires i <= |ns| && forall j :: 0 <= j < |ns| ==> ns[j] == if j < i then 1 else 0
    ensures Total(ns) == i
  {
    if ns != [] { StepTotal(ns[..|ns| - 1], if i == |ns| then i - 1 else i); }
  }

  // ---------------------------------------------------------------- latest receipts

  /** The last receipt of each current key. */
  function Latest(receipts: seq<Receipt>, keys: set<Key>): map<Key, Receipt> {
    if receipts == [] then map[]
    else
      var before, r := Latest(receipts[..|receipts| - 1], keys), receipts[|receipts| - 1];
      if r.request.reviewKey in keys then before[r.request.reviewKey := r] else before
  }

  function OfManifest(receipts: seq<Receipt>, manifest: string): seq<Receipt> {
    if receipts == [] then []
    else
      var before, r := OfManifest(receipts[..|receipts| - 1], manifest), receipts[|receipts| - 1];
      if r.request.manifest == manifest then before + [r] else before
  }

  /** `r` is the last receipt of its review key. */
  ghost predicate IsLast(receipts: seq<Receipt>, r: Receipt) {
    exists i :: 0 <= i < |receipts| && receipts[i] == r
                && forall j :: i < j < |receipts| ==> receipts[j].request.reviewKey != r.request.reviewKey
  }

  ghost predicate Mentioned(receipts: seq<Receipt>, key: Key) {
    exists i :: 0 <= i < |receipts| && receipts[i].request.reviewKey == key
  }

  lemma OneMoreReceipt(receipts: seq<Receipt>, last: Receipt, key: Key)
    ensures Mentioned(receipts + [last], key) <==> Mentioned(receipts, key) || last.request.reviewKey == key
    ensures IsLast(receipts + [last], last)
    ensures forall r :: IsLast(receipts, r) && r.request.reviewKey != last.request.reviewKey ==> IsLast(receipts + [last], r)
  {
    var more := receipts + [last];
    assert more[|receipts|] == last && forall i :: 0 <= i < |receipts| ==> more[i] == receipts[i];
  }

  lemma {:induction false} LatestIsLast(receipts: seq<Receipt>, keys: set<Key>, key: Key)
    ensures key in Latest(receipts, keys) <==> key in keys && Mentioned(receipts, key)
    ensures key in Latest(receipts, keys) ==>
              Latest(receipts, keys)[key].request.reviewKey == key && IsLast(receipts, Latest(receipts, keys)[key])
  {
    hide Mentioned, IsLast;
    if receipts == [] {
      assert !Mentioned(receipts, key) by { NoneMentioned(key); }
    } else {
      var n := |receipts| - 1;
      LatestIsLast(receipts[..n], keys, key);
      OneMoreReceipt(receipts[..n], receipts[n], key);
      assert receipts == receipts[..n] + [receipts[n]];
    }
  }

  lemma NoneMentioned(key: Key)
    ensures !Mentioned([], key)
  {
  }

  lemma LatestAreLast(receipts: seq<Receipt>, keys: set<Key>)
    ensures forall key :: key in Latest(receipts, keys) <==> key in keys && Mentioned(receipts, key)
    ensures forall key :: key in Latest(receipts, keys) ==>
              Latest(receipts, keys)[key].request.reviewKey == key && IsLast(receipts, Latest(receipts, keys)[key])
  {
    hide Latest, Mentioned, IsLast;
    forall key
      ensures key in Latest(receipts, keys) <==> key in keys && Mentioned(receipts, key)
      ensures key in Latest(receipts, keys) ==>
                Latest(receipts, keys)[key].request.reviewKey == key && IsLast(receipts, Latest(receipts, keys)[key])
    {
      LatestIsLast(receipts, keys, key);
    }
  }

  /** The receipts of one manifest that the position `i` of the log holds for a key. */
  ghost predicate HoldsAt(receipts: seq<Receipt>, manifest: string, key: Key, i: int) {
    0 <= i < |receipts| && receipts[i].request.manifest == manifest && receipts[i].request.reviewKey == key
  }

  /** Over the whole log: a key has a latest receipt exactly when it is current and the log holds a
      receipt of the manifest for it, and the latest one is the last of those. */
  ghost predicate IsLatest(receipts: seq<Receipt>, manifest: string, keys: set<Key>, latest: map<Key, Receipt>) {
    && (forall key :: key in latest <==> key in keys && exists i :: HoldsAt(receipts, manifest, key, i))
    && (forall key :: key in latest ==>
          exists i :: HoldsAt(receipts, manifest, key, i) && receipts[i] == latest[key] && forall j :: j > i ==> !HoldsAt(receipts, manifest, key, j))
  }

  lemma {:induction false} LatestIsLatest(receipts: seq<Receipt>, manifest: string, keys: set<Key>)
    ensures IsLatest(receipts, manifest, keys, Latest(OfManifest(receipts, manifest), keys))
  {
    hide IsLatest;
    if receipts == [] {
      assert IsLatest(receipts, manifest, keys, map[]) by { NoReceipts(manifest, keys); }
    } else {
      var n := |receipts| - 1;
      var mine := OfManifest(receipts[..n], manifest);
      LatestIsLatest(receipts[..n], manifest, keys);
      assert (mine + [receipts[n]])[..|mine|] == mine;
      OneMoreLatest(receipts, n, manifest, keys, Latest(mine, keys));
    }
  }

  lemma NoReceipts(manifest: string, keys: set<Key>)
    ensures IsLatest([], manifest, keys, map[])
  {
  }

  lemma OneMoreLatest(receipts: seq<Receipt>, n: nat, manifest: string, keys: set<Key>, latest: map<Key, Receipt>)
    requires n == |receipts| - 1 && IsLatest(receipts[..n], manifest, keys, latest)
    ensures var r := receipts[n];
            IsLatest(receipts, manifest, keys, if r.request.manifest == manifest && r.request.reviewKey in keys then latest[r.request.reviewKey := r] else latest)
  {
    var r, init := receipts[n], receipts[..n];
    forall key, i ensures HoldsAt(receipts, manifest, key, i) <==> HoldsAt(init, manifest, key, i) || (i == n && HoldsAt(receipts, manifest, key, n)) {}
    var next := if r.request.manifest == manifest && r.request.reviewKey in keys then latest[r.request.reviewKey := r] else latest;
    forall key | key in next
      ensures exists i :: HoldsAt(receipts, manifest, key, i) && receipts[i] == next[key] && forall j :: j > i ==> !HoldsAt(receipts, manifest, key, j)
    {
      if HoldsAt(receipts, manifest, key, n) {
        assert receipts[n] == next[key];
      } else {
        var i :| HoldsAt(init, manifest, key, i) && init[i] == latest[key] && forall j :: j > i ==> !HoldsAt(init, manifest, key, j);
        assert HoldsAt(receipts, manifest, key, i) && receipts[i] == next[key];
      }
    }
  }

  datatype Summary = Summary(itemCount: nat, decided: nat, remaining: nat, allReviewed: bool, first: set<Key>, repeated: set<Key>)

  function KeysOfItems(items: seq<ReviewItem>): set<Key> { set x | x in items :: x.key }

  function FirstKeys(latest: map<Key, Receipt>): set<Key> { set key | key in latest && latest[key].index == 1 }

  function RepeatKeys(latest: map<Key, Receipt>): set<Key> { set key | key in latest && latest[key].index > 1 }

  /** Builds the summary of one manifest from the log. */
  method Summarize(items: seq<ReviewItem>, receipts: seq<Receipt>, manifest: string) returns (s: Summary, latest: map<Key, Receipt>)
    ensures latest == Latest(OfManifest(receipts, manifest), KeysOfItems(items))
    ensures IsLatest(receipts, manifest, set x | x in items :: x.key, latest)
    ensures s.itemCount == |items| && s.decided == |latest| && s.decided + s.remaining == s.itemCount
    ensures s.allReviewed <==> |items| > 0 && |latest| == |items|
    ensures forall key :: key in s.first <==> key in latest && latest[key].index == 1
    ensures forall key :: key in s.repeated <==> key in latest && latest[key].index > 1
  {
    hide IsLatest;
    var mine: seq<Receipt>, keys := [], KeysOfItems(items);
    latest := map[];
    for i := 0 to |receipts|
      invariant mine == OfManifest(receipts[..i], manifest) && latest == Latest(mine, keys)
    {
      assert receipts[..i + 1][..i] == receipts[..i];
      if receipts[i].request.manifest == manifest {
        assert (mine + [receipts[i]])[..|mine|] == mine;
        mine := mine + [receipts[i]];
        if receipts[i].request.reviewKey in keys { latest := latest[receipts[i].request.reviewKey := receipts[i]]; }
      }
    }
    assert receipts[..|receipts|] == receipts;
    LatestIsBounded(items, mine);
    LatestIsLatest(receipts, manifest, keys);
    var decided := |latest|;
    s := Summary(|items|, decided, if decided < |items| then |items| - decided else 0, |items| > 0 && decided == |items|,
                 FirstKeys(latest), RepeatKeys(latest));
  }

  lemma {:induction false} KeysAtMost(items: seq<ReviewItem>)
    ensures |KeysOfItems(items)| <= |items|
    ensures |KeysOfItems(items)| == |items| <==> DistinctReviewKeys(items)
  {
    if items != [] {
      var n := |items| - 1;
      KeysAtMost(items[..n]);
      OneMoreKey(items, n);
    }
  }

  lemma OneMoreKey(items: seq<ReviewItem>, n: nat)
    requires n == |items| - 1
    ensures KeysOfItems(items) == KeysOfItems(items[..n]) + {items[n].key}
    ensures DistinctReviewKeys(items) <==> DistinctReviewKeys(items[..n]) && items[n].key !in KeysOfItems(items[..n])
  {
    assert items == items[..n] + [items[n]];
    assert forall i :: 0 <= i < n ==> items[i] in items[..n] && items[..n][i] == items[i];
    if items[n].key in KeysOfItems(items[..n]) {
      var x :| x in items[..n] && x.key == items[n].key;
      var i :| 0 <= i < n && items[i] == x;
    }
  }

  lemma LatestIsBounded(items: seq<ReviewItem>, receipts: seq<Receipt>)
    ensures |Latest(receipts, KeysOfItems(items))| <= |items|
    ensures Latest(receipts, KeysOfItems(items)).Keys <= KeysOfItems(items)
  {
    var latest, keys := Latest(receipts, KeysOfItems(items)), KeysOfItems(items);
    LatestAreLast(receipts, keys);
    KeysAtMost(items);
    SubsetSize(latest.Keys, keys);
  }

  /** The clamp never acts, each decided key reports its last receipt, first and repeat occurrences
      partition the decided keys, and everything is reviewed exactly when the review keys are
      distinct and each has a receipt. */
  lemma SummaryMeans(items: seq<ReviewItem>, receipts: seq<Receipt>, manifest: string)
    requires forall r :: r in receipts ==> r.index >= 1
    ensures var mine, keys := OfManifest(receipts, manifest), KeysOfItems(items); var latest := Latest(mine, keys);
            && |latest| <= |items|
            && (forall key :: key in latest ==> latest[key].request.reviewKey == key && IsLast(mine, latest[key]))
            && FirstKeys(latest) + RepeatKeys(latest) == latest.Keys && FirstKeys(latest) !! RepeatKeys(latest)
            && (forall key :: key in FirstKeys(latest) <==> key in latest && latest[key].index == 1)
            && (|latest| == |items| <==> DistinctReviewKeys(items) && forall x :: x in items ==> x.key in latest)
  {
    hide Latest, DistinctReviewKeys, IsLast, Mentioned, OfManifest;
    var mine, keys := OfManifest(receipts, manifest), KeysOfItems(items);
    var latest := Latest(mine, keys);
    LatestAreLast(mine, keys);
    OfManifestAre(receipts, manifest);
    LatestIsBounded(items, mine);
    KeysAtMost(items);
    SubsetSize(latest.Keys, keys);
    forall key | key in latest ensures latest[key].index >= 1 { LastIsIn(mine, latest[key]); }
    if |latest| == |items| { forall x | x in items ensures x.key in latest { assert x.key in keys; } }
    if DistinctReviewKeys(items) && forall x :: x in items ==> x.key in latest { assert latest.Keys == keys; }
  }

  /** The summary of any log the threads can leave: calls carry the position that
      `OccurrencePosition` computes, so no receipt has an index below 1. */
  lemma SummaryOfExecution(s: System, moves: seq<Move>, items: seq<ReviewItem>, manifest: string)
    requires AllPositioned(s)
    ensures var latest := Latest(OfManifest(Execute(s, moves).log.receipts, manifest), KeysOfItems(items));
            |latest| <= |items| && FirstKeys(latest) + RepeatKeys(latest) == latest.Keys && FirstKeys(latest) !! RepeatKeys(latest)
  {
    hide Execute, Latest, OfManifest;
    PositionsAreKept(s, moves);
    SummaryMeans(items, Execute(s, moves).log.receipts, manifest);
  }

  lemma LastIsIn(receipts: seq<Receipt>, r: Receipt)
    requires IsLast(receipts, r)
    ensures r in receipts
  {
  }

  lemma {:induction false} OfManifestAre(receipts: seq<Receipt>, manifest: string)
    ensures forall r :: r in OfManifest(receipts, manifest) ==> r in receipts && r.request.manifest == manifest
  {
    if receipts != [] { OfManifestAre(receipts[..|receipts| - 1], manifest); }
  }

  // ---------------------------------------------------------------- percentile

  /** ceil(9n / 10). */
  function NineTenths(n: nat): nat { (9 * n + 9) / 10 }

  function P90(values: seq<nat>): Option<nat> {
    if values == [] then None
    else
      SortNatsSorts(values);
      SameElements(SortNats(values), values);
      var k := NineTenths(|values|);
      Some(SortNats(values)[if k < 1 then 0 else k - 1])
  }

  ghost function Indicator(holds: nat -> bool): nat -> nat { (v: nat) => if holds(v) then 1 else 0 }

  ghost function CountThat(values: seq<nat>, holds: nat -> bool): nat {
    Total(Mapped(Indicator(holds), values))
  }

  /** The percentile is one of the values; at least ceil(9n / 10) values are not above it and at
      least n - ceil(9n / 10) + 1 are not below it. */
  lemma P90Means(values: seq<nat>)
    requires values != []
    ensures var n, k, p := |values|, NineTenths(|values|), P90(values).value;
            && 9 * n <= 10 * k < 9 * n + 10 && k <= n && p in values
            && CountThat(values, v => v <= p) >= k && CountThat(values, v => v >= p) >= n - k + 1
  {
    hide Total, Mapped;
    var n, k, sorted := |values|, NineTenths(|values|), SortNats(values);
    SortNatsSorts(values);
    SameElements(sorted, values);
    var p := sorted[k - 1];
    assert p in sorted;
    var low: nat -> bool, high: nat -> bool := v => v <= p, v => v >= p;
    CountShuffles(values, sorted, low);
    CountShuffles(values, sorted, high);
    CountPart(sorted, low, 0, k);
    CountPart(sorted, high, k - 1, n);
  }

  /** The percentile does not depend on the order of the values. */
  lemma P90IgnoresOrder(a: seq<nat>, b: seq<nat>)
    requires multiset(a) == multiset(b)
    ensures P90(a) == P90(b)
  {
    SameElements(a, b);
    SortNatsSorts(a);
    SortNatsSorts(b);
    RisingIsUnique(SortNats(a), SortNats(b));
  }

  lemma CountShuffles(a: seq<nat>, b: seq<nat>, holds: nat -> bool)
    requires multiset(a) == multiset(b)
    ensures CountThat(a, holds) == CountThat(b, holds)
  {
    MappedShuffles(Indicator(holds), a, b);
    TotalShuffles(Mapped(Indicator(holds), a), Mapped(Indicator(holds), b));
  }

  lemma {:induction false} CountPart(xs: seq<nat>, holds: nat -> bool, lo: nat, hi: nat)
    requires lo <= hi <= |xs| && forall i :: lo <= i < hi ==> holds(xs[i])
    ensures CountThat(xs, holds) >= hi - lo
  {
    if xs != [] {
      var n := |xs| - 1;
      assert Mapped(Indicator(holds), xs)[..n] == Mapped(Indicator(holds), xs[..n]);
      CountPart(xs[..n], holds, if lo <= n then lo else n, if hi <= n then hi else n);
    }
  }
}
