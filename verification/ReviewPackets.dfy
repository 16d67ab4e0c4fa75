/** Review packets: all review rows of one bill, distinct rows in canonical order with their
    multiplicities, together with the sorted source pages they came from. */
module ReviewPackets {
  import opened Prelude
  import opened Fetching

  /** `row` is the canonical text of the normalized review row. */
  datatype Review = Review(bill: Key, billNo: string, age: int, row: Key)

  /** The normalized packet; it stands for its own content hash. */
  datatype Packet = Packet(billNo: string, age: int, reviews: seq<(Key, nat)>, rowTotal: nat, distinctRows: nat, duplicateRows: int,
                           sourcePages: seq<nat>, sourcePageCount: nat, anchor: nat)

  // ---------------------------------------------------------------- one packet

  function RowsOf(records: seq<Review>): seq<Key> {
    seq(|records|, i requires 0 <= i < |records| => records[i].row)
  }

  ghost predicate OneBill(records: seq<Review>) {
    && records != []
    && forall i :: 0 <= i < |records| ==> records[i].billNo == records[0].billNo && records[i].age == records[0].age
  }

  lemma OneBillIff(records: seq<Review>)
    ensures OneBill(records) <==>
              records != [] && forall i, j :: 0 <= i < j < |records| ==> records[i].billNo == records[j].billNo && records[i].age == records[j].age
  {
    if records != [] && forall i, j :: 0 <= i < j < |records| ==> records[i].billNo == records[j].billNo && records[i].age == records[j].age {
      forall i | 0 <= i < |records| ensures records[i].billNo == records[0].billNo && records[i].age == records[0].age {
        assert 0 < i ==> records[0].billNo == records[i].billNo;
      }
    }
  }

  /** Each distinct row once, in ascending order, with its multiplicity. */
  ghost predicate Collapses(rows: seq<Key>, reviews: seq<(Key, nat)>) {
    && Ascending(KeysIn(reviews)) && DistinctlyKeyed(reviews)
    && (forall i :: 0 <= i < |reviews| ==> reviews[i].0 in rows && reviews[i].1 == multiset(rows)[reviews[i].0])
    && (forall row :: row in rows ==> row in KeysIn(reviews))
  }

  ghost predicate IsPacket(records: seq<Review>, pages: seq<nat>, p: Packet) {
    && OneBill(records) && p.billNo == records[0].billNo && p.age == records[0].age
    && Collapses(RowsOf(records), p.reviews)
    && p.rowTotal == |records| && p.distinctRows == |p.reviews| && p.duplicateRows == |records| - |p.reviews|
    && p.sourcePages == SortNats(pages) && p.sourcePageCount == |set x | x in pages|
    && p.anchor in pages && forall x :: x in pages ==> x <= p.anchor
  }

  /** Counts the rows by their canonical text. */
  method CountRows(rows: seq<Key>) returns (counts: map<Key, nat>)
    ensures forall row :: row in counts <==> row in rows
    ensures forall row :: row in counts ==> counts[row] == multiset(rows)[row]
  {
    counts := map[];
    for i := 0 to |rows|
      invariant forall row :: row in counts <==> row in rows[..i]
      invariant forall row :: row in counts ==> counts[row] == multiset(rows[..i])[row]
    {
      assert rows[..i + 1] == rows[..i] + [rows[i]];
      assert rows[i] !in counts ==> multiset(rows[..i])[rows[i]] == 0;
      counts := counts[rows[i] := if rows[i] in counts then counts[rows[i]] + 1 else 1];
    }
    assert rows[..|rows|] == rows;
  }

  /** Builds the packet; it fails exactly when there is no row or no page, or more than one bill
      number or age. */
  method BuildReviewPacket(records: seq<Review>, pages: seq<nat>) returns (p: Option<Packet>)
    ensures p.Some? <==>
              && records != [] && pages != []
              && forall i, j :: 0 <= i < j < |records| ==> records[i].billNo == records[j].billNo && records[i].age == records[j].age
    ensures p.Some? ==> IsPacket(records, pages, p.value)
  {
    hide Sort, Le, SortNats;
    if records == [] || pages == [] { return None; }
    for i := 0 to |records|
      invariant forall j :: 0 <= j < i ==> records[j].billNo == records[0].billNo && records[j].age == records[0].age
    {
      if records[i].billNo != records[0].billNo || records[i].age != records[0].age { return None; }
    }
    var counts := CountRows(RowsOf(records));
    var reviews := SortedCounts(counts);
    var anchor := pages[0];
    for i := 0 to |pages|
      invariant anchor in pages && forall j :: 0 <= j < i ==> pages[j] <= anchor
    {
      if pages[i] > anchor { anchor := pages[i]; }
    }
    p := Some(Packet(records[0].billNo, records[0].age, reviews, |records|, |reviews|, |records| - |reviews|,
                     SortNats(pages), |set x | x in pages|, anchor));
  }

  method SortedCounts(counts: map<Key, nat>) returns (reviews: seq<(Key, nat)>)
    ensures Ascending(KeysIn(reviews)) && DistinctlyKeyed(reviews)
    ensures forall i :: 0 <= i < |reviews| ==> reviews[i].0 in counts && reviews[i].1 == counts[reviews[i].0]
    ensures forall row :: row in counts ==> row in KeysIn(reviews)
  {
    hide Sort, Le;
    var keys := KeysOf(counts);
    var sorted := Sort(keys);
    SortSorts(keys);
    NoRepeatsIsMultiset(keys, sorted);
    reviews := [];
    for i := 0 to |sorted|
      invariant |reviews| == i
      invariant forall j :: 0 <= j < i ==> sorted[j] in counts && reviews[j] == (sorted[j], counts[sorted[j]])
    {
      assert sorted[i] in sorted;
      reviews := reviews + [(sorted[i], counts[sorted[i]])];
    }
    assert KeysIn(reviews) == sorted;
  }

  lemma RowsShuffle(a: seq<Review>, b: seq<Review>)
    requires multiset(a) == multiset(b)
    ensures multiset(RowsOf(a)) == multiset(RowsOf(b))
  {
    var f := (r: Review) => r.row;
    MappedShuffles(f, a, b);
    assert RowsOf(a) == Mapped(f, a) && RowsOf(b) == Mapped(f, b);
  }

  lemma CollapsedIsUnique(a: seq<Key>, b: seq<Key>, x: seq<(Key, nat)>, y: seq<(Key, nat)>)
    requires multiset(a) == multiset(b) && Collapses(a, x) && Collapses(b, y)
    ensures x == y
  {
    SameElements(a, b);
    forall row ensures row in x <==> row in y { CollapsedMoves(a, b, x, y, row); CollapsedMoves(b, a, y, x, row); }
    SortedRowsAreUnique(x, y);
  }

  lemma CollapsedMoves(a: seq<Key>, b: seq<Key>, x: seq<(Key, nat)>, y: seq<(Key, nat)>, row: (Key, nat))
    requires multiset(a) == multiset(b) && Collapses(a, x) && Collapses(b, y) && forall key :: key in a ==> key in b
    ensures row in x ==> row in y
  {
    if row in x {
      assert row.0 in KeysIn(y);
      var i :| 0 <= i < |y| && KeysIn(y)[i] == row.0;
      assert y[i] == row;
    }
  }

  /** A packet is a canonical form: permuting the bill's rows and its source pages changes
      neither the packet nor whether it is refused. */
  lemma PacketIsCanonical(a: seq<Review>, b: seq<Review>, pa: seq<nat>, pb: seq<nat>, x: Packet, y: Packet)
    requires multiset(a) == multiset(b) && multiset(pa) == multiset(pb)
    ensures OneBill(a) <==> OneBill(b)
    ensures IsPacket(a, pa, x) && IsPacket(b, pb, y) ==> x == y
  {
    hide Collapses, SortNats;
    OneBillShuffles(a, b);
    if IsPacket(a, pa, x) && IsPacket(b, pb, y) {
      SameElements(a, b);
      assert a[0] in b;
      RowsShuffle(a, b);
      CollapsedIsUnique(RowsOf(a), RowsOf(b), x.reviews, y.reviews);
      SameElements(pa, pb);
      assert (set p | p in pa) == (set p | p in pb);
      SortNatsSorts(pa);
      SortNatsSorts(pb);
      RisingIsUnique(SortNats(pa), SortNats(pb));
    }
  }

  lemma OneBillShuffles(a: seq<Review>, b: seq<Review>)
    requires multiset(a) == multiset(b)
    ensures OneBill(a) <==> OneBill(b)
  {
    SameElements(a, b);
    if a != [] {
      assert a[0] in b && b[0] in a;
      assert OneBill(a) <==> forall r :: r in a ==> r.billNo == a[0].billNo && r.age == a[0].age;
      assert OneBill(b) <==> forall r :: r in b ==> r.billNo == b[0].billNo && r.age == b[0].age;
    }
  }

  // ---------------------------------------------------------------- all bills of the universe

  /** The rows of one bill, in provider order. */
  function Pick(id: Key, rows: seq<Review>): seq<Review> {
    if rows == [] then []
    else
      var before, r := Pick(id, rows[..|rows| - 1]), rows[|rows| - 1];
      if r.bill == id then before + [r] else before
  }

  function Bills(rows: seq<Review>): seq<Key> {
    seq(|rows|, i requires 0 <= i < |rows| => rows[i].bill)
  }

  lemma {:induction false} PickLength(id: Key, rows: seq<Review>)
    ensures |Pick(id, rows)| == multiset(Bills(rows))[id]
  {
    if rows != [] {
      var n := |rows| - 1;
      PickLength(id, rows[..n]);
      assert Bills(rows) == Bills(rows[..n]) + [rows[n].bill];
    }
  }

  lemma {:induction false} PickAre(id: Key, rows: seq<Review>)
    ensures forall r :: r in Pick(id, rows) <==> r in rows && r.bill == id
  {
    if rows != [] {
      var n := |rows| - 1;
      PickAre(id, rows[..n]);
      assert rows == rows[..n] + [rows[n]];
    }
  }

  lemma PickCounts(id: Key, rows: seq<Review>)
    ensures |Pick(id, rows)| == multiset(Bills(rows))[id]
    ensures Pick(id, rows) != [] <==> id in Bills(rows)
    ensures forall r :: r in Pick(id, rows) <==> r in rows && r.bill == id
  {
    hide Pick, Bills;
    PickLength(id, rows);
    PickAre(id, rows);
    assert id in multiset(Bills(rows)) <==> id in Bills(rows);
  }

  /** The pages among the first `n` that list the bill, in ascending order. */
  function PagesOf(id: Key, pages: seq<seq<Review>>, n: nat): seq<nat>
    requires n <= |pages|
  {
    if n == 0 then [] else PagesOf(id, pages, n - 1) + (if id in Bills(pages[n - 1]) then [n] else [])
  }

  lemma {:induction false} PagesAre(id: Key, pages: seq<seq<Review>>, n: nat)
    requires n <= |pages|
    ensures forall p :: p in PagesOf(id, pages, n) <==> 1 <= p <= n && id in Bills(pages[p - 1])
  {
    if n > 0 { PagesAre(id, pages, n - 1); }
  }

  lemma {:induction false} BillIsPaged(id: Key, pages: seq<seq<Review>>, n: nat)
    requires n <= |pages|
    ensures id in Bills(Flatten(pages[..n])) <==> PagesOf(id, pages, n) != []
  {
    if n > 0 {
      BillIsPaged(id, pages, n - 1);
      FlattenOne(pages, n - 1);
      assert Bills(Flatten(pages[..n])) == Bills(Flatten(pages[..n - 1])) + Bills(pages[n - 1]);
    }
  }

  type Packets = seq<(Key, Packet)>

  ghost predicate IsUniverse(pages: seq<seq<Review>>, packets: Packets) {
    && Ascending(KeysIn(packets)) && DistinctlyKeyed(packets)
    && (forall i :: 0 <= i < |packets| ==> IsPacket(Pick(packets[i].0, Flatten(pages)), PagesOf(packets[i].0, pages, |pages|), packets[i].1))
    && (forall id :: id in Bills(Flatten(pages)) ==> id in KeysIn(packets))
  }

  function RowTotals(packets: Packets): seq<nat> { seq(|packets|, i requires 0 <= i < |packets| => packets[i].1.rowTotal) }

  function DistinctTotals(packets: Packets): seq<nat> { seq(|packets|, i requires 0 <= i < |packets| => packets[i].1.distinctRows) }

  /** The reported duplicate surplus. */
  function Surplus(packets: Packets): int {
    if packets == [] then 0 else Surplus(packets[..|packets| - 1]) + packets[|packets| - 1].1.duplicateRows
  }

  /** Conservation over the universe: the packets' row totals add up to the provider's rows, and
      so do the distinct rows together with the reported duplicate surplus. */
  lemma UniverseConserves(pages: seq<seq<Review>>, packets: Packets)
    requires IsUniverse(pages, packets)
    ensures Total(RowTotals(packets)) == |Flatten(pages)|
    ensures Total(DistinctTotals(packets)) + Surplus(packets) == |Flatten(pages)|
  {
    var all := Flatten(pages);
    var ids := Bills(all);
    forall i | 0 <= i < |packets| ensures RowTotals(packets)[i] == multiset(ids)[KeysIn(packets)[i]] { PickCounts(packets[i].0, all); }
    forall id | id in multiset(ids) ensures id in KeysIn(packets) { assert id in ids; }
    forall i, j | 0 <= i < j < |packets| ensures KeysIn(packets)[i] != KeysIn(packets)[j] { assert packets[i].0 != packets[j].0; }
    CountsTotal(multiset(ids), KeysIn(packets), RowTotals(packets));
    assert |multiset(ids)| == |all|;
    TotalsSplit(packets);
  }

  lemma {:induction false} TotalsSplit(packets: Packets)
    requires forall i :: 0 <= i < |packets| ==> packets[i].1.rowTotal == packets[i].1.distinctRows + packets[i].1.duplicateRows
    ensures Total(RowTotals(packets)) == Total(DistinctTotals(packets)) + Surplus(packets)
  {
    if packets != [] {
      var n := |packets| - 1;
      TotalsSplit(packets[..n]);
      assert RowTotals(packets)[..n] == RowTotals(packets[..n]);
      assert DistinctTotals(packets)[..n] == DistinctTotals(packets[..n]);
    }
  }

  /** `records` maps every bill of the rows to its rows. */
  ghost predicate Picked(records: map<Key, seq<Review>>, rows: seq<Review>) {
    forall id :: if id in records then records[id] == Pick(id, rows) && records[id] != [] else Pick(id, rows) == []
  }

  /** `seen` maps every bill to its pages among the first `n` and, for bills of `part`, page n + 1. */
  ghost predicate Paged(seen: map<Key, seq<nat>>, pages: seq<seq<Review>>, n: nat, part: seq<Review>)
    requires n <= |pages|
  {
    forall id :: Get(seen, id) == PagesOf(id, pages, n) + (if id in Bills(part) then [n + 1] else [])
  }

  function Get(seen: map<Key, seq<nat>>, id: Key): seq<nat> {
    if id in seen then seen[id] else []
  }

  lemma PickMore(id: Key, rows: seq<Review>, r: Review)
    ensures Pick(id, rows + [r]) == if r.bill == id then Pick(id, rows) + [r] else Pick(id, rows)
  {
    assert (rows + [r])[..|rows|] == rows;
  }

  lemma PagesBelow(id: Key, pages: seq<seq<Review>>, n: nat)
    requires n <= |pages|
    ensures forall p :: p in PagesOf(id, pages, n) ==> p <= n
  {
    PagesAre(id, pages, n);
  }

  lemma PickOne(records: map<Key, seq<Review>>, rows: seq<Review>, r: Review)
    requires Picked(records, rows)
    ensures Picked(records[r.bill := (if r.bill in records then records[r.bill] else []) + [r]], rows + [r])
  {
    hide Pick;
    forall id ensures Pick(id, rows + [r]) == (if r.bill == id then Pick(id, rows) + [r] else Pick(id, rows)) { PickMore(id, rows, r); }
  }

  function WithPage(had: seq<nat>, page: nat): seq<nat> {
    if had != [] && had[|had| - 1] == page then had else had + [page]
  }

  lemma PageOne(seen: map<Key, seq<nat>>, pages: seq<seq<Review>>, n: nat, part: seq<Review>, r: Review)
    requires n <= |pages| && Paged(seen, pages, n, part)
    ensures Paged(seen[r.bill := WithPage(Get(seen, r.bill), n + 1)], pages, n, part + [r])
  {
    hide PagesOf, Bills;
    var had, before := Get(seen, r.bill), PagesOf(r.bill, pages, n);
    PagesBelow(r.bill, pages, n);
    assert had == before + (if r.bill in Bills(part) then [n + 1] else []);
    assert before != [] ==> before[|before| - 1] in before;
    assert before + [] == before;
    forall id ensures id in Bills(part + [r]) <==> id in Bills(part) || id == r.bill { BillsMore(part, r, id); }
  }

  lemma BillsMore(part: seq<Review>, r: Review, id: Key)
    ensures id in Bills(part + [r]) <==> id in Bills(part) || id == r.bill
  {
    assert Bills(part + [r]) == Bills(part) + [r.bill];
  }

  /** Groups the fetched rows by bill id and builds one packet per bill, in bill-id order. */
  method BuildUniverse(age: int, pages: seq<seq<Review>>) returns (packets: Option<Packets>)
    ensures packets.Some? <==>
              && (forall r :: r in Flatten(pages) ==> r.age == age)
              && forall a, b :: a in Flatten(pages) && b in Flatten(pages) && a.bill == b.bill ==> a.billNo == b.billNo
    ensures packets.Some? ==> IsUniverse(pages, packets.value)
  {
    hide Pick, PagesOf, IsUniverse, Flatten, Picked, Paged, Bills, Get;
    var records: map<Key, seq<Review>>, seen: map<Key, seq<nat>> := map[], map[];
    NothingGrouped(pages);
    for n := 0 to |pages|
      invariant Picked(records, Flatten(pages[..n])) && Paged(seen, pages, n, [])
      invariant forall r :: r in Flatten(pages[..n]) ==> r.age == age
    {
      FlattenOne(pages, n);
      ghost var before := Flatten(pages[..n]);
      assert before + pages[n][..0] == before && pages[n][..0] == [];
      for i := 0 to |pages[n]|
        invariant Picked(records, before + pages[n][..i]) && Paged(seen, pages, n, pages[n][..i])
        invariant forall j :: 0 <= j < i ==> pages[n][j].age == age
      {
        var r := pages[n][i];
        if r.age != age {
          NotAllOfAge(pages, n, i);
          return None;
        }
        PickOne(records, before + pages[n][..i], r);
        PageOne(seen, pages, n, pages[n][..i], r);
        assert pages[n][..i + 1] == pages[n][..i] + [r];
        assert before + pages[n][..i] + [r] == before + pages[n][..i + 1];
        records := records[r.bill := (if r.bill in records then records[r.bill] else []) + [r]];
        seen := seen[r.bill := WithPage(Get(seen, r.bill), n + 1)];
      }
      assert pages[n][..|pages[n]|] == pages[n];
      WholePage(seen, pages, n);
    }
    assert pages[..|pages|] == pages;
    packets := BuildPackets(pages, records, seen);
    AgreementIsOneBill(age, pages);
  }

  lemma NothingGrouped(pages: seq<seq<Review>>)
    ensures Picked(map[], Flatten(pages[..0])) && Paged(map[], pages, 0, []) && Flatten(pages[..0]) == []
  {
    assert pages[..0] == [];
  }

  lemma WholePage(seen: map<Key, seq<nat>>, pages: seq<seq<Review>>, n: nat)
    requires n < |pages| && Paged(seen, pages, n, pages[n])
    ensures Paged(seen, pages, n + 1, [])
  {
    assert Bills([]) == [];
  }

  lemma NotAllOfAge(pages: seq<seq<Review>>, n: nat, i: nat)
    requires n < |pages| && i < |pages[n]|
    ensures pages[n][i] in Flatten(pages)
  {
    RowIsFlat(pages, n, |pages|, pages[n][i]);
    assert pages[..|pages|] == pages;
  }

  lemma {:induction false} RowIsFlat(pages: seq<seq<Review>>, n: nat, m: nat, r: Review)
    requires n < m <= |pages| && r in pages[n]
    ensures r in Flatten(pages[..m])
  {
    FlattenOne(pages, m - 1);
    if n < m - 1 { RowIsFlat(pages, n, m - 1, r); }
  }

  lemma AgreementIsOneBill(age: int, pages: seq<seq<Review>>)
    requires forall r :: r in Flatten(pages) ==> r.age == age
    ensures (forall id :: id in Bills(Flatten(pages)) ==> OneBill(Pick(id, Flatten(pages))))
            <==> forall a, b :: a in Flatten(pages) && b in Flatten(pages) && a.bill == b.bill ==> a.billNo == b.billNo
  {
    hide Flatten, Pick;
    var all := Flatten(pages);
    forall id ensures forall r :: r in Pick(id, all) <==> r in all && r.bill == id { PickCounts(id, all); }
    if forall id :: id in Bills(all) ==> OneBill(Pick(id, all)) {
      forall a, b | a in all && b in all && a.bill == b.bill ensures a.billNo == b.billNo {
        assert a in Pick(a.bill, all) && b in Pick(a.bill, all);
        BillListed(all, a);
      }
    }
    if forall a, b :: a in all && b in all && a.bill == b.bill ==> a.billNo == b.billNo {
      forall id | id in Bills(all) ensures OneBill(Pick(id, all)) {
        PickCounts(id, all);
        var mine := Pick(id, all);
        forall i | 0 <= i < |mine| ensures mine[i].billNo == mine[0].billNo && mine[i].age == mine[0].age {
          assert mine[i] in mine && mine[0] in mine;
        }
      }
    }
  }

  lemma BillListed(rows: seq<Review>, r: Review)
    requires r in rows
    ensures r.bill in Bills(rows)
  {
    var i :| 0 <= i < |rows| && rows[i] == r;
    assert Bills(rows)[i] == r.bill;
  }

  method BuildPackets(pages: seq<seq<Review>>, records: map<Key, seq<Review>>, seen: map<Key, seq<nat>>) returns (packets: Option<Packets>)
    requires Picked(records, Flatten(pages)) && Paged(seen, pages, |pages|, [])
    ensures packets.Some? <==> forall id :: id in Bills(Flatten(pages)) ==> OneBill(Pick(id, Flatten(pages)))
    ensures packets.Some? ==> IsUniverse(pages, packets.value)
  {
    hide Pick, PagesOf, Flatten, Sort, Ascending, IsPacket, OneBill, IsUniverse, Picked, Paged, Bills, Get, KeysIn;
    ghost var all := Flatten(pages);
    var keys := KeysOf(records);
    var sorted := Sort(keys);
    SortSorts(keys);
    NoRepeatsIsMultiset(keys, sorted);
    GroupsAreBills(pages, records, seen);
    var found: Packets := [];
    for i := 0 to |sorted|
      invariant |found| == i
      invariant forall j :: 0 <= j < i ==> found[j].0 == sorted[j] && OneBill(Pick(sorted[j], all))
                                           && IsPacket(Pick(sorted[j], all), PagesOf(sorted[j], pages, |pages|), found[j].1)
    {
      var id := sorted[i];
      assert id in sorted;
      BillHasPages(id, pages, seen, records);
      OneBillIff(records[id]);
      var p := BuildReviewPacket(records[id], Get(seen, id));
      if p.None? { return None; }
      found := found + [(id, p.value)];
    }
    PacketsAreUniverse(pages, sorted, found);
    packets := Some(found);
  }

  lemma GroupsAreBills(pages: seq<seq<Review>>, records: map<Key, seq<Review>>, seen: map<Key, seq<nat>>)
    requires Picked(records, Flatten(pages)) && Paged(seen, pages, |pages|, [])
    ensures forall id :: id in records <==> id in Bills(Flatten(pages))
  {
    hide Pick, PagesOf, Flatten, Bills;
    forall id ensures id in records <==> id in Bills(Flatten(pages)) { PickCounts(id, Flatten(pages)); }
  }

  lemma PacketsAreUniverse(pages: seq<seq<Review>>, ids: seq<Key>, found: Packets)
    requires Ascending(ids) && NoRepeats(ids) && |found| == |ids| && forall id :: id in ids <==> id in Bills(Flatten(pages))
    requires forall j :: 0 <= j < |ids| ==> found[j].0 == ids[j]
    requires forall j :: 0 <= j < |ids| ==> IsPacket(Pick(ids[j], Flatten(pages)), PagesOf(ids[j], pages, |pages|), found[j].1)
    ensures IsUniverse(pages, found)
  {
    hide Pick, PagesOf, Flatten, Le, IsPacket, Bills;
    assert KeysIn(found) == ids;
  }

  lemma BillHasPages(id: Key, pages: seq<seq<Review>>, seen: map<Key, seq<nat>>, records: map<Key, seq<Review>>)
    requires Picked(records, Flatten(pages)) && Paged(seen, pages, |pages|, []) && id in records
    ensures records[id] == Pick(id, Flatten(pages)) && Get(seen, id) == PagesOf(id, pages, |pages|) && Get(seen, id) != []
  {
    hide Pick, PagesOf, Flatten;
    PickCounts(id, Flatten(pages));
    BillIsPaged(id, pages, |pages|);
    assert pages[..|pages|] == pages && Bills([]) == [];
  }
}
