/** Canonicalising reductions of one meeting's rows: detail rows are merged flag by flag, and
    repeated bill rows are collapsed or flagged as conflicts. */
module MeetingReductions {
  import opened Prelude

  // ---------------------------------------------------------------- detail rows

  const FLAG_COUNT := 7

  /** The meeting-type flags: published Y, published N, or not published. */
  type Flags = f: seq<Option<bool>> | |f| == FLAG_COUNT witness [None, None, None, None, None, None, None]

  datatype DetailRow = DetailRow(meeting: Key, date: string, context: string, rest: string, flags: Flags)

  predicate SameOther(a: DetailRow, b: DetailRow) {
    a.meeting == b.meeting && a.date == b.date && a.context == b.context && a.rest == b.rest
  }

  predicate Mergeable(rows: seq<DetailRow>) {
    rows != [] && forall i | 0 <= i < |rows| :: SameOther(rows[i], rows[0])
  }

  function MergeFlag(values: seq<Option<bool>>): Option<bool> {
    if Some(true) in values then Some(true) else if Some(false) in values then Some(false) else None
  }

  function Column(rows: seq<DetailRow>, n: nat): seq<Option<bool>>
    requires n < FLAG_COUNT
  {
    seq(|rows|, i requires 0 <= i < |rows| => rows[i].flags[n])
  }

  function MergedFlags(rows: seq<DetailRow>): Flags {
    seq(FLAG_COUNT, n requires 0 <= n < FLAG_COUNT => MergeFlag(Column(rows, n)))
  }

  function Merged(rows: seq<DetailRow>): DetailRow
    requires rows != []
  {
    rows[0].(flags := MergedFlags(rows))
  }

  /** Merges the rows, keeping each row's own flags; fails when there is no row or any other
      field differs. */
  method MergeDetailRows(rows: seq<DetailRow>) returns (r: Option<(DetailRow, seq<Flags>)>)
    ensures r.Some? <==> Mergeable(rows)
    ensures r.Some? ==> r.value.0 == Merged(rows) && |r.value.1| == |rows| && forall i :: 0 <= i < |rows| ==> r.value.1[i] == rows[i].flags
  {
    if rows == [] { return None; }
    for i := 1 to |rows|
      invariant forall j :: 0 <= j < i ==> SameOther(rows[j], rows[0])
    {
      if !SameOther(rows[i], rows[0]) { return None; }
    }
    var merged: seq<Option<bool>> := [];
    for n := 0 to FLAG_COUNT
      invariant |merged| == n && forall m :: 0 <= m < n ==> merged[m] == MergeFlag(Column(rows, m))
    {
      var yes, no := false, false;
      for i := 0 to |rows|
        invariant yes <==> Some(true) in Column(rows, n)[..i]
        invariant no <==> Some(false) in Column(rows, n)[..i]
      {
        assert Column(rows, n)[..i + 1] == Column(rows, n)[..i] + [rows[i].flags[n]];
        yes, no := yes || rows[i].flags[n] == Some(true), no || rows[i].flags[n] == Some(false);
      }
      assert Column(rows, n)[..|rows|] == Column(rows, n);
      merged := merged + [if yes then Some(true) else if no then Some(false) else None];
    }
    assert merged == MergedFlags(rows);
    var kept := seq(|rows|, i requires 0 <= i < |rows| => rows[i].flags);
    r := Some((rows[0].(flags := merged), kept));
  }

  /** The join of None < False < True. */
  function Join(a: Option<bool>, b: Option<bool>): Option<bool> {
    if a == Some(true) || b == Some(true) then Some(true)
    else if a == Some(false) || b == Some(false) then Some(false)
    else None
  }

  lemma MergeFlagJoins(a: seq<Option<bool>>, b: seq<Option<bool>>)
    ensures MergeFlag(a + b) == Join(MergeFlag(a), MergeFlag(b))
  {
  }

  /** Rows merge exactly when there is one and all are equal but for the flags; a merged flag is Y
      when some row says Y, N when none does and some row says N, and unpublished otherwise. */
  lemma MergeMeans(rows: seq<DetailRow>)
    ensures Mergeable(rows) <==> rows != [] && forall i :: 0 <= i < |rows| ==> rows[i].(flags := rows[0].flags) == rows[0]
    ensures rows != [] ==>
              var m := Merged(rows);
              && m.(flags := rows[0].flags) == rows[0]
              && forall n :: 0 <= n < FLAG_COUNT ==>
                   && (m.flags[n] == Some(true) <==> exists i :: 0 <= i < |rows| && rows[i].flags[n] == Some(true))
                   && (m.flags[n] == None <==> forall i :: 0 <= i < |rows| ==> rows[i].flags[n] == None)
  {
    if rows != [] {
      forall n | 0 <= n < FLAG_COUNT
        ensures Merged(rows).flags[n] == Some(true) <==> exists i :: 0 <= i < |rows| && rows[i].flags[n] == Some(true)
        ensures Merged(rows).flags[n] == None <==> forall i :: 0 <= i < |rows| ==> rows[i].flags[n] == None
      {
        var column := Column(rows, n);
        assert forall i :: 0 <= i < |rows| ==> column[i] == rows[i].flags[n];
        if i :| 0 <= i < |rows| && rows[i].flags[n] == Some(true) { assert column[i] in column; }
        if i :| 0 <= i < |rows| && rows[i].flags[n] != None {
          assert column[i] in column;
          if column[i].value { assert column[i] == Some(true); } else { assert column[i] == Some(false); }
        }
      }
    }
  }

  /** Merging does not depend on the order of the rows. */
  lemma MergeShuffles(a: seq<DetailRow>, b: seq<DetailRow>)
    requires multiset(a) == multiset(b)
    ensures Mergeable(a) <==> Mergeable(b)
    ensures Mergeable(a) ==> Merged(a) == Merged(b)
  {
    SameElements(a, b);
    if a != [] {
      assert a[0] in b && b[0] in a;
      assert Mergeable(a) <==> forall row :: row in a ==> SameOther(row, a[0]);
      assert Mergeable(b) <==> forall row :: row in b ==> SameOther(row, b[0]);
      forall n | 0 <= n < FLAG_COUNT ensures MergedFlags(a)[n] == MergedFlags(b)[n] {
        forall v ensures v in Column(a, n) <==> v in Column(b, n) { ColumnShuffles(a, b, n, v); ColumnShuffles(b, a, n, v); }
      }
      assert MergedFlags(a) == MergedFlags(b);
    }
  }

  lemma ColumnShuffles(a: seq<DetailRow>, b: seq<DetailRow>, n: nat, v: Option<bool>)
    requires n < FLAG_COUNT && forall row :: row in a ==> row in b
    ensures v in Column(a, n) ==> v in Column(b, n)
  {
    if v in Column(a, n) {
      var i :| 0 <= i < |a| && Column(a, n)[i] == v;
      assert a[i] in b;
      var j :| 0 <= j < |b| && b[j] == a[i];
      assert Column(b, n)[j] == v;
    }
  }

  /** Merging groups and then their results is merging all rows: it succeeds exactly when both
      groups merge and agree, and yields the same row. */
  lemma MergeGroups(a: seq<DetailRow>, b: seq<DetailRow>)
    requires a != [] && b != []
    ensures Mergeable(a + b) <==> Mergeable(a) && Mergeable(b) && Mergeable([Merged(a), Merged(b)])
    ensures Mergeable(a + b) ==> Merged(a + b) == Merged([Merged(a), Merged(b)])
  {
    assert (a + b)[0] == a[0] && (a + b)[|a|] == b[0];
    assert forall i :: 0 <= i < |a| ==> (a + b)[i] == a[i];
    assert forall i :: 0 <= i < |b| ==> (a + b)[|a| + i] == b[i];
    var pair := [Merged(a), Merged(b)];
    assert pair[0] == Merged(a) && pair[1] == Merged(b);
    assert Mergeable(pair) <==> SameOther(b[0], a[0]);
    forall n | 0 <= n < FLAG_COUNT ensures MergedFlags(a + b)[n] == MergedFlags([Merged(a), Merged(b)])[n] {
      assert Column(a + b, n) == Column(a, n) + Column(b, n);
      assert Column([Merged(a), Merged(b)], n) == [MergeFlag(Column(a, n))] + [MergeFlag(Column(b, n))];
      MergeFlagJoins(Column(a, n), Column(b, n));
    }
    assert MergedFlags(a + b) == MergedFlags([Merged(a), Merged(b)]);
  }

  // ---------------------------------------------------------------- bill rows

  datatype BillRow = BillRow(bill: Key, name: string, url: Option<string>)

  datatype Entry = Entry(row: BillRow, count: nat)

  datatype Reconciled = Reconciled(entries: seq<Entry>, rowTotal: nat, duplicates: int, conflicts: seq<Key>, exact: seq<Key>)

  ghost predicate Conflicting(bills: seq<BillRow>, id: Key) {
    exists a, b :: a in bills && b in bills && a.bill == id && b.bill == id && a != b
  }

  ghost predicate Listed(bills: seq<BillRow>, id: Key) {
    exists b :: b in bills && b.bill == id
  }

  ghost predicate Tallies(bills: seq<BillRow>, entries: seq<Entry>) {
    && (forall i, j :: 0 <= i < j < |entries| ==> entries[i].row != entries[j].row)
    && (forall i :: 0 <= i < |entries| ==> entries[i].row in bills && entries[i].count == multiset(bills)[entries[i].row])
    && (forall b :: b in bills ==> exists i :: 0 <= i < |entries| && entries[i].row == b)
  }

  /** Where a row occurs first. */
  ghost function FirstAt(bills: seq<BillRow>, row: BillRow): nat {
    if bills == [] || bills[0] == row then 0 else 1 + FirstAt(bills[1..], row)
  }

  /** By bill id, then by name, then by first occurrence. */
  ghost predicate Before(bills: seq<BillRow>, a: BillRow, b: BillRow) {
    if a.bill != b.bill then Le(a.bill, b.bill)
    else if a.name != b.name then Le(a.name, b.name)
    else FirstAt(bills, a) < FirstAt(bills, b)
  }

  ghost predicate InOrder(bills: seq<BillRow>, entries: seq<Entry>) {
    forall i, j :: 0 <= i < j < |entries| ==> Before(bills, entries[i].row, entries[j].row)
  }

  /** What the reduction promises: one entry per distinct row with its multiplicity, in order, and
      the bill ids split into exact and conflicting ones, both in ascending order. */
  ghost predicate Reconciles(bills: seq<BillRow>, r: Reconciled) {
    && Tallies(bills, r.entries) && InOrder(bills, r.entries) && r.rowTotal == |bills| && r.duplicates == |bills| - |r.entries|
    && Ascending(r.conflicts) && NoRepeats(r.conflicts) && Ascending(r.exact) && NoRepeats(r.exact)
    && (forall id :: id in r.conflicts <==> Conflicting(bills, id))
    && (forall id :: id in r.exact <==> Listed(bills, id) && !Conflicting(bills, id))
  }

  lemma {:induction false} FirstAtIs(bills: seq<BillRow>, row: BillRow)
    ensures row in bills ==> FirstAt(bills, row) < |bills| && bills[FirstAt(bills, row)] == row
    ensures row !in bills ==> FirstAt(bills, row) == |bills|
  {
    if bills != [] { FirstAtIs(bills[1..], row); }
  }

  lemma {:induction false} FirstAtStays(bills: seq<BillRow>, b: BillRow, row: BillRow)
    ensures row in bills ==> FirstAt(bills + [b], row) == FirstAt(bills, row)
    ensures b !in bills ==> FirstAt(bills + [b], b) == |bills|
  {
    if bills != [] {
      FirstAtStays(bills[1..], b, row);
      assert (bills + [b])[1..] == bills[1..] + [b];
    }
  }

  ghost predicate OldestFirst(bills: seq<BillRow>, group: seq<Entry>) {
    forall i, j :: 0 <= i < j < |group| ==> FirstAt(bills, group[i].row) < FirstAt(bills, group[j].row)
  }

  lemma OldestStays(bills: seq<BillRow>, b: BillRow, group: seq<Entry>)
    requires OldestFirst(bills, group) && forall i :: 0 <= i < |group| ==> group[i].row in bills
    ensures OldestFirst(bills + [b], group)
    ensures b !in bills ==> OldestFirst(bills + [b], group + [Entry(b, 1)])
  {
    hide FirstAt;
    forall row | row in bills ensures FirstAt(bills + [b], row) == FirstAt(bills, row) < |bills| {
      FirstAtIs(bills, row);
      FirstAtStays(bills, b, row);
    }
    FirstAtStays(bills, b, b);
  }

  /** The rows of one bill id seen so far, one entry per distinct row, oldest first. */
  ghost predicate Group(bills: seq<BillRow>, id: Key, group: seq<Entry>) {
    && (forall i, j :: 0 <= i < j < |group| ==> group[i].row != group[j].row)
    && (forall i :: 0 <= i < |group| ==> group[i].row in bills && group[i].row.bill == id && group[i].count == multiset(bills)[group[i].row])
    && (forall b :: b in bills && b.bill == id ==> exists i :: 0 <= i < |group| && group[i].row == b)
    && OldestFirst(bills, group)
  }

  ghost predicate Grouped(bills: seq<BillRow>, groups: map<Key, seq<Entry>>) {
    && (forall id :: id in groups ==> Group(bills, id, groups[id]) && groups[id] != [])
    && (forall b :: b in bills ==> b.bill in groups)
  }

  /** Counts a row in its group, appending a new entry for a row not seen before. */
  method AddTo(ghost bills: seq<BillRow>, b: BillRow, group: seq<Entry>) returns (next: seq<Entry>)
    requires Group(bills, b.bill, group)
    ensures Group(bills + [b], b.bill, next) && next != []
  {
    hide OldestFirst;
    assert multiset(bills + [b]) == multiset(bills) + multiset{b};
    OldestStays(bills, b, group);
    for i := 0 to |group|
      invariant forall j :: 0 <= j < i ==> group[j].row != b
    {
      if group[i].row == b {
        next := group[i := Entry(b, group[i].count + 1)];
        assert forall x :: x in bills + [b] && x.bill == b.bill ==> x in bills || x == b;
        assert forall j :: 0 <= j < |group| ==> next[j].row == group[j].row;
        SameRowsSameAge(bills + [b], group, next);
        return;
      }
    }
    assert b !in bills;
    next := group + [Entry(b, 1)];
    assert next[|group|].row == b;
    assert forall j :: 0 <= j < |group| ==> next[j] == group[j];
  }

  lemma OtherGroups(bills: seq<BillRow>, b: BillRow, id: Key, group: seq<Entry>)
    requires Group(bills, id, group) && id != b.bill
    ensures Group(bills + [b], id, group)
  {
    hide OldestFirst;
    assert multiset(bills + [b]) == multiset(bills) + multiset{b};
    OldestStays(bills, b, group);
  }

  lemma SameRowsSameAge(bills: seq<BillRow>, group: seq<Entry>, next: seq<Entry>)
    requires OldestFirst(bills, group) && |next| == |group| && forall j :: 0 <= j < |group| ==> next[j].row == group[j].row
    ensures OldestFirst(bills, next)
  {
    hide FirstAt;
  }

  method GroupBills(bills: seq<BillRow>) returns (groups: map<Key, seq<Entry>>)
    ensures Grouped(bills, groups)
  {
    hide Group;
    groups := map[];
    for i := 0 to |bills|
      invariant Grouped(bills[..i], groups)
    {
      var b := bills[i];
      var group := if b.bill in groups then groups[b.bill] else [];
      assert Group(bills[..i], b.bill, group) by { NoGroupYet(bills[..i], b.bill, groups); }
      var next := AddTo(bills[..i], b, group);
      assert bills[..i + 1] == bills[..i] + [b];
      forall id | id in groups && id != b.bill ensures Group(bills[..i + 1], id, groups[id]) { OtherGroups(bills[..i], b, id, groups[id]); }
      groups := groups[b.bill := next];
    }
    assert bills[..|bills|] == bills;
  }

  lemma NoGroupYet(bills: seq<BillRow>, id: Key, groups: map<Key, seq<Entry>>)
    requires Grouped(bills, groups)
    ensures Group(bills, id, if id in groups then groups[id] else [])
  {
  }

  lemma GroupTells(bills: seq<BillRow>, id: Key, groups: map<Key, seq<Entry>>)
    requires Grouped(bills, groups)
    ensures Listed(bills, id) <==> id in groups
    ensures Conflicting(bills, id) <==> id in groups && |groups[id]| > 1
  {
    if id in groups {
      var group := groups[id];
      assert group[0].row in bills;
      if |group| > 1 { assert group[1].row in bills && group[0].row != group[1].row; }
    }
  }

  predicate NameOrder(a: Entry, b: Entry) { Le(a.row.name, b.row.name) }

  /** Stable sort by bill name. */
  function ByName(es: seq<Entry>): seq<Entry> { SortBy(NameOrder, es) }

  lemma ByNameOrders(bills: seq<BillRow>, id: Key, group: seq<Entry>)
    requires Group(bills, id, group)
    ensures multiset(ByName(group)) == multiset(group) && InOrder(bills, ByName(group))
  {
    hide SortBy, Le, FirstAt;
    LeIsOrder();
    var rank: Entry -> nat, sorted := (e: Entry) => FirstAt(bills, e.row), ByName(group);
    SortBySorts(NameOrder, rank, group);
    GroupShuffles(bills, id, group, sorted);
    forall i, j | 0 <= i < j < |sorted| ensures Before(bills, sorted[i].row, sorted[j].row) {
      FirstAtIs(bills, sorted[i].row);
      FirstAtIs(bills, sorted[j].row);
      assert NameOrder(sorted[i], sorted[j]) && (NameOrder(sorted[j], sorted[i]) ==> rank(sorted[i]) <= rank(sorted[j]));
    }
  }

  ghost predicate SomeOf(bills: seq<BillRow>, ids: seq<Key>, entries: seq<Entry>) {
    && (forall i, j :: 0 <= i < j < |entries| ==> entries[i].row != entries[j].row)
    && (forall i :: 0 <= i < |entries| ==> entries[i].row in bills && entries[i].row.bill in ids && entries[i].count == multiset(bills)[entries[i].row])
    && (forall b :: b in bills && b.bill in ids ==> exists i :: 0 <= i < |entries| && entries[i].row == b)
  }

  lemma GroupShuffles(bills: seq<BillRow>, id: Key, group: seq<Entry>, sorted: seq<Entry>)
    requires Group(bills, id, group) && multiset(group) == multiset(sorted)
    ensures SomeOf(bills, [id], sorted)
  {
    hide OldestFirst;
    SameElements(group, sorted);
    assert NoRepeats(group);
    NoRepeatsIsMultiset(group, sorted);
    forall i, j | 0 <= i < j < |sorted| ensures sorted[i].row != sorted[j].row {
      assert sorted[i] in group && sorted[j] in group && sorted[i] != sorted[j];
    }
    assert forall i :: 0 <= i < |sorted| ==> sorted[i] in group;
    forall b | b in bills && b.bill == id ensures exists i :: 0 <= i < |sorted| && sorted[i].row == b {
      var i :| 0 <= i < |group| && group[i].row == b;
      assert group[i] in sorted;
    }
  }

  lemma SomeMore(bills: seq<BillRow>, ids: seq<Key>, entries: seq<Entry>, id: Key, group: seq<Entry>)
    requires SomeOf(bills, ids, entries) && SomeOf(bills, [id], group) && id !in ids
    ensures SomeOf(bills, ids + [id], entries + group)
  {
    assert forall b: BillRow :: b.bill in [id] <==> b.bill == id;
    var all := entries + group;
    assert forall i :: 0 <= i < |entries| ==> all[i] == entries[i];
    assert forall i :: 0 <= i < |group| ==> all[|entries| + i] == group[i];
  }

  lemma OrderMore(bills: seq<BillRow>, ids: seq<Key>, i: nat, entries: seq<Entry>, group: seq<Entry>)
    requires i < |ids| && Ascending(ids) && SomeOf(bills, ids[..i], entries) && SomeOf(bills, [ids[i]], group)
    requires ids[i] !in ids[..i] && InOrder(bills, entries) && InOrder(bills, group)
    ensures InOrder(bills, entries + group)
  {
    hide Le, FirstAt;
    forall a, b | 0 <= a < |entries| && 0 <= b < |group| ensures Before(bills, entries[a].row, group[b].row) {
      var k :| 0 <= k < i && ids[..i][k] == entries[a].row.bill;
      assert Le(ids[k], ids[i]);
    }
  }

  /** Collapses identical rows and separates the bill ids whose rows disagree. */
  method ReconcileMeetingBills(bills: seq<BillRow>) returns (r: Reconciled)
    ensures Reconciles(bills, r)
  {
    hide Grouped, Group, SomeOf, Conflicting, Listed, ByName, Sort, Ascending, Splits, Reconciles, InOrder;
    var groups := GroupBills(bills);
    var keys := KeysOf(groups);
    var sorted := Sort(keys);
    SortSorts(keys);
    NoRepeatsIsMultiset(keys, sorted);
    var entries: seq<Entry>, conflicts: seq<Key>, exact: seq<Key> := [], [], [];
    assert SomeOf(bills, sorted[..0], entries) && InOrder(bills, entries) && Splits(sorted[..0], conflicts, exact, groups) by { NoneYet(bills, groups); }
    for i := 0 to |sorted|
      invariant SomeOf(bills, sorted[..i], entries) && InOrder(bills, entries)
      invariant Splits(sorted[..i], conflicts, exact, groups)
    {
      var id := sorted[i];
      assert id in sorted;
      GroupOf(bills, groups, id);
      ByNameOrders(bills, id, groups[id]);
      GroupShuffles(bills, id, groups[id], ByName(groups[id]));
      OrderMore(bills, sorted, i, entries, ByName(groups[id]));
      SomeMore(bills, sorted[..i], entries, id, ByName(groups[id]));
      SplitMore(sorted, i, conflicts, exact, groups);
      assert sorted[..i + 1] == sorted[..i] + [id];
      entries := entries + ByName(groups[id]);
      if |groups[id]| > 1 { conflicts := conflicts + [id]; } else { exact := exact + [id]; }
    }
    assert sorted[..|sorted|] == sorted;
    r := Reconciled(entries, |bills|, |bills| - |entries|, conflicts, exact);
    AllReconciles(bills, sorted, groups, r);
  }

  lemma AllReconciles(bills: seq<BillRow>, ids: seq<Key>, groups: map<Key, seq<Entry>>, r: Reconciled)
    requires Grouped(bills, groups) && SomeOf(bills, ids, r.entries) && InOrder(bills, r.entries) && forall id :: id in groups <==> id in ids
    requires Splits(ids, r.conflicts, r.exact, groups) && r.rowTotal == |bills| && r.duplicates == |bills| - |r.entries|
    ensures Reconciles(bills, r)
  {
    hide Grouped, SomeOf, Conflicting, Listed, InOrder;
    forall id ensures (Listed(bills, id) <==> id in groups) && (Conflicting(bills, id) <==> id in groups && |groups[id]| > 1) {
      GroupTells(bills, id, groups);
    }
    AllOf(bills, ids, r.entries, groups);
  }

  lemma NoneYet(bills: seq<BillRow>, groups: map<Key, seq<Entry>>)
    ensures SomeOf(bills, [], []) && InOrder(bills, []) && Splits([], [], [], groups)
  {
  }

  lemma GroupOf(bills: seq<BillRow>, groups: map<Key, seq<Entry>>, id: Key)
    requires Grouped(bills, groups) && id in groups
    ensures Group(bills, id, groups[id])
  {
  }

  lemma AllOf(bills: seq<BillRow>, ids: seq<Key>, entries: seq<Entry>, groups: map<Key, seq<Entry>>)
    requires Grouped(bills, groups) && SomeOf(bills, ids, entries) && forall id :: id in groups ==> id in ids
    ensures Tallies(bills, entries)
  {
    hide Group;
  }

  /** `conflicts` and `exact` split the ascending ids by the number of their variants. */
  ghost predicate Splits(ids: seq<Key>, conflicts: seq<Key>, exact: seq<Key>, groups: map<Key, seq<Entry>>) {
    && Ascending(conflicts) && NoRepeats(conflicts) && Ascending(exact) && NoRepeats(exact)
    && (forall id :: id in conflicts <==> id in ids && id in groups && |groups[id]| > 1)
    && (forall id :: id in exact <==> id in ids && id in groups && |groups[id]| <= 1)
  }

  lemma SplitMore(ids: seq<Key>, i: nat, conflicts: seq<Key>, exact: seq<Key>, groups: map<Key, seq<Entry>>)
    requires i < |ids| && Ascending(ids) && NoRepeats(ids) && Splits(ids[..i], conflicts, exact, groups) && ids[i] in groups
    ensures if |groups[ids[i]]| > 1 then Splits(ids[..i + 1], conflicts + [ids[i]], exact, groups)
            else Splits(ids[..i + 1], conflicts, exact + [ids[i]], groups)
  {
    hide Le;
    assert ids[..i + 1] == ids[..i] + [ids[i]];
    assert forall id :: id in ids[..i] ==> id != ids[i] && Le(id, ids[i]);
  }

  /** The entry counts add up to the input rows, and exact and conflicting ids partition the
      bill ids; an id is exact exactly when all its rows agree. */
  lemma ReconciliationConserves(bills: seq<BillRow>, r: Reconciled)
    requires Reconciles(bills, r)
    ensures Total(Counts(r.entries)) == |bills|
    ensures forall id :: Listed(bills, id) <==> (id in r.exact) != (id in r.conflicts)
    ensures forall id :: id in r.exact ==> forall a, b :: a in bills && b in bills && a.bill == id && b.bill == id ==> a == b
  {
    var rows := seq(|r.entries|, i requires 0 <= i < |r.entries| => r.entries[i].row);
    assert NoRepeats(rows);
    forall b | b in multiset(bills) ensures b in rows {
      assert b in bills;
      var i :| 0 <= i < |r.entries| && r.entries[i].row == b;
      assert rows[i] == b;
    }
    CountsTotal(multiset(bills), rows, Counts(r.entries));
    assert |multiset(bills)| == |bills|;
    forall id | id in r.conflicts ensures Listed(bills, id) { assert Conflicting(bills, id); }
  }

  function Counts(entries: seq<Entry>): seq<nat> {
    seq(|entries|, i requires 0 <= i < |entries| => entries[i].count)
  }

  /** The reduction depends on the rows alone: in any order of the rows the exact and conflicting
      ids are the same lists and the entries are the same multiset. */
  lemma ReconciliationIsCanonical(a: seq<BillRow>, b: seq<BillRow>, x: Reconciled, y: Reconciled)
    requires multiset(a) == multiset(b) && Reconciles(a, x) && Reconciles(b, y)
    ensures x.exact == y.exact && x.conflicts == y.conflicts
    ensures multiset(x.entries) == multiset(y.entries) && x.duplicates == y.duplicates
  {
    SameElements(a, b);
    SameIds(a, b, x.conflicts, y.conflicts, x.exact, y.exact);
    SameTallies(a, b, x.entries, y.entries);
  }

  lemma SameIds(a: seq<BillRow>, b: seq<BillRow>, xc: seq<Key>, yc: seq<Key>, xe: seq<Key>, ye: seq<Key>)
    requires forall row :: row in a <==> row in b
    requires Ascending(xc) && NoRepeats(xc) && Ascending(yc) && NoRepeats(yc) && Ascending(xe) && NoRepeats(xe) && Ascending(ye) && NoRepeats(ye)
    requires forall id :: id in xc <==> Conflicting(a, id)
    requires forall id :: id in yc <==> Conflicting(b, id)
    requires forall id :: id in xe <==> Listed(a, id) && !Conflicting(a, id)
    requires forall id :: id in ye <==> Listed(b, id) && !Conflicting(b, id)
    ensures xc == yc && xe == ye
  {
    forall id ensures (Conflicting(a, id) <==> Conflicting(b, id)) && (Listed(a, id) <==> Listed(b, id)) {}
    SortedIdsAreUnique(xc, yc);
    SortedIdsAreUnique(xe, ye);
  }

  lemma SortedIdsAreUnique(xs: seq<Key>, ys: seq<Key>)
    requires Ascending(xs) && NoRepeats(xs) && Ascending(ys) && NoRepeats(ys) && forall id :: id in xs <==> id in ys
    ensures xs == ys
  {
    SameSetSameBag(xs, ys);
    AscendingIsUnique(xs, ys);
  }

  lemma SameTallies(a: seq<BillRow>, b: seq<BillRow>, xs: seq<Entry>, ys: seq<Entry>)
    requires multiset(a) == multiset(b) && Tallies(a, xs) && Tallies(b, ys)
    ensures multiset(xs) == multiset(ys) && |xs| == |ys|
  {
    SameElements(a, b);
    assert forall i, j :: 0 <= i < j < |xs| ==> xs[i] != xs[j];
    assert forall i, j :: 0 <= i < j < |ys| ==> ys[i] != ys[j];
    forall e ensures e in xs <==> e in ys { EntryMoves(a, b, xs, ys, e); EntryMoves(b, a, ys, xs, e); }
    SameSetSameBag(xs, ys);
    SameElements(xs, ys);
  }

  lemma EntryMoves(a: seq<BillRow>, b: seq<BillRow>, xs: seq<Entry>, ys: seq<Entry>, e: Entry)
    requires multiset(a) == multiset(b) && Tallies(a, xs) && Tallies(b, ys) && forall row :: row in a ==> row in b
    ensures e in xs ==> e in ys
  {
    if e in xs {
      assert e.row in b;
      var i :| 0 <= i < |ys| && ys[i].row == e.row;
      assert ys[i] == e;
    }
  }
}
