/** The meeting universe: index rows are grouped by meeting id, any disagreement fails, and each
    meeting is observed once, on the page that carries its first row. */
module MeetingUniverse {
  import opened Prelude
  import opened Store
  import opened CursorLane
  import opened CursorSafety
  import opened CursorListing
  import opened Fetching

  /** One index row.  `details` are the remaining fields of the meeting signature. */
  datatype IndexRow = IndexRow(meeting: Key, minutes: int, date: string, details: string)

  datatype Meeting = Meeting(first: IndexRow, agendaRows: nat)

  type Meetings = seq<(Key, Meeting)>

  /** Meeting id determines the signature, and minutes number determines the meeting id. */
  predicate Consistent(rows: seq<IndexRow>) {
    && (forall i, j | 0 <= i < j < |rows| :: rows[i].meeting == rows[j].meeting ==> rows[i] == rows[j])
    && (forall i, j | 0 <= i < j < |rows| :: rows[i].minutes == rows[j].minutes ==> rows[i].meeting == rows[j].meeting)
  }

  /** The meetings in ascending id order, each with its row and the number of its rows. */
  ghost predicate Aggregates(rows: seq<IndexRow>, meetings: Meetings) {
    && Ascending(KeysIn(meetings)) && DistinctlyKeyed(meetings)
    && (forall i :: 0 <= i < |meetings| ==>
          var (key, m) := meetings[i];
          m.first in rows && m.first.meeting == key && m.agendaRows == multiset(rows)[m.first])
    && (forall r :: r in rows ==> exists i :: 0 <= i < |meetings| && meetings[i].0 == r.meeting)
  }

  /** What the one-pass dictionaries hold after some rows. */
  ghost predicate Tabulates(rows: seq<IndexRow>, first: map<Key, IndexRow>, counts: map<Key, nat>, owner: map<int, Key>) {
    && first.Keys == counts.Keys
    && (forall r :: r in rows ==> r.meeting in first && first[r.meeting] == r && r.minutes in owner && owner[r.minutes] == r.meeting)
    && (forall key :: key in first ==> first[key] in rows && first[key].meeting == key && counts[key] == multiset(rows)[first[key]])
    && (forall n :: n in owner ==> exists r :: r in rows && r.minutes == n && r.meeting == owner[n])
  }

  lemma TabulatesOneMore(rows: seq<IndexRow>, r: IndexRow, first: map<Key, IndexRow>, counts: map<Key, nat>, owner: map<int, Key>)
    requires Tabulates(rows, first, counts, owner)
    requires r.meeting in first ==> first[r.meeting] == r
    requires r.minutes in owner ==> owner[r.minutes] == r.meeting
    ensures Tabulates(rows + [r], first[r.meeting := r], counts[r.meeting := if r.meeting in counts then counts[r.meeting] + 1 else 1],
                      owner[r.minutes := r.meeting])
  {
    assert multiset(rows + [r]) == multiset(rows) + multiset{r};
    assert r.meeting !in first ==> r !in rows;
    assert r !in rows ==> multiset(rows)[r] == 0;
  }

  lemma TabulatedIsConsistent(rows: seq<IndexRow>, first: map<Key, IndexRow>, counts: map<Key, nat>, owner: map<int, Key>)
    requires Tabulates(rows, first, counts, owner)
    ensures Consistent(rows)
  {
    assert forall i :: 0 <= i < |rows| ==> rows[i] in rows;
  }

  /** Groups the rows.  It raises exactly when the rows are inconsistent. */
  method AggregateMeetings(rows: seq<IndexRow>) returns (r: Option<Meetings>)
    ensures r.Some? <==> Consistent(rows)
    ensures r.Some? ==> Aggregates(rows, r.value)
  {
    hide Tabulates, Consistent, Aggregates;
    var first: map<Key, IndexRow>, counts: map<Key, nat>, owner: map<int, Key> := map[], map[], map[];
    assert Tabulates(rows[..0], first, counts, owner) by { NothingTabulated(); }
    for i := 0 to |rows|
      invariant Tabulates(rows[..i], first, counts, owner)
    {
      var x := rows[i];
      if (x.meeting in first && first[x.meeting] != x) || (x.minutes in owner && owner[x.minutes] != x.meeting) {
        Disagrees(rows, i, first, counts, owner);
        return None;
      }
      TabulatesOneMore(rows[..i], x, first, counts, owner);
      assert rows[..i + 1] == rows[..i] + [x];
      first, counts, owner := first[x.meeting := x], counts[x.meeting := if x.meeting in counts then counts[x.meeting] + 1 else 1],
                              owner[x.minutes := x.meeting];
    }
    assert rows[..|rows|] == rows;
    TabulatedIsConsistent(rows, first, counts, owner);
    var meetings := List(rows, first, counts, owner);
    r := Some(meetings);
  }

  lemma NothingTabulated()
    ensures Tabulates([], map[], map[], map[])
  {
  }

  lemma Disagrees(rows: seq<IndexRow>, i: nat, first: map<Key, IndexRow>, counts: map<Key, nat>, owner: map<int, Key>)
    requires i < |rows| && Tabulates(rows[..i], first, counts, owner)
    requires (rows[i].meeting in first && first[rows[i].meeting] != rows[i])
             || (rows[i].minutes in owner && owner[rows[i].minutes] != rows[i].meeting)
    ensures !Consistent(rows)
  {
    if rows[i].meeting in first && first[rows[i].meeting] != rows[i] {
      var j :| 0 <= j < i && rows[j] == first[rows[i].meeting];
    } else {
      var r :| r in rows[..i] && r.minutes == rows[i].minutes && r.meeting == owner[rows[i].minutes];
      var j :| 0 <= j < i && rows[j] == r;
    }
  }

  method List(ghost rows: seq<IndexRow>, first: map<Key, IndexRow>, counts: map<Key, nat>, ghost owner: map<int, Key>) returns (meetings: Meetings)
    requires Tabulates(rows, first, counts, owner)
    ensures Aggregates(rows, meetings)
  {
    hide Sort, Le, Tabulates, Aggregates;
    var keys := KeysOf(first);
    var sorted := Sort(keys);
    SortSorts(keys);
    NoRepeatsIsMultiset(keys, sorted);
    assert first.Keys == counts.Keys by { TabulatesReads(rows, first, counts, owner); }
    meetings := [];
    for i := 0 to |sorted|
      invariant |meetings| == i
      invariant forall j :: 0 <= j < i ==> sorted[j] in first && meetings[j] == (sorted[j], Meeting(first[sorted[j]], counts[sorted[j]]))
    {
      assert sorted[i] in sorted;
      meetings := meetings + [(sorted[i], Meeting(first[sorted[i]], counts[sorted[i]]))];
    }
    ListAggregates(rows, first, counts, owner, sorted, meetings);
  }

  lemma TabulatesReads(rows: seq<IndexRow>, first: map<Key, IndexRow>, counts: map<Key, nat>, owner: map<int, Key>)
    requires Tabulates(rows, first, counts, owner)
    ensures first.Keys == counts.Keys
  {
  }

  lemma ListAggregates(rows: seq<IndexRow>, first: map<Key, IndexRow>, counts: map<Key, nat>, owner: map<int, Key>, sorted: seq<Key>, meetings: Meetings)
    requires Tabulates(rows, first, counts, owner)
    requires Ascending(sorted) && NoRepeats(sorted) && forall key :: key in sorted <==> key in first
    requires |meetings| == |sorted|
    requires forall j :: 0 <= j < |sorted| ==> sorted[j] in first && meetings[j] == (sorted[j], Meeting(first[sorted[j]], counts[sorted[j]]))
    ensures Aggregates(rows, meetings)
  {
    hide Le;
    assert KeysIn(meetings) == sorted;
    forall r | r in rows ensures exists i :: 0 <= i < |meetings| && meetings[i].0 == r.meeting {
      assert r.meeting in sorted;
      var i :| 0 <= i < |sorted| && sorted[i] == r.meeting;
      assert meetings[i].0 == r.meeting;
    }
  }

  /** Rows are consistent exactly when meeting ids determine rows and minutes numbers determine
      meeting ids, both as functions. */
  lemma ConsistentIff(rows: seq<IndexRow>)
    ensures Consistent(rows) <==>
              exists row: map<Key, IndexRow>, owner: map<int, Key> :: Determine(rows, row, owner)
  {
    if Consistent(rows) {
      var row, owner := Determined(rows);
    }
    if row, owner :| Determine(rows, row, owner) {
      assert forall i :: 0 <= i < |rows| ==> rows[i] in rows;
    }
  }

  ghost predicate Determine(rows: seq<IndexRow>, row: map<Key, IndexRow>, owner: map<int, Key>) {
    forall r :: r in rows ==> r.meeting in row && row[r.meeting] == r && r.minutes in owner && owner[r.minutes] == r.meeting
  }

  lemma {:induction false} Determined(rows: seq<IndexRow>) returns (row: map<Key, IndexRow>, owner: map<int, Key>)
    requires Consistent(rows)
    ensures Determine(rows, row, owner)
  {
    row, owner := map[], map[];
    if rows != [] {
      var n := |rows| - 1;
      row, owner := Determined(rows[..n]);
      row, owner := row[rows[n].meeting := rows[n]], owner[rows[n].minutes := rows[n].meeting];
      forall r | r in rows ensures r.meeting in row && row[r.meeting] == r && r.minutes in owner && owner[r.minutes] == r.meeting {
        var i :| 0 <= i <= n && rows[i] == r;
        assert i < n ==> rows[..n][i] in rows[..n];
      }
    }
  }

  // ---------------------------------------------------------------- order independence and conservation

  lemma ConsistencyShuffles(a: seq<IndexRow>, b: seq<IndexRow>)
    requires multiset(a) == multiset(b) && Consistent(a)
    ensures Consistent(b)
  {
    SameElements(a, b);
    forall i, j | 0 <= i < j < |b| && (b[i].meeting == b[j].meeting || b[i].minutes == b[j].minutes)
      ensures b[i].meeting == b[j].meeting && (b[i].meeting == b[j].meeting ==> b[i] == b[j])
    {
      assert b[i] in a && b[j] in a;
      var x :| 0 <= x < |a| && a[x] == b[i];
      var y :| 0 <= y < |a| && a[y] == b[j];
    }
  }

  lemma AggregateEntry(rows: seq<IndexRow>, meetings: Meetings, r: IndexRow)
    requires Consistent(rows) && Aggregates(rows, meetings) && r in rows
    ensures (r.meeting, Meeting(r, multiset(rows)[r])) in meetings
  {
    var i :| 0 <= i < |meetings| && meetings[i].0 == r.meeting;
    assert meetings[i].1.first == r;
  }

  /** Raising and the resulting meetings depend on the rows alone, not on their order. */
  lemma AggregateIsCanonical(a: seq<IndexRow>, b: seq<IndexRow>, x: Meetings, y: Meetings)
    requires multiset(a) == multiset(b)
    ensures Consistent(a) <==> Consistent(b)
    ensures Consistent(a) && Aggregates(a, x) && Aggregates(b, y) ==> x == y
  {
    hide Aggregates, Consistent, DistinctlyKeyed, Ascending;
    if Consistent(a) { ConsistencyShuffles(a, b); }
    if Consistent(b) { ConsistencyShuffles(b, a); }
    if Consistent(a) && Aggregates(a, x) && Aggregates(b, y) {
      AggregatesWithin(a, b, x, y);
      AggregatesWithin(b, a, y, x);
      SortedRowsAreUnique(x, y) by { AggregateSorts(a, x); AggregateSorts(b, y); }
    }
  }

  lemma AggregateSorts(rows: seq<IndexRow>, meetings: Meetings)
    requires Aggregates(rows, meetings)
    ensures Ascending(KeysIn(meetings)) && DistinctlyKeyed(meetings)
  {
  }

  lemma AggregatesWithin(a: seq<IndexRow>, b: seq<IndexRow>, x: Meetings, y: Meetings)
    requires multiset(a) == multiset(b) && Consistent(b) && Aggregates(a, x) && Aggregates(b, y)
    ensures forall row :: row in x ==> row in y
  {
    SameElements(a, b);
    forall row | row in x ensures row in y { AggregateEntry(b, y, row.1.first); }
  }

  /** The agenda-row counts add up to the number of rows. */
  lemma CountsAddUp(rows: seq<IndexRow>, meetings: Meetings)
    requires Consistent(rows) && Aggregates(rows, meetings)
    ensures Total(AgendaRows(meetings)) == |rows|
  {
    hide Consistent;
    var firsts := seq(|meetings|, i requires 0 <= i < |meetings| => meetings[i].1.first);
    forall r | r in multiset(rows) ensures r in firsts {
      assert r in rows;
      AggregateEntry(rows, meetings, r);
      var i :| 0 <= i < |meetings| && meetings[i] == (r.meeting, Meeting(r, multiset(rows)[r]));
      assert firsts[i] == r;
    }
    forall i, j | 0 <= i < j < |firsts| ensures firsts[i] != firsts[j] { assert meetings[i].0 != meetings[j].0; }
    CountsTotal(multiset(rows), firsts, AgendaRows(meetings));
    assert |multiset(rows)| == |rows|;
  }

  function AgendaRows(meetings: Meetings): seq<nat> {
    seq(|meetings|, i requires 0 <= i < |meetings| => meetings[i].1.agendaRows)
  }

  // ---------------------------------------------------------------- observing each meeting once

  type Pages = seq<seq<IndexRow>>

  function IdsOf(rows: seq<IndexRow>): set<Key> { set r | r in rows :: r.meeting }

  /** The rows of a page whose meeting was not observed before, each once, with its aggregate. */
  function Emit(all: multiset<IndexRow>, emitted: set<Key>, rows: seq<IndexRow>): Meetings {
    if rows == [] then []
    else
      var n := |rows| - 1;
      var before, r := Emit(all, emitted, rows[..n]), rows[n];
      if r.meeting in emitted + IdsOf(rows[..n]) then before else before + [(r.meeting, Meeting(r, all[r]))]
  }

  method EmitPage(all: multiset<IndexRow>, emitted: set<Key>, rows: seq<IndexRow>) returns (observations: Meetings, next: set<Key>)
    ensures observations == Emit(all, emitted, rows) && next == emitted + IdsOf(rows)
  {
    observations, next := [], emitted;
    for i := 0 to |rows|
      invariant observations == Emit(all, emitted, rows[..i]) && next == emitted + IdsOf(rows[..i])
    {
      assert rows[..i + 1][..i] == rows[..i];
      IdsGrow(rows, i);
      if rows[i].meeting !in next {
        observations, next := observations + [(rows[i].meeting, Meeting(rows[i], all[rows[i]]))], next + {rows[i].meeting};
      }
    }
    assert rows[..|rows|] == rows;
  }

  lemma IdsGrow(rows: seq<IndexRow>, i: nat)
    requires i < |rows|
    ensures IdsOf(rows[..i + 1]) == IdsOf(rows[..i]) + {rows[i].meeting}
  {
    assert rows[..i + 1] == rows[..i] + [rows[i]];
  }

  lemma {:induction false} EmitIsNew(all: multiset<IndexRow>, emitted: set<Key>, rows: seq<IndexRow>)
    ensures var out := Emit(all, emitted, rows);
            && DistinctlyKeyed(out)
            && (forall i :: 0 <= i < |out| ==> out[i].0 !in emitted && out[i].1.first in rows && out[i].1.first.meeting == out[i].0
                                               && out[i].1.agendaRows == all[out[i].1.first])
            && (forall key :: key in IdsOf(rows) && key !in emitted ==> key in KeysIn(out))
  {
    if rows != [] {
      var n := |rows| - 1;
      EmitIsNew(all, emitted, rows[..n]);
      IdsGrow(rows, n);
      assert rows[..n + 1] == rows;
      var before, out := Emit(all, emitted, rows[..n]), Emit(all, emitted, rows);
      assert forall i :: 0 <= i < |before| ==> before[i].0 in IdsOf(rows[..n]);
      assert forall i :: 0 <= i < |before| ==> KeysIn(out)[i] == KeysIn(before)[i];
      if |out| > |before| { assert KeysIn(out)[|before|] == rows[n].meeting; }
    }
  }

  /** `b` is first listed after `a` is. */
  ghost predicate ListedBefore(rows: seq<IndexRow>, a: (Key, Meeting), b: (Key, Meeting)) {
    exists p, q :: 0 <= p < q < |rows| && rows[p] == a.1.first && rows[q] == b.1.first && forall r :: 0 <= r < q ==> rows[r].meeting != b.0
  }

  /** A page observes its new meetings in the order in which it lists them. */
  lemma {:induction false} EmitKeepsOrder(all: multiset<IndexRow>, emitted: set<Key>, rows: seq<IndexRow>)
    ensures var out := Emit(all, emitted, rows); forall i, j :: 0 <= i < j < |out| ==> ListedBefore(rows, out[i], out[j])
  {
    hide ListedBefore;
    if rows != [] {
      var n := |rows| - 1;
      EmitKeepsOrder(all, emitted, rows[..n]);
      EmitIsNew(all, emitted, rows[..n]);
      var before, out := Emit(all, emitted, rows[..n]), Emit(all, emitted, rows);
      forall i, j | 0 <= i < j < |out| ensures ListedBefore(rows, out[i], out[j]) {
        if j < |before| { ListedStays(rows, before[i], before[j]); } else { LastListed(rows, before[i], out[j]); }
      }
    }
  }

  lemma ListedStays(rows: seq<IndexRow>, a: (Key, Meeting), b: (Key, Meeting))
    requires rows != [] && ListedBefore(rows[..|rows| - 1], a, b)
    ensures ListedBefore(rows, a, b)
  {
    var front := rows[..|rows| - 1];
    var p, q :| 0 <= p < q < |front| && front[p] == a.1.first && front[q] == b.1.first && forall r :: 0 <= r < q ==> front[r].meeting != b.0;
    assert rows[p] == front[p] && rows[q] == front[q] && forall r :: 0 <= r < q ==> rows[r] == front[r];
  }

  lemma LastListed(rows: seq<IndexRow>, a: (Key, Meeting), b: (Key, Meeting))
    requires rows != [] && a.1.first in rows[..|rows| - 1] && b.1.first == rows[|rows| - 1] && b.0 !in IdsOf(rows[..|rows| - 1])
    ensures ListedBefore(rows, a, b)
  {
    var front := rows[..|rows| - 1];
    var p :| 0 <= p < |front| && front[p] == a.1.first;
    forall r | 0 <= r < |front| ensures rows[r].meeting != b.0 { assert front[r] in front; }
    assert rows[p] == a.1.first;
  }

  function PageStep(u: Pages, pos: nat, emitted: set<Key>, go: Go): Option<Accepted<set<Key>, Meeting>> {
    if pos >= |u| then None
    else Some(Accepted(0, emitted + IdsOf(u[pos]), Emit(multiset(Flatten(u)), emitted, u[pos])))
  }

  /** The universe is accepted exactly when `AggregateMeetings` does not raise.  The source's runs
      are those without resume and budget; what is proved of all attempts holds of them. */
  function MeetingLane(age: string): Rules<Pages, set<Key>, Go, Meeting> {
    Rules(Lane("assembly_meeting_universe", age), map["source_contract" := "assembly_age_minutes_index_conf_id_universe"],
          RefusedBeforeRun, (u: Pages) => Consistent(Flatten(u)), (u: Pages) => |u|, (u: Pages) => 0, {}, PageStep,
          (c: nat, s: set<Key>) => true, (u: Pages, s: set<Key>) => s == IdsOf(Flatten(u)))
  }

  /** The observation is that of a row of its meeting, with the number of its rows. */
  ghost predicate IsEntry(rows: seq<IndexRow>, row: (Key, Meeting)) {
    row.1.first in rows && row.1.first.meeting == row.0 && row.1.agendaRows == multiset(rows)[row.1.first]
  }

  /** After `c` pages every meeting listed on them was observed exactly once. */
  ghost predicate ObservedOnce(u: Pages, at: Place<set<Key>, Meeting>) {
    && at.cursor <= |u| && at.state == IdsOf(Flatten(u[..at.cursor]))
    && DistinctlyKeyed(at.noted) && (forall i :: 0 <= i < |at.noted| ==> IsEntry(Flatten(u), at.noted[i]))
    && (forall key :: key in at.state <==> key in KeysIn(at.noted))
  }

  lemma PageObservesOnce(u: Pages, at: Place<set<Key>, Meeting>)
    requires ObservedOnce(u, at) && at.cursor < |u|
    ensures var a := PageStep(u, at.cursor, at.state, Go).value;
            ObservedOnce(u, Place(at.cursor + 1, a.after, at.noted + a.observations))
  {
    hide Emit, Flatten, KeysIn, IsEntry;
    var page, out, before := u[at.cursor], Emit(multiset(Flatten(u)), at.state, u[at.cursor]), Flatten(u[..at.cursor]);
    EmitIsNew(multiset(Flatten(u)), at.state, page);
    FlattenOne(u, at.cursor);
    EntriesAreRows(u, at.cursor, out);
    assert IdsOf(before + page) == IdsOf(before) + IdsOf(page);
    KeysJoin(at.noted, out);
    forall i | 0 <= i < |at.noted| ensures at.noted[i].0 in at.state { KeysContain(at.noted, i); }
    forall key | key in KeysIn(out) ensures key in IdsOf(page) {
      var i := KeysFind(out, key);
    }
  }

  lemma EntriesAreRows(u: Pages, c: nat, out: Meetings)
    requires c < |u|
    requires forall i :: 0 <= i < |out| ==> out[i].1.first in u[c] && out[i].1.first.meeting == out[i].0
                                            && out[i].1.agendaRows == multiset(Flatten(u))[out[i].1.first]
    ensures forall i :: 0 <= i < |out| ==> IsEntry(Flatten(u), out[i])
  {
    forall i | 0 <= i < |out| ensures out[i].1.first in Flatten(u) { RowsAreFlat(u, c, |u|, out[i].1.first); }
  }

  lemma {:induction false} RowsAreFlat(u: Pages, c: nat, n: nat, r: IndexRow)
    requires c < n <= |u| && r in u[c]
    ensures r in Flatten(u[..n]) && (n == |u| ==> r in Flatten(u))
  {
    FlattenOne(u, n - 1);
    if c < n - 1 { RowsAreFlat(u, c, n - 1, r); }
    assert u[..|u|] == u;
  }

  /** Each meeting is observed exactly once, on the page of its first row: at every cursor the
      observed keys are the ids listed so far, and the next page adds exactly the ids it lists
      that no earlier page listed.  So the final "not every meeting" check never fails. */
  lemma {:induction false} ObservedOnFirstPage(age: string, u: Pages, history: seq<Event<Go>>)
    requires Replay(MeetingLane(age), u, history).Some?
    ensures var at := Replay(MeetingLane(age), u, history).value;
            && ObservedOnce(u, at)
            && (at.cursor == |u| ==> MeetingLane(age).covered(u, at.state))
            && (at.cursor < |u| ==>
                  forall key :: key in KeysIn(PageStep(u, at.cursor, at.state, Go).value.observations)
                                <==> key in IdsOf(u[at.cursor]) && key !in IdsOf(Flatten(u[..at.cursor])))
  {
    hide ObservedOnce, Emit, Flatten, IdsOf;
    if history == [] {
      NothingObserved(u);
    } else {
      var n := |history| - 1;
      ObservedOnFirstPage(age, u, history[..n]);
      PageObservesOnce(u, Replay(MeetingLane(age), u, history[..n]).value);
    }
    var at := Replay(MeetingLane(age), u, history).value;
    ObservedReads(u, at);
    if at.cursor < |u| { NextPageAdds(u, at); }
  }

  lemma NothingObserved(u: Pages)
    ensures ObservedOnce(u, Place(0, {}, []))
  {
    assert u[..0] == [];
  }

  lemma ObservedReads(u: Pages, at: Place<set<Key>, Meeting>)
    requires ObservedOnce(u, at)
    ensures at.cursor == |u| ==> at.state == IdsOf(Flatten(u))
    ensures at.cursor <= |u| && at.state == IdsOf(Flatten(u[..at.cursor]))
  {
    assert u[..|u|] == u;
  }

  lemma NextPageAdds(u: Pages, at: Place<set<Key>, Meeting>)
    requires ObservedOnce(u, at) && at.cursor < |u|
    ensures forall key :: key in KeysIn(PageStep(u, at.cursor, at.state, Go).value.observations)
                          <==> key in IdsOf(u[at.cursor]) && key !in IdsOf(Flatten(u[..at.cursor]))
  {
    EmitIsNew(multiset(Flatten(u)), at.state, u[at.cursor]);
  }

  /** What is observed is what the aggregation returned: at every cursor exactly the aggregated
      meetings whose id is listed so far, and at completion all of them. */
  lemma ObservedAreAggregated(age: string, u: Pages, history: seq<Event<Go>>, meetings: Meetings)
    requires Replay(MeetingLane(age), u, history).Some? && Consistent(Flatten(u)) && Aggregates(Flatten(u), meetings)
    ensures var at := Replay(MeetingLane(age), u, history).value;
            && at.cursor <= |u| && DistinctlyKeyed(at.noted)
            && (forall row :: row in at.noted <==> row in meetings && row.0 in IdsOf(Flatten(u[..at.cursor])))
            && (at.cursor == |u| ==> multiset(at.noted) == multiset(meetings))
  {
    hide Replay, Flatten, Consistent, Emit, IdsOf;
    ObservedOnFirstPage(age, u, history);
    var at, rows := Replay(MeetingLane(age), u, history).value, Flatten(u);
    forall row | row in at.noted ensures row in meetings && row.0 in at.state {
      var i :| 0 <= i < |at.noted| && at.noted[i] == row;
      KeysContain(at.noted, i);
      AggregateEntry(rows, meetings, row.1.first);
    }
    forall row | row in meetings && row.0 in at.state ensures row in at.noted {
      var i := KeysFind(at.noted, row.0);
      assert at.noted[i] in meetings;
      OneRowPerKey(meetings, at.noted[i], row);
    }
    if at.cursor == |u| { AllAreObserved(u, at, meetings); }
  }

  lemma AllAreObserved(u: Pages, at: Place<set<Key>, Meeting>, meetings: Meetings)
    requires at.cursor == |u| && DistinctlyKeyed(at.noted) && Aggregates(Flatten(u), meetings)
    requires forall row :: row in at.noted <==> row in meetings && row.0 in IdsOf(Flatten(u[..at.cursor]))
    ensures multiset(at.noted) == multiset(meetings)
  {
    hide Flatten;
    assert u[..|u|] == u;
    forall row | row in meetings ensures row.0 in IdsOf(Flatten(u)) { assert row.1.first in Flatten(u); }
    assert NoRepeats(at.noted) && NoRepeats(meetings);
    SameSetSameBag(at.noted, meetings);
  }

  /** After any sequence of runs the stored checkpoint's universe aggregates, and the aggregated
      meetings listed before the stored cursor are stored; under a SUCCESS receipt all of them. */
  lemma StoredMeetingsAreAggregated(age: string, db: CursorDb<Pages, set<Key>, Meeting>, attempts: seq<Attempt<Pages, Go>>, meetings: Meetings)
    requires MeetingLane(age).lane !in db.checkpoints
    ensures var after, lane := Chain(MeetingLane(age), db, attempts), MeetingLane(age).lane;
            lane in after.checkpoints ==>
              var ck := after.checkpoints[lane];
              && Consistent(Flatten(ck.meta.universe)) && ck.cursor <= |ck.meta.universe| && ck.lastRun < |after.runs|
              && (Aggregates(Flatten(ck.meta.universe), meetings) ==>
                    forall row :: row in meetings && (after.runs[ck.lastRun].status.Success? || row.0 in IdsOf(Flatten(ck.meta.universe[..ck.cursor])))
                      ==> Observation(lane, row.0, row.1) in after.rows)
  {
    hide Enumerate, Replay, Sourced, Consistent, Aggregates, Flatten, IdsOf;
    var history := ChainIsDescribed(MeetingLane(age), db, attempts, (u, p: nat, go) => true);
    var after, lane := Chain(MeetingLane(age), db, attempts), MeetingLane(age).lane;
    if lane in after.checkpoints {
      var ck := after.checkpoints[lane];
      var at := Replay(MeetingLane(age), ck.meta.universe, history).value;
      ReplayStays(MeetingLane(age), ck.meta.universe, history);
      if Aggregates(Flatten(ck.meta.universe), meetings) {
        ObservedAreAggregated(age, ck.meta.universe, history, meetings);
        forall row | row in meetings && (after.runs[ck.lastRun].status.Success? || row.0 in IdsOf(Flatten(ck.meta.universe[..ck.cursor])))
          ensures Observation(lane, row.0, row.1) in after.rows
        {
          if after.runs[ck.lastRun].status.Success? { SameElements(at.noted, meetings); }
          assert row in at.noted;
        }
      }
    }
  }

  lemma {:induction false} PagesPass(age: string, u: Pages, go: Items<Go>, c: nat)
    requires c <= |u|
    ensures Course(MeetingLane(age), u, go, c).Some?
  {
    hide Emit, Flatten, IdsOf;
    if c > 0 {
      PagesPass(age, u, go, c - 1);
      CourseCursor(MeetingLane(age), u, go, c - 1);
    }
  }

  lemma PageCommits(age: string, u: Pages, go: Items<Go>)
    requires u != [] && Consistent(Flatten(u))
    ensures Passes(MeetingLane(age), u, go) && MeetingLane(age).size(u) == |u| && MeetingLane(age).opening(u) == 0
    ensures CommitsThrough(MeetingLane(age), u, go, |u|) == |u|
  {
    hide Course, CommitsThrough, Emit, Flatten, IdsOf, Consistent;
    PagesPass(age, u, go, |u|);
    SingleCommitsCount(MeetingLane(age), u, go, |u|);
  }

  /** An uninterrupted run makes one commit for each page, and none for the universe. */
  lemma UninterruptedCommits(age: string, u: Pages, go: Items<Go>, db: CursorDb<Pages, set<Key>, Meeting>)
    requires u != [] && Consistent(Flatten(u))
    ensures Enumerate(MeetingLane(age), db, false, None, Smooth(u, go)).commits == |u|
  {
    hide *;
    PageCommits(age, u, go);
    SmoothCommits(MeetingLane(age), u, go, db);
  }
}
