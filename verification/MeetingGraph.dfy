/** The per-meeting graph: every page of a meeting is one commit, and only the last one carries
    the observation and advances the cursor.  Bill conflicts are collected in the checkpoint. */
module MeetingGraph {
  import opened Prelude
  import opened Store
  import opened CursorLane
  import opened CursorSafety
  import opened CursorListing
  import opened CursorReach
  import opened Fetching
  import opened MeetingReductions
  import opened MeetingUniverse

  datatype Contextual<T> = Contextual(context: string, value: T)

  /** The pages of the three lists of one meeting, as fetched. */
  datatype RawMeeting = RawMeeting(details: seq<seq<DetailRow>>, agendas: seq<seq<Contextual<string>>>, bills: seq<seq<Contextual<BillRow>>>)

  datatype Graph = Graph(meeting: Meeting, detail: DetailRow, flagSets: seq<Flags>, agendas: seq<Contextual<string>>, bills: Reconciled)

  /** A validated meeting: its graph and the number of pages before the last one. */
  datatype Fetched = Fetched(leading: nat, graph: Graph)

  type Conflicts = map<Key, seq<Key>>

  function Values<T>(rows: seq<Contextual<T>>): seq<T> {
    seq(|rows|, i requires 0 <= i < |rows| => rows[i].value)
  }

  ghost predicate FitsMeeting(meeting: Meeting, raw: RawMeeting) {
    var rows := Flatten(raw.details);
    && Mergeable(rows)
    && rows[0].meeting == meeting.first.meeting && rows[0].date == meeting.first.date
    && (forall i :: 0 <= i < |Flatten(raw.agendas)| ==> Flatten(raw.agendas)[i].context == rows[0].context)
    && (forall i :: 0 <= i < |Flatten(raw.bills)| ==> Flatten(raw.bills)[i].context == rows[0].context)
  }

  /** The rows are of the listed meeting and date and equal but for the flags. */
  ghost predicate OfMeeting(meeting: Meeting, rows: seq<DetailRow>) {
    forall i, j :: 0 <= i <= j < |rows| ==>
      rows[i].meeting == meeting.first.meeting && rows[i].date == meeting.first.date
      && rows[i].context == rows[j].context && rows[i].rest == rows[j].rest
  }

  ghost predicate InContext<T>(rows: seq<DetailRow>, published: seq<Contextual<T>>) {
    forall i, j :: 0 <= i < |rows| && 0 <= j < |published| ==> published[j].context == rows[i].context
  }

  /** What a fetch accepts: at least one detail row, all of the listed meeting and equal but for
      the flags, and every agenda and bill row published in the context of every one of them. */
  lemma MeetingIsAcceptedIff(meeting: Meeting, raw: RawMeeting)
    ensures FitsMeeting(meeting, raw) <==>
              && Flatten(raw.details) != [] && OfMeeting(meeting, Flatten(raw.details))
              && InContext(Flatten(raw.details), Flatten(raw.agendas)) && InContext(Flatten(raw.details), Flatten(raw.bills))
  {
    hide Flatten, OfMeeting, InContext, Mergeable;
    var rows := Flatten(raw.details);
    RowsAgree(meeting, rows);
    if rows != [] && OfMeeting(meeting, rows) {
      OneContext(meeting, rows, Flatten(raw.agendas));
      OneContext(meeting, rows, Flatten(raw.bills));
    }
  }

  lemma OneContext<T>(meeting: Meeting, rows: seq<DetailRow>, published: seq<Contextual<T>>)
    requires rows != [] && OfMeeting(meeting, rows)
    ensures InContext(rows, published) <==> forall j :: 0 <= j < |published| ==> published[j].context == rows[0].context
  {
    forall i | 0 <= i < |rows| ensures rows[i].context == rows[0].context { assert rows[0].context == rows[i].context; }
  }

  lemma RowsAgree(meeting: Meeting, rows: seq<DetailRow>)
    ensures Mergeable(rows) && rows[0].meeting == meeting.first.meeting && rows[0].date == meeting.first.date
            <==> rows != [] && OfMeeting(meeting, rows)
  {
    if rows != [] && OfMeeting(meeting, rows) {
      forall i | 0 <= i < |rows| ensures SameOther(rows[i], rows[0]) { assert rows[0].context == rows[i].context; }
    }
  }

  function FlagSetsOf(rows: seq<DetailRow>): seq<Flags> { seq(|rows|, i requires 0 <= i < |rows| => rows[i].flags) }

  /** What fetching one meeting yields: its graph, with the last detail page to carry the
      observation and all other pages to be committed before it. */
  ghost predicate Fetches(meeting: Meeting, raw: RawMeeting, f: Fetched) {
    var rows := Flatten(raw.details);
    && FitsMeeting(meeting, raw)
    && f.leading + 1 == |raw.details| + |raw.agendas| + |raw.bills|
    && f.graph.meeting == meeting && f.graph.detail == Merged(rows) && f.graph.flagSets == FlagSetsOf(rows)
    && f.graph.agendas == Flatten(raw.agendas)
    && Reconciles(Values(Flatten(raw.bills)), f.graph.bills)
  }

  /** Validates one meeting against the universe and reduces its rows. */
  method FetchMeeting(meeting: Meeting, raw: RawMeeting) returns (r: Option<Fetched>)
    requires raw.details != [] && raw.agendas != [] && raw.bills != []
    ensures r.Some? <==> FitsMeeting(meeting, raw)
    ensures r.Some? ==> Fetches(meeting, raw, r.value)
  {
    hide Reconciles, MergedFlags;
    var details, agendas, bills := Flatten(raw.details), Flatten(raw.agendas), Flatten(raw.bills);
    var merged := MergeDetailRows(details);
    if merged.None? { return None; }
    var detail := merged.value.0;
    if detail.meeting != meeting.first.meeting || detail.date != meeting.first.date { return None; }
    for i := 0 to |agendas|
      invariant forall j :: 0 <= j < i ==> agendas[j].context == detail.context
    {
      if agendas[i].context != detail.context { return None; }
    }
    for i := 0 to |bills|
      invariant forall j :: 0 <= j < i ==> bills[j].context == detail.context
    {
      if bills[i].context != detail.context { return None; }
    }
    var reconciled := ReconcileMeetingBills(Values(bills));
    r := Some(Fetched(|raw.details| + |raw.agendas| + |raw.bills| - 1, Graph(meeting, detail, merged.value.1, agendas, reconciled)));
  }

  // ---------------------------------------------------------------- the lane

  function Noting(s: Conflicts, meeting: Key, conflicts: seq<Key>): Conflicts {
    if conflicts == [] then s else s[meeting := conflicts]
  }

  function MeetingStep(u: Meetings, pos: nat, s: Conflicts, f: Fetched): Option<Accepted<Conflicts, Graph>> {
    if pos >= |u| then None
    else Some(Accepted(f.leading, Noting(s, u[pos].0, f.graph.bills.conflicts), [(u[pos].0, f.graph)]))
  }

  function GraphLane(age: string): Rules<Meetings, Conflicts, Fetched, Graph> {
    Rules(Lane("assembly_meeting_graph", age), map["source_contract" := "assembly_age_meeting_graph_by_conf_id"],
          RefusedInRun, (u: Meetings) => DistinctlyKeyed(u), (u: Meetings) => |u|, (u: Meetings) => 0, map[], MeetingStep,
          (c: nat, s: Conflicts) => true, (u: Meetings, s: Conflicts) => true)
  }

  /** `f` is what fetching the meeting from some pages yields. */
  ghost predicate IsFetched(meeting: Meeting, f: Fetched) {
    exists raw: RawMeeting :: raw.details != [] && raw.agendas != [] && raw.bills != [] && Fetches(meeting, raw, f)
  }

  /** Every item is what `FetchMeeting` returned for the meeting at its position. */
  ghost function FetchedItems(): (Meetings, nat, Fetched) -> bool {
    (u: Meetings, p: nat, f: Fetched) => p < |u| ==> IsFetched(u[p].1, f)
  }

  /** The graph observed for a meeting is one a fetch of it returned. */
  ghost predicate IsGraphOf(meeting: Meeting, graph: Graph) {
    exists f: Fetched :: f.graph == graph && IsFetched(meeting, f)
  }

  /** The meetings before the cursor are exactly those observed, in universe order, each with a
      graph that fetching it returned. */
  lemma {:induction false} PrefixIsObserved(age: string, u: Meetings, history: seq<Event<Fetched>>)
    requires Replay(GraphLane(age), u, history).Some? && Sourced(GraphLane(age), u, history, FetchedItems())
    ensures var at := Replay(GraphLane(age), u, history).value;
            && |at.noted| == at.cursor <= |u|
            && forall i :: 0 <= i < at.cursor ==> at.noted[i].0 == u[i].0 && IsGraphOf(u[i].1, at.noted[i].1)
  {
    hide IsFetched, IsGraphOf, Next;
    if history != [] {
      var n := |history| - 1;
      PrefixIsObserved(age, u, history[..n]);
      var before := Replay(GraphLane(age), u, history[..n]).value;
      StepObserves(age, u, before, history[n]);
      if before.cursor < |u| { assert IsFetched(u[before.cursor].1, history[n].item); }
    }
  }

  /** One event observes the meeting at the cursor when it is finished, and nothing otherwise. */
  lemma StepObserves(age: string, u: Meetings, at: Place<Conflicts, Graph>, e: Event<Fetched>)
    requires Next(GraphLane(age), u, at, e).Some?
    ensures at.cursor < |u|
    ensures var next := Next(GraphLane(age), u, at, e).value;
            if e.finished then next.cursor == at.cursor + 1 && next.noted == at.noted + [(u[at.cursor].0, e.item.graph)]
            else next.cursor == at.cursor && next.noted == at.noted
    ensures IsFetched(u[at.cursor].1, e.item) ==> IsGraphOf(u[at.cursor].1, e.item.graph)
  {
    hide IsFetched, Noting;
  }

  /** After any sequence of runs, the meetings before the cursor are all stored, each with a graph
      that fetching it returned, and the universe's history contributed no other row. */
  lemma CursorCountsStoredMeetings(age: string, db: CursorDb<Meetings, Conflicts, Graph>, attempts: seq<Attempt<Meetings, Fetched>>)
    returns (history: seq<Event<Fetched>>)
    requires GraphLane(age).lane !in db.checkpoints && forall a :: a in attempts ==> Draws(a.world, FetchedItems())
    ensures var after, lane := Chain(GraphLane(age), db, attempts), GraphLane(age).lane;
            lane in after.checkpoints ==>
              var ck := after.checkpoints[lane];
              var place := Replay(GraphLane(age), ck.meta.universe, history);
              && place.Some? && place.value.cursor == ck.cursor && place.value.state == ck.meta.state
              && ck.cursor <= |ck.meta.universe| && |place.value.noted| == ck.cursor
              && forall i :: 0 <= i < ck.cursor ==>
                   && place.value.noted[i].0 == ck.meta.universe[i].0 && IsGraphOf(ck.meta.universe[i].1, place.value.noted[i].1)
                   && Observation(lane, place.value.noted[i].0, place.value.noted[i].1) in after.rows
  {
    hide Enumerate, Replay, Sourced, DistinctlyKeyed, IsGraphOf, Draws;
    history := ChainIsDescribed(GraphLane(age), db, attempts, FetchedItems());
    var after, lane := Chain(GraphLane(age), db, attempts), GraphLane(age).lane;
    if lane in after.checkpoints { PrefixIsObserved(age, after.checkpoints[lane].meta.universe, history); }
  }

  /** Some interrupted attempt at meeting `i` had seen bill conflicts. */
  ghost predicate InterruptedConflict(age: string, u: Meetings, history: seq<Event<Fetched>>, i: nat) {
    history != []
    && (var init, e := history[..|history| - 1], history[|history| - 1];
        || InterruptedConflict(age, u, init, i)
        || (!e.finished && e.item.graph.bills.conflicts != [] && Replay(GraphLane(age), u, init).Some?
            && Replay(GraphLane(age), u, init).value.cursor == i))
  }

  /** The conflict map, meeting by meeting.  A finished meeting with conflicts has them; one
      without has an entry exactly when an interrupted attempt at it had seen conflicts; the
      meeting in progress likewise; later meetings have none. */
  ghost predicate ConflictsAre(age: string, u: Meetings, history: seq<Event<Fetched>>, at: Place<Conflicts, Graph>) {
    && |at.noted| == at.cursor <= |u|
    && (forall i :: 0 <= i < at.cursor ==>
          var stored := at.noted[i].1.bills.conflicts;
          if stored != [] then u[i].0 in at.state && at.state[u[i].0] == stored
          else (u[i].0 in at.state <==> InterruptedConflict(age, u, history, i)))
    && (at.cursor < |u| ==> (u[at.cursor].0 in at.state <==> InterruptedConflict(age, u, history, at.cursor)))
    && (forall i :: at.cursor < i < |u| ==> u[i].0 !in at.state && !InterruptedConflict(age, u, history, i))
    && (forall key :: key in at.state ==> exists i :: 0 <= i < |u| && i <= at.cursor && u[i].0 == key)
  }

  /** One more event: what it adds to the conflicts and to the interrupted attempts. */
  lemma OneMoreEvent(age: string, u: Meetings, history: seq<Event<Fetched>>, at: Place<Conflicts, Graph>, e: Event<Fetched>)
    requires Replay(GraphLane(age), u, history) == Some(at) && Next(GraphLane(age), u, at, e).Some?
    ensures at.cursor < |u|
    ensures Next(GraphLane(age), u, at, e).value.state == Noting(at.state, u[at.cursor].0, e.item.graph.bills.conflicts)
    ensures forall i: nat :: InterruptedConflict(age, u, history + [e], i)
              == (InterruptedConflict(age, u, history, i) || (!e.finished && e.item.graph.bills.conflicts != [] && i == at.cursor))
  {
    hide Replay;
    assert (history + [e])[..|history|] == history;
  }

  lemma FinishedKeepsConflicts(age: string, u: Meetings, history: seq<Event<Fetched>>, at: Place<Conflicts, Graph>, e: Event<Fetched>)
    requires DistinctlyKeyed(u) && Replay(GraphLane(age), u, history) == Some(at) && ConflictsAre(age, u, history, at)
    requires Next(GraphLane(age), u, at, e).Some? && e.finished
    ensures ConflictsAre(age, u, history + [e], Next(GraphLane(age), u, at, e).value)
  {
    hide Replay, InterruptedConflict;
    OneMoreEvent(age, u, history, at, e);
    var c, next := at.cursor, Next(GraphLane(age), u, at, e).value;
    assert next == Place(c + 1, Noting(at.state, u[c].0, e.item.graph.bills.conflicts), at.noted + [(u[c].0, e.item.graph)]);
    assert forall i :: 0 <= i < c ==> next.noted[i] == at.noted[i];
    assert next.noted[c].1 == e.item.graph;
    assert forall i :: 0 <= i < |u| && i != c ==> u[i].0 != u[c].0;
  }

  lemma InterruptedKeepsConflicts(age: string, u: Meetings, history: seq<Event<Fetched>>, at: Place<Conflicts, Graph>, e: Event<Fetched>)
    requires DistinctlyKeyed(u) && Replay(GraphLane(age), u, history) == Some(at) && ConflictsAre(age, u, history, at)
    requires Next(GraphLane(age), u, at, e).Some? && !e.finished
    ensures ConflictsAre(age, u, history + [e], Next(GraphLane(age), u, at, e).value)
  {
    hide Replay, InterruptedConflict;
    OneMoreEvent(age, u, history, at, e);
    assert forall i :: 0 <= i < |u| && i != at.cursor ==> u[i].0 != u[at.cursor].0;
  }

  lemma {:induction false} ConflictsAtEveryCursor(age: string, u: Meetings, history: seq<Event<Fetched>>)
    requires DistinctlyKeyed(u) && Replay(GraphLane(age), u, history).Some?
    ensures ConflictsAre(age, u, history, Replay(GraphLane(age), u, history).value)
  {
    hide ConflictsAre, Next, DistinctlyKeyed;
    if history == [] {
      NoConflictsYet(age, u);
    } else {
      var n := |history| - 1;
      ConflictsAtEveryCursor(age, u, history[..n]);
      var at := Replay(GraphLane(age), u, history[..n]).value;
      assert history == history[..n] + [history[n]];
      if history[n].finished {
        FinishedKeepsConflicts(age, u, history[..n], at, history[n]);
      } else {
        InterruptedKeepsConflicts(age, u, history[..n], at, history[n]);
      }
    }
  }

  lemma NoConflictsYet(age: string, u: Meetings)
    ensures ConflictsAre(age, u, [], Place(0, map[], []))
  {
  }

  /** A finished meeting's entry agrees with its stored observation if and only if the
      observation has conflicts itself or no interrupted attempt at the meeting had seen any. */
  lemma ConflictEntryIsExactIff(age: string, u: Meetings, history: seq<Event<Fetched>>, i: nat)
    requires DistinctlyKeyed(u) && Replay(GraphLane(age), u, history).Some? && i < Replay(GraphLane(age), u, history).value.cursor
    ensures var at := Replay(GraphLane(age), u, history).value;
            && |at.noted| == at.cursor <= |u|
            && var stored := at.noted[i].1.bills.conflicts;
               (if u[i].0 in at.state then stored == at.state[u[i].0] && stored != [] else stored == [])
               <==> stored != [] || !InterruptedConflict(age, u, history, i)
  {
    hide Replay;
    ConflictsAtEveryCursor(age, u, history);
  }

  /** An interrupted meeting can be taken again with the same result, so crash/resume equivalence
      and the run count under a budget hold for this lane. */
  lemma GraphIsRepeatable(age: string, u: Meetings, items: Items<Fetched>)
    ensures Repeatable(GraphLane(age), u, items)
  {
    hide Course, Noting;
    forall c | 0 <= c < |u| && Course(GraphLane(age), u, items, c).Some?
      ensures var step := MeetingStep(u, c, Course(GraphLane(age), u, items, c).value.state, items(c));
              step.Some? ==> MeetingStep(u, c, step.value.after, items(c)) == step
    {
      NotingTwice(Course(GraphLane(age), u, items, c).value.state, u[c].0, items(c).graph.bills.conflicts);
    }
  }

  lemma NotingTwice(s: Conflicts, meeting: Key, conflicts: seq<Key>)
    ensures Noting(Noting(s, meeting, conflicts), meeting, conflicts) == Noting(s, meeting, conflicts)
  {
  }

  lemma {:induction false} GraphCourse(age: string, u: Meetings, items: Items<Fetched>, c: nat)
    requires c <= |u|
    ensures Course(GraphLane(age), u, items, c).Some? && Course(GraphLane(age), u, items, c).value.cursor == c
  {
    if c > 0 { GraphCourse(age, u, items, c - 1); }
  }

  /** Crash/resume equivalence: against unchanged meetings, any chain of interruptions between the
      commits of a meeting, budgets and resumes that reaches the last meeting leaves the conflict
      map and the stored graphs of one uninterrupted run. */
  lemma CrashResume(age: string, u: Meetings, items: Items<Fetched>, db: CursorDb<Meetings, Conflicts, Graph>, attempts: seq<Attempt<Meetings, Fetched>>)
    requires u != [] && GraphLane(age).lane !in db.checkpoints
    requires forall a :: a in attempts ==> Serves(u, items, a.world)
    requires EndsAt(GraphLane(age), u, Chain(GraphLane(age), db, attempts))
    ensures var v := Enumerate(GraphLane(age), db, false, None, Smooth(u, items));
            v.ending.Complete? && SameOutcome(GraphLane(age).lane, v.db, Chain(GraphLane(age), db, attempts))
  {
    hide Enumerate, Chain, DistinctlyKeyed;
    GraphIsRepeatable(age, u, items);
    CrashResumeEquivalence(GraphLane(age), u, items, db, attempts);
  }

  /** With budget m and no failures, n meetings are finished by exactly ceil(n / m) runs. */
  lemma MeetingsFinishInTime(age: string, u: Meetings, items: Items<Fetched>, db: CursorDb<Meetings, Conflicts, Graph>, m: Positive, r: nat)
    requires DistinctlyKeyed(u) && u != [] && 1 <= r <= PageCount(|u|, m)
    ensures var after := Chain(GraphLane(age), db, Budgeted(u, items, m, r));
            && |after.runs| == |db.runs| + r
            && after.runs[|after.runs| - 1].status == if r < PageCount(|u|, m) then Partial else Success
  {
    hide Chain, Paging.Pages;
    GraphCourse(age, u, items, |u|);
    assert Sails(GraphLane(age), u, items);
    BudgetedRuns(GraphLane(age), u, items, db, m, r);
  }

  // ---------------------------------------------------------------- a stale conflict

  const THE_ROW := IndexRow("m", 1, "d", "")
  const THE_DETAIL := DetailRow("m", "d", "", "", [None, None, None, None, None, None, None])
  const FIRST_BILL := BillRow("b", "first", None)
  const OTHER_BILL := BillRow("b", "other", None)
  const BOTH_BILLS := Reconciled([Entry(FIRST_BILL, 1), Entry(OTHER_BILL, 1)], 2, 0, ["b"], [])
  const ONE_BILL := Reconciled([Entry(FIRST_BILL, 1)], 1, 0, [], ["b"])

  /** One detail page, one empty agenda page and one page of bills. */
  function OnePage(bills: seq<BillRow>): RawMeeting {
    RawMeeting([[THE_DETAIL]], [[]], [seq(|bills|, i requires 0 <= i < |bills| => Contextual("", bills[i]))])
  }

  function GraphWith(bills: Reconciled): Fetched {
    Fetched(2, Graph(Meeting(THE_ROW, 1), THE_DETAIL, [THE_DETAIL.flags], [], bills))
  }

  lemma OnePageFetches(bills: seq<BillRow>, r: Reconciled)
    requires Reconciles(bills, r)
    ensures Fetches(Meeting(THE_ROW, 1), OnePage(bills), GraphWith(r))
  {
    hide Reconciles, MergedFlags, Flatten;
    var raw := OnePage(bills);
    FlattenAlone(raw.details[0]);
    FlattenAlone(raw.agendas[0]);
    FlattenAlone(raw.bills[0]);
    assert Values(raw.bills[0]) == bills;
    MergedAlone();
    assert FlagSetsOf([THE_DETAIL]) == [THE_DETAIL.flags];
  }

  lemma FlattenAlone<R>(page: seq<R>)
    ensures Flatten([page]) == page
  {
    assert [page][..0] == [];
  }

  lemma MergedAlone()
    ensures Mergeable([THE_DETAIL]) && Merged([THE_DETAIL]) == THE_DETAIL
  {
    forall n | 0 <= n < FLAG_COUNT ensures MergedFlags([THE_DETAIL])[n] == None { assert Column([THE_DETAIL], n) == [None]; }
    assert MergedFlags([THE_DETAIL]) == THE_DETAIL.flags;
  }

  lemma BothBillsReconcile()
    ensures Reconciles([FIRST_BILL, OTHER_BILL], BOTH_BILLS)
  {
    var both := [FIRST_BILL, OTHER_BILL];
    assert FIRST_BILL.name != OTHER_BILL.name;
    assert Conflicting(both, "b") by { assert both[0] in both && both[1] in both; }
    assert Before(both, FIRST_BILL, OTHER_BILL) by { assert Le("first", "other"); }
    assert BOTH_BILLS.entries[0].row == both[0] && BOTH_BILLS.entries[1].row == both[1];
  }

  lemma OneBillReconciles()
    ensures Reconciles([FIRST_BILL], ONE_BILL)
  {
    hide FirstAt, Le;
    assert ONE_BILL.entries[0].row == FIRST_BILL;
    assert Listed([FIRST_BILL], "b") by { assert [FIRST_BILL][0] in [FIRST_BILL]; }
  }

  /** Two runs that draw only fetched items leave a finished meeting whose stored observation has
      no conflict while the checkpoint still lists one. */
  ghost predicate LeavesStaleConflict(age: string, db: CursorDb<Meetings, Conflicts, Graph>, attempts: seq<Attempt<Meetings, Fetched>>) {
    var after, lane := Chain(GraphLane(age), db, attempts), GraphLane(age).lane;
    && |attempts| == 2 && (forall a :: a in attempts ==> Draws(a.world, FetchedItems()))
    && lane in after.checkpoints && after.checkpoints[lane].cursor == 1 == |after.checkpoints[lane].meta.universe|
    && after.checkpoints[lane].meta.state == map["m" := ["b"]]
    && Observation(lane, "m", GraphWith(ONE_BILL).graph) in after.rows && ONE_BILL.conflicts == []
  }

  /** From any store whose lane has no checkpoint there are such runs: the first reads two
      different rows of one bill and is interrupted, the second reads one row. */
  lemma StaleConflictIsReached(age: string, db: CursorDb<Meetings, Conflicts, Graph>)
    requires GraphLane(age).lane !in db.checkpoints
    ensures exists attempts :: LeavesStaleConflict(age, db, attempts)
  {
    hide Enumerate, Chain, IsFetched, Replay, AlwaysConsistent;
    var u: Meetings := [("m", Meeting(THE_ROW, 1))];
    var both := [Event(GraphWith(BOTH_BILLS), false), Event(GraphWith(ONE_BILL), true)];
    BothEventsReplay(age, u, both);
    assert AlwaysConsistent(GraphLane(age), u, both) by { GraphIsConsistent(age, u, both); }
    var attempts := ReplayIsReached(GraphLane(age), u, db, both);
    BothAreFetched();
    assert Replay(GraphLane(age), u, both).value.noted[0] == ("m", GraphWith(ONE_BILL).graph);
    assert LeavesStaleConflict(age, db, attempts);
  }

  lemma BothAreFetched()
    ensures IsFetched(Meeting(THE_ROW, 1), GraphWith(BOTH_BILLS)) && IsFetched(Meeting(THE_ROW, 1), GraphWith(ONE_BILL))
  {
    hide Fetches, Reconciles;
    BothBillsReconcile();
    OneBillReconciles();
    OnePageFetches([FIRST_BILL, OTHER_BILL], BOTH_BILLS);
    OnePageFetches([FIRST_BILL], ONE_BILL);
  }

  lemma GraphIsConsistent(age: string, u: Meetings, history: seq<Event<Fetched>>)
    ensures AlwaysConsistent(GraphLane(age), u, history)
  {
    hide Replay;
  }

  lemma BothEventsReplay(age: string, u: Meetings, both: seq<Event<Fetched>>)
    requires u == [("m", Meeting(THE_ROW, 1))] && both == [Event(GraphWith(BOTH_BILLS), false), Event(GraphWith(ONE_BILL), true)]
    ensures Replay(GraphLane(age), u, both) == Some(Place(1, map["m" := ["b"]], [("m", GraphWith(ONE_BILL).graph)]))
  {
    var start: Place<Conflicts, Graph>, started := Place(0, map[], []), Place(0, map["m" := ["b"]], []);
    assert both[..2] == both && both[..1][..0] == [] && both[..2][..1] == both[..1];
    assert Replay(GraphLane(age), u, both[..0]) == Some(start);
    assert Next(GraphLane(age), u, start, both[0]) == Some(started);
    assert Replay(GraphLane(age), u, both[..1]) == Some(started);
    assert [] + [("m", both[1].item.graph)] == [("m", both[1].item.graph)];
  }

  // ---------------------------------------------------------------- runs of the lane

  /** Without a checkpoint a resume commits nothing. */
  lemma ResumeWithoutCheckpoint(age: string, db: CursorDb<Meetings, Conflicts, Graph>, budget: Option<nat>, world: World<Meetings, Fetched>)
    requires GraphLane(age).lane !in db.checkpoints
    ensures var w := Enumerate(GraphLane(age), db, true, budget, world);
            w.commits == 0 && (w.ending == Raised || w.ending == Killed) && w.db.rows == db.rows && w.db.checkpoints == db.checkpoints
  {
    hide Enumerate;
    WithoutCheckpoint(GraphLane(age), db, budget, world);
  }

  /** The pages of the first `c` meetings. */
  function PagesThrough(items: Items<Fetched>, c: nat): nat { if c == 0 then 0 else PagesThrough(items, c - 1) + items(c - 1).leading + 1 }

  /** An uninterrupted run makes one commit for each page of each meeting, and none for the universe. */
  lemma UninterruptedCommits(age: string, u: Meetings, items: Items<Fetched>, db: CursorDb<Meetings, Conflicts, Graph>)
    requires DistinctlyKeyed(u) && u != []
    ensures Enumerate(GraphLane(age), db, false, None, Smooth(u, items)).commits == PagesThrough(items, |u|)
  {
    hide *;
    GraphPasses(age, u, items);
    SmoothCommits(GraphLane(age), u, items, db);
  }

  lemma GraphPasses(age: string, u: Meetings, items: Items<Fetched>)
    requires DistinctlyKeyed(u)
    ensures Passes(GraphLane(age), u, items) && GraphLane(age).size(u) == |u| && GraphLane(age).opening(u) == 0
    ensures CommitsThrough(GraphLane(age), u, items, |u|) == PagesThrough(items, |u|)
  {
    hide Course, CommitsThrough, PagesThrough, DistinctlyKeyed, MeetingStep;
    GraphCourse(age, u, items, |u|);
    GraphCommits(age, u, items, |u|);
  }

  lemma {:induction false} GraphCommits(age: string, u: Meetings, items: Items<Fetched>, c: nat)
    requires c <= |u|
    ensures CommitsThrough(GraphLane(age), u, items, c) == PagesThrough(items, c)
  {
    hide Course;
    if c > 0 {
      GraphCourse(age, u, items, c - 1);
      GraphCommits(age, u, items, c - 1);
    }
  }
}
