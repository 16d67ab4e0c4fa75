/** Plenary roll-call votes: the bill universe is validated and put in bill-id order, and each
    bill's member rows are compared with its published tallies without correcting either side. */
module RollCall {
  import opened Prelude
  import opened Store
  import opened CursorLane
  import opened CursorSafety
  import opened CursorListing
  import Paging

  datatype VoteValue = Yes | No | Abstain | NotParticipating

  datatype Tally = Tally(age: int, members: int, votes: int, yes: int, no: int, abstain: int)

  /** A bill of the universe: its id and published tallies. */
  type Summary = (Key, Tally)

  datatype Vote = Vote(bill: Key, age: int, member: Key, value: VoteValue, details: string)

  datatype Ballot = Ballot(total: int, records: seq<Vote>)

  datatype TallyStatus = Matched | SourceConflict | MemberRowsIncomplete

  datatype RowTally = RowTally(yes: nat, no: nat, abstain: nat, notParticipating: nat, rows: nat)

  datatype Reconciliation = Agreed | Disagreed(status: TallyStatus, published: Tally, found: RowTally)

  datatype VoteRow = VoteRow(vote: Vote, reconciliation: Reconciliation)

  datatype Scope = Scope(age: int, key: string, summaryPageSize: Positive, memberPageSize: nat)

  type Exceptions = map<Key, TallyStatus>

  // ---------------------------------------------------------------- the universe

  predicate ValidTally(scope: Scope, t: Tally) {
    && t.age == scope.age && t.yes + t.no + t.abstain == t.votes && t.votes <= t.members && t.members <= scope.memberPageSize
  }

  predicate ValidRows(scope: Scope, rows: seq<Summary>) {
    (forall i | 0 <= i < |rows| :: ValidTally(scope, rows[i].1)) && DistinctlyKeyed(rows)
  }

  predicate AcceptsUniverse(scope: Scope, u: seq<Summary>) {
    ValidRows(scope, u) && Ascending(KeysIn(u))
  }

  /** Validates the fetched summaries and puts them in bill-id order. */
  method BuildUniverse(scope: Scope, rows: seq<Summary>) returns (u: Option<seq<Summary>>)
    ensures u.Some? <==>
              && (forall i :: 0 <= i < |rows| ==>
                    var t := rows[i].1;
                    t.age == scope.age && t.yes + t.no + t.abstain == t.votes && t.votes <= t.members <= scope.memberPageSize)
              && (forall i, j :: 0 <= i < j < |rows| ==> rows[i].0 != rows[j].0)
    ensures u.Some? ==> AcceptsUniverse(scope, u.value) && u.value == InKeyOrder(rows) && forall s :: s in u.value <==> s in rows
  {
    hide InKeyOrder, Le;
    var seen: set<Key> := {};
    for i := 0 to |rows|
      invariant forall j :: 0 <= j < i ==> ValidTally(scope, rows[j].1) && rows[j].0 in seen
      invariant forall key :: key in seen ==> exists j :: 0 <= j < i && rows[j].0 == key
      invariant DistinctlyKeyed(rows[..i])
    {
      if rows[i].0 in seen || !ValidTally(scope, rows[i].1) { return None; }
      seen := seen + {rows[i].0};
    }
    assert rows[..|rows|] == rows;
    InKeyOrderSorts(rows);
    var sorted := InKeyOrder(rows);
    assert forall i :: 0 <= i < |sorted| ==> sorted[i] in rows;
    u := Some(sorted);
  }

  /** The universe does not depend on the provider's row order, and neither does its refusal. */
  lemma UniverseIsCanonical(scope: Scope, a: seq<Summary>, b: seq<Summary>)
    requires multiset(a) == multiset(b)
    ensures ValidRows(scope, a) <==> ValidRows(scope, b)
    ensures ValidRows(scope, a) ==> InKeyOrder(a) == InKeyOrder(b)
  {
    hide InKeyOrder;
    SameElements(a, b);
    assert (forall i :: 0 <= i < |a| ==> ValidTally(scope, a[i].1)) <==> forall s :: s in a ==> ValidTally(scope, s.1);
    assert (forall i :: 0 <= i < |b| ==> ValidTally(scope, b[i].1)) <==> forall s :: s in b ==> ValidTally(scope, s.1);
    if DistinctlyKeyed(a) { InKeyOrderIsCanonical(a, b); ShuffleKeepsKeys(a, b); }
    if DistinctlyKeyed(b) { ShuffleKeepsKeys(b, a); }
  }

  // ---------------------------------------------------------------- reconciliation

  function Count(records: seq<Vote>, value: VoteValue): nat {
    if records == [] then 0
    else Count(records[..|records| - 1], value) + (if records[|records| - 1].value == value then 1 else 0)
  }

  function Tallied(records: seq<Vote>): RowTally {
    RowTally(Count(records, Yes), Count(records, No), Count(records, Abstain), Count(records, NotParticipating), |records|)
  }

  function Reconcile(t: Tally, records: seq<Vote>): TallyStatus {
    var found := Tallied(records);
    if |records| != t.members then MemberRowsIncomplete
    else if (found.yes, found.no, found.abstain) != (t.yes, t.no, t.abstain) then SourceConflict
    else Matched
  }

  function Reconciled(t: Tally, records: seq<Vote>): Reconciliation {
    if Reconcile(t, records).Matched? then Agreed else Disagreed(Reconcile(t, records), t, Tallied(records))
  }

  /** Counts the member rows in one pass. */
  method ReconcileTallies(t: Tally, records: seq<Vote>) returns (r: Reconciliation)
    ensures r == Reconciled(t, records)
  {
    var yes, no, abstain, absent := 0, 0, 0, 0;
    for i := 0 to |records|
      invariant RowTally(yes, no, abstain, absent, i) == Tallied(records[..i])
    {
      assert records[..i + 1][..i] == records[..i];
      match records[i].value
      case Yes => yes := yes + 1;
      case No => no := no + 1;
      case Abstain => abstain := abstain + 1;
      case NotParticipating => absent := absent + 1;
    }
    assert records[..|records|] == records;
    if |records| != t.members {
      r := Disagreed(MemberRowsIncomplete, t, RowTally(yes, no, abstain, absent, |records|));
    } else if yes != t.yes || no != t.no || abstain != t.abstain {
      r := Disagreed(SourceConflict, t, RowTally(yes, no, abstain, absent, |records|));
    } else {
      r := Agreed;
    }
  }

  /** Every member row is counted once. */
  lemma {:induction false} CountsAddUp(records: seq<Vote>)
    ensures Count(records, Yes) + Count(records, No) + Count(records, Abstain) + Count(records, NotParticipating) == |records|
  {
    if records != [] { CountsAddUp(records[..|records| - 1]); }
  }

  /** A count is the number of the rows with that value. */
  lemma {:induction false} CountIs(records: seq<Vote>, value: VoteValue)
    ensures Count(records, value) == |set i | 0 <= i < |records| && records[i].value == value|
  {
    var f := (v: Vote) => v.value == value;
    WhereStep(records, f);
    if records != [] {
      var rest := records[..|records| - 1];
      CountIs(rest, value);
      assert Where(rest, f) == set i | 0 <= i < |rest| && rest[i].value == value;
    }
    assert Where(records, f) == set i | 0 <= i < |records| && records[i].value == value;
  }

  /** The three statuses: rows missing or too many; all rows there but a published tally different;
      or all rows there and all tallies equal.  A bill that is not matched keeps both sides. */
  lemma ReconciliationMeans(t: Tally, records: seq<Vote>)
    ensures var yes, no := |set i | 0 <= i < |records| && records[i].value == Yes|, |set i | 0 <= i < |records| && records[i].value == No|;
            var abstain, absent := |set i | 0 <= i < |records| && records[i].value == Abstain|,
                                   |set i | 0 <= i < |records| && records[i].value == NotParticipating|;
            var equal, found, r := yes == t.yes && no == t.no && abstain == t.abstain, RowTally(yes, no, abstain, absent, |records|), Reconciled(t, records);
            && (|records| != t.members ==> r == Disagreed(MemberRowsIncomplete, t, found) && Reconcile(t, records) == MemberRowsIncomplete)
            && (|records| == t.members && !equal ==> r == Disagreed(SourceConflict, t, found) && Reconcile(t, records) == SourceConflict)
            && (|records| == t.members && equal ==> r == Agreed && Reconcile(t, records) == Matched)
  {
    hide Count;
    CountIs(records, Yes);
    CountIs(records, No);
    CountIs(records, Abstain);
    CountIs(records, NotParticipating);
  }

  /** On a validated bill, MATCHED pins all four counts: the members who took part are the
      published vote total and the rest are recorded as not participating. */
  lemma MatchedMeans(scope: Scope, t: Tally, records: seq<Vote>)
    requires ValidTally(scope, t)
    ensures Reconcile(t, records).Matched? <==>
              && Count(records, Yes) == t.yes && Count(records, No) == t.no && Count(records, Abstain) == t.abstain
              && Count(records, NotParticipating) == t.members - t.votes
  {
    CountsAddUp(records);
  }

  // ---------------------------------------------------------------- one bill

  predicate FitsBill(scope: Scope, bill: Key, b: Ballot) {
    && b.total <= scope.memberPageSize && |b.records| == b.total
    && (forall i | 0 <= i < |b.records| :: b.records[i].bill == bill && b.records[i].age == scope.age)
    && (forall i, j | 0 <= i < j < |b.records| :: b.records[i].member != b.records[j].member)
  }

  function VoteKey(v: Vote): Key { v.bill + ":" + v.member }

  function VoteRows(b: Ballot, r: Reconciliation): seq<(Key, VoteRow)> {
    seq(|b.records|, i requires 0 <= i < |b.records| => (VoteKey(b.records[i]), VoteRow(b.records[i], r)))
  }

  function BillStep(scope: Scope, u: seq<Summary>, pos: nat, s: Exceptions, b: Ballot): Option<Accepted<Exceptions, VoteRow>> {
    if pos >= |u| || !FitsBill(scope, u[pos].0, b) then None
    else
      var r := Reconciled(u[pos].1, b.records);
      Some(Accepted(0, if r.Disagreed? then s[u[pos].0 := r.status] else s, VoteRows(b, r)))
  }

  function VoteLane(scope: Scope): Rules<seq<Summary>, Exceptions, Ballot, VoteRow> {
    Rules(Lane("assembly_plenary_roll_call_votes", scope.key), map["source_contract" := "assembly_term_plenary_roll_call_votes"],
          StartsFresh, (u: seq<Summary>) => AcceptsUniverse(scope, u), (u: seq<Summary>) => |u|,
          (u: seq<Summary>) => Paging.Pages(|u|, scope.summaryPageSize),
          map[], (u: seq<Summary>, pos: nat, s: Exceptions, b: Ballot) => BillStep(scope, u, pos, s, b),
          (c: nat, s: Exceptions) => true, (u: seq<Summary>, s: Exceptions) => true)
  }

  /** A ballot is accepted exactly when it fits one page, carries its announced rows, and all of them
      are of the bill and the age, one per member. */
  lemma BallotIsAcceptedIff(scope: Scope, u: seq<Summary>, at: Place<Exceptions, VoteRow>, b: Ballot)
    ensures Next(VoteLane(scope), u, at, Event(b, true)).Some? <==>
              && at.cursor < |u| && b.total <= scope.memberPageSize && |b.records| == b.total
              && (forall v :: v in b.records ==> v.bill == u[at.cursor].0 && v.age == scope.age)
              && (forall i, j :: 0 <= i < j < |b.records| ==> b.records[i].member != b.records[j].member)
  {
  }

  function Sizes(history: seq<Event<Ballot>>): seq<nat> {
    seq(|history|, i requires 0 <= i < |history| => |history[i].item.records|)
  }

  /** Every vote of every accepted ballot is observed under its bill and member, with its bill's
      reconciliation, and nothing else is observed. */
  ghost predicate BallotsObserved(u: seq<Summary>, history: seq<Event<Ballot>>, at: Place<Exceptions, VoteRow>) {
    && at.cursor == |history| <= |u| && |at.noted| == Total(Sizes(history))
    && forall i, j :: 0 <= i < |history| && 0 <= j < |history[i].item.records| ==>
         var b := history[i].item;
         (u[i].0 + ":" + b.records[j].member, VoteRow(b.records[j], Reconciled(u[i].1, b.records))) in at.noted
  }

  lemma StepObservesBallot(scope: Scope, u: seq<Summary>, history: seq<Event<Ballot>>, at: Place<Exceptions, VoteRow>, b: Ballot)
    requires BallotsObserved(u, history, at) && Next(VoteLane(scope), u, at, Event(b, true)).Some?
    ensures BallotsObserved(u, history + [Event(b, true)], Next(VoteLane(scope), u, at, Event(b, true)).value)
  {
    hide Reconciled;
    var longer, next, n := history + [Event(b, true)], Next(VoteLane(scope), u, at, Event(b, true)).value, |history|;
    var rows := VoteRows(b, Reconciled(u[n].1, b.records));
    assert Sizes(longer)[..n] == Sizes(history);
    forall i, j | 0 <= i < |longer| && 0 <= j < |longer[i].item.records|
      ensures (u[i].0 + ":" + longer[i].item.records[j].member,
               VoteRow(longer[i].item.records[j], Reconciled(u[i].1, longer[i].item.records))) in next.noted
    {
      if i == n { assert rows[j] in rows; } else { assert longer[i] == history[i]; }
    }
  }

  lemma {:induction false} BallotsAreObserved(scope: Scope, u: seq<Summary>, history: seq<Event<Ballot>>)
    requires Replay(VoteLane(scope), u, history).Some?
    ensures BallotsObserved(u, history, Replay(VoteLane(scope), u, history).value)
  {
    hide BallotsObserved, BillStep;
    if history == [] {
      assert BallotsObserved(u, [], Place(0, map[], [])) by { NoBallotsYet(u); }
    } else {
      var n := |history| - 1;
      BallotsAreObserved(scope, u, history[..n]);
      var before, e := Replay(VoteLane(scope), u, history[..n]).value, history[n];
      StepIsSingle(scope, u, before.cursor, before.state, e.item);
      StepObservesBallot(scope, u, history[..n], before, e.item);
      assert history == history[..n] + [Event(e.item, true)];
    }
  }

  lemma NoBallotsYet(u: seq<Summary>)
    ensures BallotsObserved(u, [], Place(0, map[], []))
  {
  }

  /** `s` holds exactly the bills before the cursor whose rows do not match, with their status. */
  ghost predicate ExactExceptions(u: seq<Summary>, history: seq<Event<Ballot>>, c: nat, s: Exceptions) {
    && c == |history| <= |u|
    && (forall i :: 0 <= i < c ==>
          var status := Reconcile(u[i].1, history[i].item.records);
          if status.Matched? then u[i].0 !in s else u[i].0 in s && s[u[i].0] == status)
    && (forall key :: key in s ==> exists i :: 0 <= i < c && u[i].0 == key)
  }

  lemma StepKeepsExceptions(scope: Scope, u: seq<Summary>, history: seq<Event<Ballot>>, s: Exceptions, b: Ballot)
    requires AcceptsUniverse(scope, u) && ExactExceptions(u, history, |history|, s) && |history| < |u|
    requires BillStep(scope, u, |history|, s, b).Some?
    ensures ExactExceptions(u, history + [Event(b, true)], |history| + 1, BillStep(scope, u, |history|, s, b).value.after)
  {
    hide Reconcile, Ascending, FitsBill;
    var longer := history + [Event(b, true)];
    assert forall i :: 0 <= i < |history| ==> longer[i] == history[i];
  }

  /** At every bill checkpoint, across budgets, interruptions and resumes, the exception map is
      exact: the non-matched bills among the first `cursor` in bill-id order, and no others. */
  lemma {:induction false} ExceptionsAtEveryCursor(scope: Scope, u: seq<Summary>, history: seq<Event<Ballot>>)
    requires AcceptsUniverse(scope, u) && Replay(VoteLane(scope), u, history).Some?
    ensures var at := Replay(VoteLane(scope), u, history).value;
            ExactExceptions(u, history, at.cursor, at.state)
  {
    hide BillStep, ExactExceptions, AcceptsUniverse;
    if history == [] {
      NoExceptionsYet(u);
    } else {
      var n := |history| - 1;
      var before, e := Replay(VoteLane(scope), u, history[..n]).value, history[n];
      ExceptionsAtEveryCursor(scope, u, history[..n]);
      assert before.cursor == n by { CursorIsLength(u, history[..n], before.cursor, before.state); }
      StepIsSingle(scope, u, before.cursor, before.state, e.item);
      StepKeepsExceptions(scope, u, history[..n], before.state, e.item);
      assert history == history[..n] + [Event(e.item, true)];
    }
  }

  lemma NoExceptionsYet(u: seq<Summary>)
    ensures ExactExceptions(u, [], 0, map[])
  {
  }

  lemma CursorIsLength(u: seq<Summary>, history: seq<Event<Ballot>>, c: nat, s: Exceptions)
    requires ExactExceptions(u, history, c, s)
    ensures c == |history|
  {
  }

  lemma StepIsSingle(scope: Scope, u: seq<Summary>, pos: nat, s: Exceptions, b: Ballot)
    ensures BillStep(scope, u, pos, s, b).Some? ==> BillStep(scope, u, pos, s, b).value.leading == 0 && pos < |u|
  {
  }

  /** The stored checkpoint after any sequence of runs: its exception map is exact for some
      ballots that were accepted, one per bill before the cursor, whose rows are all stored. */
  lemma StoredExceptionsAreExact(scope: Scope, db: CursorDb<seq<Summary>, Exceptions, VoteRow>, attempts: seq<Attempt<seq<Summary>, Ballot>>)
    returns (ballots: seq<Event<Ballot>>)
    requires VoteLane(scope).lane !in db.checkpoints
    ensures var after, lane := Chain(VoteLane(scope), db, attempts), VoteLane(scope).lane;
            lane in after.checkpoints ==>
              var ck := after.checkpoints[lane];
              && ExactExceptions(ck.meta.universe, ballots, ck.cursor, ck.meta.state)
              && Replay(VoteLane(scope), ck.meta.universe, ballots).Some?
              && BallotsObserved(ck.meta.universe, ballots, Replay(VoteLane(scope), ck.meta.universe, ballots).value)
              && Recorded(after.rows, lane, Replay(VoteLane(scope), ck.meta.universe, ballots).value.noted)
  {
    hide Enumerate, Replay, Sourced, ExactExceptions, AcceptsUniverse, BallotsObserved;
    var any := (u: seq<Summary>, p: nat, b: Ballot) => true;
    ballots := ChainIsDescribed(VoteLane(scope), db, attempts, any);
    var after, lane := Chain(VoteLane(scope), db, attempts), VoteLane(scope).lane;
    if lane in after.checkpoints {
      ExceptionsAtEveryCursor(scope, after.checkpoints[lane].meta.universe, ballots);
      BallotsAreObserved(scope, after.checkpoints[lane].meta.universe, ballots);
    }
  }

  /** Crash/resume equivalence: any chain of interruptions, budgets and resumes that reaches the
      last bill leaves the exceptions and the stored votes of one uninterrupted run. */
  lemma CrashResume(scope: Scope, u: seq<Summary>, ballots: Items<Ballot>, db: CursorDb<seq<Summary>, Exceptions, VoteRow>,
                    attempts: seq<Attempt<seq<Summary>, Ballot>>)
    requires u != [] && VoteLane(scope).lane !in db.checkpoints
    requires forall a :: a in attempts ==> Serves(u, ballots, a.world)
    requires EndsAt(VoteLane(scope), u, Chain(VoteLane(scope), db, attempts))
    ensures var v := Enumerate(VoteLane(scope), db, false, None, Smooth(u, ballots));
            v.ending.Complete? && SameOutcome(VoteLane(scope).lane, v.db, Chain(VoteLane(scope), db, attempts))
  {
    hide Enumerate, Chain, AcceptsUniverse, FitsBill, VoteRows;
    SingleCommitsRepeat(VoteLane(scope), u, ballots);
    CrashResumeEquivalence(VoteLane(scope), u, ballots, db, attempts);
  }

  /** Without a checkpoint a resume is a fresh run. */
  lemma ResumeWithoutCheckpoint(scope: Scope, db: CursorDb<seq<Summary>, Exceptions, VoteRow>, budget: Option<nat>, world: World<seq<Summary>, Ballot>)
    requires VoteLane(scope).lane !in db.checkpoints
    ensures Enumerate(VoteLane(scope), db, true, budget, world) == Enumerate(VoteLane(scope), db, false, budget, world)
  {
    hide Enumerate;
    WithoutCheckpoint(VoteLane(scope), db, budget, world);
  }

  /** An uninterrupted run makes one commit for each summary page and one for each bill. */
  lemma UninterruptedCommits(scope: Scope, u: seq<Summary>, ballots: Items<Ballot>, db: CursorDb<seq<Summary>, Exceptions, VoteRow>)
    requires Passes(VoteLane(scope), u, ballots) && u != []
    ensures var w := Enumerate(VoteLane(scope), db, false, None, Smooth(u, ballots));
            w.ending == Complete && Paging.ArePages(|u|, scope.summaryPageSize, w.commits - |u|)
  {
    hide Enumerate, Course, AcceptsUniverse, FitsBill, VoteRows, Paging.Pages, CommitsThrough;
    RunSails(VoteLane(scope), u, ballots, db, false, 0, None);
    SingleCommitsCount(VoteLane(scope), u, ballots, |u|);
    NoCommitsYet(VoteLane(scope), u, ballots);
    Paging.PagesIff(|u|, scope.summaryPageSize, Paging.Pages(|u|, scope.summaryPageSize));
  }
}
