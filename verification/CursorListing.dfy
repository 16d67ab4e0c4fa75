/** Cursor lanes against a provider that does not change: one universe, one item per position.
    Interruptions and budgets then make no difference to where a lane ends up. */
module CursorListing {
  import opened Prelude
  import opened Store
  import opened CursorLane
  import opened CursorSafety
  import Paging

  type Items<F> = nat -> F

  /** The place after the first `c` items, each finished without interruption. */
  ghost function Course<U, S, F, C>(rules: Rules<U, S, F, C>, u: U, items: Items<F>, c: nat): Option<Place<S, C>> {
    if c == 0 then Some(Place(0, rules.init, []))
    else
      var before := Course(rules, u, items, c - 1);
      if before.None? then None else Next(rules, u, before.value, Event(items(c - 1), true))
  }

  /** A step of the course that is interrupted among its leading commits can be taken again
      from the state it left, with the same result. */
  ghost predicate Repeatable<U, S, F, C>(rules: Rules<U, S, F, C>, u: U, items: Items<F>) {
    forall c :: 0 <= c < rules.size(u) && Course(rules, u, items, c).Some? ==>
      var step := rules.step(u, c, Course(rules, u, items, c).value.state, items(c));
      step.Some? && step.value.leading > 0 ==> rules.step(u, c, step.value.after, items(c)) == step
  }

  /** What the lane makes of the item at `c` in state `s`. */
  ghost function Taken<U, S, F, C>(rules: Rules<U, S, F, C>, u: U, items: Items<F>, c: nat, s: S): Option<Accepted<S, C>> {
    rules.step(u, c, s, items(c))
  }

  /** A lane whose items are one commit each has no step to interrupt. */
  lemma SingleCommitsRepeat<U, S(!new), F, C>(rules: Rules<U, S, F, C>, u: U, items: Items<F>)
    requires forall c: nat, s: S :: c < rules.size(u) && Taken(rules, u, items, c, s).Some? ==> Taken(rules, u, items, c, s).value.leading == 0
    ensures Repeatable(rules, u, items)
  {
    hide Course;
    forall c | 0 <= c < rules.size(u) && Course(rules, u, items, c).Some?
      ensures var step := rules.step(u, c, Course(rules, u, items, c).value.state, items(c)); step.Some? ==> step.value.leading == 0
    {
      assert Taken(rules, u, items, c, Course(rules, u, items, c).value.state) == rules.step(u, c, Course(rules, u, items, c).value.state, items(c));
    }
  }

  /** `at` is on the course, or stands at a step of it that was interrupted. */
  ghost predicate OnCourse<U, S, F, C>(rules: Rules<U, S, F, C>, u: U, items: Items<F>, at: Place<S, C>) {
    var own := Course(rules, u, items, at.cursor);
    && own.Some? && at.noted == own.value.noted && own.value.cursor == at.cursor
    && (at.state == own.value.state || Interrupted(rules, u, items, own.value, at.state))
  }

  ghost predicate Interrupted<U, S, F, C>(rules: Rules<U, S, F, C>, u: U, items: Items<F>, own: Place<S, C>, s: S) {
    && own.cursor < rules.size(u)
    && var step := rules.step(u, own.cursor, own.state, items(own.cursor));
       step.Some? && step.value.leading > 0 && s == step.value.after
  }

  ghost function Only<U, F>(u: U, items: Items<F>): (U, nat, F) -> bool {
    (v, p: nat, f) => v == u && f == items(p)
  }

  lemma {:induction false} CourseCursor<U, S, F, C>(rules: Rules<U, S, F, C>, u: U, items: Items<F>, c: nat)
    requires Course(rules, u, items, c).Some?
    ensures Course(rules, u, items, c).value.cursor == c <= rules.size(u)
  {
    if c > 0 { CourseCursor(rules, u, items, c - 1); }
  }

  lemma {:induction false} CoursePrefix<U, S, F, C>(rules: Rules<U, S, F, C>, u: U, items: Items<F>, c: nat, n: nat)
    requires c <= n && Course(rules, u, items, n).Some?
    ensures Course(rules, u, items, c).Some?
    ensures Course(rules, u, items, c).value.noted <= Course(rules, u, items, n).value.noted
  {
    if c < n { CoursePrefix(rules, u, items, c, n - 1); }
  }

  /** One more item from an on-course place stays on course, interrupted or not. */
  lemma StepStaysOnCourse<U, S, F, C>(rules: Rules<U, S, F, C>, u: U, items: Items<F>, at: Place<S, C>, finished: bool)
    requires Repeatable(rules, u, items) && OnCourse(rules, u, items, at)
    requires Next(rules, u, at, Event(items(at.cursor), finished)).Some?
    ensures OnCourse(rules, u, items, Next(rules, u, at, Event(items(at.cursor), finished)).value)
  {
    hide Course;
    CourseMore(rules, u, items, at.cursor);
  }

  lemma CourseMore<U, S, F, C>(rules: Rules<U, S, F, C>, u: U, items: Items<F>, c: nat)
    requires Course(rules, u, items, c).Some?
    ensures Course(rules, u, items, c + 1) == Next(rules, u, Course(rules, u, items, c).value, Event(items(c), true))
  {
  }

  /** Whatever was interrupted on the way, a history over the same items stands on the course. */
  lemma {:induction false} HistoryIsOnCourse<U, S, F, C>(rules: Rules<U, S, F, C>, u: U, items: Items<F>, history: seq<Event<F>>)
    requires Repeatable(rules, u, items) && Replay(rules, u, history).Some? && Sourced(rules, u, history, Only(u, items))
    ensures OnCourse(rules, u, items, Replay(rules, u, history).value)
  {
    hide Repeatable, OnCourse, Next;
    if history == [] {
      StartIsOnCourse(rules, u, items);
    } else {
      var n := |history| - 1;
      HistoryIsOnCourse(rules, u, items, history[..n]);
      StepStaysOnCourse(rules, u, items, Replay(rules, u, history[..n]).value, history[n].finished);
    }
  }

  lemma StartIsOnCourse<U, S, F, C>(rules: Rules<U, S, F, C>, u: U, items: Items<F>)
    ensures OnCourse(rules, u, items, Place(0, rules.init, []))
  {
  }

  // ---------------------------------------------------------------- nothing else is stored

  ghost function Whole<U, S, F, C>(rules: Rules<U, S, F, C>, u: U, items: Items<F>): set<Observation<C>> {
    var all := Course(rules, u, items, rules.size(u));
    if all.Some? then Stored(InLane(rules.lane, all.value.noted)) else {}
  }

  lemma {:induction false} DriveStores<U, S, F, C>(rules: Rules<U, S, F, C>, u: U, items: Items<F>, db: CursorDb<U, S, C>, run: nat, at: Place<S, C>,
                                                   budget: Option<nat>, world: World<U, F>, n: nat)
    requires Open(db, run, rules.lane) && Repeatable(rules, u, items) && OnCourse(rules, u, items, at)
    requires world.universe == Got(u) && Draws(world, Only(u, items)) && Course(rules, u, items, rules.size(u)).Some?
    ensures Stored(Drive(rules, u, db, run, at.cursor, at.state, budget, world, n).db.rows) <= Stored(db.rows) + Whole(rules, u, items)
    decreases rules.size(u) - at.cursor
  {
    hide WriteStep, OnCourse, Repeatable, Stored, Whole;
    var pos := at.cursor;
    if pos < rules.size(u) && budget != Some(0) && world.item(pos).Got? && rules.step(u, pos, at.state, world.item(pos).value).Some? {
      var a := rules.step(u, pos, at.state, items(pos)).value;
      var w := WriteStep(rules, u, db, run, pos, a, world.persist, n);
      var advanced := StepCommits(rules, u, db, run, pos, a, world.persist, n);
      var next := Place(pos + 1, a.after, at.noted + a.observations);
      StepStaysOnCourse(rules, u, items, at, true);
      ObservedIsWhole(rules, u, items, next, a.observations);
      if w.ending.Going? { DriveStores(rules, u, items, w.db, run, next, Spend(budget), world, w.commits); }
    }
  }

  lemma ObservedIsWhole<U, S, F, C>(rules: Rules<U, S, F, C>, u: U, items: Items<F>, at: Place<S, C>, last: seq<(Key, C)>)
    requires OnCourse(rules, u, items, at) && at.cursor <= rules.size(u) && Course(rules, u, items, rules.size(u)).Some?
    requires |last| <= |at.noted| && at.noted[|at.noted| - |last|..] == last
    ensures Stored(InLane(rules.lane, last)) <= Whole(rules, u, items)
  {
    hide Course;
    CoursePrefix(rules, u, items, at.cursor, rules.size(u));
    var all := Course(rules, u, items, rules.size(u)).value.noted;
    var from := |at.noted| - |last|;
    forall o | o in Stored(InLane(rules.lane, last)) ensures o in Stored(InLane(rules.lane, all)) {
      var i :| 0 <= i < |last| && InLane(rules.lane, last)[i] == o;
      assert last[i] == at.noted[from + i] == all[from + i];
      assert InLane(rules.lane, all)[from + i] == o;
    }
  }

  /** The lane is unstarted or stands on the course of `u`, and only its items were added. */
  ghost predicate Tracks<U, S, F, C>(rules: Rules<U, S, F, C>, u: U, items: Items<F>, origin: CursorDb<U, S, C>, db: CursorDb<U, S, C>,
                                     history: seq<Event<F>>) {
    && Describes(rules, db, Only(u, items), history)
    && (rules.lane in db.checkpoints ==> db.checkpoints[rules.lane].meta.universe == u)
    && Stored(db.rows) <= Stored(origin.rows) + Whole(rules, u, items) && origin.rows <= db.rows
  }

  /** Every universe received is `u` and every item received is the one at its position. */
  ghost predicate Serves<U, F>(u: U, items: Items<F>, world: World<U, F>) {
    (world.universe.Got? ==> world.universe.value == u) && Draws(world, Only(u, items))
  }

  lemma RunTracks<U, S, F, C>(rules: Rules<U, S, F, C>, u: U, items: Items<F>, origin: CursorDb<U, S, C>, db: CursorDb<U, S, C>,
                              a: Attempt<U, F>, history: seq<Event<F>>) returns (longer: seq<Event<F>>)
    requires Repeatable(rules, u, items) && Tracks(rules, u, items, origin, db, history) && Serves(u, items, a.world)
    requires Course(rules, u, items, rules.size(u)).Some?
    ensures Tracks(rules, u, items, origin, Enumerate(rules, db, a.resume, a.budget, a.world).db, longer)
  {
    hide Enumerate, Describes, Whole, Stored, Repeatable, Draws;
    longer := RunIsSafe(rules, db, a, Only(u, items), history);
    RunStores(rules, u, items, db, a, history);
  }

  lemma RunStores<U, S, F, C>(rules: Rules<U, S, F, C>, u: U, items: Items<F>, db: CursorDb<U, S, C>, a: Attempt<U, F>, history: seq<Event<F>>)
    requires Repeatable(rules, u, items) && Describes(rules, db, Only(u, items), history) && Serves(u, items, a.world)
    requires Course(rules, u, items, rules.size(u)).Some?
    ensures Stored(Enumerate(rules, db, a.resume, a.budget, a.world).db.rows) <= Stored(db.rows) + Whole(rules, u, items)
  {
    hide Drive, WriteBlank, Stored, Whole, Repeatable, OnCourse, Replay, Draws;
    var begun: CursorDb<U, S, C> := StartRun(db, rules.lane);
    if !RefusedEarly(rules, db, a.resume) && a.world.universe.Got? && rules.accepts(u) {
      match StartOf(rules, db, a.resume, u)
      case Refuse =>
      case Resume(cursor, state) =>
        HistoryIsOnCourse(rules, u, items, history);
        DriveStores(rules, u, items, begun, |db.runs|, Replay(rules, u, history).value, a.budget, a.world, 0);
      case Fresh =>
        var meta := CursorMeta(rules.labels, u, rules.init);
        var o := WriteBlank(begun, |db.runs|, rules.lane, rules.opening(u), 0, meta, a.world.persist, 0);
        BlankCommits(begun, |db.runs|, rules.lane, rules.opening(u), 0, meta, a.world.persist, 0);
        StartIsOnCourse(rules, u, items);
        if o.ending.Going? { DriveStores(rules, u, items, o.db, |db.runs|, Place(0, rules.init, []), a.budget, a.world, o.commits); }
    }
  }

  lemma {:induction false} ChainTracks<U, S, F, C>(rules: Rules<U, S, F, C>, u: U, items: Items<F>, db: CursorDb<U, S, C>, attempts: seq<Attempt<U, F>>)
    returns (history: seq<Event<F>>)
    requires Repeatable(rules, u, items) && rules.lane !in db.checkpoints && Course(rules, u, items, rules.size(u)).Some?
    requires forall a :: a in attempts ==> Serves(u, items, a.world)
    ensures Tracks(rules, u, items, db, Chain(rules, db, attempts), history)
  {
    hide Enumerate, Repeatable, Describes, Whole, Stored, Serves;
    if attempts == [] {
      history := [];
      NothingDescribed(rules, db, Only(u, items));
    } else {
      var n := |attempts| - 1;
      history := ChainTracks(rules, u, items, db, attempts[..n]);
      history := RunTracks(rules, u, items, db, Chain(rules, db, attempts[..n]), attempts[n], history);
    }
  }

  // ---------------------------------------------------------------- smooth runs

  function Smooth<U, F>(u: U, items: Items<F>): World<U, F> {
    World(Got(u), (p: nat) => Got(items(p)), (n: nat) => Commits)
  }

  /** A universe and items that the lane accepts from beginning to end. */
  ghost predicate Passes<U, S, F, C>(rules: Rules<U, S, F, C>, u: U, items: Items<F>) {
    rules.accepts(u) && Course(rules, u, items, rules.size(u)).Some?
  }

  ghost predicate IsCovered<U, S, F, C>(rules: Rules<U, S, F, C>, u: U, items: Items<F>)
    requires Passes(rules, u, items)
  {
    rules.covered(u, Course(rules, u, items, rules.size(u)).value.state)
  }

  /** What is accepted and also passes the resume check at every cursor and the final check. */
  ghost predicate Sails<U, S, F, C>(rules: Rules<U, S, F, C>, u: U, items: Items<F>) {
    && Passes(rules, u, items) && IsCovered(rules, u, items)
    && forall c :: 0 <= c < rules.size(u) && Course(rules, u, items, c).Some? ==> rules.consistent(c, Course(rules, u, items, c).value.state)
  }

  lemma {:induction false} SmoothBlank<U, S, F, C>(db: CursorDb<U, S, C>, run: nat, lane: Lane, k: nat, cursor: nat, meta: CursorMeta<U, S>,
                                                   u: U, items: Items<F>, n: nat)
    requires Open(db, run, lane)
    ensures WriteBlank(db, run, lane, k, cursor, meta, Smooth(u, items).persist, n).ending.Going?
    decreases k
  {
    hide CommitOf;
    if k > 0 {
      var w := WriteOne(db, run, lane, [], cursor, meta, Smooth(u, items).persist, n);
      SmoothBlank(w.db, run, lane, k - 1, cursor, meta, u, items, w.commits);
    }
  }

  /** The commits of the first `c` items of the course. */
  ghost function CommitsThrough<U, S, F, C>(rules: Rules<U, S, F, C>, u: U, items: Items<F>, c: nat): nat {
    if c == 0 || Course(rules, u, items, c - 1).None? then 0
    else
      var step := rules.step(u, c - 1, Course(rules, u, items, c - 1).value.state, items(c - 1));
      CommitsThrough(rules, u, items, c - 1) + if step.Some? then step.value.leading + 1 else 0
  }

  lemma CommitsMore<U, S, F, C>(rules: Rules<U, S, F, C>, u: U, items: Items<F>, c: nat)
    requires Course(rules, u, items, c).Some? && rules.step(u, c, Course(rules, u, items, c).value.state, items(c)).Some?
    ensures CommitsThrough(rules, u, items, c + 1)
            == CommitsThrough(rules, u, items, c) + rules.step(u, c, Course(rules, u, items, c).value.state, items(c)).value.leading + 1
  {
  }

  lemma NoCommitsYet<U, S, F, C>(rules: Rules<U, S, F, C>, u: U, items: Items<F>)
    ensures CommitsThrough(rules, u, items, 0) == 0
  {
  }

  /** Where every item is one commit, `c` items are `c` commits. */
  lemma {:induction false} SingleCommitsCount<U, S(!new), F, C>(rules: Rules<U, S, F, C>, u: U, items: Items<F>, c: nat)
    requires forall p: nat, s: S :: p < rules.size(u) && Taken(rules, u, items, p, s).Some? ==> Taken(rules, u, items, p, s).value.leading == 0
    requires Course(rules, u, items, c).Some? && c <= rules.size(u)
    ensures CommitsThrough(rules, u, items, c) == c
  {
    if c > 0 {
      SingleCommitsCount(rules, u, items, c - 1);
      var s := Course(rules, u, items, c - 1).value.state;
      CourseCursor(rules, u, items, c - 1);
      assert Taken(rules, u, items, c - 1, s) == rules.step(u, c - 1, s, items(c - 1));
    }
  }

  /** How far a run gets from position `pos` when nothing fails. */
  function Reach(size: nat, pos: nat, budget: Option<nat>): nat {
    if budget.Some? && pos + budget.value < size then pos + budget.value else size
  }

  /** How a run without failures ends. */
  ghost function SmoothEnding<U, S, F, C>(rules: Rules<U, S, F, C>, u: U, items: Items<F>, pos: nat, budget: Option<nat>): Ending
    requires Passes(rules, u, items)
  {
    if budget.Some? && pos + budget.value < rules.size(u) then BudgetReached
    else if IsCovered(rules, u, items) then Complete else Raised
  }

  ghost predicate StandsAt<U, S, F, C>(rules: Rules<U, S, F, C>, u: U, items: Items<F>, db: CursorDb<U, S, C>, c: nat) {
    && rules.lane in db.checkpoints && Course(rules, u, items, c).Some?
    && db.checkpoints[rules.lane].cursor == c
    && db.checkpoints[rules.lane].meta == CursorMeta(rules.labels, u, Course(rules, u, items, c).value.state)
  }

  lemma {:induction false} DriveSails<U, S, F, C>(rules: Rules<U, S, F, C>, u: U, items: Items<F>, db: CursorDb<U, S, C>, run: nat, pos: nat,
                                                  budget: Option<nat>, n: nat)
    requires Open(db, run, rules.lane) && Passes(rules, u, items) && pos <= rules.size(u)
    requires Course(rules, u, items, pos).Some?
    ensures var w := Drive(rules, u, db, run, pos, Course(rules, u, items, pos).value.state, budget, Smooth(u, items), n);
            var c := Reach(rules.size(u), pos, budget);
            && (c == pos ==> w.db == db) && (c > pos ==> StandsAt(rules, u, items, w.db, c) && w.commits > n)
            && w.commits == n + CommitsThrough(rules, u, items, c) - CommitsThrough(rules, u, items, pos)
            && w.commits >= n && w.ending == SmoothEnding(rules, u, items, pos, budget)
    decreases rules.size(u) - pos
  {
    hide WriteOne, WriteBlank, Stored, Course, CommitsThrough;
    CourseCursor(rules, u, items, pos);
    CourseMore(rules, u, items, pos);
    if pos < rules.size(u) && budget != Some(0) {
      CoursePrefix(rules, u, items, pos + 1, rules.size(u));
      CommitsMore(rules, u, items, pos);
      var own := Course(rules, u, items, pos).value;
      var a := rules.step(u, pos, own.state, items(pos)).value;
      var meta := CursorMeta(rules.labels, u, a.after);
      SmoothBlank(db, run, rules.lane, a.leading, pos, meta, u, items, n);
      BlankCommits(db, run, rules.lane, a.leading, pos, meta, Smooth(u, items).persist, n);
      var b := WriteBlank(db, run, rules.lane, a.leading, pos, meta, Smooth(u, items).persist, n);
      OneCommit(b.db, run, rules.lane, a.observations, pos + 1, meta, Smooth(u, items).persist, b.commits);
      SmoothOne(b.db, run, rules.lane, a.observations, pos + 1, meta, u, items, b.commits);
      var w := WriteStep(rules, u, db, run, pos, a, Smooth(u, items).persist, n);
      assert StandsAt(rules, u, items, w.db, pos + 1);
      DriveSails(rules, u, items, w.db, run, pos + 1, Spend(budget), w.commits);
    }
  }

  lemma SmoothOne<U, S, F, C>(db: CursorDb<U, S, C>, run: nat, lane: Lane, page: seq<(Key, C)>, cursor: nat, meta: CursorMeta<U, S>,
                              u: U, items: Items<F>, n: nat)
    requires Open(db, run, lane)
    ensures WriteOne(db, run, lane, page, cursor, meta, Smooth(u, items).persist, n).ending.Going?
  {
    hide CommitOf;
  }

  /** A run without failures, fresh or resumed on course, gets exactly as far as its budget allows. */
  lemma RunSails<U, S, F, C>(rules: Rules<U, S, F, C>, u: U, items: Items<F>, db: CursorDb<U, S, C>, resume: bool, pos: nat, budget: Option<nat>)
    requires Passes(rules, u, items) && rules.size(u) > 0 && (budget.Some? ==> budget.value > 0)
    requires if resume then pos < rules.size(u) && StandsAt(rules, u, items, db, pos) && rules.consistent(pos, db.checkpoints[rules.lane].meta.state)
             else pos == 0
    ensures var w := Enumerate(rules, db, resume, budget, Smooth(u, items));
            && StandsAt(rules, u, items, w.db, Reach(rules.size(u), pos, budget)) && |w.db.runs| == |db.runs| + 1
            && w.ending == SmoothEnding(rules, u, items, pos, budget)
            && w.commits == (if resume then 0 else rules.opening(u))
                            + CommitsThrough(rules, u, items, Reach(rules.size(u), pos, budget)) - CommitsThrough(rules, u, items, pos)
            && w.db.runs[|db.runs|].status == (if w.ending.Complete? then Success else Partial)
  {
    hide Drive, WriteBlank, Stored;
    var begun: CursorDb<U, S, C> := StartRun(db, rules.lane);
    EnumerateIsBody(rules, db, resume, budget, Smooth(u, items));
    if resume {
      DriveSails(rules, u, items, begun, |db.runs|, pos, budget, 0);
      RunsKept(rules, u, begun, |db.runs|, pos, Course(rules, u, items, pos).value.state, budget, Smooth(u, items), 0);
    } else {
      var meta := CursorMeta(rules.labels, u, rules.init);
      SmoothBlank(begun, |db.runs|, rules.lane, rules.opening(u), 0, meta, u, items, 0);
      BlankCommits(begun, |db.runs|, rules.lane, rules.opening(u), 0, meta, Smooth(u, items).persist, 0);
      var o := WriteBlank(begun, |db.runs|, rules.lane, rules.opening(u), 0, meta, Smooth(u, items).persist, 0);
      DriveSails(rules, u, items, o.db, |db.runs|, 0, budget, o.commits);
      RunsKept(rules, u, o.db, |db.runs|, 0, rules.init, budget, Smooth(u, items), o.commits);
    }
  }

  /** The commits of a fresh run that nothing stops. */
  lemma SmoothCommits<U, S, F, C>(rules: Rules<U, S, F, C>, u: U, items: Items<F>, db: CursorDb<U, S, C>)
    requires Passes(rules, u, items) && rules.size(u) > 0
    ensures Enumerate(rules, db, false, None, Smooth(u, items)).commits == rules.opening(u) + CommitsThrough(rules, u, items, rules.size(u))
  {
    hide Enumerate, Passes, StandsAt, IsCovered, Course;
    RunSails(rules, u, items, db, false, 0, None);
  }

  lemma {:induction false} RunsKept<U, S, F, C>(rules: Rules<U, S, F, C>, u: U, db: CursorDb<U, S, C>, run: nat, pos: nat, s: S,
                                                budget: Option<nat>, world: World<U, F>, n: nat)
    requires Open(db, run, rules.lane)
    ensures |Drive(rules, u, db, run, pos, s, budget, world, n).db.runs| == |db.runs|
    decreases rules.size(u) - pos
  {
    hide WriteStep, Stored;
    if pos < rules.size(u) && budget != Some(0) && world.item(pos).Got? && rules.step(u, pos, s, world.item(pos).value).Some? {
      var a := rules.step(u, pos, s, world.item(pos).value).value;
      var w := WriteStep(rules, u, db, run, pos, a, world.persist, n);
      var _ := StepCommits(rules, u, db, run, pos, a, world.persist, n);
      if w.ending.Going? { RunsKept(rules, u, w.db, run, pos + 1, a.after, Spend(budget), world, w.commits); }
    }
  }

  // ---------------------------------------------------------------- the two main results

  /** The checkpoint stands at the end of the universe. */
  ghost predicate EndsAt<U, S, F, C>(rules: Rules<U, S, F, C>, u: U, db: CursorDb<U, S, C>) {
    rules.lane in db.checkpoints && db.checkpoints[rules.lane].cursor == rules.size(u)
  }

  /** The two stores hold the same checkpoint, up to the run that wrote it, and the same observations. */
  ghost predicate SameOutcome<U, S, C>(lane: Lane, a: CursorDb<U, S, C>, b: CursorDb<U, S, C>) {
    && lane in a.checkpoints && lane in b.checkpoints
    && a.checkpoints[lane].cursor == b.checkpoints[lane].cursor && a.checkpoints[lane].meta == b.checkpoints[lane].meta
    && Stored(a.rows) == Stored(b.rows)
  }

  /** Crash/resume equivalence.  From a lane without a checkpoint, against an unchanged provider,
      any chain of fresh runs, interruptions, budgets and resumes whose checkpoint reached the end
      of the universe left the same state and the same stored observations as one uninterrupted run. */
  lemma CrashResumeEquivalence<U, S, F, C>(rules: Rules<U, S, F, C>, u: U, items: Items<F>, db: CursorDb<U, S, C>, attempts: seq<Attempt<U, F>>)
    requires Repeatable(rules, u, items) && rules.size(u) > 0 && rules.lane !in db.checkpoints
    requires forall a :: a in attempts ==> Serves(u, items, a.world)
    requires EndsAt(rules, u, Chain(rules, db, attempts))
    ensures var v, w := Enumerate(rules, db, false, None, Smooth(u, items)), Chain(rules, db, attempts);
            SameOutcome(rules.lane, v.db, w) && (v.ending.Complete? <==> rules.covered(u, w.checkpoints[rules.lane].meta.state))
  {
    hide Enumerate, Repeatable, Stored, Course;
    var single := [Attempt(false, None, Smooth(u, items))];
    var v := Enumerate(rules, db, false, None, Smooth(u, items));
    assert single[..0] == [] && Chain(rules, db, single) == v.db;
    EndIsPassed(rules, u, items, db, attempts);
    RunSails(rules, u, items, db, false, 0, None);
    SmoothServes(u, items);
    var h := ChainTracks(rules, u, items, db, attempts);
    var h' := ChainTracks(rules, u, items, db, single);
    EndOfCourse(rules, u, items, db, Chain(rules, db, attempts), h);
    EndOfCourse(rules, u, items, db, v.db, h');
  }

  /** A chain that committed an item did so in the universe it was served. */
  lemma StartedIsServed<U, S, F, C>(rules: Rules<U, S, F, C>, u: U, items: Items<F>, db: CursorDb<U, S, C>, attempts: seq<Attempt<U, F>>)
    returns (history: seq<Event<F>>)
    requires rules.lane !in db.checkpoints && forall a :: a in attempts ==> Serves(u, items, a.world)
    requires rules.lane in Chain(rules, db, attempts).checkpoints && Chain(rules, db, attempts).checkpoints[rules.lane].cursor > 0
    ensures Chain(rules, db, attempts).checkpoints[rules.lane].meta.universe == u
    ensures Describes(rules, Chain(rules, db, attempts), Only(u, items), history)
  {
    hide Enumerate, Draws, Next;
    history := ChainIsDescribed(rules, db, attempts, Only(u, items));
  }

  /** A chain that stands at the end has had every item accepted. */
  lemma EndIsPassed<U, S, F, C>(rules: Rules<U, S, F, C>, u: U, items: Items<F>, db: CursorDb<U, S, C>, attempts: seq<Attempt<U, F>>)
    requires Repeatable(rules, u, items) && rules.size(u) > 0 && rules.lane !in db.checkpoints
    requires forall a :: a in attempts ==> Serves(u, items, a.world)
    requires EndsAt(rules, u, Chain(rules, db, attempts))
    ensures Passes(rules, u, items)
  {
    hide Enumerate, Repeatable, Draws, Replay, Sourced, Chain;
    var history := StartedIsServed(rules, u, items, db, attempts);
    HistoryIsOnCourse(rules, u, items, history);
  }

  lemma SmoothServes<U, F>(u: U, items: Items<F>)
    ensures Serves(u, items, Smooth(u, items))
  {
  }

  lemma EndOfCourse<U, S, F, C>(rules: Rules<U, S, F, C>, u: U, items: Items<F>, origin: CursorDb<U, S, C>, db: CursorDb<U, S, C>, history: seq<Event<F>>)
    requires Repeatable(rules, u, items) && Tracks(rules, u, items, origin, db, history) && Course(rules, u, items, rules.size(u)).Some?
    requires rules.lane in db.checkpoints && db.checkpoints[rules.lane].cursor == rules.size(u)
    ensures db.checkpoints[rules.lane].meta == CursorMeta(rules.labels, u, Course(rules, u, items, rules.size(u)).value.state)
    ensures Stored(db.rows) == Stored(origin.rows) + Whole(rules, u, items)
  {
    hide Repeatable, Replay, Course;
    HistoryIsOnCourse(rules, u, items, history);
    var noted := Course(rules, u, items, rules.size(u)).value.noted;
    forall o | o in Whole(rules, u, items) ensures o in db.rows {
      var i :| 0 <= i < |noted| && InLane(rules.lane, noted)[i] == o;
    }
  }

  /** `r` runs of budget `b`: one fresh, the others resumed. */
  function Budgeted<U, F>(u: U, items: Items<F>, b: nat, r: nat): seq<Attempt<U, F>> {
    seq(r, i => Attempt(i > 0, Some(b), Smooth(u, items)))
  }

  /** After `r` failure-free runs of budget b the cursor stands at min(n, r * b). */
  lemma {:induction false} BudgetedCursor<U, S, F, C>(rules: Rules<U, S, F, C>, u: U, items: Items<F>, db: CursorDb<U, S, C>, b: nat, r: nat)
    requires Sails(rules, u, items) && b > 0 && r > 0 && (r - 1) * b < rules.size(u)
    ensures var n, w := rules.size(u), Chain(rules, db, Budgeted(u, items, b, r));
            && StandsAt(rules, u, items, w, if r * b < n then r * b else n)
            && |w.runs| == |db.runs| + r && w.runs[|w.runs| - 1].status == if r * b < n then Partial else Success
  {
    hide Enumerate, Course;
    var runs := Budgeted(u, items, b, r);
    assert runs[..r - 1] == Budgeted(u, items, b, r - 1);
    assert r * b == (r - 1) * b + b;
    if r > 1 {
      assert (r - 1) * b == (r - 2) * b + b;
      BudgetedCursor(rules, u, items, db, b, r - 1);
    }
    RunSails(rules, u, items, Chain(rules, db, runs[..r - 1]), r > 1, (r - 1) * b, Some(b));
  }

  /** With budget b a universe of n items is finished by exactly ceil(n / b) runs: every run
      before the last ends PARTIAL and the last one SUCCESS. */
  lemma BudgetedRuns<U, S, F, C>(rules: Rules<U, S, F, C>, u: U, items: Items<F>, db: CursorDb<U, S, C>, b: nat, r: nat)
    requires Sails(rules, u, items) && b > 0 && rules.size(u) > 0 && 1 <= r <= Paging.Pages(rules.size(u), b)
    ensures var w := Chain(rules, db, Budgeted(u, items, b, r));
            && |w.runs| == |db.runs| + r
            && w.runs[|w.runs| - 1].status == if r < Paging.Pages(rules.size(u), b) then Partial else Success
    ensures var w := Chain(rules, db, Budgeted(u, items, b, r));
            r == Paging.Pages(rules.size(u), b) ==> StandsAt(rules, u, items, w, rules.size(u))
  {
    hide Paging.Pages, Sails, StandsAt, Enumerate;
    var n, last := rules.size(u), Paging.Pages(rules.size(u), b);
    Paging.PagesCover(n, b);
    LastBudget(n, b, last, r);
    BudgetedCursor(rules, u, items, db, b, r);
  }

  /** Every budget before the last one ends before `n`. */
  lemma LastBudget(n: nat, b: nat, last: nat, r: nat)
    requires (last - 1) * b < n <= last * b && 1 <= r <= last
    ensures (r - 1) * b < n && (r * b < n <==> r < last)
  {
    Paging.LessTimes(r - 1, last - 1, b);
    if r < last { Paging.LessTimes(r, last - 1, b); }
  }
}
