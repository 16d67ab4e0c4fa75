/** What a cursor lane's checkpoint means after any sequence of runs: it is the replay of a
    history of accepted items over one universe, and everything that history observed is stored. */
module CursorSafety {
  import opened Prelude
  import opened Store
  import opened CursorLane

  /** An accepted item whose step was finished, or interrupted after some of its leading commits. */
  datatype Event<F> = Event(item: F, finished: bool)

  datatype Place<S, C> = Place(cursor: nat, state: S, noted: seq<(Key, C)>)

  /** Where a history leads, or nothing when it contains a step the lane does not accept. */
  ghost function Replay<U, S, F, C>(rules: Rules<U, S, F, C>, u: U, history: seq<Event<F>>): Option<Place<S, C>> {
    if history == [] then Some(Place(0, rules.init, []))
    else
      var before, e := Replay(rules, u, history[..|history| - 1]), history[|history| - 1];
      if before.None? then None else Next(rules, u, before.value, e)
  }

  ghost function Next<U, S, F, C>(rules: Rules<U, S, F, C>, u: U, at: Place<S, C>, e: Event<F>): Option<Place<S, C>> {
    if at.cursor >= rules.size(u) then None
    else
      var step := rules.step(u, at.cursor, at.state, e.item);
      if step.None? then None
      else if e.finished then Some(Place(at.cursor + 1, step.value.after, at.noted + step.value.observations))
      else if step.value.leading > 0 then Some(Place(at.cursor, step.value.after, at.noted))
      else None
  }

  /** Every item of the history is one that `source` allows at its position. */
  ghost predicate Sourced<U, S, F, C>(rules: Rules<U, S, F, C>, u: U, history: seq<Event<F>>, source: (U, nat, F) -> bool) {
    history == []
    || (var init := history[..|history| - 1];
        Sourced(rules, u, init, source) && Replay(rules, u, init).Some?
        && source(u, Replay(rules, u, init).value.cursor, history[|history| - 1].item))
  }

  ghost predicate Draws<U, F>(world: World<U, F>, source: (U, nat, F) -> bool) {
    world.universe.Got? ==> forall p :: world.item(p).Got? ==> source(world.universe.value, p, world.item(p).value)
  }

  ghost predicate Recorded<C>(rows: seq<Observation<C>>, lane: Lane, noted: seq<(Key, C)>) {
    forall i :: 0 <= i < |noted| ==> Observation(lane, noted[i].0, noted[i].1) in rows
  }

  /** The lane's checkpoint is what `history` leads to, and all that history observed is stored. */
  ghost predicate Describes<U, S, F, C>(rules: Rules<U, S, F, C>, db: CursorDb<U, S, C>, source: (U, nat, F) -> bool, history: seq<Event<F>>) {
    rules.lane in db.checkpoints ==>
      var ck := db.checkpoints[rules.lane];
      var place := Replay(rules, ck.meta.universe, history);
      && ck.meta.labels == rules.labels && rules.accepts(ck.meta.universe)
      && place.Some? && ck.cursor == place.value.cursor && ck.meta.state == place.value.state
      && Recorded(db.rows, rules.lane, place.value.noted) && Sourced(rules, ck.meta.universe, history, source)
  }

  lemma {:induction false} ReplayStays<U, S, F, C>(rules: Rules<U, S, F, C>, u: U, history: seq<Event<F>>)
    requires Replay(rules, u, history).Some?
    ensures Replay(rules, u, history).value.cursor <= rules.size(u)
  {
    if history != [] { ReplayStays(rules, u, history[..|history| - 1]); }
  }

  lemma ReplayMore<U, S, F, C>(rules: Rules<U, S, F, C>, u: U, history: seq<Event<F>>, e: Event<F>, source: (U, nat, F) -> bool)
    requires Replay(rules, u, history).Some? && Sourced(rules, u, history, source)
    requires source(u, Replay(rules, u, history).value.cursor, e.item)
    ensures Sourced(rules, u, history + [e], source)
    ensures Replay(rules, u, history + [e]) == Next(rules, u, Replay(rules, u, history).value, e)
  {
    assert (history + [e])[..|history|] == history;
  }

  // ---------------------------------------------------------------- commits

  /** `after` extends `db`: rows are only appended, other lanes and other runs are kept. */
  ghost predicate Extends<U, S, C>(db: CursorDb<U, S, C>, after: CursorDb<U, S, C>, lane: Lane, run: nat) {
    && db.rows <= after.rows && (NoRepeats(db.rows) ==> NoRepeats(after.rows)) && |after.runs| == |db.runs|
    && (forall r :: 0 <= r < |db.runs| && r != run ==> after.runs[r] == db.runs[r])
    && (run < |db.runs| ==> Accounts(db.runs[run], after.runs[run], |after.rows| - |db.rows|))
    && (forall other :: other != lane ==> (other in after.checkpoints <==> other in db.checkpoints)
                                          && (other in db.checkpoints ==> after.checkpoints[other] == db.checkpoints[other]))
  }

  lemma ExtendsThrough<U, S, C>(a: CursorDb<U, S, C>, b: CursorDb<U, S, C>, c: CursorDb<U, S, C>, lane: Lane, run: nat)
    ensures Extends(a, a, lane, run)
    ensures Extends(a, b, lane, run) && Extends(b, c, lane, run) ==> Extends(a, c, lane, run)
  {
  }

  ghost predicate PointsTo<U, S, C>(db: CursorDb<U, S, C>, lane: Lane, cursor: nat, meta: CursorMeta<U, S>, run: nat) {
    lane in db.checkpoints && db.checkpoints[lane] == Checkpoint(cursor, meta, run)
    && run < |db.runs| && db.runs[run].after == Some(cursor)
  }

  lemma OneCommit<U, S, C>(db: CursorDb<U, S, C>, run: nat, lane: Lane, page: seq<(Key, C)>, cursor: nat, meta: CursorMeta<U, S>,
                           persist: nat -> Persist, n: nat)
    requires Open(db, run, lane)
    ensures var w := WriteOne(db, run, lane, page, cursor, meta, persist, n);
            && Extends(db, w.db, lane, run) && n <= w.commits <= n + 1 && (w.ending.Going? ==> w.commits == n + 1)
            && (w.ending.Going? <==> persist(n).Commits?) && (w.ending.Raised? <==> persist(n).RollsBack?)
            && (w.ending.Killed? <==> persist(n).DiesBefore? || persist(n).DiesAfter?)
            && (w.commits == n <==> persist(n).RollsBack? || persist(n).DiesBefore?)
            && (w.commits == n ==> w.db == db)
            && (w.commits > n ==> PointsTo(w.db, lane, cursor, meta, run) && Recorded(w.db.rows, lane, page)
                                  && Stored(w.db.rows) == Stored(db.rows) + Stored(InLane(lane, page)))
  {
    hide Merge;
    CommitMeaning(db, run, InLane(lane, page), cursor, meta);
    var rows := CommitPage(db, run, InLane(lane, page), cursor, meta).rows;
    forall i | 0 <= i < |page| ensures WriteOne(db, run, lane, page, cursor, meta, persist, n).commits > n ==> Observation(lane, page[i].0, page[i].1) in rows {
      assert InLane(lane, page)[i] in Stored(InLane(lane, page));
      assert InLane(lane, page)[i] in Stored(rows);
    }
  }

  lemma {:induction false} BlankCommits<U, S, C>(db: CursorDb<U, S, C>, run: nat, lane: Lane, k: nat, cursor: nat, meta: CursorMeta<U, S>,
                                                 persist: nat -> Persist, n: nat)
    requires Open(db, run, lane)
    ensures var w := WriteBlank(db, run, lane, k, cursor, meta, persist, n);
            && Extends(db, w.db, lane, run) && n <= w.commits <= n + k && (w.ending.Going? ==> w.commits == n + k)
            && (w.ending.Going? || w.ending.Raised? || w.ending.Killed?)
            && Stored(w.db.rows) == Stored(db.rows)
            && (w.commits == n ==> w.db == db)
            && (w.commits > n ==> PointsTo(w.db, lane, cursor, meta, run))
    decreases k
  {
    hide WriteOne;
    if k > 0 {
      OneCommit(db, run, lane, [], cursor, meta, persist, n);
      var w := WriteOne(db, run, lane, [], cursor, meta, persist, n);
      assert Stored(InLane<C>(lane, [])) == {};
      if w.ending.Going? { BlankCommits(w.db, run, lane, k - 1, cursor, meta, persist, w.commits); }
    }
  }

  /** The commits of one item either all happen, or stop with the cursor where it was; the
      observations are stored exactly when the cursor advanced. */
  lemma StepCommits<U, S, F, C>(rules: Rules<U, S, F, C>, u: U, db: CursorDb<U, S, C>, run: nat, pos: nat, a: Accepted<S, C>,
                                persist: nat -> Persist, n: nat) returns (advanced: bool)
    requires Open(db, run, rules.lane)
    ensures var w, meta := WriteStep(rules, u, db, run, pos, a, persist, n), CursorMeta(rules.labels, u, a.after);
            && Extends(db, w.db, rules.lane, run) && n <= w.commits && (w.ending.Going? ==> advanced)
            && (w.ending.Going? || w.ending.Raised? || w.ending.Killed?)
            && (w.commits == n ==> w.db == db && !advanced)
            && (w.commits > n ==> PointsTo(w.db, rules.lane, if advanced then pos + 1 else pos, meta, run))
            && (w.commits > n && !advanced ==> a.leading > 0)
            && (advanced ==> Recorded(w.db.rows, rules.lane, a.observations))
            && Stored(w.db.rows) == Stored(db.rows) + (if advanced then Stored(InLane(rules.lane, a.observations)) else {})
  {
    hide WriteOne, WriteBlank, Stored;
    var meta := CursorMeta(rules.labels, u, a.after);
    var b := WriteBlank(db, run, rules.lane, a.leading, pos, meta, persist, n);
    BlankCommits(db, run, rules.lane, a.leading, pos, meta, persist, n);
    if b.ending.Going? {
      OneCommit(b.db, run, rules.lane, a.observations, pos + 1, meta, persist, b.commits);
      advanced := WriteOne(b.db, run, rules.lane, a.observations, pos + 1, meta, persist, b.commits).commits > b.commits;
    } else {
      advanced := false;
    }
  }

  // ---------------------------------------------------------------- runs

  lemma RecordedGrows<C>(rows: seq<Observation<C>>, more: seq<Observation<C>>, lane: Lane, noted: seq<(Key, C)>)
    requires Recorded(rows, lane, noted) && rows <= more
    ensures Recorded(more, lane, noted)
  {
  }

  /** What the loop leaves behind, given where it started. */
  ghost predicate Driven<U, S, F, C>(rules: Rules<U, S, F, C>, u: U, db: CursorDb<U, S, C>, run: nat, at: Place<S, C>, n: nat,
                                     source: (U, nat, F) -> bool, w: Written<U, S, C>, longer: seq<Event<F>>) {
    && Extends(db, w.db, rules.lane, run) && n <= w.commits && !w.ending.Going?
    && (w.commits == n ==> w.db == db && (w.ending.Complete? ==> at.cursor == rules.size(u) && rules.covered(u, at.state)))
    && (w.commits > n ==>
          && rules.lane in w.db.checkpoints && run < |w.db.runs|
          && var ck := w.db.checkpoints[rules.lane];
             && ck.lastRun == run && ck.meta.universe == u && w.db.runs[run].after == Some(ck.cursor) && ck.cursor >= at.cursor
             && Describes(rules, w.db, source, longer)
             && (w.ending.Complete? ==> ck.cursor == rules.size(u) && rules.covered(u, ck.meta.state)))
  }

  /** The loop from a described place leaves a described checkpoint, and ends Complete only with
      the cursor at the universe's end and the coverage check passed. */
  lemma {:induction false} DriveDescribes<U, S, F, C>(rules: Rules<U, S, F, C>, u: U, db: CursorDb<U, S, C>, run: nat, at: Place<S, C>,
                                                      budget: Option<nat>, world: World<U, F>, n: nat, source: (U, nat, F) -> bool, history: seq<Event<F>>)
    returns (longer: seq<Event<F>>)
    requires Open(db, run, rules.lane) && rules.accepts(u) && world.universe == Got(u) && Draws(world, source)
    requires Replay(rules, u, history) == Some(at) && Recorded(db.rows, rules.lane, at.noted) && Sourced(rules, u, history, source)
    ensures Driven(rules, u, db, run, at, n, source, Drive(rules, u, db, run, at.cursor, at.state, budget, world, n), longer)
    decreases rules.size(u) - at.cursor
  {
    hide WriteStep, Replay, Sourced, Stored, Extends, Describes;
    longer := history;
    ExtendsThrough(db, db, db, rules.lane, run);
    var pos := at.cursor;
    ReplayStays(rules, u, history);
    if pos < rules.size(u) && budget != Some(0) && world.item(pos).Got? && rules.step(u, pos, at.state, world.item(pos).value).Some? {
      var a := rules.step(u, pos, at.state, world.item(pos).value).value;
      var w := WriteStep(rules, u, db, run, pos, a, world.persist, n);
      var advanced := StepCommits(rules, u, db, run, pos, a, world.persist, n);
      if w.commits > n {
        var e := Event(world.item(pos).value, advanced);
        ReplayMore(rules, u, history, e, source);
        longer := history + [e];
        StepDescribes(rules, u, db, at, a, w.db, run, advanced, source, longer);
      }
      if w.ending.Going? {
        var next := Place(pos + 1, a.after, at.noted + a.observations);
        var more := DriveDescribes(rules, u, w.db, run, next, Spend(budget), world, w.commits, source, longer);
        var v := Drive(rules, u, w.db, run, pos + 1, a.after, Spend(budget), world, w.commits);
        ExtendsThrough(db, w.db, v.db, rules.lane, run);
        if v.commits > w.commits { longer := more; }
      }
    }
  }

  lemma StepDescribes<U, S, F, C>(rules: Rules<U, S, F, C>, u: U, db: CursorDb<U, S, C>, at: Place<S, C>, a: Accepted<S, C>, after: CursorDb<U, S, C>,
                                  run: nat, advanced: bool, source: (U, nat, F) -> bool, longer: seq<Event<F>>)
    requires rules.accepts(u) && Recorded(db.rows, rules.lane, at.noted)
    requires advanced ==> Recorded(after.rows, rules.lane, a.observations)
    requires PointsTo(after, rules.lane, if advanced then at.cursor + 1 else at.cursor, CursorMeta(rules.labels, u, a.after), run)
    requires Sourced(rules, u, longer, source)
    requires Replay(rules, u, longer) == Some(if advanced then Place(at.cursor + 1, a.after, at.noted + a.observations)
                                              else Place(at.cursor, a.after, at.noted))
    requires Extends(db, after, rules.lane, run)
    ensures Describes(rules, after, source, longer)
    ensures advanced ==> Recorded(after.rows, rules.lane, at.noted + a.observations)
  {
    hide Replay, Sourced;
    RecordedGrows(db.rows, after.rows, rules.lane, at.noted);
  }

  /** Closing the receipt changes neither rows nor checkpoints. */
  lemma EnumerateIsBody<U, S, F, C>(rules: Rules<U, S, F, C>, db: CursorDb<U, S, C>, resume: bool, budget: Option<nat>, world: World<U, F>)
    requires !RefusedEarly(rules, db, resume)
    ensures var w, b := Enumerate(rules, db, resume, budget, world), Body(rules, db, resume, budget, world);
            && w.db.rows == b.db.rows && w.db.checkpoints == b.db.checkpoints && w.ending == b.ending && w.commits == b.commits
            && |w.db.runs| == |b.db.runs| && |b.db.runs| > |db.runs|
            && w.db.runs[..|db.runs|] == b.db.runs[..|db.runs|]
            && w.db.runs[|db.runs|].after == b.db.runs[|db.runs|].after
            && w.db.runs[|db.runs|].lane == rules.lane
            && w.db.runs[|db.runs|] == b.db.runs[|db.runs|].(status := w.db.runs[|db.runs|].status)
            && w.db.runs[|db.runs|].status == StatusFor(b.ending, b.commits)
  {
    hide Body;
  }

  /** What one run leaves behind. */
  ghost predicate RanSafely<U, S, F, C>(rules: Rules<U, S, F, C>, db: CursorDb<U, S, C>, world: World<U, F>, source: (U, nat, F) -> bool,
                                        w: Written<U, S, C>, longer: seq<Event<F>>) {
    var run := |db.runs|;
    && Describes(rules, w.db, source, longer) && IsReceipt(db, w.db, rules.lane)
    && db.rows <= w.db.rows && (NoRepeats(db.rows) ==> NoRepeats(w.db.rows)) && |w.db.runs| == run + 1 && w.db.runs[..run] == db.runs
    && !w.ending.Going?
    && (w.commits == 0 ==> w.db.checkpoints == db.checkpoints && w.db.rows == db.rows)
    && (w.commits > 0 ==>
          && rules.lane in w.db.checkpoints && world.universe.Got?
          && var ck := w.db.checkpoints[rules.lane];
             ck.lastRun == run && ck.meta.universe == world.universe.value && w.db.runs[run].after == Some(ck.cursor))
    && (w.ending.Complete? ==>
          && world.universe.Got?
          && var u := world.universe.value;
             if w.commits == 0 then rules.size(u) == 0 && rules.opening(u) == 0
             else rules.lane in w.db.checkpoints && w.db.checkpoints[rules.lane].cursor == rules.size(u)
                  && rules.covered(u, w.db.checkpoints[rules.lane].meta.state))
  }

  lemma BodyIsSafe<U, S, F, C>(rules: Rules<U, S, F, C>, db: CursorDb<U, S, C>, resume: bool, budget: Option<nat>, world: World<U, F>,
                               source: (U, nat, F) -> bool, history: seq<Event<F>>) returns (longer: seq<Event<F>>)
    requires Describes(rules, db, source, history) && Draws(world, source)
    ensures RanSafely(rules, db, world, source, Body(rules, db, resume, budget, world), longer)
  {
    hide Drive, WriteBlank, Replay;
    var run := |db.runs|;
    var begun: CursorDb<U, S, C> := StartRun(db, rules.lane);
    longer := history;
    if world.universe.Got? && rules.accepts(world.universe.value) {
      var u := world.universe.value;
      match StartOf(rules, db, resume, u)
      case Refuse =>
      case Resume(cursor, state) =>
        longer := DriveDescribes(rules, u, begun, run, Replay(rules, u, history).value, budget, world, 0, source, history);
        if Drive(rules, u, begun, run, cursor, state, budget, world, 0).commits == 0 { longer := history; }
      case Fresh =>
        longer := FreshIsSafe(rules, db, u, budget, world, source, history);
    }
  }

  lemma FreshIsSafe<U, S, F, C>(rules: Rules<U, S, F, C>, db: CursorDb<U, S, C>, u: U, budget: Option<nat>, world: World<U, F>,
                                source: (U, nat, F) -> bool, history: seq<Event<F>>) returns (longer: seq<Event<F>>)
    requires Describes(rules, db, source, history) && Draws(world, source) && world.universe == Got(u) && rules.accepts(u)
    ensures var begun: CursorDb<U, S, C> := StartRun(db, rules.lane);
            var o := WriteBlank(begun, |db.runs|, rules.lane, rules.opening(u), 0, CursorMeta(rules.labels, u, rules.init), world.persist, 0);
            RanSafely(rules, db, world, source,
                      if o.ending.Going? then Drive(rules, u, o.db, |db.runs|, 0, rules.init, budget, world, o.commits) else o, longer)
  {
    hide Drive, WriteBlank, Stored;
    var begun: CursorDb<U, S, C> := StartRun(db, rules.lane);
    var meta := CursorMeta(rules.labels, u, rules.init);
    var o := WriteBlank(begun, |db.runs|, rules.lane, rules.opening(u), 0, meta, world.persist, 0);
    BlankCommits(begun, |db.runs|, rules.lane, rules.opening(u), 0, meta, world.persist, 0);
    assert Replay(rules, u, []) == Some(Place(0, rules.init, []));
    longer := [];
    if o.ending.Going? {
      var more := DriveDescribes(rules, u, o.db, |db.runs|, Place(0, rules.init, []), budget, world, o.commits, source, []);
      var w := Drive(rules, u, o.db, |db.runs|, 0, rules.init, budget, world, o.commits);
      longer := if w.commits == 0 then history else if w.commits == o.commits then [] else more;
    } else if o.commits == 0 {
      longer := history;
    }
  }

  datatype Attempt<U, F> = Attempt(resume: bool, budget: Option<nat>, world: World<U, F>)

  ghost function Chain<U, S, F, C>(rules: Rules<U, S, F, C>, db: CursorDb<U, S, C>, attempts: seq<Attempt<U, F>>): CursorDb<U, S, C> {
    if attempts == [] then db
    else
      var a := attempts[|attempts| - 1];
      Enumerate(rules, Chain(rules, db, attempts[..|attempts| - 1]), a.resume, a.budget, a.world).db
  }

  /** The checkpoint names a run of the lane that ended where the checkpoint stands; if that run's
      receipt says SUCCESS, it stands at the end of its universe. */
  ghost predicate Witnessed<U, S, F, C>(rules: Rules<U, S, F, C>, db: CursorDb<U, S, C>) {
    rules.lane in db.checkpoints ==>
      var ck := db.checkpoints[rules.lane];
      && ck.lastRun < |db.runs| && db.runs[ck.lastRun].lane == rules.lane && db.runs[ck.lastRun].after == Some(ck.cursor)
      && (db.runs[ck.lastRun].status.Success? ==> ck.cursor == rules.size(ck.meta.universe) && rules.covered(ck.meta.universe, ck.meta.state))
  }

  /** One invocation: the checkpoint stays described; SUCCESS means that the whole universe of
      this run was committed, an early refusal opens no run, and PARTIAL and FAILED tell whether
      anything was committed. */
  lemma RunIsSafe<U, S, F, C>(rules: Rules<U, S, F, C>, db: CursorDb<U, S, C>, a: Attempt<U, F>, source: (U, nat, F) -> bool, history: seq<Event<F>>)
    returns (longer: seq<Event<F>>)
    requires Describes(rules, db, source, history) && Draws(a.world, source)
    ensures var w := Enumerate(rules, db, a.resume, a.budget, a.world);
            && Describes(rules, w.db, source, longer) && db.rows <= w.db.rows && (NoRepeats(db.rows) ==> NoRepeats(w.db.rows))
            && (if RefusedEarly(rules, db, a.resume) then w.db == db
                else RanSafely(rules, db, a.world, source, w, longer) && Closed(w, w.db.runs[|db.runs|].status))
            && (Witnessed(rules, db) ==> Witnessed(rules, w.db))
  {
    hide Body, Replay, Stored;
    if RefusedEarly(rules, db, a.resume) {
      longer := history;
    } else {
      longer := BodyIsSafe(rules, db, a.resume, a.budget, a.world, source, history);
      EnumerateIsBody(rules, db, a.resume, a.budget, a.world);
      if Witnessed(rules, db) { StaysWitnessed(rules, db, Enumerate(rules, db, a.resume, a.budget, a.world), a.world, source, longer); }
    }
  }

  /** How the receipt reads off the run's ending: FAILED exactly when it raised without a commit,
      PARTIAL when it raised after one or stopped at its budget, and RUNNING when the process died. */
  ghost predicate Closed<U, S, C>(w: Written<U, S, C>, status: Status) {
    && (status == Success <==> w.ending == Complete)
    && (status == Partial <==> w.ending == BudgetReached || (w.ending == Raised && w.commits > 0))
    && (status == Failed <==> w.ending == Raised && w.commits == 0)
    && (status == Running <==> w.ending == Killed)
  }

  /** The same in terms of the store: FAILED exactly when the run raised and left rows and
      checkpoints as they were, PARTIAL when it stopped at its budget or raised after the lane's
      checkpoint came to name it. */
  lemma StatusTells<U, S, F, C>(rules: Rules<U, S, F, C>, db: CursorDb<U, S, C>, a: Attempt<U, F>, source: (U, nat, F) -> bool, history: seq<Event<F>>)
    requires Describes(rules, db, source, history) && Draws(a.world, source) && !RefusedEarly(rules, db, a.resume)
    requires rules.lane in db.checkpoints ==> db.checkpoints[rules.lane].lastRun < |db.runs|
    ensures var w, run := Enumerate(rules, db, a.resume, a.budget, a.world), |db.runs|;
            && |w.db.runs| == run + 1
            && (w.db.runs[run].status == Success <==> w.ending == Complete)
            && (w.db.runs[run].status == Partial <==>
                  w.ending == BudgetReached
                  || (w.ending == Raised && rules.lane in w.db.checkpoints && w.db.checkpoints[rules.lane].lastRun == run))
            && (w.db.runs[run].status == Failed <==> w.ending == Raised && w.db.rows == db.rows && w.db.checkpoints == db.checkpoints)
            && (w.db.runs[run].status == Running <==> w.ending == Killed)
  {
    hide Enumerate, Describes, Draws;
    var _ := RunIsSafe(rules, db, a, source, history);
  }

  /** The early refusal: no run is opened, and only a resume of a lane that demands a checkpoint
      before it opens one is refused so. */
  lemma RefusedEarlyIff<U, S, F, C>(rules: Rules<U, S, F, C>, db: CursorDb<U, S, C>, resume: bool, budget: Option<nat>, world: World<U, F>)
    ensures var w := Enumerate(rules, db, resume, budget, world);
            if resume && rules.missing == RefusedBeforeRun && rules.lane !in db.checkpoints then w == Written(db, Raised, 0)
            else |w.db.runs| > |db.runs|
  {
    hide Body;
    if !RefusedEarly(rules, db, resume) { EnumerateIsBody(rules, db, resume, budget, world); }
  }

  /** What a resume does in a lane without a checkpoint, by the lane's rule. */
  lemma WithoutCheckpoint<U, S, F, C>(rules: Rules<U, S, F, C>, db: CursorDb<U, S, C>, budget: Option<nat>, world: World<U, F>)
    requires rules.lane !in db.checkpoints
    ensures rules.missing == StartsFresh ==> Enumerate(rules, db, true, budget, world) == Enumerate(rules, db, false, budget, world)
    ensures rules.missing == RefusedBeforeRun ==> Enumerate(rules, db, true, budget, world) == Written(db, Raised, 0)
    ensures rules.missing == RefusedInRun ==>
              var w := Enumerate(rules, db, true, budget, world);
              w.commits == 0 && (w.ending == Raised || w.ending == Killed) && w.db.rows == db.rows && w.db.checkpoints == db.checkpoints
  {
    hide Drive, WriteBlank;
  }

  /** The next position of the loop: it ends at the end of the universe or of the budget; a fetch
      that dies or raises, and an item that is not accepted, end it; anything else is committed, and
      the loop goes on with what is left of the budget. */
  lemma DriveMeans<U, S, F, C>(rules: Rules<U, S, F, C>, u: U, db: CursorDb<U, S, C>, run: nat, pos: nat, s: S, budget: Option<nat>,
                               world: World<U, F>, n: nat)
    requires Open(db, run, rules.lane)
    ensures var w := Drive(rules, u, db, run, pos, s, budget, world, n);
            if pos >= rules.size(u) then w == Written(db, if rules.covered(u, s) then Complete else Raised, n)
            else if budget == Some(0) then w == Written(db, BudgetReached, n)
            else if world.item(pos) == Dies then w == Written(db, Killed, n)
            else if world.item(pos) == Raises || rules.step(u, pos, s, world.item(pos).value) == None then w == Written(db, Raised, n)
            else
              var a := rules.step(u, pos, s, world.item(pos).value).value;
              var b := WriteStep(rules, u, db, run, pos, a, world.persist, n);
              w == if b.ending != Going then b
                   else Drive(rules, u, b.db, run, pos + 1, a.after, if budget == None then None else Some(budget.value - 1), world, b.commits)
  {
    hide WriteStep;
  }

  /** The process dies at every fetch of an item. */
  function DyingItems<U, F>(u: U): World<U, F> { World(Got(u), (p: nat) => Dies, (n: nat) => Commits) }

  /** On a described store a resume that receives the universe `u` raises without a fetch and without
      a commit, whatever would follow, exactly when the universe moved, the checkpoint stands at its
      end, or the lane's own check of the checkpoint fails. */
  lemma ResumeRefusedIff<U(!new), S, F(!new), C>(rules: Rules<U, S, F, C>, db: CursorDb<U, S, C>, u: U, source: (U, nat, F) -> bool, history: seq<Event<F>>)
    requires Describes(rules, db, source, history) && rules.lane in db.checkpoints && rules.accepts(u)
    ensures (forall world: World<U, F> :: world.universe == Got(u) ==>
               var w := Enumerate(rules, db, true, None, world); w.ending == Raised && w.commits == 0)
            <==> var ck := db.checkpoints[rules.lane];
                 ck.meta.universe != u || ck.cursor == rules.size(u) || !rules.consistent(ck.cursor, ck.meta.state)
  {
    hide Sourced, WriteStep;
    var ck := db.checkpoints[rules.lane];
    ReplayStays(rules, ck.meta.universe, history);
    hide Replay, Drive;
    var dying: World<U, F> := DyingItems(u);
    EnumerateIsBody(rules, db, true, None, dying);
    if ck.meta.universe == u && ck.cursor != rules.size(u) && rules.consistent(ck.cursor, ck.meta.state) {
      DriveMeans(rules, u, StartRun(db, rules.lane), |db.runs|, ck.cursor, ck.meta.state, None, dying, 0);
      assert Enumerate(rules, db, true, None, dying).ending == Killed;
    } else {
      forall world: World<U, F> | world.universe == Got(u) ensures var w := Enumerate(rules, db, true, None, world); w.ending == Raised && w.commits == 0 {
        EnumerateIsBody(rules, db, true, None, world);
      }
    }
  }

  lemma StaysWitnessed<U, S, F, C>(rules: Rules<U, S, F, C>, db: CursorDb<U, S, C>, w: Written<U, S, C>, world: World<U, F>,
                                   source: (U, nat, F) -> bool, longer: seq<Event<F>>)
    requires Witnessed(rules, db) && RanSafely(rules, db, world, source, w, longer)
    requires w.db.runs[|db.runs|].status == StatusFor(w.ending, w.commits) && w.db.runs[|db.runs|].lane == rules.lane
    ensures Witnessed(rules, w.db)
  {
    hide Describes;
    assert forall r :: 0 <= r < |db.runs| ==> w.db.runs[..|db.runs|][r] == w.db.runs[r];
  }

  /** Over any sequence of runs with any universes, items, budgets and failures, the lane's
      checkpoint is the replay of a history of accepted items, all of whose observations are stored. */
  lemma {:induction false} ChainIsDescribed<U, S, F, C>(rules: Rules<U, S, F, C>, db: CursorDb<U, S, C>, attempts: seq<Attempt<U, F>>,
                                                        source: (U, nat, F) -> bool) returns (history: seq<Event<F>>)
    requires rules.lane !in db.checkpoints
    requires forall a :: a in attempts ==> Draws(a.world, source)
    ensures Describes(rules, Chain(rules, db, attempts), source, history)
    ensures NoRepeats(db.rows) ==> NoRepeats(Chain(rules, db, attempts).rows)
    ensures db.rows <= Chain(rules, db, attempts).rows && Witnessed(rules, Chain(rules, db, attempts))
  {
    hide Enumerate, RanSafely, Describes, Draws;
    if attempts == [] {
      history := [];
      assert Describes(rules, db, source, []) by { NothingDescribed(rules, db, source); }
    } else {
      var n := |attempts| - 1;
      history := ChainIsDescribed(rules, db, attempts[..n], source);
      history := RunIsSafe(rules, Chain(rules, db, attempts[..n]), attempts[n], source, history);
    }
  }

  lemma NothingDescribed<U, S, F, C>(rules: Rules<U, S, F, C>, db: CursorDb<U, S, C>, source: (U, nat, F) -> bool)
    requires rules.lane !in db.checkpoints
    ensures Describes(rules, db, source, [])
  {
  }
}
