/** The converse of `ChainIsDescribed`: every history a lane accepts is what some sequence of
    runs leaves in the checkpoint.  So the replays are exactly the reachable checkpoints. */
module CursorReach {
  import opened Prelude
  import opened Store
  import opened CursorLane
  import opened CursorSafety

  /** The checkpoint stands at `at` in universe `u`. */
  ghost predicate Stands<U, S, F, C>(rules: Rules<U, S, F, C>, u: U, db: CursorDb<U, S, C>, at: Place<S, C>) {
    && rules.lane in db.checkpoints && db.checkpoints[rules.lane].cursor == at.cursor
    && db.checkpoints[rules.lane].meta == CursorMeta(rules.labels, u, at.state)
  }

  ghost predicate AlwaysConsistent<U, S, F, C>(rules: Rules<U, S, F, C>, u: U, history: seq<Event<F>>) {
    forall k :: 0 <= k <= |history| && Replay(rules, u, history[..k]).Some? ==>
      var at := Replay(rules, u, history[..k]).value; rules.consistent(at.cursor, at.state)
  }

  /** A run that gets exactly one event: all its commits, or only the first of its leading ones. */
  function OneEvent<U, F>(u: U, e: Event<F>, opening: nat): World<U, F> {
    World(Got(u), (p: nat) => Got(e.item), (n: nat) => if e.finished || n <= opening then Commits else RollsBack)
  }

  /** The attempt is given the universe, and the event's item at every position. */
  ghost predicate Receives<U, F>(u: U, a: Attempt<U, F>, e: Event<F>) {
    a.world.universe == Got(u) && forall p: nat :: a.world.item(p) == Got(e.item)
  }

  lemma {:induction false} BlankGoes<U, S, C>(db: CursorDb<U, S, C>, run: nat, lane: Lane, k: nat, cursor: nat, meta: CursorMeta<U, S>,
                                              persist: nat -> Persist, n: nat)
    requires Open(db, run, lane) && forall i :: n <= i < n + k ==> persist(i).Commits?
    ensures var w := WriteBlank(db, run, lane, k, cursor, meta, persist, n); w.ending.Going? && w.commits == n + k
    decreases k
  {
    hide CommitOf;
    if k > 0 {
      var w := WriteOne(db, run, lane, [], cursor, meta, persist, n);
      BlankGoes(w.db, run, lane, k - 1, cursor, meta, persist, w.commits);
    }
  }

  /** One step that is finished, or interrupted right after its first leading commit. */
  lemma StepGoes<U, S, F, C>(rules: Rules<U, S, F, C>, u: U, db: CursorDb<U, S, C>, run: nat, at: Place<S, C>, e: Event<F>, opening: nat)
    requires Open(db, run, rules.lane) && Next(rules, u, at, e).Some?
    ensures var a, next := rules.step(u, at.cursor, at.state, e.item).value, Next(rules, u, at, e).value;
            var w := WriteStep(rules, u, db, run, at.cursor, a, OneEvent(u, e, opening).persist, opening);
            && Stands(rules, u, w.db, next) && w.ending.Going? == e.finished && db.rows <= w.db.rows
            && (e.finished ==> Recorded(w.db.rows, rules.lane, a.observations))
  {
    hide WriteOne, WriteBlank, Stored;
    var a, persist := rules.step(u, at.cursor, at.state, e.item).value, OneEvent(u, e, opening).persist;
    var meta := CursorMeta(rules.labels, u, a.after);
    if e.finished {
      BlankGoes(db, run, rules.lane, a.leading, at.cursor, meta, persist, opening);
      BlankCommits(db, run, rules.lane, a.leading, at.cursor, meta, persist, opening);
      var b := WriteBlank(db, run, rules.lane, a.leading, at.cursor, meta, persist, opening);
      OneGoes(b.db, run, rules.lane, a.observations, at.cursor + 1, meta, persist, b.commits);
      OneCommit(b.db, run, rules.lane, a.observations, at.cursor + 1, meta, persist, b.commits);
    } else {
      FirstBlankOnly(db, run, rules.lane, a.leading, at.cursor, meta, persist, opening);
      BlankCommits(db, run, rules.lane, a.leading, at.cursor, meta, persist, opening);
      var b := WriteBlank(db, run, rules.lane, a.leading, at.cursor, meta, persist, opening);
      if b.ending.Going? { OneStops(b.db, run, rules.lane, a.observations, at.cursor + 1, meta, persist, b.commits); }
    }
  }

  lemma OneGoes<U, S, C>(db: CursorDb<U, S, C>, run: nat, lane: Lane, page: seq<(Key, C)>, cursor: nat, meta: CursorMeta<U, S>,
                         persist: nat -> Persist, n: nat)
    requires Open(db, run, lane) && persist(n).Commits?
    ensures WriteOne(db, run, lane, page, cursor, meta, persist, n).ending.Going?
  {
    hide CommitOf;
  }

  lemma OneStops<U, S, C>(db: CursorDb<U, S, C>, run: nat, lane: Lane, page: seq<(Key, C)>, cursor: nat, meta: CursorMeta<U, S>,
                          persist: nat -> Persist, n: nat)
    requires Open(db, run, lane) && persist(n).RollsBack?
    ensures WriteOne(db, run, lane, page, cursor, meta, persist, n) == Written(db, Raised, n)
  {
  }

  lemma FirstBlankOnly<U, S, C>(db: CursorDb<U, S, C>, run: nat, lane: Lane, k: nat, cursor: nat, meta: CursorMeta<U, S>,
                                persist: nat -> Persist, n: nat)
    requires Open(db, run, lane) && k > 0 && persist(n).Commits? && forall i :: i > n ==> persist(i).RollsBack?
    ensures var w := WriteBlank(db, run, lane, k, cursor, meta, persist, n);
            w.commits == n + 1 && (w.ending.Going? <==> k == 1)
  {
    hide CommitOf;
    var w := WriteOne(db, run, lane, [], cursor, meta, persist, n);
    if k > 1 { OneStops(w.db, run, lane, [], cursor, meta, persist, n + 1); }
  }

  /** From a place the checkpoint stands at (or the beginning), one run adds one event. */
  lemma EventIsReached<U, S, F, C>(rules: Rules<U, S, F, C>, u: U, db: CursorDb<U, S, C>, at: Place<S, C>, e: Event<F>) returns (a: Attempt<U, F>)
    requires rules.accepts(u) && Next(rules, u, at, e).Some? && rules.consistent(at.cursor, at.state)
    requires at == Place(0, rules.init, []) || Stands(rules, u, db, at)
    ensures Stands(rules, u, Enumerate(rules, db, a.resume, a.budget, a.world).db, Next(rules, u, at, e).value)
    ensures Receives(u, a, e)
    ensures Recorded(db.rows, rules.lane, at.noted) ==>
              Recorded(Enumerate(rules, db, a.resume, a.budget, a.world).db.rows, rules.lane, Next(rules, u, at, e).value.noted)
  {
    hide WriteStep, WriteBlank, Stored;
    var begun: CursorDb<U, S, C> := StartRun(db, rules.lane);
    var resume := at != Place(0, rules.init, []);
    var opening := if resume then 0 else rules.opening(u);
    var world := OneEvent(u, e, opening);
    a := Attempt(resume, Some(1), world);
    EnumerateIsBody(rules, db, resume, Some(1), world);
    var before := begun;
    if !resume {
      var meta := CursorMeta(rules.labels, u, rules.init);
      BlankGoes(begun, |db.runs|, rules.lane, opening, 0, meta, world.persist, 0);
      BlankCommits(begun, |db.runs|, rules.lane, opening, 0, meta, world.persist, 0);
      before := WriteBlank(begun, |db.runs|, rules.lane, opening, 0, meta, world.persist, 0).db;
    }
    assert db.rows <= before.rows;
    StepGoes(rules, u, before, |db.runs|, at, e, opening);
    DriveOne(rules, u, before, |db.runs|, at, e, opening);
  }

  /** With a budget of one the loop takes exactly one step. */
  lemma DriveOne<U, S, F, C>(rules: Rules<U, S, F, C>, u: U, db: CursorDb<U, S, C>, run: nat, at: Place<S, C>, e: Event<F>, n: nat)
    requires Open(db, run, rules.lane) && Next(rules, u, at, e).Some?
    ensures var a, world := rules.step(u, at.cursor, at.state, e.item).value, OneEvent(u, e, n);
            Drive(rules, u, db, run, at.cursor, at.state, Some(1), world, n).db == WriteStep(rules, u, db, run, at.cursor, a, world.persist, n).db
  {
    hide WriteStep;
  }

  /** Every accepted nonempty history is reached: some runs, one per event, leave the checkpoint
      exactly there and everything the history observed in the store. */
  lemma {:induction false} ReplayIsReached<U, S, F, C>(rules: Rules<U, S, F, C>, u: U, db: CursorDb<U, S, C>, history: seq<Event<F>>)
    returns (attempts: seq<Attempt<U, F>>)
    requires rules.accepts(u) && history != [] && Replay(rules, u, history).Some? && AlwaysConsistent(rules, u, history)
    ensures |attempts| == |history| && forall i :: 0 <= i < |history| ==> Receives(u, attempts[i], history[i])
    ensures Stands(rules, u, Chain(rules, db, attempts), Replay(rules, u, history).value)
    ensures Recorded(Chain(rules, db, attempts).rows, rules.lane, Replay(rules, u, history).value.noted)
  {
    hide Enumerate, Next, Stands, Receives;
    var n := |history| - 1;
    var init := history[..n];
    var at := Replay(rules, u, init).value;
    assert forall k :: 0 <= k <= n ==> init[..k] == history[..k];
    if n > 0 { attempts := ReplayIsReached(rules, u, db, init); } else { attempts := []; }
    var last := EventIsReached(rules, u, Chain(rules, db, attempts), at, history[n]);
    assert (attempts + [last])[..n] == attempts;
    attempts := attempts + [last];
  }
}
