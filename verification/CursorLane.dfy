/** Universe-then-commit lanes: the universe is fetched and fingerprinted first, then its items
    are committed one cursor step at a time, under an optional budget, and a resume is refused
    when the universe moved.  The lanes differ in `Rules`; the loop is the same. */
module CursorLane {
  import opened Prelude
  import opened Store

  /** One accepted item: `leading` commits without observations at the old cursor, then one
      commit with the observations at the next cursor; all carry the state `after`. */
  datatype Accepted<S, C> = Accepted(leading: nat, after: S, observations: seq<(Key, C)>)

  /** The item of a lane that fetches nothing between its commits. */
  datatype Go = Go

  /** What `resume` means when the lane has no checkpoint. */
  datatype Missing = StartsFresh | RefusedInRun | RefusedBeforeRun

  datatype Rules<!U, !S, !F, !C> = Rules(
    lane: Lane,
    labels: map<string, string>,
    missing: Missing,
    accepts: U -> bool,
    size: U -> nat,
    opening: U -> nat,
    init: S,
    step: (U, nat, S, F) -> Option<Accepted<S, C>>,
    consistent: (nat, S) -> bool,
    covered: (U, S) -> bool)

  /** The universe itself stands for its fingerprint. */
  datatype CursorMeta<U, S> = CursorMeta(labels: map<string, string>, universe: U, state: S)

  type CursorDb<U, S, C> = Db<CursorMeta<U, S>, C>

  datatype Got<+T> = Got(value: T) | Raises | Dies

  /** What the provider and the database do during one run; `persist(n)` decides the n-th commit. */
  datatype World<+U, +F> = World(universe: Got<U>, item: nat -> Got<F>, persist: nat -> Persist)

  datatype Ending = Going | Complete | BudgetReached | Raised | Killed

  datatype Written<U, S, C> = Written(db: CursorDb<U, S, C>, ending: Ending, commits: nat)

  // ---------------------------------------------------------------- commits

  function InLane<C>(lane: Lane, observations: seq<(Key, C)>): seq<Observation<C>> {
    seq(|observations|, i requires 0 <= i < |observations| => Observation(lane, observations[i].0, observations[i].1))
  }

  ghost predicate Open<U, S, C>(db: CursorDb<U, S, C>, run: nat, lane: Lane) {
    IsRunning(db, run) && db.runs[run].lane == lane
  }

  ghost function CommitOf<U, S, C>(db: CursorDb<U, S, C>, run: nat, lane: Lane, page: seq<(Key, C)>, cursor: nat, meta: CursorMeta<U, S>)
    : (r: CursorDb<U, S, C>)
    requires Open(db, run, lane)
    ensures Open(r, run, lane)
  {
    CommitKeepsRun(db, run, InLane(lane, page), cursor, meta);
    CommitPage(db, run, InLane(lane, page), cursor, meta)
  }

  ghost function WriteOne<U, S, C>(db: CursorDb<U, S, C>, run: nat, lane: Lane, page: seq<(Key, C)>, cursor: nat, meta: CursorMeta<U, S>,
                                   persist: nat -> Persist, n: nat): (w: Written<U, S, C>)
    requires Open(db, run, lane)
    ensures Open(w.db, run, lane)
  {
    match persist(n)
    case RollsBack => Written(db, Raised, n)
    case DiesBefore => Written(db, Killed, n)
    case DiesAfter => Written(CommitOf(db, run, lane, page, cursor, meta), Killed, n + 1)
    case Commits => Written(CommitOf(db, run, lane, page, cursor, meta), Going, n + 1)
  }

  ghost function WriteBlank<U, S, C>(db: CursorDb<U, S, C>, run: nat, lane: Lane, k: nat, cursor: nat, meta: CursorMeta<U, S>,
                                     persist: nat -> Persist, n: nat): (w: Written<U, S, C>)
    requires Open(db, run, lane)
    ensures Open(w.db, run, lane)
    decreases k
  {
    if k == 0 then Written(db, Going, n)
    else
      var w := WriteOne(db, run, lane, [], cursor, meta, persist, n);
      if w.ending.Going? then WriteBlank(w.db, run, lane, k - 1, cursor, meta, persist, w.commits) else w
  }

  ghost function WriteStep<U, S, F, C>(rules: Rules<U, S, F, C>, u: U, db: CursorDb<U, S, C>, run: nat, pos: nat, a: Accepted<S, C>,
                                       persist: nat -> Persist, n: nat): (w: Written<U, S, C>)
    requires Open(db, run, rules.lane)
    ensures Open(w.db, run, rules.lane)
  {
    var meta := CursorMeta(rules.labels, u, a.after);
    var b := WriteBlank(db, run, rules.lane, a.leading, pos, meta, persist, n);
    if b.ending.Going? then WriteOne(b.db, run, rules.lane, a.observations, pos + 1, meta, persist, b.commits) else b
  }

  // ---------------------------------------------------------------- the loop as a value

  ghost function Drive<U, S, F, C>(rules: Rules<U, S, F, C>, u: U, db: CursorDb<U, S, C>, run: nat, pos: nat, s: S, budget: Option<nat>,
                                   world: World<U, F>, n: nat): (w: Written<U, S, C>)
    requires Open(db, run, rules.lane)
    ensures Open(w.db, run, rules.lane)
    decreases rules.size(u) - pos
  {
    if pos >= rules.size(u) then Written(db, if rules.covered(u, s) then Complete else Raised, n)
    else if budget == Some(0) then Written(db, BudgetReached, n)
    else if world.item(pos).Dies? then Written(db, Killed, n)
    else if world.item(pos).Raises? || rules.step(u, pos, s, world.item(pos).value).None? then Written(db, Raised, n)
    else
      var a := rules.step(u, pos, s, world.item(pos).value).value;
      var w := WriteStep(rules, u, db, run, pos, a, world.persist, n);
      if w.ending.Going? then Drive(rules, u, w.db, run, pos + 1, a.after, Spend(budget), world, w.commits) else w
  }

  function Spend(budget: Option<nat>): Option<nat> {
    if budget.Some? && budget.value > 0 then Some(budget.value - 1) else budget
  }

  datatype Start<S> = Fresh | Resume(cursor: nat, state: S) | Refuse

  ghost function StartOf<U, S, F, C>(rules: Rules<U, S, F, C>, db: CursorDb<U, S, C>, resume: bool, u: U): Start<S> {
    if resume && rules.lane in db.checkpoints then
      var ck := db.checkpoints[rules.lane];
      if ck.meta.labels == rules.labels && ck.meta.universe == u && ck.cursor < rules.size(u) && rules.consistent(ck.cursor, ck.meta.state)
      then Resume(ck.cursor, ck.meta.state) else Refuse
    else if resume && !rules.missing.StartsFresh? then Refuse
    else Fresh
  }

  ghost function Body<U, S, F, C>(rules: Rules<U, S, F, C>, db: CursorDb<U, S, C>, resume: bool, budget: Option<nat>, world: World<U, F>)
    : (w: Written<U, S, C>)
    ensures Open(w.db, |db.runs|, rules.lane)
  {
    var run := |db.runs|;
    var begun: CursorDb<U, S, C> := StartRun(db, rules.lane);
    if world.universe.Dies? then Written(begun, Killed, 0)
    else if world.universe.Raises? || !rules.accepts(world.universe.value) then Written(begun, Raised, 0)
    else
      var u := world.universe.value;
      match StartOf(rules, db, resume, u)
      case Refuse => Written(begun, Raised, 0)
      case Resume(cursor, state) => Drive(rules, u, begun, run, cursor, state, budget, world, 0)
      case Fresh =>
        var o := WriteBlank(begun, run, rules.lane, rules.opening(u), 0, CursorMeta(rules.labels, u, rules.init), world.persist, 0);
        if o.ending.Going? then Drive(rules, u, o.db, run, 0, rules.init, budget, world, o.commits) else o
  }

  ghost predicate RefusedEarly<U, S, F, C>(rules: Rules<U, S, F, C>, db: CursorDb<U, S, C>, resume: bool) {
    resume && rules.missing.RefusedBeforeRun? && rules.lane !in db.checkpoints
  }

  function StatusFor(ending: Ending, commits: nat): Status {
    match ending
    case Complete => Success
    case BudgetReached => Partial
    case Raised => if commits > 0 then Partial else Failed
    case _ => Running
  }

  ghost function Enumerate<U, S, F, C>(rules: Rules<U, S, F, C>, db: CursorDb<U, S, C>, resume: bool, budget: Option<nat>, world: World<U, F>)
    : Written<U, S, C>
  {
    if RefusedEarly(rules, db, resume) then Written(db, Raised, 0)
    else
      var w := Body(rules, db, resume, budget, world);
      if w.ending.Killed? then w else w.(db := FinishRun(w.db, |db.runs|, StatusFor(w.ending, w.commits)))
  }

  // ---------------------------------------------------------------- the loop as code

  class CursorEnumerator<U(==), S, F, C(==)> {
    const rules: Rules<U, S, F, C>
    const repository: Repository<CursorMeta<U, S>, C>

    constructor (rules: Rules<U, S, F, C>, repository: Repository<CursorMeta<U, S>, C>)
      ensures this.rules == rules && this.repository == repository
    {
      this.rules, this.repository := rules, repository;
    }

    method CommitOne(run: nat, page: seq<(Key, C)>, cursor: nat, meta: CursorMeta<U, S>, persist: nat -> Persist, n: nat)
      returns (ending: Ending, commits: nat)
      requires Open(repository.State(), run, rules.lane)
      modifies repository
      ensures Written(repository.State(), ending, commits) == old(WriteOne(repository.State(), run, rules.lane, page, cursor, meta, persist, n))
      ensures Open(repository.State(), run, rules.lane)
    {
      var p := persist(n);
      if p.DiesBefore? { return Killed, n; }
      var ids := repository.CommitSourcePage(run, InLane(rules.lane, page), cursor, meta, !p.RollsBack?);
      if ids.None? { return Raised, n; }
      ending, commits := if p.DiesAfter? then Killed else Going, n + 1;
    }

    method CommitBlank(run: nat, k: nat, cursor: nat, meta: CursorMeta<U, S>, persist: nat -> Persist, n: nat)
      returns (ending: Ending, commits: nat)
      requires Open(repository.State(), run, rules.lane)
      modifies repository
      ensures Written(repository.State(), ending, commits) == old(WriteBlank(repository.State(), run, rules.lane, k, cursor, meta, persist, n))
      ensures Open(repository.State(), run, rules.lane)
    {
      hide WriteOne;
      ending, commits := Going, n;
      var i := 0;
      while i < k && ending.Going?
        invariant i <= k && Open(repository.State(), run, rules.lane)
        invariant old(WriteBlank(repository.State(), run, rules.lane, k, cursor, meta, persist, n))
                  == if ending.Going? then WriteBlank(repository.State(), run, rules.lane, k - i, cursor, meta, persist, commits)
                     else Written(repository.State(), ending, commits)
      {
        ending, commits := CommitOne(run, [], cursor, meta, persist, commits);
        i := i + 1;
      }
    }

    /** One invocation; the store, the ending and the number of commits are those of `Enumerate`. */
    method Run(resume: bool, budget: Option<nat>, world: World<U, F>) returns (ending: Ending, commits: nat)
      modifies repository
      ensures Written(repository.State(), ending, commits) == old(Enumerate(rules, repository.State(), resume, budget, world))
    {
      hide Body;
      var prior := repository.SourceCheckpoint(rules.lane);
      if resume && prior.None? && rules.missing.RefusedBeforeRun? { return Raised, 0; }
      var run := repository.StartSourceRun(rules.lane);
      ending, commits := RunBody(run, prior, resume, budget, world, old(repository.State()));
      if !ending.Killed? {
        var _ := repository.FinishSourceRun(run, StatusFor(ending, commits));
      }
    }

    method RunBody(run: nat, prior: Option<Checkpoint<CursorMeta<U, S>>>, resume: bool, budget: Option<nat>, world: World<U, F>,
                   ghost db: CursorDb<U, S, C>)
      returns (ending: Ending, commits: nat)
      requires repository.State() == StartRun(db, rules.lane) && run == |db.runs|
      requires prior == if rules.lane in db.checkpoints then Some(db.checkpoints[rules.lane]) else None
      modifies repository
      ensures Written(repository.State(), ending, commits) == Body(rules, db, resume, budget, world) && !ending.Going?
    {
      hide Drive, WriteBlank;
      ending, commits := Raised, 0;
      if world.universe.Dies? { return Killed, 0; }
      if world.universe.Raises? || !rules.accepts(world.universe.value) { return; }
      var u := world.universe.value;
      var pos, s := 0, rules.init;
      if resume && prior.Some? {
        var ck := prior.value;
        if ck.meta.labels != rules.labels || ck.meta.universe != u || ck.cursor >= rules.size(u) || !rules.consistent(ck.cursor, ck.meta.state) {
          return;
        }
        pos, s := ck.cursor, ck.meta.state;
      } else if resume && !rules.missing.StartsFresh? {
        return;
      } else {
        ending, commits := CommitBlank(run, rules.opening(u), 0, CursorMeta(rules.labels, u, rules.init), world.persist, 0);
        if !ending.Going? { return; }
      }
      ending, commits := CommitItems(run, u, pos, s, budget, world, commits);
    }

    method CommitItems(run: nat, u: U, start: nat, resumed: S, budget: Option<nat>, world: World<U, F>, n: nat)
      returns (ending: Ending, commits: nat)
      requires Open(repository.State(), run, rules.lane)
      modifies repository
      ensures Written(repository.State(), ending, commits) == old(Drive(rules, u, repository.State(), run, start, resumed, budget, world, n))
      ensures !ending.Going?
    {
      hide WriteOne, WriteBlank;
      var pos, s, left := start, resumed, budget;
      commits := n;
      while pos < rules.size(u)
        invariant Open(repository.State(), run, rules.lane)
        invariant old(Drive(rules, u, repository.State(), run, start, resumed, budget, world, n))
                  == Drive(rules, u, repository.State(), run, pos, s, left, world, commits)
        decreases rules.size(u) - pos
      {
        if left == Some(0) { return BudgetReached, commits; }
        var got := world.item(pos);
        if got.Dies? { return Killed, commits; }
        if got.Raises? { return Raised, commits; }
        var step := rules.step(u, pos, s, got.value);
        if step.None? { return Raised, commits; }
        var a := step.value;
        var meta := CursorMeta(rules.labels, u, a.after);
        ending, commits := CommitBlank(run, a.leading, pos, meta, world.persist, commits);
        if !ending.Going? { return; }
        ending, commits := CommitOne(run, a.observations, pos + 1, meta, world.persist, commits);
        if !ending.Going? { return; }
        pos, s, left := pos + 1, a.after, Spend(left);
      }
      ending := if rules.covered(u, s) then Complete else Raised;
    }
  }
}
