/** The ingestion store: append-only observations unique per (lane, key, content),
    one checkpoint per lane and one receipt per source run.  A lane is a
    (feeder, scope_key) pair.  `Db` is the abstract value; `Repository` is the
    object whose methods update it, one atomic transaction per page. */
module Store {
  import opened Prelude

  datatype Lane = Lane(feeder: string, scope: string)

  datatype Status = Running | Success | Partial | Failed

  /** `content` stands for the canonical normalized record that the source
      represents by its content hash. */
  datatype Observation<C> = Observation(lane: Lane, key: Key, content: C)

  datatype Run = Run(lane: Lane, status: Status, before: Option<nat>, after: Option<nat>,
                     seen: nat, created: nat, reused: nat)

  datatype Checkpoint<M> = Checkpoint(cursor: nat, meta: M, lastRun: nat)

  /** What becomes of one commit: it may be rolled back, and the process may die around it. */
  datatype Persist = Commits | RollsBack | DiesBefore | DiesAfter

  datatype Db<M, C> = Db(rows: seq<Observation<C>>, checkpoints: map<Lane, Checkpoint<M>>, runs: seq<Run>)

  // ---------------------------------------------------------------- transactions as values

  function StartRun<M, C>(db: Db<M, C>, lane: Lane): Db<M, C> {
    var before := if lane in db.checkpoints then Some(db.checkpoints[lane].cursor) else None;
    db.(runs := db.runs + [Run(lane, Running, before, None, 0, 0, 0)])
  }

  predicate IsRunning<M, C>(db: Db<M, C>, run: nat) {
    run < |db.runs| && db.runs[run].status.Running?
  }

  function FinishRun<M, C>(db: Db<M, C>, run: nat, status: Status): Db<M, C>
    requires IsRunning(db, run)
  {
    db.(runs := db.runs[run := db.runs[run].(status := status)])
  }

  /** A page is admitted when its run is running and every observation is in the run's lane. */
  ghost predicate Admits<M, C>(db: Db<M, C>, run: nat, page: seq<Observation<C>>) {
    IsRunning(db, run) && forall o :: o in page ==> o.lane == db.runs[run].lane
  }

  /** Appends the observations that are not stored yet, in page order. */
  function Merge<C(==)>(rows: seq<Observation<C>>, page: seq<Observation<C>>): seq<Observation<C>> {
    if page == [] then rows
    else
      var before := Merge(rows, page[..|page| - 1]);
      var o := page[|page| - 1];
      if o in before then before else before + [o]
  }

  ghost function CommitPage<M, C>(db: Db<M, C>, run: nat, page: seq<Observation<C>>, cursor: nat, meta: M): Db<M, C>
    requires Admits(db, run, page)
  {
    var rows := Merge(db.rows, page);
    MergeAppends(db.rows, page);
    var created := |rows| - |db.rows|;
    var r := db.runs[run];
    Db(rows,
       db.checkpoints[r.lane := Checkpoint(cursor, meta, run)],
       db.runs[run := r.(after := Some(cursor), seen := r.seen + |page|, created := r.created + created,
                         reused := r.reused + |page| - created)])
  }

  // ---------------------------------------------------------------- what a commit keeps

  /** The observation table only grows at its end, by at most one row per page observation. */
  lemma {:induction false} MergeAppends<C>(rows: seq<Observation<C>>, page: seq<Observation<C>>)
    ensures rows <= Merge(rows, page)
    ensures |Merge(rows, page)| <= |rows| + |page|
  {
    if page != [] { MergeAppends(rows, page[..|page| - 1]); }
  }

  /** After the merge exactly the old rows and the page's observations are stored. */
  lemma {:induction false} MergeStores<C>(rows: seq<Observation<C>>, page: seq<Observation<C>>)
    ensures forall o :: o in Merge(rows, page) <==> o in rows || o in page
  {
    if page != [] {
      var init := page[..|page| - 1];
      MergeStores(rows, init);
      assert page == init + [page[|page| - 1]];
    }
  }

  /** The table's unique constraint on (feeder, scope, key, content) is never broken. */
  lemma {:induction false} MergeKeepsUnique<C>(rows: seq<Observation<C>>, page: seq<Observation<C>>)
    requires NoRepeats(rows)
    ensures NoRepeats(Merge(rows, page))
  {
    if page != [] { MergeKeepsUnique(rows, page[..|page| - 1]); }
  }

  /** Committing a page a second time stores nothing new. */
  lemma {:induction false} MergeIsIdempotent<C>(rows: seq<Observation<C>>, page: seq<Observation<C>>)
    requires forall o :: o in page ==> o in rows
    ensures Merge(rows, page) == rows
  {
    if page != [] {
      var init := page[..|page| - 1];
      assert forall o :: o in init ==> o in page;
      MergeIsIdempotent(rows, init);
    }
  }

  ghost function Stored<C>(rows: seq<Observation<C>>): set<Observation<C>> {
    set o | o in rows
  }

  /** The run's counters follow the table: what it created is what the table grew by, and all it saw
      was created or reused. */
  ghost predicate Accounts(r: Run, after: Run, grown: int) {
    && after.lane == r.lane && after.before == r.before && after.created == r.created + grown
    && after.created + after.reused - after.seen == r.created + r.reused - r.seen
  }

  /** The receipt of a run of the lane that began with `db` and ended with `after`. */
  ghost predicate IsReceipt<M, C>(db: Db<M, C>, after: Db<M, C>, lane: Lane) {
    |after.runs| == |db.runs| + 1 && |after.rows| >= |db.rows|
    && var r := after.runs[|db.runs|];
       && r.lane == lane && r.before == (if lane in db.checkpoints then Some(db.checkpoints[lane].cursor) else None)
       && r.created == |after.rows| - |db.rows| && r.seen == r.created + r.reused
  }

  /** One commit: rows are appended, the lane's checkpoint moves to the given cursor and
      names the run, other lanes and other runs are untouched, and the run's counters
      account for every observation of the page. */
  lemma CommitMeaning<M, C>(db: Db<M, C>, run: nat, page: seq<Observation<C>>, cursor: nat, meta: M)
    requires Admits(db, run, page)
    ensures var after := CommitPage(db, run, page, cursor, meta);
            && db.rows <= after.rows
            && Stored(after.rows) == Stored(db.rows) + Stored(page)
            && (NoRepeats(db.rows) ==> NoRepeats(after.rows))
    ensures var after, lane := CommitPage(db, run, page, cursor, meta), db.runs[run].lane;
            && after.checkpoints == db.checkpoints[lane := Checkpoint(cursor, meta, run)]
            && IsRunning(after, run) && after.runs[run].lane == lane && after.runs[run].after == Some(cursor)
            && after.runs == db.runs[run := after.runs[run]]
    ensures var r, r' := db.runs[run], CommitPage(db, run, page, cursor, meta).runs[run];
            && r'.created - r.created == |CommitPage(db, run, page, cursor, meta).rows| - |db.rows|
            && r'.created + r'.reused == r.created + r.reused + |page| && r'.seen == r.seen + |page|
            && Accounts(r, r', |CommitPage(db, run, page, cursor, meta).rows| - |db.rows|)
  {
    MergeAppends(db.rows, page);
    MergeStores(db.rows, page);
    if NoRepeats(db.rows) { MergeKeepsUnique(db.rows, page); }
    assert Stored(Merge(db.rows, page)) == Stored(db.rows) + Stored(page);
  }

  lemma CommitKeepsRun<M, C>(db: Db<M, C>, run: nat, page: seq<Observation<C>>, cursor: nat, meta: M)
    requires Admits(db, run, page)
    ensures IsRunning(CommitPage(db, run, page, cursor, meta), run)
    ensures CommitPage(db, run, page, cursor, meta).runs[run].lane == db.runs[run].lane
  {
    CommitMeaning(db, run, page, cursor, meta);
  }

  /** `ids` lists the stored row of every manifest entry, in ascending key order. */
  ghost predicate ListedBy<C>(rows: seq<Observation<C>>, lane: Lane, manifest: map<Key, C>, ids: seq<nat>, keys: seq<Key>) {
    && |ids| == |keys| == |manifest| && Ascending(keys) && NoRepeats(keys)
    && forall i :: 0 <= i < |ids| ==> keys[i] in manifest && ids[i] < |rows| && rows[ids[i]] == Observation(lane, keys[i], manifest[keys[i]])
  }

  // ---------------------------------------------------------------- the repository object

  class Repository<M, C(==)> {
    var rows: seq<Observation<C>>
    var checkpoints: map<Lane, Checkpoint<M>>
    var runs: seq<Run>

    ghost function State(): Db<M, C>
      reads this
    {
      Db(rows, checkpoints, runs)
    }

    constructor ()
      ensures State() == Db([], map[], [])
    {
      rows, checkpoints, runs := [], map[], [];
    }

    method SourceCheckpoint(lane: Lane) returns (r: Option<Checkpoint<M>>)
      ensures r == if lane in State().checkpoints then Some(State().checkpoints[lane]) else None
    {
      r := if lane in checkpoints then Some(checkpoints[lane]) else None;
    }

    method StartSourceRun(lane: Lane) returns (run: nat)
      modifies this
      ensures State() == StartRun(old(State()), lane) && run == |old(runs)|
      ensures rows == old(rows) && checkpoints == old(checkpoints)
      ensures runs == old(runs) + [Run(lane, Running, if lane in checkpoints then Some(checkpoints[lane].cursor) else None, None, 0, 0, 0)]
      ensures IsRunning(State(), run) && runs[run].lane == lane
    {
      var before := if lane in checkpoints then Some(checkpoints[lane].cursor) else None;
      run := |runs|;
      runs := runs + [Run(lane, Running, before, None, 0, 0, 0)];
    }

    /** A run that is missing or already finished, or a status that finishes nothing, is refused
        and nothing changes. */
    method FinishSourceRun(run: nat, status: Status) returns (ok: bool)
      modifies this
      ensures ok == (!status.Running? && old(IsRunning(State(), run)))
      ensures State() == if ok then FinishRun(old(State()), run, status) else old(State())
      ensures rows == old(rows) && checkpoints == old(checkpoints)
      ensures runs == if ok then old(runs)[run := old(runs)[run].(status := status)] else old(runs)
    {
      ok := !status.Running? && run < |runs| && runs[run].status.Running?;
      if ok {
        runs := runs[run := runs[run].(status := status)];
      }
    }

    /** Atomically stores the page's new observations and moves the checkpoint, or
        refuses and leaves the store as it was.  On success `ids[i]` is the row that
        holds `page[i]`, whether it was created or already there.  `goes` is the outcome of
        what is not modelled: the checks of policy, source and snapshot, and the database. */
    method CommitSourcePage(run: nat, page: seq<Observation<C>>, cursor: nat, meta: M, goes: bool) returns (ids: Option<seq<nat>>)
      modifies this
      ensures ids.Some? <==> goes && old(Admits(State(), run, page))
      ensures ids.None? ==> State() == old(State())
      ensures ids.Some? ==>
                && State() == CommitPage(old(State()), run, page, cursor, meta)
                && |ids.value| == |page|
                && forall i :: 0 <= i < |page| ==> ids.value[i] < |rows| && rows[ids.value[i]] == page[i]
    {
      if !(run < |runs| && runs[run].status.Running?) || !goes {
        return None;
      }
      var r := runs[run];
      for i := 0 to |page|
        invariant forall j :: 0 <= j < i ==> page[j].lane == r.lane
      {
        if page[i].lane != r.lane {
          assert page[i] in page;
          return None;
        }
      }
      var next, found := MergePage(r.lane, page);
      MergeAppends(rows, page);
      var created := |next| - |rows|;
      rows := next;
      checkpoints := checkpoints[r.lane := Checkpoint(cursor, meta, run)];
      runs := runs[run := r.(after := Some(cursor), seen := r.seen + |page|, created := r.created + created,
                             reused := r.reused + |page| - created)];
      ids := Some(found);
    }

    /** The table as it will be after the page, and the row of each observation. */
    method MergePage(lane: Lane, page: seq<Observation<C>>) returns (next: seq<Observation<C>>, found: seq<nat>)
      requires forall o :: o in page ==> o.lane == lane
      ensures next == Merge(rows, page)
      ensures |found| == |page|
      ensures forall i :: 0 <= i < |page| ==> found[i] < |next| && next[found[i]] == page[i]
    {
      hide Merge, Indexes;
      var keys := set o | o in page :: o.key;
      var existing: map<(Key, C), nat> := ExistingByIdentity(lane, keys);
      next, found := rows, [];
      MergeNothing(rows, page);
      for i := 0 to |page|
        invariant next == Merge(rows, page[..i])
        invariant |found| == i
        invariant forall j :: 0 <= j < i ==> found[j] < |next| && next[found[j]] == page[j]
        invariant Indexes(existing, next, lane, keys)
      {
        var o := page[i];
        assert o in page;
        IndexesTell(existing, next, lane, keys, o);
        MergeOneMore(rows, page, i);
        if (o.key, o.content) in existing {
          found := found + [existing[(o.key, o.content)]];
        } else {
          found, existing := found + [|next|], existing[(o.key, o.content) := |next|];
          next := next + [o];
        }
      }
      assert page[..|page|] == page;
    }

    /** The rows of one lane that carry one of the given keys, by identity. */
    method ExistingByIdentity(lane: Lane, keys: set<Key>) returns (existing: map<(Key, C), nat>)
      ensures Indexes(existing, rows, lane, keys)
    {
      existing := map[];
      for i := 0 to |rows|
        invariant Indexes(existing, rows[..i], lane, keys)
      {
        var o := rows[i];
        if o.lane == lane && o.key in keys {
          existing := existing[(o.key, o.content) := i];
        }
        assert rows[..i + 1] == rows[..i] + [o];
      }
      assert rows[..|rows|] == rows;
    }
  }

  lemma MergeNothing<C>(rows: seq<Observation<C>>, page: seq<Observation<C>>)
    ensures Merge(rows, page[..0]) == rows
  {
  }

  lemma MergeOneMore<C>(rows: seq<Observation<C>>, page: seq<Observation<C>>, i: nat)
    requires i < |page|
    ensures var before := Merge(rows, page[..i]); Merge(rows, page[..i + 1]) == if page[i] in before then before else before + [page[i]]
  {
    assert page[..i + 1][..i] == page[..i];
  }

  /** An index tells whether an observation of its lane and keys is stored, and where. */
  lemma IndexesTell<C>(existing: map<(Key, C), nat>, rows: seq<Observation<C>>, lane: Lane, keys: set<Key>, o: Observation<C>)
    requires Indexes(existing, rows, lane, keys) && o.lane == lane && o.key in keys
    ensures (o.key, o.content) in existing <==> o in rows
    ensures (o.key, o.content) in existing ==> existing[(o.key, o.content)] < |rows| && rows[existing[(o.key, o.content)]] == o
    ensures Indexes(existing[(o.key, o.content) := |rows|], rows + [o], lane, keys)
  {
  }

  ghost predicate Indexes<C>(existing: map<(Key, C), nat>, rows: seq<Observation<C>>, lane: Lane, keys: set<Key>) {
    && (forall kc :: kc in existing ==> existing[kc] < |rows| && rows[existing[kc]] == Observation(lane, kc.0, kc.1))
    && (forall o :: o in rows && o.lane == lane && o.key in keys ==> (o.key, o.content) in existing)
  }
}
