/** Safety of the page loop under an adversarial provider: totals may drift, pages may
    repeat, rows may vanish, page sizes may differ between runs, and a run may be cut off
    anywhere.  The checkpoint always describes pages 1..cursor that really were committed. */
module PagingSafety {
  import opened Prelude
  import opened Store
  import opened Paging

  function Union(prints: seq<Hashes>): Hashes {
    if prints == [] then map[] else Union(prints[..|prints| - 1]) + prints[|prints| - 1]
  }

  ghost predicate PairwiseDisjoint(prints: seq<Hashes>) {
    forall i, j :: 0 <= i < j < |prints| ==> prints[i].Keys !! prints[j].Keys
  }

  ghost predicate Holds(rows: seq<Observation<Hash>>, lane: Lane, seen: Hashes) {
    forall key :: key in seen ==> Observation(lane, key, seen[key]) in rows
  }

  /** `st` is what `c` committed pages with pairwise disjoint keys add up to, all of it stored. */
  ghost predicate Lineage(rows: seq<Observation<Hash>>, lane: Lane, c: nat, st: Progress) {
    && |st.prints| == c && st.seen == Union(st.prints) && PairwiseDisjoint(st.prints)
    && Holds(rows, lane, st.seen)
  }

  ghost predicate Sound(db: PageDb, lane: Lane) {
    lane in db.checkpoints ==>
      var ck := db.checkpoints[lane];
      && 1 <= ck.cursor <= ck.meta.pages && ck.meta.pageSize >= 1 && ck.meta.pages == Pages(ck.meta.total, ck.meta.pageSize)
      && Lineage(db.rows, lane, ck.cursor, ProgressOf(ck.meta))
  }

  /** Pages 1..N were all committed under one total T and carry T distinct keys. */
  ghost predicate Complete(db: PageDb, lane: Lane) {
    && Sound(db, lane) && lane in db.checkpoints
    && var ck := db.checkpoints[lane]; ck.cursor == ck.meta.pages && |ck.meta.seen| == ck.meta.total
  }

  lemma {:induction false} UnionKeys(prints: seq<Hashes>, key: Key)
    ensures key in Union(prints) <==> exists i :: 0 <= i < |prints| && key in prints[i]
  {
    if prints != [] {
      var n := |prints| - 1;
      UnionKeys(prints[..n], key);
      if i :| 0 <= i < |prints| && key in prints[i] {
        if i < n { assert key in prints[..n][i]; }
      }
      if key in Union(prints[..n]) {
        var i :| 0 <= i < n && key in prints[..n][i];
        assert key in prints[i];
      }
    }
  }

  lemma DisjointCard(a: Hashes, b: Hashes)
    requires a.Keys !! b.Keys
    ensures |a + b| == |a| + |b|
  {
    assert (a + b).Keys == a.Keys + b.Keys;
    assert |a.Keys + b.Keys| == |a.Keys| + |b.Keys|;
  }

  /** A nonempty page whose keys are new can never repeat an earlier page fingerprint: the
      loop's duplicate-content check only ever decides about empty pages. */
  lemma FreshPageIsNoRepeat(k: Contract, prints: seq<Hashes>, records: seq<Record>)
    requires AcceptsRecords(k, Union(prints), records) && records != []
    ensures PageHashes(records) !in prints
  {
    HashesAreRecords(records);
    var key := records[0].key;
    assert Fits(k, Union(prints), records[0]);
    UnionKeys(prints, key);
    forall i | 0 <= i < |prints| ensures prints[i] != PageHashes(records) {
      assert key !in prints[i];
    }
  }

  /** Records whose keys are new extend a lineage of page fingerprints. */
  lemma PrintsExtend(k: Contract, st: Progress, records: seq<Record>, st': Progress)
    requires st.seen == Union(st.prints) && PairwiseDisjoint(st.prints) && AcceptsRecords(k, st.seen, records)
    requires st'.seen == st.seen + PageHashes(records) && st'.prints == st.prints + [PageHashes(records)]
    ensures st'.seen == Union(st'.prints) && PairwiseDisjoint(st'.prints)
    ensures |st'.seen| == |st.seen| + |records| && |PageHashes(records)| == |records|
  {
    var hashes, n := PageHashes(records), |st.prints|;
    HashesAreRecords(records);
    assert st'.prints[..n] == st.prints;
    forall key | key in hashes ensures key !in st.seen {
      HashesKeys(records, key);
      var i :| 0 <= i < |records| && records[i].key == key;
      assert Fits(k, st.seen, records[i]);
    }
    forall i, key | 0 <= i < n && key in st.prints[i] ensures key !in hashes { UnionKeys(st.prints, key); }
    DisjointCard(st.seen, hashes);
  }

  lemma PageHolds(lane: Lane, rows: seq<Observation<Hash>>, seen: Hashes, records: seq<Record>)
    requires DistinctKeys(records) && Holds(rows, lane, seen)
    ensures Holds(Merge(rows, Observations(lane, records)), lane, seen + PageHashes(records))
  {
    hide Merge, PageHashes;
    var page, hashes := Observations(lane, records), PageHashes(records);
    MergeStores(rows, page);
    HashesAreRecords(records);
    forall key | key in hashes ensures Observation(lane, key, hashes[key]) in page {
      HashesKeys(records, key);
      var i :| 0 <= i < |records| && records[i].key == key;
      assert page[i] == Observation(lane, key, hashes[key]);
    }
  }

  /** Committing an accepted page extends the lineage by one page of the required size. */
  lemma CommitExtends(k: Contract, db: PageDb, run: nat, p: nat, st: Progress, d: Document)
    requires p >= 1 && IsRunning(db, run) && db.runs[run].lane == k.lane
    requires Accepts(k, st, p, d) && Lineage(db.rows, k.lane, p - 1, st)
    ensures var next, st' := CommitOf(k, db, run, p, st, d), Advance(k, st, d);
            && Lineage(next.rows, k.lane, p, st')
            && |st'.seen| == |st.seen| + RowCount(TotalOf(d), k.pageSize, p)
            && |PageHashes(d.records)| == RowCount(TotalOf(d), k.pageSize, p)
            && next.checkpoints == db.checkpoints[k.lane := Checkpoint(p, MetaOf(k, st'), run)]
            && Sound(next, k.lane)
  {
    var st' := Advance(k, st, d);
    PrintsExtend(k, st, d.records, st');
    PageHolds(k.lane, db.rows, st.seen, d.records);
  }

  /** The store after a walk: still sound, rows only appended, the run still open. */
  ghost predicate Kept(k: Contract, db: PageDb, run: nat, after: PageDb) {
    && IsRunning(after, run) && after.runs[run].lane == k.lane && |after.runs| == |db.runs|
    && db.rows <= after.rows && Sound(after, k.lane)
    && (NoRepeats(db.rows) ==> NoRepeats(after.rows))
    && run < |db.runs| && Accounts(db.runs[run], after.runs[run], |after.rows| - |db.rows|)
    && (forall r :: 0 <= r < |db.runs| && r != run ==> after.runs[r] == db.runs[r]) && OthersKept(db, after, k.lane)
  }

  /** The checkpoints of other lanes are as they were. */
  ghost predicate OthersKept(db: PageDb, after: PageDb, lane: Lane) {
    forall other :: other != lane ==> (other in after.checkpoints <==> other in db.checkpoints)
                                      && (other in db.checkpoints ==> after.checkpoints[other] == db.checkpoints[other])
  }

  /** The checkpoint after `m > 0` commits of pages p, p + 1, ...: it names the run and the run's
      last page, and its key count and the walk's ending agree with the page arithmetic. */
  ghost predicate Moved(k: Contract, run: nat, p: nat, st: Progress, m: nat, w: Walked) {
    && p >= 1 && k.lane in w.db.checkpoints && run < |w.db.runs|
    && var ck := w.db.checkpoints[k.lane];
       && ck.lastRun == run && w.db.runs[run].after == Some(ck.cursor)
       && ck.cursor == p - 1 + m && ck.meta.pageSize == k.pageSize && ck.meta.labels == k.labels
       && (st.expected.Some? ==> st.expected.value == Expected(ck.meta.total, ck.meta.pages))
       && (w.ending.Finished? ==> ck.cursor == ck.meta.pages && |ck.meta.seen| == ck.meta.total)
       && (w.ending.Raised? && ck.cursor == ck.meta.pages ==> |ck.meta.seen| != ck.meta.total)
       && |ck.meta.seen| == |st.seen| + RowsThrough(ck.meta.total, k.pageSize, ck.cursor) - RowsThrough(ck.meta.total, k.pageSize, p - 1)
  }

  ghost predicate SafeWalk(k: Contract, db: PageDb, run: nat, p: nat, st: Progress, n: nat, w: Walked) {
    && Kept(k, db, run, w.db) && w.committed >= n
    && (w.committed == n ==> w.db == db && !w.ending.Finished?)
    && (w.committed > n ==> Moved(k, run, p, st, w.committed - n, w))
  }

  lemma OneCommitIsSafe(k: Contract, db: PageDb, run: nat, p: nat, st: Progress, d: Document, n: nat, ending: Ending)
    requires p >= 1 && IsRunning(db, run) && db.runs[run].lane == k.lane
    requires Accepts(k, st, p, d) && Lineage(db.rows, k.lane, p - 1, st)
    requires var st' := Advance(k, st, d); var last := p == st'.expected.value.pages;
             && (ending.Finished? ==> last && |st'.seen| == st'.expected.value.total)
             && (ending.Raised? && last ==> |st'.seen| != st'.expected.value.total)
    ensures SafeWalk(k, db, run, p, st, n, Walked(CommitOf(k, db, run, p, st, d), ending, n + 1))
  {
    hide Kept, Moved, CommitOf, Accepts, Lineage, Pages, RowCount, PageHashes, MetaOf, Advance;
    CommitReads(k, db, run, p, st, d);
    MovedByOne(k, run, p, st, Advance(k, st, d), Walked(CommitOf(k, db, run, p, st, d), ending, n + 1));
  }

  lemma MovedByOne(k: Contract, run: nat, p: nat, st: Progress, st': Progress, w: Walked)
    requires p >= 1 && st'.expected.Some? && k.lane in w.db.checkpoints && run < |w.db.runs|
    requires w.db.checkpoints[k.lane] == Checkpoint(p, MetaOf(k, st'), run) && w.db.runs[run].after == Some(p)
    requires |st'.seen| == |st.seen| + RowCount(st'.expected.value.total, k.pageSize, p) && (st.expected.Some? ==> st.expected == st'.expected)
    requires var last := p == st'.expected.value.pages;
             && (w.ending.Finished? ==> last && |st'.seen| == st'.expected.value.total)
             && (w.ending.Raised? && last ==> |st'.seen| != st'.expected.value.total)
    ensures Moved(k, run, p, st, 1, w)
  {
    hide RowCount;
    var total := st'.expected.value.total;
    assert RowsThrough(total, k.pageSize, p) == RowsThrough(total, k.pageSize, p - 1) + RowCount(total, k.pageSize, p);
  }

  /** The store and the progress right after one commit. */
  lemma CommitReads(k: Contract, db: PageDb, run: nat, p: nat, st: Progress, d: Document)
    requires p >= 1 && IsRunning(db, run) && db.runs[run].lane == k.lane
    requires Accepts(k, st, p, d) && Lineage(db.rows, k.lane, p - 1, st)
    ensures var next, st' := CommitOf(k, db, run, p, st, d), Advance(k, st, d);
            && Kept(k, db, run, next) && IsRunning(next, run)
            && next.checkpoints == db.checkpoints[k.lane := Checkpoint(p, MetaOf(k, st'), run)]
            && next.runs[run].after == Some(p)
            && st'.expected.Some? && st'.expected.value.total == TotalOf(d)
            && |st'.seen| == |st.seen| + RowCount(TotalOf(d), k.pageSize, p)
            && (st.expected.Some? ==> st.expected == st'.expected)
  {
    hide Pages, RowCount, Sound, CommitPage, Merge, Accepts, Lineage, Accounts, NoRepeats, MetaOf, Kept, Advance;
    AcceptedExpects(k, st, p, d);
    CommitMeaning(db, run, Observations(k.lane, d.records), p, MetaOf(k, Advance(k, st, d)));
    CommitExtends(k, db, run, p, st, d);
    KeptByCommit(k, db, run, CommitOf(k, db, run, p, st, d), Checkpoint(p, MetaOf(k, Advance(k, st, d)), run));
  }

  lemma AcceptedExpects(k: Contract, st: Progress, p: nat, d: Document)
    requires p >= 1 && Accepts(k, st, p, d)
    ensures var st' := Advance(k, st, d); st'.expected.Some? && st'.expected.value.total == TotalOf(d) && (st.expected.Some? ==> st.expected == st'.expected)
  {
    hide Pages, RowCount, PageHashes, AcceptsHeader, AcceptsRecords;
  }

  lemma KeptByCommit(k: Contract, db: PageDb, run: nat, next: PageDb, ck: Checkpoint<PageMeta>)
    requires IsRunning(db, run) && IsRunning(next, run) && next.runs == db.runs[run := next.runs[run]] && next.runs[run].lane == k.lane
    requires db.rows <= next.rows && (NoRepeats(db.rows) ==> NoRepeats(next.rows)) && Sound(next, k.lane)
    requires next.checkpoints == db.checkpoints[k.lane := ck]
    requires Accounts(db.runs[run], next.runs[run], |next.rows| - |db.rows|)
    ensures Kept(k, db, run, next)
  {
    hide Sound, NoRepeats, Accounts;
    MovesOneLane(db, next, k.lane, ck);
  }

  lemma MovesOneLane(db: PageDb, next: PageDb, lane: Lane, ck: Checkpoint<PageMeta>)
    requires next.checkpoints == db.checkpoints[lane := ck]
    ensures OthersKept(db, next, lane)
  {
  }

  lemma SafeThenSafe(k: Contract, db: PageDb, mid: PageDb, run: nat, p: nat, st: Progress, st': Progress, n: nat, w: Walked)
    requires SafeWalk(k, db, run, p, st, n, Walked(mid, Killed, n + 1))
    requires st'.expected.Some? && k.lane in mid.checkpoints && mid.checkpoints[k.lane].meta == MetaOf(k, st') && mid.checkpoints[k.lane].cursor == p
    requires w.ending.Raised? && w.committed == n + 1 ==> p != st'.expected.value.pages
    requires SafeWalk(k, mid, run, p + 1, st', n + 1, w)
    ensures SafeWalk(k, db, run, p, st, n, w)
  {
  }

  /** What every walk keeps and how its ending reads off the store. */
  lemma {:induction false} WalkIsSafe(k: Contract, db: PageDb, run: nat, p: nat, st: Progress, provider: Provider, n: nat)
    requires p >= 1 && IsRunning(db, run) && db.runs[run].lane == k.lane
    requires Lineage(db.rows, k.lane, p - 1, st) && Sound(db, k.lane)
    ensures SafeWalk(k, db, run, p, st, n, Walk(k, db, run, p, st, provider, n))
    decreases Left(k, st, p, provider)
  {
    hide *;
    var a := provider(p);
    var w := Walk(k, db, run, p, st, provider, n);
    if !CommitsPage(k, st, p, a) {
      WalkStops(k, db, run, p, st, provider, n);
      NoCommitIsSafe(k, db, run, p, st, n, w);
    } else {
      WalkCommits(k, db, run, p, st, provider, n);
      var d := a.fetch.document;
      var st', next := Advance(k, st, d), CommitOf(k, db, run, p, st, d);
      CommitExtends(k, db, run, p, st, d);
      if a.persist.DiesAfter? || p == st'.expected.value.pages {
        OneCommitIsSafe(k, db, run, p, st, d, n, w.ending);
      } else {
        OneCommitIsSafe(k, db, run, p, st, d, n, Killed);
        WalkIsSafe(k, next, run, p + 1, st', provider, n + 1);
        SafeThenSafe(k, db, next, run, p, st, st', n, w);
      }
    }
  }

  lemma NoCommitIsSafe(k: Contract, db: PageDb, run: nat, p: nat, st: Progress, n: nat, w: Walked)
    requires IsRunning(db, run) && db.runs[run].lane == k.lane && Sound(db, k.lane)
    requires w.db == db && w.committed == n && !w.ending.Finished?
    ensures SafeWalk(k, db, run, p, st, n, w)
  {
  }

  // ---------------------------------------------------------------- one run and its receipt

  /** Where a run starts: at a page with the progress so far, or not at all. */
  datatype Start = Begin(page: nat, st: Progress) | Refuse

  const FROM_THE_TOP := Begin(1, FRESH)

  /** One invocation of a lane: its constants, the resume flag and what the outside world does. */
  datatype Attempt = Attempt(contract: Contract, resume: bool, provider: Provider)

  /** Opens a run, walks, and closes the run's receipt.  A run that raises is PARTIAL when it
      committed something (or, where `priorCounts`, when a checkpoint already existed). */
  ghost function RunOnce(k: Contract, db: PageDb, start: Start, provider: Provider, priorCounts: bool): Walked
    requires start.Begin? ==> start.page >= 1
  {
    var run := |db.runs|;
    var begun := StartRun(db, k.lane);
    var w := if start.Refuse? then Walked(begun, Raised, 0) else Walk(k, begun, run, start.page, start.st, provider, 0);
    if IsRunning(w.db, run) then Close(w, run, w.committed > 0 || (priorCounts && k.lane in db.checkpoints)) else w
  }

  /** Opening and closing the receipt touch neither observations nor checkpoints. */
  lemma RunIsWalk(k: Contract, db: PageDb, start: Start, provider: Provider, priorCounts: bool)
    requires start.Begin? ==> start.page >= 1
    ensures var w := RunOnce(k, db, start, provider, priorCounts);
            if start.Refuse? then w.db.rows == db.rows && w.db.checkpoints == db.checkpoints && w.committed == 0 && w.ending.Raised?
            else var v := Walk(k, StartRun(db, k.lane), |db.runs|, start.page, start.st, provider, 0);
                 w.db.rows == v.db.rows && w.db.checkpoints == v.db.checkpoints && w.committed == v.committed && w.ending == v.ending
  {
    hide Walk;
  }

  /** The receipt of a run that started: closed by its ending, unless the process died. */
  lemma RunCloses(k: Contract, db: PageDb, start: Start, provider: Provider, priorCounts: bool)
    requires start.Begin? && start.page >= 1
    requires var v := Walk(k, StartRun(db, k.lane), |db.runs|, start.page, start.st, provider, 0).db;
             IsRunning(v, |db.runs|) && |v.runs| == |db.runs| + 1
    ensures var v, w := Walk(k, StartRun(db, k.lane), |db.runs|, start.page, start.st, provider, 0), RunOnce(k, db, start, provider, priorCounts);
            && |v.db.runs| == |db.runs| + 1 == |w.db.runs| && w.db.runs[..|db.runs|] == v.db.runs[..|db.runs|] && w.db.runs[|db.runs|].after == v.db.runs[|db.runs|].after
            && w.db.runs[|db.runs|] == v.db.runs[|db.runs|].(status := w.db.runs[|db.runs|].status)
            && w.db.runs[|db.runs|].status == StatusFor(w.ending, w.committed > 0 || (priorCounts && k.lane in db.checkpoints))
  {
    hide Walk;
  }

  lemma RefusalCloses(k: Contract, db: PageDb, provider: Provider, priorCounts: bool)
    ensures var w := RunOnce(k, db, Refuse, provider, priorCounts);
            && |w.db.runs| == |db.runs| + 1 && w.db.runs[|db.runs|].status == StatusFor(Raised, priorCounts && k.lane in db.checkpoints)
            && IsReceipt(db, w.db, k.lane) && w.db.runs[..|db.runs|] == db.runs
  {
  }

  function StatusFor(ending: Ending, partial: bool): Status {
    match ending
    case Finished => Success
    case Raised => if partial then Partial else Failed
    case Killed => Running
  }

  /** Soundness reads rows and checkpoints only. */
  lemma SoundCarries(db: PageDb, other: PageDb, lane: Lane)
    requires other.rows == db.rows && other.checkpoints == db.checkpoints
    ensures Sound(other, lane) <==> Sound(db, lane)
  {
  }

  ghost predicate StartsSoundly(k: Contract, db: PageDb, start: Start) {
    start.Begin? ==> start.page >= 1 && Lineage(db.rows, k.lane, start.page - 1, start.st)
  }

  /** One run, whatever the provider does: the checkpoint stays sound; it moves exactly when the
      run committed something, and then stands at the run's last committed page; the receipt says
      SUCCESS exactly for a finished run, and a finished run left a complete checkpoint. */
  lemma RunIsSafe(k: Contract, db: PageDb, start: Start, provider: Provider, priorCounts: bool)
    requires Sound(db, k.lane) && StartsSoundly(k, db, start)
    ensures var w := RunOnce(k, db, start, provider, priorCounts); var run := |db.runs|;
            && Sound(w.db, k.lane) && db.rows <= w.db.rows && (NoRepeats(db.rows) ==> NoRepeats(w.db.rows))
            && |w.db.runs| == run + 1 && w.db.runs[..run] == db.runs && OthersKept(db, w.db, k.lane) && IsReceipt(db, w.db, k.lane)
            && var counts := w.committed > 0 || (priorCounts && k.lane in db.checkpoints);
            && (w.db.runs[run].status == Success <==> w.ending.Finished?)
            && (w.db.runs[run].status == Partial <==> w.ending.Raised? && counts)
            && (w.db.runs[run].status == Failed <==> w.ending.Raised? && !counts)
            && (w.db.runs[run].status == Running <==> w.ending.Killed?)
    ensures var w := RunOnce(k, db, start, provider, priorCounts);
            if w.committed == 0 then w.db.checkpoints == db.checkpoints && w.db.rows == db.rows && !w.ending.Finished?
            else start.Begin? && k.lane in w.db.checkpoints
                 && w.db.checkpoints[k.lane].cursor == start.page - 1 + w.committed
                 && w.db.checkpoints[k.lane].lastRun == |db.runs|
                 && w.db.runs[|db.runs|].after == Some(w.db.checkpoints[k.lane].cursor)
                 && w.db.checkpoints[k.lane].meta.pageSize == k.pageSize
    ensures var w := RunOnce(k, db, start, provider, priorCounts);
            w.ending.Finished? ==> Complete(w.db, k.lane) && w.db.checkpoints[k.lane].lastRun == |db.runs|
  {
    hide Pages, RowsThrough, Walk, RunOnce, Sound, Lineage;
    RunIsWalk(k, db, start, provider, priorCounts);
    var w := RunOnce(k, db, start, provider, priorCounts);
    if start.Begin? {
      var begun: PageDb := StartRun(db, k.lane);
      SoundCarries(db, begun, k.lane);
      WalkIsSafe(k, begun, |db.runs|, start.page, start.st, provider, 0);
      RunCloses(k, db, start, provider, priorCounts);
      SoundCarries(Walk(k, begun, |db.runs|, start.page, start.st, provider, 0).db, w.db, k.lane);
    } else {
      RefusalCloses(k, db, provider, priorCounts);
      SoundCarries(db, w.db, k.lane);
    }
  }

  // ---------------------------------------------------------------- one page size

  /** The key count is min(total, cursor * pageSize). */
  ghost predicate Counted(db: PageDb, lane: Lane) {
    lane in db.checkpoints ==>
      var ck := db.checkpoints[lane];
      |ck.meta.seen| == if ck.cursor * ck.meta.pageSize <= ck.meta.total then ck.cursor * ck.meta.pageSize else ck.meta.total
  }

  /** The start is from the top, or after a checkpoint of the same page size, or refused. */
  ghost predicate PinsPageSize(k: Contract, db: PageDb, start: Start) {
    || start.Refuse? || start == FROM_THE_TOP
    || (k.lane in db.checkpoints && db.checkpoints[k.lane].meta.pageSize == k.pageSize
        && start == Begin(db.checkpoints[k.lane].cursor + 1, ProgressOf(db.checkpoints[k.lane].meta)))
  }

  /** Where resume pins the page size the count is kept, and the final coverage check can never
      fail: a run that commits the last announced page and is not killed finishes. */
  lemma RunKeepsCount(k: Contract, db: PageDb, start: Start, provider: Provider, priorCounts: bool)
    requires Sound(db, k.lane) && Counted(db, k.lane) && StartsSoundly(k, db, start) && PinsPageSize(k, db, start)
    ensures var w := RunOnce(k, db, start, provider, priorCounts);
            && Sound(w.db, k.lane) && Counted(w.db, k.lane)
            && (w.committed > 0 ==> k.lane in w.db.checkpoints)
            && (w.committed > 0 && w.db.checkpoints[k.lane].cursor == w.db.checkpoints[k.lane].meta.pages ==> !w.ending.Raised?)
  {
    hide Walk, Union, Pages, RowsThrough, RunOnce, PairwiseDisjoint, Holds, IsReceipt, OthersKept, Accounts, NoRepeats;
    var w := RunOnce(k, db, start, provider, priorCounts);
    RunIsSafe(k, db, start, provider, priorCounts);
    RunIsWalk(k, db, start, provider, priorCounts);
    if w.committed > 0 {
      WalkIsSafe(k, StartRun(db, k.lane), |db.runs|, start.page, start.st, provider, 0);
      var ck := w.db.checkpoints[k.lane];
      CountFollows(ck.meta.total, k.pageSize, start.page - 1, ck.cursor, |start.st.seen|, |ck.meta.seen|);
    }
  }

  /** The key count follows the pages from any count that already did. */
  lemma CountFollows(total: nat, size: Positive, c: nat, next: nat, seen: nat, after: nat)
    requires seen == if c * size <= total then c * size else total
    requires after == seen + RowsThrough(total, size, next) - RowsThrough(total, size, c)
    ensures after == if next * size <= total then next * size else total
    ensures next == Pages(total, size) ==> after == total
  {
    hide Pages;
    RowsThroughIs(total, size, next);
    RowsThroughIs(total, size, c);
    PagesAddUp(total, size);
  }

  // ---------------------------------------------------------------- a run cut off after its first page

  /** The first page is answered and committed; every other fetch fails. */
  function OnlyFirst(d: Document): Provider {
    (p: nat) => Answer(if p == 1 then Fetched(d) else FetchRaises, Commits)
  }

  /** What a fresh run leaves when it is cut off after the first of several pages. */
  lemma CutOffAfterFirst(k: Contract, db: PageDb, d: Document)
    requires Accepts(k, FRESH, 1, d) && Pages(TotalOf(d), k.pageSize) > 1
    ensures var w := RunOnce(k, db, FROM_THE_TOP, OnlyFirst(d), false);
            && w.ending.Raised? && w.committed == 1
            && w.db.checkpoints == db.checkpoints[k.lane := Checkpoint(1, MetaOf(k, Advance(k, FRESH, d)), |db.runs|)]
  {
    hide Walk, Accepts, Pages, RunOnce, PageHashes, Merge;
    var begun, run, st := StartRun(db, k.lane), |db.runs|, Advance(k, FRESH, d);
    RunIsWalk(k, db, FROM_THE_TOP, OnlyFirst(d), false);
    WalkCommits(k, begun, run, 1, FRESH, OnlyFirst(d), 0);
    WalkStops(k, CommitOf(k, begun, run, 1, FRESH, d), run, 2, st, OnlyFirst(d), 1);
  }

  // ---------------------------------------------------------------- any sequence of runs

  /** One invocation of a lane. */
  type Invocation = (Contract, PageDb, bool, Provider) -> Walked

  /** The store after a sequence of invocations; page sizes and providers may differ. */
  ghost function Chain(enumerate: Invocation, db: PageDb, attempts: seq<Attempt>): PageDb {
    if attempts == [] then db
    else
      var a := attempts[|attempts| - 1];
      enumerate(a.contract, Chain(enumerate, db, attempts[..|attempts| - 1]), a.resume, a.provider).db
  }

  /** The three ways a run may start: at the first page, after the checkpoint, or not at all. */
  ghost predicate IsResumePoint(k: Contract, db: PageDb, start: Start) {
    || start.Refuse? || start == FROM_THE_TOP
    || (k.lane in db.checkpoints && start == Begin(db.checkpoints[k.lane].cursor + 1, ProgressOf(db.checkpoints[k.lane].meta)))
  }

  /** The invocation opens no run and changes nothing, or runs the page loop from a resume point. */
  ghost predicate RunsPages(k: Contract, db: PageDb, provider: Provider, priorCounts: bool, w: Walked) {
    || w == Walked(db, Raised, 0)
    || exists start :: IsResumePoint(k, db, start) && (Sound(db, k.lane) ==> StartsSoundly(k, db, start))
                       && w == RunOnce(k, db, start, provider, priorCounts)
  }

  /** What the page lanes have in common: a fresh invocation starts from the top, and any other
      one runs the page loop from a resume point or not at all. */
  ghost predicate IsPageLane(enumerate: Invocation, priorCounts: bool) {
    forall k, db, resume, provider ::
      var w := enumerate(k, db, resume, provider);
      RunsPages(k, db, provider, priorCounts, w) && (!resume ==> w == RunOnce(k, db, FROM_THE_TOP, provider, priorCounts))
  }

  /** Over any history of fresh and resumed runs, page sizes included, the checkpoint describes
      committed pages with pairwise disjoint keys, and every row stays unique. */
  lemma {:induction false} HistoryIsSound(enumerate: Invocation, priorCounts: bool, db: PageDb, lane: Lane, attempts: seq<Attempt>)
    requires IsPageLane(enumerate, priorCounts) && Sound(db, lane)
    requires forall a :: a in attempts ==> a.contract.lane == lane
    ensures Sound(Chain(enumerate, db, attempts), lane) && db.rows <= Chain(enumerate, db, attempts).rows
    ensures NoRepeats(db.rows) ==> NoRepeats(Chain(enumerate, db, attempts).rows)
  {
    hide Sound, RunOnce, StartsSoundly, Complete;
    if attempts != [] {
      var n := |attempts| - 1;
      HistoryIsSound(enumerate, priorCounts, db, lane, attempts[..n]);
      var a, before := attempts[n], Chain(enumerate, db, attempts[..n]);
      var w := enumerate(a.contract, before, a.resume, a.provider);
      if w != Walked(before, Raised, 0) {
        var start :| IsResumePoint(a.contract, before, start) && (Sound(before, lane) ==> StartsSoundly(a.contract, before, start))
                     && w == RunOnce(a.contract, before, start, a.provider, priorCounts);
        RunIsSafe(a.contract, before, start, a.provider, priorCounts);
      }
    }
  }
}
