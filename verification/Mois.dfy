/** Organization codes: the page loop whose resume is validated against the stored rows
    themselves, and is allowed only before the first successful enumeration. */
module Mois {
  import opened Prelude
  import opened Store
  import opened Paging
  import opened PagingSafety
  import opened PagingListing

  ghost predicate HasSucceeded(db: PageDb, lane: Lane) {
    exists i :: 0 <= i < |db.runs| && db.runs[i].lane == lane && db.runs[i].status.Success?
  }

  /** The lane's rows, all of them, form a single-version map, namely `seen`. */
  ghost predicate IsManifest(rows: seq<Observation<Hash>>, lane: Lane, seen: Hashes) {
    && (forall i, j :: 0 <= i < j < |rows| && rows[i].lane == lane && rows[j].lane == lane ==> rows[i].key != rows[j].key)
    && (forall i :: 0 <= i < |rows| && rows[i].lane == lane ==> rows[i].key in seen && seen[rows[i].key] == rows[i].content)
    && Holds(rows, lane, seen)
  }

  ghost predicate Resumable(k: Contract, db: PageDb) {
    && k.lane in db.checkpoints
    && var ck := db.checkpoints[k.lane];
       && ck.meta.pageSize == k.pageSize && ck.meta.labels == k.labels && |ck.meta.prints| == ck.cursor
       && ck.cursor + 1 <= ck.meta.pages && IsManifest(db.rows, k.lane, ck.meta.seen)
  }

  ghost function MoisStart(k: Contract, db: PageDb, resume: bool): Start {
    if !resume then FROM_THE_TOP
    else if Resumable(k, db) then Begin(db.checkpoints[k.lane].cursor + 1, ProgressOf(db.checkpoints[k.lane].meta))
    else Refuse
  }

  /** Resuming without a checkpoint or after a success is refused before a run is opened. */
  ghost function Enumerate(k: Contract, db: PageDb, resume: bool, provider: Provider): Walked {
    if resume && (k.lane !in db.checkpoints || HasSucceeded(db, k.lane)) then Walked(db, Raised, 0)
    else RunOnce(k, db, MoisStart(k, db, resume), provider, true)
  }

  class OrganizationEnumerator {
    const paged: PagedEnumerator

    constructor (paged: PagedEnumerator)
      ensures this.paged == paged
    {
      this.paged := paged;
    }

    method AnySuccess(lane: Lane) returns (found: bool)
      ensures found == HasSucceeded(paged.repository.State(), lane)
    {
      var runs := paged.repository.runs;
      for i := 0 to |runs|
        invariant forall j :: 0 <= j < i && runs[j].lane == lane ==> !runs[j].status.Success?
      {
        if runs[i].lane == lane && runs[i].status.Success? { return true; }
      }
      found := false;
    }

    /** The map the lane's rows form, or nothing when a provider key is stored twice. */
    method StoredManifest(lane: Lane) returns (r: Option<Hashes>)
      ensures r.Some? ==> forall seen :: IsManifest(paged.repository.rows, lane, seen) <==> seen == r.value
      ensures r.None? ==> forall seen :: !IsManifest(paged.repository.rows, lane, seen)
    {
      var rows := paged.repository.rows;
      var seen: Hashes := map[];
      for i := 0 to |rows|
        invariant IsManifest(rows[..i], lane, seen)
      {
        var o := rows[i];
        assert rows[..i + 1] == rows[..i] + [o];
        if o.lane == lane {
          if o.key in seen {
            StoredTwice(rows, i, lane, seen, o.key);
            return None;
          }
          seen := seen[o.key := o.content];
        }
      }
      assert rows[..|rows|] == rows;
      forall other | IsManifest(rows, lane, other) ensures other == seen { ManifestIsUnique(rows, lane, seen, other); }
      r := Some(seen);
    }

    /** Validates the checkpoint against the stored rows, and where the run goes on. */
    method CheckResume(ck: Checkpoint<PageMeta>) returns (refused: bool, st: Progress)
      requires paged.contract.lane in paged.repository.checkpoints && ck == paged.repository.checkpoints[paged.contract.lane]
      ensures refused <==> !Resumable(paged.contract, paged.repository.State())
      ensures !refused ==> st == ProgressOf(ck.meta)
    {
      hide IsManifest;
      var k := paged.contract;
      st := FRESH;
      refused := ck.meta.pageSize != k.pageSize || ck.meta.labels != k.labels || |ck.meta.prints| != ck.cursor || ck.cursor + 1 > ck.meta.pages;
      if !refused {
        var manifest := StoredManifest(k.lane);
        refused := manifest != Some(ck.meta.seen);
        if !refused { st := Progress(Some(Expected(ck.meta.total, ck.meta.pages)), manifest.value, ck.meta.prints); }
      }
    }

    /** One invocation: the store and the ending are those of `Enumerate`. */
    method Run(resume: bool, provider: Provider) returns (ending: Ending, committed: nat, unique: nat)
      modifies paged.repository
      ensures Walked(paged.repository.State(), ending, committed)
              == old(Enumerate(paged.contract, paged.repository.State(), resume, provider))
      ensures ending.Finished? ==> paged.contract.lane in paged.repository.checkpoints
                                   && unique == |paged.repository.checkpoints[paged.contract.lane].meta.seen|
    {
      hide Walk, Accepts, Resumable, HasSucceeded;
      var k := paged.contract;
      ending, committed, unique := Raised, 0, 0;
      var prior := paged.repository.SourceCheckpoint(k.lane);
      if resume {
        var succeeded := AnySuccess(k.lane);
        if prior.None? || succeeded { return; }
      }
      var run := paged.repository.StartSourceRun(k.lane);
      var page, st, refused := 1, FRESH, false;
      if resume {
        page := prior.value.cursor + 1;
        SameResumable(k, old(paged.repository.State()), paged.repository.State());
        refused, st := CheckResume(prior.value);
      }
      if !refused {
        var ids, last;
        ending, committed, ids, last := paged.CommitPages(run, page, st, map[], provider);
        unique := |last.seen|;
      }
      if ending.Finished? {
        var _ := paged.repository.FinishSourceRun(run, Success);
      } else if ending.Raised? {
        var _ := paged.repository.FinishSourceRun(run, if committed > 0 || prior.Some? then Partial else Failed);
      }
    }
  }

  lemma SameResumable(k: Contract, db: PageDb, other: PageDb)
    requires other.rows == db.rows && other.checkpoints == db.checkpoints
    ensures Resumable(k, other) <==> Resumable(k, db)
  {
  }

  lemma StoredTwice(rows: seq<Observation<Hash>>, i: nat, lane: Lane, seen: Hashes, key: Key)
    requires i < |rows| && IsManifest(rows[..i], lane, seen) && rows[i].lane == lane && rows[i].key == key && key in seen
    ensures forall other :: !IsManifest(rows, lane, other)
  {
    assert Observation(lane, key, seen[key]) in rows[..i];
    var j :| 0 <= j < i && rows[..i][j] == Observation(lane, key, seen[key]);
    assert rows[j].key == rows[i].key;
  }

  lemma ManifestIsUnique(rows: seq<Observation<Hash>>, lane: Lane, a: Hashes, b: Hashes)
    requires IsManifest(rows, lane, a) && IsManifest(rows, lane, b)
    ensures a == b
  {
    forall key | key in a ensures key in b && b[key] == a[key] { var i :| 0 <= i < |rows| && rows[i] == Observation(lane, key, a[key]); }
    forall key | key in b ensures key in a { var i :| 0 <= i < |rows| && rows[i] == Observation(lane, key, b[key]); }
  }

  // ---------------------------------------------------------------- an adversarial provider

  lemma MoisStartsSoundly(k: Contract, db: PageDb, resume: bool)
    requires Sound(db, k.lane)
    ensures StartsSoundly(k, db, MoisStart(k, db, resume)) && IsResumePoint(k, db, MoisStart(k, db, resume))
  {
    hide Pages, IsManifest;
  }

  /** On a sound store the fingerprint count never decides: a resume is refused exactly when page
      size or contract differ, no page is left, or some stored row of the lane is not the
      checkpoint's version of its key. */
  lemma ResumeRefusedIff(k: Contract, db: PageDb)
    requires Sound(db, k.lane) && NoRepeats(db.rows) && k.lane in db.checkpoints
    ensures var ck := db.checkpoints[k.lane];
            MoisStart(k, db, true).Refuse? <==>
              || ck.meta.pageSize != k.pageSize || ck.meta.labels != k.labels || ck.cursor == ck.meta.pages
              || exists o :: o in db.rows && o.lane == k.lane && !(o.key in ck.meta.seen && ck.meta.seen[o.key] == o.content)
  {
    hide Pages, Union;
    var ck := db.checkpoints[k.lane];
    ManifestIff(db.rows, k.lane, ck.meta.seen);
  }

  lemma ManifestIff(rows: seq<Observation<Hash>>, lane: Lane, seen: Hashes)
    requires NoRepeats(rows) && Holds(rows, lane, seen)
    ensures IsManifest(rows, lane, seen) <==> forall o :: o in rows && o.lane == lane ==> o.key in seen && seen[o.key] == o.content
  {
    if forall o :: o in rows && o.lane == lane ==> o.key in seen && seen[o.key] == o.content {
      forall i, j | 0 <= i < j < |rows| && rows[i].lane == lane && rows[j].lane == lane ensures rows[i].key != rows[j].key {
        assert rows[i] in rows && rows[j] in rows && rows[i] != rows[j];
      }
    }
  }

  /** One invocation: SUCCESS means a complete checkpoint; a run that raises is PARTIAL when it
      committed a page or found a checkpoint, FAILED otherwise; an early refusal opens no run. */
  lemma MoisRunIsSafe(k: Contract, db: PageDb, resume: bool, provider: Provider)
    requires Sound(db, k.lane)
    ensures var w := Enumerate(k, db, resume, provider);
            && Sound(w.db, k.lane) && db.rows <= w.db.rows && (NoRepeats(db.rows) ==> NoRepeats(w.db.rows))
            && (if resume && (k.lane !in db.checkpoints || HasSucceeded(db, k.lane)) then w.db == db
                else |w.db.runs| == |db.runs| + 1
                     && var status := w.db.runs[|db.runs|].status;
                     && (status == Success <==> w.ending.Finished?)
                     && (status == Success ==> Complete(w.db, k.lane))
                     && (status == Failed ==> w.committed == 0 && k.lane !in db.checkpoints)
                     && (status == Partial ==> k.lane in w.db.checkpoints))
  {
    hide RunOnce, Sound, Complete, HasSucceeded, MoisStart;
    MoisStartsSoundly(k, db, resume);
    RunIsSafe(k, db, MoisStart(k, db, resume), provider, true);
  }

  /** Resume pins the page size, so the key count stays min(total, cursor * page size) and the
      final coverage check can never fail. */
  lemma MoisRunIsCounted(k: Contract, db: PageDb, resume: bool, provider: Provider)
    requires Sound(db, k.lane) && Counted(db, k.lane)
    ensures var w := Enumerate(k, db, resume, provider);
            && Sound(w.db, k.lane) && Counted(w.db, k.lane)
            && (w.committed > 0 ==> k.lane in w.db.checkpoints)
            && (w.committed > 0 && w.db.checkpoints[k.lane].cursor == w.db.checkpoints[k.lane].meta.pages ==> !w.ending.Raised?)
  {
    hide RunOnce, Sound, Counted, HasSucceeded, StartsSoundly, IsManifest;
    MoisStartsSoundly(k, db, resume);
    RunKeepsCount(k, db, MoisStart(k, db, resume), provider, true);
  }

  lemma MoisIsPageLane()
    ensures IsPageLane(Enumerate, true)
  {
    hide RunOnce, Sound, StartsSoundly, HasSucceeded, Resumable;
    forall k, db, resume, provider ensures RunsPages(k, db, provider, true, Enumerate(k, db, resume, provider)) {
      if Sound(db, k.lane) { MoisStartsSoundly(k, db, resume); }
      assert IsResumePoint(k, db, MoisStart(k, db, resume)) by { MoisResumes(k, db, resume); }
    }
  }

  lemma MoisResumes(k: Contract, db: PageDb, resume: bool)
    ensures IsResumePoint(k, db, MoisStart(k, db, resume))
  {
    hide IsManifest;
  }

  /** Over any history of runs of any page size the store stays sound and its rows unique. */
  lemma ChainIsSound(db: PageDb, lane: Lane, attempts: seq<Attempt>)
    requires Sound(db, lane)
    requires forall a :: a in attempts ==> a.contract.lane == lane
    ensures Sound(Chain(Enumerate, db, attempts), lane)
    ensures NoRepeats(db.rows) ==> NoRepeats(Chain(Enumerate, db, attempts).rows)
  {
    hide Enumerate, IsPageLane, Sound;
    MoisIsPageLane();
    HistoryIsSound(Enumerate, true, db, lane, attempts);
  }

  /** Resume soundness.  After any history of runs of any page size, a resume that is not refused
      starts from a seen-map that is at once the union of the committed pages 1..cursor, one
      fingerprint each with pairwise disjoint keys, and the single-version map that all stored
      rows of the lane form. */
  lemma ResumeIsExact(k: Contract, attempts: seq<Attempt>)
    requires forall a :: a in attempts ==> a.contract.lane == k.lane
    requires MoisStart(k, Chain(Enumerate, Db([], map[], []), attempts), true).Begin?
    ensures var db := Chain(Enumerate, Db([], map[], []), attempts);
            var start := MoisStart(k, db, true);
            && |start.st.prints| == start.page - 1 && PairwiseDisjoint(start.st.prints)
            && start.st.seen == Union(start.st.prints)
            && IsManifest(db.rows, k.lane, start.st.seen)
  {
    hide Pages, IsManifest, Enumerate;
    ChainIsSound(Db([], map[], []), k.lane, attempts);
  }

  /** Over any history of runs of any page size the checkpoint holds min(total, cursor * page size)
      keys. */
  lemma {:induction false} ChainIsCounted(lane: Lane, attempts: seq<Attempt>)
    requires forall a :: a in attempts ==> a.contract.lane == lane
    ensures var db := Chain(Enumerate, Db([], map[], []), attempts); Sound(db, lane) && Counted(db, lane)
  {
    hide Enumerate, Sound, Counted;
    var empty: PageDb := Db([], map[], []);
    if attempts == [] {
      NothingCounted(lane);
    } else {
      var n := |attempts| - 1;
      ChainIsCounted(lane, attempts[..n]);
      MoisRunIsCounted(attempts[n].contract, Chain(Enumerate, empty, attempts[..n]), attempts[n].resume, attempts[n].provider);
    }
  }

  lemma NothingCounted(lane: Lane)
    ensures Sound(Db([], map[], []), lane) && Counted(Db([], map[], []), lane)
  {
  }

  // ---------------------------------------------------------------- an unchanged listing

  /** Crash/resume equivalence.  Against an unchanged listing, any chain of fresh runs,
      interruptions, refusals and resumes that reaches SUCCESS leaves the same checkpoint and
      stored observations as one uninterrupted run. */
  lemma CrashResumeEquivalence(k: Contract, listing: Listing, origin: PageDb, attempts: seq<Attempt>, resume: bool, provider: Provider)
    requires Tracks(k, listing, origin) && Sound(origin, k.lane)
    requires forall a :: a in attempts ==> a.contract == k && Serves(listing, a.provider)
    requires Serves(listing, provider)
    requires Enumerate(k, Chain(Enumerate, origin, attempts), resume, provider).ending.Finished?
    ensures var w, u := Enumerate(k, Chain(Enumerate, origin, attempts), resume, provider), Enumerate(k, origin, false, Steady(listing));
            u.ending.Finished? && SameOutcome(k.lane, u.db, w.db)
  {
    hide Enumerate, IsPageLane, Sound, Tracks;
    MoisIsPageLane();
    ChainEquivalence(Enumerate, true, k, listing, origin, attempts, resume, provider);
  }

  /** More accepted pages of a nonempty listing mean strictly more keys. */
  lemma {:induction false} SeenGrows(k: Contract, listing: Listing, c: nat, m: nat) returns (key: Key)
    requires !k.allowEmpty && c < m && AcceptedThrough(k, listing, m)
    ensures key in At(k, listing, m).seen && key !in At(k, listing, c).seen
    ensures At(k, listing, c).seen.Keys <= At(k, listing, m).seen.Keys
  {
    hide Accepts, Pages, RowCount, At, AcceptedThrough, PageHashes;
    var st, d := At(k, listing, m - 1), listing(m);
    AtStep(k, listing, m);
    if c < m - 1 {
      key := SeenGrows(k, listing, c, m - 1);
    } else {
      PageIsNotEmpty(k, st, m, d);
      key :| key in PageHashes(d.records);
    }
  }

  lemma AtStep(k: Contract, listing: Listing, m: nat)
    requires m > 0 && AcceptedThrough(k, listing, m)
    ensures AcceptedThrough(k, listing, m - 1) && Accepts(k, At(k, listing, m - 1), m, listing(m))
    ensures At(k, listing, m).seen == At(k, listing, m - 1).seen + PageHashes(listing(m).records)
    ensures At(k, listing, m - 1).seen.Keys !! PageHashes(listing(m).records).Keys
  {
    hide Accepts, Pages;
    PageIsObserved(k, At(k, listing, m - 1), m, listing(m));
  }

  lemma PageIsNotEmpty(k: Contract, st: Progress, p: nat, d: Document)
    requires p >= 1 && !k.allowEmpty && Accepts(k, st, p, d)
    ensures PageHashes(d.records) != map[]
  {
    hide Pages, RowCount, PageHashes;
    PageIsObserved(k, st, p, d);
    PagesAddUp(TotalOf(d), k.pageSize);
  }

  /** A resume is refused before or after its run is opened. */
  ghost predicate ResumeIsRefused(k: Contract, db: PageDb) {
    k.lane !in db.checkpoints || HasSucceeded(db, k.lane) || MoisStart(k, db, true).Refuse?
  }

  /** A refused resume raises without a commit, whatever the provider would have answered. */
  lemma RefusedResumeChangesNothing(k: Contract, db: PageDb, provider: Provider)
    requires ResumeIsRefused(k, db)
    ensures var w := Enumerate(k, db, true, provider);
            w.ending.Raised? && w.committed == 0 && w.db.rows == db.rows && w.db.checkpoints == db.checkpoints
  {
    hide MoisStart, HasSucceeded, RunOnce;
    RunIsWalk(k, db, Refuse, provider, true);
  }

  /** Against an unchanged listing a resume that is not refused commits exactly the pages left and
      finishes. */
  lemma ResumeGoesOn(k: Contract, listing: Listing, db: PageDb, c: nat, last: nat)
    requires Tracks(k, listing, db) && Sound(db, k.lane) && WellFormed(k, listing, last) && StandsAfter(k, listing, db, c) && !ResumeIsRefused(k, db)
    ensures var w := Enumerate(k, db, true, Steady(listing));
            c < last && w.ending.Finished? && w.committed == last - c && StandsAfter(k, listing, w.db, last)
  {
    hide RunOnce, Sound, Tracks, WellFormed, At, IsManifest, HasSucceeded;
    if c <= last { OwnPages(k, listing, db, c, last); }
    OwnCursor(k, listing, db, c, last);
    ResumeFinishes(k, listing, db, true, c, last);
  }

  lemma OwnCursor(k: Contract, listing: Listing, db: PageDb, c: nat, last: nat)
    requires Tracks(k, listing, db) && WellFormed(k, listing, last) && StandsAfter(k, listing, db, c)
    ensures c <= last
  {
    hide Accepts, Pages, At;
    FurthestIsAnnounced(k, listing, c, last);
  }

  /** A resume is refused after a success, and this is what that means: in a lane that had no run, a
      run has succeeded exactly when one of the attempts so far ended by finishing. */
  lemma {:induction false} SuccessIsRemembered(origin: PageDb, lane: Lane, attempts: seq<Attempt>)
    requires Sound(origin, lane) && forall r :: r in origin.runs ==> r.lane != lane
    requires forall a :: a in attempts ==> a.contract.lane == lane
    ensures HasSucceeded(Chain(Enumerate, origin, attempts), lane) <==>
              exists i :: 0 <= i < |attempts| && FinishedAt(origin, attempts, i)
  {
    hide Enumerate, Sound, FinishedAt;
    if attempts == [] {
      assert !HasSucceeded(origin, lane) by { assert forall i :: 0 <= i < |origin.runs| ==> origin.runs[i] in origin.runs; }
    } else {
      var n := |attempts| - 1;
      var init, a := attempts[..n], attempts[n];
      SuccessIsRemembered(origin, lane, init);
      ChainIsSound(origin, lane, init);
      OneMoreSuccess(a.contract, Chain(Enumerate, origin, init), a.resume, a.provider);
      forall i | 0 <= i < n ensures FinishedAt(origin, attempts, i) <==> FinishedAt(origin, init, i) { SameFinish(origin, attempts, n, i); }
      assert FinishedAt(origin, attempts, n) <==> Enumerate(a.contract, Chain(Enumerate, origin, init), a.resume, a.provider).ending.Finished? by {
        LastFinish(origin, attempts);
      }
    }
  }

  /** The i-th attempt, after those before it, ended by finishing. */
  ghost predicate FinishedAt(origin: PageDb, attempts: seq<Attempt>, i: nat)
    requires i < |attempts|
  {
    Enumerate(attempts[i].contract, Chain(Enumerate, origin, attempts[..i]), attempts[i].resume, attempts[i].provider).ending.Finished?
  }

  lemma SameFinish(origin: PageDb, attempts: seq<Attempt>, n: nat, i: nat)
    requires i < n <= |attempts|
    ensures FinishedAt(origin, attempts, i) <==> FinishedAt(origin, attempts[..n], i)
  {
    hide Enumerate, Chain;
    assert attempts[..n][..i] == attempts[..i];
  }

  lemma LastFinish(origin: PageDb, attempts: seq<Attempt>)
    requires attempts != []
    ensures var n := |attempts| - 1;
            FinishedAt(origin, attempts, n)
            <==> Enumerate(attempts[n].contract, Chain(Enumerate, origin, attempts[..n]), attempts[n].resume, attempts[n].provider).ending.Finished?
  {
  }

  lemma OneMoreSuccess(k: Contract, db: PageDb, resume: bool, provider: Provider)
    requires Sound(db, k.lane)
    ensures var w := Enumerate(k, db, resume, provider);
            HasSucceeded(w.db, k.lane) <==> HasSucceeded(db, k.lane) || w.ending.Finished?
  {
    hide RunOnce, Sound, MoisStart;
    MoisStartsSoundly(k, db, resume);
    if !(resume && (k.lane !in db.checkpoints || HasSucceeded(db, k.lane))) {
      RunIsSafe(k, db, MoisStart(k, db, resume), provider, true);
      var w := Enumerate(k, db, resume, provider);
      assert forall r :: 0 <= r < |db.runs| ==> w.db.runs[r] == w.db.runs[..|db.runs|][r];
    }
  }

  /** Rows left by an abandoned longer run force refusal, and little else does.  From a lane
      without rows, against an unchanged listing, after any chain of runs: a resume is refused
      exactly when a run of the lane has succeeded, or the checkpoint stands before the furthest
      page ever committed, or it already covers the last page. */
  lemma ResumeRefusedWhileBehind(k: Contract, listing: Listing, origin: PageDb, attempts: seq<Attempt>)
    requires !k.allowEmpty && k.lane !in origin.checkpoints && NoRepeats(origin.rows)
    requires forall o :: o in origin.rows ==> o.lane != k.lane
    requires forall a :: a in attempts ==> a.contract == k && Serves(listing, a.provider)
    requires k.lane in Chain(Enumerate, origin, attempts).checkpoints
    ensures var db := Chain(Enumerate, origin, attempts);
            ResumeIsRefused(k, db) <==>
              || HasSucceeded(db, k.lane)
              || db.checkpoints[k.lane].cursor < Farthest(Enumerate, origin, k.lane, attempts)
              || db.checkpoints[k.lane].cursor == db.checkpoints[k.lane].meta.pages
  {
    hide Enumerate, Accepts, Pages, Union, MoisStart, At, ObservedThrough, HasSucceeded;
    MoisIsPageLane();
    ChainTracks(Enumerate, true, k, listing, origin, attempts);
    ChainIsSound(origin, k.lane, attempts);
    var db, m := Chain(Enumerate, origin, attempts), Farthest(Enumerate, origin, k.lane, attempts);
    var c := db.checkpoints[k.lane].cursor;
    ResumeRefusedIff(k, db);
    ObservedIsSeen(k, listing, m);
    ObservedIsSeen(k, listing, c);
    if c < m {
      var key := SeenGrows(k, listing, c, m);
      assert Observation(k.lane, key, At(k, listing, m).seen[key]) in Stored(db.rows);
    }
  }
}
