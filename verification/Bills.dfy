/** Bill participation: the resumable enumeration of one Assembly term. */
module Bills {
  import opened Prelude
  import opened Store
  import opened Paging
  import opened PagingSafety
  import opened PagingListing

  /** Resume continues after the checkpoint when page size and source contract are the same and
      a page is left; without a checkpoint it starts fresh. */
  function BillStart(k: Contract, db: PageDb, resume: bool): Start {
    if !resume || k.lane !in db.checkpoints then FROM_THE_TOP
    else
      var ck := db.checkpoints[k.lane];
      if ck.meta.pageSize != k.pageSize || ck.meta.labels != k.labels || ck.cursor + 1 > ck.meta.pages then Refuse
      else Begin(ck.cursor + 1, ProgressOf(ck.meta))
  }

  ghost function Enumerate(k: Contract, db: PageDb, resume: bool, provider: Provider): Walked {
    RunOnce(k, db, BillStart(k, db, resume), provider, false)
  }

  class BillEnumerator {
    const paged: PagedEnumerator

    constructor (paged: PagedEnumerator)
      ensures this.paged == paged
    {
      this.paged := paged;
    }

    /** One invocation: the store and the ending are those of `Enumerate`; a finished run
        returns as many unique records as the provider announced. */
    method Run(resume: bool, provider: Provider) returns (ending: Ending, committed: nat, unique: nat)
      modifies paged.repository
      ensures Walked(paged.repository.State(), ending, committed)
              == old(Enumerate(paged.contract, paged.repository.State(), resume, provider))
      ensures ending.Finished? ==> paged.contract.lane in paged.repository.checkpoints
                                   && unique == |paged.repository.checkpoints[paged.contract.lane].meta.seen|
    {
      hide Walk, Accepts;
      var k := paged.contract;
      var prior := paged.repository.SourceCheckpoint(k.lane);
      var run := paged.repository.StartSourceRun(k.lane);
      var page, st := 1, FRESH;
      ending, committed, unique := Raised, 0, 0;
      var refused := false;
      if resume && prior.Some? {
        var ck := prior.value;
        page, st := ck.cursor + 1, ProgressOf(ck.meta);
        refused := ck.meta.pageSize != k.pageSize || ck.meta.labels != k.labels || page > ck.meta.pages;
      }
      if !refused {
        var ids, last;
        ending, committed, ids, last := paged.CommitPages(run, page, st, map[], provider);
        unique := |last.seen|;
      }
      if ending.Finished? {
        var _ := paged.repository.FinishSourceRun(run, Success);
      } else if ending.Raised? {
        var _ := paged.repository.FinishSourceRun(run, if committed > 0 then Partial else Failed);
      }
    }
  }

  // ---------------------------------------------------------------- an adversarial provider

  /** The checkpoint is sound and its key count is min(total, cursor * pageSize). */
  ghost predicate BillInv(db: PageDb, lane: Lane) { Sound(db, lane) && Counted(db, lane) }

  lemma BillStartsSoundly(k: Contract, db: PageDb, resume: bool)
    requires Sound(db, k.lane)
    ensures StartsSoundly(k, db, BillStart(k, db, resume))
  {
    hide Pages;
  }

  lemma BillsArePageLane()
    ensures IsPageLane(Enumerate, false)
  {
    hide RunOnce, Sound, StartsSoundly;
    forall k, db, resume, provider ensures RunsPages(k, db, provider, false, Enumerate(k, db, resume, provider)) {
      if Sound(db, k.lane) { BillStartsSoundly(k, db, resume); }
      assert IsResumePoint(k, db, BillStart(k, db, resume));
    }
  }

  /** One run keeps the invariant, and the final coverage check can never fail: a run that commits
      the last announced page and is not killed finishes. */
  lemma RunKeepsBillInv(k: Contract, db: PageDb, resume: bool, provider: Provider)
    requires BillInv(db, k.lane)
    ensures var w := Enumerate(k, db, resume, provider);
            && BillInv(w.db, k.lane)
            && (w.committed > 0 ==> k.lane in w.db.checkpoints)
            && (w.committed > 0 && w.db.checkpoints[k.lane].cursor == w.db.checkpoints[k.lane].meta.pages ==> !w.ending.Raised?)
  {
    hide RunOnce, Sound, Counted, StartsSoundly;
    BillStartsSoundly(k, db, resume);
    RunKeepsCount(k, db, BillStart(k, db, resume), provider, false);
  }

  /** Whatever the provider did over any sequence of fresh and resumed runs, the checkpoint
      describes pages 1..cursor that were all committed, with pairwise disjoint keys that
      number min(total, cursor * pageSize). */
  lemma {:induction false} ChainKeepsBillInv(db: PageDb, lane: Lane, attempts: seq<Attempt>)
    requires BillInv(db, lane)
    requires forall a :: a in attempts ==> a.contract.lane == lane
    ensures BillInv(Chain(Enumerate, db, attempts), lane)
  {
    hide BillInv, Enumerate;
    if attempts != [] {
      var n := |attempts| - 1;
      ChainKeepsBillInv(db, lane, attempts[..n]);
      RunKeepsBillInv(attempts[n].contract, Chain(Enumerate, db, attempts[..n]), attempts[n].resume, attempts[n].provider);
    }
  }

  /** SUCCESS safety.  After any history, a run that reports SUCCESS has left pages 1..N committed
      under one total T with |seen| = T; any other run that closes is PARTIAL when it committed a
      page and FAILED when it did not, and the checkpoint stands at its last committed page. */
  lemma SuccessIsSafe(lane: Lane, attempts: seq<Attempt>, k: Contract, resume: bool, provider: Provider)
    requires k.lane == lane
    requires forall a :: a in attempts ==> a.contract.lane == lane
    ensures var db := Chain(Enumerate, Db([], map[], []), attempts);
            var w := Enumerate(k, db, resume, provider);
            && |w.db.runs| == |db.runs| + 1
            && var receipt := w.db.runs[|db.runs|];
            && (receipt.status == Success <==> w.ending.Finished?)
            && (receipt.status == Success ==> Complete(w.db, lane) && lane in w.db.checkpoints && w.db.checkpoints[lane].lastRun == |db.runs|)
            && (receipt.status == Partial ==> w.committed > 0)
            && (receipt.status == Failed ==> w.committed == 0)
            && (if w.committed == 0 then w.db.checkpoints == db.checkpoints && w.db.rows == db.rows
                else lane in w.db.checkpoints && receipt.after == Some(w.db.checkpoints[lane].cursor)
                     && w.db.checkpoints[lane].lastRun == |db.runs|)
  {
    hide Walk, Union, Pages, RowsThrough, RunOnce, Complete;
    var empty: PageDb := Db([], map[], []);
    assert BillInv(empty, lane);
    ChainKeepsBillInv(empty, lane, attempts);
    var db := Chain(Enumerate, empty, attempts);
    BillStartsSoundly(k, db, resume);
    RunIsSafe(k, db, BillStart(k, db, resume), provider, false);
  }

  // ---------------------------------------------------------------- an unchanged listing

  /** Crash/resume equivalence.  Against an unchanged listing, any chain of fresh runs,
      interruptions and resumes that reaches SUCCESS leaves the same cursor, seen-hash map,
      page fingerprints and stored observations as one uninterrupted run, provided the lane
      started without a checkpoint or with the listing's own. */
  lemma CrashResumeEquivalence(k: Contract, listing: Listing, origin: PageDb, attempts: seq<Attempt>, resume: bool, provider: Provider)
    requires Tracks(k, listing, origin) && Sound(origin, k.lane)
    requires forall a :: a in attempts ==> a.contract == k && Serves(listing, a.provider)
    requires Serves(listing, provider)
    requires Enumerate(k, Chain(Enumerate, origin, attempts), resume, provider).ending.Finished?
    ensures var w, u := Enumerate(k, Chain(Enumerate, origin, attempts), resume, provider), Enumerate(k, origin, false, Steady(listing));
            u.ending.Finished? && SameOutcome(k.lane, u.db, w.db)
  {
    hide Enumerate, IsPageLane, Sound, Tracks;
    BillsArePageLane();
    ChainEquivalence(Enumerate, false, k, listing, origin, attempts, resume, provider);
  }

  /** Success stores the listing: the run that reaches SUCCESS leaves every record of the listing,
      and no other new row, in the store and in the checkpoint. */
  lemma SuccessStoresListing(k: Contract, listing: Listing, origin: PageDb, attempts: seq<Attempt>, resume: bool, provider: Provider)
    requires Tracks(k, listing, origin) && Sound(origin, k.lane)
    requires forall a :: a in attempts ==> a.contract == k && Serves(listing, a.provider)
    requires Serves(listing, provider)
    requires Enumerate(k, Chain(Enumerate, origin, attempts), resume, provider).ending.Finished?
    ensures var w := Enumerate(k, Chain(Enumerate, origin, attempts), resume, provider).db;
            k.lane in w.checkpoints && HoldsListing(k, listing, origin, w, w.checkpoints[k.lane].cursor)
  {
    hide Enumerate, IsPageLane, Sound, Tracks, HoldsListing;
    BillsArePageLane();
    ChainStoresListing(Enumerate, false, k, listing, origin, attempts, resume, provider);
  }

  // ---------------------------------------------------------------- when a resume goes on

  /** On a sound store a resume raises without a fetch, whatever the provider would do, exactly when
      page size or contract differ or no page is left. */
  lemma ResumeRefusedIff(k: Contract, db: PageDb)
    requires Sound(db, k.lane) && k.lane in db.checkpoints
    ensures (forall provider :: var w := Enumerate(k, db, true, provider); w.ending.Raised? && w.committed == 0) <==>
              var ck := db.checkpoints[k.lane];
              ck.meta.pageSize != k.pageSize || ck.meta.labels != k.labels || ck.cursor == ck.meta.pages
  {
    hide RunOnce, Pages, Lineage;
    FetchesOrRefuses(k, db, BillStart(k, db, true), false);
    assert Enumerate(k, db, true, Dying) == RunOnce(k, db, BillStart(k, db, true), Dying, false);
  }

  /** Against an unchanged listing a resume with pages left commits exactly those and finishes. */
  lemma ResumeGoesOn(k: Contract, listing: Listing, db: PageDb, c: nat, last: nat)
    requires Tracks(k, listing, db) && Sound(db, k.lane) && WellFormed(k, listing, last) && StandsAfter(k, listing, db, c) && c < last
    ensures var w := Enumerate(k, db, true, Steady(listing));
            w.ending.Finished? && w.committed == last - c && StandsAfter(k, listing, w.db, last)
  {
    hide RunOnce, Sound, Tracks, WellFormed, At;
    OwnPages(k, listing, db, c, last);
    ResumeFinishes(k, listing, db, false, c, last);
  }

  /** Without a checkpoint a resume is a fresh run. */
  lemma ResumeWithoutCheckpoint(k: Contract, db: PageDb, provider: Provider)
    requires k.lane !in db.checkpoints
    ensures Enumerate(k, db, true, provider) == RunOnce(k, db, Begin(1, Progress(None, map[], [])), provider, false)
  {
    hide RunOnce;
  }

  // ---------------------------------------------------------------- a stale checkpoint

  /** When a resumed run agrees with the uninterrupted one: a run resumed against a well-formed
      listing and finishing leaves the listing's own final checkpoint if and only if the
      checkpoint it resumed from was the listing's own. */
  lemma ResumeAgreesIff(k: Contract, listing: Listing, db: PageDb, provider: Provider, last: nat)
    requires Sound(db, k.lane) && k.lane in db.checkpoints && Serves(listing, provider)
    requires WellFormed(k, listing, last) && db.checkpoints[k.lane].cursor < last
    requires Enumerate(k, db, true, provider).ending.Finished?
    ensures var ck, w := db.checkpoints[k.lane], Enumerate(k, db, true, provider).db;
            && k.lane in w.checkpoints && ck.cursor >= 1
            && (w.checkpoints[k.lane].meta == MetaOf(k, At(k, listing, last)) <==> ck.meta == MetaOf(k, At(k, listing, ck.cursor)))
  {
    hide Enumerate, Accepts, Pages, Union, Onward, At, AcceptedThrough;
    var ck := db.checkpoints[k.lane];
    var c, m := ck.cursor, last - ck.cursor;
    var st, own := ProgressOf(ck.meta), At(k, listing, c);
    ResumedFinal(k, listing, db, provider, last);
    AtIsOnward(k, listing, c, m);
    PrintsAt(k, listing, c);
    ExpectedIsConstant(k, listing, c, last);
    OnwardPrints(k, listing, st, own, c + 1, m);
    if st.seen == own.seen { OnwardSeen(k, listing, st, own, c + 1, m); }
  }

  /** A resumed run that finishes has added the listing's remaining pages to its checkpoint. */
  lemma ResumedFinal(k: Contract, listing: Listing, db: PageDb, provider: Provider, last: nat)
    requires Sound(db, k.lane) && k.lane in db.checkpoints && Serves(listing, provider)
    requires WellFormed(k, listing, last) && db.checkpoints[k.lane].cursor < last
    requires Enumerate(k, db, true, provider).ending.Finished?
    ensures var ck, w := db.checkpoints[k.lane], Enumerate(k, db, true, provider).db;
            && k.lane in w.checkpoints && ck.meta.labels == k.labels && ck.meta.pageSize == k.pageSize
            && w.checkpoints[k.lane].meta == MetaOf(k, Onward(k, listing, ProgressOf(ck.meta), ck.cursor + 1, last - ck.cursor))
            && Some(Expected(ck.meta.total, ck.meta.pages)) == At(k, listing, last).expected
            && Onward(k, listing, ProgressOf(ck.meta), ck.cursor + 1, last - ck.cursor).expected == At(k, listing, last).expected
  {
    hide Walk, Accepts, Pages, RunOnce, Onward, At, WellFormed, Union;
    var ck := db.checkpoints[k.lane];
    var start, begun := BillStart(k, db, true), StartRun(db, k.lane);
    BillStartsSoundly(k, db, true);
    RunIsWalk(k, db, start, provider, false);
    FinishedWalk(k, listing, begun, |db.runs|, start.page, start.st, provider, last);
  }

  lemma FinishedWalk(k: Contract, listing: Listing, db: PageDb, run: nat, p: nat, st: Progress, provider: Provider, last: nat)
    requires p >= 1 && IsRunning(db, run) && db.runs[run].lane == k.lane && Serves(listing, provider)
    requires WellFormed(k, listing, last) && p <= last && st.expected.Some?
    requires Sound(db, k.lane) && Lineage(db.rows, k.lane, p - 1, st)
    requires Walk(k, db, run, p, st, provider, 0).ending.Finished?
    ensures var w := Walk(k, db, run, p, st, provider, 0).db;
            && k.lane in w.checkpoints
            && w.checkpoints[k.lane].meta == MetaOf(k, Onward(k, listing, st, p, last - p + 1))
            && st.expected == At(k, listing, last).expected
            && Onward(k, listing, st, p, last - p + 1).expected == At(k, listing, last).expected
  {
    hide Walk, Accepts, Lineage, Sound, Kept, RowsThrough, Pages, Onward, AcceptedThrough, At, Merge;
    AtExpects(k, listing, p);
    OnwardExpects(k, listing, st, p, last - p + 1);
    AtExpects(k, listing, last);
    var v := Walk(k, db, run, p, st, provider, 0);
    WalkIsSafe(k, db, run, p, st, provider, 0);
    assert v.committed > 0;
    WalkIsOnward(k, listing, db, run, p, st, provider, 0);
    FirstCommit(k, db, run, p, st, provider);
    ExpectedIsConstant(k, listing, p, last);
    assert st.expected == At(k, listing, last).expected;
  }

  lemma FirstCommit(k: Contract, db: PageDb, run: nat, p: nat, st: Progress, provider: Provider)
    requires p >= 1 && IsRunning(db, run) && db.runs[run].lane == k.lane
    requires Walk(k, db, run, p, st, provider, 0).ending.Finished? && st.expected.Some?
    ensures provider(p).fetch.Fetched?
    ensures st.expected.value == Expected(TotalOf(provider(p).fetch.document), Pages(TotalOf(provider(p).fetch.document), k.pageSize))
  {
    hide Walk, Pages, RowCount, PageHashes, AcceptsHeader, AcceptsRecords;
    if !CommitsPage(k, st, p, provider(p)) { WalkStops(k, db, run, p, st, provider, 0); }
  }

  // A lane of one-row pages, over a listing of two rows that was replaced by another.
  const STALE_CONTRACT := Contract(Lane("bills", "assembly_age:22"), map[], None, 1, None, true, false)
  const STALE_HASHES: Hashes := map["old" := "h"]
  const OLD_PAGE := Document(map[], 1, 1, None, Some(2), [Record("old", "h", None, true)])

  function NewListing(p: nat): Document {
    Document(map[], p, 1, None, Some(2), [Record(if p == 1 then "a" else "b", "h", None, true)])
  }

  function Outage(p: nat): Answer { Answer(FetchRaises, Commits) }

  lemma SecondPageFits(st: Progress, d: Document)
    requires d == NewListing(2) && st == Progress(Some(Expected(2, 2)), STALE_HASHES, [STALE_HASHES])
    ensures Accepts(STALE_CONTRACT, st, 2, d)
    ensures Advance(STALE_CONTRACT, st, d).seen == map["old" := "h", "b" := "h"]
  {
    assert d.records[..0] == [];
    assert PageHashes(d.records) == map["b" := "h"];
    assert "b" in PageHashes(d.records) && "b" !in STALE_HASHES;
    assert STALE_HASHES + map["b" := "h"] == map["old" := "h", "b" := "h"];
  }

  lemma OldPageFits()
    ensures Accepts(STALE_CONTRACT, FRESH, 1, OLD_PAGE)
    ensures Advance(STALE_CONTRACT, FRESH, OLD_PAGE) == Progress(Some(Expected(2, 2)), STALE_HASHES, [STALE_HASHES])
  {
    assert OLD_PAGE.records[..0] == [];
    assert PageHashes(OLD_PAGE.records) == STALE_HASHES;
    assert map[] + STALE_HASHES == STALE_HASHES;
  }

  /** From an empty store: a run over an older listing is cut off after its first page, a fresh run
      over the new listing fails before its first commit and so leaves that checkpoint in place,
      and the resume after it reports SUCCESS for a mixture of the two listings. */
  lemma StaleCheckpointSurvives()
    ensures var k := STALE_CONTRACT;
            var first := Enumerate(k, Db([], map[], []), false, OnlyFirst(OLD_PAGE));
            var failed := Enumerate(k, first.db, false, Outage);
            var w := Enumerate(k, failed.db, true, Steady(NewListing));
            && first.committed == 1 && failed.committed == 0 && w.ending.Finished?
            && k.lane in w.db.checkpoints && w.db.checkpoints[k.lane].meta.seen == map["old" := "h", "b" := "h"]
  {
    hide Walk, RunOnce, Accepts, Advance, NewListing, CommitPage;
    var k, empty: PageDb := STALE_CONTRACT, Db([], map[], []);
    OldPageFits();
    CutOffAfterFirst(k, empty, OLD_PAGE);
    var first := Enumerate(k, empty, false, OnlyFirst(OLD_PAGE)).db;
    WalkStops(k, StartRun(first, k.lane), |first.runs|, 1, FRESH, Outage, 0);
    RunIsWalk(k, first, FROM_THE_TOP, Outage, false);
    var db := Enumerate(k, first, false, Outage).db;
    assert BillStart(k, db, true) == Begin(2, Progress(Some(Expected(2, 2)), STALE_HASHES, [STALE_HASHES]));
    MixedResume(db);
  }

  lemma MixedResume(db: PageDb)
    requires STALE_CONTRACT.lane in db.checkpoints
    requires BillStart(STALE_CONTRACT, db, true) == Begin(2, Progress(Some(Expected(2, 2)), STALE_HASHES, [STALE_HASHES]))
    ensures var w := Enumerate(STALE_CONTRACT, db, true, Steady(NewListing));
            && w.ending.Finished? && STALE_CONTRACT.lane in w.db.checkpoints
            && w.db.checkpoints[STALE_CONTRACT.lane].meta.seen == map["old" := "h", "b" := "h"]
  {
    hide Walk, RunOnce, Accepts, Advance, NewListing, CommitPage, BillStart;
    var k, run := STALE_CONTRACT, |db.runs|;
    var start, begun := BillStart(k, db, true), StartRun(db, k.lane);
    var d := NewListing(2);
    SecondPageFits(start.st, d);
    SecondPageExpects(start.st, d);
    RunIsWalk(k, db, start, Steady(NewListing), false);
    WalkCommits(k, begun, run, 2, start.st, Steady(NewListing), 0);
    CommitMoves(k, begun, run, 2, start.st, d);
  }

  lemma SecondPageExpects(st: Progress, d: Document)
    requires d == NewListing(2)
    ensures Advance(STALE_CONTRACT, st, d).expected == Some(Expected(2, 2))
  {
  }

  /** The two-page listing is well-formed, and one uninterrupted run over it from an empty store
      reports SUCCESS: the equivalence above speaks about something. */
  lemma NewListingFinishes()
    ensures var k := STALE_CONTRACT;
            var u := Enumerate(k, Db([], map[], []), false, Steady(NewListing));
            && WellFormed(k, NewListing, 2) && u.ending.Finished?
            && k.lane in u.db.checkpoints && u.db.checkpoints[k.lane].meta.seen == map["a" := "h", "b" := "h"]
  {
    hide Walk, RunOnce, Accepts, Advance, NewListing, CommitPage, Lineage;
    var k, empty: PageDb := STALE_CONTRACT, Db([], map[], []);
    FirstPage();
    SecondPage(At(k, NewListing, 1));
    assert AcceptedThrough(k, NewListing, 1) && At(k, NewListing, 2) == Advance(k, At(k, NewListing, 1), NewListing(2));
    assert |map["a" := "h", "b" := "h"]| == 2;
    SteadyRun(k, NewListing, empty, false, 2);
  }

  lemma FirstPage()
    ensures Accepts(STALE_CONTRACT, FRESH, 1, NewListing(1))
    ensures var st := Advance(STALE_CONTRACT, FRESH, NewListing(1));
            st.expected == Some(Expected(2, 2)) && st.seen == map["a" := "h"] && st.prints == [map["a" := "h"]]
  {
    var d := NewListing(1);
    assert d.records[..0] == [];
    assert PageHashes(d.records) == map["a" := "h"];
  }

  lemma SecondPage(st: Progress)
    requires st.expected == Some(Expected(2, 2)) && st.seen == map["a" := "h"] && st.prints == [map["a" := "h"]]
    ensures Accepts(STALE_CONTRACT, st, 2, NewListing(2))
    ensures Advance(STALE_CONTRACT, st, NewListing(2)).seen == map["a" := "h", "b" := "h"]
    ensures Advance(STALE_CONTRACT, st, NewListing(2)).expected == Some(Expected(2, 2))
  {
    var d := NewListing(2);
    assert d.records[..0] == [];
    assert PageHashes(d.records) == map["b" := "h"];
    assert "b" in PageHashes(d.records) && "b" !in st.prints[0];
  }
}
