/** Member roster: the same page loop, resumed without pinning the page size, and the
    observation ids that a finished run hands to materialization. */
module Roster {
  import opened Prelude
  import opened Store
  import opened Paging
  import opened PagingSafety
  import opened PagingListing

  /** Resume needs a page left and every hash of the checkpoint's manifest still stored. */
  ghost function RosterStart(k: Contract, db: PageDb, resume: bool): Start {
    if !resume || k.lane !in db.checkpoints then FROM_THE_TOP
    else
      var ck := db.checkpoints[k.lane];
      if ck.cursor + 1 > ck.meta.pages || !Holds(db.rows, k.lane, ck.meta.seen) then Refuse
      else Begin(ck.cursor + 1, ProgressOf(ck.meta))
  }

  ghost function Enumerate(k: Contract, db: PageDb, resume: bool, provider: Provider): Walked {
    RunOnce(k, db, RosterStart(k, db, resume), provider, false)
  }

  class RosterEnumerator {
    const paged: PagedEnumerator

    constructor (paged: PagedEnumerator)
      ensures this.paged == paged
    {
      this.paged := paged;
    }

    /** The row of each manifest entry, or nothing when one is missing (or stored twice). */
    method CheckpointObservationIds(seen: Hashes) returns (ids: Option<map<Key, nat>>)
      requires NoRepeats(paged.repository.rows)
      ensures ids.Some? <==> Holds(paged.repository.rows, paged.contract.lane, seen)
      ensures ids.Some? ==> ids.value.Keys == seen.Keys && Locates(paged.repository.rows, paged.contract.lane, seen, ids.value)
    {
      var rows, lane := paged.repository.rows, paged.contract.lane;
      var current: map<Key, nat> := map[];
      for i := 0 to |rows|
        invariant Locates(rows, lane, seen, current)
        invariant forall key :: key in current ==> current[key] < i
        invariant forall j :: 0 <= j < i && rows[j].lane == lane && rows[j].key in seen && seen[rows[j].key] == rows[j].content
                    ==> rows[j].key in current
      {
        var o := rows[i];
        if o.lane == lane && o.key in seen && seen[o.key] == o.content {
          if o.key in current { assert false; }
          current := current[o.key := i];
        }
      }
      if current.Keys == seen.Keys {
        ids := Some(current);
      } else {
        var missing :| missing in seen && missing !in current;
        assert Observation(lane, missing, seen[missing]) !in rows;
        ids := None;
      }
    }

    /** One invocation: store and ending are those of `Enumerate`.  A finished run returns the
        rows of the current roster in member-code order, one row per provider key, no row twice. */
    method Run(resume: bool, provider: Provider) returns (ending: Ending, committed: nat, ids: seq<nat>)
      requires NoRepeats(paged.repository.rows)
      modifies paged.repository
      ensures Walked(paged.repository.State(), ending, committed)
              == old(Enumerate(paged.contract, paged.repository.State(), resume, provider))
      ensures ending.Finished? ==> paged.contract.lane in paged.repository.checkpoints
                                   && Roster(paged.repository.rows, paged.contract.lane, paged.repository.checkpoints[paged.contract.lane].meta.seen, ids)
    {
      hide Walk, Accepts, Holds, Roster;
      var k := paged.contract;
      var prior := paged.repository.SourceCheckpoint(k.lane);
      var run := paged.repository.StartSourceRun(k.lane);
      var page, st, refused := 1, FRESH, false;
      var known: Option<map<Key, nat>> := Some(map[]);
      ending, committed, ids := Raised, 0, [];
      if resume && prior.Some? {
        var ck := prior.value;
        page, st := ck.cursor + 1, ProgressOf(ck.meta);
        refused := page > ck.meta.pages;
        if !refused {
          known := CheckpointObservationIds(ck.meta.seen);
          refused := known.None?;
        }
      }
      if !refused {
        var found, last;
        ending, committed, found, last := paged.CommitPages(run, page, st, known.value, provider);
        if ending.Finished? { ids := InKeyOrder(last.seen, found); }
      }
      if ending.Finished? {
        var _ := paged.repository.FinishSourceRun(run, Success);
      } else if ending.Raised? {
        var _ := paged.repository.FinishSourceRun(run, if committed > 0 then Partial else Failed);
      }
    }

    method InKeyOrder(seen: Hashes, found: map<Key, nat>) returns (ids: seq<nat>)
      requires found.Keys == seen.Keys && Locates(paged.repository.rows, paged.contract.lane, seen, found)
      ensures Roster(paged.repository.rows, paged.contract.lane, seen, ids)
    {
      var keys := KeysOf(found);
      var sorted := Sort(keys);
      SortSorts(keys);
      NoRepeatsIsMultiset(keys, sorted);
      ids := [];
      for i := 0 to |sorted|
        invariant |ids| == i
        invariant forall j :: 0 <= j < i ==> sorted[j] in found && ids[j] == found[sorted[j]]
      {
        assert sorted[i] in multiset(sorted);
        ids := ids + [found[sorted[i]]];
      }
      assert ListedBy(paged.repository.rows, paged.contract.lane, seen, ids, sorted);
    }
  }

  ghost predicate Roster(rows: seq<Observation<Hash>>, lane: Lane, seen: Hashes, ids: seq<nat>) {
    exists keys :: ListedBy(rows, lane, seen, ids, keys)
  }

  /** The ids of a finished roster are pairwise distinct and as many as its provider keys, so
      the checks that guard materialization always pass. */
  lemma RosterIdsAreDistinct(rows: seq<Observation<Hash>>, lane: Lane, seen: Hashes, ids: seq<nat>)
    requires Roster(rows, lane, seen, ids)
    ensures |ids| == |seen| && NoRepeats(ids)
    ensures forall i :: 0 <= i < |ids| ==> ids[i] < |rows| && rows[ids[i]].lane == lane
  {
    var keys :| ListedBy(rows, lane, seen, ids, keys);
    forall i, j | 0 <= i < j < |ids| ensures ids[i] != ids[j] {
      assert rows[ids[i]].key == keys[i] && rows[ids[j]].key == keys[j];
    }
  }

  // ---------------------------------------------------------------- any history, any page sizes

  lemma RosterStartsSoundly(k: Contract, db: PageDb, resume: bool)
    requires Sound(db, k.lane)
    ensures StartsSoundly(k, db, RosterStart(k, db, resume))
  {
    hide Pages;
  }

  /** On a sound store a resume raises without a fetch, whatever the provider would do, exactly when
      the checkpoint already covers its last page: the manifest's observations are never missing. */
  lemma ResumeRefusedIff(k: Contract, db: PageDb)
    requires Sound(db, k.lane) && k.lane in db.checkpoints
    ensures (forall provider :: var w := Enumerate(k, db, true, provider); w.ending.Raised? && w.committed == 0)
            <==> db.checkpoints[k.lane].cursor == db.checkpoints[k.lane].meta.pages
  {
    hide RunOnce, Pages, Holds;
    FetchesOrRefuses(k, db, RosterStart(k, db, true), false);
    assert Enumerate(k, db, true, Dying) == RunOnce(k, db, RosterStart(k, db, true), Dying, false);
  }

  /** Against an unchanged roster a resume with pages left commits exactly those and finishes. */
  lemma ResumeGoesOn(k: Contract, listing: Listing, db: PageDb, c: nat, last: nat)
    requires Tracks(k, listing, db) && Sound(db, k.lane) && WellFormed(k, listing, last) && StandsAfter(k, listing, db, c) && c < last
    ensures var w := Enumerate(k, db, true, Steady(listing));
            w.ending.Finished? && w.committed == last - c && StandsAfter(k, listing, w.db, last)
  {
    hide RunOnce, Tracks, WellFormed, At, Pages, Union, Holds;
    OwnPages(k, listing, db, c, last);
    ResumeFinishes(k, listing, db, false, c, last);
  }

  lemma EmptyIsSound(lane: Lane)
    ensures Sound(Db([], map[], []), lane)
  {
  }

  lemma RosterIsPageLane()
    ensures IsPageLane(Enumerate, false)
  {
    hide RunOnce, Sound, StartsSoundly, Holds;
    forall k, db, resume, provider ensures RunsPages(k, db, provider, false, Enumerate(k, db, resume, provider)) {
      if Sound(db, k.lane) { RosterStartsSoundly(k, db, resume); }
      assert IsResumePoint(k, db, RosterStart(k, db, resume));
    }
  }

  /** Over any history of fresh and resumed runs, page sizes included, the checkpoint describes
      committed pages with pairwise disjoint keys, and every row stays unique. */
  lemma ChainIsSound(lane: Lane, attempts: seq<Attempt>)
    requires forall a :: a in attempts ==> a.contract.lane == lane
    ensures var db := Chain(Enumerate, Db([], map[], []), attempts); Sound(db, lane) && NoRepeats(db.rows)
  {
    hide Enumerate, IsPageLane;
    RosterIsPageLane();
    HistoryIsSound(Enumerate, false, Db([], map[], []), lane, attempts);
  }

  /** Crash/resume equivalence.  With one page size and an unchanged roster, any chain of fresh
      runs, interruptions and resumes that reaches SUCCESS leaves the same checkpoint and stored
      observations as one uninterrupted run. */
  lemma CrashResumeEquivalence(k: Contract, listing: Listing, origin: PageDb, attempts: seq<Attempt>, resume: bool, provider: Provider)
    requires Tracks(k, listing, origin) && Sound(origin, k.lane)
    requires forall a :: a in attempts ==> a.contract == k && Serves(listing, a.provider)
    requires Serves(listing, provider)
    requires Enumerate(k, Chain(Enumerate, origin, attempts), resume, provider).ending.Finished?
    ensures var w, u := Enumerate(k, Chain(Enumerate, origin, attempts), resume, provider), Enumerate(k, origin, false, Steady(listing));
            u.ending.Finished? && SameOutcome(k.lane, u.db, w.db)
  {
    hide Enumerate, IsPageLane, Sound, Tracks;
    RosterIsPageLane();
    ChainEquivalence(Enumerate, false, k, listing, origin, attempts, resume, provider);
  }

  /** SUCCESS means a complete checkpoint; otherwise PARTIAL exactly when a page was committed. */
  lemma RosterRunIsSafe(k: Contract, db: PageDb, resume: bool, provider: Provider)
    requires Sound(db, k.lane)
    ensures var w := Enumerate(k, db, resume, provider);
            && Sound(w.db, k.lane) && (NoRepeats(db.rows) ==> NoRepeats(w.db.rows))
            && |w.db.runs| == |db.runs| + 1
            && (w.db.runs[|db.runs|].status == Success ==> Complete(w.db, k.lane))
            && (w.db.runs[|db.runs|].status == Partial ==> w.committed > 0)
            && (w.db.runs[|db.runs|].status == Failed ==> w.committed == 0)
  {
    hide RunOnce, Sound, Complete;
    RosterStartsSoundly(k, db, resume);
    RunIsSafe(k, db, RosterStart(k, db, resume), provider, false);
  }

  /** The page size is not pinned on resume, and exactly this follows: a resumed run that commits
      the last announced page and is not killed reports SUCCESS if and only if the checkpoint it
      resumed from held cursor * pageSize keys for its own page size. */
  lemma ResumeSucceedsIff(k: Contract, db: PageDb, provider: Provider)
    requires Sound(db, k.lane) && k.lane in db.checkpoints
    requires var w := Enumerate(k, db, true, provider);
             && w.committed > 0 && !w.ending.Killed? && k.lane in w.db.checkpoints
             && w.db.checkpoints[k.lane].cursor == w.db.checkpoints[k.lane].meta.pages
    ensures Enumerate(k, db, true, provider).ending.Finished?
            <==> |db.checkpoints[k.lane].meta.seen| == db.checkpoints[k.lane].cursor * k.pageSize
  {
    hide Walk, RunOnce, Pages, RowsThrough, Lineage, Holds;
    var start, run := RosterStart(k, db, true), |db.runs|;
    var w := Enumerate(k, db, true, provider);
    RosterStartsSoundly(k, db, true);
    RunIsSafe(k, db, start, provider, false);
    RunIsWalk(k, db, start, provider, false);
    WalkIsSafe(k, StartRun(db, k.lane), run, start.page, start.st, provider, 0);
    var ck := w.db.checkpoints[k.lane];
    PagesAddUp(ck.meta.total, k.pageSize);
    BeforeLastPage(ck.meta.total, k.pageSize, start.page - 1);
  }

  lemma BeforeLastPage(total: nat, size: nat, c: nat)
    requires size >= 1 && c < Pages(total, size) && c >= 1
    ensures RowsThrough(total, size, c) == c * size
  {
    RowsThroughIs(total, size, c);
    EarlierPagesAreFull(total, size, c);
  }

  lemma EarlierPagesAreFull(total: nat, size: nat, c: nat)
    requires size >= 1 && c < Pages(total, size)
    ensures c * size <= total
  {
    if total == 0 {
      NoRowsOnePage(size);
    } else {
      PagesCover(total, size);
      LessTimes(c, Pages(total, size) - 1, size);
    }
  }

  lemma NoRowsOnePage(size: nat)
    requires size >= 1
    ensures Pages(0, size) == 1
  {
  }

  // ---------------------------------------------------------------- a page size that changed

  /** An unchanged roster of five members, at any page size. */
  const MEMBERS: seq<Key> := ["a", "b", "c", "d", "e"]

  function RosterOf(size: Positive): Contract { Contract(Lane("roster", "assembly_age:22"), map[], None, size, None, false, false) }

  function MemberRows(from: nat, to: nat): seq<Record>
    requires from <= to <= |MEMBERS|
  {
    seq(to - from, i requires 0 <= i < to - from => Record(MEMBERS[from + i], "h", None, true))
  }

  function RosterPage(size: Positive, p: nat): Document {
    var from, to := if p >= 1 then (p - 1) * size else 0, p * size;
    Document(map[], p, size, None, Some(|MEMBERS|),
             if from >= |MEMBERS| then [] else MemberRows(from, if to < |MEMBERS| then to else |MEMBERS|))
  }

  /** The roster, four members a page. */
  function FourAPage(p: nat): Document { RosterPage(4, p) }

  lemma FirstThreeFit()
    ensures Accepts(RosterOf(3), FRESH, 1, RosterPage(3, 1))
    ensures var st := Advance(RosterOf(3), FRESH, RosterPage(3, 1)); st.expected == Some(Expected(5, 2)) && st.seen.Keys == {"a", "b", "c"}
  {
    hide PageHashes;
    FivePages();
    ThreeHashes();
    var rows := RosterPage(3, 1).records;
    assert rows == MemberRows(0, 3);
    assert Fits(RosterOf(3), map[], rows[0]) && Fits(RosterOf(3), map[], rows[1]) && Fits(RosterOf(3), map[], rows[2]);
    assert DistinctKeys(rows) by { assert rows[0].key == "a" && rows[1].key == "b" && rows[2].key == "c"; }
  }

  lemma ThreeHashes()
    ensures PageHashes(MemberRows(0, 3)) == map["a" := "h", "b" := "h", "c" := "h"]
  {
    var rows := MemberRows(0, 3);
    assert rows[..2] == MemberRows(0, 2) && rows[..2][..1] == MemberRows(0, 1) && MemberRows(0, 1)[..0] == [];
    assert PageHashes(MemberRows(0, 1)) == map["a" := "h"];
    assert PageHashes(MemberRows(0, 2)) == map["a" := "h", "b" := "h"] by { assert MemberRows(0, 2)[..1] == MemberRows(0, 1); }
  }

  lemma FifthFits(st: Progress)
    requires st.expected == Some(Expected(5, 2)) && st.seen.Keys == {"a", "b", "c"} && st.seen == Union(st.prints)
    ensures Accepts(RosterOf(4), st, 2, RosterPage(4, 2))
    ensures var after := Advance(RosterOf(4), st, RosterPage(4, 2)); after.expected == Some(Expected(5, 2)) && after.seen.Keys == {"a", "b", "c", "e"}
  {
    hide Union;
    var rows := RosterPage(4, 2).records;
    assert rows == [Record("e", "h", None, true)];
    assert rows[..0] == [] && PageHashes(rows) == map["e" := "h"];
    FreshPageIsNoRepeat(RosterOf(4), st.prints, rows);
  }

  /** The roster does not change and no page after the cut fails, yet a run at page size 3 that is
      cut off after its first page cannot be finished at page size 4: the resume commits the last
      page, has skipped a member, and raises. */
  lemma ChangedPageSizeFails()
    ensures var first := Enumerate(RosterOf(3), Db([], map[], []), false, OnlyFirst(RosterPage(3, 1)));
            var w := Enumerate(RosterOf(4), first.db, true, Steady(FourAPage));
            var lane := RosterOf(4).lane;
            && first.committed == 1 && w.committed == 1 && w.ending.Raised?
            && lane in w.db.checkpoints && w.db.checkpoints[lane].cursor == w.db.checkpoints[lane].meta.pages == 2
            && "d" !in w.db.checkpoints[lane].meta.seen
  {
    hide Walk, RunOnce, Accepts, Advance, RosterPage, CommitPage, Pages, Union, Holds, PairwiseDisjoint, RowsThrough;
    var three, four, empty: PageDb := RosterOf(3), RosterOf(4), Db([], map[], []);
    var page := RosterPage(3, 1);
    FirstThreeFit();
    FivePages();
    CutOffAfterFirst(three, empty, page);
    EmptyIsSound(three.lane);
    RosterRunIsSafe(three, empty, false, OnlyFirst(page));
    var db, st := Enumerate(three, empty, false, OnlyFirst(page)).db, Advance(three, FRESH, page);
    assert RosterStart(four, db, true) == Begin(2, st);
    FifthFits(st);
    ResumedAtFour(db, st);
  }

  lemma ResumedAtFour(db: PageDb, st: Progress)
    requires RosterStart(RosterOf(4), db, true) == Begin(2, st) && st.expected.Some?
    requires Accepts(RosterOf(4), st, 2, RosterPage(4, 2))
    requires var after := Advance(RosterOf(4), st, RosterPage(4, 2)); after.expected == Some(Expected(5, 2)) && after.seen.Keys == {"a", "b", "c", "e"}
    ensures var w, lane := Enumerate(RosterOf(4), db, true, Steady(FourAPage)), RosterOf(4).lane;
            && w.committed == 1 && w.ending.Raised? && lane in w.db.checkpoints
            && w.db.checkpoints[lane].cursor == w.db.checkpoints[lane].meta.pages == 2
            && w.db.checkpoints[lane].meta.seen.Keys == {"a", "b", "c", "e"}
  {
    hide Walk, RunOnce, Accepts, Advance, RosterPage, CommitPage, Pages, RosterStart;
    var four, run, rest := RosterOf(4), |db.runs|, Steady(FourAPage);
    assert rest(2) == Answer(Fetched(RosterPage(4, 2)), Commits);
    RunIsWalk(four, db, Begin(2, st), rest, false);
    WalkCommits(four, StartRun(db, four.lane), run, 2, st, rest, 0);
    CommitMoves(four, StartRun(db, four.lane), run, 2, st, RosterPage(4, 2));
    var seen := Advance(four, st, RosterPage(4, 2)).seen;
    assert |seen| == |seen.Keys| && |{"a", "b", "c", "e"}| == 4;
  }

  lemma FivePages()
    ensures TotalOf(RosterPage(3, 1)) == 5 && Pages(5, 3) == 2
  {
  }
}
