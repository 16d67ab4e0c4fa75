/** The page loop against a listing that does not change: every document a run receives
    for page p is the listing's page p, though any fetch or commit may still fail. */
module PagingListing {
  import opened Prelude
  import opened Store
  import opened Paging
  import opened PagingSafety

  type Listing = nat -> Document

  ghost predicate Serves(listing: Listing, provider: Provider) {
    forall p :: provider(p).fetch.Fetched? ==> provider(p).fetch.document == listing(p)
  }

  /** The provider and database of an uninterrupted run over the listing. */
  function Steady(listing: Listing): Provider {
    (p: nat) => Answer(Fetched(listing(p)), Commits)
  }

  /** What pages 1..c of the listing add up to. */
  ghost function At(k: Contract, listing: Listing, c: nat): Progress
    ensures c > 0 ==> At(k, listing, c).expected.Some?
  {
    if c == 0 then FRESH else Advance(k, At(k, listing, c - 1), listing(c))
  }

  ghost predicate AcceptedThrough(k: Contract, listing: Listing, c: nat) {
    c == 0 || (AcceptedThrough(k, listing, c - 1) && Accepts(k, At(k, listing, c - 1), c, listing(c)))
  }

  ghost function ObservedThrough(k: Contract, listing: Listing, c: nat): set<Observation<Hash>> {
    if c == 0 then {} else ObservedThrough(k, listing, c - 1) + Stored(Observations(k.lane, listing(c).records))
  }

  /** The lane has no checkpoint, or its checkpoint is the listing's own through some page. */
  ghost predicate Tracks(k: Contract, listing: Listing, db: PageDb) {
    k.lane in db.checkpoints ==>
      var ck := db.checkpoints[k.lane];
      && ck.cursor >= 1 && AcceptedThrough(k, listing, ck.cursor)
      && ck.meta == MetaOf(k, At(k, listing, ck.cursor))
      && ck.cursor <= ck.meta.pages
      && ObservedThrough(k, listing, ck.cursor) <= Stored(db.rows)
  }

  lemma {:induction false} ExpectedIsConstant(k: Contract, listing: Listing, p: nat, c: nat)
    requires 1 <= p <= c && AcceptedThrough(k, listing, c)
    ensures AcceptedThrough(k, listing, p)
    ensures At(k, listing, p).expected == At(k, listing, c).expected
  {
    hide Pages, RowCount, PageHashes, AcceptsHeader, AcceptsRecords;
    if p < c {
      assert Accepts(k, At(k, listing, c - 1), c, listing(c));
      ExpectedIsConstant(k, listing, p, c - 1);
    }
  }

  lemma AtExpects(k: Contract, listing: Listing, c: nat)
    requires c >= 1
    ensures At(k, listing, c).expected == Some(Expected(TotalOf(listing(c)), Pages(TotalOf(listing(c)), k.pageSize)))
  {
    hide Pages;
  }

  lemma {:induction false} ObservedGrows(k: Contract, listing: Listing, a: nat, b: nat)
    requires a <= b
    ensures ObservedThrough(k, listing, a) <= ObservedThrough(k, listing, b)
  {
    if a < b { ObservedGrows(k, listing, a, b - 1); }
  }

  lemma {:induction false} PrintsAt(k: Contract, listing: Listing, c: nat)
    ensures |At(k, listing, c).prints| == c
    ensures At(k, listing, c).seen == Union(At(k, listing, c).prints)
    ensures c > 0 ==> At(k, listing, c).prints[..c - 1] == At(k, listing, c - 1).prints
  {
    if c > 0 { PrintsAt(k, listing, c - 1); }
  }

  lemma CommitFollows(k: Contract, listing: Listing, db: PageDb, run: nat, p: nat)
    requires p >= 1 && IsRunning(db, run) && db.runs[run].lane == k.lane
    requires AcceptedThrough(k, listing, p - 1) && Accepts(k, At(k, listing, p - 1), p, listing(p))
    requires ObservedThrough(k, listing, p - 1) <= Stored(db.rows)
    ensures var next := CommitOf(k, db, run, p, At(k, listing, p - 1), listing(p));
            && Stored(next.rows) == Stored(db.rows) + ObservedThrough(k, listing, p)
            && next.checkpoints == db.checkpoints[k.lane := Checkpoint(p, MetaOf(k, At(k, listing, p)), run)]
            && AcceptedThrough(k, listing, p) && Tracks(k, listing, next)
  {
    hide Pages, RowCount, PageHashes, AcceptsHeader, AcceptsRecords, CommitPage;
    CommitMeaning(db, run, Observations(k.lane, listing(p).records), p, MetaOf(k, At(k, listing, p)));
  }

  /** A walk from page `p` left the checkpoint the listing's own, through its last committed page,
      and added exactly the observations of the pages through it. */
  ghost predicate Tracked(k: Contract, listing: Listing, db: PageDb, p: nat, n: nat, w: Walked)
    requires p >= 1
  {
    && w.committed >= n && Tracks(k, listing, w.db)
    && (w.committed == n ==> w.db == db)
    && var c := p - 1 + w.committed - n;
       && (w.committed > n ==> k.lane in w.db.checkpoints && w.db.checkpoints[k.lane].cursor == c)
       && AcceptedThrough(k, listing, c)
       && Stored(w.db.rows) == Stored(db.rows) + ObservedThrough(k, listing, c)
  }

  lemma StopIsTracked(k: Contract, listing: Listing, db: PageDb, p: nat, n: nat, w: Walked)
    requires p >= 1 && w.db == db && w.committed == n && Tracks(k, listing, db)
    requires AcceptedThrough(k, listing, p - 1) && ObservedThrough(k, listing, p - 1) <= Stored(db.rows)
    ensures Tracked(k, listing, db, p, n, w)
  {
    hide Tracks, AcceptedThrough, ObservedThrough, Stored;
  }

  lemma CommitIsTracked(k: Contract, listing: Listing, db: PageDb, next: PageDb, p: nat, n: nat, w: Walked)
    requires p >= 1 && Tracks(k, listing, next) && AcceptedThrough(k, listing, p)
    requires Stored(next.rows) == Stored(db.rows) + ObservedThrough(k, listing, p)
    requires k.lane in next.checkpoints && next.checkpoints[k.lane].cursor == p
    requires (w.db == next && w.committed == n + 1) || Tracked(k, listing, next, p + 1, n + 1, w)
    ensures Tracked(k, listing, db, p, n, w)
  {
    hide Tracks, AcceptedThrough, ObservedThrough, Stored;
    if w.committed > n + 1 { ObservedGrows(k, listing, p, p - 1 + w.committed - n); }
  }

  lemma {:induction false} WalkTracks(k: Contract, listing: Listing, db: PageDb, run: nat, p: nat, provider: Provider, n: nat)
    requires p >= 1 && IsRunning(db, run) && db.runs[run].lane == k.lane
    requires Serves(listing, provider) && AcceptedThrough(k, listing, p - 1) && Tracks(k, listing, db)
    requires ObservedThrough(k, listing, p - 1) <= Stored(db.rows)
    ensures Tracked(k, listing, db, p, n, Walk(k, db, run, p, At(k, listing, p - 1), provider, n))
    decreases Left(k, At(k, listing, p - 1), p, provider)
  {
    hide *;
    var st, a := At(k, listing, p - 1), provider(p);
    var w := Walk(k, db, run, p, st, provider, n);
    if !CommitsPage(k, st, p, a) {
      WalkStops(k, db, run, p, st, provider, n);
      StopIsTracked(k, listing, db, p, n, w);
    } else {
      WalkCommits(k, db, run, p, st, provider, n);
      ServedPage(listing, provider, p);
      AtSteps(k, listing, p);
      CommitFollows(k, listing, db, run, p);
      var next := CommitOf(k, db, run, p, st, listing(p));
      if !a.persist.DiesAfter? && p != Advance(k, st, listing(p)).expected.value.pages {
        CommittedGrows(k, listing, db, next, p);
        WalkTracks(k, listing, next, run, p + 1, provider, n + 1);
      }
      CommitIsTracked(k, listing, db, next, p, n, w);
    }
  }

  lemma ServedPage(listing: Listing, provider: Provider, p: nat)
    requires Serves(listing, provider) && provider(p).fetch.Fetched?
    ensures provider(p).fetch.document == listing(p)
  {
  }

  lemma AtSteps(k: Contract, listing: Listing, p: nat)
    requires p >= 1
    ensures At(k, listing, p) == Advance(k, At(k, listing, p - 1), listing(p))
  {
  }

  lemma CommittedGrows(k: Contract, listing: Listing, db: PageDb, next: PageDb, p: nat)
    requires Stored(next.rows) == Stored(db.rows) + ObservedThrough(k, listing, p)
    ensures ObservedThrough(k, listing, p) <= Stored(next.rows)
  {
  }

  /** Pages 1..last of the listing pass every check and cover its announced total. */
  ghost predicate WellFormed(k: Contract, listing: Listing, last: nat) {
    && last >= 1 && AcceptedThrough(k, listing, last)
    && At(k, listing, last).expected.value.pages == last
    && |At(k, listing, last).seen| == At(k, listing, last).expected.value.total
  }

  /** Uninterrupted, a walk over a well-formed listing finishes at its last page. */
  lemma {:induction false} SteadyFinishes(k: Contract, listing: Listing, db: PageDb, run: nat, p: nat, last: nat, n: nat)
    requires 1 <= p <= last && IsRunning(db, run) && db.runs[run].lane == k.lane
    requires WellFormed(k, listing, last)
    ensures var w := Walk(k, db, run, p, At(k, listing, p - 1), Steady(listing), n);
            w.ending.Finished? && w.committed == n + last - p + 1
    decreases last - p
  {
    hide Walk, Accepts, Pages, CommitPage, MetaOf, Advance;
    ExpectedIsConstant(k, listing, p, last);
    WalkCommits(k, db, run, p, At(k, listing, p - 1), Steady(listing), n);
    if p < last {
      SteadyFinishes(k, listing, CommitOf(k, db, run, p, At(k, listing, p - 1), listing(p)), run, p + 1, last, n + 1);
    }
  }

  /** A run that starts where the listing's own checkpoint stands (or from the top) keeps the
      checkpoint the listing's own; finishing means the listing is well-formed. */
  lemma RunTracks(k: Contract, listing: Listing, db: PageDb, start: Start, provider: Provider, priorCounts: bool)
    requires Serves(listing, provider) && Tracks(k, listing, db) && Sound(db, k.lane)
    requires start.Begin? ==> start.page >= 1 && start.st == At(k, listing, start.page - 1)
                              && AcceptedThrough(k, listing, start.page - 1)
                              && ObservedThrough(k, listing, start.page - 1) <= Stored(db.rows)
                              && Lineage(db.rows, k.lane, start.page - 1, start.st)
    ensures var w := RunOnce(k, db, start, provider, priorCounts);
            && Tracks(k, listing, w.db) && Sound(w.db, k.lane)
            && (w.committed == 0 ==> Stored(w.db.rows) == Stored(db.rows) && w.db.checkpoints == db.checkpoints)
            && (w.committed > 0 ==> start.Begin? && var c := start.page - 1 + w.committed;
                                    && AcceptedThrough(k, listing, c)
                                    && Stored(w.db.rows) == Stored(db.rows) + ObservedThrough(k, listing, c)
                                    && k.lane in w.db.checkpoints && w.db.checkpoints[k.lane].cursor == c
                                    && w.db.checkpoints[k.lane].meta == MetaOf(k, At(k, listing, c))
                                    && (w.ending.Finished? ==> WellFormed(k, listing, c)))
  {
    hide Walk, Accepts, Pages, At, Lineage, RowsThrough, RunOnce, Complete, Sound, AcceptedThrough, Tracks, ObservedThrough, WellFormed;
    RunIsSafe(k, db, start, provider, priorCounts);
    RunIsWalk(k, db, start, provider, priorCounts);
    var w := RunOnce(k, db, start, provider, priorCounts);
    if start.Begin? {
      var begun: PageDb := StartRun(db, k.lane);
      TracksCarries(k, listing, db, begun);
      WalkTracks(k, listing, begun, |db.runs|, start.page, provider, 0);
      TracksCarries(k, listing, Walk(k, begun, |db.runs|, start.page, start.st, provider, 0).db, w.db);
      if w.committed > 0 { TrackedEnd(k, listing, w.db, start.page - 1 + w.committed); }
    } else {
      TracksCarries(k, listing, db, w.db);
    }
  }

  lemma TracksCarries(k: Contract, listing: Listing, db: PageDb, other: PageDb)
    requires other.rows == db.rows && other.checkpoints == db.checkpoints
    ensures Tracks(k, listing, other) <==> Tracks(k, listing, db)
  {
  }

  lemma TrackedEnd(k: Contract, listing: Listing, db: PageDb, c: nat)
    requires Tracks(k, listing, db) && k.lane in db.checkpoints && db.checkpoints[k.lane].cursor == c
    ensures db.checkpoints[k.lane].meta == MetaOf(k, At(k, listing, c))
    ensures Complete(db, k.lane) ==> WellFormed(k, listing, c)
  {
    hide Accepts, Lineage, At, AcceptedThrough, ObservedThrough, Pages;
  }

  /** `m` is the furthest page of the listing that any run since `origin` committed. */
  ghost predicate Furthest(k: Contract, listing: Listing, origin: PageDb, db: PageDb, m: nat) {
    && AcceptedThrough(k, listing, m) && Stored(db.rows) == Stored(origin.rows) + ObservedThrough(k, listing, m)
    && (k.lane in db.checkpoints ==> db.checkpoints[k.lane].cursor <= m)
  }

  lemma FurthestMoves(k: Contract, listing: Listing, origin: PageDb, before: PageDb, after: PageDb, m: nat, c: nat)
    requires Furthest(k, listing, origin, before, m)
    requires AcceptedThrough(k, listing, c) && Stored(after.rows) == Stored(before.rows) + ObservedThrough(k, listing, c)
    requires k.lane in after.checkpoints && after.checkpoints[k.lane].cursor == c
    ensures Furthest(k, listing, origin, after, if c <= m then m else c)
  {
    hide Accepts;
    if c <= m { ObservedGrows(k, listing, c, m); } else { ObservedGrows(k, listing, m, c); }
  }

  function Max(a: nat, b: nat): nat { if a < b then b else a }

  ghost function CursorOf(db: PageDb, lane: Lane): nat {
    if lane in db.checkpoints then db.checkpoints[lane].cursor else 0
  }

  lemma ResumePoint(k: Contract, listing: Listing, db: PageDb, start: Start)
    requires Tracks(k, listing, db) && IsResumePoint(k, db, start)
    ensures start.Begin? ==> start.page >= 1 && start.st == At(k, listing, start.page - 1)
                             && AcceptedThrough(k, listing, start.page - 1)
                             && ObservedThrough(k, listing, start.page - 1) <= Stored(db.rows)
  {
    hide Accepts, Pages, PageHashes;
  }

  lemma FurthestStays(k: Contract, listing: Listing, origin: PageDb, before: PageDb, after: PageDb, m: nat)
    requires Furthest(k, listing, origin, before, m)
    requires Stored(after.rows) == Stored(before.rows) && after.checkpoints == before.checkpoints
    ensures Furthest(k, listing, origin, after, m)
  {
    hide AcceptedThrough, Stored;
  }

  /** One run over the listing: the stored rows are the listing's pages through the furthest one
      committed so far, and the checkpoint may stand before it but never after it. */
  lemma RunKeepsFurthest(k: Contract, listing: Listing, origin: PageDb, db: PageDb, start: Start, provider: Provider, priorCounts: bool, m: nat)
    requires Serves(listing, provider) && Tracks(k, listing, db) && Sound(db, k.lane)
    requires Furthest(k, listing, origin, db, m) && IsResumePoint(k, db, start) && StartsSoundly(k, db, start)
    ensures var w := RunOnce(k, db, start, provider, priorCounts);
            && Tracks(k, listing, w.db) && Sound(w.db, k.lane) && Furthest(k, listing, origin, w.db, Max(m, CursorOf(w.db, k.lane)))
            && (w.ending.Finished? ==> k.lane in w.db.checkpoints && WellFormed(k, listing, w.db.checkpoints[k.lane].cursor))
  {
    hide Walk, Accepts, Pages, Lineage, RunOnce, AcceptedThrough, WellFormed, Furthest, At, ObservedThrough, Complete;
    ResumePoint(k, listing, db, start);
    RunTracks(k, listing, db, start, provider, priorCounts);
    RunIsSafe(k, db, start, provider, priorCounts);
    var w := RunOnce(k, db, start, provider, priorCounts);
    if w.committed > 0 {
      FurthestMoves(k, listing, origin, db, w.db, m, start.page - 1 + w.committed);
    } else {
      FurthestStays(k, listing, origin, db, w.db, m);
      assert CursorOf(w.db, k.lane) <= m by { CursorIsNotPast(k, listing, origin, db, m); }
    }
  }

  lemma CursorIsNotPast(k: Contract, listing: Listing, origin: PageDb, db: PageDb, m: nat)
    requires Furthest(k, listing, origin, db, m)
    ensures CursorOf(db, k.lane) <= m
  {
  }

  /** No page past the announced last one is ever committed. */
  lemma FurthestIsAnnounced(k: Contract, listing: Listing, m: nat, last: nat)
    requires AcceptedThrough(k, listing, m) && WellFormed(k, listing, last)
    ensures m <= last
  {
    hide Pages, RowCount, PageHashes, AcceptsHeader, AcceptsRecords;
    if m > last {
      ExpectedIsConstant(k, listing, last, m);
    }
  }

  // ---------------------------------------------------------------- the listing's own records

  lemma {:induction false} ObservedIsSeen(k: Contract, listing: Listing, c: nat)
    requires AcceptedThrough(k, listing, c)
    ensures forall o :: o in ObservedThrough(k, listing, c)
                        <==> o.lane == k.lane && o.key in At(k, listing, c).seen && At(k, listing, c).seen[o.key] == o.content
  {
    hide Accepts, Pages;
    if c > 0 {
      ObservedIsSeen(k, listing, c - 1);
      PageIsObserved(k, At(k, listing, c - 1), c, listing(c));
    }
  }

  lemma PageIsObserved(k: Contract, st: Progress, p: nat, d: Document)
    requires p >= 1 && Accepts(k, st, p, d)
    ensures forall o :: o in Stored(Observations(k.lane, d.records))
                        <==> o.lane == k.lane && o.key in PageHashes(d.records) && PageHashes(d.records)[o.key] == o.content
    ensures st.seen.Keys !! PageHashes(d.records).Keys
    ensures |PageHashes(d.records)| == RowCount(TotalOf(d), k.pageSize, p)
  {
    hide Pages, RowCount;
    var page, hashes := Observations(k.lane, d.records), PageHashes(d.records);
    HashesAreRecords(d.records);
    forall key | key in hashes ensures Observation(k.lane, key, hashes[key]) in page && key !in st.seen {
      HashesKeys(d.records, key);
      var i :| 0 <= i < |d.records| && d.records[i].key == key;
      assert page[i] == Observation(k.lane, key, hashes[key]) && Fits(k, st.seen, d.records[i]);
    }
  }

  /** The listing has the record on one of its pages 1..c. */
  ghost predicate Lists(listing: Listing, c: nat, r: Record) { exists p :: 1 <= p <= c && r in listing(p).records }

  /** What pages 1..c of the listing store is one observation for each of their records. */
  lemma {:induction false} ObservedIsListed(k: Contract, listing: Listing, c: nat)
    ensures forall r :: Lists(listing, c, r) ==> Observation(k.lane, r.key, r.content) in ObservedThrough(k, listing, c)
    ensures forall o :: o in ObservedThrough(k, listing, c) ==> exists r :: Lists(listing, c, r) && o == Observation(k.lane, r.key, r.content)
  {
    if c > 0 {
      ObservedIsListed(k, listing, c - 1);
      var records := listing(c).records;
      var page := Observations(k.lane, records);
      forall r | Lists(listing, c, r) ensures Observation(k.lane, r.key, r.content) in ObservedThrough(k, listing, c) {
        if r in records {
          var i :| 0 <= i < |records| && records[i] == r;
          assert page[i] in page;
        } else {
          assert Lists(listing, c - 1, r);
        }
      }
      forall o | o in ObservedThrough(k, listing, c) ensures exists r :: Lists(listing, c, r) && o == Observation(k.lane, r.key, r.content) {
        if o in page {
          var i :| 0 <= i < |page| && page[i] == o;
          assert records[i] in records && Lists(listing, c, records[i]);
        } else {
          var r :| Lists(listing, c - 1, r) && o == Observation(k.lane, r.key, r.content);
          assert Lists(listing, c, r);
        }
      }
    }
  }

  /** The store holds, beside the rows of `origin`, exactly one observation for each record of pages
      1..last, and the checkpoint's map exactly their keys and contents. */
  ghost predicate HoldsListing(k: Contract, listing: Listing, origin: PageDb, db: PageDb, last: nat) {
    && k.lane in db.checkpoints && db.checkpoints[k.lane].cursor == last
    && (forall r :: Lists(listing, last, r) ==>
          && Observation(k.lane, r.key, r.content) in db.rows
          && r.key in db.checkpoints[k.lane].meta.seen && db.checkpoints[k.lane].meta.seen[r.key] == r.content)
    && (forall o :: o in db.rows ==> o in origin.rows || exists r :: Lists(listing, last, r) && o == Observation(k.lane, r.key, r.content))
    && (forall key :: key in db.checkpoints[k.lane].meta.seen ==> exists r :: Lists(listing, last, r) && r.key == key)
    && |db.checkpoints[k.lane].meta.seen| == db.checkpoints[k.lane].meta.total && db.checkpoints[k.lane].meta.pages == last
  }

  lemma ListingIsHeld(k: Contract, listing: Listing, origin: PageDb, db: PageDb, last: nat)
    requires WellFormed(k, listing, last) && k.lane in db.checkpoints && db.checkpoints[k.lane].cursor == last
    requires db.checkpoints[k.lane].meta == MetaOf(k, At(k, listing, last))
    requires Stored(db.rows) == Stored(origin.rows) + ObservedThrough(k, listing, last)
    ensures HoldsListing(k, listing, origin, db, last)
  {
    hide Lists, At, ObservedThrough, AcceptedThrough;
    ObservedIsListed(k, listing, last);
    ObservedIsSeen(k, listing, last);
    var seen := db.checkpoints[k.lane].meta.seen;
    assert seen == At(k, listing, last).seen;
    forall r | Lists(listing, last, r)
      ensures Observation(k.lane, r.key, r.content) in db.rows && r.key in seen && seen[r.key] == r.content
    {
      assert Observation(k.lane, r.key, r.content) in Stored(db.rows);
    }
    forall o | o in db.rows ensures o in origin.rows || exists r :: Lists(listing, last, r) && o == Observation(k.lane, r.key, r.content) {
      assert o in Stored(db.rows);
    }
    forall key | key in seen ensures exists r :: Lists(listing, last, r) && r.key == key {
      assert Observation(k.lane, key, seen[key]) in ObservedThrough(k, listing, last);
    }
  }

  // ---------------------------------------------------------------- resuming from any progress

  /** The progress `st` followed by `m` pages of the listing from page `p` on. */
  ghost function Onward(k: Contract, listing: Listing, st: Progress, p: nat, m: nat): Progress
    requires p >= 1
    ensures m > 0 ==> Onward(k, listing, st, p, m).expected.Some?
  {
    if m == 0 then st else Advance(k, Onward(k, listing, st, p, m - 1), listing(p + m - 1))
  }

  lemma OnwardExpects(k: Contract, listing: Listing, st: Progress, p: nat, m: nat)
    requires p >= 1 && m >= 1
    ensures var total := TotalOf(listing(p + m - 1)); Onward(k, listing, st, p, m).expected == Some(Expected(total, Pages(total, k.pageSize)))
  {
    hide Pages;
  }

  lemma {:induction false} OnwardSteps(k: Contract, listing: Listing, st: Progress, p: nat, m: nat)
    requires p >= 1 && m > 0
    ensures Onward(k, listing, st, p, m) == Onward(k, listing, Advance(k, st, listing(p)), p + 1, m - 1)
  {
    hide Advance;
    if m > 1 { OnwardSteps(k, listing, st, p, m - 1); }
  }

  lemma {:induction false} AtIsOnward(k: Contract, listing: Listing, c: nat, m: nat)
    ensures At(k, listing, c + m) == Onward(k, listing, At(k, listing, c), c + 1, m)
  {
    hide Advance;
    if m > 0 { AtIsOnward(k, listing, c, m - 1); }
  }

  /** Different progress stays different, and equal fingerprints stay equal, as pages are added. */
  lemma {:induction false} OnwardPrints(k: Contract, listing: Listing, a: Progress, b: Progress, p: nat, m: nat)
    requires p >= 1 && |a.prints| == |b.prints|
    ensures |Onward(k, listing, a, p, m).prints| == |Onward(k, listing, b, p, m).prints|
    ensures Onward(k, listing, a, p, m).prints == Onward(k, listing, b, p, m).prints <==> a.prints == b.prints
  {
    hide Pages;
    if m > 0 {
      OnwardPrints(k, listing, a, b, p, m - 1);
      var x, y := Onward(k, listing, a, p, m - 1).prints, Onward(k, listing, b, p, m - 1).prints;
      var h := PageHashes(listing(p + m - 1).records);
      assert (x + [h])[..|x|] == x && (y + [h])[..|y|] == y;
    }
  }

  lemma {:induction false} OnwardSeen(k: Contract, listing: Listing, a: Progress, b: Progress, p: nat, m: nat)
    requires p >= 1 && a.seen == b.seen
    ensures Onward(k, listing, a, p, m).seen == Onward(k, listing, b, p, m).seen
  {
    hide Pages;
    if m > 0 { OnwardSeen(k, listing, a, b, p, m - 1); }
  }

  lemma CommitMoves(k: Contract, db: PageDb, run: nat, p: nat, st: Progress, d: Document)
    requires IsRunning(db, run) && db.runs[run].lane == k.lane
    ensures CommitOf(k, db, run, p, st, d).checkpoints == db.checkpoints[k.lane := Checkpoint(p, MetaOf(k, Advance(k, st, d)), run)]
  {
    hide Pages, PageHashes, Merge;
  }

  lemma {:induction false} WalkIsOnward(k: Contract, listing: Listing, db: PageDb, run: nat, p: nat, st: Progress, provider: Provider, n: nat)
    requires p >= 1 && IsRunning(db, run) && db.runs[run].lane == k.lane && Serves(listing, provider)
    ensures var w := Walk(k, db, run, p, st, provider, n);
            && w.committed >= n && (w.committed == n ==> w.db == db)
            && (w.committed > n ==>
                  && k.lane in w.db.checkpoints
                  && w.db.checkpoints[k.lane].cursor == p - 1 + w.committed - n
                  && w.db.checkpoints[k.lane].meta == MetaOf(k, Onward(k, listing, st, p, w.committed - n)))
    decreases Left(k, st, p, provider)
  {
    hide Walk, Accepts, Pages, Advance, MetaOf, Merge;
    var a := provider(p);
    if !CommitsPage(k, st, p, a) {
      WalkStops(k, db, run, p, st, provider, n);
    } else {
      WalkCommits(k, db, run, p, st, provider, n);
      var st', next := Advance(k, st, listing(p)), CommitOf(k, db, run, p, st, listing(p));
      CommitMoves(k, db, run, p, st, listing(p));
      var m := Walk(k, db, run, p, st, provider, n).committed - n;
      if !a.persist.DiesAfter? && p != st'.expected.value.pages {
        WalkIsOnward(k, listing, next, run, p + 1, st', provider, n + 1);
      }
      if m > 0 { OnwardSteps(k, listing, st, p, m); }
    }
  }

  // ---------------------------------------------------------------- crash/resume equivalence

  lemma InvocationTracks(enumerate: Invocation, priorCounts: bool, k: Contract, listing: Listing, origin: PageDb, db: PageDb,
                         resume: bool, provider: Provider, m: nat)
    requires IsPageLane(enumerate, priorCounts) && Serves(listing, provider)
    requires Tracks(k, listing, db) && Sound(db, k.lane) && Furthest(k, listing, origin, db, m)
    ensures var w := enumerate(k, db, resume, provider);
            && Tracks(k, listing, w.db) && Sound(w.db, k.lane) && Furthest(k, listing, origin, w.db, Max(m, CursorOf(w.db, k.lane)))
            && (w.ending.Finished? ==> k.lane in w.db.checkpoints && WellFormed(k, listing, w.db.checkpoints[k.lane].cursor))
  {
    hide Tracks, Sound, Furthest, RunOnce, StartsSoundly, WellFormed;
    var w := enumerate(k, db, resume, provider);
    if w == Walked(db, Raised, 0) {
      CursorIsNotPast(k, listing, origin, db, m);
    } else {
      var start :| IsResumePoint(k, db, start) && (Sound(db, k.lane) ==> StartsSoundly(k, db, start))
                   && w == RunOnce(k, db, start, provider, priorCounts);
      RunKeepsFurthest(k, listing, origin, db, start, provider, priorCounts, m);
    }
  }

  /** The furthest page at which the checkpoint stood after any of the attempts. */
  ghost function Farthest(enumerate: Invocation, db: PageDb, lane: Lane, attempts: seq<Attempt>): nat {
    if attempts == [] then CursorOf(db, lane)
    else Max(Farthest(enumerate, db, lane, attempts[..|attempts| - 1]), CursorOf(Chain(enumerate, db, attempts), lane))
  }

  lemma {:induction false} ChainTracks(enumerate: Invocation, priorCounts: bool, k: Contract, listing: Listing, origin: PageDb, attempts: seq<Attempt>)
    requires IsPageLane(enumerate, priorCounts) && Tracks(k, listing, origin) && Sound(origin, k.lane)
    requires forall a :: a in attempts ==> a.contract == k && Serves(listing, a.provider)
    ensures var db := Chain(enumerate, origin, attempts);
            && Tracks(k, listing, db) && Sound(db, k.lane)
            && Furthest(k, listing, origin, db, Farthest(enumerate, origin, k.lane, attempts))
  {
    hide Accepts, Lineage, IsPageLane;
    if attempts != [] {
      var n := |attempts| - 1;
      ChainTracks(enumerate, priorCounts, k, listing, origin, attempts[..n]);
      InvocationTracks(enumerate, priorCounts, k, listing, origin, Chain(enumerate, origin, attempts[..n]), attempts[n].resume,
                       attempts[n].provider, Farthest(enumerate, origin, k.lane, attempts[..n]));
    }
  }

  lemma SteadyRun(k: Contract, listing: Listing, db: PageDb, priorCounts: bool, last: nat)
    requires Tracks(k, listing, db) && Sound(db, k.lane) && WellFormed(k, listing, last)
    ensures var u := RunOnce(k, db, FROM_THE_TOP, Steady(listing), priorCounts);
            && u.ending.Finished? && k.lane in u.db.checkpoints && u.db.checkpoints[k.lane].cursor == last
            && u.db.checkpoints[k.lane].meta == MetaOf(k, At(k, listing, last))
            && Stored(u.db.rows) == Stored(db.rows) + ObservedThrough(k, listing, last)
  {
    assert last >= 1;
    hide Walk, Accepts, Pages, RunOnce, Sound, Tracks, WellFormed, RowsThrough;
    SteadyFinishes(k, listing, StartRun(db, k.lane), |db.runs|, 1, last, 0);
    RunIsWalk(k, db, FROM_THE_TOP, Steady(listing), priorCounts);
    assert Lineage(db.rows, k.lane, 0, FRESH);
    hide Lineage;
    RunTracks(k, listing, db, FROM_THE_TOP, Steady(listing), priorCounts);
  }

  /** The two stores hold the same finished checkpoint and the same observations. */
  ghost predicate SameOutcome(lane: Lane, a: PageDb, b: PageDb) {
    && lane in a.checkpoints && lane in b.checkpoints
    && a.checkpoints[lane].cursor == b.checkpoints[lane].cursor && a.checkpoints[lane].meta == b.checkpoints[lane].meta
    && Stored(a.rows) == Stored(b.rows)
  }

  /** Crash/resume equivalence of any page lane.  Against an unchanged listing, any chain of fresh
      runs, interruptions and resumes that reaches SUCCESS leaves the same cursor, seen-hash map,
      page fingerprints and stored observations as one uninterrupted run, provided the lane
      started without a checkpoint or with the listing's own. */
  lemma ChainEquivalence(enumerate: Invocation, priorCounts: bool, k: Contract, listing: Listing, origin: PageDb, attempts: seq<Attempt>,
                         resume: bool, provider: Provider)
    requires IsPageLane(enumerate, priorCounts) && Tracks(k, listing, origin) && Sound(origin, k.lane)
    requires forall a :: a in attempts ==> a.contract == k && Serves(listing, a.provider)
    requires Serves(listing, provider)
    requires enumerate(k, Chain(enumerate, origin, attempts), resume, provider).ending.Finished?
    ensures var w, u := enumerate(k, Chain(enumerate, origin, attempts), resume, provider), enumerate(k, origin, false, Steady(listing));
            u.ending.Finished? && SameOutcome(k.lane, u.db, w.db)
  {
    hide Accepts, Lineage, WellFormed, AcceptedThrough, At, RunsPages, RunOnce;
    var m, before := Farthest(enumerate, origin, k.lane, attempts), Chain(enumerate, origin, attempts);
    ChainTracks(enumerate, priorCounts, k, listing, origin, attempts);
    var w := enumerate(k, before, resume, provider).db;
    InvocationTracks(enumerate, priorCounts, k, listing, origin, before, resume, provider, m);
    var last := w.checkpoints[k.lane].cursor;
    FurthestIsAnnounced(k, listing, Max(m, last), last);
    SteadyRun(k, listing, origin, priorCounts, last);
  }

  /** Success stores the listing.  Under the same conditions, the run that reaches SUCCESS leaves
      every record of the listing, and no other new row, in the store and in the checkpoint. */
  lemma ChainStoresListing(enumerate: Invocation, priorCounts: bool, k: Contract, listing: Listing, origin: PageDb, attempts: seq<Attempt>,
                           resume: bool, provider: Provider)
    requires IsPageLane(enumerate, priorCounts) && Tracks(k, listing, origin) && Sound(origin, k.lane)
    requires forall a :: a in attempts ==> a.contract == k && Serves(listing, a.provider)
    requires Serves(listing, provider)
    requires enumerate(k, Chain(enumerate, origin, attempts), resume, provider).ending.Finished?
    ensures var w := enumerate(k, Chain(enumerate, origin, attempts), resume, provider).db;
            k.lane in w.checkpoints && HoldsListing(k, listing, origin, w, w.checkpoints[k.lane].cursor)
  {
    hide Accepts, Lineage, WellFormed, AcceptedThrough, At, RunsPages, RunOnce;
    var m, before := Farthest(enumerate, origin, k.lane, attempts), Chain(enumerate, origin, attempts);
    ChainTracks(enumerate, priorCounts, k, listing, origin, attempts);
    var w := enumerate(k, before, resume, provider).db;
    InvocationTracks(enumerate, priorCounts, k, listing, origin, before, resume, provider, m);
    var last := w.checkpoints[k.lane].cursor;
    FurthestIsAnnounced(k, listing, Max(m, last), last);
    ListingIsHeld(k, listing, origin, w, last);
  }

  /** The checkpoint is the listing's own after its page `c`. */
  ghost predicate StandsAfter(k: Contract, listing: Listing, db: PageDb, c: nat) {
    c >= 1 && k.lane in db.checkpoints && db.checkpoints[k.lane].cursor == c && db.checkpoints[k.lane].meta == MetaOf(k, At(k, listing, c))
  }

  /** A resume goes on.  From the listing's own checkpoint after page c, with pages left, a run that
      nothing interrupts commits exactly the pages c + 1..last and finishes there. */
  lemma ResumeFinishes(k: Contract, listing: Listing, db: PageDb, priorCounts: bool, c: nat, last: nat)
    requires Tracks(k, listing, db) && Sound(db, k.lane) && WellFormed(k, listing, last) && StandsAfter(k, listing, db, c) && c < last
    ensures var u := RunOnce(k, db, Begin(c + 1, ProgressOf(db.checkpoints[k.lane].meta)), Steady(listing), priorCounts);
            u.ending.Finished? && u.committed == last - c && StandsAfter(k, listing, u.db, last)
  {
    hide Walk, Accepts, Pages, RunOnce, RowsThrough, At, AcceptedThrough, Union, Holds, Tracks, Sound, Complete;
    var start := Begin(c + 1, ProgressOf(db.checkpoints[k.lane].meta));
    SoundIsLineage(k, db);
    ResumePoint(k, listing, db, start);
    assert start.st == At(k, listing, c);
    SteadyFinishes(k, listing, StartRun(db, k.lane), |db.runs|, c + 1, last, 0);
    RunIsWalk(k, db, start, Steady(listing), priorCounts);
    hide WellFormed;
    RunTracks(k, listing, db, start, Steady(listing), priorCounts);
  }

  lemma SoundIsLineage(k: Contract, db: PageDb)
    requires Sound(db, k.lane) && k.lane in db.checkpoints
    ensures Lineage(db.rows, k.lane, db.checkpoints[k.lane].cursor, ProgressOf(db.checkpoints[k.lane].meta))
  {
    hide Pages, Union, Holds;
  }

  /** The process dies at every fetch. */
  function Dying(p: nat): Answer { Answer(FetchDies, Commits) }

  /** A run that starts at a page fetches it; a refused one fetches nothing. */
  lemma FetchesOrRefuses(k: Contract, db: PageDb, start: Start, priorCounts: bool)
    requires start.Begin? ==> start.page >= 1
    ensures start.Begin? ==> RunOnce(k, db, start, Dying, priorCounts).ending.Killed?
    ensures start.Refuse? ==> forall provider :: var w := RunOnce(k, db, start, provider, priorCounts); w.ending.Raised? && w.committed == 0
  {
    hide Accepts;
    RunIsWalk(k, db, start, Dying, priorCounts);
  }

  /** With pages left after page `c` the listing's own checkpoint says so. */
  lemma OwnPages(k: Contract, listing: Listing, db: PageDb, c: nat, last: nat)
    requires WellFormed(k, listing, last) && StandsAfter(k, listing, db, c) && c <= last
    ensures var meta := db.checkpoints[k.lane].meta; meta.pages == last && meta.labels == k.labels && meta.pageSize == k.pageSize
  {
    hide Accepts, Pages, At;
    ExpectedIsConstant(k, listing, c, last);
  }
}
