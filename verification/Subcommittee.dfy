/** Subcommittee reviews: each packet is emitted on its anchor page, the last of its source
    pages, while the pages are committed one by one under a page budget. */
module Subcommittee {
  import opened Prelude
  import opened Store
  import opened CursorLane
  import opened CursorSafety
  import opened CursorListing
  import opened Fetching
  import opened ReviewPackets
  import Paging

  datatype ReviewUniverse = ReviewUniverse(rowTotal: nat, pageCount: nat, packets: Packets)

  predicate AnchorsFit(u: ReviewUniverse) {
    && (forall i | 0 <= i < |u.packets| ::
          var p := u.packets[i].1;
          1 <= p.anchor <= u.pageCount && p.anchor in p.sourcePages && forall j | 0 <= j < |p.sourcePages| :: p.sourcePages[j] <= p.anchor)
    && (u.packets != [] ==> exists i | 0 <= i < |u.packets| :: u.packets[i].1.anchor == u.pageCount)
  }

  /** What fetching and validating the universe guarantees. */
  predicate AcceptsReviews(u: ReviewUniverse) {
    u.pageCount >= 1 && DistinctlyKeyed(u.packets) && AnchorsFit(u)
  }

  /** The packets anchored at a page, in bill-id order. */
  function Anchored(packets: Packets, page: nat): Packets {
    if packets == [] then []
    else
      var before, last := Anchored(packets[..|packets| - 1], page), packets[|packets| - 1];
      if last.1.anchor == page then before + [last] else before
  }

  function ReviewStep(u: ReviewUniverse, pos: nat, committed: nat, go: Go): Option<Accepted<nat, Packet>> {
    if pos >= u.pageCount then None
    else
      var packets := Anchored(u.packets, pos + 1);
      var accepted: Accepted<nat, Packet> := Accepted(0, committed + |packets|, packets);
      Some(accepted)
  }

  function ReviewLane(age: string): Rules<ReviewUniverse, nat, Go, Packet> {
    Rules(Lane("assembly_subcommittee_bill_reviews", age), map["source_contract" := "assembly_age_subcommittee_review_packets_by_bill_id"],
          RefusedInRun, AcceptsReviews, (u: ReviewUniverse) => u.pageCount, (u: ReviewUniverse) => 0, 0, ReviewStep,
          (c: nat, s: nat) => true, (u: ReviewUniverse, s: nat) => true)
  }

  // ---------------------------------------------------------------- the universe

  /** The rows the source answers on the pages it announces. */
  ghost function Announced(source: Source<Review>, size: Positive): seq<seq<Review>> {
    if source(1).Some? then Bodies(source, PageCount(source(1).value.total, size)) else []
  }

  /** Fetches every page, groups the rows and builds the packets.  It fails exactly when the pages
      are inconsistent, a row has another age, or a bill has two bill numbers; the universe it
      returns is one the lane accepts, covers the announced rows, and conserves them. */
  method FetchUniverse(age: int, source: Source<Review>, size: Positive, maxPages: nat) returns (u: Option<ReviewUniverse>)
    ensures var pages := Announced(source, size);
            u.Some? <==>
              && Answers(source, size, maxPages) && source(1).value.total >= 0
              && (forall r :: r in Flatten(pages) ==> r.age == age)
              && (forall a, b :: a in Flatten(pages) && b in Flatten(pages) && a.bill == b.bill ==> a.billNo == b.billNo)
    ensures u.Some? ==> AcceptsReviews(u.value) && IsUniverse(Announced(source, size), u.value.packets)
    ensures u.Some? ==> u.value.rowTotal == source(1).value.total == |Flatten(Announced(source, size))|
                        && u.value.pageCount == |Announced(source, size)|
                        && Total(RowTotals(u.value.packets)) == u.value.rowTotal
                        && Total(DistinctTotals(u.value.packets)) + Surplus(u.value.packets) == u.value.rowTotal
  {
    hide Flatten, IsUniverse, AnchorsFit, DistinctlyKeyed, Paging.Pages, Paging.RowCount, RowTotals, DistinctTotals, Surplus;
    var fetched := FetchList(source, size, maxPages);
    if fetched.None? || source(1).value.total < 0 { return None; }
    var pages := fetched.value;
    var packets := BuildUniverse(age, pages);
    if packets.None? { return None; }
    u := Some(ReviewUniverse(source(1).value.total, |pages|, packets.value));
    UniverseConserves(pages, packets.value);
    UniverseIsKeyed(pages, packets.value);
    LastPageHasRows(source, size, maxPages);
    PacketsAnchor(pages, packets.value);
    AtLeastOnePage(AtLeastZero(source(1).value.total), size);
  }

  lemma UniverseIsKeyed(pages: seq<seq<Review>>, packets: Packets)
    requires IsUniverse(pages, packets)
    ensures DistinctlyKeyed(packets)
  {
  }

  /** A nonempty list has a row on its last page. */
  lemma LastPageHasRows(source: Source<Review>, size: Positive, maxPages: nat)
    requires Answers(source, size, maxPages) && source(1).value.total >= 0
    requires |Flatten(Announced(source, size))| == source(1).value.total
    ensures var pages := Announced(source, size); |pages| >= 1 && (Flatten(pages) != [] ==> pages[|pages| - 1] != [])
  {
    hide Paging.Pages, Paging.RowCount, Flatten;
    Paging.PagesAddUp(source(1).value.total, size);
    AtLeastOnePage(source(1).value.total, size);
    var n := |Announced(source, size)|;
    assert Fits(source(1).value.total, size, n, source(n)) && Announced(source, size)[n - 1] == source(n).value.rows;
  }

  /** The packet of a bill listed on the last page is anchored there. */
  lemma PacketsAnchor(pages: seq<seq<Review>>, packets: Packets)
    requires IsUniverse(pages, packets) && pages != [] && (Flatten(pages) != [] ==> pages[|pages| - 1] != [])
    ensures AnchorsFit(ReviewUniverse(|Flatten(pages)|, |pages|, packets))
  {
    hide Flatten, PagesOf, Pick, SortNats, Collapses;
    forall i | 0 <= i < |packets| ensures Anchoring(packets[i].1, |pages|) { PacketAnchors(pages, packets[i].0, packets[i].1); }
    if packets != [] {
      PickCounts(packets[0].0, Flatten(pages));
      var r := pages[|pages| - 1][0];
      RowIsFlat(pages, |pages| - 1, |pages|, r);
      assert pages[..|pages|] == pages;
      BillListed(Flatten(pages), r);
      var i := KeysFind(packets, r.bill);
      PagesAre(r.bill, pages, |pages|);
      BillListed(pages[|pages| - 1], r);
      assert |pages| in PagesOf(r.bill, pages, |pages|) && Anchoring(packets[i].1, |pages|);
      assert packets[i].1.anchor == |pages|;
    }
  }

  ghost predicate Anchoring(p: Packet, pageCount: nat) {
    1 <= p.anchor <= pageCount && p.anchor in p.sourcePages && forall j :: 0 <= j < |p.sourcePages| ==> p.sourcePages[j] <= p.anchor
  }

  lemma PacketAnchors(pages: seq<seq<Review>>, id: Key, p: Packet)
    requires IsPacket(Pick(id, Flatten(pages)), PagesOf(id, pages, |pages|), p)
    ensures Anchoring(p, |pages|)
  {
    hide Flatten, PagesOf, Pick, SortNats, Collapses;
    PagesAre(id, pages, |pages|);
    SortNatsSorts(PagesOf(id, pages, |pages|));
    SameElements(SortNats(PagesOf(id, pages, |pages|)), PagesOf(id, pages, |pages|));
    assert forall j :: 0 <= j < |p.sourcePages| ==> p.sourcePages[j] in PagesOf(id, pages, |pages|);
  }

  // ---------------------------------------------------------------- anchor-page emission

  /** The packets anchored at page `cursor` or before were emitted, each once, and the counter is
      their number. */
  ghost predicate EmittedByAnchor(u: ReviewUniverse, at: Place<nat, Packet>) {
    && at.cursor <= u.pageCount && at.state == |at.noted| && DistinctlyKeyed(at.noted)
    && forall row :: row in at.noted <==> row in u.packets && row.1.anchor <= at.cursor
  }

  /** Exactly the packets whose every source page is at most `cursor` were emitted, each once, and
      the counter is their number. */
  ghost predicate EmittedThrough(u: ReviewUniverse, at: Place<nat, Packet>) {
    && at.cursor <= u.pageCount && at.state == |at.noted| && DistinctlyKeyed(at.noted)
    && forall row :: row in at.noted <==> row in u.packets && forall page :: page in row.1.sourcePages ==> page <= at.cursor
  }

  /** The anchor is the last source page. */
  lemma AnchorsTell(u: ReviewUniverse, at: Place<nat, Packet>)
    requires AcceptsReviews(u) && EmittedByAnchor(u, at)
    ensures EmittedThrough(u, at)
  {
    forall row | row in u.packets ensures row.1.anchor <= at.cursor <==> forall page :: page in row.1.sourcePages ==> page <= at.cursor {
      var i :| 0 <= i < |u.packets| && u.packets[i] == row;
      assert row.1.anchor in row.1.sourcePages;
    }
  }

  lemma {:induction false} AnchoredAre(packets: Packets, page: nat)
    requires DistinctlyKeyed(packets)
    ensures DistinctlyKeyed(Anchored(packets, page))
    ensures forall row :: row in Anchored(packets, page) <==> row in packets && row.1.anchor == page
  {
    if packets != [] {
      var n := |packets| - 1;
      AnchoredAre(packets[..n], page);
      assert packets == packets[..n] + [packets[n]];
    }
  }

  lemma PageEmits(u: ReviewUniverse, at: Place<nat, Packet>)
    requires AcceptsReviews(u) && EmittedByAnchor(u, at) && at.cursor < u.pageCount
    ensures EmittedByAnchor(u, Next(ReviewLane(""), u, at, Event(Go, true)).value)
  {
    hide Anchored, AnchorsFit;
    var out := Anchored(u.packets, at.cursor + 1);
    AnchoredAre(u.packets, at.cursor + 1);
    forall i, j | 0 <= i < |at.noted| && 0 <= j < |out| ensures at.noted[i].0 != out[j].0 {
      assert at.noted[i] in u.packets && out[j] in u.packets;
      if at.noted[i].0 == out[j].0 { OneRowPerKey(u.packets, at.noted[i], out[j]); }
    }
  }

  /** Along any fresh run and its resumes, under any page budget, the emission is exact at every
      cursor; the counter equals the packet count exactly at completion, or trivially when the
      universe has no packet. */
  lemma EmissionAtEveryCursor(age: string, u: ReviewUniverse, history: seq<Event<Go>>)
    requires AcceptsReviews(u) && Replay(ReviewLane(age), u, history).Some?
    ensures var at := Replay(ReviewLane(age), u, history).value;
            && EmittedThrough(u, at)
            && (at.state == |u.packets| <==> at.cursor == u.pageCount || u.packets == [])
  {
    hide EmittedThrough, EmittedByAnchor, AcceptsReviews;
    AnchorsAtEveryCursor(age, u, history);
    AnchorsTell(u, Replay(ReviewLane(age), u, history).value);
    CountsAgree(u, Replay(ReviewLane(age), u, history).value);
  }

  lemma {:induction false} AnchorsAtEveryCursor(age: string, u: ReviewUniverse, history: seq<Event<Go>>)
    requires AcceptsReviews(u) && Replay(ReviewLane(age), u, history).Some?
    ensures EmittedByAnchor(u, Replay(ReviewLane(age), u, history).value)
  {
    hide EmittedByAnchor, Anchored, AcceptsReviews;
    if history == [] {
      NothingEmitted(u);
    } else {
      var n := |history| - 1;
      AnchorsAtEveryCursor(age, u, history[..n]);
      PageEmits(u, Replay(ReviewLane(age), u, history[..n]).value);
    }
  }

  lemma NothingEmitted(u: ReviewUniverse)
    requires AcceptsReviews(u)
    ensures EmittedByAnchor(u, Place(0, 0, []))
  {
    assert forall row :: row in u.packets ==> row.1.anchor >= 1;
  }

  lemma CountsAgree(u: ReviewUniverse, at: Place<nat, Packet>)
    requires AcceptsReviews(u) && EmittedByAnchor(u, at)
    ensures at.state == |u.packets| <==> at.cursor == u.pageCount || u.packets == []
  {
    forall row | row in u.packets ensures row.1.anchor <= u.pageCount {}
    KeyedBags(at.noted);
    KeyedBags(u.packets);
    if at.cursor == u.pageCount || u.packets == [] {
      SameSetSameBag(at.noted, u.packets);
      SameElements(at.noted, u.packets);
    } else {
      var i :| 0 <= i < |u.packets| && u.packets[i].1.anchor == u.pageCount;
      assert u.packets[i] !in at.noted;
      SmallerWithout(at.noted, u.packets, u.packets[i]);
    }
  }

  /** After any sequence of runs, with any budgets, failures and moving universes, the emission is
      exact at the stored cursor and every emitted packet is stored. */
  lemma StoredEmissionIsExact(age: string, db: CursorDb<ReviewUniverse, nat, Packet>, attempts: seq<Attempt<ReviewUniverse, Go>>)
    returns (noted: Packets)
    requires ReviewLane(age).lane !in db.checkpoints
    ensures var after, lane := Chain(ReviewLane(age), db, attempts), ReviewLane(age).lane;
            lane in after.checkpoints ==>
              var ck := after.checkpoints[lane];
              && EmittedThrough(ck.meta.universe, Place(ck.cursor, ck.meta.state, noted)) && Recorded(after.rows, lane, noted)
              && (ck.meta.state == |ck.meta.universe.packets| <==> ck.cursor == ck.meta.universe.pageCount || ck.meta.universe.packets == [])
  {
    hide Enumerate, Replay, Sourced, EmittedThrough, AcceptsReviews;
    var history := ChainIsDescribed(ReviewLane(age), db, attempts, (u, p: nat, go) => true);
    var after, lane := Chain(ReviewLane(age), db, attempts), ReviewLane(age).lane;
    noted := [];
    if lane in after.checkpoints {
      var ck := after.checkpoints[lane];
      EmissionAtEveryCursor(age, ck.meta.universe, history);
      noted := Replay(ReviewLane(age), ck.meta.universe, history).value.noted;
    }
  }

  /** Crash/resume equivalence: any chain that reaches the last page leaves the counter and the
      stored packets of one uninterrupted run. */
  lemma CrashResume(age: string, u: ReviewUniverse, db: CursorDb<ReviewUniverse, nat, Packet>, attempts: seq<Attempt<ReviewUniverse, Go>>)
    requires u.pageCount > 0 && ReviewLane(age).lane !in db.checkpoints
    requires forall a :: a in attempts ==> Serves(u, (p: nat) => Go, a.world)
    requires EndsAt(ReviewLane(age), u, Chain(ReviewLane(age), db, attempts))
    ensures var v := Enumerate(ReviewLane(age), db, false, None, Smooth(u, (p: nat) => Go));
            v.ending.Complete? && SameOutcome(ReviewLane(age).lane, v.db, Chain(ReviewLane(age), db, attempts))
  {
    hide Enumerate, Chain, AcceptsReviews, Anchored;
    SingleCommitsRepeat(ReviewLane(age), u, (p: nat) => Go);
    CrashResumeEquivalence(ReviewLane(age), u, (p: nat) => Go, db, attempts);
  }

  lemma KeyedBags(rows: Packets)
    requires DistinctlyKeyed(rows)
    ensures NoRepeats(rows)
  {
  }

  lemma SmallerWithout<T>(a: seq<T>, b: seq<T>, x: T)
    requires NoRepeats(a) && NoRepeats(b) && (forall y :: y in a ==> y in b) && x in b && x !in a
    ensures |a| < |b|
  {
    CountOnce(a);
    CountOnce(b);
    assert multiset(a) <= multiset(b) by {
      forall y | y in multiset(a) ensures multiset(a)[y] <= multiset(b)[y] { assert y in a; }
    }
    assert x in multiset(b) && x !in multiset(a);
    assert |multiset(b)| == |multiset(a)| + |multiset(b) - multiset(a)|;
    assert x in multiset(b) - multiset(a);
    assert |multiset(a)| == |a| && |multiset(b)| == |b|;
  }

  /** Without a checkpoint a resume commits nothing. */
  lemma ResumeWithoutCheckpoint(age: string, db: CursorDb<ReviewUniverse, nat, Packet>, budget: Option<nat>, world: World<ReviewUniverse, Go>)
    requires ReviewLane(age).lane !in db.checkpoints
    ensures var w := Enumerate(ReviewLane(age), db, true, budget, world);
            w.commits == 0 && (w.ending == Raised || w.ending == Killed) && w.db.rows == db.rows && w.db.checkpoints == db.checkpoints
  {
    hide Enumerate;
    WithoutCheckpoint(ReviewLane(age), db, budget, world);
  }

  /** Nothing stops a fresh run over an accepted universe. */
  lemma {:induction false} PagesPass(age: string, u: ReviewUniverse, c: nat)
    requires c <= u.pageCount
    ensures Course(ReviewLane(age), u, (p: nat) => Go, c).Some?
  {
    hide Anchored;
    if c > 0 {
      PagesPass(age, u, c - 1);
      CourseCursor(ReviewLane(age), u, (p: nat) => Go, c - 1);
    }
  }

  /** An uninterrupted run makes one commit for each page, and none for the universe. */
  lemma UninterruptedCommits(age: string, u: ReviewUniverse, db: CursorDb<ReviewUniverse, nat, Packet>)
    requires AcceptsReviews(u)
    ensures Enumerate(ReviewLane(age), db, false, None, Smooth(u, (p: nat) => Go)).commits == u.pageCount
  {
    hide Enumerate, Course, CommitsThrough, Anchored, AnchorsFit, DistinctlyKeyed;
    PagesPass(age, u, u.pageCount);
    RunSails(ReviewLane(age), u, (p: nat) => Go, db, false, 0, None);
    SingleCommitsCount(ReviewLane(age), u, (p: nat) => Go, u.pageCount);
    NoCommitsYet(ReviewLane(age), u, (p: nat) => Go);
  }

  // ---------------------------------------------------------------- the order of emission

  /** `a` is anchored at an earlier page than `b`, or at the same one with a smaller place in the universe. */
  ghost predicate EmittedBefore(packets: Packets, a: (Key, Packet), b: (Key, Packet)) {
    a.1.anchor < b.1.anchor
    || (a.1.anchor == b.1.anchor && exists i, j :: 0 <= i < j < |packets| && packets[i] == a && packets[j] == b)
  }

  ghost predicate InEmissionOrder(packets: Packets, noted: Packets) {
    forall i, j :: 0 <= i < j < |noted| ==> EmittedBefore(packets, noted[i], noted[j])
  }

  lemma {:induction false} AnchoredInOrder(packets: Packets, page: nat)
    ensures InEmissionOrder(packets, Anchored(packets, page))
    ensures forall row :: row in Anchored(packets, page) ==> row in packets && row.1.anchor == page
  {
    hide EmittedBefore;
    if packets != [] {
      var n := |packets| - 1;
      AnchoredInOrder(packets[..n], page);
      var before, out := Anchored(packets[..n], page), Anchored(packets, page);
      forall i, j | 0 <= i < j < |out| ensures EmittedBefore(packets, out[i], out[j]) {
        assert out[i] == before[i];
        if j < |before| { OrderGrows(packets, before[i], before[j]); } else { LastComesLast(packets, before[i]); }
      }
    }
  }

  lemma OrderGrows(packets: Packets, a: (Key, Packet), b: (Key, Packet))
    requires packets != [] && EmittedBefore(packets[..|packets| - 1], a, b)
    ensures EmittedBefore(packets, a, b)
  {
    var front := packets[..|packets| - 1];
    if a.1.anchor == b.1.anchor {
      var i, j :| 0 <= i < j < |front| && front[i] == a && front[j] == b;
      assert packets[i] == a && packets[j] == b;
    }
  }

  lemma LastComesLast(packets: Packets, a: (Key, Packet))
    requires packets != [] && a in packets[..|packets| - 1] && a.1.anchor == packets[|packets| - 1].1.anchor
    ensures EmittedBefore(packets, a, packets[|packets| - 1])
  {
    var i :| 0 <= i < |packets| - 1 && packets[..|packets| - 1][i] == a;
    assert packets[i] == a;
  }

  /** At every cursor the packets were emitted page by page, and on a page in universe order. */
  lemma {:induction false} EmissionIsOrdered(age: string, u: ReviewUniverse, history: seq<Event<Go>>)
    requires Replay(ReviewLane(age), u, history).Some?
    ensures var at := Replay(ReviewLane(age), u, history).value;
            InEmissionOrder(u.packets, at.noted) && forall i :: 0 <= i < |at.noted| ==> at.noted[i].1.anchor <= at.cursor
  {
    hide Anchored, EmittedBefore;
    if history != [] {
      var n := |history| - 1;
      EmissionIsOrdered(age, u, history[..n]);
      AnchoredInOrder(u.packets, Replay(ReviewLane(age), u, history[..n]).value.cursor + 1);
      PageComesAfter(u, Replay(ReviewLane(age), u, history[..n]).value);
    }
  }

  lemma PageComesAfter(u: ReviewUniverse, at: Place<nat, Packet>)
    requires InEmissionOrder(u.packets, at.noted) && forall i :: 0 <= i < |at.noted| ==> at.noted[i].1.anchor <= at.cursor
    requires InEmissionOrder(u.packets, Anchored(u.packets, at.cursor + 1))
    requires forall row :: row in Anchored(u.packets, at.cursor + 1) ==> row.1.anchor == at.cursor + 1
    ensures InEmissionOrder(u.packets, at.noted + Anchored(u.packets, at.cursor + 1))
  {
    hide Anchored;
    var out, n := Anchored(u.packets, at.cursor + 1), |at.noted|;
    forall i, j | 0 <= i < j < n + |out| ensures EmittedBefore(u.packets, (at.noted + out)[i], (at.noted + out)[j]) {
      assert i >= n ==> EmittedBefore(u.packets, out[i - n], out[j - n]);
      assert j >= n ==> out[j - n] in out;
    }
  }
}
