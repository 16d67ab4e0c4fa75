/** Exact-count staging of one member's bills: counts are only given when every page of the term
    was fetched consistently, no bill repeats, and the rows number exactly the announced total. */
module Stager {
  import opened Prelude
  import opened Fetching
  import Paging

  datatype Role = Lead | CoSponsor

  datatype Bill = Bill(id: Key, result: Key, codesComplete: bool, role: Option<Role>, details: string)

  datatype BillPage = BillPage(index: Option<int>, total: Option<int>, size: Option<Positive>, bills: seq<Bill>)

  type BillSource = nat -> Option<BillPage>

  datatype CoverageError = TotalMissing | PagesExceedMax | FetchFailed(page: nat) | IndexMismatch(page: nat) | TotalChanged(page: nat)
                         | DuplicatePage | DuplicateBill(id: Key) | CountMismatch

  /** Pages 2..n carry their own index and the first page's total. */
  ghost predicate Consistent(source: BillSource, total: int, n: nat) {
    forall p :: 2 <= p <= n ==> source(p).Some? && source(p).value.index == Some(p) && source(p).value.total == Some(total)
  }

  function SizeOf(first: BillPage, connectorSize: Positive): Positive {
    if first.size.Some? then first.size.value else connectorSize
  }

  /** The last page fetched in a row from page `p` on, up to page `n`. */
  ghost function LastFetched(source: BillSource, n: nat, p: nat): nat
    requires p >= 1
    decreases n + 1 - p
  {
    if p > n || source(p).None? then p - 1 else LastFetched(source, n, p + 1)
  }

  /** The pages fetched: only the first when the total is missing or too large, otherwise all of
      them up to the first that fails. */
  ghost function Fetched(source: BillSource, connectorSize: Positive, maxPages: nat): seq<seq<Bill>> {
    if source(1).None? then []
    else
      var first := source(1).value;
      BillsThrough(source, if first.total.None? || PageCount(first.total.value, SizeOf(first, connectorSize)) > maxPages then 1
                           else LastFetched(source, PageCount(first.total.value, SizeOf(first, connectorSize)), 1))
  }

  ghost function BillsThrough(source: BillSource, k: nat): seq<seq<Bill>> {
    seq(k, i requires 0 <= i < k => if source(i + 1).Some? then source(i + 1).value.bills else [])
  }

  /** The bills of the fetched pages, the coverage errors so far, and the number of expected pages. */
  method FetchTerm(source: BillSource, connectorSize: Positive, maxPages: nat)
    returns (pages: seq<seq<Bill>>, errors: seq<CoverageError>, expected: Option<nat>)
    requires source(1).Some?
    ensures pages == Fetched(source, connectorSize, maxPages)
    ensures expected == if source(1).value.total.None? then None
                        else Some(PageCount(source(1).value.total.value, if source(1).value.size.Some? then source(1).value.size.value else connectorSize))
    ensures errors == [] && expected == Some(|pages|) <==>
              expected.Some? && expected.value <= maxPages && Consistent(source, source(1).value.total.value, expected.value)
    ensures errors == [] ==> expected == Some(|pages|)
  {
    hide Paging.Pages;
    var first := source(1).value;
    pages, errors, expected := [first.bills], [], None;
    assert pages == BillsThrough(source, 1);
    if first.total.None? { return pages, [TotalMissing], None; }
    var total := first.total.value;
    var n := PageCount(total, SizeOf(first, connectorSize));
    AtLeastOnePage(AtLeastZero(total), SizeOf(first, connectorSize));
    expected := Some(n);
    if n > maxPages { return pages, [PagesExceedMax], expected; }
    for p := 2 to n + 1
      invariant pages == BillsThrough(source, p - 1) && LastFetched(source, n, 1) == LastFetched(source, n, p)
      invariant errors == [] <==> Consistent(source, total, p - 1)
    {
      var answer := source(p);
      if answer.None? { return pages, errors + [FetchFailed(p)], expected; }
      if answer.value.index != Some(p) { errors := errors + [IndexMismatch(p)]; }
      if answer.value.total != Some(total) { errors := errors + [TotalChanged(p)]; }
      pages := pages + [answer.value.bills];
      assert pages == BillsThrough(source, p);
    }
  }

  // ---------------------------------------------------------------- collecting bills

  ghost predicate DistinctBills(bills: seq<Bill>) { forall i, j :: 0 <= i < j < |bills| ==> bills[i].id != bills[j].id }

  /** Two fetched rows share a bill id and differ. */
  ghost predicate Conflicting(bills: seq<Bill>) {
    exists i, j :: 0 <= i < j < |bills| && bills[i].id == bills[j].id && bills[i] != bills[j]
  }

  /** `unique` keeps the first row of every id, and `byId` finds it. */
  ghost predicate Uniques(bills: seq<Bill>, unique: seq<Bill>, byId: map<Key, Bill>) {
    && DistinctBills(unique) && (forall b :: b in unique <==> b in bills)
    && (forall b :: b in bills ==> b.id in byId && byId[b.id] == b)
    && (forall id :: id in byId ==> byId[id] in bills && byId[id].id == id)
    && (DistinctBills(bills) ==> unique == bills) && |unique| <= |bills|
  }

  function IdsOf(bills: seq<Bill>): seq<Key> { seq(|bills|, i requires 0 <= i < |bills| => bills[i].id) }

  /** Collects the rows in order; it raises exactly when two rows conflict, and reports an error
      exactly when some bill repeats. */
  method Collect(pages: seq<seq<Bill>>) returns (unique: Option<seq<Bill>>, errors: seq<CoverageError>)
    ensures unique.None? <==> Conflicting(Flatten(pages))
    ensures unique.Some? ==> DistinctBills(unique.value) && (forall b :: b in unique.value <==> b in Flatten(pages))
                             && (errors == [] <==> DistinctBills(Flatten(pages))) && (errors == [] ==> unique.value == Flatten(pages))
                             && |unique.value| <= |Flatten(pages)|
  {
    hide Flatten, Uniques, Conflicting, DistinctBills;
    var kept: seq<Bill>, byId: map<Key, Bill>, signatures: set<seq<Key>> := [], map[], {};
    errors := [];
    assert pages[..0] == [];
    NothingCollected();
    for n := 0 to |pages|
      invariant Uniques(Flatten(pages[..n]), kept, byId) && (errors == [] <==> DistinctBills(Flatten(pages[..n])))
      invariant forall signature :: signature in signatures ==> signature == [] || AllSeen(signature, Flatten(pages[..n]))
    {
      FlattenOne(pages, n);
      ghost var before := Flatten(pages[..n]);
      var signature := IdsOf(pages[n]);
      if signature != [] && signature in signatures {
        RepeatedPage(before, pages[n], []);
        errors := errors + [DuplicatePage];
      }
      ghost var repeated := signature != [] && signature in signatures;
      signatures := signatures + {signature};
      assert before + pages[n][..0] == before;
      for i := 0 to |pages[n]|
        invariant Uniques(before + pages[n][..i], kept, byId)
        invariant errors == [] <==> !repeated && DistinctBills(before + pages[n][..i])
      {
        var b := pages[n][i];
        assert before + pages[n][..i + 1] == before + pages[n][..i] + [b];
        OneMoreBill(before + pages[n][..i], kept, byId, b);
        if b.id in byId {
          if byId[b.id] != b {
            ConflictStays(pages, n, before + pages[n][..i], b, i);
            return None, errors;
          }
          errors := errors + [DuplicateBill(b.id)];
        } else {
          kept, byId := kept + [b], byId[b.id := b];
        }
      }
      assert pages[n][..|pages[n]|] == pages[n];
      SignatureSeen(before, pages[n]);
      forall s | s in signatures ensures s == [] || AllSeen(s, before + pages[n]) { if s != signature { SeenGrows(s, before, pages[n]); } }
      if repeated { RepeatedPage(before, pages[n], []); }
    }
    assert pages[..|pages|] == pages;
    UniquesRead(Flatten(pages), kept, byId);
    unique := Some(kept);
  }

  ghost predicate AllSeen(ids: seq<Key>, bills: seq<Bill>) {
    forall i :: 0 <= i < |ids| ==> SeenIn(ids[i], bills)
  }

  ghost predicate SeenIn(id: Key, bills: seq<Bill>) { exists j :: 0 <= j < |bills| && bills[j].id == id }

  lemma NothingCollected()
    ensures Uniques(Flatten([]), [], map[]) && DistinctBills(Flatten([]))
  {
  }

  lemma SeenGrows(ids: seq<Key>, before: seq<Bill>, page: seq<Bill>)
    ensures ids == [] || AllSeen(ids, before) ==> ids == [] || AllSeen(ids, before + page)
  {
    forall id | SeenIn(id, before) ensures SeenIn(id, before + page) {
      var j :| 0 <= j < |before| && before[j].id == id;
      assert (before + page)[j].id == id;
    }
  }

  lemma SignatureSeen(before: seq<Bill>, page: seq<Bill>)
    ensures AllSeen(IdsOf(page), before + page)
  {
    forall i | 0 <= i < |page| ensures SeenIn(IdsOf(page)[i], before + page) {
      assert (before + page)[|before| + i] == page[i];
    }
  }

  /** A repeated nonempty page repeats a bill. */
  lemma RepeatedPage(before: seq<Bill>, page: seq<Bill>, rest: seq<Bill>)
    ensures page != [] && AllSeen(IdsOf(page), before) ==> !DistinctBills(before + page)
  {
    if page != [] && AllSeen(IdsOf(page), before) {
      assert IdsOf(page)[0] == page[0].id && SeenIn(IdsOf(page)[0], before);
      var j :| 0 <= j < |before| && before[j].id == page[0].id;
      assert (before + page)[j] == before[j] && (before + page)[|before|] == page[0];
    }
  }

  lemma OneMoreBill(bills: seq<Bill>, kept: seq<Bill>, byId: map<Key, Bill>, b: Bill)
    requires Uniques(bills, kept, byId)
    ensures b.id in byId && byId[b.id] == b ==> Uniques(bills + [b], kept, byId) && !DistinctBills(bills + [b])
    ensures b.id !in byId ==> Uniques(bills + [b], kept + [b], byId[b.id := b]) && (DistinctBills(bills) <==> DistinctBills(bills + [b]))
    ensures b.id in byId && byId[b.id] != b ==> Conflicting(bills + [b])
  {
    hide Uniques, DistinctBills, Conflicting;
    if b.id in byId { KnownBill(bills, kept, byId, b); } else { NewBill(bills, kept, byId, b); }
  }

  lemma KnownBill(bills: seq<Bill>, kept: seq<Bill>, byId: map<Key, Bill>, b: Bill)
    requires Uniques(bills, kept, byId) && b.id in byId
    ensures if byId[b.id] == b then Uniques(bills + [b], kept, byId) && !DistinctBills(bills + [b]) else Conflicting(bills + [b])
  {
    var more := bills + [b];
    var i :| 0 <= i < |bills| && bills[i] == byId[b.id];
    assert more[i].id == more[|bills|].id && more[i] == byId[b.id] && more[|bills|] == b;
  }

  lemma NewBill(bills: seq<Bill>, kept: seq<Bill>, byId: map<Key, Bill>, b: Bill)
    requires Uniques(bills, kept, byId) && b.id !in byId
    ensures Uniques(bills + [b], kept + [b], byId[b.id := b]) && (DistinctBills(bills) <==> DistinctBills(bills + [b]))
  {
    BillJoins(bills, b);
    BillJoins(kept, b);
  }

  lemma BillJoins(bills: seq<Bill>, b: Bill)
    requires forall x :: x in bills ==> x.id != b.id
    ensures DistinctBills(bills) <==> DistinctBills(bills + [b])
  {
    var more := bills + [b];
    assert more[|bills|] == b && forall i :: 0 <= i < |bills| ==> more[i] == bills[i] && bills[i] in bills;
  }

  lemma ConflictStays(pages: seq<seq<Bill>>, n: nat, before: seq<Bill>, b: Bill, i: nat)
    requires n < |pages| && i < |pages[n]| && before == Flatten(pages[..n]) + pages[n][..i] && b == pages[n][i] && Conflicting(before + [b])
    ensures Conflicting(Flatten(pages))
  {
    hide Flatten;
    FlattenOne(pages, n);
    FlattenPrefix(pages, n + 1, |pages|);
    assert pages[..|pages|] == pages;
    var all := Flatten(pages);
    assert before + [b] == Flatten(pages[..n]) + pages[n][..i + 1];
    assert before + [b] <= Flatten(pages[..n + 1]) <= all;
    var x, y :| 0 <= x < y < |before + [b]| && (before + [b])[x].id == (before + [b])[y].id && (before + [b])[x] != (before + [b])[y];
    assert all[x] == (before + [b])[x] && all[y] == (before + [b])[y];
  }

  lemma {:induction false} FlattenPrefix(pages: seq<seq<Bill>>, n: nat, m: nat)
    requires n <= m <= |pages|
    ensures Flatten(pages[..n]) <= Flatten(pages[..m])
  {
    if n < m {
      FlattenPrefix(pages, n, m - 1);
      FlattenOne(pages, m - 1);
    }
  }

  lemma UniquesRead(bills: seq<Bill>, kept: seq<Bill>, byId: map<Key, Bill>)
    requires Uniques(bills, kept, byId)
    ensures DistinctBills(kept) && (forall b :: b in kept <==> b in bills) && |kept| <= |bills|
    ensures !Conflicting(bills) && (DistinctBills(bills) ==> kept == bills)
  {
    forall i, j | 0 <= i < j < |bills| && bills[i].id == bills[j].id ensures bills[i] == bills[j] {
      assert bills[i] in bills && bills[j] in bills;
    }
  }

  // ---------------------------------------------------------------- the summary

  datatype Summary = Summary(coverageComplete: bool, rolesComplete: bool, uniqueBills: nat, matched: seq<Bill>,
                             lead: Option<nat>, coSponsored: Option<nat>, results: map<Key, nat>)

  function Matched(bills: seq<Bill>): seq<Bill> {
    if bills == [] then []
    else
      var before, b := Matched(bills[..|bills| - 1]), bills[|bills| - 1];
      if b.role.Some? then before + [b] else before
  }

  function RoleCount(matched: seq<Bill>, role: Role): nat {
    if matched == [] then 0 else RoleCount(matched[..|matched| - 1], role) + (if matched[|matched| - 1].role == Some(role) then 1 else 0)
  }

  function Results(matched: seq<Bill>): seq<Key> { seq(|matched|, i requires 0 <= i < |matched| => matched[i].result) }

  /** The bills with a role, all of them, in the order they were fetched. */
  ghost predicate IsMatched(bills: seq<Bill>, matched: seq<Bill>) {
    exists at: seq<nat> :: MatchedAt(bills, matched, at)
  }

  ghost predicate MatchedAt(bills: seq<Bill>, matched: seq<Bill>, at: seq<nat>) {
    && |at| == |matched| && (forall k, l :: 0 <= k < l < |at| ==> at[k] < at[l])
    && (forall k :: 0 <= k < |at| ==> at[k] < |bills| && matched[k] == bills[at[k]])
    && (forall i: nat :: i in at <==> i < |bills| && bills[i].role.Some?)
  }

  lemma MatchedIs(bills: seq<Bill>)
    ensures IsMatched(bills, Matched(bills))
  {
    var at := MatchedPositions(bills);
    assert MatchedAt(bills, Matched(bills), at);
  }

  lemma MatchedStep(bills: seq<Bill>)
    requires bills != []
    ensures var n := |bills| - 1; Matched(bills) == Matched(bills[..n]) + if bills[n].role.Some? then [bills[n]] else []
  {
  }

  lemma {:induction false} MatchedPositions(bills: seq<Bill>) returns (at: seq<nat>)
    ensures MatchedAt(bills, Matched(bills), at)
  {
    hide MatchedAt, Matched;
    if bills == [] {
      at := [];
      assert MatchedAt(bills, Matched(bills), at) by { NothingMatched(); }
    } else {
      var n := |bills| - 1;
      at := MatchedPositions(bills[..n]);
      MatchedStep(bills);
      OneMorePosition(bills, n, Matched(bills[..n]), at);
      at := if bills[n].role.Some? then at + [n] else at;
      if bills[n].role.None? { assert Matched(bills) == Matched(bills[..n]); }
    }
  }

  lemma NothingMatched()
    ensures MatchedAt([], Matched([]), [])
  {
  }

  lemma OneMorePosition(bills: seq<Bill>, n: nat, matched: seq<Bill>, at: seq<nat>)
    requires n == |bills| - 1 && MatchedAt(bills[..n], matched, at)
    ensures bills[n].role.Some? ==> MatchedAt(bills, matched + [bills[n]], at + [n])
    ensures bills[n].role.None? ==> MatchedAt(bills, matched, at)
  {
    assert forall i: nat :: i in at + [n] <==> i in at || i == n;
  }

  lemma {:induction false} RoleCountsWhere(bills: seq<Bill>, role: Role)
    ensures RoleCount(Matched(bills), role) == |Where(bills, (b: Bill) => b.role == Some(role))|
  {
    hide Matched;
    WhereStep(bills, (b: Bill) => b.role == Some(role));
    if bills == [] {
      NothingMatched();
    } else {
      var n := |bills| - 1;
      RoleCountsWhere(bills[..n], role);
      MatchedStep(bills);
      var more := Matched(bills);
      if bills[n].role.Some? { assert more[..|more| - 1] == Matched(bills[..n]); } else { assert more == Matched(bills[..n]); }
    }
  }

  lemma RoleCountIs(bills: seq<Bill>, role: Role)
    ensures RoleCount(Matched(bills), role) == |set i | 0 <= i < |bills| && bills[i].role == Some(role)|
  {
    hide Matched, RoleCount;
    RoleCountsWhere(bills, role);
    assert Where(bills, (b: Bill) => b.role == Some(role)) == set i | 0 <= i < |bills| && bills[i].role == Some(role);
  }

  /** The tally of the results of the bills that have a role. */
  ghost predicate TabulatesResults(bills: seq<Bill>, results: map<Key, nat>) {
    && (forall name :: name in results <==> exists i :: 0 <= i < |bills| && bills[i].role.Some? && bills[i].result == name)
    && (forall name :: name in results ==> results[name] == |set i | 0 <= i < |bills| && bills[i].role.Some? && bills[i].result == name|)
  }

  ghost function Resulted(name: Key): Bill -> bool { (b: Bill) => b.role.Some? && b.result == name }

  lemma {:induction false} ResultsWhere(bills: seq<Bill>, name: Key)
    ensures multiset(Results(Matched(bills)))[name] == |Where(bills, Resulted(name))|
  {
    hide Matched;
    WhereStep(bills, Resulted(name));
    if bills == [] {
      NothingMatched();
    } else {
      var n := |bills| - 1;
      ResultsWhere(bills[..n], name);
      MatchedStep(bills);
      if bills[n].role.Some? { assert Results(Matched(bills)) == Results(Matched(bills[..n])) + [bills[n].result]; }
      else { assert Matched(bills) == Matched(bills[..n]); }
    }
  }

  lemma ResultCountIs(bills: seq<Bill>, name: Key)
    ensures multiset(Results(Matched(bills)))[name] == |set i | 0 <= i < |bills| && bills[i].role.Some? && bills[i].result == name|
    ensures name in Results(Matched(bills)) <==> exists i :: 0 <= i < |bills| && bills[i].role.Some? && bills[i].result == name
  {
    hide Matched, Results;
    ResultsWhere(bills, name);
    var found := Where(bills, Resulted(name));
    assert found == set i | 0 <= i < |bills| && bills[i].role.Some? && bills[i].result == name;
    assert name in multiset(Results(Matched(bills))) <==> |found| > 0;
    if |found| > 0 { var i :| i in found; } else { assert found == {}; }
  }

  lemma ResultsAre(bills: seq<Bill>, results: map<Key, nat>)
    requires Tabulates(Results(Matched(bills)), results)
    ensures TabulatesResults(bills, results)
  {
    hide Matched, Results;
    forall name
      ensures multiset(Results(Matched(bills)))[name] == |set i | 0 <= i < |bills| && bills[i].role.Some? && bills[i].result == name|
      ensures name in Results(Matched(bills)) <==> exists i :: 0 <= i < |bills| && bills[i].role.Some? && bills[i].result == name
    {
      ResultCountIs(bills, name);
    }
  }

  /** What a complete coverage promises: one total, every page of it, distinct bills, exact rows. */
  ghost predicate Covers(source: BillSource, connectorSize: Positive, maxPages: nat) {
    && source(1).Some? && source(1).value.total.Some?
    && var total, n := source(1).value.total.value, PageCount(source(1).value.total.value, SizeOf(source(1).value, connectorSize));
       && n <= maxPages && Consistent(source, total, n)
       && DistinctBills(Flatten(BillsThrough(source, n))) && |Flatten(BillsThrough(source, n))| == total
  }

  /** Stages the member's bills.  It raises exactly when the first page fails or fetched rows
      conflict; coverage is complete exactly when all pages were fetched under one total with
      pairwise distinct bills numbering that total; and role counts are given exactly when
      coverage and role codes are complete. */
  method Stage(source: BillSource, connectorSize: Positive, maxPages: nat) returns (r: Option<Summary>)
    ensures r.None? <==> source(1).None? || Conflicting(Flatten(Fetched(source, connectorSize, maxPages)))
    ensures r.Some? ==>
              && var bills := Flatten(Fetched(source, connectorSize, maxPages));
              && (r.value.coverageComplete <==> Covers(source, connectorSize, maxPages))
              && (r.value.coverageComplete ==> IsMatched(bills, r.value.matched) && r.value.uniqueBills == |bills|)
              && (r.value.rolesComplete <==> r.value.coverageComplete && forall b :: b in bills ==> b.codesComplete)
              && (r.value.rolesComplete ==> r.value.lead == Some(|set i | 0 <= i < |bills| && bills[i].role == Some(Lead)|)
                                            && r.value.coSponsored == Some(|set i | 0 <= i < |bills| && bills[i].role == Some(CoSponsor)|)
                                            && TabulatesResults(bills, r.value.results))
              && (!r.value.rolesComplete ==> r.value.lead.None? && r.value.coSponsored.None? && r.value.results == map[])
  {
    hide Flatten, Paging.Pages, Consistent, Conflicting, DistinctBills, TabulatesResults, IsMatched;
    if source(1).None? { return None; }
    var fetched, errors, expected := FetchTerm(source, connectorSize, maxPages);
    var unique, more := Collect(fetched);
    if unique.None? { return None; }
    errors := errors + more;
    var total := source(1).value.total;
    if total.Some? && |unique.value| != total.value { errors := errors + [CountMismatch]; }
    var complete := expected == Some(|fetched|) && errors == [];
    FetchedWhole(source, connectorSize, maxPages);
    var matched := MatchedOf(unique.value);
    assert IsMatched(unique.value, matched) by { MatchedIs(unique.value); }
    var roles := complete && forall i | 0 <= i < |unique.value| :: unique.value[i].codesComplete;
    if roles {
      var lead, co, results := CountRoles(matched);
      RoleCountIs(unique.value, Lead);
      RoleCountIs(unique.value, CoSponsor);
      assert TabulatesResults(unique.value, results) by { ResultsAre(unique.value, results); }
      r := Some(Summary(complete, true, |unique.value|, matched, Some(lead), Some(co), results));
    } else {
      r := Some(Summary(complete, false, |unique.value|, matched, None, None, map[]));
    }
  }

  /** A consistent term is fetched to its last page. */
  lemma FetchedWhole(source: BillSource, connectorSize: Positive, maxPages: nat)
    requires source(1).Some?
    ensures source(1).value.total.Some? ==>
              var n := PageCount(source(1).value.total.value, SizeOf(source(1).value, connectorSize));
              n <= maxPages && Consistent(source, source(1).value.total.value, n) ==>
                Fetched(source, connectorSize, maxPages) == BillsThrough(source, n)
  {
    hide Paging.Pages, BillsThrough;
    if source(1).value.total.Some? {
      var total, n := source(1).value.total.value, PageCount(source(1).value.total.value, SizeOf(source(1).value, connectorSize));
      AtLeastOnePage(AtLeastZero(total), SizeOf(source(1).value, connectorSize));
      if Consistent(source, total, n) { AllFetched(source, total, n, 1); }
    }
  }

  lemma {:induction false} AllFetched(source: BillSource, total: int, n: nat, p: nat)
    requires source(1).Some? && Consistent(source, total, n) && 1 <= p <= n + 1
    ensures LastFetched(source, n, p) == n
    decreases n + 1 - p
  {
    if p <= n { AllFetched(source, total, n, p + 1); }
  }

  method MatchedOf(bills: seq<Bill>) returns (matched: seq<Bill>)
    ensures matched == Matched(bills)
  {
    matched := [];
    for i := 0 to |bills|
      invariant matched == Matched(bills[..i])
    {
      assert bills[..i + 1][..i] == bills[..i];
      if bills[i].role.Some? { matched := matched + [bills[i]]; }
    }
    assert bills[..|bills|] == bills;
  }

  ghost predicate Tabulates(rows: seq<Key>, counts: map<Key, nat>) {
    && (forall row :: row in counts <==> row in rows)
    && (forall row :: row in counts ==> counts[row] == multiset(rows)[row])
  }

  method CountRoles(matched: seq<Bill>) returns (lead: nat, co: nat, results: map<Key, nat>)
    ensures lead == RoleCount(matched, Lead) && co == RoleCount(matched, CoSponsor) && Tabulates(Results(matched), results)
  {
    lead, co, results := 0, 0, map[];
    for i := 0 to |matched|
      invariant lead == RoleCount(matched[..i], Lead) && co == RoleCount(matched[..i], CoSponsor)
      invariant Tabulates(Results(matched[..i]), results)
    {
      assert matched[..i + 1][..i] == matched[..i];
      assert Results(matched[..i + 1]) == Results(matched[..i]) + [matched[i].result];
      if matched[i].role == Some(Lead) { lead := lead + 1; }
      if matched[i].role == Some(CoSponsor) { co := co + 1; }
      results := results[matched[i].result := if matched[i].result in results then results[matched[i].result] + 1 else 1];
    }
    assert matched[..|matched|] == matched;
  }

  /** The counts conserve the matched bills: lead and co-sponsored bills add up to them, and so do
      the process-result counts. */
  lemma CountsConserve(bills: seq<Bill>, matched: seq<Bill>, results: map<Key, nat>, names: seq<Key>)
    requires matched == Matched(bills) && Tabulates(Results(matched), results)
    requires NoRepeats(names) && forall name :: name in names <==> name in results
    ensures RoleCount(matched, Lead) + RoleCount(matched, CoSponsor) == |matched|
    ensures Total(seq(|names|, i requires 0 <= i < |names| => if names[i] in results then results[names[i]] else 0)) == |matched|
  {
    MatchedHaveRoles(bills);
    RolesAddUp(matched);
    var counts := seq(|names|, i requires 0 <= i < |names| => if names[i] in results then results[names[i]] else 0);
    forall i | 0 <= i < |names| ensures counts[i] == multiset(Results(matched))[names[i]] { assert names[i] in names; }
    CountsTotal(multiset(Results(matched)), names, counts);
    assert |multiset(Results(matched))| == |Results(matched)|;
  }

  lemma {:induction false} MatchedHaveRoles(bills: seq<Bill>)
    ensures forall i :: 0 <= i < |Matched(bills)| ==> Matched(bills)[i].role.Some?
  {
    if bills != [] { MatchedHaveRoles(bills[..|bills| - 1]); }
  }

  lemma {:induction false} RolesAddUp(matched: seq<Bill>)
    requires forall i :: 0 <= i < |matched| ==> matched[i].role.Some?
    ensures RoleCount(matched, Lead) + RoleCount(matched, CoSponsor) == |matched|
  {
    if matched != [] {
      RolesAddUp(matched[..|matched| - 1]);
      match matched[|matched| - 1].role.value
      case Lead =>
      case CoSponsor =>
    }
  }
}
