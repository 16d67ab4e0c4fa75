/** The page loop shared by the bill-participation, member-roster and organization-code
    lanes: fetch page p, validate it, commit its observations together with a checkpoint,
    go on until the announced last page.  The provider is arbitrary and may change between
    runs; an exception or the death of the process may end a run between any two commits. */
module Paging {
  import opened Prelude
  import opened Store

  /** A content hash; it stands for the canonical normalized record. */
  type Hash = string
  type Hashes = map<Key, Hash>

  datatype Record = Record(key: Key, content: Hash, scope: Option<string>, complete: bool)

  datatype Document = Document(labels: map<string, string>, page: int, size: int, echo: Option<(int, int)>,
                               total: Option<int>, records: seq<Record>)

  datatype Fetch = Fetched(document: Document) | FetchRaises | FetchDies
  datatype Answer = Answer(fetch: Fetch, persist: Persist)

  /** What the provider and the database do with each page number during one run. */
  type Provider = nat -> Answer

  /** The constants that tell the lanes apart. */
  datatype Contract = Contract(lane: Lane, labels: map<string, string>, rowScope: Option<string>, pageSize: Positive,
                               maxPages: Option<nat>, allowEmpty: bool, requiresEcho: bool)

  /** Checkpoint metadata.  `prints` are the page fingerprints, kept as the values they digest. */
  datatype PageMeta = PageMeta(labels: map<string, string>, pageSize: nat, pages: nat, total: nat, seen: Hashes, prints: seq<Hashes>)

  datatype Expected = Expected(total: nat, pages: nat)
  datatype Progress = Progress(expected: Option<Expected>, seen: Hashes, prints: seq<Hashes>)

  const FRESH := Progress(None, map[], [])

  type PageDb = Db<PageMeta, Hash>

  // ---------------------------------------------------------------- page arithmetic

  function Pages(total: nat, size: nat): nat
    requires size >= 1
  {
    var n := (total + size - 1) / size;
    if n < 1 then 1 else n
  }

  /** Rows that page `p` must carry: min(size, max(0, total - (p - 1) * size)). */
  function RowCount(total: nat, size: nat, p: nat): nat
    requires p >= 1
  {
    var rest := total - (p - 1) * size;
    if rest <= 0 then 0 else if rest < size then rest else size
  }

  function RowsThrough(total: nat, size: nat, p: nat): nat {
    if p == 0 then 0 else RowsThrough(total, size, p - 1) + RowCount(total, size, p)
  }

  lemma {:induction false} RowsThroughIs(total: nat, size: nat, p: nat)
    ensures RowsThrough(total, size, p) == if p * size <= total then p * size else total
  {
    if p > 0 {
      RowsThroughIs(total, size, p - 1);
      assert p * size == (p - 1) * size + size;
    }
  }

  lemma PagesCover(total: nat, size: nat)
    requires size >= 1
    ensures total <= Pages(total, size) * size
    ensures total > 0 ==> (Pages(total, size) - 1) * size < total
  {
    var n := (total + size - 1) / size;
    assert n * size <= total + size - 1 < n * size + size by {
      assert total + size - 1 == n * size + (total + size - 1) % size;
    }
    assert (n - 1) * size == n * size - size;
    if n < 1 { assert total == 0; }
  }

  lemma LessTimes(a: nat, b: nat, size: nat)
    requires a <= b
    ensures a * size <= b * size
  {
  }

  /** The announced pages together announce exactly the announced total, and each page
      of a nonempty listing has at least one row. */
  lemma PagesAddUp(total: nat, size: nat)
    requires size >= 1
    ensures RowsThrough(total, size, Pages(total, size)) == total
    ensures total > 0 ==> forall p :: 1 <= p <= Pages(total, size) ==> RowCount(total, size, p) >= 1
  {
    hide Pages, RowCount;
    var n := Pages(total, size);
    PagesCover(total, size);
    RowsThroughIs(total, size, n);
    if total > 0 {
      forall p | 1 <= p <= n ensures RowCount(total, size, p) >= 1 {
        LessTimes(p - 1, n - 1, size);
        RowsAreLeft(total, size, p);
      }
    }
  }

  lemma RowsAreLeft(total: nat, size: nat, p: nat)
    requires size >= 1 && p >= 1 && (p - 1) * size < total
    ensures RowCount(total, size, p) >= 1
  {
  }

  // ---------------------------------------------------------------- accepting one page

  ghost predicate DistinctKeys(records: seq<Record>) {
    forall i, j :: 0 <= i < j < |records| ==> records[i].key != records[j].key
  }

  function PageHashes(records: seq<Record>): Hashes {
    if records == [] then map[]
    else var r := records[|records| - 1]; PageHashes(records[..|records| - 1])[r.key := r.content]
  }

  ghost predicate AcceptsHeader(k: Contract, p: nat, d: Document) {
    && (forall name :: name in k.labels ==> name in d.labels && d.labels[name] == k.labels[name])
    && d.page == p && d.size == k.pageSize
    && (k.requiresEcho ==> d.echo == Some((p, k.pageSize)))
  }

  ghost predicate AcceptsTotal(k: Contract, st: Progress, p: nat, d: Document) {
    && d.total.Some? && d.total.value >= (if k.allowEmpty then 0 else 1)
    && var n := Pages(d.total.value, k.pageSize);
       && (k.maxPages.Some? ==> n <= k.maxPages.value)
       && (st.expected.Some? ==> st.expected.value == Expected(d.total.value, n))
       && p <= n
  }

  predicate Fits(k: Contract, seen: Hashes, r: Record) {
    (k.rowScope.Some? ==> r.scope == k.rowScope) && r.complete && r.key !in seen
  }

  ghost predicate AcceptsRecords(k: Contract, seen: Hashes, records: seq<Record>) {
    && (forall r :: r in records ==> Fits(k, seen, r))
    && DistinctKeys(records)
  }

  /** The page passes every check the loop makes before it commits. */
  ghost predicate Accepts(k: Contract, st: Progress, p: nat, d: Document)
    requires p >= 1
  {
    && AcceptsHeader(k, p, d) && AcceptsTotal(k, st, p, d)
    && |d.records| == RowCount(TotalOf(d), k.pageSize, p)
    && AcceptsRecords(k, st.seen, d.records)
    && PageHashes(d.records) !in st.prints
  }

  function TotalOf(d: Document): nat {
    if d.total.Some? && d.total.value >= 0 then d.total.value else 0
  }

  function Advance(k: Contract, st: Progress, d: Document): Progress {
    var hashes := PageHashes(d.records);
    Progress(Some(Expected(TotalOf(d), Pages(TotalOf(d), k.pageSize))), st.seen + hashes, st.prints + [hashes])
  }

  function Observations(lane: Lane, records: seq<Record>): seq<Observation<Hash>> {
    seq(|records|, i requires 0 <= i < |records| => Observation(lane, records[i].key, records[i].content))
  }

  function MetaOf(k: Contract, st: Progress): PageMeta
    requires st.expected.Some?
  {
    PageMeta(k.labels, k.pageSize, st.expected.value.pages, st.expected.value.total, st.seen, st.prints)
  }

  function ProgressOf(meta: PageMeta): Progress {
    Progress(Some(Expected(meta.total, meta.pages)), meta.seen, meta.prints)
  }

  // ---------------------------------------------------------------- the loop as a value

  datatype Ending = Finished | Raised | Killed
  datatype Walked = Walked(db: PageDb, ending: Ending, committed: nat)

  ghost function CommitOf(k: Contract, db: PageDb, run: nat, p: nat, st: Progress, d: Document): PageDb
    requires IsRunning(db, run) && db.runs[run].lane == k.lane
  {
    CommitPage(db, run, Observations(k.lane, d.records), p, MetaOf(k, Advance(k, st, d)))
  }

  /** Pages that may still be fetched after page `p`. */
  ghost function Left(k: Contract, st: Progress, p: nat, provider: Provider): nat {
    var n := if st.expected.Some? then st.expected.value.pages
             else if provider(p).fetch.Fetched? then Pages(TotalOf(provider(p).fetch.document), k.pageSize) else 0;
    if p < n then n - p else 0
  }

  ghost function Walk(k: Contract, db: PageDb, run: nat, p: nat, st: Progress, provider: Provider, committed: nat): Walked
    requires p >= 1 && IsRunning(db, run) && db.runs[run].lane == k.lane
    decreases Left(k, st, p, provider)
  {
    var a := provider(p);
    if a.fetch.FetchDies? then Walked(db, Killed, committed)
    else if a.fetch.FetchRaises? || !Accepts(k, st, p, a.fetch.document) || a.persist.RollsBack? then Walked(db, Raised, committed)
    else if a.persist.DiesBefore? then Walked(db, Killed, committed)
    else
      var d := a.fetch.document;
      var next := CommitOf(k, db, run, p, st, d);
      var st' := Advance(k, st, d);
      CommitKeepsRun(db, run, Observations(k.lane, d.records), p, MetaOf(k, st'));
      if a.persist.DiesAfter? then Walked(next, Killed, committed + 1)
      else if p == st'.expected.value.pages then
        Walked(next, if |st'.seen| == st'.expected.value.total then Finished else Raised, committed + 1)
      else Walk(k, next, run, p + 1, st', provider, committed + 1)
  }

  ghost predicate CommitsPage(k: Contract, st: Progress, p: nat, a: Answer)
    requires p >= 1
  {
    a.fetch.Fetched? && Accepts(k, st, p, a.fetch.document) && (a.persist.Commits? || a.persist.DiesAfter?)
  }

  /** `n` pages of `size` rows hold the total, and one page less does not. */
  ghost predicate ArePages(total: int, size: nat, n: int) { n >= 1 && total <= n * size && (n == 1 || (n - 1) * size < total) }

  lemma PagesIff(total: nat, size: Positive, n: int)
    ensures n == Pages(total, size) <==> ArePages(total, size, n)
  {
    hide Pages;
    AtLeastOne(total, size);
    PagesCover(total, size);
    var m := Pages(total, size);
    if ArePages(total, size, n) {
      if n < m { LessTimes(n, m - 1, size); }
      if m < n { LessTimes(m, n - 1, size); }
    }
    if total == 0 && m > 1 { NoRows(size); }
  }

  lemma AtLeastOne(total: nat, size: Positive)
    ensures Pages(total, size) >= 1
  {
  }

  lemma NoRows(size: Positive)
    ensures Pages(0, size) == 1
  {
  }

  /** The page's keys and contents are exactly those of an earlier committed page. */
  ghost predicate SamePage(hashes: Hashes, records: seq<Record>) {
    && (forall r :: r in records ==> r.key in hashes && hashes[r.key] == r.content)
    && (forall key :: key in hashes ==> exists r :: r in records && r.key == key)
  }

  /** Exactly which answer is committed as page `p`: the labels, the page and the size are the
      lane's; the total is allowed, is the run's, and its pages are within the bound and reach this
      one; the page holds the rows due on it, all in scope, complete, and under distinct new keys;
      and it repeats no earlier page. */
  lemma PageIsCommittedIff(k: Contract, st: Progress, p: nat, a: Answer)
    requires p >= 1
    ensures CommitsPage(k, st, p, a) <==>
              && a.fetch.Fetched? && (a.persist.Commits? || a.persist.DiesAfter?)
              && var d := a.fetch.document;
                 && (forall name :: name in k.labels ==> name in d.labels && d.labels[name] == k.labels[name])
                 && d.page == p && d.size == k.pageSize && (k.requiresEcho ==> d.echo == Some((p, k.pageSize)))
                 && d.total.Some? && (d.total.value >= 1 || (k.allowEmpty && d.total.value == 0))
                 && (k.maxPages.Some? ==> k.maxPages.value >= 1 && d.total.value <= k.maxPages.value * k.pageSize)
                 && (st.expected.Some? ==> st.expected.value.total == d.total.value && ArePages(d.total.value, k.pageSize, st.expected.value.pages))
                 && (p == 1 || (p - 1) * k.pageSize < d.total.value)
                 && |d.records| == (if d.total.value - (p - 1) * k.pageSize < k.pageSize then d.total.value - (p - 1) * k.pageSize else k.pageSize)
                 && (forall r :: r in d.records ==> (k.rowScope.Some? ==> r.scope == k.rowScope) && r.complete && r.key !in st.seen)
                 && (forall i, j :: 0 <= i < j < |d.records| ==> d.records[i].key != d.records[j].key)
                 && forall i :: 0 <= i < |st.prints| ==> !SamePage(st.prints[i], d.records)
  {
    hide Pages, PageHashes, SamePage;
    if a.fetch.Fetched? && a.fetch.document.total.Some? && a.fetch.document.total.value >= 0 {
      var d := a.fetch.document;
      var total, size := d.total.value, k.pageSize;
      AtLeastOne(total, size);
      PagesCover(total, size);
      if st.expected.Some? { PagesIff(total, size, st.expected.value.pages); }
      PageReaches(total, size, p);
      if k.maxPages.Some? { PagesWithin(total, size, k.maxPages.value); }
      if DistinctKeys(d.records) {
        forall hashes ensures hashes == PageHashes(d.records) <==> SamePage(hashes, d.records) { SamePageIff(hashes, d.records); }
      }
    }
  }

  lemma PageReaches(total: nat, size: Positive, p: nat)
    requires p >= 1
    ensures p <= Pages(total, size) <==> p == 1 || (p - 1) * size < total
    ensures p <= Pages(total, size) ==> RowCount(total, size, p) == if total - (p - 1) * size < size then total - (p - 1) * size else size
  {
    hide Pages;
    AtLeastOne(total, size);
    PagesCover(total, size);
    var n := Pages(total, size);
    if p <= n { LessTimes(p - 1, n - 1, size); } else { LessTimes(n, p - 1, size); }
    if total == 0 { NoRows(size); }
  }

  lemma PagesWithin(total: nat, size: Positive, bound: nat)
    ensures Pages(total, size) <= bound <==> bound >= 1 && total <= bound * size
  {
    hide Pages;
    AtLeastOne(total, size);
    PagesCover(total, size);
    var n := Pages(total, size);
    if n <= bound { LessTimes(n, bound, size); } else if bound >= 1 { LessTimes(bound, n - 1, size); }
    if total == 0 { NoRows(size); }
  }

  lemma SamePageIff(hashes: Hashes, records: seq<Record>)
    requires DistinctKeys(records)
    ensures hashes == PageHashes(records) <==> SamePage(hashes, records)
  {
    hide PageHashes;
    HashesAreRecords(records);
    var own := PageHashes(records);
    forall key ensures key in own <==> exists r :: r in records && r.key == key {
      HashesKeys(records, key);
      if i :| 0 <= i < |records| && records[i].key == key { assert records[i] in records; }
      if r :| r in records && r.key == key { var i :| 0 <= i < |records| && records[i] == r; }
    }
    forall r | r in records ensures r.key in own && own[r.key] == r.content { var i :| 0 <= i < |records| && records[i] == r; }
    if SamePage(hashes, records) {
      forall key | key in own ensures key in hashes && hashes[key] == own[key] { var r :| r in records && r.key == key; }
      forall key | key in hashes ensures key in own {}
    }
  }

  /** A page that is not committed ends the run with the store as it was. */
  lemma WalkStops(k: Contract, db: PageDb, run: nat, p: nat, st: Progress, provider: Provider, n: nat)
    requires p >= 1 && IsRunning(db, run) && db.runs[run].lane == k.lane
    requires !CommitsPage(k, st, p, provider(p))
    ensures var w := Walk(k, db, run, p, st, provider, n); w.db == db && w.committed == n && !w.ending.Finished?
    ensures Walk(k, db, run, p, st, provider, n).ending.Killed?
            <==> provider(p).fetch.FetchDies?
                 || (provider(p).fetch.Fetched? && Accepts(k, st, p, provider(p).fetch.document) && provider(p).persist.DiesBefore?)
  {
  }

  /** A committed page either is the run's last one or is followed by the walk from the next page. */
  lemma WalkCommits(k: Contract, db: PageDb, run: nat, p: nat, st: Progress, provider: Provider, n: nat)
    requires p >= 1 && IsRunning(db, run) && db.runs[run].lane == k.lane
    requires CommitsPage(k, st, p, provider(p))
    ensures var a := provider(p);
            a.fetch.Fetched? && Accepts(k, st, p, a.fetch.document)
    ensures var a := provider(p); var d := a.fetch.document; var st', next := Advance(k, st, d), CommitOf(k, db, run, p, st, d);
            var w := Walk(k, db, run, p, st, provider, n);
            && IsRunning(next, run) && next.runs[run].lane == k.lane
            && st'.expected.Some? && p <= st'.expected.value.pages
            && (if a.persist.DiesAfter? then w == Walked(next, Killed, n + 1)
                else if p == st'.expected.value.pages then
                  w == Walked(next, if |st'.seen| == st'.expected.value.total then Finished else Raised, n + 1)
                else a.persist.Commits? && Left(k, st', p + 1, provider) < Left(k, st, p, provider)
                     && w == Walk(k, next, run, p + 1, st', provider, n + 1))
  {
    hide Pages, RowCount, PageHashes, CommitPage;
    var d := provider(p).fetch.document;
    CommitKeepsRun(db, run, Observations(k.lane, d.records), p, MetaOf(k, Advance(k, st, d)));
  }

  /** How the run's receipt is closed; a killed process leaves it running. */
  ghost function Close(w: Walked, run: nat, partial: bool): Walked
    requires IsRunning(w.db, run)
  {
    match w.ending
    case Finished => w.(db := FinishRun(w.db, run, Success))
    case Raised => w.(db := FinishRun(w.db, run, if partial then Partial else Failed))
    case Killed => w
  }

  // ---------------------------------------------------------------- the loop as code

  class PagedEnumerator {
    const contract: Contract
    const repository: Repository<PageMeta, Hash>

    constructor (contract: Contract, repository: Repository<PageMeta, Hash>)
      ensures this.contract == contract && this.repository == repository
    {
      this.contract, this.repository := contract, repository;
    }

    /** The hashes of one page, or nothing when a row is out of scope, incomplete, repeated
        in the page or already committed. */
    method HashPage(seen: Hashes, records: seq<Record>) returns (r: Option<Hashes>)
      ensures r.Some? <==> AcceptsRecords(contract, seen, records)
      ensures r.Some? ==> r.value == PageHashes(records)
    {
      var hashes: Hashes := map[];
      assert records[..0] == [];
      for i := 0 to |records|
        invariant hashes == PageHashes(records[..i])
        invariant forall j :: 0 <= j < i ==> Fits(contract, seen, records[j])
        invariant DistinctKeys(records[..i])
      {
        var x := records[i];
        assert records[..i + 1][..i] == records[..i];
        HashesKeys(records[..i], x.key);
        if !Fits(contract, seen, x) {
          assert x in records;
          return None;
        }
        if x.key in hashes {
          assert !DistinctKeys(records) by {
            var j :| 0 <= j < i && records[..i][j].key == x.key;
            assert records[j].key == records[i].key;
          }
          return None;
        }
        hashes := hashes[x.key := x.content];
      }
      assert records[..|records|] == records;
      r := Some(hashes);
    }

    /** Labels, page echo and total of a fetched document. */
    method CheckHeader(st: Progress, p: nat, d: Document) returns (ok: bool)
      ensures ok <==> AcceptsHeader(contract, p, d) && AcceptsTotal(contract, st, p, d)
    {
      if d.page != p || d.size != contract.pageSize || d.total.None? { return false; }
      if contract.requiresEcho && d.echo != Some((p, contract.pageSize)) { return false; }
      if !(forall name | name in contract.labels :: name in d.labels && d.labels[name] == contract.labels[name]) { return false; }
      if d.total.value < (if contract.allowEmpty then 0 else 1) { return false; }
      var n := Pages(d.total.value, contract.pageSize);
      if contract.maxPages.Some? && n > contract.maxPages.value { return false; }
      if st.expected.Some? && st.expected.value != Expected(d.total.value, n) { return false; }
      ok := p <= n;
    }

    /** Commits pages from `start` on.  The store, the ending and the number of commits are those
        of `Walk`; a finished loop also returns, for every provider key seen, the row that holds
        its observation. */
    method CommitPages(run: nat, start: nat, resumed: Progress, known: map<Key, nat>, provider: Provider)
      returns (ending: Ending, committed: nat, ids: map<Key, nat>, st: Progress)
      requires start >= 1
      requires IsRunning(repository.State(), run) && repository.runs[run].lane == contract.lane
      requires Locates(repository.rows, contract.lane, resumed.seen, known)
      modifies repository
      ensures Walked(repository.State(), ending, committed)
              == old(Walk(contract, repository.State(), run, start, resumed, provider, 0))
      ensures IsRunning(repository.State(), run)
      ensures ending.Finished? ==> Locates(repository.rows, contract.lane, st.seen, ids)
                                   && (known.Keys == resumed.seen.Keys ==> ids.Keys == st.seen.Keys)
      ensures ending.Finished? ==> st.expected.Some? && contract.lane in repository.checkpoints
                                   && repository.checkpoints[contract.lane].meta == MetaOf(contract, st)
    {
      hide Pages, RowCount, PageHashes, Merge, CommitPage, AcceptsHeader, AcceptsRecords, Locates, WithIds, Accounts, NoRepeats;
      var p := start;
      committed, ids, st := 0, known, resumed;
      while true
        invariant p >= 1 && IsRunning(repository.State(), run) && repository.runs[run].lane == contract.lane
        invariant Locates(repository.rows, contract.lane, st.seen, ids)
        invariant known.Keys == resumed.seen.Keys ==> ids.Keys == st.seen.Keys
        invariant old(Walk(contract, repository.State(), run, start, resumed, provider, 0))
                  == Walk(contract, repository.State(), run, p, st, provider, committed)
        decreases Left(contract, st, p, provider)
      {
        var a := provider(p);
        if a.fetch.FetchDies? { return Killed, committed, ids, st; }
        if a.fetch.FetchRaises? { return Raised, committed, ids, st; }
        var d := a.fetch.document;
        var ok := CheckHeader(st, p, d);
        if !ok || |d.records| != RowCount(d.total.value, contract.pageSize, p) { return Raised, committed, ids, st; }
        var hashes := HashPage(st.seen, d.records);
        if hashes.None? || hashes.value in st.prints { return Raised, committed, ids, st; }
        var st' := Progress(Some(Expected(d.total.value, Pages(d.total.value, contract.pageSize))),
                            st.seen + hashes.value, st.prints + [hashes.value]);
        if a.persist.DiesBefore? { return Killed, committed, ids, st; }
        ghost var before := repository.State();
        var found := repository.CommitSourcePage(run, Observations(contract.lane, d.records), p, MetaOf(contract, st'), !a.persist.RollsBack?);
        if found.None? { return Raised, committed, ids, st; }
        CommitMeaning(before, run, Observations(contract.lane, d.records), p, MetaOf(contract, st'));
        var ids' := RecordIds(ids, d.records, found.value);
        LocateMore(before.rows, repository.rows, contract.lane, st.seen, ids, d.records, found.value, ids');
        ids := ids';
        committed, st := committed + 1, st';
        if a.persist.DiesAfter? { return Killed, committed, ids, st; }
        if p == st.expected.value.pages {
          return (if |st.seen| == st.expected.value.total then Finished else Raised), committed, ids, st;
        }
        p := p + 1;
      }
    }

    method RecordIds(ids: map<Key, nat>, records: seq<Record>, found: seq<nat>) returns (r: map<Key, nat>)
      requires |records| == |found|
      ensures r == WithIds(ids, records, found)
    {
      r := ids;
      assert records[..0] == [] && found[..0] == [];
      for i := 0 to |records|
        invariant r == WithIds(ids, records[..i], found[..i])
      {
        r := r[records[i].key := found[i]];
        assert records[..i + 1][..i] == records[..i] && found[..i + 1][..i] == found[..i];
      }
      assert records[..|records|] == records && found[..|found|] == found;
    }
  }

  function WithIds(ids: map<Key, nat>, records: seq<Record>, found: seq<nat>): map<Key, nat>
    requires |records| == |found|
  {
    if records == [] then ids
    else var n := |records| - 1; WithIds(ids, records[..n], found[..n])[records[n].key := found[n]]
  }

  /** `ids` names, for keys of `seen`, the row with that key and hash. */
  ghost predicate Locates(rows: seq<Observation<Hash>>, lane: Lane, seen: Hashes, ids: map<Key, nat>) {
    && ids.Keys <= seen.Keys
    && forall key :: key in ids ==> ids[key] < |rows| && rows[ids[key]] == Observation(lane, key, seen[key])
  }

  lemma {:induction false} LocateMore(before: seq<Observation<Hash>>, rows: seq<Observation<Hash>>, lane: Lane, seen: Hashes,
                                      ids: map<Key, nat>, records: seq<Record>, found: seq<nat>, ids': map<Key, nat>)
    requires Locates(before, lane, seen, ids) && before <= rows
    requires |records| == |found| && ids' == WithIds(ids, records, found)
    requires forall i :: 0 <= i < |records| ==> found[i] < |rows| && rows[found[i]] == Observation(lane, records[i].key, records[i].content)
    ensures Locates(rows, lane, seen + PageHashes(records), ids')
    ensures ids.Keys == seen.Keys ==> ids'.Keys == (seen + PageHashes(records)).Keys
  {
    if records == [] {
      assert seen + PageHashes(records) == seen;
    } else {
      var n := |records| - 1;
      var init, r, more := records[..n], records[n], WithIds(ids, records[..n], found[..n]);
      LocateMore(before, rows, lane, seen, ids, init, found[..n], more);
      LocateOne(rows, lane, seen + PageHashes(init), more, r, found[n]);
      PlusUpdate(seen, PageHashes(init), r.key, r.content);
    }
  }

  lemma PlusUpdate<K, V>(a: map<K, V>, b: map<K, V>, k: K, v: V)
    ensures a + b[k := v] == (a + b)[k := v]
  {
  }

  lemma LocateOne(rows: seq<Observation<Hash>>, lane: Lane, seen: Hashes, ids: map<Key, nat>, r: Record, row: nat)
    requires Locates(rows, lane, seen, ids)
    requires row < |rows| && rows[row] == Observation(lane, r.key, r.content)
    ensures Locates(rows, lane, seen[r.key := r.content], ids[r.key := row])
    ensures ids.Keys == seen.Keys ==> ids[r.key := row].Keys == seen[r.key := r.content].Keys
  {
  }

  lemma {:induction false} HashesKeys(records: seq<Record>, key: Key)
    ensures key in PageHashes(records) <==> exists i :: 0 <= i < |records| && records[i].key == key
  {
    if records != [] {
      var n := |records| - 1;
      HashesKeys(records[..n], key);
      if i :| 0 <= i < |records| && records[i].key == key {
        if i < n { assert records[..n][i].key == key; }
      }
      if key in PageHashes(records[..n]) {
        var i :| 0 <= i < n && records[..n][i].key == key;
        assert records[i].key == key;
      }
    }
  }

  /** A page without repeated keys has one hash per record, each record's own. */
  lemma {:induction false} HashesAreRecords(records: seq<Record>)
    requires DistinctKeys(records)
    ensures |PageHashes(records)| == |records|
    ensures forall i :: 0 <= i < |records| ==> records[i].key in PageHashes(records) && PageHashes(records)[records[i].key] == records[i].content
  {
    if records != [] {
      var n := |records| - 1;
      var init, r := records[..n], records[n];
      HashesAreRecords(init);
      HashesKeys(init, r.key);
      assert r.key !in PageHashes(init);
      assert PageHashes(records) == PageHashes(init)[r.key := r.content];
      assert PageHashes(records).Keys == PageHashes(init).Keys + {r.key};
      forall i | 0 <= i < |records|
        ensures records[i].key in PageHashes(records) && PageHashes(records)[records[i].key] == records[i].content
      {
        if i < n { assert init[i] == records[i]; }
      }
    }
  }
}
