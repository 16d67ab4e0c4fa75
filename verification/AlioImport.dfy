/** The consumer of the executive lane: it accepts only a checkpoint that covers the whole
    directory, and resolves every manifest entry to exactly one stored observation. */
module AlioImport {
  import opened Prelude
  import opened Store
  import opened CursorLane
  import opened CursorSafety
  import opened CursorListing
  import opened Alio
  import opened Text

  datatype Manifest = Manifest(hashes: map<Key, Row>, codes: set<Code>, disclosures: map<string, Code>)

  predicate CoversDirectory(cursor: nat, u: Directory, s: AlioState) {
    && |u| > 0 && cursor == |u| && |CodesOf(u)| == |u|
    && (forall i | 0 <= i < |u| :: !Blank(u[i].code))
    && (forall d | d in s.disclosures :: !Blank(d) && !Blank(s.disclosures[d]))
    && |s.disclosures.Values| == |s.disclosures|
    && (forall code | code in s.noCurrent :: !Blank(code))
    && s.disclosures.Values + s.noCurrent == CodesOf(u)
    && s.disclosures.Values * s.noCurrent == {}
  }

  /** The manifest of a complete item-4 run, or nothing when any condition fails. */
  function CompleteItem4Run(db: AlioDb): Option<Manifest> {
    if LANE !in db.checkpoints || db.checkpoints[LANE].lastRun >= |db.runs| then None
    else
      var ck, run := db.checkpoints[LANE], db.runs[db.checkpoints[LANE].lastRun];
      if !run.status.Success? || run.lane != LANE || run.after != Some(ck.cursor) || ck.meta.labels != CONTRACT then None
      else if !CoversDirectory(ck.cursor, ck.meta.universe, ck.meta.state) then None
      else Some(Manifest(ck.meta.state.hashes, CodesOf(ck.meta.universe), ck.meta.state.disclosures))
  }

  /** What the consumer demands of any store: a successful run of the lane that stands at the end
      of its directory, whose codes are distinct; and every institution either has exactly one
      current disclosure or is one without, with no disclosure or missing one outside it. */
  lemma AcceptedIff(db: AlioDb)
    ensures CompleteItem4Run(db).Some? <==>
              && LANE in db.checkpoints && db.checkpoints[LANE].lastRun < |db.runs|
              && (var ck, run := db.checkpoints[LANE], db.runs[db.checkpoints[LANE].lastRun];
                  && run.status == Success && run.lane == LANE && run.after == Some(ck.cursor)
                  && ck.meta.labels == map["source_contract" := "alio_item_4_current_executive_roster"]
                  && CoversEachOnce(ck.cursor, ck.meta.universe, ck.meta.state))
    ensures CompleteItem4Run(db).Some? ==>
              var m, ck := CompleteItem4Run(db).value, db.checkpoints[LANE];
              && m.hashes == ck.meta.state.hashes && m.disclosures == ck.meta.state.disclosures
              && forall code :: code in m.codes <==> exists i :: 0 <= i < |ck.meta.universe| && ck.meta.universe[i].code == code
  {
    hide CoversDirectory, CoversEachOnce;
    if LANE in db.checkpoints { CoversIff(db.checkpoints[LANE].cursor, db.checkpoints[LANE].meta.universe, db.checkpoints[LANE].meta.state); }
  }

  ghost predicate CoversEachOnce(cursor: nat, u: Directory, s: AlioState) {
    && |u| > 0 && cursor == |u|
    && (forall i :: 0 <= i < |u| ==> !Blank(u[i].code))
    && (forall i, j :: 0 <= i < j < |u| ==> u[i].code != u[j].code)
    && (forall d :: d in s.disclosures ==> !Blank(d) && exists i :: 0 <= i < |u| && u[i].code == s.disclosures[d])
    && (forall d, e :: d in s.disclosures && e in s.disclosures && d != e ==> s.disclosures[d] != s.disclosures[e])
    && (forall code :: code in s.noCurrent ==> exists i :: 0 <= i < |u| && u[i].code == code)
    && (forall i :: 0 <= i < |u| ==> (u[i].code in s.noCurrent <==> forall d :: d in s.disclosures ==> s.disclosures[d] != u[i].code))
  }

  lemma CoversIff(cursor: nat, u: Directory, s: AlioState)
    ensures CoversDirectory(cursor, u, s) <==> CoversEachOnce(cursor, u, s)
  {
    hide CoversDirectory, CoversEachOnce;
    CodesCount(u);
    ValuesCount(s.disclosures);
    if CoversDirectory(cursor, u, s) { CoversThenEach(cursor, u, s); }
    if CoversEachOnce(cursor, u, s) { EachThenCovers(cursor, u, s); }
  }

  lemma CodesCount(u: Directory)
    ensures |CodesOf(u)| == |u| <==> forall i, j :: 0 <= i < j < |u| ==> u[i].code != u[j].code
  {
    var codes := seq(|u|, i requires 0 <= i < |u| => u[i].code);
    ElementsCount(codes);
    assert NoRepeats(codes) <==> forall i, j :: 0 <= i < j < |u| ==> u[i].code != u[j].code by {
      assert forall i :: 0 <= i < |u| ==> codes[i] == u[i].code;
    }
    forall code ensures code in codes <==> code in CodesOf(u) {
      if code in CodesOf(u) { var i :| 0 <= i < |u| && u[i].code == code; assert codes[i] == code; }
    }
    assert (set x | x in codes) == CodesOf(u);
  }

  lemma ValuesAre(m: map<string, Code>)
    ensures forall v :: v in m.Values <==> exists d :: d in m && m[d] == v
  {
  }

  lemma CoversThenEach(cursor: nat, u: Directory, s: AlioState)
    requires CoversDirectory(cursor, u, s)
    requires |CodesOf(u)| == |u| <==> forall i, j :: 0 <= i < j < |u| ==> u[i].code != u[j].code
    requires |s.disclosures.Values| == |s.disclosures| <==> Injective(s.disclosures)
    ensures CoversEachOnce(cursor, u, s)
  {
    forall code | code in s.disclosures.Values + s.noCurrent ensures exists i :: 0 <= i < |u| && u[i].code == code { assert code in CodesOf(u); }
    forall d | d in s.disclosures ensures s.disclosures[d] in s.disclosures.Values {}
    forall i | 0 <= i < |u| ensures u[i].code in s.disclosures.Values <==> u[i].code !in s.noCurrent {
      assert u[i].code in CodesOf(u) && u[i].code !in s.disclosures.Values * s.noCurrent;
    }
  }

  lemma EachThenCovers(cursor: nat, u: Directory, s: AlioState)
    requires CoversEachOnce(cursor, u, s)
    requires |CodesOf(u)| == |u| <==> forall i, j :: 0 <= i < j < |u| ==> u[i].code != u[j].code
    requires |s.disclosures.Values| == |s.disclosures| <==> Injective(s.disclosures)
    ensures CoversDirectory(cursor, u, s)
  {
    hide Blank;
    EachIsUnion(cursor, u, s);
    EachIsDisjoint(cursor, u, s);
    assert Injective(s.disclosures);
    forall code | code in s.noCurrent ensures !Blank(code) { var i :| 0 <= i < |u| && u[i].code == code; }
    forall d | d in s.disclosures ensures !Blank(s.disclosures[d]) { var i :| 0 <= i < |u| && u[i].code == s.disclosures[d]; }
  }

  lemma EachIsUnion(cursor: nat, u: Directory, s: AlioState)
    requires CoversEachOnce(cursor, u, s)
    ensures s.disclosures.Values + s.noCurrent == CodesOf(u)
  {
    hide Blank;
    ValuesAre(s.disclosures);
    forall code ensures code in CodesOf(u) <==> code in s.disclosures.Values + s.noCurrent {
      if code in CodesOf(u) { var i :| 0 <= i < |u| && u[i].code == code; }
    }
  }

  lemma EachIsDisjoint(cursor: nat, u: Directory, s: AlioState)
    requires CoversEachOnce(cursor, u, s)
    ensures s.disclosures.Values * s.noCurrent == {}
  {
    hide Blank;
    ValuesAre(s.disclosures);
    forall code | code in s.noCurrent ensures code !in s.disclosures.Values {
      var i :| 0 <= i < |u| && u[i].code == code;
    }
  }

  ghost function Named(): (Directory, nat, Report) -> bool {
    (u: Directory, p: nat, f: Report) => f.Current? ==> !Blank(f.disclosure)
  }

  lemma {:induction false} DisclosuresAreNamed(u: Directory, history: seq<Event<Report>>)
    requires AcceptsDirectory(u) && Replay(AlioLane(), u, history).Some? && Sourced(AlioLane(), u, history, Named())
    ensures forall d :: d in Replay(AlioLane(), u, history).value.state.disclosures ==> !Blank(d)
  {
    hide AcceptsDirectory, Keyed, FreshKeys, ExecutiveRows;
    if history != [] { DisclosuresAreNamed(u, history[..|history| - 1]); }
  }

  lemma CompletePartitionCovers(u: Directory, s: AlioState)
    requires AcceptsDirectory(u) && Partition(u, |u|, s) && forall d :: d in s.disclosures ==> !Blank(d)
    ensures CoversDirectory(|u|, u, s)
  {
    assert u[..|u|] == u;
    assert forall d :: d in s.disclosures ==> s.disclosures[d] in s.disclosures.Values;
    assert forall code :: code in CodesOf(u) ==> !Blank(code);
    assert |CodesOf(u)| == |s.disclosures.Values| + |s.noCurrent|;
  }

  /** Producer/consumer agreement.  After any sequence of fresh and resumed runs whose reports
      name their disclosures, the consumer accepts the store exactly when the run that wrote the
      checkpoint was closed with SUCCESS: every other manifest condition then holds. */
  lemma ProducerMeetsConsumer(db: AlioDb, attempts: seq<Attempt<Directory, Report>>)
    requires LANE !in db.checkpoints && forall a :: a in attempts ==> Draws(a.world, Named())
    ensures var after := Chain(AlioLane(), db, attempts);
            && (LANE in after.checkpoints ==> after.checkpoints[LANE].lastRun < |after.runs|)
            && (CompleteItem4Run(after).Some? <==>
                  LANE in after.checkpoints && after.runs[after.checkpoints[LANE].lastRun].status.Success?)
  {
    hide Enumerate, Partition, CoversDirectory, Replay, Sourced;
    var history := ChainIsDescribed(AlioLane(), db, attempts, Named());
    var after := Chain(AlioLane(), db, attempts);
    if LANE in after.checkpoints && after.runs[after.checkpoints[LANE].lastRun].status.Success? {
      var ck := after.checkpoints[LANE];
      PartitionAtEveryCursor(ck.meta.universe, history);
      DisclosuresAreNamed(ck.meta.universe, history);
      CompletePartitionCovers(ck.meta.universe, ck.meta.state);
    }
  }

  /** The checks of manifest rows against the checkpoint cannot fail on a producer's store: every
      manifest entry is an executive row (so none is unpublished), its institution is one of the
      directory, its disclosure is that institution's current one, and the rows of one institution
      agree on its name and classification. */
  lemma ManifestRowsPass(db: AlioDb, attempts: seq<Attempt<Directory, Report>>)
    requires LANE !in db.checkpoints && forall a :: a in attempts ==> Draws(a.world, Named())
    requires CompleteItem4Run(Chain(AlioLane(), db, attempts)).Some?
    ensures var m := CompleteItem4Run(Chain(AlioLane(), db, attempts)).value;
            && (forall key :: key in m.hashes ==>
                  var row := m.hashes[key];
                  && row.Executive? && row.institution.code in m.codes
                  && row.disclosure in m.disclosures && m.disclosures[row.disclosure] == row.institution.code)
            && (forall a, b :: a in m.hashes && b in m.hashes && m.hashes[a].institution.code == m.hashes[b].institution.code ==>
                  m.hashes[a].institution == m.hashes[b].institution)
  {
    hide Enumerate, Replay, Sourced, CoversDirectory;
    var history := ChainIsDescribed(AlioLane(), db, attempts, Named());
    ManifestAtEveryCursor(Chain(AlioLane(), db, attempts).checkpoints[LANE].meta.universe, history);
  }

  // ---------------------------------------------------------------- resolving the manifest

  /** Exactly one stored row of the lane has this key and content, and no row has the key with
      another content. */
  ghost predicate Resolves(rows: seq<Observation<Row>>, key: Key, content: Row) {
    && (exists i :: 0 <= i < |rows| && rows[i] == Observation(LANE, key, content))
    && (forall i, j :: 0 <= i < j < |rows| ==> !(rows[i] == rows[j] == Observation(LANE, key, content)))
    && (forall i :: 0 <= i < |rows| && rows[i].lane == LANE && rows[i].key == key ==> rows[i].content == content)
  }

  /** The rows below `n` that are versions of `key`, oldest first. */
  ghost function VersionsOf(rows: seq<Observation<Row>>, key: Key, n: nat): seq<nat>
    requires n <= |rows|
  {
    if n == 0 then []
    else VersionsOf(rows, key, n - 1) + (if rows[n - 1].lane == LANE && rows[n - 1].key == key then [n - 1] else [])
  }

  lemma {:induction false} VersionsAre(rows: seq<Observation<Row>>, key: Key, n: nat)
    requires n <= |rows|
    ensures var group := VersionsOf(rows, key, n);
            && (forall v :: 0 <= v < |group| ==> group[v] < n && rows[group[v]].lane == LANE && rows[group[v]].key == key)
            && (forall v, w :: 0 <= v < w < |group| ==> group[v] < group[w])
            && (forall i :: 0 <= i < n && rows[i].lane == LANE && rows[i].key == key ==> i in group)
            && (n == |rows| ==> Versions(rows, key, group))
  {
    if n > 0 { VersionsAre(rows, key, n - 1); }
  }

  function VersionGroup(versions: map<Key, seq<nat>>, key: Key): seq<nat> {
    if key in versions then versions[key] else []
  }

  method VersionsByKey(rows: seq<Observation<Row>>) returns (versions: map<Key, seq<nat>>)
    ensures forall key :: VersionGroup(versions, key) == VersionsOf(rows, key, |rows|)
  {
    hide VersionsOf;
    versions := map[];
    forall key ensures VersionsOf(rows, key, 0) == [] { VersionsStep(rows, key, 0); }
    for i := 0 to |rows|
      invariant forall key :: VersionGroup(versions, key) == VersionsOf(rows, key, i)
    {
      ghost var before := versions;
      if rows[i].lane == LANE {
        versions := versions[rows[i].key := VersionGroup(versions, rows[i].key) + [i]];
      }
      forall key ensures VersionGroup(versions, key) == VersionsOf(rows, key, i + 1) {
        assert VersionGroup(before, key) == VersionsOf(rows, key, i);
        VersionsStep(rows, key, i + 1);
      }
    }
  }

  lemma VersionsStep(rows: seq<Observation<Row>>, key: Key, n: nat)
    requires n <= |rows|
    ensures VersionsOf(rows, key, n)
            == if n == 0 then []
               else VersionsOf(rows, key, n - 1) + (if rows[n - 1].lane == LANE && rows[n - 1].key == key then [n - 1] else [])
  {
  }

  /** The single row of `group` with the given content, or nothing when it is not single or
      another content is present. */
  method Pick(rows: seq<Observation<Row>>, key: Key, content: Row, versions: map<Key, seq<nat>>) returns (r: Option<nat>)
    requires forall other :: VersionGroup(versions, other) == VersionsOf(rows, other, |rows|)
    ensures r.Some? <==> Resolves(rows, key, content)
    ensures r.Some? ==> r.value < |rows| && rows[r.value] == Observation(LANE, key, content)
  {
    hide VersionsOf, Resolves, Versions;
    var group := VersionGroup(versions, key);
    VersionsAre(rows, key, |rows|);
    assert Versions(rows, key, group) by { assert group == VersionsOf(rows, key, |rows|); }
    ResolvesIffSingle(rows, key, content, group);
    var matching: seq<nat> := [];
    for v := 0 to |group|
      invariant |matching| <= v && forall m :: 0 <= m < |matching| ==> matching[m] < |rows| && rows[matching[m]] == Observation(LANE, key, content)
      invariant |matching| == v <==> forall w :: 0 <= w < v ==> rows[group[w]].content == content
      invariant v > 0 && rows[group[0]].content == content ==> |matching| >= 1
    {
      VersionAt(rows, key, group, v);
      if rows[group[v]].content == content { matching := matching + [group[v]]; }
    }
    if |matching| != 1 { return None; }
    var contents := set v | 0 <= v < |group| :: rows[group[v]].content;
    if |contents| > 1 {
      assert |group| != 1 by { OneContent(rows, group, contents); }
      return None;
    }
    AllOneContent(rows, group, contents, matching[0], content);
    r := Some(matching[0]);
  }

  lemma VersionAt(rows: seq<Observation<Row>>, key: Key, group: seq<nat>, v: nat)
    requires Versions(rows, key, group) && v < |group|
    ensures group[v] < |rows| && rows[group[v]].lane == LANE && rows[group[v]].key == key
  {
  }

  lemma OneContent(rows: seq<Observation<Row>>, group: seq<nat>, contents: set<Row>)
    requires forall v :: 0 <= v < |group| ==> group[v] < |rows|
    requires contents == (set v | 0 <= v < |group| :: rows[group[v]].content)
    ensures |group| == 1 ==> |contents| == 1
  {
    if |group| == 1 { assert contents == {rows[group[0]].content}; }
  }

  lemma AllOneContent(rows: seq<Observation<Row>>, group: seq<nat>, contents: set<Row>, i: nat, content: Row)
    requires forall v :: 0 <= v < |group| ==> group[v] < |rows|
    requires contents == (set v | 0 <= v < |group| :: rows[group[v]].content) && |contents| <= 1
    requires content in contents
    ensures forall v :: 0 <= v < |group| ==> rows[group[v]].content == content
  {
    forall v | 0 <= v < |group| ensures rows[group[v]].content == content {
      assert {rows[group[v]].content, content} <= contents;
      if rows[group[v]].content != content { SubsetSize({rows[group[v]].content, content}, contents); }
    }
  }

  /** `group` lists the stored versions of the key. */
  ghost predicate Versions(rows: seq<Observation<Row>>, key: Key, group: seq<nat>) {
    && (forall v :: 0 <= v < |group| ==> group[v] < |rows| && rows[group[v]].lane == LANE && rows[group[v]].key == key)
    && (forall v, w :: 0 <= v < w < |group| ==> group[v] < group[w])
    && (forall i :: 0 <= i < |rows| && rows[i].lane == LANE && rows[i].key == key ==> i in group)
  }

  /** With the group of all stored versions at hand: the key resolves exactly when it has a single
      version and that is the manifest's. */
  lemma ResolvesIffSingle(rows: seq<Observation<Row>>, key: Key, content: Row, group: seq<nat>)
    requires Versions(rows, key, group)
    ensures forall v :: 0 <= v < |group| ==> group[v] < |rows|
    ensures Resolves(rows, key, content) <==> |group| == 1 && rows[group[0]].content == content
  {
    assert |group| > 1 ==> group[0] < group[1];
    if Resolves(rows, key, content) {
      var i :| 0 <= i < |rows| && rows[i] == Observation(LANE, key, content);
      assert i in group;
      forall v | 0 <= v < |group| ensures group[v] == i { assert rows[group[v]] == Observation(LANE, key, content); }
    } else if |group| == 1 {
      assert forall i :: 0 <= i < |rows| && rows[i].lane == LANE && rows[i].key == key ==> i == group[0];
    }
  }

  /** One row per manifest key, in key order, or nothing when some key does not resolve. */
  method CurrentObservations(rows: seq<Observation<Row>>, hashes: map<Key, Row>) returns (ids: Option<seq<nat>>)
    ensures ids.Some? <==> forall key :: key in hashes ==> Resolves(rows, key, hashes[key])
    ensures ids.Some? ==> exists keys :: ListedBy(rows, LANE, hashes, ids.value, keys)
  {
    hide Resolves, VersionsOf;
    var versions := VersionsByKey(rows);
    var keys := KeysOf(hashes);
    var sorted := Sort(keys);
    SortSorts(keys);
    NoRepeatsIsMultiset(keys, sorted);
    var found: seq<nat> := [];
    for i := 0 to |sorted|
      invariant |found| == i
      invariant forall j :: 0 <= j < i ==> sorted[j] in hashes && Resolves(rows, sorted[j], hashes[sorted[j]])
                                           && found[j] < |rows| && rows[found[j]] == Observation(LANE, sorted[j], hashes[sorted[j]])
    {
      assert sorted[i] in sorted;
      var one := Pick(rows, sorted[i], hashes[sorted[i]], versions);
      if one.None? { return None; }
      found := found + [one.value];
    }
    assert ListedBy(rows, LANE, hashes, found, sorted);
    ids := Some(found);
  }

  /** On a producer's store every manifest entry is stored, once; so the import resolves the whole
      manifest exactly when no older version is stored under any of its keys. */
  lemma ManifestResolvesIff(db: AlioDb, attempts: seq<Attempt<Directory, Report>>)
    requires LANE !in db.checkpoints && NoRepeats(db.rows) && forall a :: a in attempts ==> Draws(a.world, Named())
    requires CompleteItem4Run(Chain(AlioLane(), db, attempts)).Some?
    ensures var after := Chain(AlioLane(), db, attempts);
            var hashes := CompleteItem4Run(after).value.hashes;
            (forall key :: key in hashes ==> Resolves(after.rows, key, hashes[key]))
            <==> forall i :: 0 <= i < |after.rows| && after.rows[i].lane == LANE && after.rows[i].key in hashes ==>
                   after.rows[i].content == hashes[after.rows[i].key]
  {
    hide Enumerate, Replay, Sourced, CoversDirectory;
    var history := ChainIsDescribed(AlioLane(), db, attempts, Named());
    var after := Chain(AlioLane(), db, attempts);
    var hashes, u := CompleteItem4Run(after).value.hashes, after.checkpoints[LANE].meta.universe;
    ManifestAtEveryCursor(u, history);
    var noted := Replay(AlioLane(), u, history).value.noted;
    forall key | key in hashes ensures Observation(LANE, key, hashes[key]) in after.rows {
      var i :| 0 <= i < |noted| && noted[i] == (key, hashes[key]);
    }
  }

  // ---------------------------------------------------------------- interruptions do not matter

  lemma AlioIsRepeatable(u: Directory, items: Items<Report>)
    ensures Repeatable(AlioLane(), u, items)
  {
    hide AlioStep;
    forall c: nat, s: AlioState ensures AlioStep(u, c, s, items(c)).Some? ==> AlioStep(u, c, s, items(c)).value.leading == 0 {
      NoLeading(u, c, s, items(c));
    }
    SingleCommitsRepeat(AlioLane(), u, items);
  }

  /** Against an unchanged provider, the manifest the import reads after any interrupted and
      resumed sequence of runs that it accepts is the one a single uninterrupted run leaves. */
  lemma ImportIgnoresInterruptions(u: Directory, items: Items<Report>, db: AlioDb, attempts: seq<Attempt<Directory, Report>>)
    requires LANE !in db.checkpoints && forall p: nat :: items(p).Current? ==> !Blank(items(p).disclosure)
    requires forall a :: a in attempts ==> Serves(u, items, a.world) && Draws(a.world, Named())
    requires CompleteItem4Run(Chain(AlioLane(), db, attempts)).Some?
    ensures CompleteItem4Run(Enumerate(AlioLane(), db, false, None, Smooth(u, items)).db) == CompleteItem4Run(Chain(AlioLane(), db, attempts))
  {
    hide Enumerate, Drive, Course, Stored, CoversDirectory, Describes, Repeatable;
    var single := [Attempt(false, None, Smooth(u, items))];
    var after, v := Chain(AlioLane(), db, attempts), Enumerate(AlioLane(), db, false, None, Smooth(u, items));
    assert single[..0] == [] && Chain(AlioLane(), db, single) == v.db;
    AlioIsRepeatable(u, items);
    AcceptedIsCovered(after);
    var _ := StartedIsServed(AlioLane(), u, items, db, attempts);
    EndIsPassed(AlioLane(), u, items, db, attempts);
    CrashResumeEquivalence(AlioLane(), u, items, db, attempts);
    ProducerMeetsConsumer(db, single);
    LastRunIsSuccess(u, items, db);
  }

  lemma AcceptedIsCovered(after: AlioDb)
    requires CompleteItem4Run(after).Some?
    ensures var ck := after.checkpoints[LANE]; ck.cursor == |ck.meta.universe| > 0 && Covered(ck.meta.universe, ck.meta.state)
  {
  }

  /** The uninterrupted run's checkpoint names that run, whose receipt says SUCCESS. */
  lemma LastRunIsSuccess(u: Directory, items: Items<Report>, db: AlioDb)
    requires LANE !in db.checkpoints && Passes(AlioLane(), u, items)
    requires Enumerate(AlioLane(), db, false, None, Smooth(u, items)).ending.Complete?
    ensures var v := Enumerate(AlioLane(), db, false, None, Smooth(u, items)).db;
            LANE in v.checkpoints && v.checkpoints[LANE].lastRun == |db.runs| < |v.runs| && v.runs[|db.runs|].status.Success?
  {
    hide Enumerate, Describes, Course, Stored;
    assert |u| > 0;
    RunSails(AlioLane(), u, items, db, false, 0, None);
    SmoothServes(u, items);
    NothingDescribed(AlioLane(), db, Only(u, items));
    var _ := RunIsSafe(AlioLane(), db, Attempt(false, None, Smooth(u, items)), Only(u, items), []);
  }

  // ---------------------------------------------------------------- one institution

  const ONE_INSTITUTION: Directory := [Institution("C1", "one", "type")]

  /** The institution's one report, with one executive row. */
  function ReportsOne(details: string): Items<Report> {
    (p: nat) => Current("100", "t", [Filed("100:1", Some("p"), details)])
  }

  function OneRow(details: string): Row { Executive(ONE_INSTITUTION[0], "100", Some("p"), details) }

  function OneRun(details: string): Attempt<Directory, Report> {
    Attempt(false, None, Smooth(ONE_INSTITUTION, ReportsOne(details)))
  }

  /** What a fresh uninterrupted run leaves, on whatever the lane held: its checkpoint is
      successful and its manifest is the report's row, which is stored. */
  lemma OneRunLeaves(db: AlioDb, history: seq<Event<Report>>, details: string)
    requires Describes(AlioLane(), db, Named(), history)
    ensures var w := Enumerate(AlioLane(), db, false, None, OneRun(details).world).db;
            && LANE in w.checkpoints && w.checkpoints[LANE].lastRun == |db.runs| < |w.runs| && w.runs[|db.runs|].status.Success?
            && w.checkpoints[LANE].meta.state.hashes == map["100:1" := OneRow(details)]
            && db.rows <= w.rows && Observation(LANE, "100:1", OneRow(details)) in w.rows
  {
    hide Enumerate, Describes, Course, Keyed, Named;
    var u := ONE_INSTITUTION;
    OneRowSails(details);
    RunSails(AlioLane(), u, ReportsOne(details), db, false, 0, None);
    DrawsNamed(details);
    var longer := RunIsSafe(AlioLane(), db, OneRun(details), Named(), history);
    var w := Enumerate(AlioLane(), db, false, None, OneRun(details).world).db;
    OneRowIsStored(w, longer, details);
  }

  lemma OneRowIsStored(w: AlioDb, history: seq<Event<Report>>, details: string)
    requires Describes(AlioLane(), w, Named(), history) && LANE in w.checkpoints
    requires w.checkpoints[LANE].meta.state.hashes == map["100:1" := OneRow(details)]
    ensures Observation(LANE, "100:1", OneRow(details)) in w.rows
  {
    hide Replay, Sourced;
    var u := w.checkpoints[LANE].meta.universe;
    ManifestAtEveryCursor(u, history);
    var at := Replay(AlioLane(), u, history).value;
    assert "100:1" in at.state.hashes && ("100:1", OneRow(details)) in at.noted;
  }

  lemma DrawsNamed(details: string)
    ensures Draws(OneRun(details).world, Named())
  {
    assert !Blank("100") by { assert !IsSpace("100"[0]); }
  }

  lemma OneRowSails(details: string)
    ensures Sails(AlioLane(), ONE_INSTITUTION, ReportsOne(details))
    ensures Course(AlioLane(), ONE_INSTITUTION, ReportsOne(details), 1).value.state.hashes == map["100:1" := OneRow(details)]
  {
    var u := ONE_INSTITUTION;
    var rows := ExecutiveRows(u[0], "100", [Filed("100:1", Some("p"), details)]);
    assert rows == [("100:1", OneRow(details))] && rows[..0] == [];
    assert Keyed(rows) == map["100:1" := OneRow(details)];
    assert !Blank(u[0].code) by { assert !IsSpace(u[0].code[0]); }
    var m: map<string, Code> := map["100" := "C1"];
    assert m.Values == {"C1"} by { assert m["100"] == "C1"; assert "C1" in m.Values; }
    assert CodesOf(u) == {"C1"};
    assert Course(AlioLane(), u, ReportsOne(details), 0) == Some(Place(0, AlioLane().init, []));
    assert AlioStep(u, 0, AlioLane().init, ReportsOne(details)(0)).Some?;
  }

  lemma EmptyIsDescribed()
    ensures Describes(AlioLane(), Db([], map[], []), Named(), [])
  {
  }

  /** One institution with one executive row: an uninterrupted run is accepted by the import, its
      manifest is that row, and the row resolves. */
  lemma OneRowIsImported(details: string)
    ensures var db := Enumerate(AlioLane(), Db([], map[], []), false, None, OneRun(details).world).db;
            && CompleteItem4Run(db).Some? && CompleteItem4Run(db).value.hashes == map["100:1" := OneRow(details)]
            && Observation(LANE, "100:1", OneRow(details)) in db.rows
  {
    hide Enumerate, CoversDirectory, Describes, Draws;
    var empty: AlioDb := Db([], map[], []);
    EmptyIsDescribed();
    OneRunLeaves(empty, [], details);
    assert [OneRun(details)][..0] == [];
    assert Chain(AlioLane(), empty, [OneRun(details)]) == Enumerate(AlioLane(), empty, false, None, OneRun(details).world).db;
    DrawsNamed(details);
    ProducerMeetsConsumer(empty, [OneRun(details)]);
  }

  /** A revised row: two fresh runs read the same report, and its row differs in the second.  The
      import accepts the checkpoint that the second run left, and then cannot resolve the row. */
  lemma RevisedRowIsRefused(before: string, after: string)
    requires before != after
    ensures var first := Enumerate(AlioLane(), Db([], map[], []), false, None, OneRun(before).world).db;
            var db := Enumerate(AlioLane(), first, false, None, OneRun(after).world).db;
            && CompleteItem4Run(db).Some? && CompleteItem4Run(db).value.hashes == map["100:1" := OneRow(after)]
            && !Resolves(db.rows, "100:1", OneRow(after))
  {
    hide Enumerate, CoversDirectory, Describes, Draws;
    var empty: AlioDb, runs := Db([], map[], []), [OneRun(before), OneRun(after)];
    EmptyIsDescribed();
    OneRunLeaves(empty, [], before);
    DrawsNamed(before);
    DrawsNamed(after);
    assert runs[..1] == [OneRun(before)] && runs[..1][..0] == [];
    var first := Enumerate(AlioLane(), empty, false, None, OneRun(before).world).db;
    assert Chain(AlioLane(), empty, runs[..1]) == first;
    var history := ChainIsDescribed(AlioLane(), empty, runs[..1], Named());
    OneRunLeaves(first, history, after);
    assert Chain(AlioLane(), empty, runs) == Enumerate(AlioLane(), first, false, None, OneRun(after).world).db;
    ProducerMeetsConsumer(empty, runs);
    var rows := Chain(AlioLane(), empty, runs).rows;
    var i :| 0 <= i < |first.rows| && first.rows[i] == Observation(LANE, "100:1", OneRow(before));
    assert rows[i] == Observation(LANE, "100:1", OneRow(before));
  }

  // ---------------------------------------------------------------- runs of the lane

  /** Without a checkpoint a resume opens no run. */
  lemma ResumeWithoutCheckpoint(db: AlioDb, budget: Option<nat>, world: World<Directory, Report>)
    requires LANE !in db.checkpoints
    ensures Enumerate(AlioLane(), db, true, budget, world) == Written(db, Raised, 0)
  {
    hide Enumerate;
    WithoutCheckpoint(AlioLane(), db, budget, world);
  }

  /** An uninterrupted run makes one commit for the directory and one for each institution. */
  lemma UninterruptedCommits(u: Directory, items: Items<Report>, db: AlioDb)
    requires Passes(AlioLane(), u, items)
    ensures Enumerate(AlioLane(), db, false, None, Smooth(u, items)).commits == |u| + 1
  {
    hide Enumerate, Course, AlioStep, CommitsThrough;
    forall c: nat, s: AlioState ensures AlioStep(u, c, s, items(c)).Some? ==> AlioStep(u, c, s, items(c)).value.leading == 0 {
      NoLeading(u, c, s, items(c));
    }
    assert |u| > 0;
    RunSails(AlioLane(), u, items, db, false, 0, None);
    SingleCommitsCount(AlioLane(), u, items, |u|);
    NoCommitsYet(AlioLane(), u, items);
  }
}
