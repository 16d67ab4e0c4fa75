/** Public-institution executives: each institution of the directory has no current disclosure,
    a correction-only one, or one with executive rows.  The checkpoint's manifest is what the
    claim import later consumes. */
module Alio {
  import opened Prelude
  import opened Store
  import opened CursorLane
  import opened CursorSafety
  import opened Text

  type Code = string

  datatype Institution = Institution(code: Code, name: string, classification: string)

  /** A stored observation, identified with its content hash. */
  datatype Row = Executive(institution: Institution, disclosure: string, person: Option<string>, details: string)
               | CorrectionOnly(institution: Institution, disclosure: string, title: string)

  datatype Filed = Filed(key: Key, person: Option<string>, details: string)

  /** What the provider returns for one institution. */
  datatype Report = NoCurrent | Current(disclosure: string, title: string, filed: seq<Filed>)

  datatype AlioState = AlioState(hashes: map<Key, Row>, disclosures: map<string, Code>, noCurrent: set<Code>)

  type Directory = seq<Institution>
  type AlioRules = Rules<Directory, AlioState, Report, Row>
  type AlioDb = CursorDb<Directory, AlioState, Row>

  const LANE := Lane("alio_public_institution_executives", "item_4_current_all_institutions")
  const CONTRACT: map<string, string> := map["source_contract" := "alio_item_4_current_executive_roster"]

  predicate AcceptsDirectory(u: Directory) {
    && |u| > 0 && (forall i | 0 <= i < |u| :: !Blank(u[i].code))
    && (forall i, j | 0 <= i < j < |u| :: u[i].code != u[j].code)
  }

  /** Reads the directory rows; a blank or repeated code or a wrong total fails.  An empty
      directory is read, and refused only by the lane. */
  method ParseDirectory(rows: seq<Institution>, total: int) returns (r: Option<Directory>)
    ensures r.Some? <==> (rows == [] || AcceptsDirectory(rows)) && total == |rows|
    ensures r.Some? ==> r.value == rows
  {
    var seen: set<Code> := {};
    for i := 0 to |rows|
      invariant forall j :: 0 <= j < i ==> !Blank(rows[j].code) && rows[j].code in seen
      invariant forall code :: code in seen ==> exists j :: 0 <= j < i && rows[j].code == code
      invariant forall j, l :: 0 <= j < l < i ==> rows[j].code != rows[l].code
    {
      if Blank(rows[i].code) || rows[i].code in seen { return None; }
      seen := seen + {rows[i].code};
    }
    r := if total == |rows| then Some(rows) else None;
  }

  predicate FreshKeys(hashes: map<Key, Row>, filed: seq<Filed>) {
    && (forall i | 0 <= i < |filed| :: filed[i].key !in hashes)
    && (forall i, j | 0 <= i < j < |filed| :: filed[i].key != filed[j].key)
  }

  function ExecutiveRows(inst: Institution, disclosure: string, filed: seq<Filed>): seq<(Key, Row)> {
    seq(|filed|, i requires 0 <= i < |filed| => (filed[i].key, Executive(inst, disclosure, filed[i].person, filed[i].details)))
  }

  function CorrectionKey(disclosure: string): Key { disclosure + ":report" }

  /** The three branches of one institution. */
  function AlioStep(u: Directory, pos: nat, s: AlioState, report: Report): Option<Accepted<AlioState, Row>> {
    if pos >= |u| then None
    else
      var inst := u[pos];
      match report
      case NoCurrent =>
        if inst.code in s.noCurrent then None
        else Some(Accepted(0, s.(noCurrent := s.noCurrent + {inst.code}), []))
      case Current(disclosure, title, filed) =>
        if disclosure in s.disclosures then None
        else if filed == [] then
          Some(Accepted(0, s.(disclosures := s.disclosures[disclosure := inst.code]),
                        [(CorrectionKey(disclosure), CorrectionOnly(inst, disclosure, title))]))
        else if FreshKeys(s.hashes, filed) then
          var rows := ExecutiveRows(inst, disclosure, filed);
          Some(Accepted(0, s.(hashes := s.hashes + Keyed(rows), disclosures := s.disclosures[disclosure := inst.code]), rows))
        else None
  }

  function CodesOf(u: Directory): set<Code> { set i | 0 <= i < |u| :: u[i].code }

  predicate Covered(u: Directory, s: AlioState) {
    && s.disclosures.Values + s.noCurrent == CodesOf(u)
    && s.disclosures.Values * s.noCurrent == {}
  }

  function AlioLane(): AlioRules {
    Rules(LANE, CONTRACT, RefusedBeforeRun, AcceptsDirectory, (u: Directory) => |u|, (u: Directory) => 1,
          AlioState(map[], map[], {}), AlioStep, (c: nat, s: AlioState) => true, Covered)
  }

  /** The hashes of one report, or nothing when a row key repeats. */
  method HashReport(hashes: map<Key, Row>, inst: Institution, disclosure: string, filed: seq<Filed>) returns (page: Option<map<Key, Row>>)
    ensures page.Some? <==> FreshKeys(hashes, filed)
    ensures page.Some? ==> page.value == Keyed(ExecutiveRows(inst, disclosure, filed))
  {
    hide ExecutiveRows, Keyed, FreshKeys;
    var found: map<Key, Row> := map[];
    NoRowsYet(hashes, inst, disclosure, filed);
    for i := 0 to |filed|
      invariant FreshKeys(hashes, filed[..i])
      invariant found == Keyed(ExecutiveRows(inst, disclosure, filed[..i]))
    {
      var x := filed[i];
      OneMoreRow(hashes, inst, disclosure, filed, i);
      if x.key in found || x.key in hashes { return None; }
      found := found[x.key := Executive(inst, disclosure, x.person, x.details)];
    }
    assert filed[..|filed|] == filed;
    page := Some(found);
  }

  lemma NoRowsYet(hashes: map<Key, Row>, inst: Institution, disclosure: string, filed: seq<Filed>)
    ensures FreshKeys(hashes, filed[..0]) && Keyed(ExecutiveRows(inst, disclosure, filed[..0])) == map[]
  {
  }

  lemma OneMoreRow(hashes: map<Key, Row>, inst: Institution, disclosure: string, filed: seq<Filed>, i: nat)
    requires i < |filed| && FreshKeys(hashes, filed[..i])
    ensures var x, found := filed[i], Keyed(ExecutiveRows(inst, disclosure, filed[..i]));
            && (FreshKeys(hashes, filed[..i + 1]) <==> x.key !in found && x.key !in hashes)
            && (FreshKeys(hashes, filed) ==> x.key !in found && x.key !in hashes)
            && Keyed(ExecutiveRows(inst, disclosure, filed[..i + 1])) == found[x.key := Executive(inst, disclosure, x.person, x.details)]
  {
    var x, rows, init := filed[i], ExecutiveRows(inst, disclosure, filed[..i + 1]), ExecutiveRows(inst, disclosure, filed[..i]);
    assert rows[..i] == init && rows[i] == (x.key, Executive(inst, disclosure, x.person, x.details));
    KeyedKeys(init, x.key);
    assert x.key in Keyed(init) <==> exists j :: 0 <= j < i && filed[j].key == x.key by {
      if j :| 0 <= j < i && filed[j].key == x.key { assert init[j].0 == x.key; }
      if x.key in Keyed(init) {
        var j :| 0 <= j < |init| && init[j] == (x.key, Keyed(init)[x.key]);
        assert filed[j].key == x.key;
      }
    }
  }

  // ---------------------------------------------------------------- the partition

  /** Institutions before the cursor are split between an injective disclosure map and the
      no-current set, and nothing else is in either. */
  ghost predicate Partition(u: Directory, c: nat, s: AlioState) {
    && c <= |u|
    && s.disclosures.Values + s.noCurrent == CodesOf(u[..c])
    && s.disclosures.Values !! s.noCurrent
    && |s.disclosures.Values| == |s.disclosures|
    && |s.disclosures| + |s.noCurrent| == c
  }

  lemma CodesGrow(u: Directory, c: nat)
    requires AcceptsDirectory(u) && c < |u|
    ensures CodesOf(u[..c + 1]) == CodesOf(u[..c]) + {u[c].code} && u[c].code !in CodesOf(u[..c])
  {
    assert forall i :: 0 <= i < c ==> u[..c + 1][i] == u[..c][i];
    assert u[..c + 1][c].code in CodesOf(u[..c + 1]);
  }

  lemma ValuesGrow(m: map<string, Code>, key: string, v: Code)
    requires key !in m && v !in m.Values
    ensures m[key := v].Values == m.Values + {v} && |m[key := v].Values| == |m.Values| + 1 && |m[key := v]| == |m| + 1
  {
    var next := m[key := v];
    assert key in next.Keys;
    forall x | x in m.Values ensures x in next.Values {
      var k :| k in m && m[k] == x;
      assert k in next && next[k] == x;
    }
    assert next.Keys == m.Keys + {key};
  }

  lemma StepPartitions(u: Directory, c: nat, s: AlioState, report: Report)
    requires AcceptsDirectory(u) && c < |u| && Partition(u, c, s) && AlioStep(u, c, s, report).Some?
    ensures Partition(u, c + 1, AlioStep(u, c, s, report).value.after)
  {
    hide Keyed, FreshKeys, ExecutiveRows, Partition;
    if report.Current? {
      DisclosureJoins(u, c, s, report.disclosure);
      HashesDoNotMatter(u, c + 1, s.(disclosures := s.disclosures[report.disclosure := u[c].code]), AlioStep(u, c, s, report).value.after);
    } else {
      NoCurrentJoins(u, c, s);
    }
  }

  lemma HashesDoNotMatter(u: Directory, c: nat, s: AlioState, t: AlioState)
    requires Partition(u, c, s) && t.disclosures == s.disclosures && t.noCurrent == s.noCurrent
    ensures Partition(u, c, t)
  {
  }

  lemma PartsJoin(left: set<Code>, right: set<Code>, whole: set<Code>, code: Code)
    requires left + right == whole && left !! right && code !in whole
    ensures (left + {code}) + right == whole + {code} && (left + {code}) !! right && |left + {code}| == |left| + 1
    ensures left + (right + {code}) == whole + {code} && left !! (right + {code}) && |right + {code}| == |right| + 1
  {
  }

  lemma NoCurrentJoins(u: Directory, c: nat, s: AlioState)
    requires AcceptsDirectory(u) && c < |u| && Partition(u, c, s)
    ensures Partition(u, c + 1, s.(noCurrent := s.noCurrent + {u[c].code}))
  {
    hide CodesOf, AcceptsDirectory;
    CodesGrow(u, c);
    PartsJoin(s.disclosures.Values, s.noCurrent, CodesOf(u[..c]), u[c].code);
  }

  lemma DisclosureJoins(u: Directory, c: nat, s: AlioState, disclosure: string)
    requires AcceptsDirectory(u) && c < |u| && Partition(u, c, s) && disclosure !in s.disclosures
    ensures Partition(u, c + 1, s.(disclosures := s.disclosures[disclosure := u[c].code]))
  {
    hide CodesOf, AcceptsDirectory;
    CodesGrow(u, c);
    PartsJoin(s.disclosures.Values, s.noCurrent, CodesOf(u[..c]), u[c].code);
    ValuesGrow(s.disclosures, disclosure, u[c].code);
  }

  /** At every committed cursor, through any fresh runs and resumes, the codes before the cursor
      are partitioned.  So the duplicate-no-current check never fires, and at the last institution
      the coverage check passes. */
  lemma {:induction false} PartitionAtEveryCursor(u: Directory, history: seq<Event<Report>>)
    requires AcceptsDirectory(u) && Replay(AlioLane(), u, history).Some?
    ensures var at := Replay(AlioLane(), u, history).value;
            && Partition(u, at.cursor, at.state)
            && (at.cursor < |u| ==> u[at.cursor].code !in at.state.noCurrent)
            && (at.cursor == |u| ==> Covered(u, at.state))
  {
    hide AlioStep, Partition, AcceptsDirectory;
    if history == [] {
      NothingToPartition(u);
    } else {
      var n := |history| - 1;
      PartitionAtEveryCursor(u, history[..n]);
      var before := Replay(AlioLane(), u, history[..n]).value;
      NoLeading(u, before.cursor, before.state, history[n].item);
      StepPartitions(u, before.cursor, before.state, history[n].item);
    }
    PartitionReads(u, Replay(AlioLane(), u, history).value.cursor, Replay(AlioLane(), u, history).value.state);
  }

  lemma NothingToPartition(u: Directory)
    ensures Partition(u, 0, AlioState(map[], map[], {}))
  {
    assert AlioLane().init.disclosures.Values == {};
  }

  lemma PartitionReads(u: Directory, c: nat, s: AlioState)
    requires AcceptsDirectory(u) && Partition(u, c, s)
    ensures c < |u| ==> u[c].code !in s.noCurrent
    ensures c == |u| ==> Covered(u, s)
  {
    if c < |u| { CodesGrow(u, c); } else { assert u[..|u|] == u; }
  }

  lemma NoLeading(u: Directory, pos: nat, s: AlioState, report: Report)
    ensures AlioStep(u, pos, s, report).Some? ==> AlioStep(u, pos, s, report).value.leading == 0
  {
  }

  /** The coverage check after the loop cannot fail: a run that reaches the last institution
      without being cut off is SUCCESS. */
  lemma CoverageNeverFails(u: Directory, history: seq<Event<Report>>, db: AlioDb, run: nat, budget: Option<nat>, world: World<Directory, Report>, n: nat)
    requires AcceptsDirectory(u) && Replay(AlioLane(), u, history).Some? && Replay(AlioLane(), u, history).value.cursor == |u|
    requires Open(db, run, LANE)
    ensures var at := Replay(AlioLane(), u, history).value;
            Drive(AlioLane(), u, db, run, at.cursor, at.state, budget, world, n).ending.Complete?
  {
    PartitionAtEveryCursor(u, history);
  }

  // ---------------------------------------------------------------- the manifest

  /** The manifest is exactly the executive rows observed so far, each filed under a disclosure of
      the institution it names; correction-only rows are stored but never in it. */
  ghost predicate ManifestIsExecutives(u: Directory, at: Place<AlioState, Row>) {
    && (forall key :: key in at.state.hashes ==>
          var row := at.state.hashes[key];
          && (key, row) in at.noted && row.Executive? && row.institution in u
          && row.disclosure in at.state.disclosures && at.state.disclosures[row.disclosure] == row.institution.code)
    && (forall i :: 0 <= i < |at.noted| ==>
          var (key, row) := at.noted[i];
          if row.Executive? then key in at.state.hashes && at.state.hashes[key] == row else key == CorrectionKey(row.disclosure))
  }

  lemma StepKeepsManifest(u: Directory, at: Place<AlioState, Row>, report: Report)
    requires ManifestIsExecutives(u, at) && at.cursor < |u| && AlioStep(u, at.cursor, at.state, report).Some?
    ensures ManifestIsExecutives(u, Next(AlioLane(), u, at, Event(report, true)).value)
  {
    hide Keyed, FreshKeys, ExecutiveRows, ManifestIsExecutives, CorrectionKey;
    var a := AlioStep(u, at.cursor, at.state, report).value;
    match report
    case NoCurrent => ManifestSame(u, at, a.after);
    case Current(disclosure, title, filed) =>
      if filed == [] {
        ManifestCorrection(u, at, disclosure, title);
      } else {
        ManifestRows(u, at, disclosure, filed);
      }
  }

  lemma ManifestSame(u: Directory, at: Place<AlioState, Row>, s: AlioState)
    requires ManifestIsExecutives(u, at) && at.cursor < |u|
    requires s.hashes == at.state.hashes && s.disclosures == at.state.disclosures
    ensures ManifestIsExecutives(u, Place(at.cursor + 1, s, at.noted + []))
  {
    assert at.noted + [] == at.noted;
  }

  lemma ManifestCorrection(u: Directory, at: Place<AlioState, Row>, disclosure: string, title: string)
    requires ManifestIsExecutives(u, at) && at.cursor < |u| && disclosure !in at.state.disclosures
    ensures var inst := u[at.cursor];
            ManifestIsExecutives(u, Place(at.cursor + 1, at.state.(disclosures := at.state.disclosures[disclosure := inst.code]),
                                          at.noted + [(CorrectionKey(disclosure), CorrectionOnly(inst, disclosure, title))]))
  {
    hide CorrectionKey;
  }

  lemma ManifestRows(u: Directory, at: Place<AlioState, Row>, disclosure: string, filed: seq<Filed>)
    requires ManifestIsExecutives(u, at) && at.cursor < |u| && disclosure !in at.state.disclosures
    requires FreshKeys(at.state.hashes, filed)
    ensures var inst := u[at.cursor]; var rows := ExecutiveRows(inst, disclosure, filed);
            ManifestIsExecutives(u, Place(at.cursor + 1, at.state.(hashes := at.state.hashes + Keyed(rows),
                                                                   disclosures := at.state.disclosures[disclosure := inst.code]), at.noted + rows))
  {
    hide Keyed, CorrectionKey;
    var inst := u[at.cursor];
    var rows := ExecutiveRows(inst, disclosure, filed);
    var s := at.state.(hashes := at.state.hashes + Keyed(rows), disclosures := at.state.disclosures[disclosure := inst.code]);
    KeyedHolds(rows);
    forall key | key in s.hashes
      ensures (key, s.hashes[key]) in at.noted + rows && s.hashes[key].Executive? && s.hashes[key].institution in u
      ensures s.hashes[key].disclosure in s.disclosures && s.disclosures[s.hashes[key].disclosure] == s.hashes[key].institution.code
    {
      KeyedKeys(rows, key);
    }
    forall i | 0 <= i < |at.noted + rows|
      ensures var (key, row) := (at.noted + rows)[i];
              if row.Executive? then key in s.hashes && s.hashes[key] == row else key == CorrectionKey(row.disclosure)
    {
      if i < |at.noted| {
        var key := at.noted[i].0;
        KeyedKeys(rows, key);
      }
    }
  }

  lemma {:induction false} ManifestAtEveryCursor(u: Directory, history: seq<Event<Report>>)
    requires Replay(AlioLane(), u, history).Some?
    ensures ManifestIsExecutives(u, Replay(AlioLane(), u, history).value)
  {
    hide AlioStep, ManifestIsExecutives;
    if history == [] {
      EmptyManifest(u);
    } else {
      var n := |history| - 1;
      ManifestAtEveryCursor(u, history[..n]);
      var before := Replay(AlioLane(), u, history[..n]).value;
      NoLeading(u, before.cursor, before.state, history[n].item);
      StepKeepsManifest(u, before, history[n].item);
    }
  }

  lemma EmptyManifest(u: Directory)
    ensures ManifestIsExecutives(u, Place(0, AlioState(map[], map[], {}), []))
  {
  }

  // ---------------------------------------------------------------- what a report leaves

  /** A report is accepted exactly when its disclosure is new and its row keys are distinct and new;
      an institution without a current disclosure is always accepted. */
  lemma ReportIsAcceptedIff(u: Directory, history: seq<Event<Report>>, report: Report)
    requires AcceptsDirectory(u) && Replay(AlioLane(), u, history).Some?
    ensures var at := Replay(AlioLane(), u, history).value;
            Next(AlioLane(), u, at, Event(report, true)).Some? <==>
              && at.cursor < |u|
              && (report.Current? ==>
                    && report.disclosure !in at.state.disclosures
                    && (forall i :: 0 <= i < |report.filed| ==> report.filed[i].key !in at.state.hashes)
                    && (forall i, j :: 0 <= i < j < |report.filed| ==> report.filed[i].key != report.filed[j].key))
  {
    hide Replay, Partition, AcceptsDirectory, ExecutiveRows;
    PartitionAtEveryCursor(u, history);
  }

  function FiledRows(history: seq<Event<Report>>): seq<nat> {
    seq(|history|, i requires 0 <= i < |history| => if history[i].item.Current? then |history[i].item.filed| else 0)
  }

  function NotedRows(history: seq<Event<Report>>): seq<nat> {
    seq(|history|, i requires 0 <= i < |history| =>
      if history[i].item.NoCurrent? then 0 else if history[i].item.filed == [] then 1 else |history[i].item.filed|)
  }

  /** Report by report: every filed row is observed and in the manifest under its own key, with its
      institution, disclosure, person and details; a current report without rows is observed as a
      correction; the disclosure or the missing one is recorded for the institution; and neither
      observations nor manifest hold anything else. */
  ghost predicate ReportsObserved(u: Directory, history: seq<Event<Report>>, at: Place<AlioState, Row>) {
    && at.cursor == |history| <= |u|
    && |at.noted| == Total(NotedRows(history)) && |at.state.hashes| == Total(FiledRows(history))
    && forall i :: 0 <= i < |history| ==> ReportObserved(u[i], history[i].item, at)
  }

  ghost predicate ReportObserved(inst: Institution, report: Report, at: Place<AlioState, Row>) {
    match report
    case NoCurrent => inst.code in at.state.noCurrent
    case Current(d, t, filed) =>
      && d in at.state.disclosures && at.state.disclosures[d] == inst.code
      && (filed == [] ==> (d + ":report", CorrectionOnly(inst, d, t)) in at.noted)
      && forall j :: 0 <= j < |filed| ==>
           var row := Executive(inst, d, filed[j].person, filed[j].details);
           (filed[j].key, row) in at.noted && filed[j].key in at.state.hashes && at.state.hashes[filed[j].key] == row
  }

  lemma FiledRowsAre(inst: Institution, d: string, filed: seq<Filed>, hashes: map<Key, Row>)
    requires FreshKeys(hashes, filed)
    ensures var rows := ExecutiveRows(inst, d, filed);
            && |rows| == |filed| && |hashes + Keyed(rows)| == |hashes| + |filed| && Keyed(rows).Keys !! hashes.Keys
            && forall j :: 0 <= j < |filed| ==>
                 var row := Executive(inst, d, filed[j].person, filed[j].details);
                 (filed[j].key, row) in rows && filed[j].key in Keyed(rows) && Keyed(rows)[filed[j].key] == row
  {
    hide Keyed;
    var rows := ExecutiveRows(inst, d, filed);
    KeyedCard(rows);
    KeyedHolds(rows);
    assert forall j :: 0 <= j < |filed| ==> rows[j] == (filed[j].key, Executive(inst, d, filed[j].person, filed[j].details));
    forall key | key in Keyed(rows) ensures key !in hashes { KeyedKeys(rows, key); }
    var all := hashes + Keyed(rows);
    assert all.Keys == hashes.Keys + Keyed(rows).Keys;
    assert |all.Keys| == |hashes.Keys| + |Keyed(rows).Keys|;
  }

  /** `next` keeps what `at` recorded and records one more report, and no more than it. */
  ghost predicate Records(inst: Institution, at: Place<AlioState, Row>, report: Report, next: Place<AlioState, Row>) {
    && at.noted <= next.noted && at.state.noCurrent <= next.state.noCurrent && next.cursor == at.cursor + 1
    && (forall key :: key in at.state.hashes ==> key in next.state.hashes && next.state.hashes[key] == at.state.hashes[key])
    && (forall d :: d in at.state.disclosures ==> d in next.state.disclosures && next.state.disclosures[d] == at.state.disclosures[d])
    && ReportObserved(inst, report, next)
    && |next.noted| == |at.noted| + (if report.NoCurrent? then 0 else if report.filed == [] then 1 else |report.filed|)
    && |next.state.hashes| == |at.state.hashes| + if report.Current? then |report.filed| else 0
  }

  lemma ObservedStays(inst: Institution, report: Report, other: Institution, last: Report, at: Place<AlioState, Row>, next: Place<AlioState, Row>)
    requires ReportObserved(inst, report, at) && Records(other, at, last, next)
    ensures ReportObserved(inst, report, next)
  {
  }

  lemma StepRecords(u: Directory, at: Place<AlioState, Row>, report: Report)
    requires at.cursor < |u| && AlioStep(u, at.cursor, at.state, report).Some?
    ensures Records(u[at.cursor], at, report, Next(AlioLane(), u, at, Event(report, true)).value)
  {
    hide Keyed, ExecutiveRows, FreshKeys;
    if report.Current? && report.filed != [] { FiledRowsAre(u[at.cursor], report.disclosure, report.filed, at.state.hashes); }
  }

  lemma {:induction false} ReportsAreObserved(u: Directory, history: seq<Event<Report>>)
    requires Replay(AlioLane(), u, history).Some?
    ensures ReportsObserved(u, history, Replay(AlioLane(), u, history).value)
  {
    hide AlioStep, ReportsObserved;
    if history == [] {
      assert ReportsObserved(u, [], Place(0, AlioState(map[], map[], {}), [])) by { NothingReported(u); }
    } else {
      var n := |history| - 1;
      ReportsAreObserved(u, history[..n]);
      var before := Replay(AlioLane(), u, history[..n]).value;
      NoLeading(u, before.cursor, before.state, history[n].item);
      StepRecords(u, before, history[n].item);
      KeepsReports(u, history[..n], before, history[n].item, Replay(AlioLane(), u, history).value);
      assert history == history[..n] + [Event(history[n].item, true)];
    }
  }

  lemma KeepsReports(u: Directory, history: seq<Event<Report>>, at: Place<AlioState, Row>, report: Report, next: Place<AlioState, Row>)
    requires ReportsObserved(u, history, at) && at.cursor < |u| && Records(u[at.cursor], at, report, next)
    ensures ReportsObserved(u, history + [Event(report, true)], next)
  {
    hide ReportObserved, Total, NotedRows, FiledRows;
    var longer, n := history + [Event(report, true)], |history|;
    SumsGrow(history, report);
    forall i | 0 <= i < |longer| ensures ReportObserved(u[i], longer[i].item, next) {
      if i < n {
        assert longer[i] == history[i];
        ObservedStays(u[i], history[i].item, u[n], report, at, next);
      }
    }
  }

  lemma SumsGrow(history: seq<Event<Report>>, report: Report)
    ensures var longer := history + [Event(report, true)];
            && Total(NotedRows(longer)) == Total(NotedRows(history))
                                           + (if report.NoCurrent? then 0 else if report.filed == [] then 1 else |report.filed|)
            && Total(FiledRows(longer)) == Total(FiledRows(history)) + if report.Current? then |report.filed| else 0
  {
    var longer, n := history + [Event(report, true)], |history|;
    assert NotedRows(longer)[..n] == NotedRows(history) && FiledRows(longer)[..n] == FiledRows(history);
  }

  lemma NothingReported(u: Directory)
    ensures ReportsObserved(u, [], Place(0, AlioState(map[], map[], {}), []))
  {
  }

  /** After any sequence of runs the stored checkpoint is that of some accepted reports, one per
      institution before the cursor; all their rows are stored, and its manifest is exactly their
      executive rows. */
  lemma StoredReportsAreExact(db: AlioDb, attempts: seq<Attempt<Directory, Report>>) returns (history: seq<Event<Report>>, noted: seq<(Key, Row)>)
    requires LANE !in db.checkpoints
    ensures var after := Chain(AlioLane(), db, attempts);
            LANE in after.checkpoints ==>
              var ck := after.checkpoints[LANE];
              && ReportsObserved(ck.meta.universe, history, Place(ck.cursor, ck.meta.state, noted))
              && forall i :: 0 <= i < |noted| ==> Observation(LANE, noted[i].0, noted[i].1) in after.rows
  {
    hide Enumerate, Replay, Sourced, ReportsObserved, AcceptsDirectory;
    history := ChainIsDescribed(AlioLane(), db, attempts, (u, p: nat, report) => true);
    var after := Chain(AlioLane(), db, attempts);
    noted := [];
    if LANE in after.checkpoints {
      var u := after.checkpoints[LANE].meta.universe;
      ReportsAreObserved(u, history);
      noted := Replay(AlioLane(), u, history).value.noted;
    }
  }
}
