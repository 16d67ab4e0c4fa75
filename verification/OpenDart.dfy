/** Disclosed corporate executives: rows are keyed by corporation, receipt and the row's ordinal
    within its receipt, and two counters split the corporations covered so far. */
module OpenDart {
  import opened Prelude
  import opened Store
  import opened CursorLane
  import opened CursorSafety
  import opened CursorListing

  type Code = string

  datatype Corporation = Corporation(code: Code, facts: string)

  datatype Executive = Executive(corp: Code, receipt: string, details: string)

  datatype ExecutiveRow = ExecutiveRow(executive: Executive, ordinal: nat)

  datatype Coverage = Coverage(withRows: nat, withoutRows: nat, rows: nat)

  type Corporations = seq<Corporation>

  // ---------------------------------------------------------------- keys

  function Decimal(n: nat): string {
    if n < 10 then [('0' as int + n) as char] else Decimal(n / 10) + [('0' as int + n % 10) as char]
  }

  function KeyOf(corp: Code, receipt: string, ordinal: nat): Key {
    corp + ":" + receipt + ":" + Decimal(ordinal)
  }

  predicate ColonFree(s: string) { ':' !in s }

  /** The number a list of decimal digits stands for. */
  function NumberOf(digits: string): int {
    if digits == [] then 0 else 10 * NumberOf(digits[..|digits| - 1]) + (digits[|digits| - 1] as int - '0' as int)
  }

  lemma {:induction false} DecimalReads(n: nat)
    ensures NumberOf(Decimal(n)) == n
  {
    if n < 10 {
      assert Decimal(n)[..0] == [];
    } else {
      DecimalReads(n / 10);
      var digits := Decimal(n);
      assert digits[..|digits| - 1] == Decimal(n / 10) && digits[|digits| - 1] == ('0' as int + n % 10) as char;
    }
  }

  lemma {:induction false} DecimalIsInjective(a: nat, b: nat)
    requires Decimal(a) == Decimal(b)
    ensures a == b
  {
    DecimalLength(a);
    DecimalLength(b);
    if a >= 10 && b >= 10 {
      var x, y := Decimal(a), Decimal(b);
      assert x[..|x| - 1] == Decimal(a / 10) && y[..|y| - 1] == Decimal(b / 10);
      assert x[|x| - 1] == y[|y| - 1];
      DecimalIsInjective(a / 10, b / 10);
    } else if a < 10 && b < 10 {
      assert Decimal(a)[0] == Decimal(b)[0];
    }
  }

  lemma {:induction false} DecimalLength(n: nat)
    ensures |Decimal(n)| >= 1 && (|Decimal(n)| == 1 <==> n < 10)
  {
    if n >= 10 { DecimalLength(n / 10); }
  }

  lemma ColonSplits(a: string, x: string, b: string, y: string)
    requires ColonFree(a) && ColonFree(b) && a + ":" + x == b + ":" + y
    ensures a == b && x == y
  {
    var s, t := a + ":" + x, b + ":" + y;
    assert s[|a|] == ':' && t[|b|] == ':';
    assert s[..|a|] == a && t[..|b|] == b && s[|a| + 1..] == x && t[|b| + 1..] == y;
  }

  lemma {:induction false} DecimalIsColonFree(n: nat)
    ensures ColonFree(Decimal(n))
  {
    if n >= 10 { DecimalIsColonFree(n / 10); }
  }

  lemma LastColon(a: string, x: string)
    requires ColonFree(x)
    ensures var s := a + ":" + x; s[|a|] == ':' && s[..|a|] == a && s[|a| + 1..] == x && forall k :: |a| < k < |s| ==> s[k] != ':'
  {
    var s := a + ":" + x;
    forall k | |a| < k < |s| ensures s[k] == x[k - |a| - 1] {}
  }

  lemma LastColonSplits(a: string, x: string, b: string, y: string)
    requires ColonFree(x) && ColonFree(y) && a + ":" + x == b + ":" + y
    ensures a == b && x == y
  {
    LastColon(a, x);
    LastColon(b, y);
    assert |a| == |b|;
  }

  /** Under one code the provider key determines receipt and ordinal, colons or not. */
  lemma KeyTellsRow(c: Code, r: string, n: nat, q: string, m: nat)
    ensures KeyOf(c, r, n) == KeyOf(c, q, m) <==> r == q && n == m
  {
    if KeyOf(c, r, n) == KeyOf(c, q, m) {
      DecimalIsColonFree(n);
      DecimalIsColonFree(m);
      LastColonSplits(c + ":" + r, Decimal(n), c + ":" + q, Decimal(m));
      assert (c + ":" + r)[|c| + 1..] == r && (c + ":" + q)[|c| + 1..] == q;
      DecimalIsInjective(n, m);
    }
  }

  /** With colon-free codes the provider key determines all three parts. */
  lemma KeyIsInjective(c: Code, r: string, n: nat, d: Code, q: string, m: nat)
    requires ColonFree(c) && ColonFree(d)
    ensures KeyOf(c, r, n) == KeyOf(d, q, m) <==> c == d && r == q && n == m
  {
    assert KeyOf(c, r, n) == c + ":" + (r + ":" + Decimal(n)) && KeyOf(d, q, m) == d + ":" + (q + ":" + Decimal(m));
    if KeyOf(c, r, n) == KeyOf(d, q, m) {
      ColonSplits(c, r + ":" + Decimal(n), d, q + ":" + Decimal(m));
      KeyTellsRow(c, r, n, q, m);
    }
  }

  /** Neither code, with the colon after it, begins the other. */
  predicate Apart(c: Code, d: Code) { !(c + ":" <= d + ":") && !(d + ":" <= c + ":") }

  lemma PrefixesNest(a: string, b: string, s: string)
    requires a <= s && b <= s
    ensures a <= b || b <= a
  {
  }

  lemma SameKeyIsNotApart(c: Code, r: string, n: nat, d: Code, q: string, m: nat)
    requires KeyOf(c, r, n) == KeyOf(d, q, m)
    ensures !Apart(c, d)
  {
    PrefixesNest(c + ":", d + ":", KeyOf(c, r, n));
  }

  lemma PrefixSplits(c: Code, d: Code)
    requires c + ":" <= d + ":"
    ensures d == c || (|c| < |d| && d == c + ":" + d[|c| + 1..] && ':' in d)
  {
    assert (d + ":")[..|c| + 1] == c + ":";
    if |c| < |d| {
      assert d[..|c| + 1] == c + ":" && d == d[..|c| + 1] + d[|c| + 1..];
    } else {
      assert (d + ":")[..|c|] == (c + ":")[..|c|];
    }
  }

  /** Codes that are different and not apart have rows of one key: one code is the other followed
      by a colon and some rest, and a receipt can begin with that rest. */
  lemma OtherwiseKeysCollide(c: Code, d: Code, q: string, n: nat) returns (rest: string)
    requires c != d && c + ":" <= d + ":"
    ensures d == c + ":" + rest && KeyOf(c, rest + ":" + q, n) == KeyOf(d, q, n)
  {
    PrefixSplits(c, d);
    rest := d[|c| + 1..];
  }

  // ---------------------------------------------------------------- ordinals

  /** How many of the rows have the receipt. */
  function Occurs(records: seq<Executive>, receipt: string): nat {
    if records == [] then 0
    else Occurs(records[..|records| - 1], receipt) + (if records[|records| - 1].receipt == receipt then 1 else 0)
  }

  function Numbered(records: seq<Executive>): seq<(Key, ExecutiveRow)> {
    if records == [] then []
    else
      var n := |records| - 1;
      var r := records[n];
      var ordinal := Occurs(records[..n], r.receipt) + 1;
      Numbered(records[..n]) + [(KeyOf(r.corp, r.receipt, ordinal), ExecutiveRow(r, ordinal))]
  }

  /** Numbers the rows with one ordinal counter per receipt. */
  method RowsWithKeys(records: seq<Executive>) returns (keyed: seq<(Key, ExecutiveRow)>)
    ensures keyed == Numbered(records)
  {
    hide KeyOf;
    var ordinals: map<string, nat> := map[];
    keyed := [];
    for i := 0 to |records|
      invariant keyed == Numbered(records[..i])
      invariant forall receipt :: (if receipt in ordinals then ordinals[receipt] else 0) == Occurs(records[..i], receipt)
    {
      var r := records[i];
      assert records[..i + 1][..i] == records[..i];
      var ordinal := (if r.receipt in ordinals then ordinals[r.receipt] else 0) + 1;
      ordinals := ordinals[r.receipt := ordinal];
      keyed := keyed + [(KeyOf(r.corp, r.receipt, ordinal), ExecutiveRow(r, ordinal))];
    }
    assert records[..|records|] == records;
  }

  /** Row i's ordinal is the rank of its occurrence within its receipt. */
  lemma {:induction false} OrdinalsAreRanks(records: seq<Executive>)
    ensures |Numbered(records)| == |records|
    ensures forall i :: 0 <= i < |records| ==>
              var (key, row) := Numbered(records)[i];
              && row.executive == records[i] && row.ordinal == Occurs(records[..i + 1], records[i].receipt)
              && key == KeyOf(records[i].corp, records[i].receipt, row.ordinal)
              && 1 <= row.ordinal <= Occurs(records, records[i].receipt)
  {
    hide KeyOf;
    if records != [] {
      var n := |records| - 1;
      OrdinalsAreRanks(records[..n]);
      forall i | 0 <= i < n ensures Occurs(records[..i + 1], records[i].receipt) == Occurs(records[..n][..i + 1], records[..n][i].receipt) {
        assert records[..n][..i + 1] == records[..i + 1];
      }
      assert records[..n + 1] == records && records[..n + 1][..n] == records[..n];
    }
  }

  lemma {:induction false} OccursGrows(records: seq<Executive>, i: nat, j: nat, receipt: string)
    requires i <= j <= |records|
    ensures Occurs(records[..i], receipt) <= Occurs(records[..j], receipt)
  {
    if i < j {
      assert records[..j][..j - 1] == records[..j - 1];
      OccursGrows(records, i, j - 1, receipt);
    }
  }

  /** The occurrence count is the number of rows with the receipt. */
  lemma {:induction false} OccursIs(records: seq<Executive>, receipt: string)
    ensures Occurs(records, receipt) == |set i | 0 <= i < |records| && records[i].receipt == receipt|
  {
    var f := (r: Executive) => r.receipt == receipt;
    WhereStep(records, f);
    if records != [] {
      var rest := records[..|records| - 1];
      OccursIs(rest, receipt);
      assert Where(rest, f) == set i | 0 <= i < |rest| && rest[i].receipt == receipt;
    }
    assert Where(records, f) == set i | 0 <= i < |records| && records[i].receipt == receipt;
  }

  /** Two rows of one receipt never share an ordinal. */
  lemma OrdinalsAreDistinct(records: seq<Executive>, i: nat, j: nat)
    requires i < j < |records| && records[i].receipt == records[j].receipt
    ensures Occurs(records[..i + 1], records[i].receipt) < Occurs(records[..j + 1], records[j].receipt)
  {
    OccursGrows(records, i + 1, j, records[i].receipt);
    assert records[..j + 1][..j] == records[..j];
  }

  /** Every ordinal up to the count of its receipt is used. */
  lemma {:induction false} OrdinalsAreContiguous(records: seq<Executive>, receipt: string, m: nat) returns (i: nat)
    requires 1 <= m <= Occurs(records, receipt)
    ensures i < |records| && records[i].receipt == receipt && Occurs(records[..i + 1], receipt) == m
  {
    var n := |records| - 1;
    if Occurs(records[..n], receipt) >= m {
      i := OrdinalsAreContiguous(records[..n], receipt, m);
      assert records[..n][..i + 1] == records[..i + 1];
    } else {
      i := n;
      assert records[..n + 1] == records;
    }
  }

  // ---------------------------------------------------------------- the lane

  predicate FitsCorporation(corp: Code, records: seq<Executive>) {
    && (forall i | 0 <= i < |records| :: records[i].corp == corp)
    && DistinctlyKeyed(Numbered(records))
  }

  function CorporationStep(u: Corporations, pos: nat, s: Coverage, records: seq<Executive>): Option<Accepted<Coverage, ExecutiveRow>> {
    if pos >= |u| || !FitsCorporation(u[pos].code, records) then None
    else Some(Accepted(0, Coverage(s.withRows + (if records != [] then 1 else 0), s.withoutRows + (if records == [] then 1 else 0),
                                   s.rows + |records|), Numbered(records)))
  }

  function DartLane(scope: string): Rules<Corporations, Coverage, seq<Executive>, ExecutiveRow> {
    Rules(Lane("opendart_disclosed_executives", scope), map["source_contract" := "opendart_corp_master_executive_status"],
          RefusedBeforeRun, (u: Corporations) => u != [], (u: Corporations) => |u|, (u: Corporations) => 1, Coverage(0, 0, 0),
          CorporationStep, (c: nat, s: Coverage) => s.withRows + s.withoutRows == c,
          (u: Corporations, s: Coverage) => s.withRows + s.withoutRows == |u|)
  }

  function Empties(history: seq<Event<seq<Executive>>>): nat {
    if history == [] then 0
    else Empties(history[..|history| - 1]) + (if history[|history| - 1].item == [] then 1 else 0)
  }

  /** At every commit, across resumes, the counters split the corporations before the cursor into
      those with and without rows, and count the rows.  So neither the resume's counter check nor
      the final coverage check can ever fail. */
  lemma {:induction false} CoverageAtEveryCursor(scope: string, u: Corporations, history: seq<Event<seq<Executive>>>)
    requires Replay(DartLane(scope), u, history).Some?
    ensures var at := Replay(DartLane(scope), u, history).value;
            && at.cursor == |history| && at.state.withoutRows == Empties(history)
            && at.state.withRows + at.state.withoutRows == at.cursor
            && at.state.rows == |at.noted|
            && DartLane(scope).consistent(at.cursor, at.state)
            && (at.cursor == |u| ==> DartLane(scope).covered(u, at.state))
  {
    hide FitsCorporation, Numbered;
    if history != [] {
      var n := |history| - 1;
      CoverageAtEveryCursor(scope, u, history[..n]);
      OrdinalsAreRanks(history[n].item);
    }
  }

  /** The codes are pairwise apart, as distinct codes without colons are. */
  ghost predicate CodesApart(u: Corporations) {
    forall i, j :: 0 <= i < j < |u| ==> Apart(u[i].code, u[j].code)
  }

  lemma ColonFreeCodesAreApart(u: Corporations)
    requires forall i :: 0 <= i < |u| ==> ColonFree(u[i].code)
    requires forall i, j :: 0 <= i < j < |u| ==> u[i].code != u[j].code
    ensures CodesApart(u)
  {
    forall i, j | 0 <= i < |u| && 0 <= j < |u| && i != j ensures !(u[i].code + ":" <= u[j].code + ":") {
      if u[i].code + ":" <= u[j].code + ":" { PrefixSplits(u[i].code, u[j].code); }
    }
  }

  /** Every observed row's key is made of its own parts, its corporation is one before the cursor,
      and no key repeats. */
  ghost predicate WellKeyed(u: Corporations, at: Place<Coverage, ExecutiveRow>) {
    && at.cursor <= |u| && DistinctlyKeyed(at.noted)
    && forall k :: 0 <= k < |at.noted| ==>
         var (key, row) := at.noted[k];
         && key == KeyOf(row.executive.corp, row.executive.receipt, row.ordinal)
         && exists i :: 0 <= i < at.cursor && u[i].code == row.executive.corp
  }

  /** The rows of one corporation have distinct keys: its duplicate check can never fire. */
  lemma PageKeysAreDistinct(corp: Code, records: seq<Executive>)
    ensures FitsCorporation(corp, records) <==> forall i :: 0 <= i < |records| ==> records[i].corp == corp
  {
    hide KeyOf, Occurs, Numbered;
    OrdinalsAreRanks(records);
    var keyed := Numbered(records);
    if forall i :: 0 <= i < |records| ==> records[i].corp == corp {
      forall i, j | 0 <= i < j < |keyed| ensures keyed[i].0 != keyed[j].0 {
        KeyTellsRow(corp, records[i].receipt, keyed[i].1.ordinal, records[j].receipt, keyed[j].1.ordinal);
        if records[i].receipt == records[j].receipt { OrdinalsAreDistinct(records, i, j); }
      }
    }
  }

  lemma {:induction false} StepKeepsKeys(u: Corporations, at: Place<Coverage, ExecutiveRow>, records: seq<Executive>, s: Coverage)
    requires CodesApart(u) && WellKeyed(u, at) && at.cursor < |u| && FitsCorporation(u[at.cursor].code, records)
    ensures WellKeyed(u, Place(at.cursor + 1, s, at.noted + Numbered(records)))
  {
    hide KeyOf, Occurs, Numbered, Apart;
    OrdinalsAreRanks(records);
    var keyed, corp := Numbered(records), u[at.cursor].code;
    forall k, j | 0 <= k < |at.noted| && 0 <= j < |keyed| ensures at.noted[k].0 != keyed[j].0 {
      var row := at.noted[k].1;
      var i :| 0 <= i < at.cursor && u[i].code == row.executive.corp;
      if at.noted[k].0 == keyed[j].0 {
        SameKeyIsNotApart(row.executive.corp, row.executive.receipt, row.ordinal, corp, records[j].receipt, keyed[j].1.ordinal);
      }
    }
  }

  /** The provider keys are pairwise distinct over the whole universe when its codes are apart. */
  lemma {:induction false} KeysAreDistinct(scope: string, u: Corporations, history: seq<Event<seq<Executive>>>)
    requires CodesApart(u) && Replay(DartLane(scope), u, history).Some?
    ensures WellKeyed(u, Replay(DartLane(scope), u, history).value)
  {
    hide Numbered, WellKeyed, FitsCorporation, CodesApart;
    if history == [] {
      assert WellKeyed(u, Place(0, Coverage(0, 0, 0), [])) by { NothingKeyed(u); }
    } else {
      var n := |history| - 1;
      KeysAreDistinct(scope, u, history[..n]);
      StepKeepsKeys(u, Replay(DartLane(scope), u, history[..n]).value, history[n].item, Replay(DartLane(scope), u, history).value.state);
    }
  }

  lemma NothingKeyed(u: Corporations)
    ensures WellKeyed(u, Place(0, Coverage(0, 0, 0), []))
  {
  }

  function Sizes(history: seq<Event<seq<Executive>>>): seq<nat> {
    seq(|history|, i requires 0 <= i < |history| => |history[i].item|)
  }

  /** Every row of every accepted report is observed, numbered within its receipt, and nothing else
      is; a report without rows is counted and observes nothing. */
  ghost predicate RowsObserved(u: Corporations, history: seq<Event<seq<Executive>>>, at: Place<Coverage, ExecutiveRow>) {
    && at.cursor == |history| <= |u| && |at.noted| == at.state.rows == Total(Sizes(history))
    && at.state.withRows == |set i | 0 <= i < |history| && history[i].item != []|
    && forall i, j :: 0 <= i < |history| && 0 <= j < |history[i].item| ==>
         var r := history[i].item[j];
         var ordinal := Occurs(history[i].item[..j + 1], r.receipt);
         r.corp == u[i].code && (r.corp + ":" + r.receipt + ":" + Decimal(ordinal), ExecutiveRow(r, ordinal)) in at.noted
  }

  lemma RowIsNumbered(records: seq<Executive>, j: nat)
    requires j < |records|
    ensures var r := records[j];
            var ordinal := Occurs(records[..j + 1], r.receipt);
            (r.corp + ":" + r.receipt + ":" + Decimal(ordinal), ExecutiveRow(r, ordinal)) in Numbered(records)
  {
    hide Numbered, Occurs, Decimal, KeyOf;
    OrdinalsAreRanks(records);
    var r, ordinal := records[j], Occurs(records[..j + 1], records[j].receipt);
    assert Numbered(records)[j] == (KeyOf(r.corp, r.receipt, ordinal), ExecutiveRow(r, ordinal));
    KeyIs(r.corp, r.receipt, ordinal);
  }

  lemma KeyIs(c: Code, r: string, n: nat)
    ensures KeyOf(c, r, n) == c + ":" + r + ":" + Decimal(n)
  {
  }

  lemma StepObservesRows(scope: string, u: Corporations, history: seq<Event<seq<Executive>>>, at: Place<Coverage, ExecutiveRow>, records: seq<Executive>)
    requires RowsObserved(u, history, at) && Next(DartLane(scope), u, at, Event(records, true)).Some?
    ensures RowsObserved(u, history + [Event(records, true)], Next(DartLane(scope), u, at, Event(records, true)).value)
  {
    hide Numbered, Occurs, Decimal;
    var longer, next, n := history + [Event(records, true)], Next(DartLane(scope), u, at, Event(records, true)).value, |history|;
    OrdinalsAreRanks(records);
    assert Sizes(longer)[..n] == Sizes(history);
    assert (set i | 0 <= i < |longer| && longer[i].item != []) == (set i | 0 <= i < n && history[i].item != []) + if records != [] then {n} else {};
    forall i, j | 0 <= i < |longer| && 0 <= j < |longer[i].item|
      ensures var r := longer[i].item[j];
              var ordinal := Occurs(longer[i].item[..j + 1], r.receipt);
              r.corp == u[i].code && (r.corp + ":" + r.receipt + ":" + Decimal(ordinal), ExecutiveRow(r, ordinal)) in next.noted
    {
      if i == n {
        RowIsNumbered(records, j);
      } else {
        assert longer[i] == history[i];
      }
    }
  }

  lemma {:induction false} RowsAreObserved(scope: string, u: Corporations, history: seq<Event<seq<Executive>>>)
    requires Replay(DartLane(scope), u, history).Some?
    ensures RowsObserved(u, history, Replay(DartLane(scope), u, history).value)
  {
    hide RowsObserved, CorporationStep;
    if history == [] {
      assert RowsObserved(u, [], Place(0, Coverage(0, 0, 0), [])) by { NoRowsYet(u); }
    } else {
      var n := |history| - 1;
      RowsAreObserved(scope, u, history[..n]);
      var before, e := Replay(DartLane(scope), u, history[..n]).value, history[n];
      assert e.finished by { OnlyFinished(scope, u, before, e); }
      StepObservesRows(scope, u, history[..n], before, e.item);
      assert history == history[..n] + [Event(e.item, true)];
    }
  }

  /** A report is accepted exactly when all its rows are the corporation's own; it may be empty. */
  lemma ReportIsAcceptedIff(scope: string, u: Corporations, at: Place<Coverage, ExecutiveRow>, records: seq<Executive>)
    ensures Next(DartLane(scope), u, at, Event(records, true)).Some? <==>
              at.cursor < |u| && forall r :: r in records ==> r.corp == u[at.cursor].code
  {
    hide Numbered, FitsCorporation;
    if at.cursor < |u| { PageKeysAreDistinct(u[at.cursor].code, records); }
  }

  lemma OnlyFinished(scope: string, u: Corporations, at: Place<Coverage, ExecutiveRow>, e: Event<seq<Executive>>)
    requires Next(DartLane(scope), u, at, e).Some?
    ensures e.finished
  {
  }

  lemma NoRowsYet(u: Corporations)
    ensures RowsObserved(u, [], Place(0, Coverage(0, 0, 0), []))
  {
    var none: seq<Event<seq<Executive>>> := [];
    assert (set i | 0 <= i < |none| && none[i].item != []) == {};
  }

  /** After any sequence of runs the stored counters split the stored cursor, count the rows, and
      every observed row is stored; no key occurs twice when the codes are apart. */
  lemma StoredCoverageIsExact(scope: string, db: CursorDb<Corporations, Coverage, ExecutiveRow>,
                              attempts: seq<Attempt<Corporations, seq<Executive>>>) returns (history: seq<Event<seq<Executive>>>)
    requires DartLane(scope).lane !in db.checkpoints
    ensures var after, lane := Chain(DartLane(scope), db, attempts), DartLane(scope).lane;
            lane in after.checkpoints ==>
              var ck := after.checkpoints[lane];
              var place := Replay(DartLane(scope), ck.meta.universe, history);
              && place.Some? && place.value.cursor == ck.cursor == |history| && place.value.state == ck.meta.state
              && ck.meta.state.withoutRows == Empties(history) && ck.meta.state.withRows + ck.meta.state.withoutRows == ck.cursor
              && RowsObserved(ck.meta.universe, history, place.value) && Recorded(after.rows, lane, place.value.noted)
              && (CodesApart(ck.meta.universe) ==> WellKeyed(ck.meta.universe, place.value))
  {
    hide Enumerate, Replay, Sourced, CodesApart, WellKeyed, RowsObserved;
    history := ChainIsDescribed(DartLane(scope), db, attempts, (u, p: nat, records) => true);
    var after, lane := Chain(DartLane(scope), db, attempts), DartLane(scope).lane;
    if lane in after.checkpoints {
      var u := after.checkpoints[lane].meta.universe;
      CoverageAtEveryCursor(scope, u, history);
      RowsAreObserved(scope, u, history);
      if CodesApart(u) { KeysAreDistinct(scope, u, history); }
    }
  }

  /** Crash/resume equivalence: any chain that reaches the last corporation leaves the counters
      and the stored rows of one uninterrupted run. */
  lemma CrashResume(scope: string, u: Corporations, reports: Items<seq<Executive>>, db: CursorDb<Corporations, Coverage, ExecutiveRow>,
                    attempts: seq<Attempt<Corporations, seq<Executive>>>)
    requires u != [] && DartLane(scope).lane !in db.checkpoints
    requires forall a :: a in attempts ==> Serves(u, reports, a.world)
    requires EndsAt(DartLane(scope), u, Chain(DartLane(scope), db, attempts))
    ensures var v := Enumerate(DartLane(scope), db, false, None, Smooth(u, reports));
            v.ending.Complete? && SameOutcome(DartLane(scope).lane, v.db, Chain(DartLane(scope), db, attempts))
  {
    hide Enumerate, Chain, FitsCorporation, Numbered, Replay;
    SingleCommitsRepeat(DartLane(scope), u, reports);
    CrashResumeEquivalence(DartLane(scope), u, reports, db, attempts);
    var history := StoredCoverageIsExact(scope, db, attempts);
  }

  /** Without a checkpoint a resume opens no run. */
  lemma ResumeWithoutCheckpoint(scope: string, db: CursorDb<Corporations, Coverage, ExecutiveRow>, budget: Option<nat>,
                                world: World<Corporations, seq<Executive>>)
    requires DartLane(scope).lane !in db.checkpoints
    ensures Enumerate(DartLane(scope), db, true, budget, world) == Written(db, Raised, 0)
  {
    hide Enumerate;
    WithoutCheckpoint(DartLane(scope), db, budget, world);
  }

  /** An uninterrupted run makes one commit for the universe and one for each corporation. */
  lemma UninterruptedCommits(scope: string, u: Corporations, reports: Items<seq<Executive>>, db: CursorDb<Corporations, Coverage, ExecutiveRow>)
    requires Passes(DartLane(scope), u, reports)
    ensures Enumerate(DartLane(scope), db, false, None, Smooth(u, reports)).commits == |u| + 1
  {
    hide Enumerate, Course, FitsCorporation, Numbered, CommitsThrough;
    RunSails(DartLane(scope), u, reports, db, false, 0, None);
    SingleCommitsCount(DartLane(scope), u, reports, |u|);
    NoCommitsYet(DartLane(scope), u, reports);
  }
}
