/** Two-phase reviewed commits: an operator-confirmed manifest is parsed into canonical form,
    prepared against the pinned proposal and the current organizations, and committed as one
    batch.  The org.go and MOIS paths are two instances. */
module ReviewedManifest {
  import opened Prelude
  import opened Text
  import opened Organizations

  const SCHEMA := "civic.orggo.reviewed_organization_manifest.v1"

  datatype RawItem = RawItem(name: string, category: string, code: string, chart: string, locator: string)

  datatype RawManifest = RawManifest(schema: string, sha: string, items: seq<RawItem>)

  datatype Item = Item(name: string, category: string, chart: string, locator: string)

  /** Items keyed by org_code, in ascending code order. */
  datatype Manifest = Manifest(sha: string, items: seq<(Key, Item)>)

  // ---------------------------------------------------------------- parsing

  function Cleaned(raw: RawItem): (Key, Item) {
    (Strip(raw.code), Item(Strip(raw.name), Strip(raw.category), Strip(raw.chart), Strip(raw.locator)))
  }

  function CleanedAll(items: seq<RawItem>): seq<(Key, Item)> {
    seq(|items|, i requires 0 <= i < |items| => Cleaned(items[i]))
  }

  /** An org_code is seven ASCII digits; a chart id consists of characters of the class `digit`,
      those to which Unicode gives a digit value. */
  predicate ValidItem(digit: char -> bool, row: (Key, Item)) {
    && row.1.name != [] && row.1.category != [] && row.1.locator != []
    && |row.0| == 7 && Digits(row.0) && row.1.chart != [] && forall i | 0 <= i < |row.1.chart| :: digit(row.1.chart[i])
  }

  predicate DistinctItemNames(rows: seq<(Key, Item)>) {
    forall i, j | 0 <= i < j < |rows| :: rows[i].1.name != rows[j].1.name
  }

  ghost predicate Parsable(digit: char -> bool, raw: RawManifest) {
    var rows := CleanedAll(raw.items);
    && raw.schema == SCHEMA && IsSha256(Fold(Strip(raw.sha))) && rows != []
    && (forall i :: 0 <= i < |rows| ==> ValidItem(digit, rows[i]))
    && DistinctlyKeyed(rows) && DistinctItemNames(rows)
  }

  /** Parses a manifest; repeated codes or names, and malformed fields, are refused. */
  method Parse(digit: char -> bool, raw: RawManifest) returns (m: Option<Manifest>)
    ensures m.Some? <==> Parsable(digit, raw)
    ensures m.Some? ==> m.value == Manifest(Fold(Strip(raw.sha)), InKeyOrder(CleanedAll(raw.items)))
  {
    hide InKeyOrder, Strip, Fold, IsSha256, ValidItem, Cleaned, CleanedAll, DistinctlyKeyed, DistinctItemNames;
    CleanedLength(raw.items);
    if raw.schema != SCHEMA || !IsSha256(Fold(Strip(raw.sha))) || raw.items == [] { return None; }
    var items: seq<(Key, Item)>, codes: set<Key>, names: set<string> := [], {}, {};
    NoItemsYet(digit, raw.items);
    for i := 0 to |raw.items|
      invariant items == CleanedAll(raw.items)[..i]
      invariant Checked(digit, items, codes, names)
    {
      var row := Cleaned(raw.items[i]);
      NextItem(digit, raw.items, i, codes, names);
      if !ValidItem(digit, row) || row.0 in codes || row.1.name in names { return None; }
      items, codes, names := items + [row], codes + {row.0}, names + {row.1.name};
    }
    assert CleanedAll(raw.items)[..|raw.items|] == CleanedAll(raw.items);
    CheckedReads(digit, items, codes, names);
    m := Some(Manifest(Fold(Strip(raw.sha)), InKeyOrder(items)));
  }

  /** The items read so far are valid and distinct, and the two sets hold their codes and names. */
  ghost predicate Checked(digit: char -> bool, items: seq<(Key, Item)>, codes: set<Key>, names: set<string>) {
    && (forall j :: 0 <= j < |items| ==> ValidItem(digit, items[j]) && items[j].0 in codes && items[j].1.name in names)
    && (forall code :: code in codes ==> exists j :: 0 <= j < |items| && items[j].0 == code)
    && (forall name :: name in names ==> exists j :: 0 <= j < |items| && items[j].1.name == name)
    && DistinctlyKeyed(items) && DistinctItemNames(items)
  }

  lemma CleanedLength(items: seq<RawItem>)
    ensures |CleanedAll(items)| == |items|
  {
  }

  lemma NoItemsYet(digit: char -> bool, items: seq<RawItem>)
    ensures CleanedAll(items)[..0] == [] && Checked(digit, [], {}, {})
  {
  }

  lemma CheckedReads(digit: char -> bool, items: seq<(Key, Item)>, codes: set<Key>, names: set<string>)
    requires Checked(digit, items, codes, names)
    ensures DistinctlyKeyed(items) && DistinctItemNames(items) && forall j :: 0 <= j < |items| ==> ValidItem(digit, items[j])
  {
  }

  lemma NextItem(digit: char -> bool, raw: seq<RawItem>, i: nat, codes: set<Key>, names: set<string>)
    requires i < |raw| && Checked(digit, CleanedAll(raw)[..i], codes, names)
    ensures var row, all := Cleaned(raw[i]), CleanedAll(raw);
            && |all| == |raw| && all[i] == row && all[..i + 1] == all[..i] + [row]
            && (if ValidItem(digit, row) && row.0 !in codes && row.1.name !in names
                then Checked(digit, all[..i] + [row], codes + {row.0}, names + {row.1.name})
                else !((forall j :: 0 <= j < |all| ==> ValidItem(digit, all[j])) && DistinctlyKeyed(all) && DistinctItemNames(all)))
  {
    hide ValidItem, Cleaned, Checked, DistinctlyKeyed, DistinctItemNames;
    var row, all := Cleaned(raw[i]), CleanedAll(raw);
    assert all[..i + 1] == all[..i] + [row];
    if ValidItem(digit, row) && row.0 !in codes && row.1.name !in names {
      ItemJoins(digit, all[..i], row, codes, names);
    } else {
      ItemRefused(digit, all, i, codes, names);
    }
  }

  lemma ItemJoins(digit: char -> bool, items: seq<(Key, Item)>, row: (Key, Item), codes: set<Key>, names: set<string>)
    requires Checked(digit, items, codes, names) && ValidItem(digit, row) && row.0 !in codes && row.1.name !in names
    ensures Checked(digit, items + [row], codes + {row.0}, names + {row.1.name})
  {
    hide ValidItem, DistinctlyKeyed, DistinctItemNames;
    var more := items + [row];
    assert more[|items|] == row && forall j :: 0 <= j < |items| ==> more[j] == items[j];
    RowJoins(items, row);
  }

  lemma RowJoins(items: seq<(Key, Item)>, row: (Key, Item))
    requires DistinctlyKeyed(items) && DistinctItemNames(items)
    requires forall j :: 0 <= j < |items| ==> items[j].0 != row.0 && items[j].1.name != row.1.name
    ensures DistinctlyKeyed(items + [row]) && DistinctItemNames(items + [row])
  {
  }

  lemma ItemRefused(digit: char -> bool, all: seq<(Key, Item)>, i: nat, codes: set<Key>, names: set<string>)
    requires i < |all| && Checked(digit, all[..i], codes, names)
    requires !ValidItem(digit, all[i]) || all[i].0 in codes || all[i].1.name in names
    ensures !((forall j :: 0 <= j < |all| ==> ValidItem(digit, all[j])) && DistinctlyKeyed(all) && DistinctItemNames(all))
  {
    hide ValidItem;
    if all[i].0 in codes {
      var j :| 0 <= j < i && all[..i][j].0 == all[i].0;
      assert all[j].0 == all[i].0;
    } else if all[i].1.name in names {
      var j :| 0 <= j < i && all[..i][j].1.name == all[i].1.name;
      assert all[j].1.name == all[i].1.name;
    }
  }

  /** The canonical payload of a manifest, as it would be read back. */
  function Canonical(m: Manifest): RawManifest {
    RawManifest(SCHEMA, m.sha, seq(|m.items|, i requires 0 <= i < |m.items| =>
      RawItem(m.items[i].1.name, m.items[i].1.category, m.items[i].0, m.items[i].1.chart, m.items[i].1.locator)))
  }

  ghost function Parsed(digit: char -> bool, raw: RawManifest): Option<Manifest> {
    if Parsable(digit, raw) then Some(Manifest(Fold(Strip(raw.sha)), InKeyOrder(CleanedAll(raw.items)))) else None
  }

  /** Exactly which manifests parse, field by field, and what their items then are. */
  lemma ParsableIff(digit: char -> bool, raw: RawManifest)
    ensures Parsable(digit, raw) <==>
              && raw.schema == "civic.orggo.reviewed_organization_manifest.v1" && raw.items != []
              && (var sha := Fold(Strip(raw.sha)); |sha| == 64 && forall i :: 0 <= i < 64 ==> '0' <= sha[i] <= '9' || 'a' <= sha[i] <= 'f')
              && (forall i :: 0 <= i < |raw.items| ==> ReadsItem(digit, raw.items[i]))
              && (forall i, j :: 0 <= i < j < |raw.items| ==>
                    Strip(raw.items[i].code) != Strip(raw.items[j].code) && Strip(raw.items[i].name) != Strip(raw.items[j].name))
    ensures Parsable(digit, raw) ==>
              var m := Parsed(digit, raw).value;
              && m.sha == Fold(Strip(raw.sha)) && |m.items| == |raw.items|
              && (forall i, j :: 0 <= i < j < |m.items| ==> Le(m.items[i].0, m.items[j].0))
              && forall i :: 0 <= i < |raw.items| ==>
                   var x := raw.items[i];
                   (Strip(x.code), Item(Strip(x.name), Strip(x.category), Strip(x.chart), Strip(x.locator))) in m.items
  {
    hide InKeyOrder, Strip, Fold, Le;
    var rows := CleanedAll(raw.items);
    assert forall i :: 0 <= i < |rows| ==> rows[i] == Cleaned(raw.items[i]);
    if Parsable(digit, raw) {
      var m := Parsed(digit, raw).value;
      InKeyOrderSorts(rows);
      SortedLength(rows);
      assert forall i :: 0 <= i < |rows| ==> rows[i] in rows;
      assert forall i :: 0 <= i < |m.items| ==> KeysIn(m.items)[i] == m.items[i].0;
    }
  }

  /** The five fields are not blank, the code has seven ASCII digits and the chart id is numeric. */
  ghost predicate ReadsItem(digit: char -> bool, x: RawItem) {
    && Strip(x.name) != "" && Strip(x.category) != "" && Strip(x.locator) != ""
    && |Strip(x.code)| == 7 && (forall i :: 0 <= i < 7 ==> '0' <= Strip(x.code)[i] <= '9')
    && Strip(x.chart) != "" && forall i :: 0 <= i < |Strip(x.chart)| ==> digit(Strip(x.chart)[i])
  }

  /** Parsing does not depend on the order of the items. */
  lemma ParseIgnoresOrder(digit: char -> bool, a: RawManifest, b: RawManifest)
    requires a.schema == b.schema && a.sha == b.sha && multiset(a.items) == multiset(b.items)
    ensures Parsed(digit, a) == Parsed(digit, b)
  {
    hide InKeyOrder, Cleaned, IsSha256, Fold, Strip, ValidItem;
    var x, y, f := CleanedAll(a.items), CleanedAll(b.items), (raw: RawItem) => Cleaned(raw);
    MappedShuffles(f, a.items, b.items);
    assert x == Mapped(f, a.items) && y == Mapped(f, b.items);
    SameElements(x, y);
    RowChecksShuffle(digit, x, y);
    RowChecksShuffle(digit, y, x);
    if DistinctlyKeyed(x) { InKeyOrderIsCanonical(x, y); }
  }

  lemma RowChecksShuffle(digit: char -> bool, x: seq<(Key, Item)>, y: seq<(Key, Item)>)
    requires multiset(x) == multiset(y)
    ensures (forall i :: 0 <= i < |x| ==> ValidItem(digit, x[i])) ==> forall i :: 0 <= i < |y| ==> ValidItem(digit, y[i])
    ensures DistinctlyKeyed(x) ==> DistinctlyKeyed(y)
    ensures DistinctlyKeyed(x) && DistinctItemNames(x) ==> DistinctItemNames(y)
  {
    hide ValidItem;
    SameElements(x, y);
    assert forall i :: 0 <= i < |y| ==> y[i] in x;
    if DistinctlyKeyed(x) {
      ShuffleKeepsKeys(x, y);
      if DistinctItemNames(x) { NamesShuffle(x, y); }
    }
  }

  lemma NamesShuffle(x: seq<(Key, Item)>, y: seq<(Key, Item)>)
    requires multiset(x) == multiset(y) && DistinctlyKeyed(x) && DistinctItemNames(x)
    ensures DistinctItemNames(y)
  {
    SameElements(x, y);
    ShuffleKeepsKeys(x, y);
    forall i, j | 0 <= i < j < |y| ensures y[i].1.name != y[j].1.name {
      assert y[i] in x && y[j] in x && y[i] != y[j];
    }
  }

  /** The canonical payload parses back to the manifest it came from. */
  lemma ParseRoundTrips(digit: char -> bool, raw: RawManifest)
    requires Parsable(digit, raw)
    ensures Parsed(digit, Canonical(Parsed(digit, raw).value)) == Parsed(digit, raw)
  {
    hide InKeyOrder, Strip, Digits, IsSha256;
    var m := Parsed(digit, raw).value;
    var rows, again := CleanedAll(raw.items), CleanedAll(Canonical(m).items);
    InKeyOrderSorts(rows);
    ShaStays(m.sha);
    forall i | 0 <= i < |m.items| ensures m.items[i] in rows && again[i] == m.items[i] {
      assert m.items[i] in m.items;
      var k :| 0 <= k < |rows| && rows[k] == m.items[i];
      CleanedStays(raw.items[k]);
    }
    assert |m.items| == |rows| by { SortedLength(rows); }
    assert again == m.items;
    InKeyOrderSorts(again);
    SortedRowsAreUnique(InKeyOrder(again), again);
    SortedNames(rows, m.items);
  }

  lemma SortedLength(rows: seq<(Key, Item)>)
    ensures |InKeyOrder(rows)| == |rows|
  {
  }

  lemma CleanedStays(raw: RawItem)
    ensures var (code, item) := Cleaned(raw);
            Strip(code) == code && Strip(item.name) == item.name && Strip(item.category) == item.category
            && Strip(item.chart) == item.chart && Strip(item.locator) == item.locator
  {
    StripTrims(raw.code);
    StripTrims(raw.name);
    StripTrims(raw.category);
    StripTrims(raw.chart);
    StripTrims(raw.locator);
  }

  lemma SortedNames(rows: seq<(Key, Item)>, sorted: seq<(Key, Item)>)
    requires DistinctlyKeyed(rows) && DistinctItemNames(rows) && DistinctlyKeyed(sorted) && forall row :: row in sorted <==> row in rows
    ensures DistinctItemNames(sorted)
  {
    forall i, j | 0 <= i < j < |sorted| ensures sorted[i].1.name != sorted[j].1.name {
      assert sorted[i] in rows && sorted[j] in rows && sorted[i] != sorted[j];
    }
  }

  // ---------------------------------------------------------------- preparing

  datatype Action = Create | Reuse

  datatype ProposalItem = ProposalItem(item: Item, awaitsReview: bool, nameMatches: int)

  datatype Proposal = Proposal(digest: string, reviewOnly: bool, nameConflicts: int, currentCount: int, items: seq<(Key, ProposalItem)>)

  /** What tells the two reviewed paths apart: the id scheme, whether repeated proposal codes and
      names carried by several current organizations are refused outright (org.go) or not (MOIS),
      and what the provider still has to support. */
  datatype Path = Path(scheme: Scheme, strict: bool, supports: (Key, Item) -> bool)

  /** Current organizations whose stripped name is `name`, in table order. */
  function NamedSo(orgs: seq<Organization>, name: string): seq<Organization> {
    if orgs == [] then []
    else
      var before, last := NamedSo(orgs[..|orgs| - 1], name), orgs[|orgs| - 1];
      if Strip(last.name) == name then before + [last] else before
  }

  function OrgOf(path: Path, row: (Key, Item)): Organization { Organization(Derived(path.scheme, row.0), row.1.name) }

  function OrgsOf(path: Path, rows: seq<(Key, Item)>): seq<Organization> {
    seq(|rows|, i requires 0 <= i < |rows| => OrgOf(path, rows[i]))
  }

  predicate HasCurrentId(orgs: seq<Organization>, id: OrgId) { exists i | 0 <= i < |orgs| :: orgs[i].id == id }

  predicate FitsProposal(p: map<Key, ProposalItem>, path: Path, row: (Key, Item)) {
    && row.0 in p && p[row.0] == ProposalItem(row.1, true, 0) && path.supports(row.0, row.1)
  }

  predicate FitsCurrent(orgs: seq<Organization>, path: Path, row: (Key, Item)) {
    var id, same := Derived(path.scheme, row.0), NamedSo(orgs, row.1.name);
    && (path.strict ==> |same| <= 1)
    && (forall i | 0 <= i < |orgs| :: orgs[i].id == id ==> orgs[i].name == row.1.name)
    && (same != [] ==> same[0].id == id)
  }

  function ActionOf(orgs: seq<Organization>, path: Path, row: (Key, Item)): Action {
    if HasCurrentId(orgs, Derived(path.scheme, row.0)) then Reuse else Create
  }

  function ActionsOf(orgs: seq<Organization>, path: Path, rows: seq<(Key, Item)>): seq<Action> {
    seq(|rows|, i requires 0 <= i < |rows| => ActionOf(orgs, path, rows[i]))
  }

  function Reuses(actions: seq<Action>): nat {
    if actions == [] then 0 else Reuses(actions[..|actions| - 1]) + (if actions[|actions| - 1].Reuse? then 1 else 0)
  }

  /** The manifest can be committed: it is the reviewed proposal's, every item fits the current
      organizations, nothing else changed since the proposal, and it is not partly materialised. */
  ghost predicate Preparable(path: Path, m: Manifest, confirmed: bool, p: Proposal, t: Table) {
    var orgs := Currents(t);
    var actions := ActionsOf(orgs, path, m.items);
    && confirmed && p.digest == m.sha && p.reviewOnly && p.nameConflicts == 0 && (path.strict ==> DistinctlyKeyed(p.items))
    && (forall i :: 0 <= i < |m.items| ==> FitsProposal(Keyed(p.items), path, m.items[i]) && FitsCurrent(orgs, path, m.items[i]))
    && |orgs| == p.currentCount + Reuses(actions)
    && (Reuses(actions) == 0 || Reuses(actions) == |actions|)
  }

  /** Reads the proposal's items by code; the strict path refuses a repeated code. */
  method ProposalByCode(strict: bool, items: seq<(Key, ProposalItem)>) returns (r: Option<map<Key, ProposalItem>>)
    ensures r.Some? <==> !strict || DistinctlyKeyed(items)
    ensures r.Some? ==> r.value == Keyed(items)
  {
    var byCode: map<Key, ProposalItem> := map[];
    for i := 0 to |items|
      invariant byCode == Keyed(items[..i]) && (strict ==> DistinctlyKeyed(items[..i]))
    {
      assert items[..i + 1][..i] == items[..i];
      KeyedKeys(items[..i], items[i].0);
      if strict && items[i].0 in byCode {
        assert exists j :: 0 <= j < i && items[..i][j].0 == items[i].0 && items[..i][j] == items[j];
        return None;
      }
      byCode := byCode[items[i].0 := items[i].1];
    }
    assert items[..|items|] == items;
    r := Some(byCode);
  }

  /** Prepares the commit without writing anything. */
  method Prepare(path: Path, m: Manifest, confirmed: bool, p: Proposal, t: Table) returns (r: Option<seq<Action>>)
    ensures r.Some? <==> Preparable(path, m, confirmed, p, t)
    ensures r.Some? ==> r.value == ActionsOf(Currents(t), path, m.items)
  {
    hide FitsProposal, FitsCurrent, DistinctlyKeyed, Keyed, ActionOf;
    if !confirmed || p.digest != m.sha || !p.reviewOnly || p.nameConflicts != 0 { return None; }
    var byCode := ProposalByCode(path.strict, p.items);
    if byCode.None? { return None; }
    var orgs := Currents(t);
    var actions, reused := [], 0;
    for i := 0 to |m.items|
      invariant actions == ActionsOf(orgs, path, m.items[..i]) && reused == Reuses(actions) && |actions| == i
      invariant forall j :: 0 <= j < i ==> FitsProposal(Keyed(p.items), path, m.items[j]) && FitsCurrent(orgs, path, m.items[j])
    {
      if !FitsProposal(byCode.value, path, m.items[i]) || !FitsCurrent(orgs, path, m.items[i]) { return None; }
      var action := ActionOf(orgs, path, m.items[i]);
      assert ActionsOf(orgs, path, m.items[..i + 1]) == actions + [action];
      assert (actions + [action])[..i] == actions;
      actions, reused := actions + [action], reused + (if action.Reuse? then 1 else 0);
    }
    assert m.items[..|m.items|] == m.items;
    if |orgs| != p.currentCount + reused || (reused != 0 && reused != |actions|) { return None; }
    r := Some(actions);
  }

  /** Commits a prepared manifest: an all-reused one writes nothing. */
  method Commit(path: Path, m: Manifest, actions: seq<Action>, t: Table) returns (r: Option<Imported>)
    requires UniqueIds(t)
    ensures r == Committed(path, m, actions, t)
  {
    if Reuses(actions) == |actions| {
      r := Some(Imported(t, 0, |actions|));
    } else {
      r := ImportBatch(t, OrgsOf(path, m.items));
    }
  }

  ghost function Committed(path: Path, m: Manifest, actions: seq<Action>, t: Table): Option<Imported> {
    var orgs := OrgsOf(path, m.items);
    if Reuses(actions) == |actions| then Some(Imported(t, 0, |actions|))
    else if Importable(t, orgs) then Some(Imported(t + NewRows(Missing(t, orgs)), |Missing(t, orgs)|, |orgs| - |Missing(t, orgs)|))
    else None
  }
}
