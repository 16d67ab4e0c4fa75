/** What a reviewed commit keeps: it is all or nothing, repeating it changes nothing, and current
    organization names stay unique. */
module ReviewedCommit {
  import opened Prelude
  import opened Text
  import opened Organizations
  import opened ReviewedManifest

  /** What parsing guarantees of a manifest. */
  ghost predicate WellFormed(m: Manifest) {
    && m.items != [] && DistinctlyKeyed(m.items) && DistinctItemNames(m.items)
    && forall i :: 0 <= i < |m.items| ==> Strip(m.items[i].1.name) == m.items[i].1.name
  }

  lemma ParsedIsWellFormed(digit: char -> bool, raw: RawManifest)
    requires Parsable(digit, raw)
    ensures WellFormed(Parsed(digit, raw).value)
  {
    hide InKeyOrder, Strip, Fold, Digits, IsSha256;
    var rows, m := CleanedAll(raw.items), Parsed(digit, raw).value;
    InKeyOrderSorts(rows);
    SortedLength(rows);
    SortedNames(rows, m.items);
    forall i | 0 <= i < |m.items| ensures Strip(m.items[i].1.name) == m.items[i].1.name {
      assert m.items[i] in m.items;
      var k :| 0 <= k < |rows| && rows[k] == m.items[i];
      CleanedStays(raw.items[k]);
    }
  }

  // ---------------------------------------------------------------- current organizations

  lemma {:induction false} CurrentsGrow(t: Table, orgs: seq<Organization>)
    ensures Currents(t + NewRows(orgs)) == Currents(t) + orgs
  {
    if orgs == [] {
      assert t + NewRows(orgs) == t;
    } else {
      var n := |orgs| - 1;
      CurrentsGrow(t, orgs[..n]);
      var all := t + NewRows(orgs);
      assert all[..|all| - 1] == t + NewRows(orgs[..n]);
      assert orgs == orgs[..n] + [orgs[n]];
    }
  }

  lemma {:induction false} NamedAre(orgs: seq<Organization>, name: string)
    ensures forall o :: o in NamedSo(orgs, name) <==> o in orgs && Strip(o.name) == name
  {
    hide Strip;
    if orgs != [] {
      var n := |orgs| - 1;
      NamedAre(orgs[..n], name);
      assert orgs == orgs[..n] + [orgs[n]];
    }
  }

  lemma {:induction false} NamedJoin(a: seq<Organization>, b: seq<Organization>, name: string)
    ensures NamedSo(a + b, name) == NamedSo(a, name) + NamedSo(b, name)
  {
    hide Strip;
    if b == [] {
      assert a + b == a;
    } else {
      var n := |b| - 1;
      NamedJoin(a, b[..n], name);
      assert (a + b)[..|a + b| - 1] == a + b[..n];
    }
  }

  /** Among organizations with distinct stripped names, the one at `i` is the only one of its name. */
  lemma {:induction false} NamedOnce(orgs: seq<Organization>, i: nat)
    requires i < |orgs| && forall j, k :: 0 <= j < k < |orgs| ==> Strip(orgs[j].name) != Strip(orgs[k].name)
    ensures NamedSo(orgs, Strip(orgs[i].name)) == [orgs[i]]
  {
    hide Strip;
    var n, name := |orgs| - 1, Strip(orgs[i].name);
    if i < n {
      NamedOnce(orgs[..n], i);
    } else {
      NamedAre(orgs[..n], name);
      NothingIn(NamedSo(orgs[..n], name));
    }
  }

  lemma {:induction false} ReusesCount(actions: seq<Action>)
    ensures Reuses(actions) <= |actions|
    ensures Reuses(actions) == |actions| <==> forall i :: 0 <= i < |actions| ==> actions[i].Reuse?
    ensures Reuses(actions) == 0 <==> forall i :: 0 <= i < |actions| ==> actions[i].Create?
  {
    if actions != [] { ReusesCount(actions[..|actions| - 1]); }
  }

  // ---------------------------------------------------------------- only what was reviewed

  /** Position `k` holds the last proposal item of its code, which is the manifest's item, awaits
      review and had no current organization of its name. */
  ghost predicate Reviewed(p: Proposal, k: int, code: Key, item: Item) {
    && 0 <= k < |p.items| && p.items[k].0 == code && (forall l :: k < l < |p.items| ==> p.items[l].0 != code)
    && var q := p.items[k].1;
       && q.item.name == item.name && q.item.category == item.category && q.item.chart == item.chart && q.item.locator == item.locator
       && q.awaitsReview && q.nameMatches == 0
  }

  lemma FitsProposalIff(p: Proposal, path: Path, row: (Key, Item))
    ensures FitsProposal(Keyed(p.items), path, row) <==> (exists k :: Reviewed(p, k, row.0, row.1)) && path.supports(row.0, row.1)
  {
    hide Keyed;
    if row.0 in Keyed(p.items) {
      var k := LastOfKey(p.items, row.0);
      if FitsProposal(Keyed(p.items), path, row) { assert Reviewed(p, k, row.0, row.1); }
    }
    if k :| Reviewed(p, k, row.0, row.1) {
      KeyedLast(p.items, k);
      assert p.items[k].1.item == row.1;
    }
  }

  ghost predicate NamedAt(t: Table, name: string, r: int) { 0 <= r < |t| && t[r].current && Strip(t[r].org.name) == name }

  /** The current rows that carry a name: whether there is one, the first, and whether several. */
  lemma {:induction false} NamedIn(t: Table, name: string) returns (first: int)
    ensures var same := NamedSo(Currents(t), name);
            && (same == [] <==> forall r :: !NamedAt(t, name, r))
            && (same != [] ==> NamedAt(t, name, first) && t[first].org == same[0] && forall r :: r < first ==> !NamedAt(t, name, r))
            && (|same| <= 1 <==> forall a, b :: NamedAt(t, name, a) && NamedAt(t, name, b) ==> a == b)
  {
    hide Strip;
    first := 0;
    if t != [] {
      var n := |t| - 1;
      var init, last := t[..n], t[n];
      first := NamedIn(init, name);
      var before := Currents(init);
      assert (before + [last.org])[..|before|] == before;
      var same := NamedSo(before, name);
      assert NamedSo(Currents(t), name) == same + if NamedAt(t, name, n) then [last.org] else [];
      forall r ensures NamedAt(t, name, r) <==> NamedAt(init, name, r) || (r == n && last.current && Strip(last.org.name) == name) {}
      if same == [] { first := n; }
    }
  }

  lemma {:induction false} CurrentsCount(t: Table)
    ensures |Currents(t)| == |set r | 0 <= r < |t| && t[r].current|
  {
    var f := (row: OrgRow) => row.current;
    WhereStep(t, f);
    if t != [] {
      var init := t[..|t| - 1];
      CurrentsCount(init);
      assert Where(init, f) == set r | 0 <= r < |init| && init[r].current;
    }
    assert Where(t, f) == set r | 0 <= r < |t| && t[r].current;
  }

  lemma {:induction false} ReusesWhere(actions: seq<Action>)
    ensures Reuses(actions) == |set i | 0 <= i < |actions| && actions[i].Reuse?|
  {
    var f := (a: Action) => a.Reuse?;
    WhereStep(actions, f);
    if actions != [] {
      var init := actions[..|actions| - 1];
      ReusesWhere(init);
      assert Where(init, f) == set i | 0 <= i < |init| && init[i].Reuse?;
    }
    assert Where(actions, f) == set i | 0 <= i < |actions| && actions[i].Reuse?;
  }

  /** Some current row has the id derived from the code. */
  ghost predicate IsMaterialised(path: Path, t: Table, code: Key) {
    exists row :: row in t && row.current && row.org.id == Derived(path.scheme, code)
  }

  /** The item fits the table: current rows of its id have its name, the first current row of its
      name has its id, and on the strict path there is no second. */
  ghost predicate FitsTable(path: Path, t: Table, code: Key, item: Item) {
    && (forall row :: row in t && row.current && row.org.id == Derived(path.scheme, code) ==> row.org.name == item.name)
    && (forall r :: NamedAt(t, item.name, r) && (forall q :: q < r ==> !NamedAt(t, item.name, q)) ==> t[r].org.id == Derived(path.scheme, code))
    && (path.strict ==> forall a, b :: NamedAt(t, item.name, a) && NamedAt(t, item.name, b) ==> a == b)
  }

  lemma FitsCurrentIff(path: Path, row: (Key, Item), t: Table)
    ensures FitsCurrent(Currents(t), path, row) <==> FitsTable(path, t, row.0, row.1)
    ensures HasCurrentId(Currents(t), Derived(path.scheme, row.0)) <==> IsMaterialised(path, t, row.0)
  {
    hide NamedSo, NamedAt, Currents;
    var id, orgs := Derived(path.scheme, row.0), Currents(t);
    CurrentsAre(t);
    var first := NamedIn(t, row.1.name);
    assert forall i :: 0 <= i < |orgs| ==> orgs[i] in orgs;
    assert (forall i :: 0 <= i < |orgs| && orgs[i].id == id ==> orgs[i].name == row.1.name)
           <==> (forall o :: o in orgs && o.id == id ==> o.name == row.1.name);
    CurrentRows(t, id, row.1.name);
  }

  lemma CurrentRows(t: Table, id: OrgId, name: string)
    ensures (forall o :: o in Currents(t) && o.id == id ==> o.name == name)
            <==> (forall row :: row in t && row.current && row.org.id == id ==> row.org.name == name)
    ensures HasCurrentId(Currents(t), id) <==> exists row :: row in t && row.current && row.org.id == id
  {
    hide Currents;
    CurrentsAre(t);
    var orgs := Currents(t);
    forall row | row in t && row.current ensures row.org in orgs { assert row == OrgRow(row.org, true); }
    forall o | o in orgs ensures exists i :: 0 <= i < |orgs| && orgs[i] == o {}
    if HasCurrentId(orgs, id) {
      var i :| 0 <= i < |orgs| && orgs[i].id == id;
      assert orgs[i] in orgs && OrgRow(orgs[i], true) in t;
    }
    if (forall row :: row in t && row.current && row.org.id == id ==> row.org.name == name) {
      forall o | o in orgs && o.id == id ensures o.name == name { assert OrgRow(o, true) in t; }
    }
  }

  lemma AllAlike(actions: seq<Action>)
    ensures (Reuses(actions) == 0 || Reuses(actions) == |actions|)
            <==> (forall i, j :: 0 <= i < |actions| && 0 <= j < |actions| ==> actions[i].Reuse? == actions[j].Reuse?)
  {
    hide Reuses;
    ReusesCount(actions);
    assert |actions| > 0 ==> actions[0].Reuse? || actions[0].Create?;
  }

  /** The item is the reviewed one of its code, is supported, and fits the table. */
  ghost predicate IsReviewedItem(path: Path, p: Proposal, t: Table, row: (Key, Item)) {
    (exists k :: Reviewed(p, k, row.0, row.1)) && path.supports(row.0, row.1) && FitsTable(path, t, row.0, row.1)
  }

  lemma AllFit(path: Path, m: Manifest, p: Proposal, t: Table)
    ensures (forall i :: 0 <= i < |m.items| ==> FitsProposal(Keyed(p.items), path, m.items[i]) && FitsCurrent(Currents(t), path, m.items[i]))
            <==> (forall i :: 0 <= i < |m.items| ==> IsReviewedItem(path, p, t, m.items[i]))
  {
    hide FitsProposal, FitsCurrent, FitsTable, Reviewed;
    forall i | 0 <= i < |m.items|
      ensures IsReviewedItem(path, p, t, m.items[i])
              <==> FitsProposal(Keyed(p.items), path, m.items[i]) && FitsCurrent(Currents(t), path, m.items[i])
    {
      FitsProposalIff(p, path, m.items[i]);
      FitsCurrentIff(path, m.items[i], t);
    }
  }

  /** Exactly when a manifest can be committed, over the proposal's items and the table's rows. */
  lemma PreparableIff(path: Path, m: Manifest, confirmed: bool, p: Proposal, t: Table)
    ensures Preparable(path, m, confirmed, p, t) <==>
              && confirmed && p.digest == m.sha && p.reviewOnly && p.nameConflicts == 0
              && (path.strict ==> forall k, l :: 0 <= k < l < |p.items| ==> p.items[k].0 != p.items[l].0)
              && (forall i :: 0 <= i < |m.items| ==> IsReviewedItem(path, p, t, m.items[i]))
              && |set r | 0 <= r < |t| && t[r].current| == p.currentCount + |set i | 0 <= i < |m.items| && IsMaterialised(path, t, m.items[i].0)|
              && (forall i, j :: 0 <= i < |m.items| && 0 <= j < |m.items| ==>
                    (IsMaterialised(path, t, m.items[i].0) <==> IsMaterialised(path, t, m.items[j].0)))
  {
    hide FitsProposal, FitsCurrent, IsReviewedItem, IsMaterialised, HasCurrentId, Currents, Keyed, Reuses;
    var actions := ActionsOf(Currents(t), path, m.items);
    AllFit(path, m, p, t);
    forall i | 0 <= i < |m.items| ensures actions[i].Reuse? <==> IsMaterialised(path, t, m.items[i].0) { FitsCurrentIff(path, m.items[i], t); }
    CurrentsCount(t);
    ReusesWhere(actions);
    ReusesCount(actions);
    assert (set i | 0 <= i < |actions| && actions[i].Reuse?) == set i | 0 <= i < |m.items| && IsMaterialised(path, t, m.items[i].0);
    assert (Reuses(actions) == 0 || Reuses(actions) == |actions|)
           <==> (forall i, j :: 0 <= i < |actions| && 0 <= j < |actions| ==> actions[i].Reuse? == actions[j].Reuse?) by {
      AllAlike(actions);
    }
    assert |actions| == |m.items|;
    assert (forall i, j :: 0 <= i < |actions| && 0 <= j < |actions| ==> actions[i].Reuse? == actions[j].Reuse?)
           <==> (forall i, j :: 0 <= i < |m.items| && 0 <= j < |m.items| ==>
                   (IsMaterialised(path, t, m.items[i].0) <==> IsMaterialised(path, t, m.items[j].0)));
    var reused := |set i | 0 <= i < |m.items| && IsMaterialised(path, t, m.items[i].0)|;
    assert Reuses(actions) == reused;
    assert |Currents(t)| == p.currentCount + Reuses(actions) <==> |set r | 0 <= r < |t| && t[r].current| == p.currentCount + reused;
  }

  /** Only what was reviewed is committed: every row that an accepted commit adds is current and has
      the id and the name of a reviewed item of the proposal. */
  lemma CommittedIsReviewed(path: Path, m: Manifest, confirmed: bool, p: Proposal, t: Table)
    requires Preparable(path, m, confirmed, p, t) && Committed(path, m, ActionsOf(Currents(t), path, m.items), t).Some?
    ensures var after := Committed(path, m, ActionsOf(Currents(t), path, m.items), t).value.table;
            && t <= after
            && forall r :: |t| <= r < |after| ==>
                 && after[r].current
                 && exists k, code, item :: Reviewed(p, k, code, item) && after[r].org == Organization(Derived(path.scheme, code), item.name)
  {
    hide FitsCurrent, FitsTable, Importable, Keyed, Currents, Reuses, Missing, FitsProposal, IsMaterialised;
    PreparableIff(path, m, confirmed, p, t);
    var orgs := OrgsOf(path, m.items);
    MissingAre(t, orgs);
    var after := Committed(path, m, ActionsOf(Currents(t), path, m.items), t).value.table;
    forall r | |t| <= r < |after|
      ensures after[r].current
      ensures exists k, code, item :: Reviewed(p, k, code, item) && after[r].org == Organization(Derived(path.scheme, code), item.name)
    {
      assert after[r].org in Missing(t, orgs);
      var i :| 0 <= i < |orgs| && orgs[i] == after[r].org;
      var k :| Reviewed(p, k, m.items[i].0, m.items[i].1);
    }
  }

  // ---------------------------------------------------------------- all or nothing

  /** A partly materialised manifest is always refused, whatever the proposal says. */
  lemma PartialIsRefused(path: Path, m: Manifest, confirmed: bool, p: Proposal, t: Table, i: nat, j: nat)
    requires i < |m.items| && j < |m.items|
    requires HasCurrentId(Currents(t), Derived(path.scheme, m.items[i].0)) && !HasCurrentId(Currents(t), Derived(path.scheme, m.items[j].0))
    ensures !Preparable(path, m, confirmed, p, t)
  {
    hide FitsProposal, FitsCurrent, HasCurrentId;
    var actions := ActionsOf(Currents(t), path, m.items);
    ReusesCount(actions);
    assert actions[i].Reuse? && actions[j].Create?;
  }

  /** A prepared item to be created has a name no current organization carries. */
  lemma CreatedNameIsFree(path: Path, row: (Key, Item), t: Table)
    requires FitsCurrent(Currents(t), path, row) && ActionOf(Currents(t), path, row).Create?
    ensures NamedSo(Currents(t), row.1.name) == []
    ensures Strip(row.1.name) == row.1.name ==> !CurrentName(t, row.1.name)
  {
    hide Strip;
    var orgs, same := Currents(t), NamedSo(Currents(t), row.1.name);
    NamedAre(orgs, row.1.name);
    CurrentsAre(t);
    assert |same| > 0 ==> same[0] in same;
    if Strip(row.1.name) == row.1.name {
      forall i | 0 <= i < |t| && t[i].current ensures t[i].org.name != row.1.name { assert IsCurrent(t, t[i].org); }
    }
  }

  /** The commit of a prepared manifest succeeds if and only if it is all reused or none of its
      derived ids belongs to a row (which then is a superseded one). */
  lemma CommitSucceedsIff(path: Path, m: Manifest, confirmed: bool, p: Proposal, t: Table)
    requires UniqueIds(t) && WellFormed(m) && Preparable(path, m, confirmed, p, t)
    ensures var actions := ActionsOf(Currents(t), path, m.items);
            Committed(path, m, actions, t).Some? <==>
              || Reuses(actions) == |actions|
              || forall i :: 0 <= i < |m.items| ==> !HasId(t, Derived(path.scheme, m.items[i].0))
  {
    hide FitsProposal, FitsCurrent, Strip, Reuses, HasCurrentId, Importable, HasId, CurrentName, IsCurrent, Missing, Currents;
    var orgs, actions := OrgsOf(path, m.items), ActionsOf(Currents(t), path, m.items);
    ReusesCount(actions);
    if Reuses(actions) != |actions| {
      OrgsAreDistinct(path, m, t);
      forall i | 0 <= i < |m.items| ensures !CurrentName(t, orgs[i].name) && !IsCurrent(t, orgs[i]) {
        assert actions[i].Create?;
        CreatedNameIsFree(path, m.items[i], t);
        NotCurrent(path, m.items[i], t);
      }
      ImportableIff(t, orgs);
      assert forall i :: 0 <= i < |orgs| ==> orgs[i].id == Derived(path.scheme, m.items[i].0);
    }
  }

  lemma ImportableIff(t: Table, orgs: seq<Organization>)
    requires orgs != [] && DistinctIds(orgs) && DistinctNames(Missing(t, orgs))
    requires forall i :: 0 <= i < |orgs| ==> !CurrentName(t, orgs[i].name) && !IsCurrent(t, orgs[i])
    ensures Importable(t, orgs) <==> forall i :: 0 <= i < |orgs| ==> !HasId(t, orgs[i].id)
  {
    hide HasId, CurrentName, IsCurrent, Missing, DistinctIds, DistinctNames;
    assert forall i :: 0 <= i < |orgs| ==> orgs[i] in orgs;
  }

  lemma NotCurrent(path: Path, row: (Key, Item), t: Table)
    requires ActionOf(Currents(t), path, row).Create?
    ensures !IsCurrent(t, OrgOf(path, row))
  {
    CurrentsAre(t);
    forall i | 0 <= i < |Currents(t)| ensures Currents(t)[i] != OrgOf(path, row) {}
    assert OrgOf(path, row) !in Currents(t);
  }

  lemma OrgsAreDistinct(path: Path, m: Manifest, t: Table)
    requires WellFormed(m)
    ensures DistinctIds(OrgsOf(path, m.items)) && DistinctNames(OrgsOf(path, m.items)) && OrgsOf(path, m.items) != []
    ensures DistinctNames(Missing(t, OrgsOf(path, m.items)))
  {
    hide Strip;
    MissingNames(t, OrgsOf(path, m.items));
  }

  lemma {:induction false} MissingNames(t: Table, orgs: seq<Organization>)
    requires DistinctNames(orgs)
    ensures DistinctNames(Missing(t, orgs))
  {
    if orgs != [] {
      var n := |orgs| - 1;
      MissingNames(t, orgs[..n]);
      MissingAre(t, orgs[..n]);
      var before := Missing(t, orgs[..n]);
      forall i | 0 <= i < |before| ensures before[i].name != orgs[n].name {
        assert before[i] in orgs[..n];
        var j :| 0 <= j < n && orgs[j] == before[i];
      }
    }
  }

  // ---------------------------------------------------------------- uniqueness of names

  /** No two current organizations carry the same name once stripped. */
  ghost predicate StrippedNamesUnique(t: Table) {
    forall i, j :: 0 <= i < j < |Currents(t)| ==> Strip(Currents(t)[i].name) != Strip(Currents(t)[j].name)
  }

  /** An accepted commit keeps current names unique, even up to surrounding white space, keeps ids
      unique, and leaves every organization of the manifest current. */
  lemma CommitKeepsNamesUnique(path: Path, m: Manifest, confirmed: bool, p: Proposal, t: Table)
    requires UniqueIds(t) && StrippedNamesUnique(t) && WellFormed(m) && Preparable(path, m, confirmed, p, t)
    requires Committed(path, m, ActionsOf(Currents(t), path, m.items), t).Some?
    ensures var after := Committed(path, m, ActionsOf(Currents(t), path, m.items), t).value.table;
            && StrippedNamesUnique(after) && UniqueIds(after) && t <= after
            && forall i :: 0 <= i < |m.items| ==> HasCurrentId(Currents(after), Derived(path.scheme, m.items[i].0))
  {
    hide FitsProposal, Strip, Reuses, Importable, FitsCurrent;
    var actions := ActionsOf(Currents(t), path, m.items);
    ReusesCount(actions);
    if Reuses(actions) == |actions| {
      forall i | 0 <= i < |m.items| ensures HasCurrentId(Currents(t), Derived(path.scheme, m.items[i].0)) { assert actions[i].Reuse?; }
    } else {
      AllMissing(path, m, confirmed, p, t);
      CreatedJoin(path, m, t);
    }
  }

  /** When everything is to be created, everything is missing. */
  lemma AllMissing(path: Path, m: Manifest, confirmed: bool, p: Proposal, t: Table)
    requires UniqueIds(t) && WellFormed(m) && Preparable(path, m, confirmed, p, t)
    requires var actions := ActionsOf(Currents(t), path, m.items);
             Reuses(actions) != |actions| && Committed(path, m, actions, t).Some?
    ensures Missing(t, OrgsOf(path, m.items)) == OrgsOf(path, m.items)
    ensures forall i :: 0 <= i < |m.items| ==> NamedSo(Currents(t), m.items[i].1.name) == [] && !HasId(t, Derived(path.scheme, m.items[i].0))
  {
    hide FitsProposal, FitsCurrent, Strip, Reuses, HasCurrentId;
    var actions := ActionsOf(Currents(t), path, m.items);
    CommitSucceedsIff(path, m, confirmed, p, t);
    ReusesCount(actions);
    forall i | 0 <= i < |m.items| ensures NamedSo(Currents(t), m.items[i].1.name) == [] {
      assert actions[i].Create?;
      CreatedNameIsFree(path, m.items[i], t);
    }
    NoneKnown(t, OrgsOf(path, m.items));
  }

  lemma {:induction false} NoneKnown(t: Table, orgs: seq<Organization>)
    requires forall i :: 0 <= i < |orgs| ==> !HasId(t, orgs[i].id)
    ensures Missing(t, orgs) == orgs
  {
    if orgs != [] {
      NoneKnown(t, orgs[..|orgs| - 1]);
      assert orgs == orgs[..|orgs| - 1] + [orgs[|orgs| - 1]];
    }
  }

  /** Adding the manifest's organizations to a table that carries none of their ids or names. */
  lemma CreatedJoin(path: Path, m: Manifest, t: Table)
    requires UniqueIds(t) && WellFormed(m)
    requires forall i :: 0 <= i < |m.items| ==> NamedSo(Currents(t), m.items[i].1.name) == [] && !HasId(t, Derived(path.scheme, m.items[i].0))
    requires StrippedNamesUnique(t)
    ensures var orgs := OrgsOf(path, m.items); var after := t + NewRows(orgs);
            && Currents(after) == Currents(t) + orgs && UniqueIds(after) && t <= after
            && StrippedNamesUnique(after)
            && forall i :: 0 <= i < |m.items| ==> HasCurrentId(Currents(after), Derived(path.scheme, m.items[i].0))
  {
    hide Strip, StrippedNamesUnique, UniqueIds, HasCurrentId, Currents;
    var orgs := OrgsOf(path, m.items);
    CurrentsGrow(t, orgs);
    NewIdsAreNew(path, m, t);
    NewNamesAreNew(path, m, t);
    forall i | 0 <= i < |m.items| ensures HasCurrentId(Currents(t) + orgs, Derived(path.scheme, m.items[i].0)) {
      HasNewId(Currents(t), orgs, i);
    }
  }

  lemma HasNewId(before: seq<Organization>, orgs: seq<Organization>, i: nat)
    requires i < |orgs|
    ensures HasCurrentId(before + orgs, orgs[i].id)
  {
    assert (before + orgs)[|before| + i].id == orgs[i].id;
  }

  lemma NewIdsAreNew(path: Path, m: Manifest, t: Table)
    requires UniqueIds(t) && WellFormed(m) && forall i :: 0 <= i < |m.items| ==> !HasId(t, Derived(path.scheme, m.items[i].0))
    ensures UniqueIds(t + NewRows(OrgsOf(path, m.items)))
  {
    hide Strip;
    var orgs := OrgsOf(path, m.items);
    var after := t + NewRows(orgs);
    assert forall i :: 0 <= i < |orgs| ==> after[|t| + i].org.id == Derived(path.scheme, m.items[i].0);
  }

  lemma NewNamesAreNew(path: Path, m: Manifest, t: Table)
    requires WellFormed(m) && StrippedNamesUnique(t)
    requires forall i :: 0 <= i < |m.items| ==> NamedSo(Currents(t), m.items[i].1.name) == []
    ensures StrippedNamesUnique(t + NewRows(OrgsOf(path, m.items)))
  {
    hide Strip, Currents;
    var orgs, before := OrgsOf(path, m.items), Currents(t);
    CurrentsGrow(t, orgs);
    forall i, j | 0 <= i < |before| && 0 <= j < |orgs| ensures Strip(before[i].name) != Strip(orgs[j].name) {
      NamedAre(before, m.items[j].1.name);
      assert before[i] in before && before[i] !in NamedSo(before, m.items[j].1.name);
    }
  }

  // ---------------------------------------------------------------- idempotence

  /** Preparing and committing the same manifest and proposal once more is accepted, reuses every
      organization, creates none and leaves the table unchanged. */
  lemma CommitIsIdempotent(path: Path, m: Manifest, confirmed: bool, p: Proposal, t: Table)
    requires UniqueIds(t) && WellFormed(m) && Preparable(path, m, confirmed, p, t)
    requires Committed(path, m, ActionsOf(Currents(t), path, m.items), t).Some?
    ensures var after := Committed(path, m, ActionsOf(Currents(t), path, m.items), t).value.table;
            var again := ActionsOf(Currents(after), path, m.items);
            && Preparable(path, m, confirmed, p, after)
            && (forall i :: 0 <= i < |again| ==> again[i].Reuse?)
            && Committed(path, m, again, after) == Some(Imported(after, 0, |m.items|))
  {
    hide FitsProposal, Strip, Reuses, Importable, FitsCurrent, HasCurrentId, Currents;
    var actions := ActionsOf(Currents(t), path, m.items);
    ReusesCount(actions);
    if Reuses(actions) != |actions| {
      AllMissing(path, m, confirmed, p, t);
      CurrentsGrow(t, OrgsOf(path, m.items));
      var after := t + NewRows(OrgsOf(path, m.items));
      forall i | 0 <= i < |m.items| ensures HasCurrentId(Currents(after), Derived(path.scheme, m.items[i].0)) {
        HasNewId(Currents(t), OrgsOf(path, m.items), i);
      }
      var again := ActionsOf(Currents(after), path, m.items);
      ReusesCount(again);
      forall i | 0 <= i < |m.items| ensures FitsCurrent(Currents(after), path, m.items[i]) { FitsAgain(path, m, t, i); }
      assert forall i :: 0 <= i < |again| ==> again[i].Reuse?;
    }
  }

  lemma FitsAgain(path: Path, m: Manifest, t: Table, i: nat)
    requires WellFormed(m) && i < |m.items|
    requires NamedSo(Currents(t), m.items[i].1.name) == [] && !HasId(t, Derived(path.scheme, m.items[i].0))
    ensures FitsCurrent(Currents(t) + OrgsOf(path, m.items), path, m.items[i])
  {
    hide Strip, NamedSo, Currents, HasId;
    var orgs, row := OrgsOf(path, m.items), m.items[i];
    NamedJoin(Currents(t), orgs, row.1.name);
    NamedOnce(orgs, i);
    assert [] + [orgs[i]] == [orgs[i]];
    NewIdIsFree(t, Derived(path.scheme, row.0));
    forall k | 0 <= k < |Currents(t) + orgs| && (Currents(t) + orgs)[k].id == Derived(path.scheme, row.0)
      ensures (Currents(t) + orgs)[k].name == row.1.name
    {
      assert k >= |Currents(t)| && orgs[k - |Currents(t)|].id == orgs[i].id;
    }
  }

  lemma NewIdIsFree(t: Table, id: OrgId)
    requires !HasId(t, id)
    ensures forall k :: 0 <= k < |Currents(t)| ==> Currents(t)[k].id != id
  {
    CurrentsAre(t);
    forall k | 0 <= k < |Currents(t)| ensures Currents(t)[k].id != id {
      assert Currents(t)[k] in Currents(t);
      var r :| 0 <= r < |t| && t[r] == OrgRow(Currents(t)[k], true);
    }
  }

  /** The two laws for what an operator submits: whenever a parsed manifest is prepared and its
      commit accepted, names and ids stay unique, its organizations are current, and submitting it
      again reuses everything and changes nothing. */
  lemma SubmittedManifest(digit: char -> bool, raw: RawManifest, path: Path, confirmed: bool, p: Proposal, t: Table)
    requires Parsable(digit, raw) && UniqueIds(t) && StrippedNamesUnique(t)
    requires var m := Parsed(digit, raw).value;
             Preparable(path, m, confirmed, p, t) && Committed(path, m, ActionsOf(Currents(t), path, m.items), t).Some?
    ensures var m := Parsed(digit, raw).value;
            var after := Committed(path, m, ActionsOf(Currents(t), path, m.items), t).value.table;
            var again := ActionsOf(Currents(after), path, m.items);
            && StrippedNamesUnique(after) && UniqueIds(after) && t <= after
            && (forall i :: 0 <= i < |m.items| ==> HasCurrentId(Currents(after), Derived(path.scheme, m.items[i].0)))
            && Preparable(path, m, confirmed, p, after) && Committed(path, m, again, after) == Some(Imported(after, 0, |m.items|))
  {
    hide Parsable, Preparable, Committed, Currents, StrippedNamesUnique, UniqueIds, HasCurrentId, WellFormed;
    ParsedIsWellFormed(digit, raw);
    CommitKeepsNamesUnique(path, Parsed(digit, raw).value, confirmed, p, t);
    CommitIsIdempotent(path, Parsed(digit, raw).value, confirmed, p, t);
  }

  // ---------------------------------------------------------------- a superseded id

  const CODE: Key := "0000001"
  const ITEM := Item("ministry", "central", "1", "chart")
  const ANY_PATH := Path(OrgGo, true, (code: Key, item: Item) => true)
  const REVIEWED := Manifest("", [(CODE, ITEM)])
  const REVIEWED_PROPOSAL := Proposal("", true, 0, 0, [(CODE, ProposalItem(ITEM, true, 0))])
  const SUPERSEDED: Table := [OrgRow(Organization(Derived(OrgGo, CODE), "ministry"), false)]

  /** A manifest that is prepared for creation and whose commit is refused: the only row of the
      table is a superseded one that carries the derived id. */
  lemma SupersededIdFails()
    ensures UniqueIds(SUPERSEDED) && StrippedNamesUnique(SUPERSEDED) && WellFormed(REVIEWED)
    ensures Preparable(ANY_PATH, REVIEWED, true, REVIEWED_PROPOSAL, SUPERSEDED)
    ensures var actions := ActionsOf(Currents(SUPERSEDED), ANY_PATH, REVIEWED.items);
            actions == [Create] && Committed(ANY_PATH, REVIEWED, actions, SUPERSEDED).None?
  {
    assert SUPERSEDED[..0] == [] && REVIEWED_PROPOSAL.items[..0] == [];
    assert Currents(SUPERSEDED) == [];
    assert Strip("ministry") == "ministry" by { assert !IsSpace('m') && !IsSpace('y'); }
    var actions := ActionsOf(Currents(SUPERSEDED), ANY_PATH, REVIEWED.items);
    assert actions == [Create] && actions[..0] == [];
    assert HasId(SUPERSEDED, Derived(OrgGo, CODE)) by { assert SUPERSEDED[0].org.id == Derived(OrgGo, CODE); }
    assert Keyed(REVIEWED_PROPOSAL.items) == map[CODE := ProposalItem(ITEM, true, 0)];
    assert FitsProposal(Keyed(REVIEWED_PROPOSAL.items), ANY_PATH, REVIEWED.items[0]);
    assert FitsCurrent(Currents(SUPERSEDED), ANY_PATH, REVIEWED.items[0]);
    assert Reuses(actions) == 0;
    CommitSucceedsIff(ANY_PATH, REVIEWED, true, REVIEWED_PROPOSAL, SUPERSEDED);
  }

  const OTHER_PROPOSAL := Proposal("", true, 0, 0, [(CODE, ProposalItem(Item("ministry", "central", "2", "chart"), true, 0))])

  /** A manifest whose chart id is not the reviewed one is refused. */
  lemma OtherChartIsRefused()
    ensures !Preparable(ANY_PATH, REVIEWED, true, OTHER_PROPOSAL, [])
  {
    hide FitsTable, IsMaterialised;
    PreparableIff(ANY_PATH, REVIEWED, true, OTHER_PROPOSAL, []);
    forall k ensures !Reviewed(OTHER_PROPOSAL, k, REVIEWED.items[0].0, REVIEWED.items[0].1) {}
  }
}
