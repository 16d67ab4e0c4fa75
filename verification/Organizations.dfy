/** The canonical organization table and its atomic batch import.  Derived ids are injective in
    the provider code, so they are represented by the code itself. */
module Organizations {
  import opened Prelude

  datatype Scheme = OrgGo | Mois | Alio

  datatype OrgId = Derived(scheme: Scheme, code: Key) | Issued(serial: nat)

  datatype Organization = Organization(id: OrgId, name: string)

  datatype OrgRow = OrgRow(org: Organization, current: bool)

  type Table = seq<OrgRow>

  datatype Imported = Imported(table: Table, created: nat, reused: nat)

  predicate HasId(t: Table, id: OrgId) { exists i | 0 <= i < |t| :: t[i].org.id == id }

  predicate IsCurrent(t: Table, o: Organization) { OrgRow(o, true) in t }

  predicate CurrentName(t: Table, name: string) { exists i | 0 <= i < |t| :: t[i].current && t[i].org.name == name }

  /** The current organizations, in table order. */
  function Currents(t: Table): seq<Organization> {
    if t == [] then []
    else
      var before, last := Currents(t[..|t| - 1]), t[|t| - 1];
      if last.current then before + [last.org] else before
  }

  lemma {:induction false} CurrentsAre(t: Table)
    ensures forall o :: o in Currents(t) <==> IsCurrent(t, o)
  {
    if t != [] {
      var n := |t| - 1;
      CurrentsAre(t[..n]);
      assert t == t[..n] + [t[n]];
    }
  }

  function Missing(t: Table, orgs: seq<Organization>): (missing: seq<Organization>)
    ensures |missing| <= |orgs|
  {
    if orgs == [] then []
    else
      var before, o := Missing(t, orgs[..|orgs| - 1]), orgs[|orgs| - 1];
      if HasId(t, o.id) then before else before + [o]
  }

  predicate DistinctIds(orgs: seq<Organization>) { forall i, j | 0 <= i < j < |orgs| :: orgs[i].id != orgs[j].id }

  predicate DistinctNames(orgs: seq<Organization>) { forall i, j | 0 <= i < j < |orgs| :: orgs[i].name != orgs[j].name }

  /** What the batch demands: distinct ids, every known id the current row of that very
      organization, and new names distinct and not in current use. */
  ghost predicate Importable(t: Table, orgs: seq<Organization>) {
    && orgs != [] && DistinctIds(orgs) && DistinctNames(Missing(t, orgs))
    && (forall o :: o in orgs ==> if HasId(t, o.id) then IsCurrent(t, o) else !CurrentName(t, o.name))
  }

  function NewRows(orgs: seq<Organization>): Table {
    seq(|orgs|, i requires 0 <= i < |orgs| => OrgRow(orgs[i], true))
  }

  /** Creates the missing organizations and reuses the others, or refuses the whole batch. */
  method ImportBatch(t: Table, orgs: seq<Organization>) returns (r: Option<Imported>)
    requires UniqueIds(t)
    ensures r.Some? <==> Importable(t, orgs)
    ensures r.Some? ==> r.value == Imported(t + NewRows(Missing(t, orgs)), |Missing(t, orgs)|, |orgs| - |Missing(t, orgs)|)
  {
    if orgs == [] || !DistinctIds(orgs) { return None; }
    var missing: seq<Organization>, created, reused := [], 0, 0;
    for i := 0 to |orgs|
      invariant missing == Missing(t, orgs[..i]) && created == |missing| && created + reused == i
    {
      assert orgs[..i + 1][..i] == orgs[..i];
      if HasId(t, orgs[i].id) { reused := reused + 1; } else { missing, created := missing + [orgs[i]], created + 1; }
    }
    assert orgs[..|orgs|] == orgs;
    if !DistinctNames(missing) { return None; }
    for i := 0 to |orgs|
      invariant forall j :: 0 <= j < i ==> if HasId(t, orgs[j].id) then IsCurrent(t, orgs[j]) else !CurrentName(t, orgs[j].name)
    {
      if HasId(t, orgs[i].id) {
        var row := RowOf(t, orgs[i].id);
        OneRowPerId(t, orgs[i], row);
        if row.org.name != orgs[i].name || !row.current {
          assert orgs[i] in orgs;
          return None;
        }
      } else if CurrentName(t, orgs[i].name) {
        assert orgs[i] in orgs;
        return None;
      }
    }
    r := Some(Imported(t + NewRows(missing), created, reused));
  }

  method RowOf(t: Table, id: OrgId) returns (row: OrgRow)
    requires HasId(t, id)
    ensures row in t && row.org.id == id
  {
    var i := 0;
    while t[i].org.id != id
      invariant i < |t| && forall j :: 0 <= j < i ==> t[j].org.id != id
      decreases |t| - i
    {
      i := i + 1;
    }
    row := t[i];
  }

  ghost predicate UniqueIds(t: Table) { forall i, j :: 0 <= i < j < |t| ==> t[i].org.id != t[j].org.id }

  ghost predicate UniqueCurrentNames(t: Table) {
    forall i, j :: 0 <= i < j < |t| && t[i].current && t[j].current ==> t[i].org.name != t[j].org.name
  }

  lemma OneRowPerId(t: Table, o: Organization, row: OrgRow)
    requires UniqueIds(t) && row in t && row.org.id == o.id
    ensures IsCurrent(t, o) <==> row.org.name == o.name && row.current
  {
  }

  lemma {:induction false} MissingAre(t: Table, orgs: seq<Organization>)
    ensures forall o :: o in Missing(t, orgs) <==> o in orgs && !HasId(t, o.id)
  {
    hide HasId;
    if orgs != [] {
      var n := |orgs| - 1;
      MissingAre(t, orgs[..n]);
      assert orgs == orgs[..n] + [orgs[n]];
    }
  }

  lemma {:induction false} MissingAreDistinct(t: Table, orgs: seq<Organization>)
    requires DistinctIds(orgs)
    ensures DistinctIds(Missing(t, orgs))
  {
    hide HasId;
    if orgs != [] {
      var n := |orgs| - 1;
      MissingAreDistinct(t, orgs[..n]);
      MissingAre(t, orgs[..n]);
      var before := Missing(t, orgs[..n]);
      forall i | 0 <= i < |before| ensures before[i].id != orgs[n].id {
        assert before[i] in orgs[..n];
        var j :| 0 <= j < n && orgs[j] == before[i];
      }
    }
  }

  ghost predicate IsKnown(t: Table, id: OrgId) { exists row :: row in t && row.org.id == id }

  ghost predicate IsNameTaken(t: Table, name: string) { exists row :: row in t && row.current && row.org.name == name }

  /** A batch is accepted exactly when it is not empty, its ids differ, each known id is that of a
      current row of the very organization, and each other organization has a name that neither a
      current row nor another new organization of the batch has. */
  lemma BatchIsAcceptedIff(t: Table, orgs: seq<Organization>)
    ensures Importable(t, orgs) <==>
              && orgs != [] && (forall i, j :: 0 <= i < j < |orgs| ==> orgs[i].id != orgs[j].id)
              && (forall o :: o in orgs ==> if IsKnown(t, o.id) then OrgRow(o, true) in t else !IsNameTaken(t, o.name))
              && (forall o, p :: o in orgs && p in orgs && o != p && o.name == p.name ==> IsKnown(t, o.id) || IsKnown(t, p.id))
  {
    hide Missing, HasId, CurrentName, IsKnown, IsNameTaken, DistinctNames;
    MissingAre(t, orgs);
    forall o: Organization ensures (HasId(t, o.id) <==> IsKnown(t, o.id)) && (CurrentName(t, o.name) <==> IsNameTaken(t, o.name)) {
      KnownReads(t, o);
    }
    if DistinctIds(orgs) {
      MissingAreDistinct(t, orgs);
      DistinctNamesIff(Missing(t, orgs));
    }
  }

  lemma KnownReads(t: Table, o: Organization)
    ensures HasId(t, o.id) <==> IsKnown(t, o.id)
    ensures CurrentName(t, o.name) <==> IsNameTaken(t, o.name)
  {
    assert forall i :: 0 <= i < |t| ==> t[i] in t;
  }

  lemma DistinctNamesIff(orgs: seq<Organization>)
    requires DistinctIds(orgs)
    ensures DistinctNames(orgs) <==> forall o, p :: o in orgs && p in orgs && o != p ==> o.name != p.name
  {
    assert forall i :: 0 <= i < |orgs| ==> orgs[i] in orgs;
    forall i, j | 0 <= i < j < |orgs| ensures orgs[i] != orgs[j] {}
  }

  /** A batch that is accepted keeps ids and current names unique, keeps every row, and leaves all
      its organizations current. */
  lemma ImportKeepsTable(t: Table, orgs: seq<Organization>)
    requires UniqueIds(t) && UniqueCurrentNames(t) && Importable(t, orgs)
    ensures var t' := t + NewRows(Missing(t, orgs));
            && UniqueIds(t') && UniqueCurrentNames(t') && t <= t'
            && forall o :: o in orgs ==> IsCurrent(t', o)
  {
    hide UniqueIds, UniqueCurrentNames, CurrentName, HasId, Missing, DistinctIds, DistinctNames;
    MissingAre(t, orgs);
    MissingAreDistinct(t, orgs);
    var missing := Missing(t, orgs);
    assert forall i :: 0 <= i < |missing| ==> missing[i] in missing;
    RowsJoin(t, missing);
    var t' := t + NewRows(missing);
    forall o | o in orgs ensures IsCurrent(t', o) {
      if o in missing {
        var i :| 0 <= i < |missing| && missing[i] == o;
        assert t'[|t| + i] == OrgRow(o, true);
      }
    }
  }

  lemma RowsJoin(t: Table, missing: seq<Organization>)
    requires UniqueIds(t) && UniqueCurrentNames(t) && DistinctIds(missing) && DistinctNames(missing)
    requires forall i :: 0 <= i < |missing| ==> !HasId(t, missing[i].id) && !CurrentName(t, missing[i].name)
    ensures UniqueIds(t + NewRows(missing)) && UniqueCurrentNames(t + NewRows(missing))
  {
    var t' := t + NewRows(missing);
    assert forall i :: 0 <= i < |t| ==> t'[i] == t[i];
    assert forall i :: 0 <= i < |missing| ==> t'[|t| + i] == OrgRow(missing[i], true);
  }

  /** Importing the same batch again creates nothing and leaves the table as it is. */
  lemma ImportIsIdempotent(t: Table, orgs: seq<Organization>)
    requires UniqueIds(t) && UniqueCurrentNames(t) && Importable(t, orgs)
    ensures var t' := t + NewRows(Missing(t, orgs)); Importable(t', orgs) && Missing(t', orgs) == []
  {
    hide UniqueCurrentNames;
    ImportKeepsTable(t, orgs);
    var t' := t + NewRows(Missing(t, orgs));
    forall o | o in orgs ensures HasId(t', o.id) && IsCurrent(t', o) {
      var i :| 0 <= i < |t'| && t'[i] == OrgRow(o, true);
    }
    MissingAre(t', orgs);
    NothingIn(Missing(t', orgs));
  }
}
