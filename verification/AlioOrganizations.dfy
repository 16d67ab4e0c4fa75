/** Binding the import's institution groups to canonical organizations, and when the batch that
    follows accepts them. */
module AlioOrganizations {
  import opened Prelude
  import opened Organizations

  function FirstWithId(orgs: seq<Organization>, id: OrgId): Option<Organization> {
    if orgs == [] then None else if orgs[0].id == id then Some(orgs[0]) else FirstWithId(orgs[1..], id)
  }

  /** The organization of one institution, or nothing: an exact binding of its code wins if it is
      single and has the institution's name; otherwise the code's own id, provided no other
      organization has the name. */
  function OrganizationForGroup(code: Key, name: string, orgs: seq<Organization>, bound: seq<Organization>): Option<Organization> {
    if exists i | 0 <= i < |bound| :: bound[i].id != bound[0].id then None
    else if bound != [] then (if bound[0].name == name then Some(bound[0]) else None)
    else
      var id := Derived(Scheme.Alio, code);
      var own := FirstWithId(orgs, id);
      if own.Some? && own.value.name != name then None
      else if exists i | 0 <= i < |orgs| :: orgs[i].name == name && (own.None? || orgs[i].id != id) then None
      else if own.Some? then own
      else Some(Organization(id, name))
  }

  lemma {:induction false} FirstWithIdFinds(orgs: seq<Organization>, id: OrgId)
    ensures FirstWithId(orgs, id).Some? ==> FirstWithId(orgs, id).value in orgs && FirstWithId(orgs, id).value.id == id
    ensures FirstWithId(orgs, id).None? ==> forall o :: o in orgs ==> o.id != id
  {
    if orgs != [] {
      FirstWithIdFinds(orgs[1..], id);
      assert orgs == [orgs[0]] + orgs[1..];
    }
  }

  /** A group is bound to a current organization of its own name, or to a new one whose id and name
      no current organization has. */
  lemma BindingIsSafe(code: Key, name: string, orgs: seq<Organization>, bound: seq<Organization>)
    requires (forall o :: o in bound ==> o in orgs) && OrganizationForGroup(code, name, orgs, bound).Some?
    ensures var o := OrganizationForGroup(code, name, orgs, bound).value;
            && o.name == name
            && (o in orgs || (o.id == Derived(Scheme.Alio, code) && forall p :: p in orgs ==> p.id != o.id && p.name != name))
  {
    FirstWithIdFinds(orgs, Derived(Scheme.Alio, code));
    if bound != [] { assert bound[0] in bound; }
  }

  /** Exactly when a group is bound, and to what.  With organizations bound to its code: when they
      are one and it has the institution's name.  Without: when the code's own id and the name
      belong to the same current organization or to none. */
  lemma BindingIff(code: Key, name: string, orgs: seq<Organization>, bound: seq<Organization>)
    requires forall i, j :: 0 <= i < j < |orgs| ==> orgs[i].id != orgs[j].id
    ensures var r, id := OrganizationForGroup(code, name, orgs, bound), Derived(Scheme.Alio, code);
            if bound != [] then
              r == if (forall o :: o in bound ==> o.id == bound[0].id) && bound[0].name == name then Some(bound[0]) else None
            else
              r == if forall o :: o in orgs ==> (o.id == id <==> o.name == name) then Some(Organization(id, name)) else None
  {
    var id := Derived(Scheme.Alio, code);
    FirstWithIdFinds(orgs, id);
    if bound != [] {
      assert (forall o :: o in bound ==> o.id == bound[0].id) <==> forall i :: 0 <= i < |bound| ==> bound[i].id == bound[0].id;
    } else if forall o :: o in orgs ==> (o.id == id <==> o.name == name) {
      assert forall i :: 0 <= i < |orgs| ==> orgs[i] in orgs;
    } else {
      var o :| o in orgs && (o.id == id) != (o.name == name);
      var i :| 0 <= i < |orgs| && orgs[i] == o;
    }
  }

  /** The groups of an import: code, name and the organizations already bound to the code. */
  datatype Group = Group(code: Key, name: string, bound: seq<Organization>)

  ghost predicate Bound(t: Table, groups: seq<Group>, resolved: seq<Organization>) {
    && |resolved| == |groups|
    && forall i :: 0 <= i < |groups| ==>
         && (forall o :: o in groups[i].bound ==> o in Currents(t))
         && OrganizationForGroup(groups[i].code, groups[i].name, Currents(t), groups[i].bound) == Some(resolved[i])
  }

  /** When every group is bound, the batch is accepted if and only if no two groups share an
      organization, the new organizations' names differ, and no new id is a superseded row. */
  lemma BoundGroupsImportIff(t: Table, groups: seq<Group>, resolved: seq<Organization>)
    requires UniqueIds(t) && groups != [] && Bound(t, groups, resolved)
    ensures Importable(t, resolved) <==>
              && DistinctIds(resolved) && DistinctNames(Missing(t, resolved))
              && forall i :: 0 <= i < |resolved| && resolved[i] !in Currents(t) ==> !HasId(t, resolved[i].id)
  {
    hide OrganizationForGroup, DistinctIds, DistinctNames, Missing, Currents;
    CurrentsAre(t);
    forall i | 0 <= i < |resolved|
      ensures resolved[i] in Currents(t) ==> HasId(t, resolved[i].id)
      ensures resolved[i] !in Currents(t) ==> !CurrentName(t, resolved[i].name)
    {
      BindingIsSafe(groups[i].code, groups[i].name, Currents(t), groups[i].bound);
      if resolved[i] !in Currents(t) {
        forall k | 0 <= k < |t| && t[k].current ensures t[k].org.name != resolved[i].name { assert IsCurrent(t, t[k].org); }
      }
    }
    assert forall i :: 0 <= i < |resolved| ==> resolved[i] in resolved;
  }

  /** Two institutions of one name with no organization yet pass the binding, and the batch then
      refuses them. */
  lemma SameNameGroupsAreRefused(t: Table, a: Key, b: Key, name: string)
    requires UniqueIds(t) && a != b && (forall o :: o in Currents(t) ==> o.name != name)
    requires forall o :: o in Currents(t) ==> o.id != Derived(Scheme.Alio, a) && o.id != Derived(Scheme.Alio, b)
    requires !HasId(t, Derived(Scheme.Alio, a)) && !HasId(t, Derived(Scheme.Alio, b))
    ensures var x := OrganizationForGroup(a, name, Currents(t), []); var y := OrganizationForGroup(b, name, Currents(t), []);
            x.Some? && y.Some? && !Importable(t, [x.value, y.value])
  {
    FirstWithIdFinds(Currents(t), Derived(Scheme.Alio, a));
    FirstWithIdFinds(Currents(t), Derived(Scheme.Alio, b));
    var x, y := Organization(Derived(Scheme.Alio, a), name), Organization(Derived(Scheme.Alio, b), name);
    assert [x, y][..1] == [x] && [x][..0] == [];
    assert Missing(t, [x, y]) == [x, y];
  }
}
