/** Vocabulary shared by every lane: optional values, provider keys and the
    code-point order that the source's `sorted` puts on strings. */
module Prelude {

  datatype Option<+T> = None | Some(value: T)

  type Key = string

  type Positive = n: nat | n >= 1 witness 1

  /** Lexicographic order by code point. */
  predicate Le(a: string, b: string) {
    a == [] || (b != [] && (a[0] < b[0] || (a[0] == b[0] && Le(a[1..], b[1..]))))
  }

  lemma {:induction false} LeTotal(a: string, b: string)
    ensures Le(a, b) || Le(b, a)
  {
    if a != [] && b != [] && a[0] == b[0] {
      LeTotal(a[1..], b[1..]);
    }
  }

  lemma {:induction false} LeAntisymmetric(a: string, b: string)
    requires Le(a, b) && Le(b, a)
    ensures a == b
  {
    if a != [] {
      LeAntisymmetric(a[1..], b[1..]);
      assert a == [a[0]] + a[1..] && b == [b[0]] + b[1..];
    }
  }

  lemma {:induction false} LeTransitive(a: string, b: string, c: string)
    requires Le(a, b) && Le(b, c)
    ensures Le(a, c)
  {
    if a != [] && a[0] == b[0] && b[0] == c[0] {
      LeTransitive(a[1..], b[1..], c[1..]);
    }
  }

  /** One text precedes another when it begins it, or is smaller where they first differ. */
  lemma {:induction false} LeMeans(a: string, b: string)
    ensures Le(a, b) <==> a <= b || exists k :: 0 <= k < |a| && k < |b| && a[k] < b[k] && a[..k] == b[..k]
  {
    if a != [] && b != [] {
      assert a == [a[0]] + a[1..] && b == [b[0]] + b[1..];
      if a[0] == b[0] {
        LeMeans(a[1..], b[1..]);
        assert a <= b <==> a[1..] <= b[1..];
        if k :| 0 <= k < |a[1..]| && k < |b[1..]| && a[1..][k] < b[1..][k] && a[1..][..k] == b[1..][..k] {
          assert a[k + 1] < b[k + 1] && a[..k + 1] == [a[0]] + a[1..][..k] && b[..k + 1] == [b[0]] + b[1..][..k];
        }
        if k :| 0 <= k < |a| && k < |b| && a[k] < b[k] && a[..k] == b[..k] {
          assert k > 0 && a[1..][k - 1] < b[1..][k - 1] && a[1..][..k - 1] == a[..k][1..] && b[1..][..k - 1] == b[..k][1..];
        }
      } else {
        assert a[0] < b[0] ==> a[..0] == b[..0];
        forall k | 0 < k < |a| && k < |b| ensures a[..k] != b[..k] { assert a[..k][0] == a[0] && b[..k][0] == b[0]; }
      }
    }
  }

  predicate Ascending(xs: seq<string>) {
    forall i, j :: 0 <= i < j < |xs| ==> Le(xs[i], xs[j])
  }

  ghost predicate NoRepeats<T>(xs: seq<T>) {
    forall i, j :: 0 <= i < j < |xs| ==> xs[i] != xs[j]
  }

  // ---------------------------------------------------------------- sorting

  /** Stable insertion sort. */
  function InsertBy<T>(le: (T, T) -> bool, x: T, xs: seq<T>): seq<T> {
    if xs == [] || le(x, xs[0]) then [x] + xs else [xs[0]] + InsertBy(le, x, xs[1..])
  }

  function SortBy<T>(le: (T, T) -> bool, xs: seq<T>): seq<T> {
    if xs == [] then [] else InsertBy(le, xs[0], SortBy(le, xs[1..]))
  }

  ghost predicate IsOrder<T(!new)>(le: (T, T) -> bool) {
    && (forall a, b :: le(a, b) || le(b, a))
    && (forall a, b, c :: le(a, b) && le(b, c) ==> le(a, c))
  }

  /** In order, with ties in the order of their rank. */
  ghost predicate OrderedBy<T>(le: (T, T) -> bool, rank: T -> nat, xs: seq<T>) {
    forall i, j :: 0 <= i < j < |xs| ==> le(xs[i], xs[j]) && (le(xs[j], xs[i]) ==> rank(xs[i]) <= rank(xs[j]))
  }

  lemma {:induction false} InsertByBag<T>(le: (T, T) -> bool, x: T, xs: seq<T>)
    ensures multiset(InsertBy(le, x, xs)) == multiset(xs) + multiset{x}
  {
    if xs != [] && !le(x, xs[0]) {
      InsertByBag(le, x, xs[1..]);
      assert xs == [xs[0]] + xs[1..];
    }
  }

  lemma FirstBefore<T(!new)>(le: (T, T) -> bool, rank: T -> nat, x: T, xs: seq<T>)
    requires IsOrder(le) && OrderedBy(le, rank, xs) && xs != [] && le(x, xs[0]) && forall y :: y in xs ==> rank(x) <= rank(y)
    ensures OrderedBy(le, rank, [x] + xs)
  {
    forall j | 0 <= j < |xs| ensures le(x, xs[j]) { if j > 0 { assert le(xs[0], xs[j]); } }
  }

  lemma FirstStays<T>(le: (T, T) -> bool, rank: T -> nat, first: T, rest: seq<T>)
    requires OrderedBy(le, rank, rest)
    requires forall y :: y in rest ==> le(first, y) && (le(y, first) ==> rank(first) <= rank(y))
    ensures OrderedBy(le, rank, [first] + rest)
  {
  }

  lemma {:induction false} InsertByOrders<T(!new)>(le: (T, T) -> bool, rank: T -> nat, x: T, xs: seq<T>)
    requires IsOrder(le) && OrderedBy(le, rank, xs) && forall y :: y in xs ==> rank(x) <= rank(y)
    ensures OrderedBy(le, rank, InsertBy(le, x, xs))
  {
    if xs != [] && le(x, xs[0]) {
      FirstBefore(le, rank, x, xs);
    } else if xs != [] {
      InsertByOrders(le, rank, x, xs[1..]);
      InsertByBag(le, x, xs[1..]);
      var rest := InsertBy(le, x, xs[1..]);
      assert le(xs[0], x);
      forall y | y in rest ensures le(xs[0], y) && (le(y, xs[0]) ==> rank(xs[0]) <= rank(y)) {
        assert y in multiset(rest);
        assert y == x || y in xs[1..];
      }
      hide IsOrder, OrderedBy, InsertBy;
      FirstStays(le, rank, xs[0], rest);
    }
  }

  /** The sorted list is in order, equal elements keep the order they had, and nothing is lost. */
  lemma {:induction false} SortBySorts<T(!new)>(le: (T, T) -> bool, rank: T -> nat, xs: seq<T>)
    requires IsOrder(le) && forall i, j :: 0 <= i < j < |xs| ==> rank(xs[i]) <= rank(xs[j])
    ensures OrderedBy(le, rank, SortBy(le, xs)) && multiset(SortBy(le, xs)) == multiset(xs)
  {
    hide IsOrder, OrderedBy, InsertBy;
    if xs == [] {
      assert OrderedBy(le, rank, xs) by { NothingToOrder(le, rank); }
    } else {
      var rest := SortBy(le, xs[1..]);
      SortBySorts(le, rank, xs[1..]);
      SameElements(rest, xs[1..]);
      forall y | y in xs[1..] ensures rank(xs[0]) <= rank(y) {}
      InsertByBag(le, xs[0], rest);
      InsertByOrders(le, rank, xs[0], rest);
      assert xs == [xs[0]] + xs[1..];
    }
  }

  lemma NothingToOrder<T>(le: (T, T) -> bool, rank: T -> nat)
    ensures OrderedBy(le, rank, [])
  {
  }

  lemma TailsAgree<T>(xs: seq<T>, ys: seq<T>)
    requires xs != [] && ys != [] && xs[0] == ys[0] && multiset(xs) == multiset(ys)
    ensures multiset(xs[1..]) == multiset(ys[1..]) && (xs[1..] == ys[1..] ==> xs == ys)
  {
    assert xs == [xs[0]] + xs[1..] && ys == [ys[0]] + ys[1..];
    assert multiset(xs[1..]) == multiset(xs) - multiset{xs[0]};
    assert multiset(ys[1..]) == multiset(ys) - multiset{ys[0]};
  }

  /** Under an antisymmetric order there is one way to order a multiset. */
  lemma {:induction false} OrderIsUnique<T(!new)>(le: (T, T) -> bool, xs: seq<T>, ys: seq<T>)
    requires forall a, b :: le(a, b) && le(b, a) ==> a == b
    requires OrderedBy(le, (x: T) => 0, xs) && OrderedBy(le, (x: T) => 0, ys) && multiset(xs) == multiset(ys)
    ensures xs == ys
  {
    SameElements(xs, ys);
    if xs != [] {
      assert xs[0] in ys && ys[0] in xs;
      TailsAgree(xs, ys);
      OrderIsUnique(le, xs[1..], ys[1..]);
    }
  }

  lemma LeIsOrder()
    ensures IsOrder(Le) && forall a, b :: Le(a, b) && Le(b, a) ==> a == b
  {
    hide Le;
    forall a, b ensures Le(a, b) || Le(b, a) { LeTotal(a, b); }
    forall a, b, c | Le(a, b) && Le(b, c) ensures Le(a, c) { LeTransitive(a, b, c); }
    forall a, b | Le(a, b) && Le(b, a) ensures a == b { LeAntisymmetric(a, b); }
  }

  function Sort(xs: seq<string>): seq<string> { SortBy(Le, xs) }

  lemma SortSorts(xs: seq<string>)
    ensures Ascending(Sort(xs))
    ensures multiset(Sort(xs)) == multiset(xs)
  {
    hide Le, SortBy;
    LeIsOrder();
    SortBySorts(Le, x => 0, xs);
  }

  lemma AscendingIsUnique(xs: seq<string>, ys: seq<string>)
    requires Ascending(xs) && Ascending(ys) && multiset(xs) == multiset(ys)
    ensures xs == ys
  {
    hide Le;
    LeIsOrder();
    OrderIsUnique(Le, xs, ys);
  }

  /** The sorted list is a function of the elements alone, not of their order. */
  lemma SortIsCanonical(xs: seq<string>, ys: seq<string>)
    requires multiset(xs) == multiset(ys)
    ensures Sort(xs) == Sort(ys)
  {
    SortSorts(xs);
    SortSorts(ys);
    AscendingIsUnique(Sort(xs), Sort(ys));
  }

  lemma NoRepeatsIsMultiset<T>(xs: seq<T>, ys: seq<T>)
    requires NoRepeats(xs) && multiset(xs) == multiset(ys)
    ensures NoRepeats(ys) && |ys| == |xs| && forall y :: y in ys <==> y in xs
  {
    assert |multiset(xs)| == |xs| && |multiset(ys)| == |ys|;
    CountOnce(xs);
    forall y ensures y in ys <==> y in xs { assert y in multiset(ys) <==> y in multiset(xs); }
    forall i, j | 0 <= i < j < |ys| ensures ys[i] != ys[j] {
      assert multiset(ys)[ys[i]] == 1;
      CountTwice(ys, i, j);
    }
  }

  lemma {:induction false} CountOnce<T>(xs: seq<T>)
    requires NoRepeats(xs)
    ensures forall x :: x in xs ==> multiset(xs)[x] == 1
  {
    if xs != [] {
      var n := |xs| - 1;
      CountOnce(xs[..n]);
      assert xs == xs[..n] + [xs[n]];
      forall x | x in xs ensures multiset(xs)[x] == 1 {
        if x == xs[n] { assert x !in multiset(xs[..n]); }
      }
    }
  }

  lemma CountTwice<T>(ys: seq<T>, i: nat, j: nat)
    requires i < j < |ys|
    ensures ys[i] == ys[j] ==> multiset(ys)[ys[i]] >= 2
  {
    assert ys == ys[..j] + [ys[j]] + ys[j + 1..];
    assert ys[i] == ys[..j][i];
    assert ys[i] in multiset(ys[..j]);
  }

  /** The keys of a map, in some order. */
  method KeysOf<V>(found: map<Key, V>) returns (keys: seq<Key>)
    ensures NoRepeats(keys) && |keys| == |found| && forall key :: key in keys <==> key in found
  {
    keys := [];
    var rest := found.Keys;
    while rest != {}
      invariant NoRepeats(keys) && |keys| + |rest| == |found|
      invariant forall key :: key in found <==> key in keys || key in rest
      invariant forall key :: key in keys ==> key !in rest
      decreases rest
    {
      var key :| key in rest;
      keys, rest := keys + [key], rest - {key};
    }
  }

  /** The map a list of keyed values builds when each key is assigned in turn. */
  function Keyed<V>(rows: seq<(Key, V)>): map<Key, V> {
    if rows == [] then map[]
    else var last := rows[|rows| - 1]; Keyed(rows[..|rows| - 1])[last.0 := last.1]
  }

  predicate DistinctlyKeyed<V>(rows: seq<(Key, V)>) {
    forall i, j :: 0 <= i < j < |rows| ==> rows[i].0 != rows[j].0
  }

  lemma {:induction false} KeyedKeys<V>(rows: seq<(Key, V)>, key: Key)
    ensures key in Keyed(rows) ==> exists i :: 0 <= i < |rows| && rows[i] == (key, Keyed(rows)[key])
    ensures (exists i :: 0 <= i < |rows| && rows[i].0 == key) ==> key in Keyed(rows)
  {
    if rows != [] {
      var n := |rows| - 1;
      var init := rows[..n];
      KeyedKeys(init, key);
      if key == rows[n].0 {
        assert rows[n] == (key, Keyed(rows)[key]);
      } else {
        if key in Keyed(init) {
          var i :| 0 <= i < n && init[i] == (key, Keyed(init)[key]);
          assert rows[i] == (key, Keyed(rows)[key]);
        }
        if i :| 0 <= i < |rows| && rows[i].0 == key { assert init[i].0 == key; }
      }
    }
  }

  /** The map holds, for every key, the value of its last row. */
  lemma {:induction false} KeyedLast<V>(rows: seq<(Key, V)>, i: nat)
    requires i < |rows| && forall j :: i < j < |rows| ==> rows[j].0 != rows[i].0
    ensures rows[i].0 in Keyed(rows) && Keyed(rows)[rows[i].0] == rows[i].1
  {
    var n := |rows| - 1;
    if i < n { KeyedLast(rows[..n], i); }
  }

  lemma {:induction false} LastOfKey<V>(rows: seq<(Key, V)>, key: Key) returns (i: nat)
    requires key in Keyed(rows)
    ensures i < |rows| && rows[i].0 == key && rows[i].1 == Keyed(rows)[key] && forall j :: i < j < |rows| ==> rows[j].0 != key
  {
    var n := |rows| - 1;
    i := n;
    if rows[n].0 != key { i := LastOfKey(rows[..n], key); }
  }

  /** Distinctly keyed values are all in the map they build. */
  lemma KeyedHolds<V>(rows: seq<(Key, V)>)
    requires DistinctlyKeyed(rows)
    ensures forall i :: 0 <= i < |rows| ==> rows[i].0 in Keyed(rows) && Keyed(rows)[rows[i].0] == rows[i].1
  {
    forall i | 0 <= i < |rows| ensures rows[i].0 in Keyed(rows) && Keyed(rows)[rows[i].0] == rows[i].1 {
      KeyedKeys(rows, rows[i].0);
    }
  }

  lemma {:induction false} KeyedCard<V>(rows: seq<(Key, V)>)
    requires DistinctlyKeyed(rows)
    ensures |Keyed(rows)| == |rows|
  {
    if rows != [] {
      var n := |rows| - 1;
      KeyedCard(rows[..n]);
      KeyedKeys(rows[..n], rows[n].0);
      assert rows[n].0 !in Keyed(rows[..n]);
    }
  }

  lemma SameElements<T>(a: seq<T>, b: seq<T>)
    requires multiset(a) == multiset(b)
    ensures |a| == |b| && forall x :: x in a <==> x in b
  {
    assert |multiset(a)| == |a| && |multiset(b)| == |b|;
    forall x ensures x in a <==> x in b { assert x in multiset(a) <==> x in multiset(b); }
  }

  lemma SubsetSize<T>(a: set<T>, b: set<T>)
    requires a <= b
    ensures |a| <= |b| && (|a| == |b| ==> a == b)
  {
    assert b == a + (b - a);
    assert |b| == |a| + |b - a|;
  }

  /** A list has as many different elements as positions exactly when it has no repeats. */
  lemma {:induction false} ElementsCount<T>(xs: seq<T>)
    ensures |set x | x in xs| <= |xs|
    ensures |set x | x in xs| == |xs| <==> NoRepeats(xs)
  {
    if xs == [] {
      assert (set x | x in xs) == {};
    } else {
      var n := |xs| - 1;
      var init := xs[..n];
      ElementsCount(init);
      assert xs == init + [xs[n]];
      assert (set x | x in xs) == (set x | x in init) + {xs[n]};
      assert NoRepeats(xs) <==> NoRepeats(init) && xs[n] !in init;
    }
  }

  ghost predicate Injective<K, V>(m: map<K, V>) {
    forall k, l :: k in m && l in m && m[k] == m[l] ==> k == l
  }

  /** A map has as many values as keys exactly when it is injective. */
  lemma {:induction false} ValuesCount<K, V>(m: map<K, V>)
    ensures |m.Values| <= |m|
    ensures |m.Values| == |m| <==> Injective(m)
    decreases |m|
  {
    hide Injective;
    if m == map[] {
      assert m.Values == {};
      assert Injective(m) by { EmptyIsInjective(m); }
    } else {
      var k :| k in m;
      var rest := m - {k};
      assert rest.Keys == m.Keys - {k} && |rest| == |m| - 1;
      ValuesCount(rest);
      ValuesWithout(m, k);
    }
  }

  lemma EmptyIsInjective<K, V>(m: map<K, V>)
    requires m == map[]
    ensures Injective(m)
  {
  }

  lemma ValuesWithout<K, V>(m: map<K, V>, k: K)
    requires k in m
    ensures m.Values == (m - {k}).Values + {m[k]}
    ensures Injective(m) <==> Injective(m - {k}) && m[k] !in (m - {k}).Values
  {
    var rest := m - {k};
    forall l | l in m && l != k ensures l in rest && rest[l] == m[l] {}
    forall v ensures v in m.Values <==> v in rest.Values + {m[k]} {
      if v in m.Values { var l :| l in m && m[l] == v; assert l == k || rest[l] == v; }
      if v in rest.Values { var l :| l in rest && rest[l] == v; assert m[l] == v; }
    }
    if m[k] in rest.Values {
      var l :| l in rest && rest[l] == m[k];
      assert m[l] == m[k] && l != k;
    } else {
      forall l | l in m && l != k ensures m[l] != m[k] { assert rest[l] in rest.Values; }
    }
  }

  lemma NothingIn<T>(xs: seq<T>)
    ensures xs == [] <==> forall x :: x !in xs
  {
    assert |xs| > 0 ==> xs[0] in xs;
  }

  /** Distinctly keyed rows with equal keys are the same row. */
  lemma OneRowPerKey<V>(rows: seq<(Key, V)>, x: (Key, V), y: (Key, V))
    requires DistinctlyKeyed(rows) && x in rows && y in rows && x.0 == y.0
    ensures x == y
  {
  }

  lemma ShuffleKeepsKeys<V>(a: seq<(Key, V)>, b: seq<(Key, V)>)
    requires DistinctlyKeyed(a) && multiset(a) == multiset(b)
    ensures DistinctlyKeyed(b)
  {
    NoRepeatsIsMultiset(a, b);
    forall i, j | 0 <= i < j < |b| ensures b[i].0 != b[j].0 {
      assert b[i] in a && b[j] in a && b[i] != b[j];
      if b[i].0 == b[j].0 { OneRowPerKey(a, b[i], b[j]); }
    }
  }

  /** The keyed map is a function of the rows alone, not of their order. */
  lemma KeyedIsCanonical<V>(a: seq<(Key, V)>, b: seq<(Key, V)>)
    requires DistinctlyKeyed(a) && multiset(a) == multiset(b)
    ensures DistinctlyKeyed(b) && Keyed(a) == Keyed(b)
  {
    hide Keyed, DistinctlyKeyed;
    ShuffleKeepsKeys(a, b);
    KeyedIsRelation(a);
    KeyedIsRelation(b);
    SameElements(a, b);
    forall key ensures key in Keyed(a) <==> key in Keyed(b) {
      if key in Keyed(a) { assert (key, Keyed(a)[key]) in b; }
      if key in Keyed(b) { assert (key, Keyed(b)[key]) in a; }
    }
  }

  /** The keyed map, read as a relation, is the set of its distinctly keyed rows. */
  lemma KeyedIsRelation<V>(rows: seq<(Key, V)>)
    requires DistinctlyKeyed(rows)
    ensures forall row :: row in rows ==> row.0 in Keyed(rows) && Keyed(rows)[row.0] == row.1
    ensures forall key :: key in Keyed(rows) ==> (key, Keyed(rows)[key]) in rows
  {
    hide Keyed;
    KeyedHolds(rows);
    forall key | key in Keyed(rows) ensures (key, Keyed(rows)[key]) in rows { KeyedKeys(rows, key); }
  }

  function KeysIn<V>(rows: seq<(Key, V)>): seq<Key> {
    seq(|rows|, i requires 0 <= i < |rows| => rows[i].0)
  }

  lemma KeysJoin<V>(a: seq<(Key, V)>, b: seq<(Key, V)>)
    ensures KeysIn(a + b) == KeysIn(a) + KeysIn(b)
  {
  }

  lemma KeysContain<V>(rows: seq<(Key, V)>, i: nat)
    requires i < |rows|
    ensures rows[i].0 in KeysIn(rows)
  {
    assert KeysIn(rows)[i] == rows[i].0;
  }

  lemma KeysFind<V>(rows: seq<(Key, V)>, key: Key) returns (i: nat)
    requires key in KeysIn(rows)
    ensures i < |rows| && rows[i].0 == key
  {
    i :| 0 <= i < |rows| && KeysIn(rows)[i] == key;
  }

  lemma SortedKeysAreKeys<V>(rows: seq<(Key, V)>)
    ensures |Sort(KeysIn(rows))| == |rows|
    ensures forall i :: 0 <= i < |rows| ==> Sort(KeysIn(rows))[i] in Keyed(rows)
  {
    var keys := KeysIn(rows);
    SortSorts(keys);
    SameElements(Sort(keys), keys);
    forall i | 0 <= i < |rows| ensures Sort(keys)[i] in Keyed(rows) {
      assert Sort(keys)[i] in keys;
      KeyedKeys(rows, Sort(keys)[i]);
    }
  }

  /** The rows in ascending key order; the last row of a repeated key wins. */
  function InKeyOrder<V>(rows: seq<(Key, V)>): seq<(Key, V)> {
    SortedKeysAreKeys(rows);
    var keys, m := Sort(KeysIn(rows)), Keyed(rows);
    seq(|rows|, i requires 0 <= i < |rows| => (keys[i], m[keys[i]]))
  }

  /** Sorting distinctly keyed rows by key rearranges them. */
  lemma InKeyOrderSorts<V>(rows: seq<(Key, V)>)
    requires DistinctlyKeyed(rows)
    ensures DistinctlyKeyed(InKeyOrder(rows)) && Ascending(KeysIn(InKeyOrder(rows)))
    ensures forall row :: row in InKeyOrder(rows) <==> row in rows
  {
    hide Keyed, Sort, Le;
    var keys, sorted := KeysIn(rows), InKeyOrder(rows);
    SortSorts(keys);
    NoRepeatsIsMultiset(keys, Sort(keys));
    KeyedIsRelation(rows);
    assert KeysIn(sorted) == Sort(keys);
    SortedKeysAreKeys(rows);
    forall j | 0 <= j < |sorted| ensures sorted[j] in rows { assert Sort(keys)[j] in Keyed(rows); }
    forall row | row in rows ensures row in sorted {
      var i :| 0 <= i < |rows| && rows[i] == row;
      assert keys[i] in Sort(keys);
      var j :| 0 <= j < |Sort(keys)| && Sort(keys)[j] == row.0;
      assert sorted[j] == row;
    }
  }

  lemma InKeyOrderIsCanonical<V>(a: seq<(Key, V)>, b: seq<(Key, V)>)
    requires DistinctlyKeyed(a) && multiset(a) == multiset(b)
    ensures InKeyOrder(a) == InKeyOrder(b)
  {
    hide Keyed;
    KeyedIsCanonical(a, b);
    SameElements(a, b);
    KeysShuffle(a, b);
    SortIsCanonical(KeysIn(a), KeysIn(b));
  }

  lemma RemoveAt<T>(xs: seq<T>, i: nat)
    requires i < |xs|
    ensures multiset(xs[..i] + xs[i + 1..]) == multiset(xs) - multiset{xs[i]}
  {
    assert xs == xs[..i] + [xs[i]] + xs[i + 1..];
  }

  function Mapped<T, U>(f: T -> U, xs: seq<T>): seq<U> {
    seq(|xs|, i requires 0 <= i < |xs| => f(xs[i]))
  }

  lemma MappedWithout<T, U>(f: T -> U, xs: seq<T>, i: nat)
    requires i < |xs|
    ensures multiset(Mapped(f, xs)) == multiset(Mapped(f, xs[..i] + xs[i + 1..])) + multiset{f(xs[i])}
  {
    var ys := Mapped(f, xs);
    RemoveAt(ys, i);
    assert Mapped(f, xs[..i] + xs[i + 1..]) == ys[..i] + ys[i + 1..];
    assert ys[i] in multiset(ys);
  }

  /** Mapping permutations of a list gives permutations of one list. */
  lemma {:induction false} MappedShuffles<T, U>(f: T -> U, a: seq<T>, b: seq<T>)
    requires multiset(a) == multiset(b)
    ensures multiset(Mapped(f, a)) == multiset(Mapped(f, b))
    decreases |a|
  {
    hide Mapped;
    SameElements(a, b);
    if a == [] {
      assert a == b;
    } else {
      assert a[0] in b;
      var i :| 0 <= i < |b| && b[i] == a[0];
      SameWithout(a, b, i);
      MappedShuffles(f, a[..0] + a[1..], b[..i] + b[i + 1..]);
      MappedWithout(f, a, 0);
      MappedWithout(f, b, i);
    }
  }

  lemma SameWithout<T>(a: seq<T>, b: seq<T>, i: nat)
    requires a != [] && i < |b| && b[i] == a[0] && multiset(a) == multiset(b)
    ensures multiset(a[..0] + a[1..]) == multiset(b[..i] + b[i + 1..]) && |a[..0] + a[1..]| < |a|
  {
    RemoveAt(a, 0);
    RemoveAt(b, i);
  }

  lemma KeysShuffle<V>(a: seq<(Key, V)>, b: seq<(Key, V)>)
    requires multiset(a) == multiset(b)
    ensures multiset(KeysIn(a)) == multiset(KeysIn(b))
  {
    var f := (row: (Key, V)) => row.0;
    MappedShuffles(f, a, b);
    assert KeysIn(a) == Mapped(f, a) && KeysIn(b) == Mapped(f, b);
  }

  /** Two key-sorted lists of the same distinctly keyed rows are equal. */
  lemma SortedRowsAreUnique<V>(a: seq<(Key, V)>, b: seq<(Key, V)>)
    requires Ascending(KeysIn(a)) && Ascending(KeysIn(b)) && DistinctlyKeyed(a) && DistinctlyKeyed(b)
    requires forall row :: row in a <==> row in b
    ensures a == b
  {
    SameSetSameBag(a, b);
    KeysShuffle(a, b);
    AscendingIsUnique(KeysIn(a), KeysIn(b));
    assert |KeysIn(a)| == |a| && |KeysIn(b)| == |b|;
    forall i | 0 <= i < |a| ensures a[i] == b[i] {
      assert KeysIn(a)[i] == a[i].0 && KeysIn(b)[i] == b[i].0;
      assert b[i] in a;
      OneRowPerKey(a, a[i], b[i]);
    }
  }

  /** Lists without repeats that have the same elements are permutations of each other. */
  lemma SameSetSameBag<T>(a: seq<T>, b: seq<T>)
    requires NoRepeats(a) && NoRepeats(b) && forall x :: x in a <==> x in b
    ensures multiset(a) == multiset(b)
  {
    CountOnce(a);
    CountOnce(b);
    forall x ensures multiset(a)[x] == multiset(b)[x] {
      assert x in a <==> x in multiset(a);
      assert x in b <==> x in multiset(b);
    }
  }

  /** The positions at which a list has a property. */
  ghost function Where<T>(xs: seq<T>, holds: T -> bool): (positions: set<int>)
    ensures forall i :: i in positions <==> 0 <= i < |xs| && holds(xs[i])
  {
    set i | 0 <= i < |xs| && holds(xs[i])
  }

  lemma WhereStep<T>(xs: seq<T>, holds: T -> bool)
    ensures xs == [] ==> |Where(xs, holds)| == 0
    ensures xs != [] ==> |Where(xs, holds)| == |Where(xs[..|xs| - 1], holds)| + if holds(xs[|xs| - 1]) then 1 else 0
  {
    if xs == [] {
      assert Where(xs, holds) == {};
    } else {
      var n := |xs| - 1;
      assert Where(xs, holds) == Where(xs[..n], holds) + if holds(xs[n]) then {n} else {};
    }
  }

  function Total(ns: seq<nat>): nat {
    if ns == [] then 0 else Total(ns[..|ns| - 1]) + ns[|ns| - 1]
  }

  /** The multiplicities of a multiset's distinct elements add up to its size. */
  lemma {:induction false} CountsTotal<T>(m: multiset<T>, xs: seq<T>, ns: seq<nat>)
    requires |xs| == |ns| && NoRepeats(xs) && forall i :: 0 <= i < |xs| ==> ns[i] == m[xs[i]]
    requires forall x :: x in m ==> x in xs
    ensures Total(ns) == |m|
    decreases |xs|
  {
    if xs == [] {
      assert m == multiset{};
    } else {
      var n := |xs| - 1;
      var rest := m[xs[n] := 0];
      assert xs == xs[..n] + [xs[n]];
      CountsTotal(rest, xs[..n], ns[..n]);
    }
  }

  // ---------------------------------------------------------------- numbers

  predicate AtMost(a: nat, b: nat) { a <= b }

  function SortNats(xs: seq<nat>): seq<nat> { SortBy(AtMost, xs) }

  ghost predicate Rising(xs: seq<nat>) {
    forall i, j :: 0 <= i < j < |xs| ==> xs[i] <= xs[j]
  }

  lemma SortNatsSorts(xs: seq<nat>)
    ensures Rising(SortNats(xs)) && multiset(SortNats(xs)) == multiset(xs)
  {
    hide SortBy;
    SortBySorts(AtMost, x => 0, xs);
  }

  lemma RisingIsUnique(xs: seq<nat>, ys: seq<nat>)
    requires Rising(xs) && Rising(ys) && multiset(xs) == multiset(ys)
    ensures xs == ys
  {
    OrderIsUnique(AtMost, xs, ys);
  }

  /** Sums do not depend on the order of their terms. */
  lemma {:induction false} TotalShuffles(a: seq<nat>, b: seq<nat>)
    requires multiset(a) == multiset(b)
    ensures Total(a) == Total(b)
    decreases |a|
  {
    SameElements(a, b);
    if a != [] {
      var n := |a| - 1;
      assert a[n] in b;
      var i :| 0 <= i < |b| && b[i] == a[n];
      RemoveAt(a, n);
      RemoveAt(b, i);
      assert a[..n] + a[n + 1..] == a[..n];
      TotalShuffles(a[..n], b[..i] + b[i + 1..]);
      TotalWithout(b, i);
    }
  }

  lemma {:induction false} TotalJoins(a: seq<nat>, b: seq<nat>)
    ensures Total(a + b) == Total(a) + Total(b)
  {
    if b == [] {
      assert a + b == a;
    } else {
      var n := |b| - 1;
      TotalJoins(a, b[..n]);
      assert (a + b)[..|a + b| - 1] == a + b[..n];
    }
  }

  lemma TotalWithout(xs: seq<nat>, i: nat)
    requires i < |xs|
    ensures Total(xs) == Total(xs[..i] + xs[i + 1..]) + xs[i]
  {
    hide Total;
    assert xs == xs[..i] + ([xs[i]] + xs[i + 1..]);
    TotalJoins(xs[..i], [xs[i]] + xs[i + 1..]);
    TotalJoins([xs[i]], xs[i + 1..]);
    TotalJoins(xs[..i], xs[i + 1..]);
    TotalOne(xs[i]);
  }

  lemma TotalOne(n: nat)
    ensures Total([n]) == n
  {
    assert [n][..0] == [];
  }
}
