/** Fetching every page of one list before anything is committed. */
module Fetching {
  import opened Prelude
  import Paging

  datatype Sheet<+R> = Sheet(total: int, rows: seq<R>)

  /** The answer for each page number; nothing when the fetch fails or its header is inconsistent. */
  type Source<!R> = nat -> Option<Sheet<R>>

  function AtLeastZero(total: int): nat { if total < 0 then 0 else total }

  function PageCount(total: int, size: nat): nat
    requires size >= 1
  {
    Paging.Pages(AtLeastZero(total), size)
  }

  /** Page `p` carries the expected total and exactly the rows due on it. */
  predicate Fits<R>(total: int, size: nat, p: nat, answer: Option<Sheet<R>>)
    requires p >= 1
  {
    answer.Some? && answer.value.total == total && |answer.value.rows| == Paging.RowCount(AtLeastZero(total), size, p)
  }

  /** All pages answer consistently under the first page's total. */
  ghost predicate Answers<R>(source: Source<R>, size: nat, maxPages: nat)
    requires size >= 1
  {
    && source(1).Some?
    && var total := source(1).value.total;
       && PageCount(total, size) <= maxPages
       && forall p :: 1 <= p <= PageCount(total, size) ==> Fits(total, size, p, source(p))
  }

  function Flatten<R>(pages: seq<seq<R>>): seq<R> {
    if pages == [] then [] else Flatten(pages[..|pages| - 1]) + pages[|pages| - 1]
  }

  /** The rows of pages 1..n as the source answers them. */
  ghost function Bodies<R>(source: Source<R>, n: nat): seq<seq<R>> {
    seq(n, i requires 0 <= i < n => if source(i + 1).Some? then source(i + 1).value.rows else [])
  }

  lemma FlattenOne<R>(pages: seq<seq<R>>, c: nat)
    requires c < |pages|
    ensures Flatten(pages[..c + 1]) == Flatten(pages[..c]) + pages[c]
  {
    assert pages[..c + 1][..c] == pages[..c];
  }

  /** Fetches pages 1, 2, ... up to the announced last one.  It succeeds exactly when every page
      answers consistently, and then holds as many rows as were announced. */
  method FetchList<R>(source: Source<R>, size: nat, maxPages: nat) returns (r: Option<seq<seq<R>>>)
    requires size >= 1
    ensures r.Some? <==> Answers(source, size, maxPages)
    ensures r.Some? ==> r.value == Bodies(source, PageCount(source(1).value.total, size))
                        && |Flatten(r.value)| == AtLeastZero(source(1).value.total)
    ensures r.Some? ==> forall p :: 1 <= p <= |r.value| ==>
                                      source(p).Some? && source(p).value.total == source(1).value.total && source(p).value.rows == r.value[p - 1]
  {
    hide Paging.Pages, Paging.RowCount, Bodies, Flatten;
    var pages: seq<seq<R>> := [];
    NoBodies(source);
    var expected: Option<int> := None;
    var p := 1;
    while expected.None? || p <= PageCount(expected.value, size)
      invariant p >= 1 && pages == Bodies(source, p - 1) && (expected.None? <==> p == 1)
      invariant expected.Some? ==> source(1).Some? && expected.value == source(1).value.total
                                   && p <= PageCount(expected.value, size) + 1 && PageCount(expected.value, size) <= maxPages
                                   && |Flatten(pages)| == Paging.RowsThrough(AtLeastZero(expected.value), size, p - 1)
      invariant forall q :: 1 <= q < p ==> expected.Some? && Fits(expected.value, size, q, source(q))
      decreases expected.None?, if expected.Some? then PageCount(expected.value, size) + 1 - p else 0
    {
      var answer := source(p);
      if answer.None? { return None; }
      var total := answer.value.total;
      if expected.None? {
        if PageCount(total, size) > maxPages { return None; }
        expected := Some(total);
        AtLeastOnePage(AtLeastZero(total), size);
      }
      if !Fits(expected.value, size, p, answer) { return None; }
      OneMoreBody(source, p);
      pages, p := pages + [answer.value.rows], p + 1;
    }
    Paging.PagesAddUp(AtLeastZero(expected.value), size);
    forall q | 1 <= q <= p - 1 ensures |pages| == p - 1 && source(q).Some? && pages[q - 1] == source(q).value.rows {
      assert Fits(expected.value, size, q, source(q));
      BodyAt(source, p - 1, q);
    }
    r := Some(pages);
  }

  lemma BodyAt<R>(source: Source<R>, n: nat, q: nat)
    requires 1 <= q <= n && source(q).Some?
    ensures |Bodies(source, n)| == n && Bodies(source, n)[q - 1] == source(q).value.rows
  {
  }

  lemma NoBodies<R>(source: Source<R>)
    ensures Bodies(source, 0) == [] && Flatten(Bodies(source, 0)) == []
  {
  }

  lemma OneMoreBody<R>(source: Source<R>, p: nat)
    requires p >= 1 && source(p).Some?
    ensures Bodies(source, p) == Bodies(source, p - 1) + [source(p).value.rows]
    ensures |Flatten(Bodies(source, p))| == |Flatten(Bodies(source, p - 1))| + |source(p).value.rows|
  {
    assert Bodies(source, p)[..p - 1] == Bodies(source, p - 1);
  }

  lemma AtLeastOnePage(total: nat, size: nat)
    requires size >= 1
    ensures Paging.Pages(total, size) >= 1
  {
  }
}
