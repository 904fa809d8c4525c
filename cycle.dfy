/**
 * The circular selector `core::util::Cycle` (its source is not part of this model):
 * a fixed non-empty list and a current index; `next`/`prev` step the index by one,
 * wrapping modulo the length, and `get` returns the current value by copy.
 */
module Cycles {
  import opened Arithmetic

  datatype Cycle<T> = Cycle(items: seq<T>, index: nat)
  {
    predicate Valid() { 0 < |items| && index < |items| }

    function Get(): (v: T)
      requires Valid()
      ensures v == items[index]
    {
      items[index]
    }

    function Next(): (c: Cycle<T>)
      requires Valid()
      ensures c.Valid() && c.items == items
    {
      Cycle(items, (index + 1) % |items|)
    }

    function Prev(): (c: Cycle<T>)
      requires Valid()
      ensures c.Valid() && c.items == items
    {
      Cycle(items, (index + |items| - 1) % |items|)
    }
  }

  /** A selector positioned on the first value. */
  function New<T>(items: seq<T>): (c: Cycle<T>)
    requires 0 < |items|
    ensures c.Valid() && c.items == items && c.Get() == items[0]
  {
    Cycle(items, 0)
  }

  /** `next` then `prev`, or `prev` then `next`, gives back the selector it started from. */
  lemma NextPrev<T>(c: Cycle<T>)
    requires c.Valid()
    ensures c.Next().Prev() == c && c.Prev().Next() == c
  {
    var n, i := |c.items|, c.index;
    if i + 1 < n {
      DivModUnique(i + 1, n, 0, i + 1);
      DivModUnique(i + 1 + n - 1, n, 1, i);
    } else {
      DivModUnique(i + 1, n, 1, 0);
      DivModUnique(n - 1, n, 0, i);
    }
    if i == 0 {
      DivModUnique(n - 1, n, 0, n - 1);
      DivModUnique(n, n, 1, 0);
    } else {
      DivModUnique(i + n - 1, n, 1, i - 1);
      DivModUnique(i, n, 0, i);
    }
  }

  /** `next` taken `k` times. */
  function Advance<T>(c: Cycle<T>, k: nat): (d: Cycle<T>)
    requires c.Valid()
    ensures d.Valid() && d.items == c.items
  {
    if k == 0 then c else Advance(c, k - 1).Next()
  }

  /** Stepping `k` times moves the index `k` places around the circle. */
  lemma {:induction false} AdvanceIndex<T>(c: Cycle<T>, k: nat)
    requires c.Valid()
    ensures Advance(c, k).index == (c.index + k) % |c.items|
  {
    if k > 0 {
      AdvanceIndex(c, k - 1);
      var n, j := |c.items|, c.index + k - 1;
      assert Advance(c, k).index == (j % n + 1) % n;
      ModStep(j, n);
    }
  }

  lemma ModStep(j: nat, n: nat)
    requires 0 < n
    ensures (j % n + 1) % n == (j + 1) % n
  {
    var q := j / n;
    assert j == q * n + j % n;
    if j % n + 1 < n {
      DivModUnique(j % n + 1, n, 0, j % n + 1);
      DivModUnique(j + 1, n, q, j % n + 1);
    } else {
      assert j + 1 == (q + 1) * n + 0;
      DivModUnique(j % n + 1, n, 1, 0);
      DivModUnique(j + 1, n, q + 1, 0);
    }
  }

  /** A full turn returns every selector to where it started. */
  lemma FullTurn<T>(c: Cycle<T>)
    requires c.Valid()
    ensures Advance(c, |c.items|) == c
  {
    AdvanceIndex(c, |c.items|);
    DivModUnique(c.index + |c.items|, |c.items|, 1, c.index);
  }
}
