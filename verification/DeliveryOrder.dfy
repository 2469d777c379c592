/** Orders of first delivery, over any sequence of distinct items and any log of deliveries. */
module DeliveryOrder {

  predicate Distinct<T(==)>(es: seq<T>) {
    forall i, j :: 0 <= i < j < |es| ==> es[i] != es[j]
  }

  /** Every delivery of an item comes after a delivery of each item before it. */
  predicate Ordered<T(==)>(es: seq<T>, d: seq<T>) {
    forall i, j, q :: 0 <= i < j < |es| && 0 <= q < |d| && d[q] == es[j] ==> es[i] in d[..q]
  }

  /** The deliveries without repetitions. */
  function FirstOccurrences<T(==)>(d: seq<T>): seq<T> {
    if d == [] then []
    else
      var n := |d| - 1;
      var before := FirstOccurrences(d[..n]);
      if d[n] in d[..n] then before else before + [d[n]]
  }

  predicate AllBefore<T(==)>(es: seq<T>, j: nat, d: seq<T>)
    requires j <= |es|
  {
    forall i :: 0 <= i < j ==> es[i] in d
  }

  lemma OrderedAppend<T>(es: seq<T>, d: seq<T>, j: nat)
    requires Distinct(es) && j < |es|
    ensures Ordered(es, d + [es[j]]) <==> Ordered(es, d) && AllBefore(es, j, d)
  {
    var d' := d + [es[j]];
    assert forall q :: 0 <= q <= |d| ==> d'[..q] == d[..q];
    assert d[..|d|] == d && d'[|d|] == es[j];
    if Ordered(es, d') {
      forall i | 0 <= i < j
        ensures es[i] in d
      {
        assert es[i] in d'[..|d|];
      }
      forall i, k, q | 0 <= i < k < |es| && 0 <= q < |d| && d[q] == es[k]
        ensures es[i] in d[..q]
      {
        assert d'[q] == es[k];
      }
    }
    if Ordered(es, d) && AllBefore(es, j, d) {
      forall i, k, q | 0 <= i < k < |es| && 0 <= q < |d'| && d'[q] == es[k]
        ensures es[i] in d'[..q]
      {
        if q < |d| {
          assert d[q] == es[k];
        } else {
          assert k == j;
        }
      }
    }
  }

  lemma {:induction false} FirstOccurrencesHoldAll<T>(d: seq<T>, x: T)
    ensures x in FirstOccurrences(d) <==> x in d
    decreases |d|
  {
    if d != [] {
      var n := |d| - 1;
      FirstOccurrencesHoldAll(d[..n], x);
      assert d == d[..n] + [d[n]];
    }
  }

  lemma PrefixNext<T>(es: seq<T>, f: seq<T>, j: nat)
    requires Distinct(es) && f <= es && j < |es| && es[j] !in f
    ensures f + [es[j]] <= es <==> j == |f|
    ensures j >= |f|
  {
    assert forall i :: 0 <= i < |f| ==> f[i] == es[i];
    if f + [es[j]] <= es {
      assert (f + [es[j]])[|f|] == es[|f|];
    }
  }

  /** Ordered is what it says on the log: reduced to first occurrences it is a prefix of the items. */
  lemma {:induction false} OrderedIffPrefix<T>(es: seq<T>, d: seq<T>)
    requires Distinct(es) && forall q :: 0 <= q < |d| ==> d[q] in es
    ensures Ordered(es, d) <==> FirstOccurrences(d) <= es
    decreases |d|
  {
    if d != [] {
      var n := |d| - 1;
      var before, x, f := d[..n], d[n], FirstOccurrences(d[..n]);
      OrderedIffPrefix(es, before);
      var j :| 0 <= j < |es| && es[j] == x;
      assert d == before + [x];
      OrderedAppend(es, before, j);
      FirstOccurrencesHoldAll(before, x);
      if f <= es {
        forall i | 0 <= i < |es|
          ensures es[i] in before <==> i < |f|
        {
          FirstOccurrencesHoldAll(before, es[i]);
          assert i < |f| ==> es[i] == f[i];
        }
        if x !in before {
          PrefixNext(es, f, j);
        }
      }
    }
  }

  // --- Delivering a batch --------------------------------------------------------------------------

  predicate Ascending(ps: seq<nat>, n: nat) {
    && (forall k :: 0 <= k < |ps| ==> ps[k] < n)
    && (forall k, l :: 0 <= k < l < |ps| ==> ps[k] < ps[l])
  }

  function Pick<T>(es: seq<T>, ps: seq<nat>): (xs: seq<T>)
    requires forall k :: 0 <= k < |ps| ==> ps[k] < |es|
    ensures |xs| == |ps| && forall k :: 0 <= k < |ps| ==> xs[k] == es[ps[k]]
  {
    seq(|ps|, k requires 0 <= k < |ps| => es[ps[k]])
  }

  lemma PickMembers<T>(es: seq<T>, ps: seq<nat>, i: nat)
    requires Distinct(es) && (forall k :: 0 <= k < |ps| ==> ps[k] < |es|) && i < |es|
    ensures es[i] in Pick(es, ps) <==> i in ps
  {
    if es[i] in Pick(es, ps) {
      var k :| 0 <= k < |ps| && Pick(es, ps)[k] == es[i];
      assert ps[k] == i;
    }
    if i in ps {
      var k :| 0 <= k < |ps| && ps[k] == i;
      assert Pick(es, ps)[k] == es[i];
    }
  }

  /** Whoever precedes a picked position is picked too or was delivered already. */
  predicate NothingSkipped<T(==)>(es: seq<T>, d: seq<T>, ps: seq<nat>)
    requires forall k :: 0 <= k < |ps| ==> ps[k] < |es|
  {
    forall k, i :: 0 <= k < |ps| && 0 <= i < ps[k] ==> i in ps || es[i] in d
  }

  lemma {:induction false} OrderedBatch<T>(es: seq<T>, d: seq<T>, ps: seq<nat>)
    requires Distinct(es) && Ascending(ps, |es|)
    ensures Ordered(es, d + Pick(es, ps)) <==> Ordered(es, d) && NothingSkipped(es, d, ps)
    decreases |ps|
  {
    if ps == [] {
      assert d + Pick(es, ps) == d;
    } else {
      var n := |ps| - 1;
      var before := d + Pick(es, ps[..n]);
      OrderedBatch(es, d, ps[..n]);
      assert d + Pick(es, ps) == before + [es[ps[n]]];
      OrderedAppend(es, before, ps[n]);
      forall i | 0 <= i < ps[n]
        ensures es[i] in before <==> i in ps || es[i] in d
      {
        PickMembers(es, ps[..n], i);
        assert i in ps <==> i in ps[..n];
      }
      SkippedInPrefix(es, d, ps);
    }
  }

  lemma SkippedInPrefix<T>(es: seq<T>, d: seq<T>, ps: seq<nat>)
    requires ps != [] && Ascending(ps, |es|)
    ensures var n := |ps| - 1;
            NothingSkipped(es, d, ps) <==>
            NothingSkipped(es, d, ps[..n]) && forall i :: 0 <= i < ps[n] ==> i in ps || es[i] in d
  {
    var n := |ps| - 1;
    forall k, i | 0 <= k < n && 0 <= i < ps[k]
      ensures i in ps <==> i in ps[..n]
    {
      assert ps[k] < ps[n];
    }
    assert forall k :: 0 <= k < n ==> ps[..n][k] == ps[k];
  }

  // --- Delivering in any order -------------------------------------------------------------------------

  /** Whoever precedes a delivered item was delivered already, or earlier in xs. */
  predicate Extends<T(==)>(es: seq<T>, d: seq<T>, xs: seq<T>) {
    forall k, i, j :: 0 <= k < |xs| && 0 <= i < j < |es| && es[j] == xs[k] ==> es[i] in d || es[i] in xs[..k]
  }

  lemma ExtendsNext<T>(es: seq<T>, d: seq<T>, xs: seq<T>, j: nat)
    requires Distinct(es) && j < |es|
    ensures Extends(es, d, xs + [es[j]]) <==> Extends(es, d, xs) && AllBefore(es, j, d + xs)
  {
    var xs' := xs + [es[j]];
    assert forall k :: 0 <= k <= |xs| ==> xs'[..k] == xs[..k];
    assert xs[..|xs|] == xs && xs'[|xs|] == es[j];
    if Extends(es, d, xs') {
      forall k, i, l | 0 <= k < |xs| && 0 <= i < l < |es| && es[l] == xs[k]
        ensures es[i] in d || es[i] in xs[..k]
      {
        assert xs'[k] == xs[k];
      }
      forall i | 0 <= i < j
        ensures es[i] in d + xs
      {
        assert es[i] in d || es[i] in xs'[..|xs|];
      }
    }
    if Extends(es, d, xs) && AllBefore(es, j, d + xs) {
      forall k, i, l | 0 <= k < |xs'| && 0 <= i < l < |es| && es[l] == xs'[k]
        ensures es[i] in d || es[i] in xs'[..k]
      {
        if k < |xs| {
          assert xs'[k] == xs[k];
        } else {
          assert l == j;
        }
      }
    }
  }

  lemma {:induction false} OrderedExtend<T>(es: seq<T>, d: seq<T>, xs: seq<T>)
    requires Distinct(es) && forall k :: 0 <= k < |xs| ==> xs[k] in es
    ensures Ordered(es, d + xs) <==> Ordered(es, d) && Extends(es, d, xs)
    decreases |xs|
  {
    if xs == [] {
      assert d + xs == d;
    } else {
      var n := |xs| - 1;
      OrderedExtend(es, d, xs[..n]);
      var j :| 0 <= j < |es| && es[j] == xs[n];
      OrderedAppend(es, d + xs[..n], j);
      ExtendsNext(es, d, xs[..n], j);
      SplitLast(d, xs);
    }
  }

  lemma SplitLast<T>(d: seq<T>, xs: seq<T>)
    requires xs != []
    ensures var n := |xs| - 1; xs == xs[..n] + [xs[n]] && d + xs == d + xs[..n] + [xs[n]]
  {
  }

  // --- A new item among the others -------------------------------------------------------------------

  function InsertAt<T>(es: seq<T>, p: nat, e: T): seq<T>
    requires p <= |es|
  {
    es[..p] + [e] + es[p..]
  }

  /** An undelivered item squeezed in at p breaks the order exactly when something from p on was delivered. */
  lemma OrderedInsert<T>(es: seq<T>, p: nat, e: T, d: seq<T>)
    requires p <= |es| && e !in d
    ensures Ordered(InsertAt(es, p, e), d) <==>
            Ordered(es, d) && forall j :: p <= j < |es| ==> es[j] !in d
  {
    var es' := InsertAt(es, p, e);
    if Ordered(es', d) {
      forall j | p <= j < |es|
        ensures es[j] !in d
      {
        assert es'[j + 1] == es[j] && es'[p] == e;
        forall q | 0 <= q < |d|
          ensures d[q] != es[j]
        {
          assert e !in d[..q];
        }
      }
      forall i, j, q | 0 <= i < j < |es| && 0 <= q < |d| && d[q] == es[j]
        ensures es[i] in d[..q]
      {
        assert es'[if i < p then i else i + 1] == es[i];
        assert es'[if j < p then j else j + 1] == es[j];
      }
    }
    if Ordered(es, d) && forall j :: p <= j < |es| ==> es[j] !in d {
      forall i, j, q | 0 <= i < j < |es'| && 0 <= q < |d| && d[q] == es'[j]
        ensures es'[i] in d[..q]
      {
        assert d[q] in d;
        assert j < p;
        assert es'[i] == es[i] && es'[j] == es[j];
      }
    }
  }
}
