/** Sums over sequences of weights, for the termination measures. */
module Sums {

  function Sum(ws: seq<nat>): nat {
    if ws == [] then 0 else Sum(ws[..|ws| - 1]) + ws[|ws| - 1]
  }

  lemma {:induction false} SumConcat(a: seq<nat>, b: seq<nat>)
    ensures Sum(a + b) == Sum(a) + Sum(b)
    decreases |b|
  {
    if b == [] {
      assert a + b == a;
    } else {
      assert (a + b)[..|a + b| - 1] == a + b[..|b| - 1];
      SumConcat(a, b[..|b| - 1]);
    }
  }

  lemma {:induction false} SumConstant(ws: seq<nat>, w: nat)
    requires forall k :: 0 <= k < |ws| ==> ws[k] == w
    ensures Sum(ws) == |ws| * w
  {
    if ws != [] {
      SumConstant(ws[..|ws| - 1], w);
    }
  }

  lemma SumOne(w: nat)
    ensures Sum([w]) == w
  {
    assert [w][..0] == [];
  }

  lemma SumTaken(ws: seq<nat>, i: nat)
    requires i < |ws|
    ensures Sum(ws) == Sum(ws[..i] + ws[i + 1..]) + ws[i]
  {
    var a, x, b := ws[..i], ws[i], ws[i + 1..];
    SumConcat(a, b);
    SumConcat(a, [x]);
    SumConcat(a + [x], b);
    assert ws == (a + [x]) + b;
    SumOne(x);
  }

  lemma SumUpdated(ws: seq<nat>, i: nat, w: nat)
    requires i < |ws|
    ensures Sum(ws[i := w]) + ws[i] == Sum(ws) + w
  {
    SumTaken(ws, i);
    SumTaken(ws[i := w], i);
    assert ws[i := w][..i] + ws[i := w][i + 1..] == ws[..i] + ws[i + 1..];
  }

  lemma {:induction false} DistinctFits<T>(xs: seq<T>, s: set<T>)
    requires forall x <- xs :: x in s
    requires forall i, j :: 0 <= i < j < |xs| ==> xs[i] != xs[j]
    ensures |xs| <= |s|
  {
    if xs != [] {
      var x := xs[|xs| - 1];
      DistinctFits(xs[..|xs| - 1], s - {x});
    }
  }
}
