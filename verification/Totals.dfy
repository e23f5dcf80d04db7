// Sums over the rows of a table. Every quantity the other modules conserve
// (live reservations, consumed reservations, tickets, credits, audits) is a
// Total of some weight over a row sequence.
module Totals {

  function Total<T>(xs: seq<T>, w: T -> int): int {
    if |xs| == 0 then 0 else Total(xs[..|xs| - 1], w) + w(xs[|xs| - 1])
  }

  lemma TotalAppend<T>(xs: seq<T>, x: T, w: T -> int)
    ensures Total(xs + [x], w) == Total(xs, w) + w(x)
  {
    assert (xs + [x])[..|xs|] == xs;
  }

  lemma {:induction false} TotalConcat<T>(xs: seq<T>, ys: seq<T>, w: T -> int)
    ensures Total(xs + ys, w) == Total(xs, w) + Total(ys, w)
  {
    if |ys| == 0 {
      assert xs + ys == xs;
    } else {
      var front := ys[..|ys| - 1];
      TotalConcat(xs, front, w);
      assert xs + ys == (xs + front) + [ys[|ys| - 1]];
      TotalAppend(xs + front, ys[|ys| - 1], w);
    }
  }

  lemma {:induction false} TotalUpdate<T>(xs: seq<T>, i: nat, x: T, w: T -> int)
    requires i < |xs|
    ensures Total(xs[i := x], w) == Total(xs, w) - w(xs[i]) + w(x)
  {
    var n := |xs| - 1;
    if i == n {
      assert xs[i := x][..n] == xs[..n];
    } else {
      TotalUpdate(xs[..n], i, x, w);
      assert xs[i := x][..n] == xs[..n][i := x];
    }
  }

  lemma {:induction false} TotalMono<T>(xs: seq<T>, ys: seq<T>, v: T -> int, w: T -> int)
    requires |xs| == |ys|
    requires forall i :: 0 <= i < |xs| ==> v(xs[i]) <= w(ys[i])
    ensures Total(xs, v) <= Total(ys, w)
  {
    if |xs| != 0 {
      TotalMono(xs[..|xs| - 1], ys[..|ys| - 1], v, w);
    }
  }

  lemma TotalSame<T>(xs: seq<T>, ys: seq<T>, v: T -> int, w: T -> int)
    requires |xs| == |ys|
    requires forall i :: 0 <= i < |xs| ==> v(xs[i]) == w(ys[i])
    ensures Total(xs, v) == Total(ys, w)
  {
    TotalMono(xs, ys, v, w);
    TotalMono(ys, xs, w, v);
  }

  // Of two weights, one above the other everywhere, the totals agree exactly when
  // the weights do.
  lemma {:induction false} TotalEqualIff<T>(xs: seq<T>, ys: seq<T>, v: T -> int, w: T -> int)
    requires |xs| == |ys|
    requires forall i :: 0 <= i < |xs| ==> v(xs[i]) <= w(ys[i])
    ensures Total(xs, v) == Total(ys, w) <==> forall i :: 0 <= i < |xs| ==> v(xs[i]) == w(ys[i])
  {
    if |xs| != 0 {
      TotalMono(xs[..|xs| - 1], ys[..|ys| - 1], v, w);
      TotalEqualIff(xs[..|xs| - 1], ys[..|ys| - 1], v, w);
    }
  }

  lemma {:induction false} TotalNonNegative<T>(xs: seq<T>, w: T -> int)
    requires forall j :: 0 <= j < |xs| ==> 0 <= w(xs[j])
    ensures 0 <= Total(xs, w)
  {
    if |xs| != 0 {
      TotalNonNegative(xs[..|xs| - 1], w);
    }
  }

  // A row of a non-negative weight never weighs more than the whole table.
  lemma {:induction false} TotalAtLeast<T>(xs: seq<T>, i: nat, w: T -> int)
    requires i < |xs|
    requires forall j :: 0 <= j < |xs| ==> 0 <= w(xs[j])
    ensures w(xs[i]) <= Total(xs, w)
  {
    var n := |xs| - 1;
    TotalNonNegative(xs[..n], w);
    if i < n {
      TotalAtLeast(xs[..n], i, w);
    }
  }
}
