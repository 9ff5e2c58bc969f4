/** How many entries of a sequence satisfy a predicate, and sums over a sequence. */
module Counting {

  function Count<T>(xs: seq<T>, f: T -> bool): (n: nat)
    ensures n <= |xs|
  {
    if xs == [] then 0
    else Count(xs[..|xs| - 1], f) + if f(xs[|xs| - 1]) then 1 else 0
  }

  function Total<T>(xs: seq<T>, f: T -> int): int {
    if xs == [] then 0 else Total(xs[..|xs| - 1], f) + f(xs[|xs| - 1])
  }

  lemma {:induction false} CountUpdate<T>(xs: seq<T>, i: nat, x: T, f: T -> bool)
    requires i < |xs|
    ensures Count(xs[i := x], f) == Count(xs, f) - (if f(xs[i]) then 1 else 0) + if f(x) then 1 else 0
  {
    var n := |xs| - 1;
    if i == n {
      assert xs[i := x][..n] == xs[..n];
    } else {
      CountUpdate(xs[..n], i, x, f);
      assert xs[i := x][..n] == xs[..n][i := x];
    }
  }

  lemma CountAppend<T>(xs: seq<T>, x: T, f: T -> bool)
    ensures Count(xs + [x], f) == Count(xs, f) + if f(x) then 1 else 0
  {
    assert (xs + [x])[..|xs|] == xs;
  }

  /** The extreme counts. */
  lemma {:induction false} CountBounds<T>(xs: seq<T>, f: T -> bool)
    ensures Count(xs, f) == 0 <==> forall i :: 0 <= i < |xs| ==> !f(xs[i])
    ensures Count(xs, f) == |xs| <==> forall i :: 0 <= i < |xs| ==> f(xs[i])
  {
    if xs != [] {
      var n := |xs| - 1;
      CountBounds(xs[..n], f);
      assert forall i :: 0 <= i < n ==> xs[..n][i] == xs[i];
    }
  }

  /** Two different entries that satisfy the predicate count for two. */
  lemma CountTwo<T>(xs: seq<T>, i: nat, j: nat, f: T -> bool)
    requires i < |xs| && j < |xs| && i != j && f(xs[i]) && f(xs[j])
    ensures Count(xs, f) >= 2
  {
    var n := |xs| - 1;
    if i == n {
      CountBounds(xs[..n], f);
      assert f(xs[..n][j]);
    } else if j == n {
      CountBounds(xs[..n], f);
      assert f(xs[..n][i]);
    } else {
      CountTwo(xs[..n], i, j, f);
    }
  }

  lemma {:induction false} TotalUpdate<T>(xs: seq<T>, i: nat, x: T, f: T -> int)
    requires i < |xs|
    ensures Total(xs[i := x], f) == Total(xs, f) - f(xs[i]) + f(x)
  {
    var n := |xs| - 1;
    if i == n {
      assert xs[i := x][..n] == xs[..n];
    } else {
      TotalUpdate(xs[..n], i, x, f);
      assert xs[i := x][..n] == xs[..n][i := x];
    }
  }

  lemma {:induction false} TotalBound<T>(xs: seq<T>, f: T -> int, most: nat)
    requires forall i :: 0 <= i < |xs| ==> 0 <= f(xs[i]) <= most
    ensures 0 <= Total(xs, f) <= |xs| * most
    ensures Total(xs, f) == |xs| * most <==> forall i :: 0 <= i < |xs| ==> f(xs[i]) == most
  {
    if xs != [] {
      var n := |xs| - 1;
      TotalBound(xs[..n], f, most);
      assert |xs| * most == n * most + most;
      assert forall i :: 0 <= i < n ==> xs[..n][i] == xs[i];
    }
  }
}
