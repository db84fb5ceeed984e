/** How many elements of a sequence satisfy a predicate. */
module Counting {
  function Count<T>(xs: seq<T>, p: T -> bool): nat {
    if xs == [] then 0 else Count(xs[..|xs| - 1], p) + (if p(xs[|xs| - 1]) then 1 else 0)
  }

  lemma CountMore<T>(xs: seq<T>, x: T, p: T -> bool)
    ensures Count(xs + [x], p) == Count(xs, p) + (if p(x) then 1 else 0)
  {
    assert (xs + [x])[..|xs|] == xs;
  }

  lemma {:induction false} CountUpdate<T>(xs: seq<T>, i: nat, x: T, p: T -> bool)
    requires i < |xs|
    ensures Count(xs[i := x], p) == Count(xs, p) + (if p(x) then 1 else 0) - (if p(xs[i]) then 1 else 0)
  {
    var n := |xs| - 1;
    if i == n {
      assert xs[i := x][..n] == xs[..n];
    } else {
      CountUpdate(xs[..n], i, x, p);
      assert xs[i := x][..n] == xs[..n][i := x];
    }
  }

  lemma {:induction false} CountSame<T>(xs: seq<T>, p: T -> bool, q: T -> bool)
    requires forall i :: 0 <= i < |xs| ==> p(xs[i]) == q(xs[i])
    ensures Count(xs, p) == Count(xs, q)
  {
    if xs != [] {
      CountSame(xs[..|xs| - 1], p, q);
    }
  }

  lemma {:induction false} CountNone<T>(xs: seq<T>, p: T -> bool)
    requires forall i :: 0 <= i < |xs| ==> !p(xs[i])
    ensures Count(xs, p) == 0
  {
    if xs != [] {
      CountNone(xs[..|xs| - 1], p);
    }
  }

  lemma {:induction false} SomeCounted<T>(xs: seq<T>, p: T -> bool) returns (i: nat)
    requires Count(xs, p) > 0
    ensures i < |xs| && p(xs[i])
  {
    var n := |xs| - 1;
    if p(xs[n]) {
      i := n;
    } else {
      i := SomeCounted(xs[..n], p);
    }
  }

  lemma {:induction false} CountRemove<T>(xs: seq<T>, i: nat, p: T -> bool)
    requires i < |xs|
    ensures Count(xs, p) == Count(xs[..i] + xs[i + 1..], p) + (if p(xs[i]) then 1 else 0)
  {
    var n := |xs| - 1;
    if i == n {
      assert xs[..i] + xs[i + 1..] == xs[..n];
    } else {
      var rest := xs[..i] + xs[i + 1..];
      CountRemove(xs[..n], i, p);
      assert rest[..n - 1] == xs[..n][..i] + xs[..n][i + 1..];
      assert rest[n - 1] == xs[n];
    }
  }
}
