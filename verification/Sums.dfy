/** Sums of natural numbers and unions of multisets taken over a sequence, with
    the one law the protocol proofs need: what changing a single element does. */
module Sums {

  function Sum<T>(xs: seq<T>, f: T -> nat): nat
  {
    if |xs| == 0 then 0 else Sum(xs[..|xs| - 1], f) + f(xs[|xs| - 1])
  }

  ghost function Bag<T, U>(xs: seq<T>, f: T -> multiset<U>): multiset<U>
  {
    if |xs| == 0 then multiset{} else Bag(xs[..|xs| - 1], f) + f(xs[|xs| - 1])
  }

  lemma {:induction false} SumUpdate<T>(xs: seq<T>, i: nat, x: T, f: T -> nat)
    requires i < |xs|
    ensures Sum(xs[i := x], f) + f(xs[i]) == Sum(xs, f) + f(x)
  {
    var last := |xs| - 1;
    if i < last {
      SumUpdate(xs[..last], i, x, f);
      assert xs[i := x][..last] == xs[..last][i := x];
    } else {
      assert xs[i := x][..last] == xs[..last];
    }
  }

  lemma {:induction false} BagUpdate<T, U>(xs: seq<T>, i: nat, x: T, f: T -> multiset<U>)
    requires i < |xs|
    ensures Bag(xs[i := x], f) + f(xs[i]) == Bag(xs, f) + f(x)
  {
    var last := |xs| - 1;
    if i < last {
      BagUpdate(xs[..last], i, x, f);
      assert xs[i := x][..last] == xs[..last][i := x];
      var rest, z := Bag(xs[..last], f), f(xs[last]);
      assert Bag(xs[i := x], f) + f(xs[i]) == (Bag(xs[..last][i := x], f) + f(xs[i])) + z;
      assert Bag(xs, f) + f(x) == (rest + f(x)) + z;
    } else {
      assert xs[i := x][..last] == xs[..last];
    }
  }

  /** A sum is at least any one of its terms. */
  lemma {:induction false} SumTerm<T>(xs: seq<T>, i: nat, f: T -> nat)
    requires i < |xs|
    ensures f(xs[i]) <= Sum(xs, f)
  {
    var last := |xs| - 1;
    if i < last {
      SumTerm(xs[..last], i, f);
    }
  }

  /** A sum of indicators that reaches the number of terms has every term one. */
  lemma {:induction false} SumFull<T>(xs: seq<T>, f: T -> nat)
    requires forall i :: 0 <= i < |xs| ==> f(xs[i]) <= 1
    ensures Sum(xs, f) <= |xs|
    ensures Sum(xs, f) == |xs| ==> forall i :: 0 <= i < |xs| ==> f(xs[i]) == 1
  {
    if |xs| > 0 {
      SumFull(xs[..|xs| - 1], f);
      assert forall i :: 0 <= i < |xs| - 1 ==> xs[..|xs| - 1][i] == xs[i];
    }
  }

  lemma {:induction false} SumPositive<T>(xs: seq<T>, f: T -> nat) returns (i: nat)
    requires Sum(xs, f) > 0
    ensures i < |xs| && f(xs[i]) > 0
  {
    if f(xs[|xs| - 1]) > 0 {
      i := |xs| - 1;
    } else {
      i := SumPositive(xs[..|xs| - 1], f);
    }
  }

  lemma {:induction false} SumZero<T>(xs: seq<T>, f: T -> nat)
    requires forall i :: 0 <= i < |xs| ==> f(xs[i]) == 0
    ensures Sum(xs, f) == 0
  {
    if |xs| > 0 {
      SumZero(xs[..|xs| - 1], f);
    }
  }

  lemma {:induction false} BagEmpty<T, U>(xs: seq<T>, f: T -> multiset<U>)
    requires forall i :: 0 <= i < |xs| ==> f(xs[i]) == multiset{}
    ensures Bag(xs, f) == multiset{}
  {
    if |xs| > 0 {
      BagEmpty(xs[..|xs| - 1], f);
    }
  }

  lemma {:induction false} SumLe<T>(xs: seq<T>, f: T -> nat, g: T -> nat)
    requires forall x :: f(x) <= g(x)
    ensures Sum(xs, f) <= Sum(xs, g)
  {
    if |xs| > 0 {
      SumLe(xs[..|xs| - 1], f, g);
    }
  }

  lemma {:induction false} SumSame<T>(xs: seq<T>, ys: seq<T>, f: T -> nat)
    requires |xs| == |ys| && forall i :: 0 <= i < |xs| ==> f(xs[i]) == f(ys[i])
    ensures Sum(xs, f) == Sum(ys, f)
  {
    if |xs| > 0 {
      SumSame(xs[..|xs| - 1], ys[..|ys| - 1], f);
    }
  }

  /** What x loses to h is what b gains from it. */
  lemma Rebalance<T>(x: multiset<T>, x': multiset<T>, b: multiset<T>, b': multiset<T>, h: multiset<T>, h': multiset<T>)
    requires x' + h' == x + h && b' + h == b + h'
    ensures x' + b' == x + b
  {
    assert x' + b' + (h + h') == (x' + h') + (b' + h) == x + b + (h + h');
    assert forall t :: (x' + b')[t] == (x' + b' + (h + h'))[t] - (h + h')[t] == (x + b)[t];
  }
}
