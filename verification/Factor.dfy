/** assign3/factor.py: primality by trial division up to the square root, and
    factorization by repeated division over a range fixed before the number
    shrinks. */
module Factor {

  predicate IsPrime(p: int)
  {
    p >= 2 && forall d :: 2 <= d < p ==> p % d != 0
  }

  function Product(xs: seq<int>): int
  {
    if xs == [] then 1 else xs[0] * Product(xs[1..])
  }

  predicate Ascending(xs: seq<int>)
  {
    forall i, j :: 0 <= i < j < |xs| ==> xs[i] <= xs[j]
  }

  predicate AllPrime(xs: seq<int>)
  {
    forall i :: 0 <= i < |xs| ==> IsPrime(xs[i])
  }

  predicate IsPrimeFactorization(n: int, xs: seq<int>)
  {
    Ascending(xs) && AllPrime(xs) && Product(xs) == n
  }

  // ----- divisibility

  lemma MultipleMod(d: int, k: int)
    requires d > 0
    ensures (d * k) % d == 0
  {
    DivModUnique(d * k, d, k, 0);
  }

  lemma DivModUnique(n: int, d: int, q: int, r: int)
    requires d > 0 && n == d * q + r && 0 <= r < d
    ensures n / d == q && n % d == r
  {
    var x := q - n / d;
    assert d * x == d * q - d * (n / d);
    BoundedMultipleIsZero(d, x);
  }

  lemma BoundedMultipleIsZero(d: int, x: int)
    requires d > 0 && -d < d * x < d
    ensures x == 0
  {
    MulMonotone(d, if x == 0 then 0 else 1, d, if x >= 0 then x else -x);
  }

  lemma DividesTransitively(d: int, e: int, n: int)
    requires d > 0 && e > 0 && e % d == 0 && n % e == 0
    ensures n % d == 0
  {
    var q, r := e / d, n / e;
    assert n == e * r == (d * q) * r == d * (q * r);
    MultipleMod(d, q * r);
  }

  lemma MulMonotone(a: nat, b: nat, c: nat, d: nat)
    requires a <= c && b <= d
    ensures a * b <= c * d
  {
    assert c * d == a * b + a * (d - b) + (c - a) * d;
  }

  /** The cofactor of a proper divisor is proper as well. */
  lemma QuotientBetween(n: int, d: int)
    requires 2 <= d < n && n % d == 0
    ensures 2 <= n / d < n && n == d * (n / d)
  {
    var e := n / d;
    assert n == d * e;
    assert e >= 2;
    MulMonotone(2, e, d, e);
  }

  // ----- isPrime

  /** The integer part of the square root. */
  function Isqrt(n: nat): (r: nat)
    ensures r * r <= n < (r + 1) * (r + 1)
  {
    if n == 0 then 0
    else
      var r := Isqrt(n - 1);
      if (r + 1) * (r + 1) <= n then r + 1 else r
  }

  /** A number without divisors up to its square root has none at all. */
  lemma NoSmallDivisor(n: int, d: int)
    requires n >= 2 && 2 <= d < n
    requires forall e :: 2 <= e <= Isqrt(n) ==> n % e != 0
    ensures n % d != 0
  {
    if n % d == 0 {
      var r, e := Isqrt(n), n / d;
      assert n == d * e;
      QuotientBetween(n, d);
      if d > r && e > r {
        MulMonotone(r + 1, r + 1, d, e);
      }
      assert n % e == 0 by {
        MultipleMod(e, d);
      }
    }
  }

  method TestPrime(num: int) returns (prime: bool)
    ensures prime <==> IsPrime(num)
  {
    if num <= 1 {
      return false;
    }
    for factor := 2 to Isqrt(num) + 1
      invariant forall e :: 2 <= e < factor ==> num % e != 0
    {
      if num % factor == 0 {
        SquareRootSmaller(num);
        return false;
      }
    }
    forall d | 2 <= d < num ensures num % d != 0 {
      NoSmallDivisor(num, d);
    }
    return true;
  }

  lemma SquareRootSmaller(n: nat)
    requires n >= 2
    ensures 1 <= Isqrt(n) < n
  {
    var r := Isqrt(n);
    MulMonotone(r + 1, r + 1, if r == 0 then 1 else r + 1, r + 1);
    if r >= n {
      MulMonotone(2, n, r, r);
    }
  }

  // ----- factorization

  /** The list the function's answer stands for: the number itself when it is 1
      or prime, else the factors collected by the loop. */
  method Factorization(num: int) returns (factors: seq<int>)
    ensures num <= 0 ==> factors == []
    ensures num == 1 ==> factors == [1]
    ensures num >= 2 ==> IsPrimeFactorization(num, factors)
  {
    var prime := TestPrime(num);
    if num == 1 || prime {
      assert Product([num]) == num * Product([]);
      return [num];
    }
    factors := [];
    if num <= 1 {
      return;  // range(2, num) is empty
    }
    var rest := num;
    for factor := 2 to num
      invariant Divided(num, factors, rest, factor)
      invariant forall i :: 0 <= i < |factors| ==> factors[i] < factor
    {
      while rest % factor == 0
        invariant Divided(num, factors, rest, factor)
        invariant forall i :: 0 <= i < |factors| ==> factors[i] <= factor
        decreases rest
      {
        TakeOut(num, factors, rest, factor);
        factors := factors + [factor];
        rest := rest / factor;
      }
    }
    NothingLeft(num, factors, rest);
  }

  /** The state of the loop: what has been collected times what is left is the
      original number, and no divisor below `factor` is left. */
  predicate Divided(num: int, factors: seq<int>, rest: int, factor: int)
  {
    && rest >= 1 && Product(factors) * rest == num
    && (forall d :: 2 <= d < factor ==> rest % d != 0)
    && AllPrime(factors) && Ascending(factors)
  }

  lemma TakeOut(num: int, factors: seq<int>, rest: int, factor: int)
    requires 2 <= factor && Divided(num, factors, rest, factor) && rest % factor == 0
    requires forall i :: 0 <= i < |factors| ==> factors[i] <= factor
    ensures Divided(num, factors + [factor], rest / factor, factor) && rest / factor < rest
  {
    LeastDivisorIsPrime(rest, factor);
    Quotient(rest, factor);
    TakeOutProduct(factors, rest, factor);
  }

  lemma TakeOutProduct(factors: seq<int>, rest: int, factor: int)
    requires factor != 0 && rest == factor * (rest / factor)
    ensures Product(factors + [factor]) * (rest / factor) == Product(factors) * rest
  {
    ProductAppend(factors, factor);
    var q := rest / factor;
    assert (Product(factors) * factor) * q == Product(factors) * (factor * q);
  }

  lemma LeastDivisorIsPrime(n: int, f: int)
    requires n >= 1 && f >= 2 && n % f == 0 && forall d :: 2 <= d < f ==> n % d != 0
    ensures IsPrime(f)
  {
    forall d | 2 <= d < f ensures f % d != 0 {
      if f % d == 0 {
        DividesTransitively(d, f, n);
      }
    }
  }

  /** Dividing a factor out leaves a smaller number without new divisors. */
  lemma Quotient(n: int, f: int)
    requires n >= 1 && f >= 2 && n % f == 0
    ensures 1 <= n / f < n && n == f * (n / f)
    ensures forall d :: 2 <= d && n % d != 0 ==> (n / f) % d != 0
  {
    var q := n / f;
    assert n == f * q;
    MulMonotone(2, q, f, q);
    forall d | 2 <= d && n % d != 0 ensures q % d != 0 {
      if q % d == 0 {
        MultipleMod(q, f);
        assert n % q == 0;
        DividesTransitively(d, q, n);
      }
    }
  }

  lemma {:induction false} ProductAppend(xs: seq<int>, x: int)
    ensures Product(xs + [x]) == Product(xs) * x
  {
    if xs != [] {
      assert (xs + [x])[1..] == xs[1..] + [x];
      ProductAppend(xs[1..], x);
      assert xs[0] * (Product(xs[1..]) * x) == (xs[0] * Product(xs[1..])) * x;
    } else {
      assert xs + [x] == [x];
    }
  }

  lemma {:induction false} ProductPositive(xs: seq<int>)
    requires AllPrime(xs)
    ensures Product(xs) >= 1
    ensures xs != [] ==> Product(xs) >= 2
  {
    if xs != [] {
      ProductPositive(xs[1..]);
      assert xs[0] * Product(xs[1..]) >= xs[0];
    }
  }

  /** When the range is exhausted, a number that is not prime has been divided
      down to one, although the range was fixed by the original number. */
  lemma NothingLeft(num: int, factors: seq<int>, rest: int)
    requires num >= 2 && !IsPrime(num) && rest >= 1 && Product(factors) * rest == num && AllPrime(factors)
    requires forall d :: 2 <= d < num ==> rest % d != 0
    ensures rest == 1 && Product(factors) == num
  {
    ProductPositive(factors);
    MulMonotone(1, rest, Product(factors), rest);
    assert rest % rest == 0;
    assert rest == num ==> IsPrime(num);
  }

  // ----- uniqueness

  /** A prime dividing a product divides a factor; the witnesses k and m are the
      cofactors. */
  lemma {:induction false} Euclid(p: int, a: int, b: int, k: int) returns (m: int)
    requires IsPrime(p) && a > 0 && a % p != 0 && a * b == p * k
    ensures b == p * m
    decreases a
  {
    if a == 1 {
      m := k;
    } else if a >= p {
      ReduceToModulus(p, a, b, k);
      m := Euclid(p, a % p, b, k - (a / p) * b);
    } else {
      ReduceToRemainder(p, a, b, k);
      m := Euclid(p, p % a, b, b - (p / a) * k);
    }
  }

  lemma ReduceToModulus(p: int, a: int, b: int, k: int)
    requires p >= 2 && a >= p && a % p != 0 && a * b == p * k
    ensures 0 < a % p < a && (a % p) % p != 0 && (a % p) * b == p * (k - (a / p) * b)
  {
    SmallNotDivisible(p, a % p);
    ReduceByModulus(p, a / p, a % p, a, b, k);
  }

  lemma ReduceToRemainder(p: int, a: int, b: int, k: int)
    requires IsPrime(p) && 2 <= a < p && a * b == p * k
    ensures 0 < p % a < a && (p % a) % p != 0 && (p % a) * b == p * (b - (p / a) * k)
  {
    SmallNotDivisible(p, p % a);
    ReduceByRemainder(p, a, p / a, p % a, b, k);
  }

  lemma ReduceByModulus(p: int, u: int, r: int, a: int, b: int, k: int)
    requires a == p * u + r && a * b == p * k
    ensures r * b == p * (k - u * b)
  {
    assert (p * u) * b == p * (u * b);
    assert p * (k - u * b) == p * k - p * (u * b);
    assert (p * u + r) * b == (p * u) * b + r * b;
  }

  lemma ReduceByRemainder(p: int, a: int, q: int, r: int, b: int, k: int)
    requires p == a * q + r && a * b == p * k
    ensures r * b == p * (b - q * k)
  {
    assert (a * q + r) * b == (a * q) * b + r * b;
    assert (a * q) * b == q * (a * b);
    assert q * (p * k) == p * (q * k);
    assert p * (b - q * k) == p * b - p * (q * k);
  }

  lemma SmallNotDivisible(p: int, r: int)
    requires 0 < r < p
    ensures r % p == r
  {
  }

  lemma {:induction false} PrimeDividesProduct(p: int, xs: seq<int>, k: int) returns (i: nat)
    requires IsPrime(p) && AllPrime(xs) && Product(xs) == p * k
    ensures i < |xs| && xs[i] == p
  {
    if xs == [] {
      PrimeTimesIsNotOne(p, k);
      assert false;
    } else if xs[0] % p == 0 {
      i := 0;
      assert xs[0] >= p;
    } else {
      var m := Euclid(p, xs[0], Product(xs[1..]), k);
      var j := PrimeDividesProduct(p, xs[1..], m);
      i := j + 1;
    }
  }

  lemma PrimeTimesIsNotOne(p: int, k: int)
    requires p >= 2
    ensures p * k != 1
  {
    if k >= 1 { assert p * k >= p; } else { assert p * k <= 0; }
  }

  /** The fundamental theorem: there is only one ascending list of primes with a
      given product, so the loop's answer is the only one possible. */
  lemma {:induction false} FactorizationUnique(n: int, xs: seq<int>, ys: seq<int>)
    requires IsPrimeFactorization(n, xs) && IsPrimeFactorization(n, ys)
    ensures xs == ys
    decreases |xs|
  {
    ProductPositive(xs);
    ProductPositive(ys);
    if xs != [] && ys != [] {
      var p := xs[0];
      var i := PrimeDividesProduct(p, ys, Product(xs[1..]));
      var j := PrimeDividesProduct(ys[0], xs, Product(ys[1..]));
      assert ys[0] <= p && p <= ys[0];
      assert p * Product(xs[1..]) == p * Product(ys[1..]);
      CancelFactor(p, Product(xs[1..]), Product(ys[1..]));
      FactorizationUnique(Product(xs[1..]), xs[1..], ys[1..]);
      assert xs == [p] + xs[1..] && ys == [p] + ys[1..];
    }
  }

  lemma CancelFactor(p: int, a: int, b: int)
    requires p > 0 && p * a == p * b
    ensures a == b
  {
    assert p * (a - b) == 0;
  }
}
