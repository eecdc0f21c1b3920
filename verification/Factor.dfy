/**
  Trial division that skips even divisors after 2 and stops at the square root: it finds the
  prime factorization, of which there is only one.
 */
module Factor {

  predicate Divides(d: nat, n: nat)
    requires d > 0
  {
    n % d == 0
  }

  predicate Prime(p: nat) {
    p >= 2 && forall k :: 2 <= k < p ==> !Divides(k, p)
  }

  predicate AllPrime(fs: seq<nat>) {
    forall i :: 0 <= i < |fs| ==> Prime(fs[i])
  }

  predicate Nondecreasing(fs: seq<nat>) {
    forall i, j :: 0 <= i < j < |fs| ==> fs[i] <= fs[j]
  }

  function Product(fs: seq<nat>): nat {
    if fs == [] then 1 else fs[0] * Product(fs[1..])
  }

  // ------------------------------------------------------------ divisibility

  lemma DividesIs(d: nat, n: nat) returns (q: nat)
    requires d > 0 && Divides(d, n)
    ensures n == d * q
  {
    q := n / d;
  }

  lemma MultipleDivides(d: nat, q: nat)
    requires d > 0
    ensures Divides(d, d * q)
  {
    Remainder(d, q, 0, d * q);
  }

  lemma AtLeast(d: int, k: int)
    requires d > 0
    ensures k >= 1 ==> d * k >= d
    ensures k <= -1 ==> d * k <= -d
  {
    if k >= 1 {
      assert d * k == d + d * (k - 1);
      assert d * (k - 1) >= 0;
    } else if k <= -1 {
      assert d * k == -d + d * (k + 1);
      assert d * (-(k + 1)) >= 0;
    }
  }

  lemma Remainder(d: nat, q: int, r: nat, n: int)
    requires d > 0 && n == d * q + r && r < d
    ensures n % d == r && n / d == q
  {
    var k := q - n / d;
    assert n == d * (n / d) + n % d;
    assert d * q == d * (n / d) + d * k;
    AtLeast(d, k);
    assert k == 0;
  }

  lemma DividesTrans(a: nat, b: nat, c: nat)
    requires a > 0 && b > 0 && Divides(a, b) && Divides(b, c)
    ensures Divides(a, c)
  {
    var x := DividesIs(a, b);
    var y := DividesIs(b, c);
    assert c == a * (x * y);
    MultipleDivides(a, x * y);
  }

  // No number from 2 to d - 1 divides m.
  predicate Sifted(m: nat, d: nat) {
    forall k :: 2 <= k < d ==> !Divides(k, m)
  }

  lemma SmallestDivisorIsPrime(m: nat, d: nat)
    requires d >= 2 && Sifted(m, d) && Divides(d, m)
    ensures Prime(d)
  {
    forall k | 2 <= k < d ensures !Divides(k, d) {
      if Divides(k, d) {
        DividesTrans(k, d, m);
      }
    }
  }

  lemma SiftedQuotient(m: nat, d: nat)
    requires d >= 2 && Sifted(m, d) && Divides(d, m)
    ensures Sifted(m / d, d) && m == d * (m / d)
  {
    var q := m / d;
    forall k | 2 <= k < d ensures !Divides(k, q) {
      if Divides(k, q) {
        var x := DividesIs(k, q);
        assert m == k * (d * x);
        MultipleDivides(k, d * x);
      }
    }
  }

  lemma EvenDivisor(m: nat, e: nat)
    requires e >= 2 && e % 2 == 0 && Divides(e, m)
    ensures Divides(2, m)
  {
    MultipleDivides(2, e / 2);
    DividesTrans(2, e, m);
  }

  // After 2 only odd divisors need trying.
  lemma EvenSkipped(m: nat, d: nat)
    requires d >= 3 && d % 2 == 1 && Sifted(m, d) && !Divides(d, m)
    ensures Sifted(m, d + 2)
  {
    forall k | 2 <= k < d + 2 ensures !Divides(k, m) {
      if k == d + 1 && Divides(k, m) {
        EvenDivisor(m, k);
      }
    }
  }

  // A divisor of m has a partner, and one of the two is below the square root.
  lemma Partner(k: nat, m: nat, d: nat) returns (j: nat)
    requires 2 <= k < m && Divides(k, m) && d * d > m && d >= 2
    ensures 2 <= j < d && Divides(j, m)
  {
    var q := DividesIs(k, m);
    PositiveFactor(k, q);
    MultipleDivides(q, k);
    if k >= d && q >= d {
      Grow(d, d, k, q);
    }
    j := if k < d then k else q;
  }

  lemma PositiveFactor(k: nat, q: nat)
    requires k * q > k > 0
    ensures q >= 2
  {
  }

  // With no divisor up to its square root, m is prime.
  lemma RemainderIsPrime(m: nat, d: nat)
    requires m > 1 && d >= 2 && d * d > m && Sifted(m, d)
    ensures Prime(m)
  {
    forall k | 2 <= k < m ensures !Divides(k, m) {
      if Divides(k, m) {
        var j := Partner(k, m, d);
      }
    }
  }

  lemma Grow(a: nat, b: nat, c: nat, e: nat)
    requires a <= c && b <= e
    ensures a * b <= c * e
  {
    assert a * b <= a * e;
    assert a * e <= c * e;
  }

  lemma {:induction false} ProductAppend(fs: seq<nat>, x: nat)
    ensures Product(fs + [x]) == Product(fs) * x
  {
    if fs == [] {
      assert [x][1..] == [];
      assert Product([x]) == x * Product([]);
    } else {
      assert (fs + [x])[1..] == fs[1..] + [x];
      ProductAppend(fs[1..], x);
      assert fs[0] * (Product(fs[1..]) * x) == fs[0] * Product(fs[1..]) * x;
    }
  }

  predicate Collected(fs: seq<nat>, d: nat) {
    AllPrime(fs) && Nondecreasing(fs) && forall i :: 0 <= i < |fs| ==> fs[i] <= d
  }

  /** factorize: a nondecreasing list of primes whose product is n. */
  method Factorize(n: int) returns (factors: seq<nat>)
    ensures n >= 2 ==> AllPrime(factors) && Nondecreasing(factors) && Product(factors) == n
    ensures n < 0 ==> factors == []
    ensures 0 <= n < 2 ==> factors == [n]
  {
    if n < 2 {
      return if n >= 0 then [n] else [];
    }
    hide Prime, Divides, Sifted, Product;
    factors := [];
    var d, m := 2, n;
    StartsSifted(m);
    while d * d <= m
      invariant d == 2 || (d >= 3 && d % 2 == 1)
      invariant m >= 1 && Sifted(m, d) && Collected(factors, d)
      invariant Product(factors) * m == n
      decreases m - d
    {
      ghost var before := m;
      while m % d == 0
        invariant 1 <= m <= before && Sifted(m, d) && Collected(factors, d)
        invariant Product(factors) * m == n
        decreases m
      {
        var f, q := factors, m / d;
        TakeFactor(f, m, d, n);
        factors := f + [d];
        m := q;
      }
      NextDivisor(m, d);
      GrowsBound(d, before);
      d := d + if d == 2 then 1 else 2;
    }
    if m > 1 {
      LastFactor(factors, m, d, n);
      factors := factors + [m];
    }
  }

  lemma StartsSifted(m: nat)
    ensures Sifted(m, 2) && Product([]) == 1
  {
  }

  lemma GrowsBound(d: nat, m: nat)
    requires d >= 2 && d * d <= m
    ensures d < m && 0 < m - d
  {
    assert d * d >= 2 * d;
  }

  lemma TakeFactor(fs: seq<nat>, m: nat, d: nat, n: nat)
    requires d >= 2 && m >= 1 && m % d == 0 && Sifted(m, d) && Collected(fs, d) && Product(fs) * m == n
    ensures 1 <= m / d < m && Sifted(m / d, d) && Collected(fs + [d], d) && Product(fs + [d]) * (m / d) == n
  {
    hide Prime, Product;
    assert Divides(d, m);
    SmallestDivisorIsPrime(m, d);
    SiftedQuotient(m, d);
    ProductAppend(fs, d);
    var q, p := m / d, Product(fs);
    assert p * d * q == p * (d * q);
    Smaller(d, q);
  }

  lemma Smaller(d: nat, q: nat)
    requires d >= 2 && d * q >= 1
    ensures 1 <= q < d * q
  {
    assert d * q >= 2 * q;
  }

  lemma NextDivisor(m: nat, d: nat)
    requires (d == 2 || (d >= 3 && d % 2 == 1)) && m % d != 0 && Sifted(m, d)
    ensures Sifted(m, d + if d == 2 then 1 else 2)
  {
    assert !Divides(d, m);
    if d > 2 {
      EvenSkipped(m, d);
    }
  }

  lemma SelfDivides(m: nat)
    requires m > 0
    ensures Divides(m, m)
  {
    MultipleDivides(m, 1);
  }

  lemma LastFactor(fs: seq<nat>, m: nat, d: nat, n: nat)
    requires d >= 2 && m > 1 && d * d > m && Sifted(m, d) && Collected(fs, d) && Product(fs) * m == n
    ensures AllPrime(fs + [m]) && Nondecreasing(fs + [m]) && Product(fs + [m]) == n
  {
    hide Prime, Product;
    RemainderIsPrime(m, d);
    ProductAppend(fs, m);
    SelfDivides(m);
    assert m >= d;
  }

  // ------------------------------------------------------------ uniqueness

  // A prime that divides a product divides a factor.
  lemma {:induction false} Euclid(p: nat, a: nat, b: nat)
    requires Prime(p) && Divides(p, a * b) && !Divides(p, a)
    ensures Divides(p, b)
    decreases a
  {
    hide Divides;
    assert p >= 2;
    hide Prime;
    ZeroDivided(p);
    if a >= p {
      Residue(p, a, b);
      Euclid(p, a % p, b);
    } else {
      Reduces(p, a, b);
      if a > 1 {
        Euclid(p, p % a, b);
      }
    }
  }

  lemma ZeroDivided(p: nat)
    requires p > 0
    ensures Divides(p, 0)
  {
  }

  // Reducing a modulo p keeps the question.
  lemma Residue(p: nat, a: nat, b: nat)
    requires p >= 2 && a >= p && Divides(p, a * b) && !Divides(p, a)
    ensures 0 < a % p < p && Divides(p, (a % p) * b) && !Divides(p, a % p)
  {
    hide Divides;
    var r, q := a % p, a / p;
    var x := DividesIs(p, a * b);
    Rearranged(p, q, r, b, x);
    NatQuotient(p, x - q * b, r * b);
    ResidueNotDivided(p, a);
  }

  lemma Rearranged(p: int, q: int, r: int, b: int, x: int)
    requires (p * q + r) * b == p * x
    ensures r * b == p * (x - q * b)
  {
    assert (p * q + r) * b == p * (q * b) + r * b;
    assert p * (x - q * b) == p * x - p * (q * b);
  }

  lemma ResidueNotDivided(p: nat, a: nat)
    requires p > 0 && !Divides(p, a)
    ensures a % p > 0 && !Divides(p, a % p)
  {
    Remainder(p, 0, a % p, a % p);
  }

  // d divides a natural number that is an integer multiple of it.
  lemma NatQuotient(d: nat, k: int, n: nat)
    requires d > 0 && n == d * k
    ensures Divides(d, n)
  {
    Remainder(d, k, 0, n);
  }

  // Below p: p % a is smaller still, not 0 because p is prime, and the question is the same.
  lemma Reduces(p: nat, a: nat, b: nat)
    requires Prime(p) && 0 < a < p && Divides(p, a * b)
    ensures a == 1 ==> Divides(p, b)
    ensures a > 1 ==> 0 < p % a < a && Divides(p, (p % a) * b) && !Divides(p, p % a)
  {
    if a > 1 {
      var r, q := p % a, p / a;
      assert !Divides(a, p);
      hide Divides, Prime;
      var x := DividesIs(p, a * b);
      Swapped(p, a, q, r, b, x);
      NatQuotient(p, b - q * x, r * b);
      SmallNotDivided(p, r);
    }
  }

  lemma Swapped(p: int, a: int, q: int, r: int, b: int, x: int)
    requires p == a * q + r && a * b == p * x
    ensures r * b == p * (b - q * x)
  {
    assert p * b == (a * q + r) * b == q * (a * b) + r * b;
    assert q * (a * b) == q * (p * x) == p * (q * x);
    assert p * (b - q * x) == p * b - p * (q * x);
  }

  lemma SmallNotDivided(p: nat, r: nat)
    requires 0 < r < p
    ensures !Divides(p, r)
  {
    Remainder(p, 0, r, r);
  }

  lemma {:induction false} PrimeInProduct(p: nat, fs: seq<nat>)
    requires Prime(p) && AllPrime(fs) && Divides(p, Product(fs))
    ensures p in fs
  {
    hide Prime, Divides;
    if fs == [] {
      NotOne(p);
    } else if p != fs[0] {
      OnlyItself(p, fs[0]);
      Euclid(p, fs[0], Product(fs[1..]));
      PrimeInProduct(p, fs[1..]);
    }
  }

  lemma NotOne(p: nat)
    requires Prime(p)
    ensures !Divides(p, 1)
  {
  }

  lemma OnlyItself(p: nat, q: nat)
    requires Prime(p) && Prime(q) && p != q
    ensures !Divides(p, q)
  {
    if q < p {
      SmallNotDivided(p, q);
    }
  }

  lemma {:induction false} ProductPositive(fs: seq<nat>)
    requires AllPrime(fs)
    ensures Product(fs) >= 1 && (fs != [] ==> Product(fs) >= 2)
  {
    if fs != [] {
      ProductPositive(fs[1..]);
      assert fs[0] >= 2;
      Bigger(fs[0], Product(fs[1..]));
    }
  }

  lemma Bigger(a: nat, b: nat)
    requires a >= 2 && b >= 1
    ensures a * b >= 2
  {
  }

  lemma HeadDivides(fs: seq<nat>)
    requires fs != [] && AllPrime(fs)
    ensures Divides(fs[0], Product(fs))
  {
    assert fs[0] >= 2;
    MultipleDivides(fs[0], Product(fs[1..]));
  }

  lemma SameHead(a: seq<nat>, b: seq<nat>)
    requires AllPrime(a) && AllPrime(b) && Nondecreasing(a) && Nondecreasing(b) && a != [] && b != []
    requires Product(a) == Product(b)
    ensures a[0] == b[0]
  {
    hide Prime, Divides, Product;
    HeadDivides(a);
    HeadDivides(b);
    PrimeInProduct(a[0], b);
    PrimeInProduct(b[0], a);
  }

  /** There is only one nondecreasing list of primes with a given product. */
  lemma {:induction false} FactorsAreUnique(a: seq<nat>, b: seq<nat>)
    requires AllPrime(a) && AllPrime(b) && Nondecreasing(a) && Nondecreasing(b) && Product(a) == Product(b)
    ensures a == b
  {
    hide Prime;
    ProductPositive(a);
    ProductPositive(b);
    if a != [] && b != [] {
      SameHead(a, b);
      HeadIsPositive(a);
      Cancel(a[0], Product(a[1..]), Product(b[1..]));
      FactorsAreUnique(a[1..], b[1..]);
      assert a == [a[0]] + a[1..] && b == [b[0]] + b[1..];
    }
  }

  lemma HeadIsPositive(a: seq<nat>)
    requires AllPrime(a) && a != []
    ensures a[0] > 0
  {
  }

  lemma Cancel(d: nat, x: nat, y: nat)
    requires d > 0 && d * x == d * y
    ensures x == y
  {
    Remainder(d, x, 0, d * x);
    Remainder(d, y, 0, d * y);
  }
}
