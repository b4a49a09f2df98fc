/**
 * Index-based generators: the enumeration of RGBA colours with indexed
 * lookup, the trial-division prime stream, and the decorator that turns the
 * stream into a "k-th prime" function that only moves forward.
 *
 * A Python generator object is modelled as a class holding the state it is
 * suspended in; `next` is a method returning `None` for StopIteration.
 */
module Generators {
  import opened Wrappers

  /** The exceptions raised, each with its message. */
  datatype GenError = IndexError(message: string) | ValueError(message: string) | RuntimeError(message: string)

  const OUT_OF_RANGE := "Colour index out of range"
  const K_DECREASING := "k must be greater than or equal to the last requested value."
  const NO_VALUE := "Prime generator did not yield a value."

  // ---------------------------------------------------------------------
  // Division helpers
  // ---------------------------------------------------------------------

  /** Euclidean division is unique: a quotient and remainder in range are the ones `/` and `%` give. */
  lemma DivModUnique(n: int, k: int, q: int, r: int)
    requires k > 0 && 0 <= r < k && n == k * q + r
    ensures n / k == q && n % k == r
  {
    var t := q - n / k;
    assert k * t == n % k - r;
  }

  // ---------------------------------------------------------------------
  // RGBA colours
  // ---------------------------------------------------------------------

  /** An (r, g, b, a) tuple. */
  datatype Rgba = Rgba(r: int, g: int, b: int, a: int)

  /** Number of alpha values: 0, 2, ..., 100. */
  const ALPHAS := 51
  /** Number of tuples the enumeration yields: 256 * 256 * 256 * 51. */
  const COLOURS := 256 * 256 * 256 * ALPHAS

  /** Red, green and blue in 0..255, alpha an even number in 0..100. */
  predicate ValidColour(c: Rgba)
  {
    0 <= c.r < 256 && 0 <= c.g < 256 && 0 <= c.b < 256 && 0 <= c.a <= 100 && c.a % 2 == 0
  }

  /**
   * Element i (0-based) of the nested comprehension `for r, for g, for b,
   * for a in range(0, 101, 2)`: mixed-radix digits of i, alpha fastest.
   */
  function RgbaAt(i: int): Rgba
    requires 0 <= i < COLOURS
  {
    var x := i / ALPHAS;
    var y := x / 256;
    Rgba(y / 256, y % 256, x % 256, 2 * (i % ALPHAS))
  }

  /** The position of a colour in the enumeration. */
  function RgbaIndex(c: Rgba): int
  {
    ((c.r * 256 + c.g) * 256 + c.b) * ALPHAS + c.a / 2
  }

  /** Lexicographic order on (r, g, b, a). */
  predicate LexLess(c: Rgba, d: Rgba)
  {
    c.r < d.r || (c.r == d.r && (c.g < d.g || (c.g == d.g && (c.b < d.b || (c.b == d.b && c.a < d.a)))))
  }

  /** Every element of the enumeration is a valid colour and sits at its own index. */
  lemma RgbaAtIndex(i: int)
    requires 0 <= i < COLOURS
    ensures ValidColour(RgbaAt(i)) && RgbaIndex(RgbaAt(i)) == i
  {
    var x := i / ALPHAS;
    var y := x / 256;
    assert i == x * ALPHAS + i % ALPHAS;
    assert x == y * 256 + x % 256;
    assert y == (y / 256) * 256 + y % 256;
    assert x < 256 * 256 * 256;
    assert y < 256 * 256;
    var c := RgbaAt(i);
    assert c.a / 2 == i % ALPHAS;
  }

  /** Every valid colour occurs in the enumeration, at its index. */
  lemma IndexRgbaAt(c: Rgba)
    requires ValidColour(c)
    ensures 0 <= RgbaIndex(c) < COLOURS && RgbaAt(RgbaIndex(c)) == c
  {
    var i := RgbaIndex(c);
    var x := (c.r * 256 + c.g) * 256 + c.b;
    var y := c.r * 256 + c.g;
    DivModUnique(i, ALPHAS, x, c.a / 2);
    DivModUnique(x, 256, y, c.b);
    DivModUnique(y, 256, c.r, c.g);
  }

  /** On valid colours the index order is the lexicographic order. */
  lemma IndexOrder(c: Rgba, d: Rgba)
    requires ValidColour(c) && ValidColour(d)
    ensures LexLess(c, d) <==> RgbaIndex(c) < RgbaIndex(d)
  {
  }

  /**
   * The enumeration lists the valid colours in strictly increasing
   * lexicographic order, each exactly once.
   */
  lemma EnumerationOrdered(i: int, j: int)
    requires 0 <= i < COLOURS && 0 <= j < COLOURS
    ensures i < j <==> LexLess(RgbaAt(i), RgbaAt(j))
    ensures RgbaAt(i) == RgbaAt(j) ==> i == j
  {
    RgbaAtIndex(i);
    RgbaAtIndex(j);
    IndexOrder(RgbaAt(i), RgbaAt(j));
  }

  /** Sample elements of the enumeration: at 0, 1, 51 and 161023. */
  lemma RgbaSamples()
    ensures RgbaAt(0) == Rgba(0, 0, 0, 0)
    ensures RgbaAt(1) == Rgba(0, 0, 0, 2)
    ensures RgbaAt(51) == Rgba(0, 0, 1, 0)
    ensures RgbaAt(161023) == Rgba(0, 12, 85, 32)
  {
    IndexRgbaAt(Rgba(0, 0, 0, 2));
    IndexRgbaAt(Rgba(0, 0, 1, 0));
    IndexRgbaAt(Rgba(0, 12, 85, 32));
  }

  /**
   * One step of the nested loops: alpha advances by 2; when it was 100 it
   * restarts and blue advances, and so on outward. Only the last colour
   * has no successor.
   */
  lemma RgbaStep(i: int)
    requires 0 <= i < COLOURS
    ensures var c := RgbaAt(i);
      if c.a < 100 then i + 1 < COLOURS && RgbaAt(i + 1) == Rgba(c.r, c.g, c.b, c.a + 2)
      else if c.b < 255 then i + 1 < COLOURS && RgbaAt(i + 1) == Rgba(c.r, c.g, c.b + 1, 0)
      else if c.g < 255 then i + 1 < COLOURS && RgbaAt(i + 1) == Rgba(c.r, c.g + 1, 0, 0)
      else if c.r < 255 then i + 1 < COLOURS && RgbaAt(i + 1) == Rgba(c.r + 1, 0, 0, 0)
      else i == COLOURS - 1
  {
    RgbaAtIndex(i);
    var c := RgbaAt(i);
    var s :=
      if c.a < 100 then Rgba(c.r, c.g, c.b, c.a + 2)
      else if c.b < 255 then Rgba(c.r, c.g, c.b + 1, 0)
      else if c.g < 255 then Rgba(c.r, c.g + 1, 0, 0)
      else Rgba(c.r + 1, 0, 0, 0);
    if c.a < 100 || c.b < 255 || c.g < 255 || c.r < 255 {
      assert RgbaIndex(s) == i + 1;
      IndexRgbaAt(s);
    }
  }

  /**
   * The generator object of `rgba_gen()`, suspended with its four loop
   * variables; `pos` counts the tuples already yielded.
   */
  class RgbaGen {
    var r: int
    var g: int
    var b: int
    var a: int
    var exhausted: bool
    ghost var pos: nat

    /** The loop variables are the next element of the enumeration, until all are yielded. */
    ghost predicate Valid()
      reads this
    {
      pos <= COLOURS && (exhausted <==> pos == COLOURS)
      && (pos < COLOURS ==> Rgba(r, g, b, a) == RgbaAt(pos))
    }

    constructor ()
      ensures Valid() && pos == 0
    {
      r, g, b, a := 0, 0, 0, 0;
      exhausted := false;
      pos := 0;
    }

    /** `next(gen)`: the next tuple in order, or `None` (StopIteration) once all were yielded. */
    method Next() returns (c: Option<Rgba>)
      requires Valid()
      modifies this
      ensures Valid()
      ensures old(pos) < COLOURS ==> c == Some(RgbaAt(old(pos))) && pos == old(pos) + 1
      ensures old(pos) == COLOURS ==> c == None && pos == COLOURS
    {
      if exhausted {
        return None;
      }
      c := Some(Rgba(r, g, b, a));
      RgbaStep(pos);
      if a < 100 {
        a := a + 2;
      } else if b < 255 {
        a, b := 0, b + 1;
      } else if g < 255 {
        a, b, g := 0, 0, g + 1;
      } else if r < 255 {
        a, b, g, r := 0, 0, 0, r + 1;
      } else {
        exhausted := true;
      }
      pos := pos + 1;
    }
  }

  /**
   * `get_colour(index)`: IndexError outside 1..COLOURS; otherwise a fresh
   * generator is advanced `index - 1` times and its next tuple returned.
   */
  method GetColour(index: int) returns (res: Result<Rgba, GenError>)
    ensures res.Err? <==> index < 1 || index > COLOURS
    ensures res.Err? ==> res.error == IndexError(OUT_OF_RANGE)
    ensures res.Ok? ==> res.value == RgbaAt(index - 1) && ValidColour(res.value) && RgbaIndex(res.value) == index - 1
  {
    if index < 1 || index > COLOURS {
      return Err(IndexError(OUT_OF_RANGE));
    }
    var rgba := new RgbaGen();
    var n := 0;
    while n < index - 1
      invariant 0 <= n <= index - 1
      invariant rgba.Valid() && rgba.pos == n
    {
      var skipped := rgba.Next();
      n := n + 1;
    }
    var c := rgba.Next();
    RgbaAtIndex(index - 1);
    res := Ok(c.value);
  }

  // ---------------------------------------------------------------------
  // Primes
  // ---------------------------------------------------------------------

  /** n is at least 2 and has no divisor strictly between 1 and n. */
  predicate IsPrime(n: int)
  {
    n >= 2 && forall d :: 2 <= d < n ==> n % d != 0
  }

  /** Divisibility is transitive. */
  lemma DividesTrans(x: int, e: int, m: int)
    requires x > 0 && e > 0 && m % e == 0
    ensures e % x == 0 ==> m % x == 0
  {
    if e % x == 0 {
      var a := e / x;
      var b := m / e;
      assert m == x * (a * b);
      DivModUnique(m, x, a * b, 0);
    }
  }

  /** A divisor d of n with 2 <= d < n has the cofactor n / d, itself a divisor at least 2. */
  lemma Cofactor(n: int, d: int)
    requires 2 <= d < n
    ensures n % d == 0 ==> 2 <= n / d && n % (n / d) == 0 && (n / d) * d == n
  {
    if n % d == 0 {
      var q := n / d;
      assert n == d * q;
      DivModUnique(n, q, d, 0);
    }
  }

  /** If q * d < i * i and d >= i >= 1 then q < i. */
  lemma ProductBelowSquare(q: int, d: int, i: int)
    requires i >= 1 && d >= i && q * d < i * i
    ensures q < i
  {
    assert i * i <= i * d;
  }

  /**
   * A number with no divisor in 2..i-1, where i * i exceeds it, is prime:
   * a divisor at least i would have a cofactor below i.
   */
  lemma NoSmallDivisorPrime(n: int, i: int)
    requires n >= 2 && i >= 2 && i * i > n
    requires forall d :: 2 <= d < i ==> n % d != 0
    ensures IsPrime(n)
  {
    forall d | 2 <= d < n
      ensures n % d != 0
    {
      if d >= i {
        Cofactor(n, d);
        if n % d == 0 {
          ProductBelowSquare(n / d, d, i);
        }
      }
    }
  }

  /**
   * `prime_generator`'s inner loop: `flag` stays true unless some i with
   * 2 <= i and i * i <= num divides num.
   */
  method TrialDivision(num: int) returns (flag: bool)
    requires num >= 2
    ensures flag <==> IsPrime(num)
  {
    flag := true;
    var i := 2;
    while i * i <= num
      invariant 2 <= i
      invariant forall d :: 2 <= d < i ==> num % d != 0
    {
      if num % i == 0 {
        assert i * i >= 2 * i;
        flag := false;
        return;
      }
      i := i + 1;
    }
    NoSmallDivisorPrime(num, i);
  }

  /** n! */
  function Fact(n: nat): (f: nat)
    ensures f >= 1
  {
    if n == 0 then 1 else n * Fact(n - 1)
  }

  /** Every d in 1..n divides n!. */
  lemma {:induction false} FactDivisible(n: nat, d: int)
    requires 1 <= d <= n
    ensures Fact(n) % d == 0
  {
    if d == n {
      DivModUnique(Fact(n), d, Fact(n - 1), 0);
    } else {
      FactDivisible(n - 1, d);
      var q := Fact(n - 1) / d;
      assert Fact(n) == d * (n * q);
      DivModUnique(Fact(n), d, n * q, 0);
    }
  }

  /** The least divisor of m that is at least d. */
  function LeastDivisorFrom(m: int, d: int): (e: int)
    requires 2 <= d <= m
    ensures d <= e <= m && m % e == 0
    ensures forall x :: d <= x < e ==> m % x != 0
    decreases m - d
  {
    if m % d == 0 then d else LeastDivisorFrom(m, d + 1)
  }

  /** The least divisor above 1 of a number at least 2 is prime. */
  lemma LeastDivisorIsPrime(m: int)
    requires m >= 2
    ensures IsPrime(LeastDivisorFrom(m, 2))
  {
    var e := LeastDivisorFrom(m, 2);
    forall x | 2 <= x < e
      ensures e % x != 0
    {
      DividesTrans(x, e, m);
    }
  }

  /** Euclid: the least prime factor of n! + 1 exceeds n, since every d in 2..n leaves remainder 1. */
  lemma PrimeAbove(n: nat)
    ensures exists p :: p > n && IsPrime(p)
  {
    var m := Fact(n) + 1;
    LeastDivisorIsPrime(m);
    var p := LeastDivisorFrom(m, 2);
    if p <= n {
      FactDivisible(n, p);
      DivModUnique(m, p, Fact(n) / p, 1);
    }
    assert p > n && IsPrime(p);
  }

  /** The least prime in n..bound, where bound is prime. */
  function LeastPrimeFrom(n: int, bound: int): (p: int)
    requires n <= bound && IsPrime(bound)
    ensures n <= p <= bound && IsPrime(p)
    ensures forall q :: n <= q < p ==> !IsPrime(q)
    decreases bound - n
  {
    if IsPrime(n) then n else LeastPrimeFrom(n + 1, bound)
  }

  /** The least prime greater than n. */
  ghost function NextPrime(n: nat): (p: int)
    ensures p > n && IsPrime(p)
    ensures forall q :: n < q < p ==> !IsPrime(q)
  {
    PrimeAbove(n);
    var bound :| bound > n && IsPrime(bound);
    LeastPrimeFrom(n + 1, bound)
  }

  /** A prime above n with no prime between n and it is the next prime. */
  lemma NextPrimeUnique(n: nat, p: int)
    requires p > n && IsPrime(p)
    requires forall q :: n < q < p ==> !IsPrime(q)
    ensures NextPrime(n) == p
  {
  }

  /** The k-th prime, 1-based: 2, then each next prime in turn. */
  ghost function NthPrime(k: int): (p: nat)
    requires k >= 1
    ensures IsPrime(p)
  {
    if k == 1 then 2 else NextPrime(NthPrime(k - 1))
  }

  /** The primes in order are strictly increasing. */
  lemma {:induction false} NthPrimeIncreasing(i: int, j: int)
    requires 1 <= i < j
    ensures NthPrime(i) < NthPrime(j)
    decreases j
  {
    if i < j - 1 {
      NthPrimeIncreasing(i, j - 1);
    }
  }

  /** Every prime at least the k-th prime is the j-th prime for some j >= k. */
  lemma {:induction false} NthPrimeCoversFrom(p: int, k: int)
    requires IsPrime(p) && k >= 1 && NthPrime(k) <= p
    ensures exists j :: j >= k && NthPrime(j) == p
    decreases p - NthPrime(k)
  {
    if NthPrime(k) < p {
      assert NthPrime(k + 1) <= p;
      NthPrimeCoversFrom(p, k + 1);
    }
  }

  /** Every prime occurs in the sequence of primes. */
  lemma NthPrimeComplete(p: int)
    requires IsPrime(p)
    ensures exists k :: k >= 1 && NthPrime(k) == p
  {
    NthPrimeCoversFrom(p, 1);
  }

  /** The first candidate after `count` primes were yielded: 2, or one past the last prime. */
  ghost function Candidate(count: nat): nat
  {
    if count == 0 then 2 else NthPrime(count) + 1
  }

  /** The next prime is the least prime at or above the candidate. */
  lemma CandidateNext(count: nat, p: int)
    requires Candidate(count) <= p && IsPrime(p)
    requires forall q :: Candidate(count) <= q < p ==> !IsPrime(q)
    ensures Candidate(count) <= NthPrime(count + 1) && p == NthPrime(count + 1)
  {
    if count > 0 {
      NextPrimeUnique(NthPrime(count), p);
    }
  }

  /**
   * The `while True` loop of `prime_generator` up to its next `yield`:
   * numbers from `start` on are tried until a prime is found. Some prime
   * `bound` at or above `start` ensures the search ends.
   */
  method SearchPrime(start: int, ghost bound: int) returns (p: int)
    requires 2 <= start <= bound && IsPrime(bound)
    ensures start <= p <= bound && IsPrime(p)
    ensures forall q :: start <= q < p ==> !IsPrime(q)
  {
    p := start;
    var flag := TrialDivision(p);
    while !flag
      invariant start <= p <= bound
      invariant flag <==> IsPrime(p)
      invariant forall q :: start <= q < p ==> !IsPrime(q)
      decreases bound - p
    {
      p := p + 1;
      flag := TrialDivision(p);
    }
  }

  /** The candidate never passes the next prime. */
  lemma CandidateBound(count: nat)
    ensures Candidate(count) <= NthPrime(count + 1)
  {
  }

  /**
   * The generator object of `prime_generator()`: `num` is the next number
   * to test, `count` the number of primes yielded so far.
   */
  class PrimeGen {
    var num: int
    ghost var count: nat

    ghost predicate Valid()
      reads this
    {
      num == Candidate(count)
    }

    constructor ()
      ensures Valid() && count == 0
    {
      num := 2;
      count := 0;
    }

    /**
     * `next(gen)`: test `num`, `num + 1`, ... by trial division and yield
     * the first prime; the generator resumes one past it. The stream never ends.
     */
    method Next() returns (p: int)
      requires Valid()
      modifies this
      ensures Valid() && count == old(count) + 1
      ensures p == NthPrime(count)
    {
      CandidateBound(count);
      num := SearchPrime(num, NthPrime(count + 1));
      p := num;
      CandidateNext(count, p);
      count := count + 1;
      num := num + 1;
    }
  }

  /**
   * `prime_dec(prime_generator)`: the wrapper with its generator and the
   * `nonlocal` last requested k and last prime produced.
   */
  class PrimeDec {
    const gen: PrimeGen
    var lastK: int
    var lastPrime: Option<int>

    /** The stream has produced exactly `lastK` primes, the last of them held in `lastPrime`. */
    ghost predicate Valid()
      reads this, gen
    {
      gen.Valid() && lastK >= 0 && gen.count == lastK
      && (lastK == 0 ==> lastPrime == None)
      && (lastK >= 1 ==> lastPrime == Some(NthPrime(lastK)))
    }

    /** Decorating creates the generator; nothing was requested yet. */
    constructor ()
      ensures Valid() && fresh(gen) && lastK == 0 && lastPrime == None
    {
      gen := new PrimeGen();
      lastK := 0;
      lastPrime := None;
    }

    /**
     * `wrapper(k)`: a k below the last requested one raises ValueError and
     * changes nothing; otherwise the stream advances to its k-th prime, which
     * is returned, and RuntimeError is raised when no prime was ever produced.
     */
    method Wrapper(k: int) returns (r: Result<int, GenError>)
      requires Valid()
      modifies this, gen
      ensures Valid()
      ensures k < old(lastK) ==>
        r == Err(ValueError(K_DECREASING)) && lastK == old(lastK) && lastPrime == old(lastPrime) && gen.count == old(gen.count)
      ensures k >= old(lastK) ==> lastK == k
      ensures k >= old(lastK) && k == 0 ==> r == Err(RuntimeError(NO_VALUE))
      ensures k >= old(lastK) && k >= 1 ==> r == Ok(NthPrime(k))
    {
      if k < lastK {
        return Err(ValueError(K_DECREASING));
      }
      var n := lastK;
      while n < k
        invariant lastK <= n <= k && gen.Valid() && gen.count == n
        invariant n == 0 ==> lastPrime == None
        invariant n >= 1 ==> lastPrime == Some(NthPrime(n))
      {
        var p := gen.Next();
        lastPrime := Some(p);
        n := n + 1;
      }
      lastK := k;
      if lastPrime.None? {
        return Err(RuntimeError(NO_VALUE));
      }
      r := Ok(lastPrime.value);
    }
  }

  /** One more entry of the list of primes: the least prime after the k-th. */
  lemma NthPrimeStep(k: int, p: int, q: int)
    requires k >= 1 && NthPrime(k) == p && p < q && IsPrime(q)
    requires forall m :: p < m < q ==> !IsPrime(m)
    ensures NthPrime(k + 1) == q
  {
    NextPrimeUnique(p, q);
  }

  /** A number below 36 with no divisor among 2, 3 and 5 is prime. */
  lemma SmallPrime(n: int)
    requires 2 <= n < 36 && n % 2 != 0 && n % 3 != 0 && n % 5 != 0
    ensures IsPrime(n)
  {
    NoSmallDivisorPrime(n, 6);
  }

  /** The first five primes, as the test suite of the exercise lists them. */
  lemma FirstPrimes()
    ensures NthPrime(1) == 2 && NthPrime(2) == 3 && NthPrime(3) == 5 && NthPrime(4) == 7 && NthPrime(5) == 11
  {
    NoSmallDivisorPrime(3, 2);
    NthPrimeStep(1, 2, 3);
    NoSmallDivisorPrime(5, 3);
    assert !IsPrime(4) by { assert 4 % 2 == 0; }
    NthPrimeStep(2, 3, 5);
    SmallPrime(7);
    assert !IsPrime(6) by { assert 6 % 2 == 0; }
    NthPrimeStep(3, 5, 7);
    SmallPrime(11);
    assert !IsPrime(8) && !IsPrime(9) && !IsPrime(10) by { assert 8 % 2 == 0 && 9 % 3 == 0 && 10 % 2 == 0; }
    NthPrimeStep(4, 7, 11);
  }

  /** The sixth to tenth primes, as the test suite of the exercise lists them. */
  lemma NextPrimes()
    ensures NthPrime(6) == 13 && NthPrime(7) == 17 && NthPrime(8) == 19 && NthPrime(9) == 23 && NthPrime(10) == 29
  {
    FirstPrimes();
    SmallPrime(13);
    assert !IsPrime(12) by { assert 12 % 2 == 0; }
    NthPrimeStep(5, 11, 13);
    SmallPrime(17);
    assert !IsPrime(14) && !IsPrime(15) && !IsPrime(16) by { assert 14 % 2 == 0 && 15 % 3 == 0 && 16 % 2 == 0; }
    NthPrimeStep(6, 13, 17);
    SmallPrime(19);
    assert !IsPrime(18) by { assert 18 % 2 == 0; }
    NthPrimeStep(7, 17, 19);
    SmallPrime(23);
    assert !IsPrime(20) && !IsPrime(21) && !IsPrime(22) by { assert 20 % 2 == 0 && 21 % 3 == 0 && 22 % 2 == 0; }
    NthPrimeStep(8, 19, 23);
    SmallPrime(29);
    assert !IsPrime(24) && !IsPrime(25) && !IsPrime(26) && !IsPrime(27) && !IsPrime(28) by {
      assert 24 % 2 == 0 && 25 % 5 == 0 && 26 % 2 == 0 && 27 % 3 == 0 && 28 % 2 == 0;
    }
    NthPrimeStep(9, 23, 29);
  }
}
