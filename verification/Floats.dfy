/**
  What a JSON number goes through when it is decoded into a float64 and encoded again: an integer is
  rounded to the nearest float (ties to even), and the float is printed with the fewest digits that
  read back as the same float, padded with zeros.
*/
module Floats {

  const TWO52: nat := 0x10_0000_0000_0000
  const TWO53: nat := 0x20_0000_0000_0000
  const TWO63: nat := 0x8000_0000_0000_0000
  /** The least integer that rounds to 2^63: half a unit in the last place below it, a tie to even. */
  const ILLEGIBLE: nat := 0x7FFF_FFFF_FFFF_FE00

  function Abs(n: int): nat {
    if n < 0 then -n else n
  }

  // ---- reading ----

  /** The distance of neighbouring floats at a, for integers: 1 up to 2^53. */
  function Ulp(a: nat): (u: nat)
    ensures u >= 1
  {
    if a < TWO53 then 1 else 2 * Ulp(a / 2)
  }

  /** The nearest multiple of u, a tie going to the even multiple. */
  function Nearest(a: nat, u: nat): (f: nat)
    requires u >= 1
    ensures -(u as int) <= 2 * (f - a) <= u
  {
    var r := a % u;
    if 2 * r < u || (2 * r == u && (a / u) % 2 == 0) then a - r else a - r + u
  }

  function Float(a: nat): nat {
    Nearest(a, Ulp(a))
  }

  // ---- printing ----

  function Pow10(j: nat): (p: nat)
    ensures p >= 1
  {
    if j == 0 then 1 else 10 * Pow10(j - 1)
  }

  /** The multiple of p at or below f. */
  function Below(f: nat, p: nat): (d: nat)
    requires p >= 1
    ensures d <= f < d + p
  {
    f - f % p
  }

  /** Try to get by with j trailing zeros, then with fewer; of two candidates the nearer, or even. */
  function Shortest(f: nat, j: nat): nat {
    if j == 0 then f
    else
      var p := Pow10(j);
      var down := Below(f, p);
      var up := down + p;
      var low, high := Float(down) == f, Float(up) == f;
      if low && (!high || f - down < up - f || (f - down == up - f && (f / p) % 2 == 0)) then down
      else if high then up
      else Shortest(f, j - 1)
  }

  function Digits(f: nat): nat {
    if f < 10 then 1 else 1 + Digits(f / 10)
  }

  function Printed(f: nat): nat {
    Shortest(f, Digits(f))
  }

  /** The number written back for n; numbers of up to 21 digits are printed without an exponent. */
  function Written(n: int): int {
    if n < 0 then -(Printed(Float(-n)) as int) else Printed(Float(n))
  }

  // ---- powers of two ----

  predicate Pow2(u: nat) {
    u == 1 || (u > 1 && u % 2 == 0 && Pow2(u / 2))
  }

  lemma {:induction false} UlpAt(a: nat, u: nat)
    requires Pow2(u) && (u > 1 ==> TWO52 * u <= a) && a < TWO53 * u
    ensures Ulp(a) == u
    decreases u
  {
    if u > 1 {
      UlpAt(a / 2, u / 2);
    }
  }

  lemma {:induction false} UlpBounds(a: nat)
    ensures var u := Ulp(a); Pow2(u) && (u > 1 ==> TWO52 * u <= a) && a < TWO53 * u
  {
    if a >= TWO53 {
      UlpBounds(a / 2);
    }
  }

  // ---- division ----

  lemma MulSize(k: int, u: nat)
    requires u >= 1
    ensures k >= 1 ==> k * u >= u
    ensures k <= -1 ==> k * u <= -(u as int)
  {
  }

  lemma DivMod(x: nat, u: nat)
    requires u >= 1
    ensures x == (x / u) * u + x % u
  {
  }

  lemma DivModUnique(x: nat, u: nat, q: nat, r: nat)
    requires u >= 1 && r < u && x == q * u + r
    ensures x % u == r
  {
    DivMod(x, u);
    var k := q - x / u;
    assert k * u == x % u - r;
    MulSize(k, u);
  }

  lemma MulMod(c: nat, u: nat)
    requires u >= 1
    ensures (c * u) % u == 0
  {
    DivModUnique(c * u, u, c, 0);
  }

  // ---- rounding ----

  /** A number that stands on its own grid is its own float. */
  lemma OnGrid(f: nat, u: nat)
    requires Pow2(u) && (u > 1 ==> TWO52 * u <= f) && f < TWO53 * u && f % u == 0
    ensures Float(f) == f
  {
    UlpAt(f, u);
  }

  lemma GridStep(a: nat, u: nat)
    requires u >= 1
    ensures (a - a % u) % u == 0 && (a - a % u + u) % u == 0
    ensures Nearest(a, u) % u == 0
  {
    var q := a / u;
    DivMod(a, u);
    MulMod(q, u);
    MulMod(q + 1, u);
    assert (q + 1) * u == q * u + u;
  }

  /** A multiple of u at or below a is at or below the multiple of u next below a. */
  lemma GridBelow(a: nat, u: nat, c: nat)
    requires u >= 1 && c * u <= a
    ensures c * u <= a - a % u
  {
    DivMod(a, u);
    MulSize(c - a / u, u);
  }

  /** ... and one above a is at or above the next. */
  lemma GridAbove(a: nat, u: nat, c: nat)
    requires u >= 1 && a < c * u
    ensures a - a % u + u <= c * u
  {
    DivMod(a, u);
    MulSize(c - a / u - 1, u);
  }

  /** Rounding lands in the binade of a or on its upper end. */
  lemma FloatInBinade(a: nat)
    ensures var u, f := Ulp(a), Float(a);
            f % u == 0 && f <= TWO53 * u && (u > 1 ==> TWO52 * u <= f)
  {
    var u := Ulp(a);
    UlpBounds(a);
    GridStep(a, u);
    GridAbove(a, u, TWO53);
    if u > 1 {
      GridBelow(a, u, TWO52);
    }
  }

  /** Reading is idempotent: a float read again is the same float. */
  lemma FloatTwice(a: nat)
    ensures Float(Float(a)) == Float(a)
  {
    var u, f := Ulp(a), Float(a);
    UlpBounds(a);
    FloatInBinade(a);
    if f < TWO53 * u {
      OnGrid(f, u);
    } else {
      CarryOnGrid(f, u);
    }
  }

  /** The upper end of a binade is the lower end of the next. */
  lemma CarryOnGrid(f: nat, u: nat)
    requires Pow2(u) && f == TWO53 * u
    ensures Float(f) == f
  {
    MulMod(TWO52, 2 * u);
    OnGrid(f, 2 * u);
  }

  /** Printing loses nothing a float holds: what is written reads back as the same float. */
  lemma {:induction false} ShortestReadsBack(f: nat, j: nat)
    requires Float(f) == f
    ensures Float(Shortest(f, j)) == f
    decreases j
  {
    if j > 0 {
      ShortestReadsBack(f, j - 1);
    }
  }

  lemma WrittenReadsBack(n: int)
    ensures Float(Abs(Written(n))) == Float(Abs(n))
  {
    var f := Float(Abs(n));
    FloatTwice(Abs(n));
    ShortestReadsBack(f, Digits(f));
  }

  // ---- which integers stay within 64 bits ----

  lemma FloatOfSmall(a: nat)
    ensures a <= TWO53 ==> Float(a) == a
    ensures a > TWO53 + 1 ==> Float(a) > TWO53
  {
    UlpBounds(a);
    FloatInBinade(a);
    if TWO53 <= a < 2 * TWO53 {
      UlpAt(a, 2);
    }
  }

  /** A float is below 2^63 exactly when the number read was below ILLEGIBLE. */
  lemma FloatBelow(a: nat)
    ensures Float(a) < TWO63 <==> a < ILLEGIBLE
  {
    UlpBounds(a);
    FloatInBinade(a);
    if TWO52 * 1024 <= a < TWO63 {
      UlpAt(a, 1024);
    } else if TWO63 <= a < 2 * TWO63 {
      UlpAt(a, 2048);
    }
  }

  /** One round of the search: one of the two neighbouring multiples, if it reads back, or on. */
  lemma ShortestStep(f: nat, j: nat, p: nat, down: nat)
    requires j > 0 && p == Pow10(j) && down == Below(f, p)
    ensures var t, low, high := Shortest(f, j), Float(down) == f, Float(down + p) == f;
            || (low && t == down)
            || (high && t == down + p)
            || (!low && !high && t == Shortest(f, j - 1))
  {
  }

  lemma MulSwap(q: nat, c: nat, m: nat)
    ensures q * (c * m) == (q * m) * c
  {
  }

  lemma BelowMultiple(f: nat, p: nat, c: nat, m: nat)
    requires c >= 1 && p >= 1 && p == c * m
    ensures Below(f, p) % c == 0 && (Below(f, p) + p) % c == 0
  {
    var q := f / p;
    DivMod(f, p);
    MulSwap(q, c, m);
    MulMod(q * m, c);
    MulSwap(q + 1, c, m);
    MulMod((q + 1) * m, c);
    NextMultiple(q, p);
  }

  lemma NextMultiple(q: nat, p: nat)
    ensures (q + 1) * p == q * p + p
  {
  }

  lemma ThousandDivides(j: nat)
    requires j >= 3
    ensures Pow10(j) == 1000 * Pow10(j - 3)
  {
    assert Pow10(j) == 10 * Pow10(j - 1) && Pow10(j - 1) == 10 * Pow10(j - 2) && Pow10(j - 2) == 10 * Pow10(j - 3);
  }

  /** Among the multiples of 1000 only one reads back as 2^63, and it is above it. */
  lemma RoundAtThree(p: nat, down: nat)
    requires p == 1000 && down == Below(TWO63, p)
    ensures Float(down) != TWO63 && Float(down + p) == TWO63 && (down + p) % 1000 == 0
  {
    FloatBelow(down);
    UlpAt(down + p, 2048);
  }

  /** 2^63 is written with at least three zeros at the end. */
  lemma {:induction false} RoundText(f: nat, j: nat)
    requires j >= 3 && f == TWO63
    ensures Shortest(f, j) % 1000 == 0
    decreases j
  {
    var p := Pow10(j);
    var down := Below(f, p);
    ThousandDivides(j);
    BelowMultiple(f, p, 1000, Pow10(j - 3));
    ShortestStep(f, j, p, down);
    if j > 3 {
      RoundText(f, j - 1);
    } else {
      RoundAtThree(p, down);
    }
  }

  lemma DigitsOfLarge(f: nat)
    requires f >= 1000
    ensures Digits(f) >= 3
  {
    assert Digits(f / 10) >= 1 + Digits(f / 10 / 10);
  }

  lemma Only63(t: nat)
    ensures Float(t) == TWO63 && t % 1000 == 0 ==> t > TWO63
    ensures Float(t) > TWO63 ==> t > TWO63
  {
    FloatBelow(t);
    if ILLEGIBLE <= t < TWO63 {
      UlpAt(t, 1024);
    }
    UlpAt(TWO63, 2048);
  }

  /**
    Exactly when an integer, read and written back, is still legible as a 64-bit integer: its size is
    below 2^63 - 512. Beyond, even what fitted before is written as more than 2^63.
  */
  lemma LegibleExactly(n: int)
    ensures Abs(n) < ILLEGIBLE ==> Abs(Written(n)) < ILLEGIBLE
    ensures Abs(n) >= ILLEGIBLE ==> Abs(Written(n)) > TWO63
  {
    WrittenReadsBack(n);
    WrittenSize(n);
    PrintedIsRound(Float(Abs(n)));
    LegibleSizes(Abs(n), Abs(Written(n)));
  }

  lemma LegibleSizes(a: nat, t: nat)
    requires Float(t) == Float(a) && (Float(a) == TWO63 ==> t % 1000 == 0)
    ensures a < ILLEGIBLE ==> t < ILLEGIBLE
    ensures a >= ILLEGIBLE ==> t > TWO63
  {
    FloatBelow(a);
    FloatBelow(t);
    Only63(t);
  }

  lemma WrittenSize(n: int)
    ensures Abs(Written(n)) == Printed(Float(Abs(n)))
  {
  }

  lemma PrintedIsRound(f: nat)
    ensures f == TWO63 ==> Printed(f) % 1000 == 0
  {
    if f == TWO63 {
      DigitsOfLarge(f);
      RoundText(f, Digits(f));
    }
  }

  /** Up to 2^53 nothing is lost. */
  lemma {:induction false} ShortestOfSmall(f: nat, j: nat)
    requires f <= TWO53
    ensures Shortest(f, j) == f
    decreases j
  {
    if j > 0 {
      var p := Pow10(j);
      var down := Below(f, p);
      BelowMultiple(f, p, 10, Pow10(j - 1));
      ShortestStep(f, j, p, down);
      OnlyItself(f, down);
      OnlyItself(f, down + p);
      ShortestOfSmall(f, j - 1);
    }
  }

  lemma OnlyItself(f: nat, t: nat)
    requires f <= TWO53 && t % 10 == 0
    ensures Float(t) == f ==> t == f
  {
    FloatOfSmall(t);
  }

  lemma WrittenExactly(n: int)
    requires Abs(n) <= TWO53
    ensures Written(n) == n
  {
    FloatOfSmall(Abs(n));
    ShortestOfSmall(Abs(n), Digits(Abs(n)));
  }
}
