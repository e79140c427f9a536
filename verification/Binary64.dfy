/**
 * Double-precision rounding, as far as a balance's numeric form goes (gateway/src/lib.rs): the amount
 * rounded to a double, divided by a power of ten, and rounded again.
 */
module Binary64 {
  import opened Common

  type positive = r: real | r > 0.0 witness 1.0

  /** A platform's rounding to doubles, and the powers of ten it computes. */
  datatype Float = Float(round: real -> real, powi: u8 -> positive)

  /** Half a unit in the last of 53 bits, relative. */
  const HALF_ULP: real := 1.0 / 9007199254740992.0

  const EXACT_BELOW: nat := 9007199254740992

  /** The largest power of ten that is a double. */
  const EXACT_POWERS: u8 := 22

  function Pow10(k: nat): real {
    if k == 0 then 1.0 else 10.0 * Pow10(k - 1)
  }

  /** Rounded to nearest within the normal range. */
  predicate RoundsTo(x: real, r: real) {
    (1.0 - HALF_ULP) * x <= r <= (1.0 + HALF_ULP) * x
  }

  /** `amount as f64 / 10_f64.powi(decimals)`. */
  function Quotient(fl: Float, amount: nat, decimals: u8): real {
    fl.round(fl.round(amount as real) / fl.powi(decimals))
  }

  /** A whole number that is a double: 53 bits, then zeros. */
  predicate Representable(n: nat) {
    n < EXACT_BELOW || (n % 2 == 0 && Representable(n / 2))
  }

  predicate IsWholeDouble(r: real, m: nat) {
    Representable(m) && r == m as real
  }

  /** A whole amount rounds to a whole double near it, to itself if it is one, and rounding again changes nothing. */
  ghost predicate AmountRounds(fl: Float, n: u64) {
    var r := fl.round(n as real);
    && RoundsTo(n as real, r) && fl.round(r) == r
    && (exists m: nat :: IsWholeDouble(r, m))
    && (Representable(n) ==> r == n as real)
  }

  predicate PowerExact(fl: Float, d: u8) {
    d <= EXACT_POWERS ==> fl.powi(d) == Pow10(d)
  }

  predicate QuotientRounds(fl: Float, n: u64, d: u8) {
    RoundsTo(fl.round(n as real) / fl.powi(d), Quotient(fl, n, d))
  }

  /** Section 4.3.1 of IEEE 754-2019 on the values a balance meets, all of them in the normal range. */
  ghost predicate Ieee(fl: Float) {
    && (forall n: u64 :: AmountRounds(fl, n))
    && (forall d: u8 :: PowerExact(fl, d))
    && (forall n: u64, d: u8 :: QuotientRounds(fl, n, d))
  }

  /** `b` is `a` to within two roundings. */
  predicate RoundsTwiceTo(a: real, b: real) {
    (1.0 - HALF_ULP) * ((1.0 - HALF_ULP) * a) <= b <= (1.0 + HALF_ULP) * ((1.0 + HALF_ULP) * a)
  }

  lemma {:induction false} RoundsAt(fl: Float, n: u64, d: u8)
    requires Ieee(fl)
    ensures RoundsTo(n as real, fl.round(n as real))
    ensures RoundsTo(fl.round(n as real) / fl.powi(d), Quotient(fl, n, d))
  {
    assert AmountRounds(fl, n) && QuotientRounds(fl, n, d);
  }

  /** What the number is off by: scaled back by the power it was divided by, it is the amount to two roundings. */
  lemma {:induction false} QuotientIsClose(fl: Float, amount: u64, decimals: u8)
    requires Ieee(fl)
    ensures RoundsTwiceTo(amount as real, Quotient(fl, amount, decimals) * fl.powi(decimals))
  {
    RoundsAt(fl, amount, decimals);
    DivisionUndone(amount as real, fl.round(amount as real), fl.powi(decimals), Quotient(fl, amount, decimals));
  }

  /** The power of ten itself where it is a double, the platform's past that. */
  function Divisor(fl: Float, decimals: u8): real {
    if decimals <= EXACT_POWERS then Pow10(decimals) else fl.powi(decimals)
  }

  /** A number with its point shifted back. */
  function ScaledBack(fl: Float, number: real, decimals: u8): real {
    number * Divisor(fl, decimals)
  }

  /** What that comes to for whatever number was served: scaled back, it is the amount to two roundings. */
  lemma {:induction false} ServedIsClose(fl: Float, amount: u64, decimals: u8, number: real)
    requires Ieee(fl) && number == Quotient(fl, amount, decimals)
    ensures RoundsTwiceTo(amount as real, ScaledBack(fl, number, decimals))
  {
    if decimals <= EXACT_POWERS {
      ShiftedBackIsClose(fl, amount, decimals);
    } else {
      QuotientIsClose(fl, amount, decimals);
    }
  }

  /** So up to 22 decimals, shifting the number's point back gives the base units to two roundings. */
  lemma {:induction false} ShiftedBackIsClose(fl: Float, amount: u64, decimals: u8)
    requires Ieee(fl) && decimals <= EXACT_POWERS
    ensures RoundsTwiceTo(amount as real, Quotient(fl, amount, decimals) * Pow10(decimals))
  {
    assert PowerExact(fl, decimals);
    QuotientIsClose(fl, amount, decimals);
  }

  lemma {:induction false} Undivided(r: real, p: real)
    requires p > 0.0
    ensures r / p * p == r
  {
  }

  /** A product with a non-negative factor keeps an order. */
  lemma {:induction false} MulMono(a: real, b: real, c: real)
    requires a <= b && c >= 0.0
    ensures a * c <= b * c
  {
  }

  lemma {:induction false} DivisionUndone(a: real, r: real, p: positive, q: real)
    requires RoundsTo(a, r) && RoundsTo(r / p, q)
    ensures RoundsTwiceTo(a, q * p)
  {
    Undivided(r, p);
    ProductBounds(r / p, p, r, q, a);
  }

  /** Multiplying the quotient back by its divisor undoes the division to within the roundings. */
  lemma {:induction false} ProductBounds(x: real, p: real, r: real, q: real, a: real)
    requires p > 0.0 && x * p == r && RoundsTo(x, q) && RoundsTo(a, r)
    ensures RoundsTwiceTo(a, q * p)
  {
    var lo, hi := 1.0 - HALF_ULP, 1.0 + HALF_ULP;
    MulMono(lo * x, q, p);
    MulMono(q, hi * x, p);
    assert lo * x * p == lo * (x * p) && hi * x * p == hi * (x * p);
    MulMono(lo * a, r, lo);
    MulMono(r, hi * a, hi);
  }

  /** With no decimals the number is the amount if and only if the amount is a double. */
  lemma {:induction false} WholeAmountExactIff(fl: Float, amount: u64)
    requires Ieee(fl)
    ensures Quotient(fl, amount, 0) == amount as real <==> Representable(amount)
  {
    assert AmountRounds(fl, amount);
    var r := fl.round(amount as real);
    assert r / fl.powi(0) == r by {
      assert PowerExact(fl, 0) && Pow10(0) == 1.0;
    }
    assert Quotient(fl, amount, 0) == r;
    var m: nat :| IsWholeDouble(r, m);
    assert r == amount as real ==> m == amount;
  }

  /** So 2^53 + 1 base units of a token without decimals are the first never served as themselves. */
  lemma {:induction false} FirstInexactAmount(fl: Float, n: nat)
    requires Ieee(fl) && n <= EXACT_BELOW + 1
    ensures Quotient(fl, n, 0) == n as real <==> n <= EXACT_BELOW
  {
    WholeAmountExactIff(fl, n);
    assert Representable(EXACT_BELOW / 2);
    assert !Representable(EXACT_BELOW + 1);
  }

  // ---------------------------------------------------------------------------
  // Rounding to the nearest double is such a rounding
  // ---------------------------------------------------------------------------

  /** The largest double at or below a whole number. */
  function DoubleBelow(n: nat): nat {
    if n < EXACT_BELOW then n else 2 * DoubleBelow(n / 2)
  }

  /** The smallest double at or above it. */
  function DoubleAbove(n: nat): nat {
    if n <= EXACT_BELOW then n else 2 * DoubleAbove((n + 1) / 2)
  }

  function NearestDouble(n: nat): nat {
    if n - DoubleBelow(n) <= DoubleAbove(n) - n then DoubleBelow(n) else DoubleAbove(n)
  }

  /** Whole numbers go to the nearest double; the rest are left as they are, having no part in what is proved. */
  function RoundWhole(x: real): real {
    if x >= 0.0 && x.Floor as real == x then NearestDouble(x.Floor) as real else x
  }

  function ExactPowers(d: u8): positive {
    if d <= EXACT_POWERS then
      Pow10Positive(d);
      Pow10(d)
    else 1.0
  }

  lemma {:induction false} Pow10Positive(k: nat)
    ensures Pow10(k) > 0.0
  {
    if k > 0 {
      Pow10Positive(k - 1);
    }
  }

  lemma {:induction false} TwiceADouble(m: nat)
    requires Representable(m)
    ensures Representable(2 * m)
  {
    assert 2 * m % 2 == 0 && 2 * m / 2 == m;
  }

  lemma {:induction false} DoubleBelowHolds(n: nat)
    ensures DoubleBelow(n) <= n && Representable(DoubleBelow(n))
    ensures Representable(n) ==> DoubleBelow(n) == n
  {
    if n >= EXACT_BELOW {
      DoubleBelowHolds(n / 2);
      TwiceADouble(DoubleBelow(n / 2));
    }
  }

  lemma {:induction false} DoubleAboveHolds(n: nat)
    ensures n <= DoubleAbove(n) && Representable(DoubleAbove(n))
  {
    if n > EXACT_BELOW {
      DoubleAboveHolds((n + 1) / 2);
      TwiceADouble(DoubleAbove((n + 1) / 2));
    } else if n == EXACT_BELOW {
      TwiceADouble(EXACT_BELOW / 2);
    }
  }

  /** No more than a 2^52nd of `n`. */
  predicate Slight(gap: int, n: nat) {
    4503599627370496 * gap <= n
  }

  /** Doubles on either side of a gap between whole numbers are a 2^52nd apart. */
  lemma {:induction false} NextDoubleIsNear(n: nat)
    requires EXACT_BELOW / 2 <= n
    ensures Slight(DoubleAbove(n + 1) - DoubleBelow(n), n)
  {
    if n >= EXACT_BELOW {
      NextDoubleIsNear(n / 2);
      assert (n + 2) / 2 == n / 2 + 1;
    }
  }

  lemma {:induction false} DoublesAreNear(n: nat)
    ensures Slight(DoubleAbove(n) - DoubleBelow(n), n)
  {
    if n > EXACT_BELOW {
      if n % 2 == 0 {
        DoublesAreNear(n / 2);
        assert (n + 1) / 2 == n / 2;
      } else {
        NextDoubleIsNear(n / 2);
        assert (n + 1) / 2 == n / 2 + 1;
      }
    }
  }

  lemma {:induction false} NearestRounds(n: nat)
    ensures RoundsTo(n as real, NearestDouble(n) as real)
    ensures Representable(NearestDouble(n)) && NearestDouble(NearestDouble(n)) == NearestDouble(n)
    ensures Representable(n) ==> NearestDouble(n) == n
  {
    DoubleBelowHolds(n);
    DoubleAboveHolds(n);
    DoubleBelowHolds(NearestDouble(n));
    DoubleAboveHolds(NearestDouble(n));
    DoublesAreNear(n);
    OffByAtMost(n, NearestDouble(n));
  }

  lemma {:induction false} OffByAtMost(n: nat, r: nat)
    requires Slight(2 * (r - n), n) && Slight(2 * (n - r), n)
    ensures RoundsTo(n as real, r as real)
  {
  }

  /** So what is assumed of doubles can be met. */
  lemma {:induction false} NearestIsIeee()
    ensures Ieee(Float(RoundWhole, ExactPowers))
  {
    var fl := Float(RoundWhole, ExactPowers);
    forall n: u64
      ensures AmountRounds(fl, n)
    {
      NearestRounds(n);
      assert (n as real).Floor == n;
      assert IsWholeDouble(fl.round(n as real), NearestDouble(n));
    }
    forall n: u64, d: u8
      ensures QuotientRounds(fl, n, d)
    {
      NonNegativeQuotient(n, ExactPowers(d));
      RoundWholeRounds(fl.round(n as real) / fl.powi(d));
    }
  }

  lemma {:induction false} RoundWholeRounds(x: real)
    requires x >= 0.0
    ensures RoundsTo(x, RoundWhole(x))
  {
    if x.Floor as real == x {
      NearestRounds(x.Floor);
    }
  }

  lemma {:induction false} NonNegativeQuotient(n: nat, p: positive)
    ensures RoundWhole(n as real) / p >= 0.0
  {
    assert RoundWhole(n as real) >= 0.0;
  }
}
