/**
 * Printing a token balance (gateway/src/lib.rs, `ui_amount_string`): base units as a decimal
 * string with trailing zeros trimmed, and the parser that undoes it.
 */
module UiAmount {
  import opened Common

  // ---------------------------------------------------------------------------
  // Printing
  // ---------------------------------------------------------------------------

  function Digit(d: nat): char
    requires d < 10
  {
    '0' + d as char
  }

  /** `to_string` of an unsigned integer. */
  function Decimal(n: nat): (s: string)
    ensures s != []
  {
    if n < 10 then [Digit(n)] else Decimal(n / 10) + [Digit(n % 10)]
  }

  function Zeros(n: nat): (s: string)
    ensures |s| == n && forall i :: 0 <= i < n ==> s[i] == '0'
  {
    seq(n, i => '0')
  }

  /** The decimal digits, zero-padded on the left to `width`. */
  function Padded(n: nat, width: nat): (s: string)
    ensures |s| >= width && s != []
  {
    var s := Decimal(n);
    if |s| < width then Zeros(width - |s|) + s else s
  }

  function TrimEnd(s: string, c: char): string {
    if s != [] && s[|s| - 1] == c then TrimEnd(s[..|s| - 1], c) else s
  }

  /** `ui_amount_string`. */
  function UiAmountString(amount: nat, decimals: nat): string {
    if decimals == 0 then Decimal(amount)
    else Dotted(Whole(amount, decimals), Tail(amount, decimals))
  }

  /** The padded digits before the point, at least one. */
  function Whole(amount: nat, decimals: nat): string {
    var digits := Padded(amount, decimals + 1);
    digits[..|digits| - decimals]
  }

  /** The `decimals` digits after it. */
  function Tail(amount: nat, decimals: nat): string {
    var digits := Padded(amount, decimals + 1);
    digits[|digits| - decimals..]
  }

  /** The point inserted, then trailing zeros trimmed, then a trailing point. */
  function Dotted(whole: string, tail: string): string {
    TrimEnd(TrimEnd(whole + "." + tail, '0'), '.')
  }

  // ---------------------------------------------------------------------------
  // Parsing
  // ---------------------------------------------------------------------------

  /** `v` times ten to the `k`. */
  function Scaled(v: nat, k: nat): nat {
    if k == 0 then v else 10 * Scaled(v, k - 1)
  }

  predicate IsDigit(c: char) {
    '0' <= c <= '9'
  }

  predicate AllDigits(s: string) {
    forall i :: 0 <= i < |s| ==> IsDigit(s[i])
  }

  function Value(s: string): nat
    requires AllDigits(s)
  {
    if s == [] then 0 else 10 * Value(s[..|s| - 1]) + (s[|s| - 1] - '0') as nat
  }

  /** Index of the decimal point, or the length if there is none. */
  function Point(s: string): (i: nat)
    ensures i <= |s|
  {
    if s == [] || s[0] == '.' then 0 else 1 + Point(s[1..])
  }

  /** The base units a decimal string stands for, at `decimals` places. */
  function Parse(s: string, decimals: nat): Option<nat> {
    var i := Point(s);
    var whole, fraction := s[..i], if i < |s| then s[i + 1..] else [];
    if whole == [] || !AllDigits(whole) || !AllDigits(fraction) || |fraction| > decimals then None
    else Some(Scaled(Value(whole), decimals) + Scaled(Value(fraction), decimals - |fraction|))
  }

  /** Written once: no bare point, no trailing fractional zero, no redundant leading zero. */
  predicate Canonical(s: string) {
    && s != []
    && s[0] != '.'
    && ('.' in s ==> s[|s| - 1] != '0' && s[|s| - 1] != '.')
    && (s[0] == '0' && |s| > 1 ==> s[1] == '.')
  }

  // ---------------------------------------------------------------------------
  // Digits and values
  // ---------------------------------------------------------------------------

  lemma {:induction false} DecimalDigits(n: nat)
    ensures AllDigits(Decimal(n)) && Value(Decimal(n)) == n
    ensures Decimal(n)[0] == '0' ==> n == 0
    ensures n < 10 ==> |Decimal(n)| == 1
  {
    if n >= 10 {
      DecimalDigits(n / 10);
      var s := Decimal(n);
      assert s[..|s| - 1] == Decimal(n / 10);
    } else {
      assert Decimal(n)[..0] == [];
    }
  }

  lemma {:induction false} ValueConcat(a: string, b: string)
    requires AllDigits(a) && AllDigits(b)
    ensures AllDigits(a + b)
    ensures Value(a + b) == Scaled(Value(a), |b|) + Value(b)
  {
    if b == [] {
      assert a + b == a;
    } else {
      var init := b[..|b| - 1];
      ValueConcat(a, init);
      assert (a + b)[..|a + b| - 1] == a + init;
    }
  }

  lemma {:induction false} ScaledZero(k: nat)
    ensures Scaled(0, k) == 0
  {
    if k > 0 {
      ScaledZero(k - 1);
    }
  }

  lemma {:induction false} ZerosAreZero(n: nat)
    ensures AllDigits(Zeros(n)) && Value(Zeros(n)) == 0
  {
    if n > 0 {
      ZerosAreZero(n - 1);
      assert Zeros(n)[..n - 1] == Zeros(n - 1);
    }
  }

  /** Padding changes neither the value nor, past one digit before the point, the leading digit. */
  lemma {:induction false} PaddedDigits(n: nat, width: nat)
    requires width > 0
    ensures AllDigits(Padded(n, width)) && Value(Padded(n, width)) == n
    ensures Padded(n, width)[0] == '0' ==> |Padded(n, width)| == width
  {
    DecimalDigits(n);
    var s := Decimal(n);
    if |s| < width {
      ZerosAreZero(width - |s|);
      ValueConcat(Zeros(width - |s|), s);
      ScaledZero(|s|);
    }
  }

  // ---------------------------------------------------------------------------
  // Trimming
  // ---------------------------------------------------------------------------

  /** Trimming stops at the last character that is not the trimmed one. */
  lemma {:induction false} TrimStops(s: string, stop: char, rest: string, c: char)
    requires stop != c
    ensures TrimEnd(s + [stop] + rest, c) == s + [stop] + TrimEnd(rest, c)
  {
    var all := s + [stop] + rest;
    if rest == [] {
      assert all[|all| - 1] == stop;
      assert all == s + [stop] + [];
    } else if rest[|rest| - 1] == c {
      assert all[..|all| - 1] == s + [stop] + rest[..|rest| - 1];
      TrimStops(s, stop, rest[..|rest| - 1], c);
    }
  }

  /** What trimming removes from a fraction is a factor of ten per digit. */
  lemma {:induction false} TrimZeros(f: string)
    requires AllDigits(f)
    ensures AllDigits(TrimEnd(f, '0')) && |TrimEnd(f, '0')| <= |f|
    ensures Value(f) == Scaled(Value(TrimEnd(f, '0')), |f| - |TrimEnd(f, '0')|)
    ensures TrimEnd(f, '0') != [] ==> TrimEnd(f, '0')[|TrimEnd(f, '0')| - 1] != '0'
  {
    if f != [] && f[|f| - 1] == '0' {
      var init := f[..|f| - 1];
      TrimZeros(init);
    }
  }

  lemma {:induction false} DigitsHaveNoPoint(s: string)
    requires AllDigits(s)
    ensures Point(s) == |s| && '.' !in s
    ensures TrimEnd(s, '.') == s
  {
    if s != [] {
      assert IsDigit(s[0]) && IsDigit(s[|s| - 1]);
      assert AllDigits(s[1..]);
      DigitsHaveNoPoint(s[1..]);
    }
  }

  lemma {:induction false} PointAfterDigits(whole: string, rest: string)
    requires AllDigits(whole)
    ensures Point(whole + "." + rest) == |whole|
  {
    if whole != [] {
      assert IsDigit(whole[0]);
      assert (whole + "." + rest)[1..] == whole[1..] + "." + rest;
      PointAfterDigits(whole[1..], rest);
    }
  }

  lemma {:induction false} TrimPoint(whole: string)
    requires AllDigits(whole)
    ensures TrimEnd(whole + ".", '.') == whole
  {
    DigitsHaveNoPoint(whole);
    var dotted := whole + ".";
    assert dotted[..|dotted| - 1] == whole;
  }

  /** The trimmed string: the whole digits, and the tail's digits up to its last nonzero one. */
  lemma {:induction false} DottedIs(whole: string, tail: string)
    requires AllDigits(whole) && AllDigits(tail)
    ensures var fraction := TrimEnd(tail, '0');
            Dotted(whole, tail) == if fraction == [] then whole else whole + "." + fraction
  {
    var fraction := TrimEnd(tail, '0');
    TrimStops(whole, '.', tail, '0');
    TrimZeros(tail);
    if fraction == [] {
      TrimPoint(whole);
      assert whole + "." + [] == whole + ".";
    } else {
      var dotted := whole + "." + fraction;
      assert IsDigit(fraction[|fraction| - 1]) && dotted[|dotted| - 1] == fraction[|fraction| - 1];
    }
  }

  lemma {:induction false} ParsePrinted(whole: string, fraction: string, decimals: nat)
    requires AllDigits(whole) && AllDigits(fraction) && whole != [] && |fraction| <= decimals
    ensures Parse(if fraction == [] then whole else whole + "." + fraction, decimals)
            == Some(Scaled(Value(whole), decimals) + Scaled(Value(fraction), decimals - |fraction|))
  {
    if fraction == [] {
      DigitsHaveNoPoint(whole);
      assert whole[..|whole|] == whole;
    } else {
      var s := whole + "." + fraction;
      PointAfterDigits(whole, fraction);
      assert s[..|whole|] == whole && s[|whole| + 1..] == fraction;
    }
  }

  lemma {:induction false} DottedIsCanonical(whole: string, tail: string)
    requires AllDigits(whole) && AllDigits(tail) && whole != []
    requires whole[0] == '0' ==> |whole| == 1
    ensures Canonical(Dotted(whole, tail))
  {
    DottedIs(whole, tail);
    TrimZeros(tail);
    DigitsHaveNoPoint(whole);
    assert IsDigit(whole[0]);
    var fraction := TrimEnd(tail, '0');
    if fraction != [] {
      var s := whole + "." + fraction;
      assert s[|s| - 1] == fraction[|fraction| - 1] && IsDigit(fraction[|fraction| - 1]);
    }
  }

  /** The padded digits split into a whole part with no redundant zero and exactly `decimals` more. */
  lemma {:induction false} SplitDigits(amount: nat, decimals: nat)
    ensures var whole, tail := Whole(amount, decimals), Tail(amount, decimals);
            && AllDigits(whole) && AllDigits(tail) && whole != [] && |tail| == decimals
            && (whole[0] == '0' ==> |whole| == 1)
            && Scaled(Value(whole), decimals) + Value(tail) == amount
  {
    PaddedDigits(amount, decimals + 1);
    SplitValue(Padded(amount, decimals + 1), decimals);
  }

  lemma {:induction false} SplitValue(digits: string, k: nat)
    requires AllDigits(digits) && k <= |digits|
    ensures var whole, tail := digits[..|digits| - k], digits[|digits| - k..];
            AllDigits(whole) && AllDigits(tail) && Scaled(Value(whole), k) + Value(tail) == Value(digits)
  {
    var whole, tail := digits[..|digits| - k], digits[|digits| - k..];
    assert whole + tail == digits;
    ValueConcat(whole, tail);
  }

  // ---------------------------------------------------------------------------
  // The theorems
  // ---------------------------------------------------------------------------

  /** Parsing what was printed recovers the amount, for every amount and every scale. */
  lemma {:induction false} ParseUndoesPrint(amount: nat, decimals: nat)
    ensures Parse(UiAmountString(amount, decimals), decimals) == Some(amount)
  {
    if decimals == 0 {
      ParseWhole(amount);
    } else {
      SplitDigits(amount, decimals);
      ParseDotted(Whole(amount, decimals), Tail(amount, decimals));
    }
  }

  lemma {:induction false} ParseWhole(amount: nat)
    ensures Parse(Decimal(amount), 0) == Some(amount)
  {
    DecimalDigits(amount);
    ParsePrinted(Decimal(amount), [], 0);
  }

  lemma {:induction false} ParseDotted(whole: string, tail: string)
    requires AllDigits(whole) && AllDigits(tail) && whole != []
    ensures Parse(Dotted(whole, tail), |tail|) == Some(Scaled(Value(whole), |tail|) + Value(tail))
  {
    DottedIs(whole, tail);
    TrimZeros(tail);
    ParsePrinted(whole, TrimEnd(tail, '0'), |tail|);
  }

  /** The printed string is canonical. */
  lemma {:induction false} PrintIsCanonical(amount: nat, decimals: nat)
    ensures Canonical(UiAmountString(amount, decimals))
  {
    if decimals == 0 {
      DecimalDigits(amount);
      DigitsHaveNoPoint(Decimal(amount));
    } else {
      SplitDigits(amount, decimals);
      DottedIsCanonical(Whole(amount, decimals), Tail(amount, decimals));
    }
  }

  /** Different amounts never print alike. */
  lemma {:induction false} PrintIsInjective(a: nat, b: nat, decimals: nat)
    requires UiAmountString(a, decimals) == UiAmountString(b, decimals)
    ensures a == b
  {
    ParseUndoesPrint(a, decimals);
    ParseUndoesPrint(b, decimals);
  }

  /** The string built in place: pad, insert the point, trim. */
  method BuildString(amount: nat, decimals: nat) returns (s: string)
    ensures s == UiAmountString(amount, decimals)
  {
    if decimals == 0 {
      s := Decimal(amount);
    } else {
      s := Padded(amount, decimals + 1);
      var point := |s| - decimals;
      s := s[..point] + "." + s[point..];
      s := TrimEnd(s, '0');
      s := TrimEnd(s, '.');
    }
  }

  /** What is built parses back to the amount and is canonical. */
  method FormatUiAmount(amount: nat, decimals: nat) returns (s: string)
    ensures Parse(s, decimals) == Some(amount) && Canonical(s)
  {
    s := BuildString(amount, decimals);
    ParseUndoesPrint(amount, decimals);
    PrintIsCanonical(amount, decimals);
  }
}
