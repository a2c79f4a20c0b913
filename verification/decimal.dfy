/** Decimal rendering of natural numbers, as Python's `str(n)` (and the `:>8` format
    specifier before padding) produces it, together with its inverse parser. */
module Decimal {
  import opened Options

  predicate IsDigit(c: char) {
    '0' <= c <= '9'
  }

  predicate AllDigits(s: string) {
    forall i :: 0 <= i < |s| ==> IsDigit(s[i])
  }

  function DigitChar(d: nat): (c: char)
    requires d < 10
    ensures IsDigit(c)
  {
    (('0' as int) + d) as char
  }

  function DigitValue(c: char): (d: nat)
    requires IsDigit(c)
    ensures d < 10 && DigitChar(d) == c
  {
    (c as int) - ('0' as int)
  }

  function Pow10(k: nat): (p: nat)
    ensures p >= 1
  {
    if k == 0 then 1 else 10 * Pow10(k - 1)
  }

  /** The shortest decimal rendering of `n`: at least one digit and no leading zero. */
  function NatToString(n: nat): (s: string)
    ensures |s| >= 1 && AllDigits(s)
    ensures s[0] == '0' <==> n == 0
    ensures n == 0 ==> s == "0"
    decreases n
  {
    if n < 10 then [DigitChar(n)] else NatToString(n / 10) + [DigitChar(n % 10)]
  }

  /** The value of a string of digits, read most significant digit first. */
  function DigitsValue(s: string): nat
    requires AllDigits(s)
  {
    if s == [] then 0 else 10 * DigitsValue(s[..|s| - 1]) + DigitValue(s[|s| - 1])
  }

  /** A canonical rendering: at least one digit, and no leading zero unless the
      string is "0" itself. */
  predicate Canonical(s: string) {
    |s| >= 1 && AllDigits(s) && (s[0] == '0' ==> |s| == 1)
  }

  /** Reads a canonical decimal rendering; anything else, including a zero-padded
      number, is rejected. */
  function ParseNat(s: string): (r: Option<nat>)
    ensures r.Some? <==> Canonical(s)
  {
    if Canonical(s) then Some(DigitsValue(s)) else None
  }

  /** Parsing the rendering of `n` gives back `n`. */
  lemma {:induction false} ParseNatRoundTrip(n: nat)
    ensures ParseNat(NatToString(n)) == Some(n)
    decreases n
  {
    var s := NatToString(n);
    if n >= 10 {
      ParseNatRoundTrip(n / 10);
      assert s[..|s| - 1] == NatToString(n / 10);
      assert DigitValue(s[|s| - 1]) == n % 10;
      assert DigitsValue(s) == 10 * (n / 10) + n % 10;
    } else {
      assert s[..0] == [];
      assert DigitsValue(s) == DigitValue(s[0]);
    }
  }

  /** Conversely, every canonical digit string (no leading zero unless it is "0")
      is the rendering of the number it denotes. */
  lemma {:induction false} NatToStringCanonical(s: string)
    requires Canonical(s)
    ensures NatToString(DigitsValue(s)) == s
    decreases |s|
  {
    if |s| == 1 {
      assert DigitsValue(s) == DigitValue(s[0]) by {
        assert s[..0] == [];
      }
    } else {
      var init := s[..|s| - 1];
      assert init[0] == s[0];
      NatToStringCanonical(init);
      DigitsValuePositive(init);
      var n := DigitsValue(s);
      assert n / 10 == DigitsValue(init) && n % 10 == DigitValue(s[|s| - 1]);
      assert s == init + [s[|s| - 1]];
    }
  }

  /** The reader and the rendering are exact inverses: a string reads as `n`
      exactly when it is the rendering of `n`. */
  lemma ParseNatExact(s: string, n: nat)
    ensures ParseNat(s) == Some(n) <==> s == NatToString(n)
  {
    if ParseNat(s) == Some(n) {
      NatToStringCanonical(s);
    }
    if s == NatToString(n) {
      ParseNatRoundTrip(n);
    }
  }

  /** A digit string that does not start with '0' denotes a positive number. */
  lemma {:induction false} DigitsValuePositive(s: string)
    requires |s| >= 1 && AllDigits(s) && s[0] != '0'
    ensures DigitsValue(s) >= 1
    decreases |s|
  {
    if |s| > 1 {
      var init := s[..|s| - 1];
      assert init[0] == s[0];
      DigitsValuePositive(init);
    } else {
      assert s[..0] == [];
    }
  }

  /** The rendering of `n` fits in `k` characters exactly when `n < 10^k`. */
  lemma {:induction false} WidthBound(n: nat, k: nat)
    requires k >= 1
    ensures |NatToString(n)| <= k <==> n < Pow10(k)
    decreases n
  {
    if n >= 10 {
      if k == 1 {
        assert |NatToString(n)| >= 2 by {
          assert NatToString(n) == NatToString(n / 10) + [DigitChar(n % 10)];
        }
      } else {
        WidthBound(n / 10, k - 1);
      }
    }
  }
}
