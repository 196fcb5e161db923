/** Printing and reading decimal numbers, as Rust's `Display` and `parse` do. */
module Decimal {
  import opened Basics

  function DigitChar(d: int): char
    requires 0 <= d <= 9
  {
    '0' + d as char
  }

  predicate IsDigit(c: char) {
    '0' <= c <= '9'
  }

  predicate AllDigits(s: string) {
    forall c | c in s :: IsDigit(c)
  }

  /** `n` without leading zeros. */
  function Digits(n: nat): string {
    if n < 10 then [DigitChar(n)] else Digits(n / 10) + [DigitChar(n % 10)]
  }

  /** `{n:0w$}`: at least `width` characters, filled with zeros on the left. */
  function Pad(n: nat, width: nat): string {
    Zeros(width - |Digits(n)|) + Digits(n)
  }

  function Zeros(n: int): string {
    if n <= 0 then [] else Zeros(n - 1) + ['0']
  }

  /** The sign counts towards the width. */
  function PadInt(n: int, width: nat): string {
    if n < 0 then "-" + Pad(-n, if width == 0 then 0 else width - 1) else Pad(n, width)
  }

  function Value(s: string): nat
    requires AllDigits(s)
  {
    if s == [] then 0
    else
      assert s[|s| - 1] in s;
      Value(s[..|s| - 1]) * 10 + (s[|s| - 1] as int - '0' as int)
  }

  function Power10(w: nat): nat {
    if w == 0 then 1 else 10 * Power10(w - 1)
  }

  /** Exactly `w` digits. */
  function Fixed(n: nat, w: nat): (s: string)
    ensures |s| == w && AllDigits(s)
  {
    if w == 0 then [] else Fixed(n / 10, w - 1) + [DigitChar(n % 10)]
  }

  lemma DigitsText(n: nat)
    ensures Digits(n) != [] && AllDigits(Digits(n))
  {
  }

  lemma {:induction false} DigitsValue(n: nat)
    ensures AllDigits(Digits(n)) && Value(Digits(n)) == n
  {
    if n >= 10 {
      DigitsValue(n / 10);
      var s := Digits(n);
      assert s[..|s| - 1] == Digits(n / 10);
    } else {
      assert Digits(n)[..0] == [];
    }
  }

  /** Reading digit by digit: each one more multiplies by ten and adds its own value. */
  lemma ValueIs(s: string, c: char)
    requires AllDigits(s) && '0' <= c <= '9'
    ensures Value("") == 0
    ensures AllDigits(s + [c]) && Value(s + [c]) == 10 * Value(s) + (c as int - 48)
  {
    assert (s + [c])[..|s|] == s;
  }

  /** Padding to a width the number fits is exactly that many digits. */
  lemma {:induction false} PadIsFixed(n: nat, w: nat)
    requires w > 0 && n < Power10(w)
    ensures Pad(n, w) == Fixed(n, w) && |Digits(n)| <= w
  {
    if n < 10 {
      ZerosFixed(w - 1);
      if w > 1 { assert n / 10 == 0; }
      assert Fixed(0, w - 1) == Zeros(w - 1);
    } else {
      PadIsFixed(n / 10, w - 1);
    }
  }

  lemma {:induction false} ZerosFixed(w: nat)
    ensures Fixed(0, w) == Zeros(w)
  {
    if w > 0 {
      ZerosFixed(w - 1);
    }
  }

  /** A number too wide for its field prints more digits than the field has. */
  lemma {:induction false} DigitsOverflow(n: nat, w: nat)
    requires w > 0 && n >= Power10(w)
    ensures |Digits(n)| > w
  {
    if w > 1 {
      DigitsOverflow(n / 10, w - 1);
    }
  }

  lemma {:induction false} FixedValue(n: nat, w: nat)
    requires n < Power10(w)
    ensures Value(Fixed(n, w)) == n
  {
    if w > 0 {
      FixedValue(n / 10, w - 1);
      assert Fixed(n, w)[..w - 1] == Fixed(n / 10, w - 1);
    }
  }

  // ---------- string order ----------

  predicate Less(a: string, b: string) {
    if b == [] then false
    else if a == [] then true
    else a[0] < b[0] || (a[0] == b[0] && Less(a[1..], b[1..]))
  }

  lemma {:induction false} LessConcat(a: string, b: string, c: string, d: string)
    requires |a| == |c|
    ensures Less(a + b, c + d) <==> Less(a, c) || (a == c && Less(b, d))
  {
    if a == [] {
      assert a + b == b && c + d == d;
    } else {
      assert (a + b)[1..] == a[1..] + b && (c + d)[1..] == c[1..] + d;
      LessConcat(a[1..], b, c[1..], d);
      assert a == [a[0]] + a[1..] && c == [c[0]] + c[1..];
    }
  }

  lemma LessIrreflexive(a: string)
    ensures !Less(a, a)
  {
  }

  /** Fixed-width numbers sort as strings exactly as they do as numbers. */
  lemma {:induction false} FixedOrder(m: nat, n: nat, w: nat)
    requires m < Power10(w) && n < Power10(w)
    ensures Less(Fixed(m, w), Fixed(n, w)) <==> m < n
    ensures Fixed(m, w) == Fixed(n, w) <==> m == n
  {
    FixedValue(m, w);
    FixedValue(n, w);
    if w > 0 {
      FixedOrder(m / 10, n / 10, w - 1);
      LessConcat(Fixed(m / 10, w - 1), [DigitChar(m % 10)], Fixed(n / 10, w - 1), [DigitChar(n % 10)]);
    }
  }

  // ---------- signed numbers ----------

  function IntText(n: int): string {
    if n < 0 then "-" + Digits(-n) else Digits(n)
  }

  /** `str::parse::<i64>`: an optional sign, at least one digit, and a value in range. */
  function ParseI64(s: string): Option<int> {
    var digits := if s != [] && (s[0] == '-' || s[0] == '+') then s[1..] else s;
    if digits == [] || !AllDigits(digits) then None
    else
      var size: int := Value(digits);
      var n := if s[0] == '-' then -size else size;
      if InI64(n) then Some(n) else None
  }

  lemma IntRoundTrip(n: int)
    requires InI64(n)
    ensures ParseI64(IntText(n)) == Some(n)
    ensures IntText(n) != [] && forall c | c in IntText(n) :: IsDigit(c) || c == '-'
  {
    DigitsValue(if n < 0 then -n else n);
    DigitsText(if n < 0 then -n else n);
    if n < 0 {
      assert IntText(n)[1..] == Digits(-n);
    } else {
      assert IsDigit(IntText(n)[0]);
    }
  }
}
