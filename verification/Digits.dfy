/** Decimal digit strings and the numbers they stand for. */
module Digits {

  function Pow10(n: nat): (r: nat)
    ensures r >= 1
  {
    if n == 0 then 1 else 10 * Pow10(n - 1)
  }

  predicate IsDigit(c: char) {
    '0' <= c <= '9'
  }

  predicate AllDigits(s: string) {
    forall i :: 0 <= i < |s| ==> IsDigit(s[i])
  }

  function DigitValue(c: char): nat
    requires IsDigit(c)
  {
    c as int - '0' as int
  }

  function DigitOf(n: nat): (c: char)
    requires n < 10
    ensures IsDigit(c) && DigitValue(c) == n
  {
    (n + '0' as int) as char
  }

  function ValueOf(s: string): nat
    requires AllDigits(s)
  {
    if s == "" then 0 else 10 * ValueOf(s[..|s| - 1]) + DigitValue(s[|s| - 1])
  }

  /** The digits of a number without leading zeros. */
  function Decimal(n: nat): (s: string)
    ensures AllDigits(s) && s != ""
  {
    if n < 10 then [DigitOf(n)] else Decimal(n / 10) + [DigitOf(n % 10)]
  }

  /** The last `width` digits of a number, zeros included. */
  function Fixed(n: nat, width: nat): (s: string)
    ensures AllDigits(s) && |s| == width
  {
    if width == 0 then "" else Fixed(n / 10, width - 1) + [DigitOf(n % 10)]
  }

  function Zeros(n: nat): (s: string)
    ensures |s| == n && AllDigits(s)
  {
    if n == 0 then "" else Zeros(n - 1) + "0"
  }

  // ---- arithmetic ----

  lemma {:induction false} Pow10Add(a: nat, b: nat)
    ensures Pow10(a + b) == Pow10(a) * Pow10(b)
  {
    if b > 0 {
      Pow10Add(a, b - 1);
      assert Pow10(a + b) == 10 * Pow10(a + (b - 1)) && Pow10(b) == 10 * Pow10(b - 1);
      Tenfold(Pow10(a), Pow10(b - 1));
      hide Pow10;
    }
  }

  /** Division with remainder is unique. */
  lemma {:induction false} DivideUnique(n: int, d: int, q: int, r: int)
    requires d > 0 && n == q * d + r && 0 <= r < d
    ensures n / d == q && n % d == r
  {
    var e := n / d - q;
    assert n == (n / d) * d + n % d;
    assert e * d == r - n % d;
    assert e >= 1 ==> e * d >= d;
    assert e <= -1 ==> e * d <= -d;
  }

  // ---- digit strings and values ----

  lemma {:induction false} ValueBound(s: string)
    requires AllDigits(s)
    ensures ValueOf(s) < Pow10(|s|)
  {
    if s != "" {
      ValueBound(s[..|s| - 1]);
    }
  }

  lemma {:induction false} ValuePush(s: string, c: char)
    requires AllDigits(s) && IsDigit(c)
    ensures AllDigits(s + [c]) && ValueOf(s + [c]) == 10 * ValueOf(s) + DigitValue(c)
  {
    assert (s + [c])[..|s|] == s;
  }

  lemma {:induction false} ValueConcat(a: string, b: string)
    requires AllDigits(a) && AllDigits(b)
    ensures AllDigits(a + b) && ValueOf(a + b) == ValueOf(a) * Pow10(|b|) + ValueOf(b)
  {
    if b == "" {
      assert a + b == a;
    } else {
      var c, d := b[..|b| - 1], b[|b| - 1];
      ValueConcat(a, c);
      ValuePush(a + c, d);
      assert a + b == a + c + [d];
      assert Pow10(|b|) == 10 * Pow10(|c|) && ValueOf(b) == 10 * ValueOf(c) + DigitValue(d);
      Tenfold(ValueOf(a), Pow10(|c|));
      hide Pow10, AllDigits, ValueOf;
    }
  }

  lemma {:induction false} Tenfold(x: int, p: int)
    ensures x * (10 * p) == 10 * (x * p)
  {
  }

  lemma {:induction false} ValueZeros(n: nat)
    ensures ValueOf(Zeros(n)) == 0
  {
    if n > 0 {
      ValueZeros(n - 1);
      assert Zeros(n)[..n - 1] == Zeros(n - 1);
    }
  }

  lemma {:induction false} ValueDecimal(n: nat)
    ensures ValueOf(Decimal(n)) == n
  {
    var s := Decimal(n);
    if n < 10 {
      assert s[..0] == "";
    } else {
      ValueDecimal(n / 10);
      assert s[..|s| - 1] == Decimal(n / 10);
    }
  }

  /** A number without leading zeros: zero is one digit. */
  lemma {:induction false} DecimalStarts(n: nat)
    ensures n > 0 ==> Decimal(n)[0] != '0'
    ensures n == 0 ==> Decimal(n) == "0"
  {
    if n >= 10 {
      DecimalStarts(n / 10);
    }
  }

  /** A digit string without a superfluous leading zero is the decimal of its value. */
  lemma {:induction false} DecimalOfValue(s: string)
    requires AllDigits(s) && s != "" && (|s| > 1 ==> s[0] != '0')
    ensures Decimal(ValueOf(s)) == s
  {
    var init, last := s[..|s| - 1], s[|s| - 1];
    if |s| == 1 {
      assert s == [last];
    } else {
      DecimalOfValue(init);
      LeadingDigit(init);
      assert ValueOf(s) >= 10 && ValueOf(s) / 10 == ValueOf(init) && ValueOf(s) % 10 == DigitValue(last);
      assert s == init + [last];
    }
  }

  lemma {:induction false} LeadingDigit(s: string)
    requires AllDigits(s) && s != "" && s[0] != '0'
    ensures ValueOf(s) > 0
  {
    if |s| > 1 {
      LeadingDigit(s[..|s| - 1]);
    }
  }

  lemma {:induction false} FixedOfValue(s: string)
    requires AllDigits(s)
    ensures Fixed(ValueOf(s), |s|) == s
  {
    if s != "" {
      var init, last := s[..|s| - 1], s[|s| - 1];
      FixedOfValue(init);
      assert ValueOf(s) / 10 == ValueOf(init) && ValueOf(s) % 10 == DigitValue(last);
      assert s == init + [last];
    }
  }

  lemma {:induction false} ValueFixed(n: nat, width: nat)
    requires n < Pow10(width)
    ensures ValueOf(Fixed(n, width)) == n
  {
    if width > 0 {
      assert n / 10 < Pow10(width - 1);
      ValueFixed(n / 10, width - 1);
      ValuePush(Fixed(n / 10, width - 1), DigitOf(n % 10));
      hide Pow10, AllDigits, ValueOf;
    }
  }

  // ---- taking digits from the front, as many as wanted ----

  /** The first `n` digits, padded with zeros when there are fewer. */
  function TakePad(s: string, n: nat): (r: string)
    ensures |r| == n
    ensures AllDigits(s) ==> AllDigits(r)
  {
    if n <= |s| then s[..n] else s + Zeros(n - |s|)
  }

  lemma {:induction false} QuotientBounds(v: nat, d: int)
    requires d >= 1
    ensures 0 <= v / d <= v
  {
  }

  /** `v * 10^k`, cut toward zero. */
  function Shift(v: nat, k: int): nat {
    if k >= 0 then v * Pow10(k)
    else
      QuotientBounds(v, Pow10(-k));
      v / Pow10(-k)
  }

  /** Cutting or padding a digit string multiplies its value by a power of ten, cut toward zero. */
  lemma {:induction false} ValueTakePad(s: string, n: nat)
    requires AllDigits(s)
    ensures ValueOf(TakePad(s, n)) == Shift(ValueOf(s), n - |s|)
  {
    if n <= |s| {
      var a, b := s[..n], s[n..];
      assert s == a + b;
      ValueConcat(a, b);
      ValueBound(b);
      DivideUnique(ValueOf(s), Pow10(|b|), ValueOf(a), ValueOf(b));
      if n == |s| {
        assert Pow10(0) == 1;
      }
    } else {
      ValueConcat(s, Zeros(n - |s|));
      ValueZeros(n - |s|);
    }
  }

  lemma {:induction false} ShiftTwice(v: nat, a: nat, k: int)
    requires k >= 0
    ensures Shift(v * Pow10(a), k) == Shift(v, a + k)
  {
    Pow10Add(a, k);
    assert v * Pow10(a) * Pow10(k) == v * (Pow10(a) * Pow10(k));
  }
}
