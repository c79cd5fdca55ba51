/** Money on screen: a decimal literal cut toward zero to a fixed number of digits, without going through floating point. */
module MoneyDisplay {
  import opened Options
  import opened Digits

  const DEFAULT_DIGITS: nat := 4
  const MAX_DIGITS: nat := 20
  const MAX_EXPONENT: int := 10_000

  /** What the formatter is given: nothing, a string, or a number together with the text `String` makes of it. */
  datatype MoneyValue = Absent | Text(s: string) | Number(finite: bool, s: string)

  // ---- the literal: sign, digits, point, digits, exponent ----

  datatype Literal = Literal(negative: bool, integer: string, fraction: string, exponentNegative: bool, exponent: string)

  predicate IsSpace(c: char) {
    var n := c as int;
    (9 <= n <= 13) || n == 32 || n == 160 || n == 5760 || (8192 <= n <= 8202) || n == 8232 || n == 8233 || n == 8239 || n == 8287 ||
    n == 12288 || n == 65279
  }

  function TrimStart(s: string): string {
    if s != "" && IsSpace(s[0]) then TrimStart(s[1..]) else s
  }

  function TrimEnd(s: string): string {
    if s != "" && IsSpace(s[|s| - 1]) then TrimEnd(s[..|s| - 1]) else s
  }

  function Run(s: string): (n: nat)
    ensures n <= |s| && AllDigits(s[..n]) && (n < |s| ==> !IsDigit(s[n]))
  {
    if s == "" || !IsDigit(s[0]) then 0 else 1 + Run(s[1..])
  }

  /** An optional sign and what follows it. */
  function Sign(s: string): (bool, string) {
    if s != "" && s[0] == '-' then (true, s[1..])
    else if s != "" && s[0] == '+' then (false, s[1..])
    else (false, s)
  }

  function MatchExponent(negative: bool, integer: string, fraction: string, s: string): Option<Literal> {
    if s == "" then Some(Literal(negative, integer, fraction, false, ""))
    else if s[0] != 'e' && s[0] != 'E' then None
    else
      var (exponentNegative, digits) := Sign(s[1..]);
      if digits == "" || Run(digits) < |digits| then None
      else Some(Literal(negative, integer, fraction, exponentNegative, digits))
  }

  /** The whole string as a literal, or nothing. */
  function Match(s: string): Option<Literal> {
    var (negative, unsigned) := Sign(s);
    var n := Run(unsigned);
    var rest := unsigned[n..];
    if rest != "" && rest[0] == '.' then
      var m := Run(rest[1..]);
      MatchExponent(negative, unsigned[..n], rest[1..][..m], rest[1..][m..])
    else MatchExponent(negative, unsigned[..n], "", rest)
  }

  predicate LiteralOk(l: Literal) {
    AllDigits(l.integer) && AllDigits(l.fraction) && AllDigits(l.exponent)
  }

  lemma {:induction false} MatchOk(s: string)
    ensures Match(s).Some? ==> LiteralOk(Match(s).value)
  {
    var unsigned := Sign(s).1;
    var n := Run(unsigned);
    var rest := unsigned[n..];
    if rest != "" && rest[0] == '.' {
      ExponentOk(Sign(s).0, unsigned[..n], rest[1..][..Run(rest[1..])], rest[1..][Run(rest[1..])..]);
    } else {
      ExponentOk(Sign(s).0, unsigned[..n], "", rest);
    }
  }

  lemma {:induction false} ExponentOk(negative: bool, integer: string, fraction: string, s: string)
    requires AllDigits(integer) && AllDigits(fraction)
    ensures var r := MatchExponent(negative, integer, fraction, s); r.Some? ==> LiteralOk(r.value)
  {
    if s != "" {
      var digits := Sign(s[1..]).1;
      assert digits[..|digits|] == digits;
    }
  }

  function Exponent(l: Literal): int
    requires LiteralOk(l)
  {
    var n: int := ValueOf(l.exponent);
    if l.exponentNegative then -n else n
  }

  /** The literal a value is read as, or nothing when it is no literal, has no digit, or an exponent out of range. */
  function Read(v: MoneyValue): (r: Option<Literal>)
    ensures r.Some? ==> LiteralOk(r.value) && -MAX_EXPONENT <= Exponent(r.value) <= MAX_EXPONENT
    ensures r.Some? ==> r.value.integer != "" || r.value.fraction != ""
  {
    if v.Absent? || v.s == "" || (v.Number? && !v.finite) then None
    else
      var s := TrimEnd(TrimStart(v.s));
      MatchOk(s);
      var l := Match(s);
      if l.None? || (l.value.integer == "" && l.value.fraction == "") then None
      else if ValueOf(l.value.exponent) > MAX_EXPONENT then None
      else l
  }

  // ---- moving the point ----

  datatype Split = Split(negative: bool, integer: string, fraction: string)

  /** Leading zeros go, the last digit stays. */
  function StripZeros(s: string): string {
    if |s| > 1 && s[0] == '0' then StripZeros(s[1..]) else s
  }

  /** The digits before and after the point once the exponent is applied. */
  function SplitDecimal(l: Literal): Split
    requires LiteralOk(l)
  {
    var integer := if l.integer == "" then "0" else l.integer;
    var digits := integer + l.fraction;
    var index := |integer| + Exponent(l);
    if index <= 0 then Split(l.negative, "0", Zeros(-index) + digits)
    else if index >= |digits| then Split(l.negative, StripZeros(digits + Zeros(index - |digits|)), "")
    else Split(l.negative, StripZeros(digits[..index]), digits[index..])
  }

  predicate AllZeros(s: string) {
    forall i :: 0 <= i < |s| ==> s[i] == '0'
  }

  function ScaleOf(digits: int): (n: nat)
    ensures n <= MAX_DIGITS
  {
    if 0 <= digits <= MAX_DIGITS then digits else DEFAULT_DIGITS
  }

  function FormatMoney(v: MoneyValue, digits: int): string {
    var scale := ScaleOf(digits);
    var l := Read(v);
    var d := if l.None? then Split(false, "0", "") else SplitDecimal(l.value);
    var fraction := TakePad(d.fraction, scale);
    var isZero := AllZeros(d.integer) && AllZeros(fraction);
    (if d.negative && !isZero then "-" else "") + d.integer + (if scale > 0 then "." + fraction else "")
  }

  // ---- the reference: a number times a power of ten, cut toward zero ----

  /** `± mantissa * 10^exponent`. */
  datatype Quantity = Quantity(negative: bool, mantissa: nat, exponent: int)

  function QuantityOf(v: MoneyValue): Quantity {
    var l := Read(v);
    if l.None? then Quantity(false, 0, 0)
    else Quantity(l.value.negative, ValueOf(l.value.integer + l.value.fraction), Exponent(l.value) - |l.value.fraction|)
  }

  /** The magnitude in units of `10^-scale`, cut toward zero. */
  function Truncated(q: Quantity, scale: nat): nat {
    Shift(q.mantissa, q.exponent + scale)
  }

  /** `t` units of `10^-scale`, written out. */
  function Show(negative: bool, t: nat, scale: nat): string {
    QuotientBounds(t, Pow10(scale));
    (if negative && t > 0 then "-" else "") + Decimal(t / Pow10(scale)) +
    (if scale > 0 then "." + Fixed(t % Pow10(scale), scale) else "")
  }

  lemma {:induction false} DropZero(s: string)
    requires AllDigits(s)
    ensures AllDigits("0" + s) && ValueOf("0" + s) == ValueOf(s)
  {
    ValueConcat("0", s);
    assert "0"[..0] == "";
    assert ValueOf("0") == 0;
  }

  lemma {:induction false} StripValue(s: string)
    requires AllDigits(s) && s != ""
    ensures StripZeros(s) != "" && AllDigits(StripZeros(s)) && StripZeros(s) == Decimal(ValueOf(s))
  {
    hide Decimal, Pow10;
    if |s| > 1 && s[0] == '0' {
      StripValue(s[1..]);
      DropZero(s[1..]);
      assert s == "0" + s[1..];
    } else {
      DecimalOfValue(s);
    }
  }

  lemma {:induction false} ZerosAreZero(s: string)
    requires AllDigits(s)
    ensures AllZeros(s) <==> ValueOf(s) == 0
  {
    if s != "" {
      ZerosAreZero(s[..|s| - 1]);
      assert s == s[..|s| - 1] + [s[|s| - 1]];
    }
  }

  /** The digits the formatter keeps: the stream of all digits, cut or padded at the scale. */
  lemma {:induction false} KeptDigits(integer: string, fraction: string, scale: nat)
    requires AllDigits(integer) && AllDigits(fraction)
    ensures var kept := integer + TakePad(fraction, scale);
            AllDigits(kept) && ValueOf(kept) == Shift(ValueOf(integer + fraction), scale - |fraction|)
  {
    var all := integer + fraction;
    TakePadConcat(integer, fraction, scale);
    ValueTakePad(all, |integer| + scale);
    hide TakePad, Shift, ValueOf;
  }

  lemma {:induction false} TakePadConcat(a: string, b: string, n: nat)
    ensures a + TakePad(b, n) == TakePad(a + b, |a| + n)
  {
    if n <= |b| {
      assert (a + b)[..|a| + n] == a + b[..n];
    }
  }

  /** The digits around the point still stand for `v` times a power of ten. */
  predicate SplitOk(d: Split, v: nat, exponent: int, scale: nat) {
    && AllDigits(d.integer) && d.integer != "" && AllDigits(d.fraction)
    && d.integer == Decimal(ValueOf(d.integer))
    && ValueOf(d.integer + TakePad(d.fraction, scale)) == Shift(v, exponent + scale)
  }

  /** The point before all digits. */
  lemma {:induction false} SplitBefore(negative: bool, digits: string, zeros: nat, scale: nat)
    requires AllDigits(digits)
    ensures SplitOk(Split(negative, "0", Zeros(zeros) + digits), ValueOf(digits), -(zeros as int) - |digits|, scale)
  {
    hide Shift, Decimal, TakePad, ValueOf;
    var fraction := Zeros(zeros) + digits;
    PaddedValue(zeros, digits);
    KeptDigits("0", fraction, scale);
    ValueDecimal(0);
    DecimalStarts(0);
  }

  /** The point after all digits. */
  lemma {:induction false} SplitAfter(negative: bool, digits: string, zeros: nat, scale: nat)
    requires AllDigits(digits) && digits != ""
    ensures SplitOk(Split(negative, StripZeros(digits + Zeros(zeros)), ""), ValueOf(digits), zeros, scale)
  {
    hide Shift, Decimal, TakePad, ValueOf, StripZeros;
    var whole := digits + Zeros(zeros);
    ValueConcat(digits, Zeros(zeros));
    ValueZeros(zeros);
    StripValue(whole);
    ValueDecimal(ValueOf(whole));
    KeptDigits(StripZeros(whole), "", scale);
    assert StripZeros(whole) + "" == StripZeros(whole);
    ShiftTwice(ValueOf(digits), zeros, scale);
  }

  /** The point inside the digits. */
  lemma {:induction false} SplitInside(negative: bool, digits: string, index: nat, scale: nat)
    requires AllDigits(digits) && 0 < index < |digits|
    ensures SplitOk(Split(negative, StripZeros(digits[..index]), digits[index..]), ValueOf(digits), index - |digits|, scale)
  {
    hide Shift, Decimal, TakePad, ValueOf, StripZeros;
    StripValue(digits[..index]);
    ValueDecimal(ValueOf(digits[..index]));
    KeptDigits(StripZeros(digits[..index]), digits[index..], scale);
    ValueConcat(digits[..index], digits[index..]);
    ValueConcat(StripZeros(digits[..index]), digits[index..]);
    assert digits == digits[..index] + digits[index..];
  }

  /** Moving the point moves the value by a power of ten. */
  lemma {:induction false} SplitValue(l: Literal, scale: nat)
    requires LiteralOk(l) && (l.integer != "" || l.fraction != "")
    ensures SplitOk(SplitDecimal(l), ValueOf(l.integer + l.fraction), Exponent(l) - |l.fraction|, scale)
  {
    hide SplitOk, StripZeros, ValueOf, Exponent;
    var integer := if l.integer == "" then "0" else l.integer;
    var digits := integer + l.fraction;
    var index := |integer| + Exponent(l);
    SameDigits(l);
    if index <= 0 {
      SplitBefore(l.negative, digits, -index, scale);
    } else if index >= |digits| {
      SplitAfter(l.negative, digits, index - |digits|, scale);
    } else {
      SplitInside(l.negative, digits, index, scale);
    }
  }

  /** A missing integer part reads as zero. */
  lemma {:induction false} SameDigits(l: Literal)
    requires LiteralOk(l) && (l.integer != "" || l.fraction != "")
    ensures var integer := if l.integer == "" then "0" else l.integer;
            AllDigits(integer + l.fraction) && ValueOf(integer + l.fraction) == ValueOf(l.integer + l.fraction)
  {
    if l.integer == "" {
      DropZero(l.fraction);
      assert "" + l.fraction == l.fraction;
    }
  }

  lemma {:induction false} PaddedValue(n: nat, digits: string)
    requires AllDigits(digits)
    ensures AllDigits("0" + (Zeros(n) + digits)) && ValueOf("0" + (Zeros(n) + digits)) == ValueOf(digits)
  {
    ValueConcat(Zeros(n), digits);
    ValueZeros(n);
    DropZero(Zeros(n) + digits);
  }

  lemma {:induction false} PositiveIff(a: nat, b: nat, p: nat)
    requires p >= 1
    ensures a * p + b == 0 <==> a == 0 && b == 0
  {
    assert a >= 1 ==> a * p >= p;
  }

  lemma {:induction false} ShownParts(integer: string, fraction: string, t: nat, negative: bool)
    requires AllDigits(integer) && integer != "" && AllDigits(fraction)
    requires integer == Decimal(ValueOf(integer)) && t == ValueOf(integer + fraction)
    ensures (if negative && !(AllZeros(integer) && AllZeros(fraction)) then "-" else "") + integer +
            (if |fraction| > 0 then "." + fraction else "") == Show(negative, t, |fraction|)
  {
    hide Decimal, Fixed, ValueOf, AllZeros, Pow10;
    ValueConcat(integer, fraction);
    ValueBound(fraction);
    DivideUnique(t, Pow10(|fraction|), ValueOf(integer), ValueOf(fraction));
    FixedOfValue(fraction);
    ZerosAreZero(integer);
    ZerosAreZero(fraction);
    PositiveIff(ValueOf(integer), ValueOf(fraction), Pow10(|fraction|));
  }

  /** `formatMoney` prints the value cut toward zero, never as negative zero and without leading zeros. */
  lemma {:induction false} FormatIsTruncation(v: MoneyValue, digits: int)
    ensures var q, scale := QuantityOf(v), ScaleOf(digits);
            FormatMoney(v, digits) == Show(q.negative, Truncated(q, scale), scale)
  {
    hide Show, TakePad, SplitDecimal, Shift, ValueOf, AllZeros, Decimal, Read;
    var scale, l := ScaleOf(digits), Read(v);
    if l.None? {
      ValueDecimal(0);
      DecimalStarts(0);
      KeptDigits("0", "", scale);
      assert "0" + "" == "0";
      ShownParts("0", TakePad("", scale), ValueOf("0" + TakePad("", scale)), false);
    } else {
      SplitValue(l.value, scale);
      var d := SplitDecimal(l.value);
      SplitSign(l.value);
      ShownParts(d.integer, TakePad(d.fraction, scale), ValueOf(d.integer + TakePad(d.fraction, scale)), d.negative);
    }
  }

  lemma {:induction false} SplitSign(l: Literal)
    requires LiteralOk(l)
    ensures SplitDecimal(l).negative == l.negative
  {
  }

  // ---- printing again changes nothing ----

  lemma {:induction false} RunOf(digits: string, rest: string)
    requires AllDigits(digits) && (rest == "" || !IsDigit(rest[0]))
    ensures Run(digits + rest) == |digits|
    ensures (digits + rest)[..|digits|] == digits && (digits + rest)[|digits|..] == rest
  {
    if digits == "" {
      assert digits + rest == rest;
    } else {
      assert (digits + rest)[1..] == digits[1..] + rest;
      RunOf(digits[1..], rest);
    }
  }

  /** The point and the digits after it, if there are any. */
  function Tail(fraction: string): string {
    if |fraction| > 0 then "." + fraction else ""
  }

  lemma {:induction false} SignShown(negative: bool, integer: string, tail: string)
    requires AllDigits(integer) && integer != ""
    ensures Sign((if negative then "-" else "") + integer + tail) == (negative, integer + tail)
  {
    var s := (if negative then "-" else "") + integer + tail;
    if negative {
      assert s[1..] == integer + tail;
    } else {
      assert s == integer + tail && s[0] == integer[0];
    }
  }

  lemma {:induction false} TailShown(negative: bool, integer: string, fraction: string)
    requires AllDigits(fraction)
    ensures var tail := Tail(fraction);
            (tail == "" || !IsDigit(tail[0])) &&
            (if tail != "" && tail[0] == '.'
             then MatchExponent(negative, integer, tail[1..][..Run(tail[1..])], tail[1..][Run(tail[1..])..])
             else MatchExponent(negative, integer, "", tail)) == Some(Literal(negative, integer, fraction, false, ""))
  {
    if |fraction| > 0 {
      var tail := Tail(fraction);
      assert tail[1..] == fraction;
      RunOf(fraction, "");
      assert fraction + "" == fraction;
    }
  }

  lemma {:induction false} Untrimmed(s: string)
    requires s != "" && !IsSpace(s[0]) && !IsSpace(s[|s| - 1])
    ensures TrimEnd(TrimStart(s)) == s
  {
  }

  lemma {:induction false} ShownEnds(negative: bool, integer: string, fraction: string)
    requires AllDigits(integer) && integer != "" && AllDigits(fraction)
    ensures var s := (if negative then "-" else "") + integer + Tail(fraction);
            s != "" && !IsSpace(s[0]) && !IsSpace(s[|s| - 1])
  {
    var s := (if negative then "-" else "") + integer + Tail(fraction);
    assert s[0] == if negative then '-' else integer[0];
    assert s[|s| - 1] == if |fraction| > 0 then fraction[|fraction| - 1] else integer[|integer| - 1];
  }

  /** What the formatter prints is read back as the literal it looks like. */
  lemma {:induction false} MatchShown(negative: bool, integer: string, fraction: string)
    requires AllDigits(integer) && integer != "" && AllDigits(fraction)
    ensures var s := (if negative then "-" else "") + integer + Tail(fraction);
            && Match(s) == Some(Literal(negative, integer, fraction, false, ""))
            && TrimEnd(TrimStart(s)) == s && s != ""
  {
    hide Tail, Sign, IsSpace, TrimEnd, TrimStart, Run, MatchExponent;
    var s := (if negative then "-" else "") + integer + Tail(fraction);
    SignShown(negative, integer, Tail(fraction));
    TailShown(negative, integer, fraction);
    RunOf(integer, Tail(fraction));
    ShownEnds(negative, integer, fraction);
    Untrimmed(s);
  }

  /** Formatting a formatted amount to the same number of digits changes nothing. */
  lemma {:induction false} FormatIsIdempotent(v: MoneyValue, digits: int)
    ensures FormatMoney(Text(FormatMoney(v, digits)), digits) == FormatMoney(v, digits)
  {
    var q, scale := QuantityOf(v), ScaleOf(digits);
    FormatIsTruncation(v, digits);
    FormatIsTruncation(Text(FormatMoney(v, digits)), digits);
    hide QuantityOf, FormatMoney;
    ShownAgain(q.negative, Truncated(q, scale), scale);
  }

  lemma {:induction false} ShownAgain(negative: bool, t: nat, scale: nat)
    ensures var q := QuantityOf(Text(Show(negative, t, scale)));
            Show(q.negative, Truncated(q, scale), scale) == Show(negative, t, scale)
  {
    hide Decimal, Fixed, ValueOf, Match, TrimEnd, TrimStart, Pow10;
    var p := Pow10(scale);
    QuotientBounds(t, p);
    var integer, fraction := Decimal(t / p), Fixed(t % p, scale);
    MatchShown(negative && t > 0, integer, fraction);
    ValueConcat(integer, fraction);
    ValueDecimal(t / p);
    ValueFixed(t % p, scale);
    assert t == (t / p) * p + t % p;
    assert Show(negative, t, scale) == (if negative && t > 0 then "-" else "") + integer + Tail(fraction);
    ValueNothing();
    ShiftNothing(t);
  }

  lemma {:induction false} ValueNothing()
    ensures ValueOf("") == 0
  {
  }

  lemma {:induction false} ShiftNothing(t: nat)
    ensures Shift(t, 0) == t
  {
  }
}
