/** Base32 of section 6 of RFC 4648, unpadded, as two loops over a shift register of 32 bits. */
module Base32 {
  import opened Options
  import opened Digits

  type Byte = x: int | 0 <= x < 256

  const WORD: int := 0x1_0000_0000

  // ---- the alphabet: A-Z, 2-7 ----

  function Symbol(n: int): (c: char)
    requires 0 <= n < 32
    ensures Index(c) == Some(n)
  {
    if n < 26 then (n + 'A' as int) as char else (n - 26 + '2' as int) as char
  }

  function Index(c: char): (r: Option<int>)
    ensures r.Some? ==> 0 <= r.value < 32
  {
    if 'A' <= c <= 'Z' then Some(c as int - 'A' as int)
    else if '2' <= c <= '7' then Some(c as int - '2' as int + 26)
    else None
  }

  predicate AllSymbols(s: string) {
    forall i :: 0 <= i < |s| ==> Index(s[i]).Some?
  }

  // ---- what bytes and symbols stand for ----

  function Pow2(n: nat): (r: int)
    ensures r >= 1
  {
    if n == 0 then 1 else 2 * Pow2(n - 1)
  }

  /** Bytes as one big-endian number. */
  function NumberOf(b: seq<Byte>): nat {
    if b == [] then 0 else 256 * NumberOf(b[..|b| - 1]) + b[|b| - 1]
  }

  function BytesOf(n: nat, count: nat): (b: seq<Byte>)
    ensures |b| == count
  {
    if count == 0 then [] else BytesOf(n / 256, count - 1) + [n % 256]
  }

  /** Symbols as one big-endian number. */
  function ValueOf(s: string): nat
    requires AllSymbols(s)
  {
    if s == "" then 0 else 32 * ValueOf(s[..|s| - 1]) + Index(s[|s| - 1]).value
  }

  function SymbolsOf(n: nat, count: nat): (s: string)
    ensures |s| == count && AllSymbols(s)
  {
    if count == 0 then "" else SymbolsOf(n / 32, count - 1) + [Symbol(n % 32)]
  }

  /** How many symbols `n` bytes take: the bits in groups of five, rounded up. */
  function EncodedLength(n: nat): nat {
    (8 * n + 4) / 5
  }

  /** The bits of the bytes, zero bits appended up to a multiple of five, five bits a symbol. */
  function Encoded(b: seq<Byte>): string {
    var m := EncodedLength(|b|);
    Padded(NumberOf(b), 5 * m - 8 * |b|);
    SymbolsOf(NumberOf(b) * Pow2(5 * m - 8 * |b|), m)
  }

  lemma {:induction false} Padded(n: nat, k: nat)
    ensures n * Pow2(k) >= 0
  {
  }

  // ---- reading text ----

  datatype Decoded = Bytes(bytes: seq<Byte>) | BadCharacter(c: char)

  function StripPadding(s: string): string {
    if s != "" && s[|s| - 1] == '=' then StripPadding(s[..|s| - 1]) else s
  }

  /** What upper-casing makes of one character of the text; outside ASCII that is whatever Unicode says, a character of
      the alphabet included. */
  type Casing = char -> string

  function UpperAscii(c: char): char {
    if 'a' <= c <= 'z' then (c as int - 32) as char else c
  }

  predicate AsciiCasing(upper: Casing) {
    forall c: char :: c as int < 128 ==> upper(c) == [UpperAscii(c)]
  }

  function Uppered(upper: Casing, s: string): string {
    if s == "" then "" else Uppered(upper, s[..|s| - 1]) + upper(s[|s| - 1])
  }

  function FirstBad(s: string): Option<char> {
    if s == "" then None
    else if FirstBad(s[..|s| - 1]).Some? then FirstBad(s[..|s| - 1])
    else if Index(s[|s| - 1]).None? then Some(s[|s| - 1])
    else None
  }

  lemma {:induction false} NoneBad(s: string)
    ensures FirstBad(s).None? <==> AllSymbols(s)
  {
    if s != "" {
      NoneBad(s[..|s| - 1]);
    }
  }

  /** Whole bytes of the bit string of the symbols; the bits left over are dropped. */
  function DecodedBytes(s: string): seq<Byte>
    requires AllSymbols(s)
  {
    Halved(ValueOf(s), Pow2(5 * |s| % 8));
    BytesOf(ValueOf(s) / Pow2(5 * |s| % 8), 5 * |s| / 8)
  }

  lemma {:induction false} Halved(n: nat, d: int)
    requires d >= 1
    ensures n / d >= 0
  {
  }

  function DecodeText(upper: Casing, input: string): Decoded {
    var clean := Uppered(upper, StripPadding(input));
    NoneBad(clean);
    if FirstBad(clean).Some? then BadCharacter(FirstBad(clean).value) else Bytes(DecodedBytes(clean))
  }

  // ---- the shift register ----

  /** Small powers of two, as the loops meet them. */
  lemma {:induction false} SmallPowers()
    ensures Pow2(0) == 1 && Pow2(1) == 2 && Pow2(2) == 4 && Pow2(3) == 8 && Pow2(4) == 16 && Pow2(5) == 32
    ensures Pow2(6) == 64 && Pow2(7) == 128 && Pow2(8) == 256 && Pow2(9) == 512 && Pow2(10) == 1024 && Pow2(11) == 2048 && Pow2(12) == 4096
  {
  }

  /** Wrapping at a multiple of `step * p` leaves what is below `step * p` alone. */
  lemma {:induction false} ShiftWrapped(value: int, b: int, step: int, p: int, c: int)
    requires p >= 1 && 0 <= b < step && step * p * c == WORD
    ensures ((value * step + b) % WORD) % (step * p) == (value % p) * step + b
  {
    var q, r := value / p, value % p;
    var x := value * step + b;
    var k, y := x / WORD, x % WORD;
    assert x == q * (step * p) + (r * step + b) by {
      assert value == q * p + r;
      assert (q * p + r) * step == q * (step * p) + r * step;
    }
    assert x == k * WORD + y;
    assert k * WORD == (k * c) * (step * p) by {
      assert k * (step * p * c) == (k * c) * (step * p);
    }
    assert y == (q - k * c) * (step * p) + (r * step + b);
    GroupBelow(r, p, b, step);
    DivideUnique(y, step * p, q - k * c, r * step + b);
  }

  /** The low bits of a word are the low bits of what was shifted into it, although the high bits wrapped away. */
  lemma {:induction false} ShiftIn(value: int, b: int, step: int, bits: nat)
    requires (step == 256 && bits <= 4) || (step == 32 && bits <= 7)
    requires 0 <= b < step
    ensures ((value * step + b) % WORD) % (step * Pow2(bits)) == (value % Pow2(bits)) * step + b
  {
    SmallPowers();
    var c := if step == 256 then Pow2(12 - bits) * 4096 else Pow2(12 - bits) * 32768;
    assert Pow2(bits) * Pow2(12 - bits) == 4096 by {
      Pow2Add(bits, 12 - bits);
    }
    assert step * Pow2(bits) * c == WORD by {
      assert step * Pow2(bits) * c == step * (Pow2(bits) * Pow2(12 - bits)) * (if step == 256 then 4096 else 32768);
    }
    ShiftWrapped(value, b, step, Pow2(bits), c);
  }

  /** Taking the top group of the pending bits out of the word. */
  lemma {:induction false} TakeOut(value: int, step: int, p: int)
    requires step >= 1 && p >= 1
    ensures value % (step * p) == ((value / p) % step) * p + value % p
  {
    var q, r := value / p, value % p;
    var t, d := q / step, q % step;
    assert value == q * p + r && q == t * step + d;
    Regroup(t, step, d, p);
    GroupBelow(d, step, r, p);
    hide *;
    DivideUnique(value, step * p, t, d * p + r);
  }

  lemma {:induction false} GroupBelow(d: int, step: int, r: int, p: int)
    requires 0 <= d < step && 0 <= r < p
    ensures 0 <= d * p + r < step * p
  {
    assert step * p == (step - 1) * p + p && d * p <= (step - 1) * p;
  }

  lemma {:induction false} ValueAppend(s: string, n: int)
    requires AllSymbols(s) && 0 <= n < 32
    ensures AllSymbols(s + [Symbol(n)]) && ValueOf(s + [Symbol(n)]) == 32 * ValueOf(s) + n
  {
    assert (s + [Symbol(n)])[..|s|] == s;
  }

  lemma {:induction false} NumberAppend(b: seq<Byte>, x: Byte)
    ensures NumberOf(b + [x]) == 256 * NumberOf(b) + x
  {
    assert (b + [x])[..|b|] == b;
  }

  lemma {:induction false} SymbolsOfValue(s: string)
    requires AllSymbols(s)
    ensures SymbolsOf(ValueOf(s), |s|) == s
  {
    if s != "" {
      var init, last := s[..|s| - 1], Index(s[|s| - 1]).value;
      SymbolsOfValue(init);
      assert ValueOf(s) / 32 == ValueOf(init) && ValueOf(s) % 32 == last;
      assert Symbol(last) == s[|s| - 1];
      assert s == init + [s[|s| - 1]];
    }
  }

  lemma {:induction false} BytesOfNumber(b: seq<Byte>)
    ensures BytesOf(NumberOf(b), |b|) == b
  {
    if b != [] {
      BytesOfNumber(b[..|b| - 1]);
      assert NumberOf(b) / 256 == NumberOf(b[..|b| - 1]) && NumberOf(b) % 256 == b[|b| - 1];
      assert b == b[..|b| - 1] + [b[|b| - 1]];
    }
  }

  lemma {:induction false} ValueOfSymbols(n: nat, count: nat)
    requires n < Pow2(5 * count)
    ensures ValueOf(SymbolsOf(n, count)) == n
  {
    if count > 0 {
      assert Pow2(5 * count) == 32 * Pow2(5 * (count - 1)) by {
        assert Pow2(5 * count) == 2 * Pow2(5 * count - 1) == 4 * Pow2(5 * count - 2) == 8 * Pow2(5 * count - 3) == 16 * Pow2(5 * count - 4);
      }
      ValueOfSymbols(n / 32, count - 1);
      ValueAppend(SymbolsOf(n / 32, count - 1), n % 32);
    }
  }

  lemma {:induction false} NumberBound(b: seq<Byte>)
    ensures NumberOf(b) < Pow2(8 * |b|)
  {
    if b != [] {
      NumberBound(b[..|b| - 1]);
      var k := 8 * |b|;
      assert Pow2(k) == 2 * Pow2(k - 1) == 4 * Pow2(k - 2) == 8 * Pow2(k - 3) == 16 * Pow2(k - 4);
      assert Pow2(k - 4) == 2 * Pow2(k - 5) == 4 * Pow2(k - 6) == 8 * Pow2(k - 7) == 16 * Pow2(k - 8);
    }
  }

  lemma {:induction false} Pow2Add(a: nat, b: nat)
    ensures Pow2(a + b) == Pow2(a) * Pow2(b)
  {
    if b > 0 {
      Pow2Add(a, b - 1);
      assert Pow2(a + b) == 2 * Pow2(a + (b - 1)) == 2 * (Pow2(a) * Pow2(b - 1));
    }
  }

  // ---- the two loops ----

  /** What the encoder has written, followed by the bits still in the register, is the number read so far. */
  predicate Held(n: int, written: int, value: int, bits: nat) {
    n == written * Pow2(bits) + value % Pow2(bits)
  }

  lemma {:induction false} HoldMore(n: int, written: int, value: int, bits: nat, step: int, shift: nat, b: int)
    requires Held(n, written, value, bits) && 0 <= b < step
    requires (step == 256 && shift == 8 && bits <= 4) || (step == 32 && shift == 5 && bits <= 7)
    ensures Held(n * step + b, written, (value * step + b) % WORD, bits + shift)
  {
    ShiftIn(value, b, step, bits);
    Pow2Add(bits, shift);
    SmallPowers();
    var p := Pow2(bits);
    assert Pow2(bits + shift) == step * p;
    hide Pow2;
    Regroup(written, p, value % p, step);
    assert p * step == step * p;
  }

  lemma {:induction false} HoldLess(n: int, written: int, value: int, bits: nat, step: int, shift: nat)
    requires Held(n, written, value, bits) && bits >= shift
    requires (step == 256 && shift == 8) || (step == 32 && shift == 5)
    ensures Held(n, written * step + (value / Pow2(bits - shift)) % step, value, bits - shift)
  {
    Pow2Add(bits - shift, shift);
    SmallPowers();
    var p := Pow2(bits - shift);
    assert Pow2(bits) == step * p;
    hide Pow2;
    TakeOut(value, step, p);
    Regroup(written, step, (value / p) % step, p);
  }

  lemma {:induction false} Regroup(w: int, step: int, d: int, p: int)
    ensures (w * step + d) * p == w * (step * p) + d * p
  {
  }

  lemma {:induction false} TopOfRest(value: int, p: int, k: int)
    requires p >= 1 && k >= 1 && p * k == 32
    ensures (value * k) % 32 == (value % p) * k
  {
    var q, r := value / p, value % p;
    assert value == q * p + r;
    Regroup(q, p, r, k);
    assert value * k == q * 32 + r * k;
    TimesLast(r, p, k);
    DivideUnique(value * k, 32, q, r * k);
  }

  lemma {:induction false} TimesLast(r: int, p: int, k: int)
    requires 0 <= r < p && k >= 1
    ensures 0 <= r * k < p * k
  {
  }

  /** The last symbol carries the remaining bits, moved to its top. */
  lemma {:induction false} HoldRest(n: int, written: int, value: int, bits: nat)
    requires Held(n, written, value, bits) && 0 < bits < 5
    ensures n * Pow2(5 - bits) == written * 32 + ((value * Pow2(5 - bits)) % WORD) % 32
  {
    var p, k := Pow2(bits), Pow2(5 - bits);
    Pow2Add(bits, 5 - bits);
    SmallPowers();
    hide Pow2;
    TopOfRest(value, p, k);
    WrapKeeps32(value * k);
    assert (written * p + value % p) * k == written * (p * k) + (value % p) * k;
  }

  lemma {:induction false} HoldAll(n: int, written: int, value: int, bits: nat)
    requires Held(n, written, value, bits)
    ensures n / Pow2(bits) == written
    ensures bits == 0 ==> n == written
  {
    var r := value % Pow2(bits);
    DivideUnique(n, Pow2(bits), written, r);
  }

  lemma {:induction false} HoldNothing()
    ensures Held(0, 0, 0, 0) && NumberOf([]) == 0 && ValueOf("") == 0
  {
    EmptyValues();
    PowZero();
    hide Pow2, ValueOf, NumberOf;
    assert 0 % Pow2(0) == 0;
  }

  lemma {:induction false} EmptyValues()
    ensures NumberOf([]) == 0 && ValueOf("") == 0
  {
  }

  lemma {:induction false} WrapKeeps32(x: int)
    ensures (x % WORD) % 32 == x % 32
  {
  }

  /** Writes symbols while a whole group of five bits is pending. */
  method WriteGroups(n: int, was: string, value: int, pending: nat) returns (output: string, bits: nat)
    requires AllSymbols(was) && Held(n, ValueOf(was), value, pending)
    ensures AllSymbols(output) && Held(n, ValueOf(output), value, bits)
    ensures bits < 5 && 5 * |output| + bits == 5 * |was| + pending
  {
    hide Held, ValueOf, Pow2, Symbol;
    output, bits := was, pending;
    while bits >= 5
      invariant AllSymbols(output) && Held(n, ValueOf(output), value, bits)
      invariant 5 * |output| + bits == 5 * |was| + pending
    {
      HoldLess(n, ValueOf(output), value, bits, 32, 5);
      var d := (value / Pow2(bits - 5)) % 32;
      ValueAppend(output, d);
      output := output + [Symbol(d)];
      bits := bits - 5;
    }
  }

  method Encode(buf: seq<Byte>) returns (output: string)
    ensures output == Encoded(buf)
  {
    hide Held, ValueOf, Pow2, Symbol, NumberOf, SymbolsOf;
    var bits: nat, value, i := 0, 0, 0;
    output := "";
    HoldNothing();
    assert buf[..0] == [];
    while i < |buf|
      invariant i <= |buf| && bits < 5 && AllSymbols(output)
      invariant 5 * |output| + bits == 8 * i
      invariant Held(NumberOf(buf[..i]), ValueOf(output), value, bits)
    {
      assert buf[..i + 1] == buf[..i] + [buf[i]];
      NumberAppend(buf[..i], buf[i]);
      HoldMore(NumberOf(buf[..i]), ValueOf(output), value, bits, 256, 8, buf[i]);
      value := (value * 256 + buf[i]) % WORD;
      output, bits := WriteGroups(NumberOf(buf[..i + 1]), output, value, bits + 8);
      i := i + 1;
    }
    assert buf[..i] == buf;
    if bits > 0 {
      HoldRest(NumberOf(buf), ValueOf(output), value, bits);
      var d := ((value * Pow2(5 - bits)) % WORD) % 32;
      ValueAppend(output, d);
      output := output + [Symbol(d)];
    } else {
      HoldAll(NumberOf(buf), ValueOf(output), value, bits);
      PowZero();
    }
    SymbolsOfValue(output);
  }

  lemma {:induction false} PowZero()
    ensures Pow2(0) == 1
  {
  }

  method Decode(upper: Casing, input: string) returns (r: Decoded)
    ensures r == DecodeText(upper, input)
  {
    hide Held, ValueOf, Pow2, NumberOf, BytesOf, FirstBad, Index;
    var clean := Uppered(upper, StripPadding(input));
    var bits: nat, value, i := 0, 0, 0;
    var bytes: seq<Byte> := [];
    HoldNothing();
    assert clean[..0] == "";
    while i < |clean|
      invariant i <= |clean| && bits < 8
      invariant AllSymbols(clean[..i]) && 8 * |bytes| + bits == 5 * i
      invariant Held(ValueOf(clean[..i]), NumberOf(bytes), value, bits)
    {
      var idx := Index(clean[i]);
      if idx.None? {
        FirstBadIs(clean, i);
        return BadCharacter(clean[i]);
      }
      ValueNext(clean, i);
      HoldMore(ValueOf(clean[..i]), NumberOf(bytes), value, bits, 32, 5, idx.value);
      value := (value * 32 + idx.value) % WORD;
      bits := bits + 5;
      if bits >= 8 {
        HoldLess(ValueOf(clean[..i + 1]), NumberOf(bytes), value, bits, 256, 8);
        NumberAppend(bytes, (value / Pow2(bits - 8)) % 256);
        bytes := bytes + [(value / Pow2(bits - 8)) % 256];
        bits := bits - 8;
      }
      i := i + 1;
    }
    assert clean[..i] == clean;
    NoneBad(clean);
    HoldAll(ValueOf(clean), NumberOf(bytes), value, bits);
    BytesOfNumber(bytes);
    return Bytes(bytes);
  }

  lemma {:induction false} ValueNext(s: string, i: nat)
    requires i < |s| && AllSymbols(s[..i]) && Index(s[i]).Some?
    ensures AllSymbols(s[..i + 1]) && ValueOf(s[..i + 1]) == 32 * ValueOf(s[..i]) + Index(s[i]).value
  {
    assert s[..i + 1][..i] == s[..i];
  }

  lemma {:induction false} FirstBadIs(s: string, i: nat)
    requires i < |s| && AllSymbols(s[..i]) && Index(s[i]).None?
    ensures FirstBad(s) == Some(s[i])
  {
    if i == |s| - 1 {
      NoneBad(s[..i]);
    } else {
      assert s[..|s| - 1][..i] == s[..i];
      FirstBadIs(s[..|s| - 1], i);
    }
  }

  // ---- the round trip ----

  lemma {:induction false} TimesBelow(a: int, b: int, c: int)
    requires a < b && c >= 1
    ensures a * c < b * c
  {
  }

  lemma {:induction false} EncodedValue(b: seq<Byte>)
    ensures AllSymbols(Encoded(b)) && |Encoded(b)| == EncodedLength(|b|)
    ensures ValueOf(Encoded(b)) == NumberOf(b) * Pow2(5 * EncodedLength(|b|) - 8 * |b|)
  {
    var m := EncodedLength(|b|);
    var k := 5 * m - 8 * |b|;
    NumberBound(b);
    Pow2Add(8 * |b|, k);
    hide Pow2, NumberOf, ValueOf;
    TimesBelow(NumberOf(b), Pow2(8 * |b|), Pow2(k));
    Padded(NumberOf(b), k);
    ValueOfSymbols(NumberOf(b) * Pow2(k), m);
  }

  lemma {:induction false} DecodedIsOriginal(b: seq<Byte>)
    ensures AllSymbols(Encoded(b)) && DecodedBytes(Encoded(b)) == b
  {
    EncodedValue(b);
    var m := EncodedLength(|b|);
    var k := 5 * m - 8 * |b|;
    assert 5 * m / 8 == |b| && 5 * m % 8 == k;
    DivideUnique(NumberOf(b) * Pow2(k), Pow2(k), NumberOf(b), 0);
    BytesOfNumber(b);
  }

  /** `s` written in either case and padded with equals signs. */
  predicate Variant(s: string, input: string) {
    |input| >= |s| && (forall i :: 0 <= i < |s| ==> UpperAscii(input[i]) == s[i]) &&
    forall i :: |s| <= i < |input| ==> input[i] == '='
  }

  lemma {:induction false} StripVariant(s: string, input: string)
    requires Variant(s, input) && (s != "" ==> s[|s| - 1] != '=')
    ensures StripPadding(input) == input[..|s|]
    decreases |input|
  {
    if |input| > |s| {
      StripVariant(s, input[..|input| - 1]);
      assert input[..|input| - 1][..|s|] == input[..|s|];
    } else {
      assert input[..|s|] == input;
      if s != "" {
        assert UpperAscii(input[|s| - 1]) == s[|s| - 1];
      }
    }
  }

  lemma {:induction false} UppersTo(upper: Casing, s: string, input: string)
    requires AsciiCasing(upper) && AllSymbols(s) && |input| == |s| && forall i :: 0 <= i < |s| ==> UpperAscii(input[i]) == s[i]
    ensures Uppered(upper, input) == s
  {
    if s != "" {
      var last := |s| - 1;
      UppersTo(upper, s[..last], input[..last]);
      assert Index(s[last]).Some? && UpperAscii(input[last]) == s[last];
      assert input[last] as int < 128;
      assert s == s[..last] + [s[last]];
    }
  }

  /** Decoding undoes encoding for byte strings of every length, whatever the case and the padding of the text. */
  lemma {:induction false} RoundTrip(upper: Casing, b: seq<Byte>, input: string)
    requires AsciiCasing(upper) && Variant(Encoded(b), input)
    ensures DecodeText(upper, input) == Bytes(b)
    ensures |Encoded(b)| == (8 * |b| + 4) / 5
  {
    var s := Encoded(b);
    DecodedIsOriginal(b);
    if s != "" {
      assert Index(s[|s| - 1]).Some?;
    }
    StripVariant(s, input);
    UppersTo(upper, s, input[..|s|]);
    NoneBad(s);
  }

  lemma {:induction false} AllSymbolsJoin(s: string, t: string)
    ensures AllSymbols(s + t) <==> AllSymbols(s) && AllSymbols(t)
  {
    hide Index;
    if AllSymbols(s + t) {
      assert forall i :: 0 <= i < |s| ==> s[i] == (s + t)[i];
      assert forall i :: 0 <= i < |t| ==> t[i] == (s + t)[|s| + i];
    }
  }

  /** Every character is upper-cased into the alphabet. */
  predicate AllAccepted(upper: Casing, s: string) {
    forall i :: 0 <= i < |s| ==> AllSymbols(upper(s[i]))
  }

  /** A text is accepted exactly when, its padding aside, every character is upper-cased into the alphabet. */
  lemma {:induction false} AcceptedIff(upper: Casing, input: string)
    ensures DecodeText(upper, input).Bytes? <==> AllAccepted(upper, StripPadding(input))
  {
    NoneBad(Uppered(upper, StripPadding(input)));
    UpperedSymbols(upper, StripPadding(input));
    hide AllAccepted, StripPadding, Uppered, DecodedBytes;
  }

  lemma {:induction false} UpperedSymbols(upper: Casing, s: string)
    ensures AllSymbols(Uppered(upper, s)) <==> AllAccepted(upper, s)
  {
    hide AllSymbols;
    if s == "" {
      assert AllSymbols("") by {
        NoneBad("");
      }
    } else {
      var last := |s| - 1;
      UpperedSymbols(upper, s[..last]);
      AllSymbolsJoin(Uppered(upper, s[..last]), upper(s[last]));
      if AllAccepted(upper, s) {
        assert AllAccepted(upper, s[..last]);
      }
      if AllAccepted(upper, s[..last]) && AllSymbols(upper(s[last])) {
        forall i | 0 <= i < |s| ensures AllSymbols(upper(s[i])) {
          assert i < last ==> s[..last][i] == s[i];
        }
      }
    }
  }
}
