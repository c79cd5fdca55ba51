/** Text as JavaScript has it: sequences of 16-bit code units, with the quoting of JSON strings and its inverse. */
module JsonText {
  import opened Options

  newtype Unit = x: int | 0 <= x < 0x1_0000

  type Text = seq<Unit>

  const QUOTE: Unit := 34
  const BACKSLASH: Unit := 92

  // ---- order of keys: by code unit ----

  predicate Less(a: Text, b: Text) {
    b != [] && (a == [] || a[0] < b[0] || (a[0] == b[0] && Less(a[1..], b[1..])))
  }

  lemma {:induction false} LessIrreflexive(a: Text)
    ensures !Less(a, a)
  {
    if a != [] {
      LessIrreflexive(a[1..]);
    }
  }

  lemma {:induction false} LessTransitive(a: Text, b: Text, c: Text)
    requires Less(a, b) && Less(b, c)
    ensures Less(a, c)
  {
    if a != [] && a[0] == b[0] == c[0] {
      LessTransitive(a[1..], b[1..], c[1..]);
    }
  }

  lemma {:induction false} LessTotal(a: Text, b: Text)
    ensures a == b || Less(a, b) || Less(b, a)
  {
    if a != [] && b != [] && a[0] == b[0] {
      LessTotal(a[1..], b[1..]);
      assert a == [a[0]] + a[1..] && b == [b[0]] + b[1..];
    }
  }

  // ---- quoting ----

  predicate HighSurrogate(u: Unit) {
    0xD800 <= u <= 0xDBFF
  }

  predicate LowSurrogate(u: Unit) {
    0xDC00 <= u <= 0xDFFF
  }

  /** Lower-case hexadecimal digit. */
  function Hex(n: int): (u: Unit)
    requires 0 <= n < 16
    ensures 48 <= u <= 57 || 97 <= u <= 102
  {
    if n < 10 then (48 + n) as Unit else (87 + n) as Unit
  }

  function UnHex(u: Unit): (r: Option<int>)
    ensures r.Some? ==> 0 <= r.value < 16
  {
    if 48 <= u <= 57 then Some(u as int - 48)
    else if 97 <= u <= 102 then Some(u as int - 87)
    else None
  }

  /** `\uXXXX`. */
  function UnicodeEscape(u: Unit): (r: Text)
    ensures |r| == 6 && r[0] == BACKSLASH && r[1] == 117
  {
    var n := u as int;
    [BACKSLASH, 117, Hex(n / 4096), Hex(n / 256 % 16), Hex(n / 16 % 16), Hex(n % 16)]
  }

  /** The one-letter escapes: quote, backslash, and b, t, n, f, r. */
  function ShortEscape(u: Unit): Option<Unit> {
    if u == QUOTE then Some(QUOTE)
    else if u == BACKSLASH then Some(BACKSLASH)
    else if u == 8 then Some(98)
    else if u == 9 then Some(116)
    else if u == 10 then Some(110)
    else if u == 12 then Some(102)
    else if u == 13 then Some(114)
    else None
  }

  function UnShort(u: Unit): Option<Unit> {
    if u == QUOTE then Some(QUOTE)
    else if u == BACKSLASH then Some(BACKSLASH)
    else if u == 98 then Some(8)
    else if u == 116 then Some(9)
    else if u == 110 then Some(10)
    else if u == 102 then Some(12)
    else if u == 114 then Some(13)
    else None
  }

  /** How many units of the text the next piece of output stands for: two for a surrogate pair, one otherwise. */
  function PieceLength(s: Text): (n: nat)
    requires s != []
    ensures 1 <= n <= |s|
  {
    if HighSurrogate(s[0]) && |s| > 1 && LowSurrogate(s[1]) then 2 else 1
  }

  /** A surrogate pair and ordinary units stand for themselves; control units and lone surrogates are escaped. */
  function Piece(s: Text): Text
    requires s != []
  {
    if PieceLength(s) == 2 then s[..2]
    else if ShortEscape(s[0]).Some? then [BACKSLASH, ShortEscape(s[0]).value]
    else if s[0] < 32 || HighSurrogate(s[0]) || LowSurrogate(s[0]) then UnicodeEscape(s[0])
    else [s[0]]
  }

  function Escaped(s: Text): Text {
    if s == [] then [] else Piece(s) + Escaped(s[PieceLength(s)..])
  }

  function Quoted(s: Text): Text {
    [QUOTE] + Escaped(s) + [QUOTE]
  }

  // ---- reading a quoted string back ----

  /** One unit of a string body and the rest, or nothing at the closing quote or on malformed input. */
  function ReadUnit(s: Text): (r: Option<(Unit, Text)>)
    ensures r.Some? ==> |r.value.1| < |s|
  {
    if s == [] || s[0] == QUOTE then None
    else if s[0] != BACKSLASH then Some((s[0], s[1..]))
    else if |s| >= 2 && UnShort(s[1]).Some? then Some((UnShort(s[1]).value, s[2..]))
    else if |s| >= 6 && s[1] == 117 && UnHex(s[2]).Some? && UnHex(s[3]).Some? && UnHex(s[4]).Some? && UnHex(s[5]).Some? then
      var n := ((UnHex(s[2]).value * 16 + UnHex(s[3]).value) * 16 + UnHex(s[4]).value) * 16 + UnHex(s[5]).value;
      Some((n as Unit, s[6..]))
    else None
  }

  /** The string body up to its closing quote, and what follows. */
  function ReadBody(s: Text): (r: Option<(Text, Text)>)
    ensures r.Some? ==> |r.value.1| < |s|
    decreases |s|
  {
    if s != [] && s[0] == QUOTE then Some(([], s[1..]))
    else
      var unit := ReadUnit(s);
      if unit.None? then None
      else
        var rest := ReadBody(unit.value.1);
        if rest.None? then None else Some(([unit.value.0] + rest.value.0, rest.value.1))
  }

  lemma {:induction false} HexRoundTrip(n: int)
    requires 0 <= n < 16
    ensures UnHex(Hex(n)) == Some(n)
  {
  }

  lemma {:induction false} HexDigits(n: int)
    requires 0 <= n < 0x1_0000
    ensures 0 <= n / 4096 < 16
    ensures ((n / 4096 * 16 + n / 256 % 16) * 16 + n / 16 % 16) * 16 + n % 16 == n
  {
    assert n / 16 == (n / 256) * 16 + n / 16 % 16;
    assert n / 256 == (n / 4096) * 16 + n / 256 % 16;
  }

  lemma {:induction false} ReadUnicode(u: Unit, rest: Text)
    ensures ReadUnit(UnicodeEscape(u) + rest) == Some((u, rest))
  {
    var n := u as int;
    HexDigits(n);
    HexRoundTrip(n / 4096);
    HexRoundTrip(n / 256 % 16);
    HexRoundTrip(n / 16 % 16);
    HexRoundTrip(n % 16);
    var s := UnicodeEscape(u) + rest;
    assert s[6..] == rest;
    assert s[1] == 117 && UnShort(s[1]).None?;
  }

  /** Reading undoes the escape of one unit. */
  lemma {:induction false} ReadPiece(s: Text, rest: Text)
    requires s != [] && PieceLength(s) == 1
    ensures ReadUnit(Piece(s) + rest) == Some((s[0], rest))
  {
    var p := Piece(s);
    if ShortEscape(s[0]).Some? {
      assert (p + rest)[2..] == rest;
    } else if s[0] < 32 || HighSurrogate(s[0]) || LowSurrogate(s[0]) {
      ReadUnicode(s[0], rest);
    } else {
      assert (p + rest)[1..] == rest;
    }
  }

  /** A surrogate pair stands for itself, and is read as its two halves. */
  lemma {:induction false} ReadPair(s: Text, tail: Text)
    requires s != [] && PieceLength(s) == 2 && ReadBody(tail).Some?
    ensures ReadBody(Piece(s) + tail) == Some((s[..2] + ReadBody(tail).value.0, ReadBody(tail).value.1))
  {
    var second := [s[1]] + tail;
    var all := Piece(s) + tail;
    assert all == [s[0]] + second;
    assert second[1..] == tail && all[1..] == second;
    assert ReadUnit(second) == Some((s[1], tail)) && ReadUnit(all) == Some((s[0], second));
    assert [s[0]] + ([s[1]] + ReadBody(tail).value.0) == s[..2] + ReadBody(tail).value.0;
  }

  lemma {:induction false} ReadSingle(s: Text, tail: Text)
    requires s != [] && PieceLength(s) == 1 && ReadBody(tail).Some?
    ensures ReadBody(Piece(s) + tail) == Some(([s[0]] + ReadBody(tail).value.0, ReadBody(tail).value.1))
  {
    ReadPiece(s, tail);
    PieceIsNotQuote(s, tail);
    hide Piece, ReadUnit;
  }

  /** Reading a quoted string gives the string back, whatever follows its closing quote. */
  lemma {:induction false} ReadBodyEscaped(s: Text, rest: Text)
    ensures ReadBody(Escaped(s) + ([QUOTE] + rest)) == Some((s, rest))
    decreases |s|
  {
    hide Piece, PieceLength;
    var close := [QUOTE] + rest;
    if s == [] {
      assert Escaped(s) + close == close && close[1..] == rest;
    } else {
      var n := PieceLength(s);
      var tail := Escaped(s[n..]) + close;
      assert Escaped(s) + close == Piece(s) + tail;
      ReadBodyEscaped(s[n..], rest);
      if n == 1 {
        ReadSingle(s, tail);
        assert [s[0]] + s[1..] == s;
      } else {
        PairLength(s);
        ReadPair(s, tail);
        assert s[..2] + s[2..] == s;
      }
    }
  }

  lemma {:induction false} PairLength(s: Text)
    requires s != []
    ensures PieceLength(s) == 1 || PieceLength(s) == 2
  {
  }

  lemma {:induction false} PieceIsNotQuote(s: Text, tail: Text)
    requires s != []
    ensures Piece(s) != [] && (Piece(s) + tail)[0] != QUOTE
  {
  }
}
