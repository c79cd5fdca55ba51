/** JSON values as trees, their one canonical text, and a parser that undoes it. */
module JsonTree {
  import opened Options
  import opened JsonText

  /** A number is kept as the text that `String(n)` gives it. */
  datatype Tree = TNull | TBool(b: bool) | TNum(literal: Text) | TStr(text: Text) | TArr(items: seq<Tree>) | TObj(members: seq<Member>)

  datatype Member = Member(key: Text, value: Tree)

  const NULL: Text := [110, 117, 108, 108]
  const TRUE: Text := [116, 114, 117, 101]
  const FALSE: Text := [102, 97, 108, 115, 101]
  const COMMA: Unit := 44
  const COLON: Unit := 58
  const OPEN_ARRAY: Unit := 91
  const CLOSE_ARRAY: Unit := 93
  const OPEN_OBJECT: Unit := 123
  const CLOSE_OBJECT: Unit := 125

  // ---- printing ----

  function Print(t: Tree): Text {
    match t
    case TNull => NULL
    case TBool(b) => if b then TRUE else FALSE
    case TNum(literal) => literal
    case TStr(text) => Quoted(text)
    case TArr(items) => [OPEN_ARRAY] + PrintItems(items) + [CLOSE_ARRAY]
    case TObj(members) => [OPEN_OBJECT] + PrintMembers(members) + [CLOSE_OBJECT]
  }

  function PrintItems(items: seq<Tree>): Text {
    if items == [] then []
    else if |items| == 1 then Print(items[0])
    else Print(items[0]) + [COMMA] + PrintItems(items[1..])
  }

  function PrintMember(m: Member): Text {
    Quoted(m.key) + [COLON] + Print(m.value)
  }

  function PrintMembers(members: seq<Member>): Text {
    if members == [] then []
    else if |members| == 1 then PrintMember(members[0])
    else PrintMember(members[0]) + [COMMA] + PrintMembers(members[1..])
  }

  // ---- numbers ----

  predicate NumberUnit(u: Unit) {
    48 <= u <= 57 || u == 45 || u == 43 || u == 46 || u == 101
  }

  /** A digit or a minus sign, then digits, signs, a point, an exponent. */
  predicate NumberText(literal: Text) {
    literal != [] && (48 <= literal[0] <= 57 || literal[0] == 45) && forall i :: 0 <= i < |literal| ==> NumberUnit(literal[i])
  }

  predicate NumbersOk(t: Tree) {
    match t
    case TNum(literal) => NumberText(literal)
    case TArr(items) => forall i :: 0 <= i < |items| ==> NumbersOk(items[i])
    case TObj(members) => forall i :: 0 <= i < |members| ==> NumbersOk(members[i].value)
    case TNull => true
    case TBool(_) => true
    case TStr(_) => true
  }

  // ---- parsing ----

  function NumberRun(s: Text): (n: nat)
    ensures n <= |s|
  {
    if s == [] || !NumberUnit(s[0]) then 0 else 1 + NumberRun(s[1..])
  }

  function ParseValue(s: Text): (r: Option<(Tree, Text)>)
    ensures r.Some? ==> |r.value.1| < |s|
    decreases |s|, 0
  {
    if s == [] then None
    else if s[0] == QUOTE then
      var body := ReadBody(s[1..]);
      if body.None? then None else Some((TStr(body.value.0), body.value.1))
    else if s[0] == OPEN_ARRAY then
      if |s| > 1 && s[1] == CLOSE_ARRAY then Some((TArr([]), s[2..]))
      else
        var items := ParseItems(s[1..]);
        if items.None? then None else Some((TArr(items.value.0), items.value.1))
    else if s[0] == OPEN_OBJECT then
      if |s| > 1 && s[1] == CLOSE_OBJECT then Some((TObj([]), s[2..]))
      else
        var members := ParseMembers(s[1..]);
        if members.None? then None else Some((TObj(members.value.0), members.value.1))
    else if NULL <= s then Some((TNull, s[4..]))
    else if TRUE <= s then Some((TBool(true), s[4..]))
    else if FALSE <= s then Some((TBool(false), s[5..]))
    else
      var n := NumberRun(s);
      if n == 0 then None else Some((TNum(s[..n]), s[n..]))
  }

  function ParseItems(s: Text): (r: Option<(seq<Tree>, Text)>)
    ensures r.Some? ==> |r.value.1| < |s|
    decreases |s|, 1
  {
    var first := ParseValue(s);
    if first.None? || first.value.1 == [] then None
    else if first.value.1[0] == CLOSE_ARRAY then Some(([first.value.0], first.value.1[1..]))
    else if first.value.1[0] != COMMA then None
    else
      var more := ParseItems(first.value.1[1..]);
      if more.None? then None else Some(([first.value.0] + more.value.0, more.value.1))
  }

  function ParseMember(s: Text): (r: Option<(Member, Text)>)
    ensures r.Some? ==> |r.value.1| < |s|
    decreases |s|, 1
  {
    if s == [] || s[0] != QUOTE then None
    else
      var key := ReadBody(s[1..]);
      if key.None? || key.value.1 == [] || key.value.1[0] != COLON then None
      else
        var value := ParseValue(key.value.1[1..]);
        if value.None? then None else Some((Member(key.value.0, value.value.0), value.value.1))
  }

  function ParseMembers(s: Text): (r: Option<(seq<Member>, Text)>)
    ensures r.Some? ==> |r.value.1| < |s|
    decreases |s|, 2
  {
    var first := ParseMember(s);
    if first.None? || first.value.1 == [] then None
    else if first.value.1[0] == CLOSE_OBJECT then Some(([first.value.0], first.value.1[1..]))
    else if first.value.1[0] != COMMA then None
    else
      var more := ParseMembers(first.value.1[1..]);
      if more.None? then None else Some(([first.value.0] + more.value.0, more.value.1))
  }

  // ---- the parser undoes the printer ----

  /** What may follow a value without being taken for part of a number. */
  predicate Delimited(rest: Text) {
    rest == [] || !NumberUnit(rest[0])
  }

  lemma {:induction false} NumberRunStops(literal: Text, rest: Text)
    requires (forall i :: 0 <= i < |literal| ==> NumberUnit(literal[i])) && Delimited(rest)
    ensures NumberRun(literal + rest) == |literal|
  {
    if literal == [] {
      assert literal + rest == rest;
    } else {
      assert (literal + rest)[1..] == literal[1..] + rest;
      NumberRunStops(literal[1..], rest);
    }
  }

  /** No value begins like the end of an array or object. */
  lemma {:induction false} PrintStarts(t: Tree)
    requires NumbersOk(t)
    ensures Print(t) != [] && Print(t)[0] != CLOSE_ARRAY && Print(t)[0] != CLOSE_OBJECT
  {
  }

  lemma {:induction false} ParsePrintWord(t: Tree, rest: Text)
    requires t.TNull? || t.TBool?
    ensures ParseValue(Print(t) + rest) == Some((t, rest))
  {
    hide ParseItems, ParseMembers, ReadBody, NumberRun;
    var s := Print(t) + rest;
    if t == TBool(false) {
      assert s[..5] == FALSE && s[5..] == rest;
    } else {
      assert s[..4] == Print(t) && s[4..] == rest;
    }
  }

  lemma {:induction false} ParsePrintNumber(literal: Text, rest: Text)
    requires NumberText(literal) && Delimited(rest)
    ensures ParseValue(literal + rest) == Some((TNum(literal), rest))
  {
    hide ParseItems, ParseMembers, ReadBody, NumberRun;
    var s := literal + rest;
    NumberRunStops(literal, rest);
    assert s[..|literal|] == literal && s[|literal|..] == rest;
    assert s[0] == literal[0];
  }

  lemma {:induction false} ParsePrintString(text: Text, rest: Text)
    ensures ParseValue(Quoted(text) + rest) == Some((TStr(text), rest))
  {
    hide ParseItems, ParseMembers, ReadBody, NumberRun, Escaped;
    assert (Quoted(text) + rest)[1..] == Escaped(text) + ([QUOTE] + rest);
    ReadBodyEscaped(text, rest);
  }

  lemma {:induction false} ParsePrint(t: Tree, rest: Text)
    requires NumbersOk(t) && Delimited(rest)
    ensures ParseValue(Print(t) + rest) == Some((t, rest))
    decreases t, 1
  {
    hide ParseValue, Delimited, Quoted, PrintItems, PrintMembers;
    match t
    case TNull => ParsePrintWord(t, rest);
    case TBool(_) => ParsePrintWord(t, rest);
    case TNum(literal) => ParsePrintNumber(literal, rest);
    case TStr(text) => ParsePrintString(text, rest);
    case TArr(items) => ParsePrintArray(items, rest);
    case TObj(members) => ParsePrintObject(members, rest);
  }

  lemma {:induction false} ParsePrintArray(items: seq<Tree>, rest: Text)
    requires (forall i :: 0 <= i < |items| ==> NumbersOk(items[i])) && Delimited(rest)
    ensures ParseValue(Print(TArr(items)) + rest) == Some((TArr(items), rest))
    decreases items, 2
  {
    var s := Print(TArr(items)) + rest;
    hide ParseItems, ParseMembers, ReadBody, NumberRun, NumbersOk;
    if items == [] {
      assert s[2..] == rest;
    } else {
      assert s[1..] == PrintItems(items) + ([CLOSE_ARRAY] + rest);
      ParsePrintItems(items, rest);
      PrintStarts(items[0]);
      assert s[1] == Print(items[0])[0];
    }
  }

  lemma {:induction false} ParseItemsStep(s: Text, v: Tree, tail: Text)
    requires ParseValue(s) == Some((v, [COMMA] + tail))
    ensures ParseItems(s) ==
            var more := ParseItems(tail); if more.None? then None else Some(([v] + more.value.0, more.value.1))
  {
    hide ParseValue;
    assert ([COMMA] + tail)[1..] == tail;
  }

  lemma {:induction false} PrintItemsStep(items: seq<Tree>, close: Text)
    requires |items| > 1
    ensures PrintItems(items) + close == Print(items[0]) + ([COMMA] + (PrintItems(items[1..]) + close))
  {
    hide Print;
  }

  lemma {:induction false} ParsePrintItems(items: seq<Tree>, rest: Text)
    requires items != [] && forall i :: 0 <= i < |items| ==> NumbersOk(items[i])
    ensures ParseItems(PrintItems(items) + ([CLOSE_ARRAY] + rest)) == Some((items, rest))
    decreases items, 1
  {
    hide Print, ParseValue, NumbersOk;
    var after := [CLOSE_ARRAY] + rest;
    if |items| == 1 {
      assert after[1..] == rest;
      ParsePrint(items[0], after);
      assert items == [items[0]];
    } else {
      var tail := PrintItems(items[1..]) + after;
      PrintItemsStep(items, after);
      ParsePrint(items[0], [COMMA] + tail);
      ParsePrintItems(items[1..], rest);
      ParseItemsStep(PrintItems(items) + after, items[0], tail);
      assert items == [items[0]] + items[1..];
    }
  }

  lemma {:induction false} ParsePrintObject(members: seq<Member>, rest: Text)
    requires (forall i :: 0 <= i < |members| ==> NumbersOk(members[i].value)) && Delimited(rest)
    ensures ParseValue(Print(TObj(members)) + rest) == Some((TObj(members), rest))
    decreases members, 3
  {
    var s := Print(TObj(members)) + rest;
    hide ParseItems, ParseMembers, ReadBody, NumberRun, NumbersOk, PrintMember;
    if members == [] {
      assert s[2..] == rest;
    } else {
      MembersStart(members);
      ParsePrintMembers(members, rest);
      hide PrintMembers;
      assert s[1..] == PrintMembers(members) + ([CLOSE_OBJECT] + rest);
      assert s[1] == PrintMembers(members)[0];
    }
  }

  lemma {:induction false} MembersStart(members: seq<Member>)
    requires members != []
    ensures PrintMembers(members) != [] && PrintMembers(members)[0] == QUOTE
  {
    hide Print, Escaped;
    var m := PrintMember(members[0]);
    assert m != [] && m[0] == QUOTE;
    if |members| > 1 {
      assert PrintMembers(members)[0] == m[0];
    }
  }

  lemma {:induction false} ParsePrintMember(m: Member, after: Text)
    requires NumbersOk(m.value) && Delimited(after)
    ensures ParseMember(PrintMember(m) + after) == Some((m, after))
    decreases m, 1
  {
    hide Print, ParseValue, NumbersOk, Escaped, ReadBody;
    var s := PrintMember(m) + after;
    var tail := [COLON] + (Print(m.value) + after);
    assert s[1..] == Escaped(m.key) + ([QUOTE] + tail);
    ReadBodyEscaped(m.key, tail);
    assert tail[1..] == Print(m.value) + after;
    ParsePrint(m.value, after);
  }

  lemma {:induction false} ParseMembersStep(s: Text, m: Member, tail: Text)
    requires ParseMember(s) == Some((m, [COMMA] + tail))
    ensures ParseMembers(s) ==
            var more := ParseMembers(tail); if more.None? then None else Some(([m] + more.value.0, more.value.1))
  {
    hide ParseMember;
    assert ([COMMA] + tail)[1..] == tail;
  }

  lemma {:induction false} PrintMembersStep(members: seq<Member>, close: Text)
    requires |members| > 1
    ensures PrintMembers(members) + close == PrintMember(members[0]) + ([COMMA] + (PrintMembers(members[1..]) + close))
  {
    hide PrintMember;
  }

  lemma {:induction false} ParsePrintMembers(members: seq<Member>, rest: Text)
    requires members != [] && forall i :: 0 <= i < |members| ==> NumbersOk(members[i].value)
    ensures ParseMembers(PrintMembers(members) + ([CLOSE_OBJECT] + rest)) == Some((members, rest))
    decreases members, 2
  {
    hide PrintMember, ParseMember, NumbersOk;
    var after := [CLOSE_OBJECT] + rest;
    if |members| == 1 {
      assert after[1..] == rest;
      ParsePrintMember(members[0], after);
      assert members == [members[0]];
    } else {
      var tail := PrintMembers(members[1..]) + after;
      PrintMembersStep(members, after);
      ParsePrintMember(members[0], [COMMA] + tail);
      ParsePrintMembers(members[1..], rest);
      ParseMembersStep(PrintMembers(members) + after, members[0], tail);
      assert members == [members[0]] + members[1..];
    }
  }

  /** Two trees with the same text are the same tree. */
  lemma {:induction false} PrintIsInjective(a: Tree, b: Tree)
    requires NumbersOk(a) && NumbersOk(b) && Print(a) == Print(b)
    ensures a == b
  {
    ParsePrint(a, []);
    ParsePrint(b, []);
    assert Print(a) + [] == Print(b) + [];
  }
}
