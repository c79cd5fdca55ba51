/** The writer itself: chunks appended to a buffer under a length limit, with a set of the objects being written. */
module CanonicalWriter {
  import opened JsonText
  import opened JsonTree
  import opened CanonicalJson

  // ---- what writing emits ----

  function Emit(chunk: Text, used: nat): Result<Text> {
    if used + |chunk| > MAX_LENGTH then Refused(TooLong) else Ok(chunk)
  }

  /** Output pieces in order; each is written with what the ones before it have used. */
  function Then(first: Result<Text>, second: Result<Text>): Result<Text> {
    if first.Refused? then first else if second.Refused? then second else Ok(first.value + second.value)
  }

  function Size(r: Result<Text>): nat {
    if r.Ok? then |r.value| else 0
  }

  /** The text emitted for a value when `used` units are already out, or the first refusal met on the way. */
  function Write(h: Heap, v: Js, depth: nat, seen: set<nat>, used: nat): Result<Text>
    requires HeapOk(h) && JsOk(h, v)
    decreases MAX_DEPTH + 1 - depth, 0
  {
    if depth > MAX_DEPTH then Refused(TooDeep)
    else
      match v
      case JNull => Emit(NULL, used)
      case JBool(b) => Emit(if b then TRUE else FALSE, used)
      case JStr(text) => Emit(Quoted(text), used)
      case JNum(n) => if n.NotFinite? then Refused(NotFiniteNumber) else Emit(LiteralOf(n), used)
      case JUndefined => Refused(UnsupportedType)
      case JBigInt => Refused(UnsupportedType)
      case JSymbol => Refused(UnsupportedType)
      case JFunction => Refused(UnsupportedType)
      case JRef(r) =>
        if r in seen then Refused(Circular)
        else if h[r].DateObject? then Refused(DateValue)
        else if h[r].Arr? then
          var body := Then(Emit([OPEN_ARRAY], used), WriteItems(h, h[r].items, 0, depth + 1, seen + {r}, used + 1));
          Then(body, Emit([CLOSE_ARRAY], used + Size(body)))
        else if h[r].Instance? then Refused(ClassInstance)
        else
          SortedOk(h, h[r].properties);
          var body := Then(Emit([OPEN_OBJECT], used),
                           WriteProperties(h, SortProperties(h[r].properties), 0, depth + 1, seen + {r}, used + 1));
          Then(body, Emit([CLOSE_OBJECT], used + Size(body)))
  }

  function WriteItems(h: Heap, items: seq<Js>, i: nat, depth: nat, seen: set<nat>, used: nat): Result<Text>
    requires HeapOk(h) && (forall j :: 0 <= j < |items| ==> JsOk(h, items[j])) && i <= |items|
    decreases MAX_DEPTH + 1 - depth, 1 + |items| - i
  {
    if i == |items| then Ok([])
    else
      var one := WriteItem(h, items[i], i, depth, seen, used);
      Then(one, WriteItems(h, items, i + 1, depth, seen, used + Size(one)))
  }

  /** A comma before every item but the first. */
  function WriteItem(h: Heap, v: Js, i: nat, depth: nat, seen: set<nat>, used: nat): Result<Text>
    requires HeapOk(h) && JsOk(h, v)
    decreases MAX_DEPTH + 1 - depth, 1
  {
    var comma := if i > 0 then Emit([COMMA], used) else Ok([]);
    Then(comma, Write(h, v, depth, seen, used + Size(comma)))
  }

  function WriteProperties(h: Heap, ps: seq<Property>, i: nat, depth: nat, seen: set<nat>, used: nat): Result<Text>
    requires HeapOk(h) && (forall j :: 0 <= j < |ps| ==> JsOk(h, ps[j].value)) && i <= |ps|
    decreases MAX_DEPTH + 1 - depth, 1 + |ps| - i
  {
    if i == |ps| then Ok([])
    else
      var one := WriteProperty(h, ps[i], i, depth, seen, used);
      Then(one, WriteProperties(h, ps, i + 1, depth, seen, used + Size(one)))
  }

  function WriteProperty(h: Heap, p: Property, i: nat, depth: nat, seen: set<nat>, used: nat): Result<Text>
    requires HeapOk(h) && JsOk(h, p.value)
    decreases MAX_DEPTH + 1 - depth, 1
  {
    var comma := if i > 0 then Emit([COMMA], used) else Ok([]);
    var key := Then(comma, Emit(Quoted(p.key), used + Size(comma)));
    var colon := Then(key, Emit([COLON], used + Size(key)));
    Then(colon, Write(h, p.value, depth, seen, used + Size(colon)))
  }

  function Canonical(h: Heap, v: Js): Result<Text>
    requires HeapOk(h) && JsOk(h, v)
  {
    Write(h, v, 0, {}, 0)
  }

  // ---- writing is reading, then printing, within the limit ----

  /** `r` is `text` if that still fits, and a refusal otherwise. */
  predicate Fits(r: Result<Text>, text: Text, used: nat) {
    if used + |text| <= MAX_LENGTH then r == Ok(text) else r == Refused(TooLong)
  }

  /** `r` is what must come out for a value that reads as `tree` and prints as `text`, or that reading refuses. */
  predicate Matches<T>(r: Result<Text>, tree: Result<T>, text: Text, used: nat) {
    if tree.Ok? then Fits(r, text, used) else r == Refused(TooLong) || r == Refused(tree.why)
  }

  lemma {:induction false} ThenFits(a: Result<Text>, x: Text, b: Result<Text>, y: Text, used: nat)
    requires Fits(a, x, used) && (a.Ok? ==> Fits(b, y, used + |x|))
    ensures Fits(Then(a, b), x + y, used)
  {
  }

  lemma {:induction false} ThenMatches<T>(a: Result<Text>, x: Text, b: Result<Text>, tree: Result<T>, y: Text, used: nat)
    requires Fits(a, x, used) && (a.Ok? ==> Matches(b, tree, y, used + |x|))
    ensures Matches(Then(a, b), tree, x + y, used)
  {
  }

  lemma {:induction false} MatchesThen<T>(a: Result<Text>, tree: Result<T>, x: Text, b: Result<Text>, y: Text, used: nat)
    requires Matches(a, tree, x, used) && (a.Ok? ==> Fits(b, y, used + |x|))
    ensures Matches(Then(a, b), tree, x + y, used)
  {
  }

  function PrintTree(r: Result<Tree>): Text {
    if r.Ok? then Print(r.value) else []
  }

  /** The items from `i` on as text: joined by commas, with one more in front unless they are the first. */
  function PrintItemsFrom(r: Result<seq<Tree>>, i: nat): Text {
    if r.Refused? || r.value == [] then [] else (if i > 0 then [COMMA] else []) + PrintItems(r.value)
  }

  function PrintMembersFrom(r: Result<seq<Member>>, i: nat): Text {
    if r.Refused? || r.value == [] then [] else (if i > 0 then [COMMA] else []) + PrintMembers(r.value)
  }

  function PrintPropertyFrom(key: Text, r: Result<Tree>, i: nat): Text {
    if r.Refused? then [] else (if i > 0 then [COMMA] else []) + PrintMember(Member(key, r.value))
  }

  lemma {:induction false} WriteIsPrint(h: Heap, v: Js, depth: nat, seen: set<nat>, used: nat)
    requires used <= MAX_LENGTH
    requires HeapOk(h) && JsOk(h, v)
    ensures var tree := Read(h, v, depth, seen);
            Matches(Write(h, v, depth, seen, used), tree, PrintTree(tree), used)
    decreases MAX_DEPTH + 1 - depth, 1
  {
    if depth <= MAX_DEPTH && v.JRef? && v.ref !in seen {
      assert ObjectOk(h, h[v.ref]);
      if h[v.ref].Arr? {
        WriteArray(h, v, depth, seen, used);
      } else if h[v.ref].Plain? {
        WriteObject(h, v, depth, seen, used);
      }
    }
  }

  /** A list between its brackets. */
  lemma {:induction false} BracketsMatch<T>(open: Text, close: Text, inner: Result<Text>, read: Result<T>, text: Text, used: nat)
    requires used <= MAX_LENGTH && |open| == 1
    requires used < MAX_LENGTH ==> Matches(inner, read, text, used + 1)
    ensures var body := Then(Emit(open, used), inner);
            Matches(Then(body, Emit(close, used + Size(body))), read, open + text + close, used)
  {
    var body := Then(Emit(open, used), inner);
    ThenMatches(Emit(open, used), open, inner, read, text, used);
    MatchesThen(body, read, open + text, Emit(close, used + Size(body)), close, used);
  }

  lemma {:induction false} WriteArray(h: Heap, v: Js, depth: nat, seen: set<nat>, used: nat)
    requires used <= MAX_LENGTH
    requires HeapOk(h) && JsOk(h, v) && depth <= MAX_DEPTH && v.JRef? && v.ref !in seen && h[v.ref].Arr?
    ensures var tree := Read(h, v, depth, seen);
            Matches(Write(h, v, depth, seen, used), tree, PrintTree(tree), used)
    decreases MAX_DEPTH + 1 - depth, 0
  {
    hide WriteItems, ReadItems, HeapOk, PrintItems, Then, Emit, Size, Fits;
    ItemsOk(h, v);
    var items, seen' := h[v.ref].items, seen + {v.ref};
    var read, inner := ReadItems(h, items, depth + 1, seen'), WriteItems(h, items, 0, depth + 1, seen', used + 1);
    if used < MAX_LENGTH {
      WriteItemsIsPrint(h, items, 0, depth + 1, seen', used + 1);
      assert items[0..] == items;
    }
    BracketsMatch([OPEN_ARRAY], [CLOSE_ARRAY], inner, read, PrintItemsFrom(read, 0), used);
    PrintItemsFromStart(read);
  }

  lemma {:induction false} PrintItemsFromStart(r: Result<seq<Tree>>)
    ensures r.Ok? ==> PrintItemsFrom(r, 0) == PrintItems(r.value)
  {
  }

  lemma {:induction false} ItemsOk(h: Heap, v: Js)
    requires HeapOk(h) && JsOk(h, v) && v.JRef? && h[v.ref].Arr?
    ensures forall j :: 0 <= j < |h[v.ref].items| ==> JsOk(h, h[v.ref].items[j])
  {
    assert ObjectOk(h, h[v.ref]);
  }

  /** One piece and the rest of a list: both read, or the first refusal. */
  lemma {:induction false} StepMatches<S, T>(one: Result<Text>, first: Result<S>, text: Text, more: Result<Text>, rest: Result<T>,
                                             restText: Text, all: Result<T>, allText: Text, used: nat)
    requires Matches(one, first, text, used)
    requires first.Ok? && one.Ok? ==> Matches(more, rest, restText, used + |text|)
    requires first.Refused? ==> all == Refused(first.why)
    requires first.Ok? && rest.Refused? ==> all == rest
    requires first.Ok? && rest.Ok? ==> all.Ok? && allText == text + restText
    ensures Matches(Then(one, more), all, allText, used)
  {
    if first.Ok? {
      ThenMatches(one, text, more, rest, restText, used);
    }
  }

  /** Reading the items from `i` on, one step. */
  lemma {:induction false} ReadItemsFrom(h: Heap, items: seq<Js>, i: nat, depth: nat, seen: set<nat>)
    requires HeapOk(h) && (forall j :: 0 <= j < |items| ==> JsOk(h, items[j])) && i < |items|
    ensures var first, rest := Read(h, items[i], depth, seen), ReadItems(h, items[i + 1..], depth, seen);
            ReadItems(h, items[i..], depth, seen) ==
            if first.Refused? then Refused(first.why) else if rest.Refused? then rest else Ok([first.value] + rest.value)
  {
    hide Read, HeapOk, JsOk;
    assert items[i..][0] == items[i] && items[i..][1..] == items[i + 1..];
  }

  lemma {:induction false} WriteItemsIsPrint(h: Heap, items: seq<Js>, i: nat, depth: nat, seen: set<nat>, used: nat)
    requires used <= MAX_LENGTH
    requires HeapOk(h) && (forall j :: 0 <= j < |items| ==> JsOk(h, items[j])) && i <= |items|
    ensures var read := ReadItems(h, items[i..], depth, seen);
            Matches(WriteItems(h, items, i, depth, seen, used), read, PrintItemsFrom(read, i), used)
    decreases MAX_DEPTH + 1 - depth, 3 + |items| - i
  {
    if i < |items| {
      hide Write, Read, HeapOk, JsOk, Print, WriteItem, ReadItems, PrintItems;
      ReadItemsFrom(h, items, i, depth, seen);
      WriteItemIsPrint(h, items[i], i, depth, seen, used);
      var tree, rest := Read(h, items[i], depth, seen), ReadItems(h, items[i + 1..], depth, seen);
      var one := WriteItem(h, items[i], i, depth, seen, used);
      var more := WriteItems(h, items, i + 1, depth, seen, used + Size(one));
      assert WriteItems(h, items, i, depth, seen, used) == Then(one, more);
      if one.Ok? {
        WriteItemsIsPrint(h, items, i + 1, depth, seen, used + Size(one));
      }
      if tree.Ok? && rest.Ok? {
        PrintItemsNext(tree.value, rest, i);
      }
      hide WriteItems, Then, PrintItemsFrom, Emit;
      StepMatches(one, tree, (if i > 0 then [COMMA] else []) + PrintTree(tree), more, rest, PrintItemsFrom(rest, i + 1),
                  ReadItems(h, items[i..], depth, seen), PrintItemsFrom(ReadItems(h, items[i..], depth, seen), i), used);
    } else {
      assert items[i..] == [];
    }
  }

  lemma {:induction false} Regroup(a: Text, b: Text, c: Text)
    ensures a + (b + c) == (a + b) + c
  {
  }

  lemma {:induction false} PrintItemsNext(t: Tree, rest: Result<seq<Tree>>, i: nat)
    requires rest.Ok?
    ensures PrintItemsFrom(Ok([t] + rest.value), i) ==
            (if i > 0 then [COMMA] else []) + Print(t) + PrintItemsFrom(rest, i + 1)
  {
    PrintItemsCons(t, rest.value);
    var comma: Text := if i > 0 then [COMMA] else [];
    hide Print, PrintItems;
    if rest.value != [] {
      Regroup(comma, Print(t), [COMMA] + PrintItems(rest.value));
      Regroup(Print(t), [COMMA], PrintItems(rest.value));
    }
  }

  lemma {:induction false} PrintItemsCons(t: Tree, rest: seq<Tree>)
    ensures PrintItems([t] + rest) == if rest == [] then Print(t) else Print(t) + [COMMA] + PrintItems(rest)
  {
    hide Print;
    var all := [t] + rest;
    assert all[0] == t && all[1..] == rest;
  }

  lemma {:induction false} WriteItemIsPrint(h: Heap, v: Js, i: nat, depth: nat, seen: set<nat>, used: nat)
    requires used <= MAX_LENGTH
    requires HeapOk(h) && JsOk(h, v)
    ensures var tree := Read(h, v, depth, seen);
            Matches(WriteItem(h, v, i, depth, seen, used), tree, (if i > 0 then [COMMA] else []) + PrintTree(tree), used)
    decreases MAX_DEPTH + 1 - depth, 2
  {
    hide Write, Read, HeapOk, JsOk, PrintTree;
    var comma: Text := if i > 0 then [COMMA] else [];
    var first := if i > 0 then Emit([COMMA], used) else Ok([]);
    if first.Ok? {
      WriteIsPrint(h, v, depth, seen, used + |comma|);
    }
    var tree := Read(h, v, depth, seen);
    ThenMatches(first, comma, Write(h, v, depth, seen, used + Size(first)), tree, PrintTree(tree), used);
  }

  lemma {:induction false} WriteObject(h: Heap, v: Js, depth: nat, seen: set<nat>, used: nat)
    requires used <= MAX_LENGTH
    requires HeapOk(h) && JsOk(h, v) && depth <= MAX_DEPTH && v.JRef? && v.ref !in seen && h[v.ref].Plain?
    ensures var tree := Read(h, v, depth, seen);
            Matches(Write(h, v, depth, seen, used), tree, PrintTree(tree), used)
    decreases MAX_DEPTH + 1 - depth, 0
  {
    hide WriteProperties, ReadMembers, HeapOk, PrintMembers, SortProperties, Then, Emit, Size, Fits;
    PropertiesOk(h, v);
    var ps, seen' := SortProperties(h[v.ref].properties), seen + {v.ref};
    var read, inner := ReadMembers(h, ps, depth + 1, seen'), WriteProperties(h, ps, 0, depth + 1, seen', used + 1);
    if used < MAX_LENGTH {
      WritePropertiesIsPrint(h, ps, 0, depth + 1, seen', used + 1);
      assert ps[0..] == ps;
    }
    BracketsMatch([OPEN_OBJECT], [CLOSE_OBJECT], inner, read, PrintMembersFrom(read, 0), used);
    PrintMembersFromStart(read);
  }

  lemma {:induction false} PrintMembersFromStart(r: Result<seq<Member>>)
    ensures r.Ok? ==> PrintMembersFrom(r, 0) == PrintMembers(r.value)
  {
  }

  lemma {:induction false} PropertiesOk(h: Heap, v: Js)
    requires HeapOk(h) && JsOk(h, v) && v.JRef? && h[v.ref].Plain?
    ensures var ps := h[v.ref].properties;
            && DistinctKeys(ps) && (forall j :: 0 <= j < |ps| ==> JsOk(h, ps[j].value))
            && forall j :: 0 <= j < |SortProperties(ps)| ==> JsOk(h, SortProperties(ps)[j].value)
  {
    assert ObjectOk(h, h[v.ref]);
    SortedOk(h, h[v.ref].properties);
  }

  lemma {:induction false} ReadMembersFrom(h: Heap, ps: seq<Property>, i: nat, depth: nat, seen: set<nat>)
    requires HeapOk(h) && (forall j :: 0 <= j < |ps| ==> JsOk(h, ps[j].value)) && i < |ps|
    ensures var first, rest := Read(h, ps[i].value, depth, seen), ReadMembers(h, ps[i + 1..], depth, seen);
            ReadMembers(h, ps[i..], depth, seen) ==
            if first.Refused? then Refused(first.why)
            else if rest.Refused? then rest else Ok([Member(ps[i].key, first.value)] + rest.value)
  {
    hide Read, HeapOk, JsOk;
    assert ps[i..][0] == ps[i] && ps[i..][1..] == ps[i + 1..];
  }

  lemma {:induction false} WritePropertiesIsPrint(h: Heap, ps: seq<Property>, i: nat, depth: nat, seen: set<nat>, used: nat)
    requires used <= MAX_LENGTH
    requires HeapOk(h) && (forall j :: 0 <= j < |ps| ==> JsOk(h, ps[j].value)) && i <= |ps|
    ensures var read := ReadMembers(h, ps[i..], depth, seen);
            Matches(WriteProperties(h, ps, i, depth, seen, used), read, PrintMembersFrom(read, i), used)
    decreases MAX_DEPTH + 1 - depth, 3 + |ps| - i
  {
    if i < |ps| {
      hide Write, Read, HeapOk, JsOk, WriteProperty, PrintMember, ReadMembers, PrintMembers;
      ReadMembersFrom(h, ps, i, depth, seen);
      WritePropertyIsPrint(h, ps[i], i, depth, seen, used);
      var tree, rest := Read(h, ps[i].value, depth, seen), ReadMembers(h, ps[i + 1..], depth, seen);
      var one := WriteProperty(h, ps[i], i, depth, seen, used);
      var more := WriteProperties(h, ps, i + 1, depth, seen, used + Size(one));
      assert WriteProperties(h, ps, i, depth, seen, used) == Then(one, more);
      if one.Ok? {
        WritePropertiesIsPrint(h, ps, i + 1, depth, seen, used + Size(one));
      }
      if tree.Ok? && rest.Ok? {
        PrintMembersNext(Member(ps[i].key, tree.value), rest, i);
      }
      hide WriteProperties, Then, PrintMembersFrom, Emit;
      StepMatches(one, tree, PrintPropertyFrom(ps[i].key, tree, i), more, rest, PrintMembersFrom(rest, i + 1),
                  ReadMembers(h, ps[i..], depth, seen), PrintMembersFrom(ReadMembers(h, ps[i..], depth, seen), i), used);
    } else {
      assert ps[i..] == [];
    }
  }

  lemma {:induction false} PrintMembersNext(m: Member, rest: Result<seq<Member>>, i: nat)
    requires rest.Ok?
    ensures PrintMembersFrom(Ok([m] + rest.value), i) ==
            (if i > 0 then [COMMA] else []) + PrintMember(m) + PrintMembersFrom(rest, i + 1)
  {
    PrintMembersCons(m, rest.value);
    var comma: Text := if i > 0 then [COMMA] else [];
    hide PrintMember, PrintMembers;
    if rest.value != [] {
      Regroup(comma, PrintMember(m), [COMMA] + PrintMembers(rest.value));
      Regroup(PrintMember(m), [COMMA], PrintMembers(rest.value));
    }
  }

  lemma {:induction false} PrintMembersCons(m: Member, rest: seq<Member>)
    ensures PrintMembers([m] + rest) == if rest == [] then PrintMember(m) else PrintMember(m) + [COMMA] + PrintMembers(rest)
  {
    hide PrintMember;
    var all := [m] + rest;
    assert all[0] == m && all[1..] == rest;
  }

  /** What a property prints as, up to a refusal in its value. */
  lemma {:induction false} WritePropertyIsPrint(h: Heap, p: Property, i: nat, depth: nat, seen: set<nat>, used: nat)
    requires used <= MAX_LENGTH && HeapOk(h) && JsOk(h, p.value)
    ensures var tree := Read(h, p.value, depth, seen);
            Matches(WriteProperty(h, p, i, depth, seen, used), tree, PrintPropertyFrom(p.key, tree, i), used)
    decreases MAX_DEPTH + 1 - depth, 2
  {
    hide Write, Read, HeapOk, JsOk, Quoted, Print;
    var comma: Text := if i > 0 then [COMMA] else [];
    var first := if i > 0 then Emit([COMMA], used) else Ok([]);
    var key := Then(first, Emit(Quoted(p.key), used + Size(first)));
    ThenFits(first, comma, Emit(Quoted(p.key), used + Size(first)), Quoted(p.key), used);
    var colon := Then(key, Emit([COLON], used + Size(key)));
    ThenFits(key, comma + Quoted(p.key), Emit([COLON], used + Size(key)), [COLON], used);
    var tree := Read(h, p.value, depth, seen);
    if colon.Ok? {
      WriteIsPrint(h, p.value, depth, seen, used + |comma + Quoted(p.key) + [COLON]|);
    }
    ThenMatches(colon, comma + Quoted(p.key) + [COLON], Write(h, p.value, depth, seen, used + Size(colon)), tree, PrintTree(tree), used);
    if tree.Ok? {
      assert comma + Quoted(p.key) + [COLON] + PrintTree(tree) == comma + (Quoted(p.key) + [COLON] + Print(tree.value));
    }
  }
}
