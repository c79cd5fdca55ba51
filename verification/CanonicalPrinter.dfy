/** The serializer as it runs: it appends chunks to a buffer, counts their length, and marks the objects it is inside. */
module CanonicalPrinter {
  import opened Options
  import opened JsonText
  import opened JsonTree
  import opened CanonicalJson
  import opened CanonicalWriter

  function Joined(chunks: seq<Text>): Text {
    if chunks == [] then [] else Joined(chunks[..|chunks| - 1]) + chunks[|chunks| - 1]
  }

  lemma {:induction false} JoinedAppend(chunks: seq<Text>, chunk: Text)
    ensures Joined(chunks + [chunk]) == Joined(chunks) + chunk
  {
    assert (chunks + [chunk])[..|chunks|] == chunks;
  }

  /** What a step adds to the buffer, or the refusal it ends with. */
  predicate Adds(before: Text, after: Text, error: Option<Refusal>, expected: Result<Text>) {
    if expected.Ok? then error.None? && after == before + expected.value else error == Some(expected.why)
  }

  class Printer {
    var chunks: seq<Text>
    var length: nat
    var seen: set<nat>

    ghost function Output(): Text
      reads this
    {
      Joined(chunks)
    }

    ghost predicate Valid()
      reads this
    {
      length == |Output()| <= MAX_LENGTH
    }

    constructor ()
      ensures Valid() && Output() == [] && seen == {}
    {
      chunks, length, seen := [], 0, {};
    }

    method EmitChunk(chunk: Text) returns (error: Option<Refusal>)
      requires Valid()
      modifies this`chunks, this`length
      ensures Adds(old(Output()), Output(), error, Emit(chunk, old(length)))
      ensures error.None? ==> Valid()
    {
      length := length + |chunk|;
      if length > MAX_LENGTH {
        return Some(TooLong);
      }
      JoinedAppend(chunks, chunk);
      chunks := chunks + [chunk];
      return None;
    }

    /** Whatever happens inside, the mark on an object is taken off again. */
    method WriteValue(h: Heap, v: Js, depth: nat) returns (error: Option<Refusal>)
      requires Valid() && HeapOk(h) && JsOk(h, v)
      modifies this
      ensures seen == old(seen)
      ensures Adds(old(Output()), Output(), error, Write(h, v, depth, old(seen), old(length)))
      ensures error.None? ==> Valid()
      decreases MAX_DEPTH + 1 - depth, 1
    {
      if depth > MAX_DEPTH {
        return Some(TooDeep);
      }
      match v {
        case JNull => error := EmitChunk(NULL);
        case JBool(b) => error := EmitChunk(if b then TRUE else FALSE);
        case JStr(text) => error := EmitChunk(Quoted(text));
        case JNum(n) =>
          if n.NotFinite? {
            return Some(NotFiniteNumber);
          }
          error := EmitChunk(LiteralOf(n));
        case JUndefined => error := Some(UnsupportedType);
        case JBigInt => error := Some(UnsupportedType);
        case JSymbol => error := Some(UnsupportedType);
        case JFunction => error := Some(UnsupportedType);
        case JRef(r) =>
          if r in seen {
            return Some(Circular);
          }
          if h[r].DateObject? {
            return Some(DateValue);
          }
          seen := seen + {r};
          error := WriteObject(h, r, depth);
          seen := seen - {r};
      }
    }

    method WriteObject(h: Heap, r: nat, depth: nat) returns (error: Option<Refusal>)
      requires Valid() && HeapOk(h) && r < |h| && r in seen && depth <= MAX_DEPTH && !h[r].DateObject?
      modifies this
      ensures seen == old(seen)
      ensures Adds(old(Output()), Output(), error, Write(h, JRef(r), depth, old(seen) - {r}, old(length)))
      ensures error.None? ==> Valid()
      decreases MAX_DEPTH + 1 - depth, 0
    {
      hide Write, WriteItems, WriteProperties, Then, SortProperties, Joined, HeapOk, JsOk;
      if h[r].Arr? {
        WriteOfArray(h, r, depth, seen, length);
        error := WriteBracketedItems(h, h[r].items, depth + 1);
      } else if h[r].Instance? {
        WriteOfInstance(h, r, depth, seen, length);
        error := Some(ClassInstance);
      } else {
        WriteOfPlain(h, r, depth, seen, length);
        error := WriteBracedProperties(h, SortProperties(h[r].properties), depth + 1);
      }
    }

    method WriteBracketedItems(h: Heap, items: seq<Js>, depth: nat) returns (error: Option<Refusal>)
      requires Valid() && HeapOk(h) && forall j :: 0 <= j < |items| ==> JsOk(h, items[j])
      modifies this
      ensures seen == old(seen)
      ensures var body := Then(Emit([OPEN_ARRAY], old(length)), WriteItems(h, items, 0, depth, old(seen), old(length) + 1));
              Adds(old(Output()), Output(), error, Then(body, Emit([CLOSE_ARRAY], old(length) + Size(body))))
      ensures error.None? ==> Valid()
      decreases MAX_DEPTH + 1 - depth, 4
    {
      hide WriteItems, HeapOk, JsOk, Joined;
      error := EmitChunk([OPEN_ARRAY]);
      if error.Some? {
        return;
      }
      error := WriteEachItem(h, items, depth);
      if error.Some? {
        return;
      }
      error := EmitChunk([CLOSE_ARRAY]);
    }

    method WriteBracedProperties(h: Heap, ps: seq<Property>, depth: nat) returns (error: Option<Refusal>)
      requires Valid() && HeapOk(h) && forall j :: 0 <= j < |ps| ==> JsOk(h, ps[j].value)
      modifies this
      ensures seen == old(seen)
      ensures var body := Then(Emit([OPEN_OBJECT], old(length)), WriteProperties(h, ps, 0, depth, old(seen), old(length) + 1));
              Adds(old(Output()), Output(), error, Then(body, Emit([CLOSE_OBJECT], old(length) + Size(body))))
      ensures error.None? ==> Valid()
      decreases MAX_DEPTH + 1 - depth, 4
    {
      hide WriteProperties, HeapOk, JsOk, Joined;
      error := EmitChunk([OPEN_OBJECT]);
      if error.Some? {
        return;
      }
      error := WriteEachProperty(h, ps, depth);
      if error.Some? {
        return;
      }
      error := EmitChunk([CLOSE_OBJECT]);
    }

    method WriteEachItem(h: Heap, items: seq<Js>, depth: nat) returns (error: Option<Refusal>)
      requires Valid() && HeapOk(h) && forall j :: 0 <= j < |items| ==> JsOk(h, items[j])
      modifies this
      ensures seen == old(seen)
      ensures Adds(old(Output()), Output(), error, WriteItems(h, items, 0, depth, old(seen), old(length)))
      ensures error.None? ==> Valid()
      decreases MAX_DEPTH + 1 - depth, 3
    {
      hide WriteItem, HeapOk, JsOk, Joined;
      ghost var goal := WriteItems(h, items, 0, depth, seen, length);
      ghost var out: Text := [];
      ThenNothing(goal);
      error := None;
      var i := 0;
      while i < |items|
        invariant i <= |items| && error.None? && Valid() && seen == old(seen)
        invariant Output() == old(Output()) + out
        invariant goal == Then(Ok(out), WriteItems(h, items, i, depth, seen, length))
      {
        ghost var one := WriteItem(h, items[i], i, depth, seen, length);
        ThenAssociates(out, one, WriteItems(h, items, i + 1, depth, seen, length + Size(one)));
        error := WriteOneItem(h, items[i], i, depth);
        if error.Some? {
          return;
        }
        out := out + one.value;
        i := i + 1;
      }
    }

    method WriteOneItem(h: Heap, v: Js, i: nat, depth: nat) returns (error: Option<Refusal>)
      requires Valid() && HeapOk(h) && JsOk(h, v)
      modifies this
      ensures seen == old(seen)
      ensures Adds(old(Output()), Output(), error, WriteItem(h, v, i, depth, old(seen), old(length)))
      ensures error.None? ==> Valid()
      decreases MAX_DEPTH + 1 - depth, 2
    {
      hide Write, HeapOk, JsOk, Joined;
      if i > 0 {
        error := EmitChunk([COMMA]);
        if error.Some? {
          return;
        }
      }
      error := WriteValue(h, v, depth);
    }

    method WriteEachProperty(h: Heap, ps: seq<Property>, depth: nat) returns (error: Option<Refusal>)
      requires Valid() && HeapOk(h) && forall j :: 0 <= j < |ps| ==> JsOk(h, ps[j].value)
      modifies this
      ensures seen == old(seen)
      ensures Adds(old(Output()), Output(), error, WriteProperties(h, ps, 0, depth, old(seen), old(length)))
      ensures error.None? ==> Valid()
      decreases MAX_DEPTH + 1 - depth, 3
    {
      hide WriteProperty, HeapOk, JsOk, Joined;
      ghost var goal := WriteProperties(h, ps, 0, depth, seen, length);
      ghost var out: Text := [];
      ThenNothing(goal);
      error := None;
      var i := 0;
      while i < |ps|
        invariant i <= |ps| && error.None? && Valid() && seen == old(seen)
        invariant Output() == old(Output()) + out
        invariant goal == Then(Ok(out), WriteProperties(h, ps, i, depth, seen, length))
      {
        ghost var one := WriteProperty(h, ps[i], i, depth, seen, length);
        ThenAssociates(out, one, WriteProperties(h, ps, i + 1, depth, seen, length + Size(one)));
        error := WriteOneProperty(h, ps[i], i, depth);
        if error.Some? {
          return;
        }
        out := out + one.value;
        i := i + 1;
      }
    }

    method WriteOneProperty(h: Heap, p: Property, i: nat, depth: nat) returns (error: Option<Refusal>)
      requires Valid() && HeapOk(h) && JsOk(h, p.value)
      modifies this
      ensures seen == old(seen)
      ensures Adds(old(Output()), Output(), error, WriteProperty(h, p, i, depth, old(seen), old(length)))
      ensures error.None? ==> Valid()
      decreases MAX_DEPTH + 1 - depth, 2
    {
      hide Write, HeapOk, JsOk, Joined, Quoted;
      if i > 0 {
        error := EmitChunk([COMMA]);
        if error.Some? {
          return;
        }
      }
      error := EmitChunk(Quoted(p.key));
      if error.Some? {
        return;
      }
      error := EmitChunk([COLON]);
      if error.Some? {
        return;
      }
      error := WriteValue(h, p.value, depth);
    }
  }

  /** What is written for an object, given that its own mark is the last one set. */
  lemma {:induction false} WriteOfArray(h: Heap, r: nat, depth: nat, seen: set<nat>, used: nat)
    requires HeapOk(h) && r < |h| && r in seen && depth <= MAX_DEPTH && h[r].Arr?
    ensures forall j :: 0 <= j < |h[r].items| ==> JsOk(h, h[r].items[j])
    ensures var body := Then(Emit([OPEN_ARRAY], used), WriteItems(h, h[r].items, 0, depth + 1, seen, used + 1));
            Write(h, JRef(r), depth, seen - {r}, used) == Then(body, Emit([CLOSE_ARRAY], used + Size(body)))
  {
    assert seen - {r} + {r} == seen;
    ItemsOk(h, JRef(r));
    hide WriteItems, WriteProperties, Then, HeapOk;
  }

  lemma {:induction false} WriteOfPlain(h: Heap, r: nat, depth: nat, seen: set<nat>, used: nat)
    requires HeapOk(h) && r < |h| && r in seen && depth <= MAX_DEPTH && h[r].Plain?
    ensures forall j :: 0 <= j < |SortProperties(h[r].properties)| ==> JsOk(h, SortProperties(h[r].properties)[j].value)
    ensures var ps := SortProperties(h[r].properties);
            var body := Then(Emit([OPEN_OBJECT], used), WriteProperties(h, ps, 0, depth + 1, seen, used + 1));
            Write(h, JRef(r), depth, seen - {r}, used) == Then(body, Emit([CLOSE_OBJECT], used + Size(body)))
  {
    assert seen - {r} + {r} == seen;
    PropertiesOk(h, JRef(r));
    hide WriteItems, WriteProperties, Then, SortProperties, HeapOk;
  }

  lemma {:induction false} WriteOfInstance(h: Heap, r: nat, depth: nat, seen: set<nat>, used: nat)
    requires HeapOk(h) && r < |h| && depth <= MAX_DEPTH && h[r].Instance?
    ensures Write(h, JRef(r), depth, seen - {r}, used) == Refused(ClassInstance)
  {
    hide WriteItems, WriteProperties, Then, SortProperties, HeapOk;
  }

  lemma {:induction false} ThenAssociates(out: Text, one: Result<Text>, rest: Result<Text>)
    ensures one.Ok? ==> Then(Ok(out), Then(one, rest)) == Then(Ok(out + one.value), rest)
    ensures one.Refused? ==> Then(Ok(out), Then(one, rest)) == one
  {
    if one.Ok? && rest.Ok? {
      assert out + (one.value + rest.value) == out + one.value + rest.value;
    }
  }

  lemma {:induction false} ThenNothing(r: Result<Text>)
    ensures Then(Ok([]), r) == r
  {
    if r.Ok? {
      assert [] + r.value == r.value;
    }
  }

  /** The serialization of a value: the joined chunks of a fresh printer, or its refusal. */
  method CanonicalJsonOf(h: Heap, v: Js) returns (r: Result<Text>)
    requires HeapOk(h) && JsOk(h, v)
    ensures r == Canonical(h, v)
  {
    var printer := new Printer();
    var error := printer.WriteValue(h, v, 0);
    if error.Some? {
      return Refused(error.value);
    }
    assert printer.Output() == [] + Canonical(h, v).value == Canonical(h, v).value;
    var i := 0;
    var out: Text := [];
    while i < |printer.chunks|
      invariant i <= |printer.chunks| && out == Joined(printer.chunks[..i])
    {
      assert printer.chunks[..i + 1][..i] == printer.chunks[..i];
      out := out + printer.chunks[i];
      i := i + 1;
    }
    assert printer.chunks[..i] == printer.chunks;
    return Ok(out);
  }
}
