/** The canonical text is an exact key: it tells two accepted values apart exactly when they differ. */
module CanonicalKey {
  import opened Options
  import opened JsonTree
  import opened CanonicalJson
  import opened CanonicalWriter

  /** Exactly the values that read as a tree whose text fits are serialized, and to that text. */
  lemma {:induction false} SerializedIff(h: Heap, v: Js)
    requires HeapOk(h) && JsOk(h, v)
    ensures Canonical(h, v).Ok? <==> Read(h, v, 0, {}).Ok? && |Print(Read(h, v, 0, {}).value)| <= MAX_LENGTH
    ensures Canonical(h, v).Ok? ==> Canonical(h, v).value == Print(Read(h, v, 0, {}).value)
    ensures Canonical(h, v).Refused? && Canonical(h, v).why != TooLong ==> Read(h, v, 0, {}) == Refused(Canonical(h, v).why)
  {
    hide Write, Read, HeapOk, JsOk;
    WriteIsPrint(h, v, 0, {}, 0);
  }

  /** A parser reads the serialized value back, to the last unit. */
  lemma {:induction false} ParserUndoesSerialization(h: Heap, v: Js)
    requires HeapOk(h) && JsOk(h, v) && Canonical(h, v).Ok?
    ensures Read(h, v, 0, {}).Ok? && ParseValue(Canonical(h, v).value) == Some((Read(h, v, 0, {}).value, []))
  {
    hide Read, HeapOk, JsOk, Canonical, ParseValue;
    SerializedIff(h, v);
    ReadNumbersOk(h, v, 0, {});
    ParsePrint(Read(h, v, 0, {}).value, []);
    assert Canonical(h, v).value + [] == Canonical(h, v).value;
  }

  /** Two serializations are equal if and only if the values are equal up to key order (and minus zero is zero). */
  lemma {:induction false} SerializationIsExactKey(h: Heap, v: Js, g: Heap, w: Js)
    requires HeapOk(h) && JsOk(h, v) && Canonical(h, v).Ok? && HeapOk(g) && JsOk(g, w) && Canonical(g, w).Ok?
    ensures Canonical(h, v) == Canonical(g, w) <==> SameValue(h, v, g, w, 0)
  {
    hide Read, HeapOk, JsOk, Canonical, SameValue, Print;
    SerializedIff(h, v);
    SerializedIff(g, w);
    TreesAgree(h, v, {}, g, w, {}, 0);
    if Canonical(h, v) == Canonical(g, w) {
      ReadNumbersOk(h, v, 0, {});
      ReadNumbersOk(g, w, 0, {});
      PrintIsInjective(Read(h, v, 0, {}).value, Read(g, w, 0, {}).value);
    }
  }

  // ---- what is refused ----

  /** Plain JSON data as far as it is visited: nothing but null, booleans, finite numbers, strings, arrays and plain
      objects, nested at most `MAX_DEPTH` deep, with no object inside itself. Hidden properties are not looked at. */
  predicate JsonSafe(h: Heap, v: Js, depth: nat, path: set<nat>)
    requires HeapOk(h) && JsOk(h, v)
    decreases MAX_DEPTH + 1 - depth
  {
    depth <= MAX_DEPTH &&
    match v
    case JNull => true
    case JBool(_) => true
    case JStr(_) => true
    case JNum(n) => !n.NotFinite?
    case JUndefined => false
    case JBigInt => false
    case JSymbol => false
    case JFunction => false
    case JRef(r) =>
      r !in path &&
      match h[r]
      case Arr(items, _, _) => forall i :: 0 <= i < |items| ==> JsonSafe(h, items[i], depth + 1, path + {r})
      case Plain(ps, _, _) => forall i :: 0 <= i < |ps| ==> JsonSafe(h, ps[i].value, depth + 1, path + {r})
      case DateObject => false
      case Instance => false
  }

  lemma {:induction false} SafeItems(h: Heap, items: seq<Js>, depth: nat, path: set<nat>)
    requires HeapOk(h) && forall i :: 0 <= i < |items| ==> JsOk(h, items[i])
    ensures ReadItems(h, items, depth, path).Ok? <==> forall i :: 0 <= i < |items| ==> JsonSafe(h, items[i], depth, path)
    decreases MAX_DEPTH + 1 - depth, 2 + |items|
  {
    hide Read, JsonSafe, HeapOk, JsOk;
    if items != [] {
      ReadIffSafe(h, items[0], depth, path);
      SafeItems(h, items[1..], depth, path);
    }
  }

  lemma {:induction false} SafeMembers(h: Heap, ps: seq<Property>, depth: nat, path: set<nat>)
    requires HeapOk(h) && forall i :: 0 <= i < |ps| ==> JsOk(h, ps[i].value)
    ensures ReadMembers(h, ps, depth, path).Ok? <==> forall i :: 0 <= i < |ps| ==> JsonSafe(h, ps[i].value, depth, path)
    decreases MAX_DEPTH + 1 - depth, 2 + |ps|
  {
    hide Read, JsonSafe, HeapOk, JsOk;
    if ps != [] {
      ReadIffSafe(h, ps[0].value, depth, path);
      SafeMembers(h, ps[1..], depth, path);
    }
  }

  lemma {:induction false} SafeObject(h: Heap, v: Js, depth: nat, path: set<nat>)
    requires HeapOk(h) && JsOk(h, v) && depth <= MAX_DEPTH && v.JRef? && v.ref !in path && h[v.ref].Plain?
    ensures Read(h, v, depth, path).Ok? <==> JsonSafe(h, v, depth, path)
    decreases MAX_DEPTH + 1 - depth, 0
  {
    hide ReadMembers, SortProperties;
    PropertiesOk(h, v);
    var ps := h[v.ref].properties;
    SortPropertiesSorts(ps);
    SafeMembers(h, SortProperties(ps), depth + 1, path + {v.ref});
    SafeSorted(h, ps, SortProperties(ps), depth + 1, path + {v.ref});
    hide HeapOk, JsOk, SortedKeys, DistinctKeys;
  }

  /** A value is readable exactly when what is visited of it is plain JSON data. */
  lemma {:induction false} ReadIffSafe(h: Heap, v: Js, depth: nat, path: set<nat>)
    requires HeapOk(h) && JsOk(h, v)
    ensures Read(h, v, depth, path).Ok? <==> JsonSafe(h, v, depth, path)
    decreases MAX_DEPTH + 1 - depth, 1
  {
    if depth <= MAX_DEPTH && v.JRef? && v.ref !in path {
      hide ReadItems, ReadMembers, SortProperties;
      if h[v.ref].Arr? {
        ItemsOk(h, v);
        SafeItems(h, h[v.ref].items, depth + 1, path + {v.ref});
      } else if h[v.ref].Plain? {
        SafeObject(h, v, depth, path);
      }
    }
  }

  lemma {:induction false} SafeSorted(h: Heap, ps: seq<Property>, qs: seq<Property>, depth: nat, path: set<nat>)
    requires HeapOk(h) && forall i :: 0 <= i < |ps| ==> JsOk(h, ps[i].value)
    requires forall i :: 0 <= i < |qs| ==> JsOk(h, qs[i].value)
    requires forall p :: p in qs <==> p in ps
    ensures (forall i :: 0 <= i < |ps| ==> JsonSafe(h, ps[i].value, depth, path)) <==>
            (forall i :: 0 <= i < |qs| ==> JsonSafe(h, qs[i].value, depth, path))
  {
    hide JsonSafe, HeapOk, JsOk;
    if forall i :: 0 <= i < |qs| ==> JsonSafe(h, qs[i].value, depth, path) {
      forall i | 0 <= i < |ps| ensures JsonSafe(h, ps[i].value, depth, path) {
        assert ps[i] in qs;
      }
    }
    if forall i :: 0 <= i < |ps| ==> JsonSafe(h, ps[i].value, depth, path) {
      forall i | 0 <= i < |qs| ensures JsonSafe(h, qs[i].value, depth, path) {
        assert qs[i] in ps;
      }
    }
  }

  // ---- cycles ----

  /** Object `a` holds a reference to object `b`. */
  predicate Holds(h: Heap, a: nat, b: nat) {
    a < |h| &&
    match h[a]
    case Arr(items, _, _) => JRef(b) in items
    case Plain(ps, _, _) => exists i :: 0 <= i < |ps| && ps[i].value == JRef(b)
    case DateObject => false
    case Instance => false
  }

  predicate Walk(h: Heap, path: seq<nat>) {
    |path| >= 2 && (forall i :: 0 <= i < |path| ==> path[i] < |h|) && forall i :: 0 < i < |path| ==> Holds(h, path[i - 1], path[i])
  }

  /** A readable object never leads back to itself or to any object it is being read inside of. */
  lemma {:induction false} SafeWalk(h: Heap, path: seq<nat>, depth: nat, seen: set<nat>)
    requires HeapOk(h) && Walk(h, path) && JsonSafe(h, JRef(path[0]), depth, seen)
    ensures path[|path| - 1] !in seen + {path[0]}
    decreases |path|
  {
    var a, b := path[0], path[1];
    assert Holds(h, a, b);
    assert ObjectOk(h, h[a]);
    assert JsonSafe(h, JRef(b), depth + 1, seen + {a}) by {
      match h[a]
      case Arr(items, _, _) => var i :| 0 <= i < |items| && items[i] == JRef(b);
      case Plain(ps, _, _) => var i :| 0 <= i < |ps| && ps[i].value == JRef(b);
    }
    if |path| > 2 {
      var tail := path[1..];
      assert forall i :: 0 < i < |tail| ==> tail[i - 1] == path[i] && tail[i] == path[i + 1];
      hide JsonSafe, Holds, HeapOk;
      SafeWalk(h, tail, depth + 1, seen + {a});
    }
  }

  /** Every cyclic value is refused, however long the cycle. */
  lemma {:induction false} CyclesAreRefused(h: Heap, path: seq<nat>)
    requires HeapOk(h) && Walk(h, path) && path[0] == path[|path| - 1]
    ensures Canonical(h, JRef(path[0])).Refused?
  {
    hide Canonical, Read, JsonSafe;
    SerializedIff(h, JRef(path[0]));
    ReadIffSafe(h, JRef(path[0]), 0, {});
    if JsonSafe(h, JRef(path[0]), 0, {}) {
      SafeWalk(h, path, 0, {});
    }
  }

  // ---- what is accepted and should not be ----

  /** Plain JSON data and nothing besides: no object has a hidden property or is exotic. This is what serialization is
      meant to accept. */
  predicate StrictlyPlain(h: Heap, v: Js, depth: nat, path: set<nat>)
    requires HeapOk(h) && JsOk(h, v)
    decreases MAX_DEPTH + 1 - depth
  {
    depth <= MAX_DEPTH &&
    match v
    case JNull => true
    case JBool(_) => true
    case JStr(_) => true
    case JNum(n) => !n.NotFinite?
    case JUndefined => false
    case JBigInt => false
    case JSymbol => false
    case JFunction => false
    case JRef(r) =>
      r !in path && Bare(h[r]) &&
      match h[r]
      case Arr(items, _, _) => forall i :: 0 <= i < |items| ==> StrictlyPlain(h, items[i], depth + 1, path + {r})
      case Plain(ps, _, _) => forall i :: 0 <= i < |ps| ==> StrictlyPlain(h, ps[i].value, depth + 1, path + {r})
      case DateObject => false
      case Instance => false
  }

  /** An array or object that shows all there is of it, and is what it looks like. */
  predicate Bare(o: Object) {
    o.Arr? || o.Plain? ==> o.hidden == [] && !o.exotic
  }

  /** The objects a value leads to: its own, and whatever these hold in turn. */
  predicate LeadsTo(h: Heap, v: Js, path: seq<nat>) {
    v.JRef? && path != [] && path[0] == v.ref && (forall i :: 0 <= i < |path| ==> path[i] < |h|) &&
    forall i :: 0 < i < |path| ==> Holds(h, path[i - 1], path[i])
  }

  /** No object that a value leads to has a hidden property or is exotic: something a caller can look up before the
      call. */
  ghost predicate NothingHidden(h: Heap, v: Js) {
    forall path :: LeadsTo(h, v, path) ==> Bare(h[path[|path| - 1]])
  }

  /** The value in a field of object `r`. */
  predicate Part(h: Heap, r: nat, v: Js) {
    r < |h| &&
    match h[r]
    case Arr(items, _, _) => exists i :: 0 <= i < |items| && items[i] == v
    case Plain(ps, _, _) => exists i :: 0 <= i < |ps| && ps[i].value == v
    case DateObject => false
    case Instance => false
  }

  lemma {:induction false} PartIsSafe(h: Heap, r: nat, v: Js, depth: nat, path: set<nat>)
    requires HeapOk(h) && Part(h, r, v) && JsOk(h, v) && JsonSafe(h, JRef(r), depth, path)
    ensures depth < MAX_DEPTH + 1 && JsonSafe(h, v, depth + 1, path + {r})
  {
  }

  lemma {:induction false} PartIsStrict(h: Heap, r: nat, v: Js, depth: nat, path: set<nat>)
    requires HeapOk(h) && Part(h, r, v) && JsOk(h, v) && r < |h| && StrictlyPlain(h, JRef(r), depth, path)
    ensures depth < MAX_DEPTH + 1 && StrictlyPlain(h, v, depth + 1, path + {r})
  {
  }

  lemma {:induction false} PartIsOk(h: Heap, r: nat, v: Js)
    requires HeapOk(h) && Part(h, r, v)
    ensures JsOk(h, v) && (v.JRef? ==> Holds(h, r, v.ref))
  {
    assert ObjectOk(h, h[r]);
  }

  lemma {:induction false} HeldIsPart(h: Heap, a: nat, b: nat)
    requires Holds(h, a, b)
    ensures Part(h, a, JRef(b))
  {
  }

  /** A value whose parts lead to nothing hidden, and that hides nothing itself, leads to nothing hidden. */
  lemma {:induction false} ChainFromPart(h: Heap, r: nat, v: Js, path: seq<nat>)
    requires HeapOk(h) && r < |h| && Part(h, r, v) && LeadsTo(h, v, path)
    ensures LeadsTo(h, JRef(r), [r] + path)
  {
    PartIsOk(h, r, v);
    var more := [r] + path;
    forall i | 0 < i < |more| ensures Holds(h, more[i - 1], more[i]) {
      assert i > 1 ==> more[i - 1] == path[i - 2];
      assert more[i] == path[i - 1];
    }
  }

  lemma {:induction false} PartsHideNothing(h: Heap, r: nat, v: Js)
    requires HeapOk(h) && r < |h| && Part(h, r, v) && NothingHidden(h, JRef(r))
    ensures NothingHidden(h, v)
  {
    forall path | LeadsTo(h, v, path) ensures Bare(h[path[|path| - 1]]) {
      ChainFromPart(h, r, v, path);
      assert ([r] + path)[|path|] == path[|path| - 1];
    }
  }

  /** Strictly plain values lead to nothing hidden. */
  lemma {:induction false} StrictChain(h: Heap, path: seq<nat>, depth: nat, seen: set<nat>)
    requires HeapOk(h) && path != [] && path[0] < |h| && LeadsTo(h, JRef(path[0]), path)
    requires StrictlyPlain(h, JRef(path[0]), depth, seen)
    ensures Bare(h[path[|path| - 1]])
    decreases |path|
  {
    if |path| > 1 {
      var tail := path[1..];
      assert Holds(h, path[0], path[1]);
      HeldIsPart(h, path[0], path[1]);
      PartIsStrict(h, path[0], JRef(path[1]), depth, seen);
      assert forall i :: 0 < i < |tail| ==> tail[i - 1] == path[i] && tail[i] == path[i + 1];
      hide StrictlyPlain, Holds, HeapOk, Part;
      StrictChain(h, tail, depth + 1, seen + {path[0]});
    }
  }

  /** Safe values that lead to nothing hidden are strictly plain. */
  lemma {:induction false} NothingHiddenIsStrict(h: Heap, v: Js, depth: nat, path: set<nat>)
    requires HeapOk(h) && JsOk(h, v) && JsonSafe(h, v, depth, path) && NothingHidden(h, v)
    ensures StrictlyPlain(h, v, depth, path)
    decreases MAX_DEPTH + 1 - depth
  {
    if v.JRef? {
      var r := v.ref;
      assert LeadsTo(h, v, [r]);
      assert Bare(h[[r][0]]);
      forall w | Part(h, r, w) && JsOk(h, w) ensures StrictlyPlain(h, w, depth + 1, path + {r}) {
        PartIsSafe(h, r, w, depth, path);
        PartsHideNothing(h, r, w);
        NothingHiddenIsStrict(h, w, depth + 1, path + {r});
      }
      hide NothingHidden, LeadsTo, JsonSafe;
      PartsStrict(h, r, depth, path);
    }
  }

  lemma {:induction false} PartsStrict(h: Heap, r: nat, depth: nat, path: set<nat>)
    requires HeapOk(h) && r < |h| && depth <= MAX_DEPTH && r !in path && Bare(h[r]) && (h[r].Arr? || h[r].Plain?)
    requires forall w :: Part(h, r, w) && JsOk(h, w) ==> StrictlyPlain(h, w, depth + 1, path + {r})
    ensures StrictlyPlain(h, JRef(r), depth, path)
  {
    assert ObjectOk(h, h[r]);
    if h[r].Arr? {
      var items := h[r].items;
      forall i | 0 <= i < |items| ensures StrictlyPlain(h, items[i], depth + 1, path + {r}) {
        assert Part(h, r, items[i]);
      }
    } else {
      var ps := h[r].properties;
      forall i | 0 <= i < |ps| ensures StrictlyPlain(h, ps[i].value, depth + 1, path + {r}) {
        assert Part(h, r, ps[i].value);
      }
    }
  }

  /** What serialization accepts is plain JSON data and nothing besides exactly for values that lead to no object that has
      a hidden property or is exotic; every other value that it accepts is one it was meant to refuse. */
  lemma {:induction false} AcceptedIsPlainIff(h: Heap, v: Js)
    requires HeapOk(h) && JsOk(h, v) && Canonical(h, v).Ok?
    ensures StrictlyPlain(h, v, 0, {}) <==> NothingHidden(h, v)
  {
    SerializedIff(h, v);
    ReadIffSafe(h, v, 0, {});
    hide Canonical, Read, JsonSafe, StrictlyPlain, Bare, HeapOk;
    if NothingHidden(h, v) {
      NothingHiddenIsStrict(h, v, 0, {});
    }
    if StrictlyPlain(h, v, 0, {}) {
      forall path | LeadsTo(h, v, path) ensures Bare(h[path[|path| - 1]]) {
        StrictChain(h, path, 0, {});
      }
    }
  }

  /** Strictly plain values are readable: nothing that should be accepted is refused, save for its length. */
  lemma {:induction false} StrictIsSafe(h: Heap, v: Js, depth: nat, path: set<nat>)
    requires HeapOk(h) && JsOk(h, v) && StrictlyPlain(h, v, depth, path)
    ensures JsonSafe(h, v, depth, path)
    decreases MAX_DEPTH + 1 - depth
  {
    if v.JRef? {
      var r := v.ref;
      assert ObjectOk(h, h[r]);
      match h[r]
      case Arr(items, _, _) =>
        forall i | 0 <= i < |items| ensures JsonSafe(h, items[i], depth + 1, path + {r}) {
          StrictIsSafe(h, items[i], depth + 1, path + {r});
        }
      case Plain(ps, _, _) =>
        forall i | 0 <= i < |ps| ensures JsonSafe(h, ps[i].value, depth + 1, path + {r}) {
          StrictIsSafe(h, ps[i].value, depth + 1, path + {r});
        }
    }
  }

  /** An ordinary object with what serialization visits of this one. */
  function Shown(o: Object): (r: Object)
    ensures Bare(r)
  {
    match o
    case Arr(items, _, _) => Arr(items, [], false)
    case Plain(ps, _, _) => Plain(ps, [], false)
    case DateObject => o
    case Instance => o
  }

  function AllShown(h: Heap): (r: Heap)
    ensures |r| == |h| && forall i :: 0 <= i < |h| ==> r[i] == Shown(h[i])
  {
    seq(|h|, i requires 0 <= i < |h| => Shown(h[i]))
  }

  lemma {:induction false} ShownReads(h: Heap, v: Js, depth: nat, seen: set<nat>)
    requires HeapOk(h) && JsOk(h, v)
    ensures HeapOk(AllShown(h)) && JsOk(AllShown(h), v)
    ensures Read(AllShown(h), v, depth, seen) == Read(h, v, depth, seen)
    decreases MAX_DEPTH + 1 - depth, 1
  {
    ShownOk(h);
    if depth <= MAX_DEPTH && v.JRef? && v.ref !in seen {
      hide ReadItems, ReadMembers, SortProperties, HeapOk;
      assert AllShown(h)[v.ref] == Shown(h[v.ref]);
      if h[v.ref].Arr? {
        ItemsOk(h, v);
        ShownItems(h, h[v.ref].items, depth + 1, seen + {v.ref});
      } else if h[v.ref].Plain? {
        PropertiesOk(h, v);
        SortedOk(h, h[v.ref].properties);
        ShownMembers(h, SortProperties(h[v.ref].properties), depth + 1, seen + {v.ref});
      }
    }
  }

  lemma {:induction false} ShownOk(h: Heap)
    requires HeapOk(h)
    ensures HeapOk(AllShown(h)) && forall v :: JsOk(h, v) ==> JsOk(AllShown(h), v)
  {
    forall r | 0 <= r < |h| ensures ObjectOk(AllShown(h), AllShown(h)[r]) {
      assert ObjectOk(h, h[r]);
    }
  }

  lemma {:induction false} ShownItems(h: Heap, items: seq<Js>, depth: nat, seen: set<nat>)
    requires HeapOk(h) && forall i :: 0 <= i < |items| ==> JsOk(h, items[i])
    ensures HeapOk(AllShown(h)) && forall i :: 0 <= i < |items| ==> JsOk(AllShown(h), items[i])
    ensures ReadItems(AllShown(h), items, depth, seen) == ReadItems(h, items, depth, seen)
    decreases MAX_DEPTH + 1 - depth, 2 + |items|
  {
    ShownOk(h);
    hide Read, HeapOk, JsOk, AllShown;
    if items != [] {
      ShownReads(h, items[0], depth, seen);
      ShownItems(h, items[1..], depth, seen);
    }
  }

  lemma {:induction false} ShownMembers(h: Heap, ps: seq<Property>, depth: nat, seen: set<nat>)
    requires HeapOk(h) && forall i :: 0 <= i < |ps| ==> JsOk(h, ps[i].value)
    ensures HeapOk(AllShown(h)) && forall i :: 0 <= i < |ps| ==> JsOk(AllShown(h), ps[i].value)
    ensures ReadMembers(AllShown(h), ps, depth, seen) == ReadMembers(h, ps, depth, seen)
    decreases MAX_DEPTH + 1 - depth, 2 + |ps|
  {
    ShownOk(h);
    hide Read, HeapOk, JsOk, AllShown;
    if ps != [] {
      ShownReads(h, ps[0].value, depth, seen);
      ShownMembers(h, ps[1..], depth, seen);
    }
  }

  /** Neither hidden properties nor being exotic ever matter: a value is serialized, or refused, as if every array and
      object were an ordinary one with what is visited of it. */
  lemma {:induction false} HiddenPropertiesAreIgnored(h: Heap, v: Js)
    requires HeapOk(h) && JsOk(h, v)
    ensures HeapOk(AllShown(h)) && JsOk(AllShown(h), v)
    ensures Canonical(AllShown(h), v).Ok? <==> Canonical(h, v).Ok?
    ensures Canonical(h, v).Ok? ==> Canonical(AllShown(h), v) == Canonical(h, v)
  {
    ShownReads(h, v, 0, {});
    hide Canonical, Read, HeapOk, JsOk, AllShown;
    SerializedIff(h, v);
    SerializedIff(AllShown(h), v);
  }

  predicate Empty(o: Object) {
    (o.Arr? && o.items == []) || (o.Plain? && o.properties == [])
  }

  lemma {:induction false} EmptyObjects(h: Heap, r: nat)
    requires HeapOk(h) && r < |h| && Empty(h[r])
    ensures Canonical(h, JRef(r)) == Ok(Print(if h[r].Arr? then TArr([]) else TObj([])))
    ensures StrictlyPlain(h, JRef(r), 0, {}) <==> Bare(h[r])
  {
    SerializedIff(h, JRef(r));
    hide Canonical, HeapOk;
    assert Read(h, JRef(r), 0, {}) == if h[r].Arr? then Ok(TArr([])) else Ok(TObj([]));
  }

  /** Inputs that show it: an object with one symbol-keyed property, an array with one property besides its elements, an
      instance of a class that extends arrays, and a map with the prototype of plain objects get the key of the empty
      object or the empty array. */
  lemma {:induction false} HiddenPropertiesAreDropped(secret: Js)
    ensures var h := [Plain([], [], false), Arr([], [], false), Arr([], [], false), Plain([], [], false)];
            var g := [Plain([], [secret], false), Arr([], [secret], false), Arr([], [], true), Plain([], [], true)];
            HeapOk(h) && HeapOk(g) &&
            forall r :: 0 <= r < 4 ==>
              Canonical(h, JRef(r)).Ok? && Canonical(h, JRef(r)) == Canonical(g, JRef(r)) &&
              StrictlyPlain(h, JRef(r), 0, {}) && !StrictlyPlain(g, JRef(r), 0, {})
  {
    hide Canonical, StrictlyPlain, Read, Print;
    var h := [Plain([], [], false), Arr([], [], false), Arr([], [], false), Plain([], [], false)];
    var g := [Plain([], [secret], false), Arr([], [secret], false), Arr([], [], true), Plain([], [], true)];
    forall r: nat | r < 4
      ensures Canonical(h, JRef(r)).Ok? && Canonical(h, JRef(r)) == Canonical(g, JRef(r))
      ensures StrictlyPlain(h, JRef(r), 0, {}) && !StrictlyPlain(g, JRef(r), 0, {})
    {
      EmptyObjects(h, r);
      EmptyObjects(g, r);
    }
  }
}
