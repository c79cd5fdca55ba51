/** The canonical serialization of JavaScript values: what it accepts, and that it is an exact key for them.

    A value lives in a heap of objects that may be shared or cyclic. */
module CanonicalJson {
  import opened JsonText
  import opened JsonTree

  const MAX_LENGTH: nat := 1_048_576
  const MAX_DEPTH: nat := 64

  /** A finite number stands for the text that `String` gives it; minus zero is printed like zero. */
  datatype Number = NotFinite | NegativeZero | Finite(literal: Text)

  datatype Js = JNull | JBool(b: bool) | JNum(n: Number) | JStr(text: Text) | JUndefined | JBigInt | JSymbol | JFunction | JRef(ref: nat)

  datatype Property = Property(key: Text, value: Js)

  /** `hidden` are the own properties that serialization never visits: of a plain object those that `Object.keys` does
      not list (symbol keys and non-enumerable ones), of an array all besides its elements. An `exotic` object passes for
      what it is not: an array that is an instance of a class of its own (whose prototype is not that of arrays), or an
      object with the prototype of plain ones that holds internal state (a map whose prototype was replaced, say). */
  datatype Object =
    | Arr(items: seq<Js>, hidden: seq<Js>, exotic: bool)
    | Plain(properties: seq<Property>, hidden: seq<Js>, exotic: bool)
    | DateObject
    | Instance

  type Heap = seq<Object>

  datatype Refusal = TooLong | TooDeep | NotFiniteNumber | UnsupportedType | Circular | DateValue | ClassInstance

  datatype Result<+T> = Ok(value: T) | Refused(why: Refusal)

  predicate JsOk(h: Heap, v: Js) {
    && (v.JRef? ==> v.ref < |h|)
    && (v.JNum? && v.n.Finite? ==> NumberText(v.n.literal))
  }

  predicate DistinctKeys(ps: seq<Property>) {
    forall i, j :: 0 <= i < j < |ps| ==> ps[i].key != ps[j].key
  }

  predicate ObjectOk(h: Heap, o: Object) {
    match o
    case Arr(items, _, _) => forall i :: 0 <= i < |items| ==> JsOk(h, items[i])
    case Plain(ps, _, _) => DistinctKeys(ps) && forall i :: 0 <= i < |ps| ==> JsOk(h, ps[i].value)
    case DateObject => true
    case Instance => true
  }

  /** What JavaScript guarantees of any heap: references lead somewhere, keys of an object are distinct. */
  predicate HeapOk(h: Heap) {
    forall r :: 0 <= r < |h| ==> ObjectOk(h, h[r])
  }

  // ---- keys in order ----

  predicate SortedKeys(ps: seq<Property>) {
    forall i, j :: 0 <= i < j < |ps| ==> Less(ps[i].key, ps[j].key)
  }

  function InsertProperty(p: Property, ps: seq<Property>): seq<Property> {
    if ps == [] then [p]
    else if Less(ps[0].key, p.key) then [ps[0]] + InsertProperty(p, ps[1..])
    else [p] + ps
  }

  function SortProperties(ps: seq<Property>): seq<Property> {
    if ps == [] then [] else InsertProperty(ps[0], SortProperties(ps[1..]))
  }

  lemma {:induction false} InsertKeeps(p: Property, ps: seq<Property>)
    ensures |InsertProperty(p, ps)| == |ps| + 1
    ensures forall q :: q in InsertProperty(p, ps) <==> q == p || q in ps
  {
    if ps != [] && Less(ps[0].key, p.key) {
      InsertKeeps(p, ps[1..]);
      assert ps == [ps[0]] + ps[1..];
    }
  }

  lemma {:induction false} InsertSorted(p: Property, ps: seq<Property>)
    requires SortedKeys(ps) && forall i :: 0 <= i < |ps| ==> ps[i].key != p.key
    ensures SortedKeys(InsertProperty(p, ps))
  {
    var r := InsertProperty(p, ps);
    if ps != [] {
      if Less(ps[0].key, p.key) {
        InsertSorted(p, ps[1..]);
        InsertKeeps(p, ps[1..]);
        var u := InsertProperty(p, ps[1..]);
        forall j | 0 <= j < |u| ensures Less(ps[0].key, u[j].key) {
          assert u[j] in u;
        }
      } else {
        LessTotal(ps[0].key, p.key);
        forall j | 0 <= j < |ps| ensures Less(p.key, ps[j].key) {
          if j > 0 {
            LessTransitive(p.key, ps[0].key, ps[j].key);
          }
        }
      }
    }
  }

  /** Sorting keeps the properties and puts their keys in strict order. */
  lemma {:induction false} SortPropertiesSorts(ps: seq<Property>)
    requires DistinctKeys(ps)
    ensures |SortProperties(ps)| == |ps| && SortedKeys(SortProperties(ps))
    ensures forall q :: q in SortProperties(ps) <==> q in ps
  {
    if ps != [] {
      SortPropertiesSorts(ps[1..]);
      var t := SortProperties(ps[1..]);
      forall i | 0 <= i < |t| ensures t[i].key != ps[0].key {
        assert t[i] in ps[1..];
      }
      InsertKeeps(ps[0], t);
      InsertSorted(ps[0], t);
      assert ps == [ps[0]] + ps[1..];
    }
  }

  // ---- the value as a tree ----

  function LiteralOf(n: Number): Text
    requires !n.NotFinite?
  {
    if n.NegativeZero? then [48] else n.literal
  }

  /** The tree a value stands for: keys sorted, minus zero read as zero; or the first reason to refuse it. */
  function Read(h: Heap, v: Js, depth: nat, seen: set<nat>): Result<Tree>
    requires HeapOk(h) && JsOk(h, v)
    decreases MAX_DEPTH + 1 - depth, 0
  {
    if depth > MAX_DEPTH then Refused(TooDeep)
    else
      match v
      case JNull => Ok(TNull)
      case JBool(b) => Ok(TBool(b))
      case JStr(text) => Ok(TStr(text))
      case JNum(n) => if n.NotFinite? then Refused(NotFiniteNumber) else Ok(TNum(LiteralOf(n)))
      case JUndefined => Refused(UnsupportedType)
      case JBigInt => Refused(UnsupportedType)
      case JSymbol => Refused(UnsupportedType)
      case JFunction => Refused(UnsupportedType)
      case JRef(r) =>
        if r in seen then Refused(Circular)
        else if h[r].DateObject? then Refused(DateValue)
        else if h[r].Instance? then Refused(ClassInstance)
        else if h[r].Arr? then
          var items := ReadItems(h, h[r].items, depth + 1, seen + {r});
          if items.Refused? then Refused(items.why) else Ok(TArr(items.value))
        else
          SortedOk(h, h[r].properties);
          var members := ReadMembers(h, SortProperties(h[r].properties), depth + 1, seen + {r});
          if members.Refused? then Refused(members.why) else Ok(TObj(members.value))
  }

  lemma {:induction false} SortedOk(h: Heap, ps: seq<Property>)
    requires DistinctKeys(ps) && forall i :: 0 <= i < |ps| ==> JsOk(h, ps[i].value)
    ensures forall i :: 0 <= i < |SortProperties(ps)| ==> JsOk(h, SortProperties(ps)[i].value)
  {
    SortPropertiesSorts(ps);
    var t := SortProperties(ps);
    forall i | 0 <= i < |t| ensures JsOk(h, t[i].value) {
      assert t[i] in t;
    }
  }

  function ReadItems(h: Heap, items: seq<Js>, depth: nat, seen: set<nat>): Result<seq<Tree>>
    requires HeapOk(h) && forall i :: 0 <= i < |items| ==> JsOk(h, items[i])
    decreases MAX_DEPTH + 1 - depth, 1 + |items|
  {
    if items == [] then Ok([])
    else
      var first := Read(h, items[0], depth, seen);
      if first.Refused? then Refused(first.why)
      else
        var rest := ReadItems(h, items[1..], depth, seen);
        if rest.Refused? then rest else Ok([first.value] + rest.value)
  }

  function ReadMembers(h: Heap, ps: seq<Property>, depth: nat, seen: set<nat>): Result<seq<Member>>
    requires HeapOk(h) && forall i :: 0 <= i < |ps| ==> JsOk(h, ps[i].value)
    decreases MAX_DEPTH + 1 - depth, 1 + |ps|
  {
    if ps == [] then Ok([])
    else
      var first := Read(h, ps[0].value, depth, seen);
      if first.Refused? then Refused(first.why)
      else
        var rest := ReadMembers(h, ps[1..], depth, seen);
        if rest.Refused? then rest else Ok([Member(ps[0].key, first.value)] + rest.value)
  }

  lemma {:induction false} ReadItemsAt(h: Heap, items: seq<Js>, depth: nat, seen: set<nat>)
    requires HeapOk(h) && (forall i :: 0 <= i < |items| ==> JsOk(h, items[i])) && ReadItems(h, items, depth, seen).Ok?
    ensures var ts := ReadItems(h, items, depth, seen).value;
            |ts| == |items| && forall i :: 0 <= i < |items| ==> Read(h, items[i], depth, seen) == Ok(ts[i])
  {
    hide Read;
    if items != [] {
      ReadItemsAt(h, items[1..], depth, seen);
    }
  }

  lemma {:induction false} ReadMembersAt(h: Heap, ps: seq<Property>, depth: nat, seen: set<nat>)
    requires HeapOk(h) && (forall i :: 0 <= i < |ps| ==> JsOk(h, ps[i].value)) && ReadMembers(h, ps, depth, seen).Ok?
    ensures var ms := ReadMembers(h, ps, depth, seen).value;
            |ms| == |ps| && forall i :: 0 <= i < |ps| ==> ms[i].key == ps[i].key && Read(h, ps[i].value, depth, seen) == Ok(ms[i].value)
  {
    hide Read;
    if ps != [] {
      ReadMembersAt(h, ps[1..], depth, seen);
    }
  }

  // ---- when two values are the same up to key order ----

  predicate SameNumber(a: Number, b: Number) {
    a == b || (a == NegativeZero && b == Finite([48])) || (a == Finite([48]) && b == NegativeZero)
  }

  predicate HasKey(ps: seq<Property>, key: Text) {
    exists i :: 0 <= i < |ps| && ps[i].key == key
  }

  /** Equality of JSON data: arrays element by element, objects key by key whatever the order, minus zero as zero. */
  ghost predicate SameValue(h: Heap, v: Js, g: Heap, w: Js, depth: nat)
    requires HeapOk(h) && JsOk(h, v) && HeapOk(g) && JsOk(g, w)
    decreases MAX_DEPTH + 1 - depth, 0
  {
    depth <= MAX_DEPTH &&
    if v.JNum? && w.JNum? then SameNumber(v.n, w.n)
    else if v.JRef? && w.JRef? then
      if h[v.ref].Arr? && g[w.ref].Arr? then SameItems(h, h[v.ref].items, g, g[w.ref].items, depth + 1)
      else h[v.ref].Plain? && g[w.ref].Plain? && SameProperties(h, h[v.ref].properties, g, g[w.ref].properties, depth + 1)
    else v == w && !v.JRef?
  }

  ghost predicate SameItems(h: Heap, a: seq<Js>, g: Heap, b: seq<Js>, depth: nat)
    requires HeapOk(h) && (forall i :: 0 <= i < |a| ==> JsOk(h, a[i])) && HeapOk(g) && forall i :: 0 <= i < |b| ==> JsOk(g, b[i])
    decreases MAX_DEPTH + 1 - depth, 1
  {
    |a| == |b| && forall i :: 0 <= i < |a| ==> SameValue(h, a[i], g, b[i], depth)
  }

  ghost predicate SameProperties(h: Heap, a: seq<Property>, g: Heap, b: seq<Property>, depth: nat)
    requires HeapOk(h) && (forall p :: p in a ==> JsOk(h, p.value)) && HeapOk(g) && forall p :: p in b ==> JsOk(g, p.value)
    decreases MAX_DEPTH + 1 - depth, 1
  {
    && (forall key :: HasKey(a, key) <==> HasKey(b, key))
    && forall p, q :: p in a && q in b && p.key == q.key ==> SameValue(h, p.value, g, q.value, depth)
  }

  lemma {:induction false} TailKeys(a: seq<Property>, key: Text)
    requires a != [] && SortedKeys(a)
    ensures HasKey(a[1..], key) <==> HasKey(a, key) && key != a[0].key
  {
    LessIrreflexive(key);
    if HasKey(a, key) && key != a[0].key {
      var i :| 0 <= i < |a| && a[i].key == key;
      assert a[1..][i - 1].key == key;
    }
  }

  /** Two strictly sorted lists with the same keys have them in the same places. */
  lemma {:induction false} SortedKeysAgree(a: seq<Property>, b: seq<Property>)
    requires SortedKeys(a) && SortedKeys(b) && forall key :: HasKey(a, key) <==> HasKey(b, key)
    ensures |a| == |b| && forall i :: 0 <= i < |a| ==> a[i].key == b[i].key
  {
    if a == [] || b == [] {
      if a != [] {
        assert HasKey(a, a[0].key);
      }
      if b != [] {
        assert HasKey(b, b[0].key);
      }
    } else {
      assert HasKey(a, a[0].key) && HasKey(b, b[0].key);
      FirstKeysAgree(a, b);
      forall key ensures HasKey(a[1..], key) <==> HasKey(b[1..], key) {
        TailKeys(a, key);
        TailKeys(b, key);
      }
      SortedKeysAgree(a[1..], b[1..]);
    }
  }

  lemma {:induction false} FirstKeysAgree(a: seq<Property>, b: seq<Property>)
    requires a != [] && b != [] && SortedKeys(a) && SortedKeys(b) && HasKey(a, b[0].key) && HasKey(b, a[0].key)
    ensures a[0].key == b[0].key
  {
    var i :| 0 <= i < |b| && b[i].key == a[0].key;
    var j :| 0 <= j < |a| && a[j].key == b[0].key;
    if i > 0 && j > 0 {
      LessTransitive(a[0].key, b[0].key, a[0].key);
      LessIrreflexive(a[0].key);
    }
  }

  lemma {:induction false} SortedHasKey(ps: seq<Property>, key: Text)
    requires DistinctKeys(ps)
    ensures HasKey(SortProperties(ps), key) <==> HasKey(ps, key)
  {
    SortPropertiesSorts(ps);
    var t := SortProperties(ps);
    if i :| 0 <= i < |t| && t[i].key == key {
      assert t[i] in ps;
    }
    if i :| 0 <= i < |ps| && ps[i].key == key {
      assert ps[i] in t;
    }
  }

  lemma {:induction false} ReadNumbersOk(h: Heap, v: Js, depth: nat, seen: set<nat>)
    requires HeapOk(h) && JsOk(h, v) && Read(h, v, depth, seen).Ok?
    ensures NumbersOk(Read(h, v, depth, seen).value)
    decreases MAX_DEPTH + 1 - depth
  {
    if v.JRef? {
      var o := h[v.ref];
      if o.Arr? {
        ReadItemsAt(h, o.items, depth + 1, seen + {v.ref});
        forall i | 0 <= i < |o.items| ensures NumbersOk(Read(h, v, depth, seen).value.items[i]) {
          ReadNumbersOk(h, o.items[i], depth + 1, seen + {v.ref});
        }
      } else {
        var ps := SortProperties(o.properties);
        SortedOk(h, o.properties);
        ReadMembersAt(h, ps, depth + 1, seen + {v.ref});
        forall i | 0 <= i < |ps| ensures NumbersOk(Read(h, v, depth, seen).value.members[i].value) {
          ReadNumbersOk(h, ps[i].value, depth + 1, seen + {v.ref});
        }
      }
    }
  }

  // ---- reading gives equal trees exactly to equal values ----

  predicate Accepted(h: Heap, v: Js, depth: nat, seen: set<nat>) {
    HeapOk(h) && JsOk(h, v) && Read(h, v, depth, seen).Ok?
  }

  lemma {:induction false} ItemsAgree(h: Heap, a: seq<Js>, s: set<nat>, g: Heap, b: seq<Js>, q: set<nat>, depth: nat)
    requires HeapOk(h) && (forall i :: 0 <= i < |a| ==> JsOk(h, a[i])) && ReadItems(h, a, depth, s).Ok?
    requires HeapOk(g) && (forall i :: 0 <= i < |b| ==> JsOk(g, b[i])) && ReadItems(g, b, depth, q).Ok?
    ensures ReadItems(h, a, depth, s).value == ReadItems(g, b, depth, q).value <==> SameItems(h, a, g, b, depth)
    decreases MAX_DEPTH + 1 - depth, 2
  {
    ReadItemsAt(h, a, depth, s);
    ReadItemsAt(g, b, depth, q);
    var ta, tb := ReadItems(h, a, depth, s).value, ReadItems(g, b, depth, q).value;
    hide Read, ReadItems, HeapOk, JsOk, SameValue;
    if |a| == |b| {
      forall i | 0 <= i < |a| ensures ta[i] == tb[i] <==> SameValue(h, a[i], g, b[i], depth) {
        TreesAgree(h, a[i], s, g, b[i], q, depth);
      }
    }
  }

  /** The members read from sorted properties are equal exactly when the properties are, key by key. */
  lemma {:induction false} MembersAgree(h: Heap, a: seq<Property>, s: set<nat>, g: Heap, b: seq<Property>, q: set<nat>, depth: nat)
    requires HeapOk(h) && SortedKeys(a) && (forall p :: p in a ==> JsOk(h, p.value)) && ReadMembers(h, a, depth, s).Ok?
    requires HeapOk(g) && SortedKeys(b) && (forall p :: p in b ==> JsOk(g, p.value)) && ReadMembers(g, b, depth, q).Ok?
    ensures ReadMembers(h, a, depth, s).value == ReadMembers(g, b, depth, q).value <==> SameProperties(h, a, g, b, depth)
    decreases MAX_DEPTH + 1 - depth, 2
  {
    ReadMembersAt(h, a, depth, s);
    ReadMembersAt(g, b, depth, q);
    var ma, mb := ReadMembers(h, a, depth, s).value, ReadMembers(g, b, depth, q).value;
    hide Read, ReadMembers, HeapOk, JsOk, SameValue, SortedKeys;
    forall i, j | 0 <= i < |a| && 0 <= j < |b|
      ensures ma[i].value == mb[j].value <==> SameValue(h, a[i].value, g, b[j].value, depth)
    {
      TreesAgree(h, a[i].value, s, g, b[j].value, q, depth);
    }
    if ma == mb {
      SameKeysByIndex(a, b);
      forall p, r | p in a && r in b && p.key == r.key ensures SameValue(h, p.value, g, r.value, depth) {
        var i :| 0 <= i < |a| && a[i] == p;
        var j :| 0 <= j < |b| && b[j] == r;
        SortedKeyOnce(b, i, j);
      }
    } else if SameProperties(h, a, g, b, depth) {
      SortedKeysAgree(a, b);
      forall i | 0 <= i < |a| ensures ma[i] == mb[i] {
        assert a[i] in a && b[i] in b;
      }
    }
  }

  lemma {:induction false} SameKeysByIndex(a: seq<Property>, b: seq<Property>)
    requires |a| == |b| && forall i :: 0 <= i < |a| ==> a[i].key == b[i].key
    ensures forall key :: HasKey(a, key) <==> HasKey(b, key)
  {
    forall key ensures HasKey(a, key) <==> HasKey(b, key) {
      if HasKey(a, key) {
        var i :| 0 <= i < |a| && a[i].key == key;
        assert b[i].key == key;
      }
      if HasKey(b, key) {
        var i :| 0 <= i < |b| && b[i].key == key;
        assert a[i].key == key;
      }
    }
  }

  lemma {:induction false} SortedKeyOnce(a: seq<Property>, i: nat, j: nat)
    requires SortedKeys(a) && i < |a| && j < |a| && a[i].key == a[j].key
    ensures i == j
  {
    LessIrreflexive(a[i].key);
  }

  /** The order of the properties does not matter to `SameProperties`. */
  lemma {:induction false} SamePropertiesSorted(h: Heap, a: seq<Property>, g: Heap, b: seq<Property>, depth: nat)
    requires HeapOk(h) && DistinctKeys(a) && (forall p :: p in a ==> JsOk(h, p.value))
    requires HeapOk(g) && DistinctKeys(b) && (forall p :: p in b ==> JsOk(g, p.value))
    requires forall p :: p in SortProperties(a) <==> p in a
    requires forall p :: p in SortProperties(b) <==> p in b
    ensures SameProperties(h, a, g, b, depth) <==> SameProperties(h, SortProperties(a), g, SortProperties(b), depth)
  {
    hide SortProperties, SameValue, HeapOk, JsOk, DistinctKeys;
    forall key ensures HasKey(SortProperties(a), key) <==> HasKey(a, key) {
      SortedHasKey(a, key);
    }
    forall key ensures HasKey(SortProperties(b), key) <==> HasKey(b, key) {
      SortedHasKey(b, key);
    }
  }

  lemma {:induction false} ObjectRead(h: Heap, v: Js, s: set<nat>, depth: nat)
    requires Accepted(h, v, depth, s) && v.JRef? && h[v.ref].Plain?
    ensures var ps := h[v.ref].properties;
            && DistinctKeys(ps) && (forall p :: p in ps ==> JsOk(h, p.value))
            && SortedKeys(SortProperties(ps)) && (forall p :: p in SortProperties(ps) <==> p in ps)
            && (forall i :: 0 <= i < |SortProperties(ps)| ==> JsOk(h, SortProperties(ps)[i].value))
            && ReadMembers(h, SortProperties(ps), depth + 1, s + {v.ref}).Ok?
            && Read(h, v, depth, s).value == TObj(ReadMembers(h, SortProperties(ps), depth + 1, s + {v.ref}).value)
  {
    assert ObjectOk(h, h[v.ref]);
    SortedOk(h, h[v.ref].properties);
    SortPropertiesSorts(h[v.ref].properties);
    hide SortProperties, ReadMembers, SortedKeys, DistinctKeys;
  }

  lemma {:induction false} ObjectsAgree(h: Heap, v: Js, s: set<nat>, g: Heap, w: Js, q: set<nat>, depth: nat)
    requires Accepted(h, v, depth, s) && Accepted(g, w, depth, q) && v.JRef? && w.JRef? && h[v.ref].Plain? && g[w.ref].Plain?
    ensures Read(h, v, depth, s).value == Read(g, w, depth, q).value <==> SameValue(h, v, g, w, depth)
    decreases MAX_DEPTH + 1 - depth, 0
  {
    hide SortProperties, ReadMembers, SameProperties, SortedKeys, DistinctKeys;
    ObjectRead(h, v, s, depth);
    ObjectRead(g, w, q, depth);
    var a, b := h[v.ref].properties, g[w.ref].properties;
    assert depth <= MAX_DEPTH;
    hide Read, HeapOk, JsOk;
    MembersAgree(h, SortProperties(a), s + {v.ref}, g, SortProperties(b), q + {w.ref}, depth + 1);
    SamePropertiesSorted(h, a, g, b, depth + 1);
  }

  lemma {:induction false} TreesAgree(h: Heap, v: Js, s: set<nat>, g: Heap, w: Js, q: set<nat>, depth: nat)
    requires Accepted(h, v, depth, s) && Accepted(g, w, depth, q)
    ensures Read(h, v, depth, s).value == Read(g, w, depth, q).value <==> SameValue(h, v, g, w, depth)
    decreases MAX_DEPTH + 1 - depth, 1
  {
    hide ReadItems, ReadMembers, SameItems, SameProperties, SortProperties;
    if v.JRef? && w.JRef? {
      assert ObjectOk(h, h[v.ref]) && ObjectOk(g, g[w.ref]);
      if h[v.ref].Arr? && g[w.ref].Arr? {
        ItemsAgree(h, h[v.ref].items, s + {v.ref}, g, g[w.ref].items, q + {w.ref}, depth + 1);
      } else if h[v.ref].Plain? && g[w.ref].Plain? {
        ObjectsAgree(h, v, s, g, w, q, depth);
      }
    }
  }
}
