/** `select ... order by key nulls first, minor, id limit n`: the ordered scans of the background workers. */
module OrderedQuery {

  datatype Key = Null | At(value: int)

  datatype Item = Item(id: nat, key: Key, minor: int)

  predicate Below(a: Key, b: Key) {
    b.At? && (a.At? ==> a.value < b.value)
  }

  predicate Before(a: Item, b: Item) {
    Below(a.key, b.key) || (a.key == b.key && (a.minor < b.minor || (a.minor == b.minor && a.id <= b.id)))
  }

  predicate Sorted(s: seq<Item>) {
    forall i :: 0 < i < |s| ==> Before(s[i - 1], s[i])
  }

  function Insert(x: Item, s: seq<Item>): seq<Item> {
    if s == [] then [x]
    else if Before(x, s[0]) then [x] + s
    else [s[0]] + Insert(x, s[1..])
  }

  function Order(s: seq<Item>): seq<Item> {
    if s == [] then [] else Insert(s[0], Order(s[1..]))
  }

  lemma {:induction false} InsertKeepsRows(x: Item, s: seq<Item>)
    ensures multiset(Insert(x, s)) == multiset(s) + multiset{x} && |Insert(x, s)| == |s| + 1
  {
    if s != [] && !Before(x, s[0]) {
      InsertKeepsRows(x, s[1..]);
      assert s == [s[0]] + s[1..];
    }
  }

  lemma {:induction false} InsertSorts(x: Item, s: seq<Item>)
    requires Sorted(s)
    ensures Sorted(Insert(x, s))
    ensures Insert(x, s)[0] == x || (s != [] && Insert(x, s)[0] == s[0])
  {
    if s != [] && !Before(x, s[0]) {
      var t := s[1..];
      assert forall i :: 0 < i < |t| ==> t[i - 1] == s[i] && t[i] == s[i + 1];
      InsertSorts(x, t);
      var u := Insert(x, t);
      var r := [s[0]] + u;
      assert Before(s[0], u[0]);
      forall i | 0 < i < |r| ensures Before(r[i - 1], r[i]) {
        assert r[i] == u[i - 1];
      }
    }
  }

  /** `order by` returns the same rows, sorted. */
  lemma {:induction false} OrderIsOrdered(s: seq<Item>)
    ensures multiset(Order(s)) == multiset(s)
    ensures Sorted(Order(s))
    ensures |Order(s)| == |s|
  {
    if s != [] {
      OrderIsOrdered(s[1..]);
      InsertKeepsRows(s[0], Order(s[1..]));
      InsertSorts(s[0], Order(s[1..]));
      hide Insert, Sorted;
      assert s == [s[0]] + s[1..];
    }
  }

  /** The ids of the first `limit` rows in order. */
  function FirstIds(s: seq<Item>, limit: nat): seq<nat> {
    var o := Order(s);
    var n := if |o| <= limit then |o| else limit;
    seq(n, i requires 0 <= i < n => o[i].id)
  }

  predicate DistinctIds(s: seq<Item>) {
    forall i, j :: 0 <= i < j < |s| ==> s[i].id != s[j].id
  }

  predicate Distinct(s: seq<nat>) {
    forall i, j :: 0 <= i < j < |s| ==> s[i] != s[j]
  }

  function IdSet(s: seq<Item>): set<nat> {
    set x | x in s :: x.id
  }

  lemma {:induction false} InsertIds(x: Item, s: seq<Item>)
    requires DistinctIds(s)
    requires forall i :: 0 <= i < |s| ==> s[i].id != x.id
    ensures DistinctIds(Insert(x, s))
    ensures forall y :: y in Insert(x, s) <==> y == x || y in s
  {
    if s != [] && !Before(x, s[0]) {
      InsertIds(x, s[1..]);
      var u := Insert(x, s[1..]);
      forall i | 0 <= i < |u| ensures u[i].id != s[0].id {
        assert u[i] in u;
      }
      assert s == [s[0]] + s[1..];
    }
  }

  lemma {:induction false} OrderIds(s: seq<Item>)
    requires DistinctIds(s)
    ensures DistinctIds(Order(s))
    ensures forall y :: y in Order(s) <==> y in s
  {
    if s != [] {
      OrderIds(s[1..]);
      var t := Order(s[1..]);
      forall i | 0 <= i < |t| ensures t[i].id != s[0].id {
        assert t[i] in s[1..];
      }
      InsertIds(s[0], t);
      assert s == [s[0]] + s[1..];
    }
  }

  /** A limited scan returns ids of input rows, each once, as many as the limit allows. */
  lemma {:induction false} FirstIdsSound(s: seq<Item>, limit: nat)
    requires DistinctIds(s)
    ensures |FirstIds(s, limit)| == if |s| <= limit then |s| else limit
    ensures Distinct(FirstIds(s, limit))
    ensures forall i :: 0 <= i < |FirstIds(s, limit)| ==> FirstIds(s, limit)[i] in IdSet(s)
  {
    OrderIsOrdered(s);
    OrderIds(s);
    var o := Order(s);
    forall i | 0 <= i < |FirstIds(s, limit)| ensures FirstIds(s, limit)[i] in IdSet(s) {
      assert o[i] in s;
    }
  }

  lemma {:induction false} SortedPairs(s: seq<Item>, i: nat, j: nat)
    requires Sorted(s) && i <= j < |s|
    ensures Before(s[i], s[j])
  {
    if i < j {
      SortedPairs(s, i, j - 1);
    }
  }

  /** What a limited scan leaves out comes no earlier than anything it returned. */
  lemma {:induction false} FirstIdsAreFirst(s: seq<Item>, limit: nat, id: nat, y: Item)
    requires DistinctIds(s) && id in FirstIds(s, limit) && y in s && y.id !in FirstIds(s, limit)
    ensures exists x :: x in s && x.id == id && Before(x, y)
  {
    OrderIsOrdered(s);
    OrderIds(s);
    var o, first := Order(s), FirstIds(s, limit);
    var i :| 0 <= i < |first| && first[i] == id;
    assert y in o;
    var j :| 0 <= j < |o| && o[j] == y;
    assert forall m :: 0 <= m < |first| ==> first[m] == o[m].id && first[m] in first;
    SortedPairs(o, i, j);
    assert o[i] in s;
  }

  function Members(s: seq<nat>): set<nat> {
    set x | x in s
  }

  lemma {:induction false} DistinctCount(s: seq<nat>)
    requires Distinct(s)
    ensures |Members(s)| == |s|
  {
    if s != [] {
      var init, last := s[..|s| - 1], s[|s| - 1];
      DistinctCount(init);
      assert last !in init;
      assert Members(s) == Members(init) + {last};
    }
  }

  /** A scan within its limit returns every row. */
  lemma {:induction false} ShortScan(s: seq<Item>, limit: nat, y: Item)
    requires DistinctIds(s) && |s| <= limit && y in s
    ensures y.id in FirstIds(s, limit)
  {
    OrderIsOrdered(s);
    OrderIds(s);
    assert y in Order(s);
    var j :| 0 <= j < |Order(s)| && Order(s)[j] == y;
    assert FirstIds(s, limit)[j] == y.id;
  }
}
