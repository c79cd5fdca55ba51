/** Cursor pages: `where id < cursor order by id desc limit n + 1`, over a table that gains rows between the pages. */
module Paging {

  datatype Cursor = First | Before(id: nat)

  datatype Row<T> = Row(id: nat, value: T)

  /** `next` is `First` when there is no further page. */
  datatype Page<T> = Page(items: seq<Row<T>>, next: Cursor)

  predicate Admits(c: Cursor, id: nat) {
    c.First? || id < c.id
  }

  ghost predicate Increasing<T>(rows: seq<Row<T>>) {
    forall i, j :: 0 <= i < j < |rows| ==> rows[i].id < rows[j].id
  }

  /** The rows behind a cursor, newest first, at most `n` of them. */
  function Newest<T>(rows: seq<Row<T>>, c: Cursor, n: nat): (r: seq<Row<T>>)
    ensures |r| <= n
  {
    if rows == [] || n == 0 then []
    else
      var last := |rows| - 1;
      if Admits(c, rows[last].id) then [rows[last]] + Newest(rows[..last], c, n - 1) else Newest(rows[..last], c, n)
  }

  /** One page: one row more than the limit is fetched to see whether another page follows. */
  function Fetch<T>(rows: seq<Row<T>>, c: Cursor, limit: nat): Page<T>
    requires limit >= 1
  {
    var fetched := Newest(rows, c, limit + 1);
    if |fetched| > limit then Page(fetched[..limit], Before(fetched[limit - 1].id)) else Page(fetched, First)
  }

  /** What a reader collects by following the cursor, each page being read from its own snapshot of the table. */
  datatype Reading<T> = Reading(items: seq<Row<T>>, finished: bool)

  function Follow<T>(snapshots: seq<seq<Row<T>>>, limits: seq<nat>, c: Cursor): Reading<T>
    requires |limits| == |snapshots| && forall i :: 0 <= i < |limits| ==> limits[i] >= 1
  {
    if snapshots == [] then Reading([], false)
    else
      var page := Fetch(snapshots[0], c, limits[0]);
      if page.next.First? then Reading(page.items, true)
      else
        var rest := Follow(snapshots[1..], limits[1..], page.next);
        Reading(page.items + rest.items, rest.finished)
  }

  function Reversed<T>(rows: seq<Row<T>>): (r: seq<Row<T>>)
    ensures |r| == |rows|
  {
    if rows == [] then [] else [rows[|rows| - 1]] + Reversed(rows[..|rows| - 1])
  }

  /** Between two pages a table may only gain rows, and only with larger ids. */
  ghost predicate Extends<T>(rows: seq<Row<T>>, more: seq<Row<T>>) {
    |rows| <= |more| && rows == more[..|rows|] && Increasing(more)
  }

  ghost predicate Growing<T>(snapshots: seq<seq<Row<T>>>) {
    (forall i :: 0 <= i < |snapshots| ==> Increasing(snapshots[i])) &&
    forall i :: 0 < i < |snapshots| ==> Extends(snapshots[i - 1], snapshots[i])
  }

  // ---- one page ----

  /** How many rows lie behind the cursor; on increasing ids they are a prefix of the table. */
  function Behind<T>(rows: seq<Row<T>>, c: Cursor): (n: nat)
    ensures n <= |rows|
  {
    if rows == [] then 0
    else if Admits(c, rows[|rows| - 1].id) then |rows|
    else Behind(rows[..|rows| - 1], c)
  }

  lemma {:induction false} ReversedAt<T>(rows: seq<Row<T>>, i: nat)
    requires i < |rows|
    ensures Reversed(rows)[i] == rows[|rows| - 1 - i]
  {
    if i > 0 {
      ReversedAt(rows[..|rows| - 1], i - 1);
    } else if |rows| > 1 {
      ReversedAt(rows[..|rows| - 1], 0);
    }
  }

  lemma {:induction false} NewestAll<T>(rows: seq<Row<T>>, c: Cursor, n: nat)
    requires Increasing(rows) && (rows == [] || Admits(c, rows[|rows| - 1].id))
    ensures Newest(rows, c, n) == if |rows| <= n then Reversed(rows) else Reversed(rows)[..n]
  {
    if rows != [] && n > 0 {
      var init, last := rows[..|rows| - 1], rows[|rows| - 1];
      assert init != [] ==> init[|init| - 1].id < last.id;
      NewestAll(init, c, n - 1);
      assert Newest(rows, c, n) == [last] + Newest(init, c, n - 1) && Reversed(rows) == [last] + Reversed(init);
      hide Newest, Reversed, Increasing;
      if |init| > n - 1 {
        TakeCons(last, Reversed(init), n);
      }
    }
  }

  lemma {:induction false} TakeCons<T>(x: T, s: seq<T>, n: nat)
    requires 0 < n <= |s|
    ensures ([x] + s)[..n] == [x] + s[..n - 1]
  {
  }

  lemma {:induction false} NewestIsBehind<T>(rows: seq<Row<T>>, c: Cursor, n: nat)
    requires Increasing(rows)
    ensures Newest(rows, c, n) ==
            var r := Reversed(rows[..Behind(rows, c)]); if |r| <= n then r else r[..n]
  {
    if rows != [] {
      if Admits(c, rows[|rows| - 1].id) {
        assert rows[..|rows|] == rows;
        NewestAll(rows, c, n);
      } else {
        NewestIsBehind(rows[..|rows| - 1], c, n);
        assert rows[..|rows| - 1][..Behind(rows, c)] == rows[..Behind(rows, c)];
      }
    }
  }

  lemma {:induction false} Regroup<T>(a: seq<T>, b: seq<T>, c: seq<T>)
    ensures a + (b + c) == (a + b) + c
  {
  }

  lemma {:induction false} ReversedConcat<T>(a: seq<Row<T>>, b: seq<Row<T>>)
    ensures Reversed(a + b) == Reversed(b) + Reversed(a)
  {
    if b == [] {
      assert a + b == a;
    } else {
      var init, last := b[..|b| - 1], b[|b| - 1];
      ReversedConcat(a, init);
      assert (a + b)[..|a + b| - 1] == a + init;
      Regroup([last], Reversed(init), Reversed(a));
    }
  }

  /** Splitting a reversed prefix: the newest rows first, then the rest. */
  lemma {:induction false} ReversedSplit<T>(rows: seq<Row<T>>, n: nat)
    requires n <= |rows|
    ensures Reversed(rows) == Reversed(rows[|rows| - n..]) + Reversed(rows[..|rows| - n])
  {
    hide Reversed;
    ReversedConcat(rows[..|rows| - n], rows[|rows| - n..]);
    assert rows == rows[..|rows| - n] + rows[|rows| - n..];
  }

  lemma {:induction false} StretchSplit<T>(rows: seq<Row<T>>, n: nat, limit: nat)
    requires limit <= n <= |rows|
    ensures Reversed(rows[..n]) == Reversed(rows[n - limit..n]) + Reversed(rows[..n - limit])
  {
    ReversedSplit(rows[..n], limit);
    assert rows[..n][n - limit..] == rows[n - limit..n] && rows[..n][..n - limit] == rows[..n - limit];
  }

  lemma {:induction false} BehindRow<T>(rows: seq<Row<T>>, j: nat)
    requires Increasing(rows) && j < |rows|
    ensures Behind(rows, Before(rows[j].id)) == j
  {
    if j < |rows| - 1 {
      BehindRow(rows[..|rows| - 1], j);
    } else {
      var init := rows[..j];
      if init != [] {
        assert rows[j - 1].id < rows[j].id;
      }
    }
  }

  lemma {:induction false} TakeTake<T>(r: seq<Row<T>>, n: nat)
    requires 1 <= n < |r|
    ensures r[..n + 1][..n] == r[..n] && r[..n + 1][n - 1] == r[n - 1]
  {
  }

  /** The probe row decides whether there is a next page, and is itself left for it. */
  lemma {:induction false} FetchOfBehind<T>(rows: seq<Row<T>>, c: Cursor, limit: nat)
    requires Increasing(rows) && limit >= 1
    ensures var r := Reversed(rows[..Behind(rows, c)]);
            Fetch(rows, c, limit) == if |r| <= limit then Page(r, First) else Page(r[..limit], Before(r[limit - 1].id))
  {
    hide Behind, Newest, Increasing, Reversed;
    NewestIsBehind(rows, c, limit + 1);
    var r := Reversed(rows[..Behind(rows, c)]);
    if limit < |r| {
      TakeTake(r, limit);
    }
  }

  /** A page is the next stretch of the reversed table, and its cursor stands exactly at its last row. */
  lemma {:induction false} PageIsNextStretch<T>(rows: seq<Row<T>>, c: Cursor, limit: nat)
    requires Increasing(rows) && limit >= 1
    ensures var n, page := Behind(rows, c), Fetch(rows, c, limit);
            if n <= limit then page == Page(Reversed(rows[..n]), First)
            else page.items == Reversed(rows[n - limit..n]) && page.next == Before(rows[n - limit].id) && |page.items| == limit
  {
    hide Behind, Fetch, Increasing, Reversed;
    var n := Behind(rows, c);
    FetchOfBehind(rows, c, limit);
    if n > limit {
      StretchSplit(rows, n, limit);
      ReversedAt(rows[..n], limit - 1);
    }
  }

  // ---- following the cursor ----

  lemma {:induction false} ExtendedBehind<T>(rows: seq<Row<T>>, more: seq<Row<T>>, j: nat)
    requires Increasing(rows) && Extends(rows, more) && j < |rows|
    ensures Behind(more, Before(rows[j].id)) == j && more[..j] == rows[..j]
  {
    assert more[j] == rows[j];
    BehindRow(more, j);
  }

  lemma {:induction false} GrowingTail<T>(snapshots: seq<seq<Row<T>>>)
    requires Growing(snapshots) && |snapshots| > 1
    ensures Growing(snapshots[1..]) && Extends(snapshots[0], snapshots[1..][0])
  {
    var tail := snapshots[1..];
    forall i | 0 < i < |tail| ensures Extends(tail[i - 1], tail[i]) {
      assert Extends(snapshots[i], snapshots[i + 1]);
    }
    assert Extends(snapshots[0], snapshots[1]);
  }

  lemma {:induction false} FirstIncreasing<T>(snapshots: seq<seq<Row<T>>>)
    requires Growing(snapshots) && snapshots != []
    ensures Increasing(snapshots[0])
  {
  }

  /** Whatever grows meanwhile, the pages list the rows that were behind the cursor at the start: each once, newest
      first, and they end after them. */
  lemma {:induction false} FollowIsExact<T>(snapshots: seq<seq<Row<T>>>, limits: seq<nat>, c: Cursor)
    requires |limits| == |snapshots| > 0 && forall i :: 0 <= i < |limits| ==> limits[i] >= 1
    requires Growing(snapshots)
    ensures var all := Reversed(snapshots[0][..Behind(snapshots[0], c)]);
            var reading := Follow(snapshots, limits, c);
            && reading.items <= all
            && (reading.finished ==> reading.items == all)
            && (Behind(snapshots[0], c) <= |snapshots| ==> reading.finished)
    decreases |snapshots|
  {
    hide Fetch, Growing, Extends, Increasing, Behind, Reversed;
    assert Increasing(snapshots[0]) by {
      FirstIncreasing(snapshots);
    }
    var rows, limit := snapshots[0], limits[0];
    var n := Behind(rows, c);
    PageIsNextStretch(rows, c, limit);
    if n > limit {
      var page := Fetch(rows, c, limit);
      StretchSplit(rows, n, limit);
      if |snapshots| > 1 {
        var tail := snapshots[1..];
        GrowingTail(snapshots);
        ExtendedBehind(rows, tail[0], n - limit);
        FollowIsExact(tail, limits[1..], page.next);
      } else {
        assert Follow(snapshots[1..], limits[1..], page.next).items == [];
      }
    }
  }

  // ---- tables that gain rows anywhere ----

  predicate Gains<T(==)>(rows: seq<Row<T>>, more: seq<Row<T>>) {
    forall i :: 0 <= i < |rows| ==> rows[i] in more
  }

  /** Between two pages a table only gains rows, of whatever id: one that was drawn early may become visible late. */
  ghost predicate Gaining<T>(snapshots: seq<seq<Row<T>>>) {
    && (forall i :: 0 <= i < |snapshots| ==> Increasing(snapshots[i]))
    && forall i :: 0 < i < |snapshots| ==> Gains(snapshots[i - 1], snapshots[i])
  }

  ghost predicate Descending<T>(rows: seq<Row<T>>) {
    forall i, j :: 0 <= i < j < |rows| ==> rows[j].id < rows[i].id
  }

  lemma {:induction false} AdmittedIsBehind<T>(rows: seq<Row<T>>, c: Cursor, j: nat)
    requires Increasing(rows) && j < |rows|
    ensures Admits(c, rows[j].id) <==> j < Behind(rows, c)
  {
    var last := |rows| - 1;
    if j < last {
      assert rows[j].id < rows[last].id;
      if !Admits(c, rows[last].id) {
        AdmittedIsBehind(rows[..last], c, j);
      }
    }
  }

  lemma {:induction false} ReversedDescends<T>(rows: seq<Row<T>>)
    requires Increasing(rows)
    ensures Descending(Reversed(rows))
  {
    var r := Reversed(rows);
    forall i, j | 0 <= i < j < |r| ensures r[j].id < r[i].id {
      ReversedAt(rows, i);
      ReversedAt(rows, j);
    }
  }

  lemma {:induction false} ReversedHas<T>(rows: seq<Row<T>>, r: Row<T>)
    ensures r in Reversed(rows) <==> r in rows
  {
    if r in rows {
      var i :| 0 <= i < |rows| && rows[i] == r;
      ReversedAt(rows, |rows| - 1 - i);
    }
    if r in Reversed(rows) {
      var i :| 0 <= i < |rows| && Reversed(rows)[i] == r;
      ReversedAt(rows, i);
    }
  }

  /** Where a page starts and stops in the table. */
  function PageStart<T>(rows: seq<Row<T>>, c: Cursor, limit: nat): (from: nat)
    ensures from <= Behind(rows, c)
  {
    if Behind(rows, c) <= limit then 0 else Behind(rows, c) - limit
  }

  lemma {:induction false} PageIsRange<T>(rows: seq<Row<T>>, c: Cursor, limit: nat)
    requires Increasing(rows) && limit >= 1
    ensures var n, from, page := Behind(rows, c), PageStart(rows, c, limit), Fetch(rows, c, limit);
            && page.items == Reversed(rows[from..n])
            && page.next == if n <= limit then First else Before(rows[from].id)
  {
    hide Fetch, Behind, Reversed, Increasing;
    PageIsNextStretch(rows, c, limit);
    assert rows[0..Behind(rows, c)] == rows[..Behind(rows, c)];
  }

  lemma {:induction false} IdOrder<T>(rows: seq<Row<T>>, i: nat, j: nat)
    requires Increasing(rows) && i < |rows| && j < |rows|
    ensures rows[i].id <= rows[j].id <==> i <= j
  {
  }

  lemma {:induction false} SliceHas<T>(rows: seq<Row<T>>, from: nat, n: nat, j: nat)
    requires Increasing(rows) && from <= n <= |rows| && j < |rows|
    ensures rows[j] in rows[from..n] <==> from <= j < n
  {
    if from <= j < n {
      assert rows[from..n][j - from] == rows[j];
    }
    if rows[j] in rows[from..n] {
      var i :| 0 <= i < n - from && rows[from..n][i] == rows[j];
      IdOrder(rows, from + i, j);
      IdOrder(rows, j, from + i);
    }
  }

  /** A page lists exactly the rows between its cursor and the next one. */
  lemma {:induction false} PageHas<T>(rows: seq<Row<T>>, c: Cursor, limit: nat, r: Row<T>)
    requires Increasing(rows) && limit >= 1
    ensures var page := Fetch(rows, c, limit);
            r in page.items <==> r in rows && Admits(c, r.id) && (page.next.First? || r.id >= page.next.id)
  {
    hide Fetch, Behind, Reversed, Increasing, Admits;
    var n, from := Behind(rows, c), PageStart(rows, c, limit);
    PageIsRange(rows, c, limit);
    ReversedHas(rows[from..n], r);
    if r in rows {
      var j :| 0 <= j < |rows| && rows[j] == r;
      AdmittedIsBehind(rows, c, j);
      SliceHas(rows, from, n, j);
      if n > limit {
        IdOrder(rows, from, j);
      }
    }
  }

  /** A page descends, stays behind its cursor, and ends at the next one. */
  lemma {:induction false} PageDescends<T>(rows: seq<Row<T>>, c: Cursor, limit: nat)
    requires Increasing(rows) && limit >= 1
    ensures var page := Fetch(rows, c, limit);
            && Descending(page.items)
            && (page.next.Before? ==> Admits(c, page.next.id) && exists r :: r in rows && r.id == page.next.id)
  {
    hide Fetch, Behind, Reversed, Admits, Descending;
    var n, from := Behind(rows, c), PageStart(rows, c, limit);
    PageIsRange(rows, c, limit);
    ReversedDescends(rows[from..n]);
    if n > limit {
      AdmittedIsBehind(rows, c, from);
      assert rows[from] in rows;
    }
  }

  /** The page that a row of this id is listed on, if it is visible by then: the first that ends at or below the id. */
  function PageOf<T>(snapshots: seq<seq<Row<T>>>, limits: seq<nat>, c: Cursor, id: nat): (k: nat)
    requires |limits| == |snapshots| && forall i :: 0 <= i < |limits| ==> limits[i] >= 1
    ensures k <= |snapshots|
  {
    if snapshots == [] then 0
    else
      var next := Fetch(snapshots[0], c, limits[0]).next;
      if next.First? || id >= next.id then 0 else 1 + PageOf(snapshots[1..], limits[1..], next, id)
  }

  /** A reading lists exactly the rows that are visible when their page is read. */
  lemma {:induction false} FollowHas<T>(snapshots: seq<seq<Row<T>>>, limits: seq<nat>, c: Cursor, r: Row<T>)
    requires |limits| == |snapshots| && forall i :: 0 <= i < |limits| ==> limits[i] >= 1
    requires forall i :: 0 <= i < |snapshots| ==> Increasing(snapshots[i])
    ensures var k, reading := PageOf(snapshots, limits, c, r.id), Follow(snapshots, limits, c);
            && (r in reading.items <==> Admits(c, r.id) && k < |snapshots| && r in snapshots[k])
            && (reading.finished ==> k < |snapshots|)
  {
    hide Fetch, Increasing;
    if snapshots != [] {
      var page := Fetch(snapshots[0], c, limits[0]);
      PageHas(snapshots[0], c, limits[0], r);
      PageDescends(snapshots[0], c, limits[0]);
      if page.next.Before? {
        FollowHas(snapshots[1..], limits[1..], page.next, r);
      }
    }
  }

  /** No row is listed twice, and every row comes after those of larger ids. */
  lemma {:induction false} FollowDescends<T>(snapshots: seq<seq<Row<T>>>, limits: seq<nat>, c: Cursor)
    requires |limits| == |snapshots| && forall i :: 0 <= i < |limits| ==> limits[i] >= 1
    requires forall i :: 0 <= i < |snapshots| ==> Increasing(snapshots[i])
    ensures Descending(Follow(snapshots, limits, c).items)
  {
    hide Fetch, Increasing;
    if snapshots != [] {
      var page := Fetch(snapshots[0], c, limits[0]);
      PageDescends(snapshots[0], c, limits[0]);
      if page.next.Before? {
        var tail := snapshots[1..];
        FollowDescends(tail, limits[1..], page.next);
        var rest := Follow(tail, limits[1..], page.next).items;
        forall i, j | 0 <= i < |page.items| && 0 <= j < |rest| ensures rest[j].id < page.items[i].id {
          assert page.items[i] in page.items && rest[j] in rest;
          PageHas(snapshots[0], c, limits[0], page.items[i]);
          FollowHas(tail, limits[1..], page.next, rest[j]);
        }
        JoinDescends(page.items, rest);
      }
    }
  }

  lemma {:induction false} JoinDescends<T>(a: seq<Row<T>>, b: seq<Row<T>>)
    requires Descending(a) && Descending(b)
    requires forall i, j :: 0 <= i < |a| && 0 <= j < |b| ==> b[j].id < a[i].id
    ensures Descending(a + b)
  {
  }

  lemma {:induction false} SeenLater<T>(snapshots: seq<seq<Row<T>>>, i: nat, k: nat, r: Row<T>)
    requires Gaining(snapshots) && i <= k < |snapshots| && r in snapshots[i]
    ensures r in snapshots[k]
  {
    if i < k {
      SeenLater(snapshots, i, k - 1, r);
      assert Gains(snapshots[k - 1], snapshots[k]);
    }
  }

  lemma {:induction false} GainingTail<T>(snapshots: seq<seq<Row<T>>>)
    requires Gaining(snapshots) && snapshots != []
    ensures Gaining(snapshots[1..])
  {
    var tail := snapshots[1..];
    forall i | 0 < i < |tail| ensures Gains(tail[i - 1], tail[i]) {
      assert Gains(snapshots[i], snapshots[i + 1]);
    }
  }

  /** A reading ends once it has as many pages as the last table has rows behind the cursor. */
  lemma {:induction false} FollowEnds<T>(snapshots: seq<seq<Row<T>>>, limits: seq<nat>, c: Cursor)
    requires |limits| == |snapshots| > 0 && forall i :: 0 <= i < |limits| ==> limits[i] >= 1
    requires Gaining(snapshots) && Behind(snapshots[|snapshots| - 1], c) <= |snapshots|
    ensures Follow(snapshots, limits, c).finished
  {
    hide Fetch, Reversed, Behind, Increasing, Admits;
    var rows, last := snapshots[0], snapshots[|snapshots| - 1];
    var page := Fetch(rows, c, limits[0]);
    PageIsRange(rows, c, limits[0]);
    if page.next.Before? {
      PageDescends(rows, c, limits[0]);
      var r :| r in rows && r.id == page.next.id;
      SeenLater(snapshots, 0, |snapshots| - 1, r);
      var j :| 0 <= j < |last| && last[j] == r;
      BehindRow(last, j);
      AdmittedIsBehind(last, c, j);
      GainingTail(snapshots);
      FollowEnds(snapshots[1..], limits[1..], page.next);
    }
  }

  /** Over tables that gain rows of any id: the rows of the first table are all listed by a reading that has ended, and
      any other row that is listed has become visible since. */
  lemma {:induction false} FollowGaining<T>(snapshots: seq<seq<Row<T>>>, limits: seq<nat>, c: Cursor, r: Row<T>)
    requires |limits| == |snapshots| > 0 && forall i :: 0 <= i < |limits| ==> limits[i] >= 1
    requires Gaining(snapshots)
    ensures var reading := Follow(snapshots, limits, c);
            && (reading.finished && r in snapshots[0] && Admits(c, r.id) ==> r in reading.items)
            && (r in reading.items && r !in snapshots[0] ==>
                  exists j :: 0 < j < |snapshots| && r !in snapshots[j - 1] && r in snapshots[j])
  {
    hide Follow, PageOf, Increasing;
    FollowHas(snapshots, limits, c, r);
    var k := PageOf(snapshots, limits, c, r.id);
    if k < |snapshots| {
      if r in snapshots[0] {
        SeenLater(snapshots, 0, k, r);
      } else if r in snapshots[k] {
        Appears(snapshots, k, r);
      }
    }
  }

  lemma {:induction false} Appears<T>(snapshots: seq<seq<Row<T>>>, k: nat, r: Row<T>)
    requires k < |snapshots| && r in snapshots[k] && r !in snapshots[0]
    ensures exists j :: 0 < j <= k && r !in snapshots[j - 1] && r in snapshots[j]
  {
    if r in snapshots[k - 1] {
      Appears(snapshots, k - 1, r);
    }
  }

  /** The four rows of the example, and where a page of one stops in them. */
  lemma {:induction false} PagesOfOne<T>(v: T)
    ensures Fetch([Row(1, v), Row(3, v)], First, 1) == Page([Row(3, v)], Before(3))
    ensures var rows := [Row(1, v), Row(2, v), Row(3, v), Row(4, v)];
            Fetch(rows, Before(3), 1) == Page([Row(2, v)], Before(2)) && Fetch(rows, Before(2), 1) == Page([Row(1, v)], First)
  {
    var a, b := [Row(1, v), Row(3, v)], [Row(1, v), Row(2, v), Row(3, v), Row(4, v)];
    assert a[..1] == [Row(1, v)] && b[..3] == [Row(1, v), Row(2, v), Row(3, v)] && b[..3][..2] == [Row(1, v), Row(2, v)];
    assert [Row(1, v), Row(2, v)][..1] == [Row(1, v)];
    assert Newest([Row(1, v)], First, 1) == [Row(1, v)] && Newest(a, First, 2) == [Row(3, v), Row(1, v)];
    assert Newest([Row(1, v)], Before(3), 1) == [Row(1, v)] && Newest(b[..3][..2], Before(3), 2) == [Row(2, v), Row(1, v)];
    assert Newest(b[..3], Before(3), 2) == [Row(2, v), Row(1, v)] && Newest(b, Before(3), 2) == Newest(b[..3], Before(3), 2);
    assert Newest([Row(1, v)], Before(2), 2) == [Row(1, v)] && Newest(b[..3][..2], Before(2), 2) == [Row(1, v)];
    assert Newest(b[..3], Before(2), 2) == [Row(1, v)] && Newest(b, Before(2), 2) == Newest(b[..3], Before(2), 2);
  }

  /** Both happen to rows that become visible after the first page: the one whose page is still to come is listed, the
      other is not. */
  lemma {:induction false} LateRows<T>(v: T)
    ensures var before, after := [Row(1, v), Row(3, v)], [Row(1, v), Row(2, v), Row(3, v), Row(4, v)];
            Follow([before, after, after], [1, 1, 1], First) == Reading([Row(3, v), Row(2, v), Row(1, v)], true)
  {
    hide Fetch;
    PagesOfOne(v);
    var before, after := [Row(1, v), Row(3, v)], [Row(1, v), Row(2, v), Row(3, v), Row(4, v)];
    var s, l: seq<nat> := [before, after, after], [1, 1, 1];
    assert s[1..] == [after, after] && l[1..] == [1, 1] && [after, after][1..] == [after] && l[1..][1..] == [1];
    assert Follow([after], [1], Before(2)) == Reading([Row(1, v)], true);
    assert Follow([after, after], [1, 1], Before(3)) == Reading([Row(2, v), Row(1, v)], true);
  }
}
