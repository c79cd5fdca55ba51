/** Listing stored operations page by page, with the cursor travelling as text. */
module OperationsList {
  import opened Options
  import opened Digits
  import Paging

  /** The largest integer that a number of the host language represents without rounding its neighbours onto it. */
  const MAX_SAFE: nat := 9007199254740991

  const MAX_LIMIT: int := 200

  datatype Stored = Stored(operationId: string, kind: string)

  type Table = seq<Paging.Row<Stored>>

  predicate Wanted(kind: Option<string>, r: Paging.Row<Stored>) {
    kind.Some? ==> r.value.kind == kind.value
  }

  function Selected(rows: Table, kind: Option<string>): Table {
    if rows == [] then []
    else
      var last := rows[|rows| - 1];
      Selected(rows[..|rows| - 1], kind) + if Wanted(kind, last) then [last] else []
  }

  /** One to sixteen digits that stand for a safe positive integer. */
  function ParseCursor(s: string): Option<nat> {
    if 1 <= |s| <= 16 && AllDigits(s) && 1 <= ValueOf(s) <= MAX_SAFE then Some(ValueOf(s)) else None
  }

  datatype Listing = Invalid | Listed(items: Table, next: Option<string>)

  function StartOf(cursor: Option<string>): Option<nat> {
    if cursor.None? then Some(MAX_SAFE) else ParseCursor(cursor.value)
  }

  function List(rows: Table, kind: Option<string>, cursor: Option<string>, limit: int): Listing {
    var start := StartOf(cursor);
    if limit < 1 || limit > MAX_LIMIT || start.None? then Invalid
    else
      var page := Paging.Fetch(Selected(rows, kind), Paging.Before(start.value), limit);
      Listed(page.items, if page.next.First? then None else Some(Decimal(page.next.id)))
  }

  /** What a reader collects by handing each next cursor back, every page being read from its own snapshot. */
  function ReadOn(snapshots: seq<Table>, kind: Option<string>, cursor: Option<string>, limits: seq<nat>): Paging.Reading<Stored>
    requires |limits| == |snapshots|
  {
    if snapshots == [] then Paging.Reading([], false)
    else
      var page := List(snapshots[0], kind, cursor, limits[0]);
      if page.Invalid? then Paging.Reading([], false)
      else if page.next.None? then Paging.Reading(page.items, true)
      else
        var rest := ReadOn(snapshots[1..], kind, page.next, limits[1..]);
        Paging.Reading(page.items + rest.items, rest.finished)
  }

  // ---- the cursor as text ----

  lemma {:induction false} DecimalLength(n: nat, k: nat)
    requires k >= 1 && n < Pow10(k)
    ensures |Decimal(n)| <= k
  {
    if n >= 10 {
      DecimalLength(n / 10, k - 1);
    }
  }

  /** The cursor of a row is read back as that row's id, for exactly the ids that are safe integers. */
  lemma {:induction false} CursorRoundTrip(id: nat)
    ensures ParseCursor(Decimal(id)) == if 1 <= id <= MAX_SAFE then Some(id) else None
  {
    ValueDecimal(id);
    if id <= MAX_SAFE {
      assert Pow10(4) == 10000;
      Pow10Add(4, 4);
      Pow10Add(8, 8);
      DecimalLength(id, 16);
    }
  }

  // ---- rows of a kind ----

  lemma {:induction false} SelectedIds(rows: Table, kind: Option<string>)
    ensures forall r :: r in Selected(rows, kind) ==> r in rows && Wanted(kind, r)
  {
    if rows != [] {
      SelectedIds(rows[..|rows| - 1], kind);
    }
  }

  lemma {:induction false} SelectedIncrease(rows: Table, kind: Option<string>)
    requires Paging.Increasing(rows)
    ensures Paging.Increasing(Selected(rows, kind))
  {
    if rows != [] {
      var init := rows[..|rows| - 1];
      SelectedIncrease(init, kind);
      SelectedIds(init, kind);
      var some := Selected(init, kind);
      forall i | 0 <= i < |some| ensures some[i].id < rows[|rows| - 1].id {
        assert some[i] in init;
      }
    }
  }

  lemma {:induction false} SelectedHas(rows: Table, kind: Option<string>, r: Paging.Row<Stored>)
    ensures r in Selected(rows, kind) <==> r in rows && Wanted(kind, r)
  {
    if rows != [] {
      SelectedHas(rows[..|rows| - 1], kind, r);
      assert rows == rows[..|rows| - 1] + [rows[|rows| - 1]];
    }
  }

  function AllSelected(snapshots: seq<Table>, kind: Option<string>): (r: seq<Table>)
    ensures |r| == |snapshots| && forall i :: 0 <= i < |r| ==> r[i] == Selected(snapshots[i], kind)
  {
    seq(|snapshots|, i requires 0 <= i < |snapshots| => Selected(snapshots[i], kind))
  }

  lemma {:induction false} SelectionGains(snapshots: seq<Table>, kind: Option<string>)
    requires Paging.Gaining(snapshots)
    ensures Paging.Gaining(AllSelected(snapshots, kind))
  {
    var some := AllSelected(snapshots, kind);
    forall i | 0 <= i < |some| ensures Paging.Increasing(some[i]) {
      SelectedIncrease(snapshots[i], kind);
    }
    forall i | 0 < i < |some| ensures Paging.Gains(some[i - 1], some[i]) {
      assert Paging.Gains(snapshots[i - 1], snapshots[i]);
      hide Selected, Wanted;
      var less, more := some[i - 1], some[i];
      forall j | 0 <= j < |less| ensures less[j] in more {
        assert less[j] in less;
        SelectedHas(snapshots[i - 1], kind, less[j]);
        SelectedHas(snapshots[i], kind, less[j]);
      }
    }
  }

  // ---- reading all pages ----

  predicate Serial(rows: Table) {
    forall i :: 0 <= i < |rows| ==> rows[i].id >= 1
  }

  lemma {:induction false} NewestComeFrom(rows: Table, c: Paging.Cursor, n: nat)
    ensures forall r :: r in Paging.Newest(rows, c, n) ==> r in rows && Paging.Admits(c, r.id)
  {
    if rows != [] && n > 0 {
      var last := |rows| - 1;
      NewestComeFrom(rows[..last], c, n - 1);
      NewestComeFrom(rows[..last], c, n);
    }
  }

  /** The next cursor of a page is the id of a row behind the cursor of that page. */
  lemma {:induction false} NextIsBehind(rows: Table, kind: Option<string>, start: nat, limit: nat)
    requires limit >= 1 && Serial(rows)
    ensures var next := Paging.Fetch(Selected(rows, kind), Paging.Before(start), limit).next;
            next.Before? ==> 1 <= next.id < start
  {
    var fetched := Paging.Newest(Selected(rows, kind), Paging.Before(start), limit + 1);
    NewestComeFrom(Selected(rows, kind), Paging.Before(start), limit + 1);
    SelectedIds(rows, kind);
    if |fetched| > limit {
      assert fetched[limit - 1] in fetched;
      assert fetched[limit - 1] in rows;
    }
  }

  /** Handing the text cursor back is following the ids themselves. */
  lemma {:induction false} TextFollowsIds(snapshots: seq<Table>, kind: Option<string>, cursor: Option<string>, limits: seq<nat>)
    requires |limits| == |snapshots| && forall i :: 0 <= i < |limits| ==> 1 <= limits[i] <= MAX_LIMIT
    requires StartOf(cursor).Some? && forall i :: 0 <= i < |snapshots| ==> Serial(snapshots[i])
    ensures ReadOn(snapshots, kind, cursor, limits) ==
            Paging.Follow(AllSelected(snapshots, kind), limits, Paging.Before(StartOf(cursor).value))
    decreases |snapshots|
  {
    hide Serial, Paging.Fetch, ParseCursor, Decimal, Selected;
    if snapshots != [] {
      var start := StartOf(cursor).value;
      assert start <= MAX_SAFE by {
        StartIsSafe(cursor);
      }
      var page := Paging.Fetch(Selected(snapshots[0], kind), Paging.Before(start), limits[0]);
      NextIsBehind(snapshots[0], kind, start, limits[0]);
      if page.next.Before? {
        CursorRoundTrip(page.next.id);
        TextFollowsIds(snapshots[1..], kind, Some(Decimal(page.next.id)), limits[1..]);
        assert AllSelected(snapshots, kind)[1..] == AllSelected(snapshots[1..], kind);
      }
    }
  }

  lemma {:induction false} StartIsSafe(cursor: Option<string>)
    requires StartOf(cursor).Some?
    ensures 1 <= StartOf(cursor).value <= MAX_SAFE
  {
  }

  /** The page on which an operation with this id would be listed. */
  function PageOf(snapshots: seq<Table>, kind: Option<string>, limits: seq<nat>, id: nat): nat
    requires |limits| == |snapshots| && forall i :: 0 <= i < |limits| ==> limits[i] >= 1
  {
    Paging.PageOf(AllSelected(snapshots, kind), limits, Paging.Before(MAX_SAFE), id)
  }

  /** Following the cursor from the first page lists, newest first and none twice, exactly the operations of the kind with
      an id below the largest safe integer that are visible when their page is read: all that were there at the start,
      and of those that became visible meanwhile, which may have any id, the ones whose page was still to come. */
  lemma {:induction false} ListingIsExact(snapshots: seq<Table>, kind: Option<string>, limits: seq<nat>)
    requires |limits| == |snapshots| > 0 && forall i :: 0 <= i < |limits| ==> 1 <= limits[i] <= MAX_LIMIT
    requires Paging.Gaining(snapshots) && forall i :: 0 <= i < |snapshots| ==> Serial(snapshots[i])
    ensures var reading := ReadOn(snapshots, kind, None, limits);
            && Paging.Descending(reading.items)
            && (forall r: Paging.Row<Stored> :: r in reading.items <==>
                  var k := PageOf(snapshots, kind, limits, r.id);
                  r.id < MAX_SAFE && Wanted(kind, r) && k < |snapshots| && r in snapshots[k])
            && (reading.finished ==>
                  forall r: Paging.Row<Stored> :: r in snapshots[0] && r.id < MAX_SAFE && Wanted(kind, r) ==> r in reading.items)
            && (forall r: Paging.Row<Stored> :: r in reading.items && r !in snapshots[0] ==>
                  exists j :: 0 < j < |snapshots| && r !in snapshots[j - 1] && r in snapshots[j])
            && (Paging.Behind(Selected(snapshots[|snapshots| - 1], kind), Paging.Before(MAX_SAFE)) <= |snapshots| ==>
                  reading.finished)
  {
    hide Selected, Serial, Paging.Follow, Paging.PageOf, Paging.Increasing, Paging.Behind, ReadOn, Wanted;
    var some := AllSelected(snapshots, kind);
    SelectionGains(snapshots, kind);
    TextFollowsIds(snapshots, kind, None, limits);
    Paging.FollowDescends(some, limits, Paging.Before(MAX_SAFE));
    if Paging.Behind(some[|some| - 1], Paging.Before(MAX_SAFE)) <= |some| {
      Paging.FollowEnds(some, limits, Paging.Before(MAX_SAFE));
    }
    forall r: Paging.Row<Stored>
      ensures var k := PageOf(snapshots, kind, limits, r.id);
              r in ReadOn(snapshots, kind, None, limits).items <==>
              r.id < MAX_SAFE && Wanted(kind, r) && k < |snapshots| && r in snapshots[k]
      ensures ReadOn(snapshots, kind, None, limits).finished && r in snapshots[0] && r.id < MAX_SAFE && Wanted(kind, r) ==>
                r in ReadOn(snapshots, kind, None, limits).items
      ensures r in ReadOn(snapshots, kind, None, limits).items && r !in snapshots[0] ==>
                exists j :: 0 < j < |snapshots| && r !in snapshots[j - 1] && r in snapshots[j]
    {
      RowIsListed(snapshots, kind, limits, r);
    }
  }

  lemma {:induction false} RowIsListed(snapshots: seq<Table>, kind: Option<string>, limits: seq<nat>, r: Paging.Row<Stored>)
    requires |limits| == |snapshots| > 0 && forall i :: 0 <= i < |limits| ==> 1 <= limits[i] <= MAX_LIMIT
    requires Paging.Gaining(snapshots) && Paging.Gaining(AllSelected(snapshots, kind))
    ensures var reading := Paging.Follow(AllSelected(snapshots, kind), limits, Paging.Before(MAX_SAFE));
            var k := PageOf(snapshots, kind, limits, r.id);
            && (r in reading.items <==> r.id < MAX_SAFE && Wanted(kind, r) && k < |snapshots| && r in snapshots[k])
            && (reading.finished && r in snapshots[0] && r.id < MAX_SAFE && Wanted(kind, r) ==> r in reading.items)
            && (r in reading.items && r !in snapshots[0] ==>
                  exists j :: 0 < j < |snapshots| && r !in snapshots[j - 1] && r in snapshots[j])
  {
    hide Selected, Paging.Follow, Paging.PageOf, Paging.Increasing, Paging.Gains, Wanted;
    var some, k := AllSelected(snapshots, kind), PageOf(snapshots, kind, limits, r.id);
    Paging.FollowHas(some, limits, Paging.Before(MAX_SAFE), r);
    Paging.FollowGaining(some, limits, Paging.Before(MAX_SAFE), r);
    SelectedHas(snapshots[0], kind, r);
    if k < |snapshots| {
      SelectedHas(snapshots[k], kind, r);
      if r in snapshots[k] && r !in snapshots[0] {
        Paging.Appears(snapshots, k, r);
      }
    }
  }
}
