/**
  Reading a dimos `.db` in timestamp order (src/source.rs): every table is pulled a page of
  `(id, ts)` rows at a time, and the earliest row at hand goes out first.
 */
module Source {
  import opened Prelude
  import opened Division

  datatype Row = Row(id: int, ts: real)

  /** A table as `ORDER BY ts` lists it. */
  ghost predicate Ordered(rows: seq<Row>) {
    forall i, j :: 0 <= i < j < |rows| ==> rows[i].ts <= rows[j].ts
  }

  ghost predicate DistinctTimes(rows: seq<Row>) {
    forall i, j :: 0 <= i < j < |rows| ==> rows[i].ts < rows[j].ts
  }

  // ------------------------------------------------------------ the query

  /** The rows with `ts > t`, of rows in order. */
  function Later(rows: seq<Row>, t: real): (later: seq<Row>)
    ensures |later| <= |rows| && later == rows[|rows| - |later|..]
  {
    if rows == [] || rows[0].ts > t then rows
    else
      var later := Later(rows[1..], t);
      assert rows[1..][|rows| - 1 - |later|..] == rows[|rows| - |later|..];
      later
  }

  /** `WHERE ts > last`, None standing for the -infinity a cursor starts from. */
  function After(table: seq<Row>, last: Option<real>): seq<Row> {
    if last.None? then table else Later(table, last.value)
  }

  /** `... ORDER BY ts LIMIT size`. */
  function Page(rows: seq<Row>, size: nat): seq<Row> {
    if |rows| <= size then rows else rows[..size]
  }

  lemma SuffixIsOrdered(rows: seq<Row>, k: nat)
    requires Ordered(rows) && k <= |rows|
    ensures Ordered(rows[k..])
  {
  }

  lemma {:induction false} LaterAt(rows: seq<Row>, t: real, i: nat)
    requires Ordered(rows) && i < |rows|
    ensures i < |rows| - |Later(rows, t)| <==> rows[i].ts <= t
    decreases |rows|
  {
    if rows[0].ts <= t && i > 0 {
      SuffixIsOrdered(rows, 1);
      LaterAt(rows[1..], t, i - 1);
    }
  }

  lemma LaterSplits(rows: seq<Row>, t: real)
    requires Ordered(rows)
    ensures Ordered(Later(rows, t))
    ensures forall i :: 0 <= i < |rows| ==> (i < |rows| - |Later(rows, t)| <==> rows[i].ts <= t)
  {
    hide Ordered;
    SuffixIsOrdered(rows, |rows| - |Later(rows, t)|);
    forall i | 0 <= i < |rows|
      ensures i < |rows| - |Later(rows, t)| <==> rows[i].ts <= t
    {
      LaterAt(rows, t, i);
    }
  }

  lemma {:induction false} LaterOfLater(rows: seq<Row>, s: real, t: real)
    requires s <= t
    ensures Later(Later(rows, s), t) == Later(rows, t)
    decreases |rows|
  {
    if rows != [] && rows[0].ts <= s { LaterOfLater(rows[1..], s, t); }
  }

  // ------------------------------------------------------------ what paging delivers

  /** The later rows start past the page, so each page makes progress. */
  lemma PageEnds(rows: seq<Row>, size: nat)
    requires Ordered(rows) && 0 < size < |rows|
    ensures var later := Later(rows, rows[size - 1].ts);
            && |later| <= |rows| - size && Ordered(later)
            && (|later| == |rows| - size <==> rows[size - 1].ts < rows[size].ts)
            && (forall i :: 0 <= i < |later| ==> later[i].ts > rows[size - 1].ts)
            && (forall i :: size <= i < |rows| - |later| ==> rows[i].ts == rows[size - 1].ts)
  {
    hide Later;
    LaterSplits(rows, rows[size - 1].ts);
    var later := Later(rows, rows[size - 1].ts);
    var k := |rows| - |later|;
    assert k > size - 1;
    forall i | 0 <= i < |later|
      ensures later[i].ts > rows[size - 1].ts
    {
      assert later[i] == rows[k + i];
    }
  }

  /** Page after page, each one starting past every row that ties with the last row before it. */
  ghost function Delivered(rows: seq<Row>, size: nat): seq<Row>
    requires Ordered(rows) && size > 0
    decreases |rows|
  {
    if |rows| <= size then rows
    else
      PageEnds(rows, size);
      rows[..size] + Delivered(Later(rows, rows[size - 1].ts), size)
  }

  lemma OnePageMore(rows: seq<Row>, size: nat)
    requires Ordered(rows) && 0 < size < |rows|
    ensures var later := Later(rows, rows[size - 1].ts);
            Ordered(later) && |later| < |rows| && Delivered(rows, size) == rows[..size] + Delivered(later, size)
  {
    PageEnds(rows, size);
  }

  lemma {:induction false} DeliveredAreRows(rows: seq<Row>, size: nat)
    requires Ordered(rows) && size > 0
    ensures |Delivered(rows, size)| <= |rows|
    ensures forall r :: r in Delivered(rows, size) ==> r in rows
    decreases |rows|
  {
    if |rows| > size {
      hide Later, Delivered, Ordered;
      PageEnds(rows, size);
      OnePageMore(rows, size);
      DeliveredAreRows(Later(rows, rows[size - 1].ts), size);
    }
  }

  /** The delivered rows come in order. */
  lemma {:induction false} DeliveredInOrder(rows: seq<Row>, size: nat)
    requires Ordered(rows) && size > 0
    ensures Ordered(Delivered(rows, size))
    decreases |rows|
  {
    if |rows| > size {
      hide Later, Delivered, Ordered;
      var t := rows[size - 1].ts;
      var later := Later(rows, t);
      PageEnds(rows, size);
      OnePageMore(rows, size);
      DeliveredInOrder(later, size);
      DeliveredAreRows(later, size);
      PageIsOrdered(rows, size);
      OrderedAppend(rows[..size], Delivered(later, size), t);
    }
  }

  lemma PageIsOrdered(rows: seq<Row>, size: nat)
    requires Ordered(rows) && 0 < size <= |rows|
    ensures Ordered(rows[..size]) && forall r :: r in rows[..size] ==> r.ts <= rows[size - 1].ts
  {
  }

  lemma OrderedAppend(a: seq<Row>, b: seq<Row>, t: real)
    requires Ordered(a) && Ordered(b)
    requires (forall r :: r in a ==> r.ts <= t) && (forall r :: r in b ==> t <= r.ts)
    ensures Ordered(a + b)
  {
    forall i, j | 0 <= i < j < |a + b|
      ensures (a + b)[i].ts <= (a + b)[j].ts
    {
      if i < |a| <= j { assert a[i] in a && b[j - |a|] in b; }
    }
  }

  /** No row is delivered more often than the table holds it. */
  lemma {:induction false} DeliveredOnce(rows: seq<Row>, size: nat)
    requires Ordered(rows) && size > 0
    ensures multiset(Delivered(rows, size)) <= multiset(rows)
    decreases |rows|
  {
    if |rows| > size {
      hide Later;
      var later := Later(rows, rows[size - 1].ts);
      var k := |rows| - |later|;
      PageEnds(rows, size);
      DeliveredOnce(later, size);
      BagOfParts(rows, size, k);
    }
  }

  lemma BagOfParts(rows: seq<Row>, i: nat, j: nat)
    requires i <= j <= |rows|
    ensures multiset(rows) == multiset(rows[..i]) + multiset(rows[i..j]) + multiset(rows[j..])
  {
    assert rows == rows[..i] + rows[i..j] + rows[j..];
  }

  /** The only rows missing tie with a row that was delivered. */
  lemma {:induction false} MissingRowsTie(rows: seq<Row>, size: nat, i: nat) returns (d: Row)
    requires Ordered(rows) && size > 0 && i < |rows|
    ensures d in Delivered(rows, size) && d.ts == rows[i].ts
    decreases |rows|
  {
    if |rows| <= size || i < size {
      d := rows[i];
      if |rows| > size {
        OnePageMore(rows, size);
        assert rows[..size][i] == d;
      }
    } else {
      hide Later, Delivered, Ordered;
      var later := Later(rows, rows[size - 1].ts);
      var k := |rows| - |later|;
      PageEnds(rows, size);
      OnePageMore(rows, size);
      if i < k {
        d := rows[size - 1];
        assert rows[..size][size - 1] == d;
      } else {
        d := MissingRowsTie(later, size, i - k);
        assert later[i - k] == rows[i];
      }
    }
  }

  /** No page ends between two rows of one timestamp. */
  ghost predicate NoTieAtPageEnd(rows: seq<Row>, size: nat)
    requires size > 0
  {
    forall i :: 0 < i < |rows| && i % size == 0 ==> rows[i - 1].ts < rows[i].ts
  }

  /** Every row is delivered exactly when no page ends inside a tie. */
  lemma {:induction false} AllDeliveredIff(rows: seq<Row>, size: nat)
    requires Ordered(rows) && size > 0
    ensures Delivered(rows, size) == rows <==> NoTieAtPageEnd(rows, size)
    decreases |rows|
  {
    if |rows| <= size {
      OnePageHasNoEnd(rows, size);
    } else {
      hide Later, Delivered, Ordered, NoTieAtPageEnd;
      var later := Later(rows, rows[size - 1].ts);
      PageEnds(rows, size);
      OnePageMore(rows, size);
      if rows[size - 1].ts < rows[size].ts {
        assert later == rows[size..];
        AllDeliveredIff(later, size);
        NoTieShifts(rows, size);
        SamePrefix(rows, size, Delivered(later, size));
      } else {
        DeliveredAreRows(later, size);
        TieAtFirstPageEnd(rows, size);
      }
    }
  }

  lemma SamePrefix(rows: seq<Row>, size: nat, rest: seq<Row>)
    requires size <= |rows|
    ensures rows[..size] + rest == rows <==> rest == rows[size..]
  {
    assert rows == rows[..size] + rows[size..];
    assert (rows[..size] + rest)[size..] == rest;
  }

  lemma OnePageHasNoEnd(rows: seq<Row>, size: nat)
    requires 0 < size && |rows| <= size
    ensures NoTieAtPageEnd(rows, size)
  {
    forall i | 0 < i < |rows|
      ensures i % size != 0
    {
      RemainderIs(i, size, 0, i);
    }
  }

  lemma TieAtFirstPageEnd(rows: seq<Row>, size: nat)
    requires 0 < size < |rows| && rows[size - 1].ts >= rows[size].ts
    ensures !NoTieAtPageEnd(rows, size)
  {
    RemainderIs(size, size, 1, 0);
  }

  lemma NoTieShifts(rows: seq<Row>, size: nat)
    requires 0 < size < |rows| && rows[size - 1].ts < rows[size].ts
    ensures NoTieAtPageEnd(rows, size) <==> NoTieAtPageEnd(rows[size..], size)
  {
    var rest := rows[size..];
    if NoTieAtPageEnd(rows, size) {
      forall i | 0 < i < |rest| && i % size == 0
        ensures rest[i - 1].ts < rest[i].ts
      {
        RemainderShifts(i, size);
        assert rows[i + size - 1].ts < rows[i + size].ts;
      }
    }
    if NoTieAtPageEnd(rest, size) {
      forall i | 0 < i < |rows| && i % size == 0
        ensures rows[i - 1].ts < rows[i].ts
      {
        if i < size {
          RemainderIs(i, size, 0, i);
        } else if i > size {
          var j := i - size;
          RemainderShifts(j, size);
          assert rest[j - 1].ts < rest[j].ts;
        }
      }
    }
  }

  lemma DistinctTimesDeliverAll(rows: seq<Row>, size: nat)
    requires DistinctTimes(rows) && size > 0
    ensures Ordered(rows) && Delivered(rows, size) == rows
  {
    AllDeliveredIff(rows, size);
  }

  // ------------------------------------------------------------ the merge

  /** A row and the table it came from. */
  datatype Item = Item(stream: nat, row: Row)

  predicate Before(a: Item, b: Item) {
    a.row.ts < b.row.ts || (a.row.ts == b.row.ts && a.stream <= b.stream)
  }

  ghost predicate Sorted(items: seq<Item>) {
    forall i, j :: 0 <= i < j < |items| ==> Before(items[i], items[j])
  }

  /** The rows of one table, in the order they went out. */
  function Of(stream: nat, items: seq<Item>): seq<Row> {
    if items == [] then []
    else (if items[0].stream == stream then [items[0].row] else []) + Of(stream, items[1..])
  }

  /**
    `out` merges the queues: in timestamp order, ties to the lowest stream, each queue's rows
    each once and in its own order.
   */
  ghost predicate Merges(out: seq<Item>, queues: seq<seq<Row>>) {
    && Sorted(out)
    && (forall k :: 0 <= k < |out| ==> out[k].stream < |queues|)
    && (forall i :: 0 <= i < |queues| ==> Of(i, out) == queues[i])
  }

  lemma MergedStreams(out: seq<Item>, queues: seq<seq<Row>>)
    requires Merges(out, queues)
    ensures forall k :: 0 <= k < |out| ==> out[k].stream < |queues|
  {
  }

  lemma {:induction false} InOf(stream: nat, items: seq<Item>, row: Row)
    ensures row in Of(stream, items) <==> Item(stream, row) in items
    decreases |items|
  {
    if items != [] { InOf(stream, items[1..], row); }
  }

  lemma EarliestFirst(items: seq<Item>, item: Item)
    requires Sorted(items) && item in items
    ensures Before(items[0], item)
  {
  }

  lemma {:induction false} FirstOf(stream: nat, items: seq<Item>)
    requires Sorted(items) && Of(stream, items) != []
    ensures Item(stream, Of(stream, items)[0]) in items
    decreases |items|
  {
    InOf(stream, items, Of(stream, items)[0]);
  }

  lemma NothingToMerge(out: seq<Item>, queues: seq<seq<Row>>)
    requires Merges(out, queues)
    ensures out == [] <==> forall i :: 0 <= i < |queues| ==> queues[i] == []
  {
    if out != [] {
      var s := out[0].stream;
      assert Of(s, out) != [];
    }
  }

  /** There is one way to merge, so nothing about paging can show in the output. */
  lemma {:induction false} MergeIsUnique(a: seq<Item>, b: seq<Item>, queues: seq<seq<Row>>)
    requires Merges(a, queues) && Merges(b, queues)
    ensures a == b
    decreases |a|
  {
    NothingToMerge(a, queues);
    NothingToMerge(b, queues);
    if a != [] {
      var s, t := a[0].stream, b[0].stream;
      assert queues[s][0] == a[0].row && queues[t][0] == b[0].row;
      FirstOf(s, b);
      FirstOf(t, a);
      EarliestFirst(a, b[0]);
      EarliestFirst(b, a[0]);
      assert a[0] == b[0];
      MergesTail(a, queues);
      MergesTail(b, queues);
      MergeIsUnique(a[1..], b[1..], queues[s := queues[s][1..]]);
      assert a == [a[0]] + a[1..] && b == [b[0]] + b[1..];
    }
  }

  lemma MergesTail(out: seq<Item>, queues: seq<seq<Row>>)
    requires out != [] && Merges(out, queues)
    ensures var s := out[0].stream;
            queues[s] != [] && queues[s][0] == out[0].row && Merges(out[1..], queues[s := queues[s][1..]])
  {
    var s := out[0].stream;
    var rest := queues[s := queues[s][1..]];
    forall i | 0 <= i < |rest|
      ensures Of(i, out[1..]) == rest[i]
    {
      assert Of(i, out) == queues[i];
    }
  }

  // ------------------------------------------------------------ the cursors

  datatype Cursor = Cursor(page: seq<Row>, lastTs: Option<real>, done: bool)

  const NEW_CURSOR := Cursor([], None, false)

  datatype Record = Record(stream: nat, ts: real, data: seq<byte>)

  /** The stream whose head is earliest, ties to the lowest index. */
  ghost predicate IsEarliest(queues: seq<seq<Row>>, i: nat) {
    && i < |queues| && queues[i] != []
    && forall j :: 0 <= j < |queues| && queues[j] != [] ==>
         Before(Item(i, queues[i][0]), Item(j, queues[j][0]))
  }

  ghost predicate CursorValid(table: seq<Row>, c: Cursor) {
    && Ordered(table)
    && (c.done ==> c.page == [] && After(table, c.lastTs) == [])
  }

  lemma AfterIsOrdered(table: seq<Row>, last: Option<real>)
    requires Ordered(table)
    ensures Ordered(After(table, last))
  {
    if last.Some? { LaterSplits(table, last.value); }
  }

  /** The rows a cursor has still to deliver: its page, and what later pages will bring. */
  ghost function Rest(table: seq<Row>, c: Cursor, size: nat): seq<Row>
    requires CursorValid(table, c) && size > 0
  {
    AfterIsOrdered(table, c.lastTs);
    c.page + Delivered(After(table, c.lastTs), size)
  }

  ghost predicate CursorsValid(tables: seq<seq<Row>>, cursors: seq<Cursor>) {
    |cursors| == |tables| && forall i :: 0 <= i < |tables| ==> CursorValid(tables[i], cursors[i])
  }

  ghost function QueuesOf(tables: seq<seq<Row>>, cursors: seq<Cursor>, size: nat): (queues: seq<seq<Row>>)
    requires CursorsValid(tables, cursors) && size > 0
    ensures |queues| == |tables|
    ensures forall i :: 0 <= i < |tables| ==> queues[i] == Rest(tables[i], cursors[i], size)
  {
    seq(|tables|, i requires 0 <= i < |tables| => Rest(tables[i], cursors[i], size))
  }

  lemma OneQueueChanges(tables: seq<seq<Row>>, cursors: seq<Cursor>, size: nat, i: nat, c: Cursor)
    requires CursorsValid(tables, cursors) && size > 0 && i < |cursors| && CursorValid(tables[i], c)
    ensures CursorsValid(tables, cursors[i := c])
    ensures QueuesOf(tables, cursors[i := c], size) == QueuesOf(tables, cursors, size)[i := Rest(tables[i], c, size)]
  {
    hide Rest, CursorValid;
  }

  /** Fetching a page moves rows from the table to the cursor and delivers nothing. */
  lemma FillKeepsRest(table: seq<Row>, c: Cursor, size: nat)
    requires CursorValid(table, c) && size > 0 && c.page == []
    requires After(table, c.lastTs) != []
    ensures var page := Page(After(table, c.lastTs), size);
            Rest(table, Cursor(page, Some(page[|page| - 1].ts), false), size) == Rest(table, c, size)
  {
    hide Later, Delivered, Ordered, Page;
    AfterIsOrdered(table, c.lastTs);
    var rows := After(table, c.lastTs);
    PageThenRest(rows, size);
    SameLater(table, c.lastTs, Page(rows, size)[|Page(rows, size)| - 1].ts);
    assert [] + Delivered(rows, size) == Delivered(rows, size);
  }

  lemma PageThenRest(rows: seq<Row>, size: nat)
    requires Ordered(rows) && size > 0 && rows != []
    ensures var page := Page(rows, size);
            && page != [] && rows[0].ts <= page[|page| - 1].ts
            && Ordered(Later(rows, page[|page| - 1].ts))
            && page + Delivered(Later(rows, page[|page| - 1].ts), size) == Delivered(rows, size)
  {
    hide Later, Delivered;
    if |rows| <= size {
      LaterSplits(rows, rows[|rows| - 1].ts);
      SmallDelivered(rows, size);
      SmallDelivered([], size);
      assert |Later(rows, rows[|rows| - 1].ts)| == 0;
      assert rows + [] == rows;
    } else {
      OnePageMore(rows, size);
    }
  }

  lemma SmallDelivered(rows: seq<Row>, size: nat)
    requires Ordered(rows) && 0 < size && |rows| <= size
    ensures Delivered(rows, size) == rows
  {
  }

  /** Asking the table again past `t` is asking the rows at hand. */
  lemma SameLater(table: seq<Row>, last: Option<real>, t: real)
    requires Ordered(table)
    requires After(table, last) != [] && After(table, last)[0].ts <= t
    ensures After(table, Some(t)) == Later(After(table, last), t)
  {
    if last.Some? {
      LaterSplits(table, last.value);
      var rows := Later(table, last.value);
      assert rows[0] == table[|table| - |rows|];
      LaterOfLater(table, last.value, t);
    }
  }

  lemma NothingAtHand(table: seq<Row>, c: Cursor, size: nat)
    requires CursorValid(table, c) && size > 0 && (c.page != [] || c.done)
    ensures Rest(table, c, size) == [] <==> c.page == []
    ensures c.page != [] ==> Rest(table, c, size)[0] == c.page[0]
                             && CursorValid(table, c.(page := c.page[1..]))
                             && Rest(table, c.(page := c.page[1..]), size) == Rest(table, c, size)[1..]
  {
    hide Later, Ordered;
    AfterIsOrdered(table, c.lastTs);
  }

  class DbSource {
    const tables: seq<seq<Row>>
    const pageSize: nat
    const blob: (nat, int) -> Option<seq<byte>>
    var cursors: seq<Cursor>

    ghost predicate Valid()
      reads this
    {
      pageSize > 0 && CursorsValid(tables, cursors)
    }

    /** What each stream has still to deliver. */
    ghost function Queues(): seq<seq<Row>>
      reads this
      requires Valid()
    {
      QueuesOf(tables, cursors, pageSize)
    }

    /** Nothing has been taken off it yet. */
    ghost predicate Opened()
      reads this
    {
      Valid() && Queues() == AllDelivered(tables, pageSize)
    }

    /** Everything still to come, in the order it will come. */
    ghost function Left(): seq<Item>
      reads this
      requires Valid()
    {
      MergeOf(Queues())
    }

    lemma LeftIsMerged()
      requires Valid() && forall i :: 0 <= i < |tables| ==> Ordered(Queues()[i])
      ensures Merges(Left(), Queues()) && |Queues()| == |tables|
    {
      MergeOfMerges(Queues());
    }

    /** Opened or rewound, a source holds the merge of all it delivers, in order. */
    lemma FreshlyOpened()
      requires Opened()
      ensures Valid() && Left() == MergeOf(AllDelivered(tables, pageSize))
      ensures forall i :: 0 <= i < |tables| ==> Ordered(Queues()[i])
    {
      hide Delivered, Ordered;
      DeliveredQueuesAreOrdered(tables, pageSize);
    }

    constructor (tables: seq<seq<Row>>, pageSize: nat, blob: (nat, int) -> Option<seq<byte>>)
      requires pageSize > 0
      requires forall i :: 0 <= i < |tables| ==> Ordered(tables[i])
      ensures Opened() && this.tables == tables && this.pageSize == pageSize && this.blob == blob
    {
      this.tables := tables;
      this.pageSize := pageSize;
      this.blob := blob;
      cursors := seq(|tables|, _ => NEW_CURSOR);
      new;
      FreshCursors(tables, pageSize);
    }

    method Rewind()
      requires Valid()
      modifies this
      ensures Opened()
    {
      FreshCursors(tables, pageSize);
      cursors := seq(|tables|, _ => NEW_CURSOR);
    }

    method Fill(index: nat)
      requires Valid() && index < |tables|
      requires cursors[index].page == [] && !cursors[index].done
      modifies this
      ensures Valid() && Queues() == old(Queues())
      ensures cursors[index].page != [] || cursors[index].done
      ensures forall i :: 0 <= i < |tables| && i != index ==> cursors[i] == old(cursors)[i]
    {
      hide Rest, Delivered, Later, Ordered;
      var c := cursors[index];
      var rows := Page(After(tables[index], c.lastTs), pageSize);
      var filled := c.(done := true);
      if rows == [] {
        SameRest(tables[index], c, pageSize);
      } else {
        FillKeepsRest(tables[index], c, pageSize);
        filled := Cursor(c.page + rows, Some(rows[|rows| - 1].ts), c.done);
        assert c.page + rows == rows;
      }
      OneQueueChanges(tables, cursors, pageSize, index, filled);
      cursors := cursors[index := filled];
    }

    method Next() returns (r: Result<Option<Record>>, ghost item: Option<Item>)
      requires Valid()
      modifies this
      ensures Valid()
      ensures item.None? ==> r == Ok(None) && Queues() == old(Queues()) && old(Left()) == []
                             && forall i :: 0 <= i < |tables| ==> old(Queues())[i] == []
      ensures item.Some? ==>
                var Item(s, row) := item.value;
                && IsEarliest(old(Queues()), s) && row == old(Queues())[s][0]
                && Queues() == old(Queues())[s := old(Queues())[s][1..]]
                && old(Left()) == [item.value] + Left()
                && r == (if blob(s, row.id).None? then Err
                         else Ok(Some(Record(s, row.ts, blob(s, row.id).value))))
    {
      hide Rest, CursorValid, Delivered, Later, Ordered;
      for index := 0 to |cursors|
        invariant Valid() && Queues() == old(Queues())
        invariant forall i :: 0 <= i < index ==> cursors[i].page != [] || cursors[i].done
      {
        if cursors[index].page == [] && !cursors[index].done {
          Fill(index);
        }
      }
      forall i | 0 <= i < |tables|
        ensures Queues()[i] == [] <==> cursors[i].page == []
        ensures cursors[i].page != [] ==> Queues()[i][0] == cursors[i].page[0]
      {
        NothingAtHand(tables[i], cursors[i], pageSize);
      }
      var best := FindEarliest();
      if best.None? {
        NothingLeftToMerge(Queues());
        return Ok(None), None;
      }
      var s := best.value;
      MergeStep(Queues(), s);
      var row := cursors[s].page[0];
      var rest := cursors[s].(page := cursors[s].page[1..]);
      NothingAtHand(tables[s], cursors[s], pageSize);
      OneQueueChanges(tables, cursors, pageSize, s, rest);
      cursors := cursors[s := rest];
      item := Some(Item(s, row));
      var data := blob(s, row.id);
      if data.None? { return Err, item; }
      return Ok(Some(Record(s, row.ts, data.value))), item;
    }

    /** Calling `next` until it has nothing left. */
    method Drain() returns (r: Result<seq<Record>>)
      requires Valid() && forall i :: 0 <= i < |tables| ==> Ordered(Queues()[i])
      modifies this
      ensures Valid()
      ensures Merges(old(Left()), old(Queues()))
      ensures r.Ok? ==> |r.value| == |old(Left())| && Left() == []
      ensures r.Ok? ==> forall k :: 0 <= k < |r.value| ==> r.value[k] == RecordOf(old(Left())[k], blob)
      ensures r.Ok? ==> TiesGoByStream(r.value)
      ensures r.Err? <==> exists k :: 0 <= k < |old(Left())| && Missing(old(Left())[k])
    {
      hide Rest, CursorsValid, QueuesOf, Ordered, IsEarliest, Merges, MergeOf, RecordOf;
      var records: seq<Record> := [];
      MergeOfMerges(Queues());
      ghost var all := Left();
      while true
        invariant Valid() && |records| <= |all| && Left() == all[|records|..]
        invariant forall k :: 0 <= k < |records| ==> records[k] == RecordOf(all[k], blob) && !Missing(all[k])
        decreases |Left()|
      {
        var next, item := Next();
        if next == Ok(None) {
          ItemsTieByStream(all, old(Queues()), records, blob);
          return Ok(records);
        }
        assert all[|records|] == item.value;
        if next.Err? { return Err; }
        RecordIs(item.value, next.value.value, blob);
        records := records + [next.value.value];
      }
    }

    /** The blob of this row is not in the database. */
    predicate Missing(item: Item) { blob(item.stream, item.row.id).None? }

    /** Whatever the ties and the page size, a drain after a rewind repeats the first one. */
    method DrainAgain() returns (first: Result<seq<Record>>, again: Result<seq<Record>>)
      requires Opened()
      modifies this
      ensures Valid() && first == again
    {
      hide Delivered, Later, Ordered, RecordOf, MergeOf, Merges, Missing;
      DeliveredQueuesAreOrdered(tables, pageSize);
      ghost var all := Left();
      first := Drain();
      Rewind();
      assert Left() == all;
      again := Drain();
      if first.Ok? && again.Ok? { assert first.value == again.value; }
    }

    /** `min_by` over the heads: the first of several equally early ones. */
    method FindEarliest() returns (best: Option<nat>)
      ensures best.None? <==> forall i :: 0 <= i < |cursors| ==> cursors[i].page == []
      ensures best.Some? ==>
                && best.value < |cursors| && cursors[best.value].page != []
                && forall j :: 0 <= j < |cursors| && cursors[j].page != [] ==>
                     Before(Item(best.value, cursors[best.value].page[0]), Item(j, cursors[j].page[0]))
    {
      best := None;
      for index := 0 to |cursors|
        invariant best.None? <==> forall i :: 0 <= i < index ==> cursors[i].page == []
        invariant best.Some? ==>
                    && best.value < index && cursors[best.value].page != []
                    && forall j :: 0 <= j < index && cursors[j].page != [] ==>
                         Before(Item(best.value, cursors[best.value].page[0]), Item(j, cursors[j].page[0]))
      {
        if cursors[index].page != [] {
          if best.None? || cursors[index].page[0].ts < cursors[best.value].page[0].ts {
            best := Some(index);
          }
        }
      }
    }
  }

  /** Earlier times come first, and at one time the streams come in their order. */
  ghost predicate TiesGoByStream(records: seq<Record>) {
    forall i, j :: 0 <= i < j < |records| ==>
      records[i].ts < records[j].ts || (records[i].ts == records[j].ts && records[i].stream <= records[j].stream)
  }

  lemma ItemsTieByStream(items: seq<Item>, queues: seq<seq<Row>>, records: seq<Record>,
                         blob: (nat, int) -> Option<seq<byte>>)
    requires Merges(items, queues) && |records| <= |items|
    requires forall k :: 0 <= k < |records| ==> records[k] == RecordOf(items[k], blob)
    ensures TiesGoByStream(records)
  {
    forall i, j | 0 <= i < j < |records|
      ensures records[i].ts < records[j].ts
              || (records[i].ts == records[j].ts && records[i].stream <= records[j].stream)
    {
      assert Before(items[i], items[j]);
    }
  }

  function RecordOf(item: Item, blob: (nat, int) -> Option<seq<byte>>): Record {
    var data := blob(item.stream, item.row.id);
    Record(item.stream, item.row.ts, if data.Some? then data.value else [])
  }

  // ------------------------------------------------------------ draining is merging

  function Total(queues: seq<seq<Row>>): nat {
    if queues == [] then 0 else |queues[0]| + Total(queues[1..])
  }

  lemma {:induction false} PopShrinks(queues: seq<seq<Row>>, s: nat)
    requires s < |queues| && queues[s] != []
    ensures Total(queues[s := queues[s][1..]]) == Total(queues) - 1
    decreases |queues|
  {
    var popped := queues[s := queues[s][1..]];
    if s == 0 {
      assert popped[1..] == queues[1..];
    } else {
      PopShrinks(queues[1..], s - 1);
      assert popped[1..] == queues[1..][s - 1 := queues[s][1..]];
    }
  }

  lemma EarliestExists(queues: seq<seq<Row>>, i: nat) returns (s: nat)
    requires i < |queues| && queues[i] != []
    ensures IsEarliest(queues, s)
  {
    s := i;
    for j := 0 to |queues|
      invariant s < |queues| && queues[s] != []
      invariant forall k :: 0 <= k < j && queues[k] != [] ==> Before(Item(s, queues[s][0]), Item(k, queues[k][0]))
    {
      if queues[j] != [] && !Before(Item(s, queues[s][0]), Item(j, queues[j][0])) { s := j; }
    }
  }

  lemma EarliestIsUnique(queues: seq<seq<Row>>, s: nat, t: nat)
    requires IsEarliest(queues, s) && IsEarliest(queues, t)
    ensures s == t
  {
  }

  /** The merge itself: the earliest head, then the merge of what is left. */
  ghost function MergeOf(queues: seq<seq<Row>>): seq<Item>
    decreases Total(queues)
  {
    if s: nat :| IsEarliest(queues, s) then
      PopShrinks(queues, s);
      [Item(s, queues[s][0])] + MergeOf(queues[s := queues[s][1..]])
    else []
  }

  lemma MergeStep(queues: seq<seq<Row>>, s: nat)
    requires IsEarliest(queues, s)
    ensures MergeOf(queues) == [Item(s, queues[s][0])] + MergeOf(queues[s := queues[s][1..]])
  {
    forall t: nat | IsEarliest(queues, t)
      ensures t == s
    {
      EarliestIsUnique(queues, s, t);
    }
  }

  lemma {:induction false} DrainedMerges(out: seq<Item>, left: seq<seq<Row>>, all: seq<seq<Row>>)
    requires MergedSoFar(out, left, all)
    ensures Merges(out + MergeOf(left), all)
    decreases Total(left)
  {
    hide MergedSoFar, IsEarliest, Merges, Sorted;
    if s: nat :| IsEarliest(left, s) {
      IsEarliestMeans(left, s);
      MergeOneMore(out, left, all, s);
      PopShrinks(left, s);
      MergeStep(left, s);
      var item := Item(s, left[s][0]);
      DrainedMerges(out + [item], left[s := left[s][1..]], all);
      assert out + MergeOf(left) == out + [item] + MergeOf(left[s := left[s][1..]]);
    } else {
      NoneIsEarliest(left);
      MergedAll(out, left, all);
      assert out + [] == out;
    }
  }

  lemma NoneIsEarliest(queues: seq<seq<Row>>)
    requires forall s: nat :: !IsEarliest(queues, s)
    ensures forall i :: 0 <= i < |queues| ==> queues[i] == []
  {
    forall i | 0 <= i < |queues|
      ensures queues[i] == []
    {
      if queues[i] != [] { var s := EarliestExists(queues, i); }
    }
  }

  /** It is the merge, of any ordered queues. */
  lemma MergeOfMerges(queues: seq<seq<Row>>)
    requires forall i :: 0 <= i < |queues| ==> Ordered(queues[i])
    ensures Merges(MergeOf(queues), queues)
  {
    hide MergeOf, Merges, Ordered, MergedSoFar;
    NothingMergedYet(queues);
    DrainedMerges([], queues, queues);
    assert [] + MergeOf(queues) == MergeOf(queues);
  }

  lemma NothingLeftToMerge(queues: seq<seq<Row>>)
    requires forall i :: 0 <= i < |queues| ==> queues[i] == []
    ensures MergeOf(queues) == []
  {
  }

  /** What went out so far is merged, precedes everything left, and nothing is lost or repeated. */
  ghost predicate MergedSoFar(out: seq<Item>, left: seq<seq<Row>>, all: seq<seq<Row>>) {
    && |left| == |all| && Sorted(out)
    && (forall k :: 0 <= k < |out| ==> out[k].stream < |all|)
    && (forall i :: 0 <= i < |left| ==> Ordered(left[i]))
    && Conserved(out, left, all)
    && (forall k :: 0 <= k < |out| ==> Precedes(out[k], left))
  }

  ghost predicate Conserved(out: seq<Item>, left: seq<seq<Row>>, all: seq<seq<Row>>) {
    && |left| == |all|
    && forall i :: 0 <= i < |all| ==> all[i] == Of(i, out) + left[i]
  }

  ghost predicate Precedes(item: Item, left: seq<seq<Row>>) {
    forall i, j :: 0 <= i < |left| && 0 <= j < |left[i]| ==> Before(item, Item(i, left[i][j]))
  }

  lemma EarliestPrecedes(left: seq<seq<Row>>, s: nat)
    requires IsEarliest(left, s) && forall i :: 0 <= i < |left| ==> Ordered(left[i])
    ensures Precedes(Item(s, left[s][0]), left)
  {
    forall i, j | 0 <= i < |left| && 0 <= j < |left[i]|
      ensures Before(Item(s, left[s][0]), Item(i, left[i][j]))
    {
      assert Before(Item(s, left[s][0]), Item(i, left[i][0]));
      assert left[i][0].ts <= left[i][j].ts;
    }
  }

  lemma StillPrecedes(item: Item, left: seq<seq<Row>>, s: nat)
    requires Precedes(item, left) && s < |left| && left[s] != []
    ensures Precedes(item, left[s := left[s][1..]])
  {
    var rest := left[s := left[s][1..]];
    forall i, j | 0 <= i < |rest| && 0 <= j < |rest[i]|
      ensures Before(item, Item(i, rest[i][j]))
    {
      assert rest[i][j] == left[i][if i == s then j + 1 else j];
    }
  }

  lemma ConservedOneMore(out: seq<Item>, left: seq<seq<Row>>, all: seq<seq<Row>>, s: nat)
    requires Conserved(out, left, all) && s < |left| && left[s] != []
    ensures Conserved(out + [Item(s, left[s][0])], left[s := left[s][1..]], all)
    ensures left[s][0] in all[s]
  {
    var item, rest := Item(s, left[s][0]), left[s := left[s][1..]];
    assert all[s] == Of(s, out) + left[s];
    forall i | 0 <= i < |all|
      ensures all[i] == Of(i, out + [item]) + rest[i]
    {
      OfSnoc(i, out, item);
      assert all[i] == Of(i, out) + left[i];
      if i == s { assert left[s] == [left[s][0]] + left[s][1..]; }
    }
  }

  lemma {:induction false} OfSnoc(stream: nat, items: seq<Item>, item: Item)
    ensures Of(stream, items + [item])
         == Of(stream, items) + (if item.stream == stream then [item.row] else [])
    decreases |items|
  {
    var more := items + [item];
    if items == [] {
      assert more == [item] && [item][1..] == [];
    } else {
      OfSnoc(stream, items[1..], item);
      assert more[0] == items[0] && more[1..] == items[1..] + [item];
      assert Of(stream, more) == (if items[0].stream == stream then [items[0].row] else []) + Of(stream, more[1..]);
    }
  }

  lemma MergeOneMore(out: seq<Item>, left: seq<seq<Row>>, all: seq<seq<Row>>, s: nat)
    requires MergedSoFar(out, left, all) && IsEarliest(left, s)
    ensures left[s][0] in all[s]
    ensures MergedSoFar(out + [Item(s, left[s][0])], left[s := left[s][1..]], all)
  {
    hide Of, Conserved, Precedes, Before;
    var item, rest := Item(s, left[s][0]), left[s := left[s][1..]];
    var more := out + [item];
    ConservedOneMore(out, left, all, s);
    EarliestPrecedes(left, s);
    forall k | 0 <= k < |more|
      ensures Precedes(more[k], rest)
    {
      StillPrecedes(more[k], left, s);
    }
    forall i, j | 0 <= i < j < |more|
      ensures Before(more[i], more[j])
    {
      if j == |out| { HeadComesAfter(out[i], left, s); }
    }
  }

  lemma NothingMergedYet(queues: seq<seq<Row>>)
    requires forall i :: 0 <= i < |queues| ==> Ordered(queues[i])
    ensures MergedSoFar([], queues, queues)
  {
  }

  lemma IsEarliestMeans(queues: seq<seq<Row>>, s: nat)
    requires IsEarliest(queues, s)
    ensures s < |queues| && queues[s] != []
  {
  }

  lemma RecordIs(item: Item, record: Record, blob: (nat, int) -> Option<seq<byte>>)
    requires blob(item.stream, item.row.id).Some?
    requires record == Record(item.stream, item.row.ts, blob(item.stream, item.row.id).value)
    ensures record == RecordOf(item, blob)
  {
  }

  lemma HeadComesAfter(item: Item, left: seq<seq<Row>>, s: nat)
    requires Precedes(item, left) && s < |left| && left[s] != []
    ensures Before(item, Item(s, left[s][0]))
  {
  }

  lemma MergedAll(out: seq<Item>, left: seq<seq<Row>>, all: seq<seq<Row>>)
    requires MergedSoFar(out, left, all) && forall i :: 0 <= i < |left| ==> left[i] == []
    ensures Merges(out, all)
  {
    forall i | 0 <= i < |all|
      ensures Of(i, out) == all[i]
    {
      assert all[i] == Of(i, out) + left[i];
    }
  }

  /** The page size does not show: sizes that end no page inside a tie give one output, and it is complete. */
  lemma PagingNeverShows(tables: seq<seq<Row>>, p: nat, q: nat, a: seq<Item>, b: seq<Item>)
    requires p > 0 && q > 0
    requires forall i :: 0 <= i < |tables| ==> Ordered(tables[i])
    requires forall i :: 0 <= i < |tables| ==> NoTieAtPageEnd(tables[i], p) && NoTieAtPageEnd(tables[i], q)
    requires Merges(a, AllDelivered(tables, p)) && Merges(b, AllDelivered(tables, q))
    ensures a == b && Merges(a, tables)
  {
    hide Delivered, NoTieAtPageEnd, Ordered;
    forall i | 0 <= i < |tables|
      ensures Delivered(tables[i], p) == tables[i] && Delivered(tables[i], q) == tables[i]
    {
      AllDeliveredIff(tables[i], p);
      AllDeliveredIff(tables[i], q);
    }
    assert AllDelivered(tables, p) == tables && AllDelivered(tables, q) == tables;
    MergeIsUnique(a, b, tables);
  }

  /** A pass always starts on ordered queues, so it always drains to their merge. */
  lemma DeliveredQueuesAreOrdered(tables: seq<seq<Row>>, size: nat)
    requires size > 0
    requires forall i :: 0 <= i < |tables| ==> Ordered(tables[i])
    ensures forall i :: 0 <= i < |tables| ==> Ordered(AllDelivered(tables, size)[i])
  {
    forall i | 0 <= i < |tables|
      ensures Ordered(Delivered(tables[i], size))
    {
      DeliveredInOrder(tables[i], size);
    }
  }

  lemma SameRest(table: seq<Row>, c: Cursor, size: nat)
    requires CursorValid(table, c) && size > 0 && c.page == [] && Page(After(table, c.lastTs), size) == []
    ensures CursorValid(table, c.(done := true)) && Rest(table, c.(done := true), size) == Rest(table, c, size)
  {
  }

  ghost function AllDelivered(tables: seq<seq<Row>>, size: nat): seq<seq<Row>>
    requires size > 0
    requires forall i :: 0 <= i < |tables| ==> Ordered(tables[i])
  {
    seq(|tables|, i requires 0 <= i < |tables| => Delivered(tables[i], size))
  }

  lemma FreshCursors(tables: seq<seq<Row>>, size: nat)
    requires size > 0
    requires forall i :: 0 <= i < |tables| ==> Ordered(tables[i])
    ensures var cursors := seq(|tables|, _ => NEW_CURSOR);
            CursorsValid(tables, cursors) && QueuesOf(tables, cursors, size) == AllDelivered(tables, size)
  {
    hide Delivered, Ordered;
    var cursors := seq(|tables|, _ => NEW_CURSOR);
    forall i | 0 <= i < |tables|
      ensures CursorValid(tables[i], cursors[i])
      ensures Rest(tables[i], cursors[i], size) == Delivered(tables[i], size)
    {
      assert [] + Delivered(tables[i], size) == Delivered(tables[i], size);
    }
  }
}
