/**
 * Keyset pagination, as src/Operations/Maintenance.php builds it: rows in index order, and a
 * seek predicate over several columns. A column value is represented by its rank in the column.
 */
module SeekPaging {
  import opened Options

  type Position = seq<int>

  /** A row of the index; `done` says that its result, or its publication time, is not null. */
  datatype Row = Row(position: Position, done: bool)

  /** The alternatives of the query: equal in every earlier column, and greater in this one. */
  predicate Seek(cursor: Position, row: Position)
    requires |cursor| == |row|
  {
    exists index :: 0 <= index < |row| && SeekTerm(cursor, row, index)
  }

  predicate SeekTerm(cursor: Position, row: Position, index: nat)
    requires index < |cursor| == |row|
  {
    && cursor[index] < row[index]
    && forall previous :: 0 <= previous < index ==> row[previous] == cursor[previous]
  }

  /** Maintenance::after. */
  predicate After(cursor: Option<Position>, row: Position) {
    cursor.None? || (|cursor.value| == |row| && Seek(cursor.value, row))
  }

  /** The order of the index. */
  predicate Precedes(a: Position, b: Position) {
    |a| == |b| && |a| > 0 && (a[0] < b[0] || (a[0] == b[0] && Precedes(a[1..], b[1..])))
  }

  /** The seek predicate is exactly "later in the index". */
  lemma {:induction false} SeekIsIndexOrder(cursor: Position, row: Position)
    requires |cursor| == |row|
    ensures Seek(cursor, row) <==> Precedes(cursor, row)
  {
    if |row| > 0 {
      SeekIsIndexOrder(cursor[1..], row[1..]);
      if Seek(cursor, row) && cursor[0] == row[0] {
        var index :| 0 <= index < |row| && SeekTerm(cursor, row, index);
        assert SeekTerm(cursor[1..], row[1..], index - 1);
      }
      if Precedes(cursor, row) {
        if cursor[0] < row[0] {
          assert SeekTerm(cursor, row, 0);
        } else {
          var index :| 0 <= index < |row| - 1 && SeekTerm(cursor[1..], row[1..], index);
          forall previous | 0 <= previous < index + 1 ensures row[previous] == cursor[previous] {
            if previous > 0 { assert row[1..][previous - 1] == cursor[1..][previous - 1]; }
          }
          assert SeekTerm(cursor, row, index + 1);
        }
      }
    }
  }

  /** The index order is a strict total order on positions with the same columns. */
  lemma {:induction false} IndexOrderIsTotal(a: Position, b: Position)
    requires |a| == |b|
    ensures a == b ==> !Precedes(a, b)
    ensures a != b ==> Precedes(a, b) != Precedes(b, a)
  {
    if |a| > 0 {
      IndexOrderIsTotal(a[1..], b[1..]);
      assert a == [a[0]] + a[1..] && b == [b[0]] + b[1..];
    }
  }

  lemma {:induction false} IndexOrderIsTransitive(a: Position, b: Position, c: Position)
    requires Precedes(a, b) && Precedes(b, c)
    ensures Precedes(a, c)
  {
    if a[0] == b[0] == c[0] {
      IndexOrderIsTransitive(a[1..], b[1..], c[1..]);
    }
  }

  /** `a` is later than the cursor and `b` later than `a`: then `b` is later than the cursor. */
  lemma {:induction false} AfterIsTransitive(cursor: Option<Position>, a: Position, b: Position)
    requires After(cursor, a) && Precedes(a, b)
    ensures After(cursor, b) && After(Some(a), b) && !After(Some(b), a) && !After(Some(a), a)
  {
    SeekIsIndexOrder(a, b);
    SeekIsIndexOrder(b, a);
    SeekIsIndexOrder(a, a);
    IndexOrderIsTotal(a, b);
    IndexOrderIsTotal(a, a);
    if cursor.Some? {
      SeekIsIndexOrder(cursor.value, a);
      IndexOrderIsTransitive(cursor.value, a, b);
      SeekIsIndexOrder(cursor.value, b);
    }
  }

  // ------------------------------------------------------------- queries

  predicate Sorted(index: seq<Row>) {
    forall i, j :: 0 <= i < j < |index| ==> Precedes(index[i].position, index[j].position)
  }

  predicate Ordered(page: seq<Position>) {
    forall i, j :: 0 <= i < j < |page| ==> Precedes(page[i], page[j])
  }

  predicate Matches(row: Row, cutoff: int, cursor: Option<Position>) {
    row.done && |row.position| > 0 && row.position[0] < cutoff && After(cursor, row.position)
  }

  /** The rows of the query, in index order. */
  function Select(index: seq<Row>, cutoff: int, cursor: Option<Position>): seq<Position> {
    if index == [] then []
    else
      var rest := Select(index[1..], cutoff, cursor);
      if Matches(index[0], cutoff, cursor) then [index[0].position] + rest else rest
  }

  /** The table without the given rows. */
  function Without(index: seq<Row>, gone: seq<Position>): seq<Row> {
    if index == [] then []
    else
      var rest := Without(index[1..], gone);
      if index[0].position in gone then rest else [index[0]] + rest
  }

  /** A position is selected if and only if a row with it matches. */
  lemma {:induction false} SelectedIff(index: seq<Row>, cutoff: int, cursor: Option<Position>, p: Position)
    ensures p in Select(index, cutoff, cursor) <==>
              exists i :: 0 <= i < |index| && index[i].position == p && Matches(index[i], cutoff, cursor)
  {
    if index != [] {
      SelectedIff(index[1..], cutoff, cursor, p);
      forall i | 0 <= i < |index| && index[i].position == p && Matches(index[i], cutoff, cursor)
        ensures p in Select(index, cutoff, cursor) {
        if i > 0 { assert index[1..][i - 1].position == p && Matches(index[1..][i - 1], cutoff, cursor); }
      }
      if p in Select(index[1..], cutoff, cursor) {
        var i :| 0 <= i < |index| - 1 && index[1..][i].position == p && Matches(index[1..][i], cutoff, cursor);
        assert index[i + 1].position == p && Matches(index[i + 1], cutoff, cursor);
      }
    }
  }

  lemma {:induction false} SelectedInOrder(index: seq<Row>, cutoff: int, cursor: Option<Position>)
    requires Sorted(index)
    ensures Ordered(Select(index, cutoff, cursor))
    ensures forall p :: p in Select(index, cutoff, cursor) ==> After(cursor, p) && |p| > 0 && p[0] < cutoff
  {
    if index != [] {
      SelectedInOrder(index[1..], cutoff, cursor);
      var rest := Select(index[1..], cutoff, cursor);
      forall j | 0 <= j < |rest| ensures Precedes(index[0].position, rest[j]) {
        SelectedIff(index[1..], cutoff, cursor, rest[j]);
        var i :| 0 <= i < |index| - 1 && index[1..][i].position == rest[j];
        assert index[i + 1].position == rest[j];
      }
    }
  }

  lemma {:induction false} SelectAgrees(index: seq<Row>, cutoff: int, c: Option<Position>, d: Option<Position>)
    requires forall i :: 0 <= i < |index| ==> Matches(index[i], cutoff, c) == Matches(index[i], cutoff, d)
    ensures Select(index, cutoff, c) == Select(index, cutoff, d)
  {
    if index != [] {
      forall i | 0 <= i < |index| - 1 ensures Matches(index[1..][i], cutoff, c) == Matches(index[1..][i], cutoff, d) {
        assert index[1..][i] == index[i + 1];
      }
      SelectAgrees(index[1..], cutoff, c, d);
    }
  }

  /** Seeking past the k-th row selects exactly the rows after it: pages neither overlap nor leave a gap. */
  lemma {:induction false} PagesAreGapFree(index: seq<Row>, cutoff: int, cursor: Option<Position>, k: nat)
    requires Sorted(index) && 0 < k <= |Select(index, cutoff, cursor)|
    ensures Select(index, cutoff, Some(Select(index, cutoff, cursor)[k - 1])) == Select(index, cutoff, cursor)[k..]
  {
    var all, head, rest := Select(index, cutoff, cursor), index[0].position, Select(index[1..], cutoff, cursor);
    var last := Some(all[k - 1]);
    SelectedInOrder(index, cutoff, cursor);
    if Matches(index[0], cutoff, cursor) {
      if k == 1 {
        forall i | 0 <= i < |index| - 1
          ensures Matches(index[1..][i], cutoff, cursor) == Matches(index[1..][i], cutoff, last) {
          assert index[1..][i] == index[i + 1] && Precedes(head, index[i + 1].position);
          AfterIsTransitive(cursor, head, index[i + 1].position);
        }
        SelectAgrees(index[1..], cutoff, cursor, last);
        IndexOrderIsTotal(head, head);
        SeekIsIndexOrder(head, head);
      } else {
        assert Precedes(all[0], all[k - 1]);
        AfterIsTransitive(cursor, head, all[k - 1]);
        PagesAreGapFree(index[1..], cutoff, cursor, k - 1);
      }
    } else {
      PagesAreGapFree(index[1..], cutoff, cursor, k);
      SelectedIff(index[1..], cutoff, cursor, all[k - 1]);
      var i :| 0 <= i < |index| - 1 && index[1..][i].position == all[k - 1] && Matches(index[1..][i], cutoff, cursor);
      assert Precedes(head, index[i + 1].position);
      AfterIsTransitive(None, head, all[k - 1]);
    }
  }

  lemma {:induction false} WithoutIs(index: seq<Row>, gone: seq<Position>, row: Row)
    ensures row in Without(index, gone) <==> row in index && row.position !in gone
  {
    if index != [] {
      WithoutIs(index[1..], gone, row);
      assert index == [index[0]] + index[1..];
    }
  }

  lemma {:induction false} WithoutSorted(index: seq<Row>, gone: seq<Position>)
    requires Sorted(index)
    ensures Sorted(Without(index, gone))
  {
    if index != [] {
      WithoutSorted(index[1..], gone);
      var rest := Without(index[1..], gone);
      forall j | 0 <= j < |rest| ensures Precedes(index[0].position, rest[j].position) {
        WithoutIs(index[1..], gone, rest[j]);
        var i :| 0 <= i < |index| - 1 && index[1..][i] == rest[j];
        assert index[i + 1] == rest[j];
      }
    }
  }

  /** Rows at or before the cursor may be removed without changing what comes after it. */
  lemma {:induction false} RemovalKeepsTheRest(index: seq<Row>, gone: seq<Position>, cutoff: int,
                                               cursor: Option<Position>)
    requires forall p :: p in gone ==> !After(cursor, p)
    ensures Select(Without(index, gone), cutoff, cursor) == Select(index, cutoff, cursor)
  {
    if index != [] {
      RemovalKeepsTheRest(index[1..], gone, cutoff, cursor);
    }
  }

  lemma {:induction false} RemovedTwice(index: seq<Row>, a: seq<Position>, b: seq<Position>)
    ensures Without(Without(index, a), b) == Without(index, a + b)
  {
    if index != [] {
      RemovedTwice(index[1..], a, b);
    }
  }
}
