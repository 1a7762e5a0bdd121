/** src/Operations/Maintenance.php with src/Operations/CleanupStatus.php: the clean-up run itself. */
module Cleaning {
  import opened Options
  import opened RedisStream
  import opened StreamRetention
  import opened SeekPaging
  import opened CleanupModel

  class Maintenance {
    var streams: map<Resource, Stream<string>>
    var outbox: seq<Row>               // published_at and id, in index order
    var receipts: seq<Row>             // updated_at, session and command, in index order
    var waiting: set<Position>         // the keys of receipts with an unpublished result
    var stored: Option<Position>       // operations:prune:receipts:cursor
    var late: bool                     // the time budget of this run is used up
    ghost var scans: seq<Position>     // receipts scanned since the traversal began
    ghost var began: set<Position>     // those due when it began
    ghost var since: int               // the cutoff it began with
    ghost var steady: bool             // the cursor has been read and written without failure since
    ghost var visits: seq<Visited>     // receipts looked at under their lock, and what was found

    ghost predicate Valid()
      reads this
    {
      && Sound() && ReceiptTable(receipts)
      && (stored.Some? ==> |stored.value| == 3 && Traversing(stored))
    }

    ghost predicate Traversing(cursor: Option<Position>)
      reads `receipts, `scans, `began, `since, `steady
    {
      Covered(receipts, scans, began, since, cursor) && (steady ==> InOrder(scans, cursor))
    }

    constructor (streams: map<Resource, Stream<string>>, outbox: seq<Row>, receipts: seq<Row>, waiting: set<Position>)
      requires forall name: Resource :: name.IsStream() ==> name in streams && streams[name].Valid()
      requires WellFormed(outbox, 2) && ReceiptTable(receipts)
      ensures Valid() && stored.None?
    {
      this.streams, this.outbox, this.receipts, this.waiting := streams, outbox, receipts, waiting;
      stored, late, scans, began, since, steady, visits := None, false, [], {}, 0, true, [];
    }

    /** The deadline check; time only moves on. */
    method Expired() returns (expired: bool)
      modifies `late
      ensures expired == late && (old(late) ==> late)
    {
      var passed: bool := *;
      late := late || passed;
      expired := late;
    }

    /** Other processes, between two statements: any change to receipts stamps updated_at with the present. */
    method Others(cutoff: int)
      requires ReceiptTable(receipts)
      modifies `receipts, `waiting
      ensures ReceiptTable(receipts) && Aged(old(receipts), receipts, cutoff)
    {
      var table: seq<Row>, results: set<Position> := *, *;
      if ReceiptTable(table) && Aged(receipts, table, cutoff) {
        receipts := table;
      }
      waiting := results;
    }

    /** Between runs everything may change, but no change dates a receipt back before `past`. */
    method Elsewhere(past: int)
      requires Valid() && since <= past
      modifies `streams, `outbox, `receipts, `waiting
      ensures Valid() && Aged(old(receipts), receipts, past)
    {
      Others(past);
      Replaced();
      if stored.Some? {
        StillCovered(old(receipts), receipts, scans, scans, began, since, past, stored);
      }
    }

    method Replaced()
      requires Sound()
      modifies `streams, `outbox
      ensures Sound()
    {
      var logs: map<Resource, Stream<string>>, rows: seq<Row> := *, *;
      if forall name: Resource :: name.IsStream() ==> name in logs && logs[name].Valid() {
        streams := logs;
      }
      if WellFormed(rows, 2) {
        outbox := rows;
      }
    }

    /** One receipt under its row lock: gone or renewed, still evidence for an unpublished result, or removable. */
    method Visit(p: Position, cutoff: int, dryRun: bool) returns (eligible: nat, deleted: nat, isProtected: nat)
      requires ReceiptTable(receipts)
      modifies `receipts, `visits
      ensures ReceiptTable(receipts)
      ensures |visits| == |old(visits)| + 1 && visits == old(visits) + [visits[|visits| - 1]]
      ensures var v := visits[|visits| - 1];
              && v.position == p && v.receipts == old(receipts) && v.waiting == waiting && Judged(v, cutoff)
              && eligible == (if v.finding.Removable? then 1 else 0)
              && isProtected == (if v.finding.Needed? then 1 else 0)
              && deleted == if dryRun then 0 else eligible
      ensures deleted == 0 ==> receipts == old(receipts)
      ensures deleted == 1 ==>
                exists row :: row in old(receipts) && IsDue(row, p, cutoff)
                  && receipts == Without(old(receipts), [row.position])
    {
      eligible, deleted, isProtected := 0, 0, 0;
      ghost var v := Visited(p, receipts, waiting, NotDue);
      if exists i :: 0 <= i < |receipts| && KeyAt(receipts[i].position) == KeyAt(p) {
        var i :| 0 <= i < |receipts| && KeyAt(receipts[i].position) == KeyAt(p);
        var current := receipts[i];
        OnlyCurrent(v, i, cutoff);
        if current.done && current.position[0] < cutoff {
          assert IsDue(current, p, cutoff);
          if KeyAt(p) in waiting {
            isProtected, v := 1, v.(finding := Needed);
          } else {
            eligible, v := 1, v.(finding := Removable);
            if !dryRun {
              RemovalKeepsTable(receipts, [current.position]);
              receipts, deleted := Without(receipts, [current.position]), 1;
            }
          }
        }
      }
      visits := visits + [v];
    }

    /** One row of the page: others have their turn, then the row is looked at again under its lock. */
    method Scan(p: Position, cutoff: int, dryRun: bool) returns (eligible: nat, deleted: nat, isProtected: nat)
      requires ReceiptTable(receipts) && OnlyRow(receipts, p, cutoff)
      modifies `receipts, `waiting, `scans, `visits
      ensures ReceiptTable(receipts) && Aged(old(receipts), receipts, cutoff)
      ensures Tallied(old(visits), visits, cutoff, 1, eligible, isProtected > 0)
      ensures eligible + isProtected <= 1 && deleted == if dryRun then 0 else eligible
      ensures scans == if dryRun then old(scans) else old(scans) + [p]
    {
      Others(cutoff);
      ghost var before := receipts;
      if !dryRun {
        scans := scans + [p];
      }
      ghost var looked := visits;
      eligible, deleted, isProtected := Visit(p, cutoff, dryRun);
      OneLook(looked, visits[|visits| - 1], cutoff);
      if deleted == 1 {
        RemovalIsAged(old(receipts), before, [p], cutoff);
      }
    }

    /** Part-way through a page: what is due and unscanned lies ahead on it. */
    ghost predicate Paging(index: seq<Row>, cutoff: int, cursor: Option<Position>, n: nat, dryRun: bool)
      reads `receipts, `scans, `began, `since, `steady
    {
      && ReceiptTable(receipts) && Aged(index, receipts, cutoff) && since <= cutoff
      && n <= |Select(index, cutoff, cursor)| && (dryRun || Tracking(Select(index, cutoff, cursor), n, cursor))
    }

    ghost predicate Tracking(all: seq<Position>, n: nat, cursor: Option<Position>)
      requires n <= |all|
      reads `receipts, `scans, `began, `since, `steady
    {
      && Ahead(all, n, receipts, scans, began) && (steady ==> InOrder(scans, CursorAt(all, n, cursor)))
      && Covered(receipts, scans, began, since, cursor)
    }

    /** The next row of the page. */
    method Next(ghost index: seq<Row>, cutoff: int, dryRun: bool, ghost cursor: Option<Position>, ghost n: nat,
                p: Position)
      returns (eligible: nat, deleted: nat, isProtected: nat)
      requires ReceiptTable(index) && Paging(index, cutoff, cursor, n, dryRun)
      requires n < |Select(index, cutoff, cursor)| && p == Select(index, cutoff, cursor)[n]
      modifies `receipts, `waiting, `scans, `visits
      ensures Tallied(old(visits), visits, cutoff, 1, eligible, isProtected > 0)
      ensures Paging(index, cutoff, cursor, n + 1, dryRun)
      ensures scans == if dryRun then old(scans) else old(scans) + [p]
      ensures eligible + isProtected <= 1 && deleted == (if dryRun then 0 else eligible) && |p| == 3
    {
      OnlyOnePerKey(index, receipts, cutoff, cursor, n);
      ghost var before, table := scans, receipts;
      eligible, deleted, isProtected := Scan(p, cutoff, dryRun);
      AgedAgain(index, table, receipts, cutoff, cutoff);
      if !dryRun {
        ghost var all := Select(index, cutoff, cursor);
        StillCovered(table, receipts, before, scans, began, since, cutoff, cursor);
        StillAhead(all, n, table, receipts, before, began, since, cutoff, cursor);
        if steady {
          AheadIsAfter(index, cutoff, cursor, n, p);
          ScanInOrder(before, CursorAt(all, n, cursor), p);
        }
      }
    }

    /** The query behind has_more. */
    method HasMore(ghost index: seq<Row>, cutoff: int, dryRun: bool, ghost cursor: Option<Position>, ghost n: nat,
                   at: Option<Position>) returns (more: bool)
      requires ReceiptTable(index) && Paging(index, cutoff, cursor, n, dryRun)
      requires at == CursorAt(Select(index, cutoff, cursor), n, cursor)
      ensures more ==> n < |Select(index, cutoff, cursor)|
      ensures !dryRun ==> Traversing(at)
      ensures !dryRun && !more ==> AllScanned(receipts, scans, began)
    {
      var left := Select(receipts, cutoff, at);
      more := left != [];
      if !dryRun {
        CoveredAlong(index, receipts, cutoff, cursor, n, scans, began, since, cursor);
        if !more {
          NothingLeft(receipts, cutoff, scans, began, since, at);
        }
      }
      if more {
        NothingNew(index, receipts, cutoff, at, left[0]);
        if n > 0 {
          PagesAreGapFree(index, cutoff, cursor, n);
        }
      }
    }

    /** The rows of a page, one by one, until the time runs out. */
    method ScanPage(ghost index: seq<Row>, cutoff: int, dryRun: bool, cursor: Option<Position>, page: seq<Position>)
      returns (scanned: nat, eligible: nat, deleted: nat, isProtected: bool, at: Option<Position>)
      requires ReceiptTable(index) && Paging(index, cutoff, cursor, 0, dryRun) && page <= Select(index, cutoff, cursor)
      requires cursor.Some? ==> |cursor.value| == 3
      modifies `receipts, `waiting, `late, `scans, `visits
      ensures scanned <= |page| && Paging(index, cutoff, cursor, scanned, dryRun)
      ensures scans == if dryRun then old(scans) else old(scans) + page[..scanned]
      ensures Tallied(old(visits), visits, cutoff, scanned, eligible, isProtected)
      ensures at == CursorAt(Select(index, cutoff, cursor), scanned, cursor) && (at.Some? ==> |at.value| == 3)
      ensures (old(late) ==> late) && (!late ==> scanned == |page|)
      ensures eligible <= scanned && deleted == if dryRun then 0 else eligible
    {
      hide Tallied, Paging;
      scanned, eligible, deleted, isProtected, at := 0, 0, 0, false, cursor;
      ghost var was := Here();
      NoLook(visits, cutoff);
      while scanned < |page|
        invariant scanned <= |page| && Paging(index, cutoff, cursor, scanned, dryRun)
        invariant Kept(was, page, cutoff, dryRun, scanned, eligible, isProtected)
        invariant at == CursorAt(Select(index, cutoff, cursor), scanned, cursor) && (at.Some? ==> |at.value| == 3)
        invariant (old(late) ==> late) && eligible <= scanned && deleted == if dryRun then 0 else eligible
      {
        var expired := Expired();
        if expired {
          break;
        }
        var e, d, kept;
        e, d, kept, at := ScanNext(index, cutoff, dryRun, cursor, page, was, scanned, eligible, isProtected);
        scanned, eligible, deleted, isProtected := scanned + 1, eligible + e, deleted + d, isProtected || kept > 0;
      }
    }

    /** The records of the rows scanned so far. */
    ghost predicate Kept(was: Trail, page: seq<Position>, cutoff: int, dryRun: bool, scanned: nat, eligible: nat,
                         isProtected: bool)
      reads `scans, `visits
    {
      && scanned <= |page| && scans == (if dryRun then was.scans else was.scans + page[..scanned])
      && Tallied(was.visits, visits, cutoff, scanned, eligible, isProtected)
    }

    /** The next row of the page, and the records of it. */
    method ScanNext(ghost index: seq<Row>, cutoff: int, dryRun: bool, ghost cursor: Option<Position>,
                    page: seq<Position>, ghost was: Trail, scanned: nat, ghost eligible: nat, ghost isProtected: bool)
      returns (e: nat, d: nat, kept: nat, at: Option<Position>)
      requires ReceiptTable(index) && Paging(index, cutoff, cursor, scanned, dryRun) && scanned < |page|
               && page <= Select(index, cutoff, cursor)
      requires Kept(was, page, cutoff, dryRun, scanned, eligible, isProtected)
      modifies `receipts, `waiting, `scans, `visits
      ensures Paging(index, cutoff, cursor, scanned + 1, dryRun)
      ensures Kept(was, page, cutoff, dryRun, scanned + 1, eligible + e, isProtected || kept > 0)
      ensures e <= 1 && d == (if dryRun then 0 else e)
      ensures at == CursorAt(Select(index, cutoff, cursor), scanned + 1, cursor) && at.Some? && |at.value| == 3
    {
      OneMore(page, Select(index, cutoff, cursor), scanned, was.scans);
      ghost var looked := visits;
      e, d, kept := Next(index, cutoff, dryRun, cursor, scanned, page[scanned]);
      TalliedAgain(was.visits, looked, visits, cutoff, scanned, 1, eligible, e, isProtected, kept > 0);
      at := Some(page[scanned]);
    }

    /**
     * Maintenance::receipts: one page. Every row before the new cursor has been scanned; an early
     * stop only keeps the cursor back.
     */
    method ReceiptPage(cutoff: int, dryRun: bool, limit: nat, cursor: Option<Position>)
      returns (scanned: nat, eligible: nat, deleted: nat, isProtected: bool, more: bool, at: Option<Position>)
      requires ReceiptTable(receipts) && limit > 0 && since <= cutoff && (cursor.Some? ==> |cursor.value| == 3)
      requires !dryRun ==> Traversing(cursor)
      modifies `receipts, `waiting, `late, `scans, `visits
      ensures ReceiptTable(receipts) && Aged(old(receipts), receipts, cutoff) && (old(late) ==> late)
              && (at.Some? ==> |at.value| == 3)
      // What is scanned is the next stretch of the due receipts, as the query found them.
      ensures scanned <= |Select(old(receipts), cutoff, cursor)|
      ensures scans == if dryRun then old(scans) else old(scans) + Select(old(receipts), cutoff, cursor)[..scanned]
      ensures at == CursorAt(Select(old(receipts), cutoff, cursor), scanned, cursor)
      ensures !late ==> scanned == Min(limit, |Select(old(receipts), cutoff, cursor)|)
      ensures Tallied(old(visits), visits, cutoff, scanned, eligible, isProtected)
      ensures eligible <= scanned <= limit && deleted == if dryRun then 0 else eligible
      ensures more && !late ==> scanned == limit
      ensures !dryRun ==> Traversing(at)
      ensures !dryRun && !more ==> AllScanned(receipts, scans, began)
    {
      ghost var index := receipts;
      var all := Select(receipts, cutoff, cursor);
      var page := all[..Min(limit, |all|)];
      assert Paging(index, cutoff, cursor, 0, dryRun) by {
        if !dryRun {
          PageHoldsTheRest(index, cutoff, scans, began, since, cursor);
        }
        AgedItself(index, cutoff);
      }
      scanned, eligible, deleted, isProtected, at := ScanPage(index, cutoff, dryRun, cursor, page);
      assert page[..scanned] == all[..scanned];
      more := HasMore(index, cutoff, dryRun, cursor, scanned, at);
    }

    // -------------------------------------------------------------- one turn

    /** The run so far, measured against the streams and the outbox it began with. */
    ghost predicate SoFar(run: Run, p: Progress, logs: map<Resource, Stream<string>>, rows: seq<Row>)
      reads `streams, `outbox
    {
      && Complete(p, logs) && Complete(p, streams)
      && AllSoFar(run, p, logs, rows, streams, outbox)
    }

    method StreamTurn(run: Run, name: Resource, p: Progress, ghost logs: map<Resource, Stream<string>>,
                      ghost rows: seq<Row>) returns (q: Progress)
      requires run.Accepted() && name.IsStream() && SoFar(run, p, logs, rows) && p.states[name].scanned < run.limit
               && logs[name].Valid()
      modifies `streams
      ensures SoFar(run, q, logs, rows) && Turned(p, q, name, run.limit, late)
      ensures q.receipt == p.receipt && InStep(run, p.states[name], q.states[name], late)
    {
      assert ResourceSoFar(run, name, p, logs, rows, streams, outbox);
      ghost var before := streams;
      var t, tally, at := StreamPage(run, name, logs[name], streams[name], p.states[name], p.at[name]);
      streams := streams[name := t];
      q := p.(states := p.states[name := tally], at := p.at[name := at]);
      OneTurned(run, name, p, q, logs, rows, before, streams, outbox, outbox);
    }

    /** One batch of a stream, and its tally. */
    static method StreamPage(run: Run, name: Resource, ghost s: Stream<string>, t: Stream<string>, tally: Tally,
                             at: Option<nat>)
      returns (u: Stream<string>, next: Tally, cursor: Option<nat>)
      requires run.Accepted() && s.Valid() && t.Valid() && StreamSoFar(run, name, s, t, tally, at)
               && tally.scanned < run.limit
      ensures u.Valid() && StreamSoFar(run, name, s, u, next, cursor) && next.more.Some?
      ensures next.more.value ==> tally.scanned < next.scanned
      ensures InStep(run, tally, next, false)
    {
      var count := Min(run.batchSize, run.limit - tally.scanned);
      var batch;
      u, batch := StreamRetention.Prune(t, run.StreamCutoff(name), run.dryRun, count, name.IsDead(), at);
      StreamBatch(run, name, s, t, tally, at, count, u, batch);
      next, cursor :=
        Added(tally, batch.eligible, batch.eligible, batch.deleted, batch.hasMore, batch.isProtected), batch.cursor;
      BatchInStep(run, tally, batch.eligible, next, count, false);
    }

    /** Maintenance::published. The ids of a page are deleted in one statement. */
    method OutboxTurn(run: Run, p: Progress, ghost logs: map<Resource, Stream<string>>, ghost rows: seq<Row>)
      returns (q: Progress)
      requires run.Accepted() && SoFar(run, p, logs, rows) && p.states[PublishedOutbox].scanned < run.limit
               && WellFormed(rows, 2)
      modifies `outbox
      ensures SoFar(run, q, logs, rows) && Turned(p, q, PublishedOutbox, run.limit, late)
      ensures q.receipt == p.receipt && InStep(run, p.states[PublishedOutbox], q.states[PublishedOutbox], late)
    {
      assert ResourceSoFar(run, PublishedOutbox, p, logs, rows, streams, outbox);
      var tally, cursor := p.states[PublishedOutbox], p.row;
      var count := Min(run.batchSize, run.limit - tally.scanned);
      var page := Select(outbox, run.OutboxCutoff(), cursor);
      page := page[..Min(count, |page|)];
      if |page| > 0 {
        cursor := Some(page[|page| - 1]);
      }
      ghost var before := outbox;
      if !run.dryRun {
        outbox := Without(outbox, page);
      }
      OutboxBatch(run, rows, before, tally, p.row, count, page, outbox, cursor);
      var more := Select(outbox, run.OutboxCutoff(), cursor) != [];
      q := p.(states := p.states[PublishedOutbox :=
        Added(tally, |page|, |page|, if run.dryRun then 0 else |page|, more, false)], row := cursor);
      BatchInStep(run, tally, |page|, q.states[PublishedOutbox], count, late);
      OneTurned(run, PublishedOutbox, p, q, logs, rows, streams, streams, before, outbox);
    }

    method ReceiptTurn(run: Run, p: Progress, ghost logs: map<Resource, Stream<string>>, ghost rows: seq<Row>)
      returns (q: Progress)
      requires run.Accepted() && SoFar(run, p, logs, rows) && p.states[Receipts].scanned < run.limit
               && since <= run.ReceiptCutoff()
      requires Receiving(p.receipt, run.dryRun)
      modifies `receipts, `waiting, `late, `scans, `visits
      ensures SoFar(run, q, logs, rows) && Turned(p, q, Receipts, run.limit, late) && (old(late) ==> late)
      ensures InStep(run, p.states[Receipts], q.states[Receipts], late)
      ensures Onward(run, p, q, old(Here()), Here())
      ensures Receiving(q.receipt, run.dryRun)
      ensures !run.dryRun && q.states[Receipts].more == Some(false) ==> AllScanned(receipts, scans, began)
    {
      assert ResourceSoFar(run, Receipts, p, logs, rows, streams, outbox);
      var tally := p.states[Receipts];
      var count := Min(run.batchSize, run.limit - tally.scanned);
      var scanned, eligible, deleted, kept, more, at := ReceiptPage(run.ReceiptCutoff(), run.dryRun, count, p.receipt);
      var next := Added(tally, scanned, eligible, deleted, more, tally.isProtected || kept);
      q := p.(states := p.states[Receipts := next], receipt := at);
      OnwardByPage(run, p, q, old(Here()), Here(), scanned, eligible, kept);
      BatchInStep(run, tally, scanned, next, count, late);
      OneTurned(run, Receipts, p, q, logs, rows, streams, streams, outbox, outbox);
    }

    /** What the receipts keep during a run. */
    ghost predicate Receiving(cursor: Option<Position>, dryRun: bool)
      reads `receipts, `scans, `began, `since, `steady
    {
      ReceiptTable(receipts) && (cursor.Some? ==> |cursor.value| == 3) && (!dryRun ==> Traversing(cursor))
    }

    /** The receipts and the records kept of them. */
    ghost function Here(): Trail
      reads `receipts, `scans, `visits
    {
      Trail(receipts, scans, visits)
    }

    /** CleanupStatus::receiptCursor. Without a stored cursor a new traversal begins; a failed read starts over, too. */
    method ReceiptCursor(cutoff: int, readable: bool) returns (cursor: Option<Position>)
      requires Valid() && since <= cutoff
      modifies `scans, `began, `since, `steady
      ensures Receiving(cursor, false) && cursor == if readable then stored else None
      ensures stored.None? ==> scans == [] && began == DueSet(receipts, cutoff) && since == cutoff && steady
      ensures stored.Some? ==>
                scans == old(scans) && began == old(began) && since == old(since) && steady == (old(steady) && readable)
    {
      cursor := if readable then stored else None;
      if stored.None? {
        scans, began, since, steady := [], DueSet(receipts, cutoff), cutoff, true;
        AllDue(receipts, cutoff);
      } else if !readable {
        steady := false;
      }
    }

    /** CleanupStatus::rememberReceiptCursor. A failed write keeps the older cursor. */
    method RememberReceiptCursor(cursor: Option<Position>, written: bool)
      modifies `stored, `steady
      ensures stored == (if written then cursor else old(stored)) && steady == (old(steady) && written)
    {
      if written {
        stored := cursor;
      } else {
        steady := false;
      }
    }

    // --------------------------------------------------------------- the run

    /** Where a run stands between two turns. */
    ghost predicate Running(run: Run, p: Progress, logs: map<Resource, Stream<string>>, rows: seq<Row>,
                            active: set<Resource>)
      reads `streams, `outbox, `receipts, `scans, `began, `since, `steady
    {
      && SoFar(run, p, logs, rows) && Receiving(p.receipt, run.dryRun) && since <= run.ReceiptCutoff()
      && (forall name: Resource {:trigger InTurn(run, name, p, active)} :: InTurn(run, name, p, active))
      && (!run.dryRun && p.states[Receipts].more == Some(false) ==> AllScanned(receipts, scans, began))
    }

    /** One resource's batch. */
    method Batch(run: Run, name: Resource, p: Progress, ghost logs: map<Resource, Stream<string>>, ghost rows: seq<Row>)
      returns (q: Progress)
      requires run.Accepted() && SoFar(run, p, logs, rows) && Receiving(p.receipt, run.dryRun)
               && since <= run.ReceiptCutoff()
      requires Usable(logs, rows) && p.states[name].scanned < run.limit
      modifies `streams, `outbox, `receipts, `waiting, `late, `scans, `visits
      ensures SoFar(run, q, logs, rows) && Receiving(q.receipt, run.dryRun) && Turned(p, q, name, run.limit, late)
              && (old(late) ==> late) && InStep(run, p.states[name], q.states[name], late)
      ensures Onward(run, p, q, old(Here()), Here())
      ensures !name.Receipts? ==> q.receipt == p.receipt && Here() == old(Here())
      ensures name.Receipts? && !run.dryRun && q.states[Receipts].more == Some(false) ==>
                AllScanned(receipts, scans, began)
    {
      AgedItself(receipts, run.ReceiptCutoff());
      match name {
        case Receipts =>
          q := ReceiptTurn(run, p, logs, rows);
        case PublishedOutbox =>
          q := OutboxTurn(run, p, logs, rows);
        case _ =>
          q := StreamTurn(run, name, p, logs, rows);
      }
    }

    /** One turn: a resource that has nothing more, or has reached the limit, leaves the round. */
    method Turn(run: Run, name: Resource, p: Progress, active: set<Resource>, ghost logs: map<Resource, Stream<string>>,
                ghost rows: seq<Row>)
      returns (q: Progress, left: set<Resource>)
      requires run.Accepted() && Running(run, p, logs, rows, active) && name in active && Usable(logs, rows)
      modifies `streams, `outbox, `receipts, `waiting, `late, `scans, `visits
      ensures Running(run, q, logs, rows, left) && (old(late) ==> late)
      ensures late || Work(NAMES, left, q, run.limit) < Work(NAMES, active, p, run.limit)
      ensures Onward(run, p, q, old(Here()), Here()) && Took(run, p, q, name, active, left, late)
    {
      assert InTurn(run, name, p, active);
      q := Batch(run, name, p, logs, rows);
      var done := q.states[name].more == Some(false) || q.states[name].scanned >= run.limit;
      left := if done then active - {name} else active;
      EveryName(name);
      StillInTurn(run, p, q, name, active, left);
      WorkFalls(NAMES, p, q, name, active, left, run.limit, late);
    }

    /** A resource's place in the round: it has its turn if it is still active and there is time. */
    method Offer(run: Run, n: nat, p: Progress, active: set<Resource>, ghost logs: map<Resource, Stream<string>>,
                 ghost rows: seq<Row>, ghost mark: nat)
      returns (q: Progress, left: set<Resource>)
      requires run.Accepted() && Running(run, p, logs, rows, active) && Usable(logs, rows)
      requires n < |NAMES| && !late && Even(run, n, p, active, mark, false)
      modifies `streams, `outbox, `receipts, `waiting, `late, `scans, `visits
      ensures Running(run, q, logs, rows, left) && (old(late) ==> late)
      ensures late || Stepped(NAMES[n], active, left, p, q, run.limit)
      ensures Onward(run, p, q, old(Here()), Here())
      ensures Even(run, n + 1, q, left, mark, late)
    {
      q, left := p, active;
      AgedItself(receipts, run.ReceiptCutoff());
      AllListed(run, p, active);
      if NAMES[n] in active {
        var expired := Expired();
        if !expired {
          q, left := Turn(run, NAMES[n], p, active, logs, rows);
          AllListed(run, q, left);
          Taken(run, n, n + 1, p, q, active, left, mark, late);
          return;
        }
      }
      NotTaken(run, n, n + 1, p, active, mark, late);
    }

    /** The next place of a round, measured against the state the round began with. */
    method InRound(run: Run, n: nat, ghost p: Progress, ghost active: set<Resource>, ghost was: Trail,
                   q: Progress, left: set<Resource>, ghost logs: map<Resource, Stream<string>>, ghost rows: seq<Row>,
                   ghost mark: nat)
      returns (r: Progress, rest: set<Resource>)
      requires run.Accepted() && Running(run, q, logs, rows, left) && Usable(logs, rows)
      requires n < |NAMES| && !late && Even(run, n, q, left, mark, false) && Onward(run, p, q, was, Here())
      requires Worked(n, active, left, p, q, run.limit)
      modifies `streams, `outbox, `receipts, `waiting, `late, `scans, `visits
      ensures Running(run, r, logs, rows, rest) && Onward(run, p, r, was, Here())
      ensures if late then Even(run, 0, r, rest, mark, true)
              else Worked(n + 1, active, rest, p, r, run.limit) && Even(run, n + 1, r, rest, mark, false)
    {
      hide Running, Onward, Worked, Even, Work;
      r, rest := Offer(run, n, q, left, logs, rows, mark);
      OnwardAgain(run, p, q, r, was, old(Here()), Here());
      if late {
        EvenWhenLate(run, n + 1, r, rest, mark, late);
      } else {
        WorkedOn(n, active, left, rest, p, q, r, run.limit);
      }
    }

    /** The places of a round, one after the other, until the time runs out. */
    method Places(run: Run, p: Progress, active: set<Resource>, ghost was: Trail,
                  ghost logs: map<Resource, Stream<string>>, ghost rows: seq<Row>, ghost mark: nat)
      returns (q: Progress, left: set<Resource>)
      requires run.Accepted() && Running(run, p, logs, rows, active) && Usable(logs, rows)
      requires !late && Even(run, 0, p, active, mark, false) && Onward(run, p, p, was, Here())
      requires Worked(0, active, active, p, p, run.limit)
      modifies `streams, `outbox, `receipts, `waiting, `late, `scans, `visits
      ensures Running(run, q, logs, rows, left) && Onward(run, p, q, was, Here())
      ensures if late then Even(run, 0, q, left, mark, true)
              else Worked(|NAMES|, active, left, p, q, run.limit) && Even(run, |NAMES|, q, left, mark, false)
    {
      hide Running, Onward, Worked, Even;
      q, left := p, active;
      for n := 0 to |NAMES|
        invariant Running(run, q, logs, rows, left) && Onward(run, p, q, was, Here())
        invariant !late && Worked(n, active, left, p, q, run.limit) && Even(run, n, q, left, mark, false)
      {
        q, left := InRound(run, n, p, active, was, q, left, logs, rows, mark);
        if late {
          break;
        }
      }
    }

    /** One round over the resources still active. */
    method Round(run: Run, p: Progress, active: set<Resource>, ghost logs: map<Resource, Stream<string>>,
                 ghost rows: seq<Row>, ghost mark: nat)
      returns (q: Progress, left: set<Resource>, ghost next: nat)
      requires run.Accepted() && Running(run, p, logs, rows, active) && Usable(logs, rows) && active != {}
      requires !late && Even(run, 0, p, active, mark, false)
      modifies `streams, `outbox, `receipts, `waiting, `late, `scans, `visits
      ensures Running(run, q, logs, rows, left) && Onward(run, p, q, old(Here()), Here())
      ensures late || Work(NAMES, left, q, run.limit) < Work(NAMES, active, p, run.limit)
      ensures Even(run, 0, q, left, next, late)
    {
      q, left, next := p, active, mark;
      hide Onward, Worked, Even, Work;
      ghost var was := Here();
      RoundBegins(run, p, active, was);
      q, left := Places(run, p, active, was, logs, rows, mark);
      if !late {
        next := mark + run.batchSize;
        RoundOver(run, p, q, active, left, mark, next);
      }
    }

    /** Round after round, until nothing is active or the time is up. */
    method Rounds(run: Run, p: Progress, ghost logs: map<Resource, Stream<string>>, ghost rows: seq<Row>)
      returns (q: Progress, left: set<Resource>, ghost mark: nat)
      requires run.Accepted() && Running(run, p, logs, rows, All()) && Usable(logs, rows)
      requires Even(run, 0, p, All(), 0, false) && !late
      modifies `streams, `outbox, `receipts, `waiting, `late, `scans, `visits
      ensures Running(run, q, logs, rows, left) && (left == {} || late)
      ensures Onward(run, p, q, old(Here()), Here()) && Even(run, 0, q, left, mark, late)
    {
      hide Onward, Even, Work;
      q, left, mark := p, All(), 0;
      RoundBegins(run, p, left, Here());
      while left != {}
        invariant Running(run, q, logs, rows, left)
        invariant Onward(run, p, q, old(Here()), Here())
        invariant Even(run, 0, q, left, mark, late)
        decreases if late then 0 else 1, Work(NAMES, left, q, run.limit)
      {
        ghost var stopped := late;
        var expired := Expired();
        if expired {
          EvenWhenLate(run, 0, q, left, mark, stopped);
          break;
        }
        ghost var before, here := q, Here();
        q, left, mark := Round(run, q, left, logs, rows, mark);
        OnwardAgain(run, p, before, q, old(Here()), here, Here());
      }
    }

    lemma {:induction false} Ready(run: Run, cursor: Option<Position>)
      requires Valid() && run.Accepted() && Receiving(cursor, run.dryRun) && since <= run.ReceiptCutoff()
      ensures Running(run, Start(cursor), streams, outbox, All()) && Usable(streams, outbox)
      ensures Even(run, 0, Start(cursor), All(), 0, false)
    {
      NothingDone(run, streams, outbox, cursor);
      NoneFinished(run, cursor);
      EvenAtStart(run, cursor);
    }

    /**
     * Maintenance::prune. `readable` and `written` say whether Redis gives and takes the receipt
     * cursor, `fails` whether a script, query or transaction throws. An exception stops the run
     * where the time limit could have, with no report and no new cursor; a request that was carried
     * out without an answer is the last thing done. `p` shows how far the run got.
     */
    method Prune(run: Run, readable: bool, written: bool, fails: bool) returns (report: Summary, ghost p: Progress)
      requires Valid() && since <= run.ReceiptCutoff()
      modifies this
      ensures Valid()
      ensures report.Rejected? <==>
                run.limit < 1 || run.limit > 1000000 || run.batchSize < 1 || run.batchSize > 1000
                || run.maxSeconds < 0.01 || run.maxSeconds > 300.0
      ensures report.Rejected? ==> unchanged(this)
      ensures run.Accepted() ==> (report.Failed? <==> fails)
      // Every tally measures what was removed, or counted, against the state the run began with.
      ensures report.Summary? ==> p.states == report.states
      ensures run.Accepted() ==> SoFar(run, p, old(streams), old(outbox))
      ensures report.Summary? && !report.timeLimitReached ==>
                forall name: Resource :: Finished(p.states[name], run.limit)
      // No resource gets further ahead of one that has work left than a batch.
      ensures run.Accepted() ==>
                forall a, b :: !Finished(p.states[b], run.limit) ==>
                  p.states[a].scanned <= p.states[b].scanned + run.batchSize
      ensures run.Accepted() ==> Counted(run, p, Trail(old(receipts), old(Scans(run)), old(visits)), Here())
      ensures run.Accepted() ==> began == old(Began(run)) && since == old(Since(run)) && since <= run.ReceiptCutoff()
      ensures run.Accepted() ==>
                && stored == old(Cursor(run, p, written && !fails))
                && steady == old(Smooth(run, p, readable, written && !fails))
      // When the run finds no more receipts, those due when the traversal began are gone or scanned, and once only.
      ensures run.Accepted() && !run.dryRun && p.states[Receipts].more == Some(false) ==>
                AllScanned(receipts, scans, began) && (steady ==> OnceEach(scans))
    {
      p := Start(None);
      if !run.Accepted() {
        return Rejected, p;
      }
      report, p := Clean(run, readable, written && !fails);
      if fails {
        report := Failed;
      }
    }

    /** A real run without a stored cursor begins a new traversal. */
    ghost predicate Begins(run: Run)
      reads `stored
    {
      !run.dryRun && stored.None?
    }

    /** What the traversal of a run, continued or new, has to scan. */
    ghost function Began(run: Run): set<Position>
      reads `stored, `receipts, `began
    {
      if Begins(run) then DueSet(receipts, run.ReceiptCutoff()) else began
    }

    /** The scans of that traversal so far. */
    ghost function Scans(run: Run): seq<Position>
      reads `stored, `scans
    {
      if Begins(run) then [] else scans
    }

    ghost function Since(run: Run): int
      reads `stored, `since
    {
      if Begins(run) then run.ReceiptCutoff() else since
    }

    /** The stored cursor after a run: where a real run got, or none when it wrapped, if it could be written. */
    ghost function Cursor(run: Run, p: Progress, written: bool): Option<Position>
      reads `stored
    {
      if run.dryRun || Receipts !in p.states || p.states[Receipts].more.None? || !written then stored
      else if p.states[Receipts].more.value then p.receipt
      else None
    }

    /** No cursor was lost, given how its read and its write went. */
    ghost predicate Smooth(run: Run, p: Progress, readable: bool, written: bool)
      reads `stored, `steady
    {
      if run.dryRun then steady
      else (stored.None? || (steady && readable)) && (Receipts !in p.states || p.states[Receipts].more.None? || written)
    }

    /** The run proper. */
    method Clean(run: Run, readable: bool, written: bool) returns (report: Summary, p: Progress)
      requires Valid() && run.Accepted() && since <= run.ReceiptCutoff()
      modifies this
      ensures Valid() && report.Summary? && p.states == report.states && SoFar(run, p, old(streams), old(outbox))
      ensures !report.timeLimitReached ==> forall name: Resource :: Finished(p.states[name], run.limit)
      ensures FairlyShared(run, p)
      ensures Counted(run, p, Trail(old(receipts), old(Scans(run)), old(visits)), Here())
      ensures began == old(Began(run)) && since == old(Since(run)) && since <= run.ReceiptCutoff()
      ensures stored == old(Cursor(run, p, written)) && steady == old(Smooth(run, p, readable, written))
      ensures !run.dryRun && p.states[Receipts].more == Some(false) ==>
                AllScanned(receipts, scans, began) && (steady ==> OnceEach(scans))
    {
      late := false;
      var cursor := Resume(run, readable);
      report, p := Perform(run, cursor, written);
    }

    method Perform(run: Run, cursor: Option<Position>, written: bool) returns (report: Summary, p: Progress)
      requires Valid() && !late && run.Accepted() && Receiving(cursor, run.dryRun) && since <= run.ReceiptCutoff()
      modifies `streams, `outbox, `receipts, `waiting, `late, `scans, `visits, `stored, `steady
      ensures Valid() && report.Summary? && p.states == report.states && SoFar(run, p, old(streams), old(outbox))
      ensures !report.timeLimitReached ==> forall name: Resource :: Finished(p.states[name], run.limit)
      ensures FairlyShared(run, p)
      ensures Counted(run, p, old(Here()), Here())
      ensures stored == old(Cursor(run, p, written))
              && steady == (old(steady) && (run.dryRun || p.states[Receipts].more.None? || written))
      ensures !run.dryRun && p.states[Receipts].more == Some(false) ==>
                AllScanned(receipts, scans, began) && (steady ==> OnceEach(scans))
    {
      ghost var from := Here();
      report, p := Sweep(run, cursor);
      Conclude(run, p, from, written);
    }

    /** Where the run takes up the receipts: a dry run at the beginning, a real one at the stored cursor. */
    method Resume(run: Run, readable: bool) returns (cursor: Option<Position>)
      requires Valid() && since <= run.ReceiptCutoff()
      modifies `scans, `began, `since, `steady
      ensures Valid() && Receiving(cursor, run.dryRun) && since <= run.ReceiptCutoff()
      ensures scans == old(Scans(run)) && began == old(Began(run)) && since == old(Since(run))
      ensures steady == if run.dryRun then old(steady) else stored.None? || (old(steady) && readable)
      ensures cursor == if run.dryRun || !readable then None else stored
    {
      cursor := None;
      if !run.dryRun {
        cursor := ReceiptCursor(run.ReceiptCutoff(), readable);
      }
    }

    /** All rounds of a run. */
    method Sweep(run: Run, cursor: Option<Position>) returns (report: Summary, p: Progress)
      requires Valid() && !late && run.Accepted() && Receiving(cursor, run.dryRun) && since <= run.ReceiptCutoff()
      modifies `streams, `outbox, `receipts, `waiting, `late, `scans, `visits
      ensures report.Summary? && p.states == report.states && SoFar(run, p, old(streams), old(outbox)) && Sound()
              && Receiving(p.receipt, run.dryRun)
      ensures !report.timeLimitReached ==> forall name: Resource :: Finished(p.states[name], run.limit)
      ensures FairlyShared(run, p)
      ensures Counted(run, p, old(Here()), Here()) && (p.states[Receipts].more.None? ==> scans == old(scans))
      ensures !run.dryRun && p.states[Receipts].more == Some(false) ==> AllScanned(receipts, scans, began)
    {
      ghost var from := Here();
      Ready(run, cursor);
      var left;
      ghost var mark;
      p, left, mark := Rounds(run, Start(cursor), streams, outbox);
      ghost var stopped := late;
      var expired := Expired();
      report := Summary(p.states, left != {} && expired);
      StartsEmpty(run, cursor, p, from, Here());
      AllUsable(run, p, old(streams), old(outbox), streams, outbox, left);
      EvenWhenLate(run, 0, p, left, mark, stopped);
      FairInTheEnd(run, p, left, mark);
    }

    /** The streams and the outbox are well-formed. */
    ghost predicate Sound()
      reads `streams, `outbox
    {
      WellFormed(outbox, 2) && forall name: Resource :: name.IsStream() ==> name in streams && streams[name].Valid()
    }

    /**
     * After the last round, a real run remembers how far it came with the receipts: past the
     * cursor next time, or over.
     */
    method Conclude(run: Run, p: Progress, ghost from: Trail, written: bool)
      requires Sound() && Receiving(p.receipt, run.dryRun) && since <= run.ReceiptCutoff()
      requires Counted(run, p, from, Here()) && (p.states[Receipts].more.None? ==> scans == from.scans)
      requires stored.Some? ==> |stored.value| == 3 && Covered(from.receipts, from.scans, began, since, stored)
      requires stored.Some? && (run.dryRun || p.states[Receipts].more.None?) && steady ==> InOrder(from.scans, stored)
      requires !run.dryRun && p.states[Receipts].more == Some(false) ==> AllScanned(receipts, scans, began)
      modifies `stored, `steady
      ensures Valid()
      ensures stored == old(Cursor(run, p, written))
              && steady == (old(steady) && (run.dryRun || p.states[Receipts].more.None? || written))
      ensures !run.dryRun && p.states[Receipts].more == Some(false) ==>
                AllScanned(receipts, scans, began) && (steady ==> OnceEach(scans))
    {
      if stored.Some? {
        StillCovered(from.receipts, receipts, from.scans, scans, began, since, run.ReceiptCutoff(), stored);
      }
      if steady && !run.dryRun {
        AllOnce(scans);
      }
      if !run.dryRun && p.states[Receipts].more.Some? {
        RememberReceiptCursor(if p.states[Receipts].more.value then p.receipt else None, written);
      }
    }
  }

  lemma {:induction false} OneMore<T>(page: seq<T>, all: seq<T>, n: nat, before: seq<T>)
    requires page <= all && n < |page|
    ensures page[n] == all[n] && (before + page[..n]) + [page[n]] == before + page[..n + 1]
  {
    assert page[..n + 1] == page[..n] + [page[n]];
  }

  /** The receipts, those scanned, and those deleted. */
  datatype Trail = Trail(receipts: seq<Row>, scans: seq<Position>, visits: seq<Visited>)

  /** What a receipt was found to be under its lock. */
  datatype Finding = NotDue | Needed | Removable

  /** One look at a receipt: the table and the keys with a waiting result at that moment. */
  datatype Visited = Visited(position: Position, receipts: seq<Row>, waiting: set<Position>, finding: Finding)

  /** The receipt still holds a result, and was last used before the cutoff. */
  predicate StillDue(v: Visited, cutoff: int) {
    exists i {:trigger KeyAt(v.receipts[i].position)} ::
      0 <= i < |v.receipts| && KeyAt(v.receipts[i].position) == KeyAt(v.position)
      && v.receipts[i].done && |v.receipts[i].position| > 0 && v.receipts[i].position[0] < cutoff
  }

  lemma {:induction false} OnlyCurrent(v: Visited, i: nat, cutoff: int)
    requires ReceiptTable(v.receipts) && i < |v.receipts|
             && KeyAt(v.receipts[i].position) == KeyAt(v.position)
    ensures StillDue(v, cutoff) <==> v.receipts[i].done && v.receipts[i].position[0] < cutoff
  {
    assert |v.receipts[i].position| == 3;
  }

  /** It is needed if a result of it waits, and removable if not. */
  predicate Judged(v: Visited, cutoff: int) {
    && (v.finding.Removable? <==> StillDue(v, cutoff) && KeyAt(v.position) !in v.waiting)
    && (v.finding.Needed? <==> StillDue(v, cutoff) && KeyAt(v.position) in v.waiting)
  }

  function Removing(visits: seq<Visited>): nat {
    if visits == [] then 0
    else Removing(visits[..|visits| - 1]) + if visits[|visits| - 1].finding.Removable? then 1 else 0
  }

  function Needing(visits: seq<Visited>): nat {
    if visits == [] then 0
    else Needing(visits[..|visits| - 1]) + if visits[|visits| - 1].finding.Needed? then 1 else 0
  }

  /** Looks are only added, each with the finding it must have. */
  ghost predicate Looked(before: seq<Visited>, after: seq<Visited>, cutoff: int) {
    before <= after
      && forall i {:trigger Judged(after[i], cutoff)} :: |before| <= i < |after| ==> Judged(after[i], cutoff)
  }

  /** So many looks more, so many of them at removable receipts, and some or none at a needed one. */
  ghost predicate Tallied(before: seq<Visited>, after: seq<Visited>, cutoff: int, scanned: nat, eligible: nat,
                          isProtected: bool) {
    && Looked(before, after, cutoff) && |after| == |before| + scanned
    && Removing(after) == Removing(before) + eligible
    && Needing(before) <= Needing(after) && (isProtected <==> Needing(before) < Needing(after))
  }

  lemma {:induction false} NoLook(visits: seq<Visited>, cutoff: int)
    ensures Tallied(visits, visits, cutoff, 0, 0, false)
  {
  }

  lemma {:induction false} OneLook(visits: seq<Visited>, v: Visited, cutoff: int)
    requires Judged(v, cutoff)
    ensures Tallied(visits, visits + [v], cutoff, 1, if v.finding.Removable? then 1 else 0, v.finding.Needed?)
  {
    assert (visits + [v])[..|visits|] == visits;
  }

  lemma {:induction false} LookedAgain(a: seq<Visited>, b: seq<Visited>, c: seq<Visited>, cutoff: int)
    requires Looked(a, b, cutoff) && Looked(b, c, cutoff)
    ensures Looked(a, c, cutoff)
  {
    forall i | |a| <= i < |c| ensures Judged(c[i], cutoff) {
      if i < |b| { assert Judged(b[i], cutoff); }
    }
  }

  lemma {:induction false} TalliedAgain(a: seq<Visited>, b: seq<Visited>, c: seq<Visited>, cutoff: int, m: nat, n: nat,
                                        x: nat, y: nat, f: bool, g: bool)
    requires Tallied(a, b, cutoff, m, x, f) && Tallied(b, c, cutoff, n, y, g)
    ensures Tallied(a, c, cutoff, m + n, x + y, f || g)
  {
    LookedAgain(a, b, c, cutoff);
  }

  /** No position was scanned twice. */
  ghost predicate OnceEach(scans: seq<Position>) {
    forall p :: p in scans ==> ScannedOnce(scans, p)
  }

  lemma {:induction false} AllOnce(scans: seq<Position>)
    requires Ordered(scans)
    ensures OnceEach(scans)
  {
    forall p | p in scans ensures ScannedOnce(scans, p) {
      OrderedScansOnce(scans, p);
    }
  }

  /**
   * From one state of a run to a later one: scans and deletions are added as they are counted, and
   * no receipt has become due.
   */
  ghost predicate Onward(run: Run, p: Progress, q: Progress, from: Trail, to: Trail) {
    && Receipts in p.states && Receipts in q.states
    && Aged(from.receipts, to.receipts, run.ReceiptCutoff())
    && from.scans <= to.scans && Gained(run, p.states[Receipts], q.states[Receipts], from.visits, to.visits)
    && (if run.dryRun then to.scans == from.scans
        else |to.scans| - q.states[Receipts].scanned == |from.scans| - p.states[Receipts].scanned)
    && (q.states[Receipts].more.None? ==>
        p.states[Receipts].more.None? && q.receipt == p.receipt && to.scans == from.scans)
  }

  /** The tally has grown by what was looked at. */
  ghost predicate Gained(run: Run, t: Tally, u: Tally, before: seq<Visited>, after: seq<Visited>) {
    && t.scanned <= u.scanned && t.eligible <= u.eligible && (t.isProtected ==> u.isProtected)
    && Tallied(before, after, run.ReceiptCutoff(), u.scanned - t.scanned, u.eligible - t.eligible,
               Needing(before) < Needing(after))
    && (u.isProtected <==> t.isProtected || Needing(before) < Needing(after))
  }

  lemma {:induction false} GainedAgain(run: Run, t: Tally, u: Tally, v: Tally, a: seq<Visited>, b: seq<Visited>,
                                       c: seq<Visited>)
    requires Gained(run, t, u, a, b) && Gained(run, u, v, b, c)
    ensures Gained(run, t, v, a, c)
  {
    LookedAgain(a, b, c, run.ReceiptCutoff());
  }

  lemma {:induction false} OnwardAgain(run: Run, p: Progress, q: Progress, r: Progress, a: Trail, b: Trail, c: Trail)
    requires Onward(run, p, q, a, b) && Onward(run, q, r, b, c)
    ensures Onward(run, p, r, a, c)
  {
    AgedAgain(a.receipts, b.receipts, c.receipts, run.ReceiptCutoff(), run.ReceiptCutoff());
    GainedAgain(run, p.states[Receipts], q.states[Receipts], r.states[Receipts], a.visits, b.visits, c.visits);
  }

  /** A page takes the run on. */
  lemma {:induction false} OnwardByPage(run: Run, p: Progress, q: Progress, from: Trail, to: Trail, scanned: nat,
                                        eligible: nat, kept: bool)
    requires Receipts in p.states && Receipts in q.states && q.states[Receipts].more.Some?
    requires Aged(from.receipts, to.receipts, run.ReceiptCutoff()) && from.scans <= to.scans
    requires |to.scans| == |from.scans| + (if run.dryRun then 0 else scanned) && (run.dryRun ==> to.scans == from.scans)
    requires Tallied(from.visits, to.visits, run.ReceiptCutoff(), scanned, eligible, kept)
    requires var t, u := p.states[Receipts], q.states[Receipts];
             u.scanned == t.scanned + scanned && u.eligible == t.eligible + eligible
             && u.isProtected == (t.isProtected || kept)
    ensures Onward(run, p, q, from, to)
  {
  }

  /** A whole run: scans and deletions are those of the report. */
  ghost predicate Counted(run: Run, p: Progress, from: Trail, to: Trail) {
    && Receipts in p.states && Aged(from.receipts, to.receipts, run.ReceiptCutoff())
    && from.scans <= to.scans
    && Tallied(from.visits, to.visits, run.ReceiptCutoff(), p.states[Receipts].scanned, p.states[Receipts].eligible,
               p.states[Receipts].isProtected)
    && |to.scans| == |from.scans| + if run.dryRun then 0 else p.states[Receipts].scanned
  }

  lemma {:induction false} StartsEmpty(run: Run, cursor: Option<Position>, p: Progress, from: Trail, to: Trail)
    requires Onward(run, Start(cursor), p, from, to)
    ensures Counted(run, p, from, to)
  {
    Listed(cursor);
  }

  lemma {:induction false} AllListed(run: Run, p: Progress, active: set<Resource>)
    requires forall name: Resource {:trigger InTurn(run, name, p, active)} :: InTurn(run, name, p, active)
    ensures Listing(p)
  {
    forall name: Resource ensures name in p.states {
      assert InTurn(run, name, p, active);
    }
  }

  /** One resource part-way through a run. */
  ghost predicate ResourceSoFar(run: Run, name: Resource, p: Progress, logs: map<Resource, Stream<string>>,
                                rows: seq<Row>, now: map<Resource, Stream<string>>, outbox: seq<Row>)
    requires Complete(p, logs) && Complete(p, now)
  {
    match name
    case Receipts => ReceiptsSoFar(run, p.states[name])
    case PublishedOutbox => OutboxSoFar(run, rows, outbox, p.states[name], p.row)
    case _ => now[name].Valid() && StreamSoFar(run, name, logs[name], now[name], p.states[name], p.at[name])
  }

  ghost predicate AllSoFar(run: Run, p: Progress, logs: map<Resource, Stream<string>>, rows: seq<Row>,
                           now: map<Resource, Stream<string>>, outbox: seq<Row>)
    requires Complete(p, logs) && Complete(p, now)
  {
    forall name {:trigger ResourceSoFar(run, name, p, logs, rows, now, outbox)} ::
      ResourceSoFar(run, name, p, logs, rows, now, outbox)
  }

  /** A turn that changes one resource leaves the others as they were. */
  lemma {:induction false} OneTurned(run: Run, name: Resource, p: Progress, q: Progress,
                                     logs: map<Resource, Stream<string>>, rows: seq<Row>,
                                     before: map<Resource, Stream<string>>, now: map<Resource, Stream<string>>,
                                     was: seq<Row>, outbox: seq<Row>)
    requires Complete(p, logs) && Complete(p, before) && AllSoFar(run, p, logs, rows, before, was)
    requires name in q.states && q.states == p.states[name := q.states[name]]
    requires if name.IsStream()
             then name in q.at && q.at == p.at[name := q.at[name]] && name in now && now == before[name := now[name]]
             else q.at == p.at && now == before
    requires name.PublishedOutbox? || (q.row == p.row && outbox == was)
    requires Complete(q, logs) && Complete(q, now) && ResourceSoFar(run, name, q, logs, rows, now, outbox)
    ensures AllSoFar(run, q, logs, rows, now, outbox)
  {
    forall n ensures ResourceSoFar(run, n, q, logs, rows, now, outbox) {
      if n != name {
        assert ResourceSoFar(run, n, p, logs, rows, before, was);
        if n.Receipts? {
          assert q.states[n] == p.states[n];
        } else if n.PublishedOutbox? {
          assert q.states[n] == p.states[n] && q.row == p.row && outbox == was;
        } else {
          assert q.states[n] == p.states[n] && q.at[n] == p.at[n] && now[n] == before[n];
        }
      }
    }
  }

  lemma {:induction false} StillInTurn(run: Run, p: Progress, q: Progress, name: Resource, active: set<Resource>,
                                       left: set<Resource>)
    requires (forall n {:trigger InTurn(run, n, p, active)} :: InTurn(run, n, p, active)) && name in active
    requires name in q.states && q.states == p.states[name := q.states[name]] && q.states[name].scanned <= run.limit
    requires left == if q.states[name].more == Some(false) || q.states[name].scanned >= run.limit then active - {name}
             else active
    ensures forall n {:trigger InTurn(run, n, q, left)} :: InTurn(run, n, q, left)
  {
    forall n ensures InTurn(run, n, q, left) {
      assert InTurn(run, n, p, active);
    }
  }

  /**
   * After the last round: the streams and the outbox are sound, and without a time limit every
   * resource has finished.
   */
  lemma {:induction false} AllUsable(run: Run, p: Progress, logs: map<Resource, Stream<string>>, rows: seq<Row>,
                                     now: map<Resource, Stream<string>>, outbox: seq<Row>, left: set<Resource>)
    requires Complete(p, logs) && Complete(p, now) && AllSoFar(run, p, logs, rows, now, outbox) && WellFormed(rows, 2)
    requires forall n {:trigger InTurn(run, n, p, left)} :: InTurn(run, n, p, left)
    ensures forall name: Resource :: name.IsStream() ==> name in now && now[name].Valid()
    ensures WellFormed(outbox, 2)
    ensures left == {} ==> forall name: Resource :: Finished(p.states[name], run.limit)
  {
    forall name: Resource | name.IsStream() ensures now[name].Valid() {
      assert ResourceSoFar(run, name, p, logs, rows, now, outbox);
    }
    assert ResourceSoFar(run, PublishedOutbox, p, logs, rows, now, outbox);
    OutboxKept(run, rows, outbox, p.states[PublishedOutbox], p.row);
    forall name: Resource | left == {} ensures Finished(p.states[name], run.limit) {
      assert InTurn(run, name, p, left);
    }
  }

  /** A resource is still below the limit, or has finished. */
  ghost predicate InTurn(run: Run, name: Resource, p: Progress, active: set<Resource>) {
    name in p.states && if name in active then p.states[name].scanned < run.limit
      else Finished(p.states[name], run.limit)
  }

  /** A batch is at most `batchSize` rows, and exactly that many if more is left under the limit and in time. */
  ghost predicate InStep(run: Run, before: Tally, after: Tally, late: bool) {
    && before.scanned <= after.scanned <= before.scanned + run.batchSize
    && (!late && !Finished(after, run.limit) ==> after.scanned == before.scanned + run.batchSize)
  }

  lemma {:induction false} BatchInStep(run: Run, before: Tally, n: nat, after: Tally, count: nat, late: bool)
    requires run.Accepted() && before.scanned < run.limit && count == Min(run.batchSize, run.limit - before.scanned)
    requires after.scanned == before.scanned + n && n <= count
             && (late || after.more == Some(false) || n == count)
    ensures InStep(run, before, after, late)
  {
  }

  /** One resource had its turn, and left the round if it has finished. */
  ghost predicate Took(run: Run, p: Progress, q: Progress, name: Resource, active: set<Resource>, left: set<Resource>,
                       late: bool) {
    && name in p.states && name in q.states && q.states == p.states[name := q.states[name]]
    && left == (if Finished(q.states[name], run.limit) then active - {name} else active)
    && InStep(run, p.states[name], q.states[name], late)
  }

  function Place(name: Resource): (k: nat)
    ensures k < |NAMES| && NAMES[k] == name
  {
    match name
    case Events => 0
    case Commands => 1
    case DeadEvents => 2
    case DeadCommands => 3
    case Receipts => 4
    case PublishedOutbox => 5
  }

  lemma {:induction false} PlaceIs(n: nat)
    requires n < |NAMES|
    ensures Place(NAMES[n]) == n
  {
    assert n == 0 || n == 1 || n == 2 || n == 3 || n == 4 || n == 5;
  }

  /**
   * In a round: the first n resources are a batch further than the mark, the others stand at it; and
   * wherever the time runs out, none still in the round is behind it, and none a batch before it.
   */
  ghost predicate InPlace(run: Run, n: nat, p: Progress, active: set<Resource>, mark: int, late: bool,
                          name: Resource) {
    && name in p.states && p.states[name].scanned <= mark + run.batchSize
    && (name in active ==> mark <= p.states[name].scanned)
    && (!late ==>
          var level := mark + if Place(name) < n then run.batchSize else 0;
          p.states[name].scanned <= level && (name in active ==> p.states[name].scanned == level))
  }

  ghost predicate Even(run: Run, n: nat, p: Progress, active: set<Resource>, mark: int, late: bool) {
    forall name {:trigger InPlace(run, n, p, active, mark, late, name)} ::
      InPlace(run, n, p, active, mark, late, name)
  }

  lemma {:induction false} NotTaken(run: Run, n: nat, next: nat, p: Progress, active: set<Resource>, mark: int,
                                    late: bool)
    requires run.Accepted() && n < |NAMES| && next == n + 1 && Even(run, n, p, active, mark, false)
    requires late || NAMES[n] !in active
    ensures Even(run, next, p, active, mark, late)
  {
    forall name ensures InPlace(run, next, p, active, mark, late, name) {
      assert InPlace(run, n, p, active, mark, false, name) && NAMES[Place(name)] == name;
    }
  }

  lemma {:induction false} Taken(run: Run, n: nat, next: nat, p: Progress, q: Progress, active: set<Resource>,
                                 left: set<Resource>, mark: int, late: bool)
    requires run.Accepted() && n < |NAMES| && next == n + 1 && Even(run, n, p, active, mark, false)
    requires NAMES[n] in active && Took(run, p, q, NAMES[n], active, left, late)
    ensures Even(run, next, q, left, mark, late)
  {
    PlaceIs(n);
    forall name ensures InPlace(run, next, q, left, mark, late, name) {
      assert InPlace(run, n, p, active, mark, false, name) && NAMES[Place(name)] == name;
      if name != NAMES[n] { assert q.states[name] == p.states[name]; }
    }
  }

  lemma {:induction false} NextRound(run: Run, p: Progress, active: set<Resource>, mark: int, next: int)
    requires run.Accepted() && next == mark + run.batchSize && Even(run, |NAMES|, p, active, mark, false)
    ensures Even(run, 0, p, active, next, false)
  {
    forall name ensures InPlace(run, 0, p, active, next, false, name) {
      assert InPlace(run, |NAMES|, p, active, mark, false, name);
    }
  }

  lemma {:induction false} RoundBegins(run: Run, p: Progress, active: set<Resource>, was: Trail)
    requires forall name: Resource {:trigger InTurn(run, name, p, active)} :: InTurn(run, name, p, active)
    ensures Onward(run, p, p, was, was) && Worked(0, active, active, p, p, run.limit)
  {
    AllListed(run, p, active);
    AgedItself(was.receipts, run.ReceiptCutoff());
  }

  lemma {:induction false} RoundOver(run: Run, p: Progress, q: Progress, active: set<Resource>, left: set<Resource>,
                                     mark: int, next: int)
    requires run.Accepted() && next == mark + run.batchSize && Even(run, |NAMES|, q, left, mark, false)
    requires active != {} && Worked(|NAMES|, active, left, p, q, run.limit)
    ensures Even(run, 0, q, left, next, false) && Work(NAMES, left, q, run.limit) < Work(NAMES, active, p, run.limit)
  {
    SomeWork(active, left, p, q, run.limit);
    NextRound(run, q, left, mark, next);
  }

  lemma {:induction false} EvenWhenLate(run: Run, n: nat, p: Progress, active: set<Resource>, mark: int, late: bool)
    requires Even(run, n, p, active, mark, late)
    ensures Even(run, 0, p, active, mark, true)
  {
    forall name ensures InPlace(run, 0, p, active, mark, true, name) {
      assert InPlace(run, n, p, active, mark, late, name);
    }
  }

  lemma {:induction false} EvenAtStart(run: Run, cursor: Option<Position>)
    requires run.Accepted()
    ensures Even(run, 0, Start(cursor), All(), 0, false)
  {
    Listed(cursor);
  }

  /** No resource is further ahead of one that has work left than a batch. */
  ghost predicate FairlyShared(run: Run, p: Progress) {
    forall a: Resource, b: Resource {:trigger p.states[a], p.states[b]} ::
      a in p.states && b in p.states && !Finished(p.states[b], run.limit) ==>
        p.states[a].scanned <= p.states[b].scanned + run.batchSize
  }

  lemma {:induction false} FairInTheEnd(run: Run, p: Progress, left: set<Resource>, mark: int)
    requires Even(run, 0, p, left, mark, true)
    requires forall name {:trigger InTurn(run, name, p, left)} :: InTurn(run, name, p, left)
    ensures FairlyShared(run, p)
  {
    forall a: Resource, b: Resource | a in p.states && b in p.states && !Finished(p.states[b], run.limit)
      ensures p.states[a].scanned <= p.states[b].scanned + run.batchSize {
      assert InTurn(run, b, p, left) && InPlace(run, 0, p, left, mark, true, a);
      assert InPlace(run, 0, p, left, mark, true, b);
    }
  }

  ghost predicate Usable(logs: map<Resource, Stream<string>>, rows: seq<Row>) {
    WellFormed(rows, 2) && forall name: Resource :: name.IsStream() ==> name in logs && logs[name].Valid()
  }

  /** A turn uses up some of the work, unless the time ran out. */
  lemma {:induction false} WorkFalls(names: seq<Resource>, p: Progress, q: Progress, name: Resource,
                                     active: set<Resource>, left: set<Resource>, limit: int, late: bool)
    requires (forall other :: other in names ==> other in p.states && other in q.states)
             && Turned(p, q, name, limit, late) && name in active
    requires left == if q.states[name].more == Some(false) || q.states[name].scanned >= limit then active - {name}
             else active
    requires p.states[name].scanned < limit
    ensures late || Work(names, left, q, limit) <= Work(names, active, p, limit)
    ensures late || (name in names ==> Work(names, left, q, limit) < Work(names, active, p, limit))
  {
    if names != [] && !late {
      WorkFalls(names[1..], p, q, name, active, left, limit, late);
      if names[0] == name {
        assert Room(name, left, q, limit) < Room(name, active, p, limit);
      }
    }
  }

  lemma {:induction false} EveryName(name: Resource)
    ensures name in NAMES
  {
    assert NAMES[Place(name)] == name;
  }

  function Room(name: Resource, active: set<Resource>, p: Progress, limit: int): nat
    requires name in p.states
  {
    if name in active then Max(0, limit - p.states[name].scanned) + 1 else 0
  }

  /** What is left of the limits of the resources still in the round. */
  function Work(names: seq<Resource>, active: set<Resource>, p: Progress, limit: int): nat
    requires forall name :: name in names ==> name in p.states
  {
    if names == [] then 0 else Room(names[0], active, p, limit) + Work(names[1..], active, p, limit)
  }

  /** After n places of a round: some work was done, or none of them was active. */
  ghost predicate Worked(n: nat, active: set<Resource>, left: set<Resource>, p: Progress, q: Progress, limit: int)
    requires n <= |NAMES|
  {
    Listing(p) && Listing(q)
      && (Work(NAMES, left, q, limit) < Work(NAMES, active, p, limit)
          || (q == p && left == active && NoneBefore(n, active)))
  }

  ghost predicate Listing(p: Progress) {
    forall name: Resource :: name in p.states
  }

  /** One place: an active resource does some work, another leaves everything as it is. */
  ghost predicate Stepped(name: Resource, active: set<Resource>, left: set<Resource>, p: Progress, q: Progress,
                          limit: int) {
    Listing(p) && Listing(q) && if name in active then Work(NAMES, left, q, limit) < Work(NAMES, active, p, limit)
      else q == p && left == active
  }

  lemma {:induction false} WorkedOn(n: nat, active: set<Resource>, middle: set<Resource>, left: set<Resource>,
                                    p: Progress, q: Progress, r: Progress, limit: int)
    requires n < |NAMES| && Worked(n, active, middle, p, q, limit) && Stepped(NAMES[n], middle, left, q, r, limit)
    ensures Worked(n + 1, active, left, p, r, limit)
  {
  }

  lemma {:induction false} SomeWork(active: set<Resource>, left: set<Resource>, p: Progress, q: Progress, limit: int)
    requires active != {}
    ensures Worked(|NAMES|, active, left, p, q, limit) ==> Work(NAMES, left, q, limit) < Work(NAMES, active, p, limit)
  {
    SomeNameIn(active);
  }

  predicate NoneBefore(n: nat, active: set<Resource>)
    requires n <= |NAMES|
  {
    forall k :: 0 <= k < n ==> NAMES[k] !in active
  }

  lemma {:induction false} SomeNameIn(active: set<Resource>)
    ensures active != {} ==> !NoneBefore(|NAMES|, active)
  {
    if active != {} {
      var name :| name in active;
      EveryName(name);
    }
  }

  lemma {:induction false} WithoutNothing(index: seq<Row>)
    ensures Without(index, []) == index
  {
    if index != [] {
      WithoutNothing(index[1..]);
    }
  }

  lemma {:induction false} OutboxKept(run: Run, rows: seq<Row>, outbox: seq<Row>, tally: Tally, at: Option<Position>)
    requires WellFormed(rows, 2) && OutboxSoFar(run, rows, outbox, tally, at)
    ensures WellFormed(outbox, 2)
  {
    var gone := run.Due(rows)[..tally.scanned];
    WithoutSorted(rows, gone);
    forall i | 0 <= i < |Without(rows, gone)| ensures Without(rows, gone)[i] in rows {
      WithoutIs(rows, gone, Without(rows, gone)[i]);
    }
  }

  function All(): set<Resource> {
    set name | name in NAMES
  }

  /** Before the first turn. */
  lemma {:induction false} NothingDone(run: Run, logs: map<Resource, Stream<string>>, rows: seq<Row>,
                                       cursor: Option<Position>)
    requires run.Accepted() && forall name: Resource :: name.IsStream() ==> name in logs && logs[name].Valid()
    ensures Complete(Start(cursor), logs) && AllSoFar(run, Start(cursor), logs, rows, logs, rows)
  {
    Listed(cursor);
    WithoutNothing(rows);
    assert run.Due(rows)[..0] == [];
    forall name ensures ResourceSoFar(run, name, Start(cursor), logs, rows, logs, rows) {
      if name.IsStream() { assert logs[name].entries[0..] == logs[name].entries; }
    }
  }

  lemma {:induction false} Listed(cursor: Option<Position>)
    ensures forall name: Resource :: name in Start(cursor).states && name in Start(cursor).at && name in All()
    ensures forall name: Resource :: Start(cursor).states[name] == EMPTY && Start(cursor).at[name] == None
  {
    forall name: Resource ensures name in NAMES {
      EveryName(name);
    }
  }

  lemma {:induction false} NoneFinished(run: Run, cursor: Option<Position>)
    requires run.Accepted()
    ensures forall name {:trigger InTurn(run, name, Start(cursor), All())} :: InTurn(run, name, Start(cursor), All())
    ensures forall name: Resource :: name in Start(cursor).states && Start(cursor).states[name] == EMPTY
  {
    Listed(cursor);
  }

  lemma {:induction false} AllDue(receipts: seq<Row>, cutoff: int)
    requires ReceiptTable(receipts)
    ensures Covered(receipts, [], DueSet(receipts, cutoff), cutoff, None)
  {
    forall p | p in Select(receipts, cutoff, None) ensures |p| == 3 && p[0] < cutoff {
      SelectedIff(receipts, cutoff, None, p);
      var i :| 0 <= i < |receipts| && receipts[i].position == p && Matches(receipts[i], cutoff, None);
    }
  }

  /** Every resource has its tally and cursor. */
  ghost predicate Complete(p: Progress, logs: map<Resource, Stream<string>>) {
    forall name: Resource :: name in p.states && name in p.at && (name.IsStream() ==> name in logs)
  }

  /** One resource had its turn: it is further on, or finished, unless the time ran out. */
  ghost predicate Turned(p: Progress, q: Progress, name: Resource, limit: int, late: bool) {
    && name in p.states && name in q.states && q.states == p.states[name := q.states[name]]
    && q.states[name].more.Some? && q.states[name].scanned <= limit
    && (q.states[name].more.value && !late ==> p.states[name].scanned < q.states[name].scanned)
  }

  lemma {:induction false} AgedItself(index: seq<Row>, cutoff: int)
    ensures Aged(index, index, cutoff)
  {
  }

  /** Rows on the page are due, and a due row of today's table was due when the page was read. */
  lemma {:induction false} OnlyOnePerKey(index: seq<Row>, receipts: seq<Row>, cutoff: int, cursor: Option<Position>,
                                         n: nat)
    requires ReceiptTable(index) && Aged(index, receipts, cutoff) && n < |Select(index, cutoff, cursor)|
    ensures OnlyRow(receipts, Select(index, cutoff, cursor)[n], cutoff) && |Select(index, cutoff, cursor)[n]| == 3
  {
    var p := Select(index, cutoff, cursor)[n];
    SelectedIff(index, cutoff, cursor, p);
    var k :| 0 <= k < |index| && index[k].position == p;
    forall i | 0 <= i < |receipts| && IsDue(receipts[i], p, cutoff) ensures receipts[i].position == p {
      var l :| 0 <= l < |index| && index[l] == receipts[i];
      assert KeyAt(index[k].position) == KeyAt(index[l].position);
    }
  }

  lemma {:induction false} StillAhead(all: seq<Position>, n: nat, table: seq<Row>, receipts: seq<Row>,
                                      before: seq<Position>, began: set<Position>, since: int, cutoff: int,
                                      cursor: Option<Position>)
    requires n < |all| && Ahead(all, n, table, before, began) && Aged(table, receipts, cutoff) && since <= cutoff
    requires Covered(table, before, began, since, cursor)
    ensures Ahead(all, n + 1, receipts, before + [all[n]], began)
  {
    assert all[n..] == [all[n]] + all[n + 1..];
    forall p | p in began && Stands(receipts, p) ensures p in before + [all[n]] || p in all[n + 1..] {
      StoodBefore(table, receipts, cutoff, p);
    }
  }

  /** If the page was empty, nothing can have become due since. */
  lemma {:induction false} NothingNew(index: seq<Row>, receipts: seq<Row>, cutoff: int, cursor: Option<Position>,
                                      p: Position)
    requires Aged(index, receipts, cutoff) && p in Select(receipts, cutoff, cursor)
    ensures p in Select(index, cutoff, cursor)
  {
    SelectedIff(receipts, cutoff, cursor, p);
    var i :| 0 <= i < |receipts| && receipts[i].position == p && Matches(receipts[i], cutoff, cursor);
    var k :| 0 <= k < |index| && index[k] == receipts[i];
    SelectedIff(index, cutoff, cursor, p);
  }

  /** The page's row is the only due row with its key. */
  predicate OnlyRow(index: seq<Row>, p: Position, cutoff: int) {
    forall i :: 0 <= i < |index| && IsDue(index[i], p, cutoff) ==> index[i].position == p
  }

  lemma {:induction false} RemovalIsAged(old0: seq<Row>, before: seq<Row>, gone: seq<Position>, cutoff: int)
    requires Aged(old0, before, cutoff)
    ensures Aged(old0, Without(before, gone), cutoff)
  {
    var rest := Without(before, gone);
    forall i | 0 <= i < |rest| && Matches(rest[i], cutoff, None) ensures rest[i] in old0 {
      WithoutIs(before, gone, rest[i]);
    }
  }

  predicate IsDue(row: Row, p: Position, cutoff: int) {
    KeyAt(row.position) == KeyAt(p) && Matches(row, cutoff, None)
  }

  lemma {:induction false} RemovalKeepsTable(index: seq<Row>, gone: seq<Position>)
    requires ReceiptTable(index)
    ensures ReceiptTable(Without(index, gone))
  {
    var rest := Without(index, gone);
    WithoutSorted(index, gone);
    forall i | 0 <= i < |rest| ensures |rest[i].position| == 3 && rest[i] in index {
      WithoutIs(index, gone, rest[i]);
    }
    forall i, j | 0 <= i < |rest| && 0 <= j < |rest| && KeyAt(rest[i].position) == KeyAt(rest[j].position)
      ensures i == j {
      var k :| 0 <= k < |index| && index[k] == rest[i];
      var l :| 0 <= l < |index| && index[l] == rest[j];
      assert KeyAt(index[k].position) == KeyAt(index[l].position);
      assert k == l;
      if i < j { assert Precedes(rest[i].position, rest[j].position); }
      if j < i { assert Precedes(rest[j].position, rest[i].position); }
      IndexOrderIsTotal(rest[i].position, rest[i].position);
    }
  }
}
