/** src/Operations/Maintenance.php: what a budgeted clean-up run has done, and what its pages cover. */
module CleanupModel {
  import opened Options
  import opened RedisStream
  import opened StreamRetention
  import opened SeekPaging

  datatype Resource = Events | Commands | DeadEvents | DeadCommands | Receipts | PublishedOutbox {
    predicate IsStream() { !Receipts? && !PublishedOutbox? }
    predicate IsDead() { DeadEvents? || DeadCommands? }
  }

  const NAMES := [Events, Commands, DeadEvents, DeadCommands, Receipts, PublishedOutbox]

  datatype Tally = Tally(scanned: nat, eligible: nat, deleted: nat, more: Option<bool>, isProtected: bool)

  const EMPTY := Tally(0, 0, 0, None, false)

  /** One run's options and settings; `now` in milliseconds. */
  datatype Run = Run(dryRun: bool, limit: int, batchSize: int, maxSeconds: real, now: int,
                     streamsSeconds: int, deadLettersSeconds: int, receiptsSeconds: int, publishedSeconds: int)
  {
    predicate Accepted() {
      1 <= limit <= 1000000 && 1 <= batchSize <= 1000 && 0.01 <= maxSeconds <= 300.0
    }

    function StreamCutoff(name: Resource): int {
      now - Max(1, if name.IsDead() then deadLettersSeconds else streamsSeconds) * 1000
    }
    function ReceiptCutoff(): int { now / 1000 - Max(1, receiptsSeconds) }
    function OutboxCutoff(): int { now / 1000 - Max(1, publishedSeconds) }

    /** What a stream holds for this run to remove. */
    ghost function Backlog<T>(name: Resource, s: Stream<T>): nat {
      StreamRetention.Backlog(s, CutoffId(StreamCutoff(name)), name.IsDead())
    }

    function Due(outbox: seq<Row>): seq<Position> { Select(outbox, OutboxCutoff(), None) }
  }

  /**
   * An entry of a stream is expired if its milliseconds lie further back than the stream's own
   * retention: dead-letter streams have theirs, the main streams another.
   */
  lemma {:induction false} EntryAge(run: Run, name: Resource, ms: nat, sequence: nat)
    requires name.IsStream() && sequence < 0x1_0000_0000_0000_0000
    ensures ms * 0x1_0000_0000_0000_0000 + sequence < CutoffId(run.StreamCutoff(name)) <==>
              ms + 1000 * (if name == DeadEvents || name == DeadCommands then AtLeastOne(run.deadLettersSeconds)
                           else AtLeastOne(run.streamsSeconds)) < run.now
  {
  }

  /** A receipt, or a published row, is due when it was stamped longer ago than its own retention. */
  lemma {:induction false} RowAge(run: Run, stamped: int)
    ensures stamped < run.ReceiptCutoff() <==> stamped + AtLeastOne(run.receiptsSeconds) < run.now / 1000
    ensures stamped < run.OutboxCutoff() <==> stamped + AtLeastOne(run.publishedSeconds) < run.now / 1000
  {
  }

  function AtLeastOne(seconds: int): int {
    if seconds < 1 then 1 else seconds
  }

  datatype Summary = Rejected | Failed | Summary(states: map<Resource, Tally>, timeLimitReached: bool)

  /** The run's `$states` and `$cursors`. */
  datatype Progress = Progress(states: map<Resource, Tally>, at: map<Resource, Option<nat>>, receipt: Option<Position>,
                               row: Option<Position>)

  function Start(receipt: Option<Position>): Progress {
    Progress(map name | name in NAMES :: EMPTY, map name | name in NAMES :: None, receipt, None)
  }

  // ------------------------------------------------------ what a run has done

  /** A stream part-way through a run: its cursor, or its head, is exactly `scanned` entries further. */
  ghost predicate StreamSoFar(run: Run, name: Resource, s: Stream<string>, t: Stream<string>, tally: Tally,
                              at: Option<nat>) {
    var n := run.Backlog(name, s);
    && tally.scanned == tally.eligible <= n && tally.scanned <= run.limit
    && tally.deleted == (if run.dryRun then 0 else tally.scanned)
    && t == (if run.dryRun then s else s.(entries := s.entries[tally.scanned..]))
    && (run.dryRun ==> Passed(s, at) == tally.scanned)
    && (tally.more.None? ==> tally.scanned == 0)
    && (tally.more.Some? ==> (tally.more.value <==> tally.scanned < n))
    && (tally.more.Some? && !run.dryRun ==>
          if NoneExpired(t, CutoffId(run.StreamCutoff(name))) then !tally.more.value && !tally.isProtected
          else tally.more.value != tally.isProtected)
  }

  /** The published outbox part-way through a run. */
  ghost predicate OutboxSoFar(run: Run, old0: seq<Row>, outbox: seq<Row>, tally: Tally, at: Option<Position>) {
    var all := run.Due(old0);
    && tally.scanned == tally.eligible <= |all| && tally.scanned <= run.limit
    && tally.deleted == (if run.dryRun then 0 else tally.scanned)
    && outbox == (if run.dryRun then old0 else Without(old0, all[..tally.scanned]))
    && at == (if tally.scanned == 0 then None else Some(all[tally.scanned - 1]))
    && (tally.more.None? ==> tally.scanned == 0)
    && (tally.more.Some? ==> (tally.more.value <==> tally.scanned < |all|))
  }

  ghost predicate ReceiptsSoFar(run: Run, tally: Tally) {
    && tally.eligible <= tally.scanned <= run.limit
    && tally.deleted == (if run.dryRun then 0 else tally.eligible)
    && (tally.more.None? ==> tally.scanned == 0)
  }

  /** A run that was not cut short has finished with every resource. */
  ghost predicate Finished(tally: Tally, limit: int) {
    tally.more == Some(false) || tally.scanned >= limit
  }

  /**
   * The dry run predicts the real one: on the same stream, the entries it counts are those the
   * real run removes, whatever the limit and the batch size of each page.
   */
  lemma {:induction false} DryRunPredictsStream(dry: Run, wet: Run, name: Resource, s: Stream<string>,
                                                t: Stream<string>, u: Stream<string>, counted: Tally, removed: Tally,
                                                at: Option<nat>)
    requires dry.dryRun && wet == dry.(dryRun := false, batchSize := wet.batchSize)
    requires StreamSoFar(dry, name, s, t, counted, at) && Finished(counted, dry.limit)
    requires StreamSoFar(wet, name, s, u, removed, None) && Finished(removed, wet.limit)
    ensures counted.eligible == removed.deleted == Min(dry.limit, dry.Backlog(name, s))
    ensures t == s && u.entries == s.entries[counted.eligible..]
  {
    assert dry.Backlog(name, s) == wet.Backlog(name, s);
  }

  /** The same for the published outbox, and the rows the real run removes are the counted ones. */
  lemma {:induction false} DryRunPredictsOutbox(dry: Run, wet: Run, s: seq<Row>, t: seq<Row>, u: seq<Row>,
                                                counted: Tally, removed: Tally, at: Option<Position>,
                                                wetAt: Option<Position>)
    requires dry.dryRun && wet == dry.(dryRun := false, batchSize := wet.batchSize)
    requires OutboxSoFar(dry, s, t, counted, at) && Finished(counted, dry.limit)
    requires OutboxSoFar(wet, s, u, removed, wetAt) && Finished(removed, wet.limit)
    ensures counted.eligible == removed.deleted == Min(dry.limit, |dry.Due(s)|)
    ensures t == s && u == Without(s, dry.Due(s)[..counted.eligible])
  {
    assert dry.Due(s) == wet.Due(s);
  }

  // ---------------------------------------------------------------- receipts

  predicate WellFormed(index: seq<Row>, columns: nat) {
    Sorted(index) && forall i :: 0 <= i < |index| ==> |index[i].position| == columns
  }

  /** A receipt's key: its session and command, behind updated_at. */
  function KeyAt(p: Position): Position {
    if p == [] then [] else p[1..]
  }

  predicate UniqueKeys(index: seq<Row>) {
    forall i, j ::
      0 <= i < |index| && 0 <= j < |index| && KeyAt(index[i].position) == KeyAt(index[j].position) ==> i == j
  }

  predicate ReceiptTable(index: seq<Row>) {
    WellFormed(index, 3) && UniqueKeys(index)
  }

  ghost predicate Stands(index: seq<Row>, p: Position) {
    Row(p, true) in index
  }

  /** A position occurs exactly once in the log of scans. */
  ghost predicate ScannedOnce(scans: seq<Position>, p: Position) {
    exists i :: 0 <= i < |scans| && scans[i] == p && forall j :: 0 <= j < |scans| && scans[j] == p ==> j == i
  }

  lemma {:induction false} DifferentRows(scans: seq<Position>, i: nat, j: nat)
    requires Ordered(scans) && i < |scans| && j < |scans|
    ensures i != j ==> scans[i] != scans[j]
  {
    IndexOrderIsTotal(scans[i], scans[j]);
  }

  lemma {:induction false} OrderedScansOnce(scans: seq<Position>, p: Position)
    requires Ordered(scans) && p in scans
    ensures ScannedOnce(scans, p)
  {
    var i :| 0 <= i < |scans| && scans[i] == p;
    forall j | 0 <= j < |scans| && scans[j] == p ensures j == i {
      DifferentRows(scans, i, j);
    }
  }

  /** The receipts a traversal has to scan: those due when it began. */
  ghost function DueSet(receipts: seq<Row>, cutoff: int): set<Position> {
    set p | p in Select(receipts, cutoff, None)
  }

  /**
   * The traversal of old receipts: one that was due when it began and is still there is beyond the
   * cursor, or was scanned.
   */
  ghost predicate Covered(receipts: seq<Row>, scans: seq<Position>, began: set<Position>, since: int,
                          cursor: Option<Position>) {
    forall p :: p in began ==> |p| == 3 && p[0] < since && (Stands(receipts, p) && !After(cursor, p) ==> p in scans)
  }

  /** Every receipt that was due and is still there was scanned. */
  ghost predicate AllScanned(receipts: seq<Row>, scans: seq<Position>, began: set<Position>) {
    forall p :: p in began && Stands(receipts, p) ==> p in scans
  }

  /** Whatever is due in the new table was due in the old one: no change dates a receipt back. */
  predicate Aged(before: seq<Row>, table: seq<Row>, cutoff: int) {
    forall i :: 0 <= i < |table| && Matches(table[i], cutoff, None) ==> table[i] in before
  }

  lemma {:induction false} AgedAgain(a: seq<Row>, b: seq<Row>, c: seq<Row>, cutoff: int, later: int)
    requires Aged(a, b, cutoff) && Aged(b, c, later) && cutoff <= later
    ensures Aged(a, c, cutoff)
  {
    forall i | 0 <= i < |c| && Matches(c[i], cutoff, None) ensures c[i] in a {
      assert Matches(c[i], later, None);
      var k :| 0 <= k < |b| && b[k] == c[i];
      assert Matches(b[k], cutoff, None);
    }
  }

  /** What stands now stood before, if it was due then. */
  lemma {:induction false} StoodBefore(before: seq<Row>, table: seq<Row>, cutoff: int, p: Position)
    requires Aged(before, table, cutoff) && |p| == 3 && p[0] < cutoff && Stands(table, p)
    ensures Stands(before, p)
  {
    var i :| 0 <= i < |table| && table[i] == Row(p, true);
    assert Matches(table[i], cutoff, None);
  }

  /** A traversal stays covered, whatever others change and however many scans are added. */
  lemma {:induction false} StillCovered(before: seq<Row>, table: seq<Row>, scans: seq<Position>, later: seq<Position>,
                                        began: set<Position>, since: int, cutoff: int, cursor: Option<Position>)
    requires Covered(before, scans, began, since, cursor) && Aged(before, table, cutoff) && since <= cutoff
             && scans <= later
    ensures Covered(table, later, began, since, cursor)
  {
    forall p | p in began && Stands(table, p) && !After(cursor, p) ensures p in later {
      StoodBefore(before, table, cutoff, p);
    }
  }

  /** Scans happen in index order and never behind the cursor. */
  ghost predicate InOrder(scans: seq<Position>, cursor: Option<Position>) {
    && Ordered(scans)
    && (cursor.Some? ==> |cursor.value| == 3)
    && forall p :: p in scans ==> |p| == 3 && !After(cursor, p)
  }

  /** The cursor after n rows of a page. */
  function CursorAt(all: seq<Position>, n: nat, cursor: Option<Position>): Option<Position>
    requires n <= |all|
  {
    if n == 0 then cursor else Some(all[n - 1])
  }

  /** What the traversal has not scanned yet is ahead on the page. */
  ghost predicate Ahead(all: seq<Position>, n: nat, receipts: seq<Row>, scans: seq<Position>, began: set<Position>)
    requires n <= |all|
  {
    forall p :: p in began && Stands(receipts, p) ==> p in scans || p in all[n..]
  }

  lemma {:induction false} PageHoldsTheRest(index: seq<Row>, cutoff: int, scans: seq<Position>, began: set<Position>,
                                            since: int, cursor: Option<Position>)
    requires Covered(index, scans, began, since, cursor) && since <= cutoff
    ensures Ahead(Select(index, cutoff, cursor), 0, index, scans, began)
  {
    forall p | p in began && Stands(index, p) && p !in scans ensures p in Select(index, cutoff, cursor) {
      var i :| 0 <= i < |index| && index[i] == Row(p, true);
      assert Matches(index[i], cutoff, cursor);
      SelectedIff(index, cutoff, cursor, p);
    }
    var all := Select(index, cutoff, cursor);
    assert all[0..] == all;
  }

  lemma {:induction false} AheadIsAfter(index: seq<Row>, cutoff: int, cursor: Option<Position>, n: nat, p: Position)
    requires Sorted(index) && n <= |Select(index, cutoff, cursor)| && p in Select(index, cutoff, cursor)[n..]
    ensures After(CursorAt(Select(index, cutoff, cursor), n, cursor), p)
  {
    var all := Select(index, cutoff, cursor);
    SelectedInOrder(index, cutoff, cursor);
    var i :| n <= i < |all| && all[i] == p;
    if n > 0 {
      AfterIsTransitive(None, all[n - 1], all[i]);
    }
  }

  /** The traversal stays covered when the cursor moves along the page. */
  lemma {:induction false} CoveredAlong(index: seq<Row>, receipts: seq<Row>, cutoff: int, cursor: Option<Position>,
                                        n: nat, scans: seq<Position>, began: set<Position>, since: int,
                                        other: Option<Position>)
    requires Sorted(index) && n <= |Select(index, cutoff, cursor)|
    requires Covered(receipts, scans, began, since, other)
             && Ahead(Select(index, cutoff, cursor), n, receipts, scans, began)
    ensures Covered(receipts, scans, began, since, CursorAt(Select(index, cutoff, cursor), n, cursor))
  {
    var all := Select(index, cutoff, cursor);
    forall p | p in began && Stands(receipts, p) && !After(CursorAt(all, n, cursor), p) ensures p in scans {
      if p !in scans {
        AheadIsAfter(index, cutoff, cursor, n, p);
      }
    }
  }

  /** One more scan keeps the log in order. */
  lemma {:induction false} ScanInOrder(scans: seq<Position>, cursor: Option<Position>, p: Position)
    requires InOrder(scans, cursor) && After(cursor, p) && |p| == 3
    ensures InOrder(scans + [p], Some(p))
  {
    IndexOrderIsTotal(p, p);
    SeekIsIndexOrder(p, p);
    forall i | 0 <= i < |scans| ensures Precedes(scans[i], p) && !After(Some(p), scans[i]) {
      var q := scans[i];
      assert q in scans && !After(cursor, q);
      SeekIsIndexOrder(cursor.value, q);
      SeekIsIndexOrder(cursor.value, p);
      IndexOrderIsTotal(cursor.value, q);
      if q != cursor.value { IndexOrderIsTransitive(q, cursor.value, p); }
      SeekIsIndexOrder(p, q);
      IndexOrderIsTotal(p, q);
    }
    var longer := scans + [p];
    forall i, j | 0 <= i < j < |longer| ensures Precedes(longer[i], longer[j]) {
      if j < |scans| { assert Precedes(scans[i], scans[j]); }
    }
  }

  /** When nothing due is left beyond the cursor, the traversal has scanned everything that still stands. */
  lemma {:induction false} NothingLeft(receipts: seq<Row>, cutoff: int, scans: seq<Position>, began: set<Position>,
                                       since: int, cursor: Option<Position>)
    requires Covered(receipts, scans, began, since, cursor) && since <= cutoff && Select(receipts, cutoff, cursor) == []
    ensures AllScanned(receipts, scans, began)
  {
    PageHoldsTheRest(receipts, cutoff, scans, began, since, cursor);
  }

  // ------------------------------------------------------------- one batch

  /** The result of one batch: what it adds to the run's tally. */
  function Added(tally: Tally, scanned: nat, eligible: nat, deleted: nat, more: bool, isProtected: bool): Tally {
    Tally(tally.scanned + scanned, tally.eligible + eligible, tally.deleted + deleted, Some(more), isProtected)
  }

  lemma {:induction false} SameFloor<T>(s: Stream<T>, t: Stream<T>, cutoff: nat, allowUngrouped: bool, safe: nat)
    requires s.groups == t.groups && IsSafeFloor(t, cutoff, allowUngrouped, safe)
    ensures IsSafeFloor(s, cutoff, allowUngrouped, safe)
  {
    if s.groups != map[] || allowUngrouped {
      forall other: nat | Unneeded(s, cutoff, other) ensures other <= safe {
        assert Unneeded(t, cutoff, other);
      }
    }
  }

  lemma {:induction false} CountedBatch(run: Run, name: Resource, s: Stream<string>, tally: Tally, at: Option<nat>,
                                        count: nat, b: StreamRetention.Report)
    requires StreamSoFar(run, name, s, s, tally, at) && 1 <= count <= 1000 && tally.scanned + count <= run.limit
             && run.dryRun
    requires Removable(s, b.protectedFrom) == run.Backlog(name, s) && DryPage(s, count, at, b)
    ensures StreamSoFar(run, name, s, s, Added(tally, b.eligible, b.eligible, b.deleted, b.hasMore, b.isProtected),
                        b.cursor)
    ensures b.eligible <= count && (b.hasMore ==> b.eligible == count)
  {
  }

  lemma {:induction false} RemovedBatch(run: Run, name: Resource, s: Stream<string>, t: Stream<string>, tally: Tally,
                                        at: Option<nat>, count: nat, u: Stream<string>, b: StreamRetention.Report)
    requires StreamSoFar(run, name, s, t, tally, at) && 1 <= count <= 1000 && tally.scanned + count <= run.limit
             && !run.dryRun
    requires Removable(t, b.protectedFrom) == run.Backlog(name, s) - tally.scanned && RealBatch(t, count, u, b)
    requires Verdict(u, CutoffId(run.StreamCutoff(name)), b)
    ensures StreamSoFar(run, name, s, u, Added(tally, b.eligible, b.eligible, b.deleted, b.hasMore, b.isProtected),
                        b.cursor)
    ensures b.eligible <= count && (b.hasMore ==> b.eligible == count)
  {
    assert s.entries[tally.scanned..][b.deleted..] == s.entries[tally.scanned + b.deleted..];
  }

  /** The floor does not move while a run trims, so what is left is what the run has not removed yet. */
  lemma {:induction false} BacklogLeft(run: Run, name: Resource, s: Stream<string>, t: Stream<string>, tally: Tally,
                                       at: Option<nat>, safe: nat)
    requires s.Valid() && StreamSoFar(run, name, s, t, tally, at)
    requires IsSafeFloor(t, CutoffId(run.StreamCutoff(name)), name.IsDead(), safe)
    ensures Removable(t, safe) == if run.dryRun then run.Backlog(name, s) else run.Backlog(name, s) - tally.scanned
  {
    var cutoff := CutoffId(run.StreamCutoff(name));
    SameFloor(s, t, cutoff, name.IsDead(), safe);
    BacklogIs(s, cutoff, name.IsDead(), safe);
    if !run.dryRun {
      BelowAfter(s.entries, tally.scanned, safe);
    }
  }

  lemma {:induction false} EmptyBatch(run: Run, name: Resource, s: Stream<string>, t: Stream<string>, tally: Tally,
                                      at: Option<nat>)
    requires StreamSoFar(run, name, s, t, tally, at) && t.entries == []
    ensures StreamSoFar(run, name, s, t, Added(tally, 0, 0, 0, false, false), if run.dryRun then None else at)
  {
  }

  /** A batch of a stream continues exactly where the last one ended. */
  lemma {:induction false} StreamBatch(run: Run, name: Resource, s: Stream<string>, t: Stream<string>, tally: Tally,
                                       at: Option<nat>, count: nat, u: Stream<string>, b: StreamRetention.Report)
    requires s.Valid() && t.Valid() && StreamSoFar(run, name, s, t, tally, at) && 1 <= count <= 1000
             && tally.scanned + count <= run.limit
    requires Absent(t) ==> u == t && b == StreamRetention.Report(0, 0, 0, 0, None, false, 0, false)
    requires !Absent(t) ==> IsSafeFloor(t, CutoffId(run.StreamCutoff(name)), name.IsDead(), b.protectedFrom)
    requires !Absent(t) && run.dryRun ==> u == t && DryPage(t, count, at, b)
    requires !Absent(t) && !run.dryRun ==> RealBatch(t, count, u, b)
    requires !run.dryRun ==> Verdict(u, CutoffId(run.StreamCutoff(name)), b)
    ensures StreamSoFar(run, name, s, u, Added(tally, b.eligible, b.eligible, b.deleted, b.hasMore, b.isProtected),
                        b.cursor)
    ensures b.eligible <= count && (b.hasMore ==> b.eligible == count)
  {
    if Absent(t) {
      EmptyBatch(run, name, s, t, tally, at);
    } else {
      BacklogLeft(run, name, s, t, tally, at, b.protectedFrom);
      if run.dryRun {
        CountedBatch(run, name, s, tally, at, count, b);
      } else {
        RemovedBatch(run, name, s, t, tally, at, count, u, b);
      }
    }
  }

  /** Behind the rows a run has handled, the query still selects exactly the rest. */
  lemma {:induction false} OutboxRest(index: seq<Row>, cutoff: int, k: nat, dryRun: bool)
    requires Sorted(index) && k <= |Select(index, cutoff, None)|
    ensures var all := Select(index, cutoff, None);
            Select(if dryRun then index else Without(index, all[..k]), cutoff, CursorAt(all, k, None)) == all[k..]
  {
    var all := Select(index, cutoff, None);
    if k > 0 {
      PagesAreGapFree(index, cutoff, None, k);
      SelectedInOrder(index, cutoff, None);
      forall p | p in all[..k] ensures !After(Some(all[k - 1]), p) {
        var i :| 0 <= i < k && all[i] == p;
        IndexOrderIsTotal(p, p);
        SeekIsIndexOrder(p, p);
        if i < k - 1 { AfterIsTransitive(None, p, all[k - 1]); }
      }
      RemovalKeepsTheRest(index, all[..k], cutoff, Some(all[k - 1]));
    } else {
      RemovalKeepsTheRest(index, all[..0], cutoff, None);
      assert all[0..] == all;
    }
  }

  lemma {:induction false} SliceOf<T>(all: seq<T>, k: nat, page: seq<T>)
    requires k + |page| <= |all| && page == all[k..k + |page|]
    ensures all[..k] + page == all[..k + |page|] && all[k..][|page|..] == all[k + |page|..]
    ensures page != [] ==> page[|page| - 1] == all[k + |page| - 1]
  {
  }

  lemma {:induction false} PrefixOfRest<T>(all: seq<T>, k: nat, page: seq<T>)
    requires k <= |all| && page <= all[k..]
    ensures k + |page| <= |all| && page == all[k..k + |page|]
  {
  }

  /** What the query finds after a page of the due rows, counted or removed. */
  lemma {:induction false} OutboxLeft(rows: seq<Row>, cutoff: int, all: seq<Position>, k: nat, page: seq<Position>,
                                      dryRun: bool, outbox: seq<Row>, left: seq<Row>)
    requires Sorted(rows) && all == Select(rows, cutoff, None) && k + |page| <= |all| && page == all[k..k + |page|]
    requires outbox == if dryRun then rows else Without(rows, all[..k])
    requires left == if dryRun then outbox else Without(outbox, page)
    ensures left == if dryRun then rows else Without(rows, all[..k + |page|])
    ensures Select(left, cutoff, CursorAt(all, k + |page|, None)) == all[k + |page|..]
  {
    SliceOf(all, k, page);
    if !dryRun {
      RemovedTwice(rows, all[..k], page);
    }
    OutboxRest(rows, cutoff, k + |page|, dryRun);
  }

  lemma {:induction false} OutboxAdvances(run: Run, rows: seq<Row>, tally: Tally, n: nat, left: seq<Row>, more: bool)
    requires tally.scanned == tally.eligible && tally.deleted == if run.dryRun then 0 else tally.scanned
    requires tally.scanned + n <= |run.Due(rows)| && tally.scanned + n <= run.limit
    requires left == if run.dryRun then rows else Without(rows, run.Due(rows)[..tally.scanned + n])
    requires more <==> tally.scanned + n < |run.Due(rows)|
    ensures OutboxSoFar(run, rows, left, Added(tally, n, n, if run.dryRun then 0 else n, more, false),
                        CursorAt(run.Due(rows), tally.scanned + n, None))
  {
  }

  /** The page a turn reads is the next stretch of the due rows. */
  lemma {:induction false} OutboxPage(run: Run, rows: seq<Row>, outbox: seq<Row>, tally: Tally, at: Option<Position>,
                                      page: seq<Position>)
    requires Sorted(rows) && OutboxSoFar(run, rows, outbox, tally, at) && page <= Select(outbox, run.OutboxCutoff(), at)
    ensures Select(outbox, run.OutboxCutoff(), at) == run.Due(rows)[tally.scanned..]
    ensures tally.scanned + |page| <= |run.Due(rows)| && page == run.Due(rows)[tally.scanned..tally.scanned + |page|]
  {
    var all, k := run.Due(rows), tally.scanned;
    OutboxRest(rows, run.OutboxCutoff(), k, run.dryRun);
    assert Select(outbox, run.OutboxCutoff(), at) == all[k..];
    PrefixOfRest(all, k, page);
  }

  /** Handling the next stretch of the due rows leaves the rest of them. */
  lemma {:induction false} OutboxFollows(run: Run, rows: seq<Row>, outbox: seq<Row>, tally: Tally, at: Option<Position>,
                                         all: seq<Position>, page: seq<Position>, left: seq<Row>, more: bool)
    requires Sorted(rows) && OutboxSoFar(run, rows, outbox, tally, at) && tally.scanned + |page| <= run.limit
             && all == run.Due(rows)
    requires tally.scanned + |page| <= |all| && page == all[tally.scanned..tally.scanned + |page|]
    requires left == if run.dryRun then outbox else Without(outbox, page)
    requires more <==> Select(left, run.OutboxCutoff(), CursorAt(all, tally.scanned + |page|, None)) != []
    ensures more <==> tally.scanned + |page| < |all|
    ensures OutboxSoFar(run, rows, left, Added(tally, |page|, |page|, if run.dryRun then 0 else |page|, more, false),
                        CursorAt(all, tally.scanned + |page|, None))
  {
    OutboxLeft(rows, run.OutboxCutoff(), all, tally.scanned, page, run.dryRun, outbox, left);
    OutboxAdvances(run, rows, tally, |page|, left, more);
  }

  /** The last row of a page is where the cursor stands. */
  lemma {:induction false} CursorBehind(all: seq<Position>, k: nat, page: seq<Position>, at: Option<Position>)
    requires k + |page| <= |all| && page == all[k..k + |page|] && at == CursorAt(all, k, None)
    ensures CursorAt(all, k + |page|, None) == if |page| > 0 then Some(page[|page| - 1]) else at
  {
  }

  /** A page of the published outbox continues exactly where the last one ended. */
  lemma {:induction false} OutboxBatch(run: Run, rows: seq<Row>, outbox: seq<Row>, tally: Tally, at: Option<Position>,
                                       count: nat, page: seq<Position>, left: seq<Row>, cursor: Option<Position>)
    requires Sorted(rows) && OutboxSoFar(run, rows, outbox, tally, at) && 1 <= count
             && tally.scanned + count <= run.limit
    requires var found := Select(outbox, run.OutboxCutoff(), at); page <= found && |page| == Min(count, |found|)
    requires left == if run.dryRun then outbox else Without(outbox, page)
    requires cursor == if |page| > 0 then Some(page[|page| - 1]) else at
    ensures var more := Select(left, run.OutboxCutoff(), cursor) != [];
            && (more ==> |page| == count)
            && OutboxSoFar(run, rows, left, Added(tally, |page|, |page|, if run.dryRun then 0 else |page|, more, false),
                           cursor)
  {
    var all := run.Due(rows);
    OutboxPage(run, rows, outbox, tally, at, page);
    CursorBehind(all, tally.scanned, page, at);
    OutboxFollows(run, rows, outbox, tally, at, all, page, left, Select(left, run.OutboxCutoff(), cursor) != []);
  }
}
