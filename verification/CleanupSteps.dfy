/** A clean-up run takes only steps the pipeline allows: its trims, its deletions of receipts and of published rows. */
module CleanupSteps {
  import opened Options
  import opened RedisStream
  import opened StreamRetention
  import opened CommandModel
  import opened BridgeState
  import opened BridgeInvariants
  import opened Index = SeekPaging
  import opened CleanupModel
  import opened Cleaning

  // ----------------------------------------------------------------- trims

  /** A real batch on the commands stream removes nothing, or is one trim step. */
  lemma {:induction false} TrimIsStep(w: World, cutoff: nat, limit: int, t: Stream<Body>,
                                      report: StreamRetention.Report)
    requires IsSafeFloor(w.commands, cutoff, false, report.protectedFrom) && RealBatch(w.commands, limit, t, report)
    ensures var s := TrimCommands(cutoff, report.protectedFrom, BatchLimit(limit));
            t == w.commands || (Enabled(w, s) && Apply(w, s) == w.(commands := t))
  {
    if w.commands.groups == map[] {
      BelowZero(w.commands.entries);
      assert w.commands.entries[0..] == w.commands.entries;
    }
  }

  /** StreamRetention::prune on the commands stream, as the pipeline sees it. */
  method PruneCommands(w: World, cutoffMillis: int, limit: int) returns (v: World, ghost safe: nat)
    requires w.commands.Valid()
    ensures v == w || (Enabled(w, TrimCommands(CutoffId(cutoffMillis), safe, BatchLimit(limit)))
                       && v == Apply(w, TrimCommands(CutoffId(cutoffMillis), safe, BatchLimit(limit))))
    ensures !Absent(w.commands) ==> IsSafeFloor(w.commands, CutoffId(cutoffMillis), false, safe)
    ensures w.commands.groups != map[] ==>
              v.commands.entries == w.commands.entries[Min(BatchLimit(limit), Below(w.commands.entries, safe))..]
  {
    var t, report := StreamRetention.Prune(w.commands, cutoffMillis, false, limit, false, None);
    v, safe := w.(commands := t), report.protectedFrom;
    if !Absent(w.commands) {
      TrimIsStep(w, CutoffId(cutoffMillis), limit, t, report);
    }
  }

  // -------------------------------------------------------------- receipts

  /** The receipt of an index row: its columns, named. */
  ghost predicate ShowsReceipt(w: World, row: Index.Row, names: map<Position, ReceiptKey>) {
    var k := KeyAt(row.position);
    && |row.position| == 3 && k in names && names[k] in w.receipts
    && w.receipts[names[k]].updated == row.position[0] && (row.done <==> w.receipts[names[k]].result.Some?)
  }

  /** Some receipt of this key has a result waiting to be published. */
  ghost predicate HasWaiting(w: World, key: ReceiptKey) {
    exists row :: row in w.outbox && Waiting(w, row, key)
  }

  /** Each key has one name. */
  ghost predicate Named(names: map<Position, ReceiptKey>) {
    forall a, b :: a in names && b in names && names[a] == names[b] ==> a == b
  }

  /** Every row of the index is a receipt. */
  ghost predicate AllShown(w: World, receipts: seq<Index.Row>, names: map<Position, ReceiptKey>) {
    forall i :: 0 <= i < |receipts| ==> ShowsReceipt(w, receipts[i], names)
  }

  ghost predicate InIndex(receipts: seq<Index.Row>, k: Position) {
    exists i :: 0 <= i < |receipts| && KeyAt(receipts[i].position) == k
  }

  /** Every receipt is a row of the index. */
  ghost predicate AllIndexed(w: World, receipts: seq<Index.Row>, names: map<Position, ReceiptKey>) {
    forall k :: k in names && names[k] in w.receipts ==> InIndex(receipts, k)
  }

  ghost predicate AllFlagged(w: World, waiting: set<Position>, names: map<Position, ReceiptKey>) {
    forall k :: k in names ==> (k in waiting <==> HasWaiting(w, names[k]))
  }

  /** The clean-up's view of the receipts, and of those with a waiting result, is the pipeline's. */
  ghost predicate Shows(w: World, receipts: seq<Index.Row>, waiting: set<Position>, names: map<Position, ReceiptKey>) {
    && ReceiptTable(receipts) && Named(names) && w.receipts.Keys <= names.Values
    && AllShown(w, receipts, names) && AllIndexed(w, receipts, names) && AllFlagged(w, waiting, names)
  }

  lemma {:induction false} PruneGuard(w: World, key: ReceiptKey, runStart: int)
    requires key !in w.held && runStart <= w.clock
    ensures Enabled(w, PruneReceipt(key, runStart)) <==>
              && key in w.receipts && w.receipts[key].result.Some? && w.receipts[key].updated < runStart - w.retention
              && !HasWaiting(w, key)
  {
  }

  /** The index has a due row for a key exactly when its receipt holds an old result. */
  lemma {:induction false} DueIs(w: World, receipts: seq<Index.Row>, names: map<Position, ReceiptKey>, p: Position,
                                 cutoff: int)
    requires KeyAt(p) in names && AllShown(w, receipts, names) && AllIndexed(w, receipts, names)
    ensures (exists row :: row in receipts && IsDue(row, p, cutoff)) <==>
              var key := names[KeyAt(p)];
                key in w.receipts && w.receipts[key].result.Some? && w.receipts[key].updated < cutoff
  {
    var key := names[KeyAt(p)];
    if row :| row in receipts && IsDue(row, p, cutoff) {
      assert ShowsReceipt(w, row, names);
    }
    if key in w.receipts && w.receipts[key].result.Some? && w.receipts[key].updated < cutoff {
      var i :| 0 <= i < |receipts| && KeyAt(receipts[i].position) == KeyAt(p);
      assert ShowsReceipt(w, receipts[i], names);
      assert receipts[i] in receipts && IsDue(receipts[i], p, cutoff);
    }
  }

  /** Maintenance finds a receipt removable under its lock exactly when the pipeline allows it to be pruned. */
  lemma {:induction false} VisitIsStep(w: World, receipts: seq<Index.Row>, waiting: set<Position>,
                                       names: map<Position, ReceiptKey>, p: Position, runStart: int)
    requires Shows(w, receipts, waiting, names) && KeyAt(p) in names && names[KeyAt(p)] !in w.held
             && runStart <= w.clock
    ensures Enabled(w, PruneReceipt(names[KeyAt(p)], runStart)) <==>
              KeyAt(p) !in waiting && exists row :: row in receipts && IsDue(row, p, runStart - w.retention)
  {
    PruneGuard(w, names[KeyAt(p)], runStart);
    DueIs(w, receipts, names, p, runStart - w.retention);
  }

  /** The receipt is still due under the cutoff exactly when a due row of its key is in the table. */
  lemma {:induction false} StillDueIff(v: Visited, cutoff: int)
    requires ReceiptTable(v.receipts)
    ensures StillDue(v, cutoff) <==> exists row :: row in v.receipts && IsDue(row, v.position, cutoff)
  {
    if StillDue(v, cutoff) {
      var i :| 0 <= i < |v.receipts| && KeyAt(v.receipts[i].position) == KeyAt(v.position) && v.receipts[i].done
        && |v.receipts[i].position| > 0 && v.receipts[i].position[0] < cutoff;
      assert IsDue(v.receipts[i], v.position, cutoff);
    }
    if row :| row in v.receipts && IsDue(row, v.position, cutoff) {
      var i :| 0 <= i < |v.receipts| && v.receipts[i] == row;
      assert |v.receipts[i].position| == 3;
    }
  }

  /**
   * Of the receipts a run looks at, it removes exactly those the pipeline allows to be pruned at
   * that moment, when its setting for receipts is the pipeline's retention.
   */
  lemma {:induction false} RemovalIsStep(w: World, run: Run, v: Visited, names: map<Position, ReceiptKey>)
    requires Shows(w, v.receipts, v.waiting, names) && Judged(v, run.ReceiptCutoff())
    requires w.retention == (if run.receiptsSeconds < 1 then 1 else run.receiptsSeconds) && run.now / 1000 <= w.clock
    requires KeyAt(v.position) in names && names[KeyAt(v.position)] !in w.held
    ensures v.finding == Removable <==> Enabled(w, PruneReceipt(names[KeyAt(v.position)], run.now / 1000))
  {
    StillDueIff(v, run.ReceiptCutoff());
    VisitIsStep(w, v.receipts, v.waiting, names, v.position, run.now / 1000);
  }

  /** And deleting the row is that step. */
  lemma {:induction false} VisitRemoves(w: World, receipts: seq<Index.Row>, waiting: set<Position>,
                                        names: map<Position, ReceiptKey>, row: Index.Row, runStart: int)
    requires Shows(w, receipts, waiting, names) && row in receipts && KeyAt(row.position) in names
    requires Enabled(w, PruneReceipt(names[KeyAt(row.position)], runStart))
    ensures Shows(Apply(w, PruneReceipt(names[KeyAt(row.position)], runStart)), Without(receipts, [row.position]),
                  waiting, names)
  {
    var v := Apply(w, PruneReceipt(names[KeyAt(row.position)], runStart));
    RemovalKeepsTable(receipts, [row.position]);
    StillShown(w, v, receipts, names, row);
    AllStillIndexed(w, v, receipts, names, row);
    StillFlagged(w, v, waiting, names);
  }

  lemma {:induction false} StillFlagged(w: World, v: World, waiting: set<Position>, names: map<Position, ReceiptKey>)
    requires AllFlagged(w, waiting, names) && v.outbox == w.outbox && v.letters == w.letters
    ensures AllFlagged(v, waiting, names)
  {
    forall k | k in names ensures k in waiting <==> HasWaiting(v, names[k]) {
      SameWaiting(w, v, names[k]);
    }
  }

  lemma {:induction false} AllStillIndexed(w: World, v: World, receipts: seq<Index.Row>,
                                           names: map<Position, ReceiptKey>, row: Index.Row)
    requires AllIndexed(w, receipts, names) && KeyAt(row.position) in names
             && v.receipts == w.receipts - {names[KeyAt(row.position)]}
    ensures AllIndexed(v, Without(receipts, [row.position]), names)
  {
    var rest := Without(receipts, [row.position]);
    forall k | k in names && names[k] in v.receipts ensures InIndex(rest, k) {
      assert InIndex(receipts, k);
      var i :| 0 <= i < |receipts| && KeyAt(receipts[i].position) == k;
      StillIndexed(receipts, row, receipts[i]);
      var j :| 0 <= j < |rest| && rest[j] == receipts[i];
    }
  }

  lemma {:induction false} StillShown(w: World, v: World, receipts: seq<Index.Row>, names: map<Position, ReceiptKey>,
                                      row: Index.Row)
    requires ReceiptTable(receipts) && row in receipts && KeyAt(row.position) in names && Named(names)
             && AllShown(w, receipts, names)
    requires v.receipts == w.receipts - {names[KeyAt(row.position)]}
    ensures AllShown(v, Without(receipts, [row.position]), names)
  {
    var rest := Without(receipts, [row.position]);
    forall i | 0 <= i < |rest| ensures ShowsReceipt(v, rest[i], names) {
      WithoutIs(receipts, [row.position], rest[i]);
      OtherKey(receipts, row, rest[i]);
      assert ShowsReceipt(w, rest[i], names);
    }
  }

  lemma {:induction false} StillIndexed(receipts: seq<Index.Row>, row: Index.Row, other: Index.Row)
    requires other in receipts && KeyAt(other.position) != KeyAt(row.position)
    ensures other in Without(receipts, [row.position])
  {
    WithoutIs(receipts, [row.position], other);
  }

  lemma {:induction false} SameWaiting(w: World, v: World, key: ReceiptKey)
    requires v.outbox == w.outbox && v.letters == w.letters
    ensures HasWaiting(v, key) <==> HasWaiting(w, key)
  {
    if HasWaiting(w, key) {
      var row :| row in w.outbox && Waiting(w, row, key);
      assert Waiting(v, row, key);
    }
    if HasWaiting(v, key) {
      var row :| row in v.outbox && Waiting(v, row, key);
      assert Waiting(w, row, key);
    }
  }

  /** Another row of the table has another key. */
  lemma {:induction false} OtherKey(receipts: seq<Index.Row>, row: Index.Row, other: Index.Row)
    requires ReceiptTable(receipts) && row in receipts && other in receipts && other.position != row.position
    ensures KeyAt(other.position) != KeyAt(row.position)
  {
    var i :| 0 <= i < |receipts| && receipts[i] == row;
    var j :| 0 <= j < |receipts| && receipts[j] == other;
  }

  // -------------------------------------------------------- published rows

  /** The index of published rows: publication time and id. */
  ghost predicate ShowsOutbox(w: World, rows: seq<Index.Row>) {
    forall i :: 0 <= i < |rows| && rows[i].done ==>
      var p := rows[i].position;
      |p| == 2 && 0 <= p[1] && var id: nat := p[1]; id in w.outbox && w.outbox[id].published == Some(p[0])
  }

  /** A row on a page of the published outbox may be pruned. */
  lemma {:induction false} PublishedIsStep(w: World, rows: seq<Index.Row>, cutoff: int, cursor: Option<Position>,
                                           p: Position)
    requires MailInv(w) && ShowsOutbox(w, rows) && p in Select(rows, cutoff, cursor)
    ensures |p| == 2 && 0 <= p[1] && Enabled(w, PruneRow(p[1]))
  {
    SelectedIff(rows, cutoff, cursor, p);
    var i :| 0 <= i < |rows| && rows[i].position == p && Matches(rows[i], cutoff, cursor);
    assert Conserved(w, p[1]);
  }
}
