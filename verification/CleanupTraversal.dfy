/**
 * Many clean-up runs with changes by others between them: what a traversal of the receipts covers
 * until its cursor wraps.
 */
module CleanupTraversal {
  import opened Options
  import opened SeekPaging
  import opened CleanupModel
  import opened Cleaning

  /**
   * A run, with the fate of its cursor read and write and whether it throws, or whatever others do
   * between two runs.
   */
  datatype Turn = Clean(run: Run, readable: bool, written: bool, fails: bool) | Elsewhere(past: int) {
    function Moment(): int {
      match this
      case Clean(run, _, _, _) => run.ReceiptCutoff()
      case Elsewhere(past) => past
    }

    predicate Real() { Clean? && run.Accepted() && !run.dryRun }

    predicate Smooth() { Real() ==> readable && written && !fails }
  }

  /** Time does not go back. */
  predicate InTime(turns: seq<Turn>, since: int) {
    && (forall i :: 0 <= i < |turns| ==> since <= turns[i].Moment())
    && forall i, j :: 0 <= i < j < |turns| ==> turns[i].Moment() <= turns[j].Moment()
  }

  /** A real run that reports no more receipts. */
  predicate Wraps(turn: Turn, report: Option<Summary>) {
    && turn.Real() && report.Some? && report.value.Summary?
    && Receipts in report.value.states && report.value.states[Receipts].more == Some(false)
  }

  /** Of the receipts due at the start, those still there belong to the traversal under way. */
  ghost predicate Following(due: set<Position>, first: int, receipts: seq<Row>, began: set<Position>) {
    forall p :: p in due ==> |p| == 3 && p[0] < first && (Stands(receipts, p) ==> p in began)
  }

  lemma {:induction false} StillFollowing(due: set<Position>, first: int, before: seq<Row>, receipts: seq<Row>,
                                          began: set<Position>, cutoff: int)
    requires Following(due, first, before, began) && Aged(before, receipts, cutoff) && first <= cutoff
    ensures Following(due, first, receipts, began)
  {
    forall p | p in due && Stands(receipts, p) ensures p in began {
      StoodBefore(before, receipts, cutoff, p);
    }
  }

  /** A traversal that starts over takes in everything that still stands. */
  lemma {:induction false} StartsOver(due: set<Position>, first: int, receipts: seq<Row>, began: set<Position>,
                                      cutoff: int)
    requires Following(due, first, receipts, began) && first <= cutoff
    ensures Following(due, first, receipts, DueSet(receipts, cutoff))
  {
    forall p | p in due && Stands(receipts, p) ensures p in DueSet(receipts, cutoff) {
      var i :| 0 <= i < |receipts| && receipts[i] == Row(p, true);
      assert Matches(receipts[i], cutoff, None);
      SelectedIff(receipts, cutoff, None, p);
    }
  }

  lemma {:induction false} AtTheStart(receipts: seq<Row>, cutoff: int)
    requires ReceiptTable(receipts)
    ensures Following(DueSet(receipts, cutoff), cutoff, receipts, DueSet(receipts, cutoff))
  {
    AllDue(receipts, cutoff);
  }

  /** One turn keeps hold of the receipts that were due at the start. */
  method Take(m: Maintenance, turn: Turn, ghost due: set<Position>, ghost first: int) returns (report: Option<Summary>)
    requires m.Valid() && m.since <= turn.Moment() && first <= turn.Moment()
    requires Following(due, first, m.receipts, m.began)
    modifies m
    ensures m.Valid() && m.since <= turn.Moment()
    ensures Following(due, first, m.receipts, m.began)
    ensures old(m.steady) && turn.Smooth() ==> m.steady
    ensures Wraps(turn, report) ==> AllScanned(m.receipts, m.scans, m.began) && (m.steady ==> OnceEach(m.scans))
  {
    report := None;
    ghost var receipts := m.receipts;
    match turn {
      case Clean(run, readable, written, fails) =>
        if m.stored.None? {
          StartsOver(due, first, receipts, m.began, run.ReceiptCutoff());
        }
        var summary, p := m.Prune(run, readable, written, fails);
        report := Some(summary);
        if run.Accepted() {
          StillFollowing(due, first, receipts, m.receipts, m.began, run.ReceiptCutoff());
        }
      case Elsewhere(past) =>
        m.Elsewhere(past);
        StillFollowing(due, first, receipts, m.receipts, m.began, past);
    }
  }

  /**
   * Any sequence of runs, of any lengths and outcomes, and of changes by others, taken from an
   * empty cursor until a run reports no more receipts: every receipt that was due at the start
   * is gone, or was scanned, and exactly once unless a cursor was not read or not written, or a run threw.
   */
  method Traverse(m: Maintenance, turns: seq<Turn>) returns (reports: seq<Option<Summary>>)
    requires m.Valid() && m.stored.None? && turns != [] && turns[0].Real() && InTime(turns, m.since)
    modifies m
    ensures m.Valid() && 0 < |reports| <= |turns|
    ensures |reports| < |turns| ==> Wraps(turns[|reports| - 1], reports[|reports| - 1])
    ensures Wraps(turns[|reports| - 1], reports[|reports| - 1]) ==>
              forall p :: p in DueSet(old(m.receipts), turns[0].Moment()) && Stands(m.receipts, p) ==>
                && p in m.scans
                && ((forall i :: 0 <= i < |reports| ==> turns[i].Smooth()) ==> ScannedOnce(m.scans, p))
  {
    ghost var due, first := DueSet(m.receipts, turns[0].Moment()), turns[0].Moment();
    AtTheStart(m.receipts, first);
    var report := Begin(m, turns[0]);
    reports := [report];
    while |reports| < |turns| && !Wraps(turns[|reports| - 1], reports[|reports| - 1])
      invariant m.Valid() && 0 < |reports| <= |turns| && m.since <= turns[|reports| - 1].Moment()
      invariant Following(due, first, m.receipts, m.began)
      invariant (forall i :: 0 <= i < |reports| ==> turns[i].Smooth()) ==> m.steady
      invariant Wraps(turns[|reports| - 1], reports[|reports| - 1]) ==>
                  AllScanned(m.receipts, m.scans, m.began) && (m.steady ==> OnceEach(m.scans))
      decreases |turns| - |reports|
    {
      var n := |reports|;
      report := Take(m, turns[n], due, first);
      reports := reports + [report];
    }
  }

  /** The first run finds no cursor, so its traversal is a new one. */
  method Begin(m: Maintenance, turn: Turn) returns (report: Option<Summary>)
    requires m.Valid() && m.stored.None? && turn.Real() && m.since <= turn.Moment()
    modifies m
    ensures m.Valid() && m.since <= turn.Moment()
    ensures Following(DueSet(old(m.receipts), turn.Moment()), turn.Moment(), m.receipts, m.began)
    ensures turn.Smooth() ==> m.steady
    ensures Wraps(turn, report) ==> AllScanned(m.receipts, m.scans, m.began) && (m.steady ==> OnceEach(m.scans))
  {
    ghost var receipts := m.receipts;
    AtTheStart(receipts, turn.Moment());
    var summary, p := m.Prune(turn.run, turn.readable, turn.written, turn.fails);
    report := Some(summary);
    StillFollowing(DueSet(receipts, turn.Moment()), turn.Moment(), receipts, m.receipts, m.began, turn.Moment());
  }
}
