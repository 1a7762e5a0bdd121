/** src/Operations/StreamRetention.php: one atomic, bounded trim of a stream's head. */
module StreamRetention {
  import opened Options
  import opened RedisStream
  import opened StreamIds

  datatype Report = Report(deleted: nat, protectedFrom: nat, groups: nat, eligible: nat, cursor: Option<nat>,
                         hasMore: bool, lagSeconds: nat, isProtected: bool)

  function Min(a: int, b: int): int { if a < b then a else b }

  function Max(a: int, b: int): int { if a < b then b else a }

  function CutoffId(cutoffMillis: int): nat { Max(0, cutoffMillis) * SEQUENCES }

  function BatchLimit(limit: int): nat { Max(1, Min(limit, 1000)) }

  /** The ids below the cutoff are those of earlier milliseconds, whatever their sequence numbers. */
  lemma {:induction false} OlderThanCutoff(cutoffMillis: int, ms: nat, sequence: nat)
    requires sequence < 0x1_0000_0000_0000_0000
    ensures ms * 0x1_0000_0000_0000_0000 + sequence < CutoffId(cutoffMillis) <==> ms < cutoffMillis
  {
    if ms < cutoffMillis {
      assert (ms + 1) * SEQUENCES <= cutoffMillis * SEQUENCES;
    }
  }

  /** The group has read, and acknowledged, everything below the bound. */
  predicate Done(group: Group, bound: nat) {
    bound <= group.last && forall id :: id in group.pending ==> bound <= id
  }

  /** The cutoff has passed the bound, and no group still needs an entry below it. */
  predicate Unneeded<T>(s: Stream<T>, cutoff: nat, bound: nat) {
    bound <= cutoff && forall g :: g in s.groups ==> Done(s.groups[g], bound)
  }

  /** The safe floor is the greatest unneeded bound, and zero for a main stream nobody reads yet. */
  ghost predicate IsSafeFloor<T>(s: Stream<T>, cutoff: nat, allowUngrouped: bool, safe: nat) {
    if s.groups == map[] && !allowUngrouped then safe == 0
    else Unneeded(s, cutoff, safe) && forall other: nat :: Unneeded(s, cutoff, other) ==> other <= safe
  }

  predicate IsLowest(ids: set<nat>, low: nat) {
    low in ids && forall id :: id in ids ==> low <= id
  }

  lemma {:induction false} LowestExists(ids: set<nat>)
    requires ids != {}
    ensures exists low: nat :: IsLowest(ids, low)
    decreases |ids|
  {
    var id :| id in ids;
    var rest := ids - {id};
    if rest == {} {
      assert ids == {id};
      assert IsLowest(ids, id);
    } else {
      LowestExists(rest);
      var low: nat :| IsLowest(rest, low);
      var least: nat := if id < low then id else low;
      assert ids == rest + {id};
      assert IsLowest(ids, least);
    }
  }

  /** Keeps the lesser of two ids; the script compares their decimal texts. */
  method Lesser(id: nat, safe: nat) returns (least: nat)
    ensures least == Min(id, safe)
  {
    RenderedOrder(id, safe);
    least := if Less(Render(id), Render(safe)) then id else safe;
  }

  /** The fold over groups. */
  method SafeFloor<T>(s: Stream<T>, cutoff: nat, allowUngrouped: bool) returns (safe: nat)
    ensures IsSafeFloor(s, cutoff, allowUngrouped, safe)
  {
    safe := cutoff;
    if s.groups == map[] && !allowUngrouped {
      safe := 0;
    }
    var names := s.groups.Keys;
    while names != {}
      invariant names <= s.groups.Keys
      invariant s.groups == map[] && !allowUngrouped ==> safe == 0
      invariant s.groups != map[] || allowUngrouped ==>
                  && safe <= cutoff && (forall g :: g in s.groups && g !in names ==> Done(s.groups[g], safe))
                  && forall other: nat :: Unneeded(s, cutoff, other) ==> other <= safe
    {
      var name :| name in names;
      var group := s.groups[name];
      safe := Lesser(group.last, safe);
      if group.pending != map[] {
        LowestExists(group.pending.Keys);
        var low: nat :| IsLowest(group.pending.Keys, low);
        safe := Lesser(low, safe);
      }
      names := names - {name};
    }
  }

  /** The entries a run may still remove. */
  function Removable<T>(s: Stream<T>, safe: nat): nat {
    Below(s.entries, safe)
  }

  /** How far a cursor has advanced: the entries at or before it. */
  function Passed<T>(s: Stream<T>, cursor: Option<nat>): nat {
    if cursor.None? then 0 else Below(s.entries, cursor.value + 1)
  }

  /** The state a batch leaves: none expired, more to remove, or the oldest expired entry still needed. */
  predicate NoneExpired<T>(s: Stream<T>, cutoff: nat) {
    |s.entries| == 0 || cutoff <= s.entries[0].id
  }

  /** A stretch of the log: the entries from index p on, before index q, at most one more than the limit. */
  predicate IsStretch<T(==)>(es: seq<Entry<T>>, p: nat, q: nat, limit: nat, r: seq<Entry<T>>) {
    && |r| == Max(0, Min(limit + 1, q - p)) && (|r| > 0 ==> p + |r| <= |es|)
    && forall i :: 0 <= i < |r| ==> r[i] == es[p + i]
  }

  lemma {:induction false} RangeIsStretch<T>(es: seq<Entry<T>>, start: nat, safe: nat, limit: nat)
    ensures IsStretch(es, Below(es, start), Below(es, safe), limit,
                      if safe != 0 then Range(es, start, safe, limit + 1) else [])
  {
    RangeIs(es, start, safe, limit + 1);
    BelowZero(es);
  }

  /** The last entry of a stretch, and the one behind it. */
  lemma {:induction false} StretchEnds<T>(es: seq<Entry<T>>, p: nat, q: nat, limit: nat, r: seq<Entry<T>>, count: nat)
    requires Ascending(es) && limit > 0 && IsStretch(es, p, q, limit, r) && count == Min(|r|, limit)
    ensures count == Max(0, Min(limit, q - p))
    ensures count > 0 ==>
              p + count <= |es| && r[count - 1] == es[p + count - 1] && Below(es, r[count - 1].id + 1) == p + count
    ensures if |r| > limit then Below(es, r[limit].id) == p + count else count > 0 ==> q == p + count
  {
    if |r| > limit {
      assert r[limit] == es[p + limit];
      BelowAt(es, p + limit);
    }
    if count > 0 {
      assert r[count - 1] == es[p + count - 1];
      BelowAt(es, p + count - 1);
    }
  }

  /** The last entry of the page, and the one behind it. */
  lemma {:induction false} PageIs<T>(es: seq<Entry<T>>, start: nat, safe: nat, limit: nat, eligible: seq<Entry<T>>,
                                     count: nat)
    requires Ascending(es) && limit > 0 && eligible == (if safe != 0 then Range(es, start, safe, limit + 1) else [])
             && count == Min(|eligible|, limit)
    ensures var p, q := Below(es, start), Below(es, safe);
            && count == Max(0, Min(limit, q - p))
            && (count > 0 ==>
                  p + count <= |es| && eligible[count - 1] == es[p + count - 1]
                  && Below(es, eligible[count - 1].id + 1) == p + count)
            && (if |eligible| > limit then Below(es, eligible[limit].id) == p + count else count > 0 ==> q == p + count)
            && (start == 0 ==> p == 0)
  {
    RangeIsStretch(es, start, safe, limit);
    StretchEnds(es, Below(es, start), Below(es, safe), limit, eligible, count);
    BelowZero(es);
  }

  /** The page of entries from start up to the safe floor, and the trim point behind it. */
  method Page<T>(es: seq<Entry<T>>, start: nat, safe: nat, limit: nat, after: Option<nat>)
    returns (count: nat, floor: nat, cursor: Option<nat>)
    requires Ascending(es) && limit > 0
    ensures count == Max(0, Min(limit, Below(es, safe) - Below(es, start)))
    ensures count > 0 ==> Below(es, start) + count <= |es| && cursor == Some(es[Below(es, start) + count - 1].id)
    ensures count > 0 ==> Below(es, cursor.value + 1) == Below(es, start) + count
    ensures count == 0 ==> cursor == after
    ensures count > 0 && start == 0 ==> Below(es, floor) == count
  {
    var eligible := if safe != 0 then Range(es, start, safe, limit + 1) else [];
    count := Min(|eligible|, limit);
    PageIs(es, start, safe, limit, eligible, count);
    floor, cursor := safe, after;
    if |eligible| > limit {
      floor := eligible[limit].id;
    }
    if count > 0 {
      cursor := Some(eligible[count - 1].id);
    }
  }

  /** What is left: more below the safe floor, how overdue the oldest entry is, and whether it is needed. */
  method Remaining<T>(es: seq<Entry<T>>, start: nat, safe: nat, cutoff: nat)
    returns (hasMore: bool, lag: nat, isProtected: bool)
    ensures hasMore <==> Below(es, start) < Below(es, safe)
    ensures isProtected <==> |es| > 0 && safe <= es[0].id < cutoff
  {
    var remaining := if safe != 0 then Range(es, start, safe, 1) else [];
    var expired := if cutoff != 0 then Range(es, 0, cutoff, 1) else [];
    hasMore, lag, isProtected := |remaining| > 0, 0, false;
    if |expired| > 0 {
      lag := Max(0, (cutoff / SEQUENCES - expired[0].id / SEQUENCES) / 1000);
      RenderedOrder(expired[0].id, safe);
      isProtected := !Less(Render(expired[0].id), Render(safe));
    }
  }

  /** A dry run reports the next page after the cursor. */
  predicate DryPage<T>(s: Stream<T>, limit: int, after: Option<nat>, report: Report) {
    var p, n := Passed(s, after), Removable(s, report.protectedFrom);
    && report.deleted == 0
    && report.eligible == Max(0, Min(if limit < 1 then 1 else if limit > 1000 then 1000 else limit, n - p))
    && (report.eligible == 0 ==> report.cursor == after)
    && Passed(s, report.cursor) == p + report.eligible
    && (report.hasMore <==> p + report.eligible < n)
  }

  /** A real batch removes exactly the first entries below the safe floor. */
  predicate RealBatch<T(==)>(s: Stream<T>, limit: int, t: Stream<T>, report: Report) {
    var n := Removable(s, report.protectedFrom);
    && report.deleted == report.eligible == Min(if limit < 1 then 1 else if limit > 1000 then 1000 else limit, n)
    && t == s.(entries := s.entries[report.deleted..])
    && Removable(t, report.protectedFrom) == n - report.deleted
    && (report.hasMore <==> report.deleted < n)
  }

  /** Exactly one holds: nothing is expired, more can go, or the oldest expired entry is still needed. */
  predicate Verdict<T>(t: Stream<T>, cutoff: nat, report: Report) {
    if NoneExpired(t, cutoff) then !report.hasMore && !report.isProtected else report.hasMore != report.isProtected
  }

  lemma TrimmedBatch<T>(s: Stream<T>, limit: int, floor: nat, t: Stream<T>, report: Report)
    requires s.Valid() && t == (if report.eligible > 0 then Trim(s, floor) else s)
    requires report.eligible == Max(0, Min(BatchLimit(limit), Removable(s, report.protectedFrom)))
    requires report.eligible > 0 ==> Below(s.entries, floor) == report.eligible
    requires report.deleted == report.eligible
    requires report.hasMore <==> 0 < Below(t.entries, report.protectedFrom)
    ensures t.Valid() && RealBatch(s, limit, t, report)
  {
    BelowAfter(s.entries, report.deleted, report.protectedFrom);
    assert s.entries[0..] == s.entries;
  }

  lemma NextPage<T>(s: Stream<T>, limit: int, after: Option<nat>, start: nat, from: nat, report: Report)
    requires start == (if after.Some? then after.value + 1 else 0)
    requires from == (if report.cursor.Some? then report.cursor.value + 1 else 0)
    requires report.deleted == 0
    requires report.eligible ==
               Max(0, Min(BatchLimit(limit), Removable(s, report.protectedFrom) - Below(s.entries, start)))
    requires report.eligible > 0 ==>
               report.cursor.Some? && Below(s.entries, from) == Below(s.entries, start) + report.eligible
    requires report.eligible == 0 ==> report.cursor == after
    requires report.hasMore <==> Below(s.entries, from) < Removable(s, report.protectedFrom)
    ensures DryPage(s, limit, after, report)
  {
    BelowZero(s.entries);
  }

  lemma {:induction false} VerdictHolds<T>(t: Stream<T>, cutoff: nat, report: Report)
    requires report.protectedFrom <= cutoff
    requires report.hasMore <==> 0 < Below(t.entries, report.protectedFrom)
    requires report.isProtected <==> |t.entries| > 0 && report.protectedFrom <= t.entries[0].id < cutoff
    ensures Verdict(t, cutoff, report)
  {
  }

  lemma {:induction false} RemovedPage<T>(s: Stream<T>, limit: int, floor: nat, t: Stream<T>, cutoff: nat,
                                          report: Report)
    requires s.Valid() && report.protectedFrom <= cutoff && t == (if report.eligible > 0 then Trim(s, floor) else s)
    requires report.eligible == Max(0, Min(BatchLimit(limit), Removable(s, report.protectedFrom) - Below(s.entries, 0)))
    requires report.eligible > 0 ==> Below(s.entries, floor) == report.eligible
    requires report.deleted == report.eligible
    requires report.hasMore <==> Below(t.entries, 0) < Below(t.entries, report.protectedFrom)
    requires report.isProtected <==> |t.entries| > 0 && report.protectedFrom <= t.entries[0].id < cutoff
    ensures t.Valid() && RealBatch(s, limit, t, report) && Verdict(t, cutoff, report)
  {
    BelowZero(s.entries);
    BelowZero(t.entries);
    TrimmedBatch(s, limit, floor, t, report);
    VerdictHolds(t, cutoff, report);
  }

  lemma {:induction false} FloorBelowCutoff<T>(s: Stream<T>, cutoff: nat, allowUngrouped: bool, safe: nat)
    requires IsSafeFloor(s, cutoff, allowUngrouped, safe)
    ensures safe <= cutoff
  {
  }

  /** The script from the safe floor on, in a dry run: it pages on from the cursor. */
  method CountPage<T>(s: Stream<T>, safe: nat, cutoff: nat, limit: int, after: Option<nat>) returns (report: Report)
    requires s.Valid() && safe <= cutoff
    ensures report.protectedFrom == safe && DryPage(s, limit, after, report)
  {
    var start := if after.Some? then after.value + 1 else 0;
    var count, floor, cursor := Page(s.entries, start, safe, BatchLimit(limit), after);
    var from := if cursor.Some? then cursor.value + 1 else 0;
    var hasMore, lag, isProtected := Remaining(s.entries, from, safe, cutoff);
    report := Report(0, safe, |s.groups|, count, cursor, hasMore, lag, isProtected);
    NextPage(s, limit, after, start, from, report);
  }

  /** The same in a real batch: it pages from the head, and trims what it counted. */
  method RemovePage<T(==)>(s: Stream<T>, safe: nat, cutoff: nat, limit: int) returns (t: Stream<T>, report: Report)
    requires s.Valid() && safe <= cutoff
    ensures t.Valid() && report.protectedFrom == safe && RealBatch(s, limit, t, report) && Verdict(t, cutoff, report)
  {
    t := s;
    var count, floor, cursor := Page(s.entries, 0, safe, BatchLimit(limit), None);
    var deleted := 0;
    if count > 0 {
      deleted := Below(s.entries, floor);
      t := Trim(s, floor);
    }
    var hasMore, lag, isProtected := Remaining(t.entries, 0, safe, cutoff);
    report := Report(deleted, safe, |s.groups|, count, cursor, hasMore, lag, isProtected);
    RemovedPage(s, limit, floor, t, cutoff, report);
  }

  /** The script. The stream it leaves is returned; its limit is clamped as the caller clamps it. */
  method Prune<T(==)>(s: Stream<T>, cutoffMillis: int, dryRun: bool, limit: int, allowUngrouped: bool,
                      after: Option<nat>)
    returns (t: Stream<T>, report: Report)
    requires s.Valid()
    ensures t.Valid()
    ensures Absent(s) ==> t == s && report == Report(0, 0, 0, 0, None, false, 0, false)
    ensures !Absent(s) ==> IsSafeFloor(s, CutoffId(cutoffMillis), allowUngrouped, report.protectedFrom)
    ensures !Absent(s) && dryRun ==> t == s && DryPage(s, limit, after, report)
    ensures !Absent(s) && !dryRun ==> RealBatch(s, limit, t, report)
    ensures !dryRun ==> Verdict(t, CutoffId(cutoffMillis), report)
  {
    if Absent(s) {
      return s, Report(0, 0, 0, 0, None, false, 0, false);
    }
    var cutoff := CutoffId(cutoffMillis);
    var safe := SafeFloor(s, cutoff, allowUngrouped);
    FloorBelowCutoff(s, cutoff, allowUngrouped, safe);
    t := s;
    if dryRun {
      report := CountPage(s, safe, cutoff, limit, after);
    } else {
      t, report := RemovePage(s, safe, cutoff, limit);
    }
  }

  /** Nothing a batch removes is unread or pending in any group, or newer than the cutoff. */
  lemma TrimIsSafe<T>(s: Stream<T>, cutoff: nat, allowUngrouped: bool, safe: nat, i: nat)
    requires s.Valid() && IsSafeFloor(s, cutoff, allowUngrouped, safe) && i < Removable(s, safe)
    ensures s.groups != map[] || allowUngrouped
    ensures s.entries[i].id < cutoff
    ensures forall g :: g in s.groups ==> s.entries[i].id < s.groups[g].last && s.entries[i].id !in s.groups[g].pending
  {
    BelowSplits(s.entries, safe, i);
  }

  /**
   * Any other floor would be wrong: one entry more, and a batch could remove an entry that is
   * not expired, or that some group has yet to read past or acknowledge.
   */
  lemma SafeFloorIsExact<T>(s: Stream<T>, cutoff: nat, safe: nat, floor: nat)
    requires s.groups != map[] && IsSafeFloor(s, cutoff, false, safe)
    ensures floor <= safe <==>
              floor <= cutoff && forall g :: g in s.groups ==> floor <= s.groups[g].last && forall id ::
                  id in s.groups[g].pending ==> floor <= id
  {
    assert Unneeded(s, cutoff, safe);
    if floor <= cutoff && forall g :: g in s.groups ==> Done(s.groups[g], floor) {
      assert Unneeded(s, cutoff, floor);
    }
  }

  lemma {:induction false} FloorIsUnique<T>(s: Stream<T>, t: Stream<T>, cutoff: nat, allowUngrouped: bool, a: nat,
                                            b: nat)
    requires s.groups == t.groups && IsSafeFloor(s, cutoff, allowUngrouped, a)
             && IsSafeFloor(t, cutoff, allowUngrouped, b)
    ensures a == b
  {
    if s.groups != map[] || allowUngrouped {
      assert Unneeded(t, cutoff, a) && Unneeded(s, cutoff, b);
    }
  }

  /** The number of entries retention may remove from a stream. */
  ghost function Backlog<T>(s: Stream<T>, cutoff: nat, allowUngrouped: bool): (n: nat)
    ensures n <= |s.entries|
  {
    if exists safe: nat :: IsSafeFloor(s, cutoff, allowUngrouped, safe) then
      var safe: nat :| IsSafeFloor(s, cutoff, allowUngrouped, safe);
      Removable(s, safe)
    else 0
  }

  lemma {:induction false} BacklogIs<T>(s: Stream<T>, cutoff: nat, allowUngrouped: bool, safe: nat)
    requires IsSafeFloor(s, cutoff, allowUngrouped, safe)
    ensures Backlog(s, cutoff, allowUngrouped) == Removable(s, safe)
  {
    var other: nat :| IsSafeFloor(s, cutoff, allowUngrouped, other)
      && Backlog(s, cutoff, allowUngrouped) == Removable(s, other);
    FloorIsUnique(s, s, cutoff, allowUngrouped, safe, other);
  }
}
