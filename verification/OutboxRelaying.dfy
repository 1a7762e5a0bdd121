/** src/Outbox/OutboxRelay.php: publishing rows under their lock, with backoff. */
module OutboxRelaying {
  import opened Options
  import opened Exchanges
  import opened StreamRetention
  import opened BridgeState
  import opened BridgeInvariants
  import opened BridgeTheorems
  import opened Backends

  function Power2(n: nat): nat {
    if n == 0 then 1 else 2 * Power2(n - 1)
  }

  /** Seconds until the next try: doubling with each attempt, never above an hour. */
  function Backoff(base: nat, attempts: nat): nat {
    var delay := base * Power2(if attempts < 10 then attempts else 10);
    if delay < 3600 then delay else 3600
  }

  /** How many rows a process marked as published. */
  function Commits(steps: seq<Step>): nat {
    if steps == [] then 0 else Commits(steps[..|steps| - 1]) + (if steps[|steps| - 1].RelayCommit? then 1 else 0)
  }

  lemma {:induction false} CommitsAdd(a: seq<Step>, b: seq<Step>)
    ensures Commits(a + b) == Commits(a) + Commits(b)
  {
    if b == [] {
      assert a + b == a;
    } else {
      var n := |b| - 1;
      assert (a + b)[..|a + b| - 1] == a + b[..n] && (a + b)[|a + b| - 1] == b[n];
      CommitsAdd(a, b[..n]);
    }
  }

  lemma {:induction false} CommitsOne(s: Step)
    ensures Commits([s]) == if s.RelayCommit? then 1 else 0
  {
    assert [s][..0] == [];
  }

  /** The row is waiting to be published. */
  predicate IsDue(w: World, row: nat) {
    row in w.outbox && w.outbox[row].published.None? && w.outbox[row].available <= w.clock
  }

  /** The oldest of the rows waiting to be published, in order: as many as the limit allows, or all of them. */
  predicate DueList(w: World, limit: int, ids: seq<nat>) {
    var bound := Max(1, Min(limit, 1000));
    && |ids| <= bound
    && (forall k :: 0 <= k < |ids| ==> ids[k] < |w.letters| && IsDue(w, ids[k]))
    && (forall k, l :: 0 <= k < l < |ids| ==> ids[k] < ids[l])
    && forall row :: 0 <= row < |w.letters| && IsDue(w, row) ==> row in ids || (|ids| == bound && ids[bound - 1] < row)
  }

  /** What one try at a row came to; Unheard is a commit whose answer was lost. */
  datatype Try = Published | Skipped | Delayed | RolledBack | Unheard

  /**
   * What one transaction meets: whether the database answers at its start; whether the stream
   * accepts the entry, or took it although the append failed; what becomes of the commit; and
   * whether a failure is a deadlock.
   */
  datatype Fortune = Fortune(up: bool, accepted: bool, lost: bool, commit: Exchange, deadlock: bool)

  /** The steps of a transaction that was rolled back: none if another relay held the row. */
  predicate IsUndone(steps: seq<Step>, id: nat, f: Fortune) {
    || steps == []
    || (f.commit.NotDone? && steps == if f.accepted then [RelayLock(id), RelayAppend(id), RelayRollback(id)]
        else [RelayLock(id), RelayRollback(id)])
  }

  /** Transactions on a row that were begun and rolled back. */
  ghost predicate Undone(tries: seq<seq<Step>>, id: nat, fs: nat -> Fortune) {
    forall i {:trigger IsUndone(tries[i], id, fs(i))} :: 0 <= i < |tries| ==> IsUndone(tries[i], id, fs(i))
  }

  /** Each of them was started again because of a deadlock. */
  ghost predicate Retried(n: nat, fs: nat -> Fortune) {
    forall i :: 0 <= i < n ==> fs(i).deadlock
  }

  /** A transaction that was committed: the row is published, or delayed. */
  predicate Settled(last: seq<Step>, id: nat, f: Fortune) {
    && f.commit.Done()
    && if f.accepted then last == [RelayLock(id), RelayAppend(id), RelayCommit(id)]
       else |last| == 2 && last[0] == RelayLock(id) && last[1].RelayFail? && last[1].row == id && last[1].lost == f.lost
  }

  /** The end of the last transaction on a row: nothing to do, or a commit that was answered. */
  predicate Ended(last: seq<Step>, id: nat, count: nat, f: Fortune) {
    (last == [] && count == 0) || (f.commit.Completed? && Settled(last, id, f) && count == if f.accepted then 1 else 0)
  }

  /** One row's turn: the transactions that were rolled back, and how the last one ended. */
  datatype RowTurn = RowTurn(tries: seq<seq<Step>>, last: seq<Step>, count: nat, threw: bool) {
    function Taken(): seq<Step> { Flat(tries) + last }

    /**
     * At most five transactions, a new one only after a deadlock; the fifth deadlock and any other
     * query error are thrown, and so is a lost answer to a commit.
     */
    ghost predicate Valid(id: nat, fs: nat -> Fortune) {
      && |tries| <= 5 && Undone(tries, id, fs)
      && if !threw then |tries| < 5 && Retried(|tries|, fs) && Ended(last, id, count, fs(|tries|))
         else if last != [] then |tries| < 5 && Retried(|tries|, fs) && count == 0 && fs(|tries|).commit.AnswerLost?
              && Settled(last, id, fs(|tries|))
         else count == 0 && tries != [] && Retried(|tries| - 1, fs) && (|tries| < 5 ==> !fs(|tries| - 1).deadlock)
    }

    /** The row was marked as published without the relay being told. */
    predicate Unheard() { threw && |last| == 3 }
  }

  /** A pass over these rows, as far as it got: only its last turn may have thrown. */
  ghost predicate Turned(turns: seq<RowTurn>, ids: seq<nat>, fs: nat -> nat -> Fortune, threw: bool) {
    |turns| <= |ids| && forall k {:trigger TurnAt(turns, ids, fs, threw, k)} ::
        0 <= k < |turns| ==> TurnAt(turns, ids, fs, threw, k)
  }

  ghost predicate TurnAt(turns: seq<RowTurn>, ids: seq<nat>, fs: nat -> nat -> Fortune, threw: bool, k: nat)
    requires k < |turns| <= |ids|
  {
    turns[k].Valid(ids[k], fs(k)) && (turns[k].threw <==> threw && k == |turns| - 1)
  }

  lemma {:induction false} TurnedMore(turns: seq<RowTurn>, ids: seq<nat>, fs: nat -> nat -> Fortune, t: RowTurn)
    requires Turned(turns, ids, fs, false) && |turns| < |ids| && t.Valid(ids[|turns|], fs(|turns|))
    ensures Turned(turns + [t], ids, fs, t.threw)
  {
    var more := turns + [t];
    forall k | 0 <= k < |more| ensures TurnAt(more, ids, fs, t.threw, k) {
      if k < |turns| { assert TurnAt(turns, ids, fs, false, k); }
    }
  }

  /** The row was not due at some moment since. */
  ghost predicate NotDueSince(trace: seq<World>, from: nat, id: nat) {
    exists at {:trigger IsDue(trace[at], id)} :: from <= at < |trace| && !IsDue(trace[at], id)
  }

  lemma {:induction false} StillNotDue(trace: seq<World>, longer: seq<World>, from: nat, early: nat, id: nat)
    requires NotDueSince(trace, from, id) && trace <= longer && early <= from
    ensures NotDueSince(longer, early, id)
  {
    var at :| from <= at < |trace| && !IsDue(trace[at], id);
    assert !IsDue(longer[at], id);
  }

  /** A row that was left as it is was not due, when it was looked at under its lock. */
  ghost predicate Excused(trace: seq<World>, from: nat, turns: seq<RowTurn>, ids: seq<nat>) {
    |turns| <= |ids| && forall k ::
        0 <= k < |turns| && turns[k].last == [] && !turns[k].threw ==> NotDueSince(trace, from, ids[k])
  }

  lemma {:induction false} ExcusedMore(trace: seq<World>, longer: seq<World>, from: nat, middle: nat,
                                       turns: seq<RowTurn>, ids: seq<nat>, t: RowTurn)
    requires Excused(trace, from, turns, ids) && trace <= longer && |turns| < |ids| && from <= middle
    requires t.last == [] && !t.threw ==> NotDueSince(longer, middle, ids[|turns|])
    ensures Excused(longer, from, turns + [t], ids)
  {
    var more := turns + [t];
    forall k | 0 <= k < |more| && more[k].last == [] && !more[k].threw ensures NotDueSince(longer, from, ids[k]) {
      if k < |turns| {
        StillNotDue(trace, longer, from, from, ids[k]);
      } else {
        StillNotDue(longer, longer, middle, from, ids[k]);
      }
    }
  }

  lemma {:induction false} Associative<T>(a: seq<T>, b: seq<T>, c: seq<T>)
    ensures (a + b) + c == a + (b + c)
  {
  }

  function Flat(steps: seq<seq<Step>>): seq<Step> {
    if steps == [] then [] else Flat(steps[..|steps| - 1]) + steps[|steps| - 1]
  }

  function AllTaken(turns: seq<RowTurn>): seq<Step> {
    if turns == [] then [] else AllTaken(turns[..|turns| - 1]) + turns[|turns| - 1].Taken()
  }

  function Counted(turns: seq<RowTurn>): nat {
    if turns == [] then 0 else Counted(turns[..|turns| - 1]) + turns[|turns| - 1].count
  }

  lemma {:induction false} OneTurnMore(turns: seq<RowTurn>, t: RowTurn)
    ensures AllTaken(turns + [t]) == AllTaken(turns) + t.Taken() && Counted(turns + [t]) == Counted(turns) + t.count
  {
    assert (turns + [t])[..|turns|] == turns;
  }

  lemma {:induction false} OneTryMore(tries: seq<seq<Step>>, t: seq<Step>)
    ensures Flat(tries + [t]) == Flat(tries) + t
  {
    assert (tries + [t])[..|tries|] == tries;
  }

  lemma {:induction false} CommitsOfTries(tries: seq<seq<Step>>, id: nat, fs: nat -> Fortune)
    requires Undone(tries, id, fs)
    ensures Commits(Flat(tries)) == 0
  {
    if tries != [] {
      var n := |tries| - 1;
      assert IsUndone(tries[n], id, fs(n));
      forall i | 0 <= i < n ensures IsUndone(tries[..n][i], id, fs(i)) {
        assert IsUndone(tries[i], id, fs(i));
      }
      CommitsOfTries(tries[..n], id, fs);
      CommitsOfUndone(tries[n], id, fs(n));
      CommitsAdd(Flat(tries[..n]), tries[n]);
    }
  }

  lemma {:induction false} CommitsOfTwo(a: Step, b: Step)
    ensures Commits([a, b]) == Commits([a]) + Commits([b])
  {
    CommitsAdd([a], [b]);
    assert [a] + [b] == [a, b];
  }

  lemma {:induction false} CommitsOfThree(a: Step, b: Step, c: Step)
    ensures Commits([a, b, c]) == Commits([a]) + Commits([b]) + Commits([c])
  {
    CommitsOfTwo(a, b);
    CommitsAdd([a, b], [c]);
    assert [a, b] + [c] == [a, b, c];
  }

  lemma {:induction false} CommitsOfUndone(steps: seq<Step>, id: nat, f: Fortune)
    requires IsUndone(steps, id, f)
    ensures Commits(steps) == 0
  {
    CommitsOne(RelayLock(id));
    CommitsOne(RelayAppend(id));
    CommitsOne(RelayRollback(id));
    CommitsOfTwo(RelayLock(id), RelayRollback(id));
    CommitsOfThree(RelayLock(id), RelayAppend(id), RelayRollback(id));
  }

  lemma {:induction false} CommitsOfLast(last: seq<Step>, id: nat, count: nat, f: Fortune)
    requires Ended(last, id, count, f)
    ensures Commits(last) == count
  {
    if last != [] {
      CommitsOfSettled(last, id, f);
    }
  }

  lemma {:induction false} CommitsOfSettled(last: seq<Step>, id: nat, f: Fortune)
    requires Settled(last, id, f)
    ensures Commits(last) == if f.accepted then 1 else 0
  {
    CommitsOne(RelayLock(id));
    if f.accepted {
      CommitsOne(RelayAppend(id));
      CommitsOne(RelayCommit(id));
      CommitsOfThree(RelayLock(id), RelayAppend(id), RelayCommit(id));
    } else {
      CommitsOne(last[1]);
      CommitsOfTwo(RelayLock(id), last[1]);
      assert last == [RelayLock(id), last[1]];
    }
  }

  lemma {:induction false} CommitsOfTurn(t: RowTurn, id: nat, fs: nat -> Fortune)
    requires t.Valid(id, fs)
    ensures Commits(t.Taken()) == t.count + if t.Unheard() then 1 else 0
  {
    CommitsOfTries(t.tries, id, fs);
    CommitsAdd(Flat(t.tries), t.last);
    if !t.threw {
      CommitsOfLast(t.last, id, t.count, fs(|t.tries|));
    } else if t.last != [] {
      CommitsOfSettled(t.last, id, fs(|t.tries|));
    }
  }

  /** The pass ended with a publication whose commit was carried out and not answered. */
  predicate LastUnheard(turns: seq<RowTurn>) {
    turns != [] && turns[|turns| - 1].Unheard()
  }

  /**
   * The steps of a pass mark exactly the counted rows as published, and one more if the answer to
   * its last commit was lost.
   */
  lemma {:induction false} CommitsAreCounted(turns: seq<RowTurn>, ids: seq<nat>, fs: nat -> nat -> Fortune, threw: bool)
    requires Turned(turns, ids, fs, threw)
    ensures Commits(AllTaken(turns)) == Counted(turns) + if LastUnheard(turns) then 1 else 0
  {
    if turns != [] {
      var n := |turns| - 1;
      assert TurnAt(turns, ids, fs, threw, n);
      forall k | 0 <= k < n ensures TurnAt(turns[..n], ids, fs, false, k) {
        assert TurnAt(turns, ids, fs, threw, k);
      }
      CommitsAreCounted(turns[..n], ids, fs, false);
      assert n > 0 ==> TurnAt(turns, ids, fs, threw, n - 1);
      CommitsOfTurn(turns[n], ids[n], fs(n));
      CommitsAdd(AllTaken(turns[..n]), turns[n].Taken());
    }
  }

  /** So far every transaction on the row was rolled back, and started again. */
  ghost predicate Tried(own: seq<Step>, now: seq<Step>, tries: seq<seq<Step>>, id: nat, fs: nat -> Fortune) {
    Undone(tries, id, fs) && now == own + Flat(tries)
  }

  lemma {:induction false} NothingTried(own: seq<Step>, id: nat, fs: nat -> Fortune)
    ensures Tried(own, own, [], id, fs)
  {
    assert own == own + Flat([]);
  }

  lemma {:induction false} TriedAgain(own: seq<Step>, now: seq<Step>, tries: seq<seq<Step>>, id: nat,
                                      fs: nat -> Fortune, taken: seq<Step>)
    requires Tried(own, now, tries, id, fs) && IsUndone(taken, id, fs(|tries|))
    ensures Tried(own, now + taken, tries + [taken], id, fs)
  {
    OneTryMore(tries, taken);
    Associative(own, Flat(tries), taken);
    var more := tries + [taken];
    forall i | 0 <= i < |more| ensures IsUndone(more[i], id, fs(i)) {
      if i < |tries| { assert IsUndone(tries[i], id, fs(i)); }
    }
  }

  lemma {:induction false} TriedTo(own: seq<Step>, now: seq<Step>, tries: seq<seq<Step>>, id: nat, fs: nat -> Fortune,
                                   last: seq<Step>, count: nat)
    requires Tried(own, now, tries, id, fs) && Retried(|tries|, fs) && Ended(last, id, count, fs(|tries|))
             && |tries| < 5
    ensures RowTurn(tries, last, count, false).Valid(id, fs)
            && now + last == own + RowTurn(tries, last, count, false).Taken()
  {
    Associative(own, Flat(tries), last);
  }

  lemma {:induction false} TriedUnheard(own: seq<Step>, now: seq<Step>, tries: seq<seq<Step>>, id: nat,
                                        fs: nat -> Fortune, last: seq<Step>)
    requires Tried(own, now, tries, id, fs) && Retried(|tries|, fs) && |tries| < 5
    requires fs(|tries|).commit.AnswerLost? && Settled(last, id, fs(|tries|))
    ensures RowTurn(tries, last, 0, true).Valid(id, fs) && now + last == own + RowTurn(tries, last, 0, true).Taken()
  {
    Associative(own, Flat(tries), last);
  }

  lemma {:induction false} GivesUp(own: seq<Step>, now: seq<Step>, tries: seq<seq<Step>>, id: nat, fs: nat -> Fortune)
    requires Tried(own, now, tries, id, fs) && 0 < |tries| <= 5 && Retried(|tries| - 1, fs)
             && (|tries| < 5 ==> !fs(|tries| - 1).deadlock)
    ensures RowTurn(tries, [], 0, true).Valid(id, fs) && now == own + RowTurn(tries, [], 0, true).Taken()
  {
    assert Flat(tries) + [] == Flat(tries);
  }

  /** What a relay does about a row it has locked. */
  function LockedSteps(id: nat, f: Fortune, delay: nat): seq<Step> {
    (if f.accepted then [RelayAppend(id)] else [])
    + [if f.commit.NotDone? then RelayRollback(id) else if f.accepted then RelayCommit(id)
       else RelayFail(id, delay, f.lost)]
  }

  /** The steps of a transaction on a row that was due and free. */
  lemma {:induction false} WholeTry(id: nat, f: Fortune, delay: nat)
    ensures var taken := [RelayLock(id)] + LockedSteps(id, f, delay);
            if f.commit.Done() then Settled(taken, id, f) else IsUndone(taken, id, f)
  {
  }

  /** What a transaction on a row that was due and free comes to. */
  function Result(f: Fortune): Try {
    match f.commit
    case NotDone => RolledBack
    case AnswerLost => Unheard
    case Completed => if f.accepted then Published else Delayed
  }

  /** A transaction's steps, by what it came to. */
  predicate HowEnded(result: Try, taken: seq<Step>, id: nat, f: Fortune) {
    match result
    case RolledBack => IsUndone(taken, id, f)
    case Unheard => f.commit.AnswerLost? && Settled(taken, id, f)
    case Published => Ended(taken, id, 1, f)
    case _ => Ended(taken, id, 0, f)
  }

  class OutboxRelay {
    const backend: Backend
    const retrySeconds: nat

    constructor (backend: Backend, retrySeconds: nat)
      ensures this.backend == backend && this.retrySeconds == retrySeconds
    {
      this.backend, this.retrySeconds := backend, retrySeconds;
    }

    /**
     * One pass over the rows due when it began, in order, up to the row before which it is asked to
     * stop, or the one whose transaction throws. The count is the rows this pass marked as published.
     * `up` says whether the first query is answered, `fs` what each transaction of each row meets.
     */
    method RunOnce(limit: int, stopAt: nat, up: bool, fs: nat -> nat -> Fortune)
      returns (published: nat, threw: bool, ghost ids: seq<nat>, ghost turns: seq<RowTurn>)
      requires backend.Valid()
      modifies backend
      ensures backend.Valid() && backend.Grew()
      ensures if up then DueList(old(backend.State()), limit, ids) else threw && ids == []
      ensures |turns| <= Min(|ids|, stopAt) && (!threw ==> |turns| == Min(|ids|, stopAt))
              && (up && threw ==> turns != [])
      ensures Turned(turns, ids, fs, up && threw) && Excused(backend.trace, |old(backend.trace)| - 1, turns, ids)
      ensures backend.own == old(backend.own) + AllTaken(turns)
      // What it counted is what it marked, but for a last commit whose answer was lost.
      ensures published == Counted(turns)
      ensures Commits(backend.own) == Commits(old(backend.own)) + published + if LastUnheard(turns) then 1 else 0
    {
      published, threw, ids, turns := 0, true, [], [];
      if !up {
        assert backend.own == backend.own + AllTaken(turns);
        return;
      }
      var due := Due(limit);
      ids := due;
      published, threw, turns := Work(due, stopAt, fs);
      CommitsAreCounted(turns, ids, fs, threw);
      CommitsAdd(old(backend.own), AllTaken(turns));
    }

    /** The loop over the rows. */
    method Work(due: seq<nat>, stopAt: nat, fs: nat -> nat -> Fortune)
      returns (published: nat, threw: bool, ghost turns: seq<RowTurn>)
      requires backend.Valid() && forall k :: 0 <= k < |due| ==> due[k] < |backend.letters|
      modifies backend
      ensures backend.Valid() && backend.Grew()
      ensures |turns| <= Min(|due|, stopAt) && (!threw ==> |turns| == Min(|due|, stopAt)) && (threw ==> turns != [])
      ensures Turned(turns, due, fs, threw) && Excused(backend.trace, |old(backend.trace)| - 1, turns, due)
      ensures backend.own == old(backend.own) + AllTaken(turns) && published == Counted(turns)
    {
      published, threw, turns := 0, false, [];
      assert backend.own == backend.own + AllTaken(turns);
      for n := 0 to |due|
        invariant backend.Valid() && backend.Grew() && !threw && |turns| == n <= stopAt
        invariant forall k :: 0 <= k < |due| ==> due[k] < |backend.letters|
        invariant Turned(turns, due, fs, false) && Excused(backend.trace, |old(backend.trace)| - 1, turns, due)
        invariant backend.own == old(backend.own) + AllTaken(turns) && published == Counted(turns)
      {
        if n == stopAt {
          break;
        }
        ghost var trace, turn := backend.trace, RowTurn([], [], 0, false);
        var count;
        count, threw, turn := Next(due[n], fs(n));
        ExcusedMore(trace, backend.trace, |old(backend.trace)| - 1, |trace| - 1, turns, due, turn);
        OneTurnMore(turns, turn);
        Associative(old(backend.own), AllTaken(turns), turn.Taken());
        TurnedMore(turns, due, fs, turn);
        published, turns := published + count, turns + [turn];
        if threw {
          break;
        }
      }
    }

    /** The next row, after whatever others did since the last one. */
    method Next(id: nat, fs: nat -> Fortune) returns (count: nat, threw: bool, ghost turn: RowTurn)
      requires backend.Valid() && id < |backend.letters|
      modifies backend
      ensures backend.Valid() && backend.Grew()
      ensures turn.Valid(id, fs) && turn.count == count && turn.threw == threw
      ensures backend.own == old(backend.own) + turn.Taken()
      ensures turn.last == [] && !threw ==> NotDueSince(backend.trace, |old(backend.trace)| - 1, id)
    {
      backend.Pause();
      ghost var middle := |backend.trace| - 1;
      count, threw, turn := Publish(id, fs);
      if turn.last == [] && !threw {
        StillNotDue(backend.trace, backend.trace, middle, |old(backend.trace)| - 1, id);
      }
    }

    /** The oldest of the rows waiting to be published: as many as the limit allows, or all of them. */
    method Due(limit: int) returns (ids: seq<nat>)
      requires backend.Valid()
      ensures DueList(backend.State(), limit, ids)
    {
      var bound: nat := Max(1, Min(limit, 1000));
      ids := [];
      for row := 0 to |backend.letters|
        invariant |ids| <= bound
        invariant forall k :: 0 <= k < |ids| ==> ids[k] < row && IsDue(backend.State(), ids[k])
        invariant forall k, l :: 0 <= k < l < |ids| ==> ids[k] < ids[l]
        invariant forall r ::
                    0 <= r < row && IsDue(backend.State(), r) ==> r in ids || (|ids| == bound && ids[bound - 1] < r)
      {
        if |ids| < bound && row in backend.outbox && backend.outbox[row].published.None?
          && backend.outbox[row].available <= backend.clock {
          ids := ids + [row];
        }
      }
    }

    /**
     * DB::transaction(…, 5): a deadlock rolls the attempt back and starts it again; any other query
     * error, the fifth deadlock and a lost answer to the commit are thrown. All steps concern this
     * row, and it is left alone
     * only if it was not due.
     */
    method Publish(id: nat, fs: nat -> Fortune) returns (count: nat, threw: bool, ghost turn: RowTurn)
      requires backend.Valid() && id < |backend.letters|
      modifies backend
      ensures backend.Valid() && backend.Grew()
      ensures turn.Valid(id, fs) && turn.count == count && turn.threw == threw
      ensures backend.own == old(backend.own) + turn.Taken()
      ensures turn.last == [] && !threw ==> NotDueSince(backend.trace, |old(backend.trace)| - 1, id)
    {
      ghost var own, tries: seq<seq<Step>> := backend.own, [];
      count, threw, turn := 0, false, RowTurn([], [], 0, false);
      NothingTried(own, id, fs);
      for attempt := 0 to 5
        invariant backend.Valid() && backend.Grew() && id < |backend.letters|
        invariant Tried(own, backend.own, tries, id, fs) && |tries| == attempt && Retried(attempt, fs)
        invariant count == 0 && threw == (attempt > 0) && turn == RowTurn(tries, [], 0, threw)
      {
        ghost var at := |backend.trace| - 1;
        var ended;
        ended, count, threw, turn, tries := Again(id, fs, attempt, own, tries);
        if ended {
          if turn.last == [] && !threw {
            StillNotDue(backend.trace, backend.trace, at, |old(backend.trace)| - 1, id);
          }
          return;
        }
        if !fs(attempt).deadlock {
          break;
        }
      }
      GivesUp(own, backend.own, tries, id, fs);
    }

    /** The next transaction: the last one, unless it is rolled back. */
    method Again(id: nat, fs: nat -> Fortune, attempt: nat, ghost own: seq<Step>, ghost tries: seq<seq<Step>>)
      returns (ended: bool, count: nat, threw: bool, ghost turn: RowTurn, ghost more: seq<seq<Step>>)
      requires backend.Valid() && id < |backend.letters| && attempt < 5
      requires Tried(own, backend.own, tries, id, fs) && |tries| == attempt && Retried(attempt, fs)
      modifies backend
      ensures backend.Valid() && backend.Grew() && id < |backend.letters|
      ensures if ended then turn.Valid(id, fs) && backend.own == own + turn.Taken()
              else Tried(own, backend.own, more, id, fs) && turn == RowTurn(more, [], 0, true) && |more| == attempt + 1
      ensures turn.count == count && turn.threw == threw
      ensures ended && turn.last == [] && !threw ==> NotDueSince(backend.trace, |old(backend.trace)| - 1, id)
    {
      var result;
      ghost var taken;
      result, taken := Once(id, fs(attempt));
      ended, count, threw, more := !result.RolledBack?, 0, true, tries;
      if result.Unheard? {
        TriedUnheard(own, old(backend.own), tries, id, fs, taken);
        turn := RowTurn(tries, taken, 0, true);
      } else if ended {
        count, threw := if result.Published? then 1 else 0, false;
        TriedTo(own, old(backend.own), tries, id, fs, taken, count);
        turn := RowTurn(tries, taken, count, false);
      } else {
        TriedAgain(own, old(backend.own), tries, id, fs, taken);
        more := tries + [taken];
        turn := RowTurn(more, [], 0, true);
      }
    }

    /** One transaction, rolled back or not; one that takes no step found the row not due. */
    method Once(id: nat, f: Fortune) returns (result: Try, ghost taken: seq<Step>)
      requires backend.Valid() && id < |backend.letters|
      modifies backend
      ensures backend.Valid() && backend.Grew() && backend.own == old(backend.own) + taken
      ensures HowEnded(result, taken, id, f)
      ensures !result.RolledBack? && taken == [] ==> NotDueSince(backend.trace, |old(backend.trace)| - 1, id)
    {
      ghost var at := |backend.trace| - 1;
      result, taken := Attempt(id, f);
      if !result.RolledBack? && taken == [] {
        assert !IsDue(backend.trace[at], id);
      }
    }

    /**
     * One transaction: lock the row, look again, append, record the outcome, as stream and
     * database decide; `taken` is what this relay did.
     */
    method Attempt(id: nat, f: Fortune) returns (result: Try, ghost taken: seq<Step>)
      requires backend.Valid() && id < |backend.letters|
      modifies backend
      ensures backend.Valid() && backend.Grew() && backend.own == old(backend.own) + taken
      ensures !f.up ==> result.RolledBack? && taken == []
      ensures f.up && !old(IsDue(backend.State(), id)) ==>
                result == (if f.commit.Completed? then Skipped else RolledBack) && taken == []
      ensures f.up && old(IsDue(backend.State(), id) && id in backend.busy) ==> result.RolledBack? && taken == []
      ensures f.up && old(IsDue(backend.State(), id) && id !in backend.busy) ==>
                && result == Result(f)
                && taken == [RelayLock(id)]
                   + LockedSteps(id, f, Backoff(retrySeconds, old(backend.outbox[id].attempts)))
      ensures HowEnded(result, taken, id, f)
    {
      taken := [];
      assert backend.own == backend.own + taken;
      if !f.up {
        return RolledBack, [];
      }
      if id !in backend.outbox || backend.outbox[id].published.Some? || backend.clock < backend.outbox[id].available {
        return if f.commit.Completed? then Skipped else RolledBack, [];
      }
      if id in backend.busy {
        return RolledBack, [];   // another relay holds the row until the lock wait ends
      }
      LockRow(id);
      ghost var delay := Backoff(retrySeconds, backend.outbox[id].attempts);
      result, taken := Locked(id, f);
      Associative(old(backend.own), [RelayLock(id)], taken);
      WholeTry(id, f, delay);
      taken := [RelayLock(id)] + taken;
    }

    /** SELECT … FOR UPDATE on a row nobody holds, and the time until the append. */
    method LockRow(id: nat)
      requires backend.Valid() && id < |backend.letters| && IsDue(backend.State(), id) && id !in backend.busy
      modifies backend
      ensures backend.Valid() && backend.Grew() && backend.own == old(backend.own) + [RelayLock(id)]
      ensures id < |backend.letters|
      ensures id in backend.busy && !backend.busy[id] && id in backend.outbox
              && backend.outbox[id] == old(backend.outbox[id]) && id in backend.accounts
    {
      RunKeepsInv(backend.trace, |backend.trace| - 1);
      assert Conserved(backend.State(), id);
      backend.busy := backend.busy[id := false];
      backend.Took(RelayLock(id));
      backend.PauseHoldingRow(id);
    }

    /** With the row locked: the append, and what is recorded about it. */
    method Locked(id: nat, f: Fortune) returns (result: Try, ghost taken: seq<Step>)
      requires backend.Valid() && id < |backend.letters| && id in backend.accounts
      requires id in backend.busy && !backend.busy[id] && id in backend.outbox && backend.outbox[id].published.None?
      modifies backend
      ensures backend.Valid() && backend.Grew() && backend.own == old(backend.own) + taken
      ensures result == Result(f)
      ensures taken == LockedSteps(id, f, Backoff(retrySeconds, old(backend.outbox[id].attempts)))
    {
      result := Result(f);
      if f.accepted {
        Append(id);
        backend.PauseHoldingRow(id);
        Settle(id, f.commit.Done());
        taken := [RelayAppend(id), if f.commit.Done() then RelayCommit(id) else RelayRollback(id)];
      } else if f.commit.Done() {
        ghost var delay := Backoff(retrySeconds, backend.outbox[id].attempts);
        Delay(id, f.lost);
        taken := [RelayFail(id, delay, f.lost)];
      } else {
        Undo(id);
        taken := [RelayRollback(id)];
      }
    }

    /** The stream took the entry. */
    method Append(id: nat)
      requires backend.Valid() && id in backend.busy && !backend.busy[id]
      modifies backend`busy, backend`events, backend`trace, backend`own
      ensures backend.Valid() && backend.Grew() && backend.own == old(backend.own) + [RelayAppend(id)]
      ensures id in backend.busy && backend.busy[id]
    {
      backend.events := backend.events + [id];
      backend.busy := backend.busy[id := true];
      backend.Took(RelayAppend(id));
    }

    /** The database commits the publication, or not. */
    method Settle(id: nat, committed: bool)
      requires backend.Valid() && id in backend.busy && backend.busy[id] && id in backend.outbox
               && id in backend.accounts
      modifies backend`busy, backend`outbox, backend`accounts, backend`trace, backend`own
      ensures backend.Valid() && backend.Grew()
      ensures backend.own == old(backend.own) + [if committed then RelayCommit(id) else RelayRollback(id)]
    {
      if committed {
        MarkPublished(id);
      } else {
        Undo(id);
      }
    }

    /** published_at and the attempt count. */
    method MarkPublished(id: nat)
      requires backend.Valid() && id in backend.busy && backend.busy[id] && id in backend.outbox
               && id in backend.accounts
      modifies backend`busy, backend`outbox, backend`accounts, backend`trace, backend`own
      ensures backend.Valid() && backend.Grew() && backend.own == old(backend.own) + [RelayCommit(id)]
    {
      var row := backend.outbox[id];
      backend.outbox := backend.outbox[id := row.(published := Some(backend.clock), attempts := row.attempts + 1)];
      backend.accounts := backend.accounts[id := backend.accounts[id].(published := true)];
      backend.busy := backend.busy - {id};
      backend.Took(RelayCommit(id));
    }

    /** A failed publication is recorded with its next try; Redis may have accepted the entry all the same. */
    method Delay(id: nat, lost: bool)
      requires backend.Valid() && id in backend.busy && !backend.busy[id] && id in backend.outbox
               && id in backend.accounts
      modifies backend`busy, backend`outbox, backend`accounts, backend`events, backend`trace, backend`own
      ensures backend.Valid() && backend.Grew()
      ensures backend.own ==
                old(backend.own) + [RelayFail(id, Backoff(retrySeconds, old(backend.outbox[id].attempts)), lost)]
    {
      if lost {
        DelayLost(id);
      } else {
        DelayClean(id);
      }
    }

    method DelayClean(id: nat)
      requires backend.Valid() && id in backend.busy && !backend.busy[id] && id in backend.outbox
               && id in backend.accounts
      modifies backend`busy, backend`outbox, backend`trace, backend`own
      ensures backend.Valid() && backend.Grew()
      ensures backend.own ==
                old(backend.own) + [RelayFail(id, Backoff(retrySeconds, old(backend.outbox[id].attempts)), false)]
    {
      var row := backend.outbox[id];
      var delay := Backoff(retrySeconds, row.attempts);
      FailApplies(backend.State(), id, delay, false);
      backend.busy := backend.busy - {id};
      backend.outbox := backend.outbox[id := row.(available := backend.clock + delay, attempts := row.attempts + 1)];
      backend.Took(RelayFail(id, delay, false));
    }

    method DelayLost(id: nat)
      requires backend.Valid() && id in backend.busy && !backend.busy[id] && id in backend.outbox
               && id in backend.accounts
      modifies backend`busy, backend`outbox, backend`accounts, backend`events, backend`trace, backend`own
      ensures backend.Valid() && backend.Grew()
      ensures backend.own ==
                old(backend.own) + [RelayFail(id, Backoff(retrySeconds, old(backend.outbox[id].attempts)), true)]
    {
      var delay := Backoff(retrySeconds, backend.outbox[id].attempts);
      FailApplies(backend.State(), id, delay, true);
      Postpone(id, delay);
      backend.Took(RelayFail(id, delay, true));
    }

    /** The row waits longer, and its entry may be in the stream. */
    method Postpone(id: nat, delay: nat)
      requires id in backend.outbox && id in backend.accounts
      modifies backend`busy, backend`outbox, backend`accounts, backend`events
      ensures var w := old(backend.State());
              backend.State() == w.(
                busy := w.busy - {id},
                outbox :=
                  w.outbox[id := w.outbox[id].(available := w.clock + delay, attempts := w.outbox[id].attempts + 1)],
                events := w.events + [id],
                accounts := w.accounts[id := w.accounts[id].(lost := w.accounts[id].lost + 1)])
    {
      var row, account := backend.outbox[id], backend.accounts[id];
      backend.busy := backend.busy - {id};
      backend.outbox := backend.outbox[id := row.(available := backend.clock + delay, attempts := row.attempts + 1)];
      backend.events := backend.events + [id];
      backend.accounts := backend.accounts[id := account.(lost := account.lost + 1)];
    }

    /** ROLLBACK. */
    method Undo(id: nat)
      requires backend.Valid() && id in backend.busy && id in backend.accounts
      modifies backend`busy, backend`accounts, backend`trace, backend`own
      ensures backend.Valid() && backend.Grew()
      ensures backend.own == old(backend.own) + [RelayRollback(id)]
    {
      if backend.busy[id] {
        backend.accounts :=
          backend.accounts[id := backend.accounts[id].(rollbacks := backend.accounts[id].rollbacks + 1)];
      }
      backend.busy := backend.busy - {id};
      backend.Took(RelayRollback(id));
    }
  }

  lemma {:induction false} FailApplies(w: World, id: nat, delay: nat, lost: bool)
    requires id in w.busy && !w.busy[id] && id in w.outbox && id in w.accounts
    ensures Enabled(w, RelayFail(id, delay, lost))
    ensures Apply(w, RelayFail(id, delay, lost)) == w.(
              busy := w.busy - {id},
              outbox :=
                w.outbox[id := w.outbox[id].(available := w.clock + delay, attempts := w.outbox[id].attempts + 1)],
              events := if lost then w.events + [id] else w.events,
              accounts :=
                if lost then w.accounts[id := w.accounts[id].(lost := w.accounts[id].lost + 1)] else w.accounts)
  {
  }

  lemma {:induction false} ScalesUp(base: nat, a: nat, b: nat)
    requires a <= b
    ensures base * a <= base * b
  {
    assert base * b == base * a + base * (b - a);
  }

  /** The first delay is the configured one, the next ten are each twice the last, and none is above an hour. */
  lemma {:induction false} BackoffDoubles(base: nat, attempts: nat)
    ensures Backoff(base, 0) == if base < 3600 then base else 3600
    ensures attempts < 10 ==>
              Backoff(base, attempts + 1) == if Backoff(base, attempts) < 1800 then 2 * Backoff(base, attempts)
              else 3600
    ensures attempts >= 10 ==> Backoff(base, attempts + 1) == Backoff(base, attempts)
  {
    if attempts < 10 {
      TwiceAsFar(base, Power2(attempts));
    }
  }

  lemma {:induction false} TwiceAsFar(base: nat, n: nat)
    ensures base * (2 * n) == 2 * (base * n)
  {
  }

  /** The backoff is capped, and never shrinks from one attempt to the next. */
  lemma {:induction false} BackoffGrows(base: nat, attempts: nat)
    ensures Backoff(base, attempts) <= Backoff(base, attempts + 1) <= 3600
    ensures attempts >= 10 ==> Backoff(base, attempts) == Backoff(base, 10)
  {
    if attempts < 10 {
      ScalesUp(base, Power2(attempts), Power2(attempts + 1));
    }
  }

  // ------------------------------------------------------- when a row is due

  /** A stored row is due at once, and has had no attempt. */
  lemma {:induction false} StoredIsDue(w: World, l: Letter)
    ensures IsDue(Store(w, l), |w.letters|) && Store(w, l).outbox[|w.letters|].attempts == 0
  {
  }

  /** A failed attempt counts, and the row is due again when its delay is over. */
  lemma {:induction false} FailureDelays(w: World, row: nat, delay: nat, lost: bool, clock: int)
    requires Enabled(w, RelayFail(row, delay, lost)) && w.outbox[row].published.None?
    ensures var v := Apply(w, RelayFail(row, delay, lost));
            && v.outbox[row].attempts == w.outbox[row].attempts + 1
            && (IsDue(v.(clock := clock), row) <==> w.clock + delay <= clock)
  {
  }

  /** A published row is never due again. */
  lemma {:induction false} PublicationEnds(w: World, row: nat, clock: int)
    requires Enabled(w, RelayCommit(row))
    ensures var v := Apply(w, RelayCommit(row));
            && v.outbox[row].attempts == w.outbox[row].attempts + 1 && v.outbox[row].published == Some(w.clock)
            && !IsDue(v.(clock := clock), row)
  {
  }

  /** A row a relay holds was due when it was locked. */
  ghost predicate HeldAreDue(w: World) {
    forall row :: row in w.busy && row in w.outbox ==> w.outbox[row].available <= w.clock
  }

  /** As long as it is there, the row is not available before that time. */
  ghost predicate NotBefore(w: World, row: nat, time: int) {
    row < |w.letters| && (row in w.outbox ==> time <= w.outbox[row].available)
  }

  /** Whatever else a step does to a row that was there, it changes no other time than that of the row that failed. */
  lemma {:induction false} StepKeepsTimes(w: World, s: Step, row: nat)
    requires Enabled(w, s) && row < |w.letters| && row in Apply(w, s).outbox
    ensures row in w.outbox
    ensures Apply(w, s).outbox[row].available == if s.RelayFail? && s.row == row then w.clock + s.delay
            else w.outbox[row].available
  {
    if s.Process? { ProcessKeepsTimes(w, s, row); }
  }

  lemma {:induction false} ProcessKeepsTimes(w: World, s: Step, row: nat)
    requires Settles(w, s) && row < |w.letters| && row in Processed(w, s).outbox
    ensures row in w.outbox && Processed(w, s).outbox[row] == w.outbox[row]
  {
  }

  /** A row a relay has just locked was due; one it held before is still held; one just stored is due. */
  lemma {:induction false} HeldBefore(w: World, s: Step, row: nat)
    requires Enabled(w, s) && row in Apply(w, s).busy && row in Apply(w, s).outbox
    ensures row in w.busy || IsDue(w, row)
    ensures !(s.RelayFail? && s.row == row)
    ensures row >= |w.letters| && row !in w.outbox ==> Apply(w, s).outbox[row].available == w.clock
  {
    if s.Process? { NewRowIsDue(w, s, row); }
  }

  lemma {:induction false} NewRowIsDue(w: World, s: Step, row: nat)
    requires Settles(w, s)
    ensures Processed(w, s).busy == w.busy && Processed(w, s).clock == w.clock
    ensures row !in w.outbox && row in Processed(w, s).outbox ==> Processed(w, s).outbox[row].available == w.clock
  {
  }

  lemma {:induction false} HeldStep(w: World, s: Step)
    requires Enabled(w, s) && MailInv(w) && HeldAreDue(w)
    ensures HeldAreDue(Apply(w, s))
  {
    var v := Apply(w, s);
    StepMonotone(w, s);
    forall row | row in v.busy && row in v.outbox ensures v.outbox[row].available <= v.clock {
      hide Apply, Enabled;
      HeldBefore(w, s, row);
      if row < |w.letters| { StepKeepsTimes(w, s, row); }
    }
  }

  lemma {:induction false} NotBeforeStep(w: World, s: Step, row: nat, time: int)
    requires Enabled(w, s) && MailInv(w) && HeldAreDue(w) && NotBefore(w, row, time)
    ensures NotBefore(Apply(w, s), row, time)
  {
    StepMonotone(w, s);
    if row in Apply(w, s).outbox {
      StepKeepsTimes(w, s, row);
      if s.RelayFail? && s.row == row { assert row in w.busy && row in w.outbox; }
    }
  }

  lemma {:induction false} HeldInRun(trace: seq<World>, n: nat)
    requires Run(trace) && n < |trace|
    ensures HeldAreDue(trace[n])
  {
    hide Apply, Enabled, Inv;
    if n > 0 {
      HeldInRun(trace, n - 1);
      RunKeepsInv(trace, n - 1);
      assert Linked(trace, n);
      var s :| Enabled(trace[n - 1], s) && trace[n] == Apply(trace[n - 1], s);
      HeldStep(trace[n - 1], s);
    }
  }

  lemma {:induction false} NotBeforeInRun(trace: seq<World>, from: nat, n: nat, row: nat, time: int)
    requires Run(trace) && from <= n < |trace| && NotBefore(trace[from], row, time)
    ensures NotBefore(trace[n], row, time)
  {
    hide Apply, Enabled, HeldAreDue, NotBefore;
    if n > from {
      NotBeforeInRun(trace, from, n - 1, row, time);
      HeldInRun(trace, n - 1);
      RunKeepsInv(trace, n - 1);
      assert Linked(trace, n);
      var s :| Enabled(trace[n - 1], s) && trace[n] == Apply(trace[n - 1], s);
      NotBeforeStep(trace[n - 1], s, row, time);
    }
  }

  /**
   * In every run, after a failed attempt no relay takes the row again before its delay is over,
   * whatever others do in between.
   */
  lemma {:induction false} RetryWaits(trace: seq<World>, n: nat, row: nat, delay: nat, lost: bool, later: nat)
    requires Run(trace) && n + 1 <= later < |trace| && Enabled(trace[n], RelayFail(row, delay, lost))
    requires trace[n + 1] == Apply(trace[n], RelayFail(row, delay, lost)) && Enabled(trace[later], RelayLock(row))
    ensures trace[n].clock + delay <= trace[later].clock
  {
    RunKeepsInv(trace, n);
    assert Conserved(trace[n], row);
    NotBeforeInRun(trace, n + 1, later, row, trace[n].clock + delay);
  }
}
