/** src/Operations/FailedMessages.php: operator replay of a dead-lettered command. */
module FailedReplaying {
  import opened Options
  import opened Exchanges
  import opened RedisStream
  import opened CommandModel
  import opened BridgeState
  import opened CommandDecisions
  import opened Backends

  /** AlreadyReplayed and Replayed are results; Threw stands for every exception. */
  datatype Replay = AlreadyReplayed(stream: nat) | Replayed(stream: nat) | Threw

  /** How far a replay got: the transient failure released, the command appended, the marker set. */
  datatype Progress = Untouched | Freed | Appended(stream: nat) | Marked(stream: nat) {
    predicate Sent() { Appended? || Marked? }
  }

  /**
   * What one replay meets: the SET of the lock, the reads of marker and copy, the session check,
   * the transaction that releases, the append, the SET of the marker, and the script that gives
   * the lock back.
   */
  datatype Conditions = Conditions(locked: Exchange, looked: bool, authorized: bool, released: Exchange,
                                   appended: Exchange, marked: Exchange, unlocked: Exchange) {
    /** The lock is set, and stays until it expires. */
    predicate LeavesLock() { locked.AnswerLost? || (locked.Completed? && unlocked.NotDone?) }
  }

  /** The states a replay decided on: when it looked at the entry, and when it looked at the receipt. */
  datatype View = View(seen: World, met: World) {
    ghost predicate Of(trace: seq<World>) { seen in trace && met in trace }
  }

  /** The checks on the original command: inside the deduplication window, and not expired. */
  predicate MayReplay(c: Command, now: int, retention: nat) {
    && c.created.Some? && now - retention <= c.created.value <= now + TOLERANCE
    && (c.expires.NoExpiry? || (c.expires.At? && now < c.expires.t))
  }

  /**
   * Those are the commands whose handler the processor would reach at this moment, but for a
   * lifetime of their own: created_at inside the window on both sides, expires_at absent or to come.
   */
  lemma {:induction false} MayReplayIffReached(c: Command, now: int, retention: nat)
    ensures MayReplay(c, now, retention) <==>
              && c.created.Some? && c.created.value <= now + 60 && now <= c.created.value + retention
              && !c.expires.Unreadable? && (c.expires.At? ==> now < c.expires.t)
    ensures MayReplay(c, now, retention) <==> Reached(c, now, retention, None, false)
  {
  }

  /** The buried command may be replayed now. */
  predicate Acceptable(w: World, id: nat) {
    id < |w.dead| && Processable(w.dead[id].body) && MayReplay(w.dead[id].body.c, w.clock, w.retention)
  }

  /** Its receipt holds a stored transient failure. */
  predicate Releasable(w: World, key: ReceiptKey) {
    key in w.receipts && w.receipts[key].result.Some? && IsTransient(w.receipts[key].result.value)
  }

  /** Another process holds the receipt, or one of the rows to take back. */
  predicate Blocked(w: World, key: ReceiptKey) {
    key in w.held || (Releasable(w, key) && exists row :: row in Released(w, key) && row in w.busy)
  }

  /** The command passes the checks, and the transaction that releases is carried out. */
  predicate Proceeds(v: View, id: nat, k: Conditions) {
    && k.looked && k.authorized && Acceptable(v.seen, id)
    && !Blocked(v.met, KeyOf(v.seen.dead[id].body.c)) && k.released.Done()
  }

  /** How far a replay must get that finds no marker. */
  predicate Reaches(v: View, id: nat, k: Conditions, p: Progress) {
    if !Proceeds(v, id, k) then p.Untouched?
    else if !k.released.Completed? || k.appended.NotDone? then p.Freed?
    else if !k.appended.Completed? || k.marked.NotDone? then p.Appended?
    else p.Marked?
  }

  /** The steps a replay has taken by then: at most one release, and one append of the very body that was buried. */
  function Taken(v: View, id: nat, p: Progress): seq<Step>
    requires p.Untouched? || Acceptable(v.seen, id)
  {
    if p.Untouched? then []
    else
      var body := v.seen.dead[id].body;
      (if Releasable(v.met, KeyOf(body.c)) then [Release(KeyOf(body.c))] else []) + if p.Sent()
        then [Submit(p.stream, body)] else []
  }

  /** How far a replay must get after its checks, and its steps. */
  predicate Resent(met: World, body: Body, k: Conditions, p: Progress, taken: seq<Step>)
    requires Processable(body)
  {
    var key := KeyOf(body.c);
    && (if Blocked(met, key) || !k.released.Done() then p.Untouched?
        else if !k.released.Completed? || k.appended.NotDone? then p.Freed?
        else if !k.appended.Completed? || k.marked.NotDone? then p.Appended?
        else p.Marked?)
    && taken == if p.Untouched? then []
                else
                  (if Releasable(met, key) then [Release(key)] else [])
                  + if p.Sent() then [Submit(p.stream, body)] else []
  }

  /** What the body of the try block comes to. */
  function Within(markers: map<nat, nat>, id: nat, k: Conditions, p: Progress): Replay {
    if id in markers then if k.looked then AlreadyReplayed(markers[id]) else Threw
    else if p.Marked? && k.marked.Completed? then Replayed(p.stream) else Threw
  }

  /** One replay under its lock: with a marker nothing is done, and without one it gets as far as it must. */
  ghost predicate Took(v: View, id: nat, k: Conditions, marked: bool, p: Progress, taken: seq<Step>) {
    && (if marked then p.Untouched? else Reaches(v, id, k, p))
    && (p.Untouched? || Acceptable(v.seen, id)) && taken == Taken(v, id, p)
  }

  /**
   * A replay appends if and only if it finds no marker, the checks pass, nothing it has to release is
   * locked, and database and stream act; and what it appends is the body that was buried, once.
   */
  lemma {:induction false} AppendsIff(v: View, id: nat, k: Conditions, marked: bool, p: Progress, taken: seq<Step>)
    requires Took(v, id, k, marked, p, taken)
    ensures (exists s :: s in taken && s.Submit?) <==>
              && !marked && k.looked && k.authorized && id < |v.seen.dead| && Processable(v.seen.dead[id].body)
              && var c, now := v.seen.dead[id].body.c, v.seen.clock;
                 && c.created.Some? && c.created.value <= now + 60 && now <= c.created.value + v.seen.retention
                 && !c.expires.Unreadable? && (c.expires.At? ==> now < c.expires.t)
                 && !Blocked(v.met, KeyOf(c)) && k.released.Completed? && k.appended.Done()
    ensures forall i, j :: 0 <= i < j < |taken| ==> taken[i].Release? && taken[j].Submit?
    ensures forall s :: s in taken && s.Submit? ==> id < |v.seen.dead| && s.body == v.seen.dead[id].body
  {
    if p.Sent() {
      assert taken[|taken| - 1] == Submit(p.stream, v.seen.dead[id].body);
    }
  }

  lemma {:induction false} FailureIsReleasable(trace: seq<World>, n: nat, key: ReceiptKey)
    requires Run(trace) && n < |trace|
    ensures Releasable(trace[n], key) <==>
              key in trace[n].receipts && trace[n].receipts[key].result.Some?
              && IsFailure(trace[n].receipts[key].result.value)
  {
    ResultsAreTexts(trace, n);
    if key in trace[n].receipts && trace[n].receipts[key].result.Some? {
      assert ResultAt(trace[n], key);
      TransientIffFailure(trace[n].receipts[key].result.value);
    }
  }

  class FailedMessages {
    const backend: Backend
    var markers: map<nat, nat>   // replayed:commands:<id>
    var locks: map<nat, nat>     // its lock, by the token of the holder

    constructor (backend: Backend)
      ensures this.backend == backend && markers == map[] && locks == map[]
    {
      this.backend, markers, locks := backend, map[], map[];
    }

    /** FailedMessages::replay. The token is random. */
    method Replay(id: nat, token: nat, k: Conditions)
      returns (outcome: Replay, progress: Progress, ghost view: View, ghost taken: seq<Step>)
      requires backend.Valid()
      modifies this, backend
      ensures backend.Valid() && backend.Grew() && view.Of(backend.trace) && backend.own == old(backend.own) + taken
      ensures markers == if progress.Marked? then old(markers)[id := progress.stream] else old(markers)
      ensures locks == if old(id in locks) || !k.LeavesLock() then old(locks) else old(locks)[id := token]
      ensures old(id in locks) || !k.locked.Completed? ==> outcome.Threw? && progress.Untouched? && taken == []
      ensures !old(id in locks) && k.locked.Completed? ==>
                && Took(view, id, k, old(id in markers), progress, taken)
                && outcome == if k.unlocked.Completed? then Within(old(markers), id, k, progress) else Threw
      // It reports a replay exactly if it set the marker and was told so, an earlier one if it read its marker.
      ensures outcome.Replayed? <==>
                !old(id in locks) && k.locked.Completed? && progress.Marked? && k.marked.Completed?
                && k.unlocked.Completed?
      ensures outcome.AlreadyReplayed? <==>
                !old(id in locks) && k.locked.Completed? && k.looked && old(id in markers) && k.unlocked.Completed?
      ensures outcome.Replayed? ==> outcome.stream == progress.stream
      ensures outcome.AlreadyReplayed? ==> outcome.stream == old(markers)[id] && progress.Untouched? && taken == []
    {
      progress, view, taken := Untouched, View(backend.State(), backend.State()), [];
      assert backend.own == backend.own + taken;
      if id in locks || k.locked.NotDone? {
        return Threw, progress, view, taken;
      }
      locks := locks[id := token];
      if k.locked.AnswerLost? {
        return Threw, progress, view, taken;   // outside the try block: the lock stays
      }
      outcome, progress, view, taken := UnderLock(id, k);
      // Another operator may have taken the lock over after it expired.
      if k.unlocked.Done() && id in locks && locks[id] == token {
        locks := locks - {id};
      }
      if !k.unlocked.Completed? {
        outcome := Threw;
      }
    }

    /** The body of the try block. */
    method UnderLock(id: nat, k: Conditions)
      returns (outcome: Replay, progress: Progress, ghost view: View, ghost taken: seq<Step>)
      requires backend.Valid()
      modifies this`markers, backend
      ensures backend.Valid() && backend.Grew() && view.Of(backend.trace) && backend.own == old(backend.own) + taken
      ensures Took(view, id, k, old(id in markers), progress, taken)
      ensures outcome == Within(old(markers), id, k, progress)
      ensures markers == if progress.Marked? then old(markers)[id := progress.stream] else old(markers)
    {
      backend.Pause();
      outcome, progress, view, taken := Threw, Untouched, View(backend.State(), backend.State()), [];
      assert backend.own == backend.own + taken && view.seen in backend.trace;
      if !k.looked {
        return;
      }
      if id in markers {
        outcome := AlreadyReplayed(markers[id]);
        return;
      }
      var body := Original(id);
      if k.authorized && body.Some? {
        ghost var met;
        outcome, progress, met, taken := Proceed(id, body.value, k);
        view := View(view.seen, met);
      }
    }

    /** The buried command, if it is well-formed and may be replayed now. */
    method Original(id: nat) returns (body: Option<Body>)
      ensures body == if Acceptable(backend.State(), id) then Some(backend.dead[id].body) else None
    {
      if id >= |backend.dead| || !Processable(backend.dead[id].body) {
        return None;
      }
      var c := backend.dead[id].body.c;
      body := if MayReplay(c, backend.clock, backend.retention) then Some(backend.dead[id].body) else None;
    }

    /** The command passed the checks: release, append and marker. */
    method Proceed(id: nat, body: Body, k: Conditions)
      returns (outcome: Replay, progress: Progress, ghost met: World, ghost taken: seq<Step>)
      requires backend.Valid() && Processable(body)
      modifies this`markers, backend
      ensures backend.Valid() && backend.Grew() && met in backend.trace && backend.own == old(backend.own) + taken
      ensures Resent(met, body, k, progress, taken)
      ensures outcome == if progress.Marked? && k.marked.Completed? then Replayed(progress.stream) else Threw
      ensures markers == if progress.Marked? then old(markers)[id := progress.stream] else old(markers)
    {
      backend.Pause();
      met, outcome := backend.State(), Threw;
      progress, taken := Resend(body, k);
      if progress.Appended? && k.appended.Completed? && k.marked.Done() {
        markers, progress := markers[id := progress.stream], Marked(progress.stream);
        outcome := if k.marked.Completed? then Replayed(progress.stream) else Threw;
      }
    }

    /** The release and the append. */
    method Resend(body: Body, k: Conditions) returns (progress: Progress, ghost taken: seq<Step>)
      requires backend.Valid() && Processable(body)
      modifies backend
      ensures backend.Valid() && backend.Grew() && backend.own == old(backend.own) + taken
      ensures var w, key := old(backend.State()), KeyOf(body.c);
              var goes := !Blocked(w, key) && k.released.Done();
              && (progress.Untouched? <==> !goes) && !progress.Marked?
              && (progress.Appended? <==> goes && k.released.Completed? && k.appended.Done())
              && taken == (if goes && Releasable(w, key) then [Release(key)] else [])
                          + if progress.Appended? then [Submit(progress.stream, body)] else []
    {
      progress, taken := Untouched, [];
      assert backend.own == backend.own + taken;
      var released, committed := ReleaseTransientFailure(KeyOf(body.c), k.released);
      if committed {
        progress, taken := Freed, if released then [Release(KeyOf(body.c))] else [];
        assert backend.own == old(backend.own) + taken;
        if k.released.Completed? && k.appended.Done() {
          var stream := Send(body);
          progress, taken := Appended(stream), taken + [Submit(stream, body)];
        }
      }
    }

    /** Whatever others do until the append, and the append. */
    method Send(body: Body) returns (stream: nat)
      requires backend.Valid()
      modifies backend
      ensures backend.Valid() && backend.Grew() && backend.own == old(backend.own) + [Submit(stream, body)]
    {
      backend.Pause();
      stream := Append(body);
    }

    /** XADD of the original envelope, under an id above every earlier one. */
    method Append(body: Body) returns (stream: nat)
      requires backend.Valid()
      modifies backend`commands, backend`submitted, backend`trace, backend`own
      ensures backend.Valid() && backend.Grew() && backend.own == old(backend.own) + [Submit(stream, body)]
    {
      stream := backend.commands.top + 1;
      backend.commands := RedisStream.Append(backend.commands, stream, body);
      backend.submitted := backend.submitted + [Entry(stream, body)];
      backend.Took(Submit(stream, body));
    }

    /** Clears a stored transient failure and takes its unpublished results back; anything else stays. */
    method ReleaseTransientFailure(key: ReceiptKey, db: Exchange) returns (released: bool, committed: bool)
      requires backend.Valid()
      modifies backend`receipts, backend`lives, backend`outbox, backend`accounts, backend`trace, backend`own
      ensures backend.Valid() && backend.Grew()
      ensures committed <==> !Blocked(old(backend.State()), key) && db.Done()
      ensures released <==> committed && Releasable(old(backend.State()), key)
      // What is released is a stored failure with the code command.failed, and its waiting results go with it.
      ensures released <==>
                committed && key in old(backend.receipts) && old(backend.receipts)[key].result.Some?
                && IsFailure(old(backend.receipts)[key].result.value)
      ensures released ==>
                forall row: nat :: row in old(backend.outbox) ==>
                  (row in backend.outbox <==> !ReportsFailure(old(backend.State()), row, key))
      ensures released ==>
                backend.own == old(backend.own) + [Release(key)] && key in backend.receipts
                && backend.receipts[key].result.None?
      ensures !released ==>
                backend.own == old(backend.own) && backend.receipts == old(backend.receipts)
                && backend.outbox == old(backend.outbox)
    {
      ReleasesExactly(backend.trace, |backend.trace| - 1, key);
      FailureIsReleasable(backend.trace, |backend.trace| - 1, key);
      if key in backend.held || db.NotDone? {
        return false, false;   // the lock wait gives up, or the connection breaks
      }
      if key !in backend.receipts || backend.receipts[key].result.None?
        || !IsTransient(backend.receipts[key].result.value) {
        return false, true;
      }
      var gone := Released(backend.State(), key);
      if exists row :: row in gone && row in backend.busy {
        return false, false;   // a relay holds one of the rows
      }
      Commit(key, gone);
      return true, true;
    }

    /** The delete and the update, committed together. */
    method Commit(key: ReceiptKey, gone: set<nat>)
      requires backend.Valid() && Enabled(backend.State(), Release(key)) && gone == Released(backend.State(), key)
      modifies backend`receipts, backend`lives, backend`outbox, backend`accounts, backend`trace, backend`own
      ensures backend.Valid() && backend.Grew() && backend.own == old(backend.own) + [Release(key)]
      ensures key in backend.receipts && backend.receipts[key].result.None?
      ensures backend.outbox == old(backend.outbox) - gone
    {
      ReleaseApplies(backend.State(), key);
      Clear(key, gone);
      backend.Took(Release(key));
    }

    method Clear(key: ReceiptKey, gone: set<nat>)
      requires key in backend.receipts
      modifies backend`receipts, backend`lives, backend`outbox, backend`accounts
      ensures var w := old(backend.State());
              backend.State() == w.(
                receipts := w.receipts[key := w.receipts[key].(result := None, updated := w.clock, life := w.lives)],
                lives := w.lives + 1,
                outbox := w.outbox - gone,
                accounts := MarkReleased(w.accounts, gone))
    {
      backend.outbox := backend.outbox - gone;
      backend.accounts := MarkReleased(backend.accounts, gone);
      backend.receipts :=
        backend.receipts[key :=
          backend.receipts[key].(result := None, updated := backend.clock, life := backend.lives)];
      backend.lives := backend.lives + 1;
    }
  }

  lemma {:induction false} ReleaseApplies(w: World, key: ReceiptKey)
    requires Enabled(w, Release(key))
    ensures var gone := Released(w, key);
            Apply(w, Release(key)) == w.(
              receipts := w.receipts[key := w.receipts[key].(result := None, updated := w.clock, life := w.lives)],
              lives := w.lives + 1,
              outbox := w.outbox - gone,
              accounts := MarkReleased(w.accounts, gone))
  {
  }
}
