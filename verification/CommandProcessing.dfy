/** src/Commands/CommandProcessor.php: one delivery, from session check to stored result. */
module CommandProcessing {
  import opened Json
  import opened JsonEnvelope
  import opened Options
  import opened Exchanges
  import opened CommandModel
  import opened BridgeState
  import opened BridgeInvariants
  import opened Backends

  /** SessionManager::resolve together with the user check: an oracle. */
  datatype Session = Authorized | Unauthorized | Unavailable

  datatype Outcome = Replied | Threw

  /** A reply to this delivery was stored after the first so many letters. */
  predicate Answered(before: nat, letters: seq<Letter>, c: Command) {
    exists i :: before <= i < |letters| && Answers(letters[i].mail, c)
  }

  lemma {:induction false} ProcessedAnswers(w: World, s: Step)
    requires Settles(w, s)
    ensures Answered(|w.letters|, Processed(w, s).letters, s.c) && w.letters <= Processed(w, s).letters
  {
    if Conflicts(w, s.c) {
    } else if Upserted(w, s.c).result.Some? {
    } else {
    }
    assert Answers(Processed(w, s).letters[|w.letters|].mail, s.c);
  }

  /** A commit only adds to the logs, its answer among them, and leaves the stream alone. */
  lemma {:induction false} CommitGrows(w: World, s: Step)
    requires Settles(w, s)
    ensures var v := Processed(w, s);
            && LogsGrow(w, v) && v.commands == w.commands && v.submitted == w.submitted
            && Answered(|w.letters|, v.letters, s.c)
  {
    ProcessedAnswers(w, s);
    ProcessGrowsLogs(w, s);
    ProcessOffStream(w, s);
  }

  /** Transactions on a receipt that were begun and rolled back. */
  ghost predicate Aborted(steps: seq<Step>, key: ReceiptKey) {
    steps == [] || (|steps| >= 2 && steps[..2] == [Lock(key), Rollback(key)] && Aborted(steps[2..], key))
  }

  lemma {:induction false} AbortedAgain(steps: seq<Step>, key: ReceiptKey)
    requires Aborted(steps, key)
    ensures Aborted(steps + [Lock(key), Rollback(key)], key)
  {
    var more := [Lock(key), Rollback(key)];
    if steps == [] {
      assert more[..2] == more && more[2..] == [];
    } else {
      AbortedAgain(steps[2..], key);
      assert (steps + more)[2..] == steps[2..] + more && (steps + more)[..2] == steps[..2];
    }
  }

  lemma {:induction false} AbortedSteps(steps: seq<Step>, key: ReceiptKey)
    requires Aborted(steps, key)
    ensures forall s :: s in steps ==> s.Lock? || s.Rollback?
  {
    if steps != [] {
      AbortedSteps(steps[2..], key);
      assert steps == steps[..2] + steps[2..];
    }
  }

  lemma {:induction false} TwoSteps(steps: seq<Step>, first: Step, second: Step)
    ensures (steps + [first]) + [second] == steps + [first, second]
  {
  }

  lemma {:induction false} AbortedOnce(own: seq<Step>, aborted: seq<Step>, key: ReceiptKey)
    requires Aborted(aborted, key)
    ensures Aborted(aborted + [Lock(key), Rollback(key)], key)
    ensures (own + aborted) + [Lock(key), Rollback(key)] == own + (aborted + [Lock(key), Rollback(key)])
  {
    AbortedAgain(aborted, key);
  }

  /** The steps of a transaction that commits. */
  function Committing(c: Command, forced: bool, lifetime: Option<int>, handled: Handled): seq<Step>
    requires ValidCommand(c)
  {
    [Lock(KeyOf(c)), Step.Process(c, lifetime, forced, handled)]
  }

  class CommandProcessor {
    const backend: Backend

    constructor (backend: Backend)
      ensures this.backend == backend
    {
      this.backend := backend;
    }

    /**
     * CommandProcessor::process. The session check and the handler are oracles; `db` says whether
     * the database answers, or carries out the last commit and its answer is lost, or is gone
     * before that. Every commit stores a reply; all else is transactions that were rolled back.
     */
    method Process(c: Command, forced: bool, session: Session, lifetime: Option<int>, handled: Handled, db: Exchange)
      returns (outcome: Outcome, ghost aborted: seq<Step>, ghost committed: bool)
      requires backend.Valid() && ValidCommand(c) && WellFormedHandled(handled)
      modifies backend
      ensures backend.Valid() && backend.Grew()
      ensures committed ==> db.Done() && Answered(|old(backend.letters)|, backend.letters, c)
      ensures outcome.Replied? <==> committed && db.Completed?
      ensures session.Unavailable? ==> !committed && backend.own == old(backend.own)
      ensures session.Unauthorized? ==>
                && (committed <==> db.Done())
                && backend.own == old(backend.own) + if committed then [Step.Deny(c)] else []
      ensures session.Authorized? ==>
                && Aborted(aborted, KeyOf(c))
                && backend.own == old(backend.own) + aborted
                   + (if committed then Committing(c, forced, lifetime, handled) else [])
                && (db.Completed? && outcome.Threw? && aborted == [] ==> KeyOf(c) in backend.held)
    {
      outcome, aborted, committed := Threw, [], false;
      assert backend.own == backend.own + aborted + [];
      match session {
        case Unavailable =>
        case Unauthorized =>
          if db.Done() {
            Deny(c);
            committed := true;
            outcome := if db.Completed? then Replied else Threw;
          }
        case Authorized =>
          outcome, aborted, committed := Execute(c, forced, lifetime, handled, db);
      }
    }

    /** The reply to a delivery whose session does not resolve: no receipt is involved. */
    method Deny(c: Command)
      requires backend.Valid()
      modifies backend`letters, backend`accounts, backend`outbox, backend`trace, backend`own
      ensures backend.Valid() && backend.Grew() && backend.own == old(backend.own) + [Step.Deny(c)]
      ensures Answered(|old(backend.letters)|, backend.letters, c)
    {
      backend.Store(Letter(Reply(c, ResultWire(DENIED)), Unauthenticated));
      backend.Took(Step.Deny(c));
      assert Answers(backend.letters[|old(backend.letters)|].mail, c);
    }

    /**
     * transaction(…, 5): a deadlock rolls the attempt back and starts it again; a lock that stays
     * taken gives up, and so does a connection that breaks before the commit.
     */
    method Execute(c: Command, forced: bool, lifetime: Option<int>, handled: Handled, db: Exchange)
      returns (outcome: Outcome, ghost aborted: seq<Step>, ghost committed: bool)
      requires backend.Valid() && ValidCommand(c) && WellFormedHandled(handled)
      modifies backend
      ensures backend.Valid() && backend.Grew() && Aborted(aborted, KeyOf(c))
      ensures committed ==> db.Done() && Answered(|old(backend.letters)|, backend.letters, c)
      ensures outcome.Replied? <==> committed && db.Completed?
      ensures backend.own == old(backend.own) + aborted + if committed then Committing(c, forced, lifetime, handled)
              else []
      // With a database that answers, and without a single attempt, another process holds the receipt.
      ensures db.Completed? && outcome.Threw? && aborted == [] ==> KeyOf(c) in backend.held
    {
      outcome, aborted, committed := Threw, [], false;
      assert backend.own == backend.own + aborted + [];
      for attempt := 0 to 5
        invariant attempt > 0 ==> aborted != []
        invariant backend.Valid() && backend.Grew() && Aborted(aborted, KeyOf(c))
        invariant backend.own == old(backend.own) + aborted && outcome.Threw? && !committed
      {
        var gone: bool, deadlock: bool := *, *;
        if KeyOf(c) in backend.held || (db.NotDone? && gone) {
          break;
        }
        outcome := Attempt(c, forced, lifetime, handled, deadlock || db.NotDone?);
        if outcome.Replied? {
          committed := true;
          outcome := if db.Completed? then Replied else Threw;
          break;
        }
        AbortedOnce(old(backend.own), aborted, KeyOf(c));
        aborted := aborted + [Lock(KeyOf(c)), Rollback(KeyOf(c))];
        if !deadlock {
          break;
        }
      }
    }

    /** Locks the receipt, lets others work, and runs the transaction. */
    method Attempt(c: Command, forced: bool, lifetime: Option<int>, handled: Handled, fails: bool)
      returns (outcome: Outcome)
      requires backend.Valid() && ValidCommand(c) && WellFormedHandled(handled) && KeyOf(c) !in backend.held
      modifies backend
      ensures backend.Valid() && backend.Grew() && (fails ==> outcome.Threw?)
      ensures outcome.Replied? ==> Answered(|old(backend.letters)|, backend.letters, c)
      ensures backend.own == old(backend.own) + if outcome.Replied? then Committing(c, forced, lifetime, handled)
              else [Lock(KeyOf(c)), Rollback(KeyOf(c))]
    {
      var key := KeyOf(c);
      backend.LockReceipt(key);
      backend.PauseHolding(key);
      if fails {
        outcome := Threw;
        backend.RollbackReceipt(key);
      } else {
        outcome := Finish(c, forced, lifetime, handled);
      }
      TwoSteps(old(backend.own), Lock(key),
               if outcome.Replied? then Step.Process(c, lifetime, forced, handled) else Rollback(key));
    }

    /** From the locked receipt to commit or rollback. */
    method Finish(c: Command, forced: bool, lifetime: Option<int>, handled: Handled) returns (outcome: Outcome)
      requires backend.Valid() && ValidCommand(c) && WellFormedHandled(handled) && KeyOf(c) in backend.held
      modifies backend
      ensures backend.Valid() && backend.Grew()
      ensures outcome.Replied? ==> Answered(|old(backend.letters)|, backend.letters, c)
      ensures backend.own ==
                old(backend.own) + [if outcome.Replied? then Step.Process(c, lifetime, forced, handled)
                                    else Rollback(KeyOf(c))]
    {
      hide Processed, Decision, Answered, Upserted, Conflicts, Linked;
      ghost var w := backend.State();
      outcome := Transact(c, forced, lifetime, handled);
      if outcome.Threw? {
        backend.RollbackReceipt(KeyOf(c));
      } else {
        Committed(w, Step.Process(c, lifetime, forced, handled));
      }
    }

    /** The database transaction on a locked receipt: it commits as one step, or leaves everything as it was. */
    method Transact(c: Command, forced: bool, lifetime: Option<int>, handled: Handled) returns (outcome: Outcome)
      requires ValidCommand(c) && WellFormedHandled(handled) && KeyOf(c) in backend.held
      modifies backend`receipts, backend`effects, backend`held, backend`lives, backend`letters, backend`accounts,
               backend`outbox
      ensures var w, s := old(backend.State()), Step.Process(c, lifetime, forced, handled);
              if outcome.Threw? then backend.State() == w && !Conflicts(w, c) && Upserted(w, c).result.None?
              && Decision(w, s).Failed?
              else Enabled(w, s) && backend.State() == Processed(w, s)
    {
      var key, fingerprint := KeyOf(c), FingerprintOf(c);
      var step := BridgeState.Step.Process(c, lifetime, forced, handled);
      // The upsert: a new row, or the one that exists.
      var isNew := key !in backend.receipts;
      var receipt :=
        if isNew then Receipt(fingerprint, c.user, None, backend.clock, backend.lives, backend.lives)
        else backend.receipts[key];
      if receipt.fingerprint != fingerprint || receipt.user != c.user {
        Commit(key, isNew, Letter(Reply(c, ResultWire(CONFLICT)), Conflicting));
      } else if receipt.result.Some? {
        backend.receipts := backend.receipts[key := receipt.(updated := backend.clock)];
        Commit(key, isNew, Letter(Reply(c, Replayed(receipt.result.value)), FromReceipt(receipt.life, fingerprint)));
      } else {
        var decided := Decide(step, receipt, isNew);
        if !decided {
          return Threw;
        }
      }
      outcome := Replied;
    }

    /** A receipt without a result: the savepoint, and the reply to what it decided. */
    method Decide(s: Step, receipt: Receipt, isNew: bool) returns (decided: bool)
      requires s.Process? && ValidCommand(s.c) && KeyOf(s.c) in backend.held
      requires receipt == Upserted(backend.State(), s.c) && (isNew <==> KeyOf(s.c) !in backend.receipts)
      modifies backend`receipts, backend`effects, backend`held, backend`lives, backend`letters, backend`accounts,
               backend`outbox
      ensures decided <==> !Decision(old(backend.State()), s).Failed?
      ensures !decided ==> backend.State() == old(backend.State())
      ensures decided ==>
                var w := old(backend.State());
                var result := ResultWire(Decision(w, s).fields);
                backend.State() == BridgeState.Store(Decided(w, s, result),
                                                     Letter(Reply(s.c, result),
                                                            FromReceipt(receipt.life, FingerprintOf(s.c))))
    {
      var result := Savepoint(s, receipt);
      decided := result.Some?;
      if decided {
        Commit(KeyOf(s.c), isNew, Letter(Reply(s.c, result.value), FromReceipt(receipt.life, FingerprintOf(s.c))));
      }
    }

    ghost method Committed(w: World, s: Step)
      requires Run(backend.trace) && backend.trace[|backend.trace| - 1] == w
      requires s.Process? && Enabled(w, s) && backend.State() == Processed(w, s)
      modifies backend`trace, backend`own
      ensures backend.Valid() && old(backend.trace) <= backend.trace && backend.State() == Processed(w, s)
              && backend.own == old(backend.own) + [s]
      ensures w.letters <= backend.letters && w.dead <= backend.dead && w.submitted <= backend.submitted
              && backend.commands == w.commands
      ensures Answered(|w.letters|, backend.letters, s.c)
    {
      CommitGrows(w, s);
      assert Apply(w, s) == Processed(w, s);
      backend.Took(s);
    }

    /** The savepoint around the handler, and the receipt update after it. None is an exception that passes through. */
    method Savepoint(s: Step, receipt: Receipt) returns (result: Option<Wire>)
      requires s.Process? && KeyOf(s.c) in backend.held
      modifies backend`receipts, backend`effects
      ensures result.None? <==> Decision(old(backend.State()), s).Failed?
      ensures result.None? ==> backend.State() == old(backend.State())
      ensures result.Some? ==>
                var w, d := old(backend.State()), Decision(old(backend.State()), s);
                && result.value == ResultWire(d.fields)
                && backend.State() == w.(
                     receipts := w.receipts[KeyOf(s.c) := receipt.(result := result, updated := w.clock)],
                     effects :=
                       if d.Effective? then w.effects
                       + [Effect(KeyOf(s.c), CreatedAt(s.c), w.held[KeyOf(s.c)], receipt.generation, result.value)]
                       else w.effects)
    {
      var key := KeyOf(s.c);
      var attempt := Handle(s.c, backend.held[key], backend.retention, s.lifetime, s.forced, s.handled);
      if attempt.Failed? {
        return None;
      }
      result := Some(ResultWire(attempt.fields));
      if attempt.Effective? {
        backend.effects :=
          backend.effects + [Effect(key, CreatedAt(s.c), backend.held[key], receipt.generation, result.value)];
      }
      backend.receipts := backend.receipts[key := receipt.(result := result, updated := backend.clock)];
    }

    /** The end of the transaction: the reply is stored and the receipt row released. */
    method Commit(key: ReceiptKey, isNew: bool, letter: Letter)
      modifies backend`held, backend`lives, backend`letters, backend`accounts, backend`outbox
      ensures var w := old(backend.State());
              backend.State() == BridgeState.Store(w.(held := w.held - {key},
                                                      lives := if isNew then w.lives + 1 else w.lives), letter)
    {
      backend.Store(letter);
      if isNew {
        backend.lives := backend.lives + 1;
      }
      backend.held := backend.held - {key};
    }
  }
}
