/** gateway/src/runtime.ts: processEntry, withPublications and dispatch, with other gateways at work in between. */
module EntryProcessing {
  import opened Exchanges
  import opened RedisStream
  import opened EventEntries

  /** What one call came to; Stopped and Unreachable are the early return and an exception that leaves the call. */
  datatype Outcome = Delivered | DeadLettered | LeftPending | Unreachable | Stopped

  /**
   * What Redis and the other gateways bring during one call: what becomes of counting the attempt
   * (INCR, and EXPIRE after it), whether the connections are ready, what the dispatch came to, and
   * what becomes of the acknowledgement, of the counter's removal, and of the burial.
   */
  datatype Oracle = Oracle(counted: Exchange, ready: bool, evidence: Evidence, acked: Exchange, cleared: Exchange,
                           buried: Exchange) {
    /** The entry is dispatched everywhere, and its acknowledgement and the counter's removal are answered. */
    predicate Succeeds() { ready && Complete(evidence) && acked.Completed? && cleared.Completed? }
  }

  /**
   * Connections are ready, the dispatch here, every other gateway's reply and every tracked
   * publication succeeded, and so did the acknowledgement and the counter's removal.
   */
  predicate Answered(o: Oracle) {
    && o.ready && o.evidence.local && (forall i :: 0 <= i < |o.evidence.replies| ==> o.evidence.replies[i])
    && (forall i :: 0 <= i < |o.evidence.publications| ==> o.evidence.publications[i])
    && o.acked.Completed? && o.cleared.Completed?
  }

  class EventConsumer {
    var redis: World
    var stopping: bool
    ghost var own: seq<Step>   // what this gateway did

    ghost predicate Valid()
      reads `redis
    {
      Safe(redis) && GROUP in redis.events.groups
    }

    /** The gateway creates its group before it reads; the stream may hold entries by then. */
    constructor (maxAttempts: nat, events: Stream<Raw>)
      requires events.Valid() && events.groups == map[]
      ensures Valid() && own == []
    {
      ghost var start := Start(maxAttempts, events);
      redis, stopping, own := Apply(Start(maxAttempts, events), AddGroup(GROUP)), false, [];
      StartSafe(start);
      StepSafe(start, AddGroup(GROUP));
    }

    /** A step of this gateway. */
    method Take(s: Step)
      requires Valid() && Enabled(redis, s)
      modifies `redis, `own
      ensures Valid() && redis == Apply(old(redis), s) && own == old(own) + [s] && Grows(old(redis), redis)
    {
      StepSafe(redis, s);
      StepGrows(redis, s);
      redis, own := Apply(redis, s), own + [s];
    }

    /** Any number of steps by others. */
    method Others()
      requires Valid()
      modifies `redis
      ensures Valid() && Grows(old(redis), redis)
    {
      var more: bool := *;
      var rounds := 0;
      var limit: int := *;
      while rounds < limit && more
        invariant Valid() && Grows(old(redis), redis)
      {
        var s: Step := *;
        if Enabled(redis, s) {
          GrowsOn(old(redis), redis, s);
          StepSafe(redis, s);
          redis := Apply(redis, s);
        }
        more := *;
        rounds := rounds + 1;
      }
    }

    /** dispatch inside withPublications: here first, then every other gateway, then all tracked publications. */
    method Dispatch(o: Oracle) returns (ok: bool)
      requires Valid()
      modifies `redis
      ensures Valid() && Grows(old(redis), redis)
      ensures ok <==> o.ready && Complete(o.evidence)
    {
      Others();
      ok := false;
      if !o.ready || !o.evidence.local {
        return;
      }
      Others();
      if exists i :: 0 <= i < |o.evidence.replies| && !o.evidence.replies[i] {
        return;
      }
      Others();
      ok := forall i :: 0 <= i < |o.evidence.publications| ==> o.evidence.publications[i];
    }

    /** The acknowledgement, and the counter's removal. Either call may fail, before or after Redis acted. */
    method Settle(id: nat, o: Oracle) returns (ok: bool, ghost taken: seq<Step>)
      requires Valid() && id in redis.done
      modifies `redis, `own
      ensures Valid() && Grows(old(redis), redis) && own == old(own) + taken
      ensures ok <==> o.acked.Completed? && o.cleared.Completed?
      ensures taken == if !o.acked.Done() then []
                       else if o.acked.Completed? && o.cleared.Done() then [Acknowledge(GROUP, id), Clear(id)]
                       else [Acknowledge(GROUP, id)]
    {
      ok, taken := false, [];
      assert own == own + taken;
      if o.acked.Done() {
        Take(Acknowledge(GROUP, id));
        taken := [Acknowledge(GROUP, id)];
        if o.acked.Completed? && o.cleared.Done() {
          Take(Clear(id));
          ok, taken := o.cleared.Completed?, [Acknowledge(GROUP, id), Clear(id)];
        }
      }
    }

    /**
     * processEntry; what this gateway did about the entry is one attempt and then `taken`. It is
     * acknowledged on complete evidence; else it is buried, copy and acknowledgement in one step,
     * if it is unusable or this was the last attempt; else it waits for the next claim.
     */
    method ProcessEntry(e: Entry<Raw>, o: Oracle)
      returns (outcome: Outcome, ghost attempts: nat, ghost taken: seq<Step>)
      requires Valid() && e in redis.submitted
      modifies `redis, `own
      ensures Valid() && Grows(old(redis), redis)
      ensures stopping ==> outcome.Stopped? && own == old(own)
      // The counter may have been raised although the call failed.
      ensures !stopping && !o.counted.Completed? ==>
                outcome.Unreachable? && taken == [] && own == old(own) + if o.counted.Done() then [Attempt(e.id)]
                  else []
      ensures !stopping && o.counted.Completed? ==>
                && own == old(own) + [Attempt(e.id)] + taken && attempts > 0 && Proper(taken, e, attempts, redis)
                && (outcome.Delivered? <==> !e.body.Malformed? && Answered(o))
                && (outcome.LeftPending? <==> !e.body.Malformed? && !Answered(o) && attempts < redis.maxAttempts)
                && (outcome.DeadLettered? || outcome.Unreachable? <==>
                    e.body.Malformed? || (!Answered(o) && redis.maxAttempts <= attempts))
                // At the last attempt the copy is made unless the script does not reach Redis.
                && (outcome.DeadLettered? ==> o.buried.Completed?) && (outcome.Unreachable? ==> !o.buried.Completed?)
                && (outcome.DeadLettered? || outcome.Unreachable? ==>
                    (Bury(e, attempts) in taken <==> o.buried.Done()))
      ensures outcome.Delivered? ==> taken == [Vouch(e.id, o.evidence), Acknowledge(GROUP, e.id), Clear(e.id)]
      ensures outcome.DeadLettered? ==> Bury(e, attempts) in taken && Buried(redis, e)
    {
      attempts, taken := 0, [];
      if stopping {
        return Stopped, 0, [];
      }
      Others();
      if !o.counted.Completed? {
        if o.counted.Done() {
          Uncounted(e.id);
        }
        return Unreachable, 0, [];
      }
      outcome, attempts, taken := Try(e, o);
    }

    /** The counter is raised, and the call fails before its value arrives. */
    method Uncounted(id: nat)
      requires Valid()
      modifies `redis, `own
      ensures Valid() && Grows(old(redis), redis) && own == old(own) + [Attempt(id)]
    {
      Take(Attempt(id));
    }

    /** One counted attempt. */
    method Try(e: Entry<Raw>, o: Oracle) returns (outcome: Outcome, ghost attempts: nat, ghost taken: seq<Step>)
      requires Valid() && e in redis.submitted
      modifies `redis, `own
      ensures Valid() && Grows(old(redis), redis)
      ensures own == old(own) + [Attempt(e.id)] + taken && attempts > 0
      ensures outcome == Verdict(e, o, attempts, redis.maxAttempts) && Proper(taken, e, attempts, redis)
      ensures outcome.Delivered? ==> taken == [Vouch(e.id, o.evidence), Acknowledge(GROUP, e.id), Clear(e.id)]
      ensures outcome.DeadLettered? ==> Bury(e, attempts) in taken && Buried(redis, e)
      ensures outcome.DeadLettered? || outcome.Unreachable? ==> (Bury(e, attempts) in taken <==> o.buried.Done())
    {
      ghost var before := redis;
      var count := Counting(e.id);
      ghost var counted := redis;
      attempts := count;
      outcome, taken := Handle(e, count, o);
      GrowsTwice(before, counted, redis);
    }

    /** INCR of the attempt counter. */
    method Counting(id: nat) returns (count: nat)
      requires Valid()
      modifies `redis, `own
      ensures Valid() && Grows(old(redis), redis) && own == old(own) + [Attempt(id)]
      ensures 0 < count <= Tries(redis, id) && id in redis.tries
    {
      Take(Attempt(id));
      count := Count(redis, id);
    }

    /** From the attempt count to the outcome. */
    method Handle(e: Entry<Raw>, count: nat, o: Oracle) returns (outcome: Outcome, ghost taken: seq<Step>)
      requires Valid() && e in redis.submitted && count <= Tries(redis, e.id) && e.id in redis.tries
      modifies `redis, `own
      ensures Valid() && Grows(old(redis), redis) && own == old(own) + taken && Proper(taken, e, count, redis)
      ensures outcome == Verdict(e, o, count, redis.maxAttempts)
      ensures outcome.Delivered? ==> taken == [Vouch(e.id, o.evidence), Acknowledge(GROUP, e.id), Clear(e.id)]
      ensures outcome.DeadLettered? ==> Bury(e, count) in taken && Buried(redis, e)
      ensures outcome.DeadLettered? || outcome.Unreachable? ==> (Bury(e, count) in taken <==> o.buried.Done())
    {
      var done := false;
      taken := [];
      assert own == own + taken;
      if !e.body.Malformed? {
        done, taken := Deliver(e, o);
      }
      if done {
        outcome := Delivered;
      } else if e.body.Malformed? || count >= redis.maxAttempts {
        ghost var more;
        ghost var before := taken;
        outcome, more := DeadLetter(e, count, o);
        taken := taken + more;
        ProperBoth(before, more, e, count, redis);
      } else {
        outcome := LeftPending;
      }
    }

    /** The try block after parsing. */
    method Deliver(e: Entry<Raw>, o: Oracle) returns (done: bool, ghost taken: seq<Step>)
      requires Valid() && !e.body.Malformed?
      modifies `redis, `own
      ensures Valid() && Grows(old(redis), redis) && own == old(own) + taken
      ensures done <==> o.Succeeds()
      ensures done ==> taken == [Vouch(e.id, o.evidence), Acknowledge(GROUP, e.id), Clear(e.id)]
      ensures forall s ::
                s in taken ==>
                  !s.Bury? && (s.Acknowledge? ==> s.id == e.id && e.id in redis.done && Complete(redis.done[e.id]))
    {
      var ok := Dispatch(o);
      done, taken := false, [];
      assert own == own + taken;
      if ok {
        done, taken := Confirm(e.id, o);
      }
    }

    /** After a complete dispatch. */
    method Confirm(id: nat, o: Oracle) returns (done: bool, ghost taken: seq<Step>)
      requires Valid() && Complete(o.evidence)
      modifies `redis, `own
      ensures Valid() && Grows(old(redis), redis) && own == old(own) + taken
      ensures done <==> o.acked.Completed? && o.cleared.Completed?
      ensures done ==> taken == [Vouch(id, o.evidence), Acknowledge(GROUP, id), Clear(id)]
      ensures forall s ::
                s in taken ==>
                  !s.Bury? && (s.Acknowledge? ==> s.id == id && id in redis.done && Complete(redis.done[id]))
    {
      Take(Vouch(id, o.evidence));
      Others();
      ghost var rest;
      done, rest := Settle(id, o);
      taken := [Vouch(id, o.evidence)] + rest;
    }

    /** ACK_FAILED. */
    method DeadLetter(e: Entry<Raw>, attempts: nat, o: Oracle) returns (outcome: Outcome, ghost taken: seq<Step>)
      requires Valid() && e in redis.submitted && attempts <= Tries(redis, e.id)
               && (e.body.Malformed? || redis.maxAttempts <= attempts)
      modifies `redis, `own
      ensures Valid() && Grows(old(redis), redis) && own == old(own) + taken
      ensures taken == if o.buried.Done() then [Bury(e, attempts)] else []
      ensures outcome == if o.buried.Completed? then DeadLettered else Unreachable
      ensures o.buried.Done() ==> Buried(redis, e)
    {
      taken := [];
      assert own == own + taken;
      if !o.buried.Done() {
        return Unreachable, [];
      }
      Take(Bury(e, attempts));
      taken := [Bury(e, attempts)];
      assert redis.dead[|redis.dead| - 1] == Copy(e.id, e.body, attempts);
      outcome := if o.buried.Completed? then DeadLettered else Unreachable;
    }
  }

  /** How the call must end. */
  function Verdict(e: Entry<Raw>, o: Oracle, attempts: nat, maxAttempts: nat): Outcome {
    if !e.body.Malformed? && o.Succeeds() then Delivered
    else if e.body.Malformed? || maxAttempts <= attempts then if o.buried.Completed? then DeadLettered else Unreachable
    else LeftPending
  }

  /** Acknowledgements rest on complete evidence, burials on a terminal error or the last attempt. */
  ghost predicate Proper(taken: seq<Step>, e: Entry<Raw>, attempts: nat, w: World) {
    && (forall s :: s in taken && s.Acknowledge? ==>
        s.id == e.id && e.id in w.done && Complete(w.done[e.id]) && !e.body.Malformed?)
    && forall s :: s in taken && s.Bury? ==> s == Bury(e, attempts) && (e.body.Malformed? || w.maxAttempts <= attempts)
  }

  lemma {:induction false} ProperBoth(a: seq<Step>, b: seq<Step>, e: Entry<Raw>, attempts: nat, w: World)
    requires Safe(w) && (forall s :: s in a && s.Acknowledge? ==> s.id == e.id && e.id in w.done && !e.body.Malformed?)
             && (forall s :: s in a ==> !s.Bury?)
    requires b == [] || (b == [Bury(e, attempts)] && (e.body.Malformed? || w.maxAttempts <= attempts))
    ensures Proper(a + b, e, attempts, w)
  {
  }

  lemma {:induction false} GrowsTwice(u: World, v: World, w: World)
    requires Grows(u, v) && Grows(v, w)
    ensures Grows(u, w)
  {
    forall id | id in u.tries ensures Tries(u, id) <= Tries(w, id) {
      if id in v.tries { assert Tries(v, id) <= Tries(w, id); }
    }
  }

  lemma {:induction false} GrowsOn(u: World, w: World, s: Step)
    requires Grows(u, w) && Enabled(w, s)
    ensures Grows(u, Apply(w, s))
  {
    StepGrows(w, s);
    var v := Apply(w, s);
    forall id | id in u.tries ensures Tries(u, id) <= Tries(v, id) {
      if id in w.tries { assert Tries(w, id) <= Tries(v, id); }
    }
  }
}
