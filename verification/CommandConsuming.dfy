/** src/Transport/RedisStreams.php and src/Commands/CommandConsumer.php: reading, answering, acknowledging. */
module CommandConsuming {
  import opened Options
  import opened Exchanges
  import opened RedisStream
  import opened StreamRetention
  import opened CommandModel
  import opened BridgeState
  import opened BridgeInvariants
  import opened BridgeTheorems
  import opened Backends
  import opened CommandProcessing

  lemma {:induction false} SubmittedOnce(w: World, e: Entry<Body>)
    requires SubmittedInv(w) && e in w.submitted
    ensures forall i :: 0 <= i < |w.submitted| && w.submitted[i].id == e.id ==> w.submitted[i] == e
  {
    var k :| 0 <= k < |w.submitted| && w.submitted[k] == e;
    forall i | 0 <= i < |w.submitted| && w.submitted[i].id == e.id ensures i == k {
    }
  }

  lemma {:induction false} UnreadSubmitted(w: World, count: nat)
    requires SubmittedInv(w) && w.commands.Valid() && GROUP in w.commands.groups
    ensures forall e :: e in Unread(w.commands, GROUP, count) ==> e in w.submitted
  {
    var batch := Unread(w.commands, GROUP, count);
    forall e | e in batch ensures e in w.submitted {
      var i :| 0 <= i < |batch| && batch[i] == e;
      UnreadIs(w.commands, GROUP, count, i);
    }
  }

  const BATCH := 10

  /**
   * How a batch was obtained, by a claim of idle entries or else by a read, and the moment of the
   * run at which Redis handed it out.
   */
  datatype Fetching = Claimed(at: nat, idle: set<nat>) | Delivered(at: nat)

  /**
   * A claim of at most ten pending entries at this moment hands out exactly those that are still in
   * the stream, oldest first, and counts one more delivery of each.
   */
  ghost predicate ClaimedAt(w: World, v: World, idle: set<nat>, batch: seq<Entry<Body>>) {
    && GROUP in w.commands.groups && idle <= w.commands.groups[GROUP].pending.Keys && |idle| <= 10
    && v == Apply(w, Reclaim(GROUP, idle))
    && ArePicked(w.commands.entries, idle, batch)
    && GROUP in v.commands.groups && AllCounted(w.commands.groups[GROUP], v.commands.groups[GROUP], batch)
  }

  lemma {:induction false} PickedAreClaimed(w: World, idle: set<nat>)
    requires w.commands.Valid() && GROUP in w.commands.groups && idle <= w.commands.groups[GROUP].pending.Keys
             && |idle| <= BATCH
    ensures ClaimedAt(w, Apply(w, Reclaim(GROUP, idle)), idle, Picked(w.commands.entries, idle))
    ensures |Picked(w.commands.entries, idle)| <= BATCH
  {
    PickedIs(w.commands.entries, idle);
    ClaimedCounted(w.commands, GROUP, idle);
  }

  /** A read at this moment hands out these: the next ones nobody in the group has been given, at most ten. */
  ghost predicate DeliveredAt(w: World, v: World, batch: seq<Entry<Body>>) {
    && GROUP in w.commands.groups && v == Apply(w, Read(GROUP, 10))
    && IsNext(w.commands.entries, w.commands.groups[GROUP].last, 10, batch)
    && GROUP in v.commands.groups && AllFirst(v.commands.groups[GROUP], batch)
  }

  lemma {:induction false} UnreadAreNext(w: World)
    requires w.commands.Valid() && GROUP in w.commands.groups
    ensures DeliveredAt(w, Apply(w, Step.Read(GROUP, BATCH)), Unread(w.commands, GROUP, BATCH))
    ensures |Unread(w.commands, GROUP, BATCH)| <= BATCH
  {
    hide Unread, Deliver, IsNext, AllFirst;
    NextAreUnread(w.commands, GROUP, BATCH);
    DeliveredOnce(w.commands, GROUP, BATCH);
    UnreadInOrder(w.commands, GROUP, BATCH);
  }

  /** The batch is what the step at this place of the trace handed out. */
  ghost predicate HandedOut(trace: seq<World>, at: nat, f: Fetching, batch: seq<Entry<Body>>)
    requires at + 1 < |trace|
  {
    match f
    case Claimed(_, idle) => ClaimedAt(trace[at], trace[at + 1], idle, batch)
    case Delivered(_) => DeliveredAt(trace[at], trace[at + 1], batch)
  }

  ghost predicate Fetched(trace: seq<World>, f: Fetching, batch: seq<Entry<Body>>) {
    && f.at + 1 < |trace| && |batch| <= BATCH
    && forall at {:trigger HandedOut(trace, at, f, batch)} :: at == f.at ==> HandedOut(trace, at, f, batch)
  }

  lemma {:induction false} StaysFetched(trace: seq<World>, longer: seq<World>, f: Fetching, batch: seq<Entry<Body>>)
    requires Fetched(trace, f, batch) && trace <= longer
    ensures Fetched(longer, f, batch)
  {
    assert HandedOut(trace, f.at, f, batch);
    assert longer[f.at] == trace[f.at] && longer[f.at + 1] == trace[f.at + 1];
  }

  /**
   * The commands stream, as the consumer's connection sees it. `ok` says whether a call is answered;
   * one that is not may have failed before or after Redis acted.
   */
  class RedisStreams {
    const backend: Backend
    var claimCursor: nat

    constructor (backend: Backend)
      ensures this.backend == backend && claimCursor == 0
    {
      this.backend, claimCursor := backend, 0;
    }

    /** createGroup: an existing group is not an error. */
    method CreateGroup(ok: bool)
      requires backend.Valid()
      modifies backend`commands, backend`trace, backend`own
      ensures backend.Valid() && backend.Grew()
      ensures ok ==> GROUP in backend.commands.groups && backend.own == old(backend.own) + [AddGroup(GROUP)]
      ensures !ok ==> backend.own == old(backend.own) || backend.own == old(backend.own) + [AddGroup(GROUP)]
      ensures GROUP in old(backend.commands).groups ==> backend.commands == old(backend.commands)
    {
      var reached: bool := *;
      if ok || reached {
        backend.commands := RedisStream.CreateGroup(backend.commands, GROUP);
        backend.Took(AddGroup(GROUP));
      }
    }

    /** claim: idle pending entries at or after the cursor, which then moves on or starts over. */
    method Claim(ok: bool) returns (entries: seq<Entry<Body>>, ghost idle: set<nat>)
      requires backend.Valid() && GROUP in backend.commands.groups
      modifies backend`commands, backend`trace, backend`own, this`claimCursor
      ensures backend.Valid() && backend.Grew()
      ensures ok ==> backend.own == old(backend.own) + [Reclaim(GROUP, idle)]
                     && Fetched(backend.trace, Claimed(|old(backend.trace)| - 1, idle), entries)
      ensures !ok ==>
                entries == [] && (backend.own == old(backend.own)
                                  || backend.own == old(backend.own) + [Reclaim(GROUP, idle)])
      ensures forall e :: e in entries ==> e in backend.submitted
    {
      var reached: bool, candidates: set<nat> := *, *;
      entries, idle := [], {};
      if !ok && !reached {
        return;
      }
      var pending := backend.commands.groups[GROUP].pending.Keys;
      var found := set id | id in candidates && id in pending && claimCursor <= id;
      if |found| > BATCH {
        found := {};
      }
      idle, claimCursor := found, *;
      var picked := Take(found);
      if ok {
        entries := picked;
      }
    }

    /** What XAUTOCLAIM does once it has chosen the entries. */
    method Take(idle: set<nat>) returns (entries: seq<Entry<Body>>)
      requires backend.Valid() && GROUP in backend.commands.groups
               && idle <= backend.commands.groups[GROUP].pending.Keys && |idle| <= BATCH
      modifies backend`commands, backend`trace, backend`own
      ensures backend.Valid() && backend.Grew() && backend.own == old(backend.own) + [Reclaim(GROUP, idle)]
      ensures Fetched(backend.trace, Claimed(|old(backend.trace)| - 1, idle), entries)
      ensures forall e :: e in entries ==> e in backend.submitted
    {
      entries := Picked(backend.commands.entries, idle);
      RunKeepsSubmissions(backend.trace, |backend.trace| - 1);
      PickedAreClaimed(backend.State(), idle);
      backend.commands := RedisStream.Claim(backend.commands, GROUP, idle);
      backend.Took(Reclaim(GROUP, idle));
    }

    /** read: the next entries nobody in the group has been given. */
    method Read(ok: bool) returns (entries: seq<Entry<Body>>)
      requires backend.Valid() && GROUP in backend.commands.groups
      modifies backend`commands, backend`trace, backend`own
      ensures backend.Valid() && backend.Grew()
      ensures ok ==>
                backend.own == old(backend.own) + [Step.Read(GROUP, BATCH)]
                && Fetched(backend.trace, Delivered(|old(backend.trace)| - 1), entries)
      ensures !ok ==>
                entries == [] && (backend.own == old(backend.own)
                                  || backend.own == old(backend.own) + [Step.Read(GROUP, BATCH)])
      ensures forall e :: e in entries ==> e in backend.submitted
    {
      var reached: bool := *;
      entries := [];
      if ok || reached {
        var unread := HandOut();
        entries := if ok then unread else [];
      }
    }

    /** What XREADGROUP does. */
    method HandOut() returns (entries: seq<Entry<Body>>)
      requires backend.Valid() && GROUP in backend.commands.groups
      modifies backend`commands, backend`trace, backend`own
      ensures backend.Valid() && backend.Grew() && backend.own == old(backend.own) + [Step.Read(GROUP, BATCH)]
      ensures Fetched(backend.trace, Delivered(|old(backend.trace)| - 1), entries)
      ensures forall e :: e in entries ==> e in backend.submitted
    {
      RunKeepsSubmissions(backend.trace, |backend.trace| - 1);
      UnreadSubmitted(backend.State(), BATCH);
      UnreadAreNext(backend.State());
      entries := Unread(backend.commands, GROUP, BATCH);
      backend.commands := Deliver(backend.commands, GROUP, BATCH);
      backend.Took(Step.Read(GROUP, BATCH));
    }

    /** attempts: the delivery count XPENDING reports, or 1 when the entry is no longer pending. */
    method Attempts(id: nat) returns (n: nat)
      requires GROUP in backend.commands.groups
      ensures n == DeliveryCount(backend.State(), id)
      ensures var pending := backend.commands.groups[GROUP].pending; n == if id in pending then pending[id] else 1
    {
      var pending := backend.commands.groups[GROUP].pending;
      n := if id in pending then pending[id] else 1;
    }

    /** ack: only for an entry that has been answered or buried. */
    method Ack(e: Entry<Body>, ok: bool)
      requires backend.Valid() && GROUP in backend.commands.groups && e in backend.submitted
               && Resolved(backend.State(), e)
      modifies backend`commands, backend`trace, backend`own
      ensures backend.Valid() && backend.Grew()
      ensures ok ==>
                e.id !in backend.commands.groups[GROUP].pending
                && backend.own == old(backend.own) + [Acknowledge(GROUP, e.id)]
      ensures !ok ==> backend.own == old(backend.own) || backend.own == old(backend.own) + [Acknowledge(GROUP, e.id)]
    {
      var reached: bool := *;
      if ok || reached {
        RunKeepsSubmissions(backend.trace, |backend.trace| - 1);
        SubmittedOnce(backend.State(), e);
        backend.commands := RedisStream.Ack(backend.commands, GROUP, e.id);
        backend.Took(Acknowledge(GROUP, e.id));
      }
    }

    /** The dead-letter copy. */
    method Copy(e: Entry<Body>)
      requires backend.Valid()
      modifies backend`dead, backend`trace, backend`own
      ensures backend.Valid() && backend.Grew() && backend.dead == old(backend.dead) + [e]
              && backend.own == old(backend.own) + [Bury(e)]
    {
      backend.dead := backend.dead + [e];
      backend.Took(Bury(e));
    }

    /** deadLetter: append the copy, then acknowledge; a failure in between leaves the entry pending. */
    method DeadLetter(e: Entry<Body>, copied: bool, acked: bool) returns (ghost taken: seq<Step>)
      requires backend.Valid() && GROUP in backend.commands.groups && e in backend.submitted
      modifies backend
      ensures backend.Valid() && backend.Grew() && backend.own == old(backend.own) + taken
      ensures taken == [Bury(e), Acknowledge(GROUP, e.id)]
              || (!(copied && acked) && (taken == [Bury(e)] || (taken == [] && !copied)))
      ensures copied ==> exists d :: |old(backend.dead)| <= d < |backend.dead| && backend.dead[d] == e
    {
      var reached: bool := *;
      taken := [];
      assert backend.own == backend.own + taken;
      if !copied && !reached {
        return;
      }
      Copy(e);
      taken := [Bury(e)];
      if copied {
        var d := |backend.dead| - 1;
        backend.Pause();
        assert backend.dead[d] == e;
        ghost var own := backend.own;
        Ack(e, acked);
        taken := if backend.own == own then [Bury(e)] else [Bury(e), Acknowledge(GROUP, e.id)];
      }
    }
  }

  // ----------------------------------------------------------- one entry's turn

  /** How an entry's turn ended. */
  datatype Fate = Processed | Buried | Kept

  /** What session check, handler and database bring to one call of the processor. */
  datatype Call = Call(session: Session, lifetime: Option<int>, handled: Handled, db: Exchange) {
    function Handler(): (h: Handled)
      ensures WellFormedHandled(h)
    {
      if WellFormedHandled(handled) then handled else Throws
    }
  }

  /** What one turn meets: two calls of the processor, and whether Redis answers each command. */
  datatype Circumstances = Circumstances(first: Call, acked: bool, counted: bool, last: Call, copied: bool,
                                         buried: bool)

  /**
   * An entry's turn: how it ended, the delivery count, what the calls of the processor came to,
   * and the steps this consumer took.
   */
  datatype EntryTurn = EntryTurn(fate: Fate, threw: bool, attempts: nat, first: Outcome, last: Outcome,
                                 taken: seq<Step>)

  /**
   * A call of the processor, and what it left among the steps: it may have committed although it
   * threw, if an answer was lost.
   */
  predicate Called(outcome: Outcome, call: Call, c: Command, forced: bool, taken: seq<Step>) {
    match call.session
    case Unavailable => outcome.Threw?
    case Unauthorized => (outcome.Replied? <==> call.db.Completed?) && (call.db.Done() ==> Deny(c) in taken)
    case Authorized =>
        outcome.Replied? ==> call.db.Completed? && Process(c, call.lifetime, forced, call.Handler()) in taken
  }

  /** How a turn must end, given what its calls came to. */
  function Ending(e: Entry<Body>, w: Circumstances, t: EntryTurn, maxAttempts: nat): (Fate, bool) {
    if !Processable(e.body) then if w.copied && w.buried then (Buried, false) else (Kept, true)
    else if t.first.Replied? && w.acked then (Processed, false)
    else if !w.counted then (Kept, true)
    else if t.attempts < maxAttempts then (Kept, false)
    else if t.last.Replied? && w.copied && w.buried then (Buried, false)
    else (Kept, true)
  }

  /** The forced failure is stored only when the first call, or its acknowledgement, failed at the attempt limit. */
  predicate ReachesLimit(e: Entry<Body>, w: Circumstances, t: EntryTurn, maxAttempts: nat) {
    Processable(e.body) && !(t.first.Replied? && w.acked) && w.counted && maxAttempts <= t.attempts
  }

  /** Burials and acknowledgements concern the entry itself. */
  ghost predicate OwnEntry(taken: seq<Step>, e: Entry<Body>) {
    forall s ::
      s in taken ==>
        (s.Bury? ==> s == Bury(e)) && (s.Acknowledge? ==> s == Acknowledge(GROUP, e.id)) && !s.Read? && !s.Reclaim?
        && !s.AddGroup?
  }

  /**
   * A turn ends as its circumstances demand. The entry is acknowledged only after its reply, or
   * buried with an acknowledgement: at once if malformed, else at the attempt limit and only after
   * the final failure was stored. Replies are those stored after the first so many letters.
   */
  ghost predicate Proper(e: Entry<Body>, w: Circumstances, t: EntryTurn, maxAttempts: nat, before: nat,
                         letters: seq<Letter>) {
    && OwnEntry(t.taken, e) && Ending(e, w, t, maxAttempts) == (t.fate, t.threw)
    && (Processable(e.body) ==> Called(t.first, w.first, e.body.c, false, t.taken))
    && (ReachesLimit(e, w, t, maxAttempts) ==> Called(t.last, w.last, e.body.c, true, t.taken))
    && (t.fate.Processed? ==> Acknowledge(GROUP, e.id) in t.taken && Bury(e) !in t.taken)
    && (t.fate.Buried? ==> Bury(e) in t.taken && Acknowledge(GROUP, e.id) in t.taken)
    && (Bury(e) in t.taken ==> !Processable(e.body) || (ReachesLimit(e, w, t, maxAttempts) && t.last.Replied?))
    && (Processable(e.body) && (Bury(e) in t.taken || Acknowledge(GROUP, e.id) in t.taken) ==>
        Answered(before, letters, e.body.c))
    && (!Processable(e.body) && Acknowledge(GROUP, e.id) in t.taken ==> Bury(e) in t.taken)
  }

  predicate Holding(w: World, key: ReceiptKey) {
    key in w.held
  }

  /** What XPENDING reports: the delivery count, or 1 when the entry is no longer pending. */
  function DeliveryCount(w: World, id: nat): nat {
    if GROUP in w.commands.groups && id in w.commands.groups[GROUP].pending then w.commands.groups[GROUP].pending[id]
    else 1
  }

  /** The receipt was locked at some moment since. */
  ghost predicate LockedSince(trace: seq<World>, from: nat, key: ReceiptKey) {
    exists at {:trigger Holding(trace[at], key)} :: from <= at < |trace| && Holding(trace[at], key)
  }

  /** This was the delivery count at some moment since. */
  ghost predicate CountedSince(trace: seq<World>, from: nat, id: nat, n: nat) {
    exists at {:trigger DeliveryCount(trace[at], id)} :: from <= at < |trace| && DeliveryCount(trace[at], id) == n
  }

  /**
   * With a valid session and a database that answers, a call throws only after a transaction of
   * its own, or because the receipt is locked.
   */
  ghost predicate Excused(outcome: Outcome, call: Call, c: Command, taken: seq<Step>, trace: seq<World>, from: nat) {
    outcome.Threw? && call.session.Authorized? && call.db.Completed? ==>
        Lock(KeyOf(c)) in taken || LockedSince(trace, from, KeyOf(c))
  }

  /** The grounds on which a turn did not succeed at once. */
  ghost predicate Grounds(e: Entry<Body>, w: Circumstances, t: EntryTurn, maxAttempts: nat, trace: seq<World>,
                          from: nat) {
    Processable(e.body) ==>
      && Excused(t.first, w.first, e.body.c, t.taken, trace, from)
      && (t.first.Threw? || !w.acked ==> CountedSince(trace, from, e.id, t.attempts))
      && (ReachesLimit(e, w, t, maxAttempts) ==> Excused(t.last, w.last, e.body.c, t.taken, trace, from))
  }

  lemma {:induction false} StillExcused(outcome: Outcome, call: Call, c: Command, taken: seq<Step>, more: seq<Step>,
                                        trace: seq<World>, longer: seq<World>, from: nat, early: nat)
    requires Excused(outcome, call, c, taken, trace, from) && trace <= longer && early <= from
             && forall s :: s in taken ==> s in more
    ensures Excused(outcome, call, c, more, longer, early)
  {
    if LockedSince(trace, from, KeyOf(c)) {
      var at :| from <= at < |trace| && Holding(trace[at], KeyOf(c));
      assert Holding(longer[at], KeyOf(c));
    }
  }

  lemma {:induction false} StillCounted(trace: seq<World>, longer: seq<World>, from: nat, early: nat, id: nat, n: nat)
    requires CountedSince(trace, from, id, n) && trace <= longer && early <= from
    ensures CountedSince(longer, early, id, n)
  {
    var at :| from <= at < |trace| && DeliveryCount(trace[at], id) == n;
    assert DeliveryCount(longer[at], id) == n;
  }

  lemma {:induction false} StillGrounds(e: Entry<Body>, w: Circumstances, t: EntryTurn, maxAttempts: nat,
                                        trace: seq<World>, longer: seq<World>, from: nat, early: nat)
    requires Grounds(e, w, t, maxAttempts, trace, from) && trace <= longer && early <= from
    ensures Grounds(e, w, t, maxAttempts, longer, early)
  {
    if Processable(e.body) {
      StillExcused(t.first, w.first, e.body.c, t.taken, t.taken, trace, longer, from, early);
      if t.first.Threw? || !w.acked {
        StillCounted(trace, longer, from, early, e.id, t.attempts);
      }
      if ReachesLimit(e, w, t, maxAttempts) {
        StillExcused(t.last, w.last, e.body.c, t.taken, t.taken, trace, longer, from, early);
      }
    }
  }

  lemma {:induction false} AnswerStays(before: nat, early: nat, letters: seq<Letter>, more: seq<Letter>, c: Command)
    requires Answered(before, letters, c) && letters <= more && early <= before
    ensures Answered(early, more, c)
  {
    var i :| before <= i < |letters| && Answers(letters[i].mail, c);
    assert more[i] == letters[i];
  }

  lemma {:induction false} TurnStays(e: Entry<Body>, w: Circumstances, t: EntryTurn, maxAttempts: nat, before: nat,
                                     early: nat, letters: seq<Letter>, more: seq<Letter>)
    requires Proper(e, w, t, maxAttempts, before, letters) && letters <= more && early <= before
    ensures Proper(e, w, t, maxAttempts, early, more)
  {
    if e.body.Cmd? && Answered(before, letters, e.body.c) {
      AnswerStays(before, early, letters, more, e.body.c);
    }
  }

  lemma {:induction false} AnsweredResolves(before: nat, w: World, e: Entry<Body>)
    requires e.body.Cmd? && Answered(before, w.letters, e.body.c)
    ensures Resolved(w, e)
  {
  }

  // ------------------------------------------------------------ a batch's turns

  /** A stretch of a run: the letters stored after the first so many, and the moments since. */
  datatype Span = Span(before: nat, letters: seq<Letter>, from: nat, trace: seq<World>)

  predicate Widens(a: Span, b: Span) {
    a.letters <= b.letters && a.trace <= b.trace && b.before <= a.before && b.from <= a.from
  }

  /** A turn that ended as it had to, on grounds that held meanwhile. */
  ghost predicate TurnOf(e: Entry<Body>, w: Circumstances, t: EntryTurn, maxAttempts: nat, span: Span) {
    Proper(e, w, t, maxAttempts, span.before, span.letters) && Grounds(e, w, t, maxAttempts, span.trace, span.from)
  }

  /**
   * How a turn ended, in terms of its circumstances. A command is acknowledged after its reply, or
   * buried with its last delivery once the final failure is stored; before that it waits for the
   * next claim, and the consumer goes on.
   */
  lemma {:induction false} FateIs(e: Entry<Body>, w: Circumstances, t: EntryTurn, maxAttempts: nat, span: Span)
    requires TurnOf(e, w, t, maxAttempts, span)
    ensures t.fate.Processed? <==> Processable(e.body) && t.first.Replied? && w.acked
    ensures t.fate.Buried? <==>
              w.copied && w.buried
              && (Processable(e.body) ==>
                    (t.first.Threw? || !w.acked) && w.counted && t.attempts >= maxAttempts && t.last.Replied?)
    ensures t.threw <==>
              t.fate.Kept? && !(Processable(e.body) && w.counted && t.attempts < maxAttempts)
    ensures Bury(e) in t.taken && Processable(e.body) ==>
              (t.first.Threw? || !w.acked) && w.counted && t.attempts >= maxAttempts && t.last.Replied?
  {
  }

  lemma {:induction false} TurnWidens(e: Entry<Body>, w: Circumstances, t: EntryTurn, maxAttempts: nat, a: Span,
                                      b: Span)
    requires TurnOf(e, w, t, maxAttempts, a) && Widens(a, b)
    ensures TurnOf(e, w, t, maxAttempts, b)
  {
    TurnStays(e, w, t, maxAttempts, a.before, b.before, a.letters, b.letters);
    StillGrounds(e, w, t, maxAttempts, a.trace, b.trace, a.from, b.from);
  }

  /** Every entry up to a point had its turn, in order; only the last turn may have thrown. */
  ghost predicate Turned(batch: seq<Entry<Body>>, ws: nat -> Circumstances, turns: seq<EntryTurn>, threw: bool,
                         maxAttempts: nat, span: Span) {
    && |turns| <= |batch|
    && forall k {:trigger TurnAt(batch, ws, turns, threw, maxAttempts, span, k)} ::
         0 <= k < |turns| ==> TurnAt(batch, ws, turns, threw, maxAttempts, span, k)
  }

  ghost predicate TurnAt(batch: seq<Entry<Body>>, ws: nat -> Circumstances, turns: seq<EntryTurn>, threw: bool,
                         maxAttempts: nat, span: Span, k: nat)
    requires k < |turns| <= |batch|
  {
    TurnOf(batch[k], ws(k), turns[k], maxAttempts, span) && (turns[k].threw <==> threw && k == |turns| - 1)
  }

  function AllTaken(turns: seq<EntryTurn>): seq<Step> {
    if turns == [] then [] else AllTaken(turns[..|turns| - 1]) + turns[|turns| - 1].taken
  }

  /** The number of entries that were answered and acknowledged. */
  function Counted(turns: seq<EntryTurn>): nat {
    if turns == [] then 0 else Counted(turns[..|turns| - 1]) + if turns[|turns| - 1].fate.Processed? then 1 else 0
  }

  lemma {:induction false} OneTurnMore(turns: seq<EntryTurn>, t: EntryTurn)
    ensures AllTaken(turns + [t]) == AllTaken(turns) + t.taken
    ensures Counted(turns + [t]) == Counted(turns) + if t.fate.Processed? then 1 else 0
  {
    assert (turns + [t])[..|turns|] == turns;
  }

  lemma {:induction false} TurnedWidens(batch: seq<Entry<Body>>, ws: nat -> Circumstances, turns: seq<EntryTurn>,
                                        threw: bool, maxAttempts: nat, a: Span, b: Span)
    requires Turned(batch, ws, turns, threw, maxAttempts, a) && Widens(a, b)
    ensures Turned(batch, ws, turns, threw, maxAttempts, b)
  {
    forall k | 0 <= k < |turns| ensures TurnAt(batch, ws, turns, threw, maxAttempts, b, k) {
      assert TurnAt(batch, ws, turns, threw, maxAttempts, a, k);
      TurnWidens(batch[k], ws(k), turns[k], maxAttempts, a, b);
    }
  }

  lemma {:induction false} TurnedMore(batch: seq<Entry<Body>>, ws: nat -> Circumstances, turns: seq<EntryTurn>,
                                      t: EntryTurn, maxAttempts: nat, a: Span, b: Span, span: Span)
    requires Turned(batch, ws, turns, false, maxAttempts, a) && Widens(a, span) && |turns| < |batch|
    requires TurnOf(batch[|turns|], ws(|turns|), t, maxAttempts, b) && Widens(b, span)
    ensures Turned(batch, ws, turns + [t], t.threw, maxAttempts, span)
  {
    var longer := turns + [t];
    TurnedWidens(batch, ws, turns, false, maxAttempts, a, span);
    TurnWidens(batch[|turns|], ws(|turns|), t, maxAttempts, b, span);
    forall k | 0 <= k < |longer| ensures TurnAt(batch, ws, longer, t.threw, maxAttempts, span, k) {
      if k < |turns| { assert TurnAt(batch, ws, turns, false, maxAttempts, span, k); }
    }
  }

  lemma {:induction false} Associative<T>(a: seq<T>, b: seq<T>, c: seq<T>)
    ensures (a + b) + c == a + (b + c)
  {
  }

  /** The steps of a fetch: the group on first use, a claim, and a read if the claim found nothing. */
  function FetchSteps(first: bool, idle: set<nat>, f: Fetching): seq<Step> {
    (if first then [AddGroup(GROUP)] else []) + ObtainSteps(idle, f)
  }

  function ObtainSteps(idle: set<nat>, f: Fetching): seq<Step> {
    [Reclaim(GROUP, idle)] + if f.Delivered? then [Read(GROUP, BATCH)] else []
  }

  /** Nothing but attempts to obtain entries. */
  predicate OnlyFetches(steps: seq<Step>) {
    forall s :: s in steps ==> s.AddGroup? || s.Reclaim? || s.Read?
  }

  class CommandConsumer {
    const redis: RedisStreams
    const processor: CommandProcessor
    const maxAttempts: nat
    var initialized: bool

    constructor (backend: Backend, maxAttempts: nat)
      ensures fresh(redis) && redis.backend == backend && processor.backend == backend
              && this.maxAttempts == maxAttempts
      ensures !initialized
    {
      redis := new RedisStreams(backend);
      processor := new CommandProcessor(backend);
      this.maxAttempts, initialized := maxAttempts, false;
    }

    ghost predicate Valid()
      reads this, redis, redis.backend
    {
      && processor.backend == redis.backend && redis.backend.Valid()
      && (initialized ==> GROUP in redis.backend.commands.groups)
    }

    /**
     * One batch: what Redis handed out at one moment of the run, and the turns of its entries in
     * order, up to the one before which the run is asked to stop, or the one that throws. This
     * consumer did nothing else; the count is the number of entries answered and acknowledged.
     * `up` says whether Redis answers while the batch is fetched, `ws` what each turn meets.
     */
    method RunOnce(stopAt: nat, up: bool, ws: nat -> Circumstances)
      returns (processed: nat, threw: bool, ghost fetching: Option<Fetching>, ghost idle: set<nat>,
               ghost batch: seq<Entry<Body>>, ghost fetched: seq<Step>, ghost turns: seq<EntryTurn>)
      requires Valid()
      modifies this, redis, redis.backend
      ensures Valid() && redis.backend.Grew()
      ensures (fetching.Some? <==> up) && (!up ==> threw && batch == [])
      ensures up && fetching.value.Claimed? ==> fetching.value.idle == idle && batch != []
      ensures up ==>
                initialized && Fetched(redis.backend.trace, fetching.value, batch)
                && fetched == FetchSteps(!old(initialized), idle, fetching.value)
      ensures OnlyFetches(fetched)
      ensures redis.backend.own == old(redis.backend.own) + fetched + AllTaken(turns)
      ensures |turns| <= Min(|batch|, stopAt) && (!threw ==> |turns| == Min(|batch|, stopAt))
              && (up && threw ==> turns != [])
      ensures Turned(batch, ws, turns, threw && up, maxAttempts,
                     Since(|old(redis.backend.letters)|, |old(redis.backend.trace)|))
      ensures processed == Counted(turns)
    {
      var entries;
      entries, fetching, idle, fetched := Fetch(up);
      batch, turns, processed, threw := entries, [], 0, !up;
      ghost var letters, own := |redis.backend.letters|, redis.backend.own;
      assert own == own + AllTaken(turns);
      if up {
        ghost var trace := redis.backend.trace;
        processed, threw, turns := Work(entries, stopAt, ws);
        StaysFetched(trace, redis.backend.trace, fetching.value, batch);
        TurnedWidens(batch, ws, turns, threw, maxAttempts, Since(letters, |trace|),
                     Since(|old(redis.backend.letters)|, |old(redis.backend.trace)|));
      }
    }

    /** The loop over a batch. */
    method Work(entries: seq<Entry<Body>>, stopAt: nat, ws: nat -> Circumstances)
      returns (processed: nat, threw: bool, ghost turns: seq<EntryTurn>)
      requires Valid() && initialized && forall e :: e in entries ==> e in redis.backend.submitted
      modifies redis.backend
      ensures Valid() && redis.backend.Grew()
      ensures |turns| <= Min(|entries|, stopAt) && (!threw ==> |turns| == Min(|entries|, stopAt))
              && (threw ==> turns != [])
      ensures Turned(entries, ws, turns, threw, maxAttempts,
                     Since(|old(redis.backend.letters)|, |old(redis.backend.trace)|))
      ensures redis.backend.own == old(redis.backend.own) + AllTaken(turns) && processed == Counted(turns)
    {
      processed, threw, turns := 0, false, [];
      assert redis.backend.own == redis.backend.own + AllTaken(turns);
      for n := 0 to |entries|
        invariant Valid() && redis.backend.Grew() && !threw && |turns| == n <= stopAt
        invariant forall e :: e in entries ==> e in redis.backend.submitted
        invariant Turned(entries, ws, turns, false, maxAttempts,
                         Since(|old(redis.backend.letters)|, |old(redis.backend.trace)|))
        invariant redis.backend.own == old(redis.backend.own) + AllTaken(turns) && processed == Counted(turns)
      {
        if n == stopAt {
          break;
        }
        ghost var span, letters, trace :=
          Since(|old(redis.backend.letters)|, |old(redis.backend.trace)|), |redis.backend.letters|,
          |redis.backend.trace|;
        var fate;
        ghost var turn;
        fate, threw, turn := Next(entries[n], ws(n));
        TurnedMore(entries, ws, turns, turn, maxAttempts, span, Since(letters, trace),
                   Since(|old(redis.backend.letters)|, |old(redis.backend.trace)|));
        OneTurnMore(turns, turn);
        Associative(old(redis.backend.own), AllTaken(turns), turn.taken);
        turns := turns + [turn];
        if fate.Processed? {
          processed := processed + 1;
        }
        if threw {
          break;
        }
      }
    }

    /** What has been recorded since there were so many letters and moments. */
    ghost function Since(letters: nat, moments: nat): Span
      reads redis.backend
    {
      Span(letters, redis.backend.letters, if moments > 0 then moments - 1 else 0, redis.backend.trace)
    }

    /** The next entry of the batch, after whatever others did since the last one. */
    method Next(e: Entry<Body>, w: Circumstances) returns (fate: Fate, threw: bool, ghost turn: EntryTurn)
      requires Valid() && initialized && e in redis.backend.submitted
      modifies redis.backend
      ensures Valid() && redis.backend.Grew() && turn.fate == fate && turn.threw == threw
      ensures redis.backend.own == old(redis.backend.own) + turn.taken
      ensures TurnOf(e, w, turn, maxAttempts, Since(|old(redis.backend.letters)|, |old(redis.backend.trace)|))
    {
      redis.backend.Pause();
      ghost var letters, trace := |redis.backend.letters|, |redis.backend.trace|;
      fate, threw, turn := Entry(e, w);
      TurnWidens(e, w, turn, maxAttempts, Since(letters, trace),
                 Since(|old(redis.backend.letters)|, |old(redis.backend.trace)|));
    }

    /** The group on first use, then idle entries of other consumers, or else new ones. */
    method Fetch(up: bool)
      returns (entries: seq<Entry<Body>>, ghost fetching: Option<Fetching>, ghost idle: set<nat>,
               ghost taken: seq<Step>)
      requires Valid()
      modifies this, redis, redis.backend
      ensures Valid() && redis.backend.Grew() && redis.backend.own == old(redis.backend.own) + taken
      ensures (up <==> fetching.Some?) && (!up ==> entries == [])
      ensures up && fetching.value.Claimed? ==> fetching.value.idle == idle && entries != []
      ensures up ==>
                initialized && Fetched(redis.backend.trace, fetching.value, entries)
                && taken == FetchSteps(!old(initialized), idle, fetching.value)
      ensures OnlyFetches(taken)
      ensures forall e :: e in entries ==> e in redis.backend.submitted
    {
      var ready: bool := *;
      ready := ready || up;
      entries, fetching, idle := [], None, {};
      taken := Prepare(ready);
      if ready {
        ghost var more;
        entries, fetching, idle, more := Obtain(up);
        Associative(old(redis.backend.own), taken, more);
        taken := taken + more;
      }
    }

    /** The group on first use. */
    method Prepare(ok: bool) returns (ghost taken: seq<Step>)
      requires Valid()
      modifies this`initialized, redis.backend
      ensures Valid() && redis.backend.Grew() && redis.backend.own == old(redis.backend.own) + taken
      ensures ok ==> initialized && taken == if old(initialized) then [] else [AddGroup(GROUP)]
      ensures OnlyFetches(taken)
    {
      taken := [];
      assert redis.backend.own == redis.backend.own + taken;
      if !initialized {
        redis.CreateGroup(ok);
        taken := if redis.backend.own == old(redis.backend.own) then [] else [AddGroup(GROUP)];
        initialized := ok;
        redis.backend.Pause();
      }
    }

    /** A claim; if it finds nothing, a read. */
    method Obtain(ok: bool)
      returns (entries: seq<Entry<Body>>, ghost fetching: Option<Fetching>, ghost idle: set<nat>,
               ghost taken: seq<Step>)
      requires Valid() && initialized
      modifies redis, redis.backend
      ensures Valid() && redis.backend.Grew() && redis.backend.own == old(redis.backend.own) + taken
      ensures (ok <==> fetching.Some?) && (!ok ==> entries == [])
      ensures ok && fetching.value.Claimed? ==> fetching.value.idle == idle && entries != []
      ensures ok ==> Fetched(redis.backend.trace, fetching.value, entries) && taken == ObtainSteps(idle, fetching.value)
      ensures OnlyFetches(taken)
      ensures forall e :: e in entries ==> e in redis.backend.submitted
    {
      var claimed: bool := *;
      claimed := claimed || ok;
      ghost var at := |redis.backend.trace| - 1;
      entries, idle := redis.Claim(claimed);
      fetching := Some(Claimed(at, idle));
      taken := if redis.backend.own == old(redis.backend.own) then [] else [Reclaim(GROUP, idle)];
      if claimed && entries == [] {
        ghost var more;
        entries, fetching, more := ReadOn(ok);
        Associative(old(redis.backend.own), taken, more);
        taken := taken + more;
      } else if !ok {
        entries, fetching := [], None;   // the answer to the claim was lost
      }
    }

    method ReadOn(ok: bool)
      returns (entries: seq<Entry<Body>>, ghost fetching: Option<Fetching>, ghost taken: seq<Step>)
      requires Valid() && initialized
      modifies redis.backend
      ensures Valid() && redis.backend.Grew() && redis.backend.own == old(redis.backend.own) + taken
      ensures (ok <==> fetching.Some?) && (!ok ==> entries == [])
      ensures ok ==>
                fetching.value.Delivered? && Fetched(redis.backend.trace, fetching.value, entries)
                && taken == [Step.Read(GROUP, BATCH)]
      ensures OnlyFetches(taken)
      ensures forall e :: e in entries ==> e in redis.backend.submitted
    {
      redis.backend.Pause();
      ghost var at := |redis.backend.trace| - 1;
      entries := redis.Read(ok);
      fetching := if ok then Some(Delivered(at)) else None;
      taken := if redis.backend.own == old(redis.backend.own) then [] else [Step.Read(GROUP, BATCH)];
    }

    /** The loop body. */
    method Entry(e: Entry<Body>, w: Circumstances) returns (fate: Fate, threw: bool, ghost turn: EntryTurn)
      requires Valid() && initialized && e in redis.backend.submitted
      modifies redis.backend
      ensures Valid() && redis.backend.Grew() && turn.fate == fate && turn.threw == threw
      ensures redis.backend.own == old(redis.backend.own) + turn.taken
      ensures TurnOf(e, w, turn, maxAttempts, Since(|old(redis.backend.letters)|, |old(redis.backend.trace)|))
    {
      if !Processable(e.body) {
        ghost var taken := redis.DeadLetter(e, w.copied, w.buried);
        fate, threw := if w.copied && w.buried then Buried else Kept, !(w.copied && w.buried);
        turn := EntryTurn(fate, threw, 0, Threw, Threw, taken);
      } else {
        fate, threw, turn := Attempt(e, w);
      }
    }

    /** A well-formed command: the successful path, or the catch block. */
    method Attempt(e: Entry<Body>, w: Circumstances) returns (fate: Fate, threw: bool, ghost turn: EntryTurn)
      requires Valid() && initialized && e in redis.backend.submitted && Processable(e.body)
      modifies redis.backend
      ensures Valid() && redis.backend.Grew() && turn.fate == fate && turn.threw == threw
      ensures redis.backend.own == old(redis.backend.own) + turn.taken
      ensures TurnOf(e, w, turn, maxAttempts, Since(|old(redis.backend.letters)|, |old(redis.backend.trace)|))
    {
      var outcome;
      ghost var taken;
      outcome, taken := Answer(e, w);
      ghost var span := Since(|old(redis.backend.letters)|, |old(redis.backend.trace)|);
      if outcome.Replied? && w.acked {
        fate, threw, turn := Processed, false, EntryTurn(Processed, false, 0, outcome, Threw, taken);
        Succeeded(e, w, taken, maxAttempts, span);
      } else {
        ghost var more;
        fate, threw, more := Retry(e, w, outcome);
        Associative(old(redis.backend.own), taken, more.taken);
        turn := more.(taken := taken + more.taken);
        OneTurn(e, w, taken, more, maxAttempts, span, Since(|old(redis.backend.letters)|, |old(redis.backend.trace)|));
      }
    }

    /** The successful path: process, then acknowledge. */
    method Answer(e: Entry<Body>, w: Circumstances) returns (outcome: Outcome, ghost taken: seq<Step>)
      requires Valid() && initialized && e in redis.backend.submitted && Processable(e.body)
      modifies redis.backend
      ensures Valid() && redis.backend.Grew() && redis.backend.own == old(redis.backend.own) + taken
      ensures OwnEntry(taken, e) && Step.Bury(e) !in taken && Called(outcome, w.first, e.body.c, false, taken)
      ensures Excused(outcome, w.first, e.body.c, taken, redis.backend.trace, |old(redis.backend.trace)| - 1)
      ensures outcome.Replied? && w.acked ==> Acknowledge(GROUP, e.id) in taken
      ensures Acknowledge(GROUP, e.id) in taken ==>
                Answered(|old(redis.backend.letters)|, redis.backend.letters, e.body.c)
    {
      ghost var before := |redis.backend.letters|;
      outcome, taken := Deliver(e, w.first, false);
      CallsOnly(taken, e);
      if outcome.Replied? {
        ghost var letters, more := redis.backend.letters, [];
        more := Confirm(e, w.acked, before);
        Associative(old(redis.backend.own), taken, more);
        StillCalled(outcome, w.first, e.body.c, false, taken, more);
        OwnBoth(taken, more, e);
        taken := taken + more;
      }
    }

    /** The acknowledgement of an entry that has its reply. */
    method Confirm(e: Entry<Body>, acked: bool, ghost before: nat) returns (ghost taken: seq<Step>)
      requires Valid() && initialized && e in redis.backend.submitted && Processable(e.body)
      requires Answered(before, redis.backend.letters, e.body.c)
      modifies redis.backend
      ensures Valid() && redis.backend.Grew() && redis.backend.own == old(redis.backend.own) + taken
      ensures taken == [Acknowledge(GROUP, e.id)] || (!acked && taken == [])
      ensures Answered(before, redis.backend.letters, e.body.c)
    {
      redis.backend.Pause();
      AnswerStays(before, before, old(redis.backend.letters), redis.backend.letters, e.body.c);
      AnsweredResolves(before, redis.backend.State(), e);
      ghost var done := redis.backend.own;
      redis.Ack(e, acked);
      taken := if redis.backend.own == done then [] else [Acknowledge(GROUP, e.id)];
    }

    /** One call of the processor. */
    method Deliver(e: Entry<Body>, call: Call, forced: bool) returns (outcome: Outcome, ghost taken: seq<Step>)
      requires Valid() && initialized && Processable(e.body)
      modifies redis.backend
      ensures Valid() && redis.backend.Grew() && redis.backend.own == old(redis.backend.own) + taken
      ensures forall s :: s in taken ==> s.Lock? || s.Rollback? || s.Process? || s.Deny?
      ensures Called(outcome, call, e.body.c, forced, taken)
      ensures Excused(outcome, call, e.body.c, taken, redis.backend.trace, |old(redis.backend.trace)| - 1)
      ensures outcome.Replied? ==> Answered(|old(redis.backend.letters)|, redis.backend.letters, e.body.c)
    {
      ghost var aborted, committed;
      outcome, aborted, committed :=
        processor.Process(e.body.c, forced, call.session, call.lifetime, call.Handler(), call.db);
      if call.session.Authorized? {
        AbortedSteps(aborted, KeyOf(e.body.c));
        taken := aborted + if committed then Committing(e.body.c, forced, call.lifetime, call.Handler()) else [];
        assert committed ==> taken[|taken| - 1] == Step.Process(e.body.c, call.lifetime, forced, call.Handler());
        if aborted == [] {
          assert Holding(redis.backend.trace[|redis.backend.trace| - 1], KeyOf(e.body.c)) || outcome.Replied?
                 || !call.db.Completed?;
        } else {
          assert aborted[..2][0] == Lock(KeyOf(e.body.c)) && aborted[0] in taken;
        }
      } else {
        taken := if committed then [Step.Deny(e.body.c)] else [];
      }
    }

    /** The catch block: after too many deliveries, store the final failure and bury the entry. */
    method Retry(e: Entry<Body>, w: Circumstances, first: Outcome)
      returns (fate: Fate, threw: bool, ghost turn: EntryTurn)
      requires Valid() && initialized && e in redis.backend.submitted && Processable(e.body)
               && (first.Threw? || !w.acked)
      modifies redis.backend
      ensures Valid() && redis.backend.Grew() && turn.fate == fate && turn.threw == threw && turn.first == first
      ensures redis.backend.own == old(redis.backend.own) + turn.taken
      ensures Caught(e, w, turn, maxAttempts, |old(redis.backend.letters)|, redis.backend.letters)
      ensures CountedSince(redis.backend.trace, |old(redis.backend.trace)| - 1, e.id, turn.attempts)
      ensures ReachesLimit(e, w, turn, maxAttempts) ==>
                Excused(turn.last, w.last, e.body.c, turn.taken, redis.backend.trace, |old(redis.backend.trace)| - 1)
    {
      var n := redis.Attempts(e.id);
      fate, threw, turn := Kept, !w.counted, EntryTurn(Kept, !w.counted, n, first, Threw, []);
      assert redis.backend.own == redis.backend.own + turn.taken;
      ghost var trace := redis.backend.trace;
      assert DeliveryCount(trace[|trace| - 1], e.id) == n;
      if w.counted && n >= maxAttempts {
        ghost var before := |redis.backend.letters|;
        redis.backend.Pause();
        ghost var later, at := |redis.backend.letters|, |redis.backend.trace| - 1;
        fate, threw, turn := GiveUp(e, w, first, n);
        CaughtEarlier(e, w, turn, maxAttempts, later, before, redis.backend.letters);
        StillCounted(trace, redis.backend.trace, |trace| - 1, |trace| - 1, e.id, n);
        StillExcused(turn.last, w.last, e.body.c, turn.taken, turn.taken, redis.backend.trace, redis.backend.trace, at,
                     |trace| - 1);
      }
    }

    /** The limit is reached: if even the failure cannot be stored, the entry stays pending. */
    method GiveUp(e: Entry<Body>, w: Circumstances, first: Outcome, n: nat)
      returns (fate: Fate, threw: bool, ghost turn: EntryTurn)
      requires Valid() && initialized && e in redis.backend.submitted && Processable(e.body)
               && (first.Threw? || !w.acked) && w.counted && n >= maxAttempts
      modifies redis.backend
      ensures Valid() && redis.backend.Grew() && turn.fate == fate && turn.threw == threw && turn.first == first
      ensures redis.backend.own == old(redis.backend.own) + turn.taken
      ensures Caught(e, w, turn, maxAttempts, |old(redis.backend.letters)|, redis.backend.letters) && turn.attempts == n
      ensures Excused(turn.last, w.last, e.body.c, turn.taken, redis.backend.trace, |old(redis.backend.trace)| - 1)
    {
      var outcome;
      ghost var taken, more;
      outcome, taken := Deliver(e, w.last, true);
      CallsOnly(taken, e);
      fate, threw, turn := Kept, true, EntryTurn(Kept, true, n, first, outcome, taken);
      if outcome.Replied? {
        more := Bury(e, w, |old(redis.backend.letters)|);
        Associative(old(redis.backend.own), taken, more);
        fate, threw := if w.copied && w.buried then Buried else Kept, !(w.copied && w.buried);
        turn := EntryTurn(fate, threw, n, first, outcome, taken + more);
        StillCalled(outcome, w.last, e.body.c, true, taken, more);
        OwnBoth(taken, more, e);
      }
    }

    /** The burial of an entry whose final failure is stored. */
    method Bury(e: Entry<Body>, w: Circumstances, ghost before: nat) returns (ghost taken: seq<Step>)
      requires Valid() && initialized && e in redis.backend.submitted && Processable(e.body)
      requires Answered(before, redis.backend.letters, e.body.c)
      modifies redis.backend
      ensures Valid() && redis.backend.Grew() && redis.backend.own == old(redis.backend.own) + taken
      ensures taken == [Step.Bury(e), Acknowledge(GROUP, e.id)]
              || (!(w.copied && w.buried) && (taken == [Step.Bury(e)] || taken == []))
      ensures Answered(before, redis.backend.letters, e.body.c)
    {
      redis.backend.Pause();
      taken := redis.DeadLetter(e, w.copied, w.buried);
      AnswerStays(before, before, old(redis.backend.letters), redis.backend.letters, e.body.c);
    }
  }

  /** What the catch block does after a first call that failed, or whose acknowledgement did. */
  ghost predicate Caught(e: Entry<Body>, w: Circumstances, t: EntryTurn, maxAttempts: nat, before: nat,
                         letters: seq<Letter>) {
    && OwnEntry(t.taken, e) && Processable(e.body) && (t.first.Threw? || !w.acked)
    && Ending(e, w, t, maxAttempts) == (t.fate, t.threw)
    && (ReachesLimit(e, w, t, maxAttempts) ==> Called(t.last, w.last, e.body.c, true, t.taken))
    && (t.fate.Buried? ==> Bury(e) in t.taken && Acknowledge(GROUP, e.id) in t.taken)
    && (Acknowledge(GROUP, e.id) in t.taken ==> Bury(e) in t.taken)
    && (Bury(e) in t.taken ==>
        ReachesLimit(e, w, t, maxAttempts) && t.last.Replied? && Answered(before, letters, e.body.c))
  }

  lemma {:induction false} CaughtEarlier(e: Entry<Body>, w: Circumstances, t: EntryTurn, maxAttempts: nat, before: nat,
                                         early: nat, letters: seq<Letter>)
    requires Caught(e, w, t, maxAttempts, before, letters) && early <= before
    ensures Caught(e, w, t, maxAttempts, early, letters)
  {
    if Answered(before, letters, e.body.c) {
      AnswerStays(before, early, letters, letters, e.body.c);
    }
  }

  lemma {:induction false} CallsOnly(taken: seq<Step>, e: Entry<Body>)
    requires forall s :: s in taken ==> s.Lock? || s.Rollback? || s.Process? || s.Deny?
    ensures OwnEntry(taken, e) && Bury(e) !in taken && Acknowledge(GROUP, e.id) !in taken
  {
  }

  lemma {:induction false} OwnBoth(a: seq<Step>, b: seq<Step>, e: Entry<Body>)
    requires OwnEntry(a, e) && OwnEntry(b, e)
    ensures OwnEntry(a + b, e)
  {
  }

  lemma {:induction false} StillCalled(outcome: Outcome, call: Call, c: Command, forced: bool, taken: seq<Step>,
                                       more: seq<Step>)
    requires Called(outcome, call, c, forced, taken)
    ensures Called(outcome, call, c, forced, taken + more) && Called(outcome, call, c, forced, more + taken)
  {
  }

  lemma {:induction false} GroundsOfBoth(e: Entry<Body>, w: Circumstances, taken: seq<Step>, t: EntryTurn,
                                         maxAttempts: nat, trace: seq<World>, longer: seq<World>, from: nat)
    requires Processable(e.body) && from < |trace| && trace <= longer
             && Excused(t.first, w.first, e.body.c, taken, trace, from)
    requires CountedSince(longer, |trace| - 1, e.id, t.attempts)
    requires ReachesLimit(e, w, t, maxAttempts) ==> Excused(t.last, w.last, e.body.c, t.taken, longer, |trace| - 1)
    ensures Grounds(e, w, t.(taken := taken + t.taken), maxAttempts, longer, from)
  {
    StillExcused(t.first, w.first, e.body.c, taken, taken + t.taken, trace, longer, from, from);
    StillCounted(longer, longer, |trace| - 1, from, e.id, t.attempts);
    if ReachesLimit(e, w, t, maxAttempts) {
      StillExcused(t.last, w.last, e.body.c, t.taken, taken + t.taken, longer, longer, |trace| - 1, from);
    }
  }

  /** A failed try and its catch block are one turn. */
  lemma {:induction false} Retried(e: Entry<Body>, w: Circumstances, taken: seq<Step>, t: EntryTurn, maxAttempts: nat,
                                   before: nat, letters: seq<Letter>, more: seq<Letter>)
    requires Processable(e.body) && OwnEntry(taken, e) && Bury(e) !in taken
             && Called(t.first, w.first, e.body.c, false, taken)
    requires Acknowledge(GROUP, e.id) in taken ==> Answered(before, letters, e.body.c)
    requires Caught(e, w, t, maxAttempts, |letters|, more) && before <= |letters| && letters <= more
    ensures Proper(e, w, t.(taken := taken + t.taken), maxAttempts, before, more)
  {
    StillCalled(t.first, w.first, e.body.c, false, taken, t.taken);
    if ReachesLimit(e, w, t, maxAttempts) {
      StillCalled(t.last, w.last, e.body.c, true, t.taken, taken);
    }
    if Acknowledge(GROUP, e.id) in taken {
      AnswerStays(before, before, letters, more, e.body.c);
    }
    if Bury(e) in t.taken {
      AnswerStays(|letters|, before, more, more, e.body.c);
    }
  }

  lemma {:induction false} Succeeded(e: Entry<Body>, w: Circumstances, taken: seq<Step>, maxAttempts: nat, span: Span)
    requires Processable(e.body) && OwnEntry(taken, e) && Bury(e) !in taken && Acknowledge(GROUP, e.id) in taken
             && w.acked
    requires Called(Replied, w.first, e.body.c, false, taken) && Answered(span.before, span.letters, e.body.c)
    ensures TurnOf(e, w, EntryTurn(Processed, false, 0, Replied, Threw, taken), maxAttempts, span)
  {
  }

  lemma {:induction false} OneTurn(e: Entry<Body>, w: Circumstances, taken: seq<Step>, t: EntryTurn, maxAttempts: nat,
                                   a: Span, b: Span)
    requires Processable(e.body) && OwnEntry(taken, e) && Bury(e) !in taken
             && Called(t.first, w.first, e.body.c, false, taken)
    requires Acknowledge(GROUP, e.id) in taken ==> Answered(a.before, a.letters, e.body.c)
    requires Caught(e, w, t, maxAttempts, |a.letters|, b.letters) && a.before <= |a.letters| && Widens(a, b)
             && a.before == b.before && a.from == b.from
    requires a.from < |a.trace| && Excused(t.first, w.first, e.body.c, taken, a.trace, a.from)
    requires CountedSince(b.trace, |a.trace| - 1, e.id, t.attempts)
    requires ReachesLimit(e, w, t, maxAttempts) ==> Excused(t.last, w.last, e.body.c, t.taken, b.trace, |a.trace| - 1)
    ensures TurnOf(e, w, t.(taken := taken + t.taken), maxAttempts, b)
  {
    Retried(e, w, taken, t, maxAttempts, a.before, a.letters, b.letters);
    GroundsOfBoth(e, w, taken, t, maxAttempts, a.trace, b.trace, a.from);
  }
}
