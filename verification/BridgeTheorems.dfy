/** The guarantees of the command pipeline, over every run. */
module BridgeTheorems {
  import opened Json
  import opened JsonCanonical
  import opened JsonEnvelope
  import opened Options
  import opened RedisStream
  import opened StreamRetention
  import opened CommandModel
  import opened BridgeState
  import opened BridgeInvariants

  ghost predicate Inv(w: World) {
    ReceiptInv(w) && EffectInv(w) && LetterInv(w) && MailInv(w) && EvidenceInv(w)
  }

  lemma {:induction false} InvStep(w: World, s: Step)
    requires Inv(w) && Enabled(w, s)
    ensures Inv(Apply(w, s))
  {
    ReceiptStep(w, s);
    EffectStep(w, s);
    LetterStep(w, s);
    MailStep(w, s);
    EvidenceStep(w, s);
  }

  lemma {:induction false} InvNext(w: World, v: World)
    requires Inv(w) && Next(w, v)
    ensures Inv(v)
  {
    var s :| Enabled(w, s) && v == Apply(w, s);
    InvStep(w, s);
  }

  lemma {:induction false} RunKeepsInv(trace: seq<World>, n: nat)
    requires Run(trace) && n < |trace|
    ensures Inv(trace[n])
  {
    if n > 0 {
      RunKeepsInv(trace, n - 1);
      assert Linked(trace, n);
      InvNext(trace[n - 1], trace[n]);
    }
  }

  /**
   * At most one effect per receipt, in every interleaving of deliveries, crashes, forced
   * failures, pruning and replay. A second effect of one command needs a new receipt, and a
   * delivery whose created_at is later than the moment the first effect was decided.
   */
  lemma {:induction false} AtMostOnceEffect(trace: seq<World>, n: nat, i: nat, j: nat)
    requires Run(trace) && n < |trace| && i < j < |trace[n].effects|
    requires trace[n].effects[i].key == trace[n].effects[j].key
    ensures trace[n].effects[i].generation != trace[n].effects[j].generation
    ensures trace[n].effects[i].at < trace[n].effects[j].created
  {
    RunKeepsInv(trace, n);
  }

  lemma {:induction false} EffectsAreApart(w: World, i: nat, j: nat)
    requires EffectInv(w)
    ensures i < j < |w.effects| && w.effects[i].key == w.effects[j].key ==> w.effects[i].at < w.effects[j].created
  {
  }

  lemma {:induction false} OldProcessAddsNothing(w: World, s: Step, i: nat)
    requires ReceiptInv(w) && EffectInv(w) && CanProcess(w, s)
    requires i < |w.effects| && w.effects[i].key == KeyOf(s.c) && CreatedAt(s.c) <= w.effects[i].at
    ensures Processed(w, s).effects == w.effects
  {
    EffectProcess(w, s);
    EffectsAreApart(Processed(w, s), i, |w.effects|);
  }

  /** So a redelivery made no later than a committed effect of its command never adds another. */
  lemma {:induction false} OldDeliveryAddsNothing(trace: seq<World>, n: nat, s: Step, i: nat)
    requires Run(trace) && n < |trace| && s.Process? && Enabled(trace[n], s)
    requires i < |trace[n].effects| && trace[n].effects[i].key == KeyOf(s.c) && CreatedAt(s.c) <= trace[n].effects[i].at
    ensures Apply(trace[n], s).effects == trace[n].effects
  {
    RunKeepsInv(trace, n);
    OldProcessAddsNothing(trace[n], s, i);
  }

  /**
   * Every row is waiting, published or taken back by a replay; appends are published ones plus
   * rollbacks and lost replies.
   */
  lemma {:induction false} OutboxConserved(trace: seq<World>, n: nat, row: nat)
    requires Run(trace) && n < |trace| && row < |trace[n].letters|
    ensures Conserved(trace[n], row)
    ensures trace[n].accounts[row].rollbacks == 0 && trace[n].accounts[row].lost == 0 ==>
              multiset(trace[n].events)[row] <= 1
    ensures row in trace[n].outbox && trace[n].outbox[row].published.Some? ==> multiset(trace[n].events)[row] >= 1
  {
    RunKeepsInv(trace, n);
  }

  /** Replies sent from one life of a receipt carry one result, and it is the one the receipt holds. */
  lemma {:induction false} ReplyAgreement(trace: seq<World>, n: nat, i: nat, j: nat)
    requires Run(trace) && n < |trace| && i < |trace[n].letters| && j < |trace[n].letters|
    ensures SameReply(trace[n].letters[i], trace[n].letters[j]) && Agrees(trace[n], trace[n].letters[i])
  {
    RunKeepsInv(trace, n);
  }

  lemma {:induction false} ProcessedReceipt(w: World, s: Step)
    requires ReceiptInv(w) && CanProcess(w, s)
    ensures var v, n := Processed(w, s), |w.letters|;
            && |v.letters| == n + 1
            && if Conflicts(w, s.c) then v.receipts == w.receipts && v.effects == w.effects
               else
                 && KeyOf(s.c) in v.receipts && v.letters[n].mail.ResultMail?
                 && v.receipts[KeyOf(s.c)].result == Some(v.letters[n].mail.result)
                 && (Upserted(w, s.c).result.Some? ==>
                     v.receipts[KeyOf(s.c)].result == Upserted(w, s.c).result && v.effects == w.effects)
  {
    var c := s.c;
    if Conflicts(w, c) {
    } else if Upserted(w, c).result.Some? {
      assert SoundReceipt(w, w.receipts[KeyOf(c)]);
    } else {
    }
  }

  lemma {:induction false} ProcessedAddress(w: World, s: Step)
    requires Settles(w, s)
    ensures var v, n := Processed(w, s), |w.letters|;
            |v.letters| == n + 1 && Answers(v.letters[n].mail, s.c) && v.letters[n].mail.user == s.c.user
  {
    var c, receipt := s.c, Upserted(w, s.c);
    if Conflicts(w, c) {
      StoredReply(Unlocked(w, c), c, ResultWire(CONFLICT), Conflicting);
    } else if receipt.result.Some? {
      StoredReply(Touched(w, c), c, Replayed(receipt.result.value), FromReceipt(receipt.life, FingerprintOf(c)));
    } else {
      var result := ResultWire(Decision(w, s).fields);
      StoredReply(Decided(w, s, result), c, result, FromReceipt(receipt.life, FingerprintOf(c)));
    }
  }

  lemma {:induction false} StoredReply(w: World, c: Command, result: Wire, origin: Origin)
    ensures var v, n := Store(w, Letter(Reply(c, result), origin)), |w.letters|;
            |v.letters| == n + 1 && Answers(v.letters[n].mail, c) && v.letters[n].mail.user == c.user
  {
  }

  /**
   * An authenticated delivery is answered for its own socket and request, with the receipt's
   * result if the input matches.
   */
  lemma {:induction false} ProcessAnswers(w: World, s: Step)
    requires Inv(w) && s.Process? && Enabled(w, s)
    ensures var v, n := Apply(w, s), |w.letters|;
            && |v.letters| == n + 1 && Answers(v.letters[n].mail, s.c) && v.letters[n].mail.user == s.c.user
            && (if Conflicts(w, s.c) then v.receipts == w.receipts && v.effects == w.effects
                else
                  && KeyOf(s.c) in v.receipts && v.receipts[KeyOf(s.c)].result == Some(v.letters[n].mail.result)
                  && (Upserted(w, s.c).result.Some? ==>
                      v.receipts[KeyOf(s.c)].result == Upserted(w, s.c).result && v.effects == w.effects))
  {
    ProcessedAddress(w, s);
    ProcessedReceipt(w, s);
  }

  /** A delivery is answered: by the transaction if its session resolves, else with an authentication error. */
  predicate AnswersDelivery(s: Step) {
    s.Process? || s.Deny?
  }

  /**
   * Reply agreement for every delivery whose user and input match a receipt that holds a result:
   * the stored reply carries that result if and only if the session resolved, or the result is
   * itself the text of the authentication error.
   */
  lemma {:induction false} ReplyIsStoredIff(trace: seq<World>, n: nat, s: Step)
    requires Run(trace) && n < |trace| && AnswersDelivery(s) && Enabled(trace[n], s) && ValidCommand(s.c)
    requires !Conflicts(trace[n], s.c) && KeyOf(s.c) in trace[n].receipts && trace[n].receipts[KeyOf(s.c)].result.Some?
    ensures var w, v := trace[n], Apply(trace[n], s);
            var stored, k := w.receipts[KeyOf(s.c)].result, |w.letters|;
            && |v.letters| == k + 1 && Answers(v.letters[k].mail, s.c) && v.letters[k].mail.user == s.c.user
            && KeyOf(s.c) in v.receipts && v.receipts[KeyOf(s.c)].result == stored && v.effects == w.effects
            && (Some(v.letters[k].mail.result) == stored <==> s.Process? || stored == Some(ResultWire(DENIED)))
  {
    RunKeepsInv(trace, n);
    if s.Process? {
      ProcessAnswers(trace[n], s);
    } else {
      StoredReply(trace[n], s.c, ResultWire(DENIED), Unauthenticated);
    }
  }

  /** Input conflicts exactly when the user, the command name or the JSON payload differs from the receipt's. */
  lemma {:induction false} ConflictIsDifferentInput(w: World, first: Command, c: Command)
    requires ValidCommand(first) && ValidCommand(c) && KeyOf(c) in w.receipts
    requires w.receipts[KeyOf(c)].fingerprint == FingerprintOf(first) && w.receipts[KeyOf(c)].user == first.user
    ensures WellFormed(PayloadObject(first.payload)) && WellFormed(PayloadObject(c.payload))
    ensures Conflicts(w, c) <==>
              !(c.user == first.user && c.name == first.name
                && Says(PayloadObject(c.payload)) == Says(PayloadObject(first.payload)))
  {
    FingerprintDecidesInput(first.name, first.payload, c.name, c.payload);
  }

  /** A waiting result keeps its receipt: maintenance never drops the evidence first. */
  lemma {:induction false} WaitingResultHasReceipt(trace: seq<World>, n: nat, row: nat)
    requires Run(trace) && n < |trace| && Unpublished(trace[n], row) && row < |trace[n].letters|
             && trace[n].letters[row].origin.FromReceipt?
    ensures var l, w := trace[n].letters[row], trace[n];
            && LetterKey(l.mail).Some? && LetterKey(l.mail).value in w.receipts
            && w.receipts[LetterKey(l.mail).value].result == Some(l.mail.result)
  {
    RunKeepsInv(trace, n);
    assert Evidenced(trace[n], row) && Agrees(trace[n], trace[n].letters[row]);
  }

  // ----------------------------------------------------- no command is lost

  lemma {:induction false} RunKeepsQueue(trace: seq<World>, n: nat)
    requires Run(trace) && n < |trace|
    requires forall i :: 0 <= i < n ==> ConsumerFirst(trace[i])
    ensures QueueInv(trace[n])
  {
    if n > 0 {
      RunKeepsQueue(trace, n - 1);
      assert Linked(trace, n) && ConsumerFirst(trace[n - 1]);
      var s :| Enabled(trace[n - 1], s) && trace[n] == Apply(trace[n - 1], s);
      QueueStep(trace[n - 1], s);
    }
  }

  lemma {:induction false} SubmittedNext(w: World, v: World)
    requires SubmittedInv(w) && w.commands.Valid() && Next(w, v)
    ensures SubmittedInv(v) && v.commands.Valid()
  {
    var s :| Enabled(w, s) && v == Apply(w, s);
    SubmittedStep(w, s);
    StreamStep(w, s);
  }

  lemma {:induction false} RunKeepsSubmissions(trace: seq<World>, n: nat)
    requires Run(trace) && n < |trace|
    ensures SubmittedInv(trace[n]) && trace[n].commands.Valid()
  {
    if n > 0 {
      RunKeepsSubmissions(trace, n - 1);
      assert Linked(trace, n);
      SubmittedNext(trace[n - 1], trace[n]);
    }
  }

  /** Every command ever appended is unread, pending, answered or buried, when the consumers' group is created first. */
  lemma {:induction false} NoCommandLost(trace: seq<World>, n: nat, i: nat)
    requires Run(trace) && n < |trace| && i < |trace[n].submitted|
    requires forall k :: 0 <= k < n ==> ConsumerFirst(trace[k])
    ensures Outstanding(trace[n], trace[n].submitted[i]) || Resolved(trace[n], trace[n].submitted[i])
  {
    RunKeepsQueue(trace, n);
  }

  // ------------------------------------------------------------- witnesses

  lemma {:induction false} Took(trace: seq<World>, s: Step) returns (longer: seq<World>)
    requires Run(trace) && Enabled(trace[|trace| - 1], s)
    ensures longer == trace + [Apply(trace[|trace| - 1], s)] && Run(longer)
  {
    longer := trace + [Apply(trace[|trace| - 1], s)];
    RunExtends(trace, s);
  }

  /** Two commands, and one group on the stream. */
  function Appended(body: Body, name: string, group: Group): Stream<Body> {
    Stream([Entry(1, body), Entry(2, body)], map[name := group], 2)
  }

  const UNREAD := Group(0, map[])
  const READ := Group(2, map[1 := 1, 2 := 1])
  const ACKED := Group(2, map[2 := 1])

  lemma {:induction false} AuditRead(s: Stream<Body>, body: Body, g: string)
    requires s == Appended(body, g, UNREAD)
    ensures Deliver(s, g, 2) == Appended(body, g, READ)
  {
    assert Below(s.entries, 1) == 0;
    assert Unread(s, g, 2) == s.entries;
    assert Deliver(s, g, 2).groups[g].pending == READ.pending;
    assert Deliver(s, g, 2).groups == map[g := READ];
  }

  lemma {:induction false} AuditAcked(s: Stream<Body>, body: Body, g: string)
    requires s == Appended(body, g, READ)
    ensures Ack(s, g, 1) == Appended(body, g, ACKED)
  {
    var t := Ack(s, g, 1);
    assert t.groups[g].pending == ACKED.pending;
    assert t.groups == map[g := ACKED];
  }

  /** Two commands were appended, and nothing was answered or buried. */
  predicate Unanswered(w: World, body: Body) {
    w.submitted == [Entry(1, body), Entry(2, body)] && w.dead == [] && w.letters == []
  }

  lemma {:induction false} TwoCommands(body: Body, g: string) returns (trace: seq<World>)
    ensures Run(trace) && FirstGroup(trace, g) && Unanswered(trace[|trace| - 1], body)
            && trace[|trace| - 1].commands == Appended(body, g, UNREAD)
  {
    trace := [Start(0, 1)];
    trace := Took(trace, Submit(1, body));
    trace := Took(trace, Submit(2, body));
    trace := Took(trace, AddGroup(g));
  }

  lemma {:induction false} ReadCommands(body: Body, g: string) returns (trace: seq<World>)
    ensures Run(trace) && FirstGroup(trace, g) && Unanswered(trace[|trace| - 1], body)
            && trace[|trace| - 1].commands == Appended(body, g, READ)
  {
    trace := TwoCommands(body, g);
    AuditRead(trace[|trace| - 1].commands, body, g);
    trace := Took(trace, Read(g, 2));
  }

  lemma {:induction false} AuditedCommands(body: Body, g: string) returns (trace: seq<World>)
    requires g != GROUP
    ensures Run(trace) && FirstGroup(trace, g) && Unanswered(trace[|trace| - 1], body)
            && trace[|trace| - 1].commands == Appended(body, g, ACKED)
  {
    trace := ReadCommands(body, g);
    AuditAcked(trace[|trace| - 1].commands, body, g);
    trace := Took(trace, Acknowledge(g, 1));
  }

  /** Any foreign group that reads first and alone lets the script remove a command nobody answered. */
  lemma {:induction false} ForeignGroupLosesCommand(body: Body, g: string) returns (trace: seq<World>)
    requires g != GROUP
    ensures Run(trace) && FirstGroup(trace, g) && |trace[|trace| - 1].submitted| == 2
    ensures var w := trace[|trace| - 1];
            g in w.commands.groups && !Outstanding(w, w.submitted[0]) && !Resolved(w, w.submitted[0])
  {
    trace := AuditedCommands(body, g);
    var w := trace[|trace| - 1];
    BelowAt(w.commands.entries, 1);
    assert g in w.commands.groups && Unneeded(w.commands, 2, 2);
    trace := Took(trace, TrimCommands(2, 2, 1));
    assert trace[|trace| - 1].commands.entries == [Entry(2, body)];
  }

  /** The commands stream has had this group for as long as it has had any. */
  ghost predicate FirstGroup(trace: seq<World>, g: string) {
    forall n :: 0 <= n < |trace| ==> trace[n].commands.groups == map[] || g in trace[n].commands.groups
  }

  /** A command that was appended is neither to be read or acknowledged nor answered or buried. */
  ghost predicate Lost(w: World) {
    exists i :: 0 <= i < |w.submitted| && !Outstanding(w, w.submitted[i]) && !Resolved(w, w.submitted[i])
  }

  /** A run in which this group came first, and a command is lost. */
  ghost predicate LosesUnder(trace: seq<World>, g: string) {
    && Run(trace) && FirstGroup(trace, g)
    && g in trace[|trace| - 1].commands.groups && Lost(trace[|trace| - 1])
  }

  /**
   * The exact condition: which group was created first on the commands stream decides whether a
   * command can be lost.
   */
  lemma {:induction false} FirstGroupDecides(g: string)
    ensures (exists trace: seq<World> :: LosesUnder(trace, g)) <==> g != GROUP
  {
    if g != GROUP {
      var trace := ForeignGroupLosesCommand(Malformed, g);
      var w := trace[|trace| - 1];
      assert !Outstanding(w, w.submitted[0]) && !Resolved(w, w.submitted[0]);
      assert LosesUnder(trace, g);
    } else {
      forall trace: seq<World> ensures !LosesUnder(trace, g) {
        if LosesUnder(trace, g) {
          forall k | 0 <= k < |trace| - 1 ensures ConsumerFirst(trace[k]) {
            assert trace[k].commands.groups == map[] || g in trace[k].commands.groups;
          }
          RunKeepsQueue(trace, |trace| - 1);
        }
      }
    }
  }

  // --------------------------------------------------- the clock tolerance

  /** A run in which one command has an effect decided at `at`, and then a second one by a delivery of `created`. */
  ghost predicate TwoEffects(trace: seq<World>, i: nat, j: nat, retention: nat, key: ReceiptKey, at: int,
                             created: int) {
    && Run(trace) && trace[0].retention == retention
    && i < j < |trace[|trace| - 1].effects|
    && var es := trace[|trace| - 1].effects;
       es[i].key == key == es[j].key && es[i].at == at && es[j].created == created
  }

  /** A command that would succeed whenever it is inside the window. */
  predicate Plain(c: Command, created: int, data: Value) {
    && ValidCommand(c) && c.created == Some(created) && c.expires.NoExpiry?
    && WellFormedHandled(Returns(data))
  }

  function Attempted(c: Command, data: Value): Step {
    Process(c, None, false, Returns(data))
  }

  function Success(data: Value): Wire {
    ResultWire(OkFields(data))
  }

  lemma {:induction false} Locks(trace: seq<World>, c: Command) returns (longer: seq<World>)
    requires Run(trace) && trace[|trace| - 1].held == map[]
    ensures Run(longer) && longer[0] == trace[0]
            && longer[|longer| - 1] == trace[|trace| - 1].(held := map[KeyOf(c) := trace[|trace| - 1].clock])
  {
    longer := Took(trace, Lock(KeyOf(c)));
  }

  /** Taking the receipt and committing the handler's effect. */
  lemma {:induction false} Succeeds(trace: seq<World>, c: Command, created: int, data: Value)
    returns (longer: seq<World>)
    requires Run(trace) && Plain(c, created, data)
    requires var w := trace[|trace| - 1];
             && w.held == map[] && w.receipts == map[] && w.clock - w.retention <= created <= w.clock + TOLERANCE
    ensures Run(longer) && longer[0] == trace[0]
    ensures var w, v, key := trace[|trace| - 1], longer[|longer| - 1], KeyOf(c);
            && v.held == map[] && v.clock == w.clock && v.retention == w.retention && v.busy == w.busy
            && v.receipts == map[key :=
              Receipt(FingerprintOf(c), c.user, Some(Success(data)), w.clock, w.lives, w.lives)]
            && v.effects == w.effects + [Effect(key, created, w.clock, w.lives, Success(data))]
            && v.letters == w.letters + [Letter(Reply(c, Success(data)), FromReceipt(w.lives, FingerprintOf(c)))]
            && v.outbox == w.outbox[|w.letters| := Row(0, w.clock, None)]
            && v.accounts == w.accounts[|w.letters| := Account(false, false, 0, 0)]
  {
    longer := Locks(trace, c);
    var w := longer[|longer| - 1];
    assert Decision(w, Attempted(c, data)) == Effective(OkFields(data));
    longer := Took(longer, Attempted(c, data));
    assert w.held - {KeyOf(c)} == map[];
  }

  /** The result is published and the receipt outlives its retention. */
  lemma {:induction false} Forgotten(trace: seq<World>, c: Command) returns (longer: seq<World>)
    requires Run(trace)
    requires var w, key := trace[|trace| - 1], KeyOf(c);
             && w.held == map[] && w.busy == map[] && w.receipts.Keys == {key} && w.receipts[key].result.Some?
             && w.receipts[key].updated == w.clock
             && |w.letters| == 1 && w.outbox == map[0 := Row(0, w.clock, None)] && 0 in w.accounts
    ensures Run(longer) && longer[0] == trace[0]
    ensures var w, v := trace[|trace| - 1], longer[|longer| - 1];
            && v.held == map[] && v.receipts == map[] && v.effects == w.effects && v.retention == w.retention
            && v.clock == w.clock + w.retention + 1
  {
    var w, key := trace[|trace| - 1], KeyOf(c);
    longer := Took(trace, RelayLock(0));
    longer := Took(longer, RelayAppend(0));
    longer := Took(longer, RelayCommit(0));
    longer := Took(longer, Tick(w.retention + 1));
    var v := longer[|longer| - 1];
    assert v.outbox[0].published.Some? && v.outbox.Keys == {0};
    longer := Took(longer, PruneReceipt(key, v.clock));
    assert v.receipts - {key} == map[];
  }

  /** Within the tolerance, a delivery stamped after the first effect runs again once its receipt is gone. */
  lemma {:induction false} ToleranceAllowsSecond(retention: nat, at: int, c: Command, created: int, data: Value)
    returns (trace: seq<World>)
    requires Plain(c, created, data) && at < created <= at + TOLERANCE
    ensures TwoEffects(trace, 0, 1, retention, KeyOf(c), at, created)
  {
    trace := [Start(at, retention)];
    trace := Succeeds(trace, c, created, data);
    trace := Forgotten(trace, c);
    trace := Succeeds(trace, c, created, data);
  }

  /**
   * The exact condition. For a command inside the window when its first effect is decided, a
   * delivery with the same stamp can have a second effect if and only if the stamp lies in the future.
   */
  lemma {:induction false} SecondEffectIff(retention: nat, at: int, c: Command, created: int, data: Value)
    requires Plain(c, created, data) && at - retention <= created <= at + TOLERANCE
    ensures (exists trace: seq<World>, i: nat, j: nat :: TwoEffects(trace, i, j, retention, KeyOf(c), at, created)) <==>
              at < created
  {
    if at < created {
      var trace := ToleranceAllowsSecond(retention, at, c, created, data);
      assert TwoEffects(trace, 0, 1, retention, KeyOf(c), at, created);
    } else {
      forall trace: seq<World>, i: nat, j: nat ensures !TwoEffects(trace, i, j, retention, KeyOf(c), at, created) {
        if TwoEffects(trace, i, j, retention, KeyOf(c), at, created) {
          AtMostOnceEffect(trace, |trace| - 1, i, j);
        }
      }
    }
  }

  // ------------------------------------------------------- further witnesses

  /** The first field of a result, on the wire. */
  lemma {:induction false} FirstField(fs: seq<(Key, Value)>, ok: bool)
    requires |fs| > 0 && fs[0] == (StrKey("ok"), Atom(Bool(ok)))
    ensures var w := ResultWire(fs); w.WObject? && |w.fields| > 0 && w.fields[0] == ("ok", WAtom(Bool(ok)))
  {
    var x := ResultFields(fs);
    assert x[0] == fs[0] && x[0].0 != IntKey(0);
    assert !IsList(x);
    assert Encode(Arr(x)).fields[0] == (KeyText(x[0].0), Encode(x[0].1));
  }

  lemma {:induction false} OkIsNoError(data: Value)
    ensures Success(data) != ResultWire(DENIED)
  {
    FirstField(OkFields(data), true);
    FirstField(DENIED, false);
  }

  /** A run in which a matching delivery without a session is answered with something else than its receipt holds. */
  lemma {:induction false} DeniedReplyDiffers(c: Command, created: int, data: Value) returns (trace: seq<World>)
    requires Plain(c, created, data)
    ensures Run(trace)
    ensures var w, key := trace[|trace| - 1], KeyOf(c);
            && !Conflicts(w, c) && key in w.receipts && w.receipts[key].result == Some(Success(data))
            && |w.letters| == 2 && Answers(w.letters[1].mail, c)
            && Some(w.letters[1].mail.result) != w.receipts[key].result
  {
    trace := [Start(created, 0)];
    trace := Succeeds(trace, c, created, data);
    trace := Took(trace, Deny(c));
    OkIsNoError(data);
  }

  /** The one row a run has stored so far: not yet published, and with these failures. */
  predicate Alone(w: World, event: string, attempts: nat, lost: nat) {
    && w.letters == [Letter(Emission(event), Application)] && w.busy == map[]
    && w.outbox == map[0 := Row(attempts, w.clock, None)] && w.accounts == map[0 := Account(false, false, 0, lost)]
  }

  lemma {:induction false} StoresOne(event: string) returns (trace: seq<World>)
    ensures Run(trace) && Alone(trace[|trace| - 1], event, 0, 0) && trace[|trace| - 1].events == []
  {
    trace := [Start(0, 0)];
    trace := Took(trace, Emit(event));
  }

  lemma {:induction false} LosesReply(event: string) returns (trace: seq<World>)
    ensures Run(trace) && Alone(trace[|trace| - 1], event, 1, 1) && trace[|trace| - 1].events == [0]
  {
    trace := StoresOne(event);
    trace := Took(trace, RelayLock(0));
    trace := Took(trace, RelayFail(0, 0, true));
    assert map[0 := false] - {0} == map[];
  }

  lemma {:induction false} Publishes(trace: seq<World>, event: string) returns (longer: seq<World>)
    requires Run(trace) && Alone(trace[|trace| - 1], event, 1, 1)
    ensures Run(longer)
    ensures var w, v := trace[|trace| - 1], longer[|longer| - 1];
            && v.events == w.events + [0] && v.letters == w.letters && 0 in v.accounts
            && v.accounts[0] == Account(true, false, 0, 1)
  {
    longer := Took(trace, RelayLock(0));
    longer := Took(longer, RelayAppend(0));
    longer := Took(longer, RelayCommit(0));
  }

  /** A run in which Redis took an entry but its reply was lost: the row is appended twice, with no rollback. */
  lemma {:induction false} LostReplyAppendsTwice(event: string) returns (trace: seq<World>)
    ensures Run(trace)
    ensures var w := trace[|trace| - 1];
            && w.events == [0, 0] && w.letters == [Letter(Emission(event), Application)]
            && 0 in w.accounts && w.accounts[0] == Account(true, false, 0, 1)
  {
    trace := LosesReply(event);
    trace := Publishes(trace, event);
  }
}
