/** What every step of the command pipeline keeps. */
module BridgeInvariants {
  import opened Json
  import opened JsonEnvelope
  import opened Options
  import opened RedisStream
  import opened StreamRetention
  import opened CommandModel
  import opened BridgeState

  // -------------------------------------------------------------- receipts

  ghost predicate ReceiptInv(w: World) {
    && (forall k :: k in w.held ==> w.held[k] <= w.clock)
    && forall k :: k in w.receipts ==> SoundReceipt(w, w.receipts[k])
  }

  ghost predicate SoundReceipt(w: World, r: Receipt) {
    && r.generation < w.lives && r.life < w.lives && r.updated <= w.clock
    && (r.result.Some? ==> Replayable(r.result.value))
  }

  /** A decision's result can be replayed; a successful one is never transient. */
  lemma {:induction false} DecisionResult(w: World, s: Step)
    requires CanProcess(w, s) && !Decision(w, s).Failed?
    ensures Replayable(ResultWire(Decision(w, s).fields))
    ensures Decision(w, s).Effective? ==> !IsTransient(ResultWire(Decision(w, s).fields))
    ensures Decision(w, s).Effective? ==>
              s.c.created.Some? && w.held[KeyOf(s.c)] - w.retention <= CreatedAt(s.c) <= w.held[KeyOf(s.c)] + TOLERANCE
  {
    FieldsWellFormed(s.c, w.held[KeyOf(s.c)], w.retention, s.lifetime, s.forced, s.handled);
    FreshIsReplayable(Decision(w, s).fields);
    if Decision(w, s).Effective? {
      SuccessIsNotTransient(s.handled.data);
    }
  }

  lemma {:induction false} ReceiptProcess(w: World, s: Step)
    requires ReceiptInv(w) && CanProcess(w, s)
    ensures ReceiptInv(Processed(w, s))
  {
    hide Replayable, Decision, FingerprintOf;
    if Conflicts(w, s.c) {
    } else if Upserted(w, s.c).result.Some? {
    } else {
      DecisionResult(w, s);
    }
  }

  lemma {:induction false} ReceiptStep(w: World, s: Step)
    requires ReceiptInv(w) && Enabled(w, s)
    ensures ReceiptInv(Apply(w, s))
  {
    if s.Process? {
      ReceiptProcess(w, s);
    }
  }

  // --------------------------------------------------------------- effects

  /** The time by which a receipt's transaction, if one is open, made its checks. */
  function Horizon(w: World, key: ReceiptKey): int {
    if key in w.held then w.held[key] else w.clock
  }

  /** An effect is evidenced by its receipt, or too old for any delivery made before it. */
  ghost predicate Guarded(w: World, e: Effect) {
    if e.key in w.receipts && w.receipts[e.key].generation == e.generation then
      w.receipts[e.key].result == Some(e.result) && e.at <= w.receipts[e.key].updated
    else
      e.at < Horizon(w, e.key) - w.retention
  }

  ghost predicate EffectInv(w: World) {
    && (forall i :: 0 <= i < |w.effects| ==> Guarded(w, w.effects[i]))
    && (forall i :: 0 <= i < |w.effects| ==> w.effects[i].generation < w.lives && !IsTransient(w.effects[i].result))
    && forall i, j :: 0 <= i < j < |w.effects| && w.effects[i].key == w.effects[j].key ==>
                        w.effects[i].generation != w.effects[j].generation && w.effects[i].at < w.effects[j].created
  }

  lemma {:induction false} EffectStep(w: World, s: Step)
    requires ReceiptInv(w) && EffectInv(w) && Enabled(w, s)
    ensures EffectInv(Apply(w, s))
  {
    var v := Apply(w, s);
    if s.Process? {
      EffectProcess(w, s);
    } else {
      assert v.effects == w.effects && w.lives <= v.lives;
      forall i | 0 <= i < |w.effects| ensures Guarded(v, w.effects[i]) {
        EffectGuarded(w, s, i);
      }
    }
  }

  /** No step but processing touches the evidence of an effect while a delivery made before it may come. */
  lemma {:induction false} EffectGuarded(w: World, s: Step, i: nat)
    requires ReceiptInv(w) && EffectInv(w) && Enabled(w, s) && !s.Process? && i < |w.effects|
    ensures Guarded(Apply(w, s), w.effects[i])
  {
    var e := w.effects[i];
    assert Guarded(w, e);
    if s.PruneReceipt? {
      EffectPruned(w, s, e);
    } else if s.Release? {
      EffectReleased(w, s, e);
    } else {
      ReceiptsStay(w, s, e.key);
      EffectUntouched(w, Apply(w, s), e);
    }
  }

  /** Any other step leaves the receipts alone, and time goes on. */
  lemma {:induction false} ReceiptsStay(w: World, s: Step, key: ReceiptKey)
    requires ReceiptInv(w) && Enabled(w, s) && !s.Process? && !s.PruneReceipt? && !s.Release?
    ensures var v := Apply(w, s);
            v.receipts == w.receipts && v.retention == w.retention && Horizon(w, key) <= Horizon(v, key)
  {
    if s.Tick? {
    } else if s.Lock? {
    } else if s.Rollback? {
    } else {
    }
  }

  /** A receipt is pruned only when no delivery made before its effect can come. */
  lemma {:induction false} EffectPruned(w: World, s: Step, e: Effect)
    requires Enabled(w, s) && s.PruneReceipt? && Guarded(w, e)
    ensures Guarded(Apply(w, s), e)
  {
  }

  /** Replay releases no result that had an effect. */
  lemma {:induction false} EffectReleased(w: World, s: Step, e: Effect)
    requires Enabled(w, s) && s.Release? && Guarded(w, e) && !IsTransient(e.result)
    ensures Guarded(Apply(w, s), e)
  {
  }

  lemma {:induction false} EffectUntouched(w: World, v: World, e: Effect)
    requires Guarded(w, e) && v.receipts == w.receipts && v.retention == w.retention
             && Horizon(w, e.key) <= Horizon(v, e.key)
    ensures Guarded(v, e)
  {
  }

  lemma {:induction false} EffectProcess(w: World, s: Step)
    requires ReceiptInv(w) && EffectInv(w) && CanProcess(w, s)
    ensures EffectInv(Processed(w, s))
  {
    var c, receipt := s.c, Upserted(w, s.c);
    if Conflicts(w, c) {
      EffectUnlocked(w, c);
      EffectStored(Unlocked(w, c), Letter(Reply(c, ResultWire(CONFLICT)), Conflicting));
    } else if receipt.result.Some? {
      EffectTouched(w, c);
      EffectStored(Touched(w, c),
                   Letter(Reply(c, Replayed(receipt.result.value)), FromReceipt(receipt.life, FingerprintOf(c))));
    } else {
      var result := ResultWire(Decision(w, s).fields);
      DecisionResult(w, s);
      EffectDecided(w, s, result);
      EffectStored(Decided(w, s, result), Letter(Reply(c, result), FromReceipt(receipt.life, FingerprintOf(c))));
    }
  }

  lemma {:induction false} EffectUnlocked(w: World, c: Command)
    requires ReceiptInv(w) && EffectInv(w)
    ensures EffectInv(Unlocked(w, c))
  {
    forall i | 0 <= i < |w.effects| ensures Guarded(Unlocked(w, c), w.effects[i]) {
      assert Guarded(w, w.effects[i]);
    }
  }

  lemma {:induction false} EffectTouched(w: World, c: Command)
    requires ReceiptInv(w) && EffectInv(w) && KeyOf(c) in w.receipts
    ensures EffectInv(Touched(w, c))
  {
    forall i | 0 <= i < |w.effects| ensures Guarded(Touched(w, c), w.effects[i]) {
      assert Guarded(w, w.effects[i]);
    }
  }

  lemma {:induction false} EffectStored(w: World, l: Letter)
    requires EffectInv(w)
    ensures EffectInv(Store(w, l))
  {
    forall i | 0 <= i < |w.effects| ensures Guarded(Store(w, l), w.effects[i]) {
      assert Guarded(w, w.effects[i]);
    }
  }

  /** The heart of at-most-once: an undecided receipt leaves no earlier effect this delivery could repeat. */
  lemma {:induction false} EffectDecided(w: World, s: Step, result: Wire)
    requires s.Process? && ReceiptInv(w) && EffectInv(w) && ValidCommand(s.c) && KeyOf(s.c) in w.held
    requires Upserted(w, s.c).result.None?
    requires Decision(w, s).Effective? ==> !IsTransient(result) && w.held[KeyOf(s.c)] - w.retention <= CreatedAt(s.c)
    ensures EffectInv(Decided(w, s, result))
  {
    var v, key := Decided(w, s, result), KeyOf(s.c);
    forall i | 0 <= i < |w.effects|
      ensures Guarded(v, w.effects[i])
      ensures w.effects[i].key == key ==>
                w.effects[i].generation != Upserted(w, s.c).generation && w.effects[i].at < w.held[key] - w.retention
    {
      assert Guarded(w, w.effects[i]);
    }
  }

  // --------------------------------------------------------------- replies

  ghost predicate Agrees(w: World, l: Letter) {
    l.origin.FromReceipt? ==>
      && l.mail.ResultMail? && l.origin.life < w.lives
      && forall k :: k in w.receipts && w.receipts[k].life == l.origin.life ==>
           && LetterKey(l.mail) == Some(k) && w.receipts[k].result == Some(l.mail.result)
           && w.receipts[k].fingerprint == l.origin.fingerprint && w.receipts[k].user == l.mail.user
  }

  /** Two replies from one receipt life are the same reply, whatever socket each went to. */
  ghost predicate SameReply(a: Letter, b: Letter) {
    a.origin.FromReceipt? && b.origin.FromReceipt? && a.origin.life == b.origin.life ==>
      && a.mail.ResultMail? && b.mail.ResultMail?
      && LetterKey(a.mail) == LetterKey(b.mail) && a.mail.result == b.mail.result
      && a.origin.fingerprint == b.origin.fingerprint && a.mail.user == b.mail.user
  }

  ghost predicate LetterInv(w: World) {
    && (forall i :: 0 <= i < |w.letters| ==> Agrees(w, w.letters[i]))
    && (forall k, l :: k in w.receipts && l in w.receipts && w.receipts[k].life == w.receipts[l].life ==> k == l)
    && forall i, j :: 0 <= i < |w.letters| && 0 <= j < |w.letters| ==> SameReply(w.letters[i], w.letters[j])
  }

  lemma {:induction false} LetterStep(w: World, s: Step)
    requires ReceiptInv(w) && LetterInv(w) && Enabled(w, s)
    ensures LetterInv(Apply(w, s))
  {
    if s.Process? {
      LetterProcess(w, s);
    } else {
      LetterOther(w, s);
    }
  }

  lemma {:induction false} LetterOther(w: World, s: Step)
    requires ReceiptInv(w) && LetterInv(w) && Enabled(w, s) && !s.Process?
    ensures LetterInv(Apply(w, s))
  {
    var v := Apply(w, s);
    if s.Deny? {
      LetterStored(w, Letter(Reply(s.c, ResultWire(DENIED)), Unauthenticated));
    } else if s.Emit? {
      LetterStored(w, Letter(Emission(s.event), Application));
    } else if s.PruneReceipt? || s.Release? {
      LetterRemoved(w, s);
    } else {
      LetterReceipts(w, v);
    }
  }

  lemma {:induction false} LetterRemoved(w: World, s: Step)
    requires ReceiptInv(w) && LetterInv(w) && Enabled(w, s) && (s.PruneReceipt? || s.Release?)
    ensures LetterInv(Apply(w, s))
  {
    var v := Apply(w, s);
    forall k | k in w.receipts ensures w.receipts[k].life < w.lives {
      assert SoundReceipt(w, w.receipts[k]);
    }
    LetterReceipts(w, v);
  }

  /** Receipts may be dropped, or start a new life; the letters stay. */
  lemma {:induction false} LetterReceipts(w: World, v: World)
    requires LetterInv(w) && v.letters == w.letters && w.lives <= v.lives
    requires forall k :: k in v.receipts ==>
               k in w.receipts && v.receipts[k].fingerprint == w.receipts[k].fingerprint
                 && v.receipts[k].user == w.receipts[k].user &&
               ((v.receipts[k].life == w.receipts[k].life && v.receipts[k].result == w.receipts[k].result)
                || v.receipts[k].life == w.lives)
    requires ReceiptInv(w)
    requires forall k, l ::
               k in v.receipts && l in v.receipts && v.receipts[k].life == w.lives == v.receipts[l].life ==> k == l
    ensures LetterInv(v)
  {
    forall i | 0 <= i < |w.letters| ensures Agrees(v, w.letters[i]) {
      assert Agrees(w, w.letters[i]);
    }
    forall i, j | 0 <= i < |w.letters| && 0 <= j < |w.letters| ensures SameReply(v.letters[i], v.letters[j]) {
      assert SameReply(w.letters[i], w.letters[j]);
    }
  }

  lemma {:induction false} LetterStored(w: World, l: Letter)
    requires LetterInv(w) && Agrees(w, l)
    requires forall i :: 0 <= i < |w.letters| ==> SameReply(w.letters[i], l) && SameReply(l, w.letters[i])
    ensures LetterInv(Store(w, l))
  {
    var v := Store(w, l);
    forall i | 0 <= i < |v.letters| ensures Agrees(v, v.letters[i]) {
      assert Agrees(w, v.letters[i]);
    }
    forall i, j | 0 <= i < |v.letters| && 0 <= j < |v.letters| ensures SameReply(v.letters[i], v.letters[j]) {
      if i < |w.letters| && j < |w.letters| {
        assert SameReply(w.letters[i], w.letters[j]);
      }
    }
  }

  lemma {:induction false} LetterProcess(w: World, s: Step)
    requires ReceiptInv(w) && LetterInv(w) && CanProcess(w, s)
    ensures LetterInv(Processed(w, s))
  {
    var c, receipt := s.c, Upserted(w, s.c);
    if Conflicts(w, c) {
      LetterReceipts(w, Unlocked(w, c));
      LetterStored(Unlocked(w, c), Letter(Reply(c, ResultWire(CONFLICT)), Conflicting));
    } else if receipt.result.Some? {
      LetterTouched(w, c);
    } else {
      var result := ResultWire(Decision(w, s).fields);
      LetterDecided(w, s, result);
      LetterAnswered(Decided(w, s, result), c, result);
    }
  }

  /** A stored result is replayed. */
  lemma {:induction false} LetterTouched(w: World, c: Command)
    requires ReceiptInv(w) && LetterInv(w) && ValidCommand(c) && KeyOf(c) in w.receipts && !Conflicts(w, c)
             && w.receipts[KeyOf(c)].result.Some?
    ensures var receipt := w.receipts[KeyOf(c)];
            LetterInv(Store(Touched(w, c),
                            Letter(Reply(c, Replayed(receipt.result.value)),
                                   FromReceipt(receipt.life, FingerprintOf(c)))))
  {
    assert SoundReceipt(w, w.receipts[KeyOf(c)]);
    LetterReceipts(w, Touched(w, c));
    LetterAnswered(Touched(w, c), c, w.receipts[KeyOf(c)].result.value);
  }

  /** A first result: no letter has been sent from this life of the receipt. */
  lemma {:induction false} LetterDecided(w: World, s: Step, result: Wire)
    requires s.Process? && ReceiptInv(w) && LetterInv(w) && ValidCommand(s.c) && KeyOf(s.c) in w.held
    requires Upserted(w, s.c).result.None?
    ensures LetterInv(Decided(w, s, result))
  {
    var v := Decided(w, s, result);
    forall i | 0 <= i < |w.letters| ensures Agrees(v, w.letters[i]) {
      assert Agrees(w, w.letters[i]);
    }
    forall i, j | 0 <= i < |w.letters| && 0 <= j < |w.letters| ensures SameReply(v.letters[i], v.letters[j]) {
      assert SameReply(w.letters[i], w.letters[j]);
    }
  }

  /** A reply carrying the receipt's own result agrees with every reply of this life. */
  lemma {:induction false} LetterAnswered(w: World, c: Command, result: Wire)
    requires LetterInv(w) && ValidCommand(c) && KeyOf(c) in w.receipts && w.receipts[KeyOf(c)].life < w.lives
    requires w.receipts[KeyOf(c)].result == Some(result) && w.receipts[KeyOf(c)].fingerprint == FingerprintOf(c)
             && w.receipts[KeyOf(c)].user == c.user
    ensures LetterInv(Store(w, Letter(Reply(c, result), FromReceipt(w.receipts[KeyOf(c)].life, FingerprintOf(c)))))
  {
    var l := Letter(Reply(c, result), FromReceipt(w.receipts[KeyOf(c)].life, FingerprintOf(c)));
    assert Agrees(w, l);
    forall i | 0 <= i < |w.letters| ensures SameReply(w.letters[i], l) && SameReply(l, w.letters[i]) {
      assert Agrees(w, w.letters[i]);
    }
    LetterStored(w, l);
  }

  // ---------------------------------------------------------------- outbox

  /** Everything a row's deliveries add up to. */
  function Appends(a: Account): nat {
    (if a.published then 1 else 0) + a.rollbacks + a.lost
  }

  /** One outbox row: still waiting, or published, or removed by a replay; and every append accounted for. */
  ghost predicate Conserved(w: World, row: nat) {
    && row in w.accounts
    && (Unpublished(w, row) || w.accounts[row].published || w.accounts[row].released)
    && (row in w.outbox ==> (w.outbox[row].published.Some? <==> w.accounts[row].published))
    && (row in w.busy ==> Unpublished(w, row))
    && multiset(w.events)[row] == Appends(w.accounts[row]) + (if row in w.busy && w.busy[row] then 1 else 0)
  }

  ghost predicate MailInv(w: World) {
    && (forall row :: 0 <= row < |w.letters| ==> Conserved(w, row))
    && (forall row :: row in w.outbox || row in w.busy || row in w.events ==> row < |w.letters|)
  }

  lemma {:induction false} MailStored(w: World, l: Letter)
    requires MailInv(w)
    ensures MailInv(Store(w, l))
  {
    var v, n := Store(w, l), |w.letters|;
    assert n !in w.events;
    forall row | 0 <= row < |v.letters| ensures Conserved(v, row) {
      if row < n {
        assert Conserved(w, row);
      }
    }
  }

  lemma {:induction false} MailSame(w: World, v: World)
    requires MailInv(w) && v.letters == w.letters && v.accounts == w.accounts && v.outbox == w.outbox
             && v.busy == w.busy && v.events == w.events
    ensures MailInv(v)
  {
    forall row | 0 <= row < |v.letters| ensures Conserved(v, row) {
      assert Conserved(w, row);
    }
  }

  lemma {:induction false} MailStep(w: World, s: Step)
    requires MailInv(w) && Enabled(w, s)
    ensures MailInv(Apply(w, s))
  {
    var v := Apply(w, s);
    if s.Process? {
      MailProcess(w, s);
    } else if s.Deny? {
      MailStored(w, Letter(Reply(s.c, ResultWire(DENIED)), Unauthenticated));
    } else if s.Emit? {
      MailStored(w, Letter(Emission(s.event), Application));
    } else if s.PruneRow? || s.Release? {
      MailRemoved(w, s);
    } else if IsRelay(s) {
      MailRelay(w, s);
    } else {
      MailSame(w, v);
    }
  }

  lemma {:induction false} MailProcess(w: World, s: Step)
    requires MailInv(w) && Settles(w, s)
    ensures MailInv(Processed(w, s))
  {
    var c, receipt := s.c, Upserted(w, s.c);
    if Conflicts(w, c) {
      MailSame(w, Unlocked(w, c));
      MailStored(Unlocked(w, c), Letter(Reply(c, ResultWire(CONFLICT)), Conflicting));
    } else if receipt.result.Some? {
      MailSame(w, Touched(w, c));
      MailStored(Touched(w, c),
                 Letter(Reply(c, Replayed(receipt.result.value)), FromReceipt(receipt.life, FingerprintOf(c))));
    } else {
      var result := ResultWire(Decision(w, s).fields);
      MailSame(w, Decided(w, s, result));
      MailStored(Decided(w, s, result), Letter(Reply(c, result), FromReceipt(receipt.life, FingerprintOf(c))));
    }
  }

  lemma {:induction false} MailRemoved(w: World, s: Step)
    requires MailInv(w) && Enabled(w, s) && (s.PruneRow? || s.Release?)
    ensures MailInv(Apply(w, s))
  {
    var v := Apply(w, s);
    forall row | 0 <= row < |v.letters| ensures Conserved(v, row) {
      assert Conserved(w, row);
    }
  }

  /** The steps of a relay, each about one row. */
  predicate IsRelay(s: Step) {
    s.RelayLock? || s.RelayAppend? || s.RelayCommit? || s.RelayFail? || s.RelayRollback?
  }

  lemma {:induction false} MailRelay(w: World, s: Step)
    requires MailInv(w) && Enabled(w, s) && IsRelay(s)
    ensures MailInv(Apply(w, s))
  {
    var v := Apply(w, s);
    RelayFrame(w, s);
    assert s.row < |w.letters| && Conserved(w, s.row);
    MailRelayed(w, s);
    MailOtherRows(w, v, s.row);
  }

  /** What a relay step leaves alone. */
  lemma {:induction false} RelayFrame(w: World, s: Step)
    requires Enabled(w, s) && IsRelay(s)
    ensures var v := Apply(w, s);
            && v.letters == w.letters && v.accounts - {s.row} == w.accounts - {s.row}
            && v.outbox - {s.row} == w.outbox - {s.row} && v.busy - {s.row} == w.busy - {s.row}
            && (v.events == w.events || v.events == w.events + [s.row])
            && (s.row in v.outbox ==> s.row in w.outbox) && (s.row in v.busy ==> s.row in w.outbox || s.row in w.busy)
            && (s.row in w.outbox || s.row in w.busy)
  {
  }

  lemma {:induction false} MailOtherRows(w: World, v: World, relayed: nat)
    requires MailInv(w) && v.letters == w.letters && relayed < |w.letters| && Conserved(v, relayed)
    requires v.accounts - {relayed} == w.accounts - {relayed} && v.outbox - {relayed} == w.outbox - {relayed}
             && v.busy - {relayed} == w.busy - {relayed}
    requires v.events == w.events || v.events == w.events + [relayed]
    ensures MailInv(v)
  {
    forall row | 0 <= row < |v.letters| ensures Conserved(v, row) {
      if row != relayed {
        assert multiset(v.events)[row] == multiset(w.events)[row];
        MailElsewhere(w, v, relayed, row);
      }
    }
    forall row | row in v.outbox || row in v.busy || row in v.events ensures row < |v.letters| {
      if row != relayed {
        assert row in v.outbox ==> row in v.outbox - {relayed};
        assert row in v.busy ==> row in v.busy - {relayed};
      }
    }
  }

  /** The row a relay step is about. */
  lemma {:induction false} MailRelayed(w: World, s: Step)
    requires Enabled(w, s) && IsRelay(s) && Conserved(w, s.row)
    ensures Conserved(Apply(w, s), s.row)
  {
  }

  lemma {:induction false} MailElsewhere(w: World, v: World, relayed: nat, row: nat)
    requires Conserved(w, row) && row != relayed && multiset(v.events)[row] == multiset(w.events)[row]
    requires v.accounts - {relayed} == w.accounts - {relayed} && v.outbox - {relayed} == w.outbox - {relayed}
             && v.busy - {relayed} == w.busy - {relayed}
    ensures Conserved(v, row)
  {
    assert row in v.accounts - {relayed} && row in v.accounts && v.accounts[row] == w.accounts[row];
    assert row in v.outbox - {relayed} <==> row in w.outbox - {relayed};
    assert row in v.busy - {relayed} <==> row in w.busy - {relayed};
  }

  // ---------------------------------------------- evidence until published

  /** While a receipt's result waits to be published, the receipt is still there, in the same life. */
  ghost predicate Evidenced(w: World, row: nat) {
    Unpublished(w, row) && row < |w.letters| && w.letters[row].origin.FromReceipt? ==>
      && LetterKey(w.letters[row].mail).Some?
      && LetterKey(w.letters[row].mail).value in w.receipts
      && w.receipts[LetterKey(w.letters[row].mail).value].life == w.letters[row].origin.life
  }

  ghost predicate EvidenceInv(w: World) {
    forall row :: row in w.outbox ==> row < |w.letters| && Evidenced(w, row)
  }

  lemma {:induction false} EvidenceStored(w: World, l: Letter)
    requires EvidenceInv(w)
    requires l.origin.FromReceipt? ==>
               LetterKey(l.mail).Some? && LetterKey(l.mail).value in w.receipts
               && w.receipts[LetterKey(l.mail).value].life == l.origin.life
    ensures EvidenceInv(Store(w, l))
  {
    var v := Store(w, l);
    forall row | row in v.outbox ensures row < |v.letters| && Evidenced(v, row) {
      if row != |w.letters| {
        assert Evidenced(w, row);
      }
    }
  }

  /** Receipts that keep their lives keep the evidence. */
  lemma {:induction false} EvidenceSame(w: World, v: World)
    requires EvidenceInv(w) && v.letters == w.letters
    requires forall k :: k in w.receipts ==> k in v.receipts && v.receipts[k].life == w.receipts[k].life
    requires forall row ::
               row in v.outbox ==> row in w.outbox && (w.outbox[row].published.Some? ==> v.outbox[row].published.Some?)
    ensures EvidenceInv(v)
  {
    forall row | row in v.outbox ensures row < |v.letters| && Evidenced(v, row) {
      assert Evidenced(w, row);
    }
  }

  lemma {:induction false} EvidenceStep(w: World, s: Step)
    requires LetterInv(w) && EvidenceInv(w) && Enabled(w, s)
    ensures EvidenceInv(Apply(w, s))
  {
    var v := Apply(w, s);
    if s.Process? {
      EvidenceProcess(w, s);
    } else if s.Deny? {
      EvidenceStored(w, Letter(Reply(s.c, ResultWire(DENIED)), Unauthenticated));
    } else if s.Emit? {
      EvidenceStored(w, Letter(Emission(s.event), Application));
    } else if s.PruneReceipt? || s.Release? {
      EvidenceRemoved(w, s);
    } else {
      EvidenceSame(w, v);
    }
  }

  lemma {:induction false} EvidenceProcess(w: World, s: Step)
    requires EvidenceInv(w) && Settles(w, s)
    ensures EvidenceInv(Processed(w, s))
  {
    var c, receipt := s.c, Upserted(w, s.c);
    if Conflicts(w, c) {
      EvidenceSame(w, Unlocked(w, c));
      EvidenceStored(Unlocked(w, c), Letter(Reply(c, ResultWire(CONFLICT)), Conflicting));
    } else if receipt.result.Some? {
      EvidenceSame(w, Touched(w, c));
      EvidenceStored(Touched(w, c),
                     Letter(Reply(c, Replayed(receipt.result.value)), FromReceipt(receipt.life, FingerprintOf(c))));
    } else {
      var result := ResultWire(Decision(w, s).fields);
      EvidenceSame(w, Decided(w, s, result));
      EvidenceStored(Decided(w, s, result), Letter(Reply(c, result), FromReceipt(receipt.life, FingerprintOf(c))));
    }
  }

  /** Maintenance leaves receipts with waiting results; replay takes the waiting results along. */
  lemma {:induction false} EvidenceRemoved(w: World, s: Step)
    requires LetterInv(w) && EvidenceInv(w) && Enabled(w, s) && (s.PruneReceipt? || s.Release?)
    ensures EvidenceInv(Apply(w, s))
  {
    var v := Apply(w, s);
    forall row | row in v.outbox ensures row < |v.letters| && Evidenced(v, row) {
      assert Evidenced(w, row);
      assert Agrees(w, w.letters[row]);
    }
  }

  // ----------------------------------------------------- no command is lost

  /** Still in the log and not yet read, or read and not yet acknowledged. */
  ghost predicate Outstanding(w: World, e: Entry<Body>) {
    && (exists i :: 0 <= i < |w.commands.entries| && w.commands.entries[i] == e)
    && (GROUP in w.commands.groups ==> Owed(w.commands.groups[GROUP], e.id))
  }

  ghost predicate QueueInv(w: World) {
    && w.commands.Valid()
    && forall i :: 0 <= i < |w.submitted| ==> Outstanding(w, w.submitted[i]) || Resolved(w, w.submitted[i])
  }

  /** Letters, dead letters and submissions are only ever added. */
  predicate LogsGrow(w: World, v: World) {
    w.letters <= v.letters && w.dead <= v.dead && w.submitted <= v.submitted
  }

  lemma {:induction false} StepGrowsLogs(w: World, s: Step)
    requires Enabled(w, s)
    ensures LogsGrow(w, Apply(w, s))
  {
    if s.Process? {
      ProcessGrowsLogs(w, s);
    }
  }

  lemma {:induction false} ProcessGrowsLogs(w: World, s: Step)
    requires Settles(w, s)
    ensures LogsGrow(w, Processed(w, s))
  {
    if Conflicts(w, s.c) {
    } else if Upserted(w, s.c).result.Some? {
    } else {
    }
  }

  /** Answers and dead letters are never taken back. */
  lemma {:induction false} ResolvedStays(w: World, v: World, e: Entry<Body>)
    requires LogsGrow(w, v) && Resolved(w, e)
    ensures Resolved(v, e)
  {
    if d :| 0 <= d < |w.dead| && w.dead[d] == e {
      assert v.dead[d] == e;
    } else {
      var i :| 0 <= i < |w.letters| && Answers(w.letters[i].mail, e.body.c);
      assert v.letters[i] == w.letters[i];
    }
  }

  /** The consumer's group is not preceded by a foreign one: trimming protects only groups that exist. */
  predicate ConsumerFirst(w: World) {
    w.commands.groups == map[] || GROUP in w.commands.groups
  }

  /** Submissions carry ascending ids, and the log holds nothing else. */
  ghost predicate SubmittedInv(w: World) {
    && Ascending(w.submitted)
    && (forall i :: 0 <= i < |w.submitted| ==> w.submitted[i].id <= w.commands.top)
    && forall i :: 0 <= i < |w.commands.entries| ==> w.commands.entries[i] in w.submitted
  }

  /** The steps that touch the commands stream. */
  predicate OnStream(s: Step) {
    s.Submit? || s.AddGroup? || s.Read? || s.Reclaim? || s.Acknowledge? || s.TrimCommands?
  }

  lemma {:induction false} OffStream(w: World, s: Step)
    requires Enabled(w, s) && !OnStream(s)
    ensures Apply(w, s).commands == w.commands && Apply(w, s).submitted == w.submitted
  {
    if s.Process? {
      ProcessOffStream(w, s);
    }
  }

  lemma {:induction false} ProcessOffStream(w: World, s: Step)
    requires Settles(w, s)
    ensures Processed(w, s).commands == w.commands && Processed(w, s).submitted == w.submitted
  {
    if Conflicts(w, s.c) {
    } else if Upserted(w, s.c).result.Some? {
    } else {
    }
  }

  lemma {:induction false} SubmittedStep(w: World, s: Step)
    requires SubmittedInv(w) && Enabled(w, s)
    ensures SubmittedInv(Apply(w, s))
  {
    if OnStream(s) {
      SubmittedStream(w, s);
    } else {
      OffStream(w, s);
      SubmittedSame(w, Apply(w, s));
    }
  }

  lemma {:induction false} SubmittedStream(w: World, s: Step)
    requires SubmittedInv(w) && Enabled(w, s) && OnStream(s)
    ensures SubmittedInv(Apply(w, s))
  {
    var v := Apply(w, s);
    if s.Submit? {
      SubmittedOne(w, v, Entry(s.id, s.body));
    } else if s.TrimCommands? {
      SubmittedTrim(w, v);
    } else {
      SubmittedSame(w, v);
    }
  }

  lemma {:induction false} SubmittedOne(w: World, v: World, e: Entry<Body>)
    requires SubmittedInv(w) && w.commands.top < e.id && v.submitted == w.submitted + [e]
    requires v.commands.entries == w.commands.entries + [e] && v.commands.top == e.id
    ensures SubmittedInv(v)
  {
    assert v.submitted[|w.submitted|] == e;
  }

  lemma {:induction false} SubmittedTrim(w: World, v: World)
    requires SubmittedInv(w) && v.submitted == w.submitted && v.commands.top == w.commands.top
    requires exists cut: nat :: cut <= |w.commands.entries| && v.commands.entries == w.commands.entries[cut..]
    ensures SubmittedInv(v)
  {
  }

  lemma {:induction false} SubmittedSame(w: World, v: World)
    requires SubmittedInv(w) && v.submitted == w.submitted && v.commands.entries == w.commands.entries
             && v.commands.top == w.commands.top
    ensures SubmittedInv(v)
  {
  }

  lemma {:induction false} StreamStep(w: World, s: Step)
    requires w.commands.Valid() && Enabled(w, s)
    ensures Apply(w, s).commands.Valid()
  {
    if OnStream(s) {
      StreamMoves(w, s);
    } else {
      OffStream(w, s);
    }
  }

  lemma {:induction false} StreamMoves(w: World, s: Step)
    requires w.commands.Valid() && Enabled(w, s) && OnStream(s)
    ensures Apply(w, s).commands.Valid()
  {
    match s
    case Submit(id, body) => AppendValid(w.commands, id, body);
    case Read(g, count) => DeliverValid(w.commands, g, count);
    case Reclaim(g, idle) => ClaimValid(w.commands, g, idle);
    case Acknowledge(g, id) => AckValid(w.commands, g, id);
    case TrimCommands(_, safe, limit) => SuffixValid(w.commands, Min(limit, Below(w.commands.entries, safe)));
    case AddGroup(_) =>
  }

  lemma {:induction false} QueueStep(w: World, s: Step)
    requires QueueInv(w) && Enabled(w, s) && (s.TrimCommands? ==> GROUP in w.commands.groups)
    ensures QueueInv(Apply(w, s))
  {
    var v := Apply(w, s);
    StreamStep(w, s);
    StepGrowsLogs(w, s);
    forall i | 0 <= i < |v.submitted| ensures Outstanding(v, v.submitted[i]) || Resolved(v, v.submitted[i]) {
      if i == |w.submitted| {
        assert v.commands.entries[|w.commands.entries|] == v.submitted[i];
      } else if Resolved(w, w.submitted[i]) {
        ResolvedStays(w, v, w.submitted[i]);
      } else {
        StillOutstanding(w, s, w.submitted[i]);
      }
    }
  }

  lemma {:induction false} StillOutstanding(w: World, s: Step, e: Entry<Body>)
    requires w.commands.Valid() && Enabled(w, s) && Outstanding(w, e) && !Resolved(w, e) && e in w.submitted
    requires s.TrimCommands? ==> GROUP in w.commands.groups
    ensures Outstanding(Apply(w, s), e)
  {
    var v := Apply(w, s);
    var k :| 0 <= k < |w.commands.entries| && w.commands.entries[k] == e;
    if !OnStream(s) {
      OffStream(w, s);
    } else if s.TrimCommands? {
      TrimKeeps(w, s.safe, s.limit, k);
      assert v.commands.entries[k - Min(s.limit, Below(w.commands.entries, s.safe))] == e;
    } else {
      assert v.commands.entries[k] == e;
      if GROUP in v.commands.groups {
        StillOwed(w, s, e, k);
      }
    }
  }

  lemma {:induction false} StillOwed(w: World, s: Step, e: Entry<Body>, k: nat)
    requires w.commands.Valid() && Enabled(w, s) && OnStream(s) && !s.TrimCommands? && !Resolved(w, e)
             && e in w.submitted
    requires k < |w.commands.entries| && w.commands.entries[k] == e
    requires GROUP in w.commands.groups ==> Owed(w.commands.groups[GROUP], e.id)
    requires GROUP in Apply(w, s).commands.groups
    ensures Owed(Apply(w, s).commands.groups[GROUP], e.id)
  {
    if s.Read? && s.group == GROUP {
      DeliverKeeps(w.commands, GROUP, s.count, k);
    } else if s.Reclaim? && s.group == GROUP {
      ClaimKeeps(w.commands, GROUP, s.idle, k);
    } else if s.Acknowledge? && s.group == GROUP {
      assert s.id != e.id;
    }
  }

  /** What the consumer's group still owes lies at or above every floor it allows. */
  lemma {:induction false} TrimKeeps(w: World, safe: nat, limit: nat, k: nat)
    requires w.commands.Valid() && GROUP in w.commands.groups && Done(w.commands.groups[GROUP], safe)
    requires k < |w.commands.entries| && Owed(w.commands.groups[GROUP], w.commands.entries[k].id)
    ensures var cut := Min(limit, Below(w.commands.entries, safe));
            cut <= k && w.commands.entries[cut..][k - cut] == w.commands.entries[k]
  {
    BelowSplits(w.commands.entries, safe, k);
  }
}
