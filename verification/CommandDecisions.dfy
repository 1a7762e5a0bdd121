/**
 * What a processed command comes to, in terms of its envelope, its receipt and its handler: whether
 * the handler has its effect, and the JSON text that is stored and sent.
 */
module CommandDecisions {
  import opened Json
  import opened JsonEnvelope
  import opened Options
  import opened CommandModel
  import opened ResultTexts
  import opened BridgeState
  import opened BridgeInvariants
  import opened BridgeTheorems

  // ------------------------------------------------------- a fresh receipt

  /** created_at lies in the deduplication window, at most a minute in the future. */
  predicate InWindow(c: Command, now: int, retention: nat) {
    c.created.Some? && now - retention <= c.created.value <= now + 60
  }

  /** The lifetime of a short-lived command is not over. */
  predicate InTime(c: Command, now: int, lifetime: Option<int>) {
    c.created.Some? && (lifetime.Some? ==> now < c.created.value + lifetime.value)
  }

  /** expires_at is absent, or a time that has not come. */
  predicate Unexpired(c: Command, now: int) {
    c.expires.NoExpiry? || (c.expires.At? && now < c.expires.t)
  }

  /** The handler is called. */
  predicate Reached(c: Command, now: int, retention: nat, lifetime: Option<int>, forced: bool) {
    InWindow(c, now, retention) && InTime(c, now, lifetime) && !forced && Unexpired(c, now)
  }

  /** The text stored for a command whose handler was not called. */
  predicate TurnedAway(r: Wire, c: Command, now: int, retention: nat, lifetime: Option<int>, forced: bool) {
    if !InWindow(c, now, retention)
    then r == ErrorText("command.expired", "The command is outside the deduplication window.", None)
    else if !InTime(c, now, lifetime)
    then r == ErrorText("command.expired", "This short-lived command has expired.", None)
    else if forced then r == ErrorText("command.failed", "The command could not be completed.", None)
    else r == ErrorText("command.expired", "The command expired before execution.", None)
  }

  /** The text stored for a command whose handler was called. */
  predicate Reports(r: Wire, handled: Handled) {
    match handled
    case Returns(data) => (data.Arr? || data.Obj?) && r == OkText(Encode(PayloadObject(data)))
    case Invalid(errors) =>
      var details := WObject([("fields", Encode(Arr(errors)))]);
      r == ErrorText("validation.failed", "The command input is invalid.", Some(details))
    case NotAuthenticated => r == ErrorText("auth.unauthenticated", "Authentication is required.", None)
    case NotAuthorized => r == ErrorText("auth.forbidden", "This command is not permitted.", None)
    case Rejects(code, message, details) =>
      r == ErrorText(code, message, if details == [] then None else Some(Encode(Arr(details))))
    case Throws => false
  }

  lemma {:induction false} OneMember(name: string, x: Value)
    ensures Encode(Arr([(StrKey(name), x)])) == WObject([(name, Encode(x))])
  {
    var fs := [(StrKey(name), x)];
    assert fs[0].0 != IntKey(0) && !IsList(fs);
    var ws := Encode(Arr(fs)).fields;
    assert ws[0] == (KeyText(fs[0].0), Encode(fs[0].1));
    assert ws == [ws[0]];
  }

  /** The savepoint: the handler has its effect exactly when it is reached and returns. */
  lemma {:induction false} SavepointIs(c: Command, now: int, retention: nat, lifetime: Option<int>, forced: bool,
                                       handled: Handled)
    requires WellFormedHandled(handled)
    ensures var a, reached := Handle(c, now, retention, lifetime, forced, handled),
                              Reached(c, now, retention, lifetime, forced);
            && (a.Effective? <==> reached && handled.Returns?)
            && (a.Failed? <==> reached && handled.Throws?)
            && (!reached ==> TurnedAway(ResultWire(a.fields), c, now, retention, lifetime, forced))
            && (reached && !handled.Throws? ==> Reports(ResultWire(a.fields), handled))
  {
    if Reached(c, now, retention, lifetime, forced) {
      HandlerReports(c, now, retention, lifetime, handled);
    } else {
      RefusalReports(c, now, retention, lifetime, forced, handled);
    }
  }

  lemma {:induction false} RefusalReports(c: Command, now: int, retention: nat, lifetime: Option<int>, forced: bool,
                                          handled: Handled)
    requires !Reached(c, now, retention, lifetime, forced)
    ensures var a := Handle(c, now, retention, lifetime, forced, handled);
            a.Refused? && TurnedAway(ResultWire(a.fields), c, now, retention, lifetime, forced)
  {
    if !InWindow(c, now, retention) {
      ErrorWire("command.expired", "The command is outside the deduplication window.", []);
    } else if !InTime(c, now, lifetime) {
      ErrorWire("command.expired", "This short-lived command has expired.", []);
    } else if forced {
      ErrorWire("command.failed", "The command could not be completed.", []);
    } else {
      ErrorWire("command.expired", "The command expired before execution.", []);
    }
  }

  lemma {:induction false} HandlerReports(c: Command, now: int, retention: nat, lifetime: Option<int>,
                                          handled: Handled)
    requires WellFormedHandled(handled) && Reached(c, now, retention, lifetime, false)
    ensures var a := Handle(c, now, retention, lifetime, false, handled);
            && (a.Effective? <==> handled.Returns?) && (a.Failed? <==> handled.Throws?)
            && (!handled.Throws? ==> Reports(ResultWire(a.fields), handled))
  {
    match handled {
      case Returns(data) =>
        OkWire(data);
      case Invalid(errors) =>
        ErrorWire("validation.failed", "The command input is invalid.", [(StrKey("fields"), Arr(errors))]);
        OneMember("fields", Arr(errors));
      case NotAuthenticated =>
        ErrorWire("auth.unauthenticated", "Authentication is required.", []);
      case NotAuthorized =>
        ErrorWire("auth.forbidden", "This command is not permitted.", []);
      case Rejects(code, message, details) =>
        ErrorWire(code, message, details);
      case Throws =>
    }
  }

  /** The delivery finds no receipt, or its own without a result. */
  predicate IsFresh(w: World, c: Command)
    requires ValidCommand(c)
  {
    KeyOf(c) in w.receipts ==>
      var receipt := w.receipts[KeyOf(c)];
      receipt.result.None? && receipt.user == c.user && receipt.fingerprint == FingerprintOf(c)
  }

  /**
   * A delivery processed on a receipt without a result. The handler's effect is committed if and
   * only if created_at is inside the window, the lifetime is not over, no failure is forced,
   * expires_at is absent or still to come, and the handler returned; the result stored in the
   * receipt and sent to the delivery's own socket and request says which of these it was.
   */
  lemma {:induction false} FreshDecision(w: World, s: Step)
    requires s.Process? && Enabled(w, s) && IsFresh(w, s.c)
    ensures var v, c, key := Apply(w, s), s.c, KeyOf(s.c);
            var now := w.held[key];
            var reached := Reached(c, now, w.retention, s.lifetime, s.forced);
            && key in v.receipts && v.receipts[key].result.Some? && v.receipts[key].updated == w.clock
            && v.receipts[key].user == c.user && v.receipts[key].fingerprint == FingerprintOf(c)
            && var r := v.receipts[key].result.value;
               && (if reached then Reports(r, s.handled)
                   else TurnedAway(r, c, now, w.retention, s.lifetime, s.forced))
               && |v.letters| == |w.letters| + 1
               && v.letters[|w.letters|].mail == ResultMail(c.id, c.session, c.socket, c.user, c.request, r)
               && |v.effects| == |w.effects| + (if reached && s.handled.Returns? then 1 else 0)
               && (reached && s.handled.Returns? ==>
                     v.effects[|w.effects|].key == key && v.effects[|w.effects|].result == r)
  {
    SavepointIs(s.c, w.held[KeyOf(s.c)], w.retention, s.lifetime, s.forced, s.handled);
    FreshIsDecided(w, s);
  }

  /** Its new state: the decision in receipt and effects, and one letter. */
  lemma {:induction false} FreshIsDecided(w: World, s: Step)
    requires s.Process? && Enabled(w, s) && IsFresh(w, s.c)
    ensures var v, c, key, r := Apply(w, s), s.c, KeyOf(s.c), ResultWire(Decision(w, s).fields);
            && key in v.receipts && v.receipts[key].result == Some(r) && v.receipts[key].updated == w.clock
            && v.receipts[key].user == c.user && v.receipts[key].fingerprint == FingerprintOf(c)
            && |v.letters| == |w.letters| + 1
            && v.letters[|w.letters|].mail == ResultMail(c.id, c.session, c.socket, c.user, c.request, r)
            && |v.effects| == |w.effects| + (if Decision(w, s).Effective? then 1 else 0)
            && (Decision(w, s).Effective? ==>
                  v.effects[|w.effects|].key == key && v.effects[|w.effects|].result == r)
  {
    assert !Conflicts(w, s.c) && Upserted(w, s.c).result.None?;
  }

  /** Such a transaction rolls back exactly if the handler is reached and fails unexpectedly. */
  lemma {:induction false} FailsIff(w: World, s: Step)
    requires s.Process? && ValidCommand(s.c) && WellFormedHandled(s.handled) && KeyOf(s.c) in w.held && IsFresh(w, s.c)
    ensures !Enabled(w, s) <==>
              Reached(s.c, w.held[KeyOf(s.c)], w.retention, s.lifetime, s.forced) && s.handled.Throws?
  {
    SavepointIs(s.c, w.held[KeyOf(s.c)], w.retention, s.lifetime, s.forced, s.handled);
  }

  // ------------------------------------------------- the other deliveries

  /** A stored result is sent again as it is, and its receipt counts as used now. */
  lemma {:induction false} StoredIsReplayed(w: World, s: Step)
    requires ReceiptInv(w) && s.Process? && Enabled(w, s) && KeyOf(s.c) in w.receipts
    requires var receipt := w.receipts[KeyOf(s.c)];
             receipt.result.Some? && receipt.user == s.c.user && receipt.fingerprint == FingerprintOf(s.c)
    ensures var v, c, receipt := Apply(w, s), s.c, w.receipts[KeyOf(s.c)];
            && v.receipts == w.receipts[KeyOf(c) := receipt.(updated := w.clock)] && v.effects == w.effects
            && |v.letters| == |w.letters| + 1
            && v.letters[|w.letters|].mail ==
                 ResultMail(c.id, c.session, c.socket, c.user, c.request, receipt.result.value)
  {
    assert SoundReceipt(w, w.receipts[KeyOf(s.c)]);
    assert !Conflicts(w, s.c);
  }

  /** Another user or other input gets an error, and nothing else happens. */
  lemma {:induction false} ConflictIsRefused(w: World, s: Step)
    requires s.Process? && Enabled(w, s) && KeyOf(s.c) in w.receipts
    requires var receipt := w.receipts[KeyOf(s.c)];
             receipt.user != s.c.user || receipt.fingerprint != FingerprintOf(s.c)
    ensures var v, c := Apply(w, s), s.c;
            && v.receipts == w.receipts && v.effects == w.effects && |v.letters| == |w.letters| + 1
            && v.letters[|w.letters|].mail ==
                 ResultMail(c.id, c.session, c.socket, c.user, c.request,
                            ErrorText("command.id_conflict", "This command id was already used with different input.",
                                      None))
  {
    assert Conflicts(w, s.c);
    ErrorWire("command.id_conflict", "This command id was already used with different input.", []);
  }

  /** So does a delivery whose session does not resolve. */
  lemma {:induction false} DenialIsRefused(w: World, c: Command)
    ensures var v := Apply(w, Deny(c));
            && v.receipts == w.receipts && v.effects == w.effects && v.held == w.held && |v.letters| == |w.letters| + 1
            && v.letters[|w.letters|].mail ==
                 ResultMail(c.id, c.session, c.socket, c.user, c.request,
                            ErrorText("auth.unauthenticated", "The realtime session is expired or revoked.", None))
  {
    ErrorWire("auth.unauthenticated", "The realtime session is expired or revoked.", []);
  }

  // ------------------------------------------------------------ every result

  /** A success, or an error with some code and message. */
  ghost predicate IsResultText(r: Wire) {
    (exists data: Wire :: r == OkText(data))
    || exists code: string, message: string, details: Option<Wire> :: r == ErrorText(code, message, details)
  }

  lemma {:induction false} ErrorIsText(code: string, message: string, details: Option<Wire>)
    ensures IsResultText(ErrorText(code, message, details))
  {
  }

  ghost predicate ResultAt(w: World, key: ReceiptKey)
    requires key in w.receipts
  {
    w.receipts[key].result.Some? ==> IsResultText(w.receipts[key].result.value)
  }

  ghost predicate MailAt(w: World, n: nat)
    requires n < |w.letters|
  {
    w.letters[n].mail.ResultMail? ==> IsResultText(w.letters[n].mail.result)
  }

  /** Every stored result, and every one that was sent, is one of these texts. */
  ghost predicate TextInv(w: World) {
    && (forall key {:trigger ResultAt(w, key)} :: key in w.receipts ==> ResultAt(w, key))
    && forall n {:trigger MailAt(w, n)} :: 0 <= n < |w.letters| ==> MailAt(w, n)
  }

  lemma {:induction false} TextOfReport(r: Wire, handled: Handled)
    requires Reports(r, handled)
    ensures IsResultText(r)
  {
    match handled {
      case Returns(data) =>
        assert r == OkText(Encode(PayloadObject(data)));
      case Invalid(errors) =>
        var details := Some(WObject([("fields", Encode(Arr(errors)))]));
        ErrorIsText("validation.failed", "The command input is invalid.", details);
      case NotAuthenticated =>
        ErrorIsText("auth.unauthenticated", "Authentication is required.", None);
      case NotAuthorized =>
        ErrorIsText("auth.forbidden", "This command is not permitted.", None);
      case Rejects(code, message, details) =>
        ErrorIsText(code, message, if details == [] then None else Some(Encode(Arr(details))));
    }
  }

  lemma {:induction false} TextOfRefusal(r: Wire, c: Command, now: int, retention: nat, lifetime: Option<int>,
                                         forced: bool)
    requires TurnedAway(r, c, now, retention, lifetime, forced)
    ensures IsResultText(r)
  {
    if !InWindow(c, now, retention) {
      ErrorIsText("command.expired", "The command is outside the deduplication window.", None);
    } else if !InTime(c, now, lifetime) {
      ErrorIsText("command.expired", "This short-lived command has expired.", None);
    } else if forced {
      ErrorIsText("command.failed", "The command could not be completed.", None);
    } else {
      ErrorIsText("command.expired", "The command expired before execution.", None);
    }
  }

  /** Nothing but processing and denial writes a result. */
  predicate Writes(s: Step) {
    s.Process? || s.Deny?
  }

  lemma {:induction false} TextOther(w: World, s: Step)
    requires TextInv(w) && Enabled(w, s) && !Writes(s)
    ensures TextInv(Apply(w, s))
  {
    var v := Apply(w, s);
    OtherTexts(w, s);
    forall key | key in v.receipts ensures ResultAt(v, key) {
      if v.receipts[key].result.Some? { assert ResultAt(w, key); }
    }
    forall n | 0 <= n < |v.letters| ensures MailAt(v, n) {
      if n < |w.letters| { assert MailAt(w, n); }
    }
  }

  lemma {:induction false} OtherTexts(w: World, s: Step)
    requires Enabled(w, s) && !Writes(s)
    ensures var v := Apply(w, s);
            && (forall key :: key in v.receipts && v.receipts[key].result.Some? ==>
                  key in w.receipts && w.receipts[key].result == v.receipts[key].result)
            && w.letters <= v.letters
            && forall n :: |w.letters| <= n < |v.letters| ==> v.letters[n].mail.Emission?
  {
    if s.Emit? {
    } else if s.PruneReceipt? {
    } else if s.Release? {
    } else {
      assert Apply(w, s).receipts == w.receipts && Apply(w, s).letters == w.letters;
    }
  }

  /** One letter more, with a result text, and one receipt at most that holds that text. */
  lemma {:induction false} TextWritten(w: World, v: World, key: ReceiptKey, r: Wire)
    requires TextInv(w) && IsResultText(r)
    requires |v.letters| == |w.letters| + 1 && w.letters <= v.letters
             && v.letters[|w.letters|].mail.ResultMail? && v.letters[|w.letters|].mail.result == r
    requires forall k :: k in v.receipts && v.receipts[k].result.Some? ==>
               (k == key && v.receipts[k].result == Some(r))
               || (k in w.receipts && w.receipts[k].result == v.receipts[k].result)
    ensures TextInv(v)
  {
    forall k | k in v.receipts ensures ResultAt(v, k) {
      if k in w.receipts { assert ResultAt(w, k); }
    }
    forall n | 0 <= n < |v.letters| ensures MailAt(v, n) {
      if n < |w.letters| { assert MailAt(w, n); }
    }
  }

  lemma {:induction false} TextProcessed(w: World, s: Step)
    requires ReceiptInv(w) && TextInv(w) && s.Process? && Enabled(w, s)
    ensures TextInv(Apply(w, s))
  {
    ProcessGrowsLogs(w, s);
    if IsFresh(w, s.c) {
      TextFresh(w, s);
    } else if w.receipts[KeyOf(s.c)].user != s.c.user || w.receipts[KeyOf(s.c)].fingerprint != FingerprintOf(s.c) {
      TextConflict(w, s);
    } else {
      TextReplayed(w, s);
    }
  }

  lemma {:induction false} TextFresh(w: World, s: Step)
    requires TextInv(w) && s.Process? && Enabled(w, s) && IsFresh(w, s.c) && w.letters <= Apply(w, s).letters
    ensures TextInv(Apply(w, s))
  {
    FreshDecision(w, s);
    FreshOthers(w, s);
    var v, key := Apply(w, s), KeyOf(s.c);
    var r := v.receipts[key].result.value;
    if Reached(s.c, w.held[key], w.retention, s.lifetime, s.forced) {
      TextOfReport(r, s.handled);
    } else {
      TextOfRefusal(r, s.c, w.held[key], w.retention, s.lifetime, s.forced);
    }
    TextWritten(w, v, key, r);
  }

  lemma {:induction false} TextConflict(w: World, s: Step)
    requires TextInv(w) && s.Process? && Enabled(w, s) && KeyOf(s.c) in w.receipts && w.letters <= Apply(w, s).letters
    requires w.receipts[KeyOf(s.c)].user != s.c.user || w.receipts[KeyOf(s.c)].fingerprint != FingerprintOf(s.c)
    ensures TextInv(Apply(w, s))
  {
    ConflictIsRefused(w, s);
    ErrorIsText("command.id_conflict", "This command id was already used with different input.", None);
    TextWritten(w, Apply(w, s), KeyOf(s.c), Apply(w, s).letters[|w.letters|].mail.result);
  }

  lemma {:induction false} TextReplayed(w: World, s: Step)
    requires ReceiptInv(w) && TextInv(w) && s.Process? && Enabled(w, s) && KeyOf(s.c) in w.receipts
             && w.letters <= Apply(w, s).letters
    requires var receipt := w.receipts[KeyOf(s.c)];
             receipt.result.Some? && receipt.user == s.c.user && receipt.fingerprint == FingerprintOf(s.c)
    ensures TextInv(Apply(w, s))
  {
    StoredIsReplayed(w, s);
    assert ResultAt(w, KeyOf(s.c));
    TextWritten(w, Apply(w, s), KeyOf(s.c), w.receipts[KeyOf(s.c)].result.value);
  }

  lemma {:induction false} FreshOthers(w: World, s: Step)
    requires s.Process? && Enabled(w, s) && IsFresh(w, s.c)
    ensures forall k :: k in Apply(w, s).receipts && k != KeyOf(s.c) ==>
              k in w.receipts && w.receipts[k] == Apply(w, s).receipts[k]
  {
    assert !Conflicts(w, s.c) && Upserted(w, s.c).result.None?;
  }

  lemma {:induction false} TextDenied(w: World, c: Command)
    requires TextInv(w)
    ensures TextInv(Apply(w, Deny(c)))
  {
    DenialIsRefused(w, c);
    ErrorIsText("auth.unauthenticated", "The realtime session is expired or revoked.", None);
    TextWritten(w, Apply(w, Deny(c)), KeyOf(c), Apply(w, Deny(c)).letters[|w.letters|].mail.result);
  }

  lemma {:induction false} TextStep(w: World, s: Step)
    requires ReceiptInv(w) && TextInv(w) && Enabled(w, s)
    ensures TextInv(Apply(w, s))
  {
    if s.Process? {
      TextProcessed(w, s);
    } else if s.Deny? {
      TextDenied(w, s.c);
    } else {
      TextOther(w, s);
    }
  }

  lemma {:induction false} TextNext(w: World, v: World)
    requires ReceiptInv(w) && TextInv(w) && Next(w, v)
    ensures TextInv(v)
  {
    var s: Step :| Enabled(w, s) && v == Apply(w, s);
    TextStep(w, s);
  }

  /** In every run, whatever is stored or sent as a result is a success or an error with code and message. */
  lemma {:induction false} ResultsAreTexts(trace: seq<World>, n: nat)
    requires Run(trace) && n < |trace|
    ensures TextInv(trace[n])
  {
    if n > 0 {
      ResultsAreTexts(trace, n - 1);
      RunKeepsInv(trace, n - 1);
      assert Linked(trace, n);
      TextNext(trace[n - 1], trace[n]);
    }
  }

  // ---------------------------------------------------------- what is released

  /** The text is that of an exhausted transient failure. */
  ghost predicate IsFailure(r: Wire) {
    exists message: string, details: Option<Wire> :: r == ErrorText("command.failed", message, details)
  }

  lemma {:induction false} TransientIffFailure(r: Wire)
    requires IsResultText(r)
    ensures IsTransient(r) <==> IsFailure(r)
  {
    if data: Wire :| r == OkText(data) {
      SuccessIsNoFailure(data);
      assert r.fields[0] == ("ok", WAtom(Bool(true)));
    } else {
      var code: string, message: string, details: Option<Wire> :| r == ErrorText(code, message, details);
      TransientIsCode(code, message, details);
      if m: string, d: Option<Wire> :| r == ErrorText("command.failed", m, d) {
        SameCode(code, message, details, "command.failed", m, d);
      }
    }
  }

  lemma {:induction false} SameCode(a: string, m: string, x: Option<Wire>, b: string, n: string, y: Option<Wire>)
    requires ErrorText(a, m, x) == ErrorText(b, n, y)
    ensures a == b
  {
    var e, f := ErrorMember(a, m, x), ErrorMember(b, n, y);
    assert ErrorText(a, m, x).fields[1] == ("error", e) && ErrorText(b, n, y).fields[1] == ("error", f);
    assert e.fields[0] == ("code", WAtom(Str(a))) && f.fields[0] == ("code", WAtom(Str(b)));
  }

  /** A waiting result of the command that reports the failure. */
  ghost predicate ReportsFailure(w: World, row: nat, key: ReceiptKey) {
    && row in w.outbox && w.outbox[row].published.None? && row < |w.letters|
    && var m := w.letters[row].mail;
       m.ResultMail? && m.session == key.0 && Lower(m.command) == key.1 && IsFailure(m.result)
  }

  /**
   * In every run, operator replay may release a receipt if and only if its stored result has the
   * code command.failed and neither the receipt nor a row to take back is locked; the rows it takes
   * back are exactly the unpublished results of this command that report the failure. A success, an
   * expired command, or a rejection with any other code keeps its receipt.
   */
  lemma {:induction false} ReleasesExactly(trace: seq<World>, n: nat, key: ReceiptKey)
    requires Run(trace) && n < |trace|
    ensures var w := trace[n];
            && (forall row: nat :: row in Released(w, key) <==> ReportsFailure(w, row, key))
            && (Enabled(w, Release(key)) <==>
                  && key in w.receipts && key !in w.held && w.receipts[key].result.Some?
                  && IsFailure(w.receipts[key].result.value)
                  && forall row: nat :: ReportsFailure(w, row, key) ==> row !in w.busy)
  {
    var w := trace[n];
    ResultsAreTexts(trace, n);
    forall row: nat ensures row in Released(w, key) <==> ReportsFailure(w, row, key) {
      if row < |w.letters| && w.letters[row].mail.ResultMail? {
        assert MailAt(w, row);
        TransientIffFailure(w.letters[row].mail.result);
      }
    }
    if key in w.receipts && w.receipts[key].result.Some? {
      assert ResultAt(w, key);
      TransientIffFailure(w.receipts[key].result.value);
    }
  }
}
