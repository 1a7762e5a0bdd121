/** Commands, their results, and the decision inside the savepoint of src/Commands/CommandProcessor.php. */
module CommandModel {
  import opened Json
  import opened JsonEnvelope
  import opened Options

  /** expires_at: absent, not a time, or a time in seconds. */
  datatype Expiry = NoExpiry | Unreadable | At(t: int)

  /** A well-shaped command envelope; `created` is None when created_at is missing or not a time. */
  datatype Command = Command(id: string, name: string, payload: Value, session: string, user: string, socket: string,
                             request: Option<string>, created: Option<int>, expires: Expiry)

  /** A stream entry's envelope: none that decodes, or a command. */
  datatype Body = Malformed | Cmd(c: Command)

  /**
   * What the handler, or anything it calls, does with one command: it returns, throws one of the
   * exceptions that reject the command, or throws another one.
   */
  datatype Handled =
    | Returns(data: Value)
    | Invalid(errors: seq<(Key, Value)>)
    | NotAuthenticated
    | NotAuthorized
    | Rejects(code: string, message: string, details: seq<(Key, Value)>)
    | Throws

  /** What the savepoint yields: a committed effect, a terminal rejection, or an unexpected exception. */
  datatype Attempt = Effective(fields: seq<(Key, Value)>) | Refused(fields: seq<(Key, Value)>) | Failed

  type ReceiptKey = (string, string)

  const TOLERANCE := 60
  const TRANSIENT := "command.failed"

  function LowerChar(c: char): char {
    if 'A' <= c <= 'Z' then (c as int + 32) as char else c
  }

  function Lower(s: string): string {
    seq(|s|, i requires 0 <= i < |s| => LowerChar(s[i]))
  }

  function KeyOf(c: Command): ReceiptKey {
    (c.session, Lower(c.id))
  }

  /** The same letter, but perhaps for its case. */
  predicate SameLetter(a: char, b: char) {
    a == b || ('A' <= a <= 'Z' && b as int == a as int + 32) || ('A' <= b <= 'Z' && a as int == b as int + 32)
  }

  /** Commands share a receipt if and only if they have one session, and ids that differ in case only. */
  lemma {:induction false} KeyIgnoresCase(c: Command, d: Command)
    ensures KeyOf(c) == KeyOf(d) <==>
              c.session == d.session && |c.id| == |d.id| && forall i :: 0 <= i < |c.id| ==> SameLetter(c.id[i], d.id[i])
  {
    if |c.id| == |d.id| {
      forall i | 0 <= i < |c.id| ensures LowerChar(c.id[i]) == LowerChar(d.id[i]) <==> SameLetter(c.id[i], d.id[i]) {
      }
      if Lower(c.id) == Lower(d.id) {
        forall i | 0 <= i < |c.id| ensures SameLetter(c.id[i], d.id[i]) {
          assert Lower(c.id)[i] == Lower(d.id)[i];
        }
      }
    }
  }

  /** The part of CommandProcessor::valid that later steps depend on. */
  predicate ValidCommand(c: Command) {
    ValidPayload(c.payload) && WellFormed(c.payload)
  }

  predicate Processable(b: Body) {
    b.Cmd? && ValidCommand(b.c)
  }

  function FingerprintOf(c: Command): Wire
    requires ValidCommand(c)
  {
    Fingerprint(c.name, c.payload)
  }

  // --------------------------------------------------------------- results

  function OkFields(data: Value): seq<(Key, Value)> {
    [(StrKey("ok"), Atom(Bool(true))), (StrKey("data"), if data.Arr? then Object(data.fields) else data)]
  }

  function ErrorFields(code: string, message: string, details: seq<(Key, Value)>): seq<(Key, Value)> {
    var error := [(StrKey("code"), Atom(Str(code))), (StrKey("message"), Atom(Str(message)))];
    [(StrKey("ok"), Atom(Bool(false))),
     (StrKey("error"), Arr(if details == [] then error else error + [(StrKey("details"), Arr(details))]))]
  }

  function Expired(message: string): Attempt {
    Refused(ErrorFields("command.expired", message, []))
  }

  predicate WellFormedHandled(h: Handled) {
    match h
    case Returns(data) => (data.Arr? || data.Obj?) && WellFormed(data)
    case Invalid(errors) => WellFormed(Arr(errors))
    case Rejects(_, _, details) => WellFormed(Arr(details))
    case _ => true
  }

  /** The savepoint: window, lifetime, forced failure, expiry, then the handler. */
  function Handle(c: Command, now: int, retention: nat, lifetime: Option<int>, forced: bool,
                  handled: Handled): Attempt {
    if c.created.None? || c.created.value < now - retention || c.created.value > now + TOLERANCE
    then Expired("The command is outside the deduplication window.")
    else if lifetime.Some? && c.created.value + lifetime.value <= now
    then Expired("This short-lived command has expired.")
    else if forced then Refused(ErrorFields(TRANSIENT, "The command could not be completed.", []))
    else if c.expires.Unreadable? || (c.expires.At? && c.expires.t <= now)
    then Expired("The command expired before execution.")
    else match handled
      case Returns(data) => Effective(OkFields(data))
      case Invalid(errors) =>
        Refused(ErrorFields("validation.failed", "The command input is invalid.", [(StrKey("fields"), Arr(errors))]))
      case NotAuthenticated => Refused(ErrorFields("auth.unauthenticated", "Authentication is required.", []))
      case NotAuthorized => Refused(ErrorFields("auth.forbidden", "This command is not permitted.", []))
      case Rejects(code, message, details) => Refused(ErrorFields(code, message, details))
      case Throws => Failed
  }

  /** A result text that survives being stored and decoded again. */
  predicate Replayable(w: Wire) {
    WellFormedWire(w) && Hydrate(w).Arr? && ResultWire(Hydrate(w).fields) == w
  }

  /** The reply built from a stored result: decoded from the receipt, encoded for the outbox. */
  function Replayed(w: Wire): Wire {
    if Hydrate(w).Arr? then ResultWire(Hydrate(w).fields) else w
  }

  function MemberIn(fs: seq<(string, Wire)>, name: string): Option<Wire> {
    if fs == [] then None else if fs[0].0 == name then Some(fs[0].1) else MemberIn(fs[1..], name)
  }

  function Member(w: Wire, name: string): Option<Wire> {
    if w.WObject? then MemberIn(w.fields, name) else None
  }

  /** Replay releases a receipt only when this holds of its result. */
  predicate IsTransient(w: Wire) {
    match Member(w, "error")
    case Some(e) => Member(e, "code") == Some(WAtom(Str(TRANSIENT)))
    case None => false
  }

  lemma {:induction false} PairWellFormed(first: string, x: Value, second: string, y: Value)
    requires WellFormed(x) && WellFormed(y) && first != second && NulFree(first) && NulFree(second)
    requires ToKey(first) == StrKey(first) && ToKey(second) == StrKey(second)
    ensures WellFormed(Arr([(StrKey(first), x), (StrKey(second), y)]))
  {
  }

  lemma {:induction false} OkWellFormed(data: Value)
    requires (data.Arr? || data.Obj?) && WellFormed(data)
    ensures WellFormed(Arr(OkFields(data)))
  {
    if data.Arr? {
      ObjectWellFormed(data.fields);
    }
    assert ToKey("ok") == StrKey("ok") && ToKey("data") == StrKey("data");
    PairWellFormed("ok", Atom(Bool(true)), "data", if data.Arr? then Object(data.fields) else data);
  }

  lemma {:induction false} ErrorWellFormed(code: string, message: string, details: seq<(Key, Value)>)
    requires WellFormed(Arr(details))
    ensures WellFormed(Arr(ErrorFields(code, message, details)))
  {
    assert ToKey("code") == StrKey("code") && ToKey("message") == StrKey("message")
           && ToKey("details") == StrKey("details");
    assert ToKey("ok") == StrKey("ok") && ToKey("error") == StrKey("error");
    var error := [(StrKey("code"), Atom(Str(code))), (StrKey("message"), Atom(Str(message)))];
    var full := if details == [] then error else error + [(StrKey("details"), Arr(details))];
    PairWellFormed("code", Atom(Str(code)), "message", Atom(Str(message)));
    assert WellFormed(Arr(full));
    PairWellFormed("ok", Atom(Bool(false)), "error", Arr(full));
  }

  /** A refusal carries an error result. */
  lemma {:induction false} RefusalIs(c: Command, now: int, retention: nat, lifetime: Option<int>, forced: bool,
                                     handled: Handled)
    returns (code: string, message: string, details: seq<(Key, Value)>)
    requires WellFormedHandled(handled) && Handle(c, now, retention, lifetime, forced, handled).Refused?
    ensures Handle(c, now, retention, lifetime, forced, handled).fields == ErrorFields(code, message, details)
    ensures WellFormed(Arr(details))
  {
    code, message, details := "command.expired", "The command is outside the deduplication window.", [];
    if c.created.Some? && now - retention <= c.created.value <= now + TOLERANCE {
      if lifetime.Some? && c.created.value + lifetime.value <= now {
        message := "This short-lived command has expired.";
      } else if forced {
        code, message := TRANSIENT, "The command could not be completed.";
      } else if c.expires.Unreadable? || (c.expires.At? && c.expires.t <= now) {
        message := "The command expired before execution.";
      } else {
        code, message, details := HandlerRefusal(handled);
      }
    }
  }

  /** The error result of an exception that rejects the command. */
  lemma {:induction false} HandlerRefusal(handled: Handled)
    returns (code: string, message: string, details: seq<(Key, Value)>)
    requires WellFormedHandled(handled) && !handled.Returns? && !handled.Throws?
    ensures WellFormed(Arr(details))
    ensures match handled
            case Invalid(errors) =>
              code == "validation.failed" && message == "The command input is invalid."
              && details == [(StrKey("fields"), Arr(errors))]
            case NotAuthenticated =>
              code == "auth.unauthenticated" && message == "Authentication is required." && details == []
            case NotAuthorized =>
              code == "auth.forbidden" && message == "This command is not permitted." && details == []
            case Rejects(c, m, d) => code == c && message == m && details == d
            case _ => false
  {
    match handled {
      case Invalid(errors) =>
        assert ToKey("fields") == StrKey("fields");
        code, message, details :=
          "validation.failed", "The command input is invalid.", [(StrKey("fields"), Arr(errors))];
      case NotAuthenticated =>
        code, message, details := "auth.unauthenticated", "Authentication is required.", [];
      case NotAuthorized =>
        code, message, details := "auth.forbidden", "This command is not permitted.", [];
      case Rejects(c, m, d) =>
        code, message, details := c, m, d;
    }
  }

  lemma {:induction false} FieldsWellFormed(c: Command, now: int, retention: nat, lifetime: Option<int>, forced: bool,
                                            handled: Handled)
    requires WellFormedHandled(handled)
    requires !Handle(c, now, retention, lifetime, forced, handled).Failed?
    ensures var fs := Handle(c, now, retention, lifetime, forced, handled).fields;
            WellFormed(Arr(fs)) && |fs| == 2 && fs[0].0 == StrKey("ok")
  {
    if Handle(c, now, retention, lifetime, forced, handled).Effective? {
      OkWellFormed(handled.data);
    } else {
      var code, message, details := RefusalIs(c, now, retention, lifetime, forced, handled);
      ErrorWellFormed(code, message, details);
    }
  }

  /** Every result the processor commits can be replayed from its receipt unchanged. */
  lemma {:induction false} FreshIsReplayable(fs: seq<(Key, Value)>)
    requires WellFormed(Arr(fs)) && |fs| == 2 && fs[0].0 == StrKey("ok")
    ensures Replayable(ResultWire(fs))
  {
    ResultWellFormed(fs);
    StoredReplyKeepsWire(fs, 0, ResultWire(fs));
  }

  /** A successful result is never one that replay releases. */
  lemma {:induction false} SuccessIsNotTransient(data: Value)
    ensures !IsTransient(ResultWire(OkFields(data)))
  {
    var fs := ResultFields(OkFields(data));
    assert fs[0].0 == StrKey("ok") && fs[1].0 == StrKey("data");
    assert !IsList(fs);
    var ws := Encode(Arr(fs)).fields;
    assert ws[0].0 == "ok" && ws[1].0 == "data" && |ws| == 2;
    assert MemberIn(ws, "error") == MemberIn(ws[1..], "error");
    assert ws[1..][0].0 == "data" && ws[1..][1..] == [];
    assert MemberIn(ws[1..], "error") == MemberIn([], "error");
  }
}
