/**
 * The shared state behind the durable command pipeline, and its atomic steps.
 *
 * Every step is one Redis command, one Redis script or one committed database
 * transaction. A process that crashes simply takes no further step; a command may be
 * processed by several consumers at once and any number of times.
 */
module BridgeState {
  import opened Json
  import opened JsonEnvelope
  import opened Options
  import opened RedisStream
  import opened StreamRetention
  import opened CommandModel

  /**
   * A receipt row. `generation` numbers its insertion; `life` also changes when operator
   * replay clears its result. Both only count, the program has no such columns.
   */
  datatype Receipt = Receipt(fingerprint: Wire, user: string, result: Option<Wire>, updated: int, generation: nat,
                             life: nat)

  /** An outbox row's delivery columns. */
  datatype Row = Row(attempts: nat, available: int, published: Option<int>)

  /** An outbox row's envelope: a command result, or an event an application stored. */
  datatype Mail =
    | ResultMail(command: string, session: string, socket: string, user: string, request: Option<string>, result: Wire)
    | Emission(event: string)

  /** Why a result was sent: no session, conflicting input, or the receipt of this life. */
  datatype Origin = Unauthenticated | Conflicting | FromReceipt(life: nat, fingerprint: Wire) | Application

  datatype Letter = Letter(mail: Mail, origin: Origin)

  /** What happened to an outbox row over time. */
  datatype Account = Account(published: bool, released: bool, rollbacks: nat, lost: nat)

  /** A committed handler effect: the delivery's created_at and when the savepoint checked it. */
  datatype Effect = Effect(key: ReceiptKey, created: int, at: int, generation: nat, result: Wire)

  datatype World = World(
    clock: int,
    retention: nat,
    held: map<ReceiptKey, int>,          // receipt row locks, with the time they were taken
    receipts: map<ReceiptKey, Receipt>,
    effects: seq<Effect>,
    lives: nat,
    letters: seq<Letter>,                // every outbox row ever committed; the index is its id
    accounts: map<nat, Account>,
    outbox: map<nat, Row>,               // the rows still in the table
    busy: map<nat, bool>,                // rows a relay has locked; true once the stream took the entry
    events: seq<nat>,                    // the events stream, by outbox row
    commands: Stream<Body>,
    submitted: seq<Entry<Body>>,         // every command entry ever appended
    dead: seq<Entry<Body>>)              // the dead-letter copies

  const GROUP := "laravel"

  datatype Step =
    | Tick(seconds: nat)
    | Submit(id: nat, body: Body)
    | AddGroup(group: string)
    | Read(group: string, count: nat)
    | Reclaim(group: string, idle: set<nat>)
    | Acknowledge(group: string, id: nat)
    | TrimCommands(cutoff: nat, safe: nat, limit: nat)
    | Bury(entry: Entry<Body>)
    | Deny(c: Command)
    | Lock(key: ReceiptKey)
    | Rollback(key: ReceiptKey)
    | Process(c: Command, lifetime: Option<int>, forced: bool, handled: Handled)
    | Emit(event: string)
    | RelayLock(row: nat)
    | RelayAppend(row: nat)
    | RelayCommit(row: nat)
    | RelayFail(row: nat, delay: nat, lost: bool)
    | RelayRollback(row: nat)
    | PruneReceipt(key: ReceiptKey, runStart: int)
    | PruneRow(row: nat)
    | Release(key: ReceiptKey)

  function Start(clock: int, retention: nat): World {
    World(clock, retention, map[], map[], [], 0, [], map[], map[], map[], [], Stream([], map[], 0), [], [])
  }

  // --------------------------------------------------------------- letters

  function LetterKey(m: Mail): Option<ReceiptKey> {
    if m.ResultMail? then Some((m.session, Lower(m.command))) else None
  }

  /** CommandProcessor::resultEnvelope: addressed to the delivery's own socket and request. */
  function Reply(c: Command, result: Wire): Mail {
    ResultMail(c.id, c.session, c.socket, c.user, c.request, result)
  }

  predicate Unpublished(w: World, row: nat) {
    row in w.outbox && w.outbox[row].published.None?
  }

  /** The query both maintenance and replay use for a receipt's waiting results. */
  predicate Waiting(w: World, row: nat, key: ReceiptKey) {
    Unpublished(w, row) && row < |w.letters| && LetterKey(w.letters[row].mail) == Some(key)
  }

  /** OutboxStore::store. */
  function Store(w: World, letter: Letter): World {
    var row := |w.letters|;
    w.(letters := w.letters + [letter],
       accounts := w.accounts[row := Account(false, false, 0, 0)],
       outbox := w.outbox[row := Row(0, w.clock, None)])
  }

  /** The delivery has its answer: a stored result for its socket and request, or a dead-letter copy. */
  predicate Resolved(w: World, e: Entry<Body>) {
    || (exists d :: 0 <= d < |w.dead| && w.dead[d] == e)
    || (e.body.Cmd? && exists i :: 0 <= i < |w.letters| && Answers(w.letters[i].mail, e.body.c))
  }

  predicate Answers(m: Mail, c: Command) {
    m.ResultMail? && m.command == c.id && m.session == c.session && m.socket == c.socket && m.request == c.request
  }

  // -------------------------------------------------- the command receipt

  /** The upsert: the row that exists, or a new one. */
  function Upserted(w: World, c: Command): Receipt
    requires ValidCommand(c)
  {
    if KeyOf(c) in w.receipts then w.receipts[KeyOf(c)]
    else Receipt(FingerprintOf(c), c.user, None, w.clock, w.lives, w.lives)
  }

  predicate Conflicts(w: World, c: Command)
    requires ValidCommand(c)
  {
    Upserted(w, c).fingerprint != FingerprintOf(c) || Upserted(w, c).user != c.user
  }

  const CONFLICT := ErrorFields("command.id_conflict", "This command id was already used with different input.", [])
  const DENIED := ErrorFields("auth.unauthenticated", "The realtime session is expired or revoked.", [])

  /** The receipt row after the transaction released it. */
  function Unlocked(w: World, c: Command): World {
    w.(held := w.held - {KeyOf(c)}, lives := if KeyOf(c) in w.receipts then w.lives else w.lives + 1)
  }

  /** A stored result is only touched. */
  function Touched(w: World, c: Command): World
    requires KeyOf(c) in w.receipts
  {
    Unlocked(w, c).(receipts := w.receipts[KeyOf(c) := w.receipts[KeyOf(c)].(updated := w.clock)])
  }

  /** A fresh result is written to the receipt, with the handler's effect if it had one. */
  function Decided(w: World, s: Step, result: Wire): World
    requires s.Process? && ValidCommand(s.c) && KeyOf(s.c) in w.held
  {
    var key, receipt := KeyOf(s.c), Upserted(w, s.c);
    Unlocked(w, s.c).(
      receipts := w.receipts[key := receipt.(result := Some(result), updated := w.clock)],
      effects :=
        if Decision(w, s).Effective?
        then w.effects + [Effect(key, CreatedAt(s.c), w.held[key], receipt.generation, result)] else w.effects)
  }

  /** The receipt transaction of CommandProcessor::execute, committed. */
  function Processed(w: World, s: Step): World
    requires Settles(w, s)
  {
    var c, receipt := s.c, Upserted(w, s.c);
    if Conflicts(w, c) then
      Store(Unlocked(w, c), Letter(Reply(c, ResultWire(CONFLICT)), Conflicting))
    else if receipt.result.Some? then
      Store(Touched(w, c),
            Letter(Reply(c, Replayed(receipt.result.value)), FromReceipt(receipt.life, FingerprintOf(c))))
    else
      var result := ResultWire(Decision(w, s).fields);
      Store(Decided(w, s, result), Letter(Reply(c, result), FromReceipt(receipt.life, FingerprintOf(c))))
  }

  /** The receipt is locked, and the transaction does not fail: a decision is made only without a stored result. */
  predicate Settles(w: World, s: Step) {
    && s.Process? && ValidCommand(s.c) && KeyOf(s.c) in w.held
    && (!Conflicts(w, s.c) && Upserted(w, s.c).result.None? ==> !Decision(w, s).Failed?)
  }

  predicate CanProcess(w: World, s: Step) {
    Settles(w, s) && WellFormedHandled(s.handled)
  }

  function CreatedAt(c: Command): int {
    if c.created.Some? then c.created.value else 0
  }

  function Decision(w: World, s: Step): Attempt
    requires s.Process? && KeyOf(s.c) in w.held
  {
    Handle(s.c, w.held[KeyOf(s.c)], w.retention, s.lifetime, s.forced, s.handled)
  }

  // ----------------------------------------------------------------- steps

  predicate Enabled(w: World, s: Step) {
    match s
    case Tick(_) => true
    case Submit(id, _) => w.commands.top < id
    case AddGroup(_) => true
    case Read(g, _) => g in w.commands.groups
    case Reclaim(g, _) => g in w.commands.groups
    // A consumer acknowledges only what it has answered or buried.
    case Acknowledge(g, id) =>
        g in w.commands.groups
        && (g == GROUP ==> forall i ::
              0 <= i < |w.submitted| && w.submitted[i].id == id ==> Resolved(w, w.submitted[i]))
    // The retention script trims below a floor no group needs, and never an ungrouped stream.
    case TrimCommands(cutoff, safe, _) => w.commands.groups != map[] && Unneeded(w.commands, cutoff, safe)
    case Bury(_) => true
    case Deny(_) => true
    case Lock(key) => key !in w.held
    case Rollback(key) => key in w.held
    case Process(_, _, _, _) => CanProcess(w, s)
    case Emit(_) => true
    case RelayLock(row) => Unpublished(w, row) && w.outbox[row].available <= w.clock && row !in w.busy
    case RelayAppend(row) => row in w.busy && !w.busy[row]
    case RelayCommit(row) => row in w.busy && w.busy[row] && row in w.outbox && row in w.accounts
    case RelayFail(row, _, _) => row in w.busy && !w.busy[row] && row in w.outbox && row in w.accounts
    case RelayRollback(row) => row in w.busy && row in w.accounts
    case PruneReceipt(key, runStart) =>
      && key in w.receipts && key !in w.held && runStart <= w.clock
      && w.receipts[key].result.Some? && w.receipts[key].updated < runStart - w.retention
      && forall row :: row in w.outbox ==> !Waiting(w, row, key)
    case PruneRow(row) => row in w.outbox && row !in w.busy && w.outbox[row].published.Some?
    case Release(key) =>
      && key in w.receipts && key !in w.held
      && w.receipts[key].result.Some? && IsTransient(w.receipts[key].result.value)
      && forall row :: row in Released(w, key) ==> row !in w.busy
  }

  /** The waiting rows replay deletes: unpublished results of this command that report the transient failure. */
  function Released(w: World, key: ReceiptKey): set<nat> {
    set row | row in w.outbox && Waiting(w, row, key) && IsTransient(w.letters[row].mail.result)
  }

  function MarkReleased(accounts: map<nat, Account>, gone: set<nat>): map<nat, Account> {
    map row | row in accounts :: if row in gone then accounts[row].(released := true) else accounts[row]
  }

  function Apply(w: World, s: Step): World
    requires Enabled(w, s)
  {
    match s
    case Tick(seconds) => w.(clock := w.clock + seconds)
    case Submit(id, body) => w.(commands := Append(w.commands, id, body), submitted := w.submitted + [Entry(id, body)])
    case AddGroup(g) => w.(commands := CreateGroup(w.commands, g))
    case Read(g, count) => w.(commands := Deliver(w.commands, g, count))
    case Reclaim(g, idle) => w.(commands := Claim(w.commands, g, idle))
    case Acknowledge(g, id) => w.(commands := Ack(w.commands, g, id))
    case TrimCommands(_, safe, limit) =>
        w.(commands := w.commands.(entries := w.commands.entries[Min(limit, Below(w.commands.entries, safe))..]))
    case Bury(e) => w.(dead := w.dead + [e])
    case Deny(c) => Store(w, Letter(Reply(c, ResultWire(DENIED)), Unauthenticated))
    case Lock(key) => w.(held := w.held[key := w.clock])
    case Rollback(key) => w.(held := w.held - {key})
    case Process(_, _, _, _) => Processed(w, s)
    case Emit(event) => Store(w, Letter(Emission(event), Application))
    case RelayLock(row) => w.(busy := w.busy[row := false])
    case RelayAppend(row) => w.(busy := w.busy[row := true], events := w.events + [row])
    case RelayCommit(row) =>
      w.(busy := w.busy - {row},
         outbox := w.outbox[row := w.outbox[row].(published := Some(w.clock), attempts := w.outbox[row].attempts + 1)],
         accounts := w.accounts[row := w.accounts[row].(published := true)])
    case RelayFail(row, delay, lost) =>
      w.(busy := w.busy - {row},
         outbox :=
           w.outbox[row := w.outbox[row].(available := w.clock + delay, attempts := w.outbox[row].attempts + 1)],
         events := if lost then w.events + [row] else w.events,
         accounts := if lost then w.accounts[row := w.accounts[row].(lost := w.accounts[row].lost + 1)] else w.accounts)
    case RelayRollback(row) =>
      w.(busy := w.busy - {row},
         accounts :=
           if w.busy[row] then w.accounts[row := w.accounts[row].(rollbacks := w.accounts[row].rollbacks + 1)]
           else w.accounts)
    case PruneReceipt(key, _) => w.(receipts := w.receipts - {key})
    case PruneRow(row) => w.(outbox := w.outbox - {row})
    case Release(key) =>
      var gone := Released(w, key);
      w.(receipts := w.receipts[key := w.receipts[key].(result := None, updated := w.clock, life := w.lives)],
         lives := w.lives + 1,
         outbox := w.outbox - gone,
         accounts := MarkReleased(w.accounts, gone))
  }

  ghost predicate Next(w: World, v: World) {
    exists s: Step :: Enabled(w, s) && v == Apply(w, s)
  }

  ghost predicate Linked(trace: seq<World>, i: nat)
    requires 0 < i < |trace|
  {
    Next(trace[i - 1], trace[i])
  }

  /** A run: any interleaving of steps from an empty system. */
  ghost predicate Run(trace: seq<World>) {
    && |trace| > 0
    && (exists clock: int, retention: nat :: trace[0] == Start(clock, retention))
    && forall i {:trigger Linked(trace, i)} :: 0 < i < |trace| ==> Linked(trace, i)
  }

  /** One more step keeps a run a run. */
  lemma {:induction false} RunExtends(trace: seq<World>, s: Step)
    requires Run(trace) && Enabled(trace[|trace| - 1], s)
    ensures Run(trace + [Apply(trace[|trace| - 1], s)])
  {
    var v := Apply(trace[|trace| - 1], s);
    assert Next(trace[|trace| - 1], v);
    var longer := trace + [v];
    forall i | 0 < i < |longer| ensures Linked(longer, i) {
      if i < |trace| { assert Linked(trace, i); }
    }
  }
}
