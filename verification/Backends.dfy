/**
 * The database and Redis as one process sees them: the tables and keys, the steps this
 * process takes, and everything other processes do in between.
 */
module Backends {
  import opened Options
  import opened RedisStream
  import opened CommandModel
  import opened BridgeState
  import opened BridgeInvariants

  /** Steps of other processes: nobody else ends a transaction this process has open. */
  predicate Foreign(s: Step, keys: set<ReceiptKey>, rows: set<nat>) {
    match s
    case Rollback(key) => key !in keys
    case Process(c, _, _, _) => KeyOf(c) !in keys
    case RelayAppend(row) => row !in rows
    case RelayCommit(row) => row !in rows
    case RelayFail(row, _, _) => row !in rows
    case RelayRollback(row) => row !in rows
    case _ => true
  }

  /** The logs grow, the clock does not go back, groups and accounts stay. */
  ghost predicate Monotone(w: World, v: World) {
    && LogsGrow(w, v) && w.clock <= v.clock && v.retention == w.retention
    && w.commands.groups.Keys <= v.commands.groups.Keys
    && w.accounts.Keys <= v.accounts.Keys
  }

  /** A receipt row whose lock this process holds stays as it is, or stays absent. */
  ghost predicate ReceiptKept(w: World, v: World, key: ReceiptKey) {
    key in w.held ==>
      && key in v.held && v.held[key] == w.held[key]
      && (key in w.receipts <==> key in v.receipts)
      && (key in w.receipts ==> v.receipts[key] == w.receipts[key])
  }

  /** An unpublished outbox row whose lock this process holds stays as it is. */
  ghost predicate RowKept(w: World, v: World, row: nat) {
    row in w.busy && Unpublished(w, row) ==>
      row in v.busy && v.busy[row] == w.busy[row] && row in v.outbox && v.outbox[row] == w.outbox[row]
  }

  /** What a process can rely on while others work. */
  ghost predicate Relies(w: World, v: World, keys: set<ReceiptKey>, rows: set<nat>) {
    && Monotone(w, v)
    && (forall k :: k in keys ==> ReceiptKept(w, v, k))
    && forall row :: row in rows ==> RowKept(w, v, row)
  }

  lemma {:induction false} StepMonotone(w: World, s: Step)
    requires Enabled(w, s)
    ensures Monotone(w, Apply(w, s))
  {
    StepGrowsLogs(w, s);
  }

  lemma {:induction false} StepKeepsReceipt(w: World, s: Step, keys: set<ReceiptKey>, key: ReceiptKey)
    requires Enabled(w, s) && Foreign(s, keys, {}) && key in keys
    ensures ReceiptKept(w, Apply(w, s), key)
  {
    if s.Process? {
      ProcessKeepsReceipt(w, s, key);
    }
  }

  lemma {:induction false} ProcessKeepsReceipt(w: World, s: Step, key: ReceiptKey)
    requires Settles(w, s) && KeyOf(s.c) != key
    ensures ReceiptKept(w, Processed(w, s), key)
  {
    if Conflicts(w, s.c) {
    } else if Upserted(w, s.c).result.Some? {
    } else {
    }
  }

  lemma {:induction false} StepKeepsRow(w: World, s: Step, rows: set<nat>, row: nat)
    requires Enabled(w, s) && Foreign(s, {}, rows) && row in rows && row < |w.letters|
    ensures RowKept(w, Apply(w, s), row)
  {
  }

  lemma {:induction false} ForeignStepRelies(w: World, s: Step, keys: set<ReceiptKey>, rows: set<nat>)
    requires Enabled(w, s) && Foreign(s, keys, rows) && forall row :: row in rows ==> row < |w.letters|
    ensures Relies(w, Apply(w, s), keys, rows)
  {
    StepMonotone(w, s);
    forall k | k in keys ensures ReceiptKept(w, Apply(w, s), k) {
      StepKeepsReceipt(w, s, keys, k);
    }
    forall row | row in rows ensures RowKept(w, Apply(w, s), row) {
      StepKeepsRow(w, s, rows, row);
    }
  }

  lemma {:induction false} ReliesTransitive(u: World, v: World, w: World, keys: set<ReceiptKey>, rows: set<nat>)
    requires Relies(u, v, keys, rows) && Relies(v, w, keys, rows)
    ensures Relies(u, w, keys, rows)
  {
    forall k | k in keys ensures ReceiptKept(u, w, k) {
      assert ReceiptKept(u, v, k) && ReceiptKept(v, w, k);
    }
    forall row | row in rows ensures RowKept(u, w, row) {
      assert RowKept(u, v, row) && RowKept(v, w, row);
    }
  }

  class Backend {
    const retention: nat
    var clock: int
    var held: map<ReceiptKey, int>
    var receipts: map<ReceiptKey, Receipt>
    var effects: seq<Effect>
    var lives: nat
    var letters: seq<Letter>
    var accounts: map<nat, Account>
    var outbox: map<nat, Row>
    var busy: map<nat, bool>
    var events: seq<nat>
    var commands: Stream<Body>
    var submitted: seq<Entry<Body>>
    var dead: seq<Entry<Body>>
    ghost var trace: seq<World>   // everything that happened, by any process
    ghost var own: seq<Step>      // what this process did

    function State(): World
      reads this
    {
      World(clock, retention, held, receipts, effects, lives, letters, accounts, outbox, busy, events, commands,
            submitted, dead)
    }

    ghost predicate Valid()
      reads this
    {
      Run(trace) && trace[|trace| - 1] == State()
    }

    /** Since an earlier moment, the trace and the logs have only grown. */
    twostate predicate Grew()
      reads this
    {
      && old(trace) <= trace && old(letters) <= letters && old(dead) <= dead && old(submitted) <= submitted
      && (GROUP in old(commands).groups ==> GROUP in commands.groups)
    }

    constructor (now: int, retention: nat)
      ensures Valid() && trace == [Start(now, retention)] && own == []
    {
      this.retention := retention;
      clock, held, receipts, effects, lives, letters := now, map[], map[], [], 0, [];
      accounts, outbox, busy, events := map[], map[], map[], [];
      commands, submitted, dead := Stream([], map[], 0), [], [];
      trace, own := [Start(now, retention)], [];
    }

    /** Notes a step this process has just taken. */
    ghost method Took(s: Step)
      requires Run(trace) && Enabled(trace[|trace| - 1], s) && State() == Apply(trace[|trace| - 1], s)
      modifies this`trace, this`own
      ensures Valid() && trace == old(trace) + [State()] && own == old(own) + [s]
    {
      RunExtends(trace, s);
      trace, own := trace + [State()], own + [s];
    }

    /** SELECT … FOR UPDATE on a receipt row nobody holds. */
    method LockReceipt(key: ReceiptKey)
      requires Valid() && key !in held
      modifies `held, `trace, `own
      ensures Valid() && old(trace) <= trace && State() == old(State()).(held := old(held)[key := clock])
              && own == old(own) + [Lock(key)]
    {
      held := held[key := clock];
      Took(Lock(key));
    }

    /** ROLLBACK of a receipt transaction. */
    method RollbackReceipt(key: ReceiptKey)
      requires Valid() && key in held
      modifies `held, `trace, `own
      ensures Valid() && old(trace) <= trace && State() == old(State()).(held := old(held) - {key})
              && own == old(own) + [Rollback(key)]
    {
      held := held - {key};
      Took(Rollback(key));
    }

    /** OutboxStore::store, inside the caller's transaction. */
    method Store(letter: Letter)
      modifies `letters, `accounts, `outbox
      ensures State() == BridgeState.Store(old(State()), letter)
    {
      var row := |letters|;
      outbox := outbox[row := Row(0, clock, None)];
      accounts := accounts[row := Account(false, false, 0, 0)];
      letters := letters + [letter];
    }

    /** Takes over a state that other processes made. */
    method Load(v: World)
      requires v.retention == retention
      modifies `clock, `held, `receipts, `effects, `lives, `letters, `accounts, `outbox, `busy, `events, `commands,
               `submitted, `dead
      ensures State() == v
    {
      LoadTables(v);
      LoadStreams(v);
    }

    method LoadTables(v: World)
      modifies `clock, `held, `receipts, `effects, `lives, `letters, `accounts, `outbox, `busy
      ensures clock == v.clock && held == v.held && receipts == v.receipts && effects == v.effects && lives == v.lives
      ensures letters == v.letters && accounts == v.accounts && outbox == v.outbox && busy == v.busy
    {
      clock, held, receipts, effects, lives := v.clock, v.held, v.receipts, v.effects, v.lives;
      letters, accounts, outbox, busy := v.letters, v.accounts, v.outbox, v.busy;
    }

    method LoadStreams(v: World)
      modifies `events, `commands, `submitted, `dead
      ensures events == v.events && commands == v.commands && submitted == v.submitted && dead == v.dead
    {
      events, commands, submitted, dead := v.events, v.commands, v.submitted, v.dead;
    }

    /** Any number of steps by other processes, while this one holds the given receipt and outbox rows. */
    method Environment(keys: set<ReceiptKey>, rows: set<nat>)
      requires Valid() && forall row :: row in rows ==> row < |letters|
      modifies this
      ensures Valid() && Grew() && own == old(own)
      ensures Relies(old(State()), State(), keys, rows)
    {
      var rounds: nat := *;
      while rounds > 0
        invariant Valid() && own == old(own) && old(trace) <= trace
        invariant Relies(old(State()), State(), keys, rows)
      {
        var s: Step := *;
        var w := State();
        if Enabled(w, s) && Foreign(s, keys, rows) {
          ForeignStepRelies(w, s, keys, rows);
          ReliesTransitive(old(State()), w, Apply(w, s), keys, rows);
          RunExtends(trace, s);
          Load(Apply(w, s));
          trace := trace + [State()];
        }
        rounds := rounds - 1;
      }
    }

    /** The same between two commands of a process that holds no lock. */
    method Pause()
      requires Valid()
      modifies this
      ensures Valid() && Grew() && own == old(own)
    {
      Environment({}, {});
    }

    /** The same while a receipt row is locked: nobody else unlocks it. */
    method PauseHolding(key: ReceiptKey)
      requires Valid() && key in held
      modifies this
      ensures Valid() && Grew() && own == old(own) && key in held && held[key] == old(held[key])
    {
      ghost var w := State();
      Environment({key}, {});
      assert ReceiptKept(w, State(), key);
    }

    /** The same while an unpublished outbox row is locked: nobody else changes it. */
    method PauseHoldingRow(row: nat)
      requires Valid() && row in busy && row in outbox && outbox[row].published.None? && row < |letters|
               && row in accounts
      modifies this
      ensures Valid() && Grew() && own == old(own)
      ensures row in busy && busy[row] == old(busy[row]) && row in outbox && outbox[row] == old(outbox[row])
              && row in accounts
    {
      ghost var w := State();
      Environment({}, {row});
      assert RowKept(w, State(), row);
    }
  }
}
