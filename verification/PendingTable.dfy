/** gateway/src/runtime.ts: the table of commands waiting for their result. */
module PendingTable {
  import opened Maps

  /** A socket's part: requests under way, and for each command id the attempt that waits for it. */
  datatype Local = Local(operations: int, pending: map<string, nat>)

  /** One client request; a command with a callback wants an answer. */
  datatype Call = Call(socket: nat, id: string, callback: bool, command: bool)

  /** Where a request is: before admission, before the append's outcome, or on its way out with an error. */
  datatype Stage = Checking | Publishing | Failing

  /** The four ways an attempt can leave the table. */
  datatype Exit = ByResult | ByTimeout | ByDisconnect | ByAppendFailure

  // ------------------------------------------------------------- the count

  /** The sum of the sockets' tables. */
  ghost function Total(state: map<nat, Local>): nat {
    if state == map[] then 0
    else
      var s :| s in state;
      |state[s].pending| + Total(state - {s})
  }

  lemma {:induction false} TotalSplits(state: map<nat, Local>, k: nat)
    requires k in state
    ensures Total(state) == |state[k].pending| + Total(state - {k})
    decreases |state|
  {
    var s :| s in state && Total(state) == |state[s].pending| + Total(state - {s});
    if s != k {
      var rest := state - {s} - {k};
      assert Total(state - {s}) == |state[k].pending| + Total(rest) by {
        Fewer(state, s);
        TotalSplits(state - {s}, k);
      }
      assert Total(state - {k}) == |state[s].pending| + Total(rest) by {
        Fewer(state, k);
        TotalSplits(state - {k}, s);
        assert state - {k} - {s} == rest;
      }
    }
  }

  lemma {:induction false} TotalWith(state: map<nat, Local>, s: nat, l: Local)
    ensures Total(state[s := l]) == Total(state) - (if s in state then |state[s].pending| else 0) + |l.pending|
  {
    TotalSplits(state[s := l], s);
    WithoutWhatWasPut(state, s, l);
    TotalWithout(state, s);
  }

  lemma {:induction false} TotalWithout(state: map<nat, Local>, s: nat)
    ensures Total(state - {s}) == Total(state) - if s in state then |state[s].pending| else 0
  {
    if s in state {
      TotalSplits(state, s);
    } else {
      WithoutWhatIsNot(state, s);
    }
  }

  // ------------------------------------------------- requests under way

  /** The requests of one socket that are under way. */
  ghost function RunningOn(calls: map<nat, Call>, running: map<nat, Stage>, s: nat): set<nat> {
    set n | n in running && n in calls && calls[n].socket == s
  }

  lemma {:induction false} OneMore(calls: map<nat, Call>, running: map<nat, Stage>, n: nat, call: Call, s: nat)
    requires n !in calls && n !in running
    ensures |RunningOn(calls[n := call], running[n := Checking], s)| ==
              |RunningOn(calls, running, s)| + if call.socket == s then 1 else 0
  {
    assert RunningOn(calls[n := call], running[n := Checking], s) == RunningOn(calls, running, s) + if call.socket == s
           then {n} else {};
  }

  lemma {:induction false} OneLess(calls: map<nat, Call>, running: map<nat, Stage>, n: nat, s: nat)
    requires n in running && n in calls
    ensures |RunningOn(calls, running - {n}, s)| == |RunningOn(calls, running, s)| - if calls[n].socket == s then 1
            else 0
  {
    assert RunningOn(calls, running - {n}, s) == RunningOn(calls, running, s) - if calls[n].socket == s then {n}
           else {};
  }

  lemma {:induction false} Restaged(calls: map<nat, Call>, running: map<nat, Stage>, n: nat, stage: Stage, s: nat)
    requires n in running
    ensures RunningOn(calls, running[n := stage], s) == RunningOn(calls, running, s)
  {
  }

  // --------------------------------------------------------- the invariant

  /** What is known about every call: its stage, how it left the table, and whether it was answered. */
  datatype Books = Books(connected: set<nat>, calls: map<nat, Call>, running: map<nat, Stage>, admitted: set<nat>,
                         exits: map<nat, Exit>, responded: set<nat>, callbacks: seq<nat>)

  predicate Waiting(state: map<nat, Local>, call: Call, n: nat) {
    call.socket in state && call.id in state[call.socket].pending && state[call.socket].pending[call.id] == n
  }

  /** An entry of the table belongs to an admitted attempt that has not left. */
  ghost predicate EntryValid(s: nat, l: Local, id: string, b: Books)
    requires id in l.pending
  {
    var n := l.pending[id];
    n in b.calls && b.calls[n] == Call(s, id, true, true) && n in b.admitted && n !in b.exits
  }

  ghost predicate SocketValid(s: nat, l: Local, limit: nat, b: Books) {
    && |l.pending| <= limit && l.operations == |RunningOn(b.calls, b.running, s)| && l.operations <= 4
    && forall id {:trigger EntryValid(s, l, id, b)} :: id in l.pending ==> EntryValid(s, l, id, b)
  }

  ghost predicate CallValid(n: nat, state: map<nat, Local>, b: Books)
    requires n in b.calls
  {
    var call := b.calls[n];
    // An admitted attempt is in the table until it leaves; it leaves once, since exits are never rewritten.
    && (n in b.admitted && n !in b.exits ==> Waiting(state, call, n) && n !in b.responded)
    && (n in b.exits ==> n in b.admitted) && (n in b.admitted ==> call.callback)
    && (n in b.running && b.running[n].Checking? ==> n !in b.admitted && n !in b.responded)
    && (n in b.running && b.running[n].Publishing? && call.callback ==> n in b.admitted)
    && (n in b.exits && call.socket in b.connected ==> n in b.responded)
    // A command's callback is answered, unless its socket is gone, or it is under way or still waiting.
    && (n in b.responded && call.callback && call.socket in b.connected ==> n in b.callbacks)
    && (call.command && call.callback && call.socket in b.connected && n !in b.running && n !in b.responded ==>
        n in b.admitted && n !in b.exits)
    && (n in b.callbacks ==> n in b.responded)
  }

  /** No callback is called twice. */
  predicate Distinct(callbacks: seq<nat>) {
    forall i, j :: 0 <= i < j < |callbacks| ==> callbacks[i] != callbacks[j]
  }

  ghost predicate SocketsValid(state: map<nat, Local>, limit: nat, b: Books) {
    forall s {:trigger SocketValid(s, state[s], limit, b)} :: s in state ==> SocketValid(s, state[s], limit, b)
  }

  ghost predicate CallsValid(state: map<nat, Local>, b: Books) {
    forall n {:trigger CallValid(n, state, b)} :: n in b.calls ==> CallValid(n, state, b)
  }

  predicate Named(b: Books, next: nat) {
    && (forall n :: n in b.calls ==> n < next)
    && b.running.Keys <= b.calls.Keys && b.admitted <= b.calls.Keys && b.responded <= b.calls.Keys
    && (forall n :: n in b.callbacks ==> n in b.calls) && b.exits.Keys <= b.calls.Keys
  }

  ghost predicate TableValid(state: map<nat, Local>, limit: nat, b: Books, next: nat) {
    Named(b, next) && SocketsValid(state, limit, b) && CallsValid(state, b) && Distinct(b.callbacks)
  }

  // ------------------------------------------------------------- the steps

  /** A request enters: one more operation on its socket. */
  lemma {:induction false} Starts(state: map<nat, Local>, limit: nat, b: Books, next: nat, call: Call)
    requires TableValid(state, limit, b, next) && call.socket in state && state[call.socket].operations < 4
    ensures var s, l := call.socket, state[call.socket];
            TableValid(state[s := l.(operations := l.operations + 1)], limit,
                       b.(calls := b.calls[next := call], running := b.running[next := Checking]), next + 1)
  {
    var s, l := call.socket, state[call.socket];
    var after, c :=
      state[s := l.(operations := l.operations + 1)],
      b.(calls := b.calls[next := call], running := b.running[next := Checking]);
    forall t | t in after ensures SocketValid(t, after[t], limit, c) {
      assert SocketValid(t, state[t], limit, b);
      OneMore(b.calls, b.running, next, call, t);
      forall id | id in after[t].pending ensures EntryValid(t, after[t], id, c) {
        assert EntryValid(t, state[t], id, b);
      }
    }
    forall n | n in c.calls ensures CallValid(n, after, c) {
      if n != next { assert CallValid(n, state, b); }
    }
  }

  /** A call refused at the door counts as answered. */
  lemma {:induction false} Refuses(state: map<nat, Local>, limit: nat, b: Books, next: nat, call: Call)
    requires TableValid(state, limit, b, next)
    ensures TableValid(state, limit, Answered(b.(calls := b.calls[next := call]), next), next + 1)
  {
    var c := Answered(b.(calls := b.calls[next := call]), next);
    forall t | t in state ensures SocketValid(t, state[t], limit, c) {
      assert SocketValid(t, state[t], limit, b);
      assert RunningOn(c.calls, c.running, t) == RunningOn(b.calls, b.running, t);
      forall id | id in state[t].pending ensures EntryValid(t, state[t], id, c) {
        assert EntryValid(t, state[t], id, b);
      }
    }
    forall n | n in c.calls ensures CallValid(n, state, c) {
      if n != next { assert CallValid(n, state, b); }
    }
  }

  /** The closure `respond`: the first value goes to the callback, if there is one and its socket is connected. */
  function Answered(b: Books, n: nat): Books {
    if n in b.responded then b
    else b.(responded := b.responded + {n},
            callbacks :=
              if n in b.calls && b.calls[n].callback && b.calls[n].socket in b.connected then b.callbacks + [n]
              else b.callbacks)
  }

  lemma {:induction false} Responds(state: map<nat, Local>, limit: nat, b: Books, next: nat, n: nat)
    requires TableValid(state, limit, b, next) && n in b.calls && !Waiting(state, b.calls[n], n)
             && (n in b.running ==> !b.running[n].Checking?)
    ensures TableValid(state, limit, Answered(b, n), next)
  {
    var c := Answered(b, n);
    assert CallValid(n, state, b);
    forall t | t in state ensures SocketValid(t, state[t], limit, c) {
      assert SocketValid(t, state[t], limit, b);
      forall id | id in state[t].pending ensures EntryValid(t, state[t], id, c) {
        assert EntryValid(t, state[t], id, b);
      }
    }
    forall m | m in c.calls ensures CallValid(m, state, c) {
      assert CallValid(m, state, b);
    }
  }

  /** Admission: a new entry for a command id that has none. */
  lemma {:induction false} Admits(state: map<nat, Local>, limit: nat, b: Books, next: nat, n: nat)
    requires TableValid(state, limit, b, next) && n in b.running && b.running[n].Checking? && n in b.calls
    requires b.calls[n].command && b.calls[n].callback && b.calls[n].socket in state
    requires var l := state[b.calls[n].socket]; b.calls[n].id !in l.pending && |l.pending| < limit
    ensures var call := b.calls[n];
            var l := state[call.socket];
            TableValid(state[call.socket := l.(pending := l.pending[call.id := n])], limit,
                       b.(running := b.running[n := Publishing], admitted := b.admitted + {n}), next)
  {
    var call := b.calls[n];
    var s, l := call.socket, state[call.socket];
    var after, c :=
      state[s := l.(pending := l.pending[call.id := n])],
      b.(running := b.running[n := Publishing], admitted := b.admitted + {n});
    assert CallValid(n, state, b);
    forall t | t in after ensures SocketValid(t, after[t], limit, c) {
      assert SocketValid(t, state[t], limit, b);
      Restaged(b.calls, b.running, n, Publishing, t);
      forall id | id in after[t].pending ensures EntryValid(t, after[t], id, c) {
        if t != s || id != call.id { assert EntryValid(t, state[t], id, b); }
      }
    }
    forall m | m in c.calls ensures CallValid(m, after, c) {
      assert CallValid(m, state, b);
    }
  }

  /** A command without a callback goes on without an entry, and any request may fail. */
  lemma {:induction false} PassesOn(state: map<nat, Local>, limit: nat, b: Books, next: nat, n: nat, stage: Stage)
    requires TableValid(state, limit, b, next) && n in b.running && n in b.calls
    requires stage.Failing? || (stage.Publishing? && !b.calls[n].callback)
    ensures TableValid(state, limit, b.(running := b.running[n := stage]), next)
  {
    var c := b.(running := b.running[n := stage]);
    forall t | t in state ensures SocketValid(t, state[t], limit, c) {
      assert SocketValid(t, state[t], limit, b);
      Restaged(b.calls, b.running, n, stage, t);
      forall id | id in state[t].pending ensures EntryValid(t, state[t], id, c) {
        assert EntryValid(t, state[t], id, b);
      }
    }
    forall m | m in c.calls ensures CallValid(m, state, c) {
      assert CallValid(m, state, b);
    }
  }

  /** removePending, together with what the caller does about the callback. */
  lemma {:induction false} Leaves(state: map<nat, Local>, limit: nat, b: Books, next: nat, n: nat, exit: Exit)
    requires TableValid(state, limit, b, next) && n in b.calls && Waiting(state, b.calls[n], n)
    ensures n in b.admitted && n !in b.exits && n !in b.responded && b.calls[n].callback
    ensures var call := b.calls[n];
            var l := state[call.socket];
            TableValid(state[call.socket := l.(pending := l.pending - {call.id})], limit,
                       Answered(b.(exits := b.exits[n := exit]), n), next)
  {
    var call := b.calls[n];
    var s, l := call.socket, state[call.socket];
    var after, c := state[s := l.(pending := l.pending - {call.id})], Answered(b.(exits := b.exits[n := exit]), n);
    assert CallValid(n, state, b) && SocketValid(s, l, limit, b) && EntryValid(s, l, call.id, b);
    Fewer(l.pending, call.id);
    forall t | t in after ensures SocketValid(t, after[t], limit, c) {
      assert SocketValid(t, state[t], limit, b);
      forall id | id in after[t].pending ensures EntryValid(t, after[t], id, c) {
        assert EntryValid(t, state[t], id, b);
      }
    }
    forall m | m in c.calls ensures CallValid(m, after, c) {
      assert CallValid(m, state, b);
    }
  }

  /** The disconnect handler removes an entry without a word: its socket is not connected any more. */
  lemma {:induction false} LeavesSilently(state: map<nat, Local>, limit: nat, b: Books, next: nat, n: nat)
    requires TableValid(state, limit, b, next) && n in b.calls && Waiting(state, b.calls[n], n)
             && b.calls[n].socket !in b.connected
    ensures n in b.admitted && n !in b.exits
    ensures var call := b.calls[n];
            var l := state[call.socket];
            TableValid(state[call.socket := l.(pending := l.pending - {call.id})], limit,
                       b.(exits := b.exits[n := ByDisconnect]), next)
  {
    var call := b.calls[n];
    var s, l := call.socket, state[call.socket];
    var after, c := state[s := l.(pending := l.pending - {call.id})], b.(exits := b.exits[n := ByDisconnect]);
    assert CallValid(n, state, b) && SocketValid(s, l, limit, b) && EntryValid(s, l, call.id, b);
    Fewer(l.pending, call.id);
    forall t | t in after ensures SocketValid(t, after[t], limit, c) {
      assert SocketValid(t, state[t], limit, b);
      forall id | id in after[t].pending ensures EntryValid(t, after[t], id, c) {
        assert EntryValid(t, state[t], id, b);
      }
    }
    forall m | m in c.calls ensures CallValid(m, after, c) {
      assert CallValid(m, state, b);
    }
  }

  /** Connections come and go; a socket is forgotten once its table is empty. */
  lemma {:induction false} Disconnects(state: map<nat, Local>, limit: nat, b: Books, next: nat, s: nat)
    requires TableValid(state, limit, b, next)
    ensures TableValid(state, limit, b.(connected := b.connected - {s}), next)
  {
    var c := b.(connected := b.connected - {s});
    forall t | t in state ensures SocketValid(t, state[t], limit, c) {
      assert SocketValid(t, state[t], limit, b);
      forall id | id in state[t].pending ensures EntryValid(t, state[t], id, c) {
        assert EntryValid(t, state[t], id, b);
      }
    }
    forall m | m in c.calls ensures CallValid(m, state, c) {
      assert CallValid(m, state, b);
    }
  }

  lemma {:induction false} Forgets(state: map<nat, Local>, limit: nat, b: Books, next: nat, s: nat)
    requires TableValid(state, limit, b, next) && (s in state ==> state[s].pending == map[])
    ensures TableValid(state - {s}, limit, b, next)
  {
    var after := state - {s};
    forall t | t in after ensures SocketValid(t, after[t], limit, b) {
      assert SocketValid(t, state[t], limit, b);
    }
    forall m | m in b.calls ensures CallValid(m, after, b) {
      assert CallValid(m, state, b);
    }
  }

  lemma {:induction false} Connects(state: map<nat, Local>, limit: nat, b: Books, next: nat, s: nat)
    requires TableValid(state, limit, b, next) && s !in state && forall n :: n in b.calls ==> b.calls[n].socket != s
    ensures TableValid(state[s := Local(0, map[])], limit, b.(connected := b.connected + {s}), next)
  {
    var after, c := state[s := Local(0, map[])], b.(connected := b.connected + {s});
    assert RunningOn(b.calls, b.running, s) == {};
    forall t | t in after ensures SocketValid(t, after[t], limit, c) {
      if t != s {
        assert SocketValid(t, state[t], limit, b);
        forall id | id in after[t].pending ensures EntryValid(t, after[t], id, c) {
          assert EntryValid(t, state[t], id, b);
        }
      }
    }
    forall m | m in b.calls ensures CallValid(m, after, c) {
      assert CallValid(m, state, b);
    }
  }

  /** A request may end once its callback is answered, or its attempt is waiting. */
  predicate MayEnd(b: Books, n: nat)
    requires n in b.calls
  {
    b.calls[n].command && b.calls[n].callback && b.calls[n].socket in b.connected ==>
        n in b.responded || (n in b.admitted && n !in b.exits)
  }

  /** A request ends: one operation less. */
  lemma {:induction false} Ends(state: map<nat, Local>, limit: nat, b: Books, next: nat, n: nat)
    requires TableValid(state, limit, b, next) && n in b.running && n in b.calls && MayEnd(b, n)
             && b.calls[n].socket in state
    ensures var s := b.calls[n].socket;
            && state[s].operations > 0
            && TableValid(state[s := state[s].(operations := state[s].operations - 1)], limit,
                          b.(running := b.running - {n}), next)
  {
    var s, c := b.calls[n].socket, b.(running := b.running - {n});
    assert SocketValid(s, state[s], limit, b);
    OneLess(b.calls, b.running, n, s);
    var after := state[s := state[s].(operations := state[s].operations - 1)];
    forall t | t in after ensures SocketValid(t, after[t], limit, c) {
      assert SocketValid(t, state[t], limit, b);
      OneLess(b.calls, b.running, n, t);
      forall id | id in after[t].pending ensures EntryValid(t, after[t], id, c) {
        assert EntryValid(t, state[t], id, b);
      }
    }
    forall m | m in c.calls ensures CallValid(m, after, c) {
      assert CallValid(m, state, b);
    }
  }

  /** A request of a socket that is gone ends without a trace. */
  lemma {:induction false} EndsUnseen(state: map<nat, Local>, limit: nat, b: Books, next: nat, n: nat)
    requires TableValid(state, limit, b, next) && n in b.running && n in b.calls && MayEnd(b, n)
             && b.calls[n].socket !in state
    ensures TableValid(state, limit, b.(running := b.running - {n}), next)
  {
    var c := b.(running := b.running - {n});
    forall t | t in state ensures SocketValid(t, state[t], limit, c) {
      assert SocketValid(t, state[t], limit, b);
      OneLess(b.calls, b.running, n, t);
      forall id | id in state[t].pending ensures EntryValid(t, state[t], id, c) {
        assert EntryValid(t, state[t], id, b);
      }
    }
    forall m | m in c.calls ensures CallValid(m, state, c) {
      assert CallValid(m, state, b);
    }
  }

  lemma {:induction false} WaitingIsAdmitted(state: map<nat, Local>, limit: nat, b: Books, next: nat, n: nat)
    requires TableValid(state, limit, b, next) && n in b.calls && Waiting(state, b.calls[n], n)
    ensures n in b.admitted && n !in b.exits
  {
    var call := b.calls[n];
    assert SocketValid(call.socket, state[call.socket], limit, b)
           && EntryValid(call.socket, state[call.socket], call.id, b);
  }

  /** An admitted attempt is in exactly one of two places: its socket's table, or the record of how it left. */
  lemma {:induction false} LeavesExactlyOnce(state: map<nat, Local>, limit: nat, b: Books, next: nat, n: nat)
    requires TableValid(state, limit, b, next) && n in b.admitted
    ensures n in b.calls && (n in b.exits <==> !Waiting(state, b.calls[n], n))
  {
    assert CallValid(n, state, b);
    if Waiting(state, b.calls[n], n) {
      WaitingIsAdmitted(state, limit, b, next, n);
    }
  }

  /**
   * On a connected socket, every command with a callback is under way, waiting, or its callback
   * was called exactly once.
   */
  lemma {:induction false} CallbackAccounted(state: map<nat, Local>, limit: nat, b: Books, next: nat, n: nat)
    requires TableValid(state, limit, b, next) && n in b.calls && b.calls[n].command && b.calls[n].callback
             && b.calls[n].socket in b.connected
    ensures n in b.running || Waiting(state, b.calls[n], n)
            || exists i :: 0 <= i < |b.callbacks| && b.callbacks[i] == n && forall j ::
              0 <= j < |b.callbacks| && b.callbacks[j] == n ==> j == i
  {
    assert CallValid(n, state, b);
    if n in b.callbacks {
      var i :| 0 <= i < |b.callbacks| && b.callbacks[i] == n;
      forall j | 0 <= j < |b.callbacks| && b.callbacks[j] == n ensures j == i {
      }
    }
  }

  /** With nothing under way, nothing can be admitted: a drained gateway stays drained. */
  lemma {:induction false} QuietHasNoRequests(state: map<nat, Local>, limit: nat, b: Books, next: nat, n: nat)
    requires TableValid(state, limit, b, next) && n in b.running && n in b.calls && b.calls[n].socket in state
    ensures state[b.calls[n].socket].operations > 0
  {
    var s := b.calls[n].socket;
    assert SocketValid(s, state[s], limit, b);
    assert n in RunningOn(b.calls, b.running, s);
  }

  /** A count of zero means empty tables. */
  lemma {:induction false} ZeroIsEmpty(state: map<nat, Local>, s: nat)
    requires Total(state) == 0 && s in state
    ensures state[s].pending == map[]
  {
    TotalSplits(state, s);
  }

  /** The tables of all sockets but some, which are gone, are as they were. */
  ghost predicate TablesKept(before: map<nat, Local>, after: map<nat, Local>, gone: set<nat>) {
    && after.Keys == before.Keys - gone
    && forall s :: s in after ==> after[s].pending == before[s].pending
  }

  /** One entry left its socket's table. */
  ghost predicate EntryLeft(before: map<nat, Local>, after: map<nat, Local>, s: nat, id: string) {
    && after.Keys == before.Keys
    && forall t :: t in after ==> after[t].pending == if t == s then before[t].pending - {id} else before[t].pending
  }

  /** Exits are only ever added. */
  ghost predicate Kept(before: map<nat, Exit>, after: map<nat, Exit>) {
    forall n :: n in before ==> n in after && after[n] == before[n]
  }

  /** The exits after the disconnect handler: every waiting attempt has left, and nothing else has changed. */
  ghost predicate Abandoned(before: map<nat, Exit>, after: map<nat, Exit>, pending: map<string, nat>) {
    && Kept(before, after) && AllLeft(pending, after, ByDisconnect)
    && forall n :: n in after && n !in before ==> after[n] == ByDisconnect && n in pending.Values
  }

  /** Part-way: the entries still to come are as they were, the others have left. */
  ghost predicate Abandoning(before: map<nat, Exit>, after: map<nat, Exit>, pending: map<string, nat>,
                             rest: map<string, nat>) {
    && Kept(before, after) && rest.Keys <= pending.Keys
    && (forall n :: n in after && n !in before ==> after[n] == ByDisconnect && n in pending.Values)
    && (forall id :: id in rest ==> rest[id] == pending[id])
    && forall id :: id in pending && id !in rest ==> pending[id] in after && after[pending[id]] == ByDisconnect
  }

  lemma {:induction false} OneAbandoned(before: map<nat, Exit>, after: map<nat, Exit>, pending: map<string, nat>,
                                        rest: map<string, nat>, id: string)
    requires Abandoning(before, after, pending, rest) && id in rest && rest[id] !in after
    ensures Abandoning(before, after[rest[id] := ByDisconnect], pending, rest - {id})
  {
    assert pending[id] in pending.Values;
  }

  ghost predicate AllLeft(pending: map<string, nat>, exits: map<nat, Exit>, exit: Exit) {
    forall id :: id in pending ==> pending[id] in exits && exits[pending[id]] == exit
  }
}
