/**
 * gateway/src/runtime.ts: namedCommand, clientRequest, localResult, the disconnect handler and
 * the drain. Each method is what happens between two awaits.
 */
module Acknowledging {
  import opened Maps
  import opened PendingTable

  /** What rate limit and session check came to. */
  datatype Check = Passed | Limited | SessionOver

  /** A connected socket whose table has no attempt for this id, and room for one if the caller wants an answer. */
  predicate Admissible(state: map<nat, Local>, connected: set<nat>, count: int, maxPerSocket: nat, maxTotal: nat,
                       call: Call) {
    && call.socket in state && call.socket in connected && call.id !in state[call.socket].pending
    && (call.callback ==> |state[call.socket].pending| < maxPerSocket && count < maxTotal)
  }

  class PendingAcks {
    const maxPerSocket: nat
    const maxTotal: nat
    var draining: bool
    var state: map<nat, Local>
    var connected: set<nat>
    var pendingAckCount: int
    var calls: map<nat, Call>
    var running: map<nat, Stage>       // requests under way
    var responded: set<nat>
    var next: nat                      // the identity of the next call, and its request id
    ghost var admitted: set<nat>
    ghost var exits: map<nat, Exit>
    ghost var callbacks: seq<nat>

    ghost function Record(): Books
      reads `connected, `calls, `running, `admitted, `exits, `responded, `callbacks
    {
      Books(connected, calls, running, admitted, exits, responded, callbacks)
    }

    ghost predicate Valid()
      reads this
    {
      TableValid(state, maxPerSocket, Record(), next) && pendingAckCount == Total(state) && pendingAckCount <= maxTotal
    }

    /** Nothing is pending, and no request is under way on a connected socket. */
    ghost predicate Quiet()
      reads `pendingAckCount, `state
    {
      pendingAckCount == 0 && forall s :: s in state ==> state[s].operations == 0
    }

    constructor (maxPerSocket: nat, maxTotal: nat)
      ensures Valid() && Quiet() && !draining && this.maxPerSocket == maxPerSocket && this.maxTotal == maxTotal
    {
      this.maxPerSocket, this.maxTotal := maxPerSocket, maxTotal;
      draining, state, connected, pendingAckCount, calls, running, responded, next :=
        false, map[], {}, 0, map[], map[], {}, 0;
      admitted, exits, callbacks := {}, map[], [];
    }

    method Connect(s: nat)
      requires Valid() && s !in state && forall n :: n in calls ==> calls[n].socket != s
      modifies `state, `connected
      ensures Valid() && state == (if draining then old(state) else old(state)[s := Local(0, map[])])
      ensures old(Quiet()) ==> Quiet()
    {
      if !draining {
        Connects(state, maxPerSocket, Record(), next, s);
        TotalWith(state, s, Local(0, map[]));
        state, connected := state[s := Local(0, map[])], connected + {s};
      }
    }

    /** A request at the door: refused at once, or one more operation. */
    method Request(call: Call) returns (n: nat, started: bool)
      requires Valid()
      modifies `state, `calls, `running, `responded, `callbacks, `next
      ensures Valid() && n == old(next) && (old(draining && Quiet()) ==> Quiet())
      ensures started <==>
                !draining && call.socket in old(state) && call.socket in connected
                && old(state)[call.socket].operations < 4
      ensures started ==>
                state == old(state)[call.socket :=
                  old(state)[call.socket].(operations := old(state)[call.socket].operations + 1)]
                          && n in running && running[n].Checking? && callbacks == old(callbacks)
      ensures !started ==> state == old(state) && running == old(running)
                           && callbacks == if call.callback && call.socket in connected then old(callbacks) + [n]
                              else old(callbacks)
    {
      n := next;
      var s := call.socket;
      started := !draining && s in state && s in connected && state[s].operations < 4;
      if started {
        Enter(call);
      } else {
        TurnAway(call);
      }
    }

    method Enter(call: Call)
      requires Valid() && call.socket in state && state[call.socket].operations < 4
      modifies `state, `calls, `running, `next
      ensures Valid() && next == old(next) + 1 && calls == old(calls)[old(next) := call]
              && running == old(running)[old(next) := Checking]
      ensures state == old(state)[call.socket :=
        old(state)[call.socket].(operations := old(state)[call.socket].operations + 1)]
    {
      var s, l := call.socket, state[call.socket].(operations := state[call.socket].operations + 1);
      Starts(state, maxPerSocket, Record(), next, call);
      TotalWith(state, s, l);
      state, running, calls, next := state[s := l], running[next := Checking], calls[next := call], next + 1;
    }

    method TurnAway(call: Call)
      requires Valid()
      modifies `calls, `responded, `callbacks, `next
      ensures Valid() && next == old(next) + 1 && calls == old(calls)[old(next) := call]
      ensures callbacks == if call.callback && call.socket in connected then old(callbacks) + [old(next)]
              else old(callbacks)
    {
      assert next !in calls && next !in responded;
      Refuses(state, maxPerSocket, Record(), next, call);
      responded, callbacks :=
        responded + {next}, if call.callback && call.socket in connected then callbacks + [next] else callbacks;
      calls, next := calls[next := call], next + 1;
    }

    /** `respond`: only the first value counts, and only while the socket is connected. */
    method Respond(n: nat)
      requires Valid() && n in calls && !Waiting(state, calls[n], n) && (n in running ==> !running[n].Checking?)
      modifies `responded, `callbacks
      ensures Valid() && n in responded && responded == old(responded) + {n}
      ensures callbacks == if n !in old(responded) && calls[n].callback && calls[n].socket in connected
              then old(callbacks) + [n] else old(callbacks)
    {
      Responds(state, maxPerSocket, Record(), next, n);
      if n !in responded {
        responded := responded + {n};
        if calls[n].callback && calls[n].socket in connected {
          callbacks := callbacks + [n];
        }
      }
    }

    /** removePending and the answer: the attempt leaves the table, and its callback is called. */
    method Complete(n: nat, exit: Exit)
      requires Valid() && n in calls && Waiting(state, calls[n], n)
      modifies `state, `pendingAckCount, `exits, `responded, `callbacks
      ensures Valid() && pendingAckCount == old(pendingAckCount) - 1
      ensures n !in old(exits) && exits == old(exits)[n := exit]
      ensures n !in old(responded) && responded == old(responded) + {n} && calls[n].callback
      ensures var s := calls[n].socket;
              state == old(state)[s := old(state)[s].(pending := old(state)[s].pending - {calls[n].id})]
      ensures callbacks == if calls[n].socket in connected then old(callbacks) + [n] else old(callbacks)
    {
      var s, l := calls[n].socket, state[calls[n].socket].(pending := state[calls[n].socket].pending - {calls[n].id});
      ghost var after := Answered(Record().(exits := exits[n := exit]), n);
      Leaves(state, maxPerSocket, Record(), next, n, exit);
      TotalWith(state, s, l);
      Fewer(state[s].pending, calls[n].id);
      state, pendingAckCount, exits := state[s := l], pendingAckCount - 1, exits[n := exit];
      responded, callbacks := responded + {n}, if s in connected then callbacks + [n] else callbacks;
      assert Record() == after;
    }

    /** The finally block of clientRequest. */
    method End(n: nat)
      requires Valid() && n in running && n in calls && MayEnd(Record(), n)
      modifies `state, `running
      ensures Valid() && running == old(running) - {n}
      ensures var s := calls[n].socket;
              if s in old(state) then old(state)[s].operations > 0
              && state == old(state)[s := old(state)[s].(operations := old(state)[s].operations - 1)]
              else state == old(state)
      ensures TablesKept(old(state), state, {}) && (old(Quiet()) ==> Quiet())
    {
      var s := calls[n].socket;
      if s in state {
        var l := state[s].(operations := state[s].operations - 1);
        Ends(state, maxPerSocket, Record(), next, n);
        TotalWith(state, s, l);
        state := state[s := l];
      } else {
        EndsUnseen(state, maxPerSocket, Record(), next, n);
      }
      running := running - {n};
    }

    /** An error: the callback hears of it, and the request is over. */
    method Fail(n: nat)
      requires Valid() && n in running && n in calls && !Waiting(state, calls[n], n)
      modifies `state, `running, `responded, `callbacks
      ensures Valid() && running == old(running) - {n} && n in responded
      ensures TablesKept(old(state), state, {})
      ensures callbacks == if n !in old(responded) && calls[n].callback && calls[n].socket in connected
              then old(callbacks) + [n] else old(callbacks)
      ensures old(Quiet()) ==> Quiet()
    {
      PassesOn(state, maxPerSocket, Record(), next, n, Failing);
      running := running[n := Failing];
      Respond(n);
      End(n);
    }

    /** The callback of clientRequest for a command, up to the append: it fails, or the attempt is admitted. */
    method Admit(n: nat, check: Check, wellFormed: bool) returns (ok: bool)
      requires Valid() && n in running && running[n].Checking? && n in calls && calls[n].command
      modifies `state, `connected, `pendingAckCount, `running, `responded, `admitted, `exits, `callbacks
      ensures Valid() && (old(draining && Quiet()) ==> Quiet())
      // Without a callback a command passes full tables.
      ensures ok <==>
                var s := calls[n].socket;
                && check.Passed? && wellFormed && s in old(state) && s in old(connected)
                && calls[n].id !in old(state)[s].pending
                && (!calls[n].callback
                    || (|old(state)[s].pending| < maxPerSocket && old(pendingAckCount) < maxTotal))
      ensures ok ==> n in running && running[n].Publishing? && callbacks == old(callbacks)
      ensures ok && calls[n].callback ==>
                && Waiting(state, calls[n], n) && pendingAckCount == old(pendingAckCount) + 1
                && state == old(state)[calls[n].socket :=
                  old(state)[calls[n].socket].(pending := old(state)[calls[n].socket].pending[calls[n].id := n])]
      ensures ok && !calls[n].callback ==> state == old(state) && pendingAckCount == old(pendingAckCount)
      ensures !ok ==>
                n !in running && n in responded
                && TablesKept(old(state), state, if check.SessionOver? then {calls[n].socket} else {})
      ensures !ok ==>
                callbacks == if calls[n].callback && calls[n].socket in connected then old(callbacks) + [n]
                else old(callbacks)
      ensures n !in old(admitted) && admitted == if ok && calls[n].callback then old(admitted) + {n} else old(admitted)
      ensures connected == if check.SessionOver? then old(connected) - {calls[n].socket} else old(connected)
      // Only a session that is over takes attempts out, and only those of this socket.
      ensures if check.SessionOver? && calls[n].socket in old(state)
              then Abandoned(old(exits), exits, old(state)[calls[n].socket].pending)
              else exits == old(exits)
    {
      Unadmitted(n);
      if check.SessionOver? {
        Eject(n);
        ok := false;
      } else {
        ok := Screen(n, check.Passed? && wellFormed);
      }
    }

    /** The session is over: the socket is disconnected, and the request fails. */
    method Eject(n: nat)
      requires Valid() && n in running && running[n].Checking? && n in calls && n !in responded
               && !Waiting(state, calls[n], n)
      modifies `state, `connected, `pendingAckCount, `running, `responded, `exits, `callbacks
      ensures Valid() && running == old(running) - {n} && n in responded && callbacks == old(callbacks)
      ensures TablesKept(old(state), state, {calls[n].socket}) && connected == old(connected) - {calls[n].socket}
      ensures if calls[n].socket in old(state) then Abandoned(old(exits), exits, old(state)[calls[n].socket].pending)
              else exits == old(exits)
      ensures old(Quiet()) ==> Quiet()
    {
      Disconnect(calls[n].socket);
      Fail(n);
    }

    /** The checks before the table, and the entry. */
    method Screen(n: nat, passed: bool) returns (ok: bool)
      requires Valid() && n in running && running[n].Checking? && n in calls && calls[n].command
      requires n !in admitted && n !in responded && !Waiting(state, calls[n], n)
      modifies `state, `pendingAckCount, `running, `responded, `admitted, `callbacks
      ensures Valid() && (old(Quiet()) && !ok ==> Quiet()) && (old(Quiet()) ==> !ok)
      ensures ok <==>
                passed && Admissible(old(state), connected, old(pendingAckCount), maxPerSocket, maxTotal, calls[n])
      ensures ok ==> running == old(running)[n := Publishing] && callbacks == old(callbacks)
      ensures ok && calls[n].callback ==>
                && Waiting(state, calls[n], n) && pendingAckCount == old(pendingAckCount) + 1
                && state == old(state)[calls[n].socket :=
                  old(state)[calls[n].socket].(pending := old(state)[calls[n].socket].pending[calls[n].id := n])]
      ensures ok && !calls[n].callback ==> state == old(state) && pendingAckCount == old(pendingAckCount)
      ensures admitted == if ok && calls[n].callback then old(admitted) + {n} else old(admitted)
      ensures !ok ==>
                running == old(running) - {n} && n in responded && TablesKept(old(state), state, {})
                && pendingAckCount == old(pendingAckCount)
      ensures !ok ==>
                callbacks == if calls[n].callback && calls[n].socket in connected then old(callbacks) + [n]
                else old(callbacks)
    {
      var Call(s, id, callback, _) := calls[n];
      ok := passed && s in state && s in connected && id !in state[s].pending
            && (!callback || (|state[s].pending| < maxPerSocket && pendingAckCount < maxTotal));
      if !ok {
        Fail(n);
      } else {
        QuietHasNoRequests(state, maxPerSocket, Record(), next, n);
        Enroll(n);
      }
    }

    lemma {:induction false} NothingWaits(n: nat)
      requires Valid() && n in calls
      ensures Quiet() ==> !Waiting(state, calls[n], n)
    {
      if Quiet() && Waiting(state, calls[n], n) {
        ZeroIsEmpty(state, calls[n].socket);
        assert false;
      }
    }

    lemma {:induction false} Unadmitted(n: nat)
      requires Valid() && n in running && running[n].Checking? && n in calls
      ensures n !in admitted && n !in responded && !Waiting(state, calls[n], n)
    {
      if Waiting(state, calls[n], n) {
        WaitingIsAdmitted(state, maxPerSocket, Record(), next, n);
      }
      assert CallValid(n, state, Record());
    }

    /** pending.set and the count, if the caller wants an answer. */
    method Enroll(n: nat)
      requires Valid() && n in running && running[n].Checking? && n in calls && calls[n].command
               && calls[n].socket in state
      requires calls[n].callback ==>
                 var l := state[calls[n].socket];
                 calls[n].id !in l.pending && |l.pending| < maxPerSocket && pendingAckCount < maxTotal
      modifies `state, `pendingAckCount, `running, `admitted
      ensures Valid() && running == old(running)[n := Publishing]
      ensures admitted == if calls[n].callback then old(admitted) + {n} else old(admitted)
      ensures calls[n].callback ==>
                && Waiting(state, calls[n], n) && pendingAckCount == old(pendingAckCount) + 1
                && state == old(state)[calls[n].socket :=
                  old(state)[calls[n].socket].(pending := old(state)[calls[n].socket].pending[calls[n].id := n])]
      ensures !calls[n].callback ==> state == old(state) && pendingAckCount == old(pendingAckCount)
    {
      var s, id := calls[n].socket, calls[n].id;
      if calls[n].callback {
        var l := state[s].(pending := state[s].pending[id := n]);
        Admits(state, maxPerSocket, Record(), next, n);
        TotalWith(state, s, l);
        state, pendingAckCount, admitted := state[s := l], pendingAckCount + 1, admitted + {n};
      } else {
        PassesOn(state, maxPerSocket, Record(), next, n, Publishing);
      }
      running := running[n := Publishing];
    }

    /** The append's outcome. A failed append takes the entry back, unless it is gone already. */
    method Published(n: nat, accepted: bool)
      requires Valid() && n in running && running[n].Publishing? && n in calls && calls[n].command
      modifies `state, `pendingAckCount, `running, `responded, `exits, `callbacks
      ensures Valid() && running == old(running) - {n}
      ensures old(Waiting(state, calls[n], n)) && !accepted ==>
                n !in old(exits) && exits == old(exits)[n := ByAppendFailure]
                && pendingAckCount == old(pendingAckCount) - 1
      ensures accepted || !old(Waiting(state, calls[n], n)) ==>
                exits == old(exits) && pendingAckCount == old(pendingAckCount)
      ensures callbacks == if !accepted && n !in old(responded) && calls[n].callback && calls[n].socket in connected
              then old(callbacks) + [n] else old(callbacks)
      ensures if old(Waiting(state, calls[n], n)) && !accepted
              then EntryLeft(old(state), state, calls[n].socket, calls[n].id) else TablesKept(old(state), state, {})
      ensures old(Quiet()) ==> Quiet()
    {
      NothingWaits(n);
      assert CallValid(n, state, Record());
      if !accepted {
        Reject(n);
      }
      End(n);
    }

    /** The append failed: the entry goes, if it is still there, and the callback hears of it. */
    method Reject(n: nat)
      requires Valid() && n in running && !running[n].Checking? && n in calls
      modifies `state, `pendingAckCount, `responded, `exits, `callbacks
      ensures Valid() && n in responded
      ensures if old(Waiting(state, calls[n], n)) then n !in old(exits) && exits == old(exits)[n := ByAppendFailure]
              && pendingAckCount == old(pendingAckCount) - 1
              && EntryLeft(old(state), state, calls[n].socket, calls[n].id)
              else exits == old(exits) && pendingAckCount == old(pendingAckCount) && state == old(state)
      ensures callbacks == if n !in old(responded) && calls[n].callback && calls[n].socket in connected
              then old(callbacks) + [n] else old(callbacks)
      ensures old(Quiet()) ==> Quiet()
    {
      NothingWaits(n);
      if Waiting(state, calls[n], n) {
        Complete(n, ByAppendFailure);
      } else {
        Respond(n);
      }
    }

    /** The acknowledgement timer. */
    method Timeout(n: nat)
      requires Valid() && n in calls
      modifies `state, `pendingAckCount, `exits, `responded, `callbacks
      ensures Valid()
      ensures if old(Waiting(state, calls[n], n)) then n !in old(exits) && exits == old(exits)[n := ByTimeout]
              && pendingAckCount == old(pendingAckCount) - 1
                && EntryLeft(old(state), state, calls[n].socket, calls[n].id)
                && callbacks == (if calls[n].socket in connected then old(callbacks) + [n] else old(callbacks))
              else exits == old(exits) && callbacks == old(callbacks) && state == old(state)
      ensures old(Quiet()) ==> Quiet()
    {
      NothingWaits(n);
      if Waiting(state, calls[n], n) {
        Complete(n, ByTimeout);
      }
    }

    /** localResult: the result of one request completes the attempt that made this very request, or nothing. */
    method LocalResult(s: nat, sameSession: bool, id: string, requestId: nat) returns (completed: bool)
      requires Valid()
      modifies `state, `pendingAckCount, `exits, `responded, `callbacks
      ensures Valid()
      ensures completed <==>
                s in connected && sameSession && s in old(state) && id in old(state)[s].pending
                && old(state)[s].pending[id] == requestId
      ensures completed ==>
                requestId in calls && calls[requestId].socket == s && calls[requestId].id == id
                && requestId !in old(exits)
      ensures exits == if completed then old(exits)[requestId := ByResult] else old(exits)
      ensures !completed ==> state == old(state) && callbacks == old(callbacks)
      ensures completed ==> callbacks == old(callbacks) + [requestId] && EntryLeft(old(state), state, s, id)
      ensures old(Quiet()) ==> Quiet()
    {
      completed :=
        s in connected && sameSession && s in state && id in state[s].pending && state[s].pending[id] == requestId;
      if completed {
        assert SocketValid(s, state[s], maxPerSocket, Record()) && EntryValid(s, state[s], id, Record());
        NothingWaits(requestId);
        Complete(requestId, ByResult);
      }
    }

    /** The disconnect handler: every waiting attempt of the socket is abandoned. */
    method Disconnect(s: nat)
      requires Valid()
      modifies `state, `connected, `pendingAckCount, `exits
      ensures Valid() && state == old(state) - {s} && connected == old(connected) - {s}
      ensures pendingAckCount == old(pendingAckCount) - if s in old(state) then |old(state)[s].pending| else 0
      ensures if s in old(state) then Abandoned(old(exits), exits, old(state)[s].pending) else exits == old(exits)
      ensures old(Quiet()) ==> Quiet()
    {
      Sever(s);
      Clear(s);
    }

    method Clear(s: nat)
      requires Valid() && s !in connected
      modifies `state, `pendingAckCount, `exits
      ensures Valid() && state == old(state) - {s}
      ensures pendingAckCount == old(pendingAckCount) - if s in old(state) then |old(state)[s].pending| else 0
      ensures if s in old(state) then Abandoned(old(exits), exits, old(state)[s].pending) else exits == old(exits)
    {
      if s in state {
        Abandon(s);
        Forget(s);
      } else {
        WithoutWhatIsNot(state, s);
      }
    }

    method Sever(s: nat)
      requires Valid()
      modifies `connected
      ensures Valid() && connected == old(connected) - {s}
    {
      Disconnects(state, maxPerSocket, Record(), next, s);
      connected := connected - {s};
    }

    method Forget(s: nat)
      requires Valid() && s in state && state[s].pending == map[]
      modifies `state
      ensures Valid() && state == old(state) - {s}
    {
      Forgets(state, maxPerSocket, Record(), next, s);
      TotalWithout(state, s);
      state := state - {s};
    }

    /** The handler's loop. */
    method Abandon(s: nat)
      requires Valid() && s in state && s !in connected
      modifies `state, `pendingAckCount, `exits
      ensures Valid() && state == old(state)[s := old(state)[s].(pending := map[])]
      ensures pendingAckCount == old(pendingAckCount) - |old(state)[s].pending|
      ensures Abandoned(old(exits), exits, old(state)[s].pending)
    {
      ghost var before, l := state, state[s];
      var ids := state[s].pending.Keys;
      SamePending(state, s);
      while ids != {}
        invariant Valid() && s in state && state[s].pending.Keys == ids
        invariant state == before[s := l.(pending := state[s].pending)]
        invariant pendingAckCount == old(pendingAckCount) - |l.pending| + |state[s].pending|
        invariant Abandoning(old(exits), exits, l.pending, state[s].pending)
      {
        var id :| id in ids;
        ghost var gone, rest := exits, state[s].pending;
        Reput(before, state, s, rest - {id});
        Drop(s, id);
        OneAbandoned(old(exits), gone, l.pending, rest, id);
        ids := ids - {id};
      }
      assert state[s].pending == map[];
    }

    lemma {:induction false} Reput(before: map<nat, Local>, table: map<nat, Local>, s: nat, pending: map<string, nat>)
      requires s in before && s in table && table == before[s := before[s].(pending := table[s].pending)]
      ensures table[s := table[s].(pending := pending)] == before[s := before[s].(pending := pending)]
    {
    }

    lemma {:induction false} SamePending(table: map<nat, Local>, s: nat)
      requires s in table
      ensures table[s := table[s].(pending := table[s].pending)] == table
    {
      assert table[s].(pending := table[s].pending) == table[s];
    }

    method Drop(s: nat, id: string)
      requires Valid() && s in state && s !in connected && id in state[s].pending
      modifies `state, `pendingAckCount, `exits
      ensures Valid() && state == old(state)[s := old(state)[s].(pending := old(state)[s].pending - {id})]
      ensures pendingAckCount == old(pendingAckCount) - 1
      ensures old(state)[s].pending[id] !in old(exits) && exits == old(exits)[old(state)[s].pending[id] := ByDisconnect]
    {
      var n, l := state[s].pending[id], state[s].(pending := state[s].pending - {id});
      assert SocketValid(s, state[s], maxPerSocket, Record()) && EntryValid(s, state[s], id, Record());
      LeavesSilently(state, maxPerSocket, Record(), next, n);
      TotalWith(state, s, l);
      Fewer(state[s].pending, id);
      state, pendingAckCount, exits := state[s := l], pendingAckCount - 1, exits[n := ByDisconnect];
    }

    /** drainAndClose: no new request gets in, and after the wait every socket is disconnected. */
    method StartDrain()
      requires Valid()
      modifies `draining
      ensures Valid() && draining
    {
      draining := true;
    }

    method FinishDrain()
      requires Valid() && draining
      modifies `state, `connected, `pendingAckCount, `exits
      ensures Valid() && state == map[] && Quiet() && connected <= old(connected)
      ensures Kept(old(exits), exits) && forall n :: n in exits && n !in old(exits) ==> exits[n] == ByDisconnect
      ensures admitted <= exits.Keys
    {
      while state != map[]
        invariant Valid() && connected <= old(connected)
        invariant Kept(old(exits), exits) && forall n :: n in exits && n !in old(exits) ==> exits[n] == ByDisconnect
        decreases |state|
      {
        var s :| s in state;
        Fewer(state, s);
        Disconnect(s);
      }
      forall n | n in admitted ensures n in exits {
        LeavesExactlyOnce(state, maxPerSocket, Record(), next, n);
      }
    }
  }
}
