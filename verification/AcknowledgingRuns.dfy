/** Any sequence of calls on a gateway's pending acknowledgements: what has happened to an attempt stays. */
module AcknowledgingRuns {
  import opened PendingTable
  import opened Acknowledging

  datatype Move =
    | Connect(socket: nat)
    | Request(call: Call)
    | Admit(n: nat, check: Check, wellFormed: bool)
    | Published(n: nat, accepted: bool)
    | Fail(n: nat)
    | Timeout(n: nat)
    | LocalResult(socket: nat, sameSession: bool, id: string, requestId: nat)
    | Disconnect(socket: nat)
    | StartDrain
    | FinishDrain

  /** One move, if it can happen now. */
  method Perform(m: PendingAcks, move: Move)
    requires m.Valid()
    modifies m
    ensures m.Valid() && Kept(old(m.exits), m.exits) && old(m.admitted) <= m.admitted && old(m.callbacks) <= m.callbacks
  {
    match move {
      case Connect(s) =>
        if s !in m.state && forall n :: n in m.calls ==> m.calls[n].socket != s { m.Connect(s); }
      case Request(call) =>
        var n, started := m.Request(call);
      case Admit(_, _, _) =>
        Proceed(m, move);
      case Published(_, _) =>
        Proceed(m, move);
      case Fail(_) =>
        Proceed(m, move);
      case Timeout(n) =>
        if n in m.calls { m.Timeout(n); }
      case LocalResult(s, sameSession, id, requestId) =>
        var completed := m.LocalResult(s, sameSession, id, requestId);
      case Disconnect(s) =>
        m.Disconnect(s);
      case StartDrain =>
        m.StartDrain();
      case FinishDrain =>
        if m.draining { m.FinishDrain(); }
    }
  }

  /** The next stretch of a request under way. */
  method Proceed(m: PendingAcks, move: Move)
    requires m.Valid() && (move.Admit? || move.Published? || move.Fail?)
    modifies m
    ensures m.Valid() && Kept(old(m.exits), m.exits) && old(m.admitted) <= m.admitted && old(m.callbacks) <= m.callbacks
  {
    var n := move.n;
    if n in m.running && n in m.calls {
      match m.running[n] {
        case Checking =>
          if move.Admit? && m.calls[n].command { var ok := m.Admit(n, move.check, move.wellFormed); }
        case Publishing =>
          if move.Published? && m.calls[n].command { m.Published(n, move.accepted); }
        case Failing =>
      }
    }
    if move.Fail? && n in m.running && n in m.calls && !Waiting(m.state, m.calls[n], n) {
      m.Fail(n);
    }
  }

  /**
   * Whatever happens, in any order: an attempt that has left has left by that one exit for good,
   * an admitted one stays admitted, so it waits or has its one exit, and no callback is called twice.
   */
  method Interleave(m: PendingAcks, moves: seq<Move>)
    requires m.Valid()
    modifies m
    ensures m.Valid() && Kept(old(m.exits), m.exits) && old(m.admitted) <= m.admitted && old(m.callbacks) <= m.callbacks
    ensures forall n :: n in old(m.admitted) ==> n in m.calls && (n in m.exits <==> !Waiting(m.state, m.calls[n], n))
    ensures Distinct(m.callbacks)
  {
    for i := 0 to |moves|
      invariant m.Valid() && Kept(old(m.exits), m.exits) && old(m.admitted) <= m.admitted
                && old(m.callbacks) <= m.callbacks
    {
      Perform(m, moves[i]);
    }
    forall n | n in old(m.admitted) ensures n in m.calls && (n in m.exits <==> !Waiting(m.state, m.calls[n], n)) {
      LeavesExactlyOnce(m.state, m.maxPerSocket, m.Record(), m.next, n);
    }
  }
}
