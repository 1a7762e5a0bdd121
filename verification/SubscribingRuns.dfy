/** Any sequence of calls on the subscriptions of a gateway: what was left or denied stays over. */
module SubscribingRuns {
  import opened ChannelLeases
  import opened Subscribing

  datatype Call =
    | Connect(socket: nat)
    | Disconnect(socket: nat)
    | StartJoin(socket: nat, channel: string)
    | ResumeJoin(revision: nat, answer: Answer)
    | FinishJoin(revision: nat)
    | Leave(socket: nat, channel: string)
    | ResumeRenewal(serial: nat, answer: Answer, next: int)
    | FinishRenewal(serial: nat)
    | CheckLeases(now: int)

  /** A floor only rises. */
  ghost predicate Risen(before: Floors, after: Floors) {
    forall s, ch {:trigger Floor(after, s, ch)} :: Floor(before, s, ch) <= Floor(after, s, ch)
  }

  lemma {:induction false} RaisedFloor(floors: Floors, s: nat, ch: string, top: nat)
    requires Floor(floors, s, ch) <= top
    ensures Risen(floors, floors[(s, ch) := top])
  {
  }

  lemma {:induction false} FloorBelowTop(m: Subscriptions, s: nat, ch: string)
    requires m.Valid()
    ensures Floor(m.floors, s, ch) <= m.revisionSequence
  {
    if (s, ch) in m.floors {
      assert m.Ledger().floors[(s, ch)] <= m.Ledger().top;
    }
  }

  /** One call, if it can happen now. */
  method Perform(m: Subscriptions, call: Call)
    requires m.Valid()
    modifies m
    ensures m.Valid() && old(m.history) <= m.history && Risen(old(m.floors), m.floors)
  {
    match call {
      case Connect(s) =>
        if s !in m.state { m.Connect(s); }
      case Disconnect(s) =>
        m.Disconnect(s);
      case StartJoin(s, ch) =>
        var r := m.StartJoin(s, ch);
      case ResumeJoin(revision, answer) =>
        if revision in m.joins && revision !in m.ending {
          FloorBelowTop(m, m.joins[revision].socket, m.joins[revision].channel);
          RaisedFloor(m.floors, m.joins[revision].socket, m.joins[revision].channel, m.revisionSequence);
          var r := m.ResumeJoin(revision, answer);
        }
      case FinishJoin(revision) =>
        if revision in m.ending { m.FinishJoin(revision); }
      case Leave(s, ch) =>
        FloorBelowTop(m, s, ch);
        RaisedFloor(m.floors, s, ch, m.revisionSequence);
        m.Leave(s, ch);
      case ResumeRenewal(serial, answer, next) =>
        if serial in m.renewals && !m.renewals[serial].closing {
          FloorBelowTop(m, m.renewals[serial].socket, m.renewals[serial].channel);
          RaisedFloor(m.floors, m.renewals[serial].socket, m.renewals[serial].channel, m.revisionSequence);
          m.ResumeRenewal(serial, answer, next);
        }
      case FinishRenewal(serial) =>
        if serial in m.renewals && m.renewals[serial].closing { m.FinishRenewal(serial); }
      case CheckLeases(now) =>
        m.CheckLeases(now);
    }
  }

  /** Any sequence of calls only adds to the history, and no grant in it comes after its request was over. */
  method Interleave(m: Subscriptions, calls: seq<Call>)
    requires m.Valid()
    modifies m
    ensures m.Valid() && old(m.history) <= m.history && Risen(old(m.floors), m.floors)
    ensures EndedForGood(m.history)
  {
    for i := 0 to |calls|
      invariant m.Valid() && old(m.history) <= m.history && Risen(old(m.floors), m.floors)
    {
      ghost var floors := m.floors;
      Perform(m, calls[i]);
      RisenAgain(old(m.floors), floors, m.floors);
    }
  }

  lemma {:induction false} RisenAgain(a: Floors, b: Floors, c: Floors)
    requires Risen(a, b) && Risen(b, c)
    ensures Risen(a, c)
  {
    forall s, ch ensures Floor(a, s, ch) <= Floor(c, s, ch) {
      assert Floor(a, s, ch) <= Floor(b, s, ch) <= Floor(c, s, ch);
    }
  }

  /**
   * A channel is left, and then anything happens: no join requested before the leave, answered or
   * renewed at any later time, is ever granted, and a lease on the channel is one asked for since.
   */
  method LeaveForGood(m: Subscriptions, s: nat, ch: string, calls: seq<Call>)
    requires m.Valid() && s in m.state
    modifies m
    ensures m.Valid() && old(m.history) + [Ended(s, ch, old(m.revisionSequence))] <= m.history
    ensures forall k, origin: nat ::
              |old(m.history)| <= k < |m.history| && m.history[k] == Admitted(s, ch, origin) ==>
                old(m.revisionSequence) < origin
    ensures s in m.state && ch in m.state[s].leases ==> old(m.revisionSequence) < m.state[s].leases[ch].origin
    ensures forall revision :: revision in old(m.joins) ==> revision <= old(m.revisionSequence)
  {
    ghost var at, top := |m.history|, m.revisionSequence;
    assert forall revision :: revision in m.joins ==> revision in m.Ledger().joins;
    m.Leave(s, ch);
    assert Floor(m.floors, s, ch) == top;
    Interleave(m, calls);
    forall k, origin: nat | at <= k < |m.history| && m.history[k] == Admitted(s, ch, origin) ensures top < origin {
      assert m.history[at] == Ended(s, ch, top) && k != at;
      assert !Late(m.history[at], m.history[k]);
    }
    if s in m.state && ch in m.state[s].leases {
      assert LocalValid(s, m.state[s], m.maxRooms, m.Ledger()) && LeaseValid(s, m.state[s], ch, m.Ledger());
      assert top <= Floor(m.floors, s, ch);
    }
  }
}
