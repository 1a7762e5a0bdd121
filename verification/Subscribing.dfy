/**
 * gateway/src/runtime.ts: join, leave, renew and checkLeases. Each method is what happens
 * between two awaits; a join or renewal whose await is pending waits in `joins` or `renewals`,
 * so any sequence of calls is an interleaving.
 */
module Subscribing {
  import opened Maps
  import opened Options
  import opened ChannelLeases

  datatype Requesting = Requested(revision: nat) | Disconnected | RoomLimit

  datatype Joining = Joined | Cancelled | Full | Refused | Failed

  /**
   * What became of channels: a grant was installed for the join `origin`, by its answer or by a
   * renewal; or the channel was left, or its current attempt denied, with `upTo` the latest request.
   */
  datatype Event = Admitted(socket: nat, channel: string, origin: nat) | Ended(socket: nat, channel: string, upTo: nat)

  /** The floors cover every end. */
  ghost predicate FloorsCover(history: seq<Event>, floors: Floors) {
    forall i ::
      0 <= i < |history| && history[i].Ended? ==>
        history[i].upTo <= Floor(floors, history[i].socket, history[i].channel)
  }

  /** What was asked for before a channel was left or denied is never granted afterwards. */
  ghost predicate EndedForGood(history: seq<Event>) {
    forall i, j :: 0 <= i < j < |history| ==> !Late(history[i], history[j])
  }

  /** The grant of a request that was over. */
  predicate Late(e: Event, f: Event) {
    e.Ended? && f.Admitted? && f.socket == e.socket && f.channel == e.channel && f.origin <= e.upTo
  }

  lemma {:induction false} GrantRecorded(history: seq<Event>, floors: Floors, s: nat, ch: string, origin: nat)
    requires FloorsCover(history, floors) && EndedForGood(history) && Floor(floors, s, ch) < origin
    ensures FloorsCover(history + [Admitted(s, ch, origin)], floors)
            && EndedForGood(history + [Admitted(s, ch, origin)])
  {
    var longer := history + [Admitted(s, ch, origin)];
    forall i, j | 0 <= i < j < |longer| ensures !Late(longer[i], longer[j]) {
      if j < |history| { assert !Late(history[i], history[j]); }
    }
  }

  lemma {:induction false} EndRecorded(history: seq<Event>, floors: Floors, s: nat, ch: string, top: nat)
    requires FloorsCover(history, floors) && EndedForGood(history) && Floor(floors, s, ch) <= top
    ensures FloorsCover(history + [Ended(s, ch, top)], floors[(s, ch) := top])
            && EndedForGood(history + [Ended(s, ch, top)])
  {
    var longer := history + [Ended(s, ch, top)];
    forall i, j | 0 <= i < j < |longer| ensures !Late(longer[i], longer[j]) {
      if j < |history| { assert !Late(history[i], history[j]); }
    }
  }

  class Subscriptions {
    const maxRooms: nat
    var state: map<nat, Local>
    var revisionSequence: nat
    var renewing: nat
    var joins: map<nat, Join>          // joins under way, by revision
    var ending: set<nat>               // those with only their finally block left
    var renewals: map<nat, Renewal>    // renewals under way, by the serial of their lease
    var serials: nat                   // the identity of the next lease object
    ghost var floors: Floors
    ghost var owners: map<nat, Join>
    ghost var history: seq<Event>

    ghost function Ledger(): Books
      reads this
    {
      Books(revisionSequence, floors, owners, joins, renewals)
    }

    ghost predicate Valid()
      reads this
    {
      && GateValid(state, maxRooms, Ledger(), serials)
      && renewing == |renewals| && renewing <= 64 && ending <= joins.Keys
      && FloorsCover(history, floors) && EndedForGood(history)
    }

    constructor (maxRooms: nat)
      ensures Valid() && this.maxRooms == maxRooms && state == map[]
    {
      this.maxRooms := maxRooms;
      state, revisionSequence, renewing, joins, ending, renewals, serials := map[], 0, 0, map[], {}, map[], 0;
      floors, owners, history := map[], map[], [];
    }

    method Connect(s: nat)
      requires Valid() && s !in state
      modifies `state
      ensures Valid() && state == old(state)[s := Local(map[], map[], {})]
    {
      state := state[s := Local(map[], map[], {})];
    }

    /** The socket leaves every room, and its local state is forgotten. */
    method Disconnect(s: nat)
      requires Valid()
      modifies `state
      ensures Valid() && state == old(state) - {s}
    {
      state := state - {s};
    }

    /** join, up to the authorization request. */
    method StartJoin(s: nat, ch: string) returns (r: Requesting)
      requires Valid()
      modifies `state, `revisionSequence, `joins
      ensures Valid()
      ensures r.Disconnected? <==> s !in state
      ensures r.RoomLimit? <==> s in old(state) && ch !in old(state)[s].leases && |old(state)[s].leases| >= maxRooms
      ensures !r.Requested? ==> state == old(state) && joins == old(joins) && revisionSequence == old(revisionSequence)
      ensures r.Requested? ==>
                && s in old(state) && r.revision == revisionSequence == old(revisionSequence) + 1
                && joins == old(joins)[r.revision := Join(s, ch)]
                && state == old(state)[s := old(state)[s].Request(ch, r.revision)]
    {
      if s !in state {
        return Disconnected;
      }
      var l := state[s];
      if ch !in l.leases && |l.leases| >= maxRooms {
        return RoomLimit;
      }
      GateRequest(state, maxRooms, Ledger(), serials, s, ch);
      revisionSequence := revisionSequence + 1;
      joins := joins[revisionSequence := Join(s, ch)];
      state := state[s := l.Request(ch, revisionSequence)];
      r := Requested(revisionSequence);
    }

    /** The finally block of join. */
    method SettleJoin(revision: nat)
      requires Valid() && revision in joins
      modifies `state, `joins, `ending
      ensures Valid() && joins == old(joins) - {revision} && ending == old(ending) - {revision}
      ensures var Join(s, ch) := old(joins[revision]);
              state == if s in old(state) then old(state)[s := old(state)[s].Settle(ch, revision)] else old(state)
    {
      var Join(s, ch) := joins[revision];
      GateSettle(state, maxRooms, Ledger(), serials, revision);
      joins, ending := joins - {revision}, ending - {revision};
      if s in state {
        state := state[s := state[s].Settle(ch, revision)];
      }
    }

    /** socket.join and leases.set. */
    method Install(s: nat, ch: string, lease: Lease)
      requires Valid() && s in state && lease.serial == serials && !lease.renewing && !lease.suspended
      requires ch in state[s].revisions && Floor(floors, s, ch) < lease.origin <= state[s].revisions[ch]
      requires ch in state[s].leases || |state[s].leases| < maxRooms
      modifies `state, `serials, `owners, `history
      ensures Valid() && state == old(state)[s := old(state)[s].Install(ch, lease)] && serials == old(serials) + 1
      ensures history == old(history) + [Admitted(s, ch, lease.origin)]
    {
      GateInstall(state, maxRooms, Ledger(), serials, s, ch, lease);
      owners, serials := owners[serials := Join(s, ch)], serials + 1;
      state := state[s := state[s].Install(ch, lease)];
      GrantRecorded(history, floors, s, ch, lease.origin);
      history := history + [Admitted(s, ch, lease.origin)];
    }

    /** The synchronous part of leave: whatever was requested so far is over. */
    method Leave(s: nat, ch: string)
      requires Valid()
      modifies `state, `floors, `history
      ensures Valid() && (s !in old(state) ==> state == old(state) && floors == old(floors) && history == old(history))
      ensures s in old(state) ==>
                && state == old(state)[s := old(state)[s].Leave(ch)]
                && floors == old(floors)[(s, ch) := revisionSequence]
                && history == old(history) + [Ended(s, ch, revisionSequence)]
    {
      if s in state {
        GateLeave(state, maxRooms, Ledger(), serials, s, ch);
        state := state[s := state[s].Leave(ch)];
        End(s, ch);
      }
    }

    /** Everything requested on a channel so far is over. */
    ghost method End(s: nat, ch: string)
      requires FloorsCover(history, floors) && EndedForGood(history) && Floor(floors, s, ch) <= revisionSequence
      modifies `floors, `history
      ensures FloorsCover(history, floors) && EndedForGood(history)
      ensures floors == old(floors)[(s, ch) := revisionSequence]
              && history == old(history) + [Ended(s, ch, revisionSequence)]
    {
      EndRecorded(history, floors, s, ch, revisionSequence);
      floors, history := floors[(s, ch) := revisionSequence], history + [Ended(s, ch, revisionSequence)];
    }

    /** join, from the answer to its end or to the next await. A grant counts only for the current attempt. */
    method ResumeJoin(revision: nat, answer: Answer) returns (r: Joining)
      requires Valid() && revision in joins && revision !in ending
      modifies `state, `joins, `ending, `serials, `floors, `owners, `history
      ensures Valid() && (r.Joined? <==> Wins(old(state), maxRooms, old(joins[revision]), revision, answer))
      ensures state == Answered(old(state), maxRooms, old(joins[revision]), revision, answer, old(serials))
      ensures var Join(s, ch) := old(joins[revision]);
              var lost := Loses(old(state), Join(s, ch), revision, answer);
              && floors == (if lost then old(floors)[(s, ch) := revisionSequence] else old(floors))
              && history == old(history)
                 + (if r.Joined? then [Admitted(s, ch, revision)] else if lost then [Ended(s, ch, revisionSequence)]
                    else [])
      // Any denial of the current attempt, Forbidden included, ends the subscription and everything requested so far.
      ensures var Join(s, ch) := old(joins[revision]);
              var current :=
                s in old(state) && ch in old(state)[s].revisions && old(state)[s].revisions[ch] == revision;
              answer.Denied? && current ==>
                && s in state && Gone(state[s], ch) && (s, ch) in floors && floors[(s, ch)] == revisionSequence
                && history == old(history) + [Ended(s, ch, revisionSequence)]
    {
      var Join(s, ch) := joins[revision];
      if s !in state {
        SettleJoin(revision);
        return if answer.Granted? then Cancelled else Failed;
      }
      match answer {
        case Granted(until, renewAt) =>
          r := Accept(s, ch, revision, until, renewAt);
        case Denied(_) =>
          Refuse(s, ch, revision);
          r := Refused;
        case Unavailable =>
          SettleJoin(revision);
          r := Failed;
      }
    }

    /** A grant: it is taken by the current attempt, if there is room. */
    method Accept(s: nat, ch: string, revision: nat, until: int, renewAt: int) returns (r: Joining)
      requires Valid() && s in state && revision in joins && joins[revision] == Join(s, ch)
      modifies `state, `joins, `ending, `serials, `owners, `history
      ensures Valid() && (r.Joined? <==> Wins(old(state), maxRooms, Join(s, ch), revision, Granted(until, renewAt)))
      ensures state == Answered(old(state), maxRooms, Join(s, ch), revision, Granted(until, renewAt), old(serials))
      ensures history == old(history) + if r.Joined? then [Admitted(s, ch, revision)] else []
    {
      var l := state[s];
      if !l.IsCurrent(ch, revision) {
        SettleJoin(revision);
        return Cancelled;
      }
      if ch !in l.leases && |l.leases| >= maxRooms {
        SettleJoin(revision);
        return Full;
      }
      assert LocalValid(s, l, maxRooms, Ledger()) && RevisionValid(s, l, ch, Ledger());
      Install(s, ch, Lease(serials, revision, until, renewAt, 0, false, false));
      ending := ending + {revision};
      r := Joined;
    }

    /** A terminal denial: the current attempt loses any earlier grant, an older one changes nothing. */
    method Refuse(s: nat, ch: string, revision: nat)
      requires Valid() && s in state && revision in joins && joins[revision] == Join(s, ch)
      modifies `state, `joins, `ending, `floors, `history
      ensures Valid()
      ensures old(state)[s].IsCurrent(ch, revision) ==>
                && state == old(state)[s := old(state)[s].Leave(ch)]
                && floors == old(floors)[(s, ch) := revisionSequence]
                && history == old(history) + [Ended(s, ch, revisionSequence)]
      ensures !old(state)[s].IsCurrent(ch, revision) ==>
                state == old(state) && floors == old(floors) && history == old(history)
    {
      var l := state[s];
      if l.IsCurrent(ch, revision) && ch in l.leases {
        Leave(s, ch);
        ending := ending + {revision};
      } else {
        assert LocalValid(s, l, maxRooms, Ledger());
        SettleJoin(revision);
        if l.IsCurrent(ch, revision) {
          SettlingLeaves(l, ch, revision);
          RaiseFloor(s, ch);
        }
      }
    }

    /** After a denial without a lease: the floor rises, too. */
    ghost method RaiseFloor(s: nat, ch: string)
      requires Valid() && s in state && ch !in state[s].leases && ch !in state[s].revisions && ch !in state[s].rooms
      modifies `floors, `history
      ensures Valid() && floors == old(floors)[(s, ch) := revisionSequence]
              && history == old(history) + [Ended(s, ch, revisionSequence)]
    {
      GateLeave(state, maxRooms, Ledger(), serials, s, ch);
      LeavesNothing(state, s, ch);
      End(s, ch);
    }

    /** The end of a join that had awaited its presence update. */
    method FinishJoin(revision: nat)
      requires Valid() && revision in ending
      modifies `state, `joins, `ending
      ensures Valid() && revision !in joins
    {
      SettleJoin(revision);
    }

    // -------------------------------------------------------------- renewals

    /** renew, up to the authorization request; at most 64 at a time, and one per lease. */
    method StartRenewal(s: nat, ch: string)
      requires Valid() && s in state && ch in state[s].leases && !state[s].leases[ch].renewing && renewing < 64
      modifies `state, `renewing, `renewals
      ensures Valid() && renewing == old(renewing) + 1
      ensures state == old(state)[s := old(state)[s].Update(ch, old(state)[s].leases[ch].(renewing := true))]
    {
      var l, lease := state[s], state[s].leases[ch];
      var renewal := Renewal(s, ch, if ch in l.revisions then Some(l.revisions[ch]) else None, false, false);
      assert LocalValid(s, l, maxRooms, Ledger()) && LeaseValid(s, l, ch, Ledger());
      GateMark(state, maxRooms, Ledger(), serials, s, ch, renewal);
      renewals := renewals[lease.serial := renewal];
      renewing := renewing + 1;
      state := state[s := l.Update(ch, lease.(renewing := true))];
    }

    /** renew, from the answer to its finally block. */
    method ResumeRenewal(serial: nat, answer: Answer, next: int)
      requires Valid() && serial in renewals && !renewals[serial].closing
      modifies `state, `renewals, `serials, `floors, `owners, `history
      ensures Valid() && state == Renewed(old(state), serial, old(renewals[serial]), answer, old(serials), next)
      ensures var Renewal(s, ch, _, _, _) := old(renewals[serial]);
              var current := StillCurrent(old(state), serial, old(renewals[serial]));
              && floors == (if current && answer.Denied? then old(floors)[(s, ch) := revisionSequence] else old(floors))
              && history == old(history)
                 + (if current && answer.Granted? then [Admitted(s, ch, old(state)[s].leases[ch].origin)]
                    else if current && answer.Denied? then [Ended(s, ch, revisionSequence)]
                    else [])
              // A renewal that is no longer the current one disconnects nobody, whatever the answer.
              && renewals == old(renewals)[serial :=
                old(renewals[serial]).(closing := true, disconnects := current && answer.EndsSession())]
    {
      var r := renewals[serial];
      var current := StillCurrent(state, serial, r);
      if current {
        var l, lease := state[r.socket], state[r.socket].leases[r.channel];
        assert LocalValid(r.socket, l, maxRooms, Ledger()) && LeaseValid(r.socket, l, r.channel, Ledger());
        match answer {
          case Granted(until, renewAt) =>
            Install(r.socket, r.channel, Lease(serials, lease.origin, until, renewAt, 0, false, false));
          case Denied(_) =>
            Leave(r.socket, r.channel);
          case Unavailable =>
            Postpone(r.socket, r.channel, next);
        }
      }
      Close(serial, current && answer.EndsSession());
    }

    /** A transient failure keeps the lease, with a later next attempt. */
    method Postpone(s: nat, ch: string, next: int)
      requires Valid() && s in state && ch in state[s].leases
      modifies `state
      ensures Valid() && state ==
                old(state)[s := old(state)[s].Update(ch,
                                                     old(state)[s].leases[ch].(attempts :=
                                                       old(state)[s].leases[ch].attempts + 1, nextAttempt := next))]
    {
      var l :=
        state[s].Update(ch, state[s].leases[ch].(attempts := state[s].leases[ch].attempts + 1, nextAttempt := next));
      assert LocalValid(s, state[s], maxRooms, Ledger());
      GateUpdate(state, maxRooms, Ledger(), serials, s, ch, l);
      state := state[s := l];
    }

    method Close(serial: nat, disconnects: bool)
      requires Valid() && serial in renewals
      modifies `renewals
      ensures Valid() && renewals ==
                old(renewals)[serial := old(renewals[serial]).(closing := true, disconnects := disconnects)]
    {
      var r := renewals[serial].(closing := true, disconnects := disconnects);
      GateClose(state, maxRooms, Ledger(), serials, serial, r);
      renewals := renewals[serial := r];
    }

    /** The end of a renewal: a dead session is disconnected, and the lease may be renewed again. */
    method FinishRenewal(serial: nat)
      requires Valid() && serial in renewals && renewals[serial].closing
      modifies `state, `renewals, `renewing
      ensures Valid() && renewing == old(renewing) - 1 && serial !in renewals
      ensures var r := old(renewals[serial]);
              state == if r.disconnects then old(state) - {r.socket}
                       else if r.socket in old(state)
                            then old(state)[r.socket := Unmarked(old(state)[r.socket], r.channel, serial)]
                       else old(state)
    {
      var r := renewals[serial];
      if r.disconnects {
        Disconnect(r.socket);
      }
      GateUnmark(state, maxRooms, Ledger(), serials, serial);
      Fewer(renewals, serial);
      renewals, renewing := renewals - {serial}, renewing - 1;
      if r.socket in state {
        state := state[r.socket := Unmarked(state[r.socket], r.channel, serial)];
      }
    }

    // ------------------------------------------------------------ checkLeases

    method Suspend(s: nat, ch: string)
      requires Valid() && s in state && ch in state[s].leases
      modifies `state
      ensures Valid() && state == old(state)[s := old(state)[s].Suspend(ch)]
    {
      var l := state[s].Suspend(ch);
      assert LocalValid(s, state[s], maxRooms, Ledger());
      GateUpdate(state, maxRooms, Ledger(), serials, s, ch, l);
      state := state[s := l];
    }

    /** One lease: its expiry is enforced without waiting for any request; its renewal starts when due. */
    method CheckLease(s: nat, ch: string, now: int)
      requires Valid() && s in state && ch in state[s].leases
      modifies `state, `renewing, `renewals
      ensures Valid() && s in state && ch in state[s].leases && state == old(state)[s := state[s]]
      ensures state[s].revisions == old(state)[s].revisions
              && state[s].leases == old(state)[s].leases[ch := state[s].leases[ch]]
      ensures Checked(old(state)[s].leases[ch], state[s].leases[ch], now)
      ensures old(renewing) <= renewing
      ensures old(renewing) < 64 ==> Renews(old(state)[s].leases[ch], state[s].leases[ch], now)
    {
      if state[s].leases[ch].until <= now && !state[s].leases[ch].suspended {
        Suspend(s, ch);
      }
      var lease := state[s].leases[ch];
      if !lease.renewing && lease.nextAttempt <= now && renewing < 64 {
        StartRenewal(s, ch);
      }
    }

    method CheckSocket(s: nat, now: int)
      requires Valid() && s in state
      modifies `state, `renewing, `renewals
      ensures Valid() && s in state && state == old(state)[s := state[s]]
              && AllChecked(old(state)[s], state[s], {}, now)
      ensures old(renewing) <= renewing && (renewing < 64 ==> AllRenewed(state[s], {}, now))
    {
      var channels := state[s].leases.Keys;
      assert state == state[s := state[s]];
      while channels != {}
        invariant Valid() && s in state && state == old(state)[s := state[s]]
        invariant channels <= old(state)[s].leases.Keys && AllChecked(old(state)[s], state[s], channels, now)
        invariant old(renewing) <= renewing && (renewing < 64 ==> AllRenewed(state[s], channels, now))
      {
        var ch :| ch in channels;
        ghost var before, under := state[s], renewing;
        CheckLease(s, ch, now);
        OneChecked(old(state)[s], before, state[s], ch, channels, now);
        if under < 64 { OneRenewed(before, state[s], ch, channels, now); }
        channels := channels - {ch};
      }
    }

    /** checkLeases: every lease whose time is up is suspended and its room left, and nothing else about it changes. */
    method CheckLeases(now: int)
      requires Valid()
      modifies `state, `renewing, `renewals
      ensures Valid() && state.Keys <= old(state).Keys
      ensures forall s :: s in state ==> AllChecked(old(state)[s], state[s], {}, now)
      ensures forall s, ch ::
                s in state && ch in state[s].rooms ==> ch in state[s].leases && now < state[s].leases[ch].until
      // A renewal that is due is put off only while 64 others are under way.
      ensures renewing < 64 ==>
                forall s, ch :: s in state && ch in state[s].leases && state[s].leases[ch].nextAttempt <= now ==>
                  state[s].leases[ch].renewing
    {
      var sockets := state.Keys;
      while sockets != {}
        invariant Valid() && state.Keys <= old(state).Keys && sockets <= old(state).Keys
        invariant forall s ::
                    s in state ==>
                      if s in sockets then state[s] == old(state)[s] else AllChecked(old(state)[s], state[s], {}, now)
        invariant renewing < 64 ==> forall s :: s in state && s !in sockets ==> AllRenewed(state[s], {}, now)
      {
        var s :| s in sockets;
        var slowOrExpired: bool := *;
        if s in state {
          if slowOrExpired {
            Disconnect(s);
          } else {
            CheckSocket(s, now);
          }
        }
        sockets := sockets - {s};
      }
      forall s, ch | s in state && ch in state[s].rooms
        ensures ch in state[s].leases && now < state[s].leases[ch].until {
        assert LocalValid(s, state[s], maxRooms, Ledger());
        assert Checked(old(state)[s].leases[ch], state[s].leases[ch], now);
      }
    }
  }

  /** A check suspends a lease whose time is up, may begin its renewal when that is due, and leaves the rest alone. */
  predicate Checked(before: Lease, after: Lease, now: int) {
    && after == before.(suspended := before.suspended || before.until <= now, renewing := after.renewing)
    && (before.renewing ==> after.renewing) && (after.renewing && !before.renewing ==> before.nextAttempt <= now)
  }

  lemma {:induction false} OneChecked(first: Local, before: Local, after: Local, ch: string, pending: set<string>,
                                      now: int)
    requires AllChecked(first, before, pending, now) && ch in pending && pending <= first.leases.Keys
    requires after.revisions == before.revisions && ch in after.leases
             && after.leases == before.leases[ch := after.leases[ch]]
    requires Checked(before.leases[ch], after.leases[ch], now)
    ensures AllChecked(first, after, pending - {ch}, now)
  {
  }

  lemma {:induction false} OneRenewed(before: Local, after: Local, ch: string, pending: set<string>, now: int)
    requires AllRenewed(before, pending, now) && ch in pending && ch in before.leases && ch in after.leases
    requires after.leases == before.leases[ch := after.leases[ch]]
    requires Checked(before.leases[ch], after.leases[ch], now) && Renews(before.leases[ch], after.leases[ch], now)
    ensures AllRenewed(after, pending - {ch}, now)
  {
  }

  /** Of the leases but those still to come, every one whose renewal is due is being renewed. */
  ghost predicate AllRenewed(l: Local, pending: set<string>, now: int) {
    forall ch :: ch in l.leases && ch !in pending && l.leases[ch].nextAttempt <= now ==> l.leases[ch].renewing
  }

  /** A renewal that is due begins. */
  predicate Renews(before: Lease, after: Lease, now: int) {
    before.nextAttempt <= now ==> after.renewing
  }

  /** All leases but those still to come have been checked. */
  ghost predicate AllChecked(before: Local, after: Local, pending: set<string>, now: int) {
    && after.revisions == before.revisions && after.leases.Keys == before.leases.Keys
    && forall ch :: ch in before.leases ==>
         if ch in pending then after.leases[ch] == before.leases[ch]
         else Checked(before.leases[ch], after.leases[ch], now)
  }
}
