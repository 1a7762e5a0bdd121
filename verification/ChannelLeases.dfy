/**
 * gateway/src/runtime.ts: what one socket's subscriptions consist of. A lease is an object whose
 * identity matters, so it carries a serial number; `origin` is the revision of the join that
 * asked for it, which renewals keep.
 */
module ChannelLeases {
  import opened Maps
  import opened Options

  datatype Lease = Lease(serial: nat, origin: nat, until: int, nextAttempt: int, attempts: nat, renewing: bool,
                         suspended: bool)

  /** The maps of a socket's LocalState, and the channel rooms the socket is physically in. */
  datatype Local = Local(leases: map<string, Lease>, revisions: map<string, nat>, rooms: set<string>) {

    /** Physical membership means an unsuspended lease, and the other way round. */
    ghost predicate Seated() {
      forall ch :: ch in rooms <==> ch in leases && !leases[ch].suspended
    }

    predicate IsCurrent(ch: string, revision: nat) {
      ch in revisions && revisions[ch] == revision
    }

    function Request(ch: string, revision: nat): Local {
      this.(revisions := revisions[ch := revision])
    }

    /** socket.join and leases.set, as one step. */
    function Install(ch: string, lease: Lease): Local {
      this.(leases := leases[ch := lease], rooms := rooms + {ch})
    }

    /** The synchronous part of leave. */
    function Leave(ch: string): Local {
      Local(leases - {ch}, revisions - {ch}, rooms - {ch})
    }

    function Update(ch: string, lease: Lease): Local {
      this.(leases := leases[ch := lease])
    }

    /** Expiry: the lease stays as an intent, the room is left. */
    function Suspend(ch: string): Local
      requires ch in leases
    {
      this.(leases := leases[ch := leases[ch].(suspended := true)], rooms := rooms - {ch})
    }

    /** The finally block of join. */
    function Settle(ch: string, revision: nat): Local {
      if ch !in leases && IsCurrent(ch, revision) then this.(revisions := revisions - {ch}) else this
    }
  }

  /** A join whose authorization, or whose presence update, is still under way. */
  datatype Join = Join(socket: nat, channel: string)

  /** A renewal under way: the revision it saw at the start, and, once answered, whether it ends by disconnecting. */
  datatype Renewal = Renewal(socket: nat, channel: string, revision: Option<nat>, closing: bool, disconnects: bool)

  datatype Denial = Forbidden | Unauthenticated | SessionExpired

  /** What authorization and the session check came to: an oracle. */
  datatype Answer = Granted(until: int, renewAt: int) | Denied(denial: Denial) | Unavailable {
    /** Every denial but a mere refusal of the channel ends the session. */
    predicate EndsSession() { Denied? && !denial.Forbidden? }
  }

  type Floors = map<(nat, string), nat>

  /** The highest revision requested before the last leave or denial on this channel. */
  function Floor(floors: Floors, s: nat, ch: string): nat {
    if (s, ch) in floors then floors[(s, ch)] else 0
  }

  ghost predicate Owns(owners: map<nat, Join>, serial: nat, s: nat, ch: string) {
    serial in owners && owners[serial] == Join(s, ch)
  }

  /** The bookkeeping shared by all sockets. */
  datatype Books = Books(top: nat, floors: Floors, owners: map<nat, Join>, joins: map<nat, Join>,
                         renewals: map<nat, Renewal>)

  /** A lease has a revision at least as new as the join that asked for it, and newer than the floor. */
  ghost predicate LeaseValid(s: nat, l: Local, ch: string, b: Books)
    requires ch in l.leases
  {
    var lease := l.leases[ch];
    && ch in l.revisions && Floor(b.floors, s, ch) < lease.origin <= l.revisions[ch]
    && Owns(b.owners, lease.serial, s, ch)
    && (lease.renewing <==> lease.serial in b.renewals)
  }

  /** A revision is newer than the floor, and kept only for a lease or for a join under way. */
  ghost predicate RevisionValid(s: nat, l: Local, ch: string, b: Books)
    requires ch in l.revisions
  {
    && Floor(b.floors, s, ch) < l.revisions[ch] <= b.top
    && (ch in l.leases || (l.revisions[ch] in b.joins && b.joins[l.revisions[ch]] == Join(s, ch)))
  }

  ghost predicate LocalValid(s: nat, l: Local, maxRooms: nat, b: Books) {
    && l.Seated() && |l.leases| <= maxRooms
    && (forall ch {:trigger LeaseValid(s, l, ch, b)} :: ch in l.leases ==> LeaseValid(s, l, ch, b))
    && (forall ch {:trigger RevisionValid(s, l, ch, b)} :: ch in l.revisions ==> RevisionValid(s, l, ch, b))
  }

  ghost predicate BooksValid(b: Books, serials: nat) {
    && (forall n :: n in b.joins ==> 0 < n <= b.top)
    && (forall p :: p in b.floors ==> b.floors[p] <= b.top)
    && (forall n :: n in b.owners ==> n < serials)
    && (forall n :: n in b.renewals ==> Owns(b.owners, n, b.renewals[n].socket, b.renewals[n].channel))
  }

  // --------------------------------------------------------------- what keeps

  /** Bookkeeping that concerns another socket, or another channel, leaves this socket's part alone. */
  ghost predicate Untouched(s: nat, l: Local, b: Books, c: Books) {
    && b.top <= c.top
    && (forall ch :: ch in l.revisions ==> Floor(c.floors, s, ch) == Floor(b.floors, s, ch))
    && (forall ch :: ch in l.leases ==>
        var n := l.leases[ch].serial;
        Owns(b.owners, n, s, ch) ==> Owns(c.owners, n, s, ch) && (n in b.renewals <==> n in c.renewals))
    && (forall ch :: ch in l.revisions ==>
        var n := l.revisions[ch];
        n in b.joins && b.joins[n] == Join(s, ch) ==> n in c.joins && c.joins[n] == Join(s, ch))
  }

  lemma {:induction false} UntouchedValid(s: nat, l: Local, maxRooms: nat, b: Books, c: Books)
    requires LocalValid(s, l, maxRooms, b) && Untouched(s, l, b, c)
    ensures LocalValid(s, l, maxRooms, c)
  {
    forall ch | ch in l.leases ensures LeaseValid(s, l, ch, c) {
      assert LeaseValid(s, l, ch, b);
    }
    forall ch | ch in l.revisions ensures RevisionValid(s, l, ch, c) {
      assert RevisionValid(s, l, ch, b);
    }
  }

  function Requested(b: Books, s: nat, ch: string): Books {
    b.(top := b.top + 1, joins := b.joins[b.top + 1 := Join(s, ch)])
  }

  lemma {:induction false} RequestLease(s: nat, l: Local, b: Books, ch: string, x: string)
    requires x in l.leases && x in l.revisions && LeaseValid(s, l, x, b) && RevisionValid(s, l, x, b)
    ensures LeaseValid(s, l.Request(ch, b.top + 1), x, Requested(b, s, ch))
  {
  }

  lemma {:induction false} RequestRevision(s: nat, l: Local, b: Books, ch: string, x: string)
    requires x in l.Request(ch, b.top + 1).revisions && (x != ch ==> RevisionValid(s, l, x, b))
             && Floor(b.floors, s, ch) <= b.top
    ensures RevisionValid(s, l.Request(ch, b.top + 1), x, Requested(b, s, ch))
  {
  }

  /** A request keeps a socket's part in order. */
  lemma {:induction false} RequestKeeps(s: nat, l: Local, maxRooms: nat, b: Books, ch: string, serials: nat)
    requires LocalValid(s, l, maxRooms, b) && BooksValid(b, serials)
    ensures LocalValid(s, l.Request(ch, b.top + 1), maxRooms, Requested(b, s, ch))
            && BooksValid(Requested(b, s, ch), serials)
  {
    var m, c := l.Request(ch, b.top + 1), Requested(b, s, ch);
    assert (s, ch) in b.floors ==> b.floors[(s, ch)] <= b.top;
    forall x | x in m.leases ensures LeaseValid(s, m, x, c) {
      assert LeaseValid(s, l, x, b) && RevisionValid(s, l, x, b);
      RequestLease(s, l, b, ch, x);
    }
    forall x | x in m.revisions ensures RevisionValid(s, m, x, c) {
      if x != ch { assert RevisionValid(s, l, x, b); }
      RequestRevision(s, l, b, ch, x);
    }
  }

  lemma {:induction false} InstallLease(s: nat, l: Local, b: Books, ch: string, lease: Lease, serials: nat, x: string)
    requires BooksValid(b, serials) && lease.serial == serials && !lease.renewing
    requires ch in l.revisions && Floor(b.floors, s, ch) < lease.origin <= l.revisions[ch]
    requires x in l.Install(ch, lease).leases && (x != ch ==> LeaseValid(s, l, x, b))
    ensures LeaseValid(s, l.Install(ch, lease), x, b.(owners := b.owners[serials := Join(s, ch)]))
  {
  }

  /** A lease enters the map only under the revision that is current, and a new channel only below the limit. */
  lemma {:induction false} InstallKeeps(s: nat, l: Local, maxRooms: nat, b: Books, ch: string, lease: Lease,
                                        serials: nat)
    requires LocalValid(s, l, maxRooms, b) && BooksValid(b, serials)
    requires lease.serial == serials && !lease.renewing && !lease.suspended
    requires ch in l.revisions && Floor(b.floors, s, ch) < lease.origin <= l.revisions[ch]
    requires ch in l.leases || |l.leases| < maxRooms
    ensures var c := b.(owners := b.owners[serials := Join(s, ch)]);
            LocalValid(s, l.Install(ch, lease), maxRooms, c) && BooksValid(c, serials + 1)
  {
    var m, c := l.Install(ch, lease), b.(owners := b.owners[serials := Join(s, ch)]);
    forall x | x in m.leases ensures LeaseValid(s, m, x, c) {
      if x != ch { assert LeaseValid(s, l, x, b); }
      InstallLease(s, l, b, ch, lease, serials, x);
    }
    forall x | x in m.revisions ensures RevisionValid(s, m, x, c) {
      assert RevisionValid(s, l, x, b);
    }
  }

  lemma {:induction false} LeaveLease(s: nat, l: Local, b: Books, ch: string, x: string)
    requires x in l.leases && x != ch && LeaseValid(s, l, x, b)
    ensures LeaseValid(s, l.Leave(ch), x, b.(floors := b.floors[(s, ch) := b.top]))
  {
  }

  lemma {:induction false} LeaveRevision(s: nat, l: Local, b: Books, ch: string, x: string)
    requires x in l.revisions && x != ch && RevisionValid(s, l, x, b)
    ensures RevisionValid(s, l.Leave(ch), x, b.(floors := b.floors[(s, ch) := b.top]))
  {
  }

  /** After a leave the floor is the latest request, so nothing asked for earlier can come back. */
  lemma {:induction false} LeaveKeeps(s: nat, l: Local, maxRooms: nat, b: Books, ch: string, serials: nat)
    requires LocalValid(s, l, maxRooms, b) && BooksValid(b, serials)
    ensures var c := b.(floors := b.floors[(s, ch) := b.top]);
            LocalValid(s, l.Leave(ch), maxRooms, c) && BooksValid(c, serials)
  {
    var m, c := l.Leave(ch), b.(floors := b.floors[(s, ch) := b.top]);
    Fewer(l.leases, ch);
    forall x | x in m.leases ensures LeaseValid(s, m, x, c) {
      assert LeaseValid(s, l, x, b);
      LeaveLease(s, l, b, ch, x);
    }
    forall x | x in m.revisions ensures RevisionValid(s, m, x, c) {
      assert RevisionValid(s, l, x, b);
      LeaveRevision(s, l, b, ch, x);
    }
  }

  /** A change of deadline, suspension or attempts: the lease object stays the same. */
  lemma {:induction false} UpdateKeeps(s: nat, l: Local, m: Local, maxRooms: nat, b: Books, ch: string, lease: Lease)
    requires LocalValid(s, l, maxRooms, b) && ch in l.leases
    requires lease.serial == l.leases[ch].serial && lease.origin == l.leases[ch].origin
             && lease.renewing == l.leases[ch].renewing
    requires m == l.(leases := l.leases[ch := lease], rooms := m.rooms) && m.Seated()
    ensures LocalValid(s, m, maxRooms, b)
  {
    forall x | x in m.leases ensures LeaseValid(s, m, x, b) {
      assert LeaseValid(s, l, x, b);
    }
    forall x | x in m.revisions ensures RevisionValid(s, m, x, b) {
      assert RevisionValid(s, l, x, b);
    }
  }

  /** The join is over: its revision survives only with a lease. */
  lemma {:induction false} SettleKeeps(s: nat, l: Local, maxRooms: nat, b: Books, ch: string, revision: nat,
                                       serials: nat)
    requires LocalValid(s, l, maxRooms, b) && BooksValid(b, serials) && revision in b.joins
             && b.joins[revision] == Join(s, ch)
    ensures var c := b.(joins := b.joins - {revision});
            LocalValid(s, l.Settle(ch, revision), maxRooms, c) && BooksValid(c, serials)
  {
    var m, c := l.Settle(ch, revision), b.(joins := b.joins - {revision});
    forall x | x in m.leases ensures LeaseValid(s, m, x, c) {
      assert LeaseValid(s, l, x, b);
    }
    forall x | x in m.revisions ensures RevisionValid(s, m, x, c) {
      assert RevisionValid(s, l, x, b);
    }
  }

  /** A renewal marks its lease while it is under way. */
  lemma {:induction false} MarkKeeps(s: nat, l: Local, maxRooms: nat, b: Books, ch: string, renewal: Renewal,
                                     serials: nat)
    requires LocalValid(s, l, maxRooms, b) && BooksValid(b, serials) && ch in l.leases
    requires renewal.socket == s && renewal.channel == ch
    ensures var c := b.(renewals := b.renewals[l.leases[ch].serial := renewal]);
            LocalValid(s, l.Update(ch, l.leases[ch].(renewing := true)), maxRooms, c) && BooksValid(c, serials)
  {
    var m, c :=
      l.Update(ch, l.leases[ch].(renewing := true)), b.(renewals := b.renewals[l.leases[ch].serial := renewal]);
    forall x | x in m.leases ensures LeaseValid(s, m, x, c) {
      assert LeaseValid(s, l, x, b) && LeaseValid(s, l, ch, b);
    }
    forall x | x in m.revisions ensures RevisionValid(s, m, x, c) {
      assert RevisionValid(s, l, x, b);
    }
  }

  /** When it ends, the mark goes, if that very lease is still installed. */
  function Unmarked(l: Local, ch: string, serial: nat): Local {
    if ch in l.leases && l.leases[ch].serial == serial then l.Update(ch, l.leases[ch].(renewing := false)) else l
  }

  lemma {:induction false} UnmarkLease(s: nat, l: Local, b: Books, ch: string, serial: nat, x: string)
    requires x in l.leases && LeaseValid(s, l, x, b) && serial in b.renewals && Owns(b.owners, serial, s, ch)
    ensures LeaseValid(s, Unmarked(l, ch, serial), x, b.(renewals := b.renewals - {serial}))
  {
  }

  lemma {:induction false} UnmarkKeeps(s: nat, l: Local, maxRooms: nat, b: Books, ch: string, serial: nat, serials: nat)
    requires LocalValid(s, l, maxRooms, b) && BooksValid(b, serials) && serial in b.renewals
             && b.renewals[serial].socket == s && b.renewals[serial].channel == ch
    ensures var c := b.(renewals := b.renewals - {serial});
            LocalValid(s, Unmarked(l, ch, serial), maxRooms, c) && BooksValid(c, serials)
  {
    var m, c := Unmarked(l, ch, serial), b.(renewals := b.renewals - {serial});
    assert Owns(b.owners, serial, s, ch);
    forall x | x in m.leases ensures LeaseValid(s, m, x, c) {
      assert LeaseValid(s, l, x, b);
      UnmarkLease(s, l, b, ch, serial, x);
    }
    forall x | x in m.revisions ensures RevisionValid(s, m, x, c) {
      assert RevisionValid(s, l, x, b);
    }
  }

  // -------------------------------------------------- what an answer changes

  /** The answer grants the join, it is still the current attempt, and there is room. */
  predicate Wins(state: map<nat, Local>, maxRooms: nat, j: Join, revision: nat, answer: Answer) {
    && answer.Granted? && j.socket in state && state[j.socket].IsCurrent(j.channel, revision)
    && (j.channel in state[j.socket].leases || |state[j.socket].leases| < maxRooms)
  }

  /** The answer denies the current attempt. */
  predicate Loses(state: map<nat, Local>, j: Join, revision: nat, answer: Answer) {
    answer.Denied? && j.socket in state && state[j.socket].IsCurrent(j.channel, revision)
  }

  /** The sockets after a join got its answer. */
  function Answered(state: map<nat, Local>, maxRooms: nat, j: Join, revision: nat, answer: Answer,
                    serial: nat): map<nat, Local> {
    if j.socket !in state then state
    else
      var l := state[j.socket];
      state[j.socket :=
        if Wins(state, maxRooms, j, revision, answer)
        then l.Install(j.channel, Lease(serial, revision, answer.until, answer.renewAt, 0, false, false))
        else if Loses(state, j, revision, answer) then l.Leave(j.channel)
        else l.Settle(j.channel, revision)]
  }

  /** The lease a renewal is about is still installed, under the revision it saw. */
  predicate StillCurrent(state: map<nat, Local>, serial: nat, r: Renewal) {
    && r.socket in state && r.channel in state[r.socket].leases && state[r.socket].leases[r.channel].serial == serial
    && r.revision == if r.channel in state[r.socket].revisions then Some(state[r.socket].revisions[r.channel]) else None
  }

  /** The sockets after a renewal got its answer; `next` is the time of the next attempt after a transient failure. */
  function Renewed(state: map<nat, Local>, serial: nat, r: Renewal, answer: Answer, newSerial: nat,
                   next: int): map<nat, Local> {
    if !StillCurrent(state, serial, r) then state
    else
      var l, lease := state[r.socket], state[r.socket].leases[r.channel];
      state[r.socket :=
        match answer
        case Granted(until, renewAt) =>
            l.Install(r.channel, Lease(newSerial, lease.origin, until, renewAt, 0, false, false))
        case Denied(_) => l.Leave(r.channel)
        case Unavailable => l.Update(r.channel, lease.(attempts := lease.attempts + 1, nextAttempt := next))]
  }

  // ------------------------------------------------------------ all sockets

  ghost predicate SocketsValid(state: map<nat, Local>, maxRooms: nat, b: Books) {
    forall s {:trigger LocalValid(s, state[s], maxRooms, b)} :: s in state ==> LocalValid(s, state[s], maxRooms, b)
  }

  ghost predicate GateValid(state: map<nat, Local>, maxRooms: nat, b: Books, serials: nat) {
    BooksValid(b, serials) && SocketsValid(state, maxRooms, b)
  }

  /** One socket changed, and the bookkeeping of the others did not. */
  lemma {:induction false} OneChanged(state: map<nat, Local>, s: nat, m: Local, maxRooms: nat, b: Books, c: Books)
    requires SocketsValid(state, maxRooms, b) && LocalValid(s, m, maxRooms, c)
    requires forall t :: t in state && t != s ==> Untouched(t, state[t], b, c)
    ensures SocketsValid(state[s := m], maxRooms, c)
  {
    forall t | t in state && t != s ensures LocalValid(t, state[t], maxRooms, c) {
      UntouchedValid(t, state[t], maxRooms, b, c);
    }
  }

  lemma {:induction false} OtherRequest(t: nat, l: Local, maxRooms: nat, b: Books, s: nat, ch: string, serials: nat)
    requires t != s && LocalValid(t, l, maxRooms, b) && BooksValid(b, serials)
    ensures Untouched(t, l, b, Requested(b, s, ch))
  {
  }

  lemma {:induction false} OtherInstall(t: nat, l: Local, maxRooms: nat, b: Books, j: Join, serials: nat)
    requires LocalValid(t, l, maxRooms, b) && BooksValid(b, serials)
    ensures Untouched(t, l, b, b.(owners := b.owners[serials := j]))
  {
  }

  lemma {:induction false} OtherLeave(t: nat, l: Local, maxRooms: nat, b: Books, s: nat, ch: string)
    requires t != s && LocalValid(t, l, maxRooms, b)
    ensures Untouched(t, l, b, b.(floors := b.floors[(s, ch) := b.top]))
  {
  }

  lemma {:induction false} OtherSettle(t: nat, l: Local, maxRooms: nat, b: Books, revision: nat)
    requires LocalValid(t, l, maxRooms, b) && revision in b.joins && b.joins[revision].socket != t
    ensures Untouched(t, l, b, b.(joins := b.joins - {revision}))
  {
  }

  lemma {:induction false} OtherMark(t: nat, l: Local, maxRooms: nat, b: Books, serial: nat,
                                     renewals: map<nat, Renewal>)
    requires LocalValid(t, l, maxRooms, b) && serial in b.owners && b.owners[serial].socket != t
    requires forall n :: n != serial ==> (n in renewals <==> n in b.renewals)
    ensures Untouched(t, l, b, b.(renewals := renewals))
  {
    forall ch | ch in l.leases ensures l.leases[ch].serial != serial {
      assert LeaseValid(t, l, ch, b);
    }
  }

  lemma {:induction false} GateRequest(state: map<nat, Local>, maxRooms: nat, b: Books, serials: nat, s: nat,
                                       ch: string)
    requires GateValid(state, maxRooms, b, serials) && s in state
    ensures GateValid(state[s := state[s].Request(ch, b.top + 1)], maxRooms, Requested(b, s, ch), serials)
  {
    RequestKeeps(s, state[s], maxRooms, b, ch, serials);
    forall t | t in state && t != s ensures Untouched(t, state[t], b, Requested(b, s, ch)) {
      OtherRequest(t, state[t], maxRooms, b, s, ch, serials);
    }
    OneChanged(state, s, state[s].Request(ch, b.top + 1), maxRooms, b, Requested(b, s, ch));
  }

  lemma {:induction false} GateInstall(state: map<nat, Local>, maxRooms: nat, b: Books, serials: nat, s: nat,
                                       ch: string, lease: Lease)
    requires GateValid(state, maxRooms, b, serials) && s in state
    requires lease.serial == serials && !lease.renewing && !lease.suspended
    requires ch in state[s].revisions && Floor(b.floors, s, ch) < lease.origin <= state[s].revisions[ch]
    requires ch in state[s].leases || |state[s].leases| < maxRooms
    ensures GateValid(state[s := state[s].Install(ch, lease)], maxRooms, b.(owners := b.owners[serials := Join(s, ch)]),
                      serials + 1)
  {
    var c := b.(owners := b.owners[serials := Join(s, ch)]);
    InstallKeeps(s, state[s], maxRooms, b, ch, lease, serials);
    forall t | t in state && t != s ensures Untouched(t, state[t], b, c) {
      OtherInstall(t, state[t], maxRooms, b, Join(s, ch), serials);
    }
    OneChanged(state, s, state[s].Install(ch, lease), maxRooms, b, c);
  }

  lemma {:induction false} GateLeave(state: map<nat, Local>, maxRooms: nat, b: Books, serials: nat, s: nat, ch: string)
    requires GateValid(state, maxRooms, b, serials) && s in state
    ensures GateValid(state[s := state[s].Leave(ch)], maxRooms, b.(floors := b.floors[(s, ch) := b.top]), serials)
  {
    var c := b.(floors := b.floors[(s, ch) := b.top]);
    LeaveKeeps(s, state[s], maxRooms, b, ch, serials);
    forall t | t in state && t != s ensures Untouched(t, state[t], b, c) {
      OtherLeave(t, state[t], maxRooms, b, s, ch);
    }
    OneChanged(state, s, state[s].Leave(ch), maxRooms, b, c);
  }

  lemma {:induction false} GateSettle(state: map<nat, Local>, maxRooms: nat, b: Books, serials: nat, revision: nat)
    requires GateValid(state, maxRooms, b, serials) && revision in b.joins
    ensures var Join(s, ch) := b.joins[revision];
            GateValid(if s in state then state[s := state[s].Settle(ch, revision)] else state, maxRooms,
                      b.(joins := b.joins - {revision}), serials)
  {
    var Join(s, ch) := b.joins[revision];
    var c := b.(joins := b.joins - {revision});
    forall t | t in state && t != s ensures Untouched(t, state[t], b, c) {
      OtherSettle(t, state[t], maxRooms, b, revision);
    }
    if s in state {
      SettleKeeps(s, state[s], maxRooms, b, ch, revision, serials);
      OneChanged(state, s, state[s].Settle(ch, revision), maxRooms, b, c);
    } else {
      forall t | t in state ensures LocalValid(t, state[t], maxRooms, c) {
        UntouchedValid(t, state[t], maxRooms, b, c);
      }
    }
  }

  lemma {:induction false} GateMark(state: map<nat, Local>, maxRooms: nat, b: Books, serials: nat, s: nat, ch: string,
                                    renewal: Renewal)
    requires GateValid(state, maxRooms, b, serials) && s in state && ch in state[s].leases && renewal.socket == s
             && renewal.channel == ch
    ensures var lease := state[s].leases[ch];
            GateValid(state[s := state[s].Update(ch, lease.(renewing := true))], maxRooms,
                      b.(renewals := b.renewals[lease.serial := renewal]), serials)
  {
    var lease := state[s].leases[ch];
    var c := b.(renewals := b.renewals[lease.serial := renewal]);
    assert LocalValid(s, state[s], maxRooms, b) && LeaseValid(s, state[s], ch, b);
    MarkKeeps(s, state[s], maxRooms, b, ch, renewal, serials);
    forall t | t in state && t != s ensures Untouched(t, state[t], b, c) {
      OtherMark(t, state[t], maxRooms, b, lease.serial, c.renewals);
    }
    OneChanged(state, s, state[s].Update(ch, lease.(renewing := true)), maxRooms, b, c);
  }

  lemma {:induction false} GateUnmark(state: map<nat, Local>, maxRooms: nat, b: Books, serials: nat, serial: nat)
    requires GateValid(state, maxRooms, b, serials) && serial in b.renewals
    ensures var r := b.renewals[serial];
            GateValid(if r.socket in state
                      then state[r.socket := Unmarked(state[r.socket], r.channel, serial)] else state,
                      maxRooms, b.(renewals := b.renewals - {serial}), serials)
  {
    var r, c := b.renewals[serial], b.(renewals := b.renewals - {serial});
    assert Owns(b.owners, serial, r.socket, r.channel);
    forall t | t in state && t != r.socket ensures Untouched(t, state[t], b, c) {
      OtherMark(t, state[t], maxRooms, b, serial, c.renewals);
    }
    if r.socket in state {
      UnmarkKeeps(r.socket, state[r.socket], maxRooms, b, r.channel, serial, serials);
      OneChanged(state, r.socket, Unmarked(state[r.socket], r.channel, serial), maxRooms, b, c);
    } else {
      forall t | t in state ensures LocalValid(t, state[t], maxRooms, c) {
        UntouchedValid(t, state[t], maxRooms, b, c);
      }
    }
  }

  /** A change to one lease object that keeps its identity. */
  lemma {:induction false} GateUpdate(state: map<nat, Local>, maxRooms: nat, b: Books, serials: nat, s: nat, ch: string,
                                      m: Local)
    requires GateValid(state, maxRooms, b, serials) && s in state && ch in state[s].leases && ch in m.leases
    requires var old0, lease := state[s].leases[ch], m.leases[ch];
             lease.serial == old0.serial && lease.origin == old0.origin && lease.renewing == old0.renewing
    requires m == state[s].(leases := state[s].leases[ch := m.leases[ch]], rooms := m.rooms) && m.Seated()
    ensures GateValid(state[s := m], maxRooms, b, serials)
  {
    UpdateKeeps(s, state[s], m, maxRooms, b, ch, m.leases[ch]);
    forall t | t in state && t != s ensures Untouched(t, state[t], b, b) {
    }
    OneChanged(state, s, m, maxRooms, b, b);
  }

  /** A renewal got its answer; its finally block is still to come. */
  lemma {:induction false} GateClose(state: map<nat, Local>, maxRooms: nat, b: Books, serials: nat, serial: nat,
                                     r: Renewal)
    requires GateValid(state, maxRooms, b, serials) && serial in b.renewals
    requires r.socket == b.renewals[serial].socket && r.channel == b.renewals[serial].channel
    ensures GateValid(state, maxRooms, b.(renewals := b.renewals[serial := r]), serials)
  {
    var c := b.(renewals := b.renewals[serial := r]);
    forall t | t in state ensures LocalValid(t, state[t], maxRooms, c) {
      UntouchedValid(t, state[t], maxRooms, b, c);
    }
  }

  lemma {:induction false} SettlingLeaves(l: Local, ch: string, revision: nat)
    requires l.Seated() && ch !in l.leases && l.IsCurrent(ch, revision)
    ensures l.Settle(ch, revision) == l.Leave(ch)
  {
    assert ch !in l.rooms;
  }

  lemma {:induction false} LeavesNothing(state: map<nat, Local>, s: nat, ch: string)
    requires s in state && ch !in state[s].leases && ch !in state[s].revisions && ch !in state[s].rooms
    ensures state[s := state[s].Leave(ch)] == state
  {
    assert state[s].Leave(ch) == state[s];
  }

  // ------------------------------------------------------------- theorems

  lemma {:induction false} CurrentAboveFloor(l: Local, s: nat, maxRooms: nat, b: Books, ch: string, revision: nat)
    requires LocalValid(s, l, maxRooms, b)
    ensures l.IsCurrent(ch, revision) ==> Floor(b.floors, s, ch) < revision
  {
    assert ch in l.revisions ==> RevisionValid(s, l, ch, b);
  }

  /** Once a channel was left, or its current attempt denied, no grant requested before that is installed. */
  lemma {:induction false} NoLateGrant(state: map<nat, Local>, maxRooms: nat, b: Books, serials: nat, revision: nat,
                                       answer: Answer)
    requires GateValid(state, maxRooms, b, serials) && revision in b.joins
    requires revision <= Floor(b.floors, b.joins[revision].socket, b.joins[revision].channel)
    ensures !Wins(state, maxRooms, b.joins[revision], revision, answer)
    ensures b.joins[revision].socket in state ==>
              Answered(state, maxRooms, b.joins[revision], revision, answer, serials) == state
  {
    var Join(s, ch) := b.joins[revision];
    if s in state {
      CurrentAboveFloor(state[s], s, maxRooms, b, ch, revision);
      assert state[s].Settle(ch, revision) == state[s];
    }
  }

  /** A late answer to an older join, whatever it is, leaves every grant of a newer join in place. */
  lemma {:induction false} NewerGrantStays(state: map<nat, Local>, maxRooms: nat, b: Books, serials: nat, revision: nat,
                                           answer: Answer, t: nat, ch: string)
    requires GateValid(state, maxRooms, b, serials) && revision in b.joins
    requires t in state && ch in state[t].leases && revision < state[t].leases[ch].origin
    ensures var after := Answered(state, maxRooms, b.joins[revision], revision, answer, serials);
            && t in after && ch in after[t].leases && after[t].leases[ch] == state[t].leases[ch]
            && (ch in after[t].rooms <==> ch in state[t].rooms)
  {
    assert LocalValid(t, state[t], maxRooms, b) && LeaseValid(t, state[t], ch, b);
  }

  /**
   * A grant takes effect if and only if its join is the latest request, not left or denied since,
   * and there is room.
   */
  lemma {:induction false} GrantIffCurrent(state: map<nat, Local>, maxRooms: nat, b: Books, serials: nat, revision: nat,
                                           answer: Answer)
    requires GateValid(state, maxRooms, b, serials) && revision in b.joins && answer.Granted?
             && b.joins[revision].socket in state
    ensures var Join(s, ch) := b.joins[revision];
            var after := Answered(state, maxRooms, b.joins[revision], revision, answer, serials);
            var takes := state[s].IsCurrent(ch, revision) && (ch in state[s].leases || |state[s].leases| < maxRooms);
            && (takes <==> ch in after[s].leases && after[s].leases[ch].serial == serials)
            && (takes ==> ch in after[s].rooms && after[s].leases[ch].origin == revision)
  {
    var Join(s, ch) := b.joins[revision];
    if ch in state[s].leases {
      assert LocalValid(s, state[s], maxRooms, b) && LeaseValid(s, state[s], ch, b);
      assert state[s].leases[ch].serial < serials;
    }
  }

  /** All sockets and channels but this one are as before. */
  ghost predicate OnlyChannel(state: map<nat, Local>, after: map<nat, Local>, s: nat, ch: string) {
    s in state && s in after && after == state[s := after[s]] && OnlyHere(state[s], after[s], ch)
  }

  ghost predicate OnlyHere(l: Local, m: Local, ch: string) {
    && m.leases - {ch} == l.leases - {ch} && m.revisions - {ch} == l.revisions - {ch}
    && m.rooms - {ch} == l.rooms - {ch}
  }

  lemma {:induction false} InstallsHere(l: Local, ch: string, lease: Lease)
    ensures OnlyHere(l, l.Install(ch, lease), ch)
  {
  }

  lemma {:induction false} LeavesHere(l: Local, ch: string)
    ensures OnlyHere(l, l.Leave(ch), ch)
  {
  }

  lemma {:induction false} SettlesHere(l: Local, ch: string, revision: nat)
    ensures OnlyHere(l, l.Settle(ch, revision), ch)
  {
  }

  lemma {:induction false} UpdatesHere(l: Local, ch: string, lease: Lease)
    ensures OnlyHere(l, l.Update(ch, lease), ch)
  {
  }

  /** The socket has no lease, no revision and no room of this channel. */
  predicate Gone(m: Local, ch: string) {
    ch !in m.leases && ch !in m.revisions && ch !in m.rooms
  }

  /** Its lease and its room are as before. */
  predicate SameLease(l: Local, m: Local, ch: string) {
    && (ch in m.leases <==> ch in l.leases) && (ch in m.leases ==> m.leases[ch] == l.leases[ch])
    && (ch in m.rooms <==> ch in l.rooms)
  }

  /** Its revision is as before. */
  predicate SameRevision(l: Local, m: Local, ch: string) {
    (ch in m.revisions <==> ch in l.revisions) && (ch in m.revisions ==> m.revisions[ch] == l.revisions[ch])
  }

  /**
   * What the answer to a join does. Of the current attempt, a grant with room seats the socket until
   * the granted deadline, and any denial, a forbidden channel or a dead session, ends lease, revision
   * and room. Every other answer leaves lease and room alone, and only drops a current revision
   * that has no lease.
   */
  lemma {:induction false} JoinAnswerIs(state: map<nat, Local>, maxRooms: nat, j: Join, revision: nat, answer: Answer,
                                        serial: nat)
    requires j.socket in state
    ensures var after := Answered(state, maxRooms, j, revision, answer, serial);
            var l, ch := state[j.socket], j.channel;
            var current := ch in l.revisions && l.revisions[ch] == revision;
            var room := ch in l.leases || |l.leases| < maxRooms;
            && OnlyChannel(state, after, j.socket, ch)
            && var m := after[j.socket];
               if current && answer.Granted? && room then
                 && ch in m.rooms && SameRevision(l, m, ch) && ch in m.leases
                 && m.leases[ch].until == answer.until && m.leases[ch].nextAttempt == answer.renewAt
                 && m.leases[ch].origin == revision && m.leases[ch].serial == serial && m.leases[ch].attempts == 0
                 && !m.leases[ch].renewing && !m.leases[ch].suspended
               else if current && answer.Denied? then Gone(m, ch)
               else
                 && SameLease(l, m, ch)
                 && if current && ch !in l.leases then ch !in m.revisions else SameRevision(l, m, ch)
  {
    var l, ch := state[j.socket], j.channel;
    if Wins(state, maxRooms, j, revision, answer) {
      InstallsHere(l, ch, Lease(serial, revision, answer.until, answer.renewAt, 0, false, false));
    } else if Loses(state, j, revision, answer) {
      LeavesHere(l, ch);
    } else {
      SettlesHere(l, ch, revision);
    }
  }

  /**
   * What the answer to a renewal does, if the lease it is about is still installed under the
   * revision it saw; if not, it does nothing.
   */
  lemma {:induction false} RenewalAnswerIs(state: map<nat, Local>, serial: nat, r: Renewal, answer: Answer,
                                           newSerial: nat, next: int)
    requires r.socket in state
    ensures var after := Renewed(state, serial, r, answer, newSerial, next);
            var l, ch := state[r.socket], r.channel;
            var current := && ch in l.leases && l.leases[ch].serial == serial
                           && (r.revision.None? ==> ch !in l.revisions)
                           && (r.revision.Some? ==> ch in l.revisions && l.revisions[ch] == r.revision.value);
            && OnlyChannel(state, after, r.socket, ch)
            && var m := after[r.socket];
               if !current then after == state
               else if answer.Denied? then Gone(m, ch)
               else
                 && SameRevision(l, m, ch) && ch in m.leases && m.leases[ch].origin == l.leases[ch].origin
                 && if answer.Granted? then
                      && ch in m.rooms && !m.leases[ch].suspended && !m.leases[ch].renewing
                      && m.leases[ch].until == answer.until && m.leases[ch].nextAttempt == answer.renewAt
                      && m.leases[ch].attempts == 0 && m.leases[ch].serial == newSerial
                    else
                      && (ch in m.rooms <==> ch in l.rooms) && m.leases[ch].until == l.leases[ch].until
                      && m.leases[ch].suspended == l.leases[ch].suspended && m.leases[ch].serial == serial
                      && m.leases[ch].attempts == l.leases[ch].attempts + 1 && m.leases[ch].nextAttempt == next
  {
    var l, ch := state[r.socket], r.channel;
    if StillCurrent(state, serial, r) {
      match answer {
        case Granted(until, renewAt) =>
          InstallsHere(l, ch, Lease(newSerial, l.leases[ch].origin, until, renewAt, 0, false, false));
        case Denied(_) =>
          LeavesHere(l, ch);
        case Unavailable =>
          UpdatesHere(l, ch, l.leases[ch].(attempts := l.leases[ch].attempts + 1, nextAttempt := next));
      }
    }
  }

  /** A renewal never brings back a lease that was left, replaced or requested anew since it began. */
  lemma {:induction false} RenewalOnlyRefreshes(state: map<nat, Local>, maxRooms: nat, b: Books, serials: nat,
                                                serial: nat, answer: Answer, next: int, s: nat, ch: string)
    requires GateValid(state, maxRooms, b, serials) && serial in b.renewals && s in state
    ensures var after := Renewed(state, serial, b.renewals[serial], answer, serials, next);
            && s in after && (ch in after[s].leases ==>
                              ch in state[s].leases && after[s].leases[ch].origin == state[s].leases[ch].origin)
            && after[s].leases.Keys <= state[s].leases.Keys && after[s].rooms <= state[s].leases.Keys
  {
    assert LocalValid(s, state[s], maxRooms, b);
    forall x | x in state[s].rooms ensures x in state[s].leases {
    }
  }

  /**
   * Why joining the room and recording the lease are one step here: with a leave between the
   * two, the lease would say yes and the room no.
   */
  lemma {:induction false} SplitInstallUnseats(l: Local, ch: string, lease: Lease)
    requires l.Seated() && !lease.suspended
    ensures l.Install(ch, lease).Seated()
    ensures !l.(rooms := l.rooms + {ch}).Leave(ch).Update(ch, lease).Seated()
  {
    var split := l.(rooms := l.rooms + {ch}).Leave(ch).Update(ch, lease);
    assert ch in split.leases && ch !in split.rooms;
  }
}
