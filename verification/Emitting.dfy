/** gateway/src/runtime.ts, localEmit. */
module Emitting {
  import opened Options
  import opened DeliveryCache
  import opened Fanout

  datatype Envelope = Envelope(id: string, rooms: seq<string>, exceptSocket: Option<nat>, exceptUser: Option<string>,
                               expires: Option<int>)

  datatype Peer = Peer(user: string, rooms: set<string>, connected: bool)

  datatype Group = Group(channels: seq<string>, sockets: seq<nat>)

  datatype Packet = Packet(socket: nat, id: string, channels: seq<string>)

  /** The socket is in the physical room of one of the first n targets. */
  predicate InRooms(p: Peer, targets: seq<string>, n: nat)
    requires n <= |targets|
  {
    exists i :: 0 <= i < n && Physical(targets[i]) in p.rooms
  }

  /** A connected, not excluded member of the union of the target rooms. */
  predicate Eligible(peers: map<nat, Peer>, s: nat, e: Envelope) {
    && s in peers && peers[s].connected && Some(s) != e.exceptSocket && Some(peers[s].user) != e.exceptUser
    && InRooms(peers[s], e.rooms, |e.rooms|)
  }

  /** The room a target stands for is its own name if that begins with two underscores, and the channel's otherwise. */
  lemma {:induction false} EligibleIff(peers: map<nat, Peer>, s: nat, e: Envelope)
    ensures Eligible(peers, s, e) <==>
              && s in peers && peers[s].connected && e.exceptSocket != Some(s) && e.exceptUser != Some(peers[s].user)
              && exists t :: t in e.rooms && (if "__" <= t then t else "__channel:" + t) in peers[s].rooms
  {
    if Eligible(peers, s, e) {
      var i :| 0 <= i < |e.rooms| && Physical(e.rooms[i]) in peers[s].rooms;
      assert e.rooms[i] in e.rooms;
    }
    if t :| t in e.rooms && s in peers && (if "__" <= t then t else "__channel:" + t) in peers[s].rooms {
      var i :| 0 <= i < |e.rooms| && e.rooms[i] == t;
      assert Physical(e.rooms[i]) in peers[s].rooms;
    }
  }

  /** expires_at is in seconds, the clock in milliseconds. */
  predicate Expired(e: Envelope, clock: int) {
    e.expires.Some? && e.expires.value <= clock / 1000
  }

  predicate OnceEach(sockets: seq<nat>) {
    forall i, j :: 0 <= i < j < |sockets| ==> sockets[i] != sockets[j]
  }

  /** Every placed socket is in the group of what it may see, once, and in no other. */
  ghost predicate Grouped(groups: map<string, Group>, placed: set<nat>, peers: map<nat, Peer>, targets: seq<string>) {
    && (forall key :: key in groups ==> GroupValid(groups[key], key, placed, peers, targets))
    && forall s :: s in placed ==> s in peers && InGroup(groups, s, Key(Visible(targets, peers[s].rooms)))
  }

  predicate InGroup(groups: map<string, Group>, s: nat, key: string) {
    key in groups && s in groups[key].sockets
  }

  ghost predicate GroupValid(g: Group, key: string, placed: set<nat>, peers: map<nat, Peer>, targets: seq<string>) {
    && key == Key(g.channels) && AllPlain(g.channels) && OnceEach(g.sockets)
    && forall i :: 0 <= i < |g.sockets| ==>
         g.sockets[i] in placed && g.sockets[i] in peers && Visible(targets, peers[g.sockets[i]].rooms) == g.channels
  }

  /** The packets are one for each socket, and tell it exactly its own channels among the targets. */
  ghost predicate OneEach(packets: seq<Packet>, sockets: set<nat>, id: string, peers: map<nat, Peer>,
                          targets: seq<string>) {
    && (forall i :: 0 <= i < |packets| ==> packets[i].socket in sockets && packets[i].socket in peers)
    && (forall i :: 0 <= i < |packets| ==>
        packets[i] == Packet(packets[i].socket, id, Visible(targets, peers[packets[i].socket].rooms)))
    && (forall i, j :: 0 <= i < j < |packets| ==> packets[i].socket != packets[j].socket)
    && forall s :: s in sockets ==> exists i :: 0 <= i < |packets| && packets[i].socket == s
  }

  lemma {:induction false} VisiblePlain(targets: seq<string>, rooms: set<string>)
    requires AllPlain(targets)
    ensures AllPlain(Visible(targets, rooms))
  {
    var v := Visible(targets, rooms);
    forall i | 0 <= i < |v| ensures Plain(v[i]) {
      VisibleIff(targets, rooms, v[i]);
      var k :| 0 <= k < |targets| && targets[k] == v[i];
    }
  }

  lemma {:induction false} UniquePlain(rooms: seq<string>)
    requires AllPlain(rooms)
    ensures AllPlain(Unique(rooms))
  {
    var u := Unique(rooms);
    forall i | 0 <= i < |u| ensures Plain(u[i]) {
      assert u[i] in rooms;
      var k :| 0 <= k < |rooms| && rooms[k] == u[i];
    }
  }

  /** The socket joins the group with its key, or starts it. */
  function Assign(groups: map<string, Group>, s: nat, visible: seq<string>): map<string, Group> {
    var key := Key(visible);
    var group := if key in groups then groups[key] else Group(visible, []);
    groups[key := group.(sockets := group.sockets + [s])]
  }

  lemma {:induction false} AssignKeeps(groups: map<string, Group>, placed: set<nat>, peers: map<nat, Peer>,
                                       targets: seq<string>, s: nat)
    requires Grouped(groups, placed, peers, targets) && s in peers && s !in placed && AllPlain(targets)
    ensures Grouped(Assign(groups, s, Visible(targets, peers[s].rooms)), placed + {s}, peers, targets)
  {
    var visible := Visible(targets, peers[s].rooms);
    var key, after := Key(visible), Assign(groups, s, visible);
    VisiblePlain(targets, peers[s].rooms);
    forall k | k in after ensures GroupValid(after[k], k, placed + {s}, peers, targets) {
      if k in groups { assert GroupValid(groups[k], k, placed, peers, targets); }
      if k == key && k in groups { SameKeySameChannels(groups[k].channels, visible); }
    }
    forall t | t in placed + {s} ensures t in peers && InGroup(after, t, Key(Visible(targets, peers[t].rooms))) {
      var own := Key(Visible(targets, peers[t].rooms));
      if t != s {
        assert InGroup(groups, t, own);
      } else {
        assert after[key].sockets[|after[key].sockets| - 1] == s;
      }
    }
  }

  /** Being in a room of the targets is the same with duplicates removed. */
  lemma {:induction false} UniqueSameRooms(p: Peer, rooms: seq<string>)
    ensures InRooms(p, Unique(rooms), |Unique(rooms)|) <==> InRooms(p, rooms, |rooms|)
  {
    var u := Unique(rooms);
    if InRooms(p, u, |u|) {
      var i :| 0 <= i < |u| && Physical(u[i]) in p.rooms;
      assert u[i] in rooms;
      var k :| 0 <= k < |rooms| && rooms[k] == u[i];
    }
    if InRooms(p, rooms, |rooms|) {
      var k :| 0 <= k < |rooms| && Physical(rooms[k]) in p.rooms;
      assert rooms[k] in u;
      var i :| 0 <= i < |u| && u[i] == rooms[k];
    }
  }

  /** What one emit to a group sends. */
  function Packets(g: Group, id: string): seq<Packet> {
    seq(|g.sockets|, i requires 0 <= i < |g.sockets| => Packet(g.sockets[i], id, g.channels))
  }

  function Members(g: Group, n: nat): set<nat>
    requires n <= |g.sockets|
  {
    set i | 0 <= i < n :: g.sockets[i]
  }

  lemma {:induction false} OneMoreGroup(packets: seq<Packet>, done: set<nat>, g: Group, key: string, placed: set<nat>,
                                        id: string, peers: map<nat, Peer>, targets: seq<string>)
    requires OneEach(packets, done, id, peers, targets) && GroupValid(g, key, placed, peers, targets)
    requires forall i :: 0 <= i < |g.sockets| ==> g.sockets[i] !in done
    ensures OneEach(packets + Packets(g, id), done + Members(g, |g.sockets|), id, peers, targets)
  {
    var more, all := Packets(g, id), packets + Packets(g, id);
    forall s | s in done + Members(g, |g.sockets|) ensures exists i :: 0 <= i < |all| && all[i].socket == s {
      if s in done {
        var i :| 0 <= i < |packets| && packets[i].socket == s;
        assert all[i].socket == s;
      } else {
        var i :| 0 <= i < |g.sockets| && g.sockets[i] == s;
        assert all[|packets| + i] == more[i];
      }
    }
    forall i, j | 0 <= i < j < |all| ensures all[i].socket != all[j].socket {
      if i >= |packets| {
        assert all[i] == more[i - |packets|] && all[j] == more[j - |packets|];
      } else if j >= |packets| {
        assert all[j] == more[j - |packets|] && all[i].socket in done;
      }
    }
  }

  /** Only the caches of these sockets have changed. */
  ghost predicate CachesKept(before: map<nat, seq<Entry>>, after: map<nat, seq<Entry>>, sockets: set<nat>) {
    forall s :: s in before && s !in sockets ==> s in after && after[s] == before[s]
  }

  /** Each of the sockets was dispatched the event once more, and nobody else anything. */
  ghost predicate Dispatched(before: map<nat, seq<Dispatch>>, after: map<nat, seq<Dispatch>>, sockets: set<nat>,
                             id: string) {
    && before.Keys == after.Keys
    && forall s :: s in before ==> if s in sockets then OnceMore(before[s], after[s], id) else after[s] == before[s]
  }

  lemma {:induction false} DispatchedTwice(a: map<nat, seq<Dispatch>>, b: map<nat, seq<Dispatch>>,
                                           c: map<nat, seq<Dispatch>>, x: set<nat>, y: set<nat>, id: string)
    requires Dispatched(a, b, x, id) && Dispatched(b, c, y, id) && x !! y
    ensures Dispatched(a, c, x + y, id)
  {
  }

  predicate OnceMore(before: seq<Dispatch>, after: seq<Dispatch>, id: string) {
    |after| == |before| + 1 && after[..|before|] == before && after[|before|].id == id
  }

  class EventDelivery {
    const ttl: int
    const maxEntries: nat
    var clock: int
    var peers: map<nat, Peer>
    var delivered: map<nat, seq<Entry>>
    var sent: seq<Packet>
    ghost var history: map<nat, seq<Dispatch>>
    ghost var cut: map<nat, nat>

    ghost predicate CacheValid(s: nat)
      reads `clock, `delivered, `history, `cut
    {
      && s in delivered && s in history && s in cut && |delivered[s]| <= maxEntries
      && Remembers(delivered[s], history[s], cut[s], clock, ttl, maxEntries)
      && NoEarlyRepeat(history[s], ttl, maxEntries)
    }

    ghost predicate Valid()
      reads this
    {
      forall s {:trigger CacheValid(s)} :: s in peers ==> CacheValid(s)
    }

    constructor (ttl: int, maxEntries: nat, clock: int)
      ensures Valid() && peers == map[]
    {
      this.ttl, this.maxEntries, this.clock := ttl, maxEntries, clock;
      peers, delivered, sent, history, cut := map[], map[], [], map[], map[];
    }

    /**
     * Connections, room memberships and disconnections change between calls; a new socket starts
     * with an empty cache.
     */
    method Connect(s: nat, user: string)
      requires Valid() && s !in peers
      modifies `peers, `delivered, `history, `cut
      ensures Valid()
    {
      peers := peers[s := Peer(user, {}, true)];
      delivered, history, cut := delivered[s := []], history[s := []], cut[s := 0];
      forall t | t in peers ensures CacheValid(t) {
        assert t != s ==> old(CacheValid(t));
      }
    }

    method Change(s: nat, rooms: set<string>, connected: bool)
      requires Valid() && s in peers
      modifies `peers
      ensures Valid() && peers == old(peers)[s := old(peers)[s].(rooms := rooms, connected := connected)]
    {
      peers := peers[s := peers[s].(rooms := rooms, connected := connected)];
    }

    /** One recipient: skipped, suppressed by its cache, or put into the group of what it may see. */
    method Consider(s: nat, e: Envelope, targets: seq<string>, groups: map<string, Group>, ghost placed: set<nat>)
      returns (after: map<string, Group>, takes: bool)
      requires Valid() && s in peers && AllPlain(targets) && Grouped(groups, placed, peers, targets) && s !in placed
      modifies `clock, `delivered, `cut
      ensures Valid() && old(clock) <= clock
      ensures s in history && s in delivered && delivered == old(delivered)[s := delivered[s]]
      ensures Grouped(after, if takes then placed + {s} else placed, peers, targets)
      ensures takes <==> peers[s].connected && Some(s) != e.exceptSocket && Some(peers[s].user) != e.exceptUser
                         && !InWindow(history[s], e.id, clock, ttl, maxEntries)
      ensures takes ==> !Holds(delivered[s], e.id)
    {
      assert CacheValid(s);
      after, takes := groups, false;
      if !peers[s].connected || Some(s) == e.exceptSocket || Some(peers[s].user) == e.exceptUser {
        return;
      }
      PurgeOf(s);
      HoldsIffInWindow(delivered[s], history[s], cut[s], clock, ttl, maxEntries, e.id);
      if exists i :: 0 <= i < |delivered[s]| && delivered[s][i].id == e.id {
        return;
      }
      AssignKeeps(groups, placed, peers, targets, s);
      after, takes := Assign(groups, s, Visible(targets, peers[s].rooms)), true;
    }

    method PurgeOf(s: nat)
      requires Valid() && s in peers
      modifies `clock, `delivered, `cut
      ensures Valid() && old(clock) <= clock && CacheValid(s) && delivered == old(delivered)[s := delivered[s]]
      ensures delivered[s] != [] ==> clock < delivered[s][0].until
    {
      assert CacheValid(s);
      var kept, now, k := Purge(delivered[s], history[s], cut[s], clock, ttl, maxEntries);
      ghost var before := clock;
      delivered, cut, clock := delivered[s := kept], cut[s := k], now;
      forall t | t in peers ensures CacheValid(t) {
        assert old(CacheValid(t));
        if t != s { TimePasses(delivered[t], history[t], cut[t], before, now, ttl, maxEntries); }
      }
    }

    /** The union of the target rooms. */
    method Recipients(targets: seq<string>) returns (recipients: set<nat>)
      ensures forall s :: s in recipients <==> s in peers && InRooms(peers[s], targets, |targets|)
    {
      recipients := {};
      for n := 0 to |targets|
        invariant forall s :: s in recipients <==> s in peers && InRooms(peers[s], targets, n)
      {
        recipients := recipients + set s | s in peers && Physical(targets[n]) in peers[s].rooms;
      }
    }

    /** The loop over recipients: who gets the event, and with whom. */
    method Sort(e: Envelope, targets: seq<string>, recipients: set<nat>)
      returns (groups: map<string, Group>, ghost placed: set<nat>, ghost checked: map<nat, int>)
      requires Valid() && AllPlain(targets) && recipients <= peers.Keys
      modifies `clock, `delivered, `cut
      ensures Valid() && old(clock) <= clock && Grouped(groups, placed, peers, targets)
      ensures placed <= recipients <= checked.Keys
      ensures forall s :: s in recipients ==> Decided(s, e, s in placed, checked[s], old(clock))
    {
      var todo := recipients;
      groups, placed, checked := map[], {}, map[];
      while todo != {}
        invariant Valid() && old(clock) <= clock && todo <= recipients && Grouped(groups, placed, peers, targets)
        invariant placed <= recipients - todo && recipients - todo <= checked.Keys
        invariant forall s {:trigger s in placed} {:trigger checked[s]} ::
                    s in recipients - todo ==> Decided(s, e, s in placed, checked[s], old(clock))
      {
        var s :| s in todo;
        var takes;
        groups, takes := Consider(s, e, targets, groups, placed);
        placed, checked, todo := if takes then placed + {s} else placed, checked[s := clock], todo - {s};
      }
    }

    /**
     * A recipient gets the event if it is connected, not excluded, and outside its suppression
     * window when it is looked at.
     */
    ghost predicate Decided(s: nat, e: Envelope, takes: bool, checked: int, since: int)
      reads `clock, `peers, `history, `delivered
    {
      && s in peers && s in history && since <= checked <= clock
      && (takes ==> s in delivered && !Holds(delivered[s], e.id))
      && (takes <==> peers[s].connected && Some(s) != e.exceptSocket && Some(peers[s].user) != e.exceptUser
                     && !InWindow(history[s], e.id, checked, ttl, maxEntries))
    }

    /** One socket of a group: delivered.set and its bound. */
    method Note(s: nat, id: string, ghost checked: int)
      requires Valid() && s in peers && checked <= clock && s in history
               && !InWindow(history[s], id, checked, ttl, maxEntries)
      requires s in delivered && !Holds(delivered[s], id)
      modifies `clock, `delivered, `history, `cut
      ensures Valid() && old(clock) <= clock && s in history
      ensures history == old(history)[s := old(history)[s] + [Dispatch(id, clock)]]
      ensures s in delivered && delivered == old(delivered)[s := delivered[s]]
    {
      assert CacheValid(s);
      ghost var before := clock;
      var now := Tick(clock, delivered[s], history[s], cut[s], ttl, maxEntries);
      NoRepeatGrows(history[s], id, checked, now, ttl, maxEntries);
      var kept, longer, k := Record(delivered[s], history[s], cut[s], id, now, ttl, maxEntries);
      delivered, history, cut, clock := delivered[s := kept], history[s := longer], cut[s := k], now;
      forall t | t in peers ensures CacheValid(t) {
        assert old(CacheValid(t));
        if t != s { TimePasses(delivered[t], history[t], cut[t], before, now, ttl, maxEntries); }
      }
    }

    /** One packet for the whole group, then the note in each socket's cache. */
    method EmitGroup(g: Group, key: string, e: Envelope, ghost placed: set<nat>, ghost checked: map<nat, int>,
                     ghost targets: seq<string>)
      requires Valid() && GroupValid(g, key, placed, peers, targets) && placed <= checked.Keys
      requires forall i :: 0 <= i < |g.sockets| ==> Due(g.sockets[i], e.id, checked[g.sockets[i]])
      modifies `clock, `delivered, `history, `cut, `sent
      ensures Valid() && old(clock) <= clock && sent == old(sent) + Packets(g, e.id)
      ensures forall s ::
                s in placed && s !in Members(g, |g.sockets|) && old(Due(s, e.id, checked[s])) ==>
                  Due(s, e.id, checked[s])
      ensures Dispatched(old(history), history, Members(g, |g.sockets|), e.id)
    {
      sent := sent + Packets(g, e.id);
      for n := 0 to |g.sockets|
        invariant Valid() && old(clock) <= clock && sent == old(sent) + Packets(g, e.id)
        invariant Dispatched(old(history), history, Members(g, n), e.id)
        invariant CachesKept(old(delivered), delivered, Members(g, n))
      {
        var s := g.sockets[n];
        assert s !in Members(g, n) && old(Due(s, e.id, checked[s]));
        Note(s, e.id, checked[s]);
        assert Members(g, n + 1) == Members(g, n) + {s};
      }
    }

    /** The check that let the socket through still stands. */
    ghost predicate Due(s: nat, id: string, checked: int)
      reads `clock, `history, `delivered
    {
      && checked <= clock && s in history && !InWindow(history[s], id, checked, ttl, maxEntries)
      && s in delivered && !Holds(delivered[s], id)
    }

    /** The next group, on top of the packets and dispatches so far. */
    method EmitNext(g: Group, key: string, e: Envelope, ghost placed: set<nat>, ghost checked: map<nat, int>,
                    ghost targets: seq<string>,
                    ghost done: set<nat>, ghost packets: seq<Packet>, ghost base: seq<Packet>,
                      ghost start: map<nat, seq<Dispatch>>)
      returns (ghost longer: seq<Packet>)
      requires Valid() && GroupValid(g, key, placed, peers, targets) && placed <= checked.Keys
      requires forall i ::
                 0 <= i < |g.sockets| ==> g.sockets[i] !in done && Due(g.sockets[i], e.id, checked[g.sockets[i]])
      requires sent == base + packets && OneEach(packets, done, e.id, peers, targets)
               && Dispatched(start, history, done, e.id)
      modifies `clock, `delivered, `history, `cut, `sent
      ensures Valid() && old(clock) <= clock && sent == base + longer
      ensures OneEach(longer, done + Members(g, |g.sockets|), e.id, peers, targets)
              && Dispatched(start, history, done + Members(g, |g.sockets|), e.id)
      ensures forall s ::
                s in placed && s !in Members(g, |g.sockets|) && old(Due(s, e.id, checked[s])) ==>
                  Due(s, e.id, checked[s])
    {
      ghost var before := history;
      EmitGroup(g, key, e, placed, checked, targets);
      OneMoreGroup(packets, done, g, key, placed, e.id, peers, targets);
      DispatchedTwice(start, before, history, done, Members(g, |g.sockets|), e.id);
      longer := packets + Packets(g, e.id);
    }

    /** The loop over groups. */
    method EmitAll(groups: map<string, Group>, e: Envelope, ghost placed: set<nat>, ghost checked: map<nat, int>,
                   ghost targets: seq<string>)
      returns (ghost packets: seq<Packet>)
      requires Valid() && Grouped(groups, placed, peers, targets) && placed <= checked.Keys
      requires forall s :: s in placed ==> Due(s, e.id, checked[s])
      modifies `clock, `delivered, `history, `cut, `sent
      ensures Valid() && old(clock) <= clock && sent == old(sent) + packets
              && OneEach(packets, placed, e.id, peers, targets)
      ensures Dispatched(old(history), history, placed, e.id)
    {
      var keys := groups.Keys;
      ghost var done: set<nat> := {};
      packets := [];
      assert sent == sent + packets;
      while keys != {}
        invariant Valid() && old(clock) <= clock && keys <= groups.Keys
        invariant sent == old(sent) + packets && OneEach(packets, done, e.id, peers, targets)
        invariant Dispatched(old(history), history, done, e.id)
        invariant Split(placed, done, keys, peers, targets)
        invariant forall s {:trigger Due(s, e.id, checked[s])} :: s in placed && s !in done ==> Due(s, e.id, checked[s])
      {
        var key :| key in keys;
        SplitOff(groups, placed, done, keys, peers, targets, key);
        packets := EmitNext(groups[key], key, e, placed, checked, targets, done, packets, old(sent), old(history));
        done, keys := done + Members(groups[key], |groups[key].sockets|), keys - {key};
      }
      assert done == placed;
    }

    /** localEmit. */
    method LocalEmit(e: Envelope)
      returns (ghost placed: set<nat>, ghost checked: map<nat, int>, ghost packets: seq<Packet>)
      requires Valid() && AllPlain(e.rooms)
      modifies `clock, `delivered, `history, `cut, `sent
      ensures Valid() && old(clock) <= clock
      // The sockets dispatched to are the eligible ones outside their suppression window.
      ensures forall s :: s in placed ==> Eligible(peers, s, e)
      ensures e.expires.None? || old(clock) < 1000 * e.expires.value ==> forall s :: Eligible(peers, s, e) ==>
                s in checked && s in old(history) && old(clock) <= checked[s] <= clock
                && (s in placed <==> !InWindow(old(history)[s], e.id, checked[s], ttl, maxEntries))
      ensures e.expires.Some? && 1000 * e.expires.value <= old(clock) ==> placed == {}
      // Each of them is sent one packet with its own channels, and nobody else anything.
      ensures sent == old(sent) + packets && OneEach(packets, placed, e.id, peers, Unique(e.rooms))
      // However often a room is named, no packet lists a channel twice.
      ensures forall i :: 0 <= i < |packets| ==> NoRepeats(packets[i].channels)
      ensures Dispatched(old(history), history, placed, e.id)
    {
      placed, checked, packets := {}, map[], [];
      assert sent == sent + packets;
      if Expired(e, clock) {
        return;
      }
      var targets := Unique(e.rooms);
      UniquePlain(e.rooms);
      var recipients := Recipients(targets);
      forall s | s in peers ensures s in recipients <==> InRooms(peers[s], e.rooms, |e.rooms|) {
        UniqueSameRooms(peers[s], e.rooms);
      }
      var groups;
      groups, placed, checked := Sort(e, targets, recipients);
      packets := EmitAll(groups, e, placed, checked, targets);
      UniqueOnce(e.rooms);
      forall i | 0 <= i < |packets| ensures NoRepeats(packets[i].channels) {
        VisibleOnce(targets, peers[packets[i].socket].rooms);
      }
    }
  }

  /** The sockets already served are those whose groups are done. */
  ghost predicate Split(placed: set<nat>, done: set<nat>, keys: set<string>, peers: map<nat, Peer>,
                        targets: seq<string>) {
    done <= placed && forall s ::
        s in placed ==> s in peers && (s in done <==> Key(Visible(targets, peers[s].rooms)) !in keys)
  }

  lemma {:induction false} SplitOff(groups: map<string, Group>, placed: set<nat>, done: set<nat>, keys: set<string>,
                                    peers: map<nat, Peer>, targets: seq<string>, key: string)
    requires Grouped(groups, placed, peers, targets) && Split(placed, done, keys, peers, targets) && key in groups
             && key in keys
    ensures GroupValid(groups[key], key, placed, peers, targets)
    ensures forall i ::
              0 <= i < |groups[key].sockets| ==> groups[key].sockets[i] in placed && groups[key].sockets[i] !in done
    ensures Split(placed, done + Members(groups[key], |groups[key].sockets|), keys - {key}, peers, targets)
  {
    AllOfGroup(groups, placed, peers, targets, key);
    var g := groups[key];
    assert GroupValid(g, key, placed, peers, targets);
    forall i | 0 <= i < |g.sockets| ensures g.sockets[i] in placed && g.sockets[i] !in done {
      assert g.sockets[i] in Members(g, |g.sockets|);
    }
  }

  lemma {:induction false} AllOfGroup(groups: map<string, Group>, placed: set<nat>, peers: map<nat, Peer>,
                                      targets: seq<string>, key: string)
    requires Grouped(groups, placed, peers, targets) && key in groups
    ensures forall s ::
              s in placed && Key(Visible(targets, peers[s].rooms)) == key ==>
                s in Members(groups[key], |groups[key].sockets|)
    ensures forall s ::
              s in Members(groups[key], |groups[key].sockets|) ==>
                s in placed && s in peers && Key(Visible(targets, peers[s].rooms)) == key
  {
    var g := groups[key];
    forall s | s in placed && Key(Visible(targets, peers[s].rooms)) == key ensures s in Members(g, |g.sockets|) {
      assert InGroup(groups, s, key);
    }
    forall s | s in Members(g, |g.sockets|)
      ensures s in placed && s in peers && Key(Visible(targets, peers[s].rooms)) == key {
      assert GroupValid(g, key, placed, peers, targets);
    }
  }
}
