/** One Redis stream: an ordered log, consumer groups and their pending lists. Ids are numbers (see StreamIds). */
module RedisStream {

  datatype Entry<+T> = Entry(id: nat, body: T)

  /** A group's last delivered id, and the delivery count of each entry it has not acknowledged. */
  datatype Group = Group(last: nat, pending: map<nat, nat>)

  datatype Stream<+T> = Stream(entries: seq<Entry<T>>, groups: map<string, Group>, top: nat) {

    predicate Valid() {
      && (forall i :: 0 <= i < |entries| ==> 0 < entries[i].id <= top)
      && Ascending(entries)
      && (forall g :: g in groups ==> groups[g].last <= top && forall id ::
            id in groups[g].pending ==> 0 < id <= groups[g].last)
    }

    predicate Has(id: nat) {
      exists i :: 0 <= i < |entries| && entries[i].id == id
    }
  }

  /** A key that does not exist; XADD and XGROUP CREATE make it on demand. */
  predicate Absent<T>(s: Stream<T>) {
    |s.entries| == 0 && s.groups == map[] && s.top == 0
  }

  /** The number of entries below an id: a prefix of the log. */
  function Below<T>(es: seq<Entry<T>>, bound: nat): (n: nat)
    ensures n <= |es|
  {
    if es == [] || es[0].id >= bound then 0 else 1 + Below(es[1..], bound)
  }

  lemma {:induction false} BelowZero<T>(es: seq<Entry<T>>)
    ensures Below(es, 0) == 0
  {
  }

  predicate Ascending<T>(es: seq<Entry<T>>) {
    forall i, j :: 0 <= i < j < |es| ==> es[i].id < es[j].id
  }

  lemma {:induction false} BelowSplits<T>(es: seq<Entry<T>>, bound: nat, i: nat)
    requires Ascending(es) && i < |es|
    ensures i < Below(es, bound) <==> es[i].id < bound
  {
    if i > 0 {
      assert es[0].id < es[i].id && es[i] == es[1..][i - 1];
      BelowSplits(es[1..], bound, i - 1);
    }
  }

  /** Counting below the id of an entry counts the entries before it. */
  lemma BelowAt<T>(es: seq<Entry<T>>, i: nat)
    requires Ascending(es) && i < |es|
    ensures Below(es, es[i].id) == i && Below(es, es[i].id + 1) == i + 1
  {
    var b, c := Below(es, es[i].id), Below(es, es[i].id + 1);
    BelowSplits(es, es[i].id, i);
    BelowSplits(es, es[i].id + 1, i);
    if b < i { BelowSplits(es, es[i].id, b); }
    if i + 1 < c { BelowSplits(es, es[i].id + 1, i + 1); }
  }

  lemma {:induction false} BelowAfter<T>(es: seq<Entry<T>>, k: nat, bound: nat)
    requires Ascending(es) && k <= |es|
    ensures Below(es[k..], bound) == if k <= Below(es, bound) then Below(es, bound) - k else 0
  {
    if k > 0 {
      assert es[k..] == es[1..][k - 1..];
      if es[0].id < bound {
        BelowAfter(es[1..], k - 1, bound);
      } else if k < |es| {
        assert es[0].id < es[k].id;
      }
    } else {
      assert es[0..] == es;
    }
  }

  /** XRANGE over [low, high) with a COUNT. */
  function Range<T>(es: seq<Entry<T>>, low: nat, high: nat, count: nat): seq<Entry<T>> {
    var a, b := Below(es, low), Below(es, high);
    if a >= b then [] else if count < b - a then es[a..a + count] else es[a..b]
  }

  lemma {:induction false} RangeIs<T>(es: seq<Entry<T>>, low: nat, high: nat, count: nat)
    ensures var a, b, r := Below(es, low), Below(es, high), Range(es, low, high, count);
            && |r| == (if a >= b then 0 else if count < b - a then count else b - a)
            && forall i :: 0 <= i < |r| ==> r[i] == es[a + i]
    ensures Below(es, 0) == 0
  {
  }

  // ------------------------------------------------------------ commands

  /** XADD with an id above every earlier one. */
  function Append<T>(s: Stream<T>, id: nat, body: T): Stream<T>
    requires s.top < id
  {
    s.(entries := s.entries + [Entry(id, body)], top := id)
  }

  /** XGROUP CREATE at 0 with MKSTREAM; an existing group is left alone. */
  function CreateGroup<T>(s: Stream<T>, group: string): Stream<T> {
    if group in s.groups then s else s.(groups := s.groups[group := Group(0, map[])])
  }

  /** XREADGROUP with '>': the next entries become pending with one delivery. */
  function Deliver<T>(s: Stream<T>, group: string, count: nat): Stream<T>
    requires group in s.groups
  {
    var g := s.groups[group];
    var batch := Unread(s, group, count);
    if batch == [] then s
    else
      var taken: map<nat, nat> := map i | 0 <= i < |batch| :: batch[i].id := 1;
      s.(groups := s.groups[group := Group(batch[|batch| - 1].id, g.pending + taken)])
  }

  function Unread<T>(s: Stream<T>, group: string, count: nat): seq<Entry<T>>
    requires group in s.groups
  {
    var a := Below(s.entries, s.groups[group].last + 1);
    if count < |s.entries| - a then s.entries[a..a + count] else s.entries[a..]
  }

  /** XAUTOCLAIM of idle entries: one more delivery each; entries no longer in the log leave the list. */
  function Claim<T>(s: Stream<T>, group: string, idle: set<nat>): Stream<T>
    requires group in s.groups
  {
    var g := s.groups[group];
    var kept: map<nat, nat> :=
      map id | id in g.pending && (id !in idle || s.Has(id)) :: if id in idle then g.pending[id] + 1 else g.pending[id];
    s.(groups := s.groups[group := g.(pending := kept)])
  }

  /** XACK. */
  function Ack<T>(s: Stream<T>, group: string, id: nat): Stream<T>
    requires group in s.groups
  {
    s.(groups := s.groups[group := s.groups[group].(pending := s.groups[group].pending - {id})])
  }

  /** XTRIM MINID. */
  function Trim<T>(s: Stream<T>, floor: nat): Stream<T> {
    s.(entries := s.entries[Below(s.entries, floor)..])
  }

  // -------------------------------------------- what the commands change

  /** Only this group's record may differ. */
  ghost predicate OnlyGroup<T>(s: Stream<T>, t: Stream<T>, group: string) {
    && group in s.groups && group in t.groups && t.entries == s.entries && t.top == s.top
    && t.groups == s.groups[group := t.groups[group]]
  }

  /** A new group has been given nothing, so it owes every entry; one that exists stays as it is. */
  lemma {:induction false} NewGroupOwesAll<T>(s: Stream<T>, group: string)
    requires s.Valid()
    ensures var t := CreateGroup(s, group);
            && OnlyNew(s, t, group)
            && (group !in s.groups ==> forall i :: 0 <= i < |s.entries| ==> Owed(t.groups[group], s.entries[i].id))
            && (group in s.groups ==> t == s)
  {
  }

  ghost predicate OnlyNew<T>(s: Stream<T>, t: Stream<T>, group: string) {
    && group in t.groups && t.entries == s.entries && t.top == s.top
    && t.groups.Keys == s.groups.Keys + {group} && forall g :: g in s.groups ==> t.groups[g] == s.groups[g]
  }

  /**
   * A claim counts one more delivery of exactly the claimed entries that are still in the log;
   * claimed ids that are not leave the pending list, and nothing else changes.
   */
  lemma {:induction false} ClaimIs<T>(s: Stream<T>, group: string, idle: set<nat>)
    requires group in s.groups
    ensures var t, p := Claim(s, group, idle), s.groups[group].pending;
            && OnlyGroup(s, t, group) && t.groups[group].last == s.groups[group].last
            && var q := t.groups[group].pending;
               && (forall id :: id in q <==> id in p && (id in idle ==> s.Has(id)))
               && forall id :: id in q ==> q[id] == if id in idle then p[id] + 1 else p[id]
  {
  }

  /** A read hands out the next entries behind the last delivered one: as many as asked for, or all there are. */
  lemma {:induction false} UnreadIsNext<T>(s: Stream<T>, group: string, count: nat)
    requires s.Valid() && group in s.groups
    ensures var last, batch := s.groups[group].last, Unread(s, group, count);
            var a := Below(s.entries, last + 1);
            && a <= |s.entries| && (forall i :: 0 <= i < a ==> s.entries[i].id <= last)
            && (forall i :: a <= i < |s.entries| ==> last < s.entries[i].id)
            && |batch| == (if count < |s.entries| - a then count else |s.entries| - a)
            && batch == s.entries[a..a + |batch|]
  {
    var bound := s.groups[group].last + 1;
    forall i | 0 <= i < |s.entries| ensures i < Below(s.entries, bound) <==> s.entries[i].id < bound {
      BelowSplits(s.entries, bound, i);
    }
  }

  /** What is handed out becomes pending with one delivery, and the last of it is the last delivered id. */
  lemma {:induction false} DeliverIs<T>(s: Stream<T>, group: string, count: nat)
    requires s.Valid() && group in s.groups
    ensures var t, p, batch := Deliver(s, group, count), s.groups[group].pending, Unread(s, group, count);
            && OnlyGroup(s, t, group)
            && t.groups[group].last == (if batch == [] then s.groups[group].last else batch[|batch| - 1].id)
            && var q := t.groups[group].pending;
               && (forall id :: id in q <==> id in p || exists i :: 0 <= i < |batch| && batch[i].id == id)
               && (forall i :: 0 <= i < |batch| ==> batch[i].id in q && q[batch[i].id] == 1)
               && forall id :: id in p && (forall i :: 0 <= i < |batch| ==> batch[i].id != id) ==> q[id] == p[id]
  {
  }

  /** An acknowledgement takes exactly this entry off the pending list. */
  lemma {:induction false} AckIs<T>(s: Stream<T>, group: string, id: nat)
    requires group in s.groups
    ensures var t, p := Ack(s, group, id), s.groups[group].pending;
            && OnlyGroup(s, t, group) && t.groups[group].last == s.groups[group].last
            && var q := t.groups[group].pending;
               && id !in q && (forall other :: other in q <==> other in p && other != id)
               && forall other :: other in q ==> q[other] == p[other]
  {
  }

  // --------------------------------------------- what is handed out

  /** The entries whose ids are in a set, oldest first. */
  function Picked<T>(es: seq<Entry<T>>, ids: set<nat>): (r: seq<Entry<T>>)
    ensures forall e :: e in r ==> e in es
  {
    if es == [] then [] else (if es[0].id in ids then [es[0]] else []) + Picked(es[1..], ids)
  }

  /** The ids of a set that are still in the log. */
  function StillThere<T>(es: seq<Entry<T>>, ids: set<nat>): set<nat> {
    set i | 0 <= i < |es| && es[i].id in ids :: es[i].id
  }

  /** Every entry with one of these ids that is still in the log, once, in the log's order; and nothing else. */
  ghost predicate ArePicked<T(!new)>(es: seq<Entry<T>>, ids: set<nat>, batch: seq<Entry<T>>) {
    && Ascending(batch) && |batch| == |StillThere(es, ids)|
    && forall e :: e in batch <==> e in es && e.id in ids
  }

  lemma {:induction false} PickedIs<T(!new)>(es: seq<Entry<T>>, ids: set<nat>)
    requires Ascending(es)
    ensures ArePicked(es, ids, Picked(es, ids)) && |Picked(es, ids)| <= |ids|
  {
    PickedInOrder(es, ids);
    forall e ensures e in Picked(es, ids) <==> e in es && e.id in ids {
      PickedIff(es, ids, e);
    }
    Smaller(StillThere(es, ids), ids);
  }

  lemma {:induction false} PickedIff<T>(es: seq<Entry<T>>, ids: set<nat>, e: Entry<T>)
    ensures e in Picked(es, ids) <==> e in es && e.id in ids
  {
    if es != [] {
      PickedIff(es[1..], ids, e);
      assert es == [es[0]] + es[1..];
    }
  }

  lemma {:induction false} PickedInOrder<T>(es: seq<Entry<T>>, ids: set<nat>)
    requires Ascending(es)
    ensures Ascending(Picked(es, ids)) && |Picked(es, ids)| == |StillThere(es, ids)|
  {
    if es != [] {
      var rest := Picked(es[1..], ids);
      PickedInOrder(es[1..], ids);
      StillThereWith(es, ids);
      forall j | 0 <= j < |rest| ensures es[0].id < rest[j].id {
        assert rest[j] in es[1..];
      }
    }
  }

  lemma {:induction false} StillThereWith<T>(es: seq<Entry<T>>, ids: set<nat>)
    requires Ascending(es) && es != []
    ensures |StillThere(es, ids)| == |StillThere(es[1..], ids)| + if es[0].id in ids then 1 else 0
  {
    var rest := StillThere(es[1..], ids);
    forall i | 0 <= i < |es| && es[i].id in ids ensures i > 0 ==> es[i].id in rest {
      if i > 0 { assert es[1..][i - 1] == es[i]; }
    }
    forall i | 0 <= i < |es| - 1 && es[1..][i].id in ids ensures es[1..][i].id in StillThere(es, ids) {
      assert es[1..][i] == es[i + 1];
    }
    assert StillThere(es, ids) == rest + if es[0].id in ids then {es[0].id} else {};
    assert es[0].id !in rest;
  }

  lemma {:induction false} Smaller(a: set<nat>, b: set<nat>)
    requires a <= b
    ensures |a| <= |b|
  {
    assert b == a + (b - a);
  }

  /** Each of these was pending and is pending, with one delivery more. */
  ghost predicate AllCounted<T>(g: Group, h: Group, batch: seq<Entry<T>>) {
    forall e :: e in batch ==> e.id in g.pending && e.id in h.pending && h.pending[e.id] == g.pending[e.id] + 1
  }

  lemma {:induction false} ClaimedCounted<T>(s: Stream<T>, group: string, idle: set<nat>)
    requires group in s.groups && idle <= s.groups[group].pending.Keys
    ensures group in Claim(s, group, idle).groups
    ensures AllCounted(s.groups[group], Claim(s, group, idle).groups[group], Picked(s.entries, idle))
  {
    ClaimIs(s, group, idle);
    var batch := Picked(s.entries, idle);
    forall e | e in batch ensures e.id in idle && s.Has(e.id) {
      PickedIff(s.entries, idle, e);
      var k :| 0 <= k < |s.entries| && s.entries[k] == e;
    }
  }

  /** The entry is one of these, or stays behind all of them, and then there are as many as were asked for. */
  predicate OneOf<T(==)>(e: Entry<T>, count: nat, batch: seq<Entry<T>>) {
    e in batch || (|batch| == count && forall i :: 0 <= i < |batch| ==> batch[i].id < e.id)
  }

  /** The entries behind an id, in order: all of them, or the lowest as many as were asked for. */
  ghost predicate IsNext<T(!new)>(es: seq<Entry<T>>, last: nat, count: nat, batch: seq<Entry<T>>) {
    && Ascending(batch) && |batch| <= count
    && forall e {:trigger NextOne(e, es, last, count, batch)} :: NextOne(e, es, last, count, batch)
  }

  predicate NextOne<T(==)>(e: Entry<T>, es: seq<Entry<T>>, last: nat, count: nat, batch: seq<Entry<T>>) {
    && (e in batch ==> e in es && last < e.id)
    && (e in es && last < e.id ==> OneOf(e, count, batch))
  }

  lemma {:induction false} NextAreUnread<T(!new)>(s: Stream<T>, group: string, count: nat)
    requires s.Valid() && group in s.groups
    ensures IsNext(s.entries, s.groups[group].last, count, Unread(s, group, count))
  {
    var batch, last := Unread(s, group, count), s.groups[group].last;
    UnreadInOrder(s, group, count);
    forall e ensures NextOne(e, s.entries, last, count, batch) {
      if e in batch { UnreadOnly(s, group, count, e); }
      if e in s.entries && last < e.id { UnreadAll(s, group, count, e); }
    }
  }

  lemma {:induction false} UnreadInOrder<T>(s: Stream<T>, group: string, count: nat)
    requires s.Valid() && group in s.groups
    ensures Ascending(Unread(s, group, count)) && |Unread(s, group, count)| <= count
  {
  }

  lemma {:induction false} UnreadOnly<T>(s: Stream<T>, group: string, count: nat, e: Entry<T>)
    requires s.Valid() && group in s.groups && e in Unread(s, group, count)
    ensures e in s.entries && s.groups[group].last < e.id
  {
    var batch := Unread(s, group, count);
    var i :| 0 <= i < |batch| && batch[i] == e;
    UnreadIs(s, group, count, i);
  }

  lemma {:induction false} UnreadAll<T>(s: Stream<T>, group: string, count: nat, e: Entry<T>)
    requires s.Valid() && group in s.groups && e in s.entries && s.groups[group].last < e.id
    ensures OneOf(e, count, Unread(s, group, count))
  {
    var k :| 0 <= k < |s.entries| && s.entries[k] == e;
    UnreadIsNext(s, group, count);
    SliceOrBehind(s.entries, Below(s.entries, s.groups[group].last + 1), Unread(s, group, count), count, k);
  }

  /** What is not on a page lies behind it. */
  lemma {:induction false} SliceOrBehind<T>(es: seq<Entry<T>>, a: nat, batch: seq<Entry<T>>, count: nat, k: nat)
    requires Ascending(es) && a + |batch| <= |es| && batch == es[a..a + |batch|]
    requires (|batch| == count || a + |batch| == |es|) && a <= k < |es|
    ensures OneOf(es[k], count, batch)
  {
    if k < a + |batch| {
      assert batch[k - a] == es[k];
    } else {
      forall i | 0 <= i < |batch| ensures batch[i].id < es[k].id {
        assert batch[i] == es[a + i];
      }
    }
  }

  /** Each of these is pending, with its first delivery. */
  ghost predicate AllFirst<T>(h: Group, batch: seq<Entry<T>>) {
    forall e :: e in batch ==> e.id in h.pending && h.pending[e.id] == 1
  }

  lemma {:induction false} DeliveredOnce<T>(s: Stream<T>, group: string, count: nat)
    requires s.Valid() && group in s.groups
    ensures group in Deliver(s, group, count).groups
    ensures AllFirst(Deliver(s, group, count).groups[group], Unread(s, group, count))
  {
    DeliverIs(s, group, count);
  }

  // ------------------------------------------- what the commands keep

  /** The group has yet to read the id past, or to acknowledge it. */
  predicate Owed(g: Group, id: nat) {
    g.last < id || id in g.pending
  }

  lemma {:induction false} UnreadIs<T>(s: Stream<T>, group: string, count: nat, i: nat)
    requires s.Valid() && group in s.groups && i < |Unread(s, group, count)|
    ensures var a := Below(s.entries, s.groups[group].last + 1);
            && a + i < |s.entries| && Unread(s, group, count)[i] == s.entries[a + i]
            && s.groups[group].last < s.entries[a + i].id
  {
    var a := Below(s.entries, s.groups[group].last + 1);
    BelowSplits(s.entries, s.groups[group].last + 1, a + i);
  }

  /** What a read leaves unread lies behind everything it delivers. */
  lemma {:induction false} DeliveredOrBehind<T>(s: Stream<T>, group: string, count: nat, i: nat)
    requires s.Valid() && group in s.groups && i < |s.entries| && s.groups[group].last < s.entries[i].id
             && Unread(s, group, count) != []
    ensures var batch, id := Unread(s, group, count), s.entries[i].id;
            batch[|batch| - 1].id < id || exists k :: 0 <= k < |batch| && batch[k].id == id
  {
    var batch, a := Unread(s, group, count), Below(s.entries, s.groups[group].last + 1);
    BelowSplits(s.entries, s.groups[group].last + 1, i);
    if i < a + |batch| {
      UnreadIs(s, group, count, i - a);
      assert batch[i - a].id == s.entries[i].id;
    } else {
      UnreadIs(s, group, count, |batch| - 1);
    }
  }

  lemma {:induction false} DeliverKeeps<T>(s: Stream<T>, group: string, count: nat, i: nat)
    requires s.Valid() && group in s.groups && i < |s.entries| && Owed(s.groups[group], s.entries[i].id)
    ensures Owed(Deliver(s, group, count).groups[group], s.entries[i].id)
  {
    if Unread(s, group, count) != [] && s.groups[group].last < s.entries[i].id {
      DeliveredOrBehind(s, group, count, i);
    }
  }

  lemma {:induction false} BatchIds<T>(s: Stream<T>, group: string, count: nat, i: nat)
    requires s.Valid() && group in s.groups && i < |Unread(s, group, count)|
    ensures var batch := Unread(s, group, count); 0 < batch[i].id <= batch[|batch| - 1].id <= s.top
  {
    var batch, a := Unread(s, group, count), Below(s.entries, s.groups[group].last + 1);
    UnreadIs(s, group, count, |batch| - 1);
    UnreadIs(s, group, count, i);
    if i < |batch| - 1 { assert s.entries[a + i].id < s.entries[a + |batch| - 1].id; }
  }

  lemma {:induction false} DeliverValid<T>(s: Stream<T>, group: string, count: nat)
    requires s.Valid() && group in s.groups
    ensures Deliver(s, group, count).Valid()
  {
    var g, batch := s.groups[group], Unread(s, group, count);
    if batch != [] {
      UnreadIs(s, group, count, |batch| - 1);
      forall i | 0 <= i < |batch| ensures 0 < batch[i].id <= batch[|batch| - 1].id <= s.top {
        BatchIds(s, group, count, i);
      }
      var h := Deliver(s, group, count).groups[group];
      forall id | id in h.pending ensures 0 < id <= h.last {
        if id !in g.pending {
          assert exists i :: 0 <= i < |batch| && batch[i].id == id;
        }
      }
    }
  }

  lemma {:induction false} AppendValid<T>(s: Stream<T>, id: nat, body: T)
    requires s.Valid() && s.top < id
    ensures Append(s, id, body).Valid()
  {
  }

  lemma {:induction false} ClaimValid<T>(s: Stream<T>, group: string, idle: set<nat>)
    requires s.Valid() && group in s.groups
    ensures Claim(s, group, idle).Valid()
  {
  }

  lemma {:induction false} AckValid<T>(s: Stream<T>, group: string, id: nat)
    requires s.Valid() && group in s.groups
    ensures Ack(s, group, id).Valid()
  {
  }

  lemma {:induction false} SuffixValid<T>(s: Stream<T>, cut: nat)
    requires s.Valid() && cut <= |s.entries|
    ensures s.(entries := s.entries[cut..]).Valid()
  {
  }

  lemma {:induction false} ClaimKeeps<T>(s: Stream<T>, group: string, idle: set<nat>, i: nat)
    requires s.Valid() && group in s.groups && i < |s.entries| && Owed(s.groups[group], s.entries[i].id)
    ensures Owed(Claim(s, group, idle).groups[group], s.entries[i].id)
  {
    assert s.Has(s.entries[i].id);
  }
}
