/**
 * gateway/src/runtime.ts: what happens to the entries of the events stream. Every step is one
 * Redis command or script of one gateway, or the moment a dispatch is known to have succeeded.
 */
module EventEntries {
  import opened RedisStream
  import opened StreamRetention

  /** An entry's envelope: unusable, which is a terminal error, or one of the dispatched kinds. */
  datatype Raw = Malformed | Emission | CommandResult | Control

  /** How a dispatch went: here, on the other gateways, and for every publication it made. */
  datatype Evidence = Evidence(local: bool, replies: seq<bool>, publications: seq<bool>)

  predicate AllTrue(s: seq<bool>) {
    forall i :: 0 <= i < |s| ==> s[i]
  }

  predicate Complete(ev: Evidence) {
    ev.local && AllTrue(ev.replies) && AllTrue(ev.publications)
  }

  /** A dead-letter copy. */
  datatype Copy = Copy(source: nat, raw: Raw, attempts: nat)

  datatype World = World(
    maxAttempts: nat,
    events: Stream<Raw>,
    submitted: seq<Entry<Raw>>,     // every entry ever appended
    counts: map<nat, nat>,          // the attempt counters
    tries: map<nat, nat>,           // how often each entry has really been tried
    done: map<nat, Evidence>,       // entries a gateway dispatched completely
    dead: seq<Copy>)

  const GROUP := "gateways"

  datatype Step =
    | Add(id: nat, raw: Raw)
    | AddGroup(group: string)
    | Read(group: string, count: nat)
    | Reclaim(group: string, idle: set<nat>)
    | Attempt(id: nat)
    | Vouch(id: nat, evidence: Evidence)
    | Acknowledge(group: string, id: nat)
    | Clear(id: nat)
    | Bury(entry: Entry<Raw>, attempts: nat)
    | TrimEvents(cutoff: nat, safe: nat, limit: nat)

  function Tries(w: World, id: nat): nat {
    if id in w.tries then w.tries[id] else 0
  }

  function Count(w: World, id: nat): nat {
    if id in w.counts then w.counts[id] else 0
  }

  predicate Enabled(w: World, s: Step) {
    match s
    case Add(id, _) => w.events.top < id
    case AddGroup(_) => true
    case Read(g, _) => g in w.events.groups
    case Reclaim(g, _) => g in w.events.groups
    case Attempt(_) => true
    case Vouch(_, evidence) => Complete(evidence)
    case Acknowledge(g, id) => g in w.events.groups && (g == GROUP ==> id in w.done)
    case Clear(_) => true
    case Bury(e, attempts) =>
        GROUP in w.events.groups && e in w.submitted && attempts <= Tries(w, e.id)
        && (e.body.Malformed? || w.maxAttempts <= attempts)
    case TrimEvents(cutoff, safe, _) => w.events.groups != map[] && Unneeded(w.events, cutoff, safe)
  }

  function Apply(w: World, s: Step): World
    requires Enabled(w, s)
  {
    match s
    case Add(id, raw) => w.(events := Append(w.events, id, raw), submitted := w.submitted + [Entry(id, raw)])
    case AddGroup(g) => w.(events := CreateGroup(w.events, g))
    case Read(g, count) => w.(events := Deliver(w.events, g, count))
    case Reclaim(g, idle) => w.(events := Claim(w.events, g, idle))
    case Attempt(id) => w.(counts := w.counts[id := Count(w, id) + 1], tries := w.tries[id := Tries(w, id) + 1])
    case Vouch(id, evidence) => w.(done := w.done[id := evidence])
    case Acknowledge(g, id) => w.(events := Ack(w.events, g, id))
    case Clear(id) => w.(counts := w.counts - {id})
    // One script: the copy, the acknowledgement and the counter.
    case Bury(e, attempts) =>
        w.(events := Ack(w.events, GROUP, e.id), dead := w.dead + [Copy(e.id, e.body, attempts)],
           counts := w.counts - {e.id})
    case TrimEvents(_, safe, limit) =>
        w.(events := w.events.(entries := w.events.entries[Min(limit, Below(w.events.entries, safe))..]))
  }

  /** A run may begin with entries in the stream already; nobody reads them yet. */
  predicate IsStart(w: World) {
    && w.events.Valid() && w.events.groups == map[] && w.submitted == w.events.entries
    && w.counts == map[] && w.tries == map[] && w.done == map[] && w.dead == []
  }

  function Start(maxAttempts: nat, events: Stream<Raw>): World {
    World(maxAttempts, events, events.entries, map[], map[], map[], [])
  }

  ghost predicate Next(w: World, v: World) {
    exists s: Step :: Enabled(w, s) && v == Apply(w, s)
  }

  ghost predicate Run(trace: seq<World>) {
    && |trace| > 0 && IsStart(trace[0])
    && forall i :: 0 < i < |trace| ==> Next(trace[i - 1], trace[i])
  }

  // --------------------------------------------------------- the invariant

  /**
   * The entry is still in the stream, and the gateways, once they have a group, have yet to read
   * or to acknowledge it.
   */
  ghost predicate Outstanding(w: World, e: Entry<Raw>) {
    && (GROUP in w.events.groups ==> Owed(w.events.groups[GROUP], e.id))
    && exists k :: 0 <= k < |w.events.entries| && w.events.entries[k] == e
  }

  predicate Buried(w: World, e: Entry<Raw>) {
    exists i :: 0 <= i < |w.dead| && w.dead[i].source == e.id && w.dead[i].raw == e.body
  }

  /** The entry was dispatched completely, or has a dead-letter copy. */
  predicate Settled(w: World, e: Entry<Raw>) {
    e.id in w.done || Buried(w, e)
  }

  /** A copy is made of a terminal error, or after the last of the allowed attempts. */
  predicate Justified(w: World, c: Copy) {
    c.attempts <= Tries(w, c.source) && (c.raw.Malformed? || w.maxAttempts <= c.attempts)
  }

  /** Submissions ascend, evidence is complete, copies are justified, counters do not run ahead of the tries. */
  ghost predicate Sound(w: World) {
    && w.events.Valid()
    && Ascending(w.submitted) && (forall i :: 0 <= i < |w.submitted| ==> w.submitted[i].id <= w.events.top)
    && (forall i {:trigger Justified(w, w.dead[i])} :: 0 <= i < |w.dead| ==> Justified(w, w.dead[i]))
    && (forall id :: id in w.done ==> Complete(w.done[id]))
    && (forall id :: id in w.counts ==> Count(w, id) <= Tries(w, id))
  }

  /** Every entry ever appended is outstanding or settled. */
  ghost predicate Accounted(w: World) {
    forall i {:trigger Outstanding(w, w.submitted[i])} ::
      0 <= i < |w.submitted| ==> Outstanding(w, w.submitted[i]) || Settled(w, w.submitted[i])
  }

  ghost predicate Safe(w: World) {
    Sound(w) && Accounted(w)
  }

  /** The gateways' group is not preceded by a foreign one: trimming protects only groups that exist. */
  predicate GatewaysFirst(w: World) {
    w.events.groups == map[] || GROUP in w.events.groups
  }

  /** Nothing is unlearned: submissions, copies, evidence, groups and tries only grow. */
  ghost predicate Grows(w: World, v: World) {
    && w.submitted <= v.submitted && w.dead <= v.dead && w.done.Keys <= v.done.Keys && w.maxAttempts == v.maxAttempts
    && w.events.groups.Keys <= v.events.groups.Keys
    && forall id :: id in w.tries ==> Tries(w, id) <= Tries(v, id)
  }

  lemma {:induction false} StepGrows(w: World, s: Step)
    requires Enabled(w, s)
    ensures Grows(w, Apply(w, s))
  {
  }

  lemma {:induction false} EventsValid(w: World, s: Step)
    requires w.events.Valid() && Enabled(w, s)
    ensures Apply(w, s).events.Valid()
  {
    match s
    case Add(id, raw) => AppendValid(w.events, id, raw);
    case Read(g, count) => DeliverValid(w.events, g, count);
    case Reclaim(g, idle) => ClaimValid(w.events, g, idle);
    case Acknowledge(g, id) => AckValid(w.events, g, id);
    case Bury(e, _) => AckValid(w.events, GROUP, e.id);
    case TrimEvents(_, safe, limit) => SuffixValid(w.events, Min(limit, Below(w.events.entries, safe)));
    case _ =>
  }

  lemma {:induction false} SettledStays(w: World, v: World, e: Entry<Raw>)
    requires Grows(w, v) && Settled(w, e)
    ensures Settled(v, e)
  {
    if e.id !in w.done {
      var i :| 0 <= i < |w.dead| && w.dead[i].source == e.id && w.dead[i].raw == e.body;
      assert v.dead[i] == w.dead[i];
    }
  }

  /** A read or a claim by the gateways, and any other command on the stream, keeps what they owe. */
  lemma {:induction false} StillOwed(w: World, s: Step, k: nat)
    requires w.events.Valid() && Enabled(w, s) && !s.TrimEvents? && k < |w.events.entries|
    requires GROUP in w.events.groups ==> Owed(w.events.groups[GROUP], w.events.entries[k].id)
    requires !(s.Acknowledge? && s.group == GROUP && s.id == w.events.entries[k].id)
             && !(s.Bury? && s.entry.id == w.events.entries[k].id)
    ensures GROUP in Apply(w, s).events.groups ==> Owed(Apply(w, s).events.groups[GROUP], w.events.entries[k].id)
  {
    if s.Read? && s.group == GROUP {
      DeliverKeeps(w.events, GROUP, s.count, k);
    } else if s.Reclaim? && s.group == GROUP {
      ClaimKeeps(w.events, GROUP, s.idle, k);
    }
  }

  /** A trim of a stream with the gateways' group stays below what they owe. */
  lemma {:induction false} TrimKeeps(w: World, safe: nat, limit: nat, k: nat)
    requires w.events.Valid() && GROUP in w.events.groups && Done(w.events.groups[GROUP], safe)
    requires k < |w.events.entries| && Owed(w.events.groups[GROUP], w.events.entries[k].id)
    ensures var cut := Min(limit, Below(w.events.entries, safe));
            cut <= k && w.events.entries[cut..][k - cut] == w.events.entries[k]
  {
    BelowSplits(w.events.entries, safe, k);
  }

  /** An entry stays outstanding through every step but its own acknowledgement or burial. */
  lemma {:induction false} StillOutstanding(w: World, s: Step, e: Entry<Raw>)
    requires w.events.Valid() && Enabled(w, s) && Outstanding(w, e) && (s.TrimEvents? ==> GROUP in w.events.groups)
    requires !(s.Acknowledge? && s.group == GROUP && s.id == e.id) && !(s.Bury? && s.entry.id == e.id)
    ensures Outstanding(Apply(w, s), e)
  {
    var v := Apply(w, s);
    var k :| 0 <= k < |w.events.entries| && w.events.entries[k] == e;
    if s.TrimEvents? {
      TrimKeeps(w, s.safe, s.limit, k);
      assert v.events.entries[k - Min(s.limit, Below(w.events.entries, s.safe))] == e;
    } else {
      StillOwed(w, s, k);
      assert v.events.entries[k] == e;
    }
  }

  lemma {:induction false} EntrySafe(w: World, s: Step, e: Entry<Raw>)
    requires Safe(w) && Enabled(w, s) && e in w.submitted && (s.TrimEvents? ==> GROUP in w.events.groups)
    ensures Outstanding(Apply(w, s), e) || Settled(Apply(w, s), e)
  {
    var i :| 0 <= i < |w.submitted| && w.submitted[i] == e;
    StepGrows(w, s);
    if Settled(w, e) {
      SettledStays(w, Apply(w, s), e);
    } else {
      assert Outstanding(w, w.submitted[i]);
      if s.Bury? && s.entry.id == e.id {
        SameEntry(w, s.entry, e);
        assert Apply(w, s).dead[|w.dead|] == Copy(e.id, e.body, s.attempts);
      } else {
        StillOutstanding(w, s, e);
      }
    }
  }

  lemma {:induction false} SameEntry(w: World, a: Entry<Raw>, b: Entry<Raw>)
    requires Ascending(w.submitted) && a in w.submitted && b in w.submitted && a.id == b.id
    ensures a == b
  {
    var i :| 0 <= i < |w.submitted| && w.submitted[i] == a;
    var j :| 0 <= j < |w.submitted| && w.submitted[j] == b;
  }

  lemma {:induction false} StepSound(w: World, s: Step)
    requires Sound(w) && Enabled(w, s)
    ensures Sound(Apply(w, s))
  {
    var v := Apply(w, s);
    EventsValid(w, s);
    StepGrows(w, s);
    forall i | 0 <= i < |v.dead| ensures Justified(v, v.dead[i]) {
      if i < |w.dead| { assert Justified(w, w.dead[i]) && v.dead[i] == w.dead[i]; }
    }
  }

  lemma {:induction false} StepAccounted(w: World, s: Step)
    requires Safe(w) && Enabled(w, s) && (s.TrimEvents? ==> GROUP in w.events.groups)
    ensures Accounted(Apply(w, s))
  {
    var v := Apply(w, s);
    forall i | 0 <= i < |v.submitted| ensures Outstanding(v, v.submitted[i]) || Settled(v, v.submitted[i]) {
      if i < |w.submitted| {
        EntrySafe(w, s, w.submitted[i]);
      } else {
        assert v.events.entries[|w.events.entries|] == v.submitted[i];
        assert GROUP in w.events.groups ==> w.events.groups[GROUP].last <= w.events.top;
      }
    }
  }

  /** Every step keeps the invariant, a trim once the gateways' group exists. */
  lemma {:induction false} StepSafe(w: World, s: Step)
    requires Sound(w) && Enabled(w, s)
    ensures Sound(Apply(w, s))
    ensures Accounted(w) && (s.TrimEvents? ==> GROUP in w.events.groups) ==> Accounted(Apply(w, s))
  {
    StepSound(w, s);
    if Accounted(w) && (s.TrimEvents? ==> GROUP in w.events.groups) {
      StepAccounted(w, s);
    }
  }

  lemma {:induction false} StartSafe(w: World)
    requires IsStart(w)
    ensures Safe(w)
  {
    forall i | 0 <= i < |w.submitted| ensures Outstanding(w, w.submitted[i]) {
      assert w.events.entries[i] == w.submitted[i];
    }
  }

  // ------------------------------------------------------------- theorems

  lemma {:induction false} SoundNext(w: World, v: World)
    requires Sound(w) && Next(w, v)
    ensures Sound(v) && v.maxAttempts == w.maxAttempts
  {
    var s: Step :| Enabled(w, s) && v == Apply(w, s);
    StepSound(w, s);
    StepGrows(w, s);
  }

  lemma {:induction false} AccountedNext(w: World, v: World)
    requires Safe(w) && Next(w, v) && GatewaysFirst(w)
    ensures Accounted(v)
  {
    var s: Step :| Enabled(w, s) && v == Apply(w, s);
    StepAccounted(w, s);
  }

  lemma {:induction false} RunSound(trace: seq<World>, n: nat)
    requires Run(trace) && n < |trace|
    ensures Sound(trace[n]) && trace[n].maxAttempts == trace[0].maxAttempts
  {
    if n == 0 {
      StartSafe(trace[0]);
    } else {
      RunSound(trace, n - 1);
      assert Next(trace[n - 1], trace[n]);
      SoundNext(trace[n - 1], trace[n]);
    }
  }

  lemma {:induction false} RunAccounted(trace: seq<World>, n: nat)
    requires Run(trace) && n < |trace| && forall k :: 0 <= k < n ==> GatewaysFirst(trace[k])
    ensures Accounted(trace[n])
  {
    if n == 0 {
      StartSafe(trace[0]);
    } else {
      RunAccounted(trace, n - 1);
      RunSound(trace, n - 1);
      assert Next(trace[n - 1], trace[n]) && GatewaysFirst(trace[n - 1]);
      AccountedNext(trace[n - 1], trace[n]);
    }
  }

  /**
   * In every run in which the gateways' group is created before others, an event entry that was
   * in the stream at the start or was appended since is outstanding; or it was dispatched here,
   * on every other gateway and to the adapter; or its dead-letter copy exists.
   */
  lemma {:induction false} NoEventLost(trace: seq<World>, n: nat, e: Entry<Raw>)
    requires Run(trace) && n < |trace| && e in trace[n].submitted
    requires forall k :: 0 <= k < n ==> GatewaysFirst(trace[k])
    ensures Outstanding(trace[n], e) || (e.id in trace[n].done && Complete(trace[n].done[e.id])) || Buried(trace[n], e)
  {
    RunSound(trace, n);
    RunAccounted(trace, n);
    var i :| 0 <= i < |trace[n].submitted| && trace[n].submitted[i] == e;
    assert Outstanding(trace[n], trace[n].submitted[i]) || Settled(trace[n], trace[n].submitted[i]);
  }

  /** In every run, a usable envelope is dead-lettered only after it has been tried the allowed number of times. */
  lemma {:induction false} DeadOnlyAfterLimit(trace: seq<World>, n: nat, i: nat)
    requires Run(trace) && n < |trace| && i < |trace[n].dead| && !trace[n].dead[i].raw.Malformed?
    ensures trace[0].maxAttempts <= trace[n].dead[i].attempts <= Tries(trace[n], trace[n].dead[i].source)
  {
    RunSound(trace, n);
    assert Justified(trace[n], trace[n].dead[i]);
  }

  // ------------------------------------------------------- the first group

  /** The events stream has had this group for as long as it has had any. */
  ghost predicate FirstGroup(trace: seq<World>, g: string) {
    forall n :: 0 <= n < |trace| ==> trace[n].events.groups == map[] || g in trace[n].events.groups
  }

  /** An entry is neither outstanding nor settled. */
  ghost predicate Lost(w: World) {
    exists i :: 0 <= i < |w.submitted| && !Outstanding(w, w.submitted[i]) && !Settled(w, w.submitted[i])
  }

  /** A run in which this group came first, and an event is lost. */
  ghost predicate LosesUnder(trace: seq<World>, g: string) {
    && Run(trace) && FirstGroup(trace, g)
    && g in trace[|trace| - 1].events.groups && Lost(trace[|trace| - 1])
  }

  lemma {:induction false} Took(trace: seq<World>, g: string, s: Step) returns (longer: seq<World>)
    requires Run(trace) && FirstGroup(trace, g) && Enabled(trace[|trace| - 1], s)
    requires Apply(trace[|trace| - 1], s).events.groups == map[] || g in Apply(trace[|trace| - 1], s).events.groups
    ensures longer == trace + [Apply(trace[|trace| - 1], s)] && Run(longer) && FirstGroup(longer, g)
  {
    assert Next(trace[|trace| - 1], Apply(trace[|trace| - 1], s));
    longer := trace + [Apply(trace[|trace| - 1], s)];
  }

  /** Two entries, and one group that has read both and acknowledged the first. */
  function Audited(raw: Raw, g: string, group: Group): Stream<Raw> {
    Stream([Entry(1, raw), Entry(2, raw)], map[g := group], 2)
  }

  lemma {:induction false} AuditRead(s: Stream<Raw>, raw: Raw, g: string)
    requires s == Audited(raw, g, Group(0, map[]))
    ensures Deliver(s, g, 2) == Audited(raw, g, Group(2, map[1 := 1, 2 := 1]))
  {
    assert Below(s.entries, 1) == 0;
    assert Unread(s, g, 2) == s.entries;
    assert Deliver(s, g, 2).groups[g].pending == map[1 := 1, 2 := 1];
    assert Deliver(s, g, 2).groups == map[g := Group(2, map[1 := 1, 2 := 1])];
  }

  lemma {:induction false} AuditAcked(s: Stream<Raw>, raw: Raw, g: string)
    requires s == Audited(raw, g, Group(2, map[1 := 1, 2 := 1]))
    ensures Ack(s, g, 1) == Audited(raw, g, Group(2, map[2 := 1]))
  {
    assert Ack(s, g, 1).groups[g].pending == map[2 := 1];
    assert Ack(s, g, 1).groups == map[g := Group(2, map[2 := 1])];
  }

  /** Two entries are there, and only a foreign group has read and acknowledged the first. */
  lemma {:induction false} AuditedRun(raw: Raw, g: string) returns (trace: seq<World>)
    requires g != GROUP
    ensures Run(trace) && FirstGroup(trace, g)
    ensures var w := trace[|trace| - 1];
            w.events == Audited(raw, g, Group(2, map[2 := 1])) && w.submitted == [Entry(1, raw), Entry(2, raw)]
              && w.done == map[] && w.dead == []
  {
    var start := Start(1, Stream([Entry(1, raw), Entry(2, raw)], map[], 2));
    trace := [start];
    trace := Took(trace, g, AddGroup(g));
    AuditRead(trace[|trace| - 1].events, raw, g);
    trace := Took(trace, g, Read(g, 2));
    AuditAcked(trace[|trace| - 1].events, raw, g);
    trace := Took(trace, g, Acknowledge(g, 1));
  }

  /** Any foreign group that reads first and alone lets the script remove an event nobody dispatched. */
  lemma {:induction false} ForeignGroupLosesEvent(raw: Raw, g: string) returns (trace: seq<World>)
    requires g != GROUP
    ensures LosesUnder(trace, g)
  {
    trace := AuditedRun(raw, g);
    var w := trace[|trace| - 1];
    BelowAt(w.events.entries, 1);
    assert g in w.events.groups && Unneeded(w.events, 2, 2);
    trace := Took(trace, g, TrimEvents(2, 2, 1));
    var v := trace[|trace| - 1];
    assert v.events.entries == [Entry(2, raw)];
    assert !Outstanding(v, v.submitted[0]) && !Settled(v, v.submitted[0]);
  }

  /** The exact condition: which group was created first on the events stream decides whether an event can be lost. */
  lemma {:induction false} FirstGroupDecides(g: string)
    ensures (exists trace: seq<World> :: LosesUnder(trace, g)) <==> g != GROUP
  {
    if g != GROUP {
      var trace := ForeignGroupLosesEvent(Emission, g);
      assert LosesUnder(trace, g);
    } else {
      forall trace: seq<World> ensures !LosesUnder(trace, g) {
        if LosesUnder(trace, g) {
          forall k | 0 <= k < |trace| - 1 ensures GatewaysFirst(trace[k]) {
            assert trace[k].events.groups == map[] || g in trace[k].events.groups;
          }
          RunAccounted(trace, |trace| - 1);
        }
      }
    }
  }
}
