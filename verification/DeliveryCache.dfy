/**
 * gateway/src/runtime.ts: which events a socket has been sent lately. The cache is an insertion
 * ordered map of deadlines; the history of dispatches is what it should remember.
 */
module DeliveryCache {

  datatype Dispatch = Dispatch(id: string, at: int)

  datatype Entry = Entry(id: string, until: int)

  /** The event was among the last `max` dispatches, less than the TTL ago. */
  ghost predicate InWindow(history: seq<Dispatch>, id: string, now: int, ttl: int, max: nat) {
    exists i :: |history| - max <= i < |history| && 0 <= i && Recent(history[i], id, now, ttl)
  }

  predicate Recent(d: Dispatch, id: string, now: int, ttl: int) {
    d.id == id && now < d.at + ttl
  }

  predicate Holds(delivered: seq<Entry>, id: string) {
    exists i :: 0 <= i < |delivered| && delivered[i].id == id
  }

  /** An entry for each id, as in a Map. */
  predicate Keyed(delivered: seq<Entry>) {
    forall i, j :: 0 <= i < j < |delivered| ==> delivered[i].id != delivered[j].id
  }

  /** Map.set: a key that is present keeps its place, a new one goes to the end. */
  function Put(delivered: seq<Entry>, e: Entry): seq<Entry> {
    if delivered == [] then [e]
    else if delivered[0].id == e.id then [e] + delivered[1..]
    else [delivered[0]] + Put(delivered[1..], e)
  }

  lemma {:induction false} PutNew(delivered: seq<Entry>, e: Entry)
    requires !Holds(delivered, e.id)
    ensures Put(delivered, e) == delivered + [e]
  {
    if delivered != [] {
      assert delivered[0].id != e.id;
      forall i | 0 <= i < |delivered| - 1 ensures delivered[1..][i].id != e.id {
        assert delivered[1..][i] == delivered[i + 1];
      }
      PutNew(delivered[1..], e);
    }
  }

  /** The cache is the history from position k on; everything earlier has expired or been pushed out. */
  ghost predicate Remembers(delivered: seq<Entry>, history: seq<Dispatch>, k: nat, clock: int, ttl: int, max: nat) {
    && k <= |history| && |delivered| == |history| - k && Keyed(delivered)
    && (forall i :: 0 <= i < |delivered| ==> delivered[i] == Entry(history[k + i].id, history[k + i].at + ttl))
    && (forall i :: 0 <= i < k ==> history[i].at + ttl <= clock || i < |history| - max)
    && (forall i, j :: 0 <= i < j < |history| ==> history[i].at <= history[j].at)
    && (forall i :: 0 <= i < |history| ==> history[i].at <= clock)
  }

  /** No event is dispatched again inside its window. */
  ghost predicate NoEarlyRepeat(history: seq<Dispatch>, ttl: int, max: nat) {
    forall i, j ::
      0 <= i < j < |history| && history[i].id == history[j].id ==> history[i].at + ttl <= history[j].at || max < j - i
  }

  /** After the purge, the cache answers exactly the question about the history. */
  lemma {:induction false} HoldsIffInWindow(delivered: seq<Entry>, history: seq<Dispatch>, k: nat, now: int, ttl: int,
                                            max: nat, id: string)
    requires Remembers(delivered, history, k, now, ttl, max) && |delivered| <= max
    requires delivered != [] ==> now < delivered[0].until
    ensures Holds(delivered, id) <==> InWindow(history, id, now, ttl, max)
  {
    if Holds(delivered, id) {
      var i :| 0 <= i < |delivered| && delivered[i].id == id;
      assert history[k].at <= history[k + i].at || i == 0;
      assert Recent(history[k + i], id, now, ttl);
    }
    if InWindow(history, id, now, ttl, max) {
      var i :| |history| - max <= i < |history| && 0 <= i && Recent(history[i], id, now, ttl);
      assert delivered[i - k].id == id;
    }
  }

  /** Dropping the oldest entry is right once it has expired, or once there are too many. */
  lemma {:induction false} DropFirst(delivered: seq<Entry>, history: seq<Dispatch>, k: nat, clock: int, now: int,
                                     ttl: int, max: nat)
    requires Remembers(delivered, history, k, clock, ttl, max) && clock <= now && delivered != []
    requires delivered[0].until <= now || max < |delivered|
    ensures Remembers(delivered[1..], history, k + 1, now, ttl, max)
  {
    assert delivered[0] == Entry(history[k].id, history[k].at + ttl);
  }

  lemma {:induction false} TimePasses(delivered: seq<Entry>, history: seq<Dispatch>, k: nat, clock: int, now: int,
                                      ttl: int, max: nat)
    requires Remembers(delivered, history, k, clock, ttl, max) && clock <= now
    ensures Remembers(delivered, history, k, now, ttl, max)
  {
  }

  lemma {:induction false} Records(delivered: seq<Entry>, history: seq<Dispatch>, k: nat, clock: int, now: int,
                                   ttl: int, max: nat, id: string)
    requires Remembers(delivered, history, k, clock, ttl, max) && clock <= now && !Holds(delivered, id)
    ensures Remembers(delivered + [Entry(id, now + ttl)], history + [Dispatch(id, now)], k, now, ttl, max)
  {
  }

  /** A dispatch outside the window keeps the history free of early repeats. */
  lemma {:induction false} NoRepeatGrows(history: seq<Dispatch>, id: string, checked: int, now: int, ttl: int, max: nat)
    requires NoEarlyRepeat(history, ttl, max) && !InWindow(history, id, checked, ttl, max) && checked <= now
    ensures NoEarlyRepeat(history + [Dispatch(id, now)], ttl, max)
  {
    var longer := history + [Dispatch(id, now)];
    forall i, j | 0 <= i < j < |longer| && longer[i].id == longer[j].id
      ensures longer[i].at + ttl <= longer[j].at || max < j - i {
      if j == |history| && |history| - max <= i {
        assert !Recent(history[i], id, checked, ttl);
      }
    }
  }

  /** The prefix purge: expired entries are at the front. */
  method Purge(delivered: seq<Entry>, ghost history: seq<Dispatch>, ghost k: nat, clock: int, ttl: int, max: nat)
    returns (kept: seq<Entry>, now: int, ghost cut: nat)
    requires Remembers(delivered, history, k, clock, ttl, max)
    ensures clock <= now && Remembers(kept, history, cut, now, ttl, max) && |kept| <= |delivered|
    ensures kept != [] ==> now < kept[0].until
    ensures exists d :: 0 <= d <= |delivered| && kept == delivered[d..]
  {
    kept, now, cut := delivered, clock, k;
    ghost var d := 0;
    while kept != []
      invariant clock <= now && Remembers(kept, history, cut, now, ttl, max) && |kept| <= |delivered|
      invariant 0 <= d <= |delivered| && kept == delivered[d..]
      decreases |kept|
    {
      now := Tick(now, kept, history, cut, ttl, max);
      if kept[0].until > now {
        break;
      }
      DropFirst(kept, history, cut, now, now, ttl, max);
      kept, cut, d := kept[1..], cut + 1, d + 1;
    }
  }

  /** Date.now(): time may have passed. */
  method Tick(clock: int, ghost delivered: seq<Entry>, ghost history: seq<Dispatch>, ghost k: nat, ttl: int, max: nat)
    returns (now: int)
    requires Remembers(delivered, history, k, clock, ttl, max)
    ensures clock <= now && Remembers(delivered, history, k, now, ttl, max)
  {
    var reading: int := *;
    now := if clock < reading then reading else clock;
    TimePasses(delivered, history, k, clock, now, ttl, max);
  }

  /** delivered.set, and the loop that keeps the cache bounded. */
  method Record(delivered: seq<Entry>, ghost history: seq<Dispatch>, ghost k: nat, id: string, now: int, ttl: int,
                max: nat)
    returns (kept: seq<Entry>, ghost longer: seq<Dispatch>, ghost cut: nat)
    requires Remembers(delivered, history, k, now, ttl, max) && !Holds(delivered, id)
    ensures longer == history + [Dispatch(id, now)] && Remembers(kept, longer, cut, now, ttl, max) && |kept| <= max
  {
    Records(delivered, history, k, now, now, ttl, max, id);
    PutNew(delivered, Entry(id, now + ttl));
    kept, longer, cut := Put(delivered, Entry(id, now + ttl)), history + [Dispatch(id, now)], k;
    while |kept| > max
      invariant Remembers(kept, longer, cut, now, ttl, max)
      decreases |kept|
    {
      DropFirst(kept, longer, cut, now, now, ttl, max);
      kept, cut := kept[1..], cut + 1;
    }
  }
}
