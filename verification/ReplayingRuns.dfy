/** Many replays of dead-lettered commands, with failures at every point: when one of them appends. */
module ReplayingRuns {
  import opened Exchanges
  import opened RedisStream
  import opened BridgeState
  import opened Backends
  import opened FailedReplaying

  /** A replay by some operator; `expired` says whether a lock left behind on the entry has run out by then. */
  datatype Attempt = Attempt(id: nat, token: nat, expired: bool, k: Conditions)

  /** The lock on an entry is still set after the first n attempts. */
  predicate Left(locked: set<nat>, attempts: seq<Attempt>, n: nat, id: nat)
    requires n <= |attempts|
  {
    if n == 0 then id in locked
    else if attempts[n - 1].id != id then Left(locked, attempts, n - 1, id)
    else Finds(locked, attempts, n - 1) || attempts[n - 1].k.LeavesLock()
  }

  /** The n-th attempt finds the lock set. */
  predicate Finds(locked: set<nat>, attempts: seq<Attempt>, n: nat)
    requires n < |attempts|
  {
    !attempts[n].expired && Left(locked, attempts, n, attempts[n].id)
  }

  /** A marker was written for the entry before the n-th attempt. */
  predicate MarkedBefore(marked: set<nat>, attempts: seq<Attempt>, done: seq<Progress>, n: nat, id: nat)
    requires n <= |done| <= |attempts|
  {
    id in marked || exists i :: 0 <= i < n && attempts[i].id == id && done[i].Marked?
  }

  /** An attempt that gets the lock, passes the checks and reaches the stream. */
  predicate Appends(a: Attempt, v: View) {
    a.k.locked.Completed? && Proceeds(v, a.id, a.k) && a.k.released.Completed? && a.k.appended.Done()
  }

  /** What the n-th attempt did: it appended if and only if it found neither lock nor marker and reached the stream. */
  ghost predicate Fits(locked: set<nat>, marked: set<nat>, attempts: seq<Attempt>, done: seq<Progress>,
                       views: seq<View>, steps: seq<seq<Step>>, n: nat)
    requires n < |done| == |views| == |steps| <= |attempts|
  {
    var a := attempts[n];
    && (done[n].Sent() <==>
        Appends(a, views[n]) && !Finds(locked, attempts, n) && !MarkedBefore(marked, attempts, done, n, a.id))
    && (done[n].Marked? <==> done[n].Sent() && a.k.appended.Completed? && a.k.marked.Done())
    && (done[n].Untouched? || Acceptable(views[n].seen, a.id)) && steps[n] == Taken(views[n], a.id, done[n])
  }

  function Flat(steps: seq<seq<Step>>): seq<Step> {
    if steps == [] then [] else Flat(steps[..|steps| - 1]) + steps[|steps| - 1]
  }

  lemma {:induction false} FlatMore(own: seq<Step>, steps: seq<seq<Step>>, taken: seq<Step>)
    ensures own + Flat(steps + [taken]) == own + Flat(steps) + taken
  {
    assert (steps + [taken])[..|steps|] == steps;
  }

  lemma {:induction false} FitsMore(locked: set<nat>, marked: set<nat>, attempts: seq<Attempt>, done: seq<Progress>,
                                    views: seq<View>, steps: seq<seq<Step>>,
                                    p: Progress, v: View, taken: seq<Step>, n: nat)
    requires n < |done| == |views| == |steps| < |attempts| && Fits(locked, marked, attempts, done, views, steps, n)
    ensures Fits(locked, marked, attempts, done + [p], views + [v], steps + [taken], n)
  {
    var a, more := attempts[n], done + [p];
    assert MarkedBefore(marked, attempts, more, n, a.id) <==> MarkedBefore(marked, attempts, done, n, a.id) by {
      assert forall i :: 0 <= i < n ==> more[i] == done[i];
    }
  }

  /** One attempt, from the locks and markers there were to those there are. */
  ghost predicate Did(a: Attempt, locks: set<nat>, markers: set<nat>, p: Progress, v: View, taken: seq<Step>,
                      nowLocks: set<nat>, nowMarkers: set<nat>) {
    var found := a.id in locks && !a.expired;
    && (p.Sent() <==> Appends(a, v) && !found && a.id !in markers)
    && (p.Marked? <==> p.Sent() && a.k.appended.Completed? && a.k.marked.Done())
    && (p.Untouched? || Acceptable(v.seen, a.id)) && taken == Taken(v, a.id, p)
    && nowLocks == (if found || a.k.LeavesLock() then locks + {a.id} else locks - {a.id})
    && nowMarkers == (if p.Marked? then markers + {a.id} else markers)
  }

  /** The markers and locks there are after the attempts so far. */
  ghost predicate Kept(locks: set<nat>, markers: set<nat>, locked: set<nat>, marked: set<nat>, attempts: seq<Attempt>,
                       done: seq<Progress>)
    requires |done| <= |attempts|
  {
    && (forall id :: id in markers <==> MarkedBefore(marked, attempts, done, |done|, id))
    && forall id :: id in locks <==> Left(locked, attempts, |done|, id)
  }

  /** The bookkeeping of one more attempt. */
  lemma {:induction false} KeptMore(locks: set<nat>, markers: set<nat>, locked: set<nat>, marked: set<nat>,
                                    attempts: seq<Attempt>, done: seq<Progress>,
                                    p: Progress, v: View, taken: seq<Step>, nowLocks: set<nat>, nowMarkers: set<nat>)
    requires |done| < |attempts| && Kept(locks, markers, locked, marked, attempts, done)
    requires Did(attempts[|done|], locks, markers, p, v, taken, nowLocks, nowMarkers)
    ensures Kept(nowLocks, nowMarkers, locked, marked, attempts, done + [p])
  {
    var a, more := attempts[|done|], done + [p];
    forall id ensures id in nowMarkers <==> MarkedBefore(marked, attempts, more, |more|, id) {
      MarkedMore(marked, attempts, done, p, id);
    }
    forall id ensures id in nowLocks <==> Left(locked, attempts, |more|, id) {
      assert id in locks <==> Left(locked, attempts, |done|, id);
    }
  }

  lemma {:induction false} MarkedMore(marked: set<nat>, attempts: seq<Attempt>, done: seq<Progress>, p: Progress,
                                      id: nat)
    requires |done| < |attempts|
    ensures MarkedBefore(marked, attempts, done + [p], |done| + 1, id)
       <==> MarkedBefore(marked, attempts, done, |done|, id) || (attempts[|done|].id == id && p.Marked?)
  {
    var more := done + [p];
    assert more[|done|] == p && forall i :: 0 <= i < |done| ==> more[i] == done[i];
  }

  /** A new attempt fits. */
  lemma {:induction false} FitsNew(locks: set<nat>, markers: set<nat>, locked: set<nat>, marked: set<nat>,
                                   attempts: seq<Attempt>, done: seq<Progress>,
                                   views: seq<View>, steps: seq<seq<Step>>, p: Progress, v: View, taken: seq<Step>,
                                     nowLocks: set<nat>, nowMarkers: set<nat>)
    requires |done| == |views| == |steps| < |attempts| && Kept(locks, markers, locked, marked, attempts, done)
    requires Did(attempts[|done|], locks, markers, p, v, taken, nowLocks, nowMarkers)
    ensures Fits(locked, marked, attempts, done + [p], views + [v], steps + [taken], |done|)
  {
    var n, a, more := |done|, attempts[|done|], done + [p];
    assert a.id in markers <==> MarkedBefore(marked, attempts, done, n, a.id);
    assert a.id in locks <==> Left(locked, attempts, n, a.id);
    assert MarkedBefore(marked, attempts, more, n, a.id) <==> MarkedBefore(marked, attempts, done, n, a.id) by {
      assert forall i :: 0 <= i < n ==> more[i] == done[i];
    }
  }

  /** After a marker, nothing more is appended. */
  lemma {:induction false} NoneAfterMarker(locked: set<nat>, marked: set<nat>, attempts: seq<Attempt>,
                                           done: seq<Progress>, views: seq<View>, steps: seq<seq<Step>>)
    requires |done| == |views| == |steps| <= |attempts|
    requires forall n :: 0 <= n < |done| ==> Fits(locked, marked, attempts, done, views, steps, n)
    ensures forall i, n ::
              0 <= i < n < |done| && attempts[i].id == attempts[n].id && done[i].Marked? ==> !done[n].Sent()
  {
    forall i, n | 0 <= i < n < |done| && attempts[i].id == attempts[n].id && done[i].Marked? ensures !done[n].Sent() {
      assert Fits(locked, marked, attempts, done, views, steps, n);
    }
  }

  /** What a replay that found the lock free came to. */
  lemma {:induction false} TookMeans(v: View, id: nat, k: Conditions, marked: bool, p: Progress, taken: seq<Step>)
    requires Took(v, id, k, marked, p, taken)
    ensures p.Sent() <==> !marked && Proceeds(v, id, k) && k.released.Completed? && k.appended.Done()
    ensures p.Marked? <==> p.Sent() && k.appended.Completed? && k.marked.Done()
    ensures (p.Untouched? || Acceptable(v.seen, id)) && taken == Taken(v, id, p)
  {
  }

  /** What one replay did, from its contract. */
  lemma {:induction false} ReplayDid(a: Attempt, locks: map<nat, nat>, markers: map<nat, nat>, p: Progress, v: View,
                                     taken: seq<Step>,
                                     nowLocks: map<nat, nat>, nowMarkers: map<nat, nat>)
    requires nowMarkers == if p.Marked? then markers[a.id := p.stream] else markers
    requires var left := if a.expired then locks - {a.id} else locks;
             && nowLocks == (if a.id in left || !a.k.LeavesLock() then left else left[a.id := a.token])
             && (a.id in left || !a.k.locked.Completed? ==> p.Untouched? && taken == [])
             && (a.id !in left && a.k.locked.Completed? ==> Took(v, a.id, a.k, a.id in markers, p, taken))
    ensures Did(a, locks.Keys, markers.Keys, p, v, taken, nowLocks.Keys, nowMarkers.Keys)
  {
    var left := if a.expired then locks - {a.id} else locks;
    if a.id !in left && a.k.locked.Completed? {
      TookMeans(v, a.id, a.k, a.id in markers, p, taken);
    }
  }

  /** The next attempt, after whatever others did since the last one; a lock left behind may run out. */
  method Next(m: FailedMessages, a: Attempt) returns (progress: Progress, ghost view: View, ghost taken: seq<Step>)
    requires m.backend.Valid()
    modifies m, m.backend
    ensures m.backend.Valid() && m.backend.own == old(m.backend.own) + taken
    ensures Did(a, old(m.locks.Keys), old(m.markers.Keys), progress, view, taken, m.locks.Keys, m.markers.Keys)
  {
    m.backend.Pause();
    if a.expired {
      m.locks := m.locks - {a.id};
    }
    var outcome;
    outcome, progress, view, taken := m.Replay(a.id, a.token, a.k);
    ReplayDid(a, old(m.locks), old(m.markers), progress, view, taken, m.locks, m.markers);
  }

  /** The attempts so far. */
  ghost predicate SoFar(locks: set<nat>, markers: set<nat>, locked: set<nat>, marked: set<nat>, attempts: seq<Attempt>,
                        done: seq<Progress>,
                        views: seq<View>, steps: seq<seq<Step>>) {
    && |done| == |views| == |steps| <= |attempts| && Kept(locks, markers, locked, marked, attempts, done)
    && forall n :: 0 <= n < |done| ==> Fits(locked, marked, attempts, done, views, steps, n)
  }

  lemma {:induction false} SoFarMore(locks: set<nat>, markers: set<nat>, locked: set<nat>, marked: set<nat>,
                                     attempts: seq<Attempt>, done: seq<Progress>,
                                     views: seq<View>, steps: seq<seq<Step>>, p: Progress, v: View, taken: seq<Step>,
                                       nowLocks: set<nat>, nowMarkers: set<nat>)
    requires SoFar(locks, markers, locked, marked, attempts, done, views, steps) && |done| < |attempts|
    requires Did(attempts[|done|], locks, markers, p, v, taken, nowLocks, nowMarkers)
    ensures SoFar(nowLocks, nowMarkers, locked, marked, attempts, done + [p], views + [v], steps + [taken])
  {
    KeptMore(locks, markers, locked, marked, attempts, done, p, v, taken, nowLocks, nowMarkers);
    FitsNew(locks, markers, locked, marked, attempts, done, views, steps, p, v, taken, nowLocks, nowMarkers);
    forall n | 0 <= n < |done| ensures Fits(locked, marked, attempts, done + [p], views + [v], steps + [taken], n) {
      FitsMore(locked, marked, attempts, done, views, steps, p, v, taken, n);
    }
  }

  /**
   * Any sequence of replays of any entries, each failing wherever it may, with others at work in
   * between. An attempt appends the buried command if and only if it reaches the stream and no
   * marker of the entry was written before; so once one is written, no later attempt appends.
   */
  method Series(m: FailedMessages, attempts: seq<Attempt>)
    returns (done: seq<Progress>, ghost views: seq<View>, ghost steps: seq<seq<Step>>)
    requires m.backend.Valid()
    modifies m, m.backend
    ensures m.backend.Valid() && |done| == |views| == |steps| == |attempts|
    ensures m.backend.own == old(m.backend.own) + Flat(steps)
    ensures forall n ::
              0 <= n < |done| ==> Fits(old(m.locks.Keys), old(m.markers.Keys), attempts, done, views, steps, n)
    ensures forall i, n ::
              0 <= i < n < |done| && attempts[i].id == attempts[n].id && done[i].Marked? ==> !done[n].Sent()
  {
    done, views, steps := [], [], [];
    ghost var locked, marked := m.locks.Keys, m.markers.Keys;
    assert m.backend.own == m.backend.own + Flat(steps);
    while |done| < |attempts|
      invariant m.backend.Valid() && m.backend.own == old(m.backend.own) + Flat(steps)
      invariant SoFar(m.locks.Keys, m.markers.Keys, locked, marked, attempts, done, views, steps)
      decreases |attempts| - |done|
    {
      ghost var locks, markers := m.locks.Keys, m.markers.Keys;
      var progress;
      ghost var view, taken;
      progress, view, taken := Next(m, attempts[|done|]);
      FlatMore(old(m.backend.own), steps, taken);
      SoFarMore(locks, markers, locked, marked, attempts, done, views, steps, progress, view, taken, m.locks.Keys,
                m.markers.Keys);
      done, views, steps := done + [progress], views + [view], steps + [taken];
    }
    NoneAfterMarker(locked, marked, attempts, done, views, steps);
  }
}
