/** gateway/src/runtime.ts, reconcilePresence: a bounded sweep over presence rooms that rotates. */
module PresenceRotation {

  const LIMIT := 100
  const WORKERS := 4

  predicate Distinct(rooms: seq<string>) {
    forall i, j :: 0 <= i < j < |rooms| ==> rooms[i] != rooms[j]
  }

  function BatchSize(n: nat): nat { if n < LIMIT then n else LIMIT }

  /** The rooms of one sweep. */
  function Batch(all: seq<string>, cursor: nat): seq<string>
    requires all != []
  {
    seq(BatchSize(|all|), i requires 0 <= i < BatchSize(|all|) => all[(cursor + i) % |all|])
  }

  function Advanced(n: nat, cursor: nat): nat
    requires n > 0
  {
    (cursor + BatchSize(n)) % n
  }

  /** The cursor after some sweeps over the same number of rooms. */
  function CursorAfter(n: nat, cursor: nat, sweeps: nat): nat
    requires n > 0
  {
    if sweeps == 0 then cursor else Advanced(n, CursorAfter(n, cursor, sweeps - 1))
  }

  // ------------------------------------------------------------- arithmetic

  lemma {:induction false} AtLeast(k: nat, n: nat)
    requires k > 0
    ensures k * n >= n
  {
    if k > 1 {
      AtLeast(k - 1, n);
      assert k * n == (k - 1) * n + n;
    }
  }

  /** Two representations with remainders below n are the same. */
  lemma {:induction false} SameQuotient(p: nat, q: nat, r: nat, s: nat, n: nat)
    requires r < n && s < n && p * n + r == q * n + s
    ensures p == q && r == s
  {
    if p < q {
      Together(p, q - p, n);
      AtLeast(q - p, n);
    } else if q < p {
      Together(q, p - q, n);
      AtLeast(p - q, n);
    }
  }

  lemma {:induction false} DivMod(x: nat, n: nat)
    requires n > 0
    ensures x / n >= 0 && 0 <= x % n < n && x == (x / n) * n + x % n
  {
  }

  lemma {:induction false} ModUnique(x: nat, q: nat, r: nat, n: nat)
    requires n > 0 && r < n && x == q * n + r
    ensures x % n == r
  {
    DivMod(x, n);
    SameQuotient(x / n, q, x % n, r, n);
  }

  lemma {:induction false} Together(a: nat, b: nat, n: nat)
    ensures (a + b) * n == a * n + b * n
  {
  }

  lemma {:induction false} ModAdd(a: nat, i: nat, n: nat)
    requires n > 0
    ensures (a % n + i) % n == (a + i) % n
  {
    var s := a % n + i;
    DivMod(a, n);
    DivMod(s, n);
    Together(a / n, s / n, n);
    ModUnique(a + i, a / n + s / n, s % n, n);
  }

  /** Offsets less than n apart meet different rooms. */
  lemma {:induction false} ModDiffers(c: nat, i: nat, j: nat, n: nat)
    requires n > 0 && i < j < i + n
    ensures (c + i) % n != (c + j) % n
  {
    var x, d := c + i, j - i;
    if (x + d) % n == x % n {
      DivMod(x, n);
      DivMod(x + d, n);
      var p, q := x / n, (x + d) / n;
      assert q * n == p * n + d;
      SameQuotient(q, p, 0, d, n);
    }
  }

  lemma {:induction false} CursorAfterIs(n: nat, cursor: nat, sweeps: nat)
    requires n > 0
    ensures CursorAfter(n, cursor, sweeps) % n == (cursor + sweeps * BatchSize(n)) % n
  {
    if sweeps > 0 {
      var b, before, far := BatchSize(n), CursorAfter(n, cursor, sweeps - 1), cursor + (sweeps - 1) * BatchSize(n);
      CursorAfterIs(n, cursor, sweeps - 1);
      ModAdd(before, b, n);
      ModAdd(far, b, n);
      Together(sweeps - 1, 1, b);
      ModAdd(before + b, 0, n);
    } else {
      assert sweeps * BatchSize(n) == 0;
    }
  }

  // ------------------------------------------------------------- theorems

  /** A sweep visits min(100, n) different rooms, whatever the cursor. */
  lemma {:induction false} BatchDistinct(all: seq<string>, cursor: nat)
    requires all != [] && Distinct(all)
    ensures |Batch(all, cursor)| == (if |all| < 100 then |all| else 100) && Distinct(Batch(all, cursor))
    ensures forall i :: 0 <= i < |Batch(all, cursor)| ==> Batch(all, cursor)[i] == all[(cursor + i) % |all|]
  {
    var batch, n := Batch(all, cursor), |all|;
    forall i, j | 0 <= i < j < |batch| ensures batch[i] != batch[j] {
      ModDiffers(cursor, i, j, n);
      var x, y := (cursor + i) % n, (cursor + j) % n;
      assert x < y ==> all[x] != all[y];
      assert y < x ==> all[y] != all[x];
    }
  }

  /**
   * From any starting cursor, even one left over from a larger set, one sweep for every hundred
   * rooms, rounded up, visits every room.
   */
  lemma {:induction false} EveryRoomSwept(all: seq<string>, cursor: nat, room: nat) returns (sweep: nat)
    requires room < |all|
    ensures sweep < if |all| < 100 then 1 else (|all| + 99) / 100
    ensures all[room] in Batch(all, CursorAfter(|all|, cursor, sweep))
  {
    var offset := (room + |all| - cursor % |all|) % |all|;
    sweep := offset / BatchSize(|all|);
    SweepsNeeded(|all|, offset);
    RoomAtOffset(|all|, cursor, room);
    OffsetSwept(all, cursor, offset);
  }

  /** The room at an offset from the starting cursor is in the sweep that reaches the offset. */
  lemma {:induction false} OffsetSwept(all: seq<string>, cursor: nat, offset: nat)
    requires all != []
    ensures all[(cursor + offset) % |all|] in Batch(all, CursorAfter(|all|, cursor, offset / BatchSize(|all|)))
  {
    var n, b := |all|, BatchSize(|all|);
    var sweep, i := offset / b, offset % b;
    DivMod(offset, b);
    CursorAfterIs(n, cursor, sweep);
    var c, d := CursorAfter(n, cursor, sweep), cursor + sweep * b;
    SameRoom(c, d, i, n);
    assert d + i == cursor + offset;
    assert Batch(all, c)[i] == all[(c + i) % n];
  }

  lemma {:induction false} SameRoom(c: nat, d: nat, i: nat, n: nat)
    requires n > 0 && c % n == d % n
    ensures (c + i) % n == (d + i) % n
  {
    ModAdd(c, i, n);
    ModAdd(d, i, n);
  }

  lemma {:induction false} SweepsNeeded(n: nat, offset: nat)
    requires offset < n
    ensures offset / BatchSize(n) < if n < 100 then 1 else (n + 99) / 100
  {
    if n < 100 {
      ModUnique(offset, 0, offset, n);
      DivMod(offset, n);
      SameQuotient(offset / n, 0, offset % n, offset, n);
    } else {
      SweepInRange(n, 100, offset);
    }
  }

  lemma {:induction false} SweepInRange(n: nat, b: nat, offset: nat)
    requires b > 0 && offset < n
    ensures offset / b < (n + b - 1) / b
  {
    var q, m := offset / b, (n + b - 1) / b;
    DivMod(offset, b);
    DivMod(n + b - 1, b);
    if m <= q {
      Together(m, q - m, b);
    }
  }

  lemma {:induction false} RoomAtOffset(n: nat, cursor: nat, room: nat)
    requires n > 0 && room < n
    ensures (cursor + (room + n - cursor % n) % n) % n == room
  {
    var start, offset := cursor % n, (room + n - cursor % n) % n;
    ModAdd(cursor, offset, n);
    ModAdd(room + n - start, start, n);
    ModUnique(room + n, 1, room, n);
    assert offset + start == start + offset;
  }

  // --------------------------------------------------------------- the sweep

  class PresenceSweep {
    var presenceCursor: nat
    var reconcilingPresence: bool
    var stopping: bool

    constructor ()
      ensures presenceCursor == 0 && !reconcilingPresence
    {
      presenceCursor, reconcilingPresence, stopping := 0, false, false;
    }

    /**
     * The synchronous start of a sweep over the active rooms, sorted; none while another is under
     * way or a connection is not ready.
     */
    method Begin(all: seq<string>, ready: bool) returns (batch: seq<string>)
      modifies this
      ensures old(reconcilingPresence || stopping) || !ready ==>
                batch == [] && presenceCursor == old(presenceCursor) && reconcilingPresence == old(reconcilingPresence)
      ensures !old(reconcilingPresence || stopping) && ready && all != [] ==>
                && batch == Batch(all, old(presenceCursor))
                && presenceCursor == Advanced(|all|, old(presenceCursor)) && reconcilingPresence
      ensures !old(reconcilingPresence || stopping) && ready && all == [] ==>
                batch == [] && presenceCursor == 0 && !reconcilingPresence
      ensures stopping == old(stopping)
    {
      batch := [];
      if stopping || reconcilingPresence || !ready {
        return;
      }
      if all == [] {
        presenceCursor := 0;
        return;
      }
      reconcilingPresence := true;
      batch := Batch(all, presenceCursor);
      presenceCursor := (presenceCursor + |batch|) % |all|;
    }

    /** The workers, in any interleaving: each takes the next room, and a failed update does not stop it. */
    method Work(batch: seq<string>) returns (visited: seq<string>)
      requires reconcilingPresence
      modifies this
      ensures !reconcilingPresence && presenceCursor == old(presenceCursor)
      ensures visited <= batch && (!stopping ==> visited == batch)
    {
      var next, busy: nat := 0, 0;
      visited := [];
      var workers := if |batch| < WORKERS then |batch| else WORKERS;
      while busy > 0 || (next < |batch| && !stopping)
        invariant next <= |batch| && busy <= workers && visited == batch[..next]
                  && presenceCursor == old(presenceCursor)
        invariant workers == if |batch| < WORKERS then |batch| else WORKERS
        decreases 2 * (|batch| - next) + busy
      {
        var takesNext: bool, stops: bool := *, *;
        if busy < workers && next < |batch| && !stopping && (takesNext || busy == 0) {
          visited, next, busy := visited + [batch[next]], next + 1, busy + 1;
        } else {
          busy := busy - 1;   // a presence update ended
          stopping := stopping || stops;
        }
      }
      reconcilingPresence := false;
    }
  }
}
