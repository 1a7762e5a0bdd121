/** gateway/src/runtime.ts, localEmit: one dispatch to each eligible socket, batched by what it may see. */
module Fanout {
  // ------------------------------------------------------------------- rooms

  /** A raw user or session room, as opposed to a channel. */
  predicate IsRaw(room: string) {
    |room| >= 2 && room[..2] == "__"
  }

  /** The physical room of a target: channels have a prefix of their own. */
  function Physical(room: string): string {
    if IsRaw(room) then room else "__channel:" + room
  }

  /** Two channels never share a room. */
  lemma {:induction false} ChannelsStayApart(a: string, b: string)
    requires !IsRaw(a) && !IsRaw(b) && Physical(a) == Physical(b)
    ensures a == b
  {
    assert Physical(a)[10..] == a && Physical(b)[10..] == b;
  }

  /** `new Set(rooms)`, in order of first occurrence. */
  function Unique(rooms: seq<string>): (r: seq<string>)
    ensures forall x :: x in r <==> x in rooms
  {
    if rooms == [] then []
    else
      var last := |rooms| - 1;
      assert rooms == rooms[..last] + [rooms[last]];
      var rest := Unique(rooms[..last]);
      if rooms[last] in rooms[..last] then rest else rest + [rooms[last]]
  }

  predicate NoRepeats(names: seq<string>) {
    forall i, j :: 0 <= i < j < |names| ==> names[i] != names[j]
  }

  lemma {:induction false} UniqueOnce(rooms: seq<string>)
    ensures NoRepeats(Unique(rooms))
  {
    if rooms != [] {
      UniqueOnce(rooms[..|rooms| - 1]);
    }
  }

  /** The channels a socket may be told about: its own among the targets, in order. */
  function Visible(targets: seq<string>, rooms: set<string>): seq<string> {
    if targets == [] then []
    else
      var last := |targets| - 1;
      var rest := Visible(targets[..last], rooms);
      if !IsRaw(targets[last]) && Physical(targets[last]) in rooms then rest + [targets[last]] else rest
  }

  /** A channel is visible to a socket exactly if it is a target and the socket is in its room. */
  lemma {:induction false} VisibleIff(targets: seq<string>, rooms: set<string>, x: string)
    ensures x in Visible(targets, rooms) <==> x in targets && !IsRaw(x) && Physical(x) in rooms
  {
    if targets != [] {
      var last := |targets| - 1;
      assert targets == targets[..last] + [targets[last]];
      VisibleIff(targets[..last], rooms, x);
    }
  }

  /** The same in terms of the names: raw rooms begin with two underscores, and a channel's room with its prefix. */
  lemma {:induction false} VisibleByName(targets: seq<string>, rooms: set<string>, x: string)
    ensures x in Visible(targets, rooms) <==> x in targets && !("__" <= x) && "__channel:" + x in rooms
  {
    VisibleIff(targets, rooms, x);
    assert IsRaw(x) <==> "__" <= x;
  }

  lemma {:induction false} PlaceOf(names: seq<string>, x: string) returns (k: nat)
    requires x in names
    ensures k < |names| && names[k] == x
  {
    k :| 0 <= k < |names| && names[k] == x;
  }

  /** They are listed in the order of the targets. */
  lemma {:induction false} VisibleInOrder(targets: seq<string>, rooms: set<string>, i: nat, j: nat)
    returns (k: nat, l: nat)
    requires i < j < |Visible(targets, rooms)|
    ensures k < l < |targets| && targets[k] == Visible(targets, rooms)[i] && targets[l] == Visible(targets, rooms)[j]
  {
    var last := |targets| - 1;
    var rest := Visible(targets[..last], rooms);
    if j < |rest| {
      k, l := VisibleInOrder(targets[..last], rooms, i, j);
    } else {
      assert rest[i] in rest;
      VisibleIff(targets[..last], rooms, rest[i]);
      k := PlaceOf(targets[..last], rest[i]);
      l := last;
    }
  }

  /** Names keep the order in which they first occur. */
  lemma {:induction false} UniqueInOrder(rooms: seq<string>, i: nat, j: nat) returns (k: nat, l: nat)
    requires i < j < |Unique(rooms)|
    ensures k < l < |rooms| && rooms[k] == Unique(rooms)[i] && rooms[l] == Unique(rooms)[j]
    ensures Unique(rooms)[j] !in rooms[..l]
  {
    var last := |rooms| - 1;
    var rest := Unique(rooms[..last]);
    if j < |rest| {
      k, l := UniqueInOrder(rooms[..last], i, j);
      assert rooms[..last][..l] == rooms[..l];
    } else {
      assert rest[i] in rest;
      k := PlaceOf(rooms[..last], rest[i]);
      l := last;
    }
  }

  /** Of targets without repetition, a socket is told about each at most once. */
  lemma {:induction false} VisibleOnce(targets: seq<string>, rooms: set<string>)
    requires NoRepeats(targets)
    ensures NoRepeats(Visible(targets, rooms))
  {
    if targets != [] {
      var last := |targets| - 1;
      VisibleOnce(targets[..last], rooms);
      VisibleIff(targets[..last], rooms, targets[last]);
    }
  }

  // --------------------------------------------------------------- group keys

  predicate Plain(s: string) {
    forall i :: 0 <= i < |s| ==> s[i] != '"'
  }

  predicate AllPlain(names: seq<string>) {
    forall i :: 0 <= i < |names| ==> Plain(names[i])
  }

  /** The elements of JSON.stringify on channel names; their characters need no escaping. */
  function Elements(names: seq<string>): string
    decreases |names|, 1
  {
    if names == [] then "" else ['"'] + (names[0] + ['"'] + Rest(names))
  }

  function Rest(names: seq<string>): string
    requires names != []
    decreases |names|, 0
  {
    if |names| == 1 then "" else [','] + Elements(names[1..])
  }

  function Key(names: seq<string>): string {
    "[" + Elements(names) + "]"
  }

  lemma {:induction false} FirstQuote(a: string, x: string)
    requires Plain(a)
    ensures var t := a + ['"'] + x;
            t != [] && (t[0] == '"' <==> a == []) && t[1..] == if a == [] then x else a[1..] + ['"'] + x
    ensures a != [] ==> (a + ['"'] + x)[0] == a[0]
  {
    var t := a + ['"'] + x;
    if a != [] {
      assert t[0] == a[0];
    }
  }

  /** A name ends where the next quote is. */
  lemma {:induction false} NameEnds(a: string, b: string, x: string, y: string)
    requires Plain(a) && Plain(b) && a + ['"'] + x == b + ['"'] + y
    ensures a == b && x == y
  {
    FirstQuote(a, x);
    FirstQuote(b, y);
    if a != [] {
      NameEnds(a[1..], b[1..], x, y);
      assert a == [a[0]] + a[1..] && b == [b[0]] + b[1..];
    }
  }

  lemma {:induction false} AfterQuote(names: seq<string>)
    requires names != []
    ensures Elements(names) != "" && Elements(names)[1..] == names[0] + ['"'] + Rest(names)
    ensures |names| > 1 ==> Rest(names) != "" && Rest(names)[1..] == Elements(names[1..])
  {
  }

  /** Different lists of channels have different keys. */
  lemma {:induction false} KeyIsInjective(a: seq<string>, b: seq<string>)
    requires AllPlain(a) && AllPlain(b) && Elements(a) == Elements(b)
    ensures a == b
  {
    if a != [] { AfterQuote(a); }
    if b != [] { AfterQuote(b); }
    if a != [] {
      SameHead(a, b);
      if |a| > 1 {
        KeyIsInjective(a[1..], b[1..]);
      }
      assert a == [a[0]] + a[1..] && b == [b[0]] + b[1..];
    }
  }

  lemma {:induction false} SameHead(a: seq<string>, b: seq<string>)
    requires AllPlain(a) && AllPlain(b) && a != [] && b != [] && Elements(a) == Elements(b)
    ensures a[0] == b[0] && (|a| == 1 <==> |b| == 1) && Elements(a[1..]) == Elements(b[1..])
  {
    AfterQuote(a);
    AfterQuote(b);
    NameEnds(a[0], b[0], Rest(a), Rest(b));
  }

  lemma {:induction false} SameKeySameChannels(a: seq<string>, b: seq<string>)
    requires AllPlain(a) && AllPlain(b) && Key(a) == Key(b)
    ensures a == b
  {
    assert Key(a)[1..|Key(a)| - 1] == Elements(a) && Key(b)[1..|Key(b)| - 1] == Elements(b);
    KeyIsInjective(a, b);
  }
}
