/**
 * Json::canonical decides JSON equality, and what rests on it: the command
 * fingerprint of src/Commands/CommandProcessor.php and the stored reply.
 */
module JsonCanonical {
  import opened Decimal
  import opened Json
  import opened Options

  // -------------------------------------------------------------- meaning

  function Mean(w: Wire): Meaning
    requires WellFormedWire(w)
  {
    match w
    case WAtom(x) => MAtom(x)
    case WList(xs) => MList(seq(|xs|, i requires 0 <= i < |xs| => Mean(xs[i])))
    case WObject(fs) => MObject(map name | name in Names(fs) :: Mean(fs[IndexOf(fs, name)].1))
  }

  function Names(fs: seq<(string, Wire)>): set<string> {
    set i | 0 <= i < |fs| :: fs[i].0
  }

  function IndexOf(fs: seq<(string, Wire)>, name: string): (i: nat)
    requires name in Names(fs)
    ensures i < |fs| && fs[i].0 == name
  {
    if fs[0].0 == name then 0 else 1 + IndexOf(fs[1..], name)
  }

  lemma {:induction false} EncodeWellFormed(v: Value)
    requires WellFormed(v)
    ensures WellFormedWire(Encode(v))
  {
    match v
    case Atom(_) =>
    case Arr(fs) =>
      forall i | 0 <= i < |fs| ensures WellFormedWire(Encode(fs[i].1)) {
        EncodeWellFormed(fs[i].1);
      }
    case Obj(ps) =>
      forall i | 0 <= i < |ps| ensures WellFormedWire(Encode(ps[i].1)) {
        EncodeWellFormed(ps[i].1);
      }
  }

  /**
   * Decoding and encoding keeps a JSON text exactly when json_encode could have written its
   * numbers, at every depth.
   */
  lemma {:induction false} WireKeptIff(w: Wire)
    requires Decodable(w)
    ensures Encode(Hydrate(w)) == w <==> WellFormedWire(w)
  {
    HydrateWellFormed(w);
    EncodeWellFormed(Hydrate(w));
    if WellFormedWire(w) {
      WireRoundTrip(w);
    }
  }

  /** An integer that comes back as another number, and in exponent form. */
  lemma {:induction false} WideIntegerChanges()
    ensures var w := WAtom(Int(18446744073709551617));
            && Decode(w) == Some(Atom(Float(Finite(18446744073709551616.0))))
            && Encode(Hydrate(w)) == WAtom(Float(Finite(18446744073709551616.0)))
  {
    assert Spacing(18446744073709551617, 1) == 4096;
  }

  /** The text with every number but the integers of 64 bits written as json_encode writes the double it is read as. */
  function Rounded(w: Wire): Wire {
    match w
    case WAtom(x) => WAtom(EncodeScalar(DecodeScalar(x)))
    case WList(xs) => WList(seq(|xs|, i requires 0 <= i < |xs| => Rounded(xs[i])))
    case WObject(fs) => WObject(seq(|fs|, i requires 0 <= i < |fs| => (fs[i].0, Rounded(fs[i].1))))
  }

  /** A number with a fraction of zero comes back as an integer. */
  lemma {:induction false} ZeroFractionChanges()
    ensures var w := WAtom(Spelled("5.0", Finite(5.0)));
            Decode(w) == Some(Atom(Float(Finite(5.0)))) && Encode(Hydrate(w)) == WAtom(Int(5))
  {
    assert (5.0).Floor == 5;
  }

  /** What decoding and encoding makes of any text. */
  lemma {:induction false} RoundTripRounds(w: Wire)
    requires Decodable(w)
    ensures Encode(Hydrate(w)) == Rounded(w) && WellFormedWire(Rounded(w))
  {
    match w
    case WAtom(_) =>
    case WList(xs) =>
      forall i | 0 <= i < |xs| ensures Encode(Hydrate(xs[i])) == Rounded(xs[i]) && WellFormedWire(Rounded(xs[i])) {
        RoundTripRounds(xs[i]);
      }
    case WObject(fs) =>
      forall i | 0 <= i < |fs|
        ensures Encode(Hydrate(fs[i].1)) == Rounded(fs[i].1) && WellFormedWire(Rounded(fs[i].1))
        && KeyText(ToKey(fs[i].0)) == fs[i].0 {
        RoundTripRounds(fs[i].1);
        KeyRoundTrip(fs[i].0);
      }
      var hs := seq(|fs|, i requires 0 <= i < |fs| => (ToKey(fs[i].0), Hydrate(fs[i].1)));
      assert Hydrate(w) == Object(hs);
      assert IsList(hs) ==> NumericKeys(hs);
  }

  /** The JSON meaning of a PHP value. */
  function Says(v: Value): Meaning
    requires WellFormed(v)
  {
    EncodeWellFormed(v);
    Mean(Encode(v))
  }

  // ------------------------------------------------------------ canonical

  /** One step of ksort with SORT_STRING: keys compare by their text. */
  function InsertField(f: (Key, Value), fs: seq<(Key, Value)>): seq<(Key, Value)> {
    if fs == [] || LexLess(KeyText(f.0), KeyText(fs[0].0)) then [f] + fs
    else [fs[0]] + InsertField(f, fs[1..])
  }

  function KSort(fs: seq<(Key, Value)>): seq<(Key, Value)> {
    if fs == [] then [] else InsertField(fs[0], KSort(fs[1..]))
  }

  /** Json::canonical. Sorting before or after mapping the values is the same: only keys are compared. */
  function Canonical(v: Value): Value {
    match v
    case Atom(_) => v
    case Arr(fs) =>
      var mapped := seq(|fs|, i requires 0 <= i < |fs| => (fs[i].0, Canonical(fs[i].1)));
      if IsList(fs) then Arr(mapped) else ToObject(KSort(mapped))
    case Obj(ps) =>
      ToObject(KSort(seq(|ps|, i requires 0 <= i < |ps| => (ToKey(ps[i].0), Canonical(ps[i].1)))))
  }

  predicate DistinctTexts(fs: seq<(Key, Value)>) {
    forall i, j :: 0 <= i < j < |fs| ==> KeyText(fs[i].0) != KeyText(fs[j].0)
  }

  predicate AscendingTexts(fs: seq<(Key, Value)>) {
    forall i, j :: 0 <= i < j < |fs| ==> LexLess(KeyText(fs[i].0), KeyText(fs[j].0))
  }

  lemma {:induction false} InsertKeeps(f: (Key, Value), fs: seq<(Key, Value)>)
    ensures multiset(InsertField(f, fs)) == multiset([f] + fs)
  {
    if fs != [] {
      assert fs == [fs[0]] + fs[1..];
      if !LexLess(KeyText(f.0), KeyText(fs[0].0)) {
        InsertKeeps(f, fs[1..]);
      }
    }
  }

  /** Every field sorts after the name. */
  predicate AllAfter(name: string, fs: seq<(Key, Value)>) {
    forall i :: 0 <= i < |fs| ==> LexLess(name, KeyText(fs[i].0))
  }

  lemma {:induction false} Prepended(f: (Key, Value), fs: seq<(Key, Value)>)
    requires AscendingTexts(fs) && AllAfter(KeyText(f.0), fs)
    ensures AscendingTexts([f] + fs)
  {
  }

  lemma {:induction false} InsertSorted(f: (Key, Value), fs: seq<(Key, Value)>)
    requires AscendingTexts(fs)
    requires forall i :: 0 <= i < |fs| ==> KeyText(fs[i].0) != KeyText(f.0)
    ensures AscendingTexts(InsertField(f, fs))
  {
    if fs != [] {
      var name, first := KeyText(f.0), KeyText(fs[0].0);
      LexTotal(name, first);
      if LexLess(name, first) {
        forall i | 1 <= i < |fs| ensures LexLess(name, KeyText(fs[i].0)) {
          LexTransitive(name, first, KeyText(fs[i].0));
        }
        Prepended(f, fs);
      } else {
        InsertSorted(f, fs[1..]);
        InsertKeeps(f, fs[1..]);
        var rest := InsertField(f, fs[1..]);
        forall i | 0 <= i < |rest| ensures LexLess(first, KeyText(rest[i].0)) {
          assert rest[i] in multiset(rest);
          assert rest[i] in [f] + fs[1..];
        }
        Prepended(fs[0], rest);
      }
    }
  }

  lemma {:induction false} KSortSorts(fs: seq<(Key, Value)>)
    requires DistinctTexts(fs)
    ensures AscendingTexts(KSort(fs))
    ensures multiset(KSort(fs)) == multiset(fs)
    ensures |KSort(fs)| == |fs|
  {
    if fs != [] {
      KSortSorts(fs[1..]);
      var rest := KSort(fs[1..]);
      forall i | 0 <= i < |rest| ensures KeyText(rest[i].0) != KeyText(fs[0].0) {
        assert rest[i] in multiset(rest);
        assert rest[i] in fs[1..];
      }
      InsertSorted(fs[0], rest);
      InsertKeeps(fs[0], rest);
      assert fs == [fs[0]] + fs[1..];
    }
    assert |multiset(KSort(fs))| == |multiset(fs)|;
  }

  /** A canonical text: every object lists its members in byte order. */
  predicate Sorted(w: Wire) {
    match w
    case WAtom(_) => true
    case WList(xs) => forall i :: 0 <= i < |xs| ==> Sorted(xs[i])
    case WObject(fs) =>
      && (forall i, j :: 0 <= i < j < |fs| ==> LexLess(fs[i].0, fs[j].0))
      && forall i :: 0 <= i < |fs| ==> Sorted(fs[i].1)
  }

  lemma {:induction false} MemberAt(w: Wire, i: nat)
    requires w.WObject? && WellFormedWire(w) && i < |w.fields|
    ensures w.fields[i].0 in Mean(w).members && Mean(w).members[w.fields[i].0] == Mean(w.fields[i].1)
  {
    assert IndexOf(w.fields, w.fields[i].0) == i;
  }

  lemma {:induction false} MemberOf(w: Wire, name: string) returns (i: nat)
    requires w.WObject? && WellFormedWire(w) && name in Mean(w).members
    ensures i < |w.fields| && w.fields[i].0 == name && Mean(w).members[name] == Mean(w.fields[i].1)
  {
    i := IndexOf(w.fields, name);
  }

  /** Some field of v has the name and meaning of field i of w. */
  predicate Carried(v: Wire, w: Wire, i: nat)
    requires v.WObject? && w.WObject? && WellFormedWire(v) && WellFormedWire(w) && i < |w.fields|
  {
    exists j :: 0 <= j < |v.fields| && v.fields[j].0 == w.fields[i].0 && Mean(v.fields[j].1) == Mean(w.fields[i].1)
  }

  /** Objects mean the same when each field of one is carried by the other. */
  lemma {:induction false} SameMembers(v: Wire, w: Wire)
    requires v.WObject? && w.WObject? && WellFormedWire(v) && WellFormedWire(w)
    requires forall i :: 0 <= i < |w.fields| ==> Carried(v, w, i)
    requires forall i :: 0 <= i < |v.fields| ==> Carried(w, v, i)
    ensures Mean(v) == Mean(w)
  {
    SubMembers(v, w);
    SubMembers(w, v);
    assert Mean(v).members == Mean(w).members;
  }

  lemma {:induction false} SubMembers(v: Wire, w: Wire)
    requires v.WObject? && w.WObject? && WellFormedWire(v) && WellFormedWire(w)
    requires forall i :: 0 <= i < |w.fields| ==> Carried(v, w, i)
    ensures forall k :: k in Mean(w).members ==> k in Mean(v).members && Mean(v).members[k] == Mean(w).members[k]
  {
    forall k | k in Mean(w).members ensures k in Mean(v).members && Mean(v).members[k] == Mean(w).members[k] {
      var i := MemberOf(w, k);
      assert Carried(v, w, i);
      var j :| 0 <= j < |v.fields| && v.fields[j].0 == w.fields[i].0 && Mean(v.fields[j].1) == Mean(w.fields[i].1);
      MemberAt(v, j);
    }
  }

  lemma {:induction false} FromSorted(fs: seq<(Key, Value)>, i: nat) returns (j: nat)
    requires DistinctTexts(fs) && i < |KSort(fs)|
    ensures j < |fs| && fs[j] == KSort(fs)[i]
  {
    KSortSorts(fs);
    assert KSort(fs)[i] in multiset(KSort(fs));
    j :| 0 <= j < |fs| && fs[j] == KSort(fs)[i];
  }

  lemma {:induction false} IntoSorted(fs: seq<(Key, Value)>, j: nat) returns (i: nat)
    requires DistinctTexts(fs) && j < |fs|
    ensures i < |KSort(fs)| && fs[j] == KSort(fs)[i]
  {
    KSortSorts(fs);
    assert fs[j] in multiset(fs);
    i :| 0 <= i < |KSort(fs)| && fs[j] == KSort(fs)[i];
  }

  /** Sorted fields make a well-formed object in canonical text. */
  lemma {:induction false} SortedFields(fs: seq<(Key, Value)>)
    requires DistinctTexts(fs) && |fs| <= MAX_INT
    requires forall i :: 0 <= i < |fs| ==> NulFree(KeyText(fs[i].0)) && WellFormed(fs[i].1) && Sorted(Encode(fs[i].1))
    ensures WellFormed(ToObject(KSort(fs)))
    ensures Sorted(Encode(ToObject(KSort(fs))))
  {
    KSortSorts(fs);
    var ss := KSort(fs);
    var o := ToObject(ss);
    forall i | 0 <= i < |ss| ensures NulFree(o.props[i].0) && WellFormed(o.props[i].1) && Sorted(Encode(o.props[i].1)) {
      var j := FromSorted(fs, i);
    }
    forall i, j | 0 <= i < j < |ss| ensures o.props[i].0 != o.props[j].0 {
      LexTotal(o.props[i].0, o.props[j].0);
    }
    assert Distinct(o.props);
  }

  /** Sorting fields keeps what they mean as an object. */
  lemma {:induction false} SortedMeaning(fs: seq<(Key, Value)>, gs: seq<(string, Value)>)
    requires |fs| == |gs| && DistinctTexts(fs) && WellFormed(Obj(gs)) && WellFormed(ToObject(KSort(fs)))
    requires forall i ::
               0 <= i < |fs| ==> KeyText(fs[i].0) == gs[i].0 && WellFormed(fs[i].1) && Says(fs[i].1) == Says(gs[i].1)
    ensures Says(ToObject(KSort(fs))) == Says(Obj(gs))
  {
    var ss := KSort(fs);
    EncodeWellFormed(ToObject(ss));
    EncodeWellFormed(Obj(gs));
    var a, b := Encode(ToObject(ss)), Encode(Obj(gs));
    forall i | 0 <= i < |a.fields| ensures Carried(b, a, i) {
      var j := FromSorted(fs, i);
      CarriedBy(b, a, j, i, fs[j].1, gs[j].1);
    }
    forall j | 0 <= j < |b.fields| ensures Carried(a, b, j) {
      var i := IntoSorted(fs, j);
      CarriedBy(a, b, i, j, gs[j].1, fs[j].1);
    }
    SameMembers(a, b);
  }

  lemma {:induction false} CarriedBy(v: Wire, w: Wire, j: nat, i: nat, x: Value, y: Value)
    requires v.WObject? && w.WObject? && WellFormedWire(v) && WellFormedWire(w) && j < |v.fields| && i < |w.fields|
    requires v.fields[j].0 == w.fields[i].0
    requires WellFormed(x) && WellFormed(y) && Says(x) == Says(y)
    requires w.fields[i].1 == Encode(x) && v.fields[j].1 == Encode(y)
    ensures Carried(v, w, i)
  {
  }

  /** The canonical form of a value means the same and is in byte order. */
  predicate Kept(v: Value)
    requires WellFormed(v)
  {
    WellFormed(Canonical(v)) && Says(Canonical(v)) == Says(v) && Sorted(Encode(Canonical(v)))
  }

  lemma {:induction false} CanonicalList(fs: seq<(Key, Value)>)
    requires WellFormed(Arr(fs)) && IsList(fs)
    requires forall i :: 0 <= i < |fs| ==> Kept(fs[i].1)
    ensures Kept(Arr(fs))
  {
    var mapped := seq(|fs|, i requires 0 <= i < |fs| => (fs[i].0, Canonical(fs[i].1)));
    assert IsList(mapped);
    EncodeWellFormed(Arr(fs));
    EncodeWellFormed(Arr(mapped));
    assert Mean(Encode(Arr(mapped))).items == Mean(Encode(Arr(fs))).items;
  }

  lemma {:induction false} CanonicalFields(fs: seq<(Key, Value)>)
    requires WellFormed(Arr(fs)) && !IsList(fs)
    requires forall i :: 0 <= i < |fs| ==> Kept(fs[i].1)
    ensures Kept(Arr(fs))
  {
    var mapped := seq(|fs|, i requires 0 <= i < |fs| => (fs[i].0, Canonical(fs[i].1)));
    var gs := seq(|fs|, i requires 0 <= i < |fs| => (KeyText(fs[i].0), fs[i].1));
    assert DistinctTexts(mapped);
    SortedFields(mapped);
    SortedMeaning(mapped, gs);
    assert Encode(Obj(gs)).fields == Encode(Arr(fs)).fields;
  }

  lemma {:induction false} CanonicalProperties(ps: seq<(string, Value)>)
    requires WellFormed(Obj(ps))
    requires forall i :: 0 <= i < |ps| ==> Kept(ps[i].1)
    ensures Kept(Obj(ps))
  {
    var mapped := seq(|ps|, i requires 0 <= i < |ps| => (ToKey(ps[i].0), Canonical(ps[i].1)));
    forall i | 0 <= i < |ps| ensures KeyText(mapped[i].0) == ps[i].0 {
      KeyRoundTrip(ps[i].0);
    }
    SortedFields(mapped);
    SortedMeaning(mapped, ps);
  }

  /** Canonicalising keeps the meaning and puts every object in byte order. */
  lemma {:induction false} CanonicalForm(v: Value)
    requires WellFormed(v)
    ensures WellFormed(Canonical(v))
    ensures Says(Canonical(v)) == Says(v)
    ensures Sorted(Encode(Canonical(v)))
  {
    match v
    case Atom(_) =>
    case Arr(fs) =>
      forall i | 0 <= i < |fs| ensures Kept(fs[i].1) {
        CanonicalForm(fs[i].1);
      }
      if IsList(fs) {
        CanonicalList(fs);
      } else {
        CanonicalFields(fs);
      }
    case Obj(ps) =>
      forall i | 0 <= i < |ps| ensures Kept(ps[i].1) {
        CanonicalForm(ps[i].1);
      }
      CanonicalProperties(ps);
  }

  /** Strictly ascending lists with the same elements are the same list. */
  lemma {:induction false} AscendingUnique(a: seq<string>, b: seq<string>)
    requires forall i, j :: 0 <= i < j < |a| ==> LexLess(a[i], a[j])
    requires forall i, j :: 0 <= i < j < |b| ==> LexLess(b[i], b[j])
    requires forall s :: s in a <==> s in b
    ensures a == b
  {
    if a != [] { assert a[0] in b; }
    if b != [] { assert b[0] in a; }
    if a != [] && b != [] {
      LexTotal(a[0], b[0]);
      forall s ensures s in a[1..] <==> s in b[1..] {
        LexTotal(a[0], a[0]);
        assert s in a <==> s == a[0] || s in a[1..];
        assert s in b <==> s == b[0] || s in b[1..];
      }
      AscendingUnique(a[1..], b[1..]);
    }
  }

  /** A meaning has one canonical text. */
  lemma {:induction false} SortedUnique(a: Wire, b: Wire)
    requires WellFormedWire(a) && WellFormedWire(b)
    requires Sorted(a) && Sorted(b) && Mean(a) == Mean(b)
    ensures a == b
  {
    match a
    case WAtom(_) =>
    case WList(xs) =>
      var m := Mean(a).items;
      assert |b.items| == |m|;
      forall i | 0 <= i < |xs| ensures xs[i] == b.items[i] {
        assert m[i] == Mean(xs[i]) && m[i] == Mean(b.items[i]);
        SortedUnique(xs[i], b.items[i]);
      }
    case WObject(fs) =>
      var gs := b.fields;
      var ka := seq(|fs|, i requires 0 <= i < |fs| => fs[i].0);
      var kb := seq(|gs|, i requires 0 <= i < |gs| => gs[i].0);
      NamesIncluded(a, b, ka, kb);
      NamesIncluded(b, a, kb, ka);
      AscendingUnique(ka, kb);
      forall i | 0 <= i < |fs| ensures fs[i] == gs[i] {
        assert fs[i].0 == ka[i] == kb[i] == gs[i].0;
        MemberAt(a, i);
        MemberAt(b, i);
        SortedUnique(fs[i].1, gs[i].1);
      }
  }

  lemma {:induction false} NamesIncluded(a: Wire, b: Wire, ka: seq<string>, kb: seq<string>)
    requires a.WObject? && b.WObject? && WellFormedWire(a) && WellFormedWire(b) && Mean(a) == Mean(b)
    requires |ka| == |a.fields| && forall i :: 0 <= i < |ka| ==> ka[i] == a.fields[i].0
    requires |kb| == |b.fields| && forall i :: 0 <= i < |kb| ==> kb[i] == b.fields[i].0
    ensures forall s :: s in ka ==> s in kb
  {
    forall s | s in ka ensures s in kb {
      var i :| 0 <= i < |ka| && ka[i] == s;
      MemberAt(a, i);
      var j := MemberOf(b, s);
      assert kb[j] == s;
    }
  }

  /** Two values encode identically after canonical exactly when they mean the same JSON. */
  lemma {:induction false} CanonicalDecidesEquality(x: Value, y: Value)
    requires WellFormed(x) && WellFormed(y)
    ensures Encode(Canonical(x)) == Encode(Canonical(y)) <==> Says(x) == Says(y)
  {
    CanonicalForm(x);
    CanonicalForm(y);
    EncodeWellFormed(Canonical(x));
    EncodeWellFormed(Canonical(y));
    if Says(x) == Says(y) {
      SortedUnique(Encode(Canonical(x)), Encode(Canonical(y)));
    }
  }
}
