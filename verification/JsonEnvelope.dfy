/**
 * What rests on the JSON layer: command fingerprints and stored replies of
 * src/Commands/CommandProcessor.php, and the envelopes the outbox relays.
 */
module JsonEnvelope {
  import opened Json
  import opened JsonCanonical
  import opened Options

  // ---------------------------------------------------------- fingerprint

  /** The payloads CommandProcessor::valid admits: a stdClass, or an array that is empty or no list. */
  predicate ValidPayload(p: Value) {
    p.Obj? || (p.Arr? && (p.fields == [] || !IsList(p.fields)))
  }

  /** The root is always an object on the wire. */
  function PayloadObject(p: Value): Value
    requires p.Arr? || p.Obj?
  {
    if p.Arr? then ToObject(p.fields) else p
  }

  /** The historical spelling: an empty root is fingerprinted as the empty list. */
  function FingerprintPayload(p: Value): Value
    requires p.Arr? || p.Obj?
  {
    if (if p.Arr? then p.fields == [] else p.props == []) then Arr([]) else PayloadObject(p)
  }

  function FingerprintInput(command: string, p: Value): Value
    requires p.Arr? || p.Obj?
  {
    Arr([(StrKey("command"), Atom(Str(command))), (StrKey("payload"), FingerprintPayload(p))])
  }

  /** The text that is hashed; the hash itself is taken to be injective. */
  function Fingerprint(command: string, p: Value): Wire
    requires p.Arr? || p.Obj?
  {
    Encode(Canonical(FingerprintInput(command, p)))
  }

  lemma {:induction false} ObjectWellFormed(fs: seq<(Key, Value)>)
    requires WellFormed(Arr(fs))
    ensures WellFormed(ToObject(fs)) && WellFormed(Object(fs))
    ensures !IsList(fs) ==> Encode(ToObject(fs)) == Encode(Arr(fs))
  {
    DistinctNames(fs);
  }

  lemma {:induction false} DistinctNames(fs: seq<(Key, Value)>)
    requires WellFormed(Arr(fs))
    ensures var o := ToObject(fs); forall i, j :: 0 <= i < j < |fs| ==> o.props[i].0 != o.props[j].0
  {
    var o := ToObject(fs);
    forall i, j | 0 <= i < j < |fs| ensures o.props[i].0 != o.props[j].0 {
      assert fs[i].0 == ToKey(o.props[i].0) && fs[j].0 == ToKey(o.props[j].0);
    }
  }

  lemma {:induction false} PayloadMeaning(p: Value)
    requires ValidPayload(p) && WellFormed(p)
    ensures WellFormed(PayloadObject(p)) && WellFormed(FingerprintPayload(p)) && Says(PayloadObject(p)).MObject?
    ensures Says(FingerprintPayload(p)) ==
              if Says(PayloadObject(p)).members == map[] then MList([]) else Says(PayloadObject(p))
  {
    if p.Arr? {
      ObjectWellFormed(p.fields);
    }
    var o := Encode(PayloadObject(p));
    EncodeWellFormed(PayloadObject(p));
    if o.fields == [] {
      assert if p.Arr? then |p.fields| == 0 else |p.props| == 0;
      assert Mean(o).members == map[];
      assert Encode(Arr([])).items == [];
      assert Mean(WList([])).items == [];
    } else {
      MemberAt(o, 0);
    }
  }

  lemma {:induction false} PairEncodes(command: string, q: Value)
    ensures Encode(Arr([(StrKey("command"), Atom(Str(command))), (StrKey("payload"), q)]))
         == WObject([("command", WAtom(Str(command))), ("payload", Encode(q))])
  {
    var fs := [(StrKey("command"), Atom(Str(command))), (StrKey("payload"), q)];
    assert !IsList(fs) by { assert fs[0].0 != IntKey(0); }
    var gs := Encode(Arr(fs)).fields;
    var name := Atom(Str(command));
    assert fs[0].1 == name && Encode(name) == WAtom(Str(command));
    assert gs[0] == (KeyText(fs[0].0), Encode(fs[0].1));
    assert gs[1] == (KeyText(fs[1].0), Encode(fs[1].1));
    assert gs == [gs[0], gs[1]];
  }

  lemma {:induction false} PairMeans(x: Wire, y: Wire)
    requires WellFormedWire(WObject([("command", x), ("payload", y)])) && WellFormedWire(x) && WellFormedWire(y)
    ensures Mean(WObject([("command", x), ("payload", y)])).members == map["command" := Mean(x), "payload" := Mean(y)]
  {
    var w := WObject([("command", x), ("payload", y)]);
    MemberAt(w, 0);
    MemberAt(w, 1);
    forall k | k in Mean(w).members ensures k == "command" || k == "payload" {
      var i := MemberOf(w, k);
    }
  }

  lemma {:induction false} FingerprintMeaning(command: string, p: Value)
    requires ValidPayload(p) && WellFormed(p) && WellFormed(FingerprintPayload(p))
    ensures WellFormed(FingerprintInput(command, p)) && Says(FingerprintInput(command, p)).MObject?
    ensures Says(FingerprintInput(command, p)).members ==
              map["command" := MAtom(Str(command)), "payload" := Says(FingerprintPayload(p))]
  {
    var q := FingerprintPayload(p);
    assert ToKey("command") == StrKey("command") && ToKey("payload") == StrKey("payload");
    assert WellFormed(FingerprintInput(command, p));
    EncodeWellFormed(FingerprintInput(command, p));
    EncodeWellFormed(q);
    PairEncodes(command, q);
    PairMeans(WAtom(Str(command)), Encode(q));
  }

  lemma {:induction false} SamePair(c: string, p: Meaning, d: string, q: Meaning)
    ensures MObject(map["command" := MAtom(Str(c)), "payload" := p])
         == MObject(map["command" := MAtom(Str(d)), "payload" := q])
       <==> c == d && p == q
  {
    var m: map<string, Meaning>, n: map<string, Meaning> :=
      map["command" := MAtom(Str(c)), "payload" := p], map["command" := MAtom(Str(d)), "payload" := q];
    assert m["command"] == MAtom(Str(c)) && m["payload"] == p && n["command"] == MAtom(Str(d)) && n["payload"] == q;
  }

  /** Fingerprints coincide exactly for the same command name and the same JSON payload. */
  lemma {:induction false} FingerprintDecidesInput(c: string, p: Value, d: string, q: Value)
    requires ValidPayload(p) && WellFormed(p) && ValidPayload(q) && WellFormed(q)
    ensures WellFormed(PayloadObject(p)) && WellFormed(PayloadObject(q))
    ensures Fingerprint(c, p) == Fingerprint(d, q) <==> c == d && Says(PayloadObject(p)) == Says(PayloadObject(q))
  {
    PayloadMeaning(p);
    PayloadMeaning(q);
    FingerprintMeaning(c, p);
    FingerprintMeaning(d, q);
    CanonicalDecidesEquality(FingerprintInput(c, p), FingerprintInput(d, q));
    SamePair(c, Says(FingerprintPayload(p)), d, Says(FingerprintPayload(q)));
  }

  /** A payload that arrives as an object is admitted, and is fingerprinted as what decoding makes of it. */
  lemma {:induction false} DecodedPayload(w: Wire)
    requires Decodable(w) && w.WObject?
    ensures ValidPayload(Hydrate(w)) && WellFormed(Hydrate(w)) && WellFormedWire(Rounded(w))
    ensures Encode(PayloadObject(Hydrate(w))) == Rounded(w)
  {
    HydrateWellFormed(w);
    RoundTripRounds(w);
    var p := Hydrate(w);
    if p.Arr? {
      var fs := p.fields;
      assert IsList(fs) ==> NumericKeys(fs);
      ObjectWellFormed(fs);
    }
  }

  /**
   * Deliveries have the same fingerprint exactly if they name the same command and their payloads
   * are the same JSON once every number but the integers of 64 bits is rounded to a double.
   */
  lemma {:induction false} WireFingerprints(c: string, x: Wire, d: string, y: Wire)
    requires Decodable(x) && x.WObject? && Decodable(y) && y.WObject?
    ensures ValidPayload(Hydrate(x)) && ValidPayload(Hydrate(y)) && WellFormedWire(Rounded(x))
            && WellFormedWire(Rounded(y))
    ensures Fingerprint(c, Hydrate(x)) == Fingerprint(d, Hydrate(y)) <==> c == d && Mean(Rounded(x)) == Mean(Rounded(y))
  {
    DecodedPayload(x);
    DecodedPayload(y);
    FingerprintDecidesInput(c, Hydrate(x), d, Hydrate(y));
  }

  /** With numbers as json_encode writes them, that is the same JSON. */
  lemma {:induction false} NarrowFingerprints(c: string, x: Wire, d: string, y: Wire)
    requires WellFormedWire(x) && x.WObject? && WellFormedWire(y) && y.WObject?
    ensures ValidPayload(Hydrate(x)) && ValidPayload(Hydrate(y))
    ensures Fingerprint(c, Hydrate(x)) == Fingerprint(d, Hydrate(y)) <==> c == d && Mean(x) == Mean(y)
  {
    WireKept(x);
    WireKept(y);
    RoundTripRounds(x);
    RoundTripRounds(y);
    WireFingerprints(c, x, d, y);
  }

  /** Two payloads with different integers and one fingerprint: the second command is taken for the first. */
  lemma {:induction false} WidePayloadsCollide(command: string)
    ensures var x, y :=
      WObject([("n", WAtom(Int(18446744073709551616)))]), WObject([("n", WAtom(Int(18446744073709551617)))]);
            && x != y && ValidPayload(Hydrate(x)) && ValidPayload(Hydrate(y))
            && Fingerprint(command, Hydrate(x)) == Fingerprint(command, Hydrate(y))
  {
    var a, b := WAtom(Int(18446744073709551616)), WAtom(Int(18446744073709551617));
    var x, y := WObject([("n", a)]), WObject([("n", b)]);
    assert x.fields[0].1 == a && y.fields[0].1 == b;
    assert Spacing(18446744073709551616, 1) == 4096 && Spacing(18446744073709551617, 1) == 4096;
    assert Rounded(a) == Rounded(b);
    assert Rounded(x).fields == Rounded(y).fields;
    WireFingerprints(command, x, command, y);
  }

  // --------------------------------------------------------------- results

  /** Json::result: handler data is a field map, so its numeric-key arrays become objects. */
  function ResultFields(fs: seq<(Key, Value)>): seq<(Key, Value)> {
    seq(|fs|, i requires 0 <= i < |fs| =>
      if fs[i].0 == StrKey("data") && fs[i].1.Arr? then (fs[i].0, Object(fs[i].1.fields)) else fs[i])
  }

  /** The result as the receipt stores it, and as an outbox envelope carries it. */
  function ResultWire(fs: seq<(Key, Value)>): Wire {
    Encode(Arr(ResultFields(fs)))
  }

  lemma {:induction false} ResultWellFormed(fs: seq<(Key, Value)>)
    requires WellFormed(Arr(fs))
    ensures WellFormed(Arr(ResultFields(fs))) && WellFormedWire(ResultWire(fs))
  {
    forall i | 0 <= i < |fs| ensures WellFormed(ResultFields(fs)[i].1) {
      if fs[i].1.Arr? {
        ObjectWellFormed(fs[i].1.fields);
      }
    }
    EncodeWellFormed(Arr(ResultFields(fs)));
  }

  lemma {:induction false} NameOf(k: Key, s: string)
    requires ArrayKey(k) && KeyText(k) == s && ToKey(s).StrKey?
    ensures k == StrKey(s)
  {
  }

  /** A result's data is never a list on the wire. */
  lemma {:induction false} DataIsNoList(fs: seq<(Key, Value)>, i: nat)
    requires WellFormed(Arr(fs)) && i < |fs| && KeyText(fs[i].0) == "data"
    ensures !Encode(ResultFields(fs)[i].1).WList?
  {
    NameOf(fs[i].0, "data");
    if fs[i].1.Arr? {
      assert IsList(fs[i].1.fields) ==> NumericKeys(fs[i].1.fields);
    }
  }

  /** Applying Json::result to a decoded object changes nothing unless its data is a list. */
  lemma {:induction false} ResultOfDecoded(w: Wire)
    requires WellFormedWire(w) && w.WObject? && Hydrate(w).Arr?
    requires forall i :: 0 <= i < |w.fields| && w.fields[i].0 == "data" ==> !w.fields[i].1.WList?
    ensures ResultFields(Hydrate(w).fields) == Hydrate(w).fields
    ensures ResultWire(Hydrate(w).fields) == w
  {
    WireKept(w);
    var hs := Hydrate(w).fields;
    forall i | 0 <= i < |hs| ensures ResultFields(hs)[i] == hs[i] {
      assert hs[i] == (ToKey(w.fields[i].0), Hydrate(w.fields[i].1));
      KeyRoundTrip(w.fields[i].0);
    }
  }

  lemma {:induction false} StoredDataIsNoList(fs: seq<(Key, Value)>, stored: Wire, i: nat)
    requires WellFormed(Arr(fs)) && WellFormedWire(stored) && WellFormedWire(ResultWire(fs))
             && Mean(stored) == Mean(ResultWire(fs))
    requires !IsList(ResultFields(fs)) && stored.WObject? && i < |stored.fields| && stored.fields[i].0 == "data"
    ensures !stored.fields[i].1.WList?
  {
    var w := ResultWire(fs);
    MemberAt(stored, i);
    var j := MemberOf(w, "data");
    assert ResultFields(fs)[j].0 == fs[j].0;
    DataIsNoList(fs, j);
    assert w.fields[j].1 == Encode(ResultFields(fs)[j].1);
  }

  /** A member whose name is no integer makes the decoded object an array. */
  lemma {:induction false} NamedIsArray(w: Wire, k: nat)
    requires w.WObject? && k < |w.fields| && ToKey(w.fields[k].0).StrKey?
    ensures Hydrate(w).Arr?
  {
    var hs := seq(|w.fields|, i requires 0 <= i < |w.fields| => (ToKey(w.fields[i].0), Hydrate(w.fields[i].1)));
    assert hs[k].0.StrKey?;
  }

  /** A text of the meaning of a result with a named field has that field. */
  lemma {:induction false} NamedInStored(fs: seq<(Key, Value)>, named: nat, stored: Wire) returns (k: nat)
    requires WellFormed(Arr(fs)) && named < |fs| && fs[named].0.StrKey?
    requires WellFormedWire(stored) && WellFormedWire(ResultWire(fs)) && Mean(stored) == Mean(ResultWire(fs))
    ensures !IsList(ResultFields(fs)) && stored.WObject?
    ensures k < |stored.fields| && stored.fields[k].0 == fs[named].0.s
  {
    var w := ResultWire(fs);
    assert ResultFields(fs)[named].0 == fs[named].0;
    assert w.fields[named].0 == fs[named].0.s;
    MemberAt(w, named);
    k := MemberOf(stored, fs[named].0.s);
  }

  /**
   * Reply agreement on the wire. Whatever text the database gives back for a stored
   * result, as long as it means the same JSON, the reply built from it is that text.
   */
  lemma {:induction false} StoredReplyKeepsWire(fs: seq<(Key, Value)>, named: nat, stored: Wire)
    requires WellFormed(Arr(fs)) && named < |fs| && fs[named].0.StrKey?
    requires WellFormedWire(stored) && WellFormedWire(ResultWire(fs)) && Mean(stored) == Mean(ResultWire(fs))
    ensures Decode(stored) == Some(Hydrate(stored)) && Hydrate(stored).Arr?
    ensures ResultWire(Hydrate(stored).fields) == stored
  {
    var k := NamedInStored(fs, named, stored);
    assert ArrayKey(fs[named].0);
    NamedIsArray(stored, k);
    InRangeIsDecodable(stored);
    forall i | 0 <= i < |stored.fields| && stored.fields[i].0 == "data" ensures !stored.fields[i].1.WList? {
      StoredDataIsNoList(fs, stored, i);
    }
    ResultOfDecoded(stored);
  }

  // ------------------------------------------------------------- envelopes

  function EnvelopeField(f: (Key, Value)): (Key, Value) {
    if f.0 == StrKey("payload") && f.1.Arr? then (f.0, ToObject(f.1.fields))
    else if f.0 == StrKey("result") && f.1.Arr? then (f.0, Arr(ResultFields(f.1.fields)))
    else f
  }

  /** Json::encodeEnvelope, before json_encode. */
  function EnvelopeFields(fs: seq<(Key, Value)>): seq<(Key, Value)> {
    seq(|fs|, i requires 0 <= i < |fs| => EnvelopeField(fs[i]))
  }

  function EncodeEnvelope(fs: seq<(Key, Value)>): Wire {
    Encode(Arr(EnvelopeFields(fs)))
  }

  /** Json::isEnvelope. */
  predicate IsEnvelope(v: Value) {
    && v.Arr? && !IsList(v.fields)
    && ((exists i :: 0 <= i < |v.fields| && v.fields[i].0 == StrKey("type") &&
          v.fields[i].1 in {Atom(Str("socket.command")), Atom(Str("socket.emit"))}) ==>
          exists i :: 0 <= i < |v.fields| && v.fields[i].0 == StrKey("payload") &&
            (v.fields[i].1.Obj? || (v.fields[i].1.Arr? && !IsList(v.fields[i].1.fields))))
  }

  /** Stored rows of earlier versions spell an empty root payload as a list. */
  function LegacyField(f: (Key, Value), legacyOutbox: bool): (Key, Value) {
    if legacyOutbox && f == (StrKey("payload"), Arr([])) then (f.0, Obj([])) else f
  }

  /** Json::decodeEnvelope; None stands for the JsonException. */
  function DecodeEnvelope(w: Wire, legacyOutbox: bool): Option<seq<(Key, Value)>> {
    match Decode(w)
    case None => None
    case Some(v) =>
      if !v.Arr? then None
      else
        var fs := seq(|v.fields|, i requires 0 <= i < |v.fields| => LegacyField(v.fields[i], legacyOutbox));
        if IsEnvelope(Arr(fs)) then Some(fs) else None
  }

  predicate DataList(w: Wire) {
    w.WObject? && exists i :: 0 <= i < |w.fields| && w.fields[i].0 == "data" && w.fields[i].1.WList?
  }

  /** A list where encodeEnvelope writes an object: the root payload, or the data of the result. */
  predicate ListInObjectPlace(f: (string, Wire)) {
    (f.0 == "payload" && f.1.WList?) || (f.0 == "result" && DataList(f.1))
  }

  lemma {:induction false} MapArray(w: Wire)
    requires WellFormedWire(w) && w.WObject? && Hydrate(w).Arr?
    ensures Encode(ToObject(Hydrate(w).fields)) == w
    ensures !IsList(Hydrate(w).fields)
  {
    WireKept(w);
    var hs := Hydrate(w).fields;
    assert IsList(hs) ==> NumericKeys(hs);
    ObjectWellFormed(hs);
  }

  /** A data list comes back as an object. */
  lemma {:induction false} DataListChanges(w: Wire, i: nat)
    requires WellFormedWire(w) && w.WObject? && Hydrate(w).Arr?
    requires i < |w.fields| && w.fields[i].0 == "data" && w.fields[i].1.WList?
    ensures ResultWire(Hydrate(w).fields) != w
  {
    var hs := Hydrate(w).fields;
    WireKept(w);
    MapArray(w);
    assert hs[i].0 == ToKey("data") == StrKey("data");
    DataIsNoList(hs, i);
    var r := ResultFields(hs);
    assert forall j :: 0 <= j < |hs| ==> r[j].0 == hs[j].0;
    assert !IsList(r);
    assert Encode(Arr(r)).fields[i].1 == Encode(r[i].1);
  }

  lemma {:induction false} ResultRelayed(w: Wire)
    requires WellFormedWire(w) && Hydrate(w).Arr?
    ensures ResultWire(Hydrate(w).fields) == w <==> !DataList(w)
  {
    if w.WList? {
      WireKept(w);
      assert ResultFields(Hydrate(w).fields) == Hydrate(w).fields;
    } else if DataList(w) {
      var i :| 0 <= i < |w.fields| && w.fields[i].0 == "data" && w.fields[i].1.WList?;
      DataListChanges(w, i);
    } else {
      ResultOfDecoded(w);
    }
  }

  lemma {:induction false} FieldRelayed(name: string, x: Wire, legacyOutbox: bool)
    requires WellFormedWire(x)
    ensures var f := EnvelopeField(LegacyField((ToKey(name), Hydrate(x)), legacyOutbox));
            f.0 == ToKey(name) && (Encode(f.1) == x <==> !ListInObjectPlace((name, x)))
  {
    WireKept(x);
    KeyRoundTrip(name);
    if name == "payload" && Hydrate(x).Arr? {
      if x.WObject? {
        MapArray(x);
        assert Hydrate(x) != Arr([]);
      }
    } else if name == "result" && Hydrate(x).Arr? {
      ResultRelayed(x);
    }
  }

  /** What the relay decodes is the hydrated row, but for the legacy spelling. */
  lemma {:induction false} DecodedFields(w: Wire, legacyOutbox: bool)
    requires DecodeEnvelope(w, legacyOutbox).Some?
    ensures Decodable(w) && w.WObject?
    ensures Hydrate(w).Arr? && |Hydrate(w).fields| == |w.fields|
    ensures forall i :: 0 <= i < |w.fields| ==> Hydrate(w).fields[i] == (ToKey(w.fields[i].0), Hydrate(w.fields[i].1))
    ensures var fs := DecodeEnvelope(w, legacyOutbox).value;
            |fs| == |w.fields| && !IsList(fs)
              && forall i :: 0 <= i < |fs| ==> fs[i] == LegacyField(Hydrate(w).fields[i], legacyOutbox)
  {
    var hs, fs := Hydrate(w).fields, DecodeEnvelope(w, legacyOutbox).value;
    assert forall i :: 0 <= i < |hs| ==> fs[i].0 == hs[i].0;
    assert !IsList(hs);
  }

  /** The relay's text, field by field. */
  lemma {:induction false} RelayedFields(w: Wire, legacyOutbox: bool)
    requires DecodeEnvelope(w, legacyOutbox).Some?
    ensures Decodable(w) && w.WObject?
    ensures var e := EncodeEnvelope(DecodeEnvelope(w, legacyOutbox).value);
            && e.WObject? && |e.fields| == |w.fields|
            && forall i :: 0 <= i < |w.fields| ==>
                 && e.fields[i].0 == w.fields[i].0
                 && e.fields[i].1 == Encode(EnvelopeField(LegacyField((ToKey(w.fields[i].0), Hydrate(w.fields[i].1)),
                                                                      legacyOutbox)).1)
  {
    DecodedFields(w, legacyOutbox);
    var fs := DecodeEnvelope(w, legacyOutbox).value;
    var gs := EnvelopeFields(fs);
    assert forall i :: 0 <= i < |fs| ==> gs[i].0 == fs[i].0;
    assert !IsList(gs);
    forall i | 0 <= i < |w.fields| ensures KeyText(gs[i].0) == w.fields[i].0 {
      KeyRoundTrip(w.fields[i].0);
    }
  }

  lemma {:induction false} EnvelopeFieldWellFormed(f: (Key, Value))
    requires WellFormed(f.1)
    ensures WellFormed(EnvelopeField(f).1) && EnvelopeField(f).0 == f.0
  {
    if f.1.Arr? {
      ObjectWellFormed(f.1.fields);
      ResultWellFormed(f.1.fields);
    }
  }

  /** The envelope encoder writes numbers as json_encode does. */
  lemma {:induction false} EnvelopeInRange(fs: seq<(Key, Value)>)
    requires WellFormed(Arr(fs))
    ensures WellFormedWire(EncodeEnvelope(fs))
  {
    var gs := EnvelopeFields(fs);
    forall i | 0 <= i < |gs| ensures gs[i].0 == fs[i].0 && WellFormed(gs[i].1) {
      EnvelopeFieldWellFormed(fs[i]);
    }
    assert Distinct(gs);
    EncodeWellFormed(Arr(gs));
  }

  lemma {:induction false} DecodedWellFormed(w: Wire, legacyOutbox: bool)
    requires DecodeEnvelope(w, legacyOutbox).Some?
    ensures WellFormed(Arr(DecodeEnvelope(w, legacyOutbox).value))
  {
    DecodedFields(w, legacyOutbox);
    HydrateWellFormed(w);
    var hs, fs := Hydrate(w).fields, DecodeEnvelope(w, legacyOutbox).value;
    forall i | 0 <= i < |fs| ensures fs[i].0 == hs[i].0 && WellFormed(fs[i].1) {
      assert fs[i] == LegacyField(hs[i], legacyOutbox);
    }
    assert Distinct(fs);
  }

  lemma {:induction false} RelayOfInRange(w: Wire, legacyOutbox: bool)
    requires DecodeEnvelope(w, legacyOutbox).Some? && WellFormedWire(w)
    ensures w.WObject?
    ensures EncodeEnvelope(DecodeEnvelope(w, legacyOutbox).value) == w <==>
              forall i :: 0 <= i < |w.fields| ==> !ListInObjectPlace(w.fields[i])
  {
    RelayedFields(w, legacyOutbox);
    var e := EncodeEnvelope(DecodeEnvelope(w, legacyOutbox).value);
    forall i | 0 <= i < |w.fields| ensures e.fields[i].1 == w.fields[i].1 <==> !ListInObjectPlace(w.fields[i]) {
      FieldRelayed(w.fields[i].0, w.fields[i].1, legacyOutbox);
    }
    if forall i :: 0 <= i < |w.fields| ==> !ListInObjectPlace(w.fields[i]) {
      assert e.fields == w.fields;
    }
  }

  /**
   * The relay decodes a stored row and encodes it again for the stream. The text on the
   * stream is the stored text exactly when json_encode could have written every number of the
   * row and the row has no list in an object's place.
   */
  lemma {:induction false} RelayKeepsEnvelope(w: Wire, legacyOutbox: bool)
    requires DecodeEnvelope(w, legacyOutbox).Some?
    ensures w.WObject?
    ensures EncodeEnvelope(DecodeEnvelope(w, legacyOutbox).value) == w <==>
              WellFormedWire(w) && forall i :: 0 <= i < |w.fields| ==> !ListInObjectPlace(w.fields[i])
  {
    DecodedWellFormed(w, legacyOutbox);
    EnvelopeInRange(DecodeEnvelope(w, legacyOutbox).value);
    if WellFormedWire(w) {
      RelayOfInRange(w, legacyOutbox);
    } else {
      DecodedFields(w, legacyOutbox);
    }
  }

  /** The type is that of a command or of an emission. */
  predicate IsCommandOrEmit(w: Wire) {
    w.WObject? && exists i ::
      0 <= i < |w.fields| && w.fields[i].0 == "type"
      && w.fields[i].1 in {WAtom(Str("socket.command")), WAtom(Str("socket.emit"))}
  }

  /** An object can stand as the payload; rows of earlier versions spell an empty one as a list. */
  predicate ObjectPayload(w: Wire, legacyOutbox: bool) {
    w.WObject? && exists i ::
      0 <= i < |w.fields| && w.fields[i].0 == "payload"
      && (w.fields[i].1.WObject? || (legacyOutbox && w.fields[i].1 == WList([])))
  }

  /** The object has a name that is no integer key in PHP. */
  predicate NamedObject(w: Wire) {
    w.WObject? && exists i :: 0 <= i < |w.fields| && ToKey(w.fields[i].0).StrKey?
  }

  /**
   * The texts the relay accepts: objects with a name that is no integer key, whose payload is an object
   * if their type is that of a command or of an emission.
   */
  lemma {:induction false} AcceptedIff(w: Wire, legacyOutbox: bool)
    requires Decodable(w)
    ensures DecodeEnvelope(w, legacyOutbox).Some? <==>
              NamedObject(w) && (IsCommandOrEmit(w) ==> ObjectPayload(w, legacyOutbox))
  {
    if NamedObject(w) {
      var k :| 0 <= k < |w.fields| && ToKey(w.fields[k].0).StrKey?;
      NamedIsArray(w, k);
      NamedAccepted(w, legacyOutbox);
    } else if w.WObject? {
      assert NumericKeys(seq(|w.fields|, i requires 0 <= i < |w.fields| =>
                               (ToKey(w.fields[i].0), Hydrate(w.fields[i].1))));
    } else if w.WList? {
      var hs := Hydrate(w).fields;
      var fs := seq(|hs|, i requires 0 <= i < |hs| => LegacyField(hs[i], legacyOutbox));
      assert IsList(fs);
    }
  }

  lemma {:induction false} NamedAccepted(w: Wire, legacyOutbox: bool)
    requires Decodable(w) && w.WObject? && Hydrate(w).Arr? && NamedObject(w)
    ensures DecodeEnvelope(w, legacyOutbox).Some? <==> IsCommandOrEmit(w) ==> ObjectPayload(w, legacyOutbox)
  {
    var hs := Hydrate(w).fields;
    var fs := seq(|hs|, i requires 0 <= i < |hs| => LegacyField(hs[i], legacyOutbox));
    var k :| 0 <= k < |w.fields| && ToKey(w.fields[k].0).StrKey?;
    assert fs[k].0 == ToKey(w.fields[k].0) && !IsList(fs);
    assert forall i ::
        0 <= i < |fs| ==> fs[i] == LegacyField((ToKey(w.fields[i].0), Hydrate(w.fields[i].1)), legacyOutbox);
    TypesSeen(w, fs, legacyOutbox);
    PayloadsSeen(w, fs, legacyOutbox);
    hide Hydrate, Decodable, LegacyField, ToKey, IsCommandOrEmit, ObjectPayload, NamedObject;
    assert DecodeEnvelope(w, legacyOutbox) == if IsEnvelope(Arr(fs)) then Some(fs) else None;
  }

  lemma {:induction false} TypesSeen(w: Wire, fs: seq<(Key, Value)>, legacyOutbox: bool)
    requires w.WObject? && |fs| == |w.fields|
    requires forall i ::
               0 <= i < |fs| ==> fs[i] == LegacyField((ToKey(w.fields[i].0), Hydrate(w.fields[i].1)), legacyOutbox)
    ensures (exists i :: 0 <= i < |fs| && fs[i].0 == StrKey("type") &&
                           fs[i].1 in {Atom(Str("socket.command")), Atom(Str("socket.emit"))}) <==>
              IsCommandOrEmit(w)
  {
    hide ToKey, Hydrate, LegacyField;
    forall i | 0 <= i < |fs|
      ensures fs[i].0 == StrKey("type") && fs[i].1 in {Atom(Str("socket.command")), Atom(Str("socket.emit"))} <==>
                w.fields[i].0 == "type" && w.fields[i].1 in {WAtom(Str("socket.command")), WAtom(Str("socket.emit"))} {
      AcceptedField(w.fields[i].0, w.fields[i].1, legacyOutbox);
    }
  }

  lemma {:induction false} PayloadsSeen(w: Wire, fs: seq<(Key, Value)>, legacyOutbox: bool)
    requires w.WObject? && |fs| == |w.fields|
    requires forall i ::
               0 <= i < |fs| ==> fs[i] == LegacyField((ToKey(w.fields[i].0), Hydrate(w.fields[i].1)), legacyOutbox)
    ensures (exists i :: 0 <= i < |fs| && fs[i].0 == StrKey("payload") &&
                           (fs[i].1.Obj? || (fs[i].1.Arr? && !IsList(fs[i].1.fields)))) <==>
              ObjectPayload(w, legacyOutbox)
  {
    hide ToKey, Hydrate, LegacyField, IsList;
    forall i | 0 <= i < |fs|
      ensures fs[i].0 == StrKey("payload") && (fs[i].1.Obj? || (fs[i].1.Arr? && !IsList(fs[i].1.fields))) <==>
                w.fields[i].0 == "payload" && (w.fields[i].1.WObject? || (legacyOutbox && w.fields[i].1 == WList([]))) {
      AcceptedField(w.fields[i].0, w.fields[i].1, legacyOutbox);
    }
  }

  /** What the envelope check sees of one member. */
  lemma {:induction false} AcceptedField(name: string, x: Wire, legacyOutbox: bool)
    ensures var f := LegacyField((ToKey(name), Hydrate(x)), legacyOutbox);
            && (f.0 == StrKey("type") && f.1 in {Atom(Str("socket.command")), Atom(Str("socket.emit"))} <==>
                  name == "type" && x in {WAtom(Str("socket.command")), WAtom(Str("socket.emit"))})
            && (f.0 == StrKey("payload") && (f.1.Obj? || (f.1.Arr? && !IsList(f.1.fields))) <==>
                  name == "payload" && (x.WObject? || (legacyOutbox && x == WList([]))))
  {
    KeyRoundTrip(name);
    assert ToKey("type") == StrKey("type") && ToKey("payload") == StrKey("payload");
    if x.WObject? && Hydrate(x).Arr? {
      var hs := seq(|x.fields|, i requires 0 <= i < |x.fields| => (ToKey(x.fields[i].0), Hydrate(x.fields[i].1)));
      assert IsList(hs) ==> NumericKeys(hs);
    }
    if x.WList? && x.items != [] {
      assert IsList(Hydrate(x).fields) && |Hydrate(x).fields| > 0;
    }
  }

  /** A row with one field that is neither the type nor the payload is an envelope. */
  lemma {:induction false} LoneField(name: string, x: Wire)
    requires ToKey(name).StrKey? && name != "type" && name != "payload" && Decodable(WObject([(name, x)]))
    ensures DecodeEnvelope(WObject([(name, x)]), false).Some?
  {
    var w := WObject([(name, x)]);
    NamedIsArray(w, 0);
    var hs := Hydrate(w).fields;
    assert |hs| == 1 && hs[0] == (ToKey(name), Hydrate(x));
    var fs := seq(|hs|, i requires 0 <= i < |hs| => LegacyField(hs[i], false));
    assert fs == hs && !IsList(fs);
    assert IsEnvelope(Arr(fs));
  }

  /** A row the relay accepts and does not publish as it stands: its result has a list as data. */
  lemma {:induction false} DataListIsNotRelayed()
    ensures var w := WObject([("result", WObject([("data", WList([]))]))]);
            && DecodeEnvelope(w, false).Some?
            && EncodeEnvelope(DecodeEnvelope(w, false).value) != w
  {
    var data := ("data", WList([]));
    var result := WObject([data]);
    var w := WObject([("result", result)]);
    assert WellFormedWire(WList([])) && WellFormedWire(result) && WellFormedWire(w);
    InRangeIsDecodable(w);
    LoneField("result", result);
    assert result.fields[0] == data && DataList(result);
    assert ListInObjectPlace(w.fields[0]);
    RelayKeepsEnvelope(w, false);
  }

  lemma {:induction false} StoredField(f: (Key, Value))
    requires ArrayKey(f.0) && WellFormed(f.1) && (f.0 == StrKey("result") ==> !f.1.Obj?)
    ensures !ListInObjectPlace((KeyText(f.0), Encode(EnvelopeField(f).1)))
  {
    if KeyText(f.0) == "payload" {
      NameOf(f.0, "payload");
    } else if KeyText(f.0) == "result" {
      NameOf(f.0, "result");
      if f.1.Arr? {
        NoDataList(f.1.fields);
      }
    }
  }

  /** Rows that encodeEnvelope wrote from array results have no such list: the relay publishes them unchanged. */
  lemma {:induction false} StoredEnvelopeRelays(fs: seq<(Key, Value)>, legacyOutbox: bool)
    requires WellFormed(Arr(fs))
    requires forall i :: 0 <= i < |fs| && fs[i].0 == StrKey("result") ==> !fs[i].1.Obj?
    ensures var w := EncodeEnvelope(fs);
            DecodeEnvelope(w, legacyOutbox).Some? ==> EncodeEnvelope(DecodeEnvelope(w, legacyOutbox).value) == w
  {
    var w := EncodeEnvelope(fs);
    EnvelopeInRange(fs);
    if DecodeEnvelope(w, legacyOutbox).Some? {
      RelayKeepsEnvelope(w, legacyOutbox);
      forall i | 0 <= i < |w.fields| ensures !ListInObjectPlace(w.fields[i]) {
        StoredMember(fs, i);
      }
    }
  }

  lemma {:induction false} StoredMember(fs: seq<(Key, Value)>, i: nat)
    requires WellFormed(Arr(fs)) && EncodeEnvelope(fs).WObject? && i < |fs|
    requires fs[i].0 == StrKey("result") ==> !fs[i].1.Obj?
    ensures |EncodeEnvelope(fs).fields| == |fs| && !ListInObjectPlace(EncodeEnvelope(fs).fields[i])
  {
    var w := EncodeEnvelope(fs);
    assert EnvelopeFields(fs)[i] == EnvelopeField(fs[i]);
    assert w.fields[i] == (KeyText(fs[i].0), Encode(EnvelopeField(fs[i]).1));
    StoredField(fs[i]);
  }

  lemma {:induction false} NoDataList(fs: seq<(Key, Value)>)
    requires WellFormed(Arr(fs))
    ensures !DataList(ResultWire(fs))
  {
    var w, r := ResultWire(fs), ResultFields(fs);
    if DataList(w) {
      var i :| 0 <= i < |w.fields| && w.fields[i].0 == "data" && w.fields[i].1.WList?;
      assert r[i].0 == fs[i].0;
      DataIsNoList(fs, i);
    }
  }
}
