/**
 * src/DTO/Json.php: PHP values against JSON values.
 *
 * A PHP array is an ordered field list whose keys are integers or strings; a
 * string that spells an integer canonically is always stored as that integer.
 * A stdClass has string property names only. A JSON object is an ordered list
 * of named fields on the wire, and an unordered collection in meaning.
 */
module Json {
  import opened Decimal
  import opened Options

  /** A finite double, by its value. */
  datatype Double = Finite(x: real) | NegativeZero

  /**
   * Scalars of PHP and of JSON texts. In a text, `Float` is a number as json_encode writes the
   * double, and `Spelled` any other number with a fraction, an exponent or a negative zero, next to
   * the double it is read as. What json_encode writes for a double is read back as that double.
   */
  datatype Scalar = Null | Bool(b: bool) | Int(n: int) | Float(d: Double) | Spelled(text: string,
                                                                                    d: Double) | Str(s: string)

  datatype Key = IntKey(n: int) | StrKey(s: string)

  datatype Value =
    | Atom(x: Scalar)
    | Arr(fields: seq<(Key, Value)>)
    | Obj(props: seq<(string, Value)>)

  datatype Wire =
    | WAtom(x: Scalar)
    | WList(items: seq<Wire>)
    | WObject(fields: seq<(string, Wire)>)

  /** What a JSON text means: object members have no order (section 1 of RFC 8259). */
  datatype Meaning =
    | MAtom(x: Scalar)
    | MList(items: seq<Meaning>)
    | MObject(members: map<string, Meaning>)

  // ---------------------------------------------------------------- keys

  const MIN_INT := -0x8000_0000_0000_0000
  const MAX_INT := 0x7fff_ffff_ffff_ffff

  /** PHP's conversion of a property name or JSON member name to an array key. */
  function ToKey(s: string): Key {
    if IsIntText(s) && MIN_INT <= IntValue(s) <= MAX_INT then IntKey(IntValue(s)) else StrKey(s)
  }

  function KeyText(k: Key): string {
    match k
    case IntKey(n) => IntText(n)
    case StrKey(s) => s
  }

  /** Keys a PHP array can hold. */
  predicate ArrayKey(k: Key) {
    k == ToKey(KeyText(k))
  }

  lemma KeyRoundTrip(s: string)
    ensures KeyText(ToKey(s)) == s
    ensures ArrayKey(ToKey(s))
  {
    if IsIntText(s) {
      IntTextOfValue(s);
    }
  }

  lemma IndexIsArrayKey(i: nat)
    requires i <= MAX_INT
    ensures ArrayKey(IntKey(i))
  {
    IntValueOfText(i);
  }

  predicate NulFree(s: string) {
    s == "" || s[0] != '\0'
  }

  predicate Distinct<T(==)>(names: seq<(T, Value)>) {
    forall i, j :: 0 <= i < j < |names| ==> names[i].0 != names[j].0
  }

  predicate DistinctNames(names: seq<(string, Wire)>) {
    forall i, j :: 0 <= i < j < |names| ==> names[i].0 != names[j].0
  }

  /** A scalar PHP can hold: its integers have 64 bits. */
  predicate Fits(x: Scalar) {
    !x.Spelled? && (x.Int? ==> MIN_INT <= x.n <= MAX_INT)
  }

  /** Whole doubles below this are written as integers; from here on json_encode uses an exponent. */
  const PLAIN := 100_000_000_000_000_000

  predicate IsPlain(d: Double) {
    d.Finite? && d.x == d.x.Floor as real && -PLAIN < d.x.Floor < PLAIN
  }

  /** A scalar of a JSON text: what would be written as an integer is one. */
  predicate Occurs(x: Scalar) {
    x.Float? ==> !IsPlain(x.d)
  }

  /** One that json_encode writes. */
  predicate Written(x: Scalar) {
    Fits(x) && Occurs(x)
  }

  /** PHP values that can occur: 64-bit integers, array keys normalised, names distinct, no mangled property. */
  predicate WellFormed(v: Value) {
    match v
    case Atom(x) => Fits(x)
    case Arr(fs) =>
      && |fs| <= MAX_INT && Distinct(fs)
      && forall i :: 0 <= i < |fs| ==> ArrayKey(fs[i].0) && NulFree(KeyText(fs[i].0)) && WellFormed(fs[i].1)
    case Obj(ps) =>
      && |ps| <= MAX_INT && Distinct(ps)
      && forall i :: 0 <= i < |ps| ==> NulFree(ps[i].0) && WellFormed(ps[i].1)
  }

  /** JSON values json_decode accepts: names distinct, none starting with NUL. */
  predicate Decodable(w: Wire) {
    match w
    case WAtom(x) => Occurs(x)
    case WList(xs) => |xs| <= MAX_INT && forall i :: 0 <= i < |xs| ==> Decodable(xs[i])
    case WObject(fs) =>
      && |fs| <= MAX_INT && DistinctNames(fs)
      && forall i :: 0 <= i < |fs| ==> NulFree(fs[i].0) && Decodable(fs[i].1)
  }

  /** Those without an integer beyond 64 bits, and with every other number as json_encode writes it. */
  predicate WellFormedWire(w: Wire) {
    match w
    case WAtom(x) => Written(x)
    case WList(xs) => |xs| <= MAX_INT && forall i :: 0 <= i < |xs| ==> WellFormedWire(xs[i])
    case WObject(fs) =>
      && |fs| <= MAX_INT && DistinctNames(fs)
      && forall i :: 0 <= i < |fs| ==> NulFree(fs[i].0) && WellFormedWire(fs[i].1)
  }

  // ------------------------------------------------------- encode, decode

  /** array_is_list. */
  predicate IsList(fs: seq<(Key, Value)>) {
    forall i :: 0 <= i < |fs| ==> fs[i].0 == IntKey(i)
  }

  /** numericKeys: true of the empty array as well. */
  predicate NumericKeys(fs: seq<(Key, Value)>) {
    forall i :: 0 <= i < |fs| ==> fs[i].0.IntKey?
  }

  /** The (object) cast. */
  function ToObject(fs: seq<(Key, Value)>): Value {
    Obj(seq(|fs|, i requires 0 <= i < |fs| => (KeyText(fs[i].0), fs[i].1)))
  }

  /** Json::object on an array. */
  function Object(fs: seq<(Key, Value)>): Value {
    if NumericKeys(fs) then ToObject(fs) else Arr(fs)
  }

  /** json_encode of a scalar: a whole double looks like an integer unless it is large. */
  function EncodeScalar(x: Scalar): Scalar {
    if x.Float? && IsPlain(x.d) then Int(x.d.x.Floor) else x
  }

  /** json_encode, as the tree it writes. */
  function Encode(v: Value): Wire {
    match v
    case Atom(x) => WAtom(EncodeScalar(x))
    case Arr(fs) =>
      if IsList(fs) then
        WList(seq(|fs|, i requires 0 <= i < |fs| => Encode(fs[i].1)))
      else
        WObject(seq(|fs|, i requires 0 <= i < |fs| => (KeyText(fs[i].0), Encode(fs[i].1))))
    case Obj(ps) =>
      WObject(seq(|ps|, i requires 0 <= i < |ps| => (ps[i].0, Encode(ps[i].1))))
  }

  /** The spacing of the doubles around a number: the least doubling of a unit that leaves 53 bits. */
  function Spacing(n: nat, unit: nat): (r: nat)
    requires unit > 0
    ensures r > 0
    decreases n - unit
  {
    if n < 0x20_0000_0000_0000 * unit then unit else Spacing(n, 2 * unit)
  }

  /** The nearest double, ties to even. */
  function Nearest(n: nat): int {
    var unit := Spacing(n, 1);
    var q, r := n / unit, n % unit;
    if 2 * r > unit || (2 * r == unit && q % 2 == 1) then (q + 1) * unit else q * unit
  }

  /** json_decode of a scalar: a number that is no integer of 64 bits becomes a float. */
  function DecodeScalar(x: Scalar): Scalar {
    if Fits(x) then x
    else if x.Spelled? then Float(x.d)
    else Float(Finite((if x.n < 0 then -Nearest(-x.n) else Nearest(x.n)) as real))
  }

  /** Json::hydrate over json_decode into objects. */
  function Hydrate(w: Wire): Value {
    match w
    case WAtom(x) => Atom(DecodeScalar(x))
    case WList(xs) => Arr(seq(|xs|, i requires 0 <= i < |xs| => (IntKey(i), Hydrate(xs[i]))))
    case WObject(fs) => Object(seq(|fs|, i requires 0 <= i < |fs| => (ToKey(fs[i].0), Hydrate(fs[i].1))))
  }

  /** Json::decode: a member name that starts with NUL is refused by json_decode. */
  function Decode(w: Wire): Option<Value> {
    if Decodable(w) then Some(Hydrate(w)) else None
  }

  /** Whatever json_decode yields is a PHP value, its integers in range. */
  lemma {:induction false} HydrateWellFormed(w: Wire)
    requires Decodable(w)
    ensures WellFormed(Hydrate(w))
  {
    match w
    case WAtom(_) =>
    case WList(xs) =>
      forall i | 0 <= i < |xs| ensures WellFormed(Hydrate(xs[i])) && ArrayKey(IntKey(i)) && NulFree(IntText(i)) {
        HydrateWellFormed(xs[i]);
        IndexIsArrayKey(i);
      }
    case WObject(fs) =>
      forall i | 0 <= i < |fs|
        ensures WellFormed(Hydrate(fs[i].1)) && KeyText(ToKey(fs[i].0)) == fs[i].0 && ArrayKey(ToKey(fs[i].0)) {
        HydrateWellFormed(fs[i].1);
        KeyRoundTrip(fs[i].0);
      }
      var hs := seq(|fs|, i requires 0 <= i < |fs| => (ToKey(fs[i].0), Hydrate(fs[i].1)));
      assert Hydrate(w) == Object(hs);
      assert forall i :: 0 <= i < |fs| ==> KeyText(hs[i].0) == fs[i].0;
  }

  lemma {:induction false} InRangeIsDecodable(w: Wire)
    requires WellFormedWire(w)
    ensures Decodable(w)
  {
    match w
    case WAtom(_) =>
    case WList(xs) =>
      forall i | 0 <= i < |xs| ensures Decodable(xs[i]) {
        InRangeIsDecodable(xs[i]);
      }
    case WObject(fs) =>
      forall i | 0 <= i < |fs| ensures Decodable(fs[i].1) {
        InRangeIsDecodable(fs[i].1);
      }
  }

  /**
   * Wire round trip: a JSON value with integers in range and numbers as json_encode writes them is
   * written back as it was, in order.
   */
  lemma {:induction false} WireRoundTrip(w: Wire)
    requires WellFormedWire(w)
    ensures Encode(Hydrate(w)) == w
  {
    match w
    case WAtom(_) =>
    case WList(xs) =>
      forall i | 0 <= i < |xs| ensures Encode(Hydrate(xs[i])) == xs[i] {
        WireRoundTrip(xs[i]);
      }
    case WObject(fs) =>
      forall i | 0 <= i < |fs| ensures Encode(Hydrate(fs[i].1)) == fs[i].1 && KeyText(ToKey(fs[i].0)) == fs[i].0 {
        WireRoundTrip(fs[i].1);
        KeyRoundTrip(fs[i].0);
      }
      var hs := seq(|fs|, i requires 0 <= i < |fs| => (ToKey(fs[i].0), Hydrate(fs[i].1)));
      assert Hydrate(w) == Object(hs);
      assert IsList(hs) ==> NumericKeys(hs);
  }

  /** In range: what json_decode yields is a PHP value and encodes to the same text. */
  lemma {:induction false} WireKept(w: Wire)
    requires WellFormedWire(w)
    ensures Decodable(w) && WellFormed(Hydrate(w)) && Encode(Hydrate(w)) == w
  {
    InRangeIsDecodable(w);
    HydrateWellFormed(w);
    WireRoundTrip(w);
  }
}
