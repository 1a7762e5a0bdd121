/** Redis stream ids as text, and the comparison `less` of src/Operations/StreamRetention.php. */
module StreamIds {
  import opened Decimal

  /** The length of the leading run of digits. */
  function DigitRun(s: string): (n: nat)
    ensures n <= |s| && AllDigits(s[..n]) && (n < |s| ==> !IsDigit(s[n]))
  {
    if s == "" || !IsDigit(s[0]) then 0
    else
      var n := 1 + DigitRun(s[1..]);
      assert s[..n] == [s[0]] + s[1..][..n - 1];
      n
  }

  /** What the pattern ^(%d+)%-(%d+)$ captures. */
  function Millis(s: string): string {
    s[..DigitRun(s)]
  }

  function Sequence(s: string): string {
    if DigitRun(s) < |s| then s[DigitRun(s) + 1..] else ""
  }

  /** A stream id in the canonical spelling Redis uses, of any length. */
  predicate IsId(s: string) {
    DigitRun(s) < |s| && s[DigitRun(s)] == '-' && Canonical(Millis(s)) && Canonical(Sequence(s))
  }

  /** The script's comparison: lengths first, then bytes, for each part in turn. */
  predicate Less(a: string, b: string) {
    if |Millis(a)| != |Millis(b)| then |Millis(a)| < |Millis(b)|
    else if Millis(a) != Millis(b) then LexLess(Millis(a), Millis(b))
    else if |Sequence(a)| != |Sequence(b)| then |Sequence(a)| < |Sequence(b)|
    else LexLess(Sequence(a), Sequence(b))
  }

  function Number(s: string): (nat, nat)
    requires IsId(s)
  {
    (Value(Millis(s)), Value(Sequence(s)))
  }

  lemma {:induction false} PartIsNumeric(x: string, y: string)
    requires Canonical(x) && Canonical(y)
    ensures Shorter(x, y) <==> Value(x) < Value(y)
    ensures x == y <==> Value(x) == Value(y)
  {
    ShorterIsNumeric(x, y);
    TextOfValue(x);
    TextOfValue(y);
  }

  lemma {:induction false} IdParts(s: string)
    requires IsId(s)
    ensures s == Millis(s) + "-" + Sequence(s)
  {
  }

  /** `less` is the numeric order of the pair (milliseconds, sequence). */
  lemma {:induction false} LessIsNumeric(a: string, b: string)
    requires IsId(a) && IsId(b)
    ensures Less(a, b) <==> Number(a).0 < Number(b).0 || (Number(a).0 == Number(b).0 && Number(a).1 < Number(b).1)
    ensures a == b <==> Number(a) == Number(b)
  {
    PartIsNumeric(Millis(a), Millis(b));
    PartIsNumeric(Sequence(a), Sequence(b));
    IdParts(a);
    IdParts(b);
  }

  // ------------------------------------------------------ ids as numbers

  /** Redis keeps an id as 64 bits of milliseconds followed by 64 bits of sequence. */
  const SEQUENCES := 0x1_0000_0000_0000_0000

  function Render(id: nat): string {
    Text(id / SEQUENCES) + "-" + Text(id % SEQUENCES)
  }

  lemma {:induction false} RenderParts(id: nat)
    ensures Millis(Render(id)) == Text(id / SEQUENCES) && Sequence(Render(id)) == Text(id % SEQUENCES)
    ensures IsId(Render(id))
  {
    var m, s := Text(id / SEQUENCES), Text(id % SEQUENCES);
    RunStops(m, "-" + s);
    assert m + ("-" + s) == Render(id);
  }

  lemma {:induction false} RunStops(m: string, rest: string)
    requires AllDigits(m) && rest != "" && !IsDigit(rest[0])
    ensures DigitRun(m + rest) == |m|
  {
    if m != "" {
      assert (m + rest)[1..] == m[1..] + rest;
      RunStops(m[1..], rest);
    } else {
      assert m + rest == rest;
    }
  }

  /** Comparing rendered ids is comparing the ids. */
  lemma {:induction false} RenderedOrder(a: nat, b: nat)
    ensures Less(Render(a), Render(b)) <==> a < b
    ensures Render(a) == Render(b) <==> a == b
  {
    RenderParts(a);
    RenderParts(b);
    LessIsNumeric(Render(a), Render(b));
  }
}
