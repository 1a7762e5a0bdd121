/** Decimal text as Redis and PHP write it: no sign for naturals, no leading zero. */
module Decimal {

  predicate IsDigit(c: char) {
    '0' <= c <= '9'
  }

  predicate AllDigits(s: string) {
    forall i :: 0 <= i < |s| ==> IsDigit(s[i])
  }

  /** The text of a natural number: digits, without a leading zero. */
  predicate Canonical(s: string) {
    |s| > 0 && AllDigits(s) && (|s| > 1 ==> s[0] != '0')
  }

  function Value(s: string): nat
    requires AllDigits(s)
  {
    if s == "" then 0 else 10 * Value(s[..|s| - 1]) + (s[|s| - 1] as int - '0' as int)
  }

  function Text(n: nat): (s: string)
    ensures Canonical(s) && Value(s) == n
  {
    if n < 10 then
      [('0' as int + n) as char]
    else
      var s := Text(n / 10);
      var t := s + [('0' as int + n % 10) as char];
      assert t[..|t| - 1] == s;
      assert t[0] == s[0];
      Leading(s);
      t
  }

  lemma Leading(s: string)
    requires Canonical(s) && Value(s) > 0
    ensures s[0] != '0'
  {
    if |s| == 1 {
      assert s[..0] == "";
      assert Value(s) == s[0] as int - '0' as int;
    }
  }

  lemma {:induction false} LastDigit(v: nat, d: nat)
    requires d < 10
    ensures (10 * v + d) / 10 == v && (10 * v + d) % 10 == d
  {
  }

  /** Text is the only canonical spelling of its value. */
  lemma {:induction false} TextOfValue(s: string)
    requires Canonical(s)
    ensures Text(Value(s)) == s
  {
    var front, digit := s[..|s| - 1], s[|s| - 1] as int - '0' as int;
    if |s| == 1 {
      assert front == "";
    } else {
      assert Canonical(front);
      LowerBound(front);
      TextOfValue(front);
      LastDigit(Value(front), digit);
      assert Text(10 * Value(front) + digit) == Text(Value(front)) + [('0' as int + digit) as char];
      assert s == front + [s[|s| - 1]];
    }
  }

  function Pow10(n: nat): nat {
    if n == 0 then 1 else 10 * Pow10(n - 1)
  }

  lemma {:induction false} UpperBound(s: string)
    requires AllDigits(s)
    ensures Value(s) < Pow10(|s|)
  {
    if s != "" {
      UpperBound(s[..|s| - 1]);
    }
  }

  lemma {:induction false} LowerBound(s: string)
    requires |s| > 0 && AllDigits(s) && s[0] != '0'
    ensures Pow10(|s| - 1) <= Value(s)
    ensures 0 < Value(s)
  {
    if |s| == 1 {
      assert s[..0] == "";
    } else {
      LowerBound(s[..|s| - 1]);
    }
  }

  lemma {:induction false} Pow10Monotone(a: nat, b: nat)
    requires a <= b
    ensures Pow10(a) <= Pow10(b)
  {
    if a < b {
      Pow10Monotone(a, b - 1);
    }
  }

  /** Byte order of strings, the order of Lua's `<` and of PHP's SORT_STRING. */
  predicate LexLess(a: string, b: string) {
    b != "" && (a == "" || a[0] < b[0] || (a[0] == b[0] && LexLess(a[1..], b[1..])))
  }

  lemma {:induction false} LexTotal(a: string, b: string)
    ensures LexLess(a, b) || a == b || LexLess(b, a)
    ensures !(LexLess(a, b) && LexLess(b, a))
    ensures !LexLess(a, a)
  {
    if a != "" && b != "" {
      LexTotal(a[1..], b[1..]);
      assert a == [a[0]] + a[1..] && b == [b[0]] + b[1..];
    }
    if a != "" {
      LexTotal(a[1..], a[1..]);
    }
  }

  lemma {:induction false} LexTransitive(a: string, b: string, c: string)
    requires LexLess(a, b) && LexLess(b, c)
    ensures LexLess(a, c)
  {
    if a != "" && a[0] == b[0] == c[0] {
      LexTransitive(a[1..], b[1..], c[1..]);
    }
  }

  /** For strings of one length the last character decides only between equal fronts. */
  lemma {:induction false} LexSnoc(a: string, b: string)
    requires |a| == |b| > 0
    ensures var n := |a| - 1;
            LexLess(a, b) <==> LexLess(a[..n], b[..n]) || (a[..n] == b[..n] && a[n] < b[n])
  {
    var n := |a| - 1;
    if n > 0 {
      LexSnoc(a[1..], b[1..]);
      assert a[1..][..n - 1] == a[..n][1..] && b[1..][..n - 1] == b[..n][1..];
      assert a[..n] == [a[0]] + a[..n][1..] && b[..n] == [b[0]] + b[..n][1..];
    }
  }

  lemma {:induction false} LexIsNumeric(a: string, b: string)
    requires |a| == |b| && AllDigits(a) && AllDigits(b)
    ensures LexLess(a, b) <==> Value(a) < Value(b)
    decreases |a|
  {
    if a != "" {
      var n := |a| - 1;
      LexSnoc(a, b);
      LexIsNumeric(a[..n], b[..n]);
      LexIsNumeric(b[..n], a[..n]);
      LexTotal(a[..n], b[..n]);
    }
  }

  /** Compare by length first and by bytes second, as the retention script does. */
  predicate Shorter(a: string, b: string) {
    if |a| != |b| then |a| < |b| else LexLess(a, b)
  }

  lemma ShorterIsNumeric(a: string, b: string)
    requires Canonical(a) && Canonical(b)
    ensures Shorter(a, b) <==> Value(a) < Value(b)
  {
    if |a| == |b| {
      LexIsNumeric(a, b);
    } else if |a| < |b| {
      UpperBound(a);
      LowerBound(b);
      Pow10Monotone(|a|, |b| - 1);
    } else {
      UpperBound(b);
      LowerBound(a);
      Pow10Monotone(|b|, |a| - 1);
    }
  }

  /** Text of an integer, with a minus sign for negative ones. */
  function IntText(n: int): string {
    if n < 0 then "-" + Text(-n) else Text(n)
  }

  /** The integer a string spells canonically, if it does: "-0", "+1" and "01" do not. */
  predicate IsIntText(s: string) {
    Canonical(s) || (|s| > 1 && s[0] == '-' && Canonical(s[1..]) && s[1] != '0')
  }

  function IntValue(s: string): int
    requires IsIntText(s)
  {
    if s[0] == '-' then -(Value(s[1..]) as int) else Value(s)
  }

  lemma IntTextOfValue(s: string)
    requires IsIntText(s)
    ensures IntText(IntValue(s)) == s
  {
    if s[0] == '-' {
      TextOfValue(s[1..]);
      LowerBound(s[1..]);
      assert s == "-" + s[1..];
    } else {
      TextOfValue(s);
    }
  }

  lemma IntValueOfText(n: int)
    ensures IsIntText(IntText(n)) && IntValue(IntText(n)) == n
  {
    if n < 0 {
      var s := Text(-n);
      assert ("-" + s)[1..] == s;
      Leading(s);
    } else {
      assert IsDigit(Text(n)[0]);
    }
  }
}
