/** Character and number text used across the server: decimal digits, Go's
    `%d` / `%03d` formatting, `strconv.Atoi`, Go's truncating integer division,
    and small string helpers (`strings.Join`, `strings.HasPrefix`,
    `strings.Contains`, ASCII lower-casing). */
module Text {
  import opened Wrappers

  const MinInt64: int := -0x8000_0000_0000_0000
  const MaxInt64: int := 0x7fff_ffff_ffff_ffff

  predicate IsInt64(i: int) { MinInt64 <= i <= MaxInt64 }

  predicate IsDigit(c: char) { '0' <= c <= '9' }

  predicate AllDigits(s: string) { forall i | 0 <= i < |s| :: IsDigit(s[i]) }

  function DigitValue(c: char): (d: nat)
    requires IsDigit(c)
    ensures d < 10
  { (c as int) - ('0' as int) }

  function DigitChar(d: nat): (c: char)
    requires d < 10
    ensures IsDigit(c) && DigitValue(c) == d
  { (('0' as int) + d) as char }

  /** The value of a string of decimal digits, most significant first. */
  function DecimalValue(s: string): nat
    requires AllDigits(s)
  {
    if s == [] then 0 else DecimalValue(s[..|s| - 1]) * 10 + DigitValue(s[|s| - 1])
  }

  /** Go's `%d` of a non-negative integer: shortest decimal, no leading zeros. */
  function NatToDecimal(n: nat): (s: string)
    ensures |s| >= 1 && AllDigits(s)
    ensures s[0] == '0' ==> n == 0
  {
    if n < 10 then [DigitChar(n)] else NatToDecimal(n / 10) + [DigitChar(n % 10)]
  }

  /** Go's `%d` of any integer. */
  function IntToDecimal(i: int): (s: string)
    ensures |s| >= 1
    ensures i < 0 <==> s[0] == '-'
  {
    if i < 0 then "-" + NatToDecimal(-i) else NatToDecimal(i)
  }

  lemma {:induction false} DecimalRoundTrip(n: nat)
    ensures DecimalValue(NatToDecimal(n)) == n
  {
    if n >= 10 {
      DecimalRoundTrip(n / 10);
      var s := NatToDecimal(n);
      assert s[..|s| - 1] == NatToDecimal(n / 10);
    }
  }

  function Zeros(k: nat): (s: string)
    ensures |s| == k && forall i | 0 <= i < k :: s[i] == '0'
  {
    if k == 0 then "" else "0" + Zeros(k - 1)
  }

  /** Go's `%03d` of a non-negative integer: at least three digits, padded with zeros on the left. */
  function Pad3(n: nat): (s: string)
    ensures |s| >= 3 && AllDigits(s)
    ensures |s| > 3 ==> s == NatToDecimal(n)
  {
    var d := NatToDecimal(n);
    if |d| < 3 then Zeros(3 - |d|) + d else d
  }

  lemma {:induction false} LeadingZerosValue(k: nat, s: string)
    requires AllDigits(s)
    ensures AllDigits(Zeros(k) + s) && DecimalValue(Zeros(k) + s) == DecimalValue(s)
  {
    if s != [] {
      var t := Zeros(k) + s;
      assert t[..|t| - 1] == Zeros(k) + s[..|s| - 1];
      LeadingZerosValue(k, s[..|s| - 1]);
    } else {
      ZerosValue(k);
      assert Zeros(k) + s == Zeros(k);
    }
  }

  lemma {:induction false} ZerosValue(k: nat)
    ensures AllDigits(Zeros(k)) && DecimalValue(Zeros(k)) == 0
  {
    if k > 0 {
      var z := Zeros(k);
      assert z[..k - 1] == Zeros(k - 1);
      ZerosValue(k - 1);
    }
  }

  /** Reading a `%03d` text back gives the number that was printed. */
  lemma Pad3RoundTrip(n: nat)
    ensures DecimalValue(Pad3(n)) == n
  {
    var d := NatToDecimal(n);
    DecimalRoundTrip(n);
    if |d| < 3 { LeadingZerosValue(3 - |d|, d); }
  }

  /** Go's `strconv.Atoi`: an optional sign followed by one or more ASCII
      digits whose value fits in 64 bits; anything else is an error. */
  function Atoi(s: string): (r: Option<int>)
    ensures r.Some? ==> IsInt64(r.value)
    ensures r.Some? ==> |s| >= 1 && (AllDigits(s) || ((s[0] == '-' || s[0] == '+') && AllDigits(s[1..])))
    ensures s != "" && AllDigits(s) && IsInt64(DecimalValue(s)) ==> r == Some(DecimalValue(s))
    ensures |s| >= 2 && s[0] == '-' && AllDigits(s[1..]) && IsInt64(-(DecimalValue(s[1..]) as int)) ==> r == Some(-(DecimalValue(s[1..]) as int))
  {
    if s == "" then None
    else
      var signed := s[0] == '-' || s[0] == '+';
      var body := if signed then s[1..] else s;
      if body == "" || !AllDigits(body) then None
      else
        var mag: int := DecimalValue(body);
        var v := if s[0] == '-' then -mag else mag;
        if IsInt64(v) then Some(v) else None
  }

  /** An unsigned digit string within range reads as its value. */
  lemma AtoiOfDigits(d: string)
    requires d != [] && AllDigits(d) && IsInt64(DecimalValue(d))
    ensures Atoi(d) == Some(DecimalValue(d))
  {
    assert IsDigit(d[0]);
  }

  /** A minus sign and a digit string within range read as the negated value. */
  lemma AtoiOfNegative(d: string)
    requires d != [] && AllDigits(d) && IsInt64(-(DecimalValue(d) as int))
    ensures Atoi("-" + d) == Some(-(DecimalValue(d) as int))
  {
    var s := "-" + d;
    assert s[0] == '-' && s[1..] == d;
  }

  /** `strconv.Atoi` reads back every 64-bit integer printed with `%d`. */
  lemma AtoiRoundTrip(i: int)
    requires IsInt64(i)
    ensures Atoi(IntToDecimal(i)) == Some(i)
  {
    if i < 0 {
      DecimalRoundTrip(-i);
      AtoiOfNegative(NatToDecimal(-i));
    } else {
      DecimalRoundTrip(i);
      AtoiOfDigits(NatToDecimal(i));
    }
  }

  /** The magnitude of an integer. */
  function Abs(x: int): (n: nat)
    ensures n == x || n == -x
  {
    if x >= 0 then x else -x
  }

  /** A quotient of non-negative numbers is non-negative. */
  lemma DivNonNeg(n: int, m: int)
    requires n >= 0 && m > 0
    ensures n / m >= 0
  {
  }

  /** Go's `/` on integers: truncated toward zero, so the magnitude is the
      quotient of the magnitudes and a non-zero result has the sign of the
      dividend times the divisor. */
  function GoQuo(a: int, b: int): (q: int)
    requires b != 0
    ensures Abs(q) == Abs(a) / Abs(b)
    ensures q > 0 ==> (a > 0 <==> b > 0)
    ensures q < 0 ==> (a > 0 <==> b < 0)
  {
    var k: int := Abs(a) / Abs(b);
    DivNonNeg(Abs(a), Abs(b));
    if a == 0 then 0 else if (a > 0) == (b > 0) then k else -k
  }

  /** Go's `%` on integers: the remainder of the magnitudes, with the sign of the dividend. */
  function GoRem(a: int, b: int): (r: int)
    requires b != 0
    ensures 0 <= a ==> 0 <= r < Abs(b)
    ensures a < 0 ==> r <= 0 && -r < Abs(b)
  {
    var s: int := Abs(a) % Abs(b);
    if a >= 0 then s else -s
  }

  lemma NegTimes(x: int, y: int)
    ensures (-x) * y == -(x * y) && x * (-y) == -(x * y)
  {
  }

  /** The quotient and the remainder recompose the dividend. */
  lemma GoDivision(a: int, b: int)
    requires b != 0
    ensures a == GoQuo(a, b) * b + GoRem(a, b)
    ensures 0 <= a ==> 0 <= GoRem(a, b) < (if b > 0 then b else -b)
    ensures a < 0 ==> -(if b > 0 then b else -b) < GoRem(a, b) <= 0
  {
    var n: int, m: int := Abs(a), Abs(b);
    var k: int, s: int := n / m, n % m;
    assert n == k * m + s;
    var q := GoQuo(a, b);
    if a == 0 {
      assert k == 0 && s == 0;
    } else if a > 0 && b > 0 {
      assert q == k && b == m && a == n;
    } else if a > 0 {
      assert q == -k && b == -m && a == n;
      NegTimes(k, m);
      NegTimes(-k, m);
    } else if b > 0 {
      assert q == -k && b == m && a == -n;
      NegTimes(k, m);
    } else {
      assert q == k && b == -m && a == -n;
      NegTimes(k, m);
    }
  }

  /** The digits of `s` in order, every other character removed (a global
      `regexp_replace(s, '[^0-9]', '', 'g')`). */
  function KeepDigits(s: string): (r: string)
    ensures AllDigits(r) && |r| <= |s|
    ensures AllDigits(s) ==> r == s
  {
    if s == [] then ""
    else if IsDigit(s[|s| - 1]) then KeepDigits(s[..|s| - 1]) + [s[|s| - 1]]
    else KeepDigits(s[..|s| - 1])
  }

  lemma {:induction false} KeepDigitsAppend(a: string, b: string)
    ensures KeepDigits(a + b) == KeepDigits(a) + KeepDigits(b)
  {
    if b != [] {
      assert (a + b)[..|a + b| - 1] == a + b[..|b| - 1];
      KeepDigitsAppend(a, b[..|b| - 1]);
    } else {
      assert a + b == a;
    }
  }

  /** `strings.HasPrefix`. */
  predicate HasPrefix(s: string, prefix: string) { |prefix| <= |s| && s[..|prefix|] == prefix }

  /** `strings.Contains`. */
  predicate Contains(s: string, sub: string) {
    exists i | 0 <= i <= |s| :: HasPrefix(s[i..], sub)
  }

  /** `strings.Join`. */
  function Join(parts: seq<string>, sep: string): (r: string)
    ensures parts == [] ==> r == ""
    ensures |parts| == 1 ==> r == parts[0]
  {
    if parts == [] then ""
    else if |parts| == 1 then parts[0]
    else Join(parts[..|parts| - 1], sep) + sep + parts[|parts| - 1]
  }

  /** Lower-casing of the letters A-Z, leaving every other character alone. */
  function AsciiLower(s: string): (r: string)
    ensures |r| == |s|
    ensures forall i | 0 <= i < |s| :: r[i] == (if 'A' <= s[i] <= 'Z' then (s[i] as int + 32) as char else s[i])
  {
    if s == [] then "" else AsciiLower(s[..|s| - 1]) + [if 'A' <= s[|s| - 1] <= 'Z' then (s[|s| - 1] as int + 32) as char else s[|s| - 1]]
  }

  /** Go's `<` on strings: lexicographic order of the characters, a proper prefix first. */
  predicate StringLess(a: string, b: string) {
    if a == [] then b != []
    else if b == [] then false
    else if a[0] != b[0] then a[0] < b[0]
    else StringLess(a[1..], b[1..])
  }

  lemma {:induction false} StringLessIrreflexive(a: string)
    ensures !StringLess(a, a)
  {
    if a != [] { StringLessIrreflexive(a[1..]); }
  }

  lemma {:induction false} StringLessAsymmetric(a: string, b: string)
    ensures StringLess(a, b) ==> !StringLess(b, a)
  {
    if a != [] && b != [] && a[0] == b[0] { StringLessAsymmetric(a[1..], b[1..]); }
  }

  lemma {:induction false} StringLessTransitive(a: string, b: string, c: string)
    requires StringLess(a, b) && StringLess(b, c)
    ensures StringLess(a, c)
  {
    if a != [] && a[0] == b[0] && b[0] == c[0] { StringLessTransitive(a[1..], b[1..], c[1..]); }
  }

  /** Two different strings are ordered one way or the other. */
  lemma {:induction false} StringLessTotal(a: string, b: string)
    ensures a == b || StringLess(a, b) || StringLess(b, a)
  {
    if a != [] && b != [] && a[0] == b[0] {
      StringLessTotal(a[1..], b[1..]);
      if a[1..] == b[1..] {
        assert a == [a[0]] + a[1..] && b == [b[0]] + b[1..];
      }
    }
  }
}
