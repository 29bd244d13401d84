/** The category form checks in the admin page's script: the field validators
    run on input (name, prefix, priority), the checks `updateCategory` makes
    before it sends an edit, and the search filter over the category cards.
    The DOM effects of the validators (error text, red border, custom
    validity) are left out; each validator is its verdict. */
module CategoriesJs {
  import opened Wrappers
  import opened Text

  // ---------------------------------------------------------------------------
  // JavaScript strings: whitespace, trim, length.

  /** The characters `String.prototype.trim` removes: ECMAScript WhiteSpace
      (tab, vertical tab, form feed, no-break space, byte order mark and the
      space separators) and LineTerminator. */
  predicate IsJsSpace(c: char) {
    c == '\t' || c == '\n' || c == '\U{B}' || c == '\U{C}' || c == '\r' || c == ' '
    || c == '\U{A0}' || c == '\U{1680}' || ('\U{2000}' <= c <= '\U{200A}')
    || c == '\U{2028}' || c == '\U{2029}' || c == '\U{202F}' || c == '\U{205F}'
    || c == '\U{3000}' || c == '\U{FEFF}'
  }

  predicate AllSpace(s: string) { forall k | 0 <= k < |s| :: IsJsSpace(s[k]) }

  /** How many characters of whitespace `s` starts with. */
  function LeadingSpaces(s: string): (n: nat)
    ensures n <= |s|
    ensures forall k | 0 <= k < n :: IsJsSpace(s[k])
    ensures n < |s| ==> !IsJsSpace(s[n])
  {
    if s == [] || !IsJsSpace(s[0]) then 0 else 1 + LeadingSpaces(s[1..])
  }

  /** How many characters of whitespace `s` ends with. */
  function TrailingSpaces(s: string): (n: nat)
    ensures n <= |s|
    ensures forall k | |s| - n <= k < |s| :: IsJsSpace(s[k])
    ensures n < |s| ==> !IsJsSpace(s[|s| - 1 - n])
  {
    if s == [] || !IsJsSpace(s[|s| - 1]) then 0 else 1 + TrailingSpaces(s[..|s| - 1])
  }

  /** The leading whitespace is exactly the whitespace before the first other character. */
  lemma {:induction false} LeadingSpacesIs(s: string, p: nat)
    requires p <= |s|
    requires forall k | 0 <= k < p :: IsJsSpace(s[k])
    requires p < |s| ==> !IsJsSpace(s[p])
    ensures LeadingSpaces(s) == p
  {
    if p > 0 {
      LeadingSpacesIs(s[1..], p - 1);
    }
  }

  /** The trailing whitespace is exactly the whitespace after the last other character. */
  lemma {:induction false} TrailingSpacesIs(s: string, p: nat)
    requires p <= |s|
    requires forall k | |s| - p <= k < |s| :: IsJsSpace(s[k])
    requires p < |s| ==> !IsJsSpace(s[|s| - 1 - p])
    ensures TrailingSpaces(s) == p
  {
    if p > 0 {
      TrailingSpacesIs(s[..|s| - 1], p - 1);
    }
  }

  /** `String.prototype.trim`: the text without its leading and trailing whitespace. */
  function Trim(s: string): (r: string)
    ensures |r| <= |s|
    ensures r == [] || (!IsJsSpace(r[0]) && !IsJsSpace(r[|r| - 1]))
  {
    var lo := LeadingSpaces(s);
    if lo == |s| then [] else s[lo..|s| - TrailingSpaces(s)]
  }

  /** Trimming a text padded on both sides with whitespace gives back its core. */
  lemma TrimOfPadded(a: string, m: string, b: string)
    requires AllSpace(a) && AllSpace(b)
    requires m == [] || (!IsJsSpace(m[0]) && !IsJsSpace(m[|m| - 1]))
    ensures Trim(a + m + b) == m
  {
    var s := a + m + b;
    if m == [] {
      assert forall k | 0 <= k < |s| :: IsJsSpace(s[k]) by {
        forall k | 0 <= k < |s| ensures IsJsSpace(s[k]) {
          if k < |a| { assert s[k] == a[k]; } else { assert s[k] == b[k - |a|]; }
        }
      }
      LeadingSpacesIs(s, |s|);
    } else {
      assert s[|a|] == m[0];
      assert forall k | 0 <= k < |a| :: s[k] == a[k];
      LeadingSpacesIs(s, |a|);
      assert s[|s| - 1 - |b|] == m[|m| - 1];
      assert forall k | |s| - |b| <= k < |s| :: s[k] == b[k - (|s| - |b|)];
      TrailingSpacesIs(s, |b|);
      assert s[|a|..|s| - |b|] == m;
    }
  }

  lemma Regroup(a: string, x: string, y: string, z: string, b: string)
    ensures a + (x + y + z) + b == (a + x) + y + (z + b)
  {
  }

  lemma ConcatSpace(x: string, y: string)
    requires AllSpace(x) && AllSpace(y)
    ensures AllSpace(x + y)
  {
    assert forall k | |x| <= k < |x + y| :: (x + y)[k] == y[k - |x|];
  }

  /** Trimming is idempotent. */
  lemma TrimIdempotent(s: string)
    ensures Trim(Trim(s)) == Trim(s)
  {
    TrimOfPadded([], Trim(s), []);
    assert [] + Trim(s) + [] == Trim(s);
  }

  /** A text is its leading whitespace, its trim and its trailing whitespace;
      a text without anything else is all whitespace. */
  lemma TrimParts(s: string)
    ensures LeadingSpaces(s) == |s| ==> AllSpace(s)
    ensures LeadingSpaces(s) < |s| ==>
      var lo, hi := LeadingSpaces(s), |s| - TrailingSpaces(s);
      && lo <= hi
      && AllSpace(s[..lo]) && AllSpace(s[hi..])
      && s == s[..lo] + Trim(s) + s[hi..]
  {
    var lo := LeadingSpaces(s);
    if lo < |s| {
      var hi := |s| - TrailingSpaces(s);
      assert !IsJsSpace(s[lo]);
      assert lo < hi;
      assert AllSpace(s[..lo]);
      forall k | 0 <= k < |s[hi..]| ensures IsJsSpace(s[hi..][k]) { assert s[hi..][k] == s[hi + k]; }
      SplitThree(s, lo, hi);
    }
  }

  lemma SplitThree(s: string, lo: nat, hi: nat)
    requires lo <= hi <= |s|
    ensures s == s[..lo] + s[lo..hi] + s[hi..]
  {
    assert s[..hi] == s[..lo] + s[lo..hi];
  }

  lemma AllSpaceTrimsEmpty(a: string, s: string, b: string)
    requires AllSpace(a) && AllSpace(s) && AllSpace(b)
    ensures Trim(a + s + b) == [] && Trim(s) == []
  {
    ConcatSpace(a, s);
    ConcatSpace(a + s, b);
    TrimOfPadded(a + s + b, [], []);
    assert a + s + b + [] + [] == a + s + b;
    TrimOfPadded(s, [], []);
    assert s + [] + [] == s;
  }

  /** More whitespace around a text never changes its trim. */
  lemma TrimIgnoresPadding(a: string, s: string, b: string)
    requires AllSpace(a) && AllSpace(b)
    ensures Trim(a + s + b) == Trim(s)
  {
    TrimParts(s);
    var lo := LeadingSpaces(s);
    if lo == |s| {
      AllSpaceTrimsEmpty(a, s, b);
    } else {
      var hi := |s| - TrailingSpaces(s);
      TrimAmidSpace(a, s[..lo], Trim(s), s[hi..], b);
    }
  }

  /** A core between two layers of whitespace on each side trims to that core. */
  lemma TrimAmidSpace(a: string, x: string, m: string, y: string, b: string)
    requires AllSpace(a) && AllSpace(x) && AllSpace(y) && AllSpace(b)
    requires m == [] || (!IsJsSpace(m[0]) && !IsJsSpace(m[|m| - 1]))
    ensures Trim(a + (x + m + y) + b) == m
  {
    ConcatSpace(a, x);
    ConcatSpace(y, b);
    Regroup(a, x, m, y, b);
    TrimOfPadded(a + x, m, y + b);
  }

  /** `s.length`: UTF-16 code units, two for a character outside the Basic Multilingual Plane. */
  function JsLength(s: string): (n: nat)
    ensures |s| <= n <= 2 * |s|
  {
    if s == [] then 0 else JsLength(s[..|s| - 1]) + (if s[|s| - 1] as int >= 0x10000 then 2 else 1)
  }

  predicate InBmp(s: string) { forall k | 0 <= k < |s| :: s[k] as int < 0x10000 }

  /** In the Basic Multilingual Plane the JavaScript length is the number of characters. */
  lemma {:induction false} BmpLength(s: string)
    requires InBmp(s)
    ensures JsLength(s) == |s|
  {
    if s != [] {
      BmpLength(s[..|s| - 1]);
    }
  }

  // ---------------------------------------------------------------------------
  // The field validators.

  /** A validator's verdict: the field is accepted, or rejected with the message it shows. */
  datatype Verdict = Accept | Reject(message: string)

  const NameTooShort: string := "Name must be at least 2 characters"
  const NameTooLong: string := "Name must be less than 100 characters"
  const PrefixRequired: string := "Prefix is required"
  const PrefixTooLong: string := "Prefix must be less than 10 characters"
  const PrefixCharset: string := "Prefix must contain only letters and numbers"
  const PriorityRange: string := "Priority must be a number between 0 and 100"

  /** validateName on the input's value. */
  function ValidateName(value: string): (v: Verdict)
    ensures v.Accept? <==> 2 <= JsLength(Trim(value)) <= 100
    ensures v == Reject(NameTooShort) <==> JsLength(Trim(value)) < 2
    ensures v == Reject(NameTooLong) <==> JsLength(Trim(value)) > 100
  {
    var t := Trim(value);
    if JsLength(t) < 2 then Reject(NameTooShort)
    else if JsLength(t) > 100 then Reject(NameTooLong)
    else Accept
  }

  /** A name is accepted exactly when its trimmed text is 2 to 100 characters
      long (in the Basic Multilingual Plane), and the message says which bound failed. */
  lemma NameAcceptedIff(value: string)
    requires InBmp(Trim(value))
    ensures ValidateName(value).Accept? <==> 2 <= |Trim(value)| <= 100
    ensures ValidateName(value) == Reject(NameTooShort) <==> |Trim(value)| < 2
    ensures ValidateName(value) == Reject(NameTooLong) <==> |Trim(value)| > 100
  {
    BmpLength(Trim(value));
  }

  /** Whitespace typed around a name never changes the verdict. */
  lemma NameIgnoresPadding(a: string, value: string, b: string)
    requires AllSpace(a) && AllSpace(b)
    ensures ValidateName(a + value + b) == ValidateName(value)
  {
    TrimIgnoresPadding(a, value, b);
  }

  /** A character outside the Basic Multilingual Plane counts twice: one such
      character, with nothing else, is a long enough name. */
  lemma AstralCharacterCountsTwice()
    ensures ValidateName("\U{1F600}") == Accept
  {
    var s := "\U{1F600}";
    assert Trim(s) == s by { TrimOfPadded([], s, []); assert [] + s + [] == s; }
    assert s[..0] == [];
  }

  predicate IsAsciiAlnum(c: char) { 'A' <= c <= 'Z' || 'a' <= c <= 'z' || '0' <= c <= '9' }

  /** `/^[A-Za-z0-9]+$/.test(s)`. */
  predicate AlnumOnly(s: string) { |s| >= 1 && forall k | 0 <= k < |s| :: IsAsciiAlnum(s[k]) }

  /** validatePrefix on the input's value: the checks in order empty, too long, charset. */
  function ValidatePrefix(value: string): (v: Verdict)
    ensures v.Accept? <==> 1 <= JsLength(Trim(value)) <= 10 && AlnumOnly(Trim(value))
    ensures v == Reject(PrefixRequired) <==> JsLength(Trim(value)) == 0
    ensures v == Reject(PrefixTooLong) <==> JsLength(Trim(value)) > 10
    ensures v == Reject(PrefixCharset) <==> 1 <= JsLength(Trim(value)) <= 10 && !AlnumOnly(Trim(value))
  {
    var t := Trim(value);
    if JsLength(t) < 1 then Reject(PrefixRequired)
    else if JsLength(t) > 10 then Reject(PrefixTooLong)
    else if !AlnumOnly(t) then Reject(PrefixCharset)
    else Accept
  }

  /** A prefix is accepted exactly when its trimmed text is 1 to 10 ASCII
      letters and digits, and the first check that fails picks the message. */
  lemma PrefixAcceptedIff(value: string)
    ensures ValidatePrefix(value).Accept? <==> 1 <= |Trim(value)| <= 10 && AlnumOnly(Trim(value))
    ensures ValidatePrefix(value) == Reject(PrefixRequired) <==> Trim(value) == []
    ensures ValidatePrefix(value) == Reject(PrefixTooLong) <==> Trim(value) != [] && JsLength(Trim(value)) > 10
    ensures ValidatePrefix(value) == Reject(PrefixCharset)
      <==> 1 <= JsLength(Trim(value)) <= 10 && !AlnumOnly(Trim(value))
  {
    var t := Trim(value);
    if AlnumOnly(t) {
      AlnumTrimmed(t);
    }
  }

  /** Whitespace typed around a prefix never changes the verdict. */
  lemma PrefixIgnoresPadding(a: string, value: string, b: string)
    requires AllSpace(a) && AllSpace(b)
    ensures ValidatePrefix(a + value + b) == ValidatePrefix(value)
  {
    TrimIgnoresPadding(a, value, b);
  }

  /** Digits are allowed in a prefix, so a prefix like "B2" passes the form. */
  lemma DigitPrefixAccepted()
    ensures ValidatePrefix("B2") == Accept
  {
    var s := "B2";
    assert Trim(s) == s by { TrimOfPadded([], s, []); assert [] + s + [] == s; }
    assert s[..1] == "B";
    assert s[..1][..0] == [];
  }

  // ---------------------------------------------------------------------------
  // parseInt.

  /** The value of `c` as a digit of the radix (10 or 16), if it is one. */
  function RadixDigit(c: char, radix: nat): (d: Option<nat>)
    ensures d.Some? ==> d.value < radix || (radix != 16 && d.value < 10)
  {
    if '0' <= c <= '9' then Some(c as int - '0' as int)
    else if radix == 16 && 'a' <= c <= 'f' then Some(c as int - 'a' as int + 10)
    else if radix == 16 && 'A' <= c <= 'F' then Some(c as int - 'A' as int + 10)
    else None
  }

  predicate AllRadixDigits(s: string, radix: nat) { forall k | 0 <= k < |s| :: RadixDigit(s[k], radix).Some? }

  /** The length of the longest prefix of `s` made of digits of the radix. */
  function DigitRun(s: string, radix: nat): (n: nat)
    ensures n <= |s|
    ensures AllRadixDigits(s[..n], radix)
    ensures n < |s| ==> RadixDigit(s[n], radix).None?
  {
    if s == [] || RadixDigit(s[0], radix).None? then 0
    else
      var n := 1 + DigitRun(s[1..], radix);
      assert forall k | 1 <= k < n :: s[..n][k] == s[1..][..n - 1][k - 1];
      n
  }

  /** The value of a run of digits, most significant first. */
  function RunValue(s: string, radix: nat): nat
    requires AllRadixDigits(s, radix)
  {
    if s == [] then 0 else RunValue(s[..|s| - 1], radix) * radix + RadixDigit(s[|s| - 1], radix).value
  }

  /** The number after the sign: "0x" or "0X" switches to hexadecimal, and
      the number is the longest run of digits that follows (the rest is
      ignored); None when there is no digit. */
  function Unsigned(u: string): (r: Option<int>)
    ensures r.Some? ==> r.value >= 0
    ensures r.Some? ==> u != [] && RadixDigit(u[0], 10).Some?
  {
    var hex := |u| >= 2 && u[0] == '0' && (u[1] == 'x' || u[1] == 'X');
    var radix := if hex then 16 else 10;
    var digits := if hex then u[2..] else u;
    var n := DigitRun(digits, radix);
    if n == 0 then None
    else
      assert hex || RadixDigit(digits[..n][0], radix).Some?;
      Some(RunValue(digits[..n], radix))
  }

  /** `parseInt(s)` without a radix; None is NaN. Leading whitespace is
      skipped, then one sign. */
  function ParseInt(s: string): (r: Option<int>)
    ensures r.Some? ==>
      var t := s[LeadingSpaces(s)..];
      t != [] && (t[0] == '-' || t[0] == '+' || RadixDigit(t[0], 10).Some?)
    ensures r.Some? && r.value < 0 ==> s[LeadingSpaces(s)..][0] == '-'
    ensures AllSpace(s) ==> r.None?
  {
    var t := s[LeadingSpaces(s)..];
    var signed := t != [] && (t[0] == '-' || t[0] == '+');
    var u := if signed then t[1..] else t;
    match Unsigned(u)
    case None => None
    case Some(m) => Some(if signed && t[0] == '-' then -m else m)
  }

  /** On decimal digits, the run value is the decimal value. */
  lemma {:induction false} RunValueDecimal(s: string)
    requires AllDigits(s)
    ensures AllRadixDigits(s, 10) && RunValue(s, 10) == DecimalValue(s)
  {
    if s != [] {
      RunValueDecimal(s[..|s| - 1]);
    }
  }

  /** The longest digit run of `d + rest`, when `rest` does not start with a digit, is `d`. */
  lemma {:induction false} DigitRunOf(d: string, rest: string, radix: nat)
    requires AllRadixDigits(d, radix)
    requires rest == [] || RadixDigit(rest[0], radix).None?
    ensures DigitRun(d + rest, radix) == |d|
  {
    if d != [] {
      assert (d + rest)[1..] == d[1..] + rest;
      DigitRunOf(d[1..], rest, radix);
    } else {
      assert d + rest == rest;
    }
  }

  /** A text without leading whitespace or sign is read as its unsigned number. */
  lemma ParseIntUnsigned(s: string)
    requires s != [] && IsDigit(s[0])
    ensures ParseInt(s) == Unsigned(s)
  {
    LeadingSpacesIs(s, 0);
    assert s[0..] == s;
  }

  /** A non-negative number printed in decimal, whatever non-digit text
      follows it, is read back ("50kg" is 50), unless the number is 0 and the
      text goes on with an x, which makes it hexadecimal. */
  lemma ParseIntReadsDecimal(n: nat, rest: string)
    requires rest == [] || !IsDigit(rest[0])
    requires n > 0 || rest == [] || (rest[0] != 'x' && rest[0] != 'X')
    ensures ParseInt(NatToDecimal(n) + rest) == Some(n)
  {
    var d := NatToDecimal(n);
    var s := d + rest;
    assert s[0] == d[0];
    ParseIntUnsigned(s);
    assert !(|s| >= 2 && s[0] == '0' && (s[1] == 'x' || s[1] == 'X')) by {
      if |d| >= 2 { assert s[1] == d[1]; } else if |s| >= 2 { assert s[1] == rest[0]; }
    }
    RunValueDecimal(d);
    DigitRunOf(d, rest, 10);
    assert s[..|d|] == d;
    DecimalRoundTrip(n);
  }

  /** After "0x" the longest run of hexadecimal digits is read in base 16,
      whatever follows it. */
  lemma ParseIntReadsHex(d: string, rest: string)
    requires d != [] && AllRadixDigits(d, 16)
    requires rest == [] || RadixDigit(rest[0], 16).None?
    ensures ParseInt("0x" + d + rest) == Some(RunValue(d, 16))
  {
    var s := "0x" + d + rest;
    ParseIntUnsigned(s);
    UnsignedHex(d, rest);
  }

  lemma UnsignedHex(d: string, rest: string)
    requires d != [] && AllRadixDigits(d, 16)
    requires rest == [] || RadixDigit(rest[0], 16).None?
    ensures Unsigned("0x" + d + rest) == Some(RunValue(d, 16))
  {
    var s := "0x" + d + rest;
    assert s[0] == '0' && s[1] == 'x';
    assert s[2..] == d + rest;
    DigitRunOf(d, rest, 16);
    assert (d + rest)[..|d|] == d;
  }

  /** NaN when no hexadecimal digit follows "0x". */
  lemma ParseIntHexWithoutDigits()
    ensures ParseInt("0xg").None?
  {
    ParseIntUnsigned("0xg");
    assert "0xg"[2..] == "g";
  }

  /** validatePriority on the input's value. */
  function ValidatePriority(value: string): (v: Verdict)
    ensures v.Accept? <==> ParseInt(value).Some? && 0 <= ParseInt(value).value <= 100
    ensures v.Reject? ==> v.message == PriorityRange
  {
    match ParseInt(value)
    case None => Reject(PriorityRange)
    case Some(p) => if p < 0 || p > 100 then Reject(PriorityRange) else Accept
  }

  /** Every priority from 0 to 100 written in decimal is accepted, every larger one rejected. */
  lemma PriorityAcceptsPercent(n: nat)
    ensures ValidatePriority(NatToDecimal(n)).Accept? <==> n <= 100
  {
    ParseIntReadsDecimal(n, []);
    assert NatToDecimal(n) + [] == NatToDecimal(n);
  }

  /** The priority field ignores any text that follows the number ("50kg" is 50). */
  lemma PriorityIgnoresUnits(n: nat, rest: string)
    requires rest == [] || !IsDigit(rest[0])
    requires n > 0 || rest == [] || (rest[0] != 'x' && rest[0] != 'X')
    ensures ValidatePriority(NatToDecimal(n) + rest) == ValidatePriority(NatToDecimal(n))
  {
    ParseIntReadsDecimal(n, rest);
    ParseIntReadsDecimal(n, []);
    assert NatToDecimal(n) + [] == NatToDecimal(n);
  }

  /** A priority without a number is rejected. */
  lemma PriorityNeedsDigits()
    ensures ValidatePriority("kg") == Reject(PriorityRange)
  {
    var s := "kg";
    LeadingSpacesIs(s, 0);
    assert s[0..] == s;
  }

  // ---------------------------------------------------------------------------
  // The edit form.

  /** The edit form's fields as the browser sends them; a field the form lacks is the empty text. */
  datatype CategoryForm = CategoryForm(name: string, prefix: string, priority: string, colorCode: string, description: string, icon: string)

  /** The body `updateCategory` sends, with the priority as a number. */
  datatype CategoryUpdate = CategoryUpdate(name: string, prefix: string, priority: int, colorCode: string, description: string, icon: string)

  const FillRequired: string := "Please fill in all required fields"
  const PrefixLettersNumbers: string := "Prefix should contain only letters and numbers"
  const PriorityBetween: string := "Priority should be a number between 0 and 100"
  const BadColorCode: string := "Please enter a valid color code (e.g., #3B82F6)"

  predicate IsHexDigit(c: char) { RadixDigit(c, 16).Some? }

  /** `/^#[0-9A-F]{6}$/i.test(s)`. */
  predicate IsColorCode(s: string) { |s| == 7 && s[0] == '#' && forall k | 1 <= k < 7 :: IsHexDigit(s[k]) }

  /** `parseInt(priority) || 0`: NaN becomes 0. */
  function SubmittedPriority(text: string): (p: int)
    ensures ParseInt(text).Some? ==> p == ParseInt(text).value
    ensures ParseInt(text).None? ==> p == 0
  {
    OptionOr(ParseInt(text), 0)
  }

  /** The checks `updateCategory` makes before it sends the edit: the alert
      it shows, or the body it sends. */
  function UpdateCheck(form: CategoryForm): (r: Result<CategoryUpdate>)
    ensures r.Ok? ==> r.value == CategoryUpdate(form.name, form.prefix, SubmittedPriority(form.priority), form.colorCode, form.description, form.icon)
    ensures r.Ok? ==>
      && r.value.name != "" && r.value.icon != "" && AlnumOnly(r.value.prefix)
      && 0 <= r.value.priority <= 100 && IsColorCode(r.value.colorCode)
    ensures r.Err? ==> r.error in {FillRequired, PrefixLettersNumbers, PriorityBetween, BadColorCode}
  {
    var priority := SubmittedPriority(form.priority);
    if form.name == "" || form.prefix == "" || form.icon == "" then Err(FillRequired)
    else if !AlnumOnly(form.prefix) then Err(PrefixLettersNumbers)
    else if priority < 0 || priority > 100 then Err(PriorityBetween)
    else if !IsColorCode(form.colorCode) then Err(BadColorCode)
    else Ok(CategoryUpdate(form.name, form.prefix, priority, form.colorCode, form.description, form.icon))
  }

  /** The edit is sent exactly when the required fields are filled, the
      prefix is letters and digits, the priority is 0 to 100 and the colour is
      #RRGGBB; what is sent is the form with its priority as a number. */
  lemma UpdateSentIff(form: CategoryForm)
    ensures UpdateCheck(form).Ok? <==>
      && form.name != "" && form.icon != "" && AlnumOnly(form.prefix)
      && 0 <= SubmittedPriority(form.priority) <= 100 && IsColorCode(form.colorCode)
    ensures UpdateCheck(form).Ok? ==>
      UpdateCheck(form).value == CategoryUpdate(form.name, form.prefix, SubmittedPriority(form.priority), form.colorCode, form.description, form.icon)
  {
  }

  /** The first failing check picks the alert: a missing field before the
      prefix, the prefix before the priority, the priority before the colour. */
  lemma UpdateAlertOrder(form: CategoryForm)
    ensures form.name == "" || form.prefix == "" || form.icon == "" ==> UpdateCheck(form) == Err(FillRequired)
    ensures form.name != "" && form.icon != "" && AlnumOnly(form.prefix) && !(0 <= SubmittedPriority(form.priority) <= 100)
      ==> UpdateCheck(form) == Err(PriorityBetween)
    ensures form.name != "" && form.icon != "" && form.prefix != "" && !AlnumOnly(form.prefix)
      ==> UpdateCheck(form) == Err(PrefixLettersNumbers)
  {
  }

  /** A priority that is not a number is sent as 0 by the edit form, where
      validatePriority rejects it. */
  lemma UnparsedPrioritySentAsZero(form: CategoryForm)
    requires ParseInt(form.priority).None?
    ensures ValidatePriority(form.priority) == Reject(PriorityRange)
    ensures UpdateCheck(form) == UpdateCheck(form.(priority := "0"))
    ensures UpdateCheck(form).Ok? ==> UpdateCheck(form).value.priority == 0
  {
    ParseIntReadsDecimal(0, []);
    assert NatToDecimal(0) + [] == "0";
  }

  /** The edit form does not check the prefix length: a prefix of more than
      10 letters and digits, which validatePrefix rejects, passes its prefix check. */
  lemma UpdateSkipsPrefixLength(form: CategoryForm)
    requires AlnumOnly(form.prefix) && |form.prefix| > 10
    ensures ValidatePrefix(form.prefix) == Reject(PrefixTooLong)
    ensures UpdateCheck(form) != Err(PrefixLettersNumbers)
  {
    AlnumTrimmed(form.prefix);
  }

  /** Letters and digits have nothing to trim and count one each. */
  lemma AlnumTrimmed(p: string)
    requires AlnumOnly(p)
    ensures Trim(p) == p && JsLength(p) == |p|
  {
    TrimOfPadded([], p, []);
    assert [] + p + [] == p;
    BmpLength(p);
  }

  // ---------------------------------------------------------------------------
  // The card filter.

  /** A category card: the lower-cased name search sees and its status ("active" or "inactive"). */
  datatype Card = Card(name: string, status: string)

  /** Whether filterCategories leaves a card shown. */
  predicate Shown(card: Card, search: string, statusFilter: string) {
    Contains(AsciiLower(card.name), AsciiLower(search)) && (statusFilter == "" || card.status == statusFilter)
  }

  /** filterCategories: set each card's display from the search text and the status filter. */
  method FilterCategories(cards: seq<Card>, search: string, statusFilter: string, shown: array<bool>)
    requires shown.Length == |cards|
    modifies shown
    ensures forall i | 0 <= i < |cards| :: shown[i] == Shown(cards[i], search, statusFilter)
  {
    var term := AsciiLower(search);
    for i := 0 to |cards|
      invariant forall j | 0 <= j < i :: shown[j] == Shown(cards[j], search, statusFilter)
    {
      var name := AsciiLower(cards[i].name);
      var matchesSearch := Contains(name, term);
      var matchesStatus := statusFilter == "" || cards[i].status == statusFilter;
      shown[i] := matchesSearch && matchesStatus;
    }
  }

  lemma {:induction false} AsciiLowerIdempotent(s: string)
    ensures AsciiLower(AsciiLower(s)) == AsciiLower(s)
  {
    var l := AsciiLower(s);
    assert forall i | 0 <= i < |l| :: AsciiLower(l)[i] == l[i];
  }

  /** The search is case-blind: typing the term in capitals shows the same cards. */
  lemma SearchIgnoresCase(card: Card, search: string, statusFilter: string)
    ensures Shown(card, AsciiLower(search), statusFilter) == Shown(card, search, statusFilter)
  {
    AsciiLowerIdempotent(search);
  }

  /** With no search text and no status filter every card is shown; a status
      filter shows only the cards with that status. */
  lemma FilterExtremes(card: Card, search: string, statusFilter: string)
    ensures Shown(card, "", "")
    ensures statusFilter != "" && Shown(card, search, statusFilter) ==> card.status == statusFilter
  {
    assert HasPrefix(AsciiLower(card.name)[0..], AsciiLower(""));
  }

  /** Typing more of the search text never shows a card that was hidden. */
  lemma NarrowerSearchShowsFewer(card: Card, search: string, more: string, statusFilter: string)
    ensures Shown(card, search + more, statusFilter) ==> Shown(card, search, statusFilter)
  {
    var name := AsciiLower(card.name);
    var longer := AsciiLower(search + more);
    assert longer[..|search|] == AsciiLower(search);
    if Shown(card, search + more, statusFilter) {
      var i :| 0 <= i <= |name| && HasPrefix(name[i..], longer);
      assert name[i..][..|search|] == longer[..|search|];
      assert HasPrefix(name[i..], AsciiLower(search));
    }
  }
}
