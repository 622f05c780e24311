/**
 * The two ECMAScript string primitives the core relies on: `String.prototype.trim`
 * (to reject blank transfer comments) and the global `parseInt` with no radix
 * (to read a category's `row`). Both skip the same set of white-space code points.
 */
module JsText {
  import opened Wrappers

  /** ECMAScript WhiteSpace and LineTerminator code points (the set `trim` and `parseInt` skip). */
  predicate IsWhitespace(c: char) {
    c == '\t' || c == '\n' || c == '\U{B}' || c == '\U{C}' || c == '\r' || c == ' '
    || c == '\U{A0}' || c == '\U{1680}' || ('\U{2000}' <= c <= '\U{200A}')
    || c == '\U{2028}' || c == '\U{2029}' || c == '\U{202F}' || c == '\U{205F}'
    || c == '\U{3000}' || c == '\U{FEFF}'
  }

  /** Every character of `s` is white space. */
  predicate IsBlank(s: string) {
    forall i :: 0 <= i < |s| ==> IsWhitespace(s[i])
  }

  /** `s` without its leading white space. */
  function TrimStart(s: string): string {
    if s != [] && IsWhitespace(s[0]) then TrimStart(s[1..]) else s
  }

  /** `s` without its trailing white space. */
  function TrimEnd(s: string): string {
    if s != [] && IsWhitespace(s[|s| - 1]) then TrimEnd(s[..|s| - 1]) else s
  }

  /** `String.prototype.trim`. */
  function Trim(s: string): string {
    TrimEnd(TrimStart(s))
  }

  /** `TrimStart` drops a blank prefix and keeps a suffix that is empty or starts with a non-blank. */
  lemma {:induction false} TrimStartSpec(s: string)
    ensures var r := TrimStart(s);
      && |r| <= |s| && r == s[|s| - |r|..]
      && (r == [] || !IsWhitespace(r[0]))
      && IsBlank(s[..|s| - |r|])
  {
    if s != [] && IsWhitespace(s[0]) {
      TrimStartSpec(s[1..]);
      var r := TrimStart(s);
      assert s[1..][..|s| - 1 - |r|] == s[1..|s| - |r|];
    }
  }

  /** `TrimEnd` drops a blank suffix and keeps a prefix that is empty or ends with a non-blank. */
  lemma {:induction false} TrimEndSpec(s: string)
    ensures var r := TrimEnd(s);
      && |r| <= |s| && r == s[..|r|]
      && (r == [] || !IsWhitespace(r[|r| - 1]))
      && IsBlank(s[|r|..])
  {
    if s != [] && IsWhitespace(s[|s| - 1]) {
      TrimEndSpec(s[..|s| - 1]);
    }
  }

  /** `s.trim()` is empty (falsy) exactly when `s` consists of white space only. */
  lemma {:induction false} TrimEmptyIffBlank(s: string)
    ensures Trim(s) == [] <==> IsBlank(s)
  {
    TrimStartSpec(s);
    var t := TrimStart(s);
    TrimEndSpec(t);
    assert t[0..] == t;
    assert s[..|s|] == s;
    if t != [] {
      assert t[0] == s[|s| - |t|];
    }
  }

  // ---------------------------------------------------------------- parseInt

  /** The value of `c` as a digit in base `radix` (10 or 16), if it is one. */
  function DigitValue(c: char, radix: nat): Option<nat> {
    if '0' <= c <= '9' then Some(c as nat - '0' as nat)
    else if radix == 16 && 'a' <= c <= 'f' then Some(c as nat - 'a' as nat + 10)
    else if radix == 16 && 'A' <= c <= 'F' then Some(c as nat - 'A' as nat + 10)
    else None
  }

  predicate IsDigit(c: char, radix: nat) {
    DigitValue(c, radix).Some?
  }

  /** The longest prefix of `s` made of digits in base `radix`. */
  function LeadingDigits(s: string, radix: nat): (r: string)
    ensures |r| <= |s| && r == s[..|r|]
    ensures forall i :: 0 <= i < |r| ==> IsDigit(r[i], radix)
    ensures |r| == |s| || !IsDigit(s[|r|], radix)
  {
    if s != [] && IsDigit(s[0], radix) then [s[0]] + LeadingDigits(s[1..], radix) else []
  }

  /** The number that a string of base-`radix` digits denotes, most significant digit first. */
  function DigitsValue(ds: string, radix: nat): nat
    requires forall i :: 0 <= i < |ds| ==> IsDigit(ds[i], radix)
  {
    if ds == [] then 0
    else
      var last := ds[|ds| - 1];
      assert IsDigit(last, radix);
      DigitsValue(ds[..|ds| - 1], radix) * radix + DigitValue(last, radix).value
  }

  /**
   * The digits after the sign: base 16 after a `0x`/`0X` prefix, base 10 otherwise,
   * read as the longest run of digits; `None` when there is no digit at all.
   */
  function ParseMagnitude(u: string): Option<nat> {
    var hex := |u| >= 2 && u[0] == '0' && (u[1] == 'x' || u[1] == 'X');
    var radix := if hex then 16 else 10;
    var digits := LeadingDigits(if hex then u[2..] else u, radix);
    if digits == [] then None else Some(DigitsValue(digits, radix))
  }

  /**
   * `parseInt(text)` with no radix: skip leading white space, read an optional sign,
   * then the magnitude. `None` stands for NaN. A negative zero is the integer 0.
   */
  function ParseInt(text: string): Option<int> {
    var s := TrimStart(text);
    var negative := s != [] && s[0] == '-';
    var unsigned := if s != [] && (s[0] == '-' || s[0] == '+') then s[1..] else s;
    match ParseMagnitude(unsigned)
    case None => None
    case Some(m) => Some(if negative then -(m as int) else m as int)
  }

  /** The decimal digit character for `d`. */
  function DigitChar(d: nat): char
    requires d < 10
  {
    ('0' as nat + d) as char
  }

  /** The decimal numeral of `n`, as `String(n)` writes a non-negative integer. */
  function DecimalText(n: nat): (r: string)
    ensures r != [] && forall i :: 0 <= i < |r| ==> '0' <= r[i] <= '9'
  {
    if n < 10 then [DigitChar(n)] else DecimalText(n / 10) + [DigitChar(n % 10)]
  }

  /** `String(n)` for an integer `n`. */
  function IntText(n: int): string {
    if n < 0 then "-" + DecimalText(-n) else DecimalText(n)
  }

  lemma {:induction false} DecimalTextValue(n: nat)
    ensures DigitsValue(DecimalText(n), 10) == n
  {
    var t := DecimalText(n);
    if n >= 10 {
      DecimalTextValue(n / 10);
      assert t[..|t| - 1] == DecimalText(n / 10);
    }
  }

  lemma {:induction false} LeadingDigitsOfDigits(s: string, radix: nat)
    requires forall i :: 0 <= i < |s| ==> IsDigit(s[i], radix)
    ensures LeadingDigits(s, radix) == s
  {
    if s != [] {
      LeadingDigitsOfDigits(s[1..], radix);
    }
  }

  lemma {:induction false} DecimalDigitsAreDigits(d: string)
    requires forall i :: 0 <= i < |d| ==> '0' <= d[i] <= '9'
    ensures forall i :: 0 <= i < |d| ==> IsDigit(d[i], 10)
  {
    forall i | 0 <= i < |d| ensures IsDigit(d[i], 10) {
      assert '0' <= d[i] <= '9';
    }
  }

  /** Digits with no `x`/`X` in second place are read in base 10, all of them. */
  lemma {:induction false} ParseMagnitudeOfDigits(d: string)
    requires d != [] && forall i :: 0 <= i < |d| ==> IsDigit(d[i], 10)
    requires |d| >= 2 ==> d[1] != 'x' && d[1] != 'X'
    ensures ParseMagnitude(d) == Some(DigitsValue(d, 10))
  {
    LeadingDigitsOfDigits(d, 10);
  }

  /** A non-empty run of decimal digits, with or without a leading minus sign, parses to its value. */
  lemma {:induction false} ParseIntOfNumeral(d: string, negative: bool)
    requires d != [] && forall i :: 0 <= i < |d| ==> '0' <= d[i] <= '9'
    ensures forall i :: 0 <= i < |d| ==> IsDigit(d[i], 10)
    ensures ParseInt(if negative then "-" + d else d)
         == Some(if negative then -(DigitsValue(d, 10) as int) else DigitsValue(d, 10) as int)
  {
    DecimalDigitsAreDigits(d);
    if |d| >= 2 {
      assert '0' <= d[1] <= '9';
    }
    ParseMagnitudeOfDigits(d);
    var c := d[0];
    assert '0' <= c <= '9';
    assert !IsWhitespace(c) && !IsWhitespace('-');
    var text := if negative then "-" + d else d;
    assert text[0] == if negative then '-' else c;
    assert TrimStart(text) == text;
    var unsigned := if text[0] == '-' || text[0] == '+' then text[1..] else text;
    assert unsigned == d;
  }

  /** Reading back the numeral of an integer gives that integer: `parseInt(String(n)) == n`. */
  lemma {:induction false} ParseIntOfIntText(n: int)
    ensures ParseInt(IntText(n)) == Some(n)
  {
    var m := if n < 0 then -n else n;
    DecimalTextValue(m);
    ParseIntOfNumeral(DecimalText(m), n < 0);
  }
}
