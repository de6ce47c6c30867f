/** The JavaScript conversions between numbers and strings that the front
    end relies on: `String(n)` for an integer, `parseInt`, the `\s` class
    of regular expressions, `toFixed(2)` on an exact amount of cents, and
    the UTF-16 code units a JavaScript string is made of. */
module Text {
  import opened Common

  /** `\s` in a JavaScript regular expression, and the white space that
      `parseInt` skips: WhiteSpace plus LineTerminator. */
  predicate IsSpace(c: char) {
    c == '\t' || c == '\n' || c == '\U{000B}' || c == '\U{000C}' || c == '\r' ||
    c == ' ' || c == '\U{00A0}' || c == '\U{1680}' ||
    ('\U{2000}' <= c <= '\U{200A}') ||
    c == '\U{2028}' || c == '\U{2029}' || c == '\U{202F}' || c == '\U{205F}' ||
    c == '\U{3000}' || c == '\U{FEFF}'
  }

  function DigitChar(d: nat): (c: char)
    requires d < 10
    ensures '0' <= c <= '9' && (c as int) - ('0' as int) == d
  {
    "0123456789"[d]
  }

  /** Decimal digits of `n`, most significant first, without leading zeros. */
  function NatDigits(n: nat): (s: string)
    ensures |s| >= 1
    ensures forall i :: 0 <= i < |s| ==> '0' <= s[i] <= '9'
    ensures |s| > 1 ==> s[0] != '0'
  {
    if n < 10 then [DigitChar(n)] else NatDigits(n / 10) + [DigitChar(n % 10)]
  }

  /** `String(n)` (or `element.textContent = n`) for an integral number `n`. */
  function DecimalString(n: int): (s: string)
    ensures |s| >= 1 && !IsSpace(s[0])
  {
    if n < 0 then "-" + NatDigits(-n) else NatDigits(n)
  }

  /** The value of `c` as a digit in base `radix` (10 or 16), if it is one. */
  function DigitValue(c: char, radix: nat): (r: Option<nat>)
    ensures r.Some? ==> r.value < radix
  {
    var v :=
      if '0' <= c <= '9' then (c as int) - ('0' as int)
      else if 'a' <= c <= 'z' then (c as int) - ('a' as int) + 10
      else if 'A' <= c <= 'Z' then (c as int) - ('A' as int) + 10
      else 36;
    if 0 <= v < radix then Some(v) else None
  }

  /** Length of the longest prefix of `s` made of digits in base `radix`. */
  function DigitRun(s: string, radix: nat): (k: nat)
    ensures k <= |s|
    ensures forall i :: 0 <= i < k ==> DigitValue(s[i], radix).Some?
    ensures k < |s| ==> DigitValue(s[k], radix).None?
  {
    if s == [] || DigitValue(s[0], radix).None? then 0
    else 1 + DigitRun(s[1..], radix)
  }

  /** The number written by the digits `ds` in base `radix`. */
  function DigitsValue(ds: string, radix: nat): nat
    requires forall i :: 0 <= i < |ds| ==> DigitValue(ds[i], radix).Some?
  {
    if ds == [] then 0
    else
      var front := DigitsValue(ds[..|ds| - 1], radix);
      ProductOfNats(front, radix);
      front * radix + DigitValue(ds[|ds| - 1], radix).value
  }

  /** A product of naturals is a natural. */
  lemma ProductOfNats(a: nat, b: nat)
    ensures a * b >= 0
  {
  }

  function SkipSpace(s: string): (t: string)
    ensures |t| <= |s| && t == s[|s| - |t|..]
    ensures t == [] || !IsSpace(t[0])
  {
    if s != [] && IsSpace(s[0]) then SkipSpace(s[1..]) else s
  }

  /** The unsigned part of `parseInt`: a `0x`/`0X` prefix selects base 16,
      then the longest run of digits is read; `None` when there is no digit. */
  function ParseMagnitude(u: string): Option<nat>
  {
    var hex := |u| >= 2 && u[0] == '0' && (u[1] == 'x' || u[1] == 'X');
    var radix := if hex then 16 else 10;
    var w := if hex then u[2..] else u;
    var k := DigitRun(w, radix);
    if k == 0 then None else Some(DigitsValue(w[..k], radix))
  }

  /** `parseInt(s)` with its default radix: leading white space is skipped,
      one sign is read, then the magnitude; `None` stands for `NaN`. */
  function ParseInt(s: string): Option<int>
  {
    var t := SkipSpace(s);
    var negative := |t| > 0 && t[0] == '-';
    var u := if |t| > 0 && (t[0] == '-' || t[0] == '+') then t[1..] else t;
    match ParseMagnitude(u)
    case None => None
    case Some(m) => Some(if negative then -(m as int) else m)
  }

  /** `parseInt(s) || 0`: `NaN` (and `0`) fall back to 0. */
  function ParseIntOrZero(s: string): int {
    ParseInt(s).GetOr(0)
  }

  lemma {:induction false} DigitRunOfDigits(s: string)
    requires forall i :: 0 <= i < |s| ==> '0' <= s[i] <= '9'
    ensures DigitRun(s, 10) == |s|
  {
    if s != [] {
      DigitRunOfDigits(s[1..]);
    }
  }

  lemma {:induction false} NatDigitsValue(n: nat)
    ensures DigitsValue(NatDigits(n), 10) == n
  {
    var s := NatDigits(n);
    if n >= 10 {
      NatDigitsValue(n / 10);
      assert s[..|s| - 1] == NatDigits(n / 10);
    }
  }

  lemma ParseMagnitudeOfDigits(n: nat)
    ensures ParseMagnitude(NatDigits(n)) == Some(n)
  {
    var d := NatDigits(n);
    DigitRunOfDigits(d);
    NatDigitsValue(n);
    assert d[..|d|] == d;
  }

  /** Reading back what `String(n)` wrote gives `n`: the badge's text
      round-trips through `parseInt`. */
  lemma ParseDecimalString(n: int)
    ensures ParseInt(DecimalString(n)) == Some(n)
    ensures ParseIntOrZero(DecimalString(n)) == n
  {
    var m: nat := if n < 0 then -n else n;
    var s := DecimalString(n);
    assert SkipSpace(s) == s;
    ParseMagnitudeOfDigits(m);
    if n < 0 {
      assert s[0] == '-' && s[1..] == NatDigits(m);
    } else {
      assert s == NatDigits(m) && '0' <= s[0] <= '9';
    }
  }

  function TwoDigits(c: nat): string
    requires c < 100
  {
    [DigitChar(c / 10), DigitChar(c % 10)]
  }

  /** `(amount).toFixed(2)` for an amount that is an exact number of cents. */
  function FormatCents(c: Cents): (s: string)
    ensures |s| >= 4 && s[|s| - 3] == '.'
  {
    var m: nat := if c < 0 then -c else c;
    (if c < 0 then "-" else "") + NatDigits(m / 100) + "." + TwoDigits(m % 100)
  }

  /** `String(c / 100)` for an amount of `c` cents, as JavaScript prints a
      number: no decimal point for a whole amount and no trailing zero
      after it. */
  function NumberText(c: Cents): (s: string)
    ensures |s| >= 1
  {
    var m: nat := if c < 0 then -c else c;
    var f := m % 100;
    (if c < 0 then "-" else "") + NatDigits(m / 100) +
      (if f == 0 then "" else if f % 10 == 0 then "." + [DigitChar(f / 10)] else "." + TwoDigits(f))
  }

  /** A whole amount prints as its integer, with no decimal point. */
  lemma NumberTextWhole(c: Cents)
    requires c % 100 == 0
    ensures NumberText(c) == DecimalString(c / 100)
  {
    var m: nat := if c < 0 then -c else c;
    if c < 0 {
      assert m / 100 == -(c / 100) && m % 100 == 0;
    } else {
      assert m / 100 == c / 100 && m % 100 == 0;
    }
  }

  // ---- JavaScript strings -----------------------------------------------

  /** A UTF-16 code unit. A JavaScript string is a sequence of them:
      `length`, `substring` and indexing all count code units. */
  newtype CodeUnit = x: int | 0 <= x < 0x1_0000

  type JsString = seq<CodeUnit>

  /** The one code unit of a character of the Basic Multilingual Plane, or
      the surrogate pair of a supplementary character. */
  function Utf16Char(c: char): (r: seq<CodeUnit>)
    ensures |r| == if c as int < 0x1_0000 then 1 else 2
    ensures c as int < 0x1_0000 ==> r[0] as int == c as int
    ensures c as int >= 0x1_0000 ==> 0xD800 <= r[0] < 0xDC00 <= r[1] < 0xE000
  {
    var v := c as int;
    if v < 0x1_0000 then [v as CodeUnit]
    else [(0xD800 + (v - 0x1_0000) / 0x400) as CodeUnit, (0xDC00 + (v - 0x1_0000) % 0x400) as CodeUnit]
  }

  /** Every character of `s` lies in the Basic Multilingual Plane. */
  predicate InBmp(s: string) {
    forall i :: 0 <= i < |s| ==> s[i] as int < 0x1_0000
  }

  /** The JavaScript string holding the text `s`. */
  function Utf16(s: string): (r: JsString)
    ensures |s| <= |r| <= 2 * |s|
    ensures InBmp(s) ==> |r| == |s| && forall i :: 0 <= i < |s| ==> r[i] as int == s[i] as int
  {
    if s == [] then [] else Utf16Char(s[0]) + Utf16(s[1..])
  }
}
