/** The few JavaScript built-ins the home component relies on, as pure functions:
    `String(n)` for integers, `String.prototype.toLowerCase`, `String.prototype.trim`
    and `parseInt(x, 10)`. JavaScript values that reach the component are modelled
    by `JsValue`; numbers are restricted to integers. */
module JsText {

  datatype Option<+T> = None | Some(value: T)

  /** A JavaScript value as it reaches the component: `undefined`, `null`,
      an (integral) number or a string. */
  datatype JsValue = Undefined | Null | Num(n: int) | Str(s: string)

  // ---------------------------------------------------------------------------
  // Characters

  /** ECMAScript WhiteSpace and LineTerminator code points: the characters that
      `trim` removes and that `parseInt` skips before the number. */
  predicate IsSpace(c: char) {
    c == '\t' || c == '\n' || c == '\U{B}' || c == '\U{C}' || c == '\r' || c == ' ' ||
    c == '\U{A0}' || c == '\U{1680}' || ('\U{2000}' <= c <= '\U{200A}') ||
    c == '\U{2028}' || c == '\U{2029}' || c == '\U{202F}' || c == '\U{205F}' ||
    c == '\U{3000}' || c == '\U{FEFF}'
  }

  predicate IsDigit(c: char) {
    '0' <= c <= '9'
  }

  function DigitValue(c: char): (d: nat)
    requires IsDigit(c)
    ensures d < 10
  {
    c as int - '0' as int
  }

  function DigitChar(d: nat): (c: char)
    requires d < 10
    ensures IsDigit(c) && DigitValue(c) == d
  {
    ('0' as int + d) as char
  }

  /** Lower-case mapping of one character: ASCII `A`-`Z`, the Latin-1 capitals
      `À`-`Þ` (except the multiplication sign) and the Kelvin sign, which
      lower-cases to the ASCII `k`. */
  function LowerChar(c: char): char {
    if 'A' <= c <= 'Z' || ('\U{C0}' <= c <= '\U{DE}' && c != '\U{D7}') then
      (c as int + 32) as char
    else if c == '\U{212A}' then 'k'
    else c
  }

  // ---------------------------------------------------------------------------
  // String.prototype.toLowerCase

  function Lower(s: string): (r: string)
    ensures |r| == |s|
    ensures forall i :: 0 <= i < |s| ==> r[i] == LowerChar(s[i])
  {
    if s == [] then [] else [LowerChar(s[0])] + Lower(s[1..])
  }

  // ---------------------------------------------------------------------------
  // String.prototype.trim

  /** `s` with its leading white space removed: a suffix of `s`, all that was
      dropped is white space, and what is left does not start with white space. */
  function TrimStart(s: string): (r: string)
    ensures |r| <= |s| && r == s[|s| - |r|..]
    ensures forall i :: 0 <= i < |s| - |r| ==> IsSpace(s[i])
    ensures r != [] ==> !IsSpace(r[0])
  {
    if s != [] && IsSpace(s[0]) then TrimStart(s[1..]) else s
  }

  /** `s` with its trailing white space removed: a prefix of `s`, all that was
      dropped is white space, and what is left does not end with white space. */
  function TrimEnd(s: string): (r: string)
    ensures |r| <= |s| && r == s[..|r|]
    ensures forall i :: |r| <= i < |s| ==> IsSpace(s[i])
    ensures r != [] ==> !IsSpace(r[|r| - 1])
  {
    if s != [] && IsSpace(s[|s| - 1]) then TrimEnd(s[..|s| - 1]) else s
  }

  /** `s` with white space removed from both ends: no longer than `s`, and
      neither starting nor ending with white space. */
  function Trim(s: string): (r: string)
    ensures |r| <= |s|
    ensures r != [] ==> !IsSpace(r[0]) && !IsSpace(r[|r| - 1])
  {
    TrimEnd(TrimStart(s))
  }

  // ---------------------------------------------------------------------------
  // String(n) for integers

  function NatToString(n: nat): (s: string)
    ensures s != [] && forall i :: 0 <= i < |s| ==> IsDigit(s[i])
  {
    if n < 10 then [DigitChar(n)] else NatToString(n / 10) + [DigitChar(n % 10)]
  }

  /** The plain decimal text of an integer: JavaScript's `String(n)` for
      integers of magnitude below 10^21. */
  function IntToString(n: int): string {
    if n < 0 then "-" + NatToString(-n) else NatToString(n)
  }

  /** The smallest magnitude `String(n)` writes in exponent notation. */
  const ExponentThreshold: int := 1_000_000_000_000_000_000_000

  /** `ds` without its trailing zeros. */
  function DropTrailingZeros(ds: string): (r: string)
    ensures |r| <= |ds| && r == ds[..|r|]
    ensures forall i :: |r| <= i < |ds| ==> ds[i] == '0'
    ensures r != [] ==> r[|r| - 1] != '0'
  {
    if ds != [] && ds[|ds| - 1] == '0' then DropTrailingZeros(ds[..|ds| - 1]) else ds
  }

  /** `String(m)` for a magnitude of at least 10^21: the leading digit, the
      other significant digits after a point when there are any, then `e+`
      and the exponent (10^21 is "1e+21", 15 * 10^20 is "1.5e+21"). */
  function ExponentText(m: nat): string
    requires m >= ExponentThreshold
  {
    var ds := NatToString(m);
    var fraction := DropTrailingZeros(ds[1..]);
    [ds[0]] + (if fraction == [] then "" else "." + fraction) + "e+" + NatToString(|ds| - 1)
  }

  /** The text of a magnitude: decimal below 10^21, exponent notation from
      there on. */
  function MagnitudeText(m: nat): string {
    if m >= ExponentThreshold then ExponentText(m) else NatToString(m)
  }

  /** JavaScript's `String(n)` for an integer: a minus sign for a negative
      number, then the text of its magnitude. */
  function NumberToString(n: int): string {
    var magnitude: nat := if n < 0 then -n else n;
    (if n < 0 then "-" else "") + MagnitudeText(magnitude)
  }

  /** JavaScript's `String(v)` for the values modelled here. */
  function ToJsString(v: JsValue): string {
    match v
    case Undefined => "undefined"
    case Null => "null"
    case Num(n) => NumberToString(n)
    case Str(s) => s
  }

  // ---------------------------------------------------------------------------
  // parseInt(x, 10)

  /** Length of the run of decimal digits at the start of `s`. */
  function DigitRun(s: string): (n: nat)
    ensures n <= |s|
    ensures forall i :: 0 <= i < n ==> IsDigit(s[i])
    ensures n < |s| ==> !IsDigit(s[n])
  {
    if s != [] && IsDigit(s[0]) then 1 + DigitRun(s[1..]) else 0
  }

  predicate AllDigits(ds: string) {
    forall i :: 0 <= i < |ds| ==> IsDigit(ds[i])
  }

  /** The number a string of decimal digits denotes, most significant first. */
  function DecimalValue(ds: string): nat
    requires AllDigits(ds)
  {
    if ds == [] then 0 else DecimalValue(ds[..|ds| - 1]) * 10 + DigitValue(ds[|ds| - 1])
  }

  /** Length of the optional sign in front of the digits. */
  function SignLength(s: string): (k: nat)
    ensures k <= 1 && k <= |s|
  {
    if s != [] && (s[0] == '-' || s[0] == '+') then 1 else 0
  }

  /** The integer at the start of `s`, which must not start with white space:
      an optional sign and a non-empty run of digits; anything after the digits
      is ignored. `None` stands for `NaN`, which comes exactly when `s` does
      not start with an optionally signed digit; only a leading minus sign
      gives a negative number. */
  function ParsePrefix(s: string): (r: Option<int>)
    ensures r.None? <==> !StartsWithInteger(s)
    ensures r.Some? && r.value < 0 ==> s[0] == '-'
  {
    var k := SignLength(s);
    var unsigned := s[k..];
    var n := DigitRun(unsigned);
    assert k == 1 && |s| > 1 ==> unsigned[0] == s[1];
    assert k == 0 && |s| > 0 ==> unsigned[0] == s[0];
    if n == 0 then None
    else
      var magnitude: int := DecimalValue(unsigned[..n]);
      Some(if k == 1 && s[0] == '-' then -magnitude else magnitude)
  }

  /** `parseInt(v, 10)`: convert to a string, skip leading white space, read the
      integer prefix. Only a string can start with white space, so the other
      values are read as converted (`ParseIntTrimsStart` shows this is the
      same thing). `undefined` and `null` hold no digit and read as `NaN`. */
  function ParseInt(v: JsValue): (r: Option<int>)
    ensures v.Undefined? || v.Null? ==> r.None?
  {
    match v
    case Str(s) => ParseIntOfText(s)
    case _ => ParsePrefix(ToJsString(v))
  }

  /** `parseInt(s, 10)` of a string: skip leading white space, read the
      integer prefix. */
  function ParseIntOfText(s: string): Option<int> {
    ParsePrefix(TrimStart(s))
  }

  /** `ParseInt` is `parseInt`'s own recipe: convert to a string, trim the
      start, read the prefix. */
  lemma ParseIntTrimsStart(v: JsValue)
    ensures ParseInt(v) == ParsePrefix(TrimStart(ToJsString(v)))
  {
    if !v.Str? {
      var t := ToJsString(v);
      assert t != [] && !IsSpace(t[0]) by {
        if v.Num? {
          NumberToStringShape(v.n);
        }
      }
      assert TrimStart(t) == t;
    }
  }

  /** `s` starts with an integer `parseInt` can read: a digit, or a sign
      followed by a digit. */
  predicate StartsWithInteger(s: string) {
    (|s| > 0 && IsDigit(s[0])) || (|s| > 1 && (s[0] == '-' || s[0] == '+') && IsDigit(s[1]))
  }

  // ---------------------------------------------------------------------------
  // parseInt(x) with no radix

  predicate IsHexDigit(c: char) {
    IsDigit(c) || 'a' <= c <= 'f' || 'A' <= c <= 'F'
  }

  function HexDigitValue(c: char): (d: nat)
    requires IsHexDigit(c)
    ensures d < 16
  {
    if IsDigit(c) then DigitValue(c)
    else if 'a' <= c <= 'f' then c as int - 'a' as int + 10
    else c as int - 'A' as int + 10
  }

  /** Length of the run of hexadecimal digits at the start of `s`. */
  function HexRun(s: string): (n: nat)
    ensures n <= |s|
    ensures forall i :: 0 <= i < n ==> IsHexDigit(s[i])
    ensures n < |s| ==> !IsHexDigit(s[n])
  {
    if s != [] && IsHexDigit(s[0]) then 1 + HexRun(s[1..]) else 0
  }

  predicate AllHexDigits(ds: string) {
    forall i :: 0 <= i < |ds| ==> IsHexDigit(ds[i])
  }

  /** The number a string of hexadecimal digits denotes, most significant first. */
  function HexValue(ds: string): nat
    requires AllHexDigits(ds)
  {
    if ds == [] then 0 else HexValue(ds[..|ds| - 1]) * 16 + HexDigitValue(ds[|ds| - 1])
  }

  /** `0x` or `0X`, the prefix that switches a radix-less `parseInt` to base 16. */
  predicate HasHexPrefix(s: string) {
    |s| >= 2 && s[0] == '0' && (s[1] == 'x' || s[1] == 'X')
  }

  /** The integer at the start of `s` as `parseInt` reads it when no radix is
      given: after the optional sign, `0x` or `0X` introduces hexadecimal
      digits, of which there must be at least one; otherwise the text is read
      in decimal as by `ParsePrefix`. */
  function ParsePrefixNoRadix(s: string): Option<int> {
    var k := SignLength(s);
    var unsigned := s[k..];
    if HasHexPrefix(unsigned) then
      var digits := unsigned[2..];
      var n := HexRun(digits);
      if n == 0 then None
      else
        var magnitude: int := HexValue(digits[..n]);
        Some(if k == 1 && s[0] == '-' then -magnitude else magnitude)
    else
      ParsePrefix(s)
  }

  /** `parseInt(v)` with no radix: convert to a string, skip leading white
      space, read the integer prefix in base 16 after `0x`, else in base 10. */
  function ParseIntNoRadix(v: JsValue): Option<int> {
    match v
    case Str(s) => ParsePrefixNoRadix(TrimStart(s))
    case _ => ParsePrefixNoRadix(ToJsString(v))
  }

  // ---------------------------------------------------------------------------
  // Lemmas

  /** Lower-casing twice is lower-casing once. */
  lemma LowerIdempotent(s: string)
    ensures Lower(Lower(s)) == Lower(s)
  {
    forall i | 0 <= i < |s| ensures Lower(Lower(s))[i] == Lower(s)[i] {
      LowerCharIdempotent(s[i]);
    }
  }

  lemma LowerCharIdempotent(c: char)
    ensures LowerChar(LowerChar(c)) == LowerChar(c)
  {
  }

  /** Lower-casing a character keeps white space, digits and signs as they
      are and never turns anything else into one of them. */
  lemma LowerCharKeepsClass(c: char)
    ensures IsSpace(LowerChar(c)) <==> IsSpace(c)
    ensures IsDigit(LowerChar(c)) <==> IsDigit(c)
    ensures IsSpace(c) || IsDigit(c) || c == '-' || c == '+' ==> LowerChar(c) == c
  {
  }

  lemma LowerAppend(s: string, t: string)
    ensures Lower(s + t) == Lower(s) + Lower(t)
  {
    assert forall i :: 0 <= i < |s + t| ==> Lower(s + t)[i] == (Lower(s) + Lower(t))[i];
  }

  /** Lower-casing leaves text without letters (white space, digits, signs) as it is. */
  lemma LowerKeepsNonLetters(s: string)
    requires forall i :: 0 <= i < |s| ==> IsSpace(s[i]) || IsDigit(s[i]) || s[i] == '-' || s[i] == '+'
    ensures Lower(s) == s
  {
    forall i | 0 <= i < |s| ensures Lower(s)[i] == s[i] {
      LowerCharKeepsClass(s[i]);
    }
  }

  /** `Lower(s)` is `t` when `t` folds `s` character by character. */
  lemma LowerPointwise(s: string, t: string)
    requires |s| == |t|
    requires forall i :: 0 <= i < |s| ==> LowerChar(s[i]) == t[i]
    ensures Lower(s) == t
  {
  }

  /** The text of an integer is its own lower-casing. */
  lemma LowerOfIntegerText(n: int)
    ensures Lower(IntToString(n)) == IntToString(n)
  {
    var d := IntToString(n);
    IntToStringShape(n);
    forall i | 0 <= i < |d| ensures Lower(d)[i] == d[i] {
    }
  }

  /** Lower-casing the text of an integer followed by anything lower-cases
      only what follows. */
  lemma LowerOfIntegerTextAppend(n: int, rest: string)
    ensures Lower(IntToString(n) + rest) == IntToString(n) + Lower(rest)
  {
    LowerOfIntegerText(n);
    LowerAppend(IntToString(n), rest);
  }

  /** `toLowerCase` and `trim` commute: neither maps white space to anything
      else nor anything else to white space. */
  lemma {:induction false} TrimStartLower(s: string)
    ensures TrimStart(Lower(s)) == Lower(TrimStart(s))
  {
    if s != [] {
      assert Lower(s)[1..] == Lower(s[1..]);
      LowerCharKeepsClass(s[0]);
      if IsSpace(s[0]) {
        TrimStartLower(s[1..]);
      }
    }
  }

  lemma {:induction false} TrimEndLower(s: string)
    ensures TrimEnd(Lower(s)) == Lower(TrimEnd(s))
  {
    if s != [] {
      assert Lower(s)[..|s| - 1] == Lower(s[..|s| - 1]);
      LowerCharKeepsClass(s[|s| - 1]);
      if IsSpace(s[|s| - 1]) {
        TrimEndLower(s[..|s| - 1]);
      }
    }
  }

  lemma TrimLowerCommute(s: string)
    ensures Trim(Lower(s)) == Lower(Trim(s))
  {
    TrimStartLower(s);
    TrimEndLower(TrimStart(s));
  }

  predicate AllSpace(w: string) {
    forall i :: 0 <= i < |w| ==> IsSpace(w[i])
  }

  /** Leading white space does not survive `TrimStart`. */
  lemma {:induction false} TrimStartSkipsSpace(w: string, s: string)
    requires AllSpace(w)
    ensures TrimStart(w + s) == TrimStart(s)
  {
    if w != [] {
      assert (w + s)[0] == w[0];
      assert (w + s)[1..] == w[1..] + s;
      TrimStartSkipsSpace(w[1..], s);
    } else {
      assert w + s == s;
    }
  }

  /** Trailing white space does not survive `TrimEnd`. */
  lemma {:induction false} TrimEndSkipsSpace(s: string, w: string)
    requires AllSpace(w)
    ensures TrimEnd(s + w) == TrimEnd(s)
  {
    if w != [] {
      assert (s + w)[|s + w| - 1] == w[|w| - 1];
      assert (s + w)[..|s + w| - 1] == s + w[..|w| - 1];
      TrimEndSkipsSpace(s, w[..|w| - 1]);
    } else {
      assert s + w == s;
    }
  }

  /** What follows the first non-space character is kept by `TrimStart`;
      if there is none, only the tail's trimming counts. */
  lemma {:induction false} TrimStartAppend(s: string, t: string)
    ensures TrimStart(s) != [] ==> TrimStart(s + t) == TrimStart(s) + t
    ensures TrimStart(s) == [] ==> TrimStart(s + t) == TrimStart(t)
  {
    if s != [] {
      assert (s + t)[0] == s[0];
      if IsSpace(s[0]) {
        assert (s + t)[1..] == s[1..] + t;
        TrimStartAppend(s[1..], t);
      }
    } else {
      assert s + t == t;
    }
  }

  /** Surrounding white space never changes the result of `trim`. */
  lemma TrimIgnoresPadding(w1: string, s: string, w2: string)
    requires AllSpace(w1) && AllSpace(w2)
    ensures Trim(w1 + s + w2) == Trim(s)
  {
    assert w1 + s + w2 == w1 + (s + w2);
    TrimStartSkipsSpace(w1, s + w2);
    TrimStartAppend(s, w2);
    if TrimStart(s) != [] {
      TrimEndSkipsSpace(TrimStart(s), w2);
    } else {
      TrimStartSkipsSpace(w2, []);
      assert w2 + [] == w2;
    }
  }

  /** Text without white space at either end is its own trimming. */
  lemma TrimUnpadded(s: string)
    requires s == [] || (!IsSpace(s[0]) && !IsSpace(s[|s| - 1]))
    ensures Trim(s) == s
  {
  }

  /** A trimmed string has nothing left for `TrimStart` to remove. */
  lemma TrimStartOfTrim(s: string)
    ensures TrimStart(Trim(s)) == Trim(s)
  {
    var y := TrimStart(s);
    var r := TrimEnd(y);
    if r != [] {
      assert r[0] == y[0];
    }
  }

  /** The text of an integer: an optional minus sign and digits, ending in a digit. */
  lemma IntToStringShape(n: int)
    ensures var d := IntToString(n);
      d != [] && IsDigit(d[|d| - 1]) &&
      forall i :: 0 <= i < |d| ==> IsDigit(d[i]) || (i == 0 && d[i] == '-')
  {
  }

  /** Trimming the start of the text of an integer followed by anything
      removes nothing. */
  lemma TrimStartKeepsIntegerText(n: int, l: string)
    ensures TrimStart(IntToString(n) + l) == IntToString(n) + l
  {
    var d := IntToString(n);
    IntToStringShape(n);
    assert (d + l)[0] == d[0];
  }

  /** Trimming the end of the text of an integer followed by anything keeps
      at least the integer. */
  lemma TrimEndKeepsIntegerText(n: int, l: string)
    ensures |TrimEnd(IntToString(n) + l)| >= |IntToString(n)|
  {
    var d := IntToString(n);
    IntToStringShape(n);
    assert (d + l)[|d| - 1] == d[|d| - 1];
  }

  /** Trimming the text of an integer followed by anything keeps the integer. */
  lemma TrimKeepsIntegerText(n: int, l: string)
    ensures TrimStart(IntToString(n) + l) == IntToString(n) + l
    ensures |TrimEnd(IntToString(n) + l)| >= |IntToString(n)|
  {
    TrimStartKeepsIntegerText(n, l);
    TrimEndKeepsIntegerText(n, l);
  }

  /** Reading back the digits `NatToString` writes gives the number. */
  lemma {:induction false} DecimalValueOfNatToString(n: nat)
    ensures DecimalValue(NatToString(n)) == n
  {
    if n >= 10 {
      var s := NatToString(n);
      assert s[..|s| - 1] == NatToString(n / 10);
      DecimalValueOfNatToString(n / 10);
    }
  }

  lemma {:induction false} DigitRunPrefix(ds: string, rest: string)
    requires AllDigits(ds)
    requires rest == [] || !IsDigit(rest[0])
    ensures DigitRun(ds + rest) == |ds|
  {
    if ds != [] {
      assert (ds + rest)[1..] == ds[1..] + rest;
      DigitRunPrefix(ds[1..], rest);
    }
  }

  /** `parseInt` reads an unsigned run of digits followed by a non-digit. */
  lemma {:induction false} ParseUnsigned(ds: string, rest: string)
    requires ds != [] && AllDigits(ds)
    requires rest == [] || !IsDigit(rest[0])
    ensures ParsePrefix(ds + rest) == Some(DecimalValue(ds))
  {
    var s := ds + rest;
    assert s[0] == ds[0];
    assert SignLength(s) == 0;
    assert s[0..] == s;
    DigitRunPrefix(ds, rest);
    assert s[0..][..|ds|] == ds;
  }

  /** `parseInt` reads a minus sign and a run of digits followed by a non-digit. */
  lemma {:induction false} ParseNegative(ds: string, rest: string)
    requires ds != [] && AllDigits(ds)
    requires rest == [] || !IsDigit(rest[0])
    ensures ParsePrefix("-" + ds + rest) == Some(-(DecimalValue(ds) as int))
  {
    var s := "-" + ds + rest;
    assert SignLength(s) == 1;
    assert s[1..] == ds + rest;
    DigitRunPrefix(ds, rest);
    assert s[1..][..|ds|] == ds;
  }

  /** `parseInt` reads back what `String(n)` writes, whatever non-digit text follows. */
  lemma {:induction false} IntToStringRoundTrip(n: int, rest: string)
    requires rest == [] || !IsDigit(rest[0])
    ensures ParsePrefix(IntToString(n) + rest) == Some(n)
  {
    var m := if n < 0 then -n else n;
    DecimalValueOfNatToString(m);
    if n < 0 {
      ParseNegative(NatToString(m), rest);
    } else {
      ParseUnsigned(NatToString(m), rest);
    }
  }

  /** A character `String(n)` can write for an integer. */
  predicate IsNumberTextChar(c: char) {
    IsDigit(c) || c == '-' || c == '.' || c == 'e' || c == '+'
  }

  /** The exponent text of a large magnitude starts with its leading digit,
      followed by a point or the `e`. */
  lemma {:induction false} ExponentTextStart(m: nat)
    requires m >= ExponentThreshold
    ensures var t := ExponentText(m);
      |t| >= 2 && t[0] == NatToString(m)[0] && (t[1] == '.' || t[1] == 'e')
  {
  }

  /** The exponent text of a large magnitude holds nothing but digits, `.`,
      `e` and `+`. */
  lemma {:induction false} ExponentTextChars(m: nat)
    requires m >= ExponentThreshold
    ensures var t := ExponentText(m); forall i :: 0 <= i < |t| ==> IsNumberTextChar(t[i])
  {
    var ds := NatToString(m);
    var fraction := DropTrailingZeros(ds[1..]);
    assert forall i :: 0 <= i < |fraction| ==> fraction[i] == ds[1..][i];
    var point := if fraction == [] then "" else "." + fraction;
    assert forall i :: 0 <= i < |point| ==> IsNumberTextChar(point[i]);
    var exponent := NatToString(|ds| - 1);
    var t := [ds[0]] + point + "e+" + exponent;
    assert ExponentText(m) == t;
    forall i | 0 <= i < |t| ensures IsNumberTextChar(t[i]) {
      if i < 1 + |point| + 2 {
        assert t[i] == ([ds[0]] + point + "e+")[i];
      } else {
        assert t[i] == exponent[i - (1 + |point| + 2)];
      }
    }
  }

  /** What `parseInt` reads back from the text of a magnitude: all of it
      below 10^21, the leading digit from there on. */
  function MagnitudeRead(m: nat): nat {
    if m >= ExponentThreshold then DigitValue(NatToString(m)[0]) else m
  }

  /** The text of a magnitude is a run of digits followed by text that does
      not start with a digit: all of it below 10^21, the leading digit from
      there on. */
  lemma {:induction false} MagnitudeTextParts(m: nat) returns (ds: string, rest: string)
    ensures MagnitudeText(m) == ds + rest
    ensures ds != [] && AllDigits(ds)
    ensures rest == [] || !IsDigit(rest[0])
    ensures DecimalValue(ds) == MagnitudeRead(m)
  {
    if m >= ExponentThreshold {
      var t := ExponentText(m);
      ExponentTextStart(m);
      ds, rest := [t[0]], t[1..];
      assert DecimalValue(ds) == DigitValue(t[0]) by {
        assert ds[..0] == [];
      }
      assert t == ds + rest;
    } else {
      ds, rest := NatToString(m), [];
      DecimalValueOfNatToString(m);
      assert ds + rest == ds;
    }
  }

  /** The text of a magnitude starts with a digit and holds nothing but
      digits, `.`, `e` and `+`. */
  lemma {:induction false} MagnitudeTextShape(m: nat)
    ensures var t := MagnitudeText(m);
      t != [] && IsDigit(t[0]) && forall i :: 0 <= i < |t| ==> IsNumberTextChar(t[i])
  {
    if m >= ExponentThreshold {
      ExponentTextStart(m);
      ExponentTextChars(m);
    }
  }

  /** The text of any integer starts with a digit or a minus sign and holds
      nothing but digits, `-`, `.`, `e` and `+`. */
  lemma {:induction false} NumberToStringShape(n: int)
    ensures var d := NumberToString(n);
      d != [] && (IsDigit(d[0]) || d[0] == '-') &&
      forall i :: 0 <= i < |d| ==> IsNumberTextChar(d[i])
  {
    var m: nat := if n < 0 then -n else n;
    var t := MagnitudeText(m);
    MagnitudeTextShape(m);
    if n < 0 {
      var d := NumberToString(n);
      assert d == "-" + t;
      assert forall i :: 1 <= i < |d| ==> d[i] == t[i - 1];
    }
  }

  /** `parseInt` of a number that is not negative reads back the part of its
      magnitude its text shows in full. */
  lemma {:induction false} ParseNonNegativeNumber(n: int)
    requires n >= 0
    ensures ParseInt(Num(n)) == Some(MagnitudeRead(n))
  {
    var ds, rest := MagnitudeTextParts(n);
    assert ToJsString(Num(n)) == "" + MagnitudeText(n);
    assert "" + MagnitudeText(n) == ds + rest;
    ParseUnsigned(ds, rest);
  }

  /** `parseInt` of the text of a magnitude after a minus sign reads back the
      negated part of the magnitude the text shows in full. */
  lemma {:induction false} ParseNegativeMagnitude(m: nat)
    ensures ParsePrefix("-" + MagnitudeText(m)) == Some(-(MagnitudeRead(m) as int))
  {
    var ds, rest := MagnitudeTextParts(m);
    ParseNegative(ds, rest);
    assert "-" + MagnitudeText(m) == "-" + ds + rest;
  }

  /** `parseInt` of a negative number reads back the negated part of its
      magnitude its text shows in full. */
  lemma {:induction false} ParseNegativeNumber(m: nat)
    requires m > 0
    ensures ParseInt(Num(-(m as int))) == Some(-(MagnitudeRead(m) as int))
  {
    assert ToJsString(Num(-(m as int))) == "-" + MagnitudeText(m);
    ParseNegativeMagnitude(m);
  }

  /** `parseInt(n, 10)` of an integer below 10^21 in magnitude is the integer
      itself; from 10^21 on, `String(n)` is in exponent notation and only its
      leading digit, with the sign, is read. */
  lemma {:induction false} ParseIntOfNumber(n: int)
    ensures -ExponentThreshold < n < ExponentThreshold ==> ParseInt(Num(n)) == Some(n)
    ensures n >= ExponentThreshold ==> ParseInt(Num(n)) == Some(DigitValue(NatToString(n)[0]))
    ensures n <= -ExponentThreshold ==> ParseInt(Num(n)) == Some(-(DigitValue(NatToString(-n)[0]) as int))
  {
    if n < 0 {
      var m: nat := -n;
      ParseNegativeNumber(m);
      assert -(m as int) == n;
    } else {
      ParseNonNegativeNumber(n);
    }
  }

  /** Without a radix, `parseInt` of a number reads it as `parseInt(n, 10)`
      does: the text of a number never holds an `x`. */
  lemma {:induction false} ParseIntNoRadixOfNumber(n: int)
    ensures ParseIntNoRadix(Num(n)) == ParseInt(Num(n))
  {
    var t := NumberToString(n);
    NumberToStringShape(n);
    var k := SignLength(t);
    if |t[k..]| >= 2 {
      assert t[k..][1] == t[k + 1];
    }
  }

  /** Without a radix, `undefined` and `null` read as `NaN`, as they do with
      radix 10. */
  lemma ParseIntNoRadixOfMissing()
    ensures ParseIntNoRadix(Undefined).None? && ParseIntNoRadix(Null).None?
  {
    assert !HasHexPrefix("undefined") && !HasHexPrefix("null");
  }

  lemma {:induction false} HexRunPrefix(ds: string, rest: string)
    requires AllHexDigits(ds)
    requires rest == [] || !IsHexDigit(rest[0])
    ensures HexRun(ds + rest) == |ds|
  {
    if ds != [] {
      assert (ds + rest)[1..] == ds[1..] + rest;
      HexRunPrefix(ds[1..], rest);
    }
  }

  /** Without a radix, `0x` or `0X` and a run of hexadecimal digits followed
      by anything else is read in base 16. */
  lemma {:induction false} HexPrefixRead(x: char, ds: string, rest: string)
    requires x == 'x' || x == 'X'
    requires ds != [] && AllHexDigits(ds)
    requires rest == [] || !IsHexDigit(rest[0])
    ensures ParsePrefixNoRadix("0" + [x] + ds + rest) == Some(HexValue(ds))
  {
    var s := "0" + [x] + ds + rest;
    assert SignLength(s) == 0;
    assert s[0..] == s;
    assert s[2..] == ds + rest;
    HexRunPrefix(ds, rest);
    assert (ds + rest)[..|ds|] == ds;
  }

  /** Without a radix, `0x` with no hexadecimal digit after it is `NaN`,
      where `parseInt(s, 10)` reads the `0`. */
  lemma {:induction false} HexPrefixWithoutDigits(x: char, rest: string)
    requires x == 'x' || x == 'X'
    requires rest == [] || !IsHexDigit(rest[0])
    ensures ParsePrefixNoRadix("0" + [x] + rest) == None
    ensures ParsePrefix("0" + [x] + rest) == Some(0)
  {
    var s := "0" + [x] + rest;
    assert SignLength(s) == 0;
    assert s[0..] == s;
    assert s[2..] == rest;
    ParseUnsigned("0", [x] + rest);
    assert "0" + ([x] + rest) == s;
  }

  /** Without a radix, `parseInt("0x1A")` is 26. The text is given character
      by character, which says the same as `s == "0x1A"` but keeps the solver
      from evaluating the recursive functions on a literal. */
  lemma {:induction false} HexExample(s: string)
    requires |s| == 4 && s[0] == '0' && s[1] == 'x' && s[2] == '1' && s[3] == 'A'
    ensures ParseIntNoRadix(Str(s)) == Some(26)
  {
    assert TrimStart(s) == s by {
      assert !IsSpace(s[0]);
    }
    var ds := s[2..];
    assert ParsePrefixNoRadix(s) == Some(HexValue(ds)) by {
      HexPrefixRead('x', ds, []);
      assert s == "0" + ['x'] + ds + [];
    }
    assert HexValue(ds) == 26 by {
      var lead := ds[..|ds| - 1];
      assert lead[..|lead| - 1] == [];
      assert HexValue(lead) == HexDigitValue(s[2]) == 1;
      assert HexDigitValue(ds[|ds| - 1]) == HexDigitValue(s[3]) == 10;
    }
  }

  /** The radix matters: `parseInt("0x1A")` is 26, `parseInt("0x1A", 10)` is
      0. The text is given character by character, as in `HexExample`. */
  lemma {:induction false} RadixMatters(s: string)
    requires |s| == 4 && s[0] == '0' && s[1] == 'x' && s[2] == '1' && s[3] == 'A'
    ensures ParseIntNoRadix(Str(s)) == Some(26)
    ensures ParseInt(Str(s)) == Some(0)
  {
    HexExample(s);
    assert TrimStart(s) == s by {
      assert !IsSpace(s[0]);
    }
    var zero := s[..1];
    assert DecimalValue(zero) == 0 by {
      assert zero[..0] == [];
    }
    ParseUnsigned(zero, s[1..]);
    assert zero + s[1..] == s;
  }


  /** `parseInt` of a single digit is that digit's value. */
  lemma SingleDigitParse(d: char)
    requires IsDigit(d)
    ensures ParsePrefix([d]) == Some(DigitValue(d))
  {
    assert DigitRun([d]) == 1;
    assert [d][0..1] == [d];
    assert [d][..0] == [];
    assert DecimalValue([d]) == DigitValue(d);
  }
}
