/** The JavaScript string operations the handlers and the upload filter lean on:
    `String.prototype.trim`, lower-casing, substring search, and the global
    `parseInt` (ECMAScript section 19.2.5, called without a radix). */
module JsStrings {
  import opened Wrappers

  /** JavaScript truthiness of a string that may be `undefined` or `null`
      (`None`): the empty string is falsy too. */
  predicate Truthy(s: Option<string>) {
    s.Some? && s.value != ""
  }

  /** ECMAScript WhiteSpace and LineTerminator code points, which both `trim`
      and `parseInt` skip. */
  predicate IsWhitespace(c: char) {
    var n := c as int;
    n == 0x09 || n == 0x0A || n == 0x0B || n == 0x0C || n == 0x0D || n == 0x20
    || n == 0xA0 || n == 0x1680 || (0x2000 <= n <= 0x200A) || n == 0x2028
    || n == 0x2029 || n == 0x202F || n == 0x205F || n == 0x3000 || n == 0xFEFF
  }

  predicate AllWhitespace(s: string) {
    forall i :: 0 <= i < |s| ==> IsWhitespace(s[i])
  }

  /** Drops leading whitespace. */
  function TrimStart(s: string): (r: string)
    ensures |r| <= |s| && r == s[|s| - |r|..]
    ensures AllWhitespace(s[..|s| - |r|])
    ensures r == [] || !IsWhitespace(r[0])
  {
    if s == [] || !IsWhitespace(s[0]) then s else TrimStart(s[1..])
  }

  /** Drops trailing whitespace. */
  function TrimEnd(s: string): (r: string)
    ensures |r| <= |s| && r == s[..|r|]
    ensures AllWhitespace(s[|r|..])
    ensures r == [] || !IsWhitespace(r[|r| - 1])
  {
    if s == [] || !IsWhitespace(s[|s| - 1]) then s else TrimEnd(s[..|s| - 1])
  }

  /** `s.trim()` */
  function Trim(s: string): string {
    TrimEnd(TrimStart(s))
  }

  /** `s.trim().length === 0` holds exactly for strings made only of whitespace. */
  lemma TrimEmptyIff(s: string)
    ensures Trim(s) == [] <==> AllWhitespace(s)
  {
    var t := TrimStart(s);
    if Trim(s) == [] {
      assert t[0..] == t;
      assert t == [];
      assert s[..|s|] == s;
    } else {
      var r := Trim(s);
      assert !IsWhitespace(r[0]);
      assert r[0] == s[|s| - |t|];
    }
  }

  /** Lower-casing of the ASCII letters; every other character is kept. */
  function LowerChar(c: char): (r: char)
    ensures 'A' <= c <= 'Z' ==> 'a' <= r <= 'z'
    ensures !('A' <= c <= 'Z') ==> r == c
  {
    if 'A' <= c <= 'Z' then (c as int + 32) as char else c
  }

  /** `s.toLowerCase()`, restricted to ASCII letters. */
  function Lower(s: string): (r: string)
    ensures |r| == |s|
    ensures forall i :: 0 <= i < |s| ==> r[i] == LowerChar(s[i])
  {
    seq(|s|, i requires 0 <= i < |s| => LowerChar(s[i]))
  }

  /** `needle` occurs in `hay` starting at index `i`. */
  predicate OccursAt(hay: string, needle: string, i: int) {
    0 <= i && i + |needle| <= |hay| && hay[i..i + |needle|] == needle
  }

  /** `hay.includes(needle)`, also what an unanchored regular-expression literal
      without metacharacters tests. */
  predicate Contains(hay: string, needle: string) {
    exists i | 0 <= i <= |hay| - |needle| :: OccursAt(hay, needle, i)
  }

  /** If `needle` occurs in `hay`, it occurs in the lower-cased strings too. */
  lemma ContainsLower(hay: string, needle: string)
    requires Contains(hay, needle)
    ensures Contains(Lower(hay), Lower(needle))
  {
    var i :| 0 <= i <= |hay| - |needle| && OccursAt(hay, needle, i);
    var lh, ln := Lower(hay), Lower(needle);
    forall k | 0 <= k < |needle| ensures lh[i..i + |needle|][k] == ln[k] {
      assert hay[i..i + |needle|][k] == needle[k];
    }
    assert OccursAt(lh, ln, i);
  }

  /** A needle longer than the haystack never occurs in it. */
  lemma NotContainsLonger(hay: string, needle: string)
    requires |hay| < |needle|
    ensures !Contains(hay, needle)
  {
  }

  /** An occurrence moves right by the length of a prefix put in front. */
  lemma OccursAfterPrefix(pre: string, hay: string, needle: string, i: int)
    requires OccursAt(hay, needle, i)
    ensures OccursAt(pre + hay, needle, |pre| + i)
  {
    var h := pre + hay;
    forall j | 0 <= j < |needle| ensures h[|pre| + i..|pre| + i + |needle|][j] == needle[j] {
      assert h[|pre| + i + j] == hay[i + j];
      assert hay[i..i + |needle|][j] == needle[j];
    }
  }

  /** A needle with a character the haystack lacks never occurs in it. */
  lemma NotContainsMissingChar(hay: string, needle: string, k: int)
    requires 0 <= k < |needle| && needle[k] !in hay
    ensures !Contains(hay, needle)
  {
    forall i | 0 <= i <= |hay| - |needle| ensures !OccursAt(hay, needle, i) {
      assert hay[i + k] in hay;
      assert hay[i..i + |needle|][k] == hay[i + k] != needle[k];
    }
  }

  /** Value of a character as a digit of radix up to 36; 36 for a non-digit. */
  function DigitValue(c: char): (v: nat)
    ensures v <= 36
    ensures v < 10 <==> '0' <= c <= '9'
  {
    if '0' <= c <= '9' then c as int - '0' as int
    else if 'a' <= c <= 'z' then c as int - 'a' as int + 10
    else if 'A' <= c <= 'Z' then c as int - 'A' as int + 10
    else 36
  }

  predicate IsDecimalDigit(c: char) {
    '0' <= c <= '9'
  }

  /** The longest prefix of `s` made of radix-`radix` digits. */
  function LeadingDigits(s: string, radix: nat): (r: string)
    ensures |r| <= |s| && r == s[..|r|]
    ensures forall i :: 0 <= i < |r| ==> DigitValue(r[i]) < radix
    ensures |r| < |s| ==> DigitValue(s[|r|]) >= radix
  {
    if s == [] || DigitValue(s[0]) >= radix then [] else [s[0]] + LeadingDigits(s[1..], radix)
  }

  /** The number a string of digits denotes in the given radix. */
  function DigitsValue(z: string, radix: nat): nat {
    if z == [] then 0
    else DigitsValue(z[..|z| - 1], radix) * radix + DigitValue(z[|z| - 1])
  }

  /** `parseInt(s)` with no radix: skip leading whitespace, read an optional
      sign, switch to radix 16 on a `0x`/`0X` prefix, then take the digits up to
      the first non-digit. `None` stands for `NaN` (no digit at all). */
  function ParseInt(s: string): Option<int> {
    ParseSigned(TrimStart(s))
  }

  /** The steps of `parseInt` after the leading whitespace is gone. */
  function ParseSigned(t: string): Option<int> {
    var negative := |t| > 0 && t[0] == '-';
    var u := if |t| > 0 && (t[0] == '-' || t[0] == '+') then t[1..] else t;
    match ParseMagnitude(u)
    case None => None
    case Some(m) => Some(if negative then -(m as int) else m)
  }

  predicate HasHexPrefix(u: string) {
    |u| >= 2 && u[0] == '0' && (u[1] == 'x' || u[1] == 'X')
  }

  /** The unsigned part: radix 16 after `0x`/`0X`, radix 10 otherwise. */
  function ParseMagnitude(u: string): Option<nat> {
    var radix := if HasHexPrefix(u) then 16 else 10;
    var z := LeadingDigits(if HasHexPrefix(u) then u[2..] else u, radix);
    if z == [] then None else Some(DigitsValue(z, radix))
  }

  /** Decimal numeral of a natural number, without leading zeros. */
  function DecimalString(n: nat): (r: string)
    ensures |r| > 0
    ensures forall i :: 0 <= i < |r| ==> IsDecimalDigit(r[i])
    ensures r[0] == '0' <==> n == 0
    ensures n >= 10 ==> |r| >= 2
  {
    var d := ['0' + (n % 10) as char];
    if n < 10 then d else DecimalString(n / 10) + d
  }

  lemma {:induction false} DecimalStringValue(n: nat)
    ensures DigitsValue(DecimalString(n), 10) == n
  {
    var r := DecimalString(n);
    if n >= 10 {
      DecimalStringValue(n / 10);
      assert r[..|r| - 1] == DecimalString(n / 10);
    }
  }

  lemma {:induction false} LeadingDigitsStopAt(z: string, rest: string, radix: nat)
    requires forall i :: 0 <= i < |z| ==> DigitValue(z[i]) < radix
    requires rest == [] || DigitValue(rest[0]) >= radix
    ensures LeadingDigits(z + rest, radix) == z
  {
    if z != [] {
      assert (z + rest)[1..] == z[1..] + rest;
      LeadingDigitsStopAt(z[1..], rest, radix);
    } else {
      assert z + rest == rest;
    }
  }

  lemma {:induction false} TrimStartNoLeadingSpace(ws: string, t: string)
    requires AllWhitespace(ws)
    requires t == [] || !IsWhitespace(t[0])
    ensures TrimStart(ws + t) == t
  {
    if ws == [] {
      assert ws + t == t;
    } else {
      assert (ws + t)[0] == ws[0];
      assert (ws + t)[1..] == ws[1..] + t;
      TrimStartNoLeadingSpace(ws[1..], t);
    }
  }

  /** The sign a numeral may carry in front of its digits. */
  datatype Sign = Unsigned | Plus | Minus {
    function Text(): string {
      match this
      case Unsigned => ""
      case Plus => "+"
      case Minus => "-"
    }
    function Apply(m: nat): int {
      if Minus? then -(m as int) else m
    }
  }

  /** Round trip: `parseInt` reads back a decimal numeral, whatever whitespace
      precedes it, whatever sign it carries and whatever non-digit follows it.
      After a lone `0` the follower must not be `x`/`X`, which would make the
      text a hexadecimal prefix. */
  lemma ParseIntDecimal(ws: string, sign: Sign, n: nat, rest: string)
    requires AllWhitespace(ws)
    requires rest == [] || !IsDecimalDigit(rest[0])
    requires n == 0 && rest != [] ==> rest[0] != 'x' && rest[0] != 'X'
    ensures ParseInt(ws + sign.Text() + DecimalString(n) + rest) == Some(sign.Apply(n))
  {
    var t := sign.Text() + DecimalString(n) + rest;
    ConcatAssoc(ws, sign.Text(), DecimalString(n), rest);
    ParseSignedDecimal(sign, n, rest);
    TrimStartNoLeadingSpace(ws, t);
  }

  lemma ConcatAssoc(a: string, b: string, c: string, d: string)
    ensures a + b + c + d == a + (b + c + d)
  {
  }

  /** A bare numeral with an optional sign reads back as its value. */
  lemma ParseIntNumeral(sign: Sign, n: nat)
    ensures ParseInt(sign.Text() + DecimalString(n)) == Some(sign.Apply(n))
  {
    ParseIntDecimal("", sign, n, "");
    var d := DecimalString(n);
    ConcatAssoc("", sign.Text(), d, "");
    assert "" + (sign.Text() + d + "") == sign.Text() + d;
  }

  lemma ParseSignedDecimal(sign: Sign, n: nat, rest: string)
    requires rest == [] || !IsDecimalDigit(rest[0])
    requires n == 0 && rest != [] ==> rest[0] != 'x' && rest[0] != 'X'
    ensures var t := sign.Text() + DecimalString(n) + rest;
      |t| > 0 && !IsWhitespace(t[0]) && ParseSigned(t) == Some(sign.Apply(n))
  {
    var u := DecimalString(n) + rest;
    assert sign.Text() + DecimalString(n) + rest == sign.Text() + u;
    ParseMagnitudeDecimal(n, rest);
    SignThenDigits(sign, u);
  }

  /** A sign followed by a digit: `parseInt` applies the sign to the magnitude. */
  lemma SignThenDigits(sign: Sign, u: string)
    requires |u| > 0 && IsDecimalDigit(u[0])
    ensures var t := sign.Text() + u;
      |t| > 0 && !IsWhitespace(t[0])
      && ParseSigned(t) == match ParseMagnitude(u) { case None => None case Some(m) => Some(sign.Apply(m)) }
  {
    var t := sign.Text() + u;
    if sign.Unsigned? {
      assert t == u;
    } else {
      assert t[0] == sign.Text()[0];
      assert t[1..] == u;
    }
  }

  lemma ParseMagnitudeDecimal(n: nat, rest: string)
    requires rest == [] || !IsDecimalDigit(rest[0])
    requires n == 0 && rest != [] ==> rest[0] != 'x' && rest[0] != 'X'
    ensures ParseMagnitude(DecimalString(n) + rest) == Some(n)
  {
    var d := DecimalString(n);
    var u := d + rest;
    assert !HasHexPrefix(u) by {
      if n == 0 {
        assert |d| == 1;
        if rest != [] { assert u[1] == rest[0]; }
      } else {
        assert u[0] == d[0];
      }
    }
    LeadingDigitsStopAt(d, rest, 10);
    DecimalStringValue(n);
  }

  /** `parseInt` gives `NaN` when the first non-blank character starts no number. */
  lemma ParseIntNoDigits(s: string)
    requires TrimStart(s) != []
    requires DigitValue(TrimStart(s)[0]) >= 10
    requires TrimStart(s)[0] != '-' && TrimStart(s)[0] != '+'
    ensures ParseInt(s) == None
  {
  }

  /** An absent query parameter reaches `parseInt` as the string "undefined",
      which gives `NaN`; so does the empty string. */
  lemma ParseIntUndefined()
    ensures ParseInt("undefined") == None
    ensures ParseInt("") == None
  {
    assert !IsWhitespace('u');
    ParseIntNoDigits("undefined");
  }

  /** With no radix given, a `0x` prefix switches `parseInt` to hexadecimal. */
  lemma ParseIntHex()
    ensures ParseInt("0x10") == Some(16)
  {
    assert TrimStart("0x10") == "0x10" by { assert !IsWhitespace('0'); }
    assert HasHexPrefix("0x10") && "0x10"[2..] == "10";
    LeadingDigitsStopAt("10", "", 16);
    assert "10" + "" == "10";
    assert DigitsValue("10", 16) == 16 by {
      assert "10"[..1] == "1";
      assert "1"[..0] == "";
    }
  }
}
