/** The JavaScript value semantics the controllers lean on: truthiness (`!x`,
    `x || y`), nullish coalescing (`x ?? y`), `String.prototype.trim`, `String(x)`
    for integers, and the global `parseInt` with and without an explicit radix. */
module JsText {
  import opened Wrappers

  /** A value as it reaches a controller from a request body, a JSON payload or a
      database row. Numbers are integers; NaN is a case of its own. */
  datatype JsValue = Undefined | Null | Str(s: string) | Num(n: int) | NaN | Bool(b: bool)

  /** JavaScript's ToBoolean: what `if (x)` and `!x` test. */
  predicate Truthy(v: JsValue) {
    match v
    case Undefined => false
    case Null => false
    case Str(s) => s != ""
    case Num(n) => n != 0
    case NaN => false
    case Bool(b) => b
  }

  /** A multipart form field: absent, or the text that was sent. */
  function Field(f: Option<string>): (v: JsValue)
    ensures Truthy(v) <==> f.Some? && f.value != ""
  {
    if f.Some? then Str(f.value) else Undefined
  }

  /** `a || b` */
  function Or(a: JsValue, b: JsValue): JsValue {
    if Truthy(a) then a else b
  }

  /** `a ?? b` */
  function Coalesce(a: JsValue, b: JsValue): JsValue {
    if a.Undefined? || a.Null? then b else a
  }

  // ---------------------------------------------------------------------------
  // trim

  /** ECMAScript WhiteSpace and LineTerminator code points: what `trim` removes. */
  predicate IsWhiteSpace(c: char) {
    || c == '\t' || c == '\n' || c == '\U{B}' || c == '\U{C}' || c == '\r' || c == ' '
    || c == '\U{A0}' || c == '\U{1680}' || ('\U{2000}' <= c <= '\U{200A}')
    || c == '\U{2028}' || c == '\U{2029}' || c == '\U{202F}' || c == '\U{205F}'
    || c == '\U{3000}' || c == '\U{FEFF}'
  }

  predicate AllWhiteSpace(s: string) {
    forall i :: 0 <= i < |s| ==> IsWhiteSpace(s[i])
  }

  /** `trimStart`: the longest suffix that does not start with white space. */
  function TrimStart(s: string): (r: string)
    ensures |r| <= |s| && r == s[|s| - |r|..]
    ensures r == "" || !IsWhiteSpace(r[0])
  {
    if s != [] && IsWhiteSpace(s[0]) then TrimStart(s[1..]) else s
  }

  /** `trimEnd`: the longest prefix that does not end with white space. */
  function TrimEnd(s: string): (r: string)
    ensures |r| <= |s| && r == s[..|r|]
    ensures r == "" || !IsWhiteSpace(r[|r| - 1])
  {
    if s != [] && IsWhiteSpace(s[|s| - 1]) then TrimEnd(s[..|s| - 1]) else s
  }

  /** What `trimStart` removes is white space. */
  lemma {:induction false} TrimStartDrops(s: string)
    ensures AllWhiteSpace(s[..|s| - |TrimStart(s)|])
  {
    if s != [] && IsWhiteSpace(s[0]) {
      var r := TrimStart(s[1..]);
      TrimStartDrops(s[1..]);
      forall i | 0 < i < |s| - |r| ensures IsWhiteSpace(s[i]) {
        assert s[i] == s[1..][..|s| - 1 - |r|][i - 1];
      }
    }
  }

  /** What `trimEnd` removes is white space. */
  lemma {:induction false} TrimEndDrops(s: string)
    ensures AllWhiteSpace(s[|TrimEnd(s)|..])
  {
    if s != [] && IsWhiteSpace(s[|s| - 1]) {
      var r := TrimEnd(s[..|s| - 1]);
      TrimEndDrops(s[..|s| - 1]);
      assert s[|r|..] == s[..|s| - 1][|r|..] + [s[|s| - 1]];
    }
  }

  function Trim(s: string): string {
    TrimEnd(TrimStart(s))
  }

  /** A trimmed text that is not empty starts and ends with a character
      that is no white space. */
  lemma TrimEnds(s: string)
    ensures Trim(s) == "" || (!IsWhiteSpace(Trim(s)[0]) && !IsWhiteSpace(Trim(s)[|Trim(s)| - 1]))
  {
    var t := Trim(s);
    if t != "" {
      assert t[0] == TrimStart(s)[0];
    }
  }

  /** The `isEmpty` helper of the activity controllers
      (src/controllers/ActividadController.ts:88-91, LudicaController.ts:27-30). */
  predicate IsEmpty(v: JsValue) {
    match v
    case Str(s) => Trim(s) == ""
    case _ => v.Undefined? || v.Null?
  }

  /** A string is empty for `isEmpty` exactly when it is all white space; any
      other value exactly when it is undefined or null. */
  lemma IsEmptyIff(v: JsValue)
    ensures IsEmpty(v) <==> (v.Str? && AllWhiteSpace(v.s)) || v.Undefined? || v.Null?
  {
    if v.Str? {
      var s := v.s;
      var t := TrimStart(s);
      if Trim(s) == "" {
        TrimStartDrops(s);
        TrimEndDrops(t);
        assert t[|TrimEnd(t)|..] == t;
      }
    }
  }

  // ---------------------------------------------------------------------------
  // Lower case (ASCII letters only)

  function ToLowerChar(c: char): char {
    if 'A' <= c <= 'Z' then (c as int + 32) as char else c
  }

  function ToLower(s: string): (r: string)
    ensures |r| == |s|
  {
    if s == [] then [] else [ToLowerChar(s[0])] + ToLower(s[1..])
  }

  // ---------------------------------------------------------------------------
  // Decimal text of integers: `String(n)` and template literals

  predicate IsDigit(c: char) {
    '0' <= c <= '9'
  }

  predicate AllDigits(s: string) {
    forall i :: 0 <= i < |s| ==> IsDigit(s[i])
  }

  function DigitChar(d: nat): (c: char)
    requires d < 10
    ensures IsDigit(c)
  {
    (48 + d) as char
  }

  /** The decimal numeral of `n`: digits only, and a leading `0` only for zero. */
  function NatText(n: nat): (r: string)
    ensures |r| >= 1 && AllDigits(r)
    ensures (r[0] == '0') == (n == 0)
  {
    if n < 10 then [DigitChar(n)] else NatText(n / 10) + [DigitChar(n % 10)]
  }

  function IntText(n: int): string {
    if n < 0 then "-" + NatText(-n) else NatText(n)
  }

  /** `String(v)`. */
  function ToText(v: JsValue): string {
    match v
    case Undefined => "undefined"
    case Null => "null"
    case Str(s) => s
    case Num(n) => IntText(n)
    case NaN => "NaN"
    case Bool(b) => if b then "true" else "false"
  }

  // ---------------------------------------------------------------------------
  // parseInt

  /** `parseInt(x, 10)` or `parseInt(x)`: without a radix a `0x`/`0X` prefix
      switches to base 16. */
  datatype Radix = Base10 | NoRadix

  predicate IsHexDigit(c: char) {
    IsDigit(c) || 'a' <= c <= 'f' || 'A' <= c <= 'F'
  }

  predicate IsDigitIn(c: char, hex: bool) {
    if hex then IsHexDigit(c) else IsDigit(c)
  }

  /** The value of a hexadecimal digit (0 for any other character, to which it
      is never applied). */
  function HexValue(c: char): (d: nat)
    ensures d < 16
  {
    if '0' <= c <= '9' then c as int - 48
    else if 'a' <= c <= 'f' then c as int - 87
    else if 'A' <= c <= 'F' then c as int - 55
    else 0
  }

  /** Length of the longest prefix of digits. */
  function DigitRun(s: string, hex: bool): (k: nat)
    ensures k <= |s|
  {
    if s != [] && IsDigitIn(s[0], hex) then 1 + DigitRun(s[1..], hex) else 0
  }

  /** The run is all digits and stops at the first character that is not one. */
  lemma {:induction false} DigitRunIsLongest(s: string, hex: bool)
    ensures forall i :: 0 <= i < DigitRun(s, hex) ==> IsDigitIn(s[i], hex)
    ensures DigitRun(s, hex) == |s| || !IsDigitIn(s[DigitRun(s, hex)], hex)
  {
    if s != [] && IsDigitIn(s[0], hex) {
      DigitRunIsLongest(s[1..], hex);
      forall i | 1 <= i < DigitRun(s, hex) ensures IsDigitIn(s[i], hex) {
        assert s[i] == s[1..][i - 1];
      }
    }
  }

  /** The number the digits `d` spell in base 10 or 16. */
  function DigitsValue(d: string, hex: bool): nat {
    if d == [] then 0
    else DigitsValue(d[..|d| - 1], hex) * (if hex then 16 else 10) + HexValue(d[|d| - 1])
  }

  /** The digits after the sign: a `0x`/`0X` prefix selects base 16 when no
      radix is given; None when no digit follows. */
  function UnsignedPart(u: string, radix: Radix): Option<nat> {
    var hex := radix == NoRadix && |u| >= 2 && u[0] == '0' && (u[1] == 'x' || u[1] == 'X');
    var body := if hex then u[2..] else u;
    var k := DigitRun(body, hex);
    if k == 0 then None else Some(DigitsValue(body[..k], hex))
  }

  /** `parseInt(text, 10)` / `parseInt(text)`; None is NaN. Leading white
      space is skipped. */
  function ParseInt(text: string, radix: Radix): Option<int> {
    ParseSigned(TrimStart(text), radix)
  }

  /** An optional sign, then the digits. A negative zero is 0. */
  function ParseSigned(s: string, radix: Radix): Option<int> {
    var u := if |s| > 0 && (s[0] == '-' || s[0] == '+') then s[1..] else s;
    match UnsignedPart(u, radix)
    case None => None
    case Some(m) => Some(if |s| > 0 && s[0] == '-' then -(m as int) else m as int)
  }

  lemma {:induction false} DigitRunStops(d: string, rest: string, hex: bool)
    requires forall i :: 0 <= i < |d| ==> IsDigitIn(d[i], hex)
    requires rest == "" || !IsDigitIn(rest[0], hex)
    ensures DigitRun(d + rest, hex) == |d|
  {
    if d != [] {
      assert (d + rest)[1..] == d[1..] + rest;
      DigitRunStops(d[1..], rest, hex);
    } else {
      assert d + rest == rest;
    }
  }

  lemma {:induction false} NatTextValue(n: nat)
    ensures DigitsValue(NatText(n), false) == n
  {
    if n >= 10 {
      var d := NatText(n);
      assert d[..|d| - 1] == NatText(n / 10);
      NatTextValue(n / 10);
    }
  }

  lemma TrimStartKeeps(s: string)
    requires s == "" || !IsWhiteSpace(s[0])
    ensures TrimStart(s) == s
  {
  }

  /** Text that starts with a digit has no sign. */
  lemma ParseSignedDigit(s: string, radix: Radix)
    requires s != "" && IsDigit(s[0])
    ensures ParseSigned(s, radix) == match UnsignedPart(s, radix)
                                     case None => None
                                     case Some(m) => Some(m as int)
  {
  }

  /** Text that does not start with white space is parsed as it stands. */
  lemma ParseIntUntrimmed(s: string, radix: Radix)
    requires s == "" || !IsWhiteSpace(s[0])
    ensures ParseInt(s, radix) == ParseSigned(s, radix)
  {
    TrimStartKeeps(s);
  }

  lemma UnsignedDigits(d: string, rest: string, radix: Radix)
    requires |d| >= 1 && AllDigits(d)
    requires rest == "" || !IsDigit(rest[0])
    requires radix == NoRadix ==> d[0] != '0' || |d| > 1 || rest == "" || (rest[0] != 'x' && rest[0] != 'X')
    ensures UnsignedPart(d + rest, radix) == Some(DigitsValue(d, false))
  {
    var s := d + rest;
    if radix == NoRadix && |s| >= 2 && s[0] == '0' {
      if |d| > 1 {
        assert s[1] == d[1];
      } else {
        assert s[1] == rest[0];
      }
    }
    DigitRunStops(d, rest, false);
    assert s[..|d|] == d;
  }

  /** parseInt reads the longest run of leading decimal digits and ignores the rest
      of the text ("12abc" gives 12). */
  lemma LeadingDigits(d: string, rest: string, radix: Radix)
    requires |d| >= 1 && AllDigits(d)
    requires rest == "" || !IsDigit(rest[0])
    requires radix == NoRadix ==> d[0] != '0' || |d| > 1 || rest == "" || (rest[0] != 'x' && rest[0] != 'X')
    ensures ParseInt(d + rest, radix) == Some(DigitsValue(d, false))
  {
    var s := d + rest;
    assert s[0] == d[0];
    ParseIntUntrimmed(s, radix);
    ParseSignedDigit(s, radix);
    UnsignedDigits(d, rest, radix);
  }

  lemma ParseIntUnsigned(s: string, radix: Radix, m: nat)
    requires s != "" && IsDigit(s[0])
    requires UnsignedPart(s, radix) == Some(m)
    ensures ParseInt(s, radix) == Some(m)
  {
    ParseIntUntrimmed(s, radix);
    ParseSignedDigit(s, radix);
  }

  lemma ParseIntNegative(s: string, radix: Radix, m: nat)
    requires s != "" && s[0] == '-'
    requires UnsignedPart(s[1..], radix) == Some(m)
    ensures ParseInt(s, radix) == Some(-(m as int))
  {
    ParseIntUntrimmed(s, radix);
  }

  /** Text that starts with neither white space, a sign nor a digit is NaN. */
  lemma NoLeadingDigit(s: string, radix: Radix)
    requires s != "" && !IsWhiteSpace(s[0]) && !IsDigit(s[0]) && s[0] != '-' && s[0] != '+'
    ensures ParseInt(s, radix).None?
  {
    ParseIntUntrimmed(s, radix);
  }

  /** parseInt inverts `String(n)` for every integer n, with or without a radix. */
  lemma IntTextRoundTrip(n: int, radix: Radix)
    ensures ParseInt(IntText(n), radix) == Some(n)
  {
    var d := NatText(if n < 0 then -n else n);
    UnsignedDigits(d, "", radix);
    assert d + "" == d;
    NatTextValue(if n < 0 then -n else n);
    if n >= 0 {
      ParseIntUnsigned(d, radix, n);
    } else {
      var s := "-" + d;
      assert s[1..] == d;
      ParseIntNegative(s, radix, -n);
    }
  }

  lemma HexDigitsUnsigned(d: string)
    requires |d| >= 1 && forall i :: 0 <= i < |d| ==> IsHexDigit(d[i])
    ensures UnsignedPart("0x" + d, NoRadix) == Some(DigitsValue(d, true))
  {
    var s := "0x" + d;
    assert s[2..] == d;
    DigitRunStops(d, "", true);
    assert d + "" == d;
    assert d[..|d|] == d;
  }

  lemma HexPrefixBase10(d: string)
    ensures UnsignedPart("0x" + d, Base10) == Some(0)
  {
    var s := "0x" + d;
    assert s[1] == 'x';
    DigitRunStops("0", s[1..], false);
    assert "0" + s[1..] == s;
    assert s[..1] == "0";
    assert DigitsValue("0", false) == 0 by {
      assert "0"[..0] == "";
    }
  }

  /** Without a radix a `0x` prefix makes the digits hexadecimal; with radix 10
      the same text reads as 0 ("0x10" gives 16 and 0 respectively). */
  lemma HexPrefix(d: string)
    requires |d| >= 1 && forall i :: 0 <= i < |d| ==> IsHexDigit(d[i])
    ensures ParseInt("0x" + d, NoRadix) == Some(DigitsValue(d, true))
    ensures ParseInt("0x" + d, Base10) == Some(0)
  {
    var s := "0x" + d;
    assert s[0] == '0';
    HexDigitsUnsigned(d);
    ParseIntUnsigned(s, NoRadix, DigitsValue(d, true));
    HexPrefixBase10(d);
    ParseIntUnsigned(s, Base10, 0);
  }
}
