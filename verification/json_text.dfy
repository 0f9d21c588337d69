/** JSON text (RFC 8259) for flat objects whose members are strings or
    non-negative integers: what `JSON.stringify` writes for the QR payloads, and a
    parser for that compact form (no insignificant white space, integer numbers
    only). */
module JsonText {
  import opened Wrappers
  import opened JsText

  datatype JsonValue = JString(s: string) | JNat(n: nat)

  type Member = (string, JsonValue)

  // ---------------------------------------------------------------------------
  // Writing

  /** Lower-case hexadecimal digit, as in `\u001f`. */
  function HexChar(k: nat): (c: char)
    requires k < 16
    ensures IsHexDigit(c) && HexValue(c) == k
  {
    if k < 10 then (48 + k) as char else (87 + k) as char
  }

  /** How `JSON.stringify` writes one character of a string. */
  function EscapeChar(c: char): string {
    if c == '"' then "\\\""
    else if c == '\\' then "\\\\"
    else if c == '\U{8}' then "\\b"
    else if c == '\t' then "\\t"
    else if c == '\n' then "\\n"
    else if c == '\U{C}' then "\\f"
    else if c == '\r' then "\\r"
    else if c < ' ' then "\\u00" + [HexChar(c as int / 16), HexChar(c as int % 16)]
    else [c]
  }

  function Escape(s: string): string {
    if s == [] then [] else EscapeChar(s[0]) + Escape(s[1..])
  }

  function ValueText(v: JsonValue): string {
    match v
    case JString(s) => "\"" + Escape(s) + "\""
    case JNat(n) => NatText(n)
  }

  function MemberText(m: Member): string {
    "\"" + Escape(m.0) + "\":" + ValueText(m.1)
  }

  function MembersText(ms: seq<Member>): string {
    if ms == [] then ""
    else if |ms| == 1 then MemberText(ms[0])
    else MemberText(ms[0]) + "," + MembersText(ms[1..])
  }

  /** `JSON.stringify` of an object with these members, in this order. */
  function Stringify(ms: seq<Member>): string {
    "{" + MembersText(ms) + "}"
  }

  // ---------------------------------------------------------------------------
  // Reading

  /** The character an escape sequence stands for; `s` starts after the
      backslash. Escapes of UTF-16 surrogate halves are refused. */
  function Unescape(s: string): (r: Option<(char, string)>)
    ensures r.Some? ==> |r.value.1| < |s|
  {
    if s == [] then None
    else if s[0] == '"' then Some(('"', s[1..]))
    else if s[0] == '\\' then Some(('\\', s[1..]))
    else if s[0] == '/' then Some(('/', s[1..]))
    else if s[0] == 'b' then Some(('\U{8}', s[1..]))
    else if s[0] == 'f' then Some(('\U{C}', s[1..]))
    else if s[0] == 'n' then Some(('\n', s[1..]))
    else if s[0] == 'r' then Some(('\r', s[1..]))
    else if s[0] == 't' then Some(('\t', s[1..]))
    else if s[0] == 'u' && |s| >= 5 && IsHexDigit(s[1]) && IsHexDigit(s[2]) && IsHexDigit(s[3]) && IsHexDigit(s[4]) then
      var code := HexValue(s[1]) * 4096 + HexValue(s[2]) * 256 + HexValue(s[3]) * 16 + HexValue(s[4]);
      if 0xD800 <= code < 0xE000 then None else Some((code as char, s[5..]))
    else None
  }

  /** A string's characters up to its closing quote, and the text after that
      quote; `s` starts after the opening quote. */
  function ParseStringBody(s: string): (r: Option<(string, string)>)
    ensures r.Some? ==> |r.value.1| < |s|
    decreases |s|
  {
    if s == [] then None
    else if s[0] == '"' then Some(("", s[1..]))
    else
      var first :=
        if s[0] == '\\' then Unescape(s[1..])
        else if s[0] < ' ' then None
        else Some((s[0], s[1..]));
      match first
      case None => None
      case Some((c, rest)) =>
        match ParseStringBody(rest)
        case None => None
        case Some((t, after)) => Some(([c] + t, after))
  }

  /** A number without sign, fraction or exponent; a leading zero stands alone. */
  function ParseNat(s: string): (r: Option<(nat, string)>)
    ensures r.Some? ==> |r.value.1| < |s|
  {
    if s == [] || !IsDigit(s[0]) then None
    else if s[0] == '0' then Some((0, s[1..]))
    else
      var k := DigitRun(s, false);
      Some((DigitsValue(s[..k], false), s[k..]))
  }

  function ParseValue(s: string): (r: Option<(JsonValue, string)>)
    ensures r.Some? ==> |r.value.1| < |s|
  {
    if s != [] && s[0] == '"' then
      match ParseStringBody(s[1..])
      case None => None
      case Some((t, rest)) => Some((JString(t), rest))
    else
      match ParseNat(s)
      case None => None
      case Some((n, rest)) => Some((JNat(n), rest))
  }

  function ParseMember(s: string): (r: Option<(Member, string)>)
    ensures r.Some? ==> |r.value.1| < |s|
  {
    if s == [] || s[0] != '"' then None
    else
      match ParseStringBody(s[1..])
      case None => None
      case Some((key, rest)) =>
        if rest == [] || rest[0] != ':' then None
        else
          match ParseValue(rest[1..])
          case None => None
          case Some((v, after)) => Some(((key, v), after))
  }

  /** Members separated by commas, up to and including the closing brace. */
  function ParseMembers(s: string): (r: Option<(seq<Member>, string)>)
    ensures r.Some? ==> |r.value.1| < |s|
    decreases |s|
  {
    match ParseMember(s)
    case None => None
    case Some((m, rest)) =>
      if rest != [] && rest[0] == '}' then Some(([m], rest[1..]))
      else if rest != [] && rest[0] == ',' then
        match ParseMembers(rest[1..])
        case None => None
        case Some((ms, after)) => Some(([m] + ms, after))
      else None
  }

  /** The members of the object the whole text denotes, in text order. */
  function Parse(s: string): Option<seq<Member>> {
    if s == [] || s[0] != '{' then None
    else if |s| >= 2 && s[1] == '}' then (if |s| == 2 then Some([]) else None)
    else
      match ParseMembers(s[1..])
      case Some((ms, rest)) => if rest == [] then Some(ms) else None
      case None => None
  }

  // ---------------------------------------------------------------------------
  // Round trip

  lemma UnescapeEscaped(c: char, tail: string)
    requires EscapeChar(c)[0] == '\\'
    ensures Unescape(EscapeChar(c)[1..] + tail) == Some((c, tail))
  {
    var e := EscapeChar(c)[1..] + tail;
    if c < ' ' && c != '\U{8}' && c != '\t' && c != '\n' && c != '\U{C}' && c != '\r' {
      var hi, lo := HexChar(c as int / 16), HexChar(c as int % 16);
      assert e == ['u', '0', '0', hi, lo] + tail;
      assert e[5..] == tail;
    } else {
      assert e[1..] == tail;
    }
  }

  lemma EscapedCharStep(c: char, rest: string, t: string, after: string)
    requires EscapeChar(c)[0] == '\\'
    requires ParseStringBody(rest) == Some((t, after))
    ensures ParseStringBody(EscapeChar(c) + rest) == Some(([c] + t, after))
  {
    var text := EscapeChar(c) + rest;
    assert text[1..] == EscapeChar(c)[1..] + rest;
    UnescapeEscaped(c, rest);
  }

  lemma PlainCharStep(c: char, rest: string, t: string, after: string)
    requires EscapeChar(c)[0] != '\\'
    requires ParseStringBody(rest) == Some((t, after))
    ensures ParseStringBody(EscapeChar(c) + rest) == Some(([c] + t, after))
  {
    var text := EscapeChar(c) + rest;
    assert EscapeChar(c) == [c];
    assert text[1..] == rest;
  }

  lemma {:induction false} EscapeRoundTrip(s: string, tail: string)
    ensures ParseStringBody(Escape(s) + "\"" + tail) == Some((s, tail))
  {
    if s == [] {
      assert Escape(s) + "\"" + tail == "\"" + tail;
    } else {
      var rest := Escape(s[1..]) + "\"" + tail;
      assert Escape(s) + "\"" + tail == EscapeChar(s[0]) + rest;
      EscapeRoundTrip(s[1..], tail);
      if EscapeChar(s[0])[0] == '\\' {
        EscapedCharStep(s[0], rest, s[1..], tail);
      } else {
        PlainCharStep(s[0], rest, s[1..], tail);
      }
      assert [s[0]] + s[1..] == s;
    }
  }

  lemma ParseNatText(n: nat, tail: string)
    requires tail == "" || !IsDigit(tail[0])
    ensures ParseNat(NatText(n) + tail) == Some((n, tail))
  {
    var d := NatText(n);
    var s := d + tail;
    assert s[0] == d[0];
    if n == 0 {
      assert d == "0";
      assert s[1..] == tail;
    } else {
      DigitRunStops(d, tail, false);
      assert s[..|d|] == d;
      assert s[|d|..] == tail;
      NatTextValue(n);
    }
  }

  lemma ParseValueString(s: string, t: string, rest: string)
    requires s != [] && s[0] == '"' && ParseStringBody(s[1..]) == Some((t, rest))
    ensures ParseValue(s) == Some((JString(t), rest))
  {
  }

  lemma ParseValueNat(s: string, n: nat, rest: string)
    requires s != [] && IsDigit(s[0]) && ParseNat(s) == Some((n, rest))
    ensures ParseValue(s) == Some((JNat(n), rest))
  {
  }

  lemma ParseValueText(v: JsonValue, tail: string)
    requires tail != [] && (tail[0] == ',' || tail[0] == '}')
    ensures ParseValue(ValueText(v) + tail) == Some((v, tail))
  {
    match v
    case JString(t) =>
      var s := "\"" + Escape(t) + "\"" + tail;
      assert s == "\"" + (Escape(t) + "\"" + tail);
      EscapeRoundTrip(t, tail);
      ParseValueString(s, t, tail);
    case JNat(n) =>
      ParseNatText(n, tail);
      ParseValueNat(NatText(n) + tail, n, tail);
  }

  lemma ParseMemberSteps(s: string, key: string, afterKey: string, v: JsonValue, tail: string)
    requires s != [] && s[0] == '"' && ParseStringBody(s[1..]) == Some((key, afterKey))
    requires afterKey != [] && afterKey[0] == ':' && ParseValue(afterKey[1..]) == Some((v, tail))
    ensures ParseMember(s) == Some(((key, v), tail))
  {
  }

  /** How the text of one member splits at the key's closing quote. */
  lemma MemberTextParts(key: string, value: string, tail: string)
    ensures ("\"" + key + "\":" + value + tail)[0] == '"'
    ensures ("\"" + key + "\":" + value + tail)[1..] == key + "\"" + (":" + value + tail)
    ensures (":" + value + tail)[0] == ':' && (":" + value + tail)[1..] == value + tail
  {
    var s := "\"" + key + "\":" + value + tail;
    assert s == "\"" + (key + "\"" + (":" + value + tail));
  }

  lemma ParseMemberText(m: Member, tail: string)
    requires tail != [] && (tail[0] == ',' || tail[0] == '}')
    ensures ParseMember(MemberText(m) + tail) == Some((m, tail))
  {
    var afterKey := ":" + ValueText(m.1) + tail;
    MemberTextParts(Escape(m.0), ValueText(m.1), tail);
    EscapeRoundTrip(m.0, afterKey);
    ParseValueText(m.1, tail);
    ParseMemberSteps(MemberText(m) + tail, m.0, afterKey, m.1, tail);
  }

  lemma ParseMembersLast(s: string, m: Member, rest: string)
    requires ParseMember(s) == Some((m, rest)) && rest != [] && rest[0] == '}'
    ensures ParseMembers(s) == Some(([m], rest[1..]))
  {
  }

  lemma ParseMembersNext(s: string, m: Member, rest: string, ms: seq<Member>, after: string)
    requires ParseMember(s) == Some((m, rest)) && rest != [] && rest[0] == ','
    requires ParseMembers(rest[1..]) == Some((ms, after))
    ensures ParseMembers(s) == Some(([m] + ms, after))
  {
  }

  lemma ParseOneMemberText(m: Member, tail: string)
    ensures ParseMembers(MemberText(m) + "}" + tail) == Some(([m], tail))
  {
    var s := MemberText(m) + "}" + tail;
    assert s == MemberText(m) + ("}" + tail);
    ParseMemberText(m, "}" + tail);
    assert ("}" + tail)[1..] == tail;
    ParseMembersLast(s, m, "}" + tail);
  }

  /** How the text of several members splits at the first comma. */
  lemma MembersTextParts(first: string, others: string, tail: string)
    ensures first + "," + others + "}" + tail == first + ("," + (others + "}" + tail))
    ensures ("," + (others + "}" + tail))[0] == ','
    ensures ("," + (others + "}" + tail))[1..] == others + "}" + tail
  {
  }

  lemma ParseMembersTextCons(ms: seq<Member>, tail: string)
    requires |ms| >= 2
    requires ParseMembers(MembersText(ms[1..]) + "}" + tail) == Some((ms[1..], tail))
    ensures ParseMembers(MembersText(ms) + "}" + tail) == Some((ms, tail))
  {
    var rest := "," + (MembersText(ms[1..]) + "}" + tail);
    assert MembersText(ms) == MemberText(ms[0]) + "," + MembersText(ms[1..]);
    MembersTextParts(MemberText(ms[0]), MembersText(ms[1..]), tail);
    ParseMemberText(ms[0], rest);
    ParseMembersNext(MembersText(ms) + "}" + tail, ms[0], rest, ms[1..], tail);
    assert [ms[0]] + ms[1..] == ms;
  }

  lemma {:induction false} ParseMembersText(ms: seq<Member>, tail: string)
    requires ms != []
    ensures ParseMembers(MembersText(ms) + "}" + tail) == Some((ms, tail))
  {
    if |ms| == 1 {
      assert MembersText(ms) == MemberText(ms[0]);
      ParseOneMemberText(ms[0], tail);
      assert [ms[0]] == ms;
    } else {
      ParseMembersText(ms[1..], tail);
      ParseMembersTextCons(ms, tail);
    }
  }

  /** Parsing what `JSON.stringify` wrote gives back the same members in the
      same order. */
  lemma ParseStringify(ms: seq<Member>)
    ensures Parse(Stringify(ms)) == Some(ms)
  {
    var s := Stringify(ms);
    if ms == [] {
      assert s == "{}";
    } else {
      ParseMembersText(ms, "");
      assert s[1..] == MembersText(ms) + "}" + "";
      var first := MemberText(ms[0]);
      assert s[1] == first[0] == '"';
    }
  }
}
