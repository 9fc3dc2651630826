/** JSON strings: the serializer's escaping, and an independent reader of string
    literals (section 7 of RFC 8259) to check it against. */
module JsonText {
  import opened Wrappers

  const HEX := "0123456789abcdef"

  /** Control characters are escaped, everything else but `"` and `\` is kept. */
  function EscapeChar(c: char): string {
    var b := c as int;
    if b == 0x08 then "\\b"
    else if b == 0x09 then "\\t"
    else if b == 0x0A then "\\n"
    else if b == 0x0C then "\\f"
    else if b == 0x0D then "\\r"
    else if c == '"' then "\\\""
    else if c == '\\' then "\\\\"
    else if b < 0x20 then "\\u00" + [HEX[b / 16], HEX[b % 16]]
    else [c]
  }

  function Escape(s: string): string {
    if s == "" then "" else EscapeChar(s[0]) + Escape(s[1..])
  }

  /** The serialized form of a string. */
  function Quote(s: string): string {
    "\"" + Escape(s) + "\""
  }

  lemma {:induction false} EscapeConcat(a: string, b: string)
    ensures Escape(a + b) == Escape(a) + Escape(b)
    decreases |a|
  {
    hide EscapeChar;
    if a == "" {
      assert a + b == b;
    } else {
      EscapeConcat(a[1..], b);
      assert (a + b)[1..] == a[1..] + b && (a + b)[0] == a[0];
      assert EscapeChar(a[0]) + (Escape(a[1..]) + Escape(b)) == (EscapeChar(a[0]) + Escape(a[1..])) + Escape(b);
    }
  }

  // ----- Reading string literals -----

  function HexValue(c: char): Option<int> {
    if '0' <= c <= '9' then Some(c as int - '0' as int)
    else if 'a' <= c <= 'f' then Some(c as int - 'a' as int + 10)
    else if 'A' <= c <= 'F' then Some(c as int - 'A' as int + 10)
    else None
  }

  /** The character one unit of a literal stands for, and the unit's length.
      Escapes of code points above U+007F are not read: the writer makes none. */
  function ReadUnit(s: string): (r: Option<(char, nat)>)
    ensures r.Some? ==> 0 < r.value.1 <= |s|
  {
    if s == "" || s[0] == '"' || s[0] as int < 0x20 then None
    else if s[0] != '\\' then Some((s[0], 1))
    else if |s| < 2 then None
    else if s[1] == 'u' then
      if |s| < 6 || s[2] != '0' || s[3] != '0' then None
      else
        var h, l := HexValue(s[4]), HexValue(s[5]);
        if h.Some? && l.Some? && 0 <= h.value < 8 && 0 <= l.value < 16 then Some(((16 * h.value + l.value) as char, 6)) else None
    else match ShortEscape(s[1])
      case None => None
      case Some(c) => Some((c, 2))
  }

  /** The two-character escapes. */
  function ShortEscape(c: char): Option<char> {
    if c == '"' || c == '\\' || c == '/' then Some(c)
    else if c == 'b' then Some(0x08 as char)
    else if c == 'f' then Some(0x0C as char)
    else if c == 'n' then Some(0x0A as char)
    else if c == 'r' then Some(0x0D as char)
    else if c == 't' then Some(0x09 as char)
    else None
  }

  /** The text up to the closing quote, and what follows it. */
  function ReadTail(s: string): Option<(string, string)>
    decreases |s|
  {
    if s != "" && s[0] == '"' then Some(("", s[1..]))
    else match ReadUnit(s)
      case None => None
      case Some((c, n)) =>
        match ReadTail(s[n..])
        case None => None
        case Some((text, rest)) => Some(([c] + text, rest))
  }

  function ReadLiteral(s: string): Option<(string, string)> {
    if s != "" && s[0] == '"' then ReadTail(s[1..]) else None
  }

  lemma {:induction false} UnitOfChar(c: char, rest: string)
    ensures ReadUnit(EscapeChar(c) + rest) == Some((c, |EscapeChar(c)|))
    ensures EscapeChar(c)[0] != '"'
  {
    var b := c as int;
    if b < 0x20 && b != 0x08 && b != 0x09 && b != 0x0A && b != 0x0C && b != 0x0D {
      var s := EscapeChar(c) + rest;
      assert s[1] == 'u' && s[2] == '0' && s[3] == '0' && s[4] == HEX[b / 16] && s[5] == HEX[b % 16];
      HexDigits(b / 16);
      HexDigits(b % 16);
    }
  }

  /** No shorter unit stands for the same character. */
  lemma {:induction false} EscapeIsShortest(c: char, u: string)
    requires ReadUnit(u) == Some((c, |u|))
    ensures |EscapeChar(c)| <= |u|
  {
  }

  lemma {:induction false} HexDigits(d: int)
    requires 0 <= d < 16
    ensures HexValue(HEX[d]) == Some(d)
  {
  }

  lemma {:induction false} TailOfEscaped(s: string, rest: string)
    ensures ReadTail(Escape(s) + "\"" + rest) == Some((s, rest))
    decreases |s|
  {
    hide EscapeChar, ReadUnit;
    var text := Escape(s) + "\"" + rest;
    if s == "" {
      assert text[0] == '"' && text[1..] == rest;
    } else {
      var e := EscapeChar(s[0]);
      var later := Escape(s[1..]) + "\"" + rest;
      assert text == e + later;
      UnitOfChar(s[0], later);
      assert text[0] == e[0] && text[|e|..] == later;
      TailOfEscaped(s[1..], rest);
      assert [s[0]] + s[1..] == s;
    }
  }

  /** A quoted string reads back as itself, for every string. */
  lemma {:induction false} QuoteRoundTrip(s: string, rest: string)
    ensures ReadLiteral(Quote(s) + rest) == Some((s, rest))
  {
    hide Escape, ReadTail;
    TailOfEscaped(s, rest);
    assert (Quote(s) + rest)[1..] == Escape(s) + "\"" + rest;
  }

  // ----- An object whose closing brace is still missing -----

  function ReadMember(s: string): Option<((string, string), string)> {
    match ReadLiteral(s)
    case None => None
    case Some((key, afterKey)) =>
      if !(": " <= afterKey) then None
      else match ReadLiteral(afterKey[2..])
        case None => None
        case Some((value, rest)) => Some(((key, value), rest))
  }

  /** String members separated by `, `, up to the end of the text. */
  function ReadMembers(s: string): Option<seq<(string, string)>>
    decreases |s|
  {
    match ReadMember(s)
    case None => None
    case Some((m, rest)) =>
      if rest == "" then Some([m])
      else if !(", " <= rest) || |rest| >= |s| then None
      else match ReadMembers(rest[2..])
        case None => None
        case Some(ms) => Some([m] + ms)
  }

  function ReadOpenObject(s: string): Option<seq<(string, string)>> {
    if s == "" then Some([])
    else if s[0] == '{' then ReadMembers(s[1..])
    else None
  }

  function WriteMember(m: (string, string)): string {
    Quote(m.0) + ": " + Quote(m.1)
  }

  function WriteMembers(ms: seq<(string, string)>): string {
    if ms == [] then "" else WriteMember(ms[0]) + (if |ms| == 1 then "" else ", " + WriteMembers(ms[1..]))
  }

  lemma {:induction false} MemberRoundTrip(m: (string, string), rest: string)
    ensures ReadMember(WriteMember(m) + rest) == Some((m, rest))
  {
    hide Quote, ReadLiteral;
    var afterKey := ": " + (Quote(m.1) + rest);
    assert WriteMember(m) + rest == Quote(m.0) + afterKey;
    QuoteRoundTrip(m.0, afterKey);
    assert afterKey[2..] == Quote(m.1) + rest;
    QuoteRoundTrip(m.1, rest);
  }

  lemma {:induction false} MembersRoundTrip(ms: seq<(string, string)>)
    requires ms != []
    ensures ReadMembers(WriteMembers(ms)) == Some(ms)
    decreases |ms|
  {
    hide ReadMember, WriteMember;
    var m := ms[0];
    if |ms| == 1 {
      MemberRoundTrip(m, "");
      assert ms == [m];
    } else {
      var rest := ", " + WriteMembers(ms[1..]);
      MemberRoundTrip(m, rest);
      MembersRoundTrip(ms[1..]);
      assert rest[2..] == WriteMembers(ms[1..]);
      assert WriteMember(m) != "" by { MemberNotEmpty(m); }
      assert [m] + ms[1..] == ms;
    }
  }

  lemma {:induction false} MemberNotEmpty(m: (string, string))
    ensures WriteMember(m) != ""
  {
  }
}
