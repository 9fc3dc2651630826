/** UTF-8 (sections 3 and 4 of RFC 3629) and the carry that keeps a character cut
    by a chunk border together.  A `char` stands for one byte here. */
module Utf8 {
  import opened TextSearch

  /** `(c & 0xC0) == 0x80`. */
  predicate IsContinuation(c: char) {
    0x80 <= c as int <= 0xBF
  }

  predicate InRange(c: char, lo: int, hi: int) {
    lo <= c as int <= hi
  }

  /** The length of the well-formed character `s` starts with, 0 if there is none. */
  function CharLength(s: string): (n: nat)
    ensures n <= |s| && n <= 4
  {
    if s == "" then 0
    else if InRange(s[0], 0, 0x7F) then 1
    else if InRange(s[0], 0xC2, 0xDF) then
      if |s| >= 2 && IsContinuation(s[1]) then 2 else 0
    else if InRange(s[0], 0xE0, 0xEF) then
      if |s| >= 3 && SecondByte(s[0], s[1]) && IsContinuation(s[2]) then 3 else 0
    else if InRange(s[0], 0xF0, 0xF4) then
      if |s| >= 4 && SecondByte(s[0], s[1]) && IsContinuation(s[2]) && IsContinuation(s[3]) then 4 else 0
    else 0
  }

  /** No overlong forms, no surrogates, nothing above U+10FFFF. */
  predicate SecondByte(lead: char, c: char) {
    && IsContinuation(c)
    && (lead as int == 0xE0 ==> c as int >= 0xA0)
    && (lead as int == 0xED ==> c as int <= 0x9F)
    && (lead as int == 0xF0 ==> c as int >= 0x90)
    && (lead as int == 0xF4 ==> c as int <= 0x8F)
  }

  predicate Valid(s: string)
    decreases |s|
  {
    s == "" || (CharLength(s) > 0 && Valid(s[CharLength(s)..]))
  }

  // ----- Splitting off an incomplete last character -----

  /** How far from the end the last non-continuation byte is, looking at most four
      bytes back; 0 if there is none. */
  function LeadBack(s: string, i: nat): nat
    requires i > 0
    decreases 5 - i
  {
    if i > |s| || i > 4 then 0
    else if !IsContinuation(s[|s| - i]) then i
    else LeadBack(s, i + 1)
  }

  /** The length the lead byte announces; 0 for a byte that cannot lead. */
  function Announced(lead: char): nat {
    if InRange(lead, 0, 0x7F) then 1
    else if InRange(lead, 0xC0, 0xDF) then 2
    else if InRange(lead, 0xE0, 0xEF) then 3
    else if InRange(lead, 0xF0, 0xF7) then 4
    else 0
  }

  function SplitIncomplete(s: string): (string, string) {
    var k := LeadBack(s, 1);
    if k == 0 || k > |s| || Announced(s[|s| - k]) == 0 || Announced(s[|s| - k]) == k then (s, "")
    else (s[..|s| - k], s[|s| - k..])
  }

  /** `split_incomplete_utf8`. */
  method SplitIncompleteUtf8(s: string) returns (complete: string, tail: string)
    ensures (complete, tail) == SplitIncomplete(s)
  {
    if s == "" {
      return "", "";
    }
    var startPos := |s|;
    var i := 1;
    while i <= |s| && i <= 4
      invariant 1 <= i <= 5
      invariant startPos == |s| && LeadBack(s, 1) == LeadBack(s, i)
    {
      if !IsContinuation(s[|s| - i]) {
        startPos := |s| - i;
        break;
      }
      i := i + 1;
    }
    if startPos == |s| {
      return s, "";
    }
    var needed := Announced(s[startPos]);
    if needed == 0 || |s| - startPos == needed {
      return s, "";
    }
    return s[..startPos], s[startPos..];
  }

  lemma {:induction false} LeadBackIs(s: string, i: nat, k: nat)
    requires 0 < i <= k <= |s| && k <= 4
    requires !IsContinuation(s[|s| - k])
    requires forall p | |s| - k < p <= |s| - i :: IsContinuation(s[p])
    ensures LeadBack(s, i) == k
    decreases k - i
  {
    if i < k {
      LeadBackIs(s, i + 1, k);
    }
  }

  lemma {:induction false} LeadBackFound(s: string, i: nat)
    requires i > 0
    ensures var k := LeadBack(s, i);
            k > 0 ==> i <= k <= |s| && k <= 4 && !IsContinuation(s[|s| - k])
                      && forall p | |s| - k < p <= |s| - i :: IsContinuation(s[p])
    decreases 5 - i
  {
    if i <= |s| && i <= 4 && IsContinuation(s[|s| - i]) {
      LeadBackFound(s, i + 1);
    }
  }

  /** The bytes of a character: its lead announces its length, the rest continue. */
  lemma {:induction false} CharShape(s: string)
    requires CharLength(s) > 0
    ensures var n := CharLength(s);
            && Announced(s[0]) == n && !IsContinuation(s[0])
            && (forall j | 1 <= j < n :: IsContinuation(s[j]))
  {
  }

  lemma {:induction false} CharLengthStable(s: string, t: string)
    requires CharLength(s + t) <= |s|
    ensures CharLength(s) == CharLength(s + t)
  {
  }

  lemma {:induction false} CharLengthExtends(s: string, t: string)
    requires CharLength(s) > 0
    ensures CharLength(s + t) == CharLength(s)
  {
  }

  lemma {:induction false} ValidConcat(a: string, b: string)
    requires Valid(a)
    ensures Valid(a + b) <==> Valid(b)
    decreases |a|
  {
    if a == "" {
      assert a + b == b;
    } else {
      var n := CharLength(a);
      CharLengthExtends(a, b);
      assert (a + b)[n..] == a[n..] + b;
      ValidConcat(a[n..], b);
    }
  }

  lemma {:induction false} LeadBackBehind(c: string, s: string)
    requires LeadBack(s, 1) > 0
    ensures LeadBack(c + s, 1) == LeadBack(s, 1)
  {
    var k := LeadBack(s, 1);
    LeadBackFound(s, 1);
    var u := c + s;
    assert u[|u| - k] == s[|s| - k];
    forall p | |u| - k < p <= |u| - 1 ensures IsContinuation(u[p]) {
      assert u[p] == s[p - |c|];
    }
    LeadBackIs(u, 1, k);
  }

  /** The last bytes decide the split, whatever stands before them. */
  lemma {:induction false} SplitBehind(c: string, s: string)
    requires LeadBack(s, 1) > 0
    ensures SplitIncomplete(c + s) == (c + SplitIncomplete(s).0, SplitIncomplete(s).1)
  {
    LeadBackBehind(c, s);
    LeadBackFound(s, 1);
    hide LeadBack, Announced;
    var k, u := LeadBack(s, 1), c + s;
    assert u[|u| - k] == s[|s| - k];
    assert u[..|u| - k] == c + s[..|s| - k];
    assert u[|u| - k..] == s[|s| - k..];
  }

  lemma {:induction false} SplitWholeChar(c: string)
    requires CharLength(c) == |c| > 0
    ensures LeadBack(c, 1) == |c| && SplitIncomplete(c) == (c, "") && Valid(c)
  {
    CharShape(c);
    LeadBackIs(c, 1, |c|);
    assert c[|c|..] == "";
  }

  lemma {:induction false} SplitCutChar(s: string, t: string)
    requires 0 < |s| < CharLength(s + t)
    ensures LeadBack(s, 1) == |s| && SplitIncomplete(s) == ("", s) && !Valid(s)
  {
    CharShape(s + t);
    assert forall j | 0 <= j < |s| :: s[j] == (s + t)[j];
    LeadBackIs(s, 1, |s|);
    assert CharLength(s) == 0 by {
      if CharLength(s) > 0 { CharLengthExtends(s, t); }
    }
  }

  /** The complete part is valid, at most three bytes are kept back, and they are
      exactly the character that `t` completes. */
  predicate GoodSplit(s: string, t: string) {
    var (a, b) := SplitIncomplete(s);
    && a + b == s && Valid(a) && Valid(b + t) && |b| <= 3
    && (Valid(s) <==> b == "")
  }

  lemma {:induction false} GoodSplitBehind(c: string, s: string, t: string)
    requires Valid(c) && GoodSplit(s, t) && LeadBack(s, 1) > 0
    ensures GoodSplit(c + s, t) && LeadBack(c + s, 1) > 0
  {
    hide SplitIncomplete, LeadBack, Valid;
    LeadBackBehind(c, s);
    SplitBehind(c, s);
    var (a, b) := SplitIncomplete(s);
    ValidConcat(c, a);
    ValidConcat(c, s);
    assert (c + a) + b == c + (a + b);
  }

  /** Cutting valid UTF-8 anywhere gives a good split. */
  lemma {:induction false} SplitValid(s: string, t: string)
    requires Valid(s + t)
    ensures GoodSplit(s, t) && (s != "" ==> LeadBack(s, 1) > 0)
    decreases |s|
  {
    if s != "" {
      var n := CharLength(s + t);
      if n <= |s| {
        var c, later := s[..n], s[n..];
        assert s == c + later;
        assert (s + t)[n..] == later + t && n > 0;
        CharLengthStable(s, t);
        CharLengthStable(c, later);
        SplitWholeChar(c);
        SplitValid(later, t);
        if later == "" {
          assert s == c && "" + t == t;
        } else {
          GoodSplitBehind(c, later, t);
        }
      } else {
        SplitCutChar(s, t);
      }
    }
  }

  // ----- The carry between chunks -----

  /** What one chunk passes on and what it leaves in the carry; an empty chunk,
      the end of the stream, drops the carry. */
  function Absorb(carry: string, chunk: string): (string, string) {
    if chunk == "" then ("", "") else SplitIncomplete(carry + chunk)
  }

  function Pieces(carry: string, chunks: seq<string>): seq<string>
    decreases |chunks|
  {
    if chunks == [] then []
    else [Absorb(carry, chunks[0]).0] + Pieces(Absorb(carry, chunks[0]).1, chunks[1..])
  }

  function CarryAfter(carry: string, chunks: seq<string>): string
    decreases |chunks|
  {
    if chunks == [] then carry else CarryAfter(Absorb(carry, chunks[0]).1, chunks[1..])
  }

  /** Valid UTF-8 cut anywhere into non-empty chunks: every piece passed on is
      valid by itself, pieces and carry make up the input so far, and the carry
      stays below four bytes and is empty whenever the input so far is valid. */
  lemma {:induction false} CarryLosesNothing(carry: string, chunks: seq<string>, t: string)
    requires Valid(carry + Concat(chunks) + t) && |carry| <= 3 && (Valid(carry) <==> carry == "")
    requires forall i | 0 <= i < |chunks| :: chunks[i] != ""
    ensures var ps, rest := Pieces(carry, chunks), CarryAfter(carry, chunks);
            && (forall i | 0 <= i < |ps| :: Valid(ps[i]))
            && Concat(ps) + rest == carry + Concat(chunks)
            && |rest| <= 3
            && (Valid(carry + Concat(chunks)) <==> rest == "")
    decreases |chunks|
  {
    hide SplitIncomplete, Valid;
    if chunks == [] {
      assert carry + "" == carry;
    } else {
      var s, later := carry + chunks[0], Concat(chunks[1..]);
      var (a, b) := SplitIncomplete(s);
      assert carry + Concat(chunks) + t == s + (later + t);
      SplitValid(s, later + t);
      assert SplitIncomplete(s).0 + SplitIncomplete(s).1 == s;
      assert b + later + t == b + (later + t);
      assert Valid(b) <==> b == "" by { CutCharacter(a, b); }
      CarryLosesNothing(b, chunks[1..], t);
      assert carry + Concat(chunks) == s + later == (a + b) + later == a + (b + later);
      ValidConcat(a, b + later);
      var ps := Pieces(b, chunks[1..]);
      assert ([a] + ps)[1..] == ps;
      assert (a + Concat(ps)) + CarryAfter(b, chunks[1..]) == a + (Concat(ps) + CarryAfter(b, chunks[1..]));
    }
  }

  lemma {:induction false} CutCharacter(a: string, b: string)
    requires Valid(a) && (Valid(a + b) <==> b == "")
    ensures Valid(b) <==> b == ""
  {
    hide CharLength;
    ValidConcat(a, b);
  }

  // ----- The split of any bytes -----

  /** The bytes from the last lead byte on, at most four, decide: they are held back
      exactly when the lead byte announces another number of bytes than there are, be
      it more or fewer. */
  lemma {:induction false} SplitAtLead(s: string, x: string)
    requires 1 <= |x| <= 4 && !IsContinuation(x[0]) && forall i | 1 <= i < |x| :: IsContinuation(x[i])
    ensures var n := |x|;
            var held := (InRange(x[0], 0, 0x7F) && n != 1) || (InRange(x[0], 0xC0, 0xDF) && n != 2)
                        || (InRange(x[0], 0xE0, 0xEF) && n != 3) || (InRange(x[0], 0xF0, 0xF7) && n != 4);
            SplitIncomplete(s + x) == if held then (s, x) else (s + x, "")
  {
    var u := s + x;
    assert u[|u| - |x|] == x[0];
    assert forall p | |u| - |x| < p <= |u| - 1 :: u[p] == x[p - |s|];
    LeadBackIs(u, 1, |x|);
    assert u[..|s|] == s && u[|s|..] == x;
  }

  /** Without a lead byte among the last four bytes nothing is held back. */
  lemma {:induction false} SplitWithoutLead(s: string)
    requires forall p | 0 <= p < |s| && |s| - 4 <= p :: IsContinuation(s[p])
    ensures SplitIncomplete(s) == (s, "")
  {
    LeadBackFound(s, 1);
  }

  // ----- Characters -----

  /** Six bits in a continuation byte. */
  function Tail(v: int): char
    requires v >= 0
  {
    (0x80 + v % 64) as char
  }

  /** The encoding of section 3 of RFC 3629. */
  function Encode(u: int): string
    requires 0 <= u <= 0x10FFFF
  {
    if u <= 0x7F then [u as char]
    else if u <= 0x7FF then [(0xC0 + u / 64) as char, Tail(u)]
    else if u <= 0xFFFF then [(0xE0 + u / 64 / 64) as char, Tail(u / 64), Tail(u)]
    else [(0xF0 + u / 64 / 64 / 64) as char, Tail(u / 64 / 64), Tail(u / 64), Tail(u)]
  }

  /** Code points that may be encoded: no surrogates. */
  predicate IsScalar(u: int) {
    0 <= u <= 0x10FFFF && !(0xD800 <= u <= 0xDFFF)
  }

  function Decode(s: string): int
    requires CharLength(s) > 0
  {
    var n := CharLength(s);
    if n == 1 then s[0] as int
    else if n == 2 then (s[0] as int - 0xC0) * 64 + (s[1] as int - 0x80)
    else if n == 3 then ((s[0] as int - 0xE0) * 64 + (s[1] as int - 0x80)) * 64 + (s[2] as int - 0x80)
    else (((s[0] as int - 0xF0) * 64 + (s[1] as int - 0x80)) * 64 + (s[2] as int - 0x80)) * 64 + (s[3] as int - 0x80)
  }

  lemma {:induction false} SixBits(a: int, b: int)
    requires 0 <= b < 64
    ensures (a * 64 + b) / 64 == a && (a * 64 + b) % 64 == b
  {
  }

  lemma {:induction false} TailIs(c: char, v: int)
    requires IsContinuation(c) && v >= 0 && v % 64 == c as int - 0x80
    ensures Tail(v) == c
  {
  }

  /** A well-formed character is the encoding of a scalar value. */
  lemma {:induction false} DecodedIsScalar(s: string)
    requires CharLength(s) > 0
    ensures IsScalar(Decode(s)) && s[..CharLength(s)] == Encode(Decode(s))
  {
    hide Tail;
    var n, u := CharLength(s), Decode(s);
    if n == 1 {
    } else if n == 2 {
      var b := s[1] as int - 0x80;
      SixBits(s[0] as int - 0xC0, b);
      TailIs(s[1], u);
    } else if n == 3 {
      var a, b, c := s[0] as int - 0xE0, s[1] as int - 0x80, s[2] as int - 0x80;
      SixBits(a, b);
      SixBits(a * 64 + b, c);
      TailIs(s[1], u / 64);
      TailIs(s[2], u);
    } else {
      var a, b, c, d := s[0] as int - 0xF0, s[1] as int - 0x80, s[2] as int - 0x80, s[3] as int - 0x80;
      SixBits(a, b);
      SixBits(a * 64 + b, c);
      SixBits((a * 64 + b) * 64 + c, d);
      TailIs(s[1], u / 64 / 64);
      TailIs(s[2], u / 64);
      TailIs(s[3], u);
    }
  }

  lemma {:induction false} TailContinues(v: int)
    requires v >= 0
    ensures IsContinuation(Tail(v)) && Tail(v) as int - 0x80 == v % 64
  {
  }

  /** And every encoding of a scalar value is one well-formed character. */
  lemma {:induction false} EncodedIsChar(u: int, t: string)
    requires IsScalar(u)
    ensures CharLength(Encode(u) + t) == |Encode(u)| && Decode(Encode(u) + t) == u
  {
    hide Tail;
    var e := Encode(u);
    TailContinues(u);
    TailContinues(u / 64);
    TailContinues(u / 64 / 64);
    var s := e + t;
    assert forall i | 0 <= i < |e| :: s[i] == e[i];
    assert u == (u / 64) * 64 + u % 64;
    assert u / 64 == (u / 64 / 64) * 64 + u / 64 % 64;
    assert u / 64 / 64 == (u / 64 / 64 / 64) * 64 + u / 64 / 64 % 64;
  }
}
