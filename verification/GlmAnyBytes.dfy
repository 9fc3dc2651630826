/** String values of any bytes, valid UTF-8 or not: what is written reads back byte by
    byte. */
module GlmAnyBytes {
  import opened Wrappers
  import opened TextSearch
  import opened Utf8
  import opened JsonText
  import opened GlmMachine
  import opened GlmRoundTrip
  import opened GlmRawValues

  // ----- Pieces of a literal -----

  /** In front of anything that reads, `out` reads as `t`. */
  ghost predicate Reads(out: string, t: string) {
    forall x: string | ReadTail(x).Some? :: ReadTail(out + x) == Some((t + ReadTail(x).value.0, ReadTail(x).value.1))
  }

  lemma {:induction false} ReadsNothing()
    ensures Reads("", "")
  {
    hide ReadTail;
    forall x: string | ReadTail(x).Some? ensures ReadTail("" + x) == Some(("" + ReadTail(x).value.0, ReadTail(x).value.1)) {
      assert "" + x == x;
      assert "" + ReadTail(x).value.0 == ReadTail(x).value.0;
    }
  }

  lemma {:induction false} ReadsBoth(a: string, s: string, b: string, t: string)
    requires Reads(a, s) && Reads(b, t)
    ensures Reads(a + b, s + t)
  {
    hide ReadTail;
    forall x: string | ReadTail(x).Some?
      ensures ReadTail((a + b) + x) == Some(((s + t) + ReadTail(x).value.0, ReadTail(x).value.1)) {
      assert (a + b) + x == a + (b + x);
      assert (s + t) + ReadTail(x).value.0 == s + (t + ReadTail(x).value.0);
    }
  }

  lemma {:induction false} UnitReads(u: string, c: char)
    requires u != "" && u[0] != '"' && forall rest: string :: ReadUnit(u + rest) == Some((c, |u|))
    ensures Reads(u, [c])
  {
    hide ReadUnit;
    forall x: string | ReadTail(x).Some? ensures ReadTail(u + x) == Some(([c] + ReadTail(x).value.0, ReadTail(x).value.1)) {
      assert (u + x)[|u|..] == x && (u + x)[0] == u[0];
    }
  }

  lemma {:induction false} EscapeReads(s: string)
    ensures Reads(Escape(s), s)
    decreases |s|
  {
    hide EscapeChar, Reads, ReadUnit;
    if s == "" {
      ReadsNothing();
    } else {
      forall rest: string ensures ReadUnit(EscapeChar(s[0]) + rest) == Some((s[0], |EscapeChar(s[0])|)) { UnitOfChar(s[0], rest); }
      UnitOfChar(s[0], "");
      UnitReads(EscapeChar(s[0]), s[0]);
      EscapeReads(s[1..]);
      ReadsBoth(EscapeChar(s[0]), [s[0]], Escape(s[1..]), s[1..]);
      assert [s[0]] + s[1..] == s;
    }
  }

  lemma {:induction false} FallbackReads(s: string)
    ensures Reads(FallbackEscape(s), s)
    decreases |s|
  {
    hide FallbackChar, Reads, ReadUnit;
    if s == "" {
      ReadsNothing();
    } else {
      forall rest: string ensures ReadUnit(FallbackChar(s[0]) + rest) == Some((s[0], |FallbackChar(s[0])|)) { FallbackUnit(s[0], rest); }
      FallbackUnit(s[0], "");
      UnitReads(FallbackChar(s[0]), s[0]);
      FallbackReads(s[1..]);
      ReadsBoth(FallbackChar(s[0]), [s[0]], FallbackEscape(s[1..]), s[1..]);
      assert [s[0]] + s[1..] == s;
    }
  }

  /** Content, left out when there is none. */
  function Content(s: string): string {
    if s == "" then "" else EscapeContent(s)
  }

  lemma {:induction false} ContentReads(s: string)
    ensures Reads(Content(s), s)
  {
    hide Reads, Valid;
    if s == "" { ReadsNothing(); } else if Valid(s) { EscapeReads(s); } else { FallbackReads(s); }
  }

  // ----- Inside a value -----

  /** The machine behind the first characters `v` of a value: `written` stands behind
      the opening quote and reads as `text`; the carry and the residue make up the rest. */
  ghost predicate Within(m: Machine, v: string, m1: Machine, out: string, written: string, text: string) {
    IsWithin(m, Residue(v), Done(v), m1, out, written, text)
  }

  ghost predicate IsWithin(m: Machine, residue: string, done: string, m1: Machine, out: string, written: string, text: string) {
    && m1 == m.(value := m1.value, tagBuffer := m1.tagBuffer, valueStarted := m1.valueStarted, carry := m1.carry)
    && m1.tagBuffer == residue && (m1.valueStarted <==> done != "")
    && Reads(written, text) && text + m1.carry == done
    && (if done == "" then out == "" && written == "" && m1.value == "" else out == "\"" + written)
  }

  lemma {:induction false} SplitParts(s: string)
    ensures SplitIncomplete(s).0 + SplitIncomplete(s).1 == s
  {
    LeadBackFound(s, 1);
  }

  lemma {:induction false} AnyStep(m: Machine, u: string, c: char, m1: Machine, out: string, written: string, text: string, schema: Schema)
    returns (written': string, text': string)
    requires FreshValue(m) && Within(m, u, m1, out, written, text) && !EndsWith(Residue(u) + [c], VALUE_CLOSE)
    ensures var (m2, o2) := Advance(m1, c, schema); Within(m, u + [c], m2, out + o2, written', text')
  {
    hide Advance, EndsWith, Residue, SplitIncomplete, EscapeContent, FlushContent, Reads, Done;
    ResidueStep(u, c);
    ValueChar(m1, c, schema);
    var b := Residue(u) + [c];
    if b <= VALUE_CLOSE {
      assert out + "" == out;
      written', text' := written, text;
    } else {
      var (complete, tail) := SplitIncomplete(m1.carry + b);
      SplitParts(m1.carry + b);
      ContentReads(complete);
      ReadsBoth(written, text, Content(complete), complete);
      written', text' := written + Content(complete), text + complete;
      assert (text + complete) + tail == text + (m1.carry + b) == Done(u) + b;
      assert Done(u) + b != "";
      AnyFlush(m1.(tagBuffer := b), complete, tail);
      if Done(u) == "" {
        assert text == "" && m1.carry == "";
        assert "\"" + (written + Content(complete)) == "\"" + Content(complete);
      } else {
        assert ("\"" + written) + Content(complete) == "\"" + (written + Content(complete));
      }
    }
  }

  lemma {:induction false} AnyFlush(m: Machine, complete: string, tail: string)
    requires IsString(m) && SplitIncomplete(m.carry + m.tagBuffer) == (complete, tail)
    ensures FlushContent(m) ==
            (m.(value := m.value + complete, valueStarted := true, carry := tail, tagBuffer := ""),
             (if m.valueStarted then "" else "\"") + Content(complete))
  {
    hide SplitIncomplete, EscapeContent;
  }

  lemma {:induction false} NothingRead(m: Machine)
    requires FreshValue(m)
    ensures Within(m, "", m, "", "", "")
  {
    hide Reads, Residue, Done;
    ResidueNothing();
    ReadsNothing();
    FreshFields(m);
    hide FreshValue;
    assert m == m.(value := m.value, tagBuffer := "", valueStarted := false, carry := m.carry);
  }

  lemma {:induction false} FreshFields(m: Machine)
    requires FreshValue(m)
    ensures m.value == "" && m.tagBuffer == "" && m.carry == "" && !m.valueStarted && m.state == IN_VALUE && IsString(m)
  {
  }

  lemma {:induction false} AnyText(m: Machine, v: string, schema: Schema) returns (written: string, text: string)
    requires FreshValue(m) && Free(v, VALUE_CLOSE)
    ensures var (m1, out) := Process(m, v, schema); Within(m, v, m1, out, written, text)
    decreases |v|
  {
    hide Advance, EndsWith, OccursAt, Residue, Within, FreshValue;
    if v == "" {
      NothingRead(m);
      written, text := "", "";
    } else {
      var n := |v| - 1;
      var u, c := v[..n], v[n];
      assert u + [c] == v;
      FreeSlice(v, VALUE_CLOSE, 0, n);
      assert v[0..n] == u;
      var w, t := AnyText(m, u, schema);
      NoClose(u, c);
      var (m1, out) := Process(m, u, schema);
      written, text := AnyStep(m, u, c, m1, out, w, t, schema);
    }
  }

  // ----- The end of a value -----

  /** For string values of any bytes: closed under the same condition, and then the
      literal that has been written reads back as exactly the value's bytes. */
  lemma {:induction false} AnyValueCloses(m: Machine, v: string, rest: string, schema: Schema)
    requires FreshValue(m) && Free(v, VALUE_CLOSE)
    ensures Process(m, v + VALUE_CLOSE, schema).0.state == BETWEEN <==> !EndsPending(v)
    ensures !EndsPending(v) ==>
              var (m2, out) := Process(m, v + VALUE_CLOSE, schema);
              m2 == m.(state := BETWEEN, valueType := "") && ReadLiteral(out + rest) == Some((v, rest))
  {
    hide Process, EndsPending, Residue, CloseValue, Free, ReadLiteral, Within, Done;
    PendingIffResidue(v);
    FreshParts(m);
    if Residue(v) != "" {
      Swallowed(m, v, schema);
    } else {
      var written, text := AnyText(m, v, schema);
      var (m1, out) := Process(m, v, schema);
      ProcessConcat(m, v, VALUE_CLOSE, schema);
      WithinParts(m, v, m1, out, written, text);
      ClosingTag(m1, schema);
      CloseReads(m, v, m1, out, written, text, rest, schema);
    }
  }

  lemma {:induction false} FreshParts(m: Machine)
    requires FreshValue(m)
    ensures m.state == IN_VALUE && m.tagBuffer == ""
  {
  }

  lemma {:induction false} WithinParts(m: Machine, v: string, m1: Machine, out: string, written: string, text: string)
    requires Within(m, v, m1, out, written, text)
    ensures m1.state == m.state && m1.tagBuffer == Residue(v)
  {
    hide Residue, Reads;
  }

  lemma {:induction false} CloseReads(m: Machine, v: string, m1: Machine, out: string, written: string, text: string, rest: string, schema: Schema)
    requires FreshValue(m) && Within(m, v, m1, out, written, text) && Residue(v) == ""
    ensures var (m2, o2) := CloseValue(m1.(tagBuffer := VALUE_CLOSE), schema);
            m2 == m.(state := BETWEEN, valueType := "") && ReadLiteral((out + o2) + rest) == Some((v, rest))
  {
    hide *;
    DoneIsAll(v);
    WithinIs(m, v, m1, out, written, text);
    WithinFields(m, v, m1, out, written, text);
    FreshFields(m);
    if v == "" {
      CloseEmpty(m, m1, rest, schema);
    } else {
      CloseStarted(m, v, m1, written, text, rest, schema);
    }
  }

  lemma {:induction false} WithinFields(m: Machine, v: string, m1: Machine, out: string, written: string, text: string)
    requires IsWithin(m, "", v, m1, out, written, text)
    ensures m1 == m.(value := m1.value, tagBuffer := m1.tagBuffer, valueStarted := v != "", carry := m1.carry)
    ensures Reads(written, text) && text + m1.carry == v
    ensures if v == "" then out == "" && m1.value == "" && m1.carry == "" else out == "\"" + written
  {
    hide Reads;
    assert |text + m1.carry| == |text| + |m1.carry|;
  }

  lemma {:induction false} WithinIs(m: Machine, v: string, m1: Machine, out: string, written: string, text: string)
    requires Within(m, v, m1, out, written, text) && Residue(v) == "" && Done(v) == v
    ensures IsWithin(m, "", v, m1, out, written, text)
  {
    hide IsWithin, Residue, Done;
  }

  lemma {:induction false} CloseEmpty(m: Machine, m1: Machine, rest: string, schema: Schema)
    requires FreshValue(m) && m1 == m.(value := "", tagBuffer := m1.tagBuffer, valueStarted := false, carry := "")
    ensures var (m2, o2) := CloseValue(m1.(tagBuffer := VALUE_CLOSE), schema);
            m2 == m.(state := BETWEEN, valueType := "") && ReadLiteral(("" + o2) + rest) == Some(("", rest))
  {
    hide ReadLiteral, Quote, CloseValue, IsString;
    QuoteRoundTrip("", rest);
    assert "" + Quote("") == Quote("");
    EmptyCloses(m, m1, schema);
  }

  lemma {:induction false} CloseStarted(m: Machine, v: string, m1: Machine, written: string, text: string, rest: string, schema: Schema)
    requires FreshValue(m) && m1 == m.(value := m1.value, tagBuffer := m1.tagBuffer, valueStarted := true, carry := m1.carry)
    requires Reads(written, text) && text + m1.carry == v
    ensures var (m2, o2) := CloseValue(m1.(tagBuffer := VALUE_CLOSE), schema);
            m2 == m.(state := BETWEEN, valueType := "") && ReadLiteral((("\"" + written) + o2) + rest) == Some((v, rest))
  {
    hide ReadLiteral, CloseValue, Content, Reads;
    LastQuote(m1, schema);
    StartedReads(v, m1.carry, written, text, rest);
  }

  lemma {:induction false} DoneIsAll(v: string)
    requires Residue(v) == ""
    ensures Done(v) == v
  {
    hide Residue;
    assert v[..|v|] == v;
  }

  lemma {:induction false} StartedReads(v: string, carry: string, written: string, text: string, rest: string)
    requires Reads(written, text) && text + carry == v
    ensures ReadLiteral((("\"" + written) + (Content(carry) + "\"")) + rest) == Some((v, rest))
  {
    hide Reads, Content, ReadLiteral;
    ContentReads(carry);
    ReadsBoth(written, text, Content(carry), carry);
    var literal := written + Content(carry);
    assert (("\"" + written) + (Content(carry) + "\"")) + rest == "\"" + (literal + ("\"" + rest));
    ClosedLiteral(literal, v, rest);
  }

  lemma {:induction false} EmptyCloses(m: Machine, m1: Machine, schema: Schema)
    requires FreshValue(m) && m1 == m.(tagBuffer := m1.tagBuffer)
    ensures CloseValue(m1.(tagBuffer := VALUE_CLOSE), schema) == (m.(state := BETWEEN, valueType := ""), Quote(""))
  {
    hide EscapeContent, Quote;
    assert VALUE_CLOSE[..0] == "" && "" + "" == "";
  }

  lemma {:induction false} LastQuote(m1: Machine, schema: Schema)
    requires m1.valueStarted && IsString(m1)
    ensures CloseValue(m1.(tagBuffer := VALUE_CLOSE), schema) ==
            (m1.(state := BETWEEN, value := "", tagBuffer := "", valueStarted := false, valueType := "", carry := ""),
             Content(m1.carry) + "\"")
  {
    hide EscapeContent, FormatComplete;
    assert VALUE_CLOSE[..0] == "" && m1.carry + "" == m1.carry;
  }

  lemma {:induction false} ClosedLiteral(literal: string, v: string, rest: string)
    requires Reads(literal, v)
    ensures ReadLiteral("\"" + (literal + ("\"" + rest))) == Some((v, rest))
  {
    hide ReadUnit;
    var end := "\"" + rest;
    assert end[0] == '"' && end[1..] == rest;
    assert ReadTail(end) == Some(("", rest));
    assert v + "" == v;
    assert ("\"" + (literal + end))[1..] == literal + end;
  }
}
