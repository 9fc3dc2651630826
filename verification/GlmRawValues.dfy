/** Arguments that are not strings pass through unchanged, and the one case in which
    the end of a GLM-4.7 tool call leaves its JSON object open. */
module GlmRawValues {
  import opened Wrappers
  import opened TextSearch
  import opened JsonText
  import opened Utf8
  import opened GlmMachine
  import opened GlmRoundTrip

  predicate FreshRaw(m: Machine) {
    && m.state == IN_VALUE && m.value == "" && m.tagBuffer == "" && m.carry == "" && !m.valueStarted
    && !IsString(m)
  }

  /** The machine after the first characters of a raw value. */
  function InRaw(m: Machine, v: string): (Machine, string) {
    (m.(value := Done(v), tagBuffer := Residue(v), valueStarted := Done(v) != ""), Done(v))
  }

  lemma {:induction false} RawStep(m: Machine, u: string, c: char, schema: Schema)
    requires FreshRaw(m) && !EndsWith(Residue(u) + [c], VALUE_CLOSE)
    ensures var (m1, o1) := InRaw(m, u); var (m2, o2) := Advance(m1, c, schema);
            (m2, o1 + o2) == InRaw(m, u + [c])
  {
    hide Advance, EndsWith, Residue, Done;
    ResidueStep(u, c);
    var (m1, o1) := InRaw(m, u);
    ValueChar(m1, c, schema);
    assert o1 + "" == o1;
  }

  lemma {:induction false} RawText(m: Machine, v: string, schema: Schema)
    requires FreshRaw(m) && Free(v, VALUE_CLOSE)
    ensures Process(m, v, schema) == InRaw(m, v)
    decreases |v|
  {
    hide Advance, EndsWith, OccursAt, Residue, Done;
    if v == "" {
      ResidueNothing();
    } else {
      var n := |v| - 1;
      var u, c := v[..n], v[n];
      assert u + [c] == v;
      FreeSlice(v, VALUE_CLOSE, 0, n);
      assert v[0..n] == u;
      RawText(m, u, schema);
      NoClose(u, c);
      RawStep(m, u, c, schema);
    }
  }

  /** The literal a value that is no string becomes: itself, unless it is an empty
      number. */
  function RawLiteral(v: string, valueType: string, schema: Schema): string {
    if v == "" && valueType == "number" then schema.number("") else v
  }

  lemma {:induction false} CloseRaw(m: Machine, v: string, schema: Schema)
    requires FreshRaw(m)
    ensures var m1 := m.(value := v, valueStarted := v != "", tagBuffer := VALUE_CLOSE);
            CloseValue(m1, schema) == (m.(state := BETWEEN, valueType := ""), if v == "" then RawLiteral(v, m.valueType, schema) else "")
  {
    assert VALUE_CLOSE[..0] == "" && "" + "" == "";
  }

  /** A value that is no string is closed under the same condition as a string, and is
      copied. */
  lemma {:induction false} RawValueCloses(m: Machine, v: string, schema: Schema)
    requires FreshRaw(m) && Free(v, VALUE_CLOSE)
    ensures Process(m, v + VALUE_CLOSE, schema).0.state == BETWEEN <==> !EndsPending(v)
    ensures !EndsPending(v) ==>
              Process(m, v + VALUE_CLOSE, schema) == (m.(state := BETWEEN, valueType := ""), RawLiteral(v, m.valueType, schema))
  {
    hide *;
    PendingIffResidue(v);
    if Residue(v) != "" {
      RawParts(m);
      Swallowed(m, v, schema);
    } else {
      RawClosed(m, v, schema);
    }
  }

  lemma {:induction false} RawClosed(m: Machine, v: string, schema: Schema)
    requires FreshRaw(m) && Free(v, VALUE_CLOSE) && Residue(v) == ""
    ensures Process(m, v + VALUE_CLOSE, schema) == (m.(state := BETWEEN, valueType := ""), RawLiteral(v, m.valueType, schema))
  {
    hide *;
    RawText(m, v, schema);
    AllRaw(m, v);
    RawParts(m);
    var m1 := m.(value := v, valueStarted := v != "");
    RawTail(m, m1, v, schema);
    ProcessConcat(m, v, VALUE_CLOSE, schema);
    assert v + "" == v;
    NonEmptyLiteral(v, m.valueType, schema);
    assert "" + RawLiteral(v, m.valueType, schema) == RawLiteral(v, m.valueType, schema);
  }

  lemma {:induction false} NonEmptyLiteral(v: string, valueType: string, schema: Schema)
    ensures v != "" ==> RawLiteral(v, valueType, schema) == v
  {
  }

  lemma {:induction false} RawTail(m: Machine, m1: Machine, v: string, schema: Schema)
    requires FreshRaw(m) && m1 == m.(value := v, valueStarted := v != "")
    ensures Process(m1, VALUE_CLOSE, schema) ==
            (m.(state := BETWEEN, valueType := ""), if v == "" then RawLiteral(v, m.valueType, schema) else "")
  {
    hide *;
    RawParts(m);
    ClosingTag(m1, schema);
    CloseRaw(m, v, schema);
  }

  lemma {:induction false} RawParts(m: Machine)
    requires FreshRaw(m)
    ensures m.state == IN_VALUE && m.tagBuffer == ""
  {
  }

  lemma {:induction false} AllRaw(m: Machine, v: string)
    requires FreshRaw(m) && Residue(v) == ""
    ensures InRaw(m, v) == (m.(value := v, valueStarted := v != ""), v)
  {
    hide Residue, IsString;
    assert Done(v) == v;
  }

  ghost predicate RawRenderable(a: Argument, schema: Schema) {
    && Free(a.before, KEY_OPEN) && Free(a.key, KEY_CLOSE)
    && Free(a.between, VALUE_OPEN) && Free(a.value, VALUE_CLOSE)
    && !EndsPending(a.value)
    && schema.typeOf(Trim(a.key)) !in {"", "string"}
  }

  lemma {:induction false} RawArgumentRun(m: Machine, a: Argument, schema: Schema)
    requires Ready(m) && RawRenderable(a, schema)
    ensures Process(m, RenderKey(a) + RenderValue(a), schema) ==
            (m.(state := BETWEEN, key := Trim(a.key), firstParam := false, valueType := ""),
             (if m.firstParam then "{" else ", ") + (Quote(Trim(a.key)) + ": ") + RawLiteral(a.value, schema.typeOf(Trim(a.key)), schema))
  {
    hide Process, Free, Trim, Quote, EndsPending, ValueType, RawLiteral;
    KeyRun(m, a, schema);
    var m1 := m.(state := WAITING_VALUE, key := Trim(a.key), firstParam := false);
    ValueStarts(m1, a.between, schema);
    GuessOfNothing(m1.key, schema);
    var m2 := m1.(state := IN_VALUE, valueType := ValueType(m1.key, "", schema));
    RawValueCloses(m2, a.value, schema);
    ProcessConcat(m1, a.between + VALUE_OPEN, a.value + VALUE_CLOSE, schema);
    var lit := RawLiteral(a.value, m2.valueType, schema);
    assert "" + lit == lit;
    ProcessConcat(m, RenderKey(a), RenderValue(a), schema);
  }

  /** With a last argument that is no string the end of the call adds the closing brace
      if and only if that argument's literal does not itself end in one. */
  lemma {:induction false} BraceAfterRawValue(m: Machine, a: Argument, streamed: string, schema: Schema)
    requires Ready(m) && RawRenderable(a, schema)
    ensures var (m2, out) := Process(m, RenderKey(a) + RenderValue(a), schema);
            var v := RawLiteral(a.value, schema.typeOf(Trim(a.key)), schema);
            && EndsWith(out, v)
            && ClosingBrace(m2.firstParam, streamed + out) == if EndsWith(v, "}") then "" else "}"
  {
    hide Process, Ready, RawRenderable, RenderKey, RenderValue, Quote, Trim, RawLiteral;
    RawArgumentRun(m, a, schema);
    var v := RawLiteral(a.value, schema.typeOf(Trim(a.key)), schema);
    var front := (if m.firstParam then "{" else ", ") + (Quote(Trim(a.key)) + ": ");
    var out := front + v;
    assert out[|out| - |v|..] == v;
    if v != "" {
      assert (streamed + out)[|streamed + out| - 1] == v[|v| - 1];
      assert v[|v| - 1..] == [v[|v| - 1]];
    } else {
      assert (streamed + out)[|streamed + out| - 1] == ' ';
    }
  }

  // ----- Content that is no UTF-8 -----

  /** Six characters for a control character, two for a quote or a backslash. */
  lemma {:induction false} FallbackUnit(c: char, rest: string)
    ensures ReadUnit(FallbackChar(c) + rest) == Some((c, |FallbackChar(c)|))
    ensures |FallbackChar(c)| == if c as int < 0x20 then 6 else if c in {'"', '\\'} then 2 else 1
    ensures FallbackChar(c)[0] != '"'
  {
    var b := c as int;
    if b < 0x20 {
      var s := FallbackChar(c) + rest;
      assert s[1] == 'u' && s[2] == '0' && s[3] == '0' && s[4] == HEX[b / 16] && s[5] == HEX[b % 16];
      HexDigits(b / 16);
      HexDigits(b % 16);
    }
  }

  lemma {:induction false} FallbackTail(s: string, rest: string)
    ensures ReadTail(FallbackEscape(s) + "\"" + rest) == Some((s, rest))
    decreases |s|
  {
    hide FallbackChar, ReadUnit;
    var text := FallbackEscape(s) + "\"" + rest;
    if s == "" {
      assert text[0] == '"' && text[1..] == rest;
    } else {
      var e := FallbackChar(s[0]);
      var later := FallbackEscape(s[1..]) + "\"" + rest;
      assert text == e + later;
      FallbackUnit(s[0], later);
      assert text[0] == e[0] && text[|e|..] == later;
      FallbackTail(s[1..], rest);
      assert [s[0]] + s[1..] == s;
    }
  }

  /** Whatever is written between quotes, valid UTF-8 or not, reads back byte by byte. */
  lemma {:induction false} ContentReadsBack(s: string, rest: string)
    ensures ReadLiteral("\"" + EscapeContent(s) + "\"" + rest) == Some((s, rest))
  {
    hide ReadTail, FallbackEscape, Escape;
    var text := "\"" + EscapeContent(s) + "\"" + rest;
    assert text[1..] == EscapeContent(s) + "\"" + rest;
    if Valid(s) { TailOfEscaped(s, rest); } else { FallbackTail(s, rest); }
  }
}
