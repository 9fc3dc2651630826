/** Model outputs as documents, their printed form, and the proof that the
    streaming scanner inverts printing.

    A document is printed as a list of pieces; `ScanPieces` is the lexer theorem
    for any well-formed list, and the rest reads calls off the document. */
module QwenPrinter {
  import opened Wrappers
  import opened TextSearch
  import opened QwenScanner
  import opened QwenChunks

  // ----- Pieces -----

  datatype Piece =
    | Text(text: string)
    | CallStart
    | CallEnd
    | Header(name: string)
    | Parameter(key: string, raw: string, closed: bool)
    | FunctionEnd

  function PieceText(p: Piece): string {
    match p
    case Text(t) => t
    case CallStart => CALL_START
    case CallEnd => CALL_END
    case Header(name) => FUNCTION_PREFIX + name + ">"
    case Parameter(key, raw, closed) =>
      PARAMETER_PREFIX + key + ">" + raw + (if closed then PARAMETER_END else "")
    case FunctionEnd => FUNCTION_END
  }

  function Print(ps: seq<Piece>): string {
    if ps == [] then "" else PieceText(ps[0]) + Print(ps[1..])
  }

  /** A parameter value none of the three terminators occurs in. */
  ghost predicate ValueFree(raw: string) {
    Free(raw, PARAMETER_END) && Free(raw, PARAMETER_PREFIX) && Free(raw, FUNCTION_END)
  }

  /** `p` can be read off when `rest` follows it. */
  ghost predicate Fits(p: Piece, rest: string) {
    match p
    case Text(t) => TagFree(t) && (t == "" || (rest != "" && rest[0] == '<'))
    case Header(name) => '>' !in name
    case Parameter(key, raw, closed) =>
      '>' !in key && ValueFree(raw) && (closed || PARAMETER_PREFIX <= rest || FUNCTION_END <= rest)
    case _ => true
  }

  ghost predicate WellFormed(ps: seq<Piece>, tail: string) {
    ps == [] || (Fits(ps[0], Print(ps[1..]) + tail) && WellFormed(ps[1..], tail))
  }

  /** What reading one piece does: the new mode, the text and the fragments. */
  function Read(p: Piece, m: Mode, tools: Tools): Outcome {
    match p
    case Text(t) => Outcome("", m, Visible(m, t), [])
    case CallStart => Outcome("", m.(inside := true), "", [])
    case CallEnd => Outcome("", m.(inside := false), "", [])
    case Header(name) =>
      Outcome("", Mode(m.toolId + 1, true, 0, false, m.inside, Some(name)), "",
              [Call(m.toolId + 1, Some(name), "")])
    case Parameter(key, raw, _) =>
      Outcome("", m.(jsonStarted := true, paramCount := m.paramCount + 1), "",
              ParameterCalls(m, key, raw, tools))
    case FunctionEnd =>
      Outcome("", m.(jsonStarted := true, func := None), "", OpenBrace(m) + [Call(m.toolId, None, "}")])
  }

  function ReadAll(ps: seq<Piece>, m: Mode, tools: Tools): Outcome {
    if ps == [] then Outcome("", m, "", [])
    else
      var o := Read(ps[0], m, tools);
      ReadAll(ps[1..], o.mode, tools).After(o.text, o.calls)
  }

  lemma {:induction false} PrintConcat(ps: seq<Piece>, qs: seq<Piece>)
    ensures Print(ps + qs) == Print(ps) + Print(qs)
  {
    hide PieceText;
    if ps == [] {
      assert ps + qs == qs;
    } else {
      PrintConcat(ps[1..], qs);
      assert (ps + qs)[1..] == ps[1..] + qs && (ps + qs)[0] == ps[0];
      var a, b, c := PieceText(ps[0]), Print(ps[1..]), Print(qs);
      assert a + (b + c) == (a + b) + c;
    }
  }

  lemma {:induction false} ReadConcat(ps: seq<Piece>, qs: seq<Piece>, m: Mode, tools: Tools)
    ensures var o := ReadAll(ps, m, tools);
            ReadAll(ps + qs, m, tools) == ReadAll(qs, o.mode, tools).After(o.text, o.calls)
  {
    if ps == [] {
      assert ps + qs == qs;
      AfterNothing(ReadAll(qs, m, tools));
    } else {
      hide Read;
      var o := Read(ps[0], m, tools);
      var o' := ReadAll(ps[1..], o.mode, tools);
      ReadConcat(ps[1..], qs, o.mode, tools);
      assert (ps + qs)[1..] == ps[1..] + qs;
      AfterTwice(ReadAll(qs, o'.mode, tools), o.text, o.calls, o'.text, o'.calls);
    }
  }

  lemma {:induction false} WellFormedConcat(ps: seq<Piece>, qs: seq<Piece>, tail: string)
    requires WellFormed(ps, Print(qs) + tail) && WellFormed(qs, tail)
    ensures WellFormed(ps + qs, tail)
  {
    hide Fits, Print;
    if ps == [] {
      assert ps + qs == qs;
    } else {
      WellFormedConcat(ps[1..], qs, tail);
      assert (ps + qs)[1..] == ps[1..] + qs;
      PrintConcat(ps[1..], qs);
      var b, c := Print(ps[1..]), Print(qs);
      assert b + (c + tail) == (b + c) + tail;
    }
  }

  // ----- The lexer theorem -----

  lemma {:induction false} AngleInText(t: string, rest: string)
    requires t != "" && t[0] == '<' && TagFree(t) && rest != "" && rest[0] == '<'
    ensures !StartsWithTag(t + rest) && !IsPotentialTag(t + rest)
  {
    TagShapes();
    var s := t + rest;
    assert !OccursAt(s, CALL_START, 0) by { if OccursAt(s, CALL_START, 0) { TagAcrossSeam(t, rest, CALL_START, 0); } }
    assert !OccursAt(s, CALL_END, 0) by { if OccursAt(s, CALL_END, 0) { TagAcrossSeam(t, rest, CALL_END, 0); } }
    assert !OccursAt(s, FUNCTION_PREFIX, 0) by { if OccursAt(s, FUNCTION_PREFIX, 0) { TagAcrossSeam(t, rest, FUNCTION_PREFIX, 0); } }
    assert !OccursAt(s, FUNCTION_END, 0) by { if OccursAt(s, FUNCTION_END, 0) { TagAcrossSeam(t, rest, FUNCTION_END, 0); } }
    assert !OccursAt(s, PARAMETER_PREFIX, 0) by { if OccursAt(s, PARAMETER_PREFIX, 0) { TagAcrossSeam(t, rest, PARAMETER_PREFIX, 0); } }
    assert s[|t|] == '<';
  }

  /** Tag-free text in front of a `<` passes through completely. */
  lemma {:induction false} ScanText(t: string, rest: string, m: Mode, tools: Tools)
    requires TagFree(t) && (t == "" || (rest != "" && rest[0] == '<'))
    ensures Scan(t + rest, m, tools) == Scan(rest, m, tools).After(Visible(m, t), [])
    decreases |t|
  {
    hide Next, TagFree, StartsWithTag, IsPotentialTag;
    if t == "" {
      assert t + rest == rest;
      AfterNothing(Scan(rest, m, tools));
    } else {
      var k := if t[0] == '<' then 1 else PlainLength(t);
      assert k > 0 by { if t[0] != '<' { assert PlainLength(t) > 0; } }
      var first, later := t[..k], t[k..];
      assert t + rest == first + (later + rest) && later == t[k..|t|];
      TagFreeSlice(t, k, |t|);
      ScanText(later, rest, m, tools);
      if t[0] == '<' {
        AngleInText(t, rest);
        LoneAngleStable(t + rest, "", m, tools);
        assert (t + rest)[1..] == later + rest && first == "<";
      } else {
        PlainText(first, later + rest, m, tools);
      }
      AfterTwice(Scan(rest, m, tools), Visible(m, first), [], Visible(m, later), []);
      assert t == first + later;
    }
  }

  /** A value is cut exactly where its terminator starts. */
  lemma {:induction false} ValueEndAt(raw: string, rest: string)
    requires ValueFree(raw)
    requires PARAMETER_END <= rest || PARAMETER_PREFIX <= rest || FUNCTION_END <= rest
    ensures FindValueEnd(raw + rest) ==
            Some(ValueEnd(|raw|, if PARAMETER_END <= rest then |PARAMETER_END| else 0))
  {
    TagShapes();
    assert rest[0] == '<';
    FindAfterFree(raw, rest, PARAMETER_END);
    FindAfterFree(raw, rest, PARAMETER_PREFIX);
    FindAfterFree(raw, rest, FUNCTION_END);
    TerminatorAtStart(rest, PARAMETER_END);
    TerminatorAtStart(rest, PARAMETER_PREFIX);
    TerminatorAtStart(rest, FUNCTION_END);
  }

  lemma {:induction false} TerminatorAtStart(rest: string, t: string)
    requires t != ""
    ensures t <= rest <==> Find(rest, t, 0) == Some(0)
  {
    if t <= rest {
      FindIs(rest, t, 0, 0);
    }
  }

  /** The layout of a printed parameter. */
  lemma {:induction false} ParameterLayout(cur: string, key: string, raw: string, after: string)
    requires cur == PARAMETER_PREFIX + key + ">" + raw + after && '>' !in key
    ensures var e := |PARAMETER_PREFIX| + |key|;
            && PARAMETER_PREFIX <= cur
            && Find(cur, ">", 0) == Some(e)
            && cur[|PARAMETER_PREFIX|..e] == key
            && cur[e + 1..] == raw + after
            && cur[e + 1..e + 1 + |raw|] == raw
  {
    var e := |PARAMETER_PREFIX| + |key|;
    assert cur[..e] == PARAMETER_PREFIX + key;
    FindCharIs(cur, '>', e);
  }

  lemma {:induction false} NextParameterText(cur: string, key: string, raw: string, after: string, m: Mode, tools: Tools)
    requires cur == PARAMETER_PREFIX + key + ">" + raw + after && '>' !in key && ValueFree(raw)
    requires PARAMETER_END <= after || PARAMETER_PREFIX <= after || FUNCTION_END <= after
    ensures Next(cur, m, tools) ==
            Take(|PARAMETER_PREFIX| + |key| + 1 + |raw| + (if PARAMETER_END <= after then |PARAMETER_END| else 0),
                 m.(jsonStarted := true, paramCount := m.paramCount + 1), "",
                 ParameterCalls(m, key, raw, tools))
  {
    hide FindValueEnd, ParameterCalls, ValueFree, Next, Find;
    ParameterLayout(cur, key, raw, after);
    ValueEndAt(raw, after);
    NextIsParameter(cur, m, tools);
  }

  lemma {:induction false} NextParameter(key: string, raw: string, closed: bool, rest: string, m: Mode, tools: Tools)
    requires Fits(Parameter(key, raw, closed), rest)
    ensures var p := Parameter(key, raw, closed); var o := Read(p, m, tools);
            Next(PieceText(p) + rest, m, tools) == Take(|PieceText(p)|, o.mode, o.text, o.calls)
  {
    hide Next, ParameterCalls, ValueFree;
    var p := Parameter(key, raw, closed);
    var after := (if closed then PARAMETER_END else "") + rest;
    assert PieceText(p) + rest == PARAMETER_PREFIX + key + ">" + raw + after;
    if !closed {
      assert after == rest;
      PrefixesDiffer(rest);
    }
    NextParameterText(PieceText(p) + rest, key, raw, after, m, tools);
  }

  lemma {:induction false} PrefixesDiffer(s: string)
    requires PARAMETER_PREFIX <= s || FUNCTION_END <= s
    ensures !(PARAMETER_END <= s)
  {
    assert s[1] == if PARAMETER_PREFIX <= s then 'p' else '/';
    assert s[2] == if PARAMETER_PREFIX <= s then 'a' else 'f';
  }

  lemma {:induction false} NextIsParameter(cur: string, m: Mode, tools: Tools)
    requires PARAMETER_PREFIX <= cur
    ensures Next(cur, m, tools) == ParameterStep(cur, m, tools)
  {
    assert cur[1] == 'p';
  }

  lemma {:induction false} NextHeader(name: string, rest: string, m: Mode, tools: Tools)
    requires '>' !in name
    ensures var p := Header(name); var o := Read(p, m, tools);
            Next(PieceText(p) + rest, m, tools) == Take(|PieceText(p)|, o.mode, o.text, o.calls)
  {
    var cur := PieceText(Header(name)) + rest;
    var e := |FUNCTION_PREFIX| + |name|;
    assert cur[..e] == FUNCTION_PREFIX + name;
    FindCharIs(cur, '>', e);
    assert cur[|FUNCTION_PREFIX|..e] == name;
  }

  /** Reading one piece is what the scanner does with its text. */
  lemma {:induction false} ScanPiece(p: Piece, rest: string, m: Mode, tools: Tools)
    requires Fits(p, rest)
    ensures var o := Read(p, m, tools);
            Scan(PieceText(p) + rest, m, tools) == Scan(rest, o.mode, tools).After(o.text, o.calls)
  {
    if p.Text? {
      ScanText(p.text, rest, m, tools);
    } else {
      NextPiece(p, rest, m, tools);
      hide Next, Read, PieceText;
      assert (PieceText(p) + rest)[|PieceText(p)|..] == rest;
    }
  }

  lemma {:induction false} NextPiece(p: Piece, rest: string, m: Mode, tools: Tools)
    requires Fits(p, rest) && !p.Text?
    ensures var o := Read(p, m, tools);
            Next(PieceText(p) + rest, m, tools) == Take(|PieceText(p)|, o.mode, o.text, o.calls)
  {
    var cur := PieceText(p) + rest;
    match p
    case Header(name) => NextHeader(name, rest, m, tools);
    case Parameter(key, raw, closed) => NextParameter(key, raw, closed, rest, m, tools);
    case CallStart => assert cur[1] == 't';
    case CallEnd => assert cur[1] == '/' && cur[2] == 't';
    case FunctionEnd => assert cur[1] == '/' && cur[2] == 'f';
  }

  /** The scanner inverts printing, for every well-formed list of pieces. */
  lemma {:induction false} ScanPieces(ps: seq<Piece>, tail: string, m: Mode, tools: Tools)
    requires WellFormed(ps, tail)
    ensures var o := ReadAll(ps, m, tools);
            Scan(Print(ps) + tail, m, tools) == Scan(tail, o.mode, tools).After(o.text, o.calls)
    decreases |ps|
  {
    hide Scan, Read, Fits, PieceText;
    if ps == [] {
      assert Print(ps) + tail == tail;
      AfterNothing(Scan(tail, m, tools));
    } else {
      var rest := Print(ps[1..]) + tail;
      var o := Read(ps[0], m, tools);
      var o' := ReadAll(ps[1..], o.mode, tools);
      assert Print(ps) + tail == PieceText(ps[0]) + rest;
      ScanPiece(ps[0], rest, m, tools);
      ScanPieces(ps[1..], tail, o.mode, tools);
      AfterTwice(Scan(tail, o'.mode, tools), o.text, o.calls, o'.text, o'.calls);
    }
  }
}
