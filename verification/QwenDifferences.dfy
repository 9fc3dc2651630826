/** Texts on which streaming and one-shot parsing disagree. */
module QwenDifferences {
  import opened TextSearch
  import opened QwenScanner
  import opened QwenChunks
  import opened QwenPrinter
  import opened QwenDocument
  import opened QwenCalls
  import opened QwenOneShot
  import opened QwenReading
  import opened QwenCuts
  import opened QwenAgreement

  // ----- One call with one parameter -----

  function OneParam(raw: string, closed: bool): Function {
    Function("f", "", [Param("a", raw, closed, "")], "")
  }

  function OneCallDocument(f: Function): Document {
    Document([Block("", "", [f])], "")
  }

  function OneCallText(raw: string, closed: bool): string {
    CALL_START + ("<function=f>" + ("<parameter=a>" + raw + (if closed then PARAMETER_END else "")) + FUNCTION_END) + CALL_END
  }

  lemma {:induction false} OneInner(raw: string, closed: bool)
    ensures Inner(OneParam(raw, closed)) == "<parameter=a>" + raw + (if closed then PARAMETER_END else "")
  {
    hide Print;
    var f := OneParam(raw, closed);
    NothingPrinted();
    assert f.params[1..] == [];
    ParamsText(f.params, "");
    assert "<parameter=" + "a" + ">" == "<parameter=a>";
    var end := if closed then PARAMETER_END else "";
    assert ParamRest(f.params[0]) == end by { assert PARAMETER_END + "" == PARAMETER_END; }
    var printed := Print(ParamPieces(f.params));
    assert printed + "" == printed && end + ("" + "") == end;
    assert "" + printed == printed;
  }

  lemma {:induction false} OneContent(f: Function)
    requires f.after == ""
    ensures Content(Block("", "", [f])) == HeaderText(f.name) + Inner(f) + FUNCTION_END
  {
    hide Print, Inner, HeaderText;
    NothingPrinted();
    FunctionsText([f]);
    assert [f][1..] == [];
    assert FUNCTION_END + ("" + "") == FUNCTION_END;
    assert HeaderText(f.name) + (Inner(f) + FUNCTION_END) == HeaderText(f.name) + Inner(f) + FUNCTION_END;
  }

  lemma {:induction false} OneCallPrinted(raw: string, closed: bool)
    ensures PrintDocument(OneCallDocument(OneParam(raw, closed))) == OneCallText(raw, closed)
    ensures HeaderText("f") == "<function=f>"
  {
    hide Print, Inner, Content, BlockPieces, HeaderText;
    var f := OneParam(raw, closed);
    var b := Block("", "", [f]);
    NameText();
    OneInner(raw, closed);
    OneContent(f);
    ClosedBlockText(b);
    OneBlock(b);
    var text := OneCallText(raw, closed);
    assert "" + text == text && text + "" == text;
  }

  lemma {:induction false} NameText()
    ensures HeaderText("f") == "<function=f>"
  {
    assert "<function=" + "f" + ">" == "<function=f>";
  }

  lemma {:induction false} OneBlock(b: Block)
    ensures BlocksPieces([b]) == BlockPieces(b)
  {
    hide BlockPieces;
    assert [b][1..] == [];
    assert BlockPieces(b) + [] == BlockPieces(b);
  }

  /** A text with one `<`, its first character, does not contain a tag that
      differs from it somewhere. */
  lemma {:induction false} NotTheTag(s: string, t: string, k: nat)
    requires IsTag(t) && k < |s| && k < |t| && s[k] != t[k] && '<' !in s[1..]
    ensures Free(s, t)
  {
    assert s[..|s|] == s;
    SingleAngleFree(s, t);
  }

  /** The single parameter of a call is not read: streaming reports it, one-shot
      parsing reports an empty object. */
  lemma {:induction false} ParameterLost(raw: string, closed: bool, tools: Tools)
    requires ComparableDocument(OneCallDocument(OneParam(raw, closed)))
    requires !HeaderHides(OneParam(raw, closed)) && CutCount(OneParam(raw, closed)) == 0
    ensures var text := OneCallText(raw, closed);
            && |FunctionsIn(text)| == 1 && OneShotArguments(text, 0, tools) == map[]
            && ArgumentsOf(Run(InitialState, [text], tools).calls, 0) == "{" + Member("a", raw, "f", tools) + "}"
            && !Agree(OneCallDocument(OneParam(raw, closed)), Run(InitialState, [text], tools), tools)
  {
    hide Run, FunctionsIn, PrintDocument, ArgumentsOf, NamesOf, ParsedCalls, ComparableDocument, HeaderHides, CutCount, OneCallText, NormalText,
         Member, ParamList;
    var f := OneParam(raw, closed);
    var d, text := OneCallDocument(f), OneCallText(raw, closed);
    OneCallPrinted(raw, closed);
    assert Concat([text]) == text + "" == text;
    assert HasBlock(d.blocks) by { assert d.blocks[0].Block?; }
    assert d.blocks[1..] == [] && AllFunctions(d.blocks) == [f] + [] == [f];
    assert SameCalls(d);
    StreamingAgreesWithOneShot(d, [text], tools);
    OneShotReads(d);
    DocumentCount(d);
    assert FunctionsIn(text)[0].0 == "f" && ParamList(FunctionsIn(text)[0].1, 0) == AllPairs(f.params[..0]) == [];
    LosesA(f, raw, tools);
    OneMember(f, tools);
  }

  lemma {:induction false} LosesA(f: Function, raw: string, tools: Tools)
    requires f.params != [] && f.params[0].key == "a" && |f.params| == 1
    ensures !NothingLost(f, 0, tools)
  {
    var ps := f.params[0..];
    assert ps == f.params && f.params[..0] == [] && ps[1..] == [];
    assert AllPairs(ps) == [("a", f.params[0].raw)] + [];
    assert AllPairs(ps)[..0] == [];
    assert "a" in ArgumentMap(AllPairs(ps), f.name, tools);
  }

  lemma {:induction false} OneMember(f: Function, tools: Tools)
    requires |f.params| == 1
    ensures ObjectText(f, tools) == "{" + Member(f.params[0].key, f.params[0].raw, f.name, tools) + "}"
  {
    hide Member;
  }

  lemma {:induction false} OneCallComparable(raw: string, closed: bool)
    requires ValueFree(raw) && Free(Behind(Content(Block("", "", [OneParam(raw, closed)]))), CALL_START)
    ensures ComparableDocument(OneCallDocument(OneParam(raw, closed))) && !HeaderHides(OneParam(raw, closed))
  {
    hide Behind, Content, Cut, ValueFree;
    EmptyIsFree();
    TagShapes();
    var f := OneParam(raw, closed);
    assert KeyText("a") == "<parameter=a>" by { assert "<parameter=" + "a" + ">" == "<parameter=a>"; }
    assert HeaderText("f") == "<function=f>" by { assert "<function=" + "f" + ">" == "<function=f>"; }
    NotTheTag("<parameter=a>", FUNCTION_END, 1);
    NotTheTag("<function=f>", CALL_END, 1);
    hide Free;
    assert forall i | 0 <= i < |f.params| :: f.params[i] == f.params[0];
    assert Readable(f);
    assert Comparable(Block("", "", [f]));
  }

  // ----- An open last parameter -----

  /** The text is cut in front of `</function>`, so an open last value has no
      terminator for the one-shot parser. */
  lemma {:induction false} OneShotDropsOpenParameter(tools: Tools)
    ensures var text := OneCallText("1", false);
            && |FunctionsIn(text)| == 1 && OneShotArguments(text, 0, tools) == map[]
            && ArgumentsOf(Run(InitialState, [text], tools).calls, 0) == "{" + Member("a", "1", "f", tools) + "}"
  {
    hide Run, FunctionsIn, ArgumentsOf, OneShotArguments, OneCallText, Agree, ComparableDocument;
    var f := OneParam("1", false);
    var content := Content(Block("", "", [f]));
    OpenValue();
    OneContent(f);
    OneInner("1", false);
    OpenContentFree(content);
    CutSkip(content, "") by { SeamIsClean(content, ""); }
    CutNothing();
    assert content + "" == content;
    OneCallComparable("1", false) by { EmptyIsFree(); }
    assert CutCount(f) == 0 by { OpenIsCut(f); }
    ParameterLost("1", false, tools);
  }

  lemma {:induction false} OpenValue()
    ensures ValueFree("1") && HeaderText("f") == "<function=f>"
  {
    assert "<function=" + "f" + ">" == "<function=f>";
  }

  lemma {:induction false} OpenContentFree(content: string)
    requires content == "<function=f>" + ("<parameter=a>" + "1" + "") + FUNCTION_END
    ensures Free(content, CALL_END)
  {
    TagShapes();
    EndFree();
    NotTheTag("<function=f>", CALL_END, 1);
    assert "<parameter=a>" + "1" + "" == "<parameter=a>1";
    NotTheTag("<parameter=a>1", CALL_END, 1);
    FreeConcat("<function=f>", "<parameter=a>1", CALL_END);
    FreeConcat("<function=f>" + "<parameter=a>1", FUNCTION_END, CALL_END);
  }

  lemma {:induction false} OpenIsCut(f: Function)
    requires f == OneParam("1", false)
    ensures CutCount(f) == 0
  {
    TagShapes();
    assert KeyText("a") + "1" == "<parameter=a>1" by { assert "<parameter=" + "a" + ">" + "1" == "<parameter=a>1"; }
    NotTheTag("<parameter=a>1", CALL_END, 1);
    assert f.params[1..] == [];
  }

  // ----- A value that contains the end of a block -----

  /** A value with `</tool_call>` in it: streaming reports it whole, the one-shot
      parser ends the block inside it. */
  lemma {:induction false} ValueEndsBlock(tools: Tools)
    ensures var value := "\nx" + CALL_END + "y\n";
            var text := OneCallText(value, true);
            && |FunctionsIn(text)| == 1 && OneShotArguments(text, 0, tools) == map[]
            && ArgumentsOf(Run(InitialState, [text], tools).calls, 0) == "{" + Member("a", value, "f", tools) + "}"
  {
    hide Run, FunctionsIn, ArgumentsOf, OneShotArguments, OneCallText, Agree, ComparableDocument, CutCount;
    var value := "\nx" + CALL_END + "y\n";
    var f := OneParam(value, true);
    HidingValue(value);
    OneContent(f);
    OneInner(value, true);
    OpenValue();
    var content := Content(Block("", "", [f]));
    HidingContent(value, content);
    OneCallComparable(value, true);
    assert CutCount(f) == 0 by { HidingIsCut(f, value); }
    ParameterLost(value, true, tools);
  }

  lemma {:induction false} HidingValue(value: string)
    requires value == "\nx" + CALL_END + "y\n"
    ensures ValueFree(value)
  {
    TagShapes();
    forall t | t in {PARAMETER_END, PARAMETER_PREFIX, FUNCTION_END} ensures Free(value, t) {
      NotTheTag(CALL_END + "y\n", t, if t == PARAMETER_PREFIX then 1 else 2);
      FreeConcat("\nx", CALL_END + "y\n", t);
      assert "\nx" + (CALL_END + "y\n") == value;
    }
  }

  /** What stands behind the cut: the rest of the value and the closing tags. */
  lemma {:induction false} HidingContent(value: string, content: string)
    requires value == "\nx" + CALL_END + "y\n"
    requires content == "<function=f>" + ("<parameter=a>" + value + PARAMETER_END) + FUNCTION_END
    ensures Free(Behind(content), CALL_START)
  {
    hide Cut, Behind;
    TagShapes();
    var front := "<function=f>" + ("<parameter=a>" + "\nx");
    var later := "y\n" + PARAMETER_END + FUNCTION_END;
    assert content == front + (CALL_END + later);
    assert "<parameter=a>" + "\nx" == "<parameter=a>\nx";
    NotTheTag("<function=f>", CALL_END, 1);
    NotTheTag("<parameter=a>\nx", CALL_END, 1);
    FreeConcat("<function=f>", "<parameter=a>\nx", CALL_END);
    CutSkip(front, CALL_END + later);
    EndFirst(later);
    assert Behind(content) == later + CALL_END;
    NotTheTag(PARAMETER_END, CALL_START, 1);
    NotTheTag(FUNCTION_END, CALL_START, 1);
    NotTheTag(CALL_END, CALL_START, 1);
    FreeConcat("y\n", PARAMETER_END, CALL_START);
    FreeConcat("y\n" + PARAMETER_END, FUNCTION_END, CALL_START);
    FreeConcat(later, CALL_END, CALL_START);
  }

  lemma {:induction false} EndFirst(later: string)
    ensures Behind(CALL_END + later) == later + CALL_END
  {
    var x := CALL_END + later;
    assert (x + CALL_END)[0..|CALL_END|] == CALL_END;
    assert OccursAt(x + CALL_END, CALL_END, 0);
    CutIs(x, 0);
    assert (x + CALL_END)[|CALL_END|..] == later + CALL_END;
  }

  lemma {:induction false} HidingIsCut(f: Function, value: string)
    requires value == "\nx" + CALL_END + "y\n" && f == OneParam(value, true)
    ensures CutCount(f) == 0
  {
    var head := KeyText("a") + value;
    var n := |KeyText("a")| + 2;
    assert head[n..n + |CALL_END|] == CALL_END;
    assert OccursAt(head, CALL_END, n);
  }

  // ----- A bare function beside a block -----

  /** Beside a block a bare function is not found by the one-shot parser, which
      returns its text as normal text; streaming reports it and shows no text. */
  lemma {:induction false} BareBesideBlock(tools: Tools)
    ensures var bare := "<function=f>" + FUNCTION_END;
            var text := bare + (CALL_START + ("<function=g>" + FUNCTION_END) + CALL_END);
            var o := Run(InitialState, [text], tools);
            && NamesOf(o.calls) == [(0, "f"), (1, "g")] && o.text == ""
            && NamesOf(ParsedCalls(FunctionsIn(text), 0, tools)) == [(0, "g")]
            && NormalText(text) == bare
  {
    hide Run, FunctionsIn, NamesOf, ParsedCalls, CallsOf, NormalText, ComparableDocument, ValidDocument, PrintDocument, SeenInBlocks;
    var f, g := Function("f", "", [], ""), Function("g", "", [], "");
    var d := Document([Bare("", f), Block("", "", [g])], "");
    var bare := "<function=f>" + FUNCTION_END;
    var text := bare + (CALL_START + ("<function=g>" + FUNCTION_END) + CALL_END);
    TwoCallsPrinted(f, g, d);
    TwoCallsComparable(f, g, d);
    assert Concat([text]) == text + "" == text;
    ComparableIsValid(d);
    StreamingInvertsPrinting(d, [text], tools);
    TwoCallsContents(f, g, d);
    CallsReassemble([f, g], 0, 0, tools);
    assert Numbered([f, g], 0) == [(0, "f"), (1, "g")];
    OneShotReads(d);
    ParsedNames(FunctionsIn(text), 0, tools);
    assert FunctionsIn(text)[0].0 == "g";
    BareIsText(bare, text);
  }

  lemma {:induction false} NothingInside(f: Function)
    requires f.gap == "" && f.params == []
    ensures Inner(f) == ""
  {
    hide Print;
    NothingPrinted();
    assert "" + "" == "";
  }

  lemma {:induction false} TwoCallsPrinted(f: Function, g: Function, d: Document)
    requires f == Function("f", "", [], "") && g == Function("g", "", [], "")
    requires d == Document([Bare("", f), Block("", "", [g])], "")
    ensures var bare := "<function=f>" + FUNCTION_END;
            PrintDocument(d) == bare + (CALL_START + ("<function=g>" + FUNCTION_END) + CALL_END)
    ensures Print(FunctionBody(f)) == "<function=f>" + FUNCTION_END
    ensures Content(Block("", "", [g])) == "<function=g>" + FUNCTION_END
  {
    hide Print, FunctionBody, Content, Inner;
    NothingPrinted();
    var b, c := Bare("", f), Block("", "", [g]);
    assert HeaderText("f") == "<function=f>" by { assert "<function=" + "f" + ">" == "<function=f>"; }
    assert HeaderText("g") == "<function=g>" by { assert "<function=" + "g" + ">" == "<function=g>"; }
    NothingInside(f);
    NothingInside(g);
    BareText(b);
    OneContent(g);
    ClosedBlockText(c);
    assert [b, c][1..] == [c] && [c][1..] == [];
    PrintConcat(BlockPieces(b), BlocksPieces([c]));
    assert BlocksPieces([c]) == BlockPieces(c) + [] == BlockPieces(c);
    assert BlocksPieces([b, c]) == BlockPieces(b) + BlocksPieces([c]);
    assert "<function=g>" + "" + FUNCTION_END == "<function=g>" + FUNCTION_END;
  }

  lemma {:induction false} TwoCallsComparable(f: Function, g: Function, d: Document)
    requires f == Function("f", "", [], "") && g == Function("g", "", [], "")
    requires d == Document([Bare("", f), Block("", "", [g])], "")
    requires Print(FunctionBody(f)) == "<function=f>" + FUNCTION_END
    requires Content(Block("", "", [g])) == "<function=g>" + FUNCTION_END
    ensures ComparableDocument(d)
  {
    hide Behind, Content, Cut, FunctionBody, Print;
    EmptyIsFree();
    TagShapes();
    EndFree();
    NotTheTag("<function=f>", CALL_START, 1);
    NotTheTag(FUNCTION_END, CALL_START, 1);
    FreeConcat("<function=f>", FUNCTION_END, CALL_START);
    NotTheTag("<function=g>", CALL_END, 1);
    FreeConcat("<function=g>", FUNCTION_END, CALL_END);
    var content := "<function=g>" + FUNCTION_END;
    CutSkip(content, "") by { SeamIsClean(content, ""); }
    CutNothing();
    assert content + "" == content;
    hide Free;
    assert Readable(f) && Readable(g);
    assert Comparable(d.blocks[0]) && Comparable(d.blocks[1]);
  }

  lemma {:induction false} TwoCallsContents(f: Function, g: Function, d: Document)
    requires f == Function("f", "", [], "") && g == Function("g", "", [], "")
    requires d == Document([Bare("", f), Block("", "", [g])], "")
    ensures AllFunctions(d.blocks) == [f, g] && TextsOf(d.blocks) == ""
    ensures HasBlock(d.blocks) && |SeenInBlocks(d.blocks)| == 1 && SeenInBlocks(d.blocks)[0].0 == g
  {
    assert d.blocks[1].Block?;
    assert d.blocks[1..] == [Block("", "", [g])] && d.blocks[1..][1..] == [];
    assert AllFunctions([]) == [] && TextsOf([]) == "" && SeenInBlocks([]) == [];
    assert AllFunctions(d.blocks[1..]) == [g] + [];
    assert "" + "" == "" && "" + ("" + "") == "";
    assert TextsOf(d.blocks[1..]) == "";
    TagShapes();
    assert HeaderText("g") == "<function=g>" by { assert "<function=" + "g" + ">" == "<function=g>"; }
    NotTheTag("<function=g>", CALL_END, 1);
    assert [g][1..] == [] && SeenIn([]) == [];
    assert SeenInBlocks(d.blocks[1..]) == SeenIn([g]) + [];
    assert SeenInBlocks(d.blocks) == [] + SeenInBlocks(d.blocks[1..]);
  }

  lemma {:induction false} BareIsText(bare: string, text: string)
    requires bare == "<function=f>" + FUNCTION_END
    requires text == bare + (CALL_START + ("<function=g>" + FUNCTION_END) + CALL_END)
    ensures NormalText(text) == bare
  {
    hide Find;
    TagShapes();
    NotTheTag("<function=f>", CALL_START, 1);
    NotTheTag(FUNCTION_END, CALL_START, 1);
    FreeConcat("<function=f>", FUNCTION_END, CALL_START);
    var rest := CALL_START + ("<function=g>" + FUNCTION_END) + CALL_END;
    assert text == "" + (bare + rest);
    FindTagOn(text, "", bare, rest, CALL_START);
    assert text[..|bare|] == bare;
  }
}
