/** Outputs that end inside a tool-call block: both parsers on a text whose last
    `<tool_call>` is never closed, and whose last function may not be either. */
module QwenUnclosed {
  import opened Wrappers
  import opened TextSearch
  import opened QwenScanner
  import opened QwenChunks
  import opened QwenPrinter
  import opened QwenDocument
  import opened QwenCalls
  import opened QwenOneShot
  import opened QwenReading
  import opened QwenCuts
  import opened QwenAgreement

  /** A function without `</function>`: its terminated parameters and, behind them,
      nothing or the beginning of one more parameter. */
  datatype Open = Open(call: Function, stub: string)

  /** Blocks and bare functions, then a block that is never closed. */
  datatype Unclosed = Unclosed(blocks: seq<Block>, before: string, gap: string, functions: seq<Function>, last: Option<Open>)

  ghost predicate ValidOpen(o: Open) {
    && Readable(o.call) && o.call.after == ""
    && (if o.stub == "" then KeptCount(o.call.params) == |o.call.params|
        else DeadEnd(o.stub) && Free(o.stub, FUNCTION_END))
  }

  function OpenText(last: Option<Open>): string {
    match last
    case None => ""
    case Some(o) => HeaderText(o.call.name) + (Inner(o.call) + o.stub)
  }

  /** What stands behind the unclosed `<tool_call>`. */
  function OpenContent(d: Unclosed): string {
    d.gap + (Print(FunctionsPieces(d.functions)) + OpenText(d.last))
  }

  function UnclosedTail(d: Unclosed): string {
    d.before + (CALL_START + OpenContent(d))
  }

  function PrintUnclosed(d: Unclosed): string {
    Print(BlocksPieces(d.blocks)) + UnclosedTail(d)
  }

  ghost predicate ValidUnclosed(d: Unclosed) {
    && ComparableBlocks(d.blocks) && TagFree(d.before) && TagFree(d.gap)
    && ReadableFunctions(d.functions) && (d.last.Some? ==> ValidOpen(d.last.value))
    && Free(OpenContent(d), CALL_END)
  }

  /** All functions, the open one last. */
  function EveryFunction(d: Unclosed): seq<Function> {
    AllFunctions(d.blocks) + d.functions + (if d.last.Some? then [d.last.value.call] else [])
  }

  // ----- The one-shot parser -----

  ghost function OpenSeen(fs: seq<Function>, last: Option<Open>): seq<Seen> {
    Whole(fs) + (if last.Some? then [(last.value.call, |last.value.call.params|)] else [])
  }

  lemma {:induction false} DeadEndStart(e: string)
    requires DeadEnd(e)
    ensures e != "" && e[0] == '<' && PARAMETER_PREFIX <= e
  {
  }

  /** The open function's text: no `</function>`, and exactly its terminated parameters. */
  lemma {:induction false} OpenInner(o: Open)
    requires ValidOpen(o)
    ensures Free(Inner(o.call) + o.stub, FUNCTION_END)
    ensures ParamList(Inner(o.call) + o.stub, 0) == AllPairs(o.call.params)
  {
    hide ParamList, Print, Free, ValidParam, Readable, DeadEnd;
    var f := o.call;
    InnerFree(f);
    FunctionFacts(f);
    GapFree(f.gap, PARAMETER_PREFIX);
    var s, params := Inner(f) + o.stub, Print(ParamPieces(f.params));
    assert s == "" + (f.gap + (params + o.stub));
    if o.stub == "" {
      assert s == Inner(f);
      assert f.params[..|f.params|] == f.params;
    } else {
      DeadEndStart(o.stub);
      TagShapes();
      FreeConcat(Inner(f), o.stub, FUNCTION_END);
    }
    ParamsRead(s, "", f.gap, f.params, o.stub);
  }

  lemma {:induction false} OpenLast(s: string, a: string, g: string, last: Option<Open>)
    requires s == a + (g + OpenText(last)) && Free(g, FUNCTION_PREFIX) && (last.Some? ==> ValidOpen(last.value))
    ensures Reads(FunctionList(s, |a|), OpenSeen([], last))
  {
    hide Inner, Free, Readable, Reads, FunctionList, HeaderText;
    assert Whole([]) == [];
    match last
    case None =>
      assert g + "" == g;
      NoFunctionOn(s, a, g);
      NothingRead();
      assert OpenSeen([], last) == [];
    case Some(o) =>
      OpenInner(o);
      FunctionFacts(o.call);
      OpenFunctionOn(s, a, g, o.call.name, Inner(o.call) + o.stub);
      var n := |o.call.params|;
      assert o.call.params[..n] == o.call.params;
      ReadsOne(o.call.name, Inner(o.call) + o.stub, o.call, n);
      assert OpenSeen([], last) == [(o.call, n)];
  }

  /** Functions in front of the open end are read whole. */
  lemma {:induction false} OpenFunctionsRead(s: string, a: string, g: string, fs: seq<Function>, last: Option<Open>)
    requires s == a + (g + (Print(FunctionsPieces(fs)) + OpenText(last))) && Free(g, FUNCTION_PREFIX)
    requires ReadableFunctions(fs) && (last.Some? ==> ValidOpen(last.value))
    ensures Reads(FunctionList(s, |a|), OpenSeen(fs, last))
    decreases |fs|
  {
    hide NextFunction, Print, Free, TagFree, Readable, Inner, OpenText, HeaderText, Reads, KeptCount, ValidOpen, OpenSeen;
    if fs == [] {
      NothingPrinted();
      assert "" + OpenText(last) == OpenText(last);
      OpenLast(s, a, g, last);
    } else {
      var f, later := fs[0], Print(FunctionsPieces(fs[1..])) + OpenText(last);
      assert Readable(f);
      assert ReadableFunctions(fs[1..]) by { assert forall i | 0 <= i < |fs| - 1 :: fs[1..][i] == fs[i + 1]; }
      FunctionsText(fs);
      FunctionFacts(f);
      InnerFree(f);
      assert s == a + (g + (HeaderText(f.name) + (Inner(f) + (FUNCTION_END + (f.after + later)))));
      NextFunctionOn(s, a, g, f.name, Inner(f), f.after + later);
      var next := NextFunction(s, |a|).value.next;
      assert s == s[..next] + (f.after + later);
      GapFree(f.after, FUNCTION_PREFIX);
      OpenFunctionsRead(s, s[..next], f.after, fs[1..], last);
      WholeInner(f);
      ReadsOne(f.name, Inner(f), f, KeptCount(f.params));
      ReadsConcat([(f.name, Inner(f))], [(f, KeptCount(f.params))], FunctionList(s, next), OpenSeen(fs[1..], last));
      SeenCons(fs, last);
    }
  }

  lemma {:induction false} SeenCons(fs: seq<Function>, last: Option<Open>)
    requires fs != []
    ensures OpenSeen(fs, last) == [(fs[0], KeptCount(fs[0].params))] + OpenSeen(fs[1..], last)
  {
    hide KeptCount;
  }

  lemma {:induction false} LeadFree(d: Unclosed)
    requires TagFree(d.before) && TagFree(d.gap)
    ensures Free(d.before + CALL_START + d.gap, FUNCTION_PREFIX)
  {
    hide Free, TagFree;
    TagShapes();
    GapFree(d.before, FUNCTION_PREFIX);
    GapFree(d.gap, FUNCTION_PREFIX);
    assert CALL_START[1] == 't' && FUNCTION_PREFIX[1] == 'f';
    SingleAngleFree(CALL_START, FUNCTION_PREFIX);
    FreeConcat(d.before, CALL_START, FUNCTION_PREFIX);
    FreeConcat(d.before + CALL_START, d.gap, FUNCTION_PREFIX);
  }

  lemma {:induction false} UnclosedTailReads(d: Unclosed)
    requires ValidUnclosed(d)
    ensures TailReads(UnclosedTail(d), OpenSeen(d.functions, d.last)) && OpensNoBlock(UnclosedTail(d))
  {
    hide Free, TagFree, Readable, Reads, FunctionList, Print, OpenText, OpenSeen, ValidOpen, ComparableBlocks;
    LeadFree(d);
    GapFree(d.before, CALL_START);
    var tail, g := UnclosedTail(d), d.before + CALL_START + d.gap;
    assert OpensUnclosed(tail, d.before, OpenContent(d));
    forall a: string ensures Reads(FunctionList(a + tail, |a|), OpenSeen(d.functions, d.last)) {
      assert a + tail == a + (g + (Print(FunctionsPieces(d.functions)) + OpenText(d.last)));
      OpenFunctionsRead(a + tail, a, g, d.functions, d.last);
    }
  }

  /** What the one-shot parser finds: with a closed block only what the closed blocks
      hold, and otherwise every function, the open one with its terminated parameters. */
  ghost function UnclosedSeen(d: Unclosed): seq<Seen> {
    if HasBlock(d.blocks) then SeenInBlocks(d.blocks)
    else Whole(AllFunctions(d.blocks)) + OpenSeen(d.functions, d.last)
  }

  lemma {:induction false} UnclosedReads(d: Unclosed)
    requires ValidUnclosed(d)
    ensures Reads(FunctionsIn(PrintUnclosed(d)), UnclosedSeen(d))
  {
    hide Print, UnclosedTail, OpenSeen, FunctionList, Reads, FunctionsIn, BlockList, Cuts, SeenInBlocks, HasBlock, ComparableBlocks, Free,
         TailReads, OpensNoBlock, TagFree;
    var s, printed, tail := PrintUnclosed(d), Print(BlocksPieces(d.blocks)), UnclosedTail(d);
    UnclosedTailReads(d);
    EmptyIsFree();
    GapFree("", CALL_START);
    assert s == "" + ("" + (printed + tail)) == "" + (printed + tail);
    BlocksRead(s, "", "", d.blocks, tail);
    CutsNothing(d.blocks);
    if HasBlock(d.blocks) {
      CutsRead(d.blocks);
      BlocksFound(s);
    } else {
      BaresRead(s, "", d.blocks, tail, OpenSeen(d.functions, d.last));
      WholeText(s);
    }
  }

  lemma {:induction false} BlocksFound(s: string)
    requires BlockList(s, 0) != []
    ensures FunctionsIn(s) == FunctionsOf(BlockList(s, 0))
  {
    hide BlockList, FunctionsOf;
  }

  /** The unclosed block's lead is the normal text when nothing stands before it. */
  lemma {:induction false} UnclosedText(d: Unclosed)
    requires ValidUnclosed(d) && d.blocks == []
    ensures NormalText(PrintUnclosed(d)) == d.before
  {
    hide Print, OpenContent, Free, Find, TagFree;
    TagShapes();
    NothingPrinted();
    GapFree(d.before, CALL_START);
    var s := PrintUnclosed(d);
    assert s == "" + (d.before + (CALL_START + OpenContent(d)));
    FindTagOn(s, "", d.before, CALL_START + OpenContent(d), CALL_START);
    assert s[..|d.before|] == d.before;
  }

  // ----- Streaming -----

  function OpenPieces(last: Option<Open>): seq<Piece> {
    match last
    case None => []
    case Some(o) => [Header(o.call.name), Text(o.call.gap)] + ParamPieces(o.call.params)
  }

  function EndPieces(d: Unclosed): seq<Piece> {
    [Text(d.before), CallStart] + ([Text(d.gap)] + (FunctionsPieces(d.functions) + OpenPieces(d.last)))
  }

  /** The announcement of the open function and its members so far; no closing brace. */
  function OpenCalls(last: Option<Open>, id: int, tools: Tools): seq<Call> {
    match last
    case None => []
    case Some(o) =>
      [Call(id, Some(o.call.name), "")]
      + (if o.call.params == [] then [] else [Call(id, None, "{")] + MemberCalls(o.call.params, o.call.name, 0, id, tools))
  }

  lemma {:induction false} ReadOpen(last: Option<Open>, m: Mode, tools: Tools)
    requires m.inside
    ensures var o := ReadAll(OpenPieces(last), m, tools);
            o.text == "" && o.mode.inside && o.calls == OpenCalls(last, m.toolId + 1, tools)
  {
    hide ReadAll, ParamPieces, MemberCalls;
    match last
    case None => ReadNothing(m, tools);
    case Some(o) =>
      var f := o.call;
      ReadHeader(f, m, tools);
      var m1 := Mode(m.toolId + 1, true, 0, false, m.inside, Some(f.name));
      ReadConcat([Header(f.name), Text(f.gap)], ParamPieces(f.params), m, tools);
      if f.params == [] {
        NoMembers(f.name, m1.toolId, tools);
        ReadNothing(m1, tools);
      } else {
        ReadParams(f.params, m1, f.name, tools);
      }
  }

  lemma {:induction false} ReadUnclosed(d: Unclosed, m: Mode, tools: Tools)
    requires !m.inside
    ensures var o := ReadAll(EndPieces(d), m, tools);
            && o.text == d.before && o.mode.inside
            && o.calls == CallsOf(d.functions, m.toolId + 1, tools) + OpenCalls(d.last, m.toolId + 1 + |d.functions|, tools)
  {
    hide ReadAll, FunctionsPieces, OpenPieces, CallsOf, OpenCalls;
    var fs, open := FunctionsPieces(d.functions), OpenPieces(d.last);
    ReadConcat([Text(d.before), CallStart], [Text(d.gap)] + (fs + open), m, tools);
    ReadTwo(Text(d.before), CallStart, m, tools);
    var m1 := m.(inside := true);
    ReadConcat([Text(d.gap)], fs + open, m1, tools);
    ReadAfter(d.gap, m1, tools);
    ReadConcat(fs, open, m1, tools);
    ReadFunctions(d.functions, m1, tools);
    ReadOpen(d.last, ReadAll(fs, m1, tools).mode, tools);
    assert CallsOf(d.functions, m.toolId + 1, tools) + [] == CallsOf(d.functions, m.toolId + 1, tools);
  }

  /** Text, a start tag, text and functions in front of a tag. */
  lemma {:induction false} StartFits(d: Unclosed, fs: seq<Function>, tail: string)
    requires TagFree(d.before) && TagFree(d.gap) && (forall i | 0 <= i < |fs| :: ValidFunction(fs[i]))
    requires tail != "" && tail[0] == '<'
    ensures WellFormed([Text(d.before), CallStart] + ([Text(d.gap)] + FunctionsPieces(fs)), tail)
  {
    hide Print, WellFormed, FunctionsPieces, TagFree, ValidFunction;
    var pieces := FunctionsPieces(fs);
    FunctionsFit(fs, tail);
    OnePiece(Text(d.gap), Print(pieces) + tail);
    WellFormedConcat([Text(d.gap)], pieces, tail);
    TwoPieces(Text(d.before), CallStart, Print([Text(d.gap)] + pieces) + tail);
    WellFormedConcat([Text(d.before), CallStart], [Text(d.gap)] + pieces, tail);
  }

  /** Parameters of which the last one is closed, up to the text behind it. */
  lemma {:induction false} ClosedParamsFit(ps: seq<Param>) returns (front: seq<Piece>)
    requires ps != [] && ps[|ps| - 1].closed && forall i | 0 <= i < |ps| :: ValidParam(ps[i])
    ensures ParamPieces(ps) == front + [Text(ps[|ps| - 1].gap)]
    ensures WellFormed(front, ps[|ps| - 1].gap) && PARAMETER_PREFIX <= Print(front)
    decreases |ps|
  {
    hide Print, WellFormed, ValidParam;
    var p := ps[0];
    assert ValidParam(p);
    if |ps| == 1 {
      var param := Parameter(p.key, p.raw, true);
      front := [param];
      assert ps[1..] == [];
      OnePiece(param, p.gap);
      ParamIsValid(p);
    } else {
      assert ps[1..][|ps| - 2] == ps[|ps| - 1];
      var later := ClosedParamsFit(ps[1..]);
      var gap := ps[|ps| - 1].gap;
      FrontFits(p, Print(later) + gap);
      WellFormedConcat(ParamFront(p), later, gap);
      PrintConcat(ParamFront(p), later);
      front := ParamFront(p) + later;
      assert ParamFront(p) + (later + [Text(gap)]) == front + [Text(gap)];
    }
  }

  /** The open function up to the last text or the unfinished parameter. */
  lemma {:induction false} OpenFits(o: Open) returns (front: seq<Piece>, t: string)
    requires ValidOpen(o)
    ensures WellFormed(front, t) && FUNCTION_PREFIX <= Print(front)
    ensures if o.stub == "" then OpenPieces(Some(o)) == front + [Text(t)] && TagFree(t)
            else OpenPieces(Some(o)) == front && t == o.stub
  {
    hide Print, WellFormed, ParamPieces, TagFree, ValidParam, DeadEnd, Free;
    var f := o.call;
    FunctionFacts(f);
    var header := [Header(f.name), Text(f.gap)];
    if o.stub != "" {
      DeadEndStart(o.stub);
      ParamsFit(f.params, o.stub);
      front, t := header + ParamPieces(f.params), o.stub;
      TwoPieces(Header(f.name), Text(f.gap), Print(ParamPieces(f.params)) + t);
      WellFormedConcat(header, ParamPieces(f.params), t);
      PrintConcat(header, ParamPieces(f.params));
    } else if f.params == [] {
      NothingPrinted();
      front, t := [Header(f.name)], f.gap;
      OnePiece(Header(f.name), t);
      assert header + [] == front + [Text(t)];
    } else {
      var n := |f.params| - 1;
      assert ValidParam(f.params[n]);
      var params := ClosedParamsFit(f.params);
      t := f.params[n].gap;
      GapIsText(f.params[n]);
      front := header + params;
      TwoPieces(Header(f.name), Text(f.gap), Print(params) + t);
      WellFormedConcat(header, params, t);
      PrintConcat(header, params);
      assert header + (params + [Text(t)]) == front + [Text(t)];
    }
  }

  lemma {:induction false} GapIsText(p: Param)
    requires ValidParam(p)
    ensures TagFree(p.gap)
  {
  }

  /** Functions without an open one, up to the last text. */
  lemma {:induction false} FunctionsEnd(d: Unclosed) returns (front: seq<Piece>, t: string)
    requires TagFree(d.before) && TagFree(d.gap) && ReadableFunctions(d.functions) && d.last.None?
    ensures EndPieces(d) == front + [Text(t)] && TagFree(t) && WellFormed(front, t)
  {
    hide Print, WellFormed, TagFree, Readable, FunctionBody;
    var start, fs := [Text(d.before), CallStart], d.functions;
    if fs == [] {
      front, t := start, d.gap;
      TwoPieces(Text(d.before), CallStart, t);
      assert FunctionsPieces(fs) + [] == [];
      assert start + ([Text(d.gap)] + []) == front + [Text(t)];
    } else {
      var n := |fs| - 1;
      var f := fs[n];
      assert Readable(f);
      ReadableIsValid(f);
      t := f.after;
      BodyFits(f, t);
      assert Print(FunctionBody(f))[0] == '<';
      forall i | 0 <= i < n ensures ValidFunction(fs[..n][i]) {
        assert Readable(fs[i]);
        ReadableIsValid(fs[i]);
      }
      StartFits(d, fs[..n], Print(FunctionBody(f)) + t);
      var first := start + ([Text(d.gap)] + FunctionsPieces(fs[..n]));
      front := first + FunctionBody(f);
      WellFormedConcat(first, FunctionBody(f), t);
      FunctionsSplit(fs);
      assert EndPieces(d) == start + ([Text(d.gap)] + ((FunctionsPieces(fs[..n]) + (FunctionBody(f) + [Text(t)])) + []));
    }
  }

  lemma {:induction false} ReadableIsValid(f: Function)
    requires Readable(f)
    ensures ValidFunction(f) && TagFree(f.after)
  {
  }

  lemma {:induction false} FunctionsSplit(fs: seq<Function>)
    requires fs != []
    ensures var n := |fs| - 1; FunctionsPieces(fs) == FunctionsPieces(fs[..n]) + (FunctionBody(fs[n]) + [Text(fs[n].after)])
    decreases |fs|
  {
    hide FunctionBody;
    var n := |fs| - 1;
    if n == 0 {
      assert fs[1..] == [] && fs[..0] == [];
      assert FunctionPieces(fs[0]) + [] == [] + FunctionPieces(fs[0]);
    } else {
      FunctionsSplit(fs[1..]);
      assert fs[1..][..n - 1] == fs[..n][1..] && fs[1..][n - 1] == fs[n];
      var last := FunctionBody(fs[n]) + [Text(fs[n].after)];
      assert FunctionPieces(fs[0]) + (FunctionsPieces(fs[..n][1..]) + last) == (FunctionPieces(fs[0]) + FunctionsPieces(fs[..n][1..])) + last;
    }
  }

  /** All pieces of the unclosed block up to the last text or unfinished parameter. */
  lemma {:induction false} EndFits(d: Unclosed) returns (front: seq<Piece>, t: string)
    requires ValidUnclosed(d)
    ensures WellFormed(front, t)
    ensures (EndPieces(d) == front + [Text(t)] && TagFree(t) && StubOf(d) == "") || (EndPieces(d) == front && DeadEnd(t) && t == StubOf(d))
  {
    hide Print, WellFormed, TagFree, Readable, FunctionsPieces, OpenPieces, DeadEnd, Free, ComparableBlocks;
    match d.last
    case None => front, t := FunctionsEnd(d);
    case Some(o) =>
      var open, t' := OpenFits(o);
      t := t';
      assert Print(open)[0] == '<';
      forall i | 0 <= i < |d.functions| ensures ValidFunction(d.functions[i]) {
        assert Readable(d.functions[i]);
        ReadableIsValid(d.functions[i]);
      }
      StartFits(d, d.functions, Print(open) + t);
      var first := [Text(d.before), CallStart] + ([Text(d.gap)] + FunctionsPieces(d.functions));
      front := first + open;
      WellFormedConcat(first, open, t);
      assert first + OpenPieces(d.last) == EndPieces(d);
      assert o.stub == "" ==> first + (open + [Text(t)]) == front + [Text(t)];
  }

  function StubOf(d: Unclosed): string {
    if d.last.Some? then d.last.value.stub else ""
  }

  lemma {:induction false} PrintEnd(d: Unclosed)
    ensures Print(EndPieces(d)) + StubOf(d) == UnclosedTail(d)
  {
    hide Print, FunctionsPieces, Inner, ParamPieces;
    var fs, open := FunctionsPieces(d.functions), OpenPieces(d.last);
    TwoPieces(Text(d.before), CallStart, "");
    OnePiece(Text(d.gap), "");
    TextPiece(d.gap);
    PrintConcat([Text(d.before), CallStart], [Text(d.gap)] + (fs + open));
    PrintConcat([Text(d.gap)], fs + open);
    PrintConcat(fs, open);
    assert Print(open) + StubOf(d) == OpenText(d.last) by { PrintOpen(d.last); }
    var x, y := Print(fs), Print(open);
    assert (d.before + CALL_START) + (d.gap + (x + y)) + StubOf(d) == d.before + (CALL_START + (d.gap + (x + (y + StubOf(d)))));
  }

  lemma {:induction false} PrintOpen(last: Option<Open>)
    ensures Print(OpenPieces(last)) + (if last.Some? then last.value.stub else "") == OpenText(last)
  {
    hide Print, ParamPieces;
    match last
    case None => NothingPrinted();
    case Some(o) =>
      var f := o.call;
      TwoPieces(Header(f.name), Text(f.gap), "");
      PrintConcat([Header(f.name), Text(f.gap)], ParamPieces(f.params));
      var p := Print(ParamPieces(f.params));
      assert (HeaderText(f.name) + f.gap) + p + o.stub == HeaderText(f.name) + ((f.gap + p) + o.stub);
  }

  /** Text inside a block and unfinished parameters show nothing and call nothing. */
  lemma {:induction false} TextInside(s: string, m: Mode, tools: Tools)
    requires TagFree(s) && m.inside
    ensures var o := Scan(s, m, tools); o.text == "" && o.calls == [] && o.mode == m
    decreases |s|
  {
    hide Next, TagFree, Scan;
    ScanUnfold(s, m, tools);
    TagFreeInside(s, m, tools);
    match Next(s, m, tools)
    case Hold =>
    case Take(n, m', t, c) =>
      TagFreeSlice(s, n, |s|);
      assert s[n..|s|] == s[n..];
      TextInside(s[n..], m', tools);
      assert "" + "" == "";
  }

  lemma {:induction false} TagFreeInside(s: string, m: Mode, tools: Tools)
    requires TagFree(s) && m.inside
    ensures match Next(s, m, tools) case Hold => true case Take(_, m', t, c) => m' == m && t == "" && c == []
  {
    if s != "" {
      TagFreeHead(s);
      FindChar(s, '<');
    }
  }

  lemma {:induction false} DeadEndHolds(e: string, m: Mode, tools: Tools)
    requires DeadEnd(e)
    ensures Scan(e, m, tools) == Outcome(e, m, "", [])
  {
    hide Next, Scan, DeadEnd, Find;
    DeadEndStart(e);
    NextIsParameter(e, m, tools);
    DeadEndStep(e, m, tools);
    ScanUnfold(e, m, tools);
  }

  lemma {:induction false} DeadEndStep(e: string, m: Mode, tools: Tools)
    requires DeadEnd(e) && PARAMETER_PREFIX <= e
    ensures ParameterStep(e, m, tools) == Hold
  {
    FindChar(e, '>');
    if '>' in e {
      var key, raw :| OpenParameter(e, key, raw);
      hide Find;
      HeldValue(e, key, raw);
    }
  }

  lemma {:induction false} HeldValue(e: string, key: string, raw: string)
    requires OpenParameter(e, key, raw)
    ensures Find(e, ">", 0) == Some(|PARAMETER_PREFIX| + |key|) && e[|PARAMETER_PREFIX| + |key| + 1..] == raw
    ensures FindValueEnd(raw) == None
  {
    ParameterLayout(e, key, raw, "") by { assert e + "" == e; }
    assert raw + "" == raw;
    QwenReading.NoValueEnd(raw);
  }

  /** Dropping a last text changes no call and no mode. */
  lemma {:induction false} DropText(front: seq<Piece>, t: string, m: Mode, tools: Tools)
    ensures var o, o' := ReadAll(front, m, tools), ReadAll(front + [Text(t)], m, tools);
            o'.calls == o.calls && o'.mode == o.mode && o'.text == o.text + Visible(o.mode, t)
  {
    hide ReadAll;
    ReadConcat(front, [Text(t)], m, tools);
    var o := ReadAll(front, m, tools);
    ReadAfter(t, o.mode, tools);
    assert o.calls + [] == o.calls;
  }

  /** Under every chunking an output that ends inside a block yields the calls of all
      its functions; the open one has its members so far and no closing brace. */
  lemma {:induction false} StreamingUnclosed(d: Unclosed, chunks: seq<string>, tools: Tools)
    requires ValidUnclosed(d) && Concat(chunks) == PrintUnclosed(d)
    ensures var o, fs := Run(InitialState, chunks, tools), AllFunctions(d.blocks) + d.functions;
            && o.calls == CallsOf(fs, 0, tools) + OpenCalls(d.last, |fs|, tools)
            && o.text == TextsOf(d.blocks) + d.before && o.mode.inside
  {
    hide Scan, Print, ReadAll, Run, Concat, BlocksPieces, EndPieces, TagFree, AllFunctions, TextsOf, CallsOf, OpenCalls, WellFormed,
         ValidUnclosed, PrintUnclosed, DeadEnd, StubOf, ValidBlocks;
    ChunkInvariance(InitialState, chunks, tools);
    var bs, m0 := BlocksPieces(d.blocks), InitialMode;
    ReadBlocks(d.blocks, m0, tools);
    var m1 := ReadAll(bs, m0, tools).mode;
    ReadUnclosed(d, m1, tools);
    var front, t := EndFits(d);
    UnclosedParts(d);
    BlocksFit(d.blocks, Print(front) + t);
    WellFormedConcat(bs, front, t);
    FrontPrints(d, front, t);
    PrintConcat(bs, front);
    var text := Print(bs) + (Print(front) + t);
    assert text == Print(bs + front) + t;
    assert InitialState.buffer + Concat(chunks) == text;
    ScanPieces(bs + front, t, m0, tools);
    ReadConcat(bs, front, m0, tools);
    var r := ReadAll(front, m1, tools);
    LastPart(d, front, t, m1, tools);
    CallsConcat(AllFunctions(d.blocks), d.functions, 0, tools);
    var a, b, c := CallsOf(AllFunctions(d.blocks), 0, tools), CallsOf(d.functions, |AllFunctions(d.blocks)|, tools),
                   OpenCalls(d.last, |AllFunctions(d.blocks)| + |d.functions|, tools);
    assert a + (b + c) == (a + b) + c;
    assert a + (b + c) + [] == a + (b + c) && TextsOf(d.blocks) + d.before + "" == TextsOf(d.blocks) + d.before;
  }

  lemma {:induction false} UnclosedParts(d: Unclosed)
    requires ValidUnclosed(d)
    ensures ValidBlocks(d.blocks)
  {
    hide ValidBlock;
    assert forall i | 0 <= i < |d.blocks| :: Comparable(d.blocks[i]);
  }

  lemma {:induction false} FrontPrints(d: Unclosed, front: seq<Piece>, t: string)
    requires (EndPieces(d) == front + [Text(t)] && StubOf(d) == "") || (EndPieces(d) == front && t == StubOf(d))
    ensures PrintUnclosed(d) == Print(BlocksPieces(d.blocks)) + (Print(front) + t)
  {
    hide Print, EndPieces, UnclosedTail;
    PrintEnd(d);
    if EndPieces(d) == front + [Text(t)] && StubOf(d) == "" {
      PrintConcat(front, [Text(t)]);
      OnePiece(Text(t), "");
      TextPiece(t);
    }
  }

  lemma {:induction false} LastPart(d: Unclosed, front: seq<Piece>, t: string, m: Mode, tools: Tools)
    requires (EndPieces(d) == front + [Text(t)] && TagFree(t)) || (EndPieces(d) == front && DeadEnd(t))
    requires ReadAll(EndPieces(d), m, tools).mode.inside
    ensures var r, o := ReadAll(front, m, tools), ReadAll(EndPieces(d), m, tools);
            && r.calls == o.calls && r.text == o.text && r.mode == o.mode
            && var e := Scan(t, r.mode, tools); e.text == "" && e.calls == [] && e.mode.inside
  {
    hide ReadAll, EndPieces, TagFree, DeadEnd, Scan;
    var r := ReadAll(front, m, tools);
    if EndPieces(d) == front + [Text(t)] && TagFree(t) {
      DropText(front, t, m, tools);
      TextInside(t, r.mode, tools);
      assert r.text + "" == r.text;
    } else {
      DeadEndHolds(t, r.mode, tools);
    }
  }

  // ----- Both parsers -----

  lemma {:induction false} OpenReassemble(last: Option<Open>, id: int, i: int, tools: Tools)
    ensures NamesOf(OpenCalls(last, id, tools)) == if last.Some? then [(id, last.value.call.name)] else []
    ensures ArgumentsOf(OpenCalls(last, id, tools), i) ==
            if i != id || last.None? || last.value.call.params == [] then ""
            else "{" + JoinMembers(last.value.call.params, last.value.call.name, tools)
  {
    hide MemberCalls, NamesOf, ArgumentsOf, JoinMembers;
    match last
    case None => NothingCalled(i);
    case Some(o) =>
      var f := o.call;
      var header := [Call(id, Some(f.name), "")];
      var members := if f.params == [] then [] else [Call(id, None, "{")] + MemberCalls(f.params, f.name, 0, id, tools);
      OneCall(header[0], i);
      OpenMembers(f, id, i, tools);
      NamesConcat(header, members);
      ArgumentsConcat(header, members, i);
      assert [(id, f.name)] + [] == [(id, f.name)] && header + [] == header;
  }

  lemma {:induction false} OpenMembers(f: Function, id: int, i: int, tools: Tools)
    ensures var members := if f.params == [] then [] else [Call(id, None, "{")] + MemberCalls(f.params, f.name, 0, id, tools);
            && NamesOf(members) == []
            && ArgumentsOf(members, i) == if i != id || f.params == [] then "" else "{" + JoinMembers(f.params, f.name, tools)
  {
    hide MemberCalls, NamesOf, ArgumentsOf, JoinMembers;
    if f.params == [] {
      NothingCalled(i);
    } else {
      var open, members := [Call(id, None, "{")], MemberCalls(f.params, f.name, 0, id, tools);
      OneCall(open[0], i);
      MemberArguments(f.params, f.name, 0, id, i, tools);
      NamesConcat(open, members);
      ArgumentsConcat(open, members, i);
    }
  }

  /** Every function is announced; closed ones have their whole object, the open one
      what has been terminated of it. */
  lemma {:induction false} UnclosedReassemble(d: Unclosed, chunks: seq<string>, i: int, tools: Tools)
    requires ValidUnclosed(d) && Concat(chunks) == PrintUnclosed(d)
    ensures var o, fs := Run(InitialState, chunks, tools), AllFunctions(d.blocks) + d.functions;
            && NamesOf(o.calls) == Numbered(EveryFunction(d), 0)
            && ArgumentsOf(o.calls, i) ==
               if 0 <= i < |fs| then ObjectText(fs[i], tools)
               else if i == |fs| && d.last.Some? && d.last.value.call.params != [] then
                 "{" + JoinMembers(d.last.value.call.params, d.last.value.call.name, tools)
               else ""
  {
    hide Run, CallsOf, OpenCalls, ValidUnclosed, PrintUnclosed, ObjectText, NamesOf, ArgumentsOf, AllFunctions, JoinMembers, Concat, TextsOf;
    var fs := AllFunctions(d.blocks) + d.functions;
    StreamingUnclosed(d, chunks, tools);
    CallsReassemble(fs, 0, i, tools);
    OpenReassemble(d.last, |fs|, i, tools);
    NamesConcat(CallsOf(fs, 0, tools), OpenCalls(d.last, |fs|, tools));
    ArgumentsConcat(CallsOf(fs, 0, tools), OpenCalls(d.last, |fs|, tools), i);
    NumberedMore(fs, if d.last.Some? then [d.last.value.call] else []);
  }

  lemma {:induction false} NumberedMore(fs: seq<Function>, gs: seq<Function>)
    ensures Numbered(fs + gs, 0) == Numbered(fs, 0) + Numbered(gs, |fs|)
    ensures gs == [] ==> Numbered(gs, |fs|) == []
    ensures |gs| == 1 ==> Numbered(gs, |fs|) == [(|fs|, gs[0].name)]
  {
  }

  lemma {:induction false} OpenSeenIs(fs: seq<Function>, d: Unclosed)
    requires d.last.Some? ==> ValidOpen(d.last.value)
    ensures var seen := Whole(fs) + OpenSeen(d.functions, d.last);
            var all := fs + d.functions + (if d.last.Some? then [d.last.value.call] else []);
            && |seen| == |all|
            && forall i | 0 <= i < |all| ::
                 seen[i].0 == all[i] && (seen[i].1 == KeptCount(all[i].params) || (i == |all| - 1 && d.last.Some? && seen[i].1 == |all[i].params|))
  {
    hide KeptCount, ValidOpen;
    WholeIs(fs);
    WholeIs(d.functions);
  }

  /** No block is closed: the one-shot parser finds every function, numbered from 0,
      with the arguments of its terminated parameters, and its text is the lead. */
  lemma {:induction false} FallbackFindsAll(d: Unclosed, i: nat, tools: Tools)
    requires ValidUnclosed(d) && !HasBlock(d.blocks) && i < |EveryFunction(d)|
    ensures NamesOf(ParsedCalls(FunctionsIn(PrintUnclosed(d)), 0, tools)) == Numbered(EveryFunction(d), 0)
    ensures i < |FunctionsIn(PrintUnclosed(d))|
    ensures var f := EveryFunction(d)[i];
            var n := if d.last.Some? && i == |EveryFunction(d)| - 1 then |f.params| else KeptCount(f.params);
            OneShotArguments(PrintUnclosed(d), i, tools) == ArgumentMap(AllPairs(f.params[..n]), f.name, tools)
    ensures d.blocks == [] ==> NormalText(PrintUnclosed(d)) == d.before
  {
    hide PrintUnclosed, FunctionsIn, ParamList, AllPairs, NamesOf, ParsedCalls, KeptCount, ArgumentMap, NormalText, AllFunctions, HasBlock,
         ComparableBlocks, TagFree, Free, ReadableFunctions;
    var found, all := FunctionsIn(PrintUnclosed(d)), EveryFunction(d);
    UnclosedReads(d);
    OpenSeenIs(AllFunctions(d.blocks), d);
    ParsedNames(found, 0, tools);
    assert |found| == |all| && forall k | 0 <= k < |all| :: found[k].0 == all[k].name;
    assert NamesOf(ParsedCalls(found, 0, tools)) == Numbered(all, 0);
    LastIsWhole(d);
    if d.blocks == [] { UnclosedText(d); }
  }

  lemma {:induction false} LastIsWhole(d: Unclosed)
    requires d.last.Some? ==> ValidOpen(d.last.value)
    ensures d.last.Some? ==> var seen := OpenSeen(d.functions, d.last); seen != [] && seen[|seen| - 1].1 == |d.last.value.call.params|
  {
  }

  /** Same announced calls exactly when no block is closed, or nothing is announced
      behind the closed ones and they agree. */
  lemma {:induction false} UnclosedAgreement(d: Unclosed, chunks: seq<string>, tools: Tools)
    requires ValidUnclosed(d) && Concat(chunks) == PrintUnclosed(d)
    ensures NamesOf(ParsedCalls(FunctionsIn(PrintUnclosed(d)), 0, tools)) == NamesOf(Run(InitialState, chunks, tools).calls) <==>
            !HasBlock(d.blocks) || (d.functions == [] && d.last.None? && SameCalls(Document(d.blocks, "")))
  {
    hide PrintUnclosed, FunctionsIn, ParamList, AllPairs, NamesOf, ParsedCalls, Run, AllFunctions, HasBlock, HasBare, CutsInLast, SeenInBlocks,
         ValidUnclosed, CutCount, ArgumentMap, NormalText, Concat, ArgumentsOf, JoinMembers, ObjectText, KeptCount;
    UnclosedReassemble(d, chunks, 0, tools);
    var found, all := FunctionsIn(PrintUnclosed(d)), EveryFunction(d);
    UnclosedReads(d);
    ParsedNames(found, 0, tools);
    if HasBlock(d.blocks) {
      BlocksCount(d.blocks);
      SameNames(d, found, tools);
    } else {
      OpensAll(d, found, tools);
    }
  }

  lemma {:induction false} OpensAll(d: Unclosed, found: seq<(string, string)>, tools: Tools)
    requires ValidUnclosed(d) && Reads(found, Whole(AllFunctions(d.blocks)) + OpenSeen(d.functions, d.last))
    ensures seq(|found|, k requires 0 <= k < |found| => (0 + k, found[k].0)) == Numbered(EveryFunction(d), 0)
  {
    hide AllFunctions, KeptCount, ParamList, AllPairs, ComparableBlocks, TagFree, Free, ReadableFunctions;
    OpenSeenIs(AllFunctions(d.blocks), d);
  }

  lemma {:induction false} SameNames(d: Unclosed, found: seq<(string, string)>, tools: Tools)
    requires Reads(found, SeenInBlocks(d.blocks))
    requires |SeenInBlocks(d.blocks)| <= |AllFunctions(d.blocks)|
    requires |SeenInBlocks(d.blocks)| == |AllFunctions(d.blocks)| <==> !HasBare(d.blocks) && CutsInLast(d.blocks)
    requires !HasBare(d.blocks) && CutsInLast(d.blocks) ==> AllSeen(SeenInBlocks(d.blocks), AllFunctions(d.blocks))
    ensures seq(|found|, k requires 0 <= k < |found| => (0 + k, found[k].0)) == Numbered(EveryFunction(d), 0) <==>
            d.functions == [] && d.last.None? && !HasBare(d.blocks) && CutsInLast(d.blocks)
  {
    hide SeenInBlocks, AllFunctions, HasBare, CutsInLast, ParamList, AllPairs, CutCount;
    var all := EveryFunction(d);
    assert |Numbered(all, 0)| == |all|;
    assert |all| == |AllFunctions(d.blocks)| + |d.functions| + (if d.last.Some? then 1 else 0);
    if d.functions == [] && d.last.None? && !HasBare(d.blocks) && CutsInLast(d.blocks) {
      assert all == AllFunctions(d.blocks);
      assert forall k | 0 <= k < |all| :: found[k].0 == SeenInBlocks(d.blocks)[k].0.name == all[k].name;
    }
  }
}
