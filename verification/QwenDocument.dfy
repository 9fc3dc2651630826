/** Model outputs as documents: texts, tool-call blocks of closed functions, and
    bare functions outside a block.  Streaming a printed document, in any chunks, yields exactly its calls. */
module QwenDocument {
  import opened Wrappers
  import opened TextSearch
  import opened QwenScanner
  import opened QwenChunks
  import opened QwenPrinter

  /** A parameter with its unstripped value; an open one is ended by what follows it. */
  datatype Param = Param(key: string, raw: string, closed: bool, gap: string)

  /** `after` is the text between `</function>` and the next tag. */
  datatype Function = Function(name: string, gap: string, params: seq<Param>, after: string)

  /** A tool-call block, or one function outside any block; the text behind a bare
      function belongs to what follows it. */
  datatype Block =
    | Block(before: string, gap: string, functions: seq<Function>)
    | Bare(before: string, call: Function)

  datatype Document = Document(blocks: seq<Block>, tail: string)

  ghost predicate ValidParam(p: Param) {
    '>' !in p.key && ValueFree(p.raw) && TagFree(p.gap) && (p.closed || p.gap == "")
  }

  ghost predicate ValidFunction(f: Function) {
    && '>' !in f.name && TagFree(f.gap) && TagFree(f.after)
    && forall i | 0 <= i < |f.params| :: ValidParam(f.params[i])
  }

  ghost predicate ValidBlock(b: Block) {
    && TagFree(b.before)
    && match b
       case Block(_, gap, fs) => TagFree(gap) && forall i | 0 <= i < |fs| :: ValidFunction(fs[i])
       case Bare(_, f) => ValidFunction(f) && f.after == ""
  }

  ghost predicate ValidBlocks(bs: seq<Block>) {
    forall i | 0 <= i < |bs| :: ValidBlock(bs[i])
  }

  ghost predicate ValidDocument(d: Document) {
    ValidBlocks(d.blocks) && TagFree(d.tail)
  }

  // ----- Printing -----

  function ParamFront(p: Param): seq<Piece> {
    [Parameter(p.key, p.raw, p.closed)] + (if p.closed then [Text(p.gap)] else [])
  }

  function ParamPieces(ps: seq<Param>): seq<Piece> {
    if ps == [] then []
    else ParamFront(ps[0]) + ParamPieces(ps[1..])
  }

  function FunctionBody(f: Function): seq<Piece> {
    [Header(f.name), Text(f.gap)] + ParamPieces(f.params) + [FunctionEnd]
  }

  function FunctionPieces(f: Function): seq<Piece> {
    FunctionBody(f) + [Text(f.after)]
  }

  function FunctionsPieces(fs: seq<Function>): seq<Piece> {
    if fs == [] then [] else FunctionPieces(fs[0]) + FunctionsPieces(fs[1..])
  }

  function BlockPieces(b: Block): seq<Piece> {
    match b
    case Block(before, gap, fs) => [Text(before), CallStart, Text(gap)] + FunctionsPieces(fs) + [CallEnd]
    case Bare(before, f) => [Text(before)] + FunctionBody(f)
  }

  function BlocksPieces(bs: seq<Block>): seq<Piece> {
    if bs == [] then [] else BlockPieces(bs[0]) + BlocksPieces(bs[1..])
  }

  function PrintDocument(d: Document): string {
    Print(BlocksPieces(d.blocks)) + d.tail
  }

  // ----- A printed document is well-formed -----

  lemma {:induction false} TwoPieces(p: Piece, q: Piece, tail: string)
    ensures Print([p, q]) == PieceText(p) + PieceText(q)
    ensures WellFormed([p, q], tail) <==> Fits(p, PieceText(q) + tail) && Fits(q, tail)
  {
    OnePiece(q, tail);
    assert [p, q][1..] == [q];
  }

  lemma {:induction false} OnePiece(p: Piece, tail: string)
    ensures Print([p]) == PieceText(p)
    ensures WellFormed([p], tail) <==> Fits(p, tail)
  {
    assert Print([p]) == PieceText(p) + Print([]);
    assert "" + tail == tail;
  }

  lemma {:induction false} FrontFits(p: Param, rest: string)
    requires ValidParam(p) && (PARAMETER_PREFIX <= rest || FUNCTION_END <= rest)
    ensures WellFormed(ParamFront(p), rest) && PARAMETER_PREFIX <= Print(ParamFront(p))
  {
    hide Print, WellFormed, TagFree, ValueFree;
    var param := Parameter(p.key, p.raw, p.closed);
    assert rest[0] == '<';
    if p.closed {
      assert ParamFront(p) == [param, Text(p.gap)];
      TwoPieces(param, Text(p.gap), rest);
    } else {
      assert ParamFront(p) == [param];
      OnePiece(param, rest);
    }
  }

  lemma {:induction false} ParamsFit(ps: seq<Param>, tail: string)
    requires forall i | 0 <= i < |ps| :: ValidParam(ps[i])
    requires PARAMETER_PREFIX <= tail || FUNCTION_END <= tail
    ensures WellFormed(ParamPieces(ps), tail)
    ensures var s := Print(ParamPieces(ps)) + tail; PARAMETER_PREFIX <= s || FUNCTION_END <= s
  {
    hide ValidParam, ParamFront, Print, WellFormed;
    if ps == [] {
      NothingFits(tail);
    } else {
      ParamsFit(ps[1..], tail);
      assert ValidParam(ps[0]);
      FrontFits(ps[0], Print(ParamPieces(ps[1..])) + tail);
      WellFormedConcat(ParamFront(ps[0]), ParamPieces(ps[1..]), tail);
      PrintConcat(ParamFront(ps[0]), ParamPieces(ps[1..]));
    }
  }

  lemma {:induction false} NothingFits(tail: string)
    ensures WellFormed([], tail) && Print([]) + tail == tail
  {
  }

  lemma {:induction false} BodyFits(f: Function, tail: string)
    requires ValidFunction(f)
    ensures WellFormed(FunctionBody(f), tail)
    ensures FUNCTION_PREFIX <= Print(FunctionBody(f))
  {
    hide Print, WellFormed, ParamPieces, TagFree;
    var front, params, back := [Header(f.name), Text(f.gap)], ParamPieces(f.params), [FunctionEnd];
    OnePiece(FunctionEnd, tail);
    assert FUNCTION_END <= Print(back) + tail;
    ParamsFit(f.params, Print(back) + tail);
    WellFormedConcat(params, back, tail);
    PrintConcat(params, back);
    var rest := Print(params + back) + tail;
    assert rest == Print(params) + (Print(back) + tail);
    TwoPieces(Header(f.name), Text(f.gap), rest);
    WellFormedConcat(front, params + back, tail);
    PrintConcat(front, params + back);
    assert FunctionBody(f) == front + (params + back);
  }

  lemma {:induction false} FunctionFits(f: Function, tail: string)
    requires ValidFunction(f) && tail != "" && tail[0] == '<'
    ensures WellFormed(FunctionPieces(f), tail)
    ensures FUNCTION_PREFIX <= Print(FunctionPieces(f))
  {
    hide Print, WellFormed, FunctionBody, TagFree;
    OnePiece(Text(f.after), tail);
    BodyFits(f, Print([Text(f.after)]) + tail);
    WellFormedConcat(FunctionBody(f), [Text(f.after)], tail);
    PrintConcat(FunctionBody(f), [Text(f.after)]);
  }

  lemma {:induction false} FunctionsFit(fs: seq<Function>, tail: string)
    requires forall i | 0 <= i < |fs| :: ValidFunction(fs[i])
    requires tail != "" && tail[0] == '<'
    ensures WellFormed(FunctionsPieces(fs), tail)
    ensures var s := Print(FunctionsPieces(fs)) + tail; s[0] == '<'
  {
    hide FunctionPieces, ValidFunction;
    if fs == [] {
      assert Print([]) + tail == tail;
    } else {
      FunctionsFit(fs[1..], tail);
      var rest := Print(FunctionsPieces(fs[1..])) + tail;
      FunctionFits(fs[0], rest);
      WellFormedConcat(FunctionPieces(fs[0]), FunctionsPieces(fs[1..]), tail);
      PrintConcat(FunctionPieces(fs[0]), FunctionsPieces(fs[1..]));
    }
  }

  lemma {:induction false} BlockFits(b: Block, tail: string)
    requires ValidBlock(b)
    ensures WellFormed(BlockPieces(b), tail)
  {
    match b {
      case Block(_, _, _) => ClosedBlockFits(b, tail);
      case Bare(before, f) =>
        hide Print, WellFormed, FunctionBody, TagFree, ValidFunction;
        BodyFits(f, tail);
        OnePiece(Text(before), Print(FunctionBody(f)) + tail);
        WellFormedConcat([Text(before)], FunctionBody(f), tail);
    }
  }

  lemma {:induction false} ClosedBlockFits(b: Block, tail: string)
    requires ValidBlock(b) && b.Block?
    ensures WellFormed(BlockPieces(b), tail)
  {
    hide Print, WellFormed, FunctionsPieces, TagFree, ValidFunction;
    var fs, back := FunctionsPieces(b.functions), [CallEnd];
    OnePiece(CallEnd, tail);
    FunctionsFit(b.functions, Print(back) + tail);
    WellFormedConcat(fs, back, tail);
    PrintConcat(fs, back);
    var rest := Print(fs + back) + tail;
    assert rest == Print(fs) + (Print(back) + tail);
    OnePiece(Text(b.gap), rest);
    WellFormedConcat([Text(b.gap)], fs + back, tail);
    var inner := [Text(b.gap)] + (fs + back);
    var rest' := Print(inner) + tail;
    TwoPieces(Text(b.before), CallStart, rest');
    WellFormedConcat([Text(b.before), CallStart], inner, tail);
    assert BlockPieces(b) == [Text(b.before), CallStart] + inner;
  }

  lemma {:induction false} BlocksFit(bs: seq<Block>, tail: string)
    requires ValidBlocks(bs)
    ensures WellFormed(BlocksPieces(bs), tail)
  {
    hide BlockPieces, ValidBlock;
    if bs != [] {
      BlocksFit(bs[1..], tail);
      BlockFits(bs[0], Print(BlocksPieces(bs[1..])) + tail);
      WellFormedConcat(BlockPieces(bs[0]), BlocksPieces(bs[1..]), tail);
    }
  }

  // ----- The calls of a document -----

  /** The streamed member behind `k` others. */
  function MemberCall(p: Param, func: string, k: nat, id: int, tools: Tools): Call {
    Call(id, None, (if k > 0 then ", " else "") + Member(p.key, p.raw, func, tools))
  }

  /** The streamed members of an object whose first `k` members are already out. */
  function MemberCalls(ps: seq<Param>, func: string, k: nat, id: int, tools: Tools): seq<Call> {
    if ps == [] then []
    else [MemberCall(ps[0], func, k, id, tools)] + MemberCalls(ps[1..], func, k + 1, id, tools)
  }

  function FunctionCalls(f: Function, id: int, tools: Tools): seq<Call> {
    [Call(id, Some(f.name), ""), Call(id, None, "{")]
    + MemberCalls(f.params, f.name, 0, id, tools)
    + [Call(id, None, "}")]
  }

  function CallsOf(fs: seq<Function>, id: int, tools: Tools): seq<Call> {
    if fs == [] then [] else FunctionCalls(fs[0], id, tools) + CallsOf(fs[1..], id + 1, tools)
  }

  function AllFunctions(bs: seq<Block>): seq<Function> {
    if bs == [] then [] else BlockFunctions(bs[0]) + AllFunctions(bs[1..])
  }

  function BlockFunctions(b: Block): seq<Function> {
    match b
    case Block(_, _, fs) => fs
    case Bare(_, f) => [f]
  }

  /** The text behind a closed parameter, visible outside a block only. */
  function ParamText(p: Param): string {
    if p.closed then p.gap else ""
  }

  function ParamTexts(ps: seq<Param>): string {
    if ps == [] then "" else ParamText(ps[0]) + ParamTexts(ps[1..])
  }

  function VisibleText(b: Block): string {
    match b
    case Block(before, _, _) => before
    case Bare(before, f) => before + (f.gap + ParamTexts(f.params))
  }

  function TextsOf(bs: seq<Block>): string {
    if bs == [] then "" else VisibleText(bs[0]) + TextsOf(bs[1..])
  }

  lemma {:induction false} CallsConcat(fs: seq<Function>, gs: seq<Function>, id: int, tools: Tools)
    ensures CallsOf(fs + gs, id, tools) == CallsOf(fs, id, tools) + CallsOf(gs, id + |fs|, tools)
  {
    hide FunctionCalls;
    if fs == [] {
      assert fs + gs == gs;
    } else {
      CallsConcat(fs[1..], gs, id + 1, tools);
      assert (fs + gs)[1..] == fs[1..] + gs;
      var a, b, c := FunctionCalls(fs[0], id, tools), CallsOf(fs[1..], id + 1, tools), CallsOf(gs, id + |fs|, tools);
      assert a + (b + c) == (a + b) + c;
    }
  }

  lemma {:induction false} ReadTwo(p: Piece, q: Piece, m: Mode, tools: Tools)
    ensures var o := Read(p, m, tools); var o' := Read(q, o.mode, tools);
            ReadAll([p, q], m, tools) == Outcome("", o'.mode, o.text + o'.text, o.calls + o'.calls)
  {
    hide Read;
    assert [p, q][1..] == [q] && [q][1..] == [];
    var o := Read(p, m, tools);
    assert ReadAll([q], o.mode, tools) == ReadAll([], Read(q, o.mode, tools).mode, tools).After(Read(q, o.mode, tools).text, Read(q, o.mode, tools).calls);
  }

  lemma {:induction false} VisibleConcat(m: Mode, a: string, b: string)
    ensures Visible(m, a) + Visible(m, b) == Visible(m, a + b)
    ensures Visible(m, "") == ""
  {
  }

  lemma {:induction false} SameVisibility(m: Mode, m': Mode, t: string)
    requires m.inside == m'.inside
    ensures Visible(m, t) == Visible(m', t)
  {
  }

  /** Parameters behind an opened brace. */
  lemma {:induction false} ReadMoreParams(ps: seq<Param>, m: Mode, name: string, tools: Tools)
    requires m.func == Some(name) && m.jsonStarted && m.paramCount > 0
    ensures ReadAll(ParamPieces(ps), m, tools) ==
            Outcome("", m.(paramCount := m.paramCount + |ps|), Visible(m, ParamTexts(ps)),
                    MemberCalls(ps, name, m.paramCount, m.toolId, tools))
    decreases |ps|
  {
    hide Read, MemberCall, ReadAll, ParamFront, ParamText, Visible;
    VisibleConcat(m, "", "");
    if ps == [] {
      ReadNothing(m, tools);
      assert m.(paramCount := m.paramCount + 0) == m;
    } else {
      var p := ps[0];
      var m' := m.(paramCount := m.paramCount + 1);
      ReadParam(p, m, name, tools);
      ReadMoreParams(ps[1..], m', name, tools);
      ReadConcat(ParamFront(p), ParamPieces(ps[1..]), m, tools);
      VisibleConcat(m, ParamText(p), ParamTexts(ps[1..]));
      SameVisibility(m, m', ParamTexts(ps[1..]));
    }
  }

  /** All parameters of a function; the first one opens the brace. */
  lemma {:induction false} ReadParams(ps: seq<Param>, m: Mode, name: string, tools: Tools)
    requires m.func == Some(name) && !m.jsonStarted && m.paramCount == 0 && ps != []
    ensures ReadAll(ParamPieces(ps), m, tools) ==
            Outcome("", m.(paramCount := |ps|, jsonStarted := true), Visible(m, ParamTexts(ps)),
                    [Call(m.toolId, None, "{")] + MemberCalls(ps, name, 0, m.toolId, tools))
  {
    hide Read, MemberCall, ReadAll, ParamFront, ParamText, Visible;
    var p := ps[0];
    var m' := m.(paramCount := 1, jsonStarted := true);
    SameVisibility(m, m', ParamTexts(ps[1..]));
    ReadParam(p, m, name, tools);
    ReadMoreParams(ps[1..], m', name, tools);
    ReadConcat(ParamFront(p), ParamPieces(ps[1..]), m, tools);
    VisibleConcat(m, ParamText(p), ParamTexts(ps[1..]));
  }

  lemma {:induction false} ReadParam(p: Param, m: Mode, name: string, tools: Tools)
    requires m.func == Some(name)
    ensures ReadAll(ParamFront(p), m, tools) ==
            Outcome("", m.(paramCount := m.paramCount + 1, jsonStarted := true), Visible(m, ParamText(p)),
                    OpenBrace(m) + [MemberCall(p, name, m.paramCount, m.toolId, tools)])
  {
    hide Member;
    var param := Parameter(p.key, p.raw, p.closed);
    if p.closed {
      assert ParamFront(p) == [param, Text(p.gap)];
      ReadTwo(param, Text(p.gap), m, tools);
    } else {
      assert ParamFront(p) == [param];
      ReadOne(param, m, tools);
    }
  }

  lemma {:induction false} ReadOne(p: Piece, m: Mode, tools: Tools)
    ensures ReadAll([p], m, tools) == Outcome("", Read(p, m, tools).mode, Read(p, m, tools).text, Read(p, m, tools).calls)
  {
    hide Read;
    assert [p][1..] == [];
  }

  lemma {:induction false} ReadHeader(f: Function, m: Mode, tools: Tools)
    ensures ReadAll([Header(f.name), Text(f.gap)], m, tools) ==
            Outcome("", Mode(m.toolId + 1, true, 0, false, m.inside, Some(f.name)), Visible(m, f.gap),
                    [Call(m.toolId + 1, Some(f.name), "")])
  {
    ReadTwo(Header(f.name), Text(f.gap), m, tools);
  }

  lemma {:induction false} ReadEnd(m: Mode, tools: Tools)
    ensures ReadAll([FunctionEnd], m, tools) ==
            Outcome("", m.(jsonStarted := true, func := None), "", OpenBrace(m) + [Call(m.toolId, None, "}")])
  {
    ReadOne(FunctionEnd, m, tools);
  }

  lemma {:induction false} ReadFunction(f: Function, m: Mode, tools: Tools)
    ensures ReadAll(FunctionBody(f), m, tools) ==
            Outcome("", Mode(m.toolId + 1, true, |f.params|, true, m.inside, None),
                    Visible(m, f.gap + ParamTexts(f.params)),
                    FunctionCalls(f, m.toolId + 1, tools))
  {
    hide ReadAll, Read, ParamPieces, MemberCalls, ParamTexts;
    var front, params, back := [Header(f.name), Text(f.gap)], ParamPieces(f.params), [FunctionEnd];
    var id := m.toolId + 1;
    var m1 := Mode(id, true, 0, false, m.inside, Some(f.name));
    ReadHeader(f, m, tools);
    VisibleConcat(m, f.gap, ParamTexts(f.params));
    if f.params == [] {
      NoMembers(f.name, id, tools);
      ReadEnd(m1, tools);
      assert FunctionBody(f) == front + back;
      ReadConcat(front, back, m, tools);
    } else {
      var m2 := m1.(paramCount := |f.params|, jsonStarted := true);
      ReadParams(f.params, m1, f.name, tools);
      ReadEnd(m2, tools);
      ReadConcat(params, back, m1, tools);
      ReadConcat(front, params + back, m, tools);
      assert FunctionBody(f) == front + (params + back);
    }
  }

  lemma {:induction false} NoMembers(func: string, id: int, tools: Tools)
    ensures ParamPieces([]) == [] && ParamTexts([]) == "" && MemberCalls([], func, 0, id, tools) == []
  {
  }

  lemma {:induction false} ReadNothing(m: Mode, tools: Tools)
    ensures FunctionsPieces([]) == [] && ReadAll([], m, tools) == Outcome("", m, "", [])
  {
  }

  lemma {:induction false} ReadAfter(t: string, m: Mode, tools: Tools)
    ensures ReadAll([Text(t)], m, tools) == Outcome("", m, Visible(m, t), [])
  {
    ReadOne(Text(t), m, tools);
  }

  lemma {:induction false} ReadFunctions(fs: seq<Function>, m: Mode, tools: Tools)
    requires m.inside
    ensures var o := ReadAll(FunctionsPieces(fs), m, tools);
            && o.text == "" && o.mode.inside && o.mode.toolId == m.toolId + |fs|
            && o.calls == CallsOf(fs, m.toolId + 1, tools)
    decreases |fs|
  {
    hide FunctionBody, FunctionCalls, ReadAll;
    if fs == [] {
      ReadNothing(m, tools);
    } else {
      ReadFunction(fs[0], m, tools);
      ReadAfter(fs[0].after, ReadAll(FunctionBody(fs[0]), m, tools).mode, tools);
      ReadConcat(FunctionBody(fs[0]), [Text(fs[0].after)], m, tools);
      var o := ReadAll(FunctionPieces(fs[0]), m, tools);
      ReadFunctions(fs[1..], o.mode, tools);
      ReadConcat(FunctionPieces(fs[0]), FunctionsPieces(fs[1..]), m, tools);
    }
  }

  lemma {:induction false} ReadClosedBlock(b: Block, m: Mode, tools: Tools)
    requires !m.inside && b.Block?
    ensures var o := ReadAll(BlockPieces(b), m, tools);
            && o.text == b.before && !o.mode.inside && o.mode.toolId == m.toolId + |b.functions|
            && o.calls == CallsOf(b.functions, m.toolId + 1, tools)
  {
    hide FunctionsPieces, CallsOf;
    var fs := FunctionsPieces(b.functions);
    var rest := [Text(b.gap)] + (fs + [CallEnd]);
    assert BlockPieces(b) == [Text(b.before), CallStart] + rest;
    ReadConcat([Text(b.before), CallStart], rest, m, tools);
    ReadTwo(Text(b.before), CallStart, m, tools);
    var m1 := m.(inside := true);
    ReadConcat([Text(b.gap)], fs + [CallEnd], m1, tools);
    ReadAfter(b.gap, m1, tools);
    ReadConcat(fs, [CallEnd], m1, tools);
    ReadFunctions(b.functions, m1, tools);
    var m2 := ReadAll(fs, m1, tools).mode;
    assert ReadAll([CallEnd], m2, tools) == Outcome("", m2.(inside := false), "", []) by {
      assert [CallEnd][1..] == [];
    }
  }

  lemma {:induction false} ReadBlock(b: Block, m: Mode, tools: Tools)
    requires !m.inside
    ensures var o := ReadAll(BlockPieces(b), m, tools);
            && o.text == VisibleText(b) && !o.mode.inside && o.mode.toolId == m.toolId + |BlockFunctions(b)|
            && o.calls == CallsOf(BlockFunctions(b), m.toolId + 1, tools)
  {
    match b {
      case Block(_, _, _) => ReadClosedBlock(b, m, tools);
      case Bare(before, f) =>
        hide FunctionBody, FunctionCalls, ReadAll;
        ReadAfter(before, m, tools);
        ReadFunction(f, m, tools);
        ReadConcat([Text(before)], FunctionBody(f), m, tools);
        assert [f][1..] == [];
        assert FunctionCalls(f, m.toolId + 1, tools) + CallsOf([], m.toolId + 2, tools) == FunctionCalls(f, m.toolId + 1, tools);
    }
  }

  lemma {:induction false} NoCalls(id: int, tools: Tools)
    ensures CallsOf([], id, tools) == []
  {
  }

  lemma {:induction false} ReadBlocks(bs: seq<Block>, m: Mode, tools: Tools)
    requires !m.inside
    ensures var o := ReadAll(BlocksPieces(bs), m, tools);
            && o.text == TextsOf(bs) && !o.mode.inside
            && o.mode.toolId == m.toolId + |AllFunctions(bs)|
            && o.calls == CallsOf(AllFunctions(bs), m.toolId + 1, tools)
    decreases |bs|
  {
    hide BlockPieces, FunctionCalls, VisibleText, BlockFunctions, ReadAll, CallsOf;
    if bs == [] {
      ReadNothing(m, tools);
      NoCalls(m.toolId + 1, tools);
    } else {
      ReadBlock(bs[0], m, tools);
      var o := ReadAll(BlockPieces(bs[0]), m, tools);
      ReadBlocks(bs[1..], o.mode, tools);
      ReadConcat(BlockPieces(bs[0]), BlocksPieces(bs[1..]), m, tools);
      CallsConcat(BlockFunctions(bs[0]), AllFunctions(bs[1..]), m.toolId + 1, tools);
    }
  }

  // ----- The main theorem -----

  /** Under every chunking a printed document yields its texts and, call by call,
      its function names and argument fragments; only an undecided end of the
      last text is still buffered. */
  lemma {:induction false} StreamingInvertsPrinting(d: Document, chunks: seq<string>, tools: Tools)
    requires ValidDocument(d) && Concat(chunks) == PrintDocument(d)
    ensures var o := Run(InitialState, chunks, tools);
            && o.calls == CallsOf(AllFunctions(d.blocks), 0, tools)
            && o.text + o.rest == TextsOf(d.blocks) + d.tail
            && TextsOf(d.blocks) <= o.text
            && |o.rest| <= 12 && (d.tail == "" ==> o.rest == "")
            && !o.mode.inside && o.mode.toolId == |AllFunctions(d.blocks)| - 1
  {
    hide Scan, Print, ReadAll, Run, Concat, BlocksPieces, ValidBlocks, TagFree, AllFunctions, TextsOf, CallsOf, WellFormed;
    ChunkInvariance(InitialState, chunks, tools);
    var ps := BlocksPieces(d.blocks);
    BlocksFit(d.blocks, d.tail);
    ScanPieces(ps, d.tail, InitialMode, tools);
    ReadBlocks(d.blocks, InitialMode, tools);
    var m := ReadAll(ps, InitialMode, tools).mode;
    TagFreeText(d.tail, m, tools);
    assert InitialState.buffer + Concat(chunks) == Print(ps) + d.tail;
    var o := Scan(d.tail, m, tools);
    assert (TextsOf(d.blocks) + o.text) + o.rest == TextsOf(d.blocks) + (o.text + o.rest);
  }

}
