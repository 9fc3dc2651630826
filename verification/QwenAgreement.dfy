/** The streaming parser against the one-shot parser on printed documents: exactly
    when they report the same calls, and exactly when the same arguments. */
module QwenAgreement {
  import opened Wrappers
  import opened TextSearch
  import opened QwenScanner
  import opened QwenChunks
  import opened QwenPrinter
  import opened QwenDocument
  import opened QwenCalls
  import opened QwenOneShot
  import opened QwenReading
  import opened QwenCuts

  // ----- Documents that are compared -----

  ghost predicate ReadableFunctions(fs: seq<Function>) {
    forall i | 0 <= i < |fs| :: Readable(fs[i])
  }

  /** No `<tool_call>` where it would start a block that is none: in a bare function,
      or behind the place where the one-shot parser ends a block. */
  ghost predicate Comparable(b: Block) {
    && ValidBlock(b) && ReadableFunctions(BlockFunctions(b))
    && match b
       case Block(_, _, _) => Free(Behind(Content(b)), CALL_START)
       case Bare(_, f) => Free(Print(FunctionBody(f)), CALL_START)
  }

  ghost predicate ComparableBlocks(bs: seq<Block>) {
    forall i | 0 <= i < |bs| :: Comparable(bs[i])
  }

  ghost predicate ComparableDocument(d: Document) {
    ComparableBlocks(d.blocks) && TagFree(d.tail)
  }

  predicate HasBlock(bs: seq<Block>) {
    exists i :: 0 <= i < |bs| && bs[i].Block?
  }

  predicate HasBare(bs: seq<Block>) {
    exists i :: 0 <= i < |bs| && bs[i].Bare?
  }

  // ----- Blocks -----

  /** The contents the block loop returns. */
  function Cuts(bs: seq<Block>): seq<string> {
    if bs == [] then []
    else (if bs[0].Block? then [Cut(Content(bs[0]))] else []) + Cuts(bs[1..])
  }

  lemma {:induction false} ClosedBlockText(b: Block)
    requires b.Block?
    ensures Print(BlockPieces(b)) == b.before + (CALL_START + (Content(b) + CALL_END))
  {
    hide Print, FunctionsPieces;
    var body := FunctionsPieces(b.functions);
    OnePiece(CallEnd, "");
    PrintConcat(body, [CallEnd]);
    PrintCons(Text(b.gap), body + [CallEnd]);
    PrintCons(CallStart, [Text(b.gap)] + (body + [CallEnd]));
    PrintCons(Text(b.before), [CallStart] + ([Text(b.gap)] + (body + [CallEnd])));
    assert BlockPieces(b) == [Text(b.before)] + ([CallStart] + ([Text(b.gap)] + (body + [CallEnd])));
    var printed := Print(body);
    assert b.gap + (printed + CALL_END) == (b.gap + printed) + CALL_END;
  }

  lemma {:induction false} BareText(b: Block)
    requires b.Bare?
    ensures Print(BlockPieces(b)) == b.before + Print(FunctionBody(b.call))
    ensures Print(FunctionBody(b.call)) == HeaderText(b.call.name) + (Inner(b.call) + FUNCTION_END)
  {
    hide Print, FunctionBody;
    PrintCons(Text(b.before), FunctionBody(b.call));
    BodyText(b.call);
  }

  lemma {:induction false} NextBlockOn(s: string, a: string, g: string, content: string, after: string)
    requires s == a + (g + (CALL_START + (content + (CALL_END + after)))) && Free(g, CALL_START)
    ensures var h := NextBlock(s, |a|);
            && h.Some? && h.value.body == Cut(content)
            && s == s[..h.value.next] + (Behind(content) + after)
  {
    hide Find, OccursAt, Free, Cut, Behind, IsTag;
    TagShapes();
    var c := |a| + |g| + |CALL_START|;
    var rest := CALL_END + (Behind(content) + after);
    FindTagOn(s, a, g, CALL_START + (content + (CALL_END + after)), CALL_START);
    CutParts(content);
    CutLayout(content, after);
    assert s[..c] == a + g + CALL_START;
    assert s == s[..c] + (Cut(content) + rest);
    FindTagOn(s, s[..c], Cut(content), rest, CALL_END);
    assert s[c..c + |Cut(content)|] == Cut(content);
    BehindEnd(s, s[..c] + Cut(content), Behind(content) + after);
  }

  lemma {:induction false} CutLayout(content: string, after: string)
    ensures content + (CALL_END + after) == Cut(content) + (CALL_END + (Behind(content) + after))
  {
    hide Cut, Behind;
    CutParts(content);
    assert content + (CALL_END + after) == (content + CALL_END) + after;
    assert (Cut(content) + (CALL_END + Behind(content))) + after == Cut(content) + (CALL_END + (Behind(content) + after));
  }

  lemma {:induction false} BehindEnd(s: string, front: string, later: string)
    requires s == front + (CALL_END + later)
    ensures |front| + |CALL_END| <= |s| && s == s[..|front| + |CALL_END|] + later
  {
  }

  lemma {:induction false} NoBlockOn(s: string, a: string, g: string)
    requires s == a + g && Free(g, CALL_START)
    ensures BlockList(s, |a|) == []
  {
    hide OccursAt, Free;
    FindNothing(s, a, g, CALL_START);
  }

  /** Nothing, or text behind a tag. */
  predicate EndsClean(g: string) {
    g == "" || g[|g| - 1] == '>'
  }

  lemma {:induction false} BehindClean(g: string, x: string)
    requires EndsClean(g)
    ensures CleanSeam(g, x)
  {
  }

  /** A bare function adds nothing the block loop would stop at. */
  lemma {:induction false} BareIsPassed(g: string, b: Block)
    requires EndsClean(g) && Free(g, CALL_START) && b.Bare? && Comparable(b)
    ensures var g' := g + (b.before + Print(FunctionBody(b.call)));
            EndsClean(g') && Free(g', CALL_START)
  {
    hide Print, Free, FunctionBody, Inner, Readable, HeaderText, EndsClean, TagFree, IsTag;
    TagShapes();
    var body := Print(FunctionBody(b.call));
    BareEnds(b, g);
    GapFree(b.before, CALL_START);
    BehindClean(g, b.before);
    FreeConcat(g, b.before, CALL_START);
    SeamIsClean(g + b.before, body);
    FreeConcat(g + b.before, body, CALL_START);
    assert g + (b.before + body) == (g + b.before) + body;
  }

  lemma {:induction false} BareEnds(b: Block, g: string)
    requires b.Bare? && Comparable(b)
    ensures var body := Print(FunctionBody(b.call));
            StartsClean(body) && Free(body, CALL_START) && EndsClean(g + (b.before + body)) && TagFree(b.before)
  {
    hide Print, Free, FunctionBody, Inner, Readable, HeaderText, TagFree;
    BareText(b);
    HeaderStart(b.call.name);
    EndFree();
    var body := Print(FunctionBody(b.call));
    assert body[|body| - 1] == FUNCTION_END[|FUNCTION_END| - 1];
  }

  lemma {:induction false} BlockFacts(b: Block)
    requires Comparable(b) && b.Block?
    ensures TagFree(b.before) && TagFree(b.gap) && Free(Behind(Content(b)), CALL_START)
    ensures forall i | 0 <= i < |b.functions| :: Readable(b.functions[i])
  {
    hide TagFree, Free, Behind;
  }

  /** A text without a block of its own: no `<tool_call>`, or none that is closed. */
  ghost predicate OpensNoBlock(tail: string) {
    Free(tail, CALL_START) || exists u: string, w: string :: OpensUnclosed(tail, u, w)
  }

  ghost predicate OpensUnclosed(tail: string, u: string, w: string) {
    tail == u + (CALL_START + w) && Free(u, CALL_START) && Free(w, CALL_END)
  }

  lemma {:induction false} UnclosedOn(s: string, a: string, g: string, u: string, w: string)
    requires s == a + (g + (u + (CALL_START + w))) && Free(g, CALL_START) && Free(u, CALL_START) && EndsClean(g) && Free(w, CALL_END)
    ensures BlockList(s, |a|) == []
  {
    hide Find, OccursAt, Free, IsTag;
    TagShapes();
    BehindClean(g, u);
    FreeConcat(g, u, CALL_START);
    assert s == a + ((g + u) + (CALL_START + w));
    FindTagOn(s, a, g + u, CALL_START + w, CALL_START);
    var front := a + (g + u) + CALL_START;
    assert s == front + w;
    FindNothing(s, front, w, CALL_END);
  }

  lemma {:induction false} NoBlockBehind(s: string, a: string, g: string, tail: string)
    requires s == a + (g + tail) && Free(g, CALL_START) && EndsClean(g) && OpensNoBlock(tail)
    ensures BlockList(s, |a|) == []
  {
    hide Free, BlockList, EndsClean;
    TagShapes();
    if Free(tail, CALL_START) {
      BehindClean(g, tail);
      FreeConcat(g, tail, CALL_START);
      NoBlockOn(s, a, g + tail);
    } else {
      var u, w :| OpensUnclosed(tail, u, w);
      UnclosedOn(s, a, g, u, w);
    }
  }

  lemma {:induction false} TextOpensNoBlock(t: string)
    requires TagFree(t)
    ensures OpensNoBlock(t)
  {
    GapFree(t, CALL_START);
  }

  /** The block loop returns the cut content of every block, and nothing else. */
  lemma {:induction false} BlocksRead(s: string, a: string, g: string, bs: seq<Block>, tail: string)
    requires s == a + (g + (Print(BlocksPieces(bs)) + tail))
    requires EndsClean(g) && Free(g, CALL_START) && ComparableBlocks(bs) && OpensNoBlock(tail)
    ensures BlockList(s, |a|) == Cuts(bs)
    decreases |bs|
  {
    hide NextBlock, Print, Free, TagFree, Comparable, Content, BlockPieces, Cut, Behind, EndsClean, FunctionBody, OpensNoBlock;
    TagShapes();
    if bs == [] {
      NothingPrinted();
      assert g + ("" + tail) == g + tail;
      NoBlockBehind(s, a, g, tail);
    } else {
      var b, later := bs[0], Print(BlocksPieces(bs[1..])) + tail;
      assert Comparable(b);
      PrintConcat(BlockPieces(b), BlocksPieces(bs[1..]));
      if b.Bare? {
        var g' := g + (b.before + Print(FunctionBody(b.call)));
        BareText(b);
        BareIsPassed(g, b);
        assert s == a + (g' + later);
        assert [] + Cuts(bs[1..]) == Cuts(bs[1..]);
        BlocksRead(s, a, g', bs[1..], tail);
      } else {
        BlockTurn(s, a, g, b, later);
        var next := NextBlock(s, |a|).value.next;
        BlocksRead(s, s[..next], Behind(Content(b)), bs[1..], tail);
      }
    }
  }

  lemma {:induction false} BlockTurn(s: string, a: string, g: string, b: Block, later: string)
    requires b.Block? && Comparable(b) && EndsClean(g) && Free(g, CALL_START)
    requires s == a + (g + (Print(BlockPieces(b)) + later))
    ensures var h := NextBlock(s, |a|);
            && h.Some? && h.value.next <= |s| && h.value.body == Cut(Content(b))
            && s == s[..h.value.next] + (Behind(Content(b)) + later)
            && EndsClean(Behind(Content(b))) && Free(Behind(Content(b)), CALL_START)
  {
    hide NextBlock, Print, Free, TagFree, Comparable, Content, BlockPieces, Cut, Behind;
    TagShapes();
    BlockFacts(b);
    ClosedBlockText(b);
    GapFree(b.before, CALL_START);
    BehindClean(g, b.before);
    FreeConcat(g, b.before, CALL_START);
    assert s == a + ((g + b.before) + (CALL_START + (Content(b) + (CALL_END + later))));
    NextBlockOn(s, a, g + b.before, Content(b), later);
    CutParts(Content(b));
  }

  // ----- The functions found -----

  ghost function SeenInBlocks(bs: seq<Block>): seq<Seen> {
    if bs == [] then []
    else (if bs[0].Block? then SeenIn(bs[0].functions) else []) + SeenInBlocks(bs[1..])
  }

  ghost function Whole(fs: seq<Function>): seq<Seen> {
    if fs == [] then [] else [(fs[0], KeptCount(fs[0].params))] + Whole(fs[1..])
  }

  /** With any block the bare functions are not looked at. */
  ghost function SeenInDocument(d: Document): seq<Seen> {
    if HasBlock(d.blocks) then SeenInBlocks(d.blocks) else Whole(AllFunctions(d.blocks))
  }

  lemma {:induction false} CutsRead(bs: seq<Block>)
    requires ComparableBlocks(bs)
    ensures Reads(FunctionsOf(Cuts(bs)), SeenInBlocks(bs))
    decreases |bs|
  {
    hide FunctionList, Comparable, TagFree, Cut, Content, SeenIn, Reads;
    NothingRead();
    if bs != [] {
      var b := bs[0];
      assert Comparable(b);
      CutsRead(bs[1..]);
      if b.Block? {
        BlockFacts(b);
        assert Cut(Content(b)) == "" + Cut(b.gap + Print(FunctionsPieces(b.functions))) by { ContentIs(b); }
        FunctionsRead(Cut(Content(b)), "", b.gap, b.functions);
        assert Cuts(bs) == [Cut(Content(b))] + Cuts(bs[1..]) && Cuts(bs)[1..] == Cuts(bs[1..]);
        ReadsConcat(FunctionList(Cut(Content(b)), 0), SeenIn(b.functions), FunctionsOf(Cuts(bs[1..])), SeenInBlocks(bs[1..]));
      } else {
        assert [] + Cuts(bs[1..]) == Cuts(bs[1..]) && [] + SeenInBlocks(bs[1..]) == SeenInBlocks(bs[1..]);
      }
    }
  }

  lemma {:induction false} ContentIs(b: Block)
    requires b.Block?
    ensures Content(b) == b.gap + Print(FunctionsPieces(b.functions))
  {
  }

  /** What the function loop finds in `tail`, wherever it stands. */
  ghost predicate TailReads(tail: string, more: seq<Seen>) {
    forall a: string :: Reads(FunctionList(a + tail, |a|), more)
  }

  lemma {:induction false} TextReadsNothing(t: string)
    requires TagFree(t)
    ensures TailReads(t, [])
  {
    hide TagFree, Reads, Free;
    GapFree(t, FUNCTION_PREFIX);
    NothingRead();
    forall a: string ensures Reads(FunctionList(a + t, |a|), []) {
      NoFunctionOn(a + t, a, t);
    }
  }

  lemma {:induction false} TailOn(s: string, a: string, tail: string, more: seq<Seen>)
    requires s == a + tail && TailReads(tail, more)
    ensures Reads(FunctionList(s, |a|), more)
  {
    hide FunctionList, Reads;
  }

  /** A bare function is read whole, and the loop goes on behind it. */
  lemma {:induction false} BareTurn(s: string, a: string, b: Block, later: string)
    requires Comparable(b) && b.Bare? && s == a + (Print(BlockPieces(b)) + later)
    ensures var h := NextFunction(s, |a|);
            && h.Some? && h.value.next <= |s| && s == s[..h.value.next] + later
            && Reads([(h.value.name, h.value.body)], [(b.call, KeptCount(b.call.params))])
  {
    hide NextFunction, Print, Free, TagFree, Readable, Inner, BlockPieces, FunctionBody, HeaderText, Reads;
    var f := b.call;
    assert BlockFunctions(b)[0] == f && Readable(f);
    BareText(b);
    FunctionFacts(f);
    GapFree(b.before, FUNCTION_PREFIX);
    InnerFree(f);
    assert s == a + (b.before + (HeaderText(f.name) + (Inner(f) + (FUNCTION_END + later))));
    NextFunctionOn(s, a, b.before, f.name, Inner(f), later);
    WholeInner(f);
    ReadsOne(f.name, Inner(f), f, KeptCount(f.params));
  }

  /** Without a block the function loop reads the whole text. */
  lemma {:induction false} BaresRead(s: string, a: string, bs: seq<Block>, tail: string, more: seq<Seen>)
    requires s == a + (Print(BlocksPieces(bs)) + tail) && ComparableBlocks(bs) && !HasBlock(bs) && TailReads(tail, more)
    ensures Reads(FunctionList(s, |a|), Whole(AllFunctions(bs)) + more)
    decreases |bs|
  {
    hide NextFunction, Print, Comparable, BlockPieces, Reads, TailReads, KeptCount;
    if bs == [] {
      NothingPrinted();
      assert "" + tail == tail;
      assert Whole([]) + more == more;
      TailOn(s, a, tail, more);
    } else {
      var b, later := bs[0], Print(BlocksPieces(bs[1..])) + tail;
      assert Comparable(b) && b.Bare?;
      assert !HasBlock(bs[1..]) by { assert forall i | 0 <= i < |bs| - 1 :: bs[1..][i] == bs[i + 1]; }
      PrintConcat(BlockPieces(b), BlocksPieces(bs[1..]));
      assert s == a + (Print(BlockPieces(b)) + later);
      BareTurn(s, a, b, later);
      var h := NextFunction(s, |a|).value;
      BaresRead(s, s[..h.next], bs[1..], tail, more);
      var rest := Whole(AllFunctions(bs[1..])) + more;
      ReadsConcat([(h.name, h.body)], [(b.call, KeptCount(b.call.params))], FunctionList(s, h.next), rest);
      WholeCons(b, bs[1..], more);
      assert bs == [b] + bs[1..];
    }
  }

  lemma {:induction false} WholeCons(b: Block, bs: seq<Block>, more: seq<Seen>)
    requires b.Bare?
    ensures Whole(AllFunctions([b] + bs)) + more == [(b.call, KeptCount(b.call.params))] + (Whole(AllFunctions(bs)) + more)
  {
    hide KeptCount;
    assert ([b] + bs)[1..] == bs;
    assert AllFunctions([b] + bs) == [b.call] + AllFunctions(bs);
    assert ([b.call] + AllFunctions(bs))[1..] == AllFunctions(bs);
  }

  lemma {:induction false} CutsNothing(bs: seq<Block>)
    ensures Cuts(bs) == [] <==> !HasBlock(bs)
    decreases |bs|
  {
    hide Cut, Content;
    if bs != [] {
      CutsNothing(bs[1..]);
      assert forall i | 0 <= i < |bs| - 1 :: bs[1..][i] == bs[i + 1];
      if HasBlock(bs) && !bs[0].Block? {
        var i :| 0 <= i < |bs| && bs[i].Block?;
        assert bs[1..][i - 1].Block?;
      }
      if HasBlock(bs[1..]) {
        var i :| 0 <= i < |bs[1..]| && bs[1..][i].Block?;
        assert bs[i + 1].Block?;
      }
    }
  }

  /** Without a closed block the whole text is read. */
  lemma {:induction false} WholeText(s: string)
    requires BlockList(s, 0) == []
    ensures FunctionsIn(s) == FunctionList(s, 0)
  {
    hide BlockList, Find;
    match Find(s, FUNCTION_PREFIX, 0)
    case None => NoFunctions();
    case Some(_) => OneText(s);
  }

  /** What the one-shot parser finds in a printed document. */
  lemma {:induction false} OneShotReads(d: Document)
    requires ComparableDocument(d)
    ensures Reads(FunctionsIn(PrintDocument(d)), SeenInDocument(d))
  {
    hide Print, TagFree, ComparableBlocks, FunctionsOf, BlockList, Free, Reads, SeenInBlocks, FunctionList, Cuts, HasBlock, Find;
    var s := PrintDocument(d);
    var printed := Print(BlocksPieces(d.blocks));
    EmptyIsFree();
    GapFree("", CALL_START);
    assert s == "" + ("" + (printed + d.tail)) == "" + (printed + d.tail);
    TextOpensNoBlock(d.tail);
    BlocksRead(s, "", "", d.blocks, d.tail);
    CutsNothing(d.blocks);
    if HasBlock(d.blocks) {
      CutsRead(d.blocks);
    } else {
      TextReadsNothing(d.tail);
      BaresRead(s, "", d.blocks, d.tail, []);
      assert Whole(AllFunctions(d.blocks)) + [] == Whole(AllFunctions(d.blocks));
      WholeText(s);
    }
  }

  lemma {:induction false} OneText(s: string)
    ensures FunctionsOf([s]) == FunctionList(s, 0)
  {
    hide FunctionList;
    assert [s][1..] == [];
  }

  lemma {:induction false} FirstBareText(d: Document)
    requires ComparableDocument(d) && d.blocks != [] && d.blocks[0].Bare?
    ensures Find(PrintDocument(d), FUNCTION_PREFIX, 0) == Some(|d.blocks[0].before|)
    ensures PrintDocument(d)[..|d.blocks[0].before|] == d.blocks[0].before
  {
    hide Print, TagFree, Free, Find, BlockPieces, FunctionBody, Inner, HeaderText;
    var b, later := d.blocks[0], Print(BlocksPieces(d.blocks[1..]));
    assert Comparable(b);
    BeforeIsGap(b);
    GapFree(b.before, FUNCTION_PREFIX);
    TagShapes();
    PrintConcat(BlockPieces(b), BlocksPieces(d.blocks[1..]));
    BareText(b);
    HeaderStart(b.call.name);
    var s, rest := PrintDocument(d), HeaderText(b.call.name) + (Inner(b.call) + FUNCTION_END) + later + d.tail;
    assert s == "" + (b.before + rest);
    FindTagOn(s, "", b.before, rest, FUNCTION_PREFIX);
  }

  lemma {:induction false} BeforeIsGap(b: Block)
    requires Comparable(b)
    ensures TagFree(b.before)
  {
  }

  lemma {:induction false} FirstBlockText(d: Document)
    requires ComparableDocument(d) && d.blocks != [] && d.blocks[0].Block?
    ensures Find(PrintDocument(d), CALL_START, 0) == Some(|d.blocks[0].before|)
    ensures PrintDocument(d)[..|d.blocks[0].before|] == d.blocks[0].before
  {
    hide Print, TagFree, Free, Find, BlockPieces, Content;
    var b, later := d.blocks[0], Print(BlocksPieces(d.blocks[1..]));
    assert Comparable(b);
    BeforeIsGap(b);
    GapFree(b.before, CALL_START);
    TagShapes();
    PrintConcat(BlockPieces(b), BlocksPieces(d.blocks[1..]));
    ClosedBlockText(b);
    var s, rest := PrintDocument(d), CALL_START + (Content(b) + CALL_END + later + d.tail);
    assert s == "" + (b.before + rest);
    FindTagOn(s, "", b.before, rest, CALL_START);
  }

  /** A document of bare functions contains no `<tool_call>`. */
  lemma {:induction false} BaresFree(g: string, bs: seq<Block>, tail: string)
    requires EndsClean(g) && Free(g, CALL_START) && ComparableBlocks(bs) && !HasBlock(bs) && TagFree(tail)
    ensures Free(g + (Print(BlocksPieces(bs)) + tail), CALL_START)
    decreases |bs|
  {
    hide Print, Free, TagFree, Comparable, BlockPieces, EndsClean, FunctionBody;
    TagShapes();
    if bs == [] {
      NothingPrinted();
      assert g + ("" + tail) == g + tail;
      GapFree(tail, CALL_START);
      BehindClean(g, tail);
      FreeConcat(g, tail, CALL_START);
    } else {
      var b, later := bs[0], Print(BlocksPieces(bs[1..])) + tail;
      assert Comparable(b) && b.Bare?;
      assert !HasBlock(bs[1..]) by { assert forall i | 0 <= i < |bs| - 1 :: bs[1..][i] == bs[i + 1]; }
      PrintConcat(BlockPieces(b), BlocksPieces(bs[1..]));
      BareText(b);
      BareIsPassed(g, b);
      var front := b.before + Print(FunctionBody(b.call));
      BaresFree(g + front, bs[1..], tail);
      assert g + (Print(BlocksPieces(bs)) + tail) == (g + front) + later;
    }
  }

  /** The one-shot text of a document without bare functions, or without blocks. */
  lemma {:induction false} OneShotText(d: Document)
    requires ComparableDocument(d) && !(HasBlock(d.blocks) && HasBare(d.blocks))
    ensures NormalText(PrintDocument(d)) == if d.blocks == [] then d.tail else d.blocks[0].before
  {
    hide Print, TagFree, ComparableBlocks, Free, Find;
    var s := PrintDocument(d);
    EmptyIsFree();
    GapFree("", CALL_START);
    if d.blocks == [] {
      NothingPrinted();
      assert s == "" + d.tail;
      GapFree(d.tail, FUNCTION_PREFIX);
      GapFree(d.tail, CALL_START);
      FindNothing(s, "", d.tail, FUNCTION_PREFIX);
      FindNothing(s, "", d.tail, CALL_START);
    } else if d.blocks[0].Block? {
      FirstBlockText(d);
    } else {
      assert HasBare(d.blocks);
      FirstBareText(d);
      BaresFree("", d.blocks, d.tail);
      var printed := Print(BlocksPieces(d.blocks)) + d.tail;
      assert s == "" + printed == "" + ("" + printed);
      FindNothing(s, "", "" + printed, CALL_START);
    }
  }

  // ----- Same calls -----

  /** The end of a block is hidden at most in a parameter of its last function. */
  ghost predicate CutInLast(fs: seq<Function>) {
    forall i | 0 <= i < |fs| :: !HeaderHides(fs[i]) && (i < |fs| - 1 ==> !ParamsHide(fs[i].params))
  }

  ghost predicate CutsInLast(bs: seq<Block>) {
    forall i | 0 <= i < |bs| :: bs[i].Block? ==> CutInLast(bs[i].functions)
  }

  /** No bare function beside a block, and no block cut in front of its last
      function's parameters. */
  ghost predicate SameCalls(d: Document) {
    HasBlock(d.blocks) ==> !HasBare(d.blocks) && CutsInLast(d.blocks)
  }

  /** How many parameters of a function the one-shot parser reads. */
  ghost function ReadCount(d: Document, f: Function): (n: nat)
    ensures n <= |f.params|
  {
    if HasBlock(d.blocks) then CutCount(f) else KeptCount(f.params)
  }

  ghost predicate AllSeen(seen: seq<Seen>, fs: seq<Function>) {
    |seen| == |fs| && forall i | 0 <= i < |fs| :: seen[i] == (fs[i], CutCount(fs[i]))
  }

  lemma {:induction false} SeenCount(fs: seq<Function>)
    ensures |SeenIn(fs)| <= |fs|
    ensures |SeenIn(fs)| == |fs| <==> CutInLast(fs)
    ensures CutInLast(fs) ==> AllSeen(SeenIn(fs), fs)
    decreases |fs|
  {
    hide HeaderHides, ParamsHide, CutCount;
    if fs != [] {
      var tail := fs[1..];
      SeenCount(tail);
      assert forall i | 0 <= i < |tail| :: tail[i] == fs[i + 1];
      assert forall i | 0 < i < |fs| :: fs[i] == tail[i - 1];
      assert CutInLast(fs) <==> !HeaderHides(fs[0]) && (|fs| > 1 ==> !ParamsHide(fs[0].params)) && CutInLast(tail);
    }
  }

  lemma {:induction false} BlocksCount(bs: seq<Block>)
    ensures |SeenInBlocks(bs)| <= |AllFunctions(bs)|
    ensures |SeenInBlocks(bs)| == |AllFunctions(bs)| <==> !HasBare(bs) && CutsInLast(bs)
    ensures !HasBare(bs) && CutsInLast(bs) ==> AllSeen(SeenInBlocks(bs), AllFunctions(bs))
    decreases |bs|
  {
    hide CutCount, CutInLast, SeenIn;
    if bs != [] {
      var b, tail := bs[0], bs[1..];
      BlocksCount(tail);
      if b.Block? { SeenCount(b.functions); }
      assert forall i | 0 <= i < |tail| :: tail[i] == bs[i + 1];
      assert forall i | 0 < i < |bs| :: bs[i] == tail[i - 1];
      assert HasBare(bs) <==> b.Bare? || HasBare(tail) by {
        if HasBare(tail) {
          var i :| 0 <= i < |tail| && tail[i].Bare?;
          assert bs[i + 1].Bare?;
        }
      }
      assert CutsInLast(bs) <==> (b.Block? ==> CutInLast(b.functions)) && CutsInLast(tail);
    }
  }

  lemma {:induction false} WholeIs(fs: seq<Function>)
    ensures |Whole(fs)| == |fs| && forall i | 0 <= i < |fs| :: Whole(fs)[i] == (fs[i], KeptCount(fs[i].params))
    decreases |fs|
  {
    if fs != [] {
      WholeIs(fs[1..]);
    }
  }

  /** The one-shot parser finds as many functions as there are exactly when they are
      the same ones. */
  lemma {:induction false} DocumentCount(d: Document)
    ensures |SeenInDocument(d)| == |AllFunctions(d.blocks)| <==> SameCalls(d)
    ensures SameCalls(d) ==> forall i | 0 <= i < |SeenInDocument(d)| ::
                               i < |AllFunctions(d.blocks)|
                               && SeenInDocument(d)[i] == (AllFunctions(d.blocks)[i], ReadCount(d, AllFunctions(d.blocks)[i]))
  {
    hide SeenInBlocks, AllFunctions, CutCount, CutsInLast, Whole, HasBare;
    if HasBlock(d.blocks) {
      BlocksCount(d.blocks);
    } else {
      WholeIs(AllFunctions(d.blocks));
    }
  }

  lemma {:induction false} ParsedNames(gs: seq<(string, string)>, index: int, tools: Tools)
    ensures NamesOf(ParsedCalls(gs, index, tools)) == seq(|gs|, k requires 0 <= k < |gs| => (index + k, gs[k].0))
    decreases |gs|
  {
    hide ArgumentMap, ParamList;
    if gs != [] {
      ParsedNames(gs[1..], index + 1, tools);
      assert ParsedCalls(gs, index, tools)[1..] == ParsedCalls(gs[1..], index + 1, tools);
    }
  }

  /** Same announced calls exactly when the document allows it. */
  lemma {:induction false} NamesAgree(d: Document, tools: Tools)
    requires ComparableDocument(d)
    ensures NamesOf(ParsedCalls(FunctionsIn(PrintDocument(d)), 0, tools)) == Numbered(AllFunctions(d.blocks), 0) <==> SameCalls(d)
    ensures SameCalls(d) ==> |FunctionsIn(PrintDocument(d))| == |AllFunctions(d.blocks)|
  {
    hide PrintDocument, FunctionsIn, ComparableDocument, SameCalls, SeenInDocument, ParamList, AllPairs, NamesOf, ParsedCalls, ReadCount;
    OneShotReads(d);
    DocumentCount(d);
    var gs, fs := FunctionsIn(PrintDocument(d)), AllFunctions(d.blocks);
    ParsedNames(gs, 0, tools);
    var names := NamesOf(ParsedCalls(gs, 0, tools));
    assert |names| == |gs| && |Numbered(fs, 0)| == |fs|;
    if SameCalls(d) {
      assert forall i | 0 <= i < |gs| :: gs[i].0 == SeenInDocument(d)[i].0.name == fs[i].name;
      assert names == Numbered(fs, 0);
    }
  }

  // ----- Same arguments -----

  /** The object the streamed fragments of a function denote: last member wins. */
  function StreamedArguments(f: Function, tools: Tools): map<string, Json> {
    ArgumentMap(AllPairs(f.params), f.name, tools)
  }

  /** The object the one-shot parser builds for the `i`-th function of a text. */
  function OneShotArguments(text: string, i: nat, tools: Tools): map<string, Json>
    requires i < |FunctionsIn(text)|
  {
    var f := FunctionsIn(text)[i];
    ArgumentMap(ParamList(f.1, 0), f.0, tools)
  }

  /** What the one-shot parser hands over for it: index, name, and the serialized object. */
  lemma {:induction false} CallsCarryArguments(text: string, i: nat, tools: Tools)
    requires i < |FunctionsIn(text)|
    ensures |ParsedCalls(FunctionsIn(text), 0, tools)| == |FunctionsIn(text)|
    ensures ParsedCalls(FunctionsIn(text), 0, tools)[i] ==
            Call(i, Some(FunctionsIn(text)[i].0), tools.dump(Object(OneShotArguments(text, i, tools))))
  {
    hide FunctionsIn, ArgumentMap, ParamList;
  }

  /** The parameters behind the first `n` add nothing: each of their keys already has
      the value it ends up with. */
  predicate NothingLost(f: Function, n: nat, tools: Tools)
    requires n <= |f.params|
  {
    var kept := ArgumentMap(AllPairs(f.params[..n]), f.name, tools);
    var lost := ArgumentMap(AllPairs(f.params[n..]), f.name, tools);
    forall k | k in lost :: k in kept && kept[k] == lost[k]
  }

  lemma {:induction false} MapConcat(a: seq<(string, string)>, b: seq<(string, string)>, func: string, tools: Tools)
    ensures ArgumentMap(a + b, func, tools) == ArgumentMap(a, func, tools) + ArgumentMap(b, func, tools)
    decreases |b|
  {
    hide StripNewlines;
    if b == [] {
      assert a + b == a;
      assert ArgumentMap(a, func, tools) + map[] == ArgumentMap(a, func, tools);
    } else {
      var n := |b| - 1;
      MapConcat(a, b[..n], func, tools);
      assert (a + b)[..|a + b| - 1] == a + b[..n] && (a + b)[|a + b| - 1] == b[n];
    }
  }

  lemma {:induction false} PairsConcat(ps: seq<Param>, qs: seq<Param>)
    ensures AllPairs(ps + qs) == AllPairs(ps) + AllPairs(qs)
    decreases |ps|
  {
    if ps == [] {
      assert ps + qs == qs;
    } else {
      PairsConcat(ps[1..], qs);
      assert (ps + qs)[1..] == ps[1..] + qs && (ps + qs)[0] == ps[0];
    }
  }

  /** Reading only the first `n` parameters gives the same object exactly when
      nothing is lost with the others. */
  lemma {:induction false} ArgumentsKept(f: Function, n: nat, tools: Tools)
    requires n <= |f.params|
    ensures ArgumentMap(AllPairs(f.params[..n]), f.name, tools) == StreamedArguments(f, tools) <==> NothingLost(f, n, tools)
  {
    hide ArgumentMap, AllPairs;
    assert f.params == f.params[..n] + f.params[n..];
    PairsConcat(f.params[..n], f.params[n..]);
    MapConcat(AllPairs(f.params[..n]), AllPairs(f.params[n..]), f.name, tools);
    var kept := ArgumentMap(AllPairs(f.params[..n]), f.name, tools);
    var lost := ArgumentMap(AllPairs(f.params[n..]), f.name, tools);
    assert StreamedArguments(f, tools) == kept + lost;
    if kept + lost == kept {
      forall k | k in lost ensures k in kept && kept[k] == lost[k] {
        assert (kept + lost)[k] == lost[k];
      }
    }
  }

  /** The arguments of call `i` agree exactly when its unread parameters add nothing. */
  lemma {:induction false} ArgumentsAgree(d: Document, i: nat, tools: Tools)
    requires ComparableDocument(d) && SameCalls(d) && i < |AllFunctions(d.blocks)|
    ensures i < |FunctionsIn(PrintDocument(d))|
    ensures var f := AllFunctions(d.blocks)[i];
            OneShotArguments(PrintDocument(d), i, tools) == StreamedArguments(f, tools) <==> NothingLost(f, ReadCount(d, f), tools)
  {
    hide PrintDocument, FunctionsIn, ComparableDocument, SameCalls, SeenInDocument, ParamList, AllPairs, ReadCount,
         ArgumentMap, StreamedArguments, NothingLost;
    OneShotReads(d);
    DocumentCount(d);
    var f := AllFunctions(d.blocks)[i];
    var gs := FunctionsIn(PrintDocument(d));
    assert SeenInDocument(d)[i] == (f, ReadCount(d, f));
    assert gs[i].0 == f.name && ParamList(gs[i].1, 0) == AllPairs(f.params[..ReadCount(d, f)]);
    ArgumentsKept(f, ReadCount(d, f), tools);
  }

  // ----- Agreement -----

  /** Same calls and names, the one-shot text opens the streamed text, and every call
      has the same arguments. */
  ghost predicate Agree(d: Document, o: Outcome, tools: Tools) {
    var text, fs := PrintDocument(d), AllFunctions(d.blocks);
    && NamesOf(ParsedCalls(FunctionsIn(text), 0, tools)) == NamesOf(o.calls)
    && |FunctionsIn(text)| == |fs|
    && NormalText(text) <= o.text + o.rest
    && forall i | 0 <= i < |fs| :: OneShotArguments(text, i, tools) == StreamedArguments(fs[i], tools)
  }

  /** On every comparable document, under every chunking, streaming reports every
      function with its whole object; the one-shot parser agrees in calls and names
      if and only if no bare function stands beside a block and no block is cut in
      front of its last function's parameters, and agrees altogether if and only if
      moreover no unread parameter adds anything. */
  lemma {:induction false} StreamingAgreesWithOneShot(d: Document, chunks: seq<string>, tools: Tools)
    requires ComparableDocument(d) && Concat(chunks) == PrintDocument(d)
    ensures var text := PrintDocument(d);
            var o, fs := Run(InitialState, chunks, tools), AllFunctions(d.blocks);
            && NamesOf(o.calls) == Numbered(fs, 0)
            && (forall i | 0 <= i < |fs| :: ArgumentsOf(o.calls, i) == ObjectText(fs[i], tools))
            && (NamesOf(ParsedCalls(FunctionsIn(text), 0, tools)) == NamesOf(o.calls) <==> SameCalls(d))
            && (Agree(d, o, tools) <==>
                SameCalls(d) && forall i | 0 <= i < |fs| :: NothingLost(fs[i], ReadCount(d, fs[i]), tools))
            && (SameCalls(d) && d.blocks != [] ==> NormalText(text) <= o.text)
  {
    hide PrintDocument, FunctionsIn, Run, NamesOf, ArgumentsOf, NormalText, ParamList, TagFree, ObjectText,
         CallsOf, ArgumentMap, StreamedArguments, ParsedCalls, OneShotArguments, ComparableBlocks, SameCalls, NothingLost, ReadCount;
    var fs := AllFunctions(d.blocks);
    ComparableIsValid(d);
    StreamingInvertsPrinting(d, chunks, tools);
    NamesAgree(d, tools);
    CallsReassemble(fs, 0, 0, tools);
    forall i | 0 <= i < |fs| ensures ArgumentsOf(Run(InitialState, chunks, tools).calls, i) == ObjectText(fs[i], tools) {
      CallsReassemble(fs, 0, i, tools);
    }
    if SameCalls(d) {
      TextsAgree(d);
      forall i | 0 <= i < |fs|
        ensures OneShotArguments(PrintDocument(d), i, tools) == StreamedArguments(fs[i], tools)
                <==> NothingLost(fs[i], ReadCount(d, fs[i]), tools) {
        ArgumentsAgree(d, i, tools);
      }
    }
  }

  lemma {:induction false} TextsAgree(d: Document)
    requires ComparableDocument(d) && SameCalls(d)
    ensures NormalText(PrintDocument(d)) <= TextsOf(d.blocks) + d.tail
    ensures d.blocks != [] ==> NormalText(PrintDocument(d)) <= TextsOf(d.blocks)
  {
    hide PrintDocument, NormalText, ComparableDocument, CutsInLast;
    assert !(HasBlock(d.blocks) && HasBare(d.blocks));
    OneShotText(d);
    if d.blocks == [] {
      assert "" + d.tail == d.tail;
    } else {
      assert d.blocks[0].before <= VisibleText(d.blocks[0]) <= TextsOf(d.blocks);
    }
  }

  lemma {:induction false} ComparableIsValid(d: Document)
    requires ComparableDocument(d)
    ensures ValidDocument(d)
  {
    hide TagFree, ValidBlock;
    assert forall i | 0 <= i < |d.blocks| :: Comparable(d.blocks[i]);
  }
}
