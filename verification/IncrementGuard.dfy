/** The guard on single increments: in a printed document whose bare functions hold
    no text, an increment cuts off a fragment exactly when it carries text and its
    first fragment has no name. */
module IncrementGuard {
  import opened Wrappers
  import opened TextSearch
  import opened QwenScanner
  import opened QwenChunks
  import opened QwenPrinter
  import opened QwenDocument
  import opened QwenCalls
  import opened EndToEnd
  import opened Interruptions

  // ----- Text is followed by a header -----

  predicate StartsNamed(calls: seq<Call>) {
    calls != [] ==> calls[0].name.Some?
  }

  /** Whenever a step shows text, the next fragment is a header. */
  predicate Orderly(cur: string, m: Mode, tools: Tools)
    decreases |cur|
  {
    match Next(cur, m, tools)
    case Hold => true
    case Take(n, m', t, _) =>
      (t != "" ==> StartsNamed(Scan(cur[n..], m', tools).calls)) && Orderly(cur[n..], m', tools)
  }

  lemma {:induction false} OrderlyStep(cur: string, m: Mode, tools: Tools)
    ensures match Next(cur, m, tools)
            case Hold => Orderly(cur, m, tools)
            case Take(n, m', t, c) =>
              Orderly(cur, m, tools) <==>
              (t != "" ==> StartsNamed(Scan(cur[n..], m', tools).calls)) && Orderly(cur[n..], m', tools)
  {
    hide Next, Scan;
  }

  /** Plain text in front. */
  lemma {:induction false} OrderlyPlain(p: string, y: string, m: Mode, tools: Tools)
    requires '<' !in p
    ensures Orderly(p + y, m, tools) <==>
            (Visible(m, p) != "" ==> StartsNamed(Scan(y, m, tools).calls)) && Orderly(y, m, tools)
  {
    hide Next, Scan, Orderly, StartsNamed;
    var s, k := p + y, PlainLength(y);
    if p == "" {
      assert s == y;
    } else {
      assert s[|p| + k..] == y[k..] && s[..|p| + k] == p + y[..k];
      PlainStep(s, |p| + k, m, tools);
      OrderlyStep(s, m, tools);
      assert y == y[..k] + y[k..];
      PlainText(y[..k], y[k..], m, tools);
      assert [] + Scan(y[k..], m, tools).calls == Scan(y[k..], m, tools).calls;
      if k > 0 {
        PlainStep(y, k, m, tools);
        OrderlyStep(y, m, tools);
      } else {
        assert y[0..] == y;
      }
    }
  }

  /** Reading part of the text keeps the rest orderly, and if that part shows text
      and no fragment, then a header comes next. */
  lemma {:induction false} OrderlyAppend(a: string, x: string, m: Mode, tools: Tools)
    requires Orderly(a + x, m, tools)
    ensures var o := Scan(a, m, tools);
            && Orderly(o.rest + x, o.mode, tools)
            && (o.text != "" && o.calls == [] ==> StartsNamed(Scan(o.rest + x, o.mode, tools).calls))
    decreases |a|
  {
    hide Next, Orderly, StartsNamed, Scan;
    ScanUnfold(a, m, tools);
    match Next(a, m, tools)
    case Hold =>
    case Take(n, m', t, c) =>
      assert (a + x)[n..] == a[n..] + x;
      ScanAppend(a[n..], x, m', tools);
      var o := Scan(a[n..], m', tools);
      if a[0] == '<' {
        NextStable(a, x, m, tools);
        OrderlyStep(a + x, m, tools);
      } else {
        var k := PlainLength(a);
        assert a[0] !in a[..k] ==> k == 0;
        PlainStep(a, k, m, tools);
        assert a + x == a[..k] + (a[k..] + x);
        OrderlyPlain(a[..k], a[k..] + x, m, tools);
      }
      OrderlyAppend(a[n..], x, m', tools);
      assert o.calls == [] ==> Scan(a[n..] + x, m', tools).calls == Scan(o.rest + x, o.mode, tools).calls by {
        assert [] + Scan(o.rest + x, o.mode, tools).calls == Scan(o.rest + x, o.mode, tools).calls;
      }
  }

  // ----- Printed documents are orderly -----

  predicate Grouped(ps: seq<Piece>, m: Mode, tools: Tools) {
    ps != [] ==>
    var o := Read(ps[0], m, tools);
    (o.text != "" ==> StartsNamed(ReadAll(ps[1..], o.mode, tools).calls)) && Grouped(ps[1..], o.mode, tools)
  }

  lemma {:induction false} OrderlyTail(s: string, m: Mode, tools: Tools)
    requires TagFree(s) && !m.inside
    ensures Orderly(s, m, tools)
    decreases |s|
  {
    hide Next, TagFree, Orderly, Scan;
    TagFreeStep(s, m, tools);
    OrderlyStep(s, m, tools);
    match Next(s, m, tools)
    case Hold =>
    case Take(n, m', _, _) =>
      TagFreeSlice(s, n, |s|);
      assert s[n..|s|] == s[n..];
      TagFreeText(s[n..], m, tools);
      OrderlyTail(s[n..], m, tools);
  }

  lemma {:induction false} OrderlyText(t: string, rest: string, m: Mode, tools: Tools)
    requires TagFree(t) && (t == "" || (rest != "" && rest[0] == '<'))
    requires Orderly(rest, m, tools) && (Visible(m, t) != "" ==> StartsNamed(Scan(rest, m, tools).calls))
    ensures Orderly(t + rest, m, tools)
    decreases |t|
  {
    hide Next, TagFree, StartsWithTag, IsPotentialTag, Orderly, Scan, StartsNamed;
    if t == "" {
      assert t + rest == rest;
    } else {
      var k := if t[0] == '<' then 1 else PlainLength(t);
      assert k > 0 by { if t[0] != '<' { assert PlainLength(t) > 0; } }
      var first, later := t[..k], t[k..];
      assert t + rest == first + (later + rest) && later == t[k..|t|];
      TagFreeSlice(t, k, |t|);
      ScanText(later, rest, m, tools);
      assert [] + Scan(rest, m, tools).calls == Scan(rest, m, tools).calls;
      assert Visible(m, later) != "" ==> Visible(m, t) != "";
      OrderlyText(later, rest, m, tools);
      if t[0] == '<' {
        AngleInText(t, rest);
        LoneAngleStable(t + rest, "", m, tools);
        assert (t + rest)[1..] == later + rest;
        OrderlyStep(t + rest, m, tools);
      } else {
        OrderlyPlain(first, later + rest, m, tools);
      }
    }
  }

  lemma {:induction false} OrderlyPiece(p: Piece, rest: string, m: Mode, tools: Tools)
    requires Fits(p, rest)
    requires var o := Read(p, m, tools);
             Orderly(rest, o.mode, tools) && (o.text != "" ==> StartsNamed(Scan(rest, o.mode, tools).calls))
    ensures Orderly(PieceText(p) + rest, m, tools)
  {
    if p.Text? {
      OrderlyText(p.text, rest, m, tools);
    } else {
      NextPiece(p, rest, m, tools);
      hide Next, Read, PieceText, Scan, Orderly;
      assert (PieceText(p) + rest)[|PieceText(p)|..] == rest;
      OrderlyStep(PieceText(p) + rest, m, tools);
    }
  }

  lemma {:induction false} OrderlyPieces(ps: seq<Piece>, tail: string, m: Mode, tools: Tools)
    requires WellFormed(ps, tail) && Grouped(ps, m, tools)
    requires TagFree(tail) && !ReadAll(ps, m, tools).mode.inside
    ensures Orderly(Print(ps) + tail, m, tools)
    ensures Scan(Print(ps) + tail, m, tools).calls == ReadAll(ps, m, tools).calls
    decreases |ps|
  {
    hide Scan, Read, Fits, PieceText, Orderly, TagFree, StartsNamed;
    ScanPieces(ps, tail, m, tools);
    var o' := ReadAll(ps, m, tools);
    TagFreeText(tail, o'.mode, tools);
    assert o'.calls + [] == o'.calls;
    if ps == [] {
      assert Print(ps) + tail == tail;
      OrderlyTail(tail, m, tools);
    } else {
      var rest := Print(ps[1..]) + tail;
      var o := Read(ps[0], m, tools);
      assert Print(ps) + tail == PieceText(ps[0]) + rest;
      OrderlyPieces(ps[1..], tail, o.mode, tools);
      OrderlyPiece(ps[0], rest, m, tools);
    }
  }

  // ----- Groups of a document -----

  /** A bare function that holds no text. */
  predicate Silent(b: Block) {
    b.Bare? ==> b.call.gap == "" && ParamTexts(b.call.params) == ""
  }

  predicate AllSilent(bs: seq<Block>) {
    forall i | 0 <= i < |bs| :: Silent(bs[i])
  }

  /** Pieces that show nothing. */
  lemma {:induction false} QuietPieces(ps: seq<Piece>, qs: seq<Piece>, m: Mode, tools: Tools)
    requires ReadAll(ps, m, tools).text == "" && Grouped(qs, ReadAll(ps, m, tools).mode, tools)
    ensures Grouped(ps + qs, m, tools)
    decreases |ps|
  {
    hide Read, StartsNamed;
    if ps == [] {
      assert ps + qs == qs;
    } else {
      var o := Read(ps[0], m, tools);
      QuietPieces(ps[1..], qs, o.mode, tools);
      assert (ps + qs)[1..] == ps[1..] + qs && (ps + qs)[0] == ps[0];
    }
  }

  lemma {:induction false} GroupedText(t: string, qs: seq<Piece>, m: Mode, tools: Tools)
    requires Grouped(qs, m, tools) && StartsNamed(ReadAll(qs, m, tools).calls)
    ensures Grouped([Text(t)] + qs, m, tools)
    ensures ReadAll([Text(t)] + qs, m, tools).calls == ReadAll(qs, m, tools).calls
  {
    hide StartsNamed;
    assert ([Text(t)] + qs)[1..] == qs;
    assert [] + ReadAll(qs, m, tools).calls == ReadAll(qs, m, tools).calls;
  }

  lemma {:induction false} CallsStartNamed(fs: seq<Function>, id: int, tools: Tools)
    ensures StartsNamed(CallsOf(fs, id, tools))
  {
    hide FunctionCalls;
    if fs != [] {
      FunctionTail(fs[0], id, tools);
    }
  }

  /** The pieces of a block behind its leading text. */
  function BlockRest(b: Block): seq<Piece> {
    match b
    case Block(_, gap, fs) => [CallStart, Text(gap)] + FunctionsPieces(fs) + [CallEnd]
    case Bare(_, f) => FunctionBody(f)
  }

  lemma {:induction false} RestIsQuiet(b: Block, m: Mode, tools: Tools)
    requires Silent(b) && !m.inside
    ensures BlockPieces(b) == [Text(b.before)] + BlockRest(b)
    ensures var o := ReadAll(BlockRest(b), m, tools); o.text == "" && !o.mode.inside
  {
    hide ReadAll, FunctionsPieces, FunctionBody;
    match b
    case Block(before, _, _) =>
      assert BlockPieces(b) == [Text(before)] + BlockRest(b);
      ReadClosedBlock(b, m, tools);
      ReadConcat([Text(before)], BlockRest(b), m, tools);
      ReadAfter(before, m, tools);
      QuietBehind(before, ReadAll(BlockRest(b), m, tools).text);
    case Bare(_, f) =>
      ReadFunction(f, m, tools);
  }

  lemma {:induction false} QuietBehind(a: string, b: string)
    ensures a + b == a ==> b == ""
  {
    assert |a + b| == |a| + |b|;
  }

  lemma {:induction false} BlocksGrouped(bs: seq<Block>, m: Mode, tools: Tools)
    requires AllSilent(bs) && !m.inside
    ensures Grouped(BlocksPieces(bs), m, tools)
    decreases |bs|
  {
    hide ReadAll, BlockPieces, BlockRest, Grouped, StartsNamed, Silent;
    if bs == [] {
      NothingGrouped(m, tools);
    } else {
      var b, later := bs[0], BlocksPieces(bs[1..]);
      assert Silent(b);
      assert AllSilent(bs[1..]) by { assert forall i | 0 <= i < |bs| - 1 :: bs[1..][i] == bs[i + 1]; }
      RestIsQuiet(b, m, tools);
      var m' := ReadAll(BlockRest(b), m, tools).mode;
      BlocksGrouped(bs[1..], m', tools);
      QuietPieces(BlockRest(b), later, m, tools);
      assert BlocksPieces(bs) == [Text(b.before)] + (BlockRest(b) + later);
      ReadBlocks(bs, m, tools);
      CallsStartNamed(AllFunctions(bs), m.toolId + 1, tools);
      TextCalls(b.before, BlockRest(b) + later, m, tools);
      GroupedText(b.before, BlockRest(b) + later, m, tools);
    }
  }

  lemma {:induction false} NothingGrouped(m: Mode, tools: Tools)
    ensures Grouped([], m, tools)
  {
  }

  lemma {:induction false} TextCalls(t: string, qs: seq<Piece>, m: Mode, tools: Tools)
    ensures ReadAll([Text(t)] + qs, m, tools).calls == ReadAll(qs, m, tools).calls
  {
    assert ([Text(t)] + qs)[1..] == qs;
    assert [] + ReadAll(qs, m, tools).calls == ReadAll(qs, m, tools).calls;
  }

  // ----- The guard on one increment -----

  /** Some increment carries text and starts with a fragment without a name. */
  predicate SomeIncrementSplits(st: State, chunks: seq<string>, tools: Tools)
    decreases |chunks|
  {
    chunks != [] &&
    var o := Feed(st, chunks[0], tools);
    || (o.text != "" && o.calls != [] && o.calls[0].name.None?)
    || SomeIncrementSplits(State(o.rest, o.mode), chunks[1..], tools)
  }

  /** No name is empty, so that only nameless fragments look nameless to the client. */
  predicate ProperNames(calls: seq<Call>) {
    forall i | 0 <= i < |calls| :: calls[i].name != Some("")
  }

  lemma {:induction false} ProperTail(calls: seq<Call>, later: seq<Call>)
    requires ProperNames(calls + later)
    ensures ProperNames(calls) && ProperNames(later)
    ensures StartsNameless(calls) <==> !StartsNamed(calls)
  {
    assert forall i | 0 <= i < |calls| :: calls[i] == (calls + later)[i];
    assert forall i | 0 <= i < |later| :: later[i] == (calls + later)[|calls| + i];
  }

  lemma {:induction false} GuardIsLocal(st: State, chunks: seq<string>, begun: bool, pending: bool, tools: Tools)
    requires var cur := st.buffer + Concat(chunks);
             && Orderly(cur, st.mode, tools) && ProperNames(Scan(cur, st.mode, tools).calls)
             && (!begun || pending ==> StartsNamed(Scan(cur, st.mode, tools).calls))
    ensures Interrupts(st, chunks, begun, pending, tools) <==> SomeIncrementSplits(st, chunks, tools)
    decreases |chunks|
  {
    hide Scan, Orderly, ProperNames, StartsNamed, StartsNameless;
    if chunks != [] {
      var later := Concat(chunks[1..]);
      var o := Feed(st, chunks[0], tools);
      var a := st.buffer + chunks[0];
      assert st.buffer + Concat(chunks) == a + later;
      OrderlyAppend(a, later, st.mode, tools);
      ScanAppend(a, later, st.mode, tools);
      var calls := Scan(o.rest + later, o.mode, tools).calls;
      ProperTail(o.calls, calls);
      if o.calls == [] {
        assert [] + calls == calls;
        GuardIsLocal(State(o.rest, o.mode), chunks[1..], begun, pending || o.text != "", tools);
      } else {
        NamedHead(o.calls, calls);
        GuardIsLocal(State(o.rest, o.mode), chunks[1..], true, false, tools);
      }
    }
  }

  lemma {:induction false} NamedHead(calls: seq<Call>, later: seq<Call>)
    requires calls != []
    ensures StartsNamed(calls + later) <==> StartsNamed(calls)
    ensures StartsNamed(calls) <==> !calls[0].name.None?
  {
  }

  lemma {:induction false} ProperCalls(fs: seq<Function>, id: int, tools: Tools)
    requires forall k | 0 <= k < |fs| :: fs[k].name != ""
    ensures ProperNames(CallsOf(fs, id, tools))
    decreases |fs|
  {
    hide FunctionCalls;
    if fs != [] {
      FunctionTail(fs[0], id, tools);
      assert forall k | 0 <= k < |fs| - 1 :: fs[1..][k] == fs[k + 1];
      ProperCalls(fs[1..], id + 1, tools);
    }
  }

  /** Whatever the chunks of a printed document whose bare functions hold no text:
      the client's tool blocks are exactly its functions, in order, if and only if
      no increment carries text in front of a fragment without a name. */
  lemma {:induction false} BlocksAreFunctionsUnlessSplit(d: Document, chunks: seq<string>, tools: Tools)
    requires ValidDocument(d) && AllSilent(d.blocks) && Concat(chunks) == PrintDocument(d)
    requires forall k | 0 <= k < |AllFunctions(d.blocks)| :: AllFunctions(d.blocks)[k].name != ""
    ensures ToolsOf(ClientBlocks(chunks, tools)) == ToolBlocks(AllFunctions(d.blocks), 0, tools) <==>
            !SomeIncrementSplits(InitialState, chunks, tools)
  {
    hide Interrupts, SomeIncrementSplits, Concat, Print, BlocksPieces, Scan, ReadAll, Grouped, Orderly, CallsOf, ProperNames, StartsNamed,
         ToolsOf, ToolBlocks, ClientBlocks, TagFree, WellFormed, ObjectText, ValidBlocks, AllSilent, TextsOf;
    BlocksAreFunctions(d, chunks, tools);
    var ps := BlocksPieces(d.blocks);
    BlocksFit(d.blocks, d.tail);
    BlocksGrouped(d.blocks, InitialMode, tools);
    ReadBlocks(d.blocks, InitialMode, tools);
    OrderlyPieces(ps, d.tail, InitialMode, tools);
    var fs := AllFunctions(d.blocks);
    CallsStartNamed(fs, 0, tools);
    ProperCalls(fs, 0, tools);
    assert InitialState.buffer + Concat(chunks) == Print(ps) + d.tail;
    GuardIsLocal(InitialState, chunks, false, false, tools);
  }

  lemma {:induction false} FeedPiece(p: Piece, m: Mode, tools: Tools)
    requires Fits(p, "")
    ensures Feed(State("", m), PieceText(p), tools) == Read(p, m, tools).(rest := "")
  {
    hide Scan, Read, PieceText;
    ScanPiece(p, "", m, tools);
    ScanStart("", Read(p, m, tools).mode, tools);
    assert PieceText(p) + "" == PieceText(p) == "" + PieceText(p);
    assert Read(p, m, tools).text + "" == Read(p, m, tools).text && Read(p, m, tools).calls + [] == Read(p, m, tools).calls;
  }

  /** Text inside a bare function: no increment carries both, and yet the call is
      split. */
  lemma {:induction false} TextInsideBareFunction(tools: Tools)
    ensures var chunks := ["<function=f>", "x", FUNCTION_END];
            && Interrupts(InitialState, chunks, false, false, tools)
            && !SomeIncrementSplits(InitialState, chunks, tools)
  {
    hide Feed, Scan;
    var c1, c2, c3 := "<function=f>", "x", FUNCTION_END;
    var m := Mode(0, true, 0, false, false, Some("f"));
    FeedPiece(Header("f"), InitialMode, tools);
    assert PieceText(Header("f")) == c1;
    FeedPiece(FunctionEnd, m, tools);
    PlainFeed(m, tools);
    assert [c1, c2, c3][1..] == [c2, c3] && [c2, c3][1..] == [c3] && [c3][1..] == [];
    var o3 := Feed(State("", m), c3, tools);
    assert o3.text == "" && o3.calls == [Call(0, None, "{"), Call(0, None, "}")];
    assert Interrupts(State("", m), [c3], true, true, tools);
    assert Interrupts(State("", m), [c2, c3], true, false, tools);
    assert !SomeIncrementSplits(State("", o3.mode), [], tools);
    assert !SomeIncrementSplits(State("", m), [c3], tools);
    assert !SomeIncrementSplits(State("", m), [c2, c3], tools);
  }

  lemma {:induction false} PlainFeed(m: Mode, tools: Tools)
    requires !m.inside
    ensures Feed(State("", m), "x", tools) == Outcome("", m, "x", [])
  {
    hide Scan;
    PlainText("x", "", m, tools);
    ScanStart("", m, tools);
    assert "x" + "" == "x" == "" + "x";
  }
}
