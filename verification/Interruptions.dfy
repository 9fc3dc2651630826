/** When the client's tool blocks are exactly the calls: the condition on the
    increments, first for every stream and then for printed documents. */
module Interruptions {
  import opened TextSearch
  import opened QwenScanner
  import opened QwenDocument
  import opened QwenCalls
  import opened AnthropicEvents
  import opened AnthropicGrammar
  import opened PlainStreams
  import opened EndToEnd

  // ----- Parts -----

  /** The tool blocks among the content blocks. */
  function ToolsOf(bs: seq<ContentBlock>): seq<ContentBlock> {
    if bs == [] then []
    else
      var n := |bs| - 1;
      ToolsOf(bs[..n]) + (if bs[n].kind == ToolBlock then [bs[n]] else [])
  }

  function ToolParts(ps: seq<Part>): seq<Part> {
    if ps == [] then [] else (if ps[0].ToolPart? then [ps[0]] else []) + ToolParts(ps[1..])
  }

  /** Some nameless fragment goes out behind text although a fragment went out
      before; `begun` says that one did, `pending` that text is the last thing sent. */
  predicate Broken(begun: bool, pending: bool, ps: seq<Part>)
    decreases |ps|
  {
    ps != [] &&
    if ps[0].TextPart? then Broken(begun, true, ps[1..])
    else (begun && pending && ps[0].name == "") || Broken(true, false, ps[1..])
  }

  predicate EndsInText(bs: seq<ContentBlock>) {
    bs != [] && bs[|bs| - 1].kind == TextBlock
  }

  predicate AllTools(bs: seq<ContentBlock>) {
    forall i | 0 <= i < |bs| :: bs[i].kind == ToolBlock
  }

  lemma {:induction false} ToolsSnoc(bs: seq<ContentBlock>, b: ContentBlock)
    ensures ToolsOf(bs + [b]) == ToolsOf(bs) + (if b.kind == ToolBlock then [b] else [])
  {
    assert (bs + [b])[..|bs|] == bs;
  }

  /** Text does not touch the tool blocks. */
  lemma {:induction false} AddText(bs: seq<ContentBlock>, p: Part)
    requires p.TextPart?
    ensures ToolsOf(AddPart(bs, p)) == ToolsOf(bs) && EndsInText(AddPart(bs, p))
  {
    if bs != [] && bs[|bs| - 1].kind == TextBlock {
      var n := |bs| - 1;
      assert AddPart(bs, p)[..n] == bs[..n];
    } else {
      ToolsSnoc(bs, ContentBlock(TextBlock, "", [p.text]));
    }
  }

  /** A tool part behind text starts a block, and with it one more tool block. */
  lemma {:induction false} AddTool(bs: seq<ContentBlock>, p: Part)
    requires p.ToolPart?
    ensures var bs' := AddPart(bs, p);
            && !EndsInText(bs') && bs' != []
            && (if p.name != "" || bs == [] || EndsInText(bs)
                then ToolsOf(bs') == ToolsOf(bs) + [ContentBlock(ToolBlock, p.name, [p.arguments])]
                else ToolsOf(bs') == AddPart(ToolsOf(bs), p) && |ToolsOf(bs')| == |ToolsOf(bs)| && ToolsOf(bs) != [])
  {
    if p.name != "" || bs == [] || EndsInText(bs) {
      ToolsSnoc(bs, ContentBlock(ToolBlock, p.name, [p.arguments]));
    } else {
      var n := |bs| - 1;
      var b := bs[n].(deltas := bs[n].deltas + [p.arguments]);
      assert bs[..n] + [bs[n]] == bs;
      ToolsSnoc(bs[..n], bs[n]);
      ToolsSnoc(bs[..n], b);
      var ts := ToolsOf(bs[..n]);
      ExtendLast(ts, bs[n], p);
    }
  }

  /** Tool parts alone. */
  lemma {:induction false} AddToolAlone(ts: seq<ContentBlock>, p: Part)
    requires AllTools(ts) && p.ToolPart?
    ensures AllTools(AddPart(ts, p))
    ensures AddPart(ts, p) != []
    ensures p.name != "" || ts == [] ==> AddPart(ts, p) == ts + [ContentBlock(ToolBlock, p.name, [p.arguments])]
    ensures !(p.name != "" || ts == []) ==> |AddPart(ts, p)| == |ts|
  {
  }

  lemma {:induction false} ToolsAreTools(bs: seq<ContentBlock>)
    ensures AllTools(ToolsOf(bs))
    ensures !EndsInText(bs) ==> (bs == [] <==> ToolsOf(bs) == [])
    ensures bs == [] ==> !EndsInText(bs)
    decreases |bs|
  {
    if bs != [] {
      ToolsAreTools(bs[..|bs| - 1]);
    }
  }

  /** Every nameless fragment behind text costs one block more than the calls alone
      would build. */
  lemma {:induction false} BlockCounts(bs: seq<ContentBlock>, ts: seq<ContentBlock>, ps: seq<Part>)
    requires AllTools(ts) && (ToolsOf(bs) == [] <==> ts == [])
    ensures |ToolsOf(BlocksOf(bs, ps))| - |ToolsOf(bs)| >= |BlocksOf(ts, ToolParts(ps))| - |ts|
    ensures |ToolsOf(BlocksOf(bs, ps))| - |ToolsOf(bs)| == |BlocksOf(ts, ToolParts(ps))| - |ts| <==>
            !Broken(ts != [], EndsInText(bs), ps)
    decreases |ps|
  {
    hide AddPart, ToolsOf, EndsInText, AllTools;
    if ps == [] {
      NothingBuilt(bs);
      NothingBuilt(ts);
    } else {
      var p := ps[0];
      if p.TextPart? {
        AddText(bs, p);
        assert ToolParts(ps) == ToolParts(ps[1..]);
        BlockCounts(AddPart(bs, p), ts, ps[1..]);
      } else {
        ToolsAreTools(bs);
        AddTool(bs, p);
        AddToolAlone(ts, p);
        assert ToolParts(ps)[1..] == ToolParts(ps[1..]) && ToolParts(ps)[0] == p;
        BlockCounts(AddPart(bs, p), AddPart(ts, p), ps[1..]);
      }
    }
  }

  /** Without such a fragment the tool blocks are those of the calls alone. */
  lemma {:induction false} UnbrokenBlocks(bs: seq<ContentBlock>, ps: seq<Part>)
    requires !Broken(ToolsOf(bs) != [], EndsInText(bs), ps)
    ensures ToolsOf(BlocksOf(bs, ps)) == BlocksOf(ToolsOf(bs), ToolParts(ps))
    decreases |ps|
  {
    hide AddPart, ToolsOf, EndsInText, AllTools;
    if ps == [] {
      NothingBuilt(bs);
      NothingBuilt(ToolsOf(bs));
    } else {
      var p := ps[0];
      if p.TextPart? {
        AddText(bs, p);
        assert ToolParts(ps) == ToolParts(ps[1..]);
      } else {
        ToolsAreTools(bs);
        AddTool(bs, p);
        AddToolAlone(ToolsOf(bs), p);
        assert ToolParts(ps)[1..] == ToolParts(ps[1..]) && ToolParts(ps)[0] == p;
        assert ToolsOf(AddPart(bs, p)) == AddPart(ToolsOf(bs), p);
      }
      UnbrokenBlocks(AddPart(bs, p), ps[1..]);
    }
  }

  /** Text costs nothing exactly when no fragment is cut off by it. */
  lemma {:induction false} TextIsHarmless(ps: seq<Part>)
    ensures ToolsOf(BlocksOf([], ps)) == BlocksOf([], ToolParts(ps)) <==> !Broken(false, false, ps)
  {
    assert ToolsOf([]) == [];
    BlockCounts([], [], ps);
    if !Broken(false, false, ps) {
      UnbrokenBlocks([], ps);
    }
  }

  // ----- Increments -----

  /** The first fragment of an increment has no name. */
  predicate StartsNameless(calls: seq<Call>) {
    calls != [] && CallPart(calls[0]).name == ""
  }

  /** The guard, increment by increment: a first fragment without a name goes out
      behind text, of its own or of earlier increments, although a fragment went out
      before that text. */
  predicate Interrupts(st: State, chunks: seq<string>, begun: bool, pending: bool, tools: Tools)
    decreases |chunks|
  {
    chunks != [] &&
    var o := Feed(st, chunks[0], tools);
    var st', behind := State(o.rest, o.mode), pending || o.text != "";
    if o.calls == [] then Interrupts(st', chunks[1..], begun, behind, tools)
    else (begun && behind && StartsNameless(o.calls)) || Interrupts(st', chunks[1..], true, false, tools)
  }

  lemma {:induction false} ToolPartsConcat(ps: seq<Part>, qs: seq<Part>)
    ensures ToolParts(ps + qs) == ToolParts(ps) + ToolParts(qs)
    decreases |ps|
  {
    if ps == [] {
      assert ps + qs == qs;
    } else {
      ToolPartsConcat(ps[1..], qs);
      assert (ps + qs)[1..] == ps[1..] + qs && (ps + qs)[0] == ps[0];
    }
  }

  lemma {:induction false} CallPartsCons(calls: seq<Call>)
    requires calls != []
    ensures CallParts(calls) == [CallPart(calls[0])] + CallParts(calls[1..])
  {
  }

  lemma {:induction false} CallsAreTools(calls: seq<Call>)
    ensures ToolParts(CallParts(calls)) == CallParts(calls)
    decreases |calls|
  {
    hide CallParts;
    if calls == [] {
      NoCallParts();
    } else {
      CallPartsCons(calls);
      CallsAreTools(calls[1..]);
      assert ([CallPart(calls[0])] + CallParts(calls[1..]))[1..] == CallParts(calls[1..]);
    }
  }

  lemma {:induction false} BodyTools(text: string, calls: seq<Call>)
    ensures ToolParts(BodyParts(Parsed(text, calls))) == CallParts(calls)
  {
    hide CallParts;
    ToolPartsConcat(TextParts(text), CallParts(calls));
    CallsAreTools(calls);
    assert [TextPart(text)][1..] == [];
    assert [] + CallParts(calls) == CallParts(calls);
  }

  lemma {:induction false} StreamTools(st: State, chunks: seq<string>, tools: Tools)
    ensures ToolParts(StreamParts(st, chunks, tools)) == CallParts(Run(st, chunks, tools).calls)
    decreases |chunks|
  {
    hide Feed, BodyParts, CallParts;
    if chunks == [] {
      NoCallParts();
    } else {
      var o := Feed(st, chunks[0], tools);
      var st' := State(o.rest, o.mode);
      StreamTools(st', chunks[1..], tools);
      BodyTools(o.text, o.calls);
      ToolPartsConcat(BodyParts(Parsed(o.text, o.calls)), StreamParts(st', chunks[1..], tools));
      CallPartsConcat(o.calls, Run(st', chunks[1..], tools).calls);
    }
  }

  /** Only the first of several fragments can be cut off. */
  lemma {:induction false} BrokenCalls(begun: bool, pending: bool, calls: seq<Call>, rest: seq<Part>)
    ensures Broken(begun, pending, CallParts(calls) + rest) <==>
            if calls == [] then Broken(begun, pending, rest)
            else (begun && pending && StartsNameless(calls)) || Broken(true, false, rest)
    decreases |calls|
  {
    hide CallParts;
    if calls == [] {
      NoCallParts();
      assert [] + rest == rest;
    } else {
      CallPartsCons(calls);
      BrokenCalls(true, false, calls[1..], rest);
      var ps := CallParts(calls) + rest;
      assert ps[0] == CallPart(calls[0]) && ps[1..] == CallParts(calls[1..]) + rest;
    }
  }

  lemma {:induction false} BrokenBody(begun: bool, pending: bool, text: string, calls: seq<Call>, rest: seq<Part>)
    ensures var behind := pending || text != "";
            Broken(begun, pending, BodyParts(Parsed(text, calls)) + rest) <==>
            if calls == [] then Broken(begun, behind, rest)
            else (begun && behind && StartsNameless(calls)) || Broken(true, false, rest)
  {
    hide CallParts, Broken;
    var ps := CallParts(calls) + rest;
    BrokenCalls(begun, pending || text != "", calls, rest);
    if text == "" {
      assert BodyParts(Parsed(text, calls)) + rest == ps;
    } else {
      var qs := BodyParts(Parsed(text, calls)) + rest;
      assert qs[0] == TextPart(text) && qs[1..] == ps;
      BrokenText(begun, pending, qs);
    }
  }

  lemma {:induction false} BrokenText(begun: bool, pending: bool, ps: seq<Part>)
    requires ps != [] && ps[0].TextPart?
    ensures Broken(begun, pending, ps) <==> Broken(begun, true, ps[1..])
  {
  }

  lemma {:induction false} BrokenStream(st: State, chunks: seq<string>, begun: bool, pending: bool, tools: Tools)
    ensures Broken(begun, pending, StreamParts(st, chunks, tools)) <==> Interrupts(st, chunks, begun, pending, tools)
    decreases |chunks|
  {
    hide Feed, BodyParts, StartsNameless;
    if chunks != [] {
      hide Broken;
      var o := Feed(st, chunks[0], tools);
      var st' := State(o.rest, o.mode);
      BrokenBody(begun, pending, o.text, o.calls, StreamParts(st', chunks[1..], tools));
      if o.calls == [] {
        BrokenStream(st', chunks[1..], begun, pending || o.text != "", tools);
      } else {
        BrokenStream(st', chunks[1..], true, false, tools);
      }
    }
  }

  /** For every text in every chunks: the client's tool blocks are those the calls
      alone would build if and only if no increment's text cuts off a fragment. */
  lemma {:induction false} CallsKeepTheirBlocks(chunks: seq<string>, tools: Tools)
    ensures ToolsOf(ClientBlocks(chunks, tools)) == BlocksOf([], CallParts(Run(InitialState, chunks, tools).calls)) <==>
            !Interrupts(InitialState, chunks, false, false, tools)
  {
    hide StreamParts, BlocksOf, Broken, Interrupts, CallParts, Run, ToolsOf;
    StreamTools(InitialState, chunks, tools);
    BrokenStream(InitialState, chunks, false, false, tools);
    TextIsHarmless(StreamParts(InitialState, chunks, tools));
  }

  /** The same for a printed document whose functions behind the first have names:
      one block per function, in order, with its name and its complete arguments. */
  lemma {:induction false} BlocksAreFunctions(d: Document, chunks: seq<string>, tools: Tools)
    requires ValidDocument(d) && Concat(chunks) == PrintDocument(d)
    requires forall k | 0 < k < |AllFunctions(d.blocks)| :: AllFunctions(d.blocks)[k].name != ""
    ensures ToolsOf(ClientBlocks(chunks, tools)) == ToolBlocks(AllFunctions(d.blocks), 0, tools) <==>
            !Interrupts(InitialState, chunks, false, false, tools)
    ensures forall k | 0 <= k < |AllFunctions(d.blocks)| ::
              var f, b := AllFunctions(d.blocks)[k], ToolBlocks(AllFunctions(d.blocks), 0, tools)[k];
              b.kind == ToolBlock && b.name == f.name && Concat(b.deltas) == ObjectText(f, tools)
  {
    hide StreamParts, BlocksOf, Interrupts, CallParts, Run, ToolsOf, ValidDocument, PrintDocument, AllFunctions, CallsOf, ObjectText, FunctionCalls,
         Payloads;
    var fs := AllFunctions(d.blocks);
    StreamingInvertsPrinting(d, chunks, tools);
    CallsKeepTheirBlocks(chunks, tools);
    CallBlocks([], fs, 0, tools);
    assert [] + ToolBlocks(fs, 0, tools) == ToolBlocks(fs, 0, tools);
    forall k | 0 <= k < |fs| ensures Concat(ToolBlockOf(fs[k], k, tools).deltas) == ObjectText(fs[k], tools) {
      ToolBlockArguments(fs[k], k, tools);
    }
  }
}
