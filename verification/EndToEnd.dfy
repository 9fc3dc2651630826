/** From the model's text to the client's content blocks: the Qwen3-coder
    scanner feeding the Anthropic emitter. */
module EndToEnd {
  import opened Wrappers
  import opened TextSearch
  import opened QwenScanner
  import opened QwenChunks
  import opened QwenPrinter
  import opened QwenDocument
  import opened QwenCalls
  import opened AnthropicEvents
  import opened AnthropicGrammar
  import opened PlainStreams

  /** The callback of one chunk of text; empty text never reaches the parser. */
  function ChunkOutput(chunk: string, o: Outcome): Output {
    Increments([Increment(None, if chunk == "" then NoText else Parsed(o.text, o.calls), None, None)], false, false)
  }

  function ChunkOutputs(st: State, chunks: seq<string>, tools: Tools): seq<Output>
    decreases |chunks|
  {
    if chunks == [] then []
    else
      var o := Feed(st, chunks[0], tools);
      [ChunkOutput(chunks[0], o)] + ChunkOutputs(State(o.rest, o.mode), chunks[1..], tools)
  }

  /** The last callback: the last chunk, possibly empty, together with the finish
      reason.  This detector never stores arguments for the end-of-stream flush, so
      nothing is missing. */
  function FinalOutput(chunk: string, o: Outcome, reason: string): Output {
    Increments([Increment(None, if chunk == "" then NoText else Parsed(o.text, o.calls), Some(reason), None)], true, false)
  }

  /** What the server hands to the callback for a whole stream. */
  function StreamOutputs(chunks: seq<string>, last: string, reason: string, tools: Tools): seq<Output> {
    var o := Run(InitialState, chunks, tools);
    ChunkOutputs(InitialState, chunks, tools) + [FinalOutput(last, Feed(State(o.rest, o.mode), last, tools), reason)]
  }

  /** The parts the chunks cause, and the pieces of text among them. */
  function StreamParts(st: State, chunks: seq<string>, tools: Tools): seq<Part>
    decreases |chunks|
  {
    if chunks == [] then []
    else
      var o := Feed(st, chunks[0], tools);
      BodyParts(Parsed(o.text, o.calls)) + StreamParts(State(o.rest, o.mode), chunks[1..], tools)
  }

  function TextPieces(st: State, chunks: seq<string>, tools: Tools): seq<string>
    decreases |chunks|
  {
    if chunks == [] then []
    else
      var o := Feed(st, chunks[0], tools);
      (if o.text == "" then [] else [o.text]) + TextPieces(State(o.rest, o.mode), chunks[1..], tools)
  }

  lemma {:induction false} OutputParts(st: State, chunks: seq<string>, tools: Tools)
    requires Stuck(st, tools)
    ensures RunParts(ChunkOutputs(st, chunks, tools)) == StreamParts(st, chunks, tools)
    ensures Ongoing(ChunkOutputs(st, chunks, tools))
    decreases |chunks|
  {
    hide Scan, Feed, ChunkOutput, AllParts, BodyParts;
    if chunks != [] {
      var o := Feed(st, chunks[0], tools);
      assert o == Scan(st.buffer + chunks[0], st.mode, tools) by { FeedIsScan(st, chunks[0], tools); }
      ScanStops(st.buffer + chunks[0], st.mode, tools);
      OutputParts(State(o.rest, o.mode), chunks[1..], tools);
      ChunkOutputParts(st, chunks[0], tools);
    }
  }

  lemma {:induction false} FeedIsScan(st: State, chunk: string, tools: Tools)
    ensures Feed(st, chunk, tools) == Scan(st.buffer + chunk, st.mode, tools)
  {
    hide Scan;
  }

  lemma {:induction false} ChunkOutputParts(st: State, chunk: string, tools: Tools)
    requires Stuck(st, tools)
    ensures var o := Feed(st, chunk, tools); var out := ChunkOutput(chunk, o);
            && out.Increments? && !out.finished && !out.cancelled
            && AllParts(out.increments) == BodyParts(Parsed(o.text, o.calls))
  {
    hide Scan, CallParts;
    if chunk == "" {
      assert st.buffer + "" == st.buffer;
      StuckScan(st, tools);
      NoCallParts();
    }
    assert ChunkOutput(chunk, Feed(st, chunk, tools)).increments[1..] == [];
  }

  lemma {:induction false} NoCallParts()
    ensures CallParts([]) == []
  {
  }

  lemma {:induction false} RunConcat(st: State, a: seq<string>, b: seq<string>, tools: Tools)
    ensures var o := Run(st, a, tools);
            Run(st, a + b, tools) == Run(State(o.rest, o.mode), b, tools).After(o.text, o.calls)
    decreases |a|
  {
    hide Feed;
    if a == [] {
      assert a + b == b;
      AfterNothing(Run(st, b, tools));
    } else {
      var o := Feed(st, a[0], tools);
      var o' := Run(State(o.rest, o.mode), a[1..], tools);
      RunConcat(State(o.rest, o.mode), a[1..], b, tools);
      assert (a + b)[1..] == a[1..] + b && (a + b)[0] == a[0];
      AfterTwice(Run(State(o'.rest, o'.mode), b, tools), o.text, o.calls, o'.text, o'.calls);
    }
  }

  /** Once a call fragment is out, no more text follows. */
  ghost predicate TextFirst(st: State, chunks: seq<string>, tools: Tools) {
    forall n: nat | n <= |chunks| :: TextEndsBefore(st, chunks, n, tools)
  }

  predicate TextEndsBefore(st: State, chunks: seq<string>, n: nat, tools: Tools)
    requires n <= |chunks|
  {
    var o := Run(st, chunks[..n], tools);
    o.calls == [] || Run(State(o.rest, o.mode), chunks[n..], tools).text == ""
  }

  lemma {:induction false} TextFirstTail(st: State, chunks: seq<string>, tools: Tools)
    requires chunks != [] && TextFirst(st, chunks, tools)
    ensures var o := Feed(st, chunks[0], tools); var st' := State(o.rest, o.mode);
            && TextFirst(st', chunks[1..], tools)
            && (o.calls == [] || Run(st', chunks[1..], tools).text == "")
  {
    hide Feed;
    var o := Feed(st, chunks[0], tools);
    var st' := State(o.rest, o.mode);
    forall n: nat | n <= |chunks| - 1 ensures TextEndsBefore(st', chunks[1..], n, tools) {
      assert TextEndsBefore(st, chunks, n + 1, tools);
      assert chunks[..n + 1][1..] == chunks[1..][..n];
      assert chunks[n + 1..] == chunks[1..][n..];
    }
    assert TextEndsBefore(st, chunks, 1, tools);
    assert chunks[..1][1..] == [] && chunks[..1][0] == chunks[0];
    assert Run(st', [], tools) == Outcome(o.rest, o.mode, "", []);
    assert Run(st, chunks[..1], tools) == Outcome(o.rest, o.mode, o.text + "", o.calls + []);
  }

  lemma {:induction false} PiecesConcat(st: State, chunks: seq<string>, tools: Tools)
    ensures Concat(TextPieces(st, chunks, tools)) == Run(st, chunks, tools).text
    ensures forall i | 0 <= i < |TextPieces(st, chunks, tools)| :: TextPieces(st, chunks, tools)[i] != ""
    decreases |chunks|
  {
    hide Feed;
    if chunks != [] {
      var o := Feed(st, chunks[0], tools);
      var later := TextPieces(State(o.rest, o.mode), chunks[1..], tools);
      PiecesConcat(State(o.rest, o.mode), chunks[1..], tools);
      var r := Run(State(o.rest, o.mode), chunks[1..], tools);
      assert Run(st, chunks, tools) == r.After(o.text, o.calls);
      assert TextPieces(st, chunks, tools) == if o.text == "" then later else [o.text] + later by { assert [] + later == later; }
      assert ([o.text] + later)[1..] == later;
      assert "" + r.text == r.text;
    }
  }

  /** Texts before calls: the parts are the text pieces and then all the calls. */
  lemma {:induction false} PartsSorted(st: State, chunks: seq<string>, tools: Tools)
    requires TextFirst(st, chunks, tools)
    ensures StreamParts(st, chunks, tools) ==
            TextPartSeq(TextPieces(st, chunks, tools)) + CallParts(Run(st, chunks, tools).calls)
    decreases |chunks|
  {
    hide Feed, TextFirst;
    if chunks != [] {
      var o := Feed(st, chunks[0], tools);
      var st' := State(o.rest, o.mode);
      TextFirstTail(st, chunks, tools);
      PartsSorted(st', chunks[1..], tools);
      PiecesConcat(st', chunks[1..], tools);
      OneMoreChunk(o.text, o.calls, TextPieces(st', chunks[1..], tools), Run(st', chunks[1..], tools).calls);
    } else {
      NoCallParts();
    }
  }

  lemma {:induction false} OneMoreChunk(text: string, calls: seq<Call>, later: seq<string>, laterCalls: seq<Call>)
    requires calls == [] || Concat(later) == ""
    requires forall i | 0 <= i < |later| :: later[i] != ""
    ensures BodyParts(Parsed(text, calls)) + (TextPartSeq(later) + CallParts(laterCalls)) ==
            TextPartSeq((if text == "" then [] else [text]) + later) + CallParts(calls + laterCalls)
  {
    var pieces := if text == "" then [] else [text];
    assert TextParts(text) == TextPartSeq(pieces);
    TextSeqConcat(pieces, later);
    CallPartsConcat(calls, laterCalls);
    NoCallParts();
    assert calls != [] ==> later == [] && TextPartSeq(later) == [];
    Shuffle(TextPartSeq(pieces), CallParts(calls), TextPartSeq(later), CallParts(laterCalls));
  }

  lemma {:induction false} Shuffle(a: seq<Part>, b: seq<Part>, c: seq<Part>, d: seq<Part>)
    requires b == [] || c == []
    ensures (a + b) + (c + d) == (a + c) + (b + d)
  {
  }

  // ----- Rendered outputs emit their text first -----

  /** A part of the stream either has shown no call yet or has shown all the text. */
  lemma {:induction false} PrefixOfRendered(lead: string, uses: seq<ToolUse>, p: string, tools: Tools)
    requires TagFree(lead) && p <= lead + Render(uses)
    ensures var o := Scan(p, InitialMode, tools); o.calls == [] || lead <= o.text
  {
    hide Scan, TagFree, Render;
    if |p| <= |lead| {
      assert p == (lead + Render(uses))[..|p|] == lead[0..|p|];
      TagFreeSlice(lead, 0, |p|);
      TagFreeText(p, InitialMode, tools);
    } else {
      var q := p[|lead|..];
      assert p == lead + q by { assert p[..|lead|] == (lead + Render(uses))[..|lead|] == lead; }
      RenderedHead(uses);
      assert q[0] == (lead + Render(uses))[|lead|] == Render(uses)[0];
      ScanText(lead, q, InitialMode, tools);
    }
  }

  lemma {:induction false} RenderedHead(uses: seq<ToolUse>)
    ensures Render(uses) == "" || Render(uses)[0] == '<'
  {
  }

  lemma {:induction false} RenderedTextFirst(lead: string, uses: seq<ToolUse>, chunks: seq<string>, tools: Tools)
    requires TagFree(lead) && (forall k | 0 <= k < |uses| :: Printable(uses[k])) && uses != []
    requires Concat(chunks) == lead + Render(uses)
    ensures TextFirst(InitialState, chunks, tools)
  {
    hide TagFree, Render, Run, Scan, Printable, NamesOf, ArgumentsOf, ArgsObject;
    CallsRoundTrip(lead, uses, chunks, 0, tools);
    forall n: nat | n <= |chunks| ensures TextEndsBefore(InitialState, chunks, n, tools) {
      var a, b := chunks[..n], chunks[n..];
      assert chunks == a + b;
      ConcatAppend(a, b);
      ChunkInvariance(InitialState, a, tools);
      assert InitialState.buffer + Concat(a) == Concat(a);
      PrefixOfRendered(lead, uses, Concat(a), tools);
      RunConcat(InitialState, a, b, tools);
    }
  }

  // ----- Blocks per call -----

  function Payloads(calls: seq<Call>): seq<string> {
    seq(|calls|, i requires 0 <= i < |calls| => calls[i].parameters)
  }

  /** Nameless fragments extend the open tool block. */
  lemma {:induction false} NamelessCalls(bs: seq<ContentBlock>, b: ContentBlock, calls: seq<Call>)
    requires b.kind == ToolBlock && forall i | 0 <= i < |calls| :: calls[i].name.None?
    ensures BlocksOf(bs + [b], CallParts(calls)) == bs + [b.(deltas := b.deltas + Payloads(calls))]
    decreases |calls|
  {
    hide AddPart;
    if calls == [] {
      assert b.deltas + Payloads(calls) == b.deltas;
    } else {
      var b' := b.(deltas := b.deltas + [calls[0].parameters]);
      assert CallParts(calls)[1..] == CallParts(calls[1..]) && CallParts(calls)[0] == CallPart(calls[0]);
      ExtendLast(bs, b, CallPart(calls[0]));
      NamelessCalls(bs, b', calls[1..]);
      assert [calls[0].parameters] + Payloads(calls[1..]) == Payloads(calls);
      assert b'.deltas + Payloads(calls[1..]) == b.deltas + Payloads(calls);
    }
  }

  /** The tool block of one call. */
  function ToolBlockOf(f: Function, id: int, tools: Tools): ContentBlock {
    ContentBlock(ToolBlock, f.name, Payloads(FunctionCalls(f, id, tools)))
  }

  predicate EndsInTool(bs: seq<ContentBlock>) {
    bs != [] && bs[|bs| - 1].kind == ToolBlock
  }

  lemma {:induction false} NamelessMembers(ps: seq<Param>, func: string, k: nat, id: int, tools: Tools)
    ensures forall i | 0 <= i < |MemberCalls(ps, func, k, id, tools)| ::
              MemberCalls(ps, func, k, id, tools)[i].name.None? && MemberCalls(ps, func, k, id, tools)[i].toolIndex == id
    decreases |ps|
  {
    hide Member;
    if ps != [] {
      NamelessMembers(ps[1..], func, k + 1, id, tools);
    }
  }

  lemma {:induction false} FunctionTail(f: Function, id: int, tools: Tools)
    ensures var calls := FunctionCalls(f, id, tools);
            && calls != [] && calls[0] == Call(id, Some(f.name), "")
            && (forall i | 0 <= i < |calls| :: calls[i].toolIndex == id)
            && (forall i | 0 < i < |calls| :: calls[i].name.None?)
  {
    hide MemberCalls;
    NamelessMembers(f.params, f.name, 0, id, tools);
  }

  /** A named call, or one behind text, gets a block of its own; a nameless one
      behind a tool block disappears into it. */
  lemma {:induction false} FunctionBlock(bs: seq<ContentBlock>, f: Function, id: int, tools: Tools)
    ensures var bs' := BlocksOf(bs, CallParts(FunctionCalls(f, id, tools)));
            && EndsInTool(bs')
            && (if f.name != "" || !EndsInTool(bs) then bs' == bs + [ToolBlockOf(f, id, tools)] else |bs'| == |bs|)
  {
    hide FunctionCalls;
    var calls := FunctionCalls(f, id, tools);
    FunctionTail(f, id, tools);
    var rest := calls[1..];
    assert forall i | 0 <= i < |rest| :: rest[i] == calls[i + 1];
    assert CallParts(calls)[1..] == CallParts(rest) && CallParts(calls)[0] == CallPart(calls[0]);
    assert Payloads(calls) == [""] + Payloads(rest);
    if f.name != "" || !EndsInTool(bs) {
      var b := ContentBlock(ToolBlock, f.name, [""]);
      assert AddPart(bs, CallPart(calls[0])) == bs + [b];
      NamelessCalls(bs, b, rest);
    } else {
      var n := |bs| - 1;
      var b := bs[n].(deltas := bs[n].deltas + [""]);
      assert AddPart(bs, CallPart(calls[0])) == bs[..n] + [b];
      NamelessCalls(bs[..n], b, rest);
    }
  }

  function ToolBlocks(fs: seq<Function>, id: int, tools: Tools): seq<ContentBlock> {
    seq(|fs|, i requires 0 <= i < |fs| => ToolBlockOf(fs[i], id + i, tools))
  }

  lemma {:induction false} CallPartsConcat(a: seq<Call>, b: seq<Call>)
    ensures CallParts(a + b) == CallParts(a) + CallParts(b)
  {
  }

  /** One block per call, in order, exactly when every call behind another tool
      block has a name. */
  lemma {:induction false} CallBlocks(bs: seq<ContentBlock>, fs: seq<Function>, id: int, tools: Tools)
    ensures var bs' := BlocksOf(bs, CallParts(CallsOf(fs, id, tools)));
            var named := (forall k | 0 < k < |fs| :: fs[k].name != "") && (fs == [] || fs[0].name != "" || !EndsInTool(bs));
            && |bs'| <= |bs| + |fs|
            && (named <==> |bs'| == |bs| + |fs|)
            && (named ==> bs' == bs + ToolBlocks(fs, id, tools))
    decreases |fs|
  {
    hide FunctionCalls, BlocksOf, ToolBlockOf, CallParts;
    if fs == [] {
      NoCallParts();
      NothingBuilt(bs);
    } else {
      var first, later := FunctionCalls(fs[0], id, tools), CallsOf(fs[1..], id + 1, tools);
      CallPartsConcat(first, later);
      BlocksOfConcat(bs, CallParts(first), CallParts(later));
      FunctionBlock(bs, fs[0], id, tools);
      var bs1 := BlocksOf(bs, CallParts(first));
      CallBlocks(bs1, fs[1..], id + 1, tools);
      var tail := fs[1..];
      assert (forall k | 0 < k < |fs| :: fs[k].name != "") <==> (forall k | 0 <= k < |tail| :: tail[k].name != "") by {
        assert forall k | 0 <= k < |tail| :: tail[k] == fs[k + 1];
        assert forall k | 0 < k < |fs| :: fs[k] == tail[k - 1];
      }
      assert [ToolBlockOf(fs[0], id, tools)] + ToolBlocks(tail, id + 1, tools) == ToolBlocks(fs, id, tools);
    }
  }

  lemma {:induction false} PayloadConcat(calls: seq<Call>, id: int)
    requires forall i | 0 <= i < |calls| :: calls[i].toolIndex == id
    ensures Concat(Payloads(calls)) == ArgumentsOf(calls, id)
    decreases |calls|
  {
    if calls != [] {
      PayloadConcat(calls[1..], id);
      assert Payloads(calls)[1..] == Payloads(calls[1..]) && Payloads(calls)[0] == calls[0].parameters;
    }
  }

  lemma {:induction false} ToolBlockArguments(f: Function, id: int, tools: Tools)
    ensures Concat(ToolBlockOf(f, id, tools).deltas) == ObjectText(f, tools)
  {
    hide FunctionCalls, ObjectText;
    FunctionTail(f, id, tools);
    PayloadConcat(FunctionCalls(f, id, tools), id);
    FunctionArguments(f, id, id, tools);
  }

  // ----- The end-to-end theorem -----

  /** The content blocks the client sees for a stream of chunks. */
  function ClientBlocks(chunks: seq<string>, tools: Tools): seq<ContentBlock> {
    BlocksOf([], StreamParts(InitialState, chunks, tools))
  }

  /** One more chunk adds its own parts. */
  lemma {:induction false} PartsSnoc(st: State, chunks: seq<string>, last: string, tools: Tools)
    requires Stuck(st, tools)
    ensures var r := Run(st, chunks, tools); var o := Feed(State(r.rest, r.mode), last, tools);
            && StreamParts(st, chunks + [last], tools) == StreamParts(st, chunks, tools) + BodyParts(Parsed(o.text, o.calls))
            && Stuck(State(r.rest, r.mode), tools)
    decreases |chunks|
  {
    hide Scan, Feed, BodyParts, Stuck;
    if chunks == [] {
      assert ([] + [last])[1..] == [];
      var o := Feed(st, last, tools);
      assert StreamParts(State(o.rest, o.mode), [], tools) == [];
      assert [] + BodyParts(Parsed(o.text, o.calls)) == BodyParts(Parsed(o.text, o.calls)) + [];
      assert ([] + [last])[0] == last;
    } else {
      var o := Feed(st, chunks[0], tools);
      FeedIsScan(st, chunks[0], tools);
      ScanStops(st.buffer + chunks[0], st.mode, tools);
      PartsSnoc(State(o.rest, o.mode), chunks[1..], last, tools);
      assert (chunks + [last])[1..] == chunks[1..] + [last] && (chunks + [last])[0] == chunks[0];
    }
  }

  lemma {:induction false} FinalParts(st: State, chunk: string, reason: string, tools: Tools)
    requires Stuck(st, tools)
    ensures var o := Feed(st, chunk, tools); var out := FinalOutput(chunk, o, reason);
            && Ending(out) && out.finished && FinishReason(out.increments, "") == reason
            && AllParts(out.increments) == BodyParts(Parsed(o.text, o.calls))
  {
    hide Scan, CallParts;
    if chunk == "" {
      assert st.buffer + "" == st.buffer;
      StuckScan(st, tools);
      NoCallParts();
    }
    assert FinalOutput(chunk, Feed(st, chunk, tools), reason).increments[1..] == [];
  }

  /** What is sent for a stream is the message of its client blocks. */
  lemma {:induction false} StreamIsMessage(chunks: seq<string>, last: string, reason: string, tools: Tools)
    ensures RunEvents(InitialCursor, StreamOutputs(chunks, last, reason, tools)) ==
            Message(ClientBlocks(chunks + [last], tools), StopReason(reason))
    ensures AnthropicGrammar.WellFormed(ClientBlocks(chunks + [last], tools))
  {
    hide ChunkOutputs, StreamParts, BlocksOf, RunParts, RunEvents, AnthropicGrammar.WellFormed, Message, Run, Feed, FinalOutput,
         BodyParts, AllParts, FinishReason;
    var os := ChunkOutputs(InitialState, chunks, tools);
    var r := Run(InitialState, chunks, tools);
    var st := State(r.rest, r.mode);
    var final := FinalOutput(last, Feed(st, last, tools), reason);
    OutputParts(InitialState, chunks, tools);
    PartsSnoc(InitialState, chunks, last, tools);
    FinalParts(st, last, reason, tools);
    RunIsMessage(os, final);
    RunPartsSnoc(os, final);
  }

  /** Rendered calls behind a leading text, in any chunks: one text block carrying
      the lead (if any), then one tool block per call in order, carrying its name
      and, in its deltas, its complete JSON arguments. */
  lemma {:induction false} ToolBlocksMatchCalls(lead: string, uses: seq<ToolUse>, chunks: seq<string>, tools: Tools)
    requires TagFree(lead) && (forall k | 0 <= k < |uses| :: Printable(uses[k])) && uses != []
    requires Concat(chunks) == lead + Render(uses)
    requires forall k | 0 < k < |uses| :: uses[k].name != ""
    ensures var blocks := ClientBlocks(chunks, tools);
            var n := if lead == "" then 0 else 1;
            && |blocks| == n + |uses|
            && (lead != "" ==> blocks[0].kind == TextBlock && Concat(blocks[0].deltas) == lead)
            && forall k | 0 <= k < |uses| ::
                 && blocks[n + k].kind == ToolBlock
                 && blocks[n + k].name == uses[k].name
                 && Concat(blocks[n + k].deltas) == ArgsObject(uses[k], tools)
  {
    hide TagFree, Render, Printable, ArgsObject, Run, StreamParts, TextPieces, CallsOf, BlocksOf, AllFunctions, FunctionFor, TextPartSeq, CallParts;
    var ts, fs := RenderedBlocks(lead, uses, chunks, tools);
    TextCount(ts, lead);
    CallBlocks(TextBlocks(ts), fs, 0, tools);
    forall k | 0 <= k < |uses|
      ensures var b := ToolBlockOf(fs[k], k, tools);
              b.kind == ToolBlock && b.name == uses[k].name && Concat(b.deltas) == ArgsObject(uses[k], tools)
    {
      NameFor(uses[k]);
      ToolBlockArguments(fs[k], k, tools);
      ObjectFor(uses[k], tools);
    }
    forall k | 0 < k < |fs| ensures fs[k].name != "" { NameFor(uses[k]); }
  }

  /** Some call behind the first has no name: then a block is missing. */
  lemma {:induction false} BlocksPerCall(lead: string, uses: seq<ToolUse>, chunks: seq<string>, tools: Tools)
    requires TagFree(lead) && (forall k | 0 <= k < |uses| :: Printable(uses[k])) && uses != []
    requires Concat(chunks) == lead + Render(uses)
    ensures |ClientBlocks(chunks, tools)| == (if lead == "" then 0 else 1) + |uses| <==>
            forall k | 0 < k < |uses| :: uses[k].name != ""
  {
    hide TagFree, Render, Printable, Run, StreamParts, TextPieces, CallsOf, BlocksOf, AllFunctions, FunctionFor, TextPartSeq, CallParts;
    var ts, fs := RenderedBlocks(lead, uses, chunks, tools);
    TextCount(ts, lead);
    CallBlocks(TextBlocks(ts), fs, 0, tools);
    forall k | 0 <= k < |fs| ensures fs[k].name == uses[k].name { NameFor(uses[k]); }
  }

  lemma {:induction false} TextCount(ts: seq<string>, lead: string)
    requires Concat(ts) == lead && forall i | 0 <= i < |ts| :: ts[i] != ""
    ensures |TextBlocks(ts)| == (if lead == "" then 0 else 1) && !EndsInTool(TextBlocks(ts))
  {
  }

  /** The client blocks of a rendered output: its text pieces, then its calls. */
  lemma {:induction false} RenderedBlocks(lead: string, uses: seq<ToolUse>, chunks: seq<string>, tools: Tools)
    returns (ts: seq<string>, fs: seq<Function>)
    requires TagFree(lead) && (forall k | 0 <= k < |uses| :: Printable(uses[k])) && uses != []
    requires Concat(chunks) == lead + Render(uses)
    ensures fs == FunctionsFor(uses)
    ensures Concat(ts) == lead && forall i | 0 <= i < |ts| :: ts[i] != ""
    ensures ClientBlocks(chunks, tools) == BlocksOf(TextBlocks(ts), CallParts(CallsOf(fs, 0, tools)))
  {
    hide TagFree, Render, Printable, Run, StreamParts, TextPieces, CallsOf, BlocksOf, AllFunctions, TextsOf, FunctionFor, NamesOf, ArgumentsOf,
         PrintDocument, DocumentFor, ValidDocument;
    var d := DocumentFor(lead, uses);
    BlocksForValid(lead, uses);
    PrintDocumentFor(lead, uses);
    StreamingInvertsPrinting(d, chunks, tools);
    fs := AllFunctions(d.blocks);
    CallsRoundTrip(lead, uses, chunks, 0, tools);
    RenderedTextFirst(lead, uses, chunks, tools);
    PartsSorted(InitialState, chunks, tools);
    PiecesConcat(InitialState, chunks, tools);
    ts := TextPieces(InitialState, chunks, tools);
    assert Concat(ts) == lead by { assert lead + "" == lead; }
    TextsBuild(ts);
    BlocksOfConcat([], TextPartSeq(ts), CallParts(CallsOf(fs, 0, tools)));
  }

  /** Text behind a call breaks the correspondence: an increment's text is sent
      before its fragments, so the end of a call that arrives together with later
      text lands in a second, nameless tool block. */
  lemma {:induction false} TextBehindCallSplitsIt(tools: Tools)
    ensures var chunks := [CALL_START + (FUNCTION_PREFIX + "f" + ">"), FUNCTION_END + CALL_END + "x"];
            ClientBlocks(chunks, tools) ==
            [ContentBlock(ToolBlock, "f", [""]), ContentBlock(TextBlock, "", ["x"]), ContentBlock(ToolBlock, "", ["{", "}"])]
  {
    hide Scan;
    var c1, c2 := CALL_START + (FUNCTION_PREFIX + "f" + ">"), FUNCTION_END + CALL_END + "x";
    var m := Mode(0, true, 0, false, true, Some("f"));
    HeaderOnly(tools);
    EndAndText(m, tools);
    assert InitialState.buffer + c1 == c1 && "" + c2 == c2;
    assert [c1, c2][1..] == [c2] && [c2][1..] == [];
    var st := State("", m);
    var first, second := Feed(InitialState, c1, tools), Feed(st, c2, tools);
    assert first == Outcome("", m, "", [Call(0, Some("f"), "")]);
    assert second.text == "x" && second.calls == [Call(0, None, "{"), Call(0, None, "}")];
    hide Feed;
    assert StreamParts(State(second.rest, second.mode), [], tools) == [];
    assert StreamParts(st, [c2], tools) == BodyParts(Parsed(second.text, second.calls)) + [];
    assert StreamParts(InitialState, [c1, c2], tools) == BodyParts(Parsed("", first.calls)) + StreamParts(st, [c2], tools);
    var parts := [ToolPart("f", ""), TextPart("x"), ToolPart("", "{"), ToolPart("", "}")];
    assert StreamParts(InitialState, [c1, c2], tools) == parts;
    FourParts();
  }

  lemma {:induction false} FourParts()
    ensures BlocksOf([], [ToolPart("f", ""), TextPart("x"), ToolPart("", "{"), ToolPart("", "}")]) ==
            [ContentBlock(ToolBlock, "f", [""]), ContentBlock(TextBlock, "", ["x"]), ContentBlock(ToolBlock, "", ["{", "}"])]
  {
    var p1, p2, p3, p4 := ToolPart("f", ""), TextPart("x"), ToolPart("", "{"), ToolPart("", "}");
    assert [p1, p2, p3, p4][1..] == [p2, p3, p4] && [p2, p3, p4][1..] == [p3, p4] && [p3, p4][1..] == [p4] && [p4][1..] == [];
    var b1, b2, b3 := ContentBlock(ToolBlock, "f", [""]), ContentBlock(TextBlock, "", ["x"]), ContentBlock(ToolBlock, "", ["{"]);
    var b3' := b3.(deltas := ["{", "}"]);
    assert AddPart([], p1) == [b1];
    assert AddPart([b1], p2) == [b1, b2];
    assert AddPart([b1, b2], p3) == [b1, b2, b3];
    ExtendLast([b1, b2], b3, p4);
    assert b3.deltas + ["}"] == b3'.deltas;
    assert [b1, b2] + [b3] == [b1, b2, b3] && [b1, b2] + [b3'] == [b1, b2, b3'];
    hide AddPart;
    NothingBuilt([b1, b2, b3']);
    assert BlocksOf([b1, b2, b3], [p4]) == [b1, b2, b3'];
    assert BlocksOf([b1, b2], [p3, p4]) == BlocksOf([b1, b2, b3], [p4]);
    assert BlocksOf([b1], [p2, p3, p4]) == BlocksOf([b1, b2], [p3, p4]);
    assert BlocksOf([], [p1, p2, p3, p4]) == BlocksOf([b1], [p2, p3, p4]);
  }

  lemma {:induction false} HeaderOnly(tools: Tools)
    ensures Scan(CALL_START + (FUNCTION_PREFIX + "f" + ">"), InitialMode, tools) ==
            Outcome("", Mode(0, true, 0, false, true, Some("f")), "", [Call(0, Some("f"), "")])
  {
    hide Scan, Next;
    TwoPieces(CallStart, Header("f"), "");
    assert Print([CallStart, Header("f")]) + "" == CALL_START + (FUNCTION_PREFIX + "f" + ">");
    ScanPieces([CallStart, Header("f")], "", InitialMode, tools);
    ReadTwo(CallStart, Header("f"), InitialMode, tools);
    ScanStart("", Mode(0, true, 0, false, true, Some("f")), tools);
  }

  lemma {:induction false} EndAndText(m: Mode, tools: Tools)
    requires m == Mode(0, true, 0, false, true, Some("f"))
    ensures var o := Scan(FUNCTION_END + CALL_END + "x", m, tools);
            o.text == "x" && o.calls == [Call(0, None, "{"), Call(0, None, "}")]
  {
    hide Scan, Next;
    TwoPieces(FunctionEnd, CallEnd, "x");
    ScanPieces([FunctionEnd, CallEnd], "x", m, tools);
    ReadTwo(FunctionEnd, CallEnd, m, tools);
    var m' := ReadAll([FunctionEnd, CallEnd], m, tools).mode;
    ScanStart("", m', tools);
    PlainText("x", "", m', tools);
    assert "x" + "" == "x";
  }
}
