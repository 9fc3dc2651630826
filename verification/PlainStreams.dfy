/** What a client receives literally: ordinary answers without a tool parser, the
    arguments still missing at the end, and the stop reasons. */
module PlainStreams {
  import opened Wrappers
  import opened AnthropicEvents
  import opened AnthropicGrammar

  /** The output of one sequence without a tool parser: reasoning text, if the
      reasoning parser found any, and ordinary text, possibly empty. */
  datatype Chunk = Chunk(reasoning: Option<string>, text: string, finish: Option<string>)

  /** Empty text is not sent; there are no arguments to complete. */
  function IncrementOf(c: Chunk): Increment {
    Increment(c.reasoning, if c.text == "" then NoText else Plain(c.text), c.finish, None)
  }

  function IncrementsOf(cs: seq<Chunk>): seq<Increment> {
    seq(|cs|, i requires 0 <= i < |cs| => IncrementOf(cs[i]))
  }

  function OutputsOf(css: seq<seq<Chunk>>): seq<Output> {
    seq(|css|, i requires 0 <= i < |css| => Increments(IncrementsOf(css[i]), false, false))
  }

  /** The texts in the order in which they are read: reasoning before text. */
  function Texts(cs: seq<Chunk>): seq<string> {
    if cs == [] then []
    else
      (if cs[0].reasoning.Some? then [cs[0].reasoning.value] else [])
      + (if cs[0].text != "" then [cs[0].text] else [])
      + Texts(cs[1..])
  }

  function AllTexts(css: seq<seq<Chunk>>): seq<string> {
    if css == [] then [] else Texts(css[0]) + AllTexts(css[1..])
  }

  /** One text block with these deltas, or no block at all. */
  function TextTrace(ts: seq<string>): seq<Event> {
    if ts == [] then []
    else [BlockStart(0, TextBlock, "")]
         + seq(|ts|, i requires 0 <= i < |ts| => BlockDelta(0, TextBlock, ts[i]))
         + [BlockStop(0)]
  }

  // ----- Text parts -----

  function TextPartSeq(ts: seq<string>): seq<Part> {
    seq(|ts|, i requires 0 <= i < |ts| => TextPart(ts[i]))
  }

  lemma {:induction false} TextSeqConcat(a: seq<string>, b: seq<string>)
    ensures TextPartSeq(a + b) == TextPartSeq(a) + TextPartSeq(b)
  {
  }

  /** A part that does not open a block becomes a delta of the last one. */
  lemma {:induction false} ExtendLast(bs: seq<ContentBlock>, b: ContentBlock, p: Part)
    requires b.kind == KindOf(p) && NameOf(p) == ""
    ensures AddPart(bs + [b], p) == bs + [b.(deltas := b.deltas + [PayloadOf(p)])]
  {
    assert (bs + [b])[..|bs|] == bs && (bs + [b])[|bs|] == b;
  }

  lemma {:induction false} TextRun(b: ContentBlock, ts: seq<string>)
    requires b.kind == TextBlock
    ensures BlocksOf([b], TextPartSeq(ts)) == [b.(deltas := b.deltas + ts)]
    decreases |ts|
  {
    hide AddPart;
    if ts == [] {
      assert b.deltas + ts == b.deltas;
    } else {
      var b' := b.(deltas := b.deltas + [ts[0]]);
      assert TextPartSeq(ts)[1..] == TextPartSeq(ts[1..]) && TextPartSeq(ts)[0] == TextPart(ts[0]);
      ExtendLast([], b, TextPart(ts[0]));
      assert [] + [b] == [b] && [] + [b'] == [b'];
      TextRun(b', ts[1..]);
      assert b'.deltas + ts[1..] == b.deltas + ts;
    }
  }

  function TextBlocks(ts: seq<string>): seq<ContentBlock> {
    if ts == [] then [] else [ContentBlock(TextBlock, "", ts)]
  }

  lemma {:induction false} TextsBuild(ts: seq<string>)
    ensures BlocksOf([], TextPartSeq(ts)) == TextBlocks(ts)
  {
    if ts != [] {
      assert TextPartSeq(ts)[1..] == TextPartSeq(ts[1..]) && TextPartSeq(ts)[0] == TextPart(ts[0]);
      var b := ContentBlock(TextBlock, "", [ts[0]]);
      assert AddPart([], TextPart(ts[0])) == [b];
      TextRun(b, ts[1..]);
      assert [ts[0]] + ts[1..] == ts;
    }
  }

  lemma {:induction false} ChunkParts(cs: seq<Chunk>)
    ensures AllParts(IncrementsOf(cs)) == TextPartSeq(Texts(cs))
    decreases |cs|
  {
    if cs != [] {
      ChunkParts(cs[1..]);
      assert IncrementsOf(cs)[1..] == IncrementsOf(cs[1..]);
      var c := cs[0];
      var r := if c.reasoning.Some? then [c.reasoning.value] else [];
      var t := if c.text != "" then [c.text] else [];
      assert IncrementParts(IncrementOf(c)) == TextPartSeq(r) + TextPartSeq(t) + [];
      TextSeqConcat(r + t, Texts(cs[1..]));
      TextSeqConcat(r, t);
    }
  }

  lemma {:induction false} OutputsParts(css: seq<seq<Chunk>>)
    ensures RunParts(OutputsOf(css)) == TextPartSeq(AllTexts(css)) && Ongoing(OutputsOf(css))
    decreases |css|
  {
    hide AllParts, IncrementsOf, Texts;
    if css != [] {
      OutputsParts(css[1..]);
      ChunkParts(css[0]);
      assert OutputsOf(css)[1..] == OutputsOf(css[1..]);
    }
  }

  lemma {:induction false} OneBlockClosed(ts: seq<string>)
    requires ts != []
    ensures ClosedBlocks([ContentBlock(TextBlock, "", ts)]) == TextTrace(ts)
  {
    hide Deltas;
    var b := ContentBlock(TextBlock, "", ts);
    assert [b][..0] == [];
    assert Deltas(0, TextBlock, ts) == seq(|ts|, i requires 0 <= i < |ts| => BlockDelta(0, TextBlock, ts[i])) by { DeltasAre(ts); }
    var start, stop := [BlockStart(0, TextBlock, "")], [BlockStop(0)];
    assert [] + (start + Deltas(0, TextBlock, ts)) + stop == start + Deltas(0, TextBlock, ts) + stop;
  }

  lemma {:induction false} DeltasAre(ts: seq<string>)
    ensures Deltas(0, TextBlock, ts) == seq(|ts|, i requires 0 <= i < |ts| => BlockDelta(0, TextBlock, ts[i]))
  {
  }

  lemma {:induction false} TextMessage(ts: seq<string>, reason: string)
    ensures Message(BlocksOf([], TextPartSeq(ts)), reason) ==
            [MessageStart] + TextTrace(ts) + [MessageDelta(reason), MessageStop, Done]
  {
    hide BlocksOf, ClosedBlocks, TextTrace, TextPartSeq;
    TextsBuild(ts);
    if ts == [] {
      NothingClosed();
    } else {
      OneBlockClosed(ts);
    }
  }

  lemma {:induction false} NothingClosed()
    ensures ClosedBlocks([]) == [] && TextTrace([]) == []
  {
  }

  /** The finish reason that counts is that of the last sequence that has one. */
  lemma {:induction false} LastReasonCounts(incs: seq<Increment>, n: nat, reason: string)
    requires n < |incs| && incs[n].finish == Some(reason) && forall k | n < k < |incs| :: incs[k].finish.None?
    ensures forall r :: FinishReason(incs, r) == reason
    decreases |incs|
  {
    var rest := incs[1..];
    assert forall k | 0 <= k < |rest| :: rest[k] == incs[k + 1];
    if n == 0 {
      NoReason(rest, reason);
    } else {
      LastReasonCounts(rest, n - 1, reason);
    }
  }

  lemma {:induction false} NoReason(incs: seq<Increment>, r: string)
    requires forall k | 0 <= k < |incs| :: incs[k].finish.None?
    ensures FinishReason(incs, r) == r
    decreases |incs|
  {
    if incs != [] {
      var rest := incs[1..];
      assert forall k | 0 <= k < |rest| :: rest[k] == incs[k + 1];
      NoReason(rest, r);
    }
  }

  /** Ordinary answers: however the output is divided into callbacks and sequences,
      the client gets one text block whose deltas are exactly the texts, in order,
      reasoning in front of the text it came with; then the stop reason. */
  lemma {:induction false} PlainAnswer(css: seq<seq<Chunk>>, last: seq<Chunk>, n: nat, reason: string)
    requires n < |last| && last[n].finish == Some(reason) && forall k | n < k < |last| :: last[k].finish.None?
    ensures var trace := RunEvents(InitialCursor, OutputsOf(css) + [Increments(IncrementsOf(last), true, false)]);
            var answer := [MessageStart] + TextTrace(AllTexts(css) + Texts(last));
            && (reason == "stop" ==> trace == answer + [MessageDelta("end_turn"), MessageStop, Done])
            && (reason == "length" ==> trace == answer + [MessageDelta("max_tokens"), MessageStop, Done])
            && (reason == "function_call" ==> trace == answer + [MessageDelta("tool_use"), MessageStop, Done])
            && (reason !in {"stop", "length", "function_call"} ==> trace == answer + [MessageDelta("end_turn"), MessageStop, Done])
  {
    hide Message, TextTrace, BlocksOf, RunEvents, RunParts, AllParts, FinishReason, IncrementsOf, AnthropicGrammar.WellFormed, AllTexts, Texts;
    var final := Increments(IncrementsOf(last), true, false);
    PlainRun(css, last, final);
    FinishOf(last, n, reason);
    TextMessage(AllTexts(css) + Texts(last), StopReason(reason));
  }

  lemma {:induction false} FinishOf(last: seq<Chunk>, n: nat, reason: string)
    requires n < |last| && last[n].finish == Some(reason) && forall k | n < k < |last| :: last[k].finish.None?
    ensures FinishReason(IncrementsOf(last), "") == reason
  {
    hide FinishReason;
    LastReasonCounts(IncrementsOf(last), n, reason);
  }

  /** The same for a cancelled request, whose reason is always `stop`. */
  lemma {:induction false} CancelledAnswer(css: seq<seq<Chunk>>, last: seq<Chunk>)
    ensures RunEvents(InitialCursor, OutputsOf(css) + [Increments(IncrementsOf(last), false, true)]) ==
            [MessageStart] + TextTrace(AllTexts(css) + Texts(last)) + [MessageDelta("stop"), MessageStop, Done]
  {
    hide Message, TextTrace, BlocksOf, RunEvents, RunParts, AllParts, FinishReason, IncrementsOf, AnthropicGrammar.WellFormed, AllTexts, Texts;
    PlainRun(css, last, Increments(IncrementsOf(last), false, true));
    TextMessage(AllTexts(css) + Texts(last), "stop");
  }

  lemma {:induction false} PlainRun(css: seq<seq<Chunk>>, last: seq<Chunk>, final: Output)
    requires Ending(final) && final.increments == IncrementsOf(last)
    ensures RunEvents(InitialCursor, OutputsOf(css) + [final]) ==
            Message(BlocksOf([], TextPartSeq(AllTexts(css) + Texts(last))),
                    if final.finished then StopReason(FinishReason(final.increments, "")) else "stop")
  {
    hide Message, BlocksOf, RunEvents, RunParts, AllParts, FinishReason, IncrementsOf, AnthropicGrammar.WellFormed, AllTexts, Texts;
    var os := OutputsOf(css);
    OutputsParts(css);
    ChunkParts(last);
    RunIsMessage(os, final);
    RunPartsSnoc(os, final);
    TextSeqConcat(AllTexts(css), Texts(last));
  }

  // ----- Missing arguments -----

  /** The blocks with one more tool delta at the very end: in the open tool block, or
      in a nameless one behind text. */
  function WithLastArguments(bs: seq<ContentBlock>, args: string): seq<ContentBlock> {
    if bs != [] && bs[|bs| - 1].kind == ToolBlock
    then bs[..|bs| - 1] + [bs[|bs| - 1].(deltas := bs[|bs| - 1].deltas + [args])]
    else bs + [ContentBlock(ToolBlock, "", [args])]
  }

  /** Arguments still missing when the last sequence finishes arrive as the last delta,
      behind everything else the increment carries: the message is the one without
      them, with one more nameless tool delta at its end. */
  lemma {:induction false} MissingArgumentsComeLast(os: seq<Output>, incs: seq<Increment>, inc: Increment, reason: string, args: string)
    returns (bs: seq<ContentBlock>)
    requires Ongoing(os) && inc.finish == Some(reason) && inc.unstreamed == Some(args)
    ensures RunEvents(InitialCursor, os + [Increments(incs + [inc.(unstreamed := None)], true, false)]) == Message(bs, StopReason(reason))
    ensures RunEvents(InitialCursor, os + [Increments(incs + [inc], true, false)]) == Message(WithLastArguments(bs, args), StopReason(reason))
  {
    hide Message, BlocksOf, RunEvents, RunParts, AllParts, FinishReason, AnthropicGrammar.WellFormed;
    var without := inc.(unstreamed := None);
    var o, o' := Increments(incs + [without], true, false), Increments(incs + [inc], true, false);
    RunIsMessage(os, o);
    RunIsMessage(os, o');
    RunPartsSnoc(os, o);
    RunPartsSnoc(os, o');
    AllPartsSnoc(incs, without);
    AllPartsSnoc(incs, inc);
    bs := BlocksOf([], RunParts(os + [o]));
    assert IncrementParts(inc) == IncrementParts(without) + [ToolPart("", args)];
    assert RunParts(os + [o']) == RunParts(os + [o]) + [ToolPart("", args)];
    BlocksOfConcat([], RunParts(os + [o]), [ToolPart("", args)]);
    OnePart(bs, args);
  }

  /** Before a sequence finishes nothing is looked up and nothing is sent for it. */
  lemma {:induction false} NothingMissingBefore(c: Cursor, incs: seq<Increment>, inc: Increment, finished: bool, cancelled: bool)
    requires inc.finish.None?
    ensures OutputEvents(c, Increments(incs + [inc], finished, cancelled)) ==
            OutputEvents(c, Increments(incs + [inc.(unstreamed := None)], finished, cancelled))
  {
    hide PartsEvents, AfterParts, FinishReason;
    AllPartsSnoc(incs, inc);
    AllPartsSnoc(incs, inc.(unstreamed := None));
  }

  lemma {:induction false} OnePart(bs: seq<ContentBlock>, args: string)
    ensures BlocksOf(bs, [ToolPart("", args)]) == WithLastArguments(bs, args)
  {
    assert [ToolPart("", args)][1..] == [];
  }
}
