/** Every run of the callback produces a trace of the message-stream grammar. */
module AnthropicGrammar {
  import opened Wrappers
  import opened AnthropicEvents
  import opened AnthropicEmitter

  /** One content block of a finished message. */
  datatype ContentBlock = ContentBlock(kind: Kind, name: string, deltas: seq<string>)

  function Deltas(index: int, kind: Kind, payloads: seq<string>): seq<Event> {
    seq(|payloads|, i requires 0 <= i < |payloads| => BlockDelta(index, kind, payloads[i]))
  }

  /** A block that has not been stopped yet. */
  function OpenBlock(index: int, b: ContentBlock): seq<Event> {
    [BlockStart(index, b.kind, b.name)] + Deltas(index, b.kind, b.deltas)
  }

  /** Blocks numbered 0, 1, 2, ..., each with its start, its deltas and its stop. */
  function ClosedBlocks(bs: seq<ContentBlock>): seq<Event> {
    if bs == [] then []
    else
      var n := |bs| - 1;
      ClosedBlocks(bs[..n]) + OpenBlock(n, bs[n]) + [BlockStop(n)]
  }

  /** The same with the last block still open. */
  function OpenBlocks(bs: seq<ContentBlock>): seq<Event> {
    if bs == [] then []
    else
      var n := |bs| - 1;
      ClosedBlocks(bs[..n]) + OpenBlock(n, bs[n])
  }

  /** At least one delta each; a text block is unnamed and never follows another. */
  predicate WellFormed(bs: seq<ContentBlock>) {
    && (forall i | 0 <= i < |bs| :: bs[i].deltas != [] && (bs[i].kind == TextBlock ==> bs[i].name == ""))
    && (forall i | 0 < i < |bs| && bs[i].kind == TextBlock :: bs[i - 1].kind == ToolBlock)
  }

  function Message(bs: seq<ContentBlock>, reason: string): seq<Event> {
    [MessageStart] + ClosedBlocks(bs) + [MessageDelta(reason), MessageStop, Done]
  }

  /** The documented event order of a complete message. */
  ghost predicate InGrammar(trace: seq<Event>) {
    exists bs: seq<ContentBlock>, reason: string :: WellFormed(bs) && trace == Message(bs, reason)
  }

  // ----- The blocks a run builds -----

  /** The callback state that goes with the blocks built so far. */
  function CursorOf(started: bool, bs: seq<ContentBlock>): Cursor {
    Cursor(started, |bs| - 1, if bs == [] then None else Some(bs[|bs| - 1].kind))
  }

  function AddPart(bs: seq<ContentBlock>, p: Part): seq<ContentBlock> {
    if OpensBlock(CursorOf(true, bs), p) then bs + [ContentBlock(KindOf(p), NameOf(p), [PayloadOf(p)])]
    else
      var n := |bs| - 1;
      bs[..n] + [bs[n].(deltas := bs[n].deltas + [PayloadOf(p)])]
  }

  function BlocksOf(bs: seq<ContentBlock>, ps: seq<Part>): seq<ContentBlock>
    decreases |ps|
  {
    if ps == [] then bs else BlocksOf(AddPart(bs, ps[0]), ps[1..])
  }

  /** A part that opens a block. */
  lemma {:induction false} NewBlock(bs: seq<ContentBlock>, b: ContentBlock)
    requires |b.deltas| == 1
    ensures OpenBlocks(bs + [b]) ==
            OpenBlocks(bs) + (if bs == [] then [] else [BlockStop(|bs| - 1)])
            + [BlockStart(|bs|, b.kind, b.name), BlockDelta(|bs|, b.kind, b.deltas[0])]
  {
    var n := |bs|;
    assert (bs + [b])[..n] == bs && (bs + [b])[n] == b;
    assert OpenBlock(n, b) == [BlockStart(n, b.kind, b.name), BlockDelta(n, b.kind, b.deltas[0])];
    ClosedIsOpen(bs);
    hide OpenBlock;
  }

  lemma {:induction false} ClosedIsOpen(bs: seq<ContentBlock>)
    ensures ClosedBlocks(bs) == OpenBlocks(bs) + (if bs == [] then [] else [BlockStop(|bs| - 1)])
  {
    hide OpenBlock;
  }

  /** A part that extends the last block. */
  lemma {:induction false} MoreDeltas(bs: seq<ContentBlock>, payload: string)
    requires bs != []
    ensures var n := |bs| - 1;
            OpenBlocks(bs[..n] + [bs[n].(deltas := bs[n].deltas + [payload])]) ==
            OpenBlocks(bs) + [BlockDelta(n, bs[n].kind, payload)]
  {
    hide OpenBlock, ClosedBlocks;
    var n := |bs| - 1;
    var b' := bs[n].(deltas := bs[n].deltas + [payload]);
    assert (bs[..n] + [b'])[..n] == bs[..n];
    OneMoreDelta(n, bs[n], payload);
    assert ClosedBlocks(bs[..n]) + (OpenBlock(n, bs[n]) + [BlockDelta(n, b'.kind, payload)])
        == (ClosedBlocks(bs[..n]) + OpenBlock(n, bs[n])) + [BlockDelta(n, b'.kind, payload)];
  }

  lemma {:induction false} OneMoreDelta(index: int, b: ContentBlock, payload: string)
    ensures OpenBlock(index, b.(deltas := b.deltas + [payload])) == OpenBlock(index, b) + [BlockDelta(index, b.kind, payload)]
  {
  }

  lemma {:induction false} AddPartShape(started: bool, bs: seq<ContentBlock>, p: Part)
    requires WellFormed(bs)
    ensures WellFormed(AddPart(bs, p))
    ensures CursorOf(started, AddPart(bs, p)) == AfterPart(CursorOf(started, bs), p)
  {
  }

  lemma {:induction false} AddPartStep(started: bool, bs: seq<ContentBlock>, p: Part)
    requires WellFormed(bs)
    ensures WellFormed(AddPart(bs, p))
    ensures CursorOf(started, AddPart(bs, p)) == AfterPart(CursorOf(started, bs), p)
    ensures OpenBlocks(AddPart(bs, p)) == OpenBlocks(bs) + PartEvents(CursorOf(started, bs), p)
  {
    hide WellFormed, OpenBlocks;
    AddPartShape(started, bs, p);
    if OpensBlock(CursorOf(started, bs), p) {
      NewBlock(bs, ContentBlock(KindOf(p), NameOf(p), [PayloadOf(p)]));
    } else {
      MoreDeltas(bs, PayloadOf(p));
    }
  }

  /** The emitted events are the rendering of the blocks the parts build. */
  lemma {:induction false} PartsBuildBlocks(started: bool, bs: seq<ContentBlock>, ps: seq<Part>)
    requires WellFormed(bs)
    ensures var c := CursorOf(started, bs); var bs' := BlocksOf(bs, ps);
            && WellFormed(bs')
            && AfterParts(c, ps) == CursorOf(started, bs')
            && OpenBlocks(bs') == OpenBlocks(bs) + PartsEvents(c, ps)
    decreases |ps|
  {
    hide AddPart, PartEvents, AfterPart, WellFormed, OpenBlocks;
    if ps != [] {
      AddPartStep(started, bs, ps[0]);
      PartsBuildBlocks(started, AddPart(bs, ps[0]), ps[1..]);
    }
  }

  // ----- Whole runs -----

  /** Ordinary callbacks, none of them an error and none of them the last one. */
  predicate Ongoing(os: seq<Output>) {
    forall i | 0 <= i < |os| :: os[i].Increments? && !os[i].finished && !os[i].cancelled
  }

  predicate Ending(o: Output) {
    o.Increments? && (o.finished || o.cancelled)
  }

  function RunParts(os: seq<Output>): seq<Part> {
    if os == [] then []
    else (if os[0].Increments? then AllParts(os[0].increments) else []) + RunParts(os[1..])
  }

  lemma {:induction false} BlocksOfConcat(bs: seq<ContentBlock>, ps: seq<Part>, qs: seq<Part>)
    ensures BlocksOf(bs, ps + qs) == BlocksOf(BlocksOf(bs, ps), qs)
    decreases |ps|
  {
    hide AddPart;
    if ps == [] {
      assert ps + qs == qs;
    } else {
      BlocksOfConcat(AddPart(bs, ps[0]), ps[1..], qs);
      assert (ps + qs)[1..] == ps[1..] + qs && (ps + qs)[0] == ps[0];
    }
  }

  function Prologue(started: bool): seq<Event> {
    if started then [MessageStart] else []
  }

  lemma {:induction false} OngoingOutput(started: bool, bs: seq<ContentBlock>, o: Output)
    requires o.Increments? && WellFormed(bs) && (started || bs == [])
    ensures var c := CursorOf(started, bs); var bs' := BlocksOf(bs, AllParts(o.increments));
            && WellFormed(bs')
            && AfterOutput(c, o) == CursorOf(true, bs')
            && Prologue(started) + OpenBlocks(bs) + OutputEvents(c, o) ==
               Prologue(true) + OpenBlocks(bs') + ClosingEvents(CursorOf(true, bs'), o)
  {
    hide WellFormed, OpenBlocks, PartsEvents, AfterParts, BlocksOf, ClosingEvents;
    var c, ps := CursorOf(started, bs), AllParts(o.increments);
    PartsBuildBlocks(started, bs, ps);
    StartedIrrelevant(c, ps);
    ClosingIrrelevant(AfterParts(c, ps), o);
    if !started {
      NoBlocks();
    }
    var soFar, closing := OpenBlocks(bs), ClosingEvents(CursorOf(true, BlocksOf(bs, ps)), o);
    assert Prologue(true) + soFar + (PartsEvents(c, ps) + closing) == Prologue(true) + (soFar + PartsEvents(c, ps)) + closing;
  }

  lemma {:induction false} NoBlocks()
    ensures OpenBlocks([]) == [] && WellFormed([])
  {
  }

  /** An unfinished run: a message start and blocks, the last one open. */
  lemma {:induction false} OngoingRun(started: bool, bs: seq<ContentBlock>, os: seq<Output>)
    requires Ongoing(os) && WellFormed(bs) && (started || bs == [])
    ensures var c := CursorOf(started, bs); var bs' := BlocksOf(bs, RunParts(os));
            && WellFormed(bs')
            && Prologue(started) + OpenBlocks(bs) + RunEvents(c, os) == Prologue(started || os != []) + OpenBlocks(bs')
            && AfterRun(c, os) == CursorOf(started || os != [], bs')
    decreases |os|
  {
    hide WellFormed, OpenBlocks, OutputEvents, AfterOutput, BlocksOf, ClosingEvents, AllParts, Prologue;
    if os == [] {
      NothingBuilt(bs);
    } else {
      var c, bs1 := CursorOf(started, bs), BlocksOf(bs, AllParts(os[0].increments));
      OngoingOutput(started, bs, os[0]);
      NotClosing(CursorOf(true, bs1), os[0]);
      OngoingRun(true, bs1, os[1..]);
      BlocksOfConcat(bs, AllParts(os[0].increments), RunParts(os[1..]));
      RunAppend(Prologue(started) + OpenBlocks(bs), OutputEvents(c, os[0]), Prologue(true) + OpenBlocks(bs1),
                RunEvents(AfterOutput(c, os[0]), os[1..]));
    }
  }

  lemma {:induction false} NotClosing(c: Cursor, o: Output)
    requires o.Increments? && !o.finished && !o.cancelled
    ensures ClosingEvents(c, o) == []
  {
  }

  lemma {:induction false} RunAppend(front: seq<Event>, es: seq<Event>, next: seq<Event>, later: seq<Event>)
    requires front + es == next + []
    ensures front + (es + later) == next + later
  {
    assert front + (es + later) == (front + es) + later;
  }

  lemma {:induction false} NothingBuilt(bs: seq<ContentBlock>)
    ensures BlocksOf(bs, []) == bs
  {
  }

  function AfterRun(c: Cursor, os: seq<Output>): Cursor
    decreases |os|
  {
    if os == [] then c else AfterRun(AfterOutput(c, os[0]), os[1..])
  }

  lemma {:induction false} RunSnoc(c: Cursor, os: seq<Output>, o: Output)
    ensures RunEvents(c, os + [o]) == RunEvents(c, os) + OutputEvents(AfterRun(c, os), o)
    decreases |os|
  {
    hide OutputEvents, AfterOutput;
    if os == [] {
      assert ([] + [o])[1..] == [];
    } else {
      RunSnoc(AfterOutput(c, os[0]), os[1..], o);
      assert (os + [o])[1..] == os[1..] + [o] && (os + [o])[0] == os[0];
      var x, y := OutputEvents(c, os[0]), RunEvents(AfterOutput(c, os[0]), os[1..]);
      var z := OutputEvents(AfterRun(AfterOutput(c, os[0]), os[1..]), o);
      assert x + (y + z) == (x + y) + z;
    }
  }

  lemma {:induction false} RunPartsSnoc(os: seq<Output>, o: Output)
    requires o.Increments?
    ensures RunParts(os + [o]) == RunParts(os) + AllParts(o.increments)
    decreases |os|
  {
    hide AllParts;
    if os == [] {
      assert ([] + [o])[1..] == [];
    } else {
      RunPartsSnoc(os[1..], o);
      assert (os + [o])[1..] == os[1..] + [o] && (os + [o])[0] == os[0];
    }
  }

  /** The whole message of a run that ends with `last`. */
  function RunMessage(os: seq<Output>, last: Output): seq<Event>
    requires last.Increments?
  {
    Message(BlocksOf([], RunParts(os + [last])),
            if last.finished then StopReason(FinishReason(last.increments, "")) else "stop")
  }

  /** Every run that ends finished or cancelled emits a message of the grammar,
      and which one is determined by the content parts alone. */
  lemma {:induction false} RunIsMessage(os: seq<Output>, last: Output)
    requires Ongoing(os) && Ending(last)
    ensures RunEvents(InitialCursor, os + [last]) == RunMessage(os, last)
    ensures WellFormed(BlocksOf([], RunParts(os + [last])))
    ensures InGrammar(RunEvents(InitialCursor, os + [last]))
  {
    hide WellFormed, OpenBlocks, OutputEvents, AfterOutput, BlocksOf, RunEvents, RunParts, ClosedBlocks, FinishReason, ClosingEvents;
    NoBlocks();
    OngoingRun(false, [], os);
    var bs := BlocksOf([], RunParts(os));
    if os == [] { NothingRun(); }
    OngoingOutput(os != [], bs, last);
    RunSnoc(InitialCursor, os, last);
    RunPartsSnoc(os, last);
    BlocksOfConcat([], RunParts(os), AllParts(last.increments));
    assert RunEvents(InitialCursor, os) == Prologue(os != []) + OpenBlocks(bs) by {
      assert Prologue(false) + OpenBlocks([]) + RunEvents(InitialCursor, os) == RunEvents(InitialCursor, os);
    }
    EndOfMessage(BlocksOf(bs, AllParts(last.increments)), last);
  }

  lemma {:induction false} EndOfMessage(bs: seq<ContentBlock>, last: Output)
    requires Ending(last)
    ensures Prologue(true) + OpenBlocks(bs) + ClosingEvents(CursorOf(true, bs), last) ==
            Message(bs, if last.finished then StopReason(FinishReason(last.increments, "")) else "stop")
  {
    hide OpenBlocks, ClosedBlocks, FinishReason;
    ClosedIsOpen(bs);
  }

  lemma {:induction false} NothingRun()
    ensures RunParts([]) == [] && BlocksOf([], []) == []
  {
  }

  /** A run cut short anywhere, by the model or by a broken connection, has sent
      a prefix of some message of the grammar. */
  lemma {:induction false} CutRunIsPrefix(os: seq<Output>, received: seq<Event>)
    requires Ongoing(os) || (os != [] && Ongoing(os[..|os| - 1]) && Ending(os[|os| - 1]))
    requires received <= RunEvents(InitialCursor, os)
    ensures exists full: seq<Event> :: InGrammar(full) && received <= full
  {
    hide InGrammar, OutputEvents;
    if Ongoing(os) {
      var last := Increments([], true, false);
      RunIsMessage(os, last);
      RunSnoc(InitialCursor, os, last);
      var full := RunEvents(InitialCursor, os + [last]);
      assert received <= full;
    } else {
      var n := |os| - 1;
      assert os == os[..n] + [os[n]];
      RunIsMessage(os[..n], os[n]);
    }
  }

  /** An error status ends the stream with its message instead of the closing. */
  lemma {:induction false} ErrorRun(os: seq<Output>, message: string)
    requires Ongoing(os)
    ensures var bs := BlocksOf([], RunParts(os));
            && WellFormed(bs)
            && RunEvents(InitialCursor, os + [StatusError(message)]) ==
               Prologue(os != []) + OpenBlocks(bs) + [ErrorText(message)]
  {
    hide WellFormed, OpenBlocks, BlocksOf, RunEvents, RunParts;
    NoBlocks();
    OngoingRun(false, [], os);
    RunSnoc(InitialCursor, os, StatusError(message));
    assert Prologue(false) + OpenBlocks([]) + RunEvents(InitialCursor, os) == RunEvents(InitialCursor, os);
  }

  /** An error status sends its text and changes nothing for what follows. */
  lemma {:induction false} ErrorIsPassed(c: Cursor, message: string, os: seq<Output>)
    ensures RunEvents(c, [StatusError(message)] + os) == [ErrorText(message)] + RunEvents(c, os)
  {
    assert ([StatusError(message)] + os)[1..] == os;
  }
}
