/** The streaming callback of the Anthropic service, writing to a client
    connection that may break at any write. */
module AnthropicEmitter {
  import opened Wrappers
  import opened QwenScanner
  import opened QwenDetector
  import opened AnthropicEvents

  class Emitter {
    var messageStarted: bool
    var contentBlockIndex: int
    var lastContentBlockType: Option<Kind>

    /** What the client received, and whether the connection is gone. */
    var trace: seq<Event>
    var broken: bool

    ghost function CurrentCursor(): Cursor
      reads this
    {
      Cursor(messageStarted, contentBlockIndex, lastContentBlockType)
    }

    constructor ()
      ensures CurrentCursor() == InitialCursor && trace == [] && !broken
    {
      messageStarted, contentBlockIndex, lastContentBlockType := false, -1, None;
      trace, broken := [], false;
    }

    /** `write`: once it has failed it keeps failing. */
    method Write(e: Event) returns (ok: bool)
      modifies `trace, `broken
      ensures ok == !broken && Delivered(old(trace), old(broken), [e], trace, broken)
    {
      if !broken {
        if * {
          broken := true;
        } else {
          trace := trace + [e];
        }
      }
      ok := !broken;
    }

    /** `start_new_content_block`. */
    method StartNewContentBlock(p: Part) returns (ok: bool)
      modifies this
      ensures messageStarted == old(messageStarted)
      ensures ok == !broken
      ensures ok ==> CurrentCursor() == Cursor(messageStarted, old(contentBlockIndex) + 1, Some(KindOf(p)))
      ensures Delivered(old(trace), old(broken), BlockOpening(old(CurrentCursor()), p), trace, broken)
    {
      ghost var stop := if lastContentBlockType.Some? then [BlockStop(contentBlockIndex)] else [];
      ghost var start := [BlockStart(contentBlockIndex + 1, KindOf(p), NameOf(p))];
      if lastContentBlockType.Some? {
        ok := Write(BlockStop(contentBlockIndex));
        if !ok {
          DeliveredPart(old(trace), old(broken), stop, trace, start);
          return;
        }
      }
      ghost var t, b := trace, broken;
      lastContentBlockType := Some(KindOf(p));
      contentBlockIndex := contentBlockIndex + 1;
      ok := Write(BlockStart(contentBlockIndex, KindOf(p), NameOf(p)));
      DeliveredThen(old(trace), old(broken), stop, t, b, start, trace, broken);
    }

    /** `send_content_block_delta`. */
    method SendContentBlockDelta(p: Part) returns (ok: bool)
      modifies this
      ensures messageStarted == old(messageStarted)
      ensures ok == !broken
      ensures ok ==> CurrentCursor() == AfterPart(old(CurrentCursor()), p)
      ensures Delivered(old(trace), old(broken), PartEvents(old(CurrentCursor()), p), trace, broken)
    {
      ghost var c := CurrentCursor();
      ghost var delta := [BlockDelta(AfterPart(c, p).index, KindOf(p), PayloadOf(p))];
      ghost var opening := if OpensBlock(c, p) then BlockOpening(c, p) else [];
      assert PartEvents(c, p) == opening + delta;
      if lastContentBlockType != Some(KindOf(p)) || (p.ToolPart? && p.name != "") {
        ok := StartNewContentBlock(p);
        if !ok {
          DeliveredPart(old(trace), old(broken), opening, trace, delta);
          return;
        }
      }
      ghost var t, b := trace, broken;
      ok := Write(BlockDelta(contentBlockIndex, KindOf(p), PayloadOf(p)));
      DeliveredThen(old(trace), old(broken), opening, t, b, delta, trace, broken);
    }

    /** A row of deltas, given up at the first failed write. */
    method SendParts(ps: seq<Part>) returns (ok: bool)
      modifies this
      ensures messageStarted == old(messageStarted)
      ensures ok ==> CurrentCursor() == AfterParts(old(CurrentCursor()), ps)
      ensures !ok ==> broken
      ensures Delivered(old(trace), old(broken), PartsEvents(old(CurrentCursor()), ps), trace, broken)
    {
      hide PartEvents, AfterPart;
      ghost var c := CurrentCursor();
      var i := 0;
      ok := true;
      while i < |ps|
        invariant 0 <= i <= |ps|
        invariant messageStarted == old(messageStarted)
        invariant CurrentCursor() == AfterParts(c, ps[..i])
        invariant Delivered(old(trace), old(broken), PartsEvents(c, ps[..i]), trace, broken)
      {
        ghost var t, b := trace, broken;
        ghost var now := CurrentCursor();
        PartsSplit(c, ps, i);
        ok := SendContentBlockDelta(ps[i]);
        DeliveredThen(old(trace), old(broken), PartsEvents(c, ps[..i]), t, b, PartEvents(now, ps[i]), trace, broken);
        if !ok {
          DeliveredPart(old(trace), old(broken), PartsEvents(c, ps[..i + 1]), trace,
                        PartsEvents(AfterParts(c, ps[..i + 1]), ps[i + 1..]));
          return;
        }
        i := i + 1;
      }
      assert ps[..i] == ps;
    }

    /** Two rows of deltas; the second only if the first went out. */
    method SendBoth(ps: seq<Part>, qs: seq<Part>) returns (ok: bool)
      modifies this
      ensures messageStarted == old(messageStarted)
      ensures ok ==> CurrentCursor() == AfterParts(old(CurrentCursor()), ps + qs)
      ensures !ok ==> broken
      ensures Delivered(old(trace), old(broken), PartsEvents(old(CurrentCursor()), ps + qs), trace, broken)
    {
      hide AfterParts, PartsEvents;
      ghost var c := CurrentCursor();
      PartsConcat(c, ps, qs);
      ghost var first, second := PartsEvents(c, ps), PartsEvents(AfterParts(c, ps), qs);
      ok := SendParts(ps);
      if !ok {
        DeliveredPart(old(trace), old(broken), first, trace, second);
        return;
      }
      ghost var t, b := trace, broken;
      ok := SendParts(qs);
      DeliveredThen(old(trace), old(broken), first, t, b, second, trace, broken);
    }

    /** `process_tool_call_stream`: the increment's text goes out before its calls. */
    method ProcessToolCallStream(parser: Detector, tools: Tools, delta: string) returns (ok: bool, ghost seen: Outcome)
      requires parser.Valid()
      modifies this, parser
      ensures parser.Valid()
      ensures seen == Feed(old(parser.CurrentState()), delta, tools)
      ensures parser.CurrentState() == State(seen.rest, seen.mode)
      ensures messageStarted == old(messageStarted)
      ensures ok ==> CurrentCursor() == AfterParts(old(CurrentCursor()), BodyParts(Parsed(seen.text, seen.calls)))
      ensures !ok ==> broken
      ensures Delivered(old(trace), old(broken),
                        PartsEvents(old(CurrentCursor()), BodyParts(Parsed(seen.text, seen.calls))), trace, broken)
    {
      hide AfterParts, PartsEvents, Feed, CallParts;
      var normalText, calls := parser.ParseStreamingIncrement(delta, tools);
      seen := Feed(old(parser.CurrentState()), delta, tools);
      ok := SendBoth(if normalText == "" then [] else [TextPart(normalText)], CallParts(calls));
    }

    /** One sequence output: reasoning text, then its body, then at its end the
        argument text nobody streamed. */
    method SendIncrement(inc: Increment) returns (ok: bool)
      modifies this
      ensures messageStarted == old(messageStarted)
      ensures ok ==> CurrentCursor() == AfterParts(old(CurrentCursor()), IncrementParts(inc))
      ensures !ok ==> broken
      ensures Delivered(old(trace), old(broken), PartsEvents(old(CurrentCursor()), IncrementParts(inc)), trace, broken)
    {
      hide AfterParts, PartsEvents, BodyParts;
      var front := (if inc.reasoning.Some? then [TextPart(inc.reasoning.value)] else []) + BodyParts(inc.body);
      if inc.finish.Some? && inc.unstreamed.Some? {
        ok := SendBoth(front, [ToolPart("", inc.unstreamed.value)]);
      } else {
        assert IncrementParts(inc) == front;
        ok := SendParts(front);
      }
    }

    /** The closing part of `send_delta_to_client`. */
    method CloseMessage(finished: bool, finishReason: string) returns (ok: bool)
      modifies `trace, `broken
      ensures !ok ==> broken
      ensures Delivered(old(trace), old(broken), EndEvents(CurrentCursor(), finished, finishReason), trace, broken)
    {
      var reason := if finished then StopReason(finishReason) else "stop";
      ghost var stop := if contentBlockIndex >= 0 then [BlockStop(contentBlockIndex)] else [];
      ghost var end := [MessageDelta(reason), MessageStop, Done];
      if contentBlockIndex >= 0 {
        ok := Write(BlockStop(contentBlockIndex));
        if !ok {
          DeliveredPart(old(trace), old(broken), stop, trace, end);
          return;
        }
      }
      ok := Write(MessageDelta(reason));
      if !ok {
        return;
      }
      ok := Write(MessageStop);
      if !ok {
        return;
      }
      var _ := Write(Done);
      ok := true;
    }

    /** `send_delta_to_client`. */
    method SendDeltaToClient(incs: seq<Increment>, finished: bool, cancelled: bool) returns (ok: bool)
      modifies this
      ensures messageStarted == old(messageStarted)
      ensures ok ==> CurrentCursor() == AfterParts(old(CurrentCursor()), AllParts(incs))
      ensures !ok ==> broken
      ensures Delivered(old(trace), old(broken),
                        PartsEvents(old(CurrentCursor()), AllParts(incs))
                        + ClosingEvents(AfterParts(old(CurrentCursor()), AllParts(incs)), Increments(incs, finished, cancelled)),
                        trace, broken)
    {
      hide AfterParts, PartsEvents, IncrementParts;
      ghost var c := CurrentCursor();
      ghost var o := Increments(incs, finished, cancelled);
      ghost var body, closing := PartsEvents(c, AllParts(incs)), ClosingEvents(AfterParts(c, AllParts(incs)), o);
      var finishReason := "";
      var i := 0;
      NothingSent(c);
      while i < |incs|
        invariant 0 <= i <= |incs|
        invariant messageStarted == old(messageStarted)
        invariant finishReason == FinishReason(incs[..i], "")
        invariant CurrentCursor() == AfterParts(c, AllParts(incs[..i]))
        invariant Delivered(old(trace), old(broken), PartsEvents(c, AllParts(incs[..i])), trace, broken)
      {
        ghost var t, b := trace, broken;
        ghost var now := CurrentCursor();
        IncrementsSplit(c, incs, i);
        ok := SendIncrement(incs[i]);
        DeliveredThen(old(trace), old(broken), PartsEvents(c, AllParts(incs[..i])), t, b,
                      PartsEvents(now, IncrementParts(incs[i])), trace, broken);
        if !ok {
          ghost var rest := PartsEvents(AfterParts(c, AllParts(incs[..i + 1])), AllParts(incs[i + 1..]));
          DeliveredPart(old(trace), old(broken), PartsEvents(c, AllParts(incs[..i + 1])), trace, rest);
          DeliveredPart(old(trace), old(broken), body, trace, closing);
          return;
        }
        if incs[i].finish.Some? {
          finishReason := incs[i].finish.value;
        }
        i := i + 1;
      }
      assert incs[..i] == incs;
      ok := true;
      ghost var t, b := trace, broken;
      if finished || cancelled {
        ok := CloseMessage(finished, finishReason);
      }
      DeliveredThen(old(trace), old(broken), body, t, b, closing, trace, broken);
    }

    /** The request callback for streaming requests. */
    method OnOutput(o: Output) returns (ok: bool)
      modifies this
      ensures ok ==> CurrentCursor() == AfterOutput(old(CurrentCursor()), o)
      ensures !ok ==> broken
      ensures Delivered(old(trace), old(broken), OutputEvents(old(CurrentCursor()), o), trace, broken)
    {
      hide AfterParts, PartsEvents, ClosingEvents;
      match o
      case StatusError(m) =>
        var _ := Write(ErrorText(m));
        ok := true;
      case Increments(incs, finished, cancelled) =>
        ghost var c := CurrentCursor();
        ghost var start, body := StartEvents(c), PartsEvents(c, AllParts(incs));
        ghost var closing := ClosingEvents(AfterParts(c, AllParts(incs)), o);
        assert OutputEvents(c, o) == start + (body + closing);
        StartedIrrelevant(c, AllParts(incs));
        ClosingIrrelevant(AfterParts(c, AllParts(incs)), o);
        if !messageStarted {
          messageStarted := true;
          ok := Write(MessageStart);
          if !ok {
            DeliveredPart(old(trace), old(broken), start, trace, body + closing);
            return;
          }
        }
        ghost var t, b := trace, broken;
        ok := SendDeltaToClient(incs, finished, cancelled);
        DeliveredThen(old(trace), old(broken), start, t, b, body + closing, trace, broken);
    }
  }

  /** A whole stream: the callback is not called again once it returned false. */
  method Stream(os: seq<Output>) returns (e: Emitter)
    ensures fresh(e)
    ensures e.trace <= RunEvents(InitialCursor, os)
    ensures !e.broken ==> e.trace == RunEvents(InitialCursor, os)
  {
    hide OutputEvents, AfterOutput;
    e := new Emitter();
    ghost var rest := os;
    var i := 0;
    assert os[0..] == os;
    while i < |os|
      invariant 0 <= i <= |os| && fresh(e)
      invariant !e.broken ==> e.trace + RunEvents(e.CurrentCursor(), os[i..]) == RunEvents(InitialCursor, os)
      invariant e.trace <= RunEvents(InitialCursor, os)
    {
      var was := e.broken;
      ghost var t, c := e.trace, e.CurrentCursor();
      var ok := e.OnOutput(os[i]);
      assert os[i..][1..] == os[i + 1..];
      assert !was ==> t + (OutputEvents(c, os[i]) + RunEvents(AfterOutput(c, os[i]), os[i + 1..])) == RunEvents(InitialCursor, os);
      if !ok {
        return;
      }
      i := i + 1;
    }
  }

  lemma {:induction false} NothingSent(c: Cursor)
    ensures PartsEvents(c, []) == [] && AfterParts(c, []) == c && AllParts([]) == []
  {
  }

  lemma {:induction false} IncrementsSplit(c: Cursor, incs: seq<Increment>, i: nat)
    requires i < |incs|
    ensures var c' := AfterParts(c, AllParts(incs[..i]));
            var inc := IncrementParts(incs[i]);
            && PartsEvents(c, AllParts(incs[..i + 1])) == PartsEvents(c, AllParts(incs[..i])) + PartsEvents(c', inc)
            && AfterParts(c, AllParts(incs[..i + 1])) == AfterParts(c', inc)
            && PartsEvents(c, AllParts(incs)) ==
               PartsEvents(c, AllParts(incs[..i + 1])) + PartsEvents(AfterParts(c, AllParts(incs[..i + 1])), AllParts(incs[i + 1..]))
    ensures forall r :: FinishReason(incs[..i + 1], r) ==
                        if incs[i].finish.Some? then incs[i].finish.value else FinishReason(incs[..i], r)
  {
    hide PartsEvents, AfterParts, IncrementParts, FinishReason;
    assert incs[..i + 1] == incs[..i] + [incs[i]];
    AllPartsSnoc(incs[..i], incs[i]);
    PartsConcat(c, AllParts(incs[..i]), IncrementParts(incs[i]));
    assert incs == incs[..i + 1] + incs[i + 1..];
    AllPartsConcat(incs[..i + 1], incs[i + 1..]);
    PartsConcat(c, AllParts(incs[..i + 1]), AllParts(incs[i + 1..]));
  }

  lemma {:induction false} ClosingIrrelevant(c: Cursor, o: Output)
    requires o.Increments?
    ensures ClosingEvents(c.(started := true), o) == ClosingEvents(c, o)
  {
  }

  lemma {:induction false} PartsSplit(c: Cursor, ps: seq<Part>, i: nat)
    requires i < |ps|
    ensures var c' := AfterParts(c, ps[..i]);
            && PartsEvents(c, ps[..i + 1]) == PartsEvents(c, ps[..i]) + PartEvents(c', ps[i])
            && AfterParts(c, ps[..i + 1]) == AfterPart(c', ps[i])
            && PartsEvents(c, ps) == PartsEvents(c, ps[..i + 1]) + PartsEvents(AfterParts(c, ps[..i + 1]), ps[i + 1..])
  {
    hide PartEvents, AfterPart;
    assert ps[..i + 1] == ps[..i] + [ps[i]];
    assert [ps[i]][1..] == [];
    PartsConcat(c, ps[..i], [ps[i]]);
    assert ps == ps[..i + 1] + ps[i + 1..];
    PartsConcat(c, ps[..i + 1], ps[i + 1..]);
  }

  /** The events of parts do not depend on `message_started`. */
  lemma {:induction false} StartedIrrelevant(c: Cursor, ps: seq<Part>)
    ensures PartsEvents(c.(started := true), ps) == PartsEvents(c, ps)
    ensures AfterParts(c.(started := true), ps) == AfterParts(c, ps).(started := true)
    decreases |ps|
  {
    if ps != [] {
      StartedIrrelevant(AfterPart(c, ps[0]), ps[1..]);
    }
  }
}
