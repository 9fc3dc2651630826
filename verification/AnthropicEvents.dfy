/** The event stream of the Anthropic message API and the emitter's meaning.

    `PartEvents` says which events one piece of content causes; `BlocksOf` is the
    independent view of the same run as a list of content blocks. */
module AnthropicEvents {
  import opened Wrappers
  import opened QwenScanner

  datatype Kind = TextBlock | ToolBlock

  datatype Event =
    | MessageStart
    | BlockStart(index: int, kind: Kind, name: string)
    | BlockDelta(index: int, kind: Kind, payload: string)
    | BlockStop(index: int)
    | MessageDelta(stopReason: string)
    | MessageStop
    | Done
    | ErrorText(message: string)

  /** One call of `send_content_block_delta`; an empty name means no name. */
  datatype Part = TextPart(text: string) | ToolPart(name: string, arguments: string)

  function KindOf(p: Part): Kind {
    if p.TextPart? then TextBlock else ToolBlock
  }

  function NameOf(p: Part): string {
    if p.TextPart? then "" else p.name
  }

  function PayloadOf(p: Part): string {
    if p.TextPart? then p.text else p.arguments
  }

  /** The callback state: `message_started`, `content_block_index` and
      `last_content_block_type`, `None` standing for the empty string. */
  datatype Cursor = Cursor(started: bool, index: int, last: Option<Kind>)

  const InitialCursor := Cursor(false, -1, None)

  /** Does this part open a new content block? */
  predicate OpensBlock(c: Cursor, p: Part) {
    c.last != Some(KindOf(p)) || (p.ToolPart? && p.name != "")
  }

  /** Ends the current block, if any, and starts the next one. */
  function BlockOpening(c: Cursor, p: Part): seq<Event> {
    (if c.last.Some? then [BlockStop(c.index)] else []) + [BlockStart(c.index + 1, KindOf(p), NameOf(p))]
  }

  function PartEvents(c: Cursor, p: Part): seq<Event> {
    if OpensBlock(c, p) then BlockOpening(c, p) + [BlockDelta(c.index + 1, KindOf(p), PayloadOf(p))]
    else [BlockDelta(c.index, KindOf(p), PayloadOf(p))]
  }

  function AfterPart(c: Cursor, p: Part): Cursor {
    if OpensBlock(c, p) then Cursor(c.started, c.index + 1, Some(KindOf(p))) else c
  }

  function PartsEvents(c: Cursor, ps: seq<Part>): seq<Event>
    decreases |ps|
  {
    if ps == [] then [] else PartEvents(c, ps[0]) + PartsEvents(AfterPart(c, ps[0]), ps[1..])
  }

  function AfterParts(c: Cursor, ps: seq<Part>): Cursor
    decreases |ps|
  {
    if ps == [] then c else AfterParts(AfterPart(c, ps[0]), ps[1..])
  }

  // ----- What a callback carries -----

  /** The text of one sequence after the reasoning parser: none, passed on as is,
      or what the tool-call parser made of it. */
  datatype Body = NoText | Plain(text: string) | Parsed(normalText: string, calls: seq<Call>)

  /** One sequence output; `unstreamed` is the argument text still missing at the end. */
  datatype Increment = Increment(
    reasoning: Option<string>,
    body: Body,
    finish: Option<string>,
    unstreamed: Option<string>)

  datatype Output =
    | StatusError(message: string)
    | Increments(increments: seq<Increment>, finished: bool, cancelled: bool)

  function CallPart(c: Call): Part {
    ToolPart(if c.name.Some? then c.name.value else "", c.parameters)
  }

  function CallParts(calls: seq<Call>): seq<Part> {
    seq(|calls|, i requires 0 <= i < |calls| => CallPart(calls[i]))
  }

  function TextParts(text: string): seq<Part> {
    if text == "" then [] else [TextPart(text)]
  }

  function BodyParts(b: Body): seq<Part> {
    match b
    case NoText => []
    case Plain(t) => [TextPart(t)]
    case Parsed(t, calls) => TextParts(t) + CallParts(calls)
  }

  function IncrementParts(i: Increment): seq<Part> {
    (if i.reasoning.Some? then [TextPart(i.reasoning.value)] else [])
    + BodyParts(i.body)
    + (if i.finish.Some? && i.unstreamed.Some? then [ToolPart("", i.unstreamed.value)] else [])
  }

  function AllParts(incs: seq<Increment>): seq<Part> {
    if incs == [] then [] else IncrementParts(incs[0]) + AllParts(incs[1..])
  }

  /** The finish reason in force after these sequences. */
  function FinishReason(incs: seq<Increment>, reason: string): string {
    if incs == [] then reason
    else FinishReason(incs[1..], if incs[0].finish.Some? then incs[0].finish.value else reason)
  }

  function StopReason(finishReason: string): string {
    if finishReason == "stop" then "end_turn"
    else if finishReason == "length" then "max_tokens"
    else if finishReason == "function_call" then "tool_use"
    else "end_turn"
  }

  /** The events that end the message. */
  function EndEvents(c: Cursor, finished: bool, finishReason: string): seq<Event> {
    (if c.index >= 0 then [BlockStop(c.index)] else [])
    + [MessageDelta(if finished then StopReason(finishReason) else "stop"), MessageStop, Done]
  }

  function ClosingEvents(c: Cursor, o: Output): seq<Event>
    requires o.Increments?
  {
    if o.finished || o.cancelled then EndEvents(c, o.finished, FinishReason(o.increments, "")) else []
  }

  function StartEvents(c: Cursor): seq<Event> {
    if c.started then [] else [MessageStart]
  }

  function OutputEvents(c: Cursor, o: Output): seq<Event> {
    match o
    case StatusError(m) => [ErrorText(m)]
    case Increments(incs, _, _) =>
      StartEvents(c) + (PartsEvents(c, AllParts(incs)) + ClosingEvents(AfterParts(c, AllParts(incs)), o))
  }

  function AfterOutput(c: Cursor, o: Output): Cursor {
    match o
    case StatusError(_) => c
    case Increments(incs, _, _) => AfterParts(c, AllParts(incs)).(started := true)
  }

  function RunEvents(c: Cursor, os: seq<Output>): seq<Event>
    decreases |os|
  {
    if os == [] then [] else OutputEvents(c, os[0]) + RunEvents(AfterOutput(c, os[0]), os[1..])
  }

  lemma {:induction false} PartsConcat(c: Cursor, ps: seq<Part>, qs: seq<Part>)
    ensures PartsEvents(c, ps + qs) == PartsEvents(c, ps) + PartsEvents(AfterParts(c, ps), qs)
    ensures AfterParts(c, ps + qs) == AfterParts(AfterParts(c, ps), qs)
    decreases |ps|
  {
    hide PartEvents, AfterPart;
    if ps == [] {
      assert ps + qs == qs;
    } else {
      var c' := AfterPart(c, ps[0]);
      PartsConcat(c', ps[1..], qs);
      assert (ps + qs)[1..] == ps[1..] + qs && (ps + qs)[0] == ps[0];
      var a, b, d := PartEvents(c, ps[0]), PartsEvents(c', ps[1..]), PartsEvents(AfterParts(c', ps[1..]), qs);
      assert a + (b + d) == (a + b) + d;
    }
  }

  lemma {:induction false} AllPartsConcat(a: seq<Increment>, b: seq<Increment>)
    ensures AllParts(a + b) == AllParts(a) + AllParts(b)
    decreases |a|
  {
    hide IncrementParts;
    if a == [] {
      assert a + b == b;
    } else {
      AllPartsConcat(a[1..], b);
      assert (a + b)[1..] == a[1..] + b && (a + b)[0] == a[0];
      var x, y, z := IncrementParts(a[0]), AllParts(a[1..]), AllParts(b);
      assert x + (y + z) == (x + y) + z;
    }
  }

  lemma {:induction false} AllPartsSnoc(incs: seq<Increment>, i: Increment)
    ensures AllParts(incs + [i]) == AllParts(incs) + IncrementParts(i)
    ensures forall r :: FinishReason(incs + [i], r) ==
                        if i.finish.Some? then i.finish.value else FinishReason(incs, r)
    decreases |incs|
  {
    hide IncrementParts;
    if incs == [] {
      assert ([] + [i])[1..] == [];
    } else {
      AllPartsSnoc(incs[1..], i);
      assert (incs + [i])[1..] == incs[1..] + [i] && (incs + [i])[0] == incs[0];
      var a, b, d := IncrementParts(incs[0]), AllParts(incs[1..]), IncrementParts(i);
      assert a + (b + d) == (a + b) + d;
    }
  }

  // ----- Deliveries over a connection that may break -----

  /** Sending `es` turned the received trace `t0` into `t1`: everything arrived on
      a live connection, a prefix if it broke on the way, nothing if it was broken. */
  ghost predicate Delivered(t0: seq<Event>, b0: bool, es: seq<Event>, t1: seq<Event>, b1: bool) {
    && (!b1 ==> !b0 && t1 == t0 + es)
    && t0 <= t1 <= t0 + es
    && (b0 ==> b1 && t1 == t0)
  }

  lemma {:induction false} DeliveredThen(t0: seq<Event>, b0: bool, e1: seq<Event>, t1: seq<Event>, b1: bool,
                                         e2: seq<Event>, t2: seq<Event>, b2: bool)
    requires Delivered(t0, b0, e1, t1, b1) && Delivered(t1, b1, e2, t2, b2)
    ensures Delivered(t0, b0, e1 + e2, t2, b2)
  {
    assert t0 + (e1 + e2) == (t0 + e1) + e2;
  }

  lemma {:induction false} DeliveredPart(t0: seq<Event>, b0: bool, e1: seq<Event>, t1: seq<Event>, e2: seq<Event>)
    requires Delivered(t0, b0, e1, t1, true)
    ensures Delivered(t0, b0, e1 + e2, t1, true)
  {
    assert t0 + (e1 + e2) == (t0 + e1) + e2;
  }
}
