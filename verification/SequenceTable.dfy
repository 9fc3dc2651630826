/** The table of lazily created per-sequence parsers. */
module SequenceTable {
  import opened TextSearch
  import opened QwenScanner
  import opened QwenDetector
  import opened QwenChunks

  /** What the table holds for one sequence. */
  datatype Sequence = Sequence(parser: State, hasToolCall: bool)

  const Untouched := Sequence(InitialState, false)

  /** One delta for one sequence, as a fresh parser of its own would take it. */
  function TakeDelta(s: Sequence, delta: string, tools: Tools): (Sequence, Outcome) {
    var o := Feed(s.parser, delta, tools);
    (Sequence(State(o.rest, o.mode), s.hasToolCall || o.calls != []), o)
  }

  class StreamOutputParser {
    const tools: Tools
    /** `is_tool_call()`: there are tools, and a parser format is set. */
    const toolCall: bool
    var parsers: seq<Detector?>
    var hasToolCall: seq<bool>

    ghost predicate Valid()
      reads this, parsers
    {
      && |parsers| == |hasToolCall|
      && (forall i | 0 <= i < |parsers| :: parsers[i] != null ==> parsers[i].Valid())
      && (forall i, j | 0 <= i < j < |parsers| :: parsers[i] != null ==> parsers[i] != parsers[j])
    }

    /** The abstract entry of a sequence, created or not. */
    ghost function View(index: nat): Sequence
      requires |parsers| == |hasToolCall|
      reads this, parsers
    {
      if index >= |parsers| then Untouched
      else Sequence(if parsers[index] == null then InitialState else parsers[index].CurrentState(), hasToolCall[index])
    }

    constructor (tools: Tools, toolCall: bool)
      ensures Valid() && fresh(set p | p in parsers && p != null)
      ensures this.tools == tools && this.toolCall == toolCall
      ensures forall i: nat :: View(i) == Untouched
    {
      this.tools, this.toolCall := tools, toolCall;
      parsers, hasToolCall := [null], [false];
      new;
      if toolCall {
        var first := new Detector();
        parsers := [first];
      }
    }

    /** `check_resize_for_index`. */
    method CheckResizeForIndex(index: nat)
      requires Valid()
      modifies this
      ensures Valid() && index < |parsers|
      ensures |old(parsers)| <= |parsers| && forall i | 0 <= i < |parsers| ::
                parsers[i] == if i < |old(parsers)| then old(parsers)[i] else null
      ensures forall i: nat :: View(i) == old(View(i))
    {
      if index >= |parsers| {
        var more := index + 1 - |parsers|;
        parsers := parsers + seq(more, _ => null);
        hasToolCall := hasToolCall + seq(more, _ => false);
      }
    }

    /** `get_tool_call_parser`. */
    method GetToolCallParser(index: nat) returns (parser: Detector?)
      requires Valid()
      modifies this
      ensures Valid() && (parser != null <==> toolCall)
      ensures parser != null ==> index < |parsers| && parsers[index] == parser
      ensures forall p | p in parsers && p != null :: p in old(parsers) || fresh(p)
      ensures forall i: nat :: View(i) == old(View(i))
    {
      if !toolCall {
        return null;
      }
      CheckResizeForIndex(index);
      if parsers[index] == null {
        var created := new Detector();
        parsers := parsers[index := created];
      }
      parser := parsers[index];
    }

    /** `get_has_tool_call`. */
    method GetHasToolCall(index: nat) returns (flag: bool)
      requires Valid()
      modifies this
      ensures Valid() && flag == View(index).hasToolCall
      ensures forall p | p in parsers && p != null :: p in old(parsers)
      ensures forall i: nat :: View(i) == old(View(i))
    {
      CheckResizeForIndex(index);
      flag := hasToolCall[index];
    }

    /** `set_has_tool_call`. */
    method SetHasToolCall(index: nat, flag: bool)
      requires Valid()
      modifies this
      ensures Valid()
      ensures forall p | p in parsers && p != null :: p in old(parsers)
      ensures forall i: nat :: View(i) == if i == index then old(View(i)).(hasToolCall := flag) else old(View(i))
    {
      CheckResizeForIndex(index);
      hasToolCall := hasToolCall[index := flag];
    }

    /** The table's part of `process_tool_call_stream`: one delta for one sequence
        moves that sequence as its own parser would, and no other. */
    method Deliver(index: nat, delta: string) returns (normalText: string, calls: seq<Call>)
      requires Valid() && toolCall
      modifies this, parsers
      ensures Valid()
      ensures forall p | p in parsers && p != null :: p in old(parsers) || fresh(p)
      ensures var (s, o) := TakeDelta(old(View(index)), delta, tools);
              && View(index) == s && normalText == o.text && calls == o.calls
      ensures forall i: nat | i != index :: View(i) == old(View(i))
    {
      hide Feed;
      var parser := GetToolCallParser(index);
      assert parser in parsers;
      normalText, calls := parser.ParseStreamingIncrement(delta, tools);
      var i := 0;
      label Parsed:
      while i < |calls|
        invariant 0 <= i <= |calls| && Valid()
        invariant forall p | p in parsers && p != null :: p in old@Parsed(parsers)
        invariant forall j: nat :: View(j) ==
                    if j == index && i > 0 then old@Parsed(View(j)).(hasToolCall := true) else old@Parsed(View(j))
      {
        SetHasToolCall(index, true);
        i := i + 1;
      }
    }
  }

  // ----- Interleavings -----

  datatype Delta = Delta(index: nat, text: string)
  datatype Output = Output(index: nat, text: string, calls: seq<Call>)

  function TextsFor(ds: seq<Delta>, index: nat): seq<string> {
    if ds == [] then []
    else TextsFor(ds[..|ds| - 1], index) + (if ds[|ds| - 1].index == index then [ds[|ds| - 1].text] else [])
  }

  function OutputsFor(outs: seq<Output>, index: nat): seq<Output> {
    if outs == [] then []
    else OutputsFor(outs[..|outs| - 1], index) + (if outs[|outs| - 1].index == index then [outs[|outs| - 1]] else [])
  }

  /** A parser of its own, fed one sequence's deltas only. */
  function Solo(index: nat, texts: seq<string>, tools: Tools): (Sequence, seq<Output>)
    decreases |texts|
  {
    if texts == [] then (Untouched, [])
    else
      var (s, outs) := Solo(index, texts[..|texts| - 1], tools);
      var (s2, o) := TakeDelta(s, texts[|texts| - 1], tools);
      (s2, outs + [Output(index, o.text, o.calls)])
  }

  lemma {:induction false} TextsForSnoc(ds: seq<Delta>, d: Delta, index: nat)
    ensures TextsFor(ds + [d], index) == TextsFor(ds, index) + (if d.index == index then [d.text] else [])
  {
    assert (ds + [d])[..|ds|] == ds;
  }

  lemma {:induction false} OutputsForSnoc(outs: seq<Output>, o: Output, index: nat)
    ensures OutputsFor(outs + [o], index) == OutputsFor(outs, index) + (if o.index == index then [o] else [])
  {
    assert (outs + [o])[..|outs|] == outs;
  }

  lemma {:induction false} SoloSnoc(index: nat, texts: seq<string>, text: string, tools: Tools)
    ensures var (s, outs) := Solo(index, texts, tools);
            var (s2, o) := TakeDelta(s, text, tools);
            Solo(index, texts + [text], tools) == (s2, outs + [Output(index, o.text, o.calls)])
  {
    hide TakeDelta;
    assert (texts + [text])[..|texts|] == texts;
  }

  lemma {:induction false} OneMore(ds: seq<Delta>, d: Delta, outs: seq<Output>, out: Output, index: nat,
                                   was: Sequence, now: Sequence, tools: Tools)
    requires (was, OutputsFor(outs, index)) == Solo(index, TextsFor(ds, index), tools)
    requires out.index == d.index
    requires if d.index == index then var (s, o) := TakeDelta(was, d.text, tools);
                                      now == s && out.text == o.text && out.calls == o.calls
             else now == was
    ensures (now, OutputsFor(outs + [out], index)) == Solo(index, TextsFor(ds + [d], index), tools)
  {
    hide *;
    TextsForSnoc(ds, d, index);
    OutputsForSnoc(outs, out, index);
    if d.index == index {
      SoloSnoc(index, TextsFor(ds, index), d.text, tools);
    } else {
      assert OutputsFor(outs, index) + [] == OutputsFor(outs, index) && TextsFor(ds, index) + [] == TextsFor(ds, index);
    }
  }

  /** Any interleaving of deltas over any sequences: each sequence's outputs and its
      final entry are those of a parser of its own that saw only its deltas. */
  method Replay(deltas: seq<Delta>, tools: Tools) returns (table: StreamOutputParser, outs: seq<Output>)
    ensures fresh(table) && table.Valid()
    ensures forall i: nat :: (table.View(i), OutputsFor(outs, i)) == Solo(i, TextsFor(deltas, i), tools)
  {
    hide TakeDelta;
    table := new StreamOutputParser(tools, true);
    outs := [];
    var k := 0;
    while k < |deltas|
      invariant 0 <= k <= |deltas| && fresh(table) && table.Valid() && table.tools == tools && table.toolCall
      invariant fresh(set p | p in table.parsers && p != null)
      invariant forall i: nat :: (table.View(i), OutputsFor(outs, i)) == Solo(i, TextsFor(deltas[..k], i), tools)
    {
      var d := deltas[k];
      label Before:
      var text, calls := table.Deliver(d.index, d.text);
      var out := Output(d.index, text, calls);
      assert deltas[..k + 1] == deltas[..k] + [d];
      forall i: nat
        ensures (table.View(i), OutputsFor(outs + [out], i)) == Solo(i, TextsFor(deltas[..k + 1], i), tools) {
        OneMore(deltas[..k], d, outs, out, i, old@Before(table.View(i)), table.View(i), tools);
      }
      outs := outs + [out];
      k := k + 1;
    }
    assert deltas[..k] == deltas;
  }

  // ----- Joined output of one sequence -----

  function TextOf(outs: seq<Output>): string {
    if outs == [] then "" else TextOf(outs[..|outs| - 1]) + outs[|outs| - 1].text
  }

  function CallsOf(outs: seq<Output>): seq<Call> {
    if outs == [] then [] else CallsOf(outs[..|outs| - 1]) + outs[|outs| - 1].calls
  }

  lemma {:induction false} RunSnoc(st: State, texts: seq<string>, text: string, tools: Tools)
    ensures var o := Run(st, texts, tools);
            Run(st, texts + [text], tools) == Feed(State(o.rest, o.mode), text, tools).After(o.text, o.calls)
    decreases |texts|
  {
    hide Feed;
    if texts == [] {
      assert [] + [text] == [text] && [text][1..] == [];
      var o := Feed(st, text, tools);
      assert "" + o.text == o.text == o.text + "" && [] + o.calls == o.calls == o.calls + [];
      assert State(st.buffer, st.mode) == st;
    } else {
      var o := Feed(st, texts[0], tools);
      assert (texts + [text])[1..] == texts[1..] + [text] && (texts + [text])[0] == texts[0];
      RunSnoc(State(o.rest, o.mode), texts[1..], text, tools);
      var r := Run(State(o.rest, o.mode), texts[1..], tools);
      var e := Feed(State(r.rest, r.mode), text, tools);
      assert o.text + (r.text + e.text) == (o.text + r.text) + e.text;
      assert o.calls + (r.calls + e.calls) == (o.calls + r.calls) + e.calls;
    }
  }

  lemma {:induction false} SoloIsRun(index: nat, texts: seq<string>, tools: Tools)
    ensures var (s, outs) := Solo(index, texts, tools); var o := Run(InitialState, texts, tools);
            && s == Sequence(State(o.rest, o.mode), o.calls != [])
            && TextOf(outs) == o.text && CallsOf(outs) == o.calls
    decreases |texts|
  {
    hide *;
    if texts == [] {
      SoloNothing(index, tools);
    } else {
      var u, text := texts[..|texts| - 1], texts[|texts| - 1];
      SoloIsRun(index, u, tools);
      assert u + [text] == texts;
      SoloStep(index, u, text, tools);
    }
  }

  lemma {:induction false} SoloNothing(index: nat, tools: Tools)
    ensures Solo(index, [], tools) == (Untouched, [])
    ensures Run(InitialState, [], tools) == Outcome(InitialState.buffer, InitialState.mode, "", [])
    ensures Untouched == Sequence(State(InitialState.buffer, InitialState.mode), false)
    ensures TextOf([]) == "" && CallsOf([]) == []
  {
    hide TakeDelta, Feed;
  }

  lemma {:induction false} SoloStep(index: nat, u: seq<string>, text: string, tools: Tools)
    requires var (s, outs) := Solo(index, u, tools); var o := Run(InitialState, u, tools);
             && s == Sequence(State(o.rest, o.mode), o.calls != [])
             && TextOf(outs) == o.text && CallsOf(outs) == o.calls
    ensures var (s, outs) := Solo(index, u + [text], tools); var o := Run(InitialState, u + [text], tools);
            && s == Sequence(State(o.rest, o.mode), o.calls != [])
            && TextOf(outs) == o.text && CallsOf(outs) == o.calls
  {
    hide Solo, Run, Feed, TextOf, CallsOf;
    RunSnoc(InitialState, u, text, tools);
    SoloSnoc(index, u, text, tools);
    var (s, outs) := Solo(index, u, tools);
    var o := TakeDelta(s, text, tools).1;
    JoinSnoc(outs, Output(index, o.text, o.calls));
  }

  lemma {:induction false} JoinSnoc(outs: seq<Output>, o: Output)
    ensures TextOf(outs + [o]) == TextOf(outs) + o.text && CallsOf(outs + [o]) == CallsOf(outs) + o.calls
  {
    assert (outs + [o])[..|outs|] == outs;
  }

  /** Two interleavings that carry the same text for a sequence, however cut and
      mixed with others, yield the same joined output and the same final entry for it. */
  lemma {:induction false} OnlyOwnTextMatters(index: nat, ds: seq<Delta>, es: seq<Delta>, tools: Tools)
    requires Concat(TextsFor(ds, index)) == Concat(TextsFor(es, index))
    ensures var (s, outs) := Solo(index, TextsFor(ds, index), tools);
            var (s2, outs2) := Solo(index, TextsFor(es, index), tools);
            s == s2 && TextOf(outs) == TextOf(outs2) && CallsOf(outs) == CallsOf(outs2)
  {
    hide *;
    SoloIsRun(index, TextsFor(ds, index), tools);
    SoloIsRun(index, TextsFor(es, index), tools);
    ChunkingsAgree(TextsFor(ds, index), TextsFor(es, index), tools);
  }
}
