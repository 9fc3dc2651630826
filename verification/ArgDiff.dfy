/** Argument-difference streaming of the DeepSeek-V3.2 detector: every look at an
    invoke yields a dump of its arguments so far, and only the part known to be
    stable is sent; the end of the stream flushes the rest. */
module ArgDiff {
  import opened Wrappers
  import opened Utf8

  // ----- The longest common prefix -----

  function CommonLength(s: string, t: string): (n: nat)
    ensures n <= |s| && n <= |t|
  {
    if s != "" && t != "" && s[0] == t[0] then 1 + CommonLength(s[1..], t[1..]) else 0
  }

  function CommonPrefix(s: string, t: string): string {
    s[..CommonLength(s, t)]
  }

  /** `p` is a prefix of both texts and no longer one is. */
  predicate IsCommonPrefix(p: string, s: string, t: string) {
    p <= s && p <= t && (|p| < |s| && |p| < |t| ==> s[|p|] != t[|p|])
  }

  lemma {:induction false} CommonPrefixIs(p: string, s: string, t: string)
    requires IsCommonPrefix(p, s, t)
    ensures CommonPrefix(s, t) == p
    decreases |s|
  {
    if p == "" {
    } else {
      CommonPrefixIs(p[1..], s[1..], t[1..]);
      assert CommonPrefix(s[1..], t[1..]) == p[1..];
      assert p == [p[0]] + p[1..];
    }
  }

  lemma {:induction false} CommonPrefixFits(s: string, t: string)
    ensures IsCommonPrefix(CommonPrefix(s, t), s, t)
    decreases |s|
  {
    if s != "" && t != "" && s[0] == t[0] {
      CommonPrefixFits(s[1..], t[1..]);
      var n := CommonLength(s[1..], t[1..]);
      assert s[..1 + n] == [s[0]] + s[1..][..n] && t[..1 + n] == [t[0]] + t[1..][..n];
    }
  }

  /** `find_common_prefix`. */
  method FindCommonPrefix(s1: string, s2: string) returns (prefix: string)
    ensures prefix == CommonPrefix(s1, s2)
  {
    prefix := "";
    var minLength := if |s1| < |s2| then |s1| else |s2|;
    var i := 0;
    while i < minLength
      invariant 0 <= i <= minLength
      invariant prefix == s1[..i] == s2[..i]
    {
      if s1[i] != s2[i] {
        break;
      }
      prefix := prefix + [s1[i]];
      i := i + 1;
    }
    CommonPrefixIs(prefix, s1, s2);
  }

  // ----- One look at an invoke -----

  /** What the invoke search found: name, arguments so far, closing tag seen. */
  datatype Observation = Observation(name: string, args: string, closed: bool)

  datatype Fragment = Fragment(tool: int, name: Option<string>, args: string)

  datatype Progress = Progress(tool: int, nameSent: bool, stored: seq<Option<string>>, streamed: seq<string>)

  const Start := Progress(-1, false, [], [])

  function Grow<T>(s: seq<T>, n: nat, fill: T): seq<T>
    decreases n - |s|
  {
    if |s| >= n then s else Grow(s + [fill], n, fill)
  }

  /** The bookkeeping made ready for the current tool. */
  function Prepared(p: Progress): (q: Progress)
    requires p.tool >= -1
  {
    var p := if p.tool == -1 then Progress(0, false, [], [""]) else p;
    p.(stored := Grow(p.stored, p.tool + 1, None), streamed := Grow(p.streamed, p.tool + 1, ""))
  }

  /** The new text that may be sent, before its last character is checked. */
  function Unsent(stored: Option<string>, streamed: string, o: Observation): string {
    if o.closed then (if |streamed| < |o.args| then o.args[|streamed|..] else "")
    else if stored.Some? && o.args != stored.value then
      var prefix := CommonPrefix(stored.value, o.args);
      if |prefix| > |streamed| then prefix[|streamed|..] else ""
    else ""
  }

  function Difference(stored: Option<string>, streamed: string, o: Observation): string {
    SplitIncomplete(Unsent(stored, streamed, o)).0
  }

  predicate Shaped(p: Progress) {
    && p.tool >= -1 && |p.stored| == |p.streamed|
    && (if p.tool == -1 then p.stored == [] && !p.nameSent
        else if p.nameSent then |p.stored| == p.tool + 1 else |p.stored| == p.tool)
  }

  function Fragments(p: Progress, name: string, diff: string): seq<Fragment> {
    (if p.nameSent then [] else [Fragment(p.tool, Some(name), "")])
    + (if diff == "" then [] else [Fragment(p.tool, None, diff)])
  }

  function Step(p: Progress, o: Observation): (Progress, seq<Fragment>)
    requires Shaped(p)
  {
    PreparedShape(p);
    var q := Prepared(p);
    var diff := Difference(q.stored[q.tool], q.streamed[q.tool], o);
    var r := q.(stored := q.stored[q.tool := Some(o.args)],
                streamed := q.streamed[q.tool := q.streamed[q.tool] + diff],
                nameSent := !o.closed, tool := if o.closed then q.tool + 1 else q.tool);
    (r, Fragments(q, o.name, diff))
  }

  lemma {:induction false} PreparedShape(p: Progress)
    requires Shaped(p)
    ensures var q := Prepared(p);
            && q.tool == (if p.tool == -1 then 0 else p.tool) && q.nameSent == p.nameSent
            && |q.stored| == |q.streamed| == q.tool + 1
            && (if p.nameSent then q == p
                else q.stored == p.stored + [None] && q.streamed == p.streamed + [""])
  {
    var t := if p.tool == -1 then 0 else p.tool;
    if !p.nameSent {
      assert Grow(p.stored + [None], t + 1, None) == p.stored + [None];
      assert Grow(p.streamed + [""], t + 1, "") == p.streamed + [""];
      assert p.tool == -1 ==> p.streamed + [""] == [""];
    }
  }

  class ArgumentStreamer {
    var currentToolId: int
    var currentToolNameSent: bool
    var prevToolCallArr: seq<Option<string>>
    var streamedArgsForTool: seq<string>
    var utf8Buffer: string
    var buffer: string

    ghost function Now(): Progress
      reads this
    {
      Progress(currentToolId, currentToolNameSent, prevToolCallArr, streamedArgsForTool)
    }

    constructor ()
      ensures Now() == Start && utf8Buffer == "" && buffer == ""
    {
      currentToolId, currentToolNameSent, prevToolCallArr, streamedArgsForTool := -1, false, [], [];
      utf8Buffer, buffer := "", "";
    }

    /** The head of `parse_streaming_increment`: only complete characters enter the buffer. */
    method TakeChunk(newText: string)
      modifies this`utf8Buffer, this`buffer
      ensures buffer == old(buffer) + Absorb(old(utf8Buffer), newText).0
      ensures utf8Buffer == Absorb(old(utf8Buffer), newText).1
      ensures newText == "" ==> buffer == old(buffer) && utf8Buffer == ""
    {
      if newText != "" {
        var complete, tail := SplitIncompleteUtf8(utf8Buffer + newText);
        utf8Buffer := tail;
        buffer := buffer + complete;
      } else {
        utf8Buffer := "";
        assert buffer + "" == buffer;
      }
    }

    /** The state for the current tool, created when it is first needed. */
    method Prepare()
      requires Shaped(Now())
      modifies this`currentToolId, this`currentToolNameSent, this`prevToolCallArr, this`streamedArgsForTool
      ensures Now() == Prepared(old(Now()))
    {
      if currentToolId == -1 {
        currentToolId, currentToolNameSent := 0, false;
        prevToolCallArr, streamedArgsForTool := [], [""];
      }
      ghost var target := currentToolId + 1;
      ghost var stored := Grow(prevToolCallArr, target, None);
      while |prevToolCallArr| <= currentToolId
        modifies this`prevToolCallArr
        invariant Grow(prevToolCallArr, target, None) == stored
      {
        prevToolCallArr := prevToolCallArr + [None];
      }
      ghost var streamed := Grow(streamedArgsForTool, target, "");
      while |streamedArgsForTool| <= currentToolId
        modifies this`streamedArgsForTool
        invariant Grow(streamedArgsForTool, target, "") == streamed
      {
        streamedArgsForTool := streamedArgsForTool + [""];
      }
    }

    /** The incremental arguments. */
    method ArgumentDiff(o: Observation) returns (diff: string)
      requires 0 <= currentToolId < |prevToolCallArr| && currentToolId < |streamedArgsForTool|
      ensures diff == Difference(prevToolCallArr[currentToolId], streamedArgsForTool[currentToolId], o)
    {
      hide SplitIncomplete, CommonPrefix;
      var sentLen := |streamedArgsForTool[currentToolId]|;
      diff := "";
      if o.closed {
        if sentLen < |o.args| {
          diff := o.args[sentLen..];
        }
      } else if prevToolCallArr[currentToolId].Some? {
        var prev := prevToolCallArr[currentToolId].value;
        if o.args != prev {
          var prefix := FindCommonPrefix(prev, o.args);
          if |prefix| > sentLen {
            diff := prefix[sentLen..];
          }
        }
      }
      SplitNothing();
      if diff != "" {
        var complete, tail := SplitIncompleteUtf8(diff);
        diff := complete;
      }
    }

    /** The body of the invoke loop. */
    method Observe(o: Observation) returns (calls: seq<Fragment>)
      requires Shaped(Now())
      modifies this`currentToolId, this`currentToolNameSent, this`prevToolCallArr, this`streamedArgsForTool
      ensures (Now(), calls) == Step(old(Now()), o)
    {
      hide Difference;
      PreparedShape(Now());
      Prepare();
      calls := [];
      if !currentToolNameSent {
        calls := calls + [Fragment(currentToolId, Some(o.name), "")];
        currentToolNameSent := true;
      }
      var diff := ArgumentDiff(o);
      if diff != "" {
        calls := calls + [Fragment(currentToolId, None, diff)];
      }
      streamedArgsForTool := streamedArgsForTool[currentToolId := streamedArgsForTool[currentToolId] + diff];
      prevToolCallArr := prevToolCallArr[currentToolId := Some(o.args)];
      if o.closed {
        currentToolId := currentToolId + 1;
        currentToolNameSent := false;
      }
      assert calls == Fragments(Prepared(old(Now())), o.name, diff);
    }

    /** `check_for_unstreamed_tool_args`. */
    method CheckForUnstreamedToolArgs() returns (rest: seq<Fragment>)
      ensures rest == Flush(Now())
    {
      rest := [];
      if prevToolCallArr != [] && streamedArgsForTool != [] {
        var toolIndex := |prevToolCallArr| - 1;
        if toolIndex < |streamedArgsForTool| && prevToolCallArr[toolIndex].Some? {
          var expected, actual := prevToolCallArr[toolIndex].value, streamedArgsForTool[toolIndex];
          if |expected| > |actual| {
            rest := [Fragment(toolIndex, None, expected[|actual|..])];
          }
        }
      }
    }
  }

  lemma {:induction false} SplitNothing()
    ensures SplitIncomplete("") == ("", "")
  {
  }

  /** The missing end of the last tool's arguments. */
  function Flush(p: Progress): seq<Fragment> {
    var i := |p.stored| - 1;
    if 0 <= i < |p.streamed| && p.stored[i].Some? && |p.stored[i].value| > |p.streamed[i]|
    then [Fragment(i, None, p.stored[i].value[|p.streamed[i]|..])]
    else []
  }
}
