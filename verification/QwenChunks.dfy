/** Cutting the stream into chunks does not change what the Qwen3-coder scanner
    emits, and what it holds back is exactly what it cannot decide yet. */
module QwenChunks {
  import opened TextSearch
  import opened QwenScanner

  lemma {:induction false} TagShapes()
    ensures IsTag(CALL_START) && IsTag(CALL_END) && IsTag(FUNCTION_PREFIX)
    ensures IsTag(FUNCTION_END) && IsTag(PARAMETER_PREFIX) && IsTag(PARAMETER_END)
  {
  }

  lemma {:induction false} AfterNothing(o: Outcome)
    ensures o.After("", []) == o
  {
  }

  lemma {:induction false} AfterTwice(o: Outcome, t1: string, c1: seq<Call>, t2: string, c2: seq<Call>)
    ensures o.After(t2, c2).After(t1, c1) == o.After(t1 + t2, c1 + c2)
  {
    assert t1 + (t2 + o.text) == (t1 + t2) + o.text;
    assert c1 + (c2 + o.calls) == (c1 + c2) + o.calls;
  }

  // ----- Steps do not change when more input arrives -----

  /** `t` was found at once, or it appears only behind the terminator `seen`. */
  lemma {:induction false} CandidateStable(rest: string, x: string, seen: string, t: string)
    requires IsTag(seen) && IsTag(t) && !(seen <= t)
    requires Find(rest, seen, 0).Some?
    ensures Find(rest, t, 0).Some? ==> Find(rest + x, t, 0) == Find(rest, t, 0)
    ensures Find(rest, t, 0).None? && Find(rest + x, t, 0).Some? ==>
              Find(rest, seen, 0).value < Find(rest + x, t, 0).value
  {
    if Find(rest, t, 0).Some? {
      FindStable(rest, x, t, 0);
    } else if Find(rest + x, t, 0).Some? {
      NewTagIsLater(rest, x, seen, t);
    }
  }

  /** What one extension does to a terminator search when `seen` was already found. */
  ghost predicate Settled(rest: string, x: string, seen: string, t: string) {
    && (Find(rest, t, 0).Some? ==> Find(rest + x, t, 0) == Find(rest, t, 0))
    && (Find(rest, t, 0).None? && Find(rest + x, t, 0).Some? && Find(rest, seen, 0).Some? ==>
        Find(rest, seen, 0).value < Find(rest + x, t, 0).value)
  }

  lemma {:induction false} AllCandidatesStable(rest: string, x: string, seen: string)
    requires seen == PARAMETER_END || seen == PARAMETER_PREFIX || seen == FUNCTION_END
    requires Find(rest, seen, 0).Some?
    ensures Settled(rest, x, seen, PARAMETER_END)
    ensures Settled(rest, x, seen, PARAMETER_PREFIX)
    ensures Settled(rest, x, seen, FUNCTION_END)
  {
    hide Find, OccursAt;
    TagShapes();
    FindStable(rest, x, seen, 0);
    assert PARAMETER_END[1] != PARAMETER_PREFIX[1] && PARAMETER_PREFIX[1] != FUNCTION_END[1] && PARAMETER_END[2] != FUNCTION_END[2];
    if seen != PARAMETER_END { CandidateStable(rest, x, seen, PARAMETER_END); }
    if seen != PARAMETER_PREFIX { CandidateStable(rest, x, seen, PARAMETER_PREFIX); }
    if seen != FUNCTION_END { CandidateStable(rest, x, seen, FUNCTION_END); }
  }

  /** The earliest of the three terminators stays the earliest. */
  lemma {:induction false} ValueEndStable(rest: string, x: string)
    requires FindValueEnd(rest).Some?
    ensures FindValueEnd(rest + x) == FindValueEnd(rest)
  {
    var e0, e1, e2 := Find(rest, PARAMETER_END, 0), Find(rest, PARAMETER_PREFIX, 0), Find(rest, FUNCTION_END, 0);
    if e0.Some? { AllCandidatesStable(rest, x, PARAMETER_END); }
    if e1.Some? { AllCandidatesStable(rest, x, PARAMETER_PREFIX); }
    if e2.Some? { AllCandidatesStable(rest, x, FUNCTION_END); }
  }

  lemma {:induction false} FunctionStepStable(cur: string, x: string, m: Mode)
    requires FUNCTION_PREFIX <= cur && FunctionStep(cur, m).Take?
    ensures FUNCTION_PREFIX <= cur + x && FunctionStep(cur + x, m) == FunctionStep(cur, m)
  {
    FindStable(cur, x, ">", 0);
    FindCharBehindPrefix(cur, FUNCTION_PREFIX, '>');
    var e := Find(cur, ">", 0).value;
    assert (cur + x)[|FUNCTION_PREFIX|..e] == cur[|FUNCTION_PREFIX|..e];
  }

  lemma {:induction false} ParameterAtStable(cur: string, x: string, e: nat, end: ValueEnd, m: Mode, tools: Tools)
    requires |PARAMETER_PREFIX| <= e && e + 1 + end.pos <= |cur|
    ensures ParameterAt(cur + x, e, end, m, tools) == ParameterAt(cur, e, end, m, tools)
  {
    assert (cur + x)[|PARAMETER_PREFIX|..e] == cur[|PARAMETER_PREFIX|..e];
    assert (cur + x)[e + 1..e + 1 + end.pos] == cur[e + 1..e + 1 + end.pos];
  }

  lemma {:induction false} ParameterStepStable(cur: string, x: string, m: Mode, tools: Tools)
    requires PARAMETER_PREFIX <= cur && ParameterStep(cur, m, tools).Take?
    ensures PARAMETER_PREFIX <= cur + x && ParameterStep(cur + x, m, tools) == ParameterStep(cur, m, tools)
  {
    hide FindValueEnd, ParameterAt;
    FindStable(cur, x, ">", 0);
    FindCharBehindPrefix(cur, PARAMETER_PREFIX, '>');
    var e := Find(cur, ">", 0).value;
    ValueEndStable(cur[e + 1..], x);
    assert (cur + x)[e + 1..] == cur[e + 1..] + x;
    ParameterAtStable(cur, x, e, FindValueEnd(cur[e + 1..]).value, m, tools);
  }

  /** Two prefixes of one text are prefixes of each other. */
  lemma {:induction false} PrefixAfterExtension(cur: string, x: string, tag: string)
    ensures tag <= cur + x ==> tag <= cur || cur <= tag
    ensures cur + x <= tag ==> cur <= tag
  {
    if tag <= cur + x {
      var n := if |tag| <= |cur| then |tag| else |cur|;
      assert tag[..n] == (cur + x)[..n] == cur[..n];
      assert tag[..|tag|] == tag && cur[..|cur|] == cur;
    }
    if cur + x <= tag {
      assert cur == (cur + x)[..|cur|] == tag[..|cur|];
    }
  }

  lemma {:induction false} LoneAngleStable(cur: string, x: string, m: Mode, tools: Tools)
    requires cur != "" && cur[0] == '<' && !StartsWithTag(cur) && !IsPotentialTag(cur)
    ensures Next(cur, m, tools) == Next(cur + x, m, tools) == Take(1, m, Visible(m, "<"), [])
  {
    FindCharIs(cur, '<', 0);
    FindCharIs(cur + x, '<', 0);
    PrefixAfterExtension(cur, x, CALL_START);
    PrefixAfterExtension(cur, x, CALL_END);
    PrefixAfterExtension(cur, x, FUNCTION_PREFIX);
    PrefixAfterExtension(cur, x, FUNCTION_END);
    PrefixAfterExtension(cur, x, PARAMETER_PREFIX);
    PrefixAfterExtension(cur, x, PARAMETER_END);
  }

  /** Every decided step at a `<` survives an extension of the input. */
  lemma {:induction false} NextStable(cur: string, x: string, m: Mode, tools: Tools)
    requires cur != "" && cur[0] == '<' && Next(cur, m, tools).Take?
    ensures Next(cur + x, m, tools) == Next(cur, m, tools)
  {
    FindCharIs(cur, '<', 0);
    if CALL_START <= cur {
      assert CALL_START <= cur + x;
    } else if FUNCTION_PREFIX <= cur {
      FunctionStepStable(cur, x, m);
    } else if PARAMETER_PREFIX <= cur {
      ParameterStepStable(cur, x, m, tools);
    } else if FUNCTION_END <= cur {
      assert FUNCTION_END <= cur + x;
    } else if CALL_END <= cur {
      assert CALL_END <= cur + x;
    } else {
      LoneAngleStable(cur, x, m, tools);
    }
  }

  // ----- Scanning -----

  /** Text without `<` passes through, however it is grouped. */
  lemma {:induction false} PlainText(p: string, y: string, m: Mode, tools: Tools)
    requires '<' !in p
    ensures Scan(p + y, m, tools) == Scan(y, m, tools).After(Visible(m, p), [])
  {
    hide Next, TextStep;
    var s := p + y;
    if p == "" {
      assert s == y;
      AfterNothing(Scan(y, m, tools));
    } else {
      var n := |p| + PlainLength(y);
      assert s[n..] == y[PlainLength(y)..] && s[..n] == p + y[..PlainLength(y)];
      PlainStep(s, n, m, tools);
      if PlainLength(y) > 0 {
        PlainStep(y, PlainLength(y), m, tools);
        AfterTwice(Scan(s[n..], m, tools), Visible(m, p), [], Visible(m, y[..PlainLength(y)]), []);
      }
    }
  }

  /** The length of the part in front of the first `<`. */
  function PlainLength(y: string): (n: nat)
    ensures n <= |y| && '<' !in y[..n] && (n == |y| || y[n] == '<')
  {
    if y == "" || y[0] == '<' then 0
    else
      var n := 1 + PlainLength(y[1..]);
      assert y[..n] == [y[0]] + y[1..][..n - 1];
      n
  }

  /** A maximal run without `<` is one step. */
  lemma {:induction false} PlainStep(s: string, n: nat, m: Mode, tools: Tools)
    requires 0 < n <= |s| && '<' !in s[..n] && (n == |s| || s[n] == '<')
    ensures Next(s, m, tools) == Take(n, m, Visible(m, s[..n]), [])
  {
    assert s[0] == s[..n][0];
    FindChar(s, '<');
    if n < |s| {
      FindCharIs(s, '<', n);
    } else {
      assert s[..n] == s;
    }
  }

  /** Scanning `a + x` is scanning `a` and then what is left of it with `x`. */
  lemma {:induction false} ScanAppend(a: string, x: string, m: Mode, tools: Tools)
    ensures var o := Scan(a, m, tools);
            Scan(a + x, m, tools) == Scan(o.rest + x, o.mode, tools).After(o.text, o.calls)
    decreases |a|
  {
    hide Next, Scan;
    ScanUnfold(a, m, tools);
    match Next(a, m, tools)
    case Hold =>
      AfterNothing(Scan(a + x, m, tools));
    case Take(n, m', t, c) =>
      var o := Scan(a[n..], m', tools);
      ScanAppend(a[n..], x, m', tools);
      AfterTwice(Scan(o.rest + x, o.mode, tools), t, c, o.text, o.calls);
      assert (a + x)[n..] == a[n..] + x;
      if a[0] == '<' {
        NextStable(a, x, m, tools);
        ScanUnfold(a + x, m, tools);
      } else {
        var k := PlainLength(a);
        assert a[0] !in a[..k] ==> k == 0;
        PlainStep(a, k, m, tools);
        assert a + x == a[..k] + (a[k..] + x);
        PlainText(a[..k], a[k..] + x, m, tools);
      }
  }

  // ----- Chunk invariance -----

  /** The scanner has nothing left to do: true initially and after every increment. */
  predicate Stuck(st: State, tools: Tools) {
    Next(st.buffer, st.mode, tools).Hold?
  }

  lemma {:induction false} ScanStops(cur: string, m: Mode, tools: Tools)
    ensures var o := Scan(cur, m, tools); Stuck(State(o.rest, o.mode), tools)
    decreases |cur|
  {
    hide Next;
    match Next(cur, m, tools)
    case Hold =>
    case Take(n, m', _, _) => ScanStops(cur[n..], m', tools);
  }

  lemma {:induction false} StuckScan(st: State, tools: Tools)
    requires Stuck(st, tools)
    ensures Scan(st.buffer, st.mode, tools) == Outcome(st.buffer, st.mode, "", [])
  {
    hide Next;
  }

  /** Every chunking of a text gives the same text, the same fragments, the same
      buffer and the same parser fields as feeding the text at once. */
  lemma {:induction false} ChunkInvariance(st: State, chunks: seq<string>, tools: Tools)
    requires Stuck(st, tools)
    ensures Run(st, chunks, tools) == Feed(st, Concat(chunks), tools)
    decreases |chunks|
  {
    hide Scan, Next;
    if chunks == [] {
      StuckScan(st, tools);
      assert st.buffer + "" == st.buffer;
    } else {
      var first, later := chunks[0], Concat(chunks[1..]);
      var o := Feed(st, first, tools);
      ScanStops(st.buffer + first, st.mode, tools);
      ChunkInvariance(State(o.rest, o.mode), chunks[1..], tools);
      ScanAppend(st.buffer + first, later, st.mode, tools);
      assert st.buffer + (first + later) == (st.buffer + first) + later;
    }
  }

  /** In particular two chunkings of one text cannot be told apart. */
  lemma {:induction false} ChunkingsAgree(chunks: seq<string>, chunks': seq<string>, tools: Tools)
    requires Concat(chunks) == Concat(chunks')
    ensures Run(InitialState, chunks, tools) == Run(InitialState, chunks', tools)
  {
    ChunkInvariance(InitialState, chunks, tools);
    ChunkInvariance(InitialState, chunks', tools);
  }

  // ----- What is held back -----

  predicate UnfinishedHeader(cur: string) {
    (FUNCTION_PREFIX <= cur || PARAMETER_PREFIX <= cur) && '>' !in cur
  }

  /** A parameter whose value none of the three terminators closes yet. */
  ghost predicate UnterminatedParameter(cur: string) {
    exists key: string, value: string :: OpenParameter(cur, key, value)
  }

  ghost predicate OpenParameter(cur: string, key: string, value: string) {
    && cur == PARAMETER_PREFIX + key + ">" + value
    && '>' !in key
    && Free(value, PARAMETER_END) && Free(value, PARAMETER_PREFIX) && Free(value, FUNCTION_END)
  }

  /** Every beginning of one of the six tags is held, and so is a whole `</parameter>`
      until something follows it. */
  lemma {:induction false} TagBeginningIsHeld(t: string, n: nat, m: Mode, tools: Tools)
    requires t in {CALL_START, CALL_END, FUNCTION_PREFIX, FUNCTION_END, PARAMETER_PREFIX, PARAMETER_END}
    requires 0 < n < |t| || (t == PARAMETER_END && n == |t|)
    ensures Feed(State("", m), t[..n], tools) == Outcome(t[..n], m, "", [])
  {
    hide Scan;
    var cur := t[..n];
    assert "" + cur == cur && cur[0] == '<' && |cur| <= |t|;
    FindCharIs(cur, '<', 0);
    assert IsPotentialTag(cur);
    NoTagYet(t, n);
    ScanUnfold(cur, m, tools);
  }

  lemma {:induction false} NoTagYet(t: string, n: nat)
    requires t in {CALL_START, CALL_END, FUNCTION_PREFIX, FUNCTION_END, PARAMETER_PREFIX, PARAMETER_END}
    requires 0 < n < |t| || (t == PARAMETER_END && n == |t|)
    ensures !StartsWithTag(t[..n])
  {
    assert n > 1 ==> t[..n][1] == t[1];
    assert n > 2 ==> t[..n][2] == t[2];
  }

  lemma {:induction false} NoValueEnd(value: string)
    requires FindValueEnd(value).None?
    ensures Free(value, PARAMETER_END) && Free(value, PARAMETER_PREFIX) && Free(value, FUNCTION_END)
  {
  }

  lemma {:induction false} HeldParameter(cur: string, m: Mode, tools: Tools)
    requires PARAMETER_PREFIX <= cur && ParameterStep(cur, m, tools).Hold?
    ensures UnfinishedHeader(cur) || UnterminatedParameter(cur)
  {
    hide FindValueEnd, Find, OpenParameter;
    FindCharBehindPrefix(cur, PARAMETER_PREFIX, '>');
    FindChar(cur, '>');
    match Find(cur, ">", 0)
    case None =>
    case Some(e) =>
      OpenAt(cur, e);
  }

  lemma {:induction false} OpenAt(cur: string, e: nat)
    requires PARAMETER_PREFIX <= cur && |PARAMETER_PREFIX| <= e < |cur| && cur[e] == '>' && '>' !in cur[..e]
    requires FindValueEnd(cur[e + 1..]).None?
    ensures OpenParameter(cur, cur[|PARAMETER_PREFIX|..e], cur[e + 1..])
  {
    hide FindValueEnd;
    var key, value := cur[|PARAMETER_PREFIX|..e], cur[e + 1..];
    assert cur == PARAMETER_PREFIX + key + ">" + value;
    assert forall i | 0 <= i < |key| :: key[i] == cur[..e][|PARAMETER_PREFIX| + i];
    NoValueEnd(value);
  }

  /** After every increment the buffer is empty, a prefix of one of the six
      tags, an unfinished header or an unterminated parameter. */
  lemma {:induction false} HeldBack(st: State, chunk: string, tools: Tools)
    ensures var b := Feed(st, chunk, tools).rest;
            b == "" || IsPotentialTag(b) || UnfinishedHeader(b) || UnterminatedParameter(b)
  {
    var o := Feed(st, chunk, tools);
    var b := o.rest;
    ScanStops(st.buffer + chunk, st.mode, tools);
    if b != "" {
      if CALL_START <= b {
      } else if FUNCTION_PREFIX <= b {
        FindCharBehindPrefix(b, FUNCTION_PREFIX, '>');
        FindChar(b, '>');
      } else if PARAMETER_PREFIX <= b {
        HeldParameter(b, o.mode, tools);
      }
    }
  }

  /** None of the five tags the scanner acts on occurs in `s`. */
  ghost predicate TagFree(s: string) {
    && Free(s, CALL_START) && Free(s, CALL_END) && Free(s, FUNCTION_PREFIX)
    && Free(s, FUNCTION_END) && Free(s, PARAMETER_PREFIX)
  }

  lemma {:induction false} TagFreeHead(s: string)
    requires TagFree(s)
    ensures !StartsWithTag(s)
  {
    assert !OccursAt(s, CALL_START, 0) && !OccursAt(s, CALL_END, 0);
    assert !OccursAt(s, FUNCTION_PREFIX, 0) && !OccursAt(s, FUNCTION_END, 0) && !OccursAt(s, PARAMETER_PREFIX, 0);
  }

  lemma {:induction false} TagFreeSlice(s: string, lo: nat, hi: nat)
    requires lo <= hi <= |s| && TagFree(s)
    ensures TagFree(s[lo..hi])
  {
    FreeSlice(s, CALL_START, lo, hi);
    FreeSlice(s, CALL_END, lo, hi);
    FreeSlice(s, FUNCTION_PREFIX, lo, hi);
    FreeSlice(s, FUNCTION_END, lo, hi);
    FreeSlice(s, PARAMETER_PREFIX, lo, hi);
  }

  lemma {:induction false} TagFreeStep(s: string, m: Mode, tools: Tools)
    requires TagFree(s) && !m.inside
    ensures match Next(s, m, tools)
            case Hold => |s| <= 12
            case Take(n, m', t, c) => m' == m && t == s[..n] && c == []
  {
    if s != "" {
      TagFreeHead(s);
      FindChar(s, '<');
    }
  }

  /** Tag-free text outside a tool call: nothing is lost, nothing is invented,
      and at most twelve characters are waiting. */
  lemma {:induction false} TagFreeText(s: string, m: Mode, tools: Tools)
    requires TagFree(s) && !m.inside
    ensures var o := Scan(s, m, tools);
            o.text + o.rest == s && o.calls == [] && o.mode == m && |o.rest| <= 12
    decreases |s|
  {
    hide *;
    TagFreeStep(s, m, tools);
    ScanUnfold(s, m, tools);
    match Next(s, m, tools)
    case Hold => assert "" + s == s;
    case Take(n, m', t, c) =>
      TagFreeSlice(s, n, |s|);
      assert s[n..|s|] == s[n..];
      TagFreeText(s[n..], m', tools);
      var o := Scan(s[n..], m', tools);
      assert s == t + s[n..];
      assert (t + o.text) + o.rest == t + (o.text + o.rest);
  }

  lemma {:induction false} ScanUnfold(s: string, m: Mode, tools: Tools)
    ensures match Next(s, m, tools)
            case Hold => Scan(s, m, tools) == Outcome(s, m, "", [])
            case Take(n, m', t, c) =>
              var o := Scan(s[n..], m', tools);
              Scan(s, m, tools) == Outcome(o.rest, o.mode, t + o.text, c + o.calls)
  {
    hide Next;
  }
}
