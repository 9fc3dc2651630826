/** What the one-shot parser finds in a printed document.  It searches for
    `</tool_call>` before it looks at functions, so it may cut a block inside a
    header or a value. */
module QwenReading {
  import opened Wrappers
  import opened TextSearch
  import opened QwenScanner
  import opened QwenChunks
  import opened QwenPrinter
  import opened QwenDocument
  import opened QwenOneShot

  function HeaderText(name: string): string {
    FUNCTION_PREFIX + name + ">"
  }

  function KeyText(key: string): string {
    PARAMETER_PREFIX + key + ">"
  }

  /** The text between `<function=name>` and `</function>`. */
  function Inner(f: Function): string {
    f.gap + Print(ParamPieces(f.params))
  }

  /** The text between `<tool_call>` and `</tool_call>`. */
  function Content(b: Block): string
    requires b.Block?
  {
    b.gap + Print(FunctionsPieces(b.functions))
  }

  // ----- Where a block ends for the one-shot parser -----

  /** The first `</tool_call>` when one is appended to `x`. */
  function FirstEnd(x: string): (q: nat)
    ensures q <= |x| && OccursAt(x + CALL_END, CALL_END, q)
    ensures forall j: nat | j < q :: !OccursAt(x + CALL_END, CALL_END, j)
  {
    assert (x + CALL_END)[|x|..|x| + |CALL_END|] == CALL_END;
    assert OccursAt(x + CALL_END, CALL_END, |x|);
    Find(x + CALL_END, CALL_END, 0).value
  }

  /** The part of a block's content that is parsed, and what follows its end. */
  function Cut(x: string): string {
    x[..FirstEnd(x)]
  }

  function Behind(x: string): string {
    (x + CALL_END)[FirstEnd(x) + |CALL_END|..]
  }

  lemma {:induction false} CutParts(x: string)
    ensures x + CALL_END == Cut(x) + (CALL_END + Behind(x))
    ensures Free(Cut(x), CALL_END)
    ensures Behind(x) == "" || Behind(x)[|Behind(x)| - 1] == '>'
  {
    hide FirstEnd, Find;
    var q, y := FirstEnd(x), x + CALL_END;
    assert y[..q] == x[..q] && y[q..q + |CALL_END|] == CALL_END;
    assert y == y[..q] + (y[q..q + |CALL_END|] + y[q + |CALL_END|..]);
    assert y == Cut(x) + (y[q..]);
    forall i: nat ensures !OccursAt(Cut(x), CALL_END, i) {
      if i + |CALL_END| <= q {
        OccursInExtension(Cut(x), y[q..], CALL_END, i);
      }
    }
    assert CALL_END[|CALL_END| - 1] == '>';
    if Behind(x) != "" {
      assert Behind(x)[|Behind(x)| - 1] == y[|y| - 1];
    }
  }

  lemma {:induction false} CutIs(x: string, q: nat)
    requires OccursAt(x + CALL_END, CALL_END, q) && forall j: nat | j < q :: !OccursAt(x + CALL_END, CALL_END, j)
    ensures FirstEnd(x) == q
  {
  }

  lemma {:induction false} CutNothing()
    ensures Cut("") == "" && Behind("") == ""
  {
  }

  /** Text without the tag is kept whole. */
  lemma {:induction false} CutSkip(u: string, v: string)
    requires Free(u, CALL_END) && CleanSeam(u, v + CALL_END)
    ensures Cut(u + v) == u + Cut(v) && Behind(u + v) == Behind(v)
  {
    hide OccursAt;
    TagShapes();
    var q := FirstEnd(v);
    assert (u + v) + CALL_END == u + (v + CALL_END);
    forall i: nat | i < |u| ensures !OccursAt(u + (v + CALL_END), CALL_END, i) {
      if OccursAt(u + (v + CALL_END), CALL_END, i) {
        TagAcrossSeam(u, v + CALL_END, CALL_END, i);
      }
    }
    forall i: nat | |u| <= i ensures OccursAt(u + (v + CALL_END), CALL_END, i) <==> OccursAt(v + CALL_END, CALL_END, i - |u|) {
      OccursInSuffix(u, v + CALL_END, CALL_END, i);
    }
    CutIs(u + v, |u| + q);
    assert (u + v)[..|u| + q] == u + v[..q];
    assert ((u + v) + CALL_END)[|u| + q + |CALL_END|..] == (v + CALL_END)[q + |CALL_END|..];
  }

  /** A hit inside `u` ends the text there. */
  lemma {:induction false} CutInside(u: string, v: string)
    requires !Free(u, CALL_END)
    ensures Cut(u + v) == Cut(u) && FirstEnd(u) + |CALL_END| <= |u|
  {
    var i: nat :| OccursAt(u, CALL_END, i);
    hide OccursAt;
    assert i + |CALL_END| <= |u| by { OccursFits(u, CALL_END, i); }
    OccursInExtension(u, CALL_END, CALL_END, i);
    var q := FirstEnd(u);
    assert q <= i;
    assert (u + v) + CALL_END == u + (v + CALL_END);
    forall j: nat | j <= q
      ensures OccursAt((u + v) + CALL_END, CALL_END, j) <==> OccursAt(u + CALL_END, CALL_END, j) {
      OccursInExtension(u, v + CALL_END, CALL_END, j);
      OccursInExtension(u, CALL_END, CALL_END, j);
    }
    CutIs(u + v, q);
    assert (u + v)[..q] == u[..q];
  }

  lemma {:induction false} OccursFits(s: string, t: string, i: nat)
    requires OccursAt(s, t, i)
    ensures i + |t| <= |s|
  {
  }

  // ----- Tags do not hide inside printed pieces -----

  /** A well-formed print contains a tag only if one of its pieces does. */
  lemma {:induction false} PrintFree(ps: seq<Piece>, tail: string, t: string)
    requires IsTag(t) && WellFormed(ps, tail) && tail != "" && tail[0] == '<'
    requires forall i | 0 <= i < |ps| :: Free(PieceText(ps[i]), t)
    ensures Free(Print(ps), t)
    decreases |ps|
  {
    if ps != [] {
      var a, b := PieceText(ps[0]), Print(ps[1..]);
      forall i | 0 <= i < |ps[1..]| ensures Free(PieceText(ps[1..][i]), t) {
        assert ps[1..][i] == ps[i + 1];
      }
      PrintFree(ps[1..], tail, t);
      assert Free(a, t) by { assert Free(PieceText(ps[0]), t); }
      PieceSeam(ps[0], b, tail);
      FreeConcat(a, b, t);
    }
  }

  lemma {:induction false} PieceSeam(p: Piece, b: string, tail: string)
    requires Fits(p, b + tail) && tail != "" && tail[0] == '<'
    ensures CleanSeam(PieceText(p), b)
  {
    if b != "" {
      assert (b + tail)[0] == b[0];
    }
  }

  lemma {:induction false} ParameterFree(p: Param, t: string)
    requires t == FUNCTION_END && Free(KeyText(p.key), t) && ValueFree(p.raw)
    ensures Free(PieceText(Parameter(p.key, p.raw, p.closed)), t)
  {
    TagShapes();
    var header, end := KeyText(p.key), if p.closed then PARAMETER_END else "";
    assert Free(end, t) by {
      if p.closed {
        assert PARAMETER_END[2] == 'p' && t[2] == 'f';
        SingleAngleFree(end, t);
      }
    }
    assert header[|header| - 1] == '>';
    FreeConcat(header, p.raw, t);
    FreeConcat(header + p.raw, end, t);
  }

  lemma {:induction false} GapFree(g: string, t: string)
    requires TagFree(g) && t in {CALL_START, CALL_END, FUNCTION_PREFIX, FUNCTION_END, PARAMETER_PREFIX}
    ensures Free(g, t)
  {
  }

  // ----- Searching in a text of known layout -----

  lemma {:induction false} FindTagOn(s: string, a: string, g: string, b: string, t: string)
    requires s == a + (g + b) && IsTag(t) && t <= b && Free(g, t)
    ensures Find(s, t, |a|) == Some(|a| + |g|)
  {
    hide Find, OccursAt, Free;
    FindShift(s, t, |a|);
    assert s[|a|..] == g + b;
    FindAfterFree(g, b, t);
    TerminatorAtStart(b, t);
  }

  lemma {:induction false} FindNameEnd(s: string, n: nat, name: string, after: string)
    requires n <= |s| && s[n..] == name + ">" + after && '>' !in name
    ensures Find(s, ">", n) == Some(n + |name|)
  {
    FindShift(s, ">", n);
    assert s[n..][..|name|] == name;
    FindCharIs(s[n..], '>', |name|);
  }

  lemma {:induction false} FindNoName(s: string, n: nat)
    requires n <= |s| && '>' !in s[n..]
    ensures Find(s, ">", n) == None
  {
    FindShift(s, ">", n);
    FindChar(s[n..], '>');
  }

  lemma {:induction false} FindNothing(s: string, a: string, g: string, t: string)
    requires s == a + g && Free(g, t)
    ensures Find(s, t, |a|) == None
  {
    FindShift(s, t, |a|);
    assert s[|a|..] == g;
  }

  // ----- Parameters -----

  function AllPairs(ps: seq<Param>): seq<(string, string)> {
    if ps == [] then [] else [(ps[0].key, ps[0].raw)] + AllPairs(ps[1..])
  }

  /** How many parameters are read when nothing follows them: an open last value
      has no terminator, because the text is cut in front of `</function>`. */
  function KeptCount(ps: seq<Param>): (n: nat)
    ensures n <= |ps|
  {
    if ps != [] && !ps[|ps| - 1].closed then |ps| - 1 else |ps|
  }

  lemma {:induction false} NextParamOn(s: string, a: string, g: string, key: string, raw: string, after: string)
    requires s == a + (g + (KeyText(key) + raw + after))
    requires Free(g, PARAMETER_PREFIX) && '>' !in key && ValueFree(raw)
    requires PARAMETER_END <= after || PARAMETER_PREFIX <= after
    ensures NextParam(s, |a|) ==
            Some(Hit(key, raw, |s| - |after| + (if PARAMETER_END <= after then |PARAMETER_END| else 0)))
  {
    hide Find, OccursAt, FindValueEnd, ValueFree, Free;
    var n := |a| + |g| + |PARAMETER_PREFIX|;
    var e := n + |key|;
    FindTagOn(s, a, g, KeyText(key) + raw + after, PARAMETER_PREFIX);
    FindNameEnd(s, n, key, raw + after);
    assert s[e + 1..] == raw + after;
    ValueEndAt(raw, after);
    assert (raw + after)[..|raw|] == raw;
    assert s[n..e] == key;
  }

  /** The start of a parameter that is never completed: a header without `>`, or a
      value without a terminator. */
  ghost predicate DeadEnd(e: string) {
    PARAMETER_PREFIX <= e && ('>' !in e || exists key: string, raw: string :: OpenParameter(e, key, raw))
  }

  lemma {:induction false} DeadEndStops(s: string, a: string, g: string, e: string)
    requires s == a + (g + e) && Free(g, PARAMETER_PREFIX) && DeadEnd(e)
    ensures NextParam(s, |a|) == None
  {
    hide NextParam, Free;
    if '>' !in e {
      UnfinishedHeaderStops(s, a, g, e);
    } else {
      var key, raw :| OpenParameter(e, key, raw);
      OpenValueStops(s, a, g, key, raw);
    }
  }

  lemma {:induction false} UnfinishedHeaderStops(s: string, a: string, g: string, e: string)
    requires s == a + (g + e) && Free(g, PARAMETER_PREFIX) && PARAMETER_PREFIX <= e && '>' !in e
    ensures NextParam(s, |a|) == None
  {
    hide Find, OccursAt, FindValueEnd, Free;
    TagShapes();
    FindTagOn(s, a, g, e, PARAMETER_PREFIX);
    var n := |a| + |g| + |PARAMETER_PREFIX|;
    assert s[n..] == e[|PARAMETER_PREFIX|..];
    FindNoName(s, n);
  }

  lemma {:induction false} OpenValueStops(s: string, a: string, g: string, key: string, raw: string)
    requires s == a + (g + (PARAMETER_PREFIX + key + ">" + raw))
    requires Free(g, PARAMETER_PREFIX) && '>' !in key && ValueFree(raw)
    ensures NextParam(s, |a|) == None
  {
    hide Find, OccursAt, FindValueEnd, ValueFree, Free;
    var n := |a| + |g| + |PARAMETER_PREFIX|;
    FindTagOn(s, a, g, PARAMETER_PREFIX + key + ">" + raw, PARAMETER_PREFIX);
    FindNameEnd(s, n, key, raw);
    assert s[n + |key| + 1..] == raw;
    NoValueEnd(raw);
  }

  lemma {:induction false} NoValueEnd(raw: string)
    requires ValueFree(raw)
    ensures FindValueEnd(raw) == None
  {
  }

  lemma {:induction false} ClosedParamText(ps: seq<Param>)
    requires ps != [] && ps[0].closed
    ensures Print(ParamPieces(ps)) ==
            KeyText(ps[0].key) + ps[0].raw + (PARAMETER_END + (ps[0].gap + Print(ParamPieces(ps[1..]))))
  {
    hide Print;
    var p, later := ps[0], ParamPieces(ps[1..]);
    var param := Parameter(p.key, p.raw, true);
    PrintConcat(ParamFront(p), later);
    assert ParamFront(p) == [param, Text(p.gap)];
    TwoPieces(param, Text(p.gap), "");
  }

  lemma {:induction false} OpenParamText(ps: seq<Param>)
    requires ps != [] && !ps[0].closed
    ensures Print(ParamPieces(ps)) == KeyText(ps[0].key) + ps[0].raw + Print(ParamPieces(ps[1..]))
  {
    hide Print;
    var p, later := ps[0], ParamPieces(ps[1..]);
    var param := Parameter(p.key, p.raw, false);
    PrintConcat(ParamFront(p), later);
    assert ParamFront(p) == [param];
    OnePiece(param, "");
  }

  lemma {:induction false} ParamsStart(ps: seq<Param>)
    requires ps != []
    ensures PARAMETER_PREFIX <= Print(ParamPieces(ps))
  {
    if ps[0].closed { ClosedParamText(ps); } else { OpenParamText(ps); }
  }

  lemma {:induction false} NothingPrinted()
    ensures ParamPieces([]) == [] && FunctionsPieces([]) == [] && BlocksPieces([]) == [] && Print([]) == ""
  {
  }

  lemma {:induction false} ParamsEnd(s: string, pos: nat)
    requires Find(s, PARAMETER_PREFIX, pos).None?
    ensures NextParam(s, pos).None?
  {
  }

  lemma {:induction false} ParamIsValid(p: Param)
    requires ValidParam(p)
    ensures '>' !in p.key && ValueFree(p.raw) && TagFree(p.gap)
  {
  }

  lemma {:induction false} ClosedParamStep(s: string, a: string, g: string, p: Param, later: string)
    requires ValidParam(p) && p.closed && Free(g, PARAMETER_PREFIX)
    requires s == a + (g + (KeyText(p.key) + p.raw + (PARAMETER_END + (p.gap + later))))
    ensures var h := NextParam(s, |a|);
            && h.Some? && h.value.name == p.key && h.value.body == p.raw
            && h.value.next <= |s| && Free(p.gap, PARAMETER_PREFIX)
            && s == s[..h.value.next] + (p.gap + later)
  {
    hide NextParam, Free, ValueFree;
    NextParamOn(s, a, g, p.key, p.raw, PARAMETER_END + (p.gap + later));
  }

  lemma {:induction false} OpenParamStep(s: string, a: string, g: string, p: Param, later: string)
    requires ValidParam(p) && !p.closed && PARAMETER_PREFIX <= later && Free(g, PARAMETER_PREFIX)
    requires s == a + (g + (KeyText(p.key) + p.raw + later))
    ensures var h := NextParam(s, |a|);
            && h.Some? && h.value.name == p.key && h.value.body == p.raw
            && h.value.next <= |s| && Free("", PARAMETER_PREFIX)
            && s == s[..h.value.next] + ("" + later)
  {
    hide NextParam, ValueFree;
    EmptyHasNoTag();
    hide Free;
    assert later[1] == 'p';
    NextParamOn(s, a, g, p.key, p.raw, later);
  }

  lemma {:induction false} EmptyHasNoTag()
    ensures Free("", PARAMETER_PREFIX)
  {
  }

  /** The parameter loop reads all parameters in front of a dead end, and all but an
      open last one in front of nothing. */
  lemma {:induction false} ParamsRead(s: string, a: string, g: string, ps: seq<Param>, e: string)
    requires s == a + (g + (Print(ParamPieces(ps)) + e)) && Free(g, PARAMETER_PREFIX)
    requires forall i | 0 <= i < |ps| :: ValidParam(ps[i])
    requires e == "" || DeadEnd(e)
    ensures ParamList(s, |a|) == AllPairs(if e == "" then ps[..KeptCount(ps)] else ps)
    decreases |ps|
  {
    hide NextParam, ValidParam, Free, Print, DeadEnd;
    if ps == [] {
      NothingPrinted();
      assert s == a + (g + e);
      if e == "" {
        assert g + e == g;
        FindNothing(s, a, g, PARAMETER_PREFIX);
        ParamsEnd(s, |a|);
      } else {
        DeadEndStops(s, a, g, e);
      }
    } else {
      var p, rest := ps[0], Print(ParamPieces(ps[1..]));
      var later := rest + e;
      assert ValidParam(p);
      PairsTail(ps);
      if p.closed {
        ClosedParamText(ps);
        assert Print(ParamPieces(ps)) + e == KeyText(p.key) + p.raw + (PARAMETER_END + (p.gap + later));
        ClosedParamStep(s, a, g, p, later);
        ParamsRead(s, s[..NextParam(s, |a|).value.next], p.gap, ps[1..], e);
      } else if |ps| == 1 && e == "" {
        OpenParamText(ps);
        NothingPrinted();
        assert ps[1..] == [];
        var o := KeyText(p.key) + p.raw;
        assert Print(ParamPieces(ps)) + e == o by { assert p.raw + "" == p.raw; }
        OpenIsDead(p);
        DeadEndStops(s, a, g, o);
      } else {
        OpenParamText(ps);
        assert Print(ParamPieces(ps)) + e == KeyText(p.key) + p.raw + later;
        LaterStarts(ps[1..], e);
        OpenParamStep(s, a, g, p, later);
        ParamsRead(s, s[..NextParam(s, |a|).value.next], "", ps[1..], e);
      }
    }
  }

  lemma {:induction false} PairsTail(ps: seq<Param>)
    requires ps != []
    ensures AllPairs(ps) == [(ps[0].key, ps[0].raw)] + AllPairs(ps[1..])
    ensures |ps| == 1 && !ps[0].closed ==> AllPairs(ps[..KeptCount(ps)]) == []
    ensures |ps| > 1 || ps[0].closed ==>
              AllPairs(ps[..KeptCount(ps)]) == [(ps[0].key, ps[0].raw)] + AllPairs(ps[1..][..KeptCount(ps[1..])])
  {
    var n := KeptCount(ps);
    if |ps| > 1 || ps[0].closed {
      assert ps[..n] == [ps[0]] + ps[1..][..n - 1];
      assert KeptCount(ps[1..]) == n - 1;
    }
  }

  lemma {:induction false} OpenIsDead(p: Param)
    requires ValidParam(p)
    ensures DeadEnd(KeyText(p.key) + p.raw)
  {
    hide Free;
    assert OpenParameter(KeyText(p.key) + p.raw, p.key, p.raw);
  }

  lemma {:induction false} LaterStarts(ps: seq<Param>, e: string)
    requires (ps != [] || e != "") && (e == "" || DeadEnd(e))
    ensures PARAMETER_PREFIX <= Print(ParamPieces(ps)) + e
  {
    hide Print;
    if ps != [] {
      ParamsStart(ps);
    } else {
      NothingPrinted();
      assert "" + e == e;
    }
  }
}
