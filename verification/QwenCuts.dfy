/** The functions the one-shot parser finds in a printed document: those of every
    block up to the first `</tool_call>` in it, or bare functions when there is no
    block at all. */
module QwenCuts {
  import opened Wrappers
  import opened TextSearch
  import opened QwenScanner
  import opened QwenChunks
  import opened QwenPrinter
  import opened QwenDocument
  import opened QwenCalls
  import opened QwenOneShot
  import opened QwenReading

  // ----- Where headers and values hide the end of a block -----

  ghost predicate HeaderHides(f: Function) {
    !Free(HeaderText(f.name), CALL_END)
  }

  /** `</tool_call>` occurs in the parameter's header or in its value. */
  ghost predicate ParamHides(p: Param) {
    !Free(KeyText(p.key) + p.raw, CALL_END)
  }

  /** How many parameters stand in front of the first one that hides the end. */
  ghost function FirstHiding(ps: seq<Param>): (n: nat)
    ensures n <= |ps|
  {
    if ps == [] || ParamHides(ps[0]) then 0 else 1 + FirstHiding(ps[1..])
  }

  ghost predicate ParamsHide(ps: seq<Param>) {
    FirstHiding(ps) < |ps|
  }

  /** How many parameters of a function in a block are read. */
  ghost function CutCount(f: Function): (n: nat)
    ensures n <= |f.params|
  {
    if ParamsHide(f.params) then FirstHiding(f.params) else KeptCount(f.params)
  }

  /** A function and how many of its parameters are read. */
  type Seen = (Function, nat)

  /** The functions of a block that are found. */
  ghost function SeenIn(fs: seq<Function>): seq<Seen> {
    if fs == [] || HeaderHides(fs[0]) then []
    else [(fs[0], CutCount(fs[0]))] + (if ParamsHide(fs[0].params) then [] else SeenIn(fs[1..]))
  }

  /** `found` is what the loops return for the functions in `seen`. */
  ghost predicate Reads(found: seq<(string, string)>, seen: seq<Seen>) {
    && |found| == |seen|
    && forall i | 0 <= i < |seen| ::
         && seen[i].1 <= |seen[i].0.params| && found[i].0 == seen[i].0.name
         && ParamList(found[i].1, 0) == AllPairs(seen[i].0.params[..seen[i].1])
  }

  lemma {:induction false} ReadsConcat(a: seq<(string, string)>, s: seq<Seen>, b: seq<(string, string)>, t: seq<Seen>)
    requires Reads(a, s) && Reads(b, t)
    ensures Reads(a + b, s + t)
  {
    hide ParamList, AllPairs;
  }

  lemma {:induction false} ReadsOne(name: string, body: string, f: Function, n: nat)
    requires n <= |f.params| && name == f.name && ParamList(body, 0) == AllPairs(f.params[..n])
    ensures Reads([(name, body)], [(f, n)]) && Reads([], [])
  {
    hide ParamList, AllPairs;
  }

  // ----- Printed parameters -----

  /** Keys whose header does not contain `</function>`. */
  ghost predicate PlainKeys(ps: seq<Param>) {
    forall i | 0 <= i < |ps| :: ValidParam(ps[i]) && Free(KeyText(ps[i].key), FUNCTION_END)
  }

  ghost predicate Readable(f: Function) {
    ValidFunction(f) && PlainKeys(f.params)
  }

  lemma {:induction false} ParamPiecesFree(ps: seq<Param>)
    requires PlainKeys(ps)
    ensures forall i | 0 <= i < |ParamPieces(ps)| :: Free(PieceText(ParamPieces(ps)[i]), FUNCTION_END)
    decreases |ps|
  {
    hide PieceText, Free;
    if ps != [] {
      var p := ps[0];
      assert ValidParam(p);
      ParamPiecesFree(ps[1..]);
      ParamIsValid(p);
      ParameterFree(p, FUNCTION_END);
      GapFree(p.gap, FUNCTION_END);
      TextPiece(p.gap);
    }
  }

  lemma {:induction false} TextPiece(t: string)
    ensures PieceText(Text(t)) == t
  {
  }

  /** `</function>` does not occur before the end of a function. */
  lemma {:induction false} InnerFree(f: Function)
    requires Readable(f)
    ensures Free(Inner(f), FUNCTION_END)
  {
    hide Print, WellFormed, TagFree, PieceText;
    TagShapes();
    var ps := [Text(f.gap)] + ParamPieces(f.params);
    ParamsFit(f.params, FUNCTION_END);
    ParamPiecesFree(f.params);
    forall i | 0 <= i < |ps| ensures Free(PieceText(ps[i]), FUNCTION_END) {
      if i == 0 {
        GapFree(f.gap, FUNCTION_END);
        TextPiece(f.gap);
      }
    }
    OnePiece(Text(f.gap), Print(ParamPieces(f.params)) + FUNCTION_END);
    assert (Print(ParamPieces(f.params)) + FUNCTION_END)[0] == '<';
    WellFormedConcat([Text(f.gap)], ParamPieces(f.params), FUNCTION_END);
    PrintFree(ps, FUNCTION_END, FUNCTION_END);
    PrintCons(Text(f.gap), ParamPieces(f.params));
    TextPiece(f.gap);
  }

  /** The first parameter's print is its header and value, and a rest that starts
      with a tag or is what follows. */
  function ParamRest(p: Param): string {
    if p.closed then PARAMETER_END + p.gap else ""
  }

  lemma {:induction false} ParamsText(ps: seq<Param>, later: string)
    requires ps != []
    ensures Print(ParamPieces(ps)) + later ==
            (KeyText(ps[0].key) + ps[0].raw) + (ParamRest(ps[0]) + (Print(ParamPieces(ps[1..])) + later))
  {
    hide Print;
    var p, rest := ps[0], Print(ParamPieces(ps[1..]));
    if p.closed {
      ClosedParamText(ps);
      assert PARAMETER_END + (p.gap + rest) + later == (PARAMETER_END + p.gap) + (rest + later);
    } else {
      OpenParamText(ps);
      assert "" + (rest + later) == rest + later;
    }
  }

  lemma {:induction false} ParamRestFree(p: Param)
    requires ValidParam(p)
    ensures Free(ParamRest(p), CALL_END) && (ParamRest(p) == "" || ParamRest(p)[0] == '<')
  {
    TagShapes();
    ParamIsValid(p);
    hide ValidParam;
    if p.closed {
      assert PARAMETER_END[2] == 'p' && CALL_END[2] == 't';
      SingleAngleFree(PARAMETER_END, CALL_END);
      GapFree(p.gap, CALL_END);
      FreeConcat(PARAMETER_END, p.gap, CALL_END);
    }
  }

  /** Text that starts with a tag, or nothing. */
  predicate StartsClean(x: string) {
    x == "" || x[0] == '<'
  }

  lemma {:induction false} SeamIsClean(a: string, x: string)
    requires StartsClean(x)
    ensures CleanSeam(a, x + CALL_END) && CleanSeam(a, x)
  {
    assert (x + CALL_END)[0] == '<';
  }

  lemma {:induction false} PrintedStart(ps: seq<Param>, later: string)
    requires StartsClean(later)
    ensures StartsClean(Print(ParamPieces(ps)) + later)
  {
    hide Print;
    if ps == [] {
      NothingPrinted();
      assert "" + later == later;
    } else {
      ParamsStart(ps);
    }
  }

  /** The cut through printed parameters: behind them when none hides the end, and
      otherwise at a dead end behind the ones in front of the hiding one. */
  lemma {:induction false} ParamsCut(ps: seq<Param>, later: string) returns (stub: string)
    requires (forall i | 0 <= i < |ps| :: ValidParam(ps[i])) && StartsClean(later)
    ensures !ParamsHide(ps) ==> Cut(Print(ParamPieces(ps)) + later) == Print(ParamPieces(ps)) + Cut(later)
                                && Behind(Print(ParamPieces(ps)) + later) == Behind(later) && stub == ""
    ensures ParamsHide(ps) ==> DeadEnd(stub)
                               && Cut(Print(ParamPieces(ps)) + later) == Print(ParamPieces(ps[..FirstHiding(ps)])) + stub
                               && Print(ParamPieces(ps[..FirstHiding(ps)])) + stub <= Print(ParamPieces(ps))
    decreases |ps|
  {
    hide Print, Free, ValidParam, DeadEnd, Cut, Behind, ParamHides;
    if ps == [] {
      NothingPrinted();
      stub := "";
      assert "" + later == later && "" + Cut(later) == Cut(later);
    } else {
      var p, rest := ps[0], Print(ParamPieces(ps[1..])) + later;
      assert ValidParam(p);
      ParamsText(ps, later);
      ParamsText(ps, "");
      var head := KeyText(p.key) + p.raw;
      assert Print(ParamPieces(ps)) + "" == Print(ParamPieces(ps)) && Print(ParamPieces(ps[1..])) + "" == Print(ParamPieces(ps[1..]));
      if ParamHides(p) {
        NothingPrinted();
        assert ps[..0] == [];
        stub := Cut(head);
        assert "" + stub == stub;
        HidingParam(p, ParamRest(p) + rest);
        CutFits(head);
      } else {
        stub := ParamsCut(ps[1..], later);
        PlainParam(p, ps[1..], later);
        ParamPrefix(ps, FirstHiding(ps[1..]), stub);
      }
    }
  }

  lemma {:induction false} CutFits(x: string)
    ensures Cut(x) <= x
  {
  }

  lemma {:induction false} HidingParam(p: Param, after: string)
    requires ValidParam(p) && ParamHides(p)
    ensures var head := KeyText(p.key) + p.raw;
            Cut(head + after) == Cut(head) && DeadEnd(Cut(head))
  {
    hide Cut, DeadEnd, ValidParam, ValueFree, FirstEnd;
    var head := KeyText(p.key) + p.raw;
    CutInside(head, after);
    ParamIsValid(p);
    FirstEndInHead(p.key, p.raw);
    CutLength(head);
    if FirstEnd(head) < |KeyText(p.key)| {
      HeaderStub(p.key, p.raw, FirstEnd(head));
    } else {
      ValueStub(p.key, p.raw, FirstEnd(head));
    }
  }

  lemma {:induction false} CutLength(x: string)
    ensures Cut(x) == x[..FirstEnd(x)]
  {
  }

  lemma {:induction false} HeaderStub(key: string, raw: string, q: nat)
    requires '>' !in key && |PARAMETER_PREFIX| <= q < |KeyText(key)|
    ensures DeadEnd((KeyText(key) + raw)[..q])
  {
    TagShapes();
    var header, stub := KeyText(key), (KeyText(key) + raw)[..q];
    assert stub == header[..q];
    assert forall i | 0 <= i < |header| - 1 :: header[i] != '>';
    assert '>' !in stub;
  }

  lemma {:induction false} ValueStub(key: string, raw: string, q: nat)
    requires '>' !in key && ValueFree(raw) && |KeyText(key)| <= q <= |KeyText(key) + raw|
    ensures DeadEnd((KeyText(key) + raw)[..q])
  {
    hide ValueFree, Free;
    var header, n := KeyText(key), q - |KeyText(key)|;
    var stub := (header + raw)[..q];
    assert stub == header + raw[..n];
    ValuePrefixFree(raw, n);
    ValueIsOpen(stub, key, raw[..n]);
  }

  lemma {:induction false} ValueIsOpen(e: string, key: string, raw: string)
    requires e == KeyText(key) + raw && '>' !in key && ValueFree(raw)
    ensures DeadEnd(e)
  {
    hide Free;
    assert OpenParameter(e, key, raw);
  }

  /** The first hit in a parameter lies behind its prefix. */
  lemma {:induction false} FirstEndInHead(key: string, raw: string)
    requires FirstEnd(KeyText(key) + raw) + |CALL_END| <= |KeyText(key) + raw|
    ensures FirstEnd(KeyText(key) + raw) >= |PARAMETER_PREFIX|
  {
    var head := KeyText(key) + raw;
    var q := FirstEnd(head);
    hide FirstEnd;
    OccursChars(head + CALL_END, CALL_END, q);
    assert (head + CALL_END)[q] == CALL_END[0] == '<' && (head + CALL_END)[q + 1] == CALL_END[1] == '/';
    TagShapes();
    assert forall i | 0 <= i < |PARAMETER_PREFIX| :: (head + CALL_END)[i] == PARAMETER_PREFIX[i];
    assert PARAMETER_PREFIX[1] == 'p';
  }

  lemma {:induction false} ValuePrefixFree(raw: string, n: nat)
    requires ValueFree(raw) && n <= |raw|
    ensures ValueFree(raw[..n])
  {
    assert raw[0..n] == raw[..n];
    FreeSlice(raw, PARAMETER_END, 0, n);
    FreeSlice(raw, PARAMETER_PREFIX, 0, n);
    FreeSlice(raw, FUNCTION_END, 0, n);
  }

  lemma {:induction false} PlainParam(p: Param, ps: seq<Param>, later: string)
    requires ValidParam(p) && !ParamHides(p) && StartsClean(later)
    ensures var rest := Print(ParamPieces(ps)) + later;
            var front := (KeyText(p.key) + p.raw) + ParamRest(p);
            && Cut((KeyText(p.key) + p.raw) + (ParamRest(p) + rest)) == front + Cut(rest)
            && Behind((KeyText(p.key) + p.raw) + (ParamRest(p) + rest)) == Behind(rest)
  {
    hide Cut, Behind, ValidParam, Print, Free;
    TagShapes();
    var head, mid, rest := KeyText(p.key) + p.raw, ParamRest(p), Print(ParamPieces(ps)) + later;
    ParamRestFree(p);
    PrintedStart(ps, later);
    SeamIsClean(head, mid);
    FreeConcat(head, mid, CALL_END);
    SeamIsClean(head + mid, rest);
    CutSkip(head + mid, rest);
    assert head + (mid + rest) == (head + mid) + rest;
  }

  lemma {:induction false} ParamPrefix(ps: seq<Param>, n: nat, stub: string)
    requires ps != [] && n <= |ps| - 1
    ensures Print(ParamPieces(ps[..n + 1])) + stub ==
            ((KeyText(ps[0].key) + ps[0].raw) + ParamRest(ps[0])) + (Print(ParamPieces(ps[1..][..n])) + stub)
    ensures Print(ParamPieces(ps)) == ((KeyText(ps[0].key) + ps[0].raw) + ParamRest(ps[0])) + Print(ParamPieces(ps[1..]))
    ensures FirstHiding(ps[1..]) == n && !ParamHides(ps[0]) ==> FirstHiding(ps) == n + 1
  {
    hide Print, ParamHides;
    assert ps[..n + 1][1..] == ps[1..][..n] && ps[..n + 1][0] == ps[0];
    ParamsText(ps[..n + 1], stub);
    ParamsText(ps, "");
    assert Print(ParamPieces(ps)) + "" == Print(ParamPieces(ps));
    assert Print(ParamPieces(ps[1..])) + "" == Print(ParamPieces(ps[1..]));
  }

  // ----- Functions -----

  lemma {:induction false} BodyText(f: Function)
    ensures Print(FunctionBody(f)) == HeaderText(f.name) + Inner(f) + FUNCTION_END
  {
    hide Print, ParamPieces;
    var front, params := [Header(f.name), Text(f.gap)], ParamPieces(f.params);
    TwoPieces(Header(f.name), Text(f.gap), "");
    OnePiece(FunctionEnd, "");
    PrintConcat(front + params, [FunctionEnd]);
    PrintConcat(front, params);
  }

  lemma {:induction false} FunctionsText(fs: seq<Function>)
    requires fs != []
    ensures Print(FunctionsPieces(fs)) ==
            HeaderText(fs[0].name) + (Inner(fs[0]) + (FUNCTION_END + (fs[0].after + Print(FunctionsPieces(fs[1..])))))
  {
    hide Print, FunctionBody, Inner, HeaderText;
    var f := fs[0];
    PrintConcat(FunctionPieces(f), FunctionsPieces(fs[1..]));
    PrintConcat(FunctionBody(f), [Text(f.after)]);
    OnePiece(Text(f.after), "");
    TextPiece(f.after);
    BodyText(f);
  }

  lemma {:induction false} FunctionsStart(fs: seq<Function>)
    ensures StartsClean(Print(FunctionsPieces(fs)))
  {
    if fs == [] {
      NothingPrinted();
    } else {
      FunctionsText(fs);
      assert Print(FunctionsPieces(fs))[0] == FUNCTION_PREFIX[0];
    }
  }

  lemma {:induction false} NextFunctionOn(s: string, a: string, g: string, name: string, inner: string, after: string)
    requires s == a + (g + (HeaderText(name) + (inner + (FUNCTION_END + after))))
    requires Free(g, FUNCTION_PREFIX) && '>' !in name && Free(inner, FUNCTION_END)
    ensures NextFunction(s, |a|) == Some(Hit(name, inner, |s| - |after|))
  {
    hide Find, OccursAt, Free;
    TagShapes();
    var n := |a| + |g| + |FUNCTION_PREFIX|;
    var e := n + |name|;
    var rest := inner + (FUNCTION_END + after);
    FindTagOn(s, a, g, HeaderText(name) + rest, FUNCTION_PREFIX);
    FindNameEnd(s, n, name, rest);
    assert s == s[..e + 1] + rest;
    FindTagOn(s, s[..e + 1], inner, FUNCTION_END + after, FUNCTION_END);
    assert s[n..e] == name;
    assert s[e + 1..e + 1 + |inner|] == inner;
  }

  /** A function whose end is cut off takes the rest of the text. */
  lemma {:induction false} OpenFunctionOn(s: string, a: string, g: string, name: string, inner: string)
    requires s == a + (g + (HeaderText(name) + inner))
    requires Free(g, FUNCTION_PREFIX) && '>' !in name && Free(inner, FUNCTION_END)
    ensures FunctionList(s, |a|) == [(name, inner)]
  {
    hide Find, OccursAt, Free;
    TagShapes();
    var n := |a| + |g| + |FUNCTION_PREFIX|;
    var e := n + |name|;
    FindTagOn(s, a, g, HeaderText(name) + inner, FUNCTION_PREFIX);
    FindNameEnd(s, n, name, inner);
    assert s == s[..e + 1] + inner;
    FindNothing(s, s[..e + 1], inner, FUNCTION_END);
    assert s[n..e] == name && s[e + 1..] == inner;
    FunctionsAtEnd(s);
  }

  lemma {:induction false} FunctionsAtEnd(s: string)
    ensures FunctionList(s, |s|) == []
  {
  }

  /** A header cut in its name is not found. */
  lemma {:induction false} CutHeaderOn(s: string, a: string, g: string, stub: string)
    requires s == a + (g + stub) && Free(g, FUNCTION_PREFIX) && StartsClean(stub) && '>' !in stub
    ensures FunctionList(s, |a|) == []
  {
    hide OccursAt, Free;
    TagShapes();
    FindShift(s, FUNCTION_PREFIX, |a|);
    assert s[|a|..] == g + stub;
    FindAfterFree(g, stub, FUNCTION_PREFIX);
    match Find(s, FUNCTION_PREFIX, |a|)
    case None =>
    case Some(p) =>
      assert s[p + |FUNCTION_PREFIX|..] == stub[p + |FUNCTION_PREFIX| - |a| - |g|..];
      FindNoName(s, p + |FUNCTION_PREFIX|);
  }

  lemma {:induction false} NoFunctionOn(s: string, a: string, g: string)
    requires s == a + g && Free(g, FUNCTION_PREFIX)
    ensures FunctionList(s, |a|) == []
  {
    hide OccursAt, Free;
    FindNothing(s, a, g, FUNCTION_PREFIX);
  }

  lemma {:induction false} HeaderStart(name: string)
    ensures FUNCTION_PREFIX <= HeaderText(name) && StartsClean(HeaderText(name)) && HeaderText(name)[|HeaderText(name)| - 1] == '>'
  {
  }

  lemma {:induction false} HidingHeader(f: Function, after: string)
    requires '>' !in f.name && HeaderHides(f)
    ensures var stub := Cut(HeaderText(f.name));
            Cut(HeaderText(f.name) + after) == stub && StartsClean(stub) && '>' !in stub
  {
    hide Cut, Free, HeaderText, FirstEnd;
    var h := HeaderText(f.name);
    HeaderStart(f.name);
    HeaderCloses(f.name);
    CutInside(h, after);
    CutLength(h);
    assert FirstEnd(h) > 0 ==> h[..FirstEnd(h)][0] == h[0];
  }

  lemma {:induction false} HeaderCloses(name: string)
    requires '>' !in name
    ensures '>' !in HeaderText(name)[..|HeaderText(name)| - 1]
  {
    assert HeaderText(name)[..|HeaderText(name)| - 1] == FUNCTION_PREFIX + name;
  }

  lemma {:induction false} FunctionFacts(f: Function)
    requires Readable(f)
    ensures '>' !in f.name && TagFree(f.gap) && TagFree(f.after)
    ensures forall i | 0 <= i < |f.params| :: ValidParam(f.params[i])
  {
  }

  /** The cut through one function. */
  lemma {:induction false} FunctionCut(f: Function, later: string) returns (stub: string)
    requires Readable(f) && !HeaderHides(f)
    ensures !ParamsHide(f.params) ==>
              Cut(HeaderText(f.name) + (Inner(f) + (FUNCTION_END + later))) ==
              HeaderText(f.name) + (Inner(f) + (FUNCTION_END + Cut(later)))
              && Behind(HeaderText(f.name) + (Inner(f) + (FUNCTION_END + later))) == Behind(later)
    ensures ParamsHide(f.params) ==>
              var inner := f.gap + (Print(ParamPieces(f.params[..FirstHiding(f.params)])) + stub);
              && DeadEnd(stub) && inner <= Inner(f)
              && Cut(HeaderText(f.name) + (Inner(f) + (FUNCTION_END + later))) == HeaderText(f.name) + inner
  {
    hide Cut, Behind, Free, Print, ParamsHide, DeadEnd, HeaderText, TagFree;
    FunctionFacts(f);
    HeaderStart(f.name);
    GapFree(f.gap, CALL_END);
    var params, end := Print(ParamPieces(f.params)), FUNCTION_END + later;
    assert Inner(f) + end == f.gap + (params + end);
    assert StartsClean(end);
    PrintedStart(f.params, end);
    SeamIsClean(f.gap, params + end);
    CutSkip(HeaderText(f.name), f.gap + (params + end));
    CutSkip(f.gap, params + end);
    stub := ParamsCut(f.params, end);
    EndFree();
    CutSkip(FUNCTION_END, later);
    if !ParamsHide(f.params) {
      assert f.gap + (params + (FUNCTION_END + Cut(later))) == (f.gap + params) + (FUNCTION_END + Cut(later));
    }
  }

  lemma {:induction false} EndFree()
    ensures Free(FUNCTION_END, CALL_END) && FUNCTION_END[|FUNCTION_END| - 1] == '>'
  {
    TagShapes();
    assert FUNCTION_END[2] == 'f' && CALL_END[2] == 't';
    SingleAngleFree(FUNCTION_END, CALL_END);
  }

  lemma {:induction false} WholeInner(f: Function)
    requires Readable(f)
    ensures ParamList(Inner(f), 0) == AllPairs(f.params[..KeptCount(f.params)])
  {
    hide ParamList, Print, Free, ValidParam;
    GapFree(f.gap, PARAMETER_PREFIX) by { FunctionFacts(f); }
    FunctionFacts(f);
    var params := Print(ParamPieces(f.params));
    assert params + "" == params && Inner(f) == "" + (f.gap + (params + ""));
    ParamsRead(Inner(f), "", f.gap, f.params, "");
  }

  lemma {:induction false} CutInner(f: Function, n: nat, stub: string)
    requires Readable(f) && n <= |f.params| && DeadEnd(stub)
    ensures ParamList(f.gap + (Print(ParamPieces(f.params[..n])) + stub), 0) == AllPairs(f.params[..n])
  {
    hide ParamList, Print, Free, ValidParam;
    FunctionFacts(f);
    GapFree(f.gap, PARAMETER_PREFIX);
    var inner := f.gap + (Print(ParamPieces(f.params[..n])) + stub);
    assert inner == "" + inner;
    assert stub != "" by { assert PARAMETER_PREFIX <= stub; }
    ParamsRead(inner, "", f.gap, f.params[..n], stub);
  }

  /** In a block's content the function loop finds the functions in front of the cut,
      the last one with the parameters in front of it. */
  lemma {:induction false} FunctionsRead(s: string, a: string, g: string, fs: seq<Function>)
    requires s == a + Cut(g + Print(FunctionsPieces(fs))) && TagFree(g)
    requires forall i | 0 <= i < |fs| :: Readable(fs[i])
    ensures Reads(FunctionList(s, |a|), SeenIn(fs))
    decreases |fs|
  {
    hide NextFunction, Print, Free, TagFree, Readable, Inner, FunctionPieces, Cut, Behind, HeaderText, Reads, HeaderHides, ParamsHide;
    GapFree(g, FUNCTION_PREFIX);
    GapFree(g, CALL_END);
    var printed := Print(FunctionsPieces(fs));
    FunctionsStart(fs);
    SeamIsClean(g, printed);
    CutSkip(g, printed);
    assert s == a + (g + Cut(printed));
    if fs == [] {
      NothingPrinted();
      CutNothing();
      assert g + "" == g;
      NoFunctionOn(s, a, g);
      NothingRead();
    } else {
      var f, later := fs[0], fs[0].after + Print(FunctionsPieces(fs[1..]));
      assert Readable(f);
      FunctionsText(fs);
      FunctionFacts(f);
      if HeaderHides(f) {
        var stub := Cut(HeaderText(f.name));
        HidingHeader(f, Inner(f) + (FUNCTION_END + later));
        CutHeaderOn(s, a, g, stub);
        NothingRead();
      } else {
        FunctionTurn(s, a, g, f, later);
        if !ParamsHide(f.params) {
          var next := NextFunction(s, |a|).value.next;
          FunctionsRead(s, s[..next], f.after, fs[1..]);
          ReadsConcat([(f.name, Inner(f))], [(f, CutCount(f))], FunctionList(s, next), SeenIn(fs[1..]));
        } else {
          assert [(f, CutCount(f))] + [] == [(f, CutCount(f))];
        }
      }
    }
  }

  lemma {:induction false} NothingRead()
    ensures Reads([], [])
  {
  }

  /** One function in front of, or at, the cut. */
  lemma {:induction false} FunctionTurn(s: string, a: string, g: string, f: Function, later: string)
    requires Readable(f) && !HeaderHides(f) && Free(g, FUNCTION_PREFIX)
    requires s == a + (g + Cut(HeaderText(f.name) + (Inner(f) + (FUNCTION_END + later))))
    ensures !ParamsHide(f.params) ==>
              && NextFunction(s, |a|).Some?
              && FunctionList(s, |a|) == [(f.name, Inner(f))] + FunctionList(s, NextFunction(s, |a|).value.next)
              && s == s[..NextFunction(s, |a|).value.next] + Cut(later)
              && Reads([(f.name, Inner(f))], [(f, CutCount(f))])
    ensures ParamsHide(f.params) ==> Reads(FunctionList(s, |a|), [(f, CutCount(f))])
  {
    hide Free, Inner, Cut, Behind, HeaderText, HeaderHides, ParamsHide, ParamList, Reads, NextFunction;
    var stub := FunctionCut(f, later);
    FunctionFacts(f);
    InnerFree(f);
    if ParamsHide(f.params) {
      var n := FirstHiding(f.params);
      var inner := f.gap + (Print(ParamPieces(f.params[..n])) + stub);
      assert Inner(f)[0..|inner|] == inner;
      FreeSlice(Inner(f), FUNCTION_END, 0, |inner|);
      OpenFunctionOn(s, a, g, f.name, inner);
      CutInner(f, n, stub);
      ReadsOne(f.name, inner, f, n);
    } else {
      NextFunctionOn(s, a, g, f.name, Inner(f), Cut(later));
      WholeInner(f);
      ReadsOne(f.name, Inner(f), f, KeptCount(f.params));
    }
  }
}
