/** What becomes of a single value, however it is framed, in both parsers. */
module QwenValues {
  import opened TextSearch
  import opened Wrappers
  import opened QwenScanner
  import opened QwenChunks
  import opened QwenPrinter
  import opened QwenDocument
  import opened QwenCalls
  import opened QwenOneShot
  import opened QwenReading

  /** The arguments as a map: each value converted, the last one of a key wins. */
  function ValueMap(args: seq<Argument>, func: string, tools: Tools): map<string, Json> {
    if args == [] then map[]
    else
      var last := args[|args| - 1];
      ValueMap(args[..|args| - 1], func, tools)[last.key := tools.convert(last.value, last.key, func)]
  }

  lemma {:induction false} PairsFor(args: seq<Argument>)
    ensures AllPairs(ParamsFor(args)) == seq(|args|, i requires 0 <= i < |args| => (args[i].key, args[i].before + args[i].value + args[i].after))
    decreases |args|
  {
    if args != [] {
      ParamsForTail(args);
      PairsFor(args[1..]);
    }
  }

  lemma {:induction false} MapFor(args: seq<Argument>, func: string, tools: Tools)
    requires forall i | 0 <= i < |args| :: PrintableArgument(args[i])
    ensures ArgumentMap(AllPairs(ParamsFor(args)), func, tools) == ValueMap(args, func, tools)
    decreases |args|
  {
    hide AllPairs, ParamsFor, StripNewlines, ValueFree;
    PairsFor(args);
    if args != [] {
      var n := |args| - 1;
      var a := args[n];
      PairsFor(args[..n]);
      MapFor(args[..n], func, tools);
      assert AllPairs(ParamsFor(args))[..n] == AllPairs(ParamsFor(args[..n]));
      assert PrintableArgument(a);
      FramedValue(a.before, a.value, a.after);
    }
  }

  lemma {:induction false} ParamsForValid(args: seq<Argument>)
    requires forall i | 0 <= i < |args| :: PrintableArgument(args[i])
    ensures |ParamsFor(args)| == |args| && forall i | 0 <= i < |args| :: ValidParam(ParamsFor(args)[i])
    ensures KeptCount(ParamsFor(args)) == |args|
  {
    ValidFor(ToolUse("", args));
  }

  /** The one-shot parameter loop on rendered arguments: every value comes back
      without its frame. */
  lemma {:induction false} OneShotValues(args: seq<Argument>, func: string, tools: Tools)
    requires forall i | 0 <= i < |args| :: PrintableArgument(args[i])
    ensures ArgumentMap(ParamList(RenderArgs(args), 0), func, tools) == ValueMap(args, func, tools)
  {
    hide Print, ParamList, ArgumentMap, ValidParam, ParamsFor, PrintableArgument, RenderArgs, AllPairs;
    var ps := ParamsFor(args);
    ParamsForValid(args);
    PrintParamsFor(args);
    EmptyIsFree();
    var s := RenderArgs(args);
    assert s == "" + ("" + (s + ""));
    ParamsRead(s, "", "", ps, "");
    assert ps[..|args|] == ps;
    MapFor(args, func, tools);
  }

  function OneParameter(k: string, text: string): string {
    "<parameter=" + k + ">" + text + "</parameter>"
  }

  /** One value between its tags, with or without a line break on either side: under
      every chunking the client gets the object of exactly this value, and one-shot
      parsing the map of exactly this value. */
  lemma {:induction false} OneValue(f: string, k: string, x: string, v: string, y: string, chunks: seq<string>, tools: Tools)
    requires '>' !in f && '>' !in k && ValueFree(v) && x in {"", "\n"} && y in {"", "\n"}
    requires v == "" || (v[0] != '\n' && v[|v| - 1] != '\n')
    requires Concat(chunks) == "<tool_call><function=" + f + ">" + OneParameter(k, x + v + y) + "</function></tool_call>"
    ensures NamesOf(Run(InitialState, chunks, tools).calls) == [(0, f)]
    ensures ArgumentsOf(Run(InitialState, chunks, tools).calls, 0) ==
            "{" + tools.dump(Str(k)) + ": " + tools.dump(tools.convert(v, k, f)) + "}"
    ensures ArgumentMap(ParamList(OneParameter(k, x + v + y), 0), f, tools) == map[k := tools.convert(v, k, f)]
  {
    hide Run, NamesOf, ArgumentsOf, ParamList, ArgumentMap, ValueFree, Render, RenderArgs, ArgsObject, Printable;
    var a := Argument(k, x, v, y);
    var use := ToolUse(f, [a]);
    OneRendered(use, a);
    OnePrintable(use, a);
    EmptyIsFree();
    assert "" + Render([use]) == Render([use]);
    CallsRoundTrip("", [use], chunks, 0, tools);
    OneArgument(f, a, tools);
    OneShotValues([a], f, tools);
    assert NamesOf(Run(InitialState, chunks, tools).calls) == [(0, f)];
  }

  lemma {:induction false} OnePrintable(use: ToolUse, a: Argument)
    requires use.args == [a] && '>' !in use.name && PrintableArgument(a)
    ensures Printable(use)
  {
  }

  lemma {:induction false} OneRendered(use: ToolUse, a: Argument)
    requires use.args == [a]
    ensures RenderArgs([a]) == OneParameter(a.key, a.before + a.value + a.after)
    ensures Render([use]) == "<tool_call><function=" + use.name + ">" + OneParameter(a.key, a.before + a.value + a.after) + "</function></tool_call>"
  {
    hide OneParameter;
    ArgsCons([a]);
    assert [a][1..] == [] && [use][1..] == [];
    var parameter := RenderArgs([a]);
    var call := "<tool_call><function=" + use.name + ">" + parameter + "</function></tool_call>";
    assert call + "" == call;
  }

  lemma {:induction false} ArgsCons(args: seq<Argument>)
    requires args != []
    ensures RenderArgs([]) == "" && RenderArgs(args) ==
            OneParameter(args[0].key, args[0].before + args[0].value + args[0].after) + RenderArgs(args[1..])
    ensures |args| == 1 ==> RenderArgs(args) == OneParameter(args[0].key, args[0].before + args[0].value + args[0].after)
  {
    var p := OneParameter(args[0].key, args[0].before + args[0].value + args[0].after);
    assert p + "" == p;
    assert |args| == 1 ==> args[1..] == [];
  }

  lemma {:induction false} OneArgument(f: string, a: Argument, tools: Tools)
    ensures ArgsObject(ToolUse(f, [a]), tools) ==
            "{" + tools.dump(Str(a.key)) + ": " + tools.dump(tools.convert(a.value, a.key, f)) + "}"
    ensures ValueMap([a], f, tools) == map[a.key := tools.convert(a.value, a.key, f)]
  {
    assert [a][..0] == [];
  }

  // ----- Tags outside any function -----

  /** A parameter and a function end that belong to no function are streamed all the
      same, for tool -1 and converted without a schema. */
  lemma {:induction false} StrayTags(k: string, x: string, v: string, y: string, chunks: seq<string>, tools: Tools)
    requires '>' !in k && ValueFree(v) && IsFramed(x, v, y)
    requires Concat(chunks) == OneParameter(k, x + v + y) + FUNCTION_END
    ensures var o := Run(InitialState, chunks, tools);
            && o.text == "" && o.rest == ""
            && o.calls == [Call(-1, None, "{"),
                           Call(-1, None, tools.dump(Str(k)) + ": " + tools.dump(tools.convert(v, k, ""))),
                           Call(-1, None, "}")]
  {
    hide Run, Scan, ValueFree, StripNewlines, Print;
    var p := Parameter(k, x + v + y, true);
    var ps := [p, FunctionEnd];
    FramedValue(x, v, y);
    TwoPieces(p, FunctionEnd, "");
    ChunkInvariance(InitialState, chunks, tools);
    var text := OneParameter(k, x + v + y) + FUNCTION_END;
    assert Print(ps) + "" == text by { assert PieceText(p) == OneParameter(k, x + v + y); }
    assert InitialState.buffer + Concat(chunks) == text;
    ScanPieces(ps, "", InitialMode, tools);
    ReadTwo(p, FunctionEnd, InitialMode, tools);
    var member := Member(k, x + v + y, "", tools);
    assert "" + member == member;
    var m := ReadAll(ps, InitialMode, tools).mode;
    ScanStart("", m, tools);
  }
}
