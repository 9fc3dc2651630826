/** What a client reassembles from the streamed fragments: for every call its
    name once, and arguments that concatenate to one JSON object. */
module QwenCalls {
  import opened Wrappers
  import opened TextSearch
  import opened QwenScanner
  import opened QwenChunks
  import opened QwenPrinter
  import opened QwenDocument

  /** The argument fragments of call `i`, concatenated. */
  function ArgumentsOf(calls: seq<Call>, i: int): string {
    if calls == [] then ""
    else (if calls[0].toolIndex == i then calls[0].parameters else "") + ArgumentsOf(calls[1..], i)
  }

  /** The announced calls, in order. */
  function NamesOf(calls: seq<Call>): seq<(int, string)> {
    if calls == [] then []
    else (if calls[0].name.Some? then [(calls[0].toolIndex, calls[0].name.value)] else []) + NamesOf(calls[1..])
  }

  function JoinMembers(ps: seq<Param>, func: string, tools: Tools): string {
    if ps == [] then ""
    else if |ps| == 1 then Member(ps[0].key, ps[0].raw, func, tools)
    else Member(ps[0].key, ps[0].raw, func, tools) + ", " + JoinMembers(ps[1..], func, tools)
  }

  function ObjectText(f: Function, tools: Tools): string {
    "{" + JoinMembers(f.params, f.name, tools) + "}"
  }

  lemma {:induction false} ArgumentsConcat(a: seq<Call>, b: seq<Call>, i: int)
    ensures ArgumentsOf(a + b, i) == ArgumentsOf(a, i) + ArgumentsOf(b, i)
  {
    if a == [] {
      assert a + b == b;
    } else {
      ArgumentsConcat(a[1..], b, i);
      assert (a + b)[1..] == a[1..] + b && (a + b)[0] == a[0];
      var x := if a[0].toolIndex == i then a[0].parameters else "";
      InThreeParts(x, ArgumentsOf(a[1..], i), ArgumentsOf(b, i));
    }
  }

  lemma {:induction false} InThreeParts(x: string, y: string, z: string)
    ensures x + (y + z) == (x + y) + z
  {
  }

  lemma {:induction false} NamesConcat(a: seq<Call>, b: seq<Call>)
    ensures NamesOf(a + b) == NamesOf(a) + NamesOf(b)
  {
    if a == [] {
      assert a + b == b;
    } else {
      NamesConcat(a[1..], b);
      assert (a + b)[1..] == a[1..] + b;
      var x := if a[0].name.Some? then [(a[0].toolIndex, a[0].name.value)] else [];
      var y, z := NamesOf(a[1..]), NamesOf(b);
      assert x + (y + z) == (x + y) + z;
    }
  }

  lemma {:induction false} MemberArguments(ps: seq<Param>, func: string, k: nat, id: int, i: int, tools: Tools)
    ensures var calls := MemberCalls(ps, func, k, id, tools);
            && NamesOf(calls) == []
            && ArgumentsOf(calls, i) ==
               if i != id || ps == [] then "" else (if k > 0 then ", " else "") + JoinMembers(ps, func, tools)
    decreases |ps|
  {
    hide Member;
    if ps != [] {
      var calls := MemberCalls(ps, func, k, id, tools);
      MemberArguments(ps[1..], func, k + 1, id, i, tools);
      assert calls[0] == MemberCall(ps[0], func, k, id, tools);
      assert calls[1..] == MemberCalls(ps[1..], func, k + 1, id, tools);
      if i == id {
        var sep, m, later := (if k > 0 then ", " else ""), Member(ps[0].key, ps[0].raw, func, tools), ArgumentsOf(calls[1..], i);
        assert ArgumentsOf(calls, i) == (sep + m) + later == sep + (m + later);
        if |ps| > 1 {
          assert m + (", " + JoinMembers(ps[1..], func, tools)) == (m + ", ") + JoinMembers(ps[1..], func, tools);
        } else {
          assert m + "" == m;
        }
      }
    }
  }

  lemma {:induction false} OneCall(c: Call, i: int)
    ensures NamesOf([c]) == if c.name.Some? then [(c.toolIndex, c.name.value)] else []
    ensures ArgumentsOf([c], i) == if c.toolIndex == i then c.parameters else ""
  {
    assert [c][1..] == [];
  }

  lemma {:induction false} FunctionNames(f: Function, id: int, tools: Tools)
    ensures NamesOf(FunctionCalls(f, id, tools)) == [(id, f.name)]
  {
    hide MemberCalls, NamesOf, ArgumentsOf;
    var header, open, close := Call(id, Some(f.name), ""), Call(id, None, "{"), Call(id, None, "}");
    var members := MemberCalls(f.params, f.name, 0, id, tools);
    OneCall(header, id);
    OneCall(open, id);
    OneCall(close, id);
    MemberArguments(f.params, f.name, 0, id, id, tools);
    NamesConcat([header] + [open] + members, [close]);
    NamesConcat([header] + [open], members);
    NamesConcat([header], [open]);
    assert FunctionCalls(f, id, tools) == [header] + [open] + members + [close];
  }

  lemma {:induction false} FunctionArguments(f: Function, id: int, i: int, tools: Tools)
    ensures ArgumentsOf(FunctionCalls(f, id, tools), i) == if i == id then ObjectText(f, tools) else ""
  {
    hide MemberCalls, MemberCall, JoinMembers, NamesOf, ArgumentsOf, FunctionCalls;
    var header, open, close := Call(id, Some(f.name), ""), Call(id, None, "{"), Call(id, None, "}");
    var members := MemberCalls(f.params, f.name, 0, id, tools);
    MemberArguments(f.params, f.name, 0, id, i, tools);
    NoJoin(f.name, tools);
    var inner := ArgumentsOf(members, i);
    assert ArgumentsOf([header] + [open], i) == if i == id then "{" else "" by {
      OneCall(header, i);
      OneCall(open, i);
      ArgumentsConcat([header], [open], i);
    }
    assert ArgumentsOf([header] + [open] + members, i) == (if i == id then "{" else "") + inner by {
      ArgumentsConcat([header] + [open], members, i);
    }
    OneCall(close, i);
    ArgumentsConcat([header] + [open] + members, [close], i);
    FunctionCallsShape(f, id, tools);
  }

  lemma {:induction false} FunctionCallsShape(f: Function, id: int, tools: Tools)
    ensures FunctionCalls(f, id, tools) ==
            [Call(id, Some(f.name), "")] + [Call(id, None, "{")] + MemberCalls(f.params, f.name, 0, id, tools) + [Call(id, None, "}")]
  {
    hide MemberCalls;
  }

  lemma {:induction false} NoJoin(func: string, tools: Tools)
    ensures JoinMembers([], func, tools) == ""
  {
  }

  function Numbered(fs: seq<Function>, id: int): seq<(int, string)> {
    seq(|fs|, k requires 0 <= k < |fs| => (id + k, fs[k].name))
  }

  lemma {:induction false} NothingCalled(i: int)
    ensures NamesOf([]) == [] && ArgumentsOf([], i) == ""
  {
  }

  /** Names arrive once, in order, and the fragments of call `id + k` form the
      whole arguments object of the `k`-th function. */
  lemma {:induction false} CallsReassemble(fs: seq<Function>, id: int, i: int, tools: Tools)
    ensures var calls := CallsOf(fs, id, tools);
            && NamesOf(calls) == Numbered(fs, id)
            && ArgumentsOf(calls, i) == if id <= i < id + |fs| then ObjectText(fs[i - id], tools) else ""
    decreases |fs|
  {
    hide FunctionCalls, ObjectText, NamesOf, ArgumentsOf;
    if fs == [] {
      NothingCalled(i);
    } else {
      var first, later := FunctionCalls(fs[0], id, tools), CallsOf(fs[1..], id + 1, tools);
      FunctionNames(fs[0], id, tools);
      FunctionArguments(fs[0], id, i, tools);
      CallsReassemble(fs[1..], id + 1, i, tools);
      NamesConcat(first, later);
      ArgumentsConcat(first, later, i);
      assert [(id, fs[0].name)] + Numbered(fs[1..], id + 1) == Numbered(fs, id);
    }
  }

  // ----- Rendered calls -----

  /** An argument as it is written: its value may stand between line breaks, as in the
      chat template, or directly between the tags. */
  datatype Argument = Argument(key: string, before: string, value: string, after: string)

  datatype ToolUse = ToolUse(name: string, args: seq<Argument>)

  /** A text the value stands behind or in front of: at most one line break, and the
      break belongs to the frame and not to the value. */
  predicate IsFramed(before: string, v: string, after: string) {
    && before in {"", "\n"} && after in {"", "\n"}
    && (before == "" && v != "" ==> v[0] != '\n')
    && (after == "" && v != "" ==> v[|v| - 1] != '\n')
  }

  function RenderArgs(args: seq<Argument>): string {
    if args == [] then ""
    else "<parameter=" + args[0].key + ">" + (args[0].before + args[0].value + args[0].after) + "</parameter>" + RenderArgs(args[1..])
  }

  function Render(uses: seq<ToolUse>): string {
    if uses == [] then ""
    else "<tool_call><function=" + uses[0].name + ">" + RenderArgs(uses[0].args) + "</function></tool_call>"
         + Render(uses[1..])
  }

  function JoinArgs(args: seq<Argument>, func: string, tools: Tools): string {
    if args == [] then ""
    else
      var member := tools.dump(Str(args[0].key)) + ": " + tools.dump(tools.convert(args[0].value, args[0].key, func));
      if |args| == 1 then member else member + ", " + JoinArgs(args[1..], func, tools)
  }

  /** The JSON arguments of a call, each value converted under the schema. */
  function ArgsObject(use: ToolUse, tools: Tools): string {
    "{" + JoinArgs(use.args, use.name, tools) + "}"
  }

  ghost predicate PrintableArgument(a: Argument) {
    '>' !in a.key && ValueFree(a.value) && IsFramed(a.before, a.value, a.after)
  }

  /** Names and keys without `>`, values without a parameter terminator. */
  ghost predicate Printable(use: ToolUse) {
    '>' !in use.name && forall i | 0 <= i < |use.args| :: PrintableArgument(use.args[i])
  }

  function ParamFor(a: Argument): Param {
    Param(a.key, a.before + a.value + a.after, true, "")
  }

  function ParamsFor(args: seq<Argument>): seq<Param> {
    seq(|args|, i requires 0 <= i < |args| => ParamFor(args[i]))
  }

  function FunctionFor(use: ToolUse): Function {
    Function(use.name, "", ParamsFor(use.args), "")
  }

  function FunctionsFor(uses: seq<ToolUse>): seq<Function> {
    seq(|uses|, i requires 0 <= i < |uses| => FunctionFor(uses[i]))
  }

  /** One block per call; the leading text stands before the first one. */
  function BlocksFor(lead: string, uses: seq<ToolUse>): seq<Block> {
    seq(|uses|, i requires 0 <= i < |uses| => Block(if i == 0 then lead else "", "", [FunctionFor(uses[i])]))
  }

  function DocumentFor(lead: string, uses: seq<ToolUse>): Document {
    Document(BlocksFor(lead, uses), if uses == [] then lead else "")
  }

  /** A framed value loses exactly its frame, and the frame adds no terminator. */
  lemma {:induction false} FramedValue(before: string, v: string, after: string)
    requires IsFramed(before, v, after)
    ensures StripNewlines(before + v + after) == v
    ensures ValueFree(v) ==> ValueFree(before + v + after)
  {
    hide OccursAt;
    var raw := before + v + after;
    var s := if raw != "" && raw[0] == '\n' then raw[1..] else raw;
    if before == "\n" {
      assert raw[0] == '\n' && raw[1..] == v + after;
    } else if v != "" {
      assert raw == v + after && raw[0] == v[0];
    }
    assert v != "" ==> s == v + after;
    assert v != "" && after == "\n" ==> s[|s| - 1] == '\n' && s[..|s| - 1] == v;
    assert v != "" && after == "" ==> s == v;
    if ValueFree(v) {
      FramedFree(before, v, after, PARAMETER_END);
      FramedFree(before, v, after, PARAMETER_PREFIX);
      FramedFree(before, v, after, FUNCTION_END);
    }
  }

  /** Stripping takes away one line break at each end if there is one, and nothing
      else. */
  lemma {:induction false} StripsOneBreak(raw: string) returns (before: string, after: string)
    ensures before in {"", "\n"} && after in {"", "\n"}
    ensures raw == before + StripNewlines(raw) + after
    ensures before == "\n" <==> raw != "" && raw[0] == '\n'
    ensures after == "\n" <==> raw[|before|..] != "" && raw[|raw| - 1] == '\n'
  {
    before := if raw != "" && raw[0] == '\n' then "\n" else "";
    var s := raw[|before|..];
    after := if s != "" && s[|s| - 1] == '\n' then "\n" else "";
    assert raw == before + s && s == StripNewlines(raw) + after;
  }

  lemma {:induction false} FramedFree(before: string, v: string, after: string, t: string)
    requires Free(v, t) && t != "" && '\n' !in t && before in {"", "\n"} && after in {"", "\n"}
    ensures Free(before + v + after, t)
  {
    var raw := before + v + after;
    forall i: nat ensures !OccursAt(raw, t, i) {
      if OccursAt(raw, t, i) {
        OccursChars(raw, t, i);
        FramedOccurrence(before, v, after, t, i);
      }
    }
  }

  /** Away from the line breaks an occurrence is one of `v`. */
  lemma {:induction false} FramedOccurrence(before: string, v: string, after: string, t: string, i: nat)
    requires before in {"", "\n"} && after in {"", "\n"}
    requires OccursAt(before + v + after, t, i) && t != ""
    ensures t[0] == '\n' || t[|t| - 1] == '\n' || (|before| <= i && OccursAt(v, t, i - |before|))
  {
    var raw := before + v + after;
    OccursChars(raw, t, i);
    assert raw[i + 0] == t[0] && raw[i + (|t| - 1)] == t[|t| - 1];
    if |before| <= i && i + |t| <= |before| + |v| {
      assert v[i - |before|..i - |before| + |t|] == raw[i..i + |t|];
    }
  }

  lemma {:induction false} ValidFor(use: ToolUse)
    requires Printable(use)
    ensures ValidFunction(FunctionFor(use))
  {
    hide ValueFree;
    EmptyIsFree();
    forall i | 0 <= i < |use.args| ensures ValidParam(ParamsFor(use.args)[i]) {
      var a := use.args[i];
      assert PrintableArgument(a);
      FramedValue(a.before, a.value, a.after);
    }
  }

  lemma {:induction false} EmptyIsFree()
    ensures TagFree("")
  {
  }

  lemma {:induction false} ParamsForTail(args: seq<Argument>)
    requires args != []
    ensures ParamsFor(args)[0] == ParamFor(args[0]) && ParamsFor(args)[1..] == ParamsFor(args[1..])
  {
    hide ParamFor;
  }

  lemma {:induction false} JoinFor(args: seq<Argument>, func: string, tools: Tools)
    requires forall i | 0 <= i < |args| :: PrintableArgument(args[i])
    ensures JoinMembers(ParamsFor(args), func, tools) == JoinArgs(args, func, tools)
    decreases |args|
  {
    hide ValueFree, StripNewlines;
    if args != [] {
      assert PrintableArgument(args[0]);
      FramedValue(args[0].before, args[0].value, args[0].after);
      JoinFor(args[1..], func, tools);
      ParamsForTail(args);
    }
  }

  lemma {:induction false} PrintParamsFor(args: seq<Argument>)
    ensures Print(ParamPieces(ParamsFor(args))) == RenderArgs(args)
    decreases |args|
  {
    if args != [] {
      hide Print, ParamFront;
      var p, later := ParamsFor(args)[0], ParamPieces(ParamsFor(args[1..]));
      PrintParamsFor(args[1..]);
      ParamsForTail(args);
      PrintParamFor(args[0]);
      PrintConcat(ParamFront(p), later);
    }
  }

  lemma {:induction false} PrintParamFor(a: Argument)
    ensures Print(ParamFront(ParamFor(a))) == "<parameter=" + a.key + ">" + (a.before + a.value + a.after) + "</parameter>"
  {
    hide Print;
    var p := ParamFor(a);
    TwoPieces(Parameter(p.key, p.raw, true), Text(""), "");
    assert ParamFront(p) == [Parameter(p.key, p.raw, true), Text("")];
    assert PieceText(Parameter(p.key, p.raw, true)) + "" == "<parameter=" + a.key + ">" + p.raw + "</parameter>";
  }

  lemma {:induction false} PrintCons(p: Piece, ps: seq<Piece>)
    ensures Print([p] + ps) == PieceText(p) + Print(ps)
  {
    assert ([p] + ps)[1..] == ps;
  }

  lemma {:induction false} PrintFunctionFor(use: ToolUse)
    ensures Print(FunctionPieces(FunctionFor(use))) == "<function=" + use.name + ">" + RenderArgs(use.args) + "</function>"
  {
    hide Print, ParamPieces, RenderArgs;
    var f := FunctionFor(use);
    var front, params, back := [Header(f.name), Text("")], ParamPieces(f.params), [FunctionEnd, Text("")];
    TwoPieces(Header(f.name), Text(""), "");
    TwoPieces(FunctionEnd, Text(""), "");
    PrintParamsFor(use.args);
    PrintConcat(front + params, back);
    PrintConcat(front, params);
    assert FunctionPieces(f) == (front + params) + back;
  }

  lemma {:induction false} PrintBlockFor(lead: string, use: ToolUse)
    ensures Print(BlockPieces(Block(lead, "", [FunctionFor(use)]))) ==
            lead + "<tool_call><function=" + use.name + ">" + RenderArgs(use.args) + "</function></tool_call>"
  {
    hide Print, FunctionPieces, RenderArgs;
    var f := FunctionFor(use);
    var body := FunctionPieces(f);
    assert FunctionsPieces([f]) == body by { OneFunction(f); }
    PrintFunctionFor(use);
    OnePiece(CallEnd, "");
    PrintConcat(body, [CallEnd]);
    PrintCons(Text(""), body + [CallEnd]);
    PrintCons(CallStart, [Text("")] + (body + [CallEnd]));
    PrintCons(Text(lead), [CallStart] + ([Text("")] + (body + [CallEnd])));
    assert BlockPieces(Block(lead, "", [f])) == [Text(lead)] + ([CallStart] + ([Text("")] + (body + [CallEnd])));
    var printed := Print(body);
    assert "" + (printed + "</tool_call>") == printed + "</tool_call>";
    BlockText(lead, use.name, RenderArgs(use.args));
  }

  lemma {:induction false} BlockText(lead: string, name: string, args: string)
    ensures lead + ("<tool_call>" + (("<function=" + name + ">" + args + "</function>") + "</tool_call>"))
         == lead + "<tool_call><function=" + name + ">" + args + "</function></tool_call>"
  {
  }

  lemma {:induction false} OneFunction(f: Function)
    ensures FunctionsPieces([f]) == FunctionPieces(f)
  {
    hide FunctionPieces;
    assert [f][1..] == [];
    assert FunctionPieces(f) + [] == FunctionPieces(f);
  }

  lemma {:induction false} BlocksForTail(lead: string, uses: seq<ToolUse>)
    requires uses != []
    ensures BlocksFor(lead, uses) == [Block(lead, "", [FunctionFor(uses[0])])] + BlocksFor("", uses[1..])
  {
    hide FunctionFor;
  }

  lemma {:induction false} FunctionsForTail(uses: seq<ToolUse>)
    ensures FunctionsFor(uses) == if uses == [] then [] else [FunctionFor(uses[0])] + FunctionsFor(uses[1..])
  {
    hide FunctionFor;
  }

  lemma {:induction false} FunctionsOfUses(lead: string, uses: seq<ToolUse>)
    ensures AllFunctions(BlocksFor(lead, uses)) == FunctionsFor(uses)
    ensures TextsOf(BlocksFor(lead, uses)) == if uses == [] then "" else lead
    decreases |uses|
  {
    hide FunctionFor, BlocksFor, FunctionsFor;
    FunctionsForTail(uses);
    if uses == [] {
      NoBlocksFor(lead);
    } else {
      var first, later := Block(lead, "", [FunctionFor(uses[0])]), BlocksFor("", uses[1..]);
      FunctionsOfUses("", uses[1..]);
      BlocksForTail(lead, uses);
      assert ([first] + later)[1..] == later;
      assert lead + "" == lead;
    }
  }

  lemma {:induction false} NoBlocksFor(lead: string)
    ensures BlocksFor(lead, []) == []
  {
  }

  lemma {:induction false} PrintBlocksFor(lead: string, uses: seq<ToolUse>)
    ensures Print(BlocksPieces(BlocksFor(lead, uses))) == if uses == [] then "" else lead + Render(uses)
    decreases |uses|
  {
    hide BlockPieces, RenderArgs, FunctionFor, Print, BlocksFor;
    if uses == [] {
      NoBlocksFor(lead);
      PrintNothing();
    } else {
      var first, later := Block(lead, "", [FunctionFor(uses[0])]), BlocksFor("", uses[1..]);
      PrintBlocksFor("", uses[1..]);
      BlocksForTail(lead, uses);
      assert ([first] + later)[1..] == later;
      PrintBlockFor(lead, uses[0]);
      PrintConcat(BlockPieces(first), BlocksPieces(later));
      RenderMore(uses);
      UseText(lead, uses[0].name, RenderArgs(uses[0].args), Render(uses[1..]));
    }
  }

  lemma {:induction false} RenderMore(uses: seq<ToolUse>)
    ensures uses == [] ==> Render(uses) == ""
    ensures |uses| == 1 ==> Render(uses[1..]) == ""
    ensures "" + Render(uses) == Render(uses)
    ensures |uses| > 0 ==> "" + Render(uses[1..]) == Render(uses[1..])
  {
    hide RenderArgs;
  }

  lemma {:induction false} PrintDocumentFor(lead: string, uses: seq<ToolUse>)
    ensures PrintDocument(DocumentFor(lead, uses)) == lead + Render(uses)
    ensures AllFunctions(DocumentFor(lead, uses).blocks) == FunctionsFor(uses)
    ensures TextsOf(DocumentFor(lead, uses).blocks) == if uses == [] then "" else lead
  {
    hide Print, BlocksFor, BlocksPieces, Render, AllFunctions, TextsOf;
    FunctionsOfUses(lead, uses);
    PrintBlocksFor(lead, uses);
    RenderMore(uses);
    var text := lead + Render(uses);
    assert text + "" == text && "" + lead == lead + "";
  }

  lemma {:induction false} PrintNothing()
    ensures Print([]) == ""
  {
  }

  lemma {:induction false} UseText(lead: string, name: string, args: string, later: string)
    ensures lead + "<tool_call><function=" + name + ">" + args + "</function></tool_call>" + later + ""
         == lead + ("<tool_call><function=" + name + ">" + args + "</function></tool_call>" + later)
    ensures lead + "<tool_call><function=" + name + ">" + args + "</function></tool_call>" + later
         == lead + ("<tool_call><function=" + name + ">" + args + "</function></tool_call>" + later)
  {
  }

  /** Printer/parser inverse: under every chunking of `lead` followed by rendered
      calls, the calls come back in order, each with exactly its name and with
      fragments that concatenate to exactly its JSON arguments object. */
  lemma {:induction false} CallsRoundTrip(lead: string, uses: seq<ToolUse>, chunks: seq<string>, i: int, tools: Tools)
    requires TagFree(lead) && forall k | 0 <= k < |uses| :: Printable(uses[k])
    requires Concat(chunks) == lead + Render(uses)
    ensures var o := Run(InitialState, chunks, tools);
            && NamesOf(o.calls) == seq(|uses|, k requires 0 <= k < |uses| => (k, uses[k].name))
            && ArgumentsOf(o.calls, i) == (if 0 <= i < |uses| then ArgsObject(uses[i], tools) else "")
            && o.text + o.rest == lead && (uses != [] ==> o.rest == "")
  {
    hide TagFree, Printable, CallsOf, AllFunctions, TextsOf, FunctionFor, ObjectText, ArgsObject, NamesOf, ArgumentsOf, ValidBlock,
         ValidDocument, Run, Render, PrintDocument, DocumentFor, Numbered;
    var d := DocumentFor(lead, uses);
    PrintDocumentFor(lead, uses);
    BlocksForValid(lead, uses);
    StreamingInvertsPrinting(d, chunks, tools);
    DocumentTail(lead, uses);
    assert "" + lead == lead && lead + "" == lead;
    var fs := AllFunctions(d.blocks);
    CallsReassemble(fs, 0, i, tools);
    NumberedUses(uses);
    if 0 <= i < |uses| {
      ObjectFor(uses[i], tools);
    }
  }

  lemma {:induction false} DocumentTail(lead: string, uses: seq<ToolUse>)
    ensures DocumentFor(lead, uses).tail == if uses == [] then lead else ""
  {
    hide BlocksFor;
  }

  lemma {:induction false} NumberedUses(uses: seq<ToolUse>)
    ensures Numbered(FunctionsFor(uses), 0) ==
            seq(|uses|, k requires 0 <= k < |uses| => (k, uses[k].name))
  {
    hide FunctionFor;
    forall k | 0 <= k < |uses| ensures FunctionFor(uses[k]).name == uses[k].name { NameFor(uses[k]); }
  }

  lemma {:induction false} BlocksForValid(lead: string, uses: seq<ToolUse>)
    requires TagFree(lead) && forall k | 0 <= k < |uses| :: Printable(uses[k])
    ensures ValidDocument(DocumentFor(lead, uses))
  {
    hide TagFree, Printable, FunctionFor, ValidFunction;
    EmptyIsFree();
    forall k | 0 <= k < |uses| ensures ValidBlock(BlocksFor(lead, uses)[k]) {
      ValidFor(uses[k]);
    }
  }

  lemma {:induction false} NameFor(use: ToolUse)
    ensures FunctionFor(use).name == use.name
  {
  }

  lemma {:induction false} ObjectFor(use: ToolUse, tools: Tools)
    requires Printable(use)
    ensures ObjectText(FunctionFor(use), tools) == ArgsObject(use, tools)
  {
    JoinFor(use.args, use.name, tools);
  }
}
