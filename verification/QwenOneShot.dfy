/** The one-shot Qwen3-coder parser.  Its three loops are proved against
    recursive functions over the same search positions. */
module QwenOneShot {
  import opened Wrappers
  import opened TextSearch
  import opened QwenScanner

  /** What one pass of a search loop found, and where the next pass starts. */
  datatype Hit = Hit(name: string, body: string, next: nat)

  /** The next parameter at or behind `pos`: its key and its raw value. */
  function NextParam(s: string, pos: nat): (h: Option<Hit>)
    ensures h.Some? ==> pos < h.value.next <= |s|
  {
    match Find(s, PARAMETER_PREFIX, pos)
    case None => None
    case Some(p) =>
      var n := p + |PARAMETER_PREFIX|;
      match Find(s, ">", n)
      case None => None
      case Some(e) =>
        var rest := s[e + 1..];
        match FindValueEnd(rest)
        case None => None
        case Some(end) => Some(Hit(s[n..e], rest[..end.pos], e + 1 + end.pos + end.tokenLength))
  }

  /** The next function: its name and its parameter text. */
  function NextFunction(s: string, pos: nat): (h: Option<Hit>)
    ensures h.Some? ==> pos < h.value.next <= |s|
  {
    match Find(s, FUNCTION_PREFIX, pos)
    case None => None
    case Some(p) =>
      var n := p + |FUNCTION_PREFIX|;
      match Find(s, ">", n)
      case None => None
      case Some(e) =>
        match Find(s, FUNCTION_END, e + 1)
        case None => Some(Hit(s[n..e], s[e + 1..], |s|))
        case Some(end) => Some(Hit(s[n..e], s[e + 1..end], end + |FUNCTION_END|))
  }

  /** The next closed tool-call block. */
  function NextBlock(s: string, pos: nat): (h: Option<Hit>)
    ensures h.Some? ==> pos < h.value.next <= |s|
  {
    match Find(s, CALL_START, pos)
    case None => None
    case Some(p) =>
      var c := p + |CALL_START|;
      match Find(s, CALL_END, c)
      case None => None
      case Some(end) => Some(Hit("", s[c..end], end + |CALL_END|))
  }

  /** The key and raw value of every parameter `parse_parameters` accepts. */
  function ParamList(s: string, pos: nat): (r: seq<(string, string)>)
    decreases |s| - pos
  {
    match NextParam(s, pos)
    case None => []
    case Some(h) => [(h.name, h.body)] + ParamList(s, h.next)
  }

  /** Name and parameter text of every function in a tool-call block. */
  function FunctionList(s: string, pos: nat): (r: seq<(string, string)>)
    decreases |s| - pos
  {
    match NextFunction(s, pos)
    case None => []
    case Some(h) => [(h.name, h.body)] + FunctionList(s, h.next)
  }

  /** The contents of the closed tool-call blocks. */
  function BlockList(s: string, pos: nat): (r: seq<string>)
    decreases |s| - pos
  {
    match NextBlock(s, pos)
    case None => []
    case Some(h) => [h.body] + BlockList(s, h.next)
  }

  /** Later members overwrite earlier ones of the same key. */
  function ArgumentMap(ps: seq<(string, string)>, func: string, tools: Tools): map<string, Json> {
    if ps == [] then map[]
    else
      var last := ps[|ps| - 1];
      ArgumentMap(ps[..|ps| - 1], func, tools)[last.0 := tools.convert(StripNewlines(last.1), last.0, func)]
  }

  function FunctionsOf(blocks: seq<string>): seq<(string, string)> {
    if blocks == [] then [] else FunctionList(blocks[0], 0) + FunctionsOf(blocks[1..])
  }

  function ParsedCall(f: (string, string), index: int, tools: Tools): Call {
    Call(index, Some(f.0), tools.dump(Object(ArgumentMap(ParamList(f.1, 0), f.0, tools))))
  }

  function ParsedCalls(fs: seq<(string, string)>, index: int, tools: Tools): seq<Call> {
    seq(|fs|, i requires 0 <= i < |fs| => ParsedCall(fs[i], index + i, tools))
  }

  /** The functions `detect_and_parse` reports for a text. */
  function FunctionsIn(text: string): seq<(string, string)> {
    var blocks := BlockList(text, 0);
    FunctionsOf(if blocks == [] && Find(text, FUNCTION_PREFIX, 0).Some? then [text] else blocks)
  }

  function NormalText(text: string): string {
    match Find(text, CALL_START, 0)
    case Some(p) => text[..p]
    case None =>
      match Find(text, FUNCTION_PREFIX, 0)
      case Some(p) => text[..p]
      case None => text
  }

  // ----- The loops -----

  lemma {:induction false} MapExtend(ps: seq<(string, string)>, p: (string, string), func: string, tools: Tools)
    ensures ArgumentMap(ps + [p], func, tools) ==
            ArgumentMap(ps, func, tools)[p.0 := tools.convert(StripNewlines(p.1), p.0, func)]
  {
    assert (ps + [p])[..|ps|] == ps;
  }

  /** The searches of one pass of the parameter loop. */
  method SearchParam(paramsText: string, pos: nat) returns (hit: Option<Hit>)
    ensures hit == NextParam(paramsText, pos)
  {
    hide Find, OccursAt, FindValueEnd;
    var paramStart := Find(paramsText, PARAMETER_PREFIX, pos);
    if paramStart.None? {
      return None;
    }
    var nameStart := paramStart.value + |PARAMETER_PREFIX|;
    var nameEnd := Find(paramsText, ">", nameStart);
    if nameEnd.None? {
      return None;
    }
    var valueStart := nameEnd.value + 1;
    var rest := paramsText[valueStart..];
    var end := FindValueEnd(rest);
    if end.None? {
      return None;
    }
    return Some(Hit(paramsText[nameStart..nameEnd.value], rest[..end.value.pos],
                    valueStart + end.value.pos + end.value.tokenLength));
  }

  /** `parse_parameters`. */
  method ParseParameters(paramsText: string, func: string, tools: Tools) returns (parsed: map<string, Json>)
    ensures parsed == ArgumentMap(ParamList(paramsText, 0), func, tools)
  {
    hide NextParam, ArgumentMap;
    parsed := map[];
    ghost var done: seq<(string, string)> := [];
    var pos := 0;
    NoArguments(func, tools);
    while pos < |paramsText|
      invariant pos <= |paramsText|
      invariant done + ParamList(paramsText, pos) == ParamList(paramsText, 0)
      invariant parsed == ArgumentMap(done, func, tools)
      decreases |paramsText| - pos
    {
      var hit := SearchParam(paramsText, pos);
      if hit.None? {
        break;
      }
      var Hit(paramName, rawValue, next) := hit.value;
      MapExtend(done, (paramName, rawValue), func, tools);
      parsed := parsed[paramName := tools.convert(StripNewlines(rawValue), paramName, func)];
      done := done + [(paramName, rawValue)];
      pos := next;
    }
    NothingBehindTheEnd(paramsText, pos);
    assert done == ParamList(paramsText, 0);
  }

  lemma {:induction false} NothingBehindTheEnd(s: string, pos: nat)
    ensures pos >= |s| ==> ParamList(s, pos) == [] && FunctionList(s, pos) == [] && BlockList(s, pos) == []
  {
  }

  lemma {:induction false} NoArguments(func: string, tools: Tools)
    ensures ArgumentMap([], func, tools) == map[]
  {
  }

  /** The searches of one pass of the function loop. */
  method SearchFunction(content: string, pos: nat) returns (hit: Option<Hit>)
    ensures hit == NextFunction(content, pos)
  {
    hide Find, OccursAt;
    var functionStart := Find(content, FUNCTION_PREFIX, pos);
    if functionStart.None? {
      return None;
    }
    var nameStart := functionStart.value + |FUNCTION_PREFIX|;
    var nameEnd := Find(content, ">", nameStart);
    if nameEnd.None? {
      return None;
    }
    var funcName := content[nameStart..nameEnd.value];
    var paramsStart := nameEnd.value + 1;
    var functionEnd := Find(content, FUNCTION_END, paramsStart);
    if functionEnd.None? {
      return Some(Hit(funcName, content[paramsStart..], |content|));
    }
    return Some(Hit(funcName, content[paramsStart..functionEnd.value], functionEnd.value + |FUNCTION_END|));
  }

  /** `parse_tool_call_content`: appends one call per function, numbered on. */
  method ParseToolCallContent(content: string, tools: Tools, toolIdx: int, calls: seq<Call>)
    returns (nextIdx: int, newCalls: seq<Call>)
    ensures newCalls == calls + ParsedCalls(FunctionList(content, 0), toolIdx, tools)
    ensures nextIdx == toolIdx + |FunctionList(content, 0)|
  {
    hide NextFunction, ParamList, ParsedCall;
    nextIdx, newCalls := toolIdx, calls;
    ghost var done: seq<(string, string)> := [];
    var pos := 0;
    while pos < |content|
      invariant pos <= |content|
      invariant done + FunctionList(content, pos) == FunctionList(content, 0)
      invariant nextIdx == toolIdx + |done| && newCalls == calls + ParsedCalls(done, toolIdx, tools)
      decreases |content| - pos
    {
      var hit := SearchFunction(content, pos);
      if hit.None? {
        break;
      }
      var Hit(funcName, paramsText, next) := hit.value;
      var parsed := ParseParameters(paramsText, funcName, tools);
      newCalls := newCalls + [EmitCall(nextIdx, funcName, paramsText, parsed, tools)];
      nextIdx := nextIdx + 1;
      ParsedExtend(done, (funcName, paramsText), toolIdx, tools);
      done := done + [(funcName, paramsText)];
      pos := next;
    }
    NothingBehindTheEnd(content, pos);
    assert done == FunctionList(content, 0);
  }

  function EmitCall(index: int, name: string, paramsText: string, parsed: map<string, Json>, tools: Tools): (c: Call)
    requires parsed == ArgumentMap(ParamList(paramsText, 0), name, tools)
    ensures c == ParsedCall((name, paramsText), index, tools)
  {
    Call(index, Some(name), tools.dump(Object(parsed)))
  }

  lemma {:induction false} ParsedExtend(fs: seq<(string, string)>, f: (string, string), index: int, tools: Tools)
    ensures ParsedCalls(fs + [f], index, tools) == ParsedCalls(fs, index, tools) + [ParsedCall(f, index + |fs|, tools)]
  {
    hide ParsedCall;
  }

  lemma {:induction false} ParsedConcat(fs: seq<(string, string)>, gs: seq<(string, string)>, index: int, tools: Tools)
    ensures ParsedCalls(fs + gs, index, tools) == ParsedCalls(fs, index, tools) + ParsedCalls(gs, index + |fs|, tools)
  {
    hide ParsedCall;
  }

  /** The searches of one pass of the block loop. */
  method SearchBlock(text: string, pos: nat) returns (hit: Option<Hit>)
    ensures hit == NextBlock(text, pos)
  {
    hide Find, OccursAt;
    var blockStart := Find(text, CALL_START, pos);
    if blockStart.None? {
      return None;
    }
    var contentStart := blockStart.value + |CALL_START|;
    var blockEnd := Find(text, CALL_END, contentStart);
    if blockEnd.None? {
      return None;
    }
    return Some(Hit("", text[contentStart..blockEnd.value], blockEnd.value + |CALL_END|));
  }

  /** The block loop of `detect_and_parse`. */
  method CollectBlocks(text: string) returns (rawToolCalls: seq<string>)
    ensures rawToolCalls == BlockList(text, 0)
  {
    hide NextBlock;
    rawToolCalls := [];
    var searchPos := 0;
    while searchPos < |text|
      invariant searchPos <= |text|
      invariant rawToolCalls + BlockList(text, searchPos) == BlockList(text, 0)
      decreases |text| - searchPos
    {
      var hit := SearchBlock(text, searchPos);
      if hit.None? {
        break;
      }
      rawToolCalls := rawToolCalls + [hit.value.body];
      searchPos := hit.value.next;
    }
    NothingBehindTheEnd(text, searchPos);
  }

  lemma {:induction false} FunctionsOfExtend(blocks: seq<string>, b: string)
    ensures FunctionsOf(blocks + [b]) == FunctionsOf(blocks) + FunctionList(b, 0)
    decreases |blocks|
  {
    hide FunctionList;
    if blocks == [] {
      assert ([] + [b])[1..] == [];
      assert ([] + [b])[0] == b;
    } else {
      FunctionsOfExtend(blocks[1..], b);
      assert (blocks + [b])[1..] == blocks[1..] + [b] && (blocks + [b])[0] == blocks[0];
      assert FunctionList(blocks[0], 0) + (FunctionsOf(blocks[1..]) + FunctionList(b, 0))
          == (FunctionList(blocks[0], 0) + FunctionsOf(blocks[1..])) + FunctionList(b, 0);
    }
  }

  method DetectAndParse(text: string, tools: Tools) returns (normalText: string, calls: seq<Call>)
    ensures normalText == NormalText(text)
    ensures calls == ParsedCalls(FunctionsIn(text), 0, tools)
  {
    hide FunctionsOf, BlockList, FunctionList, ParsedCall;
    calls := [];
    var hasFunctionToken := Find(text, FUNCTION_PREFIX, 0).Some?;
    if Find(text, CALL_START, 0).None? && !hasFunctionToken {
      NoBlocks(text);
      return text, calls;
    }
    var rawToolCalls := CollectBlocks(text);
    if rawToolCalls == [] && hasFunctionToken {
      rawToolCalls := rawToolCalls + [text];
    }
    var toolIdx := 0;
    NoFunctions();
    var i := 0;
    while i < |rawToolCalls|
      invariant i <= |rawToolCalls|
      invariant toolIdx == |FunctionsOf(rawToolCalls[..i])|
      invariant calls == ParsedCalls(FunctionsOf(rawToolCalls[..i]), 0, tools)
    {
      assert rawToolCalls[..i + 1] == rawToolCalls[..i] + [rawToolCalls[i]];
      FunctionsOfExtend(rawToolCalls[..i], rawToolCalls[i]);
      ParsedConcat(FunctionsOf(rawToolCalls[..i]), FunctionList(rawToolCalls[i], 0), 0, tools);
      toolIdx, calls := ParseToolCallContent(rawToolCalls[i], tools, toolIdx, calls);
      i := i + 1;
    }
    assert rawToolCalls[..i] == rawToolCalls;
    var startIdx := Find(text, CALL_START, 0);
    if startIdx.None? {
      startIdx := Find(text, FUNCTION_PREFIX, 0);
    }
    normalText := if startIdx.Some? && startIdx.value > 0 then text[..startIdx.value] else "";
  }

  lemma {:induction false} NoBlocks(text: string)
    requires Find(text, CALL_START, 0).None?
    ensures BlockList(text, 0) == [] && FunctionsOf([]) == []
  {
  }

  lemma {:induction false} NoFunctions()
    ensures FunctionsOf([]) == []
  {
  }
}
