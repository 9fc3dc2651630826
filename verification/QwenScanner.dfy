/** The Qwen3-coder tool-call grammar and the meaning of one scanner step.

    `Next` says what the scanner does with the unread text `cur`: hold it back
    (wait for more input) or take some characters.  `Scan` repeats `Next`.  The
    class in QwenDetector.dfy is proved against `Scan`. */
module QwenScanner {
  import opened Wrappers
  import opened TextSearch

  const CALL_START := "<tool_call>"
  const CALL_END := "</tool_call>"
  const FUNCTION_PREFIX := "<function="
  const FUNCTION_END := "</function>"
  const PARAMETER_PREFIX := "<parameter="
  const PARAMETER_END := "</parameter>"

  datatype Json =
    | Null
    | Bool(b: bool)
    | Number(literal: string)
    | Str(text: string)
    | Array(items: seq<Json>)
    | Object(members: map<string, Json>)

  /** The tool list as the parser uses it: `convert(value, parameter, function)`
      is `convert_param_value` under that function's schema, and `dump` is the
      JSON library's serializer.  Both are deterministic and otherwise arbitrary. */
  datatype Tools = Tools(convert: (string, string, string) -> Json, dump: Json -> string)

  /** One streamed fragment: a function name, or a piece of JSON text. */
  datatype Call = Call(toolIndex: int, name: Option<string>, parameters: string)

  /** The parser fields other than the buffer. */
  datatype Mode = Mode(
    toolId: int,
    nameSent: bool,
    paramCount: nat,
    jsonStarted: bool,
    inside: bool,
    func: Option<string>)

  const InitialMode := Mode(-1, false, 0, false, false, None)

  datatype Step = Hold | Take(n: nat, mode: Mode, text: string, calls: seq<Call>)

  /** Where a parameter value ends, and how much of the terminator it swallows. */
  datatype ValueEnd = ValueEnd(pos: nat, tokenLength: nat)

  /** The earliest of the three terminators; only `</parameter>` is consumed. */
  function FindValueEnd(rest: string): (r: Option<ValueEnd>)
    ensures r.Some? ==> r.value.pos + r.value.tokenLength <= |rest|
  {
    var e0 := match Find(rest, PARAMETER_END, 0)
      case Some(p) => Some(ValueEnd(p, |PARAMETER_END|))
      case None => None;
    var e1 := Earlier(e0, Find(rest, PARAMETER_PREFIX, 0));
    Earlier(e1, Find(rest, FUNCTION_END, 0))
  }

  function Earlier(best: Option<ValueEnd>, candidate: Option<nat>): Option<ValueEnd> {
    if candidate.Some? && (best.None? || candidate.value < best.value.pos)
    then Some(ValueEnd(candidate.value, 0))
    else best
  }

  /** Drops one leading and then one trailing newline. */
  function StripNewlines(raw: string): string {
    var s := if raw != "" && raw[0] == '\n' then raw[1..] else raw;
    if s != "" && s[|s| - 1] == '\n' then s[..|s| - 1] else s
  }

  function FuncName(m: Mode): string {
    if m.func.Some? then m.func.value else ""
  }

  /** `"key": value` as it appears in the streamed object. */
  function Member(key: string, raw: string, func: string, tools: Tools): string {
    tools.dump(Str(key)) + ": " + tools.dump(tools.convert(StripNewlines(raw), key, func))
  }

  /** The `{` that opens the object if it is not open yet. */
  function OpenBrace(m: Mode): seq<Call> {
    if m.jsonStarted then [] else [Call(m.toolId, None, "{")]
  }

  /** The fragments of one complete parameter. */
  function ParameterCalls(m: Mode, key: string, raw: string, tools: Tools): seq<Call> {
    var member := Member(key, raw, FuncName(m), tools);
    OpenBrace(m) + [Call(m.toolId, None, (if m.paramCount > 0 then ", " else "") + member)]
  }

  function FunctionStep(cur: string, m: Mode): (s: Step)
    requires FUNCTION_PREFIX <= cur
    ensures s.Take? ==> 0 < s.n <= |cur|
  {
    FindCharBehindPrefix(cur, FUNCTION_PREFIX, '>');
    match Find(cur, ">", 0)
    case None => Hold
    case Some(e) =>
      var name := cur[|FUNCTION_PREFIX|..e];
      Take(e + 1, Mode(m.toolId + 1, true, 0, false, m.inside, Some(name)), "",
           [Call(m.toolId + 1, Some(name), "")])
  }

  function ParameterStep(cur: string, m: Mode, tools: Tools): (s: Step)
    requires PARAMETER_PREFIX <= cur
    ensures s.Take? ==> 0 < s.n <= |cur|
  {
    FindCharBehindPrefix(cur, PARAMETER_PREFIX, '>');
    match Find(cur, ">", 0)
    case None => Hold
    case Some(e) =>
      var rest := cur[e + 1..];
      match FindValueEnd(rest)
      case None => Hold
      case Some(end) =>
        ParameterAt(cur, e, end, m, tools)
  }

  /** The step past a parameter whose name ends at `e` and whose value ends at `end`. */
  function ParameterAt(cur: string, e: nat, end: ValueEnd, m: Mode, tools: Tools): Step
    requires |PARAMETER_PREFIX| <= e && e + 1 + end.pos <= |cur|
  {
    Take(e + 1 + end.pos + end.tokenLength,
         m.(jsonStarted := true, paramCount := m.paramCount + 1), "",
         ParameterCalls(m, cur[|PARAMETER_PREFIX|..e], cur[e + 1..e + 1 + end.pos], tools))
  }

  function FunctionEndStep(m: Mode): Step {
    Take(|FUNCTION_END|, m.(jsonStarted := true, func := None), "",
         OpenBrace(m) + [Call(m.toolId, None, "}")])
  }

  /** Text is shown only outside a tool-call region. */
  function Visible(m: Mode, text: string): string {
    if m.inside then "" else text
  }

  /** Could more input turn `cur` into one of the six tags? */
  predicate IsPotentialTag(cur: string) {
    || cur <= CALL_START || cur <= CALL_END || cur <= FUNCTION_PREFIX
    || cur <= FUNCTION_END || cur <= PARAMETER_PREFIX || cur <= PARAMETER_END
  }

  /** The five tags the scanner acts on; a stray `</parameter>` is plain text. */
  predicate StartsWithTag(cur: string) {
    || CALL_START <= cur || FUNCTION_PREFIX <= cur || PARAMETER_PREFIX <= cur
    || FUNCTION_END <= cur || CALL_END <= cur
  }

  function TextStep(cur: string, m: Mode): (s: Step)
    requires cur != ""
    ensures s.Take? ==> 0 < s.n <= |cur|
  {
    match Find(cur, "<", 0)
    case None => Take(|cur|, m, Visible(m, cur), [])
    case Some(k) =>
      if k == 0 then
        if IsPotentialTag(cur) then Hold else Take(1, m, Visible(m, "<"), [])
      else
        Take(k, m, Visible(m, cur[..k]), [])
  }

  /** One turn of the scanner loop on the unread text. */
  function Next(cur: string, m: Mode, tools: Tools): (s: Step)
    ensures s.Take? ==> 0 < s.n <= |cur|
  {
    if cur == "" then Hold
    else if CALL_START <= cur then Take(|CALL_START|, m.(inside := true), "", [])
    else if FUNCTION_PREFIX <= cur then FunctionStep(cur, m)
    else if PARAMETER_PREFIX <= cur then ParameterStep(cur, m, tools)
    else if FUNCTION_END <= cur then FunctionEndStep(m)
    else if CALL_END <= cur then Take(|CALL_END|, m.(inside := false), "", [])
    else TextStep(cur, m)
  }

  datatype Outcome = Outcome(rest: string, mode: Mode, text: string, calls: seq<Call>) {
    /** The same outcome with earlier output in front. */
    function After(t: string, c: seq<Call>): Outcome {
      Outcome(rest, mode, t + text, c + calls)
    }
  }

  /** Runs the scanner until it holds. */
  function Scan(cur: string, m: Mode, tools: Tools): Outcome
    decreases |cur|
  {
    match Next(cur, m, tools)
    case Hold => Outcome(cur, m, "", [])
    case Take(n, m', t, c) => Scan(cur[n..], m', tools).After(t, c)
  }

  lemma {:induction false} ScanStart(whole: string, m0: Mode, tools: Tools)
    ensures Scan(whole, m0, tools) == Scan(whole[0..], m0, tools).After("", [])
    ensures Scan("", m0, tools) == Outcome("", m0, "", [])
  {
    assert whole[0..] == whole;
  }

  /** One step further in the middle of a scan. */
  lemma {:induction false} ScanAdvance(whole: string, m0: Mode, pos: nat, m: Mode, text: string, calls: seq<Call>, tools: Tools)
    requires pos <= |whole|
    requires Scan(whole, m0, tools) == Scan(whole[pos..], m, tools).After(text, calls)
    ensures match Next(whole[pos..], m, tools)
            case Hold => Scan(whole, m0, tools) == Outcome(whole[pos..], m, text, calls)
            case Take(n, m', t, c) =>
              Scan(whole, m0, tools) == Scan(whole[pos + n..], m', tools).After(text + t, calls + c)
  {
    hide Next;
    match Next(whole[pos..], m, tools)
    case Hold =>
    case Take(n, m', t, c) =>
      var o := Scan(whole[pos + n..], m', tools);
      assert whole[pos..][n..] == whole[pos + n..];
      assert text + (t + o.text) == (text + t) + o.text;
      assert calls + (c + o.calls) == (calls + c) + o.calls;
  }

  /** What a detector remembers between two increments. */
  datatype State = State(buffer: string, mode: Mode)

  const InitialState := State("", InitialMode)

  function Feed(st: State, chunk: string, tools: Tools): Outcome {
    Scan(st.buffer + chunk, st.mode, tools)
  }

  /** A whole stream, one increment per chunk. */
  function Run(st: State, chunks: seq<string>, tools: Tools): Outcome
    decreases |chunks|
  {
    if chunks == [] then Outcome(st.buffer, st.mode, "", [])
    else
      var o := Feed(st, chunks[0], tools);
      Run(State(o.rest, o.mode), chunks[1..], tools).After(o.text, o.calls)
  }
}
