/** The Qwen3-coder detector object and its streaming entry point. */
module QwenDetector {
  import opened Wrappers
  import opened TextSearch
  import opened QwenScanner

  class Detector {
    var buffer: string
    var parsedPos: nat
    var currentToolId: int
    var currentToolNameSent: bool
    var currentToolParamCount: nat
    var jsonStarted: bool
    var isInsideToolCall: bool
    var currentFuncName: Option<string>

    /** Between two increments the cursor is back at the start of the buffer. */
    ghost predicate Valid()
      reads this
    {
      parsedPos == 0
    }

    ghost function CurrentMode(): Mode
      reads this
    {
      Mode(currentToolId, currentToolNameSent, currentToolParamCount, jsonStarted,
           isInsideToolCall, currentFuncName)
    }

    ghost function CurrentState(): State
      reads this
    {
      State(buffer, CurrentMode())
    }

    constructor ()
      ensures Valid() && CurrentState() == InitialState
    {
      buffer, parsedPos := "", 0;
      currentToolId, currentToolNameSent, currentToolParamCount := -1, false, 0;
      jsonStarted, isInsideToolCall, currentFuncName := false, false, None;
    }

    /** `raw_value` without its framing newlines. */
    method StripValue(raw: string) returns (value: string)
      ensures value == StripNewlines(raw)
    {
      value := raw;
      if value != "" && value[0] == '\n' {
        value := value[1..];
      }
      if value != "" && value[|value| - 1] == '\n' {
        value := value[..|value| - 1];
      }
    }

    /** The three-candidate terminator search. */
    method SearchValueEnd(rest: string) returns (end: Option<ValueEnd>)
      ensures end == FindValueEnd(rest)
    {
      var candEndParam := Find(rest, PARAMETER_END, 0);
      var candNextParam := Find(rest, PARAMETER_PREFIX, 0);
      var candEndFunc := Find(rest, FUNCTION_END, 0);
      end := None;
      if candEndParam.Some? {
        end := Some(ValueEnd(candEndParam.value, |PARAMETER_END|));
      }
      if candNextParam.Some? && (end.None? || candNextParam.value < end.value.pos) {
        end := Some(ValueEnd(candNextParam.value, 0));
      }
      if candEndFunc.Some? && (end.None? || candEndFunc.value < end.value.pos) {
        end := Some(ValueEnd(candEndFunc.value, 0));
      }
    }

    /** Opens the arguments object of the current call if it is not open yet. */
    method OpenObject() returns (calls: seq<Call>)
      modifies `jsonStarted
      ensures jsonStarted && calls == old(OpenBrace(CurrentMode()))
    {
      calls := [];
      if !jsonStarted {
        calls := calls + [Call(currentToolId, None, "{")];
        jsonStarted := true;
      }
    }

    /** The `<function=` branch. */
    method TakeFunctionHeader(current: string) returns (held: bool, calls: seq<Call>)
      requires FUNCTION_PREFIX <= current
      modifies this
      ensures buffer == old(buffer) && parsedPos >= old(parsedPos)
      ensures held ==> unchanged(this)
      ensures FunctionStep(current, old(CurrentMode())) ==
              if held then Hold else Take(parsedPos - old(parsedPos), CurrentMode(), "", calls)
    {
      calls := [];
      var endAngle := Find(current, ">", 0);
      if endAngle.None? {
        return true, calls;
      }
      FindCharBehindPrefix(current, FUNCTION_PREFIX, '>');
      var funcName := current[|FUNCTION_PREFIX|..endAngle.value];
      currentToolId := currentToolId + 1;
      currentToolNameSent := true;
      currentToolParamCount := 0;
      jsonStarted := false;
      currentFuncName := Some(funcName);
      calls := [Call(currentToolId, Some(funcName), "")];
      parsedPos := parsedPos + endAngle.value + 1;
      held := false;
    }

    /** The fragments one complete parameter adds. */
    method EmitParameter(paramName: string, rawValue: string, tools: Tools) returns (calls: seq<Call>)
      modifies `jsonStarted, `currentToolParamCount
      ensures CurrentMode() == old(CurrentMode()).(jsonStarted := true, paramCount := old(currentToolParamCount) + 1)
      ensures calls == ParameterCalls(old(CurrentMode()), paramName, rawValue, tools)
    {
      var value := StripValue(rawValue);
      calls := OpenObject();
      var funcName := if currentFuncName.Some? then currentFuncName.value else "";
      var converted := tools.convert(value, paramName, funcName);
      var keyVal := tools.dump(Str(paramName)) + ": " + tools.dump(converted);
      var fragment := (if currentToolParamCount > 0 then ", " else "") + keyVal;
      calls := calls + [Call(currentToolId, None, fragment)];
      currentToolParamCount := currentToolParamCount + 1;
    }

    /** The `<parameter=` branch. */
    method TakeParameter(current: string, tools: Tools) returns (held: bool, calls: seq<Call>)
      requires PARAMETER_PREFIX <= current
      modifies this
      ensures buffer == old(buffer) && parsedPos >= old(parsedPos)
      ensures held ==> unchanged(this)
      ensures ParameterStep(current, old(CurrentMode()), tools) ==
              if held then Hold else Take(parsedPos - old(parsedPos), CurrentMode(), "", calls)
    {
      hide FindValueEnd, ParameterCalls;
      calls := [];
      var nameEnd := Find(current, ">", 0);
      if nameEnd.None? {
        return true, calls;
      }
      FindCharBehindPrefix(current, PARAMETER_PREFIX, '>');
      var rest := current[nameEnd.value + 1..];
      var end := SearchValueEnd(rest);
      if end.None? {
        return true, calls;
      }
      var paramName := current[|PARAMETER_PREFIX|..nameEnd.value];
      calls := EmitParameter(paramName, rest[..end.value.pos], tools);
      assert rest[..end.value.pos] == current[nameEnd.value + 1..nameEnd.value + 1 + end.value.pos];
      parsedPos := parsedPos + (nameEnd.value + 1 + end.value.pos + end.value.tokenLength);
      held := false;
    }

    /** The `</function>` branch. */
    method TakeFunctionEnd() returns (calls: seq<Call>)
      modifies this
      ensures buffer == old(buffer) && parsedPos >= old(parsedPos)
      ensures FunctionEndStep(old(CurrentMode())) == Take(parsedPos - old(parsedPos), CurrentMode(), "", calls)
    {
      calls := OpenObject();
      calls := calls + [Call(currentToolId, None, "}")];
      parsedPos := parsedPos + |FUNCTION_END|;
      currentFuncName := None;
    }

    /** The branch for text that starts with none of the handled tags. */
    method TakeText(current: string) returns (held: bool, text: string)
      requires current != ""
      modifies `parsedPos
      ensures parsedPos >= old(parsedPos)
      ensures held ==> unchanged(this)
      ensures TextStep(current, CurrentMode()) ==
              if held then Hold else Take(parsedPos - old(parsedPos), CurrentMode(), text, [])
    {
      text := "";
      var nextOpenAngle := Find(current, "<", 0);
      if nextOpenAngle.None? {
        if !isInsideToolCall {
          text := current;
        }
        parsedPos := parsedPos + |current|;
        return false, text;
      }
      if nextOpenAngle.value == 0 {
        if IsPotentialTag(current) {
          return true, text;
        }
        if !isInsideToolCall {
          text := "<";
        }
        parsedPos := parsedPos + 1;
        return false, text;
      }
      if !isInsideToolCall {
        text := current[..nextOpenAngle.value];
      }
      parsedPos := parsedPos + nextOpenAngle.value;
      held := false;
    }

    /** One turn of the scanner loop; `held` is its `break`. */
    method Turn(current: string, tools: Tools) returns (held: bool, text: string, calls: seq<Call>)
      requires current != ""
      modifies this
      ensures buffer == old(buffer) && parsedPos >= old(parsedPos)
      ensures held ==> unchanged(this)
      ensures Next(current, old(CurrentMode()), tools) ==
              if held then Hold else Take(parsedPos - old(parsedPos), CurrentMode(), text, calls)
    {
      held, text, calls := false, "", [];
      if CALL_START <= current {
        parsedPos := parsedPos + |CALL_START|;
        isInsideToolCall := true;
      } else if FUNCTION_PREFIX <= current {
        held, calls := TakeFunctionHeader(current);
      } else if PARAMETER_PREFIX <= current {
        held, calls := TakeParameter(current, tools);
      } else if FUNCTION_END <= current {
        calls := TakeFunctionEnd();
      } else if CALL_END <= current {
        parsedPos := parsedPos + |CALL_END|;
        isInsideToolCall := false;
      } else {
        held, text := TakeText(current);
      }
    }

    /** Appends a chunk and scans; what cannot be decided yet stays buffered. */
    method ParseStreamingIncrement(newText: string, tools: Tools)
      returns (normalText: string, calls: seq<Call>)
      requires Valid()
      modifies this
      ensures Valid()
      ensures var o := Feed(old(CurrentState()), newText, tools);
              && normalText == o.text
              && calls == o.calls
              && CurrentState() == State(o.rest, o.mode)
    {
      hide Next, Scan;
      normalText, calls := "", [];
      ghost var m0 := CurrentMode();
      buffer := buffer + newText;
      ScanStart(buffer, m0, tools);
      if buffer == "" {
        return;
      }
      while true
        invariant parsedPos <= |buffer| && buffer == old(buffer) + newText
        invariant Scan(buffer, m0, tools) == Scan(buffer[parsedPos..], CurrentMode(), tools).After(normalText, calls)
        decreases |buffer| - parsedPos
      {
        if parsedPos >= |buffer| {
          break;
        }
        ScanAdvance(buffer, m0, parsedPos, CurrentMode(), normalText, calls, tools);
        var held, text, newCalls := Turn(buffer[parsedPos..], tools);
        if held {
          break;
        }
        normalText, calls := normalText + text, calls + newCalls;
      }
      ScanAdvance(buffer, m0, parsedPos, CurrentMode(), normalText, calls, tools);
      if parsedPos > 0 {
        buffer := buffer[parsedPos..];
        parsedPos := 0;
      }
    }
  }
}
