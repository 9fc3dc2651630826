/** The GLM-4.7 character machine that turns tool-call XML into JSON text. */
module GlmMachine {
  import opened TextSearch
  import opened Utf8
  import opened JsonText

  const KEY_OPEN := "<arg_key>"
  const KEY_CLOSE := "</arg_key>"
  const VALUE_OPEN := "<arg_value>"
  const VALUE_CLOSE := "</arg_value>"

  datatype StreamState = INIT | BETWEEN | IN_KEY | WAITING_VALUE | IN_VALUE

  /** `typeOf(key)` is the schema type of an argument, "" if it has none, and
      `number` the number formatting; both deterministic and otherwise arbitrary. */
  datatype Schema = Schema(typeOf: string -> string, number: string -> string)

  datatype Machine = Machine(
    state: StreamState,
    key: string,
    value: string,
    tagBuffer: string,
    firstParam: bool,
    valueStarted: bool,
    valueType: string,
    carry: string)

  const ResetMachine := Machine(INIT, "", "", "", true, false, "", "")

  function EndsWith(s: string, t: string): bool {
    |s| >= |t| && s[|s| - |t|..] == t
  }

  predicate IsBlank(c: char) {
    c == ' ' || c == '\t' || c == '\n' || c == '\r'
  }

  function TrimLeft(s: string): string {
    if s != "" && IsBlank(s[0]) then TrimLeft(s[1..]) else s
  }

  function TrimRight(s: string): string {
    if s != "" && IsBlank(s[|s| - 1]) then TrimRight(s[..|s| - 1]) else s
  }

  function Trim(s: string): string {
    TrimRight(TrimLeft(s))
  }

  /** `get_value_type`: the schema type, else a guess from the value so far. */
  function ValueType(key: string, value: string, schema: Schema): string {
    if schema.typeOf(key) != "" then schema.typeOf(key)
    else
      var t := Trim(value);
      if t != "" && ('0' <= t[0] <= '9' || t[0] == '-' || t[0] == '.') then "number"
      else if t != "" && (t[0] == '{' || t[0] == '[') then "object"
      else "string"
  }

  function FallbackChar(c: char): string {
    if c == '"' then "\\\""
    else if c == '\\' then "\\\\"
    else if (c as int) < 0x20 then "\\u00" + [HEX[c as int / 16], HEX[c as int % 16]]
    else [c]
  }

  function FallbackEscape(s: string): string {
    if s == "" then "" else FallbackChar(s[0]) + FallbackEscape(s[1..])
  }

  /** The serializer rejects invalid UTF-8; then the bytes are escaped one by one. */
  function EscapeContent(s: string): string {
    if Valid(s) then Escape(s) else FallbackEscape(s)
  }

  function FormatComplete(value: string, valueType: string, schema: Schema): string {
    if valueType == "string" then Quote(value)
    else if valueType == "number" then schema.number(value)
    else value
  }

  function IsString(m: Machine): bool {
    m.valueType == "" || m.valueType == "string"
  }

  /** Looking for `<arg_key>`. */
  function SeekKey(m: Machine): (Machine, string) {
    if EndsWith(m.tagBuffer, KEY_OPEN)
    then (m.(state := IN_KEY, key := "", tagBuffer := "", firstParam := false), if m.firstParam then "{" else ", ")
    else (m, "")
  }

  function ReadKey(m: Machine): (Machine, string) {
    if EndsWith(m.tagBuffer, KEY_CLOSE) then
      var key := Trim(m.tagBuffer[..|m.tagBuffer| - |KEY_CLOSE|]);
      (m.(state := WAITING_VALUE, key := key, tagBuffer := ""), Quote(key) + ": ")
    else (m, "")
  }

  function SeekValue(m: Machine, schema: Schema): (Machine, string) {
    if EndsWith(m.tagBuffer, VALUE_OPEN)
    then (m.(state := IN_VALUE, value := "", tagBuffer := "", valueStarted := false,
             valueType := ValueType(m.key, "", schema)), "")
    else (m, "")
  }

  /** The value's closing tag is complete. */
  function CloseValue(m: Machine, schema: Schema): (Machine, string)
    requires |m.tagBuffer| >= |VALUE_CLOSE|
  {
    var last := m.tagBuffer[..|m.tagBuffer| - |VALUE_CLOSE|];
    var full := m.carry + last;
    var out :=
      if m.valueStarted then
        (if full == "" then "" else if IsString(m) then EscapeContent(full) else full)
        + (if IsString(m) then "\"" else "")
      else
        FormatComplete(m.value + last, if m.valueType == "" then "string" else m.valueType, schema);
    (m.(state := BETWEEN, value := "", tagBuffer := "", valueStarted := false, valueType := "",
        carry := if m.valueStarted then "" else m.carry), out)
  }

  /** The buffer cannot become the closing tag, so it is content. */
  function FlushContent(m: Machine): (Machine, string) {
    if IsString(m) then
      var (complete, tail) := SplitIncomplete(m.carry + m.tagBuffer);
      (m.(value := m.value + complete, valueStarted := true, carry := tail, tagBuffer := ""),
       (if m.valueStarted then "" else "\"") + (if complete == "" then "" else EscapeContent(complete)))
    else
      (m.(value := m.value + m.tagBuffer, valueStarted := true, tagBuffer := ""), m.tagBuffer)
  }

  function ReadValue(m: Machine, schema: Schema): (Machine, string) {
    if EndsWith(m.tagBuffer, VALUE_CLOSE) then CloseValue(m, schema)
    else if m.tagBuffer <= VALUE_CLOSE then (m, "")
    else FlushContent(m)
  }

  /** One character. */
  function Advance(m: Machine, c: char, schema: Schema): (Machine, string) {
    var m := m.(tagBuffer := m.tagBuffer + [c]);
    match m.state
    case INIT => SeekKey(m)
    case BETWEEN => SeekKey(m)
    case IN_KEY => ReadKey(m)
    case WAITING_VALUE => SeekValue(m, schema)
    case IN_VALUE => ReadValue(m, schema)
  }

  /** A text, character by character; reads from the right so that a longer text
      extends the run of a shorter one. */
  function Process(m: Machine, s: string, schema: Schema): (Machine, string)
    decreases |s|
  {
    if s == "" then (m, "")
    else
      var (m1, o1) := Process(m, s[..|s| - 1], schema);
      var (m2, o2) := Advance(m1, s[|s| - 1], schema);
      (m2, o1 + o2)
  }

  class Transducer {
    var streamState: StreamState
    var currentKey: string
    var currentValue: string
    var xmlTagBuffer: string
    var isFirstParam: bool
    var valueStarted: bool
    var cachedValueType: string
    var utf8Buffer: string

    ghost function Now(): Machine
      reads this
    {
      Machine(streamState, currentKey, currentValue, xmlTagBuffer, isFirstParam, valueStarted, cachedValueType, utf8Buffer)
    }

    constructor ()
      ensures Now() == ResetMachine
    {
      streamState, currentKey, currentValue, xmlTagBuffer := INIT, "", "", "";
      isFirstParam, valueStarted, cachedValueType, utf8Buffer := true, false, "", "";
    }

    /** `reset_streaming_state`. */
    method ResetStreamingState()
      modifies this
      ensures Now() == ResetMachine
    {
      streamState, currentKey, currentValue, xmlTagBuffer := INIT, "", "", "";
      isFirstParam, valueStarted, cachedValueType, utf8Buffer := true, false, "", "";
    }

    /** The end of a value: the rest of its content and its closing quote. */
    method FinishValue(schema: Schema) returns (out: string)
      requires |xmlTagBuffer| >= |VALUE_CLOSE|
      modifies this
      ensures (Now(), out) == CloseValue(old(Now()), schema)
    {
      hide EscapeContent, FormatComplete;
      var finalValue := xmlTagBuffer[..|xmlTagBuffer| - |VALUE_CLOSE|];
      currentValue := currentValue + finalValue;
      var valueType := if cachedValueType == "" then "string" else cachedValueType;
      out := "";
      if valueStarted {
        var fullFinal := utf8Buffer + finalValue;
        utf8Buffer := "";
        if fullFinal != "" {
          out := if valueType == "string" then EscapeContent(fullFinal) else fullFinal;
        }
        assert out + "" == out;
        if valueType == "string" {
          out := out + "\"";
        }
      } else {
        out := FormatComplete(currentValue, valueType, schema);
      }
      xmlTagBuffer := "";
      streamState := BETWEEN;
      currentValue := "";
      valueStarted := false;
      cachedValueType := "";
    }

    /** Content of a value, kept back only as far as a character is incomplete. */
    method EmitContent() returns (out: string)
      requires xmlTagBuffer != ""
      modifies this
      ensures (Now(), out) == FlushContent(old(Now()))
    {
      hide EscapeContent, SplitIncomplete;
      var content := xmlTagBuffer;
      var valueType := if cachedValueType == "" then "string" else cachedValueType;
      out := "";
      if valueType == "string" {
        if !valueStarted {
          out := "\"";
          valueStarted := true;
        }
        var complete, tail := SplitIncompleteUtf8(utf8Buffer + content);
        assert out + "" == out && currentValue + "" == currentValue;
        if complete != "" {
          out := out + EscapeContent(complete);
          currentValue := currentValue + complete;
        }
        utf8Buffer := tail;
        xmlTagBuffer := "";
      } else {
        valueStarted := true;
        out := content;
        currentValue := currentValue + content;
        xmlTagBuffer := "";
      }
    }

    /** The `IN_VALUE` branch. */
    method TakeValueChar(schema: Schema) returns (out: string)
      requires xmlTagBuffer != ""
      modifies this
      ensures (Now(), out) == ReadValue(old(Now()), schema)
    {
      hide CloseValue, FlushContent;
      out := "";
      if EndsWith(xmlTagBuffer, VALUE_CLOSE) {
        out := FinishValue(schema);
      } else if !(xmlTagBuffer <= VALUE_CLOSE) {
        out := EmitContent();
      }
    }

    /** The body of the character loop. */
    method TakeChar(ch: char, schema: Schema) returns (out: string)
      modifies this
      ensures (Now(), out) == Advance(old(Now()), ch, schema)
    {
      hide ReadValue, EndsWith, Trim, Quote, ValueType;
      out := "";
      xmlTagBuffer := xmlTagBuffer + [ch];
      if streamState == INIT || streamState == BETWEEN {
        if EndsWith(xmlTagBuffer, KEY_OPEN) {
          streamState, currentKey, xmlTagBuffer := IN_KEY, "", "";
          out := if isFirstParam then "{" else ", ";
          isFirstParam := false;
        }
      } else if streamState == IN_KEY {
        if EndsWith(xmlTagBuffer, KEY_CLOSE) {
          assert |xmlTagBuffer| >= |KEY_CLOSE| by { EndsWithFits(xmlTagBuffer, KEY_CLOSE); }
          currentKey := Trim(xmlTagBuffer[..|xmlTagBuffer| - |KEY_CLOSE|]);
          xmlTagBuffer, streamState := "", WAITING_VALUE;
          out := Quote(currentKey) + ": ";
        }
      } else if streamState == WAITING_VALUE {
        if EndsWith(xmlTagBuffer, VALUE_OPEN) {
          streamState, currentValue, xmlTagBuffer, valueStarted := IN_VALUE, "", "", false;
          cachedValueType := ValueType(currentKey, currentValue, schema);
        }
      } else {
        out := TakeValueChar(schema);
      }
    }

    /** `process_xml_to_json_streaming`. */
    method ProcessXmlToJsonStreaming(rawIncrement: string, schema: Schema) returns (jsonOutput: string)
      modifies this
      ensures (Now(), jsonOutput) == Process(old(Now()), rawIncrement, schema)
    {
      hide Advance;
      jsonOutput := "";
      var i := 0;
      while i < |rawIncrement|
        invariant 0 <= i <= |rawIncrement|
        invariant (Now(), jsonOutput) == Process(old(Now()), rawIncrement[..i], schema)
      {
        var out := TakeChar(rawIncrement[i], schema);
        assert rawIncrement[..i + 1][..i] == rawIncrement[..i];
        jsonOutput := jsonOutput + out;
        i := i + 1;
      }
      assert rawIncrement[..i] == rawIncrement;
    }
  }

  lemma {:induction false} EndsWithFits(s: string, t: string)
    requires EndsWith(s, t)
    ensures |s| >= |t|
  {
  }

  /** Chunk borders do not matter to the machine. */
  lemma {:induction false} ProcessConcat(m: Machine, a: string, b: string, schema: Schema)
    ensures var (m1, o1) := Process(m, a, schema); var (m2, o2) := Process(m1, b, schema);
            Process(m, a + b, schema) == (m2, o1 + o2)
    decreases |b|
  {
    hide Advance;
    if b == "" {
      var (m1, o1) := Process(m, a, schema);
      assert a + b == a && o1 + "" == o1;
    } else {
      var n := |b| - 1;
      assert (a + b)[..|a + b| - 1] == a + b[..n] && (a + b)[|a + b| - 1] == b[n];
      ProcessConcat(m, a, b[..n], schema);
      var (m1, o1) := Process(m, a, schema);
      var (m2, o2) := Process(m1, b[..n], schema);
      var (m3, o3) := Advance(m2, b[n], schema);
      assert (o1 + o2) + o3 == o1 + (o2 + o3);
    }
  }

  function ProcessChunks(m: Machine, chunks: seq<string>, schema: Schema): (Machine, string)
    decreases |chunks|
  {
    if chunks == [] then (m, "")
    else
      var (m1, o1) := Process(m, chunks[0], schema);
      var (m2, o2) := ProcessChunks(m1, chunks[1..], schema);
      (m2, o1 + o2)
  }

  lemma {:induction false} ChunksDoNotMatter(m: Machine, chunks: seq<string>, schema: Schema)
    ensures ProcessChunks(m, chunks, schema) == Process(m, Concat(chunks), schema)
    decreases |chunks|
  {
    hide Process;
    if chunks == [] {
      ProcessNothing(m, schema);
    } else {
      ProcessConcat(m, chunks[0], Concat(chunks[1..]), schema);
      ChunksDoNotMatter(Process(m, chunks[0], schema).0, chunks[1..], schema);
    }
  }

  lemma {:induction false} ProcessNothing(m: Machine, schema: Schema)
    ensures Process(m, "", schema) == (m, "")
  {
  }

  // ----- The type of a value -----

  /** The type guess never sees any value text: it is taken before the value. */
  lemma {:induction false} GuessOfNothing(key: string, schema: Schema)
    ensures ValueType(key, "", schema) == if schema.typeOf(key) == "" then "string" else schema.typeOf(key)
  {
  }

  /** Inside a value its type is the schema's, or "string" without one; elsewhere
      no type is remembered. */
  predicate Typed(m: Machine, schema: Schema) {
    if m.state == IN_VALUE then m.valueType == if schema.typeOf(m.key) == "" then "string" else schema.typeOf(m.key)
    else m.valueType == "" && !m.valueStarted
  }

  lemma {:induction false} AdvanceKeepsType(m: Machine, c: char, schema: Schema)
    requires Typed(m, schema)
    ensures Typed(Advance(m, c, schema).0, schema)
  {
    hide ValueType, EscapeContent, FormatComplete, SplitIncomplete, EndsWith, Trim, Quote;
    GuessOfNothing(m.key, schema);
  }

  /** No reachable machine writes a value under any other type than the schema's: an
      argument without a type is a string, even if it looks like a number. */
  lemma {:induction false} UntypedIsString(s: string, schema: Schema)
    ensures Typed(Process(ResetMachine, s, schema).0, schema)
    decreases |s|
  {
    hide Advance, Typed;
    if s == "" {
      ResetIsTyped(schema);
    } else {
      var n := |s| - 1;
      UntypedIsString(s[..n], schema);
      AdvanceKeepsType(Process(ResetMachine, s[..n], schema).0, s[n], schema);
    }
  }

  lemma {:induction false} ResetIsTyped(schema: Schema)
    ensures Typed(ResetMachine, schema)
  {
  }
}
