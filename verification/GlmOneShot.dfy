/** GLM-4.7 one-shot parsing: tool-call ranges, the split of a call's content, and
    the extraction of its key/value pairs. */
module GlmOneShot {
  import opened Wrappers
  import opened TextSearch
  import opened GlmMachine

  const CALL_OPEN := "<tool_call>"
  const CALL_CLOSE := "</tool_call>"

  type Pairs = seq<(string, string)>

  // ----- Specifications -----

  /** The first complete call at or after `pos`: its content's borders. */
  function NextRange(text: string, pos: nat): (r: Option<(nat, nat)>)
    ensures r.Some? ==> pos + |CALL_OPEN| <= r.value.0 <= r.value.1 && r.value.1 + |CALL_CLOSE| <= |text|
  {
    match Find(text, CALL_OPEN, pos)
    case None => None
    case Some(start) =>
      match Find(text, CALL_CLOSE, start + |CALL_OPEN|)
      case None => None
      case Some(end) => Some((start + |CALL_OPEN|, end))
  }

  function Ranges(text: string, pos: nat): seq<(nat, nat)>
    decreases |text| - pos
  {
    match NextRange(text, pos)
    case None => []
    case Some(r) => [r] + Ranges(text, r.1 + |CALL_CLOSE|)
  }

  /** The function name, and the arguments from the first key on. */
  function SplitContent(content: string): (string, string) {
    match Find(content, KEY_OPEN, 0)
    case None => (Trim(content), "")
    case Some(p) => (Trim(content[..p]), content[p..])
  }

  /** One turn of the extraction loop: a pair, or `Skip` when the key at hand lacks
      its value, with the position to go on from. */
  datatype Turn = Pair(key: string, value: string, next: nat) | Skip(next: nat) | Stop

  function NextPair(args: string, pos: nat): (t: Turn)
    ensures !t.Stop? ==> pos < t.next <= |args|
  {
    match Find(args, KEY_OPEN, pos)
    case None => Stop
    case Some(keyTag) =>
      var keyStart := keyTag + |KEY_OPEN|;
      match Find(args, KEY_CLOSE, keyStart)
      case None => Stop
      case Some(keyEnd) =>
        match Find(args, VALUE_OPEN, keyEnd)
        case None => Stop
        case Some(valueTag) => NextValue(args, keyStart, keyEnd, valueTag)
  }

  function NextValue(args: string, keyStart: nat, keyEnd: nat, valueTag: nat): (t: Turn)
    requires keyStart <= keyEnd && keyEnd + |KEY_CLOSE| <= |args|
    requires keyEnd <= valueTag && valueTag + |VALUE_OPEN| <= |args|
    ensures !t.Stop? ==> keyEnd < t.next <= |args|
  {
    var nextKey := Find(args, KEY_OPEN, keyEnd + |KEY_CLOSE|);
    if nextKey.Some? && nextKey.value < valueTag then Skip(nextKey.value)
    else
      var valueStart := valueTag + |VALUE_OPEN|;
      match Find(args, VALUE_CLOSE, valueStart)
      case None => Stop
      case Some(valueEnd) => Pair(args[keyStart..keyEnd], args[valueStart..valueEnd], valueEnd + |VALUE_CLOSE|)
  }

  function Extract(args: string, pos: nat): Pairs
    decreases |args| - pos
  {
    match NextPair(args, pos)
    case Stop => []
    case Skip(next) => Extract(args, next)
    case Pair(key, value, next) => [(key, value)] + Extract(args, next)
  }

  function ParsedCall(text: string, r: (nat, nat)): (string, Pairs)
    requires r.0 <= r.1 <= |text|
  {
    var (name, args) := SplitContent(text[r.0..r.1]);
    (name, Extract(args, 0))
  }

  function ParsedFrom(text: string, pos: nat): seq<(string, Pairs)>
    decreases |text| - pos
  {
    match NextRange(text, pos)
    case None => []
    case Some(r) => [ParsedCall(text, r)] + ParsedFrom(text, r.1 + |CALL_CLOSE|)
  }

  /** The text in front of the first call, trimmed. */
  function NormalText(text: string): string {
    match Find(text, CALL_OPEN, 0)
    case None => Trim(text)
    case Some(i) => Trim(text[..i])
  }

  // ----- The loops -----

  /** The searches of one turn of `find_tool_call_ranges`. */
  method SearchRange(text: string, searchPos: nat) returns (r: Option<(nat, nat)>)
    ensures r == NextRange(text, searchPos)
  {
    hide Find, OccursAt;
    var startPos := Find(text, CALL_OPEN, searchPos);
    if startPos.None? {
      return None;
    }
    var contentStart := startPos.value + |CALL_OPEN|;
    var endPos := Find(text, CALL_CLOSE, contentStart);
    if endPos.None? {
      return None;
    }
    return Some((contentStart, endPos.value));
  }

  /** `find_tool_call_ranges`. */
  method FindToolCallRanges(text: string) returns (ranges: seq<(nat, nat)>)
    ensures ranges == Ranges(text, 0)
  {
    hide NextRange;
    ranges := [];
    var searchPos := 0;
    while searchPos < |text|
      invariant searchPos <= |text|
      invariant ranges + Ranges(text, searchPos) == Ranges(text, 0)
      decreases |text| - searchPos
    {
      var r := SearchRange(text, searchPos);
      if r.None? {
        break;
      }
      ranges := ranges + [r.value];
      searchPos := r.value.1 + |CALL_CLOSE|;
    }
    NoRangeAtEnd(text, searchPos);
  }

  lemma {:induction false} NoRangeAtEnd(text: string, pos: nat)
    ensures pos >= |text| ==> Ranges(text, pos) == []
  {
  }

  /** `parse_tool_call_content`. */
  method ParseToolCallContent(content: string) returns (name: string, argsRaw: string)
    ensures (name, argsRaw) == SplitContent(content)
  {
    var argPos := Find(content, KEY_OPEN, 0);
    if argPos.None? {
      return Trim(content), "";
    }
    name := Trim(content[..argPos.value]);
    argsRaw := content[argPos.value..];
  }

  /** The second half of a turn: the check for a key in between, and the value. */
  method SearchValue(args: string, keyStart: nat, keyEnd: nat, valueTag: nat) returns (t: Turn)
    requires keyStart <= keyEnd && keyEnd + |KEY_CLOSE| <= |args|
    requires keyEnd <= valueTag && valueTag + |VALUE_OPEN| <= |args|
    ensures t == NextValue(args, keyStart, keyEnd, valueTag)
  {
    hide Find, OccursAt;
    var nextKey := Find(args, KEY_OPEN, keyEnd + |KEY_CLOSE|);
    if nextKey.Some? && nextKey.value < valueTag {
      return Skip(nextKey.value);
    }
    var valueStart := valueTag + |VALUE_OPEN|;
    var valueEnd := Find(args, VALUE_CLOSE, valueStart);
    if valueEnd.None? {
      return Stop;
    }
    return Pair(args[keyStart..keyEnd], args[valueStart..valueEnd.value], valueEnd.value + |VALUE_CLOSE|);
  }

  /** The searches of one turn of `extract_argument_pairs`. */
  method SearchPair(args: string, pos: nat) returns (t: Turn)
    ensures t == NextPair(args, pos)
  {
    hide Find, OccursAt, NextValue;
    var keyTag := Find(args, KEY_OPEN, pos);
    if keyTag.None? {
      return Stop;
    }
    var keyStart := keyTag.value + |KEY_OPEN|;
    var keyEnd := Find(args, KEY_CLOSE, keyStart);
    if keyEnd.None? {
      return Stop;
    }
    var valueTag := Find(args, VALUE_OPEN, keyEnd.value);
    if valueTag.None? {
      return Stop;
    }
    t := SearchValue(args, keyStart, keyEnd.value, valueTag.value);
  }

  /** `extract_argument_pairs`. */
  method ExtractArgumentPairs(argsRaw: string) returns (pairs: Pairs)
    ensures pairs == Extract(argsRaw, 0)
  {
    hide NextPair;
    pairs := [];
    var pos := 0;
    while pos < |argsRaw|
      invariant pos <= |argsRaw|
      invariant pairs + Extract(argsRaw, pos) == Extract(argsRaw, 0)
      decreases |argsRaw| - pos
    {
      var t := SearchPair(argsRaw, pos);
      match t {
        case Stop => break;
        case Skip(next) => pos := next;
        case Pair(key, value, next) =>
          pairs := pairs + [(key, value)];
          pos := next;
      }
    }
    NoPairAtEnd(argsRaw, pos);
  }

  lemma {:induction false} NoPairAtEnd(args: string, pos: nat)
    ensures pos >= |args| ==> Extract(args, pos) == []
  {
  }

  /** `detect_and_parse` up to the conversion of the raw pairs. */
  method DetectAndParse(text: string) returns (normalText: string, calls: seq<(string, Pairs)>)
    ensures calls == ParsedFrom(text, 0)
    ensures normalText == NormalText(text)
  {
    hide Find, OccursAt, Trim, SplitContent, Extract;
    calls := [];
    var idx := Find(text, CALL_OPEN, 0);
    normalText := if idx.Some? then text[..idx.value] else text;
    if normalText != "" {
      normalText := Trim(normalText);
    } else {
      TrimNothing();
    }
    if idx.None? {
      return;
    }
    var ranges := FindToolCallRanges(text);
    ParsedIsMap(text, 0);
    var i := 0;
    while i < |ranges|
      invariant i <= |ranges| && |calls| == i
      invariant forall j | 0 <= j < i :: calls[j] == ParsedCall(text, ranges[j])
    {
      var content := text[ranges[i].0..ranges[i].1];
      var name, argsRaw := ParseToolCallContent(content);
      var pairs := ExtractArgumentPairs(argsRaw);
      calls := calls + [(name, pairs)];
      i := i + 1;
    }
  }

  lemma {:induction false} TrimNothing()
    ensures Trim("") == ""
  {
  }

  /** A content between its two tags, free of the closing one. */
  ghost predicate GoodRange(text: string, r: (nat, nat)) {
    && |CALL_OPEN| <= r.0 <= r.1 && r.1 + |CALL_CLOSE| <= |text|
    && text[r.0 - |CALL_OPEN|..r.0] == CALL_OPEN
    && text[r.1..r.1 + |CALL_CLOSE|] == CALL_CLOSE
    && Free(text[r.0..r.1], CALL_CLOSE)
  }

  /** Good ranges in order from `pos` on that do not touch each other. */
  ghost predicate Disjoint(text: string, pos: nat, rs: seq<(nat, nat)>) {
    && (forall i | 0 <= i < |rs| :: GoodRange(text, rs[i]))
    && (forall i | 0 <= i < |rs| :: pos + |CALL_OPEN| <= rs[i].0)
    && (forall i, j | 0 <= i < j < |rs| :: rs[i].1 + |CALL_CLOSE| + |CALL_OPEN| <= rs[j].0)
  }

  lemma {:induction false} DisjointCons(text: string, pos: nat, r: (nat, nat), later: seq<(nat, nat)>)
    requires GoodRange(text, r) && pos + |CALL_OPEN| <= r.0 && Disjoint(text, r.1 + |CALL_CLOSE|, later)
    ensures Disjoint(text, pos, [r] + later)
  {
    assert r.0 <= r.1;
    hide GoodRange;
  }

  /** For every text the ranges found are good, in order, and do not touch. */
  lemma {:induction false} RangesFit(text: string, pos: nat)
    ensures Disjoint(text, pos, Ranges(text, pos))
    decreases |text| - pos
  {
    hide NextRange, Disjoint, GoodRange;
    match NextRange(text, pos)
    case None => DisjointNothing(text, pos);
    case Some(r) =>
      RangesFit(text, r.1 + |CALL_CLOSE|);
      RangeContent(text, pos);
      DisjointCons(text, pos, r, Ranges(text, r.1 + |CALL_CLOSE|));
  }

  lemma {:induction false} DisjointNothing(text: string, pos: nat)
    ensures Disjoint(text, pos, [])
  {
  }

  lemma {:induction false} RangeContent(text: string, pos: nat)
    requires NextRange(text, pos).Some?
    ensures GoodRange(text, NextRange(text, pos).value)
  {
    hide Find;
    var r := NextRange(text, pos).value;
    forall i: nat ensures !OccursAt(text[r.0..r.1], CALL_CLOSE, i) {
      OccursInSlice(text, CALL_CLOSE, r.0, r.1, i);
    }
  }

  lemma {:induction false} OccursInSlice(s: string, t: string, lo: nat, hi: nat, i: nat)
    requires lo <= hi <= |s|
    ensures OccursAt(s[lo..hi], t, i) ==> OccursAt(s, t, lo + i)
  {
    if OccursAt(s[lo..hi], t, i) {
      OccursChars(s[lo..hi], t, i);
      assert s[lo + i..lo + i + |t|] == t;
    }
  }

  lemma {:induction false} ParsedIsMap(text: string, pos: nat)
    ensures |ParsedFrom(text, pos)| == |Ranges(text, pos)|
    ensures forall i | 0 <= i < |Ranges(text, pos)| ::
              Ranges(text, pos)[i].0 <= Ranges(text, pos)[i].1 <= |text|
              && ParsedFrom(text, pos)[i] == ParsedCall(text, Ranges(text, pos)[i])
    decreases |text| - pos
  {
    hide ParsedCall, Find;
    match NextRange(text, pos)
    case None =>
    case Some(r) => ParsedIsMap(text, r.1 + |CALL_CLOSE|);
  }
}
