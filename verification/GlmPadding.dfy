/** Blanks around names, keys and leading texts: what trimming does to every text, and
    the round trips with the bare names, keys and texts in the conclusion. */
module GlmPadding {
  import opened Wrappers
  import opened TextSearch
  import opened JsonText
  import opened GlmMachine
  import opened GlmRoundTrip
  import opened GlmOneShot
  import opened GlmInverse

  // ----- Trimming -----

  /** Space, tab, line feed and carriage return only. */
  predicate Blank(s: string) {
    forall i | 0 <= i < |s| :: s[i] in {' ', '\t', '\n', '\r'}
  }

  /** Empty, or neither starting nor ending with a blank. */
  predicate Tight(s: string) {
    s != "" ==> !Blank(s[..1]) && !Blank(s[|s| - 1..])
  }

  /** A text between blanks. */
  datatype Padded = Padded(left: string, core: string, right: string) {
    function Text(): string {
      left + core + right
    }

    predicate Good() {
      Blank(left) && Tight(core) && Blank(right)
    }
  }

  lemma {:induction false} TrimLeftIs(a: string, v: string)
    requires Blank(a) && (v != "" ==> !Blank(v[..1]))
    ensures TrimLeft(a + v) == v
    decreases |a|
  {
    if a == "" {
      assert a + v == v;
      assert v != "" ==> v[..1] == [v[0]];
    } else {
      assert (a + v)[1..] == a[1..] + v && (a + v)[0] == a[0];
      TrimLeftIs(a[1..], v);
    }
  }

  lemma {:induction false} TrimRightIs(v: string, b: string)
    requires Blank(b) && (v != "" ==> !Blank(v[|v| - 1..]))
    ensures TrimRight(v + b) == v
    decreases |b|
  {
    if b == "" {
      assert v + b == v;
      assert v != "" ==> v[|v| - 1..] == [v[|v| - 1]];
    } else {
      var n := |b| - 1;
      assert (v + b)[..|v + b| - 1] == v + b[..n] && (v + b)[|v + b| - 1] == b[n];
      TrimRightIs(v, b[..n]);
    }
  }

  /** Trimming takes away all blanks at both ends and nothing else. */
  lemma {:induction false} TrimIs(p: Padded)
    requires p.Good()
    ensures Trim(p.Text()) == p.core
  {
    if p.core == "" {
      var blanks := p.left + p.right;
      assert p.Text() == blanks && blanks + "" == blanks;
      TrimLeftIs(blanks, "");
      assert "" + "" == "";
      TrimRightIs("", "");
    } else {
      assert p.Text() == p.left + (p.core + p.right) && (p.core + p.right)[..1] == p.core[..1];
      TrimLeftIs(p.left, p.core + p.right);
      TrimRightIs(p.core, p.right);
    }
  }

  lemma {:induction false} LeftBlanks(s: string) returns (a: string, v: string)
    ensures s == a + v && Blank(a) && (v != "" ==> !Blank(v[..1]))
    decreases |s|
  {
    if s == "" || !Blank(s[..1]) {
      return "", s;
    }
    a, v := LeftBlanks(s[1..]);
    assert s == [s[0]] + (a + v) == ([s[0]] + a) + v && s[0] == s[..1][0];
    a := [s[0]] + a;
  }

  lemma {:induction false} RightBlanks(s: string) returns (v: string, b: string)
    ensures s == v + b && Blank(b) && (v != "" ==> !Blank(v[|v| - 1..]))
    decreases |s|
  {
    if s == "" || !Blank(s[|s| - 1..]) {
      assert s + "" == s;
      return s, "";
    }
    var n := |s| - 1;
    v, b := RightBlanks(s[..n]);
    assert s[n] == s[n..][0];
    assert s == (v + b) + [s[n]] == v + (b + [s[n]]);
    b := b + [s[n]];
  }

  /** Every text is padded in exactly one way, and trimming gives its core. */
  lemma {:induction false} EveryTextIsPadded(s: string) returns (p: Padded)
    ensures p.Good() && p.Text() == s && p.core == Trim(s)
  {
    var a, v := LeftBlanks(s);
    var w, b := RightBlanks(v);
    p := Padded(a, w, b);
    assert a + v == a + (w + b) == p.Text();
    assert w != "" ==> w[..1] == v[..1];
    TrimIs(p);
  }

  // ----- One-shot parsing -----

  /** A call whose name stands between blanks. */
  datatype PaddedCall = PaddedCall(before: string, name: Padded, entries: seq<Entry>, tail: string)

  function Written(cs: seq<PaddedCall>): seq<RawCall> {
    seq(|cs|, i requires 0 <= i < |cs| => RawCall(cs[i].before, cs[i].name.Text(), cs[i].entries, cs[i].tail))
  }

  /** The bare names and the pairs that have a value. */
  function BareCalls(cs: seq<PaddedCall>): seq<(string, Pairs)> {
    seq(|cs|, i requires 0 <= i < |cs| => (cs[i].name.core, RawPairs(cs[i].entries)))
  }

  lemma {:induction false} CallsAreBare(cs: seq<PaddedCall>)
    requires forall c | c in cs :: c.name.Good()
    ensures CallsOf(Written(cs)) == BareCalls(cs)
    decreases |cs|
  {
    hide RawPairs, Trim;
    if cs != [] {
      TrimIs(cs[0].name);
      CallsAreBare(cs[1..]);
      assert Written(cs)[1..] == Written(cs[1..]);
    }
  }

  /** One-shot parsing of rendered calls behind a lead: the lead and the names come
      back without the blanks around them, each call with exactly its pairs. */
  lemma {:induction false} PaddedCallsParsed(text: string, lead: Padded, cs: seq<PaddedCall>, trailing: string)
    requires cs != [] && cs[0].before == lead.Text() && lead.Good() && text == RenderCalls(Written(cs), trailing)
    requires (forall c | c in cs :: c.name.Good()) && (forall c | c in Written(cs) :: CompactCall(c)) && NoCall(trailing)
    ensures NormalText(text) == lead.core
    ensures ParsedFrom(text, 0) == BareCalls(cs)
  {
    hide CompactCall, Content, Trim, ParsedFrom, BareCalls, CallsOf, Find, OccursAt, Free, IsTag, NoCall;
    var raw := Written(cs);
    assert text[0..] == text;
    OneShotInvertsRendering(text, 0, raw, trailing);
    CallsAreBare(cs);
    CallTags();
    assert raw[0] in raw;
    CallParts(raw[0]);
    FindMark(text, 0, lead.Text(), CALL_OPEN, Content(raw[0]) + (CALL_CLOSE + RenderCalls(raw[1..], trailing)));
    assert text[..|lead.Text()|] == text[0..|lead.Text()|] == lead.Text();
    TrimIs(lead);
  }

  /** A text without a whole call, cut off inside one or not: no call, and the text in
      front of the unfinished one without the blanks around it. */
  lemma {:induction false} PaddedTextParsed(lead: Padded, end: string)
    requires lead.Good() && Free(lead.Text(), CALL_OPEN)
    requires end == "" || (CALL_OPEN <= end && Free(end[|CALL_OPEN|..], CALL_CLOSE))
    ensures NormalText(lead.Text() + end) == lead.core && ParsedFrom(lead.Text() + end, 0) == []
  {
    hide Trim, Find, OccursAt, Free, IsTag;
    var text := lead.Text() + end;
    TrimIs(lead);
    assert text[0..] == text;
    if end == "" {
      assert text == lead.Text();
      FindInFree(text, CALL_OPEN);
    } else {
      var rest := end[|CALL_OPEN|..];
      assert end == CALL_OPEN + rest;
      assert UnclosedCall(text, lead.Text(), rest);
      CallTags();
      FindMark(text, 0, lead.Text(), CALL_OPEN, rest);
      assert text[..|lead.Text()|] == lead.Text();
    }
    NoMoreCalls(text, 0, text);
  }

  // ----- Streaming -----

  /** An argument whose key stands between blanks. */
  datatype PaddedArgument = PaddedArgument(before: string, key: Padded, between: string, value: string) {
    function Raw(): Argument {
      Argument(before, key.Text(), between, value)
    }
  }

  function RawArguments(args: seq<PaddedArgument>): seq<Argument> {
    seq(|args|, i requires 0 <= i < |args| => args[i].Raw())
  }

  /** The bare keys with their values. */
  function BareMembers(args: seq<PaddedArgument>): seq<(string, string)> {
    seq(|args|, i requires 0 <= i < |args| => (args[i].key.core, args[i].value))
  }

  lemma {:induction false} MembersAreBare(args: seq<PaddedArgument>)
    requires forall a | a in args :: a.key.Good()
    ensures Members(RawArguments(args)) == BareMembers(args)
    decreases |args|
  {
    hide Trim;
    if args != [] {
      TrimIs(args[0].key);
      MembersAreBare(args[1..]);
      assert RawArguments(args)[1..] == RawArguments(args[1..]);
    }
  }

  ghost predicate PaddedRenderable(a: PaddedArgument, schema: Schema) {
    Writable(a.Raw()) && a.key.Good() && schema.typeOf(a.key.core) in {"", "string"}
  }

  lemma {:induction false} RawIsRenderable(args: seq<PaddedArgument>, schema: Schema)
    requires forall a | a in args :: PaddedRenderable(a, schema)
    ensures forall a | a in RawArguments(args) :: Renderable(a, schema)
  {
    hide Writable, Trim;
    forall a | a in RawArguments(args) ensures Renderable(a, schema) {
      var i :| 0 <= i < |args| && a == RawArguments(args)[i];
      assert PaddedRenderable(args[i], schema);
      TrimIs(args[i].key);
    }
  }

  /** String arguments in any chunks, with blanks around their keys: the client gets
      the object of the bare keys and exactly the values. */
  lemma {:induction false} PaddedArgumentsStreamed(chunks: seq<string>, args: seq<PaddedArgument>, schema: Schema)
    requires Concat(chunks) == RenderArguments(RawArguments(args))
    requires forall a | a in args :: PaddedRenderable(a, schema)
    ensures var (m, out) := ProcessChunks(ResetMachine, chunks, schema);
            && ReadOpenObject(out) == Some(BareMembers(args))
            && out + ClosingBrace(m.firstParam, out) == "{" + WriteMembers(BareMembers(args)) + "}"
  {
    hide *;
    RawIsRenderable(args, schema);
    KeysGood(args, schema);
    MembersAreBare(args);
    StreamedArguments(chunks, RawArguments(args), schema);
  }

  lemma {:induction false} KeysGood(args: seq<PaddedArgument>, schema: Schema)
    requires forall a | a in args :: PaddedRenderable(a, schema)
    ensures forall a | a in args :: a.key.Good()
  {
  }

  /** The one-shot parser reads the same arguments, its keys still with their blanks. */
  lemma {:induction false} PaddedArgumentsExtracted(args: seq<PaddedArgument>)
    requires forall a | a in args :: Compact(Full(a.Raw()))
    ensures Extract(RenderArguments(RawArguments(args)), 0) ==
            seq(|args|, i requires 0 <= i < |args| => (args[i].key.Text(), args[i].value))
  {
    hide Compact, Extract, RenderKey, RenderValue, RenderEntry;
    var raw := RawArguments(args);
    assert forall a | a in raw :: Compact(Full(a));
    FullsAgree(raw);
    var text := RenderArguments(raw);
    assert text[0..] == text;
    QuietEnds(Fulls(raw));
    EntriesExtracted(text, 0, Fulls(raw), "");
    RawPairsAre(raw);
  }

  lemma {:induction false} RawPairsAre(args: seq<Argument>)
    ensures RawPairs(Fulls(args)) == seq(|args|, i requires 0 <= i < |args| => (args[i].key, args[i].value))
    decreases |args|
  {
    if args != [] {
      RawPairsAre(args[1..]);
      assert Fulls(args)[1..] == Fulls(args[1..]);
    }
  }

  // ----- The type guess -----

  /** Without a schema type the guess goes by the value's first character that is no
      blank. */
  lemma {:induction false} GuessByFirstCharacter(key: string, value: Padded, schema: Schema)
    requires value.Good() && schema.typeOf(key) == ""
    ensures ValueType(key, value.Text(), schema) ==
            if value.core == "" then "string"
            else if value.core[0] in "0123456789-." then "number"
            else if value.core[0] in "{[" then "object"
            else "string"
  {
    hide Trim;
    TrimIs(value);
  }
}
