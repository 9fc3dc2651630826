/** What the GLM-4.7 character machine makes of rendered arguments: the JSON
    object with the trimmed keys and exactly the string values, under any
    chunking, and exactly when a value is recognised as closed. */
module GlmRoundTrip {
  import opened Wrappers
  import opened TextSearch
  import opened Utf8
  import opened JsonText
  import opened GlmMachine

  // ----- The three states that look for a tag -----

  function Target(state: StreamState): string
    requires state != IN_VALUE
  {
    match state
    case INIT => KEY_OPEN
    case BETWEEN => KEY_OPEN
    case IN_KEY => KEY_CLOSE
    case WAITING_VALUE => VALUE_OPEN
  }

  lemma {:induction false} TargetsAreTags(state: StreamState)
    requires state != IN_VALUE
    ensures IsTag(Target(state))
  {
  }

  lemma {:induction false} EndsWithOccurs(s: string, t: string)
    ensures EndsWith(s, t) <==> |s| >= |t| && OccursAt(s, t, |s| - |t|)
  {
    if |s| >= |t| {
      assert s[|s| - |t|..|s| - |t| + |t|] == s[|s| - |t|..];
    }
  }

  lemma {:induction false} NotYet(m: Machine, c: char, schema: Schema)
    requires m.state != IN_VALUE && !EndsWith(m.tagBuffer + [c], Target(m.state))
    ensures Advance(m, c, schema) == (m.(tagBuffer := m.tagBuffer + [c]), "")
  {
    hide EndsWith, Trim, Quote, ValueType;
  }

  /** Text without the tag looked for only fills the buffer. */
  lemma {:induction false} Buffering(m: Machine, s: string, schema: Schema)
    requires m.state != IN_VALUE && m.tagBuffer == "" && Free(s, Target(m.state))
    ensures Process(m, s, schema) == (m.(tagBuffer := s), "")
    decreases |s|
  {
    hide Advance, EndsWith, Target, OccursAt, IsTag;
    if s == "" {
      assert m == m.(tagBuffer := s);
    } else {
      var n, t := |s| - 1, Target(m.state);
      TargetsAreTags(m.state);
      assert |t| > 0 by { TagNotEmpty(t); }
      FreeSlice(s, t, 0, n);
      assert s[0..n] == s[..n];
      Buffering(m, s[..n], schema);
      assert s[..n] + [s[n]] == s;
      EndsWithOccurs(s, t);
      NotYet(m.(tagBuffer := s[..n]), s[n], schema);
      assert "" + "" == "";
    }
  }

  lemma {:induction false} TagNotEmpty(t: string)
    requires IsTag(t)
    ensures |t| > 1 && t[0] == '<'
  {
  }

  /** `g` followed by all but the last character of `t` does not contain `t` yet. */
  lemma {:induction false} AlmostThere(g: string, t: string)
    requires IsTag(t) && Free(g, t)
    ensures Free(g + t[..|t| - 1], t)
  {
    var b := t[..|t| - 1];
    forall i: nat ensures !OccursAt(b, t, i) {
    }
    FreeConcat(g, b, t);
  }

  /** The tag looked for, reached behind a gap free of it. */
  lemma {:induction false} Reach(m: Machine, g: string, schema: Schema)
    requires m.state != IN_VALUE && m.tagBuffer == "" && Free(g, Target(m.state))
    ensures var t := Target(m.state);
            && |t| > 0
            && Process(m, g + t, schema) == Advance(m.(tagBuffer := g + t[..|t| - 1]), t[|t| - 1], schema)
  {
    hide Advance, Target, IsTag, Free;
    var t := Target(m.state);
    TargetsAreTags(m.state);
    TagNotEmpty(t);
    AlmostThere(g, t);
    var n := |g + t| - 1;
    assert (g + t)[..n] == g + t[..|t| - 1] && (g + t)[n] == t[|t| - 1];
    Buffering(m, g + t[..|t| - 1], schema);
    var (m2, o2) := Advance(m.(tagBuffer := g + t[..|t| - 1]), t[|t| - 1], schema);
    assert "" + o2 == o2;
  }

  lemma {:induction false} BufferedTag(g: string, t: string)
    requires |t| > 0
    ensures (g + t[..|t| - 1]) + [t[|t| - 1]] == g + t
    ensures EndsWith(g + t, t) && (g + t)[..|g + t| - |t|] == g
  {
    assert t[..|t| - 1] + [t[|t| - 1]] == t;
    assert (g + t)[|g|..] == t;
  }

  lemma {:induction false} KeyStarts(m: Machine, g: string, schema: Schema)
    requires m.state in {INIT, BETWEEN} && m.tagBuffer == "" && Free(g, KEY_OPEN)
    ensures Process(m, g + KEY_OPEN, schema) ==
            (m.(state := IN_KEY, key := "", tagBuffer := "", firstParam := false), if m.firstParam then "{" else ", ")
  {
    hide EndsWith, Process, Free, ReadKey, SeekValue, ReadValue;
    Reach(m, g, schema);
    BufferedTag(g, KEY_OPEN);
  }

  lemma {:induction false} KeyEnds(m: Machine, key: string, schema: Schema)
    requires m.state == IN_KEY && m.tagBuffer == "" && Free(key, KEY_CLOSE)
    ensures Process(m, key + KEY_CLOSE, schema) ==
            (m.(state := WAITING_VALUE, key := Trim(key), tagBuffer := ""), Quote(Trim(key)) + ": ")
  {
    hide EndsWith, Process, Free, Trim, Quote, SeekKey, SeekValue, ReadValue;
    Reach(m, key, schema);
    BufferedTag(key, KEY_CLOSE);
  }

  lemma {:induction false} ValueStarts(m: Machine, g: string, schema: Schema)
    requires m.state == WAITING_VALUE && m.tagBuffer == "" && Free(g, VALUE_OPEN)
    ensures Process(m, g + VALUE_OPEN, schema) ==
            (m.(state := IN_VALUE, value := "", tagBuffer := "", valueStarted := false,
                valueType := ValueType(m.key, "", schema)), "")
  {
    hide EndsWith, Process, Free, ValueType, SeekKey, ReadKey, ReadValue;
    Reach(m, g, schema);
    BufferedTag(g, VALUE_OPEN);
  }

  // ----- Inside a value -----

  /** The part of a value still held back as a possible closing tag. */
  function Residue(v: string): (r: string)
    ensures |r| <= |v| && r <= VALUE_CLOSE && v[|v| - |r|..] == r
    decreases |v|
  {
    if v == "" then ""
    else
      var b := Residue(v[..|v| - 1]) + [v[|v| - 1]];
      if b <= VALUE_CLOSE then
        assert v[|v| - |b|..] == b;
        b
      else ""
  }

  function Done(v: string): string {
    v[..|v| - |Residue(v)|]
  }

  /** The machine after a value's first characters. */
  function InValue(m: Machine, v: string): (Machine, string) {
    var (a, b) := SplitIncomplete(Done(v));
    if Done(v) == "" then (m.(tagBuffer := Residue(v)), "")
    else (m.(value := a, tagBuffer := Residue(v), valueStarted := true, carry := b), "\"" + Escape(a))
  }

  predicate FreshValue(m: Machine) {
    && m.state == IN_VALUE && m.value == "" && m.tagBuffer == "" && m.carry == "" && !m.valueStarted
    && IsString(m)
  }

  lemma {:induction false} ResidueStep(v: string, c: char)
    ensures var b := Residue(v) + [c];
            if b <= VALUE_CLOSE
            then Residue(v + [c]) == b && Done(v + [c]) == Done(v)
            else Residue(v + [c]) == "" && Done(v + [c]) == Done(v) + b
  {
    var w, b := v + [c], Residue(v) + [c];
    ResidueGrows(v, c);
    hide Residue;
    ResidueIsSuffix(v);
    if b <= VALUE_CLOSE {
      assert w[..|w| - |b|] == v[..|v| - |Residue(v)|];
    } else {
      assert v == Done(v) + Residue(v);
      assert w[..|w|] == w == Done(v) + b;
    }
  }

  lemma {:induction false} ResidueGrows(v: string, c: char)
    ensures var b := Residue(v) + [c];
            Residue(v + [c]) == if b <= VALUE_CLOSE then b else ""
  {
    var w := v + [c];
    assert w != "" && w[|w| - 1] == c;
    assert w[..|w| - 1] == v;
  }

  lemma {:induction false} ResidueNothing()
    ensures Residue("") == "" && Done("") == ""
  {
  }

  /** A buffer that is a prefix of the closing tag ends with it only when it is it. */
  lemma {:induction false} PrefixEndsWith(b: string)
    ensures b <= VALUE_CLOSE && EndsWith(b, VALUE_CLOSE) ==> b == VALUE_CLOSE
    ensures EndsWith(VALUE_CLOSE, VALUE_CLOSE)
  {
    assert VALUE_CLOSE[0..] == VALUE_CLOSE;
  }

  /** The character does not complete the closing tag. */
  lemma {:induction false} NoClose(v: string, c: char)
    requires Free(v + [c], VALUE_CLOSE)
    ensures !EndsWith(Residue(v) + [c], VALUE_CLOSE)
  {
    ResidueIsSuffix(v);
    hide Residue, EndsWith, OccursAt;
    var b := Residue(v) + [c];
    EndsWithOccurs(b, VALUE_CLOSE);
    if EndsWith(b, VALUE_CLOSE) {
      var front := Done(v);
      assert v + [c] == front + b;
      OccursInSuffix(front, b, VALUE_CLOSE, |front| + (|b| - |VALUE_CLOSE|));
    }
  }

  /** Content leaves the buffer: the carry is joined on, and the characters that
      are complete are written. */
  lemma {:induction false} FlushStep(m: Machine, d: string, buffer: string, t: string)
    requires IsString(m) && buffer != "" && m.tagBuffer == buffer && Valid(d + buffer + t)
    requires var (a, b) := SplitIncomplete(d);
             if d == "" then m.value == "" && m.carry == "" && !m.valueStarted
             else m.value == a && m.carry == b && m.valueStarted
    ensures var (a, b) := SplitIncomplete(d); var (a2, b2) := SplitIncomplete(d + buffer);
            var (m2, o2) := FlushContent(m);
            && m2 == m.(value := a2, valueStarted := true, carry := b2, tagBuffer := "")
            && (if d == "" then "" else "\"" + Escape(a)) + o2 == "\"" + Escape(a2)
  {
    hide SplitIncomplete, Valid, Escape;
    assert d + buffer + t == d + (buffer + t);
    SplitValid(d, buffer + t);
    var (a, b) := if d == "" then ("", "") else SplitIncomplete(d);
    assert a + b == d && Valid(a) by { ValidNothing(); }
    assert d + (buffer + t) == a + ((b + buffer) + t);
    ValidConcat(a, (b + buffer) + t);
    SplitValid(b + buffer, t);
    SplitBehind(a, b + buffer);
    assert a + (b + buffer) == d + buffer;
    var (c, e) := SplitIncomplete(b + buffer);
    EscapeConcat(a, c);
    EscapeNothing();
    assert m.carry + m.tagBuffer == b + buffer;
    FlushShape(m, a, b, c, e);
  }

  lemma {:induction false} ValidNothing()
    ensures Valid("")
  {
  }

  lemma {:induction false} EscapeNothing()
    ensures Escape("") == "" && EscapeContent("") == ""
  {
  }

  lemma {:induction false} FlushShape(m: Machine, a: string, b: string, c: string, e: string)
    requires IsString(m) && m.value == a && SplitIncomplete(m.carry + m.tagBuffer) == (c, e) && Valid(c)
    requires Escape(a + c) == Escape(a) + Escape(c) && Escape("") == ""
    requires !m.valueStarted ==> a == ""
    ensures var (m2, o2) := FlushContent(m);
            && m2 == m.(value := a + c, valueStarted := true, carry := e, tagBuffer := "")
            && (if m.valueStarted then "\"" + Escape(a) else "") + o2 == "\"" + Escape(a + c)
  {
    hide SplitIncomplete, Valid, Escape;
    var written := Escape(c);
    assert (if c == "" then "" else EscapeContent(c)) == written;
    if m.valueStarted {
      assert "" + written == written;
      assert ("\"" + Escape(a)) + written == "\"" + (Escape(a) + written);
    } else {
      assert a + c == c;
      assert "" + ("\"" + written) == "\"" + written;
    }
  }

  lemma {:induction false} ValueChar(m: Machine, c: char, schema: Schema)
    requires m.state == IN_VALUE && !EndsWith(m.tagBuffer + [c], VALUE_CLOSE)
    ensures var m2 := m.(tagBuffer := m.tagBuffer + [c]);
            Advance(m, c, schema) == if m2.tagBuffer <= VALUE_CLOSE then (m2, "") else FlushContent(m2)
  {
    hide EndsWith, FlushContent, CloseValue;
  }

  /** Value text without the closing tag: everything but the residue is written,
      complete character by complete character. */
  lemma {:induction false} ValueText(m: Machine, v: string, t: string, schema: Schema)
    requires FreshValue(m) && Free(v, VALUE_CLOSE) && Valid(v + t)
    ensures Process(m, v, schema) == InValue(m, v)
    decreases |v|
  {
    hide Advance, EndsWith, OccursAt, Residue, Done, SplitIncomplete, Escape, FlushContent, Valid;
    if v == "" {
      ResidueNothing();
    } else {
      var n := |v| - 1;
      var u, c := v[..n], v[n];
      assert u + [c] == v;
      FreeSlice(v, VALUE_CLOSE, 0, n);
      assert v[0..n] == u;
      assert u + ([c] + t) == v + t;
      ValueText(m, u, [c] + t, schema);
      NoClose(u, c);
      ResidueStep(u, c);
      ValueStep(m, u, c, t, schema);
    }
  }

  lemma {:induction false} ValueStep(m: Machine, u: string, c: char, t: string, schema: Schema)
    requires FreshValue(m) && Valid(u + [c] + t) && !EndsWith(Residue(u) + [c], VALUE_CLOSE)
    ensures var (m1, o1) := InValue(m, u); var (m2, o2) := Advance(m1, c, schema);
            (m2, o1 + o2) == InValue(m, u + [c])
  {
    hide Advance, EndsWith, Residue, SplitIncomplete, Escape, FlushContent, Valid;
    ResidueStep(u, c);
    var (m1, o1) := InValue(m, u);
    ValueChar(m1, c, schema);
    var b := Residue(u) + [c];
    if b <= VALUE_CLOSE {
      assert o1 + "" == o1;
    } else {
      assert u == Done(u) + Residue(u);
      assert Done(u) + b + t == u + [c] + t;
      FlushStep(m1.(tagBuffer := b), Done(u), b, t);
      assert Done(u) + b != "";
    }
  }

  // ----- Which values are recognised as closed -----

  /** The last `<` of `v` opens a prefix of the closing tag that reaches the end of
      `v`, and that `<` was not itself swallowed by such a prefix before it. */
  predicate EndsPending(v: string)
    decreases |v|
  {
    var i := LastAngle(v);
    i < |v| && v[i..] <= VALUE_CLOSE && !EndsPending(v[..i])
  }

  function LastAngle(v: string): (i: nat)
    ensures i <= |v|
    ensures i < |v| ==> v[i] == '<'
    ensures i < |v| ==> forall j | i < j < |v| :: v[j] != '<'
    ensures i == |v| ==> '<' !in v
    decreases |v|
  {
    if v == "" then 0
    else if v[|v| - 1] == '<' then |v| - 1
    else
      var i := LastAngle(v[..|v| - 1]);
      if i == |v| - 1 then |v| else i
  }

  lemma {:induction false} ResidueShape(v: string)
    ensures Residue(v) != "" ==> Residue(v)[0] == '<' && forall j | 0 < j < |Residue(v)| :: Residue(v)[j] != '<'
  {
  }

  /** Reading `x` from an empty residue when `x` is a prefix of the closing tag. */
  lemma {:induction false} ResidueOfPrefix(v: string, x: string)
    requires Residue(v) == "" && x <= VALUE_CLOSE
    ensures Residue(v + x) == x
    decreases |x|
  {
    hide Residue;
    if x == "" {
      assert v + x == v;
    } else {
      var n := |x| - 1;
      ResidueOfPrefix(v, x[..n]);
      ResidueGrows(v + x[..n], x[n]);
      assert (v + x[..n]) + [x[n]] == v + x && x[..n] + [x[n]] == x;
    }
  }

  /** Reading `x` when the residue can not grow by `x[0]`, and `x` opens no tag later. */
  lemma {:induction false} ResidueSwallows(v: string, x: string)
    requires x != "" && !(Residue(v) + [x[0]] <= VALUE_CLOSE)
    requires forall j | 0 < j < |x| :: x[j] != '<'
    ensures Residue(v + x) == ""
    decreases |x|
  {
    hide Residue;
    var n := |x| - 1;
    var y := x[..n];
    assert (v + y) + [x[n]] == v + x;
    ResidueGrows(v + y, x[n]);
    if n == 0 {
      assert v + y == v;
    } else {
      ResidueSwallows(v, y);
      assert ("" + [x[n]])[0] == x[n] != '<';
    }
  }

  lemma {:induction false} ResidueOfTail(v: string, x: string)
    requires x != "" && x[0] == '<' && forall j | 0 < j < |x| :: x[j] != '<'
    ensures Residue(v + x) != "" <==> Residue(v) == "" && x <= VALUE_CLOSE
  {
    hide Residue;
    if Residue(v) == "" && x <= VALUE_CLOSE {
      ResidueOfPrefix(v, x);
    } else if Residue(v) != "" {
      ResidueShape(v);
      var b := Residue(v) + [x[0]];
      assert b[|b| - 1] == '<' && VALUE_CLOSE[|b| - 1..] != [] ==> !(b <= VALUE_CLOSE);
      ResidueSwallows(v, x);
    } else {
      ResidueBroken(v, x);
    }
  }

  /** A tail that leaves the closing tag half-way is flushed. */
  lemma {:induction false} ResidueBroken(v: string, x: string)
    requires Residue(v) == "" && x != "" && x[0] == '<' && !(x <= VALUE_CLOSE)
    requires forall j | 0 < j < |x| :: x[j] != '<'
    ensures Residue(v + x) == ""
    decreases |x|
  {
    hide Residue;
    var n := |x| - 1;
    var y := x[..n];
    assert y + [x[n]] == x && (v + y) + [x[n]] == v + x;
    ResidueGrows(v + y, x[n]);
    if y <= VALUE_CLOSE {
      ResidueOfPrefix(v, y);
    } else {
      ResidueBroken(v, y);
    }
  }

  /** The residue, seen from the `<` signs alone. */
  lemma {:induction false} PendingIffResidue(v: string)
    ensures EndsPending(v) <==> Residue(v) != ""
    decreases |v|
  {
    hide Residue;
    var i := LastAngle(v);
    if i < |v| {
      PendingIffResidue(v[..i]);
      assert v == v[..i] + v[i..];
      ResidueOfTail(v[..i], v[i..]);
    } else {
      NoAngleNoResidue(v);
    }
  }

  lemma {:induction false} NoAngleNoResidue(v: string)
    ensures Residue(v) != "" ==> '<' in v
  {
    ResidueShape(v);
    ResidueIsSuffix(v);
    hide Residue;
    if Residue(v) != "" {
      assert v[|v| - |Residue(v)|] == v[|v| - |Residue(v)|..][0];
    }
  }

  lemma {:induction false} ResidueIsSuffix(v: string)
    ensures |Residue(v)| <= |v| && v[|v| - |Residue(v)|..] == Residue(v)
  {
  }

  // ----- The closing tag -----

  /** The closing tag, read from an empty buffer, is kept back whole. */
  lemma {:induction false} ClosingPrefix(m: Machine, k: nat, schema: Schema)
    requires m.state == IN_VALUE && m.tagBuffer == "" && k < |VALUE_CLOSE|
    ensures Process(m, VALUE_CLOSE[..k], schema) == (m.(tagBuffer := VALUE_CLOSE[..k]), "")
  {
    hide Advance, EndsWith;
    if k == 0 {
      assert m.(tagBuffer := "") == m;
    } else {
      var b := VALUE_CLOSE[..k];
      ClosingPrefix(m, k - 1, schema);
      assert b[..k - 1] == VALUE_CLOSE[..k - 1] && b[..k - 1] + [b[k - 1]] == b;
      PrefixEndsWith(b);
      ValueChar(m.(tagBuffer := b[..k - 1]), b[k - 1], schema);
      assert "" + "" == "";
    }
  }

  lemma {:induction false} ClosingTag(m: Machine, schema: Schema)
    requires m.state == IN_VALUE && m.tagBuffer == ""
    ensures Process(m, VALUE_CLOSE, schema) == CloseValue(m.(tagBuffer := VALUE_CLOSE), schema)
  {
    hide Advance, EndsWith, CloseValue;
    var n := |VALUE_CLOSE| - 1;
    ClosingPrefix(m, n, schema);
    assert VALUE_CLOSE[..n] + [VALUE_CLOSE[n]] == VALUE_CLOSE;
    ClosingChar(m.(tagBuffer := VALUE_CLOSE[..n]), VALUE_CLOSE[n], schema);
    var (m2, o2) := CloseValue(m.(tagBuffer := VALUE_CLOSE), schema);
    assert "" + o2 == o2;
  }

  lemma {:induction false} ClosingChar(m: Machine, c: char, schema: Schema)
    requires m.state == IN_VALUE && m.tagBuffer + [c] == VALUE_CLOSE
    ensures Advance(m, c, schema) == CloseValue(m.(tagBuffer := VALUE_CLOSE), schema)
  {
    hide CloseValue;
    PrefixEndsWith(VALUE_CLOSE);
  }

  /** What the closing tag makes of a value whose text has been written. */
  lemma {:induction false} CloseWritten(m: Machine, v: string, schema: Schema)
    requires FreshValue(m) && Valid(v) && Residue(v) == ""
    ensures var m1 := InValue(m, v).0.(tagBuffer := VALUE_CLOSE);
            && CloseValue(m1, schema).0 == m.(state := BETWEEN, valueType := "")
            && InValue(m, v).1 + CloseValue(m1, schema).1 == Quote(v)
  {
    hide *;
    if v == "" {
      EmptyWritten(m);
      CloseEmpty(m, schema);
      assert InValue(m, v).0.(tagBuffer := VALUE_CLOSE) == m.(tagBuffer := VALUE_CLOSE);
      assert "" + Quote("") == Quote("");
    } else {
      AllWritten(m, v);
      var m1 := m.(value := v, tagBuffer := VALUE_CLOSE, valueStarted := true);
      SameType(m, m1);
      FreshParts(m);
      CloseStarted(m1, schema);
      assert InValue(m, v).0.(tagBuffer := VALUE_CLOSE) == m1;
      QuoteParts(v);
    }
  }

  lemma {:induction false} EmptyWritten(m: Machine)
    requires FreshValue(m)
    ensures InValue(m, "") == (m, "")
  {
    ResidueNothing();
    hide Residue, Done, SplitIncomplete, Escape;
    assert m.(tagBuffer := "") == m;
  }

  lemma {:induction false} AllWritten(m: Machine, v: string)
    requires FreshValue(m) && v != "" && Valid(v) && Residue(v) == ""
    ensures InValue(m, v) == (m.(value := v, tagBuffer := "", valueStarted := true), "\"" + Escape(v))
  {
    hide SplitIncomplete, Escape, Valid, Residue;
    assert Done(v) == v;
    assert v + "" == v;
    SplitValid(v, "");
    var (a, b) := SplitIncomplete(v);
    assert b == "" && a + "" == a;
  }

  lemma {:induction false} FreshParts(m: Machine)
    requires FreshValue(m)
    ensures m.value == "" && m.carry == "" && m.tagBuffer == "" && !m.valueStarted && IsString(m)
  {
  }

  lemma {:induction false} SameType(m: Machine, m1: Machine)
    requires m.valueType == m1.valueType
    ensures IsString(m) <==> IsString(m1)
  {
  }

  lemma {:induction false} QuoteParts(v: string)
    ensures ("\"" + Escape(v)) + "\"" == Quote(v)
  {
    hide Escape;
  }

  lemma {:induction false} CloseEmpty(m: Machine, schema: Schema)
    requires FreshValue(m)
    ensures CloseValue(m.(tagBuffer := VALUE_CLOSE), schema) == (m.(state := BETWEEN, valueType := ""), Quote(""))
  {
    hide Quote, EscapeContent;
    assert VALUE_CLOSE[..0] == "" && "" + "" == "";
  }

  lemma {:induction false} CloseStarted(m: Machine, schema: Schema)
    requires m.tagBuffer == VALUE_CLOSE && m.valueStarted && m.carry == "" && IsString(m)
    ensures CloseValue(m, schema) ==
            (m.(state := BETWEEN, value := "", tagBuffer := "", valueStarted := false, valueType := ""), "\"")
  {
    hide EscapeContent, FormatComplete;
    assert VALUE_CLOSE[..0] == "" && "" + "" == "" && "" + "\"" == "\"";
  }

  /** At no point of `w` is the residue the whole closing tag. */
  ghost predicate NeverClosed(w: string) {
    forall k | 0 <= k <= |w| :: Residue(w[..k]) != VALUE_CLOSE
  }

  lemma {:induction false} NeverClosedPrefix(w: string)
    requires w != "" && NeverClosed(w)
    ensures NeverClosed(w[..|w| - 1]) && Residue(w[..|w| - 1]) != VALUE_CLOSE && Residue(w) != VALUE_CLOSE
  {
    hide Residue;
    var u := w[..|w| - 1];
    assert w[..|w|] == w;
    forall k | 0 <= k <= |u| ensures Residue(u[..k]) != VALUE_CLOSE {
      assert u[..k] == w[..k];
    }
  }

  lemma {:induction false} ProcessSnoc(m: Machine, w: string, schema: Schema)
    requires w != ""
    ensures var m1 := Process(m, w[..|w| - 1], schema).0;
            Process(m, w, schema).0 == Advance(m1, w[|w| - 1], schema).0
  {
    hide Advance;
  }

  /** The machine stays inside the value as long as the residue is no closing tag. */
  lemma {:induction false} StillOpen(m: Machine, w: string, schema: Schema)
    requires m.state == IN_VALUE && m.tagBuffer == "" && NeverClosed(w)
    ensures Process(m, w, schema).0.state == IN_VALUE && Process(m, w, schema).0.tagBuffer == Residue(w)
    decreases |w|
  {
    hide *;
    if w == "" {
      ResidueNothing();
      ProcessNothing(m, schema);
    } else {
      var n := |w| - 1;
      var u := w[..n];
      NeverClosedPrefix(w);
      StillOpen(m, u, schema);
      assert u + [w[n]] == w;
      OpenChar(Process(m, u, schema).0, u, w[n], schema);
      ProcessSnoc(m, w, schema);
    }
  }

  lemma {:induction false} OpenChar(m: Machine, u: string, c: char, schema: Schema)
    requires m.state == IN_VALUE && m.tagBuffer == Residue(u) && Residue(u) != VALUE_CLOSE
    requires Residue(u + [c]) != VALUE_CLOSE
    ensures Advance(m, c, schema).0.state == IN_VALUE && Advance(m, c, schema).0.tagBuffer == Residue(u + [c])
  {
    hide Advance, EndsWith, Residue, SplitIncomplete, EscapeContent;
    ResidueGrows(u, c);
    ResidueFits(u);
    var b := Residue(u) + [c];
    EndsWithLong(b);
    ValueChar(m, c, schema);
  }

  lemma {:induction false} ResidueFits(u: string)
    ensures Residue(u) <= VALUE_CLOSE
  {
  }

  lemma {:induction false} EndsWithLong(b: string)
    requires |b| <= |VALUE_CLOSE|
    ensures EndsWith(b, VALUE_CLOSE) <==> b == VALUE_CLOSE
  {
    if |b| == |VALUE_CLOSE| {
      assert b[0..] == b;
    }
  }

  /** While text is pending the closing tag is swallowed. */
  lemma {:induction false} Swallowed(m: Machine, v: string, schema: Schema)
    requires m.state == IN_VALUE && m.tagBuffer == "" && Free(v, VALUE_CLOSE) && Residue(v) != ""
    ensures Process(m, v + VALUE_CLOSE, schema).0.state == IN_VALUE
  {
    hide Residue, OccursAt, Process;
    var w := v + VALUE_CLOSE;
    forall k | 0 <= k <= |w| ensures Residue(w[..k]) != VALUE_CLOSE {
      if k <= |v| {
        assert w[..k] == v[..k] == v[0..k];
        FreeSlice(v, VALUE_CLOSE, 0, k);
        FreeResidue(v[..k]);
      } else {
        assert w[..k] == v + VALUE_CLOSE[..k - |v|];
        SwallowedPart(v, k - |v|);
      }
    }
    StillOpen(m, w, schema);
  }

  lemma {:induction false} SwallowedPart(v: string, n: nat)
    requires Residue(v) != "" && 0 < n <= |VALUE_CLOSE|
    ensures Residue(v + VALUE_CLOSE[..n]) == ""
  {
    hide Residue;
    ResidueShape(v);
    var x := VALUE_CLOSE[..n];
    var b := Residue(v) + [x[0]];
    assert b[|b| - 1] == '<' && |b| > 1;
    ResidueSwallows(v, x);
  }

  lemma {:induction false} FreeResidue(u: string)
    requires Free(u, VALUE_CLOSE)
    ensures Residue(u) != VALUE_CLOSE
  {
    hide Residue;
    ResidueIsSuffix(u);
    EndsWithOccurs(u, VALUE_CLOSE);
  }

  /** A string value is recognised as closed if and only if its text leaves no
      prefix of the closing tag pending; then exactly its JSON literal has been
      written, and the UTF-8 carry is empty. */
  lemma {:induction false} ValueCloses(m: Machine, v: string, schema: Schema)
    requires FreshValue(m) && Free(v, VALUE_CLOSE) && Valid(v)
    ensures Process(m, v + VALUE_CLOSE, schema).0.state == BETWEEN <==> !EndsPending(v)
    ensures !EndsPending(v) ==>
              Process(m, v + VALUE_CLOSE, schema) == (m.(state := BETWEEN, valueType := ""), Quote(v))
  {
    hide Process, EndsPending, InValue, Residue, CloseValue, Free, Valid, Quote;
    PendingIffResidue(v);
    if Residue(v) != "" {
      Swallowed(m, v, schema);
    } else {
      assert v + "" == v;
      ValueText(m, v, "", schema);
      ProcessConcat(m, v, VALUE_CLOSE, schema);
      InValueState(m, v);
      ClosingTag(InValue(m, v).0, schema);
      CloseWritten(m, v, schema);
    }
  }

  lemma {:induction false} InValueState(m: Machine, v: string)
    ensures InValue(m, v).0.state == m.state && InValue(m, v).0.tagBuffer == Residue(v)
  {
  }

  /** A value that does not end in a proper part of the closing tag is closed. */
  lemma {:induction false} PlainEndIsClosed(v: string)
    requires forall i | 0 <= i < |v| :: !(v[i..] <= VALUE_CLOSE)
    ensures !EndsPending(v)
  {
  }

  /** `a<` swallows its closing tag; a second `<` sets the first one free again. */
  lemma {:induction false} PendingExamples()
    ensures EndsPending("a<") && !EndsPending("a<<")
  {
    assert "a<"[1..] == "<" && "a<"[..1] == "a" && "a<<"[2..] == "<" && "a<<"[..2] == "a<";
    AngleExamples();
  }

  lemma {:induction false} AngleExamples()
    ensures LastAngle("a") == 1 && LastAngle("a<") == 1 && LastAngle("a<<") == 2
  {
  }

  // ----- A whole list of arguments -----

  /** One argument with arbitrary text, such as line breaks, before its key and
      between its key and its value. */
  datatype Argument = Argument(before: string, key: string, between: string, value: string)

  function RenderKey(a: Argument): string {
    (a.before + KEY_OPEN) + (a.key + KEY_CLOSE)
  }

  function RenderValue(a: Argument): string {
    (a.between + VALUE_OPEN) + (a.value + VALUE_CLOSE)
  }

  function RenderArguments(args: seq<Argument>): string {
    if args == [] then "" else RenderKey(args[0]) + RenderValue(args[0]) + RenderArguments(args[1..])
  }

  /** The keys after trimming, and the values. */
  function Members(args: seq<Argument>): seq<(string, string)> {
    if args == [] then [] else [(Trim(args[0].key), args[0].value)] + Members(args[1..])
  }

  /** No tag where it would end something early, and a value that is recognised as
      closed. */
  ghost predicate Writable(a: Argument) {
    && Free(a.before, KEY_OPEN) && Free(a.key, KEY_CLOSE)
    && Free(a.between, VALUE_OPEN) && Free(a.value, VALUE_CLOSE)
    && Valid(a.value) && !EndsPending(a.value)
  }

  ghost predicate Renderable(a: Argument, schema: Schema) {
    Writable(a) && schema.typeOf(Trim(a.key)) in {"", "string"}
  }

  predicate Ready(m: Machine) {
    m.state in {INIT, BETWEEN} && m.tagBuffer == "" && m.value == "" && m.carry == "" && !m.valueStarted
  }

  lemma {:induction false} KeyRun(m: Machine, a: Argument, schema: Schema)
    requires Ready(m) && Free(a.before, KEY_OPEN) && Free(a.key, KEY_CLOSE)
    ensures Process(m, RenderKey(a), schema) ==
            (m.(state := WAITING_VALUE, key := Trim(a.key), firstParam := false),
             (if m.firstParam then "{" else ", ") + (Quote(Trim(a.key)) + ": "))
  {
    hide Process, Free, Trim, Quote;
    KeyStarts(m, a.before, schema);
    var m1 := m.(state := IN_KEY, key := "", tagBuffer := "", firstParam := false);
    KeyEnds(m1, a.key, schema);
    ProcessConcat(m, a.before + KEY_OPEN, a.key + KEY_CLOSE, schema);
  }

  lemma {:induction false} ValueRun(m: Machine, a: Argument, schema: Schema)
    requires m.state == WAITING_VALUE && Ready(m.(state := BETWEEN)) && m.key == Trim(a.key) && Renderable(a, schema)
    ensures Process(m, RenderValue(a), schema) == (m.(state := BETWEEN, valueType := ""), Quote(a.value))
  {
    hide Process, Free, Trim, Quote, Valid, EndsPending, ValueType;
    ValueStarts(m, a.between, schema);
    GuessOfNothing(m.key, schema);
    var m1 := m.(state := IN_VALUE, value := "", tagBuffer := "", valueStarted := false,
                 valueType := ValueType(m.key, "", schema));
    ValueCloses(m1, a.value, schema);
    ProcessConcat(m, a.between + VALUE_OPEN, a.value + VALUE_CLOSE, schema);
    assert "" + Quote(a.value) == Quote(a.value);
  }

  lemma {:induction false} ArgumentRun(m: Machine, a: Argument, schema: Schema)
    requires Ready(m) && Renderable(a, schema)
    ensures Process(m, RenderKey(a) + RenderValue(a), schema) ==
            (m.(state := BETWEEN, key := Trim(a.key), firstParam := false, valueType := ""),
             (if m.firstParam then "{" else ", ") + WriteMember((Trim(a.key), a.value)))
  {
    hide Process, Free, Trim, Quote, Valid, EndsPending, RenderKey, RenderValue;
    KeyRun(m, a, schema);
    var m1 := m.(state := WAITING_VALUE, key := Trim(a.key), firstParam := false);
    ValueRun(m1, a, schema);
    ProcessConcat(m, RenderKey(a), RenderValue(a), schema);
    var front, k, v := if m.firstParam then "{" else ", ", Quote(Trim(a.key)) + ": ", Quote(a.value);
    assert (front + k) + v == front + (k + v);
  }

  /** Later members, each behind its separator. */
  function Continued(ms: seq<(string, string)>): string {
    if ms == [] then "" else ", " + WriteMember(ms[0]) + Continued(ms[1..])
  }

  lemma {:induction false} MembersContinued(ms: seq<(string, string)>)
    requires ms != []
    ensures WriteMembers(ms) == WriteMember(ms[0]) + Continued(ms[1..])
    decreases |ms|
  {
    hide WriteMember;
    if |ms| > 1 {
      MembersContinued(ms[1..]);
      assert ms[1..][0] == ms[1];
      assert ", " + (WriteMember(ms[1]) + Continued(ms[1..][1..])) == ", " + WriteMember(ms[1]) + Continued(ms[1..][1..]);
    }
  }

  lemma {:induction false} ArgumentsRun(m: Machine, args: seq<Argument>, schema: Schema)
    requires Ready(m) && forall a | a in args :: Renderable(a, schema)
    ensures var (m2, out) := Process(m, RenderArguments(args), schema);
            && Ready(m2) && (args == [] ==> m2 == m) && (m2.firstParam <==> m.firstParam && args == [])
            && (args != [] ==> m2.state == BETWEEN)
            && out == (if m.firstParam && args != [] then "{" + WriteMembers(Members(args)) else Continued(Members(args)))
    decreases |args|
  {
    hide Process, Renderable, WriteMember, RenderKey, RenderValue, WriteMembers;
    if args == [] {
      ProcessNothing(m, schema);
    } else {
      var a, ms := args[0], Members(args);
      var text, member := RenderKey(a) + RenderValue(a), WriteMember(ms[0]);
      ArgumentRun(m, a, schema);
      var m1 := Process(m, text, schema).0;
      ArgumentsRun(m1, args[1..], schema);
      ProcessConcat(m, text, RenderArguments(args[1..]), schema);
      assert ms[1..] == Members(args[1..]);
      MembersContinued(ms);
      if m.firstParam {
        assert ("{" + member) + Continued(ms[1..]) == "{" + (member + Continued(ms[1..]));
      }
    }
  }

  /** What the end of the tool call adds to the arguments streamed so far. */
  function ClosingBrace(firstParam: bool, streamed: string): string {
    if firstParam then "{}"
    else if streamed == "" || streamed[|streamed| - 1] != '}' then "}"
    else ""
  }

  /** Every list of string arguments, cut into any chunks, is written as a JSON
      object with the trimmed keys and exactly the values, in order; it reads back
      as them, its closing brace is added once, and the carry is left empty. */
  lemma {:induction false} StreamedArguments(chunks: seq<string>, args: seq<Argument>, schema: Schema)
    requires Concat(chunks) == RenderArguments(args)
    requires forall a | a in args :: Renderable(a, schema)
    ensures var (m, out) := ProcessChunks(ResetMachine, chunks, schema);
            && ReadOpenObject(out) == Some(Members(args))
            && out + ClosingBrace(m.firstParam, out) == "{" + WriteMembers(Members(args)) + "}"
            && m.carry == "" && (args != [] ==> m.state == BETWEEN)
  {
    hide Process, ProcessChunks, Renderable, WriteMembers, ReadMembers;
    ChunksDoNotMatter(ResetMachine, chunks, schema);
    ArgumentsRun(ResetMachine, args, schema);
    var ms := Members(args);
    var (m, out) := Process(ResetMachine, RenderArguments(args), schema);
    if args == [] {
      NoMembers();
      assert "" + "{}" == "{" + "" + "}";
    } else {
      MembersRoundTrip(ms);
      assert out[1..] == WriteMembers(ms);
      LastIsQuote(ms);
    }
  }

  lemma {:induction false} NoMembers()
    ensures WriteMembers([]) == "" && ReadOpenObject("") == Some([])
  {
  }

  lemma {:induction false} LastIsQuote(ms: seq<(string, string)>)
    requires ms != []
    ensures WriteMembers(ms) != "" && WriteMembers(ms)[|WriteMembers(ms)| - 1] == '"'
    decreases |ms|
  {
    if |ms| > 1 {
      LastIsQuote(ms[1..]);
    }
  }

  /** Trimming a key keeps it valid UTF-8, so the serializer cannot reject it. */
  lemma {:induction false} TrimmedKeyIsValid(key: string)
    requires Valid(key)
    ensures Valid(Trim(key))
  {
    TrimLeftValid(key);
    TrimRightValid(TrimLeft(key));
  }

  lemma {:induction false} TrimLeftValid(s: string)
    requires Valid(s)
    ensures Valid(TrimLeft(s))
    decreases |s|
  {
    if s != "" && IsBlank(s[0]) {
      TrimLeftValid(s[1..]);
    }
  }

  lemma {:induction false} TrimRightValid(s: string)
    requires Valid(s)
    ensures Valid(TrimRight(s))
    decreases |s|
  {
    if s != "" && IsBlank(s[|s| - 1]) {
      var n := |s| - 1;
      assert s[..n] + [s[n]] == s;
      DropAscii(s[..n], s[n]);
      TrimRightValid(s[..n]);
    }
  }

  lemma {:induction false} DropAscii(s: string, c: char)
    requires Valid(s + [c]) && (c as int) < 0x80
    ensures Valid(s)
    decreases |s|
  {
    hide CharLength;
    LastByte(s + [c]);
    if s != "" {
      var n := CharLength(s + [c]);
      if n <= |s| {
        CharLengthStable(s, [c]);
        assert (s + [c])[n..] == s[n..] + [c];
        DropAscii(s[n..], c);
      }
    }
  }

  /** The last byte of a longer character continues it. */
  lemma {:induction false} LastByte(w: string)
    ensures CharLength(w) == |w| > 1 ==> w[|w| - 1] as int >= 0x80
  {
  }
}
