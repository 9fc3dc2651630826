/** Whole runs of argument-difference streaming: nothing is lost and nothing is
    repeated as long as every dump continues what was sent, and not otherwise. */
module ArgDiffRuns {
  import opened Wrappers
  import opened Utf8
  import opened ArgDiff

  // ----- One step -----

  /** What has been sent for the invoke under way. */
  function Sent(p: Progress): string
    requires Shaped(p)
  {
    if p.nameSent then p.streamed[p.tool] else ""
  }

  /** Valid text sent, always the beginning of the stored arguments, and all of
      them for every closed invoke. */
  ghost predicate Sound(p: Progress) {
    && Shaped(p)
    && forall i | 0 <= i < |p.streamed| ::
         p.stored[i].Some? && SoundEntry(p.stored[i].value, p.streamed[i], i < p.tool)
  }

  predicate SoundEntry(stored: string, streamed: string, closed: bool) {
    Valid(stored) && Valid(streamed) && streamed <= stored && (closed ==> streamed == stored)
  }

  lemma {:induction false} UnsentContinues(stored: Option<string>, streamed: string, o: Observation)
    requires streamed <= o.args
    ensures var u := Unsent(stored, streamed, o);
            && streamed + u <= o.args && (o.closed ==> streamed + u == o.args)
            && (u != "" && !o.closed ==> stored.Some? && streamed + u == CommonPrefix(stored.value, o.args))
  {
    if stored.Some? {
      CommonPrefixFits(stored.value, o.args);
    }
    hide CommonPrefix;
  }

  lemma {:induction false} DifferenceIsGood(stored: Option<string>, streamed: string, o: Observation)
    requires Valid(o.args) && Valid(streamed) && streamed <= o.args
    ensures var d := Difference(stored, streamed, o);
            && SoundEntry(o.args, streamed + d, o.closed)
            && d <= Unsent(stored, streamed, o)
  {
    UnsentContinues(stored, streamed, o);
    hide Unsent, SplitIncomplete, Valid;
    var u := Unsent(stored, streamed, o);
    var rest := o.args[|streamed + u|..];
    assert o.args == (streamed + u) + rest;
    CutIsGood(streamed, u, rest);
    var a := SplitIncomplete(u).0;
    assert streamed + a <= streamed + u <= o.args;
  }

  lemma {:induction false} CutIsGood(s: string, u: string, rest: string)
    requires Valid(s) && Valid((s + u) + rest)
    ensures var a := SplitIncomplete(u).0;
            a <= u && Valid(s + a) && (rest == "" ==> a == u)
  {
    hide SplitIncomplete, Valid;
    assert (s + u) + rest == s + (u + rest);
    ValidConcat(s, u + rest);
    SplitValid(u, rest);
    var (a, b) := SplitIncomplete(u);
    ValidConcat(s, a);
    assert rest == "" ==> u + rest == u && a + "" == a;
  }

  function Now(p: Progress): nat
    requires Shaped(p)
  {
    if p.tool == -1 then 0 else p.tool
  }

  function StreamedFor(p: Progress, tool: int): string {
    if 0 <= tool < |p.streamed| then p.streamed[tool] else ""
  }

  /** Exactly when the new dump begins with what was sent does everything sent so
      far begin the stored arguments again; then the bookkeeping stays sound. */
  lemma {:induction false} StepKeepsSound(p: Progress, o: Observation)
    requires Sound(p) && Valid(o.args)
    ensures Sent(p) <= o.args <==> StreamedFor(Step(p, o).0, Now(p)) <= o.args
    ensures Sent(p) <= o.args ==> Sound(Step(p, o).0)
  {
    hide Difference, SoundEntry, Valid;
    StepShape(p, o);
    var q := Step(p, o).0;
    if Sent(p) <= o.args {
      assert Valid(Sent(p)) by { SentIsValid(p); }
      DifferenceIsGood(if p.nameSent then p.stored[p.tool] else None, Sent(p), o);
      SoundEntryPrefix(o.args, q.streamed[Now(p)], o.closed);
      forall i | 0 <= i < |q.streamed|
        ensures q.stored[i].Some? && SoundEntry(q.stored[i].value, q.streamed[i], i < q.tool) {
        if i < Now(p) {
          assert SoundEntry(p.stored[i].value, p.streamed[i], i < p.tool);
        }
      }
    }
  }

  lemma {:induction false} SentIsValid(p: Progress)
    requires Sound(p)
    ensures Valid(Sent(p))
  {
  }

  lemma {:induction false} SoundEntryPrefix(stored: string, streamed: string, closed: bool)
    requires SoundEntry(stored, streamed, closed)
    ensures streamed <= stored
  {
  }

  /** What one step does to the tables. */
  lemma {:induction false} StepShape(p: Progress, o: Observation)
    requires Shaped(p)
    ensures var (q, fs) := Step(p, o); var t := Now(p);
            var d := Difference(if p.nameSent then p.stored[p.tool] else None, Sent(p), o);
            && Shaped(q) && |q.stored| == t + 1 && q.nameSent == !o.closed
            && q.tool == (if o.closed then t + 1 else t) && t <= |p.stored|
            && q.stored == p.stored[..t] + [Some(o.args)] && q.streamed == p.streamed[..t] + [Sent(p) + d]
            && fs == Fragments(Progress(t, p.nameSent, [], []), o.name, d)
  {
    hide Difference, Prepared;
    PreparedShape(p);
  }

  // ----- Runs -----

  function Run(p: Progress, os: seq<Observation>): (Progress, seq<Fragment>)
    requires Shaped(p)
    decreases |os|
  {
    if os == [] then (p, [])
    else
      StepShape(p, os[0]);
      var (q, fs) := Step(p, os[0]);
      var (r, later) := Run(q, os[1..]);
      (r, fs + later)
  }

  /** Every dump is valid UTF-8 and begins with what was sent for its invoke. */
  predicate Consistent(p: Progress, os: seq<Observation>)
    requires Shaped(p)
    decreases |os|
  {
    os == [] ||
    (Valid(os[0].args) && Sent(p) <= os[0].args
     && (StepShape(p, os[0]); Consistent(Step(p, os[0]).0, os[1..])))
  }

  /** The last dump of every invoke. */
  function Invokes(os: seq<Observation>): seq<string> {
    if os == [] then []
    else if os[0].closed then [os[0].args] + Invokes(os[1..])
    else if |os| == 1 then [os[0].args]
    else Invokes(os[1..])
  }

  /** The name each invoke was first seen with; `first` says whether the next
      observation starts a new invoke. */
  function InvokeNames(os: seq<Observation>, first: bool): seq<string> {
    if os == [] then []
    else (if first then [os[0].name] else []) + InvokeNames(os[1..], os[0].closed)
  }

  function Numbered(names: seq<string>, tool: int): seq<(int, string)> {
    if names == [] then [] else [(tool, names[0])] + Numbered(names[1..], tool + 1)
  }

  function NamesOf(fs: seq<Fragment>): seq<(int, string)> {
    if fs == [] then []
    else (if fs[0].name.Some? then [(fs[0].tool, fs[0].name.value)] else []) + NamesOf(fs[1..])
  }

  /** The argument text a client has received for a tool. */
  function Delivered(fs: seq<Fragment>, tool: int): string {
    if fs == [] then ""
    else (if fs[0].tool == tool then fs[0].args else "") + Delivered(fs[1..], tool)
  }

  lemma {:induction false} DeliveredConcat(a: seq<Fragment>, b: seq<Fragment>, tool: int)
    ensures Delivered(a + b, tool) == Delivered(a, tool) + Delivered(b, tool)
    decreases |a|
  {
    if a == [] {
      assert a + b == b;
    } else {
      DeliveredConcat(a[1..], b, tool);
      assert (a + b)[1..] == a[1..] + b && (a + b)[0] == a[0];
      var x := if a[0].tool == tool then a[0].args else "";
      assert x + (Delivered(a[1..], tool) + Delivered(b, tool)) == (x + Delivered(a[1..], tool)) + Delivered(b, tool);
    }
  }

  lemma {:induction false} NamesConcat(a: seq<Fragment>, b: seq<Fragment>)
    ensures NamesOf(a + b) == NamesOf(a) + NamesOf(b)
    decreases |a|
  {
    if a == [] {
      assert a + b == b;
    } else {
      NamesConcat(a[1..], b);
      assert (a + b)[1..] == a[1..] + b && (a + b)[0] == a[0];
      var front := if a[0].name.Some? then [(a[0].tool, a[0].name.value)] else [];
      assert front + (NamesOf(a[1..]) + NamesOf(b)) == (front + NamesOf(a[1..])) + NamesOf(b);
    }
  }

  lemma {:induction false} StepFragments(t: int, nameSent: bool, name: string, d: string, tool: int)
    ensures var fs := Fragments(Progress(t, nameSent, [], []), name, d);
            && Delivered(fs, tool) == (if tool == t then d else "")
            && NamesOf(fs) == (if nameSent then [] else [(t, name)])
  {
    var a := if nameSent then [] else [Fragment(t, Some(name), "")];
    var b := if d == "" then [] else [Fragment(t, None, d)];
    DeliveredConcat(a, b, tool);
    NamesConcat(a, b);
    assert d + "" == d && "" + d == d && "" + "" == "";
  }

  /** On every run a client has received exactly what is booked as streamed. */
  lemma {:induction false} DeliveredIsStreamed(p: Progress, os: seq<Observation>, tool: int)
    requires Shaped(p)
    ensures var (q, fs) := Run(p, os);
            Shaped(q) && StreamedFor(q, tool) == StreamedFor(p, tool) + Delivered(fs, tool)
    decreases |os|
  {
    hide Step, StreamedFor, Delivered;
    if os == [] {
      DeliveredNothing(tool);
      assert StreamedFor(p, tool) + "" == StreamedFor(p, tool);
    } else {
      StepShape(p, os[0]);
      var (q, fs) := Step(p, os[0]);
      DeliveredIsStreamed(q, os[1..], tool);
      var (r, later) := Run(q, os[1..]);
      DeliveredConcat(fs, later, tool);
      DeliveredByStep(p, os[0], tool);
      assert StreamedFor(p, tool) + (Delivered(fs, tool) + Delivered(later, tool))
          == (StreamedFor(p, tool) + Delivered(fs, tool)) + Delivered(later, tool);
    }
  }

  lemma {:induction false} DeliveredNothing(tool: int)
    ensures Delivered([], tool) == ""
  {
  }

  lemma {:induction false} DeliveredByStep(p: Progress, o: Observation, tool: int)
    requires Shaped(p)
    ensures StreamedFor(Step(p, o).0, tool) == StreamedFor(p, tool) + Delivered(Step(p, o).1, tool)
  {
    hide Step, Difference, Fragments, Delivered, StreamedFor;
    StepShape(p, o);
    var d := Difference(if p.nameSent then p.stored[p.tool] else None, Sent(p), o);
    StepFragments(Now(p), p.nameSent, o.name, d, tool);
    StreamedStep(p, Step(p, o).0, Now(p), d, tool);
  }

  lemma {:induction false} StreamedStep(p: Progress, q: Progress, t: nat, d: string, tool: int)
    requires Shaped(p) && t == Now(p) && t <= |p.streamed|
    requires q.streamed == p.streamed[..t] + [Sent(p) + d]
    ensures StreamedFor(q, tool) == StreamedFor(p, tool) + (if tool == t then d else "")
  {
    assert StreamedFor(p, tool) + "" == StreamedFor(p, tool);
  }

  /** What is stored is the last dump of every invoke, and each invoke has been
      announced once, in order, with the name it was first seen with. */
  lemma {:induction false} StoredIsLastDump(p: Progress, os: seq<Observation>)
    requires Shaped(p)
    ensures var (q, fs) := Run(p, os); var t := Now(p);
            && Shaped(q) && t <= |p.stored|
            && (os != [] ==> q.stored == p.stored[..t] + Somes(Invokes(os)))
            && (os == [] ==> q.stored == p.stored)
            && NamesOf(fs) == Numbered(InvokeNames(os, !p.nameSent), if p.nameSent then t + 1 else t)
    decreases |os|
  {
    hide Step, Difference, Fragments, Invokes, InvokeNames, Numbered, Somes, NamesOf;
    if os == [] {
      NothingObserved(!p.nameSent, if p.nameSent then Now(p) + 1 else Now(p));
    } else {
      var o := os[0];
      StepShape(p, o);
      var (q, fs) := Step(p, o);
      StoredIsLastDump(q, os[1..]);
      var (r, later) := Run(q, os[1..]);
      NamesConcat(fs, later);
      var t := Now(p);
      StepFragments(t, p.nameSent, o.name, Difference(if p.nameSent then p.stored[p.tool] else None, Sent(p), o), t);
      LastDumpStep(p.stored[..t], os);
      NamesStep(os, p.nameSent, t);
    }
  }

  lemma {:induction false} NothingObserved(first: bool, tool: int)
    ensures InvokeNames([], first) == [] && Numbered([], tool) == [] && NamesOf([]) == []
  {
  }

  function Somes(texts: seq<string>): seq<Option<string>> {
    if texts == [] then [] else [Some(texts[0])] + Somes(texts[1..])
  }

  lemma {:induction false} SomesAt(texts: seq<string>)
    ensures |Somes(texts)| == |texts| && forall i | 0 <= i < |texts| :: Somes(texts)[i] == Some(texts[i])
    decreases |texts|
  {
    if texts != [] {
      SomesAt(texts[1..]);
    }
  }

  lemma {:induction false} LastDumpStep(front: seq<Option<string>>, os: seq<Observation>)
    requires os != []
    ensures var now := front + [Some(os[0].args)];
            front + Somes(Invokes(os)) ==
            if |os| == 1 then now
            else if os[0].closed then now + Somes(Invokes(os[1..]))
            else now[..|front|] + Somes(Invokes(os[1..]))
  {
    assert |os| == 1 ==> os[1..] == [];
    assert ([os[0].args] + Invokes(os[1..]))[1..] == Invokes(os[1..]);
    assert (front + [Some(os[0].args)])[..|front|] == front;
    assert (front + [Some(os[0].args)]) + Somes(Invokes(os[1..])) == front + ([Some(os[0].args)] + Somes(Invokes(os[1..])));
  }

  lemma {:induction false} NamesStep(os: seq<Observation>, nameSent: bool, t: int)
    requires os != []
    ensures var later := InvokeNames(os[1..], os[0].closed);
            Numbered(InvokeNames(os, !nameSent), if nameSent then t + 1 else t)
            == (if nameSent then [] else [(t, os[0].name)]) + Numbered(later, t + 1)
  {
    var later := InvokeNames(os[1..], os[0].closed);
    assert ([os[0].name] + later)[1..] == later;
    assert [] + later == later;
  }

  lemma {:induction false} ConsistentRunIsSound(p: Progress, os: seq<Observation>)
    requires Sound(p) && Consistent(p, os)
    ensures Sound(Run(p, os).0)
    decreases |os|
  {
    hide Step, Sound, Valid;
    if os != [] {
      SoundIsShaped(p);
      StepKeepsSound(p, os[0]);
      StepShape(p, os[0]);
      ConsistentRunIsSound(Step(p, os[0]).0, os[1..]);
    }
  }

  lemma {:induction false} SoundIsShaped(p: Progress)
    requires Sound(p)
    ensures Shaped(p)
  {
  }

  lemma {:induction false} FlushSendsTheRest(p: Progress, tool: int)
    requires Sound(p) && 0 <= tool < |p.stored|
    ensures p.stored[tool].Some?
    ensures StreamedFor(p, tool) + Delivered(Flush(p), tool) == p.stored[tool].value
    ensures StreamedFor(p, tool) <= p.stored[tool].value
    ensures tool < |p.stored| - 1 || tool < p.tool ==> StreamedFor(p, tool) == p.stored[tool].value
  {
    hide Valid;
    var i := |p.stored| - 1;
    assert SoundEntry(p.stored[i].value, p.streamed[i], i < p.tool);
    assert SoundEntry(p.stored[tool].value, p.streamed[tool], tool < p.tool);
    var (s, g) := (p.stored[i].value, p.streamed[i]);
    assert |s| > |g| ==> s[|g|..] + "" == s[|g|..];
    assert |s| == |g| ==> s == g;
    assert StreamedFor(p, tool) + "" == StreamedFor(p, tool);
  }

  /** Over every consistent run, stopped anywhere: each invoke is announced once and
      in order; what was sent is always the beginning of its last dump and all of it
      once it is closed; and with the final flush it is exactly its last dump. */
  lemma {:induction false} NothingLostNothingRepeated(os: seq<Observation>)
    requires Consistent(Start, os)
    ensures var (q, fs) := Run(Start, os);
            && NamesOf(fs) == Numbered(InvokeNames(os, true), 0)
            && |q.stored| == |Invokes(os)|
            && forall i | 0 <= i < |Invokes(os)| ::
                 && Delivered(fs, i) <= Invokes(os)[i]
                 && (i < q.tool ==> Delivered(fs, i) == Invokes(os)[i])
                 && Delivered(fs + Flush(q), i) == Invokes(os)[i]
  {
    hide Run, Sound, Flush, InvokeNames, Consistent, Delivered, Invokes, Somes, StreamedFor, Numbered, NamesOf;
    StartIsSound();
    ConsistentRunIsSound(Start, os);
    StoredIsLastDump(Start, os);
    SomesAt(Invokes(os));
    var (q, fs) := Run(Start, os);
    assert q.stored == Somes(Invokes(os)) by {
      NothingObservedYet();
      assert [] + Somes(Invokes(os)) == Somes(Invokes(os));
    }
    forall i | 0 <= i < |Invokes(os)|
      ensures && Delivered(fs, i) <= Invokes(os)[i]
              && (i < q.tool ==> Delivered(fs, i) == Invokes(os)[i])
              && Delivered(fs + Flush(q), i) == Invokes(os)[i] {
      DeliveredIsStreamed(Start, os, i);
      StartStreamed(i);
      assert "" + Delivered(fs, i) == Delivered(fs, i);
      DeliveredConcat(fs, Flush(q), i);
      SoundIsShaped(q);
      FlushSendsTheRest(q, i);
    }
  }

  lemma {:induction false} NothingObservedYet()
    ensures Invokes([]) == [] && Somes([]) == []
  {
  }

  lemma {:induction false} StartStreamed(tool: int)
    ensures StreamedFor(Start, tool) == ""
  {
  }

  lemma {:induction false} StartIsSound()
    ensures Sound(Start)
  {
  }

  // ----- When a dump is not consistent -----

  /** Once a dump does not begin with what was sent, closing the invoke delivers
      something other than its arguments. */
  lemma {:induction false} BrokenStaysBroken(p: Progress, o: Observation)
    requires Shaped(p) && o.closed && !(Sent(p) <= o.args)
    ensures !(StreamedFor(Step(p, o).0, Now(p)) <= o.args)
  {
    hide Difference;
    StepShape(p, o);
  }

  /** Keys are dumped in sorted order, so a later key can come in front: the dumps
      `{"b":"x"}`, `{"b":"xy"}`, `{"a":1,"b":"xy"}` are not streamed correctly. */
  lemma {:induction false} SortedKeysBreakIt(name: string)
    ensures var os := [Observation(name, "{\"b\":\"x\"}", false), Observation(name, "{\"b\":\"xy\"}", false),
                       Observation(name, "{\"a\":1,\"b\":\"xy\"}", true)];
            var (q, fs) := Run(Start, os);
            !Consistent(Start, os) && Invokes(os) == [os[2].args] && Delivered(fs, 0) != os[2].args
  {
    hide Difference, Step, Valid;
    var o0, o1 := Observation(name, "{\"b\":\"x\"}", false), Observation(name, "{\"b\":\"xy\"}", false);
    var o2 := Observation(name, "{\"a\":1,\"b\":\"xy\"}", true);
    var os := [o0, o1, o2];
    SharedPart(name);
    FirstLook(o0);
    StepShape(Start, o0);
    var p1 := Step(Start, o0).0;
    StepShape(p1, o1);
    var p2 := Step(p1, o1).0;
    assert "" + "{\"b\":\"x" == "{\"b\":\"x";
    assert Sent(p2) == "{\"b\":\"x";
    assert Sent(p2)[2] == 'b' && o2.args[2] == 'a';
    BrokenStaysBroken(p2, o2);
    RunStep(Start, o0, [o1, o2]);
    RunStep(p1, o1, [o2]);
    RunStep(p2, o2, []);
    assert os == [o0] + [o1, o2] && [o1, o2] == [o1] + [o2] && [o2] == [o2] + [];
    DeliveredIsStreamed(Start, os, 0);
    assert "" + Delivered(Run(Start, os).1, 0) == Delivered(Run(Start, os).1, 0);
  }

  lemma {:induction false} FirstLook(o: Observation)
    requires !o.closed
    ensures Difference(None, "", o) == ""
  {
  }

  lemma {:induction false} SharedPart(name: string)
    ensures Difference(Some("{\"b\":\"x\"}"), "", Observation(name, "{\"b\":\"xy\"}", false)) == "{\"b\":\"x"
  {
    hide CommonPrefix;
    var o := Observation(name, "{\"b\":\"xy\"}", false);
    CommonPrefixIs("{\"b\":\"x", "{\"b\":\"x\"}", "{\"b\":\"xy\"}");
    assert Unsent(Some("{\"b\":\"x\"}"), "", o) == "{\"b\":\"x"[0..] == "{\"b\":\"x";
    hide Unsent;
    assert "{\"b\":\"x"[6] == 'x';
    LeadBackIs("{\"b\":\"x", 1, 1);
  }

  lemma {:induction false} RunStep(p: Progress, o: Observation, later: seq<Observation>)
    requires Shaped(p)
    ensures Shaped(Step(p, o).0)
    ensures Run(p, [o] + later).0 == Run(Step(p, o).0, later).0
    ensures Consistent(p, [o] + later) ==> Sent(p) <= o.args && Consistent(Step(p, o).0, later)
    ensures Invokes([o] + later) == if o.closed then [o.args] + Invokes(later) else if later == [] then [o.args] else Invokes(later)
  {
    hide Step, Valid;
    StepShape(p, o);
    assert ([o] + later)[1..] == later;
  }
}
