/** The order of the fragments a client receives: every tool is announced once, in
    order, and before any of its arguments. */
module AnnouncedFirst {
  import opened Wrappers
  import opened ArgDiff
  import opened ArgDiffRuns

  /** Fragment `i` is the one that names the tool of fragment `j`: it comes first, is
      alone in naming it, carries no arguments, and no later tool comes between. */
  predicate Announces(fs: seq<Fragment>, i: nat, j: nat)
    requires i < |fs| && j < |fs|
  {
    && i < j && fs[i].tool == fs[j].tool && fs[i].name.Some? && fs[i].args == ""
    && (forall k | 0 <= k < |fs| && k != i :: fs[k].tool == fs[j].tool ==> fs[k].name.None?)
    && (forall k | i < k < j :: fs[k].tool <= fs[j].tool)
  }

  /** Fragments behind the announcement of tool `last`: the next name is that of the
      next tool, and all others belong to the tool named last. */
  predicate Orderly(fs: seq<Fragment>, last: int)
    decreases |fs|
  {
    fs == [] ||
    if fs[0].name.Some? then fs[0].tool == last + 1 && fs[0].args == "" && Orderly(fs[1..], last + 1)
    else last >= 0 && fs[0].tool == last && Orderly(fs[1..], last)
  }

  /** The tool announced last. */
  function LastNamed(p: Progress): int
    requires Shaped(p)
  {
    if p.nameSent then p.tool else Now(p) - 1
  }

  /** One step's fragments in front of those of the rest of the run. */
  lemma {:induction false} StepIsOrderly(p: Progress, o: Observation, later: seq<Fragment>)
    requires Shaped(p) && Shaped(Step(p, o).0) && Orderly(later, LastNamed(Step(p, o).0))
    ensures Orderly(Step(p, o).1 + later, LastNamed(p))
  {
    hide Difference, Step;
    StepShape(p, o);
    var t, fs := Now(p), Step(p, o).1;
    var d := Difference(if p.nameSent then p.stored[p.tool] else None, Sent(p), o);
    assert LastNamed(Step(p, o).0) == t;
    var arguments := (if d == "" then [] else [Fragment(t, None, d)]) + later;
    assert d != "" ==> arguments[1..] == later && arguments[0] == Fragment(t, None, d);
    assert d == "" ==> arguments == later;
    assert Orderly(arguments, t);
    if p.nameSent {
      assert fs + later == arguments;
    } else {
      var all := fs + later;
      assert all == [Fragment(t, Some(o.name), "")] + arguments;
      assert all[0] == Fragment(t, Some(o.name), "") && all[1..] == arguments;
    }
  }

  /** A whole run, with its final flush. */
  lemma {:induction false} RunIsOrderly(p: Progress, os: seq<Observation>)
    requires Shaped(p)
    ensures Shaped(Run(p, os).0) && Orderly(Run(p, os).1 + Flush(Run(p, os).0), LastNamed(p))
    decreases |os|
  {
    hide Step, Orderly, Flush;
    if os == [] {
      FlushIsOrderly(p);
      assert [] + Flush(p) == Flush(p);
    } else {
      StepShape(p, os[0]);
      var (q, fs) := Step(p, os[0]);
      RunIsOrderly(q, os[1..]);
      var (r, later) := Run(q, os[1..]);
      StepIsOrderly(p, os[0], later + Flush(r));
      assert (fs + later) + Flush(r) == fs + (later + Flush(r));
    }
  }

  lemma {:induction false} FlushIsOrderly(p: Progress)
    requires Shaped(p)
    ensures Orderly(Flush(p), LastNamed(p))
  {
    assert forall f: Fragment :: [f][1..] == [];
  }

  lemma {:induction false} OrderlyTools(fs: seq<Fragment>, last: int)
    requires last >= -1 && Orderly(fs, last)
    ensures forall j | 0 <= j < |fs| :: fs[j].tool >= last && fs[j].tool >= 0 && (fs[j].name.Some? ==> fs[j].tool > last && fs[j].args == "")
    ensures forall i, j | 0 <= i < j < |fs| :: fs[i].tool <= fs[j].tool && (fs[j].name.Some? ==> fs[i].tool < fs[j].tool)
    decreases |fs|
  {
    if fs != [] {
      var tail := fs[1..];
      OrderlyTools(tail, if fs[0].name.Some? then last + 1 else last);
      assert forall j | 0 < j < |fs| :: fs[j] == tail[j - 1];
    }
  }

  lemma {:induction false} NamesDiffer(fs: seq<Fragment>, last: int)
    requires last >= -1 && Orderly(fs, last)
    ensures forall i, j | 0 <= i < |fs| && 0 <= j < |fs| && i != j && fs[i].tool == fs[j].tool :: fs[i].name.None? || fs[j].name.None?
  {
    OrderlyTools(fs, last);
  }

  lemma {:induction false} NamedBefore(fs: seq<Fragment>, last: int, j: nat) returns (i: nat)
    requires Orderly(fs, last) && j < |fs| && fs[j].name.None? && fs[j].tool > last
    ensures i < j && fs[i].tool == fs[j].tool && fs[i].name.Some?
    decreases |fs|
  {
    var tail := fs[1..];
    var next := if fs[0].name.Some? then last + 1 else last;
    assert j > 0 && fs[j] == tail[j - 1];
    if fs[0].name.Some? && fs[j].tool == last + 1 {
      i := 0;
    } else {
      var k := NamedBefore(tail, next, j - 1);
      i := k + 1;
    }
  }

  /** On every run from the start, flush included: arguments come behind the one
      fragment that names their tool. */
  lemma {:induction false} ArgumentsFollowTheirName(os: seq<Observation>, j: nat)
    requires var fs := Run(Start, os).1 + Flush(Run(Start, os).0); j < |fs| && fs[j].name.None?
    ensures var fs := Run(Start, os).1 + Flush(Run(Start, os).0);
            exists i | 0 <= i < |fs| :: Announces(fs, i, j)
  {
    hide Run, Flush;
    RunIsOrderly(Start, os);
    var fs := Run(Start, os).1 + Flush(Run(Start, os).0);
    OrderlyTools(fs, -1);
    var i := NamedBefore(fs, -1, j);
    NamesDiffer(fs, -1);
    assert Announces(fs, i, j);
  }
}
