/** The last step of a rerank request: scores, order, cut, and usage totals. */
module RerankFinalize {
  import opened Wrappers

  datatype Usage = Usage(prompt: int, generated: int, total: int)

  /** What one sub-request produced; the embedding is only looked at by the scorer. */
  datatype RequestOutput = RequestOutput(embedding: Option<seq<real>>, usage: Option<Usage>)

  datatype Scored = Scored(index: nat, document: string, score: real)

  datatype Response = Failed | Ranked(results: seq<Scored>, usage: Option<Usage>)

  /** `compute` is the request's score computer, deterministic and otherwise arbitrary. */
  datatype Job = Job(documents: seq<string>, topN: int, compute: (seq<string>, seq<RequestOutput>) -> seq<Scored>)

  // ----- Order -----

  predicate Descending(xs: seq<Scored>) {
    forall i, j | 0 <= i < j < |xs| :: xs[i].score >= xs[j].score
  }

  function Scores(xs: seq<Scored>): (r: seq<real>)
    ensures |r| == |xs| && forall k | 0 <= k < |xs| :: r[k] == xs[k].score
  {
    seq(|xs|, k requires 0 <= k < |xs| => xs[k].score)
  }

  function Place(x: real, rs: seq<real>): (r: seq<real>)
    ensures |r| == |rs| + 1
  {
    if rs == [] || x >= rs[0] then [x] + rs else [rs[0]] + Place(x, rs[1..])
  }

  /** The scores in descending order: a function of the scores alone. */
  function Ordered(rs: seq<real>): (r: seq<real>)
    ensures |r| == |rs|
  {
    if rs == [] then [] else Place(rs[0], Ordered(rs[1..]))
  }

  predicate DescendingScores(rs: seq<real>) {
    forall i | 0 < i < |rs| :: rs[i - 1] >= rs[i]
  }

  lemma {:induction false} PlaceDescends(x: real, rs: seq<real>)
    requires DescendingScores(rs)
    ensures DescendingScores(Place(x, rs))
    decreases |rs|
  {
    if rs != [] && x < rs[0] {
      PlaceDescends(x, rs[1..]);
    }
  }

  lemma {:induction false} Tail<T>(s: seq<T>)
    requires s != []
    ensures multiset(s) == multiset{s[0]} + multiset(s[1..])
  {
    assert s == [s[0]] + s[1..];
  }

  lemma {:induction false} RemoveAt<T>(s: seq<T>, k: nat)
    requires k < |s|
    ensures multiset(s) == multiset{s[k]} + multiset(s[..k] + s[k + 1..])
  {
    assert s == s[..k] + ([s[k]] + s[k + 1..]);
  }

  lemma {:induction false} PlaceAdds(x: real, rs: seq<real>)
    ensures multiset(Place(x, rs)) == multiset{x} + multiset(rs)
    decreases |rs|
  {
    if rs != [] && x < rs[0] {
      PlaceAdds(x, rs[1..]);
      Tail(rs);
      Tail(Place(x, rs));
      assert Place(x, rs)[1..] == Place(x, rs[1..]);
    } else {
      Tail([x] + rs);
      assert ([x] + rs)[1..] == rs;
    }
  }

  lemma {:induction false} OrderedKeeps(rs: seq<real>)
    ensures DescendingScores(Ordered(rs)) && multiset(Ordered(rs)) == multiset(rs)
    decreases |rs|
  {
    hide Place;
    if rs == [] {
    } else {
      OrderedKeeps(rs[1..]);
      PlaceDescends(rs[0], Ordered(rs[1..]));
      PlaceAdds(rs[0], Ordered(rs[1..]));
      Tail(rs);
    }
  }

  lemma {:induction false} HeadIsGreatest(rs: seq<real>, k: nat)
    requires DescendingScores(rs) && k < |rs|
    ensures rs[0] >= rs[k]
  {
    if k > 0 {
      HeadIsGreatest(rs, k - 1);
    }
  }

  lemma {:induction false} GreatestMember(a: seq<real>, b: seq<real>)
    requires a != [] && DescendingScores(b) && multiset(a) == multiset(b)
    ensures b != [] && b[0] >= a[0]
  {
    assert a[0] in multiset(a);
    assert a[0] in multiset(b);
    var k :| 0 <= k < |b| && b[k] == a[0];
    HeadIsGreatest(b, k);
  }

  lemma {:induction false} SameTails(a: seq<real>, b: seq<real>)
    requires a != [] && b != [] && a[0] == b[0] && multiset(a) == multiset(b)
    ensures multiset(a[1..]) == multiset(b[1..])
  {
    Tail(a);
    Tail(b);
    assert multiset(a[1..]) == multiset(a) - multiset{a[0]};
    assert multiset(b[1..]) == multiset(b) - multiset{b[0]};
  }

  /** Two descending arrangements of the same scores are the same. */
  lemma {:induction false} OneArrangement(a: seq<real>, b: seq<real>)
    requires DescendingScores(a) && DescendingScores(b) && multiset(a) == multiset(b)
    ensures a == b
    decreases |a|
  {
    if a == [] {
      assert |multiset(b)| == 0;
    } else {
      GreatestMember(a, b);
      GreatestMember(b, a);
      SameTails(a, b);
      OneArrangement(a[1..], b[1..]);
      assert a == [a[0]] + a[1..] && b == [b[0]] + b[1..];
    }
  }

  lemma {:induction false} SameRest(xs: seq<Scored>, ys: seq<Scored>, k: nat)
    requires xs != [] && k < |ys| && ys[k] == xs[0] && multiset(xs) == multiset(ys)
    ensures multiset(xs[1..]) == multiset(ys[..k] + ys[k + 1..])
  {
    Tail(xs);
    RemoveAt(ys, k);
    assert multiset(xs[1..]) == multiset(xs) - multiset{xs[0]};
    assert multiset(ys[..k] + ys[k + 1..]) == multiset(ys) - multiset{xs[0]};
  }

  lemma {:induction false} ScoresOfSame(xs: seq<Scored>, ys: seq<Scored>)
    requires multiset(xs) == multiset(ys)
    ensures multiset(Scores(xs)) == multiset(Scores(ys))
    decreases |xs|
  {
    if xs == [] {
      assert |multiset(ys)| == 0;
    } else {
      assert xs[0] in multiset(xs);
      assert xs[0] in multiset(ys);
      var k :| 0 <= k < |ys| && ys[k] == xs[0];
      SameRest(xs, ys, k);
      var others := ys[..k] + ys[k + 1..];
      ScoresOfSame(xs[1..], others);
      assert Scores(xs)[1..] == Scores(xs[1..]);
      assert Scores(ys)[..k] + Scores(ys)[k + 1..] == Scores(others);
      Tail(Scores(xs));
      RemoveAt(Scores(ys), k);
    }
  }

  /** Whatever the sort does with equal scores, the scores come out as `Ordered`. */
  lemma {:induction false} SortedScores(xs: seq<Scored>, ys: seq<Scored>)
    requires Descending(ys) && multiset(ys) == multiset(xs)
    ensures Scores(ys) == Ordered(Scores(xs))
  {
    ScoresOfSame(xs, ys);
    OrderedKeeps(Scores(xs));
    OneArrangement(Scores(ys), Ordered(Scores(xs)));
  }

  /** The library sort: some descending arrangement. */
  method Sort(xs: seq<Scored>) returns (ys: seq<Scored>)
    ensures Descending(ys) && multiset(ys) == multiset(xs)
  {
    ys := [];
    var i := 0;
    while i < |xs|
      invariant 0 <= i <= |xs|
      invariant Descending(ys) && multiset(ys) == multiset(xs[..i])
    {
      assert xs[..i + 1] == xs[..i] + [xs[i]];
      ys := Insert(xs[i], ys);
      i := i + 1;
    }
    assert xs[..i] == xs;
  }

  method Insert(x: Scored, ys: seq<Scored>) returns (zs: seq<Scored>)
    requires Descending(ys)
    ensures Descending(zs) && multiset(zs) == multiset(ys) + multiset{x}
  {
    var k := 0;
    while k < |ys| && ys[k].score >= x.score
      invariant 0 <= k <= |ys| && forall j | 0 <= j < k :: ys[j].score >= x.score
    {
      k := k + 1;
    }
    zs := ys[..k] + [x] + ys[k..];
    assert ys == ys[..k] + ys[k..];
  }

  // ----- Totals -----

  function Totals(outputs: seq<RequestOutput>): Usage {
    if outputs == [] then Usage(0, 0, 0)
    else
      var t, o := Totals(outputs[..|outputs| - 1]), outputs[|outputs| - 1];
      match o.usage
      case None => t
      case Some(u) => Usage(t.prompt + u.prompt, t.generated + u.generated, t.total + u.total)
  }

  /** One output counts with its own usage, and outputs add up, each number by itself. */
  lemma {:induction false} TotalsAdd(a: seq<RequestOutput>, b: seq<RequestOutput>)
    ensures Totals(a + b).prompt == Totals(a).prompt + Totals(b).prompt
    ensures Totals(a + b).generated == Totals(a).generated + Totals(b).generated
    ensures Totals(a + b).total == Totals(a).total + Totals(b).total
    ensures forall o: RequestOutput, u: Usage :: Totals([o.(usage := Some(u))]) == u && Totals([o.(usage := None)]) == Usage(0, 0, 0)
    decreases |b|
  {
    forall o: RequestOutput, u: Usage ensures Totals([o.(usage := Some(u))]) == u && Totals([o.(usage := None)]) == Usage(0, 0, 0) {
      OneTotal(o.(usage := Some(u)));
      OneTotal(o.(usage := None));
    }
    if b == [] {
      assert a + b == a;
    } else {
      var n := |b| - 1;
      TotalsAdd(a, b[..n]);
      assert (a + b)[..|a + b| - 1] == a + b[..n] && (a + b)[|a + b| - 1] == b[n];
    }
  }

  lemma {:induction false} OneTotal(o: RequestOutput)
    ensures Totals([o]) == if o.usage.Some? then o.usage.value else Usage(0, 0, 0)
  {
    assert [o][..0] == [];
  }

  function Kept(job: Job, scored: nat): nat {
    if job.topN < 0 then 0 else if job.topN < scored then job.topN else scored
  }

  /** `kept` and `omitted` make up `all`, and nothing omitted beats anything kept. */
  predicate Dominates(all: seq<Scored>, kept: seq<Scored>, omitted: seq<Scored>) {
    && multiset(all) == multiset(kept) + multiset(omitted)
    && forall x, y | x in kept && y in omitted :: x.score >= y.score
  }

  /** What the response must be, up to the order of equally scored documents: the
      best `topN` documents in descending order, every omitted one scored no better. */
  ghost predicate RightResponse(job: Job, outputs: seq<RequestOutput>, r: Response) {
    var scored := job.compute(job.documents, outputs);
    if scored == [] then r == Failed
    else
      && r.Ranked?
      && Scores(r.results) == Ordered(Scores(scored))[..Kept(job, |scored|)]
      && (exists omitted: seq<Scored> :: Dominates(scored, r.results, omitted))
      && r.usage == if Totals(outputs).total > 0 then Some(Totals(outputs)) else None
  }

  /** `finalize`. */
  method Finalize(job: Job, outputs: seq<RequestOutput>) returns (r: Response)
    ensures RightResponse(job, outputs, r)
    ensures r.Ranked? && job.topN <= 0 ==> r.results == []
    ensures r.Ranked? && job.topN > 0 ==> |r.results| <= job.topN
    ensures r.Ranked? && |r.results| < job.topN ==> |r.results| == |job.compute(job.documents, outputs)|
  {
    var scored := job.compute(job.documents, outputs);
    if scored == [] {
      return Failed;
    }
    var sorted := Sort(scored);
    SortedScores(scored, sorted);
    assert |sorted| == |multiset(sorted)| == |multiset(scored)| == |scored|;
    var results: seq<Scored> := [];
    var i := 0;
    while i < job.topN && i < |sorted|
      invariant 0 <= i <= |sorted| && (if job.topN >= 0 then i <= job.topN else i == 0)
      invariant results == sorted[..i]
    {
      results := results + [sorted[i]];
      i := i + 1;
    }
    assert i == Kept(job, |scored|);
    var totals := Usage(0, 0, 0);
    var k := 0;
    while k < |outputs|
      invariant 0 <= k <= |outputs| && totals == Totals(outputs[..k])
    {
      assert outputs[..k + 1][..k] == outputs[..k];
      match outputs[k].usage {
        case None =>
        case Some(u) =>
          totals := Usage(totals.prompt + u.prompt, totals.generated + u.generated, totals.total + u.total);
      }
      k := k + 1;
    }
    assert outputs[..k] == outputs;
    r := Ranked(results, if totals.total > 0 then Some(totals) else None);
    BestFirst(scored, sorted, i);
  }

  lemma {:induction false} BestFirst(scored: seq<Scored>, sorted: seq<Scored>, n: nat)
    requires Descending(sorted) && multiset(sorted) == multiset(scored) && n <= |sorted|
    requires Scores(sorted) == Ordered(Scores(scored))
    ensures n <= |Ordered(Scores(scored))| && Scores(sorted[..n]) == Ordered(Scores(scored))[..n]
    ensures exists omitted: seq<Scored> :: Dominates(scored, sorted[..n], omitted)
  {
    hide Ordered, Descending;
    assert Scores(sorted[..n]) == Scores(sorted)[..n];
    BestAreKept(scored, sorted, n);
  }

  lemma {:induction false} BestAreKept(scored: seq<Scored>, sorted: seq<Scored>, n: nat)
    requires Descending(sorted) && multiset(sorted) == multiset(scored) && n <= |sorted|
    ensures Dominates(scored, sorted[..n], sorted[n..])
  {
    var kept, omitted := sorted[..n], sorted[n..];
    assert sorted == kept + omitted;
    forall x, y | x in kept && y in omitted ensures x.score >= y.score {
      var i :| 0 <= i < n && kept[i] == x;
      var j :| 0 <= j < |omitted| && omitted[j] == y;
      assert sorted[i] == x && sorted[n + j] == y;
    }
  }
}
