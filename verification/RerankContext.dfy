/** The countdown shared by the completions of a rerank request, under every
    interleaving of their slot writes, decrements and the final step. */
module RerankContext {
  import opened Wrappers
  import opened RerankFinalize

  // ----- The interleaved machine -----

  /** How far one completion has come; `Last` is the one whose decrement saw 1. */
  datatype Phase = Idle | Written | Counted | Last | Finalized

  datatype Event = Write(i: nat) | Decrement(i: nat) | Finish(i: nat)

  datatype State = State(slots: seq<Option<RequestOutput>>, pending: int, phases: seq<Phase>,
                         finals: seq<seq<Option<RequestOutput>>>)

  function Initial(n: nat): State {
    State(seq(n, _ => None), n, seq(n, _ => Idle), [])
  }

  /** A completion writes its slot, then decrements, then, if it was last, finalizes. */
  predicate Enabled(s: State, e: Event) {
    && e.i < |s.phases|
    && match e
       case Write(i) => s.phases[i] == Idle
       case Decrement(i) => s.phases[i] == Written
       case Finish(i) => s.phases[i] == Last
  }

  function Apply(s: State, e: Event, outputs: seq<RequestOutput>): State
    requires Enabled(s, e) && |s.slots| == |s.phases| == |outputs|
  {
    match e
    case Write(i) => s.(slots := s.slots[i := Some(outputs[i])], phases := s.phases[i := Written])
    case Decrement(i) =>
      s.(pending := s.pending - 1, phases := s.phases[i := if s.pending == 1 then Last else Counted])
    case Finish(i) => s.(finals := s.finals + [s.slots], phases := s.phases[i := Finalized])
  }

  predicate Legal(s: State, es: seq<Event>, outputs: seq<RequestOutput>)
    requires |s.slots| == |s.phases| == |outputs|
    decreases |es|
  {
    es == [] || (Enabled(s, es[0]) && Legal(Apply(s, es[0], outputs), es[1..], outputs))
  }

  function After(s: State, es: seq<Event>, outputs: seq<RequestOutput>): (r: State)
    requires |s.slots| == |s.phases| == |outputs| && Legal(s, es, outputs)
    ensures |r.slots| == |r.phases| == |outputs|
    decreases |es|
  {
    if es == [] then s else After(Apply(s, es[0], outputs), es[1..], outputs)
  }

  predicate Complete(s: State) {
    forall k | 0 <= k < |s.phases| :: s.phases[k] in {Counted, Finalized}
  }

  // ----- Counting -----

  function Waiting(p: Phase): nat {
    if p == Idle || p == Written then 1 else 0
  }

  function Winner(p: Phase): nat {
    if p == Last || p == Finalized then 1 else 0
  }

  function Done(p: Phase): nat {
    if p == Finalized then 1 else 0
  }

  function Count(weight: Phase -> nat, ps: seq<Phase>): nat {
    if ps == [] then 0 else weight(ps[0]) + Count(weight, ps[1..])
  }

  lemma {:induction false} CountUpdate(weight: Phase -> nat, ps: seq<Phase>, i: nat, p: Phase)
    requires i < |ps|
    ensures Count(weight, ps[i := p]) == Count(weight, ps) - weight(ps[i]) + weight(p)
    decreases |ps|
  {
    var qs := ps[i := p];
    if i == 0 {
      assert qs[1..] == ps[1..];
    } else {
      assert qs[1..] == ps[1..][i - 1 := p] && qs[0] == ps[0];
      CountUpdate(weight, ps[1..], i - 1, p);
    }
  }

  lemma {:induction false} CountMember(weight: Phase -> nat, ps: seq<Phase>, i: nat)
    requires i < |ps|
    ensures weight(ps[i]) <= Count(weight, ps)
    decreases |ps|
  {
    if i > 0 {
      CountMember(weight, ps[1..], i - 1);
    }
  }

  lemma {:induction false} CountAll(weight: Phase -> nat, ps: seq<Phase>, w: nat)
    requires forall k | 0 <= k < |ps| :: weight(ps[k]) == w
    ensures Count(weight, ps) == w * |ps|
    decreases |ps|
  {
    if ps != [] {
      CountAll(weight, ps[1..], w);
    }
  }

  lemma {:induction false} CountSame(a: Phase -> nat, b: Phase -> nat, ps: seq<Phase>)
    requires forall k | 0 <= k < |ps| :: a(ps[k]) == b(ps[k])
    ensures Count(a, ps) == Count(b, ps)
    decreases |ps|
  {
    if ps != [] {
      CountSame(a, b, ps[1..]);
    }
  }

  // ----- What every step keeps -----

  function Full(outputs: seq<RequestOutput>): seq<Option<RequestOutput>> {
    seq(|outputs|, k requires 0 <= k < |outputs| => Some(outputs[k]))
  }

  /** The counter counts the completions still to decrement; a slot is filled once
      its completion has written; there is a last one exactly when the counter is
      zero; and every finalization has seen all slots filled. */
  ghost predicate Invariant(s: State, outputs: seq<RequestOutput>) {
    && |s.slots| == |s.phases| == |outputs| >= 1
    && s.pending == Count(Waiting, s.phases)
    && (forall k | 0 <= k < |s.slots| :: s.slots[k] == if s.phases[k] == Idle then None else Some(outputs[k]))
    && Count(Winner, s.phases) == (if s.pending == 0 then 1 else 0)
    && |s.finals| == Count(Done, s.phases)
    && (forall k | 0 <= k < |s.finals| :: s.finals[k] == Full(outputs))
  }

  lemma {:induction false} InitialInvariant(outputs: seq<RequestOutput>)
    requires outputs != []
    ensures Invariant(Initial(|outputs|), outputs)
  {
    var ps := Initial(|outputs|).phases;
    CountAll(Waiting, ps, 1);
    CountAll(Winner, ps, 0);
    CountAll(Done, ps, 0);
  }

  /** Nobody waits and nobody has an empty slot once somebody was last. */
  lemma {:induction false} LastSeesAllSlots(s: State, outputs: seq<RequestOutput>, i: nat)
    requires Invariant(s, outputs) && i < |s.phases| && Winner(s.phases[i]) == 1
    ensures s.pending == 0 && s.slots == Full(outputs)
    ensures forall k | 0 <= k < |s.phases| :: s.phases[k] != Idle && s.phases[k] != Written
  {
    CountMember(Winner, s.phases, i);
    forall k | 0 <= k < |s.phases| ensures Waiting(s.phases[k]) == 0 {
      CountMember(Waiting, s.phases, k);
    }
  }

  lemma {:induction false} StepKeepsInvariant(s: State, e: Event, outputs: seq<RequestOutput>)
    requires Invariant(s, outputs) && Enabled(s, e)
    ensures Invariant(Apply(s, e, outputs), outputs)
  {
    hide Count, Full;
    var t := Apply(s, e, outputs);
    CountUpdate(Waiting, s.phases, e.i, t.phases[e.i]);
    CountUpdate(Winner, s.phases, e.i, t.phases[e.i]);
    CountUpdate(Done, s.phases, e.i, t.phases[e.i]);
    CountMember(Waiting, s.phases, e.i);
    if e.Finish? {
      LastSeesAllSlots(s, outputs, e.i);
    }
  }

  lemma {:induction false} RunKeepsInvariant(s: State, es: seq<Event>, outputs: seq<RequestOutput>)
    requires Invariant(s, outputs) && Legal(s, es, outputs)
    ensures Invariant(After(s, es, outputs), outputs)
    decreases |es|
  {
    hide Invariant, Apply, Enabled;
    if es != [] {
      assert |s.slots| == |s.phases| == |outputs| by { InvariantShape(s, outputs); }
      StepKeepsInvariant(s, es[0], outputs);
      RunKeepsInvariant(Apply(s, es[0], outputs), es[1..], outputs);
    }
  }

  lemma {:induction false} InvariantShape(s: State, outputs: seq<RequestOutput>)
    requires Invariant(s, outputs)
    ensures |s.slots| == |s.phases| == |outputs| >= 1
  {
  }

  /** Once a finalization has run or is due, no slot is written any more. */
  lemma {:induction false} NoWriteAfterFinalize(outputs: seq<RequestOutput>, es: seq<Event>, i: nat)
    requires outputs != [] && Legal(Initial(|outputs|), es, outputs)
    ensures var s := After(Initial(|outputs|), es, outputs);
            Enabled(s, Write(i)) ==> s.pending > 0 && s.finals == [] && forall k: nat :: !Enabled(s, Finish(k))
  {
    InitialInvariant(outputs);
    RunKeepsInvariant(Initial(|outputs|), es, outputs);
    var s := After(Initial(|outputs|), es, outputs);
    if Enabled(s, Write(i)) {
      CountMember(Waiting, s.phases, i);
      DoneAreWinners(s.phases);
      forall k: nat ensures !Enabled(s, Finish(k)) {
        if k < |s.phases| {
          CountMember(Winner, s.phases, k);
        }
      }
    }
  }

  lemma {:induction false} DoneAreWinners(ps: seq<Phase>)
    ensures Count(Done, ps) <= Count(Winner, ps)
    decreases |ps|
  {
    if ps != [] {
      DoneAreWinners(ps[1..]);
    }
  }

  /** A run can always go on until every completion is through. */
  lemma {:induction false} StuckIsComplete(s: State)
    requires forall i :: !Enabled(s, Write(i)) && !Enabled(s, Decrement(i)) && !Enabled(s, Finish(i))
    ensures Complete(s)
  {
    forall k | 0 <= k < |s.phases| ensures s.phases[k] in {Counted, Finalized} {
      assert !Enabled(s, Write(k)) && !Enabled(s, Decrement(k)) && !Enabled(s, Finish(k));
    }
  }

  /** For every interleaving of one or more completions: exactly one of them runs
      the final step, and it sees every slot filled. */
  lemma {:induction false} FinalizedExactlyOnce(outputs: seq<RequestOutput>, es: seq<Event>)
    requires outputs != [] && Legal(Initial(|outputs|), es, outputs)
    ensures |After(Initial(|outputs|), es, outputs).finals| <= 1
    ensures Complete(After(Initial(|outputs|), es, outputs)) ==>
              After(Initial(|outputs|), es, outputs).finals == [Full(outputs)]
  {
    InitialInvariant(outputs);
    RunKeepsInvariant(Initial(|outputs|), es, outputs);
    var s := After(Initial(|outputs|), es, outputs);
    DoneAreWinners(s.phases);
    if Complete(s) {
      CountAll(Waiting, s.phases, 0);
      CountSame(Winner, Done, s.phases);
      assert |s.finals| == 1;
      assert s.finals == [s.finals[0]];
    }
  }

  // ----- The shared object -----

  class Context {
    const job: Job
    var reqOutputs: seq<Option<RequestOutput>>
    var pendingCount: int
    ghost var phases: seq<Phase>
    ghost var finals: seq<seq<Option<RequestOutput>>>
    var responses: seq<Response>

    ghost function Now(): State
      reads this
    {
      State(reqOutputs, pendingCount, phases, finals)
    }

    constructor (job: Job, numRequests: nat)
      ensures Now() == Initial(numRequests) && responses == [] && this.job == job
    {
      this.job, reqOutputs, pendingCount, responses := job, seq(numRequests, _ => None), numRequests, [];
      phases, finals := seq(numRequests, _ => Idle), [];
    }

    /** The first half of `on_complete`. */
    method WriteSlot(index: nat, output: RequestOutput, ghost outputs: seq<RequestOutput>)
      requires |reqOutputs| == |phases| == |outputs|
      requires Enabled(Now(), Write(index)) && outputs[index] == output
      modifies this`reqOutputs, this`phases
      ensures Now() == Apply(old(Now()), Write(index), outputs)
    {
      reqOutputs := reqOutputs[index := Some(output)];
      phases := phases[index := Written];
    }

    /** The atomic decrement: whether the counter was 1 before it. */
    method FetchSub(index: nat, ghost outputs: seq<RequestOutput>) returns (last: bool)
      requires |reqOutputs| == |phases| == |outputs|
      requires Enabled(Now(), Decrement(index))
      modifies this`pendingCount, this`phases
      ensures Now() == Apply(old(Now()), Decrement(index), outputs)
      ensures last <==> phases[index] == Last
    {
      last := pendingCount == 1;
      pendingCount := pendingCount - 1;
      phases := phases[index := if last then Last else Counted];
    }

    /** The call of `finalize` by the completion that was last. */
    method RunFinalize(index: nat, ghost outputs: seq<RequestOutput>)
      requires Invariant(Now(), outputs) && Enabled(Now(), Finish(index))
      modifies this`phases, this`finals, this`responses
      ensures Now() == Apply(old(Now()), Finish(index), outputs)
      ensures |responses| == |old(responses)| + 1 && responses[..|old(responses)|] == old(responses)
      ensures RightResponse(job, outputs, responses[|old(responses)|])
    {
      hide RightResponse;
      LastSeesAllSlots(Now(), outputs, index);
      var all := ReadSlots(outputs);
      var r := Finalize(job, all);
      responses := responses + [r];
      finals := finals + [reqOutputs];
      phases := phases[index := Finalized];
    }

    /** The slots as the score computer reads them. */
    method ReadSlots(ghost outputs: seq<RequestOutput>) returns (all: seq<RequestOutput>)
      requires reqOutputs == Full(outputs)
      ensures all == outputs
    {
      all := [];
      var k := 0;
      while k < |reqOutputs|
        invariant 0 <= k <= |reqOutputs| && all == outputs[..k]
      {
        all := all + [reqOutputs[k].value];
        k := k + 1;
      }
    }

    /** `on_complete` without anything in between. */
    method OnComplete(index: nat, output: RequestOutput, ghost outputs: seq<RequestOutput>)
      requires Invariant(Now(), outputs)
      requires Enabled(Now(), Write(index)) && outputs[index] == output
      modifies this`reqOutputs, this`pendingCount, this`phases, this`finals, this`responses
      ensures Invariant(Now(), outputs)
      ensures |responses| - |old(responses)| == (if pendingCount == 0 then 1 else 0)
      ensures old(responses) <= responses
      ensures forall k | |old(responses)| <= k < |responses| :: RightResponse(job, outputs, responses[k])
    {
      hide Invariant, RightResponse;
      InvariantShape(Now(), outputs);
      StepKeepsInvariant(Now(), Write(index), outputs);
      WriteSlot(index, output, outputs);
      InvariantShape(Now(), outputs);
      StepKeepsInvariant(Now(), Decrement(index), outputs);
      var last := FetchSub(index, outputs);
      if last {
        StepKeepsInvariant(Now(), Finish(index), outputs);
        RunFinalize(index, outputs);
      }
    }
  }

  /** Any complete schedule of the completions on the shared object: one response,
      and its scores depend on the outputs alone, not on the schedule. */
  method Serve(job: Job, outputs: seq<RequestOutput>, schedule: seq<Event>) returns (context: Context)
    requires outputs != [] && Legal(Initial(|outputs|), schedule, outputs)
    requires Complete(After(Initial(|outputs|), schedule, outputs))
    ensures fresh(context) && |context.responses| == 1
    ensures RightResponse(job, outputs, context.responses[0])
  {
    hide RightResponse, Apply, Invariant, Complete;
    context := new Context(job, |outputs|);
    InitialInvariant(outputs);
    var k := 0;
    assert schedule[0..] == schedule;
    while k < |schedule|
      invariant 0 <= k <= |schedule| && fresh(context) && context.job == job
      invariant Invariant(context.Now(), outputs) && |context.reqOutputs| == |context.phases| == |outputs|
      invariant Legal(context.Now(), schedule[k..], outputs)
      invariant After(context.Now(), schedule[k..], outputs) == After(Initial(|outputs|), schedule, outputs)
      invariant |context.responses| == |context.finals|
      invariant forall j | 0 <= j < |context.responses| :: RightResponse(job, outputs, context.responses[j])
    {
      var e := schedule[k];
      assert schedule[k..][0] == e && schedule[k..][1..] == schedule[k + 1..];
      StepKeepsInvariant(context.Now(), e, outputs);
      FinalsStep(context.Now(), e, outputs);
      match e {
        case Write(i) => context.WriteSlot(i, outputs[i], outputs);
        case Decrement(i) => var _ := context.FetchSub(i, outputs);
        case Finish(i) => context.RunFinalize(i, outputs);
      }
      InvariantShape(context.Now(), outputs);
      k := k + 1;
    }
    FinalizedExactlyOnce(outputs, schedule);
  }

  lemma {:induction false} FinalsStep(s: State, e: Event, outputs: seq<RequestOutput>)
    requires |s.slots| == |s.phases| == |outputs| && Enabled(s, e)
    ensures |Apply(s, e, outputs).finals| == |s.finals| + (if e.Finish? then 1 else 0)
  {
  }
}
