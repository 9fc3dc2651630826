/** Which dumps are streamed correctly: the exact condition on the dumps themselves,
    and what it means for the client on every prefix of a run. */
module SteadyDumps {
  import opened Wrappers
  import opened Utf8
  import opened ArgDiff
  import opened ArgDiffRuns

  // ----- The condition -----

  /** Look `k` belongs to the same invoke as look `i` before it. */
  predicate SameInvoke(os: seq<Observation>, i: nat, k: nat)
    requires k <= |os|
  {
    forall n | i <= n < k :: !os[n].closed
  }

  predicate AllValid(os: seq<Observation>) {
    forall k | 0 <= k < |os| :: Valid(os[k].args)
  }

  /** What two neighbouring dumps share, cut behind its last complete character. */
  function Shared(os: seq<Observation>, j: nat): string
    requires 0 < j < |os|
  {
    SplitIncomplete(CommonPrefix(os[j - 1].args, os[j].args)).0
  }

  /** Every later dump of an invoke keeps what two different neighbours shared. */
  predicate Steady(os: seq<Observation>) {
    forall j, k | 0 < j < k < |os| ::
      SameInvoke(os, j - 1, k) && os[j - 1].args != os[j].args ==> Shared(os, j) <= os[k].args
  }

  /** What has been sent for the invoke under way after `k` looks: what the last two
      different neighbours of that invoke shared. */
  function Peak(os: seq<Observation>, k: nat): string
    requires k <= |os|
  {
    if k == 0 || os[k - 1].closed then ""
    else if k >= 2 && !os[k - 2].closed && os[k - 2].args != os[k - 1].args then Shared(os, k - 1)
    else Peak(os, k - 1)
  }

  predicate PeaksKept(os: seq<Observation>, n: nat)
    requires n <= |os|
  {
    forall k | 0 <= k < n :: Valid(os[k].args) && Peak(os, k) <= os[k].args
  }

  // ----- Sent text is the peak -----

  lemma {:induction false} RunSnoc(p: Progress, os: seq<Observation>, o: Observation)
    requires Shaped(p)
    ensures var q := Run(p, os).0;
            && Shaped(q)
            && Run(p, os + [o]).0 == Step(q, o).0
            && (Consistent(p, os + [o]) <==> Consistent(p, os) && Valid(o.args) && Sent(q) <= o.args)
    decreases |os|
  {
    hide Step, Valid, Sent;
    if os == [] {
      StepShape(p, o);
      assert ([] + [o])[1..] == [];
    } else {
      StepShape(p, os[0]);
      RunSnoc(Step(p, os[0]).0, os[1..], o);
      assert (os + [o])[1..] == os[1..] + [o] && (os + [o])[0] == os[0];
    }
  }

  /** Valid text that begins a cut of valid text begins its complete part. */
  lemma {:induction false} CutKeeps(s: string, cut: string, rest: string)
    requires Valid(s) && Valid(cut + rest) && s <= cut
    ensures var u := cut[|s|..];
            SplitIncomplete(cut).0 == s + (if u == "" then "" else SplitIncomplete(u).0)
  {
    hide SplitIncomplete, Valid, LeadBack;
    var u := cut[|s|..];
    assert cut == s + u;
    if u == "" {
      SplitValid(cut, rest);
      assert s == cut;
      var (a, b) := SplitIncomplete(cut);
      assert a + b == cut && b == "";
    } else {
      assert cut + rest == s + (u + rest);
      ValidConcat(s, u + rest);
      SplitValid(u, rest);
      SplitBehind(s, u);
    }
  }

  /** One look at different arguments brings what was sent up to what they share. */
  lemma {:induction false} SentIsShared(sent: string, prev: string, o: Observation)
    requires Valid(sent) && Valid(o.args) && sent <= prev && sent <= o.args && !o.closed
    ensures sent + Difference(Some(prev), sent, o) ==
            if prev == o.args then sent else SplitIncomplete(CommonPrefix(prev, o.args)).0
  {
    hide SplitIncomplete, Valid, CommonPrefix;
    SplitNothing();
    assert sent + "" == sent;
    if prev != o.args {
      var prefix := CommonPrefix(prev, o.args);
      CommonPrefixFits(prev, o.args);
      PrefixesOfOne(sent, prefix, prev, o.args);
      assert o.args == prefix + o.args[|prefix|..];
      CutKeeps(sent, prefix, o.args[|prefix|..]);
    }
  }

  lemma {:induction false} PrefixesOfOne(s: string, p: string, a: string, b: string)
    requires s <= a && s <= b && IsCommonPrefix(p, a, b)
    ensures s <= p
  {
    var n := if |s| < |p| then |s| else |p|;
    assert s[..n] == p[..n];
  }

  /** The state after `k` looks at dumps that keep the peaks. */
  ghost predicate Follows(q: Progress, os: seq<Observation>, k: nat)
    requires k <= |os|
  {
    && Sound(q) && Sent(q) == Peak(os, k)
    && q.nameSent == (k > 0 && !os[k - 1].closed)
    && (q.nameSent ==> q.stored[q.tool] == Some(os[k - 1].args))
  }

  lemma {:induction false} FollowStep(q: Progress, os: seq<Observation>, k: nat)
    requires k < |os| && Follows(q, os, k) && Valid(os[k].args) && Peak(os, k) <= os[k].args
    ensures Follows(Step(q, os[k]).0, os, k + 1)
  {
    hide Step, Difference, Valid, Shared, SoundEntry;
    var o := os[k];
    StepShape(q, o);
    StepKeepsSound(q, o);
    SentIsValid(q);
    if !o.closed {
      if q.nameSent {
        SentBegins(q);
        SentIsShared(Sent(q), os[k - 1].args, o);
        SharedIs(os, k);
      } else {
        FirstLook(o);
        assert Peak(os, k) == "";
      }
    }
  }

  lemma {:induction false} SharedIs(os: seq<Observation>, j: nat)
    requires 0 < j < |os|
    ensures Shared(os, j) == SplitIncomplete(CommonPrefix(os[j - 1].args, os[j].args)).0
  {
  }

  lemma {:induction false} SentBegins(q: Progress)
    requires Sound(q) && q.nameSent
    ensures q.stored[q.tool].Some? && Sent(q) <= q.stored[q.tool].value
  {
  }

  /** After `k` looks that keep the peaks, exactly the peak has been sent. */
  lemma {:induction false} SentIsPeak(os: seq<Observation>, k: nat)
    requires k <= |os| && PeaksKept(os, k)
    ensures Shaped(Run(Start, os[..k]).0) && Follows(Run(Start, os[..k]).0, os, k)
    decreases k
  {
    hide Step, Valid, Peak, Follows;
    if k == 0 {
      StartFollows(os);
    } else {
      SentIsPeak(os, k - 1);
      FollowStep(Run(Start, os[..k - 1]).0, os, k - 1);
      FollowsPeak(Step(Run(Start, os[..k - 1]).0, os[k - 1]).0, os, k);
      RunSnoc(Start, os[..k - 1], os[k - 1]);
      assert os[..k] == os[..k - 1] + [os[k - 1]];
    }
  }

  lemma {:induction false} StartFollows(os: seq<Observation>)
    ensures Shaped(Run(Start, os[..0]).0) && Follows(Run(Start, os[..0]).0, os, 0)
  {
    StartIsSound();
    assert os[..0] == [];
  }

  lemma {:induction false} FollowsPeak(q: Progress, os: seq<Observation>, k: nat)
    requires k <= |os| && Follows(q, os, k)
    ensures Shaped(q) && Sent(q) == Peak(os, k)
  {
  }

  lemma {:induction false} ConsistentKeepsPeaks(os: seq<Observation>, n: nat)
    requires n <= |os|
    ensures Consistent(Start, os[..n]) <==> PeaksKept(os, n)
    decreases n
  {
    hide Valid, Peak, Follows, Step;
    if n == 0 {
      assert os[..0] == [];
    } else {
      var k := n - 1;
      ConsistentKeepsPeaks(os, k);
      RunSnoc(Start, os[..k], os[k]);
      assert os[..n] == os[..k] + [os[k]];
      if PeaksKept(os, k) {
        SentIsPeak(os, k);
        FollowsPeak(Run(Start, os[..k]).0, os, k);
      }
    }
  }

  // ----- Keeping the peaks is being steady -----

  /** The peak behind look `k` is what looks `j - 1` and `j` of its invoke shared. */
  predicate SharedAt(os: seq<Observation>, k: nat, j: nat)
    requires k <= |os|
  {
    0 < j < k && SameInvoke(os, j - 1, k) && os[j - 1].args != os[j].args && Peak(os, k) == Shared(os, j)
  }

  /** A non-empty peak is what some two neighbours of the invoke shared. */
  lemma {:induction false} PeakIsShared(os: seq<Observation>, k: nat) returns (j: nat)
    requires k <= |os| && Peak(os, k) != ""
    ensures SharedAt(os, k, j)
    decreases k
  {
    hide Shared;
    if k >= 2 && !os[k - 2].closed && os[k - 2].args != os[k - 1].args {
      j := k - 1;
    } else {
      j := PeakIsShared(os, k - 1);
    }
  }

  lemma {:induction false} SteadyKeepsPeaks(os: seq<Observation>)
    requires AllValid(os) && Steady(os)
    ensures PeaksKept(os, |os|)
  {
    hide Shared, Peak, Valid, SameInvoke;
    forall k | 0 <= k < |os| ensures Peak(os, k) <= os[k].args {
      if Peak(os, k) != "" {
        var j := PeakIsShared(os, k);
      }
    }
  }

  /** Within an invoke the peak only grows. */
  lemma {:induction false} PeakGrows(os: seq<Observation>, k: nat)
    requires k < |os| && PeaksKept(os, |os|) && !os[k].closed
    ensures Peak(os, k) <= Peak(os, k + 1)
  {
    hide Valid, Follows, Step, Difference, Peak;
    SentIsPeak(os, k);
    SentIsPeak(os, k + 1);
    var q := Run(Start, os[..k]).0;
    RunSnoc(Start, os[..k], os[k]);
    assert os[..k + 1] == os[..k] + [os[k]];
    FollowsPeak(q, os, k);
    FollowsPeak(Step(q, os[k]).0, os, k + 1);
    StepShape(q, os[k]);
  }

  lemma {:induction false} PeakBehind(os: seq<Observation>, j: nat)
    requires 0 < j < |os| && !os[j - 1].closed && !os[j].closed && os[j - 1].args != os[j].args
    ensures Peak(os, j + 1) == Shared(os, j)
  {
    hide Shared;
  }

  lemma {:induction false} PeaksAreKept(os: seq<Observation>, j: nat, k: nat)
    requires 0 < j < k < |os| && PeaksKept(os, |os|) && SameInvoke(os, j - 1, k) && os[j - 1].args != os[j].args
    ensures Shared(os, j) <= Peak(os, k)
    decreases k
  {
    hide Shared, Valid, Peak, PeaksKept, Invokes;
    assert !os[j - 1].closed && !os[j].closed && !os[k - 1].closed;
    PeakBehind(os, j);
    if k > j + 1 {
      assert SameInvoke(os, j - 1, k - 1);
      PeaksAreKept(os, j, k - 1);
      PeakGrows(os, k - 1);
    }
  }

  lemma {:induction false} PeaksMakeSteady(os: seq<Observation>)
    requires PeaksKept(os, |os|)
    ensures AllValid(os) && Steady(os)
  {
    hide Shared, Valid, Peak, SameInvoke;
    forall j, k | 0 < j < k < |os| && SameInvoke(os, j - 1, k) && os[j - 1].args != os[j].args
      ensures Shared(os, j) <= os[k].args {
      PeaksAreKept(os, j, k);
    }
  }

  /** A run of dumps is streamed consistently if and only if the dumps are valid and
      every invoke's dumps keep what two different neighbours shared. */
  lemma {:induction false} ConsistentIffSteady(os: seq<Observation>)
    ensures Consistent(Start, os) <==> AllValid(os) && Steady(os)
  {
    hide Consistent, AllValid, Steady, PeaksKept;
    assert os[..|os|] == os;
    ConsistentKeepsPeaks(os, |os|);
    if AllValid(os) && Steady(os) {
      SteadyKeepsPeaks(os);
    }
    if PeaksKept(os, |os|) {
      PeaksMakeSteady(os);
    }
  }

  // ----- What the client sees -----

  /** What was delivered begins the last dump of every invoke. */
  ghost predicate DeliversPrefixes(os: seq<Observation>) {
    forall i | 0 <= i < |Invokes(os)| :: Delivered(Run(Start, os).1, i) <= Invokes(os)[i]
  }

  /** With the final flush exactly the last dump of every invoke is delivered. */
  ghost predicate DeliversAll(os: seq<Observation>) {
    forall i | 0 <= i < |Invokes(os)| ::
      Delivered(Run(Start, os).1 + Flush(Run(Start, os).0), i) == Invokes(os)[i]
  }

  lemma {:induction false} AllMeansPrefixes(os: seq<Observation>)
    requires DeliversAll(os)
    ensures DeliversPrefixes(os)
  {
    hide Run, Flush, Delivered, Invokes;
    forall i | 0 <= i < |Invokes(os)| ensures Delivered(Run(Start, os).1, i) <= Invokes(os)[i] {
      DeliveredConcat(Run(Start, os).1, Flush(Run(Start, os).0), i);
    }
  }

  /** A dump that does not begin with what was sent is not delivered. */
  lemma {:induction false} NextDumpFits(os: seq<Observation>, o: Observation)
    requires Consistent(Start, os) && Valid(o.args) && DeliversPrefixes(os + [o])
    ensures Consistent(Start, os + [o])
  {
    hide Step, Valid, Run, Consistent, Invokes, Delivered, Sound, Difference, Sent, Somes;
    RunSnoc(Start, os, o);
    StartIsSound();
    ConsistentRunIsSound(Start, os);
    var q := Run(Start, os).0;
    StepShape(q, o);
    StepKeepsSound(q, o);
    StoredIsLastDump(Start, os + [o]);
    SomesAt(Invokes(os + [o]));
    var t := Now(q);
    assert Run(Start, os + [o]).0.stored == Somes(Invokes(os + [o]));
    assert Invokes(os + [o])[t] == o.args;
    DeliveredIsStreamed(Start, os + [o], t);
    assert "" + Delivered(Run(Start, os + [o]).1, t) == Delivered(Run(Start, os + [o]).1, t);
  }

  lemma {:induction false} ConsistentPrefix(os: seq<Observation>, n: nat)
    requires n <= |os| && Consistent(Start, os)
    ensures Consistent(Start, os[..n])
  {
    hide Valid, Peak;
    ConsistentKeepsPeaks(os, |os|);
    assert os[..|os|] == os;
    ConsistentKeepsPeaks(os, n);
  }

  lemma {:induction false} PrefixesFit(os: seq<Observation>, n: nat)
    requires n <= |os| && AllValid(os) && forall k | 0 <= k <= n :: DeliversPrefixes(os[..k])
    ensures Consistent(Start, os[..n])
    decreases n
  {
    hide Valid, DeliversPrefixes;
    if n == 0 {
      assert os[..0] == [];
    } else {
      PrefixesFit(os, n - 1);
      assert os[..n] == os[..n - 1] + [os[n - 1]];
      NextDumpFits(os[..n - 1], os[n - 1]);
    }
  }

  /** Valid dumps, looked at after every step: what was delivered always begins the
      last dump, and the final flush always completes it, if and only if the dumps
      are steady. */
  lemma {:induction false} SteadyIffDelivered(os: seq<Observation>)
    requires AllValid(os)
    ensures Steady(os) <==> forall n | 0 <= n <= |os| :: DeliversPrefixes(os[..n])
    ensures Steady(os) <==> forall n | 0 <= n <= |os| :: DeliversAll(os[..n])
  {
    hide AllValid, Steady, Consistent, DeliversPrefixes, DeliversAll;
    ConsistentIffSteady(os);
    assert os[..|os|] == os;
    if Steady(os) {
      forall n | 0 <= n <= |os| ensures DeliversPrefixes(os[..n]) && DeliversAll(os[..n]) {
        ConsistentPrefix(os, n);
        ConsistentDelivers(os[..n]);
      }
    }
    if forall n | 0 <= n <= |os| :: DeliversAll(os[..n]) {
      forall n | 0 <= n <= |os| ensures DeliversPrefixes(os[..n]) {
        AllMeansPrefixes(os[..n]);
      }
    }
    if forall n | 0 <= n <= |os| :: DeliversPrefixes(os[..n]) {
      PrefixesFit(os, |os|);
    }
  }

  lemma {:induction false} ConsistentDelivers(os: seq<Observation>)
    requires Consistent(Start, os)
    ensures DeliversPrefixes(os) && DeliversAll(os)
  {
    hide Run, Flush, Delivered, Invokes, InvokeNames, Consistent;
    NothingLostNothingRepeated(os);
  }
}
