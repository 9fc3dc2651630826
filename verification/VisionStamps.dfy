/** What the frames of a video look like in the prompt: their timestamps, their pads,
    and how many patches stand behind each pad. */
module VisionStamps {
  import opened Wrappers
  import opened Arithmetic
  import opened VisionPrompt
  import opened VisionLayout
  import opened VisionPatches

  // ----- Timestamps -----

  /** The group of frame `k`: the `k`-th one, or the last one when there are fewer. */
  function GroupOf(n: nat, m: nat, k: nat): int
    requires n > 0 && m > 0
  {
    if k * m < n then k else (n - 1) / m
  }

  lemma {:induction false} GroupIs(n: nat, m: nat, k: nat)
    requires n > 0 && m > 0
    ensures Groups(n, m) > 0
    ensures GroupOf(n, m, k) == if k < Groups(n, m) then k else Groups(n, m) - 1
    ensures GroupOf(n, m, k) >= 0 && 0 <= GroupOf(n, m, k) * m < n
  {
    GroupsPositive(n, m);
    var groups := Groups(n, m);
    var last := groups - 1;
    assert last * m == groups * m - m;
    DivModUnique(n - 1, m, last, n - 1 - last * m);
    if k < groups {
      MulMonotone(k, last, m);
    } else {
      MulMonotone(groups, k, m);
    }
  }

  /** Frame `k` has the mean of the first and the last timestamp of the `k`-th group of
      `m`, the last group being possibly shorter and standing for all later frames. */
  lemma {:induction false} StampIsMean(ts: seq<real>, frames: nat, m: nat, k: nat)
    requires ts != [] && m > 0 && k < frames
    ensures var g := GroupOf(|ts|, m, k);
            var first, last := g * m, if g * m + m <= |ts| then g * m + m - 1 else |ts| - 1;
            && 0 <= first <= last < |ts|
            && 2.0 * Stamps(ts, frames, m)[k] == ts[first] + ts[last]
  {
    hide GroupOf, Groups;
    GroupIs(|ts|, m, k);
    var g := GroupOf(|ts|, m, k);
    MeanOf(ts, m, g);
    StampOf(ts, frames, m, k);
  }

  lemma {:induction false} StampOf(ts: seq<real>, frames: nat, m: nat, k: nat)
    requires ts != [] && m > 0 && k < frames && Groups(|ts|, m) > 0
    ensures Stamps(ts, frames, m)[k] == GroupMiddle(ts, m, if k < Groups(|ts|, m) then k else Groups(|ts|, m) - 1)
  {
    hide Groups, GroupMiddle;
  }

  lemma {:induction false} MeanOf(ts: seq<real>, m: nat, g: nat)
    requires ts != [] && m > 0 && 0 <= g * m < |ts|
    ensures 2.0 * GroupMiddle(ts, m, g) == ts[g * m] + ts[if g * m + m <= |ts| then g * m + m - 1 else |ts| - 1]
  {
  }

  lemma {:induction false} NoStamps(frames: nat, m: nat)
    requires m > 0
    ensures Stamps([], frames, m) == seq(frames, _ => 0.0)
  {
  }

  predicate Ascending(ts: seq<real>) {
    forall i, j | 0 <= i <= j < |ts| :: ts[i] <= ts[j]
  }

  /** Timestamps in order stay in order. */
  lemma {:induction false} StampsAscend(ts: seq<real>, frames: nat, m: nat, j: nat, k: nat)
    requires ts != [] && m > 0 && Ascending(ts) && j <= k < frames
    ensures Stamps(ts, frames, m)[j] <= Stamps(ts, frames, m)[k]
  {
    hide Stamps, GroupOf;
    StampIsMean(ts, frames, m, j);
    StampIsMean(ts, frames, m, k);
    GroupOrder(|ts|, m, j, k);
    MulMonotone(GroupOf(|ts|, m, j), GroupOf(|ts|, m, k), m);
  }

  lemma {:induction false} GroupOrder(n: nat, m: nat, j: nat, k: nat)
    requires n > 0 && m > 0 && j <= k
    ensures 0 <= GroupOf(n, m, j) <= GroupOf(n, m, k)
  {
    hide GroupOf;
    GroupIs(n, m, j);
    GroupIs(n, m, k);
  }

  // ----- Frames -----

  /** An independent reader: text, then pads between markers, and so on. */
  function ReadFrames(ts: seq<Token>): Option<seq<(seq<Token>, nat)>>
    decreases |ts|
  {
    if ts == [] then Some([])
    else
      var s := IndexOf(ts, VisionStart, 0);
      if s == |ts| then None
      else
        var e := IndexOf(ts, VisionEnd, s + 1);
        if e == |ts| || exists k :: s < k < e && ts[k] != VideoPad then None
        else match ReadFrames(ts[e + 1..])
          case None => None
          case Some(later) => Some([(ts[..s], e - s - 1)] + later)
  }

  lemma {:induction false} FirstFrameRead(stamp: seq<Token>, n: nat, rest: seq<Token>)
    requires IsText(stamp)
    ensures var ts := stamp + ([VisionStart] + Repeat(VideoPad, n) + [VisionEnd]) + rest;
            var s := |stamp|; var e := s + 1 + n;
            && IndexOf(ts, VisionStart, 0) == s && IndexOf(ts, VisionEnd, s + 1) == e && e < |ts|
            && ts[..s] == stamp && ts[e + 1..] == rest && (forall k | s < k < e :: ts[k] == VideoPad)
  {
    hide Repeat;
    var ts := stamp + ([VisionStart] + Repeat(VideoPad, n) + [VisionEnd]) + rest;
    var s, e := |stamp|, |stamp| + 1 + n;
    assert forall k | s < k < e :: ts[k] == Repeat(VideoPad, n)[k - s - 1];
    FirstIndex(ts, VisionStart, 0, s);
    FirstIndex(ts, VisionEnd, s + 1, e);
  }

  lemma {:induction false} FirstIndex(ts: seq<Token>, t: Token, from: nat, k: nat)
    requires from <= k < |ts| && ts[k] == t && forall j | from <= j < k :: ts[j] != t
    ensures IndexOf(ts, t, from) == k
  {
  }

  function Shown(stamps: seq<seq<Token>>, n: nat): (r: seq<(seq<Token>, nat)>)
    ensures |r| == |stamps| && forall f | 0 <= f < |stamps| :: r[f] == (stamps[f], n)
  {
    if stamps == [] then [] else [(stamps[0], n)] + Shown(stamps[1..], n)
  }

  lemma {:induction false} FramesRead(stamps: seq<seq<Token>>, n: nat)
    requires forall f | 0 <= f < |stamps| :: IsText(stamps[f])
    ensures ReadFrames(Frames(stamps, n)) == Some(Shown(stamps, n))
    decreases |stamps|
  {
    hide Repeat, IndexOf, IsText;
    if stamps != [] {
      var rest := Frames(stamps[1..], n);
      FirstFrameRead(stamps[0], n, rest);
      FramesRead(stamps[1..], n);
    }
  }

  /** A video in the prompt reads back as its frames: each with its own timestamp in
      front of exactly its pads. */
  lemma {:induction false} VideoReads(c: Config, m: Media, v: nat)
    requires Usable(c, m) && v < |m.videos| && forall f | 0 <= f < m.videos[v].t :: IsText(StampTexts(c, m, v)[f])
    ensures var frames := ReadFrames(VideoTokens(c, m, v));
            var stamps := Stamps(m.timestamps[v], m.videos[v].t, c.temporalPatchSize);
            && frames.Some? && |frames.value| == m.videos[v].t
            && forall f | 0 <= f < m.videos[v].t :: frames.value[f] == (c.stamp(stamps[f]), FrameTokens(c, m.videos[v]))
  {
    hide FrameTokens, Stamps, ReadFrames;
    FramesRead(StampTexts(c, m, v), FrameTokens(c, m.videos[v]));
  }

  /** All frames together have one pad per merge neighbourhood: the patch matrix of the
      video has `merge` squared rows for each of them. */
  lemma {:induction false} RowsPerFrame(s: Shape, c: Config)
    requires Solid(s) && c.mergeSize == s.m
    ensures var pads := FrameTokens(c, Grid(s.t, s.gh * s.m, s.gw * s.m));
            && pads == s.gh * s.gw
            && Matrix(s)[0] == (s.t * pads) * (s.m * s.m)
  {
    Exchange(1, s.gh, s.gw, s.m);
    var h, w, mm := s.gh * s.m, s.gw * s.m, s.m * s.m;
    assert 1 * s.gh * s.gw == s.gh * s.gw && 1 * h * w == h * w;
    Squared(s.m);
    DivModUnique(h * w, mm, s.gh * s.gw, 0);
    assert s.t * s.gh * s.gw == s.t * (s.gh * s.gw);
    RowCount(s);
  }

  lemma {:induction false} Squared(m: nat)
    requires m > 0
    ensures m * m > 0
  {
  }

  lemma {:induction false} RowCount(s: Shape)
    ensures Matrix(s)[0] == (s.t * s.gh * s.gw) * (s.m * s.m)
  {
  }
}
