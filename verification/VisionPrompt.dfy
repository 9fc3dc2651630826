/** Expansion of image and video placeholders in a Qwen3-VL prompt.  A prompt is a
    sequence of tokens; pads and vision markers are single tokens. */
module VisionPrompt {
  import opened Wrappers
  import opened Arithmetic

  datatype Token = Word(id: int) | ImagePad | VideoPad | VisionStart | VisionEnd

  /** A row of `image_grid_thw` or `video_grid_thw`. */
  datatype Grid = Grid(t: nat, h: nat, w: nat)

  /** `stamp` writes a timestamp as text, as `format_timestamp_str` does. */
  datatype Config = Config(mergeSize: nat, temporalPatchSize: nat, stamp: real -> seq<Token>)

  datatype Media = Media(images: seq<Grid>, videos: seq<Grid>, timestamps: seq<seq<real>>)

  predicate IsPad(t: Token) {
    t == ImagePad || t == VideoPad
  }

  predicate IsText(ts: seq<Token>) {
    forall k | 0 <= k < |ts| :: ts[k].Word?
  }

  function Repeat(t: Token, n: nat): (ts: seq<Token>)
    ensures |ts| == n && forall k | 0 <= k < n :: ts[k] == t
  {
    if n == 0 then [] else Repeat(t, n - 1) + [t]
  }

  function ImageTokens(c: Config, g: Grid): nat
    requires c.mergeSize > 0
  {
    (g.t * g.h * g.w) / (c.mergeSize * c.mergeSize)
  }

  function FrameTokens(c: Config, g: Grid): nat
    requires c.mergeSize > 0
  {
    (g.h * g.w) / (c.mergeSize * c.mergeSize)
  }

  /** The position of `t` at or after `from`, or the end. */
  function IndexOf(p: seq<Token>, t: Token, from: nat): (k: nat)
    requires from <= |p|
    ensures from <= k <= |p| && (k < |p| ==> p[k] == t) && forall j | from <= j < k :: p[j] != t
    decreases |p| - from
  {
    if from == |p| || p[from] == t then from else IndexOf(p, t, from + 1)
  }

  /** The first pad of either kind at or after `begin`, or the end. */
  function NextPad(p: seq<Token>, begin: nat): (k: nat)
    requires begin <= |p|
    ensures begin <= k <= |p| && (k < |p| ==> IsPad(p[k])) && forall j | begin <= j < k :: !IsPad(p[j])
    decreases |p| - begin
  {
    if begin == |p| || IsPad(p[begin]) then begin else NextPad(p, begin + 1)
  }

  // ----- Timestamps -----

  function PaddedStamp(ts: seq<real>, j: nat): real
    requires ts != []
  {
    if j < |ts| then ts[j] else ts[|ts| - 1]
  }

  /** The middle of the `k`-th group of `m` timestamps, the last one repeated. */
  function GroupMiddle(ts: seq<real>, m: nat, k: nat): real
    requires ts != [] && m > 0
  {
    (PaddedStamp(ts, k * m) + PaddedStamp(ts, k * m + m - 1)) / 2.0
  }

  function Groups(n: nat, m: nat): nat
    requires m > 0
  {
    (n + m - 1) / m
  }

  /** One stamp per frame; frames beyond the last group reuse its stamp. */
  function Stamps(ts: seq<real>, frames: nat, m: nat): (r: seq<real>)
    requires m > 0
    ensures |r| == frames
  {
    if ts == [] then seq(frames, _ => 0.0)
    else
      GroupsPositive(|ts|, m);
      seq(frames, i requires 0 <= i => GroupMiddle(ts, m, if i < Groups(|ts|, m) then i else Groups(|ts|, m) - 1))
  }

  lemma {:induction false} GroupsPositive(n: nat, m: nat)
    requires n > 0 && m > 0
    ensures Groups(n, m) > 0
    ensures Groups(n, m) * m >= n && Groups(n, m) * m < n + m
    ensures n % m == 0 ==> Groups(n, m) * m == n
    ensures n % m != 0 ==> Groups(n, m) * m == n + (m - n % m)
  {
    var g := Groups(n, m);
    assert g * m == (n + m - 1) - (n + m - 1) % m;
    var q, r := n / m, n % m;
    assert n == q * m + r;
    if r == 0 {
      DivModUnique(n + m - 1, m, q, m - 1);
    } else {
      assert n + m - 1 == (q + 1) * m + (r - 1);
      DivModUnique(n + m - 1, m, q + 1, r - 1);
    }
  }

  /** `build_timestamps`. */
  method BuildTimestamps(timestamps: seq<real>, numFrames: nat, mergeSize: nat) returns (out: seq<real>)
    requires mergeSize > 0
    ensures out == Stamps(timestamps, numFrames, mergeSize)
  {
    if timestamps == [] {
      return seq(numFrames, _ => 0.0);
    }
    var n, m := |timestamps|, mergeSize;
    GroupsPositive(n, m);
    var ts := timestamps;
    var rem := n % m;
    if rem != 0 {
      ts := ts + seq(m - rem, _ => timestamps[n - 1]);
    }
    ghost var g := Groups(n, m);
    assert |ts| == g * m;
    assert forall j | 0 <= j < |ts| :: ts[j] == PaddedStamp(timestamps, j);
    out := [];
    var i := 0;
    while i < |ts|
      invariant i == |out| * m && |out| <= g
      invariant forall k | 0 <= k < |out| :: out[k] == GroupMiddle(timestamps, m, k)
      decreases |ts| - i
    {
      NextGroup(|out|, g, m);
      out := out + [(ts[i] + ts[i + m - 1]) / 2.0];
      i := i + m;
    }
    assert |out| == g by { SameMultiple(|out|, g, m); }
    if |out| > numFrames {
      out := out[..numFrames];
    }
    while |out| < numFrames
      invariant out != [] || numFrames == 0
      invariant |out| <= numFrames
      invariant forall k | 0 <= k < |out| :: out[k] == GroupMiddle(timestamps, m, if k < g then k else g - 1)
      invariant |out| >= g || |out| == numFrames
    {
      out := out + [out[|out| - 1]];
    }
  }

  lemma {:induction false} NextGroup(k: nat, g: nat, m: nat)
    requires k <= g && k * m < g * m
    ensures k < g && k * m + m - 1 < g * m && (k + 1) * m == k * m + m
  {
    MulGap(k, g, m);
    assert (k + 1) * m == k * m + m;
  }

  lemma {:induction false} SameMultiple(k: nat, g: nat, m: nat)
    requires m > 0 && k <= g && k * m >= g * m
    ensures k == g
  {
    MulGap(k, g, m);
  }

  // ----- Expansion -----

  /** One frame: its timestamp and its wrapped pads. */
  function Frame(stamp: seq<Token>, n: nat): seq<Token> {
    stamp + ([VisionStart] + Repeat(VideoPad, n) + [VisionEnd])
  }

  function Frames(stamps: seq<seq<Token>>, n: nat): seq<Token> {
    if stamps == [] then [] else Frame(stamps[0], n) + Frames(stamps[1..], n)
  }

  function StampTexts(c: Config, m: Media, v: nat): (r: seq<seq<Token>>)
    requires c.temporalPatchSize > 0 && v < |m.videos| && v < |m.timestamps|
    ensures |r| == m.videos[v].t
  {
    var s := Stamps(m.timestamps[v], m.videos[v].t, c.temporalPatchSize);
    seq(|s|, i requires 0 <= i < |s| => c.stamp(s[i]))
  }

  function VideoTokens(c: Config, m: Media, v: nat): seq<Token>
    requires c.temporalPatchSize > 0 && c.mergeSize > 0 && v < |m.videos| && v < |m.timestamps|
  {
    Frames(StampTexts(c, m, v), FrameTokens(c, m.videos[v]))
  }

  predicate Wrapped(p: seq<Token>, pos: nat)
    requires pos < |p|
  {
    0 < pos && p[pos - 1] == VisionStart && pos + 1 < |p| && p[pos + 1] == VisionEnd
  }

  function Prepend(front: seq<Token>, rest: Option<seq<Token>>): Option<seq<Token>> {
    match rest
    case None => None
    case Some(r) => Some(front + r)
  }

  predicate Usable(c: Config, m: Media) {
    c.mergeSize > 0 && c.temporalPatchSize > 0 && |m.videos| == |m.timestamps|
  }

  /** The cursor never stands right behind a start marker. */
  predicate Settled(p: seq<Token>, begin: nat) {
    begin <= |p| && (begin > 0 ==> p[begin - 1] != VisionStart)
  }

  /** The prompt from `begin` on, expanded with the media from `i` and `v` on;
      `None` when there are more pads than media, or a video without timestamps. */
  function Expand(c: Config, m: Media, p: seq<Token>, begin: nat, i: nat, v: nat): Option<seq<Token>>
    requires Usable(c, m) && Settled(p, begin)
    decreases |p| - begin
  {
    var pos := NextPad(p, begin);
    if pos == |p| then Some(p[begin..])
    else if p[pos] == ImagePad then
      if i >= |m.images| then None
      else Prepend(p[begin..pos] + Repeat(ImagePad, ImageTokens(c, m.images[i])), Expand(c, m, p, pos + 1, i + 1, v))
    else if v >= |m.videos| || m.timestamps[v] == [] then None
    else
      var lo, hi := if Wrapped(p, pos) then pos - 1 else pos, if Wrapped(p, pos) then pos + 2 else pos + 1;
      Prepend(p[begin..lo] + VideoTokens(c, m, v), Expand(c, m, p, hi, i, v + 1))
  }

  /** `find_vision_token`. */
  method FindVisionToken(p: seq<Token>, begin: nat) returns (pos: nat)
    requires begin <= |p|
    ensures pos == NextPad(p, begin)
  {
    var img := IndexOf(p, ImagePad, begin);
    var vid := IndexOf(p, VideoPad, begin);
    if img == |p| && vid == |p| {
      pos := |p|;
    } else if vid == |p| {
      pos := img;
    } else if img == |p| {
      pos := vid;
    } else {
      pos := if img < vid then img else vid;
    }
  }

  method AppendPads(data: seq<Token>, token: Token, count: nat) returns (out: seq<Token>)
    ensures out == data + Repeat(token, count)
  {
    out := data;
    var tokenNum := count;
    ghost var done := 0;
    while tokenNum > 0
      invariant done + tokenNum == count && out == data + Repeat(token, done)
    {
      out := out + [token];
      tokenNum := tokenNum - 1;
      done := done + 1;
    }
  }

  /** The frames of one video. */
  method AppendFrames(data: seq<Token>, c: Config, m: Media, v: nat) returns (out: seq<Token>)
    requires Usable(c, m) && v < |m.videos|
    ensures out == data + VideoTokens(c, m, v)
  {
    var numFrames, tokenNum := m.videos[v].t, FrameTokens(c, m.videos[v]);
    var selected := BuildTimestamps(m.timestamps[v], numFrames, c.temporalPatchSize);
    ghost var stamps := StampTexts(c, m, v);
    out := data;
    var idx := 0;
    assert stamps[0..] == stamps;
    while idx < numFrames
      invariant idx <= numFrames
      invariant out + Frames(stamps[idx..], tokenNum) == data + Frames(stamps, tokenNum)
    {
      ghost var was := out;
      assert stamps[idx..][0] == stamps[idx] == c.stamp(selected[idx]) && stamps[idx..][1..] == stamps[idx + 1..];
      out := out + c.stamp(selected[idx]);
      out := out + [VisionStart];
      out := AppendPads(out, VideoPad, tokenNum);
      out := out + [VisionEnd];
      assert out == was + Frame(stamps[idx], tokenNum);
      idx := idx + 1;
    }
    assert stamps[idx..] == [] && out + [] == out;
  }

  /** The replacement of one image pad. */
  method ReplaceImage(data: seq<Token>, p: seq<Token>, c: Config, m: Media, begin: nat, pos: nat, i: nat, ghost v: nat)
    returns (out: seq<Token>)
    requires Usable(c, m) && Settled(p, begin) && pos == NextPad(p, begin) && pos < |p| && p[pos] == ImagePad
    requires i < |m.images|
    ensures Settled(p, pos + 1)
    ensures Prepend(out, Expand(c, m, p, pos + 1, i + 1, v)) == Prepend(data, Expand(c, m, p, begin, i, v))
  {
    hide NextPad, ImageTokens, Repeat;
    out := data + p[begin..pos];
    out := AppendPads(out, ImagePad, ImageTokens(c, m.images[i]));
    ghost var front := p[begin..pos] + Repeat(ImagePad, ImageTokens(c, m.images[i]));
    assert out == data + front;
    PrependTwice(data, front, out, Expand(c, m, p, pos + 1, i + 1, v));
  }

  /** The replacement of one video pad, with its wrapping markers if it has both. */
  method ReplaceVideo(data: seq<Token>, p: seq<Token>, c: Config, m: Media, begin: nat, pos: nat, ghost i: nat, v: nat)
    returns (out: seq<Token>, end: nat)
    requires Usable(c, m) && Settled(p, begin) && pos == NextPad(p, begin) && pos < |p| && p[pos] != ImagePad
    requires v < |m.videos| && m.timestamps[v] != []
    ensures pos < end && Settled(p, end)
    ensures Prepend(out, Expand(c, m, p, end, i, v + 1)) == Prepend(data, Expand(c, m, p, begin, i, v))
  {
    hide NextPad, VideoTokens, Repeat;
    var replaceBegin, replaceEnd := pos, pos + 1;
    if pos >= 1 && p[pos - 1] == VisionStart && pos + 1 < |p| && p[pos + 1] == VisionEnd {
      replaceBegin, replaceEnd := pos - 1, pos + 2;
    }
    end := replaceEnd;
    out := data + p[begin..replaceBegin];
    out := AppendFrames(out, c, m, v);
    ghost var front := p[begin..replaceBegin] + VideoTokens(c, m, v);
    assert out == data + front;
    PrependTwice(data, front, out, Expand(c, m, p, end, i, v + 1));
  }

  /** The replacement loop of `process`. */
  method ReplaceAll(prompt: seq<Token>, c: Config, m: Media) returns (r: Option<seq<Token>>)
    requires Usable(c, m)
    ensures r == Expand(c, m, prompt, 0, 0, 0)
  {
    hide NextPad, Repeat, VideoTokens;
    var data: seq<Token> := [];
    var imageIndex, videoIndex, begin := 0, 0, 0;
    var pos := FindVisionToken(prompt, begin);
    PrependNothing(Expand(c, m, prompt, 0, 0, 0));
    while pos != |prompt|
      invariant Settled(prompt, begin) && begin <= pos <= |prompt| && pos == NextPad(prompt, begin)
      invariant Prepend(data, Expand(c, m, prompt, begin, imageIndex, videoIndex)) == Expand(c, m, prompt, 0, 0, 0)
      decreases |prompt| - begin
    {
      if prompt[pos] == ImagePad {
        if imageIndex >= |m.images| {
          return None;
        }
        data := ReplaceImage(data, prompt, c, m, begin, pos, imageIndex, videoIndex);
        imageIndex := imageIndex + 1;
        begin := pos + 1;
      } else {
        if videoIndex >= |m.videos| || m.timestamps[videoIndex] == [] {
          return None;
        }
        data, begin := ReplaceVideo(data, prompt, c, m, begin, pos, imageIndex, videoIndex);
        videoIndex := videoIndex + 1;
      }
      pos := FindVisionToken(prompt, begin);
    }
    r := Some(data + prompt[begin..]);
  }

  /** `process`.  With no media at all the prompt is left alone. */
  method Process(prompt: seq<Token>, c: Config, m: Media) returns (r: Option<seq<Token>>)
    requires c.mergeSize > 0 && c.temporalPatchSize > 0
    ensures r == if m.images == [] && m.videos == [] then Some(prompt)
                 else if |m.videos| != |m.timestamps| && m.videos != [] then None
                 else Expand(c, if m.videos == [] then m.(timestamps := []) else m, prompt, 0, 0, 0)
  {
    hide Expand;
    if m.images == [] && m.videos == [] {
      return Some(prompt);
    }
    if m.videos != [] && |m.videos| != |m.timestamps| {
      return None;
    }
    r := ReplaceAll(prompt, c, if m.videos == [] then m.(timestamps := []) else m);
  }

  lemma {:induction false} PrependNothing(r: Option<seq<Token>>)
    ensures Prepend([], r) == r
  {
    if r.Some? {
      assert [] + r.value == r.value;
    }
  }

  lemma {:induction false} PrependTwice(a: seq<Token>, b: seq<Token>, ab: seq<Token>, r: Option<seq<Token>>)
    requires ab == a + b
    ensures Prepend(a, Prepend(b, r)) == Prepend(ab, r)
  {
    if r.Some? {
      assert a + (b + r.value) == (a + b) + r.value;
    }
  }
}
