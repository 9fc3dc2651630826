/** Recovering the placeholder spans from an expanded prompt, and the proof that
    expansion and recovery stay in step. */
module VisionSpans {
  import opened Wrappers
  import opened VisionPrompt

  datatype Span = Span(offset: nat, length: nat)

  // ----- The scan -----

  /** Marker positions of the next vision block; `None` without one, and without a
      closing marker the scan fails. */
  datatype Block = NoBlock | Unclosed | Block(start: nat, end: nat)

  function NextBlock(p: seq<Token>, from: nat): (b: Block)
    requires from <= |p|
    ensures b.Block? ==> from <= b.start < b.end < |p| && p[b.start] == VisionStart && p[b.end] == VisionEnd
  {
    var s := IndexOf(p, VisionStart, from);
    if s == |p| then NoBlock
    else
      var e := IndexOf(p, VisionEnd, s + 1);
      if e == |p| then Unclosed else Block(s, e)
  }

  /** The spans given to the media items from the `mm`-th on; `None` where a check
      of the source fails.  `left` counts the frames of the current video to come. */
  function Spans(p: seq<Token>, from: nat, mm: nat, items: nat, videos: seq<Grid>, vid: nat, left: nat): Option<seq<Span>>
    requires from <= |p|
    decreases |p| - from
  {
    match NextBlock(p, from)
    case NoBlock => Some([])
    case Unclosed => None
    case Block(s, e) =>
      var span := Span(s + 1, e - s - 1);
      if p[s + 1] == ImagePad then
        if mm >= items then None else Behind(span, Spans(p, e + 1, mm + 1, items, videos, vid, left))
      else if p[s + 1] == VideoPad then
        if left > 0 then Spans(p, e + 1, mm, items, videos, vid, left - 1)
        else if vid >= |videos| || mm >= items || videos[vid].t == 0 then None
        else Behind(span, Spans(p, e + 1, mm + 1, items, videos, vid + 1, videos[vid].t - 1))
      else Spans(p, e + 1, mm, items, videos, vid, left)
  }

  function Behind(s: Span, rest: Option<seq<Span>>): Option<seq<Span>> {
    match rest
    case None => None
    case Some(r) => Some([s] + r)
  }

  /** `find_mm_spans`: writes each item's position; stops where a check fails. */
  method FindMmSpans(p: seq<Token>, videos: seq<Grid>, positions: array<Option<Span>>) returns (ok: bool)
    modifies positions
    ensures ok <==> Spans(p, 0, 0, positions.Length, videos, 0, 0).Some?
    ensures ok ==> var spans := Spans(p, 0, 0, positions.Length, videos, 0, 0).value;
                   && |spans| <= positions.Length
                   && forall k | 0 <= k < positions.Length ::
                        positions[k] == if k < |spans| then Some(spans[k]) else old(positions[k])
  {
    hide NextBlock, IndexOf;
    var start, globalMmIndex, videoIndex, videoFramesLeft := 0, 0, 0, 0;
    ghost var items := positions.Length;
    ghost var done: seq<Span> := [];
    ghost var whole := Spans(p, 0, 0, items, videos, 0, 0);
    JoinNothing(whole);
    while true
      invariant start <= |p| && globalMmIndex == |done| <= items
      invariant Join(done, Spans(p, start, globalMmIndex, items, videos, videoIndex, videoFramesLeft)) == whole
      invariant forall k | 0 <= k < items ::
                  positions[k] == if k < |done| then Some(done[k]) else old(positions[k])
      decreases |p| - start
    {
      var block := SearchBlock(p, start);
      if block.NoBlock? {
        assert done + [] == done;
        return true;
      }
      if block.Unclosed? {
        return false;
      }
      var Block(s, e) := block;
      var span := Span(s + 1, e - s - 1);
      if p[s + 1] == ImagePad {
        if globalMmIndex >= positions.Length {
          return false;
        }
        positions[globalMmIndex] := Some(span);
        JoinOne(done, span, Spans(p, e + 1, globalMmIndex + 1, items, videos, videoIndex, videoFramesLeft));
        done := done + [span];
        globalMmIndex := globalMmIndex + 1;
      } else if p[s + 1] == VideoPad {
        if videoFramesLeft == 0 {
          if videoIndex >= |videos| || globalMmIndex >= positions.Length {
            return false;
          }
          videoFramesLeft := videos[videoIndex].t;
          if videoFramesLeft == 0 {
            return false;
          }
          positions[globalMmIndex] := Some(span);
          JoinOne(done, span, Spans(p, e + 1, globalMmIndex + 1, items, videos, videoIndex + 1, videoFramesLeft - 1));
          done := done + [span];
          globalMmIndex := globalMmIndex + 1;
          videoIndex := videoIndex + 1;
        }
        videoFramesLeft := videoFramesLeft - 1;
      }
      start := e + 1;
    }
  }

  method SearchBlock(p: seq<Token>, start: nat) returns (b: Block)
    requires start <= |p|
    ensures b == NextBlock(p, start)
  {
    var visionStart := IndexOf(p, VisionStart, start);
    if visionStart == |p| {
      return NoBlock;
    }
    var visionEnd := IndexOf(p, VisionEnd, visionStart + 1);
    return if visionEnd == |p| then Unclosed else Block(visionStart, visionEnd);
  }

  function Join(done: seq<Span>, rest: Option<seq<Span>>): Option<seq<Span>> {
    match rest
    case None => None
    case Some(r) => Some(done + r)
  }

  lemma {:induction false} JoinNothing(rest: Option<seq<Span>>)
    ensures Join([], rest) == rest
  {
    if rest.Some? {
      assert [] + rest.value == rest.value;
    }
  }

  lemma {:induction false} JoinOne(done: seq<Span>, s: Span, rest: Option<seq<Span>>)
    ensures Join(done, Behind(s, rest)) == Join(done + [s], rest)
  {
    if rest.Some? {
      assert done + ([s] + rest.value) == (done + [s]) + rest.value;
    }
  }

  // ----- Prompts with correctly wrapped pads -----

  datatype Segment = Plain(words: seq<Token>) | Image | Video

  predicate Good(segs: seq<Segment>) {
    forall k | 0 <= k < |segs| :: segs[k].Plain? ==> IsText(segs[k].words)
  }

  function Prompt(segs: seq<Segment>): seq<Token> {
    if segs == [] then []
    else (match segs[0]
          case Plain(words) => words
          case Image => [VisionStart, ImagePad, VisionEnd]
          case Video => [VisionStart, VideoPad, VisionEnd]) + Prompt(segs[1..])
  }

  function Images(segs: seq<Segment>): nat {
    if segs == [] then 0 else (if segs[0].Image? then 1 else 0) + Images(segs[1..])
  }

  function Videos(segs: seq<Segment>): nat {
    if segs == [] then 0 else (if segs[0].Video? then 1 else 0) + Videos(segs[1..])
  }

  /** Enough media for the segments, and the timestamps of the videos they use are
      there and written as text. */
  predicate Suffices(c: Config, m: Media, segs: seq<Segment>, i: nat, v: nat) {
    && Usable(c, m) && Good(segs)
    && i + Images(segs) <= |m.images| && v + Videos(segs) <= |m.videos|
    && forall k | v <= k < v + Videos(segs) ::
         m.timestamps[k] != [] && forall f | 0 <= f < m.videos[k].t :: IsText(StampTexts(c, m, k)[f])
  }

  function ImageBlock(n: nat): seq<Token> {
    [VisionStart] + Repeat(ImagePad, n) + [VisionEnd]
  }

  function Expanded(c: Config, m: Media, segs: seq<Segment>, i: nat, v: nat): seq<Token>
    requires Usable(c, m) && i + Images(segs) <= |m.images| && v + Videos(segs) <= |m.videos|
    decreases |segs|
  {
    if segs == [] then []
    else match segs[0]
      case Plain(words) => words + Expanded(c, m, segs[1..], i, v)
      case Image => ImageBlock(ImageTokens(c, m.images[i])) + Expanded(c, m, segs[1..], i + 1, v)
      case Video => VideoTokens(c, m, v) + Expanded(c, m, segs[1..], i, v + 1)
  }

  predicate NoPads(ts: seq<Token>) {
    forall k | 0 <= k < |ts| :: !IsPad(ts[k])
  }

  lemma {:induction false} NextPadIs(p: seq<Token>, begin: nat, k: nat)
    requires begin <= k < |p| && IsPad(p[k]) && forall j | begin <= j < k :: !IsPad(p[j])
    ensures NextPad(p, begin) == k
  {
  }

  /** What `lead + block + rest` at `begin` says about single positions. */
  lemma {:induction false} PadPosition(p: seq<Token>, begin: nat, lead: seq<Token>, pad: Token, rest: seq<Token>)
    requires begin <= |p| && p[begin..] == lead + ([VisionStart, pad, VisionEnd] + rest) && NoPads(lead) && IsPad(pad)
    ensures var pos := begin + |lead| + 1;
            && pos + 1 < |p| && NextPad(p, begin) == pos && p[pos] == pad
            && p[pos - 1] == VisionStart && p[pos + 1] == VisionEnd
            && p[begin..pos - 1] == lead && p[begin..pos] == lead + [VisionStart]
            && p[pos + 1..] == [VisionEnd] + rest && p[pos + 2..] == rest
  {
    var pos := begin + |lead| + 1;
    var x := p[begin..];
    assert |p| == begin + |x|;
    assert forall j | 0 <= j < |x| :: p[begin + j] == x[j];
    assert p[pos - 1] == x[|lead|] && p[pos] == x[|lead| + 1] && p[pos + 1] == x[|lead| + 2];
    forall j | begin <= j < pos ensures !IsPad(p[j]) {
      assert p[j] == x[j - begin];
    }
    NextPadIs(p, begin, pos);
    assert p[begin..pos - 1] == x[..|lead|] && p[begin..pos] == x[..|lead| + 1];
    assert p[pos + 1..] == x[|lead| + 2..] && p[pos + 2..] == x[|lead| + 3..];
  }

  lemma {:induction false} ImageStep(c: Config, m: Media, p: seq<Token>, begin: nat, lead: seq<Token>,
                                     rest: seq<Token>, i: nat, v: nat)
    requires Usable(c, m) && Settled(p, begin) && i < |m.images|
    requires p[begin..] == lead + ([VisionStart, ImagePad, VisionEnd] + rest) && NoPads(lead)
    ensures var next := begin + |lead| + 2;
            && Settled(p, next) && p[next..] == [VisionEnd] + rest
            && Expand(c, m, p, begin, i, v) ==
               Prepend((lead + [VisionStart]) + Repeat(ImagePad, ImageTokens(c, m.images[i])), Expand(c, m, p, next, i + 1, v))
  {
    hide NextPad, ImageTokens, VideoTokens, Repeat, NoPads;
    PadPosition(p, begin, lead, ImagePad, rest);
  }

  lemma {:induction false} VideoStep(c: Config, m: Media, p: seq<Token>, begin: nat, lead: seq<Token>,
                                     rest: seq<Token>, i: nat, v: nat)
    requires Usable(c, m) && Settled(p, begin) && v < |m.videos| && m.timestamps[v] != []
    requires p[begin..] == lead + ([VisionStart, VideoPad, VisionEnd] + rest) && NoPads(lead)
    ensures var next := begin + |lead| + 3;
            && Settled(p, next) && p[next..] == rest
            && Expand(c, m, p, begin, i, v) == Prepend(lead + VideoTokens(c, m, v), Expand(c, m, p, next, i, v + 1))
  {
    hide NextPad, ImageTokens, VideoTokens, Repeat, NoPads;
    PadPosition(p, begin, lead, VideoPad, rest);
  }

  lemma {:induction false} NothingLeft(c: Config, m: Media, p: seq<Token>, begin: nat, lead: seq<Token>, i: nat, v: nat)
    requires Usable(c, m) && Settled(p, begin) && p[begin..] == lead && NoPads(lead)
    ensures Expand(c, m, p, begin, i, v) == Some(lead)
  {
    assert forall j | begin <= j < |p| :: p[j] == p[begin..][j - begin];
  }

  lemma {:induction false} SufficesRest(c: Config, m: Media, segs: seq<Segment>, i: nat, v: nat)
    requires Suffices(c, m, segs, i, v) && segs != []
    ensures match segs[0]
            case Plain(words) => Suffices(c, m, segs[1..], i, v) && IsText(words) && NoPads(words)
            case Image => i < |m.images| && Suffices(c, m, segs[1..], i + 1, v)
            case Video => v < |m.videos| && Suffices(c, m, segs[1..], i, v + 1) && m.timestamps[v] != []
                          && forall f | 0 <= f < m.videos[v].t :: IsText(StampTexts(c, m, v)[f])
  {
    hide ImageTokens, FrameTokens, StampTexts;
    assert Good(segs[1..]) by { assert forall k | 0 <= k < |segs| - 1 :: segs[1..][k] == segs[k + 1]; }
  }

  /** Expansion replaces every pad in place: for every mix of segments the text is
      kept, image `i` gets its pads, and video `v` its frames. */
  lemma {:induction false} ExpandSegments(c: Config, m: Media, p: seq<Token>, begin: nat, lead: seq<Token>,
                                          segs: seq<Segment>, i: nat, v: nat)
    requires Suffices(c, m, segs, i, v) && Settled(p, begin)
    requires p[begin..] == lead + Prompt(segs) && NoPads(lead)
    ensures Usable(c, m) && i + Images(segs) <= |m.images| && v + Videos(segs) <= |m.videos|
    ensures Expand(c, m, p, begin, i, v) == Some(lead + Expanded(c, m, segs, i, v))
    decreases |segs|
  {
    hide Expand, Expanded, Suffices, NoPads, Prompt, Images, Videos, ImageTokens, StampTexts, IsText, FrameTokens;
    SufficesCounts(c, m, segs, i, v);
    if segs == [] {
      PromptNothing(c, m, i, v);
      assert lead + [] == lead;
      NothingLeft(c, m, p, begin, lead, i, v);
    } else {
      var rest := Prompt(segs[1..]);
      SufficesRest(c, m, segs, i, v);
      PromptFirst(segs);
      match segs[0] {
        case Plain(words) =>
          assert lead + (words + rest) == (lead + words) + rest;
          NoPadsConcat(lead, words);
          ExpandSegments(c, m, p, begin, lead + words, segs[1..], i, v);
          ExpandedFirst(c, m, segs, i, v, lead);
        case Image =>
          ImageStep(c, m, p, begin, lead, rest, i, v);
          NoPadsConcat([], []);
          ExpandSegments(c, m, p, begin + |lead| + 2, [VisionEnd], segs[1..], i + 1, v);
          ExpandedFirst(c, m, segs, i, v, lead);
        case Video =>
          VideoStep(c, m, p, begin, lead, rest, i, v);
          assert [] + rest == rest;
          NoPadsConcat([], []);
          ExpandSegments(c, m, p, begin + |lead| + 3, [], segs[1..], i, v + 1);
          ExpandedFirst(c, m, segs, i, v, lead);
      }
    }
  }

  lemma {:induction false} SufficesCounts(c: Config, m: Media, segs: seq<Segment>, i: nat, v: nat)
    requires Suffices(c, m, segs, i, v)
    ensures Usable(c, m) && i + Images(segs) <= |m.images| && v + Videos(segs) <= |m.videos|
  {
    hide ImageTokens, FrameTokens, StampTexts, Images, Videos;
  }

  lemma {:induction false} PromptNothing(c: Config, m: Media, i: nat, v: nat)
    requires Usable(c, m) && i + Images([]) <= |m.images| && v + Videos([]) <= |m.videos|
    ensures Prompt([]) == [] && Expanded(c, m, [], i, v) == []
  {
  }

  lemma {:induction false} PromptFirst(segs: seq<Segment>)
    requires segs != []
    ensures Prompt(segs) == (match segs[0]
                             case Plain(words) => words
                             case Image => [VisionStart, ImagePad, VisionEnd]
                             case Video => [VisionStart, VideoPad, VisionEnd]) + Prompt(segs[1..])
  {
  }

  /** The first segment's expansion in front of the rest, behind `lead`. */
  lemma {:induction false} ExpandedFirst(c: Config, m: Media, segs: seq<Segment>, i: nat, v: nat, lead: seq<Token>)
    requires Usable(c, m) && segs != [] && i + Images(segs) <= |m.images| && v + Videos(segs) <= |m.videos|
    ensures match segs[0]
            case Plain(words) =>
              (lead + words) + Expanded(c, m, segs[1..], i, v) == lead + Expanded(c, m, segs, i, v)
            case Image =>
              i < |m.images| &&
              ((lead + [VisionStart]) + Repeat(ImagePad, ImageTokens(c, m.images[i]))) + ([VisionEnd] + Expanded(c, m, segs[1..], i + 1, v))
              == lead + Expanded(c, m, segs, i, v)
            case Video =>
              v < |m.videos| && |m.videos| == |m.timestamps| &&
              (lead + VideoTokens(c, m, v)) + ([] + Expanded(c, m, segs[1..], i, v + 1)) == lead + Expanded(c, m, segs, i, v)
  {
    hide VideoTokens, ImageTokens, Repeat, ImageBlock;
    match segs[0]
    case Plain(words) =>
      assert (lead + words) + Expanded(c, m, segs[1..], i, v) == lead + (words + Expanded(c, m, segs[1..], i, v));
    case Image =>
      BlockParts(lead, ImageTokens(c, m.images[i]), Expanded(c, m, segs[1..], i + 1, v));
    case Video =>
      var later := Expanded(c, m, segs[1..], i, v + 1);
      assert (lead + VideoTokens(c, m, v)) + ([] + later) == lead + (VideoTokens(c, m, v) + later);
  }

  lemma {:induction false} NoPadsConcat(a: seq<Token>, b: seq<Token>)
    ensures NoPads(a) && NoPads(b) ==> NoPads(a + b)
    ensures NoPads([]) && NoPads([VisionEnd])
  {
  }

  lemma {:induction false} BlockParts(lead: seq<Token>, n: nat, later: seq<Token>)
    ensures ((lead + [VisionStart]) + Repeat(ImagePad, n)) + ([VisionEnd] + later) == lead + (ImageBlock(n) + later)
  {
  }
}
