/** Expansion and span recovery stay in step: every media item gets exactly its own
    pad run back. */
module VisionRecovery {
  import opened Wrappers
  import opened VisionPrompt
  import opened VisionSpans

  lemma {:induction false} IndexIs(p: seq<Token>, t: Token, from: nat, k: nat)
    requires from <= k < |p| && p[k] == t && forall j | from <= j < k :: p[j] != t
    ensures IndexOf(p, t, from) == k
  {
  }

  /** The next block behind some text. */
  lemma {:induction false} BlockAt(p: seq<Token>, from: nat, lead: seq<Token>, pad: Token, n: nat, rest: seq<Token>)
    requires from <= |p| && p[from..] == (lead + ([VisionStart] + Repeat(pad, n) + [VisionEnd])) + rest
    requires IsText(lead) && IsPad(pad)
    ensures var s := from + |lead|; var e := s + 1 + n;
            && NextBlock(p, from) == Block(s, e) && e < |p| && p[e + 1..] == rest
            && p[s] == VisionStart && p[e] == VisionEnd && (forall j | s < j < e :: p[j] == pad)
  {
    hide Repeat;
    var s, e := from + |lead|, from + |lead| + 1 + n;
    var x := p[from..];
    assert |p| == from + |x|;
    assert forall j | from <= j < |p| :: p[j] == x[j - from];
    assert forall j | from <= j < s :: p[j] == lead[j - from];
    IndexIs(p, VisionStart, from, s);
    assert forall j | s < j < e :: p[j] == Repeat(pad, n)[j - s - 1];
    IndexIs(p, VisionEnd, s + 1, e);
    assert p[e + 1..] == x[e + 1 - from..];
  }

  lemma {:induction false} NoBlockInText(p: seq<Token>, from: nat)
    requires from <= |p| && IsText(p[from..])
    ensures NextBlock(p, from) == NoBlock
  {
    var k := IndexOf(p, VisionStart, from);
    assert forall j | from <= j < |p| :: p[j] == p[from..][j - from];
  }

  lemma {:induction false} OldVideo(p: seq<Token>, from: nat, lead: seq<Token>, n: nat, rest: seq<Token>,
                                    mm: nat, items: nat, videos: seq<Grid>, vid: nat, left: nat)
    requires from <= |p| && p[from..] == (lead + ([VisionStart] + Repeat(VideoPad, n) + [VisionEnd])) + rest
    requires IsText(lead) && n > 0 && left > 0
    ensures var next := from + |lead| + n + 2;
            && next <= |p| && p[next..] == rest
            && Spans(p, from, mm, items, videos, vid, left) == Spans(p, next, mm, items, videos, vid, left - 1)
  {
    hide NextBlock, Repeat, IsText;
    BlockAt(p, from, lead, VideoPad, n, rest);
  }

  /** The later frames of a video are skipped, whatever comes behind them. */
  lemma {:induction false} SkipFrames(p: seq<Token>, from: nat, stamps: seq<seq<Token>>, n: nat, rest: seq<Token>,
                                      mm: nat, items: nat, videos: seq<Grid>, vid: nat)
    requires from <= |p| && p[from..] == Frames(stamps, n) + rest && n > 0
    requires forall f | 0 <= f < |stamps| :: IsText(stamps[f])
    ensures var next := from + |Frames(stamps, n)|;
            && next <= |p| && p[next..] == rest
            && Spans(p, from, mm, items, videos, vid, |stamps|) == Spans(p, next, mm, items, videos, vid, 0)
    decreases |stamps|
  {
    hide Spans, Repeat, IsText;
    if stamps == [] {
      assert [] + rest == rest;
    } else {
      var more := Frames(stamps[1..], n) + rest;
      assert p[from..] == (stamps[0] + ([VisionStart] + Repeat(VideoPad, n) + [VisionEnd])) + more;
      OldVideo(p, from, stamps[0], n, more, mm, items, videos, vid, |stamps|);
      SkipFrames(p, from + |stamps[0]| + 1 + n + 1, stamps[1..], n, rest, mm, items, videos, vid);
    }
  }

  /** Every image and every frame of a video used by the segments stands for a token. */
  predicate TokensPositive(c: Config, m: Media, segs: seq<Segment>, i: nat, v: nat)
    requires Usable(c, m) && i + Images(segs) <= |m.images| && v + Videos(segs) <= |m.videos|
  {
    && (forall k | i <= k < i + Images(segs) :: ImageTokens(c, m.images[k]) > 0)
    && (forall k | v <= k < v + Videos(segs) :: FrameTokens(c, m.videos[k]) > 0)
  }

  /** Every video used by the segments has a frame. */
  predicate FramesPositive(m: Media, segs: seq<Segment>, v: nat)
    requires v + Videos(segs) <= |m.videos|
  {
    forall k | v <= k < v + Videos(segs) :: m.videos[k].t > 0
  }

  lemma {:induction false} PositiveRest(c: Config, m: Media, segs: seq<Segment>, i: nat, v: nat)
    requires Usable(c, m) && i + Images(segs) <= |m.images| && v + Videos(segs) <= |m.videos| && segs != []
    ensures TokensPositive(c, m, segs, i, v) <==>
            match segs[0]
            case Plain(_) => TokensPositive(c, m, segs[1..], i, v)
            case Image => i < |m.images| && TokensPositive(c, m, segs[1..], i + 1, v) && ImageTokens(c, m.images[i]) > 0
            case Video => v < |m.videos| && TokensPositive(c, m, segs[1..], i, v + 1) && FrameTokens(c, m.videos[v]) > 0
  {
    hide ImageTokens, FrameTokens;
  }

  lemma {:induction false} FramesRest(m: Media, segs: seq<Segment>, v: nat)
    requires v + Videos(segs) <= |m.videos| && segs != []
    ensures FramesPositive(m, segs, v) <==>
            if segs[0].Video? then v < |m.videos| && m.videos[v].t > 0 && FramesPositive(m, segs[1..], v + 1)
            else FramesPositive(m, segs[1..], v)
  {
  }

  /** The spans the media of the segments should get, the text starting at `offset`. */
  function SpansOf(c: Config, m: Media, segs: seq<Segment>, i: nat, v: nat, offset: nat): seq<Span>
    requires Usable(c, m) && i + Images(segs) <= |m.images| && v + Videos(segs) <= |m.videos|
    requires FramesPositive(m, segs, v)
    decreases |segs|
  {
    if segs == [] then []
    else
      FramesRest(m, segs, v);
      match segs[0]
      case Plain(words) => SpansOf(c, m, segs[1..], i, v, offset + |words|)
      case Image =>
        var n := ImageTokens(c, m.images[i]);
        [Span(offset + 1, n)] + SpansOf(c, m, segs[1..], i + 1, v, offset + n + 2)
      case Video =>
        [Span(offset + |StampTexts(c, m, v)[0]| + 1, FrameTokens(c, m.videos[v]))]
        + SpansOf(c, m, segs[1..], i, v + 1, offset + |VideoTokens(c, m, v)|)
  }

  /** The kind and the number of the pads each media item stands for, in order. */
  function MediaRuns(c: Config, m: Media, segs: seq<Segment>, i: nat, v: nat): seq<(Token, nat)>
    requires Usable(c, m) && i + Images(segs) <= |m.images| && v + Videos(segs) <= |m.videos|
    decreases |segs|
  {
    if segs == [] then []
    else match segs[0]
      case Plain(_) => MediaRuns(c, m, segs[1..], i, v)
      case Image => [(ImagePad, ImageTokens(c, m.images[i]))] + MediaRuns(c, m, segs[1..], i + 1, v)
      case Video => [(VideoPad, FrameTokens(c, m.videos[v]))] + MediaRuns(c, m, segs[1..], i, v + 1)
  }

  lemma {:induction false} FirstFrame(c: Config, m: Media, v: nat, rest: seq<Token>)
    requires Usable(c, m) && v < |m.videos| && m.videos[v].t > 0
    ensures var st, n := StampTexts(c, m, v), FrameTokens(c, m.videos[v]);
            VideoTokens(c, m, v) + rest
            == (st[0] + ([VisionStart] + Repeat(VideoPad, n) + [VisionEnd])) + (Frames(st[1..], n) + rest)
            && |VideoTokens(c, m, v)| == |st[0]| + n + 2 + |Frames(st[1..], n)|
  {
    hide StampTexts, FrameTokens, Repeat;
    var st, n := StampTexts(c, m, v), FrameTokens(c, m.videos[v]);
    var front := st[0] + ([VisionStart] + Repeat(VideoPad, n) + [VisionEnd]);
    assert Frames(st, n) == Frame(st[0], n) + Frames(st[1..], n);
    assert (front + Frames(st[1..], n)) + rest == front + (Frames(st[1..], n) + rest);
  }

  lemma {:induction false} RecoverImage(c: Config, m: Media, p: seq<Token>, from: nat, lead: seq<Token>, g: Grid,
                                        rest: seq<Token>, mm: nat, items: nat, v: nat)
    requires Usable(c, m) && from <= |p| && IsText(lead) && ImageTokens(c, g) > 0 && mm < items
    requires p[from..] == lead + (ImageBlock(ImageTokens(c, g)) + rest)
    ensures var n := ImageTokens(c, g); var next := from + |lead| + n + 2;
            && next <= |p| && p[next..] == rest
            && Spans(p, from, mm, items, m.videos, v, 0) ==
               Behind(Span(from + |lead| + 1, n), Spans(p, next, mm + 1, items, m.videos, v, 0))
  {
    hide NextBlock, ImageTokens, Repeat, IsText;
    var n := ImageTokens(c, g);
    assert lead + (ImageBlock(n) + rest) == (lead + ([VisionStart] + Repeat(ImagePad, n) + [VisionEnd])) + rest;
    BlockAt(p, from, lead, ImagePad, n, rest);
  }

  /** An image that stands for no token leaves its item to the next medium. */
  lemma {:induction false} EmptyImageShiftsItems(p: seq<Token>, from: nat, lead: seq<Token>, rest: seq<Token>,
                                                 mm: nat, items: nat, videos: seq<Grid>, v: nat)
    requires from <= |p| && IsText(lead) && p[from..] == lead + (ImageBlock(0) + rest)
    ensures var next := from + |lead| + 2;
            && next <= |p| && p[next..] == rest
            && Spans(p, from, mm, items, videos, v, 0) == Spans(p, next, mm, items, videos, v, 0)
  {
    hide NextBlock, IsText;
    assert lead + (ImageBlock(0) + rest) == (lead + ([VisionStart] + Repeat(ImagePad, 0) + [VisionEnd])) + rest;
    BlockAt(p, from, lead, ImagePad, 0, rest);
  }

  /** The first frame of a video takes an item and announces the other frames. */
  lemma {:induction false} NewVideo(p: seq<Token>, from: nat, lead: seq<Token>, n: nat, rest: seq<Token>,
                                    mm: nat, items: nat, videos: seq<Grid>, v: nat)
    requires from <= |p| && p[from..] == (lead + ([VisionStart] + Repeat(VideoPad, n) + [VisionEnd])) + rest
    requires IsText(lead) && n > 0 && v < |videos| && videos[v].t > 0 && mm < items
    ensures var next := from + |lead| + n + 2;
            && next <= |p| && p[next..] == rest
            && Spans(p, from, mm, items, videos, v, 0) ==
               Behind(Span(from + |lead| + 1, n), Spans(p, next, mm + 1, items, videos, v + 1, videos[v].t - 1))
  {
    hide NextBlock, Repeat, IsText;
    BlockAt(p, from, lead, VideoPad, n, rest);
  }

  lemma {:induction false} RecoverVideo(c: Config, m: Media, p: seq<Token>, from: nat, lead: seq<Token>,
                                        rest: seq<Token>, mm: nat, items: nat, v: nat)
    requires Usable(c, m) && from <= |p| && IsText(lead) && v < |m.videos| && mm < items
    requires m.videos[v].t > 0 && FrameTokens(c, m.videos[v]) > 0
    requires forall f | 0 <= f < m.videos[v].t :: IsText(StampTexts(c, m, v)[f])
    requires p[from..] == lead + (VideoTokens(c, m, v) + rest)
    ensures var next := from + |lead| + |VideoTokens(c, m, v)|;
            && next <= |p| && p[next..] == rest
            && Spans(p, from, mm, items, m.videos, v, 0) ==
               Behind(Span(from + |lead| + |StampTexts(c, m, v)[0]| + 1, FrameTokens(c, m.videos[v])),
                      Spans(p, next, mm + 1, items, m.videos, v + 1, 0))
  {
    hide Spans, NextBlock, StampTexts, FrameTokens, VideoTokens, Repeat, IsText, Frames;
    var st, n := StampTexts(c, m, v), FrameTokens(c, m.videos[v]);
    FirstFrame(c, m, v, rest);
    var more := Frames(st[1..], n) + rest;
    var markers := [VisionStart] + Repeat(VideoPad, n) + [VisionEnd];
    assert lead + ((st[0] + markers) + more) == ((lead + st[0]) + markers) + more;
    TextConcat(lead, st[0]);
    NewVideo(p, from, lead + st[0], n, more, mm, items, m.videos, v);
    var next := from + |lead| + |st[0]| + n + 2;
    SkipFrames(p, next, st[1..], n, rest, mm + 1, items, m.videos, v + 1);
  }

  lemma {:induction false} TextConcat(a: seq<Token>, b: seq<Token>)
    ensures IsText(a) && IsText(b) ==> IsText(a + b)
    ensures IsText([])
  {
  }

  /** Scanning the expanded segments finds exactly their spans: no later frame of a
      video takes an item, and no item is shifted. */
  lemma {:induction false} RecoverSegments(c: Config, m: Media, p: seq<Token>, from: nat, lead: seq<Token>,
                                           segs: seq<Segment>, i: nat, v: nat, mm: nat, items: nat)
    requires Suffices(c, m, segs, i, v) && from <= |p| && IsText(lead) && mm + Images(segs) + Videos(segs) <= items
    requires (SufficesCounts(c, m, segs, i, v); TokensPositive(c, m, segs, i, v) && FramesPositive(m, segs, v))
    requires (SufficesCounts(c, m, segs, i, v); p[from..] == lead + Expanded(c, m, segs, i, v))
    ensures (SufficesCounts(c, m, segs, i, v);
             Spans(p, from, mm, items, m.videos, v, 0) == Some(SpansOf(c, m, segs, i, v, from + |lead|)))
    decreases |segs|
  {
    hide Spans, NextBlock, Suffices, IsText, ImageTokens, FrameTokens, StampTexts, VideoTokens, ImageBlock, TokensPositive, FramesPositive;
    SufficesCounts(c, m, segs, i, v);
    if segs == [] {
      assert lead + [] == lead;
      ScanText(p, from, mm, items, m.videos, v);
    } else {
      SufficesRest(c, m, segs, i, v);
      PositiveRest(c, m, segs, i, v);
      FramesRest(m, segs, v);
      match segs[0] {
        case Plain(words) =>
          var rest := Expanded(c, m, segs[1..], i, v);
          assert lead + (words + rest) == (lead + words) + rest;
          TextConcat(lead, words);
          RecoverSegments(c, m, p, from, lead + words, segs[1..], i, v, mm, items);
        case Image =>
          var rest := Expanded(c, m, segs[1..], i + 1, v);
          RecoverImage(c, m, p, from, lead, m.images[i], rest, mm, items, v);
          TextConcat(lead, lead);
          assert [] + rest == rest;
          RecoverSegments(c, m, p, from + |lead| + ImageTokens(c, m.images[i]) + 2, [], segs[1..], i + 1, v, mm + 1, items);
        case Video =>
          var rest := Expanded(c, m, segs[1..], i, v + 1);
          RecoverVideo(c, m, p, from, lead, rest, mm, items, v);
          TextConcat(lead, lead);
          assert [] + rest == rest;
          RecoverSegments(c, m, p, from + |lead| + |VideoTokens(c, m, v)|, [], segs[1..], i, v + 1, mm + 1, items);
      }
    }
  }

  lemma {:induction false} ScanText(p: seq<Token>, from: nat, mm: nat, items: nat, videos: seq<Grid>, vid: nat)
    requires from <= |p| && IsText(p[from..])
    ensures Spans(p, from, mm, items, videos, vid, 0) == Some([])
  {
    NoBlockInText(p, from);
  }

  /** `span` is exactly a full run of `n` pads between its two markers. */
  predicate FullRun(p: seq<Token>, span: Span, pad: Token, n: nat) {
    && span.length == n && 0 < span.offset && span.offset + n < |p|
    && p[span.offset - 1] == VisionStart && p[span.offset + n] == VisionEnd
    && forall j | span.offset <= j < span.offset + n :: p[j] == pad
  }

  /** Spans from `from` on, in order and apart, each the full run of its item. */
  predicate InStep(p: seq<Token>, from: nat, spans: seq<Span>, runs: seq<(Token, nat)>) {
    && |spans| == |runs|
    && (forall k | 0 <= k < |spans| :: FullRun(p, spans[k], runs[k].0, runs[k].1) && from < spans[k].offset)
    && (forall j, k | 0 <= j < k < |spans| :: spans[j].offset + spans[j].length < spans[k].offset)
  }

  lemma {:induction false} InStepCons(p: seq<Token>, from: nat, s: Span, run: (Token, nat), next: nat,
                                      spans: seq<Span>, runs: seq<(Token, nat)>)
    requires FullRun(p, s, run.0, run.1) && from < s.offset && s.offset + s.length <= next && from <= next
    requires InStep(p, next, spans, runs)
    ensures InStep(p, from, [s] + spans, [run] + runs)
  {
    hide FullRun;
    var ss, rs := [s] + spans, [run] + runs;
    forall k | 0 <= k < |ss| ensures FullRun(p, ss[k], rs[k].0, rs[k].1) && from < ss[k].offset {
      assert k > 0 ==> ss[k] == spans[k - 1] && rs[k] == runs[k - 1];
    }
  }

  lemma {:induction false} InStepLater(p: seq<Token>, from: nat, next: nat, spans: seq<Span>, runs: seq<(Token, nat)>)
    requires InStep(p, next, spans, runs) && from <= next
    ensures InStep(p, from, spans, runs)
  {
    hide FullRun;
  }

  lemma {:induction false} RunAt(p: seq<Token>, from: nat, lead: seq<Token>, pad: Token, n: nat, rest: seq<Token>)
    requires from <= |p| && p[from..] == (lead + ([VisionStart] + Repeat(pad, n) + [VisionEnd])) + rest
    requires IsText(lead) && IsPad(pad)
    ensures FullRun(p, Span(from + |lead| + 1, n), pad, n)
    ensures from + |lead| + n + 2 <= |p| && p[from + |lead| + n + 2..] == rest
  {
    hide NextBlock, Repeat, IsText;
    BlockAt(p, from, lead, pad, n, rest);
  }

  lemma {:induction false} SpansGood(c: Config, m: Media, p: seq<Token>, from: nat, segs: seq<Segment>, i: nat, v: nat)
    requires Suffices(c, m, segs, i, v) && from <= |p|
    requires (SufficesCounts(c, m, segs, i, v); FramesPositive(m, segs, v))
    requires (SufficesCounts(c, m, segs, i, v); p[from..] == Expanded(c, m, segs, i, v))
    ensures (SufficesCounts(c, m, segs, i, v);
             InStep(p, from, SpansOf(c, m, segs, i, v, from), MediaRuns(c, m, segs, i, v)))
    decreases |segs|
  {
    hide Suffices, IsText, ImageTokens, FrameTokens, StampTexts, VideoTokens, Repeat, FullRun, InStep, Frames, FramesPositive;
    SufficesCounts(c, m, segs, i, v);
    if segs == [] {
      NothingInStep(p, from);
    } else {
      SufficesRest(c, m, segs, i, v);
      FramesRest(m, segs, v);
      match segs[0] {
        case Plain(words) =>
          var rest := Expanded(c, m, segs[1..], i, v);
          assert p[from + |words|..] == p[from..][|words|..] == rest;
          SpansGood(c, m, p, from + |words|, segs[1..], i, v);
          InStepLater(p, from, from + |words|, SpansOf(c, m, segs[1..], i, v, from + |words|), MediaRuns(c, m, segs[1..], i, v));
        case Image =>
          var n, rest := ImageTokens(c, m.images[i]), Expanded(c, m, segs[1..], i + 1, v);
          TextConcat([], []);
          assert ImageBlock(n) + rest == ([] + ([VisionStart] + Repeat(ImagePad, n) + [VisionEnd])) + rest;
          RunAt(p, from, [], ImagePad, n, rest);
          SpansGood(c, m, p, from + n + 2, segs[1..], i + 1, v);
          InStepCons(p, from, Span(from + 1, n), (ImagePad, n), from + n + 2,
                     SpansOf(c, m, segs[1..], i + 1, v, from + n + 2), MediaRuns(c, m, segs[1..], i + 1, v));
        case Video =>
          var st, n, rest := StampTexts(c, m, v), FrameTokens(c, m.videos[v]), Expanded(c, m, segs[1..], i, v + 1);
          FirstFrame(c, m, v, rest);
          RunAt(p, from, st[0], VideoPad, n, Frames(st[1..], n) + rest);
          var next := from + |VideoTokens(c, m, v)|;
          assert p[next..] == p[from..][|VideoTokens(c, m, v)|..] == rest;
          SpansGood(c, m, p, next, segs[1..], i, v + 1);
          InStepCons(p, from, Span(from + |st[0]| + 1, n), (VideoPad, n), next,
                     SpansOf(c, m, segs[1..], i, v + 1, next), MediaRuns(c, m, segs[1..], i, v + 1));
      }
    }
  }

  lemma {:induction false} NothingInStep(p: seq<Token>, from: nat)
    ensures InStep(p, from, [], [])
  {
  }
}
