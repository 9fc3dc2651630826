/** Expansion and recovery agree exactly when every medium of the prompt stands for
    a token: the converse half and the whole theorem. */
module VisionAgreement {
  import opened Wrappers
  import opened VisionPrompt
  import opened VisionSpans
  import opened VisionRecovery

  // ----- What a scan can find -----

  predicate AllHoldPads(spans: Option<seq<Span>>) {
    spans.Some? ==> forall k | 0 <= k < |spans.value| :: spans.value[k].length > 0
  }

  lemma {:induction false} BehindHoldsPads(s: Span, rest: Option<seq<Span>>)
    requires s.length > 0 && AllHoldPads(rest)
    ensures AllHoldPads(Behind(s, rest))
  {
  }

  /** Every span holds at least its first pad. */
  lemma {:induction false} SpansHoldPads(p: seq<Token>, from: nat, mm: nat, items: nat, videos: seq<Grid>, vid: nat, left: nat)
    requires from <= |p|
    ensures AllHoldPads(Spans(p, from, mm, items, videos, vid, left))
    decreases |p| - from
  {
    hide NextBlock, AllHoldPads, Behind;
    match NextBlock(p, from)
    case NoBlock => NothingHolds();
    case Unclosed => NothingHolds();
    case Block(s, e) =>
      var span := Span(s + 1, e - s - 1);
      if p[s + 1] == ImagePad {
        SpansHoldPads(p, e + 1, mm + 1, items, videos, vid, left);
        BehindHoldsPads(span, Spans(p, e + 1, mm + 1, items, videos, vid, left));
        NothingHolds();
      } else if p[s + 1] == VideoPad {
        if left > 0 {
          SpansHoldPads(p, e + 1, mm, items, videos, vid, left - 1);
        } else if vid < |videos| && videos[vid].t > 0 {
          SpansHoldPads(p, e + 1, mm + 1, items, videos, vid + 1, videos[vid].t - 1);
          BehindHoldsPads(span, Spans(p, e + 1, mm + 1, items, videos, vid + 1, videos[vid].t - 1));
        }
        NothingHolds();
      } else {
        SpansHoldPads(p, e + 1, mm, items, videos, vid, left);
      }
  }

  lemma {:induction false} NothingHolds()
    ensures AllHoldPads(None) && AllHoldPads(Some([]))
  {
  }

  predicate NoEmptyRun(runs: seq<(Token, nat)>) {
    forall k | 0 <= k < |runs| :: runs[k].1 > 0
  }

  lemma {:induction false} RunsCons(t: Token, n: nat, later: seq<(Token, nat)>)
    ensures NoEmptyRun([(t, n)] + later) <==> n > 0 && NoEmptyRun(later)
    ensures |[(t, n)] + later| == 1 + |later|
  {
    var runs := [(t, n)] + later;
    assert runs[0] == (t, n);
    assert forall k | 0 <= k < |later| :: later[k] == runs[k + 1];
  }

  /** One run per medium, and none is empty exactly when all stand for tokens. */
  lemma {:induction false} RunsPositive(c: Config, m: Media, segs: seq<Segment>, i: nat, v: nat)
    requires Usable(c, m) && i + Images(segs) <= |m.images| && v + Videos(segs) <= |m.videos|
    ensures var runs := MediaRuns(c, m, segs, i, v);
            && |runs| == Images(segs) + Videos(segs)
            && (NoEmptyRun(runs) <==> TokensPositive(c, m, segs, i, v))
    decreases |segs|
  {
    hide ImageTokens, FrameTokens, TokensPositive, NoEmptyRun;
    if segs == [] {
      NothingPositive(c, m, i, v);
    } else {
      PositiveRest(c, m, segs, i, v);
      match segs[0]
      case Plain(_) => RunsPositive(c, m, segs[1..], i, v);
      case Image =>
        RunsPositive(c, m, segs[1..], i + 1, v);
        RunsCons(ImagePad, ImageTokens(c, m.images[i]), MediaRuns(c, m, segs[1..], i + 1, v));
      case Video =>
        RunsPositive(c, m, segs[1..], i, v + 1);
        RunsCons(VideoPad, FrameTokens(c, m.videos[v]), MediaRuns(c, m, segs[1..], i, v + 1));
    }
  }

  lemma {:induction false} NothingPositive(c: Config, m: Media, i: nat, v: nat)
    requires Usable(c, m) && i <= |m.images| && v <= |m.videos|
    ensures Images([]) == Videos([]) == 0 && TokensPositive(c, m, [], i, v) && NoEmptyRun([])
  {
  }

  predicate AtMost(spans: Option<seq<Span>>, n: int) {
    spans.Some? ==> |spans.value| <= n
  }

  lemma {:induction false} OneMore(s: Span, rest: Option<seq<Span>>, n: int)
    requires AtMost(rest, n)
    ensures AtMost(Behind(s, rest), n + 1)
  {
  }

  lemma {:induction false} Fewer(spans: Option<seq<Span>>, n: int, n': int)
    requires AtMost(spans, n) && n <= n'
    ensures AtMost(spans, n')
  {
  }

  // ----- A video without frames -----

  /** A frame of no video, or of a video that has none, stops the scan. */
  lemma {:induction false} FrameOfNothing(p: seq<Token>, from: nat, lead: seq<Token>, n: nat, rest: seq<Token>,
                                          mm: nat, items: nat, videos: seq<Grid>, vid: nat)
    requires from <= |p| && p[from..] == (lead + ([VisionStart] + Repeat(VideoPad, n) + [VisionEnd])) + rest
    requires IsText(lead) && n > 0 && (vid < |videos| ==> videos[vid].t == 0)
    ensures Spans(p, from, mm, items, videos, vid, 0).None?
  {
    hide NextBlock, Repeat, IsText;
    BlockAt(p, from, lead, VideoPad, n, rest);
  }

  /** While the next video is one without frames, only images are found. */
  lemma {:induction false} Stalled(c: Config, m: Media, p: seq<Token>, from: nat, lead: seq<Token>,
                                   segs: seq<Segment>, i: nat, v: nat, vid: nat, mm: nat, items: nat)
    requires Suffices(c, m, segs, i, v) && from <= |p| && IsText(lead)
    requires mm + Images(segs) <= items && vid < |m.videos| && m.videos[vid].t == 0
    requires (SufficesCounts(c, m, segs, i, v); TokensPositive(c, m, segs, i, v))
    requires (SufficesCounts(c, m, segs, i, v); p[from..] == lead + Expanded(c, m, segs, i, v))
    ensures AtMost(Spans(p, from, mm, items, m.videos, vid, 0), Images(segs))
    decreases |segs|
  {
    hide Spans, NextBlock, Suffices, IsText, ImageTokens, FrameTokens, StampTexts, VideoTokens, ImageBlock, TokensPositive, Frames, Repeat;
    SufficesCounts(c, m, segs, i, v);
    if segs == [] {
      assert lead + [] == lead;
      ScanText(p, from, mm, items, m.videos, vid);
    } else {
      SufficesRest(c, m, segs, i, v);
      PositiveRest(c, m, segs, i, v);
      match segs[0] {
        case Plain(words) =>
          var rest := Expanded(c, m, segs[1..], i, v);
          assert lead + (words + rest) == (lead + words) + rest;
          TextConcat(lead, words);
          Stalled(c, m, p, from, lead + words, segs[1..], i, v, vid, mm, items);
        case Image =>
          var rest := Expanded(c, m, segs[1..], i + 1, v);
          RecoverImage(c, m, p, from, lead, m.images[i], rest, mm, items, vid);
          TextConcat(lead, lead);
          assert [] + rest == rest;
          Stalled(c, m, p, from + |lead| + ImageTokens(c, m.images[i]) + 2, [], segs[1..], i + 1, v, vid, mm + 1, items);
        case Video =>
          var rest := Expanded(c, m, segs[1..], i, v + 1);
          if m.videos[v].t == 0 {
            NoFrames(c, m, v);
            assert lead + ([] + rest) == lead + rest;
            Stalled(c, m, p, from, lead, segs[1..], i, v + 1, vid, mm, items);
          } else {
            var st, n := StampTexts(c, m, v), FrameTokens(c, m.videos[v]);
            FirstFrame(c, m, v, rest);
            var markers, more := [VisionStart] + Repeat(VideoPad, n) + [VisionEnd], Frames(st[1..], n) + rest;
            assert lead + ((st[0] + markers) + more) == ((lead + st[0]) + markers) + more;
            TextConcat(lead, st[0]);
            FrameOfNothing(p, from, lead + st[0], n, more, mm, items, m.videos, vid);
          }
      }
    }
  }

  lemma {:induction false} NoFrames(c: Config, m: Media, v: nat)
    requires Usable(c, m) && v < |m.videos| && m.videos[v].t == 0
    ensures VideoTokens(c, m, v) == []
  {
    hide Stamps;
  }

  /** A used video without frames costs its span, or the whole scan. */
  lemma {:induction false} SpansFallShort(c: Config, m: Media, p: seq<Token>, from: nat, lead: seq<Token>,
                                          segs: seq<Segment>, i: nat, v: nat, mm: nat, items: nat)
    requires Suffices(c, m, segs, i, v) && from <= |p| && IsText(lead) && mm + Images(segs) + Videos(segs) <= items
    requires (SufficesCounts(c, m, segs, i, v); TokensPositive(c, m, segs, i, v) && !FramesPositive(m, segs, v))
    requires (SufficesCounts(c, m, segs, i, v); p[from..] == lead + Expanded(c, m, segs, i, v))
    ensures AtMost(Spans(p, from, mm, items, m.videos, v, 0), Images(segs) + Videos(segs) - 1)
    decreases |segs|
  {
    hide Spans, NextBlock, Suffices, IsText, ImageTokens, FrameTokens, StampTexts, VideoTokens, ImageBlock, TokensPositive, FramesPositive,
         AtMost, Behind;
    SufficesCounts(c, m, segs, i, v);
    if segs == [] {
      NothingToShow(m, v);
    } else {
      SufficesRest(c, m, segs, i, v);
      PositiveRest(c, m, segs, i, v);
      FramesRest(m, segs, v);
      match segs[0] {
        case Plain(words) =>
          var rest := Expanded(c, m, segs[1..], i, v);
          assert lead + (words + rest) == (lead + words) + rest;
          TextConcat(lead, words);
          SpansFallShort(c, m, p, from, lead + words, segs[1..], i, v, mm, items);
        case Image =>
          var rest := Expanded(c, m, segs[1..], i + 1, v);
          RecoverImage(c, m, p, from, lead, m.images[i], rest, mm, items, v);
          TextConcat(lead, lead);
          assert [] + rest == rest;
          var n := ImageTokens(c, m.images[i]);
          var next := from + |lead| + n + 2;
          SpansFallShort(c, m, p, next, [], segs[1..], i + 1, v, mm + 1, items);
          OneMore(Span(from + |lead| + 1, n), Spans(p, next, mm + 1, items, m.videos, v, 0), Images(segs) + Videos(segs) - 2);
        case Video =>
          var rest := Expanded(c, m, segs[1..], i, v + 1);
          if m.videos[v].t == 0 {
            NoFrames(c, m, v);
            assert lead + ([] + rest) == lead + rest;
            Stalled(c, m, p, from, lead, segs[1..], i, v + 1, v, mm, items);
            Fewer(Spans(p, from, mm, items, m.videos, v, 0), Images(segs), Images(segs) + Videos(segs) - 1);
          } else {
            RecoverVideo(c, m, p, from, lead, rest, mm, items, v);
            TextConcat(lead, lead);
            assert [] + rest == rest;
            var next := from + |lead| + |VideoTokens(c, m, v)|;
            SpansFallShort(c, m, p, next, [], segs[1..], i, v + 1, mm + 1, items);
            OneMore(Span(from + |lead| + |StampTexts(c, m, v)[0]| + 1, FrameTokens(c, m.videos[v])),
                    Spans(p, next, mm + 1, items, m.videos, v + 1, 0), Images(segs) + Videos(segs) - 2);
          }
      }
    }
  }

  lemma {:induction false} NothingToShow(m: Media, v: nat)
    requires v <= |m.videos|
    ensures Videos([]) == 0 && FramesPositive(m, [], v)
  {
  }

  // ----- The theorem -----

  /** For every prompt that mixes text, images and videos with wrapped pads:
      expansion succeeds, and scanning its result gives every media item, in order,
      exactly its own full pad run if and only if every image and frame used stands
      for a token and every video used has a frame. */
  lemma {:induction false} ExpansionAndRecoveryAgree(c: Config, m: Media, segs: seq<Segment>, items: nat)
    requires Suffices(c, m, segs, 0, 0) && Images(segs) + Videos(segs) <= items
    ensures (SufficesCounts(c, m, segs, 0, 0);
             var q := Expand(c, m, Prompt(segs), 0, 0, 0);
             q.Some? &&
             var spans := Spans(q.value, 0, 0, items, m.videos, 0, 0);
             spans.Some? && InStep(q.value, 0, spans.value, MediaRuns(c, m, segs, 0, 0))
             <==> TokensPositive(c, m, segs, 0, 0) && FramesPositive(m, segs, 0))
  {
    hide *;
    SufficesCounts(c, m, segs, 0, 0);
    var p := Prompt(segs);
    assert p[0..] == [] + p;
    NoPadsConcat([], []);
    TextConcat([], []);
    AtStart(p);
    ExpandSegments(c, m, p, 0, [], segs, 0, 0);
    var q := Expanded(c, m, segs, 0, 0);
    assert [] + q == q && q[0..] == q;
    var spans := Spans(q, 0, 0, items, m.videos, 0, 0);
    if TokensPositive(c, m, segs, 0, 0) && FramesPositive(m, segs, 0) {
      RecoverSegments(c, m, q, 0, [], segs, 0, 0, 0, items);
      SpansGood(c, m, q, 0, segs, 0, 0);
    }
    if spans.Some? && InStep(q, 0, spans.value, MediaRuns(c, m, segs, 0, 0)) {
      InStepIsPositive(c, m, q, segs, items, spans.value);
    }
  }

  lemma {:induction false} InStepIsPositive(c: Config, m: Media, q: seq<Token>, segs: seq<Segment>, items: nat, spans: seq<Span>)
    requires Suffices(c, m, segs, 0, 0) && Images(segs) + Videos(segs) <= items
    requires (SufficesCounts(c, m, segs, 0, 0); q == Expanded(c, m, segs, 0, 0) && InStep(q, 0, spans, MediaRuns(c, m, segs, 0, 0)))
    requires Spans(q, 0, 0, items, m.videos, 0, 0) == Some(spans)
    ensures (SufficesCounts(c, m, segs, 0, 0); TokensPositive(c, m, segs, 0, 0) && FramesPositive(m, segs, 0))
  {
    hide *;
    SufficesCounts(c, m, segs, 0, 0);
    var runs := MediaRuns(c, m, segs, 0, 0);
    SpansHoldPads(q, 0, 0, items, m.videos, 0, 0);
    InStepCounts(q, spans, runs);
    RunsPositive(c, m, segs, 0, 0);
    assert q[0..] == [] + q;
    TextConcat([], []);
    if !FramesPositive(m, segs, 0) {
      SpansFallShort(c, m, q, 0, [], segs, 0, 0, 0, items);
      AtMostIs(spans, Images(segs) + Videos(segs) - 1);
      assert false;
    }
  }

  lemma {:induction false} AtMostIs(spans: seq<Span>, n: int)
    requires AtMost(Some(spans), n)
    ensures |spans| <= n
  {
  }

  lemma {:induction false} InStepCounts(q: seq<Token>, spans: seq<Span>, runs: seq<(Token, nat)>)
    requires InStep(q, 0, spans, runs)
    requires AllHoldPads(Some(spans))
    ensures |spans| == |runs| && NoEmptyRun(runs)
  {
  }

  lemma {:induction false} AtStart(p: seq<Token>)
    ensures Settled(p, 0)
  {
  }
}
