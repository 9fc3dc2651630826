/** When expansion and scan give up, for every prompt whatever its tokens. */
module VisionFailures {
  import opened Wrappers
  import opened VisionPrompt
  import opened VisionSpans
  import opened VisionRecovery
  import opened VisionAgreement

  // ----- Expansion -----

  function CountOf(p: seq<Token>, t: Token): nat {
    if p == [] then 0 else (if p[0] == t then 1 else 0) + CountOf(p[1..], t)
  }

  lemma {:induction false} CountConcat(a: seq<Token>, b: seq<Token>, t: Token)
    ensures CountOf(a + b, t) == CountOf(a, t) + CountOf(b, t)
    decreases |a|
  {
    if a == [] {
      assert a + b == b;
    } else {
      CountConcat(a[1..], b, t);
      assert (a + b)[1..] == a[1..] + b && (a + b)[0] == a[0];
    }
  }

  lemma {:induction false} CountNone(p: seq<Token>, t: Token)
    requires t !in p
    ensures CountOf(p, t) == 0
    decreases |p|
  {
    if p != [] {
      assert forall x | x in p[1..] :: x in p;
      CountNone(p[1..], t);
    }
  }

  lemma {:induction false} CountSlices(p: seq<Token>, lo: nat, hi: nat, t: Token)
    requires lo <= hi <= |p|
    ensures CountOf(p[lo..], t) == CountOf(p[lo..hi], t) + CountOf(p[hi..], t)
  {
    hide CountOf;
    assert p[lo..] == p[lo..hi] + p[hi..];
    CountConcat(p[lo..hi], p[hi..], t);
  }

  /** Up to behind the first pad, only that pad counts. */
  lemma {:induction false} CountToPad(p: seq<Token>, begin: nat, hi: nat, t: Token)
    requires IsPad(t) && begin <= |p| && NextPad(p, begin) < hi <= |p|
    requires hi == NextPad(p, begin) + 1 || (hi == NextPad(p, begin) + 2 && !IsPad(p[NextPad(p, begin) + 1]))
    ensures CountOf(p[begin..], t) == (if p[NextPad(p, begin)] == t then 1 else 0) + CountOf(p[hi..], t)
  {
    hide CountOf, NextPad;
    var pos := NextPad(p, begin);
    CountSlices(p, begin, pos, t);
    CountSlices(p, pos, pos + 1, t);
    CountSlices(p, pos + 1, hi, t);
    CountNone(p[begin..pos], t);
    CountNone(p[pos + 1..hi], t);
    assert p[pos..pos + 1] == [p[pos]];
    CountOne(p[pos], t);
  }

  lemma {:induction false} CountOne(x: Token, t: Token)
    ensures CountOf([x], t) == if x == t then 1 else 0
  {
    assert [x][1..] == [];
  }

  /** The media behind the first ones suffice for the pads that are left. */
  predicate Enough(m: Media, images: nat, videos: nat, i: nat, v: nat)
    requires |m.videos| == |m.timestamps|
  {
    && i + images <= |m.images| && v + videos <= |m.videos|
    && forall k | v <= k < v + videos :: m.timestamps[k] != []
  }

  /** For every prompt: expansion succeeds exactly when there is an image for every
      image pad, and a video with timestamps for every video pad. */
  lemma {:induction false} ExpandsIfEnough(c: Config, m: Media, p: seq<Token>, begin: nat, i: nat, v: nat)
    requires Usable(c, m) && Settled(p, begin) && i <= |m.images| && v <= |m.videos|
    ensures Expand(c, m, p, begin, i, v).Some? <==> Enough(m, CountOf(p[begin..], ImagePad), CountOf(p[begin..], VideoPad), i, v)
    decreases |p| - begin
  {
    hide NextPad, CountOf, VideoTokens, ImageTokens, Repeat;
    var pos := NextPad(p, begin);
    if pos == |p| {
      assert forall x | x in p[begin..] :: !IsPad(x);
      CountNone(p[begin..], ImagePad);
      CountNone(p[begin..], VideoPad);
    } else if p[pos] == ImagePad {
      CountToPad(p, begin, pos + 1, ImagePad);
      CountToPad(p, begin, pos + 1, VideoPad);
      if i < |m.images| {
        ExpandsIfEnough(c, m, p, pos + 1, i + 1, v);
      }
    } else {
      var hi := if Wrapped(p, pos) then pos + 2 else pos + 1;
      CountToPad(p, begin, hi, ImagePad);
      CountToPad(p, begin, hi, VideoPad);
      if v < |m.videos| && m.timestamps[v] != [] {
        ExpandsIfEnough(c, m, p, hi, i, v + 1);
      }
    }
  }

  /** A pad that does not stand between both markers is replaced alone; a single marker
      beside it stays. */
  lemma {:induction false} BarePad(c: Config, m: Media, p: seq<Token>, begin: nat, lead: seq<Token>, pad: Token, rest: seq<Token>, i: nat, v: nat)
    requires Usable(c, m) && Settled(p, begin) && NoPads(lead) && IsPad(pad)
    requires p[begin..] == lead + ([pad] + rest)
    requires (lead != [] && lead[|lead| - 1] == VisionStart) ==> (rest != [] ==> rest[0] != VisionEnd)
    requires if pad == ImagePad then i < |m.images| else v < |m.videos| && m.timestamps[v] != []
    ensures var next := begin + |lead| + 1;
            && next <= |p| && p[next..] == rest && Settled(p, next)
            && Expand(c, m, p, begin, i, v) ==
               if pad == ImagePad then Prepend(lead + Repeat(ImagePad, ImageTokens(c, m.images[i])), Expand(c, m, p, next, i + 1, v))
               else Prepend(lead + VideoTokens(c, m, v), Expand(c, m, p, next, i, v + 1))
  {
    hide NextPad, VideoTokens, ImageTokens, Repeat;
    BarePosition(p, begin, lead, pad, rest);
  }

  lemma {:induction false} BarePosition(p: seq<Token>, begin: nat, lead: seq<Token>, pad: Token, rest: seq<Token>)
    requires Settled(p, begin) && NoPads(lead) && IsPad(pad) && p[begin..] == lead + ([pad] + rest)
    requires (lead != [] && lead[|lead| - 1] == VisionStart) ==> (rest != [] ==> rest[0] != VisionEnd)
    ensures var pos := begin + |lead|;
            && pos < |p| && NextPad(p, begin) == pos && p[pos] == pad && !Wrapped(p, pos)
            && p[begin..pos] == lead && p[pos + 1..] == rest
  {
    hide NextPad, NoPads, IsPad;
    var pos := begin + |lead|;
    BareParts(p, begin, lead, pad, rest);
    LeadHasNone(p, begin, lead);
    NextPadIs(p, begin, pos);
  }

  lemma {:induction false} BareParts(p: seq<Token>, begin: nat, lead: seq<Token>, pad: Token, rest: seq<Token>)
    requires begin <= |p| && p[begin..] == lead + ([pad] + rest)
    ensures var pos := begin + |lead|;
            && pos < |p| && p[pos] == pad && p[begin..pos] == lead && p[pos + 1..] == rest
            && (lead != [] ==> p[pos - 1] == lead[|lead| - 1]) && (rest != [] ==> pos + 1 < |p| && p[pos + 1] == rest[0])
            && (rest == [] ==> pos + 1 == |p|)
  {
    var pos, x := begin + |lead|, p[begin..];
    assert |p| == begin + |x|;
    assert p[pos] == x[|lead|];
    assert p[begin..pos] == x[..|lead|] && p[pos + 1..] == x[|lead| + 1..];
    assert lead != [] ==> p[pos - 1] == x[|lead| - 1];
    assert rest != [] ==> p[pos + 1] == x[|lead| + 1];
  }

  lemma {:induction false} LeadHasNone(p: seq<Token>, begin: nat, lead: seq<Token>)
    requires begin + |lead| <= |p| && p[begin..begin + |lead|] == lead && NoPads(lead)
    ensures forall j | begin <= j < begin + |lead| :: !IsPad(p[j])
  {
    assert forall j | begin <= j < begin + |lead| :: p[j] == lead[j - begin];
  }

  // ----- The scan -----

  /** A start marker without any end marker behind it makes the scan fail. */
  lemma {:induction false} UnclosedMarkerFails(p: seq<Token>, from: nat, k: nat, mm: nat, items: nat, videos: seq<Grid>, vid: nat, left: nat)
    requires from <= k < |p| && p[k] == VisionStart && forall j | k < j < |p| :: p[j] != VisionEnd
    ensures Spans(p, from, mm, items, videos, vid, left).None?
    decreases |p| - from
  {
    hide NextBlock;
    BlockBefore(p, from, k);
    match NextBlock(p, from)
    case Unclosed =>
    case Block(s, e) =>
      if p[s + 1] == ImagePad {
        UnclosedMarkerFails(p, e + 1, k, mm + 1, items, videos, vid, left);
      } else if p[s + 1] == VideoPad {
        if left > 0 {
          UnclosedMarkerFails(p, e + 1, k, mm, items, videos, vid, left - 1);
        } else if vid < |videos| && videos[vid].t > 0 {
          UnclosedMarkerFails(p, e + 1, k, mm + 1, items, videos, vid + 1, videos[vid].t - 1);
        }
      } else {
        UnclosedMarkerFails(p, e + 1, k, mm, items, videos, vid, left);
      }
  }

  lemma {:induction false} BlockBefore(p: seq<Token>, from: nat, k: nat)
    requires from <= k < |p| && p[k] == VisionStart && forall j | k < j < |p| :: p[j] != VisionEnd
    ensures NextBlock(p, from) != NoBlock
    ensures NextBlock(p, from).Block? ==> NextBlock(p, from).end < k
  {
  }

  /** The number of items only matters as a limit: with fewer items than spans the scan
      fails, and otherwise it finds the same spans. */
  lemma {:induction false} ItemsAreALimit(p: seq<Token>, from: nat, mm: nat, items: nat, more: nat, videos: seq<Grid>, vid: nat, left: nat)
    requires from <= |p| && items <= more && mm <= items && Spans(p, from, mm, more, videos, vid, left).Some?
    ensures var spans := Spans(p, from, mm, more, videos, vid, left).value;
            Spans(p, from, mm, items, videos, vid, left) == if mm + |spans| <= items then Some(spans) else None
    decreases |p| - from
  {
    hide NextBlock;
    match NextBlock(p, from)
    case NoBlock =>
    case Unclosed =>
    case Block(s, e) =>
      if p[s + 1] == ImagePad {
        if mm < items { ItemsAreALimit(p, e + 1, mm + 1, items, more, videos, vid, left); }
      } else if p[s + 1] == VideoPad {
        if left > 0 {
          ItemsAreALimit(p, e + 1, mm, items, more, videos, vid, left - 1);
        } else if mm < items {
          ItemsAreALimit(p, e + 1, mm + 1, items, more, videos, vid + 1, videos[vid].t - 1);
        }
      } else {
        ItemsAreALimit(p, e + 1, mm, items, more, videos, vid, left);
      }
  }

  /** An expanded prompt whose media all stand for tokens is scanned successfully
      exactly when there is an item for each of them. */
  lemma {:induction false} ItemsMustSuffice(c: Config, m: Media, segs: seq<Segment>, items: nat)
    requires Suffices(c, m, segs, 0, 0)
    requires (SufficesCounts(c, m, segs, 0, 0); TokensPositive(c, m, segs, 0, 0) && FramesPositive(m, segs, 0))
    ensures (SufficesCounts(c, m, segs, 0, 0);
             Spans(Expanded(c, m, segs, 0, 0), 0, 0, items, m.videos, 0, 0).Some? <==> Images(segs) + Videos(segs) <= items)
  {
    hide *;
    SufficesCounts(c, m, segs, 0, 0);
    var q, n := Expanded(c, m, segs, 0, 0), Images(segs) + Videos(segs);
    assert q[0..] == [] + q;
    TextConcat([], []);
    var more := if items < n then n else items;
    RecoverSegments(c, m, q, 0, [], segs, 0, 0, 0, more);
    SpansGood(c, m, q, 0, segs, 0, 0);
    InStepLength(q, SpansOf(c, m, segs, 0, 0, 0), MediaRuns(c, m, segs, 0, 0));
    RunsPositive(c, m, segs, 0, 0);
    ItemsAreALimit(q, 0, 0, items, more, m.videos, 0, 0);
  }

  lemma {:induction false} InStepLength(q: seq<Token>, spans: seq<Span>, runs: seq<(Token, nat)>)
    requires InStep(q, 0, spans, runs)
    ensures |spans| == |runs|
  {
  }
}
