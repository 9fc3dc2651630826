/** One-shot extraction inverts rendering, and agrees with the streamed members. */
module GlmInverse {
  import opened Wrappers
  import opened TextSearch
  import opened JsonText
  import opened Utf8
  import opened GlmMachine
  import opened GlmRoundTrip
  import opened GlmOneShot

  // ----- Finding a tag behind text free of it -----

  lemma {:induction false} FindMark(s: string, p: nat, a: string, t: string, rest: string)
    requires p <= |s| && s[p..] == a + (t + rest) && IsTag(t) && Free(a, t)
    ensures Find(s, t, p) == Some(p + |a|)
    ensures p + |a| + |t| <= |s| && s[p..p + |a|] == a && s[p + |a|..] == t + rest && s[p + |a| + |t|..] == rest
  {
    hide Find, OccursAt, Free, IsTag;
    FindShift(s, t, p);
    TagNotEmpty(t);
    assert (t + rest)[0] == t[0];
    SeamBefore(a, t + rest);
    FindAfterFree(a, t + rest, t);
    FindAtStart(t, rest);
    SuffixParts(s, p, a, t, rest);
  }

  lemma {:induction false} SuffixParts(s: string, p: nat, a: string, t: string, rest: string)
    requires p <= |s| && s[p..] == a + (t + rest)
    ensures p + |a| + |t| <= |s| && s[p..p + |a|] == a && s[p + |a|..] == t + rest && s[p + |a| + |t|..] == rest
  {
    var x := s[p..];
    assert x[..|a|] == a && x[|a|..] == t + rest && x[|a|..][|t|..] == rest;
    assert s[p..p + |a|] == x[..|a|] && s[p + |a|..] == x[|a|..] && s[p + |a| + |t|..] == x[|a|..][|t|..];
  }

  lemma {:induction false} SeamBefore(a: string, b: string)
    requires b != "" && b[0] == '<'
    ensures CleanSeam(a, b)
  {
  }

  lemma {:induction false} FindAtStart(t: string, rest: string)
    ensures Find(t + rest, t, 0) == Some(0)
  {
    assert (t + rest)[0..|t|] == t;
    assert OccursAt(t + rest, t, 0);
  }

  // ----- One turn of the extraction -----

  /** An argument, or a key whose value is missing. */
  datatype Entry = Full(argument: Argument) | Orphan(before: string, key: string)

  function RenderEntry(e: Entry): string {
    match e
    case Full(a) => RenderKey(a) + RenderValue(a)
    case Orphan(before, key) => (before + KEY_OPEN) + (key + KEY_CLOSE)
  }

  function RenderEntries(es: seq<Entry>, tail: string): string {
    if es == [] then tail else RenderEntry(es[0]) + RenderEntries(es[1..], tail)
  }

  function RawPairs(es: seq<Entry>): Pairs {
    if es == [] then []
    else (match es[0] case Full(a) => [(a.key, a.value)] case Orphan(_, _) => []) + RawPairs(es[1..])
  }

  /** No tag that would start a key or a value. */
  ghost predicate Quiet(gap: string) {
    Free(gap, KEY_OPEN) && Free(gap, VALUE_OPEN)
  }

  ghost predicate Compact(e: Entry) {
    match e
    case Full(a) => Quiet(a.before) && Free(a.key, KEY_CLOSE) && Quiet(a.between) && Free(a.value, VALUE_CLOSE)
    case Orphan(before, key) => Quiet(before) && Free(key, KEY_CLOSE)
  }

  function EntryKey(e: Entry): (string, string) {
    match e
    case Full(a) => (a.before, a.key)
    case Orphan(before, key) => (before, key)
  }

  /** What follows the key of the first entry. */
  function AfterKey(e: Entry, rest: string): string {
    match e
    case Full(a) => (a.between + VALUE_OPEN) + (a.value + VALUE_CLOSE) + rest
    case Orphan(_, _) => rest
  }

  lemma {:induction false} Tags()
    ensures IsTag(KEY_OPEN) && IsTag(KEY_CLOSE) && IsTag(VALUE_OPEN) && IsTag(VALUE_CLOSE)
  {
  }

  lemma {:induction false} EntryShape(e: Entry, rest: string)
    ensures RenderEntry(e) + rest == EntryKey(e).0 + (KEY_OPEN + (EntryKey(e).1 + (KEY_CLOSE + AfterKey(e, rest))))
  {
    var (before, key) := EntryKey(e);
    var front := (before + KEY_OPEN) + (key + KEY_CLOSE);
    assert RenderEntry(e) + rest == front + AfterKey(e, rest) by {
      if e.Full? {
        var v := RenderValue(e.argument);
        assert (front + v) + rest == front + (v + rest);
      }
    }
    Regroup(before, KEY_OPEN, key, KEY_CLOSE, AfterKey(e, rest));
  }

  lemma {:induction false} Regroup(a: string, b: string, c: string, d: string, e: string)
    ensures ((a + b) + (c + d)) + e == a + (b + (c + (d + e)))
  {
    assert ((a + b) + (c + d)) + e == (a + b) + ((c + d) + e);
    assert (c + d) + e == c + (d + e);
    assert (a + b) + (c + (d + e)) == a + (b + (c + (d + e)));
  }

  /** The key of the entry at `pos` is found, and the rest of the text lies behind it. */
  lemma {:induction false} KeyFound(args: string, pos: nat, e: Entry, rest: string)
    requires pos <= |args| && args[pos..] == RenderEntry(e) + rest && Compact(e)
    ensures var (before, key) := EntryKey(e);
            var keyStart := pos + |before| + |KEY_OPEN|;
            && Find(args, KEY_OPEN, pos) == Some(pos + |before|)
            && Find(args, KEY_CLOSE, keyStart) == Some(keyStart + |key|)
            && keyStart + |key| + |KEY_CLOSE| <= |args|
            && args[keyStart..keyStart + |key|] == key
            && args[keyStart + |key|..] == KEY_CLOSE + AfterKey(e, rest)
            && args[keyStart + |key| + |KEY_CLOSE|..] == AfterKey(e, rest)
  {
    hide Find, OccursAt, Free, IsTag, RenderEntry, AfterKey;
    Tags();
    var (before, key) := EntryKey(e);
    EntryShape(e, rest);
    FindMark(args, pos, before, KEY_OPEN, key + (KEY_CLOSE + AfterKey(e, rest)));
    FindMark(args, pos + |before| + |KEY_OPEN|, key, KEY_CLOSE, AfterKey(e, rest));
  }

  lemma {:induction false} CloseThenQuiet(gap: string)
    requires Free(gap, VALUE_OPEN)
    ensures Free(KEY_CLOSE + gap, VALUE_OPEN)
  {
    Tags();
    KeyCloseFree();
    FreeConcat(KEY_CLOSE, gap, VALUE_OPEN);
  }

  lemma {:induction false} KeyCloseFree()
    ensures Free(KEY_CLOSE, VALUE_OPEN)
  {
    hide Free;
    SingleAngleFree(KEY_CLOSE, VALUE_OPEN);
  }

  /** With its value the entry is taken whole. */
  lemma {:induction false} FullTurn(args: string, pos: nat, a: Argument, rest: string)
    requires pos <= |args| && args[pos..] == RenderEntry(Full(a)) + rest && Compact(Full(a))
    ensures pos + |RenderEntry(Full(a))| <= |args| && args[pos + |RenderEntry(Full(a))|..] == rest
    ensures NextPair(args, pos) == Pair(a.key, a.value, pos + |RenderEntry(Full(a))|)
  {
    hide Find, OccursAt, Free, IsTag, NextValue;
    KeyFound(args, pos, Full(a), rest);
    Tags();
    var keyEnd := pos + |a.before| + |KEY_OPEN| + |a.key|;
    var tail := a.value + (VALUE_CLOSE + rest);
    ValueShape(a, rest);
    CloseThenQuiet(a.between);
    FindMark(args, keyEnd, KEY_CLOSE + a.between, VALUE_OPEN, tail);
    ValueTurn(args, keyEnd - |a.key|, keyEnd, a, rest);
  }

  lemma {:induction false} ValueShape(a: Argument, rest: string)
    ensures AfterKey(Full(a), rest) == a.between + (VALUE_OPEN + (a.value + (VALUE_CLOSE + rest)))
    ensures KEY_CLOSE + AfterKey(Full(a), rest) == (KEY_CLOSE + a.between) + (VALUE_OPEN + (a.value + (VALUE_CLOSE + rest)))
  {
    assert AfterKey(Full(a), rest) == a.between + (VALUE_OPEN + (a.value + (VALUE_CLOSE + rest)));
    assert KEY_CLOSE + (a.between + (VALUE_OPEN + (a.value + (VALUE_CLOSE + rest)))) == (KEY_CLOSE + a.between) + (VALUE_OPEN + (a.value + (VALUE_CLOSE + rest)));
  }

  lemma {:induction false} ValueTurn(args: string, keyStart: nat, keyEnd: nat, a: Argument, rest: string)
    requires keyStart <= keyEnd && keyEnd + |KEY_CLOSE| <= |args| && args[keyStart..keyEnd] == a.key
    requires args[keyEnd + |KEY_CLOSE|..] == AfterKey(Full(a), rest)
    requires Quiet(a.between) && Free(a.value, VALUE_CLOSE)
    requires keyEnd + |KEY_CLOSE + a.between| + |VALUE_OPEN| <= |args|
    ensures var next := keyEnd + |KEY_CLOSE| + |RenderValue(a)|;
            && next <= |args| && args[next..] == rest
            && NextValue(args, keyStart, keyEnd, keyEnd + |KEY_CLOSE + a.between|) == Pair(a.key, a.value, next)
  {
    hide Find, OccursAt, Free, IsTag, AfterKey;
    Tags();
    ValueShape(a, rest);
    var from := keyEnd + |KEY_CLOSE|;
    var tail := a.value + (VALUE_CLOSE + rest);
    FindMark(args, from, a.between, VALUE_OPEN, tail);
    NoKeyBefore(args, from, a.between, VALUE_OPEN + tail);
    FindMark(args, from + |a.between| + |VALUE_OPEN|, a.value, VALUE_CLOSE, rest);
  }

  /** No key starts inside a quiet gap. */
  lemma {:induction false} NoKeyBefore(args: string, from: nat, gap: string, more: string)
    requires from <= |args| && args[from..] == gap + more && Free(gap, KEY_OPEN)
    requires more != "" && more[0] == '<'
    ensures var k := Find(args, KEY_OPEN, from); k.None? || k.value >= from + |gap|
  {
    hide Find, OccursAt, Free, IsTag;
    Tags();
    FindShift(args, KEY_OPEN, from);
    SeamBefore(gap, more);
    FindAfterFree(gap, more, KEY_OPEN);
  }

  /** A key followed by another key before any value is skipped. */
  lemma {:induction false} OrphanTurn(args: string, pos: nat, e: Entry, next: Entry, rest: string)
    requires e.Orphan? && Compact(e) && Compact(next)
    requires pos <= |args| && args[pos..] == RenderEntry(e) + (RenderEntry(next) + rest)
    ensures var there := pos + |RenderEntry(e)| + |EntryKey(next).0|;
            && there <= |args|
            && (NextPair(args, pos) == Stop ==> Find(args, VALUE_OPEN, there).None?)
            && (NextPair(args, pos) != Stop ==> NextPair(args, pos) == Skip(there))
  {
    hide *;
    OrphanParts(e, RenderEntry(next) + rest);
    KeyFound(args, pos, e, RenderEntry(next) + rest);
    var keyTag := pos + |e.before|;
    var keyEnd := keyTag + |KEY_OPEN| + |e.key|;
    KeyFound(args, keyEnd + |KEY_CLOSE|, next, rest);
    GapThenKey(args, keyEnd, next, rest);
    SkipDecision(args, pos, keyTag, keyEnd, keyEnd + |KEY_CLOSE| + |EntryKey(next).0|);
  }

  lemma {:induction false} OrphanParts(e: Entry, rest: string)
    requires e.Orphan?
    ensures EntryKey(e) == (e.before, e.key) && AfterKey(e, rest) == rest
    ensures |RenderEntry(e)| == |e.before| + |KEY_OPEN| + |e.key| + |KEY_CLOSE|
  {
  }

  lemma {:induction false} SkipDecision(args: string, pos: nat, keyTag: nat, keyEnd: nat, there: nat)
    requires Find(args, KEY_OPEN, pos) == Some(keyTag) && Find(args, KEY_CLOSE, keyTag + |KEY_OPEN|) == Some(keyEnd)
    requires Find(args, VALUE_OPEN, keyEnd) == Find(args, VALUE_OPEN, there)
    requires Find(args, KEY_OPEN, keyEnd + |KEY_CLOSE|) == Some(there)
    requires Find(args, VALUE_OPEN, there).Some? ==> there < Find(args, VALUE_OPEN, there).value
    ensures NextPair(args, pos) == if Find(args, VALUE_OPEN, there).None? then Stop else Skip(there)
  {
    hide Find, OccursAt;
  }

  lemma {:induction false} GapThenKey(args: string, keyEnd: nat, next: Entry, rest: string)
    requires keyEnd <= |args| && args[keyEnd..] == KEY_CLOSE + (RenderEntry(next) + rest) && Compact(next)
    ensures var there := keyEnd + |KEY_CLOSE| + |EntryKey(next).0|;
            && there <= |args|
            && Find(args, VALUE_OPEN, keyEnd) == Find(args, VALUE_OPEN, there)
            && (Find(args, VALUE_OPEN, there).Some? ==> there < Find(args, VALUE_OPEN, there).value)
  {
    hide Find, OccursAt, Free, IsTag, RenderEntry, AfterKey;
    Tags();
    EntryShape(next, rest);
    var gap := EntryKey(next).0;
    var more := KEY_OPEN + (EntryKey(next).1 + (KEY_CLOSE + AfterKey(next, rest)));
    var front := KEY_CLOSE + gap;
    assert KEY_CLOSE + (gap + more) == front + more;
    CloseThenQuiet(gap);
    FindShift(args, VALUE_OPEN, keyEnd);
    SeamBefore(front, more);
    FindAfterFree(front, more, VALUE_OPEN);
    FindShift(args, VALUE_OPEN, keyEnd + |front|);
    assert args[keyEnd..][|front|..] == more;
    assert args[keyEnd + |front|..] == args[keyEnd..][|front|..];
    NotAtKey(EntryKey(next).1 + (KEY_CLOSE + AfterKey(next, rest)));
  }

  lemma {:induction false} NotAtKey(more: string)
    ensures var v := Find(KEY_OPEN + more, VALUE_OPEN, 0); v.Some? ==> v.value > 0
  {
    assert (KEY_OPEN + more)[5] == 'k';
    if OccursAt(KEY_OPEN + more, VALUE_OPEN, 0) {
      OccursChars(KEY_OPEN + more, VALUE_OPEN, 0);
    }
  }

  // ----- All entries -----

  lemma {:induction false} NoValueNoPair(args: string, pos: nat)
    requires Find(args, VALUE_OPEN, pos).None?
    ensures NextPair(args, pos) == Stop && Extract(args, pos) == []
  {
    hide OccursAt, NextValue;
    match Find(args, KEY_OPEN, pos)
    case None =>
    case Some(k) =>
      match Find(args, KEY_CLOSE, k + |KEY_OPEN|)
      case None =>
      case Some(e) => FindNone(args, VALUE_OPEN, e);
  }

  lemma {:induction false} TailTurn(args: string, pos: nat, tail: string)
    requires pos <= |args| && args[pos..] == tail && Quiet(tail)
    ensures NextPair(args, pos) == Stop
  {
    FindShift(args, KEY_OPEN, pos);
    FindNone(tail, KEY_OPEN, 0);
    hide Find;
  }

  lemma {:induction false} LastOrphanTurn(args: string, pos: nat, e: Entry, tail: string)
    requires e.Orphan? && Compact(e) && Quiet(tail)
    requires pos <= |args| && args[pos..] == RenderEntry(e) + tail
    ensures NextPair(args, pos) == Stop
  {
    hide Find, OccursAt, Free, IsTag;
    KeyFound(args, pos, e, tail);
    var keyEnd := pos + |e.before| + |KEY_OPEN| + |e.key|;
    CloseThenQuiet(tail);
    FindShift(args, VALUE_OPEN, keyEnd);
    FindInFree(KEY_CLOSE + tail, VALUE_OPEN);
  }

  lemma {:induction false} FindInFree(s: string, t: string)
    requires Free(s, t)
    ensures Find(s, t, 0) == None
  {
    FindNone(s, t, 0);
  }

  /** The entry without the text before its key. */
  function Bare(e: Entry): Entry {
    match e
    case Full(a) => Full(a.(before := ""))
    case Orphan(_, key) => Orphan("", key)
  }

  lemma {:induction false} BareEntry(args: string, pos: nat, e: Entry, rest: string)
    requires pos <= |args| && args[pos..] == RenderEntry(e) + rest && Compact(e)
    ensures pos + |EntryKey(e).0| <= |args| && args[pos + |EntryKey(e).0|..] == RenderEntry(Bare(e)) + rest
    ensures Compact(Bare(e))
  {
    EntryShape(e, rest);
    EntryShape(Bare(e), rest);
    hide RenderEntry, OccursAt;
    var gap := EntryKey(e).0;
    var more := KEY_OPEN + (EntryKey(e).1 + (KEY_CLOSE + AfterKey(e, rest)));
    assert "" + more == more;
    assert args[pos..][|gap|..] == more;
    assert args[pos + |gap|..] == args[pos..][|gap|..];
    NothingIsQuiet();
  }

  lemma {:induction false} NothingIsQuiet()
    ensures Quiet("")
  {
  }

  /** A key that is never closed. */
  ghost predicate UnclosedKey(tail: string, gap: string, rest: string) {
    tail == gap + (KEY_OPEN + rest) && Free(gap, KEY_OPEN) && Free(rest, KEY_CLOSE)
  }

  /** A key whose value is never closed. */
  ghost predicate UnclosedValue(tail: string, a: Argument) {
    && tail == a.before + (KEY_OPEN + (a.key + (KEY_CLOSE + (a.between + (VALUE_OPEN + a.value)))))
    && Free(a.before, KEY_OPEN) && Free(a.key, KEY_CLOSE) && Quiet(a.between) && Free(a.value, VALUE_CLOSE)
  }

  /** An end that holds no whole pair. */
  ghost predicate NoPair(tail: string) {
    || Quiet(tail)
    || (exists gap: string, rest: string :: UnclosedKey(tail, gap, rest))
    || (exists a: Argument :: UnclosedValue(tail, a))
  }

  lemma {:induction false} UnclosedKeyTurn(args: string, pos: nat, tail: string, gap: string, rest: string)
    requires pos <= |args| && args[pos..] == tail && UnclosedKey(tail, gap, rest)
    ensures NextPair(args, pos) == Stop
  {
    hide Find, OccursAt, Free, IsTag;
    Tags();
    FindMark(args, pos, gap, KEY_OPEN, rest);
    FindShift(args, KEY_CLOSE, pos + |gap| + |KEY_OPEN|);
    FindInFree(rest, KEY_CLOSE);
  }

  lemma {:induction false} KeyMarks(args: string, pos: nat, gap: string, key: string, more: string)
    requires pos <= |args| && args[pos..] == gap + (KEY_OPEN + (key + (KEY_CLOSE + more)))
    requires Free(gap, KEY_OPEN) && Free(key, KEY_CLOSE)
    ensures var keyEnd := pos + |gap| + |KEY_OPEN| + |key|;
            && Find(args, KEY_OPEN, pos) == Some(pos + |gap|)
            && Find(args, KEY_CLOSE, pos + |gap| + |KEY_OPEN|) == Some(keyEnd)
            && keyEnd + |KEY_CLOSE| <= |args| && args[keyEnd..] == KEY_CLOSE + more && args[keyEnd + |KEY_CLOSE|..] == more
  {
    hide Find, OccursAt, Free, IsTag;
    Tags();
    FindMark(args, pos, gap, KEY_OPEN, key + (KEY_CLOSE + more));
    FindMark(args, pos + |gap| + |KEY_OPEN|, key, KEY_CLOSE, more);
  }

  lemma {:induction false} ValueMark(args: string, keyEnd: nat, between: string, value: string)
    requires keyEnd <= |args| && args[keyEnd..] == KEY_CLOSE + (between + (VALUE_OPEN + value)) && Free(between, VALUE_OPEN)
    ensures var valueTag := keyEnd + |KEY_CLOSE| + |between|;
            && Find(args, VALUE_OPEN, keyEnd) == Some(valueTag)
            && valueTag + |VALUE_OPEN| <= |args| && args[valueTag + |VALUE_OPEN|..] == value
  {
    hide Find, OccursAt, Free, IsTag;
    Tags();
    CloseThenQuiet(between);
    assert KEY_CLOSE + (between + (VALUE_OPEN + value)) == (KEY_CLOSE + between) + (VALUE_OPEN + value);
    FindMark(args, keyEnd, KEY_CLOSE + between, VALUE_OPEN, value);
  }

  lemma {:induction false} UnclosedValueTurn(args: string, pos: nat, tail: string, a: Argument)
    requires pos <= |args| && args[pos..] == tail && UnclosedValue(tail, a)
    ensures NextPair(args, pos) == Stop
  {
    hide Find, OccursAt, Free, IsTag;
    var keyEnd := pos + |a.before| + |KEY_OPEN| + |a.key|;
    var valueTag := keyEnd + |KEY_CLOSE| + |a.between|;
    KeyMarks(args, pos, a.before, a.key, a.between + (VALUE_OPEN + a.value));
    ValueMark(args, keyEnd, a.between, a.value);
    NoKeyBefore(args, keyEnd + |KEY_CLOSE|, a.between, VALUE_OPEN + a.value);
    FindShift(args, VALUE_CLOSE, valueTag + |VALUE_OPEN|);
    FindInFree(a.value, VALUE_CLOSE);
  }

  lemma {:induction false} NoPairTurn(args: string, pos: nat, tail: string)
    requires pos <= |args| && args[pos..] == tail && NoPair(tail)
    ensures NextPair(args, pos) == Stop
  {
    hide NextPair, Quiet, UnclosedKey, UnclosedValue;
    if Quiet(tail) {
      TailTurn(args, pos, tail);
    } else if exists gap: string, rest: string :: UnclosedKey(tail, gap, rest) {
      var gap, rest :| UnclosedKey(tail, gap, rest);
      UnclosedKeyTurn(args, pos, tail, gap, rest);
    } else {
      var a :| UnclosedValue(tail, a);
      UnclosedValueTurn(args, pos, tail, a);
    }
  }

  /** What may stand behind the entries: no tags, or, behind a whole pair, an
      unfinished one. */
  ghost predicate Ends(es: seq<Entry>, tail: string) {
    Quiet(tail) || (NoPair(tail) && (es == [] || es[|es| - 1].Full?))
  }

  lemma {:induction false} EndsLater(es: seq<Entry>, tail: string)
    requires es != [] && Ends(es, tail)
    ensures Ends(es[1..], tail)
    ensures |es| > 1 ==> Ends([Bare(es[1])] + es[2..], tail)
    ensures |es| == 1 && es[0].Orphan? ==> Quiet(tail)
  {
    hide Quiet, NoPair;
  }

  /** Every list of entries: exactly the pairs with a value, in order; a key
      without a value is skipped and costs no later pair, and an unfinished pair at
      the end adds none. */
  lemma {:induction false} EntriesExtracted(args: string, pos: nat, es: seq<Entry>, tail: string)
    requires pos <= |args| && args[pos..] == RenderEntries(es, tail)
    requires (forall e | e in es :: Compact(e)) && Ends(es, tail)
    ensures Extract(args, pos) == RawPairs(es)
    decreases |es|
  {
    hide NextPair, Compact, Quiet, Find, RenderEntry, Bare, NoPair, Ends;
    if es == [] {
      NothingBehind(tail);
      NoPairTurn(args, pos, tail);
    } else if es[0].Full? {
      EndsLater(es, tail);
      var rest := RenderEntries(es[1..], tail);
      var a := es[0].argument;
      FullTurn(args, pos, a, rest);
      EntriesExtracted(args, pos + |RenderEntry(Full(a))|, es[1..], tail);
    } else if |es| == 1 {
      assert es[1..] == [];
      EndsLater(es, tail);
      LastOrphanTurn(args, pos, es[0], tail);
    } else {
      var there := pos + |RenderEntry(es[0])| + |EntryKey(es[1]).0|;
      OrphanSkipped(args, pos, es, tail);
      EndsLater(es, tail);
      EntriesExtracted(args, there, [Bare(es[1])] + es[2..], tail);
      if NextPair(args, pos) == Stop {
        NoValueNoPair(args, there);
      }
    }
  }

  lemma {:induction false} NothingBehind(tail: string)
    requires Ends([], tail)
    ensures NoPair(tail)
  {
    hide Quiet;
  }

  lemma {:induction false} QuietEnds(es: seq<Entry>)
    ensures Ends(es, "")
  {
    NothingIsQuiet();
  }

  lemma {:induction false} OrphanSkipped(args: string, pos: nat, es: seq<Entry>, tail: string)
    requires |es| > 1 && es[0].Orphan? && pos <= |args| && args[pos..] == RenderEntries(es, tail)
    requires forall e | e in es :: Compact(e)
    ensures var there := pos + |RenderEntry(es[0])| + |EntryKey(es[1]).0|;
            var later := [Bare(es[1])] + es[2..];
            && there <= |args| && args[there..] == RenderEntries(later, tail)
            && (forall e | e in later :: Compact(e)) && RawPairs(es) == RawPairs(later)
            && (NextPair(args, pos) == Stop ==> Find(args, VALUE_OPEN, there).None?)
            && (NextPair(args, pos) != Stop ==> NextPair(args, pos) == Skip(there))
  {
    hide NextPair, Compact, Quiet, Find, RenderEntry, Bare;
    OrphanThenMore(es, tail);
    var next, rest := es[1], RenderEntries(es[2..], tail);
    OrphanTurn(args, pos, es[0], next, rest);
    var from := pos + |RenderEntry(es[0])|;
    assert args[from..] == args[pos..][|RenderEntry(es[0])|..] == RenderEntry(next) + rest;
    BareEntry(args, from, next, rest);
    assert ([Bare(next)] + es[2..])[1..] == es[2..];
  }

  lemma {:induction false} OrphanThenMore(es: seq<Entry>, tail: string)
    requires |es| > 1 && es[0].Orphan?
    ensures RenderEntries(es, tail) == RenderEntry(es[0]) + (RenderEntry(es[1]) + RenderEntries(es[2..], tail))
    ensures RawPairs(es) == RawPairs([Bare(es[1])] + es[2..])
  {
    hide RenderEntry;
    assert es[1..][1..] == es[2..];
    var later := [Bare(es[1])] + es[2..];
    assert later[1..] == es[2..] && later[0] == Bare(es[1]);
    assert RawPairs(es) == [] + RawPairs(es[1..]) == RawPairs(es[1..]);
  }

  // ----- All calls -----

  /** A call: text before it, its name with surrounding blanks, its entries. */
  datatype RawCall = RawCall(before: string, name: string, entries: seq<Entry>, tail: string)

  function Content(c: RawCall): string {
    c.name + RenderEntries(c.entries, c.tail)
  }

  function RenderCalls(cs: seq<RawCall>, trailing: string): string {
    if cs == [] then trailing
    else cs[0].before + (CALL_OPEN + (Content(cs[0]) + (CALL_CLOSE + RenderCalls(cs[1..], trailing))))
  }

  ghost predicate CompactCall(c: RawCall) {
    && Free(c.before, CALL_OPEN) && Free(Content(c), CALL_CLOSE) && Free(c.name, KEY_OPEN)
    && (forall e | e in c.entries :: Compact(e)) && Ends(c.entries, c.tail)
    && (if c.entries == [] then c.tail == "" else EntryKey(c.entries[0]).0 == "")
  }

  function CallsOf(cs: seq<RawCall>): seq<(string, Pairs)> {
    if cs == [] then [] else [(Trim(cs[0].name), RawPairs(cs[0].entries))] + CallsOf(cs[1..])
  }

  lemma {:induction false} ContentSplit(c: RawCall)
    requires CompactCall(c)
    ensures SplitContent(Content(c)) == (Trim(c.name), RenderEntries(c.entries, c.tail))
  {
    hide Find, OccursAt, Free, IsTag, Compact, Trim, RenderEntry;
    var content := Content(c);
    assert content[0..] == content;
    if c.entries == [] {
      assert content == c.name;
      FindInFree(content, KEY_OPEN);
    } else {
      Tags();
      var e, rest := c.entries[0], RenderEntries(c.entries[1..], c.tail);
      EntryShape(e, rest);
      var more := EntryKey(e).1 + (KEY_CLOSE + AfterKey(e, rest));
      assert "" + (KEY_OPEN + more) == KEY_OPEN + more;
      FindMark(content, 0, c.name, KEY_OPEN, more);
      assert content[..|c.name|] == c.name;
    }
  }

  lemma {:induction false} CallParsed(text: string, lo: nat, hi: nat, c: RawCall)
    requires lo <= hi <= |text| && text[lo..hi] == Content(c) && CompactCall(c)
    ensures ParsedCall(text, (lo, hi)) == (Trim(c.name), RawPairs(c.entries))
  {
    hide Extract, SplitContent, Content, Trim, Compact, Ends;
    ContentSplit(c);
    var args := RenderEntries(c.entries, c.tail);
    assert args[0..] == args;
    EntriesExtracted(args, 0, c.entries, c.tail);
  }

  lemma {:induction false} CallTags()
    ensures IsTag(CALL_OPEN) && IsTag(CALL_CLOSE)
  {
  }

  lemma {:induction false} CallParts(c: RawCall)
    requires CompactCall(c)
    ensures Free(c.before, CALL_OPEN) && Free(Content(c), CALL_CLOSE)
  {
  }

  /** A call that is never closed. */
  ghost predicate UnclosedCall(trailing: string, before: string, rest: string) {
    trailing == before + (CALL_OPEN + rest) && Free(before, CALL_OPEN) && Free(rest, CALL_CLOSE)
  }

  ghost predicate NoCall(trailing: string) {
    Free(trailing, CALL_OPEN) || exists before: string, rest: string :: UnclosedCall(trailing, before, rest)
  }

  /** One-shot parsing inverts rendering: every closed call, with its trimmed name and
      its raw pairs, in order, and nothing of a last call that is not closed. */
  lemma {:induction false} OneShotInvertsRendering(text: string, pos: nat, cs: seq<RawCall>, trailing: string)
    requires pos <= |text| && text[pos..] == RenderCalls(cs, trailing)
    requires (forall c | c in cs :: CompactCall(c)) && NoCall(trailing)
    ensures ParsedFrom(text, pos) == CallsOf(cs)
    decreases |cs|
  {
    hide NextRange, Content, ParsedCall, CompactCall, Trim, RawPairs, NoCall;
    if cs == [] {
      NoMoreCalls(text, pos, trailing);
    } else {
      NextCall(text, pos, cs[0], RenderCalls(cs[1..], trailing));
      OneShotInvertsRendering(text, NextRange(text, pos).value.1 + |CALL_CLOSE|, cs[1..], trailing);
    }
  }

  lemma {:induction false} NoMoreCalls(text: string, pos: nat, trailing: string)
    requires pos <= |text| && text[pos..] == trailing && NoCall(trailing)
    ensures NextRange(text, pos) == None
  {
    hide Find, OccursAt, Free, IsTag;
    if Free(trailing, CALL_OPEN) {
      FindShift(text, CALL_OPEN, pos);
      FindInFree(trailing, CALL_OPEN);
    } else {
      var before, rest :| UnclosedCall(trailing, before, rest);
      CallTags();
      FindMark(text, pos, before, CALL_OPEN, rest);
      FindShift(text, CALL_CLOSE, pos + |before| + |CALL_OPEN|);
      FindInFree(rest, CALL_CLOSE);
    }
  }

  lemma {:induction false} NextCall(text: string, pos: nat, c: RawCall, rest: string)
    requires pos <= |text| && CompactCall(c)
    requires text[pos..] == c.before + (CALL_OPEN + (Content(c) + (CALL_CLOSE + rest)))
    ensures NextRange(text, pos).Some?
    ensures var r := NextRange(text, pos).value;
            && text[r.1 + |CALL_CLOSE|..] == rest
            && ParsedCall(text, r) == (Trim(c.name), RawPairs(c.entries))
  {
    hide Find, OccursAt, Free, IsTag, Content, ParsedCall, CompactCall, Trim, RawPairs;
    CallTags();
    CallParts(c);
    FindMark(text, pos, c.before, CALL_OPEN, Content(c) + (CALL_CLOSE + rest));
    var start := pos + |c.before| + |CALL_OPEN|;
    FindMark(text, start, Content(c), CALL_CLOSE, rest);
    CallParsed(text, start, start + |Content(c)|, c);
  }

  // ----- Streaming against one-shot -----

  function Fulls(args: seq<Argument>): seq<Entry> {
    if args == [] then [] else [Full(args[0])] + Fulls(args[1..])
  }

  function TrimKeys(pairs: Pairs): Pairs {
    if pairs == [] then [] else [(Trim(pairs[0].0), pairs[0].1)] + TrimKeys(pairs[1..])
  }

  lemma {:induction false} FullsAgree(args: seq<Argument>)
    requires forall a | a in args :: Compact(Full(a))
    ensures RenderEntries(Fulls(args), "") == RenderArguments(args)
    ensures TrimKeys(RawPairs(Fulls(args))) == Members(args)
    ensures forall e | e in Fulls(args) :: Compact(e)
    decreases |args|
  {
    hide Compact, RenderKey, RenderValue, Trim;
    if args != [] {
      FullsAgree(args[1..]);
      var pair := (args[0].key, args[0].value);
      assert Fulls(args)[1..] == Fulls(args[1..]);
      var later := RawPairs(Fulls(args[1..]));
      assert ([pair] + later)[1..] == later;
    }
  }

  /** On string arguments both parsers see the same pairs: what is streamed, under
      any chunking, reads back as the one-shot pairs with their keys trimmed. */
  lemma {:induction false} StreamingAgreesWithOneShot(chunks: seq<string>, args: seq<Argument>, schema: Schema)
    requires Concat(chunks) == RenderArguments(args)
    requires forall a | a in args :: Renderable(a, schema) && Quiet(a.before) && Quiet(a.between)
    ensures ReadOpenObject(ProcessChunks(ResetMachine, chunks, schema).1)
            == Some(TrimKeys(Extract(RenderArguments(args), 0)))
  {
    hide *;
    StreamedArguments(chunks, args, schema);
    forall a | a in args ensures Compact(Full(a)) {
      RenderableIsCompact(a, schema);
    }
    FullsAgree(args);
    var text := RenderArguments(args);
    assert text[0..] == text;
    QuietEnds(Fulls(args));
    EntriesExtracted(text, 0, Fulls(args), "");
  }

  lemma {:induction false} RenderableIsCompact(a: Argument, schema: Schema)
    requires Renderable(a, schema) && Quiet(a.before) && Quiet(a.between)
    ensures Compact(Full(a))
  {
    hide Free, Trim, Valid, EndsPending;
  }
}
