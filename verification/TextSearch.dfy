/** `std::string::find` and the facts about tags that every streaming parser
    here rests on.  A tag contains `<` only as its first character and `>` only
    as its last one, so a tag never straddles a clean seam between two texts. */
module TextSearch {
  import opened Wrappers

  predicate OccursAt(s: string, t: string, i: nat) {
    i + |t| <= |s| && s[i..i + |t|] == t
  }

  /** No occurrence of `t` anywhere in `s`. */
  ghost predicate Free(s: string, t: string) {
    forall i: nat :: !OccursAt(s, t, i)
  }

  /** `s.find(t, from)`; `None` stands for `npos`. */
  function Find(s: string, t: string, from: nat): (r: Option<nat>)
    ensures r.Some? ==> from <= r.value && r.value + |t| <= |s| && OccursAt(s, t, r.value)
    ensures r.Some? ==> forall j: nat | from <= j < r.value :: !OccursAt(s, t, j)
    ensures r.None? ==> forall j: nat | from <= j :: !OccursAt(s, t, j)
    decreases |s| - from
  {
    if from + |t| > |s| then None
    else if OccursAt(s, t, from) then Some(from)
    else Find(s, t, from + 1)
  }

  predicate IsTag(t: string) {
    && |t| > 1
    && t[0] == '<'
    && (forall i | 0 < i < |t| :: t[i] != '<')
    && (forall i | 0 <= i < |t| - 1 :: t[i] != '>')
  }

  /** The seam of `a + b` cannot lie inside a tag. */
  predicate CleanSeam(a: string, b: string) {
    a == "" || b == "" || a[|a| - 1] == '>' || b[0] == '<'
  }

  lemma {:induction false} OccursChars(s: string, t: string, i: nat)
    requires OccursAt(s, t, i)
    ensures forall k | 0 <= k < |t| :: s[i + k] == t[k]
  {
    forall k | 0 <= k < |t| ensures s[i + k] == t[k] {
      assert s[i..i + |t|][k] == t[k];
    }
  }

  lemma {:induction false} OccursInExtension(a: string, b: string, t: string, i: nat)
    requires i + |t| <= |a|
    ensures OccursAt(a + b, t, i) <==> OccursAt(a, t, i)
  {
    assert (a + b)[i..i + |t|] == a[i..i + |t|];
  }

  lemma {:induction false} OccursInSuffix(a: string, b: string, t: string, i: nat)
    requires |a| <= i
    ensures OccursAt(a + b, t, i) <==> OccursAt(b, t, i - |a|)
  {
    if i + |t| <= |a + b| {
      assert (a + b)[i..i + |t|] == b[i - |a|..i - |a| + |t|];
    }
  }

  /** What an occurrence across the seam reads on both sides of it. */
  lemma {:induction false} StraddleChars(a: string, b: string, t: string, i: nat)
    requires i < |a| < i + |t| && OccursAt(a + b, t, i)
    ensures b != "" && t[|a| - i] == b[0] && t[|a| - 1 - i] == a[|a| - 1]
  {
    OccursChars(a + b, t, i);
    assert (a + b)[i + (|a| - i)] == b[0];
    assert (a + b)[i + (|a| - 1 - i)] == a[|a| - 1];
  }

  /** Across a clean seam every occurrence belongs to one side. */
  lemma {:induction false} TagAcrossSeam(a: string, b: string, t: string, i: nat)
    requires IsTag(t) && CleanSeam(a, b)
    requires i < |a| && OccursAt(a + b, t, i)
    ensures OccursAt(a, t, i)
  {
    if i + |t| <= |a| {
      OccursInExtension(a, b, t, i);
    } else {
      StraddleChars(a, b, t, i);
    }
  }

  /** Freeness of a concatenation with a clean seam. */
  lemma {:induction false} FreeConcat(a: string, b: string, t: string)
    requires IsTag(t) && CleanSeam(a, b)
    requires Free(a, t) && Free(b, t)
    ensures Free(a + b, t)
  {
    forall i: nat ensures !OccursAt(a + b, t, i) {
      if OccursAt(a + b, t, i) {
        if i < |a| {
          TagAcrossSeam(a, b, t, i);
        } else {
          OccursInSuffix(a, b, t, i);
        }
      }
    }
  }

  lemma {:induction false} FreeSlice(s: string, t: string, lo: nat, hi: nat)
    requires lo <= hi <= |s| && |t| > 0 && Free(s, t)
    ensures Free(s[lo..hi], t)
  {
    forall i: nat ensures !OccursAt(s[lo..hi], t, i) {
      if OccursAt(s[lo..hi], t, i) {
        OccursChars(s[lo..hi], t, i);
        assert s[lo + i..lo + i + |t|] == t;
        assert OccursAt(s, t, lo + i);
      }
    }
  }

  /** The first hit is at `k` when it is a hit and nothing before it is. */
  lemma {:induction false} FindIs(s: string, t: string, from: nat, k: nat)
    requires from <= k && OccursAt(s, t, k)
    requires forall j: nat | from <= j < k :: !OccursAt(s, t, j)
    ensures Find(s, t, from) == Some(k)
  {
  }

  lemma {:induction false} FindNone(s: string, t: string, from: nat)
    requires forall j: nat | from <= j :: !OccursAt(s, t, j)
    ensures Find(s, t, from) == None
  {
  }

  /** The first `t` after a `t`-free text that meets it in a clean seam. */
  lemma {:induction false} FindAfterFree(a: string, b: string, t: string)
    requires IsTag(t) && CleanSeam(a, b) && Free(a, t)
    ensures Find(a + b, t, 0) ==
            match Find(b, t, 0) { case None => None case Some(k) => Some(|a| + k) }
  {
    forall i: nat | i < |a| ensures !OccursAt(a + b, t, i) {
      if OccursAt(a + b, t, i) {
        TagAcrossSeam(a, b, t, i);
      }
    }
    forall i: nat | |a| <= i ensures OccursAt(a + b, t, i) <==> OccursAt(b, t, i - |a|) {
      OccursInSuffix(a, b, t, i);
    }
    match Find(b, t, 0)
    case Some(k) =>
      assert OccursAt(a + b, t, |a| + k);
      FindIs(a + b, t, 0, |a| + k);
    case None =>
      FindNone(a + b, t, 0);
  }

  /** A hit inside a text stays the first hit under every extension. */
  lemma {:induction false} FindStable(a: string, b: string, t: string, from: nat)
    requires |t| > 0 && Find(a, t, from).Some?
    ensures Find(a + b, t, from) == Find(a, t, from)
  {
    var k := Find(a, t, from).value;
    forall j: nat | from <= j <= k ensures OccursAt(a + b, t, j) <==> OccursAt(a, t, j) {
      OccursInExtension(a, b, t, j);
    }
    FindIs(a + b, t, from, k);
  }

  /** A tag first seen only after an extension lies behind any tag already seen. */
  lemma {:induction false} NewTagIsLater(a: string, b: string, seen: string, late: string)
    requires IsTag(seen) && IsTag(late) && !(seen <= late)
    requires Find(a, seen, 0).Some?
    requires Find(a, late, 0).None? && Find(a + b, late, 0).Some?
    ensures Find(a, seen, 0).value < Find(a + b, late, 0).value
  {
    var k, j := Find(a, seen, 0).value, Find(a + b, late, 0).value;
    OccursInExtension(a, b, seen, k);
    OccursChars(a + b, seen, k);
    OccursChars(a + b, late, j);
    if j + |late| <= |a| {
      OccursInExtension(a, b, late, j);
    }
  }

  /** A one-character search reports that character. */
  lemma {:induction false} FindChar(s: string, c: char)
    ensures match Find(s, [c], 0)
            case None => c !in s
            case Some(k) => s[k] == c && c !in s[..k]
  {
    forall j: nat | j < |s| ensures OccursAt(s, [c], j) <==> s[j] == c {
      assert s[j..j + 1] == [s[j]];
    }
  }

  lemma {:induction false} FindCharIs(s: string, c: char, k: nat)
    requires k < |s| && s[k] == c && c !in s[..k]
    ensures Find(s, [c], 0) == Some(k)
  {
    FindChar(s, c);
    assert forall j | 0 <= j < k :: s[j] == s[..k][j];
  }

  lemma {:induction false} FindCharBehindPrefix(s: string, prefix: string, c: char)
    requires prefix <= s && c !in prefix
    ensures Find(s, [c], 0).Some? ==> |prefix| <= Find(s, [c], 0).value
  {
    FindChar(s, c);
  }

  /** Searching from `k` is searching the suffix at `k`. */
  lemma {:induction false} FindShift(s: string, t: string, k: nat)
    requires k <= |s|
    ensures Find(s, t, k) == match Find(s[k..], t, 0) { case None => None case Some(i) => Some(k + i) }
  {
    hide OccursAt, Find;
    assert s == s[..k] + s[k..];
    forall j: nat | k <= j ensures OccursAt(s, t, j) <==> OccursAt(s[k..], t, j - k) {
      OccursInSuffix(s[..k], s[k..], t, j);
    }
    match Find(s[k..], t, 0)
    case None => FindNone(s, t, k);
    case Some(i) =>
      assert OccursAt(s, t, k + i);
      FindIs(s, t, k, k + i);
  }

  /** A text whose only `<` comes first contains no other tag than a prefix of it. */
  lemma {:induction false} SingleAngleFree(s: string, t: string)
    requires IsTag(t) && s != "" && '<' !in s[1..] && !(t <= s)
    ensures Free(s, t)
  {
    forall i: nat ensures !OccursAt(s, t, i) {
      if i > 0 && i < |s| {
        assert s[i] == s[1..][i - 1];
        assert s[i] != '<' && t[0] == '<';
      }
      if OccursAt(s, t, i) {
        OccursChars(s, t, i);
      }
    }
  }

  // ----- Chunks of a stream -----

  function Concat(chunks: seq<string>): string {
    if chunks == [] then "" else chunks[0] + Concat(chunks[1..])
  }

  lemma {:induction false} ConcatAppend(a: seq<string>, b: seq<string>)
    ensures Concat(a + b) == Concat(a) + Concat(b)
    decreases |a|
  {
    if a == [] {
      assert a + b == b;
    } else {
      ConcatAppend(a[1..], b);
      assert (a + b)[1..] == a[1..] + b && (a + b)[0] == a[0];
      assert a[0] + (Concat(a[1..]) + Concat(b)) == (a[0] + Concat(a[1..])) + Concat(b);
    }
  }
}
