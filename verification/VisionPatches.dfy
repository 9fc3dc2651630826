/** The patch layout is a bijection, and each placeholder token stands for exactly
    one merge neighbourhood of patches. */
module VisionPatches {
  import opened Arithmetic
  import opened VisionLayout
  import opened VisionPrompt

  /** The nine digits of a pixel. */
  datatype Digits = Digits(t: nat, tp: nat, c: nat, gh: nat, mh: nat, ph: nat, gw: nat, mw: nat, pw: nat)

  predicate Fits(s: Shape, d: Digits) {
    && d.t < s.t && d.tp < s.tp && d.c < s.c && d.gh < s.gh && d.mh < s.m && d.ph < s.p
    && d.gw < s.gw && d.mw < s.m && d.pw < s.p
  }

  function Viewed(d: Digits): seq<nat> {
    [d.t, d.tp, d.c, d.gh, d.mh, d.ph, d.gw, d.mw, d.pw]
  }

  function Permuted(d: Digits): seq<nat> {
    [d.t, d.gh, d.gw, d.mh, d.mw, d.c, d.tp, d.ph, d.pw]
  }

  /** Frame, channel, row and column of a pixel with these digits. */
  function Pixel(s: Shape, d: Digits): seq<nat> {
    [d.t * s.tp + d.tp, d.c, (d.gh * s.m + d.mh) * s.p + d.ph, (d.gw * s.m + d.mw) * s.p + d.pw]
  }

  /** The number of the placeholder token: frame group, then neighbourhood. */
  function TokenIndex(s: Shape, d: Digits): nat {
    (d.t * s.gh + d.gh) * s.gw + d.gw
  }

  function Row(s: Shape, d: Digits): nat {
    TokenIndex(s, d) * (s.m * s.m) + (d.mh * s.m + d.mw)
  }

  function Column(s: Shape, d: Digits): nat {
    ((d.c * s.tp + d.tp) * s.p + d.ph) * s.p + d.pw
  }

  function DigitsOf(s: Shape, at: seq<nat>): Digits
    requires Solid(s) && |at| == 4
  {
    var f, y, x := Split(at[0], s.tp), Split(at[2], s.p), Split(at[3], s.p);
    var (gh, mh) := Split(y.0, s.m);
    var (gw, mw) := Split(x.0, s.m);
    Digits(f.0, f.1, at[1], gh, mh, y.1, gw, mw, x.1)
  }

  function Split(n: nat, b: nat): (nat, nat)
    requires b > 0
  {
    (n / b, n % b)
  }

  lemma {:induction false} QuotientBelow(n: nat, a: nat, b: nat)
    requires b > 0 && n < a * b
    ensures n / b < a && n == (n / b) * b + n % b
  {
    if n / b >= a {
      MulMonotone(a, n / b, b);
    }
  }

  lemma {:induction false} DigitsFit(s: Shape, at: seq<nat>)
    requires Solid(s) && In(at, Pixels(s))
    ensures Fits(s, DigitsOf(s, at)) && Pixel(s, DigitsOf(s, at)) == at
  {
    QuotientBelow(at[0], s.t, s.tp);
    QuotientBelow(at[2], s.gh * s.m, s.p);
    QuotientBelow(at[2] / s.p, s.gh, s.m);
    QuotientBelow(at[3], s.gw * s.m, s.p);
    QuotientBelow(at[3] / s.p, s.gw, s.m);
  }

  lemma {:induction false} PixelIn(s: Shape, d: Digits)
    requires Fits(s, d)
    ensures In(Pixel(s, d), Pixels(s))
  {
    DigitsBelow(d.t, d.tp, s.t, s.tp);
    DigitsBelow(d.gh, d.mh, s.gh, s.m);
    DigitsBelow(d.gh * s.m + d.mh, d.ph, s.gh * s.m, s.p);
    DigitsBelow(d.gw, d.mw, s.gw, s.m);
    DigitsBelow(d.gw * s.m + d.mw, d.pw, s.gw * s.m, s.p);
    var x, y := Pixel(s, d), Pixels(s);
    assert x[0] < y[0] && x[1] < y[1] && x[2] < y[2] && x[3] < y[3];
  }

  lemma {:induction false} DigitsBelow(i: nat, j: nat, a: nat, b: nat)
    requires i < a && j < b
    ensures i * b + j < a * b
  {
    MulGap(i, a, b);
  }

  lemma {:induction false} PermuteDigits(d: Digits)
    ensures Permute(Viewed(d), PERMUTATION) == [d.t, d.gh, d.gw, d.mh, d.mw, d.c, d.tp, d.ph, d.pw]
    ensures Permute([d.t, d.gh, d.gw, d.mh, d.mw, d.c, d.tp, d.ph, d.pw], INVERSE) == Viewed(d)
  {
  }

  lemma {:induction false} PermuteDims(s: Shape)
    ensures PermutedDims(s) == [s.t, s.gh, s.gw, s.m, s.m, s.c, s.tp, s.p, s.p]
  {
  }

  lemma {:induction false} RowDigits(s: Shape, d: Digits)
    ensures Flat([d.t, d.gh, d.gw, d.mh, d.mw], [s.t, s.gh, s.gw, s.m, s.m]) == Row(s, d)
    ensures Size([s.t, s.gh, s.gw, s.m, s.m]) == s.t * (s.gh * s.m) * (s.gw * s.m)
  {
    hide Flat, Size;
    assert [d.t, d.gh, d.gw, d.mh, d.mw] == [d.t, d.gh, d.gw] + [d.mh, d.mw];
    assert [s.t, s.gh, s.gw, s.m, s.m] == [s.t, s.gh, s.gw] + [s.m, s.m];
    FlatConcat([d.t, d.gh, d.gw], [d.mh, d.mw], [s.t, s.gh, s.gw], [s.m, s.m]);
    SizeConcat([s.t, s.gh, s.gw], [s.m, s.m]);
    TwoDigits(d.mh, d.mw, s.m, s.m);
    ThreeDigits(d.t, d.gh, d.gw, s.t, s.gh, s.gw);
    Exchange(s.t, s.gh, s.gw, s.m);
  }

  lemma {:induction false} ThreeDigits(i: nat, j: nat, k: nat, a: nat, b: nat, c: nat)
    ensures Flat([i, j, k], [a, b, c]) == (i * b + j) * c + k && Size([a, b, c]) == a * b * c
  {
    hide Flat, Size;
    assert [i, j, k] == [i, j] + [k] && [a, b, c] == [a, b] + [c];
    FlatConcat([i, j], [k], [a, b], [c]);
    SizeConcat([a, b], [c]);
    TwoDigits(i, j, a, b);
    OneDigit(k, c);
  }

  lemma {:induction false} Exchange(t: nat, h: nat, w: nat, m: nat)
    ensures (t * h * w) * (m * m) == t * (h * m) * (w * m)
  {
    assert t * (h * m) == (t * h) * m;
    assert ((t * h) * m) * (w * m) == ((t * h) * w) * (m * m) by { Swap(t * h, m, w); }
  }

  lemma {:induction false} Swap(x: nat, m: nat, w: nat)
    ensures (x * m) * (w * m) == (x * w) * (m * m)
  {
    assert (x * m) * (w * m) == x * (m * (w * m));
    assert m * (w * m) == w * (m * m);
    assert x * (w * (m * m)) == (x * w) * (m * m);
  }

  lemma {:induction false} ColumnDigits(s: Shape, d: Digits)
    ensures Flat([d.c, d.tp, d.ph, d.pw], [s.c, s.tp, s.p, s.p]) == Column(s, d)
    ensures Size([s.c, s.tp, s.p, s.p]) == s.c * s.tp * s.p * s.p
  {
    hide Flat, Size;
    assert [d.c, d.tp, d.ph, d.pw] == [d.c, d.tp, d.ph] + [d.pw] && [s.c, s.tp, s.p, s.p] == [s.c, s.tp, s.p] + [s.p];
    FlatConcat([d.c, d.tp, d.ph], [d.pw], [s.c, s.tp, s.p], [s.p]);
    SizeConcat([s.c, s.tp, s.p], [s.p]);
    ThreeDigits(d.c, d.tp, d.ph, s.c, s.tp, s.p);
    OneDigit(d.pw, s.p);
  }

  /** The permuted digits have the flat position of their row and column. */
  lemma {:induction false} MatrixDigits(s: Shape, d: Digits)
    ensures Flat([d.t, d.gh, d.gw, d.mh, d.mw, d.c, d.tp, d.ph, d.pw], PermutedDims(s))
         == Flat([Row(s, d), Column(s, d)], Matrix(s))
    ensures Size(PermutedDims(s)) == Size(Matrix(s))
  {
    hide Flat, Size, Row, Column;
    PermuteDims(s);
    var i, j := [d.t, d.gh, d.gw, d.mh, d.mw], [d.c, d.tp, d.ph, d.pw];
    var a, b := [s.t, s.gh, s.gw, s.m, s.m], [s.c, s.tp, s.p, s.p];
    assert i + j == [d.t, d.gh, d.gw, d.mh, d.mw, d.c, d.tp, d.ph, d.pw] && a + b == PermutedDims(s);
    FlatConcat(i, j, a, b);
    SizeConcat(a, b);
    RowDigits(s, d);
    ColumnDigits(s, d);
    TwoDigits(Row(s, d), Column(s, d), Matrix(s)[0], Matrix(s)[1]);
  }

  lemma {:induction false} EntryIn(s: Shape, d: Digits)
    requires Fits(s, d)
    ensures In([Row(s, d), Column(s, d)], Matrix(s))
  {
    RowDigits(s, d);
    ColumnDigits(s, d);
    FlatBound([d.t, d.gh, d.gw, d.mh, d.mw], [s.t, s.gh, s.gw, s.m, s.m]);
    FlatBound([d.c, d.tp, d.ph, d.pw], [s.c, s.tp, s.p, s.p]);
  }

  lemma {:induction false} DigitsIn(s: Shape, d: Digits)
    requires Fits(s, d)
    ensures In(Viewed(d), ViewDims(s)) && In(Permuted(d), PermutedDims(s))
  {
    hide Permute;
    PermuteDims(s);
  }

  /** A pixel's row is its token's block plus its patch in the neighbourhood, its
      column the position inside the patch. */
  lemma {:induction false} PositionOfPixel(s: Shape, d: Digits)
    requires Solid(s) && Fits(s, d)
    ensures In(Pixel(s, d), Pixels(s)) && In([Row(s, d), Column(s, d)], Matrix(s))
    ensures Position(s, Pixel(s, d)) == [Row(s, d), Column(s, d)]
    ensures Origin(s, [Row(s, d), Column(s, d)]) == Pixel(s, d)
  {
    PixelIn(s, d);
    EntryIn(s, d);
    PixelDigits(s, d.t, d.tp, d.c, d.gh, d.mh, d.ph, d.gw, d.mw, d.pw);
    DigitsIn(s, d);
    hide Flat, Unflat, Row, Column, Pixels, Matrix, ViewDims, Permute, PermutedDims, Fits, In;
    MatrixDigits(s, d);
    PermuteDigits(d);
    UnflatOfFlat(Viewed(d), ViewDims(s));
    UnflatOfFlat([Row(s, d), Column(s, d)], Matrix(s));
    UnflatOfFlat(Permuted(d), PermutedDims(s));
    UnflatOfFlat(Pixel(s, d), Pixels(s));
  }

  /** Every pixel has its own matrix entry, and goes back to where it came from. */
  lemma {:induction false} PixelsAreKept(s: Shape, at: seq<nat>)
    requires Solid(s) && In(at, Pixels(s))
    ensures In(Position(s, at), Matrix(s)) && Origin(s, Position(s, at)) == at
  {
    hide Position, Origin, Row, Column;
    DigitsFit(s, at);
    PositionOfPixel(s, DigitsOf(s, at));
  }

  function PermutedDigits(x: seq<nat>): Digits
    requires |x| == 9
  {
    Digits(x[0], x[6], x[5], x[1], x[3], x[7], x[2], x[4], x[8])
  }

  /** Every matrix entry is filled by exactly one pixel. */
  lemma {:induction false} EntriesAreFilled(s: Shape, entry: seq<nat>)
    requires Solid(s) && In(entry, Matrix(s))
    ensures In(Origin(s, entry), Pixels(s)) && Position(s, Origin(s, entry)) == entry
  {
    hide Position, Origin;
    MatrixSolid(s);
    FlatBound(entry, Matrix(s));
    MatrixDigits(s, Digits(0, 0, 0, 0, 0, 0, 0, 0, 0));
    FlatOfUnflat(Flat(entry, Matrix(s)), PermutedDims(s));
    var x := Unflat(Flat(entry, Matrix(s)), PermutedDims(s));
    var d := PermutedDigits(x);
    PermuteDims(s);
    EntryDigits(s, d, x, entry);
    PositionOfPixel(s, d);
  }

  lemma {:induction false} EntryDigits(s: Shape, d: Digits, x: seq<nat>, entry: seq<nat>)
    requires |x| == 9 && d == PermutedDigits(x) && In(entry, Matrix(s)) && In(x, PermutedDims(s))
    requires Flat(x, PermutedDims(s)) == Flat(entry, Matrix(s))
    ensures Fits(s, d) && [Row(s, d), Column(s, d)] == entry
  {
    hide Flat, Row, Column;
    PermuteDims(s);
    assert x == [d.t, d.gh, d.gw, d.mh, d.mw, d.c, d.tp, d.ph, d.pw];
    MatrixDigits(s, d);
    EntryIn(s, d);
    UnflatOfFlat([Row(s, d), Column(s, d)], Matrix(s));
    UnflatOfFlat(entry, Matrix(s));
  }

  /** The rows of token `j` are exactly the patches of the `j`-th neighbourhood: a
      pixel lies in them if and only if its frame group and neighbourhood are the
      digits of `j`. */
  lemma {:induction false} TokenRows(s: Shape, at: seq<nat>, j: nat)
    requires Solid(s) && In(at, Pixels(s)) && j < s.t * s.gh * s.gw
    ensures s.m * s.m > 0
    ensures j * (s.m * s.m) <= Position(s, at)[0] < (j + 1) * (s.m * s.m)
            <==> [at[0] / s.tp, at[2] / s.p / s.m, at[3] / s.p / s.m] == Unflat(j, [s.t, s.gh, s.gw])
  {
    hide Position, Origin, Flat, Unflat;
    Positive(s.m, s.m);
    DigitsFit(s, at);
    var d := DigitsOf(s, at);
    PositionOfPixel(s, d);
    MulGap(d.mh, s.m, s.m);
    var low := d.mh * s.m + d.mw;
    BlockOf(TokenIndex(s, d), low, s.m * s.m, j);
    ThreeDigits(d.t, d.gh, d.gw, s.t, s.gh, s.gw);
    var digits := [d.t, d.gh, d.gw];
    assert In(digits, [s.t, s.gh, s.gw]);
    UnflatOfFlat(digits, [s.t, s.gh, s.gw]);
    FlatOfUnflat(j, [s.t, s.gh, s.gw]);
  }

  lemma {:induction false} BlockOf(q: nat, low: nat, m: nat, j: nat)
    requires m > 0 && low < m
    ensures j * m <= q * m + low < (j + 1) * m <==> q == j
  {
    assert (j + 1) * m == j * m + m;
    MulGap(q, j, m);
    MulGap(j, q, m);
  }

  /** No rounding: the matrix has exactly `merge²` rows for every placeholder. */
  lemma {:induction false} RowsPerPlaceholder(s: Shape, c: Config)
    requires Solid(s) && c.mergeSize == s.m
    ensures ImageTokens(c, Grid(s.t, s.gh * s.m, s.gw * s.m)) == s.t * s.gh * s.gw
    ensures Matrix(s)[0] == ImageTokens(c, Grid(s.t, s.gh * s.m, s.gw * s.m)) * (s.m * s.m)
  {
    Positive(s.m, s.m);
    Exchange(s.t, s.gh, s.gw, s.m);
    DivModUnique(s.t * (s.gh * s.m) * (s.gw * s.m), s.m * s.m, s.t * s.gh * s.gw, 0);
  }
}
