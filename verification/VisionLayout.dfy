/** Where the pixels of an image or video end up in the patch matrix: the
    nine-dimensional view, permutation and reshape of `process_image`. */
module VisionLayout {
  import opened Arithmetic

  // ----- Row-major positions -----

  function Size(dims: seq<nat>): nat {
    if dims == [] then 1 else dims[0] * Size(dims[1..])
  }

  predicate In(idx: seq<nat>, dims: seq<nat>) {
    |idx| == |dims| && forall k | 0 <= k < |dims| :: idx[k] < dims[k]
  }

  function Flat(idx: seq<nat>, dims: seq<nat>): nat
    requires |idx| == |dims|
  {
    if dims == [] then 0 else idx[0] * Size(dims[1..]) + Flat(idx[1..], dims[1..])
  }

  function Unflat(n: nat, dims: seq<nat>): (idx: seq<nat>)
    requires forall k | 0 <= k < |dims| :: dims[k] > 0
    ensures |idx| == |dims|
    decreases |dims|
  {
    if dims == [] then []
    else
      SizePositive(dims[1..]);
      [n / Size(dims[1..])] + Unflat(n % Size(dims[1..]), dims[1..])
  }

  lemma {:induction false} SizePositive(dims: seq<nat>)
    requires forall k | 0 <= k < |dims| :: dims[k] > 0
    ensures Size(dims) > 0
    decreases |dims|
  {
    if dims != [] {
      SizePositive(dims[1..]);
    }
  }

  lemma {:induction false} FlatBound(idx: seq<nat>, dims: seq<nat>)
    requires In(idx, dims)
    ensures Flat(idx, dims) < Size(dims)
    decreases |dims|
  {
    if dims != [] {
      FlatBound(idx[1..], dims[1..]);
      MulGap(idx[0], dims[0], Size(dims[1..]));
    }
  }

  lemma {:induction false} UnflatOfFlat(idx: seq<nat>, dims: seq<nat>)
    requires In(idx, dims)
    ensures forall k | 0 <= k < |dims| :: dims[k] > 0
    ensures Unflat(Flat(idx, dims), dims) == idx
    decreases |dims|
  {
    if dims != [] {
      FlatBound(idx[1..], dims[1..]);
      UnflatOfFlat(idx[1..], dims[1..]);
      DivModUnique(Flat(idx, dims), Size(dims[1..]), idx[0], Flat(idx[1..], dims[1..]));
      assert [idx[0]] + idx[1..] == idx;
    }
  }

  lemma {:induction false} FlatOfUnflat(n: nat, dims: seq<nat>)
    requires (forall k | 0 <= k < |dims| :: dims[k] > 0) && n < Size(dims)
    ensures In(Unflat(n, dims), dims) && Flat(Unflat(n, dims), dims) == n
    decreases |dims|
  {
    if dims != [] {
      var later := dims[1..];
      SizePositive(later);
      var q, r := n / Size(later), n % Size(later);
      assert n == q * Size(later) + r;
      if q >= dims[0] { MulMonotone(dims[0], q, Size(later)); }
      FlatOfUnflat(r, later);
      var idx := Unflat(n, dims);
      assert idx[1..] == Unflat(r, later);
      forall k | 0 <= k < |dims| ensures idx[k] < dims[k] {
        assert k > 0 ==> idx[k] == idx[1..][k - 1] && dims[k] == later[k - 1];
      }
    }
  }

  lemma {:induction false} SizeConcat(a: seq<nat>, b: seq<nat>)
    ensures Size(a + b) == Size(a) * Size(b)
    decreases |a|
  {
    if a == [] {
      assert a + b == b;
    } else {
      SizeConcat(a[1..], b);
      assert (a + b)[1..] == a[1..] + b && (a + b)[0] == a[0];
      assert a[0] * (Size(a[1..]) * Size(b)) == (a[0] * Size(a[1..])) * Size(b);
    }
  }

  /** The leading digits count blocks of the trailing ones. */
  lemma {:induction false} FlatConcat(i: seq<nat>, j: seq<nat>, a: seq<nat>, b: seq<nat>)
    requires |i| == |a| && |j| == |b|
    ensures Flat(i + j, a + b) == Flat(i, a) * Size(b) + Flat(j, b)
    decreases |a|
  {
    if a == [] {
      assert i + j == j && a + b == b;
    } else {
      FlatConcat(i[1..], j, a[1..], b);
      assert (a + b)[1..] == a[1..] + b && (a + b)[0] == a[0];
      assert (i + j)[1..] == i[1..] + j && (i + j)[0] == i[0];
      SizeConcat(a[1..], b);
      Distribute(i[0], Size(a[1..]), Size(b), Flat(i[1..], a[1..]));
    }
  }

  lemma {:induction false} Distribute(x: nat, s: nat, t: nat, f: nat)
    ensures x * (s * t) + f * t == (x * s + f) * t
  {
  }

  lemma {:induction false} OneDigit(i: nat, a: nat)
    ensures Flat([i], [a]) == i && Size([a]) == a
  {
    assert [i][1..] == [] && [a][1..] == [];
  }

  lemma {:induction false} TwoDigits(i: nat, j: nat, a: nat, b: nat)
    ensures Flat([i, j], [a, b]) == i * b + j && Size([a, b]) == a * b
  {
    assert [i, j] == [i] + [j] && [a, b] == [a] + [b];
    FlatConcat([i], [j], [a], [b]);
    SizeConcat([a], [b]);
    OneDigit(i, a);
    OneDigit(j, b);
  }

  /** Splitting one axis into two keeps every flat position. */
  lemma {:induction false} SplitAxis(fi: seq<nat>, i: nat, j: nat, ti: seq<nat>, fd: seq<nat>, a: nat, b: nat, td: seq<nat>)
    requires |fi| == |fd| && |ti| == |td|
    ensures Flat(fi + [i, j] + ti, fd + [a, b] + td) == Flat(fi + [i * b + j] + ti, fd + [a * b] + td)
    ensures Size(fd + [a, b] + td) == Size(fd + [a * b] + td)
  {
    hide Flat, Size;
    FlatConcat(fi + [i, j], ti, fd + [a, b], td);
    FlatConcat(fi, [i, j], fd, [a, b]);
    FlatConcat(fi + [i * b + j], ti, fd + [a * b], td);
    FlatConcat(fi, [i * b + j], fd, [a * b]);
    SizeConcat(fd + [a, b], td);
    SizeConcat(fd, [a, b]);
    SizeConcat(fd + [a * b], td);
    SizeConcat(fd, [a * b]);
    TwoDigits(i, j, a, b);
    OneDigit(i * b + j, a * b);
  }

  // ----- The shapes -----

  /** Frames come in groups of `tp`; a patch is `p` by `p` pixels; `gh` by `gw`
      merge neighbourhoods of `m` by `m` patches cover a frame. */
  datatype Shape = Shape(t: nat, tp: nat, c: nat, gh: nat, gw: nat, m: nat, p: nat)

  predicate Solid(s: Shape) {
    s.t > 0 && s.tp > 0 && s.c > 0 && s.gh > 0 && s.gw > 0 && s.m > 0 && s.p > 0
  }

  /** Frames, channels, rows and columns. */
  function Pixels(s: Shape): seq<nat> {
    [s.t * s.tp, s.c, s.gh * s.m * s.p, s.gw * s.m * s.p]
  }

  function ViewDims(s: Shape): seq<nat> {
    [s.t, s.tp, s.c, s.gh, s.m, s.p, s.gw, s.m, s.p]
  }

  const PERMUTATION: seq<nat> := [0, 3, 6, 4, 7, 2, 1, 5, 8]
  const INVERSE: seq<nat> := [0, 6, 5, 1, 3, 7, 2, 4, 8]

  function Permute(idx: seq<nat>, perm: seq<nat>): (r: seq<nat>)
    requires forall k | 0 <= k < |perm| :: perm[k] < |idx|
    ensures |r| == |perm| && forall k | 0 <= k < |perm| :: r[k] == idx[perm[k]]
  {
    seq(|perm|, k requires 0 <= k < |perm| => idx[perm[k]])
  }

  function Matrix(s: Shape): seq<nat> {
    [s.t * (s.gh * s.m) * (s.gw * s.m), s.c * s.tp * s.p * s.p]
  }

  function PermutedDims(s: Shape): seq<nat> {
    Permute(ViewDims(s), PERMUTATION)
  }

  /** The row and column of a pixel: flat position, view, permute, reshape. */
  function Position(s: Shape, at: seq<nat>): seq<nat>
    requires Solid(s) && In(at, Pixels(s))
  {
    var viewed := Unflat(Flat(at, Pixels(s)), ViewDims(s));
    MatrixSolid(s);
    Unflat(Flat(Permute(viewed, PERMUTATION), PermutedDims(s)), Matrix(s))
  }

  lemma {:induction false} MatrixSolid(s: Shape)
    requires Solid(s)
    ensures forall k | 0 <= k < |Matrix(s)| :: Matrix(s)[k] > 0
    ensures forall k | 0 <= k < |Pixels(s)| :: Pixels(s)[k] > 0
    ensures forall k | 0 <= k < |PermutedDims(s)| :: PermutedDims(s)[k] > 0
  {
    Positive(s.gh, s.m);
    Positive(s.gw, s.m);
    Positive(s.t, s.gh * s.m);
    Positive(s.t * (s.gh * s.m), s.gw * s.m);
    Positive(s.c, s.tp);
    Positive(s.c * s.tp, s.p);
    Positive(s.c * s.tp * s.p, s.p);
    Positive(s.t, s.tp);
    Positive(s.gh * s.m, s.p);
    Positive(s.gw * s.m, s.p);
  }

  lemma {:induction false} Positive(x: nat, y: nat)
    requires x > 0 && y > 0
    ensures x * y > 0
  {
  }

  /** Where a matrix entry comes from. */
  function Origin(s: Shape, entry: seq<nat>): seq<nat>
    requires Solid(s) && In(entry, Matrix(s))
  {
    MatrixSolid(s);
    var permuted := Unflat(Flat(entry, Matrix(s)), PermutedDims(s));
    Unflat(Flat(Permute(permuted, INVERSE), ViewDims(s)), Pixels(s))
  }

  /** The nine digits of a pixel have its flat position. */
  lemma {:induction false} PixelDigits(s: Shape, t: nat, tp: nat, c: nat, gh: nat, mh: nat, ph: nat, gw: nat, mw: nat, pw: nat)
    ensures Flat([t, tp, c, gh, mh, ph, gw, mw, pw], ViewDims(s))
         == Flat([t * s.tp + tp, c, (gh * s.m + mh) * s.p + ph, (gw * s.m + mw) * s.p + pw], Pixels(s))
    ensures Size(ViewDims(s)) == Size(Pixels(s))
  {
    hide Flat, Size;
    var f, y, x := t * s.tp + tp, gh * s.m + mh, gw * s.m + mw;
    var df, dy, dx := s.t * s.tp, s.gh * s.m, s.gw * s.m;
    SplitAxis([], t, tp, [c, gh, mh, ph, gw, mw, pw], [], s.t, s.tp, [s.c, s.gh, s.m, s.p, s.gw, s.m, s.p]);
    assert [] + [t, tp] + [c, gh, mh, ph, gw, mw, pw] == [t, tp, c, gh, mh, ph, gw, mw, pw];
    assert [] + [s.t, s.tp] + [s.c, s.gh, s.m, s.p, s.gw, s.m, s.p] == ViewDims(s);
    SplitRows(s, f, c, gh, mh, ph, gw, mw, pw, df);
    assert [] + [f] + [c, gh, mh, ph, gw, mw, pw] == [f, c, gh, mh, ph, gw, mw, pw];
    assert [] + [df] + [s.c, s.gh, s.m, s.p, s.gw, s.m, s.p] == [df, s.c, s.gh, s.m, s.p, s.gw, s.m, s.p];
  }

  lemma {:induction false} SplitRows(s: Shape, f: nat, c: nat, gh: nat, mh: nat, ph: nat, gw: nat, mw: nat, pw: nat, df: nat)
    ensures Flat([f, c, gh, mh, ph, gw, mw, pw], [df, s.c, s.gh, s.m, s.p, s.gw, s.m, s.p])
         == Flat([f, c, (gh * s.m + mh) * s.p + ph, (gw * s.m + mw) * s.p + pw],
                 [df, s.c, s.gh * s.m * s.p, s.gw * s.m * s.p])
    ensures Size([df, s.c, s.gh, s.m, s.p, s.gw, s.m, s.p]) == Size([df, s.c, s.gh * s.m * s.p, s.gw * s.m * s.p])
  {
    hide Flat, Size;
    var y, dy := gh * s.m + mh, s.gh * s.m;
    SplitAxis([f, c], gh, mh, [ph, gw, mw, pw], [df, s.c], s.gh, s.m, [s.p, s.gw, s.m, s.p]);
    assert [f, c] + [gh, mh] + [ph, gw, mw, pw] == [f, c, gh, mh, ph, gw, mw, pw];
    assert [df, s.c] + [s.gh, s.m] + [s.p, s.gw, s.m, s.p] == [df, s.c, s.gh, s.m, s.p, s.gw, s.m, s.p];
    assert [f, c] + [y] + [ph, gw, mw, pw] == [f, c] + [y, ph] + [gw, mw, pw];
    assert [df, s.c] + [dy] + [s.p, s.gw, s.m, s.p] == [df, s.c] + [dy, s.p] + [s.gw, s.m, s.p];
    SplitAxis([f, c], y, ph, [gw, mw, pw], [df, s.c], dy, s.p, [s.gw, s.m, s.p]);
    SplitColumns(s, [f, c, y * s.p + ph], gw, mw, pw, [df, s.c, dy * s.p]);
    assert [f, c] + [y * s.p + ph] + [gw, mw, pw] == [f, c, y * s.p + ph] + [gw, mw] + [pw];
    assert [df, s.c] + [dy * s.p] + [s.gw, s.m, s.p] == [df, s.c, dy * s.p] + [s.gw, s.m] + [s.p];
    assert [f, c, y * s.p + ph] + [(gw * s.m + mw) * s.p + pw] == [f, c, y * s.p + ph, (gw * s.m + mw) * s.p + pw];
    assert [df, s.c, dy * s.p] + [s.gw * s.m * s.p] == [df, s.c, dy * s.p, s.gw * s.m * s.p];
  }

  lemma {:induction false} SplitColumns(s: Shape, fi: seq<nat>, gw: nat, mw: nat, pw: nat, fd: seq<nat>)
    requires |fi| == |fd|
    ensures Flat(fi + [gw, mw] + [pw], fd + [s.gw, s.m] + [s.p]) == Flat(fi + [(gw * s.m + mw) * s.p + pw], fd + [s.gw * s.m * s.p])
    ensures Size(fd + [s.gw, s.m] + [s.p]) == Size(fd + [s.gw * s.m * s.p])
  {
    hide Flat, Size;
    var x, dx := gw * s.m + mw, s.gw * s.m;
    SplitAxis(fi, gw, mw, [pw], fd, s.gw, s.m, [s.p]);
    SplitAxis(fi, x, pw, [], fd, dx, s.p, []);
    assert fi + [x] + [pw] == fi + [x, pw] + [] && fd + [dx] + [s.p] == fd + [dx, s.p] + [];
    assert fi + [x * s.p + pw] + [] == fi + [x * s.p + pw] && fd + [dx * s.p] + [] == fd + [dx * s.p];
  }
}
