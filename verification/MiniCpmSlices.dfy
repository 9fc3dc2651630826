/** MiniCPM-V image slicing: the grid an image is cut into, the size it is refined
    to, the slices, and the placeholders the prompt gets for them. */
module MiniCpmSlices {
  import opened Wrappers
  import opened Arithmetic

  datatype Size = Size(w: nat, h: nat)

  /** Columns and rows. */
  type Grid = (nat, nat)

  function CeilDiv(a: nat, b: nat): nat
    requires b > 0
  {
    (a + b - 1) / b
  }

  lemma {:induction false} CeilDivBounds(a: nat, b: nat)
    requires b > 0
    ensures (CeilDiv(a, b)) * b >= a && (a > 0 ==> CeilDiv(a, b) > 0 && (CeilDiv(a, b) - 1) * b < a)
  {
    var n := CeilDiv(a, b);
    assert a + b - 1 == n * b + (a + b - 1) % b;
    if a > 0 {
      assert (n - 1) * b == n * b - b;
    }
  }

  lemma {:induction false} CeilDivIs(a: nat, b: nat, n: nat)
    requires b > 0 && n * b >= a && (n == 0 || (n - 1) * b < a)
    ensures CeilDiv(a, b) == n
  {
    if n == 0 {
      DivModUnique(b - 1, b, 0, b - 1);
    } else {
      assert (n - 1) * b == n * b - b;
      DivModUnique(a + b - 1, b, n, a + b - 1 - n * b);
    }
  }

  // ----- The grid -----

  /** The larger of the two quotients of the aspect ratios: the exponential of
      `|log(w / h) - log(columns / rows)|`, so it orders grids as that error does. */
  function Spread(size: Size, g: Grid): real
    requires size.w > 0 && size.h > 0 && g.0 > 0 && g.1 > 0
  {
    var a, b := (size.w * g.1) as real, (size.h * g.0) as real;
    Positive(size.w, g.1);
    Positive(size.h, g.0);
    if a >= b then a / b else b / a
  }

  lemma {:induction false} Positive(x: nat, y: nat)
    requires x > 0 && y > 0
    ensures x * y > 0
  {
  }

  function Multiple(size: Size, maxSlices: int, scale: nat): int
    requires scale > 0
  {
    Positive(scale, scale);
    var n := CeilDiv(size.w * size.h, scale * scale);
    if n < maxSlices then n else maxSlices
  }

  predicate Proper(gs: seq<Grid>) {
    forall k | 0 <= k < |gs| :: gs[k].0 > 0 && gs[k].1 > 0
  }

  /** The factor pairs of `n` with at most `m` columns. */
  function FactorPairs(n: nat, m: nat): (r: seq<Grid>)
    requires m <= n
    ensures Proper(r)
  {
    if m == 0 then []
    else
      var front := FactorPairs(n, m - 1);
      if n % m == 0 then QuotientPositive(n, m); front + [(m, n / m)] else front
  }

  lemma {:induction false} QuotientPositive(n: nat, m: nat)
    requires 0 < m <= n && n % m == 0
    ensures n / m > 0 && m * (n / m) == n
  {
    assert n == (n / m) * m;
  }

  function PairsOfCount(count: int, maxSlices: int): (r: seq<Grid>)
    ensures Proper(r)
  {
    if 1 < count <= maxSlices then FactorPairs(count, count) else []
  }

  /** The pairs of the first `k` of the three counts around `multiple`. */
  function CandidatesUpTo(multiple: int, maxSlices: int, k: nat): (r: seq<Grid>)
    requires k <= 3
    ensures Proper(r)
  {
    if k == 0 then [] else CandidatesUpTo(multiple, maxSlices, k - 1) + PairsOfCount(multiple - 2 + k, maxSlices)
  }

  function Candidates(multiple: int, maxSlices: int): (r: seq<Grid>)
    ensures Proper(r)
  {
    CandidatesUpTo(multiple, maxSlices, 3)
  }

  /** The first candidate with the least error. */
  function Best(size: Size, gs: seq<Grid>): (g: Option<Grid>)
    requires size.w > 0 && size.h > 0 && Proper(gs)
    ensures g.Some? ==> g.value in gs && g.value.0 > 0 && g.value.1 > 0
    decreases |gs|
  {
    if gs == [] then None
    else
      var last := gs[|gs| - 1];
      match Best(size, gs[..|gs| - 1])
      case None => Some(last)
      case Some(g) => if Spread(size, last) < Spread(size, g) then Some(last) else Some(g)
  }

  function SlicedGrid(size: Size, maxSlices: int, scale: nat, neverSplit: bool): Option<Grid>
    requires size.w > 0 && size.h > 0 && scale > 0
  {
    var multiple := Multiple(size, maxSlices, scale);
    if neverSplit || multiple <= 1 then None
    else match Best(size, Candidates(multiple, maxSlices))
      case None => Some((1, 1))
      case Some(g) => Some(g)
  }

  method CandidateGrids(multiple: int, maxSlices: int) returns (gs: seq<Grid>)
    ensures gs == Candidates(multiple, maxSlices)
  {
    hide FactorPairs;
    var counts := [multiple - 1, multiple, multiple + 1];
    gs := [];
    var k := 0;
    while k < 3
      invariant 0 <= k <= 3
      invariant gs == CandidatesUpTo(multiple, maxSlices, k)
    {
      assert counts[k] == multiple - 2 + (k + 1);
      if counts[k] > 1 && counts[k] <= maxSlices {
        gs := AppendFactorPairs(gs, counts[k]);
      } else {
        assert gs + [] == gs;
      }
      k := k + 1;
    }
  }

  method AppendFactorPairs(gs: seq<Grid>, n: nat) returns (out: seq<Grid>)
    ensures out == gs + FactorPairs(n, n)
  {
    out := gs;
    var m := 1;
    while m <= n
      invariant 1 <= m <= n + 1
      invariant out == gs + FactorPairs(n, m - 1)
    {
      if n % m == 0 {
        out := out + [(m, n / m)];
      }
      m := m + 1;
    }
  }

  /** `get_sliced_grid`. */
  method GetSlicedGrid(size: Size, maxSlices: int, scale: nat, neverSplit: bool) returns (r: Option<Grid>)
    requires size.w > 0 && size.h > 0 && scale > 0
    ensures r == SlicedGrid(size, maxSlices, scale, neverSplit)
  {
    hide Candidates, Spread;
    var multiple := Multiple(size, maxSlices, scale);
    if neverSplit || multiple <= 1 {
      return None;
    }
    var candidates := CandidateGrids(multiple, maxSlices);
    var bestGrid: Grid := (1, 1);
    var minError: Option<real> := None;
    var k := 0;
    while k < |candidates|
      invariant 0 <= k <= |candidates|
      invariant match Best(size, candidates[..k])
                case None => bestGrid == (1, 1) && minError == None
                case Some(g) => bestGrid == g && minError == Some(Spread(size, g))
    {
      assert candidates[..k + 1][..k] == candidates[..k];
      var error := Spread(size, candidates[k]);
      if minError.None? || error < minError.value {
        bestGrid, minError := candidates[k], Some(error);
      }
      k := k + 1;
    }
    assert candidates[..k] == candidates;
    r := Some(bestGrid);
  }

  lemma {:induction false} FactorPairsAre(n: nat, m: nat, g: Grid)
    requires 0 < m <= n
    ensures g in FactorPairs(n, m) <==> 0 < g.0 <= m && g.0 * g.1 == n
    decreases m
  {
    if m > 1 {
      FactorPairsAre(n, m - 1, g);
    } else {
      assert FactorPairs(n, 0) == [];
    }
    if n % m == 0 {
      QuotientPositive(n, m);
    }
    if g.0 == m && g.0 * g.1 == n {
      assert g.1 * m == n;
      DivModUnique(n, m, g.1, 0);
    }
  }

  /** A factor pair of an allowed count next to the wanted one. */
  predicate Allowed(g: Grid, multiple: int, maxSlices: int) {
    && g.0 > 0 && g.1 > 0 && 2 <= g.0 * g.1 <= maxSlices && multiple - 1 <= g.0 * g.1 <= multiple + 1
  }

  lemma {:induction false} FirstFactorFits(g: Grid)
    requires g.1 > 0
    ensures g.0 <= g.0 * g.1
  {
    MulMonotone(1, g.1, g.0);
    assert g.1 * g.0 == g.0 * g.1;
  }

  lemma {:induction false} PairsOfCountAre(count: int, maxSlices: int, g: Grid)
    requires count > 0
    ensures g in PairsOfCount(count, maxSlices) <==>
            g.0 > 0 && g.1 > 0 && g.0 * g.1 == count && 1 < count <= maxSlices
  {
    if 1 < count <= maxSlices {
      FactorPairsAre(count, count, g);
      if g.1 > 0 {
        FirstFactorFits(g);
      } else {
        assert g.0 * g.1 == 0;
      }
    }
  }

  lemma {:induction false} ThreeCounts(multiple: int, maxSlices: int)
    ensures Candidates(multiple, maxSlices) == ([] + PairsOfCount(multiple - 1, maxSlices))
            + PairsOfCount(multiple, maxSlices) + PairsOfCount(multiple + 1, maxSlices)
  {
    hide PairsOfCount;
    assert CandidatesUpTo(multiple, maxSlices, 0) == [];
    assert CandidatesUpTo(multiple, maxSlices, 1) == [] + PairsOfCount(multiple - 1, maxSlices);
    assert CandidatesUpTo(multiple, maxSlices, 2) == CandidatesUpTo(multiple, maxSlices, 1) + PairsOfCount(multiple, maxSlices);
  }

  lemma {:induction false} CandidatesAre(multiple: int, maxSlices: int, g: Grid)
    requires multiple > 1
    ensures g in Candidates(multiple, maxSlices) <==> Allowed(g, multiple, maxSlices)
  {
    hide PairsOfCount;
    assert Candidates(multiple, maxSlices) == ([] + PairsOfCount(multiple - 1, maxSlices))
        + PairsOfCount(multiple, maxSlices) + PairsOfCount(multiple + 1, maxSlices) by { ThreeCounts(multiple, maxSlices); }
    PairsOfCountAre(multiple - 1, maxSlices, g);
    PairsOfCountAre(multiple, maxSlices, g);
    PairsOfCountAre(multiple + 1, maxSlices, g);
  }

  lemma {:induction false} BestIsLeast(size: Size, gs: seq<Grid>, k: nat)
    requires size.w > 0 && size.h > 0 && Proper(gs) && k < |gs|
    ensures Best(size, gs).Some? && Spread(size, Best(size, gs).value) <= Spread(size, gs[k])
    decreases |gs|
  {
    hide Spread;
    if k < |gs| - 1 {
      assert gs[..|gs| - 1][k] == gs[k];
      BestIsLeast(size, gs[..|gs| - 1], k);
    }
  }

  /** Fewer slices first, then fewer columns. */
  predicate Before(a: Grid, b: Grid) {
    a.0 * a.1 < b.0 * b.1 || (a.0 * a.1 == b.0 * b.1 && a.0 < b.0)
  }

  predicate InOrder(gs: seq<Grid>) {
    forall i, j | 0 <= i < j < |gs| :: Before(gs[i], gs[j])
  }

  lemma {:induction false} FactorPairsInOrder(n: nat, m: nat)
    requires m <= n
    ensures InOrder(FactorPairs(n, m)) && forall i | 0 <= i < |FactorPairs(n, m)| ::
              FactorPairs(n, m)[i].0 * FactorPairs(n, m)[i].1 == n && FactorPairs(n, m)[i].0 <= m
    decreases m
  {
    if m > 0 {
      FactorPairsInOrder(n, m - 1);
      if n % m == 0 {
        QuotientPositive(n, m);
      }
    }
  }

  lemma {:induction false} CandidatesInOrder(multiple: int, maxSlices: int)
    ensures InOrder(Candidates(multiple, maxSlices))
  {
    hide FactorPairs, Before;
    ThreeCounts(multiple, maxSlices);
    forall count | multiple - 1 <= count <= multiple + 1 && 1 < count <= maxSlices ensures InOrder(FactorPairs(count, count)) {
      FactorPairsInOrder(count, count);
    }
    var a, b, c := PairsOfCount(multiple - 1, maxSlices), PairsOfCount(multiple, maxSlices), PairsOfCount(multiple + 1, maxSlices);
    CountsApart(multiple - 1, multiple, maxSlices);
    CountsApart(multiple - 1, multiple + 1, maxSlices);
    CountsApart(multiple, multiple + 1, maxSlices);
    OrderConcat([], a);
    OrderConcat([] + a, b);
    OrderConcat([] + a + b, c);
  }

  predicate AllBefore(a: seq<Grid>, b: seq<Grid>) {
    forall i, j | 0 <= i < |a| && 0 <= j < |b| :: Before(a[i], b[j])
  }

  lemma {:induction false} CountsApart(n: int, m: int, maxSlices: int)
    requires n < m
    ensures AllBefore(PairsOfCount(n, maxSlices), PairsOfCount(m, maxSlices))
    ensures InOrder(PairsOfCount(n, maxSlices)) && InOrder(PairsOfCount(m, maxSlices))
  {
    hide FactorPairs;
    if 1 < n <= maxSlices { FactorPairsInOrder(n, n); }
    if 1 < m <= maxSlices { FactorPairsInOrder(m, m); }
  }

  lemma {:induction false} OrderConcat(a: seq<Grid>, b: seq<Grid>)
    requires InOrder(a) && InOrder(b) && AllBefore(a, b)
    ensures InOrder(a + b)
    ensures forall c: seq<Grid> :: AllBefore(a, c) && AllBefore(b, c) ==> AllBefore(a + b, c)
  {
    hide Before;
  }

  /** Among grids with the same error the first one is taken. */
  lemma {:induction false} BestIsFirst(size: Size, gs: seq<Grid>, k: nat)
    requires size.w > 0 && size.h > 0 && Proper(gs) && InOrder(gs) && k < |gs|
    requires Best(size, gs).Some? && Spread(size, gs[k]) == Spread(size, Best(size, gs).value)
    ensures Best(size, gs).value == gs[k] || Before(Best(size, gs).value, gs[k])
    decreases |gs|
  {
    hide Spread, Before;
    var n := |gs| - 1;
    assert InOrder(gs[..n]);
    if k < n {
      assert gs[..n][k] == gs[k];
      BestIsLeast(size, gs[..n], k);
      BestIsFirst(size, gs[..n], k);
    } else if n > 0 {
      var g := Best(size, gs).value;
      if g != gs[n] {
        assert g in gs[..n];
        var i :| 0 <= i < n && gs[i] == g;
      }
    }
  }

  /** For every image: no grid exactly when splitting is off or one slice is enough,
      and otherwise an allowed grid that no allowed grid beats, the one with fewer
      slices, then fewer columns, among equally good ones. */
  lemma {:induction false} GridIsBest(size: Size, maxSlices: int, scale: nat, neverSplit: bool)
    requires size.w > 0 && size.h > 0 && scale > 0
    ensures var multiple := Multiple(size, maxSlices, scale);
            match SlicedGrid(size, maxSlices, scale, neverSplit)
            case None => neverSplit || multiple <= 1
            case Some(g) =>
              && !neverSplit && multiple > 1 && Allowed(g, multiple, maxSlices)
              && forall c | Allowed(c, multiple, maxSlices) ::
                   Spread(size, g) < Spread(size, c) || (Spread(size, g) == Spread(size, c) && (g == c || Before(g, c)))
  {
    hide Spread, Candidates, Before;
    var multiple := Multiple(size, maxSlices, scale);
    if !neverSplit && multiple > 1 {
      var gs := Candidates(multiple, maxSlices);
      var row: Grid := (multiple, 1);
      CandidatesAre(multiple, maxSlices, row);
      assert row in gs;
      var j :| 0 <= j < |gs| && gs[j] == row;
      BestIsLeast(size, gs, j);
      var g := Best(size, gs).value;
      CandidatesAre(multiple, maxSlices, g);
      CandidatesInOrder(multiple, maxSlices);
      forall c | Allowed(c, multiple, maxSlices)
        ensures Spread(size, g) < Spread(size, c) || (Spread(size, g) == Spread(size, c) && (g == c || Before(g, c))) {
        CandidatesAre(multiple, maxSlices, c);
        var k :| 0 <= k < |gs| && gs[k] == c;
        BestIsLeast(size, gs, k);
        if Spread(size, g) == Spread(size, c) { BestIsFirst(size, gs, k); }
      }
    }
  }

  // ----- Sizes -----

  predicate Aligned(n: nat, patch: nat)
    requires patch > 0
  {
    n > 0 && n % patch == 0
  }

  lemma {:induction false} MultipleIsAligned(k: nat, patch: nat)
    requires patch > 0
    ensures (k * patch) % patch == 0 && patch % patch == 0
  {
    DivModUnique(k * patch, patch, k, 0);
    DivModUnique(patch, patch, 1, 0);
  }

  /** `ensure_divide`: the nearest multiple, halves up, but at least one. */
  function EnsureDivide(length: nat, patch: nat): (n: nat)
    requires patch > 0
    ensures Aligned(n, patch) && n >= patch
  {
    var k := (2 * length + patch) / (2 * patch);
    MultipleIsAligned(k, patch);
    if k * patch < patch then patch else k * patch
  }

  /** The size `find_best_resize` rounds: scaled to the resolution, or the image's own;
      `root` is the square root of the aspect ratio. */
  function Target(size: Size, scale: nat, allowUpscale: bool, root: real): Size
    requires root > 0.0
  {
    if size.w * size.h > scale * scale || allowUpscale then
      NotNegative(scale as real, root);
      var h := (scale as real / root).Floor;
      NotNegativeProduct(h as real, root * root);
      Size((h as real * (root * root)).Floor, h)
    else size
  }

  /** `find_best_resize`. */
  function FindBestResize(size: Size, scale: nat, patch: nat, allowUpscale: bool, root: real): (r: Size)
    requires patch > 0 && root > 0.0
    ensures Aligned(r.w, patch) && Aligned(r.h, patch)
  {
    var t := Target(size, scale, allowUpscale, root);
    Size(EnsureDivide(t.w, patch), EnsureDivide(t.h, patch))
  }

  lemma {:induction false} NotNegative(x: real, y: real)
    requires x >= 0.0 && y > 0.0
    ensures x / y >= 0.0 && y * y > 0.0
  {
  }

  lemma {:induction false} NotNegativeProduct(x: real, y: real)
    requires x >= 0.0 && y >= 0.0
    ensures x * y >= 0.0
  {
  }

  /** `get_refine_size`: every grid cell gets the same patch-aligned size. */
  function GetRefineSize(size: Size, g: Grid, scale: nat, patch: nat, root: real): Size
    requires g.0 > 0 && g.1 > 0 && patch > 0 && root > 0.0
  {
    var cell := Size(EnsureDivide(size.w, g.0) / g.0, EnsureDivide(size.h, g.1) / g.1);
    var best := FindBestResize(cell, scale, patch, true, root);
    Size(best.w * g.0, best.h * g.1)
  }

  /** The cell size is a positive multiple of the patch size in both directions. */
  lemma {:induction false} RefineSizeFits(size: Size, g: Grid, scale: nat, patch: nat, root: real)
    requires g.0 > 0 && g.1 > 0 && patch > 0 && root > 0.0
    ensures var r := GetRefineSize(size, g, scale, patch, root);
            && r.w % g.0 == 0 && Aligned(r.w / g.0, patch)
            && r.h % g.1 == 0 && Aligned(r.h / g.1, patch)
  {
    hide EnsureDivide, FindBestResize, Aligned;
    var cell := Size(EnsureDivide(size.w, g.0) / g.0, EnsureDivide(size.h, g.1) / g.1);
    var best := FindBestResize(cell, scale, patch, true, root);
    DivModUnique(best.w * g.0, g.0, best.w, 0);
    DivModUnique(best.h * g.1, g.1, best.h, 0);
  }

  // ----- Slices -----

  /** A rectangle of the refined image. */
  datatype Rect = Rect(y: nat, x: nat, h: nat, w: nat)

  function Clamp(end: nat, limit: nat): nat {
    if end < limit then end else limit
  }

  function RowOf(size: Size, y: nat, cellH: nat, cellW: nat, n: nat): seq<Rect>
    requires (n == 0 || (n - 1) * cellW < size.w) && y < size.h
  {
    seq(n, j requires 0 <= j < n =>
      MulMonotone(j, n - 1, cellW);
      Rect(y, j * cellW, Clamp(y + cellH, size.h) - y, Clamp(j * cellW + cellW, size.w) - j * cellW))
  }

  /** `split_to_patches`.  A cell of no width or height would never advance. */
  method SplitToPatches(size: Size, g: Grid) returns (patches: seq<seq<Rect>>)
    requires g.0 > 0 && g.1 > 0 && size.w / g.0 > 0 && size.h / g.1 > 0
    ensures var cellW, cellH := size.w / g.0, size.h / g.1;
            && |patches| == CeilDiv(size.h, cellH)
            && forall i | 0 <= i < |patches| ::
                 && i * cellH < size.h
                 && (CeilDivBounds(size.w, cellW); patches[i] == RowOf(size, i * cellH, cellH, cellW, CeilDiv(size.w, cellW)))
  {
    var gridX, gridY := size.w / g.0, size.h / g.1;
    CeilDivBounds(size.w, gridX);
    patches := [];
    var i := 0;
    while i < size.h
      invariant i == |patches| * gridY && (|patches| > 0 ==> (|patches| - 1) * gridY < size.h)
      invariant forall k | 0 <= k < |patches| ::
                  k * gridY < size.h && patches[k] == RowOf(size, k * gridY, gridY, gridX, CeilDiv(size.w, gridX))
      decreases size.h - i
    {
      var row := SplitRow(size, i, gridY, gridX);
      assert (|patches| + 1) * gridY == |patches| * gridY + gridY;
      if row != [] {
        patches := patches + [row];
      }
      i := i + gridY;
    }
    CeilDivIs(size.h, gridY, |patches|);
  }

  method SplitRow(size: Size, i: nat, gridY: nat, gridX: nat) returns (row: seq<Rect>)
    requires i < size.h && gridX > 0 && size.w > 0
    ensures CeilDiv(size.w, gridX) > 0 && (CeilDiv(size.w, gridX) - 1) * gridX < size.w
    ensures row == RowOf(size, i, gridY, gridX, CeilDiv(size.w, gridX))
  {
    CeilDivBounds(size.w, gridX);
    row := [];
    var j := 0;
    while j < size.w
      invariant j == |row| * gridX && (|row| > 0 ==> (|row| - 1) * gridX < size.w)
      invariant row == RowOf(size, i, gridY, gridX, |row|)
      decreases size.w - j
    {
      ghost var n := |row|;
      assert (n + 1) * gridX == n * gridX + gridX;
      row := row + [Rect(i, j, Clamp(i + gridY, size.h) - i, Clamp(j + gridX, size.w) - j)];
      assert row == RowOf(size, i, gridY, gridX, n + 1);
      j := j + gridX;
    }
    CeilDivIs(size.w, gridX, |row|);
  }

  /** The cut along one side gives as many parts as asked for exactly when the
      side is a multiple of that number. */
  lemma {:induction false} CutIsExact(side: nat, parts: nat)
    requires parts > 0 && side / parts > 0
    ensures CeilDiv(side, side / parts) == parts <==> side % parts == 0
  {
    var cell := side / parts;
    assert side == cell * parts + side % parts;
    assert parts * cell == cell * parts;
    CeilDivBounds(side, cell);
    if side % parts == 0 {
      assert (parts - 1) * cell == parts * cell - cell;
      CeilDivIs(side, cell, parts);
    }
  }
}
