/** What the numbers behind MiniCPM-V slicing mean: the aspect error, the wanted
    number of slices, and the sizes, each said without the formula that computes it. */
module MiniCpmSizes {
  import opened Arithmetic
  import opened MiniCpmSlices

  /** The ratio of width to height and that of columns to rows differ by this factor,
      one way or the other. */
  lemma {:induction false} SpreadIsFactor(size: Size, g: Grid)
    requires size.w > 0 && size.h > 0 && g.0 > 0 && g.1 > 0
    ensures var s, across, down := Spread(size, g), (size.w * g.1) as real, (size.h * g.0) as real;
            s >= 1.0 && (across == s * down || down == s * across)
    ensures Spread(size, g) == 1.0 <==> size.w * g.1 == size.h * g.0
  {
    var a, b := (size.w * g.1) as real, (size.h * g.0) as real;
    Positive(size.w, g.1);
    Positive(size.h, g.0);
    if a >= b { Quotient(a, b); } else { Quotient(b, a); }
  }

  lemma {:induction false} Quotient(a: real, b: real)
    requires a >= b > 0.0
    ensures (a / b) * b == a && a / b >= 1.0 && (a / b == 1.0 <==> a == b)
  {
    var q := a / b;
    assert q * b == a;
    MulOrder(1.0, q, b);
  }

  /** As many squares of the scale as are needed to cover the area, but no more than
      allowed. */
  lemma {:induction false} MultipleCoversArea(size: Size, maxSlices: int, scale: nat)
    requires size.w > 0 && size.h > 0 && scale > 0
    ensures var n, area, square := Multiple(size, maxSlices, scale), size.w * size.h, scale * scale;
            && n <= maxSlices
            && (n < maxSlices ==> n > 0 && (n - 1) * square < area <= n * square)
            && (n == maxSlices && n > 0 ==> (n - 1) * square < area)
  {
    var n, area, square := Multiple(size, maxSlices, scale), size.w * size.h, scale * scale;
    Positive(scale, scale);
    Positive(size.w, size.h);
    CeilDivBounds(area, square);
    var k := CeilDiv(area, square);
    if 0 < maxSlices <= k {
      MulMonotone(maxSlices - 1, k - 1, square);
    }
  }

  /** The multiple of `patch` closest to `length`, halves going up, but at least one. */
  predicate Rounds(n: nat, length: nat, patch: nat)
    requires patch > 0
  {
    && Aligned(n, patch)
    && 2 * length < 2 * n + patch
    && (n == patch || 2 * n <= 2 * length + patch)
  }

  lemma {:induction false} EnsureDivideRounds(length: nat, patch: nat)
    requires patch > 0
    ensures Rounds(EnsureDivide(length, patch), length, patch)
  {
    var k := (2 * length + patch) / (2 * patch);
    var r := (2 * length + patch) % (2 * patch);
    assert 2 * length + patch == k * (2 * patch) + r;
    assert k * (2 * patch) == 2 * (k * patch);
  }

  /** The largest height with `height * root <= scale`. */
  predicate HeightFits(scale: nat, root: real, h: nat) {
    h as real * root <= scale as real && scale as real < (h + 1) as real * root
  }

  /** The largest width of the image's aspect ratio. */
  predicate WidthFits(size: Size, w: nat, h: nat) {
    w * size.h <= h * size.w && h * size.w < (w + 1) * size.h
  }

  predicate AreaFits(scale: nat, w: nat, h: nat) {
    w * h <= scale * scale
  }

  /** `root` is the square root of the aspect ratio. */
  predicate IsAspectRoot(size: Size, root: real) {
    root > 0.0 && (root * root) * size.h as real == size.w as real
  }

  /** The size before it is rounded to patches: of the image's aspect ratio, as high as
      the scale allows, and no larger than a square of the scale. */
  predicate Scaled(size: Size, scale: nat, root: real, r: Size) {
    HeightFits(scale, root, r.h) && WidthFits(size, r.w, r.h) && AreaFits(scale, r.w, r.h)
  }

  lemma {:induction false} RootPositive(size: Size, root: real)
    requires IsAspectRoot(size, root)
    ensures root > 0.0
  {
  }

  lemma {:induction false} TargetIsScaled(size: Size, scale: nat, allowUpscale: bool, root: real)
    requires size.h > 0 && IsAspectRoot(size, root)
    requires size.w * size.h > scale * scale || allowUpscale
    ensures (RootPositive(size, root); Scaled(size, scale, root, Target(size, scale, allowUpscale, root)))
  {
    hide HeightFits, WidthFits, AreaFits, IsAspectRoot;
    RootPositive(size, root);
    var h := HeightTarget(scale, root);
    var w := WidthTarget(size, root, h);
    AreaTarget(scale, root, w, h);
    hide Scaled;
    ScaledIs(size, scale, root, w, h);
    assert Target(size, scale, allowUpscale, root) == Size(w, h);
  }

  lemma {:induction false} ScaledIs(size: Size, scale: nat, root: real, w: nat, h: nat)
    requires HeightFits(scale, root, h) && WidthFits(size, w, h) && AreaFits(scale, w, h)
    ensures Scaled(size, scale, root, Size(w, h))
  {
    hide HeightFits, WidthFits, AreaFits;
  }

  /** Best sizes are rounded from the image's own size if it is small enough, and from
      the size scaled to the resolution otherwise. */
  lemma {:induction false} BestResizeRounds(size: Size, scale: nat, patch: nat, allowUpscale: bool, root: real)
    returns (target: Size)
    requires size.h > 0 && patch > 0 && IsAspectRoot(size, root)
    ensures if size.w * size.h > scale * scale || allowUpscale then Scaled(size, scale, root, target) else target == size
    ensures (RootPositive(size, root); var r := FindBestResize(size, scale, patch, allowUpscale, root);
             Rounds(r.w, target.w, patch) && Rounds(r.h, target.h, patch))
  {
    hide EnsureDivide, Rounds, Aligned, Scaled, IsAspectRoot;
    RootPositive(size, root);
    target := Target(size, scale, allowUpscale, root);
    if size.w * size.h > scale * scale || allowUpscale {
      TargetIsScaled(size, scale, allowUpscale, root);
    }
    hide Target;
    EnsureDivideRounds(target.w, patch);
    EnsureDivideRounds(target.h, patch);
  }

  lemma {:induction false} HeightTarget(scale: nat, root: real) returns (h: nat)
    requires root > 0.0
    ensures h == (scale as real / root).Floor && HeightFits(scale, root, h)
  {
    var x := scale as real / root;
    NotNegative(scale as real, root);
    h := x.Floor;
    var next := (h + 1) as real;
    DivIs(scale as real, root, x);
    Between(h as real, x, next, root);
    assert scale as real < next * root;
    assert next * root == (h + 1) as real * root;
  }

  lemma {:induction false} WidthTarget(size: Size, root: real, h: nat) returns (w: nat)
    requires size.h > 0 && IsAspectRoot(size, root)
    ensures w == (h as real * (root * root)).Floor && WidthFits(size, w, h)
  {
    var rr := root * root;
    NotNegative(0.0, root);
    NotNegativeProduct(h as real, rr);
    Reassociate(h as real, rr, size.h as real, size.w as real);
    w := WidthOf(size, h as real * rr, h);
  }

  lemma {:induction false} WidthOf(size: Size, q: real, h: nat) returns (w: nat)
    requires size.h > 0 && q >= 0.0 && q * size.h as real == h as real * size.w as real
    ensures w == q.Floor && WidthFits(size, w, h)
  {
    w := q.Floor;
    Casts(h, size.w);
    Below(w, q, size.h, h * size.w);
    Above(w + 1, q, size.h, h * size.w);
  }

  lemma {:induction false} Below(n: nat, q: real, s: nat, limit: int)
    requires n as real <= q && q * s as real == limit as real
    ensures n * s <= limit
  {
    Casts(n, s);
    Stretch(n as real, q, s as real);
  }

  lemma {:induction false} Above(n: nat, q: real, s: nat, limit: int)
    requires s > 0 && q < n as real && q * s as real == limit as real
    ensures limit < n * s
  {
    Casts(n, s);
    Between(q, q, n as real, s as real);
  }

  lemma {:induction false} Reassociate(h: real, rr: real, sh: real, sw: real)
    requires rr * sh == sw
    ensures (h * rr) * sh == h * sw
  {
  }

  lemma {:induction false} Casts(a: nat, b: nat)
    ensures (a * b) as real == a as real * b as real
  {
  }

  lemma {:induction false} AreaTarget(scale: nat, root: real, w: nat, h: nat)
    requires root > 0.0 && w == (h as real * (root * root)).Floor && HeightFits(scale, root, h)
    ensures AreaFits(scale, w, h)
  {
    var p, s := h as real * root, scale as real;
    Squares(h as real, root);
    NotBelow(h as real, root);
    Stretch(w as real, h as real * (root * root), h as real);
    Stretch(p, s, p);
    Stretch(p, s, s);
    Casts(w, h);
    Casts(scale, scale);
  }

  lemma {:induction false} Squares(h: real, root: real)
    ensures (h * (root * root)) * h == (h * root) * (h * root)
  {
  }

  lemma {:induction false} Stretch(x: real, y: real, f: real)
    requires x <= y && f >= 0.0
    ensures x * f <= y * f && f * x <= f * y
  {
    if f > 0.0 {
      MulOrder(x, y, f);
    }
  }

  lemma {:induction false} NotBelow(x: real, y: real)
    requires x >= 0.0 && y >= 0.0
    ensures x * y >= 0.0
  {
  }

  /** Every cell of the refined image has the best size for a grid cell of the image,
      whose sides are rounded to multiples of the grid. */
  lemma {:induction false} RefinedCell(size: Size, g: Grid, scale: nat, patch: nat, root: real) returns (cell: Size)
    requires g.0 > 0 && g.1 > 0 && patch > 0 && root > 0.0
    ensures Rounds(g.0 * cell.w, size.w, g.0) && Rounds(g.1 * cell.h, size.h, g.1)
    ensures var r, best := GetRefineSize(size, g, scale, patch, root), FindBestResize(cell, scale, patch, true, root);
            r.w == g.0 * best.w && r.h == g.1 * best.h
  {
    hide FindBestResize, EnsureDivide;
    var w, h := EnsureDivide(size.w, g.0), EnsureDivide(size.h, g.1);
    EnsureDivideRounds(size.w, g.0);
    EnsureDivideRounds(size.h, g.1);
    cell := Size(w / g.0, h / g.1);
    assert w == (w / g.0) * g.0 && h == (h / g.1) * g.1;
  }

  // ----- Slices of any size -----

  /** Cell `j` starts at `j * cellW`, is as wide as the others but for the last one, and
      as high as the cell or as what is left. */
  lemma {:induction false} RectAt(size: Size, y: nat, cellH: nat, cellW: nat, n: nat, j: nat)
    requires y < size.h && cellH > 0 && cellW > 0 && j < n && (n - 1) * cellW < size.w <= n * cellW
    ensures var r := RowOf(size, y, cellH, cellW, n)[j];
            && r.x == j * cellW && r.y == y && r.w > 0 && r.h > 0
            && r.x + r.w == (if j < n - 1 then (j + 1) * cellW else size.w) && (j < n - 1 ==> r.w == cellW)
            && r.y + r.h == (if y + cellH < size.h then y + cellH else size.h)
  {
    MulMonotone(j, n - 1, cellW);
    assert (j + 1) * cellW == j * cellW + cellW;
    if j < n - 1 {
      MulGap(j, n - 1, cellW);
    }
  }

  /** A row of rectangles has no gap and no overlap, stays inside the image and reaches
      its right border; all are as high as the cell, or as what is left of the image. */
  lemma {:induction false} RowTiles(size: Size, y: nat, cellH: nat, cellW: nat)
    requires y < size.h && size.w > 0 && cellH > 0 && cellW > 0
    ensures (CeilDivBounds(size.w, cellW);
             var row := RowOf(size, y, cellH, cellW, CeilDiv(size.w, cellW));
             && |row| > 0 && row[0].x == 0 && row[|row| - 1].x + row[|row| - 1].w == size.w
             && (forall j | 0 <= j < |row| - 1 :: row[j].x + row[j].w == row[j + 1].x && row[j].w == cellW)
             && forall j | 0 <= j < |row| ::
                  row[j].y == y && row[j].w > 0 && row[j].h > 0
                  && y + row[j].h == if y + cellH < size.h then y + cellH else size.h)
  {
    hide CeilDiv, Clamp;
    CeilDivBounds(size.w, cellW);
    var n := CeilDiv(size.w, cellW);
    var row := RowOf(size, y, cellH, cellW, n);
    assert |row| == n;
    forall j | 0 <= j < n
      ensures row[j].x == j * cellW && row[j].y == y && row[j].w > 0 && row[j].h > 0
      ensures row[j].x + row[j].w == (if j < n - 1 then (j + 1) * cellW else size.w) && (j < n - 1 ==> row[j].w == cellW)
      ensures row[j].y + row[j].h == (if y + cellH < size.h then y + cellH else size.h) {
      RectAt(size, y, cellH, cellW, n, j);
    }
  }
}
