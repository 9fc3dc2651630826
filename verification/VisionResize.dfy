/** The size an image is resized to, in exact arithmetic.  A square root is a
    positive real whose square is given. */
module VisionResize {
  import opened Wrappers
  import opened Arithmetic
  import opened VisionLayout
  import opened VisionPatches
  import opened VisionPrompt

  /** The square root of `num / den`. */
  predicate IsRoot(root: real, num: real, den: real) {
    root > 0.0 && (root * root) * den == num
  }

  /** `std::round` of a non-negative quotient: halves go up. */
  function Rounded(side: nat, factor: nat): nat
    requires factor > 0
  {
    (2 * side + factor) / (2 * factor)
  }

  function Floor(x: real): int {
    x.Floor
  }

  function Ceil(x: real): int {
    -((-x).Floor)
  }

  function Max(a: nat, b: nat): nat {
    if a < b then b else a
  }

  function Min(a: nat, b: nat): nat {
    if a < b then a else b
  }

  /** The roots `beta` of the two branches. */
  predicate AreRoots(shrink: real, grow: real, height: nat, width: nat, minPixels: nat, maxPixels: nat)
    requires height > 0 && width > 0 && maxPixels > 0
  {
    && IsRoot(shrink, (height * width) as real, maxPixels as real)
    && IsRoot(grow, minPixels as real, (height * width) as real)
  }

  /** `smart_resize_image`; `None` when one side is over 200 times the other. */
  function SmartResize(height: nat, width: nat, factor: nat, minPixels: nat, maxPixels: nat, shrink: real, grow: real)
    : Option<(int, int)>
    requires height > 0 && width > 0 && factor > 0 && shrink > 0.0
  {
    if Max(height, width) > 200 * Min(height, width) then None
    else
      var h, w := Rounded(height, factor) * factor, Rounded(width, factor) * factor;
      if h * w > maxPixels then
        Some((Shrunk(height, shrink, factor), Shrunk(width, shrink, factor)))
      else if h * w < minPixels then
        Some((Up(height as real * grow, factor), Up(width as real * grow, factor)))
      else Some((h, w))
  }

  // ----- Facts about reals -----

  /** Rounding a quotient down gives a multiple that fits, non-zero exactly when
      the divisor fits once. */
  lemma {:induction false} FloorFits(q: real, f: nat)
    requires f > 0 && q > 0.0
    ensures var n := Floor(q / f as real);
            n >= 0 && n as real * f as real <= q && (n >= 1 <==> q >= f as real)
  {
    var fr, x := f as real, q / f as real;
    DivIs(q, fr, x);
    MulOrder(x.Floor as real, x, fr);
    MulOrder(1.0, x, fr);
    MulOrder(x, 0.0, fr);
  }

  lemma {:induction false} CeilCovers(q: real, f: nat)
    requires f > 0 && q > 0.0
    ensures var n := Ceil(q / f as real);
            n >= 1 && n as real * f as real >= q
  {
    var fr, x := f as real, q / f as real;
    DivIs(q, fr, x);
    MulOrder(x, Ceil(x) as real, fr);
    MulOrder(x, 0.0, fr);
  }

  lemma {:induction false} SquareOrder(x: real, y: real)
    requires x > 0.0 && y > 0.0
    ensures x >= y <==> x * x >= y * y
  {
    MulOrder(y, x, x);
    MulOrder(y, x, y);
    if x < y {
      Product(y - x, x);
      Product(y - x, y);
      assert (y - x) * y == y * y - x * y && (y - x) * x == x * y - x * x;
    }
  }

  /** Both sides divided by the root: their product is the limit. */
  lemma {:induction false} ShrunkArea(h: real, w: real, area: real, limit: real, beta: real)
    requires h > 0.0 && w > 0.0 && area == h * w && limit > 0.0 && IsRoot(beta, area, limit)
    ensures (h / beta) * (w / beta) == limit
  {
    var q, r := h / beta, w / beta;
    DivIs(h, beta, q);
    DivIs(w, beta, r);
    assert h * w == (q * beta) * (r * beta) == (q * r) * (beta * beta);
    assert h * w == (beta * beta) * limit;
    Product(beta, beta);
    DivIs((q * r) * (beta * beta), beta * beta, q * r);
    DivIs(limit * (beta * beta), beta * beta, limit);
  }

  lemma {:induction false} ShrunkSide(h: real, w: real, area: real, limit: real, beta: real, f: real)
    requires h > 0.0 && w > 0.0 && area == h * w && limit > 0.0 && f > 0.0 && IsRoot(beta, area, limit)
    ensures h / beta > 0.0 && (h / beta >= f <==> h * limit >= w * (f * f))
  {
    ShrunkArea(h, w, area, limit, beta);
    var q, r := h / beta, w / beta;
    DivIs(h, beta, q);
    DivIs(w, beta, r);
    MulOrder(q, 0.0, beta);
    assert q * w == q * (r * beta) == (q * beta) * r == h * r;
    assert (q * q) * w == q * (q * w) == q * (h * r) == h * (q * r) == h * limit;
    SquareOrder(q, f);
    MulOrder(f * f, q * q, w);
  }

  lemma {:induction false} GrownArea(h: real, w: real, area: real, floor: real, beta: real)
    requires h > 0.0 && w > 0.0 && area == h * w && IsRoot(beta, floor, area)
    ensures (h * beta) * (w * beta) == floor
  {
    assert (h * beta) * (w * beta) == (beta * beta) * (h * w);
  }

  lemma {:induction false} AreaOrder(a: real, b: real, x: real, y: real)
    requires 0.0 <= a <= x && 0.0 <= b <= y
    ensures a * b <= x * y
  {
    assert x * y - a * b == (x - a) * y + a * (y - b);
    NonNegative(x - a, y);
    NonNegative(a, y - b);
  }

  lemma {:induction false} NonNegative(x: real, y: real)
    requires x >= 0.0 && y >= 0.0
    ensures x * y >= 0.0
  {
  }

  // ----- The shrinking branch -----

  function Shrunk(side: nat, beta: real, factor: nat): int
    requires factor > 0 && beta > 0.0
  {
    Floor(side as real / beta / factor as real) * factor
  }

  /** A shrunk side is positive exactly when the limit leaves room for it. */
  lemma {:induction false} ShrunkPositive(h: nat, w: nat, factor: nat, limit: nat, beta: real)
    requires h > 0 && w > 0 && factor > 0 && limit > 0 && IsRoot(beta, (h * w) as real, limit as real)
    ensures Shrunk(h, beta, factor) >= 0 && Shrunk(h, beta, factor) as real <= h as real / beta
    ensures Shrunk(h, beta, factor) > 0 <==> h * limit >= w * (factor * factor)
  {
    AreaCast(h, w);
    ShrunkSide(h as real, w as real, (h * w) as real, limit as real, beta, factor as real);
    FloorFits(h as real / beta, factor);
    AreaCast(h, limit);
    AreaCast(factor, factor);
    AreaCast(w, factor * factor);
    var n := Floor(h as real / beta / factor as real);
    AreaCast(n, factor);
    TimesPositive(n, factor);
  }

  lemma {:induction false} ShrunkMultiple(side: nat, beta: real, factor: nat)
    requires factor > 0 && beta > 0.0
    ensures Shrunk(side, beta, factor) > 0 ==> IsMultiple(Shrunk(side, beta, factor), factor)
  {
    hide Floor;
    var n := Floor(side as real / beta / factor as real);
    if n * factor > 0 {
      MultipleOf(n, factor);
    }
  }

  lemma {:induction false} TimesPositive(n: nat, f: nat)
    requires f > 0
    ensures n * f > 0 <==> n >= 1
  {
  }

  lemma {:induction false} AreaCast(h: nat, w: nat)
    ensures (h * w) as real == h as real * w as real
  {
  }

  lemma {:induction false} ShrunkFits(h: nat, w: nat, factor: nat, limit: nat, beta: real)
    requires h > 0 && w > 0 && factor > 0 && limit > 0 && IsRoot(beta, (h * w) as real, limit as real)
    ensures Shrunk(h, beta, factor) * Shrunk(w, beta, factor) <= limit
  {
    hide Shrunk;
    AreaCast(h, w);
    assert w * h == h * w;
    ShrunkPositive(h, w, factor, limit, beta);
    ShrunkPositive(w, h, factor, limit, beta);
    ShrunkArea(h as real, w as real, (h * w) as real, limit as real, beta);
    var a, b := Shrunk(h, beta, factor), Shrunk(w, beta, factor);
    AreaOrder(a as real, b as real, h as real / beta, w as real / beta);
    AreaCast(a, b);
  }

  /** A limit of 200 squares is room enough for every accepted shape. */
  lemma {:induction false} RoomEnough(h: nat, w: nat, factor: nat, limit: nat)
    requires h > 0 && w <= 200 * h && limit >= 200 * (factor * factor)
    ensures h * limit >= w * (factor * factor)
  {
    MulMonotone(200 * (factor * factor), limit, h);
    MulMonotone(w, 200 * h, factor * factor);
    assert (200 * (factor * factor)) * h == (200 * h) * (factor * factor);
  }

  // ----- The growing branch -----

  predicate IsMultiple(n: int, f: nat)
    requires f > 0
  {
    n > 0 && n % f == 0
  }

  /** The least multiple of the factor that covers `q`. */
  function Up(q: real, factor: nat): int
    requires factor > 0
  {
    Ceil(q / factor as real) * factor
  }

  lemma {:induction false} UpCovers(q: real, factor: nat)
    requires q > 0.0 && factor > 0
    ensures Up(q, factor) > 0 && IsMultiple(Up(q, factor), factor) && Up(q, factor) as real >= q
  {
    hide Ceil;
    CeilCovers(q, factor);
    var n := Ceil(q / factor as real);
    TimesPositive(n, factor);
    AreaCast(n, factor);
    DivModUnique(n * factor, factor, n, 0);
  }

  lemma {:induction false} GrownCovers(h: nat, w: nat, factor: nat, floor: nat, beta: real, x: real, y: real)
    requires h > 0 && w > 0 && factor > 0 && floor > 0 && IsRoot(beta, floor as real, (h * w) as real)
    requires x == h as real * beta && y == w as real * beta
    ensures IsMultiple(Up(x, factor), factor) && IsMultiple(Up(y, factor), factor)
    ensures Up(x, factor) * Up(y, factor) >= floor
  {
    hide Up, IsMultiple;
    AreaCast(h, w);
    Product(h as real, beta);
    Product(w as real, beta);
    UpCovers(x, factor);
    UpCovers(y, factor);
    GrownArea(h as real, w as real, (h * w) as real, floor as real, beta);
    AreaOrder(x, y, Up(x, factor) as real, Up(y, factor) as real);
    AreaCast(Up(x, factor), Up(y, factor));
  }

  // ----- All branches -----

  lemma {:induction false} MultipleOf(n: int, f: nat)
    requires f > 0 && n * f > 0
    ensures IsMultiple(n * f, f)
  {
    NotPositive(n, f);
    DivModUnique(n * f, f, n, 0);
  }

  lemma {:induction false} NotPositive(n: int, f: nat)
    ensures n <= 0 ==> n * f <= 0
  {
  }

  /** Every accepted image gets sides that are positive multiples of the factor, at
      most `maxPixels` after shrinking and at least `minPixels` after growing. */
  lemma {:induction false} AcceptedSizeIsGood(height: nat, width: nat, factor: nat, minPixels: nat, maxPixels: nat,
                                              shrink: real, grow: real)
    requires height > 0 && width > 0 && factor > 0 && minPixels >= 1 && maxPixels >= 200 * (factor * factor)
    requires maxPixels > 0 && AreRoots(shrink, grow, height, width, minPixels, maxPixels)
    ensures SmartResize(height, width, factor, minPixels, maxPixels, shrink, grow).Some?
            <==> height <= 200 * width && width <= 200 * height
    ensures match SmartResize(height, width, factor, minPixels, maxPixels, shrink, grow)
            case None => true
            case Some((h, w)) =>
              var area := (Rounded(height, factor) * factor) * (Rounded(width, factor) * factor);
              && IsMultiple(h, factor) && IsMultiple(w, factor)
              && (area > maxPixels ==> h * w <= maxPixels)
              && (area < minPixels && area <= maxPixels ==> h * w >= minPixels)
              && (minPixels <= area <= maxPixels ==> h * w == area)
  {
    if height <= 200 * width && width <= 200 * height {
      hide Rounded;
      var h, w := Rounded(height, factor) * factor, Rounded(width, factor) * factor;
      if h * w > maxPixels {
        hide Shrunk;
        ShrunkPositive(height, width, factor, maxPixels, shrink);
        assert width * height == height * width;
        ShrunkPositive(width, height, factor, maxPixels, shrink);
        ShrunkFits(height, width, factor, maxPixels, shrink);
        RoomEnough(height, width, factor, maxPixels);
        RoomEnough(width, height, factor, maxPixels);
        ShrunkMultiple(height, shrink, factor);
        ShrunkMultiple(width, shrink, factor);
      } else if h * w < minPixels {
        hide Up;
        GrownCovers(height, width, factor, minPixels, grow, height as real * grow, width as real * grow);
      } else {
        BothPositive(h, w);
        MultipleOf(Rounded(height, factor), factor);
        MultipleOf(Rounded(width, factor), factor);
      }
    }
  }

  lemma {:induction false} BothPositive(h: nat, w: nat)
    requires h * w > 0
    ensures h > 0 && w > 0
  {
  }

  /** For every accepted image the patch matrix has exactly `merge²` rows for each
      placeholder the prompt gets, and there is at least one placeholder. */
  lemma {:induction false} AcceptedImageTokens(h: int, w: int, patch: nat, tp: nat, channels: nat, c: Config)
    requires patch > 0 && c.mergeSize > 0 && tp > 0 && channels > 0
    requires patch * c.mergeSize > 0 && IsMultiple(h, patch * c.mergeSize) && IsMultiple(w, patch * c.mergeSize)
    ensures h / patch >= 0 && w / patch >= 0
    ensures var n := ImageTokens(c, Grid(1, h / patch, w / patch));
            && n > 0
            && 1 * (h / patch) * (w / patch) == n * (c.mergeSize * c.mergeSize)
    ensures var s := Shape(1, tp, channels, h / (patch * c.mergeSize), w / (patch * c.mergeSize), c.mergeSize, patch);
            Solid(s) && Pixels(s) == [tp, channels, h, w] && Matrix(s)[0] == 1 * (h / patch) * (w / patch)
  {
    var m := c.mergeSize;
    var f := patch * m;
    var gh, gw := h / f, w / f;
    SideParts(h, patch, m);
    SideParts(w, patch, m);
    var s := Shape(1, tp, channels, gh, gw, m, patch);
    assert Solid(s);
    RowsPerPlaceholder(s, c);
    Positive(gh, gw);
    assert 1 * gh * gw == gh * gw;
  }

  lemma {:induction false} SideParts(h: int, p: nat, m: nat)
    requires p > 0 && m > 0 && p * m > 0 && IsMultiple(h, p * m)
    ensures h / (p * m) > 0 && h / p == (h / (p * m)) * m && h == (h / (p * m)) * m * p
  {
    var g := h / (p * m);
    assert h == g * (p * m);
    NotPositive(g, p * m);
    assert g * (p * m) == (g * m) * p;
    DivModUnique(h, p, g * m, 0);
  }

  // ----- Each side by itself -----

  /** The multiple of the factor closest to a side, halves going up. */
  predicate IsNearest(n: int, side: nat, factor: nat)
    requires factor > 0
  {
    n % factor == 0 && 2 * side - factor < 2 * n <= 2 * side + factor
  }

  /** The largest multiple that does not exceed `q`. */
  predicate IsBelow(n: int, q: real, factor: nat)
    requires factor > 0
  {
    n % factor == 0 && n as real <= q < (n + factor) as real
  }

  /** The least multiple that covers `q`. */
  predicate IsAbove(n: int, q: real, factor: nat)
    requires factor > 0
  {
    n % factor == 0 && (n - factor) as real < q <= n as real
  }

  lemma {:induction false} RoundedIsNearest(side: nat, factor: nat)
    requires factor > 0
    ensures IsNearest(Rounded(side, factor) * factor, side, factor)
  {
    var n := Rounded(side, factor);
    DivModUnique(n * factor, factor, n, 0);
    var r := (2 * side + factor) % (2 * factor);
    assert 2 * side + factor == n * (2 * factor) + r;
    assert n * (2 * factor) == 2 * (n * factor);
  }

  lemma {:induction false} NearestIsUnique(a: int, b: int, side: nat, factor: nat)
    requires factor > 0 && IsNearest(a, side, factor) && IsNearest(b, side, factor)
    ensures a == b
  {
    CloseMultiples(a, b, factor);
  }

  lemma {:induction false} CloseMultiples(a: int, b: int, f: nat)
    requires f > 0 && a % f == 0 && b % f == 0 && a - f < b < a + f
    ensures a == b
  {
    var x, y := a / f, b / f;
    assert a == x * f && b == y * f;
    if x < y { Gap(x, y, f); }
    if y < x { Gap(y, x, f); }
  }

  lemma {:induction false} Gap(x: int, y: int, f: nat)
    requires x < y
    ensures x * f + f <= y * f
  {
    assert y * f - x * f == (y - x) * f;
    MulMonotone(1, y - x, f);
  }

  lemma {:induction false} FloorIsClose(q: real, f: nat)
    requires f > 0 && q >= 0.0
    ensures var n := Floor(q / f as real); n >= 0 && n as real * f as real <= q && q < (n as real + 1.0) * f as real
  {
    var fr, x := f as real, q / f as real;
    DivIs(q, fr, x);
    var n := Floor(x) as real;
    var next := n + 1.0;
    Between(n, x, next, fr);
    MulOrder(x, 0.0, fr);
    assert q < next * fr;
    assert next * fr == (Floor(q / f as real) as real + 1.0) * fr;
  }

  lemma {:induction false} CeilIsClose(q: real, f: nat)
    requires f > 0 && q > 0.0
    ensures var n := Ceil(q / f as real); n >= 1 && (n as real - 1.0) * f as real < q && q <= n as real * f as real
  {
    var fr, x := f as real, q / f as real;
    DivIs(q, fr, x);
    var n := Ceil(x) as real;
    var previous := n - 1.0;
    Between(-n, -x, -previous, fr);
    MulOrder(x, 0.0, fr);
  }

  lemma {:induction false} CastSteps(n: nat, f: nat)
    ensures (n * f + f) as real == (n as real + 1.0) * f as real
    ensures (n * f - f) as real == (n as real - 1.0) * f as real
    ensures (n * f) as real == n as real * f as real
  {
    AreaCast(n, f);
    assert (n as real + 1.0) * f as real == n as real * f as real + f as real;
    assert (n as real - 1.0) * f as real == n as real * f as real - f as real;
  }

  lemma {:induction false} ShrunkIsBelow(side: nat, beta: real, factor: nat)
    requires factor > 0 && beta > 0.0
    ensures IsBelow(Shrunk(side, beta, factor), side as real / beta, factor)
  {
    hide Floor;
    var q := side as real / beta;
    NotNegative(side as real, beta);
    FloorIsClose(q, factor);
    var n := Floor(q / factor as real);
    CastSteps(n, factor);
    IntMultiple(n, factor);
  }

  lemma {:induction false} NotNegative(x: real, y: real)
    requires x >= 0.0 && y > 0.0
    ensures x / y >= 0.0
  {
  }

  lemma {:induction false} IntMultiple(n: nat, f: nat)
    requires f > 0
    ensures (n * f) % f == 0
  {
    DivModUnique(n * f, f, n, 0);
  }

  lemma {:induction false} UpIsAbove(q: real, factor: nat)
    requires factor > 0 && q > 0.0
    ensures IsAbove(Up(q, factor), q, factor)
  {
    hide Ceil;
    CeilIsClose(q, factor);
    var n := Ceil(q / factor as real);
    CastSteps(n, factor);
    IntMultiple(n, factor);
  }

  /** Height and width separately: nearest multiples when their area is allowed, and
      otherwise the multiples below, or above, the sides scaled by the root. */
  lemma {:induction false} EachSide(height: nat, width: nat, factor: nat, minPixels: nat, maxPixels: nat,
                                    shrink: real, grow: real, h0: int, w0: int)
    requires height > 0 && width > 0 && factor > 0 && shrink > 0.0 && grow > 0.0
    requires height <= 200 * width && width <= 200 * height
    requires IsNearest(h0, height, factor) && IsNearest(w0, width, factor)
    ensures match SmartResize(height, width, factor, minPixels, maxPixels, shrink, grow)
            case None => false
            case Some((h, w)) =>
              if h0 * w0 > maxPixels then
                IsBelow(h, height as real / shrink, factor) && IsBelow(w, width as real / shrink, factor)
              else if h0 * w0 < minPixels then
                IsAbove(h, height as real * grow, factor) && IsAbove(w, width as real * grow, factor)
              else h == h0 && w == w0
  {
    hide Rounded, Shrunk, Up, IsNearest, IsBelow, IsAbove;
    RoundedIsNearest(height, factor);
    RoundedIsNearest(width, factor);
    NearestIsUnique(h0, Rounded(height, factor) * factor, height, factor);
    NearestIsUnique(w0, Rounded(width, factor) * factor, width, factor);
    ShrunkIsBelow(height, shrink, factor);
    ShrunkIsBelow(width, shrink, factor);
    Product(height as real, grow);
    Product(width as real, grow);
    UpIsAbove(height as real * grow, factor);
    UpIsAbove(width as real * grow, factor);
  }
}
