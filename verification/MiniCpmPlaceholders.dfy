/** The slices of a MiniCPM-V image against the placeholders in its prompt. */
module MiniCpmPlaceholders {
  import opened Wrappers
  import opened Arithmetic
  import opened MiniCpmSlices

  // ----- The slices -----

  /** The whole image, resized, or a rectangle of the refined image. */
  datatype Picture = Whole | Resized(size: Size) | Slice(rect: Rect)

  datatype Settings = Settings(maxSlices: int, scale: nat, patch: nat, sliceMode: bool)

  predicate Usable(c: Settings, size: Size) {
    c.scale > 0 && c.patch > 0 && size.w > 0 && size.h > 0
  }

  /** How many slices the chosen grid has. */
  function SliceCount(size: Size, c: Settings): nat
    requires Usable(c, size)
  {
    match SlicedGrid(size, c.maxSlices, c.scale, false)
    case None => 0
    case Some(g) => g.0 * g.1
  }

  /** Cutting the refined size gives exactly the grid, in equal aligned cells. */
  lemma {:induction false} RefinedCut(size: Size, g: Grid, scale: nat, patch: nat, root: real)
    requires g.0 > 0 && g.1 > 0 && patch > 0 && root > 0.0
    ensures var r := GetRefineSize(size, g, scale, patch, root);
            var cellW, cellH := r.w / g.0, r.h / g.1;
            && Aligned(cellW, patch) && Aligned(cellH, patch)
            && CeilDiv(r.h, cellH) == g.1 && CeilDiv(r.w, cellW) == g.0
            && r.w == g.0 * cellW && r.h == g.1 * cellH
  {
    hide GetRefineSize;
    RefineSizeFits(size, g, scale, patch, root);
    var r := GetRefineSize(size, g, scale, patch, root);
    CutIsExact(r.w, g.0);
    CutIsExact(r.h, g.1);
    assert r.w == (r.w / g.0) * g.0 + r.w % g.0;
    assert r.h == (r.h / g.1) * g.1 + r.h % g.1;
  }

  /** In an exact cut every cell is whole. */
  lemma {:induction false} WholeCells(r: Size, g: Grid, cellW: nat, cellH: nat, i: nat, j: nat)
    requires i < g.1 && j < g.0 && cellW > 0 && cellH > 0 && r.w == g.0 * cellW && r.h == g.1 * cellH
    ensures (g.0 - 1) * cellW < r.w && i * cellH < r.h
    ensures RowOf(r, i * cellH, cellH, cellW, g.0)[j] == Rect(i * cellH, j * cellW, cellH, cellW)
  {
    MulGap(g.0 - 1, g.0, cellW);
    MulGap(i, g.1, cellH);
    MulGap(j, g.0, cellW);
  }

  predicate IsCell(p: Picture, g: Grid, cellW: nat, cellH: nat, k: nat)
    requires g.0 > 0
  {
    p == Slice(Rect(k / g.0 * cellH, k % g.0 * cellW, cellH, cellW))
  }

  /** The pictures are the cells of the refined image, row by row, all of one
      patch-aligned size. */
  ghost predicate AreCells(ps: seq<Picture>, g: Grid, r: Size, patch: nat)
    requires g.0 > 0 && g.1 > 0 && patch > 0
  {
    var cellW, cellH := r.w / g.0, r.h / g.1;
    && Aligned(cellW, patch) && Aligned(cellH, patch)
    && forall k | 0 <= k < |ps| :: IsCell(ps[k], g, cellW, cellH, k)
  }

  /** `slice_image` and the loops of `get_sliced_images`. */
  method GetSlicedImages(size: Size, c: Settings, root: real, cellRoot: real) returns (images: seq<Picture>)
    requires Usable(c, size) && root > 0.0 && cellRoot > 0.0
    ensures |images| == 1 + (if c.sliceMode then SliceCount(size, c) else 0)
    ensures images[0] == if !c.sliceMode then Whole
                         else Resized(FindBestResize(size, c.scale, c.patch, SlicedGrid(size, c.maxSlices, c.scale, false).None?, root))
    ensures c.sliceMode ==> match SlicedGrid(size, c.maxSlices, c.scale, false)
                            case None => true
                            case Some(g) =>
                              && g.0 > 0 && g.1 > 0
                              && AreCells(images[1..], g, GetRefineSize(size, g, c.scale, c.patch, cellRoot), c.patch)
  {
    if !c.sliceMode {
      return [Whole];
    }
    var grid := GetSlicedGrid(size, c.maxSlices, c.scale, false);
    hide SlicedGrid, FindBestResize, GetRefineSize, IsCell;
    match grid {
      case None =>
        images := [Resized(FindBestResize(size, c.scale, c.patch, true, root))];
      case Some(g) =>
        assert g.0 > 0 && g.1 > 0 by { GridPositive(size, c); }
        images := [Resized(FindBestResize(size, c.scale, c.patch, false, root))];
        var refined := GetRefineSize(size, g, c.scale, c.patch, cellRoot);
        RefinedCut(size, g, c.scale, c.patch, cellRoot);
        images := AppendSlices(images, refined, g);
    }
  }

  lemma {:induction false} GridPositive(size: Size, c: Settings)
    requires Usable(c, size)
    ensures var g := SlicedGrid(size, c.maxSlices, c.scale, false); g.Some? ==> g.value.0 > 0 && g.value.1 > 0
  {
    hide Candidates;
  }

  method AppendSlices(images: seq<Picture>, refined: Size, g: Grid) returns (out: seq<Picture>)
    requires |images| == 1 && g.0 > 0 && g.1 > 0 && refined.w / g.0 > 0 && refined.h / g.1 > 0
    requires refined.w == g.0 * (refined.w / g.0) && refined.h == g.1 * (refined.h / g.1)
    requires CeilDiv(refined.h, refined.h / g.1) == g.1 && CeilDiv(refined.w, refined.w / g.0) == g.0
    ensures |out| == 1 + g.0 * g.1 && out[0] == images[0]
    ensures forall k | 1 <= k < |out| :: IsCell(out[k], g, refined.w / g.0, refined.h / g.1, k - 1)
  {
    var patches := SplitToPatches(refined, g);
    ghost var cellW, cellH := refined.w / g.0, refined.h / g.1;
    out := images;
    var i := 0;
    while i < |patches|
      invariant 0 <= i <= |patches| == g.1
      invariant |out| == 1 + i * g.0 && out[0] == images[0]
      invariant forall k | 1 <= k < |out| :: IsCell(out[k], g, cellW, cellH, k - 1)
    {
      ghost var front := |out|;
      WholeCells(refined, g, cellW, cellH, i, 0);
      var row := patches[i];
      assert |row| == g.0;
      var j := 0;
      while j < |row|
        invariant 0 <= j <= |row| && |out| == front + j && out[0] == images[0]
        invariant forall k | 1 <= k < |out| :: IsCell(out[k], g, cellW, cellH, k - 1)
      {
        WholeCells(refined, g, cellW, cellH, i, j);
        DivModUnique(|out| - 1, g.0, i, j);
        out := out + [Slice(row[j])];
        j := j + 1;
      }
      assert (i + 1) * g.0 == i * g.0 + g.0;
      i := i + 1;
    }
    assert g.1 * g.0 == g.0 * g.1;
  }

  // ----- The placeholders -----

  datatype Token = ImStart | ImEnd | SliceStart | SliceEnd | Unk | NewLine | ImageId(n: int)

  function Count(ts: seq<Token>, t: Token): nat {
    if ts == [] then 0 else Count(ts[..|ts| - 1], t) + (if ts[|ts| - 1] == t then 1 else 0)
  }

  lemma {:induction false} CountConcat(a: seq<Token>, b: seq<Token>, t: Token)
    ensures Count(a + b, t) == Count(a, t) + Count(b, t)
    decreases |b|
  {
    if b == [] {
      assert a + b == a;
    } else {
      assert (a + b)[..|a + b| - 1] == a + b[..|b| - 1];
      CountConcat(a, b[..|b| - 1], t);
    }
  }

  lemma {:induction false} CountOne(x: Token, t: Token)
    ensures Count([x], t) == if x == t then 1 else 0
  {
    assert [x][..0] == [];
  }

  function Unks(n: nat): seq<Token> {
    if n == 0 then [] else Unks(n - 1) + [Unk]
  }

  lemma {:induction false} CountUnks(n: nat, t: Token)
    ensures Count(Unks(n), t) == if t == Unk then n else 0
  {
    if n > 0 {
      CountUnks(n - 1, t);
      CountConcat(Unks(n - 1), [Unk], t);
      CountOne(Unk, t);
    }
  }

  function SliceTokens(features: nat): seq<Token> {
    [SliceStart] + Unks(features) + [SliceEnd]
  }

  function Row(columns: nat, features: nat): seq<Token> {
    if columns == 0 then [] else Row(columns - 1, features) + SliceTokens(features)
  }

  /** The first `n` of `rows` rows, each but the last one ended by a line break. */
  function Rows(n: nat, columns: nat, rows: nat, features: nat): seq<Token> {
    if n == 0 then []
    else Rows(n - 1, columns, rows, features) + Row(columns, features) + (if n < rows then [NewLine] else [])
  }

  function GridTokens(g: Option<Grid>, features: nat): seq<Token> {
    match g
    case None => []
    case Some((columns, rows)) => if columns == 0 || rows == 0 then [] else Rows(rows, columns, rows, features)
  }

  method AppendUnks(ts: seq<Token>, n: nat) returns (out: seq<Token>)
    ensures out == ts + Unks(n)
  {
    out := ts;
    var i := 0;
    while i < n
      invariant 0 <= i <= n && out == ts + Unks(i)
    {
      out := out + [Unk];
      i := i + 1;
    }
  }

  /** `get_grid_placeholder`. */
  method GetGridPlaceholder(g: Option<Grid>, features: nat) returns (out: seq<Token>)
    ensures out == GridTokens(g, features)
  {
    out := [];
    if g.None? || g.value.0 == 0 || g.value.1 == 0 {
      return;
    }
    var slice := AppendUnks([SliceStart], features);
    slice := slice + [SliceEnd];
    var (columns, rows) := g.value;
    var i := 0;
    while i < rows
      invariant 0 <= i <= rows && out == Rows(i, columns, rows, features)
    {
      ghost var front := out;
      var j := 0;
      assert front + [] == front;
      while j < columns
        invariant 0 <= j <= columns && out == front + Row(j, features)
      {
        out := out + slice;
        assert front + Row(j, features) + slice == front + (Row(j, features) + slice);
        j := j + 1;
      }
      if i < rows - 1 {
        out := out + [NewLine];
      } else {
        assert out + [] == out;
      }
      i := i + 1;
    }
  }

  function ImageTokens(size: Size, idx: int, c: Settings, useId: bool, features: nat): seq<Token>
    requires Usable(c, size)
  {
    (if useId then [ImageId(idx)] else []) + ([ImStart] + Unks(features) + [ImEnd])
    + (if c.sliceMode then GridTokens(SlicedGrid(size, c.maxSlices, c.scale, false), features) else [])
  }

  /** `get_slice_image_placeholder`. */
  method GetSliceImagePlaceholder(size: Size, idx: int, c: Settings, useId: bool, features: nat) returns (out: seq<Token>)
    requires Usable(c, size)
    ensures out == ImageTokens(size, idx, c, useId, features)
  {
    hide SlicedGrid, GridTokens;
    var grid := GetSlicedGrid(size, c.maxSlices, c.scale, false);
    var image := AppendUnks([ImStart], features);
    image := image + [ImEnd];
    out := if useId then [ImageId(idx)] + image else image;
    assert [] + image == image && out + [] == out;
    if c.sliceMode {
      var slices := GetGridPlaceholder(grid, features);
      out := out + slices;
    }
  }

  lemma {:induction false} CountSlice(features: nat, t: Token)
    ensures Count(SliceTokens(features), t) ==
            match t { case SliceStart => 1 case SliceEnd => 1 case Unk => features case _ => 0 }
  {
    hide Count;
    CountConcat([SliceStart] + Unks(features), [SliceEnd], t);
    CountConcat([SliceStart], Unks(features), t);
    CountOne(SliceStart, t);
    CountOne(SliceEnd, t);
    CountUnks(features, t);
  }

  lemma {:induction false} CountRow(columns: nat, features: nat, t: Token)
    requires t in {SliceStart, Unk}
    ensures Count(Row(columns, features), t) == columns * (if t == Unk then features else 1)
  {
    hide Count, SliceTokens;
    if columns == 0 {
      CountNothing(t);
    } else {
      CountRow(columns - 1, features, t);
      CountConcat(Row(columns - 1, features), SliceTokens(features), t);
      CountSlice(features, t);
      var n := if t == Unk then features else 1;
      assert (columns - 1) * n + n == columns * n;
    }
  }

  lemma {:induction false} CountNothing(t: Token)
    ensures Count([], t) == 0
  {
  }

  lemma {:induction false} CountRows(n: nat, columns: nat, rows: nat, features: nat, t: Token)
    requires t in {SliceStart, Unk}
    ensures Count(Rows(n, columns, rows, features), t) == n * (columns * (if t == Unk then features else 1))
  {
    hide Count, Row;
    CountNothing(t);
    if n > 0 {
      var front, row, end := Rows(n - 1, columns, rows, features), Row(columns, features), if n < rows then [NewLine] else [];
      CountRows(n - 1, columns, rows, features, t);
      CountConcat(front + row, end, t);
      CountConcat(front, row, t);
      CountRow(columns, features, t);
      CountOne(NewLine, t);
      var w := columns * (if t == Unk then features else 1);
      assert (n - 1) * w + w == n * w;
    }
  }

  lemma {:induction false} CountGrid(g: Grid, features: nat, t: Token)
    requires t in {SliceStart, Unk} && g.0 > 0 && g.1 > 0
    ensures Count(GridTokens(Some(g), features), t) == (g.0 * g.1) * (if t == Unk then features else 1)
  {
    hide Count, Rows;
    CountRows(g.1, g.0, g.1, features, t);
    var w := if t == Unk then features else 1;
    assert g.1 * (g.0 * w) == (g.0 * g.1) * w;
  }

  /** The prompt gets one placeholder per slice, and feature positions for exactly
      the pictures the image is turned into. */
  lemma {:induction false} SlicesMatchPlaceholders(size: Size, idx: int, c: Settings, useId: bool, features: nat)
    requires Usable(c, size)
    ensures var out := ImageTokens(size, idx, c, useId, features);
            var slices := if c.sliceMode then SliceCount(size, c) else 0;
            && Count(out, SliceStart) == slices
            && Count(out, Unk) == (1 + slices) * features
  {
    hide Count, SlicedGrid, GridTokens, Unks;
    forall t | t in {SliceStart, Unk}
      ensures Count(ImageTokens(size, idx, c, useId, features), t)
           == (if t == Unk then (1 + (if c.sliceMode then SliceCount(size, c) else 0)) * features
               else if c.sliceMode then SliceCount(size, c) else 0) {
      CountImage(size, idx, c, useId, features, t);
    }
  }

  lemma {:induction false} CountImage(size: Size, idx: int, c: Settings, useId: bool, features: nat, t: Token)
    requires Usable(c, size) && t in {SliceStart, Unk}
    ensures var slices := if c.sliceMode then SliceCount(size, c) else 0;
            Count(ImageTokens(size, idx, c, useId, features), t)
            == if t == Unk then (1 + slices) * features else slices
  {
    hide Count, SlicedGrid, GridTokens, Unks;
    var id := if useId then [ImageId(idx)] else [];
    var image := [ImStart] + Unks(features) + [ImEnd];
    var grid := SlicedGrid(size, c.maxSlices, c.scale, false);
    var slices := if c.sliceMode then GridTokens(grid, features) else [];
    CountNothing(t);
    CountConcat(id + image, slices, t);
    CountConcat(id, image, t);
    CountConcat([ImStart] + Unks(features), [ImEnd], t);
    CountConcat([ImStart], Unks(features), t);
    CountOne(ImageId(idx), t);
    CountOne(ImStart, t);
    CountOne(ImEnd, t);
    CountUnks(features, t);
    GridPositive(size, c);
    NoGrid(features);
    if grid.Some? {
      CountGrid(grid.value, features, t);
      var n := grid.value.0 * grid.value.1;
      assert (1 + n) * features == features + n * features;
    }
  }

  lemma {:induction false} NoGrid(features: nat)
    ensures GridTokens(None, features) == []
  {
  }
}
