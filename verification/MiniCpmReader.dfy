/** An independent reader of image placeholders, and the proof that it reads every
    placeholder back. */
module MiniCpmReader {
  import opened Wrappers
  import opened MiniCpmSlices
  import opened MiniCpmPlaceholders

  /** Id, number of feature positions of the whole image, and those of its slices,
      row by row. */
  datatype Layout = Layout(id: Option<int>, features: nat, rows: seq<seq<nat>>)

  /** The positions in front of the first other token. */
  function ReadUnks(ts: seq<Token>): (n: nat)
    ensures n <= |ts|
  {
    if ts == [] || ts[0] != Unk then 0 else 1 + ReadUnks(ts[1..])
  }

  /** Positions between two given tokens, and what follows. */
  function ReadBetween(ts: seq<Token>, open: Token, close: Token): (r: Option<(nat, seq<Token>)>)
    ensures r.Some? ==> |r.value.1| < |ts|
  {
    if ts == [] || ts[0] != open then None
    else
      var n := ReadUnks(ts[1..]);
      if 1 + n < |ts| && ts[1 + n] == close then Some((n, ts[2 + n..])) else None
  }

  /** All slices up to the end of the row. */
  function ReadRow(ts: seq<Token>): (r: (seq<nat>, seq<Token>))
    ensures |r.1| <= |ts|
    decreases |ts|
  {
    match ReadBetween(ts, SliceStart, SliceEnd)
    case None => ([], ts)
    case Some((n, rest)) => var (ns, later) := ReadRow(rest); ([n] + ns, later)
  }

  /** Rows with a line break between any two of them. */
  function ReadRows(ts: seq<Token>): Option<seq<seq<nat>>>
    decreases |ts|
  {
    var (row, rest) := ReadRow(ts);
    if rest == [] then Some([row])
    else if rest[0] != NewLine then None
    else match ReadRows(rest[1..])
      case None => None
      case Some(rows) => Some([row] + rows)
  }

  function ReadLayout(ts: seq<Token>): Option<Layout> {
    var id := if ts != [] && ts[0].ImageId? then Some(ts[0].n) else None;
    match ReadBetween(if id.Some? then ts[1..] else ts, ImStart, ImEnd)
    case None => None
    case Some((n, rest)) =>
      if rest == [] then Some(Layout(id, n, []))
      else match ReadRows(rest)
      case None => None
      case Some(rows) => Some(Layout(id, n, rows))
  }

  lemma {:induction false} UnksCons(n: nat)
    ensures |Unks(n)| == n && forall i | 0 <= i < n :: Unks(n)[i] == Unk
  {
    if n > 0 {
      UnksCons(n - 1);
    }
  }

  lemma {:induction false} UnksRead(n: nat, ts: seq<Token>, rest: seq<Token>)
    requires |ts| == n && (forall i | 0 <= i < n :: ts[i] == Unk) && (rest == [] || rest[0] != Unk)
    ensures ReadUnks(ts + rest) == n
    decreases n
  {
    if n == 0 {
      assert ts + rest == rest;
    } else {
      assert (ts + rest)[1..] == ts[1..] + rest;
      UnksRead(n - 1, ts[1..], rest);
    }
  }

  lemma {:induction false} BetweenRead(open: Token, n: nat, close: Token, rest: seq<Token>)
    requires close != Unk
    ensures ReadBetween([open] + Unks(n) + [close] + rest, open, close) == Some((n, rest))
  {
    var ts := [open] + Unks(n) + [close] + rest;
    UnksCons(n);
    assert ts[1..] == Unks(n) + ([close] + rest);
    UnksRead(n, Unks(n), [close] + rest);
    assert ts[2 + n..] == rest;
  }

  /** `n` times the same entry. */
  function Times<T>(n: nat, x: T): seq<T> {
    if n == 0 then [] else [x] + Times(n - 1, x)
  }

  lemma {:induction false} RowCons(columns: nat, features: nat)
    requires columns > 0
    ensures Row(columns, features) == SliceTokens(features) + Row(columns - 1, features)
  {
    hide SliceTokens;
    var slice := SliceTokens(features);
    if columns == 1 {
      assert Row(0, features) == [];
      assert [] + slice == slice + [];
    } else {
      RowCons(columns - 1, features);
      assert (slice + Row(columns - 2, features)) + slice == slice + (Row(columns - 2, features) + slice);
    }
  }

  lemma {:induction false} RowRead(columns: nat, features: nat, rest: seq<Token>)
    requires rest == [] || rest[0] == NewLine
    ensures ReadRow(Row(columns, features) + rest) == (Times(columns, features), rest)
    decreases columns
  {
    hide ReadBetween;
    if columns == 0 {
      assert Row(0, features) + rest == rest;
      NoSlice(rest);
    } else {
      RowCons(columns, features);
      var later := Row(columns - 1, features) + rest;
      assert Row(columns, features) + rest == [SliceStart] + Unks(features) + [SliceEnd] + later;
      BetweenRead(SliceStart, features, SliceEnd, later);
      RowRead(columns - 1, features, rest);
    }
  }

  lemma {:induction false} NoSlice(rest: seq<Token>)
    requires rest == [] || rest[0] == NewLine
    ensures ReadBetween(rest, SliceStart, SliceEnd) == None
  {
  }

  /** Rows that all have a line break behind them. */
  function Lines(n: nat, columns: nat, features: nat): seq<Token> {
    if n == 0 then [] else Lines(n - 1, columns, features) + (Row(columns, features) + [NewLine])
  }

  lemma {:induction false} LinesCons(n: nat, columns: nat, features: nat)
    requires n > 0
    ensures Lines(n, columns, features) == (Row(columns, features) + [NewLine]) + Lines(n - 1, columns, features)
  {
    hide Row;
    var line := Row(columns, features) + [NewLine];
    if n == 1 {
      assert Lines(0, columns, features) == [] && [] + line == line + [];
    } else {
      LinesCons(n - 1, columns, features);
      assert (line + Lines(n - 2, columns, features)) + line == line + (Lines(n - 2, columns, features) + line);
    }
  }

  lemma {:induction false} RowsAreLines(n: nat, columns: nat, rows: nat, features: nat)
    requires n < rows
    ensures Rows(n, columns, rows, features) == Lines(n, columns, features)
  {
    hide Row;
    if n > 0 {
      RowsAreLines(n - 1, columns, rows, features);
      var x, row := Rows(n - 1, columns, rows, features), Row(columns, features);
      assert x + row + [NewLine] == x + (row + [NewLine]);
    }
  }

  lemma {:induction false} LinesRead(n: nat, columns: nat, features: nat)
    ensures ReadRows(Lines(n, columns, features) + Row(columns, features)) == Some(Times(n + 1, Times(columns, features)))
    decreases n
  {
    hide ReadRow, Row, Times;
    var row := Row(columns, features);
    TimesCons(n + 1, Times(columns, features));
    if n == 0 {
      RowRead(columns, features, []);
      assert Lines(0, columns, features) + row == row + [];
      TimesNone(Times(columns, features));
      assert [Times(columns, features)] + [] == [Times(columns, features)];
    } else {
      LinesCons(n, columns, features);
      var later := Lines(n - 1, columns, features) + row;
      assert Lines(n, columns, features) + row == row + ([NewLine] + later);
      RowRead(columns, features, [NewLine] + later);
      assert ([NewLine] + later)[1..] == later;
      LinesRead(n - 1, columns, features);
    }
  }

  lemma {:induction false} TimesCons<T>(n: nat, x: T)
    requires n > 0
    ensures Times(n, x) == [x] + Times(n - 1, x)
  {
  }

  lemma {:induction false} TimesNone<T>(x: T)
    ensures Times(0, x) == []
  {
  }

  lemma {:induction false} GridRead(g: Grid, features: nat)
    requires g.0 > 0 && g.1 > 0
    ensures ReadRows(GridTokens(Some(g), features)) == Some(Times(g.1, Times(g.0, features)))
    ensures GridTokens(Some(g), features) != []
  {
    hide ReadRows, Row, Times;
    RowsAreLines(g.1 - 1, g.0, g.1, features);
    LinesRead(g.1 - 1, g.0, features);
    var x, row := Rows(g.1 - 1, g.0, g.1, features), Row(g.0, features);
    assert x + row + [] == x + row;
    RowCons(g.0, features);
    assert row != [];
  }

  /** Every placeholder reads back as its id, the positions of the whole image, and one
      slice per grid cell with as many positions, row by row. */
  lemma {:induction false} PlaceholderReads(size: Size, idx: int, c: Settings, useId: bool, features: nat)
    requires Usable(c, size)
    ensures ReadLayout(ImageTokens(size, idx, c, useId, features)) ==
            Some(Layout(if useId then Some(idx) else None, features,
                        match (if c.sliceMode then SlicedGrid(size, c.maxSlices, c.scale, false) else None)
                        case None => []
                        case Some(g) => Times(g.1, Times(g.0, features))))
  {
    hide ReadRows, SlicedGrid, GridTokens, Times, ReadBetween;
    var ts := ImageTokens(size, idx, c, useId, features);
    var grid := if c.sliceMode then SlicedGrid(size, c.maxSlices, c.scale, false) else None;
    var slices := if c.sliceMode then GridTokens(grid, features) else [];
    var image := [ImStart] + Unks(features) + [ImEnd] + slices;
    assert ts == if useId then [ImageId(idx)] + image else image by { assert [] + image == image; }
    assert useId ==> ts[1..] == image;
    BetweenRead(ImStart, features, ImEnd, slices);
    NoGrid(features);
    GridPositive(size, c);
    if grid.Some? {
      GridRead(grid.value, features);
    }
  }
}
