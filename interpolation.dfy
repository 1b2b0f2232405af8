/**
 * interpolateField: the sweep that turns the grid into a screen-space vector
 * field. Every second column x of the bounds, and every second row y of it,
 * is sampled; a visible sample fills a 2x2 block: two entries of the column
 * and four pixels of the mask. The sweep runs in batches that yield when a
 * time budget runs out and that stop early when cancellation is requested.
 *
 * The projection, the grids, the distortion and the colour scale are foreign
 * code; they enter as the opaque functions of a Sampler.
 */
module Interpolation {
  import opened Wrappers
  import opened Masks
  import opened Fields
  import opened Projections

  /** A grid vector [u, v, magnitude]. */
  datatype Wind = Wind(u: real, v: real, m: real)

  /**
   * The sweep's collaborators:
   * invert      projection.invert; None when it returns nothing or a non-finite longitude;
   * interpolate primaryGrid.interpolate;
   * distort     distort(projection, λ, φ, x, y, velocityScale, wind): the new u and v;
   * overlay     overlayGrid.interpolate, present when the overlay grid is a distinct grid;
   * gradient    scale.gradient(scalar, OVERLAY_ALPHA).
   */
  datatype Sampler = Sampler(
    invert: Point -> Option<Geo>,
    interpolate: Geo -> Option<Wind>,
    distort: (Geo, Point, Wind) -> (real, real),
    overlay: Option<Geo -> Option<real>>,
    gradient: real -> Rgba)

  /**
   * The sample and the colour of one visible point. A point off the globe is a
   * Hole with transparent colour; a point the grid has no vector for is a Hole;
   * otherwise the sample is the distorted u and v with the grid's magnitude. The colour comes
   * from the overlay scalar when there is a distinct overlay, from the magnitude
   * otherwise, and is transparent when there is no scalar.
   */
  function SamplePoint(s: Sampler, x: int, y: int): (r: (Sample, Rgba))
    ensures s.invert(Point(x, y)).None? ==> r == (Hole, TransparentBlack)
    ensures r.0.Defined? <==>
      s.invert(Point(x, y)).Some? && s.interpolate(s.invert(Point(x, y)).value).Some?
    ensures r.0.Defined? ==>
      var g := s.invert(Point(x, y)).value;
      var wind := s.interpolate(g).value;
      (r.0.u, r.0.v) == s.distort(g, Point(x, y), wind) && r.0.m == wind.m
    ensures s.invert(Point(x, y)).Some? && s.overlay.Some? ==>
      var scalar := s.overlay.value(s.invert(Point(x, y)).value);
      r.1 == if scalar.Some? then s.gradient(scalar.value) else TransparentBlack
    ensures s.overlay.None? ==> r.1 == if r.0.Defined? then s.gradient(r.0.m) else TransparentBlack
  {
    match s.invert(Point(x, y))
    case None => (Hole, TransparentBlack)
    case Some(g) =>
      var wind := s.interpolate(g);
      var vec: Sample :=
        if wind.Some? then
          var uv := s.distort(g, Point(x, y), wind.value);
          Defined(uv.0, uv.1, wind.value.m)
        else Hole;
      var scalar :=
        if s.overlay.Some? then s.overlay.value(g)
        else if wind.Some? then Some(wind.value.m)
        else None;
      (vec, if scalar.Some? then s.gradient(scalar.value) else TransparentBlack)
  }

  /** The four mask writes of one sampled point: (x, y), (x+1, y), (x, y+1), (x+1, y+1). */
  function PaintBlock(data: seq<Byte>, width: int, x: int, y: int, c: Rgba): (r: seq<Byte>)
    ensures |r| == |data|
  {
    SetPixel(SetPixel(SetPixel(SetPixel(data, width, x, y, c), width, x + 1, y, c), width, x, y + 1, c),
             width, x + 1, y + 1, c)
  }

  /** The mask and the column while one column is being swept. */
  datatype ColumnState = ColumnState(data: seq<Byte>, column: Column)

  /** The mask and the columns table between columns; x is the next column. */
  datatype Sweep = Sweep(data: seq<Byte>, columns: Columns, x: int)

  /** Number of sampled rows: y = b.y, b.y + 2, ... up to b.yMax inclusive. */
  function RowCount(b: Bounds): nat
  {
    if b.yMax < b.y then 0 else (b.yMax - b.y) / 2 + 1
  }

  /** Number of sampled columns: x = b.x, b.x + 2, ... below b.xMax. */
  function ColumnCount(b: Bounds): nat
  {
    if b.xMax <= b.x then 0 else (b.xMax - b.x + 1) / 2
  }

  /** The sampled coordinate (lo, lo + 2, ...) whose 2x2 block holds v. */
  function Base(lo: int, v: int): int
  {
    v - (v - lo) % 2
  }

  /** One iteration of interpolateColumn's loop, reading visibility from the live mask. */
  function RowStep(s: Sampler, width: int, x: int, y: int, st: ColumnState): (r: ColumnState)
  {
    if Visible(st.data, width, x, y) then
      var sc := SamplePoint(s, x, y);
      ColumnState(PaintBlock(st.data, width, x, y, sc.1), st.column[y := sc.0][y + 1 := sc.0])
    else st
  }

  /**
   * One row: a visible point gets entries y and y + 1, both its sample, and its
   * block painted with its colour; every other entry stays; an invisible point
   * changes nothing.
   */
  lemma RowStepEffect(s: Sampler, width: int, x: int, y: int, st: ColumnState)
    ensures var r := RowStep(s, width, x, y, st);
      && (!Visible(st.data, width, x, y) ==> r == st)
      && (Visible(st.data, width, x, y) ==>
            && r.column.Keys == st.column.Keys + {y, y + 1}
            && r.column[y] == r.column[y + 1] == SamplePoint(s, x, y).0
            && (forall k :: k in st.column && k != y && k != y + 1 ==> r.column[k] == st.column[k])
            && r.data == PaintBlock(st.data, width, x, y, SamplePoint(s, x, y).1))
  {
  }

  /** interpolateColumn after its first n rows. */
  function ColumnRows(s: Sampler, b: Bounds, width: int, x: int, data: seq<Byte>, n: nat): (r: ColumnState)
    ensures |r.data| == |data|
  {
    if n == 0 then ColumnState(data, map[])
    else RowStep(s, width, x, b.y + 2 * (n - 1), ColumnRows(s, b, width, x, data, n - 1))
  }

  /** One call of interpolateColumn(x) and the x += 2 that follows it. */
  function NextColumn(s: Sampler, b: Bounds, width: int, st: Sweep): (r: Sweep)
  {
    var cs := ColumnRows(s, b, width, st.x, st.data, RowCount(b));
    Sweep(cs.data, st.columns[st.x := cs.column][st.x + 1 := cs.column], st.x + 2)
  }

  /** The sweep after n more columns. */
  function SweepColumns(s: Sampler, b: Bounds, width: int, st: Sweep, n: nat): (r: Sweep)
  {
    if n == 0 then st else NextColumn(s, b, width, SweepColumns(s, b, width, st, n - 1))
  }

  /** The state in which interpolateField starts: no columns, x at the left edge. */
  function Start(b: Bounds, data: seq<Byte>): Sweep
  {
    Sweep(data, map[], b.x)
  }

  /**
   * The column that the sweep should produce for sampled column x, read off
   * the mask as it was before the sweep: rows y and y + 1 of every sampled row
   * y whose pixel (x, y) is visible, both holding that point's sample.
   */
  ghost function CleanColumn(s: Sampler, b: Bounds, width: int, data: seq<Byte>, x: int): Column
  {
    map y | b.y <= y < b.y + 2 * RowCount(b) && Visible(data, width, x, Base(b.y, y)) ::
      SamplePoint(s, x, Base(b.y, y)).0
  }

  // ---------------------------------------------------------------------------
  // Arithmetic of 2x2 blocks

  lemma BaseFacts(lo: int, v: int, r: int, n: int)
    requires (r - lo) % 2 == 0
    ensures Base(lo, r) == r && Base(lo, r + 1) == r
    ensures Base(lo, v) == r <==> v == r || v == r + 1
    ensures lo <= Base(lo, v) < lo + 2 * n <==> lo <= v < lo + 2 * n
  {
  }

  // ---------------------------------------------------------------------------
  // The mask writes of one block

  /**
   * PaintBlock gives its four pixels the colour and leaves every other pixel as
   * it was, when both columns of the block lie inside a row.
   */
  lemma PaintBlockEffect(data: seq<Byte>, width: int, x: int, y: int, c: Rgba, px: int, py: int)
    requires 0 <= x && x + 1 < width && 0 <= px < width && InBuffer(data, width, px, py)
    ensures ColorAt(PaintBlock(data, width, x, y, c), width, px, py) ==
      if (px == x || px == x + 1) && (py == y || py == y + 1) then c else ColorAt(data, width, px, py)
  {
    var d2 := SetPixel(SetPixel(data, width, x, y, c), width, x + 1, y, c);
    assert PaintBlock(data, width, x, y, c) == SetPixel(SetPixel(d2, width, x, y + 1, c), width, x + 1, y + 1, c);
    RowPairEffect(data, width, x, y, c, px, py);
    RowPairEffect(d2, width, x, y + 1, c, px, py);
  }

  /** The two writes of one row of a block, seen from pixel (px, py). */
  lemma RowPairEffect(data: seq<Byte>, width: int, x: int, y: int, c: Rgba, px: int, py: int)
    requires 0 <= x && x + 1 < width && 0 <= px < width && InBuffer(data, width, px, py)
    ensures InBuffer(SetPixel(SetPixel(data, width, x, y, c), width, x + 1, y, c), width, px, py)
    ensures ColorAt(SetPixel(SetPixel(data, width, x, y, c), width, x + 1, y, c), width, px, py) ==
      if (px == x || px == x + 1) && py == y then c else ColorAt(data, width, px, py)
  {
    PixelWriteEffect(data, width, x, y, c, px, py);
    PixelWriteEffect(SetPixel(data, width, x, y, c), width, x + 1, y, c, px, py);
  }

  /** One pixel write, seen from pixel (px, py). */
  lemma PixelWriteEffect(data: seq<Byte>, width: int, x: int, y: int, c: Rgba, px: int, py: int)
    requires 0 <= x < width && 0 <= px < width && InBuffer(data, width, px, py)
    ensures InBuffer(SetPixel(data, width, x, y, c), width, px, py)
    ensures ColorAt(SetPixel(data, width, x, y, c), width, px, py) ==
      if px == x && py == y then c else ColorAt(data, width, px, py)
  {
    if px == x && py == y {
      SetThenVisible(data, width, x, y, c);
    } else {
      SetPixelElsewhere(data, width, x, y, c, px, py);
    }
  }

  // ---------------------------------------------------------------------------
  // One column

  /**
   * What the first n rows of a column have done, stated against the mask as it
   * was when the column began: an entry for rows y and y + 1 of every visible
   * sampled row y, holding that point's sample; the point's colour in the four
   * pixels of each such block; every other pixel unchanged.
   */
  ghost predicate ColumnPainted(s: Sampler, b: Bounds, width: int, x: int, data: seq<Byte>, n: nat, cs: ColumnState)
  {
    && |cs.data| == |data|
    && (forall y :: y in cs.column <==> b.y <= y < b.y + 2 * n && Visible(data, width, x, Base(b.y, y)))
    && (forall y :: y in cs.column ==> cs.column[y] == SamplePoint(s, x, Base(b.y, y)).0)
    && ColumnColoured(s, b, width, x, data, n, cs.data)
  }

  /** The colour part of ColumnPainted: the mask `after` the first n rows of column x. */
  ghost predicate ColumnColoured(s: Sampler, b: Bounds, width: int, x: int, data: seq<Byte>, n: nat, after: seq<Byte>)
  {
    |after| == |data| &&
    forall px, py :: 0 <= px < width && InBuffer(data, width, px, py) ==>
      ColorAt(after, width, px, py) ==
        if (px == x || px == x + 1) && b.y <= py < b.y + 2 * n && Visible(data, width, x, Base(b.y, py))
        then SamplePoint(s, x, Base(b.y, py)).1
        else ColorAt(data, width, px, py)
  }

  /**
   * interpolateColumn reads the mask it is writing, yet each block's writes stay
   * clear of the pixels the column samples later, so the column behaves as if
   * it had read the mask as it was at its start.
   */
  lemma {:induction false} ColumnRowsPainted(s: Sampler, b: Bounds, width: int, x: int, data: seq<Byte>, n: nat)
    requires 0 <= x && x + 1 < width
    ensures ColumnPainted(s, b, width, x, data, n, ColumnRows(s, b, width, x, data, n))
  {
    if n > 0 {
      ColumnRowsPainted(s, b, width, x, data, n - 1);
      var prev := ColumnRows(s, b, width, x, data, n - 1);
      assert ColumnRows(s, b, width, x, data, n) == RowStep(s, width, x, b.y + 2 * (n - 1), prev);
      RowPainted(s, b, width, x, data, n, prev);
    }
  }

  /** One more row keeps ColumnPainted. */
  lemma RowPainted(s: Sampler, b: Bounds, width: int, x: int, data: seq<Byte>, n: nat, prev: ColumnState)
    requires 0 <= x && x + 1 < width
    requires n > 0 && ColumnPainted(s, b, width, x, data, n - 1, prev)
    ensures ColumnPainted(s, b, width, x, data, n, RowStep(s, width, x, b.y + 2 * (n - 1), prev))
  {
    var y := b.y + 2 * (n - 1);
    assert Visible(prev.data, width, x, y) == Visible(data, width, x, y) by {
      VisibleIsAlpha(prev.data, width, x, y);
      VisibleIsAlpha(data, width, x, y);
    }
    RowEntries(s, b, width, x, data, n, prev);
    RowColours(s, b, width, x, data, n, prev);
  }

  /** The column entries after row n - 1: the keys and samples of ColumnPainted. */
  lemma RowEntries(s: Sampler, b: Bounds, width: int, x: int, data: seq<Byte>, n: nat, prev: ColumnState)
    requires n > 0 && ColumnPainted(s, b, width, x, data, n - 1, prev)
    requires Visible(prev.data, width, x, b.y + 2 * (n - 1)) == Visible(data, width, x, b.y + 2 * (n - 1))
    ensures var cs := RowStep(s, width, x, b.y + 2 * (n - 1), prev);
      && (forall y :: y in cs.column <==> b.y <= y < b.y + 2 * n && Visible(data, width, x, Base(b.y, y)))
      && (forall y :: y in cs.column ==> cs.column[y] == SamplePoint(s, x, Base(b.y, y)).0)
  {
    var y := b.y + 2 * (n - 1);
    var w := SamplePoint(s, x, y).0;
    assert RowStep(s, width, x, y, prev).column ==
      if Visible(data, width, x, y) then prev.column[y := w][y + 1 := w] else prev.column;
    ColumnPush(s, b, width, x, data, n, prev.column, RowStep(s, width, x, y, prev).column);
  }

  /** RowEntries on the column map alone. */
  lemma ColumnPush(s: Sampler, b: Bounds, width: int, x: int, data: seq<Byte>, n: nat, col: Column, col': Column)
    requires n > 0
    requires forall y :: y in col <==> b.y <= y < b.y + 2 * (n - 1) && Visible(data, width, x, Base(b.y, y))
    requires forall y :: y in col ==> col[y] == SamplePoint(s, x, Base(b.y, y)).0
    requires var y := b.y + 2 * (n - 1); var w := SamplePoint(s, x, y).0;
      col' == if Visible(data, width, x, y) then col[y := w][y + 1 := w] else col
    ensures forall y :: y in col' <==> b.y <= y < b.y + 2 * n && Visible(data, width, x, Base(b.y, y))
    ensures forall y :: y in col' ==> col'[y] == SamplePoint(s, x, Base(b.y, y)).0
  {
    var y := b.y + 2 * (n - 1);
    assert (y - b.y) % 2 == 0;
    forall y' ensures y' in col' <==> b.y <= y' < b.y + 2 * n && Visible(data, width, x, Base(b.y, y')) {
      BaseFacts(b.y, y', y, n);
      BaseFacts(b.y, y', y, n - 1);
    }
    forall y' | y' in col' ensures col'[y'] == SamplePoint(s, x, Base(b.y, y')).0 {
      BaseFacts(b.y, y', y, n);
    }
  }

  /** The mask after row n - 1: the colours of ColumnPainted. */
  lemma RowColours(s: Sampler, b: Bounds, width: int, x: int, data: seq<Byte>, n: nat, prev: ColumnState)
    requires 0 <= x && x + 1 < width
    requires n > 0 && |prev.data| == |data| && ColumnColoured(s, b, width, x, data, n - 1, prev.data)
    requires Visible(prev.data, width, x, b.y + 2 * (n - 1)) == Visible(data, width, x, b.y + 2 * (n - 1))
    ensures ColumnColoured(s, b, width, x, data, n, RowStep(s, width, x, b.y + 2 * (n - 1), prev).data)
  {
    var y := b.y + 2 * (n - 1);
    assert (y - b.y) % 2 == 0;
    var after := RowStep(s, width, x, y, prev).data;
    var sc := SamplePoint(s, x, y);
    assert after == if Visible(data, width, x, y) then PaintBlock(prev.data, width, x, y, sc.1) else prev.data;
    forall px, py | 0 <= px < width && InBuffer(data, width, px, py)
      ensures ColorAt(after, width, px, py) ==
        if (px == x || px == x + 1) && b.y <= py < b.y + 2 * n && Visible(data, width, x, Base(b.y, py))
        then SamplePoint(s, x, Base(b.y, py)).1
        else ColorAt(data, width, px, py)
    {
      BaseFacts(b.y, py, y, n);
      BaseFacts(b.y, py, y, n - 1);
      if Visible(data, width, x, y) {
        PaintBlockEffect(prev.data, width, x, y, sc.1, px, py);
      }
    }
  }

  /** A whole column is the clean column of the mask it started from. */
  lemma ColumnIsClean(s: Sampler, b: Bounds, width: int, x: int, data: seq<Byte>)
    requires 0 <= x && x + 1 < width
    ensures ColumnRows(s, b, width, x, data, RowCount(b)).column == CleanColumn(s, b, width, data, x)
  {
    ColumnRowsPainted(s, b, width, x, data, RowCount(b));
  }

  // ---------------------------------------------------------------------------
  // The whole sweep

  /**
   * What the first n columns of a sweep from the left edge have done, against
   * the mask as it was before the sweep: columns b.x .. b.x + 2n - 1 exist and
   * no other, columns x and x + 1 both hold the clean column of sampled column
   * x, every visible sampled point's block has that point's colour, and every
   * other pixel is unchanged.
   */
  ghost predicate SweepPainted(s: Sampler, b: Bounds, width: int, data: seq<Byte>, n: nat, st: Sweep)
  {
    && st.x == b.x + 2 * n
    && |st.data| == |data|
    && (forall cx :: cx in st.columns <==> b.x <= cx < b.x + 2 * n)
    && (forall cx :: cx in st.columns ==> st.columns[cx] == CleanColumn(s, b, width, data, Base(b.x, cx)))
    && SweepColoured(s, b, width, data, n, st.data)
  }

  /** The colour part of SweepPainted: the mask `after` the first n columns. */
  ghost predicate SweepColoured(s: Sampler, b: Bounds, width: int, data: seq<Byte>, n: nat, after: seq<Byte>)
  {
    |after| == |data| &&
    forall px, py :: 0 <= px < width && InBuffer(data, width, px, py) ==>
      ColorAt(after, width, px, py) ==
        if b.x <= px < b.x + 2 * n && b.y <= py < b.y + 2 * RowCount(b)
           && Visible(data, width, Base(b.x, px), Base(b.y, py))
        then SamplePoint(s, Base(b.x, px), Base(b.y, py)).1
        else ColorAt(data, width, px, py)
  }

  /**
   * A sweep of n columns from the left edge, with the bounds inside the mask's
   * width, is the clean sweep: each column is visited once, in increasing order,
   * and no column's writes disturb a pixel that a later column samples.
   */
  lemma {:induction false} SweepIsClean(s: Sampler, b: Bounds, width: int, data: seq<Byte>, n: nat)
    requires 0 <= b.x && b.xMax < width && n <= ColumnCount(b)
    ensures SweepPainted(s, b, width, data, n, SweepColumns(s, b, width, Start(b, data), n))
  {
    if n > 0 {
      SweepIsClean(s, b, width, data, n - 1);
      SweepStep(s, b, width, data, n, SweepColumns(s, b, width, Start(b, data), n - 1));
    }
  }

  /** Column n - 1 of a clean sweep keeps it clean. */
  lemma SweepStep(s: Sampler, b: Bounds, width: int, data: seq<Byte>, n: nat, prev: Sweep)
    requires 0 <= b.x && b.xMax < width && 0 < n <= ColumnCount(b)
    requires SweepPainted(s, b, width, data, n - 1, prev)
    ensures SweepPainted(s, b, width, data, n, NextColumn(s, b, width, prev))
  {
    var x := b.x + 2 * (n - 1);
    UnsweptVisible(s, b, width, data, n, prev.data, x);
    StepEntries(s, b, width, data, n, prev);
    StepColours(s, b, width, data, n, prev);
  }

  /** The columns table part of SweepStep. */
  lemma StepEntries(s: Sampler, b: Bounds, width: int, data: seq<Byte>, n: nat, prev: Sweep)
    requires 0 <= b.x && b.xMax < width && 0 < n <= ColumnCount(b)
    requires SweepPainted(s, b, width, data, n - 1, prev)
    requires var x := b.x + 2 * (n - 1);
      forall y :: Visible(prev.data, width, x, y) == Visible(data, width, x, y)
    ensures var st := NextColumn(s, b, width, prev);
      && st.x == b.x + 2 * n
      && (forall cx :: cx in st.columns <==> b.x <= cx < b.x + 2 * n)
      && (forall cx :: cx in st.columns ==> st.columns[cx] == CleanColumn(s, b, width, data, Base(b.x, cx)))
  {
    var x := b.x + 2 * (n - 1);
    assert CleanColumn(s, b, width, prev.data, x) == CleanColumn(s, b, width, data, x);
    ColumnIsClean(s, b, width, x, prev.data);
    ColumnEntries(s, b, width, data, n, prev);
  }

  /** The mask part of SweepStep. */
  lemma StepColours(s: Sampler, b: Bounds, width: int, data: seq<Byte>, n: nat, prev: Sweep)
    requires 0 <= b.x && b.xMax < width && 0 < n <= ColumnCount(b)
    requires SweepPainted(s, b, width, data, n - 1, prev)
    requires var x := b.x + 2 * (n - 1);
      forall y :: Visible(prev.data, width, x, y) == Visible(data, width, x, y)
    ensures SweepColoured(s, b, width, data, n, NextColumn(s, b, width, prev).data)
  {
    var x := b.x + 2 * (n - 1);
    ColumnRowsPainted(s, b, width, x, prev.data, RowCount(b));
    ColumnColours(s, b, width, data, n, prev.data, NextColumn(s, b, width, prev).data);
  }

  /** Columns at or right of the sweep's x still show the visibility they had before it. */
  lemma UnsweptVisible(s: Sampler, b: Bounds, width: int, data: seq<Byte>, n: nat, prev: seq<Byte>, x: int)
    requires 0 <= b.x && b.xMax < width && 0 < n <= ColumnCount(b)
    requires SweepColoured(s, b, width, data, n - 1, prev)
    requires x == b.x + 2 * (n - 1)
    ensures forall y :: Visible(prev, width, x, y) == Visible(data, width, x, y)
  {
    forall y ensures Visible(prev, width, x, y) == Visible(data, width, x, y) {
      VisibleIsAlpha(prev, width, x, y);
      VisibleIsAlpha(data, width, x, y);
    }
  }

  /** The columns table after column n - 1: the keys and columns of SweepPainted. */
  lemma ColumnEntries(s: Sampler, b: Bounds, width: int, data: seq<Byte>, n: nat, prev: Sweep)
    requires n > 0 && SweepPainted(s, b, width, data, n - 1, prev)
    requires var x := b.x + 2 * (n - 1);
      ColumnRows(s, b, width, x, prev.data, RowCount(b)).column == CleanColumn(s, b, width, data, x)
    ensures var st := NextColumn(s, b, width, prev);
      && st.x == b.x + 2 * n
      && (forall cx :: cx in st.columns <==> b.x <= cx < b.x + 2 * n)
      && (forall cx :: cx in st.columns ==> st.columns[cx] == CleanColumn(s, b, width, data, Base(b.x, cx)))
  {
    var x := b.x + 2 * (n - 1);
    var c := CleanColumn(s, b, width, data, x);
    assert NextColumn(s, b, width, prev).columns == prev.columns[x := c][x + 1 := c];
    SweepPush(s, b, width, data, n, prev.columns, NextColumn(s, b, width, prev).columns);
  }

  /** ColumnEntries on the columns map alone. */
  lemma SweepPush(s: Sampler, b: Bounds, width: int, data: seq<Byte>, n: nat, cols: Columns, cols': Columns)
    requires n > 0
    requires forall cx :: cx in cols <==> b.x <= cx < b.x + 2 * (n - 1)
    requires forall cx :: cx in cols ==> cols[cx] == CleanColumn(s, b, width, data, Base(b.x, cx))
    requires var x := b.x + 2 * (n - 1); var c := CleanColumn(s, b, width, data, x);
      cols' == cols[x := c][x + 1 := c]
    ensures forall cx :: cx in cols' <==> b.x <= cx < b.x + 2 * n
    ensures forall cx :: cx in cols' ==> cols'[cx] == CleanColumn(s, b, width, data, Base(b.x, cx))
  {
    var x := b.x + 2 * (n - 1);
    assert (x - b.x) % 2 == 0;
    forall cx | cx in cols'
      ensures cols'[cx] == CleanColumn(s, b, width, data, Base(b.x, cx))
    {
      BaseFacts(b.x, cx, x, n);
    }
  }

  /**
   * The mask after column n - 1, the colours of SweepPainted, from the colours
   * before it and what that column painted over them.
   */
  lemma ColumnColours(s: Sampler, b: Bounds, width: int, data: seq<Byte>, n: nat, prev: seq<Byte>, after: seq<Byte>)
    requires n > 0 && |prev| == |data| && SweepColoured(s, b, width, data, n - 1, prev)
    requires var x := b.x + 2 * (n - 1);
      && (forall y :: Visible(prev, width, x, y) == Visible(data, width, x, y))
      && ColumnColoured(s, b, width, x, prev, RowCount(b), after)
    ensures SweepColoured(s, b, width, data, n, after)
  {
    var x := b.x + 2 * (n - 1);
    assert (x - b.x) % 2 == 0;
    forall px, py | 0 <= px < width && InBuffer(data, width, px, py)
      ensures ColorAt(after, width, px, py) ==
        if b.x <= px < b.x + 2 * n && b.y <= py < b.y + 2 * RowCount(b)
           && Visible(data, width, Base(b.x, px), Base(b.y, py))
        then SamplePoint(s, Base(b.x, px), Base(b.y, py)).1
        else ColorAt(data, width, px, py)
    {
      BaseFacts(b.x, px, x, n);
      BaseFacts(b.x, px, x, n - 1);
      assert InBuffer(prev, width, px, py);
    }
  }

  /** A sweep that only visits columns left of xMax never goes past the last sampled column. */
  lemma CountBound(b: Bounds, done: nat, p: nat)
    requires done <= ColumnCount(b)
    requires p == 0 || b.x + 2 * (done + p - 1) < b.xMax
    ensures done + p <= ColumnCount(b)
  {
  }

  /**
   * Resuming a sweep that had done `done` columns and doing p more, each left
   * of xMax, leaves x on a sampled column within the sweep, and the state is
   * that of done + p columns from the start.
   */
  lemma Resume(s: Sampler, b: Bounds, width: int, data: seq<Byte>, done: nat, p: nat, x: int, st: Sweep)
    requires done <= ColumnCount(b)
    requires p == 0 || b.x + 2 * (done + p - 1) < b.xMax
    requires x == b.x + 2 * (done + p)
    requires st == SweepColumns(s, b, width, SweepColumns(s, b, width, Start(b, data), done), p)
    ensures b.x <= x && (x - b.x) % 2 == 0 && (x - b.x) / 2 == done + p <= ColumnCount(b)
    ensures st == SweepColumns(s, b, width, Start(b, data), (x - b.x) / 2)
  {
    SweepCompose(s, b, width, Start(b, data), done, p);
    CountBound(b, done, p);
    assert (x - b.x) / 2 == done + p;
  }

  /** A sampled column at or past xMax is the end of the sweep. */
  lemma Finished(b: Bounds, x: int)
    requires b.x <= x && (x - b.x) % 2 == 0 && (x - b.x) / 2 <= ColumnCount(b) && x >= b.xMax
    ensures (x - b.x) / 2 == ColumnCount(b)
  {
  }

  /** Batches compose: m columns and then n more are m + n columns. */
  lemma {:induction false} SweepCompose(s: Sampler, b: Bounds, width: int, st: Sweep, m: nat, n: nat)
    ensures SweepColumns(s, b, width, SweepColumns(s, b, width, st, m), n) == SweepColumns(s, b, width, st, m + n)
  {
    if n > 0 {
      SweepCompose(s, b, width, st, m, n - 1);
    }
  }

  // ---------------------------------------------------------------------------
  // The imperative sweep

  /**
   * The end of one batchInterpolate call: it yielded after the time budget ran
   * out, reporting the fraction of columns done, or it resolved the field with
   * the columns it has.
   */
  datatype BatchResult = Yielded(progress: real) | Resolved(columns: Columns)

  /** The state interpolateField keeps across batches: the columns table and the next x. */
  class Interpolator {
    const mask: Mask
    const bounds: Bounds
    const sampler: Sampler
    /** The mask as it was when the sweep began. */
    ghost const initial: seq<Byte>
    var columns: Columns
    var x: int

    ghost function State(): Sweep
      reads this, mask.data
    {
      Sweep(mask.data[..], columns, x)
    }

    /**
     * x is a sampled column no further right than the end of the sweep, and the
     * state is what that many columns of the sweep produce from the start.
     */
    ghost predicate Valid()
      reads this, mask, mask.data
    {
      && mask.Valid()
      && bounds.x <= x && (x - bounds.x) % 2 == 0 && (x - bounds.x) / 2 <= ColumnCount(bounds)
      && State() == SweepColumns(sampler, bounds, mask.width, Start(bounds, initial), (x - bounds.x) / 2)
    }

    constructor (mask: Mask, bounds: Bounds, sampler: Sampler)
      requires mask.Valid()
      ensures Valid()
      ensures this.mask == mask && this.bounds == bounds && this.sampler == sampler
      ensures initial == mask.data[..] && columns == map[] && x == bounds.x
    {
      this.mask := mask;
      this.bounds := bounds;
      this.sampler := sampler;
      initial := mask.data[..];
      columns := map[];
      x := bounds.x;
    }

    /**
     * interpolateColumn(x): sweep the sampled rows of column x, then store the
     * column as both columns[x] and columns[x + 1].
     */
    method InterpolateColumn(x: int)
      modifies this`columns, mask.data
      ensures var cs := ColumnRows(sampler, bounds, mask.width, x, old(mask.data[..]), RowCount(bounds));
        mask.data[..] == cs.data && columns == old(columns)[x := cs.column][x + 1 := cs.column]
    {
      var column: Column := map[];
      var y := bounds.y;
      ghost var k: nat := 0;
      while y <= bounds.yMax
        invariant y == bounds.y + 2 * k && k <= RowCount(bounds)
        invariant columns == old(columns)
        invariant ColumnState(mask.data[..], column) ==
          ColumnRows(sampler, bounds, mask.width, x, old(mask.data[..]), k)
        decreases bounds.yMax - y
      {
        column := VisitRow(x, y, column);
        y := y + 2;
        k := k + 1;
      }
      assert k == RowCount(bounds);
      columns := columns[x := column][x + 1 := column];
    }

    /** One turn of interpolateColumn's loop: sample and paint (x, y) if the mask shows it. */
    method VisitRow(x: int, y: int, column: Column) returns (column': Column)
      modifies mask.data
      ensures ColumnState(mask.data[..], column') ==
        RowStep(sampler, mask.width, x, y, ColumnState(old(mask.data[..]), column))
    {
      column' := column;
      if mask.IsVisible(x, y) {
        var sc := SamplePoint(sampler, x, y);
        column' := column[y := sc.0][y + 1 := sc.0];
        SetBlock(x, y, sc.1);
      }
    }

    /** mask.set(x, y, c).set(x+1, y, c).set(x, y+1, c).set(x+1, y+1, c). */
    method SetBlock(x: int, y: int, c: Rgba)
      modifies mask.data
      ensures mask.data[..] == PaintBlock(old(mask.data[..]), mask.width, x, y, c)
    {
      mask.Set(x, y, c);
      mask.Set(x + 1, y, c);
      mask.Set(x, y + 1, c);
      mask.Set(x + 1, y + 1, c);
    }

    /** One turn of batchInterpolate's loop: interpolateColumn(x), then x += 2. */
    method NextColumnStep()
      modifies this`columns, this`x, mask.data
      ensures State() == NextColumn(sampler, bounds, mask.width, old(State()))
    {
      InterpolateColumn(x);
      x := x + 2;
    }

    /**
     * batchInterpolate's loop: interpolate columns from x while x < xMax,
     * stopping early as soon as the clock reports the batch over budget.
     * overBudget(k) is that report after k columns of this batch.
     */
    method SweepUntilBudget(overBudget: nat -> bool) returns (yielded: bool, processed: nat)
      requires Valid()
      modifies this, mask.data
      ensures Valid()
      ensures State() == SweepColumns(sampler, bounds, mask.width, old(State()), processed)
      ensures forall k :: 0 <= k < processed ==> old(x) + 2 * k < bounds.xMax
      ensures forall k :: 1 <= k < processed ==> !overBudget(k)
      ensures yielded <==> processed >= 1 && overBudget(processed)
      ensures yielded ==> old(x) < bounds.xMax
      ensures !yielded ==> x >= bounds.xMax
    {
      ghost var before := State();
      ghost var done := (x - bounds.x) / 2;
      assert x == bounds.x + 2 * done;
      processed := 0;
      while x < bounds.xMax
        invariant x == old(x) + 2 * processed
        invariant State() == SweepColumns(sampler, bounds, mask.width, before, processed)
        invariant forall k :: 0 <= k < processed ==> old(x) + 2 * k < bounds.xMax
        invariant forall k :: 1 <= k <= processed ==> !overBudget(k)
        decreases bounds.xMax - x
      {
        NextColumnStep();
        processed := processed + 1;
        if overBudget(processed) {
          Resume(sampler, bounds, mask.width, initial, done, processed, x, State());
          return true, processed;
        }
      }
      assert processed == 0 || old(x) + 2 * (processed - 1) < bounds.xMax;
      Resume(sampler, bounds, mask.width, initial, done, processed, x, State());
      yielded := false;
    }

    /**
     * batchInterpolate: unless cancellation is requested, sweep columns until
     * the end of the bounds or until the batch runs over budget, in which case
     * it yields and reports the fraction of columns done. A cancelled batch,
     * like a finished one, resolves with the columns it has.
     */
    method BatchInterpolate(cancelRequested: bool, overBudget: nat -> bool) returns (result: BatchResult, processed: nat)
      requires Valid()
      modifies this, mask.data
      ensures Valid()
      ensures State() == SweepColumns(sampler, bounds, mask.width, old(State()), processed)
      ensures cancelRequested ==> processed == 0 && result == Resolved(old(columns))
      ensures forall k :: 0 <= k < processed ==> old(x) + 2 * k < bounds.xMax
      ensures forall k :: 1 <= k < processed ==> !overBudget(k)
      ensures result.Yielded? <==> !cancelRequested && processed >= 1 && overBudget(processed)
      ensures result.Yielded? ==> bounds.x < bounds.xMax
      ensures result.Yielded? ==> result.progress == (x - bounds.x) as real / (bounds.xMax - bounds.x) as real
      ensures result.Resolved? ==> result.columns == columns && (cancelRequested || x >= bounds.xMax)
      ensures result.Resolved? && !cancelRequested ==>
        columns == SweepColumns(sampler, bounds, mask.width, Start(bounds, initial), ColumnCount(bounds)).columns
    {
      if cancelRequested {
        return Resolved(columns), 0;
      }
      var yielded;
      yielded, processed := SweepUntilBudget(overBudget);
      if yielded {
        result := Yielded((x - bounds.x) as real / (bounds.xMax - bounds.x) as real);
      } else {
        Finished(bounds, x);
        result := Resolved(columns);
      }
    }
  }
}
