/**
 * The interpolated vector field (createField): a sparse table of columns, each
 * a sparse table of samples, looked up with rounding. Two sentinels stand for
 * "no vector": Null (outside the field's outer boundary) and Hole (inside the
 * boundary, but the grid has no value there). Both are the triple
 * [NaN, NaN, null] in the source and are told apart only by identity; here
 * they are distinct constructors.
 */
module Fields {

  /** A wind vector [u, v, magnitude] or one of the two sentinels. */
  datatype Vector = Defined(u: real, v: real, m: real) | Hole | Null

  /** What the interpolator stores in a column: a vector or a hole, never Null. */
  type Sample = v: Vector | !v.Null? witness Hole

  type Column = map<int, Sample>
  type Columns = map<int, Column>

  /** A screen pixel. */
  datatype Point = Point(x: int, y: int)

  /** The screen rectangle that the globe occupies; xMax and yMax are inclusive. */
  datatype Bounds = Bounds(x: int, y: int, xMax: int, yMax: int)

  /** Number of draws randomize makes beyond the first before it gives up. */
  const SafetyNet := 30

  /** Math.round: the nearest integer, halves rounded up. */
  function Round(x: real): (r: int)
    ensures r as real <= x + 0.5 < r as real + 1.0
  {
    (x + 0.5).Floor
  }

  /**
   * field(x, y): the sample at the rounded coordinates, or the Null sentinel
   * when the column or the entry is absent.
   */
  function Lookup(columns: Columns, x: real, y: real): (r: Vector)
    ensures r.Null? <==> !(Round(x) in columns && Round(y) in columns[Round(x)])
    ensures !r.Null? ==> r == columns[Round(x)][Round(y)]
  {
    var cx := Round(x);
    if cx in columns && Round(y) in columns[cx] then columns[cx][Round(y)] else Null
  }

  /** field.isDefined: the magnitude is not null, which rules out both sentinels. */
  predicate IsDefined(columns: Columns, x: real, y: real): (b: bool)
    ensures b <==> Round(x) in columns && Round(y) in columns[Round(x)] && columns[Round(x)][Round(y)].Defined?
  {
    Lookup(columns, x, y).Defined?
  }

  /** field.isInsideBoundary: the lookup is not the Null sentinel (a Hole is inside). */
  predicate IsInsideBoundary(columns: Columns, x: real, y: real): (b: bool)
    ensures b <==> Round(x) in columns && Round(y) in columns[Round(x)]
  {
    !Lookup(columns, x, y).Null?
  }

  /** isDefined is false for both sentinels; isInsideBoundary is false only for Null. */
  lemma Sentinels(columns: Columns, x: real, y: real)
    ensures IsDefined(columns, x, y) ==> IsInsideBoundary(columns, x, y)
    ensures Lookup(columns, x, y) == Hole <==> IsInsideBoundary(columns, x, y) && !IsDefined(columns, x, y)
    ensures !IsInsideBoundary(columns, x, y) <==> Lookup(columns, x, y) == Null
  {
  }

  /** Every point of a pixel's square (half-open towards +infinity) reads that pixel's sample. */
  lemma LookupByPixel(columns: Columns, x: real, y: real, px: int, py: int)
    requires px as real - 0.5 <= x < px as real + 0.5
    requires py as real - 0.5 <= y < py as real + 0.5
    ensures Lookup(columns, x, y) == Lookup(columns, px as real, py as real)
  {
    assert Round(x) == px == Round(px as real);
    assert Round(y) == py == Round(py as real);
  }

  /** The pixel of draw k, as real coordinates. */
  function At(draw: nat -> Point, k: nat): (real, real)
  {
    (draw(k).x as real, draw(k).y as real)
  }

  /**
   * The index of the draw that randomize keeps, searching from draw k: the first
   * defined draw among draws k..SafetyNet, or draw SafetyNet when none is.
   */
  function Accepted(columns: Columns, draw: nat -> Point, k: nat): (r: nat)
    requires k <= SafetyNet
    decreases SafetyNet - k
    ensures k <= r <= SafetyNet
    ensures forall j :: k <= j < r ==> !IsDefined(columns, At(draw, j).0, At(draw, j).1)
    ensures r < SafetyNet ==> IsDefined(columns, At(draw, r).0, At(draw, r).1)
  {
    if k == SafetyNet || IsDefined(columns, At(draw, k).0, At(draw, k).1) then k
    else Accepted(columns, draw, k + 1)
  }

  /** The position randomize gives a particle. */
  function Randomized(columns: Columns, draw: nat -> Point): Point
  {
    draw(Accepted(columns, draw, 0))
  }

  /**
   * Rejection sampling keeps the first defined draw; and it stays inside the
   * bounds whenever the random source does.
   */
  lemma RandomizedIsFirstDefined(columns: Columns, b: Bounds, draw: nat -> Point)
    requires forall j :: 0 <= j <= SafetyNet ==>
      b.x <= draw(j).x <= b.xMax && b.y <= draw(j).y <= b.yMax
    ensures var p := Randomized(columns, draw);
      && b.x <= p.x <= b.xMax && b.y <= p.y <= b.yMax
      && (IsDefined(columns, p.x as real, p.y as real) ||
          forall j :: 0 <= j < SafetyNet ==> !IsDefined(columns, At(draw, j).0, At(draw, j).1))
  {
    var k := Accepted(columns, draw, 0);
    assert 0 <= k <= SafetyNet;
  }

  /** The field object that createField returns. */
  class Field {
    var columns: Columns
    const bounds: Bounds

    constructor (columns: Columns, bounds: Bounds)
      ensures this.columns == columns && this.bounds == bounds
    {
      this.columns := columns;
      this.bounds := bounds;
    }

    /** field(x, y). */
    function Sample(x: real, y: real): (r: Vector)
      reads this
      ensures r.Null? <==> !(Round(x) in columns && Round(y) in columns[Round(x)])
      ensures !r.Null? ==> r == columns[Round(x)][Round(y)]
    {
      Lookup(columns, x, y)
    }

    /**
     * release: drops the columns, after which every lookup yields the Null
     * sentinel.
     */
    method Release()
      modifies this
      ensures columns == map[]
      ensures forall x: real, y: real :: Sample(x, y) == Null
    {
      columns := map[];
    }

    /**
     * randomize: draw pixels until one is defined or SafetyNet further draws
     * have failed. `draw(k)` is the pair of _.random results of attempt k.
     */
    method Randomize(draw: nat -> Point) returns (p: Point, attempt: nat)
      ensures attempt == Accepted(columns, draw, 0) && p == draw(attempt) && p == Randomized(columns, draw)
      ensures attempt <= SafetyNet
      ensures IsDefined(columns, p.x as real, p.y as real) || attempt == SafetyNet
    {
      attempt := 0;
      p := draw(0);
      while !IsDefined(columns, p.x as real, p.y as real) && attempt < SafetyNet
        invariant attempt <= SafetyNet && p == draw(attempt)
        invariant Accepted(columns, draw, attempt) == Accepted(columns, draw, 0)
        decreases SafetyNet - attempt
      {
        attempt := attempt + 1;
        p := draw(attempt);
      }
    }
  }
}
