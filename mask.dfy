/**
 * The visibility mask: a flat RGBA byte buffer, one pixel per screen pixel,
 * laid out row by row ([r, g, b, a, r, g, b, a, ...]). The buffer behaves as a
 * typed array: a read outside it yields `undefined` and a write outside it is
 * dropped.
 */
module Masks {

  type Byte = b: int | 0 <= b < 256

  datatype Rgba = Rgba(r: Byte, g: Byte, b: Byte, a: Byte) {
    /** Channel k of the colour, in buffer order. */
    function Channel(k: int): Byte
      requires 0 <= k < 4
    {
      if k == 0 then r else if k == 1 then g else if k == 2 then b else a
    }
  }

  /** TRANSPARENT_BLACK: the colour of a pixel that has no overlay value. */
  const TransparentBlack := Rgba(0, 0, 0, 0)

  /** Byte offset of pixel (x, y) in a buffer `width` pixels wide. */
  function Offset(width: int, x: int, y: int): int
  {
    (y * width + x) * 4
  }

  /** The four bytes of pixel (x, y) all lie inside the buffer. */
  predicate InBuffer(data: seq<Byte>, width: int, x: int, y: int)
  {
    0 <= Offset(width, x, y) && Offset(width, x, y) + 3 < |data|
  }

  /**
   * isVisible: a pixel is visible iff its alpha byte is non-zero. A read past
   * either end is `undefined`, and `undefined > 0` is false.
   */
  predicate Visible(data: seq<Byte>, width: int, x: int, y: int)
  {
    var i := Offset(width, x, y);
    0 <= i + 3 < |data| && data[i + 3] > 0
  }

  /** The colour stored at an in-buffer pixel. */
  function ColorAt(data: seq<Byte>, width: int, x: int, y: int): Rgba
    requires InBuffer(data, width, x, y)
  {
    var i := Offset(width, x, y);
    Rgba(data[i], data[i + 1], data[i + 2], data[i + 3])
  }

  /** One typed-array store; an index outside the buffer changes nothing. */
  function Store(data: seq<Byte>, i: int, v: Byte): (r: seq<Byte>)
    ensures |r| == |data|
    ensures forall j :: 0 <= j < |data| ==> r[j] == if j == i then v else data[j]
  {
    if 0 <= i < |data| then data[i := v] else data
  }

  /** Visibility is a non-zero alpha of an in-buffer pixel. */
  lemma VisibleIsAlpha(data: seq<Byte>, width: int, x: int, y: int)
    ensures Visible(data, width, x, y) <==> InBuffer(data, width, x, y) && ColorAt(data, width, x, y).a > 0
  {
  }

  /**
   * set(x, y, rgba): the four bytes at Offset(width, x, y) take the four
   * channels, and every other byte keeps its value.
   */
  function SetPixel(data: seq<Byte>, width: int, x: int, y: int, c: Rgba): (r: seq<Byte>)
    ensures |r| == |data|
    ensures forall j :: 0 <= j < |data| ==>
      r[j] == if Offset(width, x, y) <= j < Offset(width, x, y) + 4
              then c.Channel(j - Offset(width, x, y)) else data[j]
  {
    var i := Offset(width, x, y);
    Store(Store(Store(Store(data, i, c.r), i + 1, c.g), i + 2, c.b), i + 3, c.a)
  }

  /** Distinct pixel coordinates with columns inside the row map to distinct pixel numbers. */
  lemma PixelNumberInjective(width: int, x: int, y: int, x': int, y': int)
    requires 0 <= x < width && 0 <= x' < width
    requires y * width + x == y' * width + x'
    ensures x == x' && y == y'
  {
    if y < y' {
      RowsApart(y, y', width);
    } else if y' < y {
      RowsApart(y', y, width);
    }
  }

  /** A later row starts at least one whole row further on. */
  lemma RowsApart(y: int, y': int, width: int)
    requires y < y' && width >= 0
    ensures y' * width >= y * width + width
  {
    assert y' * width == (y' - y - 1) * width + y * width + width;
    assert (y' - y - 1) * width >= 0;
  }

  /**
   * Round trip of set and isVisible: a pixel written inside the buffer reads
   * back as visible exactly when the written alpha is non-zero.
   */
  lemma SetThenVisible(data: seq<Byte>, width: int, x: int, y: int, c: Rgba)
    requires InBuffer(data, width, x, y)
    ensures Visible(SetPixel(data, width, x, y, c), width, x, y) <==> c.a > 0
    ensures ColorAt(SetPixel(data, width, x, y, c), width, x, y) == c
  {
  }

  /** A write outside the buffer (for example below the last row) changes nothing. */
  lemma SetOutsideBuffer(data: seq<Byte>, width: int, x: int, y: int, c: Rgba)
    requires |data| % 4 == 0 && !InBuffer(data, width, x, y)
    ensures SetPixel(data, width, x, y, c) == data
  {
    var r := SetPixel(data, width, x, y, c);
    assert |data| == 4 * (|data| / 4);
    assert Offset(width, x, y) == 4 * (y * width + x);
    forall j | 0 <= j < |data| ensures r[j] == data[j] {
    }
  }

  /**
   * Writing pixel (x, y) leaves every other pixel of the buffer as it was,
   * provided both columns lie inside a row (so no write wraps into the next row).
   */
  lemma SetPixelElsewhere(data: seq<Byte>, width: int, x: int, y: int, c: Rgba, px: int, py: int)
    requires 0 <= x < width && 0 <= px < width && (px != x || py != y)
    ensures Visible(SetPixel(data, width, x, y, c), width, px, py) == Visible(data, width, px, py)
    ensures InBuffer(data, width, px, py) ==>
      ColorAt(SetPixel(data, width, x, y, c), width, px, py) == ColorAt(data, width, px, py)
  {
    if py * width + px == y * width + x {
      PixelNumberInjective(width, px, py, x, y);
    }
    var i, j := Offset(width, x, y), Offset(width, px, py);
    assert j + 4 <= i || i + 4 <= j;
  }

  /** The mask built once per projection; the interpolator paints the overlay colours into it. */
  class Mask {
    const width: nat
    const height: nat
    const data: array<Byte>

    ghost predicate Valid()
      reads this
    {
      data.Length == width * height * 4
    }

    /** The pixels come from the globe drawing its silhouette, which is not part of this model. */
    constructor (width: nat, height: nat, image: seq<Byte>)
      requires |image| == width * height * 4
      ensures Valid() && fresh(data)
      ensures this.width == width && this.height == height && data[..] == image
    {
      this.width := width;
      this.height := height;
      data := new Byte[|image|](i requires 0 <= i < |image| => image[i]);
    }

    /** isVisible(x, y). */
    predicate IsVisible(x: int, y: int): (b: bool)
      reads this, data
      ensures b <==> 0 <= (y * width + x) * 4 && (y * width + x) * 4 + 3 < data.Length
                     && data[(y * width + x) * 4 + 3] != 0
    {
      Visible(data[..], width, x, y)
    }

    /** set(x, y, rgba), in place. */
    method Set(x: int, y: int, rgba: Rgba)
      modifies data
      ensures data[..] == SetPixel(old(data[..]), width, x, y, rgba)
    {
      var i := (y * width + x) * 4;
      if 0 <= i < data.Length { data[i] := rgba.r; }
      if 0 <= i + 1 < data.Length { data[i + 1] := rgba.g; }
      if 0 <= i + 2 < data.Length { data[i + 2] := rgba.b; }
      if 0 <= i + 3 < data.Length { data[i + 3] := rgba.a; }
    }
  }
}
