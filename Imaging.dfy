/**
 * The image primitives the text detector relies on: pixels and rasters, Java's
 * double-to-int cast, `BufferedImage.getSubimage`, and the in-place `Mat`
 * operations (`setTo`, `setTo` with a mask, `fillPoly`, `line`) as loops over
 * a two-dimensional array.
 */
module Imaging {
  import opened Values

  /** A three-channel 8-bit pixel. */
  datatype Pixel = Pixel(c0: int, c1: int, c2: int)

  const Black := Pixel(0, 0, 0)

  /** Single-channel mask levels: OpenCV's white and black on an 8-bit mask. */
  const MaskWhite := 255
  const MaskBlack := 0

  type Raster = g: Grid<Pixel> | g.Valid() witness Grid(0, [])

  /** Java's `(int)` cast of a double. */
  function Trunc(x: real): int {
    if 0.0 <= x then x.Floor else -((-x).Floor)
  }

  /** The cast rounds toward zero: down for a non-negative value, up for a negative one. */
  lemma TruncTowardZero(x: real)
    ensures 0.0 <= x ==> Trunc(x) as real <= x < Trunc(x) as real + 1.0
    ensures x < 0.0 ==> Trunc(x) as real - 1.0 < x <= Trunc(x) as real
  {
  }

  /** The `w` by `h` area of `img` whose top-left corner is column `x`, row `y`.
      `getSubimage` throws unless the area is non-empty and lies inside the image. */
  function Subimage(img: Raster, x: int, y: int, w: int, h: int): (r: Option<Raster>)
    ensures r.Some? <==> 0 <= x && 0 <= y && 0 < w && 0 < h && x + w <= img.cols && y + h <= img.Rows()
    ensures r.Some? ==> r.value.cols == w && r.value.Rows() == h
    ensures r.Some? ==> forall i, j :: 0 <= i < h && 0 <= j < w ==> r.value.cells[i][j] == img.cells[y + i][x + j]
  {
    if 0 <= x && 0 <= y && 0 < w && 0 < h && x + w <= img.cols && y + h <= img.Rows() then
      Some(Grid(w, seq(h, i requires 0 <= i < h => img.cells[y + i][x .. x + w])))
    else
      None
  }

  /** `bufferedImageToMat`: a fresh array holding the raster's pixels. */
  method ToMat(img: Raster) returns (a: array2<Pixel>)
    ensures fresh(a)
    ensures a.Length0 == img.Rows() && a.Length1 == img.cols
    ensures forall i, j :: 0 <= i < a.Length0 && 0 <= j < a.Length1 ==> a[i, j] == img.cells[i][j]
  {
    a := new Pixel[img.Rows(), img.cols]((i, j) requires 0 <= i < img.Rows() && 0 <= j < img.cols => img.cells[i][j]);
  }

  /** `matToBufferedImage`: the raster the array currently holds. */
  method FromMat(a: array2<Pixel>) returns (img: Raster)
    ensures img.Rows() == a.Length0 && img.cols == a.Length1
    ensures forall i, j :: 0 <= i < a.Length0 && 0 <= j < a.Length1 ==> img.cells[i][j] == a[i, j]
  {
    var cells := seq(a.Length0, i requires 0 <= i < a.Length0 reads a =>
      seq(a.Length1, j requires 0 <= j < a.Length1 reads a => a[i, j]));
    img := Grid(a.Length1, cells);
  }

  /** Sets every element at which `p` holds to `v` and leaves the others alone.
      `setTo(v)` is `p` always true; `fillPoly` and `line` are `p` = "covered by the shape". */
  method PaintWhere<T(==)>(a: array2<T>, p: (int, int) -> bool, v: T)
    modifies a
    ensures forall i, j :: 0 <= i < a.Length0 && 0 <= j < a.Length1 ==>
      a[i, j] == (if p(i, j) then v else old(a[i, j]))
  {
    var i := 0;
    while i < a.Length0
      invariant 0 <= i <= a.Length0
      invariant forall r, c :: 0 <= r < i && 0 <= c < a.Length1 ==> a[r, c] == (if p(r, c) then v else old(a[r, c]))
      invariant forall r, c :: i <= r < a.Length0 && 0 <= c < a.Length1 ==> a[r, c] == old(a[r, c])
    {
      var j := 0;
      while j < a.Length1
        invariant 0 <= j <= a.Length1
        invariant forall r, c :: 0 <= r < i && 0 <= c < a.Length1 ==> a[r, c] == (if p(r, c) then v else old(a[r, c]))
        invariant forall c :: 0 <= c < j ==> a[i, c] == (if p(i, c) then v else old(a[i, c]))
        invariant forall r, c :: i <= r < a.Length0 && 0 <= c < a.Length1 && (i < r || j <= c) ==> a[r, c] == old(a[r, c])
      {
        if p(i, j) {
          a[i, j] := v;
        }
        j := j + 1;
      }
      i := i + 1;
    }
  }

  /** `frame.setTo(v, mask)`: every pixel whose mask element is non-zero becomes `v`. */
  method SetToMasked(frame: array2<Pixel>, v: Pixel, mask: array2<int>)
    requires mask.Length0 == frame.Length0 && mask.Length1 == frame.Length1
    modifies frame
    ensures forall i, j :: 0 <= i < frame.Length0 && 0 <= j < frame.Length1 ==>
      frame[i, j] == (if mask[i, j] != 0 then v else old(frame[i, j]))
  {
    var i := 0;
    while i < frame.Length0
      invariant 0 <= i <= frame.Length0
      invariant forall r, c :: 0 <= r < i && 0 <= c < frame.Length1 ==> frame[r, c] == (if mask[r, c] != 0 then v else old(frame[r, c]))
      invariant forall r, c :: i <= r < frame.Length0 && 0 <= c < frame.Length1 ==> frame[r, c] == old(frame[r, c])
    {
      var j := 0;
      while j < frame.Length1
        invariant 0 <= j <= frame.Length1
        invariant forall r, c :: 0 <= r < i && 0 <= c < frame.Length1 ==> frame[r, c] == (if mask[r, c] != 0 then v else old(frame[r, c]))
        invariant forall c :: 0 <= c < j ==> frame[i, c] == (if mask[i, c] != 0 then v else old(frame[i, c]))
        invariant forall r, c :: i <= r < frame.Length0 && 0 <= c < frame.Length1 && (i < r || j <= c) ==> frame[r, c] == old(frame[r, c])
      {
        if mask[i, j] != 0 {
          frame[i, j] := v;
        }
        j := j + 1;
      }
      i := i + 1;
    }
  }
}
