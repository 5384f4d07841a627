/**
 * The EAST text detector processor: decoding of the network's score and
 * geometry grids into oriented boxes, the per-image dispatch over the four
 * output modes, and the batch loop over an item's images.
 */
module TextDetection {
  import opened Values
  import opened Imaging

  /** A single-channel matrix of network output. */
  type Mat = g: Grid<real> | g.Valid() witness Grid(0, [])

  datatype Point = Point(x: real, y: real)

  /** An oriented rectangle: centre, size and angle in degrees. */
  datatype RotatedRect = RotatedRect(center: Point, width: real, height: real, angle: real)

  /** The four vertices of a rotated rectangle, in drawing order. */
  datatype Quad = Quad(p0: Point, p1: Point, p2: Point, p3: Point) {
    function Vertex(j: int): Point
      requires 0 <= j < 4
    {
      if j == 0 then p0 else if j == 1 then p1 else if j == 2 then p2 else p3
    }
  }

  /** An axis-aligned integer rectangle. */
  datatype Rect = Rect(x: int, y: int, width: int, height: int)

  datatype OutputMode = Extract | Mask | Box | InverseMask

  datatype Settings = Settings(
    discardOriginal: bool,
    scoreThreshold: real,
    nmsThreshold: real,
    size: int,
    outputMode: OutputMode,
    padding: int)

  /** The double closest to pi, as `Math.PI`. */
  const MathPi: real := 3.141592653589793

  /** `Math.cos` and `Math.sin`, which the model takes as given. */
  datatype Trig = Trig(cos: real -> real, sin: real -> real)

  /** The position of a score cell: column `x`, row `y`. */
  datatype Cell = Cell(x: nat, y: nat)

  // ---------------------------------------------------------------- decode

  /** The height of each of the geometry matrix's five channel blocks. */
  function Height(geometry: Mat): nat {
    geometry.Rows() / 5
  }

  predicate InGrid(geometry: Mat, c: Cell) {
    c.y < Height(geometry) && c.x < geometry.cols
  }

  /** `decode` reads row `y` of the score matrix for every `y` below the geometry
      height, and column `x` of it for every `x` below the geometry width. */
  predicate Decodable(scores: Mat, geometry: Mat) {
    Height(geometry) <= scores.Rows() && (0 < Height(geometry) ==> geometry.cols <= scores.cols)
  }

  function Score(scores: Mat, c: Cell): real
    requires c.y < scores.Rows() && c.x < scores.cols
  {
    scores.cells[c.y][c.x]
  }

  /** Channel `k` of the geometry at cell `c`: rows `k*height .. (k+1)*height` of the
      geometry matrix hold channel `k` (0 to 3: the four edge distances, 4: the angle). */
  function Channel(geometry: Mat, k: nat, c: Cell): real
    requires k < 5 && InGrid(geometry, c)
  {
    var h := Height(geometry);
    var base := if k == 0 then 0 else if k == 1 then h else if k == 2 then 2 * h else if k == 3 then 3 * h else 4 * h;
    geometry.cells[base + c.y][c.x]
  }

  /** The oriented box that cell `c` encodes. */
  function CellBox(geometry: Mat, trig: Trig, c: Cell): RotatedRect
    requires InGrid(geometry, c)
  {
    var x0, x1, x2, x3 := Channel(geometry, 0, c), Channel(geometry, 1, c), Channel(geometry, 2, c), Channel(geometry, 3, c);
    var angle := Channel(geometry, 4, c);
    var cosA, sinA := trig.cos(angle), trig.sin(angle);
    var h, w := x0 + x2, x1 + x3;
    var offset := Point(c.x as real * 4.0 + cosA * x1 + sinA * x2, c.y as real * 4.0 - sinA * x1 + cosA * x2);
    var p1 := Point(-1.0 * sinA * h + offset.x, -1.0 * cosA * h + offset.y);
    var p3 := Point(-1.0 * cosA * w + offset.x, sinA * w + offset.y);
    RotatedRect(Point(0.5 * (p1.x + p3.x), 0.5 * (p1.y + p3.y)), w, h, -1.0 * angle * 180.0 / MathPi)
  }

  /** A cell's box is as wide as the sum of its second and fourth edge distances, as
      high as the sum of its first and third, and turned by minus its angle in degrees. */
  lemma CellBoxSize(geometry: Mat, trig: Trig, c: Cell)
    requires InGrid(geometry, c)
    ensures CellBox(geometry, trig, c).width == Channel(geometry, 1, c) + Channel(geometry, 3, c)
    ensures CellBox(geometry, trig, c).height == Channel(geometry, 0, c) + Channel(geometry, 2, c)
    ensures CellBox(geometry, trig, c).angle == -1.0 * Channel(geometry, 4, c) * 180.0 / MathPi
  {
  }

  /** The cells of row `y` among its first `n` whose score reaches the threshold, left to right. */
  function RowCells(scores: Mat, threshold: real, y: nat, n: nat): seq<Cell>
    requires y < scores.Rows() && n <= scores.cols
  {
    if n == 0 then []
    else RowCells(scores, threshold, y, n - 1) + (if scores.cells[y][n - 1] >= threshold then [Cell(n - 1, y)] else [])
  }

  /** The cells of the first `m` rows (each `width` wide) whose score reaches the threshold,
      in row-major order. */
  function GridCells(scores: Mat, threshold: real, m: nat, width: nat): seq<Cell>
    requires m <= scores.Rows() && (0 < m ==> width <= scores.cols)
  {
    if m == 0 then []
    else GridCells(scores, threshold, m - 1, width) + RowCells(scores, threshold, m - 1, width)
  }

  /** The cells `decode` turns into detections. */
  function DetectedCells(scores: Mat, geometry: Mat, threshold: real): seq<Cell>
    requires Decodable(scores, geometry)
  {
    GridCells(scores, threshold, Height(geometry), geometry.cols)
  }

  /** Cell `a` comes before cell `b` in row-major order. */
  predicate Before(a: Cell, b: Cell) {
    a.y < b.y || (a.y == b.y && a.x < b.x)
  }

  /** The cells are strictly increasing in row-major order. */
  predicate RowMajor(s: seq<Cell>) {
    forall i, j :: 0 <= i < j < |s| ==> Before(s[i], s[j])
  }

  lemma {:induction false} RowCellsMembership(scores: Mat, threshold: real, y: nat, n: nat, c: Cell)
    requires y < scores.Rows() && n <= scores.cols
    ensures c in RowCells(scores, threshold, y, n) <==> c.y == y && c.x < n && scores.cells[y][c.x] >= threshold
  {
    if n > 0 {
      RowCellsMembership(scores, threshold, y, n - 1, c);
    }
  }

  lemma {:induction false} RowCellsOrdered(scores: Mat, threshold: real, y: nat, n: nat)
    requires y < scores.Rows() && n <= scores.cols
    ensures RowMajor(RowCells(scores, threshold, y, n))
    ensures forall c :: c in RowCells(scores, threshold, y, n) ==> c.y == y && c.x < n
  {
    if n > 0 {
      RowCellsOrdered(scores, threshold, y, n - 1);
      var a := RowCells(scores, threshold, y, n - 1);
      var b: seq<Cell> := if scores.cells[y][n - 1] >= threshold then [Cell(n - 1, y)] else [];
      forall i, j | 0 <= i < j < |a + b|
        ensures Before((a + b)[i], (a + b)[j])
      {
        if j >= |a| {
          assert a[i] in a && (a + b)[i] == a[i];
          assert (a + b)[j] == b[j - |a|] == Cell(n - 1, y);
        } else {
          assert (a + b)[i] == a[i] && (a + b)[j] == a[j];
        }
      }
    }
  }

  /** A cell is detected exactly when it lies in the grid and its score reaches the threshold. */
  lemma {:induction false} GridCellsMembership(scores: Mat, threshold: real, m: nat, width: nat, c: Cell)
    requires m <= scores.Rows() && (0 < m ==> width <= scores.cols)
    ensures c in GridCells(scores, threshold, m, width) <==> c.y < m && c.x < width && scores.cells[c.y][c.x] >= threshold
  {
    if m > 0 {
      GridCellsMembership(scores, threshold, m - 1, width, c);
      RowCellsMembership(scores, threshold, m - 1, width, c);
    }
  }

  /** Detected cells come out in strictly increasing row-major order. */
  lemma {:induction false} GridCellsOrdered(scores: Mat, threshold: real, m: nat, width: nat)
    requires m <= scores.Rows() && (0 < m ==> width <= scores.cols)
    ensures RowMajor(GridCells(scores, threshold, m, width))
    ensures forall c :: c in GridCells(scores, threshold, m, width) ==> c.y < m
  {
    if m > 0 {
      GridCellsOrdered(scores, threshold, m - 1, width);
      RowCellsOrdered(scores, threshold, m - 1, width);
      var a := GridCells(scores, threshold, m - 1, width);
      var b := RowCells(scores, threshold, m - 1, width);
      forall i, j | 0 <= i < j < |a + b|
        ensures Before((a + b)[i], (a + b)[j])
      {
        if j < |a| {
          assert (a + b)[i] == a[i] && (a + b)[j] == a[j];
        } else if i < |a| {
          assert a[i] in a && (a + b)[i] == a[i];
          assert b[j - |a|] in b && (a + b)[j] == b[j - |a|];
        } else {
          assert (a + b)[i] == b[i - |a|] && (a + b)[j] == b[j - |a|];
          assert Before(b[i - |a|], b[j - |a|]);
        }
      }
    }
  }

  /** A cell is detected exactly when it lies in the grid and its score reaches the threshold. */
  lemma DetectedIff(scores: Mat, geometry: Mat, threshold: real, c: Cell)
    requires Decodable(scores, geometry)
    ensures c in DetectedCells(scores, geometry, threshold) <==> InGrid(geometry, c) && Score(scores, c) >= threshold
  {
    GridCellsMembership(scores, threshold, Height(geometry), geometry.cols, c);
  }

  /** Detections come out row by row, left to right within a row. */
  lemma DetectedRowMajor(scores: Mat, geometry: Mat, threshold: real)
    requires Decodable(scores, geometry)
    ensures RowMajor(DetectedCells(scores, geometry, threshold))
  {
    GridCellsOrdered(scores, threshold, Height(geometry), geometry.cols);
    assert DetectedCells(scores, geometry, threshold) == GridCells(scores, threshold, Height(geometry), geometry.cols);
  }

  /** A grid whose every score lies below the threshold yields no detection. */
  lemma NothingBelowThreshold(scores: Mat, geometry: Mat, threshold: real)
    requires Decodable(scores, geometry)
    requires forall y, x :: 0 <= y < Height(geometry) && 0 <= x < geometry.cols ==> scores.cells[y][x] < threshold
    ensures DetectedCells(scores, geometry, threshold) == []
  {
    var s := DetectedCells(scores, geometry, threshold);
    if s != [] {
      DetectedIff(scores, geometry, threshold, s[0]);
    }
  }

  /** `decode`: walks the grid in row-major order and, for every cell whose score
      reaches the threshold, appends that cell's box to `detections` and its score
      to `confidences`. */
  method Decode(scores: Mat, geometry: Mat, scoreThreshold: real, trig: Trig)
    returns (detections: seq<RotatedRect>, confidences: seq<real>)
    requires Decodable(scores, geometry)
    ensures var cells := DetectedCells(scores, geometry, scoreThreshold);
      && |detections| == |cells| && |confidences| == |cells|
      && forall i :: 0 <= i < |cells| ==>
           && InGrid(geometry, cells[i])
           && detections[i] == CellBox(geometry, trig, cells[i])
           && confidences[i] == Score(scores, cells[i])
    ensures forall i :: 0 <= i < |confidences| ==> confidences[i] >= scoreThreshold
  {
    var width := geometry.cols;
    var height := Height(geometry);
    detections, confidences := [], [];
    ghost var cells: seq<Cell> := [];
    var y := 0;
    while y < height
      invariant 0 <= y <= height
      invariant cells == GridCells(scores, scoreThreshold, y, width)
      invariant |detections| == |cells| && |confidences| == |cells|
      invariant forall i :: 0 <= i < |cells| ==>
        && InGrid(geometry, cells[i])
        && detections[i] == CellBox(geometry, trig, cells[i])
        && confidences[i] == Score(scores, cells[i])
        && confidences[i] >= scoreThreshold
    {
      var x := 0;
      while x < width
        invariant 0 <= x <= width
        invariant cells == GridCells(scores, scoreThreshold, y, width) + RowCells(scores, scoreThreshold, y, x)
        invariant |detections| == |cells| && |confidences| == |cells|
        invariant forall i :: 0 <= i < |cells| ==>
          && InGrid(geometry, cells[i])
          && detections[i] == CellBox(geometry, trig, cells[i])
          && confidences[i] == Score(scores, cells[i])
          && confidences[i] >= scoreThreshold
      {
        var score := scores.cells[y][x];
        if score >= scoreThreshold {
          var c := Cell(x, y);
          detections := detections + [CellBox(geometry, trig, c)];
          confidences := confidences + [score];
          cells := cells + [c];
        }
        x := x + 1;
      }
      y := y + 1;
    }
  }

  /** The boxes of the given cells, in order. */
  function Boxes(geometry: Mat, trig: Trig, cells: seq<Cell>): seq<RotatedRect>
    requires forall i :: 0 <= i < |cells| ==> InGrid(geometry, cells[i])
  {
    seq(|cells|, i requires 0 <= i < |cells| => CellBox(geometry, trig, cells[i]))
  }

  /** The scores of the given cells, in order. */
  function Confidences(scores: Mat, cells: seq<Cell>): seq<real>
    requires forall i :: 0 <= i < |cells| ==> cells[i].y < scores.Rows() && cells[i].x < scores.cols
  {
    seq(|cells|, i requires 0 <= i < |cells| => Score(scores, cells[i]))
  }

  lemma DetectedInGrid(scores: Mat, geometry: Mat, threshold: real)
    requires Decodable(scores, geometry)
    ensures forall i :: 0 <= i < |DetectedCells(scores, geometry, threshold)| ==>
      var c := DetectedCells(scores, geometry, threshold)[i];
      InGrid(geometry, c) && c.y < scores.Rows() && c.x < scores.cols
  {
    var cells := DetectedCells(scores, geometry, threshold);
    forall i | 0 <= i < |cells|
      ensures InGrid(geometry, cells[i]) && cells[i].y < scores.Rows() && cells[i].x < scores.cols
    {
      DetectedIff(scores, geometry, threshold, cells[i]);
    }
  }

  // ---------------------------------------------------------------- contents

  datatype Description = Given(text: string) | EastOutput(mode: OutputMode, source: nat)

  /** An image content of an item. */
  datatype Image = Image(id: nat, data: Raster, description: Description, props: Properties)

  /** An image content to be created: everything but the id the item assigns to it. */
  datatype Output = Output(data: Raster, description: Description, props: Properties)

  function ParentProps(id: nat): Properties {
    map[Parent := Ref(id)]
  }

  /** The exceptions that processing an image can raise. */
  datatype Failure =
    | NetworkFailure(message: string)   // preprocessing or the EAST network threw
    | DecodeFailure                     // decode read past the end of the score matrix
    | IndexOutOfBounds                  // NMS returned an index outside the box array
    | InvalidArea                       // getSubimage was asked for an area outside the image

  /** What processing one image did: the contents it created, in order, and the
      exception that ended it, if any. */
  datatype Run = Run(outputs: seq<Output>, error: Option<Failure>)

  datatype NetOutput = NetOutput(scores: Mat, geometry: Mat)

  /** The library calls the processor makes, taken as given functions. */
  datatype Env = Env(
    east: (Raster, int) -> Result<NetOutput, string>,    // preprocessing, forward pass, reshape
    trig: Trig,
    nms: (seq<RotatedRect>, seq<real>, real, real) -> seq<int>,   // Dnn.NMSBoxesRotated
    vertices: (RotatedRect, real, real) -> Quad,        // OpenCVUtils.scaleRotatedRect
    inside: (Quad, int, int) -> bool,                   // fillPoly covers (row, column)
    onSegment: (Point, Point, int, int) -> bool,        // line covers (row, column)
    boundingRect: RotatedRect -> Rect,                  // RotatedRect.boundingRect
    rotate: (Raster, real) -> Raster)                   // rotateImageByDegrees

  // ---------------------------------------------------------------- boxes to outputs

  /** `OpenCVUtils.padRotatedRect`: grows each side by `amount`; centre and angle stay. */
  function Pad(r: RotatedRect, amount: int): RotatedRect {
    r.(width := r.width + 2.0 * amount as real, height := r.height + 2.0 * amount as real)
  }

  /** The boxes NMS kept, each padded; an index outside the box array throws. */
  function Kept(boxes: seq<RotatedRect>, indices: seq<int>, padding: int): (r: Result<seq<RotatedRect>, Failure>)
    ensures r.Ok? <==> forall k :: 0 <= k < |indices| ==> 0 <= indices[k] < |boxes|
    ensures r.Ok? ==> |r.value| == |indices|
    ensures r.Ok? ==> forall k :: 0 <= k < |indices| ==> r.value[k] == Pad(boxes[indices[k]], padding)
  {
    if forall k :: 0 <= k < |indices| ==> 0 <= indices[k] < |boxes| then
      Ok(seq(|indices|, k requires 0 <= k < |indices| => Pad(boxes[indices[k]], padding)))
    else
      Err(IndexOutOfBounds)
  }

  /** The ratio of the image's size to the network input size, per axis. */
  function Ratio(img: Raster, size: int): (r: Point)
    requires 0 < size
    ensures r.x * size as real == img.cols as real && r.y * size as real == img.Rows() as real
  {
    Point(img.cols as real / size as real, img.Rows() as real / size as real)
  }

  /** The polygon of each kept box, scaled by the ratio. */
  function Polygons(rects: seq<RotatedRect>, ratio: Point, env: Env): seq<Quad> {
    seq(|rects|, k requires 0 <= k < |rects| => env.vertices(rects[k], ratio.x, ratio.y))
  }

  /** Pixel (r, c) lies inside one of the polygons. */
  predicate InsideAny(polys: seq<Quad>, inside: (Quad, int, int) -> bool, r: int, c: int)
    decreases |polys|
  {
    0 < |polys| && (InsideAny(polys[..|polys| - 1], inside, r, c) || inside(polys[|polys| - 1], r, c))
  }

  /** Edge `e` of a polygon joins vertex `e` to vertex `e + 1`, the last back to the first. */
  predicate OnEdge(q: Quad, e: int, onSegment: (Point, Point, int, int) -> bool, r: int, c: int)
    requires 0 <= e < 4
  {
    onSegment(q.Vertex(e), q.Vertex((e + 1) % 4), r, c)
  }

  /** Pixel (r, c) lies on one of the first `j` edges of `q`. */
  predicate OnEdges(q: Quad, j: nat, onSegment: (Point, Point, int, int) -> bool, r: int, c: int)
    requires j <= 4
  {
    0 < j && (OnEdges(q, j - 1, onSegment, r, c) || OnEdge(q, j - 1, onSegment, r, c))
  }

  /** Pixel (r, c) lies on the outline of one of the polygons. */
  predicate OnOutline(polys: seq<Quad>, onSegment: (Point, Point, int, int) -> bool, r: int, c: int)
    decreases |polys|
  {
    0 < |polys| && (OnOutline(polys[..|polys| - 1], onSegment, r, c) || OnEdges(polys[|polys| - 1], 4, onSegment, r, c))
  }

  const LineColour := Pixel(0, 0, 255)

  /** The mask level at (r, c) once the polygons are filled: MASK starts white and
      fills black, INVERSE_MASK starts black and fills white. */
  function MaskLevel(polys: seq<Quad>, inside: (Quad, int, int) -> bool, inverse: bool, r: int, c: int): int {
    if InsideAny(polys, inside, r, c) then
      (if inverse then MaskWhite else MaskBlack)
    else
      (if inverse then MaskBlack else MaskWhite)
  }

  /** The image with every pixel whose mask level is non-zero set to black. */
  function MaskedRaster(img: Raster, polys: seq<Quad>, inside: (Quad, int, int) -> bool, inverse: bool): Raster {
    Grid(img.cols, seq(img.Rows(), r requires 0 <= r < img.Rows() =>
      seq(img.cols, c requires 0 <= c < img.cols =>
        if MaskLevel(polys, inside, inverse, r, c) != 0 then Black else img.cells[r][c])))
  }

  /** The image with the outline of every polygon drawn on it. */
  function BoxedRaster(img: Raster, polys: seq<Quad>, onSegment: (Point, Point, int, int) -> bool): Raster {
    Grid(img.cols, seq(img.Rows(), r requires 0 <= r < img.Rows() =>
      seq(img.cols, c requires 0 <= c < img.cols =>
        if OnOutline(polys, onSegment, r, c) then LineColour else img.cells[r][c])))
  }

  /** The area `a` is non-empty and lies inside the image, which is what `getSubimage`
      needs in order not to throw. */
  predicate Fits(img: Raster, a: Rect) {
    0 <= a.x && 0 <= a.y && 0 < a.width && 0 < a.height && a.x + a.width <= img.cols && a.y + a.height <= img.Rows()
  }

  /** The box's bounding rectangle in image units: each side scaled by the ratio and
      cast to int. */
  function ScaledBounding(rot: RotatedRect, ratio: Point, env: Env): Rect {
    var b := env.boundingRect(rot);
    Rect(Trunc(b.x as real * ratio.x), Trunc(b.y as real * ratio.y),
         Trunc(b.width as real * ratio.x), Trunc(b.height as real * ratio.y))
  }

  /** The scaled box size, placed around the centre of the rotated crop. */
  function TrimArea(rotated: Raster, rot: RotatedRect, ratio: Point): Rect {
    var centreX, centreY := rotated.cols / 2, rotated.Rows() / 2;
    Rect(Trunc(centreX as real - (ratio.x * rot.width) / 2.0),
         Trunc(centreY as real - (ratio.y * rot.height) / 2.0),
         Trunc(ratio.x * rot.width),
         Trunc(ratio.y * rot.height))
  }

  /** The rotated crop cut down to the scaled box size around its centre. */
  function Trim(rotated: Raster, rot: RotatedRect, ratio: Point): (r: Option<Raster>)
    ensures r.Some? <==> Fits(rotated, TrimArea(rotated, rot, ratio))
    ensures r.Some? ==> r.value.cols == Trunc(ratio.x * rot.width) && r.value.Rows() == Trunc(ratio.y * rot.height)
    ensures r.Some? ==> var a := TrimArea(rotated, rot, ratio);
      forall i, j :: 0 <= i < r.value.Rows() && 0 <= j < r.value.cols ==> r.value.cells[i][j] == rotated.cells[a.y + i][a.x + j]
  {
    var a := TrimArea(rotated, rot, ratio);
    Subimage(rotated, a.x, a.y, a.width, a.height)
  }

  /** The properties of an EXTRACT content: where its bounding rectangle lies in the
      image, the source image, the box's angle and the parent. */
  function ExtractProps(x: int, y: int, w: int, h: int, source: nat, angle: real): Properties {
    map[Key("x") := Int(x), Key("y") := Int(y), Key("width") := Int(w), Key("height") := Int(h),
        Key("source") := Ref(source), Key("angle") := Real(angle), Parent := Ref(source)]
  }

  /** EXTRACT for one box: crop the scaled bounding rectangle, rotate it back, trim it
      to the scaled box size around its centre. It throws exactly when one of the two
      `getSubimage` areas does not fit. A content's data is the trim of the rotated
      crop, and it carries the scaled bounding rectangle, the source id, the box's
      angle and the parent. */
  function ExtractOne(img: Image, rot: RotatedRect, ratio: Point, env: Env): (r: Result<Output, Failure>)
    ensures var s := ScaledBounding(rot, ratio, env);
      && (r.Err? ==> r.error == InvalidArea)
      && (!Fits(img.data, s) ==> r.Err?)
      && (Fits(img.data, s) ==>
            var rotated := env.rotate(Subimage(img.data, s.x, s.y, s.width, s.height).value, -rot.angle);
            (r.Ok? <==> Fits(rotated, TrimArea(rotated, rot, ratio))))
      && (r.Ok? ==>
            && r.value.description == EastOutput(Extract, img.id)
            && r.value.props == ExtractProps(s.x, s.y, s.width, s.height, img.id, rot.angle))
    ensures r.Ok? ==> r.value.data.cols == Trunc(ratio.x * rot.width) && r.value.data.Rows() == Trunc(ratio.y * rot.height)
    ensures r.Ok? ==> var s := ScaledBounding(rot, ratio, env);
      Fits(img.data, s) &&
      r.value.data == Trim(env.rotate(Subimage(img.data, s.x, s.y, s.width, s.height).value, -rot.angle), rot, ratio).value
  {
    var s := ScaledBounding(rot, ratio, env);
    match Subimage(img.data, s.x, s.y, s.width, s.height)
    case None => Err(InvalidArea)
    case Some(bounded) =>
      var rotated := env.rotate(bounded, -rot.angle);
      match Trim(rotated, rot, ratio)
      case None => Err(InvalidArea)
      case Some(trimmed) => Ok(Output(trimmed, EastOutput(Extract, img.id), ExtractProps(s.x, s.y, s.width, s.height, img.id, rot.angle)))
  }

  /** EXTRACT over the kept boxes in order, stopping at the first one that throws;
      the contents created before it stay created. */
  function ExtractRun(img: Image, rects: seq<RotatedRect>, ratio: Point, env: Env): Run
    decreases |rects|
  {
    if rects == [] then Run([], None)
    else
      var prev := ExtractRun(img, rects[..|rects| - 1], ratio, env);
      if prev.error.Some? then prev
      else
        match ExtractOne(img, rects[|rects| - 1], ratio, env)
        case Err(e) => Run(prev.outputs, Some(e))
        case Ok(o) => Run(prev.outputs + [o], None)
  }

  /** The output dispatch of `processImage` for the kept, padded boxes. */
  function Render(img: Image, mode: OutputMode, rects: seq<RotatedRect>, ratio: Point, env: Env): Run {
    var polys := Polygons(rects, ratio, env);
    match mode
    case Box => Run([Output(BoxedRaster(img.data, polys, env.onSegment), EastOutput(Box, img.id), ParentProps(img.id))], None)
    case Extract => ExtractRun(img, rects, ratio, env)
    case Mask => Run([Output(MaskedRaster(img.data, polys, env.inside, false), EastOutput(Mask, img.id), ParentProps(img.id))], None)
    case InverseMask => Run([Output(MaskedRaster(img.data, polys, env.inside, true), EastOutput(InverseMask, img.id), ParentProps(img.id))], None)
  }

  /** The boxes decode finds in the network output. */
  function DecodedBoxes(net: NetOutput, s: Settings, env: Env): seq<RotatedRect>
    requires Decodable(net.scores, net.geometry)
  {
    DetectedInGrid(net.scores, net.geometry, s.scoreThreshold);
    Boxes(net.geometry, env.trig, DetectedCells(net.scores, net.geometry, s.scoreThreshold))
  }

  /** The indices NMS keeps among the decoded boxes. */
  function Indices(net: NetOutput, s: Settings, env: Env): seq<int>
    requires Decodable(net.scores, net.geometry)
  {
    DetectedInGrid(net.scores, net.geometry, s.scoreThreshold);
    var cells := DetectedCells(net.scores, net.geometry, s.scoreThreshold);
    env.nms(DecodedBoxes(net, s, env), Confidences(net.scores, cells), s.scoreThreshold, s.nmsThreshold)
  }

  /** The kept, padded boxes of an image; `Ok(None)` is "no text found". */
  function Detections(img: Image, s: Settings, env: Env): Result<Option<seq<RotatedRect>>, Failure> {
    match env.east(img.data, s.size)
    case Err(m) => Err(NetworkFailure(m))
    case Ok(net) =>
      if !Decodable(net.scores, net.geometry) then Err(DecodeFailure)
      else if DetectedCells(net.scores, net.geometry, s.scoreThreshold) == [] then Ok(None)
      else
        match Kept(DecodedBoxes(net, s, env), Indices(net, s, env), s.padding)
        case Err(e) => Err(e)
        case Ok(rects) => Ok(Some(rects))
  }

  /** `processImage`: what processing one image creates, and the exception it raises. */
  function ImageRun(img: Image, s: Settings, env: Env): Run
    requires 0 < s.size
  {
    match Detections(img, s, env)
    case Err(e) => Run([], Some(e))
    case Ok(None) => Run([], None)
    case Ok(Some(rects)) => Render(img, s.outputMode, rects, Ratio(img.data, s.size), env)
  }

  // ---------------------------------------------------------------- rendering on a Mat

  /** MASK and INVERSE_MASK: fill a mask with the background level, paint every
      polygon with the fill level, then black out every frame pixel whose mask is non-zero. */
  method RenderMask(img: Raster, polys: seq<Quad>, inside: (Quad, int, int) -> bool, inverse: bool) returns (out: Raster)
    ensures out == MaskedRaster(img, polys, inside, inverse)
  {
    var frame := ToMat(img);
    var mask := new int[frame.Length0, frame.Length1];
    var background, fill := if inverse then MaskBlack else MaskWhite, if inverse then MaskWhite else MaskBlack;
    PaintWhere(mask, (i, j) => true, background);
    var k := 0;
    while k < |polys|
      invariant 0 <= k <= |polys|
      invariant forall i, j :: 0 <= i < frame.Length0 && 0 <= j < frame.Length1 ==> frame[i, j] == img.cells[i][j]
      invariant forall i, j :: 0 <= i < mask.Length0 && 0 <= j < mask.Length1 ==>
        mask[i, j] == (if InsideAny(polys[..k], inside, i, j) then fill else background)
    {
      var q := polys[k];
      PaintWhere(mask, (i, j) => inside(q, i, j), fill);
      assert polys[..k + 1][..k] == polys[..k];
      k := k + 1;
    }
    assert polys[..k] == polys;
    SetToMasked(frame, Black, mask);
    out := FromMat(frame);
    ghost var expected := MaskedRaster(img, polys, inside, inverse);
    forall i | 0 <= i < img.Rows()
      ensures out.cells[i] == expected.cells[i]
    {
      forall j | 0 <= j < img.cols
        ensures out.cells[i][j] == expected.cells[i][j]
      {
        assert mask[i, j] != 0 <==> MaskLevel(polys, inside, inverse, i, j) != 0;
      }
    }
  }

  /** BOX: draw the four edges of every polygon onto the frame. */
  method RenderBoxes(img: Raster, polys: seq<Quad>, onSegment: (Point, Point, int, int) -> bool) returns (out: Raster)
    ensures out == BoxedRaster(img, polys, onSegment)
  {
    var frame := ToMat(img);
    var k := 0;
    while k < |polys|
      invariant 0 <= k <= |polys|
      invariant forall r, c :: 0 <= r < frame.Length0 && 0 <= c < frame.Length1 ==>
        frame[r, c] == (if OnOutline(polys[..k], onSegment, r, c) then LineColour else img.cells[r][c])
    {
      var q := polys[k];
      var j := 0;
      while j < 4
        invariant 0 <= j <= 4
        invariant forall r, c :: 0 <= r < frame.Length0 && 0 <= c < frame.Length1 ==>
          frame[r, c] == (if OnOutline(polys[..k], onSegment, r, c) || OnEdges(q, j, onSegment, r, c) then LineColour else img.cells[r][c])
      {
        var a, b := q.Vertex(j), q.Vertex((j + 1) % 4);
        PaintWhere(frame, (r, c) => onSegment(a, b, r, c), LineColour);
        j := j + 1;
      }
      assert polys[..k + 1][..k] == polys[..k];
      k := k + 1;
    }
    assert polys[..k] == polys;
    out := FromMat(frame);
    ghost var expected := BoxedRaster(img, polys, onSegment);
    forall i | 0 <= i < img.Rows()
      ensures out.cells[i] == expected.cells[i]
    {
      assert |out.cells[i]| == |expected.cells[i]|;
    }
  }

  // ---------------------------------------------------------------- the item

  /** An output saved under the given id. */
  function Stamped(id: nat, o: Output): Image {
    Image(id, o.data, o.description, o.props)
  }

  /** Outputs saved in order under consecutive ids starting at `first`. */
  function Stamp(first: nat, outs: seq<Output>): (r: seq<Image>)
    ensures |r| == |outs|
    ensures forall k :: 0 <= k < |outs| ==> r[k] == Stamped(first + k, outs[k])
    decreases |outs|
  {
    if outs == [] then []
    else Stamp(first, outs[..|outs| - 1]) + [Stamped(first + |outs| - 1, outs[|outs| - 1])]
  }

  datatype ItemState = ItemState(contents: seq<Image>, nextId: nat)

  predicate DistinctIds(s: seq<Image>) {
    forall i, j :: 0 <= i < j < |s| ==> s[i].id != s[j].id
  }

  predicate IdsBelow(s: seq<Image>, n: nat) {
    forall i :: 0 <= i < |s| ==> s[i].id < n
  }

  /** Ids are unique, and every id is below the next one to be handed out. */
  predicate WellFormed(st: ItemState) {
    DistinctIds(st.contents) && IdsBelow(st.contents, st.nextId)
  }

  predicate HasId(s: seq<Image>, id: nat) {
    exists x :: x in s && x.id == id
  }

  /** The state after saving the outputs in order. */
  function Created(st: ItemState, outs: seq<Output>): ItemState {
    ItemState(st.contents + Stamp(st.nextId, outs), st.nextId + |outs|)
  }

  /** Saving outputs one after the other is saving them together. */
  lemma CreatedSnoc(st: ItemState, outs: seq<Output>, o: Output)
    ensures Created(Created(st, outs), [o]) == Created(st, outs + [o])
  {
    var a := Stamp(st.nextId, outs) + Stamp(st.nextId + |outs|, [o]);
    var b := Stamp(st.nextId, outs + [o]);
    assert |a| == |b|;
    forall k | 0 <= k < |b| ensures a[k] == b[k] {
      if k < |outs| {
        assert a[k] == Stamp(st.nextId, outs)[k];
      } else {
        assert a[k] == Stamp(st.nextId + |outs|, [o])[0];
      }
    }
    assert a == b;
    assert st.contents + a == st.contents + b;
  }

  /** Saving contents keeps ids unique, because each new one is fresh; the ids present
      afterwards are the old ones and the new block. */
  lemma CreatedWellFormed(st: ItemState, outs: seq<Output>)
    requires WellFormed(st)
    ensures WellFormed(Created(st, outs))
    ensures forall id: nat :: HasId(Created(st, outs).contents, id) <==> HasId(st.contents, id) || st.nextId <= id < st.nextId + |outs|
  {
    var a: seq<Image>, b: seq<Image> := st.contents, Stamp(st.nextId, outs);
    forall i, j | 0 <= i < j < |a + b|
      ensures (a + b)[i].id != (a + b)[j].id
    {
      if j < |a| {
        assert (a + b)[i] == a[i] && (a + b)[j] == a[j];
      } else if i < |a| {
        assert (a + b)[i] == a[i] && (a + b)[j] == b[j - |a|];
      } else {
        assert (a + b)[i] == b[i - |a|] && (a + b)[j] == b[j - |a|];
      }
    }
    forall i | 0 <= i < |a + b|
      ensures (a + b)[i].id < st.nextId + |outs|
    {
      if i < |a| {
        assert (a + b)[i] == a[i];
      } else {
        assert (a + b)[i] == b[i - |a|];
      }
    }
    forall id: nat
      ensures HasId(a + b, id) <==> HasId(a, id) || st.nextId <= id < st.nextId + |outs|
    {
      if HasId(a + b, id) {
        var x :| x in a + b && x.id == id;
        if x !in a {
          var k :| 0 <= k < |b| && b[k] == x;
        }
      }
      if st.nextId <= id < st.nextId + |outs| {
        var k := id - st.nextId;
        assert b[k] in a + b;
      }
    }
  }

  /** `removeContent`: every content with the given id is dropped; the others keep their order. */
  function RemoveId(s: seq<Image>, id: nat): seq<Image>
    decreases |s|
  {
    if s == [] then []
    else (if s[0].id == id then [] else [s[0]]) + RemoveId(s[1..], id)
  }

  /** A content is kept exactly when it was there and has another id. */
  lemma {:induction false} RemoveIdMembership(s: seq<Image>, id: nat)
    ensures forall x :: x in RemoveId(s, id) <==> x in s && x.id != id
    decreases |s|
  {
    if s != [] {
      RemoveIdMembership(s[1..], id);
      assert s == [s[0]] + s[1..];
    }
  }

  /** Removing keeps ids unique. */
  lemma {:induction false} RemoveIdDistinct(s: seq<Image>, id: nat)
    requires DistinctIds(s)
    ensures DistinctIds(RemoveId(s, id))
    decreases |s|
  {
    if s != [] {
      var tail := s[1..];
      assert DistinctIds(tail) by {
        forall i, j | 0 <= i < j < |tail| ensures tail[i].id != tail[j].id {
          assert tail[i] == s[i + 1] && tail[j] == s[j + 1];
        }
      }
      RemoveIdDistinct(tail, id);
      var rest := RemoveId(tail, id);
      if s[0].id != id {
        RemoveIdMembership(tail, id);
        var r := [s[0]] + rest;
        forall i, j | 0 <= i < j < |r| ensures r[i].id != r[j].id {
          if i == 0 {
            assert r[j] == rest[j - 1] && rest[j - 1] in rest;
            var k :| 0 <= k < |tail| && tail[k] == rest[j - 1];
            assert s[k + 1] == r[j];
          } else {
            assert r[i] == rest[i - 1] && r[j] == rest[j - 1];
          }
        }
      }
    }
  }

  /** Removing keeps ids unique and bounded, and removes exactly the given id. */
  lemma RemoveIdWellFormed(st: ItemState, id: nat)
    requires WellFormed(st)
    ensures WellFormed(st.(contents := RemoveId(st.contents, id)))
    ensures forall j: nat :: HasId(RemoveId(st.contents, id), j) <==> HasId(st.contents, j) && j != id
  {
    var s := st.contents;
    var r := RemoveId(s, id);
    RemoveIdMembership(s, id);
    RemoveIdDistinct(s, id);
    forall i | 0 <= i < |r| ensures r[i].id < st.nextId {
      assert r[i] in r;
      var k :| 0 <= k < |s| && s[k] == r[i];
    }
    forall j: nat ensures HasId(r, j) <==> HasId(s, j) && j != id {
      if HasId(s, j) && j != id {
        var x :| x in s && x.id == j;
        assert x in r;
      }
    }
  }

  /** An annotation item: the image contents it holds and the id its next content gets. */
  class Item {
    var contents: seq<Image>
    var nextId: nat

    function State(): ItemState
      reads this
    {
      ItemState(contents, nextId)
    }

    ghost predicate Valid()
      reads this
    {
      WellFormed(State())
    }

    constructor (images: seq<Image>, firstFreeId: nat)
      requires WellFormed(ItemState(images, firstFreeId))
      ensures Valid() && State() == ItemState(images, firstFreeId)
    {
      contents := images;
      nextId := firstFreeId;
    }

    /** `getContents(Image.class)` collected into a list: a snapshot. */
    method GetImages() returns (images: seq<Image>)
      ensures images == contents
    {
      images := contents;
    }

    /** `createContent(...).save()`: the output is saved under a fresh id. */
    method CreateContent(o: Output)
      requires Valid()
      modifies this
      ensures Valid()
      ensures State() == Created(old(State()), [o])
    {
      CreatedWellFormed(State(), [o]);
      contents := contents + [Stamped(nextId, o)];
      nextId := nextId + 1;
    }

    method RemoveContent(id: nat)
      requires Valid()
      modifies this
      ensures Valid()
      ensures State() == ItemState(RemoveId(old(contents), id), old(nextId))
    {
      RemoveIdWellFormed(State(), id);
      contents := RemoveId(contents, id);
    }
  }

  // ---------------------------------------------------------------- processing

  /** A run that ended in an error stays as it is when later boxes are added. */
  lemma {:induction false} ExtractRunStops(img: Image, rects: seq<RotatedRect>, k: nat, ratio: Point, env: Env)
    requires k <= |rects| && ExtractRun(img, rects[..k], ratio, env).error.Some?
    ensures ExtractRun(img, rects, ratio, env) == ExtractRun(img, rects[..k], ratio, env)
    decreases |rects|
  {
    if k < |rects| {
      var prefix := rects[..|rects| - 1];
      assert prefix[..k] == rects[..k];
      ExtractRunStops(img, prefix, k, ratio, env);
    } else {
      assert rects[..k] == rects;
    }
  }

  /** EXTRACT's loop: one content per kept box, until a box throws. */
  method ExtractAll(item: Item, img: Image, rects: seq<RotatedRect>, ratio: Point, env: Env) returns (error: Option<Failure>)
    requires item.Valid()
    modifies item
    ensures item.Valid()
    ensures var run := ExtractRun(img, rects, ratio, env);
      error == run.error && item.State() == Created(old(item.State()), run.outputs)
  {
    ghost var start := item.State();
    var k := 0;
    while k < |rects|
      invariant 0 <= k <= |rects| && item.Valid()
      invariant ExtractRun(img, rects[..k], ratio, env).error.None?
      invariant item.State() == Created(start, ExtractRun(img, rects[..k], ratio, env).outputs)
    {
      var rot := rects[k];
      var r := ExtractOne(img, rot, ratio, env);
      assert rects[..k + 1][..k] == rects[..k];
      if r.Err? {
        ExtractRunStops(img, rects, k + 1, ratio, env);
        return Some(r.error);
      }
      ghost var before := ExtractRun(img, rects[..k], ratio, env).outputs;
      item.CreateContent(r.value);
      CreatedSnoc(start, before, r.value);
      k := k + 1;
    }
    assert rects[..k] == rects;
    error := None;
  }

  /** `processImage`: decode, suppress, pad, then dispatch on the output mode,
      saving what it creates into the item. */
  method ProcessImage(item: Item, img: Image, s: Settings, env: Env) returns (error: Option<Failure>)
    requires item.Valid() && 0 < s.size
    modifies item
    ensures item.Valid()
    ensures var run := ImageRun(img, s, env);
      error == run.error && item.State() == Created(old(item.State()), run.outputs)
  {
    var net := env.east(img.data, s.size);
    if net.Err? {
      assert item.State() == Created(item.State(), []);
      return Some(NetworkFailure(net.error));
    }
    var scores, geometry := net.value.scores, net.value.geometry;
    if !Decodable(scores, geometry) {
      assert item.State() == Created(item.State(), []);
      return Some(DecodeFailure);
    }
    var boxes, confidences := Decode(scores, geometry, s.scoreThreshold, env.trig);
    ghost var cells := DetectedCells(scores, geometry, s.scoreThreshold);
    if |boxes| == 0 {
      assert cells == [];
      assert item.State() == Created(item.State(), []);
      return None;
    }
    DetectedInGrid(scores, geometry, s.scoreThreshold);
    assert boxes == DecodedBoxes(net.value, s, env);
    assert confidences == Confidences(scores, cells);
    var indices := env.nms(boxes, confidences, s.scoreThreshold, s.nmsThreshold);
    var kept := Kept(boxes, indices, s.padding);
    if kept.Err? {
      assert item.State() == Created(item.State(), []);
      return Some(kept.error);
    }
    var rects := kept.value;
    var ratio := Ratio(img.data, s.size);
    match s.outputMode {
      case Box =>
        var data := RenderBoxes(img.data, Polygons(rects, ratio, env), env.onSegment);
        item.CreateContent(Output(data, EastOutput(Box, img.id), ParentProps(img.id)));
        error := None;
      case Extract =>
        error := ExtractAll(item, img, rects, ratio, env);
      case Mask =>
        var data := RenderMask(img.data, Polygons(rects, ratio, env), env.inside, false);
        item.CreateContent(Output(data, EastOutput(Mask, img.id), ParentProps(img.id)));
        error := None;
      case InverseMask =>
        var data := RenderMask(img.data, Polygons(rects, ratio, env), env.inside, true);
        item.CreateContent(Output(data, EastOutput(InverseMask, img.id), ParentProps(img.id)));
        error := None;
    }
  }

  /** The item after one image of the snapshot: its outputs are saved, and the
      original is removed when it succeeded and `discardOriginal` is set. */
  function AfterImage(st: ItemState, img: Image, s: Settings, env: Env): ItemState
    requires 0 < s.size
  {
    var run := ImageRun(img, s, env);
    var saved := Created(st, run.outputs);
    if run.error.None? && s.discardOriginal then saved.(contents := RemoveId(saved.contents, img.id)) else saved
  }

  /** The item after the whole snapshot, image by image. */
  function AfterAll(st: ItemState, images: seq<Image>, s: Settings, env: Env): ItemState
    requires 0 < s.size
    decreases |images|
  {
    if images == [] then st
    else AfterImage(AfterAll(st, images[..|images| - 1], s, env), images[|images| - 1], s, env)
  }

  /** The exception each image of the snapshot raises, if any, in image order. */
  function Outcomes(images: seq<Image>, s: Settings, env: Env): seq<Option<Failure>>
    requires 0 < s.size
  {
    seq(|images|, i requires 0 <= i < |images| => ImageRun(images[i], s, env).error)
  }

  /** The exceptions among the outcomes, in order. */
  function Collect(outcomes: seq<Option<Failure>>): seq<Failure>
    decreases |outcomes|
  {
    if outcomes == [] then []
    else
      var e := outcomes[|outcomes| - 1];
      Collect(outcomes[..|outcomes| - 1]) + (if e.Some? then [e.value] else [])
  }

  /** The exceptions collected over the images, in image order. */
  function Failures(images: seq<Image>, s: Settings, env: Env): seq<Failure>
    requires 0 < s.size
  {
    Collect(Outcomes(images, s, env))
  }

  /** One more image appends its exception, if it raises one, to those before it. */
  lemma FailuresSnoc(images: seq<Image>, s: Settings, env: Env)
    requires 0 < s.size && images != []
    ensures var e := ImageRun(images[|images| - 1], s, env).error;
      Failures(images, s, env) == Failures(images[..|images| - 1], s, env) + (if e.Some? then [e.value] else [])
  {
    var outcomes := Outcomes(images, s, env);
    assert outcomes[..|images| - 1] == Outcomes(images[..|images| - 1], s, env);
  }

  datatype ProcessorResponse = Processed | ItemError(exceptions: seq<Failure>)

  function ResponseFor(exceptions: seq<Failure>): ProcessorResponse {
    if exceptions == [] then Processed else ItemError(exceptions)
  }

  /** `process`: every image of a snapshot taken before the loop is processed; an
      exception is collected and the loop goes on; a succeeding image is removed when
      `discardOriginal` is set. */
  method Process(item: Item, s: Settings, env: Env) returns (response: ProcessorResponse)
    requires item.Valid() && 0 < s.size
    modifies item
    ensures item.Valid()
    ensures item.State() == AfterAll(old(item.State()), old(item.contents), s, env)
    ensures response == ResponseFor(Failures(old(item.contents), s, env))
  {
    var exceptions: seq<Failure> := [];
    var images := item.GetImages();
    var i := 0;
    while i < |images|
      invariant 0 <= i <= |images| && item.Valid()
      invariant item.State() == AfterAll(old(item.State()), images[..i], s, env)
      invariant exceptions == Failures(images[..i], s, env)
    {
      var img := images[i];
      assert images[..i + 1][..i] == images[..i];
      FailuresSnoc(images[..i + 1], s, env);
      var e := ProcessImage(item, img, s, env);
      if e.Some? {
        exceptions := exceptions + [e.value];
      } else if s.discardOriginal {
        item.RemoveContent(img.id);
      }
      i := i + 1;
    }
    assert images[..i] == images;
    response := if exceptions == [] then Processed else ItemError(exceptions);
  }

  // ---------------------------------------------------------------- properties

  /** A pixel is inside the filled mask region exactly when one of the polygons covers it. */
  lemma {:induction false} InsideAnyIff(polys: seq<Quad>, inside: (Quad, int, int) -> bool, r: int, c: int)
    ensures InsideAny(polys, inside, r, c) <==> exists k :: 0 <= k < |polys| && inside(polys[k], r, c)
    decreases |polys|
  {
    if polys != [] {
      var init := polys[..|polys| - 1];
      InsideAnyIff(init, inside, r, c);
      if exists k :: 0 <= k < |polys| && inside(polys[k], r, c) {
        var k :| 0 <= k < |polys| && inside(polys[k], r, c);
        if k < |init| {
          assert init[k] == polys[k];
        }
      }
      if exists k :: 0 <= k < |init| && inside(init[k], r, c) {
        var k :| 0 <= k < |init| && inside(init[k], r, c);
        assert polys[k] == init[k];
      }
    }
  }

  /** A pixel is on the first `j` edges of `q` exactly when one of those segments covers it. */
  lemma {:induction false} OnEdgesIff(q: Quad, j: nat, onSegment: (Point, Point, int, int) -> bool, r: int, c: int)
    requires j <= 4
    ensures OnEdges(q, j, onSegment, r, c) <==> exists e :: 0 <= e < j && OnEdge(q, e, onSegment, r, c)
  {
    if j > 0 {
      OnEdgesIff(q, j - 1, onSegment, r, c);
    }
  }

  /** BOX colours a pixel exactly when some edge of some polygon covers it. */
  lemma {:induction false} OnOutlineIff(polys: seq<Quad>, onSegment: (Point, Point, int, int) -> bool, r: int, c: int)
    ensures OnOutline(polys, onSegment, r, c) <==>
      exists k, e :: 0 <= k < |polys| && 0 <= e < 4 && OnEdge(polys[k], e, onSegment, r, c)
    decreases |polys|
  {
    if polys != [] {
      var init := polys[..|polys| - 1];
      var last := polys[|polys| - 1];
      OnOutlineIff(init, onSegment, r, c);
      OnEdgesIff(last, 4, onSegment, r, c);
      if exists k, e :: 0 <= k < |polys| && 0 <= e < 4 && OnEdge(polys[k], e, onSegment, r, c) {
        var k, e :| 0 <= k < |polys| && 0 <= e < 4 && OnEdge(polys[k], e, onSegment, r, c);
        if k < |init| {
          assert init[k] == polys[k];
        } else {
          assert OnEdge(last, e, onSegment, r, c);
        }
      }
      if exists k, e :: 0 <= k < |init| && 0 <= e < 4 && OnEdge(init[k], e, onSegment, r, c) {
        var k, e :| 0 <= k < |init| && 0 <= e < 4 && OnEdge(init[k], e, onSegment, r, c);
        assert polys[k] == init[k];
      }
      if OnEdges(last, 4, onSegment, r, c) {
        var e :| 0 <= e < 4 && OnEdge(last, e, onSegment, r, c);
        assert OnEdge(polys[|polys| - 1], e, onSegment, r, c);
      }
    }
  }

  /** MASK keeps exactly the pixels some polygon covers and blacks out the rest;
      INVERSE_MASK blacks out exactly the covered pixels and keeps the rest. */
  lemma MaskPolarity(img: Raster, polys: seq<Quad>, inside: (Quad, int, int) -> bool, r: nat, c: nat)
    requires r < img.Rows() && c < img.cols
    ensures var covered := exists k :: 0 <= k < |polys| && inside(polys[k], r, c);
      && MaskedRaster(img, polys, inside, false).cells[r][c] == (if covered then img.cells[r][c] else Black)
      && MaskedRaster(img, polys, inside, true).cells[r][c] == (if covered then Black else img.cells[r][c])
  {
    InsideAnyIff(polys, inside, r, c);
  }

  /** BOX draws the line colour exactly on the polygon edges and keeps every other pixel. */
  lemma BoxOutline(img: Raster, polys: seq<Quad>, onSegment: (Point, Point, int, int) -> bool, r: nat, c: nat)
    requires r < img.Rows() && c < img.cols
    ensures BoxedRaster(img, polys, onSegment).cells[r][c] ==
      if exists k, e :: 0 <= k < |polys| && 0 <= e < 4 && OnEdge(polys[k], e, onSegment, r, c)
      then LineColour else img.cells[r][c]
  {
    OnOutlineIff(polys, onSegment, r, c);
  }

  /** Every pixel keeps its original value in MASK or in INVERSE_MASK, and the other
      mode blacks it out. */
  lemma MaskComplement(img: Raster, polys: seq<Quad>, inside: (Quad, int, int) -> bool, r: nat, c: nat)
    requires r < img.Rows() && c < img.cols
    ensures var m, n := MaskedRaster(img, polys, inside, false), MaskedRaster(img, polys, inside, true);
      (m.cells[r][c] == img.cells[r][c] && n.cells[r][c] == Black) ||
      (m.cells[r][c] == Black && n.cells[r][c] == img.cells[r][c])
  {
    MaskPolarity(img, polys, inside, r, c);
  }

  /** A network output whose every score lies below the threshold yields no content and
      no exception. */
  lemma QuietBelowThreshold(img: Image, s: Settings, env: Env)
    requires 0 < s.size
    requires env.east(img.data, s.size).Ok?
    requires var net := env.east(img.data, s.size).value;
      && Decodable(net.scores, net.geometry)
      && forall y, x :: 0 <= y < Height(net.geometry) && 0 <= x < net.geometry.cols ==>
           net.scores.cells[y][x] < s.scoreThreshold
    ensures ImageRun(img, s, env) == Run([], None)
  {
    var net := env.east(img.data, s.size).value;
    NothingBelowThreshold(net.scores, net.geometry, s.scoreThreshold);
  }

  /** EXTRACT creates one content per box, in box order, up to the first box that
      throws: that box's exception ends the run. */
  lemma {:induction false} ExtractRunShape(img: Image, rects: seq<RotatedRect>, ratio: Point, env: Env)
    ensures var run := ExtractRun(img, rects, ratio, env);
      && |run.outputs| <= |rects|
      && (forall k :: 0 <= k < |run.outputs| ==> ExtractOne(img, rects[k], ratio, env) == Ok(run.outputs[k]))
      && (run.error.None? <==> |run.outputs| == |rects|)
      && (run.error.Some? ==> ExtractOne(img, rects[|run.outputs|], ratio, env) == Err(run.error.value))
    decreases |rects|
  {
    if rects != [] {
      var init := rects[..|rects| - 1];
      ExtractRunShape(img, init, ratio, env);
      var prev := ExtractRun(img, init, ratio, env);
      forall k | 0 <= k < |prev.outputs| ensures init[k] == rects[k] { }
      if prev.error.Some? {
        assert init[|prev.outputs|] == rects[|prev.outputs|];
      }
    }
  }

  /** What the four modes create for an image where text was found: one content for
      MASK, INVERSE_MASK and BOX, and one per kept box for EXTRACT unless a box throws. */
  lemma OutputCount(img: Image, s: Settings, env: Env, rects: seq<RotatedRect>)
    requires 0 < s.size && Detections(img, s, env) == Ok(Some(rects))
    ensures var run := ImageRun(img, s, env);
      && (s.outputMode != Extract ==> |run.outputs| == 1 && run.error.None?)
      && (s.outputMode == Extract ==> |run.outputs| <= |rects| && (run.error.None? <==> |run.outputs| == |rects|))
  {
    ExtractRunShape(img, rects, Ratio(img.data, s.size), env);
  }

  /** The boxes are padded before they are scaled: the `k`-th EXTRACT content comes
      from the `k`-th box NMS kept, grown by the padding, and its size is that padded
      size multiplied by the ratio. */
  lemma PaddedBeforeScaled(img: Image, s: Settings, env: Env, rects: seq<RotatedRect>, k: nat)
    requires 0 < s.size && s.outputMode == Extract
    requires env.east(img.data, s.size).Ok?
    requires var net := env.east(img.data, s.size).value; Decodable(net.scores, net.geometry)
    requires Detections(img, s, env) == Ok(Some(rects))
    requires k < |ImageRun(img, s, env).outputs|
    ensures var net := env.east(img.data, s.size).value;
      var boxes, indices := DecodedBoxes(net, s, env), Indices(net, s, env);
      var ratio, o := Ratio(img.data, s.size), ImageRun(img, s, env).outputs[k];
      && k < |rects| && k < |indices| && 0 <= indices[k] < |boxes|
      && rects[k] == Pad(boxes[indices[k]], s.padding)
      && o.data.cols == Trunc(ratio.x * rects[k].width)
      && o.data.Rows() == Trunc(ratio.y * rects[k].height)
  {
    var net := env.east(img.data, s.size).value;
    var ratio := Ratio(img.data, s.size);
    assert Kept(DecodedBoxes(net, s, env), Indices(net, s, env), s.padding) == Ok(rects);
    var run := ExtractRun(img, rects, ratio, env);
    assert ImageRun(img, s, env) == Render(img, Extract, rects, ratio, env) == run;
    ExtractRunShape(img, rects, ratio, env);
    var o := ExtractOne(img, rects[k], ratio, env);
    assert o == Ok(run.outputs[k]);
  }

  lemma {:induction false} CollectConcat(a: seq<Option<Failure>>, b: seq<Option<Failure>>)
    ensures Collect(a + b) == Collect(a) + Collect(b)
    decreases |b|
  {
    if b == [] {
      assert a + b == a;
    } else {
      var init := b[..|b| - 1];
      assert (a + b)[..|a + b| - 1] == a + init;
      assert (a + b)[|a + b| - 1] == b[|b| - 1];
      CollectConcat(a, init);
    }
  }

  lemma {:induction false} CollectEmptyIff(outcomes: seq<Option<Failure>>)
    ensures Collect(outcomes) == [] <==> forall i :: 0 <= i < |outcomes| ==> outcomes[i].None?
    decreases |outcomes|
  {
    if outcomes != [] {
      var init := outcomes[..|outcomes| - 1];
      CollectEmptyIff(init);
      forall i | 0 <= i < |init| ensures init[i] == outcomes[i] { }
    }
  }

  lemma {:induction false} CollectFrom(outcomes: seq<Option<Failure>>)
    ensures forall e :: e in Collect(outcomes) <==> exists i :: 0 <= i < |outcomes| && outcomes[i] == Some(e)
    decreases |outcomes|
  {
    if outcomes != [] {
      var init := outcomes[..|outcomes| - 1];
      CollectFrom(init);
      forall e ensures e in Collect(outcomes) <==> exists i :: 0 <= i < |outcomes| && outcomes[i] == Some(e) {
        if exists i :: 0 <= i < |outcomes| && outcomes[i] == Some(e) {
          var i :| 0 <= i < |outcomes| && outcomes[i] == Some(e);
          if i < |init| {
            assert init[i] == outcomes[i];
          }
        }
        if exists i :: 0 <= i < |init| && init[i] == Some(e) {
          var i :| 0 <= i < |init| && init[i] == Some(e);
          assert outcomes[i] == init[i];
        }
      }
    }
  }

  /** The exceptions of a concatenation of snapshots are those of each, in order. */
  lemma FailuresConcat(a: seq<Image>, b: seq<Image>, s: Settings, env: Env)
    requires 0 < s.size
    ensures Failures(a + b, s, env) == Failures(a, s, env) + Failures(b, s, env)
  {
    assert Outcomes(a + b, s, env) == Outcomes(a, s, env) + Outcomes(b, s, env);
    CollectConcat(Outcomes(a, s, env), Outcomes(b, s, env));
  }

  /** `process` answers ok exactly when no image threw. */
  lemma FailuresEmptyIff(images: seq<Image>, s: Settings, env: Env)
    requires 0 < s.size
    ensures Failures(images, s, env) == [] <==> forall i :: 0 <= i < |images| ==> ImageRun(images[i], s, env).error.None?
    ensures ResponseFor(Failures(images, s, env)) == Processed <==> Failures(images, s, env) == []
  {
    var outcomes := Outcomes(images, s, env);
    CollectEmptyIff(outcomes);
    if forall i :: 0 <= i < |images| ==> ImageRun(images[i], s, env).error.None? {
      forall i | 0 <= i < |outcomes| ensures outcomes[i].None? {
        assert outcomes[i] == ImageRun(images[i], s, env).error;
      }
    } else {
      var i :| 0 <= i < |images| && ImageRun(images[i], s, env).error.Some?;
      assert outcomes[i].Some?;
    }
  }

  /** Every exception comes from an image of the snapshot, and each image that threw
      contributes its exception. */
  lemma FailuresFrom(images: seq<Image>, s: Settings, env: Env)
    requires 0 < s.size
    ensures forall e :: e in Failures(images, s, env) <==>
      exists i :: 0 <= i < |images| && ImageRun(images[i], s, env).error == Some(e)
  {
    var outcomes := Outcomes(images, s, env);
    CollectFrom(outcomes);
    forall e ensures (exists i :: 0 <= i < |outcomes| && outcomes[i] == Some(e)) <==>
      exists i :: 0 <= i < |images| && ImageRun(images[i], s, env).error == Some(e)
    {
      if exists i :: 0 <= i < |images| && ImageRun(images[i], s, env).error == Some(e) {
        var i :| 0 <= i < |images| && ImageRun(images[i], s, env).error == Some(e);
        assert outcomes[i] == Some(e);
      }
    }
  }

  /** Some image of the snapshot with id `j` succeeded. */
  predicate Dropped(images: seq<Image>, outcomes: seq<Option<Failure>>, j: nat)
    requires |outcomes| == |images|
  {
    exists i :: 0 <= i < |images| && images[i].id == j && outcomes[i].None?
  }

  lemma DroppedSnoc(images: seq<Image>, outcomes: seq<Option<Failure>>, j: nat)
    requires |outcomes| == |images| && images != []
    ensures var n := |images| - 1;
      Dropped(images, outcomes, j) <==>
        Dropped(images[..n], outcomes[..n], j) || (images[n].id == j && outcomes[n].None?)
  {
    var n := |images| - 1;
    if Dropped(images, outcomes, j) {
      var i :| 0 <= i < |images| && images[i].id == j && outcomes[i].None?;
      if i < n {
        assert images[..n][i] == images[i] && outcomes[..n][i] == outcomes[i];
      }
    }
    if Dropped(images[..n], outcomes[..n], j) {
      var i :| 0 <= i < n && images[..n][i].id == j && outcomes[..n][i].None?;
      assert images[i] == images[..n][i];
    }
  }

  /** The original with id `j` is dropped: some image of the snapshot had that id,
      succeeded, and `discardOriginal` is set. */
  predicate Discarded(images: seq<Image>, j: nat, s: Settings, env: Env)
    requires 0 < s.size
  {
    s.discardOriginal && Dropped(images, Outcomes(images, s, env), j)
  }

  /** One image adds a block of fresh ids and drops at most its own id. */
  lemma AfterImageIds(mid: ItemState, img: Image, n: nat, s: Settings, env: Env)
    requires 0 < s.size && WellFormed(mid) && img.id < n <= mid.nextId
    ensures var after, run := AfterImage(mid, img, s, env), ImageRun(img, s, env);
      && WellFormed(after) && after.nextId == mid.nextId + |run.outputs|
      && (forall j: nat :: j < n ==>
            (HasId(after.contents, j) <==> HasId(mid.contents, j) && !(s.discardOriginal && run.error.None? && img.id == j)))
      && (forall j: nat :: n <= j ==> (HasId(after.contents, j) <==> HasId(mid.contents, j) || mid.nextId <= j < after.nextId))
  {
    var run := ImageRun(img, s, env);
    CreatedWellFormed(mid, run.outputs);
    if run.error.None? && s.discardOriginal {
      RemoveIdWellFormed(Created(mid, run.outputs), img.id);
    }
  }

  /** After processing a snapshot whose ids were handed out before, a content that was
      there before stays exactly when it was not discarded, and every created content stays. */
  lemma {:induction false} AfterAllIds(st: ItemState, images: seq<Image>, s: Settings, env: Env)
    requires 0 < s.size && WellFormed(st) && IdsBelow(images, st.nextId)
    ensures var after := AfterAll(st, images, s, env);
      && WellFormed(after) && st.nextId <= after.nextId
      && (forall j: nat :: j < st.nextId ==> (HasId(after.contents, j) <==> HasId(st.contents, j) && !Discarded(images, j, s, env)))
      && (forall j: nat :: st.nextId <= j ==> (HasId(after.contents, j) <==> j < after.nextId))
    decreases |images|
  {
    if images == [] {
      forall x | x in st.contents ensures x.id < st.nextId {
        var i :| 0 <= i < |st.contents| && st.contents[i] == x;
      }
    } else {
      var init := images[..|images| - 1];
      var img := images[|images| - 1];
      assert IdsBelow(init, st.nextId) by {
        forall i | 0 <= i < |init| ensures init[i].id < st.nextId { assert init[i] == images[i]; }
      }
      AfterAllIds(st, init, s, env);
      AfterImageIds(AfterAll(st, init, s, env), img, st.nextId, s, env);
      var outcomes := Outcomes(images, s, env);
      assert outcomes[..|images| - 1] == Outcomes(init, s, env);
      assert outcomes[|images| - 1] == ImageRun(img, s, env).error;
      forall j: nat | j < st.nextId
        ensures Discarded(images, j, s, env) <==>
          Discarded(init, j, s, env) || (s.discardOriginal && ImageRun(img, s, env).error.None? && img.id == j)
      {
        DroppedSnoc(images, outcomes, j);
      }
    }
  }

  /** `process` removes an original exactly when that image succeeded and
      `discardOriginal` is set; the contents it created all stay. */
  lemma RemovedIff(st: ItemState, s: Settings, env: Env)
    requires 0 < s.size && WellFormed(st)
    ensures var after := AfterAll(st, st.contents, s, env);
      && (forall k :: 0 <= k < |st.contents| ==>
            (HasId(after.contents, st.contents[k].id) <==>
             !(s.discardOriginal && ImageRun(st.contents[k], s, env).error.None?)))
      && (forall j: nat :: st.nextId <= j < after.nextId ==> HasId(after.contents, j))
  {
    var images := st.contents;
    AfterAllIds(st, images, s, env);
    forall k | 0 <= k < |images|
      ensures Discarded(images, images[k].id, s, env) <==> s.discardOriginal && ImageRun(images[k], s, env).error.None?
    {
      var outcomes := Outcomes(images, s, env);
      assert outcomes[k] == ImageRun(images[k], s, env).error;
      if Dropped(images, outcomes, images[k].id) {
        var i :| 0 <= i < |images| && images[i].id == images[k].id && outcomes[i].None?;
        assert i == k;
      }
    }
  }
}
