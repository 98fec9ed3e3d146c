/** Orientation handling: the Orientation tag (274, 0x0112) of TIFF 6.0
    section 8 as Exif reuses it. Codes 5 to 8 exchange the two axes; each
    code selects one affine matrix composed onto the canvas transform. The
    tag value is not range-checked anywhere, so every integer is accepted
    and a code outside 1..8 adds no transform and exchanges nothing. */
module Exif {
  import opened Wrappers
  import opened Canvas

  datatype Dimensions = Dimensions(width: nat, height: nat)

  /** Codes whose upright picture is the stored one turned a quarter turn. */
  predicate SwapsAxes(orientation: int) {
    5 <= orientation <= 8
  }

  /** Width and height of the upright picture for a stored `width` x `height`. */
  function GetOrientedDimensions(width: nat, height: nat, orientation: int): (d: Dimensions)
    ensures d.width * d.height == width * height
    ensures multiset{d.width, d.height} == multiset{width, height}
  {
    if SwapsAxes(orientation) then Dimensions(height, width) else Dimensions(width, height)
  }

  /** On a non-square picture the axes are exchanged exactly for codes 5 to 8. */
  lemma OrientedDimensionsSwapIff(width: nat, height: nat, orientation: int)
    requires width != height
    ensures GetOrientedDimensions(width, height, orientation).width == height <==> 5 <= orientation <= 8
    ensures GetOrientedDimensions(width, height, orientation).height == width <==> 5 <= orientation <= 8
  {
  }

  /** Orienting twice with the same code gives back the stored size. */
  lemma OrientedDimensionsInvolution(width: nat, height: nat, orientation: int)
    ensures var d := GetOrientedDimensions(width, height, orientation);
            GetOrientedDimensions(d.width, d.height, orientation) == Dimensions(width, height)
  {
  }

  // ---------------------------------------------------------------------------
  // The eight transforms
  // ---------------------------------------------------------------------------

  /** The matrix composed for a code, given the width and height passed in;
      none for code 1 and for every value outside 1..8. */
  function OrientationMatrix(orientation: int, width: real, height: real): (m: Option<Matrix>)
    ensures m.None? <==> !(2 <= orientation <= 8)
  {
    match orientation
    case 2 => Some(Matrix(-1.0, 0.0, 0.0, 1.0, width, 0.0))      // flip horizontal
    case 3 => Some(Matrix(-1.0, 0.0, 0.0, -1.0, width, height))  // rotate 180
    case 4 => Some(Matrix(1.0, 0.0, 0.0, -1.0, 0.0, height))     // flip vertical
    case 5 => Some(Matrix(0.0, 1.0, 1.0, 0.0, 0.0, 0.0))         // transpose
    case 6 => Some(Matrix(0.0, 1.0, -1.0, 0.0, height, 0.0))     // quarter turn clockwise
    case 7 => Some(Matrix(0.0, -1.0, -1.0, 0.0, height, width))  // transverse
    case 8 => Some(Matrix(0.0, -1.0, 1.0, 0.0, 0.0, width))      // quarter turn counter-clockwise
    case _ => None
  }

  /** What `applyOrientationTransform` adds to the transform list. */
  function OrientationOps(orientation: int, width: real, height: real): (ops: seq<TransformOp>)
    ensures |ops| <= 1
    ensures ops == [] <==> !(2 <= orientation <= 8)
  {
    match OrientationMatrix(orientation, width, height)
    case Some(m) => [TransformOp.Transform(m)]
    case None => []
  }

  const Identity := Matrix(1.0, 0.0, 0.0, 1.0, 0.0, 0.0)

  /** The overall effect of the code on points: its matrix, or the identity. */
  function EffectiveMatrix(orientation: int, width: real, height: real): Matrix {
    OrientationMatrix(orientation, width, height).GetOr(Identity)
  }

  /** Composes the matrix of `orientation` onto the current transform. */
  method ApplyOrientationTransform(ctx: Context, width: real, height: real, orientation: int)
    modifies ctx
    ensures ctx.state == old(ctx.state).(transform := old(ctx.state).transform + OrientationOps(orientation, width, height))
    ensures ctx.stack == old(ctx.stack) && ctx.log == old(ctx.log)
  {
    match orientation {
      case 1 =>
      case 2 => ctx.Transform(-1.0, 0.0, 0.0, 1.0, width, 0.0);
      case 3 => ctx.Transform(-1.0, 0.0, 0.0, -1.0, width, height);
      case 4 => ctx.Transform(1.0, 0.0, 0.0, -1.0, 0.0, height);
      case 5 => ctx.Transform(0.0, 1.0, 1.0, 0.0, 0.0, 0.0);
      case 6 => ctx.Transform(0.0, 1.0, -1.0, 0.0, height, 0.0);
      case 7 => ctx.Transform(0.0, -1.0, -1.0, 0.0, height, width);
      case 8 => ctx.Transform(0.0, -1.0, 1.0, 0.0, 0.0, width);
      case _ =>
    }
  }

  // ---------------------------------------------------------------------------
  // Geometry of the transforms
  // ---------------------------------------------------------------------------

  function Det(m: Matrix): real {
    m.a * m.d - m.b * m.c
  }

  predicate IsUnit(v: real) {
    v == 1.0 || v == -1.0
  }

  /** The linear part moves each axis onto an axis, possibly reversed. */
  predicate IsSignedPermutation(m: Matrix) {
    || (IsUnit(m.a) && IsUnit(m.d) && m.b == 0.0 && m.c == 0.0)
    || (IsUnit(m.b) && IsUnit(m.c) && m.a == 0.0 && m.d == 0.0)
  }

  /** The codes documented as including a flip. */
  predicate Mirrored(orientation: int) {
    orientation == 2 || orientation == 4 || orientation == 5 || orientation == 7
  }

  /** Every code moves axes onto axes; it reverses handedness exactly for the
      mirrored codes 2, 4, 5 and 7. */
  lemma OrientationIsSignedPermutation(orientation: int, width: real, height: real)
    ensures IsSignedPermutation(EffectiveMatrix(orientation, width, height))
    ensures Det(EffectiveMatrix(orientation, width, height)) == if Mirrored(orientation) then -1.0 else 1.0
  {
    var m := EffectiveMatrix(orientation, width, height);
    if 2 <= orientation <= 8 {
      assert m == OrientationMatrix(orientation, width, height).value;
    } else {
      assert m == Identity;
    }
  }

  function Corners(width: real, height: real): set<Point> {
    {Point(0.0, 0.0), Point(width, 0.0), Point(0.0, height), Point(width, height)}
  }

  /** Where the corners of the `width` x `height` rectangle at the origin go. */
  function CornerImage(m: Matrix, width: real, height: real): set<Point> {
    {Apply(m, Point(0.0, 0.0)), Apply(m, Point(width, 0.0)), Apply(m, Point(0.0, height)), Apply(m, Point(width, height))}
  }

  predicate InRect(p: Point, width: real, height: real) {
    0.0 <= p.x <= width && 0.0 <= p.y <= height
  }

  /** The rectangle a `width` x `height` drawing lands on: the same one for
      codes other than 5..8, the transposed one for 5..8. */
  function TargetSize(orientation: int, width: real, height: real): Point {
    if SwapsAxes(orientation) then Point(height, width) else Point(width, height)
  }

  /** The inverse of the transform of a code. */
  function Preimage(orientation: int, width: real, height: real, q: Point): Point {
    match orientation
    case 2 => Point(width - q.x, q.y)
    case 3 => Point(width - q.x, height - q.y)
    case 4 => Point(q.x, height - q.y)
    case 5 => Point(q.y, q.x)
    case 6 => Point(q.y, height - q.x)
    case 7 => Point(width - q.y, height - q.x)
    case 8 => Point(width - q.y, q.x)
    case _ => q
  }

  /** The transform of a code maps the corners of the rectangle
      [0,width] x [0,height] onto the corners of the target rectangle. */
  lemma OrientationMapsCorners(orientation: int, width: real, height: real)
    ensures var t := TargetSize(orientation, width, height);
            CornerImage(EffectiveMatrix(orientation, width, height), width, height) == Corners(t.x, t.y)
  {
    var m := EffectiveMatrix(orientation, width, height);
    var t := TargetSize(orientation, width, height);
    var o, w, h := Point(0.0, 0.0), Point(width, 0.0), Point(0.0, height);
    var wh := Point(width, height);
    if orientation == 2 {
      assert Apply(m, o) == Point(width, 0.0) && Apply(m, w) == o && Apply(m, h) == wh && Apply(m, wh) == h;
    } else if orientation == 3 {
      assert Apply(m, o) == wh && Apply(m, w) == h && Apply(m, h) == w && Apply(m, wh) == o;
    } else if orientation == 4 {
      assert Apply(m, o) == h && Apply(m, w) == wh && Apply(m, h) == o && Apply(m, wh) == w;
    } else if orientation == 5 {
      assert Apply(m, o) == o && Apply(m, w) == Point(0.0, width) && Apply(m, h) == Point(height, 0.0);
      assert Apply(m, wh) == Point(height, width);
    } else if orientation == 6 {
      assert Apply(m, o) == Point(height, 0.0) && Apply(m, w) == Point(height, width) && Apply(m, h) == o;
      assert Apply(m, wh) == Point(0.0, width);
    } else if orientation == 7 {
      assert Apply(m, o) == Point(height, width) && Apply(m, w) == Point(height, 0.0) && Apply(m, h) == Point(0.0, width);
      assert Apply(m, wh) == o;
    } else if orientation == 8 {
      assert Apply(m, o) == Point(0.0, width) && Apply(m, w) == o && Apply(m, h) == Point(height, width);
      assert Apply(m, wh) == Point(height, 0.0);
    } else {
      assert m == Identity;
      assert Apply(m, o) == o && Apply(m, w) == w && Apply(m, h) == h && Apply(m, wh) == wh;
    }
  }

  /** Every point of the rectangle [0,width] x [0,height] lands in the target
      rectangle, and `Preimage` undoes the transform. */
  lemma OrientationMapsInto(orientation: int, width: real, height: real, p: Point)
    requires InRect(p, width, height)
    ensures var t := TargetSize(orientation, width, height);
            var q := Apply(EffectiveMatrix(orientation, width, height), p);
            InRect(q, t.x, t.y) && Preimage(orientation, width, height, q) == p
  {
  }

  /** Every point of the target rectangle is the image of a point of the
      rectangle [0,width] x [0,height]: the transform is onto. */
  lemma OrientationMapsOnto(orientation: int, width: real, height: real, q: Point)
    requires var t := TargetSize(orientation, width, height); InRect(q, t.x, t.y)
    ensures var p := Preimage(orientation, width, height, q);
            InRect(p, width, height) && Apply(EffectiveMatrix(orientation, width, height), p) == q
  {
  }

  /** For codes 5..8 the drawing lands on the canvas rectangle only when the
      canvas is square. */
  lemma SwappedDrawingFitsOnlySquare(orientation: int, width: real, height: real)
    requires 5 <= orientation <= 8 && width >= 0.0 && height >= 0.0
    ensures CornerImage(EffectiveMatrix(orientation, width, height), width, height) == Corners(width, height)
            <==> width == height
  {
    OrientationMapsCorners(orientation, width, height);
    if width != height {
      if height != 0.0 {
        assert Point(height, 0.0) in Corners(height, width);
        assert Point(height, 0.0) !in Corners(width, height);
      } else {
        assert Point(width, 0.0) in Corners(width, height);
        assert Point(width, 0.0) !in Corners(height, width);
      }
    }
  }

  /** A 3000 x 4000 canvas with code 6: the corner drawn for the origin
      lands at x = 4000, outside the 3000-pixel-wide canvas. */
  lemma QuarterTurnOverflowsPortraitCanvas()
    ensures var m := EffectiveMatrix(6, 3000.0, 4000.0);
            Apply(m, Point(0.0, 0.0)) == Point(4000.0, 0.0)
            && !InRect(Apply(m, Point(0.0, 0.0)), 3000.0, 4000.0)
  {
  }

  // ---------------------------------------------------------------------------
  // Reading the tag and loading
  // ---------------------------------------------------------------------------

  /** What the tag reader produced: it threw, or it returned the tags, in
      which the Orientation value may be missing. */
  datatype TagRead = ReadFailed | Tags(orientation: Option<int>)

  /** `getExifOrientation`: a missing or zero value and a failed read give 1;
      any other value is passed through unchecked. */
  function GetExifOrientation(read: TagRead): (orientation: int)
    ensures orientation == 1 <==>
      read.ReadFailed? || read.orientation.None? || read.orientation.value == 0 || read.orientation.value == 1
    ensures orientation != 1 ==> read == Tags(Some(orientation))
  {
    match read
    case ReadFailed => 1
    case Tags(value) => if value.None? || value.value == 0 then 1 else value.value
  }

  /** A decoded image, known by its natural size. */
  datatype Image = Image(naturalWidth: nat, naturalHeight: nat)

  datatype ImageWithOrientation = ImageWithOrientation(image: Image, orientation: int, width: nat, height: nat)

  datatype LoadError = ImageLoadFailed

  /** `loadImageWithOrientation`: `loaded` is the outcome of decoding the
      file, `read` that of reading its tags. Decoding failure rejects. */
  function LoadImageWithOrientation(loaded: Option<Image>, read: TagRead, applyRotation: bool)
    : (r: Result<ImageWithOrientation, LoadError>)
    ensures r.Failure? <==> loaded.None?
    ensures r.Success? ==> r.value.image == loaded.value
    ensures r.Success? && !applyRotation ==>
      r.value.orientation == 1 && r.value.width == loaded.value.naturalWidth && r.value.height == loaded.value.naturalHeight
    ensures r.Success? && applyRotation ==> r.value.orientation == GetExifOrientation(read)
    ensures r.Success? ==>
      Dimensions(r.value.width, r.value.height)
        == GetOrientedDimensions(loaded.value.naturalWidth, loaded.value.naturalHeight, r.value.orientation)
  {
    match loaded
    case None => Failure(ImageLoadFailed)
    case Some(image) =>
      var actual := if applyRotation then GetExifOrientation(read) else 1;
      var d := GetOrientedDimensions(image.naturalWidth, image.naturalHeight, actual);
      Success(ImageWithOrientation(image, actual, d.width, d.height))
  }

  /** A length in pixels times a non-negative scale, cut to a whole number
      of pixels as a canvas dimension is. */
  function ScaledPixels(n: nat, scale: real): (r: nat)
    requires scale >= 0.0
    ensures r as real <= n as real * scale < r as real + 1.0
  {
    MulNonneg(n as real, scale);
    (n as real * scale).Floor
  }

  lemma MulNonneg(a: real, b: real)
    requires a >= 0.0 && b >= 0.0
    ensures a * b >= 0.0
  {
  }

  /** `createOrientedCanvas`: a canvas of the oriented size times `scale`
      (a pixel count is the whole part), the scale composed first, then the
      orientation transform, then the image drawn at the oriented size.
      `contextAvailable` says whether `getContext('2d')` succeeds. */
  method CreateOrientedCanvas(image: Image, orientation: int, scale: real, contextAvailable: bool,
                              measure: (Font, string) -> Width)
    returns (r: Result<Context, string>)
    requires scale >= 0.0
    ensures r.Failure? <==> !contextAvailable
    ensures r.Failure? ==> r.error == "Failed to get canvas 2D context"
    ensures r.Success? ==>
      var d := GetOrientedDimensions(image.naturalWidth, image.naturalHeight, orientation);
      var w, h := d.width as real, d.height as real;
      var ctx := r.value;
      && fresh(ctx)
      && ctx.width == ScaledPixels(d.width, scale) && ctx.height == ScaledPixels(d.height, scale)
      && ctx.stack == []
      && ctx.state == InitialState.(transform :=
           (if scale != 1.0 then [TransformOp.Scale(scale, scale)] else []) + OrientationOps(orientation, w, h))
      && ctx.log == [DrawImage(0.0, 0.0, w, h, ctx.state)]
  {
    var d := GetOrientedDimensions(image.naturalWidth, image.naturalHeight, orientation);
    var w, h := d.width as real, d.height as real;
    if !contextAvailable {
      return Failure("Failed to get canvas 2D context");
    }
    var ctx := new Context(ScaledPixels(d.width, scale), ScaledPixels(d.height, scale), measure);
    if scale != 1.0 {
      ctx.Scale(scale, scale);
    }
    ApplyOrientationTransform(ctx, w, h, orientation);
    ctx.DrawImage(0.0, 0.0, w, h);
    r := Success(ctx);
  }
}
