/**
  Renderer::RenderSSAA for an integral supersampling level L >= 1: the output
  grid is L times wider and taller than the image; each output pixel averages
  L * L traced samples taken from the camera's ray directions.
 */
module Supersample {
  import opened Common
  import opened Color
  import opened PixelFormat
  import opened Tracer
  import opened Grid
  import opened Renderer

  type Level = l: nat | l >= 1 witness 1

  /** Which source ray a sub-sample reads. */
  datatype Sampling =
    | AsWritten    // column (x + subX) / L, row (y + subY) / L, unchecked
    | ClampToEdge  // the same, clamped to the last column and row of the image

  /** The image dimensions, the level and the sampling rule of one supersampled frame. */
  datatype Plan = Plan(sampling: Sampling, width: nat, height: nat, level: Level) {
    /** newWidth = width * L */
    function OutWidth(): nat { width * level }
    /** newHeight = height * L */
    function OutHeight(): nat { height * level }
  }

  /**
    a / d rounded down, by repeated subtraction. FloorDivIsDiv shows it is
    Dafny's `/`; the recursive form keeps division by a variable level out of
    the sample-index reasoning.
   */
  function FloorDiv(a: nat, d: Level): nat
    decreases a
  {
    if a < d then 0 else 1 + FloorDiv(a - d, d)
  }

  /** FloorDiv(a, d) is the q with q * d <= a < q * d + d. */
  lemma {:induction false} FloorDivBounds(a: nat, d: Level)
    ensures FloorDiv(a, d) * d <= a < FloorDiv(a, d) * d + d
  {
    if a >= d {
      FloorDivBounds(a - d, d);
      var q := FloorDiv(a - d, d);
      assert (q + 1) * d == q * d + d;
    }
  }

  /** FloorDiv agrees with Dafny's floor division on naturals. */
  lemma FloorDivIsDiv(a: nat, d: Level)
    ensures FloorDiv(a, d) == a / d
  {
    FloorDivBounds(a, d);
    var q := FloorDiv(a, d);
    assert (q - a / d) * d == a % d - (a - q * d);
    ZeroMultiple(q - a / d, d);
  }

  /** `(uint32_t)((x + sub) * (1 / L))` for an integral level: the q with q * L <= x + sub < q * L + L. */
  function SampleCoord(x: nat, sub: nat, level: Level): (q: nat)
    ensures q * level <= x + sub < q * level + level
  {
    FloorDivBounds(x + sub, level);
    FloorDiv(x + sub, level)
  }

  /** The coordinate v, or the last valid coordinate n - 1 when v lies past it. */
  function ClampCoord(v: nat, n: nat): (c: nat)
    ensures n > 0 ==> c < n
    ensures v < n ==> c == v
    ensures c <= v
  {
    if v < n || n == 0 then v else n - 1
  }

  /**
    The camera ray a sub-sample of output pixel (x, y) reads. Clamped, it is a
    ray of a non-empty image; as written, a sub-sample of an output pixel can
    reach at most one row past the image's width * height rays.
   */
  function SampleIndex(plan: Plan, x: nat, y: nat, subX: nat, subY: nat): (i: nat)
    ensures plan.sampling == ClampToEdge && plan.width >= 1 && plan.height >= 1 ==> i < plan.width * plan.height
    ensures x < plan.OutWidth() && y < plan.OutHeight() && subX < plan.level && subY < plan.level
            ==> i <= plan.width + plan.height * plan.width
  {
    var col := SampleCoord(x, subX, plan.level);
    var row := SampleCoord(y, subY, plan.level);
    var c := if plan.sampling == ClampToEdge then ClampCoord(col, plan.width) else col;
    var r := if plan.sampling == ClampToEdge then ClampCoord(row, plan.height) else row;
    SlotBound(c, r, plan.width, plan.height);
    if x < plan.OutWidth() && y < plan.OutHeight() && subX < plan.level && subY < plan.level then
      SampleCoordBound(x, subX, plan.width, plan.level);
      SampleCoordBound(y, subY, plan.height, plan.level);
      Index(c, r, plan.width)
    else
      Index(c, r, plan.width)
  }

  lemma SlotBound(c: nat, r: nat, width: nat, height: nat)
    ensures c < width && r < height ==> Index(c, r, width) < width * height
    ensures c <= width && r <= height ==> Index(c, r, width) <= width + height * width
  {
    if c < width && r < height {
      IndexInRange(c, r, width, height);
    }
    if r <= height {
      MulLeq(r, height, width);
    }
  }

  lemma {:induction false} FloorDivByOne(a: nat)
    ensures FloorDiv(a, 1) == a
  {
    if a >= 1 {
      FloorDivByOne(a - 1);
    }
  }

  /** a < q * L implies FloorDiv(a, L) < q. */
  lemma DivBelow(a: nat, q: nat, level: Level)
    requires a < q * level
    ensures FloorDiv(a, level) < q
  {
    FloorDivBounds(a, level);
    var d := FloorDiv(a, level);
    if d >= q {
      MulLeq(q, d, level);
    }
  }

  /** For x inside the output grid, the sampled column is at most width: one past the last column. */
  lemma SampleCoordBound(x: nat, sub: nat, width: nat, level: Level)
    requires x < width * level && sub < level
    ensures SampleCoord(x, sub, level) <= width
  {
    assert (width + 1) * level == width * level + level;
    DivBelow(x + sub, width + 1, level);
  }

  /** For L >= 2 the last output column's last sub-sample reads column `width`, past the row. */
  lemma SampleCoordPastRow(width: nat, level: Level)
    requires width >= 1 && level >= 2
    ensures width * level - 1 < width * level
    ensures SampleCoord(width * level - 1, level - 1, level) == width
  {
    MulLeq(1, width, level);
    var a := width * level - 1 + (level - 1);
    FloorDivBounds(a, level);
    var q := FloorDiv(a, level);
    assert (q - width) * level == q * level - width * level;
    ZeroMultiple(q - width, level);
  }

  /** Every sub-sample of every output pixel stays inside the row exactly when L = 1. */
  lemma SampleCoordInRowIffSingle(width: nat, level: Level)
    requires width >= 1
    ensures (forall x: nat, sub: nat :: x < width * level && sub < level ==> SampleCoord(x, sub, level) < width)
            <==> level == 1
  {
    if level >= 2 {
      SampleCoordPastRow(width, level);
    } else {
      forall x: nat, sub: nat | x < width * level && sub < level
        ensures SampleCoord(x, sub, level) < width
      {
        FloorDivByOne(x + sub);
      }
    }
  }

  /**
    As written, for L >= 2 the bottom-right output pixel reads ray index
    width + height * width, past the camera's width * height directions.
   */
  lemma AsWrittenReadsPastEnd(width: nat, height: nat, level: Level)
    requires width >= 1 && height >= 1 && level >= 2
    ensures var plan := Plan(AsWritten, width, height, level);
            && width * level - 1 < plan.OutWidth()
            && height * level - 1 < plan.OutHeight()
            && SampleIndex(plan, width * level - 1, height * level - 1, level - 1, level - 1) == width + height * width
            && width + height * width >= width * height
  {
    SampleCoordPastRow(width, level);
    SampleCoordPastRow(height, level);
  }

  /** Sub-samples 0 .. n - 1 of sub-row subY of output pixel (x, y) read existing rays. */
  ghost predicate RowInRange(camera: Camera, plan: Plan, x: nat, y: nat, subY: nat, n: nat) {
    forall subX :: 0 <= subX < n ==> SampleIndex(plan, x, y, subX, subY) < |camera.directions|
  }

  /** Sub-rows 0 .. m - 1 of output pixel (x, y) read existing rays. */
  ghost predicate PrefixInRange(camera: Camera, plan: Plan, x: nat, y: nat, m: nat) {
    forall subY :: 0 <= subY < m ==> RowInRange(camera, plan, x, y, subY, plan.level)
  }

  /** All L * L sub-samples of output pixel (x, y) read existing rays. */
  ghost predicate SamplesInRange(camera: Camera, plan: Plan, x: nat, y: nat) {
    PrefixInRange(camera, plan, x, y, plan.level)
  }

  /** Every output pixel's sub-samples read existing rays. */
  ghost predicate AllSamplesInRange(camera: Camera, plan: Plan) {
    forall x: nat, y: nat :: x < plan.OutWidth() && y < plan.OutHeight() ==> SamplesInRange(camera, plan, x, y)
  }

  /** The colour traced for one sub-sample. */
  function SubSample(camera: Camera, trace: Ray -> Rgba, plan: Plan, x: nat, y: nat, subX: nat, subY: nat): Rgba
    requires SampleIndex(plan, x, y, subX, subY) < |camera.directions|
  {
    trace(PixelRay(camera, SampleIndex(plan, x, y, subX, subY)))
  }

  /** The colour of a sub-sample, or None when its ray index lies past the camera's directions. */
  function SampleColour(camera: Camera, trace: Ray -> Rgba, plan: Plan, x: nat, y: nat, subX: nat, subY: nat): (c: Option<Rgba>)
    ensures c.Some? <==> SampleIndex(plan, x, y, subX, subY) < |camera.directions|
  {
    if SampleIndex(plan, x, y, subX, subY) < |camera.directions| then
      Some(SubSample(camera, trace, plan, x, y, subX, subY))
    else
      None
  }

  /** The colours of sub-samples 0 .. n - 1 of sub-row subY, added in loop order to vec4(0). */
  function RowSum(camera: Camera, trace: Ray -> Rgba, plan: Plan, x: nat, y: nat, subY: nat, n: nat): (c: Rgba)
    requires RowInRange(camera, plan, x, y, subY, n)
    ensures Opaque(trace) ==> c.a == n as real
  {
    if n == 0 then Transparent
    else Add(RowSum(camera, trace, plan, x, y, subY, n - 1), SubSample(camera, trace, plan, x, y, n - 1, subY))
  }

  /** The colours of all sub-samples of sub-rows 0 .. m - 1, added in loop order. */
  function GridSum(camera: Camera, trace: Ray -> Rgba, plan: Plan, x: nat, y: nat, m: nat): (c: Rgba)
    requires PrefixInRange(camera, plan, x, y, m)
    ensures Opaque(trace) ==> c.a == (m * plan.level) as real
  {
    if m == 0 then Transparent
    else
      var c := Add(GridSum(camera, trace, plan, x, y, m - 1), RowSum(camera, trace, plan, x, y, m - 1, plan.level));
      assert (m - 1) * plan.level + plan.level == m * plan.level;
      c
  }

  lemma LevelSquarePositive(level: Level)
    ensures level * level >= 1
  {
    MulLeq(1, level, level);
  }

  /** `color /= sampleCount` with sampleCount = L * L: the mean of the sub-samples. */
  function Average(camera: Camera, trace: Ray -> Rgba, plan: Plan, x: nat, y: nat): (c: Rgba)
    requires SamplesInRange(camera, plan, x, y)
    ensures Opaque(trace) ==> c.a == 1.0
  {
    LevelSquarePositive(plan.level);
    var k := (plan.level * plan.level) as real;
    var sum := GridSum(camera, trace, plan, x, y, plan.level);
    assert Opaque(trace) ==> sum.a / k == 1.0;
    Divide(sum, k)
  }

  /** The packed pixel RenderSSAA stores for output pixel (x, y): average, clamp, convert. */
  function SsaaPixel(camera: Camera, trace: Ray -> Rgba, plan: Plan, x: nat, y: nat): (p: bv32)
    requires SamplesInRange(camera, plan, x, y)
    ensures Opaque(trace) ==> ChannelOf(p, Alpha) == 0xFF
  {
    var c := Clamp(Average(camera, trace, plan, x, y));
    OpaqueTopByte(c);
    ConvertToRgba(c)
  }

  /** Adding n copies of c to vec4(0) gives n * c. */
  lemma {:induction false} RowSumUniform(camera: Camera, trace: Ray -> Rgba, plan: Plan, x: nat, y: nat, subY: nat, n: nat, c: Rgba)
    requires RowInRange(camera, plan, x, y, subY, n)
    requires forall subX :: 0 <= subX < n ==> SampleColour(camera, trace, plan, x, y, subX, subY) == Some(c)
    ensures RowSum(camera, trace, plan, x, y, subY, n) == Scale(c, n as real)
  {
    if n == 0 {
      assert Scale(c, 0.0) == Transparent;
    } else {
      RowSumUniform(camera, trace, plan, x, y, subY, n - 1, c);
      assert SampleColour(camera, trace, plan, x, y, n - 1, subY) == Some(c);
      ScaleSucc(c, (n - 1) as real);
    }
  }

  lemma {:induction false} GridSumUniform(camera: Camera, trace: Ray -> Rgba, plan: Plan, x: nat, y: nat, m: nat, c: Rgba)
    requires PrefixInRange(camera, plan, x, y, m)
    requires forall subX, subY :: 0 <= subX < plan.level && 0 <= subY < m ==>
               SampleColour(camera, trace, plan, x, y, subX, subY) == Some(c)
    ensures GridSum(camera, trace, plan, x, y, m) == Scale(c, (m * plan.level) as real)
  {
    if m == 0 {
      assert Scale(c, 0.0) == Transparent;
    } else {
      GridSumUniform(camera, trace, plan, x, y, m - 1, c);
      assert RowInRange(camera, plan, x, y, m - 1, plan.level);
      RowSumUniform(camera, trace, plan, x, y, m - 1, plan.level, c);
      AddScales(c, ((m - 1) * plan.level) as real, plan.level as real);
      assert (m - 1) * plan.level + plan.level == m * plan.level;
    }
  }

  /** Averaging L * L identical colours returns that colour. */
  lemma UniformAverage(camera: Camera, trace: Ray -> Rgba, plan: Plan, x: nat, y: nat, c: Rgba)
    requires SamplesInRange(camera, plan, x, y)
    requires forall subX, subY :: 0 <= subX < plan.level && 0 <= subY < plan.level ==>
               SampleColour(camera, trace, plan, x, y, subX, subY) == Some(c)
    ensures Average(camera, trace, plan, x, y) == c
  {
    GridSumUniform(camera, trace, plan, x, y, plan.level, c);
    LevelSquarePositive(plan.level);
    DivideScale(c, (plan.level * plan.level) as real);
  }

  /**
    At L = 1 a supersampled pixel is the plain frame pixel: its single
    sub-sample is the pixel's own ray, and dividing by one changes nothing.
   */
  lemma SingleLevelIsFramePixel(camera: Camera, trace: Ray -> Rgba, plan: Plan, x: nat, y: nat)
    requires plan.level == 1 && x < plan.width && y < plan.height
    requires plan.width * plan.height <= |camera.directions|
    ensures SamplesInRange(camera, plan, x, y)
    ensures Index(x, y, plan.width) < |camera.directions|
    ensures SsaaPixel(camera, trace, plan, x, y) == FramePixel(camera, trace, Index(x, y, plan.width))
  {
    IndexInRange(x, y, plan.width, plan.height);
    FloorDivByOne(x);
    FloorDivByOne(y);
    assert SampleIndex(plan, x, y, 0, 0) == Index(x, y, plan.width);
    assert RowInRange(camera, plan, x, y, 0, 1);
    var c := SubSample(camera, trace, plan, x, y, 0, 0);
    UniformAverage(camera, trace, plan, x, y, c);
  }

  /** At L = 1 on a consistent image every output pixel's sample is inside the camera's directions. */
  lemma SingleLevelInRange(camera: Camera, plan: Plan)
    requires plan.level == 1
    requires plan.width * plan.height <= |camera.directions|
    ensures AllSamplesInRange(camera, plan)
  {
    forall x: nat, y: nat | x < plan.OutWidth() && y < plan.OutHeight()
      ensures SamplesInRange(camera, plan, x, y)
    {
      var col, row := ClampCoord(x, plan.width), ClampCoord(y, plan.height);
      IndexInRange(col, row, plan.width, plan.height);
      FloorDivByOne(x);
      FloorDivByOne(y);
      assert RowInRange(camera, plan, x, y, 0, 1);
    }
  }

  /** With clamped sampling every sub-sample of every output pixel reads an existing ray. */
  lemma ClampedInRange(camera: Camera, plan: Plan)
    requires plan.sampling == ClampToEdge
    requires plan.width * plan.height <= |camera.directions|
    ensures AllSamplesInRange(camera, plan)
  {
    forall x: nat, y: nat | x < plan.OutWidth() && y < plan.OutHeight()
      ensures SamplesInRange(camera, plan, x, y)
    {
      forall subX: nat, subY: nat | 0 <= subX < plan.level && 0 <= subY < plan.level
        ensures SampleIndex(plan, x, y, subX, subY) < |camera.directions|
      {
      }
    }
  }

  /**
    The innermost loop of RenderSSAA: the sub-samples of sub-row subY of
    output pixel (x, y), traced and added to `color`, counted in `samples`.
   */
  method AccumulateRow(camera: Camera, trace: Ray -> Rgba, plan: Plan, x: nat, y: nat, subY: nat, color: Rgba)
    returns (r: Result<Rgba, Fault>, samples: nat)
    ensures r.Success? <==> RowInRange(camera, plan, x, y, subY, plan.level)
    ensures r.Success? ==> samples == plan.level
    ensures r.Success? ==> r.value == Add(color, RowSum(camera, trace, plan, x, y, subY, plan.level))
    ensures r.Failure? ==> r.error.RayReadOutOfRange? && r.error.index >= |camera.directions|
  {
    var sum := color;
    AddTransparent(color);
    samples := 0;
    var subX: nat := 0;
    while subX < plan.level
      invariant subX <= plan.level
      invariant RowInRange(camera, plan, x, y, subY, subX)
      invariant samples == subX
      invariant sum == Add(color, RowSum(camera, trace, plan, x, y, subY, subX))
    {
      var i := SampleIndex(plan, x, y, subX, subY);
      if i >= |camera.directions| {
        r := Failure(RayReadOutOfRange(i));
        return;
      }
      var sample := trace(PixelRay(camera, i));
      AddAssociative(color, RowSum(camera, trace, plan, x, y, subY, subX), sample);
      sum := Add(sum, sample);
      samples := samples + 1;
      subX := subX + 1;
    }
    r := Success(sum);
  }

  /**
    The two inner loops of RenderSSAA for output pixel (x, y): trace every
    sub-sample, count them, and divide the sum by the count.
   */
  method AccumulateSamples(camera: Camera, trace: Ray -> Rgba, plan: Plan, x: nat, y: nat)
    returns (r: Result<Rgba, Fault>, sampleCount: nat)
    ensures r.Success? <==> SamplesInRange(camera, plan, x, y)
    ensures r.Success? ==> sampleCount == plan.level * plan.level
    ensures r.Success? ==> r.value == Average(camera, trace, plan, x, y)
    ensures r.Failure? ==> r.error.RayReadOutOfRange? && r.error.index >= |camera.directions|
  {
    var color := Transparent;
    sampleCount := 0;
    var subY: nat := 0;
    while subY < plan.level
      invariant subY <= plan.level
      invariant PrefixInRange(camera, plan, x, y, subY)
      invariant sampleCount == subY * plan.level
      invariant color == GridSum(camera, trace, plan, x, y, subY)
    {
      var row, samples := AccumulateRow(camera, trace, plan, x, y, subY, color);
      if row.Failure? {
        r := Failure(row.error);
        return;
      }
      color := row.value;
      sampleCount := sampleCount + samples;
      assert (subY + 1) * plan.level == subY * plan.level + plan.level;
      subY := subY + 1;
    }
    LevelSquarePositive(plan.level);
    r := Success(Divide(color, sampleCount as real));
  }

  /**
    The plan RenderSSAA follows for an image of the given extent: a
    newWidth x newHeight output grid that is the image itself at L = 1 and
    holds more pixels than the image at any higher level.
   */
  function PlanFor(sampling: Sampling, e: Extent, level: Level): (plan: Plan)
    ensures level == 1 ==> plan.OutWidth() == e.width && plan.OutHeight() == e.height
    ensures level >= 2 && e.width >= 1 && e.height >= 1 ==> plan.OutWidth() * plan.OutHeight() > Area(e)
  {
    var plan := Plan(sampling, e.width, e.height, level);
    if level >= 2 && e.width >= 1 && e.height >= 1 then
      SupersampledAreaExceeds(e.width, e.height, level);
      plan
    else
      plan
  }

  /** Pixel p is what RenderSSAA stores in output slot i: the pixel at column i % newWidth, row i / newWidth. */
  ghost predicate HoldsSsaaPixel(p: bv32, camera: Camera, trace: Ray -> Rgba, plan: Plan, i: nat) {
    && plan.OutWidth() > 0
    && var x, y := Column(i, plan.OutWidth()), Row(i, plan.OutWidth());
    && SamplesInRange(camera, plan, x, y)
    && p == SsaaPixel(camera, trace, plan, x, y)
  }

  /** Output slots 0 .. done - 1 hold their supersampled pixel; the rest are as before. */
  ghost predicate FrameWritten(pixels: seq<bv32>, before: seq<bv32>, camera: Camera, trace: Ray -> Rgba, plan: Plan, done: nat) {
    && |pixels| == |before|
    && done <= |pixels|
    && forall i :: 0 <= i < |pixels| ==>
         if i < done then HoldsSsaaPixel(pixels[i], camera, trace, plan, i) else pixels[i] == before[i]
  }

  /** A fault names an access past the end of the directions or of the buffer. */
  predicate PastEnd(f: Fault, rays: nat, slots: nat) {
    match f
    case NoImage => false
    case RayReadOutOfRange(i) => i >= rays
    case PixelWriteOutOfRange(k) => k >= slots
  }

  /** One output row y of RenderSSAA, whose first slot is `base` (= y * newWidth). */
  method SupersampleRow(camera: Camera, trace: Ray -> Rgba, plan: Plan, pixels: seq<bv32>, ghost before: seq<bv32>, y: nat, base: nat)
    returns (r: Result<seq<bv32>, Fault>)
    requires base == y * plan.OutWidth()
    requires FrameWritten(pixels, before, camera, trace, plan, base)
    ensures r.Success? <==>
              && base + plan.OutWidth() <= |pixels|
              && forall x :: 0 <= x < plan.OutWidth() ==> SamplesInRange(camera, plan, x, y)
    ensures r.Success? ==> FrameWritten(r.value, before, camera, trace, plan, base + plan.OutWidth())
    ensures r.Failure? ==> PastEnd(r.error, |camera.directions|, |pixels|)
    ensures r.Failure? && (forall x :: 0 <= x < plan.OutWidth() ==> SamplesInRange(camera, plan, x, y))
            ==> r.error == PixelWriteOutOfRange(|pixels|)
  {
    var width := plan.OutWidth();
    var row := pixels;
    var x: nat := 0;
    while x < width
      invariant x <= width
      invariant FrameWritten(row, before, camera, trace, plan, base + x)
      invariant forall x' :: 0 <= x' < x ==> SamplesInRange(camera, plan, x', y)
    {
      var color, sampleCount := AccumulateSamples(camera, trace, plan, x, y);
      if color.Failure? {
        return Failure(color.error);
      }
      var k := base + x;
      if k >= |row| {
        return Failure(PixelWriteOutOfRange(k));
      }
      CoordOfIndex(x, y, width);
      row := row[k := ConvertToRgba(Clamp(color.value))];
      x := x + 1;
    }
    return Success(row);
  }

  /** The two outer loops of RenderSSAA: every output pixel in row-major order. */
  method SupersampleFrame(camera: Camera, trace: Ray -> Rgba, plan: Plan, pixels: seq<bv32>)
    returns (r: Result<seq<bv32>, Fault>)
    ensures r.Success? <==> plan.OutWidth() * plan.OutHeight() <= |pixels| && AllSamplesInRange(camera, plan)
    ensures r.Success? ==> FrameWritten(r.value, pixels, camera, trace, plan, plan.OutWidth() * plan.OutHeight())
    ensures r.Failure? ==> PastEnd(r.error, |camera.directions|, |pixels|)
    ensures r.Failure? && AllSamplesInRange(camera, plan) ==> r.error == PixelWriteOutOfRange(|pixels|)
  {
    var width, height := plan.OutWidth(), plan.OutHeight();
    var frame := pixels;
    var y: nat, base: nat := 0, 0;
    while y < height
      invariant y <= height
      invariant base == y * width
      invariant FrameWritten(frame, pixels, camera, trace, plan, base)
      invariant forall x, y' :: 0 <= x < width && 0 <= y' < y ==> SamplesInRange(camera, plan, x, y')
    {
      var row := SupersampleRow(camera, trace, plan, frame, pixels, y, base);
      NextRowStart(y, width, height);
      if row.Failure? {
        return Failure(row.error);
      }
      frame := row.value;
      y, base := y + 1, base + width;
    }
    assert base == plan.OutWidth() * plan.OutHeight();
    return Success(frame);
  }

  /** At level L >= 2 a non-empty supersampled frame has more pixels than the image it came from. */
  lemma SupersampledAreaExceeds(width: nat, height: nat, level: Level)
    requires width >= 1 && height >= 1 && level >= 2
    ensures (width * level) * (height * level) > width * height
  {
    MulLeq(2, level, width);
    MulLeq(1, level, height);
    MulLeq(height, height * level, width * level);
    MulLeq(width + width, width * level, height);
  }

  /**
    Renderer::RenderSSAA as written: every output pixel is written into the
    existing buffer at x + y * newWidth, and the image is then resized to
    newWidth x newHeight without reallocating the buffer. With `AsWritten`
    sampling the sub-samples read (x + subX) / L, (y + subY) / L unchecked,
    as the source does; with `ClampToEdge` only the reads are corrected, so
    the buffer fault shows on its own.
   */
  method RenderSSAA(s: State, sampling: Sampling, level: Level, camera: Camera, trace: Ray -> Rgba)
    returns (r: Result<State, Fault>)
    requires s.image.Some? ==> s.image.value.width * level < TwoTo32 && s.image.value.height * level < TwoTo32
    ensures s.image.None? ==> r == Failure(NoImage)
    ensures s.image.Some? ==>
              var plan := PlanFor(sampling, s.image.value, level);
              && (r.Success? <==> plan.OutWidth() * plan.OutHeight() <= |s.pixels| && AllSamplesInRange(camera, plan))
              && (r.Success? ==> r.value.image == Some(Extent(plan.OutWidth(), plan.OutHeight())))
              && (r.Success? ==> FrameWritten(r.value.pixels, s.pixels, camera, trace, plan, plan.OutWidth() * plan.OutHeight()))
              && (r.Failure? ==> PastEnd(r.error, |camera.directions|, |s.pixels|))
              && (r.Failure? && AllSamplesInRange(camera, plan) ==> r.error == PixelWriteOutOfRange(|s.pixels|))
    ensures s.image.Some? && Consistent(s) && level >= 2 && s.image.value.width >= 1 && s.image.value.height >= 1
            ==> r.Failure?
    ensures s.image.Some? && Consistent(s) && sampling == ClampToEdge && level >= 2
            && s.image.value.width >= 1 && s.image.value.height >= 1 && Area(s.image.value) <= |camera.directions|
            ==> r == Failure(PixelWriteOutOfRange(Area(s.image.value)))
    ensures s.image.Some? && Consistent(s) && level == 1 && Area(s.image.value) <= |camera.directions|
            ==> && r.Success? && r.value.image == s.image && Consistent(r.value)
                && forall i :: 0 <= i < |r.value.pixels| ==> r.value.pixels[i] == FramePixel(camera, trace, i)
  {
    if s.image.None? {
      return Failure(NoImage);
    }
    var e := s.image.value;
    var plan := PlanFor(sampling, e, level);
    if sampling == ClampToEdge && Area(e) <= |camera.directions| {
      ClampedInRange(camera, plan);
    }
    if level == 1 && Area(e) <= |camera.directions| {
      SingleLevelInRange(camera, plan);
    }
    var frame := SupersampleFrame(camera, trace, plan, s.pixels);
    if frame.Failure? {
      return Failure(frame.error);
    }
    if level == 1 && Area(e) <= |camera.directions| {
      SingleLevelMatchesRender(camera, trace, plan, frame.value, s.pixels);
    }
    return Success(State(Some(Extent(plan.OutWidth(), plan.OutHeight())), frame.value));
  }

  /**
    The supersampling pass with the two faults removed: sub-samples are
    clamped to the image's last column and row, and the frame is written into
    a buffer allocated for newWidth x newHeight pixels.
   */
  method RenderSSAAResized(s: State, level: Level, camera: Camera, trace: Ray -> Rgba)
    returns (r: Result<State, Fault>)
    requires s.image.Some? ==> s.image.value.width * level < TwoTo32 && s.image.value.height * level < TwoTo32
    ensures s.image.None? ==> r == Failure(NoImage)
    ensures s.image.Some? && Area(s.image.value) <= |camera.directions| ==> r.Success?
    ensures r.Success? ==>
              var plan := PlanFor(ClampToEdge, s.image.value, level);
              && r.value.image == Some(Extent(plan.OutWidth(), plan.OutHeight()))
              && Consistent(r.value)
              && forall i :: 0 <= i < |r.value.pixels| ==> HoldsSsaaPixel(r.value.pixels[i], camera, trace, plan, i)
  {
    if s.image.None? {
      return Failure(NoImage);
    }
    var plan := PlanFor(ClampToEdge, s.image.value, level);
    if Area(s.image.value) <= |camera.directions| {
      ClampedInRange(camera, plan);
    }
    var frame := SupersampleFrame(camera, trace, plan, Allocate(plan.OutWidth() * plan.OutHeight()));
    if frame.Failure? {
      return Failure(frame.error);
    }
    return Success(State(Some(Extent(plan.OutWidth(), plan.OutHeight())), frame.value));
  }

  /**
    As written, at L >= 2 some sub-sample of a non-empty image reads past the
    camera's width * height ray directions.
   */
  lemma AsWrittenSamplesOutOfRange(camera: Camera, plan: Plan)
    requires plan.sampling == AsWritten && plan.level >= 2
    requires plan.width >= 1 && plan.height >= 1
    requires |camera.directions| <= plan.width * plan.height
    ensures !AllSamplesInRange(camera, plan)
  {
    var L := plan.level;
    var x, y := plan.width * L - 1, plan.height * L - 1;
    AsWrittenReadsPastEnd(plan.width, plan.height, L);
    assert !RowInRange(camera, plan, x, y, L - 1, L);
    assert !SamplesInRange(camera, plan, x, y);
  }

  /**
    At L = 1 the supersampled frame is the plain frame: slot i holds the pixel
    traced from ray direction i, as Render stores it.
   */
  lemma SingleLevelMatchesRender(camera: Camera, trace: Ray -> Rgba, plan: Plan, pixels: seq<bv32>, before: seq<bv32>)
    requires plan.level == 1
    requires plan.width * plan.height <= |camera.directions|
    requires FrameWritten(pixels, before, camera, trace, plan, plan.OutWidth() * plan.OutHeight())
    ensures forall i :: 0 <= i < plan.width * plan.height ==> pixels[i] == FramePixel(camera, trace, i)
  {
    forall i | 0 <= i < plan.width * plan.height
      ensures pixels[i] == FramePixel(camera, trace, i)
    {
      IndexOfCoord(i, plan.width, plan.height);
      SingleLevelIsFramePixel(camera, trace, plan, Column(i, plan.width), Row(i, plan.width));
    }
  }
}
