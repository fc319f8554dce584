/**
  The renderer's frame driver (Renderer::Render) and its resize state machine
  (Renderer::OnResize) over the state the class keeps: the image, modelled by
  its dimensions, and the scratch pixel buffer.
 */
module Renderer {
  import opened Common
  import opened Color
  import opened PixelFormat
  import opened Tracer
  import opened Grid

  const TwoTo32: nat := 0x1_0000_0000

  type uint32 = x: nat | x < TwoTo32

  /** Walnut::Image, of which the model keeps only the dimensions. */
  datatype Extent = Extent(width: uint32, height: uint32)

  function Area(e: Extent): nat {
    e.width * e.height
  }

  /** The camera collaborator: its position and its precomputed ray directions, row-major. */
  datatype Camera = Camera(position: Vec3, directions: seq<Vec3>)

  /** m_FinalImage (null when None) and m_ImageData with its allocated length. */
  datatype State = State(image: Option<Extent>, pixels: seq<bv32>)

  /** An access the source performs without a bounds check, and that would be undefined behaviour. */
  datatype Fault =
    | NoImage                          // m_FinalImage dereferenced while still null
    | RayReadOutOfRange(index: nat)    // camera.GetRayDirections()[index] past the end
    | PixelWriteOutOfRange(slot: nat)  // m_ImageData[slot] past the allocation

  /** The initial state: no image, no buffer. */
  const Initial := State(None, [])

  /** The image and buffer agree: the buffer holds one pixel per image pixel. */
  predicate Consistent(s: State) {
    s.image.Some? ==> |s.pixels| == Area(s.image.value)
  }

  /** Unsigned 32-bit multiplication, as in `width * height` on two uint32_t. */
  function Mul32(a: uint32, b: uint32): (p: uint32)
    ensures p <= a * b
    ensures p == a * b <==> a * b < TwoTo32
  {
    (a * b) % TwoTo32
  }

  /** new uint32_t[n] leaves the contents indeterminate; the model fills them with this value. */
  const Indeterminate: bv32 := 0

  function Allocate(n: nat): (buffer: seq<bv32>)
    ensures |buffer| == n
  {
    seq(n, _ => Indeterminate)
  }

  /**
    Renderer::OnResize. Unchanged dimensions leave everything as it is;
    otherwise the image is created or resized and the buffer reallocated to
    width * height pixels, that product taken modulo 2^32.
   */
  function OnResize(s: State, width: uint32, height: uint32): (s': State)
    ensures s'.image == Some(Extent(width, height))
    ensures s.image == Some(Extent(width, height)) ==> s' == s
    ensures s.image != Some(Extent(width, height)) ==> |s'.pixels| == Mul32(width, height)
  {
    match s.image
    case Some(e) =>
      if e.width == width && e.height == height then s
      else State(Some(Extent(width, height)), Allocate(Mul32(width, height)))
    case None =>
      State(Some(Extent(width, height)), Allocate(Mul32(width, height)))
  }

  /** Resizing twice to the same dimensions is the same as resizing once. */
  lemma OnResizeIdempotent(s: State, width: uint32, height: uint32)
    ensures OnResize(OnResize(s, width, height), width, height) == OnResize(s, width, height)
  {
  }

  /**
    OnResize leaves the state consistent exactly when it keeps a consistent
    state unchanged or the new pixel count fits in 32 bits.
   */
  lemma OnResizeConsistent(s: State, width: uint32, height: uint32)
    requires Consistent(s)
    ensures Consistent(OnResize(s, width, height))
            <==> s.image == Some(Extent(width, height)) || width * height < TwoTo32
  {
  }

  /** The first resize creates the image and a buffer of exactly width * height pixels. */
  lemma FirstResize(width: uint32, height: uint32)
    requires width * height < TwoTo32
    ensures OnResize(Initial, width, height).image == Some(Extent(width, height))
    ensures |OnResize(Initial, width, height).pixels| == width * height
  {
  }

  /** The ray the frame loop casts for slot i: the camera position along direction i. */
  function PixelRay(camera: Camera, i: nat): Ray
    requires i < |camera.directions|
  {
    Ray(camera.position, camera.directions[i])
  }

  /** A tracer every result of which has alpha 1, as Renderer::TraceRay has on both its paths. */
  ghost predicate Opaque(trace: Ray -> Rgba) {
    forall ray :: trace(ray).a == 1.0
  }

  /** Renderer::TraceRay, with the cosine term supplied, is opaque. */
  lemma TraceRayOpaque(lambert: Ray -> real)
    ensures Opaque(ray => TraceRay(ray, lambert))
  {
  }

  /** The packed pixel Render stores in slot i: trace, clamp to [0, 1], convert. */
  function FramePixel(camera: Camera, trace: Ray -> Rgba, i: nat): (p: bv32)
    requires i < |camera.directions|
    ensures Opaque(trace) ==> ChannelOf(p, Alpha) == 0xFF
  {
    var c := Clamp(trace(PixelRay(camera, i)));
    OpaqueTopByte(c);
    ConvertToRgba(c)
  }

  /** The first fault of a row-major pass over `rays` ray directions and a buffer of `slots` pixels. */
  function FirstFault(rays: nat, slots: nat): Fault {
    if rays <= slots then RayReadOutOfRange(rays) else PixelWriteOutOfRange(slots)
  }

  /** A buffer after a row-major pass over slots 0 .. done - 1: those hold their frame pixel, the rest are as before. */
  ghost predicate WrittenUpTo(pixels: seq<bv32>, before: seq<bv32>, camera: Camera, trace: Ray -> Rgba, done: nat) {
    && |pixels| == |before|
    && done <= |camera.directions|
    && done <= |pixels|
    && forall i :: 0 <= i < |pixels| ==>
         pixels[i] == if i < done then FramePixel(camera, trace, i) else before[i]
  }

  /**
    The inner loop of Renderer::Render for row y, whose first slot is `base`
    (= y * width): slots base .. base + width - 1, left to right.
   */
  method RenderRow(camera: Camera, trace: Ray -> Rgba, pixels: seq<bv32>, ghost before: seq<bv32>, base: nat, width: nat)
    returns (r: Result<seq<bv32>, Fault>)
    requires WrittenUpTo(pixels, before, camera, trace, base)
    ensures r.Success? <==> base + width <= |camera.directions| && base + width <= |pixels|
    ensures r.Failure? ==> r.error == FirstFault(|camera.directions|, |pixels|)
    ensures r.Success? ==> WrittenUpTo(r.value, before, camera, trace, base + width)
  {
    var row := pixels;
    var x := 0;
    while x < width
      invariant x <= width
      invariant WrittenUpTo(row, before, camera, trace, base + x)
    {
      var k := base + x;
      if k >= |camera.directions| {
        return Failure(RayReadOutOfRange(k));
      }
      if k >= |row| {
        return Failure(PixelWriteOutOfRange(k));
      }
      row := row[k := FramePixel(camera, trace, k)];
      x := x + 1;
    }
    return Success(row);
  }

  /**
    Renderer::Render: for every pixel (x, y) in row-major order, trace the
    camera ray of slot x + y * width, clamp, pack and store it in that slot.
   */
  method Render(s: State, camera: Camera, trace: Ray -> Rgba)
    returns (r: Result<State, Fault>)
    ensures s.image.None? ==> r == Failure(NoImage)
    ensures s.image.Some? ==>
              var n := Area(s.image.value);
              && (r.Success? <==> n <= |camera.directions| && n <= |s.pixels|)
              && (r.Failure? ==> r.error == FirstFault(|camera.directions|, |s.pixels|))
    ensures r.Success? ==> r.value.image == s.image && |r.value.pixels| == |s.pixels|
    ensures r.Success? ==>
              forall i :: 0 <= i < |s.pixels| ==>
                r.value.pixels[i] == if i < Area(s.image.value) then FramePixel(camera, trace, i) else s.pixels[i]
  {
    if s.image.None? {
      r := Failure(NoImage);
      return;
    }
    var width: nat, height: nat := s.image.value.width, s.image.value.height;
    var pixels := s.pixels;
    var y: nat, base: nat := 0, 0;
    while y < height
      invariant y <= height
      invariant base == y * width
      invariant WrittenUpTo(pixels, s.pixels, camera, trace, base)
    {
      var row := RenderRow(camera, trace, pixels, s.pixels, base, width);
      NextRowStart(y, width, height);
      if row.Failure? {
        r := Failure(row.error);
        return;
      }
      pixels := row.value;
      y, base := y + 1, base + width;
    }
    assert base == Area(s.image.value);
    r := Success(State(s.image, pixels));
  }
}
