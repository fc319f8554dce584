# Walnut ray tracer: frame driver, pixel packing and supersampling

This project models the CPU ray tracer's renderer (`Renderer` in
`WalnutApp/src/Render.cpp`) in Dafny:

- `Utils::ConvertToRGBA`. Each channel is quantised to a byte by truncation and the four bytes are packed into one `uint32_t`, red in the low byte and alpha in the top byte (module `PixelFormat`). The clamp to `[0, 1]` that precedes it is in module `Color`.
- `Renderer::TraceRay`. This is the single hard-coded sphere of radius 0.5 at the origin, lit by one directional light (module `Tracer`).
- Row-major pixel indexing `x + y * width`. It is shared by the camera's ray directions and the scratch buffer (module `Grid`).
- `Renderer::OnResize` and `Renderer::Render` over the renderer's state: the image (`m_FinalImage`, possibly null) and the scratch buffer `m_ImageData` (module `Renderer`).
- `Renderer::RenderSSAA` for an integral level `L >= 1` (module `Supersample`). Two things are modelled:
  - the pass as written, which does not stay in bounds;
  - a corrected pass, which clamps samples to the image and reallocates the buffer.

How source constructs are represented:

- **Undefined behaviour becomes a result.** The source performs unchecked accesses: it dereferences a null image, reads past the camera's ray directions, or writes past the scratch buffer. The model turns each into a `Failure(Fault)`, raised at the first such access in loop order. Every driver returns a `Result`.
- **Camera and tracer are parameters.** The camera is a value: a position and a row-major sequence of ray directions. The drivers take the tracer as a parameter `trace: Ray -> Rgba`. `Renderer.TraceRayOpaque` shows that `Tracer.TraceRay` satisfies the one property the drivers rely on: every colour it returns has alpha 1.
- **Channels are real numbers.** Colour channels, which are `float` in the source, are modelled as `real`.

What the code does, in short:

- `TraceRay` tests one hard-coded sphere, and a miss is opaque black.
- `RenderSSAA` averages exactly `L * L` samples per output pixel and always divides by `L * L`.
- It never skips a sample, and for `L >= 2` some samples read past the row (see Findings).

## Model

| member | source | states |
|---|---|---|
| PixelFormat.Pack | WalnutApp/src/Render.cpp:11 | each channel byte of the packed word sits at its own offset: red bits 0-7, green 8-15, blue 16-23, alpha 24-31 |
| PixelFormat.Unpack | WalnutApp/src/Render.cpp:11 | the reference decoder: packing its four bytes gives back the word, so every 32-bit word is some packed pixel |
| PixelFormat.UnpackPack | WalnutApp/src/Render.cpp:11 | decoding a packed pixel returns exactly the four bytes it was packed from |
| PixelFormat.PackInjective | WalnutApp/src/Render.cpp:11 | two byte 4-tuples pack to the same word only if they are equal |
| PixelFormat.Quantise | WalnutApp/src/Render.cpp:6-9 | `uint8_t(c * 255.0f)` on a clamped channel is the integer q with q <= 255c < q + 1, i.e. the floor |
| PixelFormat.QuantiseEnds | WalnutApp/src/Render.cpp:6-9 | only a channel of exactly 1.0 reaches 255, and every channel below 1/255 gives 0 |
| PixelFormat.QuantiseTruncates | WalnutApp/src/Render.cpp:6 | the conversion truncates rather than rounds: 254.9/255 becomes 254, not 255 |
| PixelFormat.QuantiseRoundTrip | WalnutApp/src/Render.cpp:6-9 | decoding a quantised channel as q/255 under-approximates it by less than 1/255 |
| PixelFormat.QuantiseMonotone | WalnutApp/src/Render.cpp:6-9 | a brighter channel never quantises to a smaller byte |
| PixelFormat.ConvertToRgba | WalnutApp/src/Render.cpp:5-13 | decoding the packed word yields the four quantised channels, in the order red, green, blue, alpha |
| PixelFormat.OpaqueTopByte | WalnutApp/src/Render.cpp:9-11 | a colour with alpha 1 packs with top byte 0xFF, so the word is at least 0xFF000000 |
| Color.Clamp01 | WalnutApp/src/Render.cpp:25 | a clamped channel lies in [0, 1], equals the input when that is already in range, and is 0 below and 1 above |
| Color.Clamp | WalnutApp/src/Render.cpp:25 | a clamped colour is inside the gamut and a colour already inside it is unchanged |
| Tracer.Discriminant | WalnutApp/src/Render.cpp:96-99 | the discriminant b^2 - 4ac of the ray/sphere quadratic; a ray starting inside the sphere always has a non-negative one |
| Tracer.LineMeetsSphereHits | WalnutApp/src/Render.cpp:96-100 | if the ray's line meets the sphere at any parameter t, positive or not, the ray counts as a hit |
| Tracer.TraceRay | WalnutApp/src/Render.cpp:83-118 | alpha is always 1; a ray with negative discriminant is opaque black; a hit is magenta (green 0, red = blue) whose intensity is the cosine term when positive, and a hit with a cosine term <= 0 is opaque black |
| Tracer.CentralRayHits | WalnutApp/src/Render.cpp:96-100 | a ray along -z through the sphere's centre hits from every start point on the z axis, including points past the sphere, where it lies behind the origin |
| Tracer.ParallelRayHits | WalnutApp/src/Render.cpp:96-100 | a ray along -z hits exactly when its distance from the z axis is at most the radius 0.5 |
| Grid.IndexInRange | WalnutApp/src/Render.cpp:21-23 | every pixel (x, y) of a width x height grid has its slot x + y * width below width * height |
| Grid.CoordOfIndex | WalnutApp/src/Render.cpp:23 | a pixel's slot decodes back to the pixel: column slot % width, row slot / width |
| Grid.IndexOfCoord | WalnutApp/src/Render.cpp:21-26 | every slot below width * height is the slot of exactly one pixel inside the grid |
| Grid.IndexInjective | WalnutApp/src/Render.cpp:23-26 | distinct pixels of a row have distinct slots, so no pixel overwrites another |
| Grid.VisitOrderIsSlots | WalnutApp/src/Render.cpp:21-28 | the sequence of slots `x + y * width` the nested y/x loops produce is 0, 1, ..., width * height - 1: each slot is visited exactly once. This is stated of a reference sequence of the loops' index expression; Render's own contract gives each slot's final value |
| Renderer.Mul32 | WalnutApp/src/Render.cpp:78 | the uint32 product `width * height` never exceeds the true product and equals it exactly when that fits in 32 bits |
| Renderer.Allocate | WalnutApp/src/Render.cpp:77-78 | the new buffer holds exactly the requested number of pixels |
| Renderer.OnResize | WalnutApp/src/Render.cpp:68-79 | afterwards the image has the requested dimensions; unchanged dimensions leave the state as it was; otherwise the buffer holds the 32-bit product width * height pixels |
| Renderer.OnResizeIdempotent | WalnutApp/src/Render.cpp:69-70 | resizing a second time to the same dimensions changes nothing |
| Renderer.OnResizeConsistent | WalnutApp/src/Render.cpp:68-79 | from a state whose buffer matches its image, OnResize keeps buffer and image matched exactly when it returns early or width * height fits in 32 bits |
| Renderer.FirstResize | WalnutApp/src/Render.cpp:73-78 | the first resize creates the image and a buffer of exactly width * height pixels |
| Renderer.TraceRayOpaque | WalnutApp/src/Render.cpp:101 | every colour TraceRay returns, on the miss and on the hit path, has alpha 1 |
| Renderer.FramePixel | WalnutApp/src/Render.cpp:23-26 | the pixel stored for a slot traced by an opaque tracer has alpha byte 0xFF |
| Renderer.RenderRow | WalnutApp/src/Render.cpp:22-27 | one row succeeds exactly when its slots lie inside both the directions and the buffer; afterwards the row's slots hold their frame pixels and later slots are untouched |
| Renderer.Render | WalnutApp/src/Render.cpp:16-30 | a null image faults; otherwise the frame completes exactly when width * height fits in the directions and in the buffer, the first fault in loop order is reported, and on success slot i holds the pixel of ray i for i < width * height and every other slot is unchanged |
| Supersample.PlanFor | WalnutApp/src/Render.cpp:33-36 | the output grid newWidth x newHeight is the image itself at L = 1 and has more pixels than the image for L >= 2 on a non-empty image |
| Supersample.FloorDivBounds | WalnutApp/src/Render.cpp:50-52 | floor division by the level: the q with q * L <= a < q * L + L |
| Supersample.FloorDivIsDiv | WalnutApp/src/Render.cpp:50-52 | the repeated-subtraction division used for sample coordinates equals floor division `/` on naturals |
| Supersample.SampleCoord | WalnutApp/src/Render.cpp:50-51 | the sample coordinate `(uint32_t)((x + sub) * (1 / L))` is the q with q * L <= x + sub < q * L + L |
| Supersample.SampleIndex | WalnutApp/src/Render.cpp:52 | the ray a sub-sample reads: clamped, a ray of the non-empty image; as written, for an output pixel inside the grid, at most width + height * width, at most one row past the image's rays |
| Supersample.SampleCoordBound | WalnutApp/src/Render.cpp:50-52 | for an output column inside the supersampled row, the sampled column is at most width, one past the last column |
| Supersample.SampleCoordPastRow | WalnutApp/src/Render.cpp:50-52 | for L >= 2 the last sub-sample of the last output column reads column width, which is outside the row |
| Supersample.SampleCoordInRowIffSingle | WalnutApp/src/Render.cpp:48-52 | every sub-sample of every output column stays inside the row if and only if L = 1 |
| Supersample.AsWrittenReadsPastEnd | WalnutApp/src/Render.cpp:48-52 | for L >= 2 the bottom-right output pixel reads ray width + height * width, past the width * height directions |
| Supersample.RowSum | WalnutApp/src/Render.cpp:49-55 | the sum of n opaque sub-samples has alpha n |
| Supersample.GridSum | WalnutApp/src/Render.cpp:48-56 | the sum of m full sub-rows of opaque sub-samples has alpha m * L |
| Supersample.Average | WalnutApp/src/Render.cpp:58 | dividing the L * L opaque samples by their count gives alpha exactly 1 |
| Supersample.SsaaPixel | WalnutApp/src/Render.cpp:58-60 | a supersampled pixel of an opaque tracer packs with alpha byte 0xFF |
| Supersample.RowSumUniform | WalnutApp/src/Render.cpp:49-55 | adding n copies of one colour to vec4(0) gives n times that colour |
| Supersample.GridSumUniform | WalnutApp/src/Render.cpp:48-56 | adding m sub-rows of L copies of one colour gives m * L times that colour |
| Supersample.UniformAverage | WalnutApp/src/Render.cpp:44-58 | averaging L * L identical samples returns that sample |
| Supersample.SingleLevelIsFramePixel | WalnutApp/src/Render.cpp:44-60 | at L = 1 a supersampled pixel equals the pixel Render stores for the same slot |
| Supersample.SingleLevelInRange | WalnutApp/src/Render.cpp:48-52 | at L = 1 every sub-sample of a frame reads an existing ray when the directions cover the image |
| Supersample.ClampedInRange | WalnutApp/src/Render.cpp:48-52 | with clamped sampling, every sub-sample of every output pixel reads an existing ray |
| Supersample.AccumulateRow | WalnutApp/src/Render.cpp:49-55 | the inner loop succeeds exactly when all of the sub-row's rays exist; it then counts L samples and adds their colours in order; otherwise it reports a read past the directions |
| Supersample.AccumulateSamples | WalnutApp/src/Render.cpp:44-58 | one output pixel succeeds exactly when all its rays exist, sampleCount is then L * L and the colour is the sum divided by that count; otherwise it reports a read past the directions |
| Supersample.SupersampleRow | WalnutApp/src/Render.cpp:43-61 | an output row succeeds exactly when its slots fit in the buffer and all its sub-samples exist; afterwards its slots hold their supersampled pixels and later slots are untouched; when every sub-sample of the row exists, a failure is the write to slot |pixels| |
| Supersample.SupersampleFrame | WalnutApp/src/Render.cpp:42-62 | the frame succeeds exactly when newWidth * newHeight slots fit in the buffer and every sub-sample exists; slot i then holds the pixel at column i % newWidth, row i / newWidth; any failure is an access past an end, and when every sub-sample exists it is the write to slot |pixels| |
| Supersample.SupersampledAreaExceeds | WalnutApp/src/Render.cpp:35-36 | for L >= 2 a non-empty supersampled frame has more pixels than the image, so more than the buffer OnResize allocated |
| Supersample.RenderSSAA | WalnutApp/src/Render.cpp:32-65 | the pass writing into the existing buffer: a null image faults; success means the image is newWidth x newHeight and every slot holds its pixel; on a consistent non-empty image every level L >= 2 faults, and with the reads clamped the fault is the write to slot width * height; L = 1 reproduces Render's frame |
| Supersample.RenderSSAAResized | WalnutApp/src/Render.cpp:32-65 | corrected: when the directions cover the image the pass always succeeds, leaves a newWidth x newHeight image with a matching buffer, and every slot holds its supersampled pixel |
| Supersample.AsWrittenSamplesOutOfRange | WalnutApp/src/Render.cpp:48-52 | as written, for L >= 2 some sub-sample of a non-empty image reads past the camera's directions |
| Supersample.SingleLevelMatchesRender | WalnutApp/src/Render.cpp:42-62 | at L = 1 a completed supersampled frame holds in slot i the pixel Render stores there |

## Left out

- Floating point: `float` channels, products and divisions are exact `real` arithmetic. NaN and infinity are not modelled. The result of `uint8_t(...)` on a channel outside [0, 1] is not modelled either: every conversion in the source follows a clamp.
- Tracer.TraceRay: the cosine term `dot(normalize(closerPoint), -lightDir)` needs `sqrt` and `normalize`, so it is supplied as the parameter `lambert` rather than computed from the ray. The contract ties the colour to that parameter but says nothing about which value the source computes for a given ray. The unused farther root and farther point are not modelled. The degenerate zero-length direction, which divides by zero in the source, is also not modelled.
- Walnut::Image: the image is modelled by its dimensions only. `SetData` (the upload of the buffer to the display image) and the pixel storage of `Image::Resize` are not modelled.
- Camera internals: the camera is its position and its precomputed directions. How the directions are computed is not part of this model.
- Renderer.OnResize: `new uint32_t[n]` leaves the contents indeterminate, and the model fills the buffer with 0. `delete[]` of the old buffer is not modelled.
- Supersample.RenderSSAA: only integral levels `L >= 1` are modelled. The source takes a `float`, so fractional levels and levels `<= 0` are left out. At a level of 0, `newWidth` and `newHeight` are 0: the loops do not run, the division at line 58 is never reached, and the image is resized to 0 x 0. At a negative level, `width * L` is negative. Converting it to `uint32_t` truncates to 0 when it is above -1 and is undefined behaviour otherwise.
- Supersample.RenderSSAA: the model requires that `width * L` and `height * L` fit in a `uint32_t`. A larger float-to-unsigned conversion is undefined in C++.
- Supersample.RenderSSAAResized: like RenderSSAA, it requires that `width * L` and `height * L` fit in a `uint32_t`.
- Supersample.SampleCoord: `(x + subX) * (1.0f / L)` is modelled as exact floor division. The float rounding of `1.0f / L` is not modelled.
- Index arithmetic: `x + y * width` is computed without 32-bit wrap-around. For the buffer writes this is safe: slots are visited consecutively, so the first slot past a buffer of fewer than 2^32 pixels faults before any index could wrap.
- Shifts: `a << 24` shifts an `int`-promoted byte, and the model treats it as an unsigned 32-bit shift.

## Findings

| source | as written | input that shows it | evidently intended | confidence | as-written member | corrected member |
|---|---|---|---|---|---|---|
| WalnutApp/src/Render.cpp:50-52 | The sampled column `(x + subX) / L` reaches `width` for the last output column when L >= 2. That sample reads the first ray of the next row. In the last row it reads past the camera's `width * height` directions. | width = height = 1, L = 2, output pixel (1, 0), subX = 1, subY = 0: ray index 1 + 0 * 1 = 1, and there is only 1 direction | every sub-sample reads a ray of the image itself, clamped to the last column and row | high; not executed | Supersample.AsWrittenSamplesOutOfRange | Supersample.ClampedInRange |
| WalnutApp/src/Render.cpp:60-63 | `newWidth * newHeight` pixels are written into `m_ImageData`, which OnResize sized for `width * height`. The image is then resized without reallocating the buffer. | width = 2, height = 1, L = 2: output pixels 0 and 1 read rays 0 and 1, and output pixel 2 reads ray 1 and is then written to slot 2 of a two-pixel buffer. With the reads clamped, every consistent non-empty image at L >= 2 faults on the write to slot width * height | the buffer is reallocated to `newWidth * newHeight` pixels before the frame is written | high; not executed | Supersample.RenderSSAA | Supersample.RenderSSAAResized |
