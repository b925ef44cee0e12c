/**
 * The renderer's bookkeeping: one pixel buffer per window id, created by
 * `Setup`, resized by `Update`, dropped by `Remove`, presented by `Render`;
 * and the gradient image the canvas draws.
 */
module Rendering {
  import opened Platform
  import opened Errors

  newtype byte = x: int | 0 <= x < 256

  /** A pixel buffer: its surface size, its buffer size and how many frames it presented. */
  datatype Pixels = Pixels(surface: PhysicalSize, buffer: PhysicalSize, presented: nat)

  /**
   * How the graphics stack answers the renderer: whether a device exists,
   * and which buffer creations, resizes and presentations succeed.
   */
  datatype Gpu = Gpu(
    deviceAvailable: bool,
    createsPixels: (nat, PhysicalSize) -> bool,
    resizesSurface: (nat, PhysicalSize) -> bool,
    resizesBuffer: (nat, PhysicalSize) -> bool,
    presents: nat -> bool)

  class Renderer {
    const gpu: Gpu
    var pixelBuffers: map<nat, Pixels>

    constructor (gpu: Gpu)
      ensures this.gpu == gpu && pixelBuffers == map[]
    {
      this.gpu := gpu;
      pixelBuffers := map[];
    }

    /** `Renderer::new`: fails when no graphics device is available. */
    static method New(gpu: Gpu) returns (r: Result<Renderer>)
      ensures r.Ok? <==> gpu.deviceAvailable
      ensures r.Err? ==> r.error == Renderer(RendererDevice)
      ensures r.Ok? ==> fresh(r.value) && r.value.gpu == gpu && r.value.pixelBuffers == map[]
    {
      if !gpu.deviceAvailable {
        return Err(Renderer(RendererDevice));
      }
      var renderer := new Renderer(gpu);
      r := Ok(renderer);
    }

    /**
     * Creates a buffer of the given size for `windowId`, replacing any buffer
     * the id had; stores nothing when the buffer cannot be created.
     */
    method Setup(windowId: nat, width: nat, height: nat) returns (r: Outcome)
      modifies this
      ensures r.Pass? <==> gpu.createsPixels(windowId, PhysicalSize(width, height))
      ensures r.Fail? ==> r.error == External(PixelsFailure) && pixelBuffers == old(pixelBuffers)
      ensures r.Pass? ==> var size := PhysicalSize(width, height);
                          pixelBuffers == old(pixelBuffers)[windowId := Pixels(size, size, 0)]
    {
      var size := PhysicalSize(width, height);
      if !gpu.createsPixels(windowId, size) {
        return Fail(External(PixelsFailure));
      }
      pixelBuffers := pixelBuffers[windowId := Pixels(size, size, 0)];
      r := Pass;
    }

    /**
     * Resizes the surface, then the buffer, of `windowId`; the table and the
     * outcome are those `Resize` describes.
     */
    method Update(windowId: nat, width: nat, height: nat) returns (r: Outcome)
      modifies this
      ensures pixelBuffers == Resize(gpu, old(pixelBuffers), windowId, PhysicalSize(width, height)).0
      ensures r == Resize(gpu, old(pixelBuffers), windowId, PhysicalSize(width, height)).1
    {
      if windowId !in pixelBuffers {
        return Fail(Renderer(MissingPixelBuffer(windowId)));
      }
      var size := PhysicalSize(width, height);
      if !gpu.resizesSurface(windowId, size) {
        return Fail(External(PixelsFailure));
      }
      var p := pixelBuffers[windowId].(surface := size);
      pixelBuffers := pixelBuffers[windowId := p];
      if !gpu.resizesBuffer(windowId, size) {
        return Fail(External(PixelsFailure));
      }
      pixelBuffers := pixelBuffers[windowId := p.(buffer := size)];
      r := Pass;
    }

    /** Drops the buffer of `windowId`, if any; always succeeds. */
    method Remove(windowId: nat) returns (r: Outcome)
      modifies this
      ensures r == Pass
      ensures pixelBuffers == old(pixelBuffers) - {windowId}
    {
      pixelBuffers := pixelBuffers - {windowId};
      r := Pass;
    }

    /**
     * Draws the canvas into the buffer of `windowId` and presents it. Fails
     * before drawing when the id has no buffer, and when presenting fails.
     */
    method Render(windowId: nat, width: nat, height: nat, scaleFactor: ScaleFactor) returns (r: Outcome)
      modifies this
      ensures r == RenderOutcome(gpu, old(pixelBuffers), windowId)
      ensures r.Fail? ==> pixelBuffers == old(pixelBuffers)
      ensures r.Pass? ==> var p := old(pixelBuffers)[windowId];
                          pixelBuffers == old(pixelBuffers)[windowId := p.(presented := p.presented + 1)]
    {
      if windowId !in pixelBuffers {
        return Fail(Renderer(MissingPixelBuffer(windowId)));
      }
      if !gpu.presents(windowId) {
        return Fail(Renderer(FailedRender));
      }
      var p := pixelBuffers[windowId];
      pixelBuffers := pixelBuffers[windowId := p.(presented := p.presented + 1)];
      r := Pass;
    }
  }

  /**
   * The effect of resizing the buffer of `id`: a missing buffer is an error
   * that changes nothing; a failed surface resize changes nothing; a failed
   * buffer resize leaves the new surface size in place. The key set never changes.
   */
  function Resize(gpu: Gpu, buffers: map<nat, Pixels>, id: nat, size: PhysicalSize): (r: (map<nat, Pixels>, Outcome))
    ensures r.0.Keys == buffers.Keys
    ensures id !in buffers ==> r == (buffers, Fail(Renderer(MissingPixelBuffer(id))))
    ensures id in buffers ==> (r.1.Pass? <==> gpu.resizesSurface(id, size) && gpu.resizesBuffer(id, size))
    ensures r.1.Pass? ==> r.0 == buffers[id := buffers[id].(surface := size, buffer := size)]
    ensures forall k | k in buffers && k != id :: r.0[k] == buffers[k]
  {
    if id !in buffers then (buffers, Fail(Renderer(MissingPixelBuffer(id))))
    else if !gpu.resizesSurface(id, size) then (buffers, Fail(External(PixelsFailure)))
    else if !gpu.resizesBuffer(id, size) then (buffers[id := buffers[id].(surface := size)], Fail(External(PixelsFailure)))
    else (buffers[id := buffers[id].(surface := size, buffer := size)], Pass)
  }

  /** Whether presenting `id` succeeds, and which error it reports otherwise. */
  function RenderOutcome(gpu: Gpu, buffers: map<nat, Pixels>, id: nat): (r: Outcome)
    ensures r.Pass? <==> id in buffers && gpu.presents(id)
    ensures id !in buffers ==> r == Fail(Renderer(MissingPixelBuffer(id)))
    ensures id in buffers && r.Fail? ==> r == Fail(Renderer(FailedRender))
  {
    if id !in buffers then Fail(Renderer(MissingPixelBuffer(id)))
    else if !gpu.presents(id) then Fail(Renderer(FailedRender))
    else Pass
  }

  /** Channel `k` of the gradient pixel at column `x`, row `y` (`u8` casts wrap). */
  function Channel(x: nat, y: nat, k: nat): (c: byte)
    ensures k == 0 ==> c as int == x % 256
    ensures k == 1 ==> c as int == y % 256
    ensures k == 2 ==> c as int + x % 256 == 255
    ensures k >= 3 ==> c == 127
  {
    if k == 0 then (x % 256) as byte
    else if k == 1 then (y % 256) as byte
    else if k == 2 then (255 - x % 256) as byte
    else 127
  }

  /** The byte at index `i` of a gradient image `width` pixels wide, four bytes per pixel. */
  function ImageByte(width: nat, i: nat): (b: byte)
    ensures width > 0 && i % 4 == 3 ==> b == 127
  {
    if width == 0 then 0 else Channel((i / 4) % width, (i / 4) / width, i % 4)
  }

  lemma MultipleBound(k: int, d: int)
    requires d >= 0
    ensures k >= 0 ==> k * d >= 0
    ensures k >= 1 ==> k * d >= d
    ensures k <= -1 ==> k * d <= -d
  {
    if k >= 1 {
      assert k * d == (k - 1) * d + d;
    } else if k <= -1 {
      assert k * d == (k + 1) * d - d;
    }
  }

  /** Quotient and remainder are unique. */
  lemma DivMod(a: nat, d: nat, q: nat, m: nat)
    requires 0 <= m < d && a == q * d + m
    ensures a / d == q && a % d == m
  {
    var q', m' := a / d, a % d;
    assert (q - q') * d == m' - m;
    MultipleBound(q - q', d);
  }

  /** Pixel (x, y) of a width-by-height image owns the four bytes at (y * width + x) * 4. */
  lemma {:induction false} PixelBytes(width: nat, height: nat, x: nat, y: nat)
    requires x < width && y < height
    ensures (y * width + x) * 4 + 4 <= width * height * 4
    ensures forall i | (y * width + x) * 4 <= i < (y * width + x) * 4 + 4 ::
              ImageByte(width, i) == Channel(x, y, i - (y * width + x) * 4)
  {
    var p := y * width + x;
    assert p + 1 <= width * height by {
      MultipleBound(height - (y + 1), width);
      assert (height - (y + 1)) * width == height * width - (y + 1) * width;
    }
    forall i | p * 4 <= i < p * 4 + 4
      ensures ImageByte(width, i) == Channel(x, y, i - p * 4)
    {
      DivMod(i, 4, p, i - p * 4);
      DivMod(p, width, y, x);
    }
  }

  /** Every byte of a width-by-height image belongs to a pixel of the image. */
  lemma {:induction false} ByteOwner(width: nat, height: nat, i: nat)
    requires i < width * height * 4
    ensures width > 0
    ensures var p := i / 4; var x, y, k := p % width, p / width, i % 4;
            x < width && y < height && k < 4 && i == (y * width + x) * 4 + k
  {
    var p := i / 4;
    assert p < width * height;
    var q := p / width;
    assert q * width <= p;
    MultipleBound(q - height, width);
    assert (q - height) * width == q * width - height * width;
  }

  /** ... and to only one: a byte index determines its pixel and channel. */
  lemma {:induction false} ByteOwnerUnique(width: nat, height: nat, x: nat, y: nat, k: nat)
    requires x < width && y < height && k < 4
    ensures var i := (y * width + x) * 4 + k;
            x == (i / 4) % width && y == (i / 4) / width && k == i % 4
  {
    var i := (y * width + x) * 4 + k;
    DivMod(i, 4, y * width + x, k);
    DivMod(y * width + x, width, y, x);
  }

  /** Every fourth byte, the alpha channel, is 127. */
  lemma AlphaChannel(width: nat, height: nat, i: nat)
    requires i < width * height * 4 && i % 4 == 3
    ensures ImageByte(width, i) == 127
  {
  }

  /** The first `n` bytes of `image` are those of the gradient image `width` pixels wide. */
  ghost predicate Filled(image: array<byte>, width: nat, n: nat)
    reads image
  {
    n <= image.Length && forall i | 0 <= i < n :: image[i] == ImageByte(width, i)
  }

  /** Writes the four bytes of pixel (x, y), extending the filled prefix by one pixel. */
  method FillPixel(image: array<byte>, width: nat, height: nat, x: nat, y: nat)
    requires x < width && y < height && image.Length == width * height * 4
    requires Filled(image, width, (y * width + x) * 4)
    modifies image
    ensures Filled(image, width, (y * width + x) * 4 + 4)
  {
    var ix := (y * width + x) * 4;
    PixelBytes(width, height, x, y);
    image[ix] := (x % 256) as byte;
    image[ix + 1] := (y % 256) as byte;
    image[ix + 2] := (255 - x % 256) as byte;
    image[ix + 3] := 127;
  }

  /** Row `y + 1` starts inside the image, or at its end. */
  lemma RowStart(width: nat, height: nat, y: nat)
    requires y < height
    ensures (y * width + width) * 4 <= width * height * 4
    ensures y * width + width == (y + 1) * width
  {
    MultipleBound(height - (y + 1), width);
    assert (height - (y + 1)) * width == height * width - (y + 1) * width;
  }

  /** Writes the pixels of row `y`, left to right, extending the filled prefix by one row. */
  method FillRow(image: array<byte>, width: nat, height: nat, y: nat)
    requires y < height && image.Length == width * height * 4
    requires Filled(image, width, y * width * 4)
    modifies image
    ensures Filled(image, width, (y + 1) * width * 4)
  {
    RowStart(width, height, y);
    var x := 0;
    while x < width
      invariant 0 <= x <= width
      invariant Filled(image, width, (y * width + x) * 4)
    {
      FillPixel(image, width, height, x, y);
      x := x + 1;
    }
  }

  /**
   * Fills a width-by-height RGBA image: pixel (x, y) is (x mod 256, y mod 256,
   * 255 - x mod 256, 127).
   */
  method MakeImageData(width: nat, height: nat) returns (result: array<byte>)
    ensures result.Length == width * height * 4
    ensures forall i | 0 <= i < result.Length :: result[i] == ImageByte(width, i)
  {
    result := new byte[width * height * 4](_ => 0);
    var y := 0;
    while y < height
      invariant 0 <= y <= height
      invariant Filled(result, width, y * width * 4)
    {
      FillRow(result, width, height, y);
      y := y + 1;
    }
    assert y * width == width * height;
  }
}
