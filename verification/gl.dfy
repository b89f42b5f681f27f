/** What the compositor asks of OpenGL ES, as data: the pixel-to-device
    coordinate map shared by surfaces and the cursor, the draw commands a frame
    consists of, and the texture-name generator. Float rounding is not modelled:
    coordinates are exact reals. */
module Gl {
  import opened Types

  /** Device x of pixel column `x` on a screen `width` pixels wide. */
  function NdcX(x: real, width: real): real
    requires width > 0.0
  {
    x / width * 2.0 - 1.0
  }

  /** Device y of pixel row `y`: pixel rows grow downwards, device y upwards. */
  function NdcY(y: real, height: real): real
    requires height > 0.0
  {
    1.0 - y / height * 2.0
  }

  /** The inverse maps, device coordinates back to pixels. */
  function PixelX(nx: real, width: real): real {
    (nx + 1.0) / 2.0 * width
  }

  function PixelY(ny: real, height: real): real {
    (1.0 - ny) / 2.0 * height
  }

  lemma NdcRoundTrip(x: real, y: real, width: real, height: real)
    requires width > 0.0 && height > 0.0
    ensures PixelX(NdcX(x, width), width) == x
    ensures PixelY(NdcY(y, height), height) == y
  {
    assert (x / width * 2.0 - 1.0 + 1.0) / 2.0 == x / width;
    assert x / width * width == x;
    assert (1.0 - (1.0 - y / height * 2.0)) / 2.0 == y / height;
    assert y / height * height == y;
  }

  lemma PixelRoundTrip(nx: real, ny: real, width: real, height: real)
    requires width > 0.0 && height > 0.0
    ensures NdcX(PixelX(nx, width), width) == nx
    ensures NdcY(PixelY(ny, height), height) == ny
  {
    MulDiv((nx + 1.0) / 2.0, width);
    MulDiv((1.0 - ny) / 2.0, height);
  }

  lemma MulDiv(a: real, w: real)
    requires w > 0.0
    ensures a * w / w == a
  {
    var q := a * w / w;
    assert q * w == a * w;
  }

  /** The screen edges land on the edges of device space, with the vertical
      flip: the top pixel row is device y = +1. */
  lemma NdcCorners(width: real, height: real)
    requires width > 0.0 && height > 0.0
    ensures NdcX(0.0, width) == -1.0 && NdcX(width, width) == 1.0
    ensures NdcY(0.0, height) == 1.0 && NdcY(height, height) == -1.0
  {
  }

  /** Moving right moves right; moving down in pixels moves down in device space. */
  lemma NdcOrder(a: real, b: real, width: real, height: real)
    requires width > 0.0 && height > 0.0 && a < b
    ensures NdcX(a, width) < NdcX(b, width)
    ensures NdcY(a, height) > NdcY(b, height)
  {
    assert a / width < b / width;
    assert a / height < b / height;
  }

  /** A textured quad, given by its left (x0), top (y0), right (x1) and bottom (y1)
      device-space edges, in the vertex order the renderer uses. */
  datatype Quad = Quad(x0: real, y0: real, x1: real, y1: real)

  /** The quad covering the `w` by `h` pixel rectangle whose top-left corner is
      pixel (x, y). */
  function QuadFor(x: real, y: real, w: real, h: real, mode: Mode): (q: Quad)
    requires Visible(mode)
    ensures PixelX(q.x0, mode.hdisplay as real) == x
    ensures PixelY(q.y0, mode.vdisplay as real) == y
    ensures PixelX(q.x1, mode.hdisplay as real) == x + w
    ensures PixelY(q.y1, mode.vdisplay as real) == y + h
    ensures w > 0.0 ==> q.x0 < q.x1
    ensures h > 0.0 ==> q.y1 < q.y0
  {
    var sw, sh := mode.hdisplay as real, mode.vdisplay as real;
    NdcRoundTrip(x, y, sw, sh);
    NdcRoundTrip(x + w, y + h, sw, sh);
    RectOrder(x, y, w, h, sw, sh);
    Quad(NdcX(x, sw), NdcY(y, sh), NdcX(x + w, sw), NdcY(y + h, sh))
  }

  lemma RectOrder(x: real, y: real, w: real, h: real, sw: real, sh: real)
    requires sw > 0.0 && sh > 0.0
    ensures w > 0.0 ==> NdcX(x, sw) < NdcX(x + w, sw)
    ensures h > 0.0 ==> NdcY(y + h, sh) < NdcY(y, sh)
  {
    if w > 0.0 { NdcOrder(x, x + w, sw, sh); }
    if h > 0.0 { NdcOrder(y, y + h, sw, sh); }
  }

  /** The GL calls a frame is made of, in issue order. */
  datatype DrawCmd =
    | Clear
      /** glGenTextures handed out this texture name. */
    | GenTexture(texture: nat)
      /** A client buffer's pixels uploaded into a surface's texture. */
    | UploadSurface(surface: SurfaceId, texture: nat, buffer: nat, width: nat, height: nat)
      /** The built-in cursor image uploaded into the cursor texture. */
    | UploadCursorImage(texture: nat, width: nat, height: nat)
      /** A triangle fan over `quad`, sampling `texture`, alpha-blended. */
    | DrawQuad(texture: nat, quad: Quad)
    | SwapBuffers

  /** glGenTextures: every name it hands out is non-zero and new. */
  class TextureNames {
    var next: nat

    ghost predicate Valid()
      reads this
    {
      next >= 1
    }

    constructor ()
      ensures Valid() && next == 1
    {
      next := 1;
    }

    method Gen() returns (name: nat)
      requires Valid()
      modifies this
      ensures Valid()
      ensures name == old(next) && name != 0 && next == old(next) + 1
    {
      name := next;
      next := next + 1;
    }
  }
}
