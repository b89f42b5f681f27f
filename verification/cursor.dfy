/** The software cursor (src/input/cursor.c): its position, size, visibility
    and lazily created texture, and the commands that draw it. */
module CursorModel {
  import opened Types
  import opened Gl

  /** The built-in image is 16 by 16 pixels of 4-byte RGBA. Its pixel values
      are not modelled, only its size. */
  const ImageSide: nat := 16
  const ImageBytes: nat := ImageSide * ImageSide * 4

  /** The cursor's pixel size at start-up; the quad drawn is twice this. */
  const InitialSize: real := 16.0

  predicate NoGen(cmds: seq<DrawCmd>) {
    forall i :: 0 <= i < |cmds| ==> !cmds[i].GenTexture?
  }

  /** The commands one cursor pass issues, the cursor texture afterwards and
      the next free texture name afterwards. */
  datatype Pass = Pass(cmds: seq<DrawCmd>, texture: nat, next: nat)

  /** render_cursor, over the cursor's fields and the next free texture name. */
  function Draw(x: real, y: real, size: real, texture: nat, visible: bool, next: nat, mode: Mode): (r: Pass)
    requires Visible(mode) && next >= 1
    ensures !visible ==> r == Pass([], texture, next)
    ensures visible ==> && r.texture != 0 && r.cmds != []
                        && r.cmds[|r.cmds| - 1] == DrawQuad(r.texture, QuadFor(x, y, size * 2.0, size * 2.0, mode))
    ensures visible && texture != 0 ==> r.texture == texture && r.next == next && |r.cmds| == 1
    ensures visible && texture == 0 ==>
      && r.texture == next && r.next == next + 1
      && |r.cmds| == 3 && r.cmds[..2] == [GenTexture(next), UploadCursorImage(next, ImageSide, ImageSide)]
  {
    if !visible then Pass([], texture, next)
    else
      var (created, tex, next') :=
        if texture == 0 then ([GenTexture(next), UploadCursorImage(next, ImageSide, ImageSide)], next, next + 1)
        else ([], texture, next);
      Pass(created + [DrawQuad(tex, QuadFor(x, y, size * 2.0, size * 2.0, mode))], tex, next')
  }

  /** The texture is made on the first visible pass only: a second pass reuses it
      and creates nothing. */
  lemma TextureCreatedOnce(x: real, y: real, size: real, texture: nat, next: nat, x': real, y': real, mode: Mode)
    requires Visible(mode) && next >= 1
    ensures var first := Draw(x, y, size, texture, true, next, mode);
      var second := Draw(x', y', size, first.texture, true, first.next, mode);
      && second.texture == first.texture && second.next == first.next && NoGen(second.cmds)
  {
  }

  /** The cursor quad covers (x, y) to (x + 2 size, y + 2 size) in pixels. */
  lemma QuadExtent(x: real, y: real, size: real, texture: nat, next: nat, mode: Mode)
    requires Visible(mode) && next >= 1
    ensures var r := Draw(x, y, size, texture, true, next, mode);
      var q := r.cmds[|r.cmds| - 1].quad;
      && PixelX(q.x0, mode.hdisplay as real) == x && PixelY(q.y0, mode.vdisplay as real) == y
      && PixelX(q.x1, mode.hdisplay as real) - PixelX(q.x0, mode.hdisplay as real) == size * 2.0
      && PixelY(q.y1, mode.vdisplay as real) - PixelY(q.y0, mode.vdisplay as real) == size * 2.0
  {
  }

  /** `server->cursor`. */
  class Cursor {
    var x: real
    var y: real
    var size: real
    var visible: bool
    var texture: nat

    /** init_cursor: centred, 16 pixels, visible, no texture yet. */
    constructor Init(mode: Mode)
      ensures x == mode.hdisplay as real / 2.0 && y == mode.vdisplay as real / 2.0
      ensures size == InitialSize && visible && texture == 0
    {
      x := mode.hdisplay as real / 2.0;
      y := mode.vdisplay as real / 2.0;
      size := InitialSize;
      visible := true;
      texture := 0;
    }

    /** render_cursor. */
    method Render(names: TextureNames, mode: Mode) returns (cmds: seq<DrawCmd>)
      requires Visible(mode) && names.Valid()
      modifies this`texture, names
      ensures names.Valid()
      ensures Pass(cmds, texture, names.next) == Draw(x, y, size, old(texture), visible, old(names.next), mode)
    {
      cmds := [];
      if !visible {
        return;
      }
      if texture == 0 {
        var name := names.Gen();
        texture := name;
        cmds := [GenTexture(name), UploadCursorImage(name, ImageSide, ImageSide)];
      }
      var side := size * 2.0;
      cmds := cmds + [DrawQuad(texture, QuadFor(x, y, side, side, mode))];
    }
  }
}
