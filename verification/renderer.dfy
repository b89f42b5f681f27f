/** render_frame (src/backend/renderer.c:83-211): the surface list is composited
    from its tail to its head, skipping surfaces without a shared-memory buffer,
    each drawn surface gets a texture the first time and is uploaded again every
    frame; the cursor is drawn on top, the buffers are swapped, and the result
    goes to scanout. */
module Renderer {
  import opened Types
  import opened Gl
  import opened Compositor
  import CursorModel
  import Scanout

  /** A surface render_frame draws: one with a shared-memory buffer attached. */
  predicate Drawable(s: Surface) {
    s.buffer.Some? && s.buffer.value.Shm?
  }

  /** The commands for one surface, the surface afterwards and the next free
      texture name afterwards. */
  datatype Drawn = Drawn(cmds: seq<DrawCmd>, surface: Surface, next: nat)

  /** The loop body of render_frame for surface `id`. */
  function DrawSurface(id: SurfaceId, s: Surface, next: nat, mode: Mode): (r: Drawn)
    requires Visible(mode) && next >= 1
    ensures r.next >= 1
    ensures r.surface.buffer == s.buffer
    ensures !Drawable(s) ==> r == Drawn([], s, next)
    ensures Drawable(s) ==>
      var b := s.buffer.value;
      && r.surface.texture != 0 && |r.cmds| >= 2
      && r.cmds[|r.cmds| - 2..] ==
         [UploadSurface(id, r.surface.texture, b.id, b.width, b.height),
          DrawQuad(r.surface.texture, QuadFor(Origin, Origin, b.width as real, b.height as real, mode))]
    ensures s.texture != 0 ==> r.surface == s && r.next == next && CursorModel.NoGen(r.cmds)
    ensures Drawable(s) && s.texture != 0 ==> |r.cmds| == 2
    ensures Drawable(s) && s.texture == 0 ==>
      && r.surface.texture == next && r.next == next + 1 && |r.cmds| == 3 && r.cmds[0] == GenTexture(next)
  {
    if !Drawable(s) then Drawn([], s, next)
    else
      var b := s.buffer.value;
      var (created, tex, next') := if s.texture == 0 then ([GenTexture(next)], next, next + 1) else ([], s.texture, next);
      Drawn(created + [UploadSurface(id, tex, b.id, b.width, b.height),
                       DrawQuad(tex, QuadFor(Origin, Origin, b.width as real, b.height as real, mode))],
            s.(texture := tex), next')
  }

  /** Every surface in `ids` is known. */
  predicate Known(ids: seq<SurfaceId>, surfaces: map<SurfaceId, Surface>) {
    forall i :: 0 <= i < |ids| ==> ids[i] in surfaces
  }

  /** The commands of a surface pass, the surfaces afterwards and the next free
      texture name afterwards. */
  datatype Walk = Walk(cmds: seq<DrawCmd>, surfaces: map<SurfaceId, Surface>, next: nat)

  /** The surface pass over `ids`, walked from its last entry to its first. */
  function WalkBack(ids: seq<SurfaceId>, surfaces: map<SurfaceId, Surface>, next: nat, mode: Mode): (r: Walk)
    requires Visible(mode) && next >= 1 && Known(ids, surfaces)
    ensures r.next >= next
    ensures r.surfaces.Keys == surfaces.Keys
    ensures forall id :: id in surfaces ==> r.surfaces[id].buffer == surfaces[id].buffer
    decreases |ids|
  {
    if ids == [] then Walk([], surfaces, next)
    else
      var rest := WalkBack(ids[1..], surfaces, next, mode);
      var d := DrawSurface(ids[0], rest.surfaces[ids[0]], rest.next, mode);
      Walk(rest.cmds + d.cmds, rest.surfaces[ids[0] := d.surface], d.next)
  }

  /** The surfaces of `ids` that render_frame draws, in list order. */
  function DrawableIds(ids: seq<SurfaceId>, surfaces: map<SurfaceId, Surface>): (r: seq<SurfaceId>)
    requires Known(ids, surfaces)
    ensures |r| <= |ids|
  {
    if ids == [] then []
    else (if Drawable(surfaces[ids[0]]) then [ids[0]] else []) + DrawableIds(ids[1..], surfaces)
  }

  /** The surfaces whose pixels a command list uploads, in upload order. */
  function Uploads(cmds: seq<DrawCmd>): (r: seq<SurfaceId>)
    ensures |r| <= |cmds|
  {
    if cmds == [] then [] else (if cmds[0].UploadSurface? then [cmds[0].surface] else []) + Uploads(cmds[1..])
  }

  lemma {:induction false} UploadsAppend(x: seq<DrawCmd>, y: seq<DrawCmd>)
    ensures Uploads(x + y) == Uploads(x) + Uploads(y)
  {
    if x == [] {
      assert x + y == y;
    } else {
      assert (x + y)[0] == x[0];
      assert (x + y)[1..] == x[1..] + y;
      UploadsAppend(x[1..], y);
    }
  }

  /** One surface's commands upload that surface once when it is drawable, and
      nothing otherwise. */
  lemma DrawSurfaceUploads(id: SurfaceId, s: Surface, next: nat, mode: Mode)
    requires Visible(mode) && next >= 1
    ensures Uploads(DrawSurface(id, s, next, mode).cmds) == if Drawable(s) then [id] else []
  {
    var d := DrawSurface(id, s, next, mode);
    if Drawable(s) {
      var tail := d.cmds[|d.cmds| - 2..];
      assert Uploads(tail[1..][1..]) == [];
      assert Uploads(tail[1..]) == [];
      assert Uploads(tail) == [id];
      if s.texture == 0 {
        assert d.cmds == [d.cmds[0]] + tail;
        UploadsAppend([d.cmds[0]], tail);
        assert Uploads([d.cmds[0]]) == [];
      } else {
        assert d.cmds == tail;
      }
    }
  }

  /** Compositing order: the surfaces uploaded, and so drawn, are exactly the
      drawable ones, in reverse list order. With new surfaces at the head of the
      list, the oldest is drawn first and the newest on top. */
  lemma {:induction false} WalkOrder(ids: seq<SurfaceId>, surfaces: map<SurfaceId, Surface>, next: nat, mode: Mode)
    requires Visible(mode) && next >= 1 && Known(ids, surfaces)
    ensures Uploads(WalkBack(ids, surfaces, next, mode).cmds) == Reverse(DrawableIds(ids, surfaces))
    decreases |ids|
  {
    if ids != [] {
      var rest := WalkBack(ids[1..], surfaces, next, mode);
      var d := DrawSurface(ids[0], rest.surfaces[ids[0]], rest.next, mode);
      WalkOrder(ids[1..], surfaces, next, mode);
      UploadsAppend(rest.cmds, d.cmds);
      DrawSurfaceUploads(ids[0], rest.surfaces[ids[0]], rest.next, mode);
      var head := if Drawable(surfaces[ids[0]]) then [ids[0]] else [];
      ReverseAppend(head, DrawableIds(ids[1..], surfaces));
      assert Reverse(head) == head;
    }
  }

  /** The newest surface, when it can be drawn, is drawn last. */
  lemma NewestOnTop(ids: seq<SurfaceId>, surfaces: map<SurfaceId, Surface>, next: nat, mode: Mode)
    requires Visible(mode) && next >= 1 && Known(ids, surfaces)
    requires ids != [] && Drawable(surfaces[ids[0]])
    ensures var u := Uploads(WalkBack(ids, surfaces, next, mode).cmds); u != [] && u[|u| - 1] == ids[0]
  {
    WalkOrder(ids, surfaces, next, mode);
  }

  /** Textures: a surface's texture changes only from 0, and only when it is
      drawn; after the pass every drawable surface of `ids` has one. */
  lemma {:induction false} WalkTextures(ids: seq<SurfaceId>, surfaces: map<SurfaceId, Surface>, next: nat, mode: Mode)
    requires Visible(mode) && next >= 1 && Known(ids, surfaces)
    ensures var r := WalkBack(ids, surfaces, next, mode);
      forall id :: id in surfaces ==>
        && (r.surfaces[id].texture == surfaces[id].texture ||
            (surfaces[id].texture == 0 && id in ids && Drawable(surfaces[id])))
        && (id in ids && Drawable(surfaces[id]) ==> r.surfaces[id].texture != 0)
    decreases |ids|
  {
    if ids != [] {
      WalkTextures(ids[1..], surfaces, next, mode);
    }
  }

  /** Once every drawable surface has a texture, a pass creates none, uses no
      texture name, and still uploads every drawable surface. */
  lemma {:induction false} WalkReusesTextures(ids: seq<SurfaceId>, surfaces: map<SurfaceId, Surface>, next: nat, mode: Mode)
    requires Visible(mode) && next >= 1 && Known(ids, surfaces)
    requires forall i :: 0 <= i < |ids| && Drawable(surfaces[ids[i]]) ==> surfaces[ids[i]].texture != 0
    ensures var r := WalkBack(ids, surfaces, next, mode);
      r.next == next && r.surfaces == surfaces && CursorModel.NoGen(r.cmds)
    decreases |ids|
  {
    if ids != [] {
      var rest := WalkBack(ids[1..], surfaces, next, mode);
      WalkReusesTextures(ids[1..], surfaces, next, mode);
      var d := DrawSurface(ids[0], rest.surfaces[ids[0]], rest.next, mode);
      assert rest.surfaces[ids[0] := d.surface] == rest.surfaces;
      assert forall i :: 0 <= i < |rest.cmds + d.cmds| ==>
        (rest.cmds + d.cmds)[i] == if i < |rest.cmds| then rest.cmds[i] else d.cmds[i - |rest.cmds|];
    }
  }

  /** The body of render_frame's loop for the surface `id`, writing a texture
      it creates into the surface. */
  method DrawOne(reg: Registry, names: TextureNames, id: SurfaceId, mode: Mode) returns (cmds: seq<DrawCmd>)
    requires id in reg.surfaces && names.Valid() && Visible(mode)
    modifies reg`surfaces, names
    ensures names.Valid()
    ensures var d := DrawSurface(id, old(reg.surfaces)[id], old(names.next), mode);
      cmds == d.cmds && names.next == d.next && reg.surfaces == old(reg.surfaces)[id := d.surface]
  {
    var s := reg.surfaces[id];
    cmds := [];
    if s.buffer.None? || !s.buffer.value.Shm? {
      assert reg.surfaces[id := s] == reg.surfaces;
      return;
    }
    var b := s.buffer.value;
    if s.texture == 0 {
      var name := names.Gen();
      s := s.(texture := name);
      reg.surfaces := reg.surfaces[id := s];
      cmds := [GenTexture(name)];
    } else {
      assert reg.surfaces[id := s] == reg.surfaces;
    }
    cmds := cmds + [UploadSurface(id, s.texture, b.id, b.width, b.height),
                    DrawQuad(s.texture, QuadFor(Origin, Origin, b.width as real, b.height as real, mode))];
  }

  /** The loop of render_frame over the registry, from the tail of the list to
      its head. */
  method DrawSurfaces(reg: Registry, names: TextureNames, mode: Mode) returns (cmds: seq<DrawCmd>)
    requires reg.Valid() && names.Valid() && Visible(mode)
    modifies reg`surfaces, names
    ensures reg.Valid() && names.Valid()
    ensures Walk(cmds, reg.surfaces, names.next) == WalkBack(reg.order, old(reg.surfaces), old(names.next), mode)
  {
    cmds := [];
    var i := |reg.order|;
    while i > 0
      invariant 0 <= i <= |reg.order|
      invariant names.Valid()
      invariant Known(reg.order[i..], old(reg.surfaces))
      invariant reg.surfaces.Keys == old(reg.surfaces).Keys
      invariant Walk(cmds, reg.surfaces, names.next) == WalkBack(reg.order[i..], old(reg.surfaces), old(names.next), mode)
    {
      i := i - 1;
      assert reg.order[i..][1..] == reg.order[i + 1..];
      var more := DrawOne(reg, names, reg.order[i], mode);
      cmds := cmds + more;
    }
    assert reg.order[0..] == reg.order;
  }

  /** Everything one frame draws, and the state the drawing leaves. */
  datatype Composed = Composed(cmds: seq<DrawCmd>, surfaces: map<SurfaceId, Surface>, cursorTexture: nat, next: nat)

  /** The drawing part of render_frame: clear, the surface pass, the cursor,
      then the buffer swap. */
  function DrawFrame(order: seq<SurfaceId>, surfaces: map<SurfaceId, Surface>,
                     x: real, y: real, size: real, visible: bool, cursorTexture: nat, next: nat, mode: Mode): (f: Composed)
    requires Visible(mode) && next >= 1 && Known(order, surfaces)
  {
    var w := WalkBack(order, surfaces, next, mode);
    var c := CursorModel.Draw(x, y, size, cursorTexture, visible, w.next, mode);
    Composed([Clear] + w.cmds + c.cmds + [SwapBuffers], w.surfaces, c.texture, c.next)
  }

  /** The cursor pass uploads no surface. */
  lemma CursorUploadsNothing(x: real, y: real, size: real, texture: nat, visible: bool, next: nat, mode: Mode)
    requires Visible(mode) && next >= 1
    ensures Uploads(CursorModel.Draw(x, y, size, texture, visible, next, mode).cmds) == []
  {
    var c := CursorModel.Draw(x, y, size, texture, visible, next, mode);
    if visible {
      var q := c.cmds[|c.cmds| - 1];
      if texture == 0 {
        assert c.cmds[1..][1..] == [q];
        assert Uploads(c.cmds[1..][1..]) == [];
        assert Uploads(c.cmds[1..]) == [];
      } else {
        assert c.cmds == [q];
      }
    }
  }

  /** A frame uploads exactly the drawable surfaces, oldest first. */
  lemma FrameUploads(order: seq<SurfaceId>, surfaces: map<SurfaceId, Surface>,
                     x: real, y: real, size: real, visible: bool, cursorTexture: nat, next: nat, mode: Mode)
    requires Visible(mode) && next >= 1 && Known(order, surfaces)
    ensures Uploads(DrawFrame(order, surfaces, x, y, size, visible, cursorTexture, next, mode).cmds) ==
            Reverse(DrawableIds(order, surfaces))
  {
    var w := WalkBack(order, surfaces, next, mode);
    var c := CursorModel.Draw(x, y, size, cursorTexture, visible, w.next, mode);
    WalkOrder(order, surfaces, next, mode);
    CursorUploadsNothing(x, y, size, cursorTexture, visible, w.next, mode);
    var front := [Clear] + w.cmds;
    var drawn := front + c.cmds;
    assert Uploads([Clear]) == [];
    UploadsAppend([Clear], w.cmds);
    UploadsAppend(front, c.cmds);
    assert Uploads(drawn) == Uploads(w.cmds);
    assert Uploads([SwapBuffers]) == [];
    UploadsAppend(drawn, [SwapBuffers]);
  }

  /** A frame starts with the clear and ends with the swap, and a visible
      cursor is the last thing drawn before the swap, over every surface. */
  lemma FrameEnds(order: seq<SurfaceId>, surfaces: map<SurfaceId, Surface>,
                  x: real, y: real, size: real, visible: bool, cursorTexture: nat, next: nat, mode: Mode)
    requires Visible(mode) && next >= 1 && Known(order, surfaces)
    ensures var f := DrawFrame(order, surfaces, x, y, size, visible, cursorTexture, next, mode);
      && |f.cmds| >= 2 && f.cmds[0] == Clear && f.cmds[|f.cmds| - 1] == SwapBuffers
      && (visible ==> f.cmds[|f.cmds| - 2] == DrawQuad(f.cursorTexture, QuadFor(x, y, size * 2.0, size * 2.0, mode)))
  {
    var w := WalkBack(order, surfaces, next, mode);
    var c := CursorModel.Draw(x, y, size, cursorTexture, visible, w.next, mode);
    var f := [Clear] + w.cmds + c.cmds + [SwapBuffers];
    if visible {
      assert f[|f| - 2] == c.cmds[|c.cmds| - 1];
    }
  }

  /** render_frame: draw, then hand the frame to scanout. */
  method RenderFrame(reg: Registry, cursor: CursorModel.Cursor, names: TextureNames, pipeline: Scanout.Pipeline,
                     mode: Mode, locked: Option<Scanout.Buffer>, outputReady: bool, submitOk: bool)
    returns (cmds: seq<DrawCmd>)
    requires reg.Valid() && names.Valid() && Visible(mode)
    modifies reg`surfaces, names, cursor`texture, pipeline
    ensures reg.Valid() && names.Valid()
    ensures Composed(cmds, reg.surfaces, cursor.texture, names.next) ==
      DrawFrame(reg.order, old(reg.surfaces), cursor.x, cursor.y, cursor.size, cursor.visible,
                old(cursor.texture), old(names.next), mode)
    ensures var r := Scanout.Step(old(pipeline.Current()), Scanout.Attempt(locked, outputReady, submitOk));
      pipeline.Current() == r.state && pipeline.log == old(pipeline.log) + r.actions
  {
    var surfaceCmds := DrawSurfaces(reg, names, mode);
    var cursorCmds := cursor.Render(names, mode);
    cmds := [Clear] + surfaceCmds + cursorCmds + [SwapBuffers];
    pipeline.Present(locked, outputReady, submitOk);
  }
}
