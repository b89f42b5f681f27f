/** The wl_compositor / wl_surface / wl_region implementation
    (src/wayland/compositor.c): the registry of live surfaces, in creation order
    with the newest at the head, and what each surface request does to it. */
module Compositor {
  import opened Types

  /** A client wl_buffer as the renderer sees it: a shared-memory buffer, whose
      size it reads, or a buffer of any other kind, which it cannot read. */
  datatype Buffer = Shm(id: nat, width: nat, height: nat) | NonShm(id: nat)

  /** The fields of `ember_surface` the core reads or writes: the attached
      buffer (null when none) and the GL texture name (0 until one is made). */
  datatype Surface = Surface(buffer: Option<Buffer>, texture: nat)

  /** A freshly `calloc`ed surface. */
  const Zeroed: Surface := Surface(None, 0)

  /** Protocol output of this file. */
  datatype Event =
    | NoMemory(resource: ResourceId)        // wl_resource_post_no_memory
    | ClientNoMemory(client: ClientId)      // wl_client_post_no_memory
    | CallbackDone(callback: ResourceId, data: nat)

  /** The wl_surface requests, as the client sends them. */
  datatype Request =
    | Destroy
    | Attach(buffer: Option<Buffer>, x: int, y: int)
    | Damage(x: int, y: int, width: int, height: int)
    | Frame(callback: ResourceId, created: bool)
    | SetOpaqueRegion(region: Option<ResourceId>)
    | SetInputRegion(region: Option<ResourceId>)
    | Commit
    | SetBufferTransform(transform: int)
    | SetBufferScale(scale: int)
    | DamageBuffer(x: int, y: int, width: int, height: int)
  {
    /** The requests whose handlers ignore every argument. */
    predicate Ignored() {
      Damage? || SetOpaqueRegion? || SetInputRegion? || Commit? || SetBufferTransform? ||
      SetBufferScale? || DamageBuffer?
    }
  }

  /** Position of `id` in a list that holds it. */
  function IndexOf(order: seq<SurfaceId>, id: SurfaceId): (k: nat)
    requires id in order
    ensures k < |order| && order[k] == id
    ensures forall j :: 0 <= j < k ==> order[j] != id
  {
    if order[0] == id then 0 else 1 + IndexOf(order[1..], id)
  }

  /** Unlinking the entry at `k` from a list without repeats removes exactly
      that entry: everything else stays, and no repeat appears. */
  lemma {:induction false} UnlinkRemovesExactly(order: seq<SurfaceId>, k: nat)
    requires NoDuplicates(order) && k < |order|
    ensures var rest := order[..k] + order[k + 1..];
      NoDuplicates(rest) &&
      forall s :: s in rest <==> s in order && s != order[k]
  {
    var rest := order[..k] + order[k + 1..];
    forall s | s in order && s != order[k] ensures s in rest {
      var i :| 0 <= i < |order| && order[i] == s;
      if i < k { assert rest[i] == s; } else { assert rest[i - 1] == s; }
    }
    forall i, j | 0 <= i < j < |rest| ensures rest[i] != rest[j] {
      var i', j' := if i < k then i else i + 1, if j < k then j else j + 1;
      assert rest[i] == order[i'] && rest[j] == order[j'];
    }
  }

  /** The answer to wl_surface.frame: `done` at once, or a no-memory error on
      the surface when the callback could not be created. */
  function FrameReply(surface: SurfaceId, callback: ResourceId, created: bool): (ev: seq<Event>)
    ensures |ev| == 1
    ensures ev[0].CallbackDone? <==> created
    ensures created ==> ev[0].callback == callback && ev[0].data == 0
    ensures !created ==> ev[0] == NoMemory(surface)
  {
    if created then [CallbackDone(callback, 0)] else [NoMemory(surface)]
  }

  /** The answer to wl_compositor.create_region: nothing, or a no-memory error
      on the client. Region add/subtract keep no state. */
  function CreateRegionReply(client: ClientId, created: bool): (ev: seq<Event>)
    ensures created <==> ev == []
    ensures !created ==> ev == [ClientNoMemory(client)]
  {
    if created then [] else [ClientNoMemory(client)]
  }

  /** `server->surfaces` with the surfaces on it. `owner` remembers the client of
      every surface ever created, including destroyed ones: keyboard focus may
      still name a destroyed surface, and dispatch then reads its client. */
  class Registry {
    var order: seq<SurfaceId>
    var surfaces: map<SurfaceId, Surface>
    var owner: map<SurfaceId, ClientId>

    ghost predicate Valid()
      reads this
    {
      && NoDuplicates(order)
      && (forall s :: s in order <==> s in surfaces)
      && surfaces.Keys <= owner.Keys
    }

    constructor ()
      ensures Valid() && order == [] && surfaces == map[] && owner == map[]
    {
      order, surfaces, owner := [], map[], map[];
    }

    /** compositor_create_surface: a zeroed surface at the head of the list, or
        a no-memory error when allocation fails. */
    method CreateSurface(client: ClientId, id: SurfaceId, calloced: bool) returns (ev: seq<Event>)
      requires Valid() && id !in surfaces
      modifies this
      ensures Valid()
      ensures old(owner).Keys <= owner.Keys
      ensures calloced ==> && ev == []
                            && order == [id] + old(order)
                            && surfaces == old(surfaces)[id := Zeroed]
                            && owner == old(owner)[id := client]
      ensures !calloced ==> && ev == [NoMemory(id)]
                             && order == old(order) && surfaces == old(surfaces) && owner == old(owner)
    {
      if !calloced {
        return [NoMemory(id)];
      }
      order := [id] + order;
      surfaces := surfaces[id := Zeroed];
      owner := owner[id := client];
      ev := [];
    }

    /** surface_attach: the buffer reference is overwritten, null included. */
    method Attach(id: SurfaceId, buffer: Option<Buffer>)
      requires Valid() && id in surfaces
      modifies this
      ensures Valid()
      ensures order == old(order) && owner == old(owner)
      ensures surfaces == old(surfaces)[id := old(surfaces)[id].(buffer := buffer)]
    {
      surfaces := surfaces[id := surfaces[id].(buffer := buffer)];
    }

    /** surface_resource_destroy: the surface is unlinked from the list where it
        stands and freed. Focus is not touched. */
    method Destroy(id: SurfaceId)
      requires Valid() && id in surfaces
      modifies this
      ensures Valid()
      ensures owner == old(owner)
      ensures surfaces == old(surfaces) - {id}
      ensures var k := IndexOf(old(order), id); order == old(order)[..k] + old(order)[k + 1..]
      ensures id !in order
    {
      var k := IndexOf(order, id);
      UnlinkRemovesExactly(order, k);
      order := order[..k] + order[k + 1..];
      surfaces := surfaces - {id};
    }

    /** The wl_surface request table (`surface_interface`). */
    method Handle(id: SurfaceId, req: Request) returns (ev: seq<Event>)
      requires Valid() && id in surfaces
      modifies this
      ensures Valid()
      ensures owner == old(owner)
      ensures req.Destroy? ==> && ev == [] && id !in order && surfaces == old(surfaces) - {id}
                               && var k := IndexOf(old(order), id); order == old(order)[..k] + old(order)[k + 1..]
      ensures req.Attach? ==> && ev == [] && order == old(order)
                              && surfaces == old(surfaces)[id := old(surfaces)[id].(buffer := req.buffer)]
      ensures req.Frame? ==> && ev == FrameReply(id, req.callback, req.created)
                             && order == old(order) && surfaces == old(surfaces)
      ensures req.Ignored() ==> ev == [] && order == old(order) && surfaces == old(surfaces)
    {
      ev := [];
      match req {
        case Destroy => Destroy(id);
        case Attach(buffer, _, _) => Attach(id, buffer);
        case Frame(callback, created) => ev := FrameReply(id, callback, created);
        case _ =>
      }
    }
  }
}
