/** The xdg-shell globals (src/wayland/shell.c). The handlers keep no state:
    each request either creates a protocol object, destroys its own, sends a
    fixed sequence of events, or does nothing. */
module Shell {
  import opened Types

  /** The kinds of object the shell creates. */
  datatype Kind = WmBase | XdgSurface | Toplevel

  /** A protocol object made by a request: its kind, id and version. */
  datatype Object = Object(kind: Kind, id: ResourceId, version: nat)

  /** Events sent by the shell. */
  datatype ShellEvent =
    | ToplevelConfigure(toplevel: ResourceId, width: int, height: int, states: seq<nat>)
    | SurfaceConfigure(xdgSurface: ResourceId, serial: nat)

  /** Requests on xdg_wm_base, xdg_surface and xdg_toplevel, with the
      arguments that could matter. */
  datatype Request =
    | WmDestroy
    | CreatePositioner(id: ResourceId)
    | GetXdgSurface(id: ResourceId, surface: SurfaceId)
    | Pong(serial: nat)
    | SurfaceDestroy
    | GetToplevel(id: ResourceId)
    | GetPopup(id: ResourceId, parent: Option<ResourceId>, positioner: ResourceId)
    | SetWindowGeometry(x: int, y: int, width: int, height: int)
    | AckConfigure(serial: nat)
    | ToplevelDestroy
    | SetParent(parent: Option<ResourceId>)
    | SetTitle(title: string)
    | SetAppId(appId: string)
    | ShowWindowMenu(seat: ResourceId, serial: nat, x: int, y: int)
    | Move(seat: ResourceId, serial: nat)
    | Resize(seat: ResourceId, serial: nat, edges: nat)
    | SetMaxSize(width: int, height: int)
    | SetMinSize(width: int, height: int)
    | SetMaximized
    | UnsetMaximized
    | SetFullscreen(output: Option<ResourceId>)
    | UnsetFullscreen
    | SetMinimized
  {
    predicate Destroys() {
      WmDestroy? || SurfaceDestroy? || ToplevelDestroy?
    }
  }

  /** What a request does: the object it creates, whether it destroys the
      object it was sent to, and the events it sends. */
  datatype Effect = Effect(created: Option<Object>, destroyed: bool, events: seq<ShellEvent>)

  const Nothing: Effect := Effect(None, false, [])

  /** A request sent to object `self`, whose version is `version`. */
  function Handle(self: ResourceId, version: nat, req: Request): (e: Effect)
    ensures e.destroyed <==> req.Destroys()
    ensures e.destroyed ==> e.created.None? && e.events == []
    ensures e.created.Some? <==> req.GetXdgSurface? || req.GetToplevel?
    ensures e.created.Some? ==> e.created.value.version == version
    ensures req.GetXdgSurface? ==> e == Effect(Some(Object(XdgSurface, req.id, version)), false, [])
    ensures req.GetToplevel? ==>
      && e.created == Some(Object(Toplevel, req.id, version))
      && e.events == [ToplevelConfigure(req.id, 0, 0, []), SurfaceConfigure(self, 0)]
    ensures !req.Destroys() && !req.GetXdgSurface? && !req.GetToplevel? ==> e == Nothing
  {
    match req
    case WmDestroy => Effect(None, true, [])
    case SurfaceDestroy => Effect(None, true, [])
    case ToplevelDestroy => Effect(None, true, [])
    case GetXdgSurface(id, _) => Effect(Some(Object(XdgSurface, id, version)), false, [])
    case GetToplevel(id) =>
      Effect(Some(Object(Toplevel, id, version)), false, [ToplevelConfigure(id, 0, 0, []), SurfaceConfigure(self, 0)])
    case _ => Nothing
  }

  /** get_xdg_surface does not record which wl_surface it was given. */
  lemma XdgSurfaceForgetsSurface(self: ResourceId, version: nat, id: ResourceId, a: SurfaceId, b: SurfaceId)
    ensures Handle(self, version, GetXdgSurface(id, a)) == Handle(self, version, GetXdgSurface(id, b))
  {
  }

  /** A toplevel is configured first, and its xdg_surface after it, with serial
      0: the configure a client must acknowledge before its first commit. */
  lemma ToplevelConfigureOrder(self: ResourceId, version: nat, id: ResourceId)
    ensures var ev := Handle(self, version, GetToplevel(id)).events;
      |ev| == 2 && ev[0].ToplevelConfigure? && ev[0].width == 0 && ev[0].height == 0 && ev[0].states == []
      && ev[1] == SurfaceConfigure(self, 0)
  {
  }

  /** shell_bind: an xdg_wm_base of the client's version, and no event. */
  function Bind(version: nat, id: ResourceId): (e: Effect)
    ensures e.created == Some(Object(WmBase, id, version)) && !e.destroyed && e.events == []
  {
    Effect(Some(Object(WmBase, id, version)), false, [])
  }

  /** init_shell: -1 exactly when the global cannot be created. */
  function InitShell(globalOk: bool): (rc: int)
    ensures rc == -1 <==> !globalOk
    ensures rc == 0 <==> globalOk
  {
    if globalOk then 0 else -1
  }
}
