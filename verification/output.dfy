/** Output set-up and the wl_output global (src/backend/output.c): the choice of
    connector, mode and CRTC, the chain of initialisation steps that stops at the
    first failure, and the events a client receives when it binds wl_output.
    What libdrm, GBM and EGL answer is an input (`Env`). */
module Output {
  import opened Types

  /** The part of `drmModeConnector` the compositor reads. */
  datatype Connector = Connector(id: nat, connected: bool, modes: seq<Mode>, encoder: nat, mmWidth: nat, mmHeight: nat)

  /** A connector the compositor can drive: connected, with at least one mode. */
  predicate Usable(c: Connector) {
    c.connected && |c.modes| > 0
  }

  /** The position of the first usable connector. */
  function FirstUsable(conns: seq<Connector>): (k: Option<nat>)
    ensures k.Some? ==> k.value < |conns| && Usable(conns[k.value])
    ensures k.Some? ==> forall j :: 0 <= j < k.value ==> !Usable(conns[j])
    ensures k.None? ==> forall j :: 0 <= j < |conns| ==> !Usable(conns[j])
  {
    if conns == [] then None
    else if Usable(conns[0]) then Some(0)
    else
      var k := FirstUsable(conns[1..]);
      if k.Some? then Some(k.value + 1) else None
  }

  /** The connector loop of init_output. */
  method FindConnector(conns: seq<Connector>) returns (k: Option<nat>)
    ensures k == FirstUsable(conns)
  {
    var i := 0;
    while i < |conns|
      invariant 0 <= i <= |conns|
      invariant forall j :: 0 <= j < i ==> !Usable(conns[j])
    {
      if conns[i].connected && |conns[i].modes| > 0 {
        FirstUsableAt(conns, i);
        return Some(i);
      }
      i := i + 1;
    }
    FirstUsableNone(conns);
    return None;
  }

  lemma FirstUsableAt(conns: seq<Connector>, i: nat)
    requires i < |conns| && Usable(conns[i]) && forall j :: 0 <= j < i ==> !Usable(conns[j])
    ensures FirstUsable(conns) == Some(i)
  {
  }

  lemma FirstUsableNone(conns: seq<Connector>)
    requires forall j :: 0 <= j < |conns| ==> !Usable(conns[j])
    ensures FirstUsable(conns) == None
  {
  }

  /** What the kernel, GBM and EGL answer during init_output: whether the
      resources can be read; the connectors in resource order; the success of
      the GBM surface, EGL surface, make-current and renderer steps; the
      existing encoders with the CRTC each is attached to; the CRTC ids in
      resource order; the CRTC ids the kernel can look up; and the success of
      the global. */
  datatype Env = Env(
    resourcesOk: bool, connectors: seq<Connector>,
    gbmOk: bool, eglSurfaceOk: bool, makeCurrentOk: bool, rendererOk: bool,
    encoders: map<nat, nat>, crtcs: seq<nat>, live: set<nat>,
    globalOk: bool)

  /** The CRTC after the CRTC step: the encoder's CRTC when the encoder exists
      (and whatever its lookup gives, a failure included), the CRTC already
      held when it does not, and then, if there is still none, the first CRTC
      of the resources. */
  function CrtcChoice(env: Env, encoder: nat, held: Option<nat>): (r: Option<nat>)
    ensures encoder in env.encoders && env.encoders[encoder] in env.live ==> r == Some(env.encoders[encoder])
    ensures encoder !in env.encoders && held.Some? ==> r == held
    ensures (encoder in env.encoders ==> env.encoders[encoder] !in env.live) && (encoder !in env.encoders ==> held.None?) ==>
      r == (if env.crtcs != [] && env.crtcs[0] in env.live then Some(env.crtcs[0]) else None)
    ensures r.None? <==>
      && (encoder in env.encoders ==> env.encoders[encoder] !in env.live)
      && (encoder !in env.encoders ==> held.None?)
      && (env.crtcs == [] || env.crtcs[0] !in env.live)
  {
    var viaEncoder :=
      if encoder in env.encoders then (if env.encoders[encoder] in env.live then Some(env.encoders[encoder]) else None)
      else held;
    if viaEncoder.Some? then viaEncoder
    else if env.crtcs != [] && env.crtcs[0] in env.live then Some(env.crtcs[0])
    else None
  }

  /** The steps of init_output, in order. */
  datatype Stage = GetResources | PickConnector | CreateGbmSurface | CreateEglSurface | MakeCurrent
                 | InitRenderer | PickCrtc | CreateGlobal

  const AllStages: seq<Stage> :=
    [GetResources, PickConnector, CreateGbmSurface, CreateEglSurface, MakeCurrent, InitRenderer, PickCrtc, CreateGlobal]

  /** The server fields init_output writes. */
  datatype Setup = Setup(connector: Option<Connector>, mode: Mode, crtc: Option<nat>, global: bool)

  /** The zeroed server. */
  const Unset: Setup := Setup(None, Mode(0, 0, 0), None, false)

  /** The return code, the steps run, and the fields afterwards. */
  datatype Outcome = Outcome(rc: int, stages: seq<Stage>, setup: Setup)

  /** init_output. */
  function InitOutput(env: Env, s: Setup): (r: Outcome)
    ensures r.rc == 0 || r.rc == -1
    ensures 1 <= |r.stages| <= |AllStages| && r.stages == AllStages[..|r.stages|]
    ensures r.rc == 0 ==> r.stages == AllStages && r.setup.global
    ensures r.rc == 0 ==> r.setup.connector.Some? && r.setup.crtc.Some?
  {
    if !env.resourcesOk then Outcome(-1, AllStages[..1], s)
    else
      var found := FirstUsable(env.connectors);
      var s1 := if found.Some? then s.(connector := Some(env.connectors[found.value]),
                                       mode := env.connectors[found.value].modes[0]) else s;
      if s1.connector.None? then Outcome(-1, AllStages[..2], s1)
      else if !env.gbmOk then Outcome(-1, AllStages[..3], s1)
      else if !env.eglSurfaceOk then Outcome(-1, AllStages[..4], s1)
      else if !env.makeCurrentOk then Outcome(-1, AllStages[..5], s1)
      else if !env.rendererOk then Outcome(-1, AllStages[..6], s1)
      else
        var s2 := s1.(crtc := CrtcChoice(env, s1.connector.value.encoder, s1.crtc));
        if s2.crtc.None? then Outcome(-1, AllStages[..7], s2)
        else Outcome(if env.globalOk then 0 else -1, AllStages, s2.(global := env.globalOk))
  }

  /** Whether a step succeeds, given the fields as the steps before it left them. */
  predicate Passes(env: Env, stage: Stage, s: Setup) {
    match stage
    case GetResources => env.resourcesOk
    case PickConnector => s.connector.Some?
    case CreateGbmSurface => env.gbmOk
    case CreateEglSurface => env.eglSurfaceOk
    case MakeCurrent => env.makeCurrentOk
    case InitRenderer => env.rendererOk
    case PickCrtc => s.crtc.Some?
    case CreateGlobal => env.globalOk
  }

  /** The failure chain: every step run before the last succeeded, init fails
      exactly when the last step run failed, and no step runs after a failure. */
  lemma InitStopsAtFirstFailure(env: Env, s: Setup)
    ensures var r := InitOutput(env, s);
      && (forall i :: 0 <= i < |r.stages| - 1 ==> Passes(env, r.stages[i], r.setup))
      && (r.rc == -1 <==> !Passes(env, r.stages[|r.stages| - 1], r.setup))
  {
  }

  /** On the zeroed server: init succeeds only with a usable connector, whose
      first mode becomes the mode, and with the first usable connector; the
      mode is set even when a later step fails. */
  lemma InitPicksFirstConnector(env: Env)
    requires env.resourcesOk
    ensures var r := InitOutput(env, Unset); var k := FirstUsable(env.connectors);
      && (k.None? ==> r.rc == -1 && r.stages == AllStages[..2])
      && (k.Some? ==> r.setup.connector == Some(env.connectors[k.value]) && r.setup.mode == env.connectors[k.value].modes[0])
  {
  }

  /** On the zeroed server the CRTC is the encoder's CRTC when that lookup
      succeeds, else the first CRTC of the resources, else init fails. */
  lemma InitPicksCrtc(env: Env)
    requires |InitOutput(env, Unset).stages| >= 7
    ensures var r := InitOutput(env, Unset); var e := r.setup.connector.value.encoder;
      && (e in env.encoders && env.encoders[e] in env.live ==> r.setup.crtc == Some(env.encoders[e]))
      && (!(e in env.encoders && env.encoders[e] in env.live) && env.crtcs != [] && env.crtcs[0] in env.live ==>
            r.setup.crtc == Some(env.crtcs[0]))
      && (!(e in env.encoders && env.encoders[e] in env.live) && (env.crtcs == [] || env.crtcs[0] !in env.live) ==>
            r.rc == -1)
  {
  }

  /** wl_output events (protocol version 3 of the core protocol). */
  datatype OutputEvent =
    | Geometry(x: int, y: int, physicalWidth: nat, physicalHeight: nat, subpixel: nat,
               make: string, model: string, transform: nat)
    | Scale(factor: nat)
    | ModeEvent(flags: nat, width: nat, height: nat, refresh: nat)
    | Done

  const SubpixelUnknown: nat := 0
  const TransformNormal: nat := 0
  /** WL_OUTPUT_MODE_CURRENT | WL_OUTPUT_MODE_PREFERRED. */
  const CurrentPreferred: nat := 3

  /** The events output_bind sends for a client's bound version. */
  function BindEvents(version: nat, c: Connector, mode: Mode): (ev: seq<OutputEvent>)
    ensures |ev| == if version >= 2 then 4 else 2
    ensures ev[0] == Geometry(0, 0, c.mmWidth, c.mmHeight, SubpixelUnknown, "Generic", "Monitor", TransformNormal)
    ensures Scale(1) in ev <==> version >= 2
    ensures Done in ev <==> version >= 2
    ensures version >= 2 ==> ev[|ev| - 1] == Done && ev[1] == Scale(1)
    ensures exists i :: 0 <= i < |ev| && ev[i] == ModeEvent(CurrentPreferred, mode.hdisplay, mode.vdisplay, mode.vrefresh * 1000)
    ensures forall i, j :: 0 <= i < |ev| && 0 <= j < |ev| && ev[i].ModeEvent? && ev[j].ModeEvent? ==> i == j
    ensures forall i, j :: 0 <= i < |ev| && 0 <= j < |ev| && ev[i] == Scale(1) && ev[j].ModeEvent? ==> i < j
  {
    var geometry := Geometry(0, 0, c.mmWidth, c.mmHeight, SubpixelUnknown, "Generic", "Monitor", TransformNormal);
    var m := ModeEvent(CurrentPreferred, mode.hdisplay, mode.vdisplay, mode.vrefresh * 1000);
    if version >= 2 then
      var ev := [geometry, Scale(1), m, Done];
      assert ev[2] == m;
      ev
    else
      var ev := [geometry, m];
      assert ev[1] == m;
      ev
  }

  /** The output part of the server. */
  class OutputServer {
    var connector: Option<Connector>
    var mode: Mode
    var crtc: Option<nat>
    var global: bool
    /** `output_resources`: the bound wl_output resources, newest first. */
    var resources: seq<ResourceId>

    function Current(): Setup
      reads this
    {
      Setup(connector, mode, crtc, global)
    }

    constructor ()
      ensures Current() == Unset && resources == []
    {
      connector, mode, crtc, global := None, Mode(0, 0, 0), None, false;
      resources := [];
    }

    /** init_output, step by step. */
    method Init(env: Env) returns (rc: int, stages: seq<Stage>)
      modifies this
      ensures Outcome(rc, stages, Current()) == InitOutput(env, old(Current()))
      ensures |stages| == |AllStages| ==> resources == []
      ensures |stages| < |AllStages| ==> resources == old(resources)
    {
      rc := -1;
      stages := AllStages[..1];
      if !env.resourcesOk {
        return;
      }
      stages := AllStages[..2];
      var found := FindConnector(env.connectors);
      if found.Some? {
        connector := Some(env.connectors[found.value]);
        mode := env.connectors[found.value].modes[0];
      }
      if connector.None? {
        return;
      }
      if !env.gbmOk {
        stages := AllStages[..3];
      } else if !env.eglSurfaceOk {
        stages := AllStages[..4];
      } else if !env.makeCurrentOk {
        stages := AllStages[..5];
      } else if !env.rendererOk {
        stages := AllStages[..6];
      } else {
        stages := AllStages[..7];
        FindCrtc(env);
        if crtc.None? {
          return;
        }
        stages := AllStages;
        resources := [];
        global := env.globalOk;
        if global {
          rc := 0;
        }
      }
    }

    /** The CRTC step of init_output. */
    method FindCrtc(env: Env)
      requires connector.Some?
      modifies this`crtc
      ensures crtc == CrtcChoice(env, connector.value.encoder, old(crtc))
    {
      var encoder := connector.value.encoder;
      if encoder in env.encoders {
        var id := env.encoders[encoder];
        crtc := if id in env.live then Some(id) else None;
      }
      if crtc.None? {
        crtc := if env.crtcs != [] && env.crtcs[0] in env.live then Some(env.crtcs[0]) else None;
      }
    }

    /** output_bind: the resource goes to the head of `output_resources` and
        the client receives the events for its version. */
    method Bind(version: nat, id: ResourceId) returns (ev: seq<OutputEvent>)
      requires connector.Some?
      modifies this`resources
      ensures resources == [id] + old(resources)
      ensures ev == BindEvents(version, connector.value, mode)
    {
      resources := [id] + resources;
      var c := connector.value;
      var geometry := Geometry(0, 0, c.mmWidth, c.mmHeight, SubpixelUnknown, "Generic", "Monitor", TransformNormal);
      ev := [geometry];
      if version >= 2 {
        ev := ev + [Scale(1)];
      }
      ev := ev + [ModeEvent(CurrentPreferred, mode.hdisplay, mode.vdisplay, mode.vrefresh * 1000)];
      if version >= 2 {
        ev := ev + [Done];
      }
    }
  }
}
