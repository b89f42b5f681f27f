/** The earlier DRM back end (src/backend/drm.c): the choice of device, the
    legacy init_output with its CRTC search, and a render_frame that compiles
    its shaders on the first call and then runs the same scan-out state machine
    as src/backend/renderer.c. */
module DrmLegacy {
  import opened Types
  import Output
  import Scanout

  /** A device drmGetDevices2 reports: whether it has a primary node, whether
      opening that node succeeds, and whether the opened device reports mode
      resources. */
  datatype Device = Device(primary: bool, opens: bool, resources: bool)

  predicate Qualifies(d: Device) {
    d.primary && d.opens && d.resources
  }

  /** The first qualifying device at or after position `i`. */
  function FirstFrom(devs: seq<Device>, i: nat): (k: Option<nat>)
    ensures k.Some? ==> i <= k.value < |devs| && Qualifies(devs[k.value])
    ensures k.Some? ==> forall j :: i <= j < k.value ==> !Qualifies(devs[j])
    ensures k.None? ==> forall j :: i <= j < |devs| ==> !Qualifies(devs[j])
    decreases |devs| - i
  {
    if i >= |devs| then None
    else if Qualifies(devs[i]) then Some(i)
    else FirstFrom(devs, i + 1)
  }

  /** The file operations the device loop performs: only opens that succeed
      are logged, each with the position of its device. */
  datatype DevOp = Open(dev: nat) | Close(dev: nat)

  /** The loop of open_drm_device from position `i` to its break. */
  function OpsFrom(devs: seq<Device>, i: nat): (ops: seq<DevOp>)
    ensures forall k :: 0 <= k < |ops| ==> i <= ops[k].dev < |devs|
    decreases |devs| - i
  {
    if i >= |devs| then []
    else
      var d := devs[i];
      if !d.primary || !d.opens then OpsFrom(devs, i + 1)
      else if d.resources then [Open(i)]
      else [Open(i), Close(i)] + OpsFrom(devs, i + 1)
  }

  /** The devices left open by a sequence of operations. */
  function StillOpen(ops: seq<DevOp>): set<nat> {
    set op | op in ops && op.Open? && Close(op.dev) !in ops :: op.dev
  }

  /** Every descriptor the loop opens, except the one it returns, is closed
      again; with no qualifying device none stays open. */
  lemma {:induction false} OnlyChosenStaysOpen(devs: seq<Device>, i: nat)
    ensures var k := FirstFrom(devs, i);
      StillOpen(OpsFrom(devs, i)) == if k.Some? then {k.value} else {}
    decreases |devs| - i
  {
    if i < |devs| {
      var d := devs[i];
      var ops := OpsFrom(devs, i);
      if !d.primary || !d.opens {
        OnlyChosenStaysOpen(devs, i + 1);
      } else if d.resources {
        assert ops == [Open(i)];
        assert StillOpen(ops) == {i} by {
          assert Open(i) in ops && Close(i) !in ops;
        }
      } else {
        var rest := OpsFrom(devs, i + 1);
        OnlyChosenStaysOpen(devs, i + 1);
        assert ops == [Open(i), Close(i)] + rest;
        forall n ensures n in StillOpen(ops) <==> n in StillOpen(rest) {
          if n in StillOpen(ops) {
            var op :| op in ops && op.Open? && Close(op.dev) !in ops && op.dev == n;
            assert op != Open(i);
            assert op in rest && Close(op.dev) !in rest;
          }
          if n in StillOpen(rest) {
            var op :| op in rest && op.Open? && Close(op.dev) !in rest && op.dev == n;
            assert n != i by {
              var k :| 0 <= k < |rest| && rest[k] == op;
            }
            assert op in ops && Close(op.dev) !in ops;
          }
        }
      }
    }
  }

  /** open_drm_device: the descriptor returned (here, the position of its
      device) and the operations done, or nothing when enumeration fails. */
  method OpenDevice(enumerated: Option<seq<Device>>) returns (fd: Option<nat>, ops: seq<DevOp>)
    ensures enumerated.None? ==> fd.None? && ops == []
    ensures enumerated.Some? ==> fd == FirstFrom(enumerated.value, 0) && ops == OpsFrom(enumerated.value, 0)
  {
    if enumerated.None? {
      return None, [];
    }
    var devs := enumerated.value;
    ops := [];
    var i := 0;
    while i < |devs|
      invariant 0 <= i <= |devs|
      invariant FirstFrom(devs, 0) == FirstFrom(devs, i)
      invariant ops + OpsFrom(devs, i) == OpsFrom(devs, 0)
    {
      var d := devs[i];
      if d.primary {
        if d.opens {
          if d.resources {
            return Some(i), ops + [Open(i)];
          }
          ops := ops + [Open(i), Close(i)];
        }
      }
      i := i + 1;
    }
    return None, ops;
  }

  /** init_graphics: a device, a GBM device and an EGL context, in that
      order; -1 at the first failure. */
  function InitGraphics(device: Option<nat>, gbmOk: bool, contextOk: bool): (rc: int)
    ensures rc == 0 <==> device.Some? && gbmOk && contextOk
    ensures rc == 0 || rc == -1
  {
    if device.None? then -1
    else if !gbmOk then -1
    else if !contextOk then -1
    else 0
  }

  /** The first CRTC of `crtcs` the kernel can look up. */
  function FirstLive(crtcs: seq<nat>, live: set<nat>): (r: Option<nat>)
    ensures r.Some? ==> r.value in crtcs && r.value in live
    ensures r.Some? ==> exists k :: 0 <= k < |crtcs| && crtcs[k] == r.value && forall j :: 0 <= j < k ==> crtcs[j] !in live
    ensures r.None? <==> forall j :: 0 <= j < |crtcs| ==> crtcs[j] !in live
  {
    if crtcs == [] then None
    else if crtcs[0] in live then Some(crtcs[0])
    else
      var r := FirstLive(crtcs[1..], live);
      if r.Some? then
        var k :| 0 <= k < |crtcs[1..]| && crtcs[1..][k] == r.value && forall j :: 0 <= j < k ==> crtcs[1..][j] !in live;
        assert crtcs[k + 1] == r.value;
        r
      else r
  }

  /** The CRTC step of the legacy init_output: when the connector names an
      encoder that exists and is attached to a CRTC (ids non-zero), that CRTC
      as the lookup gives it; otherwise the CRTC already held; and if there is
      still none, the first CRTC of the resources that can be looked up. */
  function LegacyCrtc(env: Output.Env, encoder: nat, held: Option<nat>): (r: Option<nat>)
    ensures encoder != 0 && encoder in env.encoders && env.encoders[encoder] != 0 && env.encoders[encoder] in env.live ==>
      r == Some(env.encoders[encoder])
    ensures !(encoder != 0 && encoder in env.encoders && env.encoders[encoder] != 0) && held.Some? ==> r == held
    ensures (encoder != 0 && encoder in env.encoders && env.encoders[encoder] != 0 ==> env.encoders[encoder] !in env.live)
            && (!(encoder != 0 && encoder in env.encoders && env.encoders[encoder] != 0) ==> held.None?) ==>
      r == FirstLive(env.crtcs, env.live)
    ensures r.None? <==>
      && (encoder != 0 && encoder in env.encoders && env.encoders[encoder] != 0 ==> env.encoders[encoder] !in env.live)
      && (!(encoder != 0 && encoder in env.encoders && env.encoders[encoder] != 0) ==> held.None?)
      && forall j :: 0 <= j < |env.crtcs| ==> env.crtcs[j] !in env.live
  {
    var viaEncoder :=
      if encoder != 0 && encoder in env.encoders && env.encoders[encoder] != 0 then
        (if env.encoders[encoder] in env.live then Some(env.encoders[encoder]) else None)
      else held;
    if viaEncoder.Some? then viaEncoder else FirstLive(env.crtcs, env.live)
  }

  /** Lines 117-139 of the legacy init_output, as the loop they are. */
  method FindCrtc(env: Output.Env, encoder: nat, held: Option<nat>) returns (crtc: Option<nat>)
    ensures crtc == LegacyCrtc(env, encoder, held)
  {
    crtc := held;
    if encoder != 0 && encoder in env.encoders {
      var attached := env.encoders[encoder];
      if attached != 0 {
        crtc := if attached in env.live then Some(attached) else None;
      }
    }
    if crtc.None? {
      var i := 0;
      while i < |env.crtcs|
        invariant 0 <= i <= |env.crtcs|
        invariant crtc.None?
        invariant FirstLive(env.crtcs, env.live) == FirstLive(env.crtcs[i..], env.live)
      {
        assert env.crtcs[i..][1..] == env.crtcs[i + 1..];
        if env.crtcs[i] in env.live {
          crtc := Some(env.crtcs[i]);
          return;
        }
        i := i + 1;
      }
    }
  }

  /** The earlier search finds a CRTC where the current one gives up: with no
      encoder and a first CRTC that cannot be looked up, src/backend/output.c
      fails while the loop of the legacy code goes on to the second. */
  lemma FallbackSearchesFurther()
    ensures var env := Output.Env(true, [], true, true, true, true, map[], [5, 7], {7}, true);
      && LegacyCrtc(env, 0, None) == Some(7)
      && Output.CrtcChoice(env, 0, None) == None
  {
    var crtcs := [5, 7];
    assert crtcs[1..] == [7];
    assert FirstLive(crtcs[1..], {7}) == Some(7);
  }

  /** The legacy steps: no renderer and no global, and the EGL surface and
      make-current results are not checked. */
  const LegacyStages: seq<Output.Stage> :=
    [Output.GetResources, Output.PickConnector, Output.CreateGbmSurface,
     Output.CreateEglSurface, Output.MakeCurrent, Output.PickCrtc]

  /** The legacy init_output. */
  function InitOutput(env: Output.Env, s: Output.Setup): (r: Output.Outcome)
    ensures r.rc == 0 || r.rc == -1
    ensures 1 <= |r.stages| <= |LegacyStages| && r.stages == LegacyStages[..|r.stages|]
    ensures r.rc == 0 <==> r.stages == LegacyStages && r.setup.crtc.Some?
    ensures r.rc == 0 ==> r.setup.connector.Some? && r.setup.global == s.global
  {
    if !env.resourcesOk then Output.Outcome(-1, LegacyStages[..1], s)
    else
      var found := Output.FirstUsable(env.connectors);
      var s1 := if found.Some? then s.(connector := Some(env.connectors[found.value])) else s;
      if s1.connector.None? then Output.Outcome(-1, LegacyStages[..2], s1)
      else
        // modes[0] of the connector just found; a connector already held
        // before the call (never the case at start-up) is not re-read
        var s2 := if found.Some? then s1.(mode := s1.connector.value.modes[0]) else s1;
        if !env.gbmOk then Output.Outcome(-1, LegacyStages[..3], s2)
        else
          var s3 := s2.(crtc := LegacyCrtc(env, s2.connector.value.encoder, s2.crtc));
          if s3.crtc.None? then Output.Outcome(-1, LegacyStages, s3)
          else Output.Outcome(0, LegacyStages, s3)
  }

  /** The legacy init_output does not look at the EGL surface, make-current,
      renderer or global results. */
  lemma LegacyIgnoresEgl(env: Output.Env, s: Output.Setup, egl: bool, current: bool, renderer: bool, global: bool)
    ensures InitOutput(env, s) ==
            InitOutput(env.(eglSurfaceOk := egl, makeCurrentOk := current, rendererOk := renderer, globalOk := global), s)
  {
  }

  /** On the zeroed server, both variants pick the same connector and mode,
      and a failing EGL surface fails only the current one. */
  lemma SameConnectorBothVariants(env: Output.Env)
    requires env.resourcesOk && Output.FirstUsable(env.connectors).Some?
    ensures InitOutput(env, Output.Unset).setup.connector == Output.InitOutput(env, Output.Unset).setup.connector
    ensures InitOutput(env, Output.Unset).setup.mode == Output.InitOutput(env, Output.Unset).setup.mode
    ensures !env.eglSurfaceOk ==> Output.InitOutput(env, Output.Unset).rc == -1
  {
  }

  /** The legacy render_frame with its static state. */
  class LegacyRenderer {
    /** The static `initialized` flag. */
    var initialized: bool
    /** How often init_shaders has run. */
    ghost var shaderInits: nat
    /** How often render_frame has run. */
    ghost var frames: nat
    /** The static `first_frame` and the tracked buffer. */
    const pipeline: Scanout.Pipeline

    ghost predicate Valid()
      reads this
    {
      shaderInits == if initialized then 1 else 0
    }

    constructor ()
      ensures Valid() && !initialized && frames == 0
      ensures fresh(pipeline) && pipeline.Current() == Scanout.Initial && pipeline.log == []
    {
      initialized := false;
      shaderInits := 0;
      frames := 0;
      pipeline := new Scanout.Pipeline();
    }

    /** render_frame: shaders on the first call only, then the scan-out step
        (the pulsing clear colour is not modelled). */
    method RenderFrame(locked: Option<Scanout.Buffer>, outputReady: bool, submitOk: bool)
      requires Valid()
      modifies this, pipeline
      ensures Valid() && initialized && shaderInits == 1
      ensures frames == old(frames) + 1
      ensures var r := Scanout.Step(old(pipeline.Current()), Scanout.Attempt(locked, outputReady, submitOk));
        pipeline.Current() == r.state && pipeline.log == old(pipeline.log) + r.actions
    {
      if !initialized {
        shaderInits := shaderInits + 1;
        initialized := true;
      }
      frames := frames + 1;
      pipeline.Present(locked, outputReady, submitOk);
    }

    /** page_flip_handler: one flip completion, one new frame. */
    method PageFlipHandler(locked: Option<Scanout.Buffer>, outputReady: bool, submitOk: bool)
      requires Valid()
      modifies this, pipeline
      ensures Valid() && shaderInits == 1
      ensures frames == old(frames) + 1
      ensures var r := Scanout.Step(old(pipeline.Current()), Scanout.Attempt(locked, outputReady, submitOk));
        pipeline.Current() == r.state && pipeline.log == old(pipeline.log) + r.actions
    {
      RenderFrame(locked, outputReady, submitOk);
    }
  }
}
