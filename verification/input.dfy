/** The libinput event handlers (src/input/input.c): ESC to quit, auto-focus
    then dispatch for keys and buttons, clamped relative motion, unclamped
    absolute motion, and the drain loop over the queued events. The handlers
    are step functions over a `World` (focus, serial, cursor position, stop
    flag); the methods drain a queue into the router and cursor objects and are
    proved to take exactly those steps. */
module Input {
  import opened Types
  import D = Dispatch
  import Compositor
  import CursorModel

  /** KEY_ESC from linux/input.h. */
  const KeyEsc: nat := 1
  /** WL_KEYBOARD_KEY_STATE_* and WL_POINTER_BUTTON_STATE_*. */
  const Released: nat := 0
  const Pressed: nat := 1

  /** A libinput event as the handlers read it; `now` is the clock reading the
      dispatch functions would take. */
  datatype RawEvent =
    | KeyboardKey(key: nat, pressed: bool, now: nat)
    | PointerMotion(dx: real, dy: real, now: nat)
    | PointerMotionAbsolute(x: real, y: real, now: nat)
    | PointerButton(button: nat, pressed: bool, now: nat)
    | Other

  /** One coordinate of handle_pointer_motion's clamp: below 0 becomes 0, then
      above `hi` becomes `hi`. */
  function ClampAxis(v: real, hi: nat): (r: real)
    ensures 0.0 <= r <= hi as real
    ensures 0.0 <= v <= hi as real ==> r == v
    ensures r == v || r == 0.0 || r == hi as real
  {
    var low := if v < 0.0 then 0.0 else v;
    if low > hi as real then hi as real else low
  }

  /** Clamping is idempotent: a clamped position is left where it is. */
  lemma ClampIdempotent(v: real, hi: nat)
    ensures ClampAxis(ClampAxis(v, hi), hi) == ClampAxis(v, hi)
  {
  }

  /** Everything the handlers read or change. */
  datatype World = World(focus: D.Focus, x: real, y: real, terminated: bool)

  /** A handler's result: the world afterwards and the protocol events sent. */
  datatype Out = Out(world: World, events: seq<D.Event>)

  /** The surfaces and the focused surface all have a known owner. */
  predicate Fits(p: D.Peers, order: seq<SurfaceId>, w: World) {
    p.Knows(w.focus.focused) && forall s :: s in order ==> s in p.owner
  }

  /** The cursor lies on the screen. */
  predicate OnScreen(w: World, mode: Mode) {
    0.0 <= w.x <= mode.hdisplay as real && 0.0 <= w.y <= mode.vdisplay as real
  }

  function KeyState(pressed: bool): nat {
    if pressed then Pressed else Released
  }

  /** One iteration of process_events: the handler for `e`. */
  function Handle(w: World, p: D.Peers, order: seq<SurfaceId>, mode: Mode, e: RawEvent): (r: Out)
    requires Fits(p, order, w)
    ensures Fits(p, order, r.world)
    ensures D.Fresh(w.focus, D.Step(r.world.focus, r.events))
    ensures r.world.terminated == (w.terminated || (e.KeyboardKey? && e.pressed && e.key == KeyEsc))
    ensures !e.PointerMotion? && !e.PointerMotionAbsolute? ==> r.world.x == w.x && r.world.y == w.y
    ensures e.PointerMotion? ==> r.world.x == ClampAxis(w.x + e.dx, mode.hdisplay)
                                 && r.world.y == ClampAxis(w.y + e.dy, mode.vdisplay)
    ensures e.PointerMotionAbsolute? ==> r.world.x == e.x && r.world.y == e.y
    ensures e.PointerMotion? || e.PointerMotionAbsolute? ==>
      r.world.focus == w.focus && r.events == D.Motion(w.focus, p, r.world.x, r.world.y, e.now)
    ensures e.Other? ==> r == Out(w, [])
  {
    match e
    case KeyboardKey(key, pressed, now) =>
      if pressed && key == KeyEsc then Out(w.(terminated := true), [])
      else
        var u := D.UpdateFocus(w.focus, p, order, w.x, w.y);
        var k := D.Key(u.focus, p, key, KeyState(pressed), now);
        D.FreshThen(w.focus, u, k);
        Out(w.(focus := k.focus), u.events + k.events)
    case PointerMotion(dx, dy, now) =>
      var x := ClampAxis(w.x + dx, mode.hdisplay);
      var y := ClampAxis(w.y + dy, mode.vdisplay);
      Out(w.(x := x, y := y), D.Motion(w.focus, p, x, y, now))
    case PointerMotionAbsolute(x, y, now) =>
      Out(w.(x := x, y := y), D.Motion(w.focus, p, x, y, now))
    case PointerButton(button, pressed, now) =>
      var u := D.UpdateFocus(w.focus, p, order, w.x, w.y);
      var b := D.Button(u.focus, p, button, KeyState(pressed), now);
      D.FreshThen(w.focus, u, b);
      Out(w.(focus := b.focus), u.events + b.events)
    case Other => Out(w, [])
  }

  /** An ESC press stops the display and reaches no client: focus is not
      updated and no serial is used. */
  lemma EscPressStops(w: World, p: D.Peers, order: seq<SurfaceId>, mode: Mode, now: nat)
    requires Fits(p, order, w)
    ensures Handle(w, p, order, mode, KeyboardKey(KeyEsc, true, now)) == Out(w.(terminated := true), [])
  {
  }

  /** Any other key, and an ESC release, is auto-focused and then dispatched
      with its state mapped to pressed or released. */
  lemma KeyIsDispatched(w: World, p: D.Peers, order: seq<SurfaceId>, mode: Mode, key: nat, pressed: bool, now: nat)
    requires Fits(p, order, w) && !(pressed && key == KeyEsc)
    ensures var u := D.UpdateFocus(w.focus, p, order, w.x, w.y);
      var k := D.Key(u.focus, p, key, if pressed then Pressed else Released, now);
      Handle(w, p, order, mode, KeyboardKey(key, pressed, now)) == Out(w.(focus := k.focus), u.events + k.events)
  {
  }

  /** A button is auto-focused and then dispatched. */
  lemma ButtonIsDispatched(w: World, p: D.Peers, order: seq<SurfaceId>, mode: Mode, button: nat, pressed: bool, now: nat)
    requires Fits(p, order, w)
    ensures var u := D.UpdateFocus(w.focus, p, order, w.x, w.y);
      var b := D.Button(u.focus, p, button, if pressed then Pressed else Released, now);
      Handle(w, p, order, mode, PointerButton(button, pressed, now)) == Out(w.(focus := b.focus), u.events + b.events)
  {
  }

  /** Relative motion that stays on the screen is applied exactly. */
  lemma MotionInsideIsExact(w: World, p: D.Peers, order: seq<SurfaceId>, mode: Mode, dx: real, dy: real, now: nat)
    requires Fits(p, order, w)
    requires 0.0 <= w.x + dx <= mode.hdisplay as real && 0.0 <= w.y + dy <= mode.vdisplay as real
    ensures var r := Handle(w, p, order, mode, PointerMotion(dx, dy, now)).world;
      r.x == w.x + dx && r.y == w.y + dy
  {
  }

  /** process_events over a queue: the handlers applied in arrival order. */
  function Drain(w: World, p: D.Peers, order: seq<SurfaceId>, mode: Mode, q: seq<RawEvent>): (r: Out)
    requires Fits(p, order, w)
    ensures Fits(p, order, r.world)
    decreases |q|
  {
    if q == [] then Out(w, [])
    else
      var d := Drain(w, p, order, mode, q[..|q| - 1]);
      var h := Handle(d.world, p, order, mode, q[|q| - 1]);
      Out(h.world, d.events + h.events)
  }

  /** Over a whole drain, every serial-bearing event takes the next serial and
      the counter ends advanced by exactly their number. */
  lemma {:induction false} DrainSerials(w: World, p: D.Peers, order: seq<SurfaceId>, mode: Mode, q: seq<RawEvent>)
    requires Fits(p, order, w)
    ensures var r := Drain(w, p, order, mode, q); D.Fresh(w.focus, D.Step(r.world.focus, r.events))
    decreases |q|
  {
    if q != [] {
      var d := Drain(w, p, order, mode, q[..|q| - 1]);
      DrainSerials(w, p, order, mode, q[..|q| - 1]);
      var h := Handle(d.world, p, order, mode, q[|q| - 1]);
      D.FreshThen(w.focus, D.Step(d.world.focus, d.events), D.Step(h.world.focus, h.events));
    }
  }

  /** Only relative motion can move the cursor where absolute motion was not
      told to: if every absolute event lies on the screen, the cursor stays on it. */
  lemma {:induction false} DrainStaysOnScreen(w: World, p: D.Peers, order: seq<SurfaceId>, mode: Mode, q: seq<RawEvent>)
    requires Fits(p, order, w) && OnScreen(w, mode)
    requires forall i :: 0 <= i < |q| && q[i].PointerMotionAbsolute? ==>
      0.0 <= q[i].x <= mode.hdisplay as real && 0.0 <= q[i].y <= mode.vdisplay as real
    ensures OnScreen(Drain(w, p, order, mode, q).world, mode)
    decreases |q|
  {
    if q != [] {
      DrainStaysOnScreen(w, p, order, mode, q[..|q| - 1]);
    }
  }

  /** Draining goes on past an ESC press: the events queued behind it are
      still handled, in the same call. */
  lemma {:induction false} DrainAfterEsc(w: World, p: D.Peers, order: seq<SurfaceId>, mode: Mode, now: nat, q: seq<RawEvent>)
    requires Fits(p, order, w)
    ensures Drain(w, p, order, mode, [KeyboardKey(KeyEsc, true, now)] + q) ==
            Drain(w.(terminated := true), p, order, mode, q)
    decreases |q|
  {
    var esc := KeyboardKey(KeyEsc, true, now);
    var s := [esc] + q;
    if q == [] {
      assert s[..|s| - 1] == [];
      assert s[|s| - 1] == esc;
    } else {
      var q' := q[..|q| - 1];
      assert s[..|s| - 1] == [esc] + q';
      assert s[|s| - 1] == q[|q| - 1];
      DrainAfterEsc(w, p, order, mode, now, q');
    }
  }

  /** While no keyboard or pointer resource is on the server's lists, a whole
      drain sends nothing to any client and uses no serial. */
  lemma {:induction false} DrainSilentWithoutResources(w: World, p: D.Peers, order: seq<SurfaceId>, mode: Mode,
                                                       q: seq<RawEvent>)
    requires Fits(p, order, w) && p.keyboards == [] && p.pointers == []
    ensures var r := Drain(w, p, order, mode, q); r.events == [] && r.world.focus.serial == w.focus.serial
    decreases |q|
  {
    if q != [] {
      var d := Drain(w, p, order, mode, q[..|q| - 1]);
      DrainSilentWithoutResources(w, p, order, mode, q[..|q| - 1]);
      var e := q[|q| - 1];
      var u := D.UpdateFocus(d.world.focus, p, order, d.world.x, d.world.y);
      D.NoResourcesNoEvents(d.world.focus, p, None, order, d.world.x, d.world.y, 0, 0, 0);
      match e {
        case KeyboardKey(key, pressed, now) =>
          D.NoResourcesNoEvents(u.focus, p, None, order, d.world.x, d.world.y, key, KeyState(pressed), now);
        case PointerButton(button, pressed, now) =>
          D.NoResourcesNoEvents(u.focus, p, None, order, d.world.x, d.world.y, button, KeyState(pressed), now);
        case PointerMotion(_, _, now) =>
          var h := Handle(d.world, p, order, mode, e);
          D.NoResourcesNoEvents(d.world.focus, p, None, order, h.world.x, h.world.y, 0, 0, now);
        case PointerMotionAbsolute(x, y, now) =>
          D.NoResourcesNoEvents(d.world.focus, p, None, order, x, y, 0, 0, now);
        case Other =>
      }
    }
  }

  /** The router and cursor as one `World`. */
  function WorldOf(router: D.InputRouter, cursor: CursorModel.Cursor): World
    reads router, cursor
  {
    World(router.State(), cursor.x, cursor.y, router.terminated)
  }

  /** The relative-motion handler, step by step as written. */
  method MoveCursor(cursor: CursorModel.Cursor, dx: real, dy: real, mode: Mode)
    modifies cursor`x, cursor`y
    ensures cursor.x == ClampAxis(old(cursor.x) + dx, mode.hdisplay)
    ensures cursor.y == ClampAxis(old(cursor.y) + dy, mode.vdisplay)
  {
    cursor.x := cursor.x + dx;
    cursor.y := cursor.y + dy;
    if cursor.x < 0.0 { cursor.x := 0.0; }
    if cursor.y < 0.0 { cursor.y := 0.0; }
    if cursor.x > mode.hdisplay as real { cursor.x := mode.hdisplay as real; }
    if cursor.y > mode.vdisplay as real { cursor.y := mode.vdisplay as real; }
  }

  /** The switch in process_events with the handlers it calls. */
  method HandleEvent(router: D.InputRouter, cursor: CursorModel.Cursor, reg: Compositor.Registry, mode: Mode, e: RawEvent)
    returns (ev: seq<D.Event>)
    requires Fits(router.PeersWith(reg.owner), reg.order, WorldOf(router, cursor))
    modifies router`focused, router`serial, router`terminated, cursor`x, cursor`y
    ensures Out(WorldOf(router, cursor), ev) ==
            Handle(old(WorldOf(router, cursor)), router.PeersWith(reg.owner), reg.order, mode, e)
  {
    match e {
      case KeyboardKey(key, pressed, now) =>
        ev := HandleKey(router, cursor, reg, mode, key, pressed, now);
      case PointerMotion(dx, dy, now) =>
        MoveCursor(cursor, dx, dy, mode);
        ev := router.DispatchMotion(reg.owner, cursor.x, cursor.y, now);
      case PointerMotionAbsolute(x, y, now) =>
        cursor.x := x;
        cursor.y := y;
        ev := router.DispatchMotion(reg.owner, cursor.x, cursor.y, now);
      case PointerButton(button, pressed, now) =>
        ev := HandleButton(router, cursor, reg, mode, button, pressed, now);
      case Other =>
        ev := [];
    }
  }

  /** handle_keyboard_key. */
  method HandleKey(router: D.InputRouter, cursor: CursorModel.Cursor, reg: Compositor.Registry, mode: Mode,
                   key: nat, pressed: bool, now: nat)
    returns (ev: seq<D.Event>)
    requires Fits(router.PeersWith(reg.owner), reg.order, WorldOf(router, cursor))
    modifies router`focused, router`serial, router`terminated
    ensures Out(WorldOf(router, cursor), ev) ==
            Handle(old(WorldOf(router, cursor)), router.PeersWith(reg.owner), reg.order, mode, KeyboardKey(key, pressed, now))
  {
    var state := if pressed then Pressed else Released;
    if state == Pressed && key == KeyEsc {
      router.terminated := true;
      return [];
    }
    var u := router.UpdateFocusFrom(reg.owner, reg.order, cursor.x, cursor.y);
    var k := router.DispatchKey(reg.owner, key, state, now);
    ev := u + k;
  }

  /** handle_pointer_button. */
  method HandleButton(router: D.InputRouter, cursor: CursorModel.Cursor, reg: Compositor.Registry, mode: Mode,
                      button: nat, pressed: bool, now: nat)
    returns (ev: seq<D.Event>)
    requires Fits(router.PeersWith(reg.owner), reg.order, WorldOf(router, cursor))
    modifies router`focused, router`serial
    ensures Out(WorldOf(router, cursor), ev) ==
            Handle(old(WorldOf(router, cursor)), router.PeersWith(reg.owner), reg.order, mode, PointerButton(button, pressed, now))
  {
    var state := if pressed then Pressed else Released;
    var u := router.UpdateFocusFrom(reg.owner, reg.order, cursor.x, cursor.y);
    var b := router.DispatchButton(reg.owner, button, state, now);
    ev := u + b;
  }

  /** process_events: the queue is drained front to back. */
  method ProcessEvents(router: D.InputRouter, cursor: CursorModel.Cursor, reg: Compositor.Registry, mode: Mode,
                       queue: seq<RawEvent>)
    returns (ev: seq<D.Event>)
    requires Fits(router.PeersWith(reg.owner), reg.order, WorldOf(router, cursor))
    modifies router`focused, router`serial, router`terminated, cursor`x, cursor`y
    ensures Out(WorldOf(router, cursor), ev) ==
            Drain(old(WorldOf(router, cursor)), router.PeersWith(reg.owner), reg.order, mode, queue)
  {
    ev := [];
    var i := 0;
    while i < |queue|
      invariant 0 <= i <= |queue|
      invariant Fits(router.PeersWith(reg.owner), reg.order, WorldOf(router, cursor))
      invariant Out(WorldOf(router, cursor), ev) ==
                Drain(old(WorldOf(router, cursor)), router.PeersWith(reg.owner), reg.order, mode, queue[..i])
    {
      var more := HandleEvent(router, cursor, reg, mode, queue[i]);
      assert queue[..i + 1][..i] == queue[..i];
      ev := ev + more;
      i := i + 1;
    }
    assert queue[..|queue|] == queue;
  }

  /** on_input_readable: 0 and nothing processed when the library's dispatch
      fails, otherwise the whole queue is drained and 1 returned. */
  method OnInputReadable(router: D.InputRouter, cursor: CursorModel.Cursor, reg: Compositor.Registry, mode: Mode,
                         dispatchOk: bool, queue: seq<RawEvent>)
    returns (rc: int, ev: seq<D.Event>)
    requires Fits(router.PeersWith(reg.owner), reg.order, WorldOf(router, cursor))
    modifies router`focused, router`serial, router`terminated, cursor`x, cursor`y
    ensures !dispatchOk ==> rc == 0 && ev == [] && WorldOf(router, cursor) == old(WorldOf(router, cursor))
    ensures dispatchOk ==>
      rc == 1 && Out(WorldOf(router, cursor), ev) == Drain(old(WorldOf(router, cursor)), router.PeersWith(reg.owner), reg.order, mode, queue)
  {
    if !dispatchOk {
      return 0, [];
    }
    ev := ProcessEvents(router, cursor, reg, mode, queue);
    rc := 1;
  }
}
