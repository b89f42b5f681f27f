/** The earlier input and seat code (src/input/seat.c). Its libinput handlers
    move the server's `cursor_x`/`cursor_y` and stop the display on ESC, but
    never send anything to a client: there is no focus and no dispatch. Its
    seat_bind and seat_get_keyboard are the code of src/wayland/seat.c again,
    so the events they send are `Seat.BindEvents` and `Seat.GetKeyboard`. */
module SeatLegacy {
  import opened Types
  import Input
  import Seat

  /** The server fields the legacy handlers read and write. */
  datatype Pointer = Pointer(x: real, y: real, terminated: bool)

  predicate EscPress(e: Input.RawEvent) {
    e.KeyboardKey? && e.pressed && e.key == Input.KeyEsc
  }

  /** One iteration of the legacy process_events. */
  function Handle(s: Pointer, mode: Mode, e: Input.RawEvent): (r: Pointer)
    ensures r.terminated == (s.terminated || EscPress(e))
    ensures e.PointerMotion? ==>
      && 0.0 <= r.x <= mode.hdisplay as real && 0.0 <= r.y <= mode.vdisplay as real
      && (0.0 <= s.x + e.dx <= mode.hdisplay as real ==> r.x == s.x + e.dx)
      && (0.0 <= s.y + e.dy <= mode.vdisplay as real ==> r.y == s.y + e.dy)
    ensures e.PointerMotionAbsolute? ==> r.x == e.x && r.y == e.y
    ensures !e.PointerMotion? && !e.PointerMotionAbsolute? ==> r.x == s.x && r.y == s.y
  {
    match e
    case KeyboardKey(key, pressed, _) =>
      if pressed && key == Input.KeyEsc then s.(terminated := true) else s
    case PointerMotion(dx, dy, _) =>
      s.(x := Input.ClampAxis(s.x + dx, mode.hdisplay), y := Input.ClampAxis(s.y + dy, mode.vdisplay))
    case PointerMotionAbsolute(x, y, _) => s.(x := x, y := y)
    case PointerButton(_, _, _) => s
    case Other => s
  }

  /** The legacy process_events over a queue, in arrival order. */
  function Drain(s: Pointer, mode: Mode, q: seq<Input.RawEvent>): (r: Pointer)
    decreases |q|
  {
    if q == [] then s else Handle(Drain(s, mode, q[..|q| - 1]), mode, q[|q| - 1])
  }

  /** The display is stopped after a drain exactly when it was already, or
      some ESC press was queued. */
  lemma {:induction false} DrainStops(s: Pointer, mode: Mode, q: seq<Input.RawEvent>)
    ensures Drain(s, mode, q).terminated <==> s.terminated || exists i :: 0 <= i < |q| && EscPress(q[i])
    decreases |q|
  {
    if q != [] {
      var q' := q[..|q| - 1];
      DrainStops(s, mode, q');
      if exists i :: 0 <= i < |q'| && EscPress(q'[i]) {
        var i :| 0 <= i < |q'| && EscPress(q'[i]);
        assert q[i] == q'[i];
      }
      if exists i :: 0 <= i < |q| && EscPress(q[i]) {
        var i :| 0 <= i < |q| && EscPress(q[i]);
        if i < |q| - 1 {
          assert q'[i] == q[i];
        }
      }
    }
  }

  /** With every absolute position on the screen, a cursor on the screen stays
      there through a drain. */
  lemma {:induction false} DrainStaysOnScreen(s: Pointer, mode: Mode, q: seq<Input.RawEvent>)
    requires 0.0 <= s.x <= mode.hdisplay as real && 0.0 <= s.y <= mode.vdisplay as real
    requires forall i :: 0 <= i < |q| && q[i].PointerMotionAbsolute? ==>
      0.0 <= q[i].x <= mode.hdisplay as real && 0.0 <= q[i].y <= mode.vdisplay as real
    ensures var r := Drain(s, mode, q); 0.0 <= r.x <= mode.hdisplay as real && 0.0 <= r.y <= mode.vdisplay as real
    decreases |q|
  {
    if q != [] {
      DrainStaysOnScreen(s, mode, q[..|q| - 1]);
    }
  }

  /** The legacy handlers move the cursor and stop the display exactly as the
      current ones in src/input/input.c do: the two variants differ only in
      what they send to clients. */
  lemma HandleAgreesWithInput(w: Input.World, p: Input.D.Peers, order: seq<SurfaceId>, mode: Mode, e: Input.RawEvent)
    requires Input.Fits(p, order, w)
    ensures var r := Input.Handle(w, p, order, mode, e).world;
      Handle(Pointer(w.x, w.y, w.terminated), mode, e) == Pointer(r.x, r.y, r.terminated)
  {
  }

  /** The same over a whole drain. */
  lemma {:induction false} DrainAgreesWithInput(w: Input.World, p: Input.D.Peers, order: seq<SurfaceId>, mode: Mode,
                                                q: seq<Input.RawEvent>)
    requires Input.Fits(p, order, w)
    ensures var r := Input.Drain(w, p, order, mode, q).world;
      Drain(Pointer(w.x, w.y, w.terminated), mode, q) == Pointer(r.x, r.y, r.terminated)
    decreases |q|
  {
    if q != [] {
      var q' := q[..|q| - 1];
      DrainAgreesWithInput(w, p, order, mode, q');
      HandleAgreesWithInput(Input.Drain(w, p, order, mode, q').world, p, order, mode, q[|q| - 1]);
    }
  }

  /** init_input: udev, the libinput context, the seat assignment and the
      wl_seat global, in that order; -1 at the first failure. */
  function InitInput(udevOk: bool, contextOk: bool, assignOk: bool, globalOk: bool): (rc: int)
    ensures rc == 0 <==> udevOk && contextOk && assignOk && globalOk
    ensures rc == 0 || rc == -1
  {
    if !udevOk then -1
    else if !contextOk then -1
    else if !assignOk then -1
    else if !globalOk then -1
    else 0
  }

  /** The server of the earlier variant, as far as src/input/seat.c uses it. */
  class LegacyServer {
    var cursorX: real
    var cursorY: real
    var terminated: bool
    /** `seat_resources`, newest first. */
    var seatResources: seq<ResourceId>

    function State(): Pointer
      reads this
    {
      Pointer(cursorX, cursorY, terminated)
    }

    constructor (x: real, y: real)
      ensures State() == Pointer(x, y, false) && seatResources == []
    {
      cursorX, cursorY, terminated, seatResources := x, y, false, [];
    }

    /** The switch in process_events with the handlers it calls. */
    method HandleEvent(mode: Mode, e: Input.RawEvent)
      modifies this`cursorX, this`cursorY, this`terminated
      ensures State() == Handle(old(State()), mode, e)
    {
      match e {
        case KeyboardKey(key, pressed, _) =>
          if pressed {
            if key == Input.KeyEsc {
              terminated := true;
            }
          }
        case PointerMotion(dx, dy, _) =>
          cursorX := cursorX + dx;
          cursorY := cursorY + dy;
          if cursorX < 0.0 { cursorX := 0.0; }
          if cursorY < 0.0 { cursorY := 0.0; }
          if cursorX > mode.hdisplay as real { cursorX := mode.hdisplay as real; }
          if cursorY > mode.vdisplay as real { cursorY := mode.vdisplay as real; }
        case PointerMotionAbsolute(x, y, _) =>
          cursorX := x;
          cursorY := y;
        case PointerButton(_, _, _) =>
        case Other =>
      }
    }

    /** process_events: the queue is drained front to back. */
    method ProcessEvents(mode: Mode, queue: seq<Input.RawEvent>)
      modifies this`cursorX, this`cursorY, this`terminated
      ensures State() == Drain(old(State()), mode, queue)
    {
      var i := 0;
      while i < |queue|
        invariant 0 <= i <= |queue|
        invariant State() == Drain(old(State()), mode, queue[..i])
      {
        HandleEvent(mode, queue[i]);
        assert queue[..i + 1][..i] == queue[..i];
        i := i + 1;
      }
      assert queue[..|queue|] == queue;
    }

    /** on_input_readable: 0 and nothing processed when the library's dispatch
        fails, otherwise the whole queue is drained and 1 returned. */
    method OnInputReadable(dispatchOk: bool, mode: Mode, queue: seq<Input.RawEvent>) returns (rc: int)
      modifies this`cursorX, this`cursorY, this`terminated
      ensures !dispatchOk ==> rc == 0 && State() == old(State())
      ensures dispatchOk ==> rc == 1 && State() == Drain(old(State()), mode, queue)
    {
      if !dispatchOk {
        return 0;
      }
      ProcessEvents(mode, queue);
      return 1;
    }

    /** seat_bind: the resource goes to the head of `seat_resources`, and the
        events are those of the current seat_bind. */
    method Bind(version: nat, id: ResourceId) returns (ev: seq<Seat.SeatEvent>)
      modifies this`seatResources
      ensures seatResources == [id] + old(seatResources)
      ensures ev == Seat.BindEvents(version)
    {
      seatResources := [id] + seatResources;
      ev := [Seat.Capabilities(Seat.CapPointer + Seat.CapKeyboard)];
      if version >= 2 {
        ev := ev + [Seat.Name(Seat.SeatName)];
      }
    }
  }
}
