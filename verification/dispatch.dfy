/** Keyboard focus and the delivery of input events to the focused client
    (src/input/dispatch.c). The decisions are pure step functions over the focus
    state; `InputRouter` holds that state and its methods take exactly those steps.
    The keyboard and pointer resource lists, the focused surface and the display
    serial are the server state the C code uses. */
module Dispatch {
  import opened Types

  /** A wl_keyboard or wl_pointer resource and the client that owns it. */
  datatype Resource = Resource(id: ResourceId, client: ClientId)

  /** A global cursor coordinate made surface-local. */
  function Local(c: real): real {
    c - Origin
  }

  /** Events sent to clients (wl_keyboard and wl_pointer). */
  datatype Event =
    | KeyboardEnter(keyboard: ResourceId, serial: nat, surface: SurfaceId, keys: seq<nat>)
    | KeyboardLeave(keyboard: ResourceId, serial: nat, surface: SurfaceId)
    | KeyboardKey(keyboard: ResourceId, serial: nat, time: nat, key: nat, state: nat)
    | KeyboardModifiers(keyboard: ResourceId, serial: nat, depressed: nat, latched: nat, locked: nat, group: nat)
    | PointerEnter(pointer: ResourceId, serial: nat, surface: SurfaceId, sx: real, sy: real)
    | PointerMotion(pointer: ResourceId, time: nat, sx: real, sy: real)
    | PointerButton(pointer: ResourceId, serial: nat, time: nat, button: nat, state: nat)
  {
    predicate IsEnter() {
      KeyboardEnter? || PointerEnter?
    }
  }

  /** The serials carried by a run of events, in order (motion carries none). */
  function Serials(ev: seq<Event>): (r: seq<nat>)
    ensures |r| <= |ev|
  {
    if ev == [] then []
    else (if ev[0].PointerMotion? then [] else [ev[0].serial]) + Serials(ev[1..])
  }

  lemma {:induction false} SerialsAppend(a: seq<Event>, b: seq<Event>)
    ensures Serials(a + b) == Serials(a) + Serials(b)
  {
    if a == [] {
      assert a + b == b;
    } else {
      assert (a + b)[1..] == a[1..] + b;
      SerialsAppend(a[1..], b);
    }
  }

  /** The first resource of `client` in `list`, as find_keyboard_for_client and
      find_pointer_for_client search for it. */
  function FindFor(list: seq<Resource>, client: ClientId): Option<ResourceId> {
    if list == [] then None
    else if list[0].client == client then Some(list[0].id)
    else FindFor(list[1..], client)
  }

  /** The search finds nothing exactly when the client has no resource on the
      list, and otherwise the resource of its first entry. */
  lemma {:induction false} FindForFirst(list: seq<Resource>, client: ClientId)
    ensures FindFor(list, client).None? <==> forall i :: 0 <= i < |list| ==> list[i].client != client
    ensures FindFor(list, client).Some? ==>
      exists i :: && 0 <= i < |list| && list[i] == Resource(FindFor(list, client).value, client)
                  && forall j :: 0 <= j < i ==> list[j].client != client
  {
    if list == [] {
    } else if list[0].client == client {
      assert list[0] == Resource(list[0].id, client);
    } else {
      FindForFirst(list[1..], client);
      var r := FindFor(list[1..], client);
      if r.Some? {
        var i :| && 0 <= i < |list[1..]| && list[1..][i] == Resource(r.value, client)
                 && forall j :: 0 <= j < i ==> list[1..][j].client != client;
        assert list[i + 1] == Resource(r.value, client);
        forall j | 0 <= j < i + 1 ensures list[j].client != client {
          if j > 0 { assert list[j] == list[1..][j - 1]; }
        }
      } else {
        forall i | 0 <= i < |list| ensures list[i].client != client {
          if i > 0 { assert list[i] == list[1..][i - 1]; }
        }
      }
    }
  }

  /** The focused surface (`server->focused_surface`) and the last serial the
      display handed out. */
  datatype Focus = Focus(focused: Option<SurfaceId>, serial: nat)

  /** What dispatch reads but never changes: the resource lists and which client
      owns each surface. */
  datatype Peers = Peers(keyboards: seq<Resource>, pointers: seq<Resource>, owner: map<SurfaceId, ClientId>)
  {
    predicate Knows(s: Option<SurfaceId>) {
      s.Some? ==> s.value in owner
    }

    function Keyboard(s: SurfaceId): Option<ResourceId>
      requires s in owner
    {
      FindFor(keyboards, owner[s])
    }

    function Pointer(s: SurfaceId): Option<ResourceId>
      requires s in owner
    {
      FindFor(pointers, owner[s])
    }
  }

  /** A dispatch step: the focus state afterwards and the events sent. */
  datatype Step = Step(focus: Focus, events: seq<Event>)

  /** Every serial-bearing event of the step took the next serial, in order,
      and the counter advanced by exactly that many. */
  predicate Fresh(before: Focus, r: Step) {
    && Consecutive(Serials(r.events), before.serial)
    && r.focus.serial == before.serial + |Serials(r.events)|
  }

  lemma FreshThen(f: Focus, a: Step, b: Step)
    requires Fresh(f, a) && Fresh(a.focus, b)
    ensures Fresh(f, Step(b.focus, a.events + b.events))
  {
    SerialsAppend(a.events, b.events);
    ConsecutiveAppend(Serials(a.events), Serials(b.events), f.serial);
  }

  /** dispatch_keyboard_key. */
  function Key(f: Focus, p: Peers, key: nat, state: nat, time: nat): (r: Step)
    requires p.Knows(f.focused)
    ensures r.focus.focused == f.focused && Fresh(f, r)
    ensures f.focused.None? ==> r == Step(f, [])
    ensures r.events == [] <==> f.focused.None? || p.Keyboard(f.focused.value).None?
    ensures |r.events| <= 1
    ensures forall e :: e in r.events ==>
      e == KeyboardKey(p.Keyboard(f.focused.value).value, f.serial + 1, time, key, state)
  {
    if f.focused.None? then Step(f, [])
    else match p.Keyboard(f.focused.value)
      case None => Step(f, [])
      case Some(k) => Step(f.(serial := f.serial + 1), [KeyboardKey(k, f.serial + 1, time, key, state)])
  }

  /** dispatch_keyboard_modifiers. */
  function Modifiers(f: Focus, p: Peers, depressed: nat, latched: nat, locked: nat, group: nat): (r: Step)
    requires p.Knows(f.focused)
    ensures r.focus.focused == f.focused && Fresh(f, r)
    ensures f.focused.None? ==> r == Step(f, [])
    ensures r.events == [] <==> f.focused.None? || p.Keyboard(f.focused.value).None?
    ensures |r.events| <= 1
    ensures forall e :: e in r.events ==>
      e == KeyboardModifiers(p.Keyboard(f.focused.value).value, f.serial + 1, depressed, latched, locked, group)
  {
    if f.focused.None? then Step(f, [])
    else match p.Keyboard(f.focused.value)
      case None => Step(f, [])
      case Some(k) =>
        Step(f.(serial := f.serial + 1), [KeyboardModifiers(k, f.serial + 1, depressed, latched, locked, group)])
  }

  /** dispatch_pointer_motion: global cursor position made surface-local; no serial. */
  function Motion(f: Focus, p: Peers, x: real, y: real, time: nat): (ev: seq<Event>)
    requires p.Knows(f.focused)
    ensures Serials(ev) == []
    ensures ev == [] <==> f.focused.None? || p.Pointer(f.focused.value).None?
    ensures |ev| <= 1
    ensures forall e :: e in ev ==>
      e == PointerMotion(p.Pointer(f.focused.value).value, time, Local(x), Local(y))
  {
    if f.focused.None? then []
    else match p.Pointer(f.focused.value)
      case None => []
      case Some(q) => [PointerMotion(q, time, Local(x), Local(y))]
  }

  /** dispatch_pointer_button. */
  function Button(f: Focus, p: Peers, button: nat, state: nat, time: nat): (r: Step)
    requires p.Knows(f.focused)
    ensures r.focus.focused == f.focused && Fresh(f, r)
    ensures f.focused.None? ==> r == Step(f, [])
    ensures r.events == [] <==> f.focused.None? || p.Pointer(f.focused.value).None?
    ensures |r.events| <= 1
    ensures forall e :: e in r.events ==>
      e == PointerButton(p.Pointer(f.focused.value).value, f.serial + 1, time, button, state)
  {
    if f.focused.None? then Step(f, [])
    else match p.Pointer(f.focused.value)
      case None => Step(f, [])
      case Some(q) => Step(f.(serial := f.serial + 1), [PointerButton(q, f.serial + 1, time, button, state)])
  }

  /** All leaves come before all enters. */
  predicate LeaveFirst(ev: seq<Event>) {
    forall i, j :: 0 <= i < |ev| && 0 <= j < |ev| && ev[i].KeyboardLeave? && ev[j].IsEnter() ==> i < j
  }

  /** Any keyboard enter comes before any pointer enter. */
  predicate KeyboardBeforePointer(ev: seq<Event>) {
    forall i, j :: 0 <= i < |ev| && 0 <= j < |ev| && ev[i].KeyboardEnter? && ev[j].PointerEnter? ==> i < j
  }

  predicate HasLeave(ev: seq<Event>) {
    exists e :: e in ev && e.KeyboardLeave?
  }

  predicate HasKeyboardEnter(ev: seq<Event>) {
    exists e :: e in ev && e.KeyboardEnter?
  }

  predicate HasPointerEnter(ev: seq<Event>) {
    exists e :: e in ev && e.PointerEnter?
  }

  /** What set_keyboard_focus finds before it sends anything: the keyboard of
      the surface losing focus (looked up only when focus moves away from a
      surface), and the keyboard and pointer of the surface gaining it. */
  datatype Lookup = Lookup(leaving: Option<ResourceId>, keyboard: Option<ResourceId>, pointer: Option<ResourceId>)

  function Look(f: Focus, p: Peers, s: Option<SurfaceId>): Lookup
    requires p.Knows(f.focused) && p.Knows(s)
  {
    Lookup(
      if f.focused.Some? && f.focused != s then p.Keyboard(f.focused.value) else None,
      if s.Some? then p.Keyboard(s.value) else None,
      if s.Some? then p.Pointer(s.value) else None)
  }

  /** The events of a focus change from `from` to `to`, numbered from
      `serial + 1`: a leave, a keyboard enter with no keys held, and a pointer
      enter at the surface-local cursor position, each only when its resource
      was found. */
  function Handover(serial: nat, from: SurfaceId, to: SurfaceId, l: Lookup, cx: real, cy: real): seq<Event> {
    var leave := if l.leaving.Some? then [KeyboardLeave(l.leaving.value, serial + 1, from)] else [];
    var n := serial + |leave|;
    var kb := if l.keyboard.Some? then [KeyboardEnter(l.keyboard.value, n + 1, to, [])] else [];
    var m := n + |kb|;
    var pt := if l.pointer.Some? then [PointerEnter(l.pointer.value, m + 1, to, Local(cx), Local(cy))] else [];
    leave + kb + pt
  }

  /** When every event carries a serial, the serials are read off in order. */
  lemma {:induction false} SerialsOfKeyed(ev: seq<Event>)
    requires forall e :: e in ev ==> !e.PointerMotion?
    ensures |Serials(ev)| == |ev|
    ensures forall i :: 0 <= i < |ev| ==> Serials(ev)[i] == ev[i].serial
  {
    if ev != [] {
      assert forall e :: e in ev[1..] ==> e in ev;
      SerialsOfKeyed(ev[1..]);
      assert Serials(ev) == [ev[0].serial] + Serials(ev[1..]);
    }
  }

  /** A focus change numbers its events `serial + 1, serial + 2, ...`. */
  lemma HandoverSerials(serial: nat, from: SurfaceId, to: SurfaceId, l: Lookup, cx: real, cy: real, ev: seq<Event>)
    requires ev == Handover(serial, from, to, l, cx, cy)
    ensures Consecutive(Serials(ev), serial) && |Serials(ev)| == |ev|
  {
    HandoverCases(serial, from, to, l, cx, cy, ev);
    SerialsOfKeyed(ev);
  }

  /** A focus change sends only leaves and enters, every leave ahead of every
      enter and the keyboard enter ahead of the pointer enter. */
  lemma HandoverOrder(serial: nat, from: SurfaceId, to: SurfaceId, l: Lookup, cx: real, cy: real, ev: seq<Event>)
    requires ev == Handover(serial, from, to, l, cx, cy)
    ensures forall e :: e in ev ==> e.KeyboardLeave? || e.IsEnter()
    ensures LeaveFirst(ev) && KeyboardBeforePointer(ev)
  {
    HandoverCases(serial, from, to, l, cx, cy, ev);
  }

  /** Each event of a focus change is sent exactly when its resource was found. */
  lemma HandoverPresence(serial: nat, from: SurfaceId, to: SurfaceId, l: Lookup, cx: real, cy: real, ev: seq<Event>)
    requires ev == Handover(serial, from, to, l, cx, cy)
    ensures HasLeave(ev) <==> l.leaving.Some?
    ensures HasKeyboardEnter(ev) <==> l.keyboard.Some?
    ensures HasPointerEnter(ev) <==> l.pointer.Some?
  {
    HandoverCases(serial, from, to, l, cx, cy, ev);
    match (l.leaving, l.keyboard, l.pointer)
    case (None, None, None) =>
    case (None, None, Some(q)) => assert ev[0] in ev;
    case (None, Some(k), None) => assert ev[0] in ev;
    case (None, Some(k), Some(q)) => assert ev[0] in ev && ev[1] in ev;
    case (Some(o), None, None) => assert ev[0] in ev;
    case (Some(o), None, Some(q)) => assert ev[0] in ev && ev[1] in ev;
    case (Some(o), Some(k), None) => assert ev[0] in ev && ev[1] in ev;
    case (Some(o), Some(k), Some(q)) => assert ev[0] in ev && ev[1] in ev && ev[2] in ev;
  }

  /** Each event of a focus change goes to the resource found for it and names
      the right surface; enters carry no keys and the surface-local cursor. */
  lemma HandoverTargets(serial: nat, from: SurfaceId, to: SurfaceId, l: Lookup, cx: real, cy: real, ev: seq<Event>)
    requires ev == Handover(serial, from, to, l, cx, cy)
    ensures forall e :: e in ev && e.KeyboardLeave? ==> e.surface == from && e.keyboard == l.leaving.value
    ensures forall e :: e in ev && e.IsEnter() ==> e.surface == to
    ensures forall e :: e in ev && e.KeyboardEnter? ==> e.keyboard == l.keyboard.value && e.keys == []
    ensures forall e :: e in ev && e.PointerEnter? ==> e.pointer == l.pointer.value && e.sx == Local(cx) && e.sy == Local(cy)
  {
    HandoverCases(serial, from, to, l, cx, cy, ev);
  }

  /** The eight possible focus changes, written out. */
  lemma HandoverCases(serial: nat, from: SurfaceId, to: SurfaceId, l: Lookup, cx: real, cy: real, ev: seq<Event>)
    requires ev == Handover(serial, from, to, l, cx, cy)
    ensures match (l.leaving, l.keyboard, l.pointer)
      case (None, None, None) => ev == []
      case (None, None, Some(q)) => ev == [PointerEnter(q, serial + 1, to, Local(cx), Local(cy))]
      case (None, Some(k), None) => ev == [KeyboardEnter(k, serial + 1, to, [])]
      case (None, Some(k), Some(q)) =>
        ev == [KeyboardEnter(k, serial + 1, to, []), PointerEnter(q, serial + 2, to, Local(cx), Local(cy))]
      case (Some(o), None, None) => ev == [KeyboardLeave(o, serial + 1, from)]
      case (Some(o), None, Some(q)) =>
        ev == [KeyboardLeave(o, serial + 1, from), PointerEnter(q, serial + 2, to, Local(cx), Local(cy))]
      case (Some(o), Some(k), None) =>
        ev == [KeyboardLeave(o, serial + 1, from), KeyboardEnter(k, serial + 2, to, [])]
      case (Some(o), Some(k), Some(q)) =>
        ev == [KeyboardLeave(o, serial + 1, from), KeyboardEnter(k, serial + 2, to, []),
               PointerEnter(q, serial + 3, to, Local(cx), Local(cy))]
  {
  }

  /** set_keyboard_focus. */
  function SetFocus(f: Focus, p: Peers, s: Option<SurfaceId>, cx: real, cy: real): Step
    requires p.Knows(f.focused) && p.Knows(s)
  {
    var from := if f.focused.Some? then f.focused.value else 0;
    var to := if s.Some? then s.value else 0;
    var ev := Handover(f.serial, from, to, Look(f, p, s), cx, cy);
    Step(Focus(s, f.serial + |ev|), ev)
  }

  /** Focus ends on `s`, and every serial set_keyboard_focus uses is fresh. */
  lemma SetFocusFresh(f: Focus, p: Peers, s: Option<SurfaceId>, cx: real, cy: real)
    requires p.Knows(f.focused) && p.Knows(s)
    ensures var r := SetFocus(f, p, s, cx, cy); r.focus.focused == s && Fresh(f, r)
  {
    var from := if f.focused.Some? then f.focused.value else 0;
    var to := if s.Some? then s.value else 0;
    HandoverSerials(f.serial, from, to, Look(f, p, s), cx, cy, SetFocus(f, p, s, cx, cy).events);
  }

  /** The old surface gets a leave, ahead of every enter, exactly when it
      differs from the new one and its client has a keyboard; the leave goes
      to that keyboard and names the old surface. */
  lemma SetFocusLeaves(f: Focus, p: Peers, s: Option<SurfaceId>, cx: real, cy: real, ev: seq<Event>)
    requires p.Knows(f.focused) && p.Knows(s) && ev == SetFocus(f, p, s, cx, cy).events
    ensures forall e :: e in ev ==> e.KeyboardLeave? || e.IsEnter()
    ensures LeaveFirst(ev)
    ensures HasLeave(ev) <==> f.focused.Some? && f.focused != s && p.Keyboard(f.focused.value).Some?
    ensures forall e :: e in ev && e.KeyboardLeave? ==>
      Some(e.surface) == f.focused && e.keyboard == p.Keyboard(f.focused.value).value
  {
    var from := if f.focused.Some? then f.focused.value else 0;
    var to := if s.Some? then s.value else 0;
    HandoverOrder(f.serial, from, to, Look(f, p, s), cx, cy, ev);
    HandoverPresence(f.serial, from, to, Look(f, p, s), cx, cy, ev);
    HandoverTargets(f.serial, from, to, Look(f, p, s), cx, cy, ev);
  }

  /** The new surface gets a keyboard enter with no keys held when its client
      has a keyboard, then a pointer enter at the surface-local cursor position
      when it has a pointer. */
  lemma SetFocusEnters(f: Focus, p: Peers, s: Option<SurfaceId>, cx: real, cy: real, ev: seq<Event>)
    requires p.Knows(f.focused) && p.Knows(s) && ev == SetFocus(f, p, s, cx, cy).events
    ensures KeyboardBeforePointer(ev)
    ensures forall e :: e in ev && e.IsEnter() ==> Some(e.surface) == s
    ensures s.Some? ==> (HasKeyboardEnter(ev) <==> p.Keyboard(s.value).Some?)
    ensures s.Some? ==> (HasPointerEnter(ev) <==> p.Pointer(s.value).Some?)
    ensures s.None? ==> !HasKeyboardEnter(ev) && !HasPointerEnter(ev)
    ensures forall e :: e in ev && e.KeyboardEnter? ==> e.keyboard == p.Keyboard(s.value).value && e.keys == []
    ensures forall e :: e in ev && e.PointerEnter? ==>
      e.pointer == p.Pointer(s.value).value && e.sx == Local(cx) && e.sy == Local(cy)
  {
    var from := if f.focused.Some? then f.focused.value else 0;
    var to := if s.Some? then s.value else 0;
    HandoverOrder(f.serial, from, to, Look(f, p, s), cx, cy, ev);
    HandoverPresence(f.serial, from, to, Look(f, p, s), cx, cy, ev);
    HandoverTargets(f.serial, from, to, Look(f, p, s), cx, cy, ev);
  }

  /** update_focus: an empty surface list clears focus without a leave; with no
      focus the head of the list (the newest surface) gets it; otherwise nothing. */
  function UpdateFocus(f: Focus, p: Peers, order: seq<SurfaceId>, cx: real, cy: real): (r: Step)
    requires p.Knows(f.focused) && forall s :: s in order ==> s in p.owner
    ensures p.Knows(r.focus.focused) && Fresh(f, r)
    ensures order == [] ==> r.focus.focused == None && r.events == []
    ensures order != [] && f.focused.None? ==> r.focus.focused == Some(order[0])
    ensures order != [] && f.focused.Some? ==> r == Step(f, [])
  {
    if order == [] then Step(f.(focused := None), [])
    else if f.focused.Some? then Step(f, [])
    else
      SetFocusFresh(f, p, Some(order[0]), cx, cy);
      SetFocus(f, p, Some(order[0]), cx, cy)
  }

  /** With no focus, auto-focus sends no leave and ends on the newest surface. */
  lemma AutoFocusTakesNewest(f: Focus, p: Peers, order: seq<SurfaceId>, cx: real, cy: real)
    requires p.Knows(f.focused) && forall s :: s in order ==> s in p.owner
    requires order != [] && f.focused.None?
    ensures var r := UpdateFocus(f, p, order, cx, cy);
      r.focus.focused == Some(order[0]) && forall e :: e in r.events ==> e.IsEnter()
  {
    SetFocusLeaves(f, p, Some(order[0]), cx, cy, UpdateFocus(f, p, order, cx, cy).events);
  }

  /** A focused surface that has left the list (destroyed) keeps focus: later
      dispatch still goes to the client that owned it. */
  lemma DestroyedFocusStays(f: Focus, p: Peers, order: seq<SurfaceId>, cx: real, cy: real, key: nat, state: nat, time: nat)
    requires p.Knows(f.focused) && forall s :: s in order ==> s in p.owner
    requires f.focused.Some? && f.focused.value !in order && order != []
    requires p.Keyboard(f.focused.value).Some?
    ensures var r := UpdateFocus(f, p, order, cx, cy);
      r.focus.focused == f.focused &&
      Key(r.focus, p, key, state, time).events ==
        [KeyboardKey(p.Keyboard(f.focused.value).value, f.serial + 1, time, key, state)]
  {
  }

  /** No code of the server adds to `keyboard_resources` or
      `pointer_resources`. While both lists are empty, no dispatch and no
      focus change sends anything, and none uses a serial. */
  lemma NoResourcesNoEvents(f: Focus, p: Peers, s: Option<SurfaceId>, order: seq<SurfaceId>, cx: real, cy: real,
                            code: nat, state: nat, time: nat)
    requires p.keyboards == [] && p.pointers == []
    requires p.Knows(f.focused) && p.Knows(s) && forall t :: t in order ==> t in p.owner
    ensures SetFocus(f, p, s, cx, cy) == Step(Focus(s, f.serial), [])
    ensures UpdateFocus(f, p, order, cx, cy).events == []
    ensures Key(f, p, code, state, time) == Step(f, [])
    ensures Button(f, p, code, state, time) == Step(f, [])
    ensures Modifiers(f, p, code, state, time, 0) == Step(f, [])
    ensures Motion(f, p, cx, cy, time) == []
  {
    if order != [] && f.focused.None? {
      assert UpdateFocus(f, p, order, cx, cy) == SetFocus(f, p, Some(order[0]), cx, cy);
    }
  }

  /** The focus-related part of `struct ember_server` and of the display. The
      fields `focused_surface`, `keyboard_resources` and `pointer_resources` are
      used by the C code but not declared in its server struct; they are
      modelled here. `terminated` is the display's stop flag. */
  class InputRouter {
    var focused: Option<SurfaceId>
    var serial: nat
    var keyboards: seq<Resource>
    var pointers: seq<Resource>
    var terminated: bool

    function State(): Focus
      reads this
    {
      Focus(focused, serial)
    }

    function PeersWith(owner: map<SurfaceId, ClientId>): Peers
      reads this
    {
      Peers(keyboards, pointers, owner)
    }

    constructor ()
      ensures focused == None && serial == 0 && keyboards == [] && pointers == [] && !terminated
    {
      focused, serial, keyboards, pointers, terminated := None, 0, [], [], false;
    }

    /** wl_display_next_serial. */
    method NextSerial() returns (s: nat)
      modifies this`serial
      ensures s == old(serial) + 1 && serial == s
    {
      serial := serial + 1;
      s := serial;
    }

    method DispatchKey(owner: map<SurfaceId, ClientId>, key: nat, state: nat, time: nat) returns (ev: seq<Event>)
      requires PeersWith(owner).Knows(focused)
      modifies this`serial
      ensures Step(State(), ev) == Key(old(State()), PeersWith(owner), key, state, time)
    {
      ev := [];
      if focused.None? { return; }
      var keyboard := FindFor(keyboards, owner[focused.value]);
      if keyboard.None? { return; }
      var s := NextSerial();
      ev := [KeyboardKey(keyboard.value, s, time, key, state)];
    }

    method DispatchModifiers(owner: map<SurfaceId, ClientId>, depressed: nat, latched: nat, locked: nat, group: nat)
      returns (ev: seq<Event>)
      requires PeersWith(owner).Knows(focused)
      modifies this`serial
      ensures Step(State(), ev) == Modifiers(old(State()), PeersWith(owner), depressed, latched, locked, group)
    {
      ev := [];
      if focused.None? { return; }
      var keyboard := FindFor(keyboards, owner[focused.value]);
      if keyboard.None? { return; }
      var s := NextSerial();
      ev := [KeyboardModifiers(keyboard.value, s, depressed, latched, locked, group)];
    }

    method DispatchMotion(owner: map<SurfaceId, ClientId>, x: real, y: real, time: nat) returns (ev: seq<Event>)
      requires PeersWith(owner).Knows(focused)
      ensures ev == Motion(State(), PeersWith(owner), x, y, time)
    {
      ev := [];
      if focused.None? { return; }
      var pointer := FindFor(pointers, owner[focused.value]);
      if pointer.None? { return; }
      var sx := Local(x);
      var sy := Local(y);
      ev := [PointerMotion(pointer.value, time, sx, sy)];
    }

    method DispatchButton(owner: map<SurfaceId, ClientId>, button: nat, state: nat, time: nat) returns (ev: seq<Event>)
      requires PeersWith(owner).Knows(focused)
      modifies this`serial
      ensures Step(State(), ev) == Button(old(State()), PeersWith(owner), button, state, time)
    {
      ev := [];
      if focused.None? { return; }
      var pointer := FindFor(pointers, owner[focused.value]);
      if pointer.None? { return; }
      var s := NextSerial();
      ev := [PointerButton(pointer.value, s, time, button, state)];
    }

    /** set_keyboard_focus. */
    method SetKeyboardFocus(owner: map<SurfaceId, ClientId>, surface: Option<SurfaceId>, cx: real, cy: real)
      returns (ev: seq<Event>)
      requires PeersWith(owner).Knows(focused) && PeersWith(owner).Knows(surface)
      modifies this`focused, this`serial
      ensures Step(State(), ev) == SetFocus(old(State()), PeersWith(owner), surface, cx, cy)
    {
      ghost var l := Look(State(), PeersWith(owner), surface);
      ghost var from := if focused.Some? then focused.value else 0;
      ghost var to := if surface.Some? then surface.value else 0;
      ev := [];
      if focused.Some? && focused != surface {
        var old_keyboard := FindFor(keyboards, owner[focused.value]);
        if old_keyboard.Some? {
          var s := NextSerial();
          ev := [KeyboardLeave(old_keyboard.value, s, focused.value)];
        }
      }
      assert ev == if l.leaving.Some? then [KeyboardLeave(l.leaving.value, old(serial) + 1, from)] else [];
      focused := surface;
      ghost var n := serial;
      if surface.Some? {
        var keyboard := FindFor(keyboards, owner[surface.value]);
        if keyboard.Some? {
          var s := NextSerial();
          ev := ev + [KeyboardEnter(keyboard.value, s, surface.value, [])];
        }
      }
      ghost var m := serial;
      if surface.Some? {
        var pointer := FindFor(pointers, owner[surface.value]);
        if pointer.Some? {
          var s := NextSerial();
          ev := ev + [PointerEnter(pointer.value, s, surface.value, Local(cx), Local(cy))];
        }
      }
      assert ev == Handover(old(serial), from, to, l, cx, cy);
    }

    method UpdateFocusFrom(owner: map<SurfaceId, ClientId>, order: seq<SurfaceId>, cx: real, cy: real)
      returns (ev: seq<Event>)
      requires PeersWith(owner).Knows(focused) && forall s :: s in order ==> s in owner
      modifies this`focused, this`serial
      ensures Step(State(), ev) == UpdateFocus(old(State()), PeersWith(owner), order, cx, cy)
    {
      ev := [];
      if order == [] {
        focused := None;
        return;
      }
      if focused.None? {
        ev := SetKeyboardFocus(owner, Some(order[0]), cx, cy);
      }
    }
  }
}
