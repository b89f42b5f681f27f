/** The wl_seat global (src/wayland/seat.c): what a client receives when it
    binds the seat and when it asks for a keyboard, pointer or touch object,
    and the list of bound seat resources. The keymap text comes from
    xkbcommon and the anonymous file from the kernel: both are inputs. */
module Seat {
  import opened Types

  /** WL_SEAT_CAPABILITY_POINTER and WL_SEAT_CAPABILITY_KEYBOARD. */
  const CapPointer: nat := 1
  const CapKeyboard: nat := 2
  /** Key repeat: 25 keys per second after 600 ms. */
  const RepeatRate: nat := 25
  const RepeatDelay: nat := 600
  /** WL_KEYBOARD_KEYMAP_FORMAT_XKB_V1. */
  const KeymapXkbV1: nat := 1
  const SeatName: string := "seat0"

  /** Events on wl_seat and wl_keyboard. */
  datatype SeatEvent =
    | Capabilities(caps: nat)
    | Name(name: string)
    | RepeatInfo(rate: nat, delay: nat)
    | Keymap(format: nat, size: nat)

  /** The events seat_bind sends. */
  function BindEvents(version: nat): (ev: seq<SeatEvent>)
    ensures ev != [] && ev[0] == Capabilities(CapPointer + CapKeyboard)
    ensures Name(SeatName) in ev <==> version >= 2
    ensures forall i :: 0 < i < |ev| ==> ev[i] == Name(SeatName)
    ensures |ev| <= 2
  {
    [Capabilities(CapPointer + CapKeyboard)] + if version >= 2 then [Name(SeatName)] else []
  }

  /** The file operations of the keymap transfer. */
  datatype FileOp = CreateFile | Resize(size: nat) | MapFile | Unmap | CloseFile

  /** What seat_get_keyboard sends and does with the keymap file. */
  datatype KeyboardSetup = KeyboardSetup(events: seq<SeatEvent>, ops: seq<FileOp>)

  /** seat_get_keyboard for a keyboard of version `version`, given the keymap
      text and whether the anonymous file is created, resized and mapped. */
  function GetKeyboard(version: nat, keymap: string, createOk: bool, resizeOk: bool, mapOk: bool): (r: KeyboardSetup)
    ensures RepeatInfo(RepeatRate, RepeatDelay) in r.events <==> version >= 4
    ensures Keymap(KeymapXkbV1, |keymap| + 1) in r.events <==> createOk && resizeOk && mapOk
    ensures forall i :: 0 <= i < |r.events| ==>
      r.events[i] == RepeatInfo(RepeatRate, RepeatDelay) || r.events[i] == Keymap(KeymapXkbV1, |keymap| + 1)
    ensures forall i, j :: 0 <= i < j < |r.events| ==> r.events[i].RepeatInfo? && r.events[j].Keymap?
    ensures r.ops != [] && r.ops[0] == CreateFile
    ensures !createOk ==> r.ops == [CreateFile]
    ensures createOk ==> r.ops[|r.ops| - 1] == CloseFile
    ensures forall i :: 0 <= i < |r.ops| - 1 ==> r.ops[i] != CloseFile
  {
    var size := |keymap| + 1;
    var repeat := if version >= 4 then [RepeatInfo(RepeatRate, RepeatDelay)] else [];
    var sent := createOk && resizeOk && mapOk;
    var events := repeat + if sent then [Keymap(KeymapXkbV1, size)] else [];
    var ops :=
      if !createOk then [CreateFile]
      else if !resizeOk then [CreateFile, Resize(size), CloseFile]
      else if !mapOk then [CreateFile, Resize(size), MapFile, CloseFile]
      else [CreateFile, Resize(size), MapFile, Unmap, CloseFile];
    KeyboardSetup(events, ops)
  }

  /** The wl_seat requests. */
  datatype Request = GetPointer(id: ResourceId) | GetKeyboard(id: ResourceId) | GetTouch(id: ResourceId) | Release

  /** The events a wl_seat request causes: only a keyboard request sends
      anything. */
  function RequestEvents(req: Request, version: nat, keymap: string, createOk: bool, resizeOk: bool, mapOk: bool): (ev: seq<SeatEvent>)
    ensures !req.GetKeyboard? ==> ev == []
    ensures req.GetKeyboard? ==> ev == GetKeyboard(version, keymap, createOk, resizeOk, mapOk).events
  {
    match req
    case GetKeyboard(_) => GetKeyboard(version, keymap, createOk, resizeOk, mapOk).events
    case _ => []
  }

  /** The seat part of the server. */
  class SeatServer {
    /** `seat_resources`, newest first. */
    var resources: seq<ResourceId>
    var global: bool

    constructor ()
      ensures resources == [] && !global
    {
      resources, global := [], false;
    }

    /** init_seat: -1 exactly when the global cannot be created. */
    method Init(globalOk: bool) returns (rc: int)
      modifies this
      ensures resources == [] && global == globalOk
      ensures rc == (if globalOk then 0 else -1)
    {
      resources := [];
      global := globalOk;
      if !global {
        return -1;
      }
      return 0;
    }

    /** seat_bind: the resource goes to the head of `seat_resources`. */
    method Bind(version: nat, id: ResourceId) returns (ev: seq<SeatEvent>)
      modifies this`resources
      ensures resources == [id] + old(resources)
      ensures ev == BindEvents(version)
    {
      resources := [id] + resources;
      ev := [Capabilities(CapPointer + CapKeyboard)];
      if version >= 2 {
        ev := ev + [Name(SeatName)];
      }
    }
  }
}
