# ember: a Dafny model of a minimal DRM/KMS Wayland compositor

ember is a small Wayland compositor written in C. It drives one monitor
through DRM/KMS and GBM, and it composites client shared-memory buffers with
OpenGL ES. It reads input through libinput and serves the core `wl_compositor`,
`wl_seat` and `wl_output` globals plus `xdg_wm_base`. Almost every line of it
calls into one of those libraries. This project models the decision logic that
sits between those calls:

- **Surface registry.** The `server->surfaces` list takes new surfaces at its
  head. The model covers what every `wl_surface` request does to the registry.
- **Compositing.** The list is walked from its tail, so the oldest surface is
  drawn first and the newest on top. Surfaces without a shared-memory buffer are
  skipped. A surface gets its texture the first time it is drawn and is
  re-uploaded on every frame. The quad mapping goes from pixels to device
  coordinates with a vertical flip. The cursor is drawn after every surface and
  before the buffer swap.
- **Scan-out.** The first submission is a mode-set and every later one is a
  page-flip. A failure leaves the state untouched. After a successful submission
  the previously tracked buffer is released and the new one is tracked.
- **Focus and input dispatch.** This covers leave-before-enter, auto-focus on
  the newest surface, one fresh serial per serial-bearing event, clamped
  relative motion, unclamped absolute motion, the ESC shortcut, and the drain
  loop.
- **Start-up choices.** The model covers the connector, mode and CRTC choices
  and the chain of initialisation steps.
- **Bind-time events.** These are the event sequences of `wl_output`,
  `wl_seat`/`wl_keyboard` and xdg-shell.
- **The earlier variants.** `src/backend/drm.c` and `src/input/seat.c` are
  modelled as separate modules, so that their differences stay visible.

Anything a library answers is an input: whether an allocation succeeds, which
buffer GBM locks, which CRTC ids the kernel can look up, and what libinput
queues. Anything the compositor asks for is output. Output is either a value
(protocol events, GL commands) or a log of kernel actions. Where the C code
changes state in place, the model is a class whose methods are proved against
pure specification functions. The properties are then proved about those
functions.

Modules, one per file:

| file | module | models |
|---|---|---|
| types.dfy | Types | ids, `Option`, the display mode, the (100, 100) surface origin, list helpers |
| gl.dfy | Gl | pixel/device maps, quads, the GL command vocabulary, texture names |
| compositor.dfy | Compositor | src/wayland/compositor.c |
| dispatch.dfy | Dispatch | src/input/dispatch.c |
| input.dfy | Input | src/input/input.c |
| cursor.dfy | CursorModel | src/input/cursor.c |
| renderer.dfy | Renderer | src/backend/renderer.c, surface pass and frame |
| scanout.dfy | Scanout | the scan-out state machine shared by renderer.c and drm.c |
| output.dfy | Output | src/backend/output.c |
| seat.dfy | Seat | src/wayland/seat.c |
| shell.dfy | Shell | src/wayland/shell.c |
| drm_legacy.dfy | DrmLegacy | src/backend/drm.c |
| seat_legacy.dfy | SeatLegacy | src/input/seat.c |

The code is followed wherever the design description of the compositor says
otherwise:

- Attaching a null buffer stores null rather than being ignored
  (src/wayland/compositor.c:16). The surface is then skipped when drawing.
- Destroying a surface unlinks and frees it but does not delete its texture.
  It also does not clear keyboard focus (src/wayland/compositor.c:80-86).
  The focus pointer then dangles: the next dispatch reads the freed surface
  (src/input/dispatch.c:40), which is a use after free with no defined
  outcome. The model keeps the surface's owner on record after destruction,
  so in the model the key goes to the client that owned the surface;
  `Dispatch.DestroyedFocusStays` states that outcome of the model.
- The previous scan-out buffer is released right after the flip is *requested*,
  not when it completes (src/backend/renderer.c:205-210).
- Every surface is drawn at the hard-coded pixel (100, 100). Pointer
  coordinates are made surface-local by subtracting the same constant. The
  per-surface position fields are never read.
- The cursor always uses its built-in 16×16 image. There is no solid fallback.

`focused_surface`, `keyboard_resources` and `pointer_resources` are used by
src/input/dispatch.c but are absent from the server struct in
include/ember.h:41-87. They are state of `Dispatch.InputRouter`. Nothing in the
server ever adds a resource to the two lists: seat_get_keyboard and
seat_get_pointer create their resources without inserting them. So the router
starts with empty lists, and `Dispatch.NoResourcesNoEvents` with
`Input.DrainSilentWithoutResources` shows what follows: as written, no input
event ever reaches a client.

## Model

| member | source | states |
|---|---|---|
| Gl.NdcRoundTrip | src/backend/renderer.c:139-142 | mapping a pixel to device space (x/W·2−1, 1−y/H·2) and back gives the pixel again |
| Gl.PixelRoundTrip | src/backend/renderer.c:139-142 | mapping a device point to pixels and back gives the point again, so the pixel map is a bijection |
| Gl.NdcCorners | src/backend/renderer.c:139-140 | screen edges land on ±1; pixel row 0 is device y = +1 (vertical flip) |
| Gl.NdcOrder | src/backend/renderer.c:139-142 | device x grows with pixel x, and device y falls as pixel y grows |
| Gl.QuadFor | src/backend/renderer.c:139-142 | the quad's edges map back to pixels x, y, x+w, y+h; a non-empty rectangle has left < right and bottom < top in device space |
| Gl.TextureNames.Gen | src/backend/renderer.c:117-119 | the name handed out is the counter's value and non-zero, and the counter advances by one, so no name is handed out twice |
| Compositor.UnlinkRemovesExactly | src/wayland/compositor.c:83 | unlinking one entry of a repeat-free list removes exactly that surface, keeps all others, and adds no repeat |
| Compositor.FrameReply | src/wayland/compositor.c:25-36 | one event: `done` with data 0 on the new callback when it was created, otherwise a no-memory error on the surface |
| Compositor.CreateRegionReply | src/wayland/compositor.c:129-137 | nothing on success, a client no-memory error exactly when the region cannot be created |
| Compositor.Registry.CreateSurface | src/wayland/compositor.c:88-103 | on success a zeroed surface (no buffer, texture 0) is at the head of the list; on allocation failure a no-memory error and the registry is unchanged |
| Compositor.Registry.Attach | src/wayland/compositor.c:12-17 | the surface's buffer becomes the given reference (null included); order, owners, the texture and the other surfaces are unchanged |
| Compositor.Registry.Destroy | src/wayland/compositor.c:80-86 | exactly that surface leaves the list and the map; the others keep their relative order |
| Compositor.Registry.Handle | src/wayland/compositor.c:65-76 | destroy unlinks that surface and the others keep their relative order, attach sets the buffer, frame answers `FrameReply`; damage, commit and the region/transform/scale setters leave the registry unchanged and send nothing |
| CursorModel.Draw | src/input/cursor.c:56-112 | invisible: no command and no texture; visible: ends with a quad of side 2·size at (x, y); a texture is generated and the 16×16 image uploaded only when the texture is 0, and with a texture set the quad is the only command |
| CursorModel.TextureCreatedOnce | src/input/cursor.c:60-68 | after one visible pass, the next pass keeps the texture, uses no texture name and generates nothing |
| CursorModel.QuadExtent | src/input/cursor.c:80-90 | the cursor quad covers pixels (x, y) to (x+2·size, y+2·size) |
| CursorModel.Cursor.Init | src/input/cursor.c:48-54 | the cursor starts at the screen centre, size 16, visible, texture 0 |
| CursorModel.Cursor.Render | src/input/cursor.c:56-112 | the commands, the cursor texture and the name counter afterwards are those of `Draw` on the fields before |
| Dispatch.FindForFirst | src/input/dispatch.c:16-35 | the search finds nothing exactly when the client has no entry, and otherwise returns the resource of the client's first entry |
| Dispatch.Key | src/input/dispatch.c:37-48 | no focus or no keyboard: nothing sent and no serial used; otherwise one key event to that keyboard with the next serial |
| Dispatch.Modifiers | src/input/dispatch.c:50-60 | as for keys: nothing without focus or keyboard; otherwise one modifiers event with the next serial |
| Dispatch.Motion | src/input/dispatch.c:62-77 | nothing without focus or pointer; otherwise one motion event at the cursor minus (100, 100); never a serial |
| Dispatch.Button | src/input/dispatch.c:79-90 | nothing without focus or pointer; otherwise one button event with the next serial |
| Dispatch.HandoverSerials | src/input/dispatch.c:97-125 | the events of a focus change carry serials serial+1, serial+2, … in order |
| Dispatch.HandoverOrder | src/input/dispatch.c:97-125 | only leaves and enters are sent; a leave is ahead of every enter and the keyboard enter is ahead of the pointer enter |
| Dispatch.HandoverPresence | src/input/dispatch.c:97-125 | each of leave, keyboard enter and pointer enter is sent exactly when its resource was found |
| Dispatch.HandoverTargets | src/input/dispatch.c:97-125 | the leave names the old surface and goes to its keyboard; enters name the new surface, the keyboard enter carries no keys, the pointer enter the cursor minus (100, 100) |
| Dispatch.HandoverCases | src/input/dispatch.c:92-128 | helper for the four `Handover…` lemmas: the eight event lists of a focus change, one per combination of lookups |
| Dispatch.SetFocusFresh | src/input/dispatch.c:92-128 | after set_keyboard_focus(s) the focus is s, and every serial used is fresh and consecutive |
| Dispatch.SetFocusLeaves | src/input/dispatch.c:96-104 | a leave is sent, ahead of all enters, exactly when the old focus is non-null, differs from s and its client has a keyboard; re-focusing the same surface sends no leave |
| Dispatch.SetFocusEnters | src/input/dispatch.c:108-125 | a non-null s gets a keyboard enter (empty keys) iff its client has a keyboard, then a pointer enter iff it has a pointer; null s gets none |
| Dispatch.UpdateFocus | src/input/dispatch.c:131-142 | empty list: focus null, no event; no focus: the head of the list gets focus; otherwise nothing changes |
| Dispatch.AutoFocusTakesNewest | src/input/dispatch.c:138-141 | auto-focus with no current focus lands on the head (newest surface) and sends only enters, no leave |
| Dispatch.DestroyedFocusStays | src/wayland/compositor.c:80-86 | a focused surface no longer on the list keeps focus, and a key still goes to its client's keyboard |
| Dispatch.NoResourcesNoEvents | src/input/dispatch.c:16-35 | with empty keyboard and pointer lists, no dispatch function and no focus change sends anything or uses a serial |
| Dispatch.InputRouter.NextSerial | src/input/dispatch.c:44 | the serial handed out is one more than the last, and becomes the last |
| Dispatch.InputRouter.DispatchKey | src/input/dispatch.c:37-48 | events and new serial are those of `Key` on the state before |
| Dispatch.InputRouter.DispatchModifiers | src/input/dispatch.c:50-60 | events and new serial are those of `Modifiers` |
| Dispatch.InputRouter.DispatchMotion | src/input/dispatch.c:62-77 | events are those of `Motion`; no state changes |
| Dispatch.InputRouter.DispatchButton | src/input/dispatch.c:79-90 | events and new serial are those of `Button` |
| Dispatch.InputRouter.SetKeyboardFocus | src/input/dispatch.c:92-128 | events, new focus and serial are those of `SetFocus` |
| Dispatch.InputRouter.UpdateFocusFrom | src/input/dispatch.c:131-142 | events, new focus and serial are those of `UpdateFocus` |
| Input.ClampAxis | src/input/input.c:58-61 | the result lies in [0, hi], equals v when v is already in range, and is otherwise 0 or hi |
| Input.ClampIdempotent | src/input/input.c:58-61 | clamping a clamped coordinate leaves it where it is |
| Input.Handle | src/input/input.c:31-107 | one handler keeps every serial fresh; the display stops iff an ESC press arrives; relative motion is clamped, absolute is not, and both dispatch motion at the new position; other events change nothing |
| Input.EscPressStops | src/input/input.c:37-40 | an ESC press only stops the display: no focus update, no event, no serial |
| Input.KeyIsDispatched | src/input/input.c:31-47 | any other key (and an ESC release) runs update_focus, then dispatches the key with pressed/released mapped |
| Input.ButtonIsDispatched | src/input/input.c:67-76 | a button runs update_focus, then dispatches the button |
| Input.MotionInsideIsExact | src/input/input.c:54-61 | relative motion that stays on the screen moves the cursor by exactly (dx, dy) |
| Input.Drain | src/input/input.c:79-107 | the handlers applied in arrival order; the focused surface and every listed surface stay known (the properties are the `Drain…` lemmas below) |
| Input.DrainSerials | src/input/input.c:79-107 | over a whole drain every serial-bearing event takes the next serial, and the counter advances by their number |
| Input.DrainStaysOnScreen | src/input/input.c:49-96 | if every absolute position is on the screen, a cursor on the screen stays on it through any drain |
| Input.DrainAfterEsc | src/input/input.c:79-107 | the events queued behind an ESC press are still handled in the same drain |
| Input.DrainSilentWithoutResources | src/input/input.c:79-107 | with no keyboard or pointer resource on the lists, a whole drain sends nothing and uses no serial |
| Input.MoveCursor | src/input/input.c:54-61 | the sequential clamps leave each coordinate at `ClampAxis` of old position plus delta |
| Input.HandleEvent | src/input/input.c:84-103 | the events and the router and cursor state afterwards are those of `Handle` |
| Input.HandleKey | src/input/input.c:31-47 | the key handler on the objects agrees with `Handle` |
| Input.HandleButton | src/input/input.c:67-76 | the button handler on the objects agrees with `Handle` |
| Input.ProcessEvents | src/input/input.c:79-107 | the queue is handled front to back: the result is `Drain` of the whole queue |
| Input.OnInputReadable | src/input/input.c:110-119 | returns 0 and changes nothing when libinput dispatch fails; otherwise drains the queue and returns 1 |
| Output.FirstUsable | src/backend/output.c:56-64 | the position found is a connected connector with modes and no earlier one is; none found exactly when no connector qualifies |
| Output.FindConnector | src/backend/output.c:56-64 | the connector loop returns exactly `FirstUsable` |
| Output.CrtcChoice | src/backend/output.c:104-115 | in priority order: the encoder's CRTC when the encoder exists and that CRTC can be looked up; without an encoder, the CRTC already held; otherwise crtcs[0] when it can be looked up, else none |
| Output.InitOutput | src/backend/output.c:48-134 | returns 0 or −1; the steps run are a prefix of the eight in order; success means all ran, with a connector, a CRTC and the global |
| Output.InitStopsAtFirstFailure | src/backend/output.c:48-134 | every step before the last one run succeeded, and init fails exactly when the last one run failed |
| Output.InitPicksFirstConnector | src/backend/output.c:56-69 | with no usable connector init fails after two steps; otherwise the first usable connector and its modes[0] are chosen |
| Output.InitPicksCrtc | src/backend/output.c:104-120 | once at the CRTC step: the encoder's CRTC if it can be looked up, else crtcs[0] if it can, else −1 |
| Output.BindEvents | src/backend/output.c:15-46 | exactly 4 events for version ≥ 2 (geometry, scale(1), mode, done) and 2 otherwise (geometry, mode); the mode event is current and preferred with refresh ×1000 |
| Output.OutputServer.Init | src/backend/output.c:48-134 | return code, steps and fields are those of `InitOutput`; the resource list is reset only when the global step is reached |
| Output.OutputServer.FindCrtc | src/backend/output.c:104-115 | the CRTC afterwards is `CrtcChoice` of the one held before |
| Output.OutputServer.Bind | src/backend/output.c:15-46 | the resource goes to the head of `output_resources`, and the events are `BindEvents` |
| Renderer.DrawSurface | src/backend/renderer.c:104-164 | a surface without an shm buffer gets no command; otherwise an upload of its buffer into its texture, then a quad of the buffer's size at (100, 100); a texture is generated only when it is 0, and with a texture set those two are the only commands |
| Renderer.WalkBack | src/backend/renderer.c:102-165 | the pass keeps the set of surfaces and every buffer, and never gives back a texture name |
| Renderer.DrawSurfaceUploads | src/backend/renderer.c:104-131 | one surface's commands upload that surface once when drawable, nothing otherwise |
| Renderer.WalkOrder | src/backend/renderer.c:103 | the surfaces uploaded and drawn are exactly the drawable ones, in reverse list order |
| Renderer.NewestOnTop | src/backend/renderer.c:103 | a drawable head of the list (the newest surface) is drawn last |
| Renderer.WalkTextures | src/backend/renderer.c:117-119 | a texture changes only from 0 and only for a drawable surface of the list; afterwards every such surface has one |
| Renderer.WalkReusesTextures | src/backend/renderer.c:117-131 | when every drawable surface has a texture, a pass generates none and changes no surface |
| Renderer.DrawOne | src/backend/renderer.c:104-164 | the loop body issues `DrawSurface`'s commands and writes its new texture into the registry |
| Renderer.DrawSurfaces | src/backend/renderer.c:102-165 | the reverse loop over the registry yields `WalkBack` of the list: commands, textures and name counter |
| Renderer.FrameUploads | src/backend/renderer.c:87-171 | a whole frame uploads exactly the drawable surfaces, oldest first; the cursor uploads none |
| Renderer.FrameEnds | src/backend/renderer.c:167-171 | a frame begins with the clear and ends with the swap; a visible cursor is drawn last before the swap |
| Renderer.RenderFrame | src/backend/renderer.c:83-211 | the commands and the textures are those of the frame specification; scan-out advances by one `Scanout.Step` |
| Scanout.Step | src/backend/renderer.c:173-210 | a failure changes nothing and does nothing; a success submits by mode-set iff the first frame is pending, tracks the new buffer, clears the flag, and releases the previous buffer (framebuffer, then buffer) and nothing else |
| Scanout.StepFlag | src/backend/renderer.c:182-201 | the flag stays set exactly until a successful call, and that call is the only one to mode-set |
| Scanout.StepBalance | src/backend/renderer.c:204-210 | submitted plus tracked before equals released plus tracked after, for one call |
| Scanout.RunBalance | src/backend/renderer.c:173-210 | the same balance holds over any sequence of calls |
| Scanout.ReleasedOnlyOnce | src/backend/renderer.c:204-210 | from start-up, no buffer is released twice or without being submitted, and the submitted-but-unreleased buffers are exactly the tracked one |
| Scanout.RunModeSets | src/backend/renderer.c:182-202 | a run mode-sets at most once: exactly when it starts with the flag set and ends with it clear |
| Scanout.Startup | src/main.c:56-58 | the two start-up calls, both succeeding: mode-set with the first buffer, page-flip with the second, then the first is released and the second tracked |
| Scanout.StartupAfterLockFailure | src/main.c:56-58 | if the first start-up lock fails, the second call performs the mode-set |
| Scanout.Pipeline.constructor | src/backend/renderer.c:182 | the first frame is pending and nothing is tracked |
| Scanout.Pipeline.Present | src/backend/renderer.c:173-210 | the flag, the tracked buffer and the action log advance by exactly one `Step` |
| Seat.BindEvents | src/wayland/seat.c:116-130 | capabilities (pointer \| keyboard) first; the name "seat0" iff version ≥ 2, and nothing else |
| Seat.GetKeyboard | src/wayland/seat.c:65-98 | repeat info (25, 600) iff version ≥ 4, before the keymap; the keymap (XKB v1, length+1) iff the file is created, sized and mapped; the file is closed last whenever it was created |
| Seat.RequestEvents | src/wayland/seat.c:59-102 | only get_keyboard sends events; get_pointer, get_touch and release send none |
| Seat.SeatServer.Init | src/wayland/seat.c:132-141 | −1 exactly when the global cannot be created; the resource list starts empty |
| Seat.SeatServer.Bind | src/wayland/seat.c:116-130 | the resource goes to the head of `seat_resources`, and the events are `BindEvents` |
| Shell.Handle | src/wayland/shell.c:8-154 | destroys remove only their object; get_xdg_surface and get_toplevel create one object of the parent's version; get_toplevel configures the toplevel (0×0, no states) then the xdg_surface (serial 0); all other requests do nothing |
| Shell.XdgSurfaceForgetsSurface | src/wayland/shell.c:137-142 | get_xdg_surface's result does not depend on the wl_surface argument |
| Shell.ToplevelConfigureOrder | src/wayland/shell.c:89-101 | exactly two events: the toplevel configure first, then the xdg_surface configure with serial 0 |
| Shell.Bind | src/wayland/shell.c:156-161 | binding makes an xdg_wm_base of the client's version and sends nothing |
| Shell.InitShell | src/wayland/shell.c:163-171 | −1 exactly when the global cannot be created, 0 otherwise |
| DrmLegacy.FirstFrom | src/backend/drm.c:18-32 | the device found has a primary node, opens and reports resources, and no earlier one does; none exactly when no device does |
| DrmLegacy.OpsFrom | src/backend/drm.c:18-32 | every open and close the loop logs names a device it visited |
| DrmLegacy.OnlyChosenStaysOpen | src/backend/drm.c:22-31 | every descriptor opened is closed again except the one returned; with no device found none stays open |
| DrmLegacy.OpenDevice | src/backend/drm.c:12-35 | enumeration failure gives −1 and no operation; otherwise the device and the operations are `FirstFrom` and `OpsFrom` |
| DrmLegacy.InitGraphics | src/backend/drm.c:37-75 | 0 exactly when a device, a GBM device and an EGL context are all obtained; −1 otherwise |
| DrmLegacy.FirstLive | src/backend/drm.c:129-134 | the first CRTC of the list that can be looked up; none exactly when none can |
| DrmLegacy.LegacyCrtc | src/backend/drm.c:117-139 | in priority order: the CRTC of a non-zero encoder with a non-zero CRTC when it can be looked up; otherwise, without such an encoder, the CRTC already held; otherwise `FirstLive` of the resources; none exactly when all fail |
| DrmLegacy.FindCrtc | src/backend/drm.c:117-134 | the encoder check and fallback loop return exactly `LegacyCrtc` |
| DrmLegacy.FallbackSearchesFurther | src/backend/drm.c:129-134 | an input where the legacy loop finds the second CRTC while src/backend/output.c:114 gives up |
| DrmLegacy.InitOutput | src/backend/drm.c:80-147 | 0 or −1; success exactly when all six steps ran and a CRTC was found; the steps run are a prefix of the six; the global field is left as it was |
| DrmLegacy.LegacyIgnoresEgl | src/backend/drm.c:114-115 | the result does not depend on the EGL surface or make-current outcome, unlike the current init |
| DrmLegacy.SameConnectorBothVariants | src/backend/drm.c:85-101 | both variants pick the same connector and mode; a failing EGL surface fails only the current variant |
| DrmLegacy.LegacyRenderer.constructor | src/backend/drm.c:208-236 | shaders not yet built, no frame rendered, first frame pending, nothing tracked, empty action log |
| DrmLegacy.LegacyRenderer.RenderFrame | src/backend/drm.c:208-267 | shaders are built on the first call and never again; scan-out advances by one `Scanout.Step` |
| DrmLegacy.LegacyRenderer.PageFlipHandler | src/backend/drm.c:161-167 | one flip completion renders exactly one frame |
| SeatLegacy.Handle | src/input/seat.c:152-197 | the display stops iff an ESC press arrives; relative motion lands on the screen and is exact when in range; absolute motion sets the cursor; keys, buttons and other events move nothing |
| SeatLegacy.DrainStops | src/input/seat.c:152-201 | after a drain the display is stopped exactly when it was already, or an ESC press was queued |
| SeatLegacy.DrainStaysOnScreen | src/input/seat.c:161-174 | with on-screen absolute positions, the cursor stays on the screen through a drain |
| SeatLegacy.HandleAgreesWithInput | src/input/seat.c:152-197 | the legacy handler moves the cursor and stops the display exactly as src/input/input.c does |
| SeatLegacy.DrainAgreesWithInput | src/input/seat.c:176-201 | the same over any queue: the variants differ only in what they send to clients |
| SeatLegacy.InitInput | src/input/seat.c:215-251 | 0 exactly when udev, the libinput context, the seat assignment and the global all succeed |
| SeatLegacy.LegacyServer.HandleEvent | src/input/seat.c:176-197 | the cursor and stop flag afterwards are `Handle` of those before |
| SeatLegacy.LegacyServer.ProcessEvents | src/input/seat.c:176-201 | the queue is handled front to back: the result is `Drain` of the whole queue |
| SeatLegacy.LegacyServer.OnInputReadable | src/input/seat.c:204-213 | 0 and nothing changed when dispatch fails; otherwise the drain and 1 |
| SeatLegacy.LegacyServer.Bind | src/input/seat.c:129-143 | the resource goes to the head of `seat_resources`; the events are `Seat.BindEvents` |

## Left out

- Calls into OpenGL ES, EGL, GBM, libdrm, libinput, xkbcommon and libwayland are not modelled as code. Their results are inputs, and their effects are logged as actions or commands. This covers shader source, compiling and linking: `init_renderer`'s result is an input, and the legacy `init_shaders` is counted but not described.
- Gl.QuadFor, Renderer.DrawSurface, Renderer.DrawSurfaces, Renderer.RenderFrame, CursorModel.Draw and CursorModel.Cursor.Render require a mode of non-zero width and height. src/backend/renderer.c:133-142 and src/input/cursor.c:85-91 divide by the screen size without a check, and a zero size would give infinite or NaN vertices. A mode the kernel reports for a connected connector always has a non-zero size.
- Seat.GetKeyboard: the keymap size is the number of characters plus one, while src/wayland/seat.c takes `strlen` in bytes. The keymap text is taken as ASCII, where the two agree.
- Floating point is not modelled. Coordinates are exact reals, so there is no float rounding in the device mapping and no `wl_fixed_from_double`.
- Timestamps (`get_time_ms`) are parameters.
- Serials are unbounded: the 32-bit wrap of the display serial is not modelled.
- The legacy pulsing background colour (src/backend/drm.c:216-221) is not modelled.
- The cursor image's pixel values are not modelled, only its 16×16 RGBA size.
- The keymap file is a log of file operations. The memfd sealing flag that differs between the two variants and the copy into the mapping are not modelled. The order of file operations relative to the events sent is not modelled.
- seat_get_keyboard in src/input/seat.c:78-111 is the same code as src/wayland/seat.c:65-98. `Seat.GetKeyboard` stands for both.
- The bootstrap in src/main.c (environment, socket, event loop) is not modelled, except its two start-up render_frame calls.
- libinput's open/close device callbacks are not modelled.
- src/backend/egl.c, src/wayland/shm.c and src/wayland/data_device.c are not part of this model.
- `handle_drm_event` (src/backend/drm.c:279-281) is not modelled: it hands control to libdrm, which calls the page-flip handler modelled here.
- Memory-safety defects are not modelled. These are the DRM resources read after they were freed (src/backend/drm.c:93, 130), the read of a destroyed focused surface in the dispatch functions (src/wayland/compositor.c:83 frees it, src/input/dispatch.c:40 and later read it), the leaked resources in src/backend/output.c, and the framebuffer and buffer leaked when a submission fails. Only the bookkeeping is modelled: the framebuffer registration is not logged, and a failed submission logs nothing.
- Output.CrtcChoice: src/backend/output.c:114 reads `crtcs[0]` even when the list is empty, which is out of bounds. The model treats an empty list as "no CRTC", so init fails.
- DrmLegacy.InitOutput: src/backend/drm.c:101 reads `modes[0]` of whatever connector the server holds. The model takes the mode of the connector just found, and a connector already held before the call is not re-read. At start-up none is held.
- drmGetDevices2's limit of 64 devices is not modelled. The device list is whatever enumeration returns.
- Resource lifetime is not modelled. This covers the release and destroy requests of wl_pointer, wl_keyboard and wl_seat, and libwayland's clean-up on client disconnect.
- `dispatch_keyboard_modifiers` has no caller in the server. It is modelled on its own and is not wired into input handling.
