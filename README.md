# Direct2D overlay controller, modelled in Dafny

DirectOverlay draws a transparent, topmost Direct2D window over another
application's window. It keeps that window over its target and, every frame,
calls a drawing callback the caller registered. Beneath the Win32, Direct2D and
DirectWrite calls there is a small state machine held in process-wide globals:

- whether the overlay window exists and is still a window;
- the `enable` and `end` flags;
- the three option flags (foreground gate, FPS readout, frame cap);
- the frame timing fields `preTime`, `showTime` and `fps`;
- the process's own window `selfWindow`;
- the target-window provider;
- whether a callback is set.

This project models that state machine and proves what it promises.

## How the model is laid out

- `Platform`: window handles, messages and rectangles. It also holds the
  environment `Env` that one render-loop iteration observes: the dequeued
  message, the provider's answer, which handles are windows, the client
  rectangle, iconic state, the foreground window and the clock. It also
  defines the trace of effects an iteration issues: `Show`, `Reposition`,
  `BeginDraw`, `Clear`, `DrawFps`, `Sleep`, `Callback` and `EndDraw`.
- `Options`: `DirectOverlaySetOption` as a monotone update of the three flags.
- `Globals`: the globals as a value `State` and their initial values.
  `Globals.Running` is `IsDirectOverlayRunning` (DirectOverlay.cpp:301-304).
- `Shell`: the overlay window procedure, and the first-match search of
  `EnumWindowsProc`. `Shell.SelfWndCallback` is `selfWndCallback`
  (DirectOverlay.cpp:250-253).
- `Trace`: how a trace is read.
  - `Bracketed` says every `BeginDraw` is closed by one `EndDraw` before the
    next one, and that all drawing lies between the two.
  - `SleepsOf` and `CallbacksOf` project a trace onto its sleeps and its
    callback invocations.
- `Frame`: one `mainLoop` call as a function `Step` on (state, environment),
  with the gating, bracketing, placement, sleeping and timing lemmas. The
  definitions the lemmas and the class methods refer to:
  - `Frame.Step` is the whole call (DirectOverlay.cpp:125-213);
  - `Frame.Track` is what follows the dispatch (lines 138-212);
  - `Frame.Render` is Show (lines 140-143), then lines 157-211 from the size query to the final Sleep(1);
  - `Frame.ToDraw` is where the gotos lead (lines 173-184);
  - `Frame.DrawBlock` is the toDraw block (lines 186-206);
  - `Frame.Timed` is its timing update (lines 187-195);
  - `Frame.CapPause` is its frame-cap pause (lines 199-204).
- `Lifecycle`: stop, the thread's prologue, `DirectOverlaySetup` and the
  thread loop, with lemmas over any number of iterations. `Lifecycle.Run`
  is the thread loop, one iteration per environment (DirectOverlay.cpp:269-277).
- `Controller`: the class `Overlay`. Its fields are the globals, and its
  methods update them in place as the source does.
  - Each method is proved to reach the state (and emit the trace) that the
    value-level definition gives.
  - `EnumWindows` and `ThreadLoop` run `while` loops with invariants.
  - `MainLoop` follows the source's early returns. `DrawFrame` follows its
    `goto toDraw` / `goto noDraw` routing, using a flag.
  - Three readings of the fields have no contract of their own:
    - `Controller.Overlay.IsRunning` is `IsDirectOverlayRunning`
      (DirectOverlay.cpp:301-304);
    - `Controller.Overlay.IsEnabled` is `IsDirectOverlayEnable`
      (DirectOverlay.cpp:312-315);
    - `Controller.Overlay.SelfWndCallback` is `selfWndCallback`
      (DirectOverlay.cpp:250-253).

## Behaviour of the code worth knowing

- **The foreground gate cannot be turned off.** `o_Foreground` starts out
  `true` (DirectOverlay.cpp:30), and `DirectOverlaySetOption`
  (DirectOverlay.cpp:326-329) can only set flags. So in every reachable
  state the callback fires only while the target is the foreground window
  (`Options.ForegroundGateNeverOff`). `Frame.ExampleFrame` therefore
  describes a frame whose target is in the foreground: a client rectangle
  of (100,100)-(900,700) moves the overlay to (100,100) at 800×600, and the
  callback receives (800, 600).
- **No self window means a blocked caller.** The one-argument
  `DirectOverlaySetup` may find no window of the current process. The
  thread then returns at DirectOverlay.cpp:261-262, before `SetEvent`.
  The caller's `WaitForSingleObject` with an infinite timeout at line 286
  therefore never returns (`Lifecycle.SetupBlocksWithoutSelfWindow`).
- **The FPS value when no time has passed.** Line 193 computes
  `1000 / (float)frameTime` and truncates it to `int`. At `frameTime == 0`
  this converts an infinity, which C++ leaves undefined. The model uses the
  x86 result, the integer-indefinite value −2^31 (`Frame.FpsOf`).
  - For every other `frameTime` the float quotient truncates to the same
    integer as the exact quotient. The model computes it on integers,
    truncating toward zero.
- **Widths and heights are UINT32.** Lines 161-163 store the client
  extents in the unsigned fields of `D2D1_SIZE_U`, so they wrap around when
  the client rectangle is inverted. The model writes the wrap out
  (`Platform.ToUint32`, `Frame.ExampleWrappedWidth`).

## Model

| member | source | states |
|---|---|---|
| Platform.ToUint32 | DirectOverlay.cpp:161-163 | a signed extent stored in a UINT32 field is its residue modulo 2^32: it keeps values in range and adds 2^32 to small negative ones |
| Options.SetOption | DirectOverlay.cpp:326-329 | each flag whose bit is present in the option word becomes true; a flag whose bit is absent keeps its value; no flag is ever cleared |
| Options.SetOptionsExact | DirectOverlay.cpp:326-329 | after any sequence of option calls, a flag is set exactly when it was set before or some call carried its bit |
| Options.ForegroundGateNeverOff | DirectOverlay.cpp:30 | starting from the initial flags, no sequence of option calls turns the foreground gate off |
| Globals.Initial | DirectOverlay.cpp:22-41 | the globals start with no overlay window, enabled, ended, no callback, no provider, no self window, fps 0, the default options, preTime at the first clock reading and showTime at the second |
| Shell.DestroyOverlay | DirectOverlay.cpp:222-227 | destroying a live overlay window makes it stop being a window and, through WM_DESTROY, posts the quit message; nothing else changes |
| Shell.WindowProc | DirectOverlay.cpp:215-236 | CLOSE destroys the window; DESTROY posts the quit message; exactly CREATE, CLOSE and DESTROY are handled, the rest goes to default handling; only liveness and the quit flag change, and a dead window never revives |
| Shell.FirstOwned | DirectOverlay.cpp:238-248 | finds the position of the first window of the current process, and none exactly when no window belongs to it |
| Shell.EnumSelf | DirectOverlay.cpp:238-248 | enumeration changes only selfWindow |
| Frame.FpsOf | DirectOverlay.cpp:193 | The result is 1000 divided by a nonzero frame time, truncated toward zero, and the x86 integer-indefinite value −2^31 for a zero frame time. |
| Frame.VsyncPause | DirectOverlay.cpp:199-203 | a pause exists exactly when 17 − frameTime lies strictly between 0 and 30, and it tops frameTime up to 17 |
| Frame.ToDrawIsGate | DirectOverlay.cpp:171-186 | the gotos reach toDraw exactly when the overlay is enabled, a callback is set, and the gate is off or the target is the foreground window |
| Frame.DispatchKeeps | DirectOverlay.cpp:130-136 | dispatching the dequeued message changes only liveness and the quit flag, so it leaves the target and the gate as they were |
| Frame.StepRenders | DirectOverlay.cpp:125-170 | a step that gets past the early returns renders the dispatched state, and routes to toDraw exactly when the gate is open |
| Frame.StepFrame | DirectOverlay.cpp:125-213 | a step changes only liveness, the quit flag and the timing fields, never revives the window, and keeps the state valid |
| Frame.StepIdle | DirectOverlay.cpp:127-155 | the early returns issue nothing (no overlay window, WM_QUIT) or only Show and Sleep(1) (no provider, invalid target): no frame, no callback, no timing change |
| Frame.StepPlacement | DirectOverlay.cpp:164-166 | a step that reaches the frame with the overlay not minimised places it on the target's client rectangle at the position right after Show, on the draw and the no-draw path alike; no other step and no other position holds a placement |
| Frame.RenderBracketed | DirectOverlay.cpp:164-211 | the drawing path opens exactly one frame, clears it at once, closes it exactly once, and ends with EndDraw then Sleep(1) |
| Frame.StepBracketed | DirectOverlay.cpp:125-213 | every step's trace is bracketed; BeginDraw and EndDraw occur exactly when the step gets past the early returns, each exactly once, with Clear right after BeginDraw and Sleep(1) right after EndDraw, on the draw and the no-draw path alike |
| Frame.BlockHasNoBracket | DirectOverlay.cpp:186-206 | the toDraw block neither begins nor ends a frame |
| Frame.BlockParts | DirectOverlay.cpp:186-206 | the toDraw block sleeps only for the frame cap and calls back once with the given size |
| Frame.RenderSleeps | DirectOverlay.cpp:157-211 | the drawing path sleeps for the frame cap when it applies, then for 1 tick |
| Frame.RenderCallbacks | DirectOverlay.cpp:157-211 | the drawing path calls back once, with the target's client size, exactly when routed to toDraw |
| Frame.StepCallback | DirectOverlay.cpp:172-206 | a step invokes the callback exactly once, with the target's client width and height, when it gets past the early returns and the gate is open, and never otherwise |
| Frame.StepSleeps | DirectOverlay.cpp:145-211 | the sleeps of a step: none for no window or WM_QUIT; 17 − frameTime then 1 when the frame cap applies on the draw path; otherwise just 1 |
| Frame.StepTiming | DirectOverlay.cpp:187-195 | preTime becomes the clock only on the draw path; showTime and fps change only there with the FPS readout on and more than 100 ticks since the last refresh, becoming the clock and the new FPS |
| Frame.StepFpsReadout | DirectOverlay.cpp:191-197 | the FPS readout is drawn exactly on the draw path with the readout on, showing the current fps at column width − 50 |
| Frame.ExampleFrame | DirectOverlay.cpp:157-211 | a foreground target with client rectangle (100,100)-(900,700): the overlay moves to (100,100) at 800×600 and the callback receives (800, 600) |
| Frame.ExampleWrappedWidth | DirectOverlay.cpp:161-163 | an inverted client rectangle 10 wide reports a width of 2^32 − 10 |
| Lifecycle.Stop | DirectOverlay.cpp:317-324 | after stop, the handle is null, `end` is set, the overlay is not running, and nothing else changed |
| Lifecycle.Prologue | DirectOverlay.cpp:256-267 | the thread signals exactly when a provider was passed or enumeration found a self window; when it does not signal, only the enumeration happened; when it does, the created window and the right provider are installed; only the window, its liveness, the provider and selfWindow change; selfWindow changes only by enumeration, never with a caller's provider |
| Lifecycle.Setup | DirectOverlay.cpp:280-299 | setup installs the callback and clears `end`; when the thread signals, the overlay is running |
| Lifecycle.SetupBlocksWithoutSelfWindow | DirectOverlay.cpp:258-262 | without a provider, with no earlier self window and no window of the current process, the thread never signals |
| Lifecycle.StoppedThreadExits | DirectOverlay.cpp:269-273 | after stop the thread loop exits without an iteration |
| Lifecycle.RunKeeps | DirectOverlay.cpp:269-277 | the thread loop never changes `end`, `enable`, the options, the provider or the callback, and keeps the state valid |
| Lifecycle.RunBracketed | DirectOverlay.cpp:269-277 | the whole thread's trace is bracketed |
| Lifecycle.RunWithoutGateNoCallbacks | DirectOverlay.cpp:172-176 | while disabled or without a callback, no iteration ever invokes the callback |
| Lifecycle.RunFpsThrottle | DirectOverlay.cpp:191-195 | over any run, every FPS refresh moves showTime forward by more than 100 ticks, so refreshes are at most one per 101 ticks; without a refresh, fps is unchanged |
| Lifecycle.ExternalCloseEndsLoop | DirectOverlay.cpp:222-223 | a WM_CLOSE dequeued by a running overlay destroys the window and posts quit; the loop ends after that iteration while `end` stays false |
| Lifecycle.InvalidTargetRetries | DirectOverlay.cpp:150-155 | with a provider whose handle is not a window, and each iteration dequeuing nothing, a WM_CREATE or a message left to default handling, every iteration just sleeps 1 tick, calls nothing back, changes nothing, and the overlay keeps running; the trace holds nothing but Show and Sleep(1), so no placement and no frame |
| Lifecycle.InvalidTargetShowsAndSleeps | DirectOverlay.cpp:140-155 | with a provider whose handle is not a window, and each iteration dequeuing nothing, a WM_CREATE or a message left to default handling, every event of the run is Show or Sleep(1) |
| Controller.Overlay.constructor | DirectOverlay.cpp:22-41 | the fields start at the initial globals, given the two clock readings |
| Controller.Overlay.SetOption | DirectOverlay.cpp:326-329 | the flags become those of Options.SetOption and only grow |
| Controller.Overlay.Enable | DirectOverlay.cpp:306-310 | only `enable` changes, to the given value |
| Controller.Overlay.Stop | DirectOverlay.cpp:317-324 | the fields become Lifecycle.Stop of the old ones; the overlay is no longer running; the fields are valid |
| Controller.Overlay.WindowProc | DirectOverlay.cpp:215-236 | the fields and the returned handling are those of Shell.WindowProc, through the reentrant DestroyWindow for CLOSE |
| Controller.Overlay.DestroyWindow | DirectOverlay.cpp:223 | the fields become Shell.DestroyOverlay of the old ones |
| Controller.Overlay.EnumWindowsProc | DirectOverlay.cpp:238-248 | continues exactly for windows of other processes; a matching window becomes selfWindow, anything else changes nothing |
| Controller.Overlay.EnumWindows | DirectOverlay.cpp:260 | the loop stops at the first FALSE and leaves the fields at Shell.EnumSelf of the old ones |
| Controller.Overlay.MainLoop | DirectOverlay.cpp:125-155 | the fields and the emitted trace are those of Frame.Step; validity is kept |
| Controller.Overlay.DrawFrame | DirectOverlay.cpp:140-211 | Show, then the size query through the final Sleep(1): the fields and the emitted trace are those of Frame.Render |
| Controller.Overlay.DrawCallback | DirectOverlay.cpp:186-206 | the fields and the emitted trace are those of Frame.DrawBlock |
| Controller.Overlay.ThreadLoop | DirectOverlay.cpp:269-277 | the loop ends in the state and with the trace of Lifecycle.Run, the trace is bracketed, and validity is kept |
| Controller.Overlay.D2oSetup | DirectOverlay.cpp:98-106 | installs the provider and the created overlay window, leaving the fields valid |
| Controller.Overlay.ThreadPrologue | DirectOverlay.cpp:256-267 | the fields and the signal are those of Lifecycle.Prologue |
| Controller.Overlay.OverlayThread | DirectOverlay.cpp:256-278 | the prologue, then the loop only if the event was signalled |
| Controller.Overlay.Setup | DirectOverlay.cpp:280-299 | the fields and whether the call returns are those of Lifecycle.Setup; a call that returns leaves the overlay running |

## Left out

- The drawing primitives `DrawString`, `DrawBox`, `DrawLine`,
  `DrawCircle` and `DrawEllipse` (DirectOverlay.cpp:45-96) are not modelled.
  They are float geometry handed to Direct2D. The FPS readout appears only
  as the trace event `DrawFps`.
- Window and renderer creation in `d2oSetup` (DirectOverlay.cpp:100-122) are
  foreign platform calls. This covers the window class, CreateWindowEx, DWM
  frame extension, the factories, the render target, the brush and the text
  format. The created window's handle is a parameter.
- Controller.Overlay.D2oSetup: requires a non-null created window, so
  CreateWindowEx failure is not modelled. In the source a null
  `overlayWindow` leaves `target` null after `CreateHwndRenderTarget`
  (lines 113-117). Line 118 then dereferences it inside `d2oSetup`, before
  `SetEvent` (line 267) and before the loop could start.
- The four calls of lines 140-143 (ShowWindow, UpdateWindow,
  SetLayeredWindowAttributes, UpdateWindow) are one `Show` event. The calls
  of lines 165-166 (SetWindowPos and Resize) are one `Reposition` event.
- The screen geometry of SetWindowPos is not modelled. Placement is recorded
  as requested.
- Threads, the creation event and the two mutexes (DirectOverlay.cpp:172,
  271, 284-287, 308, 322) are not modelled. The model is sequential.
  - Setup runs the thread's prologue before returning.
  - The loop's locked re-check of `end` sees the value the loop condition
    just read.
  - The unlocked read in `IsDirectOverlayEnable` is a plain read.
- Lifecycle.Stop: does not model the DestroyWindow of line 319 sending
  WM_DESTROY. That call comes from the caller's thread, and Win32 refuses to
  destroy a window owned by another thread. So only the handle is cleared,
  and the window dies when the thread ends. The quit flag is unaffected.
- Lifecycle.Run: the render thread's loop is unbounded. The model runs it
  over a finite sequence of environments, one per iteration, so it states
  what every finite prefix of a run does.
- `clock()`, `PeekMessage`, `GetWindowInfo`, `IsIconic`, `GetForegroundWindow`,
  `IsWindow` and the target provider's answer are inputs to each iteration,
  via `Env`. `Sleep` is a trace event.
- The drawing callback is assumed not to call the controller's API. It is
  user code running on the render thread (DirectOverlay.cpp:206), and the
  model treats it as the trace event `Callback` with no effect on the
  globals. `Frame.StepFrame` and `Lifecycle.RunKeeps` rely on this.
  - A callback calling `DirectOverlaySetOption`, which takes no lock
    (lines 326-329), could change the options during a run.
  - A callback calling `DirectOverlayEnable` would lock `mutexEnable` again
    on the thread that holds it (lines 172, 308).
  - A callback calling `DirectOverlayStop` would do the same with
    `mutexEnd` (lines 271, 322).
- Shell.WindowProc: messages left to `DefWindowProc` (line 233) are one case,
  `WmOther`, assumed not to close the window. In the source, `DefWindowProc`
  turns a WM_SYSCOMMAND carrying SC_CLOSE (Alt+F4, or a close from the
  system menu) into a WM_CLOSE. That WM_CLOSE destroys the window (line 223)
  and posts the quit message (line 226). `Frame.Dispatch`,
  `Lifecycle.InvalidTargetRetries` and `Lifecycle.InvalidTargetShowsAndSleeps`
  rely on this assumption. `TranslateMessage` changes nothing the controller
  holds.
- Frame.VsyncPause: does not model the narrowing of the 64-bit `time_t`
  difference to `int` on line 200. That narrowing matters only for frame times
  beyond 2^31 ticks.
- Frame.FpsOf: the `frameTime == 0` case follows x86's float-to-int conversion
  of an infinity. C++ leaves that conversion undefined.
- Options.SetOption: the bit values of `D2DOV_REQUIRE_FOREGROUND`,
  `D2DOV_DRAW_FPS` and `D2DOV_VSYNC` are taken to be 1, 2 and 4.
  DirectOverlay.h is not part of this model.
- `DirectOverlaySetFontName` and the font choice (DirectOverlay.cpp:33,
  330-340) affect only DirectWrite text layout, which is not modelled.
