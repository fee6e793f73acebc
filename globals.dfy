/** The process-wide globals of DirectOverlay.cpp:16-41, as one value. */
module Globals {
  import opened Platform
  import Options

  /** What the targetWindow function pointer holds: nothing, the
      built-in selfWndCallback, or a provider the caller supplied. */
  datatype Provider = NoProvider | SelfProvider | UserProvider

  datatype State = State(
    overlayWindow: Hwnd,    // overlayWindow
    overlayAlive: bool,     // IsWindow(overlayWindow)
    quitPosted: bool,       // PostQuitMessage has been called
    enable: bool,           // enable
    ended: bool,            // end
    options: Options.Flags, // o_Foreground, o_DrawFPS, o_VSync
    preTime: int,           // preTime
    showTime: int,          // showTime
    fps: int,               // fps
    selfWindow: Hwnd,       // selfWindow
    targetWindow: Provider, // targetWindow
    hasCallback: bool       // drawLoopCallback != NULL
  )

  /** IsWindow(NULL) is false. */
  predicate Valid(s: State) {
    s.overlayWindow == NullHwnd ==> !s.overlayAlive
  }

  /** Static initialisation; `clock0` and `clock1` are the two clock()
      values read for preTime and showTime, in that order. */
  function Initial(clock0: int, clock1: int): (s: State)
    ensures Valid(s)
    ensures s.enable && s.ended && !s.hasCallback && s.overlayWindow == NullHwnd
    ensures s.preTime == clock0 && s.showTime == clock1 && s.fps == 0
    ensures s.options == Options.Defaults && s.targetWindow == NoProvider && s.selfWindow == NullHwnd
  {
    State(NullHwnd, false, false, true, true, Options.Defaults, clock0, clock1, 0,
          NullHwnd, NoProvider, false)
  }

  /** IsDirectOverlayRunning: !end && IsWindow(overlayWindow). */
  predicate Running(s: State) {
    !s.ended && s.overlayAlive
  }
}
