/** The Win32 / Direct2D world as the overlay controller sees it: window
    handles, messages, rectangles, the per-iteration environment mainLoop
    queries, and the abstract trace of effects it issues. */
module Platform {

  datatype Option<+T> = None | Some(value: T)

  /** A window handle (HWND); 0 plays the role of NULL. */
  type Hwnd = nat
  /** A process id (DWORD). */
  type Pid = nat

  const NullHwnd: Hwnd := 0

  /** UINT32 arithmetic (the fields of D2D1_SIZE_U) wraps modulo 2^32. */
  const Uint32Modulus: int := 0x1_0000_0000

  /** The value a signed difference takes once stored in a UINT32. */
  function ToUint32(x: int): (r: nat)
    ensures r < Uint32Modulus
    ensures (x - r) % Uint32Modulus == 0
    ensures 0 <= x < Uint32Modulus ==> r == x
    ensures -Uint32Modulus <= x < 0 ==> r == x + Uint32Modulus
  {
    x % Uint32Modulus
  }

  /** The messages the overlay window's procedure distinguishes. */
  datatype Msg = WmNull | WmCreate | WmClose | WmDestroy | WmQuit | WmOther(code: nat)

  /** A RECT in screen coordinates. */
  datatype Rect = Rect(left: int, top: int, right: int, bottom: int)

  /** What one mainLoop iteration learns from the platform. */
  datatype Env = Env(
    message: Msg,           // what PeekMessage removed from the queue; WmNull when it found nothing
    userTarget: Hwnd,       // what a caller-supplied target provider returns on this call
    liveWindows: set<Hwnd>, // the handles for which IsWindow holds
    client: Rect,           // the target's client rectangle (GetWindowInfo)
    iconic: bool,           // IsIconic(overlayWindow)
    foreground: Hwnd,       // GetForegroundWindow()
    now: int                // clock()
  )

  /** IsWindow: NULL is never a window. */
  predicate IsWindow(live: set<Hwnd>, h: Hwnd) {
    h != NullHwnd && h in live
  }

  /** The observable effects of an iteration, in the order they are issued. */
  datatype Effect =
    | Show                                                  // ShowWindow/UpdateWindow/SetLayeredWindowAttributes
    | Reposition(x: int, y: int, width: nat, height: nat)   // SetWindowPos and target->Resize
    | BeginDraw                                             // target->BeginDraw
    | Clear                                                 // target->Clear to transparent
    | DrawFps(value: int, column: nat)                      // DrawString of the FPS counter at (column, 0)
    | Sleep(ms: nat)
    | Callback(width: nat, height: nat)                     // drawLoopCallback(width, height)
    | EndDraw                                               // target->EndDraw
}
