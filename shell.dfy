/** The overlay window's message procedure (DirectOverlay.cpp:215-236) and
    the search for the process's own top-level window
    (DirectOverlay.cpp:238-253). */
module Shell {
  import opened Platform
  import opened Globals

  /** Whether WindowProc answered the message itself (returning 0) or
      passed it to DefWindowProc. */
  datatype Handling = Handled | Default

  datatype ProcResult = ProcResult(next: State, handling: Handling)

  /** DestroyWindow on the overlay window: the window stops being a window,
      and the WM_DESTROY it sends to WindowProc posts the quit message.
      A window that is already gone receives nothing. */
  function DestroyOverlay(s: State): (r: State)
    ensures !r.overlayAlive
    ensures s.overlayAlive ==> r.quitPosted
    ensures r.(overlayAlive := s.overlayAlive, quitPosted := s.quitPosted) == s
  {
    if s.overlayAlive then s.(overlayAlive := false, quitPosted := true) else s
  }

  function WindowProc(s: State, m: Msg): (r: ProcResult)
    // CLOSE destroys the window, DESTROY posts the quit message
    ensures m == WmClose ==> r.next == DestroyOverlay(s)
    ensures m == WmDestroy ==> r.next == s.(quitPosted := true)
    // only CREATE, CLOSE and DESTROY are handled here
    ensures r.handling == Handled <==> m in {WmCreate, WmClose, WmDestroy}
    ensures m !in {WmClose, WmDestroy} ==> r.next == s
    // nothing but the window's liveness and the quit flag ever changes
    ensures r.next.(overlayAlive := s.overlayAlive, quitPosted := s.quitPosted) == s
    ensures r.next.overlayAlive ==> s.overlayAlive
  {
    match m
    case WmCreate => ProcResult(s, Handled)
    case WmClose => ProcResult(DestroyOverlay(s), Handled)
    case WmDestroy => ProcResult(s.(quitPosted := true), Handled)
    case _ => ProcResult(s, Default)
  }

  /** One top-level window as EnumWindows reports it, with the process id
      GetWindowThreadProcessId gives for it. */
  datatype WindowEntry = WindowEntry(hwnd: Hwnd, pid: Pid)

  /** The position of the first window owned by `currentPid`. */
  function FirstOwned(ws: seq<WindowEntry>, currentPid: Pid): (r: Option<nat>)
    ensures r.Some? ==> r.value < |ws| && ws[r.value].pid == currentPid
    ensures r.Some? ==> forall j :: 0 <= j < r.value ==> ws[j].pid != currentPid
    ensures r.None? <==> forall j :: 0 <= j < |ws| ==> ws[j].pid != currentPid
    decreases |ws|
  {
    if ws == [] then None
    else if ws[0].pid == currentPid then Some(0)
    else match FirstOwned(ws[1..], currentPid)
      case None => None
      case Some(k) => Some(k + 1)
  }

  /** EnumWindows(EnumWindowsProc, NULL) over the top-level windows `ws`:
      selfWindow becomes the first window of the current process, and is
      left alone when there is none. */
  function EnumSelf(s: State, ws: seq<WindowEntry>, currentPid: Pid): (r: State)
    ensures r.(selfWindow := s.selfWindow) == s
  {
    match FirstOwned(ws, currentPid)
    case Some(i) => s.(selfWindow := ws[i].hwnd)
    case None => s
  }

  /** selfWndCallback, the target provider used when the caller gives none. */
  function SelfWndCallback(s: State): Hwnd {
    s.selfWindow
  }
}
