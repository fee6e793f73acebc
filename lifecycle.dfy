/** Starting, running and stopping the overlay: DirectOverlaySetup and the
    prologue of OverlayThread (DirectOverlay.cpp:256-267, 280-299), the
    thread's loop (269-277), DirectOverlayStop and IsDirectOverlayRunning
    (301-304, 317-324), and what a sequence of loop iterations promises. */
module Lifecycle {
  import opened Platform
  import opened Globals
  import opened Trace
  import opened Frame
  import Options
  import Shell

  /** DirectOverlayStop: the window handle is cleared, so IsWindow fails,
      and the end flag is raised; nothing else changes. */
  function Stop(s: State): (r: State)
    ensures !Running(r) && r.overlayWindow == NullHwnd && r.ended
    ensures Valid(r)
    ensures r.(overlayWindow := s.overlayWindow, overlayAlive := s.overlayAlive, ended := s.ended) == s
  {
    s.(overlayWindow := NullHwnd, overlayAlive := false, ended := true)
  }

  /** The loop of OverlayThread, one iteration per environment: it runs
      while IsDirectOverlayRunning holds (the locked re-check of `end`
      sees the same value when nothing runs concurrently). */
  function Run(s: State, envs: seq<Env>): Outcome
    decreases |envs|
  {
    if envs == [] || !Running(s) then Outcome(s, [])
    else
      var o := Step(s, envs[0]);
      var rest := Run(o.next, envs[1..]);
      Outcome(rest.next, o.trace + rest.trace)
  }

  /** What OverlayThread has done by the time it would signal the
      creation event, and whether it signals it. */
  datatype Launch = Launch(next: State, signaled: bool)

  /** The thread's prologue: without a provider it looks for the process's
      own window and gives up, silently and without signalling, when there
      is none; otherwise d2oSetup installs the provider and the created
      window `created`, and the event is signalled. */
  function Prologue(s: State, userProvider: bool, ws: seq<Shell.WindowEntry>, currentPid: Pid,
                    created: Hwnd): (r: Launch)
    requires created != NullHwnd
    ensures r.signaled <==> userProvider || Shell.EnumSelf(s, ws, currentPid).selfWindow != NullHwnd
    ensures !r.signaled ==> r.next == Shell.EnumSelf(s, ws, currentPid)
    ensures r.signaled ==>
      r.next.overlayWindow == created && r.next.overlayAlive &&
      r.next.targetWindow == (if userProvider then UserProvider else SelfProvider)
    ensures r.signaled ==> (Running(r.next) <==> !s.ended)
    ensures r.next.ended == s.ended && r.next.enable == s.enable && r.next.options == s.options
    // nothing else changes: not the callback, the timing fields or the quit flag
    ensures r.next.(overlayWindow := s.overlayWindow, overlayAlive := s.overlayAlive,
                    targetWindow := s.targetWindow, selfWindow := s.selfWindow) == s
    ensures r.next.selfWindow == if userProvider then s.selfWindow else Shell.EnumSelf(s, ws, currentPid).selfWindow
  {
    if userProvider then
      Launch(s.(targetWindow := UserProvider, overlayWindow := created, overlayAlive := true), true)
    else
      var s1 := Shell.EnumSelf(s, ws, currentPid);
      if s1.selfWindow == NullHwnd then Launch(s1, false)
      else Launch(s1.(targetWindow := SelfProvider, overlayWindow := created, overlayAlive := true), true)
  }

  /** DirectOverlaySetup (both overloads; `userProvider` says whether a
      non-null provider was passed): install the callback, clear `end`,
      start the thread and wait for its signal. `signaled` false means
      the wait never returns. */
  function Setup(s: State, callback: bool, userProvider: bool, ws: seq<Shell.WindowEntry>,
                 currentPid: Pid, created: Hwnd): (r: Launch)
    requires created != NullHwnd
    ensures r.next.hasCallback == callback && !r.next.ended
    ensures r.signaled ==> Running(r.next)
  {
    Prologue(s.(hasCallback := callback, ended := false), userProvider, ws, currentPid, created)
  }

  // ---------------------------------------------------------------------
  // What the lifecycle promises.

  /** Without a provider and with no window of the current process (and no
      self window found earlier), the thread returns before signalling, so
      the starting call waits forever instead of failing. */
  lemma SetupBlocksWithoutSelfWindow(s: State, callback: bool, ws: seq<Shell.WindowEntry>,
                                     currentPid: Pid, created: Hwnd)
    requires created != NullHwnd && s.selfWindow == NullHwnd
    requires forall j :: 0 <= j < |ws| ==> ws[j].pid != currentPid
    ensures !Setup(s, callback, false, ws, currentPid, created).signaled
  {
  }

  /** A stopped overlay's thread loop exits without an iteration. */
  lemma StoppedThreadExits(s: State, envs: seq<Env>)
    ensures Run(Stop(s), envs) == Outcome(Stop(s), [])
  {
  }

  /** The loop changes nothing but the window's liveness, the quit flag and
      the timing fields: never `end`, `enable`, the options, the provider or
      the callback. */
  lemma {:induction false} RunKeeps(s: State, envs: seq<Env>)
    ensures var r := Run(s, envs);
      r.next.(overlayAlive := s.overlayAlive, quitPosted := s.quitPosted,
              preTime := s.preTime, showTime := s.showTime, fps := s.fps) == s
    ensures Valid(s) ==> Valid(Run(s, envs).next)
    decreases |envs|
  {
    if envs != [] && Running(s) {
      StepFrame(s, envs[0]);
      RunKeeps(Step(s, envs[0]).next, envs[1..]);
    }
  }

  /** Every frame of the whole thread's trace is begun, closed exactly once,
      and all drawing happens inside a frame. */
  lemma {:induction false} RunBracketed(s: State, envs: seq<Env>)
    ensures Bracketed(Run(s, envs).trace)
    decreases |envs|
  {
    if envs != [] && Running(s) {
      StepBracketed(s, envs[0]);
      RunBracketed(Step(s, envs[0]).next, envs[1..]);
      BracketedAppend(Step(s, envs[0]).trace, Run(Step(s, envs[0]).next, envs[1..]).trace);
    }
  }

  /** While the overlay is disabled, or no callback is set, the callback is
      never invoked, however many iterations run; `end`, the loop and the
      frames go on. */
  lemma {:induction false} RunWithoutGateNoCallbacks(s: State, envs: seq<Env>)
    requires !s.enable || !s.hasCallback
    ensures CallbacksOf(Run(s, envs).trace) == []
    decreases |envs|
  {
    if envs != [] && Running(s) {
      var n := Step(s, envs[0]).next;
      StepCallback(s, envs[0]);
      StepFrame(s, envs[0]);
      RunWithoutGateNoCallbacks(n, envs[1..]);
      CallbacksOfAppend(Step(s, envs[0]).trace, Run(n, envs[1..]).trace);
    }
  }

  /** The number of iterations that refresh the FPS readout. */
  function RefreshCount(s: State, envs: seq<Env>): nat
    decreases |envs|
  {
    if envs == [] || !Running(s) then 0
    else
      var n := Step(s, envs[0]).next;
      (if n.showTime != s.showTime then 1 else 0) + RefreshCount(n, envs[1..])
  }

  /** The FPS value is refreshed at most once per 100 ticks: showTime never
      goes back, and every refresh moves it forward by more than 100. */
  lemma {:induction false} RunFpsThrottle(s: State, envs: seq<Env>)
    ensures RefreshCount(s, envs) * (FpsInterval + 1) <= Run(s, envs).next.showTime - s.showTime
    ensures RefreshCount(s, envs) == 0 ==> Run(s, envs).next.fps == s.fps
    decreases |envs|
  {
    if envs != [] && Running(s) {
      var n := Step(s, envs[0]).next;
      StepTiming(s, envs[0]);
      RunFpsThrottle(n, envs[1..]);
    }
  }

  /** A WM_CLOSE dequeued by a running overlay destroys the window, so the
      loop ends after that iteration although `end` stays false: the
      caller still has to call DirectOverlayStop. */
  lemma ExternalCloseEndsLoop(s: State, envs: seq<Env>)
    requires Valid(s) && Running(s) && envs != [] && envs[0].message == WmClose
    ensures Run(s, envs) == Step(s, envs[0])
    ensures !Running(Run(s, envs).next) && !Run(s, envs).next.ended
    ensures Run(s, envs).next.quitPosted
  {
    var o := Step(s, envs[0]);
    StepFrame(s, envs[0]);
    assert !o.next.overlayAlive;
    assert o.trace + [] == o.trace;
  }

  /** A target provider whose handle is not a window makes every iteration
      just sleep: no geometry update, no frame, no callback, and the overlay
      keeps running and retrying. This holds while each iteration dequeues
      nothing, a WM_CREATE, or a message left to default handling; WM_QUIT,
      WM_CLOSE and WM_DESTROY change the picture. */
  lemma {:induction false} InvalidTargetRetries(s: State, envs: seq<Env>)
    requires Valid(s) && Running(s) && s.targetWindow != NoProvider
    requires forall i :: 0 <= i < |envs| ==>
      (envs[i].message == WmNull || envs[i].message == WmCreate || envs[i].message.WmOther?) &&
      !IsWindow(envs[i].liveWindows, TargetOf(s, envs[i]))
    ensures Run(s, envs).next == s && Running(Run(s, envs).next)
    ensures SleepsOf(Run(s, envs).trace) == seq(|envs|, _ => 1)
    ensures CallbacksOf(Run(s, envs).trace) == []
    ensures forall i :: 0 <= i < |Run(s, envs).trace| ==>
      Run(s, envs).trace[i] == Show || Run(s, envs).trace[i] == Sleep(1)
    decreases |envs|
  {
    InvalidTargetShowsAndSleeps(s, envs);
    if envs != [] {
      StepIdle(s, envs[0]);
      StepFrame(s, envs[0]);
      assert Step(s, envs[0]).next == s;
      InvalidTargetRetries(s, envs[1..]);
      SleepsOfAppend(Step(s, envs[0]).trace, Run(s, envs[1..]).trace);
      CallbacksOfAppend(Step(s, envs[0]).trace, Run(s, envs[1..]).trace);
      assert seq(|envs|, _ => 1) == [1] + seq(|envs| - 1, _ => 1);
    }
  }

  /** Under an invalid target, each iteration issues Show and Sleep(1) and
      keeps the state, so the run's trace holds nothing else. */
  lemma {:induction false} InvalidTargetShowsAndSleeps(s: State, envs: seq<Env>)
    requires Valid(s) && Running(s) && s.targetWindow != NoProvider
    requires forall i :: 0 <= i < |envs| ==>
      (envs[i].message == WmNull || envs[i].message == WmCreate || envs[i].message.WmOther?) &&
      !IsWindow(envs[i].liveWindows, TargetOf(s, envs[i]))
    ensures forall i :: 0 <= i < |Run(s, envs).trace| ==>
      Run(s, envs).trace[i] == Show || Run(s, envs).trace[i] == Sleep(1)
    decreases |envs|
  {
    if envs != [] {
      StepIdle(s, envs[0]);
      StepFrame(s, envs[0]);
      assert Step(s, envs[0]) == Outcome(s, [Show, Sleep(1)]);
      InvalidTargetShowsAndSleeps(s, envs[1..]);
      assert Run(s, envs).trace == [Show, Sleep(1)] + Run(s, envs[1..]).trace;
    }
  }
}
