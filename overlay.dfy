/** The overlay controller as the source holds it: process-wide globals
    updated in place by the render thread's loop and by the caller's
    lifecycle calls (DirectOverlay.cpp). Each method is proved against the
    value-level definition of the same operation in Shell, Frame and
    Lifecycle. */
module Controller {
  import opened Platform
  import opened Globals
  import opened Frame
  import Options
  import Shell
  import Lifecycle
  import Trace

  class Overlay {
    var overlayWindow: Hwnd
    var overlayAlive: bool        // IsWindow(overlayWindow)
    var quitPosted: bool          // PostQuitMessage has been called
    var enable: bool
    var end: bool
    var oForeground: bool
    var oDrawFps: bool
    var oVSync: bool
    var preTime: int
    var showTime: int
    var fps: int
    var selfWindow: Hwnd
    var targetWindow: Provider
    var drawLoopCallback: bool    // drawLoopCallback != NULL

    /** The globals as one value. */
    function Snapshot(): State
      reads this
    {
      State(overlayWindow, overlayAlive, quitPosted, enable, end,
            Options.Flags(oForeground, oDrawFps, oVSync),
            preTime, showTime, fps, selfWindow, targetWindow, drawLoopCallback)
    }

    predicate Valid()
      reads this
    {
      Globals.Valid(Snapshot())
    }

    /** Static initialisation; `clock0` and `clock1` are what the two
      clock() calls return then. */
    constructor (clock0: int, clock1: int)
      ensures Snapshot() == Initial(clock0, clock1) && Valid()
    {
      overlayWindow, overlayAlive, quitPosted := NullHwnd, false, false;
      enable, end := true, true;
      oForeground, oDrawFps, oVSync := true, false, false;
      preTime, showTime, fps := clock0, clock1, 0;
      selfWindow, targetWindow, drawLoopCallback := NullHwnd, NoProvider, false;
    }

    /** IsDirectOverlayRunning. */
    predicate IsRunning()
      reads this
    {
      !end && overlayAlive
    }

    /** IsDirectOverlayEnable. */
    predicate IsEnabled()
      reads this
    {
      enable
    }

    /** selfWndCallback. */
    function SelfWndCallback(): Hwnd
      reads this
    {
      selfWindow
    }

    /** DirectOverlaySetOption. */
    method SetOption(option: bv32)
      modifies this
      ensures Snapshot() == old(Snapshot()).(options := Options.SetOption(old(Snapshot()).options, option))
      ensures Options.Below(old(Snapshot()).options, Snapshot().options)
    {
      if option & Options.RequireForeground != 0 { oForeground := true; }
      if option & Options.DrawFps != 0 { oDrawFps := true; }
      if option & Options.VSync != 0 { oVSync := true; }
    }

    /** DirectOverlayEnable. */
    method Enable(bEnable: bool)
      modifies this
      ensures Snapshot() == old(Snapshot()).(enable := bEnable)
      ensures IsEnabled() == bEnable
    {
      enable := bEnable;
    }

    /** DirectOverlayStop: afterwards IsDirectOverlayRunning is false. */
    method Stop()
      modifies this
      ensures Snapshot() == Lifecycle.Stop(old(Snapshot()))
      ensures !IsRunning() && overlayWindow == NullHwnd && end
      ensures Valid()
    {
      overlayWindow := NullHwnd;
      overlayAlive := false;
      end := true;
    }

    /** WindowProc on the overlay window. */
    method WindowProc(uiMessage: Msg) returns (handling: Shell.Handling)
      modifies this
      ensures Snapshot() == Shell.WindowProc(old(Snapshot()), uiMessage).next
      ensures handling == Shell.WindowProc(old(Snapshot()), uiMessage).handling
      decreases if uiMessage == WmClose then 2 else 0
    {
      match uiMessage
      case WmCreate =>
        handling := Shell.Handled;
      case WmClose =>
        DestroyWindow();
        handling := Shell.Handled;
      case WmDestroy =>
        quitPosted := true;     // PostQuitMessage(0)
        handling := Shell.Handled;
      case _ =>
        handling := Shell.Default;
    }

    /** DestroyWindow on the overlay window, which sends it WM_DESTROY. */
    method DestroyWindow()
      modifies this
      ensures Snapshot() == Shell.DestroyOverlay(old(Snapshot()))
      decreases 1
    {
      if overlayAlive {
        overlayAlive := false;
        var _ := WindowProc(WmDestroy);
      }
    }

    /** EnumWindowsProc for the top-level window `w`. */
    method EnumWindowsProc(w: Shell.WindowEntry, currentPid: Pid) returns (cont: bool)
      modifies this
      ensures cont <==> w.pid != currentPid
      ensures Snapshot() == if cont then old(Snapshot()) else old(Snapshot()).(selfWindow := w.hwnd)
    {
      if w.pid == currentPid {
        selfWindow := w.hwnd;
        return false;
      }
      return true;
    }

    /** EnumWindows(EnumWindowsProc, NULL) over the windows `ws`, stopping
      at the first call that returns FALSE. */
    method EnumWindows(ws: seq<Shell.WindowEntry>, currentPid: Pid)
      modifies this
      ensures Snapshot() == Shell.EnumSelf(old(Snapshot()), ws, currentPid)
    {
      var i, cont := 0, true;
      while i < |ws| && cont
        invariant 0 <= i <= |ws|
        invariant cont ==> Snapshot() == old(Snapshot())
        invariant cont ==> forall j :: 0 <= j < i ==> ws[j].pid != currentPid
        invariant !cont ==> 0 < i && Shell.FirstOwned(ws, currentPid) == Some(i - 1)
        invariant !cont ==> Snapshot() == old(Snapshot()).(selfWindow := ws[i - 1].hwnd)
        decreases |ws| - i
      {
        cont := EnumWindowsProc(ws[i], currentPid);
        i := i + 1;
      }
    }

    /** One mainLoop call: dispatch, then the early returns. */
    method MainLoop(e: Env) returns (trace: seq<Effect>)
      modifies this
      ensures Snapshot() == Step(old(Snapshot()), e).next
      ensures trace == Step(old(Snapshot()), e).trace
      ensures old(Valid()) ==> Valid()
    {
      Frame.StepFrame(Snapshot(), e);
      if overlayWindow == NullHwnd {
        return [];
      }
      if e.message != WmNull {
        var _ := WindowProc(e.message);     // TranslateMessage, DispatchMessage
      }
      if e.message == WmQuit {
        return [];
      }
      if targetWindow == NoProvider {
        return [Show, Sleep(1)];
      }
      var hwndTarget := if targetWindow == SelfProvider then SelfWndCallback() else e.userTarget;
      if !IsWindow(e.liveWindows, hwndTarget) {
        return [Show, Sleep(1)];
      }
      trace := DrawFrame(e, hwndTarget);
    }

    /** mainLoop from ShowWindow to the final Sleep(1), for a valid target
      `hwndTarget`. The `toDraw` flag stands for the two labels: it is true
      where the source reaches `toDraw:` and false where it jumps to
      `noDraw:` or skips the callback block. */
    method DrawFrame(e: Env, hwndTarget: Hwnd) returns (trace: seq<Effect>)
      requires hwndTarget == TargetOf(Snapshot(), e)
      modifies this
      ensures Snapshot() == Render(old(Snapshot()), e).next
      ensures trace == Render(old(Snapshot()), e).trace
    {
      var width, height := Width(e), Height(e);
      var placement := [];
      if !e.iconic {
        placement := [Reposition(e.client.left, e.client.top, width, height)];
      }
      var toDraw := false;
      if enable {
        if drawLoopCallback {
          if oForeground {
            toDraw := e.foreground == hwndTarget;
          } else {
            toDraw := true;
          }
        }
      }
      assert toDraw == ToDraw(old(Snapshot()), e);
      var body := [];
      if toDraw {
        body := DrawCallback(e.now, width, height);
      }
      trace := [Show] + placement + [BeginDraw, Clear] + body + [EndDraw, Sleep(1)];
    }

    /** The toDraw block: frame timing, the FPS readout, the frame-cap pause
      and the callback. */
    method DrawCallback(postTime: int, width: nat, height: nat) returns (trace: seq<Effect>)
      modifies this
      ensures Snapshot() == DrawBlock(old(Snapshot()), postTime, width, height).next
      ensures trace == DrawBlock(old(Snapshot()), postTime, width, height).trace
    {
      var frameTime := postTime - preTime;
      preTime := postTime;
      var readout := [];
      if oDrawFps {
        if postTime - showTime > FpsInterval {
          fps := FpsOf(frameTime);
          showTime := postTime;
        }
        readout := [DrawFps(fps, ToUint32(width as int - 50))];
      }
      var pause := [];
      if oVSync {
        var pausetime := FrameBudget - frameTime;
        if 0 < pausetime < MaxPause {
          pause := [Sleep(pausetime)];
        }
      }
      trace := readout + pause + [Callback(width, height)];
    }

    /** The loop of OverlayThread: iterate while IsDirectOverlayRunning
      holds, one environment per iteration. */
    method ThreadLoop(envs: seq<Env>) returns (trace: seq<Effect>)
      modifies this
      ensures Snapshot() == Lifecycle.Run(old(Snapshot()), envs).next
      ensures trace == Lifecycle.Run(old(Snapshot()), envs).trace
      ensures Trace.Bracketed(trace)
      ensures old(Valid()) ==> Valid()
    {
      var i := 0;
      trace := [];
      while i < |envs| && IsRunning()
        invariant 0 <= i <= |envs|
        invariant Lifecycle.Run(old(Snapshot()), envs).next == Lifecycle.Run(Snapshot(), envs[i..]).next
        invariant Lifecycle.Run(old(Snapshot()), envs).trace == trace + Lifecycle.Run(Snapshot(), envs[i..]).trace
        decreases |envs| - i
      {
        ghost var before := Snapshot();
        var t := MainLoop(envs[i]);
        assert envs[i..][1..] == envs[i + 1..];
        assert Lifecycle.Run(before, envs[i..]).trace == t + Lifecycle.Run(Snapshot(), envs[i + 1..]).trace;
        trace := trace + t;
        i := i + 1;
      }
      if i == |envs| {
        assert envs[i..] == [];
      }
      Lifecycle.RunBracketed(old(Snapshot()), envs);
      Lifecycle.RunKeeps(old(Snapshot()), envs);
    }

    /** d2oSetup, as far as the controller's state goes: install the target
      provider and the created overlay window. */
    method D2oSetup(provider: Provider, created: Hwnd)
      requires created != NullHwnd
      modifies this
      ensures Snapshot() == old(Snapshot()).(targetWindow := provider, overlayWindow := created, overlayAlive := true)
      ensures Valid()
    {
      targetWindow := provider;
      overlayWindow := created;
      overlayAlive := true;
    }

    /** OverlayThread up to SetEvent; `signaled` tells whether the event is
      set. */
    method ThreadPrologue(userProvider: bool, ws: seq<Shell.WindowEntry>, currentPid: Pid, created: Hwnd)
      returns (signaled: bool)
      requires created != NullHwnd
      modifies this
      ensures Snapshot() == Lifecycle.Prologue(old(Snapshot()), userProvider, ws, currentPid, created).next
      ensures signaled == Lifecycle.Prologue(old(Snapshot()), userProvider, ws, currentPid, created).signaled
    {
      var provider := UserProvider;
      if !userProvider {
        EnumWindows(ws, currentPid);
        if selfWindow == NullHwnd {
          return false;
        }
        provider := SelfProvider;
      }
      D2oSetup(provider, created);
      signaled := true;
    }

    /** OverlayThread: the prologue, then the loop. */
    method OverlayThread(userProvider: bool, ws: seq<Shell.WindowEntry>, currentPid: Pid, created: Hwnd,
                         envs: seq<Env>)
      returns (signaled: bool, trace: seq<Effect>)
      requires created != NullHwnd
      modifies this
      ensures var p := Lifecycle.Prologue(old(Snapshot()), userProvider, ws, currentPid, created);
        signaled == p.signaled &&
        Snapshot() == (if p.signaled then Lifecycle.Run(p.next, envs).next else p.next) &&
        trace == (if p.signaled then Lifecycle.Run(p.next, envs).trace else [])
    {
      signaled := ThreadPrologue(userProvider, ws, currentPid, created);
      trace := [];
      if signaled {
        trace := ThreadLoop(envs);
      }
    }

    /** DirectOverlaySetup: install the callback, clear `end`, and wait for
      the thread's signal; `returned` false means the wait never ends. */
    method Setup(callback: bool, userProvider: bool, ws: seq<Shell.WindowEntry>, currentPid: Pid, created: Hwnd)
      returns (returned: bool)
      requires created != NullHwnd
      modifies this
      ensures Snapshot() == Lifecycle.Setup(old(Snapshot()), callback, userProvider, ws, currentPid, created).next
      ensures returned == Lifecycle.Setup(old(Snapshot()), callback, userProvider, ws, currentPid, created).signaled
      ensures returned ==> IsRunning()
    {
      drawLoopCallback := callback;
      end := false;
      returned := ThreadPrologue(userProvider, ws, currentPid, created);
    }
  }

  /** A caller's session: option, setup with its own provider, one frame
    with a foreground target, then stop. */
  method ExampleSession(ws: seq<Shell.WindowEntry>, e: Env)
    requires e.message == WmNull && e.client == Rect(100, 100, 900, 700) && !e.iconic
    requires IsWindow(e.liveWindows, e.userTarget) && e.foreground == e.userTarget
  {
    var o := new Overlay(0, 0);
    o.SetOption(Options.VSync);
    assert o.oForeground && o.oVSync && !o.oDrawFps;
    var returned := o.Setup(true, true, ws, 1, 7);
    assert returned && o.IsRunning() && o.IsEnabled();
    ghost var before := o.Snapshot();
    var trace := o.MainLoop(e);
    assert o.preTime == e.now;
    Frame.StepCallback(before, e);
    assert Trace.CallbacksOf(trace) == [(800, 600)];
    o.Stop();
    assert !o.IsRunning();
  }
}
