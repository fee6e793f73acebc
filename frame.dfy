/** One call of mainLoop (DirectOverlay.cpp:125-213): message dispatch,
    the early returns, tracking the target, the begin/clear/end bracket,
    the enable and foreground gate that routes control to toDraw or
    noDraw, the frame timing and the callback. */
module Frame {
  import opened Platform
  import opened Globals
  import opened Trace
  import Options
  import Shell

  /** The state after an operation and the effects it issued. */
  datatype Outcome = Outcome(next: State, trace: seq<Effect>)

  /** The frame-cap target interval, in clock ticks. */
  const FrameBudget: int := 17
  /** Frame-cap pauses must stay below this many ticks. */
  const MaxPause: int := 30
  /** The FPS readout is refreshed when more than this many ticks passed. */
  const FpsInterval: int := 100
  /** What x86 float-to-int truncation yields for an infinite value. */
  const IntegerIndefinite: int := -0x8000_0000

  /** `fps = 1000 / (float)frameTime`: the float quotient truncated toward
      zero; the division by zero gives +inf, whose conversion yields the
      integer-indefinite value. */
  function FpsOf(frameTime: int): (r: int)
    ensures frameTime > 0 ==> 0 <= r <= 1000 && r * frameTime <= 1000 < (r + 1) * frameTime
    ensures frameTime < 0 ==> -1000 <= r <= 0 && -r * -frameTime <= 1000 < (-r + 1) * -frameTime
    ensures frameTime == 0 ==> r == IntegerIndefinite
  {
    if frameTime > 0 then 1000 / frameTime
    else if frameTime < 0 then -(1000 / -frameTime)
    else IntegerIndefinite
  }

  /** The frame-cap pause `17 - frameTime`, kept only inside (0, 30). */
  function VsyncPause(frameTime: int): (r: Option<nat>)
    ensures r.Some? <==> FrameBudget - MaxPause < frameTime < FrameBudget
    ensures r.Some? ==> 0 < r.value < MaxPause && frameTime + r.value == FrameBudget
  {
    var pause := FrameBudget - frameTime;
    if 0 < pause < MaxPause then Some(pause) else None
  }

  /** The window the target provider returns: selfWindow for the built-in
      provider, the environment's answer for a caller-supplied one. */
  function TargetOf(s: State, e: Env): Hwnd {
    if s.targetWindow == SelfProvider then Shell.SelfWndCallback(s) else e.userTarget
  }

  /** siz.width and siz.height: client-rectangle extents stored as UINT32. */
  function Width(e: Env): nat {
    ToUint32(e.client.right - e.client.left)
  }

  function Height(e: Env): nat {
    ToUint32(e.client.bottom - e.client.top)
  }

  /** Dispatching what PeekMessage removed; nothing when it found nothing. */
  function Dispatch(s: State, m: Msg): State {
    if m == WmNull then s else Shell.WindowProc(s, m).next
  }

  /** The FPS readout is refreshed on this frame. */
  predicate Refreshes(s: State, now: int) {
    s.options.drawFps && now - s.showTime > FpsInterval
  }

  /** The timing fields after the toDraw block (lines 187-195). */
  function Timed(s: State, now: int): State {
    var s1 := s.(preTime := now);
    if Refreshes(s, now) then s1.(fps := FpsOf(now - s.preTime), showTime := now) else s1
  }

  /** The FPS readout near the top-right corner (line 196); the column is
      computed in UINT32 arithmetic. */
  function FpsReadout(s: State, now: int, width: nat): seq<Effect> {
    if s.options.drawFps then [DrawFps(Timed(s, now).fps, ToUint32(width as int - 50))] else []
  }

  /** The frame-cap pause (lines 199-204). */
  function CapPause(s: State, now: int): seq<Effect> {
    if s.options.vsync then
      match VsyncPause(now - s.preTime)
      case Some(p) => [Sleep(p)]
      case None => []
    else []
  }

  /** The toDraw block: timing, optional FPS readout, optional frame-cap
      pause, then the callback with the target's size (lines 186-206). */
  function DrawBlock(s: State, now: int, width: nat, height: nat): Outcome {
    Outcome(Timed(s, now), FpsReadout(s, now, width) + CapPause(s, now) + [Callback(width, height)])
  }

  /** Resizing to the target, skipped while the overlay is minimised
      (lines 164-167). */
  function Placement(e: Env): seq<Effect> {
    if e.iconic then [] else [Reposition(e.client.left, e.client.top, Width(e), Height(e))]
  }

  /** Where the gotos of lines 173-184 lead: true for toDraw, false for
      noDraw (or past the callback block when there is no callback). */
  function ToDraw(s: State, e: Env): bool {
    if !s.enable then false
    else if s.hasCallback then
      if s.options.foreground then e.foreground == TargetOf(s, e) else true
    else false
  }

  /** Show (lines 140-143), then from the size query to the final Sleep(1)
      (lines 157-211): the frame is always begun, cleared and ended,
      whichever path is taken. */
  function Render(s: State, e: Env): Outcome {
    var body := if ToDraw(s, e) then DrawBlock(s, e.now, Width(e), Height(e)) else Outcome(s, []);
    Outcome(body.next, [Show] + Placement(e) + [BeginDraw, Clear] + body.trace + [EndDraw, Sleep(1)])
  }

  /** What follows the dispatch (lines 138-212). */
  function Track(s: State, e: Env): Outcome {
    if e.message == WmQuit then Outcome(s, [])
    else if s.targetWindow == NoProvider then Outcome(s, [Show, Sleep(1)])
    else if !IsWindow(e.liveWindows, TargetOf(s, e)) then Outcome(s, [Show, Sleep(1)])
    else Render(s, e)
  }

  /** One mainLoop call. */
  function Step(s: State, e: Env): Outcome {
    if s.overlayWindow == NullHwnd then Outcome(s, [])
    else Track(Dispatch(s, e.message), e)
  }

  // ---------------------------------------------------------------------
  // What a step promises.

  /** The step gets as far as BeginDraw: there is an overlay window, no
      WM_QUIT was dequeued, and a provider exists whose window is valid. */
  predicate Reaches(s: State, e: Env) {
    s.overlayWindow != NullHwnd && e.message != WmQuit &&
    s.targetWindow != NoProvider && IsWindow(e.liveWindows, TargetOf(s, e))
  }

  /** The callback may fire: enabled, a callback is set, and the foreground
      gate is off or the target is the foreground window. */
  predicate GateOpen(s: State, e: Env) {
    s.enable && s.hasCallback && (!s.options.foreground || e.foreground == TargetOf(s, e))
  }

  /** The gotos send control to toDraw exactly when the gate is open. */
  lemma ToDrawIsGate(s: State, e: Env)
    ensures ToDraw(s, e) <==> GateOpen(s, e)
  {
  }

  /** Dispatching a message changes only the window's liveness and the quit
      flag, so it does not affect the target, the gate or the timing. */
  lemma DispatchKeeps(s: State, m: Msg)
    ensures Dispatch(s, m).(overlayAlive := s.overlayAlive, quitPosted := s.quitPosted) == s
    ensures Dispatch(s, m).overlayAlive ==> s.overlayAlive
    ensures forall e: Env :: TargetOf(Dispatch(s, m), e) == TargetOf(s, e)
    ensures forall e: Env :: GateOpen(Dispatch(s, m), e) == GateOpen(s, e)
  {
  }

  /** A step that reaches the frame renders the dispatched state. */
  lemma StepRenders(s: State, e: Env)
    requires Reaches(s, e)
    ensures Step(s, e) == Render(Dispatch(s, e.message), e)
    ensures ToDraw(Dispatch(s, e.message), e) == GateOpen(s, e)
  {
    DispatchKeeps(s, e.message);
    ToDrawIsGate(Dispatch(s, e.message), e);
  }

  /** A step touches nothing but the overlay window's liveness, the quit
      flag and the timing fields, and never revives the window. */
  lemma StepFrame(s: State, e: Env)
    ensures var r := Step(s, e);
      r.next.(overlayAlive := s.overlayAlive, quitPosted := s.quitPosted,
              preTime := s.preTime, showTime := s.showTime, fps := s.fps) == s
    ensures Step(s, e).next.overlayAlive ==> s.overlayAlive
    ensures s.overlayWindow != NullHwnd ==>
      Step(s, e).next.overlayAlive == Dispatch(s, e.message).overlayAlive &&
      Step(s, e).next.quitPosted == Dispatch(s, e.message).quitPosted
    ensures Valid(s) ==> Valid(Step(s, e).next)
  {
    if s.overlayWindow != NullHwnd {
      DispatchKeeps(s, e.message);
    }
  }

  /** The early returns: no overlay window, WM_QUIT, no provider, or an
      invalid target handle. No frame, no callback, no timing update; only
      the two provider cases sleep, once. */
  lemma StepIdle(s: State, e: Env)
    requires !Reaches(s, e)
    ensures Step(s, e).trace ==
      if s.overlayWindow == NullHwnd || e.message == WmQuit then [] else [Show, Sleep(1)]
    ensures var r := Step(s, e);
      r.next.preTime == s.preTime && r.next.showTime == s.showTime && r.next.fps == s.fps
    ensures SleepsOf(Step(s, e).trace) ==
      if s.overlayWindow == NullHwnd || e.message == WmQuit then [] else [1]
    ensures CallbacksOf(Step(s, e).trace) == []
  {
    if s.overlayWindow != NullHwnd {
      DispatchKeeps(s, e.message);
    }
    var idle := [Show, Sleep(1)];
    assert idle[1..] == [Sleep(1)] && idle[1..][1..] == [];
    assert SleepsOf(idle) == [1];
    assert CallbacksOf(idle) == [];
  }

  /** The trace of the drawing path, piece by piece. */
  lemma RenderTrace(s: State, e: Env)
    ensures Render(s, e).trace ==
      [Show] + Placement(e) + [BeginDraw] +
      ([Clear] + (if ToDraw(s, e) then DrawBlock(s, e.now, Width(e), Height(e)).trace else [])) +
      [EndDraw] + [Sleep(1)]
  {
  }

  /** The drawing path opens one frame, clears it, and closes it with
      EndDraw followed by Sleep(1); the drawing calls lie in between. */
  lemma RenderBracketed(s: State, e: Env)
    ensures var t := Render(s, e).trace;
      var k := if e.iconic then 1 else 2;
      Bracketed(t) && |t| >= k + 4 && t[k] == BeginDraw && t[k + 1] == Clear &&
      t[|t| - 2..] == [EndDraw, Sleep(1)] &&
      (forall i :: 0 <= i < |t| && t[i] == BeginDraw ==> i == k) &&
      (forall i :: 0 <= i < |t| && t[i] == EndDraw ==> i == |t| - 2)
  {
    RenderTrace(s, e);
    var pre := [Show] + Placement(e);
    var body := [Clear] + (if ToDraw(s, e) then DrawBlock(s, e.now, Width(e), Height(e)).trace else []);
    var t := pre + [BeginDraw] + body + [EndDraw] + [Sleep(1)];
    assert Render(s, e).trace == t;
    BlockHasNoBracket(s, e.now, Width(e), Height(e));
    assert BeginDraw !in body && EndDraw !in body;
    OneFrame(pre, body, [Sleep(1)]);
    assert t[|pre|] == BeginDraw && t[|pre| + 1] == Clear;
    assert t[|t| - 2..] == [EndDraw, Sleep(1)];
  }

  /** Whenever the frame is begun and cleared, exactly one EndDraw follows,
      then Sleep(1), and every drawing call sits in between; this holds on
      the draw and on the no-draw path alike. The early returns issue no
      frame at all. */
  lemma StepBracketed(s: State, e: Env)
    ensures Bracketed(Step(s, e).trace)
    ensures BeginDraw in Step(s, e).trace <==> Reaches(s, e)
    ensures EndDraw in Step(s, e).trace <==> Reaches(s, e)
    ensures Reaches(s, e) ==>
      var t := Step(s, e).trace;
      var k := if e.iconic then 1 else 2;
      |t| >= k + 4 && t[k] == BeginDraw && t[k + 1] == Clear &&
      t[|t| - 2..] == [EndDraw, Sleep(1)] &&
      (forall i :: 0 <= i < |t| && t[i] == BeginDraw ==> i == k) &&
      (forall i :: 0 <= i < |t| && t[i] == EndDraw ==> i == |t| - 2)
  {
    if !Reaches(s, e) {
      StepIdle(s, e);
      ScanOutside(Step(s, e).trace);
    } else {
      StepRenders(s, e);
      RenderBracketed(Dispatch(s, e.message), e);
    }
  }

  /** The toDraw block neither begins nor ends a frame. */
  lemma BlockHasNoBracket(s: State, now: int, width: nat, height: nat)
    ensures var t := DrawBlock(s, now, width, height).trace;
      forall i :: 0 <= i < |t| ==> t[i] != BeginDraw && t[i] != EndDraw
    ensures BeginDraw !in DrawBlock(s, now, width, height).trace
    ensures EndDraw !in DrawBlock(s, now, width, height).trace
  {
  }

  /** What precedes the drawing: no sleep, no callback. */
  lemma BegunParts(e: Env)
    ensures SleepsOf([Show] + Placement(e) + [BeginDraw, Clear]) == []
    ensures CallbacksOf([Show] + Placement(e) + [BeginDraw, Clear]) == []
  {
    var p := Placement(e);
    SleepsOfOne(Show);
    CallbacksOfOne(Show);
    if !e.iconic {
      SleepsOfOne(p[0]);
      CallbacksOfOne(p[0]);
      assert p == [p[0]];
    }
    SleepsOfOne(BeginDraw);
    CallbacksOfOne(BeginDraw);
    SleepsOfOne(Clear);
    CallbacksOfOne(Clear);
    assert [BeginDraw, Clear] == [BeginDraw] + [Clear];
    SleepsOfAppend([BeginDraw], [Clear]);
    CallbacksOfAppend([BeginDraw], [Clear]);
    SleepsOfAppend([Show], p);
    CallbacksOfAppend([Show], p);
    SleepsOfAppend([Show] + p, [BeginDraw, Clear]);
    CallbacksOfAppend([Show] + p, [BeginDraw, Clear]);
  }

  /** What closes the frame: the one Sleep(1). */
  lemma ClosingParts()
    ensures SleepsOf([EndDraw, Sleep(1)]) == [1]
    ensures CallbacksOf([EndDraw, Sleep(1)]) == []
  {
    assert [EndDraw, Sleep(1)] == [EndDraw] + [Sleep(1)];
    SleepsOfOne(EndDraw);
    CallbacksOfOne(EndDraw);
    SleepsOfOne(Sleep(1));
    CallbacksOfOne(Sleep(1));
    SleepsOfAppend([EndDraw], [Sleep(1)]);
    CallbacksOfAppend([EndDraw], [Sleep(1)]);
  }

  /** The toDraw block sleeps only for the frame cap and calls back once. */
  lemma BlockParts(s: State, now: int, width: nat, height: nat)
    ensures SleepsOf(DrawBlock(s, now, width, height).trace) ==
      if s.options.vsync && VsyncPause(now - s.preTime).Some? then [VsyncPause(now - s.preTime).value] else []
    ensures CallbacksOf(DrawBlock(s, now, width, height).trace) == [(width, height)]
  {
    var f, p, c := FpsReadout(s, now, width), CapPause(s, now), [Callback(width, height)];
    if s.options.drawFps {
      SleepsOfOne(f[0]);
      CallbacksOfOne(f[0]);
      assert f == [f[0]];
    }
    if p != [] {
      SleepsOfOne(p[0]);
      CallbacksOfOne(p[0]);
      assert p == [p[0]];
    }
    SleepsOfOne(Callback(width, height));
    CallbacksOfOne(Callback(width, height));
    SleepsOfAppend(f, p);
    CallbacksOfAppend(f, p);
    SleepsOfAppend(f + p, c);
    CallbacksOfAppend(f + p, c);
  }

  /** The drawing path's trace: what precedes the frame body, the body,
      and the closing EndDraw and Sleep(1). */
  lemma RenderPieces(s: State, e: Env)
    ensures Render(s, e).trace ==
      ([Show] + Placement(e) + [BeginDraw, Clear]) +
      (if ToDraw(s, e) then DrawBlock(s, e.now, Width(e), Height(e)).trace else []) +
      [EndDraw, Sleep(1)]
  {
  }

  /** The sleeps of the drawing path. */
  lemma RenderSleeps(s: State, e: Env)
    ensures SleepsOf(Render(s, e).trace) ==
      (if ToDraw(s, e) && s.options.vsync && VsyncPause(e.now - s.preTime).Some?
       then [VsyncPause(e.now - s.preTime).value] else []) + [1]
  {
    var begun := [Show] + Placement(e) + [BeginDraw, Clear];
    var body := if ToDraw(s, e) then DrawBlock(s, e.now, Width(e), Height(e)).trace else [];
    RenderPieces(s, e);
    BegunParts(e);
    ClosingParts();
    if ToDraw(s, e) {
      BlockParts(s, e.now, Width(e), Height(e));
    }
    SleepsOfAppend(begun, body);
    SleepsOfAppend(begun + body, [EndDraw, Sleep(1)]);
  }

  /** The callbacks of the drawing path. */
  lemma RenderCallbacks(s: State, e: Env)
    ensures CallbacksOf(Render(s, e).trace) == if ToDraw(s, e) then [(Width(e), Height(e))] else []
  {
    var begun := [Show] + Placement(e) + [BeginDraw, Clear];
    var body := if ToDraw(s, e) then DrawBlock(s, e.now, Width(e), Height(e)).trace else [];
    RenderPieces(s, e);
    BegunParts(e);
    ClosingParts();
    if ToDraw(s, e) {
      BlockParts(s, e.now, Width(e), Height(e));
    }
    CallbacksOfAppend(begun, body);
    CallbacksOfAppend(begun + body, [EndDraw, Sleep(1)]);
  }

  /** The callback fires exactly once, with the target's client width and
      height, when the step reaches the frame and the gate is open; never
      otherwise. */
  lemma StepCallback(s: State, e: Env)
    ensures CallbacksOf(Step(s, e).trace) ==
      if Reaches(s, e) && GateOpen(s, e) then [(Width(e), Height(e))] else []
  {
    if Reaches(s, e) {
      StepRenders(s, e);
      RenderCallbacks(Dispatch(s, e.message), e);
    } else {
      StepIdle(s, e);
    }
  }

  /** The sleeps of a step: none for a missing overlay window or WM_QUIT;
      otherwise the closing Sleep(1), preceded on the draw path with the
      frame cap on by `17 - frameTime` exactly when that lies in (0, 30). */
  lemma StepSleeps(s: State, e: Env)
    ensures SleepsOf(Step(s, e).trace) ==
      if s.overlayWindow == NullHwnd || e.message == WmQuit then []
      else if Reaches(s, e) && GateOpen(s, e) && s.options.vsync
              && FrameBudget - MaxPause < e.now - s.preTime < FrameBudget
      then [FrameBudget - (e.now - s.preTime), 1]
      else [1]
  {
    if Reaches(s, e) {
      StepRenders(s, e);
      DispatchKeeps(s, e.message);
      RenderSleeps(Dispatch(s, e.message), e);
    } else {
      StepIdle(s, e);
    }
  }

  /** On the draw path preTime becomes the current clock; fps and showTime
      change only when the FPS readout is on and more than 100 ticks passed
      since the last refresh, and then showTime becomes the current clock.
      Off the draw path no timing field changes. */
  lemma StepTiming(s: State, e: Env)
    ensures Step(s, e).next.preTime == if Reaches(s, e) && GateOpen(s, e) then e.now else s.preTime
    ensures var r := Step(s, e);
      var refresh := Reaches(s, e) && GateOpen(s, e) && s.options.drawFps && e.now - s.showTime > FpsInterval;
      (r.next.showTime, r.next.fps) ==
        if refresh then (e.now, FpsOf(e.now - s.preTime)) else (s.showTime, s.fps)
  {
    if Reaches(s, e) {
      StepRenders(s, e);
      DispatchKeeps(s, e.message);
    } else {
      StepIdle(s, e);
    }
  }

  /** The FPS readout appears on exactly the frames that reach the callback
      with the readout on, and shows the (possibly refreshed) fps value. */
  lemma StepFpsReadout(s: State, e: Env)
    ensures var t := Step(s, e).trace;
      (exists i :: 0 <= i < |t| && t[i].DrawFps?) <==> Reaches(s, e) && GateOpen(s, e) && s.options.drawFps
    ensures var r := Step(s, e);
      forall i :: 0 <= i < |r.trace| && r.trace[i].DrawFps? ==>
        r.trace[i] == DrawFps(r.next.fps, ToUint32(Width(e) as int - 50))
  {
    if Reaches(s, e) {
      var s1 := Dispatch(s, e.message);
      StepRenders(s, e);
      DispatchKeeps(s, e.message);
      var t := Step(s, e).trace;
      var k := |[Show] + Placement(e) + [BeginDraw, Clear]|;
      if GateOpen(s, e) && s.options.drawFps {
        assert t[k].DrawFps?;
      }
    } else {
      StepIdle(s, e);
    }
  }

  /** A step that reaches the frame while the overlay is not minimised
      places the overlay on the target's client rectangle, right after
      Show, on the draw and the no-draw path alike; no other step and no
      other position holds a placement. */
  lemma StepPlacement(s: State, e: Env)
    ensures var t := Step(s, e).trace;
      Reaches(s, e) && !e.iconic ==>
        |t| > 1 && t[1] == Reposition(e.client.left, e.client.top, Width(e), Height(e))
    ensures var t := Step(s, e).trace;
      forall i :: 0 <= i < |t| && t[i].Reposition? ==> Reaches(s, e) && !e.iconic && i == 1
  {
    if Reaches(s, e) {
      StepRenders(s, e);
      BlockHasNoBracket(Dispatch(s, e.message), e.now, Width(e), Height(e));
    } else {
      StepIdle(s, e);
    }
  }

  /** A foreground target whose client rectangle is (100, 100)-(900, 700):
      the overlay moves onto it, and the callback gets 800 by 600. */
  lemma ExampleFrame(s: State, e: Env)
    requires s.overlayWindow != NullHwnd && s.targetWindow == UserProvider
    requires s.enable && s.hasCallback && !s.options.drawFps && !s.options.vsync
    requires e.message == WmNull && e.client == Rect(100, 100, 900, 700) && !e.iconic
    requires IsWindow(e.liveWindows, e.userTarget) && e.foreground == e.userTarget
    ensures Step(s, e).trace ==
      [Show, Reposition(100, 100, 800, 600), BeginDraw, Clear, Callback(800, 600), EndDraw, Sleep(1)]
    ensures Step(s, e).next == s.(preTime := e.now)
  {
  }

  /** A client rectangle given right to left wraps the width around
      UINT32: a rectangle 10 wide the wrong way reports 2^32 - 10. */
  lemma ExampleWrappedWidth(e: Env)
    requires e.client == Rect(50, 0, 40, 20)
    ensures Width(e) == Uint32Modulus - 10 && Height(e) == 20
  {
  }
}
