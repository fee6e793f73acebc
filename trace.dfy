/** Reading an effect trace: the Begin/EndDraw bracket discipline and the
    projections on sleeps and callback invocations. */
module Trace {
  import opened Platform

  /** Effects that belong inside a BeginDraw/EndDraw bracket. */
  predicate DrawingOp(e: Effect) {
    e == Clear || e.DrawFps? || e.Callback?
  }

  /** Follows the bracket state through a trace: None as soon as a frame is
      opened twice, closed while not open, or drawn to while not open;
      otherwise whether a frame is open at the end. */
  function Scan(t: seq<Effect>, open: bool): Option<bool>
    decreases |t|
  {
    if t == [] then Some(open)
    else if t[0] == BeginDraw then (if open then None else Scan(t[1..], true))
    else if t[0] == EndDraw then (if open then Scan(t[1..], false) else None)
    else if DrawingOp(t[0]) && !open then None
    else Scan(t[1..], open)
  }

  /** Every BeginDraw is closed by an EndDraw before the next BeginDraw, and
      all drawing happens between the two. */
  predicate Bracketed(t: seq<Effect>) {
    Scan(t, false) == Some(false)
  }

  lemma {:induction false} ScanAppend(a: seq<Effect>, b: seq<Effect>, open: bool)
    ensures Scan(a + b, open) == match Scan(a, open) case None => None case Some(o) => Scan(b, o)
    decreases |a|
  {
    if a == [] {
      assert a + b == b;
    } else {
      assert (a + b)[0] == a[0];
      assert (a + b)[1..] == a[1..] + b;
      ScanAppend(a[1..], b, if a[0] == BeginDraw then true else if a[0] == EndDraw then false else open);
    }
  }

  lemma BracketedAppend(a: seq<Effect>, b: seq<Effect>)
    requires Bracketed(a) && Bracketed(b)
    ensures Bracketed(a + b)
  {
    ScanAppend(a, b, false);
  }

  /** A stretch of a trace that neither opens nor closes a frame leaves an
      open frame open. */
  lemma {:induction false} ScanInside(t: seq<Effect>)
    requires forall i :: 0 <= i < |t| ==> t[i] != BeginDraw && t[i] != EndDraw
    ensures Scan(t, true) == Some(true)
    decreases |t|
  {
    if t != [] {
      ScanInside(t[1..]);
    }
  }

  /** A stretch with no bracket and no drawing is fine outside a frame. */
  lemma {:induction false} ScanOutside(t: seq<Effect>)
    requires forall i :: 0 <= i < |t| ==> t[i] != BeginDraw && t[i] != EndDraw && !DrawingOp(t[i])
    ensures Scan(t, false) == Some(false)
    decreases |t|
  {
    if t != [] {
      ScanOutside(t[1..]);
    }
  }

  /** `pre`, then one frame holding `body`, then `post`. */
  lemma OneFrame(pre: seq<Effect>, body: seq<Effect>, post: seq<Effect>)
    requires forall i :: 0 <= i < |pre| ==> pre[i] != BeginDraw && pre[i] != EndDraw && !DrawingOp(pre[i])
    requires forall i :: 0 <= i < |body| ==> body[i] != BeginDraw && body[i] != EndDraw
    requires forall i :: 0 <= i < |post| ==> post[i] != BeginDraw && post[i] != EndDraw && !DrawingOp(post[i])
    ensures Bracketed(pre + [BeginDraw] + body + [EndDraw] + post)
  {
    ScanOutside(pre);
    ScanInside(body);
    ScanOutside(post);
    assert Scan([BeginDraw], false) == Some(true);
    assert Scan([EndDraw], true) == Some(false);
    ScanAppend(pre, [BeginDraw], false);
    ScanAppend(pre + [BeginDraw], body, false);
    ScanAppend(pre + [BeginDraw] + body, [EndDraw], false);
    ScanAppend(pre + [BeginDraw] + body + [EndDraw], post, false);
  }

  /** The durations of the Sleep calls, in order. */
  function SleepsOf(t: seq<Effect>): seq<nat>
    decreases |t|
  {
    if t == [] then []
    else (if t[0].Sleep? then [t[0].ms] else []) + SleepsOf(t[1..])
  }

  /** The (width, height) arguments of the callback invocations, in order. */
  function CallbacksOf(t: seq<Effect>): seq<(nat, nat)>
    decreases |t|
  {
    if t == [] then []
    else (if t[0].Callback? then [(t[0].width, t[0].height)] else []) + CallbacksOf(t[1..])
  }

  lemma {:induction false} SleepsOfAppend(a: seq<Effect>, b: seq<Effect>)
    ensures SleepsOf(a + b) == SleepsOf(a) + SleepsOf(b)
    decreases |a|
  {
    if a == [] {
      assert a + b == b;
    } else {
      assert (a + b)[0] == a[0];
      assert (a + b)[1..] == a[1..] + b;
      SleepsOfAppend(a[1..], b);
    }
  }

  lemma {:induction false} CallbacksOfAppend(a: seq<Effect>, b: seq<Effect>)
    ensures CallbacksOf(a + b) == CallbacksOf(a) + CallbacksOf(b)
    decreases |a|
  {
    if a == [] {
      assert a + b == b;
    } else {
      assert (a + b)[0] == a[0];
      assert (a + b)[1..] == a[1..] + b;
      CallbacksOfAppend(a[1..], b);
    }
  }

  lemma SleepsOfOne(x: Effect)
    ensures SleepsOf([x]) == if x.Sleep? then [x.ms] else []
  {
    assert [x][1..] == [];
  }

  lemma CallbacksOfOne(x: Effect)
    ensures CallbacksOf([x]) == if x.Callback? then [(x.width, x.height)] else []
  {
    assert [x][1..] == [];
  }
}
