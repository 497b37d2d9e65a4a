/**
 * The render loop of main.rs: a two-mode state machine over `n` screens.
 * In normal mode Left, Right and Click go to the active screen and LongPress
 * enters selection mode; in selection mode Left and Right move the active
 * index round the ring of screens and Click or LongPress leave it.
 *
 * The screens themselves are not objects here: a tick reports which call
 * the active screen receives (`forwarded`), which screen is drawn and
 * whether the selection border is drawn over it.
 */
module Dispatcher {
  import opened Events
  import opened Options
  import IndexMath

  /** `screen_idx` and `selection_mode`, the two locals the loop updates. */
  datatype State = State(screenIdx: nat, selectionMode: bool)

  const Initial := State(0, false)

  /** The capability calls a screen receives (the draw call aside). */
  datatype ScreenCall = CallLeft | CallRight | CallClick

  /** What one iteration of the loop does to the screens. */
  datatype Frame = Frame(forwarded: Option<(nat, ScreenCall)>, drawn: nat, border: bool)

  ghost predicate Valid(n: nat, s: State)
  {
    n > 0 && s.screenIdx < n
  }

  /**
   * The state after the event `evt` (or none) in selection mode and the
   * state and forwarded call in normal mode.
   */
  function Handle(n: nat, s: State, evt: Option<InputEvent>): (r: (State, Option<(nat, ScreenCall)>))
    requires Valid(n, s)
    ensures Valid(n, r.0)
    // no event: nothing happens
    ensures evt.None? ==> r == (s, None)
    // normal mode: the three intents go to the active screen, unchanged state
    ensures evt.Some? && !s.selectionMode && evt.value != LongPress ==>
      r.0 == s && r.1 == Some((s.screenIdx,
        match evt.value case Left => CallLeft case Right => CallRight case _ => CallClick))
    ensures evt == Some(LongPress) && !s.selectionMode ==> r == (State(s.screenIdx, true), None)
    // selection mode: nothing is forwarded; Left and Right step round the ring, the rest leave
    ensures s.selectionMode ==> r.1.None?
    ensures evt == Some(Left) && s.selectionMode ==> r.0 == State((s.screenIdx - 1) % n, true)
    ensures evt == Some(Right) && s.selectionMode ==> r.0 == State((s.screenIdx + 1) % n, true)
    ensures evt.Some? && evt.value in {Click, LongPress} && s.selectionMode ==> r.0 == State(s.screenIdx, false)
  {
    match evt
    case None => (s, None)
    case Some(e) =>
      if s.selectionMode then
        // `ds` is -1, 1, or 0 for the events that leave selection mode
        match e
        case Left => (State(IndexMath.Wrap(s.screenIdx, -1, n), true), None)
        case Right => (State(IndexMath.Wrap(s.screenIdx, 1, n), true), None)
        case _ =>
          IndexMath.ModUnique(s.screenIdx, n, 0, s.screenIdx);
          (State(IndexMath.Wrap(s.screenIdx, 0, n), false), None)
      else
        match e
        case Left => (s, Some((s.screenIdx, CallLeft)))
        case Right => (s, Some((s.screenIdx, CallRight)))
        case Click => (s, Some((s.screenIdx, CallClick)))
        case LongPress => (State(s.screenIdx, true), None)
  }

  /**
   * One iteration: take at most one event, apply it, then draw the screen at
   * the (new) index, with the border exactly when selection mode is on.
   */
  function Tick(n: nat, s: State, evt: Option<InputEvent>): (r: (State, Frame))
    requires Valid(n, s)
    ensures Valid(n, r.0)
    ensures r.0 == Handle(n, s, evt).0 && r.1.forwarded == Handle(n, s, evt).1
    ensures r.1.drawn == r.0.screenIdx && r.1.border == r.0.selectionMode
  {
    var (s', call) := Handle(n, s, evt);
    (s', Frame(call, s'.screenIdx, s'.selectionMode))
  }

  /** The state after the ticks that received `received`, one entry per tick. */
  function Run(n: nat, s: State, received: seq<Option<InputEvent>>): (r: State)
    requires Valid(n, s)
    ensures Valid(n, r)
    decreases |received|
  {
    if |received| == 0 then s
    else Tick(n, Run(n, s, received[..|received| - 1]), received[|received| - 1]).0
  }

  /** One more tick extends the run by `Tick`'s state. */
  lemma RunStep(n: nat, s: State, received: seq<Option<InputEvent>>, i: nat)
    requires Valid(n, s) && i < |received|
    ensures Run(n, s, received[..i + 1]) == Tick(n, Run(n, s, received[..i]), received[i]).0
  {
    assert received[..i + 1][..i] == received[..i];
  }

  /** The frames of the first `|frames|` ticks, followed by the next tick's frame, are those of one tick more. */
  lemma FramesExtend(n: nat, received: seq<Option<InputEvent>>, frames: seq<Frame>, f: Frame)
    requires n > 0 && |frames| < |received|
    requires forall k :: 0 <= k < |frames| ==> frames[k] == Tick(n, Run(n, Initial, received[..k]), received[k]).1
    requires f == Tick(n, Run(n, Initial, received[..|frames|]), received[|frames|]).1
    ensures forall k :: 0 <= k < |frames| + 1 ==>
      (frames + [f])[k] == Tick(n, Run(n, Initial, received[..k]), received[k]).1
  {
  }

  /**
   * The body of the loop up to the draw: what it does with the event
   * `try_recv` returned, if any.
   */
  method Dispatch(n: nat, screenIdx: nat, selectionMode: bool, received: Option<InputEvent>)
    returns (screenIdx': nat, selectionMode': bool, forwarded: Option<(nat, ScreenCall)>)
    requires Valid(n, State(screenIdx, selectionMode))
    ensures (State(screenIdx', selectionMode'), forwarded) == Handle(n, State(screenIdx, selectionMode), received)
  {
    screenIdx', selectionMode', forwarded := screenIdx, selectionMode, None;
    if received.Some? {
      var evt := received.value;
      if selectionMode {
        var ds := match evt case Left => -1 case Right => 1 case _ => 0;
        if evt != Left && evt != Right {
          selectionMode' := false;
        }
        screenIdx' := IndexMath.Wrap(screenIdx, ds, n);
      } else {
        match evt {
          case Left => forwarded := Some((screenIdx, CallLeft));
          case Right => forwarded := Some((screenIdx, CallRight));
          case Click => forwarded := Some((screenIdx, CallClick));
          case LongPress => selectionMode' := true;
        }
      }
    }
  }

  /**
   * The loop of `main`, over what `try_recv` returned on each tick until the
   * shutdown flag stopped it. Returns the frames it produced.
   */
  method RenderLoop(n: nat, received: seq<Option<InputEvent>>) returns (frames: seq<Frame>, last: State)
    requires n > 0
    ensures last == Run(n, Initial, received) && last.screenIdx < n
    ensures |frames| == |received|
    ensures forall k :: 0 <= k < |frames| ==>
      frames[k] == Tick(n, Run(n, Initial, received[..k]), received[k]).1
  {
    var screenIdx: nat := 0;
    var selectionMode := false;
    frames := [];
    var i := 0;
    while i < |received|
      invariant 0 <= i <= |received| && |frames| == i
      invariant State(screenIdx, selectionMode) == Run(n, Initial, received[..i])
      invariant forall k :: 0 <= k < i ==> frames[k] == Tick(n, Run(n, Initial, received[..k]), received[k]).1
    {
      RunStep(n, Initial, received, i);
      ghost var step := Tick(n, State(screenIdx, selectionMode), received[i]);
      var forwarded;
      screenIdx, selectionMode, forwarded := Dispatch(n, screenIdx, selectionMode, received[i]);
      assert Frame(forwarded, screenIdx, selectionMode) == step.1;
      FramesExtend(n, received, frames, step.1);
      frames := frames + [Frame(forwarded, screenIdx, selectionMode)];
      i := i + 1;
    }
    assert received[..i] == received;
    last := State(screenIdx, selectionMode);
  }

  /** In selection mode Left moves to the previous screen and Right to the next, wrapping at both ends. */
  lemma SelectionSteps(n: nat, s: State)
    requires Valid(n, s) && s.selectionMode
    ensures Handle(n, s, Some(Left)).0.screenIdx == if s.screenIdx == 0 then n - 1 else s.screenIdx - 1
    ensures Handle(n, s, Some(Right)).0.screenIdx == if s.screenIdx == n - 1 then 0 else s.screenIdx + 1
  {
    var i: int := s.screenIdx;
    IndexMath.ModUnique(i - 1, n, if i == 0 then -1 else 0, if i == 0 then n - 1 else i - 1);
    IndexMath.ModUnique(i + 1, n, if i == n - 1 then 1 else 0, if i == n - 1 then 0 else i + 1);
  }

  /** In selection mode Left then Right, or Right then Left, comes back to the same screen. */
  lemma LeftRightCancel(n: nat, s: State)
    requires Valid(n, s) && s.selectionMode
    ensures Handle(n, Handle(n, s, Some(Left)).0, Some(Right)).0 == s
    ensures Handle(n, Handle(n, s, Some(Right)).0, Some(Left)).0 == s
  {
    SelectionSteps(n, s);
    SelectionSteps(n, Handle(n, s, Some(Left)).0);
    SelectionSteps(n, Handle(n, s, Some(Right)).0);
  }

  /** Handling `a + b` is handling `a`, then `b`. */
  lemma {:induction false} RunConcat(n: nat, s: State, a: seq<Option<InputEvent>>, b: seq<Option<InputEvent>>)
    requires Valid(n, s)
    ensures Run(n, s, a + b) == Run(n, Run(n, s, a), b)
    decreases |b|
  {
    if |b| == 0 {
      assert a + b == a;
    } else {
      assert (a + b)[..|a + b| - 1] == a + b[..|b| - 1];
      RunConcat(n, s, a, b[..|b| - 1]);
    }
  }

  /** Ticks on which nothing was received leave the index and the mode as they were. */
  lemma {:induction false} IdleTicksChangeNothing(n: nat, s: State, received: seq<Option<InputEvent>>)
    requires Valid(n, s)
    requires forall k :: 0 <= k < |received| ==> received[k].None?
    ensures Run(n, s, received) == s
    decreases |received|
  {
    if |received| > 0 {
      IdleTicksChangeNothing(n, s, received[..|received| - 1]);
    }
  }

  /**
   * Two screens, LongPress, Right, Right, Click: back in normal mode on the
   * first screen, with the border drawn on every frame but the last.
   */
  method TwoScreenScenario() returns (frames: seq<Frame>, last: State)
    ensures last == Initial
    ensures |frames| == 4
    ensures frames[0] == Frame(None, 0, true) && frames[1] == Frame(None, 1, true)
    ensures frames[2] == Frame(None, 0, true) && frames[3] == Frame(None, 0, false)
  {
    var received := [Some(LongPress), Some(Right), Some(Right), Some(Click)];
    frames, last := RenderLoop(2, received);
    assert received[..0] == [];
    assert received[..1] == [Some(LongPress)];
    assert Run(2, Initial, received[..1]) == State(0, true);
    assert received[..2] == received[..1] + [Some(Right)];
    assert Run(2, Initial, received[..2]) == State(1, true);
    assert received[..3] == received[..2] + [Some(Right)];
    assert Run(2, Initial, received[..3]) == State(0, true);
    assert received[..4] == received;
  }
}
