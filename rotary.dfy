/**
 * The rotary encoder with push button (rotary.rs): a quadrature decoder that
 * turns the two encoder lines into Left/Right events, and a button handler
 * that turns a falling edge into Click or LongPress.
 *
 * The channel the decoder sends on is the field `tx`, the sequence of every
 * event sent so far. Hardware access and clocks are parameters: an interrupt
 * carries the levels the decoder reads, and the button's hold loop reads the
 * level `read(k)` after `k` polls of `PollMs` milliseconds each.
 */
module Rotary {
  import Events
  import opened Options

  datatype Level = Low | High

  /** The pair `(left, right)` of line levels: the encoder's 2-bit state. */
  datatype Lines = Lines(left: Level, right: Level)

  /** 00, the detent rest position. */
  const Rest := Lines(Low, Low)

  /** The hint the decoder latches from the first edge of a detent. */
  datatype Direction = Unknown | Left | Right

  /**
   * One step round the Gray-code cycle 00 -> 01 -> 11 -> 10 -> 00, the order
   * in which a right turn moves the lines. A left turn runs it backwards.
   */
  function Clockwise(s: Lines): Lines
  {
    match s
    case Lines(Low, Low) => Lines(Low, High)
    case Lines(Low, High) => Lines(High, High)
    case Lines(High, High) => Lines(High, Low)
    case Lines(High, Low) => Lines(Low, Low)
  }

  /** The event a latched hint stands for. */
  function EventOf(d: Direction): Option<Events.InputEvent>
  {
    match d
    case Unknown => None
    case Left => Some(Events.Left)
    case Right => Some(Events.Right)
  }

  /** What one call of the decoder does: the hint afterwards, and the event sent, if any. */
  datatype Step = Step(hint: Direction, emitted: Option<Events.InputEvent>)

  /**
   * The transition table: state `s` observes the lines `n` with `hint` latched.
   * Read against the Gray-code cycle, a step forward latches Right, a step
   * backward latches Left, and an event goes out only on the return to rest,
   * in the direction the hint remembers; everything else is noise and changes
   * nothing.
   */
  function Transition(s: Lines, hint: Direction, n: Lines): (r: Step)
    ensures n != Rest && n == Clockwise(s) ==> r.hint == Right
    ensures n != Rest && s == Clockwise(n) ==> r.hint == Left
    ensures !(n != Rest && (n == Clockwise(s) || s == Clockwise(n))) ==> r.hint == hint
    ensures hint != Unknown ==> r.hint != Unknown
    ensures r.emitted.Some? <==>
      && n == Rest && s != Rest && hint != Unknown
      && (s == Clockwise(n) ==> hint == Left)
      && (n == Clockwise(s) ==> hint == Right)
    ensures r.emitted.Some? ==> r.emitted == EventOf(hint)
  {
    match (s, n)
    // from 00 the first edge gives the direction
    case (Lines(Low, Low), Lines(Low, High)) => Step(Right, None)
    case (Lines(Low, Low), Lines(High, Low)) => Step(Left, None)
    // from 01: on to 11, or back to rest
    case (Lines(Low, High), Lines(High, High)) => Step(Right, None)
    case (Lines(Low, High), Lines(Low, Low)) => Step(hint, if hint == Left then Some(Events.Left) else None)
    // from 10: on to 11, or back to rest
    case (Lines(High, Low), Lines(High, High)) => Step(Left, None)
    case (Lines(High, Low), Lines(Low, Low)) => Step(hint, if hint == Right then Some(Events.Right) else None)
    // from 11: on to 01 or 10, or straight to rest after a missed edge
    case (Lines(High, High), Lines(Low, High)) => Step(Left, None)
    case (Lines(High, High), Lines(High, Low)) => Step(Right, None)
    case (Lines(High, High), Lines(Low, Low)) => Step(hint, EventOf(hint))
    case _ => Step(hint, None)
  }

  function AsSeq<T>(o: Option<T>): (r: seq<T>)
    ensures |r| <= 1
    ensures o.Some? ==> r == [o.value]
  {
    match o
    case None => []
    case Some(v) => [v]
  }

  // ---------------------------------------------------------------------
  // The button

  /** The hold loop sleeps this long between two reads of the button. */
  const PollMs: nat := 100
  /** A press held longer than this is a long press. */
  const LongPressMs: nat := 1000
  /**
   * The number of reads that must find the button down for a long press: the
   * loop sends LongPress after the first sleep that takes the elapsed time
   * past `LongPressMs`, having read the button once before each sleep.
   */
  const LongPressPolls: nat := LongPressMs / PollMs + 1

  /** Exactly one of LongPress and Click, decided by the first `LongPressPolls` reads. */
  function PressEvent(read: nat -> Level): (r: Events.InputEvent)
    ensures r == Events.LongPress <==> forall k :: 0 <= k < LongPressPolls ==> read(k) == Low
    ensures r == Events.Click <==> exists k :: 0 <= k < LongPressPolls && read(k) == High
  {
    if forall k :: 0 <= k < LongPressPolls ==> read(k) == Low then Events.LongPress else Events.Click
  }

  /** The reads of a button released `ms` milliseconds after it went down. */
  function HeldFor(ms: nat): nat -> Level
  {
    k => if k * PollMs < ms then Low else High
  }

  /** A press is long exactly when the button is held more than `LongPressMs`. */
  lemma HoldThreshold(ms: nat)
    ensures PressEvent(HeldFor(ms)) == (if ms > LongPressMs then Events.LongPress else Events.Click)
  {
    if ms <= LongPressMs {
      assert HeldFor(ms)(LongPressPolls - 1) == High;
    }
  }

  // ---------------------------------------------------------------------
  // The decoder thread as a whole

  /** What `poll_interrupts` hands the loop: nothing (timeout or error), an encoder edge, or a button edge. */
  datatype Interrupt =
    | Timeout
    | Rotation(left: Level, right: Level)
    | Button(level: Level, read: nat -> Level)

  /** The decoder's state: the lines last seen, the latched hint, and everything sent. */
  datatype Decoder = Decoder(state: Lines, hint: Direction, sent: seq<Events.InputEvent>)

  const Initial := Decoder(Rest, Unknown, [])

  /** One interrupt handled by the loop body of `poll_loop`. */
  function Feed(d: Decoder, i: Interrupt): (r: Decoder)
    ensures |d.sent| <= |r.sent| <= |d.sent| + 1 && r.sent[..|d.sent|] == d.sent
  {
    match i
    case Timeout => d
    case Rotation(left, right) =>
      var n := Lines(left, right);
      var step := Transition(d.state, d.hint, n);
      Decoder(n, step.hint, d.sent + AsSeq(step.emitted))
    case Button(level, read) =>
      if level == Low then d.(sent := d.sent + [PressEvent(read)]) else d
  }

  /** The interrupts handled in order. */
  function FeedAll(d: Decoder, ints: seq<Interrupt>): (r: Decoder)
    ensures |d.sent| <= |r.sent| <= |d.sent| + |ints| && r.sent[..|d.sent|] == d.sent
    decreases |ints|
  {
    if |ints| == 0 then d else Feed(FeedAll(d, ints[..|ints| - 1]), ints[|ints| - 1])
  }

  /** Handling `a + b` is handling `a`, then `b`. */
  lemma {:induction false} FeedAllConcat(d: Decoder, a: seq<Interrupt>, b: seq<Interrupt>)
    ensures FeedAll(d, a + b) == FeedAll(FeedAll(d, a), b)
    decreases |b|
  {
    if |b| == 0 {
      assert a + b == a;
    } else {
      assert (a + b)[..|a + b| - 1] == a + b[..|b| - 1];
      FeedAllConcat(d, a, b[..|b| - 1]);
    }
  }

  /** One detent clockwise, 00 -> 01 -> 11 -> 10 -> 00, as the decoder sees it. */
  const RightDetent: seq<Interrupt> :=
    [Rotation(Low, High), Rotation(High, High), Rotation(High, Low), Rotation(Low, Low)]

  /** One detent anticlockwise, 00 -> 10 -> 11 -> 01 -> 00. */
  const LeftDetent: seq<Interrupt> :=
    [Rotation(High, Low), Rotation(High, High), Rotation(Low, High), Rotation(Low, Low)]

  /** Handling a three- or four-interrupt sequence, interrupt by interrupt. */
  lemma FeedAllUnfolds(d: Decoder, ints: seq<Interrupt>)
    requires 3 <= |ints| <= 4
    ensures |ints| == 3 ==> FeedAll(d, ints) == Feed(Feed(Feed(d, ints[0]), ints[1]), ints[2])
    ensures |ints| == 4 ==> FeedAll(d, ints) == Feed(Feed(Feed(Feed(d, ints[0]), ints[1]), ints[2]), ints[3])
  {
    assert FeedAll(d, ints[..1]) == Feed(d, ints[0]) by {
      assert ints[..1][..0] == [];
    }
    assert ints[..2][..1] == ints[..1];
    assert ints[..3][..2] == ints[..2];
    if |ints| == 4 {
      assert ints[..4][..3] == ints[..3];
      assert ints[..4] == ints;
    } else {
      assert ints[..3] == ints;
    }
  }

  /** A full right detent from rest sends exactly one Right, whatever was latched before. */
  lemma RightDetentSendsRight(d: Decoder)
    requires d.state == Rest
    ensures FeedAll(d, RightDetent) == Decoder(Rest, Right, d.sent + [Events.Right])
  {
    FeedAllUnfolds(d, RightDetent);
    var d1 := Feed(d, RightDetent[0]);
    assert d1 == Decoder(Lines(Low, High), Right, d.sent);
    var d2 := Feed(d1, RightDetent[1]);
    assert d2 == Decoder(Lines(High, High), Right, d.sent);
    var d3 := Feed(d2, RightDetent[2]);
    assert d3 == Decoder(Lines(High, Low), Right, d.sent);
    assert Feed(d3, RightDetent[3]) == Decoder(Rest, Right, d.sent + [Events.Right]);
  }

  /** A full left detent from rest sends exactly one Left, whatever was latched before. */
  lemma LeftDetentSendsLeft(d: Decoder)
    requires d.state == Rest
    ensures FeedAll(d, LeftDetent) == Decoder(Rest, Left, d.sent + [Events.Left])
  {
    FeedAllUnfolds(d, LeftDetent);
    var d1 := Feed(d, LeftDetent[0]);
    assert d1 == Decoder(Lines(High, Low), Left, d.sent);
    var d2 := Feed(d1, LeftDetent[1]);
    assert d2 == Decoder(Lines(High, High), Left, d.sent);
    var d3 := Feed(d2, LeftDetent[2]);
    assert d3 == Decoder(Lines(Low, High), Left, d.sent);
    assert Feed(d3, LeftDetent[3]) == Decoder(Rest, Left, d.sent + [Events.Left]);
  }

  /** A right detent whose 11 -> 10 edge was lost still sends one Right, through the 11 -> 00 recovery. */
  lemma MissedEdgeRecovers(d: Decoder)
    requires d.state == Rest
    ensures FeedAll(d, [Rotation(Low, High), Rotation(High, High), Rotation(Low, Low)])
         == Decoder(Rest, Right, d.sent + [Events.Right])
  {
    var ints := [Rotation(Low, High), Rotation(High, High), Rotation(Low, Low)];
    FeedAllUnfolds(d, ints);
    var d2 := Feed(Feed(d, ints[0]), ints[1]);
    assert d2 == Decoder(Lines(High, High), Right, d.sent);
    assert Feed(d2, ints[2]) == Decoder(Rest, Right, d.sent + [Events.Right]);
  }

  /** `k` copies of `ints`, one after another. */
  function Repeat(ints: seq<Interrupt>, k: nat): (r: seq<Interrupt>)
    ensures |r| == k * |ints|
  {
    if k == 0 then [] else Repeat(ints, k - 1) + ints
  }

  /** `k` right detents from rest send exactly `k` Right events and nothing else. */
  lemma {:induction false} RightDetentsSendRights(d: Decoder, k: nat)
    requires d.state == Rest
    ensures FeedAll(d, Repeat(RightDetent, k))
         == Decoder(Rest, if k == 0 then d.hint else Right, d.sent + seq(k, _ => Events.Right))
  {
    if k == 0 {
      assert d.sent + seq(0, _ => Events.Right) == d.sent;
    } else {
      var before := Repeat(RightDetent, k - 1);
      RightDetentsSendRights(d, k - 1);
      var mid := FeedAll(d, before);
      assert mid == Decoder(Rest, if k == 1 then d.hint else Right, d.sent + seq(k - 1, _ => Events.Right));
      FeedAllConcat(d, before, RightDetent);
      RightDetentSendsRight(mid);
      RightsSnoc(d.sent, k);
    }
  }

  /** One more Right after `k - 1` of them is `k` of them. */
  lemma RightsSnoc(sent: seq<Events.InputEvent>, k: nat)
    requires k > 0
    ensures sent + seq(k - 1, _ => Events.Right) + [Events.Right] == sent + seq(k, _ => Events.Right)
  {
  }

  /** Once the decoder has latched a direction it never forgets it. */
  lemma {:induction false} HintNeverReset(d: Decoder, ints: seq<Interrupt>)
    requires d.hint != Unknown
    ensures FeedAll(d, ints).hint != Unknown
    decreases |ints|
  {
    if |ints| > 0 {
      HintNeverReset(d, ints[..|ints| - 1]);
    }
  }

  predicate IsPress(e: Events.InputEvent)
  {
    e == Events.Click || e == Events.LongPress
  }

  /** The number of Click and LongPress events in `es`. */
  function Presses(es: seq<Events.InputEvent>): nat
  {
    if |es| == 0 then 0
    else Presses(es[..|es| - 1]) + (if IsPress(es[|es| - 1]) then 1 else 0)
  }

  /** The number of falling button edges among `ints`. */
  function ButtonDowns(ints: seq<Interrupt>): nat
  {
    if |ints| == 0 then 0
    else ButtonDowns(ints[..|ints| - 1]) + (if ints[|ints| - 1].Button? && ints[|ints| - 1].level == Low then 1 else 0)
  }

  /**
   * Every falling edge of the button sends exactly one press event, and
   * nothing else sends one: encoder edges only ever send Left or Right.
   */
  lemma {:induction false} OnePressPerButtonDown(d: Decoder, ints: seq<Interrupt>)
    ensures Presses(FeedAll(d, ints).sent) == Presses(d.sent) + ButtonDowns(ints)
    decreases |ints|
  {
    if |ints| > 0 {
      var prev := FeedAll(d, ints[..|ints| - 1]);
      OnePressPerButtonDown(d, ints[..|ints| - 1]);
      var next := Feed(prev, ints[|ints| - 1]);
      if |next.sent| > |prev.sent| {
        assert next.sent[..|next.sent| - 1] == prev.sent;
      } else {
        assert next.sent == prev.sent;
      }
    }
  }

  class RotaryEncoder {
    var state: Lines
    /** The channel to the render loop: every event sent so far, oldest first. */
    var tx: seq<Events.InputEvent>

    constructor ()
      ensures state == Rest && tx == []
    {
      state := Rest;
      tx := [];
    }

    /** The decoder state this object and a hint make up. */
    function Snapshot(hint: Direction): Decoder
      reads this
    {
      Decoder(state, hint, tx)
    }

    /** Handles an encoder edge: the lines now read `(left, right)`. */
    method HandleRotation(direction: Direction, left: Level, right: Level) returns (direction': Direction)
      modifies this
      ensures state == Lines(left, right)
      ensures Snapshot(direction') == Feed(old(Snapshot(direction)), Rotation(left, right))
    {
      var newState := Lines(left, right);
      direction' := direction;
      match state {
        case Lines(Low, Low) =>
          if newState == Lines(Low, High) {
            direction' := Right;
          } else if newState == Lines(High, Low) {
            direction' := Left;
          }
        case Lines(Low, High) =>
          if newState == Lines(High, High) {
            direction' := Right;
          } else if newState == Lines(Low, Low) {
            if direction == Left {
              tx := tx + [Events.Left];
            }
          }
        case Lines(High, Low) =>
          if newState == Lines(High, High) {
            direction' := Left;
          } else if newState == Lines(Low, Low) {
            if direction == Right {
              tx := tx + [Events.Right];
            }
          }
        case Lines(High, High) =>
          if newState == Lines(Low, High) {
            direction' := Left;
          } else if newState == Lines(High, Low) {
            direction' := Right;
          } else if newState == Lines(Low, Low) {
            if direction == Left {
              tx := tx + [Events.Left];
            } else if direction == Right {
              tx := tx + [Events.Right];
            }
          }
      }
      state := newState;
    }

    /** Handles a falling edge of the button: polls until release or until the press is long. */
    method HandleButtonPress(read: nat -> Level)
      modifies this`tx
      ensures tx == old(tx) + [PressEvent(read)]
    {
      var polls := 0;  // sleeps so far; the elapsed time is polls * PollMs
      var sent := false;
      while read(polls) == Low
        invariant 0 <= polls < LongPressPolls
        invariant forall k :: 0 <= k < polls ==> read(k) == Low
        invariant tx == old(tx) && !sent
        decreases LongPressPolls - polls
      {
        polls := polls + 1;
        if polls * PollMs > LongPressMs {
          tx := tx + [Events.LongPress];
          sent := true;
          break;
        }
      }
      if !sent {
        tx := tx + [Events.Click];
      }
    }

    /** The loop of `poll_loop`, over the interrupts it receives before it is told to stop. */
    method PollLoop(interrupts: seq<Interrupt>)
      modifies this
      ensures var d := FeedAll(old(Snapshot(Unknown)), interrupts);
        state == d.state && tx == d.sent
    {
      var rotation := Unknown;
      var i := 0;
      while i < |interrupts|
        invariant 0 <= i <= |interrupts|
        invariant Snapshot(rotation) == FeedAll(old(Snapshot(Unknown)), interrupts[..i])
      {
        assert interrupts[..i + 1][..i] == interrupts[..i];
        match interrupts[i] {
          case Timeout =>
          case Rotation(left, right) =>
            rotation := HandleRotation(rotation, left, right);
          case Button(level, read) =>
            if level == Low {
              HandleButtonPress(read);
            }
        }
        i := i + 1;
      }
      assert interrupts[..i] == interrupts;
    }
  }
}
