/** The study cursor with its delayed moves. `handleNext` and `handlePrev`
    check the cursor the screen shows, then schedule the move itself
    150 ms later; until the timer fires, further presses see the old
    cursor. */
module Deferred {

  /** `index` is the cursor on screen; `queued` the scheduled moves (+1 for
      next, -1 for previous), in the order their timers fire. */
  datatype Cursor = Cursor(index: int, queued: seq<int>)

  /** What happens while a session of `len` cards is studied: a press of
      next (arrow key, button or a non-hard rating), a press of previous, or
      the oldest pending timer firing. */
  datatype Event = Next | Prev | Timer

  predicate InRange(c: Cursor, len: nat) {
    0 <= c.index < len
  }

  /** A press of next schedules a move when the shown card is not the last. */
  function PressNext(c: Cursor, len: nat): (d: Cursor)
    ensures d.index == c.index
    ensures c.index < len - 1 ==> d.queued == c.queued + [1]
    ensures c.index >= len - 1 ==> d == c
  {
    if c.index < len - 1 then c.(queued := c.queued + [1]) else c
  }

  /** A press of previous schedules a move when the shown card is not the
      first. */
  function PressPrev(c: Cursor): (d: Cursor)
    ensures d.index == c.index
    ensures c.index > 0 ==> d.queued == c.queued + [-1]
    ensures c.index <= 0 ==> d == c
  {
    if c.index > 0 then c.(queued := c.queued + [-1]) else c
  }

  /** The timer as written: `setCurrentIndex(prev => prev + 1)` (or `- 1`)
      applies the move unconditionally. */
  function Fire(c: Cursor): (d: Cursor)
    requires c.queued != []
    ensures d.index == c.index + c.queued[0] && d.queued == c.queued[1..]
  {
    Cursor(c.index + c.queued[0], c.queued[1..])
  }

  /** The timer with the bound checked when the move is applied: a move
      that would leave the session is dropped. */
  function FireClamped(c: Cursor, len: nat): (d: Cursor)
    requires c.queued != []
    ensures d.queued == c.queued[1..]
    ensures c.queued[0] > 0 ==> d.index == (if c.index < len - 1 then c.index + 1 else c.index)
    ensures c.queued[0] <= 0 ==> d.index == (if c.index > 0 then c.index - 1 else c.index)
  {
    var i := if c.queued[0] > 0 then (if c.index < len - 1 then c.index + 1 else c.index)
             else (if c.index > 0 then c.index - 1 else c.index);
    Cursor(i, c.queued[1..])
  }

  function Step(c: Cursor, len: nat, e: Event): Cursor {
    match e
      case Next => PressNext(c, len)
      case Prev => PressPrev(c)
      case Timer => if c.queued == [] then c else Fire(c)
  }

  function StepClamped(c: Cursor, len: nat, e: Event): Cursor {
    match e
      case Next => PressNext(c, len)
      case Prev => PressPrev(c)
      case Timer => if c.queued == [] then c else FireClamped(c, len)
  }

  /** The events applied in order, as written. */
  function Run(c: Cursor, len: nat, events: seq<Event>): Cursor
    decreases |events|
  {
    if events == [] then c else Run(Step(c, len, events[0]), len, events[1..])
  }

  /** The events applied in order, with the clamped timer. */
  function RunClamped(c: Cursor, len: nat, events: seq<Event>): Cursor
    decreases |events|
  {
    if events == [] then c else RunClamped(StepClamped(c, len, events[0]), len, events[1..])
  }

  /** As written, two quick presses of next on the first card of a two-card
      session move the cursor to 2, where there is no card to show. */
  lemma DoubleNextOverruns()
    ensures Run(Cursor(0, []), 2, [Next, Next, Timer, Timer]) == Cursor(2, [])
    ensures !InRange(Run(Cursor(0, []), 2, [Next, Next, Timer, Timer]), 2)
  {
    var c1 := PressNext(Cursor(0, []), 2);
    var c2 := PressNext(c1, 2);
    assert c2 == Cursor(0, [1, 1]);
    var c3 := Fire(c2);
    assert c3 == Cursor(1, [1]);
    assert Fire(c3) == Cursor(2, []);
    assert Run(Cursor(0, []), 2, [Next, Next, Timer, Timer]) == Run(c1, 2, [Next, Timer, Timer]);
    assert Run(c1, 2, [Next, Timer, Timer]) == Run(c2, 2, [Timer, Timer]);
    assert Run(c2, 2, [Timer, Timer]) == Run(c3, 2, [Timer]);
  }

  /** As written, two quick presses of previous on the second card move the
      cursor to -1. */
  lemma DoublePrevUnderruns()
    ensures Run(Cursor(1, []), 2, [Prev, Prev, Timer, Timer]) == Cursor(-1, [])
  {
    var c1 := PressPrev(Cursor(1, []));
    var c2 := PressPrev(c1);
    assert c2 == Cursor(1, [-1, -1]);
    var c3 := Fire(c2);
    assert c3 == Cursor(0, [-1]);
    assert Fire(c3) == Cursor(-1, []);
    assert Run(Cursor(1, []), 2, [Prev, Prev, Timer, Timer]) == Run(c1, 2, [Prev, Timer, Timer]);
    assert Run(c1, 2, [Prev, Timer, Timer]) == Run(c2, 2, [Timer, Timer]);
    assert Run(c2, 2, [Timer, Timer]) == Run(c3, 2, [Timer]);
  }

  /** With the clamped timer the cursor stays on a card whatever the
      presses and however the timers interleave with them. */
  lemma {:induction false} ClampedStaysInRange(c: Cursor, len: nat, events: seq<Event>)
    requires InRange(c, len)
    ensures InRange(RunClamped(c, len, events), len)
    decreases |events|
  {
    if events != [] {
      ClampedStaysInRange(StepClamped(c, len, events[0]), len, events[1..]);
    }
  }

  /** With nothing pending, a press of next followed by its timer moves the
      cursor exactly as the undelayed `handleNext` does: one card on, unless
      at the last card. */
  lemma ClampedNextIsImmediateNext(i: int, len: nat)
    requires 0 <= i < len
    ensures RunClamped(Cursor(i, []), len, [Next, Timer])
            == Cursor(if i < len - 1 then i + 1 else i, [])
  {
    var c1 := PressNext(Cursor(i, []), len);
    assert RunClamped(Cursor(i, []), len, [Next, Timer]) == RunClamped(c1, len, [Timer]);
    if i < len - 1 {
      assert RunClamped(c1, len, [Timer]) == RunClamped(FireClamped(c1, len), len, []);
    }
  }
}
