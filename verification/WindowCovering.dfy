/** The simulated motor of the window covering test device (TestWindowCoveringServer.ts): lift and tilt each move to
    a target in six ticks of a timer. Positions are in hundredths of a percent. */
module WindowCovering {
  import opened Options

  datatype MovementType = Lift | Tilt
  datatype Direction = Open | Close | DefinedByPosition

  datatype MoveData = MoveData(running: bool, increment: int, target: int, counter: nat)

  /** One axis: its position, null until it is known, and its last movement while it is not complete. */
  datatype Axis = Axis(position: Option<int>, move: Option<MoveData>)

  datatype State = State(lift: Axis, tilt: Axis)

  const TICKS := 6
  const CLOSED := 10000

  /** A sixth, rounded toward zero. */
  function Sixth(distance: int): int {
    if distance < 0 then -((-distance) / TICKS) else distance / TICKS
  }

  function Target(direction: Direction, target: Option<int>): int {
    if target.Some? then target.value else if direction == Open then 0 else CLOSED
  }

  function Start(a: Axis, target: int): Axis {
    if a.position.None? || Sixth(target - a.position.value) == 0 then a
    else a.(move := Some(MoveData(true, Sixth(target - a.position.value), target, 0)))
  }

  function Tick(a: Axis): Axis {
    if a.move.None? || !a.move.value.running then a
    else
      var m := a.move.value.(counter := a.move.value.counter + 1);
      if m.counter >= TICKS then
        if a.position.None? then a.(move := Some(m.(running := false))) else Axis(Some(m.target), None)
      else if a.position.None? then a.(move := Some(m))
      else Axis(Some(a.position.value + m.increment), Some(m))
  }

  function Stop(a: Axis): Axis {
    if a.move.None? then a else a.(move := Some(a.move.value.(running := false)))
  }

  datatype Event =
    | Move(kind: MovementType, direction: Direction, target: Option<int>)
    | TimerTick(kind: MovementType)
    | StopAll

  function Step(s: State, e: Event): State {
    match e
    case Move(Lift, direction, target) => s.(lift := Start(s.lift, Target(direction, target)))
    case Move(Tilt, direction, target) => s.(tilt := Start(s.tilt, Target(direction, target)))
    case TimerTick(Lift) => s.(lift := Tick(s.lift))
    case TimerTick(Tilt) => s.(tilt := Tick(s.tilt))
    case StopAll => State(Stop(s.lift), Stop(s.tilt))
  }

  function Run(s: State, events: seq<Event>): State
    decreases events
  {
    if events == [] then s else Run(Step(s, events[0]), events[1..])
  }

  // ---- The server ----

  class TestWindowCoveringServer {
    var liftPosition: Option<int>
    var tiltPosition: Option<int>
    var liftMove: Option<MoveData>
    var tiltMove: Option<MoveData>

    function View(): State
      reads this
    {
      State(Axis(liftPosition, liftMove), Axis(tiltPosition, tiltMove))
    }

    /** Known positions are in range, and a movement would, with the ticks it has left, not pass its target. */
    predicate Valid()
      reads this
    {
      Inv(View())
    }

    constructor (lift: Option<int>, tilt: Option<int>)
      ensures View() == State(Axis(lift, None), Axis(tilt, None))
      ensures Valid() <==> (lift.Some? ==> InRange(lift.value)) && (tilt.Some? ==> InRange(tilt.value))
    {
      liftPosition, tiltPosition, liftMove, tiltMove := lift, tilt, None, None;
    }

    method HandleMovement(kind: MovementType, direction: Direction, target: Option<int>)
      modifies this`liftMove, this`tiltMove
      ensures View() == Step(old(View()), Move(kind, direction, target))
    {
      var goal;
      if target.None? {
        goal := if direction == Open then 0 else CLOSED;
      } else {
        goal := target.value;
      }
      var current := if kind == Lift then liftPosition else tiltPosition;
      if current.None? {
        return;
      }
      var distance := goal - current.value;
      var increment := if goal < current.value then -((-distance) / 6) else distance / 6;
      if increment == 0 {
        return;
      }
      var move := MoveData(true, increment, goal, 0);
      if kind == Lift {
        liftMove := Some(move);
      } else {
        tiltMove := Some(move);
      }
    }

    /** Called by the timer of the axis, so only while it runs. */
    method HandleMovementTick(kind: MovementType)
      modifies this
      ensures View() == Step(old(View()), TimerTick(kind))
    {
      var moveData := if kind == Lift then liftMove else tiltMove;
      if moveData.None? || !moveData.value.running {
        return;
      }
      var move := moveData.value.(counter := moveData.value.counter + 1);
      if move.counter >= 6 {
        move := move.(running := false);
        if kind == Lift {
          liftMove := Some(move);
          if liftPosition.None? {
            return;
          }
          liftPosition := Some(move.target);
          liftMove := None;
        } else {
          tiltMove := Some(move);
          if tiltPosition.None? {
            return;
          }
          tiltPosition := Some(move.target);
          tiltMove := None;
        }
      } else {
        if kind == Lift {
          liftMove := Some(move);
          if liftPosition.Some? {
            liftPosition := Some(liftPosition.value + move.increment);
          }
        } else {
          tiltMove := Some(move);
          if tiltPosition.Some? {
            tiltPosition := Some(tiltPosition.value + move.increment);
          }
        }
      }
    }

    /** From here no number of ticks moves an axis: it takes a new movement. */
    method HandleStopMovement()
      modifies this`liftMove, this`tiltMove
      ensures View() == Step(old(View()), StopAll)
      ensures forall n: nat :: Ticks(View().lift, n).position == liftPosition && Ticks(View().tilt, n).position == tiltPosition
    {
      RestingAxesStay(Step(View(), StopAll));
      if liftMove.Some? {
        liftMove := Some(liftMove.value.(running := false));
      }
      if tiltMove.Some? {
        tiltMove := Some(tiltMove.value.(running := false));
      }
    }

    method Perform(e: Event)
      modifies this
      ensures View() == Step(old(View()), e)
      ensures old(Valid()) && (e.Move? && e.target.Some? ==> InRange(e.target.value)) ==> Valid()
    {
      if Valid() && (e.Move? && e.target.Some? ==> InRange(e.target.value)) {
        StepKeepsInv(View(), e);
      }
      match e {
        case Move(kind, direction, target) => HandleMovement(kind, direction, target);
        case TimerTick(kind) => HandleMovementTick(kind);
        case StopAll => HandleStopMovement();
      }
    }

    /** Whatever is asked of it, the server runs the machine and its positions stay in range. */
    method PerformAll(events: seq<Event>)
      requires Valid() && TargetsInRange(events)
      modifies this
      ensures Valid() && View() == Run(old(View()), events)
      ensures liftPosition.Some? ==> 0 <= liftPosition.value <= 10000
      ensures tiltPosition.Some? ==> 0 <= tiltPosition.value <= 10000
    {
      ghost var start := View();
      for i := 0 to |events|
        invariant Valid() && Run(View(), events[i..]) == Run(start, events)
      {
        assert events[i..][0] == events[i] && events[i..][1..] == events[i + 1..];
        Perform(events[i]);
      }
      assert events[|events|..] == [];
    }
  }

  // ---- One movement ----

  function Ticks(a: Axis, n: nat): Axis {
    if n == 0 then a else Tick(Ticks(a, n - 1))
  }

  predicate InRange(p: int) {
    0 <= p <= CLOSED
  }

  lemma SixthIsTruncated(distance: int)
    ensures distance >= 0 ==> distance - 6 < 6 * Sixth(distance) <= distance && 0 <= Sixth(distance)
    ensures distance <= 0 ==> distance <= 6 * Sixth(distance) < distance + 6 && Sixth(distance) <= 0
    ensures Sixth(distance) == 0 <==> -6 < distance < 6
  {}

  /** The first five ticks go along the line from the start; the sixth lands on the target. */
  lemma {:induction false} TicksFollowTheLine(a: Axis, target: int, n: nat)
    requires a.position.Some? && n <= TICKS
    requires Sixth(target - a.position.value) != 0
    ensures
      var start, increment := a.position.value, Sixth(target - a.position.value);
      var b := Ticks(Start(a, target), n);
      if n < TICKS then b == Axis(Some(start + n * increment), Some(MoveData(true, increment, target, n)))
      else b == Axis(Some(target), None)
  {
    if n > 0 {
      TicksFollowTheLine(a, target, n - 1);
    }
  }

  predicate Between(a: int, x: int, b: int) {
    a <= x <= b || b <= x <= a
  }

  lemma FractionIsBetween(start: int, target: int, m: nat, n: nat)
    requires m <= n <= TICKS
    ensures
      var increment := Sixth(target - start);
      Between(start, start + m * increment, start + n * increment) && Between(start, start + n * increment, target)
  {
    var distance := target - start;
    var increment := Sixth(distance);
    SixthIsTruncated(distance);
    assert increment >= 0 ==> 0 <= m * increment <= n * increment <= TICKS * increment;
    assert increment <= 0 ==> 0 >= m * increment >= n * increment >= TICKS * increment;
  }

  /** The position moves monotonically and never passes the target. */
  lemma MovementIsMonotone(a: Axis, target: int, m: nat, n: nat)
    requires a.position.Some? && m <= n <= TICKS && Sixth(target - a.position.value) != 0
    ensures
      var x, y := Ticks(Start(a, target), m).position, Ticks(Start(a, target), n).position;
      x.Some? && y.Some? && Between(a.position.value, x.value, y.value) && Between(a.position.value, y.value, target)
  {
    TicksFollowTheLine(a, target, m);
    TicksFollowTheLine(a, target, n);
    FractionIsBetween(a.position.value, target, m, n);
    FractionIsBetween(a.position.value, target, m, TICKS);
  }

  /** An axis whose last movement is complete or has been stopped. */
  predicate Resting(a: Axis) {
    a.move.None? || !a.move.value.running
  }

  lemma {:induction false} RestingStays(a: Axis, n: nat)
    requires Resting(a)
    ensures Ticks(a, n) == a
  {
    if n > 0 {
      RestingStays(a, n - 1);
    }
  }

  lemma RestingAxesStay(s: State)
    requires Resting(s.lift) && Resting(s.tilt)
    ensures forall n: nat :: Ticks(s.lift, n) == s.lift && Ticks(s.tilt, n) == s.tilt
  {
    forall n: nat ensures Ticks(s.lift, n) == s.lift && Ticks(s.tilt, n) == s.tilt {
      RestingStays(s.lift, n);
      RestingStays(s.tilt, n);
    }
  }

  /** From rest, six ticks reach the target exactly when it is at least six hundredths away, or already there:
      a shorter movement is not started. */
  lemma ReachesTargetIff(a: Axis, target: int)
    requires a.position.Some? && Resting(a)
    ensures Ticks(Start(a, target), TICKS).position == Some(target) <==>
              !(-TICKS < target - a.position.value < TICKS) || target == a.position.value
  {
    SixthIsTruncated(target - a.position.value);
    if Sixth(target - a.position.value) != 0 {
      TicksFollowTheLine(a, target, TICKS);
    } else {
      RestingStays(a, TICKS);
    }
  }

  /** Where a command takes an axis at rest, six ticks later: to 0 when it opens and to 10000 otherwise, unless it names
      a target; and nowhere when that is nearer than six hundredths, or the position is not known. */
  lemma CommandsEnd(s: State, kind: MovementType, direction: Direction, target: Option<int>)
    requires Resting(AxisOf(s, kind))
    ensures
      var a := AxisOf(s, kind);
      var goal := if target.Some? then target.value else if direction.Open? then 0 else 10000;
      var b := Ticks(AxisOf(Step(s, Move(kind, direction, target)), kind), 6);
      if a.position.Some? && !(-6 < goal - a.position.value < 6) then b == Axis(Some(goal), None) else b == a
  {
    var a := AxisOf(s, kind);
    if a.position.Some? {
      var goal := if target.Some? then target.value else if direction.Open? then 0 else 10000;
      SixthIsTruncated(goal - a.position.value);
      if Sixth(goal - a.position.value) != 0 {
        TicksFollowTheLine(a, goal, 6);
      } else {
        RestingStays(a, 6);
      }
    } else {
      RestingStays(a, 6);
    }
  }

  lemma {:induction false} TicksAdd(a: Axis, m: nat, n: nat)
    ensures Ticks(a, m + n) == Ticks(Ticks(a, m), n)
  {
    if n > 0 {
      TicksAdd(a, m, n - 1);
    }
  }

  /** A target given in mid-movement is where the axis ends, six ticks later, unless it is nearer than six hundredths
      to where the axis is: then the axis ends at the old target. */
  lemma RetargetEnds(a: Axis, target: int)
    requires AxisInv(a) && a.move.Some? && a.move.value.running
    ensures Ticks(Start(a, target), TICKS)
         == Axis(Some(if -TICKS < target - a.position.value < TICKS then a.move.value.target else target), None)
  {
    SixthIsTruncated(target - a.position.value);
    if Sixth(target - a.position.value) != 0 {
      TicksFollowTheLine(a, target, TICKS);
    } else {
      var left := TICKS - a.move.value.counter;
      RemainingTicks(a, left);
      RestingStays(Ticks(a, left), TICKS - left);
      TicksAdd(a, left, TICKS - left);
    }
  }

  // ---- Whole runs ----

  /** A movement in progress would, with the ticks it has left, still not pass its target. */
  predicate AxisInv(a: Axis) {
    && (a.position.None? ==> a.move.None?)
    && (a.position.Some? ==> InRange(a.position.value))
    && (a.move.Some? ==>
          var m := a.move.value;
          var last := a.position.value + (TICKS - m.counter) * m.increment;
          && m.counter < TICKS && InRange(m.target)
          && (m.increment > 0 ==> last <= m.target) && (m.increment < 0 ==> last >= m.target) && m.increment != 0)
  }

  predicate Inv(s: State) {
    AxisInv(s.lift) && AxisInv(s.tilt)
  }

  predicate TargetsInRange(events: seq<Event>) {
    forall i | 0 <= i < |events| && events[i].Move? && events[i].target.Some? :: InRange(events[i].target.value)
  }

  lemma StartKeepsInv(a: Axis, target: int)
    requires AxisInv(a) && InRange(target)
    ensures AxisInv(Start(a, target))
  {
    if a.position.Some? {
      SixthIsTruncated(target - a.position.value);
    }
  }

  lemma TickKeepsInv(a: Axis)
    requires AxisInv(a)
    ensures AxisInv(Tick(a))
  {
    if a.move.Some? && a.move.value.running {
      var m := a.move.value;
      var left := TICKS - m.counter - 1;
      assert (TICKS - m.counter) * m.increment == m.increment + left * m.increment;
      assert m.increment > 0 ==> left * m.increment >= 0;
      assert m.increment < 0 ==> left * m.increment <= 0;
    }
  }

  lemma StepKeepsInv(s: State, e: Event)
    requires Inv(s) && (e.Move? && e.target.Some? ==> InRange(e.target.value))
    ensures Inv(Step(s, e))
  {
    match e
    case Move(_, direction, target) =>
      StartKeepsInv(s.lift, Target(direction, target));
      StartKeepsInv(s.tilt, Target(direction, target));
    case TimerTick(_) =>
      TickKeepsInv(s.lift);
      TickKeepsInv(s.tilt);
    case StopAll =>
  }

  lemma {:induction false} RunKeepsInv(s: State, events: seq<Event>)
    requires Inv(s) && TargetsInRange(events)
    ensures Inv(Run(s, events))
    decreases events
  {
    if events != [] {
      StepKeepsInv(s, events[0]);
      RunKeepsInv(Step(s, events[0]), events[1..]);
    }
  }

  /** In every run of movements, ticks and stops with targets in range, both positions stay in range. */
  lemma PositionsStayInRange(lift: int, tilt: int, events: seq<Event>)
    requires InRange(lift) && InRange(tilt) && TargetsInRange(events)
    ensures
      var s := Run(State(Axis(Some(lift), None), Axis(Some(tilt), None)), events);
      (s.lift.position.Some? ==> InRange(s.lift.position.value))
      && (s.tilt.position.Some? ==> InRange(s.tilt.position.value))
  {
    RunKeepsInv(State(Axis(Some(lift), None), Axis(Some(tilt), None)), events);
  }

  lemma {:induction false} RemainingTicks(a: Axis, n: nat)
    requires AxisInv(a) && a.move.Some? && a.move.value.running && n <= TICKS - a.move.value.counter
    ensures
      var m := a.move.value;
      var b := Ticks(a, n);
      if m.counter + n < TICKS
      then b == Axis(Some(a.position.value + n * m.increment), Some(m.(counter := m.counter + n)))
      else b == Axis(Some(m.target), None)
  {
    if n > 0 {
      RemainingTicks(a, n - 1);
    }
  }

  /** Wherever a run has led, a running movement needs just the ticks it has left to end at its target. */
  lemma RunningMovementArrives(s: State, events: seq<Event>)
    requires Inv(s) && TargetsInRange(events)
    ensures
      var t := Run(s, events);
      && (t.lift.move.Some? && t.lift.move.value.running ==>
            t.lift.move.value.counter < TICKS
            && Ticks(t.lift, TICKS - t.lift.move.value.counter) == Axis(Some(t.lift.move.value.target), None))
      && (t.tilt.move.Some? && t.tilt.move.value.running ==>
            t.tilt.move.value.counter < TICKS
            && Ticks(t.tilt, TICKS - t.tilt.move.value.counter) == Axis(Some(t.tilt.move.value.target), None))
  {
    RunKeepsInv(s, events);
    var t := Run(s, events);
    if t.lift.move.Some? && t.lift.move.value.running {
      RemainingTicks(t.lift, TICKS - t.lift.move.value.counter);
    }
    if t.tilt.move.Some? && t.tilt.move.value.running {
      RemainingTicks(t.tilt, TICKS - t.tilt.move.value.counter);
    }
  }

  /** A stopped axis stays where it is until it is given a movement that is not too short. */
  lemma StoppedAxisStays(a: Axis, n: nat)
    ensures Ticks(Stop(a), n) == Stop(a)
  {
    RestingStays(Stop(a), n);
  }

  predicate Concerns(e: Event, kind: MovementType) {
    match e
    case Move(k, _, _) => k == kind
    case TimerTick(k) => k == kind
    case StopAll => true
  }

  function Only(events: seq<Event>, kind: MovementType): seq<Event>
    decreases events
  {
    if events == [] then []
    else (if Concerns(events[0], kind) then [events[0]] else []) + Only(events[1..], kind)
  }

  function AxisOf(s: State, kind: MovementType): Axis {
    if kind == Lift then s.lift else s.tilt
  }

  /** Lift and tilt do not influence each other: the events of the other axis, and its state, can be left out. */
  lemma {:induction false} AxesAreIndependent(s: State, t: State, events: seq<Event>, kind: MovementType)
    requires AxisOf(s, kind) == AxisOf(t, kind)
    ensures AxisOf(Run(s, events), kind) == AxisOf(Run(t, Only(events, kind)), kind)
    decreases events
  {
    if events != [] {
      var e, rest := events[0], Only(events[1..], kind);
      if Concerns(e, kind) {
        assert Only(events, kind) == [e] + rest && ([e] + rest)[1..] == rest;
        AxesAreIndependent(Step(s, e), Step(t, e), events[1..], kind);
      } else {
        assert Only(events, kind) == rest;
        AxesAreIndependent(Step(s, e), t, events[1..], kind);
      }
    }
  }

  lemma {:induction false} RunOfTicks(s: State, events: seq<Event>, kind: MovementType)
    requires forall e | e in events :: e == TimerTick(kind)
    ensures AxisOf(Run(s, events), kind) == Ticks(AxisOf(s, kind), |events|)
    decreases |events|
  {
    if events != [] {
      var init, last := events[..|events| - 1], events[|events| - 1];
      assert forall e | e in init :: e in events;
      RunOfTicks(s, init, kind);
      RunLast(s, init, last);
      assert events == init + [last] && last in events;
    }
  }

  lemma {:induction false} RunLast(s: State, init: seq<Event>, last: Event)
    ensures Run(s, init + [last]) == Step(Run(s, init), last)
    decreases init
  {
    if init == [] {
      assert [] + [last] == [last] && [last][1..] == [];
    } else {
      assert (init + [last])[1..] == init[1..] + [last];
      RunLast(Step(s, init[0]), init[1..], last);
    }
  }

  /** A command arrives: after it, whatever the other axis is told meanwhile, six ticks of the timer bring the axis to the
      target, 0 for opening and 10000 for closing if there is none. */
  lemma CommandArrives(s: State, kind: MovementType, direction: Direction, target: Option<int>, events: seq<Event>)
    requires Resting(AxisOf(s, kind)) && AxisOf(s, kind).position.Some?
    requires |Only(events, kind)| == 6 && forall e | e in Only(events, kind) :: e == TimerTick(kind)
    ensures
      var goal := if target.Some? then target.value else if direction.Open? then 0 else 10000;
      var t := Run(Step(s, Move(kind, direction, target)), events);
      if -6 < goal - AxisOf(s, kind).position.value < 6 then AxisOf(t, kind) == AxisOf(s, kind)
      else AxisOf(t, kind) == Axis(Some(goal), None)
  {
    var moving := Step(s, Move(kind, direction, target));
    AxesAreIndependent(moving, moving, events, kind);
    RunOfTicks(moving, Only(events, kind), kind);
    CommandsEnd(s, kind, direction, target);
  }

  /** An axis whose position is unknown is not started; if it ran, its timer would be stopped at the sixth tick. */
  lemma UnknownPosition(a: Axis, target: int)
    requires a.position.None?
    ensures Start(a, target) == a && Ticks(a, 1).position.None?
    ensures a.move.Some? && a.move.value.running ==>
              var m := a.move.value.(counter := a.move.value.counter + 1);
              Tick(a) == Axis(None, Some(m.(running := m.counter < 6)))
  {
    assert Ticks(a, 1) == Tick(Ticks(a, 0));
  }
}
