/** The client-side walk of one unit toward a target: one `Update` per frame
    moves the unit a fixed speed toward the next waypoint the pathfinder
    offers, and stops it once it is within the required distance. */
module UnitMovement {
  import opened Wrappers
  import opened Geometry
  import PathfindingManager

  /** Speed a new movement starts with, in tiles per second. */
  const DefaultSpeed: real := 2.0

  /** One tracked movement. `hasCallback` says whether an arrival listener
      (`OnReachedTarget`) is attached. */
  datatype Movement = Movement(
    unitId: int,
    currentPos: Vec2,
    targetPos: Vec2,
    requiredDistance: real,
    speed: real,
    isActive: bool,
    hasCallback: bool)

  /** What one frame produced: the updated movement, the value `Update`
      returns, and the unit id handed to the arrival listener, if it ran. */
  datatype Tick = Tick(next: Movement, arrived: bool, notified: Option<int>)

  /** The constructor: active, at the start position, default speed, no
      listener yet. */
  function NewMovement(unitId: int, start: Vec2, target: Vec2, requiredDist: real): (m: Movement)
    ensures m.unitId == unitId && m.currentPos == start && m.targetPos == target
    ensures m.requiredDistance == requiredDist
    ensures m.speed == DefaultSpeed && m.isActive && !m.hasCallback
  {
    Movement(unitId, start, target, requiredDist, DefaultSpeed, true, false)
  }

  /** `Cancel`: the movement stops where it is; `Run` shows that it then never
      moves or reports arrival again. */
  function Cancel(m: Movement): (r: Movement)
    ensures !r.isActive
    ensures r.(isActive := m.isActive) == m
  {
    m.(isActive := false)
  }

  /** The point a frame heads for: the pathfinder's next waypoint, or the
      target itself when there is no pathfinder, no path, or the waypoint is
      where the unit already stands. */
  function Waypoint(m: Movement, pf: Option<PathfindingManager.Pathfinder>): (w: Vec2)
    ensures pf.None? ==> w == m.targetPos
    ensures w == m.currentPos ==> w == m.targetPos
    ensures pf.Some? && w != m.targetPos ==>
      PathfindingManager.GetNextWaypoint(pf.value.grid, m.currentPos, m.targetPos, pf.value.oracle) == Some(w)
    ensures pf.Some? ==>
      var next := PathfindingManager.GetNextWaypoint(pf.value.grid, m.currentPos, m.targetPos, pf.value.oracle);
      next.Some? && next.value != m.currentPos ==> w == next.value
  {
    var next :=
      if pf.Some? then PathfindingManager.GetNextWaypoint(pf.value.grid, m.currentPos, m.targetPos, pf.value.oracle)
      else None;
    if next.None? || next.value == m.currentPos then m.targetPos else next.value
  }

  /** One step of at most `md` from `cur` toward `w`; a step that would reach
      or pass `w` stops on it. */
  function Step(cur: Vec2, w: Vec2, md: real, sqrt: real -> real): (p: Vec2)
    ensures md >= Distance(cur, w, sqrt) ==> p == w
  {
    var direction := Normalized(Sub(w, cur), sqrt);
    if md >= Distance(cur, w, sqrt) then w else Add(cur, Scale(direction, md))
  }

  /** `Update`: an inactive movement does nothing; one already within range
      stops, reports arrival and calls its listener; any other moves one step
      toward its waypoint. Nothing but the position and the active flag ever
      changes. */
  function Update(m: Movement, delta: real, pf: Option<PathfindingManager.Pathfinder>, sqrt: real -> real): (t: Tick)
    ensures !m.isActive ==> t == Tick(m, false, None)
    ensures t.next.(currentPos := m.currentPos, isActive := m.isActive) == m
    ensures t.arrived <==> m.isActive && Distance(m.currentPos, m.targetPos, sqrt) <= m.requiredDistance
    ensures t.arrived ==> !t.next.isActive && t.next.currentPos == m.currentPos
    ensures t.notified.Some? <==> t.arrived && m.hasCallback
    ensures t.notified.Some? ==> t.notified.value == m.unitId
    ensures m.isActive && !t.arrived ==>
      t.next.isActive && t.next.currentPos == Step(m.currentPos, Waypoint(m, pf), m.speed * delta, sqrt)
  {
    if !m.isActive then Tick(m, false, None)
    else if Distance(m.currentPos, m.targetPos, sqrt) <= m.requiredDistance then
      Tick(m.(isActive := false), true, if m.hasCallback then Some(m.unitId) else None)
    else
      var w := Waypoint(m, pf);
      Tick(m.(currentPos := Step(m.currentPos, w, m.speed * delta, sqrt)), false, None)
  }

  /** What the owner of a movement does to it: run one frame, or cancel it. */
  datatype Action = Frame(delta: real) | CancelIt

  /** The outcome of a run of actions: the final movement and how many times
      the arrival listener was called. */
  datatype Trace = Trace(final: Movement, notifications: nat)

  /** Applies the actions one after another. The listener is called at most
      once, only by a movement that has then stopped, and an inactive
      movement is never changed by anything but a further cancel, which
      leaves it as it is. */
  function Run(m: Movement, actions: seq<Action>, pf: Option<PathfindingManager.Pathfinder>, sqrt: real -> real): (r: Trace)
    ensures !m.isActive ==> r == Trace(m, 0)
    ensures r.notifications <= 1
    ensures r.notifications == 1 ==> m.hasCallback && !r.final.isActive
    ensures r.final.(currentPos := m.currentPos, isActive := m.isActive) == m
    decreases |actions|
  {
    if |actions| == 0 then Trace(m, 0)
    else
      match actions[0]
      case CancelIt => Run(Cancel(m), actions[1..], pf, sqrt)
      case Frame(delta) =>
        var t := Update(m, delta, pf, sqrt);
        var rest := Run(t.next, actions[1..], pf, sqrt);
        Trace(rest.final, rest.notifications + if t.notified.Some? then 1 else 0)
  }

  /** A square root that is exact on the non-negative reals. */
  ghost predicate ExactSqrt(sqrt: real -> real) {
    forall x :: x >= 0.0 ==> sqrt(x) >= 0.0 && sqrt(x) * sqrt(x) == x
  }

  /** The points of the segment from `a` to `b`. */
  ghost predicate OnSegment(p: Vec2, a: Vec2, b: Vec2) {
    exists t :: 0.0 <= t <= 1.0 && p == Add(a, Scale(Sub(b, a), t))
  }

  /** An exact square root gives back any non-negative number from its
      square. */
  lemma SqrtOfSquare(sqrt: real -> real, y: real, x: real)
    requires ExactSqrt(sqrt)
    requires y >= 0.0 && x == y * y
    ensures sqrt(x) == y
  {
    SquareNonNegative(y);
    var s := sqrt(x);
    assert s >= 0.0 && s * s == y * y;
    if s < y {
      SquareMonotone(s, y);
    } else if y < s {
      SquareMonotone(y, s);
    }
  }

  /** A ratio of a non-negative number to a larger one lies in [0, 1). */
  lemma RatioBelowOne(md: real, len: real)
    requires 0.0 <= md < len
    ensures 0.0 <= md / len < 1.0
    ensures (md / len) * len == md
  {
    var t := md / len;
    if t < 0.0 {
      ProductPositive(-t, len);
    }
    if t >= 1.0 {
      if t > 1.0 {
        ProductPositive(t - 1.0, len);
      }
      assert t * len - len == (t - 1.0) * len;
    }
  }

  /** The arithmetic of a step that stops short: a step of `md` along the
      direction of `w - cur`, whose length is `len`, lands on the segment at
      squared distance `md * md` from `cur` and `(len - md)` squared from `w`. */
  lemma ShortStepAlgebra(cur: Vec2, w: Vec2, len: real, md: real)
    requires 0.0 <= md < len
    requires len * len == DistSq(cur, w)
    ensures var p := Add(cur, Scale(Vec2((w.x - cur.x) / len, (w.y - cur.y) / len), md));
      && OnSegment(p, cur, w)
      && DistSq(cur, p) == md * md
      && DistSq(p, w) == (len - md) * (len - md)
  {
    var v := Sub(w, cur);
    var p := Add(cur, Scale(Vec2(v.x / len, v.y / len), md));
    var t := md / len;
    RatioBelowOne(md, len);
    DivideThenScale(v, len, md);
    assert p == Add(cur, Scale(v, t));
    assert Sub(p, cur) == Scale(v, t);
    assert Sub(w, p) == Scale(v, 1.0 - t);
    ScaledLength(v, t, len);
    ScaledLength(v, 1.0 - t, len);
    assert (1.0 - t) * len == len - md;
  }

  /** A step that stops short of the waypoint moves along the unit direction
      toward it, the length of `w - cur` being the distance itself. */
  lemma ShortStepDirection(cur: Vec2, w: Vec2, md: real, sqrt: real -> real)
    requires ExactSqrt(sqrt)
    requires 0.0 <= md < Distance(cur, w, sqrt)
    ensures var len := Distance(cur, w, sqrt);
      && len * len == DistSq(cur, w)
      && Step(cur, w, md, sqrt) == Add(cur, Scale(Vec2((w.x - cur.x) / len, (w.y - cur.y) / len), md))
  {
    var lsq := DistSq(cur, w);
    var len := sqrt(lsq);
    assert len * len == lsq;
    assert lsq != 0.0 by {
      SquarePositive(len);
      calc {
        lsq;
        len * len;
      >
        0.0;
      }
    }
    assert LengthSq(Sub(w, cur)) == lsq;
  }

  /** A step that stops short covers exactly `md` and leaves exactly the rest
      of the distance to go. */
  lemma ShortStepDistances(cur: Vec2, w: Vec2, md: real, sqrt: real -> real)
    requires ExactSqrt(sqrt)
    requires 0.0 <= md < Distance(cur, w, sqrt)
    ensures OnSegment(Step(cur, w, md, sqrt), cur, w)
    ensures Distance(cur, Step(cur, w, md, sqrt), sqrt) == md
    ensures Distance(Step(cur, w, md, sqrt), w, sqrt) == Distance(cur, w, sqrt) - md
  {
    var len := Distance(cur, w, sqrt);
    var p := Step(cur, w, md, sqrt);
    ShortStepDirection(cur, w, md, sqrt);
    ShortStepAlgebra(cur, w, len, md);
    SqrtOfSquare(sqrt, md, DistSq(cur, p));
    SqrtOfSquare(sqrt, len - md, DistSq(p, w));
  }

  /** With an exact square root, a step that does not reach the waypoint
      covers exactly `md` and leaves exactly the rest of the distance still to
      go; every step with a non-negative `md` stays on the segment from the
      current position to the waypoint, so it never overshoots. */
  lemma StepAdvancesExactly(cur: Vec2, w: Vec2, md: real, sqrt: real -> real)
    requires ExactSqrt(sqrt)
    requires md >= 0.0
    ensures OnSegment(Step(cur, w, md, sqrt), cur, w)
    ensures md < Distance(cur, w, sqrt) ==>
      Distance(cur, Step(cur, w, md, sqrt), sqrt) == md
      && Distance(Step(cur, w, md, sqrt), w, sqrt) == Distance(cur, w, sqrt) - md
  {
    if md >= Distance(cur, w, sqrt) {
      assert Step(cur, w, md, sqrt) == Add(cur, Scale(Sub(w, cur), 1.0));
    } else {
      ShortStepDistances(cur, w, md, sqrt);
    }
  }
}
