/** The jerk-limited velocity tracker: its sub-step over exact reals and the loop that runs it. */
module Motion {
  datatype Profile = Profile(velocity: real, acceleration: real)

  const AT_REST := Profile(0.0, 0.0)

  /** What is needed of the library square root. */
  ghost predicate IsSqrt(root: real -> real) {
    forall x :: x >= 0.0 ==> root(x) >= 0.0 && root(x) * root(x) == x
  }

  function Abs(x: real): real { if x < 0.0 then -x else x }

  function Min(x: real, y: real): real { if x < y then x else y }

  function Max(x: real, y: real): real { if x < y then y else x }

  function Times(x: real, y: real): real { x * y }

  function Clamp(x: real, limit: real): real { Max(-limit, Min(limit, x)) }

  /** How much acceleration a velocity error of this size asks for. */
  function Size(root: real -> real, size: real, accelLimit: real, jerkLimit: real): real {
    Min(accelLimit, Min(6.0 * size, root(jerkLimit * size)))
  }

  function Desired(root: real -> real, error: real, accelLimit: real, jerkLimit: real): real {
    var size := Size(root, Abs(error), accelLimit, jerkLimit);
    if error >= 0.0 then size else -size
  }

  /** The velocity gained in `h` seconds while the acceleration moves evenly from `a` to `b`. */
  function Gain(a: real, b: real, h: real): real {
    Half(a + b, h)
  }

  function Half(sum: real, h: real): real {
    sum * 0.5 * h
  }

  function Substep(root: real -> real, p: Profile, target: real, accelLimit: real, jerkLimit: real, h: real): Profile {
    var desired := Desired(root, target - p.velocity, accelLimit, jerkLimit);
    var acceleration := p.acceleration + Clamp(desired - p.acceleration, jerkLimit * h);
    Profile(p.velocity + Gain(p.acceleration, acceleration, h), acceleration)
  }

  function Iterate(root: real -> real, p: Profile, target: real, accelLimit: real, jerkLimit: real,
                   h: real, n: nat): Profile {
    if n == 0 then p
    else Substep(root, Iterate(root, p, target, accelLimit, jerkLimit, h, n - 1), target, accelLimit, jerkLimit, h)
  }

  const SUBSTEP := 0.005
  const MAX_DT := 0.1

  function Ceil(x: real): int { -((-x).Floor) }

  /** How many equal sub-steps a call takes, each of at most SUBSTEP seconds. */
  function Steps(dt: real): (n: nat)
    requires dt > 0.0
    ensures n > 0 && n as real * SUBSTEP >= dt
  {
    Ceil(dt / SUBSTEP)
  }

  predicate Accepts(p: Profile, accelLimit: real, jerkLimit: real, dt: real) {
    accelLimit > 0.0 && jerkLimit > 0.0 && 0.0 < dt <= MAX_DT && Abs(p.acceleration) <= accelLimit + 0.000000001
  }

  function Stepped(root: real -> real, p: Profile, target: real, accelLimit: real, jerkLimit: real, dt: real): Profile {
    if Accepts(p, accelLimit, jerkLimit, dt) then
      Iterate(root, p, target, accelLimit, jerkLimit, dt / (Steps(dt) as real), Steps(dt))
    else p
  }

  /** The body of the integration loop. */
  method Advance(root: real -> real, p: Profile, target: real, accelLimit: real, jerkLimit: real, h: real)
    returns (q: Profile)
    ensures q == Substep(root, p, target, accelLimit, jerkLimit, h)
  {
    hide Desired, Clamp, Gain;
    q := p;
    var desired := Desired(root, target - q.velocity, accelLimit, jerkLimit);
    var oldAccel := q.acceleration;
    q := q.(acceleration := oldAccel + Clamp(desired - oldAccel, jerkLimit * h));
    q := q.(velocity := q.velocity + Gain(oldAccel, q.acceleration, h));
  }

  /** The in-out profile of a call is its argument and its result. A rejected call leaves it alone. */
  method MotionProfileStep(root: real -> real, p: Profile, target: real, accelLimit: real, jerkLimit: real, dt: real)
    returns (ok: bool, q: Profile)
    ensures ok == Accepts(p, accelLimit, jerkLimit, dt)
    ensures q == Stepped(root, p, target, accelLimit, jerkLimit, dt)
  {
    hide Substep, Steps;
    q := p;
    ok := Accepts(p, accelLimit, jerkLimit, dt);
    if !ok {
      return;
    }
    var steps := Steps(dt);
    var h := dt / (steps as real);
    for i := 0 to steps
      invariant q == Iterate(root, p, target, accelLimit, jerkLimit, h, i)
    {
      q := Advance(root, q, target, accelLimit, jerkLimit, h);
    }
  }
}

/** The envelope that keeps the tracker from overshooting: with `room` left to a velocity bound
  * and jerk limit `j`, the acceleration can still be taken to zero before the room is used up. */
module Envelope {
  import opened Motion

  ghost predicate Safe(room: real, a: real, j: real) {
    && room >= 0.0
    && (a <= j / 7.0 ==> a <= 7.0 * room)
    && (a > j / 7.0 ==> a * a + j * j / 49.0 <= 2.0 * j * room)
  }

  lemma ProductBound(x: real, y: real, a: real, b: real)
    requires x >= a >= 0.0 && y >= b >= 0.0
    ensures x * y >= a * b
  {
    assert (x - a) * y >= 0.0;
    assert a * (y - b) >= 0.0;
  }

  lemma ScaleOrder(j: real, x: real, y: real)
    requires j > 0.0
    ensures x <= y <==> j * x <= j * y
  {
    if x > y {
      assert j * (x - y) > 0.0;
    } else {
      assert j * (y - x) >= 0.0;
    }
  }

  /** In every case the room is at least a seventh of the acceleration. */
  lemma SafeLinear(room: real, a: real, j: real)
    requires j > 0.0 && Safe(room, a, j)
    ensures a <= 7.0 * room
  {
    if a > j / 7.0 {
      SquareBound(room, a, j);
    }
  }

  lemma SquareBound(room: real, a: real, j: real)
    requires j > 0.0 && a * a + j * j / 49.0 <= 2.0 * j * room
    ensures a <= 7.0 * room && room >= 0.0
  {
    var d := a - j / 7.0;
    assert d * d >= 0.0;
    assert d * d == a * a - 2.0 * a * j / 7.0 + j * j / 49.0;
    assert a * a >= 0.0 && j * j >= 0.0;
    ScaleOrder(j, 0.0, room);
    ScaleOrder(j, a / 7.0, room);
  }

  /** Acceleration is being reduced as fast as the jerk limit allows. */
  lemma BrakeKeepsSafe(room: real, a: real, a': real, j: real, h: real)
    requires j > 0.0 && 0.0 < h <= SUBSTEP && Safe(room, a, j) && a' == a - j * h
    ensures Safe(room - Gain(a, a', h), a', j)
  {
    if a > j / 7.0 {
      BrakeSquare(room, a, a', j, h);
      SquareBound(room - Gain(a, a', h), a', j);
    } else {
      BrakeLinear(room, a, a', j, h);
    }
  }

  lemma BrakeSquare(room: real, a: real, a': real, j: real, h: real)
    requires a' == a - j * h && a * a + j * j / 49.0 <= 2.0 * j * room
    ensures a' * a' + j * j / 49.0 <= 2.0 * j * (room - Gain(a, a', h))
  {
    assert 2.0 * j * Gain(a, a', h) == (a + a') * (a - a');
    assert (a + a') * (a - a') == a * a - a' * a';
  }

  lemma BrakeLinear(room: real, a: real, a': real, j: real, h: real)
    requires j > 0.0 && 0.0 < h <= SUBSTEP && room >= 0.0 && a <= 7.0 * room && a <= j / 7.0 && a' == a - j * h
    ensures var room' := room - Gain(a, a', h);
            a' <= 7.0 * room' && room' >= 0.0
  {
    hide Half;
    assert j * h > 0.0;
    if a' < 0.0 {
      HalfSlow(a + a', h);
    } else {
      GainBraking(a, a', j, h);
    }
  }

  lemma GainBraking(a: real, a': real, j: real, h: real)
    requires j > 0.0 && 0.0 < h <= SUBSTEP && 0.0 <= a' <= a <= j / 7.0
    ensures Gain(a, a', h) <= j * h / 7.0
  {
    var sum := a + a';
    HalfProduct(sum, h);
    ProductBound(2.0 * j / 7.0, h, sum, h);
    assert 2.0 * j / 7.0 * h == 2.0 * (j * h / 7.0);
  }

  lemma HalfSlow(sum: real, h: real)
    requires 0.0 < h <= SUBSTEP
    ensures Half(sum, h) <= 0.0 || Half(sum, h) <= 0.0025 * sum
  {
    HalfProduct(sum, h);
    hide Half;
    if sum <= 0.0 {
      ProductBound(-sum, h, 0.0, 0.0);
    } else {
      ProductBound(sum, 0.005, sum, h);
      HalfOfBound(sum * h, sum);
    }
  }

  lemma HalfOfBound(product: real, sum: real)
    requires product <= sum * 0.005
    ensures 0.5 * product <= 0.0025 * sum
  {
  }

  lemma HalfProduct(sum: real, h: real)
    ensures Half(sum, h) == 0.5 * (sum * h)
  {
  }

  lemma FollowGently(room: real, a: real, a': real, h: real)
    requires 0.0 < h <= SUBSTEP && room >= 0.0 && a <= 7.0 * room && a' <= 6.0 * room
    ensures var room' := room - Gain(a, a', h);
            room' >= 0.0 && a' <= 7.0 * room'
  {
    hide Half;
    HalfSlow(a + a', h);
  }

  /** Acceleration follows a desired value that is small enough for the room. */
  lemma FollowKeepsSafe(room: real, a: real, a': real, j: real, h: real)
    requires j > 0.0 && 0.0 < h <= SUBSTEP && Safe(room, a, j)
    requires a' <= 6.0 * room && (a' > 0.0 ==> a' * a' <= j * room) && a - a' <= j * h
    ensures Safe(room - Gain(a, a', h), a', j)
  {
    hide Gain;
    SafeLinear(room, a, j);
    FollowGently(room, a, a', h);
    if a' > j / 7.0 {
      FollowFast(room, a, a', j, h);
    }
  }

  lemma FollowFast(room: real, a: real, a': real, j: real, h: real)
    requires j > 0.0 && 0.0 < h <= SUBSTEP && room >= 0.0
    requires j / 7.0 < a' <= 6.0 * room && a' * a' <= j * room && a - a' <= j * h
    ensures a' * a' + j * j / 49.0 <= 2.0 * j * (room - Gain(a, a', h))
  {
    hide Gain;
    GainFast(a, a', j, h);
    Margin(room, a', j);
    assert 2.0 * j * (room - Gain(a, a', h)) == 2.0 * (j * room) - 2.0 * (j * Gain(a, a', h));
  }

  lemma GainFast(a: real, a': real, j: real, h: real)
    requires j > 0.0 && 0.0 < h <= SUBSTEP && a' > 0.0 && a - a' <= j * h
    ensures 2.0 * (j * Gain(a, a', h)) <= 0.01 * (j * a') + 0.000025 * (j * j)
  {
    var most := 2.0 * a' + j * 0.005;
    var sum := a + a';
    ScaleOrder(j, h, 0.005);
    assert sum <= most && 0.0 < most;
    if sum <= 0.0 {
      ProductBound(-sum, h, 0.0, 0.0);
    } else {
      ProductBound(most, 0.005, sum, h);
    }
    assert sum * h <= most * 0.005;
    ScaleOrder(j, sum * h, most * 0.005);
    assert j * (most * 0.005) == 0.01 * (j * a') + 0.000025 * (j * j);
    HalfProduct(sum, h);
  }

  lemma Margin(room: real, a': real, j: real)
    requires j > 0.0 && j / 7.0 < a' <= 6.0 * room && a' * a' <= j * room
    ensures a' * a' + j * j / 49.0 + 0.01 * (j * a') + 0.000025 * (j * j) <= 2.0 * (j * room)
  {
    if a' >= j / 6.0 {
      MarginFast(room, a', j);
    } else {
      MarginSlow(room, a', j);
    }
  }

  lemma MarginFast(room: real, a': real, j: real)
    requires j > 0.0 && j / 6.0 <= a' && a' * a' <= j * room
    ensures a' * a' + j * j / 49.0 + 0.01 * (j * a') + 0.000025 * (j * j) <= 2.0 * (j * room)
  {
    var low := j / 6.0;
    var cut := j / 6.0 - 0.01 * j;
    ProductBound(a', a' - 0.01 * j, low, cut);
    assert a' * (a' - 0.01 * j) == a' * a' - 0.01 * (j * a');
    assert low * cut == (j * j) * (1.0 / 36.0 - 0.01 / 6.0);
    assert j * j >= 0.0;
  }

  lemma MarginSlow(room: real, a': real, j: real)
    requires j > 0.0 && j / 7.0 < a' < j / 6.0 && a' <= 6.0 * room
    ensures a' * a' + j * j / 49.0 + 0.01 * (j * a') + 0.000025 * (j * j) <= 2.0 * (j * room)
  {
    ScaleOrder(j, a', 6.0 * room);
    assert j * (6.0 * room) == 6.0 * (j * room);
    var factor := j / 3.0 - 0.01 * j;
    ProductBound(a', factor - a', j / 7.0, factor - j / 6.0);
    assert a' * (factor - a') == (j * a') / 3.0 - 0.01 * (j * a') - a' * a';
    assert j / 7.0 * (factor - j / 6.0) == (j * j) * (1.0 / 6.0 - 0.01) / 7.0;
    assert j * j >= 0.0;
  }
}
