/** The tracker keeps its velocity bounds under any targets, and never overshoots a fixed one. */
module MotionSafety {
  import opened Motion
  import opened Envelope

  function Negate(p: Profile): Profile {
    Profile(-p.velocity, -p.acceleration)
  }

  /** Both velocity bounds can still be kept, whatever targets within them come next. */
  ghost predicate Inside(p: Profile, cap: real, j: real) {
    Safe(cap - p.velocity, p.acceleration, j) && Safe(cap + p.velocity, -p.acceleration, j)
  }

  predicate AccelWithin(p: Profile, accelLimit: real) {
    Abs(p.acceleration) <= accelLimit
  }

  // ----- One sub-step -----

  lemma RootPositive(root: real -> real, x: real)
    requires IsSqrt(root) && x >= 0.0
    ensures root(x) >= 0.0 && root(x) * root(x) == x
    ensures x > 0.0 ==> root(x) > 0.0
  {
    if root(x) == 0.0 {
      ZeroProduct(root(x));
    }
  }

  lemma ZeroProduct(r: real)
    requires r == 0.0
    ensures r * r == 0.0
  {
  }

  lemma SizeBounds(root: real -> real, size: real, accelLimit: real, j: real)
    requires IsSqrt(root) && accelLimit > 0.0 && j > 0.0 && size >= 0.0
    ensures var d := Size(root, size, accelLimit, j);
            0.0 <= d <= accelLimit && d <= 6.0 * size && d * d <= j * size && (size > 0.0 ==> d > 0.0)
  {
    ScaleOrder(j, 0.0, size);
    var x := j * size;
    RootPositive(root, x);
    var d := Size(root, size, accelLimit, j);
    if size > 0.0 {
      ScaleOrder(j, size, 0.0);
    }
    ProductBound(root(x), root(x), d, d);
  }

  lemma DesiredBounds(root: real -> real, error: real, accelLimit: real, j: real)
    requires IsSqrt(root) && accelLimit > 0.0 && j > 0.0
    ensures var d := Desired(root, error, accelLimit, j);
            && -accelLimit <= d <= accelLimit
            && (error >= 0.0 ==> 0.0 <= d <= 6.0 * error && d * d <= j * error)
            && (error <= 0.0 ==> d <= 0.0)
            && (error > 0.0 ==> d > 0.0)
            && Desired(root, -error, accelLimit, j) == -d
  {
    hide Size;
    SizeBounds(root, Abs(error), accelLimit, j);
    assert Abs(-error) == Abs(error);
  }

  /** The acceleration moves toward the desired one, by no more than the step allows. */
  lemma ClampStep(a: real, d: real, step: real)
    requires step > 0.0
    ensures var b := a + Clamp(d - a, step);
            && a - step <= b <= a + step
            && (b == a - step || b <= d)
            && (a <= d ==> a <= b <= d) && (d <= a ==> d <= b <= a)
            && (a < d ==> a < b)
  {
  }

  lemma SubstepKeepsSafe(root: real -> real, p: Profile, target: real, accelLimit: real, j: real, h: real, cap: real)
    requires IsSqrt(root) && accelLimit > 0.0 && j > 0.0 && 0.0 < h <= SUBSTEP && target <= cap
    requires Safe(cap - p.velocity, p.acceleration, j)
    ensures var q := Substep(root, p, target, accelLimit, j, h);
            Safe(cap - q.velocity, q.acceleration, j)
  {
    hide Desired, Clamp, Gain, Safe;
    var q := Substep(root, p, target, accelLimit, j, h);
    var room := cap - p.velocity;
    var error := target - p.velocity;
    var d := Desired(root, error, accelLimit, j);
    assert j * h > 0.0;
    DesiredBounds(root, error, accelLimit, j);
    ClampStep(p.acceleration, d, j * h);
    assert cap - q.velocity == room - Gain(p.acceleration, q.acceleration, h);
    if q.acceleration == p.acceleration - j * h {
      BrakeKeepsSafe(room, p.acceleration, q.acceleration, j, h);
    } else {
      RoomLeft(room, p.acceleration, j);
      FollowFits(room, error, d, q.acceleration, j);
      FollowKeepsSafe(room, p.acceleration, q.acceleration, j, h);
    }
  }

  lemma RoomLeft(room: real, a: real, j: real)
    requires Safe(room, a, j)
    ensures room >= 0.0
  {
  }

  lemma SquareOrder(b: real, d: real)
    requires 0.0 <= b <= d
    ensures b * b <= d * d
  {
    ProductBound(d, d, b, b);
  }

  lemma FollowFits(room: real, error: real, d: real, b: real, j: real)
    requires j > 0.0 && 0.0 <= room && error <= room && b <= d
    requires error >= 0.0 ==> 0.0 <= d <= 6.0 * error && d * d <= j * error
    requires error <= 0.0 ==> d <= 0.0
    ensures b <= 6.0 * room && (b > 0.0 ==> b * b <= j * room)
  {
    if b > 0.0 {
      SquareOrder(b, d);
      ScaleOrder(j, error, room);
    }
  }

  lemma SubstepMirrored(root: real -> real, p: Profile, target: real, accelLimit: real, j: real, h: real)
    requires IsSqrt(root) && accelLimit > 0.0 && j > 0.0 && h > 0.0
    ensures Substep(root, Negate(p), -target, accelLimit, j, h) == Negate(Substep(root, p, target, accelLimit, j, h))
  {
    hide Desired, Gain;
    assert j * h > 0.0;
    DesiredBounds(root, target - p.velocity, accelLimit, j);
    var q := Substep(root, p, target, accelLimit, j, h);
    assert -(target - p.velocity) == -target - Negate(p).velocity;
    GainMirrored(p.acceleration, q.acceleration, h);
  }

  lemma GainMirrored(a: real, b: real, h: real)
    ensures Gain(-a, -b, h) == -Gain(a, b, h)
  {
    HalfMirrored(a + b, h);
    assert -a + -b == -(a + b);
  }

  lemma HalfMirrored(sum: real, h: real)
    ensures Half(-sum, h) == -Half(sum, h)
  {
  }

  lemma SubstepKeepsInside(root: real -> real, p: Profile, target: real, accelLimit: real, j: real, h: real, cap: real)
    requires IsSqrt(root) && accelLimit > 0.0 && j > 0.0 && 0.0 < h <= SUBSTEP && -cap <= target <= cap
    requires Inside(p, cap, j)
    ensures Inside(Substep(root, p, target, accelLimit, j, h), cap, j)
  {
    hide Substep, Safe;
    SubstepKeepsSafe(root, p, target, accelLimit, j, h, cap);
    assert cap + p.velocity == cap - Negate(p).velocity;
    SubstepKeepsSafe(root, Negate(p), -target, accelLimit, j, h, cap);
    SubstepMirrored(root, p, target, accelLimit, j, h);
    var q := Substep(root, p, target, accelLimit, j, h);
    assert cap - Negate(q).velocity == cap + q.velocity;
  }

  lemma SubstepAccel(root: real -> real, p: Profile, target: real, accelLimit: real, j: real, h: real)
    requires IsSqrt(root) && accelLimit > 0.0 && j > 0.0 && h > 0.0
    ensures var q := Substep(root, p, target, accelLimit, j, h);
            && Abs(q.acceleration - p.acceleration) <= j * h
            && (AccelWithin(p, accelLimit) ==> AccelWithin(q, accelLimit))
  {
    hide Desired, Clamp, Gain;
    var d := Desired(root, target - p.velocity, accelLimit, j);
    assert j * h > 0.0;
    DesiredBounds(root, target - p.velocity, accelLimit, j);
    ClampStep(p.acceleration, d, j * h);
  }

  // ----- Whole calls -----

  lemma {:induction false} IterateKeepsInside(root: real -> real, p: Profile, target: real, accelLimit: real, j: real,
                                              h: real, n: nat, cap: real)
    requires IsSqrt(root) && accelLimit > 0.0 && j > 0.0 && 0.0 < h <= SUBSTEP && -cap <= target <= cap
    requires Inside(p, cap, j)
    ensures Inside(Iterate(root, p, target, accelLimit, j, h, n), cap, j)
  {
    hide Substep, Inside;
    if n > 0 {
      IterateKeepsInside(root, p, target, accelLimit, j, h, n - 1, cap);
      SubstepKeepsInside(root, Iterate(root, p, target, accelLimit, j, h, n - 1), target, accelLimit, j, h, cap);
    }
  }

  lemma {:induction false} IterateAccel(root: real -> real, p: Profile, target: real, accelLimit: real, j: real,
                                        h: real, n: nat)
    requires IsSqrt(root) && accelLimit > 0.0 && j > 0.0 && h > 0.0
    ensures var q := Iterate(root, p, target, accelLimit, j, h, n);
            && Abs(q.acceleration - p.acceleration) <= (n as real) * (j * h)
            && (AccelWithin(p, accelLimit) ==> AccelWithin(q, accelLimit))
  {
    hide Substep;
    if n > 0 {
      IterateAccel(root, p, target, accelLimit, j, h, n - 1);
      SubstepAccel(root, Iterate(root, p, target, accelLimit, j, h, n - 1), target, accelLimit, j, h);
      assert (n as real) * (j * h) == ((n - 1) as real) * (j * h) + j * h;
    }
  }

  /** The sub-steps of a call are equally long, short enough, and fill the call exactly. */
  lemma StepLength(dt: real)
    requires dt > 0.0
    ensures var h := dt / (Steps(dt) as real);
            0.0 < h <= SUBSTEP && (Steps(dt) as real) * h == dt
  {
    var n := Steps(dt) as real;
    var h := dt / n;
    assert n * h == dt;
    ScaleOrder(n, h, SUBSTEP);
  }

  /** Any call, accepted or not, keeps the velocity inside the cap if the target is inside it. */
  lemma CallKeepsInside(root: real -> real, p: Profile, target: real, accelLimit: real, j: real, dt: real, cap: real)
    requires IsSqrt(root) && -cap <= target <= cap && Inside(p, cap, j)
    ensures var q := Stepped(root, p, target, accelLimit, j, dt);
            Inside(q, cap, j) && -cap <= q.velocity <= cap
  {
    hide Iterate;
    if Accepts(p, accelLimit, j, dt) {
      StepLength(dt);
      IterateKeepsInside(root, p, target, accelLimit, j, dt / (Steps(dt) as real), Steps(dt), cap);
    }
  }

  /** In one call the acceleration changes by at most the jerk limit times the elapsed time, and
    * it stays within its limit. */
  lemma CallAccel(root: real -> real, p: Profile, target: real, accelLimit: real, j: real, dt: real)
    requires IsSqrt(root) && dt > 0.0 && j > 0.0
    ensures var q := Stepped(root, p, target, accelLimit, j, dt);
            && Abs(q.acceleration - p.acceleration) <= j * dt
            && (AccelWithin(p, accelLimit) ==> AccelWithin(q, accelLimit))
  {
    hide Iterate, Steps;
    assert j * dt > 0.0;
    if Accepts(p, accelLimit, j, dt) {
      StepLength(dt);
      var n := Steps(dt);
      var h := dt / (n as real);
      IterateAccel(root, p, target, accelLimit, j, h, n);
      assert (n as real) * (j * h) == j * ((n as real) * h);
    }
  }

  // ----- How hard it tries -----

  /** The acceleration asked for is the largest that the limit allows, that is at most six times the error a
    * second, and from which the jerk limit can still bring it back in time. */
  lemma SizeIsLargest(root: real -> real, size: real, accelLimit: real, j: real, y: real)
    requires IsSqrt(root) && size >= 0.0 && accelLimit > 0.0 && j > 0.0
    requires 0.0 <= y <= accelLimit && y <= 6.0 * size && y * y <= j * size
    ensures var x := Size(root, size, accelLimit, j);
            0.0 <= x <= accelLimit && x <= 6.0 * size && x * x <= j * size && y <= x
  {
    assert j * size >= 0.0;
    var x := Size(root, size, accelLimit, j);
    var r := root(j * size);
    if y > r {
      StrictSquares(r, y);
    }
    if x < r {
      SquareOrder(x, r);
    }
  }

  lemma StrictSquares(r: real, y: real)
    requires 0.0 <= r < y
    ensures r * r < y * y
  {
    assert y * y - r * r == (y - r) * (y + r);
    PositiveProduct(y - r, y + r);
  }

  lemma PositiveProduct(x: real, y: real)
    requires x > 0.0 && y > 0.0
    ensures x * y > 0.0
  {
  }

  /** Far from the target the whole acceleration limit is asked for, in the direction of the target. */
  lemma AsksForLimit(root: real -> real, error: real, accelLimit: real, j: real)
    requires IsSqrt(root) && accelLimit > 0.0 && j > 0.0
    requires 6.0 * Abs(error) >= accelLimit && j * Abs(error) >= accelLimit * accelLimit
    ensures Desired(root, error, accelLimit, j) == if error > 0.0 then accelLimit else -accelLimit
  {
    SizeIsLargest(root, Abs(error), accelLimit, j, accelLimit);
  }

  /** Close to the target, where neither limit bites, six times the error is asked for. */
  lemma AsksForError(root: real -> real, error: real, accelLimit: real, j: real)
    requires IsSqrt(root) && accelLimit > 0.0 && j > 0.0
    requires 6.0 * Abs(error) <= accelLimit && 36.0 * Abs(error) <= j
    ensures Desired(root, error, accelLimit, j) == 6.0 * error
  {
    var size := Abs(error);
    SquareBelow(size, j);
    SizeIsLargest(root, size, accelLimit, j, 6.0 * size);
  }

  lemma SquareBelow(size: real, j: real)
    requires size >= 0.0 && 36.0 * size <= j
    ensures (6.0 * size) * (6.0 * size) <= j * size
  {
    ProductBound(j, size, 36.0 * size, size);
    assert (6.0 * size) * (6.0 * size) == 36.0 * size * size;
  }

  /** A sub-step takes the acceleration as close to the desired one as the jerk limit lets it, and the velocity
    * along with the mean of the old and the new acceleration. */
  lemma SubstepExactly(root: real -> real, p: Profile, target: real, accelLimit: real, j: real, h: real, other: real)
    requires IsSqrt(root) && accelLimit > 0.0 && j > 0.0 && h > 0.0
    requires Abs(other - p.acceleration) <= j * h
    ensures var q := Substep(root, p, target, accelLimit, j, h);
            var d := Desired(root, target - p.velocity, accelLimit, j);
            && Abs(q.acceleration - p.acceleration) <= j * h
            && Abs(d - q.acceleration) <= Abs(d - other)
            && q.velocity - p.velocity == (p.acceleration + q.acceleration) / 2.0 * h
  {
    hide Desired;
    assert j * h > 0.0;
  }

  /** Far from the target a sub-step raises the acceleration at the full jerk, up to the limit. */
  lemma SpeedsUp(root: real -> real, p: Profile, target: real, accelLimit: real, j: real, h: real)
    requires IsSqrt(root) && accelLimit > 0.0 && j > 0.0 && h > 0.0
    requires p.velocity < target && Abs(p.acceleration) <= accelLimit
    requires var error := target - p.velocity; 6.0 * error >= accelLimit && j * error >= accelLimit * accelLimit
    ensures Substep(root, p, target, accelLimit, j, h).acceleration == Min(p.acceleration + j * h, accelLimit)
  {
    AsksForLimit(root, target - p.velocity, accelLimit, j);
    hide Desired;
    assert j * h > 0.0;
  }

  /** Close to the target and on its way there with six times the error, the tracker takes six times the sub-step
    * off the error: it shrinks by that share, to the target and not beyond. */
  lemma ErrorShrinks(root: real -> real, p: Profile, target: real, accelLimit: real, j: real, h: real)
    requires IsSqrt(root) && accelLimit > 0.0 && j > 0.0 && h > 0.0
    requires var error := target - p.velocity;
             && p.acceleration == 6.0 * error && 6.0 * Abs(error) <= accelLimit && 36.0 * Abs(error) <= j
    ensures target - Substep(root, p, target, accelLimit, j, h).velocity == (1.0 - 6.0 * h) * (target - p.velocity)
  {
    AsksForError(root, target - p.velocity, accelLimit, j);
    hide Desired;
    assert j * h > 0.0;
  }

  // ----- A fixed target -----

  /** On the way up to the target with no way to overshoot it. */
  ghost predicate Approaching(p: Profile, target: real, j: real) {
    p.velocity < target && p.acceleration >= 0.0 && Safe(target - p.velocity, p.acceleration, j)
  }

  lemma SafeRoom(room: real, a: real, j: real)
    requires j > 0.0 && Safe(room, a, j) && a > 0.0
    ensures room > 0.0
  {
    SafeLinear(room, a, j);
  }

  lemma SubstepApproaches(root: real -> real, p: Profile, target: real, accelLimit: real, j: real, h: real)
    requires IsSqrt(root) && accelLimit > 0.0 && j > 0.0 && 0.0 < h <= SUBSTEP && Approaching(p, target, j)
    ensures var q := Substep(root, p, target, accelLimit, j, h);
            Approaching(q, target, j) && p.velocity < q.velocity
  {
    hide Desired, Clamp, Half, Safe;
    var q := Substep(root, p, target, accelLimit, j, h);
    var d := Desired(root, target - p.velocity, accelLimit, j);
    assert j * h > 0.0;
    DesiredBounds(root, target - p.velocity, accelLimit, j);
    ClampStep(p.acceleration, d, j * h);
    assert q.acceleration > 0.0;
    HalfPositive(p.acceleration + q.acceleration, h);
    SubstepKeepsSafe(root, p, target, accelLimit, j, h, target);
    SafeRoom(target - q.velocity, q.acceleration, j);
  }

  lemma HalfPositive(sum: real, h: real)
    requires sum > 0.0 && h > 0.0
    ensures Half(sum, h) > 0.0
  {
    assert sum * 0.5 > 0.0;
  }

  lemma {:induction false} IterateApproaches(root: real -> real, p: Profile, target: real, accelLimit: real, j: real,
                                             h: real, n: nat)
    requires IsSqrt(root) && accelLimit > 0.0 && j > 0.0 && 0.0 < h <= SUBSTEP && Approaching(p, target, j)
    ensures var q := Iterate(root, p, target, accelLimit, j, h, n);
            Approaching(q, target, j) && (n > 0 ==> p.velocity < q.velocity)
  {
    hide Substep, Safe;
    if n > 0 {
      IterateApproaches(root, p, target, accelLimit, j, h, n - 1);
      SubstepApproaches(root, Iterate(root, p, target, accelLimit, j, h, n - 1), target, accelLimit, j, h);
    }
  }

  /** The states of a controller that is called again and again with one target. */
  function Calls(root: real -> real, p: Profile, target: real, accelLimit: real, j: real, dts: seq<real>): Profile {
    if dts == [] then p
    else Stepped(root, Calls(root, p, target, accelLimit, j, dts[..|dts| - 1]), target, accelLimit, j, dts[|dts| - 1])
  }

  predicate ValidTimes(dts: seq<real>) {
    forall i :: 0 <= i < |dts| ==> 0.0 < dts[i] <= MAX_DT
  }

  lemma {:induction false} CallsApproach(root: real -> real, p: Profile, target: real, accelLimit: real,
                                          j: real, dts: seq<real>)
    requires IsSqrt(root) && accelLimit > 0.0 && j > 0.0 && ValidTimes(dts)
    requires Approaching(p, target, j) && AccelWithin(p, accelLimit)
    ensures var q := Calls(root, p, target, accelLimit, j, dts);
            && Approaching(q, target, j) && AccelWithin(q, accelLimit)
            && (dts != [] ==> Calls(root, p, target, accelLimit, j, dts[..|dts| - 1]).velocity < q.velocity)
  {
    hide Iterate, Safe, Steps;
    if dts != [] {
      var dt := dts[|dts| - 1];
      var before := Calls(root, p, target, accelLimit, j, dts[..|dts| - 1]);
      CallsApproach(root, p, target, accelLimit, j, dts[..|dts| - 1]);
      StepLength(dt);
      IterateApproaches(root, before, target, accelLimit, j, dt / (Steps(dt) as real), Steps(dt));
      CallAccel(root, before, target, accelLimit, j, dt);
    }
  }

  /** From any velocity below the target and no acceleration, over any number of calls of any
    * length, every call moves the velocity strictly closer and none reaches or crosses it. */
  lemma NoOvershoot(root: real -> real, velocity: real, target: real, accelLimit: real, j: real, dts: seq<real>)
    requires IsSqrt(root) && accelLimit > 0.0 && j > 0.0 && ValidTimes(dts) && velocity < target
    ensures var p := Profile(velocity, 0.0);
            var q := Calls(root, p, target, accelLimit, j, dts);
            && velocity <= q.velocity < target && 0.0 <= q.acceleration <= accelLimit
            && (dts != [] ==> Calls(root, p, target, accelLimit, j, dts[..|dts| - 1]).velocity < q.velocity)
    decreases |dts|
  {
    var p := Profile(velocity, 0.0);
    assert Approaching(p, target, j);
    CallsApproach(root, p, target, accelLimit, j, dts);
    if dts != [] {
      NoOvershoot(root, velocity, target, accelLimit, j, dts[..|dts| - 1]);
    }
  }

  /** Approaching from above is the mirror image. */
  lemma {:induction false} CallsMirrored(root: real -> real, p: Profile, target: real, accelLimit: real,
                                          j: real, dts: seq<real>)
    requires IsSqrt(root) && accelLimit > 0.0 && j > 0.0
    ensures Calls(root, Negate(p), -target, accelLimit, j, dts) == Negate(Calls(root, p, target, accelLimit, j, dts))
  {
    hide Iterate, Steps;
    if dts != [] {
      var before := Calls(root, p, target, accelLimit, j, dts[..|dts| - 1]);
      CallsMirrored(root, p, target, accelLimit, j, dts[..|dts| - 1]);
      var dt := dts[|dts| - 1];
      if Accepts(before, accelLimit, j, dt) {
        StepLength(dt);
        IterateMirrored(root, before, target, accelLimit, j, dt / (Steps(dt) as real), Steps(dt));
      }
    }
  }

  lemma {:induction false} IterateMirrored(root: real -> real, p: Profile, target: real, accelLimit: real, j: real,
                                           h: real, n: nat)
    requires IsSqrt(root) && accelLimit > 0.0 && j > 0.0 && h > 0.0
    ensures Iterate(root, Negate(p), -target, accelLimit, j, h, n)
            == Negate(Iterate(root, p, target, accelLimit, j, h, n))
  {
    hide Substep;
    if n > 0 {
      IterateMirrored(root, p, target, accelLimit, j, h, n - 1);
      SubstepMirrored(root, Iterate(root, p, target, accelLimit, j, h, n - 1), target, accelLimit, j, h);
    }
  }

  lemma NoUndershoot(root: real -> real, velocity: real, target: real, accelLimit: real, j: real, dts: seq<real>)
    requires IsSqrt(root) && accelLimit > 0.0 && j > 0.0 && ValidTimes(dts) && velocity > target
    ensures var p := Profile(velocity, 0.0);
            var q := Calls(root, p, target, accelLimit, j, dts);
            && target < q.velocity <= velocity && -accelLimit <= q.acceleration <= 0.0
            && (dts != [] ==> q.velocity < Calls(root, p, target, accelLimit, j, dts[..|dts| - 1]).velocity)
  {
    hide Calls, IsSqrt;
    var p := Profile(velocity, 0.0);
    NoOvershoot(root, -velocity, -target, accelLimit, j, dts);
    CallsMirrored(root, p, target, accelLimit, j, dts);
    if dts != [] {
      CallsMirrored(root, p, target, accelLimit, j, dts[..|dts| - 1]);
    }
  }
}
