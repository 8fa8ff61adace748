/** The body-motion controller: two shaped body velocities, a yaw correction with anti-windup and
  * uniform saturation of the wheel outputs. */
module Glide {
  import opened Motion

  datatype Config = Config(
    radius: real, separation: real, icr: real, wheelMax: real,
    vxMax: real, wzMax: real, axMax: real, alphaMax: real, jxMax: real, jalphaMax: real,
    yawKp: real, yawKi: real, correctionMax: real, deadband: real,
    correctionAccel: real, correctionJerk: real, yawFeedback: bool)

  predicate ValidConfig(c: Config) {
    && c.radius > 0.0 && c.separation > 0.0 && c.icr > 0.0 && c.wheelMax > 0.0
    && c.vxMax > 0.0 && c.wzMax > 0.0 && c.axMax > 0.0 && c.alphaMax > 0.0 && c.jxMax > 0.0 && c.jalphaMax > 0.0
    && c.correctionAccel > 0.0 && c.correctionJerk > 0.0
    && c.yawKp >= 0.0 && c.yawKi >= 0.0 && c.correctionMax >= 0.0 && c.deadband >= 0.0
  }

  datatype State = State(
    cfg: Config, linear: Profile, yaw: Profile, correctionProfile: Profile,
    integrator: real, correction: real, trackingBad: real, saturated: bool)

  function ResetState(cfg: Config): State {
    State(cfg, AT_REST, AT_REST, AT_REST, 0.0, 0.0, 0.0, false)
  }

  // ----- Wheel allocation -----

  datatype Wheels = Wheels(left: real, right: real, saturated: bool)

  function WheelDemand(g: State, correction: real): Wheels
    requires g.cfg.radius != 0.0
  {
    var angular := (g.yaw.velocity + correction) * g.cfg.icr;
    var turn := angular * g.cfg.separation * 0.5;
    Wheels((g.linear.velocity - turn) / g.cfg.radius, (g.linear.velocity + turn) / g.cfg.radius, false)
  }

  function Saturate(w: Wheels, limit: real): Wheels
    requires limit > 0.0
  {
    var peak := Max(Abs(w.left), Abs(w.right));
    if peak > limit then
      var scale := limit / peak;
      Wheels(Times(w.left, scale), Times(w.right, scale), true)
    else Wheels(w.left, w.right, false)
  }

  function Allocate(g: State, correction: real): Wheels
    requires ValidConfig(g.cfg)
  {
    Saturate(WheelDemand(g, correction), g.cfg.wheelMax)
  }

  // ----- One update -----

  datatype Result = Rejected | Updated(state: State, wheels: Wheels)

  function Shape(root: real -> real, g: State, vx: real, wz: real, trackingGood: bool, dt: real): State {
    g.(linear := Stepped(root, g.linear, Clamp(vx, g.cfg.vxMax), g.cfg.axMax, g.cfg.jxMax, dt),
       yaw := Stepped(root, g.yaw, Clamp(wz, g.cfg.wzMax), g.cfg.alphaMax, g.cfg.jalphaMax, dt),
       trackingBad := if trackingGood then 0.0 else g.trackingBad + dt)
  }

  predicate Still(p: Profile) {
    Abs(p.velocity) < 0.0001 && Abs(p.acceleration) < 0.001
  }

  predicate Coasts(g: State, vx: real, wz: real) {
    vx == 0.0 && wz == 0.0 && Still(g.linear) && Still(g.yaw)
  }

  function Correct(root: real -> real, g: State, desired: real, dt: real): State {
    g.(correctionProfile :=
         Stepped(root, g.correctionProfile, desired, g.cfg.correctionAccel, g.cfg.correctionJerk, dt))
  }

  predicate CorrectionAccepted(g: State, dt: real) {
    Accepts(g.correctionProfile, g.cfg.correctionAccel, g.cfg.correctionJerk, dt)
  }

  function Finish(g: State): Result
    requires ValidConfig(g.cfg)
  {
    var g' := g.(correction := Clamp(g.correctionProfile.velocity, g.cfg.correctionMax));
    var w := Allocate(g', g'.correction);
    Updated(g'.(saturated := w.saturated), w)
  }

  function WithoutFeedback(root: real -> real, g: State, coast: bool, dt: real): Result
    requires ValidConfig(g.cfg)
  {
    var g1 := g.(integrator := 0.0);
    var g2 := if coast then g1.(linear := AT_REST, yaw := AT_REST) else g1;
    if !CorrectionAccepted(g2, dt) then Rejected
    else
      var g3 := Correct(root, g2, 0.0, dt);
      Finish(if Still(g3.correctionProfile) then g3.(correctionProfile := AT_REST) else g3)
  }

  function YawError(g: State, gyro: real): real {
    var error := g.yaw.velocity - gyro;
    if Abs(error) < g.cfg.deadband then 0.0 else error
  }

  function Integrated(g: State, error: real, dt: real): real {
    g.integrator + g.cfg.yawKi * error * dt
  }

  function Candidate(g: State, error: real, dt: real): real {
    Clamp(Integrated(g, error, dt), g.cfg.correctionMax)
  }

  /** The proportional and integral terms together. */
  function Wanted(cfg: Config, error: real, integral: real): real {
    cfg.yawKp * error + integral
  }

  /** The wheels, the correction or the motors cannot follow a larger correction. */
  predicate Constrained(g: State, error: real, dt: real)
    requires ValidConfig(g.cfg)
  {
    var raw := Wanted(g.cfg, error, Candidate(g, error, dt));
    || Allocate(g, Clamp(raw, g.cfg.correctionMax)).saturated
    || Abs(raw) > g.cfg.correctionMax
    || g.trackingBad >= 0.2
  }

  function NextIntegrator(g: State, error: real, dt: real): real
    requires ValidConfig(g.cfg)
  {
    if !Constrained(g, error, dt) || g.integrator * error < 0.0 then Candidate(g, error, dt) else g.integrator
  }

  function WithFeedback(root: real -> real, g: State, gyro: real, dt: real): Result
    requires ValidConfig(g.cfg)
  {
    var error := YawError(g, gyro);
    var g1 := g.(integrator := NextIntegrator(g, error, dt));
    if !CorrectionAccepted(g1, dt) then Rejected
    else Finish(Correct(root, g1, Clamp(Wanted(g.cfg, error, g1.integrator), g.cfg.correctionMax), dt))
  }

  function Update(root: real -> real, g: State, vx: real, wz: real, gyro: real, trackingGood: bool, dt: real): Result
    requires ValidConfig(g.cfg)
  {
    if !Accepts(g.linear, g.cfg.axMax, g.cfg.jxMax, dt) || !Accepts(g.yaw, g.cfg.alphaMax, g.cfg.jalphaMax, dt)
    then Rejected
    else
      var g1 := Shape(root, g, vx, wz, trackingGood, dt);
      var coast := Coasts(g1, vx, wz);
      if coast || !g.cfg.yawFeedback then WithoutFeedback(root, g1, coast, dt)
      else WithFeedback(root, g1, gyro, dt)
  }

  /** The controller object. */
  class Controller {
    var g: State

    constructor (cfg: Config)
      requires ValidConfig(cfg)
      ensures g == ResetState(cfg)
    {
      g := ResetState(cfg);
    }

    /** A new configuration is taken over only when every field is in range. */
    method Init(cfg: Config) returns (ok: bool)
      modifies this
      ensures ok == ValidConfig(cfg) && g == if ok then ResetState(cfg) else old(g)
    {
      ok := ValidConfig(cfg);
      if ok {
        g := ResetState(cfg);
      }
    }

    method Reset()
      modifies this
      ensures g == ResetState(old(g.cfg))
    {
      g := ResetState(g.cfg);
    }

    /** Works on a copy and commits it at the end, so a rejected call changes nothing. */
    method GlideUpdate(root: real -> real, vx: real, wz: real, gyro: real, trackingGood: bool, dt: real)
      returns (ok: bool, left: real, right: real)
      requires ValidConfig(g.cfg)
      modifies this
      ensures match Update(root, old(g), vx, wz, gyro, trackingGood, dt)
              case Rejected => !ok && g == old(g)
              case Updated(state, wheels) => ok && g == state && left == wheels.left && right == wheels.right
    {
      hide Stepped, Clamp, Allocate, NextIntegrator, Accepts, YawError, Wanted;
      left, right := 0.0, 0.0;
      var next := g;
      var stepped: bool;
      var profile: Profile;
      stepped, profile :=
        MotionProfileStep(root, next.linear, Clamp(vx, next.cfg.vxMax), next.cfg.axMax, next.cfg.jxMax, dt);
      if !stepped { return false, left, right; }
      next := next.(linear := profile);
      stepped, profile :=
        MotionProfileStep(root, next.yaw, Clamp(wz, next.cfg.wzMax), next.cfg.alphaMax, next.cfg.jalphaMax, dt);
      if !stepped { return false, left, right; }
      next := next.(yaw := profile);
      next := next.(trackingBad := if trackingGood then 0.0 else next.trackingBad + dt);
      var coast := Coasts(next, vx, wz);
      var desired := 0.0;
      if coast || !next.cfg.yawFeedback {
        next := next.(integrator := 0.0);
        if coast { next := next.(linear := AT_REST, yaw := AT_REST); }
      } else {
        var error := YawError(next, gyro);
        next := next.(integrator := NextIntegrator(next, error, dt));
        desired := Clamp(Wanted(next.cfg, error, next.integrator), next.cfg.correctionMax);
      }
      stepped, profile :=
        MotionProfileStep(root, next.correctionProfile, desired, next.cfg.correctionAccel, next.cfg.correctionJerk, dt);
      if !stepped { return false, left, right; }
      next := next.(correctionProfile := profile);
      if (coast || !next.cfg.yawFeedback) && Still(profile) {
        next := next.(correctionProfile := AT_REST);
      }
      next := next.(correction := Clamp(next.correctionProfile.velocity, next.cfg.correctionMax));
      var w := Allocate(next, next.correction);
      next := next.(saturated := w.saturated);
      g := next;
      ok, left, right := true, w.left, w.right;
    }
  }
}

/** What every run of the controller keeps. */
module GlideSafety {
  import opened Motion
  import opened Envelope
  import opened MotionSafety
  import opened Glide

  ghost predicate SafeState(g: State) {
    && ValidConfig(g.cfg)
    && Inside(g.linear, g.cfg.vxMax, g.cfg.jxMax) && AccelWithin(g.linear, g.cfg.axMax)
    && Inside(g.yaw, g.cfg.wzMax, g.cfg.jalphaMax) && AccelWithin(g.yaw, g.cfg.alphaMax)
    && Inside(g.correctionProfile, g.cfg.correctionMax, g.cfg.correctionJerk)
    && AccelWithin(g.correctionProfile, g.cfg.correctionAccel)
    && Abs(g.integrator) <= g.cfg.correctionMax
    && g.correction == g.correctionProfile.velocity
  }

  predicate Bounded(g: State) {
    && Abs(g.linear.velocity) <= g.cfg.vxMax && Abs(g.linear.acceleration) <= g.cfg.axMax
    && Abs(g.yaw.velocity) <= g.cfg.wzMax && Abs(g.yaw.acceleration) <= g.cfg.alphaMax
    && Abs(g.correctionProfile.velocity) <= g.cfg.correctionMax
    && Abs(g.correctionProfile.acceleration) <= g.cfg.correctionAccel
    && Abs(g.integrator) <= g.cfg.correctionMax && g.correction == g.correctionProfile.velocity
  }

  lemma SafeIsBounded(g: State)
    requires SafeState(g)
    ensures Bounded(g)
  {
  }

  lemma RestInside(cap: real, j: real)
    requires cap >= 0.0 && j > 0.0
    ensures Inside(AT_REST, cap, j)
  {
  }

  lemma ResetIsSafe(cfg: Config)
    requires ValidConfig(cfg)
    ensures SafeState(ResetState(cfg))
  {
    RestInside(cfg.vxMax, cfg.jxMax);
    RestInside(cfg.wzMax, cfg.jalphaMax);
    RestInside(cfg.correctionMax, cfg.correctionJerk);
  }

  lemma ClampWithin(x: real, limit: real)
    requires limit >= 0.0
    ensures -limit <= Clamp(x, limit) <= limit
    ensures Abs(x) <= limit ==> Clamp(x, limit) == x
  {
  }

  // ----- Wheels -----

  /** Both outputs are within the limit, have the signs of the demand and keep its ratio; they
    * differ from the demand exactly when it is beyond the limit, and then reach the limit. */
  predicate WithinRatio(demand: Wheels, w: Wheels, limit: real) {
    && Abs(w.left) <= limit && Abs(w.right) <= limit
    && Times(w.left, demand.right) == Times(w.right, demand.left)
    && Times(w.left, demand.left) >= 0.0 && Times(w.right, demand.right) >= 0.0
    && (!w.saturated ==> w.left == demand.left && w.right == demand.right)
    && (w.saturated <==> Max(Abs(demand.left), Abs(demand.right)) > limit)
    && (w.saturated ==> Max(Abs(w.left), Abs(w.right)) == limit)
  }

  lemma TimesBound(x: real, y: real, a: real, b: real)
    requires x >= a >= 0.0 && y >= b >= 0.0
    ensures Times(x, y) >= Times(a, b) >= 0.0
  {
    ProductBound(x, y, a, b);
    ProductBound(a, b, 0.0, 0.0);
  }

  lemma TimesLaws(x: real, y: real, s: real)
    ensures Times(-x, y) == -Times(x, y) && Times(x, -y) == -Times(x, y) && Times(x, y) == Times(y, x)
    ensures Times(Times(x, s), y) == Times(Times(y, s), x)
    ensures Times(x, 0.0) == 0.0
  {
  }

  lemma ScaleRange(peak: real, limit: real)
    requires 0.0 < limit < peak
    ensures Times(limit / peak, peak) == limit && limit / peak > 0.0
  {
  }

  lemma ScaledWithin(x: real, s: real, peak: real, limit: real)
    requires 0.0 < limit < peak && Abs(x) <= peak && s > 0.0 && Times(s, peak) == limit
    ensures Abs(Times(x, s)) <= limit && Times(Times(x, s), x) >= 0.0
    ensures Abs(x) == peak ==> Abs(Times(x, s)) == limit
  {
    hide Times;
    TimesLaws(x, s, s);
    TimesLaws(peak, s, s);
    TimesLaws(Times(x, s), x, s);
    TimesLaws(-Times(x, s), x, s);
    TimesBound(peak, s, Abs(x), s);
    TimesBound(Abs(Times(x, s)), Abs(x), 0.0, 0.0);
    TimesLaws(0.0, 0.0, s);
  }

  lemma SaturateKeepsRatio(demand: Wheels, limit: real)
    requires limit > 0.0
    ensures WithinRatio(demand, Saturate(demand, limit), limit)
  {
    hide Times, WithinRatio;
    var peak := Max(Abs(demand.left), Abs(demand.right));
    if peak > limit {
      var s := limit / peak;
      ScaleRange(peak, limit);
      SaturatedRatio(demand, s, peak, limit);
    } else {
      UnsaturatedRatio(demand, limit);
    }
  }

  lemma SaturatedRatio(demand: Wheels, s: real, peak: real, limit: real)
    requires 0.0 < limit < peak == Max(Abs(demand.left), Abs(demand.right)) && s > 0.0 && Times(s, peak) == limit
    ensures WithinRatio(demand, Wheels(Times(demand.left, s), Times(demand.right, s), true), limit)
  {
    hide Times;
    ScaledWithin(demand.left, s, peak, limit);
    ScaledWithin(demand.right, s, peak, limit);
    TimesLaws(demand.left, demand.right, s);
  }

  lemma UnsaturatedRatio(demand: Wheels, limit: real)
    requires Max(Abs(demand.left), Abs(demand.right)) <= limit
    ensures WithinRatio(demand, Wheels(demand.left, demand.right, false), limit)
  {
    hide Times;
    TimesLaws(demand.left, demand.right, 1.0);
    TimesLaws(demand.left, demand.left, 1.0);
    TimesLaws(demand.right, demand.right, 1.0);
    TimesLaws(-demand.left, demand.left, 1.0);
    TimesLaws(-demand.right, demand.right, 1.0);
    TimesBound(Abs(demand.left), Abs(demand.left), 0.0, 0.0);
    TimesBound(Abs(demand.right), Abs(demand.right), 0.0, 0.0);
    TimesLaws(0.0, 0.0, 1.0);
  }

  // ----- Updates -----

  lemma CallSafe(root: real -> real, p: Profile, target: real, accelLimit: real, j: real, dt: real, cap: real)
    requires IsSqrt(root) && j > 0.0 && -cap <= target <= cap && Inside(p, cap, j) && AccelWithin(p, accelLimit)
    ensures var q := Stepped(root, p, target, accelLimit, j, dt);
            Inside(q, cap, j) && AccelWithin(q, accelLimit)
  {
    hide Inside;
    CallKeepsInside(root, p, target, accelLimit, j, dt, cap);
    if Accepts(p, accelLimit, j, dt) {
      CallAccel(root, p, target, accelLimit, j, dt);
    }
  }

  lemma ShapeSafe(root: real -> real, g: State, vx: real, wz: real, trackingGood: bool, dt: real)
    requires IsSqrt(root) && SafeState(g)
    ensures SafeState(Shape(root, g, vx, wz, trackingGood, dt))
  {
    hide Inside, Stepped, Clamp;
    ClampWithin(vx, g.cfg.vxMax);
    ClampWithin(wz, g.cfg.wzMax);
    CallSafe(root, g.linear, Clamp(vx, g.cfg.vxMax), g.cfg.axMax, g.cfg.jxMax, dt, g.cfg.vxMax);
    CallSafe(root, g.yaw, Clamp(wz, g.cfg.wzMax), g.cfg.alphaMax, g.cfg.jalphaMax, dt, g.cfg.wzMax);
  }

  /** Safe except that the reported correction has not been refreshed yet. */
  ghost predicate Unreported(g: State) {
    SafeState(g.(correction := g.correctionProfile.velocity))
  }

  lemma CorrectSafe(root: real -> real, g: State, desired: real, dt: real)
    requires IsSqrt(root) && Unreported(g) && -g.cfg.correctionMax <= desired <= g.cfg.correctionMax
    ensures Unreported(Correct(root, g, desired, dt))
  {
    hide Inside, Stepped;
    CallSafe(root, g.correctionProfile, desired, g.cfg.correctionAccel, g.cfg.correctionJerk, dt, g.cfg.correctionMax);
  }

  lemma DemandIgnoresFlag(g: State, correction: real, saturated: bool)
    requires g.cfg.radius != 0.0
    ensures WheelDemand(g.(saturated := saturated), correction) == WheelDemand(g, correction)
  {
  }

  /** The final clamp of the correction never changes it. */
  lemma FinishSafe(g: State)
    requires Unreported(g)
    ensures var r := Finish(g);
            && r.Updated? && SafeState(r.state) && r.state.correction == g.correctionProfile.velocity
            && WithinRatio(WheelDemand(r.state, r.state.correction), r.wheels, g.cfg.wheelMax)
            && r.state == g.(correction := g.correctionProfile.velocity, saturated := r.wheels.saturated)
  {
    hide Saturate, WithinRatio, Clamp, WheelDemand, Inside;
    SafeIsBounded(g.(correction := g.correctionProfile.velocity));
    ClampWithin(g.correctionProfile.velocity, g.cfg.correctionMax);
    var g' := g.(correction := g.correctionProfile.velocity);
    SaturateKeepsRatio(WheelDemand(g', g'.correction), g.cfg.wheelMax);
    DemandIgnoresFlag(g', g'.correction, Finish(g).wheels.saturated);
  }

  /** What an accepted update guarantees. */
  ghost predicate GoodResult(g: State, r: Result) {
    r.Updated? && SafeState(r.state) && r.state.cfg == g.cfg
    && WithinRatio(WheelDemand(r.state, r.state.correction), r.wheels, g.cfg.wheelMax)
  }

  lemma CoastingSafe(root: real -> real, g: State, coast: bool, dt: real)
    requires IsSqrt(root) && SafeState(g) && 0.0 < dt <= MAX_DT
    ensures GoodResult(g, WithoutFeedback(root, g, coast, dt))
  {
    hide Inside, Stepped, Finish, WithinRatio;
    RestInside(g.cfg.vxMax, g.cfg.jxMax);
    RestInside(g.cfg.wzMax, g.cfg.jalphaMax);
    RestInside(g.cfg.correctionMax, g.cfg.correctionJerk);
    var g1 := g.(integrator := 0.0);
    var g2 := if coast then g1.(linear := AT_REST, yaw := AT_REST) else g1;
    CorrectSafe(root, g2, 0.0, dt);
    var g3 := Correct(root, g2, 0.0, dt);
    FinishSafe(if Still(g3.correctionProfile) then g3.(correctionProfile := AT_REST) else g3);
  }

  lemma IntegratorWithin(g: State, error: real, dt: real)
    requires ValidConfig(g.cfg) && Abs(g.integrator) <= g.cfg.correctionMax
    ensures Abs(NextIntegrator(g, error, dt)) <= g.cfg.correctionMax
  {
    hide Clamp, Constrained, Integrated;
    ClampWithin(Integrated(g, error, dt), g.cfg.correctionMax);
  }

  lemma FeedbackSafe(root: real -> real, g: State, gyro: real, dt: real)
    requires IsSqrt(root) && SafeState(g) && 0.0 < dt <= MAX_DT
    ensures GoodResult(g, WithFeedback(root, g, gyro, dt))
  {
    hide Inside, Stepped, Finish, WithinRatio, Clamp, NextIntegrator, YawError, Wanted;
    var error := YawError(g, gyro);
    IntegratorWithin(g, error, dt);
    var g1 := g.(integrator := NextIntegrator(g, error, dt));
    var wanted := Wanted(g.cfg, error, g1.integrator);
    ClampWithin(wanted, g.cfg.correctionMax);
    CorrectSafe(root, g1, Clamp(wanted, g.cfg.correctionMax), dt);
    FinishSafe(Correct(root, g1, Clamp(wanted, g.cfg.correctionMax), dt));
  }

  /** From a safe state an update is accepted exactly when its elapsed time is in range, and then
    * everything stays within its limit. */
  lemma UpdateSafe(root: real -> real, g: State, vx: real, wz: real, gyro: real, trackingGood: bool, dt: real)
    requires IsSqrt(root) && SafeState(g)
    ensures var r := Update(root, g, vx, wz, gyro, trackingGood, dt);
            && (r.Updated? <==> 0.0 < dt <= MAX_DT)
            && (r.Updated? ==> GoodResult(g, r) && Bounded(r.state))
  {
    hide Inside, Stepped, WithFeedback, WithoutFeedback, WithinRatio;
    if 0.0 < dt <= MAX_DT {
      var g1 := Shape(root, g, vx, wz, trackingGood, dt);
      ShapeSafe(root, g, vx, wz, trackingGood, dt);
      var coast := Coasts(g1, vx, wz);
      CoastingSafe(root, g1, coast, dt);
      FeedbackSafe(root, g1, gyro, dt);
      var r := Update(root, g, vx, wz, gyro, trackingGood, dt);
      SafeIsBounded(r.state);
    }
  }

  /** How far an error moves the integrator before it is clamped. */
  function Push(g: State, error: real, dt: real): real {
    g.cfg.yawKi * error * dt
  }

  lemma PushSign(g: State, error: real, dt: real)
    requires ValidConfig(g.cfg) && dt > 0.0
    ensures error >= 0.0 ==> Push(g, error, dt) >= 0.0
    ensures error <= 0.0 ==> Push(g, error, dt) <= 0.0
  {
    if error >= 0.0 {
      MoveSign(g.cfg.yawKi, error, dt);
    } else {
      MoveSign(g.cfg.yawKi, -error, dt);
    }
  }

  lemma SignOfProduct(x: real, y: real)
    ensures x * y < 0.0 <==> (x > 0.0 && y < 0.0) || (x < 0.0 && y > 0.0)
  {
    if x >= 0.0 && y >= 0.0 {
      ProductBound(x, y, 0.0, 0.0);
    } else if x <= 0.0 && y <= 0.0 {
      ProductBound(-x, -y, 0.0, 0.0);
    }
  }

  /** Anti-windup: while something is constrained, the integrator is only moved against its own sign. Its
    * size cannot grow either, if and only if the error does not oppose it, or pushes it by at most twice
    * its size, or it is at its limit already: a larger push takes it across zero and beyond. */
  lemma AntiWindup(g: State, error: real, dt: real)
    requires ValidConfig(g.cfg) && dt > 0.0 && Abs(g.integrator) <= g.cfg.correctionMax
    requires Constrained(g, error, dt)
    ensures var next := NextIntegrator(g, error, dt);
            var opposes := (g.integrator > 0.0 && error < 0.0) || (g.integrator < 0.0 && error > 0.0);
            && (next - g.integrator) * g.integrator <= 0.0
            && (Abs(next) <= Abs(g.integrator) <==>
                 || !opposes
                 || Abs(Push(g, error, dt)) <= 2.0 * Abs(g.integrator)
                 || Abs(g.integrator) == g.cfg.correctionMax)
  {
    hide Constrained, Push;
    PushSign(g, error, dt);
    SignOfProduct(g.integrator, error);
    assert Integrated(g, error, dt) == g.integrator + Push(g, error, dt) by {
      IntegratedPush(g, error, dt);
    }
    OppositeSigns(NextIntegrator(g, error, dt) - g.integrator, g.integrator);
  }

  lemma IntegratedPush(g: State, error: real, dt: real)
    ensures Integrated(g, error, dt) == g.integrator + Push(g, error, dt)
  {
  }

  const CROSSING_CONFIG := Config(
    1.0, 1.0, 1.0, 1.0, 1.0, 1.0, 1.0, 1.0, 1.0, 1.0, 0.0, 10.0, 1.0, 0.0, 1.0, 1.0, true)

  /** Motors that do not track constrain the controller, and one update of 0.1 s with a large opposing error
    * takes the integrator from 0.1 to the opposite limit. */
  lemma IntegratorCrosses()
    ensures var g := ResetState(CROSSING_CONFIG).(integrator := 0.1, trackingBad := 0.2);
            && ValidConfig(g.cfg) && Constrained(g, -10.0, 0.1)
            && NextIntegrator(g, -10.0, 0.1) == -g.cfg.correctionMax
  {
    var g := ResetState(CROSSING_CONFIG).(integrator := 0.1, trackingBad := 0.2);
    assert Integrated(g, -10.0, 0.1) == -9.9;
  }

  /** The mean of the demanded wheel speeds is the shaped speed, and their difference turns the robot
    * by the shaped and corrected rate: the right side faster to the left. */
  lemma DemandMoves(g: State, correction: real)
    requires ValidConfig(g.cfg)
    ensures var w := WheelDemand(g, correction);
            && (w.left + w.right) * g.cfg.radius * 0.5 == g.linear.velocity
            && (w.right - w.left) * g.cfg.radius == (g.yaw.velocity + correction) * g.cfg.icr * g.cfg.separation
  {
    var turn := (g.yaw.velocity + correction) * g.cfg.icr * g.cfg.separation * 0.5;
    var w := WheelDemand(g, correction);
    assert w.left * g.cfg.radius == g.linear.velocity - turn;
    assert w.right * g.cfg.radius == g.linear.velocity + turn;
  }

  /** Feedback pushes against the error: a robot that turns too slowly to the left has its integrator
    * and its wanted correction moved up, never down, and a robot that turns too fast the other way. */
  lemma PushesAgainstError(g: State, error: real, dt: real)
    requires ValidConfig(g.cfg) && dt > 0.0 && Abs(g.integrator) <= g.cfg.correctionMax
    ensures var integral := NextIntegrator(g, error, dt);
            var wanted := Clamp(Wanted(g.cfg, error, integral), g.cfg.correctionMax);
            && (error >= 0.0 ==> g.integrator <= integral <= wanted)
            && (error <= 0.0 ==> wanted <= integral <= g.integrator)
  {
    hide Constrained;
    if error >= 0.0 {
      MoveSign(g.cfg.yawKi, error, dt);
      MoveSign(g.cfg.yawKp, error, 1.0);
    } else {
      MoveSign(g.cfg.yawKi, -error, dt);
      MoveSign(g.cfg.yawKp, -error, 1.0);
    }
    IntegratorWithin(g, error, dt);
  }

  lemma MoveSign(gain: real, error: real, dt: real)
    requires gain >= 0.0 && error >= 0.0 && dt > 0.0
    ensures gain * error * dt >= 0.0 && gain * -error * dt <= 0.0
  {
    ProductBound(gain, error, 0.0, 0.0);
    ProductBound(gain * error, dt, 0.0, 0.0);
    assert gain * -error * dt == -(gain * error * dt);
  }

  lemma OppositeSigns(x: real, y: real)
    requires (x <= 0.0 && y >= 0.0) || (x >= 0.0 && y <= 0.0)
    ensures x * y <= 0.0
  {
    if x <= 0.0 && y >= 0.0 {
      ProductBound(-x, y, 0.0, 0.0);
    } else {
      ProductBound(x, -y, 0.0, 0.0);
    }
  }

  /** The wheel outputs of an accepted update are the demand of its own state, saturated. */
  lemma UpdateAllocates(root: real -> real, g: State, vx: real, wz: real, gyro: real, trackingGood: bool, dt: real)
    requires ValidConfig(g.cfg)
    ensures var r := Update(root, g, vx, wz, gyro, trackingGood, dt);
            r.Updated? ==>
              && r.state.cfg == g.cfg
              && r.wheels == Allocate(r.state, r.state.correction) && r.state.saturated == r.wheels.saturated
  {
    hide Saturate, Clamp, WheelDemand, Stepped, NextIntegrator, YawError, Wanted, Accepts;
    var r := Update(root, g, vx, wz, gyro, trackingGood, dt);
    if r.Updated? {
      var g1 := r.state.(saturated := g.saturated);
      DemandIgnoresFlag(g1, r.state.correction, r.state.saturated);
      assert g1.(saturated := r.state.saturated) == r.state;
    }
  }

  // ----- Feedback and commands -----

  /** The robot neither coasts to rest nor runs without feedback. */
  predicate Steers(r: State, vx: real, wz: real) {
    r.cfg.yawFeedback && !(vx == 0.0 && wz == 0.0 && Still(r.linear) && Still(r.yaw))
  }

  /** An update with feedback pursues the error of the shaped yaw rate against the gyro. */
  lemma UpdateWithFeedback(root: real -> real, g: State, vx: real, wz: real, gyro: real, trackingGood: bool, dt: real)
    requires ValidConfig(g.cfg)
    requires var r := Update(root, g, vx, wz, gyro, trackingGood, dt); r.Updated? && Steers(r.state, vx, wz)
    ensures var g1 := Shape(root, g, vx, wz, trackingGood, dt);
            var r := Update(root, g, vx, wz, gyro, trackingGood, dt);
            && r == WithFeedback(root, g1, gyro, dt)
            && r.state.linear == g1.linear && r.state.yaw == g1.yaw && r.state.trackingBad == g1.trackingBad
            && r.state.cfg == g.cfg && g1.integrator == g.integrator && g1.correctionProfile == g.correctionProfile
  {
    hide Stepped, Allocate, NextIntegrator, Wanted, YawError, Accepts;
    assert Still(AT_REST);
  }

  /** The yaw error that counts: what the shaped rate is ahead of the gyro, unless it is in the deadband. */
  lemma ErrorOfGyro(g: State, gyro: real)
    ensures var gap := g.yaw.velocity - gyro;
            && (Abs(gap) < g.cfg.deadband ==> YawError(g, gyro) == 0.0)
            && (Abs(gap) >= g.cfg.deadband ==> YawError(g, gyro) == gap)
  {
  }

  lemma Unconstrained(g: State, error: real, dt: real)
    requires ValidConfig(g.cfg) && dt > 0.0 && Abs(g.integrator) <= g.cfg.correctionMax && !Constrained(g, error, dt)
    ensures error > 0.0 && g.cfg.yawKi > 0.0 && g.integrator < g.cfg.correctionMax ==>
      NextIntegrator(g, error, dt) > g.integrator
    ensures error < 0.0 && g.cfg.yawKi > 0.0 && g.integrator > -g.cfg.correctionMax ==>
      NextIntegrator(g, error, dt) < g.integrator
  {
    hide Constrained;
    if g.cfg.yawKi > 0.0 && error > 0.0 {
      StrictPush(g.cfg.yawKi, error, dt);
    } else if g.cfg.yawKi > 0.0 && error < 0.0 {
      StrictPush(g.cfg.yawKi, -error, dt);
    }
  }

  lemma StrictPush(gain: real, error: real, dt: real)
    requires gain > 0.0 && error > 0.0 && dt > 0.0
    ensures gain * error * dt > 0.0 && gain * -error * dt < 0.0
  {
    assert gain * error > 0.0;
    assert gain * error * dt > 0.0;
    assert gain * -error * dt == -(gain * error * dt);
  }

  lemma WantedBeyond(cfg: Config, error: real, integral: real)
    requires ValidConfig(cfg) && Abs(integral) <= cfg.correctionMax && cfg.yawKp > 0.0
    ensures var wanted := Clamp(Wanted(cfg, error, integral), cfg.correctionMax);
            && (error > 0.0 ==> wanted > integral || wanted == cfg.correctionMax)
            && (error < 0.0 ==> wanted < integral || wanted == -cfg.correctionMax)
  {
    if error > 0.0 {
      StrictPush(cfg.yawKp, error, 1.0);
    } else if error < 0.0 {
      StrictPush(cfg.yawKp, -error, 1.0);
    }
  }

  /** Negative feedback, from the gyro to the correction. A robot that turns more slowly to the left than the
    * shaped rate has its integrator moved up, never down: strictly, if the gap is outside the deadband and
    * nothing is constrained. The correction profile then steps toward a value above the integrator. In the
    * deadband nothing moves; too fast a turn is the mirror image. */
  lemma FeedbackOpposesGyro(root: real -> real, g: State, vx: real, wz: real, gyro: real, trackingGood: bool, dt: real)
    returns (wanted: real)
    requires SafeState(g) && 0.0 < dt
    requires var r := Update(root, g, vx, wz, gyro, trackingGood, dt); r.Updated? && Steers(r.state, vx, wz)
    ensures var r := Update(root, g, vx, wz, gyro, trackingGood, dt).state;
            var gap := r.yaw.velocity - gyro;
            var error := if Abs(gap) < g.cfg.deadband then 0.0 else gap;
            var free := !Constrained(r.(integrator := g.integrator), error, dt) && g.cfg.yawKi > 0.0;
            && r.correctionProfile
               == Stepped(root, g.correctionProfile, wanted, g.cfg.correctionAccel, g.cfg.correctionJerk, dt)
            && Abs(wanted) <= g.cfg.correctionMax
            && (gyro < r.yaw.velocity ==> g.integrator <= r.integrator <= wanted)
            && (gyro > r.yaw.velocity ==> wanted <= r.integrator <= g.integrator)
            && (gap == 0.0 || Abs(gap) < g.cfg.deadband ==> wanted == r.integrator == g.integrator)
            && (error > 0.0 && free && g.integrator < g.cfg.correctionMax ==> g.integrator < r.integrator)
            && (error < 0.0 && free && g.integrator > -g.cfg.correctionMax ==> r.integrator < g.integrator)
            && (error > 0.0 && g.cfg.yawKp > 0.0 ==> wanted > r.integrator || wanted == g.cfg.correctionMax)
            && (error < 0.0 && g.cfg.yawKp > 0.0 ==> wanted < r.integrator || wanted == -g.cfg.correctionMax)
  {
    hide Stepped, NextIntegrator, Wanted, YawError, Accepts, Inside, AccelWithin, Update, Shape;
    var g1 := Shape(root, g, vx, wz, trackingGood, dt);
    var r := Update(root, g, vx, wz, gyro, trackingGood, dt).state;
    UpdateWithFeedback(root, g, vx, wz, gyro, trackingGood, dt);
    ErrorOfGyro(g1, gyro);
    var error := YawError(g1, gyro);
    wanted := FeedbackSteps(root, g1, gyro, dt, error);
    ConstrainedAlike(g1, r.(integrator := g.integrator), error, dt);
    PushesAgainstError(g1, error, dt);
    if !Constrained(g1, error, dt) {
      Unconstrained(g1, error, dt);
    }
    if g.cfg.yawKp > 0.0 {
      WantedBeyond(g.cfg, error, r.integrator);
    }
  }

  /** When the integrator is frozen: while a wheel, the correction or, for 200 ms, the motors cannot follow,
    * unless the error takes it back toward zero. Otherwise it takes in the error. */
  lemma IntegratorFreezes(root: real -> real, g: State, vx: real, wz: real, gyro: real, trackingGood: bool, dt: real)
    requires SafeState(g) && 0.0 < dt
    requires var r := Update(root, g, vx, wz, gyro, trackingGood, dt); r.Updated? && Steers(r.state, vx, wz)
    ensures var r := Update(root, g, vx, wz, gyro, trackingGood, dt).state;
            var gap := r.yaw.velocity - gyro;
            var error := if Abs(gap) < g.cfg.deadband then 0.0 else gap;
            var next := Clamp(g.integrator + Times(Times(g.cfg.yawKi, error), dt), g.cfg.correctionMax);
            var raw := Times(g.cfg.yawKp, error) + next;
            var demand := WheelDemand(r, Clamp(raw, g.cfg.correctionMax));
            var unable := Abs(demand.left) > g.cfg.wheelMax || Abs(demand.right) > g.cfg.wheelMax
                          || Abs(raw) > g.cfg.correctionMax || r.trackingBad >= 0.2;
            var opposes := (g.integrator > 0.0 && error < 0.0) || (g.integrator < 0.0 && error > 0.0);
            && r.trackingBad == (if trackingGood then 0.0 else g.trackingBad + dt)
            && r.integrator == if unable && !opposes then g.integrator else next
  {
    hide Stepped, YawError, Accepts, Inside, AccelWithin, Update, WheelDemand, NextIntegrator, Clamp, Abs, Candidate,
         Wanted, Times;
    var g1 := Shape(root, g, vx, wz, trackingGood, dt);
    var r := Update(root, g, vx, wz, gyro, trackingGood, dt).state;
    UpdateWithFeedback(root, g, vx, wz, gyro, trackingGood, dt);
    ErrorOfGyro(g1, gyro);
    var error := YawError(g1, gyro);
    var wanted := FeedbackSteps(root, g1, gyro, dt, error);
    FreezesWhen(g1, error, dt);
    DemandAlike(r, g1, Clamp(Wanted(g1.cfg, error, Candidate(g1, error, dt)), g1.cfg.correctionMax));
    TermsOf(g, g1, error, dt);
  }

  lemma TermsOf(g: State, g1: State, error: real, dt: real)
    requires g1.cfg == g.cfg && g1.integrator == g.integrator
    ensures var next := Clamp(g.integrator + Times(Times(g.cfg.yawKi, error), dt), g.cfg.correctionMax);
            Candidate(g1, error, dt) == next && Wanted(g1.cfg, error, next) == Times(g.cfg.yawKp, error) + next
  {
  }

  lemma FreezesWhen(g: State, error: real, dt: real)
    requires ValidConfig(g.cfg)
    ensures var raw := Wanted(g.cfg, error, Candidate(g, error, dt));
            var demand := WheelDemand(g, Clamp(raw, g.cfg.correctionMax));
            var unable := Abs(demand.left) > g.cfg.wheelMax || Abs(demand.right) > g.cfg.wheelMax
                          || Abs(raw) > g.cfg.correctionMax || g.trackingBad >= 0.2;
            var opposes := (g.integrator > 0.0 && error < 0.0) || (g.integrator < 0.0 && error > 0.0);
            NextIntegrator(g, error, dt) == if unable && !opposes then g.integrator else Candidate(g, error, dt)
  {
    hide Times, WheelDemand, Clamp, Candidate, Wanted;
    SignOfProduct(g.integrator, error);
  }

  lemma ConstrainedAlike(g: State, r: State, error: real, dt: real)
    requires ValidConfig(g.cfg) && r.cfg == g.cfg && r.linear == g.linear && r.yaw == g.yaw
    requires r.trackingBad == g.trackingBad && r.integrator == g.integrator
    ensures Constrained(r, error, dt) == Constrained(g, error, dt)
  {
    assert r.(correction := g.correction, correctionProfile := g.correctionProfile, saturated := g.saturated) == g;
    DemandAlike(r, g, Clamp(Wanted(g.cfg, error, Candidate(g, error, dt)), g.cfg.correctionMax));
    assert Integrated(r, error, dt) == Integrated(g, error, dt);
    hide Saturate, Clamp, WheelDemand, Integrated;
  }

  lemma DemandAlike(r: State, g: State, correction: real)
    requires g.cfg.radius != 0.0 && r.cfg == g.cfg && r.linear == g.linear && r.yaw == g.yaw
    ensures WheelDemand(r, correction) == WheelDemand(g, correction)
  {
  }

  lemma FeedbackSteps(root: real -> real, g: State, gyro: real, dt: real, error: real) returns (wanted: real)
    requires ValidConfig(g.cfg) && WithFeedback(root, g, gyro, dt).Updated? && error == YawError(g, gyro)
    ensures var r := WithFeedback(root, g, gyro, dt).state;
            && r.integrator == NextIntegrator(g, error, dt)
            && wanted == Clamp(Wanted(g.cfg, error, r.integrator), g.cfg.correctionMax)
            && Abs(wanted) <= g.cfg.correctionMax
            && r.correctionProfile
               == Stepped(root, g.correctionProfile, wanted, g.cfg.correctionAccel, g.cfg.correctionJerk, dt)
  {
    hide Stepped, NextIntegrator, Wanted, YawError, Accepts, Allocate;
    var r := WithFeedback(root, g, gyro, dt).state;
    wanted := Clamp(Wanted(g.cfg, error, r.integrator), g.cfg.correctionMax);
  }

  lemma OneCall(root: real -> real, p: Profile, target: real, accelLimit: real, j: real, dt: real)
    ensures Calls(root, p, target, accelLimit, j, [dt]) == Stepped(root, p, target, accelLimit, j, dt)
    ensures Calls(root, p, target, accelLimit, j, []) == p
  {
    hide Stepped;
    assert [dt][..0] == [];
  }

  /** A profile without acceleration moves strictly toward its target and does not reach it. */
  lemma StepsToward(root: real -> real, velocity: real, target: real, accelLimit: real, j: real, dt: real)
    requires IsSqrt(root) && accelLimit > 0.0 && j > 0.0 && 0.0 < dt <= MAX_DT
    ensures var q := Stepped(root, Profile(velocity, 0.0), target, accelLimit, j, dt);
            && (velocity < target ==> velocity < q.velocity < target)
            && (velocity > target ==> target < q.velocity < velocity)
  {
    hide Stepped, Calls, IsSqrt;
    OneCall(root, Profile(velocity, 0.0), target, accelLimit, j, dt);
    if velocity < target {
      NoOvershoot(root, velocity, target, accelLimit, j, [dt]);
      assert [dt][..0] == [];
    } else if velocity > target {
      NoUndershoot(root, velocity, target, accelLimit, j, [dt]);
      assert [dt][..0] == [];
    }
  }

  /** The shaped velocities go the commanded way: while something is commanded, a velocity without acceleration
    * moves strictly toward its command, cut to the limit, and stays short of it. */
  lemma GoesCommandedWay(root: real -> real, g: State, vx: real, wz: real, gyro: real, trackingGood: bool, dt: real)
    requires IsSqrt(root) && SafeState(g) && 0.0 < dt <= MAX_DT && (vx != 0.0 || wz != 0.0)
    ensures var r := Update(root, g, vx, wz, gyro, trackingGood, dt);
            var v := if vx > g.cfg.vxMax then g.cfg.vxMax else if vx < -g.cfg.vxMax then -g.cfg.vxMax else vx;
            var w := if wz > g.cfg.wzMax then g.cfg.wzMax else if wz < -g.cfg.wzMax then -g.cfg.wzMax else wz;
            && r.Updated?
            && (g.linear.acceleration == 0.0 ==>
                 && (g.linear.velocity < v ==> g.linear.velocity < r.state.linear.velocity < v)
                 && (g.linear.velocity > v ==> v < r.state.linear.velocity < g.linear.velocity))
            && (g.yaw.acceleration == 0.0 ==>
                 && (g.yaw.velocity < w ==> g.yaw.velocity < r.state.yaw.velocity < w)
                 && (g.yaw.velocity > w ==> w < r.state.yaw.velocity < g.yaw.velocity))
  {
    UpdateSafe(root, g, vx, wz, gyro, trackingGood, dt);
    CommandsShape(root, g, vx, wz, gyro, trackingGood, dt);
    CommandCut(vx, g.cfg.vxMax);
    CommandCut(wz, g.cfg.wzMax);
    hide Stepped, Update, Clamp, Inside, IsSqrt;
    if g.linear.acceleration == 0.0 {
      assert g.linear == Profile(g.linear.velocity, 0.0);
      StepsToward(root, g.linear.velocity, Clamp(vx, g.cfg.vxMax), g.cfg.axMax, g.cfg.jxMax, dt);
    }
    if g.yaw.acceleration == 0.0 {
      assert g.yaw == Profile(g.yaw.velocity, 0.0);
      StepsToward(root, g.yaw.velocity, Clamp(wz, g.cfg.wzMax), g.cfg.alphaMax, g.cfg.jalphaMax, dt);
    }
  }

  lemma CommandCut(x: real, limit: real)
    requires limit > 0.0
    ensures Clamp(x, limit) == if x > limit then limit else if x < -limit then -limit else x
  {
  }

  lemma CommandsShape(root: real -> real, g: State, vx: real, wz: real, gyro: real, trackingGood: bool, dt: real)
    requires ValidConfig(g.cfg) && (vx != 0.0 || wz != 0.0)
    requires Update(root, g, vx, wz, gyro, trackingGood, dt).Updated?
    ensures var r := Update(root, g, vx, wz, gyro, trackingGood, dt).state;
            && r.linear == Stepped(root, g.linear, Clamp(vx, g.cfg.vxMax), g.cfg.axMax, g.cfg.jxMax, dt)
            && r.yaw == Stepped(root, g.yaw, Clamp(wz, g.cfg.wzMax), g.cfg.alphaMax, g.cfg.jalphaMax, dt)
  {
    hide Stepped, Allocate, NextIntegrator, Wanted, YawError, Accepts;
  }

  /** Without feedback, or when the robot comes to rest without a command, the integrator is emptied and the
    * correction fades: its profile steps toward zero and is put to rest once it is as good as there. A robot
    * that comes to rest has its shaped velocities put to zero. */
  lemma CorrectionFades(root: real -> real, g: State, vx: real, wz: real, gyro: real, trackingGood: bool, dt: real)
    requires ValidConfig(g.cfg)
    requires var r := Update(root, g, vx, wz, gyro, trackingGood, dt); r.Updated? && !Steers(r.state, vx, wz)
    ensures var r := Update(root, g, vx, wz, gyro, trackingGood, dt).state;
            var faded := Stepped(root, g.correctionProfile, 0.0, g.cfg.correctionAccel, g.cfg.correctionJerk, dt);
            && r.integrator == 0.0
            && r.correctionProfile == (if Abs(faded.velocity) < 0.0001 && Abs(faded.acceleration) < 0.001
                                       then AT_REST else faded)
            && (vx == 0.0 && wz == 0.0 && Still(r.linear) && Still(r.yaw) ==> r.linear == r.yaw == AT_REST)
  {
    hide Stepped, Allocate, NextIntegrator, Wanted, YawError, Accepts;
  }

  // ----- Runs -----

  datatype Input = Input(vx: real, wz: real, gyro: real, trackingGood: bool, dt: real)

  function Run(root: real -> real, g: State, inputs: seq<Input>): State
    requires ValidConfig(g.cfg)
    ensures Run(root, g, inputs).cfg == g.cfg
  {
    if inputs == [] then g
    else
      var before := Run(root, g, inputs[..|inputs| - 1]);
      var i := inputs[|inputs| - 1];
      match Update(root, before, i.vx, i.wz, i.gyro, i.trackingGood, i.dt)
      case Rejected => before
      case Updated(state, _) => state
  }

  /** What the update with the last input of a run gives. */
  function LastResult(root: real -> real, g: State, inputs: seq<Input>): Result
    requires ValidConfig(g.cfg) && inputs != []
  {
    var i := inputs[|inputs| - 1];
    Update(root, Run(root, g, inputs[..|inputs| - 1]), i.vx, i.wz, i.gyro, i.trackingGood, i.dt)
  }

  /** Over any run from reset, with any commands, gyro values and elapsed times, every profile, the
    * integrator and the correction stay within their configured limits; every update whose elapsed time is
    * in range is accepted, with wheel outputs within the limit and in the ratio of the demand. */
  lemma {:induction false} RunSafe(root: real -> real, cfg: Config, inputs: seq<Input>)
    requires IsSqrt(root) && ValidConfig(cfg)
    ensures SafeState(Run(root, ResetState(cfg), inputs)) && Bounded(Run(root, ResetState(cfg), inputs))
    ensures inputs != [] ==>
      var r := LastResult(root, ResetState(cfg), inputs);
      && (r.Updated? <==> 0.0 < inputs[|inputs| - 1].dt <= MAX_DT)
      && (r.Updated? ==>
           WithinRatio(WheelDemand(r.state, r.state.correction), r.wheels, cfg.wheelMax)
           && Abs(r.wheels.left) <= cfg.wheelMax && Abs(r.wheels.right) <= cfg.wheelMax)
  {
    hide Update, SafeState, Bounded;
    if inputs == [] {
      ResetIsSafe(cfg);
    } else {
      var i := inputs[|inputs| - 1];
      RunSafe(root, cfg, inputs[..|inputs| - 1]);
      UpdateSafe(root, Run(root, ResetState(cfg), inputs[..|inputs| - 1]), i.vx, i.wz, i.gyro, i.trackingGood, i.dt);
    }
    SafeIsBounded(Run(root, ResetState(cfg), inputs));
  }
}
