/** The serial links to the four motors and the clock: whatever they do is outside the model. */
module WheelBus {
  import opened Common

  datatype Frame = Velocity(wheel: nat, units: int) | Brake(wheel: nat)

  datatype Feedback = Feedback(error: nat, speed: int)

  class Bus {
    var now: nat
    ghost var frames: seq<Frame>

    constructor ()
      ensures frames == []
    {
      now := *;
      frames := [];
    }

    method Clock() returns (t: nat)
      modifies `now
      ensures t == now >= old(now)
    {
      var later: int := *;
      if later > now {
        now := later;
      }
      t := now;
    }

    /** Sends a frame; the motor may answer anything, or nothing. */
    method Exchange(f: Frame) returns (reply: Option<Feedback>)
      modifies this
      ensures frames == old(frames) + [f] && now >= old(now)
    {
      frames := frames + [f];
      var later: int := *;
      if later > now {
        now := later;
      }
      reply := *;
    }
  }
}

/** The wheel driver: requests, shaping, allocation, and the interlock that brakes on any doubt. */
module Wheels {
  import opened Common
  import opened WheelBus
  import G = Glide
  import GlideSafety
  import GyroYaw
  import M = Motion

  const WHEEL_COUNT: nat := 4
  const DIRECTIONS: seq<real> := [1.0, -1.0, 1.0, -1.0]
  const LEFT: seq<bool> := [true, false, true, false]
  const TWO_PI := 6.283185307179586
  const SPEED_SCALE := 1.0
  const FEEDBACK_MAX_AGE_US: nat := 100000
  const PERIOD_US: nat := 20000
  const PERIOD_S := 0.02

  /** Rounds to the nearest integer, halves away from zero. */
  function Round(x: real): int {
    if x >= 0.0 then (x + 0.5).Floor else -((-x + 0.5).Floor)
  }

  function Limited(x: int, limit: int): int {
    if x > limit then limit else if x < -limit then -limit else x
  }

  /** The largest speed a frame may carry, in the motor's units of 0.1 RPM. */
  function UnitCap(wheelMax: real, maxRaw: nat): int {
    var limit := Round(wheelMax * M.Abs(SPEED_SCALE) * 600.0 / TWO_PI);
    if limit > maxRaw then maxRaw else limit
  }

  function Units(wheel: nat, radPerSec: real): int
    requires wheel < WHEEL_COUNT
  {
    Round(radPerSec * DIRECTIONS[wheel] * SPEED_SCALE * 60.0 / TWO_PI * 10.0)
  }

  /** The speed meant for a wheel: that of its side. */
  function Side(wheel: nat, left: real, right: real): real
    requires wheel < WHEEL_COUNT
  {
    if LEFT[wheel] then left else right
  }

  /** The frame that asks a wheel for the speed of its side. */
  function Command(wheel: nat, left: real, right: real, cap: int): Frame
    requires wheel < WHEEL_COUNT
  {
    Velocity(wheel, Limited(Units(wheel, Side(wheel, left, right)), cap))
  }

  lemma RoundNearest(x: real)
    ensures M.Abs(Round(x) as real - x) <= 0.5
    ensures Round(-x) == -Round(x)
  {
  }

  lemma RoundMonotone(x: real, y: real)
    requires x <= y
    ensures Round(x) <= Round(y)
  {
  }

  /** The nearest unit to a value, or the largest the driver can send if the value is beyond that. */
  predicate NearestSendable(units: int, exact: real, most: int) {
    || M.Abs(units as real - exact) <= 0.5
    || (units == most && exact > most as real)
    || (units == -most && exact < -(most as real))
  }

  lemma LimitedNearest(exact: real, most: real, maxRaw: nat)
    requires -most <= exact <= most
    ensures var limit: int := if Round(most) > maxRaw then maxRaw else Round(most);
            var units := Limited(Round(exact), limit);
            && M.Abs(units as real) <= M.Abs(Round(exact) as real) <= M.Abs(exact) + 0.5
            && (units != Round(exact) ==> M.Abs(units as real) == maxRaw as real)
            && NearestSendable(units, exact, maxRaw)
  {
    RoundNearest(exact);
    RoundNearest(most);
    RoundMonotone(exact, most);
    RoundMonotone(-most, exact);
    hide Round;
  }

  /** Within the wheel limit, a frame asks for the speed of its side to the nearest unit, unless the
    * driver's own frame limit is lower. */
  lemma CommandNearest(wheel: nat, radPerSec: real, wheelMax: real, maxRaw: nat)
    requires wheel < WHEEL_COUNT && M.Abs(radPerSec) <= wheelMax
    ensures var exact := radPerSec * DIRECTIONS[wheel] * 600.0 / TWO_PI;
            var units := Limited(Units(wheel, radPerSec), UnitCap(wheelMax, maxRaw));
            && M.Abs(units as real) <= M.Abs(Units(wheel, radPerSec) as real) <= M.Abs(exact) + 0.5
            && (units != Units(wheel, radPerSec) ==> M.Abs(units as real) == maxRaw as real)
            && NearestSendable(units, exact, maxRaw)
  {
    hide Round, Limited, NearestSendable;
    var exact := radPerSec * DIRECTIONS[wheel] * 600.0 / TWO_PI;
    var most := wheelMax * 600.0 / TWO_PI;
    assert exact == radPerSec * 600.0 / TWO_PI || exact == -(radPerSec * 600.0 / TWO_PI);
    assert Units(wheel, radPerSec) == Round(exact);
    LimitedNearest(exact, most, maxRaw);
  }

  /** One velocity frame for each of the first wheels, for the speed of its side and within the cap. */
  ghost predicate VelocityFrames(frames: seq<Frame>, cap: int, left: real, right: real) {
    && |frames| <= WHEEL_COUNT
    && forall k :: 0 <= k < |frames| ==> frames[k] == Command(k, left, right, cap) && -cap <= frames[k].units <= cap
  }

  /** Each frame asks its wheel for the speed of its side, in the direction the motor is mounted, to the nearest
    * unit of 0.1 RPM, unless that is beyond what the driver can send. */
  ghost predicate Asks(frames: seq<Frame>, left: real, right: real, maxRaw: nat) {
    && |frames| <= WHEEL_COUNT
    && forall k :: 0 <= k < |frames| ==>
         && frames[k].Velocity? && frames[k].wheel == k
         && var exact := (if LEFT[k] then left else right) * DIRECTIONS[k] * 600.0 / TWO_PI;
            NearestSendable(frames[k].units, exact, maxRaw)
  }

  lemma FramesAsk(frames: seq<Frame>, left: real, right: real, wheelMax: real, maxRaw: nat)
    requires VelocityFrames(frames, UnitCap(wheelMax, maxRaw), left, right)
    requires M.Abs(left) <= wheelMax && M.Abs(right) <= wheelMax
    ensures Asks(frames, left, right, maxRaw)
  {
    hide Limited, Units, UnitCap, NearestSendable;
    forall k | 0 <= k < |frames|
      ensures var exact := (if LEFT[k] then left else right) * DIRECTIONS[k] * 600.0 / TWO_PI;
              NearestSendable(frames[k].units, exact, maxRaw)
    {
      CommandNearest(k, if LEFT[k] then left else right, wheelMax, maxRaw);
    }
  }

  // ----- The motion of the body -----

  /** The mean of the speeds of the wheels on one side. */
  function SideMean(speeds: seq<real>, left: bool): real
    requires |speeds| == WHEEL_COUNT
  {
    var sum := (if LEFT[0] == left then speeds[0] else 0.0) + (if LEFT[1] == left then speeds[1] else 0.0)
             + (if LEFT[2] == left then speeds[2] else 0.0) + (if LEFT[3] == left then speeds[3] else 0.0);
    sum / 2.0
  }

  /** The body velocity that the speeds of the wheels over ground amount to: half the sum of the sides, and
    * how much faster the right side is, over the distance between them. */
  function TwistLinear(speeds: seq<real>): real
    requires |speeds| == WHEEL_COUNT
  {
    (SideMean(speeds, true) + SideMean(speeds, false)) * 0.5
  }

  function TwistAngular(speeds: seq<real>, separation: real): real
    requires |speeds| == WHEEL_COUNT && separation != 0.0
  {
    (SideMean(speeds, false) - SideMean(speeds, true)) / separation
  }

  /** Wheel rates times the radius. */
  function OverGround(rates: seq<real>, radius: real): (speeds: seq<real>)
    ensures |speeds| == |rates|
  {
    seq(|rates|, i requires 0 <= i < |rates| => rates[i] * radius)
  }

  /** The wheels turn the body as planned, all speeds scaled alike; by one unless a wheel is at its limit. */
  ghost predicate MovesAs(rates: seq<real>, plan: G.State, s: real) {
    && |rates| == WHEEL_COUNT && plan.cfg.separation > 0.0
    && 0.0 < s <= 1.0 && (plan.saturated <==> s < 1.0)
    && TwistLinear(OverGround(rates, plan.cfg.radius)) == s * plan.linear.velocity
    && TwistAngular(OverGround(rates, plan.cfg.radius), plan.cfg.separation)
       == s * ((plan.yaw.velocity + plan.correction) * plan.cfg.icr)
  }

  lemma SidesTwist(rates: seq<real>, cfg: G.Config, w: G.Wheels)
    requires |rates| == WHEEL_COUNT && cfg.separation > 0.0
    requires forall k :: 0 <= k < WHEEL_COUNT ==> rates[k] == if LEFT[k] then w.left else w.right
    ensures TwistLinear(OverGround(rates, cfg.radius)) == LinearOf(cfg, w)
    ensures TwistAngular(OverGround(rates, cfg.radius), cfg.separation) == AngularOf(cfg, w)
  {
    var speeds := OverGround(rates, cfg.radius);
    assert LEFT[0] && !LEFT[1] && LEFT[2] && !LEFT[3];
    SideMeanIs(speeds, w.left * cfg.radius, w.right * cfg.radius);
    assert w.right * cfg.radius - w.left * cfg.radius == (w.right - w.left) * cfg.radius;
    assert w.left * cfg.radius + w.right * cfg.radius == (w.left + w.right) * cfg.radius;
  }

  lemma SideMeanIs(speeds: seq<real>, l: real, r: real)
    requires |speeds| == WHEEL_COUNT
    requires speeds[0] == speeds[2] == l && speeds[1] == speeds[3] == r
    ensures SideMean(speeds, true) == l && SideMean(speeds, false) == r
  {
  }

  /** What an accepted update plans is what the wheels make of it. */
  lemma PlanMoves(rates: seq<real>, plan: G.State, w: G.Wheels) returns (s: real)
    requires |rates| == WHEEL_COUNT && G.ValidConfig(plan.cfg)
    requires w == G.Allocate(plan, plan.correction) && plan.saturated == w.saturated
    requires forall k :: 0 <= k < WHEEL_COUNT ==> rates[k] == if LEFT[k] then w.left else w.right
    ensures MovesAs(rates, plan, s)
  {
    hide LinearOf, AngularOf, Demand, OverGround, TwistLinear, TwistAngular, G.Saturate, G.WheelDemand, M.Times;
    var linear, angular := plan.linear.velocity, (plan.yaw.velocity + plan.correction) * plan.cfg.icr;
    DemandOfPlan(plan);
    SaturatesWhen(Demand(plan.cfg, linear, angular), plan.cfg.wheelMax);
    s := CurvatureStays(plan.cfg, linear, angular);
    SidesTwist(rates, plan.cfg, w);
    TimesCommutes(linear, s);
    TimesCommutes(angular, s);
  }

  lemma DemandOfPlan(plan: G.State)
    requires plan.cfg.radius != 0.0
    ensures G.WheelDemand(plan, plan.correction)
            == Demand(plan.cfg, plan.linear.velocity, (plan.yaw.velocity + plan.correction) * plan.cfg.icr)
  {
  }

  lemma SaturatesWhen(w: G.Wheels, limit: real)
    requires limit > 0.0
    ensures G.Saturate(w, limit).saturated <==> M.Max(M.Abs(w.left), M.Abs(w.right)) > limit
  {
    hide M.Times;
  }

  lemma TimesCommutes(x: real, s: real)
    ensures M.Times(x, s) == s * x
  {
  }

  /** The brake frames to the online ones of the first `n` wheels. */
  function BrakeFrames(online: seq<bool>, n: nat): (frames: seq<Frame>)
    requires n <= |online|
    ensures forall f :: f in frames ==> f.Brake?
  {
    if n == 0 then []
    else if online[n - 1] then BrakeFrames(online, n - 1) + [Brake(n - 1)] else BrakeFrames(online, n - 1)
  }

  lemma RoundCap(wheelMax: real, maxRaw: nat)
    requires wheelMax >= 0.0
    ensures UnitCap(wheelMax, maxRaw) >= 0
  {
  }

  /** Wheel rates for a body velocity. */
  function Demand(cfg: G.Config, linear: real, angular: real): G.Wheels
    requires cfg.radius != 0.0
  {
    var turn := angular * cfg.separation * 0.5;
    G.Wheels((linear - turn) / cfg.radius, (linear + turn) / cfg.radius, false)
  }

  function LinearOf(cfg: G.Config, w: G.Wheels): real {
    (w.left + w.right) * cfg.radius * 0.5
  }

  function AngularOf(cfg: G.Config, w: G.Wheels): real
    requires cfg.separation != 0.0
  {
    (w.right - w.left) * cfg.radius / cfg.separation
  }

  /** The wheel rates give back the body velocity they were made from. */
  lemma DemandInverts(cfg: G.Config, linear: real, angular: real)
    requires cfg.radius > 0.0 && cfg.separation > 0.0
    ensures LinearOf(cfg, Demand(cfg, linear, angular)) == linear
    ensures AngularOf(cfg, Demand(cfg, linear, angular)) == angular
  {
    var turn := angular * cfg.separation * 0.5;
    var w := Demand(cfg, linear, angular);
    assert w.left * cfg.radius == linear - turn && w.right * cfg.radius == linear + turn;
    assert (w.right - w.left) * cfg.radius == angular * cfg.separation;
  }

  lemma ScalingCommutes(cfg: G.Config, w: G.Wheels, s: real, flag: bool)
    requires cfg.radius > 0.0 && cfg.separation > 0.0
    ensures var v := G.Wheels(M.Times(w.left, s), M.Times(w.right, s), flag);
            && LinearOf(cfg, v) == M.Times(LinearOf(cfg, w), s)
            && AngularOf(cfg, v) == M.Times(AngularOf(cfg, w), s)
  {
    assert M.Times(w.left, s) + M.Times(w.right, s) == (w.left + w.right) * s;
    assert (w.right - w.left) * s * cfg.radius == (w.right - w.left) * cfg.radius * s;
    assert (w.right - w.left) * cfg.radius * s / cfg.separation == (w.right - w.left) * cfg.radius / cfg.separation * s;
  }

  /** Saturation scales both parts of the body velocity alike, so the curvature stays; the scale is
    * one exactly when no wheel is over its limit. */
  lemma CurvatureStays(cfg: G.Config, linear: real, angular: real) returns (s: real)
    requires cfg.radius > 0.0 && cfg.separation > 0.0 && cfg.wheelMax > 0.0
    ensures var d := Demand(cfg, linear, angular);
            var w := G.Saturate(d, cfg.wheelMax);
            && 0.0 < s <= 1.0
            && (s == 1.0 <==> M.Max(M.Abs(d.left), M.Abs(d.right)) <= cfg.wheelMax)
            && LinearOf(cfg, w) == M.Times(linear, s) && AngularOf(cfg, w) == M.Times(angular, s)
  {
    hide M.Times;
    var d := Demand(cfg, linear, angular);
    var peak := M.Max(M.Abs(d.left), M.Abs(d.right));
    DemandInverts(cfg, linear, angular);
    if peak > cfg.wheelMax {
      s := cfg.wheelMax / peak;
      ScalingCommutes(cfg, d, s, true);
      FractionBelowOne(cfg.wheelMax, peak);
    } else {
      s := 1.0;
      TimesOne(linear);
      TimesOne(angular);
    }
  }

  lemma FractionBelowOne(a: real, b: real)
    requires 0.0 < a < b
    ensures 0.0 < a / b < 1.0
  {
    var s := a / b;
    assert (s - 1.0) * b == a - b;
    if s >= 1.0 {
      GyroYaw.ProductSign(s - 1.0, b);
    }
  }

  lemma TimesOne(x: real)
    ensures M.Times(x, 1.0) == x
  {
  }

  datatype Outcome = NotYet | Holding | Driving | Aborted

  class Drive {
    const bus: Bus
    const controller: G.Controller
    const gyro: GyroYaw.Gyro
    const root: real -> real
    const maxRaw: nat
    var online: seq<bool>
    var braked: seq<bool>
    var target: seq<real>
    var measured: seq<real>
    var measuredUs: seq<nat>
    var measuredValid: seq<bool>
    var requestedLinear: real
    var requestedAngular: real
    var motionEnabled: bool
    var lastUpdateUs: nat
    var nextUpdateUs: nat

    /** At start-up the motors that answered the probe are online and braked. */
    constructor (bus: Bus, root: real -> real, maxRaw: nat, cfg: G.Config, gyroCfg: GyroYaw.Config, answered: seq<bool>)
      requires |answered| == WHEEL_COUNT && G.ValidConfig(cfg) && M.IsSqrt(root)
      ensures Valid() && Stopped() && AllBraked() && online == answered
      ensures this.bus == bus && fresh(controller) && fresh(gyro)
    {
      this.bus, this.root, this.maxRaw := bus, root, maxRaw;
      controller := new G.Controller(cfg);
      gyro := new GyroYaw.Gyro(gyroCfg);
      online, braked := answered, answered;
      target, measured := [0.0, 0.0, 0.0, 0.0], [0.0, 0.0, 0.0, 0.0];
      measuredUs, measuredValid := [0, 0, 0, 0], [false, false, false, false];
      requestedLinear, requestedAngular, motionEnabled := 0.0, 0.0, false;
      lastUpdateUs, nextUpdateUs := 0, 0;
      new;
      GlideSafety.ResetIsSafe(cfg);
    }

    ghost predicate Sized()
      reads this
    {
      && |online| == |braked| == |target| == WHEEL_COUNT
      && |measured| == |measuredUs| == |measuredValid| == WHEEL_COUNT
    }

    /** Nothing is requested and the profiles are at rest. */
    ghost predicate Stopped()
      reads this, controller
    {
      && !motionEnabled && requestedLinear == 0.0 && requestedAngular == 0.0
      && controller.g == G.ResetState(controller.g.cfg)
    }

    ghost predicate Valid()
      reads this, controller, gyro
    {
      && Sized() && M.IsSqrt(root)
      && gyro.Valid()
      && GlideSafety.SafeState(controller.g)
      && (!motionEnabled ==> Stopped())
      && (motionEnabled ==> forall i :: 0 <= i < WHEEL_COUNT ==> !braked[i])
    }

    /** Every wheel has answered without error recently. */
    predicate Fresh(now: nat)
      requires |online| == |measuredUs| == |measuredValid| == WHEEL_COUNT
      reads this
    {
      forall i :: 0 <= i < WHEEL_COUNT ==>
        online[i] && measuredValid[i] && measuredUs[i] <= now <= measuredUs[i] + FEEDBACK_MAX_AGE_US
    }

    predicate YawFresh(now: nat)
      reads this, gyro
    {
      gyro.calibrated && gyro.sampleValid && gyro.lastSampleUs <= now <= gyro.lastSampleUs + gyro.cfg.maxGapUs
    }

    /** The robot may move only on a calibrated, fresh gyro and four fresh, error-free replies. */
    ghost predicate Gate(now: nat)
      requires Sized()
      reads this, gyro
    {
      YawFresh(now) && Fresh(now)
    }

    ghost predicate AllBraked()
      requires Sized()
      reads this
    {
      forall i :: 0 <= i < WHEEL_COUNT && online[i] ==> braked[i] && target[i] == 0.0
    }

    /** The ground speed that a motor reports. */
    function Reported(i: nat, feedback: Feedback): real
      requires i < WHEEL_COUNT
      reads controller
    {
      if feedback.speed == 0 then 0.0
      else feedback.speed as real * (TWO_PI / 600.0) * DIRECTIONS[i] * controller.g.cfg.radius
    }

    method SaveFeedback(i: nat, reply: Option<Feedback>)
      requires Sized() && i < WHEEL_COUNT && ValidRadius()
      modifies `measured, `measuredUs, `measuredValid, bus`now
      ensures Sized() && bus.now >= old(bus.now)
      ensures measuredValid == old(measuredValid)[i := reply.Some? && reply.value.error == 0]
      ensures measuredUs == if measuredValid[i] then old(measuredUs)[i := bus.now] else old(measuredUs)
      ensures measured == if measuredValid[i] then old(measured)[i := Reported(i, reply.value)] else old(measured)
    {
      measuredValid := measuredValid[i := reply.Some? && reply.value.error == 0];
      if measuredValid[i] {
        measured := measured[i := Reported(i, reply.value)];
        var t := bus.Clock();
        measuredUs := measuredUs[i := t];
      }
    }

    predicate ValidRadius()
      reads controller
    {
      controller.g.cfg.radius > 0.0
    }

    method BrakeWheel(index: nat)
      requires Valid()
      modifies this, controller, bus
      ensures bus.now >= old(bus.now) && online == old(online) && controller.g.cfg == old(controller.g.cfg)
      ensures index >= WHEEL_COUNT ==> Valid() && braked == old(braked) && bus.frames == old(bus.frames)
      ensures index < WHEEL_COUNT ==>
        && Valid() && Stopped()
        && bus.frames == old(bus.frames) + (if online[index] then [Brake(index)] else [])
        && braked == (if online[index] then old(braked)[index := true] else old(braked))
        && target == (if online[index] then old(target)[index := 0.0] else old(target))
    {
      hide GlideSafety.SafeState, GyroYaw.Gyro.Valid;
      if index >= WHEEL_COUNT {
        return;
      }
      Halt();
      if !online[index] {
        return;
      }
      target := target[index := 0.0];
      braked := braked[index := true];
      var reply := bus.Exchange(Brake(index));
      SaveFeedback(index, reply);
    }

    /** Ends all motion: no request, the profiles at rest. */
    method Halt()
      requires Valid()
      modifies this`motionEnabled, this`requestedLinear, this`requestedAngular, this`lastUpdateUs, this`nextUpdateUs,
        controller, bus`now
      ensures Valid() && Stopped() && ValidRadius()
      ensures bus.now >= old(bus.now) && controller.g.cfg == old(controller.g.cfg)
    {
      hide GlideSafety.SafeState, GyroYaw.Gyro.Valid;
      SafeConfig(controller.g);
      motionEnabled := false;
      requestedLinear, requestedAngular := 0.0, 0.0;
      controller.Reset();
      GlideSafety.ResetIsSafe(controller.g.cfg);
      lastUpdateUs := 0;
      var t := bus.Clock();
      nextUpdateUs := t + PERIOD_US;
    }

    lemma SafeConfig(g: G.State)
      requires GlideSafety.SafeState(g)
      ensures G.ValidConfig(g.cfg)
    {
    }

    method BrakeAll()
      requires Valid()
      modifies this, controller, bus
      ensures bus.now >= old(bus.now) && online == old(online) && controller.g.cfg == old(controller.g.cfg)
      ensures Valid() && Stopped() && AllBraked()
      ensures bus.frames == old(bus.frames) + BrakeFrames(online, WHEEL_COUNT)
    {
      hide GlideSafety.SafeState, GyroYaw.Gyro.Valid, G.ResetState;
      var i := 0;
      while i < WHEEL_COUNT
        invariant i <= WHEEL_COUNT && Valid() && (i > 0 ==> Stopped())
        invariant bus.now >= old(bus.now) && online == old(online) && controller.g.cfg == old(controller.g.cfg)
        invariant forall k :: 0 <= k < i && online[k] ==> braked[k] && target[k] == 0.0
        invariant bus.frames == old(bus.frames) + BrakeFrames(online, i)
      {
        BrakeWheel(i);
        i := i + 1;
      }
    }

    method SendSpeed(index: nat, radPerSec: real) returns (ok: bool)
      requires Sized() && index < WHEEL_COUNT && ValidRadius() && controller.g.cfg.wheelMax > 0.0
      modifies this`measured, this`measuredUs, this`measuredValid, bus
      ensures Sized() && bus.now >= old(bus.now)
      ensures !online[index] ==> !ok && bus.frames == old(bus.frames) && measuredValid == old(measuredValid)
      ensures online[index] ==>
        && ok == measuredValid[index]
        && measuredValid == old(measuredValid)[index := ok]
        && measuredUs == (if ok then old(measuredUs)[index := bus.now] else old(measuredUs))
        && |bus.frames| == |old(bus.frames)| + 1 && bus.frames[..|bus.frames| - 1] == old(bus.frames)
        && bus.frames[|bus.frames| - 1] == Velocity(index, Limited(Units(index, radPerSec), Cap()))
    {
      hide Units, UnitCap;
      if !online[index] {
        return false;
      }
      var units := Limited(Units(index, radPerSec), Cap());
      var reply := bus.Exchange(Velocity(index, units));
      SaveFeedback(index, reply);
      ok := measuredValid[index];
    }

    function Cap(): int
      reads controller
    {
      UnitCap(controller.g.cfg.wheelMax, maxRaw)
    }

    /** Sends each wheel its speed; the first silent or faulty wheel stops all of them. */
    method SendAll(left: real, right: real) returns (ghost sent: seq<Frame>)
      requires Valid() && motionEnabled && forall i :: 0 <= i < WHEEL_COUNT ==> online[i]
      modifies this, controller, bus
      ensures Valid() && online == old(online) && controller.g.cfg == old(controller.g.cfg)
      ensures VelocityFrames(sent, Cap(), left, right) && sent != []
      ensures if motionEnabled
              then bus.frames == old(bus.frames) + sent && |sent| == WHEEL_COUNT && controller.g == old(controller.g)
                   && requestedLinear == old(requestedLinear) && requestedAngular == old(requestedAngular)
                   && lastUpdateUs == old(lastUpdateUs) && nextUpdateUs == old(nextUpdateUs)
                   && (forall i :: 0 <= i < WHEEL_COUNT ==> target[i] == if LEFT[i] then left else right)
                   && (forall i :: 0 <= i < WHEEL_COUNT ==> measuredValid[i] && measuredUs[i] >= old(bus.now))
              else bus.frames == old(bus.frames) + sent + BrakeFrames(online, WHEEL_COUNT) && AllBraked()
    {
      hide GlideSafety.SafeState, GyroYaw.Gyro.Valid, UnitCap, Units;
      SafeConfig(controller.g);
      RoundCap(controller.g.cfg.wheelMax, maxRaw);
      sent := [];
      var i := 0;
      while i < WHEEL_COUNT
        invariant i == |sent| <= WHEEL_COUNT && Valid() && motionEnabled && ValidRadius()
        invariant online == old(online) && controller.g == old(controller.g) && bus.now >= old(bus.now)
        invariant requestedLinear == old(requestedLinear) && requestedAngular == old(requestedAngular)
        invariant lastUpdateUs == old(lastUpdateUs) && nextUpdateUs == old(nextUpdateUs)
        invariant VelocityFrames(sent, Cap(), left, right) && bus.frames == old(bus.frames) + sent
        invariant forall k :: 0 <= k < i ==> target[k] == if LEFT[k] then left else right
        invariant forall k :: 0 <= k < i ==> measuredValid[k] && measuredUs[k] >= old(bus.now)
      {
        target := target[i := if LEFT[i] then left else right];
        if online[i] && !braked[i] {
          var ok := SendSpeed(i, target[i]);
          sent := sent + [bus.frames[|bus.frames| - 1]];
          assert bus.frames == old(bus.frames) + sent;
          if !ok {
            BrakeAll();
            return;
          }
        }
        i := i + 1;
      }
    }

    /** While no motion is enabled, every tick brakes every online wheel again. */
    method HoldBrakes(now: nat)
      requires Valid() && !motionEnabled
      modifies this`nextUpdateUs, this`measured, this`measuredUs, this`measuredValid, bus
      ensures Valid() && Stopped()
      ensures bus.frames == old(bus.frames) + BrakeFrames(online, WHEEL_COUNT)
    {
      hide GlideSafety.SafeState, GyroYaw.Gyro.Valid, G.ResetState;
      SafeConfig(controller.g);
      nextUpdateUs := now + PERIOD_US;
      var i := 0;
      while i < WHEEL_COUNT
        invariant i <= WHEEL_COUNT && Valid() && Stopped() && ValidRadius()
        invariant bus.frames == old(bus.frames) + BrakeFrames(online, i)
      {
        if online[i] {
          var reply := bus.Exchange(Brake(i));
          SaveFeedback(i, reply);
        }
        i := i + 1;
      }
    }

    /** A motor follows its target to within a fifth of the wheel limit. */
    predicate Follows(i: nat)
      requires Sized() && ValidRadius() && i < WHEEL_COUNT
      reads this, controller
    {
      M.Abs(measured[i] / controller.g.cfg.radius - target[i] * SPEED_SCALE) <= controller.g.cfg.wheelMax * 0.2
    }

    ghost predicate Tracking()
      requires Sized() && ValidRadius()
      reads this, controller
    {
      forall i :: 0 <= i < WHEEL_COUNT ==>
        M.Abs(measured[i] / controller.g.cfg.radius - target[i] * SPEED_SCALE) <= controller.g.cfg.wheelMax * 0.2
    }

    method TracksWell() returns (good: bool)
      requires Sized() && ValidRadius()
      ensures good == Tracking()
    {
      good := true;
      for i := 0 to WHEEL_COUNT
        invariant good <==> forall k :: 0 <= k < i ==>
          M.Abs(measured[k] / controller.g.cfg.radius - target[k] * SPEED_SCALE) <= controller.g.cfg.wheelMax * 0.2
      {
        if !Follows(i) {
          good := false;
        }
      }
    }

    predicate Idle()
      reads this, controller
    {
      && requestedLinear == 0.0 && requestedAngular == 0.0
      && M.Abs(controller.g.linear.velocity) < 0.000001 && M.Abs(controller.g.linear.acceleration) < 0.000001
      && M.Abs(controller.g.yaw.velocity) < 0.000001 && M.Abs(controller.g.yaw.acceleration) < 0.000001
    }

    /** The time since the last update, in seconds; an idle robot does not mind a long pause. */
    function Elapsed(now: nat): (dt: real)
      reads this, controller
      ensures lastUpdateUs != 0 && (requestedLinear != 0.0 || requestedAngular != 0.0) ==>
        dt == (now - lastUpdateUs) as real / 1000000.0
      ensures lastUpdateUs == 0 ==> dt == 0.02
    {
      if lastUpdateUs == 0 || Idle() then PERIOD_S else (now - lastUpdateUs) as real / 1000000.0
    }

    /** What the controller makes of the request, the gyro and the tracking after some time. */
    ghost function Planned(dt: real): G.Result
      requires Valid() && ValidRadius() && G.ValidConfig(controller.g.cfg)
      reads this, controller, gyro
    {
      G.Update(root, controller.g, requestedLinear, requestedAngular, gyro.rate, Tracking(), dt)
    }

    /** The shaped, allocated motion of one tick, behind the gate. */
    method Shape(now: nat, dt: real) returns (ok: bool, left: real, right: real)
      requires Valid() && motionEnabled && ValidRadius() && G.ValidConfig(controller.g.cfg)
      modifies controller
      ensures Valid() && controller.g.cfg == old(controller.g.cfg)
      ensures ok <==> Gate(now) && 0.0 < dt <= M.MAX_DT
      ensures ok ==>
        var plan := old(Planned(dt));
        && plan.Updated? && controller.g == plan.state && left == plan.wheels.left && right == plan.wheels.right
        && plan.wheels == G.Allocate(plan.state, plan.state.correction) && plan.state.saturated == plan.wheels.saturated
        && M.Abs(left) <= controller.g.cfg.wheelMax && M.Abs(right) <= controller.g.cfg.wheelMax
    {
      hide GlideSafety.SafeState, GyroYaw.Gyro.Valid, G.Update;
      left, right := 0.0, 0.0;
      SafeConfig(controller.g);
      var good := TracksWell();
      var yaw := gyro.Get(now);
      if yaw.None? || !Fresh(now) {
        return false, left, right;
      }
      GlideSafety.UpdateSafe(root, controller.g, requestedLinear, requestedAngular, yaw.value, good, dt);
      GlideSafety.UpdateAllocates(root, controller.g, requestedLinear, requestedAngular, yaw.value, good, dt);
      ok, left, right := controller.GlideUpdate(root, requestedLinear, requestedAngular, yaw.value, good, dt);
    }

    /** The part of a tick that moves: nothing is sent unless the gate is open and the elapsed time in range. */
    method DriveWheels(now: nat, dt: real) returns (ghost sent: seq<Frame>)
      requires Valid() && motionEnabled && ValidRadius() && G.ValidConfig(controller.g.cfg) && now <= bus.now
      modifies this, controller, bus
      ensures Valid() && online == old(online)
      ensures sent != [] <==> old(Gate(now)) && 0.0 < dt <= M.MAX_DT
      ensures sent != [] ==>
        var plan := old(Planned(dt));
        && plan.Updated? && VelocityFrames(sent, Cap(), plan.wheels.left, plan.wheels.right)
        && Asks(sent, plan.wheels.left, plan.wheels.right, maxRaw)
        && (motionEnabled ==>
             && controller.g == plan.state
             && requestedLinear == old(requestedLinear) && requestedAngular == old(requestedAngular)
             && exists scale: real :: MovesAs(target, plan.state, scale))
      ensures motionEnabled ==>
        && sent != [] && lastUpdateUs == old(lastUpdateUs) && nextUpdateUs == old(nextUpdateUs)
        && bus.frames == old(bus.frames) + sent && |sent| == WHEEL_COUNT
        && forall i :: 0 <= i < WHEEL_COUNT ==> measuredValid[i] && measuredUs[i] >= now
      ensures !motionEnabled ==> bus.frames == old(bus.frames) + sent + BrakeFrames(online, WHEEL_COUNT) && AllBraked()
    {
      hide GlideSafety.SafeState, GyroYaw.Gyro.Valid, G.ResetState, G.Update, G.Allocate, UnitCap, Limited, Units,
           MovesAs;
      var ok, left, right := Shape(now, dt);
      if !ok {
        BrakeAll();
        return [];
      }
      ghost var plan := controller.g;
      sent := SendAll(left, right);
      FramesAsk(sent, left, right, controller.g.cfg.wheelMax, maxRaw);
      if motionEnabled {
        ghost var scale := PlanMoves(target, plan, G.Allocate(plan, plan.correction));
      }
    }

    /** One tick. The frames carry what the controller makes of the request. A velocity frame goes out only
      * behind the gate, within the cap; any failed check or reply ends with motion disabled and every online
      * wheel braked. */
    method Update() returns (ghost now: nat, ghost sent: seq<Frame>, outcome: Outcome)
      requires Valid()
      modifies this, controller, bus
      ensures Valid() && now >= old(bus.now) && online == old(online)
      ensures sent != [] ==>
        && old(motionEnabled) && old(Gate(now))
        && var plan := old(Planned(Elapsed(now)));
           && plan.Updated? && VelocityFrames(sent, Cap(), plan.wheels.left, plan.wheels.right)
           && (motionEnabled ==>
                && controller.g == plan.state
                && requestedLinear == old(requestedLinear) && requestedAngular == old(requestedAngular)
                && exists scale: real :: MovesAs(target, plan.state, scale))
           && Asks(sent, plan.wheels.left, plan.wheels.right, maxRaw)
      ensures motionEnabled ==> old(motionEnabled)
      ensures outcome != NotYet ==> now >= old(nextUpdateUs)
      ensures outcome == Driving ==> lastUpdateUs == now && nextUpdateUs == now + PERIOD_US
      ensures old(motionEnabled) && outcome != NotYet ==>
        (sent != [] <==> old(Gate(now)) && 0.0 < old(Elapsed(now)) <= M.MAX_DT)
      ensures match outcome
              case NotYet => bus.frames == old(bus.frames) && sent == [] && motionEnabled == old(motionEnabled)
              case Holding => bus.frames == old(bus.frames) + BrakeFrames(online, WHEEL_COUNT)
                              && sent == [] && !old(motionEnabled)
              case Driving => bus.frames == old(bus.frames) + sent && |sent| == WHEEL_COUNT && motionEnabled
                              && forall i :: 0 <= i < WHEEL_COUNT ==> measuredValid[i] && measuredUs[i] >= now
              case Aborted => bus.frames == old(bus.frames) + sent + BrakeFrames(online, WHEEL_COUNT)
                              && old(motionEnabled) && !motionEnabled && AllBraked()
    {
      hide GlideSafety.SafeState, GyroYaw.Gyro.Valid, G.ResetState, G.Update, UnitCap, VelocityFrames, Asks, MovesAs;
      SafeConfig(controller.g);
      var t := bus.Clock();
      now, sent := t, [];
      if t < nextUpdateUs {
        return now, sent, NotYet;
      }
      if !motionEnabled {
        HoldBrakes(t);
        return now, sent, Holding;
      }
      if lastUpdateUs != 0 && t <= lastUpdateUs {
        return now, sent, NotYet;
      }
      var dt := Elapsed(t);
      lastUpdateUs := t;
      nextUpdateUs := t + PERIOD_US;
      assert Tracking() == old(Tracking());
      sent := DriveWheels(t, dt);
      outcome := if motionEnabled then Driving else Aborted;
    }

    /** The only operation that enables motion: it needs the gate, and keeps the commanded curvature. */
    method SetVelocity(linear: real, angular: real) returns (ghost now: nat, ok: bool)
      requires Valid()
      modifies this, bus`now
      ensures Valid() && now >= old(bus.now) && online == old(online) && ok == old(Gate(now))
      ensures ok <==>
        && gyro.calibrated && gyro.sampleValid
        && gyro.lastSampleUs <= now <= gyro.lastSampleUs + gyro.cfg.maxGapUs
        && forall i :: 0 <= i < WHEEL_COUNT ==>
             online[i] && measuredValid[i] && measuredUs[i] <= now <= measuredUs[i] + 100000
      ensures ok ==> lastUpdateUs == if old(motionEnabled) then old(lastUpdateUs) else 0
      ensures ok ==>
        var cfg := controller.g.cfg;
        var w := G.Saturate(Demand(cfg, linear, angular), cfg.wheelMax);
        motionEnabled && requestedLinear == LinearOf(cfg, w) && requestedAngular == AngularOf(cfg, w)
      ensures !ok ==>
        && motionEnabled == old(motionEnabled)
        && requestedLinear == old(requestedLinear) && requestedAngular == old(requestedAngular)
    {
      hide GlideSafety.SafeState, GyroYaw.Gyro.Valid, G.ResetState, LinearOf, AngularOf, Demand;
      SafeConfig(controller.g);
      var cfg := controller.g.cfg;
      var t := bus.Clock();
      now := t;
      var yaw := gyro.Get(t);
      if yaw.None? || !Fresh(t) {
        return now, false;
      }
      var w := G.Saturate(Demand(cfg, linear, angular), cfg.wheelMax);
      requestedLinear := LinearOf(cfg, w);
      requestedAngular := AngularOf(cfg, w);
      if !motionEnabled {
        lastUpdateUs := 0;
      }
      motionEnabled := true;
      braked := [false, false, false, false];
      ok := true;
    }

    predicate AtRest(now: nat)
      requires |online| == |measured| == |measuredUs| == |measuredValid| == WHEEL_COUNT
      reads this, controller
    {
      && M.Abs(controller.g.linear.velocity) <= 0.0001 && M.Abs(controller.g.yaw.velocity) <= 0.0001
      && M.Abs(controller.g.linear.acceleration) <= 0.001 && M.Abs(controller.g.yaw.acceleration) <= 0.001
      && Fresh(now)
      && forall i :: 0 <= i < WHEEL_COUNT ==> M.Abs(measured[i]) <= 0.003
    }

    /** New limits are taken over only at rest and only if they are valid; motion stays disabled. */
    method Configure(cfg: G.Config) returns (ghost now: nat, ok: bool)
      requires Valid()
      modifies this`measured, controller, bus`now
      ensures Valid() && (ok <==> old(AtRest(now)) && !old(motionEnabled) && G.ValidConfig(cfg))
      ensures if ok then Stopped() && controller.g.cfg == cfg else controller.g == old(controller.g)
    {
      hide GlideSafety.SafeState, GyroYaw.Gyro.Valid;
      SafeConfig(controller.g);
      var t := bus.Clock();
      now := t;
      if !AtRest(t) || motionEnabled {
        return now, false;
      }
      var oldRadius := controller.g.cfg.radius;
      ok := controller.Init(cfg);
      if ok {
        GlideSafety.ResetIsSafe(cfg);
        measured := seq(WHEEL_COUNT, i requires 0 <= i < WHEEL_COUNT && Sized() reads this =>
          measured[i] * (cfg.radius / oldRadius));
      }
    }

    /** A gyro sample counts as stationary only while all wheels are fresh and still. */
    method ObserveGyro(now: nat, rate: real, valid: bool, quiet: bool, alpha: real)
      requires Valid() && 0.0 <= alpha <= 1.0
      modifies gyro
      ensures Valid()
      ensures !old(gyro.calibrated) && gyro.calibrated ==>
        && valid && M.Abs(rate) < 5.0 && quiet && Fresh(now)
        && forall i :: 0 <= i < WHEEL_COUNT ==> M.Abs(measured[i]) <= 0.003
    {
      hide GlideSafety.SafeState, G.ResetState, GyroYaw.Gyro.Valid;
      var still := valid && quiet && Fresh(now) && forall i :: 0 <= i < WHEEL_COUNT ==> M.Abs(measured[i]) <= 0.003;
      gyro.Observe(now, rate, valid && M.Abs(rate) < 5.0, still, alpha);
    }
  }
}
