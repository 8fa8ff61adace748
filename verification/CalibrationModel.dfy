/** The lease protocol of the calibration firmware, on parsed commands. */
module CalibrationModel {
  import opened Common

  const HEARTBEAT_US: nat := 500000
  const OPERATOR_US: nat := 350000
  const RELEASE_US: nat := 2000000
  const VX_MAX: real := 0.4
  const WZ_MAX: real := 0.8

  datatype Reason =
    | Boot | Disconnected | TrialDeadline | HeartbeatTimeout | OperatorTimeout | ReleaseTimeout | Requested
    | Handshake | Calibrating | InvalidVelocityReason | NotReadyReason | Driving | RampingToZero | Released
    | OtherReason(text: string)

  datatype Action = NoAction | DriveAction | ReleaseAction | SetAction | GyroAction | MeasureAction | BoundAction

  datatype Error =
    | InvalidRequest | UnsupportedProtocol | HandshakeRequired | InvalidVelocity | NotReady | InvalidParameters
    | NotAtRest | InvalidMeasurementMode | InvalidTrialDuration | UnknownCommand

  datatype Mode = Body | Wheels | Unreadable

  /** A command line after tokenising; a word that is not a finite number is `None`. */
  datatype Command =
    | Malformed
    | Stop
    | Hello(supported: bool)
    | Status
    | Heartbeat
    | Calibrate
    | Drive(x: Option<real>, z: Option<real>)
    | Release
    | Set(values: seq<Option<real>>)
    | Measure(mode: Mode)
    | Bound(ms: Option<real>)
    | Config(values: seq<Option<real>>)
    | Other

  /** The parameters in wire order: ax, jx, aw, jw, k_icr, radius, separation, ramp, rpm_max, vx_max,
    * wz_max, lpf, kp, ki, correction_max, deadband, correction_accel, correction_jerk, yaw_feedback. */
  type Parameters = seq<real>

  const RANGES: seq<(real, real)> := [
    (0.01, 5.0), (0.01, 50.0), (0.01, 20.0), (0.01, 200.0), (1.0, 5.0), (0.02, 0.1), (0.15, 0.5), (1.0, 255.0),
    (20.0, 200.0), (0.05, 0.4), (0.1, 0.8), (1.0, 80.0), (0.0, 2.0), (0.0, 2.0), (0.0, 1.0), (0.0, 0.05),
    (0.01, 2.0), (0.01, 20.0), (0.0, 1.0)]
  const RAMP: nat := 7
  const RPM_MAX: nat := 8
  const YAW_FEEDBACK: nat := 18

  predicate Whole(x: real) {
    x.Floor as real == x
  }

  datatype State = State(
    parameters: Parameters, session: bool, ready: bool, atRest: bool, fault: bool, driving: bool, releasing: bool,
    measureBody: bool, heartbeatUs: nat, operatorUs: nat, releaseUntilUs: nat, boundUntilUs: nat, vx: real, wz: real,
    stopReason: Reason, action: Action)
  {
    predicate Moving() {
      driving || releasing
    }
  }

  /** Whether a word is a number in a range. */
  predicate Value(word: Option<real>, low: real, high: real) {
    word.Some? && low <= word.value <= high
  }

  predicate Values(words: seq<Option<real>>) {
    |words| <= |RANGES| && forall i :: 0 <= i < |words| ==> Value(words[i], RANGES[i].0, RANGES[i].1)
  }

  function Overwritten(parameters: Parameters, words: seq<Option<real>>): (p: Parameters)
    requires Values(words) && |words| <= |parameters|
    ensures |p| == |parameters|
    ensures forall i :: 0 <= i < |p| ==> p[i] == if i < |words| then words[i].value else parameters[i]
  {
    seq(|parameters|, i requires 0 <= i < |parameters| => if i < |words| then words[i].value else parameters[i])
  }

  function Stopped(s: State, reason: Reason): State {
    s.(driving := false, releasing := false, boundUntilUs := 0, vx := 0.0, wz := 0.0, stopReason := reason)
  }

  function Faulted(s: State, reason: Reason): State {
    Stopped(s, reason).(fault := true, ready := false)
  }

  function Unplugged(s: State): State {
    Stopped(s.(session := false), Disconnected)
  }

  predicate BoundReached(s: State, now: nat) {
    s.boundUntilUs != 0 && now >= s.boundUntilUs
  }

  predicate HeartbeatLost(s: State, now: nat) {
    now - s.heartbeatUs >= HEARTBEAT_US
  }

  /** The first lease found to have run out. */
  function Lapse(s: State, now: nat): Option<Reason> {
    if BoundReached(s, now) then Some(TrialDeadline)
    else if s.session && HeartbeatLost(s, now) then Some(HeartbeatTimeout)
    else if s.driving && now - s.operatorUs >= OPERATOR_US then Some(OperatorTimeout)
    else if s.releasing && now >= s.releaseUntilUs then Some(ReleaseTimeout)
    else None
  }

  /** A lapse stops the robot, and a lost heartbeat ends the session; the hardware then brakes. */
  function Expired(s: State, now: nat): State {
    match Lapse(s, now)
    case None => s
    case Some(reason) => Stopped(if reason == HeartbeatTimeout then s.(session := false) else s, reason)
  }

  datatype Reply = Reply(state: State, brake: bool, error: Option<Error>)

  function Refused(s: State, brake: bool, error: Error): Reply {
    Reply(s, brake, Some(error))
  }

  function DriveStep(s: State, now: nat, x: Option<real>, z: Option<real>, brake: bool): Reply {
    if !Value(x, -VX_MAX, VX_MAX) || !Value(z, -WZ_MAX, WZ_MAX)
    then Refused(Stopped(s, InvalidVelocityReason), true, InvalidVelocity)
    else if !s.ready || s.fault then Refused(Stopped(s, NotReadyReason), true, NotReady)
    else Reply(s.(vx := x.value, wz := z.value, operatorUs := now, driving := true, releasing := false,
                  action := DriveAction, stopReason := Driving), brake, None)
  }

  function ReleaseStep(s: State, now: nat, brake: bool): Reply {
    if s.Moving()
    then Reply(s.(driving := false, releasing := true, vx := 0.0, wz := 0.0, releaseUntilUs := now + RELEASE_US,
                  stopReason := RampingToZero, action := ReleaseAction), brake, None)
    else Reply(Stopped(s, Released), true, None)
  }

  predicate Resting(s: State) {
    s.atRest && !s.Moving()
  }

  function SetStep(s: State, words: seq<Option<real>>, brake: bool): Reply
    requires |words| <= |s.parameters|
  {
    if !Values(words) then Refused(s, brake, InvalidParameters)
    else
      var p := Overwritten(s.parameters, words);
      if |words| > YAW_FEEDBACK && !(Whole(p[RAMP]) && Whole(p[RPM_MAX]) && Whole(p[YAW_FEEDBACK]))
      then Refused(s, brake, InvalidParameters)
      else if !Resting(s) then Refused(s, brake, NotAtRest)
      else Reply(s.(parameters := p, action := SetAction), brake, None)
  }

  function MeasureStep(s: State, mode: Mode, brake: bool): Reply {
    if !Resting(s) then Refused(s, brake, NotAtRest)
    else if mode == Unreadable then Refused(s, brake, InvalidMeasurementMode)
    else Reply(s.(measureBody := mode == Body, action := MeasureAction), brake, None)
  }

  function BoundStep(s: State, now: nat, ms: Option<real>, brake: bool): Reply {
    if !Value(ms, 100.0, 30000.0) then Refused(s, brake, InvalidTrialDuration)
    else if !Resting(s) then Refused(s, brake, NotAtRest)
    else Reply(s.(boundUntilUs := now + (ms.value * 1000.0).Floor, action := BoundAction), brake, None)
  }

  predicate Sized(c: Command, s: State) {
    && |s.parameters| == |RANGES|
    && (c.Set? ==> |c.values| == 5)
    && (c.Config? ==> |c.values| == |RANGES|)
  }

  /** A command first lets the leases expire. */
  function Handle(s: State, now: nat, c: Command): Reply
    requires Sized(c, s)
  {
    Dispatch(Expired(s, now).(action := NoAction), now, c, Lapse(s, now).Some?)
  }

  /** `brake` says that a lease had run out. */
  function Dispatch(s: State, now: nat, c: Command, brake: bool): Reply
    requires Sized(c, s)
  {
    match c
    case Malformed => Refused(s, brake, InvalidRequest)
    case Stop => Reply(Stopped(s, Requested), true, None)
    case Hello(supported) =>
      if !supported then Refused(s, brake, UnsupportedProtocol)
      else Reply(Stopped(s.(session := true, heartbeatUs := now), Handshake), true, None)
    case Status => Reply(s, brake, None)
    case _ => if !s.session then Refused(s, brake, HandshakeRequired) else Serve(s, now, c, brake)
  }

  /** The commands that need a session. */
  function Serve(s: State, now: nat, c: Command, brake: bool): Reply
    requires Sized(c, s)
  {
    match c
    case Heartbeat => Reply(s.(heartbeatUs := now), brake, None)
    case Calibrate => Reply(Stopped(s, Calibrating).(fault := false, ready := false, action := GyroAction), true, None)
    case Drive(x, z) => DriveStep(s, now, x, z, brake)
    case Release => ReleaseStep(s, now, brake)
    case Set(words) => SetStep(s, words, brake)
    case Config(words) => SetStep(s, words, brake)
    case Measure(mode) => MeasureStep(s, mode, brake)
    case Bound(ms) => BoundStep(s, now, ms, brake)
    case _ => Refused(s, brake, UnknownCommand)
  }

  /** What the firmware loop does to the protocol state. */
  datatype Event =
    | Tick(at: nat)
    | Line(at: nat, command: Command)
    | Halt(at: nat, reason: Reason)
    | Fail(at: nat, reason: Reason)
    | Unplug(at: nat)
    | Observe(at: nat, isReady: bool, isAtRest: bool)

  predicate Enabled(s: State, e: Event) {
    && (e.Line? ==> Sized(e.command, s))
    && (e.Observe? && e.isReady ==> !s.fault)
  }

  function Step(s: State, e: Event): State
    requires Enabled(s, e)
  {
    match e
    case Tick(at) => Expired(s, at)
    case Line(at, c) => Handle(s, at, c).state
    case Halt(_, reason) => Stopped(s, reason)
    case Fail(_, reason) => Faulted(s, reason)
    case Unplug(_) => Unplugged(s)
    case Observe(_, ready, atRest) => s.(ready := ready, atRest := atRest)
  }
}
