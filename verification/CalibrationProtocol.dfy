/** The protocol object of the calibration firmware. */
module CalibrationProtocol {
  import opened Common
  import opened CalibrationModel
  import CalibrationSafety

  class Protocol {
    var parameters: Parameters
    var session: bool
    var ready: bool
    var atRest: bool
    var fault: bool
    var driving: bool
    var releasing: bool
    var measureBody: bool
    var heartbeatUs: nat
    var operatorUs: nat
    var releaseUntilUs: nat
    var boundUntilUs: nat
    var vx: real
    var wz: real
    var stopReason: Reason
    var action: Action

    function View(): State
      reads this
    {
      State(parameters, session, ready, atRest, fault, driving, releasing, measureBody, heartbeatUs, operatorUs,
            releaseUntilUs, boundUntilUs, vx, wz, stopReason, action)
    }

    constructor (defaults: Parameters)
      ensures View() == CalibrationSafety.Initial(defaults)
    {
      parameters := defaults;
      session, ready, atRest, fault := false, false, false, false;
      driving, releasing, measureBody := false, false, true;
      heartbeatUs, operatorUs, releaseUntilUs, boundUntilUs := 0, 0, 0, 0;
      vx, wz := 0.0, 0.0;
      stopReason, action := Boot, NoAction;
    }

    method StopNow(reason: Reason)
      modifies this
      ensures View() == Stopped(old(View()), reason)
    {
      driving, releasing, boundUntilUs := false, false, 0;
      vx, wz := 0.0, 0.0;
      stopReason := reason;
    }

    method Fault(reason: Reason)
      modifies this
      ensures View() == Faulted(old(View()), reason)
    {
      StopNow(reason);
      fault, ready := true, false;
    }

    method Disconnect()
      modifies this
      ensures View() == Unplugged(old(View()))
    {
      session := false;
      StopNow(Disconnected);
    }

    method Expire(now: nat) returns (brake: bool)
      modifies this
      ensures View() == Expired(old(View()), now) && (brake <==> Lapse(old(View()), now).Some?)
    {
      if boundUntilUs != 0 && now >= boundUntilUs {
        StopNow(TrialDeadline);
        return true;
      }
      if session && now - heartbeatUs >= HEARTBEAT_US {
        session := false;
        StopNow(HeartbeatTimeout);
        return true;
      }
      if driving && now - operatorUs >= OPERATOR_US {
        StopNow(OperatorTimeout);
        return true;
      }
      if releasing && now >= releaseUntilUs {
        StopNow(ReleaseTimeout);
        return true;
      }
      brake := false;
    }

    method HandleDrive(now: nat, x: Option<real>, z: Option<real>, expired: bool)
      returns (brake: bool, error: Option<Error>)
      modifies this
      ensures Reply(View(), brake, error) == DriveStep(old(View()), now, x, z, expired)
    {
      brake, error := expired, None;
      if !Value(x, -VX_MAX, VX_MAX) || !Value(z, -WZ_MAX, WZ_MAX) {
        error, brake := Some(InvalidVelocity), true;
        StopNow(InvalidVelocityReason);
      } else if !ready || fault {
        error, brake := Some(NotReady), true;
        StopNow(NotReadyReason);
      } else {
        Move(now, x.value, z.value);
      }
    }

    method Move(now: nat, x: real, z: real)
      modifies this
      ensures View() == old(View()).(vx := x, wz := z, operatorUs := now, driving := true, releasing := false,
                                     action := DriveAction, stopReason := Driving)
    {
      vx, wz, operatorUs := x, z, now;
      driving, releasing, action := true, false, DriveAction;
      stopReason := Driving;
    }

    method HandleRelease(now: nat, expired: bool) returns (brake: bool, error: Option<Error>)
      modifies this
      ensures Reply(View(), brake, error) == ReleaseStep(old(View()), now, expired)
    {
      brake, error := expired, None;
      if driving || releasing {
        RampDown(now);
      } else {
        StopNow(Released);
        brake := true;
      }
    }

    method RampDown(now: nat)
      modifies this
      ensures View() == old(View()).(driving := false, releasing := true, vx := 0.0, wz := 0.0,
                                     releaseUntilUs := now + RELEASE_US, stopReason := RampingToZero,
                                     action := ReleaseAction)
    {
      driving, releasing := false, true;
      vx, wz := 0.0, 0.0;
      releaseUntilUs := now + RELEASE_US;
      stopReason, action := RampingToZero, ReleaseAction;
    }

    method HandleSet(words: seq<Option<real>>, expired: bool) returns (brake: bool, error: Option<Error>)
      requires |words| <= |parameters|
      modifies this
      ensures Reply(View(), brake, error) == SetStep(old(View()), words, expired)
    {
      brake, error := expired, None;
      var p := parameters;
      if |words| > |RANGES| {
        return brake, Some(InvalidParameters);
      }
      var i := 0;
      while i < |words|
        invariant i <= |words| && |p| == |parameters|
        invariant Values(words[..i]) && p == Overwritten(parameters, words[..i])
      {
        if !Value(words[i], RANGES[i].0, RANGES[i].1) {
          assert !Values(words);
          return brake, Some(InvalidParameters);
        }
        p := p[i := words[i].value];
        i := i + 1;
      }
      assert words[..i] == words;
      if |words| > YAW_FEEDBACK && !(Whole(p[RAMP]) && Whole(p[RPM_MAX]) && Whole(p[YAW_FEEDBACK])) {
        error := Some(InvalidParameters);
      } else if !atRest || driving || releasing {
        error := Some(NotAtRest);
      } else {
        parameters, action := p, SetAction;
      }
    }

    method HandleMeasure(mode: Mode, expired: bool) returns (brake: bool, error: Option<Error>)
      modifies this
      ensures Reply(View(), brake, error) == MeasureStep(old(View()), mode, expired)
    {
      brake, error := expired, None;
      if !atRest || driving || releasing {
        error := Some(NotAtRest);
      } else if mode == Unreadable {
        error := Some(InvalidMeasurementMode);
      } else {
        measureBody, action := mode == Body, MeasureAction;
      }
    }

    method HandleBound(now: nat, ms: Option<real>, expired: bool) returns (brake: bool, error: Option<Error>)
      modifies this
      ensures Reply(View(), brake, error) == BoundStep(old(View()), now, ms, expired)
    {
      brake, error := expired, None;
      if !Value(ms, 100.0, 30000.0) {
        error := Some(InvalidTrialDuration);
      } else if !atRest || driving || releasing {
        error := Some(NotAtRest);
      } else {
        boundUntilUs := now + (ms.value * 1000.0).Floor;
        action := BoundAction;
      }
    }

    method HandleInSession(now: nat, c: Command, expired: bool) returns (brake: bool, error: Option<Error>)
      requires Sized(c, View())
      modifies this
      ensures Reply(View(), brake, error) == Serve(old(View()), now, c, expired)
    {
      hide DriveStep, ReleaseStep, SetStep, MeasureStep, BoundStep;
      brake, error := expired, None;
      match c {
        case Heartbeat =>
          heartbeatUs := now;
        case Calibrate =>
          StopNow(Calibrating);
          fault, ready, action := false, false, GyroAction;
          brake := true;
        case Drive(x, z) =>
          brake, error := HandleDrive(now, x, z, expired);
        case Release =>
          brake, error := HandleRelease(now, expired);
        case Set(words) =>
          brake, error := HandleSet(words, expired);
        case Config(words) =>
          brake, error := HandleSet(words, expired);
        case Measure(mode) =>
          brake, error := HandleMeasure(mode, expired);
        case Bound(ms) =>
          brake, error := HandleBound(now, ms, expired);
        case _ =>
          error := Some(UnknownCommand);
      }
    }

    method Greet(now: nat)
      modifies this
      ensures View() == Stopped(old(View()).(session := true, heartbeatUs := now), Handshake)
    {
      session, heartbeatUs := true, now;
      StopNow(Handshake);
    }

    method HandleAny(now: nat, c: Command, expired: bool) returns (brake: bool, error: Option<Error>)
      requires Sized(c, View())
      modifies this
      ensures Reply(View(), brake, error) == Dispatch(old(View()), now, c, expired)
    {
      hide Serve, Stopped;
      brake, error := expired, None;
      if c.Malformed? {
        error := Some(InvalidRequest);
      } else if c.Stop? {
        StopNow(Requested);
        brake := true;
      } else if c.Hello? {
        if c.supported {
          Greet(now);
          brake := true;
        } else {
          error := Some(UnsupportedProtocol);
        }
      } else if c.Status? {
      } else if !session {
        error := Some(HandshakeRequired);
      } else {
        brake, error := HandleInSession(now, c, expired);
      }
    }

    /** One command line. The reply asks for the brake and carries the error, if any. */
    method HandleLine(now: nat, c: Command) returns (brake: bool, error: Option<Error>)
      requires Sized(c, View())
      modifies this
      ensures Reply(View(), brake, error) == Handle(old(View()), now, c)
    {
      hide Dispatch;
      brake := Expire(now);
      action := NoAction;
      brake, error := HandleAny(now, c, brake);
    }
  }
}
