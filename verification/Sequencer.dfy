/** The host's trial sequencer: what it records and what it lets the robot do. */
module TrialModel {
  import opened CalibrationModel
  import opened Motion
  import opened Common
  import opened Sequences

  datatype Stage = Stage(durationMs: nat, vx: real, wz: real)

  datatype Recipe = Recipe(id: nat, step: nat, verification: bool, stages: seq<Stage>)

  datatype Velocity = Velocity(vx: real, wz: real)

  function Duration(stages: seq<Stage>): nat {
    if stages == [] then 0 else stages[0].durationMs + Duration(stages[1..])
  }

  /** The command of the stage that runs after `elapsed` milliseconds. */
  function StageAt(stages: seq<Stage>, elapsed: int): Option<Velocity> {
    if stages == [] then None
    else if elapsed < stages[0].durationMs then Some(Velocity(stages[0].vx, stages[0].wz))
    else StageAt(stages[1..], elapsed - stages[0].durationMs)
  }

  lemma {:induction false} StageCovers(stages: seq<Stage>, elapsed: int)
    requires 0 <= elapsed < Duration(stages)
    ensures StageAt(stages, elapsed).Some?
  {
    if elapsed >= stages[0].durationMs {
      StageCovers(stages[1..], elapsed - stages[0].durationMs);
    }
  }

  /** The current stage is the one that has begun, after the durations of those before it, and not yet ended. */
  lemma {:induction false} StageIsCurrent(stages: seq<Stage>, elapsed: int) returns (i: nat)
    requires 0 <= elapsed < Duration(stages)
    ensures i < |stages| && StageAt(stages, elapsed) == Some(Velocity(stages[i].vx, stages[i].wz))
    ensures Duration(stages[..i]) <= elapsed < Duration(stages[..i]) + stages[i].durationMs
  {
    if elapsed < stages[0].durationMs {
      i := 0;
    } else {
      var rest := stages[1..];
      var k := StageIsCurrent(rest, elapsed - stages[0].durationMs);
      i := k + 1;
      assert stages[..i][1..] == rest[..k];
    }
  }

  lemma {:induction false} StageIsOne(stages: seq<Stage>, elapsed: int)
    requires StageAt(stages, elapsed).Some?
    ensures exists s :: s in stages && StageAt(stages, elapsed) == Some(Velocity(s.vx, s.wz))
  {
    if elapsed < stages[0].durationMs {
      assert stages[0] in stages;
    } else {
      StageIsOne(stages[1..], elapsed - stages[0].durationMs);
    }
  }

  /** The last telemetry of the board. */
  datatype Telemetry = Telemetry(
    parameters: Parameters, ready: bool, fault: bool, atRest: bool, motionEnabled: bool, brakesConfirmed: bool,
    mcuUs: nat, wheelsFresh: bool, gyroFresh: bool, features: bool, yawFeedback: bool)

  /** What the operator confirms with a request. */
  datatype Payload = Payload(setupConfirmed: bool, notesValid: bool, surfaceGiven: bool)

  const K_ICR: nat := 4
  const RADIUS: nat := 5
  const SEPARATION: nat := 6
  const VX_LIMIT: nat := 9
  const WZ_LIMIT: nat := 10
  const TWO_PI := 6.283185307179586

  /** A stage is inside the configured body and wheel limits. */
  predicate StageFits(s: Stage, p: Parameters)
    requires |p| == |RANGES|
  {
    && Abs(s.vx) <= p[VX_LIMIT] && Abs(s.wz) <= p[WZ_LIMIT]
    && p[RADIUS] > 0.0
    && (Abs(s.vx) + Abs(s.wz) * p[K_ICR] * p[SEPARATION] / 2.0) / p[RADIUS] * 60.0 / TWO_PI <= p[RPM_MAX]
  }

  predicate Fits(r: Recipe, p: Parameters) {
    |p| == |RANGES| && forall s :: s in r.stages ==> StageFits(s, p)
  }

  datatype Phase = Preparing | DrivePhase | Settling

  datatype Trial = Trial(
    id: nat, recipe: Recipe, phase: Phase, parameters: Parameters, started: int, released: int, lastMcu: nat,
    sequenceId: Option<nat>, sequenceIndex: nat)

  datatype Result = Result(
    recipe: Recipe, parameters: Parameters, complete: bool, sequenceId: Option<nat>, sequenceIndex: nat)

  datatype Sequence = Sequence(
    id: nat, index: nat, recipes: seq<Recipe>, parameters: Parameters, payload: Payload, resumeAt: int)

  /** A row is the complete result of the `j`-th recipe of a sequence. */
  predicate IsRow(row: Result, q: Sequence, j: nat)
    requires j < |q.recipes|
  {
    row == Result(q.recipes[j], q.parameters, true, Some(q.id), j)
  }

  /** The rows are the complete results of the first recipes, in order. */
  ghost predicate Rows(rows: seq<Result>, q: Sequence) {
    |rows| <= |q.recipes| && forall j :: 0 <= j < |rows| ==> IsRow(rows[j], q, j)
  }

  /** Everything a sequence has recorded so far is at the end of the results, and nothing else there
    * carries its identifier. */
  ghost predicate Recorded(results: seq<Result>, q: Sequence) {
    && q.index <= |results| && q.index <= |q.recipes| && Rows(Suffix(results, q.index), q)
    && forall i :: 0 <= i < |results| - q.index ==> results[i].sequenceId != Some(q.id)
  }

  /** All identifiers in the results were given out before `next`. */
  ghost predicate Known(results: seq<Result>, next: nat) {
    forall row :: row in results && row.sequenceId.Some? ==> row.sequenceId.value < next
  }

  /** The sequence after one more recipe, which goes on at some time. */
  function Next(q: Sequence, at: int): Sequence {
    q.(index := q.index + 1, resumeAt := at)
  }

  const KEPT_RESULTS: nat := 500

  function LastResults(results: seq<Result>): (r: seq<Result>)
    ensures |r| <= KEPT_RESULTS
  {
    if |results| > KEPT_RESULTS then results[|results| - KEPT_RESULTS..] else results
  }

  lemma RowsGrow(rows: seq<Result>, q: Sequence, row: Result, at: int)
    requires Rows(rows, q) && |rows| == q.index < |q.recipes| && IsRow(row, q, q.index)
    ensures Rows(rows + [row], Next(q, at))
  {
    forall j | 0 <= j < |rows| + 1
      ensures IsRow((rows + [row])[j], Next(q, at), j)
    {
      if j < |rows| {
        assert IsRow(rows[j], q, j);
      }
    }
  }

  /** Recording the next complete result keeps the record of the sequence, however old results fall off. */
  lemma RecordNext(results: seq<Result>, q: Sequence, row: Result, at: int)
    requires Recorded(results, q) && q.index < |q.recipes| <= KEPT_RESULTS && IsRow(row, q, q.index)
    ensures Recorded(LastResults(results + [row]), Next(q, at))
  {
    hide Rows, IsRow;
    var all := results + [row];
    var kept := LastResults(all);
    assert Suffix(kept, q.index + 1) == Suffix(all, q.index + 1) == Suffix(results, q.index) + [row];
    RowsGrow(Suffix(results, q.index), q, row, at);
    forall i | 0 <= i < |kept| - (q.index + 1)
      ensures kept[i].sequenceId != Some(q.id)
    {
      assert kept[i] == results[|all| - |kept| + i];
    }
  }

  lemma NothingRecorded(results: seq<Result>, q: Sequence)
    requires q.index == 0 && Known(results, q.id)
    ensures Recorded(results, q)
  {
  }

  function Chosen(table: seq<Recipe>, step: nat, verification: bool): (r: seq<Recipe>)
    ensures |r| <= |table|
  {
    if table == [] then []
    else
      var rest := Chosen(table[1..], step, verification);
      if table[0].step == step && table[0].verification == verification then [table[0]] + rest else rest
  }

  /** How a sequence ended, and all results that were kept then. */
  datatype Ending = Ending(sequence: Sequence, complete: bool, results: seq<Result>)

  /** A complete sequence has exactly one result for each of its recipes, in order, all complete and with
    * the parameters it began with, and no other result carries its identifier. */
  ghost predicate Honest(e: Ending) {
    e.complete ==> e.sequence.index == |e.sequence.recipes| > 0 && Recorded(e.results, e.sequence)
  }
}

/** The link object: every method runs under its lock. Times are milliseconds. */
module TrialSequencer {
  import opened CalibrationModel
  import opened Motion
  import opened Common
  import opened Sequences
  import opened TrialModel

  const PRESENCE_TIMEOUT_MS: int := 1000
  const TELEMETRY_TIMEOUT_MS: int := 1000
  const DRIVE_LEASE_MS: int := 200
  const DRIVE_PERIOD_MS: int := 100
  const OPERATOR_SILENCE_MS: int := 30000
  const PAUSE_MS: int := 500
  const BRAKES_TIMEOUT_MS: int := 2000
  const SETTLE_TIMEOUT_MS: int := 3000

  datatype Control = NoControl | StopControl | ReleaseControl | PrepareControl | DriveControl(v: Velocity)

  datatype Turn = GiveUp | Wait | Start

  datatype Request =
    | ArmRequest
    | DriveRequest(v: Velocity)
    | ReleaseRequest
    | TrialRequest(recipe: Option<Recipe>, payload: Payload)
    | SequenceRequest(step: nat, verification: bool, payload: Payload)
    | PresenceRequest

  predicate Manual(request: Request) {
    request.ArmRequest? || request.DriveRequest? || request.ReleaseRequest?
  }

  /** Manual driving has its own speed limits. */
  predicate Allowed(request: Request) {
    request.DriveRequest? ==> WithinManual(request.v)
  }

  predicate WithinManual(v: Velocity) {
    Abs(v.vx) <= VX_MAX && Abs(v.wz) <= WZ_MAX
  }

  /** The result of a trial. */
  predicate Reports(row: Result, t: Trial, complete: bool) {
    row == Result(t.recipe, t.parameters, complete, t.sequenceId, t.sequenceIndex)
  }

  class SerialLink {
    const table: seq<Recipe>
    var latest: Telemetry
    var received: Option<int>
    var armed: bool
    var intent: Option<Velocity>
    var intentUntil: int
    var operatorSeen: int
    var nextDrive: int
    var releasePending: bool
    var forceStop: bool
    var trial: Option<Trial>
    var sequence: Option<Sequence>
    var results: seq<Result>
    var nextId: nat
    /** All sequences that ended, with what they had recorded. */
    ghost var endings: seq<Ending>

    /** The running trial is the current one of the sequence. */
    ghost predicate Current(t: Trial, q: Sequence) {
      && q.index < |q.recipes|
      && t.recipe == q.recipes[q.index] && t.parameters == q.parameters
      && t.sequenceId == Some(q.id) && t.sequenceIndex == q.index
    }

    ghost predicate Sound()
      reads `results, `trial, `sequence, `endings, `nextId
    {
      && |table| <= KEPT_RESULTS
      && |results| <= KEPT_RESULTS && Known(results, nextId)
      && (trial.Some? && trial.value.sequenceId.Some? ==> trial.value.sequenceId.value < nextId)
      && (sequence.Some? ==> sequence.value.id < nextId)
      && (trial.Some? ==> Fits(trial.value.recipe, trial.value.parameters))
      && (sequence.Some? ==>
        && sequence.value.index < |sequence.value.recipes| <= |table|
        && Recorded(results, sequence.value)
        && (trial.Some? ==> Current(trial.value, sequence.value)))
      && forall e :: e in endings ==> Honest(e)
    }

    /** Between two trials of a sequence there is nothing to drive, and without one only manual speeds. */
    ghost predicate Valid()
      reads `results, `trial, `sequence, `endings, `nextId, `intent
    {
      && Sound()
      && (trial.None? && intent.Some? ==> sequence == None && WithinManual(intent.value))
    }

    constructor (table: seq<Recipe>, latest: Telemetry)
      requires |table| <= KEPT_RESULTS
      ensures Valid() && this.table == table && trial == None && sequence == None && !armed && endings == []
    {
      this.table, this.latest := table, latest;
      received, armed, intent, intentUntil := None, false, None, 0;
      operatorSeen, nextDrive := 0, 0;
      releasePending, forceStop, trial, sequence := false, false, None, None;
      results, nextId := [], 0;
      endings := [];
    }

    /** Ends the sequence, if there is one. */
    method EndSequence(complete: bool)
      requires sequence.Some? ==> sequence.value.index <= |results|
      requires complete && sequence.Some? ==>
        Recorded(results, sequence.value) && sequence.value.index == |sequence.value.recipes| > 0
      modifies `sequence, `endings
      ensures sequence == None
      ensures old(sequence) == None ==> endings == old(endings)
      ensures old(sequence).Some? ==>
        var q := old(sequence).value;
        endings == old(endings) + [Ending(q, complete, results)] && Honest(endings[|endings| - 1])
    {
      if sequence.Some? {
        ghost var q := sequence.value;
        endings := endings + [Ending(q, complete, results)];
        sequence := None;
      }
    }

    /** Records the running trial. A sequence goes on with its next recipe after a pause, or ends: as
      * complete exactly when its last recipe was completed. */
    method FinishTrial(complete: bool, now: int)
      requires Valid() && (complete ==> trial.Some?)
      modifies `trial, `sequence, `results, `intent, `armed, `endings
      ensures Valid() && trial == None
      ensures old(trial).Some? ==>
        intent == None && results != [] && Reports(results[|results| - 1], old(trial).value, complete)
      ensures old(trial) == None ==> sequence == None
      ensures !complete ==> sequence == None
      ensures armed == (old(armed) && (sequence.Some? || old(sequence == None || trial == None)))
      ensures var q := old(sequence);
              if q.Some? && sequence == None then
                var done := complete && q.value.index + 1 == |q.value.recipes|;
                |endings| == |old(endings)| + 1 && endings[|old(endings)|].complete == done
                && endings[|old(endings)|].sequence.id == q.value.id
              else endings == old(endings)
      ensures sequence.Some? && old(sequence).Some? ==>
        sequence.value == Next(old(sequence).value, now + PAUSE_MS)
    {
      hide Rows, Fits;
      if trial.None? {
        EndSequence(complete);
        return;
      }
      Record(complete, now + PAUSE_MS);
      trial, intent := None, None;
      if sequence.Some? {
        sequence := Some(Next(sequence.value, sequence.value.resumeAt));
        if !complete || sequence.value.index >= |sequence.value.recipes| {
          EndSequence(complete);
          armed := false;
        } else {
          sequence := Some(sequence.value.(resumeAt := now + PAUSE_MS));
        }
      }
    }

    /** Adds the running trial to the results. */
    method Record(complete: bool, ghost at: int)
      requires Valid() && trial.Some?
      modifies `results
      ensures |results| <= KEPT_RESULTS && Known(results, nextId)
      ensures results != [] && Reports(results[|results| - 1], trial.value, complete)
      ensures sequence.Some? ==>
        var q := sequence.value;
        && q.index + 1 <= |results|
        && (complete ==> Recorded(results, Next(q, q.resumeAt)) && Recorded(results, Next(q, at)))
    {
      hide Rows, Fits;
      var t := trial.value;
      var row := Result(t.recipe, t.parameters, complete, t.sequenceId, t.sequenceIndex);
      ghost var before := results;
      results := LastResults(results + [row]);
      if sequence.Some? && complete {
        RecordNext(before, sequence.value, row, sequence.value.resumeAt);
        RecordNext(before, sequence.value, row, at);
      }
    }

    predicate Admissible(r: Recipe, payload: Payload)
      reads `armed, `trial, `latest
    {
      && armed && trial.None? && latest.atRest && !latest.motionEnabled
      && payload.setupConfirmed && latest.features
      && (r.verification || !latest.yawFeedback)
      && latest.gyroFresh && latest.wheelsFresh
      && Fits(r, latest.parameters)
      && payload.notesValid && (r.step > 0 ==> payload.surfaceGiven)
    }

    /** A trial that begins now, on the parameters of the latest telemetry. */
    predicate Begins(t: Trial, r: Recipe, now: int)
      reads `latest
    {
      && t.recipe == r && t.phase == Preparing && t.started == now
      && t.parameters == latest.parameters && t.lastMcu == latest.mcuUs
    }

    /** Starts a trial on the parameters of the latest telemetry. */
    method StartTrial(r: Recipe, payload: Payload, now: int) returns (ok: bool)
      requires Sound()
      requires sequence.Some? ==> r == sequence.value.recipes[sequence.value.index]
                                  && latest.parameters == sequence.value.parameters
      modifies `trial, `intentUntil, `nextId
      ensures Sound() && (ok <==> old(Admissible(r, payload)))
      ensures if ok then trial.Some? && Begins(trial.value, r, now) && intentUntil == now + PRESENCE_TIMEOUT_MS
              else trial == old(trial) && intentUntil == old(intentUntil)
    {
      hide Rows, Fits;
      if !Admissible(r, payload) {
        return false;
      }
      var (id, at) := if sequence.Some? then (Some(sequence.value.id), sequence.value.index) else (None, 0);
      trial := Some(Trial(nextId, r, Preparing, latest.parameters, now, now, latest.mcuUs, id, at));
      nextId := nextId + 1;
      intentUntil := now + PRESENCE_TIMEOUT_MS;
      ok := true;
    }

    /** The operator, the browser and the board must all still be there. */
    predicate Present(now: int)
      reads `armed, `intentUntil, `received
    {
      armed && now < intentUntil && received.Some? && now - received.value <= TELEMETRY_TIMEOUT_MS
    }

    /** What is to be done between two trials of a sequence. */
    function Turn(q: Sequence, now: int): Turn
      requires q.index < |q.recipes|
      reads `armed, `intentUntil, `received, `latest, `trial
    {
      var gone := !Present(now) || !latest.ready || latest.fault || latest.parameters != q.parameters;
      var braked := latest.atRest && !latest.motionEnabled && latest.brakesConfirmed;
      if gone then GiveUp
      else if now < q.resumeAt || (!braked && now <= q.resumeAt + BRAKES_TIMEOUT_MS) then Wait
      else if braked && Admissible(q.recipes[q.index], q.payload) then Start
      else GiveUp
    }

    /** Between two trials of a sequence: waits for the brakes, then starts the next recipe. */
    method SequenceTick(now: int) returns (control: Control)
      requires Valid()
      modifies `trial, `sequence, `results, `intent, `armed, `endings, `intentUntil, `nextId
      ensures Valid() && (control == NoControl || control == StopControl)
      ensures control == StopControl ==> trial == None && sequence == None && !armed
      ensures armed ==> old(armed)
      ensures old(sequence == None || trial.Some?) ==>
        && control == NoControl && trial == old(trial) && sequence == old(sequence) && intent == old(intent)
        && armed == old(armed) && intentUntil == old(intentUntil)
      ensures trial.Some? && old(trial) == None ==>
        var q := old(sequence).value;
        && sequence == Some(q) && Begins(trial.value, q.recipes[q.index], now) && now >= q.resumeAt
        && old(Present(now)) && latest.ready && !latest.fault && latest.brakesConfirmed
        && old(Admissible(q.recipes[q.index], q.payload))
      ensures old(sequence.Some? && trial.None?) ==>
        var q := old(sequence).value;
        match old(Turn(q, now))
        case GiveUp => control == StopControl
        case Wait => control == NoControl && trial == None && sequence == Some(q) && armed == old(armed)
        case Start => control == NoControl && trial.Some? && armed
    {
      hide Rows, Fits;
      control := NoControl;
      if sequence.None? || trial.Some? {
        return;
      }
      var q := sequence.value;
      if !Present(now) || !latest.ready || latest.fault || latest.parameters != q.parameters {
        EndSequence(false);
        armed, intent := false, None;
        return StopControl;
      }
      if now < q.resumeAt {
        return;
      }
      if !latest.atRest || latest.motionEnabled || !latest.brakesConfirmed {
        if now > q.resumeAt + BRAKES_TIMEOUT_MS {
          EndSequence(false);
          armed := false;
          return StopControl;
        }
        return;
      }
      var ok := StartTrial(q.recipes[q.index], q.payload, now);
      if !ok {
        EndSequence(false);
        armed := false;
        return StopControl;
      }
    }

    /** Someone has gone, or the board faulted, restarted its clock or changed its parameters. */
    predicate Failing(t: Trial, now: int)
      reads `armed, `intentUntil, `received, `latest
    {
      !Present(now) || !latest.ready || latest.fault || latest.parameters != t.parameters || latest.mcuUs < t.lastMcu
    }

    /** A running trial has new telemetry that says nothing of the wheels or the gyro. */
    predicate Stale(t: Trial)
      reads `latest
    {
      t.phase != Preparing && latest.mcuUs != t.lastMcu && (!latest.wheelsFresh || !latest.gyroFresh)
    }

    /** The trial has been ended and recorded; an incomplete one ends its sequence and disarms. */
    predicate Ended(control: Control, t: Trial, complete: bool)
      reads `trial, `sequence, `armed, `intent, `results
    {
      && control == StopControl && trial == None && intent == None
      && (!complete || sequence == None ==> sequence == None && !armed)
      && results != [] && Reports(results[|results| - 1], t, complete)
    }

    /** Where a trial stands after a tick: it drives its stages until its time or turn is over, is then released,
      * and is complete when the robot rests, or given up when that takes too long. */
    predicate Progressed(control: Control, t: Trial, now: int, nearTarget: bool)
      reads `trial, `sequence, `armed, `intent, `results, `latest
    {
      if t.phase == DrivePhase && now - t.started < Duration(t.recipe.stages) && !nearTarget then
        && control == NoControl && trial == Some(t)
        && intent.Some? && intent == StageAt(t.recipe.stages, now - t.started)
      else if t.phase == DrivePhase then
        control == ReleaseControl && trial == Some(t.(phase := Settling, released := now)) && intent == None
      else if latest.atRest && !latest.motionEnabled then Ended(control, t, true)
      else if now - t.released > SETTLE_TIMEOUT_MS then Ended(control, t, false)
      else control == NoControl && trial == Some(t) && intent == None
    }

    /** The running trial, if any: prepares it, drives its stages, lets the robot settle, records it. While
      * it drives, the intent is the command of the current stage. */
    method TrialTick(now: int, nearTarget: bool) returns (control: Control)
      requires Valid() && (trial.Some? ==> trial.value.started <= now)
      modifies `trial, `sequence, `results, `intent, `armed, `endings
      ensures Valid() && !control.DriveControl?
      ensures old(trial) == None ==>
        && control == NoControl && trial == None && sequence == old(sequence)
        && intent == old(intent) && armed == old(armed)
      ensures old(trial.Some? && (Failing(trial.value, now) || Stale(trial.value))) ==>
        Ended(control, old(trial).value, false)
      ensures old(trial.Some? && !Failing(trial.value, now) && !Stale(trial.value)) ==>
        var t := old(trial).value.(lastMcu := latest.mcuUs);
        if t.phase == Preparing then control == PrepareControl && trial == old(trial) && intent == old(intent)
        else Progressed(control, t, now, nearTarget)
      ensures (armed ==> old(armed)) && (control == StopControl && sequence == None ==> !armed && intent == None)
      ensures control == NoControl && trial.Some? ==> Follows(now)
      ensures trial.Some? ==> armed == old(armed)
    {
      hide Rows, Fits, Recorded;
      control := NoControl;
      if trial.None? {
        return;
      }
      var t := trial.value;
      if Failing(t, now) {
        FinishTrial(false, now);
        armed := false;
        return StopControl;
      }
      if t.phase == Preparing {
        return PrepareControl;
      }
      if latest.mcuUs != t.lastMcu {
        t := t.(lastMcu := latest.mcuUs);
        trial := Some(t);
        if !latest.wheelsFresh || !latest.gyroFresh {
          FinishTrial(false, now);
          armed := false;
          return StopControl;
        }
      }
      control := Progress(now, nearTarget);
    }

    /** What the intent of a trial that goes on must be. */
    predicate Follows(now: int)
      requires trial.Some?
      reads `trial, `intent
    {
      match trial.value.phase
      case Preparing => false
      case Settling => intent == None
      case DrivePhase => intent.Some? && intent == StageAt(trial.value.recipe.stages, now - trial.value.started)
    }

    method Progress(now: int, nearTarget: bool) returns (control: Control)
      requires Valid() && trial.Some? && trial.value.phase != Preparing && trial.value.started <= now
      modifies `trial, `sequence, `results, `intent, `armed, `endings
      ensures Valid() && !control.DriveControl?
      ensures Progressed(control, old(trial).value, now, nearTarget)
      ensures trial.Some? ==> armed == old(armed)
      ensures (armed ==> old(armed)) && (control == StopControl && sequence == None ==> !armed && intent == None)
      ensures control == NoControl && trial.Some? ==> Follows(now)
    {
      hide Rows, Fits, Recorded;
      var t := trial.value;
      var elapsed := now - t.started;
      control := NoControl;
      if elapsed >= Duration(t.recipe.stages) || nearTarget || t.phase == Settling {
        intent := None;
        if t.phase == DrivePhase {
          trial := Some(t.(phase := Settling, released := now));
          return ReleaseControl;
        }
        if latest.atRest && !latest.motionEnabled {
          FinishTrial(true, now);
          if sequence.None? {
            armed := false;
          }
          return StopControl;
        }
        if now - t.released > SETTLE_TIMEOUT_MS {
          FinishTrial(false, now);
          armed := false;
          return StopControl;
        }
      } else {
        StageCovers(t.recipe.stages, elapsed);
        intent := StageAt(t.recipe.stages, elapsed);
      }
    }

    /** The trial drives its stages, and nothing is wrong. */
    predicate Drives(t: Trial, now: int)
      reads `armed, `intentUntil, `received, `latest
    {
      && !Failing(t, now) && !Stale(t)
      && t.phase == DrivePhase && now - t.started < Duration(t.recipe.stages)
    }

    /** What the link sends next. A drive is chosen only while armed, within the operator's lease, and
      * during a trial it is the command of the current stage, inside the configured limits. */
    method Choose(now: int, nearTarget: bool) returns (control: Control)
      requires Valid() && (trial.Some? ==> trial.value.started <= now)
      modifies this
      ensures Valid() && (armed ==> old(armed))
      ensures control.DriveControl? ==>
        && armed && now < intentUntil && intent == Some(control.v)
        && (if trial.Some? then Follows(now) && InStage(control.v) else sequence == None && WithinManual(control.v))
      ensures old(forceStop) ==> control == StopControl
      ensures old(!forceStop && trial == None && sequence == None) ==> control == old(Picked(NoControl, now))
      ensures old(!forceStop && trial.Some? && Drives(trial.value, now)) && !nearTarget ==>
        var t := old(trial).value;
        var v := StageAt(t.recipe.stages, now - t.started);
        v.Some? && intent == v && control == if now >= old(nextDrive) then DriveControl(v.value) else NoControl
    {
      hide Sound, Follows, InStage, Stale;
      control := SequenceTick(now);
      if control == NoControl {
        control := TrialTick(now, nearTarget);
      }
      if forceStop {
        control := StopControl;
        forceStop := false;
      }
      control := Pick(control, now);
    }

    /** Whatever is decided goes first; then the intent, once a period and until its lease is over; then a release. */
    function Picked(decided: Control, now: int): Control
      reads `armed, `intent, `intentUntil, `nextDrive, `releasePending
    {
      if decided != NoControl then decided
      else if intent.Some? && armed then
        if now >= intentUntil then StopControl
        else if now >= nextDrive then DriveControl(intent.value)
        else NoControl
      else if releasePending then ReleaseControl
      else NoControl
    }

    method Pick(decided: Control, now: int) returns (control: Control)
      requires Valid() && !decided.DriveControl?
      requires decided == NoControl && trial.Some? ==> Follows(now)
      modifies `armed, `intent, `nextDrive, `releasePending
      ensures Valid() && (armed ==> old(armed))
      ensures control == old(Picked(decided, now))
      ensures intent == if old(decided == NoControl && intent.Some? && armed && now >= intentUntil) then None
                        else old(intent)
      ensures control.DriveControl? ==>
        && armed && now < intentUntil && intent == Some(control.v)
        && (if trial.Some? then Follows(now) && InStage(control.v) else sequence == None && WithinManual(control.v))
    {
      hide Rows, Recorded, Fits, Honest, StageAt;
      control := decided;
      if armed && intent.None? && now - operatorSeen > OPERATOR_SILENCE_MS {
        armed := false;
      }
      if control == NoControl && intent.Some? && armed {
        if now >= intentUntil {
          armed, intent := false, None;
          control := StopControl;
        } else if now >= nextDrive {
          DriveFits(now);
          control := DriveControl(intent.value);
          nextDrive := now + DRIVE_PERIOD_MS;
        }
      } else if control == NoControl && releasePending {
        releasePending := false;
        control := ReleaseControl;
      }
    }

    /** A velocity is the command of a stage of the running trial, inside the configured limits. */
    ghost predicate InStage(v: Velocity)
      requires trial.Some?
      reads `trial
    {
      && |trial.value.parameters| == |RANGES|
      && exists s :: s in trial.value.recipe.stages && StageFits(s, trial.value.parameters) && v == Velocity(s.vx, s.wz)
    }

    /** The command of a stage is within the limits that were checked at the start of its trial. */
    lemma DriveFits(now: int)
      requires Sound() && intent.Some?
      requires trial.Some? ==> Follows(now)
      ensures trial.Some? ==> InStage(intent.value)
    {
      if trial.Some? {
        StageIsOne(trial.value.recipe.stages, now - trial.value.started);
      }
    }

    /** An operator's request. While a trial or sequence runs, manual controls only cancel it. */
    method Operator(request: Request, now: int) returns (ok: bool)
      requires Valid()
      modifies this
      ensures Valid()
      ensures old(trial.Some? || sequence.Some?) && Manual(request) && (request.ReleaseRequest? || old(Heard(now))) ==>
        !ok && (!Allowed(request) || (sequence == None && trial == None && !armed && intent == None && forceStop))
      ensures request.DriveRequest? && ok ==>
        && Allowed(request) && armed && trial == None && sequence == None
        && intent == Some(request.v) && intentUntil == now + DRIVE_LEASE_MS
      ensures old(trial == None && sequence == None) ==>
        && (request.DriveRequest? ==> (ok <==> Allowed(request) && old(Heard(now)) && old(armed)))
        && (request.ArmRequest? ==> (ok <==> old(Heard(now)) && latest.atRest && !latest.motionEnabled))
        && (request.ReleaseRequest? ==> ok)
      ensures armed ==> old(armed) || (request.ArmRequest? && ok)
      ensures request.ArmRequest? && ok ==>
        latest.atRest && !latest.motionEnabled && armed && trial == None && sequence == None
      ensures request.ReleaseRequest? && ok ==> intent == None && releasePending && armed == old(armed)
      ensures request.PresenceRequest? ==>
        && trial == old(trial) && sequence == old(sequence) && intent == old(intent) && armed == old(armed)
        && (ok <==> old(Heard(now)) && armed && (trial.Some? || sequence.Some?))
        && intentUntil == if ok then now + PRESENCE_TIMEOUT_MS else old(intentUntil)
      ensures request.TrialRequest? ==>
        && sequence == old(sequence)
        && (ok <==> old(Heard(now)) && sequence == None && request.recipe.Some?
                    && old(Admissible(request.recipe.value, request.payload)))
        && (if ok then trial.Some? && Begins(trial.value, request.recipe.value, now)
            else trial == old(trial))
      ensures request.SequenceRequest? ==>
        (ok <==> old(Heard(now)) && old(Startable(request.step, request.verification, request.payload)))
      ensures request.SequenceRequest? && ok ==>
        && old(trial == None && sequence == None) && trial.Some? && sequence.Some?
        && sequence.value.recipes == Chosen(table, request.step, request.verification)
        && sequence.value.index == 0 && sequence.value.parameters == latest.parameters
    {
      hide Sound, Rows, Recorded, Fits, Honest, Known, Heard, Admissible;
      if !Allowed(request) {
        return false;
      }
      operatorSeen := now;
      if !request.ReleaseRequest? && !Heard(now) {
        return false;
      }
      if (trial.Some? || sequence.Some?) && Manual(request) {
        FinishTrial(false, now);
        armed, intent, releasePending, forceStop := false, None, false, true;
        return false;
      }
      match request {
        case SequenceRequest(step, verification, payload) =>
          ok := StartSequence(step, verification, payload, now);
        case TrialRequest(recipe, payload) =>
          if sequence.Some? || recipe.None? {
            return false;
          }
          ok := StartTrial(recipe.value, payload, now);
        case PresenceRequest =>
          ok := armed && (trial.Some? || sequence.Some?);
          if ok {
            intentUntil := now + PRESENCE_TIMEOUT_MS;
          }
        case ArmRequest =>
          ok := latest.atRest && !latest.motionEnabled;
          if ok {
            armed := true;
          }
        case DriveRequest(v) =>
          ok := armed;
          if ok {
            intent, intentUntil, releasePending := Some(v), now + DRIVE_LEASE_MS, false;
          }
        case ReleaseRequest =>
          intent, releasePending := None, true;
          ok := true;
      }
    }

    /** Recent telemetry of a ready board without fault. */
    predicate Heard(now: int)
      reads `latest, `received
    {
      latest.ready && !latest.fault && received.Some? && now - received.value <= TELEMETRY_TIMEOUT_MS
    }

    /** There are recipes for the step, all of them admissible now, and nothing runs. */
    predicate Startable(step: nat, verification: bool, payload: Payload)
      reads `armed, `trial, `latest, `sequence
    {
      && step <= 3 && (verification ==> step == 3) && sequence.None? && trial.None?
      && Chosen(table, step, verification) != []
      && forall r :: r in Chosen(table, step, verification) ==> Admissible(r, payload)
    }

    /** Starts all recipes of a step, once every one of them is admissible. */
    method StartSequence(step: nat, verification: bool, payload: Payload, now: int) returns (ok: bool)
      requires Valid()
      modifies `sequence, `trial, `intentUntil, `nextId
      ensures Valid()
      ensures ok <==> old(Startable(step, verification, payload))
      ensures if !ok then sequence == old(sequence) && trial == old(trial)
              else old(sequence == None && trial == None) && sequence.Some? && trial.Some?
                   && sequence.value.recipes == Chosen(table, step, verification)
                   && sequence.value.index == 0 && sequence.value.parameters == latest.parameters
    {
      hide Rows, Fits, Honest;
      if step > 3 || (verification && step != 3) || sequence.Some? || trial.Some? {
        return false;
      }
      var recipes := Chosen(table, step, verification);
      if recipes == [] || exists r :: r in recipes && !Admissible(r, payload) {
        return false;
      }
      assert Admissible(recipes[0], payload) by {
        assert recipes[0] in recipes;
      }
      var q := Sequence(nextId, 0, recipes, latest.parameters, payload, 0);
      NothingRecorded(results, q);
      sequence := Some(q);
      nextId := nextId + 1;
      ok := StartTrial(recipes[0], payload, now);
    }

    /** Stop: whatever ran is recorded as incomplete, and nothing is left to drive. */
    method CancelOperator(now: int)
      requires Valid()
      modifies this
      ensures Valid() && trial == None && sequence == None && !armed && intent == None
    {
      hide Rows, Recorded, Fits;
      FinishTrial(false, now);
      armed, intent, releasePending := false, None, false;
    }

    /** The board accepted the measurement and its deadline; the trial may have been replaced meanwhile. */
    method Prepared(id: nat, now: int)
      requires Valid()
      modifies `trial
      ensures Valid() && (trial.Some? <==> old(trial).Some?)
      ensures trial.Some? ==>
        var t := old(trial).value;
        trial.value == if t.id == id then t.(phase := DrivePhase, started := now) else t
    {
      hide Rows, Recorded, Fits;
      if trial.Some? && trial.value.id == id {
        trial := Some(trial.value.(phase := DrivePhase, started := now));
      }
    }

    method Receive(t: Telemetry, now: int)
      modifies `latest, `received
      ensures latest == t && received == Some(now)
    {
      latest, received := t, Some(now);
    }
  }
}
