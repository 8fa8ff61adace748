/** What the lease protocol guarantees on every run. */
module CalibrationSafety {
  import opened Common
  import opened CalibrationModel

  predicate Within(p: Parameters) {
    && |p| == |RANGES|
    && (forall i :: 0 <= i < |p| ==> RANGES[i].0 <= p[i] <= RANGES[i].1)
    && Whole(p[RAMP]) && Whole(p[RPM_MAX]) && Whole(p[YAW_FEEDBACK])
  }

  /** Kept between all steps; `checked` is when the leases were last looked at. */
  predicate Kept(s: State, checked: nat) {
    && !(s.driving && s.releasing)
    && (s.Moving() ==> s.session && !s.fault)
    && (s.driving ==> checked < s.operatorUs + OPERATOR_US)
    && (s.releasing ==> checked < s.releaseUntilUs <= checked + RELEASE_US)
    && (!s.driving ==> s.vx == 0.0 && s.wz == 0.0)
    && -VX_MAX <= s.vx <= VX_MAX && -WZ_MAX <= s.wz <= WZ_MAX
    && s.heartbeatUs <= checked && s.operatorUs <= checked
    && (s.boundUntilUs != 0 ==> checked < s.boundUntilUs)
    && Within(s.parameters)
  }

  /** While the robot moves: an open session without fault, and no lease has run out. */
  predicate Leased(s: State, now: nat) {
    && (s.Moving() ==> s.session && !s.fault && now < s.heartbeatUs + HEARTBEAT_US && !BoundReached(s, now))
    && (s.driving ==> now < s.operatorUs + OPERATOR_US)
    && (s.releasing ==> now < s.releaseUntilUs)
  }

  lemma ExpiredLeases(s: State, checked: nat, now: nat)
    requires Kept(s, checked) && checked <= now
    ensures Leased(Expired(s, now), now) && Kept(Expired(s, now), now)
    ensures s.Moving() && !Expired(s, now).Moving() ==> Lapse(s, now).Some?
    ensures Lapse(s, now).Some? ==> !Expired(s, now).Moving()
    ensures var over := s.boundUntilUs != 0 && now >= s.boundUntilUs;
            var lost := s.session && now - s.heartbeatUs >= 500000;
            var silent := s.driving && now - s.operatorUs >= 350000;
            var ramped := s.releasing && now >= s.releaseUntilUs;
            var r := Expired(s, now);
            if over || lost || silent || ramped then
              !r.driving && !r.releasing && r.vx == r.wz == 0.0 && r.boundUntilUs == 0
              && r.session == (s.session && (over || !lost))
            else r == s
  {
    hide Within;
  }

  /** A drive is served on a lost heartbeat: the same command found the trial deadline passed, which
    * hides that the heartbeat is lost too. */
  predicate Overlooked(s: State, now: nat, c: Command) {
    && BoundReached(s, now) && s.session && HeartbeatLost(s, now)
    && c.Drive? && Value(c.x, -VX_MAX, VX_MAX) && Value(c.z, -WZ_MAX, WZ_MAX) && s.ready && !s.fault
  }

  /** Everything a command may do: it keeps the invariant, asks for the brake when the robot goes from
    * moving to idle, and only an accepted drive makes the robot drive or changes its target. */
  predicate Lawful(s: State, now: nat, c: Command, brake: bool, r: Reply) {
    && Kept(r.state, now)
    && (brake || (s.Moving() && !r.state.Moving()) ==> r.brake)
    && (r.state.driving ==> AcceptedDrive(c, now, r) || (s.driving && r.state.vx == s.vx && r.state.wz == s.wz))
    && (r.state.parameters != s.parameters ==> (c.Set? || c.Config?) && Resting(s))
    && (r.state.operatorUs != s.operatorUs ==> AcceptedDrive(c, now, r))
    && (r.state.session ==> r.state.heartbeatUs == if c.Heartbeat? || c == Hello(true) then now else s.heartbeatUs)
  }

  predicate AcceptedDrive(c: Command, now: nat, r: Reply) {
    && c.Drive? && r.error == None && r.state.driving && r.state.operatorUs == now
    && c.x == Some(r.state.vx) && c.z == Some(r.state.wz)
  }

  lemma DriveLawful(s: State, now: nat, c: Command, brake: bool)
    requires Kept(s, now) && s.session && c.Drive?
    ensures Lawful(s, now, c, brake, DriveStep(s, now, c.x, c.z, brake))
  {
    hide Within;
  }

  lemma ReleaseLawful(s: State, now: nat, brake: bool)
    requires Kept(s, now) && s.session
    ensures Lawful(s, now, Release, brake, ReleaseStep(s, now, brake))
  {
    hide Within;
  }

  lemma OverwrittenWithin(p: Parameters, words: seq<Option<real>>)
    requires Within(p) && Values(words) && |words| <= |p|
    requires |words| > YAW_FEEDBACK ==>
      var q := Overwritten(p, words); Whole(q[RAMP]) && Whole(q[RPM_MAX]) && Whole(q[YAW_FEEDBACK])
    requires |words| == 5 || |words| == |RANGES|
    ensures Within(Overwritten(p, words))
  {
    hide Whole;
  }

  lemma SetLawful(s: State, now: nat, c: Command, brake: bool)
    requires Kept(s, now) && s.session && Sized(c, s) && (c.Set? || c.Config?)
    ensures Lawful(s, now, c, brake, SetStep(s, c.values, brake))
  {
    hide Within, Values, Overwritten, Whole;
    var r := SetStep(s, c.values, brake);
    if r.error == None {
      OverwrittenWithin(s.parameters, c.values);
    }
  }

  lemma MeasureLawful(s: State, now: nat, c: Command, brake: bool)
    requires Kept(s, now) && s.session && c.Measure?
    ensures Lawful(s, now, c, brake, MeasureStep(s, c.mode, brake))
  {
    hide Within;
  }

  lemma BoundLawful(s: State, now: nat, c: Command, brake: bool)
    requires Kept(s, now) && s.session && c.Bound?
    ensures Lawful(s, now, c, brake, BoundStep(s, now, c.ms, brake))
  {
    hide Within;
  }

  lemma ServeLawful(s: State, now: nat, c: Command, brake: bool)
    requires Kept(s, now) && s.session && Sized(c, s) && !c.Hello?
    ensures Lawful(s, now, c, brake, Serve(s, now, c, brake))
  {
    hide DriveStep, ReleaseStep, SetStep, MeasureStep, BoundStep, Within;
    match c
    case Drive(x, z) => DriveLawful(s, now, c, brake);
    case Release => ReleaseLawful(s, now, brake);
    case Set(words) => SetLawful(s, now, c, brake);
    case Config(words) => SetLawful(s, now, c, brake);
    case Measure(mode) => MeasureLawful(s, now, c, brake);
    case Bound(ms) => BoundLawful(s, now, c, brake);
    case _ =>
  }

  lemma DispatchLawful(s: State, now: nat, c: Command, brake: bool)
    requires Kept(s, now) && Sized(c, s)
    ensures Lawful(s, now, c, brake, Dispatch(s, now, c, brake))
  {
    hide Serve, Within;
    if s.session && !c.Malformed? && !c.Stop? && !c.Hello? && !c.Status? {
      ServeLawful(s, now, c, brake);
    }
  }

  /** A command line on any reachable state. */
  lemma LineLawful(s: State, checked: nat, now: nat, c: Command)
    requires Kept(s, checked) && checked <= now && Sized(c, s)
    ensures var r := Handle(s, now, c);
            && Kept(r.state, now)
            && (s.Moving() && !r.state.Moving() ==> r.brake)
            && (r.state.operatorUs != s.operatorUs ==> AcceptedDrive(c, now, r))
            && (r.state.parameters != s.parameters ==> (c.Set? || c.Config?) && s.atRest)
            && (r.state.driving ==>
                 AcceptedDrive(c, now, r) || (s.driving && r.state.vx == s.vx && r.state.wz == s.wz))
  {
    hide Dispatch, Within, Expired, Lapse;
    ExpiredLeases(s, checked, now);
    ExpiredOnlyStops(s, now);
    DispatchLawful(Expired(s, now).(action := NoAction), now, c, Lapse(s, now).Some?);
  }

  lemma ExpiredOnlyStops(s: State, now: nat)
    ensures var t := Expired(s, now);
            && t.parameters == s.parameters && t.operatorUs == s.operatorUs && t.heartbeatUs == s.heartbeatUs
            && t.atRest == s.atRest && t.ready == s.ready && t.fault == s.fault
            && (t.driving ==> s.driving && t.vx == s.vx && t.wz == s.wz)
            && (t.Moving() ==> s.Moving())
  {
  }

  predicate Drivable(s: State, c: Command) {
    && s.session && s.ready && !s.fault
    && c.Drive? && Value(c.x, -VX_MAX, VX_MAX) && Value(c.z, -WZ_MAX, WZ_MAX)
  }

  lemma DriveLeases(s: State, now: nat, c: Command, brake: bool)
    requires Kept(s, now) && Leased(s, now) && s.session && c.Drive?
    ensures Leased(DriveStep(s, now, c.x, c.z, brake).state, now) <==> !(Drivable(s, c) && HeartbeatLost(s, now))
  {
    hide Within;
  }

  lemma SetTouches(s: State, words: seq<Option<real>>, brake: bool)
    requires |words| <= |s.parameters|
    ensures var t := SetStep(s, words, brake).state;
            t == s || t == s.(parameters := t.parameters, action := SetAction)
  {
  }

  lemma ServeLeases(s: State, now: nat, c: Command, brake: bool)
    requires Kept(s, now) && Leased(s, now) && s.session && Sized(c, s)
    ensures Leased(Serve(s, now, c, brake).state, now) <==> !(Drivable(s, c) && HeartbeatLost(s, now))
  {
    hide Within, DriveStep, SetStep, ReleaseStep, MeasureStep, BoundStep;
    match c
    case Drive(_, _) => DriveLeases(s, now, c, brake);
    case Set(words) => SetTouches(s, words, brake);
    case Config(words) => SetTouches(s, words, brake);
    case Release => ReleaseLeases(s, now, brake);
    case Measure(mode) => RestLeases(s, now, brake);
    case Bound(ms) => RestLeases(s, now, brake);
    case _ =>
  }

  lemma ReleaseLeases(s: State, now: nat, brake: bool)
    requires Leased(s, now)
    ensures Leased(ReleaseStep(s, now, brake).state, now)
  {
  }

  /** Measurements and trial bounds are accepted at rest only. */
  lemma RestLeases(s: State, now: nat, brake: bool)
    requires Leased(s, now)
    ensures forall mode :: Leased(MeasureStep(s, mode, brake).state, now)
    ensures forall ms :: Leased(BoundStep(s, now, ms, brake).state, now)
  {
  }

  lemma DispatchLeases(s: State, now: nat, c: Command, brake: bool)
    requires Kept(s, now) && Leased(s, now) && Sized(c, s)
    ensures Leased(Dispatch(s, now, c, brake).state, now) <==> !(Drivable(s, c) && HeartbeatLost(s, now))
  {
    hide Within, Serve;
    if s.session && !c.Malformed? && !c.Stop? && !c.Hello? && !c.Status? {
      ServeLeases(s, now, c, brake);
    }
  }

  /** A command leaves the robot moving on a lost lease exactly when it is an overlooked drive; the
    * next look at the leases then stops it. */
  lemma LineLeases(s: State, checked: nat, now: nat, c: Command)
    requires Kept(s, checked) && checked <= now && Sized(c, s)
    ensures Leased(Handle(s, now, c).state, now) <==> !Overlooked(s, now, c)
  {
    hide Dispatch, Within;
    var t := Expired(s, now).(action := NoAction);
    ExpiredLeases(s, checked, now);
    ExpiredOnlyStops(s, now);
    DispatchLeases(t, now, c, Lapse(s, now).Some?);
    SessionAfter(s, now);
  }

  lemma SessionAfter(s: State, now: nat)
    ensures Expired(s, now).session <==> s.session && Lapse(s, now) != Some(HeartbeatTimeout)
  {
  }

  /** What a command that sets the robot moving or stops it does, after the leases have expired: when it is
    * accepted, and what it changes. */
  lemma MotionOutcome(s: State, now: nat, c: Command)
    requires Sized(c, s)
    ensures var t := Expired(s, now);
            var r := Handle(s, now, c);
            match c
            case Drive(x, z) =>
              var valid := x.Some? && z.Some? && -0.4 <= x.value <= 0.4 && -0.8 <= z.value <= 0.8;
              if t.session && valid && t.ready && !t.fault then
                && r.error == None && r.state.driving && !r.state.releasing && r.state.action == DriveAction
                && r.state.vx == x.value && r.state.wz == z.value && r.state.operatorUs == now
              else r.error.Some? && (t.session ==> r.brake && !r.state.driving && !r.state.releasing)
            case Release =>
              t.session ==>
                && r.error == None && !r.state.driving && r.state.vx == 0.0 && r.state.wz == 0.0
                && if t.driving || t.releasing then r.state.releasing && r.state.releaseUntilUs == now + 2000000
                   else r.brake && !r.state.releasing
            case Stop => r.error == None && r.brake && !r.state.driving && !r.state.releasing
            case _ => true
  {
    hide Expired, SetStep, MeasureStep, BoundStep;
  }

  /** What the commands for the session do. */
  lemma SessionOutcome(s: State, now: nat, c: Command)
    requires Sized(c, s)
    ensures var t := Expired(s, now);
            var r := Handle(s, now, c);
            match c
            case Hello(supported) =>
              if supported then r.error == None && r.brake && r.state.session && r.state.heartbeatUs == now
                                && !r.state.driving && !r.state.releasing
              else r.error.Some? && r.state.session == t.session
            case Heartbeat =>
              if t.session then r.error == None && r.state == t.(heartbeatUs := now, action := NoAction)
              else r.error.Some? && r.state == t.(action := NoAction)
            case Calibrate =>
              t.session ==> r.error == None && r.brake && !r.state.ready && !r.state.fault && !r.state.driving
                            && !r.state.releasing && r.state.action == GyroAction
            case Status => r.error == None && r.state == t.(action := NoAction)
            case Malformed => r.error.Some? && r.state == t.(action := NoAction)
            case Other => r.error.Some? && r.state == t.(action := NoAction)
            case _ => true
  {
    hide Expired, SetStep, MeasureStep, BoundStep, DriveStep, ReleaseStep;
  }

  /** What the commands that need the robot at rest do. */
  lemma RestOutcome(s: State, now: nat, c: Command)
    requires Sized(c, s)
    ensures var t := Expired(s, now);
            var r := Handle(s, now, c);
            var resting := t.session && t.atRest && !t.driving && !t.releasing;
            match c
            case Bound(ms) =>
              if resting && ms.Some? && 100.0 <= ms.value <= 30000.0 then
                r.error == None && r.state.boundUntilUs == now + (ms.value * 1000.0).Floor
              else r.error.Some? && r.state == t.(action := NoAction)
            case Measure(mode) =>
              if resting && mode != Unreadable then
                r.error == None && r.state.measureBody == (mode == Body) && r.state.action == MeasureAction
              else r.error.Some? && r.state == t.(action := NoAction)
            case _ => true
  {
    hide Expired, SetStep, DriveStep, ReleaseStep;
  }

  /** New parameters are taken over, word by word, if and only if there is a session, every word is a number in
    * its range, the whole numbers are whole and the robot rests. */
  lemma ParametersOutcome(s: State, now: nat, c: Command)
    requires Sized(c, s) && (c.Set? || c.Config?)
    ensures var t := Expired(s, now);
            var r := Handle(s, now, c);
            var words := c.values;
            var inRange := forall i :: 0 <= i < |words| ==>
              words[i].Some? && RANGES[i].0 <= words[i].value <= RANGES[i].1;
            && (r.error == None <==>
                 && t.session && inRange && t.atRest && !t.driving && !t.releasing
                 && (c.Config? ==> words[7].value.Floor as real == words[7].value
                                   && words[8].value.Floor as real == words[8].value
                                   && words[18].value.Floor as real == words[18].value))
            && |r.state.parameters| == |t.parameters|
            && (forall i :: 0 <= i < |t.parameters| ==>
                 r.state.parameters[i] == if r.error == None && i < |words| then words[i].value else t.parameters[i])
  {
    hide Expired, Lapse;
    var t := Expired(s, now).(action := NoAction);
    ExpiredOnlyStops(s, now);
    ParametersStep(t, c, Lapse(s, now).Some?);
  }

  lemma ParametersStep(t: State, c: Command, brake: bool)
    requires Sized(c, t) && (c.Set? || c.Config?)
    ensures var r := SetStep(t, c.values, brake);
            var words := c.values;
            var inRange := forall i :: 0 <= i < |words| ==>
              words[i].Some? && RANGES[i].0 <= words[i].value <= RANGES[i].1;
            && (r.error == None <==>
                 && inRange && t.atRest && !t.driving && !t.releasing
                 && (c.Config? ==> words[7].value.Floor as real == words[7].value
                                   && words[8].value.Floor as real == words[8].value
                                   && words[18].value.Floor as real == words[18].value))
            && |r.state.parameters| == |t.parameters|
            && (forall i :: 0 <= i < |t.parameters| ==>
                 r.state.parameters[i] == if r.error == None && i < |words| then words[i].value else t.parameters[i])
  {
  }

  function Initial(defaults: Parameters): State {
    State(defaults, false, false, false, false, false, false, true, 0, 0, 0, 0, 0.0, 0.0, Boot, NoAction)
  }

  /** The state after a run. */
  function Run(defaults: Parameters, events: seq<Event>): State {
    if events == [] then Initial(defaults)
    else
      var s, e := Run(defaults, events[..|events| - 1]), events[|events| - 1];
      if Enabled(s, e) then Step(s, e) else s
  }

  /** When a run last looked at the leases. */
  function LastCheck(events: seq<Event>): nat {
    if events == [] then 0
    else
      var e := events[|events| - 1];
      if e.Tick? || e.Line? then e.at else LastCheck(events[..|events| - 1])
  }

  ghost predicate EnabledAt(defaults: Parameters, events: seq<Event>, i: nat)
    requires i < |events|
  {
    Enabled(Run(defaults, events[..i]), events[i])
  }

  /** A run on a clock that does not go back, of events that the firmware can produce. */
  ghost predicate Possible(defaults: Parameters, events: seq<Event>) {
    && Within(defaults)
    && (forall i :: 0 < i < |events| ==> events[i - 1].at <= events[i].at)
    && (forall i :: 0 <= i < |events| ==> EnabledAt(defaults, events, i))
  }

  lemma PossiblePrefix(defaults: Parameters, events: seq<Event>, n: nat)
    requires Possible(defaults, events) && n <= |events|
    ensures Possible(defaults, events[..n])
  {
    forall i | 0 <= i < n
      ensures EnabledAt(defaults, events[..n], i)
    {
      assert EnabledAt(defaults, events, i) && events[..n][..i] == events[..i];
    }
  }

  /** The `i`-th event of the run is a drive command that the protocol accepted. */
  ghost predicate DriveAt(defaults: Parameters, events: seq<Event>, i: nat)
    requires i < |events|
  {
    AcceptedAt(Run(defaults, events[..i]), events[i])
  }

  lemma StepKept(s: State, checked: nat, e: Event)
    requires Kept(s, checked) && checked <= e.at && Enabled(s, e)
    ensures Kept(Step(s, e), if e.Tick? || e.Line? then e.at else checked)
  {
    hide Handle, Expired, Within;
    match e
    case Tick(at) => ExpiredLeases(s, checked, at);
    case Line(at, c) => LineLawful(s, checked, at, c);
    case _ =>
  }

  /** The event is a drive command that the protocol accepts in this state. */
  predicate AcceptedAt(s: State, e: Event) {
    e.Line? && Enabled(s, e) && AcceptedDrive(e.command, e.at, Handle(s, e.at, e.command))
  }

  lemma StepTarget(s: State, checked: nat, e: Event)
    requires Kept(s, checked) && checked <= e.at && Enabled(s, e)
    ensures var t := Step(s, e);
            t.driving ==>
              if AcceptedAt(s, e) then t.operatorUs == e.at && e.command == Drive(Some(t.vx), Some(t.wz))
              else s.driving && t.vx == s.vx && t.wz == s.wz && t.operatorUs == s.operatorUs
  {
    hide Handle, Expired, Within;
    match e
    case Tick(at) => ExpiredOnlyStops(s, at);
    case Line(at, c) => LineLawful(s, checked, at, c);
    case _ =>
  }

  /** The invariant holds after every run. */
  lemma {:induction false} RunKept(defaults: Parameters, events: seq<Event>)
    requires Possible(defaults, events)
    ensures Kept(Run(defaults, events), LastCheck(events))
    ensures events != [] ==> LastCheck(events) <= events[|events| - 1].at
  {
    if events == [] {
      hide Within;
    } else {
      var n := |events| - 1;
      PossiblePrefix(defaults, events, n);
      RunKept(defaults, events[..n]);
      assert EnabledAt(defaults, events, n);
      assert n > 0 ==> events[..n][n - 1] == events[n - 1];
      hide Kept, Step;
      StepKept(Run(defaults, events[..n]), LastCheck(events[..n]), events[n]);
    }
  }

  /** The run's last look at the leases was an overlooked drive. */
  predicate LastOverlooked(defaults: Parameters, events: seq<Event>) {
    events != [] &&
    var init, e := events[..|events| - 1], events[|events| - 1];
    match e
    case Tick(_) => false
    case Line(at, c) => Overlooked(Run(defaults, init), at, c)
    case _ => LastOverlooked(defaults, init)
  }

  lemma NotLeasedMoves(s: State, now: nat)
    requires !Leased(s, now)
    ensures s.Moving()
  {
  }

  /** Halts, faults, unplugging and observations leave the leases alone or stop the robot. */
  lemma OtherStepLeases(s: State, e: Event, checked: nat)
    requires Enabled(s, e) && !e.Tick? && !e.Line?
    ensures Step(s, e).Moving() ==> s.Moving() && (Leased(Step(s, e), checked) <==> Leased(s, checked))
  {
  }

  /** After every run all leases hold as of the last look at them, the heartbeat lease included, unless the
    * robot still moves after a drive that was overlooked at that look. */
  lemma {:induction false} RunLeased(defaults: Parameters, events: seq<Event>)
    requires Possible(defaults, events)
    ensures Leased(Run(defaults, events), LastCheck(events)) <==>
            !(LastOverlooked(defaults, events) && Run(defaults, events).Moving())
  {
    if events != [] {
      var n := |events| - 1;
      PossiblePrefix(defaults, events, n);
      RunLeased(defaults, events[..n]);
      RunKept(defaults, events[..n]);
      assert EnabledAt(defaults, events, n);
      assert n > 0 ==> events[..n][n - 1] == events[n - 1];
      var s, checked, e := Run(defaults, events[..n]), LastCheck(events[..n]), events[n];
      assert Run(defaults, events) == Step(s, e) && checked <= e.at;
      hide Kept, Leased, Handle, Expired, Within, Overlooked, Run, State.Moving;
      match e {
        case Tick(at) => ExpiredLeases(s, checked, at);
        case Line(at, c) => LineLeases(s, checked, at, c);
        case _ => OtherStepLeases(s, e, checked);
      }
      if !Leased(Step(s, e), LastCheck(events)) {
        NotLeasedMoves(Step(s, e), LastCheck(events));
      }
    }
  }

  /** The target of a driving robot comes from an accepted drive command, the one whose lease runs. */
  lemma {:induction false} TargetHasDrive(defaults: Parameters, events: seq<Event>) returns (i: nat)
    requires Possible(defaults, events) && Run(defaults, events).driving
    ensures var s := Run(defaults, events);
            && i < |events| && DriveAt(defaults, events, i) && events[i].at == s.operatorUs
            && events[i].command == Drive(Some(s.vx), Some(s.wz))
  {
    var n := |events| - 1;
    var s, e := Run(defaults, events[..n]), events[n];
    PossiblePrefix(defaults, events, n);
    RunKept(defaults, events[..n]);
    assert EnabledAt(defaults, events, n);
    assert n > 0 ==> events[..n][n - 1] == events[n - 1];
    hide Kept, Step, Enabled, AcceptedDrive, EnabledAt;
    StepTarget(s, LastCheck(events[..n]), e);
    if AcceptedAt(s, e) {
      return n;
    }
    i := TargetHasDrive(defaults, events[..n]);
    assert events[..n][i] == events[i] && events[..n][..i] == events[..i];
  }

  /** The dead man's switch: while the leases are looked at every `d`, a target other than zero is
    * younger than the operator's lease plus `d`, whatever the host does. */
  lemma DeadMan(defaults: Parameters, events: seq<Event>, t: nat, d: nat) returns (i: nat)
    requires Possible(defaults, events) && t <= LastCheck(events) + d
    requires Run(defaults, events).vx != 0.0 || Run(defaults, events).wz != 0.0
    ensures i < |events| && DriveAt(defaults, events, i) && t < events[i].at + OPERATOR_US + d
  {
    RunKept(defaults, events);
    i := TargetHasDrive(defaults, events);
  }

  /** A run whose last drive is overlooked, although the leases were looked at one millisecond before:
    * it drives while the last heartbeat is half a second old. */
  const OVERLOOKED_RUN: seq<Event> := [
    Line(0, Hello(true)), Observe(0, true, true), Line(1, Bound(Some(499.0))), Tick(499000),
    Line(500000, Drive(Some(0.1), Some(0.0)))]

  lemma RunSnoc(defaults: Parameters, events: seq<Event>, e: Event)
    requires Enabled(Run(defaults, events), e)
    ensures Run(defaults, events + [e]) == Step(Run(defaults, events), e)
  {
    assert (events + [e])[..|events|] == events;
  }

  lemma OverlookedExample(defaults: Parameters)
    requires Within(defaults)
    ensures Run(defaults, OVERLOOKED_RUN).driving && Run(defaults, OVERLOOKED_RUN).vx == 0.1
    ensures HeartbeatLost(Run(defaults, OVERLOOKED_RUN), 500000)
  {
    assert Sized(Hello(true), Initial(defaults));
    hide Run, Within, Step;
    var run := OVERLOOKED_RUN;
    assert run[..0] == [] && run[..5] == run;
    assert forall i :: 0 <= i < 5 ==> run[..i + 1] == run[..i] + [run[i]];
    EmptyRun(defaults);
    OverlookedSteps(defaults);
    RunSnoc(defaults, run[..0], run[0]);
    RunSnoc(defaults, run[..1], run[1]);
    RunSnoc(defaults, run[..2], run[2]);
    RunSnoc(defaults, run[..3], run[3]);
    RunSnoc(defaults, run[..4], run[4]);
  }

  /** The robot is idle at rest, ready, with a trial of 499 ms allowed. */
  function Allowed(defaults: Parameters): State {
    Initial(defaults).(session := true, ready := true, atRest := true, stopReason := Handshake,
                       boundUntilUs := 499001, action := BoundAction)
  }

  lemma OverlookedSteps(defaults: Parameters)
    requires Sized(Hello(true), Initial(defaults))
    ensures var run := OVERLOOKED_RUN;
            && Step(Step(Step(Initial(defaults), run[0]), run[1]), run[2]) == Allowed(defaults)
            && Step(Allowed(defaults), run[3]) == Allowed(defaults)
            && var last := Step(Allowed(defaults), run[4]);
               last.driving && last.vx == 0.1 && HeartbeatLost(last, 500000)
  {
  }

  lemma EmptyRun(defaults: Parameters)
    ensures Run(defaults, []) == Initial(defaults)
  {
  }
}
