/** Over every run: what is handed to the user is what arrived. */
module SubscriberPayloads {
  import opened Delivery
  import opened DeliveryLog
  import opened StampedDelivery
  import opened SourceSteps
  import opened ClockSteps
  import opened SourcePayloads
  import opened SubscriberModel
  import opened SubscriberSafety
  import opened SubscriberRuns
  import opened SubscriberQueries
  import opened SubscriberSurvival
  import opened SubscriberClocks

  // ----- One source, one handler -----

  /** Everything in the log and the buffer of `r` was in those of `s`, or is one of the samples given. */
  ghost predicate Stems(s: Source, r: Source, given: set<Event>) {
    && (forall k: nat, p: nat :: Delivered(k, p) in r.log ==>
         || Delivered(k, p) in s.log || (k in s.pending && s.pending[k] == p) || Delivered(k, p) in given)
    && (forall k: nat :: k in r.pending ==>
         (k in s.pending && s.pending[k] == r.pending[k]) || Delivered(k, r.pending[k]) in given)
  }

  lemma AddsStems(s: Source, r: Source, given: set<Event>)
    requires AddsFrom(s.log, r.log, s.pending, given)
    requires forall k: nat :: k in r.pending ==>
      (k in s.pending && s.pending[k] == r.pending[k]) || Delivered(k, r.pending[k]) in given
    ensures Stems(s, r, given)
  {
    forall k: nat, p: nat | Delivered(k, p) in r.log
      ensures Delivered(k, p) in s.log || (k in s.pending && s.pending[k] == p) || Delivered(k, p) in given
    {
      var i :| 0 <= i < |r.log| && r.log[i] == Delivered(k, p);
      assert i < |s.log| ==> s.log[i] == r.log[i];
    }
  }

  lemma StemsTrans(a: Source, b: Source, c: Source, given: set<Event>)
    requires Stems(a, b, given) && Stems(b, c, {})
    ensures Stems(a, c, given)
  {
  }

  lemma SameStems(s: Source, r: Source, given: set<Event>)
    requires SameDelivery(s, r)
    ensures Stems(s, r, given)
  {
  }

  lemma ReceiveStems(cfg: Config, global: nat, s: Source, sn: nat, payload: nat)
    ensures Stems(s, Receive(cfg, global, s, sn, payload), {Delivered(sn, payload)})
  {
    hide Receive;
    var r := Receive(cfg, global, s, sn, payload);
    ReceivePayloads(cfg, global, s, sn, payload);
    AddsStems(s, r, {Delivered(sn, payload)});
  }

  lemma DroppedSourceStems(global: nat, s: Source)
    ensures Stems(s, DroppedSource(global, s), {})
  {
    hide Stems, Flush, AddsFrom;
    var s' := s.(queries := SaturatingDecrement(s.queries));
    SameStems(s, s', {});
    FlushPayloads(s');
    AddsStems(s', Flush(s'), {});
    StemsTrans(s, s', Flush(s'), {});
  }

  lemma LaunchStems(global: nat, s: Source, launch: Launch)
    ensures Stems(s, LaunchedSource(global, s, launch), {})
  {
    hide Stems, DroppedSource;
    var s' := s.(queries := Increment(s.queries));
    var s'' := DroppedSource(global, s');
    SameStems(s, s', {});
    SameStems(s, s'.(queries := Decrement(s'.queries)), {});
    DroppedSourceStems(global, s');
    StemsTrans(s, s', s'', {});
    SameStems(s'', s''.(queries := Decrement(s''.queries)), {});
    StemsTrans(s, s'', s''.(queries := Decrement(s''.queries)), {});
  }

  lemma DropStems(st: State, q: Query, id: nat)
    ensures Stems(SourceOf(st, id), SourceOf(DropHandler(st, q), id), {})
  {
    hide Stems, Flush, FlushStamped, DroppedSource, DroppedClock, AddsFrom, Spawn;
    var s := SourceOf(st, id);
    SameStems(s, s, {});
    FlushPayloads(s);
    AddsStems(s, Flush(s), {});
    SpawnStems(st.cfg, s);
    DroppedSourceStems(st.global, s);
  }

  lemma SpawnStems(cfg: Config, s: Source)
    requires Stems(s, Flush(s), {})
    ensures Stems(s, Spawn(cfg, 0, Flush(s)), {})
  {
    hide Flush, Stems;
    SameStems(Flush(s), Spawn(cfg, 0, Flush(s)), {});
    StemsTrans(s, Flush(s), Spawn(cfg, 0, Flush(s)), {});
  }

  /** The samples of a source that an input carries. */
  ghost function Carried(input: Input, id: nat): set<Event> {
    if (input.Live? || input.Reply?) && input.sample.Sequenced? && input.sample.source == id
    then {Delivered(input.sample.sn, input.sample.payload)} else {}
  }

  lemma AtLaunchStems(st: State, input: Input, id: nat)
    requires Launches(st, input, id)
    ensures Stems(SourceOf(st, id), AtLaunch(st, input, id), Carried(input, id))
  {
    hide Stems, Receive;
    var s := SourceOf(st, id);
    var r := AtLaunch(st, input, id);
    if input.Live? {
      var received := Receive(st.cfg, st.global, s, input.sample.sn, input.sample.payload);
      ReceiveStems(st.cfg, st.global, s, input.sample.sn, input.sample.payload);
      SameStems(received, r, {});
      StemsTrans(s, received, r, Carried(input, id));
    } else {
      SameStems(s, r, Carried(input, id));
    }
  }

  lemma QuietStepStems(st: State, input: Input, id: nat)
    requires !Launches(st, input, id) && !input.Drop? && !input.Undeclare?
    ensures Stems(SourceOf(st, id), SourceOf(Step(st, input), id), Carried(input, id))
  {
    hide Stems, Receive, LaunchedSource;
    var s := SourceOf(st, id);
    var r := SourceOf(Step(st, input), id);
    SameStems(s, s, Carried(input, id));
    if !Targets(input, id) {
      OthersUntouched(st, input, id);
    } else if !st.undeclaring && (input.Live? || input.Reply?) {
      var received := Receive(st.cfg, st.global, s, input.sample.sn, input.sample.payload);
      ReceiveStems(st.cfg, st.global, s, input.sample.sn, input.sample.payload);
      assert SameDelivery(received, r);
      SameStems(received, r, {});
      StemsTrans(s, received, r, Carried(input, id));
    }
  }

  /** Whatever a handler delivers or buffers was buffered before with this payload, or is in its input. */
  lemma StepStems(st: State, input: Input, id: nat)
    requires !input.Undeclare?
    ensures Stems(SourceOf(st, id), SourceOf(Step(st, input), id), Carried(input, id))
  {
    hide Stems, Step, Launches, AtLaunch, LaunchedSource;
    if input.Drop? {
      DropStepStems(st, input.query, id);
    } else if Launches(st, input, id) {
      var s := AtLaunch(st, input, id);
      LaunchStep(st, input, id);
      AtLaunchStems(st, input, id);
      LaunchStems(st.global, s, LaunchOf(input));
      StemsTrans(SourceOf(st, id), s, LaunchedSource(st.global, s, LaunchOf(input)), Carried(input, id));
    } else {
      QuietStepStems(st, input, id);
    }
  }

  lemma DropStepStems(st: State, q: Query, id: nat)
    ensures Stems(SourceOf(st, id), SourceOf(Step(st, Drop(q)), id), {})
  {
    hide Stems, DropHandler;
    DropStems(st.(live := st.live - multiset{q}), q, id);
  }

  // ----- Every run, sequenced sources -----

  /** A live sample or a reply brought this sample. */
  ghost predicate Brought(inputs: seq<Input>, sample: Sample) {
    exists i :: 0 <= i < |inputs| && (inputs[i].Live? || inputs[i].Reply?) && inputs[i].sample == sample
  }

  lemma BroughtGrows(inputs: seq<Input>, input: Input, sample: Sample)
    requires Brought(inputs, sample) || ((input.Live? || input.Reply?) && input.sample == sample)
    ensures Brought(inputs + [input], sample)
  {
    var all := inputs + [input];
    if Brought(inputs, sample) {
      var i :| 0 <= i < |inputs| && (inputs[i].Live? || inputs[i].Reply?) && inputs[i].sample == sample;
      assert all[i] == inputs[i];
    } else {
      assert all[|inputs|] == input;
    }
  }

  ghost predicate Genuine(st: State, inputs: seq<Input>, id: nat) {
    && (forall k: nat, p: nat :: Delivered(k, p) in LogOf(st, id) ==> Brought(inputs, Sequenced(id, k, p)))
    && (forall k: nat :: k in SourceOf(st, id).pending ==>
         Brought(inputs, Sequenced(id, k, SourceOf(st, id).pending[k])))
  }

  lemma StepGenuine(st: State, inputs: seq<Input>, input: Input, id: nat)
    requires Sound(st) && Genuine(st, inputs, id)
    ensures Genuine(Step(st, input), inputs + [input], id)
  {
    hide Brought;
    var st' := Step(st, input);
    forall sample | Brought(inputs, sample)
      ensures Brought(inputs + [input], sample)
    {
      BroughtGrows(inputs, input, sample);
    }
    if st.undeclaring {
      UndeclaredStaysEmpty(st, input);
    } else if !input.Undeclare? {
      forall k: nat, p: nat | Delivered(k, p) in Carried(input, id)
        ensures Brought(inputs + [input], Sequenced(id, k, p))
      {
        BroughtGrows(inputs, input, Sequenced(id, k, p));
      }
      StepGenuineDeclared(st, inputs, input, id);
    }
  }

  lemma LogIsSource(st: State, id: nat)
    requires Sound(st) && !st.undeclaring
    ensures LogOf(st, id) == SourceOf(st, id).log && StampsOf(st, id) == ClockOf(st, id).log
  {
  }

  lemma StepGenuineDeclared(st: State, inputs: seq<Input>, input: Input, id: nat)
    requires Sound(st) && Genuine(st, inputs, id) && !st.undeclaring && !input.Undeclare?
    requires forall sample :: Brought(inputs, sample) ==> Brought(inputs + [input], sample)
    requires forall k: nat, p: nat :: Delivered(k, p) in Carried(input, id) ==>
      Brought(inputs + [input], Sequenced(id, k, p))
    ensures Genuine(Step(st, input), inputs + [input], id)
  {
    hide Brought, Step, Carried, Sound;
    StepSound(st, input);
    StepDeclared(st, input);
    LogIsSource(st, id);
    LogIsSource(Step(st, input), id);
    StepStems(st, input, id);
  }

  lemma StepDeclared(st: State, input: Input)
    requires !input.Undeclare?
    ensures Step(st, input).undeclaring == st.undeclaring
  {
    hide Flush, FlushStamped, DroppedSource, DroppedClock, Receive, ReceiveStamped;
  }

  /** On every run, whatever fails: each sample that was delivered, or is buffered, arrived live or as a reply,
    * from this source, with this number and this payload. */
  lemma {:induction false} DeliveredAsSent(cfg: Config, inputs: seq<Input>, id: nat)
    ensures Genuine(Run(InitialState(cfg), inputs), inputs, id)
  {
    hide Step, Sound;
    if inputs != [] {
      var init := inputs[..|inputs| - 1];
      DeliveredAsSent(cfg, init, id);
      RunSound(cfg, init);
      StepGenuine(Run(InitialState(cfg), init), init, inputs[|inputs| - 1], id);
      assert inputs == init + [inputs[|inputs| - 1]];
    }
  }

  // ----- Timestamped sources -----

  ghost predicate StampStems(c: Clock, r: Clock, given: set<Stamp>) {
    && (forall s :: s in r.log ==>
         s in c.log || (s.time in c.pending && c.pending[s.time] == s.payload) || s in given)
    && (forall t: nat :: t in r.pending ==>
         (t in c.pending && c.pending[t] == r.pending[t]) || Stamp(t, r.pending[t]) in given)
  }

  lemma FlushStampStems(c: Clock)
    ensures StampStems(c, FlushStamped(c), {})
  {
    hide FlushStamped;
    FlushStampPayloads(c);
    var r := FlushStamped(c);
    forall s | s in r.log
      ensures s in c.log || (s.time in c.pending && c.pending[s.time] == s.payload)
    {
      var i :| 0 <= i < |r.log| && r.log[i] == s;
      assert i < |c.log| ==> c.log[i] == r.log[i];
    }
  }

  lemma CounterStems(c: Clock, n: nat, r: Clock, given: set<Stamp>)
    ensures StampStems(c.(queries := n), r, given) <==> StampStems(c, r, given)
    ensures StampStems(r, c.(queries := n), given) <==> StampStems(r, c, given)
    ensures StampStems(c, c, given)
  {
  }

  lemma DroppedClockStems(global: nat, c: Clock)
    ensures StampStems(c, DroppedClock(global, c), {})
  {
    hide StampStems, FlushStamped;
    var d := c.(queries := SaturatingDecrement(c.queries));
    FlushStampStems(d);
    CounterStems(c, d.queries, FlushStamped(d), {});
    CounterStems(c, d.queries, c, {});
  }

  lemma LaunchedClockStems(global: nat, c: Clock, launch: Launch)
    ensures StampStems(c, LaunchedClock(global, c, launch), {})
  {
    hide StampStems, DroppedClock;
    var c' := c.(queries := Increment(c.queries));
    var c'' := DroppedClock(global, c');
    DroppedClockStems(global, c');
    CounterStems(c, c'.queries, c'', {});
    CounterStems(c, c'.queries, c, {});
    CounterStems(c, Decrement(c'.queries), c, {});
    CounterStems(c'', Decrement(c''.queries), c, {});
  }

  lemma DropStampStems(st: State, q: Query, id: nat)
    ensures StampStems(ClockOf(st, id), ClockOf(DropHandler(st, q), id), {})
  {
    hide StampStems, Flush, FlushStamped, DroppedSource, DroppedClock, Spawn;
    var c := ClockOf(st, id);
    FlushStampStems(c);
    CounterStems(c, c.queries, c, {});
    DroppedClockStems(st.global, c);
  }

  ghost function CarriedStamp(input: Input, id: nat): set<Stamp> {
    if (input.Live? || input.Reply?) && input.sample.Timestamped? && input.sample.clock == id
    then {Stamp(input.sample.time, input.sample.payload)} else {}
  }

  lemma ReceiveStampStems(cfg: Config, global: nat, c: Clock, time: nat, payload: nat)
    ensures StampStems(c, ReceiveStamped(cfg, global, c, time, payload), {Stamp(time, payload)})
  {
    hide ReceiveStamped;
    var r := ReceiveStamped(cfg, global, c, time, payload);
    ReceiveStampPayloads(cfg, global, c, time, payload);
    forall s | s in r.log
      ensures s in c.log || (s.time in c.pending && c.pending[s.time] == s.payload) || s == Stamp(time, payload)
    {
      var i :| 0 <= i < |r.log| && r.log[i] == s;
      assert i < |c.log| ==> c.log[i] == r.log[i];
    }
  }

  /** Whatever a handler delivers or buffers was buffered before with this payload, or is in its input. */
  lemma StepStampStems(st: State, input: Input, id: nat)
    requires !input.Undeclare?
    ensures StampStems(ClockOf(st, id), ClockOf(Step(st, input), id), CarriedStamp(input, id))
  {
    hide StampStems, Step, LaunchedClock, ReceiveStamped;
    var c := ClockOf(st, id);
    CounterStems(c, c.queries, c, CarriedStamp(input, id));
    if input.Drop? {
      DropStepStampStems(st, input.query, id);
    } else if !TargetsClock(input, id) {
      OtherClocksUntouched(st, input, id);
    } else if st.undeclaring {
      assert ClockOf(Step(st, input), id) == c by {
        UndeclaredLeaves(st, input, id);
      }
    } else {
      ClockStep(st, input, id);
      if input.NewClock? {
        LaunchedClockStems(st.global, c, input.launch);
      } else {
        ReceiveStampStems(st.cfg, st.global, c, input.sample.time, input.sample.payload);
      }
    }
  }

  lemma UndeclaredLeaves(st: State, input: Input, id: nat)
    requires st.undeclaring && !input.Drop?
    ensures ClockOf(Step(st, input), id) == ClockOf(st, id)
  {
  }

  lemma DropStepStampStems(st: State, q: Query, id: nat)
    ensures StampStems(ClockOf(st, id), ClockOf(Step(st, Drop(q)), id), {})
  {
    hide StampStems, DropHandler;
    DropStampStems(st.(live := st.live - multiset{q}), q, id);
  }

  ghost predicate GenuineStamps(st: State, inputs: seq<Input>, id: nat) {
    && (forall s :: s in StampsOf(st, id) ==> Brought(inputs, Timestamped(id, s.time, s.payload)))
    && (forall t: nat :: t in ClockOf(st, id).pending ==>
         Brought(inputs, Timestamped(id, t, ClockOf(st, id).pending[t])))
  }

  lemma StepGenuineStamps(st: State, inputs: seq<Input>, input: Input, id: nat)
    requires Sound(st) && GenuineStamps(st, inputs, id)
    ensures GenuineStamps(Step(st, input), inputs + [input], id)
  {
    hide Brought;
    forall sample | Brought(inputs, sample)
      ensures Brought(inputs + [input], sample)
    {
      BroughtGrows(inputs, input, sample);
    }
    if st.undeclaring {
      UndeclaredStaysEmpty(st, input);
    } else if !input.Undeclare? {
      forall s | s in CarriedStamp(input, id)
        ensures Brought(inputs + [input], Timestamped(id, s.time, s.payload))
      {
        BroughtGrows(inputs, input, Timestamped(id, s.time, s.payload));
      }
      hide Step, Sound;
      StepSound(st, input);
      StepDeclared(st, input);
      LogIsSource(st, id);
      LogIsSource(Step(st, input), id);
      StepStampStems(st, input, id);
    }
  }

  /** The same for timestamped sources. */
  lemma {:induction false} StampsAsSent(cfg: Config, inputs: seq<Input>, id: nat)
    ensures GenuineStamps(Run(InitialState(cfg), inputs), inputs, id)
  {
    hide Step, Sound;
    if inputs != [] {
      var init := inputs[..|inputs| - 1];
      StampsAsSent(cfg, init, id);
      RunSound(cfg, init);
      StepGenuineStamps(Run(InitialState(cfg), init), init, inputs[|inputs| - 1], id);
      assert inputs == init + [inputs[|inputs| - 1]];
    }
  }

  // ----- Samples without number and timestamp -----

  /** The payloads of the unstamped samples that arrive before the undeclaration, in their order. */
  function PlainArrivals(inputs: seq<Input>): seq<nat> {
    if inputs == [] then []
    else
      var init, input := inputs[..|inputs| - 1], inputs[|inputs| - 1];
      PlainArrivals(init) +
      if Undeclare !in init && (input.Live? || input.Reply?) && input.sample.Unstamped? then [input.sample.payload]
      else []
  }

  lemma StepPlain(st: State, input: Input)
    ensures Step(st, input).plain == st.plain +
      if !st.undeclaring && (input.Live? || input.Reply?) && input.sample.Unstamped? then [input.sample.payload]
      else []
    ensures Step(st, input).undeclaring <==> st.undeclaring || input.Undeclare?
  {
    hide Flush, FlushStamped, DroppedSource, DroppedClock, Receive, ReceiveStamped, LaunchedSource, LaunchedClock,
         Spawn;
  }

  lemma {:induction false} UndeclaringSince(cfg: Config, inputs: seq<Input>)
    ensures Run(InitialState(cfg), inputs).undeclaring <==> Undeclare in inputs
  {
    hide Step;
    if inputs != [] {
      var init := inputs[..|inputs| - 1];
      UndeclaringSince(cfg, init);
      StepPlain(Run(InitialState(cfg), init), inputs[|inputs| - 1]);
      assert inputs == init + [inputs[|inputs| - 1]];
    }
  }

  /** Samples without number and timestamp are handed out at once, each once, in the order of their arrival. */
  lemma {:induction false} PlainAsSent(cfg: Config, inputs: seq<Input>)
    ensures Run(InitialState(cfg), inputs).plain == PlainArrivals(inputs)
  {
    hide Step;
    if inputs != [] {
      var init := inputs[..|inputs| - 1];
      PlainAsSent(cfg, init);
      UndeclaringSince(cfg, init);
      StepPlain(Run(InitialState(cfg), init), inputs[|inputs| - 1]);
    }
  }
}
