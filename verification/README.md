# Verified models of the base101 firmware

Dafny models of the parts of the base101 robot firmware, and of the zenoh-pico library inside it, on
which messages and motion depend, with proofs of what they promise on every input and every run.
`dafny verify dfyconfig.toml` checks everything.

Code that changes state in place is modelled by classes and loops that do the same; each is proved equal
to a specification on values, and the main results are proved about that specification.

- **Lossy delivery** (`Delivery`, `SourceSteps`, `ClockSteps`, `SourcePayloads`, `Subscriber*`): the advanced subscriber.
  Samples, query replies, query ends, heartbeats, liveliness tokens, periodic ticks and the undeclaration
  interleave freely, and a query launch may be refused. `SubscriberModel` is the step system with its log of
  callbacks, `Subscriber` the objects that refine it, the other files the results over whole runs.
- **Publisher and cache** (`Ring`, `AdvancedCache`, `Publisher`): numbering, the ring cache and its query
  handler, and publisher, cache and subscriber put together.
- **Motion shaping** (`Motion`, `MotionSafety`, `Glide`): the jerk-limited tracker and the yaw controller, over
  exact reals; the library square root is any function with `r >= 0` and `r * r == x`.
- **Wheels and gyro** (`GyroYaw`, `Wheels`): bias calibration and the interlock, on top of the controller.
- **Containers** (`Sequences`, `LinkedList`, `HashTable`, `HashMap`, `LruKeys`, `LruRuns`, `LruCache`, `Bytes`, `BytesWriter`):
  pointer structures against simple ones.
- **Shared ownership** (`RefCount`): strong and weak counts under every interleaving of atomic steps.
- **Calibration and time** (`Calibration*`, `Sequencer`, `TimeSync`): the lease protocol, the host's trial
  sequencer and clock synchronisation.

## Findings

The code is modelled as it is. Where a property fails, a lemma gives a case and another the exact condition.

- Before the first delivery of a source, samples can be lost without being delivered or reported missed: a buffered
  one when the history query has ended and a newer sample becomes the first delivery (`OvertakenSampleIsLost`), and
  one of a recovery query's answer when a newer live sample was the first delivery (`LateReplyIsLost`). Of what
  a recovery query brings while no miss is reported, exactly the samples older than the first delivery are lost
  (`RecoveredOnce`); the exact condition for every arriving sample, in every mode, is in `ArrivedOnce`.
- Without retransmission, samples that were received and buffered are reported missed when a newer one is delivered
  over the gap that they lie in (`BufferedReportedMissed`, exact condition in `PlainArrivalKeeps`).
- A launch refused late decrements its counter twice, because the session runs the drop handler before the caller
  decrements (lib/zenoh-pico/src/net/primitives.c:560-591). At a zero counter it wraps, what is buffered or arrives
  later over a gap is stranded (`LateRefusalStrands`, `SpoiledCounterStrands`). A recovery launch refused early with no
  query outstanding strands the sample that it was for. Nothing else strands samples of sequenced sources (`StepSecure`,
  `RunSecureExactly`), and for timestamped ones only the wrapped counter does (`StepClockSecure`, `RunClockSecure`).
- After a late refusal at a nonzero counter, the counter is below the number of live queries, and a miss can be reported
  while a query is outstanding (`MissedWhileOutstanding`, exact condition in `MissesWhileOutstanding`). A timestamped
  source can take itself for quiet over a nonempty buffer, and the next arrival overtakes what is buffered, which is lost
  (`OvertakenStampIsLost`, exact conditions in `StepBuffering`, `RunBuffering` and `FateOfStamp`).
- A publisher that cannot get a timestamp has already used up the sequence number (`AdvancedPublisher.Put`).
- A periodic heartbeat before the first sample announces number 2^32 − 1 (`HeartbeatHandler`).
- The evicting insert of the LRU cache can leave its index unsorted, and the new key is then not found
  (`MisplacedExample`, exact condition in `ReplacedSorted` and `Insert`, over histories in `RunSorted`); a later
  eviction can then leave a released node in it (`StaleExample`).
- While the yaw controller is constrained, a large opposing error takes the integrator across zero, up to the opposite
  limit (`IntegratorCrosses`, exact condition in `AntiWindup`).
- A writer whose first write is empty refuses all later bytes (`EmptyFirstWrite`, exact condition in `WriteAll`).
- A drive command that meets a passed trial deadline and a lost heartbeat at once is served, because the deadline
  hides the heartbeat; the next look at the leases stops the robot (`OverlookedExample`, exact condition in
  `LineLeases`).

## Model

| member | source | states |
|---|---|---|
| DeliveryLog.Conservation | lib/zenoh-pico/src/api/advanced_subscriber.c:424-482 | for every callback log: last delivered − first delivered + 1 equals the deliveries plus the sum of all reported misses |
| DeliveryLog.ExactlyOnce | lib/zenoh-pico/src/api/advanced_subscriber.c:424-482 | every sequence number between the first delivery and the last is accounted for by exactly one callback: one delivery, or one miss report that spans it |
| DeliveryLog.StrictlyIncreasing | lib/zenoh-pico/src/api/advanced_subscriber.c:424-482 | of two deliveries in a log the earlier one has the smaller sequence number |
| SourceSteps.DrainRunLogs | lib/zenoh-pico/src/api/advanced_subscriber.c:433-443 | draining the run that follows the last delivery only adds deliveries, keeps the log unbroken and leaves no next expected sample waiting |
| SourceSteps.DrainRunKeeps | lib/zenoh-pico/src/api/advanced_subscriber.c:433-443 | draining neither loses nor invents: what is delivered or buffered ahead afterwards is exactly what was before |
| SourceSteps.OfferAllKeeps | lib/zenoh-pico/src/api/advanced_subscriber.c:448-482 | a flush delivers exactly the buffered samples newer than the last delivery, keeps the log unbroken with each gap reported, and never steps back |
| SourceSteps.FlushKeeps | lib/zenoh-pico/src/api/advanced_subscriber.c:448-482 | a flush neither loses nor invents a sample, and with no query of the source left it empties the buffer |
| SourceSteps.ReceiveKeepsExactly | lib/zenoh-pico/src/api/advanced_subscriber.c:555-648 | in history, retransmission and plain mode: after an arrival a sample is delivered or buffered ahead if and only if it was before and is not overtaken, or is the arriving one and newer than the last delivery; an arrival overtakes the older buffered samples when it becomes the first delivery after the history query, or when it is delivered over a gap without retransmission |
| SourceSteps.ReceiveKeeps | lib/zenoh-pico/src/api/advanced_subscriber.c:555-648 | an arriving sample, in history, retransmission and plain mode, keeps the log unbroken and never moves the source back; with retransmission nothing delivered or buffered ahead of a delivery is lost |
| SourceSteps.PlainArrivalKeeps | lib/zenoh-pico/src/api/advanced_subscriber.c:602-648 | without retransmission, a sample buffered ahead survives an arrival if and only if that leaves no gap or is not newer |
| SourceSteps.LostStaysLost | lib/zenoh-pico/src/api/advanced_subscriber.c:424-482 | what lies behind the last delivery and was not delivered never will be |
| SourceSteps.ReceiveReportsNoMiss | lib/zenoh-pico/src/api/advanced_subscriber.c:602-632 | with retransmission an arrival only adds deliveries to the log, never a miss |
| SourceSteps.ReceiveCovers | lib/zenoh-pico/src/api/advanced_subscriber.c:602-632 | with retransmission and something delivered, an arriving sample is delivered or buffered ahead afterwards if and only if it was already, or is newer than the last delivery |
| SourceSteps.BufferedSurvives | lib/zenoh-pico/src/api/advanced_subscriber.c:555-601 | before the first delivery, a buffered sample survives an arrival if and only if the history query is still outstanding or the arriving sample is not newer |
| SourcePayloads.ReceivePayloads | lib/zenoh-pico/src/api/advanced_subscriber.c:555-648 | in every mode: whatever an arrival delivers or buffers under its own number has the arriving payload, and everything else that it delivers or leaves in the buffer was buffered, with the payload buffered for that number |
| SourcePayloads.FlushPayloads | lib/zenoh-pico/src/api/advanced_subscriber.c:448-482 | a flush delivers nothing but buffered samples, each number with the payload buffered for it |
| SourcePayloads.DrainDelivers | lib/zenoh-pico/src/api/advanced_subscriber.c:433-443 | draining delivers exactly the buffered numbers that follow the last delivery without a gap, and leaves exactly the others |
| SourcePayloads.ReceiveDelivers | lib/zenoh-pico/src/api/advanced_subscriber.c:555-648 | exactly which numbers an arrival delivers, in every mode: nothing, itself alone, itself and all that follow without a gap, or, when the history buffer has reached its depth, the smallest buffered number and all that follow it |
| ClockSteps.FlushStampedKeeps | lib/zenoh-pico/src/api/advanced_subscriber.c:485-505 | a flush of a timestamped source keeps time order, neither loses nor invents a sample, and empties the buffer exactly when no query of the source is counted |
| ClockSteps.ReceiveStampedExactly | lib/zenoh-pico/src/api/advanced_subscriber.c:649-718 | after an arrival a timestamped sample is delivered or buffered ahead if and only if it was before and is not overtaken, or is the arriving one and newer than the last delivery; an arrival that is delivered at once overtakes the older buffered samples |
| ClockSteps.ReceiveStampedKeeps | lib/zenoh-pico/src/api/advanced_subscriber.c:649-718 | while the buffer is used only with a query outstanding, an arriving sample newer than the last delivery is delivered or buffered, and nothing delivered or buffered is lost |
| ClockSteps.ReceiveStampedOrdered | lib/zenoh-pico/src/api/advanced_subscriber.c:649-718 | an arrival keeps deliveries strictly increasing in time, whatever the buffer holds |
| SourcePayloads.ReceiveStampPayloads | lib/zenoh-pico/src/api/advanced_subscriber.c:649-718 | an arrival of a timestamped source delivers its own payload at once, or buffers it unless a sample with its time is there already, and what then comes out of the buffer comes with the payload it was buffered with |
| SourcePayloads.ReceiveStampDelivers | lib/zenoh-pico/src/api/advanced_subscriber.c:649-718 | exactly which timestamps a newer arrival delivers: itself, or nothing, or, when the buffer has reached its depth and no query of the source is counted, all buffered ones newer than the last delivery |
| SubscriberSafety.StepKeepsSource | lib/zenoh-pico/src/api/advanced_subscriber.c:796-1643 | whichever handler runs, and for whatever source, logs only grow and stay unbroken and the source never steps back; with retransmission nothing delivered or buffered ahead of a delivery is lost |
| SubscriberSafety.OthersUntouched | lib/zenoh-pico/src/api/advanced_subscriber.c:1134-1205 | a handler that works on one source leaves every other source as it was |
| SubscriberSafety.RunSound | lib/zenoh-pico/src/api/advanced_subscriber.c:38-49 | after every run of atomic handlers the whole state is sound: logs unbroken up to a last delivery, timestamps increasing, with retransmission no next expected sample left in a buffer, nothing left after the undeclaration |
| SubscriberSafety.UndeclaredStaysEmpty | lib/zenoh-pico/src/api/advanced_subscriber.c:1207-1229 | once undeclared, no handler changes what was reported |
| SubscriberRuns.Accounting | lib/zenoh-pico/src/api/advanced_subscriber.c:424-482 | on every run from the declaration, in every mode and whatever launches fail: a log begins and ends with a delivery, deliveries of a source strictly increase, each number from the first to the last was delivered once or reported missed once, and the counts add up |
| SubscriberRuns.SilentAfterUndeclare | lib/zenoh-pico/src/api/advanced_subscriber.c:1207-1229 | after the drop handler has set the undeclaring flag no later input makes the subscriber call the user again |
| SubscriberPayloads.StepStems | lib/zenoh-pico/src/api/advanced_subscriber.c:796-1643 | for every handler: what it delivers or leaves in the buffer of a source was there before with this payload, or came with its input |
| SubscriberPayloads.DeliveredAsSent | lib/zenoh-pico/src/api/advanced_subscriber.c:433-648 | on every run, whatever fails: each sample handed to the user, or buffered, arrived live or as a reply from this source with this number and this payload |
| SubscriberPayloads.StampsAsSent | lib/zenoh-pico/src/api/advanced_subscriber.c:485-505 | the same for timestamped sources, with this time and this payload |
| SubscriberPayloads.PlainAsSent | lib/zenoh-pico/src/api/advanced_subscriber.c:719-723 | samples without number and timestamp are handed to the user each once, in the order they arrive in, up to the undeclaration |
| SubscriberQueries.StepCounted | lib/zenoh-pico/src/api/advanced_subscriber.c:796-853 | a handler whose launch is not refused late keeps each counter equal to the number of its live query contexts |
| SubscriberQueries.RunCounted | lib/zenoh-pico/src/api/advanced_subscriber.c:796-853 | on every run without a late refusal, each pending-query counter is the number of live contexts |
| SubscriberQueries.StrandedMeansNotReleased | lib/zenoh-pico/src/api/advanced_subscriber.c:796-853 | what stranded means: when all outstanding queries are dropped, in whatever order, the buffer is empty if and only if nothing was stranded |
| SubscriberQueries.StepSecure | lib/zenoh-pico/src/api/advanced_subscriber.c:1134-1643 | for every handler: afterwards nothing is stranded and the drops still bring the counter to zero, if and only if no launch was refused late at a zero counter and no recovery launch early with no query outstanding |
| SubscriberQueries.RunSecureExactly | lib/zenoh-pico/src/api/advanced_subscriber.c:451-453 | the same over every run, whatever else is refused: no sample is ever stranded and no counter spoiled if and only if no launch ends in one of those two ways |
| SubscriberQueries.RunUnstranded | lib/zenoh-pico/src/api/advanced_subscriber.c:451-453 | so on such runs a source with a nonempty buffer has an outstanding query, its own or the history query, whose drop will release it |
| SubscriberQueries.LaunchOutcome | lib/zenoh-pico/src/api/advanced_subscriber.c:1000-1643 | for the launches of all four handlers (live sample, heartbeat, detection, tick) and the three ways they end: exactly when the buffer is stranded, when the counter no longer returns to zero, and when it is left at its maximum |
| SubscriberQueries.SpoiledCounterStrands | lib/zenoh-pico/src/api/advanced_subscriber.c:1166-1198 | while the counter is spoiled every gap is stranded on arrival, however the launches end |
| SubscriberMisses.StepCountedFor | lib/zenoh-pico/src/api/advanced_subscriber.c:796-853 | for every handler: the counter of a source stays the number of its live queries if and only if no launch for it is refused late |
| SubscriberMisses.RunCountedExactly | lib/zenoh-pico/src/api/advanced_subscriber.c:796-853 | the same over runs, whatever happens to the launches for other sources |
| SubscriberMisses.DropNeverSaturates | lib/zenoh-pico/src/api/advanced_subscriber.c:829-853 | no drop finds the history counter at zero, or the counter of a source on runs on which no launch for it is refused late |
| SubscriberMisses.SaturatesWhenShort | lib/zenoh-pico/src/api/advanced_subscriber.c:829-853 | when all outstanding queries of a source are dropped, the saturating decrement saturates if and only if the counter was below their number |
| SubscriberMisses.FlushMisses | lib/zenoh-pico/src/api/advanced_subscriber.c:448-482 | a flush reports a miss if and only if no query of the source is counted and a number is missing in front of a buffered sample |
| SubscriberMisses.StepMissesExactly | lib/zenoh-pico/src/api/advanced_subscriber.c:796-1643 | with retransmission, for every handler: a miss is reported if and only if it makes the source flush a buffer with a gap |
| SubscriberMisses.OnlyDropsReportMisses | lib/zenoh-pico/src/api/advanced_subscriber.c:602-632 | with retransmission, besides drops an input reports a miss if and only if it is a launch refused late at a counter that is, or wraps to, zero, with history over and a gap in the buffer |
| SubscriberMisses.MissesOnlyWhenQuiet | lib/zenoh-pico/src/api/advanced_subscriber.c:448-482 | with retransmission and a right counter, a miss is reported only when no query, global or of the source, is outstanding afterwards |
| SubscriberMisses.MissesWhileOutstanding | lib/zenoh-pico/src/api/advanced_subscriber.c:448-482 | with retransmission, a miss is reported while a query of the source is outstanding if and only if the flush of a gap finds the counter at zero below the number of live queries; the counter was wrong before |
| SubscriberMisses.RunMissesExactly | lib/zenoh-pico/src/api/advanced_subscriber.c:448-482 | with retransmission, a run reports a miss of a source if and only if one of its inputs flushes a gap |
| SubscriberMisses.HandlersAsk | lib/zenoh-pico/src/api/advanced_subscriber.c:1000-1643 | while the counter of a source is right, exactly when a handler adds a query for it, if the launch goes through: a heartbeat that announces something new, a live sample that leaves something buffered with retransmission, a tick after history, each only with no query of the source outstanding; a heartbeat before the first delivery and a detection always |
| SubscriberMisses.PeriodicStarts | lib/zenoh-pico/src/api/advanced_subscriber.c:796-827 | the periodic query of a source starts, if a period is set, exactly at its first live sample or detection when no history query is counted, or at the end of the last history query, and stops only with the undeclaration |
| SubscriberSurvival.StepKeepsExactly | lib/zenoh-pico/src/api/advanced_subscriber.c:796-1643 | for every handler: exactly which samples of a source are delivered or buffered ahead afterwards |
| SubscriberSurvival.RunKeepsExactly | lib/zenoh-pico/src/api/advanced_subscriber.c:555-648 | over every run a delivered or buffered sample stays so if and only if no arrival overtakes it; once overtaken it is passed for good |
| SubscriberSurvival.NeverLost | lib/zenoh-pico/src/api/advanced_subscriber.c:602-632 | with retransmission, a sample once delivered or buffered ahead of a delivery stays so over any later run, failed launches included |
| SubscriberSurvival.QuietMeansDelivered | lib/zenoh-pico/src/api/advanced_subscriber.c:829-840 | with no query outstanding, a sample has been delivered exactly once and by no miss report if and only if it was not lost |
| SubscriberSurvival.ArrivedOnce | lib/zenoh-pico/src/api/advanced_subscriber.c:555-648 | the fate of every arriving sample, live or a reply, in every mode: when no query is left it has been delivered exactly once if and only if it was delivered already or newer than the last delivery on arrival, and no newer arrival overtook it |
| SubscriberRecovery.NoMissWhileOutstanding | lib/zenoh-pico/src/api/advanced_subscriber.c:1166-1186 | from the launch of a recovery query to its drop nothing of the source is reported missed, if and only if no flush of a gap finds the counter at zero |
| SubscriberRecovery.QueryIsWindow | lib/zenoh-pico/src/api/advanced_subscriber.c:1166-1186 | that time is one without a flushed gap if and only if nothing is reported early, and in particular if no launch for the source is refused late |
| SubscriberRecovery.WindowCovers | lib/zenoh-pico/src/api/advanced_subscriber.c:1166-1186 | in a stretch without a flushed gap, such as the life of a query: every sample newer than what was delivered at its start, if anything, that arrives in it, as a reply or live, in any order, is delivered or safely buffered if and only if it is not older than the first delivery of the source |
| SubscriberRecovery.LaterWindowCovers | lib/zenoh-pico/src/api/advanced_subscriber.c:1166-1186 | so such a stretch that starts after the first delivery loses nothing that arrives in it |
| SubscriberRecovery.WindowCompletes | lib/zenoh-pico/src/api/advanced_subscriber.c:1166-1186 | if everything wanted up to some number arrives in such a stretch, all of it has been delivered in sequence and without a miss at its end; wanted is everything after the last delivery at the start, or from the first delivery on |
| SubscriberRecovery.RecoveredOnce | lib/zenoh-pico/src/api/advanced_subscriber.c:1166-1186 | over a whole run: each sample that arrives in such a stretch has been delivered exactly once, and is in no miss report, as soon as no query is left, if and only if it is not older than the first delivery |
| SubscriberExamples.OvertakenSampleIsLost | lib/zenoh-pico/src/api/advanced_subscriber.c:555-601 | a run in which a buffered sample is neither delivered nor reported missed although all queries are over: the arrival that overtakes it becomes the first delivery |
| SubscriberExamples.LateReplyIsLost | lib/zenoh-pico/src/api/advanced_subscriber.c:1580-1641 | a run in which a sample of a recovery query’s answer arrives while the query is outstanding and is lost: a newer live sample had become the first delivery |
| SubscriberExamples.BufferedReportedMissed | lib/zenoh-pico/src/api/advanced_subscriber.c:602-648 | a run without retransmission in which two samples are received and buffered, and then reported missed |
| SubscriberExamples.LateRefusalStrands | lib/zenoh-pico/src/api/advanced_subscriber.c:1166-1198 | a run in which a late refusal leaves a sample buffered with no query outstanding to release it and the counter at its maximum |
| SubscriberExamples.MissedWhileOutstanding | lib/zenoh-pico/src/api/advanced_subscriber.c:1333-1499 | a run in which a second launch is refused late, and a miss is then reported with a query of the source outstanding |
| SubscriberExamples.OvertakenStampIsLost | lib/zenoh-pico/src/api/advanced_subscriber.c:1333-1499 | a run in which a second launch for a timestamped source is refused late, and a sample that was newer than everything delivered is lost |
| SubscriberClocks.TimestampsIncrease | lib/zenoh-pico/src/api/advanced_subscriber.c:485-505 | on every run, whatever launches fail, the samples of a timestamped source are delivered in strictly increasing time order |
| SubscriberClocks.StepCoversExactly | lib/zenoh-pico/src/api/advanced_subscriber.c:796-1643 | for every handler: exactly which samples of a timestamped source are delivered or buffered ahead afterwards |
| SubscriberClocks.FateOfStamp | lib/zenoh-pico/src/api/advanced_subscriber.c:649-718 | over any run, whatever launches are refused, an arriving timestamped sample is delivered or still buffered ahead if and only if it was delivered already or newer than the last delivery on arrival, and no newer arrival overtook it |
| SubscriberClocks.StepBuffering | lib/zenoh-pico/src/api/advanced_subscriber.c:1333-1499 | for every handler: a timestamped source goes on buffering only while a query is counted, if and only if no launch leaves the counter at zero over a nonempty buffer after history: refused late at one, or wrapping at the maximum |
| SubscriberClocks.RunBuffering | lib/zenoh-pico/src/api/advanced_subscriber.c:649-718 | the same over every run; and then both counters at zero imply an empty buffer, and everything buffered is newer than the last delivery |
| SubscriberClocks.NewerIsNeverLost | lib/zenoh-pico/src/api/advanced_subscriber.c:649-718 | so on every run without such a launch for the source, a timestamped sample newer than everything delivered when it arrives is, at any later time, delivered or still buffered ahead |
| SubscriberClocks.StepClockSecure | lib/zenoh-pico/src/api/advanced_subscriber.c:1333-1499 | for every handler: the drops still bring the counter of a timestamped source to zero, and a nonempty buffer has an outstanding query, if and only if no launch was refused late at a zero counter, which leaves it at its maximum |
| SubscriberClocks.RunClockSecure | lib/zenoh-pico/src/api/advanced_subscriber.c:843-853 | the same over every run, whatever else is refused |
| SubscriberClocks.StepClockCounted | lib/zenoh-pico/src/api/advanced_subscriber.c:843-853 | the counter of a timestamped source stays the number of its live queries if and only if no launch for it is refused late |
| SubscriberClocks.ClockDropNeverSaturates | lib/zenoh-pico/src/api/advanced_subscriber.c:843-853 | so on runs without such a launch no drop finds it at zero |
| SubscriberClocks.ClocksAsk | lib/zenoh-pico/src/api/advanced_subscriber.c:1333-1499 | the detection of a timestamped publisher, and nothing else, brings one query for it when its launch goes through |
| SubscriberClocks.QuietClockDelivered | lib/zenoh-pico/src/api/advanced_subscriber.c:843-853 | with no query outstanding a timestamped sample has been delivered, and only once, if and only if it was not lost |
| SubscriberClocks.StampArrivedOnce | lib/zenoh-pico/src/api/advanced_subscriber.c:649-718 | the fate of every arriving timestamped sample when no query is left: delivered exactly once if and only if it was delivered already or newer than the last delivery on arrival, and no newer arrival overtook it |
| Subscriber.SequencedState.HandleSample | lib/zenoh-pico/src/api/advanced_subscriber.c:555-648 | the in-place handler, loops included, leaves the source as the specification of an arrival says; what that delivers, and with which payloads, is ReceiveDelivers and ReceivePayloads |
| Subscriber.SequencedState.FlushPending | lib/zenoh-pico/src/api/advanced_subscriber.c:448-482 | the in-place flush loop computes the specified flush |
| Subscriber.SequencedState.FlushFollowing | lib/zenoh-pico/src/api/advanced_subscriber.c:433-443 | the in-place draining loop computes the specified run, which delivers the numbers that DrainDelivers says, each with its own payload |
| Subscriber.TimestampedState.FlushPending | lib/zenoh-pico/src/api/advanced_subscriber.c:485-505 | the in-place flush loop of a timestamped source computes the specified flush |
| Subscriber.TimestampedState.HandleSample | lib/zenoh-pico/src/api/advanced_subscriber.c:649-718 | the in-place handler leaves the timestamped source as specified |
| Subscriber.AdvancedSubscriber.SubscriberCallback | lib/zenoh-pico/src/api/advanced_subscriber.c:1134-1205 | the object after a live sample, recovery launch included, is the specified step of its earlier value |
| Subscriber.AdvancedSubscriber.ReplyHandler | lib/zenoh-pico/src/api/advanced_subscriber.c:749-789 | the object after a query reply is the specified step |
| Subscriber.AdvancedSubscriber.QueryDropHandler | lib/zenoh-pico/src/api/advanced_subscriber.c:855-883 | the object after the end of a history, source or timestamp query is the specified step |
| Subscriber.AdvancedSubscriber.HistoryQueryDropped | lib/zenoh-pico/src/api/advanced_subscriber.c:796-827 | the end of the history query flushes every source without a query of its own and starts their periodic tasks |
| Subscriber.AdvancedSubscriber.PeriodicQuery | lib/zenoh-pico/src/api/advanced_subscriber.c:1000-1068 | the object after a periodic tick is the specified step |
| Subscriber.AdvancedSubscriber.PublisherDetected | lib/zenoh-pico/src/api/advanced_subscriber.c:1333-1499 | the object after a liveliness token of a sequenced publisher is the specified step |
| Subscriber.AdvancedSubscriber.ClockDetected | lib/zenoh-pico/src/api/advanced_subscriber.c:1333-1499 | the object after a liveliness token of a timestamped publisher is the specified step |
| Subscriber.AdvancedSubscriber.HeartbeatCallback | lib/zenoh-pico/src/api/advanced_subscriber.c:1509-1641 | the object after a heartbeat is the specified step: a query is launched only for a number beyond the last delivery |
| Subscriber.AdvancedSubscriber.SubscriberDropHandler | lib/zenoh-pico/src/api/advanced_subscriber.c:1207-1237 | the object after the undeclaration is the specified step |
| Ring.RingBuffer.Push | lib/zenoh-pico/src/collections/ring.c:57-65 | appends to the queue, or refuses and gives the element back exactly when the queue is full |
| Ring.RingBuffer.PushForce | lib/zenoh-pico/src/collections/ring.c:67-74 | a full ring gives up its oldest element for the new one |
| Ring.RingBuffer.Pull | lib/zenoh-pico/src/collections/ring.c:83-91 | takes the oldest element off the queue |
| Ring.ForwardIterator.Next | lib/zenoh-pico/src/collections/ring.c:127-134 | yields the queue from the oldest element to the newest, each once |
| Ring.ReverseIterator.Next | lib/zenoh-pico/src/collections/ring.c:148-155 | yields the queue from the newest element to the oldest, each once |
| AdvancedCache.Cache.Add | lib/zenoh-pico/src/collections/advanced_cache.c:318-337 | the cache holds the last samples added, as many as its capacity |
| AdvancedCache.Cache.FillOutbox | lib/zenoh-pico/src/collections/advanced_cache.c:152-186 | walking the ring backwards collects the newest matching samples up to the limit |
| AdvancedCache.Cache.QueryHandler | lib/zenoh-pico/src/collections/advanced_cache.c:122-209 | every reply is a stored sample, its number inside the asked bounds when one is set, its time present and accepted when a time range is given; replies come in stored order and are at most the asked maximum and the capacity; a stored sample that passes both filters and is not sent is older than all replies, and then there are as many replies as that limit allows |
| CacheSelection.MatchesMembers | lib/zenoh-pico/src/collections/advanced_cache.c:117-120 | a stored sample is among the matches exactly when it is selected, by the number range and the time filter that QueryHandler spells out |
| Publisher.AdvancedPublisher.NewTimestamp | lib/zenoh-pico/src/api/api.c:416-451 | a new timestamp is newer than every earlier one of the session and not older than the clock; it fails exactly when the clock cannot be read or the last one is the largest there is |
| Publisher.AdvancedPublisher.Put | lib/zenoh-pico/src/api/advanced_publisher.c:363-405 | a put takes the next sequence number, if the publisher numbers its samples, and a timestamp, and caches the sample, which only then may be written and only if somebody listens; the cache stays an unbroken run of the latest numbers; if no timestamp can be had the number is used up and nothing is cached or written |
| Publisher.AdvancedPublisher.Write | lib/zenoh-pico/src/api/api.c:1519-1552 | only a sample that the cache holds is written |
| Publisher.AdvancedPublisher.HeartbeatHandler | lib/zenoh-pico/src/api/advanced_publisher.c:169-213 | a heartbeat announces the 32-bit number before the next one, 2^32 − 1 before the first sample; a sporadic one is sent if and only if the next number is beyond that of the last heartbeat |
| Publisher.StoredConsecutive | lib/zenoh-pico/src/api/api.c:1484-1568 | caching the next number keeps the cache an unbroken run of the latest numbers |
| CacheRecovery.AnswerHas | lib/zenoh-pico/src/collections/advanced_cache.c:162-204 | the answer to a recovery query, open or up to an announced number, contains a number if and only if it was asked for and is still cached |
| CacheRecovery.RecoveryFromCache | lib/zenoh-pico/src/api/advanced_subscriber.c:1166-1186 | publisher, cache and subscriber together, whenever the query was launched: if the cache still holds everything wanted and its replies arrive before the drop, everything published and asked for is delivered once, in order, without a miss, whatever live samples are lost, repeated or reordered |
| Motion.MotionProfileStep | motion_profile.c:8-28 | the sub-stepped loop computes the iterated sub-step, and a rejected call leaves the profile alone |
| Envelope.BrakeKeepsSafe | motion_profile.c:19-26 | the envelope survives a sub-step in which the acceleration is limited by the jerk |
| Envelope.FollowKeepsSafe | motion_profile.c:19-26 | the envelope survives a sub-step that reaches the desired acceleration |
| MotionSafety.SubstepKeepsInside | motion_profile.c:19-26 | one sub-step toward any target inside the cap keeps both velocity bounds reachable without overshoot |
| MotionSafety.StepLength | motion_profile.c:17-18 | the sub-steps are at most 5 ms long and fill the call exactly |
| MotionSafety.CallKeepsInside | motion_profile.c:8-28 | any call, accepted or not, keeps the velocity inside the cap, whatever targets inside the cap are switched between |
| MotionSafety.CallAccel | motion_profile.c:8-28 | one call changes the acceleration by at most jerk times elapsed time and keeps it within its limit |
| MotionSafety.NoOvershoot | motion_profile.c:8-28 | from rest below a constant target, over any number of calls of any valid lengths, the velocity rises strictly with each call and never reaches or passes the target |
| MotionSafety.NoUndershoot | motion_profile.c:8-28 | the mirror image, from above the target |
| MotionSafety.SizeIsLargest | motion_profile.c:19-26 | the acceleration asked for is the largest one within the limit, within six times the error per second, and with its square within jerk times error |
| MotionSafety.AsksForLimit | motion_profile.c:19-26 | far from the target the acceleration asked for is the whole limit, in the direction of the target |
| MotionSafety.AsksForError | motion_profile.c:19-26 | close to the target the acceleration asked for is six times the error |
| MotionSafety.SubstepExactly | motion_profile.c:19-26 | a sub-step takes the acceleration as close to the one asked for as the jerk limit allows and the velocity along with the mean of the old and the new one |
| MotionSafety.SpeedsUp | motion_profile.c:19-26 | far below the target a sub-step raises the acceleration by jerk times its length, up to the limit |
| MotionSafety.ErrorShrinks | motion_profile.c:19-26 | once the acceleration is six times a small error, a sub-step of length h takes the share 6h off the error |
| Glide.Controller.GlideUpdate | glide.c:31-78 | the update on a working copy commits the specified state and wheel outputs, or rejects and changes nothing |
| Glide.Controller.Init | glide.c:5-15 | a configuration is taken over exactly when all its fields are in range |
| GlideSafety.SaturateKeepsRatio | glide.c:19-30 | wheel outputs stay within the limit, keep the ratio and the signs of the demand, and differ from it exactly when it is over the limit, which they then reach |
| GlideSafety.FinishSafe | glide.c:75-77 | the clamp of the correction never changes it |
| GlideSafety.UpdateSafe | glide.c:31-78 | from a safe state an update is accepted exactly when the elapsed time is in (0, 0.1], and all velocities, accelerations, the integrator, the correction and the wheels are within their limits afterwards |
| GlideSafety.AntiWindup | glide.c:65-70 | while wheels, correction or motors are constrained the integrator is only moved against its own sign, and does not grow in size if and only if the error does not oppose it, or pushes it by at most twice its size, or it is at its limit |
| GlideSafety.IntegratorCrosses | glide.c:65-70 | a constrained update that takes the integrator from 0.1 to the opposite limit |
| GlideSafety.PushesAgainstError | glide.c:57-72 | for any error, taken in FeedbackOpposesGyro from the gyro: a positive one moves the integrator and the wanted correction up, never down, and a negative one the other way |
| GlideSafety.FeedbackOpposesGyro | glide.c:57-75 | from the gyro to the correction: a robot that turns more slowly than the shaped rate has its integrator moved up, never down, strictly when outside the deadband and free, and its correction profile stepped toward a value at or above the integrator; too fast a turn is the mirror image, and in the deadband nothing moves |
| GlideSafety.IntegratorFreezes | glide.c:41-70 | on the update itself: the integrator is frozen exactly when a demanded wheel speed is over the limit, the uncut correction is, or the motors have not tracked for 200 ms, unless the error opposes it; otherwise it takes in the error, cut to the limit |
| GlideSafety.GoesCommandedWay | glide.c:36-41 | while something is commanded, a shaped velocity without acceleration moves strictly toward its capped command and stays short of it, forward and in turning |
| GlideSafety.CorrectionFades | glide.c:42-56 | without feedback, or when coming to rest, the integrator is emptied and the correction profile steps toward zero and is put to rest when close; a robot that comes to rest has its velocities put to zero |
| GlideSafety.UpdateAllocates | glide.c:53-76 | the wheel outputs of an accepted update are those of the state it leaves and of its correction, whether saturated included |
| GlideSafety.DemandMoves | glide.c:19-23 | the demanded wheel speeds amount to the shaped speed and to the shaped and corrected turning rate times the slip coefficient |
| GlideSafety.RunSafe | glide.c:31-78 | the same over any run from reset, with any commands, gyro values and elapsed times, wheel outputs of every update included |
| LruKeys.FindIsMembership | lib/zenoh-pico/src/collections/lru_cache.c:118-135 | in a sorted index binary search finds a key if and only if it is there |
| LruKeys.ReplacedSorted | lib/zenoh-pico/src/collections/lru_cache.c:152-186 | after an evicting insert the index is sorted if and only if the new key is not one that belongs just below the last slot while the victim is in an earlier slot |
| LruKeys.ReplacedContents | lib/zenoh-pico/src/collections/lru_cache.c:152-186 | an evicting insert trades exactly the victim for the new element, sorted or not |
| LruKeys.GrownSorted | lib/zenoh-pico/src/collections/lru_cache.c:173-186 | an insert below capacity always leaves the index sorted |
| LruKeys.MisplacedExample | lib/zenoh-pico/src/collections/lru_cache.c:164-167 | keys 1, 2, 5, victim 1 and new key 3 leave the index 2, 5, 3, in which 3 can no longer be found |
| LruRuns.RunSorted | lib/zenoh-pico/src/collections/lru_cache.c:152-262 | over any history of gets and inserts the index stays sorted, and holds exactly the cached keys, if and only if no insert misplaces its key |
| LruRuns.StaleExample | lib/zenoh-pico/src/collections/lru_cache.c:188-204 | a history in which the search for a later victim misses: its released node stays in the index and a cached key is overwritten there |
| LruOrder.UseCached | lib/zenoh-pico/src/collections/lru_cache.c:225-234 | among the most recently used keys, using a cached one moves it to the front and evicts nothing |
| LruOrder.UseNew | lib/zenoh-pico/src/collections/lru_cache.c:236-262 | using an uncached one puts it in front and drops exactly the least recently used of a full cache |
| LruCache.Cache.InsertListNode | lib/zenoh-pico/src/collections/lru_cache.c:57-70 | relinking puts the node in front of the list |
| LruCache.Cache.RemoveListNode | lib/zenoh-pico/src/collections/lru_cache.c:72-98 | relinking takes the node out of the list, wherever it is, and keeps the order of the others |
| LruCache.Cache.SearchSlist | lib/zenoh-pico/src/collections/lru_cache.c:118-135 | the search loop computes the specified probe |
| LruCache.Cache.FindPosition | lib/zenoh-pico/src/collections/lru_cache.c:137-150 | returns the number of searched keys that are smaller |
| LruCache.Cache.MoveElemSlist | lib/zenoh-pico/src/collections/lru_cache.c:152-171 | every slot but the opened one holds what the specification says |
| LruCache.Cache.DeleteLast | lib/zenoh-pico/src/collections/lru_cache.c:196-204 | unlinks the least recently used node and returns the slot that holds it |
| LruCache.Cache.Get | lib/zenoh-pico/src/collections/lru_cache.c:225-234 | finds a key if and only if it is cached, returns its value and moves it to the front; a miss changes nothing |
| LruCache.Cache.Insert | lib/zenoh-pico/src/collections/lru_cache.c:236-262 | caches an absent key in front, evicts exactly the least recently used one of a full cache, keeps index and list the same nodes and the cached keys the capacity most recently used ones, makes of the index what the specification of histories says, and keeps it sorted if and only if the key is not misplaced |
| Sequences.SplitKeepsAll | lib/zenoh-pico/src/collections/list.c:193-219 | a split by a predicate loses and invents nothing, and puts only matches on one side |
| Sequences.SplitInOrder | lib/zenoh-pico/src/collections/list.c:154-219 | both parts keep their order: splitting two pieces splits their concatenation |
| Sequences.FirstSplitOff | lib/zenoh-pico/src/collections/list.c:154-219 | splitting off the first match takes exactly that element and leaves what is before and after it |
| Sequences.InsertedSorted | lib/zenoh-pico/src/collections/list.c:69-95 | inserting behind all that are not greater keeps a sorted list sorted and adds exactly the new element |
| Sequences.InsertedWhere | lib/zenoh-pico/src/collections/list.c:69-95 | the new element goes directly in front of the first greater one, behind its equals |
| LinkedList.Find | lib/zenoh-pico/src/collections/list.c:122-134 | returns the first matching cell, or nothing |
| LinkedList.DropFilter | lib/zenoh-pico/src/collections/list.c:154-191 | the pointer loop takes out the matches, or the first one, and keeps the rest in order |
| LinkedList.ExtractFilter | lib/zenoh-pico/src/collections/list.c:193-219 | the pointer loop splits the list into the rest and the matches, both linked, disjoint and in their order |
| LinkedList.PushSorted | lib/zenoh-pico/src/collections/list.c:69-95 | the pointer loop inserts behind all values that are not greater |
| HashTable.LookupInserted | lib/zenoh-pico/src/collections/hashmap.c:125-155 | with a hash that respects key equality: after an insert with replacement the key has the new value and every other key what it had |
| HashTable.LookupRemoved | lib/zenoh-pico/src/collections/hashmap.c:92-101 | after a remove the key is gone and every other key has what it had |
| HashTable.InsertKeepsWell | lib/zenoh-pico/src/collections/hashmap.c:125-155 | entries stay in the bucket of their key, no key twice |
| HashTable.VisitsEachOnce | lib/zenoh-pico/src/collections/hashmap.c:190-219 | going through the buckets meets every key exactly once, with the value a lookup finds |
| HashMap.Map.Insert | lib/zenoh-pico/src/collections/hashmap.c:125-155 | the linked buckets become the specified table, the first insert included |
| HashMap.Map.Remove | lib/zenoh-pico/src/collections/hashmap.c:92-101 | the linked buckets become the specified table |
| HashMap.Map.Extract | lib/zenoh-pico/src/collections/hashmap.c:103-123 | removes the key and hands over its entry, if and only if there is one |
| HashMap.Map.Get | lib/zenoh-pico/src/collections/hashmap.c:157-175 | returns what the table maps the key to |
| HashMap.Map.Count | lib/zenoh-pico/src/collections/hashmap.c:39-49 | counts the entries of all buckets |
| HashMap.Iterator.Next | lib/zenoh-pico/src/collections/hashmap.c:198-219 | visits one entry more, and stops exactly when all entries have been visited |
| SliceBytes.ToBuf | lib/zenoh-pico/src/collections/bytes.c:68-81 | copies the first bytes of the flat payload, as many as fit or exist, and leaves the rest of the buffer alone |
| SliceBytes.PieceOf | lib/zenoh-pico/src/collections/bytes.c:247-270 | a piece of a slice is the piece of the flat string at the sum of the earlier slice lengths |
| BytesReader.Reader.SeekForward | lib/zenoh-pico/src/collections/bytes.c:172-192 | succeeds exactly inside the payload, otherwise stops at its end; the flat position stays the sum of the earlier slices plus the position in the slice |
| BytesReader.Reader.SeekBackward | lib/zenoh-pico/src/collections/bytes.c:194-214 | succeeds exactly inside the payload, otherwise stops at its start |
| BytesReader.Reader.Seek | lib/zenoh-pico/src/collections/bytes.c:216-243 | any offset from any origin: succeeds exactly when the target is inside the payload, otherwise the cursor is at the nearer end |
| BytesReader.Reader.Read | lib/zenoh-pico/src/collections/bytes.c:247-270 | over any slice layout, empty slices included: copies the next bytes of the flat payload, as many as asked for or left |
| BytesReader.Reader.ReadSlices | lib/zenoh-pico/src/collections/bytes.c:272-312 | returns slices whose concatenation is the next bytes of the flat payload, or fails exactly when there are too few |
| BytesReader.Reader.Remaining | lib/zenoh-pico/src/collections/bytes.c:417-419 | is the length of the flat payload behind the cursor |
| BytesWriter.Writer.WriteAll | lib/zenoh-pico/src/collections/bytes.c:368-384 | appends all bytes; fails, appending nothing, if and only if the current run of writes began with an empty write and there is something to write |
| BytesWriter.Writer.EnsureCache | lib/zenoh-pico/src/collections/bytes.c:332-350 | makes room without changing the payload, and fails exactly when the last buffer has no bytes at all |
| BytesWriter.Writer.AppendSlice | lib/zenoh-pico/src/collections/bytes.c:392-396 | appends the bytes of a slice |
| BytesWriter.Writer.AppendBytes | lib/zenoh-pico/src/collections/bytes.c:386-390 | appends the bytes of a payload, slice by slice |
| BytesWriter.Writer.Finish | lib/zenoh-pico/src/collections/bytes.c:398-403 | hands over slices whose concatenation is everything written and appended |
| BytesWriter.Writer.FewWrites | lib/zenoh-pico/src/collections/bytes.c:332-384 | for a payload whose only run of writes began with f > 0 bytes, k slices imply f·2^(k−1) < f + total bytes |
| BytesWriter.OnlyWrites | lib/zenoh-pico/src/collections/bytes.c:332-384 | any sequence of writes, the first of f > 0 bytes, gives a payload that is their concatenation, and k slices imply f·2^(k−1) < f + total bytes |
| WriterGrowth.FewSlices | lib/zenoh-pico/src/collections/bytes.c:332-350 | the same for any run of writes inside a payload |
| BytesWriter.EmptyFirstWrite | lib/zenoh-pico/src/collections/bytes.c:339 | a writer whose first write is empty accepts it and then refuses every byte |
| RefCount.StepInv | lib/zenoh-pico/src/collections/refcount.c:43-102 | every atomic step keeps the counts equal to the handles, the errors and the shared weak reference, and the end of life in order |
| RefCount.NoUseAfterFree | lib/zenoh-pico/src/collections/refcount.c:67-87 | under every interleaving the counter is not freed while a strong or weak handle, a pending release or an upgrade can reach it, not even after overflow errors |
| RefCount.FreedAtTheEnd | lib/zenoh-pico/src/collections/refcount.c:77-87 | when all handles are gone and all drops are done it has been freed exactly once, or never if an overflow left an increment behind |
| RefCount.OneLastReport | lib/zenoh-pico/src/collections/refcount.c:67-75 | at most one drop reports the last strong reference; one has if and only if no strong handle and no leaked increment is left |
| RefCount.NoResurrection | lib/zenoh-pico/src/collections/refcount.c:89-102 | a strong count of zero never rises again: no clone and no upgrade revives the value |
| RefCount.UpgradeGivesUp | lib/zenoh-pico/src/collections/refcount.c:89-102 | a thread leaves an upgrade without a handle if and only if the count it reads is zero or at its maximum and its exchange, if any, failed; otherwise it has its handle, or goes round with the count just read |
| RefCount.UpgradeSucceeds | lib/zenoh-pico/src/collections/refcount.c:89-102 | while a strong handle is left and the count is below its maximum, a load and one undisturbed exchange add exactly the new handle and its reference |
| RefCount.UpgradesOnRuns | lib/zenoh-pico/src/collections/refcount.c:89-102 | so at any moment of any run an undisturbed upgrade gets its handle |
| RefCount.CloneSucceeds | lib/zenoh-pico/src/collections/refcount.c:43-65 | a clone or downgrade makes its handle exactly when the handles, the overflow errors and the shared weak reference are fewer than the maximum |
| RefCount.DropTakesHandle | lib/zenoh-pico/src/collections/refcount.c:67-87 | a drop takes away exactly its handle; only the last strong one is reported and goes on to release the shared weak reference, and only the last weak one goes on to free the counter |
| Statistics.StreamingStep | gyro_yaw.c:25-28 | the streaming update keeps the exact mean and the exact sum of squared distances from it |
| GyroYaw.RootComparison | gyro_yaw.c:30-32 | comparing variances decides what the code decides with a square root |
| GyroYaw.Gyro.Observe | gyro_yaw.c:10-41 | a gap is exactly no valid sample before, a clock that did not advance, or too long a pause; a sample calibrates if and only if it ends the run of valid stationary samples since the last gap, movement or rejection and that run spans the window, is long, centred and steady enough; the bias is then its exact mean; a window that fails is counted and thrown away; a calibrated gyro keeps its bias, and each valid sample takes the share alpha off the distance between rate and corrected sample, all of it after a gap or without a filter |
| GyroYaw.Gyro.Accumulate | gyro_yaw.c:22-28 | the statistics describe exactly the samples since the last gap, movement or rejection |
| GyroYaw.FilterStays | gyro_yaw.c:37-40 | the filtered rate stays in the hull of the corrected samples |
| GyroYaw.FilterContracts | gyro_yaw.c:37-40 | a filter step takes the share alpha off the distance to the sample, so that a constant input is approached geometrically |
| GyroYaw.Gyro.Get | gyro_yaw.c:42-46 | a rate is given exactly while calibrated and fresh, and lies in the hull of the bias-corrected samples since the last gap |
| CalibrationSafety.ExpiredLeases | calibration_protocol.c:27-41 | a look at the leases stops the robot, drops the trial deadline and asks for the brake exactly when the deadline, the heartbeat, the operator lease or the release time is over, ends the session exactly when the heartbeat is lost and no deadline has passed, and changes nothing otherwise; afterwards a moving robot has an open session, no fault, a fresh heartbeat and operator, and no deadline passed |
| CalibrationSafety.LineLawful | calibration_protocol.c:60-137 | any command keeps the invariant, brakes when moving ends, changes parameters only at rest and to values in range; only an accepted drive makes the robot drive, changes its target or renews the operator lease |
| CalibrationSafety.MotionOutcome | calibration_protocol.c:79-96 | exactly when a drive is accepted and what drive, release and stop change |
| CalibrationSafety.SessionOutcome | calibration_protocol.c:60-137 | what hello, heartbeat, gyro calibration, status and unreadable commands do, with and without a session |
| CalibrationSafety.RestOutcome | calibration_protocol.c:60-137 | a trial deadline and a measurement are accepted exactly at rest in a session with an argument in range |
| CalibrationSafety.ParametersOutcome | calibration_protocol.c:97-137 | parameters are taken over, each word into its own, exactly when at rest in a session with every word in its range, and whole where it has to be; otherwise none changes |
| CalibrationSafety.LineLeases | calibration_protocol.c:61-90 | a command leaves the robot moving on a lapsed lease if and only if it is a valid drive that meets a passed deadline and a lost heartbeat at once |
| CalibrationSafety.OverlookedExample | calibration_protocol.c:27-41 | such a run: the last look at the leases is 1 ms old and the robot drives on a heartbeat 500 ms old |
| CalibrationSafety.RunKept | calibration_protocol.c:16-137 | on every run: driving and releasing exclude each other, moving needs a session and no fault, targets are zero unless driving and within 0.4 and 0.8, the operator, release and trial leases hold as of the last look, parameters are in range |
| CalibrationSafety.RunLeased | calibration_protocol.c:27-41 | on every run all leases, the heartbeat’s included, hold as of the last look, if and only if the robot does not move on a drive that was overlooked at that look |
| CalibrationSafety.TargetHasDrive | calibration_protocol.c:79-90 | the target of a driving robot is that of an accepted drive, the one whose lease is running |
| CalibrationSafety.DeadMan | calibration_protocol.c:16-41 | with looks at most d apart, a nonzero target never outlives the last accepted drive by 350 ms + d, whatever the host does |
| CalibrationProtocol.Protocol.Expire | calibration_protocol.c:27-41 | the object after a look at the leases is the specified state |
| CalibrationProtocol.Protocol.HandleSet | calibration_protocol.c:97-103 | the loop over the words takes over all values or none |
| CalibrationProtocol.Protocol.HandleLine | calibration_protocol.c:48-137 | the object, the brake flag and the error after any command are the specified ones |
| Wheels.CurvatureStays | wheels.c:221-246 | limiting a request scales both its parts alike, by one exactly when no wheel is over its limit |
| Wheels.Drive.SetVelocity | wheels.c:236-249 | motion is enabled exactly when the gyro is calibrated and fresh and all four replies are fresh and error-free |
| Wheels.CommandNearest | wheels.c:253-268 | within the wheel limit a frame asks for the speed of its wheel to the nearest unit, or for the most the driver can send, in that direction, if the speed is beyond it |
| Wheels.FramesAsk | wheels.c:253-268 | for wheels with LEFT the frame is the unit nearest to the left speed times mounting direction times 600/2π, for the others to the right one, unless beyond what the driver can send |
| Wheels.PlanMoves | wheels.c:60-76 | the twist that the measured-twist formula makes of the planned wheel speeds is the planned body motion, up to the saturation scale |
| Wheels.Drive.DriveWheels | wheels.c:301-318 | frames go out exactly behind the gate and for a valid elapsed time; they and the targets are those of the update planned from request, gyro and tracking, and the targets amount to its motion |
| Wheels.Drive.SendAll | wheels.c:312-318 | sends every wheel with LEFT the left speed and every other the right one, and takes these as the new targets; the first silent or faulty reply brakes all online wheels |
| Wheels.Drive.Update | wheels.c:276-320 | a tick that drives moves the body as planned: the target speeds over ground average and differ so as to amount to the shaped velocity and the corrected turning rate, scaled alike, by less than one exactly when a wheel is at its limit; its frames ask each wheel for the speed of its side to the nearest unit; they go out only behind the gate and within the unit cap; while motion is disabled only brakes are sent; velocity ticks are at least a control period apart; any failed check or reply ends with motion disabled and every online wheel braked |
| Wheels.Drive.BrakeAll | wheels.c:322-336 | every online wheel is sent a brake, requests are zero and profiles at rest |
| Wheels.Drive.Configure | wheels.c:375-382 | new limits are taken over only at rest with motion disabled, and only valid ones |
| Wheels.Drive.ObserveGyro | wheels.c:114-129 | the gyro becomes calibrated only on a valid, quiet sample while all wheels are fresh and stand still |
| TrialModel.RecordNext | tools/calibration/server.py:307-313 | recording the next complete result keeps the sequence’s results, in recipe order, at the end of the list, however old results fall off |
| TrialModel.StageCovers | tools/calibration/server.py:350-354 | until the recipe’s time is over there is a current stage |
| TrialModel.StageIsCurrent | tools/calibration/server.py:350-354 | the chosen stage is the one whose start and end, sums of the durations before and up to it, enclose the elapsed time |
| TrialSequencer.SerialLink.StartTrial | tools/calibration/server.py:194-228 | a trial starts exactly when none runs, the link is armed, the robot rests, telemetry is fresh and every stage fits the limits |
| TrialSequencer.SerialLink.FinishTrial | tools/calibration/server.py:292-313 | a sequence ends as complete exactly when its last recipe completed, and then has exactly one result per recipe, all complete, in recipe order, with the parameters it began with, and no other result carries its identifier |
| TrialSequencer.SerialLink.TrialTick | tools/calibration/server.py:315-355 | a lost operator, browser or board, a fault, changed parameters, a clock that went back or stale wheels end a trial at once, recorded as incomplete, with its sequence, disarmed; otherwise it drives the command of the current stage until its time or turn is over, is then released, and is recorded as complete once the robot rests, or given up after three seconds |
| TrialSequencer.SerialLink.SequenceTick | tools/calibration/server.py:243-260 | between two trials: gives up and disarms exactly when someone has gone, the board is not ready or its parameters changed, brakes are not confirmed within two seconds of the pause, or the next recipe is not admissible; waits while the pause or the braking lasts; otherwise starts the next recipe, on unchanged parameters |
| TrialSequencer.SerialLink.Choose | tools/calibration/server.py:500-518 | a forced stop goes first; without a trial, exactly what is sent follows from the operator’s intent, its lease, the period and a pending release; a running trial sends the command of its current stage once a period; a drive is chosen only while armed and before the intent expires, inside the limits of the trial or the manual ones, never between the trials of a sequence, and nothing here arms the link |
| TrialSequencer.SerialLink.Operator | tools/calibration/server.py:120-184 | manual controls during a trial or sequence only cancel it; otherwise a drive is accepted exactly when allowed, heard and armed, and arming exactly at rest; nothing else arms; presence alone extends the lease of a trial; a trial starts exactly when it is admissible, a sequence exactly when its step has recipes and all are, on the current parameters |
| TrialSequencer.SerialLink.CancelOperator | tools/calibration/server.py:186-192 | nothing runs and nothing is left to drive |
| Exchange.EstimateIsOffset | time_sync.c:36-44 | the computed offset is the clock offset of section 8 of RFC 5905, rounded down |
| Exchange.EstimateError | time_sync.c:36-44 | whatever the split of the delay, the estimate is off by at most half of it rounded up, and by exactly that when all delay is on the way back |
| TimeSync.Clock.Accept | time_sync.c:19-49 | an answer is accepted exactly when it echoes the pending request, its times make sense and the exchange was short enough, and each request once; no 64-bit operation overflows |
| TimeSync.Clock.Time | time_sync.c:51-67 | time is given exactly while synchronised, before expiry and inside the stamp range, and is right to within half the longest round trip when the clocks differ by a constant |

## Left out

Of the zenoh-pico model:

- Sequence numbers are unbounded; the code itself says that it does not handle their wrap-around (advanced_subscriber.c:447), and lib/zenoh-pico/include/zenoh-pico/collections/seqnumber.h is taken as +1 and subtraction.
- The sorted map of buffered samples is a finite map with a smallest key; its linked implementation is not part of this model.
- Handlers are atomic, as under the subscriber's mutex; threads that interleave between a counter and its launch are not modelled, but a launch may fail in each of the three ways the code allows.
- Replies to a query of one source are taken to carry samples of that source only, as the query's key expression names its publisher (advanced_subscriber.c:110-124).
- Starting the periodic task is taken to succeed; query parameters are numbers, not text; key expressions, allocation failure, element destructors and reference counts of samples are not modelled.
- The period of the publisher's heartbeat task is not modelled; the subscriber is proved for any heartbeats at any time.
- The time-range filter of a cache query is any predicate on timestamps; consolidation and congestion options are not modelled.
- List cloning and push-back, hash-map cloning, insertion without replacement, and the clearing of all containers are not modelled.
- SubscriberQueries.RunCounted: excludes late refusals of any launch; RunCountedExactly says per source exactly which falsify its counter.
- SubscriberRecovery.RecoveredOnce: excludes stretches in which a gap is flushed; ArrivedOnce does not exclude them.
- LruCache.Cache.Insert: requires an absent key and a sorted index, since after a misplaced insert the search that later evictions rely on may miss (StaleExample, on keys); the evicted node stays readable, as the search after its release reads it.
- LruCache.Cache.Insert: keys are integers in their usual order, for the comparison function that callers pass.
- BytesReader.Reader.Read: slices are read as values, so that several slices of one buffer are not told apart; the writer's buffers are arrays.
- RefCount.NoUseAfterFree: memory is sequentially consistent, counts are 32 bits wide, and fewer than 2^31 − 1 overflow errors happen.

Of the firmware model:

- Floating-point rounding, NaN and infinity: arithmetic is over the reals, so the finiteness guards always pass.
- The C structs that functions update through pointers are values passed in and out in Motion, and objects elsewhere.
- GyroYaw.Gyro.Observe: the filter's coefficient 1 − e^(−x) is a parameter between 0 and 1, and sample counters do not wrap.
- Wheels.Drive.Update: motor replies and the clock are arbitrary; restarting the gyro calibration, retrying offline motors, angles and odometry are not modelled, and the driver's frame limit is a parameter because lib/ddsm210 is not part of this model.
- CalibrationSafety.RunKept: microsecond time does not wrap around or run backwards; tokenising and number parsing are left to the command type, and a rejected hardware configuration is not undone.
- CalibrationSafety.DeadMan: speaks of the protocol's target; that the wheels follow it is Wheels.
- TrialSequencer.SerialLink.Operator: ownership of the controls by one client, the numbering of its requests and the lock during a save are not modelled; identifiers are fresh numbers; whether a turn is near its target angle is an input.
- Sample recording, plateaus, metrics and analysis of trials, files, HTTP, serial exchange, ROS, USB, IMU and LED code are not modelled.
- The undeclaration of liveliness and heartbeat subscribers and all option copying are not modelled.
