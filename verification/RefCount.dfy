/** The reference counter as a transition system. Every atomic operation is one step and threads
  * interleave freely; memory accesses are sequentially consistent. */
module RefCount {

  const MAX_COUNT: nat := 0x7FFF_FFFF
  const WORD: nat := 0x1_0000_0000

  /** A thread inside weak upgrade: the handle it borrows and the strong count it read last. */
  datatype Upgrade = Upgrade(handle: nat, prev: nat)

  /** `strongs` and `weaks` are the handles in the program. `releasing` are the threads that took the
    * strong count to zero and still have to give up its weak reference, `freeing` those that took
    * the weak count to zero and still have to free the counter. `errors` counts overflow errors,
    * which leave their increment behind, and `lasts` the drops that report the last reference. */
  datatype State = State(
    strong: nat, weak: nat,
    strongs: set<nat>, weaks: set<nat>,
    releasing: set<nat>, freeing: set<nat>, upgrading: map<nat, Upgrade>,
    strongErrors: nat, weakErrors: nat, lasts: nat, frees: nat)

  datatype Action =
    | CloneStrong(source: nat, handle: nat)
    | Downgrade(source: nat, handle: nat)
    | CloneWeak(source: nat, handle: nat)
    | DropStrong(handle: nat, thread: nat)
    | ReleaseWeak(thread: nat)
    | DropWeak(handle: nat, thread: nat)
    | Free(thread: nat)
    | UpgradeLoad(handle: nat, thread: nat)
    | UpgradeExchange(thread: nat, handle: nat, spurious: bool)

  /** A new counter: one strong handle, and a weak reference that all strong handles share. */
  function Init(handle: nat): State {
    State(1, 1, {handle}, {}, {}, {}, map[], 0, 0, 0, 0)
  }

  function FetchAdd(x: nat): nat { (x + 1) % WORD }

  function FetchSub(x: nat): nat { if x == 0 then WORD - 1 else x - 1 }

  predicate Fresh(s: State, handle: nat) {
    handle !in s.strongs && handle !in s.weaks
  }

  predicate Idle(s: State, thread: nat) {
    thread !in s.releasing && thread !in s.freeing && thread !in s.upgrading
  }

  /** A handle is used only by its holder: it is not dropped while an upgrade borrows it. There are
    * fewer overflow errors than it takes to wrap a 32-bit count around. */
  predicate Enabled(s: State, a: Action) {
    && s.strongErrors < MAX_COUNT && s.weakErrors < MAX_COUNT
    && match a
       case CloneStrong(source, handle) => source in s.strongs && Fresh(s, handle)
       case Downgrade(source, handle) => source in s.strongs && Fresh(s, handle)
       case CloneWeak(source, handle) => source in s.weaks && Fresh(s, handle)
       case DropStrong(handle, thread) => handle in s.strongs && Idle(s, thread)
       case ReleaseWeak(thread) => thread in s.releasing
       case DropWeak(handle, thread) =>
         handle in s.weaks && Idle(s, thread) && forall t :: t in s.upgrading ==> s.upgrading[t].handle != handle
       case Free(thread) => thread in s.freeing
       case UpgradeLoad(handle, thread) => handle in s.weaks && Idle(s, thread)
       case UpgradeExchange(thread, handle, _) => thread in s.upgrading && Fresh(s, handle)
  }

  function AddStrong(s: State, handle: nat): State {
    var s' := s.(strong := FetchAdd(s.strong));
    if s.strong >= MAX_COUNT then s'.(strongErrors := s.strongErrors + 1)
    else s'.(strongs := s.strongs + {handle})
  }

  function AddWeak(s: State, handle: nat): State {
    var s' := s.(weak := FetchAdd(s.weak));
    if s.weak >= MAX_COUNT then s'.(weakErrors := s.weakErrors + 1)
    else s'.(weaks := s.weaks + {handle})
  }

  /** Give up one weak reference; the thread that takes the count to zero has to free the counter. */
  function SubWeak(s: State, thread: nat): State {
    var s' := s.(weak := FetchSub(s.weak));
    if s.weak > 1 then s' else s'.(freeing := s.freeing + {thread})
  }

  /** Go round the upgrade loop with the value just read, or leave it without a reference. */
  function Retry(s: State, thread: nat, handle: nat): State {
    if s.strong != 0 && s.strong < MAX_COUNT
    then s.(upgrading := s.upgrading[thread := Upgrade(handle, s.strong)])
    else s.(upgrading := s.upgrading - {thread})
  }

  function Step(s: State, a: Action): State
    requires Enabled(s, a)
  {
    match a
    case CloneStrong(_, handle) => AddStrong(s, handle)
    case Downgrade(_, handle) => AddWeak(s, handle)
    case CloneWeak(_, handle) => AddWeak(s, handle)
    case DropStrong(handle, thread) =>
      var s' := s.(strong := FetchSub(s.strong), strongs := s.strongs - {handle});
      if s.strong > 1 then s' else s'.(releasing := s.releasing + {thread}, lasts := s.lasts + 1)
    case ReleaseWeak(thread) => SubWeak(s.(releasing := s.releasing - {thread}), thread)
    case DropWeak(handle, thread) => SubWeak(s.(weaks := s.weaks - {handle}), thread)
    case Free(thread) => s.(freeing := s.freeing - {thread}, frees := s.frees + 1)
    case UpgradeLoad(handle, thread) => Retry(s, thread, handle)
    case UpgradeExchange(thread, handle, spurious) =>
      var u := s.upgrading[thread];
      if !spurious && s.strong == u.prev
      then s.(strong := FetchAdd(s.strong), strongs := s.strongs + {handle}, upgrading := s.upgrading - {thread})
      else Retry(s, thread, u.handle)
  }

  // ----- The invariant -----

  /** The strong count is the strong handles and the increments left behind by errors; the weak
    * count has one more reference for as long as the strong handles have not released theirs. */
  ghost predicate Counted(s: State) {
    && s.strong == |s.strongs| + s.strongErrors
    && s.weak == |s.weaks| + s.weakErrors + (if s.strong > 0 || s.releasing != {} then 1 else 0)
    && s.strong <= MAX_COUNT + s.strongErrors && s.weak <= MAX_COUNT + s.weakErrors
  }

  /** At most one thread is at each stage of the end of life, and the stages follow each other. */
  ghost predicate Staged(s: State) {
    && |s.releasing| <= 1 && |s.freeing| <= 1
    && (s.releasing != {} ==> s.strong == 0)
    && s.lasts == (if s.strong == 0 then 1 else 0)
    && |s.freeing| + s.frees == (if s.weak == 0 then 1 else 0)
  }

  ghost predicate Borrowed(s: State) {
    forall t :: t in s.upgrading ==>
      && s.upgrading[t].handle in s.weaks
      && 0 < s.upgrading[t].prev < MAX_COUNT
  }

  ghost predicate Inv(s: State) {
    Counted(s) && Staged(s) && Borrowed(s)
  }

  lemma InitInv(handle: nat)
    ensures Inv(Init(handle))
  {
  }

  lemma Remove(s: set<nat>, x: nat)
    requires x in s
    ensures |s - {x}| == |s| - 1
    ensures s - {x} == {} <==> |s| == 1
  {
    assert s == s - {x} + {x};
  }

  lemma NoWrap(x: nat)
    requires x <= MAX_COUNT + MAX_COUNT
    ensures FetchAdd(x) == x + 1
  {
  }

  lemma AddStrongInv(s: State, source: nat, handle: nat)
    requires Inv(s) && Enabled(s, CloneStrong(source, handle))
    ensures Inv(AddStrong(s, handle))
  {
    NoWrap(s.strong);
    assert |s.strongs| > 0;
  }

  lemma AddWeakInv(s: State, handle: nat)
    requires Inv(s) && Fresh(s, handle) && (s.strongs != {} || s.weaks != {}) && s.weakErrors < MAX_COUNT
    ensures Inv(AddWeak(s, handle))
  {
    NoWrap(s.weak);
  }

  lemma DropStrongInv(s: State, handle: nat, thread: nat)
    requires Inv(s) && Enabled(s, DropStrong(handle, thread))
    ensures Inv(Step(s, DropStrong(handle, thread)))
  {
    Remove(s.strongs, handle);
  }

  lemma ReleaseWeakInv(s: State, thread: nat)
    requires Inv(s) && Enabled(s, ReleaseWeak(thread))
    ensures Inv(Step(s, ReleaseWeak(thread)))
  {
    Remove(s.releasing, thread);
  }

  lemma DropWeakInv(s: State, handle: nat, thread: nat)
    requires Inv(s) && Enabled(s, DropWeak(handle, thread))
    ensures Inv(Step(s, DropWeak(handle, thread)))
  {
    Remove(s.weaks, handle);
  }

  lemma FreeInv(s: State, thread: nat)
    requires Inv(s) && Enabled(s, Free(thread))
    ensures Inv(Step(s, Free(thread)))
  {
    Remove(s.freeing, thread);
  }

  lemma RetryInv(s: State, thread: nat, handle: nat)
    requires Inv(s) && handle in s.weaks
    ensures Inv(Retry(s, thread, handle))
  {
    hide Counted, Staged;
    var s' := Retry(s, thread, handle);
    SameCounts(s, s.upgrading[thread := Upgrade(handle, s.strong)]);
    SameCounts(s, s.upgrading - {thread});
  }

  /** The counts do not depend on who is inside an upgrade. */
  lemma SameCounts(s: State, upgrading: map<nat, Upgrade>)
    ensures Counted(s.(upgrading := upgrading)) == Counted(s)
    ensures Staged(s.(upgrading := upgrading)) == Staged(s)
  {
  }

  lemma UpgradeInv(s: State, a: Action)
    requires Inv(s) && Enabled(s, a) && (a.UpgradeLoad? || a.UpgradeExchange?)
    ensures Inv(Step(s, a))
  {
    hide Retry;
    match a
    case UpgradeLoad(handle, thread) => RetryInv(s, thread, handle);
    case UpgradeExchange(thread, handle, spurious) =>
      assert s.upgrading[thread].handle in s.weaks;
      RetryInv(s, thread, s.upgrading[thread].handle);
      NoWrap(s.strong);
  }

  lemma StepInv(s: State, a: Action)
    requires Inv(s) && Enabled(s, a)
    ensures Inv(Step(s, a))
  {
    hide Inv;
    match a
    case CloneStrong(source, handle) => AddStrongInv(s, source, handle);
    case Downgrade(_, handle) => AddWeakInv(s, handle);
    case CloneWeak(_, handle) => AddWeakInv(s, handle);
    case DropStrong(handle, thread) => DropStrongInv(s, handle, thread);
    case ReleaseWeak(thread) => ReleaseWeakInv(s, thread);
    case DropWeak(handle, thread) => DropWeakInv(s, handle, thread);
    case Free(thread) => FreeInv(s, thread);
    case UpgradeLoad(_, _) => UpgradeInv(s, a);
    case UpgradeExchange(_, _, _) => UpgradeInv(s, a);
  }

  // ----- What each operation achieves -----

  /** An upgrade gives up, leaving without a handle, if and only if the strong count it reads is zero or at the
    * maximum, and the exchange, if it got that far, has failed. Otherwise it takes its handle or goes round
    * with the value just read. */
  lemma UpgradeGivesUp(s: State, a: Action)
    requires Enabled(s, a) && (a.UpgradeLoad? || a.UpgradeExchange?)
    ensures var s' := Step(s, a);
            var taken := a.UpgradeExchange? && !a.spurious && s.strong == s.upgrading[a.thread].prev;
            && (a.thread !in s'.upgrading && s'.strongs == s.strongs <==>
                 !taken && (s.strong == 0 || s.strong >= MAX_COUNT))
            && (taken ==> a.thread !in s'.upgrading && s'.strongs == s.strongs + {a.handle})
            && (a.thread in s'.upgrading ==> s'.strongs == s.strongs && s'.upgrading[a.thread].prev == s.strong)
  {
    if a.UpgradeExchange? {
      assert a.handle !in s.strongs;
    }
  }

  /** An upgrade that is not disturbed succeeds if any strong handle is left and the count is not at its
    * maximum: the load and one exchange add exactly the new handle and the reference that it counts. */
  lemma UpgradeSucceeds(s: State, weak: nat, thread: nat, handle: nat)
    requires Inv(s) && Enabled(s, UpgradeLoad(weak, thread)) && Fresh(s, handle)
    requires s.strongs != {} && s.strong < MAX_COUNT
    ensures var mid := Step(s, UpgradeLoad(weak, thread));
            && Enabled(mid, UpgradeExchange(thread, handle, false))
            && Step(mid, UpgradeExchange(thread, handle, false))
               == s.(strong := s.strong + 1, strongs := s.strongs + {handle})
  {
    assert |s.strongs| > 0;
    assert s.upgrading[thread := Upgrade(weak, s.strong)] - {thread} == s.upgrading;
  }

  /** A clone or downgrade makes its handle exactly when fewer than the maximum of references are counted:
    * the handles and the errors, and for weak ones the reference that the strong handles share. */
  lemma CloneSucceeds(s: State, a: Action)
    requires Inv(s) && Enabled(s, a) && (a.CloneStrong? || a.CloneWeak? || a.Downgrade?)
    ensures var s' := Step(s, a);
            var shared := if s.strong > 0 || s.releasing != {} then 1 else 0;
            if a.CloneStrong? then
              && s'.weaks == s.weaks
              && s'.strongs == s.strongs + if |s.strongs| + s.strongErrors < MAX_COUNT then {a.handle} else {}
            else
              && s'.strongs == s.strongs
              && s'.weaks == s.weaks + if |s.weaks| + s.weakErrors + shared < MAX_COUNT then {a.handle} else {}
  {
  }

  /** A drop takes away exactly its handle. The last strong one is reported and still has to release the
    * shared weak reference; the last weak one still has to free the counter. */
  lemma DropTakesHandle(s: State, a: Action)
    requires Inv(s) && Enabled(s, a) && (a.DropStrong? || a.DropWeak? || a.ReleaseWeak? || a.Free?)
    ensures var s' := Step(s, a);
            && s'.strongs == (if a.DropStrong? then s.strongs - {a.handle} else s.strongs)
            && s'.weaks == (if a.DropWeak? then s.weaks - {a.handle} else s.weaks)
            && (a.DropStrong? ==>
                 (a.thread in s'.releasing <==> |s.strongs| + s.strongErrors == 1)
                 && s'.lasts == s.lasts + if |s.strongs| + s.strongErrors == 1 then 1 else 0)
            && (a.DropWeak? || a.ReleaseWeak? ==> (a.thread in s'.freeing <==> s.weak == 1))
            && (a.ReleaseWeak? ==> a.thread !in s'.releasing)
            && (a.Free? ==> a.thread !in s'.freeing && s'.frees == s.frees + 1)
  {
    if a.DropStrong? {
      Remove(s.strongs, a.handle);
    }
    if a.DropWeak? {
      Remove(s.weaks, a.handle);
    }
    if a.ReleaseWeak? {
      Remove(s.releasing, a.thread);
    }
    if a.Free? {
      Remove(s.freeing, a.thread);
    }
  }

  // ----- Runs -----

  /** The states of an interleaving, from the initial one on. */
  ghost predicate IsRun(states: seq<State>, actions: seq<Action>, handle: nat) {
    && |states| == |actions| + 1 && states[0] == Init(handle)
    && forall i :: 0 <= i < |actions| ==> Enabled(states[i], actions[i]) && states[i + 1] == Step(states[i], actions[i])
  }

  lemma {:induction false} RunInv(states: seq<State>, actions: seq<Action>, handle: nat, i: nat)
    requires IsRun(states, actions, handle) && i < |states|
    ensures Inv(states[i])
  {
    hide Inv;
    if i == 0 {
      InitInv(handle);
    } else {
      RunInv(states, actions, handle, i - 1);
      StepInv(states[i - 1], actions[i - 1]);
    }
  }

  /** The counter is not freed while anything can still reach it, not even after overflow errors,
    * and never twice. Once it is freed, no step of any thread touches it. */
  lemma NoUseAfterFree(states: seq<State>, actions: seq<Action>, handle: nat, i: nat)
    requires IsRun(states, actions, handle) && i < |states| && states[i].frees > 0
    ensures var s := states[i];
            && s.frees == 1 && s.strongs == {} && s.weaks == {} && s.upgrading == map[]
            && forall a :: !Enabled(s, a)
  {
    RunInv(states, actions, handle, i);
    var s := states[i];
  }

  /** When all handles are gone and all drops have finished, the counter has been freed exactly
    * when no overflow error left an increment behind. */
  lemma FreedAtTheEnd(states: seq<State>, actions: seq<Action>, handle: nat, i: nat)
    requires IsRun(states, actions, handle) && i < |states|
    requires var s := states[i];
             s.strongs == {} && s.weaks == {} && s.releasing == {} && s.freeing == {}
    ensures states[i].frees == if states[i].strongErrors == 0 && states[i].weakErrors == 0 then 1 else 0
  {
    RunInv(states, actions, handle, i);
  }

  /** Exactly one drop reports the last strong reference, and only when no strong handle is left. */
  lemma OneLastReport(states: seq<State>, actions: seq<Action>, handle: nat, i: nat)
    requires IsRun(states, actions, handle) && i < |states|
    ensures states[i].lasts <= 1
    ensures states[i].lasts == 1 <==> states[i].strongs == {} && states[i].strongErrors == 0
  {
    RunInv(states, actions, handle, i);
  }

  lemma ZeroStays(s: State, a: Action)
    requires Inv(s) && Enabled(s, a) && s.strong == 0
    ensures Step(s, a).strong == 0
  {
    if a.UpgradeExchange? {
      assert s.upgrading[a.thread].prev > 0;
    }
  }

  /** A strong count of zero never rises again: no clone and no upgrade revives the value. */
  lemma {:induction false} NoResurrection(states: seq<State>, actions: seq<Action>, handle: nat, i: nat, j: nat)
    requires IsRun(states, actions, handle) && i <= j < |states| && states[i].strong == 0
    ensures states[j].strong == 0 && states[j].strongs == {}
  {
    hide Step, Borrowed, Staged;
    RunInv(states, actions, handle, j);
    if i < j {
      NoResurrection(states, actions, handle, i, j - 1);
      RunInv(states, actions, handle, j - 1);
      ZeroStays(states[j - 1], actions[j - 1]);
    }
  }

  /** So on every run: with a strong handle left and the count below its maximum, a thread that upgrades
    * undisturbed gets its handle. */
  lemma UpgradesOnRuns(states: seq<State>, actions: seq<Action>, first: nat, i: nat, weak: nat, thread: nat,
                       handle: nat)
    requires IsRun(states, actions, first) && i < |states|
    requires Enabled(states[i], UpgradeLoad(weak, thread)) && Fresh(states[i], handle)
    requires states[i].strongs != {} && states[i].strong < MAX_COUNT
    ensures var mid := Step(states[i], UpgradeLoad(weak, thread));
            && Enabled(mid, UpgradeExchange(thread, handle, false))
            && Step(mid, UpgradeExchange(thread, handle, false)).strongs == states[i].strongs + {handle}
  {
    RunInv(states, actions, first, i);
    UpgradeSucceeds(states[i], weak, thread, handle);
  }
}
