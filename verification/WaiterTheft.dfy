/** A run in which thread_unblock takes a thread out of a lock's waiters without telling the lock: main holds the lock,
    the other thread waits for it, and main calls thread_unblock for it. No timer interrupt is needed. */
module WaiterTheft {
  import opened Basics
  import opened Scheduler
  import opened SchedulerSteps
  import opened SchedulerTheorems

  const L: Lid := 7

  ghost const LOCKED := NEW_LOCK.(value := 0)
  ghost const NAMED := LOCKED.(holder := Some(0))
  ghost const HELD := NAMED.(repeat := 1)
  ghost const AWAITED := HELD.(waiters := [1], arrived := [1])

  ghost function Main(status: Status, pc: Pc, depth: map<Lid, nat>): Thread {
    Thread(status, 31, 31, 0, pc, false, depth)
  }

  ghost function Holder(status: Status, pc: Pc): Thread { Main(status, pc, map[L := 1]) }

  ghost function Other(status: Status, pc: Pc, intr: bool): Thread { Thread(status, 31, 31, 0, pc, intr, map[]) }

  ghost const WAITER := Other(Blocked, InSema(L, true), true)

  /** Main alone. */
  ghost function Alone(t0: Thread, lk: Lock): State {
    State(0, false, [], [0], map[0 := t0], map[L := lk], 0, false)
  }

  ghost function Two(cur: Tid, intr: bool, ready: seq<Tid>, t0: Thread, t1: Thread, lk: Lock, stolen: bool): State {
    State(cur, intr, ready, [0, 1], map[0 := t0, 1 := t1], map[L := lk], 0, stolen)
  }

  // -------------------------------------------------------------------- the states

  ghost function Acquiring(pc: Pc, lk: Lock): State { Alone(Main(Running, pc, map[]), lk) }

  ghost function Acquired(): State { Alone(Holder(Running, Client), HELD) }

  ghost function Started(): State {
    Two(0, false, [1], Holder(Running, Client), Other(Ready, Fresh, false), HELD, false)
  }

  ghost function OtherRuns(pc: Pc, intr: bool): State {
    Two(1, intr, [0], Holder(Ready, InYield(false)), Other(Running, pc, intr), HELD, false)
  }

  ghost function OtherWaits(pc: Pc): State { Two(0, false, [], Holder(Running, pc), WAITER, AWAITED, false) }

  /** The thread is in the ready list and in the waiters. */
  ghost function Stolen(): State {
    Two(0, false, [1], Holder(Running, Client), WAITER.(status := Ready), AWAITED, true)
  }

  ghost function BackInSema(): State {
    Two(1, false, [0], Holder(Ready, InYield(false)), WAITER.(status := Running), AWAITED, true)
  }

  // --------------------------------------------------------------------- the steps

  ghost predicate Named(th: Thread, n: nat) {
    (th.pc.At().OnLock() ==> th.pc.At().l == L) && (th.pc.At().OnUnblock() ==> th.pc.At().w < n)
  }

  lemma AloneWellFormed(t0: Thread, lk: Lock)
    requires Named(t0, 1) && lk.waiters == []
    ensures Alone(t0, lk).WellFormed()
  {
  }

  lemma TwoWellFormed(cur: Tid, intr: bool, ready: seq<Tid>, t0: Thread, t1: Thread, lk: Lock, stolen: bool)
    requires cur < 2 && (forall i :: 0 <= i < |ready| ==> ready[i] < 2) && Named(t0, 2) && Named(t1, 2)
    requires forall i :: 0 <= i < |lk.waiters| ==> lk.waiters[i] < 2
    ensures Two(cur, intr, ready, t0, t1, lk, stolen).WellFormed()
  {
  }

  lemma Begins()
    ensures CanStep(Boot(0), Call(InitLock(L)), Acquiring(Client, NEW_LOCK))
    ensures CanStep(Acquiring(Client, NEW_LOCK), Call(Acquire(L)), Acquiring(AcquireTest(L), NEW_LOCK))
  {
  }

  lemma TakesSemaphore()
    ensures CanStep(Acquiring(AcquireTest(L), NEW_LOCK), Exec, Acquiring(SemaDown(L), NEW_LOCK))
    ensures CanStep(Acquiring(SemaDown(L), NEW_LOCK), Exec, Acquiring(AcquireHolder(L), LOCKED))
  {
    AloneWellFormed(Main(Running, AcquireTest(L), map[]), NEW_LOCK);
    AloneWellFormed(Main(Running, SemaDown(L), map[]), NEW_LOCK);
    hide State.WellFormed;
  }

  lemma NamesHolder()
    ensures CanStep(Acquiring(AcquireHolder(L), LOCKED), Exec, Acquiring(AcquireAssert(L), NAMED))
  {
    AloneWellFormed(Main(Running, AcquireHolder(L), map[]), LOCKED);
    hide State.WellFormed;
  }

  lemma NotNested()
    ensures CanStep(Acquiring(AcquireAssert(L), NAMED), Exec, Acquiring(AcquireRepeat(L), NAMED))
  {
    AloneWellFormed(Main(Running, AcquireAssert(L), map[]), NAMED);
    hide State.WellFormed;
  }

  lemma CountsOne()
    ensures CanStep(Acquiring(AcquireRepeat(L), NAMED), Exec, Acquired())
  {
    AloneWellFormed(Main(Running, AcquireRepeat(L), map[]), NAMED);
    hide State.WellFormed;
  }

  lemma StartsOther()
    ensures CanStep(Acquired(), Call(StartCall(1, 31)), Started())
  {
  }

  lemma MainYields()
    ensures CanStep(Started(), Call(YieldCall), OtherRuns(Fresh, false))
  {
  }

  lemma OtherEnters()
    ensures CanStep(OtherRuns(Fresh, false), Exec, OtherRuns(Client, true))
  {
    TwoWellFormed(1, false, [0], Holder(Ready, InYield(false)), Other(Running, Fresh, false), HELD, false);
    hide State.WellFormed;
  }

  lemma OtherCalls()
    ensures CanStep(OtherRuns(Client, true), Call(Acquire(L)), OtherRuns(AcquireTest(L), true))
  {
    TwoWellFormed(1, true, [0], Holder(Ready, InYield(false)), Other(Running, Client, true), HELD, false);
    hide State.WellFormed;
  }

  lemma OtherTests()
    ensures CanStep(OtherRuns(AcquireTest(L), true), Exec, OtherRuns(SemaDown(L), true))
  {
    TwoWellFormed(1, true, [0], Holder(Ready, InYield(false)), Other(Running, AcquireTest(L), true), HELD, false);
    hide State.WellFormed;
  }

  /** On its way into schedule(). */
  ghost function Leaving(): State { Two(1, false, [0], Holder(Ready, InYield(false)), WAITER, AWAITED, false) }

  lemma SleepSchedules()
    requires OtherRuns(SemaDown(L), true).WellFormed() && Leaving().WellFormed()
    ensures LockStep(OtherRuns(SemaDown(L), true)) == Schedule(Leaving())
  {
    var s := OtherRuns(SemaDown(L), true).(intr := false);
    assert HELD.waiters + [1] == [1] && HELD.arrived + [1] == [1];
    StillWellFormed(s, s.Me(), s.SetLock(L, AWAITED));
    hide Schedule, State.WellFormed;
    assert SemaDownLoop(s, L, true) == Block(s.SetLock(L, AWAITED), Blocked, InSema(L, true));
    hide SemaDownLoop;
    assert s.SetLock(L, AWAITED).SetMe(WAITER) == Leaving();
  }

  lemma MainScheduled()
    requires Leaving().WellFormed()
    ensures Schedule(Leaving()) == Ok(OtherWaits(InYield(false)))
  {
    hide State.WellFormed;
  }

  lemma OtherSleeps()
    ensures CanStep(OtherRuns(SemaDown(L), true), Exec, OtherWaits(InYield(false)))
  {
    var t0 := Holder(Ready, InYield(false));
    TwoWellFormed(1, true, [0], t0, Other(Running, SemaDown(L), true), HELD, false);
    TwoWellFormed(1, false, [0], t0, WAITER, AWAITED, false);
    hide State.WellFormed, Schedule, LockStep;
    SleepSchedules();
    MainScheduled();
  }

  lemma MainReturns()
    ensures CanStep(OtherWaits(InYield(false)), Exec, OtherWaits(Client))
  {
    TwoWellFormed(0, false, [], Holder(Running, InYield(false)), WAITER, AWAITED, false);
    hide State.WellFormed;
  }

  lemma MainCalls()
    ensures CanStep(OtherWaits(Client), Call(UnblockCall(1)), OtherWaits(UnblockTest(1)))
  {
    TwoWellFormed(0, false, [], Holder(Running, Client), WAITER, AWAITED, false);
    hide State.WellFormed;
  }

  lemma MainUnblocks()
    ensures CanStep(OtherWaits(UnblockTest(1)), Exec, OtherWaits(UnblockPush(1)))
  {
    TwoWellFormed(0, false, [], Holder(Running, UnblockTest(1)), WAITER, AWAITED, false);
    hide State.WellFormed;
  }

  lemma MainSteals()
    ensures OtherWaits(UnblockPush(1)).WellFormed() && StealsWaiter(OtherWaits(UnblockPush(1)))
    ensures CanStep(OtherWaits(UnblockPush(1)), Exec, Stolen())
  {
    TwoWellFormed(0, false, [], Holder(Running, UnblockPush(1)), WAITER, AWAITED, false);
    hide State.WellFormed;
  }

  lemma MainYieldsAgain()
    ensures CanStep(Stolen(), Call(YieldCall), BackInSema())
  {
  }

  lemma Stops()
    ensures BackInSema().WellFormed() && Enabled(BackInSema(), Exec)
    ensures Next(BackInSema(), Exec) == Panic(SemaDownFind)
  {
    TwoWellFormed(1, false, [0], Holder(Ready, InYield(false)), WAITER.(status := Running), AWAITED, true);
    hide State.WellFormed;
  }

  // ----------------------------------------------------------------------- the run

  lemma BootReached()
    ensures Reachable(Boot(0))
  {
    assert RunsTo(0, [Boot(0)], [], Boot(0));
  }

  lemma AcquiredReached()
    ensures Reachable(Acquired())
  {
    hide Reachable, CanStep;
    BootReached();
    Begins();
    ReachableNext(Boot(0), Call(InitLock(L)), Acquiring(Client, NEW_LOCK));
    ReachableNext(Acquiring(Client, NEW_LOCK), Call(Acquire(L)), Acquiring(AcquireTest(L), NEW_LOCK));
    TakesSemaphore();
    ReachableNext(Acquiring(AcquireTest(L), NEW_LOCK), Exec, Acquiring(SemaDown(L), NEW_LOCK));
    ReachableNext(Acquiring(SemaDown(L), NEW_LOCK), Exec, Acquiring(AcquireHolder(L), LOCKED));
    NamesHolder();
    ReachableNext(Acquiring(AcquireHolder(L), LOCKED), Exec, Acquiring(AcquireAssert(L), NAMED));
    NotNested();
    ReachableNext(Acquiring(AcquireAssert(L), NAMED), Exec, Acquiring(AcquireRepeat(L), NAMED));
    CountsOne();
    ReachableNext(Acquiring(AcquireRepeat(L), NAMED), Exec, Acquired());
  }

  lemma OtherWaitsReached()
    ensures Reachable(OtherWaits(UnblockPush(1)))
  {
    hide Reachable, CanStep;
    AcquiredReached();
    StartsOther();
    ReachableNext(Acquired(), Call(StartCall(1, 31)), Started());
    MainYields();
    ReachableNext(Started(), Call(YieldCall), OtherRuns(Fresh, false));
    OtherEnters();
    ReachableNext(OtherRuns(Fresh, false), Exec, OtherRuns(Client, true));
    OtherCalls();
    ReachableNext(OtherRuns(Client, true), Call(Acquire(L)), OtherRuns(AcquireTest(L), true));
    OtherTests();
    ReachableNext(OtherRuns(AcquireTest(L), true), Exec, OtherRuns(SemaDown(L), true));
    OtherSleeps();
    ReachableNext(OtherRuns(SemaDown(L), true), Exec, OtherWaits(InYield(false)));
    MainReturns();
    ReachableNext(OtherWaits(InYield(false)), Exec, OtherWaits(Client));
    MainCalls();
    ReachableNext(OtherWaits(Client), Call(UnblockCall(1)), OtherWaits(UnblockTest(1)));
    MainUnblocks();
    ReachableNext(OtherWaits(UnblockTest(1)), Exec, OtherWaits(UnblockPush(1)));
  }

  /** Main is about to steal the waiter; two steps later sema_down's ASSERT stops the machine. */
  lemma TheftStops()
    ensures Reachable(OtherWaits(UnblockPush(1))) && OtherWaits(UnblockPush(1)).WellFormed()
    ensures StealsWaiter(OtherWaits(UnblockPush(1)))
    ensures CanStep(OtherWaits(UnblockPush(1)), Exec, Stolen()) && 1 in Stolen().ready && 1 in Stolen().locks[L].waiters
    ensures Reachable(BackInSema()) && BackInSema().WellFormed() && Enabled(BackInSema(), Exec)
    ensures Next(BackInSema(), Exec) == Panic(SemaDownFind)
  {
    OtherWaitsReached();
    MainSteals();
    MainYieldsAgain();
    Stops();
    hide Reachable, CanStep, State.WellFormed, Next, Enabled, StealsWaiter;
    ReachableNext(OtherWaits(UnblockPush(1)), Exec, Stolen());
    ReachableNext(Stolen(), Call(YieldCall), BackInSema());
  }
}
