/** A run in which thread_unblock stops the machine although its caller had checked that the thread sleeps: the ASSERT
    reads the status with interrupts on, and a second thread unblocks the same thread first. */
module UnblockRace {
  import opened Scheduler
  import opened SchedulerSteps
  import opened SchedulerTheorems

  ghost function Main(status: Status, pc: Pc): Thread { Thread(status, 31, 31, 0, pc, false, map[]) }

  ghost function Other(status: Status, elapsed: nat, pc: Pc, intr: bool): Thread {
    Thread(status, 0, 0, elapsed, pc, intr, map[])
  }

  /** Three threads: main is 0, and the priority of 1 and 2 is 0. */
  ghost function Three(cur: Tid, intr: bool, ready: seq<Tid>, t0: Thread, t1: Thread, t2: Thread, ticks: nat): State {
    State(cur, intr, ready, [0, 1, 2], map[0 := t0, 1 := t1, 2 := t2], map[], ticks, false)
  }

  ghost const FRESH := Other(Ready, 0, Fresh, false)
  ghost const SLEEPS := Main(Blocked, InBlock(false))                          // thread 0 in thread_block
  ghost const CALLED := Other(Ready, 1, Preempted(UnblockTest(0)), true)       // thread 1, interrupted at the ASSERT
  ghost const YIELDED := Other(Ready, 0, InYield(true), true)                  // thread 2, behind its thread_unblock

  /** Thread 1 runs, thread 0 sleeps in thread_block, and nobody is unblocking it. */
  ghost function Checked(): State { Three(1, true, [2], SLEEPS, Other(Running, 0, Client, true), FRESH, 0) }

  /** Thread 1 is at the ASSERT, and thread 0 has been woken. */
  ghost function AtAssert(): State {
    Three(1, true, [2, 0], Main(Ready, InYield(false)), Other(Running, 1, UnblockTest(0), true), YIELDED, 1)
  }

  // ------------------------------------------------------------- the states between

  ghost function Two(): State { Boot(0).(threads := Boot(0).threads[1 := FRESH], ready := [1], all := [0, 1]) }

  ghost function AllStarted(): State { Three(0, false, [1, 2], Main(Running, Client), FRESH, FRESH, 0) }

  ghost function MainAsleep(): State { Three(1, false, [2], SLEEPS, Other(Running, 0, Fresh, false), FRESH, 0) }

  ghost function Calling(): State { Three(1, true, [2], SLEEPS, Other(Running, 0, UnblockTest(0), true), FRESH, 0) }

  ghost function Rival(intr: bool, pc: Pc): State {
    Three(2, intr, [1], SLEEPS, CALLED, Other(Running, 0, pc, intr), 1)
  }

  ghost function Pushed(): State {
    Three(2, true, [0, 1], Main(Ready, InBlock(false)), CALLED, Other(Running, 0, Client, true), 1)
  }

  ghost function MainBack(pc: Pc): State { Three(0, false, [1, 2], Main(Running, pc), CALLED, YIELDED, 1) }

  ghost function Back(): State {
    Three(1, false, [2, 0], Main(Ready, InYield(false)), CALLED.(status := Running), YIELDED, 1)
  }

  // --------------------------------------------------------------------- the steps

  ghost predicate Named(th: Thread) { !th.pc.At().OnLock() && (th.pc.At().OnUnblock() ==> th.pc.At().w < 3) }

  lemma ThreeWellFormed(cur: Tid, intr: bool, ready: seq<Tid>, t0: Thread, t1: Thread, t2: Thread, ticks: nat)
    requires cur < 3 && (forall i :: 0 <= i < |ready| ==> ready[i] < 3) && Named(t0) && Named(t1) && Named(t2)
    ensures Three(cur, intr, ready, t0, t1, t2, ticks).WellFormed()
  {
  }

  lemma Starts()
    ensures CanStep(Boot(0), Call(StartCall(1, 0)), Two())
    ensures CanStep(Two(), Call(StartCall(2, 0)), AllStarted())
  {
  }

  lemma Blocks()
    ensures CanStep(AllStarted(), Call(BlockCall(Blocked)), MainAsleep())
  {
  }

  lemma Enters()
    ensures CanStep(MainAsleep(), Exec, Checked())
    ensures CanStep(Rival(false, Fresh), Exec, Rival(true, Client))
  {
    ThreeWellFormed(1, false, [2], SLEEPS, Other(Running, 0, Fresh, false), FRESH, 0);
    ThreeWellFormed(2, false, [1], SLEEPS, CALLED, Other(Running, 0, Fresh, false), 1);
    hide State.WellFormed;
  }

  lemma Calls()
    ensures CanStep(Checked(), Call(UnblockCall(0)), Calling())
  {
    ThreeWellFormed(1, true, [2], SLEEPS, Other(Running, 0, Client, true), FRESH, 0);
    hide State.WellFormed;
  }

  lemma RivalCalls()
    ensures CanStep(Rival(true, Client), Call(UnblockCall(0)), Rival(true, UnblockTest(0)))
  {
    ThreeWellFormed(2, true, [1], SLEEPS, CALLED, Other(Running, 0, Client, true), 1);
    hide State.WellFormed;
  }

  ghost function Interrupted(): State {
    Three(1, false, [2], SLEEPS, Other(Running, 1, Preempted(UnblockTest(0)), true), FRESH, 1)
  }

  lemma BothWellFormed()
    ensures Calling().WellFormed() && Interrupted().WellFormed()
  {
    ThreeWellFormed(1, true, [2], SLEEPS, Other(Running, 0, UnblockTest(0), true), FRESH, 0);
    ThreeWellFormed(1, false, [2], SLEEPS, Other(Running, 1, Preempted(UnblockTest(0)), true), FRESH, 1);
    hide State.WellFormed;
  }

  lemma TimerSchedules()
    requires Calling().WellFormed() && Interrupted().WellFormed()
    ensures Timer(Calling()) == Schedule(Interrupted())
  {
    hide State.WellFormed, Schedule;
    var left := Other(Running, 1, Preempted(UnblockTest(0)), true);
    assert Calling().SetMe(left).threads == Interrupted().threads;
  }

  lemma RivalScheduled()
    requires Interrupted().WellFormed()
    ensures Schedule(Interrupted()) == Ok(Rival(false, Fresh))
  {
    hide State.WellFormed;
  }

  lemma Interrupts()
    ensures CanStep(Calling(), TimerInterrupt, Rival(false, Fresh))
  {
    hide State.WellFormed, Schedule, Timer;
    BothWellFormed();
    TimerSchedules();
    RivalScheduled();
  }

  lemma RivalPushes()
    ensures CanStep(Rival(true, UnblockTest(0)), Exec, Rival(true, UnblockPush(0)))
    ensures CanStep(Rival(true, UnblockPush(0)), Exec, Pushed())
  {
    ThreeWellFormed(2, true, [1], SLEEPS, CALLED, Other(Running, 0, UnblockTest(0), true), 1);
    ThreeWellFormed(2, true, [1], SLEEPS, CALLED, Other(Running, 0, UnblockPush(0), true), 1);
    hide State.WellFormed;
  }

  lemma RivalYields()
    ensures CanStep(Pushed(), Call(YieldCall), MainBack(InBlock(false)))
  {
    ThreeWellFormed(2, true, [0, 1], Main(Ready, InBlock(false)), CALLED, Other(Running, 0, Client, true), 1);
    ThreeWellFormed(2, false, [0, 1, 2], Main(Ready, InBlock(false)), CALLED, YIELDED, 1);
    hide State.WellFormed;
  }

  lemma MainReturns()
    ensures CanStep(MainBack(InBlock(false)), Exec, MainBack(Client))
  {
    ThreeWellFormed(0, false, [1, 2], Main(Running, InBlock(false)), CALLED, YIELDED, 1);
    hide State.WellFormed;
  }

  ghost function MainLeaves(): State { Three(0, false, [1, 2, 0], Main(Ready, InYield(false)), CALLED, YIELDED, 1) }

  lemma MainWellFormed()
    ensures MainBack(Client).WellFormed() && MainLeaves().WellFormed() && MainBack(Client).Me().pc == Client
  {
    ThreeWellFormed(0, false, [1, 2], Main(Running, Client), CALLED, YIELDED, 1);
    ThreeWellFormed(0, false, [1, 2, 0], Main(Ready, InYield(false)), CALLED, YIELDED, 1);
    hide State.WellFormed;
  }

  lemma MainQueues()
    requires MainBack(Client).WellFormed() && MainLeaves().WellFormed()
    ensures Yield(MainBack(Client)) == Schedule(MainLeaves())
  {
    hide State.WellFormed, Schedule;
    var s := MainBack(Client);
    assert s.ready + [0] == [1, 2, 0];
    assert s.SetMe(Main(Ready, InYield(false))).threads == MainLeaves().threads;
  }

  lemma OtherScheduled()
    requires MainLeaves().WellFormed()
    ensures Schedule(MainLeaves()) == Ok(Back())
  {
    hide State.WellFormed;
  }

  lemma MainYields()
    ensures CanStep(MainBack(Client), Call(YieldCall), Back())
  {
    hide State.WellFormed, Yield, Schedule, MainBack, MainLeaves, Back;
    MainWellFormed();
    MainQueues();
    OtherScheduled();
  }

  lemma Returns()
    ensures CanStep(Back(), Exec, AtAssert())
  {
    ThreeWellFormed(1, false, [2, 0], Main(Ready, InYield(false)), CALLED.(status := Running), YIELDED, 1);
    hide State.WellFormed;
  }

  lemma Stops()
    ensures AtAssert().WellFormed() && Enabled(AtAssert(), Exec) && Next(AtAssert(), Exec) == Panic(UnblockStat)
  {
    ThreeWellFormed(1, true, [2, 0], Main(Ready, InYield(false)), Other(Running, 1, UnblockTest(0), true), YIELDED, 1);
    hide State.WellFormed;
  }

  // ---------------------------------------------------------------------- the run

  lemma BootReached()
    ensures Reachable(Boot(0))
  {
    assert RunsTo(0, [Boot(0)], [], Boot(0));
  }

  lemma CheckedReached()
    ensures Reachable(Checked())
  {
    hide Reachable, CanStep;
    BootReached();
    Starts();
    ReachableNext(Boot(0), Call(StartCall(1, 0)), Two());
    ReachableNext(Two(), Call(StartCall(2, 0)), AllStarted());
    Blocks();
    ReachableNext(AllStarted(), Call(BlockCall(Blocked)), MainAsleep());
    Enters();
    ReachableNext(MainAsleep(), Exec, Checked());
  }

  lemma PushedReached()
    ensures Reachable(Pushed())
  {
    hide Reachable, CanStep;
    CheckedReached();
    Calls();
    ReachableNext(Checked(), Call(UnblockCall(0)), Calling());
    Interrupts();
    ReachableNext(Calling(), TimerInterrupt, Rival(false, Fresh));
    Enters();
    ReachableNext(Rival(false, Fresh), Exec, Rival(true, Client));
    RivalCalls();
    ReachableNext(Rival(true, Client), Call(UnblockCall(0)), Rival(true, UnblockTest(0)));
    RivalPushes();
    ReachableNext(Rival(true, UnblockTest(0)), Exec, Rival(true, UnblockPush(0)));
    ReachableNext(Rival(true, UnblockPush(0)), Exec, Pushed());
  }

  lemma AtAssertReached()
    ensures Reachable(AtAssert())
  {
    hide Reachable, CanStep;
    PushedReached();
    RivalYields();
    ReachableNext(Pushed(), Call(YieldCall), MainBack(InBlock(false)));
    MainReturns();
    ReachableNext(MainBack(InBlock(false)), Exec, MainBack(Client));
    MainYields();
    ReachableNext(MainBack(Client), Call(YieldCall), Back());
    Returns();
    ReachableNext(Back(), Exec, AtAssert());
  }

  /** Thread 1 calls thread_unblock for a sleeping thread that nobody else is unblocking, and its ASSERT stops the
      machine. */
  lemma CheckedCallStops()
    ensures Reachable(Checked()) && Sleeps(Checked(), 0) && forall u :: !Unblocks(Checked(), u, 0)
    ensures CanStep(Checked(), Call(UnblockCall(0)), Calling())
    ensures Reachable(AtAssert()) && AtAssert().WellFormed() && Enabled(AtAssert(), Exec)
    ensures Next(AtAssert(), Exec) == Panic(UnblockStat)
  {
    CheckedReached();
    Calls();
    AtAssertReached();
    Stops();
    hide Reachable, CanStep, AtAssert, Calling, State.WellFormed, Next, Enabled;
  }
}
