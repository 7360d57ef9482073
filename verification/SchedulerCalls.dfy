/** What whole calls come to, from any reachable state, when no timer interrupt comes in between: the state in which
    the caller goes on, or the processor is given away, or the ASSERT that stops the machine. */
module SchedulerCalls {
  import opened Basics
  import opened Scheduler
  import opened SchedulerInvariants
  import opened SchedulerSteps
  import opened SchedulerTheorems

  /** n statements of the running thread lead from s to s'. */
  ghost predicate Execs(s: State, n: nat, s': State)
    decreases n
  {
    if n == 0 then s' == s else exists m :: CanStep(s, Exec, m) && Execs(m, n - 1, s')
  }

  /** The running thread's call of c leads to s'. */
  ghost predicate Leads(s: State, c: Call, s': State) {
    exists m, n: nat :: CanStep(s, Call(c), m) && Execs(m, n, s')
  }

  /** The running thread's call of c stops the machine. */
  ghost predicate Halts(s: State, c: Call, site: Site) {
    exists s' :: Leads(s, c, s') && s'.WellFormed() && Enabled(s', Exec) && Next(s', Exec) == Panic(site)
  }

  lemma OneExec(s: State, m: State, n: nat, s': State)
    requires CanStep(s, Exec, m) && Execs(m, n, s')
    ensures Execs(s, n + 1, s')
  {
  }

  lemma {:induction false} ExecsThen(s: State, n: nat, m: State, k: nat, s': State)
    requires Execs(s, n, m) && Execs(m, k, s')
    ensures Execs(s, n + k, s')
    decreases n
  {
    hide CanStep;
    if n > 0 {
      var x :| CanStep(s, Exec, x) && Execs(x, n - 1, m);
      hide Execs;
      ExecsThen(x, n - 1, m, k, s');
      OneExec(s, x, n - 1 + k, s');
    }
  }

  lemma ReachableWellFormed(s: State)
    requires Reachable(s)
    ensures s.WellFormed() && s.cur in s.threads
  {
    hide Inv, Reachable;
    ReachableInv(s);
    InvQueues(s);
    InvWellFormed(s);
  }

  // ------------------------------------------------------ statements of lock_acquire, lock_release

  lemma StatementGoes(s: State, me: Thread, lk: Lock)
    requires s.WellFormed() && AtStatement(s.Me().pc) && Statement(s.cur, s.Me(), s.locks[s.Me().pc.l]) == Done(me, lk)
    ensures CanStep(s, Exec, s.SetMe(me).SetLock(s.Me().pc.l, lk))
  {
    hide Statement;
  }

  lemma SetTwice(s: State, me: Thread, l: Lid, lk: Lock, me': Thread, lk': Lock)
    requires s.cur in s.threads && l in s.locks
    ensures s.SetMe(me).SetLock(l, lk).SetMe(me').SetLock(l, lk') == s.SetMe(me').SetLock(l, lk')
    ensures s.SetMe(s.Me()).SetLock(l, s.locks[l]) == s
  {
    assert s.threads[s.cur := s.Me()] == s.threads && s.locks[l := s.locks[l]] == s.locks;
  }

  lemma OneStatementLess(cur: Tid, me: Thread, lk: Lock)
    requires AtStatement(me.pc) && Statement(cur, me, lk).Done?
    ensures StatementsLeft(Statement(cur, me, lk).me.pc) < StatementsLeft(me.pc)
  {
  }

  /** The statements up to the semaphore or the return, run one after the other. */
  lemma {:induction false} StatementsRun(s: State, l: Lid, me: Thread, lk: Lock) returns (n: nat)
    requires Reachable(s) && s.cur in s.threads && l in s.locks && (AtStatement(s.Me().pc) ==> s.Me().pc.l == l)
    requires Through(s.cur, s.Me(), s.locks[l]) == Done(me, lk)
    ensures var s' := s.SetMe(me).SetLock(l, lk);
            Execs(s, n, s') && Reachable(s')
    decreases StatementsLeft(s.Me().pc)
  {
    hide Reachable, CanStep, State.WellFormed, Statement;
    if AtStatement(s.Me().pc) {
      var e := Statement(s.cur, s.Me(), s.locks[l]);
      ReachableWellFormed(s);
      StatementGoes(s, e.me, e.lk);
      OneStatementLess(s.cur, s.Me(), s.locks[l]);
      StatementEffect(s.cur, s.Me(), s.locks[l], e.me, e.lk);
      var m := s.SetMe(e.me).SetLock(l, e.lk);
      ReachableNext(s, Exec, m);
      n := StatementsRun(m, l, me, lk);
      SetTwice(s, e.me, l, e.lk, me, lk);
      OneExec(s, m, n, s.SetMe(me).SetLock(l, lk));
      n := n + 1;
    } else {
      SetTwice(s, me, l, lk, me, lk);
      n := 0;
    }
  }

  // ------------------------------------------------------------------- lock_acquire

  lemma CallLeads(s: State, c: Call, m: State, n: nat, s': State)
    requires CanStep(s, Call(c), m) && Execs(m, n, s')
    ensures Leads(s, c, s')
  {
  }

  lemma CallStops(s: State, c: Call, m: State, n: nat, s': State, site: Site)
    requires CanStep(s, Call(c), m) && Execs(m, n, s')
    requires s'.WellFormed() && Enabled(s', Exec) && Next(s', Exec) == Panic(site)
    ensures Halts(s, c, site)
  {
    CallLeads(s, c, m, n, s');
  }

  /** A thread in its own code holds a lock exactly if it is nested in it, and the count is its depth. */
  lemma Holds(s: State, l: Lid)
    requires Reachable(s) && s.cur in s.threads && l in s.locks && s.Me().pc.Client? && s.Me().Depth(l) > 0
    ensures s.locks[l].holder == Some(s.cur) && s.locks[l].value == 0
    ensures s.locks[l].repeat == s.Me().Depth(l) < 0x1_0000_0000
  {
    hide Reachable, Inv, LockOk;
    ReachableInv(s);
    InvLock(s, l);
    InvMe(s);
    HolderSound(s, s.cur, l);
  }

  lemma NobodyHolds(s: State, l: Lid)
    requires Reachable(s) && s.cur in s.threads && l in s.locks && s.locks[l].value != 0
    ensures s.locks[l].value == 1 && s.locks[l].holder == None && s.locks[l].repeat == 0 && s.Me().Depth(l) == 0
  {
    hide Reachable, Inv;
    ReachableInv(s);
    InvLock(s, l);
  }

  lemma CallsLock(s: State, l: Lid, c: Call, pc: Pc)
    requires Reachable(s) && s.cur in s.threads && s.Me().pc.Client? && l in s.locks
    requires (c == Acquire(l) && pc == AcquireTest(l) && s.Me().Depth(l) < 0x1_0000_0000 - 1)
             || (c == Release(l) && pc == ReleaseAssert(l) && s.Me().Depth(l) > 0)
    ensures CanStep(s, Call(c), s.SetPc(pc)) && Reachable(s.SetPc(pc))
  {
    hide Reachable;
    ReachableWellFormed(s);
    hide State.WellFormed;
    ReachableNext(s, Call(c), s.SetPc(pc));
  }

  /** lock_acquire of a lock the thread holds already: one level deeper, and nothing else. */
  lemma AcquireOwn(s: State, l: Lid)
    requires Reachable(s) && s.cur in s.threads && s.Me().pc.Client? && l in s.locks
    requires 0 < s.Me().Depth(l) < 0x1_0000_0000 - 1
    ensures var d := s.Me().Depth(l) + 1;
            Leads(s, Acquire(l), s.SetMe(s.Me().(depth := s.Me().depth[l := d])).SetLock(l, s.locks[l].(repeat := d)))
  {
    hide Reachable, CanStep, Execs, Leads, Through;
    Holds(s, l);
    CallsLock(s, l, Acquire(l), AcquireTest(l));
    var m, d := s.SetPc(AcquireTest(l)), s.Me().Depth(l) + 1;
    AcquireNested(s.cur, m.Me(), s.locks[l], l);
    var me, lk := s.Me().(depth := s.Me().depth[l := d]), s.locks[l].(repeat := d);
    var n := StatementsRun(m, l, me, lk);
    assert m.SetMe(me).SetLock(l, lk) == s.SetMe(me).SetLock(l, lk);
    CallLeads(s, Acquire(l), m, n, s.SetMe(me).SetLock(l, lk));
  }

  /** The running thread has taken lock l and is back in its own code with the flag `status`. */
  ghost function Taken(s: State, l: Lid, status: bool): State
    requires s.cur in s.threads && l in s.locks
  {
    s.SetMe(s.Me().(pc := Client, depth := s.Me().depth[l := 1]))
     .SetLock(l, s.locks[l].(holder := Some(s.cur), value := 0, repeat := 1)).(intr := status)
  }

  /** At the test of the value in sema_down: on entry, or switched back in after waiting. */
  ghost predicate AtTest(s: State, l: Lid, saved: bool) {
    && s.cur in s.threads && l in s.locks
    && ((s.Me().pc == SemaDown(l) && saved == s.intr) || s.Me().pc == InSema(l, saved))
  }

  lemma TestStep(s: State, l: Lid, saved: bool)
    requires Reachable(s) && AtTest(s, l, saved)
    ensures s.WellFormed() && Enabled(s, Exec) && Next(s, Exec) == SemaDownLoop(s.(intr := false), l, saved)
  {
    hide Reachable, SemaDownLoop;
    ReachableWellFormed(s);
    hide State.WellFormed;
    if s.Me().pc.InSema? {
      SwitchedInWithFlagOff(s);
      assert s.(intr := false) == s;
    }
  }

  lemma SemaDownIs(s: State, l: Lid, saved: bool)
    requires s.WellFormed() && l in s.locks && s.locks[l].value == 1
    ensures SemaDownLoop(s, l, saved)
         == Ok(s.SetLock(l, s.locks[l].(value := 0)).SetPc(AcquireHolder(l)).(intr := saved))
  {
    hide State.WellFormed, Block;
  }

  /** The three statements of lock_acquire behind sema_down. */
  lemma AcquireNames(cur: Tid, me: Thread, lk: Lock, l: Lid)
    requires me.pc == AcquireHolder(l) && lk.repeat == 0
    ensures Through(cur, me, lk) == Done(me.(pc := Client, depth := me.depth[l := me.Depth(l) + 1]),
                                         lk.(holder := Some(cur), repeat := 1))
  {
    var me1, me2, lk1 := me.(pc := AcquireAssert(l)), me.(pc := AcquireRepeat(l)), lk.(holder := Some(cur));
    assert Through(cur, me, lk) == Through(cur, me1, lk1);
    assert Through(cur, me1, lk1) == Through(cur, me2, lk1);
    var e := Statement(cur, me2, lk1);
    assert Through(cur, me2, lk1) == Through(cur, e.me, e.lk);
  }

  /** The value goes to 0. */
  lemma TestLowers(s: State, l: Lid, saved: bool)
    requires Reachable(s) && AtTest(s, l, saved) && s.locks[l].value == 1
    ensures var m := s.SetLock(l, s.locks[l].(value := 0)).SetPc(AcquireHolder(l)).(intr := saved);
            CanStep(s, Exec, m) && Reachable(m)
  {
    hide Reachable, CanStep, SemaDownLoop, State.WellFormed, Next;
    TestStep(s, l, saved);
    FlagOffWellFormed(s);
    SemaDownIs(s.(intr := false), l, saved);
    var m := s.SetLock(l, s.locks[l].(value := 0)).SetPc(AcquireHolder(l)).(intr := saved);
    assert s.(intr := false).SetLock(l, m.locks[l]).SetPc(AcquireHolder(l)).(intr := saved) == m;
    StepGoes(s, m);
    ReachableNext(s, Exec, m);
  }

  /** Whoever finds the value 1 gets the lock. */
  lemma TestTakes(s: State, l: Lid, saved: bool) returns (n: nat)
    requires Reachable(s) && AtTest(s, l, saved) && s.locks[l].value != 0
    ensures Execs(s, n, Taken(s, l, saved))
  {
    hide Reachable, CanStep, Execs, Through, Next;
    NobodyHolds(s, l);
    TestLowers(s, l, saved);
    var m := s.SetLock(l, s.locks[l].(value := 0)).SetPc(AcquireHolder(l)).(intr := saved);
    AcquireNames(s.cur, m.Me(), m.locks[l], l);
    var me, lk := m.Me().(pc := Client, depth := m.Me().depth[l := 1]), m.locks[l].(holder := Some(s.cur), repeat := 1);
    n := StatementsRun(m, l, me, lk);
    assert m.SetMe(me).SetLock(l, lk) == Taken(s, l, saved);
    OneExec(s, m, n, Taken(s, l, saved));
    n := n + 1;
  }

  lemma FlagOffWellFormed(s: State)
    requires s.WellFormed()
    ensures s.(intr := false).WellFormed()
  {
  }

  lemma StepGoes(s: State, m: State)
    requires s.WellFormed() && Enabled(s, Exec) && Next(s, Exec) == Ok(m)
    ensures CanStep(s, Exec, m)
  {
  }

  /** lock_acquire up to sema_down, for a thread that does not hold the lock. */
  lemma AcquireEnters(s: State, l: Lid) returns (n: nat)
    requires Reachable(s) && s.cur in s.threads && s.Me().pc.Client? && l in s.locks && s.Me().Depth(l) == 0
    ensures CanStep(s, Call(Acquire(l)), s.SetPc(AcquireTest(l)))
    ensures Execs(s.SetPc(AcquireTest(l)), n, s.SetPc(SemaDown(l))) && Reachable(s.SetPc(SemaDown(l)))
  {
    hide Reachable, CanStep, Execs, Through, Inv, LockOk;
    CallsLock(s, l, Acquire(l), AcquireTest(l));
    var m := s.SetPc(AcquireTest(l));
    ReachableInv(s);
    InvLock(s, l);
    HolderSound(s, s.cur, l);
    EnterThrough(s.cur, m.Me(), s.locks[l], l);
    var me := s.Me().(pc := SemaDown(l));
    n := StatementsRun(m, l, me, s.locks[l]);
    SetTwice(m, me, l, s.locks[l], me, s.locks[l]);
    assert m.SetMe(me).SetLock(l, s.locks[l]) == s.SetPc(SemaDown(l)) by { assert s.locks[l := s.locks[l]] == s.locks; }
  }

  lemma EnterThrough(cur: Tid, me: Thread, lk: Lock, l: Lid)
    requires me.pc == AcquireTest(l) && lk.holder != Some(cur)
    ensures Through(cur, me, lk) == Done(me.(pc := SemaDown(l)), lk)
  {
    var e := Statement(cur, me, lk);
    assert Through(cur, me, lk) == Through(cur, e.me, e.lk);
  }

  /** lock_acquire of a free lock: the caller holds it, and nothing else has changed. */
  lemma AcquireFree(s: State, l: Lid)
    requires Reachable(s) && s.cur in s.threads && s.Me().pc.Client? && l in s.locks && s.locks[l].value != 0
    ensures Leads(s, Acquire(l), Taken(s, l, s.intr))
  {
    hide Reachable, CanStep, Execs, Leads;
    NobodyHolds(s, l);
    var n := AcquireEnters(s, l);
    var x := s.SetPc(SemaDown(l));
    var k := TestTakes(x, l, s.intr);
    assert Taken(x, l, s.intr) == Taken(s, l, s.intr);
    ExecsThen(s.SetPc(AcquireTest(l)), n, x, k, Taken(s, l, s.intr));
    CallLeads(s, Acquire(l), s.SetPc(AcquireTest(l)), n + k, Taken(s, l, s.intr));
  }

  /** The running thread sleeps at the end of the waiters of l, and the head of the ready list runs. */
  ghost function Slept(s: State, l: Lid, saved: bool): State
    requires s.cur in s.threads && l in s.locks && s.ready != [] && s.ready[0] in s.threads && s.ready[0] != s.cur
  {
    var next := s.ready[0];
    s.(cur := next, ready := s.ready[1..], intr := false,
       threads := s.threads[s.cur := s.Me().(status := Blocked, pc := InSema(l, saved))]
                           [next := s.threads[next].(status := Running)],
       locks := s.locks[l := s.locks[l].(waiters := s.locks[l].waiters + [s.cur],
                                         arrived := s.locks[l].arrived + [s.cur])])
  }

  /** schedule() by a thread that has given up its status. */
  lemma Gives(s: State)
    requires s.WellFormed() && !s.intr && !s.Me().status.Running? && s.ready != []
    ensures s.ready[0] in s.threads
    ensures Schedule(s) == Ok(s.(cur := s.ready[0], ready := s.ready[1..],
                                 threads := s.threads[s.ready[0] := s.threads[s.ready[0]].(status := Running)]))
  {
  }

  lemma HeadIsOther(s: State)
    requires Reachable(s) && s.ready != []
    ensures s.cur in s.threads && s.ready[0] in s.threads && s.ready[0] != s.cur && s.cur !in s.ready
  {
    hide Reachable, Inv;
    ReachableInv(s);
    InvMe(s);
    ReachableWellFormed(s);
    assert s.ready[0] in s.ready;
  }

  lemma LoopSleeps(s: State, l: Lid, saved: bool)
    requires s.WellFormed() && l in s.locks && s.locks[l].value == 0 && s.cur !in s.locks[l].waiters && s.ready != []
    requires s.cur in s.threads && s.ready[0] in s.threads && s.ready[0] != s.cur
    ensures SemaDownLoop(s.(intr := false), l, saved) == Ok(Slept(s, l, saved))
  {
    var left := s.Me().(status := Blocked, pc := InSema(l, saved));
    var s1 := s.SetMe(left).(intr := false).SetLock(l, Enqueued(s, l));
    StillWellFormed(s, left, s1);
    StillWellFormed(s, s.Me(), s.(intr := false).SetLock(l, Enqueued(s, l)));
    hide State.WellFormed, Schedule;
    assert SemaDownLoop(s.(intr := false), l, saved) == Schedule(s1);
    hide SemaDownLoop;
    Gives(s1);
  }

  /** Whoever finds the value 0 sleeps, unless an ASSERT stops the machine. */
  lemma TestSleeps(s: State, l: Lid, saved: bool)
    requires Reachable(s) && AtTest(s, l, saved) && s.locks[l].value == 0
    ensures s.WellFormed() && Enabled(s, Exec)
    ensures s.cur in s.locks[l].waiters ==> Next(s, Exec) == Panic(SemaDownFind)
    ensures s.cur !in s.locks[l].waiters && s.ready == [] ==> Next(s, Exec) == Panic(ScheduleEmpty)
    ensures s.cur !in s.locks[l].waiters && s.ready != [] ==>
              s.ready[0] in s.threads && s.ready[0] != s.cur && CanStep(s, Exec, Slept(s, l, saved))
  {
    hide Reachable, SemaDownLoop, Next, Slept;
    TestStep(s, l, saved);
    SemaDownStops(s, l, saved);
    if s.cur !in s.locks[l].waiters && s.ready != [] {
      HeadIsOther(s);
      LoopSleeps(s, l, saved);
      StepGoes(s, Slept(s, l, saved));
    }
  }

  /** lock_acquire of a lock that another thread holds: the caller goes to the end of the waiters and the head of the
      ready list runs. There are two ways for the machine to stop. */
  lemma AcquireHeld(s: State, l: Lid)
    requires Reachable(s) && s.cur in s.threads && s.Me().pc.Client? && l in s.locks
    requires s.locks[l].value == 0 && s.Me().Depth(l) == 0
    ensures s.cur in s.locks[l].waiters ==> Halts(s, Acquire(l), SemaDownFind)
    ensures s.cur !in s.locks[l].waiters && s.ready == [] ==> Halts(s, Acquire(l), ScheduleEmpty)
    ensures s.cur !in s.locks[l].waiters && s.ready != [] ==>
              s.ready[0] in s.threads && s.ready[0] != s.cur && Leads(s, Acquire(l), Slept(s, l, s.intr))
  {
    hide Reachable, CanStep, Execs, Leads, Halts, Next, State.WellFormed, Enabled;
    var n := AcquireEnters(s, l);
    var m, x := s.SetPc(AcquireTest(l)), s.SetPc(SemaDown(l));
    TestSleeps(x, l, s.intr);
    if s.cur in s.locks[l].waiters {
      CallStops(s, Acquire(l), m, n, x, SemaDownFind);
    } else if s.ready == [] {
      CallStops(s, Acquire(l), m, n, x, ScheduleEmpty);
    } else {
      var s' := Slept(s, l, s.intr);
      assert Slept(x, l, s.intr) == s';
      LastExec(m, n, x, s');
      CallLeads(s, Acquire(l), m, n + 1, s');
    }
  }

  lemma LastExec(s: State, n: nat, m: State, s': State)
    requires Execs(s, n, m) && CanStep(m, Exec, s')
    ensures Execs(s, n + 1, s')
  {
    assert Execs(s', 0, s');
    hide CanStep;
    OneExec(m, s', 0, s');
    ExecsThen(s, n, m, 1, s');
  }

  /** A thread that slept on a lock and is switched in again takes the lock, or sleeps again behind all others. */
  lemma WaiterReturns(s: State, l: Lid, saved: bool)
    requires Reachable(s) && s.cur in s.threads && l in s.locks && s.Me().pc == InSema(l, saved)
    ensures s.WellFormed() && Enabled(s, Exec)
    ensures s.locks[l].value != 0 ==> exists n :: Execs(s, n, Taken(s, l, saved))
    ensures s.locks[l].value == 0 && s.cur in s.locks[l].waiters ==> Next(s, Exec) == Panic(SemaDownFind)
    ensures s.locks[l].value == 0 && s.cur !in s.locks[l].waiters && s.ready == [] ==>
              Next(s, Exec) == Panic(ScheduleEmpty)
    ensures s.locks[l].value == 0 && s.cur !in s.locks[l].waiters && s.ready != [] ==>
              s.ready[0] in s.threads && s.ready[0] != s.cur && CanStep(s, Exec, Slept(s, l, saved))
  {
    hide Reachable, CanStep, Execs, Next, Taken, Slept;
    TestStep(s, l, saved);
    if s.locks[l].value != 0 {
      var n := TestTakes(s, l, saved);
    } else {
      TestSleeps(s, l, saved);
    }
  }

  // ------------------------------------------------------------------- lock_release

  /** lock_release by a thread that holds the lock more than once: one level less, and nothing else. */
  lemma ReleaseInner(s: State, l: Lid)
    requires Reachable(s) && s.cur in s.threads && s.Me().pc.Client? && l in s.locks && s.Me().Depth(l) > 1
    ensures var d := s.Me().Depth(l) - 1;
            Leads(s, Release(l), s.SetMe(s.Me().(depth := s.Me().depth[l := d])).SetLock(l, s.locks[l].(repeat := d)))
  {
    hide Reachable, CanStep, Execs, Leads, Through;
    Holds(s, l);
    CallsLock(s, l, Release(l), ReleaseAssert(l));
    var m, d := s.SetPc(ReleaseAssert(l)), s.Me().Depth(l) - 1;
    ReleaseNested(s.cur, m.Me(), s.locks[l], l);
    var me, lk := s.Me().(depth := s.Me().depth[l := d]), s.locks[l].(repeat := d);
    var n := StatementsRun(m, l, me, lk);
    assert m.SetMe(me).SetLock(l, lk) == s.SetMe(me).SetLock(l, lk);
    CallLeads(s, Release(l), m, n, s.SetMe(me).SetLock(l, lk));
  }

  /** l is free, and its last holder is back in its own code. */
  ghost function Freed(s: State, l: Lid): State
    requires s.cur in s.threads && l in s.locks
  {
    s.SetMe(s.Me().(depth := s.Me().depth[l := 0])).SetLock(l, s.locks[l].(holder := None, value := 1, repeat := 0))
  }

  /** The first waiter of l is at the front of the ready list. */
  ghost function FirstPushed(s: State, l: Lid): State
    requires l in s.locks && s.locks[l].waiters != [] && s.locks[l].waiters[0] in s.threads
  {
    var w := s.locks[l].waiters[0];
    s.(ready := [w] + s.ready, threads := s.threads[w := s.threads[w].(status := Ready)],
       locks := s.locks[l := s.locks[l].(waiters := s.locks[l].waiters[1..], served := s.locks[l].served + [w])])
  }

  /** lock_release up to sema_up, by a thread that holds the lock once. */
  ghost function BeforeUp(s: State, l: Lid): State
    requires s.cur in s.threads && l in s.locks
  {
    s.SetMe(s.Me().(pc := SemaUp(l), depth := s.Me().depth[l := 0]))
     .SetLock(l, s.locks[l].(holder := None, repeat := 0))
  }

  lemma ReleaseUntilUp(s: State, l: Lid) returns (n: nat)
    requires Reachable(s) && s.cur in s.threads && s.Me().pc.Client? && l in s.locks && s.Me().Depth(l) == 1
    ensures CanStep(s, Call(Release(l)), s.SetPc(ReleaseAssert(l)))
    ensures Execs(s.SetPc(ReleaseAssert(l)), n, BeforeUp(s, l)) && Reachable(BeforeUp(s, l))
  {
    hide Reachable, CanStep, Execs, Leads, Through;
    Holds(s, l);
    CallsLock(s, l, Release(l), ReleaseAssert(l));
    var m := s.SetPc(ReleaseAssert(l));
    ReleaseLast(s.cur, m.Me(), s.locks[l], l);
    var me := s.Me().(pc := SemaUp(l), depth := s.Me().depth[l := 0]);
    var lk := s.locks[l].(holder := None, repeat := 0);
    n := StatementsRun(m, l, me, lk);
    assert m.SetMe(me).SetLock(l, lk) == BeforeUp(s, l);
  }

  lemma UpStep(s: State, l: Lid)
    requires Reachable(s) && s.cur in s.threads && l in s.locks && s.Me().pc == SemaUp(l)
    ensures s.WellFormed() && Enabled(s, Exec) && Next(s, Exec) == SemaUpBody(s, l)
  {
    hide Reachable, SemaUpBody;
    ReachableWellFormed(s);
    hide State.WellFormed;
  }

  lemma UpNobody(s: State, l: Lid)
    requires s.WellFormed() && l in s.locks && s.locks[l].value == 0 && s.locks[l].waiters == []
    ensures SemaUpBody(s, l) == Ok(s.SetLock(l, s.locks[l].(value := 1)).SetPc(Client))
  {
  }

  lemma UpFirst(s: State, l: Lid)
    requires s.WellFormed() && l in s.locks && s.locks[l].value == 0 && s.locks[l].waiters != []
    requires s.locks[l].waiters[0] in s.threads && s.locks[l].waiters[0] != s.cur
    requires s.locks[l].waiters[0] !in s.ready
    ensures Asleep(s.threads[s.locks[l].waiters[0]].status) ==>
              var x := FirstPushed(s, l); SemaUpBody(s, l) == Ok(x.SetLock(l, x.locks[l].(value := 1)).SetPc(Client))
  {
    hide State.WellFormed;
  }

  lemma UpAwake(s: State, l: Lid)
    requires s.WellFormed() && l in s.locks && s.locks[l].value == 0 && s.locks[l].waiters != []
    requires s.locks[l].waiters[0] in s.threads && !Asleep(s.threads[s.locks[l].waiters[0]].status)
    ensures SemaUpBody(s, l) == Panic(UnblockStat)
  {
    hide State.WellFormed;
  }

  lemma FirstIsOther(s: State, w: Tid)
    requires Reachable(s) && w in s.threads && Asleep(s.threads[w].status)
    ensures w != s.cur && w !in s.ready
  {
    hide Reachable;
    ReachableInv(s);
  }

  lemma WaiterKnown(s: State, l: Lid)
    requires Reachable(s) && l in s.locks && s.locks[l].waiters != []
    ensures s.locks[l].waiters[0] in s.threads
  {
    hide Reachable;
    ReachableWellFormed(s);
  }

  lemma FreedNobody(s: State, l: Lid)
    requires s.cur in s.threads && l in s.locks && s.Me().pc.Client?
    ensures var x := BeforeUp(s, l); x.SetLock(l, x.locks[l].(value := 1)).SetPc(Client) == Freed(s, l)
  {
  }

  lemma FreedFirst(s: State, l: Lid)
    requires s.cur in s.threads && l in s.locks && s.Me().pc.Client? && s.locks[l].waiters != []
    requires s.locks[l].waiters[0] in s.threads && s.locks[l].waiters[0] != s.cur
    ensures var x := FirstPushed(BeforeUp(s, l), l);
            x.SetLock(l, x.locks[l].(value := 1)).SetPc(Client) == Freed(FirstPushed(s, l), l)
  {
    var x, y := FirstPushed(BeforeUp(s, l), l), Freed(FirstPushed(s, l), l);
    assert x.SetPc(Client).threads == y.threads;
  }

  lemma ReleaseNobody(s: State, l: Lid)
    requires Reachable(s) && s.cur in s.threads && s.Me().pc.Client? && l in s.locks && s.Me().Depth(l) == 1
    requires s.locks[l].waiters == []
    ensures Leads(s, Release(l), Freed(s, l))
  {
    hide Reachable, CanStep, Execs, Leads, Next, State.WellFormed, Enabled, SemaUpBody, Freed;
    Holds(s, l);
    var n := ReleaseUntilUp(s, l);
    UpStep(BeforeUp(s, l), l);
    UpNobody(BeforeUp(s, l), l);
    FreedNobody(s, l);
    FinishUp(s, l, s.SetPc(ReleaseAssert(l)), n, Freed(s, l));
  }

  lemma ReleaseFirst(s: State, l: Lid)
    requires Reachable(s) && s.cur in s.threads && s.Me().pc.Client? && l in s.locks && s.Me().Depth(l) == 1
    requires s.locks[l].waiters != [] && s.locks[l].waiters[0] in s.threads
    requires Asleep(s.threads[s.locks[l].waiters[0]].status)
    ensures Leads(s, Release(l), Freed(FirstPushed(s, l), l))
  {
    hide Reachable, CanStep, Execs, Leads, Next, State.WellFormed, Enabled, SemaUpBody, Freed;
    Holds(s, l);
    FirstIsOther(s, s.locks[l].waiters[0]);
    var n := ReleaseUntilUp(s, l);
    UpStep(BeforeUp(s, l), l);
    UpFirst(BeforeUp(s, l), l);
    FreedFirst(s, l);
    FinishUp(s, l, s.SetPc(ReleaseAssert(l)), n, Freed(FirstPushed(s, l), l));
  }

  lemma ReleaseAwake(s: State, l: Lid)
    requires Reachable(s) && s.cur in s.threads && s.Me().pc.Client? && l in s.locks && s.Me().Depth(l) == 1
    requires s.locks[l].waiters != [] && s.locks[l].waiters[0] in s.threads
    requires !Asleep(s.threads[s.locks[l].waiters[0]].status)
    ensures Halts(s, Release(l), UnblockStat)
  {
    hide Reachable, CanStep, Execs, Leads, Halts, Next, State.WellFormed, Enabled, SemaUpBody;
    Holds(s, l);
    var n := ReleaseUntilUp(s, l);
    UpStep(BeforeUp(s, l), l);
    UpAwake(BeforeUp(s, l), l);
    CallStops(s, Release(l), s.SetPc(ReleaseAssert(l)), n, BeforeUp(s, l), UnblockStat);
  }

  /** lock_release by a thread that holds the lock once frees it. The first waiter, if there is one, goes to the front
      of the ready list; nothing else changes. If it is awake, because thread_unblock has pushed it, the machine
      stops. */
  lemma ReleaseOuter(s: State, l: Lid)
    requires Reachable(s) && s.cur in s.threads && s.Me().pc.Client? && l in s.locks && s.Me().Depth(l) == 1
    ensures s.locks[l].waiters == [] ==> Leads(s, Release(l), Freed(s, l))
    ensures s.locks[l].waiters != [] ==>
              var w := s.locks[l].waiters[0];
              && w in s.threads
              && (Asleep(s.threads[w].status) ==> w != s.cur && Leads(s, Release(l), Freed(FirstPushed(s, l), l)))
              && (!Asleep(s.threads[w].status) ==> Halts(s, Release(l), UnblockStat))
  {
    hide Reachable, Leads, Halts, Freed, FirstPushed;
    if s.locks[l].waiters == [] {
      ReleaseNobody(s, l);
    } else {
      WaiterKnown(s, l);
      var w := s.locks[l].waiters[0];
      if Asleep(s.threads[w].status) {
        FirstIsOther(s, w);
        ReleaseFirst(s, l);
      } else {
        ReleaseAwake(s, l);
      }
    }
  }

  lemma FinishUp(s: State, l: Lid, m: State, n: nat, s': State)
    requires s.cur in s.threads && l in s.locks && CanStep(s, Call(Release(l)), m) && Execs(m, n, BeforeUp(s, l))
    requires BeforeUp(s, l).WellFormed() && Enabled(BeforeUp(s, l), Exec) && Next(BeforeUp(s, l), Exec) == Ok(s')
    ensures Leads(s, Release(l), s')
  {
    hide Execs, Leads, Next, State.WellFormed, Enabled, BeforeUp;
    assert CanStep(BeforeUp(s, l), Exec, s') by { StepGoes(BeforeUp(s, l), s'); }
    hide CanStep;
    LastExec(m, n, BeforeUp(s, l), s');
    CallLeads(s, Release(l), m, n + 1, s');
  }

  // ---------------------------------------------------------------- the other calls

  /** intr_enable, intr_disable and intr_set_status: the flag is as asked, which decides whether the timer can
      interrupt; nothing else changes. */
  lemma FlagCall(s: State, on: bool)
    requires Reachable(s) && s.cur in s.threads && s.Me().pc.Client?
    ensures var s' := s.(intr := on, threads := s.threads[s.cur := s.Me().(intr := on)]);
            && CanStep(s, Call(SetIntr(on)), s')
            && s'.WellFormed() && (Enabled(s', TimerInterrupt) <==> on)
  {
    hide Reachable;
    ReachableWellFormed(s);
    var s' := s.(intr := on, threads := s.threads[s.cur := s.Me().(intr := on)]);
    assert CanStep(s, Call(SetIntr(on)), s') by { hide State.WellFormed; }
    ReachableNext(s, Call(SetIntr(on)), s');
    ReachableWellFormed(s');
    hide State.WellFormed;
  }

  /** thread_yield with nobody ready: the caller goes on as if nothing had happened. */
  lemma YieldAlone(s: State)
    requires Reachable(s) && s.cur in s.threads && s.Me().pc.Client? && s.ready == []
    ensures Leads(s, YieldCall, s)
  {
    hide Reachable;
    ReachableWellFormed(s);
    Runs(s);
    var m := s.(intr := false).SetMe(s.Me().(pc := InYield(s.intr)));
    YieldIsAlone(s, m);
    assert CanStep(s, Call(YieldCall), m) by { hide State.WellFormed, Yield; }
    ReachableNext(s, Call(YieldCall), m);
    ReachableWellFormed(m);
    assert CanStep(m, Exec, s) by {
      hide State.WellFormed;
      assert m.SetPc(Client).(intr := s.intr).threads == s.threads;
    }
    hide CanStep;
    assert Execs(s, 0, s);
    OneExec(m, s, 0, s);
    CallLeads(s, YieldCall, m, 1, s);
  }

  lemma Runs(s: State)
    requires Reachable(s) && s.cur in s.threads
    ensures s.Me().status == Running && s.cur !in s.ready
  {
    hide Reachable;
    ReachableInv(s);
  }

  lemma YieldIsAlone(s: State, m: State)
    requires s.WellFormed() && s.ready == [] && s.Me().status == Running
    requires m == s.(intr := false).SetMe(s.Me().(pc := InYield(s.intr)))
    ensures Yield(s) == Ok(m)
  {
    var left := s.Me().(status := Ready, pc := InYield(s.intr));
    var s1 := s.SetMe(left).(ready := [s.cur], intr := false);
    assert s.ready + [s.cur] == [s.cur];
    StillWellFormed(s, left, s1);
    hide State.WellFormed, Schedule;
    assert Yield(s) == Schedule(s1);
    hide Yield;
    Gives(s1);
    assert s1.threads[s.cur := left.(status := Running)] == m.threads;
  }

  /** thread_yield with others ready: the head of the ready list runs, and the caller is at its end. */
  lemma YieldGives(s: State)
    requires Reachable(s) && s.cur in s.threads && s.Me().pc.Client? && s.ready != []
    ensures s.ready[0] in s.threads && s.ready[0] != s.cur
    ensures var next := s.ready[0];
      CanStep(s, Call(YieldCall),
              s.(cur := next, ready := s.ready[1..] + [s.cur], intr := false,
                 threads := s.threads[s.cur := s.Me().(status := Ready, pc := InYield(s.intr))]
                                     [next := s.threads[next].(status := Running)]))
  {
    hide Reachable;
    ReachableWellFormed(s);
    HeadIsOther(s);
    var left := s.Me().(status := Ready, pc := InYield(s.intr));
    var s1 := s.SetMe(left).(ready := s.ready + [s.cur], intr := false);
    StillWellFormed(s, left, s1);
    hide State.WellFormed, Schedule;
    assert Yield(s) == Schedule(s1);
    Gives(s1);
    hide Yield;
    assert s1.ready[1..] == s.ready[1..] + [s.cur];
  }

  /** thread_block: the caller sleeps with the status it asked for and the head of the ready list runs; the machine
      stops if there is none. */
  lemma BlockGives(s: State, stat: Status)
    requires Reachable(s) && s.cur in s.threads && s.Me().pc.Client? && Asleep(stat)
    ensures s.WellFormed() && Enabled(s, Call(BlockCall(stat)))
    ensures s.ready == [] ==> Next(s, Call(BlockCall(stat))) == Panic(ScheduleEmpty)
    ensures s.ready != [] ==> s.ready[0] in s.threads && s.ready[0] != s.cur
    ensures s.ready != [] ==>
      var next := s.ready[0];
      CanStep(s, Call(BlockCall(stat)),
              s.(cur := next, ready := s.ready[1..], intr := false,
                 threads := s.threads[s.cur := s.Me().(status := stat, pc := InBlock(s.intr))]
                                     [next := s.threads[next].(status := Running)]))
  {
    hide Reachable, State.WellFormed, Block;
    ReachableWellFormed(s);
    BlockIs(s, stat);
    if s.ready != [] {
      HeadIsOther(s);
      Gives(s.SetMe(s.Me().(status := stat, pc := InBlock(s.intr))).(intr := false));
      hide Schedule;
    }
  }

  lemma BlockIs(s: State, stat: Status)
    requires s.WellFormed() && Asleep(stat)
    ensures var s1 := s.SetMe(s.Me().(status := stat, pc := InBlock(s.intr))).(intr := false);
            s1.WellFormed() && Block(s, stat, InBlock(s.intr)) == Schedule(s1)
  {
    var left := s.Me().(status := stat, pc := InBlock(s.intr));
    StillWellFormed(s, left, s.SetMe(left).(intr := false));
    hide State.WellFormed, Schedule;
  }

  /** thread_unblock of a thread that sleeps puts it at the front of the ready list and changes nothing else; of any
      other thread it stops the machine. */
  lemma UnblockPushes(s: State, t: Tid)
    requires Reachable(s) && s.cur in s.threads && s.Me().pc.Client? && t in s.threads
    ensures Asleep(s.threads[t].status) ==>
              Leads(s, UnblockCall(t),
                    s.(ready := [t] + s.ready, threads := s.threads[t := s.threads[t].(status := Ready)],
                       stolen := s.stolen || s.threads[t].pc.InSema?))
    ensures !Asleep(s.threads[t].status) ==> Halts(s, UnblockCall(t), UnblockStat)
  {
    hide Reachable;
    ReachableWellFormed(s);
    var m, x := s.SetPc(UnblockTest(t)), s.SetPc(UnblockPush(t));
    assert CanStep(s, Call(UnblockCall(t)), m) by { hide State.WellFormed; }
    ReachableNext(s, Call(UnblockCall(t)), m);
    ReachableWellFormed(m);
    Runs(s);
    hide State.WellFormed;
    assert Execs(m, 0, m);
    if Asleep(s.threads[t].status) {
      FirstIsOther(s, t);
      assert CanStep(m, Exec, x);
      ReachableNext(m, Exec, x);
      var s' := s.(ready := [t] + s.ready, threads := s.threads[t := s.threads[t].(status := Ready)],
                   stolen := s.stolen || s.threads[t].pc.InSema?);
      PushGoes(s, t, s');
      hide CanStep;
      LastExec(m, 0, m, x);
      LastExec(m, 1, x, s');
      CallLeads(s, UnblockCall(t), m, 2, s');
    } else {
      CallStops(s, UnblockCall(t), m, 0, m, UnblockStat);
    }
  }

  lemma PushGoes(s: State, t: Tid, s': State)
    requires s.cur in s.threads && s.Me().pc.Client? && t in s.threads && Reachable(s.SetPc(UnblockPush(t)))
    requires Asleep(s.threads[t].status) && t != s.cur && t !in s.ready
    requires s' == s.(ready := [t] + s.ready, threads := s.threads[t := s.threads[t].(status := Ready)],
                      stolen := s.stolen || s.threads[t].pc.InSema?)
    ensures CanStep(s.SetPc(UnblockPush(t)), Exec, s')
  {
    hide Reachable;
    var x := s.SetPc(UnblockPush(t));
    ReachableWellFormed(x);
    hide State.WellFormed;
    var p := x.(threads := x.threads[t := x.threads[t].(status := Ready)], ready := [t] + x.ready);
    assert PushReady(x, t) == Ok(p);
    assert p.SetPc(Client).threads == s'.threads;
  }

  /** thread_start: the new thread is ready behind all others, with priority and slice cut to a byte. */
  lemma StartAppends(s: State, t: Tid, prio: nat)
    requires Reachable(s) && s.cur in s.threads && s.Me().pc.Client? && t !in s.threads
    ensures CanStep(s, Call(StartCall(t, prio)),
                    s.(ready := s.ready + [t], all := s.all + [t],
                       threads := s.threads[t := Thread(Ready, prio % 0x100, prio % 0x100, 0, Fresh, false, map[])]))
  {
    hide Reachable, Inv;
    ReachableWellFormed(s);
    ReachableInv(s);
    Stranger(s, t);
    hide State.WellFormed;
  }

  /** A thread switched in again behind an interrupt, thread_block or thread_yield goes on where it was, with the flag
      it had; one that runs for the first time enters its function with interrupts on. */
  lemma GoesOn(s: State)
    requires Reachable(s) && s.cur in s.threads && s.Me().pc.Suspended() && !s.Me().pc.InSema?
    ensures s.Me().pc.Preempted? ==>
              CanStep(s, Exec, s.(intr := true, threads := s.threads[s.cur := s.Me().(pc := s.Me().pc.at)]))
    ensures s.Me().pc.InBlock? || s.Me().pc.InYield? ==>
              s.Me().pc.saved == s.Me().intr
              && CanStep(s, Exec, s.(intr := s.Me().intr, threads := s.threads[s.cur := s.Me().(pc := Client)]))
    ensures s.Me().pc.Fresh? ==>
              CanStep(s, Exec, s.(intr := true, threads := s.threads[s.cur := s.Me().(pc := Client, intr := true)]))
  {
    hide Reachable, Inv;
    ReachableWellFormed(s);
    ReachableInv(s);
    InvMe(s);
    hide State.WellFormed;
  }

  /** lock_init: a free lock that nobody waits for. */
  lemma InitFrees(s: State, l: Lid)
    requires Reachable(s) && s.cur in s.threads && s.Me().pc.Client? && l !in s.locks
    ensures CanStep(s, Call(InitLock(l)), s.(locks := s.locks[l := Lock(None, 1, [], 0, [], [])]))
  {
    hide Reachable;
    ReachableWellFormed(s);
    hide State.WellFormed;
  }

  /** The timer: a tick for the machine and for the running thread, which loses one tick of its slice, or, with none
      left, gets a new slice and goes to the end of the ready list. */
  lemma TimerTicks(s: State)
    requires Reachable(s) && s.cur in s.threads && s.intr
    ensures var me := s.Me().(elapsed := (s.Me().elapsed + 1) % 0x1_0000_0000);
            var s1 := s.(ticks := (s.ticks + 1) % 0x1_0000_0000);
      && (me.ticks > 0 ==>
            CanStep(s, TimerInterrupt, s1.(threads := s.threads[s.cur := me.(ticks := me.ticks - 1)])))
      && (me.ticks == 0 ==>
            var threads := s.threads[s.cur := me.(pc := Preempted(me.pc), ticks := me.priority, status := Ready)];
            var q := s.ready + [s.cur];
            && q[0] in threads
            && CanStep(s, TimerInterrupt, s1.(cur := q[0], ready := q[1..], intr := false,
                                              threads := threads[q[0] := threads[q[0]].(status := Running)])))
  {
    hide Reachable;
    ReachableWellFormed(s);
    Runs(s);
    QueueKnown(s);
    hide State.WellFormed;
    if s.Me().ticks == 0 {
      TimerHolds(s);
      hide Timer;
      var left := s.Me().(elapsed := (s.Me().elapsed + 1) % WORD_SIZE, pc := Preempted(s.Me().pc),
                          ticks := s.Me().priority, status := Ready);
      TimerRequeues(s, left);
    }
  }

  lemma TimerRequeues(s: State, left: Thread)
    requires s.WellFormed() && s.Me().ticks == 0 && s.Me().status.Running? && Timer(s).Ok? && s.intr
    requires left == s.Me().(elapsed := (s.Me().elapsed + 1) % WORD_SIZE, pc := Preempted(s.Me().pc),
                             ticks := s.Me().priority, status := Ready)
    ensures var q, threads := s.ready + [s.cur], s.threads[s.cur := left];
      && q[0] in threads
      && Timer(s) == Ok(s.(ticks := (s.ticks + 1) % WORD_SIZE, cur := q[0], ready := q[1..], intr := false,
                           threads := threads[q[0] := threads[q[0]].(status := Running)]))
  {
    hide Schedule;
    QueueKnown(s);
    var me := s.Me().(elapsed := (s.Me().elapsed + 1) % WORD_SIZE, pc := Preempted(s.Me().pc));
    var s1 := s.(ticks := (s.ticks + 1) % WORD_SIZE).SetMe(me).(intr := false);
    StillWellFormed(s, me, s1);
    hide State.WellFormed;
    assert Timer(s) == Schedule(s1);
    hide Timer;
    ScheduleRequeues(s1, left, Schedule(s1).s);
    assert s1.threads[s.cur := left] == s.threads[s.cur := left];
  }
}
