/** What the kernel promises, for every state and every pair of states of every run from boot. */
module SchedulerTheorems {
  import opened Basics
  import opened Scheduler
  import opened SchedulerInvariants
  import opened SchedulerSteps

  // ---------------------------------------------------------- mutual exclusion

  ghost function Insiders(s: State, l: Lid): set<Tid> {
    set t | t in s.threads && Inside(s.threads[t], l)
  }

  /** The number of threads between the decrement in lock_acquire and the increment in lock_release is 1 - value. */
  lemma MutualExclusion(s: State, l: Lid)
    requires Reachable(s) && l in s.locks
    ensures s.locks[l].value in {0, 1}
    ensures |Insiders(s, l)| == 1 - s.locks[l].value
  {
    hide Inv, Reachable, LockOk;
    ReachableInv(s);
    InvLock(s, l);
    CountInsiders(s, l);
  }

  lemma CountInsiders(s: State, l: Lid)
    requires l in s.locks && LockOk(s, l)
    ensures s.locks[l].value in {0, 1} && |Insiders(s, l)| == 1 - s.locks[l].value
  {
    if s.locks[l].value == 0 {
      var o: Tid :| IsOwner(s, o, l);
      forall t ensures t in Insiders(s, l) <==> t in {o} {}
      assert Insiders(s, l) == {o};
    } else {
      assert Insiders(s, l) == {};
    }
  }

  /** `holder` names the insider and nobody else, and counts its nesting. */
  lemma HolderIsInsider(s: State, l: Lid, t: Tid)
    requires Reachable(s) && l in s.locks && t in s.threads
    ensures
            && (s.locks[l].holder == Some(t) ==>
                  Insiders(s, l) == {t} && s.locks[l].repeat == s.threads[t].Depth(l))
            && (s.threads[t].pc.Client? && s.threads[t].Depth(l) > 0 ==> s.locks[l].holder == Some(t))
  {
    hide Inv, Reachable, LockOk;
    ReachableInv(s);
    InvLock(s, l);
    HolderSound(s, t, l);
    if s.locks[l].holder == Some(t) { assert IsOwner(s, t, l) && Insiders(s, l) == {t}; }
  }

  /** The code of lock_acquire or lock_release up to the semaphore, the return or a failing ASSERT. */
  ghost function Through(cur: Tid, me: Thread, lk: Lock): Effect
    decreases StatementsLeft(me.pc)
  {
    if !AtStatement(me.pc) then Done(me, lk)
    else match Statement(cur, me, lk)
         case Fails(site) => Fails(site)
         case Done(me', lk') => Through(cur, me', lk')
  }

  /** How many statements are still to come, at most. */
  ghost function StatementsLeft(pc: Pc): nat {
    match pc
    case AcquireTest(_) => 2
    case AcquireHolder(_) => 3
    case AcquireAssert(_) => 2
    case AcquireNest(_) => 1
    case AcquireRepeat(_) => 1
    case ReleaseAssert(_) => 5
    case ReleaseTest(_) => 4
    case ReleaseAssertOne(_) => 3
    case ReleaseHolder(_) => 2
    case ReleaseNest(_) => 1
    case ReleaseRepeat(_) => 1
    case _ => 0
  }

  /** n calls of lock_acquire on l in a row. */
  ghost function AcquireTimes(cur: Tid, me: Thread, lk: Lock, l: Lid, n: nat): Effect {
    if n == 0 then Done(me, lk)
    else match AcquireTimes(cur, me, lk, l, n - 1)
         case Fails(site) => Fails(site)
         case Done(me', lk') => Through(cur, me'.(pc := AcquireTest(l)), lk')
  }

  lemma AcquireNested(cur: Tid, me: Thread, lk: Lock, l: Lid)
    requires me.pc == AcquireTest(l) && lk.holder == Some(cur)
    ensures Through(cur, me, lk) == Done(me.(pc := Client, depth := me.depth[l := me.Depth(l) + 1]),
                                         lk.(repeat := (lk.repeat + 1) % WORD_SIZE))
  {
    var me1 := me.(pc := AcquireNest(l));
    assert Through(cur, me, lk) == Through(cur, me1, lk);
    var e := Statement(cur, me1, lk);
    assert Through(cur, me1, lk) == Through(cur, e.me, e.lk);
  }

  lemma {:induction false} NestedCount(cur: Tid, me: Thread, lk: Lock, l: Lid, n: nat)
    requires me.pc.Client? && lk.holder == Some(cur) && lk.repeat == me.Depth(l) % WORD_SIZE
    ensures var e := AcquireTimes(cur, me, lk, l, n);
            && e.Done? && e.me.pc.Client? && e.me.Depth(l) == me.Depth(l) + n
            && e.lk == lk.(repeat := (me.Depth(l) + n) % WORD_SIZE)
  {
    hide Through;
    if n > 0 {
      NestedCount(cur, me, lk, l, n - 1);
      var e := AcquireTimes(cur, me, lk, l, n - 1);
      AcquireNested(cur, e.me.(pc := AcquireTest(l)), e.lk, l);
    }
  }

  /** lock_release by a holder that holds the lock more than once. */
  lemma ReleaseNested(cur: Tid, me: Thread, lk: Lock, l: Lid)
    requires me.pc == ReleaseAssert(l) && lk.holder == Some(cur) && me.Depth(l) > 0 && lk.repeat > 1
    ensures Through(cur, me, lk) == Done(me.(pc := Client, depth := me.depth[l := me.Depth(l) - 1]),
                                         lk.(repeat := (lk.repeat - 1) % WORD_SIZE))
  {
    var me1, me2 := me.(pc := ReleaseTest(l)), me.(pc := ReleaseNest(l));
    assert Through(cur, me, lk) == Through(cur, me1, lk);
    assert Through(cur, me1, lk) == Through(cur, me2, lk);
    var e := Statement(cur, me2, lk);
    assert Through(cur, me2, lk) == Through(cur, e.me, e.lk);
  }

  /** lock_release by a holder whose count says that this is its last lock_release, or says 0. */
  lemma ReleaseLast(cur: Tid, me: Thread, lk: Lock, l: Lid)
    requires me.pc == ReleaseAssert(l) && lk.holder == Some(cur) && me.Depth(l) > 0 && lk.repeat <= 1
    ensures Through(cur, me, lk) ==
              if lk.repeat == 0 then Fails(ReleaseRepeatOne)
              else Done(me.(pc := SemaUp(l), depth := me.depth[l := me.Depth(l) - 1]), lk.(holder := None, repeat := 0))
  {
    var me1, me2 := me.(pc := ReleaseTest(l)), me.(pc := ReleaseAssertOne(l));
    assert Through(cur, me, lk) == Through(cur, me1, lk);
    assert Through(cur, me1, lk) == Through(cur, me2, lk);
    if lk.repeat == 1 {
      var me3 := me.(pc := ReleaseHolder(l));
      assert Through(cur, me2, lk) == Through(cur, me3, lk);
      ReleaseClears(cur, me3, lk, l);
    }
  }

  lemma ReleaseClears(cur: Tid, me: Thread, lk: Lock, l: Lid)
    requires me.pc == ReleaseHolder(l) && me.Depth(l) > 0
    ensures Through(cur, me, lk) ==
              Done(me.(pc := SemaUp(l), depth := me.depth[l := me.Depth(l) - 1]), lk.(holder := None, repeat := 0))
  {
    var me1, lk1 := me.(pc := ReleaseRepeat(l)), lk.(holder := None);
    assert Through(cur, me, lk) == Through(cur, me1, lk1);
    var e := Statement(cur, me1, lk1);
    assert Through(cur, me1, lk1) == Through(cur, e.me, e.lk);
  }

  /** A holder that nests n calls deeper gets a right count exactly while its depth fits 32 bits. Beyond that, its next
      lock_release stops the machine exactly when the depth is a multiple of 2^32, and gives the lock up while the
      thread still holds it exactly when the depth is one more than such a multiple. */
  lemma NestingLimit(s: State, l: Lid, n: nat)
    requires Reachable(s) && l in s.locks && s.cur in s.threads && s.Me().pc.Client? && s.Me().Depth(l) > 0
    ensures var e := AcquireTimes(s.cur, s.Me(), s.locks[l], l, n);
            var depth := s.Me().Depth(l) + n;
            && e.Done? && e.me.Depth(l) == depth && (e.lk.repeat == depth <==> depth < 0x1_0000_0000)
            && var r := Through(s.cur, e.me.(pc := ReleaseAssert(l)), e.lk);
               && (r.Fails? <==> depth % 0x1_0000_0000 == 0)
               && (r.Fails? ==> r.site == ReleaseRepeatOne)
               && (r.Done? ==> r.me.Depth(l) == depth - 1
                               && (r.me.pc == SemaUp(l) <==> depth % 0x1_0000_0000 == 1))
  {
    hide Reachable, Inv, LockOk, IsOwner, Statement, AcquireTimes, Through;
    ReachableInv(s);
    InvLock(s, l);
    InvMe(s);
    HolderSound(s, s.cur, l);
    assert s.locks[l].repeat == s.Me().Depth(l) < WORD_SIZE && s.locks[l].holder == Some(s.cur);
    hide MeOk, DepthOk;
    NestedCount(s.cur, s.Me(), s.locks[l], l, n);
    var e := AcquireTimes(s.cur, s.Me(), s.locks[l], l, n);
    var me := e.me.(pc := ReleaseAssert(l));
    if e.lk.repeat > 1 { ReleaseNested(s.cur, me, e.lk, l); } else { ReleaseLast(s.cur, me, e.lk, l); }
  }

  // --------------------------------------------------------------- wake-ups

  /** A free lock with waiters has a thread already popped that can run and will test the value again. */
  lemma NoLostWakeUp(s: State, l: Lid)
    requires Reachable(s) && !s.stolen && l in s.locks
    requires s.locks[l].value == 1 && s.locks[l].waiters != []
    ensures exists t :: Woken(s, t, l) && t !in s.locks[l].waiters
                     && (t == s.cur || t in s.ready)
  {
    hide Reachable, Inv;
    ReachableInv(s);
    InvLock(s, l);
    var t :| Woken(s, t, l);
    InvWoken(s, l, t);
  }

  lemma InvWoken(s: State, l: Lid, t: Tid)
    requires Inv(s) && l in s.locks && Woken(s, t, l)
    ensures t == s.cur || t in s.ready
    ensures !s.stolen ==> t !in s.locks[l].waiters
  {
    InvQueues(s);
    hide Inv, ThreadShape;
    assert WaitersOk(s, l);
    assert !AsleepOn(s, t, l);
  }

  /** Waiters are popped in the order in which they were appended, and nobody is dropped. */
  lemma WaitersInOrder(s: State, l: Lid)
    requires Reachable(s) && l in s.locks
    ensures s.locks[l].arrived == s.locks[l].served + s.locks[l].waiters
  {
    hide Reachable, Inv, ThreadShape;
    ReachableInv(s);
    InvQueues(s);
    assert WaitersOk(s, l);
  }

  // ------------------------------------------------------------------ queues

  ghost function InQueue(q: seq<Tid>): set<Tid> { set t | t in q }

  ghost function Parked(s: State): set<Tid> {
    set t | t in s.threads && Asleep(s.threads[t].status) && s.threads[t].pc.InBlock?
  }

  /** The running thread, the ready list, the waiters of each lock and the threads in thread_block are disjoint,
      have no duplicates, and make up thread_all_list. */
  lemma Partition(s: State)
    requires Reachable(s) && !s.stolen
    ensures
      && NoDup(s.ready) && NoDup(s.all) && InQueue(s.all) == s.threads.Keys
      && s.cur in s.threads && s.cur !in s.ready && s.cur !in Parked(s)
      && (forall t :: t in s.threads ==> (s.threads[t].status == Running <==> t == s.cur))
      && (forall t :: t in s.threads ==> (s.threads[t].status == Ready <==> t in s.ready))
      && (forall l :: l in s.locks ==> NoDup(s.locks[l].waiters))
      && (forall l, t :: l in s.locks && t in s.locks[l].waiters ==>
            t in s.threads && t != s.cur && t !in s.ready && t !in Parked(s))
      && (forall l, k, t ::
            l in s.locks && k in s.locks && t in s.locks[l].waiters && t in s.locks[k].waiters ==> l == k)
      && (forall t :: t in s.threads ==>
            t == s.cur || t in s.ready || t in Parked(s) || (exists l :: l in s.locks && t in s.locks[l].waiters))
  {
    hide Reachable, Inv, ThreadShape, WaitersOk;
    ReachableInv(s);
    InvQueues(s);
    QueuesPartition(s);
  }

  lemma QueuesPartition(s: State)
    requires Queues(s) && !s.stolen
    ensures InQueue(s.all) == s.threads.Keys && s.cur !in s.ready
    ensures forall l :: l in s.locks ==> NoDup(s.locks[l].waiters)
    ensures forall l, t :: l in s.locks && t in s.locks[l].waiters ==> AsleepOn(s, t, l)
    ensures forall t :: t in s.threads ==>
      t == s.cur || t in s.ready || t in Parked(s) || (exists l :: l in s.locks && t in s.locks[l].waiters)
  {
    forall l, t | l in s.locks && t in s.locks[l].waiters ensures AsleepOn(s, t, l) { assert WaitersOk(s, l); }
    forall l | l in s.locks ensures NoDup(s.locks[l].waiters) { assert WaitersOk(s, l); }
    forall t | t in s.threads && t != s.cur && t !in s.ready && t !in Parked(s)
      ensures exists l :: l in s.locks && t in s.locks[l].waiters
    {
      assert ThreadShape(s, t);
      var l := s.threads[t].pc.l;
      assert WaitersOk(s, l) && AsleepOn(s, t, l);
    }
  }

  // --------------------------------------------------------------- assertions

  /** The running thread goes to sleep in this step. */
  ghost predicate GivesUp(s: State, a: Action)
    requires s.WellFormed() && Enabled(s, a)
  {
    || (a.Call? && a.c.BlockCall?)
    || (a.Exec? && (s.Me().pc.SemaDown? || s.Me().pc.InSema?) && s.locks[s.Me().pc.l].value == 0)
  }

  lemma StatementHolds(s: State)
    requires s.cur in s.threads && AtStatement(s.Me().pc) && s.Me().pc.l in s.locks
    requires DepthOk(s.Me()) && View(s.cur, s.Me(), s.locks[s.Me().pc.l], s.Me().pc.l)
    ensures Statement(s.cur, s.Me(), s.locks[s.Me().pc.l]).Done?
  {
  }

  lemma SemaUpStops(s: State, l: Lid)
    requires s.WellFormed() && l in s.locks && s.locks[l].value == 0
    requires s.locks[l].waiters != [] ==>
               var w := s.locks[l].waiters[0];
               w in s.threads && (w in s.ready ==> s.threads[w].status == Ready)
    ensures SemaUpBody(s, l).Panic? <==> FirstAwake(s, l)
    ensures SemaUpBody(s, l).Panic? ==> SemaUpBody(s, l).site == UnblockStat
  {
    hide State.WellFormed;
  }

  /** thread_unblock's ASSERT finds its thread awake: it reads the status with interrupts on, or is called by sema_up
      for a thread that has been stolen. */
  ghost predicate FindsAwake(s: State, a: Action)
    requires s.WellFormed() && Enabled(s, a)
  {
    || (a.Exec? && s.Me().pc.UnblockTest? && !Asleep(s.threads[s.Me().pc.w].status))
    || (a.Exec? && s.Me().pc.SemaUp? && FirstAwake(s, s.Me().pc.l))
  }

  ghost predicate FirstAwake(s: State, l: Lid) {
    && l in s.locks && s.locks[l].waiters != [] && s.locks[l].waiters[0] in s.threads
    && !Asleep(s.threads[s.locks[l].waiters[0]].status)
  }

  /** sema_down's ASSERT finds the running thread among the waiters it is about to join. */
  ghost predicate FindsItself(s: State, a: Action)
    requires s.WellFormed() && Enabled(s, a)
  {
    && a.Exec? && (s.Me().pc.SemaDown? || s.Me().pc.InSema?)
    && s.locks[s.Me().pc.l].value == 0 && s.cur in s.locks[s.Me().pc.l].waiters
  }

  /** The machine stops in this step exactly when it must, and at the ASSERT it must. */
  ghost predicate StopsWhere(s: State, a: Action, o: Outcome)
    requires s.WellFormed() && Enabled(s, a)
  {
    && (o == Panic(ScheduleEmpty) <==> GivesUp(s, a) && !FindsItself(s, a) && s.ready == [])
    && (o == Panic(UnblockStat) <==> FindsAwake(s, a))
    && (o == Panic(SemaDownFind) <==> FindsItself(s, a))
    && (o.Panic? ==> o.site in {ScheduleEmpty, UnblockStat, SemaDownFind})
  }

  lemma UnblockStops(s: State)
    requires s.WellFormed() && Enabled(s, Exec) && s.Me().pc.OnUnblock()
    requires s.Me().pc.w in s.ready ==> s.threads[s.Me().pc.w].status == Ready
    ensures StopsWhere(s, Exec, LockStep(s))
  {
  }

  lemma ReadyStatus(s: State, t: Tid)
    requires Inv(s) && t in s.ready
    ensures t in s.threads && s.threads[t].status == Ready
  {
  }

  /** What the invariant says about the running thread and the lock it is at. */
  ghost predicate LockFacts(s: State, l: Lid) {
    && s.cur in s.threads && s.Me().status.Running? && s.cur !in s.ready
    && l in s.locks && s.locks[l].value in {0, 1}
    && DepthOk(s.Me()) && View(s.cur, s.Me(), s.locks[l], l)
    && (s.Me().pc.SemaUp? ==> s.locks[l].value == 0)
    && (s.locks[l].waiters != [] ==>
          var w := s.locks[l].waiters[0];
          w in s.threads && (w in s.ready ==> s.threads[w].status == Ready))
  }

  lemma InvLockFacts(s: State, l: Lid)
    requires Inv(s) && s.cur in s.threads && s.Me().pc.OnLock() && s.Me().pc.l == l && l in s.locks
    ensures LockFacts(s, l)
  {
    hide Inv, Queues, WaitersOk, LockOk, FlagOk, ThreadShape;
    InvMe(s);
    InvLock(s, l);
    if s.locks[l].waiters != [] { InvFirst(s, l); }
    HolderSound(s, s.cur, l);
    LockValues(s, l);
  }

  lemma LockValues(s: State, l: Lid)
    requires l in s.locks && LockOk(s, l)
    ensures s.locks[l].value in {0, 1}
  {
  }

  lemma InvFirst(s: State, l: Lid)
    requires Inv(s) && l in s.locks && s.locks[l].waiters != []
    ensures var w := s.locks[l].waiters[0];
            w in s.threads && (w in s.ready ==> s.threads[w].status == Ready)
  {
    InvQueues(s);
    hide Inv, ThreadShape;
    assert s.locks[l].waiters[0] in s.locks[l].waiters && WaitersOk(s, l);
  }

  lemma SemaDownStops(s: State, l: Lid, saved: bool)
    requires s.WellFormed() && l in s.locks && s.locks[l].value in {0, 1}
    ensures var o := SemaDownLoop(s.(intr := false), l, saved);
      && (o == Panic(SemaDownFind) <==> s.locks[l].value == 0 && s.cur in s.locks[l].waiters)
      && (o == Panic(ScheduleEmpty) <==> s.locks[l].value == 0 && s.cur !in s.locks[l].waiters && s.ready == [])
      && (o.Panic? ==> o.site in {SemaDownFind, ScheduleEmpty})
  {
    hide State.WellFormed;
  }

  lemma LockStops(s: State, l: Lid)
    requires s.WellFormed() && Enabled(s, Exec) && s.Me().pc.OnLock() && l == s.Me().pc.l
    requires LockFacts(s, l) && MeOk(s)
    ensures StopsWhere(s, Exec, Next(s, Exec))
  {
    hide State.WellFormed, SemaDownLoop, SemaUpBody, Statement, DepthOk, View, FlagOk, ThreadShape;
    if AtStatement(s.Me().pc) {
      StatementHolds(s);
    } else if s.Me().pc.SemaUp? {
      SemaUpStops(s, l);
    } else if s.Me().pc.SemaDown? {
      SemaDownStops(s, l, s.intr);
    } else {
      assert s.(intr := false) == s;
      SemaDownStops(s, l, s.Me().pc.saved);
    }
  }

  lemma ExecPanics(s: State)
    requires s.WellFormed() && Enabled(s, Exec)
    requires Inv(s)
    ensures StopsWhere(s, Exec, Next(s, Exec))
  {
    hide Inv, LockFacts, MeOk, SemaDownLoop, SemaUpBody, Statement;
    InvMe(s);
    if s.Me().pc.OnLock() {
      InvLockFacts(s, s.Me().pc.l);
      hide State.WellFormed;
      LockStops(s, s.Me().pc.l);
    } else if s.Me().pc.OnUnblock() {
      if s.Me().pc.w in s.ready { ReadyStatus(s, s.Me().pc.w); }
      UnblockStops(s);
    }
  }

  /** Of all ASSERTs of the scheduler, the semaphores and the locks only three can fire: the one for an empty ready
      list, exactly when the only runnable thread goes to sleep; the one of thread_unblock, exactly when its thread is
      awake by then; and the one of sema_down, exactly when a thread finds itself among the waiters. */
  lemma ExactPanics(s: State, a: Action)
    requires Reachable(s)
    requires s.WellFormed() && Enabled(s, a)
    ensures StopsWhere(s, a, Next(s, a))
  {
    ReachableInv(s);
    hide Reachable;
    if a.Exec? {
      ExecPanics(s);
    } else {
      OtherPanics(s, a);
    }
  }

  lemma OtherPanics(s: State, a: Action)
    requires s.WellFormed() && Enabled(s, a) && !a.Exec?
    requires Inv(s)
    ensures StopsWhere(s, a, Next(s, a))
  {
    hide State.WellFormed, Timer, DoCall, Inv, Flags, Locks, Clocks;
    if a.Call? && a.c.StartCall? { Stranger(s, a.c.t); }
    InvMe(s);
    if a.TimerInterrupt? { TimerHolds(s); } else { CallPanics(s, a.c); }
  }

  lemma Stranger(s: State, t: Tid)
    requires Inv(s) && t !in s.threads
    ensures t !in s.ready && t !in s.all
  {
  }

  lemma TimerHolds(s: State)
    requires s.WellFormed() && s.cur !in s.ready && s.Me().status.Running?
    ensures Timer(s).Ok?
  {
    hide State.WellFormed;
  }

  lemma CallPanics(s: State, c: Call)
    requires s.WellFormed() && Allowed(s, c) && s.cur !in s.ready
    requires c.StartCall? ==> c.t !in s.ready && c.t !in s.all
    ensures DoCall(s, c).Panic? <==> c.BlockCall? && s.ready == []
    ensures DoCall(s, c).Panic? ==> DoCall(s, c).site == ScheduleEmpty
  {
    hide State.WellFormed;
  }

  /** There is no idle thread: right after boot the ASSERT in schedule() stops a main thread that blocks. */
  lemma NobodyElse(main: Tid)
    ensures Boot(main).WellFormed() && Enabled(Boot(main), Call(BlockCall(Blocked)))
    ensures Next(Boot(main), Call(BlockCall(Blocked))) == Panic(ScheduleEmpty)
  {
  }

  // --------------------------------------------- thread_unblock with interrupts on

  /** Until a thread that sleeps on a lock is pushed by thread_unblock, sema_up finds its first waiter asleep and nobody
      finds himself among the waiters. */
  lemma PanicsBeforeTheft(s: State, a: Action)
    requires Reachable(s) && !s.stolen
    requires s.WellFormed() && Enabled(s, a)
    ensures !FindsItself(s, a) && (FindsAwake(s, a) ==> s.Me().pc.UnblockTest?)
  {
    hide Reachable, Inv;
    ReachableInv(s);
    InvQueues(s);
    QueuesMe(s);
    if a.Exec? && s.Me().pc.OnLock() {
      WellFormedMe(s);
      hide State.WellFormed;
      WaitersAsleep(s, s.Me().pc.l);
    }
  }

  lemma WaitersAsleep(s: State, l: Lid)
    requires Queues(s) && !s.stolen && l in s.locks
    ensures s.cur !in s.locks[l].waiters && !FirstAwake(s, l)
  {
    hide ThreadShape;
    assert WaitersOk(s, l);
    assert !AsleepOn(s, s.cur, l);
    if s.locks[l].waiters != [] { FirstWaiter(s, l); }
  }

  /** The waiters of every lock are the threads asleep on it. */
  ghost predicate QueuesApart(s: State) { forall l :: l in s.locks ==> AllAsleep(s, l) }

  /** Behind its ASSERT, thread_unblock keeps the queues apart if and only if its thread is not asleep on a lock;
      otherwise the thread is in the ready list and in that lock's waiters. */
  lemma StolenWaiter(s: State, s': State)
    requires Inv(s) && !s.stolen && s.WellFormed() && s.Me().pc.UnblockPush? && LockStep(s) == Ok(s')
    ensures QueuesApart(s') <==> !StealsWaiter(s)
    ensures StealsWaiter(s) ==> var w := s.Me().pc.w;
              w in s'.ready && s.threads[w].pc.l in s'.locks && w in s'.locks[s.threads[w].pc.l].waiters
  {
    hide Queues, Flags, Locks, Clocks, LockStep;
    assert s.cur in s.threads;
    if StealsWaiter(s) {
      hide State.WellFormed;
      WaitsAndReady(s, s.Me().pc.w, s');
    } else {
      hide Inv;
      assert CanStep(s, Exec, s') && !s'.stolen by {
        InvMe(s);
        StepStolen(s, Exec, s');
      }
      hide State.WellFormed;
      StepKept(s, Exec, s');
      InvApart(s');
    }
  }

  lemma InvApart(s: State)
    requires Inv(s) && !s.stolen
    ensures QueuesApart(s)
  {
    InvQueues(s);
    hide Inv, AllAsleep, ThreadShape;
    forall l | l in s.locks ensures AllAsleep(s, l) { assert WaitersOk(s, l); }
  }

  lemma SemaDownSteals(s: State, l: Lid, saved: bool)
    requires s.WellFormed() && l in s.locks && SemaDownLoop(s.(intr := false), l, saved).Ok?
    ensures SemaDownLoop(s.(intr := false), l, saved).s.stolen == s.stolen
  {
    var s' := SemaDownLoop(s.(intr := false), l, saved).s;
    if s.locks[l].value == 0 {
      SleepHandsOver(s, l, saved, s');
      hide State.WellFormed, SemaDownLoop;
    } else {
      hide State.WellFormed, Schedule;
    }
  }

  lemma ExecSteals(s: State, s': State)
    requires CanStep(s, Exec, s') && (s.Me().pc.Suspended() ==> !s.intr)
    ensures s'.stolen == (s.stolen || StealsWaiter(s))
  {
    WellFormedMe(s);
    hide State.WellFormed, SemaDownLoop, Statement;
    if s.Me().pc.SemaDown? {
      SemaDownSteals(s, s.Me().pc.l, s.intr);
    } else if s.Me().pc.InSema? {
      assert s.(intr := false) == s;
      SemaDownSteals(s, s.Me().pc.l, s.Me().pc.saved);
    }
  }

  lemma TimerSteals(s: State, s': State)
    requires s.WellFormed() && s.cur in s.threads && s.Me().status.Running? && Timer(s) == Ok(s')
    ensures s'.stolen == s.stolen
  {
    hide State.WellFormed, Schedule;
    if s.Me().ticks == 0 {
      var left := s.Me().(elapsed := (s.Me().elapsed + 1) % WORD_SIZE, pc := Preempted(s.Me().pc),
                          ticks := s.Me().priority, status := Ready);
      TimerExpires(s, left, s');
    }
  }

  lemma CallSteals(s: State, c: Call, s': State)
    requires CanStep(s, Call(c), s')
    ensures s'.stolen == s.stolen
  {
    hide State.WellFormed, Schedule;
    if c.YieldCall? {
      hide Yield;
      YieldHandsOver(s, s');
    } else if c.BlockCall? {
      hide Block;
      BlockHandsOver(s, c.stat, s');
    }
  }

  /** No other step steals a waiter. */
  lemma StepStolen(s: State, a: Action, s': State)
    requires CanStep(s, a, s') && MeOk(s)
    ensures s'.stolen == (s.stolen || (a.Exec? && StealsWaiter(s)))
  {
    hide State.WellFormed, Timer, DoCall, Resume, LockStep;
    match a
    case TimerInterrupt => TimerSteals(s, s');
    case Exec => ExecSteals(s, s');
    case Call(c) => CallSteals(s, c, s');
  }

  lemma WaitsAndReady(s: State, w: Tid, s': State)
    requires Queues(s) && !s.stolen && s.WellFormed() && s.Me().pc == UnblockPush(w) && LockStep(s) == Ok(s')
    requires StealsWaiter(s)
    ensures w in s'.ready && s.threads[w].pc.l in s'.locks && w in s'.locks[s.threads[w].pc.l].waiters
    ensures !QueuesApart(s')
  {
    var l := s.threads[w].pc.l;
    assert ThreadShape(s, w) && WaitersOk(s, l) && AsleepOn(s, w, l);
    assert s'.threads[w].status == Ready && !AsleepOn(s', w, l);
    assert s'.locks == s.locks && !AllAsleep(s', l);
  }

  ghost predicate Sleeps(s: State, t: Tid) {
    t in s.threads && Asleep(s.threads[t].status) && s.threads[t].pc.InBlock?
  }

  ghost predicate Unblocks(s: State, u: Tid, w: Tid) {
    u in s.threads && s.threads[u].pc.At().OnUnblock() && s.threads[u].pc.At().w == w
  }

  /** The rule that keeps callers of thread_unblock safe: unblock only a thread that sleeps in thread_block and that
      nobody else is unblocking. */
  ghost predicate Careful(s: State, a: Action) {
    a.Call? && a.c.UnblockCall? ==> Sleeps(s, a.c.t) && forall u :: !Unblocks(s, u, a.c.t)
  }

  ghost predicate OneWaker(s: State) {
    forall u, w :: Unblocks(s, u, w) ==> Sleeps(s, w) && forall v :: Unblocks(s, v, w) ==> v == u
  }

  /** Thread t is inside thread_unblock only if it was or has just called it, and is woken only by whoever unblocks
      it. */
  ghost predicate Wakers(s: State, a: Action, s': State, t: Tid)
    requires s.cur in s.threads
  {
    && (forall w :: Unblocks(s', t, w) ==> Unblocks(s, t, w) || (t == s.cur && a == Call(UnblockCall(w))))
    && (Sleeps(s, t) ==> Sleeps(s', t) || (a.Exec? && s.Me().pc == UnblockPush(t) && !Unblocks(s', s.cur, t)))
  }

  lemma HandoverWakers(s: State, a: Action, me: Thread, s': State, t: Tid)
    requires Handover(s, me, s') && s.Me().status.Running?
    requires s'.cur == s.cur || s.threads[s'.cur].status.Ready?
    requires me.pc.At() == s.Me().pc.At() || !me.pc.At().OnUnblock()
    ensures Wakers(s, a, s', t)
  {
  }

  lemma NextIsReady(s: State, me: Thread, s': State)
    requires Queues(s) && Handover(s, me, s')
    ensures s'.cur == s.cur || s.threads[s'.cur].status.Ready?
  {
    assert s'.cur in Requeued(s, me);
  }

  lemma LocalWakers(s: State, a: Action, me: Thread, s': State, t: Tid)
    requires s.cur in s.threads && s.Me().status.Running? && s'.threads == s.threads[s.cur := me]
    requires me.pc.At() == s.Me().pc.At() || !me.pc.At().OnUnblock() || a == Call(UnblockCall(me.pc.At().w))
             || (s.Me().pc.OnUnblock() && me.pc.OnUnblock() && s.Me().pc.w == me.pc.w)
    ensures Wakers(s, a, s', t)
  {
  }

  lemma WakeWakers(s: State, me: Thread, w: Tid, s': State, t: Tid)
    requires Wake(s, me, w, s') && me.pc.Client? && s.Me().status.Running?
    requires s.Me().pc == UnblockPush(w) || s.threads[w].pc.InSema?
    ensures Wakers(s, Exec, s', t)
  {
  }

  lemma SemaDownWakers(s: State, l: Lid, saved: bool, s': State, t: Tid)
    requires Queues(s) && s.WellFormed() && l in s.locks && SemaDownLoop(s.(intr := false), l, saved) == Ok(s')
    ensures Wakers(s, Exec, s', t)
  {
    hide Queues, Wakers;
    QueuesMe(s);
    if s.locks[l].value == 0 {
      var me := s.Me().(status := Blocked, pc := InSema(l, saved));
      SleepHandsOver(s, l, saved, s');
      NextIsReady(s, me, s');
      hide State.WellFormed, Handover, SemaDownLoop;
      HandoverWakers(s, Exec, me, s', t);
    } else {
      hide State.WellFormed, Schedule;
      LocalWakers(s, Exec, s'.Me(), s', t);
    }
  }

  lemma SemaUpWakers(s: State, l: Lid, s': State, t: Tid)
    requires Queues(s) && !s.stolen && s.WellFormed() && l in s.locks && s.Me().pc == SemaUp(l)
    requires SemaUpBody(s, l) == Ok(s')
    ensures Wakers(s, Exec, s', t)
  {
    hide Queues, Wakers;
    QueuesMe(s);
    if s.locks[l].waiters == [] {
      SemaUpAlone(s, l, s');
      hide State.WellFormed, SemaUpBody;
      LocalWakers(s, Exec, s'.Me(), s', t);
    } else {
      FirstWaiter(s, l);
      SemaUpIsWake(s, l, s');
      hide State.WellFormed, SemaUpBody, Wake;
      WakeWakers(s, s.Me().(pc := Client), s.locks[l].waiters[0], s', t);
    }
  }

  lemma UnblockWakers(s: State, s': State, t: Tid)
    requires Inv(s) && !s.stolen && s.cur in s.threads && CanStep(s, Exec, s') && s.Me().pc.OnUnblock()
    ensures Wakers(s, Exec, s', t)
  {
    hide Inv, CanStep, State.WellFormed, PushReady, Wakers;
    UnblockSteps(s, s');
    var w := s.Me().pc.w;
    NotRunning(s, w);
    NotRunning(s, s.cur);
    if s.Me().pc.UnblockPush? && Asleep(s.threads[w].status) {
      PushIsWake(s, s');
      hide Wake;
      WakeWakers(s, s.Me().(pc := Client), w, s', t);
    } else {
      LocalWakers(s, Exec, s'.Me(), s', t);
    }
  }

  lemma ExecWakers(s: State, s': State, t: Tid)
    requires Inv(s) && !s.stolen && s.cur in s.threads && CanStep(s, Exec, s')
    ensures Wakers(s, Exec, s', t)
  {
    hide Inv, Wakers, Statement, SemaDownLoop, SemaUpBody, PushReady, State.WellFormed, Queues;
    InvQueues(s);
    QueuesMe(s);
    WellFormedMe(s);
    if s.Me().pc.OnUnblock() {
      hide CanStep;
      UnblockWakers(s, s', t);
    } else if AtStatement(s.Me().pc) {
      StatementStep(s, s');
      var l := s.Me().pc.l;
      var e := Statement(s.cur, s.Me(), s.locks[l]);
      StatementEffect(s.cur, s.Me(), s.locks[l], e.me, e.lk);
      hide CanStep;
      LocalWakers(s, Exec, e.me, s', t);
    } else if s.Me().pc.SemaDown? {
      SemaDownWakers(s, s.Me().pc.l, s.intr, s', t);
    } else if s.Me().pc.InSema? {
      assert s.(intr := false) == s by { InvFlag(s); }
      SemaDownWakers(s, s.Me().pc.l, s.Me().pc.saved, s', t);
    } else if s.Me().pc.SemaUp? {
      SemaUpWakers(s, s.Me().pc.l, s', t);
    } else {
      hide LockStep;
      LocalWakers(s, Exec, s'.Me(), s', t);
    }
  }

  lemma InvFlag(s: State)
    requires Inv(s) && s.cur in s.threads && s.Me().pc.Suspended()
    ensures !s.intr
  {
  }

  lemma TimerWakers(s: State, s': State, t: Tid)
    requires Queues(s) && s.WellFormed() && s.cur in s.threads && Timer(s) == Ok(s')
    ensures Wakers(s, TimerInterrupt, s', t)
  {
    hide Queues, State.WellFormed, Schedule, Wakers, Handover;
    QueuesMe(s);
    var me := s.Me();
    if me.ticks == 0 {
      hide Timer;
      var left := me.(elapsed := (me.elapsed + 1) % WORD_SIZE, pc := Preempted(me.pc),
                      ticks := me.priority, status := Ready);
      TimerExpires(s, left, s');
      NextIsReady(s, left, s');
      HandoverWakers(s, TimerInterrupt, left, s', t);
    } else {
      LocalWakers(s, TimerInterrupt, s'.Me(), s', t);
    }
  }

  lemma CallWakers(s: State, c: Call, s': State, t: Tid)
    requires Queues(s) && s.cur in s.threads && s.Me().status.Running? && CanStep(s, Call(c), s')
    ensures Wakers(s, Call(c), s', t)
  {
    hide Queues, State.WellFormed, Schedule, Handover, Wakers;
    if c.YieldCall? {
      hide Yield;
      YieldHandsOver(s, s');
      var me := s.Me().(status := Ready, pc := InYield(s.intr));
      NextIsReady(s, me, s');
      HandoverWakers(s, Call(c), me, s', t);
    } else if c.BlockCall? {
      hide Block;
      BlockHandsOver(s, c.stat, s');
      var me := s.Me().(status := c.stat, pc := InBlock(s.intr));
      NextIsReady(s, me, s');
      HandoverWakers(s, Call(c), me, s', t);
    } else if c.StartCall? {
      StartWakers(s, c, s', t);
    } else {
      LocalWakers(s, Call(c), if c.InitLock? then s.Me() else s'.Me(), s', t);
    }
  }

  lemma StartWakers(s: State, c: Call, s': State, t: Tid)
    requires c.StartCall? && s.cur in s.threads && CanStep(s, Call(c), s')
    ensures Wakers(s, Call(c), s', t)
  {
    hide State.WellFormed;
  }

  lemma StepWakers(s: State, a: Action, s': State, t: Tid)
    requires Inv(s) && !s.stolen && s.cur in s.threads && CanStep(s, a, s')
    ensures Wakers(s, a, s', t)
  {
    hide Inv, Wakers, Timer, DoCall, Resume, LockStep, State.WellFormed, MeOk, ThreadShape, FlagOk, DepthOk;
    NotRunning(s, s.cur);
    InvQueues(s);
    match a
    case TimerInterrupt => TimerWakers(s, s', t);
    case Exec => ExecWakers(s, s', t);
    case Call(c) => CallWakers(s, c, s', t);
  }

  lemma OneWakerKept(s: State, a: Action, s': State)
    requires s.cur in s.threads && OneWaker(s) && Careful(s, a)
    requires forall t :: Wakers(s, a, s', t)
    ensures OneWaker(s')
  {
    forall u, w | Unblocks(s', u, w) ensures Sleeps(s', w) && forall v :: Unblocks(s', v, w) ==> v == u {
      assert Wakers(s, a, s', u) && Wakers(s, a, s', w);
      forall v | Unblocks(s', v, w) ensures v == u { assert Wakers(s, a, s', v); }
      if Unblocks(s, u, w) {
        assert s.Me().pc == UnblockPush(w) ==> Unblocks(s, s.cur, w);
      }
    }
  }

  /** While callers of thread_unblock keep to the rule, its ASSERT never fires and no waiter is stolen. */
  lemma {:induction false} CarefulRuns(main: Tid, trace: seq<State>, acts: seq<Action>, s: State)
    requires RunsTo(main, trace, acts, s)
    requires forall i {:trigger acts[i]} :: 0 <= i < |acts| ==> Careful(trace[i], acts[i])
    ensures OneWaker(s) && !s.stolen
    decreases |acts|
  {
    hide Inv, CanStep, OneWaker, Careful;
    var n := |acts|;
    if n == 0 {
      assert OneWaker(Boot(main)) by { BootOneWaker(main); }
    } else {
      assert acts[n - 1] == acts[n - 1];
      var acts', trace' := acts[..n - 1], trace[..n];
      forall i | 0 <= i < n - 1
        ensures CanStep(trace'[i], acts'[i], trace'[i + 1]) && Careful(trace'[i], acts'[i])
      {
        assert acts[i] == acts'[i];
      }
      CarefulRuns(main, trace', acts', trace[n - 1]);
      RunInv(main, trace', acts', trace[n - 1]);
      CarefulStep(trace[n - 1], acts[n - 1], s);
    }
  }

  lemma CarefulStep(s: State, a: Action, s': State)
    requires Inv(s) && OneWaker(s) && !s.stolen && Careful(s, a) && CanStep(s, a, s')
    ensures OneWaker(s') && !s'.stolen
  {
    hide Inv, OneWaker, Careful, Queues;
    InvQueues(s);
    QueuesMe(s);
    InvMe(s);
    StepStolen(s, a, s');
    MeFindsAsleep(s);
    hide CanStep;
    forall t ensures Wakers(s, a, s', t) { StepWakers(s, a, s', t); }
    hide Wakers;
    OneWakerKept(s, a, s');
  }

  lemma BootOneWaker(main: Tid)
    ensures OneWaker(Boot(main))
  {
  }

  lemma OnlyEmptyReadyPanics(main: Tid, trace: seq<State>, acts: seq<Action>, s: State)
    requires RunsTo(main, trace, acts, s)
    requires forall i {:trigger acts[i]} :: 0 <= i < |acts| ==> Careful(trace[i], acts[i])
    ensures s.WellFormed() && !s.stolen
    ensures forall a :: Enabled(s, a) ==>
              && (Next(s, a).Panic? <==> GivesUp(s, a) && s.ready == [])
              && (Next(s, a).Panic? ==> Next(s, a).site == ScheduleEmpty)
  {
    hide Inv, Queues, RunsTo, State.WellFormed, Next;
    CarefulRuns(main, trace, acts, s);
    RunInv(main, trace, acts, s);
    assert Reachable(s);
    hide Reachable;
    InvQueues(s);
    InvWellFormed(s);
    QueuesMe(s);
    MeFindsAsleep(s);
    forall a | Enabled(s, a)
      ensures (Next(s, a).Panic? <==> GivesUp(s, a) && s.ready == [])
      ensures (Next(s, a).Panic? ==> Next(s, a).site == ScheduleEmpty)
    {
      ExactPanics(s, a);
      PanicsBeforeTheft(s, a);
    }
  }

  lemma MeFindsAsleep(s: State)
    requires OneWaker(s) && s.cur in s.threads
    ensures s.Me().pc.OnUnblock() ==> Sleeps(s, s.Me().pc.w)
  {
    assert s.Me().pc.OnUnblock() ==> Unblocks(s, s.cur, s.Me().pc.w);
  }

  // ------------------------------------------------------------ interrupt flag

  /** Thread t's history flag is as before, and it is not about to start. */
  ghost predicate OwnFlag(s: State, s': State, t: Tid) {
    t in s.threads && !s.threads[t].pc.Fresh? ==>
      t in s'.threads && !s'.threads[t].pc.Fresh? && s'.threads[t].intr == s.threads[t].intr
  }

  lemma HandoverOwnFlag(s: State, me: Thread, s': State, t: Tid)
    requires Handover(s, me, s') && me.intr == s.Me().intr && !me.pc.Fresh?
    ensures OwnFlag(s, s', t)
  {
  }

  lemma SemaDownOwnFlag(s: State, l: Lid, saved: bool, s': State, t: Tid)
    requires s.WellFormed() && l in s.locks && SemaDownLoop(s.(intr := false), l, saved) == Ok(s')
    ensures OwnFlag(s, s', t)
  {
    if s.locks[l].value == 0 {
      SleepHandsOver(s, l, saved, s');
      hide State.WellFormed, Handover, SemaDownLoop;
      HandoverOwnFlag(s, s.Me().(status := Blocked, pc := InSema(l, saved)), s', t);
    } else {
      hide State.WellFormed, Schedule;
    }
  }

  lemma ExecOwnFlag(s: State, s': State, t: Tid)
    requires CanStep(s, Exec, s') && MeOk(s)
    ensures OwnFlag(s, s', t)
  {
    hide State.WellFormed, DepthOk, FlagOk, SemaDownLoop, Statement;
    if AtStatement(s.Me().pc) {
      StatementStep(s, s');
      var e := Statement(s.cur, s.Me(), s.locks[s.Me().pc.l]);
      StatementEffect(s.cur, s.Me(), s.locks[s.Me().pc.l], e.me, e.lk);
      hide CanStep;
    } else if s.Me().pc.SemaDown? {
      SemaDownOwnFlag(s, s.Me().pc.l, s.intr, s', t);
    } else if s.Me().pc.InSema? {
      assert s.(intr := false) == s;
      SemaDownOwnFlag(s, s.Me().pc.l, s.Me().pc.saved, s', t);
    }
  }

  lemma TimerOwnFlag(s: State, s': State, t: Tid)
    requires s.WellFormed() && s.cur in s.threads && Timer(s) == Ok(s') && s.Me().status.Running?
    ensures OwnFlag(s, s', t)
  {
    var me := s.Me();
    hide State.WellFormed, Schedule;
    if me.ticks == 0 {
      var left := me.(elapsed := (me.elapsed + 1) % WORD_SIZE, pc := Preempted(me.pc),
                      ticks := me.priority, status := Ready);
      TimerExpires(s, left, s');
      hide Timer, Handover;
      HandoverOwnFlag(s, left, s', t);
    }
  }

  lemma CallOwnFlag(s: State, c: Call, s': State, t: Tid)
    requires CanStep(s, Call(c), s') && !(t == s.cur && c.SetIntr?)
    ensures OwnFlag(s, s', t)
  {
    hide State.WellFormed, Schedule, Handover;
    QueueKnown(s);
    if c.YieldCall? {
      hide Yield;
      YieldHandsOver(s, s');
      HandoverOwnFlag(s, s.Me().(status := Ready, pc := InYield(s.intr)), s', t);
    } else if c.BlockCall? {
      hide Block;
      BlockHandsOver(s, c.stat, s');
      HandoverOwnFlag(s, s.Me().(status := c.stat, pc := InBlock(s.intr)), s', t);
    }
  }

  /** Only a thread's own intr_enable or intr_disable changes the flag it will be given back. */
  lemma OwnFlagKept(s: State, a: Action, s': State, t: Tid)
    requires CanStep(s, a, s') && MeOk(s)
    requires !(t == s.cur && a.Call? && a.c.SetIntr?)
    ensures OwnFlag(s, s', t)
  {
    hide OwnFlag, State.WellFormed, Timer, Resume, LockStep, DoCall;
    match a
    case Exec => ExecOwnFlag(s, s', t);
    case TimerInterrupt => TimerOwnFlag(s, s', t);
    case Call(c) => CallOwnFlag(s, c, s', t);
  }

  /** Whatever ran meanwhile, a thread that is out of schedule() again, in its own code or in lock_acquire, lock_release
      or thread_unblock, has the interrupt flag it had when it left: sema_down, sema_up, thread_block, thread_unblock,
      thread_yield and preemption all give it back. */
  lemma {:induction false} FlagGivenBack(trace: seq<State>, acts: seq<Action>, t: Tid)
    requires IsRun(trace, acts) && Reachable(trace[0])
    requires InOwnCode(trace[0], t) && InOwnCode(trace[|acts|], t)
    requires forall i :: 0 <= i < |acts| ==> !(trace[i].cur == t && acts[i].Call? && acts[i].c.SetIntr?)
    ensures trace[|acts|].intr == trace[0].intr
  {
    hide Reachable, CanStep, Inv;
    FlagRun(trace, acts, t);
    ClientFlag(trace[0], t);
    ClientFlag(trace[|acts|], t);
  }

  ghost predicate InOwnCode(s: State, t: Tid) { t in s.threads && s.cur == t && !s.threads[t].pc.Suspended() }

  lemma ClientFlag(s: State, t: Tid)
    requires Reachable(s) && InOwnCode(s, t)
    ensures s.intr == s.threads[t].intr
  {
    hide Reachable;
    ReachableInv(s);
  }

  lemma {:induction false} FlagRun(trace: seq<State>, acts: seq<Action>, t: Tid)
    requires IsRun(trace, acts) && Reachable(trace[0])
    requires t in trace[0].threads && !trace[0].threads[t].pc.Fresh?
    requires forall i :: 0 <= i < |acts| ==> !(trace[i].cur == t && acts[i].Call? && acts[i].c.SetIntr?)
    ensures Reachable(trace[|acts|]) && t in trace[|acts|].threads
    ensures trace[|acts|].threads[t].intr == trace[0].threads[t].intr
    decreases |acts|
  {
    hide Reachable, CanStep, Inv;
    if acts != [] {
      var s, s' := trace[0], trace[1];
      assert CanStep(s, acts[0], trace[0 + 1]);
      ReachableInv(s);
      InvMe(s);
      OwnFlagKept(s, acts[0], s', t);
      ReachableNext(s, acts[0], s');
      var acts', trace' := acts[1..], trace[1..];
      forall i | 0 <= i < |acts'|
        ensures CanStep(trace'[i], acts'[i], trace'[i + 1])
        ensures !(trace'[i].cur == t && acts'[i].Call? && acts'[i].c.SetIntr?)
      {
        assert acts[i + 1] == acts'[i];
      }
      FlagRun(trace', acts', t);
    }
  }

  /** A thread that schedule() has just switched in, whatever put it to sleep, starts with interrupts off. */
  lemma SwitchedInWithFlagOff(s: State)
    requires Reachable(s) && s.cur in s.threads && s.Me().pc.Suspended()
    ensures !s.intr
  {
    hide Reachable;
    ReachableInv(s);
  }

  // ------------------------------------------------------------------- clocks

  /** The ticks charged to the threads add up to the ticks of the machine, and nobody holds more than a full slice. */
  lemma TicksConserved(s: State)
    requires Reachable(s)
    ensures (forall i :: 0 <= i < |s.all| ==> s.all[i] in s.threads)
    ensures Elapsed(s.threads, s.all) % 0x1_0000_0000 == s.ticks
    ensures forall t :: t in s.threads ==> s.threads[t].ticks <= s.threads[t].priority < 256
  {
    hide Reachable;
    ReachableInv(s);
  }
}
