/** Every enabled step keeps the invariant, and only one ASSERT can ever stop the machine. */
module SchedulerSteps {
  import opened Basics
  import opened Scheduler
  import opened SchedulerInvariants

  /** What the invariant says about the running thread. */
  ghost predicate MeOk(s: State) {
    && s.cur in s.threads && s.cur !in s.ready
    && ThreadShape(s, s.cur) && s.Me().status == Running
    && (if s.Me().pc.Suspended() then !s.intr else s.intr == s.Me().intr)
    && FlagOk(s.Me()) && DepthOk(s.Me())
    && s.Me().ticks <= s.Me().priority
  }

  lemma InvMe(s: State)
    requires Inv(s)
    ensures MeOk(s)
  {
  }

  lemma InvQueues(s: State)
    requires Inv(s)
    ensures Queues(s)
  {
  }

  lemma QueuesMe(s: State)
    requires Queues(s)
    ensures s.cur in s.threads && s.Me().status.Running? && !s.Me().pc.At().Preempted?
  {
    assert ThreadShape(s, s.cur);
  }

  lemma LocalKept(s: State, me: Thread, s': State, tick: bool)
    requires Inv(s) && Local(s, me, s')
    requires !me.pc.Suspended() && FlagOk(me) && s'.intr == me.intr
    requires Names(s', s.cur, me.pc)
    requires me.ticks <= me.priority && me.depth.Keys <= s'.locks.Keys
    requires me.elapsed == if tick then (s.Me().elapsed + 1) % WORD_SIZE else s.Me().elapsed
    requires s'.ticks == if tick then (s.ticks + 1) % WORD_SIZE else s.ticks
    ensures Queues(s') && Flags(s') && Clocks(s')
  {
    hide Queues, Clocks, Locks;
    LocalQueues(s, me, s');
    ClocksKept(s, s', tick);
  }

  ghost predicate SameHold(a: Lock, b: Lock) { a.value == b.value && a.repeat == b.repeat && a.holder == b.holder }

  ghost predicate Quiet(pc: Pc) {
    pc.Client? || pc.OnUnblock() || pc.InBlock? || pc.InYield? || pc.Fresh?
  }

  /** As far into every lock as before. */
  ghost predicate SameDepth(a: Thread, b: Thread) {
    && b.depth == a.depth
    && (b.pc.At() == a.pc.At()
        || (Quiet(a.pc.At()) && Quiet(b.pc.At()))
        || (a.pc.SemaDown? && b.pc.InSema? && a.pc.l == b.pc.l))
  }

  ghost predicate StillWoken(s: State, s': State, t: Tid, l: Lid) { Woken(s, t, l) ==> Woken(s', t, l) }

  lemma DepthKept(a: Thread, b: Thread)
    requires DepthOk(a) && SameDepth(a, b)
    ensures DepthOk(b)
  {
  }

  /** A step after which every thread is as far into every lock as before, and only a queue of waiters may differ. */
  lemma LocksUnconcerned(s: State, s': State)
    requires Locks(s) && s'.threads.Keys == s.threads.Keys && s'.locks.Keys == s.locks.Keys
    requires s.stolen ==> s'.stolen
    requires forall l :: l in s.locks ==> SameHold(s.locks[l], s'.locks[l])
    requires forall t :: t in s.threads ==> SameDepth(s.threads[t], s'.threads[t])
    requires forall l :: l in s.locks && s.locks[l].value == 1 ==> s'.locks[l] == s.locks[l]
    requires forall l, t :: l in s.locks && s.locks[l].value == 1 ==> StillWoken(s, s', t, l)
    ensures Locks(s')
  {
    hide DepthOk, LockOk;
    forall t | t in s'.threads ensures DepthOk(s'.threads[t]) { DepthKept(s.threads[t], s'.threads[t]); }
    forall l | l in s'.locks ensures LockOk(s', l) {
      assert LockOk(s, l) && SameHold(s.locks[l], s'.locks[l]);
      forall t | t in s.threads
        ensures Inside(s'.threads[t], l) == Inside(s.threads[t], l)
        ensures Unnamed(s'.threads[t], l) == Unnamed(s.threads[t], l)
        ensures s'.threads[t].Depth(l) == s.threads[t].Depth(l)
      {
        assert SameDepth(s.threads[t], s'.threads[t]);
      }
      forall t | s.locks[l].value == 1 && Woken(s, t, l) ensures Woken(s', t, l) { assert StillWoken(s, s', t, l); }
      LockFrame(s, s', l);
    }
  }

  /** How the running thread's record may look when it leaves the processor. */
  ghost predicate LeavesWell(s: State, me: Thread) {
    && s.cur in s.threads
    && me.pc.Suspended() && FlagOk(me) && SameDepth(s.Me(), me)
    && !me.pc.At().Preempted? && (me.pc.Preempted? ==> !me.pc.at.Suspended())
    && (me.pc.InSema? ==> me.status.Blocked? && me.pc.l in s.locks && s.locks[me.pc.l].value == 0)
    && (s.Me().pc.InSema? ==> me.pc.InSema? && me.pc.l == s.Me().pc.l)
    && (Asleep(me.status) ==> me.pc.InBlock? || me.pc.InSema?)
    && Names(s, s.cur, me.pc.At())
    && me.ticks <= me.priority
  }

  lemma HandoverDepths(s: State, me: Thread, s': State)
    requires Handover(s, me, s') && LeavesWell(s, me)
    requires s'.cur == s.cur || s.threads[s'.cur].status.Ready?
    requires s.Me().status.Running?
    ensures forall t :: t in s.threads ==> SameDepth(s.threads[t], s'.threads[t])
    ensures forall l, t :: l in s.locks && s.locks[l].value == 1 ==> StillWoken(s, s', t, l)
  {
  }

  lemma HandoverLocks(s: State, me: Thread, s': State)
    requires Locks(s) && Queues(s) && Handover(s, me, s') && LeavesWell(s, me)
    ensures Locks(s')
  {
    hide Locks, LeavesWell, ThreadShape, WaitersOk;
    assert s'.cur in Requeued(s, me);
    HandoverDepths(s, me, s');
    hide Queues;
    assert me.pc.InSema? ==> me.pc.l in s.locks && s.locks[me.pc.l].value == 0 by { LeaveValue(s, me); }
    LocksUnconcerned(s, s');
  }

  lemma LeaveValue(s: State, me: Thread)
    requires LeavesWell(s, me)
    ensures me.pc.InSema? ==> me.pc.l in s.locks && s.locks[me.pc.l].value == 0
  {
  }

  lemma HandoverKept(s: State, me: Thread, s': State, tick: bool)
    requires Inv(s) && Handover(s, me, s') && LeavesWell(s, me)
    requires me.elapsed == if tick then (s.Me().elapsed + 1) % WORD_SIZE else s.Me().elapsed
    requires s'.ticks == if tick then (s.ticks + 1) % WORD_SIZE else s.ticks
    ensures Inv(s')
  {
    hide Queues, Flags, Locks, Clocks;
    HandoverQueues(s, me, s');
    HandoverFlags(s, me, s');
    ClocksKept(s, s', tick);
    HandoverLocks(s, me, s');
  }

  /** schedule() for a thread whose time slice is used up. */
  lemma ScheduleRequeues(s: State, left: Thread, s': State)
    requires s.WellFormed() && s.Me().status.Running? && Schedule(s) == Ok(s')
    requires left == s.Me().(ticks := s.Me().priority, status := Ready)
    ensures var q, threads := s.ready + [s.cur], s.threads[s.cur := left];
            && q[0] in s.threads && !s.intr
            && s' == s.(cur := q[0], ready := q[1..], threads := threads[q[0] := threads[q[0]].(status := Running)])
  {
  }

  lemma TimerExpires(s: State, left: Thread, s': State)
    requires s.WellFormed() && s.Me().ticks == 0 && s.Me().status.Running? && Timer(s) == Ok(s')
    requires left == s.Me().(elapsed := (s.Me().elapsed + 1) % WORD_SIZE, pc := Preempted(s.Me().pc),
                             ticks := s.Me().priority, status := Ready)
    ensures Handover(s, left, s') && s'.ticks == (s.ticks + 1) % WORD_SIZE
  {
    hide Schedule, Handover;
    var me := s.Me().(elapsed := (s.Me().elapsed + 1) % WORD_SIZE, pc := Preempted(s.Me().pc));
    var s1 := s.(ticks := (s.ticks + 1) % WORD_SIZE).SetMe(me).(intr := false);
    StillWellFormed(s, me, s1);
    hide State.WellFormed;
    assert Timer(s) == Schedule(s1);
    hide Timer;
    ScheduleRequeues(s1, left, s');
    assert s1.threads[s.cur := left] == s.threads[s.cur := left];
    LeftHandsOver(s, left, s');
  }

  /** The running thread's record and the lists are those of a hand-over. */
  lemma LeftHandsOver(s: State, left: Thread, s': State)
    requires s.cur in s.threads && (left.status.Ready? || Asleep(left.status)) && left.priority == s.Me().priority
    requires var q, threads := Requeued(s, left), s.threads[s.cur := left];
             && q != [] && q[0] in s.threads && s'.cur == q[0] && s'.ready == q[1..] && s'.all == s.all && !s'.intr
             && s'.threads == threads[q[0] := threads[q[0]].(status := Running)] && s'.stolen == s.stolen
    requires s'.locks == if left.pc.InSema? && left.pc.l in s.locks then s.locks[left.pc.l := Enqueued(s, left.pc.l)]
                         else s.locks
    ensures Handover(s, left, s')
  {
  }

  /** schedule() for a thread that is not running any more. */
  lemma ScheduleLeaves(s: State, s': State)
    requires s.WellFormed() && !s.Me().status.Running? && Schedule(s) == Ok(s')
    ensures s.ready != [] && s.ready[0] in s.threads && !s.intr
    ensures s' == s.(cur := s.ready[0], ready := s.ready[1..],
                     threads := s.threads[s.ready[0] := s.threads[s.ready[0]].(status := Running)])
  {
  }

  lemma TimerKept(s: State, s': State)
    requires Inv(s) && s.WellFormed() && s.intr && Timer(s) == Ok(s')
    ensures Inv(s')
  {
    hide Queues, Flags, Locks, Clocks, Schedule, State.WellFormed;
    InvMe(s);
    var me := s.Me();
    var counted := me.(elapsed := (me.elapsed + 1) % WORD_SIZE);
    if me.ticks == 0 {
      var left := counted.(pc := Preempted(me.pc), ticks := me.priority, status := Ready);
      TimerExpires(s, left, s');
      hide Handover, Timer;
      HandoverKept(s, left, s', true);
    } else {
      var me' := counted.(ticks := me.ticks - 1);
      assert Local(s, me', s');
      LocalKept(s, me', s', true);
      LocksUnconcerned(s, s');
    }
  }

  lemma YieldHandsOver(s: State, s': State)
    requires s.WellFormed() && Yield(s) == Ok(s')
    ensures Handover(s, s.Me().(status := Ready, pc := InYield(s.intr)), s') && s'.ticks == s.ticks
  {
    var left := s.Me().(status := Ready, pc := InYield(s.intr));
    var s1 := s.SetMe(left).(ready := s.ready + [s.cur], intr := false);
    StillWellFormed(s, left, s1);
    hide State.WellFormed, Schedule, Handover;
    assert s1.cur in s1.threads && Yield(s) == Schedule(s1);
    hide Yield;
    ScheduleLeaves(s1, s');
    QueueKnown(s);
    LeftHandsOver(s, left, s');
  }

  lemma QueueKnown(s: State)
    requires s.WellFormed()
    ensures s.cur in s.threads && ((s.ready + [s.cur])[0] in s.threads) && (s.ready != [] ==> s.ready[0] in s.threads)
  {
  }

  lemma YieldKept(s: State, s': State)
    requires Inv(s) && s.WellFormed() && s.Me().pc.Client? && Yield(s) == Ok(s')
    ensures Inv(s')
  {
    hide Queues, Flags, Locks, Clocks, Yield, Handover, State.WellFormed;
    InvMe(s);
    YieldHandsOver(s, s');
    HandoverKept(s, s.Me().(status := Ready, pc := InYield(s.intr)), s', false);
  }

  lemma BlockHandsOver(s: State, stat: Status, s': State)
    requires s.WellFormed() && Block(s, stat, InBlock(s.intr)) == Ok(s')
    ensures Asleep(stat) && Handover(s, s.Me().(status := stat, pc := InBlock(s.intr)), s') && s'.ticks == s.ticks
  {
    var left := s.Me().(status := stat, pc := InBlock(s.intr));
    var s1 := s.SetMe(left).(intr := false);
    StillWellFormed(s, left, s1);
    QueueKnown(s);
    hide State.WellFormed, Schedule, Handover;
    assert Asleep(stat) && Block(s, stat, InBlock(s.intr)) == Schedule(s1);
    hide Block;
    ScheduleLeaves(s1, s');
    LeftHandsOver(s, left, s');
  }

  lemma BlockKept(s: State, stat: Status, s': State)
    requires Inv(s) && s.WellFormed() && s.Me().pc.Client? && Block(s, stat, InBlock(s.intr)) == Ok(s')
    ensures Inv(s')
  {
    hide Queues, Flags, Locks, Clocks, Block, Handover, State.WellFormed;
    InvMe(s);
    BlockHandsOver(s, stat, s');
    HandoverKept(s, s.Me().(status := stat, pc := InBlock(s.intr)), s', false);
  }

  // ------------------------------------------------------------------- locks

  /** The unprotected read of `holder` in lock_acquire and lock_release is sound: it names t exactly when t is
      inside and its own code has set `holder` and not cleared it. */
  lemma HolderSound(s: State, t: Tid, l: Lid)
    requires t in s.threads && l in s.locks && LockOk(s, l)
    ensures s.locks[l].holder == Some(t) <==> Inside(s.threads[t], l) && !Unnamed(s.threads[t], l)
    ensures Inside(s.threads[t], l) ==> s.locks[l].value == 0 && IsOwner(s, t, l)
  {
    if s.locks[l].value == 0 {
      var o: Tid :| IsOwner(s, o, l);
    }
  }

  /** A local step that concerns lock l only. */
  lemma OneLock(s: State, me: Thread, s': State, l: Lid)
    requires Locks(s) && Local(s, me, s') && l in s.locks && DepthOk(me)
    requires s'.locks == s.locks[l := s'.locks[l]] && LockOk(s', l)
    requires forall k :: k != l ==> me.Depth(k) == s.Me().Depth(k)
    requires s.Me().pc.At().OnLock() ==> s.Me().pc.At().l == l
    requires me.pc.At().OnLock() ==> me.pc.At().l == l
    ensures Locks(s')
  {
    hide LockOk, DepthOk;
    forall t | t in s'.threads ensures DepthOk(s'.threads[t]) { assert t != s.cur ==> DepthOk(s.threads[t]); }
    forall k | k in s'.locks ensures LockOk(s', k) {
      if k != l {
        assert LockOk(s, k);
        OtherLock(s, me, s', k);
      }
    }
  }

  lemma OtherLock(s: State, me: Thread, s': State, k: Lid)
    requires Local(s, me, s') && k in s.locks && LockOk(s, k)
    requires s'.locks[k] == s.locks[k] && me.Depth(k) == s.Me().Depth(k)
    requires s.Me().pc.At().OnLock() ==> s.Me().pc.At().l != k
    requires me.pc.At().OnLock() ==> me.pc.At().l != k
    ensures LockOk(s', k)
  {
    hide LockOk;
    forall t ensures Woken(s, t, k) ==> Woken(s', t, k) {}
    LockFrame(s, s', k);
  }

  /** The owner of l moves on inside it. */
  lemma OwnerMoves(s: State, me: Thread, s': State, l: Lid)
    requires l in s.locks && LockOk(s, l) && Local(s, me, s')
    requires Inside(s.Me(), l) && Inside(me, l)
    requires s'.locks[l].value == s.locks[l].value && s'.locks[l].repeat == me.Depth(l)
    requires s'.locks[l].holder == if Unnamed(me, l) then None else Some(s.cur)
    ensures LockOk(s', l)
  {
    HolderSound(s, s.cur, l);
    assert IsOwner(s', s.cur, l);
  }

  /** A thread outside l stays outside; the lock does not change. */
  lemma OutsiderMoves(s: State, me: Thread, s': State, l: Lid)
    requires l in s.locks && LockOk(s, l) && Local(s, me, s')
    requires !Inside(s.Me(), l) && !Inside(me, l)
    requires s'.locks[l] == s.locks[l]
    requires s.Me().pc.InSema? ==> s.locks[l].value == 0 || me.pc == s.Me().pc
    ensures LockOk(s', l)
  {
    if s.locks[l].value == 0 {
      var o: Tid :| IsOwner(s, o, l);
      assert IsOwner(s', o, l);
    } else if !s.stolen && s.locks[l].waiters != [] {
      var t :| Woken(s, t, l);
      assert Woken(s', t, l);
    }
  }

  /** The part of LockOk that the running thread can see of lock l. */
  ghost predicate View(cur: Tid, me: Thread, lk: Lock, l: Lid) {
    && (Inside(me, l) ==>
          lk.value == 0 && lk.repeat == me.Depth(l) && lk.holder == if Unnamed(me, l) then None else Some(cur))
    && (!Inside(me, l) ==> lk.holder != Some(cur))
  }

  lemma StatementEffect(cur: Tid, me: Thread, lk: Lock, me': Thread, lk': Lock)
    requires AtStatement(me.pc) && Statement(cur, me, lk) == Done(me', lk')
    ensures lk'.value == lk.value && SameWaiters(lk, lk')
    ensures me' == me.(pc := me'.pc, depth := me'.depth)
    ensures me'.depth.Keys <= me.depth.Keys + {me.pc.l}
    ensures forall k :: k != me.pc.l ==> me'.Depth(k) == me.Depth(k)
    ensures !me'.pc.Suspended() && !me'.pc.OnUnblock() && (me'.pc.OnLock() ==> me'.pc.l == me.pc.l)
  {
  }

  lemma StatementView(cur: Tid, me: Thread, lk: Lock, me': Thread, lk': Lock)
    requires AtStatement(me.pc) && Statement(cur, me, lk) == Done(me', lk')
    requires DepthOk(me) && View(cur, me, lk, me.pc.l)
    ensures DepthOk(me') && View(cur, me', lk', me.pc.l)
    ensures Inside(me, me.pc.l) <==> Inside(me', me.pc.l)
    ensures !Inside(me, me.pc.l) ==> lk' == lk
  {
  }

  lemma StatementStep(s: State, s': State)
    requires CanStep(s, Exec, s') && AtStatement(s.Me().pc)
    ensures s.Me().pc.l in s.locks
    ensures var e := Statement(s.cur, s.Me(), s.locks[s.Me().pc.l]);
            e.Done? && s' == s.SetMe(e.me).SetLock(s.Me().pc.l, e.lk)
  {
  }

  lemma StatementKept(s: State, s': State)
    requires Inv(s) && s.cur in s.threads && CanStep(s, Exec, s') && AtStatement(s.Me().pc)
    ensures Inv(s')
  {
    hide Queues, Flags, Locks, Clocks, CanStep, LockOk, DepthOk, Statement;
    InvMe(s);
    StatementStep(s, s');
    var l, me := s.Me().pc.l, s'.Me();
    StatementEffect(s.cur, s.Me(), s.locks[l], me, s'.locks[l]);
    assert Local(s, me, s');
    assert LockOk(s, l) by { InvLock(s, l); }
    HolderSound(s, s.cur, l);
    StatementView(s.cur, s.Me(), s.locks[l], me, s'.locks[l]);
    if Inside(s.Me(), l) {
      OwnerMoves(s, me, s', l);
    } else {
      OutsiderMoves(s, me, s', l);
    }
    LocalKept(s, me, s', false);
    OneLock(s, me, s', l);
  }

  lemma WellFormedMe(s: State)
    requires s.WellFormed()
    ensures s.Me().pc.At().OnLock() ==> s.Me().pc.At().l in s.locks
  {
  }

  lemma InvLock(s: State, l: Lid)
    requires Inv(s) && l in s.locks
    ensures LockOk(s, l)
  {
  }

  // --------------------------------------------------------------- semaphores

  lemma SemaDownTakes(s: State, l: Lid, saved: bool, s': State)
    requires s.WellFormed() && l in s.locks && s.locks[l].value == 1 && SemaDownLoop(s, l, saved) == Ok(s')
    ensures s' == s.SetLock(l, s.locks[l].(value := 0)).SetPc(AcquireHolder(l)).(intr := saved)
  {
  }

  /** The running thread's record and one lock, but not its waiters, are written. */
  lemma LockSetIsLocal(s: State, me: Thread, l: Lid, s': State)
    requires s.cur in s.threads && l in s.locks && l in s'.locks
    requires s' == s.SetMe(me).SetLock(l, s'.locks[l]).(intr := s'.intr)
    requires me.status == s.Me().status && me.priority == s.Me().priority && SameWaiters(s.locks[l], s'.locks[l])
    ensures Local(s, me, s')
  {
  }

  lemma TakeKept(s: State, l: Lid, saved: bool, s': State)
    requires Inv(s) && s.cur in s.threads && l in s.locks && s.locks[l].value == 1
    requires s.Me().pc == SemaDown(l) || s.Me().pc == InSema(l, saved)
    requires saved == s.Me().intr
    requires s' == s.SetLock(l, s.locks[l].(value := 0)).SetPc(AcquireHolder(l)).(intr := saved)
    ensures Inv(s')
  {
    hide Queues, Flags, Locks, Clocks, LockOk, Local;
    InvMe(s);
    InvLock(s, l);
    var me := s.Me().(pc := AcquireHolder(l));
    LockSetIsLocal(s, me, l, s');
    assert DepthOk(me) && me.depth.Keys <= s'.locks.Keys;
    TakeLock(s, l, s');
    LocalKept(s, me, s', false);
    hide DepthOk;
    OneLock(s, me, s', l);
  }

  lemma TakeLock(s: State, l: Lid, s': State)
    requires l in s.locks && LockOk(s, l) && s.cur in s.threads && s.locks[l].value == 1 && s.Me().Depth(l) == 0
    requires s'.threads == s.threads[s.cur := s.Me().(pc := AcquireHolder(l))] && s'.cur == s.cur
    requires s'.locks == s.locks[l := s.locks[l].(value := 0)]
    ensures LockOk(s', l)
  {
    assert IsOwner(s', s.cur, l);
  }

  lemma SleepHandsOver(s: State, l: Lid, saved: bool, s': State)
    requires s.WellFormed() && l in s.locks && s.locks[l].value == 0
    requires SemaDownLoop(s.(intr := false), l, saved) == Ok(s')
    ensures Handover(s, s.Me().(status := Blocked, pc := InSema(l, saved)), s') && s'.ticks == s.ticks
  {
    var left := s.Me().(status := Blocked, pc := InSema(l, saved));
    var s1 := s.SetMe(left).(intr := false).SetLock(l, Enqueued(s, l));
    StillWellFormed(s, left, s1);
    StillWellFormed(s, s.Me(), s.(intr := false).SetLock(l, Enqueued(s, l)));
    QueueKnown(s);
    hide State.WellFormed, Schedule, Handover;
    assert SemaDownLoop(s.(intr := false), l, saved) == Schedule(s1);
    hide SemaDownLoop;
    ScheduleLeaves(s1, s');
    LeftHandsOver(s, left, s');
  }

  lemma SleepKept(s: State, l: Lid, saved: bool, s': State)
    requires s.WellFormed() && l in s.locks && s.locks[l].value == 0
    requires s.Me().pc == SemaDown(l) || s.Me().pc == InSema(l, saved)
    requires saved == s.Me().intr && SemaDownLoop(s.(intr := false), l, saved) == Ok(s')
    requires Inv(s)
    ensures Inv(s')
  {
    hide Queues, Flags, Locks, Clocks, SemaDownLoop, Handover, State.WellFormed;
    InvMe(s);
    SleepHandsOver(s, l, saved, s');
    HandoverKept(s, s.Me().(status := Blocked, pc := InSema(l, saved)), s', false);
  }

  lemma SemaDownKept(s: State, s': State)
    requires Inv(s) && CanStep(s, Exec, s') && (s.Me().pc.SemaDown? || s.Me().pc.InSema?)
    ensures Inv(s')
  {
    hide Queues, Flags, Locks, Clocks, SemaDownLoop;
    InvMe(s);
    var l := s.Me().pc.l;
    var saved := if s.Me().pc.SemaDown? then s.intr else s.Me().pc.saved;
    InvLock(s, l);
    assert SemaDownLoop(s.(intr := false), l, saved) == Ok(s') by {
      assert s.Me().pc.InSema? ==> s.(intr := false) == s;
    }
    if s.locks[l].value == 0 {
      SleepKept(s, l, saved, s');
    } else {
      SemaDownTakes(s.(intr := false), l, saved, s');
      TakeKept(s, l, saved, s');
    }
  }

  /** thread_unblock(w): w goes from asleep to the front of the ready list; the running thread goes on as `me`. */
  ghost predicate Wake(s: State, me: Thread, w: Tid, s': State) {
    && s.cur in s.threads && w in s.threads && w != s.cur && Asleep(s.threads[w].status)
    && me.status == s.Me().status && me.priority == s.Me().priority
    && s'.cur == s.cur && s'.all == s.all && s'.ready == [w] + s.ready && s'.intr == s.intr && s'.ticks == s.ticks
    && s'.threads.Keys == s.threads.Keys && s'.locks.Keys == s.locks.Keys && (s.stolen ==> s'.stolen)
    && (forall t :: t in s.threads ==> s'.threads[t] == WakeOf(s, me, w, t))
    && (forall l :: l in s.locks ==>
          Dequeued(s.locks[l], w, s'.locks[l]) || SameWaiters(s.locks[l], s'.locks[l]))
    && (!s'.stolen ==> forall l :: l in s.locks ==>
          if s.threads[w].pc.InSema? && s.threads[w].pc.l == l
          then Dequeued(s.locks[l], w, s'.locks[l]) else SameWaiters(s.locks[l], s'.locks[l]))
  }

  ghost function WakeOf(s: State, me: Thread, w: Tid, t: Tid): Thread
    requires t in s.threads
  {
    if t == s.cur then me else if t == w then s.threads[t].(status := Ready) else s.threads[t]
  }

  ghost predicate Dequeued(a: Lock, w: Tid, b: Lock) {
    && a.waiters != [] && a.waiters[0] == w && b.waiters == a.waiters[1..]
    && b.arrived == a.arrived && b.served == a.served + [w]
  }

  lemma WakeWaiters(s: State, me: Thread, w: Tid, s': State, l: Lid)
    requires Wake(s, me, w, s') && l in s.locks && WaitersOk(s, l) && s.Me().status.Running?
    ensures WaitersOk(s', l)
  {
    var q := s.locks[l].waiters;
    assert q == [] || q == [q[0]] + q[1..];
    if s'.stolen {
    } else if s.threads[w].pc.InSema? && s.threads[w].pc.l == l {
      assert q == [w] + q[1..];
      forall t ensures t in s'.locks[l].waiters <==> AsleepOn(s', t, l) {
        PopHead(q, t);
        assert t in q <==> AsleepOn(s, t, l);
      }
    } else {
      forall t ensures t in s'.locks[l].waiters <==> AsleepOn(s', t, l) {
        assert t in q <==> AsleepOn(s, t, l);
      }
    }
  }

  lemma WakeShape(s: State, me: Thread, w: Tid, s': State)
    requires Wake(s, me, w, s') && s.Me().status.Running?
    requires !me.pc.Suspended() && Names(s, s.cur, me.pc) && me.depth == s.Me().depth
    requires forall t :: t in s.threads ==> ThreadShape(s, t)
    ensures forall t :: t in s'.threads ==> ThreadShape(s', t)
  {
    forall t | t in s'.threads ensures ThreadShape(s', t) { assert ThreadShape(s, t); }
  }

  lemma WakeQueues(s: State, me: Thread, w: Tid, s': State)
    requires Queues(s) && Wake(s, me, w, s')
    requires !me.pc.Suspended() && Names(s, s.cur, me.pc) && me.depth == s.Me().depth
    ensures Queues(s')
  {
    hide WaitersOk, ThreadShape;
    assert w !in s.ready;
    forall t ensures t in s'.ready <==> t == w || t in s.ready {}
    WakeShape(s, me, w, s');
    forall l | l in s'.locks ensures WaitersOk(s', l) {
      assert WaitersOk(s, l);
      WakeWaiters(s, me, w, s', l);
    }
  }

  /** thread_unblock moves on without waking anybody. */
  lemma QuietMoveKept(s: State, pc: Pc, s': State)
    requires Inv(s) && s.cur in s.threads && s' == s.SetPc(pc)
    requires (s.Me().pc.Client? || s.Me().pc.OnUnblock()) && (pc.Client? || pc.OnUnblock())
    requires Names(s, s.cur, pc)
    ensures Inv(s')
  {
    hide Queues, Flags, Locks, Clocks;
    InvMe(s);
    assert Local(s, s'.Me(), s');
    LocalKept(s, s'.Me(), s', false);
    LocksUnconcerned(s, s');
  }

  /** Behind its ASSERT, thread_unblock wakes a thread that still sleeps. */
  lemma PushIsWake(s: State, s': State)
    requires CanStep(s, Exec, s') && s.Me().pc.UnblockPush? && Asleep(s.threads[s.Me().pc.w].status)
    requires s.Me().pc.w != s.cur
    ensures Wake(s, s.Me().(pc := Client), s.Me().pc.w, s') && s'.locks == s.locks
    ensures s'.stolen == (s.stolen || s.threads[s.Me().pc.w].pc.InSema?)
  {
  }

  lemma PushKept(s: State, s': State)
    requires Inv(s) && s.cur in s.threads && CanStep(s, Exec, s') && s.Me().pc.UnblockPush?
    requires s.Me().pc.w in s.threads && Asleep(s.threads[s.Me().pc.w].status)
    ensures Inv(s')
  {
    hide Queues, Flags, Locks, Clocks, CanStep;
    InvMe(s);
    var me, w := s.Me().(pc := Client), s.Me().pc.w;
    PushIsWake(s, s');
    WakeQueues(s, me, w, s');
    ClocksKept(s, s', false);
    WakeFlags(s, me, w, s');
    WakeDepths(s, me, w, s');
    hide Wake;
    LocksUnconcerned(s, s');
  }

  /** The two statements of thread_unblock: its ASSERT, and its section with interrupts off. */
  lemma UnblockSteps(s: State, s': State)
    requires CanStep(s, Exec, s') && s.Me().pc.OnUnblock()
    ensures s.Me().pc.w in s.threads
    ensures s.Me().pc.UnblockTest? ==> Asleep(s.threads[s.Me().pc.w].status) && s' == s.SetPc(UnblockPush(s.Me().pc.w))
    ensures s.Me().pc.UnblockPush? && s.threads[s.Me().pc.w].status == Ready ==> s' == s.SetPc(Client)
  {
  }

  lemma UnblockKept(s: State, s': State)
    requires Inv(s) && s.cur in s.threads && CanStep(s, Exec, s') && s.Me().pc.OnUnblock()
    ensures Inv(s')
  {
    hide Inv, CanStep, State.WellFormed, PushReady;
    UnblockSteps(s, s');
    var w := s.Me().pc.w;
    NotRunning(s, w);
    if s.Me().pc.UnblockTest? {
      QuietMoveKept(s, UnblockPush(w), s');
    } else if Asleep(s.threads[w].status) {
      PushKept(s, s');
    } else {
      QuietMoveKept(s, Client, s');
    }
  }

  /** Whoever is being unblocked behind the ASSERT sleeps or is ready. */
  lemma NotRunning(s: State, w: Tid)
    requires Inv(s) && w in s.threads
    ensures s.threads[w].status == Running <==> w == s.cur
    ensures s.threads[w].status in {Running, Ready} || Asleep(s.threads[w].status)
    ensures s.Me().pc.UnblockPush? && s.Me().pc.w == w ==> w != s.cur
  {
    assert ThreadShape(s, w) && ThreadShape(s, s.cur);
  }

  lemma WakeDepths(s: State, me: Thread, w: Tid, s': State)
    requires Wake(s, me, w, s') && !s.Me().pc.Suspended()
    ensures forall t :: t in s.threads && t != s.cur ==> SameDepth(s.threads[t], s'.threads[t])
    ensures SameDepth(s.Me(), me) ==> SameDepth(s.Me(), s'.Me())
    ensures forall k, t :: StillWoken(s, s', t, k)
  {
  }

  lemma WakeFlags(s: State, me: Thread, w: Tid, s': State)
    requires Flags(s) && Wake(s, me, w, s') && !me.pc.Suspended() && FlagOk(me)
    requires me.intr == s.intr
    ensures Flags(s')
  {
  }

  lemma SemaUpIsWake(s: State, l: Lid, s': State)
    requires s.WellFormed() && l in s.locks && s.Me().pc == SemaUp(l) && s.locks[l].waiters != []
    requires s.Me().status.Running? && (!s.stolen ==> AsleepOn(s, s.locks[l].waiters[0], l))
    requires SemaUpBody(s, l) == Ok(s')
    ensures s'.stolen == s.stolen && Wake(s, s.Me().(pc := Client), s.locks[l].waiters[0], s')
  {
    var w := s.locks[l].waiters[0];
    assert s'.threads == s.threads[w := s.threads[w].(status := Ready)][s.cur := s.Me().(pc := Client)];
    forall t | t in s.threads ensures s'.threads[t] == WakeOf(s, s.Me().(pc := Client), w, t) {}
  }

  lemma SemaUpLock(s: State, l: Lid, s': State)
    requires s.cur in s.threads && l in s.locks && LockOk(s, l) && DepthOk(s.Me()) && s.Me().pc == SemaUp(l)
    requires s'.cur == s.cur && s'.threads.Keys == s.threads.Keys && l in s'.locks
    requires forall t :: t in s.threads && t != s.cur ==> SameDepth(s.threads[t], s'.threads[t])
    requires s'.Me().depth == s.Me().depth && s'.Me().pc == Client
    requires s'.locks[l].value == 1 && s'.locks[l].holder == s.locks[l].holder
    requires s'.locks[l].repeat == s.locks[l].repeat
    requires !s'.stolen && s'.locks[l].waiters != [] ==> exists t :: Woken(s', t, l)
    ensures LockOk(s', l)
  {
    HolderSound(s, s.cur, l);
    forall t | t in s'.threads ensures !Inside(s'.threads[t], l) {
      if t != s.cur { assert !Inside(s.threads[t], l) && SameDepth(s.threads[t], s'.threads[t]); }
    }
  }

  lemma SemaUpOthers(s: State, l: Lid, s': State)
    requires Locks(s) && s.cur in s.threads && s'.cur == s.cur && l in s.locks && s.Me().pc == SemaUp(l)
    requires s'.threads.Keys == s.threads.Keys && s'.locks.Keys == s.locks.Keys && (s.stolen ==> s'.stolen)
    requires forall k :: k in s.locks && k != l ==> SameHold(s.locks[k], s'.locks[k])
    requires forall k :: k in s.locks && k != l ==> s'.locks[k].waiters == s.locks[k].waiters
    requires LockOk(s', l)
    requires forall t :: t in s.threads && t != s.cur ==> SameDepth(s.threads[t], s'.threads[t])
    requires s'.Me().depth == s.Me().depth && s'.Me().pc == Client
    requires forall k, t :: k != l ==> StillWoken(s, s', t, k)
    ensures Locks(s')
  {
    hide LockOk, DepthOk;
    forall t | t in s'.threads ensures DepthOk(s'.threads[t]) {
      if t == s.cur { assert DepthOk(s'.Me()) by { ClientDepth(s.Me(), s'.Me()); } }
      else { DepthKept(s.threads[t], s'.threads[t]); }
    }
    forall k | k in s'.locks ensures LockOk(s', k) {
      if k != l { SemaUpOther(s, l, s', k); }
    }
  }

  lemma SemaUpOther(s: State, l: Lid, s': State, k: Lid)
    requires k in s.locks && LockOk(s, k) && k != l && k in s'.locks && SameHold(s.locks[k], s'.locks[k])
    requires s.cur in s.threads && s'.cur == s.cur && s.Me().pc == SemaUp(l)
    requires s'.threads.Keys == s.threads.Keys && (s.stolen ==> s'.stolen)
    requires s'.locks[k].waiters == s.locks[k].waiters
    requires forall t :: t in s.threads && t != s.cur ==> SameDepth(s.threads[t], s'.threads[t])
    requires s'.Me().depth == s.Me().depth && s'.Me().pc == Client
    requires forall t :: StillWoken(s, s', t, k)
    ensures LockOk(s', k)
  {
    hide LockOk;
    forall t | t in s.threads && t != s.cur
      ensures Inside(s'.threads[t], k) == Inside(s.threads[t], k)
      ensures Unnamed(s'.threads[t], k) == Unnamed(s.threads[t], k)
    {
      assert SameDepth(s.threads[t], s'.threads[t]);
    }
    forall t ensures Woken(s, t, k) ==> Woken(s', t, k) { assert StillWoken(s, s', t, k); }
    LockFrame(s, s', k);
  }

  lemma ClientDepth(a: Thread, b: Thread)
    requires DepthOk(a) && b.depth == a.depth && b.pc == Client
    ensures DepthOk(b)
  {
  }

  lemma SemaUpAlone(s: State, l: Lid, s': State)
    requires s.WellFormed() && l in s.locks && s.locks[l].waiters == [] && SemaUpBody(s, l) == Ok(s')
    ensures s' == s.SetLock(l, s.locks[l].(value := 1)).SetPc(Client)
  {
  }

  lemma SemaUpAloneKept(s: State, l: Lid, s': State)
    requires Inv(s) && s.cur in s.threads && l in s.locks && s.Me().pc == SemaUp(l) && s.locks[l].waiters == []
    requires s' == s.SetLock(l, s.locks[l].(value := 1)).SetPc(Client)
    ensures Inv(s')
  {
    hide Queues, Flags, Locks, Clocks, LockOk, DepthOk;
    InvMe(s);
    InvLock(s, l);
    assert Local(s, s'.Me(), s');
    SemaUpLock(s, l, s');
    LocalKept(s, s'.Me(), s', false);
    SemaUpOthers(s, l, s');
  }

  lemma SemaUpWakesKept(s: State, l: Lid, s': State)
    requires Inv(s) && s.WellFormed() && l in s.locks && s.Me().pc == SemaUp(l) && s.locks[l].waiters != []
    requires SemaUpBody(s, l) == Ok(s')
    ensures Inv(s')
  {
    hide State.WellFormed, Queues, Flags, Locks, Clocks, LockOk, DepthOk, ThreadShape, SemaUpBody;
    InvMe(s);
    InvLock(s, l);
    SemaUpWakeLocks(s, l, s');
    var me, w := s.Me().(pc := Client), s.locks[l].waiters[0];
    if !s.stolen { FirstWaiter(s, l); }
    SemaUpIsWake(s, l, s');
    WakeQueues(s, me, w, s');
    ClocksKept(s, s', false);
    WakeFlags(s, me, w, s');
    WakeDepths(s, me, w, s');
    assert !s.stolen ==> Woken(s', w, l);
    hide Wake;
    SemaUpLock(s, l, s');
    SemaUpOthers(s, l, s');
  }

  lemma SemaUpWakeLocks(s: State, l: Lid, s': State)
    requires s.WellFormed() && l in s.locks && s.locks[l].waiters != [] && SemaUpBody(s, l) == Ok(s')
    ensures s'.locks.Keys == s.locks.Keys && (forall k :: k in s.locks && k != l ==> s'.locks[k] == s.locks[k])
    ensures s'.locks[l] == s.locks[l].(waiters := s.locks[l].waiters[1..], value := 1,
                                       served := s.locks[l].served + [s.locks[l].waiters[0]])
  {
  }

  lemma SemaUpKept(s: State, s': State)
    requires Inv(s) && CanStep(s, Exec, s') && s.Me().pc.SemaUp?
    ensures Inv(s')
  {
    hide Inv, SemaUpBody;
    var l := s.Me().pc.l;
    if s.locks[l].waiters == [] {
      SemaUpAlone(s, l, s');
      SemaUpAloneKept(s, l, s');
    } else {
      SemaUpWakesKept(s, l, s');
    }
  }

  lemma FirstWaiter(s: State, l: Lid)
    requires Queues(s) && !s.stolen && l in s.locks && s.locks[l].waiters != []
    ensures AsleepOn(s, s.locks[l].waiters[0], l)
  {
    assert s.locks[l].waiters[0] in s.locks[l].waiters && WaitersOk(s, l);
  }

  // ------------------------------------------------------------ remaining steps

  /** Back from the timer, thread_block, thread_yield or the first switch: only the flag and the pc change. */
  lemma ResumeIs(s: State, s': State)
    requires s.cur in s.threads && s.WellFormed() && s.Me().pc.Suspended() && !s.Me().pc.InSema? && Resume(s) == Ok(s')
    ensures s'.threads.Keys == s.threads.Keys && s' == s.SetMe(s'.threads[s.cur]).(intr := s'.intr)
    ensures var me, me' := s.Me(), s'.threads[s.cur];
      && me' == me.(pc := me'.pc, intr := me'.intr)
      && (if me.pc.Preempted? then me'.pc == me.pc.at else Quiet(me.pc) && me'.pc.Client?)
      && (if me.pc.Preempted? || me.pc.Fresh? then s'.intr else s'.intr == me.pc.saved)
      && me'.intr == if me.pc.Fresh? then true else me.intr
  {
    hide State.WellFormed, SemaDownLoop;
  }

  lemma ResumeStep(s: State, s': State)
    requires CanStep(s, Exec, s') && s.Me().pc.Suspended()
    ensures s.WellFormed() && Resume(s) == Ok(s')
  {
    hide State.WellFormed, LockStep, Resume;
  }

  lemma ResumeKept(s: State, s': State)
    requires Inv(s) && s.cur in s.threads && CanStep(s, Exec, s') && s.Me().pc.Suspended() && !s.Me().pc.InSema?
    ensures Inv(s')
  {
    hide Queues, Flags, Locks, Clocks, CanStep, Local, State.WellFormed, Resume;
    InvMe(s);
    ResumeStep(s, s');
    ResumeIs(s, s');
    var me := s'.Me();
    SetMeIsLocal(s, me, s');
    LocalKept(s, me, s', false);
    ResumeDepths(s, me, s');
    LocksUnconcerned(s, s');
  }

  lemma SetMeIsLocal(s: State, me: Thread, s': State)
    requires s.cur in s.threads && s' == s.SetMe(me).(intr := s'.intr)
    requires me.status == s.Me().status && me.priority == s.Me().priority
    ensures Local(s, me, s')
  {
  }

  lemma ResumeDepths(s: State, me: Thread, s': State)
    requires s.cur in s.threads && s' == s.SetMe(me).(intr := s'.intr) && SameDepth(s.Me(), me)
    requires me.status == s.Me().status && !s.Me().pc.InSema?
    ensures forall t :: t in s.threads ==> SameDepth(s.threads[t], s'.threads[t])
    ensures forall l, t :: StillWoken(s, s', t, l)
  {
  }

  lemma EnterKept(s: State, s': State, l: Lid, pc: Pc)
    requires Inv(s) && s.cur in s.threads && s.Me().pc.Client? && l in s.locks && s' == s.SetPc(pc)
    requires pc == AcquireTest(l) || pc == ReleaseAssert(l)
    requires DepthOk(s.Me().(pc := pc))
    ensures Inv(s')
  {
    hide Queues, Flags, Locks, Clocks, LockOk, DepthOk;
    InvMe(s);
    InvLock(s, l);
    var me := s'.Me();
    assert Local(s, me, s');
    LocalKept(s, me, s', false);
    HolderSound(s, s.cur, l);
    if Inside(s.Me(), l) {
      OwnerMoves(s, me, s', l);
    } else {
      OutsiderMoves(s, me, s', l);
    }
    OneLock(s, me, s', l);
  }

  lemma SetIntrKept(s: State, on: bool, s': State)
    requires Inv(s) && CanStep(s, Call(SetIntr(on)), s')
    ensures Inv(s')
  {
    hide Queues, Flags, Locks, Clocks;
    InvMe(s);
    var me := s'.Me();
    assert Local(s, me, s');
    LocalKept(s, me, s', false);
    LocksUnconcerned(s, s');
  }

  /** Nobody can be inside a lock that does not exist. */
  lemma NoStranger(s: State, l: Lid)
    requires Queues(s) && l !in s.locks
    ensures forall t :: t in s.threads ==> !Inside(s.threads[t], l)
  {
    forall t | t in s.threads ensures !Inside(s.threads[t], l) { assert ThreadShape(s, t); }
  }

  lemma InitLockLocks(s: State, l: Lid, s': State)
    requires Locks(s) && l !in s.locks && s' == s.SetLock(l, NEW_LOCK)
    requires forall t :: t in s.threads ==> !Inside(s.threads[t], l)
    ensures Locks(s')
  {
    hide LockOk, DepthOk;
    forall k | k in s'.locks ensures LockOk(s', k) {
      if k == l {
        assert IsFree(s', l);
        FreeLock(s', l);
      } else {
        assert LockOk(s, k);
        forall t ensures Woken(s, t, k) ==> Woken(s', t, k) {}
        LockFrame(s, s', k);
      }
    }
  }

  lemma FreeLock(s: State, l: Lid)
    requires l in s.locks && s.locks[l].value == 1 && s.locks[l].waiters == [] && IsFree(s, l)
    ensures LockOk(s, l)
  {
  }

  lemma InitLockKept(s: State, l: Lid, s': State)
    requires Inv(s) && s.cur in s.threads && s.Me().pc.Client? && l !in s.locks
    requires s' == s.SetLock(l, NEW_LOCK)
    ensures Inv(s')
  {
    hide Queues, Flags, Clocks, Locks;
    NoStranger(s, l);
    InvMe(s);
    assert Local(s, s.Me(), s');
    LocalKept(s, s.Me(), s', false);
    InitLockLocks(s, l, s');
  }

  lemma StartQueues(s: State, t: Tid, th: Thread, s': State)
    requires Queues(s) && t !in s.threads
    requires th.status.Ready? && th.pc.Fresh? && th.depth == map[]
    requires s' == s.(threads := s.threads[t := th], ready := s.ready + [t], all := s.all + [t])
    ensures Queues(s')
  {
    forall x | x in s'.threads ensures ThreadShape(s', x) { assert x != t ==> ThreadShape(s, x); }
    forall l | l in s'.locks ensures WaitersOk(s', l) {
      assert WaitersOk(s, l);
      forall x ensures AsleepOn(s', x, l) <==> AsleepOn(s, x, l) {}
    }
  }

  lemma StartLocks(s: State, t: Tid, th: Thread, s': State)
    requires Locks(s) && t !in s.threads && th.pc.Fresh? && th.depth == map[]
    requires s' == s.(threads := s.threads[t := th], ready := s.ready + [t], all := s.all + [t])
    ensures Locks(s')
  {
    forall x | x in s'.threads ensures DepthOk(s'.threads[x]) { assert x != t ==> DepthOk(s.threads[x]); }
    hide LockOk, DepthOk;
    forall k | k in s'.locks ensures LockOk(s', k) {
      assert LockOk(s, k);
      forall x ensures Woken(s, x, k) ==> Woken(s', x, k) {}
      LockFrame(s, s', k);
    }
  }

  lemma StartKept(s: State, t: Tid, prio: nat, s': State)
    requires Inv(s) && t !in s.threads && Start(s, t, prio) == Ok(s')
    ensures Inv(s')
  {
    hide Queues, Locks;
    var p := prio % 256;
    var th := Thread(Ready, p, p, 0, Fresh, false, map[]);
    StartQueues(s, t, th, s');
    StartLocks(s, t, th, s');
    ElapsedAppend(s.threads, s.all, t, th);
  }

  lemma CallKept(s: State, c: Call, s': State)
    requires Inv(s) && CanStep(s, Call(c), s')
    ensures Inv(s')
  {
    hide Inv, Queues, Flags, Locks, Clocks, Yield, Block, Unblock, Start, Schedule;
    InvMe(s);
    match c
    case Acquire(l) => EnterKept(s, s', l, AcquireTest(l));
    case Release(l) => EnterKept(s, s', l, ReleaseAssert(l));
    case YieldCall => YieldKept(s, s');
    case BlockCall(stat) => BlockKept(s, stat, s');
    case UnblockCall(w) => QuietMoveKept(s, UnblockTest(w), s');
    case SetIntr(on) => SetIntrKept(s, on, s');
    case StartCall(t, prio) => StartKept(s, t, prio, s');
    case InitLock(l) => InitLockKept(s, l, s');
  }

  /** Every step of every run keeps the invariant. */
  lemma StepKept(s: State, a: Action, s': State)
    requires Inv(s) && CanStep(s, a, s')
    ensures Inv(s')
  {
    hide Inv, Timer, DoCall, Resume, LockStep, FlagOk, ThreadShape, DepthOk;
    InvMe(s);
    match a
    case TimerInterrupt => TimerKept(s, s');
    case Call(c) => CallKept(s, c, s');
    case Exec =>
      if s.Me().pc.SemaDown? || s.Me().pc.InSema? {
        SemaDownKept(s, s');
      } else if s.Me().pc.SemaUp? {
        SemaUpKept(s, s');
      } else if s.Me().pc.OnUnblock() {
        UnblockKept(s, s');
      } else if s.Me().pc.Suspended() {
        ResumeKept(s, s');
      } else {
        StatementKept(s, s');
      }
  }

  lemma BootInv(main: Tid)
    ensures Inv(Boot(main))
  {
    var s := Boot(main);
    assert s.all[1..] == [];
    assert Elapsed(s.threads, s.all[1..]) == 0;
  }

  /** s is a state of some run from boot. */
  ghost predicate Reachable(s: State) {
    exists main, trace, acts :: RunsTo(main, trace, acts, s)
  }

  ghost predicate RunsTo(main: Tid, trace: seq<State>, acts: seq<Action>, s: State) {
    IsRun(trace, acts) && trace[0] == Boot(main) && trace[|acts|] == s
  }

  lemma {:induction false} RunInv(main: Tid, trace: seq<State>, acts: seq<Action>, s: State)
    requires RunsTo(main, trace, acts, s)
    ensures Inv(s)
    decreases |acts|
  {
    hide Inv, CanStep;
    var n := |acts|;
    if n == 0 {
      BootInv(main);
    } else {
      assert acts[n - 1] == acts[n - 1];
      var acts', trace' := acts[..n - 1], trace[..n];
      forall i | 0 <= i < n - 1 ensures CanStep(trace'[i], acts'[i], trace'[i + 1]) { assert acts[i] == acts'[i]; }
      RunInv(main, trace', acts', trace[n - 1]);
      StepKept(trace[n - 1], acts[n - 1], trace[n]);
    }
  }

  /** The invariant holds in every state of every run. */
  lemma ReachableInv(s: State)
    requires Reachable(s)
    ensures Inv(s)
  {
    hide Inv, RunsTo;
    var main, trace, acts :| RunsTo(main, trace, acts, s);
    RunInv(main, trace, acts, s);
  }

  lemma ReachableNext(s: State, a: Action, s': State)
    requires Reachable(s) && CanStep(s, a, s')
    ensures Reachable(s')
  {
    hide CanStep;
    var main, trace, acts :| RunsTo(main, trace, acts, s);
    var acts', trace' := acts + [a], trace + [s'];
    forall i | 0 <= i < |acts'| ensures CanStep(trace'[i], acts'[i], trace'[i + 1]) {
      if i < |acts| { assert acts[i] == acts'[i]; }
    }
    assert RunsTo(main, trace', acts', s');
  }
}
