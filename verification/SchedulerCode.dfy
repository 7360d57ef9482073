/** The C functions of interrupt.c, thread.c, sync.c and timer.c over PCBs and locks changed in place, one assignment
    after the other up to the next context switch. Each is proved to do exactly what the transition system says. */
module SchedulerCode {
  import opened Basics
  import opened Scheduler
  import opened Interrupts

  const STACK_MAGIC: int := 0x1987_0916

  /** struct task_struct; `pc` stands for the saved stack. */
  class Pcb {
    var status: Status
    var priority: nat
    var ticks: nat
    var elapsed: nat
    var pc: Pc
    const stackMagic: int
    ghost var intr: bool
    ghost var depth: map<Lid, nat>

    constructor (status: Status, prio: nat, pc: Pc)
      ensures Abs() == Thread(status, prio, prio, 0, pc, false, map[]) && stackMagic == STACK_MAGIC
    {
      stackMagic := STACK_MAGIC;
      this.status, priority, ticks, elapsed, this.pc, intr, depth := status, prio, prio, 0, pc, false, map[];
    }

    ghost function Abs(): Thread
      reads this
    {
      Thread(status, priority, ticks, elapsed, pc, intr, depth)
    }
  }

  /** struct lock with its semaphore. */
  class LockCell {
    var holder: Option<Tid>
    var value: nat
    var waiters: seq<Tid>
    var repeat: nat
    ghost var arrived: seq<Tid>
    ghost var served: seq<Tid>

    /** lock_init; `waiters` is taken as initialised. */
    constructor ()
      ensures Abs() == NEW_LOCK
    {
      holder, value, waiters, repeat, arrived, served := None, 1, [], 0, [], [];
    }

    ghost function Abs(): Lock
      reads this
    {
      Lock(holder, value, waiters, repeat, arrived, served)
    }
  }

  // ------------------------------------------------- states on the way to the specified one

  /** The code stopped at the ASSERT that the specification names, or left the state it names. */
  ghost predicate Ends(o: Outcome, panic: Option<Site>, s: State) {
    if o.Panic? then panic == Some(o.site) else panic == None && s == o.s
  }

  /** The running thread, if it is still running, is back in the ready list with a full time slice. */
  ghost function Requeued(s: State): State
    requires s.cur in s.threads
  {
    if !s.Me().status.Running? then s
    else s.SetMe(s.Me().(ticks := s.Me().priority, status := Ready)).(ready := s.ready + [s.cur])
  }

  /** The running thread is at the end of the ready list, inside thread_yield. */
  ghost function Yielding(s: State): State
    requires s.cur in s.threads
  {
    s.SetMe(s.Me().(status := Ready, pc := InYield(s.intr))).(intr := false, ready := s.ready + [s.cur])
  }

  /** The running thread joins the waiters of l. */
  ghost function Joined(s: State, l: Lid): State
    requires l in s.locks
  {
    s.SetLock(l, s.locks[l].(waiters := s.locks[l].waiters + [s.cur], arrived := s.locks[l].arrived + [s.cur]))
  }

  /** The first waiter of l is popped. */
  ghost function Popped(s: State, l: Lid): State
    requires l in s.locks && s.locks[l].waiters != []
  {
    s.SetLock(l, s.locks[l].(waiters := s.locks[l].waiters[1..], served := s.locks[l].served + [s.locks[l].waiters[0]]))
  }

  /** The first waiter of l, if any, is woken. */
  ghost function FirstWoken(s: State, l: Lid): Outcome
    requires l in s.locks && (s.locks[l].waiters != [] ==> s.locks[l].waiters[0] in s.threads)
  {
    if s.locks[l].waiters == [] then Ok(s) else Unblock(Popped(s, l), s.locks[l].waiters[0])
  }

  /** A wake-up leaves the running thread and the value of l alone. */
  ghost predicate WakesOnly(s: State, s': State, l: Lid)
    requires l in s.locks
  {
    s'.cur == s.cur && s'.cur in s'.threads && l in s'.locks && s'.locks[l].value == s.locks[l].value == 0
  }

  /** sema_up behind its first ASSERT. */
  ghost function AfterWake(s: State, l: Lid, status: bool): Outcome
    requires l in s.locks && (s.locks[l].waiters != [] ==> s.locks[l].waiters[0] in s.threads)
    requires FirstWoken(s, l).Ok? ==> WakesOnly(s, FirstWoken(s, l).s, l)
  {
    if FirstWoken(s, l).Panic? then FirstWoken(s, l) else Ok(Given(FirstWoken(s, l).s, l, status))
  }

  /** l is free and sema_up has returned. */
  ghost function Given(s: State, l: Lid, status: bool): State
    requires s.cur in s.threads && l in s.locks
  {
    s.SetLock(l, s.locks[l].(value := 1)).SetPc(Client).(intr := status)
  }

  ghost function Ticked(s: State): State
    requires s.cur in s.threads
  {
    s.SetMe(s.Me().(elapsed := (s.Me().elapsed + 1) % WORD_SIZE)).(ticks := (s.ticks + 1) % WORD_SIZE, intr := false)
  }

  ghost function TickUsed(s: State): State
    requires s.cur in s.threads && s.Me().ticks > 0
  {
    s.SetMe(s.Me().(ticks := s.Me().ticks - 1)).(intr := true)
  }

  ghost function Interrupted(s: State): State
    requires s.cur in s.threads
  {
    s.SetMe(s.Me().(pc := Preempted(s.Me().pc)))
  }

  /** What the timer handler comes to once the tick is counted. */
  ghost function TickOutcome(s: State): Outcome
    requires s.WellFormed() && Interrupted(s).WellFormed()
  {
    if s.Me().ticks == 0 then Schedule(Interrupted(s)) else Ok(TickUsed(s))
  }

  // ---------------------------------------------------------- statements of lock_acquire, lock_release

  /** The statement failed its ASSERT or left the PCB and the lock as specified. */
  ghost predicate Did(e: Effect, panic: Option<Site>, me: Thread, lk: Lock) {
    if e.Fails? then panic == Some(e.site) else panic == None && me == e.me && lk == e.lk
  }

  predicate InAcquire(pc: Pc) {
    pc.AcquireTest? || pc.AcquireNest? || pc.AcquireHolder? || pc.AcquireAssert? || pc.AcquireRepeat?
  }

  predicate InRelease(pc: Pc) {
    || pc.ReleaseAssert? || pc.ReleaseTest? || pc.ReleaseNest? || pc.ReleaseAssertOne? || pc.ReleaseHolder?
    || pc.ReleaseRepeat?
  }

  method ReleaseStatement(me: Pcb, plock: LockCell, cur: Tid) returns (panic: Option<Site>)
    requires InRelease(me.pc)
    modifies me, plock
    ensures Did(Statement(cur, old(me.Abs()), old(plock.Abs())), panic, me.Abs(), plock.Abs())
  {
    var l := me.pc.l;
    ghost var less := me.depth[l := if me.Abs().Depth(l) == 0 then 0 else me.Abs().Depth(l) - 1];
    match me.pc {
      case ReleaseAssert(_) =>
        if plock.holder != Some(cur) { return Some(ReleaseHolderMe); }
        me.pc := ReleaseTest(l);
      case ReleaseTest(_) =>
        me.pc := if plock.repeat > 1 then ReleaseNest(l) else ReleaseAssertOne(l);
      case ReleaseNest(_) =>
        plock.repeat := (plock.repeat - 1) % WORD_SIZE;
        me.pc, me.depth := Client, less;
      case ReleaseAssertOne(_) =>
        if plock.repeat != 1 { return Some(ReleaseRepeatOne); }
        me.pc := ReleaseHolder(l);
      case ReleaseHolder(_) =>
        plock.holder := None;
        me.pc := ReleaseRepeat(l);
      case ReleaseRepeat(_) =>
        plock.repeat := 0;
        me.pc, me.depth := SemaUp(l), less;
    }
    panic := None;
  }

  method AcquireStatement(me: Pcb, plock: LockCell, cur: Tid) returns (panic: Option<Site>)
    requires InAcquire(me.pc)
    modifies me, plock
    ensures Did(Statement(cur, old(me.Abs()), old(plock.Abs())), panic, me.Abs(), plock.Abs())
  {
    var l := me.pc.l;
    ghost var more := me.depth[l := me.Abs().Depth(l) + 1];
    match me.pc {
      case AcquireTest(_) =>
        me.pc := if plock.holder != Some(cur) then SemaDown(l) else AcquireNest(l);
      case AcquireNest(_) =>
        plock.repeat := (plock.repeat + 1) % WORD_SIZE;
        me.pc, me.depth := Client, more;
      case AcquireHolder(_) =>
        plock.holder := Some(cur);
        me.pc := AcquireAssert(l);
      case AcquireAssert(_) =>
        if plock.repeat != 0 { return Some(AcquireRepeatZero); }
        me.pc := AcquireRepeat(l);
      case AcquireRepeat(_) =>
        plock.repeat := 1;
        me.pc, me.depth := Client, more;
    }
    panic := None;
  }

  // -------------------------------------------------------------------------- the kernel

  class Kernel {
    var cur: Tid                   // running_thread()
    const eflags: Eflags           // the IF bit
    var ready: seq<Tid>            // thread_ready_list
    var all: seq<Tid>              // thread_all_list
    var tasks: map<Tid, Pcb>       // what each PCB address points to
    var locks: map<Lid, LockCell>  // what each lock address points to
    var ticks: nat
    ghost var stolen: bool

    ghost function Pcbs(): set<object>
      reads `tasks
    {
      set t | t in tasks :: tasks[t]
    }

    ghost function LockCells(): set<object>
      reads `locks
    {
      set l | l in locks :: locks[l]
    }

    /** Different addresses are different objects, and no stack has run into its PCB. */
    ghost predicate Valid()
      reads `tasks, `locks
    {
      && (forall t, u :: t in tasks && u in tasks && t != u ==> tasks[t] != tasks[u])
      && (forall l, k :: l in locks && k in locks && l != k ==> locks[l] != locks[k])
      && (forall t, l :: t in tasks && l in locks ==> (tasks[t] as object) != locks[l])
      && (forall t :: t in tasks ==> tasks[t].stackMagic == STACK_MAGIC)
    }

    ghost function Threads(): map<Tid, Thread>
      reads `tasks, Pcbs()
    {
      map t | t in tasks :: tasks[t].Abs()
    }

    ghost function Locks(): map<Lid, Lock>
      reads `locks, LockCells()
    {
      map l | l in locks :: locks[l].Abs()
    }

    ghost function Abs(): State
      reads this, eflags, Pcbs(), LockCells()
    {
      State(cur, eflags.intr, ready, all, Threads(), Locks(), ticks, stolen)
    }

    /** The code stopped at the ASSERT the specification names, or reached the state it names. */
    ghost predicate Reached(o: Outcome, panic: Option<Site>)
      reads this, eflags, Pcbs(), LockCells()
    {
      Ends(o, panic, Abs())
    }

    /** Only thread t's PCB was written. */
    twostate lemma PcbWritten(t: Tid)
      requires tasks == old(tasks) && locks == old(locks) && t in tasks
      requires forall u :: u in tasks && u != t ==> unchanged(tasks[u])
      requires forall l :: l in locks ==> unchanged(locks[l])
      ensures Threads() == old(Threads())[t := tasks[t].Abs()] && Locks() == old(Locks())
    {
      assert forall u :: u in tasks && u != t ==> tasks[u].Abs() == old(tasks[u].Abs());
      assert forall l :: l in locks ==> locks[l].Abs() == old(locks[l].Abs());
    }

    /** Only lock l was written. */
    twostate lemma LockWritten(l: Lid)
      requires tasks == old(tasks) && locks == old(locks) && l in locks
      requires forall t :: t in tasks ==> unchanged(tasks[t])
      requires forall k :: k in locks && k != l ==> unchanged(locks[k])
      ensures Locks() == old(Locks())[l := locks[l].Abs()] && Threads() == old(Threads())
    {
      assert forall t :: t in tasks ==> tasks[t].Abs() == old(tasks[t].Abs());
      assert forall k :: k in locks && k != l ==> locks[k].Abs() == old(locks[k].Abs());
    }

    /** threads_init and make_main_thread. */
    constructor (main: Tid)
      ensures Valid() && Abs() == Boot(main)
      ensures cur == main && !eflags.intr && ready == [] && all == [main] && locks == map[] && ticks == 0
      ensures Threads() == map[main := Thread(Running, 31, 31, 0, Client, false, map[])]
    {
      cur, ready, all, locks, ticks, stolen := main, [], [main], map[], 0, false;
      eflags := new Eflags(false);
      var pcb := new Pcb(Running, 31, Client);
      tasks := map[main := pcb];
    }

    /** intr_disable */
    method MaskInterrupts() returns (oldStatus: bool)
      requires Valid()
      modifies eflags
      ensures oldStatus == old(eflags.intr) && Abs() == old(Abs()).(intr := false)
    {
      oldStatus := eflags.Disable();
      assert Threads() == old(Threads()) && Locks() == old(Locks());
    }

    /** schedule()'s branch for a thread whose time slice is used up. */
    method RequeueRunning() returns (panic: Option<Site>)
      requires Valid() && cur in tasks
      modifies `ready, tasks[cur]
      ensures var s := old(Abs());
              if s.Me().status.Running? && s.cur in s.ready then panic == Some(ScheduleFind)
              else panic == None && Abs() == Requeued(s)
    {
      if tasks[cur].status == Running {
        if cur in ready { return Some(ScheduleFind); }
        tasks[cur].ticks := tasks[cur].priority;
        tasks[cur].status := Ready;
        ready := ready + [cur];
        PcbWritten(cur);
      }
      return None;
    }

    /** The rest of schedule(): the head of the ready list takes over. */
    method SwitchToNext()
      requires Valid() && ready != [] && ready[0] in tasks
      modifies `ready, `cur, tasks[ready[0]]
      ensures var s, next := old(Abs()), old(ready[0]);
              Abs() == s.(ready := s.ready[1..], cur := next,
                          threads := s.threads[next := s.threads[next].(status := Running)])
    {
      var next := ready[0];
      ready := ready[1..];
      tasks[next].status := Running;
      cur := next;   // switch_to(cur, next)
      PcbWritten(next);
    }

    method Schedule() returns (panic: Option<Site>)
      requires Valid() && Abs().WellFormed()
      modifies `cur, `ready, Pcbs()
      ensures Reached(Scheduler.Schedule(old(Abs())), panic)
    {
      ghost var s := Abs();
      if eflags.intr { return Some(ScheduleIntr); }
      NamesKnown(s);
      hide State.WellFormed, Valid, Threads, Locks;
      panic := RequeueRunning();
      if panic != None { return; }
      if ready == [] { return Some(ScheduleEmpty); }
      RequeuedKnown(s);
      hide Requeued;
      SwitchToNext();
    }

    lemma RequeuedKnown(s: State)
      requires s.cur in s.threads && forall i :: 0 <= i < |s.ready| ==> s.ready[i] in s.threads
      ensures Requeued(s).ready != [] ==> Requeued(s).ready[0] in Requeued(s).threads
      ensures Requeued(s).intr == s.intr
    {
    }

    lemma MeKnown()
      requires Abs().WellFormed()
      ensures cur in tasks && cur in Abs().threads && Abs().Me() == tasks[cur].Abs() && Abs().Me().pc == tasks[cur].pc
    {
    }

    lemma SemaKnown()
      requires Abs().WellFormed() && tasks[cur].pc.InSema?
      ensures tasks[cur].pc.l in locks && tasks[cur].pc.l in Abs().locks
    {
    }

    lemma NamesKnown(s: State)
      requires s.WellFormed()
      ensures s.cur in s.threads && forall i :: 0 <= i < |s.ready| ==> s.ready[i] in s.threads
    {
    }

    /** thread_block before schedule(): the running thread's PCB; `resume` is where the thread will find itself when it
        is switched back in. */
    method Leave(stat: Status, resume: Pc)
      requires Valid() && cur in tasks
      modifies eflags, tasks[cur]
      ensures var s := old(Abs()); Abs() == s.(intr := false).SetMe(s.Me().(status := stat, pc := resume))
    {
      var oldStatus := eflags.Disable();
      tasks[cur].status := stat;
      tasks[cur].pc := resume;
      PcbWritten(cur);
    }

    /** thread_block */
    method ThreadBlock(stat: Status, resume: Pc) returns (panic: Option<Site>)
      requires Valid() && Abs().WellFormed()
      requires (resume.At().OnLock() ==> resume.At().l in locks) && !resume.At().OnUnblock()
      modifies eflags, `cur, `ready, Pcbs()
      ensures Reached(Block(old(Abs()), stat, resume), panic)
    {
      ghost var s := Abs();
      NamesKnown(s);
      LocksKnown();
      if !(stat == Blocked || stat == Waiting || stat == Hanging) { return Some(BlockStat); }
      BlockIs(s, stat, resume);
      hide Block, State.WellFormed, Scheduler.Schedule, Valid, Threads, Locks, Pc.OnLock;
      Leave(stat, resume);
      panic := Schedule();
    }

    lemma BlockIs(s: State, stat: Status, resume: Pc)
      requires s.WellFormed() && Asleep(stat)
      requires (resume.At().OnLock() ==> resume.At().l in s.locks) && !resume.At().OnUnblock()
      ensures var s1 := s.(intr := false);
              var s2 := s1.SetMe(s1.Me().(status := stat, pc := resume));
              s2.WellFormed() && Block(s, stat, resume) == Scheduler.Schedule(s2)
    {
      var s2 := s.SetMe(s.Me().(status := stat, pc := resume)).(intr := false);
      StillWellFormed(s, s.Me().(status := stat, pc := resume), s2);
      hide Scheduler.Schedule;
    }

    lemma LocksKnown()
      ensures Locks().Keys == locks.Keys
    {
    }

    /** thread_unblock behind its ASSERT */
    method UnblockSection(t: Tid) returns (panic: Option<Site>)
      requires Valid() && t in tasks
      modifies eflags, `ready, tasks[t]
      ensures Reached(PushReady(old(Abs()), t), panic)
    {
      var oldStatus := eflags.Disable();
      if tasks[t].status != Ready {
        if t in ready { return Some(UnblockFind); }
        tasks[t].status := Ready;
        ready := [t] + ready;
      }
      var _ := eflags.SetStatus(oldStatus);
      PcbWritten(t);
      return None;
    }

    /** thread_unblock by a caller with interrupts off */
    method ThreadUnblock(t: Tid) returns (panic: Option<Site>)
      requires Valid() && t in tasks
      modifies eflags, `ready, tasks[t]
      ensures Reached(Unblock(old(Abs()), t), panic)
    {
      if !(tasks[t].status == Blocked || tasks[t].status == Waiting || tasks[t].status == Hanging) {
        return Some(UnblockStat);
      }
      hide PushReady;
      panic := UnblockSection(t);
    }

    /** thread_unblock by a caller with interrupts on: the timer may come between its ASSERT and its section with
        interrupts off. */
    method ThreadUnblockStatement() returns (panic: Option<Site>)
      requires Valid() && Abs().WellFormed() && tasks[cur].pc.OnUnblock()
      modifies eflags, `ready, `stolen, Pcbs()
      ensures Reached(LockStep(old(Abs())), panic)
    {
      ghost var s := Abs();
      WakeKnown(s);
      hide State.WellFormed, Valid, Threads, Locks, PushReady, StealsWaiter;
      panic := None;
      match tasks[cur].pc {
        case UnblockTest(w) =>
          if !(tasks[w].status == Blocked || tasks[w].status == Waiting || tasks[w].status == Hanging) {
            return Some(UnblockStat);
          }
          MoveTo(UnblockPush(w));
        case UnblockPush(w) =>
          panic := Wake(w, s.stolen || StealsWaiter(s));
      }
    }

    /** The section of thread_unblock with interrupts off, and its return. */
    method Wake(w: Tid, ghost theft: bool) returns (panic: Option<Site>)
      requires Valid() && cur in tasks && w in tasks
      modifies eflags, `ready, `stolen, tasks[cur], tasks[w]
      ensures var s := old(Abs());
              match PushReady(s, w)
              case Panic(site) => panic == Some(site)
              case Ok(s1) => s1.cur in s1.threads && panic == None && Abs() == s1.SetPc(Client).(stolen := theft)
    {
      ghost var s := Abs();
      panic := UnblockSection(w);
      if panic == None {
        hide PushReady;
        MoveTo(Client);
        Note(theft);
      }
    }

    lemma WakeKnown(s: State)
      requires s.WellFormed() && s.Me().pc.OnUnblock()
      ensures s.cur in s.threads && s.Me().pc.w in s.threads
      ensures PushReady(s, s.Me().pc.w).Ok? ==> PushReady(s, s.Me().pc.w).s.cur in PushReady(s, s.Me().pc.w).s.threads
    {
    }

    ghost method Note(theft: bool)
      requires Valid()
      modifies `stolen
      ensures Abs() == old(Abs()).(stolen := theft)
    {
      stolen := theft;
      assert Threads() == old(Threads()) && Locks() == old(Locks());
    }

    /** intr_enable by the running thread. */
    method IntrEnable() returns (oldStatus: bool)
      requires Valid() && Abs().WellFormed() && tasks[cur].pc.Client?
      modifies eflags, tasks[cur]
      ensures oldStatus == old(eflags.intr) && Next(old(Abs()), Call(SetIntr(true))) == Ok(Abs())
      ensures Abs() == old(Abs()).(intr := true).SetMe(old(Abs()).Me().(intr := true))
    {
      hide State.WellFormed;
      ghost var s := Abs();
      MeKnown();
      oldStatus := eflags.Enable();
      tasks[cur].intr := true;
      PcbWritten(cur);
      FlagSet(s, true);
    }

    /** intr_disable by the running thread. */
    method IntrDisable() returns (oldStatus: bool)
      requires Valid() && Abs().WellFormed() && tasks[cur].pc.Client?
      modifies eflags, tasks[cur]
      ensures oldStatus == old(eflags.intr) && Next(old(Abs()), Call(SetIntr(false))) == Ok(Abs())
      ensures Abs() == old(Abs()).(intr := false).SetMe(old(Abs()).Me().(intr := false))
    {
      hide State.WellFormed;
      ghost var s := Abs();
      MeKnown();
      oldStatus := eflags.Disable();
      tasks[cur].intr := false;
      PcbWritten(cur);
      FlagSet(s, false);
    }

    /** intr_set_status by the running thread. */
    method IntrSetStatus(status: bool) returns (oldStatus: bool)
      requires Valid() && Abs().WellFormed() && tasks[cur].pc.Client?
      modifies eflags, tasks[cur]
      ensures oldStatus == old(eflags.intr) && Next(old(Abs()), Call(SetIntr(status))) == Ok(Abs())
      ensures Abs() == old(Abs()).(intr := status).SetMe(old(Abs()).Me().(intr := status))
    {
      hide State.WellFormed;
      ghost var s := Abs();
      MeKnown();
      oldStatus := eflags.SetStatus(status);
      tasks[cur].intr := status;
      PcbWritten(cur);
      FlagSet(s, status);
    }

    lemma FlagSet(s: State, on: bool)
      requires s.WellFormed() && s.Me().pc.Client?
      ensures Next(s, Call(SetIntr(on))) == Ok(s.(intr := on).SetMe(s.Me().(intr := on)))
    {
      hide State.WellFormed;
    }

    /** The running thread gets to its next statement. */
    method MoveTo(pc: Pc)
      requires Valid() && cur in tasks
      modifies tasks[cur]
      ensures Abs() == old(Abs()).SetPc(pc)
    {
      tasks[cur].pc := pc;
      PcbWritten(cur);
    }

    /** thread_yield before schedule(): the running thread goes to the end of the ready list. */
    method QueueMe() returns (panic: Option<Site>)
      requires Valid() && cur in tasks
      modifies eflags, `ready, tasks[cur]
      ensures var s := old(Abs());
              if s.cur in s.ready then panic == Some(YieldFind) else panic == None && Abs() == Yielding(s)
    {
      var oldStatus := eflags.Disable();
      if cur in ready { return Some(YieldFind); }
      tasks[cur].status := Ready;
      tasks[cur].pc := InYield(oldStatus);
      ready := ready + [cur];
      PcbWritten(cur);
      panic := None;
    }

    method ThreadYield() returns (panic: Option<Site>)
      requires Valid() && Abs().WellFormed()
      modifies eflags, `cur, `ready, Pcbs()
      ensures Reached(Yield(old(Abs())), panic)
    {
      hide Yield, State.WellFormed, Scheduler.Schedule, Valid, Threads, Locks, Yielding, Pcb.Abs, LockCell.Abs;
      ghost var s := Abs();
      MeKnown();
      YieldIs(s);
      panic := QueueMe();
      if panic == None { panic := Schedule(); }
    }

    lemma YieldIs(s: State)
      requires s.WellFormed()
      ensures s.cur in s.ready ==> Yield(s) == Panic(YieldFind)
      ensures s.cur !in s.ready ==> Yielding(s).WellFormed() && Yield(s) == Scheduler.Schedule(Yielding(s))
    {
      StillWellFormed(s, Yielding(s).Me(), Yielding(s));
      hide Scheduler.Schedule;
    }

    /** thread_start, init_thread: a PCB in a page that was not in use. */
    method ThreadStart(t: Tid, prio: nat) returns (panic: Option<Site>)
      requires Valid() && t !in tasks
      modifies `ready, `all, `tasks
      ensures Valid() && Reached(Start(old(Abs()), t, prio), panic)
    {
      if t in ready { return Some(StartFind); }
      if t in all { return Some(StartFind); }
      var pcb := new Pcb(Ready, prio % 256, Fresh);   // priority and ticks are bytes
      tasks := tasks[t := pcb];
      ready := ready + [t];
      all := all + [t];
      PcbAdded(t);
      return None;
    }

    twostate lemma PcbAdded(t: Tid)
      requires old(Valid()) && t in tasks && t !in old(tasks)
      requires tasks == old(tasks)[t := tasks[t]] && locks == old(locks)
      requires forall u :: u in old(tasks) ==> unchanged(tasks[u])
      requires forall l :: l in locks ==> unchanged(locks[l])
      ensures Threads() == old(Threads())[t := tasks[t].Abs()] && Locks() == old(Locks())
    {
      assert forall u :: u in old(tasks) ==> tasks[u].Abs() == old(tasks[u].Abs());
      assert forall l :: l in locks ==> locks[l].Abs() == old(locks[l].Abs());
    }

    /** The counters of the timer interrupt, which came through an interrupt gate. */
    method CountTick()
      requires Valid() && cur in tasks
      modifies eflags, `ticks, tasks[cur]
      ensures Abs() == Ticked(old(Abs()))
    {
      eflags.intr := false;
      assert tasks[cur].stackMagic == STACK_MAGIC;   // the handler's ASSERT
      tasks[cur].elapsed := (tasks[cur].elapsed + 1) % WORD_SIZE;
      ticks := (ticks + 1) % WORD_SIZE;
      PcbWritten(cur);
    }

    method UseTick()
      requires Valid() && cur in tasks && tasks[cur].ticks > 0
      modifies eflags, tasks[cur]
      ensures Abs() == TickUsed(old(Abs()))
    {
      tasks[cur].ticks := tasks[cur].ticks - 1;
      eflags.intr := true;   // iretd
      PcbWritten(cur);
    }

    /** The interrupted thread, whose place is on its stack, goes into schedule(). */
    method Preempt() returns (panic: Option<Site>)
      requires Valid() && Abs().WellFormed()
      modifies `cur, `ready, Pcbs()
      ensures Interrupted(old(Abs())).WellFormed()
      ensures Reached(Scheduler.Schedule(Interrupted(old(Abs()))), panic)
    {
      hide Scheduler.Schedule, Locks;
      ghost var s := Abs();
      NamesKnown(s);
      StillWellFormed(s, Interrupted(s).Me(), Interrupted(s));
      tasks[cur].pc := Preempted(tasks[cur].pc);
      PcbWritten(cur);
      hide State.WellFormed, Valid, Threads;
      panic := Schedule();
    }

    /** intr_timer_handler behind its counters */
    method EndTick() returns (panic: Option<Site>)
      requires Valid() && Abs().WellFormed() && Interrupted(Abs()).WellFormed()
      modifies eflags, `cur, `ready, Pcbs()
      ensures Reached(TickOutcome(old(Abs())), panic)
    {
      NamesKnown(Abs());
      panic := None;
      if tasks[cur].ticks == 0 {
        hide State.WellFormed, Scheduler.Schedule, Valid, Threads, Locks, Interrupted;
        panic := Preempt();
      } else {
        hide State.WellFormed, Scheduler.Schedule, Valid, Interrupted, TickUsed;
        UseTick();
      }
    }

    /** intr_timer_handler */
    method TimerHandler() returns (panic: Option<Site>)
      requires Valid() && Abs().WellFormed() && eflags.intr
      modifies eflags, `cur, `ready, `ticks, Pcbs()
      ensures Reached(Timer(old(Abs())), panic)
    {
      hide Timer, State.WellFormed, Valid, Threads, Locks, Ticked, TickOutcome, Interrupted, Pcb.Abs, LockCell.Abs;
      ghost var s := Abs();
      MeKnown();
      TimerIs(s);
      CountTick();
      panic := EndTick();
    }

    lemma TimerIs(s: State)
      requires s.WellFormed() && s.intr
      ensures Ticked(s).cur == s.cur && Ticked(s).WellFormed() && Interrupted(Ticked(s)).WellFormed()
      ensures Timer(s) == TickOutcome(Ticked(s))
    {
      StillWellFormed(s, Ticked(s).Me(), Ticked(s));
      StillWellFormed(Ticked(s), Interrupted(Ticked(s)).Me(), Interrupted(Ticked(s)));
      hide Scheduler.Schedule, State.WellFormed;
      assert s.Me().ticks == 0 ==> Interrupted(Ticked(s)) == TimerLeaves(s);
      hide Interrupted;
    }

    /** What the timer hands to schedule(). */
    ghost function TimerLeaves(s: State): State
      requires s.cur in s.threads
    {
      s.(ticks := (s.ticks + 1) % WORD_SIZE)
       .SetMe(s.Me().(elapsed := (s.Me().elapsed + 1) % WORD_SIZE, pc := Preempted(s.Me().pc))).(intr := false)
    }

    // ------------------------------------------------------------------- sync.c

    /** Only the running thread's PCB and lock l were written. */
    twostate lemma MineWritten(l: Lid)
      requires tasks == old(tasks) && locks == old(locks) && cur == old(cur) && cur in tasks && l in locks
      requires forall u :: u in tasks && u != cur ==> unchanged(tasks[u])
      requires forall k :: k in locks && k != l ==> unchanged(locks[k])
      ensures Threads() == old(Threads())[cur := tasks[cur].Abs()] && Locks() == old(Locks())[l := locks[l].Abs()]
    {
      assert forall u :: u in tasks && u != cur ==> tasks[u].Abs() == old(tasks[u].Abs());
      assert forall k :: k in locks && k != l ==> locks[k].Abs() == old(locks[k].Abs());
    }

    /** The last statement behind schedule(): intr_set_status, or iretd. */
    method GoOn(pc: Pc, status: bool)
      requires Valid() && cur in tasks
      modifies eflags, tasks[cur]
      ensures Abs() == old(Abs()).SetPc(pc).(intr := status)
    {
      var _ := eflags.SetStatus(status);
      tasks[cur].pc := pc;
      PcbWritten(cur);
    }

    /** kernel_thread up to the call of its function */
    method EnterFunction()
      requires Valid() && cur in tasks
      modifies eflags, tasks[cur]
      ensures var s := old(Abs()); Abs() == s.SetMe(s.Me().(pc := Client, intr := true)).(intr := true)
    {
      var _ := eflags.Enable();
      tasks[cur].pc, tasks[cur].intr := Client, true;
      PcbWritten(cur);
    }

    /** What comes after schedule() when the thread is switched back in: the end of the timer interrupt, the next test
        in sema_down, the end of thread_block or thread_yield, or the start of kernel_thread. */
    method ReturnFromSchedule() returns (panic: Option<Site>)
      requires Valid() && Abs().WellFormed() && tasks[cur].pc.Suspended()
      modifies eflags, `cur, `ready, Pcbs(), LockCells()
      ensures Reached(Resume(old(Abs())), panic)
    {
      hide State.WellFormed, SemaDownLoop, Threads, Locks, Valid, Pcb.Abs, LockCell.Abs;
      MeKnown();
      if tasks[cur].pc.InSema? { SemaKnown(); }
      panic := None;
      match tasks[cur].pc {
        case Preempted(at) => GoOn(at, true);
        case InSema(l, oldStatus) => panic := SemaDownFrom(l, oldStatus);
        case InBlock(oldStatus) => GoOn(Client, oldStatus);
        case InYield(oldStatus) => GoOn(Client, oldStatus);
        case Fresh => EnterFunction();
      }
    }

    /** lock_init */
    method LockInit(l: Lid)
      requires Valid() && l !in locks
      modifies `locks
      ensures Valid() && Abs() == old(Abs()).SetLock(l, NEW_LOCK)
    {
      var cell := new LockCell();
      locks := locks[l := cell];
      CellAdded(l);
    }

    twostate lemma CellAdded(l: Lid)
      requires old(Valid()) && l in locks && l !in old(locks)
      requires locks == old(locks)[l := locks[l]] && tasks == old(tasks)
      requires forall k :: k in old(locks) ==> unchanged(locks[k])
      requires forall t :: t in tasks ==> unchanged(tasks[t])
      ensures Locks() == old(Locks())[l := locks[l].Abs()] && Threads() == old(Threads())
    {
      assert forall k :: k in old(locks) ==> locks[k].Abs() == old(locks[k].Abs());
      assert forall t :: t in tasks ==> tasks[t].Abs() == old(tasks[t].Abs());
    }

    lemma MyLock()
      requires Abs().WellFormed() && (InAcquire(tasks[cur].pc) || InRelease(tasks[cur].pc))
      ensures cur in tasks && tasks[cur].pc.l in locks && Abs().cur in Abs().threads && Abs().Me() == tasks[cur].Abs()
      ensures tasks[cur].pc.l in Abs().locks && Abs().Me().pc == tasks[cur].pc && AtStatement(tasks[cur].pc)
    {
    }

    /** The statement of lock_acquire the running thread is at, on its PCB and on lock l. */
    method AcquireAt(l: Lid) returns (panic: Option<Site>, ghost me: Thread, ghost lk: Lock)
      requires Valid() && cur in tasks && l in locks && InAcquire(tasks[cur].pc) && tasks[cur].pc.l == l
      modifies tasks[cur], locks[l]
      ensures var s := old(Abs());
        && Did(Statement(s.cur, s.threads[s.cur], s.locks[l]), panic, me, lk)
        && Abs() == s.(threads := s.threads[s.cur := me], locks := s.locks[l := lk])
    {
      hide Statement, Did;
      panic := AcquireStatement(tasks[cur], locks[l], cur);
      MineWritten(l);
      me, lk := tasks[cur].Abs(), locks[l].Abs();
    }

    /** lock_acquire, statement by statement; the timer may come between any two. */
    method LockAcquireStatement() returns (panic: Option<Site>)
      requires Valid() && Abs().WellFormed() && InAcquire(tasks[cur].pc)
      modifies tasks[cur], LockCells()
      ensures Reached(LockStep(old(Abs())), panic)
    {
      hide State.WellFormed, LockStep, Statement, Ends, Did, Threads, Locks, Valid, Pcb.Abs, LockCell.Abs;
      ghost var s := Abs();
      MyLock();
      var l := tasks[cur].pc.l;
      ghost var me, lk;
      panic, me, lk := AcquireAt(l);
      StatementEnds(s, l, panic, me, lk, Abs());
    }

    /** The statement of lock_release the running thread is at, on its PCB and on lock l. */
    method ReleaseAt(l: Lid) returns (panic: Option<Site>, ghost me: Thread, ghost lk: Lock)
      requires Valid() && cur in tasks && l in locks && InRelease(tasks[cur].pc) && tasks[cur].pc.l == l
      modifies tasks[cur], locks[l]
      ensures var s := old(Abs());
        && Did(Statement(s.cur, s.threads[s.cur], s.locks[l]), panic, me, lk)
        && Abs() == s.(threads := s.threads[s.cur := me], locks := s.locks[l := lk])
    {
      hide Statement, Did;
      panic := ReleaseStatement(tasks[cur], locks[l], cur);
      MineWritten(l);
      me, lk := tasks[cur].Abs(), locks[l].Abs();
    }

    /** lock_release, statement by statement. */
    method LockReleaseStatement() returns (panic: Option<Site>)
      requires Valid() && Abs().WellFormed() && InRelease(tasks[cur].pc)
      modifies tasks[cur], LockCells()
      ensures Reached(LockStep(old(Abs())), panic)
    {
      hide State.WellFormed, LockStep, Statement, Ends, Did, Threads, Locks, Valid, Pcb.Abs, LockCell.Abs;
      ghost var s := Abs();
      MyLock();
      var l := tasks[cur].pc.l;
      ghost var me, lk;
      panic, me, lk := ReleaseAt(l);
      StatementEnds(s, l, panic, me, lk, Abs());
    }

    /** sema_down before thread_block: the running thread goes to the end of the waiters. */
    method JoinWaiters(l: Lid)
      requires Valid() && l in locks
      modifies locks[l]
      ensures Abs() == Joined(old(Abs()), l)
    {
      locks[l].waiters := locks[l].waiters + [cur];
      locks[l].arrived := locks[l].arrived + [cur];
      LockWritten(l);
    }

    /** sema_down behind its loop. */
    method TakeSema(l: Lid, oldStatus: bool) returns (panic: Option<Site>)
      requires Valid() && cur in tasks && l in locks && locks[l].value > 0
      modifies eflags, tasks[cur], locks[l]
      ensures var s := old(Abs());
              if s.locks[l].value != 1 then panic == Some(SemaDownValue)
              else && panic == None
                   && Abs() == s.SetLock(l, s.locks[l].(value := 0)).SetPc(AcquireHolder(l)).(intr := oldStatus)
    {
      locks[l].value := locks[l].value - 1;
      if locks[l].value != 0 { return Some(SemaDownValue); }
      tasks[cur].pc := AcquireHolder(l);
      var _ := eflags.SetStatus(oldStatus);
      MineWritten(l);
      panic := None;
    }

    /** The body of sema_down's loop up to the context switch. */
    method SleepOn(l: Lid, oldStatus: bool) returns (panic: Option<Site>)
      requires Valid() && Abs().WellFormed() && l in locks && locks[l].value == 0
      modifies eflags, `cur, `ready, Pcbs(), LockCells()
      ensures Reached(SemaDownLoop(old(Abs()), l, oldStatus), panic)
    {
      hide State.WellFormed, Block, Valid, Threads, Locks, Joined;
      ghost var s := Abs();
      LockValue(l);
      if cur in locks[l].waiters { return Some(SemaDownFind); }
      WaitingIs(s, l, oldStatus);
      hide SemaDownLoop;
      JoinWaiters(l);
      panic := ThreadBlock(Blocked, InSema(l, oldStatus));
    }

    /** sema_down from one test of the value to the context switch or to the return. */
    method SemaDownFrom(l: Lid, oldStatus: bool) returns (panic: Option<Site>)
      requires Valid() && Abs().WellFormed() && l in locks
      modifies eflags, `cur, `ready, Pcbs(), LockCells()
      ensures Reached(SemaDownLoop(old(Abs()), l, oldStatus), panic)
    {
      ghost var s := Abs();
      NamesKnown(s);
      LockValue(l);
      hide State.WellFormed, Block, Valid, Threads, Locks;
      if locks[l].value == 0 { panic := SleepOn(l, oldStatus); } else { panic := TakeSema(l, oldStatus); }
    }

    lemma WaitingIs(s: State, l: Lid, saved: bool)
      requires s.WellFormed() && l in s.locks && s.locks[l].value == 0 && s.cur !in s.locks[l].waiters
      ensures Joined(s, l).WellFormed() && l in Joined(s, l).locks
      ensures SemaDownLoop(s, l, saved) == Block(Joined(s, l), Blocked, InSema(l, saved))
    {
      StillWellFormed(s, s.Me(), Joined(s, l));
      hide Block;
    }

    method SemaDownEnter(l: Lid) returns (panic: Option<Site>)
      requires Valid() && Abs().WellFormed() && l in locks
      modifies eflags, `cur, `ready, Pcbs(), LockCells()
      ensures Reached(SemaDownLoop(old(Abs()).(intr := false), l, old(eflags.intr)), panic)
    {
      ghost var s := Abs();
      hide Valid, Threads, Locks, SemaDownLoop;
      var oldStatus := MaskInterrupts();
      panic := SemaDownFrom(l, oldStatus);
    }

    /** list_pop of the waiters in sema_up */
    method PopWaiter(l: Lid) returns (w: Tid)
      requires Valid() && l in locks && locks[l].waiters != []
      modifies locks[l]
      ensures w == old(locks[l].waiters)[0] && Abs() == Popped(old(Abs()), l)
    {
      w := locks[l].waiters[0];
      locks[l].waiters := locks[l].waiters[1..];
      locks[l].served := locks[l].served + [w];
      LockWritten(l);
    }

    /** The end of sema_up. */
    method GiveSema(l: Lid, oldStatus: bool) returns (panic: Option<Site>)
      requires Valid() && cur in tasks && l in locks
      modifies eflags, tasks[cur], locks[l]
      ensures old(locks[l].value) == 0 ==> panic == None && Abs() == Given(old(Abs()), l, oldStatus)
      ensures old(locks[l].value) != 0 ==> panic == Some(SemaUpOne)
    {
      locks[l].value := locks[l].value + 1;
      if locks[l].value != 1 { return Some(SemaUpOne); }
      tasks[cur].pc := Client;
      var _ := eflags.SetStatus(oldStatus);
      MineWritten(l);
      panic := None;
    }

    /** The branch of sema_up for a lock with waiters. */
    method WakeFirst(l: Lid) returns (panic: Option<Site>)
      requires Valid() && l in locks && locks[l].waiters != [] ==> locks[l].waiters[0] in tasks
      requires Valid() && l in locks
      modifies eflags, `ready, Pcbs(), locks[l]
      ensures Reached(FirstWoken(old(Abs()), l), panic)
    {
      panic := None;
      if locks[l].waiters != [] {
        var w := PopWaiter(l);
        hide Unblock;
        panic := ThreadUnblock(w);
      }
    }

    /** sema_up behind its first ASSERT. */
    method WakeAndGive(l: Lid, oldStatus: bool) returns (panic: Option<Site>)
      requires Valid() && cur in tasks && l in locks
      requires locks[l].waiters != [] ==> locks[l].waiters[0] in tasks
      requires FirstWoken(Abs(), l).Ok? ==> WakesOnly(Abs(), FirstWoken(Abs(), l).s, l)
      modifies eflags, `ready, Pcbs(), locks[l]
      ensures Reached(AfterWake(old(Abs()), l, oldStatus), panic)
    {
      hide Threads, Valid, FirstWoken, Given;
      panic := WakeFirst(l);
      if panic == None { panic := GiveSema(l, oldStatus); }
    }

    /** sema_up */
    method SemaUpWhole(l: Lid) returns (panic: Option<Site>)
      requires Valid() && Abs().WellFormed() && l in locks
      modifies eflags, `ready, Pcbs(), LockCells()
      ensures Reached(SemaUpBody(old(Abs()), l), panic)
    {
      hide State.WellFormed, Threads, Locks, Valid, SemaUpBody, FirstWoken, AfterWake, WakesOnly;
      ghost var s := Abs();
      MeKnown();
      LockValue(l);
      SemaUpIs(s, l);
      var oldStatus := MaskInterrupts();
      if locks[l].value != 0 { return Some(SemaUpZero); }
      panic := WakeAndGive(l, oldStatus);
    }

    lemma LockValue(l: Lid)
      requires l in locks
      ensures l in Abs().locks && Abs().locks[l] == locks[l].Abs() && Threads().Keys == tasks.Keys
    {
    }

    lemma SemaUpIs(s: State, l: Lid)
      requires s.WellFormed() && l in s.locks
      ensures s.locks[l].waiters != [] ==> s.locks[l].waiters[0] in s.threads
      ensures s.locks[l].value != 0 ==> SemaUpBody(s, l) == Panic(SemaUpZero)
      ensures var s0 := s.(intr := false);
              s.locks[l].value == 0 ==>
                && (FirstWoken(s0, l).Ok? ==> WakesOnly(s0, FirstWoken(s0, l).s, l))
                && SemaUpBody(s, l) == AfterWake(s0, l, s.intr)
    {
    }

    lemma StatementEnds(s: State, l: Lid, panic: Option<Site>, me: Thread, lk: Lock, s': State)
      requires s.WellFormed() && AtStatement(s.Me().pc) && s.Me().pc.l == l && l in s.locks
      requires Did(Statement(s.cur, s.Me(), s.locks[l]), panic, me, lk)
      requires s' == s.(threads := s.threads[s.cur := me], locks := s.locks[l := lk])
      ensures Ends(LockStep(s), panic, s')
    {
      hide State.WellFormed, Statement;
    }
  }
}
