/** The scheduler, the semaphores and the recursive locks as one transition system over a single processor.
    One step is one interruptible statement, or one section executed with interrupts off, up to a context switch.
    The timer may interrupt between any two steps at which the interrupt flag is on. */
module Scheduler {
  import opened Basics

  type Tid = nat   // address of a PCB
  type Lid = nat   // address of a lock

  const WORD_SIZE: nat := 0x1_0000_0000

  datatype Status = Running | Ready | Blocked | Waiting | Hanging | Died

  predicate Asleep(st: Status) { st in {Blocked, Waiting, Hanging} }

  /** Where a thread is. The last five say how the thread left the processor inside schedule();
      `saved` is the interrupt status its caller will get back. */
  datatype Pc =
    | Client
    | AcquireTest(l: Lid) | AcquireNest(l: Lid) | SemaDown(l: Lid)
    | AcquireHolder(l: Lid) | AcquireAssert(l: Lid) | AcquireRepeat(l: Lid)
    | ReleaseAssert(l: Lid) | ReleaseTest(l: Lid) | ReleaseNest(l: Lid) | ReleaseAssertOne(l: Lid)
    | ReleaseHolder(l: Lid) | ReleaseRepeat(l: Lid) | SemaUp(l: Lid)
    | UnblockTest(w: Tid) | UnblockPush(w: Tid)
    | Preempted(at: Pc)
    | InSema(l: Lid, saved: bool)
    | InBlock(saved: bool)
    | InYield(saved: bool)
    | Fresh
  {
    /** Switched out, or just switched back in and still inside schedule(). */
    predicate Suspended() { Preempted? || InSema? || InBlock? || InYield? || Fresh? }

    /** The statement the thread is at, seen through an interrupt. */
    function At(): Pc { if Preempted? then at else this }

    predicate OnLock() { !Client? && !OnUnblock() && !Preempted? && !InBlock? && !InYield? && !Fresh? }

    /** Inside a call of thread_unblock. */
    predicate OnUnblock() { UnblockTest? || UnblockPush? }
  }

  /** `intr` and `depth` are history: the interrupt flag as this thread's own code last left it, and how many
      of its lock_acquire calls on each lock are not yet matched by a lock_release. */
  datatype Thread = Thread(status: Status, priority: nat, ticks: nat, elapsed: nat,
                           pc: Pc, intr: bool, depth: map<Lid, nat>)
  {
    function Depth(l: Lid): nat { if l in depth then depth[l] else 0 }
  }

  /** `arrived` and `served` are history: every thread ever appended to, and popped from, `waiters`. */
  datatype Lock = Lock(holder: Option<Tid>, value: nat, waiters: seq<Tid>, repeat: nat,
                       arrived: seq<Tid>, served: seq<Tid>)

  const NEW_LOCK := Lock(None, 1, [], 0, [], [])

  /** `stolen` is history: thread_unblock has pushed a thread that was in the waiters of a lock. */
  datatype State = State(cur: Tid, intr: bool, ready: seq<Tid>, all: seq<Tid>,
                         threads: map<Tid, Thread>, locks: map<Lid, Lock>, ticks: nat, stolen: bool)
  {
    /** Every name the code dereferences exists. */
    ghost predicate WellFormed() {
      && cur in threads
      && (forall i :: 0 <= i < |ready| ==> ready[i] in threads)
      && (forall l, i :: l in locks && 0 <= i < |locks[l].waiters| ==> locks[l].waiters[i] in threads)
      && (forall t :: t in threads && threads[t].pc.At().OnLock() ==> threads[t].pc.At().l in locks)
      && (forall t :: t in threads && threads[t].pc.At().OnUnblock() ==> threads[t].pc.At().w in threads)
    }

    function Me(): Thread
      requires cur in threads
    {
      threads[cur]
    }

    function SetMe(th: Thread): State { this.(threads := threads[cur := th]) }

    function SetPc(pc: Pc): State
      requires cur in threads
    {
      SetMe(Me().(pc := pc))
    }

    function SetLock(l: Lid, lk: Lock): State { this.(locks := locks[l := lk]) }
  }

  /** Moving on does not lose a name the code dereferences. */
  lemma StillWellFormed(s: State, me: Thread, s': State)
    requires s.WellFormed() && (me.pc.At().OnLock() ==> me.pc.At().l in s.locks)
    requires me.pc.At().OnUnblock() ==> me.pc.At().w in s.threads
    requires s'.cur == s.cur && s'.threads == s.threads[s.cur := me] && s'.locks.Keys == s.locks.Keys
    requires forall l, t :: l in s.locks && t in s'.locks[l].waiters ==> t in s.locks[l].waiters || t == s.cur
    requires s'.ready == s.ready || s'.ready == s.ready + [s.cur]
    ensures s'.WellFormed()
  {
    forall l, i | l in s'.locks && 0 <= i < |s'.locks[l].waiters| ensures s'.locks[l].waiters[i] in s'.threads {
      assert s'.locks[l].waiters[i] in s.locks[l].waiters || s'.locks[l].waiters[i] == s.cur;
    }
  }

  /** The ASSERT or PANIC that stops the machine. */
  datatype Site =
    | ScheduleIntr | ScheduleFind | ScheduleEmpty
    | BlockStat | UnblockStat | UnblockFind | YieldFind | StartFind
    | SemaDownFind | SemaDownValue | SemaUpZero | SemaUpOne
    | AcquireRepeatZero | ReleaseHolderMe | ReleaseRepeatOne

  datatype Outcome = Ok(s: State) | Panic(site: Site)

  // ---------------------------------------------------------------- thread.c

  /** schedule(): requeue a thread that is still running, then give the processor to the head of the ready list. */
  function Schedule(s: State): Outcome
    requires s.WellFormed()
  {
    if s.intr then Panic(ScheduleIntr)
    else if s.Me().status.Running? && s.cur in s.ready then Panic(ScheduleFind)
    else
      var s1 := if s.Me().status.Running?
                then s.SetMe(s.Me().(ticks := s.Me().priority, status := Ready)).(ready := s.ready + [s.cur])
                else s;
      if s1.ready == [] then Panic(ScheduleEmpty)
      else
        assert s1.ready[0] in s1.threads by { assert s1.ready[0] == s.cur || s1.ready[0] == s.ready[0]; }
        var next := s1.ready[0];
        Ok(s1.(ready := s1.ready[1..], cur := next,
               threads := s1.threads[next := s1.threads[next].(status := Running)]))
  }

  /** thread_block(stat) by the running thread, which will resume at `resume`. */
  function Block(s: State, stat: Status, resume: Pc): Outcome
    requires s.WellFormed() && (resume.At().OnLock() ==> resume.At().l in s.locks) && !resume.At().OnUnblock()
  {
    if !Asleep(stat) then Panic(BlockStat)
    else Schedule(s.SetMe(s.Me().(status := stat, pc := resume)).(intr := false))
  }

  /** thread_unblock(t) behind its ASSERT, with interrupts off: the thread goes to the front of the ready list, unless
      somebody else has put it there since the ASSERT. */
  function PushReady(s: State, t: Tid): Outcome
    requires t in s.threads
  {
    if s.threads[t].status == Ready then Ok(s)
    else if t in s.ready then Panic(UnblockFind)
    else Ok(s.(threads := s.threads[t := s.threads[t].(status := Ready)], ready := [t] + s.ready))
  }

  /** thread_unblock(t) by a caller with interrupts off. */
  function Unblock(s: State, t: Tid): Outcome
    requires t in s.threads
  {
    if !Asleep(s.threads[t].status) then Panic(UnblockStat) else PushReady(s, t)
  }

  function Yield(s: State): Outcome
    requires s.WellFormed()
  {
    if s.cur in s.ready then Panic(YieldFind)
    else
      Schedule(s.SetMe(s.Me().(status := Ready, pc := InYield(s.intr))).(ready := s.ready + [s.cur], intr := false))
  }

  /** init_thread and the two list_append calls of thread_start, for a PCB page not in use. */
  function Start(s: State, t: Tid, prio: nat): Outcome
    requires t !in s.threads
  {
    if t in s.ready || t in s.all then Panic(StartFind)
    else
      var p := prio % 256;
      Ok(s.(threads := s.threads[t := Thread(Ready, p, p, 0, Fresh, false, map[])],
            ready := s.ready + [t], all := s.all + [t]))
  }

  // ------------------------------------------------------------------ timer.c

  /** intr_timer_handler behind an interrupt gate: the gate clears the flag, iretd restores it. */
  function Timer(s: State): Outcome
    requires s.WellFormed()
  {
    var me := s.Me();
    var counted := me.(elapsed := (me.elapsed + 1) % WORD_SIZE);
    var s1 := s.(ticks := (s.ticks + 1) % WORD_SIZE);
    if me.ticks == 0
    then Schedule(s1.SetMe(counted.(pc := Preempted(me.pc))).(intr := false))
    else Ok(s1.SetMe(counted.(ticks := me.ticks - 1)))
  }

  // ------------------------------------------------------------------- sync.c

  /** The loop of sema_down from one test of `value` to the switch or to the end; interrupts are off. */
  function SemaDownLoop(s: State, l: Lid, saved: bool): Outcome
    requires s.WellFormed() && l in s.locks
  {
    var lk := s.locks[l];
    if lk.value == 0 then
      if s.cur in lk.waiters then Panic(SemaDownFind)
      else Block(s.SetLock(l, lk.(waiters := lk.waiters + [s.cur], arrived := lk.arrived + [s.cur])),
                 Blocked, InSema(l, saved))
    else if lk.value - 1 != 0 then Panic(SemaDownValue)
    else Ok(s.SetLock(l, lk.(value := 0)).SetPc(AcquireHolder(l)).(intr := saved))
  }

  function SemaUpBody(s: State, l: Lid): Outcome
    requires s.WellFormed() && l in s.locks
  {
    var lk := s.locks[l];
    if lk.value != 0 then Panic(SemaUpZero)
    else
      var woken := if lk.waiters == [] then Ok(s)
                   else Unblock(s.SetLock(l, lk.(waiters := lk.waiters[1..], served := lk.served + [lk.waiters[0]])),
                                lk.waiters[0]);
      match woken
      case Panic(p) => Panic(p)
      case Ok(s1) => Ok(s1.SetLock(l, s1.locks[l].(value := 1)).SetPc(Client))
  }

  /** A statement of lock_acquire or lock_release outside the semaphore operations. */
  predicate AtStatement(pc: Pc) { pc.OnLock() && !pc.SemaDown? && !pc.SemaUp? && !pc.InSema? }

  datatype Effect = Done(me: Thread, lk: Lock) | Fails(site: Site)

  /** Its effect on the PCB of the running thread `cur` and on the lock it names. */
  function Statement(cur: Tid, me: Thread, lk: Lock): Effect
    requires AtStatement(me.pc)
  {
    var l := me.pc.l;
    var more := me.depth[l := me.Depth(l) + 1];
    var less := me.depth[l := if me.Depth(l) == 0 then 0 else me.Depth(l) - 1];
    match me.pc
    case AcquireTest(_) => Done(me.(pc := if lk.holder == Some(cur) then AcquireNest(l) else SemaDown(l)), lk)
    case AcquireNest(_) => Done(me.(pc := Client, depth := more), lk.(repeat := (lk.repeat + 1) % WORD_SIZE))
    case AcquireHolder(_) => Done(me.(pc := AcquireAssert(l)), lk.(holder := Some(cur)))
    case AcquireAssert(_) => if lk.repeat != 0 then Fails(AcquireRepeatZero) else Done(me.(pc := AcquireRepeat(l)), lk)
    case AcquireRepeat(_) => Done(me.(pc := Client, depth := more), lk.(repeat := 1))
    case ReleaseAssert(_) =>
      if lk.holder != Some(cur) then Fails(ReleaseHolderMe) else Done(me.(pc := ReleaseTest(l)), lk)
    case ReleaseTest(_) => Done(me.(pc := if lk.repeat > 1 then ReleaseNest(l) else ReleaseAssertOne(l)), lk)
    case ReleaseNest(_) => Done(me.(pc := Client, depth := less), lk.(repeat := (lk.repeat - 1) % WORD_SIZE))
    case ReleaseAssertOne(_) =>
      if lk.repeat != 1 then Fails(ReleaseRepeatOne) else Done(me.(pc := ReleaseHolder(l)), lk)
    case ReleaseHolder(_) => Done(me.(pc := ReleaseRepeat(l)), lk.(holder := None))
    case ReleaseRepeat(_) => Done(me.(pc := SemaUp(l), depth := less), lk.(repeat := 0))
  }

  /** thread_unblock, behind its ASSERT, is about to push a thread that sleeps on a lock: it will be in two queues. */
  predicate StealsWaiter(s: State)
    requires s.WellFormed()
  {
    && s.Me().pc.UnblockPush?
    && Asleep(s.threads[s.Me().pc.w].status) && s.threads[s.Me().pc.w].pc.InSema?
  }

  /** What the running thread does next inside lock_acquire, lock_release or thread_unblock. */
  function LockStep(s: State): Outcome
    requires s.WellFormed() && !s.Me().pc.Suspended() && !s.Me().pc.Client?
  {
    if s.Me().pc.UnblockTest? then
      if !Asleep(s.threads[s.Me().pc.w].status) then Panic(UnblockStat) else Ok(s.SetPc(UnblockPush(s.Me().pc.w)))
    else if s.Me().pc.UnblockPush? then
      match PushReady(s, s.Me().pc.w)
      case Panic(site) => Panic(site)
      case Ok(s1) => Ok(s1.SetPc(Client).(stolen := s.stolen || StealsWaiter(s)))
    else if s.Me().pc.SemaDown? then SemaDownLoop(s.(intr := false), s.Me().pc.l, s.intr)
    else if s.Me().pc.SemaUp? then SemaUpBody(s, s.Me().pc.l)
    else var l := s.Me().pc.l;
         match Statement(s.cur, s.Me(), s.locks[l])
         case Done(me, lk) => Ok(s.SetMe(me).SetLock(l, lk))
         case Fails(site) => Panic(site)
  }

  /** What a thread does first after schedule() switched it back in. */
  function Resume(s: State): Outcome
    requires s.WellFormed() && s.Me().pc.Suspended()
  {
    var me := s.Me();
    match me.pc
    case Preempted(at) => Ok(s.SetPc(at).(intr := true))                        // iretd
    case InSema(l, saved) => SemaDownLoop(s, l, saved)                          // test the value again
    case InBlock(saved) => Ok(s.SetPc(Client).(intr := saved))
    case InYield(saved) => Ok(s.SetPc(Client).(intr := saved))
    case Fresh => Ok(s.SetMe(me.(pc := Client, intr := true)).(intr := true))   // kernel_thread
  }

  // -------------------------------------------------------------------- steps

  datatype Call =
    | Acquire(l: Lid) | Release(l: Lid) | YieldCall | BlockCall(stat: Status) | UnblockCall(t: Tid)
    | SetIntr(on: bool) | StartCall(t: Tid, prio: nat) | InitLock(l: Lid)

  datatype Action = TimerInterrupt | Exec | Call(c: Call)

  /** What the code leaves to its callers: semaphores are used only through locks, only holders release, a lock is
      initialised once and nested less than 2^32 deep. */
  ghost predicate Allowed(s: State, c: Call)
    requires s.WellFormed()
  {
    match c
    case Acquire(l) => l in s.locks && s.Me().Depth(l) < WORD_SIZE - 1
    case Release(l) => l in s.locks && s.Me().Depth(l) > 0
    case YieldCall => true
    case BlockCall(stat) => Asleep(stat)
    case UnblockCall(t) => t in s.threads
    case SetIntr(_) => true
    case StartCall(t, _) => t !in s.threads
    case InitLock(l) => l !in s.locks
  }

  /** The flag gates the timer; otherwise only the running thread moves. */
  ghost predicate Enabled(s: State, a: Action)
    requires s.WellFormed()
  {
    match a
    case TimerInterrupt => s.intr
    case Exec => !s.Me().pc.Client?
    case Call(c) => s.Me().pc.Client? && Allowed(s, c)
  }

  function DoCall(s: State, c: Call): Outcome
    requires s.WellFormed() && Allowed(s, c)
  {
    match c
    case Acquire(l) => Ok(s.SetPc(AcquireTest(l)))
    case Release(l) => Ok(s.SetPc(ReleaseAssert(l)))
    case YieldCall => Yield(s)
    case BlockCall(stat) => Block(s, stat, InBlock(s.intr))
    case UnblockCall(t) => Ok(s.SetPc(UnblockTest(t)))
    case SetIntr(on) => Ok(s.SetMe(s.Me().(intr := on)).(intr := on))
    case StartCall(t, prio) => Start(s, t, prio)
    case InitLock(l) => Ok(s.SetLock(l, NEW_LOCK))
  }

  function Next(s: State, a: Action): Outcome
    requires s.WellFormed() && Enabled(s, a)
  {
    match a
    case TimerInterrupt => Timer(s)
    case Exec => if s.Me().pc.Suspended() then Resume(s) else LockStep(s)
    case Call(c) => DoCall(s, c)
  }

  /** threads_init: main runs, nothing else exists, interrupts are still off. */
  function Boot(main: Tid): State {
    State(main, false, [], [main], map[main := Thread(Running, 31, 31, 0, Client, false, map[])], map[], 0, false)
  }

  /** A run without a panic: state i goes to state i+1 by action i. */
  ghost predicate IsRun(trace: seq<State>, acts: seq<Action>) {
    && |trace| == |acts| + 1
    && forall i {:trigger acts[i]} :: 0 <= i < |acts| ==> CanStep(trace[i], acts[i], trace[i + 1])
  }

  ghost predicate CanStep(s: State, a: Action, s': State) {
    s.WellFormed() && Enabled(s, a) && Next(s, a) == Ok(s')
  }
}
