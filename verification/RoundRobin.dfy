/** How many timer interrupts a ready thread waits for the processor. */
module RoundRobin {
  import opened Scheduler
  import opened SchedulerInvariants
  import opened SchedulerSteps

  /** Timer interrupts used up by the threads in front of t. */
  ghost function InFront(threads: map<Tid, Thread>, q: seq<Tid>, t: Tid): nat
    requires t in q && forall i :: 0 <= i < |q| ==> q[i] in threads
  {
    if q[0] == t then 0 else threads[q[0]].ticks + 1 + InFront(threads, q[1..], t)
  }

  /** The number of the timer interrupt that gives t the processor, if nothing but timer interrupts happens. */
  ghost function Wait(s: State, t: Tid): nat
    requires s.WellFormed() && t in s.ready
  {
    s.Me().ticks + 1 + InFront(s.threads, s.ready, t)
  }

  lemma InFrontSame(a: map<Tid, Thread>, b: map<Tid, Thread>, q: seq<Tid>, t: Tid)
    requires t in q
    requires forall i :: 0 <= i < |q| ==> q[i] in a && q[i] in b && b[q[i]].ticks == a[q[i]].ticks
    ensures InFront(b, q, t) == InFront(a, q, t)
  {
    if q[0] != t { InFrontSame(a, b, q[1..], t); }
  }

  lemma InFrontAppend(threads: map<Tid, Thread>, q: seq<Tid>, x: Tid, t: Tid)
    requires t in q && x in threads && forall i :: 0 <= i < |q| ==> q[i] in threads
    ensures InFront(threads, q + [x], t) == InFront(threads, q, t)
  {
    if q[0] != t {
      assert (q + [x])[1..] == q[1..] + [x];
      InFrontAppend(threads, q[1..], x, t);
    }
  }

  lemma InFrontBound(threads: map<Tid, Thread>, q: seq<Tid>, k: nat)
    requires k < |q| && forall i :: 0 <= i < |q| ==> q[i] in threads && threads[q[i]].ticks < 256
    requires forall i :: 0 <= i < k ==> q[i] != q[k]
    ensures InFront(threads, q, q[k]) <= 256 * k
  {
    if k > 0 { InFrontBound(threads, q[1..], k - 1); }
  }

  /** Index k in the ready list waits at most 256 * (k + 1) interrupts. */
  lemma WaitBound(s: State, k: nat)
    requires Reachable(s) && s.WellFormed() && k < |s.ready|
    ensures s.ready[k] in s.ready && Wait(s, s.ready[k]) <= 256 * (k + 1)
  {
    ReachableInv(s);
    hide Reachable, Queues, Flags, Locks;
    assert NoDup(s.ready) by { QueuesNoDup(s); }
    InFrontBound(s.threads, s.ready, k);
  }

  lemma QueuesNoDup(s: State)
    requires Queues(s)
    ensures NoDup(s.ready)
  {
  }

  // -------------------------------------------------------------------- steps

  /** A thread is pushed to the front of the ready list. */
  ghost predicate Wakes(s: State, a: Action)
    requires s.WellFormed() && Enabled(s, a)
  {
    a.Exec? && if s.Me().pc.UnblockPush? then s.threads[s.Me().pc.w].status != Ready
               else s.Me().pc.SemaUp? && s.locks[s.Me().pc.l].waiters != []
  }

  ghost function Pushed(s: State): Tid
    requires s.WellFormed() && Enabled(s, Exec) && Wakes(s, Exec)
  {
    if s.Me().pc.UnblockPush? then s.Me().pc.w else s.locks[s.Me().pc.l].waiters[0]
  }

  /** t got the processor, or is still ready and now waits `wait` interrupts. */
  ghost predicate Closer(s: State, s': State, t: Tid, wait: int) {
    && s'.WellFormed()
    && (s'.cur == t || (t in s'.ready && Wait(s', t) <= wait))
  }

  lemma ReadyInThreads(s: State)
    requires s.WellFormed()
    ensures s.cur in s.threads && forall i :: 0 <= i < |s.ready| ==> s.ready[i] in s.threads
  {
  }

  /** The head leaves the list, x may join it at the end. */
  lemma RestInFront(a: map<Tid, Thread>, b: map<Tid, Thread>, q: seq<Tid>, x: Tid, t: Tid)
    requires NoDup(q) && t in q && t != q[0] && x in b
    requires forall i :: 0 <= i < |q| ==> q[i] in a && q[i] in b && b[q[i]].ticks == a[q[i]].ticks
    ensures t in q[1..] && InFront(b, q[1..], t) == InFront(a, q, t) - (a[q[0]].ticks + 1)
    ensures InFront(b, q[1..] + [x], t) == InFront(b, q[1..], t)
  {
    PopHead(q, t);
    var rest := q[1..];
    assert forall i :: 0 <= i < |rest| ==> rest[i] == q[i + 1];
    InFrontSame(a, b, rest, t);
    InFrontAppend(b, rest, x, t);
  }

  lemma HandoverWait(s: State, me: Thread, s': State, t: Tid)
    requires Handover(s, me, s') && s.WellFormed() && s'.WellFormed() && t in s.ready && s.cur !in s.ready
    requires NoDup(s.ready)
    ensures s'.cur == s.ready[0]
    ensures t != s.ready[0] ==> t in s'.ready && Wait(s', t) == Wait(s, t) - (s.Me().ticks + 1)
  {
    ReadyInThreads(s);
    HandoverReadyList(s, me, s');
    hide Handover, InFront, State.WellFormed;
    if t != s.ready[0] { RestInFront(s.threads, s'.threads, s.ready, s.cur, t); }
  }

  lemma HandoverReadyList(s: State, me: Thread, s': State)
    requires Handover(s, me, s') && s.ready != [] && s.cur !in s.ready
    requires forall i :: 0 <= i < |s.ready| ==> s.ready[i] in s.threads
    ensures s'.cur == s.ready[0] && s.cur in s'.threads && s.ready[0] in s'.threads
    ensures s'.ready == s.ready[1..] + if me.status.Ready? then [s.cur] else []
    ensures forall i :: 0 <= i < |s.ready| ==>
              s.ready[i] in s'.threads && s'.threads[s.ready[i]].ticks == s.threads[s.ready[i]].ticks
  {
  }

  lemma LocalWait(s: State, me: Thread, s': State, t: Tid)
    requires s.cur in s.threads && s'.cur == s.cur && s'.ready == s.ready && s'.threads == s.threads[s.cur := me]
    requires s.WellFormed() && s'.WellFormed() && t in s.ready && s.cur !in s.ready
    ensures Wait(s', t) - me.ticks == Wait(s, t) - s.Me().ticks
  {
    InFrontSame(s.threads, s'.threads, s.ready, t);
  }

  lemma NextWellFormed(s: State, a: Action, s': State)
    requires Inv(s) && CanStep(s, a, s')
    ensures s'.WellFormed()
  {
    StepKept(s, a, s');
    hide CanStep, Flags, Locks, Clocks;
    InvWellFormed(s');
  }

  /** What the lemmas below use of the invariant. */
  ghost predicate Lean(s: State) {
    s.WellFormed() && MeOk(s) && NoDup(s.ready)
  }

  /** A timer interrupt brings t exactly one step closer. */
  lemma TimerCloser(s: State, s': State, t: Tid)
    requires s.WellFormed() && s'.WellFormed() && s.intr && Timer(s) == Ok(s') && t in s.ready
    requires Lean(s)
    ensures if Wait(s, t) == 1 then s'.cur == t else s'.cur != t && t in s'.ready && Wait(s', t) == Wait(s, t) - 1
  {
    var me := s.Me();
    if me.ticks == 0 {
      var left := me.(elapsed := (me.elapsed + 1) % WORD_SIZE, pc := Preempted(me.pc),
                      ticks := me.priority, status := Ready);
      TimerExpires(s, left, s');
      hide State.WellFormed, Handover, Timer, Schedule, MeOk;
      HandoverWait(s, left, s', t);
    } else {
      hide State.WellFormed, Schedule;
      LocalWait(s, s'.Me(), s', t);
    }
  }

  lemma CallCloser(s: State, c: Call, s': State, t: Tid)
    requires CanStep(s, Call(c), s') && s'.WellFormed() && t in s.ready
    requires Lean(s)
    ensures Closer(s, s', t, Wait(s, t))
  {
    hide State.WellFormed, Schedule, Handover, ThreadShape, FlagOk, DepthOk;
    match c
    case YieldCall =>
      hide Yield;
      YieldHandsOver(s, s');
      HandoverWait(s, s.Me().(status := Ready, pc := InYield(s.intr)), s', t);
    case BlockCall(stat) =>
      hide Block;
      BlockHandsOver(s, stat, s');
      HandoverWait(s, s.Me().(status := stat, pc := InBlock(s.intr)), s', t);
    case StartCall(x, prio) =>
      assert forall i :: 0 <= i < |s.ready| ==> s.ready[i] in s.threads by { ReadyInThreads(s); }
      InFrontSame(s.threads, s'.threads, s.ready, t);
      InFrontAppend(s'.threads, s.ready, x, t);
    case InitLock(_) => LocalWait(s, s.Me(), s', t);
    case UnblockCall(_) => LocalWait(s, s'.Me(), s', t);
    case Acquire(_) => LocalWait(s, s'.Me(), s', t);
    case Release(_) => LocalWait(s, s'.Me(), s', t);
    case SetIntr(_) => LocalWait(s, s'.Me(), s', t);
  }

  lemma SemaDownCloser(s: State, l: Lid, saved: bool, s': State, t: Tid)
    requires s.WellFormed() && s'.WellFormed() && l in s.locks && SemaDownLoop(s.(intr := false), l, saved) == Ok(s')
    requires t in s.ready && s.cur !in s.ready && NoDup(s.ready)
    ensures Closer(s, s', t, Wait(s, t))
    ensures s.locks[l].value != 0 ==> s'.cur == s.cur && t in s'.ready && Wait(s', t) == Wait(s, t)
  {
    if s.locks[l].value == 0 {
      SleepHandsOver(s, l, saved, s');
      hide State.WellFormed, Handover, SemaDownLoop;
      HandoverWait(s, s.Me().(status := Blocked, pc := InSema(l, saved)), s', t);
    } else {
      hide State.WellFormed, Schedule;
      LocalWait(s, s'.Me(), s', t);
    }
  }

  lemma ExecCloser(s: State, s': State, t: Tid)
    requires CanStep(s, Exec, s') && !Wakes(s, Exec) && s'.WellFormed() && t in s.ready
    requires Lean(s)
    ensures Closer(s, s', t, Wait(s, t))
    ensures IsResume(s, Exec) ==> s'.cur == s.cur && t in s'.ready && Wait(s', t) == Wait(s, t)
  {
    WellFormedMe(s);
    hide State.WellFormed, ThreadShape, FlagOk, DepthOk, SemaDownLoop, SemaUpBody, Statement, PushReady;
    if AtStatement(s.Me().pc) {
      StatementStep(s, s');
      var e := Statement(s.cur, s.Me(), s.locks[s.Me().pc.l]);
      StatementEffect(s.cur, s.Me(), s.locks[s.Me().pc.l], e.me, e.lk);
      hide CanStep;
      LocalWait(s, e.me, s', t);
    } else if s.Me().pc.SemaDown? {
      SemaDownCloser(s, s.Me().pc.l, s.intr, s', t);
    } else if s.Me().pc.InSema? {
      assert s.(intr := false) == s;
      SemaDownCloser(s, s.Me().pc.l, s.Me().pc.saved, s', t);
    } else if s.Me().pc.SemaUp? {
      SemaUpAlone(s, s.Me().pc.l, s');
      LocalWait(s, s'.Me(), s', t);
    } else if s.Me().pc.OnUnblock() {
      UnblockSteps(s, s');
      LocalWait(s, s'.Me(), s', t);
    } else {
      LocalWait(s, s'.Me(), s', t);
    }
  }

  /** No step but a push to the front ever makes t wait longer; a timer interrupt makes it wait exactly one less. */
  lemma NeverFarther(s: State, a: Action, s': State, t: Tid)
    requires Reachable(s) && CanStep(s, a, s') && !Wakes(s, a) && t in s.ready
    ensures Closer(s, s', t, if a.TimerInterrupt? then Wait(s, t) - 1 else Wait(s, t))
    ensures a.TimerInterrupt? ==> (s'.cur == t <==> Wait(s, t) == 1)
    ensures a.TimerInterrupt? && Wait(s, t) != 1 ==> Wait(s', t) == Wait(s, t) - 1
    ensures IsResume(s, a) ==> s'.cur == s.cur && t in s'.ready && Wait(s', t) == Wait(s, t)
  {
    ReachableInv(s);
    hide Reachable, Queues, Flags, Locks, Clocks, Timer, DoCall, LockStep, Resume;
    assert Lean(s) by { QueuesNoDup(s); InvMe(s); }
    NextWellFormed(s, a, s');
    hide State.WellFormed, MeOk;
    match a
    case TimerInterrupt => TimerCloser(s, s', t);
    case Exec => ExecCloser(s, s', t);
    case Call(c) => CallCloser(s, c, s', t);
  }

  /** What a thread does first after it was switched in, unless it goes to sleep on a lock again. */
  ghost predicate IsResume(s: State, a: Action) {
    && a.Exec? && s.cur in s.threads && s.Me().pc.Suspended()
    && (s.Me().pc.InSema? ==> s.Me().pc.l in s.locks && s.locks[s.Me().pc.l].value != 0)
  }

  lemma PushStep(s: State, s': State)
    requires Inv(s) && CanStep(s, Exec, s') && Wakes(s, Exec)
    ensures Wake(s, s.Me().(pc := Client), Pushed(s), s')
  {
    hide Inv, Wake, SemaUpBody, PushReady;
    InvQueues(s);
    QueuesMe(s);
    if s.Me().pc.SemaUp? {
      if !s.stolen { FirstWaiter(s, s.Me().pc.l); }
      hide Queues;
      SemaUpIsWake(s, s.Me().pc.l, s');
    } else {
      NotRunning(s, s.Me().pc.w);
      hide Queues;
      PushIsWake(s, s');
    }
  }

  lemma PushedInFront(s: State, s': State)
    requires CanStep(s, Exec, s') && Wakes(s, Exec)
    requires Inv(s)
    ensures Pushed(s) in s.threads && Pushed(s) in s'.threads && Pushed(s) !in s.ready
    ensures s'.cur == s.cur && s'.ready == [Pushed(s)] + s.ready && s'.threads.Keys == s.threads.Keys
    ensures forall t :: t in s.threads ==> s'.threads[t].ticks == s.threads[t].ticks
  {
    PushStep(s, s');
    hide CanStep;
    AsleepNotReady(s, Pushed(s));
    hide Inv, Pushed;
  }

  /** A push to the front, by thread_unblock or by the wake-up in sema_up, makes t wait for exactly one more slice. */
  lemma PushWaits(s: State, s': State, t: Tid)
    requires Reachable(s) && CanStep(s, Exec, s') && Wakes(s, Exec) && t in s.ready && s'.WellFormed()
    ensures Pushed(s) in s.threads
    ensures t in s'.ready && Wait(s', t) == Wait(s, t) + s.threads[Pushed(s)].ticks + 1
  {
    hide Reachable, Inv;
    ReachableInv(s);
    ReadyInThreads(s);
    PushedInFront(s, s');
    hide CanStep, State.WellFormed, Pushed;
    assert s'.ready[1..] == s.ready;
    InFrontSame(s.threads, s'.threads, s.ready, t);
  }

  lemma AsleepNotReady(s: State, w: Tid)
    requires Inv(s) && w in s.threads && Asleep(s.threads[w].status)
    ensures w !in s.ready
  {
  }

  // --------------------------------------------------------------------- runs

  ghost function Timers(acts: seq<Action>): nat {
    if acts == [] then 0 else (if acts[0].TimerInterrupt? then 1 else 0) + Timers(acts[1..])
  }

  lemma TimersLast(acts: seq<Action>)
    requires acts != [] && acts[|acts| - 1].TimerInterrupt?
    ensures Timers(acts) > 0
  {
    if !acts[0].TimerInterrupt? {
      assert acts[1..][|acts[1..]| - 1] == acts[|acts| - 1];
      TimersLast(acts[1..]);
    }
  }

  lemma StepEnabled(s: State, a: Action, s': State)
    requires CanStep(s, a, s')
    ensures s.WellFormed() && Enabled(s, a)
  {
  }

  lemma CurNotReady(s: State)
    requires Reachable(s)
    ensures s.cur !in s.ready
  {
    hide Reachable;
    ReachableInv(s);
    InvMe(s);
  }

  ghost predicate QuietStep(s: State, a: Action, s': State) { CanStep(s, a, s') && !Wakes(s, a) }

  /** Whatever the threads do, short of waking others, t gets the processor within Wait timer interrupts. */
  lemma {:induction false} WaitIsBound(trace: seq<State>, acts: seq<Action>, t: Tid)
    requires |trace| == |acts| + 1 && Reachable(trace[0])
    requires forall i {:trigger acts[i]} :: 0 <= i < |acts| ==> QuietStep(trace[i], acts[i], trace[i + 1])
    requires trace[0].WellFormed() && t in trace[0].ready
    requires forall i :: 0 <= i < |trace| ==> trace[i].cur != t
    ensures Timers(acts) < Wait(trace[0], t)
    decreases |acts|
  {
    hide Reachable, CanStep, State.WellFormed;
    if acts != [] {
      assert QuietStep(trace[0], acts[0], trace[0 + 1]) && trace[1].cur != t;
      StepEnabled(trace[0], acts[0], trace[1]);
      NeverFarther(trace[0], acts[0], trace[1], t);
      ReachableNext(trace[0], acts[0], trace[1]);
      hide QuietStep;
      var acts', trace' := acts[1..], trace[1..];
      forall i | 0 <= i < |acts'| ensures QuietStep(trace'[i], acts'[i], trace'[i + 1]) {
        assert acts[i + 1] == acts'[i];
      }
      WaitIsBound(trace', acts', t);
    }
  }

  /** Under timer interrupts alone, t gets the processor on interrupt number Wait, and not before. */
  lemma {:induction false} WaitIsExact(trace: seq<State>, acts: seq<Action>, t: Tid)
    requires IsRun(trace, acts) && Reachable(trace[0])
    requires trace[0].WellFormed() && t in trace[0].ready
    requires forall i :: 0 <= i < |acts| ==> acts[i].TimerInterrupt? || IsResume(trace[i], acts[i])
    ensures Timers(acts) < Wait(trace[0], t) ==>
              var s := trace[|acts|];
              s.WellFormed() && s.cur != t && t in s.ready && Wait(s, t) == Wait(trace[0], t) - Timers(acts)
    ensures Timers(acts) == Wait(trace[0], t) && acts[|acts| - 1].TimerInterrupt? ==> trace[|acts|].cur == t
    decreases |acts|
  {
    hide Reachable, CanStep, State.WellFormed;
    CurNotReady(trace[0]);
    if acts != [] {
      assert CanStep(trace[0], acts[0], trace[0 + 1]);
      ReachableNext(trace[0], acts[0], trace[1]);
      StepEnabled(trace[0], acts[0], trace[1]);
      NeverFarther(trace[0], acts[0], trace[1], t);
      var acts', trace' := acts[1..], trace[1..];
      forall i | 0 <= i < |acts'|
        ensures CanStep(trace'[i], acts'[i], trace'[i + 1])
        ensures acts'[i].TimerInterrupt? || IsResume(trace'[i], acts'[i])
      {
        assert acts[i + 1] == acts'[i];
        assert CanStep(trace[i + 1], acts[i + 1], trace[i + 1 + 1]);
      }
      if trace[1].cur != t {
        WaitIsExact(trace', acts', t);
        if acts' != [] { assert acts'[|acts'| - 1] == acts[|acts| - 1]; }
      } else if acts' != [] && acts[|acts| - 1].TimerInterrupt? {
        assert acts'[|acts'| - 1] == acts[|acts| - 1];
        TimersLast(acts');
      }
    }
  }
}
