/** What every reachable state of the scheduler satisfies. */
module SchedulerInvariants {
  import opened Basics
  import opened Scheduler

  ghost predicate NoDup(q: seq<Tid>) { forall i, j :: 0 <= i < j < |q| ==> q[i] != q[j] }

  /** Running, ready and waiting threads partition the threads; only the running thread is not suspended. */
  ghost predicate Queues(s: State) {
    && s.cur in s.threads
    && NoDup(s.ready) && NoDup(s.all)
    && (forall t :: t in s.all <==> t in s.threads)
    && (forall t :: t in s.threads ==> (s.threads[t].status == Running <==> t == s.cur))
    && (forall t :: t in s.ready <==> t in s.threads && s.threads[t].status == Ready)
    && (forall t :: t in s.threads ==> ThreadShape(s, t))
    && (forall l :: l in s.locks ==> WaitersOk(s, l))
  }

  ghost predicate ThreadShape(s: State, t: Tid)
    requires t in s.threads
  {
    var th := s.threads[t];
    && (t != s.cur ==> th.pc.Suspended())
    && !th.status.Died?
    && (Asleep(th.status) ==> th.pc.InBlock? || (th.pc.InSema? && th.status.Blocked?))
    && !th.pc.At().Preempted?
    && (th.pc.Preempted? ==> !th.pc.at.Suspended())
    && Names(s, t, th.pc.At())
    && th.depth.Keys <= s.locks.Keys
  }

  /** What the code of thread t names at pc exists; nobody unblocks himself. */
  ghost predicate Names(s: State, t: Tid, pc: Pc) {
    && (pc.OnLock() ==> pc.l in s.locks)
    && (pc.OnUnblock() ==> pc.w in s.threads)
    && (pc.UnblockPush? ==> pc.w != t)
  }

  ghost predicate AsleepOn(s: State, t: Tid, l: Lid) {
    t in s.threads && s.threads[t].status.Blocked? && s.threads[t].pc.InSema? && s.threads[t].pc.l == l
  }

  /** The waiters of l are the threads asleep on it. */
  ghost predicate AllAsleep(s: State, l: Lid)
    requires l in s.locks
  {
    NoDup(s.locks[l].waiters) && forall t :: t in s.locks[l].waiters <==> AsleepOn(s, t, l)
  }

  /** Which is so until a waiter is stolen; the waiters are always threads in order of arrival. */
  ghost predicate WaitersOk(s: State, l: Lid)
    requires l in s.locks
  {
    && (forall t :: t in s.locks[l].waiters ==> t in s.threads)
    && s.locks[l].arrived == s.locks[l].served + s.locks[l].waiters
    && (!s.stolen ==> AllAsleep(s, l))
  }

  /** The flag a thread gets back is the flag its own code left. */
  ghost predicate Flags(s: State) {
    && s.cur in s.threads
    && (if s.Me().pc.Suspended() then !s.intr else s.intr == s.Me().intr)
    && (forall t :: t in s.threads ==> FlagOk(s.threads[t]))
  }

  ghost predicate FlagOk(th: Thread) {
    match th.pc
    case Preempted(_) => th.intr
    case InSema(_, saved) => saved == th.intr
    case InBlock(saved) => saved == th.intr
    case InYield(saved) => saved == th.intr
    case _ => true
  }

  /** Between the decrement in lock_acquire and the increment in lock_release. */
  ghost predicate Inside(th: Thread, l: Lid) {
    th.Depth(l) > 0 || th.pc.At() in {AcquireHolder(l), AcquireAssert(l), AcquireRepeat(l), SemaUp(l)}
  }

  /** Inside, but `holder` is not or no longer set. */
  ghost predicate Unnamed(th: Thread, l: Lid) {
    th.pc.At() in {AcquireHolder(l), ReleaseRepeat(l), SemaUp(l)}
  }

  ghost predicate IsOwner(s: State, o: Tid, l: Lid)
    requires l in s.locks
  {
    && o in s.threads && Inside(s.threads[o], l)
    && (forall t :: t in s.threads && Inside(s.threads[t], l) ==> t == o)
    && s.locks[l].repeat == s.threads[o].Depth(l)
    && s.locks[l].holder == if Unnamed(s.threads[o], l) then None else Some(o)
  }

  ghost predicate IsFree(s: State, l: Lid)
    requires l in s.locks
  {
    && (forall t :: t in s.threads ==> !Inside(s.threads[t], l))
    && s.locks[l].repeat == 0 && s.locks[l].holder == None
  }

  /** Popped from the waiters and not yet back in them, nor past the re-check loop of sema_down. */
  ghost predicate Woken(s: State, t: Tid, l: Lid) {
    t in s.threads && s.threads[t].pc.InSema? && s.threads[t].pc.l == l && s.threads[t].status in {Ready, Running}
  }

  ghost predicate LockOk(s: State, l: Lid)
    requires l in s.locks
  {
    && s.locks[l].value in {0, 1}
    && (s.locks[l].value == 1 ==> IsFree(s, l))
    && (s.locks[l].value == 0 ==> exists o: Tid :: IsOwner(s, o, l))
    && (!s.stolen && s.locks[l].value == 1 && s.locks[l].waiters != [] ==> exists t :: Woken(s, t, l))
  }

  /** How deep a thread is nested at each point of lock_acquire and lock_release. */
  ghost predicate DepthOk(th: Thread) {
    && (forall l :: l in th.depth ==> th.depth[l] < WORD_SIZE)
    && match th.pc.At()
       case AcquireTest(l) => th.Depth(l) < WORD_SIZE - 1
       case AcquireNest(l) => 0 < th.Depth(l) < WORD_SIZE - 1
       case ReleaseAssert(l) => th.Depth(l) > 0
       case ReleaseTest(l) => th.Depth(l) > 0
       case ReleaseNest(l) => th.Depth(l) > 1
       case ReleaseAssertOne(l) => th.Depth(l) == 1
       case ReleaseHolder(l) => th.Depth(l) == 1
       case ReleaseRepeat(l) => th.Depth(l) == 1
       case SemaDown(l) => th.Depth(l) == 0
       case AcquireHolder(l) => th.Depth(l) == 0
       case AcquireAssert(l) => th.Depth(l) == 0
       case AcquireRepeat(l) => th.Depth(l) == 0
       case SemaUp(l) => th.Depth(l) == 0
       case InSema(l, _) => th.Depth(l) == 0
       case _ => true
  }

  ghost predicate Locks(s: State) {
    && (forall t :: t in s.threads ==> DepthOk(s.threads[t]))
    && (forall l :: l in s.locks ==> LockOk(s, l))
  }

  ghost function Elapsed(threads: map<Tid, Thread>, q: seq<Tid>): nat
    requires forall i :: 0 <= i < |q| ==> q[i] in threads
  {
    if q == [] then 0 else threads[q[0]].elapsed + Elapsed(threads, q[1..])
  }

  ghost predicate Clocks(s: State) {
    && (forall i :: 0 <= i < |s.all| ==> s.all[i] in s.threads)
    && (forall t :: t in s.threads ==> s.threads[t].ticks <= s.threads[t].priority < 256)
    && Elapsed(s.threads, s.all) % WORD_SIZE == s.ticks
  }

  ghost predicate Inv(s: State) { Queues(s) && Flags(s) && Locks(s) && Clocks(s) }

  lemma InvWellFormed(s: State)
    requires Queues(s)
    ensures s.WellFormed()
  {
    forall l, i | l in s.locks && 0 <= i < |s.locks[l].waiters| ensures s.locks[l].waiters[i] in s.threads {
      assert s.locks[l].waiters[i] in s.locks[l].waiters && WaitersOk(s, l);
    }
    forall i | 0 <= i < |s.ready| ensures s.ready[i] in s.threads { assert s.ready[i] in s.ready; }
    forall t | t in s.threads
      ensures s.threads[t].pc.At().OnLock() ==> s.threads[t].pc.At().l in s.locks
      ensures s.threads[t].pc.At().OnUnblock() ==> s.threads[t].pc.At().w in s.threads
    {
      assert ThreadShape(s, t);
    }
  }

  // ------------------------------------------------------- the four shapes of a step

  /** Only the running thread's record, the flag and lock fields other than the waiters change. */
  ghost predicate Local(s: State, me: Thread, s': State) {
    && s.cur in s.threads
    && s'.cur == s.cur && s'.ready == s.ready && s'.all == s.all && s'.threads == s.threads[s.cur := me]
    && me.status == s.Me().status && me.priority == s.Me().priority && s'.stolen == s.stolen
    && (forall l :: l in s.locks ==> l in s'.locks && SameWaiters(s.locks[l], s'.locks[l]))
    && (forall l :: l in s'.locks && l !in s.locks ==> s'.locks[l] == NEW_LOCK)
  }

  ghost predicate SameWaiters(a: Lock, b: Lock) {
    a.waiters == b.waiters && a.arrived == b.arrived && a.served == b.served
  }

  /** The ready list once the running thread has been requeued, if it is. */
  ghost function Requeued(s: State, me: Thread): seq<Tid> {
    if me.status.Ready? then s.ready + [s.cur] else s.ready
  }

  /** The running thread leaves as `me`; the head of the ready list takes over with interrupts off. */
  ghost predicate Handover(s: State, me: Thread, s': State) {
    var q := Requeued(s, me);
    && s.cur in s.threads && q != []
    && (me.status.Ready? || Asleep(me.status)) && me.priority == s.Me().priority
    && s'.cur == q[0] && s'.ready == q[1..] && s'.all == s.all && !s'.intr && s'.stolen == s.stolen
    && s'.threads.Keys == s.threads.Keys && s'.cur in s.threads
    && (forall t :: t in s.threads ==> s'.threads[t] == Left(s, me, s'.cur, t))
    && s'.locks == if me.pc.InSema? && me.pc.l in s.locks then s.locks[me.pc.l := Enqueued(s, me.pc.l)] else s.locks
  }

  ghost function Enqueued(s: State, l: Lid): Lock
    requires l in s.locks
  {
    s.locks[l].(waiters := s.locks[l].waiters + [s.cur], arrived := s.locks[l].arrived + [s.cur])
  }

  /** The record of thread t after the running thread left as `me` in favour of `next`. */
  ghost function Left(s: State, me: Thread, next: Tid, t: Tid): Thread
    requires t in s.threads
  {
    var th := if t == s.cur then me else s.threads[t];
    if t == next then th.(status := Running) else th
  }

  lemma ElapsedBump(a: map<Tid, Thread>, b: map<Tid, Thread>, q: seq<Tid>, t: Tid)
    requires NoDup(q) && t in a && a.Keys == b.Keys
    requires forall i :: 0 <= i < |q| ==> q[i] in a
    requires forall x :: x in a && x != t ==> b[x].elapsed == a[x].elapsed
    ensures Elapsed(b, q) == Elapsed(a, q) + if t in q then b[t].elapsed - a[t].elapsed else 0
  {
    if q != [] {
      ElapsedBump(a, b, q[1..], t);
      assert q[0] == t ==> t !in q[1..];
    }
  }

  lemma ElapsedAppend(threads: map<Tid, Thread>, q: seq<Tid>, t: Tid, th: Thread)
    requires t !in threads
    requires forall i :: 0 <= i < |q| ==> q[i] in threads
    ensures Elapsed(threads[t := th], q + [t]) == Elapsed(threads, q) + th.elapsed
  {
    if q == [] {
      assert Elapsed(threads[t := th], [t]) == th.elapsed + Elapsed(threads[t := th], [t][1..]);
    } else {
      assert (q + [t])[1..] == q[1..] + [t];
      ElapsedAppend(threads, q[1..], t, th);
    }
  }

  lemma LocalQueues(s: State, me: Thread, s': State)
    requires Queues(s) && Local(s, me, s')
    requires !me.pc.At().Preempted? && (me.pc.Preempted? ==> !me.pc.at.Suspended())
    requires Names(s', s.cur, me.pc.At())
    requires me.depth.Keys <= s'.locks.Keys
    ensures Queues(s')
  {
    forall t | t in s'.threads ensures ThreadShape(s', t) { hide WaitersOk; assert ThreadShape(s, t); }
    forall l | l in s'.locks ensures WaitersOk(s', l) {
      assert forall t :: AsleepOn(s', t, l) <==> AsleepOn(s, t, l);
      if l in s.locks {
        assert WaitersOk(s, l);
      } else {
        forall t ensures !AsleepOn(s, t, l) {
          assert t in s.threads ==> ThreadShape(s, t);
        }
      }
    }
  }

  lemma PopHead(q: seq<Tid>, t: Tid)
    requires NoDup(q) && q != []
    ensures t in q[1..] <==> t in q && t != q[0]
  {
    if t in q && t != q[0] {
      var i :| 0 <= i < |q| && q[i] == t;
      assert q[1..][i - 1] == t;
    }
  }

  lemma HandoverReady(s: State, me: Thread, s': State)
    requires Queues(s) && Handover(s, me, s')
    ensures NoDup(s'.ready)
    ensures forall t :: t in s'.ready <==> t in s'.threads && s'.threads[t].status == Ready
  {
    var q := Requeued(s, me);
    assert s.cur !in s.ready;
    assert NoDup(q);
    forall t ensures t in s'.ready <==> t in s'.threads && s'.threads[t].status == Ready {
      PopHead(q, t);
      assert t in q <==> t in s.ready || (t == s.cur && me.status.Ready?);
      assert q[0] in q;
    }
  }

  lemma HandoverShape(s: State, me: Thread, s': State)
    requires Queues(s) && Handover(s, me, s')
    requires me.pc.Suspended() && !me.pc.At().Preempted? && (me.pc.Preempted? ==> !me.pc.at.Suspended())
    requires Asleep(me.status) ==> me.pc.InBlock? || (me.pc.InSema? && me.status.Blocked?)
    requires Names(s, s.cur, me.pc.At())
    requires me.depth == s.Me().depth
    ensures forall t :: t in s'.threads ==> (s'.threads[t].status == Running <==> t == s'.cur)
    ensures forall t :: t in s'.threads ==> ThreadShape(s', t)
  {
    hide WaitersOk, ThreadShape;
    forall t | t in s'.threads
      ensures s'.threads[t].status == Running <==> t == s'.cur
      ensures ThreadShape(s', t)
    {
      assert ThreadShape(s, t);
      LeftShape(s, me, s', t);
    }
  }

  lemma LeftShape(s: State, me: Thread, s': State, t: Tid)
    requires Handover(s, me, s') && t in s.threads && ThreadShape(s, t)
    requires s'.cur == s.cur || (t == s'.cur ==> s.threads[t].status.Ready?)
    requires me.pc.Suspended() && !me.pc.At().Preempted? && (me.pc.Preempted? ==> !me.pc.at.Suspended())
    requires Asleep(me.status) ==> me.pc.InBlock? || (me.pc.InSema? && me.status.Blocked?)
    requires Names(s, s.cur, me.pc.At())
    requires me.depth == s.Me().depth
    ensures ThreadShape(s', t)
  {
  }

  lemma HandoverWaiters(s: State, me: Thread, s': State, l: Lid)
    requires Handover(s, me, s') && l in s.locks && WaitersOk(s, l) && s.Me().status.Running?
    requires s'.cur != s.cur ==> s.threads[s'.cur].status.Ready?
    requires me.status.Blocked? && me.pc.InSema? ==> s'.cur != s.cur
    requires me.pc.InSema? ==> me.status.Blocked? && me.pc.l in s.locks
    ensures WaitersOk(s', l)
  {
    if !s.stolen {
      assert !AsleepOn(s, s.cur, l);
      forall t ensures t in s'.locks[l].waiters <==> AsleepOn(s', t, l) {
        assert t in s.locks[l].waiters <==> AsleepOn(s, t, l);
      }
    }
  }

  lemma HandoverQueues(s: State, me: Thread, s': State)
    requires Queues(s) && Handover(s, me, s')
    requires me.pc.Suspended() && !me.pc.At().Preempted? && (me.pc.Preempted? ==> !me.pc.at.Suspended())
    requires me.pc.InSema? ==> me.status.Blocked?
    requires Asleep(me.status) ==> me.pc.InBlock? || me.pc.InSema?
    requires Names(s, s.cur, me.pc.At())
    requires me.depth == s.Me().depth
    ensures Queues(s')
  {
    hide ThreadShape, WaitersOk;
    HandoverReady(s, me, s');
    HandoverShape(s, me, s');
    assert s'.cur in Requeued(s, me);
    forall l | l in s'.locks ensures WaitersOk(s', l) {
      assert WaitersOk(s, l);
      HandoverWaiters(s, me, s', l);
    }
  }

  lemma HandoverSuspended(s: State, me: Thread, s': State)
    requires Queues(s) && Handover(s, me, s') && me.pc.Suspended()
    ensures s'.cur in s'.threads && s'.Me().pc.Suspended()
  {
    hide WaitersOk;
    if s'.cur != s.cur { assert ThreadShape(s, s'.cur); }
  }

  lemma HandoverFlags(s: State, me: Thread, s': State)
    requires Queues(s) && Flags(s) && Handover(s, me, s') && Queues(s')
    requires me.pc.Suspended() && FlagOk(me)
    ensures Flags(s')
  {
    hide Queues;
    HandoverSuspended(s, me, s');
  }

  lemma ClocksKept(s: State, s': State, tick: bool)
    requires Queues(s) && Clocks(s) && s'.threads.Keys == s.threads.Keys && s'.all == s.all
    requires forall t :: t in s.threads && t != s.cur ==>
               var a, b := s.threads[t], s'.threads[t];
               b.elapsed == a.elapsed && b.ticks == a.ticks && b.priority == a.priority
    requires s'.threads[s.cur].priority == s.Me().priority && s'.threads[s.cur].ticks <= s.Me().priority
    requires s'.threads[s.cur].elapsed == if tick then (s.Me().elapsed + 1) % WORD_SIZE else s.Me().elapsed
    requires s'.ticks == if tick then (s.ticks + 1) % WORD_SIZE else s.ticks
    ensures Clocks(s')
  {
    hide ThreadShape, WaitersOk;
    ElapsedBump(s.threads, s'.threads, s.all, s.cur);
    if tick { TickSum(Elapsed(s.threads, s.all), s.Me().elapsed); }
  }

  lemma TickSum(sum: nat, one: nat)
    ensures (sum + (one + 1) % WORD_SIZE - one) % WORD_SIZE == (sum % WORD_SIZE + 1) % WORD_SIZE
  {
    var k := (one + 1) / WORD_SIZE;
    assert (one + 1) % WORD_SIZE == one + 1 - k * WORD_SIZE;
    ModShift(sum + 1, k);
  }

  lemma ModShift(x: int, k: int)
    ensures (x - k * WORD_SIZE) % WORD_SIZE == x % WORD_SIZE
  {
  }

  /** A lock that a step does not concern. */
  lemma LockFrame(s: State, s': State, l: Lid)
    requires l in s.locks && l in s'.locks && LockOk(s, l)
    requires s'.locks[l].value == s.locks[l].value && s'.locks[l].repeat == s.locks[l].repeat
    requires s'.locks[l].holder == s.locks[l].holder
    requires s.threads.Keys <= s'.threads.Keys && (s.stolen ==> s'.stolen)
    requires forall t :: t in s'.threads ==>
               if t in s.threads then
                 && Inside(s'.threads[t], l) == Inside(s.threads[t], l)
                 && Unnamed(s'.threads[t], l) == Unnamed(s.threads[t], l)
                 && s'.threads[t].Depth(l) == s.threads[t].Depth(l)
               else !Inside(s'.threads[t], l)
    requires !s.stolen && !s'.stolen && s.locks[l].value == 1 ==>
               && s'.locks[l].waiters == s.locks[l].waiters
               && (forall t :: Woken(s, t, l) ==> Woken(s', t, l))
    ensures LockOk(s', l)
  {
    if s.locks[l].value == 0 {
      var o: Tid :| IsOwner(s, o, l);
      assert IsOwner(s', o, l);
    } else if !s'.stolen && s.locks[l].waiters != [] {
      var t :| Woken(s, t, l);
      assert Woken(s', t, l);
    }
  }
}
