/** switch_to and thread_create on the words of memory. Each thread owns the 4 KB page that starts with its PCB. */
module ContextSwitch {
  import opened Basics

  const PCB_BYTES: int := 68          // struct task_struct
  const FIRST_FRAME: int := 4 * 76 + 4 * 32   // the two `self_kstack -= sizeof` on a uint32_t pointer

  datatype Regs = Regs(esi: int, edi: int, ebx: int, ebp: int, esp: int, eip: int)

  predicate Word(mem: seq<int>, a: int) { 0 <= a && a % 4 == 0 && a / 4 < |mem| }

  function Read(mem: seq<int>, a: int): int
    requires Word(mem, a)
  {
    mem[a / 4]
  }

  function Write(mem: seq<int>, a: int, v: int): seq<int>
    requires Word(mem, a)
  {
    mem[a / 4 := v]
  }

  /** The five words that switch_to leaves on a stack, lowest address first. */
  predicate Frame(mem: seq<int>, k: int) {
    Word(mem, k) && Word(mem, k + 16)
  }

  function Pushed(mem: seq<int>, r: Regs): seq<int>
    requires Word(mem, r.esp - 16) && Word(mem, r.esp)
  {
    Write(Write(Write(Write(mem, r.esp - 4, r.esi), r.esp - 8, r.edi), r.esp - 12, r.ebx), r.esp - 16, r.ebp)
  }

  /** The registers of a thread whose saved stack pointer is k, once it is switched back in. */
  function Restored(mem: seq<int>, k: int): Regs
    requires Frame(mem, k)
  {
    Regs(Read(mem, k + 12), Read(mem, k + 8), Read(mem, k + 4), Read(mem, k), k + 20, Read(mem, k + 16))
  }

  /** The call switch_to(cur, next) with its stack: return address, cur, next. */
  predicate Callable(mem: seq<int>, r: Regs, cur: int, next: int) {
    && Word(mem, r.esp - 16) && Word(mem, r.esp + 8) && Word(mem, cur) && Word(mem, next)
    && Read(mem, r.esp + 4) == cur && Read(mem, r.esp + 8) == next
    && cur + PCB_BYTES <= r.esp - 16 && r.esp + 12 <= cur + PAGE
  }

  function Saved(mem: seq<int>, r: Regs, cur: int): seq<int>
    requires Word(mem, r.esp - 16) && Word(mem, r.esp) && Word(mem, cur)
  {
    Write(Pushed(mem, r), cur, r.esp - 16)
  }

  ghost predicate Page(mem: seq<int>, t: int) { 0 <= t && t % PAGE == 0 && t + PAGE <= 4 * |mem| }

  lemma WordsOfPage(mem: seq<int>, t: int, k: int)
    requires Page(mem, t) && 0 <= k <= PAGE - 32 && k % 4 == 0
    ensures Word(mem, t) && Word(mem, t + k) && Word(mem, t + k + 16) && Word(mem, t + k + 24) && Word(mem, t + k + 28)
  {
    FourDivides(t, k);
    FourDivides(t, k + 16);
    FourDivides(t, k + 24);
    FourDivides(t, k + 28);
  }

  lemma FourDivides(t: int, k: int)
    requires t % PAGE == 0 && k % 4 == 0
    ensures t % 4 == 0 && (t + k) % 4 == 0
  {
    assert t == 4 * (1024 * (t / PAGE));
  }

  /** The thread_stack that thread_create fills in: eip, function and func_arg. */
  ghost predicate NewStack(mem: seq<int>, t: int, entry: int, func: int, arg: int)
    requires Page(mem, t)
  {
    WordsOfPage(mem, t, PAGE - FIRST_FRAME);
    var k := t + PAGE - FIRST_FRAME;
    Read(mem, t) == k && Read(mem, k + 16) == entry && Read(mem, k + 24) == func && Read(mem, k + 28) == arg
  }

  lemma SavedKeepsArguments(mem: seq<int>, r: Regs, cur: int, next: int)
    requires Callable(mem, r, cur, next)
    ensures Read(Pushed(mem, r), r.esp + 4) == cur
    ensures Read(Saved(mem, r, cur), r.esp + 8) == next
  {
  }

  class Cpu {
    var esi: int
    var edi: int
    var ebx: int
    var ebp: int
    var esp: int
    var eip: int
    const mem: array<int>

    constructor (mem: array<int>)
      ensures this.mem == mem
    {
      this.mem := mem;
      esi, edi, ebx, ebp, esp, eip := 0, 0, 0, 0, 0, 0;
    }

    function Registers(): Regs
      reads this
    {
      Regs(esi, edi, ebx, ebp, esp, eip)
    }

    method Push(v: int)
      requires Word(mem[..], esp - 4)
      modifies this`esp, mem
      ensures esp == old(esp) - 4 && mem[..] == Write(old(mem[..]), esp, v)
    {
      esp := esp - 4;
      mem[esp / 4] := v;
    }

    method Pop() returns (v: int)
      requires Word(mem[..], esp)
      modifies this`esp
      ensures v == Read(mem[..], old(esp)) && esp == old(esp) + 4
    {
      v := mem[esp / 4];
      esp := esp + 4;
    }

    method PushContext()
      requires Word(mem[..], esp - 16) && Word(mem[..], esp)
      modifies this`esp, mem
      ensures mem[..] == Pushed(old(mem[..]), old(Registers()))
      ensures Registers() == old(Registers()).(esp := old(esp) - 16)
    {
      Push(esi);
      Push(edi);
      Push(ebx);
      Push(ebp);
    }

    method PopContext()
      requires Frame(mem[..], esp)
      modifies this
      ensures Registers() == Restored(mem[..], old(esp))
    {
      ebp := Pop();
      ebx := Pop();
      edi := Pop();
      esi := Pop();
      eip := Pop();   // ret
    }

    /** Entered by `call`: the return address is at [esp], the arguments above it. */
    method SwitchTo(ghost cur: int, ghost next: int)
      requires Callable(mem[..], Registers(), cur, next)
      requires var saved := Saved(mem[..], Registers(), cur);
               Frame(saved, Read(saved, next))
      modifies this, mem
      ensures mem[..] == Saved(old(mem[..]), old(Registers()), cur)
      ensures Registers() == Restored(mem[..], Read(mem[..], next))
    {
      ghost var regs, before := Registers(), mem[..];
      SavedKeepsArguments(before, regs, cur, next);
      PushContext();
      assert mem[..][(esp + 20) / 4] == cur;
      var eax := mem[(esp + 20) / 4];
      mem[eax / 4] := esp;
      assert mem[..] == Saved(before, regs, cur);
      hide Saved, Pushed;
      assert mem[..][(esp + 24) / 4] == next;
      eax := mem[(esp + 24) / 4];
      assert mem[..][eax / 4] == Read(mem[..], next);
      esp := mem[eax / 4];
      PopContext();
    }

    /** init_thread's self_kstack and thread_create, for the PCB page t. */
    method ThreadCreate(t: int, entry: int, func: int, arg: int)
      requires Page(mem[..], t)
      modifies mem
      ensures NewStack(mem[..], t, entry, func, arg) && mem[t / 4] == t + 4096 - 4 * (76 + 32)
      ensures forall i :: 0 <= i < mem.Length && !(t <= 4 * i < t + PAGE) ==> mem[i] == old(mem[i])
    {
      var p := t / 4;
      PageWords(mem[..], t);
      hide NewStack, Page;
      mem[p] := t + PAGE;
      mem[p] := mem[p] - 4 * 76;   // sizeof(struct intr_stack) words
      mem[p] := mem[p] - 4 * 32;   // sizeof(struct thread_stack) words
      var k := mem[p] / 4;
      assert k == p + 1024 - 108;
      mem[k + 4] := entry;
      mem[k + 6] := func;
      mem[k + 7] := arg;
      mem[k + 2] := mem[k + 3];
      mem[k + 1] := mem[k + 2];
      mem[k] := mem[k + 1];
      WordsOfNewStack(mem[..], t, k, entry, func, arg);
    }
  }

  lemma PageWords(mem: seq<int>, t: int)
    requires Page(mem, t)
    ensures t == 4 * (t / 4) && 0 <= t / 4 && t / 4 + 1024 <= |mem|
    ensures (t + PAGE - FIRST_FRAME) / 4 == t / 4 + 1024 - 108
  {
    var q := t / PAGE;
    assert t == 4 * (1024 * q);
    assert t / 4 == 1024 * q;
    assert t + PAGE - FIRST_FRAME == 4 * (1024 * q + 1024 - 108);
  }

  lemma WordsOfNewStack(mem: seq<int>, t: int, k: int, entry: int, func: int, arg: int)
    requires Page(mem, t) && k == t / 4 + 1024 - 108
    requires mem[t / 4] == t + PAGE - FIRST_FRAME && mem[k + 4] == entry && mem[k + 6] == func && mem[k + 7] == arg
    ensures NewStack(mem, t, entry, func, arg)
  {
  }

  // --------------------------------------------------------------------- runs

  datatype System = System(cur: int, regs: Regs, mem: seq<int>, threads: set<int>)

  /** t's saved stack pointer is in its own page, above the PCB. */
  ghost predicate Stack(mem: seq<int>, t: int) {
    && Page(mem, t)
    && var k := Read(mem, t);
       k % 4 == 0 && t + PCB_BYTES <= k && k + 20 <= t + PAGE
  }

  ghost predicate Sane(s: System) {
    && s.cur in s.threads
    && (forall t :: t in s.threads ==> Page(s.mem, t))
    && (forall t :: t in s.threads && t != s.cur ==> Stack(s.mem, t))
  }

  /** The saved stack pointer and the stack of t are as they were; the other PCB fields need not be. */
  ghost predicate Untouched(a: seq<int>, b: seq<int>, t: int) {
    && |a| == |b|
    && forall i :: 0 <= i < |a| && (i == t / 4 || t + PCB_BYTES <= 4 * i < t + PAGE) ==> b[i] == a[i]
  }

  /** The running thread computes: anything may change but the stacks of the others. */
  ghost predicate Works(s: System, s': System) {
    && s'.cur == s.cur && s'.threads == s.threads && |s'.mem| == |s.mem|
    && (forall t :: t in s.threads && t != s.cur ==> Untouched(s.mem, s'.mem, t))
  }

  ghost predicate Switches(s: System, s': System) {
    && s'.cur in s.threads && s'.cur != s.cur && s'.threads == s.threads
    && Callable(s.mem, s.regs, s.cur, s'.cur)
    && s'.mem == Saved(s.mem, s.regs, s.cur)
    && Frame(s'.mem, Read(s'.mem, s'.cur))
    && s'.regs == Restored(s'.mem, Read(s'.mem, s'.cur))
  }

  /** thread_create on a page nobody owns yet, after init_thread put `t + PAGE` into self_kstack. */
  ghost predicate Creates(s: System, t: int, entry: int, func: int, arg: int, s': System) {
    && t !in s.threads && Page(s.mem, t) && |s'.mem| == |s.mem|
    && s'.cur == s.cur && s'.regs == s.regs && s'.threads == s.threads + {t}
    && (forall x :: x in s.threads ==> Untouched(s.mem, s'.mem, x))
    && NewStack(s'.mem, t, entry, func, arg)
  }

  ghost predicate Step(s: System, s': System) {
    Works(s, s') || Switches(s, s') || (exists t, entry, func, arg :: Creates(s, t, entry, func, arg, s'))
  }

  /** switch_to writes its own PCB's first word and the four words below the stack pointer. */
  lemma SavedOnly(mem: seq<int>, r: Regs, cur: int, i: int)
    requires Word(mem, r.esp - 16) && Word(mem, r.esp) && Word(mem, cur) && 0 <= i < |mem|
    requires i != cur / 4 && !(r.esp - 16 <= 4 * i < r.esp)
    ensures |Saved(mem, r, cur)| == |mem| && Saved(mem, r, cur)[i] == mem[i]
  {
  }

  lemma PagesApart(t: int, c: int)
    requires t % PAGE == 0 && c % PAGE == 0 && t != c
    ensures t + PAGE <= c || c + PAGE <= t
  {
  }

  lemma SavedElsewhere(s: System, s': System, t: int)
    requires Sane(s) && Switches(s, s') && t in s.threads && t != s.cur
    ensures Untouched(s.mem, s'.mem, t)
  {
    var r, c := s.regs, s.cur;
    assert Page(s.mem, t) && Page(s.mem, c);
    PagesApart(t, c);
    assert |s'.mem| == |s.mem| by { SavedHere(s.mem, r, c, s'.cur); }
    forall i | 0 <= i < |s.mem| && (i == t / 4 || t + PCB_BYTES <= 4 * i < t + PAGE) ensures s'.mem[i] == s.mem[i] {
      hide Sane, Frame, Restored, Saved, Switches;
      SavedOnly(s.mem, r, c, i);
    }
  }

  lemma SavedHere(mem: seq<int>, r: Regs, cur: int, next: int)
    requires Callable(mem, r, cur, next)
    ensures var mem' := Saved(mem, r, cur);
            && |mem'| == |mem| && Read(mem', cur) == r.esp - 16
            && Restored(mem', r.esp - 16) == r.(esp := r.esp + 4, eip := Read(mem, r.esp))
            && (forall i :: r.esp <= 4 * i < cur + PAGE && 0 <= i < |mem| ==> mem'[i] == mem[i])
  {
  }

  /** Where switch_to leaves what: the words of struct thread_stack below the return address, and the stack pointer in
      the first word of the PCB. */
  lemma SavedWords(mem: seq<int>, r: Regs, cur: int, next: int)
    requires Callable(mem, r, cur, next)
    ensures var k, mem' := r.esp - 16, Saved(mem, r, cur);
      && |mem'| == |mem| && mem'[cur / 4] == k
      && mem'[k / 4] == r.ebp && mem'[k / 4 + 1] == r.ebx && mem'[k / 4 + 2] == r.edi && mem'[k / 4 + 3] == r.esi
      && mem'[k / 4 + 4] == mem[r.esp / 4]
  {
  }

  lemma StackKept(a: seq<int>, b: seq<int>, t: int)
    requires Stack(a, t) && Untouched(a, b, t)
    ensures Stack(b, t) && Read(b, t) == Read(a, t)
    ensures Frame(a, Read(a, t)) && Frame(b, Read(b, t)) && Restored(b, Read(b, t)) == Restored(a, Read(a, t))
  {
    var k := Read(a, t);
    var i := k / 4;
    assert b[i] == a[i] && b[i + 1] == a[i + 1] && b[i + 2] == a[i + 2] && b[i + 3] == a[i + 3] && b[i + 4] == a[i + 4];
  }

  lemma OthersUntouched(s: System, s': System)
    requires Sane(s) && Step(s, s')
    ensures |s'.mem| == |s.mem| && s.threads <= s'.threads
    ensures forall t :: t in s.threads && t != s.cur ==> Untouched(s.mem, s'.mem, t)
  {
    if Switches(s, s') {
      SavedHere(s.mem, s.regs, s.cur, s'.cur);
      forall t | t in s.threads && t != s.cur ensures Untouched(s.mem, s'.mem, t) { SavedElsewhere(s, s', t); }
    }
    hide Sane, Switches, Untouched, NewStack, Saved;
  }

  /** The stack a thread leaves behind when it switches away. */
  lemma LeftStack(s: System, s': System)
    requires Sane(s) && Switches(s, s')
    ensures Stack(s'.mem, s.cur)
  {
    SavedHere(s.mem, s.regs, s.cur, s'.cur);
    assert Page(s.mem, s.cur);
    hide Sane, Saved, Restored, Frame;
  }

  lemma NewStackIsStack(mem: seq<int>, t: int, entry: int, func: int, arg: int)
    requires Page(mem, t) && NewStack(mem, t, entry, func, arg)
    ensures Stack(mem, t)
  {
  }

  lemma StepSane(s: System, s': System)
    requires Sane(s) && Step(s, s')
    ensures Sane(s')
    ensures forall t :: t in s.threads && t != s.cur ==> Untouched(s.mem, s'.mem, t)
    ensures s.threads <= s'.threads
  {
    OthersUntouched(s, s');
    forall t | t in s.threads && t != s.cur ensures Stack(s'.mem, t) { StackKept(s.mem, s'.mem, t); }
    assert forall t :: t in s.threads ==> Page(s'.mem, t);
    hide Untouched, Stack, Saved, Callable, Frame, Restored;
    if Switches(s, s') {
      LeftStack(s, s');
    } else if !Works(s, s') {
      var t, entry, func, arg :| Creates(s, t, entry, func, arg, s');
      NewStackIsStack(s'.mem, t, entry, func, arg);
    }
  }

  ghost predicate IsRun(trace: seq<System>) {
    trace != [] && Sane(trace[0]) && forall i :: 0 <= i < |trace| - 1 ==> Step(trace[i], trace[i + 1])
  }

  /** While t is away nothing touches its stack. */
  lemma {:induction false} Away(trace: seq<System>, t: int)
    requires IsRun(trace) && t in trace[0].threads && trace[0].cur != t
    requires forall i :: 0 <= i < |trace| - 1 ==> trace[i].cur != t
    ensures Sane(trace[|trace| - 1]) && t in trace[|trace| - 1].threads
    ensures Untouched(trace[0].mem, trace[|trace| - 1].mem, t)
    decreases |trace|
  {
    hide Step, Sane, Untouched;
    var n := |trace| - 1;
    if n > 0 {
      var before := trace[..n];
      forall i | 0 <= i < |before| - 1 ensures Step(before[i], before[i + 1]) && before[i].cur != t {
        assert Step(trace[i], trace[i + 1]);
      }
      Away(before, t);
      assert Step(trace[n - 1], trace[n - 1 + 1]);
      StepSane(trace[n - 1], trace[n]);
      UntouchedTrans(trace[0].mem, trace[n - 1].mem, trace[n].mem, t);
    } else {
      UntouchedSelf(trace[0].mem, t);
    }
  }

  lemma UntouchedTrans(a: seq<int>, b: seq<int>, c: seq<int>, t: int)
    requires Untouched(a, b, t) && Untouched(b, c, t)
    ensures Untouched(a, c, t)
  {
  }

  lemma UntouchedSelf(a: seq<int>, t: int)
    ensures Untouched(a, a, t)
  {
  }

  /** What a thread finds on its stack when nobody has touched it. */
  lemma ComesBack(mem: seq<int>, r: Regs, t: int, next: int, last: System)
    requires Callable(mem, r, t, next) && Page(mem, t)
    requires Untouched(Saved(mem, r, t), last.mem, t) && Page(last.mem, t)
    requires Frame(last.mem, Read(last.mem, t)) && last.regs == Restored(last.mem, Read(last.mem, t))
    ensures last.regs == r.(esp := r.esp + 4, eip := Read(mem, r.esp)) && |last.mem| == |mem|
    ensures forall i :: r.esp <= 4 * i < t + PAGE && 0 <= i < |mem| ==> last.mem[i] == mem[i]
  {
    SavedHere(mem, r, t, next);
    hide Saved;
    SavedStack(mem, r, t, next);
    StackKept(Saved(mem, r, t), last.mem, t);
    hide Restored, Frame, Callable, Word;
  }

  lemma SavedStack(mem: seq<int>, r: Regs, t: int, next: int)
    requires Callable(mem, r, t, next) && Page(mem, t)
    ensures Stack(Saved(mem, r, t), t) && Read(Saved(mem, r, t), t) == r.esp - 16
  {
    SavedHere(mem, r, t, next);
    hide Saved, Restored;
  }

  /** A thread switched back in, after any number of switches, finds esi, edi, ebx, ebp, its stack pointer and the
      words above it as it left them, and goes on behind its call. */
  lemma RoundTrip(trace: seq<System>)
    requires IsRun(trace) && |trace| >= 3
    requires var t := trace[0].cur;
      && Switches(trace[0], trace[1])
      && (forall i :: 1 <= i < |trace| - 1 ==> trace[i].cur != t)
      && Switches(trace[|trace| - 2], trace[|trace| - 1]) && trace[|trace| - 1].cur == t
    ensures var r, mem, last := trace[0].regs, trace[0].mem, trace[|trace| - 1];
      && Word(mem, r.esp)
      && last.regs == r.(esp := r.esp + 4, eip := Read(mem, r.esp))
      && |last.mem| == |mem|
      && (forall i :: r.esp <= 4 * i < trace[0].cur + PAGE && 0 <= i < |mem| ==> last.mem[i] == mem[i])
  {
    var s, s1, t := trace[0], trace[1], trace[0].cur;
    assert Step(trace[0], trace[0 + 1]);
    assert Page(s.mem, t);
    StepSane(s, s1);
    var away, n := trace[1..], |trace| - 1;
    forall i | 0 <= i < |away| - 1 ensures Step(away[i], away[i + 1]) && away[i].cur != t {
      assert Step(trace[i + 1], trace[i + 1 + 1]);
    }
    Away(away, t);
    assert Page(trace[n].mem, t);
    hide Sane, Step, IsRun, Saved, Callable, Untouched, Page, Restored, Frame;
    ComesBack(s.mem, s.regs, t, s1.cur, trace[n]);
  }

  lemma AwayFresh(trace: seq<System>, t: int, entry: int, func: int, arg: int)
    requires IsRun(trace) && t in trace[0].threads && trace[0].cur != t && NewStack(trace[0].mem, t, entry, func, arg)
    requires forall i :: 0 <= i < |trace| - 1 ==> trace[i].cur != t
    ensures Sane(trace[|trace| - 1]) && t in trace[|trace| - 1].threads && Page(trace[|trace| - 1].mem, t)
    ensures NewStack(trace[|trace| - 1].mem, t, entry, func, arg)
  {
    Away(trace, t);
  }

  /** The first switch to a new thread enters kernel_thread with `function` and `func_arg` where a C function looks
      for its arguments: above the word at the stack pointer, which stands for the return address. */
  lemma FirstSwitch(trace: seq<System>, t: int, entry: int, func: int, arg: int)
    requires IsRun(trace) && |trace| >= 3 && Creates(trace[0], t, entry, func, arg, trace[1])
    requires forall i :: 1 <= i < |trace| - 1 ==> trace[i].cur != t
    requires Switches(trace[|trace| - 2], trace[|trace| - 1]) && trace[|trace| - 1].cur == t
    ensures var last := trace[|trace| - 1];
      && last.regs.eip == entry
      && Word(last.mem, last.regs.esp + 4) && Read(last.mem, last.regs.esp + 4) == func
      && Word(last.mem, last.regs.esp + 8) && Read(last.mem, last.regs.esp + 8) == arg
  {
    var n := |trace| - 1;
    assert Step(trace[0], trace[0 + 1]);
    StepSane(trace[0], trace[1]);
    var away := trace[1..];
    forall i | 0 <= i < |away| - 1 ensures Step(away[i], away[i + 1]) && away[i].cur != t {
      assert Step(trace[i + 1], trace[i + 1 + 1]);
    }
    AwayFresh(away, t, entry, func, arg);
    hide Step, Sane, IsRun, Creates, NewStack;
    EnterFresh(trace[n - 1], trace[n], t, entry, func, arg);
  }

  lemma EnterFresh(s: System, s': System, t: int, entry: int, func: int, arg: int)
    requires Sane(s) || Sane(s')
    requires Switches(s, s') && s'.cur == t && Page(s'.mem, t) && NewStack(s'.mem, t, entry, func, arg)
    ensures s'.regs.eip == entry
    ensures Word(s'.mem, s'.regs.esp + 4) && Read(s'.mem, s'.regs.esp + 4) == func
    ensures Word(s'.mem, s'.regs.esp + 8) && Read(s'.mem, s'.regs.esp + 8) == arg
  {
    hide Saved, Callable, Sane;
  }
}
