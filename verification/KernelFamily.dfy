/**
 A whole life on the machine: from boot, init forks, its child runs and exits, and init's wait, asleep until then, reaps it.
 */
module KernelFamily {
  import opened Wrappers
  import opened ProcTable
  import opened Spinlock
  import opened Kernel
  import opened KernelSafety
  import opened KernelRuns
  import opened KernelTheorems
  import opened KernelProgress
  import opened KernelCalls
  import opened KernelWait

  /** A system call at work, and what its return still does. */
  const CALL: Op := Client(true, {}, 0)

  function Tail(): Code { [KilledCheck, TrapTail, Iret(true)] }

  lemma {:induction false} RunCat(s: State, a: seq<Choice>, b: seq<Choice>)
    ensures Run(s, a + b) == Run(Run(s, a), b)
    decreases |a|
  {
    hide Next;
    if a == [] {
      assert a + b == b;
    } else {
      assert (a + b)[1..] == a[1..] + b;
      RunCat(Next(s, a[0]), a[1..], b);
    }
  }

  lemma RunOne(s: State, c: Choice)
    ensures Run(s, [c]) == Next(s, c)
  {
    hide Next;
    assert Run(Next(s, c), [c][1..]) == Next(s, c);
  }

  /** A choice, and then n steps. */
  function Then(c: Choice, n: nat): seq<Choice> {
    [c] + seq(n, _ => Continue)
  }

  lemma RunThen(s: State, c: Choice, n: nat)
    ensures Run(s, Then(c, n)) == Go(Next(s, c), n)
  {
    hide Next;
    RunCat(s, [c], seq(n, _ => Continue));
    RunOne(s, c);
    GoIsRun(Next(s, c), n);
  }

  /** A system call starts: the calling process is at its code, interrupts on. */
  lemma CallStarts(s: State, p: nat)
    requires InUser(s, p) && !s.t[p].killed
    ensures Go(Next(s, Syscall), 1) == s.(code := [CALL] + Tail())
  {
    var s1 := Next(s, Syscall);
    assert s1.code[1..] == [CALL] + Tail();
    OneStep(s1, s.(code := [CALL] + Tail()));
  }

  /** What it may then call, and how it returns: the CPU goes to the others before user mode. */
  lemma CallMakes(s: State)
    requires s.panic.None? && s.code == [CALL] + Tail()
    ensures Next(s, DoFork) == s.(code := [Fork] + ([CALL] + Tail()))
    ensures Next(s, DoWait) == s.(code := [Wait] + ([CALL] + Tail()))
    ensures Next(s, DoExit) == s.(code := [Exit] + [])
    ensures Next(s, Return) == s.(code := Tail())
  {
    assert s.code[1..] == Tail();
    assert [Fork, CALL] + Tail() == [Fork] + ([CALL] + Tail()) && [Wait, CALL] + Tail() == [Wait] + ([CALL] + Tail());
    assert [Exit] + [] == [Exit];
  }

  lemma CallReturns(s: State, p: nat)
    requires s.panic.None? && s.self == ProcCtx(p) && s.proc == Some(p) && p < NPROC && s.code == Tail()
    requires s.cpu.ncli == 0 && s.cpu.locked == {} && s.t[p].state == Running && !s.t[p].killed
    ensures Go(s, 5) == HandedOver(s.(t := s.t[p := s.t[p].(state := Ready)], cpu := Under(s.cpu)), p, UnlockOps(Ptable) + [Iret(true)])
  {
    hide Go, UnlockOps, LockOps, Next;
    CheckPasses(s, p);
    TailYields(s.(code := [TrapTail] + [Iret(true)]), p, [Iret(true)]);
    GoOn(s, 1, 4);
  }

  lemma CheckPasses(s: State, p: nat)
    requires s.panic.None? && s.proc == Some(p) && p < NPROC && s.code == Tail() && !s.t[p].killed
    ensures Go(s, 1) == s.(code := [TrapTail] + [Iret(true)])
  {
    hide LockOps, UnlockOps, FindUnused, FindZombie, HasChild, Exited, SchedStep, Go;
    assert Tail()[1..] == [TrapTail] + [Iret(true)];
    OneStep(s, s.(code := [TrapTail] + [Iret(true)]));
  }

  // ------------------------------------------------------------ the first family

  const READY1: Proc := Proc(Ready, 1, None, None, false)
  const CHILD: Proc := Proc(Ready, 2, Some(1), None, false)

  /** The table with these two records and nobody else. */
  function Two(a: Proc, b: Proc): Procs {
    seq(NPROC, i => if i == 1 then a else if i == 2 then b else CLEARED)
  }

  const ON: Cpu := Cpu(0, true, true, {})
  const HELD: Cpu := Cpu(1, true, false, {Ptable})

  /** Init is in user mode, from boot. */
  function FirstUser(on: bool): State {
    Boot(on).(t := Two(READY1.(state := Running), CLEARED), cpu := ON, proc := Some(1), self := ProcCtx(1), sched := [AfterSwtch(2)], code := [])
  }

  lemma InitAtUser(on: bool)
    ensures Run(Boot(on), seq(8, _ => Continue)) == FirstUser(on)
  {
    hide Run, Next;
    InitExecutes(on);
    assert Boot(on).t[1 := READY1.(state := Running)] == Two(READY1.(state := Running), CLEARED);
  }

  /** Init forks; then it waits, and its child is at its first step. */
  function ChildStarts(on: bool): State {
    var s := FirstUser(on);
    s.(t := Two(Proc(Sleeping, 1, None, Some(ProcChan(1)), false), CHILD.(state := Running)), nextpid := 3, cpu := HELD, proc := Some(2),
       self := ProcCtx(2), sched := [AfterSwtch(3)], code := ForkRet(),
       ctx := s.ctx[2 := ForkRet()][1 := [RestoreIntOn(true)] + ([ClearChan, WaitScan] + ([CALL] + Tail()))])
  }

  lemma TwoSlots(a: Proc, b: Proc, a': Proc)
    ensures Two(a, b)[1 := a'] == Two(a', b) && Two(a, b)[2 := a'] == Two(a, a')
    ensures Two(a, b)[0] == CLEARED && Two(a, b)[1] == a && Two(a, b)[2] == b && forall i :: 3 <= i < NPROC ==> Two(a, b)[i] == CLEARED
  {
    assert forall i :: 0 <= i < NPROC ==> Two(a, b)[1 := a'][i] == Two(a', b)[i];
    assert forall i :: 0 <= i < NPROC ==> Two(a, b)[2 := a'][i] == Two(a, a')[i];
  }

  lemma InitForks(on: bool)
    ensures var s := FirstUser(on);
            Run(s, Then(Syscall, 1) + Then(DoFork, 12)) ==
              s.(t := Two(READY1.(state := Running), CHILD), nextpid := 3, ctx := s.ctx[2 := ForkRet()], code := [CALL] + Tail())
  {
    hide Run, Next, Go, Boot, Two;
    var s, run := FirstUser(on), READY1.(state := Running);
    TwoSlots(run, CLEARED, CHILD);
    BootFacts(on);
    RunCat(s, Then(Syscall, 1), Then(DoFork, 12));
    RunThen(s, Syscall, 1);
    CallStarts(s, 1);
    var s1 := s.(code := [CALL] + Tail());
    RunThen(s1, DoFork, 12);
    CallMakes(s1);
    var s2 := s.(code := [Fork] + ([CALL] + Tail()));
    assert LeastUnused(s2.t, 2);
    ForkMakesChild(s2, 1, [CALL] + Tail(), 2);
    assert CLEARED.(state := Ready, pid := 2, parent := Some(1)) == CHILD;
  }

  lemma AfterStep(s: State, i: nat)
    requires s.panic.None? && s.code == [AfterSwtch(i)]
    ensures Next(s, Continue) == s.(proc := None, code := [Scan(i)])
  {
  }

  lemma WaitBegins(s: State, p: nat, rest: Code)
    requires AtCall(s, p, Wait, rest)
    ensures Go(s, 3) == s.(code := [WaitScan] + rest, cpu := Under(s.cpu))
  {
    hide Go;
    WaitCalls(s, p, rest);
    LockTable(Go(s, 1), [WaitScan] + rest);
    GoOn(s, 1, 2);
  }

  lemma WaitCalls(s: State, p: nat, rest: Code)
    requires AtCall(s, p, Wait, rest)
    ensures Go(s, 1) == s.(code := LockOps(Ptable) + ([WaitScan] + rest))
  {
    hide UnlockOps, FindUnused, FindZombie, HasChild, Exited, SchedStep, Go;
    assert s.code[1..] == rest;
    assert LockOps(Ptable) + ([WaitScan] + rest) == LockOps(Ptable) + [WaitScan] + rest;
    OneStep(s, s.(code := LockOps(Ptable) + ([WaitScan] + rest)));
  }

  lemma InitWaits(on: bool)
    ensures var s := FirstUser(on);
            var s1 := s.(t := Two(READY1.(state := Running), CHILD), nextpid := 3, ctx := s.ctx[2 := ForkRet()], code := [CALL] + Tail());
            Run(s1, Then(DoWait, 6)) == ChildStarts(on)
  {
    hide Run, Next, Go, Boot, Two, ForkRet;
    var s := FirstUser(on);
    var run, asleep := READY1.(state := Running), Proc(Sleeping, 1, None, Some(ProcChan(1)), false);
    var s1 := s.(t := Two(run, CHILD), nextpid := 3, ctx := s.ctx[2 := ForkRet()], code := [CALL] + Tail());
    var rest := [CALL] + Tail();
    BootFacts(on);
    RunThen(s1, DoWait, 6);
    CallMakes(s1);
    var s2 := s1.(code := [Wait] + rest);
    WaitBegins(s2, 1, rest);
    var s5 := s1.(code := [WaitScan] + rest, cpu := HELD);
    TwoSlots(run, CHILD, asleep);
    ScanStep(s5, 1, rest, 0);
    assert s5.t[2].parent == Some(1);
    var s6 := HandedOver(s5.(t := Two(asleep, CHILD)), 1, [ClearChan, WaitScan] + rest);
    OneStep(s5, s6);
    GoOn(s2, 3, 1);
    AfterStep(s6, 2);
    var s7 := s6.(proc := None, code := [Scan(2)]);
    OneStep(s6, s7);
    GoOn(s2, 4, 1);
    TwoSlots(asleep, CHILD, CHILD.(state := Running));
    ScanFinds(s7, 2, 2);
    GoOn(s2, 5, 1);
  }

  const DEAD: Proc := Proc(Zombie, 2, Some(1), None, false)

  /** The child, in user mode, exits: it is dead, init is awake, and the scheduler goes on past the child's slot. */
  lemma ChildExits(on: bool) returns (u: State)
    ensures var s := ChildStarts(on);
            && u == Run(s, seq(3, _ => Continue) + (Then(Syscall, 1) + Then(DoExit, 4)))
            && u == s.(t := Two(Proc(Ready, 1, None, Some(ProcChan(1)), false), DEAD), self := SchedulerCtx, code := [AfterSwtch(3)],
                       ctx := s.ctx[2 := u.ctx[2]], exited := [2])
  {
    hide Run, Next, Go, Boot, Two, ExitLeaves, Exited;
    var s := ChildStarts(on);
    var asleep, run := Proc(Sleeping, 1, None, Some(ProcChan(1)), false), CHILD.(state := Running);
    BootFacts(on);
    TwoSlots(asleep, run, run);
    var tail := Then(Syscall, 1) + Then(DoExit, 4);
    RunCat(s, seq(3, _ => Continue), tail);
    GoIsRun(s, 3);
    FirstReturn(s);
    var s1 := s.(code := [], cpu := ON);
    RunCat(s1, Then(Syscall, 1), Then(DoExit, 4));
    RunThen(s1, Syscall, 1);
    CallStarts(s1, 2);
    var s2 := s1.(code := [CALL] + Tail());
    RunThen(s2, DoExit, 4);
    CallMakes(s2);
    var s3 := s1.(code := [Exit] + []);
    ExitDies(s3, 2, []);
    u := Go(s3, 4);
    ChildLeft(s3.t, u.t);
  }

  lemma ChildLeft(t: Procs, t': Procs)
    requires t == Two(Proc(Sleeping, 1, None, Some(ProcChan(1)), false), CHILD.(state := Running)) && ExitLeaves(t, t', 2)
    ensures t' == Two(Proc(Ready, 1, None, Some(ProcChan(1)), false), DEAD)
  {
    hide HasZombieChild;
    TwoSlots(t[1], t[2], t[1]);
    forall q: nat | q < NPROC ensures t'[q] == Two(Proc(Ready, 1, None, Some(ProcChan(1)), false), DEAD)[q] {
      assert t'[q] == AfterExit(t, 2, q);
    }
  }

  /** The scheduler comes round from slot 3 to init. */
  lemma ComesRound(u: State)
    requires u.panic.None? && u.code == [AfterSwtch(3)] && u.cpu == HELD
    requires u.t == Two(Proc(Ready, 1, None, Some(ProcChan(1)), false), DEAD)
    ensures Go(u, 70) == Picked(u, 1)
  {
    hide Next, Go, Two, UnlockOps;
    TwoSlots(Proc(Ready, 1, None, Some(ProcChan(1)), false), DEAD, DEAD);
    AfterStep(u, 3);
    var u1 := u.(proc := None, code := [Scan(3)]);
    OneStep(u, u1);
    ScanEnds(u1, 3);
    GoOn(u, 1, 62);
    var u2 := u1.(code := UnlockOps(Ptable) + [SchedLoop]);
    ScanOver(u2);
    GoOn(u, 63, 5);
    var u3 := u2.(code := [Scan(0)]);
    ScanFinds(u3, 0, 1);
    GoOn(u, 68, 2);
  }

  /** Resumed in wait, init reaps the child. */
  lemma WaitReaps(s: State, rest: Code)
    requires s.panic.None? && s.proc == Some(1) && s.code == [RestoreIntOn(true)] + ([ClearChan, WaitScan] + rest) && s.cpu == HELD
    requires s.t == Two(Proc(Running, 1, None, Some(ProcChan(1)), false), DEAD)
    ensures Go(s, 3) == s.(t := Two(READY1.(state := Running), CLEARED), reaped := s.reaped + [2], code := UnlockOps(Ptable) + rest)
  {
    hide Next, Go, Two, UnlockOps;
    RestoreStep(s, true, [ClearChan, WaitScan] + rest);
    var s1 := s.(code := [ClearChan] + ([WaitScan] + rest));
    assert [ClearChan, WaitScan] + rest == [ClearChan] + ([WaitScan] + rest);
    TwoSlots(Proc(Running, 1, None, Some(ProcChan(1)), false), DEAD, READY1.(state := Running));
    ClearStep(s1, 1, [WaitScan] + rest);
    GoOn(s, 1, 1);
    var s2 := s.(t := Two(READY1.(state := Running), DEAD), code := [WaitScan] + rest);
    TwoSlots(READY1.(state := Running), DEAD, CLEARED);
    ScanStep(s2, 1, rest, 2);
    OneStep(s2, s2.(t := Two(READY1.(state := Running), CLEARED), reaped := s.reaped + [2], code := UnlockOps(Ptable) + rest));
    GoOn(s, 2, 1);
  }

  /** The scheduler comes round to init, whose wait reaps the child. */
  lemma InitReaps(on: bool, u: State)
    requires var s := ChildStarts(on);
             u == s.(t := Two(Proc(Ready, 1, None, Some(ProcChan(1)), false), DEAD), self := SchedulerCtx, code := [AfterSwtch(3)],
                     ctx := s.ctx[2 := u.ctx[2]], exited := [2])
    ensures var v := Run(u, seq(73, _ => Continue));
            && v.t == Two(READY1.(state := Running), CLEARED) && v.reaped == [2] && v.exited == [2] && v.panic.None?
            && v.self == ProcCtx(1) && v.code == UnlockOps(Ptable) + ([CALL] + Tail())
  {
    hide Run, Next, Go, Boot, Two, UnlockOps;
    BootFacts(on);
    TwoSlots(Proc(Ready, 1, None, Some(ProcChan(1)), false), DEAD, Proc(Running, 1, None, Some(ProcChan(1)), false));
    GoIsRun(u, 73);
    ComesRound(u);
    WaitReaps(Picked(u, 1), [CALL] + Tail());
    GoOn(u, 70, 3);
  }

  /** There is such a run: fork, wait, exit, and the one exited child is the one reaped; at its end init is about to return from wait. */
  lemma FirstFamily(on: bool) returns (cs: seq<Choice>)
    ensures var v := Run(Boot(on), cs);
            && v.exited == [2] && v.reaped == [2] && v.t == Two(READY1.(state := Running), CLEARED) && v.panic.None?
            && v.self == ProcCtx(1) && v.code == UnlockOps(Ptable) + ([CALL] + Tail())
  {
    hide Run, Next, Boot, Two, UnlockOps;
    var c1, c2 := seq(8, _ => Continue), Then(Syscall, 1) + Then(DoFork, 12);
    var c3, c4, c5 := Then(DoWait, 6), seq(3, _ => Continue) + (Then(Syscall, 1) + Then(DoExit, 4)), seq(73, _ => Continue);
    InitAtUser(on);
    InitForks(on);
    InitWaits(on);
    var u := ChildExits(on);
    InitReaps(on, u);
    cs := c1 + (c2 + (c3 + (c4 + c5)));
    RunCat(Boot(on), c1, c2 + (c3 + (c4 + c5)));
    RunCat(FirstUser(on), c2, c3 + (c4 + c5));
    RunCat(Run(FirstUser(on), c2), c3, c4 + c5);
    RunCat(ChildStarts(on), c4, c5);
  }
}
