/**
 What the scheduler does for a ready process: its scan finds the first one, init executes, and nobody who is ready is passed over.
 */
module KernelProgress {
  import opened Wrappers
  import opened ProcTable
  import opened Spinlock
  import opened Kernel
  import opened KernelSafety
  import opened KernelRuns
  import opened KernelTheorems

  /** n steps of the code, with no interrupt and nothing chosen. */
  function Go(s: State, n: nat): State
    decreases n
  {
    if n == 0 then s else Go(Next(s, Continue), n - 1)
  }

  lemma {:induction false} GoIsRun(s: State, n: nat)
    ensures Go(s, n) == Run(s, seq(n, _ => Continue))
    decreases n
  {
    var cs := seq(n, _ => Continue);
    if n > 0 {
      assert cs[1..] == seq(n - 1, _ => Continue);
      GoIsRun(Next(s, Continue), n - 1);
    }
  }

  lemma {:induction false} GoOn(s: State, m: nat, n: nat)
    ensures Go(Go(s, m), n) == Go(s, m + n)
    decreases m
  {
    hide Next;
    if m > 0 {
      GoOn(Next(s, Continue), m - 1, n);
    }
  }

  // ------------------------------------------------------------- the scan

  predicate FirstReady(t: Procs, i: nat, r: nat) {
    i <= r < NPROC && t[r].state == Ready && forall j :: i <= j < r ==> t[j].state != Ready
  }

  predicate NoneReady(t: Procs, i: nat) {
    forall j :: i <= j < NPROC ==> t[j].state != Ready
  }

  /** The CPU in process r, where it left off. */
  function Picked(s: State, r: nat): State
    requires r < NPROC
  {
    s.(t := s.t[r := s.t[r].(state := Running)], proc := Some(r), self := ProcCtx(r), sched := [AfterSwtch(r + 1)], code := s.ctx[r])
  }

  lemma {:induction false} ScanFinds(s: State, i: nat, r: nat)
    requires s.panic.None? && s.code == [Scan(i)] && FirstReady(s.t, i, r)
    ensures Go(s, r - i + 1) == Picked(s, r)
    decreases r - i
  {
    var s1 := Next(s, Continue);
    if i < r {
      assert s1 == s.(code := [Scan(i + 1)]);
      ScanFinds(s1, i + 1, r);
    } else {
      assert s1 == Picked(s, r);
      assert Go(s1, 0) == s1;
    }
  }

  lemma {:induction false} ScanEnds(s: State, i: nat)
    requires s.panic.None? && s.code == [Scan(i)] && NoneReady(s.t, i)
    ensures Go(s, (if i < NPROC then NPROC - i else 0) + 1) == s.(code := UnlockOps(Ptable) + [SchedLoop])
    decreases NPROC - i
  {
    var s1 := Next(s, Continue);
    if i < NPROC {
      assert s1 == s.(code := [Scan(i + 1)]);
      ScanEnds(s1, i + 1);
    } else {
      assert Go(s1, 0) == s1;
    }
  }

  /** The lock is released, interrupts are let in, and the scan starts over at slot 0 with the lock. */
  lemma ScanOver(s: State)
    requires s.panic.None? && s.code == UnlockOps(Ptable) + [SchedLoop] && s.cpu.locked == {Ptable} && s.cpu.ncli == 1 && !s.cpu.ifl
    ensures Go(s, 2).code == [SchedLoop] && Go(s, 2).cpu.locked == {} && Go(s, 2).t == s.t
    ensures Go(s, 5) == s.(code := [Scan(0)], cpu := s.cpu.(intOn := true))
  {
    var s1 := Next(s, Continue);
    assert s1 == s.(code := [PopCli, SchedLoop], cpu := s.cpu.(locked := {}));
    var s2 := Next(s1, Continue);
    assert s2 == s.(code := [SchedLoop], cpu := s2.cpu) && s2.cpu.locked == {} && s2.cpu.ncli == 0;
    LoopScans(s2);
    hide Next;
    assert Go(s, 2) == Go(s1, 1) == Go(s2, 0);
    GoOn(s, 2, 3);
  }

  /**
   The scheduler at slot i, in every run: if some slot from i on is ready, the first such process is running, at the point it left off, after as
   many steps as there are slots up to it; if none is, the lock is let go and the scan starts again, with the table as it was.
   */
  lemma SchedulerScans(on: bool, cs: seq<Choice>, i: nat, r: nat)
    ensures var s := Run(Boot(on), cs);
            s.panic.None? && s.code != [] && s.code[0] == Scan(i) ==>
              && s.cpu.locked == {Ptable} && s.self == SchedulerCtx
              && (FirstReady(s.t, i, r) ==> Go(s, r - i + 1) == Picked(s, r))
              && (NoneReady(s.t, i) ==>
                    var n := (if i < NPROC then NPROC - i else 0) + 1;
                    && Go(s, n + 2).cpu.locked == {} && Go(s, n + 2).t == s.t
                    && Go(s, n + 5) == s.(code := [Scan(0)], cpu := s.cpu.(intOn := true)))
  {
    hide Go, Ok, Run, Boot, TableOk, AllSaved, Forking;
    Reachable(on, cs);
    var s := Run(Boot(on), cs);
    if s.panic.None? && s.code != [] && s.code[0] == Scan(i) {
      SwitchFacts(s);
      SchedulerCode(s);
      assert s.code == [Scan(i)];
      if FirstReady(s.t, i, r) {
        ScanFinds(s, i, r);
      }
      if NoneReady(s.t, i) {
        var n := (if i < NPROC then NPROC - i else 0) + 1;
        ScanEnds(s, i);
        ScanOver(Go(s, n));
        GoOn(s, n, 2);
        GoOn(s, n, 5);
      }
    }
  }

  /** From boot the kernel reaches init, in user mode with interrupts on. */
  lemma InitExecutes(on: bool)
    ensures Run(Boot(on), seq(8, _ => Continue)) ==
            Boot(on).(t := Boot(on).t[INIT := Proc(Running, 1, None, None, false)], cpu := Cpu(0, true, true, {}), proc := Some(INIT),
                      self := ProcCtx(INIT), sched := [AfterSwtch(INIT + 1)], code := [])
  {
    hide Next, Go, Run;
    var s := Boot(on);
    BootFacts(on);
    GoIsRun(s, 8);
    LoopScans(s);
    var s3 := s.(code := [Scan(0)], cpu := Cpu(1, true, false, {Ptable}));
    ScanFinds(s3, 0, 1);
    GoOn(s, 3, 2);
    var s5 := Picked(s3, 1);
    FirstReturn(s5);
    GoOn(s, 5, 3);
  }

  lemma BootFacts(on: bool)
    ensures var s := Boot(on);
            && s.t[0] == CLEARED && s.t[1] == Proc(Ready, 1, None, None, false) && FirstReady(s.t, 0, 1)
            && s.ctx[1] == ForkRet() && s.code == [SchedLoop] && s.cpu == Cpu(0, on, false, {}) && s.panic.None?
            && s.nextpid == 2 && s.exited == [] && s.reaped == []
  {
  }

  lemma LoopScans(s: State)
    requires s.panic.None? && s.code == [SchedLoop] && s.cpu.ncli == 0 && s.cpu.locked == {}
    ensures Go(s, 3) == s.(code := [Scan(0)], cpu := Cpu(1, true, false, {Ptable}))
  {
    var s1 := Next(s, Continue);
    assert s1 == s.(code := [PushCli, Acquire(Ptable), Scan(0)], cpu := s.cpu.(ifl := true));
    var s2 := Next(s1, Continue);
    assert s2 == s.(code := [Acquire(Ptable), Scan(0)], cpu := Cpu(1, true, false, {}));
    var s3 := Next(s2, Continue);
    assert s3 == s.(code := [Scan(0)], cpu := Cpu(1, true, false, {Ptable}));
    hide Next;
    assert Go(s, 3) == Go(s1, 2) == Go(s2, 1) == Go(s3, 0);
  }

  /** forkret and trapret: a new process lets go of the table's lock and enters user mode. */
  lemma FirstReturn(s: State)
    requires s.panic.None? && s.code == ForkRet() && s.cpu.locked == {Ptable} && s.cpu.ncli == 1 && !s.cpu.ifl
    ensures Go(s, 3) == s.(code := [], cpu := s.cpu.(ncli := 0, ifl := true, locked := {}))
  {
    var s1 := Next(s, Continue);
    assert s1 == s.(code := [PopCli, Iret(true)], cpu := s.cpu.(locked := {}));
    var s2 := Next(s1, Continue);
    assert s2 == s.(code := [Iret(true)], cpu := s2.cpu) && s2.cpu.(ifl := true) == s.cpu.(ncli := 0, ifl := true, locked := {});
    var s3 := Next(s2, Continue);
    assert s3 == s.(code := [], cpu := s.cpu.(ncli := 0, ifl := true, locked := {}));
    hide Next;
    assert Go(s, 3) == Go(s1, 2) == Go(s2, 1) == Go(s3, 0);
  }

  // ------------------------------------------------------ nobody is passed over

  function SlotOf(op: Op): nat {
    match op
    case Scan(i) => i
    case AfterSwtch(i) => i
    case _ => 0
  }

  predicate SchedOp(op: Op) { op.SchedLoop? || op.Scan? || op.AfterSwtch? }

  /** The slot the scheduler looks at next, now or when it gets the CPU back. */
  function Place(s: State): nat {
    var code := if s.self.ProcCtx? then s.sched else s.code;
    if code == [] then 0 else SlotOf(code[|code| - 1])
  }

  /** How many slots it looks at before p's. */
  function Distance(s: State, p: nat): int {
    if Place(s) <= p then p - Place(s) else p + NPROC + 1 - Place(s)
  }

  /** The scheduler's code ends in its loop. */
  lemma {:induction false} EndsInLoop(code: Code, l: set<LockId>, n: int, b: bool)
    requires Ok(code, l, n, b, SchedulerCtx)
    ensures code != [] && SchedOp(code[|code| - 1])
    decreases |code|
  {
    if code != [] && !SchedOp(code[0]) {
      assert code[0].PushCli? || code[0].PopCli? || code[0].Acquire? || code[0].Release? || code[0].RestoreIntOn? || code[0].Iret?
          || code[0].Client? || code[0].WakeAll?;
      RestEnds(code, l, n, b);
    }
  }

  lemma {:induction false} RestEnds(code: Code, l: set<LockId>, n: int, b: bool)
    requires Ok(code, l, n, b, SchedulerCtx) && code != [] && !SchedOp(code[0])
    ensures |code| > 1 && SchedOp(code[|code| - 1])
    decreases |code|, 0
  {
    var rest := code[1..];
    match code[0] {
      case PushCli => EndsInLoop(rest, l, n + 1, b);
      case PopCli => EndsInLoop(rest, l, n - 1, b);
      case Acquire(lk) => EndsInLoop(rest, l + {lk}, n, b);
      case Release(lk) => EndsInLoop(rest, l - {lk}, n, b);
      case RestoreIntOn(on) => EndsInLoop(rest, l, n, on);
      case Iret(on) => EndsInLoop(rest, l, n, on);
      case Client(_, _, _) => EndsInLoop(rest, {}, 0, b);
      case WakeAll(_) => EndsInLoop(rest, l, n, b);
      case _ =>
    }
  }

  /** The step puts a process on the CPU. */
  predicate Dispatches(s: State, s': State) {
    s.self.SchedulerCtx? && s'.self.ProcCtx?
  }

  ghost predicate PlaceOk(s: State) {
    Place(s) <= NPROC
  }

  /** The scheduler's place moves on or stays, and a dispatch moves it past the one dispatched. */
  ghost predicate MovesPast(s: State, s': State, p: nat) {
    PlaceOk(s') && Distance(s', p) + (if Dispatches(s, s') then 1 else 0) <= Distance(s, p)
  }

  lemma SamePlace(s: State, s': State, p: nat)
    requires PlaceOk(s) && s'.self == s.self
    requires if s.self.ProcCtx? then s'.sched == s.sched else s.code != [] && s'.code != [] && s'.code[|s'.code| - 1] == s.code[|s.code| - 1]
    ensures MovesPast(s, s', p)
  {
  }

  lemma ClientLast(s: State, c: Choice)
    requires s.code != [] && s.code[0].Client? && !s.code[0].base && |s.code| > 1
    ensures var s' := ClientStep(s, c, s.code[0], s.code[1..]);
            s'.code != [] && s'.code[|s'.code| - 1] == s.code[|s.code| - 1]
  {
  }

  lemma ClientCpu(s: State, c: Choice)
    requires s.code != []
    ensures s.code[0].Client? ==>
              var s' := ClientStep(s, c, s.code[0], s.code[1..]);
              s'.self == s.self && s'.sched == s.sched
    ensures CpuOp(s.code[0]) ==>
              var s' := CpuStep(s, s.code[0], s.code[1..]);
              s'.self == s.self && s'.sched == s.sched && (s'.code == s.code || s'.code == s.code[1..])
  {
    hide LockOps, UnlockOps;
  }

  lemma LastKept(s: State, c: Choice)
    requires Inv(s) && s.panic.None? && s.code != [] && (s.code[0].Client? || CpuOp(s.code[0]) || s.code[0].WakeAll?)
    ensures var s' := if s.code[0].Client? then ClientStep(s, c, s.code[0], s.code[1..])
                      else if CpuOp(s.code[0]) then CpuStep(s, s.code[0], s.code[1..])
                      else s.(t := Woken(s.t, Some(s.code[0].wake)), code := s.code[1..]);
            && s'.self == s.self && s'.sched == s.sched
            && (s.self.SchedulerCtx? ==> s'.code != [] && s'.code[|s'.code| - 1] == s.code[|s.code| - 1])
  {
    hide TableOk, AllSaved, Forking, Ok, OneRunning, ClientStep, CpuStep;
    ClientCpu(s, c);
    if s.self.SchedulerCtx? {
      RestEnds(s.code, s.cpu.locked, s.cpu.ncli, s.cpu.Base());
      if s.code[0].Client? {
        ClientFacts(s.code, s.cpu.locked, s.cpu.ncli, s.cpu.Base(), s.self);
        ClientLast(s, c);
      }
    }
  }

  lemma TrapPlace(s: State, c: Choice, p: nat)
    requires Inv(s) && PlaceOk(s)
    ensures MovesPast(s, TrapStep(s, c), p)
  {
    hide TableOk, AllSaved, Forking, Ok;
    if s.self.SchedulerCtx? {
      EndsInLoop(s.code, s.cpu.locked, s.cpu.ncli, s.cpu.Base());
    }
    SamePlace(s, TrapStep(s, c), p);
  }

  lemma SchedulerPlace(s: State, p: nat)
    requires Inv(s) && PlaceOk(s) && s.panic.None? && s.code != [] && SchedOp(s.code[0]) && p < NPROC
    requires s.code[0] != Scan(p)
    ensures MovesPast(s, SchedulerStep(s, s.code[0], s.code[1..]), p)
  {
    hide TableOk, AllSaved, Forking, Ok;
    SchedulerCode(s);
    var s' := SchedulerStep(s, s.code[0], s.code[1..]);
    if s.code[0].SchedLoop? {
      assert s'.code[|s'.code| - 1] == Scan(0);
    } else if s.code[0].Scan? && s.code[0].i >= NPROC {
      assert s'.code[|s'.code| - 1] == SchedLoop;
    }
  }

  lemma SchedPlace(s: State, s1: State, rest: Code, p: nat)
    requires PlaceOk(s) && s.self.ProcCtx? && s1 == s.(t := s1.t, exited := s1.exited) && s.sched != []
    ensures MovesPast(s, SchedStep(s1, rest), p)
  {
  }

  lemma SchedIs(s: State)
    requires Inv(s) && s.self.ProcCtx?
    ensures s.sched != []
  {
  }

  lemma ProcPlace(s: State, c: Choice, p: nat)
    requires Inv(s) && PlaceOk(s) && s.panic.None? && s.code != [] && ProcOp(s.code[0]) && s.self.ProcCtx?
    requires s.proc == Some(s.self.slot) && s.self.slot < NPROC
    ensures MovesPast(s, ProcStep(s, c, s.proc.value, s.code[0], s.code[1..]), p)
  {
    hide Inv, SchedStep, LockOps, UnlockOps, ForkRet, Exited, FindUnused, FindZombie, HasChild, MovesPast;
    SchedIs(s);
    var op, q, rest := s.code[0], s.self.slot, s.code[1..];
    if op.ExitSwitch? {
      SchedPlace(s, s.(t := Exited(s.t, q), exited := s.exited + [s.t[q].pid]), [NoReturn], p);
    } else if op.SleepSwitch? {
      SchedPlace(s, SetProc(s, q, s.t[q].(chan := Some(op.chan), state := Sleeping)), rest, p);
    } else if op.ReadySwitch? {
      SchedPlace(s, SetProc(s, q, s.t[q].(state := Ready)), rest, p);
    } else if op.WaitScan? && (FindZombie(s.t, q, 0).Some? || !HasChild(s.t, q) || s.t[q].killed) {
      SamePlace(s, ProcStep(s, c, q, op, rest), p);
    } else if op.WaitScan? {
      SchedPlace(s, SetProc(s, q, s.t[q].(chan := Some(ProcChan(q)), state := Sleeping)), [ClearChan, WaitScan] + rest, p);
    }
    if !SwitchOp(op) {
      StaysPlaced(s, c, p);
    }
  }

  /** Every other operation of a process leaves the CPU to it. */
  lemma StaysPlaced(s: State, c: Choice, p: nat)
    requires PlaceOk(s) && s.code != [] && s.self.ProcCtx? && s.self.slot < NPROC && !SwitchOp(s.code[0])
    ensures MovesPast(s, ProcStep(s, c, s.self.slot, s.code[0], s.code[1..]), p)
  {
    hide LockOps, UnlockOps, ForkRet, Exited, FindUnused, FindZombie, HasChild;
  }

  lemma StepPlace(s: State, c: Choice, p: nat)
    requires Inv(s) && PlaceOk(s) && p < NPROC
    ensures s.t[p].state == Ready && Next(s, c).self != ProcCtx(p) ==> MovesPast(s, Next(s, c), p)
    ensures PlaceOk(Next(s, c))
  {
    hide Ok, TableOk, AllSaved, Forking, ProcStep, SchedulerStep, CpuStep, ClientStep, TrapStep;
    if s.panic.None? {
      if c.Irq? || c.Fault? || c.Syscall? {
        TrapPlace(s, c, p);
      } else if s.code != [] {
        if s.code[0].Client? || CpuOp(s.code[0]) || s.code[0].WakeAll? {
          LastKept(s, c);
          SamePlace(s, Next(s, c), p);
        } else if SchedOp(s.code[0]) {
          ScanPlace(s, p);
        } else {
          ProcFacts(s);
          ProcPlace(s, c, p);
        }
      }
    }
  }

  lemma ScanPlace(s: State, p: nat)
    requires Inv(s) && PlaceOk(s) && s.panic.None? && s.code != [] && SchedOp(s.code[0]) && p < NPROC
    ensures var s' := SchedulerStep(s, s.code[0], s.code[1..]);
            PlaceOk(s') && (s.code[0] == Scan(p) && s.t[p].state == Ready ==> s'.self == ProcCtx(p))
            && (s.code[0] != Scan(p) ==> MovesPast(s, s', p))
  {
    if s.code[0] != Scan(p) {
      SchedulerPlace(s, p);
    }
  }

  function DispatchCount(s: State, cs: seq<Choice>): nat
    decreases |cs|
  {
    if cs == [] then 0
    else (if Dispatches(s, Next(s, cs[0])) then 1 else 0) + DispatchCount(Next(s, cs[0]), cs[1..])
  }

  lemma {:induction false} WaitsAtMost(s: State, cs: seq<Choice>, p: nat)
    requires Inv(s) && PlaceOk(s) && p < NPROC && s.t[p].state == Ready && Away(s, cs, p)
    ensures Run(s, cs).t[p].state == Ready && DispatchCount(s, cs) + Distance(Run(s, cs), p) <= Distance(s, p)
    decreases |cs|
  {
    hide Inv, Next;
    if cs != [] {
      StepKeeps(s, cs[0]);
      ReadyStays(s, cs[0], p);
      StepPlace(s, cs[0], p);
      WaitsAtMost(Next(s, cs[0]), cs[1..], p);
    }
  }

  lemma ReadyStays(s: State, c: Choice, p: nat)
    requires Inv(s) && p < NPROC && s.t[p].state == Ready && s.self != ProcCtx(p)
    ensures Next(s, c).self != ProcCtx(p) ==> Next(s, c).t[p].state == Ready
  {
    hide Ok, TableOk, AllSaved, Forking, Next;
    ParkedStep(s, c, p);
  }

  lemma {:induction false} PlaceRun(s: State, cs: seq<Choice>)
    requires Inv(s) && PlaceOk(s)
    ensures PlaceOk(Run(s, cs)) && Inv(Run(s, cs))
    decreases |cs|
  {
    hide Inv, PlaceOk, Next;
    if cs != [] {
      StepKeeps(s, cs[0]);
      StepPlace(s, cs[0], 0);
      PlaceRun(Next(s, cs[0]), cs[1..]);
    }
  }

  /**
   No starvation: from any state of any run in which process p is ready, however long it is before p runs, other processes are put on
   the CPU at most as often as there are slots from the scheduler's place round to p's, so never more than 64 times.
   */
  lemma NobodyPassedOver(on: bool, before: seq<Choice>, cs: seq<Choice>, p: nat)
    requires p < NPROC
    ensures var s := Run(Boot(on), before);
            s.t[p].state == Ready && Away(s, cs, p) ==>
              && Run(s, cs).t[p].state == Ready
              && DispatchCount(s, cs) <= Distance(s, p) <= NPROC
  {
    hide Run, Inv, Next, Away, Boot;
    BootOk(on);
    BootPlace(on);
    PlaceRun(Boot(on), before);
    var s := Run(Boot(on), before);
    if s.t[p].state == Ready && Away(s, cs, p) {
      WaitsAtMost(s, cs, p);
      EndPlace(s, cs);
    }
  }

  lemma BootPlace(on: bool)
    ensures PlaceOk(Boot(on))
  {
  }

  lemma EndPlace(s: State, cs: seq<Choice>)
    requires Inv(s) && PlaceOk(s)
    ensures forall p: nat :: p < NPROC ==> Distance(Run(s, cs), p) >= 0
  {
    PlaceRun(s, cs);
  }
}
