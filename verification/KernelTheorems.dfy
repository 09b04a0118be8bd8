/**
 The kernel's guarantees, each for every state of every run from boot: lock hand-over and interrupts, one running
 process, the process tree, and wait.
 */
module KernelTheorems {
  import opened Wrappers
  import opened ProcTable
  import opened Spinlock
  import opened Kernel
  import opened KernelSafety
  import opened KernelRuns

  lemma Reachable(on: bool, cs: seq<Choice>)
    ensures Inv(Run(Boot(on), cs))
  {
    BootOk(on);
    RunKeeps(Boot(on), cs);
  }

  /**
   At most ncli locks are held, interrupts are on only with none pending, no lock or sched check ever panics, and code
   that runs always finds exactly the locks it took, and the interrupt setting it came with, however often it was
   switched out or interrupted.
   */
  lemma LockDiscipline(on: bool, cs: seq<Choice>)
    ensures var s := Run(Boot(on), cs);
            && |s.cpu.locked| <= s.cpu.ncli
            && (s.cpu.ifl ==> s.cpu.ncli == 0 && s.cpu.locked == {})
            && (s.panic.Some? ==> s.panic.value == OutOfPids || s.panic.value == InitExits)
            && (s.code == [] ==> s.self.ProcCtx? && s.cpu.ifl)
            && (s.code != [] && s.code[0].Client? ==>
                  && s.cpu.locked == s.code[0].held
                  && s.cpu.ncli == |s.code[0].held| + s.code[0].extra
                  && s.code[0].base == if s.cpu.ncli == 0 then s.cpu.ifl else s.cpu.intOn)
  {
    Reachable(on, cs);
    var s := Run(Boot(on), cs);
    if s.code == [] {
      UserMode(s);
    } else if s.code[0].Client? {
      ClientFacts(s.code, s.cpu.locked, s.cpu.ncli, s.cpu.Base(), s.self);
    }
  }

  predicate SwitchOp(op: Op) {
    op.Scan? || op.SleepSwitch? || op.ReadySwitch? || op.ExitSwitch? || op.WaitScan?
  }

  lemma NonSwitchOp(s: State, c: Choice, p: nat, op: Op, rest: Code)
    requires !SwitchOp(op) && p < NPROC
    ensures ProcStep(s, c, p, op, rest).self == s.self
    ensures SchedulerStep(s, op, rest).self == s.self
  {
    hide LockOps, UnlockOps, ForkRet, FindUnused;
  }

  /** The CPU changes stacks only in the scheduler's scan and in sched. */
  lemma OnlySwitchOps(s: State, c: Choice)
    requires Next(s, c).self != s.self
    ensures s.panic.None? && s.code != [] && SwitchOp(s.code[0])
    ensures s.code[0].Scan? ==> Next(s, c) == SchedulerStep(s, s.code[0], s.code[1..])
    ensures !s.code[0].Scan? ==>
              && s.proc.Some? && s.proc.value < NPROC
              && Next(s, c) == ProcStep(s, c, s.proc.value, s.code[0], s.code[1..])
  {
    hide LockOps, UnlockOps, ProcStep, SchedulerStep;
    if s.code != [] && !SwitchOp(s.code[0]) {
      NonSwitchOp(s, c, if s.proc.Some? && s.proc.value < NPROC then s.proc.value else 0, s.code[0], s.code[1..]);
    }
  }

  lemma SwitchFacts(s: State)
    requires Control(s) && s.code != [] && SwitchOp(s.code[0])
    ensures s.cpu.locked == {Ptable} && s.cpu.ncli == 1 && (s.self == SchedulerCtx <==> s.code[0].Scan?)
  {
  }

  /** Every switch is between the scheduler and a process, with the table's lock alone held, interrupts off, ncli 1. */
  lemma SwitchHandover(on: bool, cs: seq<Choice>, c: Choice)
    ensures var s := Run(Boot(on), cs);
            var s' := Next(s, c);
            s'.self != s.self ==>
              && s.cpu.locked == {Ptable} && s.cpu.ncli == 1 && !s.cpu.ifl && s'.cpu == s.cpu
              && (s.self == SchedulerCtx) == (s'.self != SchedulerCtx)
  {
    hide TableOk, AllSaved, Forking, Ok, Run, Next;
    Reachable(on, cs);
    var s := Run(Boot(on), cs);
    var s' := Next(s, c);
    if s'.self != s.self {
      OnlySwitchOps(s, c);
      SwitchFacts(s);
    }
  }

  /** At most one process runs: the CPU's current one, and none while the scheduler executes. */
  lemma OneRunningProcess(on: bool, cs: seq<Choice>, p: nat)
    requires p < NPROC
    ensures var s := Run(Boot(on), cs);
            s.t[p].state == Running <==> s.self == ProcCtx(p)
    ensures var s := Run(Boot(on), cs);
            s.t[p].state == Running ==> s.proc == Some(p)
  {
    Reachable(on, cs);
  }

  // -------------------------------------------------- resuming with one's own int_on

  /** Process p does not execute before the last state of the run. */
  ghost predicate Away(s: State, cs: seq<Choice>, p: nat)
    decreases |cs|
  {
    s.self != ProcCtx(p) && (cs != [] ==> Away(Next(s, cs[0]), cs[1..], p))
  }

  ghost predicate Parked(s: State, p: nat, saved: Code) {
    && p < NPROC && (s.t[p].state == Ready || s.t[p].state == Sleeping)
    && s.self != ProcCtx(p) && s.ctx[p] == saved
  }

  lemma ExitStays(s: State, p: nat, q: nat)
    requires Inv(s) && q < NPROC && p < NPROC && p != q && s.self == ProcCtx(q) && q != INIT
    requires s.t[p].state == Ready || s.t[p].state == Sleeping
    ensures Exited(s.t, q)[p].state == Ready || (Exited(s.t, q)[p].state == Sleeping && s.t[p].state == Sleeping)
  {
    NotOwnParent(s.t, q);
    ExitedAt(s.t, q, p);
  }

  /** Process p is switched out in both states, with the same saved context, and ready if it was. */
  ghost predicate Stays(s: State, s': State, p: nat)
    requires p < NPROC
  {
    && (s'.t[p].state == Ready || s'.t[p].state == Sleeping) && s'.ctx[p] == s.ctx[p] && s'.self != ProcCtx(p)
    && (s.t[p].state == Ready ==> s'.t[p].state == Ready)
  }

  lemma SchedStays(s: State, s1: State, rest: Code, p: nat)
    requires p < NPROC && s.self != ProcCtx(p) && s1.self == s.self && s1.ctx == s.ctx && s1.proc != Some(p)
    requires (s1.t[p].state == Ready || s1.t[p].state == Sleeping) && (s.t[p].state == Ready ==> s1.t[p].state == Ready)
    ensures Stays(s, SchedStep(s1, rest), p)
  {
  }

  lemma ProcStays(s: State, c: Choice, p: nat, q: nat)
    requires Inv(s) && s.panic.None? && s.code != [] && ProcOp(s.code[0])
    requires s.self == ProcCtx(q) && q < NPROC && s.proc == Some(q)
    requires p < NPROC && p != q && (s.t[p].state == Ready || s.t[p].state == Sleeping)
    ensures Stays(s, ProcStep(s, c, q, s.code[0], s.code[1..]), p)
  {
    hide Ok, TableOk, AllSaved, OneRunning, Plain, Exited, LockOps, UnlockOps, ForkRet, SchedStep;
    var op, rest := s.code[0], s.code[1..];
    ProcFacts(s);
    if ForkOp(op) {
      assert ForkOpOk(s, op);
    } else if op.ExitSwitch? {
      ExitStays(s, p, q);
      SchedStays(s, s.(t := Exited(s.t, q), exited := s.exited + [s.t[q].pid]), [NoReturn], p);
    } else if op.SleepSwitch? {
      SchedStays(s, SetProc(s, q, s.t[q].(chan := Some(op.chan), state := Sleeping)), rest, p);
    } else if op.ReadySwitch? {
      SchedStays(s, SetProc(s, q, s.t[q].(state := Ready)), rest, p);
    } else if op.WaitScan? {
      SchedStays(s, SetProc(s, q, s.t[q].(chan := Some(ProcChan(q)), state := Sleeping)), [ClearChan, WaitScan] + rest, p);
    }
  }

  lemma TrapStays(s: State, c: Choice, p: nat)
    requires p < NPROC && Stays(s, s, p)
    ensures Stays(s, TrapStep(s, c), p)
  {
  }

  lemma CodeStays(s: State, c: Choice, p: nat)
    requires p < NPROC && Stays(s, s, p) && s.code != []
    ensures s.code[0].Client? ==> Stays(s, ClientStep(s, c, s.code[0], s.code[1..]), p)
    ensures Stays(s, CpuStep(s, s.code[0], s.code[1..]), p)
  {
    hide LockOps, UnlockOps;
  }

  lemma SchedulerStays(s: State, p: nat)
    requires p < NPROC && Stays(s, s, p) && s.panic.None? && s.code != []
    ensures var s' := SchedulerStep(s, s.code[0], s.code[1..]);
            Stays(s, s', p) || (s'.self == ProcCtx(p) && s'.code == s.ctx[p] && s'.panic.None?)
  {
    hide LockOps, UnlockOps;
  }

  /** A process that is switched out keeps its saved context until the scheduler resumes it there. */
  lemma ParkedStep(s: State, c: Choice, p: nat)
    requires Inv(s) && p < NPROC && Parked(s, p, s.ctx[p])
    ensures var s' := Next(s, c);
            || (Parked(s', p, s.ctx[p]) && (s.t[p].state == Ready ==> s'.t[p].state == Ready))
            || (s'.self == ProcCtx(p) && s'.code == s.ctx[p] && s'.panic.None?)
  {
    hide Ok, TableOk, AllSaved, Forking, ProcStep, SchedulerStep, CpuStep, ClientStep, TrapStep;
    TrapStays(s, c, p);
    if s.code != [] && s.panic.None? {
      CodeStays(s, c, p);
      SchedulerStays(s, p);
      if ProcOp(s.code[0]) {
        ProcFacts(s);
        ProcStays(s, c, p, s.self.slot);
      }
    }
  }

  lemma {:induction false} ParkedRun(s: State, cs: seq<Choice>, p: nat)
    requires Inv(s) && p < NPROC && Parked(s, p, s.ctx[p]) && Away(s, cs, p)
    ensures Inv(Run(s, cs)) && Parked(Run(s, cs), p, s.ctx[p])
    decreases |cs|
  {
    hide Inv, Parked, Next;
    if cs != [] {
      StepKeeps(s, cs[0]);
      ParkedStep(s, cs[0], p);
      IsParked(Next(s, cs[0]), p, s.ctx[p]);
      ParkedRun(Next(s, cs[0]), cs[1..], p);
    }
  }

  lemma IsParked(s: State, p: nat, saved: Code)
    requires Parked(s, p, saved)
    ensures s.ctx[p] == saved
  {
  }

  /**
   A process resuming from sched regains its own int_on: whatever runs between the step that switches p out and the
   step that next resumes it, p comes back at the saved point and its first operation restores the int_on it left with.
   */
  lemma RegainsIntOn(on: bool, before: seq<Choice>, out: Choice, cs: seq<Choice>, back: Choice, p: nat)
    requires p < NPROC
    ensures var s := Run(Boot(on), before);
            var s1 := Next(s, out);
            var u := Next(Run(s1, cs), back);
            && s.self == ProcCtx(p) && s1.self != ProcCtx(p) && s1.t[p].state != Zombie
            && Away(s1, cs, p) && u.self == ProcCtx(p)
            ==> Next(u, Continue).cpu == u.cpu.(intOn := s.cpu.intOn) && u.cpu.locked == {Ptable} && u.cpu.ncli == 1
  {
    hide Run, Inv, Next, Away;
    var s := Run(Boot(on), before);
    var s1 := Next(s, out);
    if s.self == ProcCtx(p) && s1.self != ProcCtx(p) && s1.t[p].state != Zombie && Away(s1, cs, p) &&
       Next(Run(s1, cs), back).self == ProcCtx(p) {
      Reachable(on, before);
      SwitchedOut(s, out, p);
      StepKeeps(s, out);
      ParkedRun(s1, cs, p);
      var s2 := Run(s1, cs);
      IsParked(s2, p, s1.ctx[p]);
      Resumed(s2, back, p, s.cpu.intOn);
    }
  }

  lemma SwitchedOut(s: State, out: Choice, p: nat)
    requires Inv(s) && p < NPROC && s.self == ProcCtx(p)
    requires Next(s, out).self != ProcCtx(p) && Next(s, out).t[p].state != Zombie
    ensures var s' := Next(s, out);
            Parked(s', p, s'.ctx[p]) && s'.ctx[p] != [] && s'.ctx[p][0] == RestoreIntOn(s.cpu.intOn)
  {
    hide Ok, TableOk, AllSaved, Forking, Exited, Next;
    OnlySwitchOps(s, out);
    SwitchFacts(s);
    if s.code[0].ExitSwitch? {
      assert Next(s, out).t[p] == Exited(s.t, p)[p];
      ExitIsZombie(s.t, p);
    }
  }

  lemma ExitIsZombie(t: Procs, p: nat)
    requires p < NPROC
    ensures Exited(t, p)[p].state == Zombie
  {
  }

  lemma ParkedResumes(s: State, back: Choice, p: nat)
    requires Inv(s) && p < NPROC && Parked(s, p, s.ctx[p]) && Next(s, back).self == ProcCtx(p)
    ensures var u := Next(s, back);
            u.code == s.ctx[p] && u.panic.None? && u.cpu.locked == {Ptable} && u.cpu.ncli == 1
  {
    hide Ok, TableOk, AllSaved, Forking, Next;
    OnlySwitchOps(s, back);
    SwitchFacts(s);
    ParkedStep(s, back, p);
  }

  lemma Resumed(s: State, back: Choice, p: nat, v: bool)
    requires Inv(s) && p < NPROC && Parked(s, p, s.ctx[p]) && s.ctx[p] != [] && s.ctx[p][0] == RestoreIntOn(v)
    requires Next(s, back).self == ProcCtx(p)
    ensures var u := Next(s, back);
            Next(u, Continue).cpu == u.cpu.(intOn := v) && u.cpu.locked == {Ptable} && u.cpu.ncli == 1
  {
    hide Ok, TableOk, AllSaved, Forking, Parked, ProcStep, SchedulerStep, ClientStep, TrapStep;
    ParkedResumes(s, back, p);
  }

  // ------------------------------------------------------------------ the tree

  /** Every live process but init has a living, older parent; live pids differ; who sleeps in wait has something to wait for. */
  lemma ProcessTree(on: bool, cs: seq<Choice>, p: nat)
    requires p < NPROC
    ensures var t := Run(Boot(on), cs).t;
            && t[INIT].Alive()
            && (p != INIT && (t[p].Alive() || t[p].state == Zombie) ==>
                  && t[p].parent.Some? && t[p].parent.value < NPROC && t[t[p].parent.value].Alive()
                  && t[t[p].parent.value].pid < t[p].pid)
            && (forall q: nat :: q < NPROC && q != p && t[p].state != Unused && t[q].state != Unused ==> t[p].pid != t[q].pid)
            && (t[p].AsleepOn(Some(ProcChan(p))) ==> HasChild(t, p) && !HasZombieChild(t, p))
            && (forall q: nat :: q < NPROC && t[q].AsleepOn(Some(ProcChan(p))) ==> q == p)
  {
    Reachable(on, cs);
    var t := Run(Boot(on), cs).t;
    assert ParentOk(t, p);
    forall q: nat | q < NPROC && t[q].state == Sleeping ensures WaiterOk(t, q) {
    }
  }

  /** The parent links of every live process lead to init. */
  ghost predicate LeadsToInit(t: Procs, chain: seq<nat>) {
    && chain != [] && chain[|chain| - 1] == INIT
    && (forall i :: 0 <= i < |chain| ==> chain[i] < NPROC)
    && (forall i :: 0 <= i < |chain| - 1 ==> t[chain[i]].parent == Some(chain[i + 1]))
  }

  lemma {:induction false} Ancestors(t: Procs, p: nat) returns (chain: seq<nat>)
    requires Tree(t) && p < NPROC && (t[p].Alive() || t[p].state == Zombie)
    ensures LeadsToInit(t, chain) && chain[0] == p
    decreases t[p].pid
  {
    if p == INIT {
      return [INIT];
    }
    assert ParentOk(t, p);
    var up := Ancestors(t, t[p].parent.value);
    chain := [p] + up;
  }

  lemma AllFromInit(on: bool, cs: seq<Choice>, p: nat)
    requires p < NPROC
    ensures var t := Run(Boot(on), cs).t;
            t[p].Alive() || t[p].state == Zombie ==> exists chain :: LeadsToInit(t, chain) && chain[0] == p
  {
    Reachable(on, cs);
    var t := Run(Boot(on), cs).t;
    if t[p].Alive() || t[p].state == Zombie {
      var chain := Ancestors(t, p);
    }
  }

  /** An exited pid is reaped at most once, and until then one zombie bears it. */
  lemma ReapedOnce(on: bool, cs: seq<Choice>)
    ensures var s := Run(Boot(on), cs);
            && Distinct(s.exited) && Distinct(s.reaped)
            && (forall x :: x in s.reaped ==> x in s.exited)
            && (forall x :: x in s.exited ==> (x in s.reaped <==> !DeadWithPid(s.t, x)))
            && (forall p: nat :: p < NPROC && s.t[p].state == Zombie ==> s.t[p].pid in s.exited)
  {
    Reachable(on, cs);
  }
}
