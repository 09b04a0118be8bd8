/**
 wait: what its scan does, and that in every run a wait that comes to an end has reaped one child, or found none, or was killed;
 and that the dead stay dead.
 */
module KernelWait {
  import opened Wrappers
  import opened ProcTable
  import opened Spinlock
  import opened Kernel
  import opened KernelSafety
  import opened KernelRuns
  import opened KernelTheorems
  import opened KernelProgress
  import opened KernelCalls

  // --------------------------------------------------------------- the scan

  predicate FirstDead(t: Procs, p: nat, z: nat) {
    z < NPROC && t[z].state == Zombie && t[z].parent == Some(p) && forall j :: 0 <= j < z ==> !(t[j].state == Zombie && t[j].parent == Some(p))
  }

  predicate NoneDead(t: Procs, p: nat) {
    forall j :: 0 <= j < NPROC ==> !(t[j].state == Zombie && t[j].parent == Some(p))
  }

  predicate Childless(t: Procs, p: nat) {
    forall j :: 0 <= j < NPROC ==> t[j].parent != Some(p)
  }

  lemma ScanStep(s: State, p: nat, rest: Code, z: nat)
    requires InTable(s, p, WaitScan, rest) && s.cpu.locked == {Ptable} && s.cpu.ncli == 1 && !s.cpu.ifl
    ensures FirstDead(s.t, p, z) ==>
              Next(s, Continue) == s.(t := s.t[z := CLEARED], reaped := s.reaped + [s.t[z].pid], code := UnlockOps(Ptable) + rest)
    ensures NoneDead(s.t, p) && !Childless(s.t, p) && !s.t[p].killed ==>
              Next(s, Continue) == HandedOver(s.(t := s.t[p := s.t[p].(chan := Some(ProcChan(p)), state := Sleeping)]), p,
                                               [ClearChan, WaitScan] + rest)
    ensures NoneDead(s.t, p) && (Childless(s.t, p) || s.t[p].killed) ==> Next(s, Continue) == s.(code := UnlockOps(Ptable) + rest)
  {
    hide LockOps, UnlockOps, SchedStep, Exited;
    assert s.code[1..] == rest;
    var dead := FindZombie(s.t, p, 0);
    if FirstDead(s.t, p, z) {
      assert ZombieChild(s.t, p, z);
      assert dead == Some(z);
    }
    if NoneDead(s.t, p) {
      assert dead.None?;
      assert HasChild(s.t, p) <==> !Childless(s.t, p);
      Sched(s.(t := s.t[p := s.t[p].(chan := Some(ProcChan(p)), state := Sleeping)]), p, [ClearChan, WaitScan] + rest);
    }
  }

  /**
   The scan of wait, in every run: the caller's first dead child is freed and its pid alone reaped; with children but none dead, and not
   killed, the caller sleeps on itself; otherwise it goes on to return with the table as it was.
   */
  lemma WaitScans(on: bool, cs: seq<Choice>, p: nat, z: nat)
    requires p < NPROC
    ensures var s := Run(Boot(on), cs);
            s.panic.None? && s.self == ProcCtx(p) && s.code != [] && s.code[0] == WaitScan ==>
              var s', rest := Next(s, Continue), s.code[1..];
              && (FirstDead(s.t, p, z) ==>
                    s' == s.(t := s.t[z := CLEARED], reaped := s.reaped + [s.t[z].pid], code := UnlockOps(Ptable) + rest))
              && (NoneDead(s.t, p) && !Childless(s.t, p) && !s.t[p].killed ==>
                    && s'.self == SchedulerCtx && s'.reaped == s.reaped
                    && s'.t == s.t[p := s.t[p].(chan := Some(ProcChan(p)), state := Sleeping)])
              && (NoneDead(s.t, p) && (Childless(s.t, p) || s.t[p].killed) ==> s' == s.(code := UnlockOps(Ptable) + rest))
  {
    hide Run, Boot, TableOk, AllSaved, Forking, Next, UnlockOps;
    Reachable(on, cs);
    var s := Run(Boot(on), cs);
    if s.panic.None? && s.self == ProcCtx(p) && s.code != [] && s.code[0] == WaitScan {
      SwitchFacts(s);
      assert s.code == [WaitScan] + s.code[1..];
      ScanStep(s, p, s.code[1..], z);
    }
  }

  // --------------------------------------------------------- a wait in a run

  /** Code of an interrupt handler: it makes no process call. */
  predicate Handler(op: Op) {
    (op.Client? && !op.base) || op.PushCli? || op.PopCli? || op.Acquire? || op.Release? || op.WakeAll? || op.Iret?
  }

  predicate AllHandlers(pre: Code) {
    forall k :: 0 <= k < |pre| ==> Handler(pre[k])
  }

  predicate Resuming(code: Code, rest: Code) {
    |code| == |rest| + 3 && code[0].RestoreIntOn? && code[1..] == [ClearChan, WaitScan] + rest
  }

  /** The points of wait before its last scan. */
  predicate Pending(code: Code, rest: Code) {
    || code == [Wait] + rest
    || code == [PushCli, Acquire(Ptable), WaitScan] + rest
    || code == [Acquire(Ptable), WaitScan] + rest
    || code == [WaitScan] + rest
    || code == [ClearChan, WaitScan] + rest
    || Resuming(code, rest)
  }

  /** Process p is in a wait, or interrupted in it, or switched out in it; rest is what its caller does next. */
  ghost predicate InWait(s: State, p: nat, rest: Code) {
    && p < NPROC
    && if s.self == ProcCtx(p) then
         exists k :: 0 <= k <= |s.code| && AllHandlers(s.code[..k]) && Pending(s.code[k..], rest)
       else Parked(s, p, s.ctx[p]) && Resuming(s.ctx[p], rest)
  }

  /** The step that ends the wait: one dead child is reaped, or there is none and no child either, or the caller was killed. */
  ghost predicate Decides(s: State, s': State, p: nat, rest: Code) {
    && p < NPROC && s.self == ProcCtx(p) && s'.self == ProcCtx(p) && s.code == [WaitScan] + rest && s'.code == UnlockOps(Ptable) + rest
    && ((exists z: nat :: FirstDead(s.t, p, z) && s'.t == s.t[z := CLEARED] && s'.reaped == s.reaped + [s.t[z].pid]) ||
        (NoneDead(s.t, p) && (Childless(s.t, p) || s.t[p].killed) && s'.t == s.t && s'.reaped == s.reaped))
  }

  /** The run has such a step, and p reaps nothing before it. */
  ghost predicate Resolves(s: State, cs: seq<Choice>, p: nat, rest: Code)
    decreases |cs|
  {
    cs != [] &&
    (Decides(s, Next(s, cs[0]), p, rest) ||
     ((s.self == ProcCtx(p) ==> Next(s, cs[0]).reaped == s.reaped) && Resolves(Next(s, cs[0]), cs[1..], p, rest)))
  }

  lemma PendingOff(s: State, p: nat, rest: Code)
    requires Inv(s) && s.self == ProcCtx(p) && s.code != [] && !s.code[0].Wait? && !s.code[0].PushCli? && Pending(s.code, rest)
    ensures !s.cpu.ifl && s.proc == Some(p) && p < NPROC
    ensures s.code[0].WaitScan? ==> s.cpu.locked == {Ptable} && s.cpu.ncli == 1
  {
    hide TableOk, AllSaved, Forking;
  }

  lemma PendingStep(s: State, c: Choice, p: nat, rest: Code)
    requires Inv(s) && p < NPROC && s.self == ProcCtx(p) && s.panic.None? && Pending(s.code, rest)
    ensures var s' := Next(s, c);
            Decides(s, s', p, rest) || (InWait(s', p, rest) && s'.reaped == s.reaped)
  {
    hide Inv, Ok, LockOps, UnlockOps, SchedStep, Exited, Control, FindUnused, FindZombie, HasChild;
    Current(s, p);
    var s' := Next(s, c);
    if c.Irq? && s.cpu.ifl {
      Interrupted(s, p, rest);
    } else if c.Irq? || c.Fault? || c.Syscall? {
      assert s' == s;
      AtPending(s, p, rest);
    } else {
      CallStep(s, c, p, rest);
    }
  }

  lemma Current(s: State, p: nat)
    requires Inv(s) && s.self == ProcCtx(p)
    ensures s.proc == Some(p) && p < NPROC
  {
  }

  lemma AtPending(s: State, p: nat, rest: Code)
    requires p < NPROC && s.self == ProcCtx(p) && Pending(s.code, rest)
    ensures InWait(s, p, rest)
  {
    assert s.code[..0] == [] && s.code[0..] == s.code;
    assert AllHandlers(s.code[..0]);
  }

  lemma Interrupted(s: State, p: nat, rest: Code)
    requires p < NPROC && s.self == ProcCtx(p) && s.panic.None? && s.code != [] && s.cpu.ifl && Pending(s.code, rest)
    ensures InWait(Next(s, Irq), p, rest) && Next(s, Irq).reaped == s.reaped
  {
    var s' := Next(s, Irq);
    assert s'.code == [Client(false, {}, 0), Iret(true)] + s.code;
    assert s'.code[..2] == [Client(false, {}, 0), Iret(true)] && s'.code[2..] == s.code;
    assert AllHandlers(s'.code[..2]);
  }

  lemma CallStep(s: State, c: Choice, p: nat, rest: Code)
    requires Inv(s) && p < NPROC && s.self == ProcCtx(p) && s.proc == Some(p) && s.panic.None? && Pending(s.code, rest)
    requires !c.Irq? && !c.Fault? && !c.Syscall?
    ensures var s' := Next(s, c);
            Decides(s, s', p, rest) || (InWait(s', p, rest) && s'.reaped == s.reaped)
  {
    var s' := Next(s, c);
    hide Inv, Ok, SchedStep, Exited, FindUnused, FindZombie, HasChild;
    if s.code == [WaitScan] + rest {
      PendingOff(s, p, rest);
      SameScan(s, c, p, rest);
    } else {
      var op := s.code[0];
      assert s'.self == ProcCtx(p) && s'.reaped == s.reaped && Pending(s'.code, rest) by {
        if op.Wait? {
          assert s.code[1..] == rest;
          assert LockOps(Ptable) + [WaitScan] + rest == [PushCli, Acquire(Ptable), WaitScan] + rest;
        } else {
          PendingOps(s, rest);
          MoveOn(s, c, rest);
        }
      }
      AtPending(s', p, rest);
    }
  }

  lemma PendingOps(s: State, rest: Code)
    requires s.code != [] && Pending(s.code, rest) && !s.code[0].Wait? && !s.code[0].WaitScan?
    ensures Pending(s.code[1..], rest) && (CpuOp(s.code[0]) || s.code[0].ClearChan?)
  {
    if s.code == [PushCli, Acquire(Ptable), WaitScan] + rest {
      assert s.code[1..] == [Acquire(Ptable), WaitScan] + rest;
    } else if s.code == [Acquire(Ptable), WaitScan] + rest {
      assert s.code[1..] == [WaitScan] + rest;
    } else if s.code == [ClearChan, WaitScan] + rest {
      assert s.code[1..] == [WaitScan] + rest;
    }
  }

  /** An operation on the CPU, or leaving the channel: the code goes on, or, at a panic, stays. */
  lemma MoveOn(s: State, c: Choice, rest: Code)
    requires s.panic.None? && s.code != [] && (CpuOp(s.code[0]) || s.code[0].ClearChan?) && s.proc.Some? && s.proc.value < NPROC
    requires !c.Irq? && !c.Fault? && !c.Syscall?
    ensures var s' := Next(s, c);
            s'.self == s.self && s'.reaped == s.reaped && (s'.code == s.code[1..] || s'.code == s.code)
  {
    hide SchedStep, LockOps, UnlockOps, FindUnused, FindZombie, HasChild, Exited;
  }

  lemma SameScan(s: State, c: Choice, p: nat, rest: Code)
    requires InTable(s, p, WaitScan, rest) && s.self == ProcCtx(p) && s.cpu.locked == {Ptable} && s.cpu.ncli == 1 && !s.cpu.ifl
    requires !c.Irq? && !c.Fault? && !c.Syscall?
    ensures var s' := Next(s, c);
            Decides(s, s', p, rest) || (InWait(s', p, rest) && s'.reaped == s.reaped)
  {
    hide Next;
    NextSame(s, c, p);
    if NoneDead(s.t, p) {
      ScanStep(s, p, rest, 0);
      ScanSleeps(s, p, rest);
    } else {
      var z := LeastDead(s.t, p);
      ScanStep(s, p, rest, z);
    }
  }

  lemma NextSame(s: State, c: Choice, p: nat)
    requires s.panic.None? && s.proc == Some(p) && p < NPROC && s.code != [] && s.code[0] == WaitScan && !c.Irq? && !c.Fault? && !c.Syscall?
    ensures Next(s, c) == Next(s, Continue)
  {
    hide ProcStep;
    OnlyFillChooses(s, c, p, s.code[0], s.code[1..]);
  }

  lemma ScanSleeps(s: State, p: nat, rest: Code)
    requires p < NPROC
    ensures var u := HandedOver(s.(t := s.t[p := s.t[p].(chan := Some(ProcChan(p)), state := Sleeping)]), p, [ClearChan, WaitScan] + rest);
            InWait(u, p, rest) && u.reaped == s.reaped
  {
    var saved := [RestoreIntOn(s.cpu.intOn)] + ([ClearChan, WaitScan] + rest);
    assert saved[1..] == [ClearChan, WaitScan] + rest;
  }

  lemma LeastDead(t: Procs, p: nat) returns (z: nat)
    requires !NoneDead(t, p)
    ensures FirstDead(t, p, z)
  {
    z := 0;
    while !(t[z].state == Zombie && t[z].parent == Some(p))
      invariant z < NPROC && forall j :: 0 <= j < z ==> !(t[j].state == Zombie && t[j].parent == Some(p))
      decreases NPROC - z
    {
      z := z + 1;
    }
  }

  // ------------------------------------------------------------ interrupted

  /** One operation of a handler leaves a handler in front of the same code. */
  lemma HandlerStep(s: State, c: Choice, k: nat)
    requires s.panic.None? && 0 < k <= |s.code| && AllHandlers(s.code[..k])
    ensures var s' := Next(s, c);
            && s'.self == s.self && s'.reaped == s.reaped
            && exists m: nat :: m <= |s'.code| && AllHandlers(s'.code[..m]) && s'.code[m..] == s.code[k..]
  {
    hide LockOps, UnlockOps, ProcStep, SchedulerStep;
    var s', op := Next(s, c), s.code[0];
    assert Handler(s.code[..k][0]);
    if c.Irq? && s.cpu.ifl {
      assert s'.code == [Client(false, {}, 0), Iret(true)] + s.code;
      WithPrefix(s.code, k, [Client(false, {}, 0), Iret(true)], 0);
    } else if s'.code == s.code {
      assert s'.code[k..] == s.code[k..];
    } else if op.Client? {
      ClientHandles(s, c, k);
    } else {
      assert s'.code == s.code[1..];
      WithPrefix(s.code, k, [], 1);
      assert [] + s.code[1..] == s.code[1..];
    }
  }

  /** New handler code in front of what is left. */
  lemma WithPrefix(code: Code, k: nat, pre: Code, from: nat)
    requires from <= k <= |code| && AllHandlers(code[..k]) && AllHandlers(pre)
    ensures var d := pre + code[from..];
            var m := |pre| + k - from;
            m <= |d| && AllHandlers(d[..m]) && d[m..] == code[k..]
  {
    var d, m := pre + code[from..], |pre| + k - from;
    forall j | 0 <= j < m ensures Handler(d[..m][j]) {
      if j >= |pre| {
        assert d[j] == code[..k][j - |pre| + from];
      } else {
        assert d[j] == pre[j];
      }
    }
  }

  lemma ClientHandles(s: State, c: Choice, k: nat)
    requires 0 < k <= |s.code| && AllHandlers(s.code[..k]) && s.code[0].Client? && !s.code[0].base
    ensures var s' := ClientStep(s, c, s.code[0], s.code[1..]);
            exists m: nat :: m <= |s'.code| && AllHandlers(s'.code[..m]) && s'.code[m..] == s.code[k..]
  {
    var op, rest := s.code[0], s.code[1..];
    var s' := ClientStep(s, c, op, rest);
    if s'.code == s.code {
      assert s'.code[k..] == s.code[k..];
    } else {
      ClientPrefixes(s, c, op, rest);
      WithPrefix(s.code, k, if c.Return? then [] else ClientPre(op, c), 1);
    }
  }

  lemma ClientPrefixes(s: State, c: Choice, op: Op, rest: Code)
    requires op.Client? && !op.base
    ensures var s' := ClientStep(s, c, op, rest);
            s'.code == s.code || s'.code == (if c.Return? then [] else ClientPre(op, c)) + rest
    ensures AllHandlers(ClientPre(op, c)) || c.DoSleep? || c.DoFork? || c.DoWait?
    ensures c.DoSleep? || c.DoFork? || c.DoWait? ==> ClientStep(s, c, op, rest).code == s.code
  {
  }

  /** Until a wait is decided it goes on, whatever happens, and the caller reaps nothing. */
  lemma WaitStep(s: State, c: Choice, p: nat, rest: Code)
    requires Inv(s) && InWait(s, p, rest)
    ensures var s' := Next(s, c);
            Decides(s, s', p, rest) || (InWait(s', p, rest) && (s.self == ProcCtx(p) ==> s'.reaped == s.reaped))
  {
    hide Inv, Next, Decides, Pending;
    if s.panic.Some? {
      Halted(s, c);
    } else if s.self == ProcCtx(p) {
      var k: nat :| k <= |s.code| && AllHandlers(s.code[..k]) && Pending(s.code[k..], rest);
      if k == 0 {
        assert s.code[0..] == s.code;
        PendingStep(s, c, p, rest);
      } else {
        HandlerStep(s, c, k);
      }
    } else {
      ParkedStep(s, c, p);
      BackInWait(s, Next(s, c), p, rest);
    }
  }

  lemma Halted(s: State, c: Choice)
    requires s.panic.Some?
    ensures Next(s, c) == s
  {
  }

  lemma BackInWait(s: State, s': State, p: nat, rest: Code)
    requires p < NPROC && Resuming(s.ctx[p], rest)
    requires Parked(s', p, s.ctx[p]) || (s'.self == ProcCtx(p) && s'.code == s.ctx[p])
    ensures InWait(s', p, rest)
  {
    if s'.self == ProcCtx(p) {
      AtPending(s', p, rest);
    }
  }

  lemma {:induction false} WaitRun(s: State, cs: seq<Choice>, p: nat, rest: Code)
    requires Inv(s) && InWait(s, p, rest)
    ensures Resolves(s, cs, p, rest) || InWait(Run(s, cs), p, rest)
    decreases |cs|
  {
    hide Inv, InWait, Decides, Next;
    if cs != [] {
      WaitStep(s, cs[0], p, rest);
      if !Decides(s, Next(s, cs[0]), p, rest) {
        StepKeeps(s, cs[0]);
        WaitRun(Next(s, cs[0]), cs[1..], p, rest);
      }
    }
  }

  lemma NotBack(s: State, p: nat, rest: Code)
    requires InWait(s, p, rest)
    ensures !(s.self == ProcCtx(p) && s.code == rest)
  {
  }

  /**
   Every wait of every run: whatever happens between the call and a state in which the caller goes on after it, there is one scan that decided it. The
   caller reaped nothing before; in that step it reaps exactly its first dead child, or it has no child at all, or it was
   killed; and it goes on to release the lock and return.
   */
  lemma WaitReturns(on: bool, before: seq<Choice>, cs: seq<Choice>, p: nat, rest: Code)
    requires p < NPROC
    ensures var s := Run(Boot(on), before);
            s.self == ProcCtx(p) && s.code == [Wait] + rest && Run(s, cs).self == ProcCtx(p) && Run(s, cs).code == rest
            ==> Resolves(s, cs, p, rest)
  {
    hide Run, Boot, Inv, InWait, Resolves;
    Reachable(on, before);
    var s := Run(Boot(on), before);
    if s.self == ProcCtx(p) && s.code == [Wait] + rest && Run(s, cs).self == ProcCtx(p) && Run(s, cs).code == rest {
      AtPending(s, p, rest);
      WaitRun(s, cs, p, rest);
      if InWait(Run(s, cs), p, rest) {
        NotBack(Run(s, cs), p, rest);
      }
    }
  }

  // ------------------------------------------------------ the dead and the killed

  /** Nobody is killed, none of the dead comes back but as an empty slot, and the list of the exited stays. */
  ghost predicate Gentle(s: State, s': State) {
    && s'.exited == s.exited
    && forall p: nat :: p < NPROC && s'.t[p].killed ==> s.t[p].killed && (s.t[p].state == Zombie ==> s'.t[p].state == Zombie)
  }

  lemma CpuGentle(s: State, c: Choice)
    requires s.code != []
    ensures Gentle(s, CpuStep(s, s.code[0], s.code[1..])) && Gentle(s, s)
    ensures s.code[0].Client? ==> Gentle(s, ClientStep(s, c, s.code[0], s.code[1..]))
    ensures s.code[0].WakeAll? ==> Gentle(s, s.(t := Woken(s.t, Some(s.code[0].wake)), code := s.code[1..]))
    ensures Gentle(s, SchedulerStep(s, s.code[0], s.code[1..]))
  {
    hide LockOps, UnlockOps;
  }

  lemma SchedGentle(s: State, s1: State, rest: Code)
    requires Gentle(s, s1)
    ensures Gentle(s, SchedStep(s1, rest))
  {
  }

  lemma ForkGentle(s: State, c: Choice, p: nat, op: Op, rest: Code)
    requires p < NPROC && (op.AllocSlot? || ForkOp(op)) && (ForkOp(op) && op.child < NPROC ==> s.t[op.child].state != Zombie)
    ensures Gentle(s, ProcStep(s, c, p, op, rest))
  {
    hide LockOps, UnlockOps, ForkRet, Exited, SchedStep, HasChild, FindZombie;
  }

  lemma WaitGentle(s: State, c: Choice, p: nat, rest: Code)
    requires p < NPROC && s.t[p].state == Running
    ensures Gentle(s, ProcStep(s, c, p, WaitScan, rest))
  {
    hide LockOps, UnlockOps, ForkRet, Exited, SchedStep, HasChild, FindUnused, FindZombie;
    SchedGentle(s, SetProc(s, p, s.t[p].(chan := Some(ProcChan(p)), state := Sleeping)), [ClearChan, WaitScan] + rest);
  }

  lemma OwnGentle(s: State, c: Choice, p: nat, op: Op, rest: Code)
    requires p < NPROC && s.t[p].state == Running && !op.ExitSwitch? && !op.AllocSlot? && !ForkOp(op) && !op.WaitScan?
    ensures Gentle(s, ProcStep(s, c, p, op, rest))
  {
    hide LockOps, UnlockOps, ForkRet, Exited, SchedStep, HasChild, FindUnused, FindZombie;
    if op.SleepSwitch? {
      SchedGentle(s, SetProc(s, p, s.t[p].(chan := Some(op.chan), state := Sleeping)), rest);
    } else if op.ReadySwitch? {
      SchedGentle(s, SetProc(s, p, s.t[p].(state := Ready)), rest);
    }
  }

  /** The current process changes only its own record, or, in fork, a slot that is not dead, or frees one. */
  lemma ProcGentle(s: State, c: Choice, p: nat, op: Op, rest: Code)
    requires p < NPROC && s.t[p].state == Running && !op.ExitSwitch?
    requires ForkOp(op) && op.child < NPROC ==> s.t[op.child].state != Zombie
    ensures Gentle(s, ProcStep(s, c, p, op, rest))
  {
    hide ProcStep, Gentle;
    if op.AllocSlot? || ForkOp(op) {
      ForkGentle(s, c, p, op, rest);
    } else if op.WaitScan? {
      WaitGentle(s, c, p, rest);
    } else {
      OwnGentle(s, c, p, op, rest);
    }
  }

  lemma ExitedGrows(s: State, c: Choice)
    requires Inv(s)
    ensures s.exited <= Next(s, c).exited
  {
    hide Inv, CpuStep, ClientStep, SchedulerStep, ProcStep, TrapStep;
    TrapExited(s, c);
    if s.panic.None? && s.code != [] {
      CpuGentle(s, c);
      if s.code[0].ExitSwitch? {
        ExitAppends(s, c);
      } else if ProcOp(s.code[0]) {
        RunningNow(s);
        ProcGentle(s, c, s.self.slot, s.code[0], s.code[1..]);
      }
    }
  }

  lemma TrapExited(s: State, c: Choice)
    ensures TrapStep(s, c).exited == s.exited
  {
  }

  lemma ExitAppends(s: State, c: Choice)
    requires s.code != []
    ensures s.code[0].ExitSwitch? && s.proc.Some? && s.proc.value < NPROC ==>
              ProcStep(s, c, s.proc.value, s.code[0], s.code[1..]).exited == s.exited + [s.t[s.proc.value].pid]
  {
    hide Exited;
  }

  lemma RunningNow(s: State)
    requires Inv(s) && s.panic.None? && s.code != [] && ProcOp(s.code[0])
    ensures s.self.ProcCtx? && s.self.slot < NPROC && s.proc == Some(s.self.slot) && s.t[s.self.slot].state == Running
    ensures ForkOp(s.code[0]) ==> s.code[0].child < NPROC && s.t[s.code[0].child].state == Created
  {
    hide TableOk, AllSaved, Ok;
    ProcFacts(s);
    if ForkOp(s.code[0]) {
      assert ForkOpOk(s, s.code[0]);
    }
  }

  lemma {:induction false} ExitedRun(s: State, cs: seq<Choice>)
    requires Inv(s)
    ensures s.exited <= Run(s, cs).exited
    decreases |cs|
  {
    hide Next, Inv;
    if cs != [] {
      ExitedGrows(s, cs[0]);
      StepKeeps(s, cs[0]);
      ExitedRun(Next(s, cs[0]), cs[1..]);
    }
  }

  /** Who has exited never executes again: no process with that pid is ever on the CPU. */
  lemma DeadNeverRun(on: bool, before: seq<Choice>, cs: seq<Choice>, p: nat)
    requires p < NPROC
    ensures var s := Run(Boot(on), before);
            var u := Run(s, cs);
            u.self == ProcCtx(p) ==> u.t[p].pid !in s.exited
  {
    hide Run, Boot, Control, AllSaved, Forking, Tree, Waiters;
    Reachable(on, before);
    var s := Run(Boot(on), before);
    RunKeeps(s, cs);
    ExitedRun(s, cs);
  }

  /** On the way to exit, with nothing in between. */
  predicate Dying(code: Code) {
    || code == [TrapTail, Iret(true)]
    || (code != [] && code[0].Exit?)
    || code == [PushCli, Acquire(Ptable), ExitSwitch]
    || code == [Acquire(Ptable), ExitSwitch]
    || (code != [] && code[0].ExitSwitch?)
  }

  ghost predicate KilledOk(s: State, p: nat)
    requires p < NPROC
  {
    s.t[p].killed ==> s.t[p].state == Zombie || (s.self == ProcCtx(p) && Dying(s.code) && !s.cpu.ifl) || s.panic.Some?
  }

  ghost predicate Doomed(s: State) {
    forall p: nat :: p < NPROC ==> KilledOk(s, p)
  }

  lemma KilledTrap(s: State, c: Choice)
    requires Inv(s) && Doomed(s) && s.panic.None?
    ensures Doomed(TrapStep(s, c))
  {
    hide Ok, TableOk, AllSaved, Forking;
    var s' := TrapStep(s, c);
    forall p: nat | p < NPROC ensures KilledOk(s', p) {
      assert KilledOk(s, p);
    }
  }

  lemma NotDying(s: State)
    requires Doomed(s) && s.panic.None? && !Dying(s.code)
    ensures forall p: nat :: p < NPROC && s.t[p].killed ==> s.t[p].state == Zombie
  {
    hide Dying;
    forall p: nat | p < NPROC && s.t[p].killed ensures s.t[p].state == Zombie {
      assert KilledOk(s, p);
    }
  }

  /** Where nobody living is killed, nobody is after a step that kills nobody and revives no one. */
  lemma NobodyKilled(s: State, s': State)
    requires Doomed(s) && s.panic.None? && !Dying(s.code)
    requires Gentle(s, s')
    ensures Doomed(s')
  {
    hide Dying;
    NotDying(s);
    forall p: nat | p < NPROC ensures KilledOk(s', p) {
    }
  }

  lemma FlagsKept(s: State, c: Choice)
    requires Inv(s) && s.panic.None? && s.code != [] && !c.Irq? && !c.Fault? && !c.Syscall? && !s.code[0].ExitSwitch?
    ensures Gentle(s, Next(s, c))
  {
    hide Inv, CpuStep, ClientStep, SchedulerStep, ProcStep, TrapStep;
    CpuGentle(s, c);
    if ProcOp(s.code[0]) {
      RunningNow(s);
      ProcGentle(s, c, s.self.slot, s.code[0], s.code[1..]);
    }
  }

  lemma AcquiresToExit(code: Code, l: set<LockId>, n: int, b: bool, who: Ctx)
    requires code == [Acquire(Ptable), ExitSwitch] && Ok(code, l, n, b, who)
    ensures who.ProcCtx?
  {
    assert code[1..] == [ExitSwitch];
    assert Ok([ExitSwitch], l + {Ptable}, n, b, who);
  }

  lemma DyingSelf(s: State)
    requires Control(s) && Dying(s.code)
    ensures s.self.ProcCtx?
    ensures s.code[0].ExitSwitch? ==> s.cpu.locked == {Ptable} && s.cpu.ncli == 1 && !s.cpu.ifl
  {
    if s.code == [PushCli, Acquire(Ptable), ExitSwitch] {
      assert s.code[1..] == [Acquire(Ptable), ExitSwitch];
      AcquiresToExit(s.code[1..], s.cpu.locked, s.cpu.ncli + 1, s.cpu.Base(), s.self);
    } else if s.code == [Acquire(Ptable), ExitSwitch] {
      AcquiresToExit(s.code, s.cpu.locked, s.cpu.ncli, s.cpu.Base(), s.self);
    }
  }

  lemma DyingAt(s: State)
    requires Inv(s) && Dying(s.code)
    ensures s.self.ProcCtx? && s.self.slot < NPROC && s.proc == Some(s.self.slot) && s.t[s.self.slot].state == Running
    ensures s.t[s.self.slot].parent != Some(s.self.slot)
    ensures s.code[0].ExitSwitch? ==> s.cpu.locked == {Ptable} && s.cpu.ncli == 1 && !s.cpu.ifl
  {
    hide Pids, Waiters, AllSaved, Forking;
    DyingSelf(s);
    NotOwnParent(s.t, s.self.slot);
  }

  lemma DyingMoves(s: State, c: Choice, p: nat)
    requires s.panic.None? && Dying(s.code) && !s.code[0].ExitSwitch? && s.self == ProcCtx(p) && s.proc == Some(p) && p < NPROC
    requires s.t[p].killed && !s.cpu.ifl && !c.Irq? && !c.Fault? && !c.Syscall?
    ensures var s' := Next(s, c);
            s'.t == s.t && (s'.panic.Some? || (s'.self == s.self && Dying(s'.code) && !s'.cpu.ifl))
  {
    hide UnlockOps, ForkRet, Exited, FindUnused, FindZombie, HasChild, SchedStep;
    if s.code == [PushCli, Acquire(Ptable), ExitSwitch] {
      assert s.code[1..] == [Acquire(Ptable), ExitSwitch];
    } else if s.code == [Acquire(Ptable), ExitSwitch] {
      assert s.code[1..] == [ExitSwitch];
    }
  }

  lemma DeathStep(s: State, c: Choice, p: nat)
    requires s.panic.None? && s.code != [] && s.code[0].ExitSwitch? && s.self == ProcCtx(p) && s.proc == Some(p) && p < NPROC
    requires s.t[p].state == Running && s.t[p].parent != Some(p) && !c.Irq? && !c.Fault? && !c.Syscall?
    ensures ExitLeaves(s.t, Next(s, c).t, p)
  {
    hide LockOps, UnlockOps, ForkRet, Exited, FindUnused, FindZombie, HasChild, ExitLeaves;
    ExitSlots(s.t, p);
  }

  lemma DyingStep(s: State, c: Choice)
    requires Inv(s) && Doomed(s) && s.panic.None? && Dying(s.code) && !c.Irq? && !c.Fault? && !c.Syscall?
    ensures Doomed(Next(s, c))
  {
    hide Inv, Dying, Next;
    DyingAt(s);
    NotEmpty(s.code);
    var p, s' := s.self.slot, Next(s, c);
    OthersDead(s, p);
    if s.code[0].ExitSwitch? {
      DeathStep(s, c, p);
      forall q: nat | q < NPROC ensures KilledOk(s', q) {
        assert s'.t[q] == AfterExit(s.t, p, q);
      }
    } else if s.t[p].killed {
      DyingMoves(s, c, p);
    } else {
      FlagsKept(s, c);
    }
  }

  lemma OthersDead(s: State, p: nat)
    requires Doomed(s) && s.panic.None? && s.self == ProcCtx(p)
    ensures forall q: nat :: q < NPROC && q != p && s.t[q].killed ==> s.t[q].state == Zombie
    ensures p < NPROC && s.t[p].killed ==> s.t[p].state == Zombie || !s.cpu.ifl
  {
    hide Dying;
    forall q: nat | q < NPROC && s.t[q].killed ensures s.t[q].state == Zombie || (q == p && !s.cpu.ifl) {
      assert KilledOk(s, q);
    }
  }

  lemma NotEmpty(code: Code)
    requires Dying(code)
    ensures code != []
  {
  }

  lemma KilledStep(s: State, c: Choice)
    requires Inv(s) && Doomed(s)
    ensures Doomed(Next(s, c))
  {
    hide Inv, Doomed, Next;
    if s.panic.Some? {
      Halted(s, c);
    } else if c.Irq? || c.Fault? || c.Syscall? {
      IsTrap(s, c);
      KilledTrap(s, c);
    } else if s.code == [] {
      Idle(s, c);
    } else if Dying(s.code) {
      DyingStep(s, c);
    } else {
      FlagsKept(s, c);
      NobodyKilled(s, Next(s, c));
    }
  }

  lemma IsTrap(s: State, c: Choice)
    requires s.panic.None? && (c.Irq? || c.Fault? || c.Syscall?)
    ensures Next(s, c) == TrapStep(s, c)
  {
  }

  lemma Idle(s: State, c: Choice)
    requires s.code == [] && !c.Irq? && !c.Fault? && !c.Syscall?
    ensures Next(s, c) == s
  {
  }

  lemma {:induction false} KilledRun(s: State, cs: seq<Choice>)
    requires Inv(s) && Doomed(s)
    ensures Doomed(Run(s, cs))
    decreases |cs|
  {
    hide Inv, Doomed, Next;
    if cs != [] {
      KilledStep(s, cs[0]);
      StepKeeps(s, cs[0]);
      KilledRun(Next(s, cs[0]), cs[1..]);
    }
  }

  /** In every run a killed process is dead, or on its way to exit with interrupts off: it never executes user code, or a system call, again. */
  lemma KilledDies(on: bool, cs: seq<Choice>, p: nat)
    requires p < NPROC
    ensures var s := Run(Boot(on), cs);
            s.panic.None? && s.t[p].killed ==>
              s.t[p].state == Zombie || (s.self == ProcCtx(p) && s.code != [] && Dying(s.code) && !s.cpu.ifl)
  {
    hide Run, Inv, Dying;
    BootOk(on);
    assert Doomed(Boot(on));
    KilledRun(Boot(on), cs);
    var s := Run(Boot(on), cs);
    assert KilledOk(s, p);
    if Dying(s.code) {
      NotEmpty(s.code);
    }
  }
}
