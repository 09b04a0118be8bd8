/**
 Every step of the kernel's machine keeps its invariant, and what follows for every run from boot.
 */
module KernelRuns {
  import opened Wrappers
  import opened ProcTable
  import opened Spinlock
  import opened Kernel
  import opened KernelSafety

  // --------------------------------------------------------- building code

  lemma OkLock(lk: LockId, rest: Code, l: set<LockId>, n: int, b: bool, who: Ctx)
    requires lk !in l && |l| <= n && Ok(rest, l + {lk}, n + 1, b, who)
    ensures Ok(LockOps(lk) + rest, l, n, b, who)
  {
    var c := LockOps(lk) + rest;
    assert c[1..] == [Acquire(lk)] + rest;
    assert c[1..][1..] == rest;
  }

  lemma OkUnlock(lk: LockId, rest: Code, l: set<LockId>, n: int, b: bool, who: Ctx)
    requires lk in l && |l| <= n && Ok(rest, l - {lk}, n - 1, b, who)
    ensures Ok(UnlockOps(lk) + rest, l, n, b, who)
  {
    var c := UnlockOps(lk) + rest;
    assert c[1..] == [PopCli] + rest;
    assert c[1..][1..] == rest;
    assert l == l - {lk} + {lk};
  }

  lemma OkClient(op: Op, rest: Code, l: set<LockId>, n: int, b: bool, who: Ctx)
    requires op.Client? && op.base == b && op.held == l && n == |l| + op.extra && Ptable !in l
    requires op.base ==> who.ProcCtx? && Plain(rest)
    requires Ok(rest, {}, 0, b, who)
    ensures Ok([op] + rest, l, n, b, who)
  {
    assert ([op] + rest)[1..] == rest;
  }

  /** No fork operation is new. */
  ghost predicate NoNewFork(code: Code, was: Code) {
    forall op :: op in code && ForkOp(op) ==> op in was
  }

  lemma NoNewPrefix(pre: Code, was: Code, k: nat)
    requires k <= |was| && Plain(pre)
    ensures NoNewFork(pre + was[k..], was)
  {
  }

  /** Only the CPU and the code change, and no new fork starts. */
  lemma Recode(s: State, cpu: Cpu, code: Code)
    requires Inv(s) && s.panic.None? && NoNewFork(code, s.code)
    requires cpu.Disciplined() && Ok(code, cpu.locked, cpu.ncli, cpu.Base(), s.self)
    requires s.self.ProcCtx? || s.proc.None?
    ensures Inv(s.(cpu := cpu, code := code))
  {
    hide Ok, TableOk, AllSaved;
    var s' := s.(cpu := cpu, code := code);
    forall op | op in s'.code && ForkOp(op) ensures ForkOpOk(s', op) {
      assert ForkOpOk(s, op);
    }
  }

  // ------------------------------------------------------------ single steps

  predicate CpuOp(op: Op) {
    op.PushCli? || op.PopCli? || op.Acquire? || op.Release? || op.RestoreIntOn? || op.Iret?
  }

  lemma CpuCode(s: State)
    requires Control(s) && s.code != [] && CpuOp(s.code[0])
    ensures var s' := CpuStep(s, s.code[0], s.code[1..]);
            s' == s.(cpu := s'.cpu, code := s.code[1..]) && Control(s')
  {
    if s.code[0].Release? {
      var lk := s.code[0].lk;
      assert s.cpu.locked == s.cpu.locked - {lk} + {lk};
    }
  }

  lemma CpuKeeps(s: State)
    requires Inv(s) && s.panic.None? && s.code != [] && CpuOp(s.code[0])
    ensures Inv(CpuStep(s, s.code[0], s.code[1..]))
  {
    hide Ok, TableOk, AllSaved, Forking, CpuStep, NoNewFork;
    CpuCode(s);
    NoNewPrefix([], s.code, 1);
    assert [] + s.code[1..] == s.code[1..];
    var s' := CpuStep(s, s.code[0], s.code[1..]);
    Recode(s, s'.cpu, s'.code);
  }

  /** The calls client code makes, as the code in front of what it still has to do. */
  function ClientPre(op: Op, c: Choice): Code
    requires op.Client?
  {
    match c
    case DoLock(lk) => LockOps(lk) + [op.(held := op.held + {lk})]
    case DoUnlock(lk) => UnlockOps(lk) + [op.(held := op.held - {lk})]
    case DoPush => [PushCli, op.(extra := op.extra + 1)]
    case DoPop => [PopCli, op.(extra := if op.extra > 0 then op.extra - 1 else 0)]
    case DoWakeup(id) => LockOps(Ptable) + [WakeAll(Obj(id))] + UnlockOps(Ptable) + [op]
    case DoSleep(id, lk) => [Sleep(Obj(id), lk), op]
    case DoFork => [Fork, op]
    case DoWait => [Wait, op]
    case _ => []
  }

  lemma ClientFacts(code: Code, l: set<LockId>, n: int, b: bool, who: Ctx)
    requires Ok(code, l, n, b, who) && code != [] && code[0].Client?
    ensures var op := code[0];
            && op.base == b && op.held == l && n == |l| + op.extra && Ptable !in l
            && (op.base ==> who.ProcCtx? && Plain(code[1..]))
            && Ok(code[1..], {}, 0, b, who)
  {
  }

  lemma ClientLocks(code: Code, lk: LockId, l: set<LockId>, n: int, b: bool, who: Ctx)
    requires Ok(code, l, n, b, who) && code != [] && code[0].Client? && lk != Ptable && lk !in l
    ensures Ok(ClientPre(code[0], DoLock(lk)) + code[1..], l, n, b, who)
  {
    hide Ok, Plain, LockOps;
    ClientFacts(code, l, n, b, who);
    var op := code[0].(held := l + {lk});
    OkClient(op, code[1..], l + {lk}, n + 1, b, who);
    OkLock(lk, [op] + code[1..], l, n, b, who);
    assert ClientPre(code[0], DoLock(lk)) + code[1..] == LockOps(lk) + ([op] + code[1..]);
  }

  lemma ClientUnlocks(code: Code, lk: LockId, l: set<LockId>, n: int, b: bool, who: Ctx)
    requires Ok(code, l, n, b, who) && code != [] && code[0].Client? && lk in l
    ensures Ok(ClientPre(code[0], DoUnlock(lk)) + code[1..], l, n, b, who)
  {
    hide Ok, Plain, UnlockOps;
    ClientFacts(code, l, n, b, who);
    var op := code[0].(held := l - {lk});
    assert l == l - {lk} + {lk};
    OkClient(op, code[1..], l - {lk}, n - 1, b, who);
    OkUnlock(lk, [op] + code[1..], l, n, b, who);
    assert ClientPre(code[0], DoUnlock(lk)) + code[1..] == UnlockOps(lk) + ([op] + code[1..]);
  }

  lemma WakeupCode(id: nat, code: Code, l: set<LockId>, n: int, b: bool, who: Ctx)
    requires Ok(code, l, n, b, who) && code != [] && code[0].Client?
    ensures Ok(ClientPre(code[0], DoWakeup(id)) + code[1..], l, n, b, who)
  {
    hide LockOps, UnlockOps, Plain;
    assert l + {Ptable} - {Ptable} == l;
    OkUnlock(Ptable, code, l + {Ptable}, n + 1, b, who);
    var next := [WakeAll(Obj(id))] + (UnlockOps(Ptable) + code);
    assert next[1..] == UnlockOps(Ptable) + code;
    OkLock(Ptable, next, l, n, b, who);
    assert ClientPre(code[0], DoWakeup(id)) + code[1..] == LockOps(Ptable) + next;
  }

  lemma ClientCalls(code: Code, c: Choice, l: set<LockId>, n: int, b: bool, who: Ctx)
    requires Ok(code, l, n, b, who) && code != [] && code[0].Client?
    requires var op := code[0];
             || c.DoPush? || (c.DoPop? && op.extra > 0)
             || (op.base && c.DoSleep? && op.held == {c.lk} && op.extra == 0)
             || (op.base && (c.DoFork? || c.DoWait?) && op.held == {} && op.extra == 0)
    ensures Ok(ClientPre(code[0], c) + code[1..], l, n, b, who)
  {
    var op, rest := code[0], code[1..];
    var pre := ClientPre(op, c);
    assert (pre + rest)[1..] == [pre[1]] + rest;
    if c.DoPush? {
      OkClient(pre[1], rest, l, n + 1, b, who);
    } else if c.DoPop? {
      OkClient(pre[1], rest, l, n - 1, b, who);
    } else {
      OkClient(pre[1], rest, l, n, b, who);
    }
  }

  lemma ClientCode(s: State, c: Choice)
    requires Control(s) && s.code != [] && s.code[0].Client?
    ensures var s' := ClientStep(s, c, s.code[0], s.code[1..]);
            s' == s.(code := s'.code) && Control(s') && NoNewFork(s'.code, s.code)
    ensures s.self.ProcCtx? || ClientStep(s, c, s.code[0], s.code[1..]).code != []
  {
    hide LockOps, UnlockOps;
    var op, rest := s.code[0], s.code[1..];
    var l, n, b := s.cpu.locked, s.cpu.ncli, s.cpu.Base();
    var s' := ClientStep(s, c, op, rest);
    if s'.code == s.code || c.DoExit? {
    } else if c.Return? {
      NoNewPrefix([], s.code, 1);
      assert [] + rest == rest;
    } else {
      ClientPrefix(op, c, rest);
      NoNewPrefix(ClientPre(op, c), s.code, 1);
      if c.DoLock? {
        ClientLocks(s.code, c.lk, l, n, b, s.self);
      } else if c.DoUnlock? {
        ClientUnlocks(s.code, c.lk, l, n, b, s.self);
      } else if c.DoWakeup? {
        WakeupCode(c.id, s.code, l, n, b, s.self);
      } else {
        ClientCalls(s.code, c, l, n, b, s.self);
      }
      assert s'.code == ClientPre(op, c) + rest;
    }
  }

  lemma ClientPrefix(op: Op, c: Choice, rest: Code)
    requires op.Client?
    ensures Plain(ClientPre(op, c))
  {
  }

  lemma ClientKeeps(s: State, c: Choice)
    requires Inv(s) && s.panic.None? && s.code != [] && s.code[0].Client?
    ensures Inv(ClientStep(s, c, s.code[0], s.code[1..]))
  {
    hide Ok, TableOk, AllSaved, Forking, ClientStep, NoNewFork;
    ClientCode(s, c);
    var s' := ClientStep(s, c, s.code[0], s.code[1..]);
    Recode(s, s'.cpu, s'.code);
  }

  lemma IrqCode(code: Code, who: Ctx)
    requires Ok(code, {}, 0, true, who)
    ensures Ok([Client(false, {}, 0)] + (if code == [] then [TrapTail] else []) + [Iret(true)] + code, {}, 0, false, who)
    ensures code != [] ==> !code[0].AfterSwtch?
  {
    var last := [Iret(true)] + code;
    assert last[1..] == code;
    var mid := if code == [] then [TrapTail] + last else last;
    assert code == [] ==> mid[1..] == last;
    OkClient(Client(false, {}, 0), mid, {}, 0, false, who);
    assert [Client(false, {}, 0)] + mid == [Client(false, {}, 0)] + (if code == [] then [TrapTail] else []) + [Iret(true)] + code;
  }

  lemma SyscallCode(who: Ctx)
    requires who.ProcCtx?
    ensures Ok([KilledCheck, Client(true, {}, 0), KilledCheck, TrapTail, Iret(true)], {}, 0, true, who)
    ensures Ok([TrapTail, Iret(true)], {}, 0, false, who)
  {
    assert [TrapTail, Iret(true)][1..] == [Iret(true)];
    var c := [KilledCheck, TrapTail, Iret(true)];
    assert c[1..] == [TrapTail, Iret(true)];
    OkClient(Client(true, {}, 0), c, {}, 0, true, who);
    var d := [KilledCheck, Client(true, {}, 0), KilledCheck, TrapTail, Iret(true)];
    assert d[1..] == [Client(true, {}, 0)] + c;
  }

  lemma UserMode(s: State)
    requires Control(s) && s.code == []
    ensures s.self.ProcCtx? && s.cpu.locked == {} && s.cpu.ncli == 0 && s.cpu.ifl
  {
  }

  lemma TrapKeeps(s: State, c: Choice)
    requires Inv(s) && s.panic.None?
    ensures Inv(TrapStep(s, c))
  {
    hide Ok, TableOk, AllSaved, Forking, NoNewFork, Relabels;
    var s' := TrapStep(s, c);
    if s.code == [] {
      UserMode(s);
      SyscallCode(s.self);
    }
    match c {
      case Irq =>
        if s.cpu.ifl {
          assert s.cpu.locked == {};
          IrqCode(s.code, s.self);
          var pre := [Client(false, {}, 0)] + (if s.code == [] then [TrapTail] else []) + [Iret(true)];
          NoNewPrefix(pre, s.code, 0);
          assert s.code[0..] == s.code;
          Recode(s, s'.cpu, s'.code);
        }
      case Syscall =>
        if s.code == [] {
          NoNewPrefix(s'.code, [], 0);
          assert s'.code + [] == s'.code;
          Recode(s, s.cpu, s'.code);
        }
      case Fault =>
        if s.code == [] {
          FaultKeeps(s);
        }
      case _ =>
    }
  }

  lemma FaultKeeps(s: State)
    requires Inv(s) && s.panic.None? && s.code == []
    ensures Inv(TrapStep(s, Fault))
  {
    hide Ok, TableOk, AllSaved, Forking, NoNewFork;
    var s' := TrapStep(s, Fault);
    UserMode(s);
    SyscallCode(s.self);
    RelabelStep(s, s.(t := s'.t));
    NoNewPrefix(s'.code, [], 0);
    assert s'.code + [] == s'.code;
    Recode(s.(t := s'.t), s'.cpu, s'.code);
  }

  /** A step that only relabels living processes, wakes sleepers or marks the running one, keeps the invariant. */
  lemma RelabelStep(s: State, s': State)
    requires Inv(s) && s' == s.(t := s'.t) && Relabels(s.t, s'.t)
    requires forall p: nat :: p < NPROC && s'.t[p].state != s.t[p].state ==> s.t[p].state == Sleeping && s'.t[p].state == Ready
    requires forall p: nat :: p < NPROC && s'.t[p].state == Sleeping ==> s'.t[p].chan == s.t[p].chan
    ensures Inv(s')
  {
    hide Ok, TableOk, SavedOk;
    RelabelKeeps(s.t, s'.t, s.nextpid, s.exited, s.reaped);
    forall op | op in s'.code && ForkOp(op) ensures ForkOpOk(s', op) {
      assert ForkOpOk(s, op);
    }
  }

  lemma WakeKeeps(s: State)
    requires Inv(s) && s.panic.None? && s.code != [] && s.code[0].WakeAll?
    ensures Inv(s.(t := Woken(s.t, Some(s.code[0].wake)), code := s.code[1..]))
  {
    hide TableOk, AllSaved, Forking, NoNewFork;
    var t' := Woken(s.t, Some(s.code[0].wake));
    WokenRelabels(s.t, Some(s.code[0].wake));
    RelabelStep(s, s.(t := t'));
    NoNewPrefix([], s.code, 1);
    assert [] + s.code[1..] == s.code[1..];
    Recode(s.(t := t'), s.cpu, s.code[1..]);
  }

  // -------------------------------------------------------------- switching

  lemma SchedulerCode(s: State)
    requires Control(s) && s.code != [] && (s.code[0].SchedLoop? || s.code[0].Scan? || s.code[0].AfterSwtch?)
    ensures s.self == SchedulerCtx && s.code[1..] == []
    ensures s.code[0].SchedLoop? ==> s.cpu.locked == {} && s.cpu.ncli == 0
    ensures !s.code[0].SchedLoop? ==> s.cpu.locked == {Ptable} && s.cpu.ncli == 1
  {
  }

  lemma SchedulerLoops(b: bool, i: nat)
    ensures Ok(LockOps(Ptable) + [Scan(0)], {}, 0, b, SchedulerCtx)
    ensures Ok(UnlockOps(Ptable) + [SchedLoop], {Ptable}, 1, b, SchedulerCtx)
    ensures Ok([Scan(i)], {Ptable}, 1, b, SchedulerCtx) && Ok([AfterSwtch(i)], {Ptable}, 1, b, SchedulerCtx)
  {
    assert {} + {Ptable} == {Ptable} && {Ptable} - {Ptable} == {};
    OkLock(Ptable, [Scan(0)], {}, 0, b, SchedulerCtx);
    OkUnlock(Ptable, [SchedLoop], {Ptable}, 1, b, SchedulerCtx);
  }

  lemma SchedulerKeeps(s: State)
    requires Inv(s) && s.panic.None? && s.code != [] && (s.code[0].SchedLoop? || s.code[0].Scan? || s.code[0].AfterSwtch?)
    ensures Inv(SchedulerStep(s, s.code[0], s.code[1..]))
  {
    hide Ok, TableOk, AllSaved, Forking, NoNewFork;
    var op := s.code[0];
    var s' := SchedulerStep(s, op, s.code[1..]);
    SchedulerCode(s);
    SchedulerLoops(s'.cpu.Base(), if op.Scan? then op.i + 1 else if op.AfterSwtch? then op.i else 0);
    if op.Scan? && op.i < NPROC && s.t[op.i].state == Ready {
      DispatchKeeps(s);
    } else {
      NoNewPrefix(s'.code, s.code, 1);
      assert s'.code + [] == s'.code;
      if op.AfterSwtch? {
        ReturnKeeps(s);
      } else {
        Recode(s, s'.cpu, s'.code);
      }
    }
  }

  lemma ReturnKeeps(s: State)
    requires Inv(s) && s.panic.None? && |s.code| == 1 && s.code[0].AfterSwtch? && s.self == SchedulerCtx
    requires Ok([Scan(s.code[0].i)], s.cpu.locked, s.cpu.ncli, s.cpu.Base(), SchedulerCtx)
    ensures Inv(s.(proc := None, code := [Scan(s.code[0].i)]))
  {
    hide Ok, TableOk, AllSaved;
  }

  /** The scheduler hands the CPU, and the table's lock, to a ready process. */
  lemma DispatchKeeps(s: State)
    requires Inv(s) && s.panic.None? && |s.code| == 1 && s.code[0].Scan? && s.self == SchedulerCtx
    requires s.code[0].i < NPROC && s.t[s.code[0].i].state == Ready && s.cpu.locked == {Ptable} && s.cpu.ncli == 1
    ensures Inv(SchedulerStep(s, s.code[0], []))
  {
    hide Ok, TableOk;
    var i := s.code[0].i;
    var s' := SchedulerStep(s, s.code[0], []);
    RelabelKeeps(s.t, s'.t, s.nextpid, s.exited, s.reaped);
    assert SavedOk(s.ctx[i], i);
    assert s'.code == s.ctx[i];
    assert Ok(s'.code, {Ptable}, 1, s'.cpu.Base(), ProcCtx(i));
  }

  lemma SavedCode(on: bool, rest: Code, p: nat)
    requires Plain(rest) && Ok(rest, {Ptable}, 1, on, ProcCtx(p))
    ensures SavedOk([RestoreIntOn(on)] + rest, p)
  {
    assert ([RestoreIntOn(on)] + rest)[1..] == rest;
  }

  /** A process that is no longer marked running gives the CPU, and the table's lock, back to the scheduler. */
  lemma SwitchOut(s: State, s1: State, rest: Code, p: nat)
    requires Inv(s) && s.panic.None? && s.self == ProcCtx(p) && s.cpu.locked == {Ptable} && s.cpu.ncli == 1
    requires s1 == s.(t := s1.t, exited := s1.exited) && TableOk(s1.t, s1.nextpid, s1.exited, s1.reaped)
    requires forall q: nat :: q < NPROC ==> s1.t[q].state != Running
    requires forall q: nat :: q < NPROC && q != p && (s1.t[q].state == Ready || s1.t[q].state == Sleeping) ==>
               s.t[q].state == Ready || s.t[q].state == Sleeping
    requires s1.t[p].state != Zombie ==> Plain(rest) && Ok(rest, {Ptable}, 1, s.cpu.intOn, ProcCtx(p))
    ensures Inv(SchedStep(s1, rest)) && SchedStep(s1, rest).panic.None?
  {
    hide Ok, TableOk, Plain, SavedOk;
    var s' := SchedStep(s1, rest);
    var i := s.sched[0].i;
    assert s.sched == [AfterSwtch(i)];
    SchedulerLoops(s'.cpu.Base(), i);
    if s1.t[p].state != Zombie {
      SavedCode(s.cpu.intOn, rest, p);
    }
    forall q: nat | q < NPROC && (s'.t[q].state == Ready || s'.t[q].state == Sleeping) ensures SavedOk(s'.ctx[q], q) {
    }
    assert forall op :: op in s'.code ==> !ForkOp(op);
  }

  // ------------------------------------------------------- process operations

  /** What sleep still has to do once it is woken. */
  function WakeTail(lk: LockId, rest: Code): Code {
    [ClearChan] + UnlockOps(Ptable) + LockOps(lk) + rest
  }

  lemma WakeTailCode(lk: LockId, rest: Code, b: bool, who: Ctx)
    requires who.ProcCtx? && Plain(rest) && Ok(rest, {lk}, 1, b, who)
    ensures Ok(WakeTail(lk, rest), {Ptable}, 1, b, who)
  {
    hide LockOps, UnlockOps, Plain;
    assert {} + {lk} == {lk} && {Ptable} - {Ptable} == {};
    OkLock(lk, rest, {}, 0, b, who);
    OkUnlock(Ptable, LockOps(lk) + rest, {Ptable}, 1, b, who);
    assert WakeTail(lk, rest)[1..] == UnlockOps(Ptable) + (LockOps(lk) + rest);
  }

  lemma WakeTailPlain(lk: LockId, rest: Code)
    requires Plain(rest)
    ensures Plain(WakeTail(lk, rest))
  {
  }

  lemma SleepCode(chan: Chan, lk: LockId, rest: Code, b: bool, who: Ctx)
    requires who.ProcCtx? && lk != Ptable && chan.Obj? && Plain(rest) && Ok(rest, {lk}, 1, b, who)
    ensures Ok(LockOps(Ptable) + UnlockOps(lk) + [SleepSwitch(chan), ClearChan] + UnlockOps(Ptable) + LockOps(lk) + rest,
               {lk}, 1, b, who)
  {
    hide LockOps, UnlockOps, Plain;
    assert {lk, Ptable} - {lk} == {Ptable} && {lk} + {Ptable} == {lk, Ptable};
    WakeTailCode(lk, rest, b, who);
    WakeTailPlain(lk, rest);
    var c4 := [SleepSwitch(chan)] + WakeTail(lk, rest);
    assert c4[1..] == WakeTail(lk, rest);
    OkUnlock(lk, c4, {lk, Ptable}, 2, b, who);
    OkLock(Ptable, UnlockOps(lk) + c4, {lk}, 1, b, who);
    assert LockOps(Ptable) + (UnlockOps(lk) + c4)
        == LockOps(Ptable) + UnlockOps(lk) + [SleepSwitch(chan), ClearChan] + UnlockOps(Ptable) + LockOps(lk) + rest;
  }

  lemma SleepKeeps(s: State, p: nat)
    requires Inv(s) && s.panic.None? && s.code != [] && s.code[0].SleepSwitch? && s.proc == Some(p) && p < NPROC
    ensures Inv(ProcStep(s, Continue, p, s.code[0], s.code[1..]))
    ensures ProcStep(s, Continue, p, s.code[0], s.code[1..]).panic.None?
  {
    hide TableOk, AllSaved, Forking;
    var t': Procs := s.t[p := s.t[p].(chan := Some(s.code[0].chan), state := Sleeping)];
    RelabelKeeps(s.t, t', s.nextpid, s.exited, s.reaped);
    SwitchOut(s, s.(t := t'), s.code[1..], p);
  }

  lemma YieldKeeps(s: State, p: nat)
    requires Inv(s) && s.panic.None? && s.code != [] && s.code[0].ReadySwitch? && s.proc == Some(p) && p < NPROC
    ensures Inv(ProcStep(s, Continue, p, s.code[0], s.code[1..]))
    ensures ProcStep(s, Continue, p, s.code[0], s.code[1..]).panic.None?
  {
    hide TableOk, AllSaved, Forking;
    var t': Procs := s.t[p := s.t[p].(state := Ready)];
    RelabelKeeps(s.t, t', s.nextpid, s.exited, s.reaped);
    SwitchOut(s, s.(t := t'), s.code[1..], p);
  }

  lemma ExitKeeps(s: State, p: nat)
    requires Inv(s) && s.panic.None? && s.code != [] && s.code[0].ExitSwitch? && s.proc == Some(p) && p < NPROC
    ensures Inv(ProcStep(s, Continue, p, s.code[0], s.code[1..]))
    ensures ProcStep(s, Continue, p, s.code[0], s.code[1..]).panic.None?
  {
    hide Tree, Pids, Waiters, AllSaved, Forking, Exited;
    var t' := Exited(s.t, p);
    ExitTree(s.t, p);
    ExitPids(s.t, p, s.nextpid, s.exited, s.reaped);
    ExitWaiters(s.t, p);
    NotOwnParent(s.t, p);
    forall q: nat | q < NPROC
      ensures t'[q].state != Running
      ensures q != p && (t'[q].state == Ready || t'[q].state == Sleeping) ==> s.t[q].state == Ready || s.t[q].state == Sleeping
    {
      ExitedAt(s.t, p, q);
    }
    ExitedAt(s.t, p, p);
    SwitchOut(s, s.(t := t', exited := s.exited + [s.t[p].pid]), [NoReturn], p);
  }

  lemma NotOwnParent(t: Procs, p: nat)
    requires Tree(t) && p < NPROC
    ensures t[p].parent != Some(p)
  {
    assert ParentOk(t, p);
  }

  /** Locking the table and going on under the lock. */
  lemma Enter(op: Op, rest: Code, b: bool, who: Ctx)
    requires Ok([op] + rest, {Ptable}, 1, b, who)
    ensures Ok(LockOps(Ptable) + [op] + rest, {}, 0, b, who)
  {
    hide Ok, LockOps;
    assert {} + {Ptable} == {Ptable};
    OkLock(Ptable, [op] + rest, {}, 0, b, who);
    assert LockOps(Ptable) + ([op] + rest) == LockOps(Ptable) + [op] + rest;
  }

  lemma Leave(rest: Code, b: bool, who: Ctx)
    requires Ok(rest, {}, 0, b, who)
    ensures Ok(UnlockOps(Ptable) + rest, {Ptable}, 1, b, who)
  {
    hide Ok, UnlockOps;
    assert {Ptable} - {Ptable} == {};
    OkUnlock(Ptable, rest, {Ptable}, 1, b, who);
  }

  predicate QuietOp(op: Op) {
    op.Sleep? || op.Fork? || op.Exit? || op.Wait? || op.KilledCheck? || op.TrapTail?
  }

  lemma YieldCode(rest: Code, b: bool, who: Ctx)
    requires who.ProcCtx? && Plain(rest) && Ok(rest, {}, 0, b, who)
    ensures Ok(LockOps(Ptable) + [ReadySwitch] + UnlockOps(Ptable) + rest, {}, 0, b, who)
  {
    hide LockOps, UnlockOps, Plain;
    var next := UnlockOps(Ptable) + rest;
    Leave(rest, b, who);
    PlainLeave(rest);
    assert ([ReadySwitch] + next)[1..] == next;
    Enter(ReadySwitch, next, b, who);
    assert LockOps(Ptable) + [ReadySwitch] + next == LockOps(Ptable) + [ReadySwitch] + UnlockOps(Ptable) + rest;
  }

  lemma ScanCode(op: Op, rest: Code, b: bool, who: Ctx)
    requires (op.AllocSlot? || op.WaitScan?) && who.ProcCtx? && Plain(rest) && Ok(rest, {}, 0, b, who)
    ensures Ok(LockOps(Ptable) + [op] + rest, {}, 0, b, who)
  {
    hide LockOps, Plain;
    assert ([op] + rest)[1..] == rest;
    Enter(op, rest, b, who);
  }

  /** The code a call of the process module unfolds to obeys the discipline the call was made under. */
  lemma QuietCode(s: State, p: nat)
    requires Control(s) && s.code != [] && QuietOp(s.code[0]) && s.self == ProcCtx(p) && p < NPROC
    ensures var s' := ProcStep(s, Continue, p, s.code[0], s.code[1..]);
            && (s' == s.(code := s'.code) || s' == Halt(s, OutOfPids) || s' == Halt(s, InitExits))
            && Control(s')
  {
    hide LockOps, UnlockOps, Plain;
    var op, rest, b := s.code[0], s.code[1..], s.cpu.Base();
    match op {
      case Sleep(chan, lk) => SleepCode(chan, lk, rest, b, s.self);
      case Fork => ScanCode(AllocSlot, rest, b, s.self);
      case Wait => ScanCode(WaitScan, rest, b, s.self);
      case Exit =>
        if p != INIT {
          Enter(ExitSwitch, [], b, s.self);
          assert LockOps(Ptable) + [ExitSwitch] + [] == LockOps(Ptable) + [ExitSwitch];
        }
      case TrapTail => YieldCode(rest, b, s.self);
      case KilledCheck =>
    }
  }

  lemma PlainLeave(rest: Code)
    requires Plain(rest)
    ensures Plain(UnlockOps(Ptable) + rest)
  {
  }

  lemma QuietForks(s: State, p: nat)
    requires s.code != [] && QuietOp(s.code[0]) && p < NPROC
    ensures NoNewFork(ProcStep(s, Continue, p, s.code[0], s.code[1..]).code, s.code)
  {
  }

  lemma QuietKeeps(s: State, p: nat)
    requires Inv(s) && s.panic.None? && s.code != [] && QuietOp(s.code[0]) && s.self == ProcCtx(p)
    ensures Inv(ProcStep(s, Continue, p, s.code[0], s.code[1..]))
  {
    hide Ok, TableOk, AllSaved, Forking, ProcStep, NoNewFork;
    QuietCode(s, p);
    QuietForks(s, p);
    var s' := ProcStep(s, Continue, p, s.code[0], s.code[1..]);
    if s' == s.(code := s'.code) {
      Recode(s, s.cpu, s'.code);
    } else {
      HaltKeeps(s, s'.panic.value);
    }
  }

  lemma HaltKeeps(s: State, p: Panic)
    requires Inv(s) && Allowed(p)
    ensures Inv(Halt(s, p))
  {
    hide Ok, TableOk, AllSaved;
    forall op | op in s.code && ForkOp(op) ensures ForkOpOk(Halt(s, p), op) {
      assert ForkOpOk(s, op);
    }
  }

  lemma ClearChanKeeps(s: State, p: nat)
    requires Inv(s) && s.panic.None? && s.code != [] && s.code[0].ClearChan? && s.self == ProcCtx(p)
    ensures Inv(ProcStep(s, Continue, p, s.code[0], s.code[1..]))
  {
    hide TableOk, AllSaved, Forking, NoNewFork;
    var s1 := SetProc(s, p, s.t[p].(chan := None));
    RelabelStep(s, s1);
    NoNewPrefix([], s.code, 1);
    assert [] + s.code[1..] == s.code[1..];
    Recode(s1, s.cpu, s.code[1..]);
  }

  // --------------------------------------------------------------- wait

  lemma WaitFacts(s: State, p: nat)
    requires Control(s) && s.code != [] && s.code[0].WaitScan? && s.self == ProcCtx(p)
    ensures s.cpu.locked == {Ptable} && s.cpu.ncli == 1 && Plain(s.code)
    ensures Ok(UnlockOps(Ptable) + s.code[1..], {Ptable}, 1, s.cpu.Base(), s.self)
    ensures Ok([ClearChan, WaitScan] + s.code[1..], {Ptable}, 1, s.cpu.Base(), s.self)
    ensures Plain([ClearChan, WaitScan] + s.code[1..]) && NoNewFork(UnlockOps(Ptable) + s.code[1..], s.code)
  {
    var rest := s.code[1..];
    Leave(rest, s.cpu.Base(), s.self);
    var c := [ClearChan, WaitScan] + rest;
    assert c[1..] == [WaitScan] + rest;
    assert c[1..][1..] == rest;
  }

  lemma ReapKeeps(s: State, p: nat)
    requires Inv(s) && s.panic.None? && s.code != [] && s.code[0].WaitScan? && s.self == ProcCtx(p) && p < NPROC
    requires FindZombie(s.t, p, 0).Some?
    ensures Inv(ProcStep(s, Continue, p, s.code[0], s.code[1..]))
  {
    hide Ok, Tree, Pids, Waiters, SavedOk, UnlockOps, NoNewFork;
    WaitFacts(s, p);
    var z := FindZombie(s.t, p, 0).value;
    ReapTree(s.t, z);
    ReapPids(s.t, z, s.nextpid, s.exited, s.reaped);
    ReapWaiters(s.t, z);
    var s1 := s.(t := s.t[z := CLEARED], reaped := s.reaped + [s.t[z].pid]);
    assert Plain(s1.code);
    Recode(s1, s.cpu, UnlockOps(Ptable) + s.code[1..]);
  }

  lemma WaitKeeps(s: State, p: nat)
    requires Inv(s) && s.panic.None? && s.code != [] && s.code[0].WaitScan? && s.self == ProcCtx(p) && p < NPROC
    requires FindZombie(s.t, p, 0).None?
    ensures Inv(ProcStep(s, Continue, p, s.code[0], s.code[1..]))
  {
    hide Ok, TableOk, AllSaved, Forking, Plain, UnlockOps, NoNewFork;
    WaitFacts(s, p);
    if !HasChild(s.t, p) || s.t[p].killed {
      Recode(s, s.cpu, UnlockOps(Ptable) + s.code[1..]);
    } else {
      var t': Procs := s.t[p := s.t[p].(chan := Some(ProcChan(p)), state := Sleeping)];
      RelabelKids(s.t, t', p);
      RelabelKeeps(s.t, t', s.nextpid, s.exited, s.reaped);
      SwitchOut(s, s.(t := t'), [ClearChan, WaitScan] + s.code[1..], p);
    }
  }

  // --------------------------------------------------------------- fork

  /** A step of fork: one slot moves, its saved context may be set, and the code is replaced. */
  lemma SlotStep(s: State, s': State, p: nat, c: nat)
    requires Inv(s) && s.panic.None? && s.self == ProcCtx(p) && c < NPROC && p < NPROC && c != p
    requires s' == s.(t := s.t[c := s'.t[c]], nextpid := s'.nextpid, ctx := s.ctx[c := s'.ctx[c]], code := s'.code)
    requires SlotMoves(s.t, c, s'.t[c], s.nextpid, s'.nextpid, s.exited, s.reaped)
    requires s'.t[c].state == Ready ==> SavedOk(s'.ctx[c], c)
    requires Control(s')
    requires forall op :: op in s'.code && ForkOp(op) ==> ForkOpOk(s', op)
    ensures Inv(s')
  {
    hide Ok, TableOk, SavedOk, ForkOpOk;
    SlotKeeps(s.t, c, s'.t[c], s.nextpid, s'.nextpid, s.exited, s.reaped);
    forall q: nat | q < NPROC && (s'.t[q].state == Ready || s'.t[q].state == Sleeping) ensures SavedOk(s'.ctx[q], q) {
    }
  }

  lemma ForkFacts(s: State, p: nat)
    requires Control(s) && s.code != [] && (s.code[0].AllocSlot? || ForkOp(s.code[0])) && s.self == ProcCtx(p)
    ensures Plain(s.code[1..])
    ensures s.code[0].AllocSlot? ==> s.cpu.locked == {Ptable} && s.cpu.ncli == 1 && Ok(s.code[1..], {}, 0, s.cpu.Base(), s.self)
    ensures ForkOp(s.code[0]) ==> Ok(s.code[1..], s.cpu.locked, s.cpu.ncli, s.cpu.Base(), s.self)
    ensures s.code[0].FillChild? ==> s.cpu.locked == {} && s.cpu.ncli == 0
  {
  }

  lemma AllocCode(c: nat, rest: Code, b: bool, who: Ctx)
    requires Ok(rest, {}, 0, b, who) && Plain(rest) && who.ProcCtx?
    ensures Ok(UnlockOps(Ptable) + [FillChild(c)] + rest, {Ptable}, 1, b, who)
    ensures forall op :: op in UnlockOps(Ptable) + [FillChild(c)] + rest && ForkOp(op) ==> op == FillChild(c)
  {
    assert ([FillChild(c)] + rest)[1..] == rest;
    Leave([FillChild(c)] + rest, b, who);
    assert UnlockOps(Ptable) + ([FillChild(c)] + rest) == UnlockOps(Ptable) + [FillChild(c)] + rest;
  }

  lemma AllocMoves(t: Procs, c: nat, nextpid: nat, exited: seq<nat>, reaped: seq<nat>)
    requires TableOk(t, nextpid, exited, reaped) && c < NPROC && t[c].state == Unused
    ensures SlotMoves(t, c, t[c].(state := Created, pid := nextpid), nextpid, nextpid + 1, exited, reaped)
    ensures t[c].parent == None && c != INIT
    ensures forall p: nat :: p < NPROC && t[p].state != Unused ==> t[p].pid < nextpid
    ensures 1 <= nextpid
  {
    hide Waiters, DeadWithPid;
    assert ParentOk(t, c);
    assert t[INIT].state != Unused;
  }

  lemma AllocKeeps(s: State, p: nat)
    requires Inv(s) && s.panic.None? && s.code != [] && s.code[0].AllocSlot? && s.self == ProcCtx(p) && p < NPROC
    ensures Inv(ProcStep(s, Continue, p, s.code[0], s.code[1..]))
  {
    hide Ok, AllSaved, Forking, Plain, UnlockOps, NoNewFork, TableOk, SlotMoves;
    var rest := s.code[1..];
    ForkFacts(s, p);
    var free := FindUnused(s.t, 1);
    if free.None? {
      Leave(rest, s.cpu.Base(), s.self);
      PlainLeave(rest);
      PlainNew(UnlockOps(Ptable) + rest, s.code);
      Recode(s, s.cpu, UnlockOps(Ptable) + rest);
    } else {
      var c := free.value;
      AllocMoves(s.t, c, s.nextpid, s.exited, s.reaped);
      AllocCode(c, rest, s.cpu.Base(), s.self);
      SlotStep(s, ProcStep(s, Continue, p, s.code[0], rest), p, c);
    }
  }

  lemma PlainNew(code: Code, was: Code)
    requires Plain(code)
    ensures NoNewFork(code, was)
  {
  }

  lemma FillCode(c: nat, rest: Code, b: bool, who: Ctx)
    requires Ok(rest, {}, 0, b, who) && Plain(rest) && who.ProcCtx?
    ensures Ok(LockOps(Ptable) + [ChildReady(c)] + UnlockOps(Ptable) + rest, {}, 0, b, who)
    ensures forall op :: op in LockOps(Ptable) + [ChildReady(c)] + UnlockOps(Ptable) + rest && ForkOp(op) ==> op == ChildReady(c)
  {
    var next := UnlockOps(Ptable) + rest;
    Leave(rest, b, who);
    PlainLeave(rest);
    assert ([ChildReady(c)] + next)[1..] == next;
    Enter(ChildReady(c), next, b, who);
    assert LockOps(Ptable) + [ChildReady(c)] + next == LockOps(Ptable) + [ChildReady(c)] + UnlockOps(Ptable) + rest;
  }

  lemma ForkRetSaved(c: nat)
    ensures SavedOk(ForkRet(), c)
  {
    assert [Iret(true)][1..] == [];
    Leave([Iret(true)], true, ProcCtx(c));
    Leave([Iret(true)], false, ProcCtx(c));
  }

  lemma ForkingAt(s: State, op: Op)
    requires Forking(s) && op in s.code && ForkOp(op)
    ensures ForkOpOk(s, op)
  {
  }

  lemma FillMoves(s: State, c: nat, q: Proc)
    requires Inv(s) && s.self.ProcCtx? && FillChild(c) in s.code && ForkOpOk(s, FillChild(c))
    requires q == s.t[c].(state := Unused) || q == CLEARED || q == s.t[c].(parent := Some(s.self.slot))
    ensures SlotMoves(s.t, c, q, s.nextpid, s.nextpid, s.exited, s.reaped)
  {
    hide Ok, AllSaved, Waiters, DeadWithPid, Forking;
  }

  lemma FillKeeps(s: State, ch: Choice, p: nat)
    requires Inv(s) && s.panic.None? && s.code != [] && s.code[0].FillChild? && s.self == ProcCtx(p) && p < NPROC
    ensures Inv(ProcStep(s, ch, p, s.code[0], s.code[1..]))
  {
    hide Ok, AllSaved, Plain, LockOps, UnlockOps, ForkRet, TableOk, SlotMoves, Forking;
    var rest, c := s.code[1..], s.code[0].child;
    var s' := ProcStep(s, ch, p, s.code[0], rest);
    assert s.code[0] == FillChild(c);
    ForkingAt(s, FillChild(c));
    FillMoves(s, c, if ch == StackFails then s.t[c].(state := Unused) else if ch == CopyFails then CLEARED else s.t[c].(parent := Some(p)));
    ForkFacts(s, p);
    FillCode(c, rest, s.cpu.Base(), s.self);
    PlainNew(rest, []);
    SlotStep(s, s', p, c);
  }

  lemma ChildReadyKeeps(s: State, p: nat)
    requires Inv(s) && s.panic.None? && s.code != [] && s.code[0].ChildReady? && s.self == ProcCtx(p) && p < NPROC
    ensures Inv(ProcStep(s, Continue, p, s.code[0], s.code[1..]))
  {
    hide Ok, AllSaved, Plain, LockOps, UnlockOps, ForkRet, Waiters;
    var rest, c := s.code[1..], s.code[0].child;
    assert ForkOpOk(s, s.code[0]);
    assert ParentOk(s.t, c);
    ForkFacts(s, p);
    PlainNew(rest, []);
    ForkRetSaved(c);
    SlotStep(s, ProcStep(s, Continue, p, s.code[0], rest), p, c);
  }

  // --------------------------------------------------------------- every step

  predicate ProcOp(op: Op) {
    || QuietOp(op) || ForkOp(op) || op.AllocSlot? || op.ClearChan? || op.WaitScan? || op.NoReturn?
    || op.SleepSwitch? || op.ReadySwitch? || op.ExitSwitch?
  }

  lemma ProcFacts(s: State)
    requires Control(s) && s.code != [] && ProcOp(s.code[0])
    ensures s.self.ProcCtx? && !s.code[0].NoReturn? && (s.code[0].ExitSwitch? ==> s.self != ProcCtx(INIT))
  {
  }

  lemma OnlyFillChooses(s: State, c: Choice, p: nat, op: Op, rest: Code)
    requires p < NPROC && !op.FillChild?
    ensures ProcStep(s, c, p, op, rest) == ProcStep(s, Continue, p, op, rest)
  {
  }

  lemma ProcKeeps(s: State, c: Choice)
    requires Inv(s) && s.panic.None? && s.code != [] && ProcOp(s.code[0])
    ensures s.proc.Some? && s.proc.value < NPROC
    ensures Inv(ProcStep(s, c, s.proc.value, s.code[0], s.code[1..]))
  {
    hide Ok, TableOk, AllSaved, Forking, ProcStep;
    ProcFacts(s);
    var p, op := s.proc.value, s.code[0];
    if op.FillChild? {
      FillKeeps(s, c, p);
    } else {
      OnlyFillChooses(s, c, p, op, s.code[1..]);
      if QuietOp(op) {
        QuietKeeps(s, p);
      } else if op.ChildReady? {
        ChildReadyKeeps(s, p);
      } else if op.AllocSlot? {
        AllocKeeps(s, p);
      } else if op.ClearChan? {
        ClearChanKeeps(s, p);
      } else if op.SleepSwitch? {
        SleepKeeps(s, p);
      } else if op.ReadySwitch? {
        YieldKeeps(s, p);
      } else if op.ExitSwitch? {
        ExitKeeps(s, p);
      } else if FindZombie(s.t, p, 0).Some? {
        ReapKeeps(s, p);
      } else {
        WaitKeeps(s, p);
      }
    }
  }

  /** Every step, whatever is chosen, keeps the invariant. */
  lemma StepKeeps(s: State, c: Choice)
    requires Inv(s)
    ensures Inv(Next(s, c))
  {
    hide Inv, ClientStep, CpuStep, SchedulerStep, ProcStep, TrapStep;
    if s.panic.None? {
      if c.Irq? || c.Fault? || c.Syscall? {
        TrapKeeps(s, c);
      } else if s.code != [] {
        var op := s.code[0];
        if op.Client? {
          ClientKeeps(s, c);
        } else if CpuOp(op) {
          CpuKeeps(s);
        } else if op.SchedLoop? || op.Scan? || op.AfterSwtch? {
          SchedulerKeeps(s);
        } else if op.WakeAll? {
          WakeKeeps(s);
        } else {
          ProcKeeps(s, c);
        }
      }
    }
  }

  lemma BootOk(intOn: bool)
    ensures Inv(Boot(intOn))
  {
    var s := Boot(intOn);
    ForkRetSaved(INIT);
    assert s.t[INIT] == Proc(Ready, 1, None, None, false);
    assert forall p: nat :: p < NPROC && p != INIT ==> s.t[p] == CLEARED;
    assert s.ctx[INIT] == ForkRet();
  }

  /** The invariant holds in every state of every run from boot. */
  lemma {:induction false} RunKeeps(s: State, cs: seq<Choice>)
    requires Inv(s)
    ensures Inv(Run(s, cs))
    decreases |cs|
  {
    if cs != [] {
      StepKeeps(s, cs[0]);
      RunKeeps(Next(s, cs[0]), cs[1..]);
    }
  }
}
