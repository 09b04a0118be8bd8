/**
 The kernel on its one CPU as a step machine. A context is the kernel code it has still to run, as a list of
 operations; an operation may put further ones in front of the rest. What a system call or an interrupt handler does
 beyond the process functions is left open: `Client` takes and releases locks, disables interrupts, wakes channels,
 sleeps, forks, waits and exits in any order that its lock discipline allows, so every such caller is covered.
 */
module Kernel {
  import opened Wrappers
  import opened ProcTable
  import opened Spinlock

  datatype Op =
    | PushCli
    | PopCli
    | Acquire(lk: LockId)
    | Release(lk: LockId)
    // any code of a system call (base: it entered with interrupts on) or of an interrupt handler
    | Client(base: bool, held: set<LockId>, extra: nat)
    // sleep(chan, lk); the mark and the switch inside it; what it does on waking
    | Sleep(chan: Chan, lk: LockId)
    | SleepSwitch(chan: Chan)
    | ClearChan
    | RestoreIntOn(on: bool)
    | WakeAll(wake: Chan)
    | ReadySwitch
    | Fork
    | AllocSlot
    | FillChild(child: nat)
    | ChildReady(child: nat)
    | Exit
    | ExitSwitch
    | NoReturn
    | Wait
    | WaitScan
    | KilledCheck
    | TrapTail
    | Iret(on: bool)
    // the scheduler's loop, its scan at slot i, and its return from a process
    | SchedLoop
    | Scan(i: nat)
    | AfterSwtch(i: nat)

  type Code = seq<Op>
  type Contexts = c: seq<Code> | |c| == NPROC witness seq(NPROC, i => [])

  /** Which kernel stack the CPU is on. */
  datatype Ctx = SchedulerCtx | ProcCtx(slot: nat)

  datatype Panic =
    | LockHeld | LockNotHeld | BadPop | NoProcess
    | SchedNoLock | SchedLocks | SchedRunning | SchedInterruptible | ZombieExit
    | OutOfPids | InitExits

  datatype State = State(
    t: Procs,
    nextpid: nat,
    cpu: Cpu,
    proc: Option<nat>,
    self: Ctx,
    code: Code,
    ctx: Contexts,
    sched: Code,
    exited: seq<nat>,
    reaped: seq<nat>,
    panic: Option<Panic>)

  /** What the machine does next, where the code alone does not decide it. */
  datatype Choice =
    | Continue
    | Irq
    | Fault
    | Syscall
    | DoLock(lk: LockId)
    | DoUnlock(lk: LockId)
    | DoPush
    | DoPop
    | DoWakeup(id: nat)
    | DoSleep(id: nat, lk: LockId)
    | DoFork
    | DoWait
    | DoExit
    | Return
    | StackFails
    | CopyFails

  function LockOps(lk: LockId): Code { [PushCli, Acquire(lk)] }

  function UnlockOps(lk: LockId): Code { [Release(lk), PopCli] }

  /** The context of a new process: forkret, then trapret to user mode. */
  function ForkRet(): Code { UnlockOps(Ptable) + [Iret(true)] }

  function Halt(s: State, p: Panic): State { s.(panic := Some(p)) }

  function SetProc(s: State, i: nat, p: Proc): State
    requires i < NPROC
  {
    s.(t := s.t[i := p])
  }

  /** sched(): save the context, with its own int_on to restore, and switch to the scheduler. */
  function SchedStep(s: State, rest: Code): State {
    if s.proc.None? || s.proc.value >= NPROC then Halt(s, NoProcess)
    else if Ptable !in s.cpu.locked then Halt(s, SchedNoLock)
    else if s.cpu.ncli != 1 then Halt(s, SchedLocks)
    else if s.t[s.proc.value].state == Running then Halt(s, SchedRunning)
    else if s.cpu.ifl then Halt(s, SchedInterruptible)
    else s.(ctx := s.ctx[s.proc.value := [RestoreIntOn(s.cpu.intOn)] + rest], self := SchedulerCtx, code := s.sched)
  }

  /** Client code picks its next call; a choice its discipline does not allow leaves the state alone. */
  function ClientStep(s: State, c: Choice, op: Op, rest: Code): State
    requires op.Client?
  {
    var idle := op.held == {} && op.extra == 0;
    match c
    case DoLock(lk) =>
      if lk == Ptable || lk in op.held then s
      else s.(code := LockOps(lk) + [op.(held := op.held + {lk})] + rest)
    case DoUnlock(lk) =>
      if lk !in op.held then s else s.(code := UnlockOps(lk) + [op.(held := op.held - {lk})] + rest)
    case DoPush => s.(code := [PushCli, op.(extra := op.extra + 1)] + rest)
    case DoPop => if op.extra == 0 then s else s.(code := [PopCli, op.(extra := op.extra - 1)] + rest)
    case DoWakeup(id) => s.(code := LockOps(Ptable) + [WakeAll(Obj(id))] + UnlockOps(Ptable) + [op] + rest)
    case DoSleep(id, lk) =>
      if op.base && op.held == {lk} && op.extra == 0 then s.(code := [Sleep(Obj(id), lk), op] + rest) else s
    case DoFork => if op.base && idle then s.(code := [Fork, op] + rest) else s
    case DoWait => if op.base && idle then s.(code := [Wait, op] + rest) else s
    case DoExit => if op.base && idle then s.(code := [Exit]) else s
    case Return => if idle then s.(code := rest) else s
    case _ => s
  }

  /** An interrupt, a fault or a system call starts. */
  function TrapStep(s: State, c: Choice): State {
    var user := s.code == [];
    match c
    case Irq =>
      if !s.cpu.ifl then s
      else s.(cpu := s.cpu.(ifl := false),
              code := [Client(false, {}, 0)] + (if user then [TrapTail] else []) + [Iret(true)] + s.code)
    case Fault =>
      if !user || s.proc.None? || s.proc.value >= NPROC then s
      else
        SetProc(s, s.proc.value, s.t[s.proc.value].(killed := true))
        .(cpu := s.cpu.(ifl := false), code := [TrapTail, Iret(true)])
    case Syscall =>
      if !user then s else s.(code := [KilledCheck, Client(true, {}, 0), KilledCheck, TrapTail, Iret(true)])
    case _ => s
  }

  /** One operation that works on the CPU and its locks. */
  function CpuStep(s: State, op: Op, rest: Code): State {
    match op
    case PushCli => s.(cpu := Pushed(s.cpu), code := rest)
    case PopCli => if CanPop(s.cpu) then s.(cpu := Popped(s.cpu), code := rest) else Halt(s, BadPop)
    case Acquire(lk) =>
      if lk in s.cpu.locked then Halt(s, LockHeld)
      else s.(cpu := s.cpu.(locked := s.cpu.locked + {lk}), code := rest)
    case Release(lk) =>
      if lk !in s.cpu.locked then Halt(s, LockNotHeld)
      else s.(cpu := s.cpu.(locked := s.cpu.locked - {lk}), code := rest)
    case RestoreIntOn(on) => s.(cpu := s.cpu.(intOn := on), code := rest)
    case Iret(on) => s.(cpu := s.cpu.(ifl := on), code := rest)
    case _ => s
  }

  /** One operation of the scheduler. */
  function SchedulerStep(s: State, op: Op, rest: Code): State {
    match op
    case SchedLoop => s.(cpu := s.cpu.(ifl := true), code := LockOps(Ptable) + [Scan(0)])
    case Scan(i) =>
      if i >= NPROC then s.(code := UnlockOps(Ptable) + [SchedLoop])
      else if s.t[i].state != Ready then s.(code := [Scan(i + 1)])
      else
        SetProc(s, i, s.t[i].(state := Running))
        .(proc := Some(i), self := ProcCtx(i), sched := [AfterSwtch(i + 1)], code := s.ctx[i])
    case AfterSwtch(i) => s.(proc := None, code := [Scan(i)])
    case _ => s
  }

  /** One operation of the current process p on the process table. */
  function ProcStep(s: State, c: Choice, p: nat, op: Op, rest: Code): State
    requires p < NPROC
  {
    match op
    case Sleep(chan, lk) =>
      s.(code := LockOps(Ptable) + UnlockOps(lk) + [SleepSwitch(chan), ClearChan] + UnlockOps(Ptable) + LockOps(lk) + rest)
    case SleepSwitch(chan) =>
      SchedStep(SetProc(s, p, s.t[p].(chan := Some(chan), state := Sleeping)), rest)
    case ClearChan => SetProc(s, p, s.t[p].(chan := None)).(code := rest)
    case ReadySwitch => SchedStep(SetProc(s, p, s.t[p].(state := Ready)), rest)
    case Fork =>
      if s.nextpid > NPROC then Halt(s, OutOfPids) else s.(code := LockOps(Ptable) + [AllocSlot] + rest)
    case AllocSlot =>
      var free := FindUnused(s.t, 1);
      if free.None? then s.(code := UnlockOps(Ptable) + rest)
      else
        SetProc(s, free.value, s.t[free.value].(state := Created, pid := s.nextpid))
        .(nextpid := s.nextpid + 1, code := UnlockOps(Ptable) + [FillChild(free.value)] + rest)
    case FillChild(i) =>
      if i >= NPROC then s
      else if c == StackFails then SetProc(s, i, s.t[i].(state := Unused)).(code := rest)
      else if c == CopyFails then SetProc(s, i, CLEARED).(code := rest)
      else
        SetProc(s, i, s.t[i].(parent := Some(p)))
        .(ctx := s.ctx[i := ForkRet()], code := LockOps(Ptable) + [ChildReady(i)] + UnlockOps(Ptable) + rest)
    case ChildReady(i) =>
      if i >= NPROC then s else SetProc(s, i, s.t[i].(state := Ready)).(code := rest)
    case Exit =>
      if p == INIT then Halt(s, InitExits) else s.(code := LockOps(Ptable) + [ExitSwitch])
    case ExitSwitch =>
      SchedStep(s.(t := Exited(s.t, p), exited := s.exited + [s.t[p].pid]), [NoReturn])
    case NoReturn => Halt(s, ZombieExit)
    case Wait => s.(code := LockOps(Ptable) + [WaitScan] + rest)
    case WaitScan =>
      var dead := FindZombie(s.t, p, 0);
      if dead.Some? then
        SetProc(s, dead.value, CLEARED)
        .(reaped := s.reaped + [s.t[dead.value].pid], code := UnlockOps(Ptable) + rest)
      else if !HasChild(s.t, p) || s.t[p].killed then s.(code := UnlockOps(Ptable) + rest)
      else
        SchedStep(SetProc(s, p, s.t[p].(chan := Some(ProcChan(p)), state := Sleeping)), [ClearChan, WaitScan] + rest)
    case KilledCheck => s.(code := if s.t[p].killed then [Exit] else rest)
    case TrapTail =>
      if s.t[p].killed then s.(code := [Exit])
      else if s.t[p].state == Running then
        s.(code := LockOps(Ptable) + [ReadySwitch] + UnlockOps(Ptable) + rest)
      else s.(code := rest)
    case _ => s
  }

  /** One step of the machine. */
  function Next(s: State, c: Choice): State {
    if s.panic.Some? then s
    else if c.Irq? || c.Fault? || c.Syscall? then TrapStep(s, c)
    else if s.code == [] then s
    else
      var op, rest := s.code[0], s.code[1..];
      match op
      case Client(_, _, _) => ClientStep(s, c, op, rest)
      case PushCli | PopCli | Acquire(_) | Release(_) | RestoreIntOn(_) | Iret(_) => CpuStep(s, op, rest)
      case SchedLoop | Scan(_) | AfterSwtch(_) => SchedulerStep(s, op, rest)
      case WakeAll(chan) => s.(t := Woken(s.t, Some(chan)), code := rest)
      case _ => if s.proc.None? || s.proc.value >= NPROC then Halt(s, NoProcess) else ProcStep(s, c, s.proc.value, op, rest)
  }

  /** The kernel as it enters the scheduler: init is ready in slot 1, nothing is locked. */
  function Boot(intOn: bool): State {
    var t: Procs := seq(NPROC, i => if i == INIT then Proc(Ready, 1, None, None, false) else CLEARED);
    var ctx: Contexts := seq(NPROC, i => ForkRet());
    State(t, 2, Cpu(0, intOn, false, {}), None, SchedulerCtx, [SchedLoop], ctx, [], [], [], None)
  }

  function Run(s: State, cs: seq<Choice>): State
    decreases |cs|
  {
    if cs == [] then s else Run(Next(s, cs[0]), cs[1..])
  }
}
