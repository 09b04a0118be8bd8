/**
 What the calls of the process module do, from their first step to their last: fork, exit, sleep, wakeup, the timer's yield and
 the death of a process that faults.
 */
module KernelCalls {
  import opened Wrappers
  import opened ProcTable
  import opened Spinlock
  import opened Kernel
  import opened KernelSafety
  import opened KernelRuns
  import opened KernelTheorems
  import opened KernelProgress

  /** The CPU under the table's lock alone, taken with interrupts as in c; and with it released again. */
  function Under(c: Cpu): Cpu { Cpu(1, c.ifl, false, {Ptable}) }

  function After(c: Cpu): Cpu { Cpu(0, c.ifl, c.ifl, {}) }

  lemma LockFirst(s: State, lk: LockId, rest: Code)
    requires s.panic.None? && s.code == LockOps(lk) + rest && s.cpu.ncli == 0 && s.cpu.locked == {}
    ensures Go(s, 2) == s.(code := rest, cpu := Cpu(1, s.cpu.ifl, false, {lk}))
  {
    var s1 := Next(s, Continue);
    assert s.code[1..] == [Acquire(lk)] + rest;
    assert s1 == s.(code := [Acquire(lk)] + rest, cpu := Cpu(1, s.cpu.ifl, false, {}));
    var s2 := Next(s1, Continue);
    assert s1.code[1..] == rest;
    assert s2 == s.(code := rest, cpu := Cpu(1, s.cpu.ifl, false, {lk}));
    hide Next;
    assert Go(s, 2) == Go(s1, 1) == Go(s2, 0);
  }

  lemma LockTable(s: State, rest: Code)
    requires s.panic.None? && s.code == LockOps(Ptable) + rest && s.cpu.ncli == 0 && s.cpu.locked == {}
    ensures Go(s, 2) == s.(code := rest, cpu := Under(s.cpu))
  {
    LockFirst(s, Ptable, rest);
  }

  lemma UnlockTable(s: State, rest: Code, c: Cpu)
    requires s.panic.None? && s.code == UnlockOps(Ptable) + rest && s.cpu == Under(c)
    ensures Go(s, 2) == s.(code := rest, cpu := After(c))
  {
    var s1 := Next(s, Continue);
    assert s.code[1..] == [PopCli] + rest;
    assert s1 == s.(code := [PopCli] + rest, cpu := s.cpu.(locked := {}));
    var s2 := Next(s1, Continue);
    assert s1.code[1..] == rest;
    assert s2 == s.(code := rest, cpu := After(c));
    hide Next;
    assert Go(s, 2) == Go(s1, 1) == Go(s2, 0);
  }

  /** One operation of the current process, between taking the table's lock and what follows. */
  lemma OneStep(s: State, s': State)
    requires Next(s, Continue) == s'
    ensures Go(s, 1) == s'
  {
    hide Next;
    assert Go(s, 1) == Go(s', 0);
  }

  /** A process of a run, about to do op with no lock held. */
  ghost predicate AtCall(s: State, p: nat, op: Op, rest: Code) {
    && s.panic.None? && s.self == ProcCtx(p) && s.proc == Some(p) && p < NPROC
    && s.code == [op] + rest && s.cpu.ncli == 0 && s.cpu.locked == {}
  }

  /** Every call of a run is such a state. */
  lemma CallsOfRuns(on: bool, cs: seq<Choice>)
    ensures var s := Run(Boot(on), cs);
            s.panic.None? && s.code != [] && (s.code[0].Fork? || s.code[0].Wait? || s.code[0].Exit?) ==>
              s.self.ProcCtx? && AtCall(s, s.self.slot, s.code[0], s.code[1..])
  {
    hide Run, Boot, TableOk, AllSaved, Forking;
    Reachable(on, cs);
    var s := Run(Boot(on), cs);
    if s.panic.None? && s.code != [] && (s.code[0].Fork? || s.code[0].Wait? || s.code[0].Exit?) {
      assert s.code == [s.code[0]] + s.code[1..];
    }
  }

  // --------------------------------------------------------------- fork

  predicate LeastUnused(t: Procs, c: nat) {
    1 <= c < NPROC && t[c].state == Unused && forall j :: 1 <= j < c ==> t[j].state != Unused
  }

  predicate NoneUnused(t: Procs) {
    forall j :: 1 <= j < NPROC ==> t[j].state != Unused
  }

  lemma ForkBegins(s: State, p: nat, rest: Code)
    requires AtCall(s, p, Fork, rest) && s.nextpid <= NPROC
    ensures Go(s, 1) == s.(code := LockOps(Ptable) + ([AllocSlot] + rest))
  {
    assert LockOps(Ptable) + ([AllocSlot] + rest) == LockOps(Ptable) + [AllocSlot] + rest && s.code[1..] == rest;
    OneStep(s, s.(code := LockOps(Ptable) + ([AllocSlot] + rest)));
  }

  /** The current process p at op, under the table's lock. */
  ghost predicate InTable(s: State, p: nat, op: Op, rest: Code) {
    s.panic.None? && s.proc == Some(p) && p < NPROC && s.code == [op] + rest
  }

  lemma AllocStep(s: State, p: nat, rest: Code, c: nat)
    requires InTable(s, p, AllocSlot, rest)
    ensures LeastUnused(s.t, c) ==>
              Go(s, 1) == s.(t := s.t[c := s.t[c].(state := Created, pid := s.nextpid)], nextpid := s.nextpid + 1,
                             code := UnlockOps(Ptable) + ([FillChild(c)] + rest))
    ensures NoneUnused(s.t) ==> Go(s, 1) == s.(code := UnlockOps(Ptable) + rest)
  {
    assert s.code[1..] == rest;
    assert UnlockOps(Ptable) + [FillChild(c)] + rest == UnlockOps(Ptable) + ([FillChild(c)] + rest);
    if LeastUnused(s.t, c) {
      assert FindUnused(s.t, 1) == Some(c);
    }
    OneStep(s, Next(s, Continue));
  }

  lemma ForkAllocates(s: State, p: nat, rest: Code, c: nat)
    requires AtCall(s, p, Fork, rest) && s.nextpid <= NPROC
    ensures LeastUnused(s.t, c) ==>
              Go(s, 6) == s.(t := s.t[c := s.t[c].(state := Created, pid := s.nextpid)], nextpid := s.nextpid + 1,
                             code := [FillChild(c)] + rest, cpu := After(s.cpu))
    ensures NoneUnused(s.t) ==> Go(s, 6) == s.(code := rest, cpu := After(s.cpu))
  {
    hide Go, LockOps, UnlockOps;
    ForkBegins(s, p, rest);
    LockTable(Go(s, 1), [AllocSlot] + rest);
    GoOn(s, 1, 2);
    AllocStep(Go(s, 3), p, rest, c);
    GoOn(s, 3, 1);
    if LeastUnused(s.t, c) {
      UnlockTable(Go(s, 4), [FillChild(c)] + rest, s.cpu);
      GoOn(s, 4, 2);
    }
    if NoneUnused(s.t) {
      UnlockTable(Go(s, 4), rest, s.cpu);
      GoOn(s, 4, 2);
    }
  }

  lemma FillStep(s: State, p: nat, rest: Code, c: nat)
    requires InTable(s, p, FillChild(c), rest) && c < NPROC
    ensures Go(s, 1) == s.(t := s.t[c := s.t[c].(parent := Some(p))], ctx := s.ctx[c := ForkRet()],
                           code := LockOps(Ptable) + ([ChildReady(c)] + (UnlockOps(Ptable) + rest)))
  {
    assert LockOps(Ptable) + ([ChildReady(c)] + (UnlockOps(Ptable) + rest)) == LockOps(Ptable) + [ChildReady(c)] + UnlockOps(Ptable) + rest;
    assert s.code[1..] == rest;
    OneStep(s, Next(s, Continue));
  }

  lemma ReadyStep(s: State, p: nat, rest: Code, c: nat)
    requires InTable(s, p, ChildReady(c), rest) && c < NPROC
    ensures Go(s, 1) == s.(t := s.t[c := s.t[c].(state := Ready)], code := rest)
  {
    hide LockOps, UnlockOps, ForkRet, FindUnused, FindZombie, HasChild, Exited, Woken, SchedStep, Go;
    assert s.code[1..] == rest;
    OneStep(s, s.(t := s.t[c := s.t[c].(state := Ready)], code := rest));
  }

  lemma ForkFills(s: State, p: nat, rest: Code, c: nat)
    requires AtCall(s, p, FillChild(c), rest) && c < NPROC
    ensures Go(s, 6) == s.(t := s.t[c := s.t[c].(state := Ready, parent := Some(p))], ctx := s.ctx[c := ForkRet()],
                           code := rest, cpu := After(s.cpu))
  {
    hide Go, LockOps, UnlockOps;
    FillStep(s, p, rest, c);
    LockTable(Go(s, 1), [ChildReady(c)] + (UnlockOps(Ptable) + rest));
    GoOn(s, 1, 2);
    ReadyStep(Go(s, 3), p, UnlockOps(Ptable) + rest, c);
    GoOn(s, 3, 1);
    UnlockTable(Go(s, 4), rest, s.cpu);
    GoOn(s, 4, 2);
  }

  /**
   fork, whole: with a slot unused the least one becomes a ready child of the caller with the next pid, set to return to user mode, and
   nothing else changes; without one nothing does; past the last pid the kernel panics.
   */
  lemma ForkMakesChild(s: State, p: nat, rest: Code, c: nat)
    requires AtCall(s, p, Fork, rest)
    ensures s.nextpid > NPROC ==> Go(s, 1).panic == Some(OutOfPids)
    ensures s.nextpid <= NPROC && NoneUnused(s.t) ==> Go(s, 6) == s.(code := rest, cpu := After(s.cpu))
    ensures s.nextpid <= NPROC && LeastUnused(s.t, c) ==>
              Go(s, 12) == s.(t := s.t[c := s.t[c].(state := Ready, pid := s.nextpid, parent := Some(p))], nextpid := s.nextpid + 1,
                              ctx := s.ctx[c := ForkRet()], code := rest, cpu := After(s.cpu))
  {
    if s.nextpid > NPROC {
      OneStep(s, Halt(s, OutOfPids));
    } else {
      ForkAllocates(s, p, rest, c);
      if LeastUnused(s.t, c) {
        ForkFills(Go(s, 6), p, rest, c);
        GoOn(s, 6, 6);
      }
    }
  }

  /** Without a kernel stack, or without the frames for the copy, the slot is unused again. */
  lemma ForkGivesUp(s: State, p: nat, rest: Code, c: nat)
    requires AtCall(s, p, FillChild(c), rest) && c < NPROC
    ensures Next(s, StackFails) == s.(t := s.t[c := s.t[c].(state := Unused)], code := rest)
    ensures Next(s, CopyFails) == s.(t := s.t[c := CLEARED], code := rest)
  {
    assert s.code[1..] == rest;
  }

  // --------------------------------------------------------------- switching out

  /** The scheduler has the CPU and the table's lock; process p is saved with code to run when it comes back. */
  function HandedOver(s: State, p: nat, saved: Code): State
    requires p < NPROC
  {
    s.(ctx := s.ctx[p := [RestoreIntOn(s.cpu.intOn)] + saved], self := SchedulerCtx, code := s.sched)
  }

  lemma Sched(s: State, p: nat, rest: Code)
    requires s.proc == Some(p) && p < NPROC && s.t[p].state != Running && s.cpu.locked == {Ptable} && s.cpu.ncli == 1 && !s.cpu.ifl
    ensures SchedStep(s, rest) == HandedOver(s, p, rest)
  {
  }

  /** What an exit of p leaves in slot q: p dead, its children init's, its parent awake, and init if a dead child came to it. */
  ghost function AfterExit(t: Procs, p: nat, q: nat): Proc
    requires p < NPROC && q < NPROC
  {
    var woken := t[q].state == Sleeping &&
                 (t[q].chan == PtrChan(t[p].parent) || (HasZombieChild(t, p) && t[q].chan == Some(ProcChan(INIT))));
    t[q].(parent := if t[q].parent == Some(p) then Some(INIT) else t[q].parent,
          state := if q == p then Zombie else if woken then Ready else t[q].state)
  }

  ghost predicate ExitLeaves(t: Procs, t': Procs, p: nat)
    requires p < NPROC
  {
    forall q: nat :: q < NPROC ==> t'[q] == AfterExit(t, p, q)
  }

  lemma ExitSlots(t: Procs, p: nat)
    requires p < NPROC && t[p].state == Running && t[p].parent != Some(p)
    ensures ExitLeaves(t, Exited(t, p), p)
  {
    hide Exited;
    forall q: nat | q < NPROC ensures Exited(t, p)[q] == AfterExit(t, p, q) {
      ExitedAt(t, p, q);
    }
  }

  lemma ExitBegins(s: State, p: nat, rest: Code)
    requires AtCall(s, p, Exit, rest)
    ensures p == INIT ==> Go(s, 1) == Halt(s, InitExits)
    ensures p != INIT ==> Go(s, 1) == s.(code := LockOps(Ptable) + [ExitSwitch])
  {
    OneStep(s, Next(s, Continue));
  }

  lemma ExitStep(s: State, p: nat)
    requires InTable(s, p, ExitSwitch, []) && s.cpu.locked == {Ptable} && s.cpu.ncli == 1 && !s.cpu.ifl && Exited(s.t, p)[p].state != Running
    ensures Go(s, 1) == HandedOver(s.(t := Exited(s.t, p), exited := s.exited + [s.t[p].pid]), p, [NoReturn])
  {
    hide Exited, SchedStep, LockOps, UnlockOps, FindUnused, FindZombie, HasChild, Go;
    var s1 := s.(t := Exited(s.t, p), exited := s.exited + [s.t[p].pid]);
    Sched(s1, p, [NoReturn]);
    OneStep(s, HandedOver(s1, p, [NoReturn]));
  }

  /** exit, whole, for every process but init, whose exit is a panic: it never comes back, and the scheduler goes on. */
  lemma ExitDies(s: State, p: nat, rest: Code)
    requires AtCall(s, p, Exit, rest) && s.t[p].state == Running && s.t[p].parent != Some(p)
    ensures p == INIT ==> Go(s, 1) == Halt(s, InitExits)
    ensures p != INIT ==>
              var u := Go(s, 4);
              && ExitLeaves(s.t, u.t, p) && u.exited == s.exited + [s.t[p].pid]
              && u == s.(t := u.t, exited := u.exited, cpu := Under(s.cpu), self := SchedulerCtx, code := s.sched, ctx := s.ctx[p := u.ctx[p]])
  {
    hide Go, LockOps, Exited, ExitLeaves;
    ExitBegins(s, p, rest);
    if p != INIT {
      assert LockOps(Ptable) + [ExitSwitch] == LockOps(Ptable) + ([ExitSwitch] + []);
      LockTable(Go(s, 1), [ExitSwitch] + []);
      GoOn(s, 1, 2);
      ExitIsZombie(s.t, p);
      ExitStep(Go(s, 3), p);
      GoOn(s, 3, 1);
      ExitSlots(s.t, p);
    }
  }

  // ------------------------------------------------------------ sleep and wakeup

  /** What a sleeper has still to do once it is resumed. */
  function Waking(lk: LockId, rest: Code): Code {
    [ClearChan] + (UnlockOps(Ptable) + (LockOps(lk) + rest))
  }

  lemma SleepBegins(s: State, p: nat, chan: Chan, lk: LockId, rest: Code)
    requires InTable(s, p, Sleep(chan, lk), rest)
    ensures Go(s, 1) == s.(code := LockOps(Ptable) + (UnlockOps(lk) + ([SleepSwitch(chan)] + Waking(lk, rest))))
  {
    assert s.code[1..] == rest;
    assert LockOps(Ptable) + (UnlockOps(lk) + ([SleepSwitch(chan)] + Waking(lk, rest)))
        == LockOps(Ptable) + UnlockOps(lk) + [SleepSwitch(chan), ClearChan] + UnlockOps(Ptable) + LockOps(lk) + rest;
    OneStep(s, Next(s, Continue));
  }

  /** Taking one lock more, and giving one back, with interrupts off. */
  lemma LockMore(s: State, lk: LockId, rest: Code)
    requires s.panic.None? && s.code == LockOps(lk) + rest && lk !in s.cpu.locked && s.cpu.ncli > 0 && !s.cpu.ifl
    ensures Go(s, 2) == s.(code := rest, cpu := s.cpu.(ncli := s.cpu.ncli + 1, locked := s.cpu.locked + {lk}))
  {
    var s1 := Next(s, Continue);
    assert s.code[1..] == [Acquire(lk)] + rest;
    assert s1 == s.(code := [Acquire(lk)] + rest, cpu := s.cpu.(ncli := s.cpu.ncli + 1));
    var s2 := Next(s1, Continue);
    assert s1.code[1..] == rest;
    assert s2 == s.(code := rest, cpu := s.cpu.(ncli := s.cpu.ncli + 1, locked := s.cpu.locked + {lk}));
    hide Next;
    assert Go(s, 2) == Go(s1, 1) == Go(s2, 0);
  }

  lemma UnlockOne(s: State, lk: LockId, rest: Code)
    requires s.panic.None? && s.code == UnlockOps(lk) + rest && lk in s.cpu.locked && s.cpu.ncli > 1 && !s.cpu.ifl
    ensures Go(s, 2) == s.(code := rest, cpu := s.cpu.(ncli := s.cpu.ncli - 1, locked := s.cpu.locked - {lk}))
  {
    var s1 := Next(s, Continue);
    assert s.code[1..] == [PopCli] + rest;
    assert s1 == s.(code := [PopCli] + rest, cpu := s.cpu.(locked := s.cpu.locked - {lk}));
    var s2 := Next(s1, Continue);
    assert s1.code[1..] == rest;
    assert s2 == s.(code := rest, cpu := s.cpu.(ncli := s.cpu.ncli - 1, locked := s.cpu.locked - {lk}));
    hide Next;
    assert Go(s, 2) == Go(s1, 1) == Go(s2, 0);
  }

  lemma SwitchStep(s: State, p: nat, chan: Chan, rest: Code)
    requires InTable(s, p, SleepSwitch(chan), rest) && s.cpu.locked == {Ptable} && s.cpu.ncli == 1 && !s.cpu.ifl
    ensures Go(s, 1) == HandedOver(s.(t := s.t[p := s.t[p].(chan := Some(chan), state := Sleeping)]), p, rest)
  {
    hide SchedStep, LockOps, UnlockOps, FindZombie, HasChild, Exited, Go;
    assert s.code[1..] == rest;
    var s1 := s.(t := s.t[p := s.t[p].(chan := Some(chan), state := Sleeping)]);
    Sched(s1, p, rest);
    OneStep(s, HandedOver(s1, p, rest));
  }

  /** sleep, up to the switch: the process is asleep on the channel, its lock is free, and the scheduler has the CPU. */
  lemma SleepGoesToSleep(s: State, p: nat, chan: Chan, lk: LockId, rest: Code)
    requires InTable(s, p, Sleep(chan, lk), rest) && lk != Ptable && s.cpu.locked == {lk} && s.cpu.ncli == 1 && !s.cpu.ifl
    ensures Go(s, 6) == HandedOver(s.(t := s.t[p := s.t[p].(chan := Some(chan), state := Sleeping)], cpu := s.cpu.(locked := {Ptable})),
                                    p, Waking(lk, rest))
  {
    hide Go, LockOps, UnlockOps, Waking;
    var w := [SleepSwitch(chan)] + Waking(lk, rest);
    SleepBegins(s, p, chan, lk, rest);
    LockMore(Go(s, 1), Ptable, UnlockOps(lk) + w);
    GoOn(s, 1, 2);
    UnlockOne(Go(s, 3), lk, w);
    GoOn(s, 3, 2);
    assert {lk} + {Ptable} - {lk} == {Ptable};
    SwitchStep(Go(s, 5), p, chan, Waking(lk, rest));
    GoOn(s, 5, 1);
  }

  lemma RestoreStep(s: State, on: bool, rest: Code)
    requires s.panic.None? && s.code == [RestoreIntOn(on)] + rest
    ensures Go(s, 1) == s.(code := rest, cpu := s.cpu.(intOn := on))
  {
    assert s.code[1..] == rest;
    OneStep(s, s.(code := rest, cpu := s.cpu.(intOn := on)));
  }

  lemma ClearStep(s: State, p: nat, rest: Code)
    requires InTable(s, p, ClearChan, rest)
    ensures Go(s, 1) == s.(t := s.t[p := s.t[p].(chan := None)], code := rest)
  {
    hide LockOps, UnlockOps, FindZombie, HasChild, Exited, SchedStep, Go;
    assert s.code[1..] == rest;
    OneStep(s, s.(t := s.t[p := s.t[p].(chan := None)], code := rest));
  }

  lemma UnlockLast(s: State, rest: Code)
    requires s.panic.None? && s.code == UnlockOps(Ptable) + rest && s.cpu.locked == {Ptable} && s.cpu.ncli == 1 && !s.cpu.ifl
    ensures Go(s, 2) == s.(code := rest, cpu := Cpu(0, s.cpu.intOn, s.cpu.intOn, {}))
  {
    UnlockTable(s, rest, Cpu(0, s.cpu.intOn, s.cpu.intOn, {}));
  }

  /** sleep, from where it is resumed: off the channel, the lock held again, interrupts due back as when it went to sleep. */
  lemma SleepComesBack(s: State, p: nat, on: bool, lk: LockId, rest: Code)
    requires s.panic.None? && s.proc == Some(p) && p < NPROC && s.code == [RestoreIntOn(on)] + Waking(lk, rest)
    requires s.cpu.locked == {Ptable} && s.cpu.ncli == 1 && !s.cpu.ifl
    ensures Go(s, 6) == s.(t := s.t[p := s.t[p].(chan := None)], code := rest, cpu := Cpu(1, on, false, {lk}))
  {
    hide Go, LockOps, UnlockOps;
    RestoreStep(s, on, Waking(lk, rest));
    ClearStep(Go(s, 1), p, UnlockOps(Ptable) + (LockOps(lk) + rest));
    GoOn(s, 1, 1);
    UnlockLast(Go(s, 2), LockOps(lk) + rest);
    GoOn(s, 2, 2);
    LockFirst(Go(s, 4), lk, rest);
    GoOn(s, 4, 2);
  }

  /** wakeup, whole: exactly the sleepers on the channel are ready, and nothing else changes. */
  lemma WakeupWakes(s: State, id: nat, op: Op, rest: Code)
    requires s.panic.None? && s.code == [op] + rest && op.Client? && Ptable !in s.cpu.locked
    requires if s.cpu.ncli == 0 then s.cpu.locked == {} else s.cpu.ncli > 0 && !s.cpu.ifl
    ensures var u := Go(Next(s, DoWakeup(id)), 5);
            && u == s.(t := u.t, cpu := if s.cpu.ncli == 0 then After(s.cpu) else s.cpu)
            && forall q: nat :: q < NPROC ==>
                 u.t[q] == if s.t[q].state == Sleeping && s.t[q].chan == Some(Obj(id)) then s.t[q].(state := Ready) else s.t[q]
  {
    hide Go, Woken;
    var s1 := Next(s, DoWakeup(id));
    WakeupBegins(s, id, op, rest);
    hide Next, LockOps, UnlockOps;
    var w := [WakeAll(Obj(id))] + (UnlockOps(Ptable) + s.code);
    if s.cpu.ncli == 0 {
      LockTable(s1, w);
    } else {
      LockMore(s1, Ptable, w);
    }
    WakeStep(Go(s1, 2), Obj(id), UnlockOps(Ptable) + s.code);
    GoOn(s1, 2, 1);
    if s.cpu.ncli == 0 {
      UnlockTable(Go(s1, 3), s.code, s.cpu);
    } else {
      UnlockOne(Go(s1, 3), Ptable, s.code);
      assert s.cpu.locked + {Ptable} - {Ptable} == s.cpu.locked;
    }
    GoOn(s1, 3, 2);
    WokenRelabels(s.t, Some(Obj(id)));
  }

  lemma WakeupBegins(s: State, id: nat, op: Op, rest: Code)
    requires s.panic.None? && s.code == [op] + rest && op.Client?
    ensures Next(s, DoWakeup(id)) == s.(code := LockOps(Ptable) + ([WakeAll(Obj(id))] + (UnlockOps(Ptable) + s.code)))
  {
    assert s.code[1..] == rest;
    assert LockOps(Ptable) + ([WakeAll(Obj(id))] + (UnlockOps(Ptable) + s.code))
        == LockOps(Ptable) + [WakeAll(Obj(id))] + UnlockOps(Ptable) + [op] + rest;
  }

  lemma WakeStep(s: State, chan: Chan, rest: Code)
    requires s.panic.None? && s.code == [WakeAll(chan)] + rest
    ensures Go(s, 1) == s.(t := Woken(s.t, Some(chan)), code := rest)
  {
    hide Woken;
    assert s.code[1..] == rest;
    OneStep(s, s.(t := Woken(s.t, Some(chan)), code := rest));
  }

  // ------------------------------------------------------------ locks of client code

  /** Client code between two calls, with the locks it says it has. */
  ghost predicate AtClient(s: State, op: Op, rest: Code) {
    && s.panic.None? && op.Client? && s.code == [op] + rest && s.cpu.locked == op.held
    && if s.cpu.ncli == 0 then op.held == {} else s.cpu.ncli > 0 && !s.cpu.ifl
  }

  /** lock in client code: the lock is held, one push_cli more is pending, and interrupts are due back as before. */
  lemma ClientGetsLock(s: State, lk: LockId, op: Op, rest: Code)
    requires AtClient(s, op, rest) && lk != Ptable && lk !in op.held
    ensures Go(Next(s, DoLock(lk)), 2) ==
            s.(code := [op.(held := op.held + {lk})] + rest,
               cpu := Cpu(s.cpu.ncli + 1, if s.cpu.ncli == 0 then s.cpu.ifl else s.cpu.intOn, false, s.cpu.locked + {lk}))
  {
    var next := [op.(held := op.held + {lk})] + rest;
    ClientLockCall(s, lk, op, rest);
    hide Next, LockOps;
    var s1 := s.(code := LockOps(lk) + next);
    if s.cpu.ncli == 0 {
      LockFirst(s1, lk, next);
      assert {} + {lk} == {lk};
    } else {
      LockMore(s1, lk, next);
    }
  }

  lemma ClientLockCall(s: State, lk: LockId, op: Op, rest: Code)
    requires AtClient(s, op, rest)
    ensures lk != Ptable && lk !in op.held ==> Next(s, DoLock(lk)) == s.(code := LockOps(lk) + ([op.(held := op.held + {lk})] + rest))
    ensures lk in op.held ==> Next(s, DoUnlock(lk)) == s.(code := UnlockOps(lk) + ([op.(held := op.held - {lk})] + rest))
    ensures op.base && op.held == {lk} && op.extra == 0 ==>
              forall id :: Next(s, DoSleep(id, lk)) == s.(code := [Sleep(Obj(id), lk)] + ([op] + rest))
  {
    assert s.code[1..] == rest;
    assert LockOps(lk) + ([op.(held := op.held + {lk})] + rest) == LockOps(lk) + [op.(held := op.held + {lk})] + rest;
    assert UnlockOps(lk) + ([op.(held := op.held - {lk})] + rest) == UnlockOps(lk) + [op.(held := op.held - {lk})] + rest;
    forall id ensures [Sleep(Obj(id), lk), op] + rest == [Sleep(Obj(id), lk)] + ([op] + rest) {
    }
  }

  /** unlock in client code, with other locks or push_cli's still pending or as the last one. */
  lemma ClientGivesLock(s: State, lk: LockId, op: Op, rest: Code)
    requires AtClient(s, op, rest) && lk in op.held && s.cpu.ncli > 0
    ensures Go(Next(s, DoUnlock(lk)), 2) ==
            s.(code := [op.(held := op.held - {lk})] + rest,
               cpu := s.cpu.(ncli := s.cpu.ncli - 1, ifl := s.cpu.ncli == 1 && s.cpu.intOn, locked := s.cpu.locked - {lk}))
  {
    var next := [op.(held := op.held - {lk})] + rest;
    ClientLockCall(s, lk, op, rest);
    var s1 := s.(code := UnlockOps(lk) + next);
    var s2 := Next(s1, Continue);
    assert s1.code[1..] == [PopCli] + next;
    assert s2 == s.(code := [PopCli] + next, cpu := s.cpu.(locked := s.cpu.locked - {lk}));
    var s3 := Next(s2, Continue);
    assert s2.code[1..] == next;
    hide Next;
    assert Go(s1, 2) == Go(s2, 1) == Go(s3, 0);
  }

  // ------------------------------------------------------------ traps from user mode

  /** Process p in user mode, with interrupts on. */
  ghost predicate InUser(s: State, p: nat) {
    && s.panic.None? && s.self == ProcCtx(p) && s.proc == Some(p) && p < NPROC && s.code == []
    && s.cpu.ncli == 0 && s.cpu.locked == {} && s.cpu.ifl && s.t[p].state == Running
  }

  /** Every state of a run in user mode is one. */
  lemma UserOfRuns(on: bool, cs: seq<Choice>)
    ensures var s := Run(Boot(on), cs);
            s.panic.None? && s.code == [] ==> s.self.ProcCtx? && InUser(s, s.self.slot)
  {
    hide Run, Boot, TableOk, AllSaved, Forking;
    Reachable(on, cs);
    var s := Run(Boot(on), cs);
    if s.panic.None? && s.code == [] {
      UserMode(s);
    }
  }

  lemma TailYields(s: State, p: nat, rest: Code)
    requires AtCall(s, p, TrapTail, rest) && s.t[p].state == Running
    ensures s.t[p].killed ==> Go(s, 1) == s.(code := [Exit])
    ensures !s.t[p].killed ==>
              Go(s, 4) == HandedOver(s.(t := s.t[p := s.t[p].(state := Ready)], cpu := Under(s.cpu)), p, UnlockOps(Ptable) + rest)
  {
    hide Go, LockOps, UnlockOps;
    TailBegins(s, p, rest);
    if !s.t[p].killed {
      LockTable(Go(s, 1), [ReadySwitch] + (UnlockOps(Ptable) + rest));
      GoOn(s, 1, 2);
      YieldStep(Go(s, 3), p, UnlockOps(Ptable) + rest);
      GoOn(s, 3, 1);
    }
  }

  lemma TailBegins(s: State, p: nat, rest: Code)
    requires AtCall(s, p, TrapTail, rest) && s.t[p].state == Running
    ensures Go(s, 1) == s.(code := if s.t[p].killed then [Exit] else LockOps(Ptable) + ([ReadySwitch] + (UnlockOps(Ptable) + rest)))
  {
    assert s.code[1..] == rest;
    assert LockOps(Ptable) + ([ReadySwitch] + (UnlockOps(Ptable) + rest)) == LockOps(Ptable) + [ReadySwitch] + UnlockOps(Ptable) + rest;
    OneStep(s, Next(s, Continue));
  }

  lemma YieldStep(s: State, p: nat, rest: Code)
    requires InTable(s, p, ReadySwitch, rest) && s.cpu.locked == {Ptable} && s.cpu.ncli == 1 && !s.cpu.ifl
    ensures Go(s, 1) == HandedOver(s.(t := s.t[p := s.t[p].(state := Ready)]), p, rest)
  {
    hide SchedStep, LockOps, UnlockOps, FindZombie, HasChild, Exited, Go;
    assert s.code[1..] == rest;
    var s1 := s.(t := s.t[p := s.t[p].(state := Ready)]);
    Sched(s1, p, rest);
    OneStep(s, HandedOver(s1, p, rest));
  }

  /**
   An interrupt in user mode, once its handler returns, takes the CPU from the process: it is ready, the scheduler goes on, and the
   process, when resumed, is back in user mode four steps later with interrupts on.
   */
  lemma TimerYields(s: State, p: nat)
    requires InUser(s, p) && !s.t[p].killed
    ensures var u := Go(Next(Next(s, Irq), Return), 4);
            && u == HandedOver(s.(t := s.t[p := s.t[p].(state := Ready)], cpu := Cpu(1, false, false, {Ptable})), p,
                                UnlockOps(Ptable) + [Iret(true)])
            && u.ctx[p] == [RestoreIntOn(false)] + (UnlockOps(Ptable) + [Iret(true)])
  {
    hide Go, UnlockOps;
    IrqReturns(s, p);
    TailYields(Next(Next(s, Irq), Return), p, [Iret(true)]);
  }

  lemma IrqReturns(s: State, p: nat)
    requires InUser(s, p)
    ensures Next(Next(s, Irq), Return) == s.(code := [TrapTail] + [Iret(true)], cpu := s.cpu.(ifl := false))
  {
    var s1 := Next(s, Irq);
    assert s1 == s.(code := [Client(false, {}, 0), TrapTail, Iret(true)], cpu := s.cpu.(ifl := false));
    assert s1.code[1..] == [TrapTail] + [Iret(true)];
  }

  lemma YieldComesBack(s: State)
    requires s.panic.None? && s.code == [RestoreIntOn(false)] + (UnlockOps(Ptable) + [Iret(true)])
    requires s.cpu.locked == {Ptable} && s.cpu.ncli == 1 && !s.cpu.ifl
    ensures Go(s, 4) == s.(code := [], cpu := Cpu(0, false, true, {}))
  {
    hide Go, UnlockOps;
    RestoreStep(s, false, UnlockOps(Ptable) + [Iret(true)]);
    UnlockLast(Go(s, 1), [Iret(true)]);
    GoOn(s, 1, 2);
    IretStep(Go(s, 3));
    GoOn(s, 3, 1);
  }

  lemma IretStep(s: State)
    requires s.panic.None? && s.code == [Iret(true)]
    ensures Go(s, 1) == s.(code := [], cpu := s.cpu.(ifl := true))
  {
    OneStep(s, s.(code := [], cpu := s.cpu.(ifl := true)));
  }

  /** A process that faults in user mode runs no more of its code: six steps later it is dead, or, if it is init, the kernel has panicked. */
  lemma FaultKills(s: State, p: nat)
    requires InUser(s, p) && s.t[p].parent != Some(p)
    ensures var u := Go(Next(s, Fault), 5);
            if p == INIT then Go(Next(s, Fault), 2).panic == Some(InitExits)
            else
              && u.t[p].state == Zombie && u.exited == s.exited + [s.t[p].pid] && u.self == SchedulerCtx && u.code == s.sched
              && ExitLeaves(s.t[p := s.t[p].(killed := true)], u.t, p)
  {
    hide Go, Exited;
    var s1 := Next(s, Fault);
    assert s1 == s.(t := s.t[p := s.t[p].(killed := true)], code := [TrapTail] + [Iret(true)], cpu := s.cpu.(ifl := false));
    TailYields(s1, p, [Iret(true)]);
    assert [Exit] == [Exit] + [];
    ExitDies(Go(s1, 1), p, []);
    GoOn(s1, 1, 1);
    GoOn(s1, 1, 4);
  }
}
