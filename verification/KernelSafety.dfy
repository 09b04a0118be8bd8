/**
 What holds in every reachable state of the kernel's step machine: the lock and interrupt discipline, the hand-over of
 the process table's lock across switches, one running process, and the process tree.
 */
module KernelSafety {
  import opened Wrappers
  import opened ProcTable
  import opened Spinlock
  import opened Kernel

  // ------------------------------------------------------- the discipline of code

  predicate ForkOp(op: Op) { op.FillChild? || op.ChildReady? }

  /** No fork is under way in this code. */
  ghost predicate Plain(code: Code) {
    forall op :: op in code ==> !ForkOp(op)
  }

  /**
   Code that runs to its end without breaking the discipline, when it starts with the locks l, n pending push_cli's
   and interrupts due back to b. It ends in user mode, or in the scheduler's endless loop.
   */
  ghost predicate Ok(code: Code, l: set<LockId>, n: int, b: bool, who: Ctx)
    decreases |code|
  {
    if code == [] then who.ProcCtx? && l == {} && n == 0 && b
    else
      var rest := code[1..];
      match code[0]
      case PushCli => Ok(rest, l, n + 1, b, who)
      case PopCli => n > |l| && Ok(rest, l, n - 1, b, who)
      case Acquire(lk) => lk !in l && n > |l| && Ok(rest, l + {lk}, n, b, who)
      case Release(lk) => lk in l && Ok(rest, l - {lk}, n, b, who)
      case RestoreIntOn(on) => l == {Ptable} && n == 1 && Ok(rest, l, n, on, who)
      case Iret(on) => l == {} && n == 0 && Ok(rest, l, n, on, who)
      case Client(base, held, extra) =>
        && base == b && held == l && n == |l| + extra && Ptable !in l
        && (base ==> who.ProcCtx? && Plain(rest))
        && Ok(rest, {}, 0, b, who)
      case WakeAll(wake) => Ptable in l && wake.Obj? && Ok(rest, l, n, b, who)
      case SchedLoop => who == SchedulerCtx && l == {} && n == 0 && rest == []
      case Scan(_) => who == SchedulerCtx && l == {Ptable} && n == 1 && rest == []
      case AfterSwtch(_) => who == SchedulerCtx && l == {Ptable} && n == 1 && rest == []
      case ChildReady(_) => who.ProcCtx? && l == {Ptable} && n == 1 && Plain(rest) && Ok(rest, l, n, b, who)
      case ClearChan => who.ProcCtx? && l == {Ptable} && n == 1 && Ok(rest, l, n, b, who)
      case Sleep(chan, lk) =>
        who.ProcCtx? && l == {lk} && n == 1 && lk != Ptable && chan.Obj? && Plain(rest) && Ok(rest, l, n, b, who)
      case SleepSwitch(chan) =>
        who.ProcCtx? && l == {Ptable} && n == 1 && chan.Obj? && Plain(rest) && Ok(rest, l, n, b, who)
      case ReadySwitch => who.ProcCtx? && l == {Ptable} && n == 1 && Plain(rest) && Ok(rest, l, n, b, who)
      case AllocSlot => who.ProcCtx? && l == {Ptable} && n == 1 && Plain(rest) && Ok(rest, {}, 0, b, who)
      case WaitScan => who.ProcCtx? && l == {Ptable} && n == 1 && Plain(rest) && Ok(rest, {}, 0, b, who)
      case ExitSwitch => who.ProcCtx? && who.slot != INIT && l == {Ptable} && n == 1
      case Exit => who.ProcCtx? && l == {} && n == 0
      case NoReturn => false
      case Fork | FillChild(_) | Wait | KilledCheck | TrapTail =>
        who.ProcCtx? && l == {} && n == 0 && Plain(rest) && Ok(rest, l, n, b, who)
  }

  /** A context saved across swtch: fit to run with the table's lock held, whatever int_on it is given. */
  ghost predicate SavedOk(c: Code, p: nat) {
    && Plain(c)
    && Ok(c, {Ptable}, 1, true, ProcCtx(p))
    && Ok(c, {Ptable}, 1, false, ProcCtx(p))
  }

  // ------------------------------------------------------------- the invariant

  ghost predicate Control(s: State) {
    && s.cpu.Disciplined()
    && Ok(s.code, s.cpu.locked, s.cpu.ncli, s.cpu.Base(), s.self)
  }

  ghost predicate AllSaved(t: Procs, ctx: Contexts) {
    forall p: nat :: p < NPROC && (t[p].state == Ready || t[p].state == Sleeping) ==> SavedOk(ctx[p], p)
  }

  ghost predicate OneRunning(s: State) {
    match s.self
    case ProcCtx(p) =>
      && p < NPROC && s.proc == Some(p)
      && (forall q: nat :: q < NPROC ==> (s.t[q].state == Running <==> q == p))
      && |s.sched| == 1 && s.sched[0].AfterSwtch?
    case SchedulerCtx =>
      && (forall q: nat :: q < NPROC ==> s.t[q].state != Running)
      && (s.proc == None || (s.code != [] && s.code[0].AfterSwtch?))
  }

  ghost predicate Forking(s: State) {
    forall op :: op in s.code && ForkOp(op) ==> ForkOpOk(s, op)
  }

  ghost predicate ForkOpOk(s: State, op: Op)
    requires ForkOp(op)
  {
    && s.self.ProcCtx? && s.self.slot < NPROC && op.child < NPROC && op.child != INIT
    && s.t[op.child].state == Created
    && s.t[s.self.slot].pid < s.t[op.child].pid
    && (op.FillChild? ==> s.t[op.child].parent == None)
    && (op.ChildReady? ==> s.t[op.child].parent == Some(s.self.slot) && s.ctx[op.child] == ForkRet())
  }

  /** Parents are alive and older than their children; every process but init has one once it can run. */
  ghost predicate Tree(t: Procs) {
    && t[INIT].Alive() && t[INIT].pid == 1 && t[INIT].parent == None
    && (forall p: nat :: p < NPROC ==> ParentOk(t, p))
  }

  ghost predicate ParentOk(t: Procs, p: nat)
    requires p < NPROC
  {
    && (t[p].state == Unused ==> t[p].parent == None)
    && (p != INIT && (t[p].Alive() || t[p].state == Zombie) ==> t[p].parent.Some?)
    && (t[p].parent.Some? ==>
          var q := t[p].parent.value;
          q < NPROC && t[q].Alive() && t[q].pid < t[p].pid)
  }

  ghost predicate Distinct(s: seq<nat>) {
    forall i, j :: 0 <= i < j < |s| ==> s[i] != s[j]
  }

  ghost predicate DeadWithPid(t: Procs, x: nat) {
    exists p: nat :: p < NPROC && t[p].state == Zombie && t[p].pid == x
  }

  /** Live pids are distinct; an exited pid is a zombie's until it is reaped, which happens once. */
  ghost predicate Pids(t: Procs, nextpid: nat, exited: seq<nat>, reaped: seq<nat>) {
    && (forall p: nat :: p < NPROC && t[p].state != Unused ==>
          1 <= t[p].pid < nextpid && t[p].pid !in reaped && (t[p].state == Zombie <==> t[p].pid in exited))
    && (forall p: nat, q: nat :: p < q < NPROC && t[p].state != Unused && t[q].state != Unused ==> t[p].pid != t[q].pid)
    && Distinct(exited) && Distinct(reaped)
    && (forall x :: x in reaped ==> x in exited)
    && (forall x :: x in exited ==> x < nextpid && (x in reaped || DeadWithPid(t, x)))
  }

  /** A process asleep in wait has a child, and no dead one. */
  ghost predicate Waiters(t: Procs) {
    forall p: nat :: p < NPROC && t[p].state == Sleeping ==> WaiterOk(t, p)
  }

  ghost predicate WaiterOk(t: Procs, p: nat)
    requires p < NPROC
  {
    && t[p].chan.Some?
    && (t[p].chan.value.ProcChan? ==> t[p].chan.value.slot == p && HasChild(t, p) && !HasZombieChild(t, p))
  }

  ghost predicate TableOk(t: Procs, nextpid: nat, exited: seq<nat>, reaped: seq<nat>) {
    Tree(t) && Pids(t, nextpid, exited, reaped) && Waiters(t)
  }

  ghost predicate Allowed(p: Panic) { p == OutOfPids || p == InitExits }

  ghost predicate Inv(s: State) {
    && Control(s) && AllSaved(s.t, s.ctx) && OneRunning(s) && Forking(s)
    && TableOk(s.t, s.nextpid, s.exited, s.reaped)
    && (s.panic.Some? ==> Allowed(s.panic.value))
  }

  // ------------------------------------------------------- changes of the table

  /** Only the states of living processes, channels and kill flags change. */
  ghost predicate Relabels(t: Procs, t': Procs) {
    forall p: nat :: p < NPROC ==>
      && t'[p].pid == t[p].pid && t'[p].parent == t[p].parent
      && (t'[p].state == t[p].state || (t[p].Alive() && t'[p].Alive()))
  }

  lemma RelabelKids(t: Procs, t': Procs, p: nat)
    requires Relabels(t, t')
    ensures HasChild(t', p) == HasChild(t, p) && HasZombieChild(t', p) == HasZombieChild(t, p)
  {
    if HasChild(t, p) {
      var c: nat :| c < NPROC && t[c].parent == Some(p);
      assert t'[c].parent == Some(p);
    }
    if HasChild(t', p) {
      var c: nat :| c < NPROC && t'[c].parent == Some(p);
      assert t[c].parent == Some(p);
    }
    if HasZombieChild(t, p) {
      var c: nat :| c < NPROC && ZombieChild(t, p, c);
      assert ZombieChild(t', p, c);
    }
    if HasZombieChild(t', p) {
      var c: nat :| c < NPROC && ZombieChild(t', p, c);
      assert ZombieChild(t, p, c);
    }
  }

  lemma RelabelTree(t: Procs, t': Procs)
    requires Relabels(t, t') && Tree(t)
    ensures Tree(t')
  {
    forall p: nat | p < NPROC ensures ParentOk(t', p) {
      assert ParentOk(t, p);
    }
  }

  lemma IsDead(t: Procs, p: nat)
    requires p < NPROC && t[p].state == Zombie
    ensures DeadWithPid(t, t[p].pid)
  {
  }

  lemma DeadKept(t: Procs, t': Procs, exited: seq<nat>, reaped: seq<nat>, gone: nat)
    requires forall x :: x in exited ==> x in reaped || DeadWithPid(t, x)
    requires forall p: nat :: p < NPROC && t[p].state == Zombie && t[p].pid != gone ==> t'[p].state == Zombie && t'[p].pid == t[p].pid
    ensures forall x :: x in exited && x != gone ==> x in reaped || DeadWithPid(t', x)
  {
    forall x | x in exited && x != gone && x !in reaped ensures DeadWithPid(t', x) {
      var p: nat :| p < NPROC && t[p].state == Zombie && t[p].pid == x;
      assert t'[p].state == Zombie && t'[p].pid == x;
    }
  }

  lemma RelabelPids(t: Procs, t': Procs, nextpid: nat, exited: seq<nat>, reaped: seq<nat>)
    requires Relabels(t, t') && Pids(t, nextpid, exited, reaped)
    ensures Pids(t', nextpid, exited, reaped)
  {
    hide DeadWithPid;
    DeadKept(t, t', exited, reaped, nextpid);
  }

  /** Only living processes are relabelled, and whoever falls asleep may. */
  lemma RelabelKeeps(t: Procs, t': Procs, nextpid: nat, exited: seq<nat>, reaped: seq<nat>)
    requires Relabels(t, t') && TableOk(t, nextpid, exited, reaped)
    requires forall p: nat :: p < NPROC && t'[p].state == Sleeping && !(t[p].state == Sleeping && t'[p].chan == t[p].chan) ==>
               WaiterOk(t', p)
    ensures TableOk(t', nextpid, exited, reaped)
  {
    hide Tree, Pids, HasChild, HasZombieChild;
    RelabelTree(t, t');
    RelabelPids(t, t', nextpid, exited, reaped);
    forall p: nat | p < NPROC && t'[p].state == Sleeping ensures WaiterOk(t', p) {
      if t[p].state == Sleeping && t'[p].chan == t[p].chan {
        assert WaiterOk(t, p);
        RelabelKids(t, t', p);
      }
    }
  }

  lemma WokenRelabels(t: Procs, c: Option<Chan>)
    ensures Relabels(t, Woken(t, c))
    ensures forall p: nat :: p < NPROC && Woken(t, c)[p].state == Sleeping ==>
              t[p].state == Sleeping && Woken(t, c)[p].chan == t[p].chan
    ensures forall p: nat :: p < NPROC ==> (Woken(t, c)[p].state == Running <==> t[p].state == Running)
    ensures forall p: nat :: p < NPROC ==> Woken(t, c)[p] == if t[p].state == Sleeping && t[p].chan == c then t[p].(state := Ready) else t[p]
  {
  }

  // ------------------------------------------------------------------ fork

  /** A slot that no process lives in yet moves on: allocated, filled, made ready or given back. */
  ghost predicate SlotMoves(t: Procs, c: nat, q: Proc, nextpid: nat, nextpid': nat, exited: seq<nat>, reaped: seq<nat>) {
    && c < NPROC && c != INIT && nextpid <= nextpid'
    && (t[c].state == Unused || t[c].state == Created)
    && (q.state == Unused || q.state == Created || q.state == Ready)
    && (t[c].parent.Some? ==> q.parent == t[c].parent)
    && (q.state == Unused ==> q.parent == None)
    && (q.state == Ready ==> q.parent.Some?)
    && (q.parent.Some? ==> q.parent.value < NPROC && q.parent.value != c && t[q.parent.value].Alive() && t[q.parent.value].pid < q.pid)
    && (q.state != Unused ==>
          && 1 <= q.pid < nextpid' && q.pid !in exited && q.pid !in reaped
          && forall p: nat :: p < NPROC && p != c && t[p].state != Unused ==> t[p].pid != q.pid)
  }

  lemma SlotTree(t: Procs, c: nat, q: Proc, nextpid: nat, nextpid': nat, exited: seq<nat>, reaped: seq<nat>)
    requires Tree(t) && SlotMoves(t, c, q, nextpid, nextpid', exited, reaped)
    ensures Tree(t[c := q])
  {
    var t': Procs := t[c := q];
    forall p: nat | p < NPROC ensures ParentOk(t', p) {
      assert ParentOk(t, p);
    }
  }

  lemma SlotPids(t: Procs, c: nat, q: Proc, nextpid: nat, nextpid': nat, exited: seq<nat>, reaped: seq<nat>)
    requires Pids(t, nextpid, exited, reaped) && SlotMoves(t, c, q, nextpid, nextpid', exited, reaped)
    ensures Pids(t[c := q], nextpid', exited, reaped)
  {
    hide DeadWithPid;
    DeadKept(t, t[c := q], exited, reaped, nextpid);
  }

  lemma SlotKeeps(t: Procs, c: nat, q: Proc, nextpid: nat, nextpid': nat, exited: seq<nat>, reaped: seq<nat>)
    requires TableOk(t, nextpid, exited, reaped) && SlotMoves(t, c, q, nextpid, nextpid', exited, reaped)
    ensures TableOk(t[c := q], nextpid', exited, reaped)
  {
    SlotTree(t, c, q, nextpid, nextpid', exited, reaped);
    SlotPids(t, c, q, nextpid, nextpid', exited, reaped);
    var t': Procs := t[c := q];
    hide Tree, Pids;
    forall p: nat | p < NPROC && t'[p].state == Sleeping ensures WaiterOk(t', p) {
      assert WaiterOk(t, p);
      if t[p].chan.value.ProcChan? {
        var k: nat :| k < NPROC && t[k].parent == Some(p);
        assert t'[k].parent == Some(p);
        forall z: nat | z < NPROC ensures ZombieChild(t', p, z) ==> ZombieChild(t, p, z) {
        }
      }
    }
  }

  // ------------------------------------------------------------------ exit

  /** Exit, slot by slot. */
  lemma ExitedAt(t: Procs, self: nat, p: nat)
    requires self < NPROC && p < NPROC && t[self].state == Running && t[self].parent != Some(self)
    ensures var e := Exited(t, self)[p];
            && e.pid == t[p].pid
            && e.parent == (if t[p].parent == Some(self) then Some(INIT) else t[p].parent)
            && (p == self ==> e.state == Zombie)
            && (p != self ==> e.state == t[p].state || (t[p].state == Sleeping && e.state == Ready))
            && (e.state == Sleeping ==> e.chan == t[p].chan && !t[p].AsleepOn(PtrChan(t[self].parent)))
            && (e.state == Sleeping && HasZombieChild(t, self) ==> !t[p].AsleepOn(Some(ProcChan(INIT))))
            && e.chan == t[p].chan && e.killed == t[p].killed
            && (p != self && t[p].state == Sleeping && e.state == Ready ==>
                  || t[p].AsleepOn(PtrChan(t[self].parent))
                  || (HasZombieChild(t, self) && t[p].AsleepOn(Some(ProcChan(INIT)))))
  {
    var told := Woken(t, PtrChan(t[self].parent));
    if HasZombieChild(t, self) {
      var z: nat :| z < NPROC && ZombieChild(t, self, z);
      assert ZombieChild(told, self, z);
    }
    if HasZombieChild(told, self) {
      var z: nat :| z < NPROC && ZombieChild(told, self, z);
      assert ZombieChild(t, self, z);
    }
  }

  lemma ExitTree(t: Procs, self: nat)
    requires Tree(t) && self < NPROC && self != INIT && t[self].state == Running
    ensures Tree(Exited(t, self))
  {
    hide Exited;
    assert ParentOk(t, self);
    var t' := Exited(t, self);
    ExitedAt(t, self, INIT);
    forall p: nat | p < NPROC ensures ParentOk(t', p) {
      assert ParentOk(t, p);
      ExitedAt(t, self, p);
      if t[p].parent.Some? {
        ExitedAt(t, self, t[p].parent.value);
        if t[p].parent == Some(self) {
          assert 1 < t[p].pid;
        }
      }
    }
  }

  lemma ExitPids(t: Procs, self: nat, nextpid: nat, exited: seq<nat>, reaped: seq<nat>)
    requires Tree(t) && Pids(t, nextpid, exited, reaped) && self < NPROC && self != INIT && t[self].state == Running
    ensures Pids(Exited(t, self), nextpid, exited + [t[self].pid], reaped)
  {
    hide Exited, DeadWithPid;
    assert ParentOk(t, self);
    var t' := Exited(t, self);
    forall p: nat | p < NPROC
      ensures t'[p].pid == t[p].pid && (t'[p].state == Zombie <==> t[p].state == Zombie || p == self)
      ensures t'[p].state == Unused <==> t[p].state == Unused
    {
      ExitedAt(t, self, p);
    }
    DeadKept(t, t', exited, reaped, nextpid);
    IsDead(t', self);
  }

  lemma ExitWaiters(t: Procs, self: nat)
    requires Tree(t) && Waiters(t) && self < NPROC && self != INIT && t[self].state == Running
    ensures Waiters(Exited(t, self))
  {
    hide Exited;
    assert ParentOk(t, self);
    var t' := Exited(t, self);
    forall p: nat | p < NPROC && t'[p].state == Sleeping ensures WaiterOk(t', p) {
      ExitedAt(t, self, p);
      assert WaiterOk(t, p);
      if t[p].chan.value.ProcChan? {
        var k: nat :| k < NPROC && t[k].parent == Some(p);
        ExitedAt(t, self, k);
        assert t'[k].parent == Some(p);
        forall z: nat | z < NPROC
          ensures ZombieChild(t', p, z) ==> ZombieChild(t, p, z) || (p == INIT && ZombieChild(t, self, z))
        {
          ExitedAt(t, self, z);
        }
      }
    }
  }

  // ------------------------------------------------------------------ wait

  lemma ReapTree(t: Procs, z: nat)
    requires Tree(t) && z < NPROC && t[z].state == Zombie
    ensures Tree(t[z := CLEARED])
  {
    var t': Procs := t[z := CLEARED];
    forall p: nat | p < NPROC ensures ParentOk(t', p) {
      assert ParentOk(t, p);
    }
  }

  lemma ReapPids(t: Procs, z: nat, nextpid: nat, exited: seq<nat>, reaped: seq<nat>)
    requires Pids(t, nextpid, exited, reaped) && z < NPROC && t[z].state == Zombie
    ensures Pids(t[z := CLEARED], nextpid, exited, reaped + [t[z].pid])
  {
    hide DeadWithPid;
    DeadKept(t, t[z := CLEARED], exited, reaped, t[z].pid);
  }

  lemma ReapWaiters(t: Procs, z: nat)
    requires Waiters(t) && z < NPROC && t[z].state == Zombie
    ensures Waiters(t[z := CLEARED])
  {
    var t': Procs := t[z := CLEARED];
    forall p: nat | p < NPROC && t'[p].state == Sleeping ensures WaiterOk(t', p) {
      assert WaiterOk(t, p);
      if t[p].chan.value.ProcChan? {
        var k: nat :| k < NPROC && t[k].parent == Some(p);
        assert !ZombieChild(t, p, k);
        assert t'[k].parent == Some(p);
        forall y: nat | y < NPROC ensures ZombieChild(t', p, y) ==> ZombieChild(t, p, y) {
        }
      }
    }
  }
}
