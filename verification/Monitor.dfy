/**
 Code that sleeps and wakes under one spinlock, for any number of processes: the lock, the process table's lock, and
 the steps of lock, sleep, wakeup and the resumption of a sleeper, each a step of its own. Processes interleave at
 every step and a taken lock blocks, which covers every schedule the one-CPU kernel can produce and more. What happens
 between the calls is the client's body, of type B.
 */
module Monitor {
  import opened Wrappers

  datatype Pc<B> =
    | Out(b: B)                         // outside, holding nothing
    | Entering(b: B)                    // about to take the lock
    | In(b: B)                          // holding the lock, at the client's code b
    | WakeLock(c: nat, b: B)            // wakeup(c): about to take the table's lock
    | WakeScan(c: nat, b: B)            // wakeup(c): about to scan the table
    | SleepLock(c: nat, b: B)           // sleep(c): about to take the table's lock
    | SleepRelease(c: nat, b: B)        // sleep(c): about to release the lock
    | SleepMark(c: nat, b: B)           // sleep(c): about to mark itself sleeping
    | SleepSwitch(c: nat, b: B)         // sleep(c): about to switch to the scheduler, which frees the table's lock
    | Asleep(c: nat, b: B)              // switched out
    | Waking(b: B)                      // resumed with the table's lock held

  /** asleep: the state is PROC_SLEEPING. */
  datatype Thread<B> = Thread(pc: Pc<B>, asleep: bool)

  datatype Mon<B> = Mon(lk: Option<nat>, pt: Option<nat>, th: seq<Thread<B>>)

  predicate HoldsLk<B>(pc: Pc<B>) {
    pc.In? || pc.WakeLock? || pc.WakeScan? || pc.SleepLock? || pc.SleepRelease?
  }

  predicate HoldsPt<B>(pc: Pc<B>) {
    pc.WakeScan? || pc.SleepRelease? || pc.SleepMark? || pc.SleepSwitch? || pc.Waking?
  }

  predicate InSleep<B>(pc: Pc<B>, c: nat) {
    (pc.SleepSwitch? || pc.Asleep?) && pc.c == c
  }

  /** Has let go of the lock inside sleep(c) and has not been woken. */
  predicate Sleeper<B>(m: Mon<B>, i: nat, c: nat) {
    && i < |m.th|
    && ((m.th[i].pc.SleepMark? && m.th[i].pc.c == c) || (InSleep(m.th[i].pc, c) && m.th[i].asleep))
  }

  predicate SomeSleeper<B>(m: Mon<B>, c: nat) {
    exists i: nat :: i < |m.th| && Sleeper(m, i, c)
  }

  function Goto<B>(m: Mon<B>, i: nat, pc: Pc<B>): Mon<B>
    requires i < |m.th|
  {
    m.(th := m.th[i := m.th[i].(pc := pc)])
  }

  /** Leaving the lock. */
  function Leave<B>(m: Mon<B>, i: nat, b: B): Mon<B>
    requires i < |m.th|
  {
    Goto(m, i, Out(b)).(lk := None)
  }

  function Wake<B>(t: Thread<B>, c: nat): Thread<B> {
    if t.asleep && InSleep(t.pc, c) then t.(asleep := false) else t
  }

  function WakeAll<B>(th: seq<Thread<B>>, c: nat): seq<Thread<B>> {
    seq(|th|, i requires 0 <= i < |th| => Wake(th[i], c))
  }

  /** One step of process i that is not the client's own; a process that must wait stays where it is. */
  function Proto<B>(m: Mon<B>, i: nat): Mon<B>
    requires i < |m.th|
  {
    var pc := m.th[i].pc;
    match pc
    case Out(_) => m
    case In(_) => m
    case Entering(b) => if m.lk.Some? then m else Goto(m, i, In(b)).(lk := Some(i))
    case WakeLock(c, b) => if m.pt.Some? then m else Goto(m, i, WakeScan(c, b)).(pt := Some(i))
    case WakeScan(c, b) => Goto(m.(th := WakeAll(m.th, c)), i, In(b)).(pt := None)
    case SleepLock(c, b) => if m.pt.Some? then m else Goto(m, i, SleepRelease(c, b)).(pt := Some(i))
    case SleepRelease(c, b) => Goto(m, i, SleepMark(c, b)).(lk := None)
    case SleepMark(c, b) => m.(th := m.th[i := Thread(SleepSwitch(c, b), true)])
    case SleepSwitch(c, b) => Goto(m, i, Asleep(c, b)).(pt := None)
    case Asleep(c, b) => if m.th[i].asleep || m.pt.Some? then m else Goto(m, i, Waking(b)).(pt := Some(i))
    case Waking(b) => Goto(m, i, Entering(b)).(pt := None)
  }

  // ------------------------------------------------------------- the locks

  /** Each lock is held by the one process whose code holds it; only switched-out processes are marked sleeping. */
  ghost predicate MonOk<B(!new)>(m: Mon<B>) {
    && (m.lk.Some? ==> m.lk.value < |m.th|) && (m.pt.Some? ==> m.pt.value < |m.th|)
    && (forall i: nat :: i < |m.th| ==> ThreadOk(m, i))
  }

  ghost predicate ThreadOk<B(!new)>(m: Mon<B>, i: nat)
    requires i < |m.th|
  {
    var t := m.th[i];
    && (HoldsLk(t.pc) <==> m.lk == Some(i))
    && (HoldsPt(t.pc) <==> m.pt == Some(i))
    && (t.asleep ==> t.pc.SleepSwitch? || t.pc.Asleep?)
    && (t.pc.SleepSwitch? ==> t.asleep)
  }

  lemma ProtoKeeps<B(!new)>(m: Mon<B>, i: nat)
    requires MonOk(m) && i < |m.th|
    ensures MonOk(Proto(m, i)) && |Proto(m, i).th| == |m.th|
  {
    assert ThreadOk(m, i);
    var m' := Proto(m, i);
    forall j: nat | j < |m'.th| ensures ThreadOk(m', j) {
      assert ThreadOk(m, j);
    }
  }

  /** The only step that puts a process to sleep is its own release, and a wakeup leaves no sleeper on its channel. */
  lemma ProtoSleepers<B(!new)>(m: Mon<B>, i: nat, j: nat, c: nat)
    requires MonOk(m) && i < |m.th|
    ensures var pc := m.th[i].pc;
            Sleeper(Proto(m, i), j, c) <==>
              (Sleeper(m, j, c) && !(pc.WakeScan? && pc.c == c)) || (pc.SleepRelease? && pc.c == c && j == i)
  {
    assert ThreadOk(m, i);
    if j < |m.th| {
      assert ThreadOk(m, j);
    }
  }

  /** The client's own move keeps the locks if it keeps holding, or leaves. */
  lemma MoveKeeps<B(!new)>(m: Mon<B>, i: nat, pc: Pc<B>)
    requires MonOk(m) && i < |m.th| && (m.th[i].pc.In? || m.th[i].pc.Out?)
    requires HoldsLk(pc) == HoldsLk(m.th[i].pc) && !HoldsPt(pc) && !pc.SleepSwitch?
    ensures MonOk(Goto(m, i, pc))
    ensures forall j: nat, c: nat :: Sleeper(Goto(m, i, pc), j, c) <==> Sleeper(m, j, c)
  {
    assert ThreadOk(m, i);
    var m' := Goto(m, i, pc);
    forall j: nat | j < |m'.th| ensures ThreadOk(m', j) {
      assert ThreadOk(m, j);
    }
  }

  lemma LeaveKeeps<B(!new)>(m: Mon<B>, i: nat, b: B)
    requires MonOk(m) && i < |m.th| && m.th[i].pc.In?
    ensures MonOk(Leave(m, i, b))
    ensures forall j: nat, c: nat :: Sleeper(Leave(m, i, b), j, c) <==> Sleeper(m, j, c)
  {
    assert ThreadOk(m, i);
    var m' := Leave(m, i, b);
    forall j: nat | j < |m'.th| ensures ThreadOk(m', j) {
      assert ThreadOk(m, j);
    }
  }

  lemma KeptSleepers<B>(m: Mon<B>, m': Mon<B>, c: nat)
    requires |m.th| == |m'.th| && forall j: nat :: Sleeper(m', j, c) <==> Sleeper(m, j, c)
    ensures SomeSleeper(m', c) == SomeSleeper(m, c)
  {
  }

  // --------------------------------------------------------------- progress

  /** Nobody is at the client's code, and no step of anybody else changes anything. */
  ghost predicate Stuck<B>(m: Mon<B>) {
    forall i: nat :: i < |m.th| ==> !m.th[i].pc.In? && (m.th[i].pc.Out? || Proto(m, i) == m)
  }

  lemma PtMoves<B(!new)>(m: Mon<B>, i: nat)
    requires MonOk(m) && i < |m.th| && HoldsPt(m.th[i].pc)
    ensures Proto(m, i).th[i].pc != m.th[i].pc
  {
    assert ThreadOk(m, i);
  }

  lemma LkMoves<B(!new)>(m: Mon<B>, i: nat)
    requires MonOk(m) && i < |m.th| && HoldsLk(m.th[i].pc) && !m.th[i].pc.In? && m.pt.None?
    ensures Proto(m, i).th[i].pc != m.th[i].pc
  {
    assert ThreadOk(m, i);
  }

  /** The protocol has no deadlock: where nothing moves, both locks are free, and whoever is inside a call is asleep. */
  lemma NoDeadlock<B(!new)>(m: Mon<B>)
    requires MonOk(m) && Stuck(m)
    ensures m.lk.None? && m.pt.None?
    ensures forall i: nat :: i < |m.th| ==> m.th[i].pc.Out? || (m.th[i].pc.Asleep? && m.th[i].asleep)
  {
    forall i: nat | i < |m.th| ensures ThreadOk(m, i) && (m.th[i].pc.Out? || Proto(m, i) == m) {
    }
    if m.pt.Some? {
      PtMoves(m, m.pt.value);
    } else if m.lk.Some? {
      LkMoves(m, m.lk.value);
    }
  }

  /** A process that was woken, with both locks free, is back at its code with the lock in three steps of its own. */
  lemma Resumes<B(!new)>(m: Mon<B>, i: nat)
    requires i < |m.th| && m.th[i].pc.Asleep? && !m.th[i].asleep && m.lk.None? && m.pt.None?
    ensures Proto(Proto(Proto(m, i), i), i) == Goto(m, i, In(m.th[i].pc.b)).(lk := Some(i))
  {
    var b := m.th[i].pc.b;
    var m1 := Proto(m, i);
    assert m1 == Goto(m, i, Waking(b)).(pt := Some(i));
    var m2 := Proto(m1, i);
    assert m2 == Goto(m, i, Entering(b));
    assert Proto(m2, i) == Goto(m, i, In(b)).(lk := Some(i));
  }
}
