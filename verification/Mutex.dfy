/**
 Sleeping mutexes: any number of processes locking, querying and unlocking one mutex, as a step machine over the
 sleep/wakeup protocol. A process unlocks only what it has locked.
 */
module Mutex {
  import opened Wrappers
  import opened Monitor

  /** Process i has pid i + 1; 0 is no process. The mutex itself is the only channel. */
  const CHAN: nat := 0

  datatype Body =
    | Idle
    | Critical                // between lock_mutex and unlock_mutex
    | Acquire                 // lock_mutex at its waiting loop
    | Release                 // unlock_mutex
    | Ask(owner: bool)        // holding_mutex, called from inside or outside the critical section
    | Finish

  /** What holding_mutex answered. */
  datatype Answer = Answer(i: nat, yes: bool)

  datatype State = State(m: Mon<Body>, locked: bool, pid: nat, answers: seq<Answer>)

  datatype Action = Go | Lock | Unlock | Query

  datatype Choice = Choice(i: nat, act: Action)

  function At(s: State, i: nat, pc: Pc<Body>): State
    requires i < |s.m.th|
  {
    s.(m := Goto(s.m, i, pc))
  }

  function Begin(s: State, i: nat, b: Body, act: Action): State
    requires i < |s.m.th|
  {
    if b == Idle && act == Lock then At(s, i, Entering(Acquire))
    else if b == Critical && act == Unlock then At(s, i, Entering(Release))
    else if (b == Idle || b == Critical) && act == Query then At(s, i, Entering(Ask(b == Critical)))
    else s
  }

  /** What holding_mutex answers process i. */
  predicate Holding(s: State, i: nat) {
    s.locked && s.pid == i + 1
  }

  function Inside(s: State, i: nat, b: Body): State
    requires i < |s.m.th|
  {
    match b
    case Acquire =>
      if s.locked then At(s, i, SleepLock(CHAN, Acquire))
      else s.(m := Leave(s.m, i, Critical), locked := true, pid := i + 1)
    case Release => At(s.(locked := false, pid := 0), i, WakeLock(CHAN, Finish))
    case Ask(owner) => s.(m := Leave(s.m, i, if owner then Critical else Idle), answers := s.answers + [Answer(i, Holding(s, i))])
    case Finish => s.(m := Leave(s.m, i, Idle))
    case _ => s
  }

  function Next(s: State, c: Choice): State {
    if c.i >= |s.m.th| then s
    else
      match s.m.th[c.i].pc
      case Out(b) => Begin(s, c.i, b, c.act)
      case In(b) => Inside(s, c.i, b)
      case _ => s.(m := Proto(s.m, c.i))
  }

  function New(n: nat): State {
    State(Mon(None, None, seq(n, i => Thread(Out(Idle), false))), false, 0, [])
  }

  function Run(s: State, cs: seq<Choice>): State
    decreases |cs|
  {
    if cs == [] then s else Run(Next(s, cs[0]), cs[1..])
  }

  // ------------------------------------------------------------- the invariant

  /** Between lock_mutex's return and the moment its own unlock_mutex clears the mutex. */
  predicate Owns(pc: Pc<Body>) {
    (pc.Out? || pc.Entering? || pc.In?) && (pc.b.Critical? || pc.b.Release? || pc.b == Ask(true))
  }

  ghost predicate PcOk(s: State, i: nat)
    requires i < |s.m.th|
  {
    var pc := s.m.th[i].pc;
    && (Owns(pc) <==> Holding(s, i))
    && (pc.b.Critical? || pc.b.Release? || pc.b == Ask(true) ==> Owns(pc))
    && (pc.b.Critical? || pc.b.Idle? ==> pc.Out?)
    && (pc.SleepLock? || pc.SleepRelease? ==> s.locked && pc.c == CHAN)
    && (pc.SleepMark? || pc.SleepSwitch? || pc.Asleep? ==> pc.c == CHAN)
    && (pc.WakeLock? || pc.WakeScan? ==> pc.c == CHAN && pc.b.Finish?)
    && (pc.b.Finish? ==> (pc.In? || pc.WakeLock? || pc.WakeScan?) && !s.locked)
    && (pc.Out? ==> pc.b.Critical? || pc.b.Idle?)
    && (pc.b.Ask? ==> pc.Entering? || pc.In?)
  }

  ghost predicate WakeupDue(s: State) {
    && s.m.lk.Some? && s.m.lk.value < |s.m.th|
    && var pc := s.m.th[s.m.lk.value].pc;
       pc.WakeLock? || pc.WakeScan?
  }

  ghost predicate Inv(s: State) {
    && MonOk(s.m)
    && (s.locked ==> 0 < s.pid <= |s.m.th|)
    && (forall i: nat :: i < |s.m.th| ==> PcOk(s, i))
    && (SomeSleeper(s.m, CHAN) ==> s.locked || WakeupDue(s))
  }

  lemma ProtoInv(s: State, i: nat)
    requires Inv(s) && i < |s.m.th|
    ensures Inv(s.(m := Proto(s.m, i)))
  {
    var s' := s.(m := Proto(s.m, i));
    ProtoKeeps(s.m, i);
    assert ThreadOk(s.m, i) && PcOk(s, i);
    forall j: nat | j < |s'.m.th| ensures PcOk(s', j) {
      assert PcOk(s, j);
    }
    if SomeSleeper(s'.m, CHAN) {
      var j: nat :| j < |s'.m.th| && Sleeper(s'.m, j, CHAN);
      ProtoSleepers(s.m, i, j, CHAN);
    }
  }

  lemma BeginInv(s: State, i: nat, act: Action)
    requires Inv(s) && i < |s.m.th| && s.m.th[i].pc.Out?
    ensures Inv(Begin(s, i, s.m.th[i].pc.b, act))
  {
    var s' := Begin(s, i, s.m.th[i].pc.b, act);
    if s'.m != s.m {
      MoveKeeps(s.m, i, s'.m.th[i].pc);
      KeptSleepers(s.m, s'.m, CHAN);
      assert ThreadOk(s.m, i) && PcOk(s, i);
      forall j: nat | j < |s'.m.th| ensures PcOk(s', j) {
        assert PcOk(s, j);
      }
    }
  }

  lemma InsideInv(s: State, i: nat)
    requires Inv(s) && i < |s.m.th| && s.m.th[i].pc.In?
    ensures Inv(Inside(s, i, s.m.th[i].pc.b))
  {
    var s' := Inside(s, i, s.m.th[i].pc.b);
    assert ThreadOk(s.m, i) && PcOk(s, i);
    if s'.m.lk.None? {
      LeaveKeeps(s.m, i, s'.m.th[i].pc.b);
    } else {
      MoveKeeps(s.m, i, s'.m.th[i].pc);
    }
    KeptSleepers(s.m, s'.m, CHAN);
    forall j: nat | j < |s'.m.th| ensures PcOk(s', j) {
      assert PcOk(s, j) && ThreadOk(s.m, j);
    }
  }

  lemma StepInv(s: State, c: Choice)
    requires Inv(s)
    ensures Inv(Next(s, c))
  {
    hide Inv, Inside, Begin, Proto;
    if c.i < |s.m.th| {
      match s.m.th[c.i].pc {
        case Out(_) => BeginInv(s, c.i, c.act);
        case In(_) => InsideInv(s, c.i);
        case _ => ProtoInv(s, c.i);
      }
    }
  }

  lemma {:induction false} RunInv(s: State, cs: seq<Choice>)
    requires Inv(s)
    ensures Inv(Run(s, cs)) && |Run(s, cs).m.th| == |s.m.th|
    decreases |cs|
  {
    if cs != [] {
      StepInv(s, cs[0]);
      assert |Next(s, cs[0]).m.th| == |s.m.th|;
      RunInv(Next(s, cs[0]), cs[1..]);
    }
  }

  // ------------------------------------------------------- what callers see

  /**
   The history of a run, from its calls and returns alone: the call each process is in, who is between the return of its
   lock_mutex and that of its unlock_mutex, and what holding_mutex should have answered.
   */
  datatype History = History(pending: map<nat, Action>, holders: set<nat>, asked: seq<Answer>)

  const NOTHING: History := History(map[], {}, [])

  function Note(h: History, s: State, c: Choice): History {
    var s' := Next(s, c);
    if c.i >= |s.m.th| || c.i >= |s'.m.th| then h
    else
      var was, now := s.m.th[c.i].pc.Out?, s'.m.th[c.i].pc.Out?;
      if was && !now then h.(pending := h.pending[c.i := c.act])
      else if !was && now && c.i in h.pending then
        match h.pending[c.i]
        case Lock => h.(pending := h.pending - {c.i}, holders := h.holders + {c.i})
        case Unlock => h.(pending := h.pending - {c.i}, holders := h.holders - {c.i})
        case _ => h.(pending := h.pending - {c.i}, asked := h.asked + [Answer(c.i, c.i in h.holders)])
      else h
  }

  function HistoryOf(s: State, h: History, cs: seq<Choice>): History
    decreases |cs|
  {
    if cs == [] then h else HistoryOf(Next(s, cs[0]), Note(h, s, cs[0]), cs[1..])
  }

  predicate Within(h: History, i: nat, act: Action) {
    i in h.pending && h.pending[i] == act
  }

  ghost predicate Matches(s: State, h: History, i: nat)
    requires i < |s.m.th|
  {
    var pc := s.m.th[i].pc;
    && (i in h.pending <==> !pc.Out?)
    && (pc.b.Acquire? <==> Within(h, i, Lock))
    && (pc.b.Release? || pc.b.Finish? <==> Within(h, i, Unlock))
    && (pc.b.Ask? <==> Within(h, i, Query))
    && (i in h.holders <==> pc.b.Critical? || pc.b.Release? || pc.b == Ask(true) || pc.b.Finish?)
  }

  ghost predicate HistOk(s: State, h: History) {
    && (forall i: nat :: i < |s.m.th| ==> Matches(s, h, i))
    && (forall i :: i in h.holders ==> i < |s.m.th|)
    && s.answers == h.asked
  }

  /** What one step does to the process that takes it; the others stay as they are, but for the marks of sleep. */
  lemma StepLocal(s: State, c: Choice)
    requires Inv(s) && c.i < |s.m.th|
    ensures |Next(s, c).m.th| == |s.m.th|
    ensures forall j: nat :: j < |s.m.th| && j != c.i ==> Next(s, c).m.th[j].pc == s.m.th[j].pc
  {
    hide SomeSleeper;
    assert PcOk(s, c.i);
  }

  lemma OwnStep(s: State, h: History, c: Choice)
    requires Inv(s) && c.i < |s.m.th| && Matches(s, h, c.i) && s.answers == h.asked
    ensures Matches(Next(s, c), Note(h, s, c), c.i) && Next(s, c).answers == Note(h, s, c).asked
  {
    hide SomeSleeper;
    assert PcOk(s, c.i);
  }

  lemma NoteLocal(s: State, h: History, c: Choice)
    ensures forall j :: j != c.i ==> (j in Note(h, s, c).holders <==> j in h.holders)
    ensures forall j :: j != c.i ==> (j in Note(h, s, c).pending <==> j in h.pending)
    ensures forall j :: j != c.i && j in h.pending ==> Note(h, s, c).pending[j] == h.pending[j]
  {
    hide Next;
  }

  lemma HistStep(s: State, h: History, c: Choice)
    requires Inv(s) && HistOk(s, h)
    ensures HistOk(Next(s, c), Note(h, s, c))
  {
    hide Inv, Next, Note;
    NoteLocal(s, h, c);
    if c.i < |s.m.th| {
      StepLocal(s, c);
      assert Matches(s, h, c.i);
      OwnStep(s, h, c);
      forall j: nat | j < |s.m.th| ensures Matches(Next(s, c), Note(h, s, c), j) {
        assert Matches(s, h, j);
      }
    } else {
      NoStep(s, h, c);
    }
  }

  lemma NoStep(s: State, h: History, c: Choice)
    requires c.i >= |s.m.th|
    ensures Next(s, c) == s && Note(h, s, c) == h
  {
  }

  lemma {:induction false} RunHist(s: State, h: History, cs: seq<Choice>)
    requires Inv(s) && HistOk(s, h)
    ensures HistOk(Run(s, cs), HistoryOf(s, h, cs)) && Inv(Run(s, cs)) && |Run(s, cs).m.th| == |s.m.th|
    decreases |cs|
  {
    hide Inv, HistOk, Note;
    RunInv(s, cs);
    if cs != [] {
      HistStep(s, h, cs[0]);
      StepInv(s, cs[0]);
      RunHist(Next(s, cs[0]), Note(h, s, cs[0]), cs[1..]);
    }
  }

  lemma NewOk(n: nat)
    ensures Inv(New(n)) && HistOk(New(n), NOTHING)
  {
    var s0 := New(n);
    assert forall k: nat :: k < n ==> s0.m.th[k] == Thread(Out(Idle), false);
    assert forall k: nat :: k < n ==> ThreadOk(s0.m, k) && PcOk(s0, k);
  }

  /**
   In every run at most one process is between the return of its lock_mutex and the return of its unlock_mutex. It has the
   mutex locked with its pid from the one until its unlock_mutex clears it, under the inner lock; the mutex is locked at no
   other time; holding_mutex answers each caller whether it is the one; and with the inner lock free nobody sleeps on an
   unlocked mutex.
   */
  lemma MutualExclusion(n: nat, cs: seq<Choice>, i: nat, j: nat)
    requires i < n && j < n
    ensures var s, h := Run(New(n), cs), HistoryOf(New(n), NOTHING, cs);
            && |s.m.th| == n
            && (i in h.holders && j in h.holders ==> i == j)
            && (i in h.holders && !Within(h, i, Unlock) ==> Holding(s, i))
            && (i in h.holders && Within(h, i, Unlock) ==> Holding(s, i) || s.m.lk == Some(i))
            && (Holding(s, i) ==> i in h.holders)
            && (s.locked ==> exists k: nat :: k < n && Holding(s, k))
            && s.answers == h.asked
            && (s.m.lk.None? && SomeSleeper(s.m, CHAN) ==> s.locked)
  {
    hide SomeSleeper;
    NewOk(n);
    RunHist(New(n), NOTHING, cs);
    var s, h := Run(New(n), cs), HistoryOf(New(n), NOTHING, cs);
    assert PcOk(s, i) && PcOk(s, j) && Matches(s, h, i) && Matches(s, h, j) && ThreadOk(s.m, i) && ThreadOk(s.m, j);
    if s.locked {
      assert Holding(s, s.pid - 1);
    }
  }

  /** Where no process can move, each is outside or asleep, and if one is asleep the mutex is locked by one that is outside. */
  lemma NoDeadlocks(n: nat, cs: seq<Choice>)
    ensures var s := Run(New(n), cs);
            (forall i: nat :: i < |s.m.th| ==> Next(s, Choice(i, Go)) == s) ==>
              && (forall i: nat :: i < |s.m.th| ==> s.m.th[i].pc.Out? || (s.m.th[i].pc.Asleep? && s.m.th[i].asleep))
              && (forall i: nat :: i < |s.m.th| && s.m.th[i].pc.Asleep? ==>
                    exists k: nat :: k < |s.m.th| && s.m.th[k].pc.Out? && Holding(s, k))
  {
    NewOk(n);
    RunInv(New(n), cs);
    var s := Run(New(n), cs);
    if forall i: nat :: i < |s.m.th| ==> Next(s, Choice(i, Go)) == s {
      forall i: nat | i < |s.m.th| ensures !s.m.th[i].pc.In? && (s.m.th[i].pc.Out? || Proto(s.m, i) == s.m) {
        assert PcOk(s, i);
        assert Next(s, Choice(i, Go)) == s;
      }
      NoDeadlock(s.m);
      forall i: nat | i < |s.m.th| && s.m.th[i].pc.Asleep? ensures s.locked {
        assert PcOk(s, i) && Sleeper(s.m, i, CHAN);
      }
      if s.locked {
        assert PcOk(s, s.pid - 1);
      }
    }
  }

  /** A free mutex is taken: from any state of a run, a process outside calls lock_mutex and returns in two steps holding it. */
  lemma TakesFree(n: nat, cs: seq<Choice>, i: nat)
    requires i < n
    ensures var s := Run(New(n), cs);
            i < |s.m.th| && !s.locked && s.m.lk.None? && s.m.th[i].pc.Out? ==>
              var s' := Next(Next(Next(s, Choice(i, Lock)), Choice(i, Go)), Choice(i, Go));
              s'.m.th[i].pc.Out? && Holding(s', i) && s'.m.lk.None?
  {
    NewOk(n);
    RunInv(New(n), cs);
    assert PcOk(Run(New(n), cs), i);
  }
}
