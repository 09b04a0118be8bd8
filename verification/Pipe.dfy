/**
 Pipes: any number of processes reading, writing and closing one pipe, as a step machine over the sleep/wakeup
 protocol. Proved: no wakeup is lost unless a writer gives up at a full pipe while a reader sleeps, and the pipe is a
 first-in first-out queue through its wrapping counters.
 */
module Pipe {
  import opened Wrappers
  import opened Bytes
  import opened Monitor

  const PIPESZ: nat := 512
  const WRAP: nat := 0x1_0000_0000

  type Counter = x: int | 0 <= x < 0x1_0000_0000
  type Ring = r: seq<Byte> | |r| == PIPESZ witness seq(PIPESZ, i => 0)

  /** The two sleeping channels are the addresses of the counters. */
  const NREAD: nat := 0
  const NWRITTEN: nat := 1

  datatype Body =
    | Idle
    | ReadCheck(n: nat)                 // pipe_read at its waiting loop
    | ReadCopy(n: nat, got: seq<Byte>)  // pipe_read at its copying loop: n bytes still wanted, got in the buffer
    | WriteLoop(buf: seq<Byte>, w: nat) // pipe_write, with the bytes of buf below w written
    | Notify(buf: seq<Byte>, w: nat)    // pipe_write on a full pipe, readers woken
    | Close(write: bool)
    | Finish(r: int, got: seq<Byte>)    // about to return r, with got in the caller's buffer
    | Done(r: int, got: seq<Byte>)      // returned

  /** produced and consumed record the bytes that went in and came out, returned the buffers that pipe_read filled. */
  datatype State = State(
    m: Mon<Body>,
    data: Ring,
    nread: Counter,
    nwritten: Counter,
    ropen: bool,
    wopen: bool,
    killed: set<nat>,
    panicked: bool,
    produced: seq<Byte>,
    consumed: seq<Byte>,
    returned: seq<seq<Byte>>)
  {
    predicate Empty() { nread == nwritten }
    predicate Full() { nwritten == (nread + PIPESZ) % WRAP }
  }

  datatype Action = Go | BeginRead(n: nat) | BeginWrite(buf: seq<Byte>) | BeginClose(write: bool) | Kill

  datatype Choice = Choice(i: nat, act: Action)

  function At(s: State, i: nat, pc: Pc<Body>): State
    requires i < |s.m.th|
  {
    s.(m := Goto(s.m, i, pc))
  }

  function Exit(s: State, i: nat, r: int, got: seq<Byte>): State
    requires i < |s.m.th|
  {
    s.(m := Leave(s.m, i, Done(r, got)))
  }

  /** A call starts; reads and writes check their counters first, without the lock. */
  function Begin(s: State, i: nat, act: Action): State
    requires i < |s.m.th|
  {
    match act
    case BeginRead(n) => if s.nread <= s.nwritten then At(s, i, Entering(ReadCheck(n))) else s.(panicked := true)
    case BeginWrite(buf) => if s.nread <= s.nwritten then At(s, i, Entering(WriteLoop(buf, 0))) else s.(panicked := true)
    case BeginClose(w) => At(s, i, Entering(Close(w)))
    case _ => s
  }

  function Pop(s: State): State {
    s.(nread := (s.nread + 1) % WRAP, consumed := s.consumed + [s.data[s.nread % PIPESZ]])
  }

  function Push(s: State, x: Byte): State {
    s.(data := s.data[s.nwritten % PIPESZ := x], nwritten := (s.nwritten + 1) % WRAP, produced := s.produced + [x])
  }

  /** The writer's way out of a full pipe. */
  predicate GivesUp(s: State, i: nat) {
    s.Full() && (!s.ropen || i in s.killed)
  }

  /** One step of the code under the pipe's lock. */
  function Inside(s: State, i: nat, b: Body): State
    requires i < |s.m.th|
  {
    match b
    case Idle => s
    case ReadCheck(n) =>
      if s.Empty() && s.wopen then
        if i in s.killed then Exit(s, i, -1, []) else At(s, i, SleepLock(NREAD, b))
      else At(s, i, In(ReadCopy(n, [])))
    case ReadCopy(n, got) =>
      if n == 0 || s.Empty() then At(s.(returned := s.returned + [got]), i, WakeLock(NWRITTEN, Finish(|got|, got)))
      else At(Pop(s), i, In(ReadCopy(n - 1, got + [s.data[s.nread % PIPESZ]])))
    case WriteLoop(buf, w) =>
      if w >= |buf| then At(s, i, WakeLock(NREAD, Finish(w, [])))
      else if GivesUp(s, i) then Exit(s, i, -1, [])
      else if s.Full() then At(s, i, WakeLock(NREAD, Notify(buf, w)))
      else At(Push(s, buf[w]), i, In(WriteLoop(buf, w + 1)))
    case Notify(buf, w) => At(s, i, SleepLock(NWRITTEN, WriteLoop(buf, w)))
    case Close(w) =>
      if w then At(s.(wopen := false), i, WakeLock(NREAD, Finish(0, [])))
      else At(s.(ropen := false), i, WakeLock(NWRITTEN, Finish(0, [])))
    case Finish(r, got) => Exit(s, i, r, got)
    case Done(_, _) => s
  }

  function Next(s: State, c: Choice): State {
    if s.panicked || c.i >= |s.m.th| then s
    else if c.act.Kill? then s.(killed := s.killed + {c.i})
    else
      match s.m.th[c.i].pc
      case Out(_) => Begin(s, c.i, c.act)
      case In(b) => Inside(s, c.i, b)
      case _ => s.(m := Proto(s.m, c.i))
  }

  /** A new pipe shared by some processes, none of them in a call. */
  function New(n: nat, junk: Ring): State {
    State(Mon(None, None, seq(n, i => Thread(Out(Idle), false))), junk, 0, 0, true, true, {}, false, [], [], [])
  }

  function Run(s: State, cs: seq<Choice>): State
    decreases |cs|
  {
    if cs == [] then s else Run(Next(s, cs[0]), cs[1..])
  }

  // --------------------------------------------------------------- the queue

  /** The live part of the ring, as the counters delimit it, is what was produced and not yet consumed. */
  ghost predicate Fifo(s: State) {
    && |s.consumed| <= |s.produced| <= |s.consumed| + PIPESZ
    && s.nread == |s.consumed| % WRAP && s.nwritten == |s.produced| % WRAP
    && s.consumed == s.produced[..|s.consumed|]
    && (forall k: nat :: |s.consumed| <= k < |s.produced| ==> s.data[k % PIPESZ] == s.produced[k])
  }

  lemma Counters(s: State)
    requires Fifo(s)
    ensures s.Empty() <==> |s.produced| == |s.consumed|
    ensures s.Full() <==> |s.produced| == |s.consumed| + PIPESZ
    ensures s.nread % PIPESZ == |s.consumed| % PIPESZ && s.nwritten % PIPESZ == |s.produced| % PIPESZ
  {
    WrapEq(|s.consumed|, |s.produced| - |s.consumed|);
    WrapEq(|s.consumed|, PIPESZ);
    RingIndex(|s.consumed|);
    RingIndex(|s.produced|);
  }

  lemma WrapEq(a: nat, d: nat)
    requires d <= PIPESZ
    ensures (a + d) % WRAP == (a % WRAP + d) % WRAP
    ensures (a + d) % WRAP == if a % WRAP + d < WRAP then a % WRAP + d else a % WRAP + d - WRAP
  {
    var q, r := a / WRAP, a % WRAP;
    assert a == q * WRAP + r;
    var x := if r + d < WRAP then r + d else r + d - WRAP;
    var k := if r + d < WRAP then q else q + 1;
    Quotient(a + d, k, x);
    Quotient(r + d, if r + d < WRAP then 0 else 1, x);
  }

  lemma Quotient(n: nat, q: nat, r: nat)
    requires n == q * WRAP + r && r < WRAP
    ensures n % WRAP == r
  {
    assert (n / WRAP - q) * WRAP == r - n % WRAP;
  }

  lemma RingIndex(a: nat)
    ensures (a % WRAP) % PIPESZ == a % PIPESZ
  {
    var q, r := a / WRAP, a % WRAP;
    assert a == (q * (WRAP / PIPESZ)) * PIPESZ + r;
    var q1, r1 := r / PIPESZ, r % PIPESZ;
    assert a == (q * (WRAP / PIPESZ) + q1) * PIPESZ + r1;
    var z := a / PIPESZ - (q * (WRAP / PIPESZ) + q1);
    assert z * PIPESZ == r1 - a % PIPESZ;
  }

  lemma PopFifo(s: State)
    requires Fifo(s) && !s.Empty()
    ensures Fifo(Pop(s))
  {
    Counters(s);
    WrapEq(|s.consumed|, 1);
    var k := |s.consumed|;
    assert s.data[k % PIPESZ] == s.produced[k];
    assert s.produced[..k + 1] == s.produced[..k] + [s.produced[k]];
  }

  lemma PushFifo(s: State, x: Byte)
    requires Fifo(s) && !s.Full()
    ensures Fifo(Push(s, x))
  {
    Counters(s);
    WrapEq(|s.produced|, 1);
    var s' := Push(s, x);
    forall k: nat | |s.consumed| <= k < |s'.produced| ensures s'.data[k % PIPESZ] == s'.produced[k] {
      if k < |s.produced| {
        SlotsDiffer(k, |s.produced|);
      }
    }
  }

  lemma SlotsDiffer(j: nat, k: nat)
    requires j < k < j + PIPESZ
    ensures j % PIPESZ != k % PIPESZ
  {
    assert (k / PIPESZ - j / PIPESZ) * PIPESZ == k - j + j % PIPESZ - k % PIPESZ;
  }

  /** The check at the start of a call passes exactly while both counters have wrapped equally often. */
  lemma CounterCheck(s: State)
    requires Fifo(s)
    ensures s.nread <= s.nwritten <==> |s.consumed| / WRAP == |s.produced| / WRAP
  {
    WrapEq(|s.consumed|, |s.produced| - |s.consumed|);
    var a, b := |s.consumed|, |s.produced|;
    assert a == (a / WRAP) * WRAP + a % WRAP && b == (b / WRAP) * WRAP + b % WRAP;
    assert (b / WRAP - a / WRAP) * WRAP == b - a + a % WRAP - b % WRAP;
  }

  // --------------------------------------------------------------- sleepers

  /** What the code knows of the pipe at the points where it holds the lock and is about to sleep. */
  ghost predicate PcOk(s: State, pc: Pc<Body>) {
    && (pc.SleepLock? || pc.SleepRelease? ==>
          || (pc.c == NREAD && pc.b.ReadCheck? && s.Empty() && s.wopen)
          || (pc.c == NWRITTEN && pc.b.WriteLoop? && s.Full() && s.ropen))
    && (pc.WakeLock? || pc.WakeScan? ==> pc.b.Finish? || (pc.b.Notify? && pc.c == NREAD))
    && (pc.b.Notify? ==> HoldsLk(pc) && s.Full() && s.ropen)
    && (pc.b.Idle? || pc.b.Done? ==> pc.Out?)
  }

  ghost predicate Inv(s: State) {
    && MonOk(s.m) && Fifo(s)
    && (forall i: nat :: i < |s.m.th| ==> PcOk(s, s.m.th[i].pc))
    && (s.panicked ==> WRAP <= |s.produced|)
  }

  predicate WakesReaders(pc: Pc<Body>) {
    (pc.In? && pc.b.WriteLoop?) || ((pc.WakeLock? || pc.WakeScan?) && pc.c == NREAD)
  }

  predicate WakesWriters(pc: Pc<Body>) {
    (pc.In? && pc.b.ReadCopy?) || ((pc.WakeLock? || pc.WakeScan?) && pc.c == NWRITTEN)
  }

  /** Some process holds the lock and its code will wake the channel before it lets go, if it does not give up. */
  ghost predicate WakeupDue(s: State, c: nat) {
    && s.m.lk.Some? && s.m.lk.value < |s.m.th|
    && var pc := s.m.th[s.m.lk.value].pc;
       if c == NREAD then WakesReaders(pc) else WakesWriters(pc)
  }

  ghost predicate ReadersOk(s: State) {
    SomeSleeper(s.m, NREAD) ==> (s.Empty() && s.wopen) || WakeupDue(s, NREAD)
  }

  ghost predicate WritersOk(s: State) {
    SomeSleeper(s.m, NWRITTEN) ==> (s.Full() && s.ropen) || WakeupDue(s, NWRITTEN)
  }

  /** With the lock free, sleeping readers have an empty pipe with a writer, sleeping writers a full one with a reader. */
  ghost predicate NoLost(s: State) {
    s.m.lk.None? ==>
      && (SomeSleeper(s.m, NREAD) ==> s.Empty() && s.wopen)
      && (SomeSleeper(s.m, NWRITTEN) ==> s.Full() && s.ropen)
      && !(SomeSleeper(s.m, NREAD) && SomeSleeper(s.m, NWRITTEN))
  }

  /** The step in which a writer gives up at a full pipe although a reader sleeps. */
  ghost predicate Strands(s: State, c: Choice) {
    && !s.panicked && c.i < |s.m.th| && !c.act.Kill?
    && s.m.th[c.i].pc.In? && s.m.th[c.i].pc.b.WriteLoop? && s.m.th[c.i].pc.b.w < |s.m.th[c.i].pc.b.buf|
    && GivesUp(s, c.i) && SomeSleeper(s.m, NREAD)
  }

  // ------------------------------------------------------------- each step

  /** A process that moves keeps what the others know: they hold no lock, or the pipe did not change. */
  lemma OthersKnow(s: State, s': State, i: nat)
    requires Inv(s) && i < |s.m.th| == |s'.m.th|
    requires forall j: nat :: j < |s.m.th| && j != i ==> s'.m.th[j].pc == s.m.th[j].pc
    requires HoldsLk(s.m.th[i].pc) || (s'.nread == s.nread && s'.nwritten == s.nwritten && s'.ropen == s.ropen && s'.wopen == s.wopen)
    ensures forall j: nat :: j < |s.m.th| && j != i ==> PcOk(s', s'.m.th[j].pc)
  {
    assert ThreadOk(s.m, i);
    forall j: nat | j < |s.m.th| && j != i ensures PcOk(s', s'.m.th[j].pc) {
      assert ThreadOk(s.m, j);
      assert PcOk(s, s.m.th[j].pc);
    }
  }

  lemma ProtoInv(s: State, i: nat)
    requires Inv(s) && i < |s.m.th|
    ensures Inv(s.(m := Proto(s.m, i)))
  {
    ProtoKeeps(s.m, i);
    OthersKnow(s, s.(m := Proto(s.m, i)), i);
    assert PcOk(s, s.m.th[i].pc);
  }

  lemma ProtoNoLost(s: State, i: nat)
    requires Inv(s) && i < |s.m.th| && ReadersOk(s) && WritersOk(s)
    ensures var s' := s.(m := Proto(s.m, i));
            ReadersOk(s') && WritersOk(s')
  {
    hide Fifo;
    var s' := s.(m := Proto(s.m, i));
    var pc := s.m.th[i].pc;
    assert PcOk(s, pc) && ThreadOk(s.m, i);
    ProtoKeeps(s.m, i);
    if SomeSleeper(s'.m, NREAD) {
      var j: nat :| j < |s'.m.th| && Sleeper(s'.m, j, NREAD);
      ProtoSleepers(s.m, i, j, NREAD);
    }
    if SomeSleeper(s'.m, NWRITTEN) {
      var j: nat :| j < |s'.m.th| && Sleeper(s'.m, j, NWRITTEN);
      ProtoSleepers(s.m, i, j, NWRITTEN);
    }
    if s.m.lk.Some? && s.m.lk.value != i {
      assert s'.m.lk == s.m.lk;
    }
  }

  lemma BeginInv(s: State, i: nat, act: Action)
    requires Inv(s) && i < |s.m.th| && s.m.th[i].pc.Out? && !s.panicked
    ensures Inv(Begin(s, i, act))
  {
    var s' := Begin(s, i, act);
    CounterCheck(s);
    if s'.m != s.m {
      MoveKeeps(s.m, i, s'.m.th[i].pc);
      OthersKnow(s, s', i);
    }
  }

  lemma BeginNoLost(s: State, i: nat, act: Action)
    requires Inv(s) && i < |s.m.th| && s.m.th[i].pc.Out? && ReadersOk(s) && WritersOk(s)
    ensures ReadersOk(Begin(s, i, act)) && WritersOk(Begin(s, i, act))
  {
    hide Fifo, PcOk, MonOk, Sleeper, SomeSleeper;
    var s' := Begin(s, i, act);
    if s'.m != s.m {
      Outside(s.m, i);
      MoveKeeps(s.m, i, s'.m.th[i].pc);
      KeptSleepers(s.m, s'.m, NREAD);
      KeptSleepers(s.m, s'.m, NWRITTEN);
    }
  }

  lemma Outside(m: Mon<Body>, i: nat)
    requires MonOk(m) && i < |m.th| && m.th[i].pc.Out?
    ensures m.lk != Some(i)
  {
    assert ThreadOk(m, i);
  }

  /** The process moves on under the lock, or leaves it. */
  ghost predicate MovesOn(s: State, s': State, i: nat)
    requires i < |s.m.th|
  {
    && s'.panicked == s.panicked && |s'.m.th| == |s.m.th| && |s'.produced| >= |s.produced|
    && (s'.m == s.m || (s'.m.th[i].pc.Out? && s'.m == Leave(s.m, i, s'.m.th[i].pc.b)) ||
        (s'.m == Goto(s.m, i, s'.m.th[i].pc) && HoldsLk(s'.m.th[i].pc) && !HoldsPt(s'.m.th[i].pc)))
    && PcOk(s', s'.m.th[i].pc)
  }

  lemma QueueOnly(s: State, x: Byte)
    ensures Pop(s) == s.(nread := Pop(s).nread, consumed := Pop(s).consumed)
    ensures Push(s, x) == s.(data := Push(s, x).data, nwritten := Push(s, x).nwritten, produced := s.produced + [x])
  {
  }

  lemma CheckShape(s: State, i: nat, b: Body)
    requires i < |s.m.th| && s.m.th[i].pc == In(b) && b.ReadCheck?
    ensures MovesOn(s, Inside(s, i, b), i)
  {
    hide Pop, Push, GivesUp;
  }

  lemma CopyShape(s: State, i: nat, b: Body)
    requires i < |s.m.th| && s.m.th[i].pc == In(b) && b.ReadCopy?
    ensures MovesOn(s, Inside(s, i, b), i)
  {
    hide Pop, Push, GivesUp;
    QueueOnly(s, 0);
  }

  lemma WriteShape(s: State, i: nat, b: Body)
    requires i < |s.m.th| && s.m.th[i].pc == In(b) && (b.WriteLoop? || b.Notify?) && PcOk(s, In(b))
    ensures MovesOn(s, Inside(s, i, b), i)
  {
    hide Pop, Push;
    if b.WriteLoop? && b.w < |b.buf| {
      QueueOnly(s, b.buf[b.w]);
    }
  }

  lemma InsideShape(s: State, i: nat, b: Body)
    requires i < |s.m.th| && s.m.th[i].pc == In(b) && PcOk(s, In(b))
    ensures MovesOn(s, Inside(s, i, b), i)
  {
    if b.ReadCheck? {
      CheckShape(s, i, b);
    } else if b.ReadCopy? {
      CopyShape(s, i, b);
    } else if b.WriteLoop? || b.Notify? {
      WriteShape(s, i, b);
    }
  }

  lemma InsideMoves(s: State, i: nat)
    requires Inv(s) && i < |s.m.th| && s.m.th[i].pc.In?
    ensures var s' := Inside(s, i, s.m.th[i].pc.b);
            && MonOk(s'.m) && |s'.m.th| == |s.m.th| && s.m.lk == Some(i)
            && (forall j: nat :: j < |s.m.th| && j != i ==> s'.m.th[j] == s.m.th[j])
            && (s'.m.lk == Some(i) || s'.m.lk == None)
            && SomeSleeper(s'.m, NREAD) == SomeSleeper(s.m, NREAD)
            && SomeSleeper(s'.m, NWRITTEN) == SomeSleeper(s.m, NWRITTEN)
  {
    hide Fifo, Inside, PcOk, HoldsLk, HoldsPt, Sleeper, SomeSleeper;
    var s' := Inside(s, i, s.m.th[i].pc.b);
    assert PcOk(s, s.m.th[i].pc);
    InsideShape(s, i, s.m.th[i].pc.b);
    var pc := s'.m.th[i].pc;
    assert ThreadOk(s.m, i);
    Holding(s.m.th[i].pc);
    if pc.Out? && s'.m == Leave(s.m, i, pc.b) {
      LeaveKeeps(s.m, i, pc.b);
    } else if s'.m != s.m {
      Holding(pc);
      MoveKeeps(s.m, i, pc);
    }
    KeptSleepers(s.m, s'.m, NREAD);
    KeptSleepers(s.m, s'.m, NWRITTEN);
  }

  lemma Holding(pc: Pc<Body>)
    ensures pc.In? ==> HoldsLk(pc)
    ensures !HoldsPt(pc) ==> !pc.SleepSwitch?
  {
  }

  lemma InsideInv(s: State, i: nat)
    requires Inv(s) && i < |s.m.th| && s.m.th[i].pc.In? && !s.panicked
    ensures Inv(Inside(s, i, s.m.th[i].pc.b))
  {
    hide Fifo, Inside, PcOk, HoldsLk, MonOk, SomeSleeper;
    var b := s.m.th[i].pc.b;
    var s' := Inside(s, i, b);
    assert PcOk(s, s.m.th[i].pc);
    InsideShape(s, i, b);
    InsideMoves(s, i);
    Holding(s.m.th[i].pc);
    OthersKnow(s, s', i);
    InsideFifo(s, i, b);
  }

  ghost predicate SameQueue(s: State, s': State) {
    s'.data == s.data && s'.nread == s.nread && s'.nwritten == s.nwritten && s'.produced == s.produced && s'.consumed == s.consumed
  }

  lemma InsideQueue(s: State, i: nat, b: Body)
    requires i < |s.m.th|
    ensures SameQueue(if b.ReadCopy? && b.n > 0 && !s.Empty() then Pop(s)
                      else if b.WriteLoop? && b.w < |b.buf| && !s.Full() then Push(s, b.buf[b.w]) else s, Inside(s, i, b))
  {
    hide Pop, Push;
  }

  lemma InsideFifo(s: State, i: nat, b: Body)
    requires Fifo(s) && i < |s.m.th|
    ensures Fifo(Inside(s, i, b))
  {
    hide Inside, Pop, Push;
    InsideQueue(s, i, b);
    if b.ReadCopy? && b.n > 0 && !s.Empty() {
      PopFifo(s);
    } else if b.WriteLoop? && b.w < |b.buf| && !s.Full() {
      PushFifo(s, b.buf[b.w]);
    }
  }

  lemma InsideNoLost(s: State, i: nat)
    requires Inv(s) && i < |s.m.th| && s.m.th[i].pc.In? && !s.panicked && ReadersOk(s) && WritersOk(s)
    requires !Strands(s, Choice(i, Go))
    ensures var s' := Inside(s, i, s.m.th[i].pc.b);
            ReadersOk(s') && WritersOk(s')
  {
    hide MonOk, Fifo, SomeSleeper;
    assert PcOk(s, s.m.th[i].pc);
    Counters(s);
    InsideMoves(s, i);
  }

  lemma StepInv(s: State, c: Choice)
    requires Inv(s)
    ensures Inv(Next(s, c))
  {
    hide Inside, Begin, Proto, MonOk, PcOk;
    if !s.panicked && c.i < |s.m.th| && !c.act.Kill? {
      match s.m.th[c.i].pc {
        case Out(_) => BeginInv(s, c.i, c.act);
        case In(_) => InsideInv(s, c.i);
        case _ => ProtoInv(s, c.i);
      }
    } else if c.act.Kill? {
      KillInv(s, c.i);
    }
  }

  lemma KillInv(s: State, i: nat)
    requires Inv(s)
    ensures Inv(s.(killed := s.killed + {i}))
  {
  }

  lemma StepNoLost(s: State, c: Choice)
    requires Inv(s) && ReadersOk(s) && WritersOk(s) && !Strands(s, c)
    ensures ReadersOk(Next(s, c)) && WritersOk(Next(s, c))
  {
    hide Inside, Begin, Proto, Inv, SomeSleeper;
    if !s.panicked && c.i < |s.m.th| && !c.act.Kill? {
      match s.m.th[c.i].pc {
        case Out(_) => BeginNoLost(s, c.i, c.act);
        case In(_) => InsideNoLost(s, c.i);
        case _ => ProtoNoLost(s, c.i);
      }
    }
  }

  lemma NewOk(n: nat, junk: Ring)
    ensures Inv(New(n, junk)) && ReadersOk(New(n, junk)) && WritersOk(New(n, junk))
  {
    var s := New(n, junk);
    assert forall i: nat :: i < |s.m.th| ==> s.m.th[i] == Thread(Out(Idle), false);
    assert forall i: nat :: i < |s.m.th| ==> ThreadOk(s.m, i);
  }

  // ------------------------------------------------------------- every run

  lemma {:induction false} RunInv(s: State, cs: seq<Choice>)
    requires Inv(s)
    ensures Inv(Run(s, cs))
    decreases |cs|
  {
    if cs != [] {
      StepInv(s, cs[0]);
      RunInv(Next(s, cs[0]), cs[1..]);
    }
  }

  /**
   The pipe is a FIFO: after any interleaving, the bytes read followed by the live part of the ring are the bytes
   written, the counters differ by at most the ring's size, and the counter check has not fired below 2^32 bytes.
   */
  lemma PipeIsFifo(n: nat, junk: Ring, cs: seq<Choice>)
    ensures var s := Run(New(n, junk), cs);
            && |s.consumed| <= |s.produced| <= |s.consumed| + PIPESZ
            && s.produced == s.consumed + Live(s)
            && (|s.produced| < WRAP ==> !s.panicked && s.nwritten - s.nread == |Live(s)|)
  {
    NewOk(n, junk);
    RunInv(New(n, junk), cs);
    var s := Run(New(n, junk), cs);
    LiveIsRest(s);
  }

  /** The ring from nread up to nwritten. */
  function Live(s: State): seq<Byte> {
    var d := (s.nwritten - s.nread) % WRAP;
    seq(d, k requires 0 <= k < d => s.data[((s.nread + k) % WRAP) % PIPESZ])
  }

  lemma LiveByte(s: State, k: nat)
    requires Fifo(s) && |s.consumed| + k < |s.produced|
    ensures s.data[((s.nread + k) % WRAP) % PIPESZ] == s.produced[|s.consumed| + k]
  {
    var j := |s.consumed| + k;
    WrapEq(|s.consumed|, k);
    RingIndex(j);
    assert s.data[j % PIPESZ] == s.produced[j];
  }

  lemma LiveIsRest(s: State)
    requires Fifo(s)
    ensures s.produced == s.consumed + Live(s)
  {
    var a, b := |s.consumed|, |s.produced|;
    WrapEq(a, b - a);
    assert |Live(s)| == b - a;
    forall k: nat | k < b - a ensures Live(s)[k] == s.produced[a + k] {
      LiveByte(s, k);
    }
  }

  // ------------------------------------------------------------ what reads return

  function Concat(bs: seq<seq<Byte>>): seq<Byte> {
    if bs == [] then [] else Concat(bs[..|bs| - 1]) + bs[|bs| - 1]
  }

  predicate Copying(pc: Pc<Body>) { pc.In? && pc.b.ReadCopy? }

  /** What the read under way has in its buffer; it holds the lock, so there is at most one. */
  ghost function InHand(s: State): seq<Byte> {
    if s.m.lk.Some? && s.m.lk.value < |s.m.th| && Copying(s.m.th[s.m.lk.value].pc) then s.m.th[s.m.lk.value].pc.b.got else []
  }

  /** The buffers of the finished reads, in order, and of the one under way hold the bytes consumed. */
  ghost predicate Delivered(s: State) {
    && s.consumed == Concat(s.returned) + InHand(s)
    && forall i: nat :: i < |s.m.th| && s.m.th[i].pc.b.ReadCopy? ==> s.m.th[i].pc.In?
  }

  lemma DeliveredProto(s: State, i: nat)
    requires Inv(s) && Delivered(s) && i < |s.m.th|
    ensures Delivered(s.(m := Proto(s.m, i)))
  {
    hide Fifo, PcOk, Concat;
    assert ThreadOk(s.m, i);
  }

  /** Leaving or moving on, process i alone changes. */
  lemma HandMoves(s: State, s': State, i: nat, got: seq<Byte>)
    requires i < |s.m.th| && s.m.lk == Some(i) && Delivered(s)
    requires s'.m == s.m || (|s'.m.th| == |s.m.th| && s'.m.th[i].pc.Out? && s'.m == Leave(s.m, i, s'.m.th[i].pc.b)) || (|s'.m.th| == |s.m.th| && s'.m == Goto(s.m, i, s'.m.th[i].pc))
    requires Copying(s'.m.th[i].pc) ==> s'.m.lk == Some(i) && s'.m.th[i].pc.b.got == got
    requires !Copying(s'.m.th[i].pc) ==> got == [] && !s'.m.th[i].pc.b.ReadCopy?
    requires s'.consumed == Concat(s'.returned) + got
    ensures Delivered(s')
  {
    hide Concat;
  }

  lemma DeliveredInside(s: State, i: nat)
    requires Inv(s) && Delivered(s) && i < |s.m.th| && s.m.th[i].pc.In?
    ensures Delivered(Inside(s, i, s.m.th[i].pc.b))
  {
    hide Inv, Inside, MovesOn, PcOk, Concat;
    HoldsIt(s, i);
    if s.m.th[i].pc.b.ReadCopy? {
      DeliveredCopy(s, i);
    } else {
      DeliveredOther(s, i);
    }
  }

  lemma HoldsIt(s: State, i: nat)
    requires Inv(s) && i < |s.m.th| && s.m.th[i].pc.In?
    ensures s.m.lk == Some(i) && PcOk(s, s.m.th[i].pc)
  {
    assert ThreadOk(s.m, i);
  }

  lemma DeliveredCopy(s: State, i: nat)
    requires Delivered(s) && i < |s.m.th| && s.m.lk == Some(i) && s.m.th[i].pc.In? && s.m.th[i].pc.b.ReadCopy?
    ensures Delivered(Inside(s, i, s.m.th[i].pc.b))
  {
    hide Concat;
    var b := s.m.th[i].pc.b;
    var s' := Inside(s, i, b);
    ConcatMore(s.returned, b.got);
    HandMoves(s, s', i, if b.n == 0 || s.Empty() then [] else b.got + [s.data[s.nread % PIPESZ]]);
  }

  /** Nothing is consumed or returned; a read that starts copying has an empty buffer. */
  ghost predicate HandKept(s: State, s': State, i: nat) {
    && s'.consumed == s.consumed && s'.returned == s.returned && i < |s'.m.th|
    && var pc := s'.m.th[i].pc;
       if Copying(pc) then pc.b.got == [] && s'.m.lk == Some(i) else !pc.b.ReadCopy?
  }

  lemma WriteHand(s: State, i: nat, b: Body)
    requires i < |s.m.th| && b.WriteLoop?
    ensures HandKept(s, Inside(s, i, b), i)
  {
    hide Push, GivesUp;
    if b.w < |b.buf| {
      QueueOnly(s, b.buf[b.w]);
    }
  }

  lemma OtherHand(s: State, i: nat, b: Body)
    requires i < |s.m.th| && s.m.lk == Some(i) && s.m.th[i].pc == In(b) && !b.ReadCopy?
    ensures HandKept(s, Inside(s, i, b), i)
  {
    if b.WriteLoop? {
      hide Inside;
      WriteHand(s, i, b);
    }
  }

  lemma DeliveredOther(s: State, i: nat)
    requires Delivered(s) && i < |s.m.th| && s.m.lk == Some(i) && s.m.th[i].pc.In? && !s.m.th[i].pc.b.ReadCopy?
    requires PcOk(s, s.m.th[i].pc)
    ensures Delivered(Inside(s, i, s.m.th[i].pc.b))
  {
    hide Concat, Inside, PcOk;
    InsideShape(s, i, s.m.th[i].pc.b);
    OtherHand(s, i, s.m.th[i].pc.b);
    HandMoves(s, Inside(s, i, s.m.th[i].pc.b), i, []);
  }

  lemma ConcatMore(bs: seq<seq<Byte>>, b: seq<Byte>)
    ensures Concat(bs + [b]) == Concat(bs) + b
  {
    assert (bs + [b])[..|bs|] == bs;
  }

  lemma DeliveredStep(s: State, c: Choice)
    requires Inv(s) && Delivered(s)
    ensures Delivered(Next(s, c))
  {
    hide Inside, Proto, Inv, Concat;
    if !s.panicked && c.i < |s.m.th| && !c.act.Kill? {
      match s.m.th[c.i].pc {
        case Out(_) => OutsideInv(s, c.i);
        case In(_) => DeliveredInside(s, c.i);
        case _ => DeliveredProto(s, c.i);
      }
    }
  }

  lemma OutsideInv(s: State, i: nat)
    requires Inv(s) && i < |s.m.th| && s.m.th[i].pc.Out?
    ensures s.m.lk != Some(i)
  {
    Outside(s.m, i);
  }

  lemma {:induction false} RunDelivers(s: State, cs: seq<Choice>)
    requires Inv(s) && Delivered(s)
    ensures Delivered(Run(s, cs))
    decreases |cs|
  {
    hide Delivered, Inv, Next;
    if cs != [] {
      StepInv(s, cs[0]);
      DeliveredStep(s, cs[0]);
      RunDelivers(Next(s, cs[0]), cs[1..]);
    }
  }

  /** The buffers that reads return, in the order they held the lock, are the written stream up to what is unread. */
  lemma ReadsReturnStream(n: nat, junk: Ring, cs: seq<Choice>)
    ensures var s := Run(New(n, junk), cs);
            s.produced == Concat(s.returned) + InHand(s) + Live(s)
  {
    NewOk(n, junk);
    var s0 := New(n, junk);
    assert forall i: nat :: i < |s0.m.th| ==> s0.m.th[i] == Thread(Out(Idle), false);
    assert Delivered(s0);
    RunDelivers(s0, cs);
    RunInv(s0, cs);
    LiveIsRest(Run(s0, cs));
  }

  // ------------------------------------------------------------- lost wakeups

  ghost predicate AlwaysNoLost(s: State, cs: seq<Choice>)
    decreases |cs|
  {
    NoLost(s) && (cs != [] ==> AlwaysNoLost(Next(s, cs[0]), cs[1..]))
  }

  ghost predicate NeverStrands(s: State, cs: seq<Choice>)
    decreases |cs|
  {
    cs != [] ==> !Strands(s, cs[0]) && NeverStrands(Next(s, cs[0]), cs[1..])
  }

  lemma NotBoth(s: State)
    requires Inv(s) && ReadersOk(s) && WritersOk(s)
    ensures NoLost(s)
  {
    Counters(s);
  }

  lemma StrandedLoses(s: State, c: Choice)
    requires Inv(s) && Strands(s, c)
    ensures !NoLost(Next(s, c))
  {
    InsideMoves(s, c.i);
    Counters(s);
  }

  lemma {:induction false} LostIffStranded(s: State, cs: seq<Choice>)
    requires Inv(s) && ReadersOk(s) && WritersOk(s)
    ensures AlwaysNoLost(s, cs) <==> NeverStrands(s, cs)
    decreases |cs|
  {
    hide Inv, ReadersOk, WritersOk, NoLost, Strands, Next;
    NotBoth(s);
    if cs != [] {
      if Strands(s, cs[0]) {
        StrandedLoses(s, cs[0]);
      } else {
        StepInv(s, cs[0]);
        StepNoLost(s, cs[0]);
        LostIffStranded(Next(s, cs[0]), cs[1..]);
      }
    }
  }

  /** No wakeup is lost in a run exactly if no writer gives up at a full pipe while a reader sleeps. */
  lemma NoLostWakeups(n: nat, junk: Ring, cs: seq<Choice>)
    ensures AlwaysNoLost(New(n, junk), cs) <==> NeverStrands(New(n, junk), cs)
  {
    NewOk(n, junk);
    LostIffStranded(New(n, junk), cs);
  }

  /** In pipe_write, from the call to its return. */
  predicate Writing(pc: Pc<Body>) {
    pc.b.WriteLoop? || pc.b.Notify?
  }

  /** No process in pipe_write is killed, and nobody sleeps to read from a pipe whose read end is closed. */
  ghost predicate Calm(s: State) {
    && (forall i: nat :: i < |s.m.th| && i in s.killed ==> !Writing(s.m.th[i].pc))
    && (s.ropen || !SomeSleeper(s.m, NREAD))
  }

  ghost predicate AlwaysCalm(s: State, cs: seq<Choice>)
    decreases |cs|
  {
    Calm(s) && (cs != [] ==> AlwaysCalm(Next(s, cs[0]), cs[1..]))
  }

  lemma {:induction false} CalmNeverStrands(s: State, cs: seq<Choice>)
    requires AlwaysCalm(s, cs)
    ensures NeverStrands(s, cs)
    decreases |cs|
  {
    hide Next;
    if cs != [] {
      CalmNeverStrands(Next(s, cs[0]), cs[1..]);
    }
  }

  /** No wakeup is lost while no process in pipe_write is killed and the read end is not closed over a sleeping reader. */
  lemma NoLostWhileCalm(n: nat, junk: Ring, cs: seq<Choice>)
    requires AlwaysCalm(New(n, junk), cs)
    ensures AlwaysNoLost(New(n, junk), cs)
  {
    hide AlwaysCalm, AlwaysNoLost, NeverStrands;
    CalmNeverStrands(New(n, junk), cs);
    NoLostWakeups(n, junk, cs);
  }

  // ------------------------------------------------------ a run that loses one

  /** A killed writer with more to write than fits fills the pipe and gives up, past any sleeping reader. */
  lemma {:induction false} FillsUp(s: State, i: nat) returns (cs: seq<Choice>)
    requires Fifo(s) && !s.panicked && i < |s.m.th| && i in s.killed && s.m.th[i].pc.In? && s.m.th[i].pc.b.WriteLoop?
    requires |s.consumed| + PIPESZ + s.m.th[i].pc.b.w < |s.produced| + |s.m.th[i].pc.b.buf| && SomeSleeper(s.m, NREAD)
    ensures !NeverStrands(s, cs)
    decreases |s.consumed| + PIPESZ - |s.produced|
  {
    Counters(s);
    var c := Choice(i, Go);
    if s.Full() {
      return [c];
    }
    var buf, w := s.m.th[i].pc.b.buf, s.m.th[i].pc.b.w;
    var s' := Next(s, c);
    assert s' == At(Push(s, buf[w]), i, In(WriteLoop(buf, w + 1)));
    PushFifo(s, buf[w]);
    assert Fifo(s');
    StillSleeps(s.m, i, In(WriteLoop(buf, w + 1)));
    var rest := FillsUp(s', i);
    cs := [c] + rest;
    assert cs[1..] == rest;
  }

  lemma StillSleeps(m: Mon<Body>, i: nat, pc: Pc<Body>)
    requires i < |m.th| && m.th[i].pc.In? && SomeSleeper(m, NREAD)
    ensures SomeSleeper(Goto(m, i, pc), NREAD)
  {
    var j: nat :| j < |m.th| && Sleeper(m, j, NREAD);
    assert Sleeper(Goto(m, i, pc), j, NREAD);
  }

  /** A reader goes to sleep, then a process that is killed inside pipe_write writes 513 bytes: the pipe is full and the reader sleeps on. */
  lemma LosesOne(junk: Ring) returns (cs: seq<Choice>)
    ensures !AlwaysNoLost(New(2, junk), cs)
  {
    hide NeverStrands, AlwaysNoLost;
    var buf: seq<Byte> := seq(PIPESZ + 1, _ => 0);
    var r, w := Choice(0, Go), Choice(1, Go);
    var kill, read, write := Choice(1, Kill), Choice(0, BeginRead(1)), Choice(1, BeginWrite(buf));
    var s0 := New(2, junk);
    var s1 := Next(s0, read);
    var s5 := ReaderSleeps(s1);
    var s6 := Next(s5, write);
    var s7 := Next(s6, w);
    var s8 := Next(s7, kill);
    assert Sleeper(s8.m, 0, NREAD);
    cs := FillsUp(s8, 1);
    hide *;
    cs := Prefix(s7, kill, cs);
    cs := Prefix(s6, w, cs);
    cs := Prefix(s5, write, cs);
    cs := Prefix(Next(Next(Next(s1, r), r), r), r, cs);
    cs := Prefix(Next(Next(s1, r), r), r, cs);
    cs := Prefix(Next(s1, r), r, cs);
    cs := Prefix(s1, r, cs);
    cs := Prefix(s0, read, cs);
    NoLostWakeups(2, junk, cs);
  }

  lemma ReaderSleeps(s: State) returns (s': State)
    requires |s.m.th| == 2 && s.m.th[0] == Thread(Entering(ReadCheck(1)), false) && s.m.lk == None && s.m.pt == None
    requires s.Empty() && s.wopen && 0 !in s.killed && !s.panicked
    ensures s' == Next(Next(Next(Next(s, Choice(0, Go)), Choice(0, Go)), Choice(0, Go)), Choice(0, Go))
    ensures s' == s.(m := s'.m) && Sleeper(s'.m, 0, NREAD) && s'.m.lk == None && |s'.m.th| == 2 && s'.m.th[1] == s.m.th[1]
  {
    var r := Choice(0, Go);
    var s1 := Next(s, r);
    assert s1 == s.(m := Goto(s.m, 0, In(ReadCheck(1))).(lk := Some(0)));
    var s2 := Next(s1, r);
    assert s2 == s.(m := Goto(s.m, 0, SleepLock(NREAD, ReadCheck(1))).(lk := Some(0)));
    var s3 := Next(s2, r);
    s' := Next(s3, r);
  }

  lemma Prefix(s: State, c: Choice, rest: seq<Choice>) returns (cs: seq<Choice>)
    requires !NeverStrands(Next(s, c), rest)
    ensures !NeverStrands(s, cs)
  {
    cs := [c] + rest;
    assert cs[1..] == rest;
  }

  // ------------------------------------------------- a run in which the check fires

  /** Process 0 is alone and in no call. */
  predicate Quiet(s: State) {
    && |s.m.th| == 1 && s.m.th[0].pc.Out? && s.m == Mon(None, None, [Thread(s.m.th[0].pc, false)])
    && !s.panicked && s.ropen && s.wopen && s.killed == {}
  }

  function Goes(s: State, n: nat): State
    decreases n
  {
    if n == 0 then s else Goes(Next(s, Choice(0, Go)), n - 1)
  }

  lemma {:induction false} RunGoes(s: State, n: nat, rest: seq<Choice>)
    ensures Run(s, seq(n, _ => Choice(0, Go)) + rest) == Run(Goes(s, n), rest)
    decreases n
  {
    var cs := seq(n, _ => Choice(0, Go)) + rest;
    if n == 0 {
      assert cs == rest;
    } else {
      assert cs[1..] == seq(n - 1, _ => Choice(0, Go)) + rest;
      RunGoes(Next(s, Choice(0, Go)), n - 1, rest);
    }
  }

  /** Process 0, alone, at pc. */
  function Alone(s: State, lk: Option<nat>, pt: Option<nat>, pc: Pc<Body>): State {
    s.(m := Mon(lk, pt, [Thread(pc, false)]))
  }

  lemma WriteOne(s: State)
    requires Quiet(s) && !s.Full() && s.nread <= s.nwritten
    ensures Goes(Next(s, Choice(0, BeginWrite([0]))), 6) == Alone(Push(s, 0), None, None, Out(Done(1, [])))
  {
    var s1 := Next(s, Choice(0, BeginWrite([0])));
    assert s1 == Alone(s, None, None, Entering(WriteLoop([0], 0)));
    var s2 := Next(s1, Choice(0, Go));
    assert s2 == Alone(s, Some(0), None, In(WriteLoop([0], 0)));
    var s3 := Next(s2, Choice(0, Go));
    assert s3.m.th == [Thread(In(WriteLoop([0], 1)), false)];
    assert s3 == Alone(Push(s, 0), Some(0), None, In(WriteLoop([0], 1)));
    Notified(s3, Push(s, 0), NREAD, 1, []);
    assert Goes(s1, 6) == Goes(s2, 5) == Goes(s3, 4);
  }

  lemma ReadOne(s: State)
    requires Quiet(s) && !s.Empty() && s.nread <= s.nwritten
    ensures var x := s.data[s.nread % PIPESZ];
            Goes(Next(s, Choice(0, BeginRead(1))), 7)
            == Alone(Pop(s).(returned := s.returned + [[x]]), None, None, Out(Done(1, [x])))
  {
    var x := s.data[s.nread % PIPESZ];
    var s1 := Next(s, Choice(0, BeginRead(1)));
    assert s1 == Alone(s, None, None, Entering(ReadCheck(1)));
    var s2 := Next(s1, Choice(0, Go));
    assert s2 == Alone(s, Some(0), None, In(ReadCheck(1)));
    var s3 := Next(s2, Choice(0, Go));
    assert s3 == Alone(s, Some(0), None, In(ReadCopy(1, [])));
    var s4 := Next(s3, Choice(0, Go));
    OneMore(x);
    assert s4.m.th == [Thread(In(ReadCopy(0, [x])), false)];
    assert s4 == Alone(Pop(s), Some(0), None, In(ReadCopy(0, [x])));
    Notified(s4, Pop(s).(returned := s.returned + [[x]]), NWRITTEN, 1, [x]);
    assert Goes(s1, 7) == Goes(s2, 6) == Goes(s3, 5) == Goes(s4, 4);
  }

  /** The end of a call: the other side is woken and the lock released. */
  lemma Notified(s: State, s': State, c: nat, r: int, got: seq<Byte>)
    requires |s.m.th| == 1 && !s.panicked && s.m == Mon(Some(0), None, [Thread(s.m.th[0].pc, false)]) && s.m.th[0].pc.In?
    requires !s'.panicked && Next(s, Choice(0, Go)) == Alone(s', Some(0), None, WakeLock(c, Finish(r, got)))
    ensures Goes(s, 4) == Alone(s', None, None, Out(Done(r, got)))
  {
    var s1, s2 := Next(s, Choice(0, Go)), Alone(s', Some(0), Some(0), WakeScan(c, Finish(r, got)));
    var s3, s4 := Alone(s', Some(0), None, In(Finish(r, got))), Alone(s', None, None, Out(Done(r, got)));
    Scanning(s', c, Finish(r, got));
    Scanned(s', c, Finish(r, got));
    Leaving(s', r, got);
    hide Next;
    assert Goes(s, 4) == Goes(s1, 3) == Goes(s2, 2) == Goes(s3, 1) == Goes(s4, 0);
  }

  lemma Scanning(s: State, c: nat, b: Body)
    requires !s.panicked
    ensures Next(Alone(s, Some(0), None, WakeLock(c, b)), Choice(0, Go)) == Alone(s, Some(0), Some(0), WakeScan(c, b))
  {
    assert [Thread(WakeLock(c, b), false)][0 := Thread(WakeScan(c, b), false)] == [Thread(WakeScan(c, b), false)];
  }

  lemma Scanned(s: State, c: nat, b: Body)
    requires !s.panicked
    ensures Next(Alone(s, Some(0), Some(0), WakeScan(c, b)), Choice(0, Go)) == Alone(s, Some(0), None, In(b))
  {
    assert WakeAll([Thread(WakeScan(c, b), false)], c)[0 := Thread(In(b), false)] == [Thread(In(b), false)];
  }

  lemma Leaving(s: State, r: int, got: seq<Byte>)
    requires !s.panicked
    ensures Next(Alone(s, Some(0), None, In(Finish(r, got))), Choice(0, Go)) == Alone(s, None, None, Out(Done(r, got)))
  {
    assert [Thread(In(Finish(r, got)), false)][0 := Thread(Out(Done(r, got)), false)] == [Thread(Out(Done(r, got)), false)];
  }

  lemma OneMore(x: Byte)
    ensures [] + [x] == [x]
  {
  }

  lemma RunCons(s: State, c: Choice, rest: seq<Choice>)
    ensures Run(s, [c] + rest) == Run(Next(s, c), rest)
  {
    assert ([c] + rest)[1..] == rest;
    hide Next;
  }

  /** What one byte in and one byte out leave. */
  lemma InAndOut(s: State, k: Counter, w: Body, r: Body)
    requires Quiet(s) && s.nread == s.nwritten == k
    ensures !s.Full()
    ensures var s1 := Alone(Push(s, 0), None, None, Out(w));
            && Quiet(s1)
            && (k == WRAP - 1 ==> Next(s1, Choice(0, BeginRead(1))).panicked)
            && (k < WRAP - 1 ==>
                  && !s1.Empty() && s1.nread <= s1.nwritten
                  && var s2 := Alone(Pop(s1), None, None, Out(r));
                     Quiet(s2) && s2.nread == s2.nwritten == k + 1)
  {
  }

  /** From k bytes written and read on, writing and reading one byte at a time up to the wrap, and then writing one more. */
  lemma {:induction false} FiresFrom(s: State, k: Counter) returns (cs: seq<Choice>)
    requires Quiet(s) && s.nread == s.nwritten == k
    ensures Run(s, cs).panicked
    decreases WRAP - k
  {
    hide Next, Push, Pop, Run, Goes;
    var go, write, read := Choice(0, Go), Choice(0, BeginWrite([0])), Choice(0, BeginRead(1));
    var s1 := Alone(Push(s, 0), None, None, Out(Done(1, [])));
    var x := s1.data[s1.nread % PIPESZ];
    InAndOut(s, k, Done(1, []), Done(1, [x]));
    WriteOne(s);
    var tail := [];
    if k == WRAP - 1 {
      RunNone(Next(s1, read));
    } else {
      ReadOne(s1);
      tail := FiresFrom(Alone(Pop(s1).(returned := s1.returned + [[x]]), None, None, Out(Done(1, [x]))), k + 1);
      RunGoes(Next(s1, read), 7, tail);
      tail := seq(7, _ => go) + tail;
    }
    RunCons(s1, read, tail);
    RunGoes(Next(s, write), 6, [read] + tail);
    cs := seq(6, _ => go) + ([read] + tail);
    RunCons(s, write, cs);
    cs := [write] + cs;
  }

  lemma RunNone(s: State)
    ensures Run(s, []) == s
  {
  }

  /** The check can stop the kernel: a process that has moved 2^32 - 1 bytes through a pipe, writes one more and then reads. */
  lemma CheckFires(junk: Ring) returns (cs: seq<Choice>)
    ensures Run(New(1, junk), cs).panicked
  {
    assert New(1, junk).m.th == [Thread(Out(Idle), false)];
    cs := FiresFrom(New(1, junk), 0);
  }
}
