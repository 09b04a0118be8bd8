/**
 What the callers of a pipe get: the history of a run, taken from its calls, returns and the bytes that move, and what every
 pipe_write, pipe_read and pipe_close has done by the time it returns.
 */
module PipeCalls {
  import opened Wrappers
  import opened Bytes
  import opened Monitor
  import opened Pipe

  datatype Call = ReadCall(n: nat) | WriteCall(buf: seq<Byte>) | CloseCall(write: bool)

  /** A byte read: the call that took it, and how many bytes had been written when it did. */
  datatype Taken = Taken(call: nat, made: nat)

  /** Call `call`, by process i, returned r with got in its buffer, in the step from state at. */
  datatype End = End(call: nat, i: nat, r: int, got: seq<Byte>, at: State)

  /** The calls in the order they began, the one each process is in, the call behind each byte written and each byte read, and the returns. */
  datatype History = History(calls: seq<Call>, cur: map<nat, nat>, put: seq<nat>, taken: seq<Taken>, ends: seq<End>)

  const NOTHING: History := History([], map[], [], [], [])

  predicate Begins(act: Action) {
    act.BeginRead? || act.BeginWrite? || act.BeginClose?
  }

  function CallOf(act: Action): Call
    requires Begins(act)
  {
    match act
    case BeginRead(n) => ReadCall(n)
    case BeginWrite(buf) => WriteCall(buf)
    case BeginClose(w) => CloseCall(w)
  }

  function ResultOf(b: Body): int {
    if b.Done? then b.r else -2
  }

  function BufferOf(b: Body): seq<Byte> {
    if b.Done? then b.got else []
  }

  /** The bytes that moved in this step are the running call's. */
  function Moved(h: History, k: nat, s: State, s': State): History {
    h.(put := if |s'.produced| > |s.produced| then h.put + [k] else h.put,
       taken := if |s'.consumed| > |s.consumed| then h.taken + [Taken(k, |s.produced|)] else h.taken)
  }

  function Note(h: History, s: State, c: Choice): History {
    var s' := Next(s, c);
    if c.i >= |s.m.th| || c.i >= |s'.m.th| then h
    else
      var was, now := s.m.th[c.i].pc.Out?, s'.m.th[c.i].pc.Out?;
      if was && !now && Begins(c.act) then h.(calls := h.calls + [CallOf(c.act)], cur := h.cur[c.i := |h.calls|])
      else if c.i !in h.cur then h
      else
        var k, h1 := h.cur[c.i], Moved(h, h.cur[c.i], s, s');
        if now then
          var b := s'.m.th[c.i].pc.b;
          h1.(ends := h.ends + [End(k, c.i, ResultOf(b), BufferOf(b), s)], cur := h.cur - {c.i})
        else h1
  }

  function HistoryOf(s: State, h: History, cs: seq<Choice>): History
    decreases |cs|
  {
    if cs == [] then h else HistoryOf(Next(s, cs[0]), Note(h, s, cs[0]), cs[1..])
  }

  function Count(log: seq<nat>, k: nat): nat {
    if log == [] then 0 else Count(log[..|log| - 1], k) + if log[|log| - 1] == k then 1 else 0
  }

  function Takers(log: seq<Taken>): seq<nat> {
    seq(|log|, p requires 0 <= p < |log| => log[p].call)
  }

  // --------------------------------------------------------------- the invariant

  /** The byte at p of the stream is the byte of its call's buffer that comes next. */
  ghost predicate PutOk(s: State, h: History, p: nat)
    requires p < |h.put| == |s.produced|
  {
    var k, n := h.put[p], Count(h.put[..p], h.put[p]);
    k < |h.calls| && h.calls[k].WriteCall? && n < |h.calls[k].buf| && s.produced[p] == h.calls[k].buf[n]
  }

  /** Read call k took the bytes got, in one go: the n bytes of the stream before place `end`, with `made` bytes written throughout. */
  ghost predicate TookLast(h: History, consumed: seq<Byte>, k: nat, got: seq<Byte>, end: nat, made: nat) {
    && |got| <= end <= |consumed| == |h.taken| && got == consumed[end - |got|..end]
    && (forall p :: end - |got| <= p < end ==> h.taken[p] == Taken(k, made))
    && Count(Takers(h.taken), k) == |got|
  }

  ghost predicate Got(s: State, h: History, k: nat, got: seq<Byte>) {
    TookLast(h, s.consumed, k, got, |s.consumed|, |s.produced|)
  }

  /** What holds when call k is about to return r other than -1. */
  ghost predicate Fulfilled(s: State, h: History, k: nat, r: int, got: seq<Byte>)
    requires k < |h.calls|
  {
    match h.calls[k]
    case ReadCall(n) => r == |got| <= n && Got(s, h, k, got) && (r == n || s.Empty()) && (r == 0 ==> n == 0 || !s.wopen)
    case WriteCall(buf) => r == |buf| && Count(h.put, k) == |buf| && got == []
    case CloseCall(w) => r == 0 && got == [] && if w then !s.wopen else !s.ropen
  }

  /** Call k stands at b of its code. */
  ghost predicate Standing(s: State, h: History, k: nat, b: Body) {
    k < |h.calls| &&
    match b
    case ReadCheck(n) => h.calls[k] == ReadCall(n) && Count(Takers(h.taken), k) == 0
    case ReadCopy(n, got) =>
      && h.calls[k] == ReadCall(n + |got|) && Got(s, h, k, got)
      && (got == [] && n > 0 ==> !s.Empty() || !s.wopen)
    case WriteLoop(buf, w) => h.calls[k] == WriteCall(buf) && w <= |buf| && Count(h.put, k) == w
    case Notify(buf, w) => h.calls[k] == WriteCall(buf) && w < |buf| && Count(h.put, k) == w
    case Close(w) => h.calls[k] == CloseCall(w)
    case Finish(r, got) => Fulfilled(s, h, k, r, got)
    case _ => false
  }

  ghost predicate Matches(s: State, h: History, i: nat)
    requires i < |s.m.th|
  {
    var pc := s.m.th[i].pc;
    && (i in h.cur <==> !pc.Out?)
    && (i in h.cur ==> Standing(s, h, h.cur[i], pc.b))
    && (pc.b.ReadCopy? || pc.b.Finish? ==> HoldsLk(pc))
  }

  /** What a call has done once it has returned. */
  ghost predicate EndOk(s: State, h: History, e: End) {
    e.call < |h.calls| &&
    match h.calls[e.call]
    case ReadCall(n) =>
      if e.r == -1 then e.got == [] && e.at.Empty() && e.at.wopen && e.i in e.at.killed && Count(Takers(h.taken), e.call) == 0
      else
        && e.r == |e.got| <= n && (e.r == n || e.at.Empty()) && (e.r == 0 ==> n == 0 || !e.at.wopen)
        && TookLast(h, s.consumed, e.call, e.got, |e.at.consumed|, |e.at.produced|)
    case WriteCall(buf) =>
      if e.r == -1 then Count(h.put, e.call) < |buf| && GivesUp(e.at, e.i)
      else e.r == |buf| && Count(h.put, e.call) == |buf|
    case CloseCall(w) => e.r == 0 && if w then !s.wopen else !s.ropen
  }

  ghost predicate Apart(h: History) {
    && (forall i :: i in h.cur ==> h.cur[i] < |h.calls|)
    && (forall i, j :: i in h.cur && j in h.cur && i != j ==> h.cur[i] != h.cur[j])
    && (forall i, q :: i in h.cur && 0 <= q < |h.ends| ==> h.ends[q].call != h.cur[i])
    && (forall q :: 0 <= q < |h.ends| ==> h.ends[q].call < |h.calls|)
    && (forall p :: 0 <= p < |h.put| ==> h.put[p] < |h.calls|)
    && (forall p :: 0 <= p < |h.taken| ==> h.taken[p].call < |h.calls| && h.calls[h.taken[p].call].ReadCall?)
  }

  ghost predicate Streams(s: State, h: History) {
    && |h.put| == |s.produced| && |h.taken| == |s.consumed|
    && forall p: nat :: p < |h.put| ==> PutOk(s, h, p)
  }

  ghost predicate Ends(s: State, h: History) {
    forall q :: 0 <= q < |h.ends| ==> EndOk(s, h, h.ends[q])
  }

  ghost predicate Closes(s: State, h: History) {
    && (s.wopen || CloseCall(true) in h.calls)
    && (s.ropen || CloseCall(false) in h.calls)
  }

  ghost predicate HistOk(s: State, h: History) {
    && Apart(h) && Streams(s, h) && Ends(s, h) && Closes(s, h)
    && forall i: nat :: i < |s.m.th| ==> Matches(s, h, i)
  }

  // ------------------------------------------------------------- counting

  lemma {:induction false} CountFresh(log: seq<nat>, k: nat)
    requires forall p :: 0 <= p < |log| ==> log[p] != k
    ensures Count(log, k) == 0
  {
    if log != [] {
      CountFresh(log[..|log| - 1], k);
    }
  }

  lemma CountMore(log: seq<nat>, x: nat, k: nat)
    ensures Count(log + [x], k) == Count(log, k) + if x == k then 1 else 0
  {
    assert (log + [x])[..|log|] == log;
  }

  lemma TakersMore(log: seq<Taken>, t: Taken)
    ensures Takers(log + [t]) == Takers(log) + [t.call]
  {
  }

  // ------------------------------------------------------------ one step

  /** Nothing of the pipe or of the history changes that concerns the other processes. */
  lemma OtherStands(s: State, h: History, s': State, h': History, i: nat, j: nat)
    requires Inv(s) && i < |s.m.th| == |s'.m.th| && j < |s.m.th| && j != i && Matches(s, h, j)
    requires s'.m.th[j].pc == s.m.th[j].pc && (j in h'.cur <==> j in h.cur) && (j in h.cur ==> h'.cur[j] == h.cur[j])
    requires h.calls <= h'.calls
    requires j in h.cur ==> Count(h'.put, h.cur[j]) == Count(h.put, h.cur[j])
    requires j in h.cur ==> Count(Takers(h'.taken), h.cur[j]) == Count(Takers(h.taken), h.cur[j])
    requires s.m.lk != Some(i) ==> SameQueue(s, s') && s'.ropen == s.ropen && s'.wopen == s.wopen && h'.taken == h.taken
    ensures Matches(s', h', j)
  {
    hide Fifo, Count;
    assert ThreadOk(s.m, j) && ThreadOk(s.m, i);
  }

  /** The history and the streams only grow, by what call k does. */
  ghost predicate Grows(s: State, h: History, s': State, h': History, k: nat) {
    && h.calls <= h'.calls
    && s.produced <= s'.produced && s.consumed <= s'.consumed
    && (h'.put == h.put || h'.put == h.put + [k])
    && (h'.taken == h.taken || exists made :: h'.taken == h.taken + [Taken(k, made)])
    && (s'.wopen ==> s.wopen) && (s'.ropen ==> s.ropen)
  }

  lemma CountsKept(s: State, h: History, s': State, h': History, k: nat, x: nat)
    requires Grows(s, h, s', h', k) && x != k
    ensures Count(h'.put, x) == Count(h.put, x) && Count(Takers(h'.taken), x) == Count(Takers(h.taken), x)
  {
    CountMore(h.put, k, x);
    if h'.taken != h.taken {
      var made :| h'.taken == h.taken + [Taken(k, made)];
      TakersMore(h.taken, Taken(k, made));
      CountMore(Takers(h.taken), k, x);
    }
  }

  lemma EndKept(s: State, h: History, s': State, h': History, k: nat, e: End)
    requires Grows(s, h, s', h', k) && EndOk(s, h, e) && e.call != k && |s'.consumed| == |h'.taken|
    ensures EndOk(s', h', e)
  {
    hide Count, Takers;
    CountsKept(s, h, s', h', k, e.call);
    if h.calls[e.call].ReadCall? && e.r != -1 {
      TookKept(s, h, s', h', k, e.call, e.got, |e.at.consumed|, |e.at.produced|);
    }
  }

  lemma TookKept(s: State, h: History, s': State, h': History, k: nat, x: nat, got: seq<Byte>, end: nat, made: nat)
    requires Grows(s, h, s', h', k) && TookLast(h, s.consumed, x, got, end, made) && Count(Takers(h'.taken), x) == Count(Takers(h.taken), x)
    requires |s'.consumed| == |h'.taken|
    ensures TookLast(h', s'.consumed, x, got, end, made)
  {
    assert s'.consumed[..|s.consumed|] == s.consumed;
    assert s'.consumed[end - |got|..end] == s.consumed[end - |got|..end];
  }

  lemma StreamKept(s: State, h: History, s': State, h': History, k: nat)
    requires Grows(s, h, s', h', k) && Streams(s, h)
    requires h'.put == h.put ==> |s'.produced| == |s.produced|
    requires h'.taken == h.taken ==> |s'.consumed| == |s.consumed|
    requires h'.put != h.put ==>
               && |s'.produced| == |s.produced| + 1
               && k < |h'.calls| && h'.calls[k].WriteCall? && Count(h.put, k) < |h'.calls[k].buf|
               && s'.produced[|s.produced|] == h'.calls[k].buf[Count(h.put, k)]
    requires h'.taken != h.taken ==> |s'.consumed| == |s.consumed| + 1
    ensures Streams(s', h')
  {
    hide Count;
    forall p: nat | p < |h'.put| ensures PutOk(s', h', p) {
      if p < |h.put| {
        assert PutOk(s, h, p);
        assert h'.put[..p] == h.put[..p];
      } else {
        assert h'.put[..p] == h.put;
      }
    }
  }

  /** A step of process i, within its call k, put together. */
  lemma Assemble(s: State, h: History, s': State, h': History, i: nat, k: nat)
    requires Inv(s) && HistOk(s, h) && i < |s.m.th| == |s'.m.th| && i in h.cur && h.cur[i] == k
    requires forall j: nat :: j < |s.m.th| && j != i ==> s'.m.th[j].pc == s.m.th[j].pc
    requires Grows(s, h, s', h', k) && h'.calls == h.calls && Streams(s', h') && Closes(s', h') && Matches(s', h', i)
    requires h'.taken != h.taken ==> h.calls[k].ReadCall?
    requires s.m.lk != Some(i) ==> SameQueue(s, s') && s'.ropen == s.ropen && s'.wopen == s.wopen && h'.taken == h.taken
    requires (h'.ends == h.ends && h'.cur == h.cur) ||
             (h'.cur == h.cur - {i} && exists e :: h'.ends == h.ends + [e] && e.call == k && EndOk(s', h', e))
    ensures HistOk(s', h')
  {
    assert |s'.consumed| == |h'.taken|;
    hide Count, Matches, EndOk, Streams, Closes, Inv;
    assert Ends(s', h') by {
      forall q | 0 <= q < |h.ends| ensures EndOk(s', h', h.ends[q]) {
        EndKept(s, h, s', h', k, h.ends[q]);
      }
    }
    forall j: nat | j < |s'.m.th| ensures Matches(s', h', j) {
      if j != i {
        if j in h.cur {
          CountsKept(s, h, s', h', k, h.cur[j]);
        }
        OtherStands(s, h, s', h', i, j);
      }
    }
  }

  // ------------------------------------------------------- each kind of step

  lemma ProtoLabel(s: State, i: nat)
    requires i < |s.m.th| && !s.m.th[i].pc.Out? && !s.m.th[i].pc.In?
    ensures var m := Proto(s.m, i);
            && |m.th| == |s.m.th| && !m.th[i].pc.Out? && m.th[i].pc.b == s.m.th[i].pc.b
            && forall j: nat :: j < |s.m.th| && j != i ==> m.th[j].pc == s.m.th[j].pc
    ensures HoldsLk(s.m.th[i].pc) && !s.m.th[i].pc.SleepRelease? ==> HoldsLk(Proto(s.m, i).th[i].pc)
  {
  }

  lemma ProtoNoted(s: State, h: History, c: Choice)
    requires Inv(s) && HistOk(s, h) && !s.panicked && c.i < |s.m.th| && !c.act.Kill? && !s.m.th[c.i].pc.Out? && !s.m.th[c.i].pc.In?
    ensures HistOk(Next(s, c), Note(h, s, c))
  {
    hide Fifo, Count, Streams, Ends, Apart, Proto;
    var s', i := Next(s, c), c.i;
    ProtoLabel(s, i);
    assert Matches(s, h, i) && PcOk(s, s.m.th[i].pc);
    var k := h.cur[i];
    hide PcOk;
    assert Note(h, s, c) == h;
    assert Standing(s', h, k, s'.m.th[i].pc.b);
    StreamKept(s, h, s', h, k);
    Assemble(s, h, s', h, i, k);
  }

  lemma BeginNoted(s: State, h: History, c: Choice)
    requires Inv(s) && HistOk(s, h) && !s.panicked && c.i < |s.m.th| && !c.act.Kill? && s.m.th[c.i].pc.Out?
    ensures HistOk(Next(s, c), Note(h, s, c))
  {
    hide Fifo, Count, Inv;
    var s', h', i := Next(s, c), Note(h, s, c), c.i;
    assert Matches(s, h, i);
    if s'.m.th[i].pc.Out? {
      assert h' == h && s' == s.(panicked := s'.panicked);
      SameButPanic(s, h, s');
    } else {
      var k := |h.calls|;
      hide PutOk, EndOk;
      Began(s, h, s', h', c);
    }
  }

  lemma SameButPanic(s: State, h: History, s': State)
    requires HistOk(s, h) && s' == s.(panicked := s'.panicked, killed := s'.killed)
    ensures HistOk(s', h)
  {
    hide Count;
    forall p: nat | p < |h.put| ensures PutOk(s', h, p) {
      assert PutOk(s, h, p);
    }
    forall q | 0 <= q < |h.ends| ensures EndOk(s', h, h.ends[q]) {
      assert EndOk(s, h, h.ends[q]);
    }
    forall i: nat | i < |s.m.th| ensures Matches(s', h, i) {
      assert Matches(s, h, i);
    }
  }

  lemma Began(s: State, h: History, s': State, h': History, c: Choice)
    requires Inv(s) && HistOk(s, h) && c.i < |s.m.th| && s.m.th[c.i].pc.Out? && Begins(c.act)
    requires s' == s.(m := Goto(s.m, c.i, Entering(match c.act case BeginRead(n) => ReadCheck(n) case BeginWrite(buf) => WriteLoop(buf, 0)
                                                    case BeginClose(w) => Close(w) case _ => Idle)))
    requires h' == h.(calls := h.calls + [CallOf(c.act)], cur := h.cur[c.i := |h.calls|])
    ensures HistOk(s', h')
  {
    hide Count, Inv;
    var i, k := c.i, |h.calls|;
    CountFresh(h.put, k);
    CountFresh(Takers(h.taken), k);
    assert Grows(s, h, s', h', k);
    hide Takers;
    assert Streams(s', h') by {
      StreamKept(s, h, s', h', k);
    }
    forall q | 0 <= q < |h.ends| ensures EndOk(s', h', h.ends[q]) {
      EndKept(s, h, s', h', k, h.ends[q]);
    }
    forall j: nat | j < |s.m.th| ensures Matches(s', h', j) {
      assert Matches(s, h, j);
      if j != i {
        OtherStands(s, h, s', h', i, j);
      }
    }
  }

  /** A step under the lock that moves no byte and does not return: it stands at another point of the same call. */
  lemma Stays(s: State, h: History, c: Choice, s': State)
    requires Inv(s) && HistOk(s, h) && c.i < |s.m.th| && s.m.th[c.i].pc.In? && s' == Next(s, c) && |s'.m.th| == |s.m.th|
    requires SameQueue(s, s') && !s'.m.th[c.i].pc.Out? && (s'.wopen ==> s.wopen) && (s'.ropen ==> s.ropen)
    requires forall j: nat :: j < |s.m.th| && j != c.i ==> s'.m.th[j].pc == s.m.th[j].pc
    requires c.i in h.cur ==> Standing(s', h, h.cur[c.i], s'.m.th[c.i].pc.b) && Closes(s', h)
    requires s'.m.th[c.i].pc.b.ReadCopy? || s'.m.th[c.i].pc.b.Finish? ==> HoldsLk(s'.m.th[c.i].pc)
    ensures HistOk(s', Note(h, s, c))
  {
    hide Fifo, Count, Next, Standing, Closes;
    var i := c.i;
    assert Matches(s, h, i) && ThreadOk(s.m, i);
    var k := h.cur[i];
    assert Note(h, s, c) == h;
    hide Inv;
    StreamKept(s, h, s', h, k);
    Assemble(s, h, s', h, i, k);
  }

  /** A step that returns from the call. */
  lemma Returns(s: State, h: History, c: Choice, s': State, r: int, got: seq<Byte>)
    requires Inv(s) && HistOk(s, h) && c.i < |s.m.th| && s.m.th[c.i].pc.In? && s' == Next(s, c)
    requires s' == Exit(s, c.i, r, got)
    requires c.i in h.cur ==> EndOk(s, h, End(h.cur[c.i], c.i, r, got, s))
    ensures HistOk(s', Note(h, s, c))
  {
    hide Fifo, Count, Next, EndOk, Closes;
    var i := c.i;
    assert Matches(s, h, i) && ThreadOk(s.m, i);
    var k := h.cur[i];
    var h' := Note(h, s, c);
    var e := End(k, i, r, got, s);
    assert h' == h.(ends := h.ends + [e], cur := h.cur - {i});
    hide Inv;
    StreamKept(s, h, s', h', k);
    SameEnd(s, h, s', h', e);
    Assemble(s, h, s', h', i, k);
  }

  lemma SameEnd(s: State, h: History, s': State, h': History, e: End)
    requires EndOk(s, h, e) && s' == s.(m := s'.m) && h' == h.(ends := h'.ends, cur := h'.cur)
    ensures EndOk(s', h', e) && (Closes(s, h) ==> Closes(s', h'))
  {
  }

  lemma CheckNoted(s: State, h: History, c: Choice)
    requires Inv(s) && HistOk(s, h) && !s.panicked && c.i < |s.m.th| && !c.act.Kill? && s.m.th[c.i].pc.In? && s.m.th[c.i].pc.b.ReadCheck?
    ensures HistOk(Next(s, c), Note(h, s, c))
  {
    hide Fifo, Count, Streams, Ends, Apart, Pop, Push;
    var s', b := Next(s, c), s.m.th[c.i].pc.b;
    assert Matches(s, h, c.i) && ThreadOk(s.m, c.i);
    if s.Empty() && s.wopen && c.i in s.killed {
      hide Inv;
      Returns(s, h, c, s', -1, []);
    } else {
      assert h.cur[c.i] < |h.calls| && |h.taken| == |s.consumed| by { hide Matches; StreamsLen(s, h); }
      hide Inv;
      Stays(s, h, c, s');
    }
  }

  lemma StreamsLen(s: State, h: History)
    requires Streams(s, h)
    ensures |h.put| == |s.produced| && |h.taken| == |s.consumed|
  {
  }

  lemma FinishNoted(s: State, h: History, c: Choice)
    requires Inv(s) && HistOk(s, h) && !s.panicked && c.i < |s.m.th| && !c.act.Kill? && s.m.th[c.i].pc.In?
    requires var b := s.m.th[c.i].pc.b; b.Finish? || b.Close? || b.Notify? || b.Idle? || b.Done?
    ensures HistOk(Next(s, c), Note(h, s, c))
  {
    hide Fifo, Count, Streams, Ends, Apart, Pop, Push;
    var s', b := Next(s, c), s.m.th[c.i].pc.b;
    assert Matches(s, h, c.i) && PcOk(s, s.m.th[c.i].pc);
    hide Inv, PcOk;
    if b.Finish? {
      Returns(s, h, c, s', b.r, b.got);
    } else {
      assert b.Close? ==> h.calls[h.cur[c.i]] in h.calls;
      Stays(s, h, c, s');
    }
  }

  /** One byte more in the reader's buffer. */
  lemma TakeOne(s: State, h: History, s': State, h': History, k: nat, got: seq<Byte>, x: Byte)
    requires Got(s, h, k, got) && s'.consumed == s.consumed + [x] && |s'.produced| == |s.produced|
    requires h'.taken == h.taken + [Taken(k, |s.produced|)]
    ensures Got(s', h', k, got + [x])
  {
    hide Count, Takers;
    TakersMore(h.taken, Taken(k, |s.produced|));
    CountMore(Takers(h.taken), k, k);
    SuffixMore(s.consumed, got, x);
  }

  lemma SuffixMore(s: seq<Byte>, got: seq<Byte>, x: Byte)
    requires |got| <= |s| && got == s[|s| - |got|..]
    ensures (s + [x])[|s| - |got|..|s| + 1] == got + [x]
  {
  }

  lemma CopyNoted(s: State, h: History, c: Choice)
    requires Inv(s) && HistOk(s, h) && !s.panicked && c.i < |s.m.th| && !c.act.Kill? && s.m.th[c.i].pc.In? && s.m.th[c.i].pc.b.ReadCopy?
    ensures HistOk(Next(s, c), Note(h, s, c))
  {
    hide Fifo, Count, Streams, Ends, Apart, Takers, Push;
    var s', i, b := Next(s, c), c.i, s.m.th[c.i].pc.b;
    assert Matches(s, h, i) && ThreadOk(s.m, i);
    var k := h.cur[i];
    StreamsLen(s, h);
    if b.n == 0 || s.Empty() {
      assert s' == At(s.(returned := s.returned + [b.got]), i, WakeLock(NWRITTEN, Finish(|b.got|, b.got)));
      assert Standing(s', h, k, Finish(|b.got|, b.got));
      hide Inv, Standing;
      Stays(s, h, c, s');
    } else {
      hide Inv, HistOk;
      ByteTaken(s, h, c, k);
    }
  }

  lemma ByteTaken(s: State, h: History, c: Choice, k: nat)
    requires Inv(s) && HistOk(s, h) && !s.panicked && c.i < |s.m.th| && !c.act.Kill? && s.m.th[c.i].pc.In? && s.m.th[c.i].pc.b.ReadCopy?
    requires s.m.th[c.i].pc.b.n > 0 && !s.Empty() && c.i in h.cur && h.cur[c.i] == k && s.m.lk == Some(c.i)
    requires Standing(s, h, k, s.m.th[c.i].pc.b)
    ensures HistOk(Next(s, c), Note(h, s, c))
  {
    hide Fifo, Count, Streams, Ends, Apart, Takers, Push, Inv;
    var s', i, b := Next(s, c), c.i, s.m.th[c.i].pc.b;
    var x, h' := s.data[s.nread % PIPESZ], Note(h, s, c);
    assert s' == At(Pop(s), i, In(ReadCopy(b.n - 1, b.got + [x])));
    assert h' == h.(taken := h.taken + [Taken(k, |s.produced|)]);
    assert Standing(s', h', k, s'.m.th[i].pc.b) by {
      TakeOne(s, h, s', h', k, b.got, x);
    }
    hide Standing;
    StreamKept(s, h, s', h', k);
    Assemble(s, h, s', h', i, k);
  }

  lemma WriteNoted(s: State, h: History, c: Choice)
    requires Inv(s) && HistOk(s, h) && !s.panicked && c.i < |s.m.th| && !c.act.Kill? && s.m.th[c.i].pc.In? && s.m.th[c.i].pc.b.WriteLoop?
    ensures HistOk(Next(s, c), Note(h, s, c))
  {
    hide Fifo, Count, Streams, Ends, Apart, Takers, Pop;
    var s', i, b := Next(s, c), c.i, s.m.th[c.i].pc.b;
    assert Matches(s, h, i) && ThreadOk(s.m, i);
    var k := h.cur[i];
    StreamsLen(s, h);
    if b.w < |b.buf| && GivesUp(s, i) {
      hide Inv, Standing;
      EndOfWrite(s, h, k, i, b);
      Returns(s, h, c, s', -1, []);
    } else if b.w >= |b.buf| || s.Full() {
      hide Inv;
      Stays(s, h, c, s');
    } else {
      var x, h' := b.buf[b.w], Note(h, s, c);
      assert s' == At(Push(s, x), i, In(WriteLoop(b.buf, b.w + 1)));
      assert h' == h.(put := h.put + [k]);
      CountMore(h.put, k, k);
      assert Standing(s', h', k, s'.m.th[i].pc.b);
      hide Inv, Standing;
      assert Standing(s, h, k, b);
      NextByte(s, h, k, b);
      StreamKept(s, h, s', h', k);
      Assemble(s, h, s', h', i, k);
    }
  }

  lemma NextByte(s: State, h: History, k: nat, b: Body)
    requires Standing(s, h, k, b) && b.WriteLoop?
    ensures k < |h.calls| && h.calls[k] == WriteCall(b.buf) && Count(h.put, k) == b.w
  {
  }

  lemma EndOfWrite(s: State, h: History, k: nat, i: nat, b: Body)
    requires Standing(s, h, k, b) && b.WriteLoop? && b.w < |b.buf| && GivesUp(s, i)
    ensures EndOk(s, h, End(k, i, -1, [], s))
  {
  }

  lemma InsideNoted(s: State, h: History, c: Choice)
    requires Inv(s) && HistOk(s, h) && !s.panicked && c.i < |s.m.th| && !c.act.Kill? && s.m.th[c.i].pc.In?
    ensures HistOk(Next(s, c), Note(h, s, c))
  {
    hide Inv, HistOk, Next, Note;
    if s.m.th[c.i].pc.b.ReadCheck? {
      CheckNoted(s, h, c);
    } else if s.m.th[c.i].pc.b.ReadCopy? {
      CopyNoted(s, h, c);
    } else if s.m.th[c.i].pc.b.WriteLoop? {
      WriteNoted(s, h, c);
    } else {
      FinishNoted(s, h, c);
    }
  }

  lemma HistStep(s: State, h: History, c: Choice)
    requires Inv(s) && HistOk(s, h)
    ensures HistOk(Next(s, c), Note(h, s, c))
  {
    hide Inv, HistOk, Inside, Begin, Proto;
    if s.panicked || c.i >= |s.m.th| || c.act.Kill? {
      SameButPanic(s, h, Next(s, c));
      KeepsHistory(s, h, c);
    } else {
      hide Next, Note;
      match s.m.th[c.i].pc {
        case Out(_) => BeginNoted(s, h, c);
        case In(_) => InsideNoted(s, h, c);
        case _ => ProtoNoted(s, h, c);
      }
    }
  }

  lemma KeepsHistory(s: State, h: History, c: Choice)
    requires HistOk(s, h) && (s.panicked || c.i >= |s.m.th| || c.act.Kill?)
    ensures Note(h, s, c) == h
  {
    if c.i < |s.m.th| {
      assert Matches(s, h, c.i);
    }
  }

  lemma {:induction false} RunHist(s: State, h: History, cs: seq<Choice>)
    requires Inv(s) && HistOk(s, h)
    ensures HistOk(Run(s, cs), HistoryOf(s, h, cs)) && Inv(Run(s, cs))
    decreases |cs|
  {
    hide Inv, HistOk, Next, Note;
    if cs != [] {
      HistStep(s, h, cs[0]);
      StepInv(s, cs[0]);
      RunHist(Next(s, cs[0]), Note(h, s, cs[0]), cs[1..]);
    }
  }

  lemma NewHist(n: nat, junk: Ring)
    ensures HistOk(New(n, junk), NOTHING) && Inv(New(n, junk))
  {
    NewOk(n, junk);
    var s := New(n, junk);
    assert forall i: nat :: i < |s.m.th| ==> s.m.th[i] == Thread(Out(Idle), false);
  }

  // ------------------------------------------------------------- every run

  /** Every byte of the stream is from the buffer of a pipe_write call, and each call's bytes come in order from its first on. */
  lemma StreamIsWritten(n: nat, junk: Ring, cs: seq<Choice>, p: nat)
    ensures var s, h := Run(New(n, junk), cs), HistoryOf(New(n, junk), NOTHING, cs);
            && |h.put| == |s.produced|
            && (p < |s.produced| ==>
                  var k := h.put[p];
                  var w := Count(h.put[..p], k);
                  k < |h.calls| && h.calls[k].WriteCall? && w < |h.calls[k].buf| && s.produced[p] == h.calls[k].buf[w])
  {
    hide Inv, Count;
    NewHist(n, junk);
    RunHist(New(n, junk), NOTHING, cs);
    var s, h := Run(New(n, junk), cs), HistoryOf(New(n, junk), NOTHING, cs);
    if p < |s.produced| {
      assert PutOk(s, h, p);
    }
  }

  /** A pipe_write that returns has written its whole buffer and returns its size, or -1 at a full pipe that is closed to readers or by a killed process. */
  lemma WritesAll(n: nat, junk: Ring, cs: seq<Choice>, q: nat)
    ensures var s, h := Run(New(n, junk), cs), HistoryOf(New(n, junk), NOTHING, cs);
            q < |h.ends| ==>
              var e := h.ends[q];
              && e.call < |h.calls|
              && (h.calls[e.call].WriteCall? ==>
                    var buf := h.calls[e.call].buf;
                    if e.r == -1 then Count(h.put, e.call) < |buf| && e.at.Full() && (!e.at.ropen || e.i in e.at.killed)
                    else e.r == |buf| == Count(h.put, e.call))
  {
    hide Inv, Count;
    NewHist(n, junk);
    RunHist(New(n, junk), NOTHING, cs);
    var s, h := Run(New(n, junk), cs), HistoryOf(New(n, junk), NOTHING, cs);
    if q < |h.ends| {
      assert EndOk(s, h, h.ends[q]);
    }
  }

  /**
   A pipe_read of n bytes that returns r has r bytes in its buffer, in one piece of the stream, and r is n or all there was: the bytes
   written when it took its first, which no write added to before it returned. It returns 0 only for n = 0 or at the end
   of the stream, and -1 only for a killed process at an empty pipe, having taken nothing.
   */
  lemma ReadsWhatIsThere(n: nat, junk: Ring, cs: seq<Choice>, q: nat)
    ensures var s, h := Run(New(n, junk), cs), HistoryOf(New(n, junk), NOTHING, cs);
            q < |h.ends| ==>
              var e := h.ends[q];
              && e.call < |h.calls|
              && (h.calls[e.call].ReadCall? ==>
                    var want, from := h.calls[e.call].n, |e.at.consumed| - |e.got|;
                    if e.r == -1 then
                      e.got == [] && e.at.Empty() && e.at.wopen && e.i in e.at.killed && Count(Takers(h.taken), e.call) == 0
                    else
                      && 0 <= from <= |e.at.consumed| <= |s.consumed| == |h.taken|
                      && e.r == |e.got| == Count(Takers(h.taken), e.call) && e.got == s.consumed[from..|e.at.consumed|]
                      && (forall p :: from <= p < |e.at.consumed| ==> h.taken[p] == Taken(e.call, |e.at.produced|))
                      && e.r <= want && (e.r == want || e.at.Empty())
                      && (e.r == 0 ==> want == 0 || !e.at.wopen))
  {
    hide Inv, Count, Takers;
    NewHist(n, junk);
    RunHist(New(n, junk), NOTHING, cs);
    var s, h := Run(New(n, junk), cs), HistoryOf(New(n, junk), NOTHING, cs);
    if q < |h.ends| {
      assert EndOk(s, h, h.ends[q]);
    }
  }

  /** An end of the pipe is closed for good by a pipe_close of it, and by nothing else. */
  lemma ClosesStay(n: nat, junk: Ring, cs: seq<Choice>, write: bool)
    ensures var s, h := Run(New(n, junk), cs), HistoryOf(New(n, junk), NOTHING, cs);
            var open := if write then s.wopen else s.ropen;
            && (!open ==> CloseCall(write) in h.calls)
            && ((exists q :: 0 <= q < |h.ends| && h.ends[q].call < |h.calls| && h.calls[h.ends[q].call] == CloseCall(write)) ==> !open)
  {
    hide Inv, Count;
    NewHist(n, junk);
    RunHist(New(n, junk), NOTHING, cs);
    var s, h := Run(New(n, junk), cs), HistoryOf(New(n, junk), NOTHING, cs);
    forall q | 0 <= q < |h.ends| && h.calls[h.ends[q].call] == CloseCall(write) ensures !(if write then s.wopen else s.ropen) {
      assert EndOk(s, h, h.ends[q]);
    }
  }

  /**
   No deadlock: where no process can move, each is outside or asleep; and in a run that strands nobody a sleeping reader then has
   an empty pipe with its write end open, a sleeping writer a full one with its read end open.
   */
  lemma NoDeadlocks(n: nat, junk: Ring, cs: seq<Choice>)
    ensures var s := Run(New(n, junk), cs);
            !s.panicked && (forall i: nat :: i < |s.m.th| ==> Next(s, Choice(i, Go)) == s) ==>
              && (forall i: nat :: i < |s.m.th| ==> s.m.th[i].pc.Out? || (s.m.th[i].pc.Asleep? && s.m.th[i].asleep))
              && s.m.lk.None?
              && (NeverStrands(New(n, junk), cs) ==> NoLost(s))
  {
    hide Fifo;
    NewOk(n, junk);
    RunInv(New(n, junk), cs);
    var s := Run(New(n, junk), cs);
    if !s.panicked && forall i: nat :: i < |s.m.th| ==> Next(s, Choice(i, Go)) == s {
      forall i: nat | i < |s.m.th| ensures !s.m.th[i].pc.In? && (s.m.th[i].pc.Out? || Proto(s.m, i) == s.m) {
        assert PcOk(s, s.m.th[i].pc);
        assert Next(s, Choice(i, Go)) == s;
        if s.m.th[i].pc.In? {
          InsideGoes(s, i, s.m.th[i].pc.b);
        }
      }
      NoDeadlock(s.m);
      if NeverStrands(New(n, junk), cs) {
        NoLostWakeups(n, junk, cs);
        LastNoLost(New(n, junk), cs);
      }
    }
  }

  lemma InsideGoes(s: State, i: nat, b: Body)
    requires i < |s.m.th| && s.m.th[i].pc == In(b) && !b.Idle? && !b.Done?
    ensures Inside(s, i, b) != s
  {
    assert Inside(s, i, b).m.th[i].pc != In(b);
  }

  lemma {:induction false} LastNoLost(s: State, cs: seq<Choice>)
    requires AlwaysNoLost(s, cs)
    ensures NoLost(Run(s, cs))
    decreases |cs|
  {
    hide NoLost, Next;
    if cs != [] {
      LastNoLost(Next(s, cs[0]), cs[1..]);
    }
  }
}
