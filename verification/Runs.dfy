/**
 Runs of calls by all processes over one physical memory. Each call is related to the state before and after it; a run is
 a sequence of states so related, and the class below produces one by making the calls.
 */
module Runs {
  import opened Wrappers
  import opened Mmu
  import opened Bytes
  import opened Frames
  import opened Palloc
  import opened Pgtbl
  import opened Vmem
  import opened UserMem
  import FsLayout
  import opened Loader
  import opened ArgStack
  import opened Exec
  import opened Marks
  import opened Spaces
  import opened FirstSpace

  /** The frames of the four megabytes that the boot loader maps. */
  const BOOT_FRAMES := 1024

  /** A call made on behalf of the process whose directory is d, or an access by its program. */
  datatype Call =
    | Fork(d: nat)
    | Grow(d: nat, n: int)
    | Exec(d: nat, file: seq<Byte>, phs: seq<Segment>, argv: seq<seq<Byte>>)
    | Reap(d: nat)
    | Copy(d: nat, vaddr: Word, buf: seq<Byte>)
    | Store(d: nat, a: Word, b: Byte)
    | Access(d: nat, a: Word, store: bool)
  {
    /** The sizes that 32-bit arguments and files can have. */
    predicate InRange() {
      match this
      case Grow(_, n) => -0x8000_0000 <= n < 0x8000_0000
      case Exec(_, file, _, argv) => |file| <= FsLayout.MAXFILE && forall k :: 0 <= k < |argv| ==> |argv[k]| < WORDS - 1
      case Copy(_, _, buf) => |buf| < WORDS
      case _ => true
    }
  }

  /** The state of memory, its allocator and the processes; a process is named by its directory, and has one kernel stack. */
  datatype Snap = Snap(
    lay: Layout, mem: Mem, own: Owners, head: Word, free: seq<nat>,
    kernel: nat, sizes: map<nat, Word>, stacks: map<nat, nat>, holes: set<nat>, loose: set<nat>)

  /** The frames that are neither free nor part of an address space: kernel stacks, and what was lost. */
  ghost function Hands(s: Snap): set<nat> {
    s.loose + s.stacks.Values
  }

  ghost predicate StacksOk(sizes: map<nat, Word>, stacks: map<nat, nat>, loose: set<nat>) {
    && stacks.Keys == sizes.Keys && stacks.Values !! loose
    && forall d, e :: d in stacks && e in stacks && d != e ==> stacks[d] != stacks[e]
  }

  ghost predicate Ok(s: Snap) {
    && Inv(s.lay, s.mem, s.own, s.head, s.free)
    && Consistent(s.mem, s.own, s.sizes, s.kernel, Hands(s), s.holes)
    && StacksOk(s.sizes, s.stacks, s.loose)
  }

  /** Every frame ever given to the allocator is in exactly one place. */
  lemma AllPlaced(s: Snap, f: nat)
    requires Ok(s) && f in s.own
    ensures match s.own[f]
            case Free => f in s.free
            case Dir => f in s.sizes || f == s.kernel
            case Table(d, _) => d in s.sizes || d == s.kernel
            case Page(d, _, _) => d in s.sizes || d == s.kernel
            case Other => (f in s.stacks.Values) != (f in s.loose)
    ensures f in s.free <==> s.own[f] == Free
    ensures f in s.sizes || f == s.kernel <==> s.own[f] == Dir
    ensures f in s.stacks.Values || f in s.loose <==> s.own[f] == Other
  {
    hide SpaceOk, Chain;
    assert FrameOk(s.lay, s.mem, s.own, f);
    assert f in s.free <==> IsA(s.own, f, Free);
    assert IsA(s.own, f, Dir) <==> f in s.sizes || f == s.kernel;
    assert IsA(s.own, f, Other) <==> f in Hands(s);
  }

  // ------------------------------------------------------------- one call

  /** Where a run ends: the kernel panics, or does something that may leave the memory modelled here. */
  ghost predicate Stops(s: Snap, c: Call) {
    c.d in s.sizes && c.d < NFRAMES &&
    match c
    case Fork(d) => d in s.holes
    case Exec(_, _, phs, argv) => |argv| == MAXARGS + 1 || !ArgsSafe(s.mem, phs, argv) || FreesTwice(|s.free|)
    case Copy(d, vaddr, buf) => exists a: Word :: PageAlignDown(vaddr) <= a < vaddr + |buf| && !AliasFree(s.mem, d, a)
    case _ => false
  }

  /** What no call changes, and what only directory x may see changed. */
  ghost predicate Same(s: Snap, s': Snap, x: nat) {
    && s'.lay == s.lay && s'.kernel == s.kernel && s'.own.Keys == s.own.Keys && LowShrinks(s.mem, s'.mem)
    && KeepsOthers(s.own, s.mem, s'.mem, x)
  }

  ghost predicate SameProcesses(s: Snap, s': Snap) {
    s'.sizes == s.sizes && s'.stacks == s.stacks && s'.holes == s.holes && s'.loose == s.loose
  }

  /** Whether this fork loses a frame. */
  ghost predicate Loses(s: Snap, c: Call) {
    c.Fork? && c.d in s.sizes && |s.free| > 0 && LosesFrame(|s.free| - 1, PagesFor(s.sizes[c.d]))
  }

  /** fork: a copy of the space and a kernel stack, exactly if the frames suffice; else everything as before, but for a lost frame. */
  ghost predicate Forked(s: Snap, d: nat, s': Snap, ok: bool, child: nat)
    requires d in s.sizes
  {
    var n := PagesFor(s.sizes[d]);
    && s'.holes == s.holes && (ok <==> 1 + SpaceFrames(n) <= |s.free|)
    && (if ok then
          && child !in s.sizes && child < NFRAMES && d < NFRAMES && s'.loose == s.loose
          && s'.sizes == s.sizes[child := s.sizes[d]]
          && exists f :: IsA(s.own, f, Free) && s'.stacks == s.stacks[child := f] && CopyState(s.lay, s.mem, s.own[f := Other], s'.mem, s'.own, d, child, n)
        else
          && s'.sizes == s.sizes && s'.stacks == s.stacks
          && if Loses(s, Fork(d)) then exists f :: IsA(s.own, f, Free) && s'.own == s.own[f := Other] && s'.loose == s.loose + {f}
             else s'.own == s.own && s'.loose == s.loose)
  }

  /** Pages added read as zero, pages taken away fault, and every other byte reads as before. */
  ghost predicate ResizedBytes(mem: Mem, mem': Mem, d: nat, pages: nat, pages': nat)
    requires d < NFRAMES
  {
    forall a: Word ::
      UserByte(mem', d, a) ==
      if pages <= a / PAGE_SZ < pages' then Some(0) else if pages' <= a / PAGE_SZ < pages then None else UserByte(mem, d, a)
  }

  /** grow_process. Shrinking to exactly 0 makes the space hollow and fails. */
  ghost predicate Resized(s: Snap, d: nat, n: int, s': Snap, ok: bool)
    requires d in s.sizes
  {
    var sz := s.sizes[d];
    && s'.loose == s.loose && s'.stacks == s.stacks
    && (n == 0 ==> ok)
    && (n > 0 ==> (ok <==> sz + n <= KERN_BASE && d < NFRAMES && FramesToGrow(s.mem, d, PagesFor(sz), PagesFor(sz + n)) <= |s.free|))
    && (n < 0 ==> (ok <==> n + sz != 0 && sz != 0))
    && s'.sizes == (if ok && n != 0 && (n > 0 || -n <= sz) then s.sizes[d := sz + n] else s.sizes)
    && s'.holes == (if n < 0 && n + sz == 0 then s.holes + {d} else s.holes)
    && (d !in s.holes ==> (Agrees(s'.mem, d, s'.sizes[d]) <==> !(n < 0 && n + sz == 0)))
    && d < NFRAMES && ResizedBytes(s.mem, s'.mem, d, PagesFor(sz), PagesFor(if (ok && n > 0) || (n < 0 && -n <= sz) then sz + n else sz))
  }

  /** exec: the process goes on in directory e, exactly if the program is startable. */
  ghost predicate Execed(s: Snap, d: nat, file: seq<Byte>, phs: seq<Segment>, argv: seq<seq<Byte>>, s': Snap, ok: bool, e: nat, sp: Word)
    requires d in s.sizes && d in s.stacks
  {
    && s'.loose == s.loose && (ok <==> Startable(file, phs, argv, |s.free|))
    && if ok then
         && e in s'.sizes && e < NFRAMES && e !in s.sizes && s'.sizes == (s.sizes - {d})[e := s'.sizes[e]]
         && s'.stacks == (s.stacks - {d})[e := s.stacks[d]] && s'.holes == s.holes - {d}
         && ProgramReady(s'.mem, e, s'.sizes[e], sp, file, phs, argv)
       else SameProcesses(s, s') && s'.own == s.own
  }

  /** The release of an exited process: the frames of its space and its kernel stack become free. */
  ghost predicate Reaped(s: Snap, d: nat, s': Snap)
    requires d in s.sizes && d in s.stacks
  {
    && s'.sizes == s.sizes - {d} && s'.stacks == s.stacks - {d} && s'.holes == s.holes - {d} && s'.loose == s.loose
    && s'.own == Dissolved(s.own, d, Free)[s.stacks[d] := Free]
  }

  /** uvm_memcpy into the space of d. */
  ghost predicate CopiedIn(s: Snap, d: nat, vaddr: Word, buf: seq<Byte>, s': Snap, ok: bool, done: nat) {
    && SameProcesses(s, s') && s'.own == s.own && s'.free == s.free
    && d < NFRAMES && UserWrite(s.mem, s'.mem, s.own, d, vaddr, buf, done) && (ok <==> done == |buf|)
  }

  /** A store of one byte by the program of d; it faults where the page is absent or not the program's to write. */
  ghost predicate Stored(s: Snap, d: nat, a: Word, b: Byte, s': Snap, ok: bool) {
    && SameProcesses(s, s') && s'.own == s.own && s'.free == s.free
    && d < NFRAMES && UserWrite(s.mem, s'.mem, s.own, d, a, [b], if ok then 1 else 0)
    && var w := Lookup(s.mem, d, PageDirectoryIdx(a), PageTableIdx(a));
       ok <==> Present(w) && IsUser(w) && IsWritable(w)
  }

  /** The MMU marks entries: no program reads anything else. */
  ghost predicate Accessed(s: Snap, d: nat, s': Snap) {
    && SameProcesses(s, s') && s'.own == s.own && s'.free == s.free && d < NFRAMES && SameAccess(s.mem, s'.mem, d)
    && forall e: nat, b: Word :: IsA(s.own, e, Dir) && e < NFRAMES ==> UserByte(s'.mem, e, b) == UserByte(s.mem, e, b)
  }

  /** The state after a call is as the call promises; a call of a process that is gone does nothing. */
  ghost predicate Step(s: Snap, c: Call, s': Snap) {
    && !Stops(s, c)
    && if c.d !in s.sizes then s' == s
       else
         && c.d in s.stacks && Same(s, s', if c.Fork? then NFRAMES else c.d)
         && match c
            case Fork(d) => exists ok, child :: Forked(s, d, s', ok, child)
            case Grow(d, n) => exists ok :: Resized(s, d, n, s', ok)
            case Exec(d, file, phs, argv) => exists ok, e, sp: Word :: Execed(s, d, file, phs, argv, s', ok, e, sp)
            case Reap(d) => Reaped(s, d, s')
            case Copy(d, vaddr, buf) => exists ok, done :: CopiedIn(s, d, vaddr, buf, s', ok, done)
            case Store(d, a, b) => exists ok :: Stored(s, d, a, b, s', ok)
            case Access(d, _, _) => Accessed(s, d, s')
  }

  // ------------------------------------------------------------- whole runs

  /** A run of the first |trace| - 1 calls. */
  ghost predicate IsRun(trace: seq<Snap>, calls: seq<Call>) {
    && 1 <= |trace| <= |calls| + 1
    && (forall i :: 0 <= i < |trace| ==> Ok(trace[i]))
    && forall i :: 0 <= i < |trace| - 1 ==> Step(trace[i], calls[i], trace[i + 1])
  }

  /** How many of the first i calls were forks that lose a frame. */
  ghost function Lost(trace: seq<Snap>, calls: seq<Call>, i: nat): nat
    requires i < |trace| <= |calls| + 1
  {
    if i == 0 then 0 else Lost(trace, calls, i - 1) + if Loses(trace[i - 1], calls[i - 1]) then 1 else 0
  }

  lemma StepLoose(s: Snap, c: Call, s': Snap)
    requires Ok(s) && Step(s, c, s')
    ensures s'.own.Keys == s.own.Keys && s.loose <= s'.loose && |s'.loose| == |s.loose| + if Loses(s, c) then 1 else 0
  {
    hide Ok, Stops, Forked, Loses, ProgramReady, UserWrite, Startable, Agrees, FramesToGrow, LowShrinks, SameAccess;
    if c.Fork? && c.d in s.sizes {
      var ok, child :| Forked(s, c.d, s', ok, child);
      ForkLoose(s, c.d, s', ok, child);
    } else {
      OnlyForks(s, c);
    }
  }

  lemma OnlyForks(s: Snap, c: Call)
    ensures Loses(s, c) ==> c.Fork? && c.d in s.sizes
  {
    hide LosesFrame;
  }

  lemma ForkLoose(s: Snap, d: nat, s': Snap, ok: bool, child: nat)
    requires Ok(s) && d in s.sizes && Forked(s, d, s', ok, child)
    ensures s.loose <= s'.loose && |s'.loose| == |s.loose| + if Loses(s, Fork(d)) then 1 else 0
  {
    hide Ok, CopyState, LosesFrame, SpaceFrames;
    if Loses(s, Fork(d)) {
      LosesFails(|s.free| - 1, PagesFor(s.sizes[d]));
      var f :| IsA(s.own, f, Free) && s'.own == s.own[f := Other] && s'.loose == s.loose + {f};
      InHand(s);
      assert f !in s.loose;
      assert |s.loose + {f}| == |s.loose| + 1;
    }
  }

  lemma LosesFails(frames: nat, n: nat)
    requires LosesFrame(frames, n)
    ensures frames < SpaceFrames(n)
  {
  }

  /**
   Frame conservation over every run: the frames given to the allocator are the same throughout, each in exactly one place,
   and the only ones outside the free list, the address spaces and the kernel stacks are those lost by forks that ran out
   of frames where a table starts, one each.
   */
  lemma {:induction false} RunConserves(trace: seq<Snap>, calls: seq<Call>, i: nat)
    requires IsRun(trace, calls) && i < |trace|
    ensures trace[i].own.Keys == trace[0].own.Keys && trace[0].loose <= trace[i].loose
    ensures |trace[i].loose| == |trace[0].loose| + Lost(trace, calls, i)
    ensures Lost(trace, calls, i) == 0 ==> trace[i].loose == trace[0].loose
  {
    hide Ok, Step, Loses;
    if i > 0 {
      RunConserves(trace, calls, i - 1);
      assert Step(trace[i - 1], calls[i - 1], trace[i]);
      StepLoose(trace[i - 1], calls[i - 1], trace[i]);
      if Lost(trace, calls, i) == 0 {
        SameSet(trace[i - 1].loose, trace[i].loose);
      }
    }
  }

  lemma SameSet(a: set<nat>, b: set<nat>)
    requires a <= b && |a| == |b|
    ensures a == b
  {
    assert b == a + (b - a);
  }

  /** Throughout, a process that is not hollow has exactly the pages its size calls for. */
  lemma AgreesOrHollow(trace: seq<Snap>, calls: seq<Call>, i: nat, d: nat)
    requires IsRun(trace, calls) && i < |trace| && d in trace[i].sizes && d !in trace[i].holes
    ensures Agrees(trace[i].mem, d, trace[i].sizes[d])
  {
    hide Inv, Agrees, Hollow;
    assert Ok(trace[i]);
    assert SpaceOk(trace[i].mem, d, trace[i].sizes[d], false);
  }

  /** Without a call that shrinks a process to exactly 0, no process becomes hollow. */
  lemma {:induction false} NoHoles(trace: seq<Snap>, calls: seq<Call>, i: nat)
    requires IsRun(trace, calls) && i < |trace|
    requires forall k :: 0 <= k < |trace| - 1 && calls[k].Grow? && calls[k].d in trace[k].sizes ==>
               calls[k].n >= 0 || calls[k].n + trace[k].sizes[calls[k].d] != 0
    ensures trace[i].holes <= trace[0].holes
  {
    hide Ok, Stops, CopyState, ProgramReady, UserWrite, Startable, LosesFrame, SpaceFrames, Agrees, FramesToGrow, Loses;
    if i > 0 {
      NoHoles(trace, calls, i - 1);
      assert Step(trace[i - 1], calls[i - 1], trace[i]);
    }
  }

  /** Whether call c may change what process d reads: the other processes' calls cannot, nor can fork or the MMU's marks. */
  predicate Touches(c: Call, d: nat) {
    c.d == d && !c.Fork? && !c.Access?
  }

  lemma StepIsolated(s: Snap, c: Call, s': Snap, d: nat)
    requires Ok(s) && Ok(s') && Step(s, c, s') && d in s.sizes && !Touches(c, d)
    ensures d in s'.sizes && s'.sizes[d] == s.sizes[d] && (d in s'.holes <==> d in s.holes)
    ensures d < NFRAMES && forall a: Word :: UserByte(s'.mem, d, a) == UserByte(s.mem, d, a)
  {
    hide Ok, Stops, CopyState, ProgramReady, UserWrite, Startable, LosesFrame, SpaceFrames, Agrees, FramesToGrow, ResizedBytes, LowShrinks,
         KeepsOthers, UserByte, SameAccess;
    SpaceHere(s, d);
    if c.d in s.sizes && !(c.Access? && c.d == d) {
      forall a: Word ensures UserByte(s'.mem, d, a) == UserByte(s.mem, d, a) {
        WriteIsolated(s.lay, s.mem, s.own, s'.mem, s.head, s.free, if c.Fork? then NFRAMES else c.d, d, a);
      }
    }
  }

  lemma SpaceHere(s: Snap, d: nat)
    requires Ok(s) && d in s.sizes
    ensures IsA(s.own, d, Dir) && d < NFRAMES && Inv(s.lay, s.mem, s.own, s.head, s.free)
  {
    hide Inv, SpaceOk;
    SpaceOf(s.mem, s.own, s.sizes, s.kernel, Hands(s), s.holes, d);
  }

  /**
   Isolation over every run: as long as process d itself neither grows, executes, exits nor is written to, it reads the same
   bytes at the same size, whatever the others do, and whether their calls succeed or fail.
   */
  lemma {:induction false} RunIsolated(trace: seq<Snap>, calls: seq<Call>, i: nat, d: nat)
    requires IsRun(trace, calls) && i < |trace| && d in trace[0].sizes
    requires forall k :: 0 <= k < i ==> !Touches(calls[k], d)
    ensures d in trace[i].sizes && trace[i].sizes[d] == trace[0].sizes[d] && (d in trace[i].holes <==> d in trace[0].holes)
    ensures d < NFRAMES && forall a: Word :: UserByte(trace[i].mem, d, a) == UserByte(trace[0].mem, d, a)
  {
    hide Ok, Step, UserByte, Touches;
    if i > 0 {
      RunIsolated(trace, calls, i - 1, d);
      assert Step(trace[i - 1], calls[i - 1], trace[i]);
      StepIsolated(trace[i - 1], calls[i - 1], trace[i], d);
    } else {
      SpaceHere(trace[0], d);
    }
  }

  // --------------------------------------------------------- how a run begins

  /**
   The state init_pid1 leaves: its program on page 0, exactly if a kernel stack, a directory, a page and a table were free.
   With exactly one frame less the page is in no table and lost, and the first process has nothing to run.
   */
  ghost predicate Started(s: Snap, code: seq<Byte>, s': Snap, d: nat) {
    && s'.lay == s.lay && s'.kernel == s.kernel && s'.own.Keys == s.own.Keys
    && d < NFRAMES && s'.sizes == map[d := PAGE_SZ]
    && if 1 + SpaceFrames(1) <= |s.free| then
         && s'.holes == {} && s'.loose == s.loose
         && forall a: Word :: UserByte(s'.mem, d, a) == if a < PAGE_SZ then Some(if a < |code| then code[a] else 0) else None
       else
         && s'.holes == {d} && (exists f: nat :: IsA(s.own, f, Free) && s'.loose == s.loose + {f})
         && forall a: Word :: UserByte(s'.mem, d, a) == None
  }

  /** kvm_init on a memory of free frames: the kernel's directory and no process. */
  lemma FirstDirectory(lay: Layout, mem: Mem, own: Owners, m1: Mem, own1: Owners, d: nat)
    requires d < NFRAMES && KernelState(lay, mem, own, m1, own1, d, 4) && IsA(own1, d, Dir)
    requires forall f :: f in own ==> own[f] == Free
    ensures Consistent(m1, own1, map[], d, {}, {}) && own1.Keys == own.Keys
  {
  }

  /** Frames that join the free list later change nothing. */
  lemma MoreFrames(mem: Mem, own: Owners, mem': Mem, own': Owners, d: nat)
    requires Consistent(mem, own, map[], d, {}, {})
    requires forall f :: f in own' ==> own'[f] == if f in own then own[f] else Free
    requires own.Keys <= own'.Keys
    ensures Consistent(mem', own', map[], d, {}, {})
  {
  }

  lemma StackSet(d: nat, f: nat, loose: set<nat>, size: Word)
    requires f !in loose
    ensures StacksOk(map[d := size], map[d := f], loose) && loose + map[d := f].Values == loose + {f}
  {
    var t: map<nat, nat> := map[d := f];
    assert t[d] == f;
    assert t.Values == {f};
  }

  lemma StartReady(s: Snap, own1: Owners, f: nat)
    requires Ok(s) && s.sizes == map[] && IsA(s.own, f, Free) && own1 == s.own[f := Other]
    ensures s.stacks == map[] && s.holes == {} && Hands(s) == s.loose && f !in s.loose
    ensures Consistent(s.mem, own1, map[], s.kernel, s.loose + {f}, {}) && own1.Keys == s.own.Keys
  {
    hide Inv, SpaceOk;
    HandTaken(s.mem, s.own, s.sizes, s.kernel, Hands(s), s.holes, f);
  }

  lemma StartFilled(s: Snap, s': Snap, m2: Mem, own2: Owners, head: Word, free: seq<nat>, mid: Mem, ks: nat, d: nat, code: seq<Byte>)
    requires d < NFRAMES && KernelState(s.lay, s.mem, s.own[ks := Other], m2, own2, d, 4) && IsA(own2, d, Dir)
    requires Ok(s) && s.sizes == map[] && IsA(s.own, ks, Free) && Inv(s.lay, m2, own2, head, free)
    requires |code| <= PAGE_SZ && AllocState(m2, own2, mid, s'.own, d, 0, 1) && UserWrite(mid, s'.mem, s'.own, d, 0, code, |code|)
    requires Inv(s'.lay, s'.mem, s'.own, s'.head, s'.free) && 1 + SpaceFrames(1) <= |s.free|
    requires s' == s.(mem := s'.mem, own := s'.own, head := s'.head, free := s'.free, sizes := map[d := PAGE_SZ], stacks := map[d := ks])
    ensures Ok(s') && Started(s, code, s', d)
  {
    hide Inv, Consistent, KernelState, AllocState, UserWrite, UserByte, StacksOk;
    StartReady(s, s.own[ks := Other], ks);
    InvFrames(s.lay, m2, own2, head, free);
    NewSpace(s.lay, s.mem, s.own[ks := Other], m2, own2, s.kernel, s.loose + {ks}, d);
    forall a: Word ensures UserByte(m2, d, a) == None {
      KernelOnly(s.lay, s.mem, s.own[ks := Other], m2, own2, d, a);
    }
    FirstFilled(s.lay, m2, own2, head, free, mid, s'.own, s'.mem, s.kernel, s.loose + {ks}, d, code);
    StackSet(d, ks, s.loose, PAGE_SZ);
  }

  lemma StartUnfilled(s: Snap, s': Snap, m2: Mem, own2: Owners, head: Word, free: seq<nat>, ks: nat, d: nat, f: nat, code: seq<Byte>)
    requires d < NFRAMES && KernelState(s.lay, s.mem, s.own[ks := Other], m2, own2, d, 4) && IsA(own2, d, Dir)
    requires Ok(s) && s.sizes == map[] && IsA(s.own, ks, Free) && Inv(s.lay, m2, own2, head, free)
    requires f < NFRAMES && IsA(own2, f, Free) && s'.own == own2[f := Other]
    requires forall x :: 0 <= x < NFRAMES && x != f ==> s'.mem[x] == m2[x]
    requires Inv(s'.lay, s'.mem, s'.own, s'.head, s'.free) && 1 + SpaceFrames(1) > |s.free|
    requires s' == s.(mem := s'.mem, own := s'.own, head := s'.head, free := s'.free, sizes := map[d := PAGE_SZ], stacks := map[d := ks],
                      holes := {d}, loose := s.loose + {f})
    ensures Ok(s') && Started(s, code, s', d)
  {
    hide Inv, Consistent, UserByte, StacksOk;
    StartReady(s, s.own[ks := Other], ks);
    assert IsA(s.own, f, Free);
    hide KernelState;
    InvFrames(s.lay, m2, own2, head, free);
    NewSpace(s.lay, s.mem, s.own[ks := Other], m2, own2, s.kernel, s.loose + {ks}, d);
    forall a: Word ensures UserByte(m2, d, a) == None {
      KernelOnly(s.lay, s.mem, s.own[ks := Other], m2, own2, d, a);
    }
    FirstUnfilled(s.lay, m2, own2, head, free, s'.mem, s.kernel, s.loose + {ks}, d, f);
    StackSet(d, ks, s.loose + {f}, PAGE_SZ);
    assert s.loose + {ks} + {f} == s.loose + {f} + {ks};
  }

  // ------------------------------------------------------------ making the calls

  /** The page directory, size and kernel stack of every process, over one physical memory. */
  class ProcessSpaces {
    const m: Memory
    const kernel: nat
    var sizes: map<nat, Word>
    var stacks: map<nat, nat>
    var holes: set<nat>
    ghost var loose: set<nat>

    ghost function Now(): Snap
      reads this, m
    {
      Snap(m.lay, m.frames, m.own, m.freelist, m.free, kernel, sizes, stacks, holes, loose)
    }

    ghost predicate Valid()
      reads this, m
    {
      Ok(Now())
    }

    /** The kernel's own directory is there, and no process yet. */
    constructor (m: Memory, kernel: nat)
      requires m.Valid() && Consistent(m.frames, m.own, map[], kernel, {}, {})
      ensures Valid() && this.m == m && this.kernel == kernel && sizes == map[] && holes == {} && loose == {}
    {
      this.m, this.kernel, this.sizes, this.stacks, this.holes, this.loose := m, kernel, map[], map[], {}, {};
      new;
      assert Hands(Now()) == {};
    }

    /** init_pid1: the first process. The kernel panics when the program is over a page, and when the frames do not suffice. */
    method Start(code: seq<Byte>) returns (ok: bool, d: nat)
      requires Valid() && sizes == map[]
      modifies this, m
      ensures ok <==> |code| <= PAGE_SZ && SpaceFrames(1) <= |old(m.free)|
      ensures ok ==> Valid() && Started(old(Now()), code, Now(), d)
    {
      hide Inv, Consistent, StacksOk, Hands, SpaceOk, KernelState, AllocState, UserWrite, Started, Unmapped, Tables, KernelSlots, FramesToGrow;
      ghost var s := Now();
      ok, d := false, 0;
      var ka := m.Alloc();
      if ka == 0 {
        return;
      }
      var ks := KaToFrame(ka);
      ghost var own1 := m.own;
      StartReady(s, own1, ks);
      ok, d := KvmAllocate(m);
      if !ok {
        return;
      }
      ghost var mem, own, head, free := m.frames, m.own, m.freelist, m.free;
      InvFrames(m.lay, mem, own, head, free);
      NewSpace(m.lay, s.mem, own1, mem, own, kernel, s.loose + {ks}, d);
      GrowFromKernel(mem, d, 1);
      var f, mapped;
      ghost var mid;
      ok, f, mapped, mid := UvmInit1(m, d, code);
      if ok {
        sizes, stacks := map[d := PAGE_SZ], map[d := ks];
        if mapped {
          StartFilled(s, Now(), mem, own, head, free, mid, ks, d, code);
        } else {
          holes, loose := {d}, loose + {f};
          StartUnfilled(s, Now(), mem, own, head, free, ks, d, f, code);
        }
      }
    }

    /** fork's copy of the address space, with a kernel stack. The page-absent panic of uvm_copy cannot fire on a space that is not hollow. */
    method Fork(src: nat) returns (ok: bool, child: nat)
      requires Valid() && src in sizes && src !in holes
      modifies this, m
      ensures Valid() && Same(old(Now()), Now(), NFRAMES) && Forked(old(Now()), src, Now(), ok, child)
    {
      hide Inv, PagesFor, Consistent, StacksOk, Hands, SpaceOk, MappedBelow, CopyState, KeepsViews, KeepsContents, LowShrinks, SpaceFrames,
           LosesFrame, Forked, Same, Dissolved;
      ghost var s := Now();
      var ks := m.Alloc();
      if ks == 0 {
        ForkNoStack(s, src);
        return false, 0;
      }
      var f := KaToFrame(ks);
      ghost var own1 := m.own;
      ForkReady(s, own1, src, f);
      ghost var leaked;
      ok, child, leaked := UvmCopy(m, src, sizes[src]);
      if ok {
        sizes, stacks := sizes[child := sizes[src]], stacks[child := f];
        ForkDone(s, Now(), src, child, f);
      } else {
        ghost var mem, own, head, free := m.frames, m.own, m.freelist, m.free;
        ForkUndo(s, mem, own, head, free, src, f, leaked);
        FrameKaInverse(f);
        m.Free(FrameToKa(f));
        loose, child := loose + leaked, 0;
        ForkFailedStep(s, mem, own, head, free, Now(), src, f, leaked);
      }
    }

    /** grow_process. In every case but shrinking to exactly 0, size and pages stay in step. */
    method Grow(d: nat, n: int) returns (ok: bool)
      requires Valid() && d in sizes && -0x8000_0000 <= n < 0x8000_0000
      modifies this, m
      ensures Valid() && Same(old(Now()), Now(), d) && Resized(old(Now()), d, n, Now(), ok)
    {
      hide Inv, PagesFor, CanGrow, AllocState, RolledBack, UnmapState, KeepsViews, KeepsContents, LowShrinks, SpaceOk, Agrees, Hollow, Grown,
           FramesToGrow, Consistent, StacksOk, Hands, Resized, Same;
      ghost var s := Now();
      var sz := sizes[d];
      SpaceOf(m.frames, m.own, sizes, kernel, Hands(s), holes, d);
      if n == 0 {
        GrowNothing(s, d);
        return true;
      }
      if n > 0 {
        OkCanGrow(m.frames, d, sz, sz + n, d in holes);
        var r := UvmAllocate(m, d, sz, sz + n);
        if r == 0 {
          GrowFailed(s, Now(), d, n);
          return false;
        }
        sizes := sizes[d := r];
        GrowDone(s, Now(), d, n);
        return true;
      } else {
        var newsz: Word := Wrap(sz + n);
        WrapSub(sz, -n);
        var r := UvmDeallocate(m, d, sz, newsz);
        ok := r != 0;
        if newsz > sz {
          // below zero the new size wraps, uvm_deallocate returns the old one, and that is stored again
          GrowNone(s, d, n);
        } else if ok {
          sizes := sizes[d := r];
          ShrinkDone(s, Now(), d, n);
        } else {
          holes := holes + {d};
          ShrinkToNothing(s, Now(), d, n);
        }
      }
    }

    /**
     exec: process d continues in directory e, and agrees with its size even if it was hollow. When the new directory is
     freed twice nothing is promised.
     */
    method Execute(d: nat, file: seq<Byte>, phs: seq<Segment>, argv: seq<seq<Byte>>) returns (ok: bool, e: nat, sp: Word, twice: bool)
      requires Valid() && d in sizes && |file| <= FsLayout.MAXFILE && ArgsSafe(m.frames, phs, argv)
      requires |argv| != MAXARGS + 1 && forall k :: 0 <= k < |argv| ==> |argv[k]| < WORDS - 1
      modifies this, m
      ensures twice <==> FreesTwice(|old(m.free)|)
      ensures |old(m.free)| == 1 ==> SelfLinked(m.frames, m.freelist)
      ensures !twice ==> Valid() && Same(old(Now()), Now(), d) && Execed(old(Now()), d, file, phs, argv, Now(), ok, e, sp)
    {
      hide Inv, Consistent, StacksOk, Hands, SpaceOk, Replaced, Startable, ArgsSafe, LowShrinks, ProgramReady, KeepsOthers, Execed, Same;
      ghost var s := Now();
      Before(s, d);
      StackOf(s, d);
      var size;
      ok, e, size, sp, twice := ExecProgram(m, d, file, phs, argv);
      if ok {
        stacks := (stacks - {d})[e := stacks[d]];
        sizes := (sizes - {d})[e := size];
        holes := holes - {d};
        ExecDone(s, Now(), d, file, phs, argv, e, size, sp);
      } else if !twice {
        ExecFailed(s, Now(), d, file, phs, argv, e, sp);
      }
    }

    /** The release of an exited process: vmfree, and then its kernel stack. */
    method Reap(d: nat)
      requires Valid() && d in sizes
      modifies this, m
      ensures d in old(stacks) && Valid() && Same(old(Now()), Now(), d) && Reaped(old(Now()), d, Now())
    {
      hide Inv, Consistent, StacksOk, Hands, SpaceOk, LowShrinks, KeepsViews, KeepsContents, Reaped, Same, Dissolved;
      ghost var s := Now();
      Before(s, d);
      StackOf(s, d);
      var f := stacks[d];
      VmFree(m, d);
      ghost var mem, own, head, free := m.frames, m.own, m.freelist, m.free;
      ReapReady(s, mem, own, head, free, d, f);
      FrameKaInverse(f);
      m.Free(FrameToKa(f));
      sizes, stacks, holes := sizes - {d}, stacks - {d}, holes - {d};
      ReapDone(s, mem, own, head, free, Now(), d, f);
    }

    /** uvm_memcpy into the space of process d. */
    method CopyOut(d: nat, vaddr: Word, buf: seq<Byte>) returns (ok: bool, ghost done: nat)
      requires Valid() && d in sizes && d < NFRAMES && |buf| < WORDS
      requires forall a: Word :: PageAlignDown(vaddr) <= a < vaddr + |buf| ==> AliasFree(m.frames, d, a)
      modifies m
      ensures Valid() && Same(old(Now()), Now(), d) && CopiedIn(old(Now()), d, vaddr, buf, Now(), ok, done)
    {
      hide Inv, Consistent, StacksOk, Hands, SpaceOk, UserWrite, AliasFree, PageAlignDown, LowShrinks, Same;
      ghost var s := Now();
      Before(s, d);
      ok, done := UvmMemcpy(m, d, vaddr, buf);
      WriteDone(s, Now(), d, vaddr, buf, done);
    }

    /** A store of one byte by the program of process d. */
    method Store(d: nat, a: Word, b: Byte) returns (ok: bool)
      requires Valid() && d in sizes
      modifies m
      ensures Valid() && Same(old(Now()), Now(), d) && Stored(old(Now()), d, a, b, Now(), ok)
    {
      hide Inv, Consistent, StacksOk, Hands, SpaceOk, UserWrite, LowShrinks, Same, UserFrame, PageDirectoryIdx, PageTableIdx, ByteAt, Lookup,
           Present, IsUser, IsWritable, PteFrame;
      ghost var s := Now();
      Before(s, d);
      MemcpyInit(m.frames, m.own, d, a, [b]);
      ok := false;
      StoreEntry(m.lay, m.frames, m.own, m.freelist, m.free, d, a);
      var pde := m.frames[d][PageDirectoryIdx(a)];
      if pde != 0 {
        var w := m.frames[PteFrame(pde)][PageTableIdx(a)];
        if Present(w) && IsUser(w) && IsWritable(w) {
          var f := PteFrame(w);
          var g := CopyIn(m.frames[f], a % PAGE_SZ, [b], 0, 1);
          MemcpyTurn(m.lay, s.mem, m.own, s.mem, m.freelist, m.free, d, a, [b], 0, a, 1, g);
          m.frames := m.frames[f := g];
          ok := true;
        }
      }
      WriteDone(s, Now(), d, a, [b], if ok then 1 else 0);
    }

    /** The MMU translates an address for the program of process d, and marks the entries on its way. */
    method Access(d: nat, a: Word, store: bool)
      requires Valid() && d in sizes
      modifies m
      ensures Valid() && Same(old(Now()), Now(), d) && Accessed(old(Now()), d, Now())
    {
      hide Inv, Consistent, StacksOk, Hands, SpaceOk, LowShrinks, KeepsContents, SameAccess, UserByte, KeepsViews, Same, Accessed;
      ghost var s := Now();
      Before(s, d);
      Touch(m, d, a, store);
      AccessDone(s, Now(), d);
    }

    /** One call, unless the kernel stops at it. */
    method Make(c: Call) returns (made: bool)
      requires Valid() && c.InRange()
      modifies this, m
      ensures made ==> Valid() && Step(old(Now()), c, Now())
      ensures !made ==> Stops(old(Now()), c)
    {
      hide Inv, Consistent, StacksOk, Hands, SpaceOk, Same, Forked, Resized, Execed, Reaped, CopiedIn, Stored, Accessed, AliasFree, PageAlignDown,
           ArgsSafe, SelfLinked;
      ghost var s := Now();
      if c.d !in sizes {
        return true;
      }
      Before(s, c.d);
      StackOf(s, c.d);
      made := true;
      match c
      case Fork(d) =>
        if d in holes {
          return false;
        }
        var _, _ := Fork(d);
      case Grow(d, n) => var _ := Grow(d, n);
      case Exec(d, file, phs, argv) =>
        if |argv| == MAXARGS + 1 || !ArgsSafe(m.frames, phs, argv) {
          return false;
        }
        var _, _, _, twice := Execute(d, file, phs, argv);
        made := !twice;
      case Reap(d) => Reap(d);
      case Copy(d, vaddr, buf) =>
        if exists a: Word :: PageAlignDown(vaddr) <= a < vaddr + |buf| && !AliasFree(m.frames, d, a) {
          return false;
        }
        var _, _ := CopyOut(d, vaddr, buf);
      case Store(d, a, b) => var _ := Store(d, a, b);
      case Access(d, a, store) => Access(d, a, store);
    }

    /** Makes the calls in order, up to the first at which the kernel stops. */
    method Run(calls: seq<Call>) returns (made: nat, ghost trace: seq<Snap>)
      requires Valid() && forall i :: 0 <= i < |calls| ==> calls[i].InRange()
      modifies this, m
      ensures made <= |calls| && |trace| == made + 1 && trace[0] == old(Now()) && IsRun(trace, calls)
      ensures if made == |calls| then Valid() && trace[made] == Now() else Stops(trace[made], calls[made])
    {
      hide Ok, Step, Stops;
      made, trace := 0, [Now()];
      while made < |calls|
        invariant made <= |calls| && |trace| == made + 1 && trace[0] == old(Now()) && IsRun(trace, calls)
        invariant Valid() && trace[made] == Now()
      {
        var ok := Make(calls[made]);
        if !ok {
          return;
        }
        made, trace := made + 1, trace + [Now()];
      }
    }
  }

  /** kmain, as far as memory goes: the first four megabytes, the kernel's directory, the rest. It panics exactly if the directory cannot be had. */
  method Boot(lay: Layout, frames: Mem) returns (p: ProcessSpaces?)
    requires lay.Valid() && LowFrameOk(lay, frames)
    ensures p != null <==> lay.end + KERNEL_FRAMES <= BOOT_FRAMES
    ensures p != null ==>
              && fresh(p) && fresh(p.m) && p.Valid() && p.m.lay == lay && p.sizes == map[] && p.loose == {}
              && |p.m.free| == NFRAMES - lay.end - KERNEL_FRAMES && forall f: nat :: f in p.m.own <==> lay.end <= f < NFRAMES
  {
    hide Inv, Consistent, KernelState, Tables, KernelSlots;
    var m := new Memory(lay, frames);
    var end: Word := KERN_BASE + lay.end * PAGE_SZ;
    m.FreeRange(end, KERN_BASE + BOOT_FRAMES * PAGE_SZ);
    ghost var mem, own := m.frames, m.own;
    var ok, d := KvmAllocate(m);
    if !ok {
      return null;
    }
    FirstDirectory(lay, mem, own, m.frames, m.own, d);
    ghost var mem1, own1 := m.frames, m.own;
    m.FreeRange(KERN_BASE + BOOT_FRAMES * PAGE_SZ, KERN_BASE + PHYSTOP);
    MoreFrames(mem1, own1, m.frames, m.own, d);
    p := new ProcessSpaces(m, d);
  }

  /**
   From power-on: boot, the first process with its program, and then any calls. At every state every frame above the kernel is in
   exactly one place, and those lost are one for each fork that ran out of frames where a table starts.
   */
  method Session(lay: Layout, frames: Mem, code: seq<Byte>, calls: seq<Call>) returns (booted: bool, made: nat, ghost trace: seq<Snap>)
    requires lay.Valid() && LowFrameOk(lay, frames) && forall i :: 0 <= i < |calls| ==> calls[i].InRange()
    ensures booted <==> lay.end + KERNEL_FRAMES <= BOOT_FRAMES && |code| <= PAGE_SZ
    ensures booted ==> made <= |calls| && |trace| == made + 1 && IsRun(trace, calls) && (made < |calls| ==> Stops(trace[made], calls[made]))
    ensures booted ==> trace[0].holes == {} && exists d :: trace[0].sizes == map[d := PAGE_SZ]
    ensures booted ==> forall i :: 0 <= i < |trace| ==>
              && (forall f: nat :: f in trace[i].own <==> lay.end <= f < NFRAMES)
              && |trace[i].loose| == Lost(trace, calls, i)
  {
    hide Inv, Ok, IsRun, Stops, UserByte, Consistent;
    booted, made, trace := false, 0, [];
    var p := Boot(lay, frames);
    if p == null {
      return;
    }
    var d;
    ghost var s := p.Now();
    booted, d := p.Start(code);
    if booted {
      made, trace := p.Run(calls);
      forall i | 0 <= i < |trace|
        ensures (forall f: nat :: f in trace[i].own <==> f in s.own) && |trace[i].loose| == Lost(trace, calls, i)
      {
        RunConserves(trace, calls, i);
      }
    }
  }

  // ------------------------------------------------------------- exec and reaping

  lemma ExecDone(s: Snap, s': Snap, d: nat, file: seq<Byte>, phs: seq<Segment>, argv: seq<seq<Byte>>, e: nat, size: Word, sp: Word)
    requires e < NFRAMES && ProgramReady(s'.mem, e, size, sp, file, phs, argv) && Startable(file, phs, argv, |s.free|)
    requires d in s.sizes && d in s.stacks
    requires s' == s.(mem := s'.mem, own := s'.own, head := s'.head, free := s'.free, sizes := s'.sizes, stacks := s'.stacks,
                      holes := s.holes - {d})
    requires s'.sizes == (s.sizes - {d})[e := size] && s'.stacks == (s.stacks - {d})[e := s.stacks[d]]
    requires Ok(s) && d < NFRAMES && IsA(s.own, e, Free)
    requires Replaced(s.own, s'.own, d, e) && KeepsOthers(s.own, s.mem, s'.mem, d) && LowShrinks(s.mem, s'.mem)
    requires Inv(s'.lay, s'.mem, s'.own, s'.head, s'.free)
    ensures Ok(s') && Same(s, s', d) && Execed(s, d, file, phs, argv, s', true, e, sp)
  {
    hide Inv, SpaceOk, Startable, LowShrinks, Guarded, StackImage, Ascending, Loaded, NewPages, MappedExactly;
    ImageTop(s'.mem, e, sp, size, argv);
    OthersViews(s.own, s.mem, s'.mem, d);
    ExecConsistent(s.mem, s.own, s'.mem, s'.own, s.sizes, s.kernel, Hands(s), s.holes, d, e, size);
    ReplacedKeys(s.own, s'.own, d, e);
    assert IsA(s.own, e, Dir) <==> e in s.sizes || e == s.kernel;
    StackMoved(s, d, e);
  }

  lemma OthersAny(lay: Layout, mem: Mem, own: Owners, head: Word, free: seq<nat>, mem': Mem, d: nat)
    requires Inv(lay, mem, own, head, free) && KeepsOthers(own, mem, mem', NFRAMES)
    ensures KeepsOthers(own, mem, mem', d)
  {
    forall f | f in own && own[f].Page? && f < NFRAMES ensures own[f].dir < NFRAMES {
      assert FrameOk(lay, mem, own, f);
      OwnedFrame(lay, mem, own, head, free, own[f].dir);
    }
  }

  lemma OthersViews(own: Owners, mem: Mem, mem': Mem, d: nat)
    requires KeepsOthers(own, mem, mem', d)
    ensures KeepsViews(own, mem, mem', d)
  {
  }

  lemma StackMoved(s: Snap, d: nat, e: nat)
    requires StacksOk(s.sizes, s.stacks, s.loose) && d in s.sizes && e !in s.sizes
    ensures StacksOk((s.sizes - {d})[e := 0], (s.stacks - {d})[e := s.stacks[d]], s.loose)
    ensures (s.stacks - {d})[e := s.stacks[d]].Values == s.stacks.Values
  {
    var t := (s.stacks - {d})[e := s.stacks[d]];
    forall x ensures x in t.Values <==> x in s.stacks.Values {
      if x in s.stacks.Values {
        var k :| k in s.stacks && s.stacks[k] == x;
        assert t[if k == d then e else k] == x;
      }
    }
  }

  lemma ExecFailed(s: Snap, s': Snap, d: nat, file: seq<Byte>, phs: seq<Segment>, argv: seq<seq<Byte>>, e: nat, sp: Word)
    requires Ok(s) && d in s.sizes && KeepsOthers(s.own, s.mem, s'.mem, NFRAMES) && LowShrinks(s.mem, s'.mem)
    requires Inv(s'.lay, s'.mem, s'.own, s'.head, s'.free) && !Startable(file, phs, argv, |s.free|)
    requires s' == s.(mem := s'.mem, head := s'.head, free := s'.free)
    ensures d in s.stacks && Ok(s') && Same(s, s', d) && Execed(s, d, file, phs, argv, s', false, e, sp)
  {
    hide Inv, SpaceOk, Startable, LowShrinks;
    OthersViews(s.own, s.mem, s'.mem, NFRAMES);
    OthersAny(s.lay, s.mem, s.own, s.head, s.free, s'.mem, d);
    AllKept(s.mem, s.own, s'.mem, s.sizes, s.kernel, Hands(s), s.holes);
  }

  lemma StackOf(s: Snap, d: nat)
    requires Ok(s) && d in s.sizes
    ensures d in s.stacks && s.stacks[d] in s.stacks.Values && IsA(s.own, s.stacks[d], Other) && s.stacks[d] < NFRAMES
  {
    InHand(s);
    assert s.stacks[d] in s.stacks.Values;
    OwnedFrame(s.lay, s.mem, s.own, s.head, s.free, s.stacks[d]);
  }

  lemma ReapReady(s: Snap, mem: Mem, own: Owners, head: Word, free: seq<nat>, d: nat, f: nat)
    requires Ok(s) && d in s.sizes && d in s.stacks && f == s.stacks[d] < NFRAMES && IsA(s.own, f, Other)
    requires own == Dissolved(s.own, d, Free) && KeepsViews(s.own, s.mem, mem, d) && Inv(s.lay, mem, own, head, free)
    ensures IsA(own, f, Other) && s.lay.end <= f
    ensures Consistent(mem, own, s.sizes - {d}, s.kernel, Hands(s), s.holes - {d})
  {
    hide Inv, SpaceOk;
    ExitConsistent(s.mem, s.own, mem, s.sizes, s.kernel, Hands(s), s.holes, d);
    OwnedFrame(s.lay, mem, own, head, free, f);
  }

  lemma ReapDone(s: Snap, mem: Mem, own: Owners, head: Word, free: seq<nat>, s': Snap, d: nat, f: nat)
    requires Ok(s) && d in s.sizes && d in s.stacks && f == s.stacks[d] < NFRAMES && IsA(s.own, f, Other)
    requires own == Dissolved(s.own, d, Free) && KeepsViews(s.own, s.mem, mem, d) && KeepsContents(own, s.mem, mem)
    requires Inv(s.lay, mem, own, head, free) && LowShrinks(s.mem, mem)
    requires s' == s.(mem := SetWord(mem, f, 0, head), own := own[f := Free], head := s'.head, free := s'.free,
                      sizes := s.sizes - {d}, stacks := s.stacks - {d}, holes := s.holes - {d})
    requires Inv(s'.lay, s'.mem, s'.own, s'.head, s'.free)
    ensures Ok(s') && Same(s, s', d) && Reaped(s, d, s')
  {
    hide Inv, SpaceOk, LowShrinks, KeepsViews, KeepsContents, KeepsOthers;
    ReapReady(s, mem, own, head, free, d, f);
    HandReturned(s.lay, mem, own, head, free, s.sizes - {d}, s.kernel, Hands(s), s.holes - {d}, f, head);
    LowTrans(s.mem, mem, s'.mem);
    StackGone(s, d);
    ReapOthers(s, mem, own, head, free, d, f);
  }

  lemma ReapOthers(s: Snap, mem: Mem, own: Owners, head: Word, free: seq<nat>, d: nat, f: nat)
    requires Inv(s.lay, mem, own, head, free) && IsA(s.own, d, Dir) && IsA(s.own, f, Other) && IsA(own, f, Other) && f < NFRAMES
    requires own == Dissolved(s.own, d, Free) && KeepsViews(s.own, s.mem, mem, d) && KeepsContents(own, s.mem, mem)
    ensures KeepsOthers(s.own, s.mem, SetWord(mem, f, 0, head), d)
  {
    hide Inv, FramesOk;
    var mem' := SetWord(mem, f, 0, head);
    OwnedFrame(s.lay, mem, own, head, free, f);
    InvFrames(s.lay, mem, own, head, free);
    TiesStand(s.lay, mem, own, mem', f);
    forall e: nat | IsA(s.own, e, Dir) && e != d && e < NFRAMES ensures SameView(s.mem, mem', e) {
      assert IsA(own, e, Dir);
      SameViewTrans(s.mem, mem, mem', e);
    }
    forall x | x in s.own && s.own[x].Page? && s.own[x].dir != d && x < NFRAMES ensures mem'[x] == s.mem[x] {
      assert own[x] == s.own[x];
    }
  }

  lemma StackGone(s: Snap, d: nat)
    requires StacksOk(s.sizes, s.stacks, s.loose) && d in s.sizes
    ensures StacksOk(s.sizes - {d}, s.stacks - {d}, s.loose)
    ensures s.loose + (s.stacks - {d}).Values == Hands(s) - {s.stacks[d]}
  {
    var t := s.stacks - {d};
    assert s.stacks[d] in s.stacks.Values;
    forall x ensures x in t.Values <==> x in s.stacks.Values && x != s.stacks[d] {
      if x in s.stacks.Values && x != s.stacks[d] {
        var k :| k in s.stacks && s.stacks[k] == x;
        assert t[k] == x;
      }
    }
  }

  // ------------------------------------------------------------- writes and accesses

  lemma WriteDone(s: Snap, s': Snap, d: nat, vaddr: Word, buf: seq<Byte>, done: nat)
    requires Ok(s) && d in s.sizes && d < NFRAMES && s' == s.(mem := s'.mem, head := s'.head)
    requires Inv(s'.lay, s'.mem, s'.own, s'.head, s'.free) && UserWrite(s.mem, s'.mem, s.own, d, vaddr, buf, done)
    ensures Ok(s') && Same(s, s', d)
  {
    hide Inv, Consistent, UserWrite, OnlyPagesOf, KeepsOthers, LowShrinks;
    Before(s, d);
    OnlyWrites(s.mem, s'.mem, s.own, d, vaddr, buf, done);
    OthersOfWrite(s.lay, s.mem, s.own, s'.mem, s'.head, s'.free, d);
    Wrote(s.lay, s.mem, s.own, s'.mem, s'.head, s.free, s.sizes, s.kernel, Hands(s), s.holes, d, vaddr, buf, done);
  }

  lemma AccessDone(s: Snap, s': Snap, d: nat)
    requires Ok(s) && d in s.sizes && d < NFRAMES && s' == s.(mem := s'.mem, head := s'.head)
    requires Inv(s'.lay, s'.mem, s'.own, s'.head, s'.free) && s'.mem[0] == s.mem[0]
    requires KeepsViews(s.own, s.mem, s'.mem, d) && KeepsContents(s.own, s.mem, s'.mem) && SameAccess(s.mem, s'.mem, d)
    ensures Ok(s') && Same(s, s', d) && Accessed(s, d, s')
  {
    hide Inv, Consistent, LowShrinks, KeepsContents, KeepsOthers, SameAccess, UserByte, SameView;
    LowEqual(s.mem, s'.mem);
    OthersOf(s.own, s.mem, s'.mem, d);
    TouchConsistent(s.mem, s.own, s'.mem, s.sizes, s.kernel, Hands(s), s.holes, d);
    forall e: nat, b: Word | IsA(s.own, e, Dir) && e < NFRAMES ensures UserByte(s'.mem, e, b) == UserByte(s.mem, e, b) {
      if e != d {
        AccessOfView(s.mem, s'.mem, e);
      }
      SameReads(s.lay, s.mem, s.own, s.head, s.free, s'.mem, e, b);
    }
  }

  // ------------------------------------------------------ what others see

  lemma OthersOf(own: Owners, mem: Mem, mem': Mem, d: nat)
    requires KeepsViews(own, mem, mem', d) && KeepsContents(own, mem, mem')
    ensures KeepsOthers(own, mem, mem', d)
  {
  }

  lemma OthersSame(own: Owners, mem: Mem, d: nat)
    ensures KeepsOthers(own, mem, mem, d) && LowShrinks(mem, mem)
  {
  }

  lemma GrowOthers(lay: Layout, mem: Mem, own: Owners, mem': Mem, own': Owners, d: nat, lo: nat, hi: nat)
    requires d < NFRAMES && lo <= hi <= USER_PAGES && IsA(own, d, Dir) && lay.Valid() && FramesOk(lay, mem, own)
    requires AllocState(mem, own, mem', own', d, lo, hi)
    ensures KeepsOthers(own, mem, mem', d) && ResizedBytes(mem, mem', d, lo, hi)
  {
    hide AllocState, FramesOk, UserByte;
    forall a: Word
      ensures UserByte(mem', d, a) == if lo <= a / PAGE_SZ < hi then Some(0) else if hi <= a / PAGE_SZ < lo then None else UserByte(mem, d, a)
    {
      AllocBytes(lay, mem, own, mem', own', d, lo, hi, a);
    }
    AllocOthers(mem, own, mem', own', d, lo, hi);
  }

  lemma AllocOthers(mem: Mem, own: Owners, mem': Mem, own': Owners, d: nat, lo: nat, hi: nat)
    requires d < NFRAMES && AllocState(mem, own, mem', own', d, lo, hi)
    ensures KeepsOthers(own, mem, mem', d)
  {
  }

  lemma UndoneOthers(lay: Layout, mem: Mem, own: Owners, head: Word, free: seq<nat>, mem': Mem, own': Owners, d: nat, n: nat)
    requires d < NFRAMES && Inv(lay, mem, own, head, free) && IsA(own, d, Dir) && RolledBack(mem, own, mem', own', d)
    ensures KeepsOthers(own, mem, mem', d) && ResizedBytes(mem, mem', d, n, n)
  {
    hide Inv, UserByte, SameAccess;
    AccessOfView(mem, mem', d);
    forall a: Word ensures UserByte(mem', d, a) == UserByte(mem, d, a) {
      SameReads(lay, mem, own, head, free, mem', d, a);
    }
  }

  lemma ShrunkOthers(lay: Layout, mem: Mem, own: Owners, mem': Mem, own': Owners, d: nat, lo: nat, hi: nat)
    requires d < NFRAMES && lo <= hi <= USER_PAGES && IsA(own, d, Dir) && lay.Valid() && FramesOk(lay, mem, own)
    requires UnmapState(mem, own, mem', own', d, lo, hi)
    ensures KeepsOthers(own, mem, mem', d) && ResizedBytes(mem, mem', d, hi, lo)
  {
    hide FramesOk, PageDirectoryIdx, PageTableIdx, UserByte;
    forall f | f in own && own[f].Page? && own[f].dir != d && f < NFRAMES ensures mem'[f] == mem[f] {
      assert own'[f] == own[f];
    }
    forall a: Word ensures UserByte(mem', d, a) == if lo <= a / PAGE_SZ < hi then None else UserByte(mem, d, a) {
      ShrunkByte(lay, mem, own, mem', own', d, lo, hi, a);
    }
  }

  lemma ShrunkByte(lay: Layout, mem: Mem, own: Owners, mem': Mem, own': Owners, d: nat, lo: nat, hi: nat, a: Word)
    requires d < NFRAMES && lo <= hi <= USER_PAGES && IsA(own, d, Dir) && lay.Valid() && FramesOk(lay, mem, own)
    requires UnmapState(mem, own, mem', own', d, lo, hi)
    ensures UserByte(mem', d, a) == if lo <= a / PAGE_SZ < hi then None else UserByte(mem, d, a)
  {
    hide FramesOk, PageDirectoryIdx, PageTableIdx, KeepsViews, LowShrinks, IsUser, Present;
    var i, j := PageDirectoryIdx(a), PageTableIdx(a);
    AddressFields(a);
    ZeroNotPresent();
    assert Lookup(mem', d, i, j) == if lo <= a / PAGE_SZ < hi then 0 else Lookup(mem, d, i, j);
    if !(lo <= a / PAGE_SZ < hi) && UserFrame(mem, d, a).Some? {
      UserFrameOwned(lay, mem, own, d, a);
      assert own'[UserFrame(mem, d, a).value] == own[UserFrame(mem, d, a).value];
    }
  }

  // ---------------------------------------------------------- one process alone

  /** A step that changes one process's space, and no other frame's role. */
  lemma OneProcess(s: Snap, s': Snap, d: nat, size: Word, hollow: bool)
    requires Ok(s) && d in s.sizes && SameRoles(s.own, s'.own) && KeepsViews(s.own, s.mem, s'.mem, d) && SpaceOk(s'.mem, d, size, hollow)
    requires s' == s.(mem := s'.mem, own := s'.own, head := s'.head, free := s'.free, sizes := s.sizes[d := size],
                      holes := if hollow then s.holes + {d} else s.holes - {d})
    requires Inv(s'.lay, s'.mem, s'.own, s'.head, s'.free)
    ensures Ok(s')
  {
    hide Inv, SpaceOk, KeepsViews;
    OneSpace(s.mem, s.own, s'.mem, s'.own, s.sizes, s.kernel, Hands(s), s.holes, d, size, hollow);
  }

  /** What a process's state is before a call. */
  lemma Before(s: Snap, d: nat)
    requires Ok(s) && d in s.sizes
    ensures IsA(s.own, d, Dir) && d < NFRAMES && s.sizes[d] <= KERN_BASE && SpaceOk(s.mem, d, s.sizes[d], d in s.holes)
    ensures s.sizes[d := s.sizes[d]] == s.sizes && s.holes == if d in s.holes then s.holes + {d} else s.holes - {d}
  {
    hide Inv, SpaceOk;
    SpaceOf(s.mem, s.own, s.sizes, s.kernel, Hands(s), s.holes, d);
  }

  lemma GrowNothing(s: Snap, d: nat)
    requires Ok(s) && d in s.sizes
    ensures Same(s, s, d) && Resized(s, d, 0, s, true)
  {
    hide Inv, Consistent, Agrees, Hollow, KeepsOthers, LowShrinks, UserByte, PagesFor;
    Before(s, d);
    OthersSame(s.own, s.mem, d);
  }

  lemma GrowNone(s: Snap, d: nat, n: int)
    requires Ok(s) && d in s.sizes && n < 0 && n + s.sizes[d] < 0
    ensures Same(s, s, d) && Resized(s, d, n, s, s.sizes[d] != 0)
  {
    hide Inv, Consistent, Agrees, Hollow, KeepsOthers, LowShrinks, UserByte, PagesFor;
    Before(s, d);
    OthersSame(s.own, s.mem, d);
  }

  lemma GrowFailed(s: Snap, s': Snap, d: nat, n: int)
    requires Ok(s) && d in s.sizes && d < NFRAMES && 0 < n < 0x8000_0000 && s.sizes[d] <= KERN_BASE
    requires s' == s.(mem := s'.mem, own := s'.own, head := s'.head, free := s'.free)
    requires Inv(s'.lay, s'.mem, s'.own, s'.head, s'.free)
    requires if s.sizes[d] + n > KERN_BASE then s'.mem == s.mem && s'.own == s.own
             else RolledBack(s.mem, s.own, s'.mem, s'.own, d) &&
                  FramesToGrow(s.mem, d, PagesFor(s.sizes[d]), PagesFor(s.sizes[d] + n)) > |s.free|
    ensures Ok(s') && Same(s, s', d) && Resized(s, d, n, s', false)
  {
    hide Inv, Consistent, Agrees, Hollow, RolledBack, KeepsOthers, UserByte, FramesToGrow, PagesFor, KeepsViews, LowShrinks, Hands;
    Before(s, d);
    if s.sizes[d] + n > KERN_BASE {
      OthersSame(s.own, s.mem, d);
      KeepsRefl(s.own, s.mem, d);
      OneProcess(s, s', d, s.sizes[d], d in s.holes);
    } else {
      UndoneOthers(s.lay, s.mem, s.own, s.head, s.free, s'.mem, s'.own, d, PagesFor(s.sizes[d]));
      UndoneOk(s.mem, s.own, s'.mem, s'.own, d, s.sizes[d], d in s.holes);
      OneProcess(s, s', d, s.sizes[d], d in s.holes);
    }
  }

  lemma GrowDone(s: Snap, s': Snap, d: nat, n: int)
    requires Ok(s) && d in s.sizes && d < NFRAMES && 0 < n < 0x8000_0000 && s.sizes[d] + n <= KERN_BASE
    requires s' == s.(mem := s'.mem, own := s'.own, head := s'.head, free := s'.free, sizes := s.sizes[d := s.sizes[d] + n])
    requires Inv(s'.lay, s'.mem, s'.own, s'.head, s'.free)
    requires AllocState(s.mem, s.own, s'.mem, s'.own, d, PagesFor(s.sizes[d]), PagesFor(s.sizes[d] + n))
    requires FramesToGrow(s.mem, d, PagesFor(s.sizes[d]), PagesFor(s.sizes[d] + n)) <= |s.free|
    ensures Ok(s') && Same(s, s', d) && Resized(s, d, n, s', true)
  {
    hide Inv, FramesOk, Consistent, Agrees, Hollow, AllocState, ResizedBytes, KeepsOthers, FramesToGrow, PagesFor, KeepsViews, LowShrinks, Hands;
    Before(s, d);
    PagesForMonotone(s.sizes[d], s.sizes[d] + n);
    PagesForMeaning(s.sizes[d] + n);
    InvFrames(s.lay, s.mem, s.own, s.head, s.free);
    GrowOthers(s.lay, s.mem, s.own, s'.mem, s'.own, d, PagesFor(s.sizes[d]), PagesFor(s.sizes[d] + n));
    GrownOk(s.mem, s.own, s'.mem, s'.own, d, s.sizes[d], s.sizes[d] + n, d in s.holes);
    OneProcess(s, s', d, s.sizes[d] + n, d in s.holes);
  }

  lemma ShrinkDone(s: Snap, s': Snap, d: nat, n: int)
    requires Ok(s) && d in s.sizes && d < NFRAMES && n < 0 && n + s.sizes[d] > 0 && s.sizes[d] <= KERN_BASE
    requires s' == s.(mem := s'.mem, own := s'.own, head := s'.head, free := s'.free, sizes := s.sizes[d := s.sizes[d] + n])
    requires Inv(s'.lay, s'.mem, s'.own, s'.head, s'.free)
    requires UnmapState(s.mem, s.own, s'.mem, s'.own, d, PagesFor(s.sizes[d] + n), PagesFor(s.sizes[d]))
    ensures Ok(s') && Same(s, s', d) && Resized(s, d, n, s', true)
  {
    hide Inv, FramesOk, Consistent, Agrees, Hollow, UnmapState, ResizedBytes, KeepsOthers, PagesFor, KeepsViews, LowShrinks, Hands;
    Before(s, d);
    PagesForMonotone(s.sizes[d] + n, s.sizes[d]);
    PagesForMeaning(s.sizes[d]);
    InvFrames(s.lay, s.mem, s.own, s.head, s.free);
    ShrunkOthers(s.lay, s.mem, s.own, s'.mem, s'.own, d, PagesFor(s.sizes[d] + n), PagesFor(s.sizes[d]));
    ShrunkOk(s.mem, s.own, s'.mem, s'.own, d, s.sizes[d], s.sizes[d] + n, d in s.holes);
    OneProcess(s, s', d, s.sizes[d] + n, d in s.holes);
  }

  lemma ShrinkToNothing(s: Snap, s': Snap, d: nat, n: int)
    requires Ok(s) && d in s.sizes && d < NFRAMES && n < 0 && n + s.sizes[d] == 0 && s.sizes[d] <= KERN_BASE
    requires s' == s.(mem := s'.mem, own := s'.own, head := s'.head, free := s'.free, holes := s.holes + {d})
    requires Inv(s'.lay, s'.mem, s'.own, s'.head, s'.free)
    requires UnmapState(s.mem, s.own, s'.mem, s'.own, d, PagesFor(0), PagesFor(s.sizes[d]))
    ensures Ok(s') && Same(s, s', d) && Resized(s, d, n, s', false)
  {
    hide Inv, FramesOk, Consistent, Agrees, Hollow, UnmapState, ResizedBytes, KeepsOthers, PagesFor, KeepsViews, LowShrinks, Hands;
    Before(s, d);
    PagesForMonotone(0, s.sizes[d]);
    PagesForMeaning(s.sizes[d]);
    InvFrames(s.lay, s.mem, s.own, s.head, s.free);
    ShrunkOthers(s.lay, s.mem, s.own, s'.mem, s'.own, d, PagesFor(0), PagesFor(s.sizes[d]));
    ShrunkOk(s.mem, s.own, s'.mem, s'.own, d, s.sizes[d], 0, d in s.holes);
    OneProcess(s, s', d, s.sizes[d], true);
  }

  // --------------------------------------------------------------- fork

  lemma ForkNoStack(s: Snap, src: nat)
    requires Ok(s) && src in s.sizes && s.free == []
    ensures Same(s, s, NFRAMES) && Forked(s, src, s, false, 0)
  {
    OthersSame(s.own, s.mem, NFRAMES);
  }

  /** What uvm_copy finds once the kernel stack is in hand. */
  lemma ForkReady(s: Snap, own1: Owners, src: nat, f: nat)
    requires Ok(s) && src in s.sizes && src !in s.holes && IsA(s.own, f, Free) && own1 == s.own[f := Other]
    ensures IsA(own1, src, Dir) && src < NFRAMES && s.sizes[src] <= KERN_BASE && MappedBelow(s.mem, src, PagesFor(s.sizes[src]))
    ensures Consistent(s.mem, own1, s.sizes, s.kernel, Hands(s) + {f}, s.holes) && f !in Hands(s)
  {
    hide Inv, SpaceOk, PagesFor, MappedBelow;
    HandTaken(s.mem, s.own, s.sizes, s.kernel, Hands(s), s.holes, f);
    SpaceOf(s.mem, own1, s.sizes, s.kernel, Hands(s) + {f}, s.holes, src);
    CopyPanics(s.mem, src, s.sizes[src], false);
  }

  lemma ForkDone(s: Snap, s': Snap, src: nat, child: nat, f: nat)
    requires Ok(s) && src in s.sizes && src !in s.holes && src < NFRAMES && child < NFRAMES && IsA(s.own, f, Free)
    requires CopyState(s.lay, s.mem, s.own[f := Other], s'.mem, s'.own, src, child, PagesFor(s.sizes[src]))
    requires Inv(s'.lay, s'.mem, s'.own, s'.head, s'.free) && 1 + SpaceFrames(PagesFor(s.sizes[src])) <= |s.free|
    requires s' == s.(mem := s'.mem, own := s'.own, head := s'.head, free := s'.free,
                      sizes := s.sizes[child := s.sizes[src]], stacks := s.stacks[child := f])
    ensures Ok(s') && Same(s, s', NFRAMES) && Forked(s, src, s', true, child)
  {
    hide Inv, SpaceOk, PagesFor, CopyState, LowShrinks, SpaceFrames, LosesFrame;
    var own1 := s.own[f := Other];
    ForkReady(s, own1, src, f);
    LayValid(s'.lay, s'.mem, s'.own, s'.head, s'.free);
    ForkConsistent(s.lay, s.mem, own1, s'.mem, s'.own, s.sizes, s.kernel, Hands(s) + {f}, s.holes, src, child);
    CopyKeys(s.lay, s.mem, own1, s'.mem, s'.own, src, child, PagesFor(s.sizes[src]));
    StackAdded(s, child, f);
    CopyOthers(s.lay, s.mem, s.own, s'.mem, s'.own, src, child, PagesFor(s.sizes[src]), f);
  }

  lemma CopyOthers(lay: Layout, mem: Mem, own: Owners, mem': Mem, own': Owners, src: nat, d: nat, n: nat, f: nat)
    requires src < NFRAMES && d < NFRAMES && IsA(own, f, Free) && CopyState(lay, mem, own[f := Other], mem', own', src, d, n)
    ensures KeepsOthers(own, mem, mem', NFRAMES)
  {
    var own1 := own[f := Other];
    assert !IsA(own, d, Dir);
    forall e: nat | IsA(own, e, Dir) && e < NFRAMES ensures SameView(mem, mem', e) {
      assert IsA(own1, e, Dir);
    }
    forall x | x in own && own[x].Page? && x < NFRAMES ensures mem'[x] == mem[x] {
      assert own1[x] == own[x];
    }
  }

  /** A frame in hand or free may change: no space holds it. */
  lemma UndoneForkOthers(lay: Layout, s: Snap, mem: Mem, own: Owners, head: Word, free: seq<nat>, f: nat, link: Word)
    requires Inv(lay, mem, own, head, free) && IsA(own, f, Other) && f < NFRAMES && IsA(s.own, f, Free)
    requires KeepsViews(s.own[f := Other], s.mem, mem, NFRAMES) && KeepsContents(s.own[f := Other], s.mem, mem)
    requires forall e :: e in s.own && s.own[e].Dir? ==> IsA(own, e, Dir)
    ensures KeepsOthers(s.own, s.mem, SetWord(mem, f, 0, link), NFRAMES)
  {
    hide Inv, FramesOk;
    var own1 := s.own[f := Other];
    var mem' := SetWord(mem, f, 0, link);
    OwnedFrame(lay, mem, own, head, free, f);
    InvFrames(lay, mem, own, head, free);
    TiesStand(lay, mem, own, mem', f);
    forall e: nat | IsA(s.own, e, Dir) && e < NFRAMES ensures SameView(s.mem, mem', e) {
      assert IsA(own1, e, Dir) && IsA(own, e, Dir);
      SameViewTrans(s.mem, mem, mem', e);
    }
    forall x | x in s.own && s.own[x].Page? && x < NFRAMES ensures mem'[x] == s.mem[x] {
      assert own1[x] == s.own[x];
    }
  }

  lemma ForkUndo(s: Snap, mem: Mem, own: Owners, head: Word, free: seq<nat>, src: nat, f: nat, leaked: set<nat>)
    requires Ok(s) && src in s.sizes && src !in s.holes && IsA(s.own, f, Free) && f < NFRAMES && Inv(s.lay, mem, own, head, free)
    requires KeepsViews(s.own[f := Other], s.mem, mem, NFRAMES)
    requires leaked == {} ==> own == s.own[f := Other]
    requires leaked != {} ==> exists x :: leaked == {x} && IsA(s.own[f := Other], x, Free) && own == s.own[f := Other][x := Other]
    ensures IsA(own, f, Other) && s.lay.end <= f
    ensures Consistent(SetWord(mem, f, 0, head), own[f := Free], s.sizes, s.kernel, Hands(s) + {f} + leaked - {f}, s.holes)
    ensures LowShrinks(mem, SetWord(mem, f, 0, head))
  {
    hide Inv, SpaceOk, Hands;
    ForkReady(s, s.own[f := Other], src, f);
    ForkFailed(s.mem, s.own[f := Other], mem, own, s.sizes, s.kernel, Hands(s) + {f}, s.holes, leaked);
    HandReturned(s.lay, mem, own, head, free, s.sizes, s.kernel, Hands(s) + {f} + leaked, s.holes, f, head);
  }

  lemma ForkFailedStep(s: Snap, mem: Mem, own: Owners, head: Word, free: seq<nat>, s': Snap, src: nat, f: nat, leaked: set<nat>)
    requires Ok(s) && src in s.sizes && src !in s.holes && IsA(s.own, f, Free) && f < NFRAMES && Inv(s.lay, mem, own, head, free)
    requires KeepsViews(s.own[f := Other], s.mem, mem, NFRAMES) && KeepsContents(s.own[f := Other], s.mem, mem) && LowShrinks(s.mem, mem)
    requires leaked == {} ==> own == s.own[f := Other]
    requires leaked != {} ==> exists x :: leaked == {x} && IsA(s.own[f := Other], x, Free) && own == s.own[f := Other][x := Other]
    requires |s.free| > 0 && |s.free| - 1 < SpaceFrames(PagesFor(s.sizes[src]))
    requires leaked != {} <==> LosesFrame(|s.free| - 1, PagesFor(s.sizes[src]))
    requires Inv(s'.lay, s'.mem, s'.own, s'.head, s'.free)
    requires s' == s.(mem := SetWord(mem, f, 0, head), own := own[f := Free], head := s'.head, free := s'.free, loose := s.loose + leaked)
    ensures Ok(s') && Same(s, s', NFRAMES) && Forked(s, src, s', false, 0)
  {
    hide Inv, PagesFor, LowShrinks, SpaceFrames, LosesFrame, KeepsViews, KeepsContents, KeepsOthers, MappedBelow, Consistent, StacksOk, Hands;
    ForkUndo(s, mem, own, head, free, src, f, leaked);
    ForkReady(s, s.own[f := Other], src, f);
    InHand(s);
    LowTrans(s.mem, mem, s'.mem);
    Restored(s, own, s'.own, f, leaked);
    UndoneHands(s, s', f, leaked);
    UndoneForkOthers(s.lay, s, mem, own, head, free, f, head);
    assert own.Keys == s.own.Keys && s'.own.Keys == own.Keys;
  }

  lemma UndoneHands(s: Snap, s': Snap, f: nat, leaked: set<nat>)
    requires s'.loose == s.loose + leaked && s'.stacks == s.stacks
    requires s.loose + leaked + s.stacks.Values == Hands(s) + {f} + leaked - {f}
    ensures Hands(s') == Hands(s) + {f} + leaked - {f}
  {
  }

  lemma InHand(s: Snap)
    requires Ok(s)
    ensures forall x :: x in s.stacks.Values ==> IsA(s.own, x, Other)
    ensures forall x :: x in s.loose ==> IsA(s.own, x, Other)
  {
    hide Inv, SpaceOk;
    forall x | x in s.stacks.Values || x in s.loose ensures IsA(s.own, x, Other) {
      assert x in Hands(s);
    }
  }

  lemma SpaceOf(mem: Mem, own: Owners, sizes: map<nat, Word>, kernel: nat, hands: set<nat>, holes: set<nat>, d: nat)
    requires Consistent(mem, own, sizes, kernel, hands, holes) && d in sizes
    ensures IsA(own, d, Dir) && SpaceOk(mem, d, sizes[d], d in holes) && d < NFRAMES && sizes[d] <= KERN_BASE
  {
    SpaceBound(mem, d, sizes[d], d in holes);
  }

  lemma StackAdded(s: Snap, child: nat, f: nat)
    requires StacksOk(s.sizes, s.stacks, s.loose) && child !in s.sizes && f !in Hands(s)
    ensures StacksOk(s.sizes[child := 0], s.stacks[child := f], s.loose)
    ensures s.loose + s.stacks[child := f].Values == Hands(s) + {f}
  {
    var t := s.stacks[child := f];
    forall x ensures x in t.Values <==> x in s.stacks.Values || x == f {
      if x in s.stacks.Values {
        var k :| k in s.stacks && s.stacks[k] == x;
        assert t[k] == x;
      }
      if x == f {
        assert t[child] == x;
      }
    }
  }

  /** The kernel stack goes back, and what uvm_copy lost is loose. */
  lemma Restored(s: Snap, own: Owners, own': Owners, f: nat, leaked: set<nat>)
    requires IsA(s.own, f, Free) && f !in Hands(s) && own' == own[f := Free] && StacksOk(s.sizes, s.stacks, s.loose)
    requires forall x :: x in s.stacks.Values ==> IsA(s.own, x, Other)
    requires leaked == {} ==> own == s.own[f := Other]
    requires leaked != {} ==> exists x :: leaked == {x} && IsA(s.own[f := Other], x, Free) && own == s.own[f := Other][x := Other]
    ensures leaked == {} ==> own' == s.own
    ensures leaked != {} ==> exists x :: leaked == {x} && IsA(s.own, x, Free) && own' == s.own[x := Other]
    ensures s.loose + leaked + s.stacks.Values == Hands(s) + {f} + leaked - {f}
    ensures StacksOk(s.sizes, s.stacks, s.loose + leaked)
  {
    if leaked != {} {
      var x :| leaked == {x} && IsA(s.own[f := Other], x, Free) && own == s.own[f := Other][x := Other];
      assert own' == s.own[x := Other];
    }
  }
}
