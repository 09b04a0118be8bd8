/**
 exec, from the allocation of the new address space to the release of the old one.
 */
module Exec {
  import opened Wrappers
  import opened Mmu
  import opened Bytes
  import opened Frames
  import opened Palloc
  import opened Pgtbl
  import opened Vmem
  import opened UserMem
  import FsLayout
  import opened Loader
  import opened ArgStack

  /** The user pages of d that are mapped are exactly those below page n. */
  ghost predicate MappedExactly(mem: Mem, d: nat, n: nat)
    requires d < NFRAMES
  {
    forall i, j :: 0 <= i < USER_PDES && 0 <= j < NENTRIES ==>
      if Vpn(i, j) < n then Present(Lookup(mem, d, i, j)) else Lookup(mem, d, i, j) == 0
  }

  /** Every byte user code reads through d is the same in both memories. */
  ghost predicate SameUserBytes(mem: Mem, mem': Mem, d: nat, lo: nat, hi: nat)
    requires d < NFRAMES
  {
    forall a: Word :: lo <= a < hi ==> UserByte(mem', d, a) == UserByte(mem, d, a)
  }

  lemma LoadedKept(mem: Mem, mem': Mem, d: nat, file: seq<Byte>, phs: seq<Segment>, size: Word, hi: nat)
    requires d < NFRAMES && LoadedUpTo(mem, d, file, phs, |phs|, size) && SameUserBytes(mem, mem', d, 0, hi) && size <= hi
    ensures Ascending(phs) ==> forall q :: 0 <= q < |phs| && IsLoad(phs[q]) ==> Loaded(mem', d, file, phs[q])
  {
    hide UserByte, UserSpace, PagesFor;
    if Ascending(phs) {
      forall q | 0 <= q < |phs| && IsLoad(phs[q]) ensures Loaded(mem', d, file, phs[q]) {
        assert Loaded(mem, d, file, phs[q]);
      }
    }
  }

  /** The two pages exec adds above the program: bytes below are kept. */
  lemma StackPagesKeep(lay: Layout, mem: Mem, own: Owners, head: Word, free: seq<nat>, m1: Mem, own1: Owners, d: nat, size: Word)
    requires d < NFRAMES && IsA(own, d, Dir) && Inv(lay, mem, own, head, free) && size % PAGE_SZ == 0 && size + 2 * PAGE_SZ <= KERN_BASE
    requires AllocState(mem, own, m1, own1, d, PagesFor(size), PagesFor(size + 2 * PAGE_SZ))
    ensures SameUserBytes(mem, m1, d, 0, size)
  {
    hide UserByte, AllocState, PagesFor, PageAlignUp;
    AlignedPages(size);
    AlignedPages(size + 2 * PAGE_SZ);
    forall a: Word | a < size ensures UserByte(m1, d, a) == UserByte(mem, d, a) {
      AllocBytes(lay, mem, own, m1, own1, d, PagesFor(size), PagesFor(size + 2 * PAGE_SZ), a);
    }
  }

  lemma AlignedPages(size: Word)
    requires size % PAGE_SZ == 0 && size <= KERN_BASE
    ensures PagesFor(size) == size / PAGE_SZ && PageAlignUp(size) == size
  {
  }

  /** Clearing PTE_U of page g takes that page, and no other, from user code. */
  lemma GuardFrame(m1: Mem, m2: Mem, d: nat, g: Word, a: Word)
    requires d < NFRAMES
    requires var i, j := PageDirectoryIdx(g), PageTableIdx(g);
             ViewSet(m1, m2, d, i, j, ClearFlag(Lookup(m1, d, i, j), PTE_U))
    ensures UserFrame(m2, d, a) == if a / PAGE_SZ == g / PAGE_SZ then None else UserFrame(m1, d, a)
  {
    hide PageDirectoryIdx, PageTableIdx, ClearFlag, IsUser, Present;
    var i, j := PageDirectoryIdx(g), PageTableIdx(g);
    AddressFields(g);
    AddressFields(a);
    ClearUserParts(Lookup(m1, d, i, j));
    VpnInjective(PageDirectoryIdx(a), PageTableIdx(a), i, j);
  }

  /** The page stays mapped all the same. */
  lemma GuardMapped(m1: Mem, m2: Mem, d: nat, g: Word, n: nat)
    requires d < NFRAMES && UserSpace(m1, d, n) && g < KERN_BASE && g / PAGE_SZ < n
    requires var i, j := PageDirectoryIdx(g), PageTableIdx(g);
             ViewSet(m1, m2, d, i, j, ClearFlag(Lookup(m1, d, i, j), PTE_U))
    ensures MappedExactly(m2, d, n)
  {
    hide PageDirectoryIdx, PageTableIdx, ClearFlag, IsUser, Present;
    var i, j := PageDirectoryIdx(g), PageTableIdx(g);
    AddressFields(g);
    UserIndex(g);
    ClearUserParts(Lookup(m1, d, i, j));
    forall k, l | 0 <= k < USER_PDES && 0 <= l < NENTRIES
      ensures if Vpn(k, l) < n then Present(Lookup(m2, d, k, l)) else Lookup(m2, d, k, l) == 0
    {
      VpnInjective(k, l, i, j);
    }
  }

  lemma SpaceFrame(mem: Mem, d: nat, n: nat, a: Word)
    requires d < NFRAMES && UserSpace(mem, d, n) && n <= USER_PAGES && a / PAGE_SZ < n
    ensures UserFrame(mem, d, a).Some?
  {
    AddressFields(a);
    UserIndex(a);
  }

  /** clear_pte_flag on the lower of the two pages makes it the guard of the upper. */
  lemma GuardSet(lay: Layout, m1: Mem, own1: Owners, head: Word, free: seq<nat>, m2: Mem, d: nat, top: Word)
    requires d < NFRAMES && IsA(own1, d, Dir) && Inv(lay, m1, own1, head, free)
    requires 2 * PAGE_SZ <= top <= KERN_BASE && top % PAGE_SZ == 0 && UserSpace(m1, d, top / PAGE_SZ)
    requires var i, j := PageDirectoryIdx(top - 2 * PAGE_SZ), PageTableIdx(top - 2 * PAGE_SZ);
             ViewSet(m1, m2, d, i, j, ClearFlag(Lookup(m1, d, i, j), PTE_U))
    requires KeepsContents(own1, m1, m2)
    ensures Guarded(m2, d, top) && MappedExactly(m2, d, top / PAGE_SZ)
    ensures SameUserBytes(m1, m2, d, 0, top - 2 * PAGE_SZ)
  {
    hide PageDirectoryIdx, PageTableIdx, ClearFlag, IsUser, Present, ViewSet, UserSpace, FreeListOk, LowFrameOk;
    var g: Word := top - 2 * PAGE_SZ;
    forall a: Word ensures UserFrame(m2, d, a) == if a / PAGE_SZ == g / PAGE_SZ then None else UserFrame(m1, d, a) {
      GuardFrame(m1, m2, d, g, a);
    }
    forall a: Word | a / PAGE_SZ < top / PAGE_SZ ensures UserFrame(m1, d, a).Some? {
      SpaceFrame(m1, d, top / PAGE_SZ, a);
    }
    GuardMapped(m1, m2, d, g, top / PAGE_SZ);
    forall a: Word | a < g ensures UserByte(m2, d, a) == UserByte(m1, d, a) {
      UserFrameOwned(lay, m1, own1, d, a);
    }
  }

  /** Releasing another directory leaves the new program's memory alone. */
  lemma SpaceKept(lay: Layout, mem: Mem, own: Owners, head: Word, free: seq<nat>, mem': Mem, old_: nat, d: nat, a: Word)
    requires Inv(lay, mem, own, head, free) && IsA(own, d, Dir) && d < NFRAMES && d != old_ && IsA(own, old_, Dir)
    requires KeepsViews(own, mem, mem', old_) && KeepsContents(Dissolved(own, old_, Free), mem, mem')
    ensures UserByte(mem', d, a) == UserByte(mem, d, a)
  {
    assert SameView(mem, mem', d);
    var i, j := PageDirectoryIdx(a), PageTableIdx(a);
    hide PageDirectoryIdx, PageTableIdx;
    assert Lookup(mem', d, i, j) == Lookup(mem, d, i, j);
    if UserFrame(mem, d, a).Some? {
      UserFrameOwned(lay, mem, own, d, a);
      assert Dissolved(own, old_, Free)[UserFrame(mem, d, a).value] == own[UserFrame(mem, d, a).value];
    }
  }

  lemma ImageKept(mem: Mem, mem': Mem, d: nat, sp: Word, top: Word, argv: seq<seq<Byte>>)
    requires d < NFRAMES && StackImage(mem, d, sp, top, argv) && SameUserBytes(mem, mem', d, 0, WORDS)
    ensures StackImage(mem', d, sp, top, argv)
  {
    hide UserByte, Used, ArgPtr;
    forall k | 0 <= k < |argv| ensures ArgAt(mem', d, sp, top, argv, k) {
      assert ArgAt(mem, d, sp, top, argv, k);
    }
  }

  /** The frames the old directory held are free; the others moved only into the new one. */
  ghost predicate Replaced(own: Owners, own': Owners, old_: nat, d: nat) {
    && own'.Keys == own.Keys && IsA(own', d, Dir)
    && forall f :: f in own ==>
         if Holds(own, old_, f) then own'[f] == Free
         else own'[f] == own[f] || (own[f].Free? && Holds(own', d, f))
  }

  lemma ReplacedBy(own: Owners, own1: Owners, old_: nat, d: nat)
    requires BuiltFrom(own, own1, d) && IsA(own, old_, Dir)
    ensures IsA(own, d, Free) && IsA(own1, old_, Dir) && old_ != d && Replaced(own, Dissolved(own1, old_, Free), old_, d)
  {
  }

  lemma MappedKept(mem: Mem, mem': Mem, d: nat, n: nat)
    requires d < NFRAMES && MappedExactly(mem, d, n) && SameView(mem, mem', d)
    ensures MappedExactly(mem', d, n)
  {
    forall i, j | 0 <= i < USER_PDES && 0 <= j < NENTRIES ensures Lookup(mem', d, i, j) == Lookup(mem, d, i, j) {
    }
  }

  // ---------------------------------------------------------- which execs succeed

  /** The pages of the new space: the program's, the guard and the stack. */
  function NewPages(phs: seq<Segment>): nat {
    PagesTo(ProgramEnd(phs, |phs|)) + 2
  }

  /** What exec needs: acceptable segments, room below the kernel, enough free frames, and arguments that fit the stack page. */
  predicate Startable(file: seq<Byte>, phs: seq<Segment>, argv: seq<seq<Byte>>, frames: nat) {
    && Loadable(file, phs) && NewPages(phs) <= USER_PAGES && SpaceFrames(NewPages(phs)) <= frames
    && |argv| <= MAXARGS && ImageSize(argv) <= PAGE_SZ
  }

  /** The arguments cannot wrap below the device range, or there is nothing in frame 0 for them to meet. */
  predicate ArgsSafe(mem: Mem, phs: seq<Segment>, argv: seq<seq<Byte>>) {
    LowUserFree(mem) || ImageSize(argv) <= NewPages(phs) * PAGE_SZ + DEV_BYTES
  }

  /** An image that fits the stack page, or is larger by up to 32 megabytes, is safe whatever frame 0 holds. */
  lemma FittingIsSafe(mem: Mem, phs: seq<Segment>, argv: seq<seq<Byte>>)
    requires ImageSize(argv) <= 2 * PAGE_SZ + DEV_BYTES
    ensures ArgsSafe(mem, phs, argv)
  {
  }

  lemma KernelTooBig(file: seq<Byte>, phs: seq<Segment>, argv: seq<seq<Byte>>, frames: nat)
    requires frames < KERNEL_FRAMES
    ensures !Startable(file, phs, argv, frames)
  {
  }

  lemma ProgramTooBig(file: seq<Byte>, phs: seq<Segment>, argv: seq<seq<Byte>>, frames: nat)
    requires KERNEL_FRAMES <= frames
    requires !(Loadable(file, phs) && Affordable(ProgramEnd(phs, |phs|), frames - KERNEL_FRAMES))
    ensures !Startable(file, phs, argv, frames)
  {
    hide ProgramEnd, Loadable;
  }

  lemma StackPages(size: Word)
    requires size <= KERN_BASE
    ensures PageAlignUp(size) == PagesTo(size) * PAGE_SZ && PagesFor(PageAlignUp(size)) == PagesTo(size)
    ensures PageAlignUp(size) + 2 * PAGE_SZ <= KERN_BASE <==> PagesTo(size) + 2 <= USER_PAGES
    ensures PageAlignUp(size) + 2 * PAGE_SZ <= KERN_BASE ==> PagesFor(PageAlignUp(size) + 2 * PAGE_SZ) == PagesTo(size) + 2
  {
    AlignUpMeaning(size);
    PagesOfSize(size);
    RoundUp(size);
    if PageAlignUp(size) + 2 * PAGE_SZ <= KERN_BASE {
      PagesOfSize(PageAlignUp(size) + 2 * PAGE_SZ);
    }
  }

  /** Whether the guard and stack pages can be had. */
  lemma StackCost(mem: Mem, free: seq<nat>, d: nat, n: nat, frames: nat)
    requires d < NFRAMES && n + 2 <= USER_PAGES && KERNEL_FRAMES <= frames
    requires Charged(mem, free, d, n, frames - KERNEL_FRAMES)
    ensures FramesToGrow(mem, d, n, n + 2) <= |free| <==> SpaceFrames(n + 2) <= frames
  {
    GrowCharge(mem, free, d, n, n + 2, frames - KERNEL_FRAMES);
  }

  lemma MappedTables(mem: Mem, d: nat, top: Word)
    requires d < NFRAMES && top <= KERN_BASE && top % PAGE_SZ == 0 && MappedExactly(mem, d, top / PAGE_SZ)
    requires KernelSlots() <= Tables(mem, d)
    ensures TablesAround(mem, d, top)
  {
    forall a: Word | a < top ensures mem[d][PageDirectoryIdx(a)] != 0 {
      var i, j := PageDirectoryIdx(a), PageTableIdx(a);
      AddressFields(a);
      UserIndex(a);
      assert Present(Lookup(mem, d, i, j));
      ZeroNotPresent();
    }
    forall a: Word | DEV_SPACE <= a ensures mem[d][PageDirectoryIdx(a)] != 0 {
      DeviceSlot(a);
      assert PageDirectoryIdx(a) in Tables(mem, d);
    }
  }

  lemma DeviceSlot(a: Word)
    requires DEV_SPACE <= a
    ensures PageDirectoryIdx(a) in KernelSlots()
  {
    assert PageDirectoryIdx(a) in Spanned(0xF_E000, 0x10_0000);
  }

  lemma ChargedSlots(mem: Mem, free: seq<nat>, mem': Mem, d: nat, n: nat, budget: nat)
    requires d < NFRAMES && Charged(mem, free, d, n, budget) && mem'[d] == mem[d]
    ensures KernelSlots() <= Tables(mem', d)
  {
    hide KernelSlots, Spanned;
    assert Tables(mem', d) == Tables(mem, d);
  }

  lemma LowTrans(m0: Mem, m1: Mem, m2: Mem)
    requires LowShrinks(m0, m1) && LowShrinks(m1, m2)
    ensures LowShrinks(m0, m2)
  {
  }

  lemma SafeStack(m0: Mem, mem: Mem, d: nat, phs: seq<Segment>, argv: seq<seq<Byte>>, top: Word)
    requires d < NFRAMES && ArgsSafe(m0, phs, argv) && LowShrinks(m0, mem) && TablesAround(mem, d, top) && top == NewPages(phs) * PAGE_SZ
    ensures StackSafe(mem, d, top, argv)
  {
    if LowUserFree(m0) {
      LowSame(m0, mem);
    }
  }

  // ------------------------------------------------------ a directory freed twice

  /** The head of the free list is linked to itself. */
  predicate SelfLinked(mem: Mem, head: Word) {
    head >= KERN_BASE && KaToFrame(head) < NFRAMES && mem[KaToFrame(head)][0] == head
  }

  /** Such a list is none: it never ends. */
  lemma NoList(mem: Mem, head: Word, free: seq<nat>)
    requires SelfLinked(mem, head)
    ensures !Chain(mem, head, free)
  {
    if free != [] {
      FrameKaInverse(if free[0] < NFRAMES then free[0] else 0);
      if |free| >= 2 {
        FrameKaInverse(if free[1] < NFRAMES then free[1] else 0);
      }
    }
  }

  /** vmfree of a directory that is empty, and already the head of the free list: the walk clears frame 0, the free links d to itself. */
  method VmFreeAgain(m: Memory, d: nat)
    requires m.lay.Valid() && m.lay.end <= d < NFRAMES && m.frames[d] == ZeroFrame() && LowFrameOk(m.lay, m.frames)
    requires m.freelist == FrameToKa(d)
    modifies m
    ensures SelfLinked(m.frames, m.freelist) && m.freelist == FrameToKa(d)
  {
    hide PageDirectoryIdx, PageTableIdx, Present, PteFrame, Freeable, KaToFrame;
    PteFrameZero();
    ZeroNotPresent();
    var a: int := 0;
    while a < KERN_BASE
      invariant 0 <= a <= KERN_BASE && a % PAGE_SZ == 0
      invariant m.frames[d] == ZeroFrame() && LowFrameOk(m.lay, m.frames) && m.freelist == FrameToKa(d)
    {
      var pte := GetPte(m.frames, d, a);
      FreeableMeaning(m.lay, m.frames[pte.frame][pte.idx]);
      assert !Freeable(m.lay, m.frames[pte.frame][pte.idx]);
      m.frames := SetWord(m.frames, pte.frame, pte.idx, 0);
      a := a + PAGE_SZ;
    }
    var i := 0;
    while i < NENTRIES
      invariant 0 <= i <= NENTRIES && m.frames[d] == ZeroFrame() && m.freelist == FrameToKa(d)
    {
      assert !Present(m.frames[d][i]);
      i := i + 1;
    }
    FrameKaInverse(d);
    m.Free(FrameToKa(d));
  }

  lemma LoopInvalid(lay: Layout, mem: Mem, own: Owners, head: Word, free: seq<nat>)
    requires SelfLinked(mem, head)
    ensures !Inv(lay, mem, own, head, free)
  {
    NoList(mem, head, free);
  }

  /** exec's way out when kvm_allocate failed: pgtbl still holds the directory's address if there was a frame for it. */
  method FreeFailed(m: Memory, d: nat) returns (twice: bool)
    requires m.Valid()
    requires d != 0 ==> m.lay.end <= d < NFRAMES && m.freelist == FrameToKa(d)
    requires d != 0 ==> m.frames[d] == ZeroFrame() || m.frames[d][0] >= KERN_BASE
    modifies m
    ensures twice <==> d != 0
    ensures d == 0 ==> m.frames == old(m.frames) && m.own == old(m.own) && m.free == old(m.free) && m.freelist == old(m.freelist)
    ensures d != 0 && old(m.frames)[d] == ZeroFrame() ==> SelfLinked(m.frames, m.freelist) && !m.Valid()
    ensures d != 0 && old(m.frames)[d] != ZeroFrame() ==>
              KaToFrame(m.freelist) == d && m.frames == old(m.frames) && PteFrame(m.frames[d][0]) >= NFRAMES
  {
    hide PteFrame;
    twice := d != 0;
    if twice {
      FrameKaInverse(d);
      if m.frames[d] == ZeroFrame() {
        VmFreeAgain(m, d);
        LoopInvalid(m.lay, m.frames, m.own, m.freelist, m.free);
      } else {
        LinkLeaves(m.frames[d][0]);
      }
    }
  }

  /** Whether exec frees the directory of a failed kvm_allocate a second time: there was a frame for it, but not for all its tables. */
  predicate FreesTwice(frames: nat) {
    0 < frames < KERNEL_FRAMES
  }

  /**
   Builds the new address space: the segments, the guard and stack pages, the arguments. It succeeds exactly if the
   program is startable; when any step fails the directory is freed and every frame is back where it was, unless it is
   kvm_allocate that fails after it got the directory. Then the directory is freed twice, and with one free frame the
   free list becomes a loop; with more, get_pte takes the link in the freed directory for a table and leaves the memory
   of this model.
   */
  method BuildSpace(m: Memory, file: seq<Byte>, phs: seq<Segment>, argv: seq<seq<Byte>>)
    returns (ok: bool, d: nat, size: Word, sp: Word, twice: bool)
    requires m.Valid() && ArgsSafe(m.frames, phs, argv) && |file| <= FsLayout.MAXFILE
    requires |argv| != MAXARGS + 1 && forall k :: 0 <= k < |argv| ==> |argv[k]| < WORDS - 1
    modifies m
    ensures twice <==> FreesTwice(|old(m.free)|)
    ensures |old(m.free)| == 1 ==> SelfLinked(m.frames, m.freelist) && !m.Valid()
    ensures |old(m.free)| >= 2 && twice ==> KaToFrame(m.freelist) == d < NFRAMES && PteFrame(m.frames[d][0]) >= NFRAMES
    ensures !twice ==> m.Valid() && LowShrinks(old(m.frames), m.frames)
    ensures !twice ==> KeepsOthers(old(m.own), old(m.frames), m.frames, NFRAMES)
    ensures ok <==> Startable(file, phs, argv, |old(m.free)|)
    ensures !ok && !twice ==> m.own == old(m.own)
    ensures twice ==> !ok
    ensures ok ==>
              && d < NFRAMES && IsA(m.own, d, Dir) && BuiltFrom(old(m.own), m.own, d)
              && ProgramReady(m.frames, d, size, sp, file, phs, argv)
  {
    hide PageDirectoryIdx, PageTableIdx, PagesFor, PageAlignUp, Inv, KernelState, BuiltFrom, UserSpace, AllocState, RolledBack, LoadedUpTo, CanGrow,
         Guarded, LowUserFree, StackImage, KeepsViews, KeepsContents, Dissolved, Loaded, Ascending, MappedExactly, UserByte, ViewSet,
         Present, Lookup, ClearFlag, SameUserBytes, OnlyPagesOf, KeepsOthers, ArgsSafe, Loadable, ProgramEnd, Charged, Affordable, SpaceFrames,
         FramesToGrow, Tables, KernelSlots, LowShrinks, StackSafe, TablesAround, ImageSize, Grown, PagesTo;
    size, sp, twice := 0, 0, false;
    LowRefl(m.frames);
    ok, d := KvmAllocate(m);
    if !ok {
      KernelTooBig(file, phs, argv, |old(m.free)|);
      OthersAll(m.lay, old(m.frames), old(m.own), old(m.freelist), old(m.free), m.frames);
      twice := FreeFailed(m, d);
      return;
    }
    FreshKernelDir(m.lay, old(m.frames), old(m.own), m.frames, m.own, d);
    LowKept(m.lay, old(m.frames), old(m.own), m.frames, m.own, d);
    ChargedNone(m.frames, m.free, d);
    ghost var m0 := m.frames;
    ok, size := LoadSegments(m, old(m.frames), old(m.own), d, file, phs);
    LowTrans(old(m.frames), m0, m.frames);
    ghost var mem, own, head, free, loaded := m.frames, m.own, m.freelist, m.free, size;
    if !ok {
      ProgramTooBig(file, phs, argv, |old(m.free)|);
      VmFree(m, d);
      LowTrans(old(m.frames), mem, m.frames);
      OthersFreed(m.lay, old(m.frames), old(m.own), old(m.freelist), old(m.free), mem, own, m.frames, d);
      Abandon(m.lay, old(m.frames), old(m.own), old(m.freelist), old(m.free), own, d);
      return;
    }
    LoadedSpace(mem, d, file, phs, |phs|, size);
    RoundUp(size);
    StackPages(size);
    size := PageAlignUp(size);
    SpaceCanGrow(mem, d, size, size + 2 * PAGE_SZ);
    ghost var base := size;
    if base + 2 * PAGE_SZ <= KERN_BASE {
      StackCost(mem, free, d, PagesFor(base), |old(m.free)|);
    }
    var grown := UvmAllocate(m, d, size, size + 2 * PAGE_SZ);
    ghost var m1, own1, head1, free1 := m.frames, m.own, m.freelist, m.free;
    if grown == 0 {
      if base + 2 * PAGE_SZ <= KERN_BASE {
        GrowFails(mem, old(m.own), own, m1, own1, d);
        OthersTrans(old(m.own), own, old(m.frames), mem, m1, d);
      } else {
        LowRefl(mem);
      }
      LowTrans(old(m.frames), mem, m1);
      VmFree(m, d);
      LowTrans(old(m.frames), m1, m.frames);
      OthersFreed(m.lay, old(m.frames), old(m.own), old(m.freelist), old(m.free), m1, own1, m.frames, d);
      Abandon(m.lay, old(m.frames), old(m.own), old(m.freelist), old(m.free), own1, d);
      return false, d, size, sp, false;
    }
    size := grown;
    SegmentAllocated(m.lay, mem, old(m.own), own, m1, own1, d, base, size, size);
    OthersTrans(old(m.own), own, old(m.frames), mem, m1, d);
    StackPagesKeep(m.lay, mem, own, head, free, m1, own1, d, base);
    AlignedPages(size);
    GuardPresent(m1, d, size);
    ClearUser(m, d, size - 2 * PAGE_SZ);
    ghost var m2 := m.frames;
    OthersOfContents(own1, m1, m2, d);
    OthersTrans(old(m.own), own1, old(m.frames), m1, m2, d);
    GuardSet(m.lay, m1, own1, head1, free1, m2, d, size);
    LowEqual(mem, m2);
    LowTrans(old(m.frames), mem, m2);
    GrownCharge(mem, free, m1, free1, d, PagesFor(base), PagesFor(base) + 2, |old(m.free)| - KERNEL_FRAMES);
    ChargedSlots(m1, free1, m2, d, PagesFor(base) + 2, |old(m.free)| - KERNEL_FRAMES);
    MappedTables(m2, d, size);
    SafeStack(old(m.frames), m2, d, phs, argv, size);
    ok, sp := BuildStack(m, d, size, argv);
    ghost var m3 := m.frames;
    LowEqual(m2, m3);
    LowTrans(old(m.frames), m2, m3);
    OthersOfWrite(m.lay, m2, own1, m3, m.freelist, m.free, d);
    OthersTrans(old(m.own), own1, old(m.frames), m2, m3, d);
    if !ok {
      VmFree(m, d);
      LowTrans(old(m.frames), m3, m.frames);
      OthersFreed(m.lay, old(m.frames), old(m.own), old(m.freelist), old(m.free), m3, own1, m.frames, d);
      Abandon(m.lay, old(m.frames), old(m.own), old(m.freelist), old(m.free), own1, d);
      return;
    }
    OthersBuilt(m.lay, old(m.frames), old(m.own), old(m.freelist), old(m.free), own1, m3, d);
    BytesChain(mem, m1, m2, m.frames, d, base, size);
    LoadedKept(mem, m.frames, d, file, phs, loaded, base);
    MappedAfterStack(m.lay, m2, own1, m.frames, m.freelist, m.free, d, size);
  }

  /** A link, read as a directory entry, names no frame of memory. */
  lemma LinkLeaves(w: Word)
    ensures w >= KERN_BASE ==> PteFrame(w) >= NFRAMES
  {
  }

  /** A directory that was free holds nothing, so keeping all others is keeping all. */
  lemma OthersBuilt(lay: Layout, mem: Mem, own: Owners, head: Word, free: seq<nat>, own1: Owners, mem': Mem, d: nat)
    requires Inv(lay, mem, own, head, free) && BuiltFrom(own, own1, d) && KeepsOthers(own, mem, mem', d)
    ensures KeepsOthers(own, mem, mem', NFRAMES)
  {
    FreeIsNoDir(lay, mem, own, head, free, d);
  }

  lemma OthersFreed(lay: Layout, mem: Mem, own: Owners, head: Word, free: seq<nat>, m1: Mem, own1: Owners, m2: Mem, d: nat)
    requires Inv(lay, mem, own, head, free) && BuiltFrom(own, own1, d) && KeepsOthers(own, mem, m1, d)
    requires KeepsViews(own1, m1, m2, d) && KeepsContents(Dissolved(own1, d, Free), m1, m2)
    ensures KeepsOthers(own, mem, m2, NFRAMES)
  {
    OthersOfContents(own1, m1, m2, d);
    OthersTrans(own, own1, mem, m1, m2, d);
    OthersBuilt(lay, mem, own, head, free, own1, m2, d);
  }

  lemma OthersAll(lay: Layout, mem: Mem, own: Owners, head: Word, free: seq<nat>, mem': Mem)
    requires Inv(lay, mem, own, head, free) && KeepsViews(own, mem, mem', NFRAMES) && KeepsContents(own, mem, mem')
    ensures KeepsOthers(own, mem, mem', NFRAMES)
  {
  }

  lemma LowKept(lay: Layout, mem: Mem, own: Owners, m1: Mem, own1: Owners, d: nat)
    requires d < NFRAMES && KernelState(lay, mem, own, m1, own1, d, 4)
    ensures LowShrinks(mem, m1)
  {
    assert m1[0] == mem[0];
  }

  lemma LowRefl(mem: Mem)
    ensures LowShrinks(mem, mem)
  {
  }

  lemma LowEqual(mem: Mem, m1: Mem)
    requires m1[0] == mem[0]
    ensures LowShrinks(mem, m1)
  {
  }

  lemma LowSame(mem: Mem, m1: Mem)
    requires LowShrinks(mem, m1) && LowUserFree(mem)
    ensures LowUserFree(m1)
  {
    assert !Present(0);
  }

  lemma RoundUp(size: Word)
    requires size <= KERN_BASE
    ensures size <= PageAlignUp(size) <= KERN_BASE && PageAlignUp(size) % PAGE_SZ == 0
    ensures PagesFor(PageAlignUp(size)) == PagesFor(size)
  {
    AlignUpMeaning(size);
  }

  lemma GuardPresent(mem: Mem, d: nat, top: Word)
    requires d < NFRAMES && 2 * PAGE_SZ <= top <= KERN_BASE && top % PAGE_SZ == 0 && UserSpace(mem, d, top / PAGE_SZ)
    ensures Present(Lookup(mem, d, PageDirectoryIdx(top - 2 * PAGE_SZ), PageTableIdx(top - 2 * PAGE_SZ)))
  {
    AddressFields(top - 2 * PAGE_SZ);
    UserIndex(top - 2 * PAGE_SZ);
  }

  lemma BytesChain(m0: Mem, m1: Mem, m2: Mem, m3: Mem, d: nat, base: Word, top: Word)
    requires d < NFRAMES && top == base + 2 * PAGE_SZ
    requires SameUserBytes(m0, m1, d, 0, base) && SameUserBytes(m1, m2, d, 0, base)
    requires forall a: Word :: !(top - PAGE_SZ <= a < top) ==> UserByte(m3, d, a) == UserByte(m2, d, a)
    ensures SameUserBytes(m0, m3, d, 0, base)
  {
    hide UserByte;
  }

  lemma MappedAfterStack(lay: Layout, m2: Mem, own: Owners, m3: Mem, head: Word, free: seq<nat>, d: nat, top: Word)
    requires d < NFRAMES && Inv(lay, m3, own, head, free) && IsA(own, d, Dir)
    requires OnlyPagesOf(own, d, m2, m3) && MappedExactly(m2, d, top / PAGE_SZ)
    ensures MappedExactly(m3, d, top / PAGE_SZ)
  {
    WriteKeepsView(lay, m2, own, m3, d);
    MappedKept(m2, m3, d, top / PAGE_SZ);
  }

  lemma OthersReplaced(lay: Layout, m0: Mem, own: Owners, head: Word, free: seq<nat>, m1: Mem, own1: Owners, m2: Mem, old_: nat, d: nat)
    requires Inv(lay, m0, own, head, free) && KeepsOthers(own, m0, m1, NFRAMES) && BuiltFrom(own, own1, d) && IsA(own, old_, Dir)
    requires KeepsViews(own1, m1, m2, old_) && KeepsContents(Dissolved(own1, old_, Free), m1, m2)
    ensures KeepsOthers(own, m0, m2, old_)
  {
    assert KeepsViews(own, m1, m2, old_) && KeepsViews(own, m0, m1, old_);
    KeepsViewsTrans(own, m0, m1, m2, old_);
    forall f | f in own && own[f].Page? && own[f].dir != old_ && f < NFRAMES ensures m2[f] == m0[f] {
      assert FrameOk(lay, m0, own, f);
      assert Dissolved(own1, old_, Free)[f] == own[f];
    }
  }

  /** The program counter aside, what a successful exec leaves: the new memory, its size, its stack and the guard below it. */
  ghost predicate ProgramReady(mem: Mem, d: nat, size: Word, sp: Word, file: seq<Byte>, phs: seq<Segment>, argv: seq<seq<Byte>>)
    requires d < NFRAMES
  {
    && size == NewPages(phs) * PAGE_SZ && MappedExactly(mem, d, size / PAGE_SZ)
    && Guarded(mem, d, size)
    && StackImage(mem, d, sp, size, argv)
    && (Ascending(phs) ==> forall q :: 0 <= q < |phs| && IsLoad(phs[q]) ==> Loaded(mem, d, file, phs[q]))
  }

  lemma ProgramKept(lay: Layout, mem: Mem, own: Owners, head: Word, free: seq<nat>, mem': Mem, old_: nat, d: nat, size: Word, sp: Word,
                    file: seq<Byte>, phs: seq<Segment>, argv: seq<seq<Byte>>)
    requires Inv(lay, mem, own, head, free) && IsA(own, d, Dir) && d < NFRAMES && d != old_ && IsA(own, old_, Dir)
    requires KeepsViews(own, mem, mem', old_) && KeepsContents(Dissolved(own, old_, Free), mem, mem')
    requires ProgramReady(mem, d, size, sp, file, phs, argv)
    ensures ProgramReady(mem', d, size, sp, file, phs, argv)
  {
    hide UserByte, StackImage, Inv, Dissolved, KeepsContents, MappedExactly, Guarded, NewPages;
    assert SameView(mem, mem', d);
    GuardKept(mem, mem', d, size);
    forall a: Word ensures UserByte(mem', d, a) == UserByte(mem, d, a) {
      SpaceKept(lay, mem, own, head, free, mem', old_, d, a);
    }
    ImageKept(mem, mem', d, sp, size, argv);
    MappedKept(mem, mem', d, size / PAGE_SZ);
    if Ascending(phs) {
      forall q | 0 <= q < |phs| && IsLoad(phs[q]) ensures Loaded(mem', d, file, phs[q]) {
        assert Loaded(mem, d, file, phs[q]);
      }
    }
  }

  lemma GuardKept(mem: Mem, mem': Mem, d: nat, top: Word)
    requires d < NFRAMES && Guarded(mem, d, top) && SameView(mem, mem', d)
    ensures Guarded(mem', d, top)
  {
    hide PageDirectoryIdx, PageTableIdx;
    forall a: Word ensures UserFrame(mem', d, a) == UserFrame(mem, d, a) {
      assert Lookup(mem', d, PageDirectoryIdx(a), PageTableIdx(a)) == Lookup(mem, d, PageDirectoryIdx(a), PageTableIdx(a));
    }
  }

  /**
   exec: it succeeds exactly if the program is startable. On success the process runs in the new directory d and the frames of its old
   directory are free; on failure ownership of every frame is as before, unless
   the new directory is freed twice.
   */
  method ExecProgram(m: Memory, old_: nat, file: seq<Byte>, phs: seq<Segment>, argv: seq<seq<Byte>>)
    returns (ok: bool, d: nat, size: Word, sp: Word, twice: bool)
    requires m.Valid() && IsA(m.own, old_, Dir) && old_ < NFRAMES && ArgsSafe(m.frames, phs, argv) && |file| <= FsLayout.MAXFILE
    requires |argv| != MAXARGS + 1 && forall k :: 0 <= k < |argv| ==> |argv[k]| < WORDS - 1
    modifies m
    ensures twice <==> FreesTwice(|old(m.free)|)
    ensures |old(m.free)| == 1 ==> SelfLinked(m.frames, m.freelist) && !m.Valid()
    ensures !twice ==> m.Valid() && LowShrinks(old(m.frames), m.frames)
    ensures ok <==> Startable(file, phs, argv, |old(m.free)|)
    ensures !twice ==> KeepsOthers(old(m.own), old(m.frames), m.frames, if ok then old_ else NFRAMES)
    ensures !ok && !twice ==> m.own == old(m.own)
    ensures twice ==> !ok
    ensures ok ==> d < NFRAMES && IsA(old(m.own), d, Free) && Replaced(old(m.own), m.own, old_, d) && ProgramReady(m.frames, d, size, sp, file, phs, argv)
  {
    hide ProgramReady, Startable, ArgsSafe, LowShrinks, Inv, BuiltFrom, Replaced, KeepsOthers, MappedExactly, StackImage, Ascending, Loaded, KeepsViews, KeepsContents, Dissolved, ImageSize, LowUserFree;
    ok, d, size, sp, twice := BuildSpace(m, file, phs, argv);
    if ok {
      ghost var mem, own, head, free := m.frames, m.own, m.freelist, m.free;
      ReplacedBy(old(m.own), m.own, old_, d);
      VmFree(m, old_);
      LowTrans(old(m.frames), mem, m.frames);
      OthersReplaced(m.lay, old(m.frames), old(m.own), old(m.freelist), old(m.free), mem, own, m.frames, old_, d);
      ProgramKept(m.lay, mem, own, head, free, m.frames, old_, d, size, sp, file, phs, argv);
    }
  }
}
