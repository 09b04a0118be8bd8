/**
 The address space of the first process, as uvm_init1 makes it.
 */
module FirstSpace {
  import opened Wrappers
  import opened Mmu
  import opened Bytes
  import opened Frames
  import opened Palloc
  import opened Pgtbl
  import opened Vmem
  import opened UserMem
  import opened Loader
  import opened Exec
  import opened Spaces

  /**
   uvm_init1: one page for the program, filled through its kernel address. It panics on a program of more than a page and
   when there is no frame. What map_pages returns is ignored: with no frame for the table the page is filled, and mapped nowhere.
   */
  method UvmInit1(m: Memory, d: nat, code: seq<Byte>) returns (ok: bool, f: nat, mapped: bool, ghost mid: Mem)
    requires m.Valid() && IsA(m.own, d, Dir) && d < NFRAMES && Unmapped(m.frames, d, 0, USER_PAGES)
    modifies m
    ensures ok <==> |code| <= PAGE_SZ && |old(m.free)| > 0
    ensures ok ==> m.Valid() && f < NFRAMES && IsA(old(m.own), f, Free)
    ensures ok ==> (mapped <==> FramesToGrow(old(m.frames), d, 0, 1) <= |old(m.free)|)
    ensures ok && mapped ==>
              && AllocState(old(m.frames), old(m.own), mid, m.own, d, 0, 1) && Inv(m.lay, mid, m.own, m.freelist, m.free)
              && UserWrite(mid, m.frames, m.own, d, 0, code, |code|)
    ensures ok && !mapped ==>
              m.own == old(m.own)[f := Other] && forall x :: 0 <= x < NFRAMES && x != f ==> m.frames[x] == old(m.frames)[x]
  {
    hide Inv, AllocState, MapState, Mappable, RangeEmpty, PageCount, KeepsViews, SameView, KaToFrame, PageAdded, FramesToGrow, Paid,
         TablesToMake, Unmapped, UserWrite, ByteAt;
    ok, f, mapped, mid := false, 0, false, m.frames;
    if |code| > PAGE_SZ {
      return;
    }
    ghost var mem, own, free := m.frames, m.own, m.free;
    AllocStateInit(mem, own, d, 0);
    var ka := m.Alloc();
    if ka == 0 {
      return;
    }
    f, ok := KaToFrame(ka), true;
    FirstUnmapped(mem, d);
    AllocTurn(m.lay, mem, own, mem, own, m.freelist, m.free, d, 0, 0, 1, f);
    m.frames := m.frames[f := ZeroFrame()];
    InitCost(mem, free, m.frames, m.free, d);
    var r, _ := MapPages(m, d, UserPage(0, f, PTE_W + PTE_U));
    mapped, mid := r, m.frames;
    if mapped {
      AddPage(m.lay, mem, own, m.frames, m.own, d, 0, f, PTE_W + PTE_U, ZeroFrame());
      AllocStateStep(mem, own, mem, own, m.frames, m.own, d, 0, 0, f);
      AllocStateDir(mem, own, m.frames, m.own, d, 0, 1);
      FirstMapped(mem, own, m.frames, m.own, d, f);
    } else {
      MapStateFailed(mem[f := ZeroFrame()], own[f := Other], m.frames, m.own, d, UserPage(0, f, PTE_W + PTE_U));
    }
    var g := CopyIn(m.frames[f], 0, code, 0, |code|);
    if mapped {
      MemcpyInit(mid, m.own, d, 0, code);
      MemcpyTurn(m.lay, mid, m.own, mid, m.freelist, m.free, d, 0, code, 0, 0, |code|, g);
    } else {
      WriteContents(m.lay, m.frames, m.own, m.freelist, m.free, f, g);
    }
    m.frames := m.frames[f := g];
  }

  lemma FirstUnmapped(mem: Mem, d: nat)
    requires d < NFRAMES && Unmapped(mem, d, 0, USER_PAGES)
    ensures Unmapped(mem, d, 0, 1) && PageAt(0) == 0
  {
  }

  lemma InitCost(mem: Mem, free: seq<nat>, mem1: Mem, free1: seq<nat>, d: nat)
    requires d < NFRAMES && mem1[d] == mem[d] && |free| == |free1| + 1
    ensures TablesToMake(mem1, d, 0, 1) <= |free1| <==> FramesToGrow(mem, d, 0, 1) <= |free|
  {
    assert Tables(mem1, d) == Tables(mem, d);
  }

  /** The page is the program's first. */
  lemma FirstMapped(mem: Mem, own: Owners, m1: Mem, own1: Owners, d: nat, f: nat)
    requires d < NFRAMES && f < NFRAMES && PageAdded(mem, own, m1, own1, d, 0, f, PTE_W + PTE_U, ZeroFrame())
    ensures UserFrame(m1, d, 0) == Some(f)
  {
    hide MakePte, PteFrame, IsUser, Present, KeepsViews, KeepsContents, GrowsTables;
    MakePteParts(f, PTE_W + PTE_U);
    MakePteFlags(f, PTE_W + PTE_U);
    assert PageAt(0) == 0;
  }

  // ---------------------------------------------------- in place among the others

  /** kvm_allocate for a process: a space of no pages. */
  lemma NewSpace(lay: Layout, mem: Mem, own: Owners, m1: Mem, own1: Owners, kernel: nat, hands: set<nat>, d: nat)
    requires lay.Valid() && d < NFRAMES && Consistent(mem, own, map[], kernel, hands, {}) && KernelState(lay, mem, own, m1, own1, d, 4)
    requires IsA(own1, d, Dir)
    ensures Consistent(m1, own1, map[d := 0], kernel, hands, {}) && Unmapped(m1, d, 0, USER_PAGES) && own1.Keys == own.Keys
    ensures SpaceOk(m1, d, 0, false)
  {
    FreshKernelDir(lay, mem, own, m1, own1, d);
    hide KernelState, KeepsOthers;
    assert PagesFor(0) == 0 && UserSpace(m1, d, 0);
    assert forall f: nat :: IsA(own1, f, Dir) <==> IsA(own, f, Dir) || f == d;
    assert forall f: nat :: IsA(own1, f, Other) <==> IsA(own, f, Other);
  }

  /** A directory with the kernel map alone: user code reads nothing. */
  lemma KernelOnly(lay: Layout, mem: Mem, own: Owners, m1: Mem, own1: Owners, d: nat, a: Word)
    requires lay.Valid() && d < NFRAMES && KernelState(lay, mem, own, m1, own1, d, 4)
    ensures UserByte(m1, d, a) == None
  {
    hide KernelState, PageDirectoryIdx, PageTableIdx, PteAddr, IsWritable, IsUser, Present;
    KernelTranslation(lay, mem, own, m1, own1, d, a);
  }

  lemma FirstFilled(lay: Layout, mem: Mem, own: Owners, head: Word, free: seq<nat>, m1: Mem, own1: Owners, m2: Mem, kernel: nat, hands: set<nat>,
                    d: nat, code: seq<Byte>)
    requires Inv(lay, mem, own, head, free) && d < NFRAMES && Consistent(mem, own, map[d := 0], kernel, hands, {}) && |code| <= PAGE_SZ
    requires forall a: Word :: UserByte(mem, d, a) == None
    requires AllocState(mem, own, m1, own1, d, 0, 1) && UserWrite(m1, m2, own1, d, 0, code, |code|)
    requires exists h: Word, fr :: Inv(lay, m2, own1, h, fr)
    ensures Consistent(m2, own1, map[d := PAGE_SZ], kernel, hands, {}) && own1.Keys == own.Keys
    ensures forall a: Word :: UserByte(m2, d, a) == if a < PAGE_SZ then Some(if a < |code| then code[a] else 0) else None
  {
    hide Inv, SpaceOk, AllocState, UserByte, OnlyPagesOf, OnlyRange;
    var h: Word, fr :| Inv(lay, m2, own1, h, fr);
    var sizes: map<nat, Word> := map[d := 0];
    assert PagesFor(0) == 0 && PagesFor(PAGE_SZ) == 1;
    assert d in sizes && IsA(own, d, Dir) && SpaceOk(mem, d, 0, false);
    assert lay.Valid() && FramesOk(lay, mem, own) by { InvFrames(lay, mem, own, head, free); }
    forall a: Word ensures UserByte(m1, d, a) == if a < PAGE_SZ then Some(0) else None {
      AllocBytes(lay, mem, own, m1, own1, d, 0, 1, a);
    }
    GrownOk(mem, own, m1, own1, d, 0, PAGE_SZ, false);
    OneSpace(mem, own, m1, own1, sizes, kernel, hands, {}, d, PAGE_SZ, false);
    assert sizes[d := PAGE_SZ] == map[d := PAGE_SZ];
    hide Consistent;
    AllocStateDir(mem, own, m1, own1, d, 0, 1);
    Wrote(lay, m1, own1, m2, h, fr, map[d := PAGE_SZ], kernel, hands, {}, d, 0, code, |code|);
  }

  lemma InvFrames(lay: Layout, mem: Mem, own: Owners, head: Word, free: seq<nat>)
    requires Inv(lay, mem, own, head, free)
    ensures lay.Valid() && FramesOk(lay, mem, own)
  {
  }

  /** The page in hand is mapped nowhere: the space is hollow from the start. */
  lemma FirstUnfilled(lay: Layout, mem: Mem, own: Owners, head: Word, free: seq<nat>, m2: Mem, kernel: nat, hands: set<nat>, d: nat, f: nat)
    requires Inv(lay, mem, own, head, free) && d < NFRAMES && f < NFRAMES && IsA(own, f, Free)
    requires Consistent(mem, own, map[d := 0], kernel, hands, {}) && SpaceOk(mem, d, 0, false)
    requires forall x :: 0 <= x < NFRAMES && x != f ==> m2[x] == mem[x]
    requires forall a: Word :: UserByte(mem, d, a) == None
    ensures Consistent(m2, own[f := Other], map[d := PAGE_SZ], kernel, hands + {f}, {d}) && f !in hands
    ensures forall a: Word :: UserByte(m2, d, a) == None
  {
    hide Inv, SpaceOk, UserByte, Consistent, FramesOk;
    var sizes: map<nat, Word> := map[d := 0];
    InvFrames(lay, mem, own, head, free);
    TiesStand(lay, mem, own, m2, f);
    DirHere(mem, own, sizes, kernel, hands, {}, d);
    SpaceViewKept(mem, m2, d, 0, false);
    forall a: Word ensures UserByte(m2, d, a) == None {
      NoBytes(mem, m2, d, a);
    }
    HollowFirst(m2, d);
    HandTaken(mem, own, sizes, kernel, hands, {}, f);
    OneSpace(mem, own[f := Other], m2, own[f := Other], sizes, kernel, hands + {f}, {}, d, PAGE_SZ, true);
    assert sizes[d := PAGE_SZ] == map[d := PAGE_SZ];
    assert {} + {d} == {d};
  }

  lemma DirHere(mem: Mem, own: Owners, sizes: map<nat, Word>, kernel: nat, hands: set<nat>, holes: set<nat>, d: nat)
    requires Consistent(mem, own, sizes, kernel, hands, holes) && d in sizes
    ensures IsA(own, d, Dir)
  {
  }

  lemma NoBytes(mem: Mem, m2: Mem, d: nat, a: Word)
    requires d < NFRAMES && SameView(mem, m2, d) && UserByte(mem, d, a) == None
    ensures UserByte(m2, d, a) == None
  {
    hide PageDirectoryIdx, PageTableIdx, IsUser, Present;
    assert Lookup(m2, d, PageDirectoryIdx(a), PageTableIdx(a)) == Lookup(mem, d, PageDirectoryIdx(a), PageTableIdx(a));
  }

  lemma HollowFirst(mem: Mem, d: nat)
    requires SpaceOk(mem, d, 0, false)
    ensures SpaceOk(mem, d, PAGE_SZ, true)
  {
    assert PagesFor(0) == 0 && Vpn(0, 0) == 0;
  }
}
