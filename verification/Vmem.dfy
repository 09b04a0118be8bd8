/**
 Address spaces: building and tearing down page directories, growing and shrinking the
 user half, copying it, and writing into it.
 */
module Vmem {
  import opened Mmu
  import opened Frames
  import opened Palloc
  import opened Pgtbl

  /** The pages a user space of sz bytes takes. */
  function PagesFor(sz: Word): nat {
    PageAlignUp(sz) / PAGE_SZ
  }

  lemma PagesForMeaning(sz: Word)
    requires sz <= KERN_BASE
    ensures PageAlignUp(sz) == PagesFor(sz) * PAGE_SZ && PagesFor(sz) <= USER_PAGES
    ensures PageAlignUp(sz) == PageAt(PagesFor(sz))
    ensures forall p: nat {:trigger PageAt(p)} :: p <= USER_PAGES ==> (PageAt(p) < sz <==> p < PagesFor(sz))
  {
    AlignUpMeaning(sz);
  }

  lemma PagesForMonotone(a: Word, b: Word)
    requires a <= b <= KERN_BASE
    ensures PagesFor(a) <= PagesFor(b)
  {
  }

  // ------------------------------------------------------------- shrinking

  /** uvm_deallocate: shrinks the user space of d to newsz bytes. */
  method UvmDeallocate(m: Memory, d: nat, oldsz: Word, newsz: Word) returns (r: Word)
    requires m.Valid() && IsA(m.own, d, Dir) && d < NFRAMES && oldsz <= KERN_BASE
    modifies m
    ensures m.Valid() && IsA(m.own, d, Dir)
    ensures oldsz < newsz ==>
              r == oldsz && m.frames == old(m.frames) && m.own == old(m.own) && m.free == old(m.free) && m.freelist == old(m.freelist)
    ensures newsz <= oldsz ==>
              r == newsz && UnmapState(old(m.frames), old(m.own), m.frames, m.own, d, PagesFor(newsz), PagesFor(oldsz))
    ensures m.frames[d] == old(m.frames)[d]
  {
    hide PageAlignUp, Inv, PagesFor;
    if oldsz < newsz {
      return oldsz;
    }
    PagesForMeaning(newsz);
    PagesForMeaning(oldsz);
    PagesForMonotone(newsz, oldsz);
    UnmapStateInit(m.frames, m.own, d, PagesFor(newsz));
    var newA: Word := PageAlignUp(newsz);
    var oldA: Word := PageAlignUp(oldsz);
    if newA < oldA {
      UnmapPages(m, d, newA, (oldA - newA) / PAGE_SZ);
    }
    r := newsz;
  }

  // --------------------------------------------------------------- growing

  /** The frame that page (i, j) of d was given is zeroed, user-accessible and writable. */
  ghost predicate FreshPage(own: Owners, mem': Mem, own': Owners, d: nat, i: nat, j: nat)
    requires d < NFRAMES && i < NENTRIES && j < NENTRIES
  {
    && PteFrame(Lookup(mem', d, i, j)) < NFRAMES
    && Lookup(mem', d, i, j) == MakePte(PteFrame(Lookup(mem', d, i, j)), PTE_W + PTE_U)
    && IsA(own, PteFrame(Lookup(mem', d, i, j)), Free)
    && IsA(own', PteFrame(Lookup(mem', d, i, j)), Page(d, i, j))
    && mem'[PteFrame(Lookup(mem', d, i, j))] == ZeroFrame()
  }

  /** Memory and ownership after the pages of d in [lo, hi) were allocated and mapped. */
  ghost predicate AllocState(mem: Mem, own: Owners, mem': Mem, own': Owners, d: nat, lo: nat, hi: nat)
    requires d < NFRAMES
  {
    && (forall i, j :: 0 <= i < NENTRIES && 0 <= j < NENTRIES ==>
          if lo <= Vpn(i, j) < hi then FreshPage(own, mem', own', d, i, j)
          else Lookup(mem', d, i, j) == Lookup(mem, d, i, j))
    && own'.Keys == own.Keys
    && (forall f :: f in own ==>
          || own'[f] == own[f]
          || (own[f].Free? && ((own'[f].Table? && own'[f].dir == d) || InRange(own'[f], d, lo, hi))))
    && KeepsViews(own, mem, mem', d)
    && KeepsContents(own, mem, mem')
    && mem'[0] == mem[0]
  }

  /** Every page is as before; all that may remain of the attempt are empty tables of d. */
  ghost predicate RolledBack(mem: Mem, own: Owners, mem': Mem, own': Owners, d: nat)
    requires d < NFRAMES
  {
    && SameView(mem, mem', d)
    && GrowsTables(own, own', d)
    && KeepsViews(own, mem, mem', d)
    && KeepsContents(own, mem, mem')
    && LowShrinks(mem, mem')
  }

  ghost predicate Unmapped(mem: Mem, d: nat, lo: nat, hi: nat)
    requires d < NFRAMES
  {
    forall i, j :: 0 <= i < NENTRIES && 0 <= j < NENTRIES && lo <= Vpn(i, j) < hi ==> Lookup(mem, d, i, j) == 0
  }

  /** The mapping uvm_allocate and uvm_copy make for one user page. */
  function UserPage(p: Word, f: nat, perm: nat): VMap
    requires f < NFRAMES
  {
    VMap(p, f * PAGE_SZ, f * PAGE_SZ + PAGE_SZ, perm)
  }

  lemma UserPageMeaning(lay: Layout, own: Owners, v: nat, f: nat, perm: nat)
    requires v < USER_PAGES && f < NFRAMES && IsA(own, f, Other) && perm < PAGE_SZ
    ensures var k := UserPage(PageAt(v), f, perm);
            && PageCount(k) == 1 && Mappable(lay, own, k)
            && k.virt < KERN_BASE && k.virt / PAGE_SZ == v && k.pstart / PAGE_SZ == f && k.perm == perm
  {
    var k := UserPage(PageAt(v), f, perm);
    PageAtFields(v);
    assert PageAlignDown(k.virt) == PageAt(v);
    assert PageAlignDown(Wrap(k.virt + Wrap(k.pend - k.pstart))) == PageAt(v) + PAGE_SZ;
  }

  lemma AllocStateInit(mem: Mem, own: Owners, d: nat, lo: nat)
    requires d < NFRAMES
    ensures AllocState(mem, own, mem, own, d, lo, lo)
  {
  }

  /** A frame f fresh from the free list, holding g, was mapped at user page v with flags perm. */
  ghost predicate PageAdded(m1: Mem, own1: Owners, m2: Mem, own2: Owners, d: nat, v: nat, f: nat, perm: nat, g: Frame)
    requires d < NFRAMES && v < USER_PAGES && f < NFRAMES && perm < PAGE_SZ
  {
    && ViewSet(m1, m2, d, PageDirectoryIdx(PageAt(v)), PageTableIdx(PageAt(v)), MakePte(f, perm))
    && GrowsTables(own1[f := Page(d, PageDirectoryIdx(PageAt(v)), PageTableIdx(PageAt(v)))], own2, d)
    && KeepsViews(own1, m1, m2, d)
    && KeepsContents(own1, m1, m2)
    && m2[f] == g && m2[0] == m1[0]
  }

  /** The turn that uvm_allocate and uvm_copy share: take a frame, fill it with g, map it at page v. */
  lemma AddPage(lay: Layout, m1: Mem, own1: Owners, m2: Mem, own2: Owners, d: nat, v: nat, f: nat, perm: nat, g: Frame)
    requires d < NFRAMES && v < USER_PAGES && 0 < f < NFRAMES && IsA(own1, f, Free) && perm < PAGE_SZ
    requires MapState(m1[f := g], own1[f := Other], m2, own2, d, UserPage(PageAt(v), f, perm), 1)
    requires SameView(m1, m1[f := g], d) && KeepsViews(own1, m1, m1[f := g], NFRAMES)
    ensures PageAdded(m1, own1, m2, own2, d, v, f, perm, g)
  {
    var k, m1', own1' := UserPage(PageAt(v), f, perm), m1[f := g], own1[f := Other];
    var i, j := PageDirectoryIdx(k.virt), PageTableIdx(k.virt);
    UserPageMeaning(lay, own1', v, f, perm);
    AddressFields(k.virt);
    hide PageDirectoryIdx, PageTableIdx, PageCount, Mappable, MakePte, KernelWord;
    forall a, b | 0 <= a < NENTRIES && 0 <= b < NENTRIES
      ensures Lookup(m2, d, a, b) == if a == i && b == j then MakePte(f, perm) else Lookup(m1, d, a, b)
    {
      assert Lookup(m1', d, a, b) == Lookup(m1, d, a, b);
      VpnInjective(a, b, i, j);
    }
    assert own1'[f := Page(d, i, j)] == own1[f := Page(d, i, j)];
    assert KeepsViews(own1, m1, m1', d) && KeepsViews(own1, m1', m2, d);
    KeepsViewsTrans(own1, m1, m1', m2, d);
  }

  /** One turn of uvm_allocate: a zeroed frame f was mapped at page v. */
  lemma AllocStateStep(mem: Mem, own: Owners, m1: Mem, own1: Owners, m2: Mem, own2: Owners, d: nat, lo: nat, v: nat, f: nat)
    requires d < NFRAMES && lo <= v < USER_PAGES && f < NFRAMES && IsA(own1, f, Free)
    requires AllocState(mem, own, m1, own1, d, lo, v)
    requires PageAdded(m1, own1, m2, own2, d, v, f, PTE_W + PTE_U, ZeroFrame())
    ensures AllocState(mem, own, m2, own2, d, lo, v + 1)
  {
    hide PageDirectoryIdx, PageTableIdx, PageAt, MakePte, PteFrame, Lookup, SameView;
    var x, y := PageDirectoryIdx(PageAt(v)), PageTableIdx(PageAt(v));
    PageAtFields(v);
    MakePteParts(f, PTE_W + PTE_U);
    forall i, j | 0 <= i < NENTRIES && 0 <= j < NENTRIES
      ensures if lo <= Vpn(i, j) < v + 1 then FreshPage(own, m2, own2, d, i, j)
              else Lookup(m2, d, i, j) == Lookup(mem, d, i, j)
    {
      VpnInjective(i, j, x, y);
      if lo <= Vpn(i, j) < v {
        assert FreshPage(own, m1, own1, d, i, j);
      }
    }
    assert KeepsViews(own, m1, m2, d);
    KeepsViewsTrans(own, mem, m1, m2, d);
  }

  /** Undoing a partial allocation leaves every page as it was. */
  lemma Rollback(lay: Layout, mem: Mem, own: Owners, m1: Mem, own1: Owners, m2: Mem, own2: Owners,
                 d: nat, lo: nat, v: nat, hi: nat)
    requires d < NFRAMES && lo <= v <= hi && IsA(own, d, Dir) && FramesOk(lay, mem, own)
    requires Unmapped(mem, d, lo, hi)
    requires AllocState(mem, own, m1, own1, d, lo, v)
    requires UnmapState(m1, own1, m2, own2, d, lo, hi)
    ensures RolledBack(mem, own, m2, own2, d)
  {
    forall i, j | 0 <= i < NENTRIES && 0 <= j < NENTRIES ensures Lookup(m2, d, i, j) == Lookup(mem, d, i, j) {
      assert Lookup(m2, d, i, j) == if lo <= Vpn(i, j) < hi then 0 else Lookup(m1, d, i, j);
    }
    forall f | f in own
      ensures own2[f] == own[f] || (own[f].Free? && own2[f].Table? && own2[f].dir == d)
      ensures own[f].Page? || own[f].Other? ==> own2[f] == own[f]
    {
      assert own2[f] == if InRange(own1[f], d, lo, hi) then Free else own1[f];
      if InRange(own[f], d, lo, hi) {
        assert FrameOk(lay, mem, own, f);
        PageOfEntry(lay, mem, own, d, own[f].pdx, own[f].ptx);
      }
    }
    assert KeepsViews(own, m1, m2, d);
    KeepsViewsTrans(own, mem, m1, m2, d);
  }

  /** The frame in hand when map_pages failed goes back too: as if it had never been taken. */
  lemma UnmapLoose(lay: Layout, m1: Mem, own1: Owners, head2: Word, free2: seq<nat>, m2: Mem, own2: Owners,
                   d: nat, lo: nat, hi: nat, f: nat)
    requires d < NFRAMES && 0 < f < NFRAMES && IsA(own1, f, Free) && IsA(own1, d, Dir)
    requires Inv(lay, m2, own2, head2, free2)
    requires SameView(m1, m1[f := ZeroFrame()], d) && KeepsViews(own1, m1, m1[f := ZeroFrame()], NFRAMES)
    requires UnmapState(m1[f := ZeroFrame()], own1[f := Other], m2, own2, d, lo, hi)
    ensures IsA(own2, f, Other)
    ensures Inv(lay, SetWord(m2, f, 0, head2), own2[f := Free], FrameToKa(f), [f] + free2)
    ensures UnmapState(m1, own1, SetWord(m2, f, 0, head2), own2[f := Free], d, lo, hi)
  {
    var m1', own1', m3, own3 := m1[f := ZeroFrame()], own1[f := Other], SetWord(m2, f, 0, head2), own2[f := Free];
    assert own2[f] == own1'[f];
    assert FrameOk(lay, m2, own2, f);
    PutFree(lay, m2, own2, head2, free2, f);
    assert IsA(own2, d, Dir) && SameView(m2, m3, d);
    forall i, j | 0 <= i < NENTRIES && 0 <= j < NENTRIES
      ensures Lookup(m3, d, i, j) == if lo <= Vpn(i, j) < hi then 0 else Lookup(m1, d, i, j)
    {
      assert Lookup(m3, d, i, j) == Lookup(m2, d, i, j);
      assert Lookup(m1', d, i, j) == Lookup(m1, d, i, j);
    }
    assert own3 == Released(own1, d, lo, hi);
    assert KeepsViews(own1, m1, m1', d) && KeepsViews(own1, m1', m2, d) && KeepsViews(own1, m2, m3, d);
    KeepsViewsTrans(own1, m1, m1', m2, d);
    KeepsViewsTrans(own1, m1, m2, m3, d);
  }

  /** An address space may grow from oldsz to newsz: no page it needs is mapped yet. */
  ghost predicate CanGrow(mem: Mem, d: nat, oldsz: Word, newsz: Word)
    requires d < NFRAMES
  {
    oldsz <= newsz <= KERN_BASE ==> Unmapped(mem, d, PagesFor(oldsz), PagesFor(newsz))
  }

  // -------------------------------------------------------- what growing costs

  /** The frames it takes to map the pages from lo up to hi: the pages and the tables still to make. */
  ghost function FramesToGrow(mem: Mem, d: nat, lo: nat, hi: nat): int
    requires d < NFRAMES
  {
    hi - lo + TablesToMake(mem, d, lo, hi)
  }

  /** The pages from lo up to hi and their tables have been taken from the free list. */
  ghost predicate Grown(mem: Mem, free: seq<nat>, mem': Mem, free': seq<nat>, d: nat, lo: nat, hi: nat)
    requires d < NFRAMES
  {
    && Tables(mem', d) == Tables(mem, d) + Spanned(lo, hi)
    && |free'| + |Tables(mem', d)| + (hi - lo) == |free| + |Tables(mem, d)|
  }

  lemma NothingGrown(mem: Mem, free: seq<nat>, d: nat, lo: nat)
    requires d < NFRAMES
    ensures Grown(mem, free, mem, free, d, lo, lo)
  {
    assert Tables(mem, d) == Tables(mem, d) + Spanned(lo, lo);
  }

  /** One page more: a frame for it, and its table if there was none. */
  lemma GrowStep(m0: Mem, free0: seq<nat>, m1: Mem, free1: seq<nat>, m1': Mem, free1': seq<nat>, m2: Mem, free2: seq<nat>,
                 d: nat, lo: nat, v: nat)
    requires d < NFRAMES && lo <= v < NPAGES && Grown(m0, free0, m1, free1, d, lo, v)
    requires m1'[d] == m1[d] && |free1'| + 1 == |free1| && Paid(m1', free1', m2, free2, d, Spanned(v, v + 1))
    ensures Grown(m0, free0, m2, free2, d, lo, v + 1)
  {
    assert Tables(m1', d) == Tables(m1, d);
    hide Tables, Spanned;
    SpannedStep(lo, v);
    SpannedStep(v, v);
  }

  /** Where the next page or its table cannot be had, the whole range costs more than was free. */
  lemma GrowShort(m0: Mem, free0: seq<nat>, m1: Mem, free1: seq<nat>, m1': Mem, d: nat, lo: nat, v: nat, hi: nat)
    requires d < NFRAMES && lo <= v < hi <= NPAGES && Grown(m0, free0, m1, free1, d, lo, v) && m1'[d] == m1[d]
    requires free1 == [] || 1 + TablesToMake(m1', d, v, v + 1) > |free1|
    ensures FramesToGrow(m0, d, lo, hi) > |free0|
  {
    assert Tables(m1', d) == Tables(m1, d);
    hide Tables, Spanned;
    SpannedStep(lo, v);
    SpannedStep(v, v);
    SpannedMonotone(lo, v + 1, hi);
    assert Tables(m1, d) + Spanned(v, v + 1) == Tables(m0, d) + Spanned(lo, v + 1);
    Subset(Tables(m1, d), Tables(m1, d) + Spanned(v, v + 1));
    Subset(Tables(m0, d) + Spanned(lo, v + 1), Tables(m0, d) + Spanned(lo, hi));
  }

  lemma GrownAll(m0: Mem, free0: seq<nat>, m1: Mem, free1: seq<nat>, d: nat, lo: nat, hi: nat)
    requires d < NFRAMES && lo <= hi && Grown(m0, free0, m1, free1, d, lo, hi)
    ensures FramesToGrow(m0, d, lo, hi) <= |free0|
  {
  }

  lemma PageOfAddress(p: Word, v: nat)
    requires v < USER_PAGES && p == PageAt(v)
    ensures p / PAGE_SZ == v
  {
  }

  /** One turn of uvm_allocate's loop needs an unmapped page and a zeroed frame in hand. */
  lemma AllocTurn(lay: Layout, mem: Mem, own: Owners, m1: Mem, own1: Owners, head: Word, free: seq<nat>,
                  d: nat, lo: nat, v: nat, hi: nat, f: nat)
    requires d < NFRAMES && lo <= v < hi <= USER_PAGES && IsA(own, d, Dir)
    requires Unmapped(mem, d, lo, hi) && AllocState(mem, own, m1, own1, d, lo, v)
    requires IsA(own1, f, Free) && f < NFRAMES && Inv(lay, m1, own1[f := Other], head, free)
    ensures IsA(own1, d, Dir) && IsA(own1[f := Other], d, Dir)
    ensures Inv(lay, m1[f := ZeroFrame()], own1[f := Other], head, free)
    ensures SameView(m1, m1[f := ZeroFrame()], d) && KeepsViews(own1, m1, m1[f := ZeroFrame()], NFRAMES)
    ensures Mappable(lay, own1[f := Other], UserPage(PageAt(v), f, PTE_W + PTE_U))
    ensures RangeEmpty(m1[f := ZeroFrame()], d, UserPage(PageAt(v), f, PTE_W + PTE_U))
    ensures PageCount(UserPage(PageAt(v), f, PTE_W + PTE_U)) == 1
    ensures f * PAGE_SZ / PAGE_SZ == f && PageAt(v) < KERN_BASE && f > 0
  {
    var own1' := own1[f := Other];
    assert FrameOk(lay, m1, own1', f);
    WriteContents(lay, m1, own1', head, free, f, ZeroFrame());
    UserPageMeaning(lay, own1', v, f, PTE_W + PTE_U);
    assert KeepsViews(own1, m1, m1[f := ZeroFrame()], NFRAMES) by {
      assert forall e: nat :: IsA(own1, e, Dir) ==> IsA(own1', e, Dir);
    }
    forall i, j | 0 <= i < NENTRIES && 0 <= j < NENTRIES && v <= Vpn(i, j) < v + 1
      ensures Lookup(m1[f := ZeroFrame()], d, i, j) == 0
    {
      assert Lookup(m1, d, i, j) == Lookup(mem, d, i, j);
    }
  }

  lemma MapStateFailed(mem: Mem, own: Owners, mem': Mem, own': Owners, d: nat, k: VMap)
    requires d < NFRAMES && k.perm < PAGE_SZ && k.pstart / PAGE_SZ <= NPAGES && k.virt < KERN_BASE
    requires MapState(mem, own, mem', own', d, k, 0)
    ensures mem' == mem && own' == own
  {
  }

  lemma RollbackAll(lay: Layout, mem: Mem, own: Owners, head: Word, free: seq<nat>, m1: Mem, own1: Owners,
                    m2: Mem, own2: Owners, d: nat, lo: nat, v: nat, hi: nat)
    requires d < NFRAMES && lo <= v <= hi && IsA(own, d, Dir) && Inv(lay, mem, own, head, free)
    requires Unmapped(mem, d, lo, hi)
    requires AllocState(mem, own, m1, own1, d, lo, v)
    requires UnmapState(m1, own1, m2, own2, d, lo, hi)
    ensures RolledBack(mem, own, m2, own2, d) && IsA(own2, d, Dir)
  {
    Rollback(lay, mem, own, m1, own1, m2, own2, d, lo, v, hi);
  }

  lemma OwnedFrame(lay: Layout, mem: Mem, own: Owners, head: Word, free: seq<nat>, f: nat)
    requires Inv(lay, mem, own, head, free) && f in own
    ensures lay.end <= f < NFRAMES
  {
    assert FrameOk(lay, mem, own, f);
  }

  lemma AllocStateDir(mem: Mem, own: Owners, mem': Mem, own': Owners, d: nat, lo: nat, hi: nat)
    requires d < NFRAMES && IsA(own, d, Dir) && AllocState(mem, own, mem', own', d, lo, hi)
    ensures IsA(own', d, Dir)
  {
  }

  lemma PageAtStepUser(v: nat)
    requires v < USER_PAGES
    ensures PageAt(v) + PAGE_SZ == PageAt(v + 1)
  {
  }

  /**
   uvm_allocate: grows the user space of d from oldsz to newsz bytes. Either every page of
   the new range is mapped to its own zeroed frame, or the call returns 0 and every page
   is as it was.
   */
  method UvmAllocate(m: Memory, d: nat, oldsz: Word, newsz: Word) returns (r: Word)
    requires m.Valid() && IsA(m.own, d, Dir) && d < NFRAMES && CanGrow(m.frames, d, oldsz, newsz)
    modifies m
    ensures m.Valid() && IsA(m.own, d, Dir)
    ensures newsz > KERN_BASE || newsz < oldsz ==> m.frames == old(m.frames) && m.own == old(m.own) && m.free == old(m.free)
    ensures newsz > KERN_BASE ==> r == 0
    ensures newsz <= KERN_BASE && newsz < oldsz ==> r == oldsz
    ensures oldsz <= newsz <= KERN_BASE && r == newsz ==>
              AllocState(old(m.frames), old(m.own), m.frames, m.own, d, PagesFor(oldsz), PagesFor(newsz))
    ensures oldsz <= newsz <= KERN_BASE && r != newsz ==>
              r == 0 && RolledBack(old(m.frames), old(m.own), m.frames, m.own, d)
    ensures oldsz <= newsz <= KERN_BASE ==>
              (r == newsz <==> FramesToGrow(old(m.frames), d, PagesFor(oldsz), PagesFor(newsz)) <= |old(m.free)|)
    ensures oldsz <= newsz <= KERN_BASE && r == newsz ==>
              Grown(old(m.frames), old(m.free), m.frames, m.free, d, PagesFor(oldsz), PagesFor(newsz))
  {
    hide PageAlignUp, PagesFor, PageAt, Inv, AllocState, UnmapState, MapState, RolledBack, Unmapped, Mappable, RangeEmpty,
         PageCount, KeepsViews, SameView, KaToFrame, PageAdded, Grown, FramesToGrow, Paid, TablesToMake;
    if newsz > KERN_BASE {
      return 0;
    }
    if newsz < oldsz {
      return oldsz;
    }
    ghost var lo, hi := PagesFor(oldsz), PagesFor(newsz);
    PagesForMeaning(oldsz);
    PagesForMeaning(newsz);
    PagesForMonotone(oldsz, newsz);
    ghost var v := lo;
    AllocStateInit(m.frames, m.own, d, lo);
    NothingGrown(m.frames, m.free, d, lo);
    var p: Word := PageAlignUp(oldsz);
    while p < newsz
      invariant lo <= v <= hi && p == PageAt(v)
      invariant Grown(old(m.frames), old(m.free), m.frames, m.free, d, lo, v)
      invariant m.Valid() && IsA(m.own, d, Dir)
      invariant AllocState(old(m.frames), old(m.own), m.frames, m.own, d, lo, v)
      decreases hi - v
    {
      ghost var mem, own, free := m.frames, m.own, m.free;
      var ka := m.Alloc();
      if ka == 0 {
        GrowShort(old(m.frames), old(m.free), mem, free, mem, d, lo, v, hi);
        var _ := UvmDeallocate(m, d, newsz, oldsz);
        RollbackAll(m.lay, old(m.frames), old(m.own), old(m.freelist), old(m.free), mem, own, m.frames, m.own, d, lo, v, hi);
        return 0;
      }
      var f := KaToFrame(ka);
      AllocTurn(m.lay, old(m.frames), old(m.own), mem, own, m.freelist, m.free, d, lo, v, hi, f);
      m.frames := m.frames[f := ZeroFrame()];
      ghost var mem1, free1 := m.frames, m.free;
      PageOfAddress(p, v);
      var ok, done := MapPages(m, d, UserPage(p, f, PTE_W + PTE_U));
      if !ok {
        GrowShort(old(m.frames), old(m.free), mem, free, mem1, d, lo, v, hi);
        MapStateFailed(mem[f := ZeroFrame()], own[f := Other], m.frames, m.own, d, UserPage(p, f, PTE_W + PTE_U));
        var _ := UvmDeallocate(m, d, newsz, oldsz);
        UnmapLoose(m.lay, mem, own, m.freelist, m.free, m.frames, m.own, d, lo, hi, f);
        OwnedFrame(m.lay, m.frames, m.own, m.freelist, m.free, f);
        m.Free(ka);
        RollbackAll(m.lay, old(m.frames), old(m.own), old(m.freelist), old(m.free), mem, own, m.frames, m.own, d, lo, v, hi);
        return 0;
      }
      GrowStep(old(m.frames), old(m.free), mem, free, mem1, free1, m.frames, m.free, d, lo, v);
      AddPage(m.lay, mem, own, m.frames, m.own, d, v, f, PTE_W + PTE_U, ZeroFrame());
      AllocStateStep(old(m.frames), old(m.own), mem, own, m.frames, m.own, d, lo, v, f);
      AllocStateDir(old(m.frames), old(m.own), m.frames, m.own, d, lo, v + 1);
      PageAtStepUser(v);
      p, v := p + PAGE_SZ, v + 1;
    }
    GrownAll(old(m.frames), old(m.free), m.frames, m.free, d, lo, hi);
    r := newsz;
  }

  // ------------------------------------------------------------- tearing down

  /** Ownership while vmfree returns the tables of d: those below entry i are free, the rest loose. */
  ghost function FreedUpTo(own: Owners, d: nat, i: nat): Owners {
    map f | f in own ::
      if own[f].Table? && own[f].dir == d then (if own[f].pdx < i then Free else Other)
      else if f == d then Other
      else own[f]
  }

  /** Memory while vmfree returns tables: only loose frames were written. */
  ghost predicate FreeingState(mem: Mem, own: Owners, mem': Mem, own': Owners, d: nat, i: nat)
    requires d < NFRAMES
  {
    && own' == FreedUpTo(own, d, i)
    && mem'[d] == mem[d]
    && KeepsViews(own, mem, mem', d)
    && KeepsContents(own, mem, mem')
    && mem'[0] == mem[0]
  }

  ghost predicate NoPages(own: Owners, d: nat) {
    forall f :: f in own && own[f].Page? ==> own[f].dir != d
  }

  lemma FreeingInit(lay: Layout, mem: Mem, own: Owners, head: Word, free: seq<nat>, d: nat)
    requires Inv(lay, mem, own, head, free) && IsA(own, d, Dir) && d < NFRAMES && NoPages(own, d)
    ensures Inv(lay, mem, FreedUpTo(own, d, 0), head, free)
    ensures FreeingState(mem, own, mem, FreedUpTo(own, d, 0), d, 0)
  {
    Dissolve(lay, mem, own, head, free, d);
    assert FreedUpTo(own, d, 0) == Dissolved(own, d, Other);
    KeepsRefl(own, mem, d);
  }

  /** Entry i of a directory names its one table for that entry, or there is none. */
  lemma TableOfEntry(lay: Layout, mem: Mem, own: Owners, d: nat, i: nat)
    requires lay.Valid() && FramesOk(lay, mem, own) && IsA(own, d, Dir) && d < NFRAMES && i < NENTRIES
    ensures Present(mem[d][i]) ==> lay.end <= PteFrame(mem[d][i]) < NFRAMES && IsA(own, PteFrame(mem[d][i]), Table(d, i))
    ensures forall f :: f in own && own[f] == Table(d, i) ==> Present(mem[d][i]) && f == PteFrame(mem[d][i])
  {
    assert FrameOk(lay, mem, own, d) && DirEntryOk(mem, own, d, i);
    if Present(mem[d][i]) {
      assert FrameOk(lay, mem, own, PteFrame(mem[d][i]));
    }
    forall f | f in own && own[f] == Table(d, i) ensures Present(mem[d][i]) && f == PteFrame(mem[d][i]) {
      assert FrameOk(lay, mem, own, f);
      NamesTableParts(mem[d][i], f);
    }
  }

  /** One turn of vmfree's loop. */
  lemma FreeingStep(lay: Layout, mem: Mem, own: Owners, m1: Mem, own1: Owners, head: Word, free: seq<nat>, d: nat, i: nat)
    requires lay.Valid() && FramesOk(lay, mem, own) && IsA(own, d, Dir) && d < NFRAMES && i < NENTRIES
    requires FreeingState(mem, own, m1, own1, d, i) && Inv(lay, m1, own1, head, free)
    ensures var w := m1[d][i];
            if Present(w) then
              && lay.end <= PteFrame(w) < NFRAMES
              && var m2 := SetWord(m1, PteFrame(w), 0, head);
              && var own2 := own1[PteFrame(w) := Free];
              && Inv(lay, m2, own2, FrameToKa(PteFrame(w)), [PteFrame(w)] + free)
              && FreeingState(mem, own, m2, own2, d, i + 1)
            else FreeingState(mem, own, m1, own1, d, i + 1)
  {
    hide Present, PteFrame, FrameOk, FramesOk, FreeListOk, LowFrameOk, SameView, Lookup, FrameToKa;
    var w := m1[d][i];
    var t := PteFrame(w);
    TableOfEntry(lay, mem, own, d, i);
    if Present(w) {
      PutFree(lay, m1, own1, head, free, t);
      var m2 := SetWord(m1, t, 0, head);
      assert own1[t := Free] == FreedUpTo(own, d, i + 1);
      assert KeepsViews(own, m1, m2, d) by {
        assert forall e: nat :: IsA(own, e, Dir) && e != d ==> IsA(own1, e, Dir);
      }
      KeepsViewsTrans(own, mem, m1, m2, d);
    } else {
      assert FreedUpTo(own, d, i) == FreedUpTo(own, d, i + 1);
    }
  }

  lemma FreeingDone(lay: Layout, mem: Mem, own: Owners, m1: Mem, own1: Owners, head: Word, free: seq<nat>, d: nat)
    requires FramesOk(lay, mem, own) && IsA(own, d, Dir) && d < NFRAMES && NoPages(own, d)
    requires FreeingState(mem, own, m1, own1, d, NENTRIES) && Inv(lay, m1, own1, head, free)
    ensures lay.end <= d
    ensures Inv(lay, SetWord(m1, d, 0, head), own1[d := Free], FrameToKa(d), [d] + free)
    ensures own1[d := Free] == Dissolved(own, d, Free)
    ensures KeepsViews(own, mem, SetWord(m1, d, 0, head), d) && KeepsContents(own, mem, SetWord(m1, d, 0, head))
    ensures SetWord(m1, d, 0, head)[0] == mem[0] && m1[d] == mem[d]
  {
    assert FrameOk(lay, mem, own, d);
    forall f | f in own && own[f].Table? && own[f].dir == d ensures own[f].pdx < NENTRIES {
      assert FrameOk(lay, mem, own, f);
    }
    hide FrameOk, Lookup, SameView, Chain;
    PutFree(lay, m1, own1, head, free, d);
    var m2 := SetWord(m1, d, 0, head);
    assert KeepsViews(own, m1, m2, d) by {
      assert forall e: nat :: IsA(own, e, Dir) && e != d ==> IsA(own1, e, Dir);
    }
    KeepsViewsTrans(own, mem, m1, m2, d);
  }

  /** Emptying the user half of d leaves it no pages, and dissolving it then frees what it held at first. */
  lemma EmptiedUser(lay: Layout, mem: Mem, own: Owners, m1: Mem, own1: Owners, d: nat)
    requires d < NFRAMES && IsA(own, d, Dir) && FramesOk(lay, mem, own)
    requires UnmapState(mem, own, m1, own1, d, 0, USER_PAGES)
    ensures NoPages(own1, d) && IsA(own1, d, Dir)
    ensures Dissolved(own1, d, Free) == Dissolved(own, d, Free)
    ensures forall f :: f in own && own[f].Page? && own[f].dir != d ==> own1[f] == own[f]
    ensures forall f :: f in own && (own[f].Other? || own[f].Dir?) ==> own1[f] == own[f]
  {
    forall f | f in own && own[f].Page? && own[f].dir == d ensures own1[f] == Free {
      assert FrameOk(lay, mem, own, f);
    }
  }

  /** What vmfree keeps, over its two phases. */
  lemma VmFreeKeeps(own: Owners, own1: Owners, m0: Mem, m1: Mem, m2: Mem, d: nat)
    requires KeepsViews(own, m0, m1, d) && KeepsContents(own1, m0, m1)
    requires KeepsViews(own1, m1, m2, d) && KeepsContents(own1, m1, m2)
    requires own1.Keys == own.Keys
    requires forall f :: f in own && own[f].Page? && own[f].dir != d ==> own1[f] == own[f]
    requires forall f :: f in own && (own[f].Other? || own[f].Dir?) ==> own1[f] == own[f]
    ensures KeepsViews(own, m0, m2, d) && KeepsContents(Dissolved(own, d, Free), m0, m2)
  {
    assert KeepsViews(own, m1, m2, d);
    KeepsViewsTrans(own, m0, m1, m2, d);
  }

  /**
   vmfree: returns to the free list exactly the frames that directory d held, namely its
   user pages, its tables and itself.
   */
  method VmFree(m: Memory, d: nat)
    requires m.Valid() && IsA(m.own, d, Dir) && d < NFRAMES
    modifies m
    ensures m.Valid()
    ensures m.own == Dissolved(old(m.own), d, Free)
    ensures KeepsViews(old(m.own), old(m.frames), m.frames, d)
    ensures KeepsContents(m.own, old(m.frames), m.frames)
    ensures LowShrinks(old(m.frames), m.frames)
    ensures m.freelist == FrameToKa(d) && m.free != [] && m.free[0] == d
    ensures m.frames[d] == old(m.frames)[d][0 := m.frames[d][0]]
  {
    hide PagesFor, PteFrame, PteAddr, Present, KeepsViews, KeepsContents, UnmapState, FreeingState, NoPages, FramesOk, FreeListOk,
         LowFrameOk, KaToFrame, Dissolved;
    var _ := UvmDeallocate(m, d, KERN_BASE, 0);
    UserRange();
    ghost var mem, own := m.frames, m.own;
    EmptiedUser(m.lay, old(m.frames), old(m.own), mem, own, d);
    UnmapStateParts(old(m.frames), old(m.own), mem, own, d, 0, USER_PAGES);
    FreeingInit(m.lay, mem, own, m.freelist, m.free, d);
    m.own := FreedUpTo(m.own, d, 0);
    var i := 0;
    while i < NENTRIES
      invariant 0 <= i <= NENTRIES && m.Valid()
      invariant FreeingState(mem, own, m.frames, m.own, d, i)
    {
      FreeingStep(m.lay, mem, own, m.frames, m.own, m.freelist, m.free, d, i);
      var w := m.frames[d][i];
      if Present(w) {
        FreeableMeaning(m.lay, w);
        FrameKaInverse(PteFrame(w));
        m.Free(KERN_BASE + PteAddr(w));
      }
      i := i + 1;
    }
    FreeingDone(m.lay, mem, own, m.frames, m.own, m.freelist, m.free, d);
    FrameKaInverse(d);
    m.Free(FrameToKa(d));
    VmFreeKeeps(old(m.own), own, old(m.frames), mem, m.frames, d);
  }

  lemma UserRange()
    ensures PagesFor(KERN_BASE) == USER_PAGES && PagesFor(0) == 0
  {
  }

  lemma UnmapStateParts(mem: Mem, own: Owners, mem': Mem, own': Owners, d: nat, lo: nat, hi: nat)
    requires d < NFRAMES && UnmapState(mem, own, mem', own', d, lo, hi)
    ensures own'.Keys == own.Keys && KeepsViews(own, mem, mem', d) && KeepsContents(own', mem, mem') && LowShrinks(mem, mem')
  {
  }

  // ----------------------------------------------------------- the kernel map

  /** init_kmap: the four mappings that every address space carries. */
  function Kmap(lay: Layout): (ks: seq<VMap>)
    requires lay.data <= NFRAMES
  {
    [VMap(KERN_BASE, 0, EXTMEM, PTE_W),
     VMap(KERN_BASE + EXTMEM, EXTMEM, lay.data * PAGE_SZ, 0),
     VMap(KERN_BASE + lay.data * PAGE_SZ, lay.data * PAGE_SZ, PHYSTOP, PTE_W),
     VMap(DEV_SPACE, DEV_SPACE, 0, PTE_W)]
  }

  /** Where mapping n of kmap begins, and how many pages it spans. */
  function KmapStart(lay: Layout, n: nat): nat
    requires n < 4
  {
    [0x8_0000, 0x8_0100, 0x8_0000 + lay.data, 0xF_E000][n]
  }

  function KmapLength(lay: Layout, n: nat): int
    requires n < 4
  {
    [0x100, lay.data - 0x100, 0x2_0000 - lay.data, 0x2000][n]
  }

  lemma KmapShape(lay: Layout, own: Owners, n: nat)
    requires lay.Valid() && n < 4
    ensures var k := Kmap(lay)[n];
            && k.virt / PAGE_SZ == KmapStart(lay, n) && k.virt >= KERN_BASE
            && PageCount(k) == KmapLength(lay, n)
            && Mappable(lay, own, k)
            && forall v :: KmapStart(lay, n) <= v < KmapStart(lay, n) + KmapLength(lay, n) ==>
                 v < NPAGES && MappedWord(k, v) == KernelWord(lay, v)
  {
    var k := Kmap(lay)[n];
    var s, c := KmapStart(lay, n), KmapLength(lay, n);
    KmapCount(lay, n);
    KmapWords(lay, n);
  }

  lemma KmapCount(lay: Layout, n: nat)
    requires lay.Valid() && n < 4
    ensures Kmap(lay)[n].virt == KmapStart(lay, n) * PAGE_SZ
    ensures PageCount(Kmap(lay)[n]) == KmapLength(lay, n)
  {
    var k := Kmap(lay)[n];
    var s, c := KmapStart(lay, n), KmapLength(lay, n);
    var size := Wrap(k.pend - k.pstart);
    assert size == c * PAGE_SZ;
    assert Wrap(k.virt + size) == PageAt(s + c);
    hide Wrap, Kmap, KmapStart, KmapLength;
    PageAtDown(k.virt);
    PageAtDown(PageAt(s + c));
    WholePages(s, c);
  }

  lemma WholePages(s: nat, c: nat)
    requires s < NPAGES && s + c <= NPAGES && c < NPAGES
    ensures Wrap(PageAt(s + c) - PageAt(s)) / PAGE_SZ == c && PageAt(s + c) / PAGE_SZ == (if s + c < NPAGES then s + c else 0)
    ensures s * PAGE_SZ / PAGE_SZ == s && s * PAGE_SZ == PageAt(s)
  {
  }

  lemma KmapWords(lay: Layout, n: nat)
    requires lay.Valid() && n < 4
    ensures Kmap(lay)[n].pstart % PAGE_SZ == 0 && Kmap(lay)[n].pstart / PAGE_SZ + KmapLength(lay, n) <= NPAGES
    ensures Kmap(lay)[n].virt / PAGE_SZ == KmapStart(lay, n) && KmapStart(lay, n) + KmapLength(lay, n) <= NPAGES
    ensures Kmap(lay)[n].perm < PAGE_SZ
    ensures forall v :: KmapStart(lay, n) <= v < KmapStart(lay, n) + KmapLength(lay, n) ==>
              MappedWord(Kmap(lay)[n], v) == KernelWord(lay, v)
  {
  }

  /** Virtual page v lies in one of the first n mappings of kmap. */
  predicate KmapCovers(lay: Layout, n: nat, v: nat) {
    || (n > 0 && 0x8_0000 <= v < 0x8_0100)
    || (n > 1 && 0x8_0100 <= v < 0x8_0000 + lay.data)
    || (n > 2 && 0x8_0000 + lay.data <= v < 0xA_0000)
    || (n > 3 && 0xF_E000 <= v)
  }

  /** Directory d, made from a frame free in own, holds the first n mappings of kmap and nothing else. */
  ghost predicate KernelState(lay: Layout, mem: Mem, own: Owners, mem': Mem, own': Owners, d: nat, n: nat)
    requires d < NFRAMES
  {
    && (forall i, j :: 0 <= i < NENTRIES && 0 <= j < NENTRIES ==>
          Lookup(mem', d, i, j) == if KmapCovers(lay, n, Vpn(i, j)) then KernelWord(lay, Vpn(i, j)) else 0)
    && IsA(own, d, Free)
    && GrowsTables(own[d := Dir], own', d)
    && KeepsViews(own, mem, mem', d)
    && KeepsContents(own, mem, mem')
    && mem'[0] == mem[0]
  }

  lemma KernelStateInit(lay: Layout, mem: Mem, own: Owners, head: Word, free: seq<nat>, d: nat)
    requires Inv(lay, mem, own[d := Other], head, free) && IsA(own, d, Free) && d < NFRAMES
    ensures Inv(lay, mem[d := ZeroFrame()], own[d := Dir], head, free)
    ensures KernelState(lay, mem, own, mem[d := ZeroFrame()], own[d := Dir], d, 0)
  {
    var own1 := own[d := Other];
    assert FrameOk(lay, mem, own1, d);
    WriteContents(lay, mem, own1, head, free, d, ZeroFrame());
    NewDir(lay, mem[d := ZeroFrame()], own1, head, free, d);
    assert own1[d := Dir] == own[d := Dir];
    assert forall e: nat :: IsA(own, e, Dir) ==> IsA(own1, e, Dir);
  }

  lemma KernelStateEmpty(lay: Layout, mem: Mem, own: Owners, m1: Mem, own1: Owners, d: nat, n: nat)
    requires lay.Valid() && d < NFRAMES && n < 4 && KernelState(lay, mem, own, m1, own1, d, n)
    ensures RangeEmpty(m1, d, Kmap(lay)[n]) && IsA(own1, d, Dir)
  {
    KmapShape(lay, own1, n);
    forall i, j | 0 <= i < NENTRIES && 0 <= j < NENTRIES && KmapStart(lay, n) <= Vpn(i, j) < KmapStart(lay, n) + KmapLength(lay, n)
      ensures Lookup(m1, d, i, j) == 0
    {
      assert !KmapCovers(lay, n, Vpn(i, j));
    }
  }

  lemma KernelStateStep(lay: Layout, mem: Mem, own: Owners, m1: Mem, own1: Owners, m2: Mem, own2: Owners, d: nat, n: nat)
    requires lay.Valid() && d < NFRAMES && n < 4 && KernelState(lay, mem, own, m1, own1, d, n)
    requires Mappable(lay, own1, Kmap(lay)[n])
    requires MapState(m1, own1, m2, own2, d, Kmap(lay)[n], PageCount(Kmap(lay)[n]))
    ensures KernelState(lay, mem, own, m2, own2, d, n + 1)
  {
    var k := Kmap(lay)[n];
    KmapShape(lay, own1, n);
    forall i, j | 0 <= i < NENTRIES && 0 <= j < NENTRIES
      ensures Lookup(m2, d, i, j) == if KmapCovers(lay, n + 1, Vpn(i, j)) then KernelWord(lay, Vpn(i, j)) else 0
    {
      var v := Vpn(i, j);
      assert KmapCovers(lay, n + 1, v) <==>
             KmapCovers(lay, n, v) || KmapStart(lay, n) <= v < KmapStart(lay, n) + KmapLength(lay, n);
    }
    assert KeepsViews(own, m1, m2, d);
    KeepsViewsTrans(own, mem, m1, m2, d);
  }

  /** A failed kvm_allocate puts back all it took, whatever part of kmap it had entered. */
  lemma KernelUndo(own: Owners, own1: Owners, d: nat)
    requires IsA(own, d, Free) && GrowsTables(own[d := Dir], own1, d)
    requires forall f :: f in own && (own[f].Table? || own[f].Page?) ==> own[f].dir != d
    ensures Dissolved(own1, d, Free) == own
  {
  }

  /** No frame refers to a directory that is not one. */
  lemma FreeIsNoDir(lay: Layout, mem: Mem, own: Owners, head: Word, free: seq<nat>, d: nat)
    requires Inv(lay, mem, own, head, free) && IsA(own, d, Free)
    ensures forall f :: f in own && (own[f].Table? || own[f].Page?) ==> own[f].dir != d
  {
    forall f | f in own && (own[f].Table? || own[f].Page?) ensures own[f].dir != d {
      assert FrameOk(lay, mem, own, f);
    }
  }

  lemma PartialMap(mem: Mem, own: Owners, m1: Mem, own1: Owners, m2: Mem, own2: Owners, lay: Layout, d: nat, n: nat, k: VMap, c: nat)
    requires d < NFRAMES && k.perm < PAGE_SZ && k.pstart / PAGE_SZ + c <= NPAGES && k.virt >= KERN_BASE
    requires KernelState(lay, mem, own, m1, own1, d, n)
    requires MapState(m1, own1, m2, own2, d, k, c)
    ensures GrowsTables(own[d := Dir], own2, d) && KeepsViews(own, mem, m2, d) && KeepsContents(own, mem, m2) && IsA(own2, d, Dir)
    ensures m2[0] == mem[0]
  {
    assert KeepsViews(own, m1, m2, d);
    KeepsViewsTrans(own, mem, m1, m2, d);
  }

  lemma KernelUndoKeeps(own: Owners, own2: Owners, m0: Mem, m2: Mem, m3: Mem, d: nat)
    requires IsA(own, d, Free) && GrowsTables(own[d := Dir], own2, d)
    requires KeepsViews(own, m0, m2, d) && KeepsContents(own, m0, m2)
    requires KeepsViews(own2, m2, m3, d) && KeepsContents(own, m2, m3)
    ensures KeepsViews(own, m0, m3, NFRAMES) && KeepsContents(own, m0, m3)
  {
    assert KeepsViews(own, m2, m3, d);
    KeepsViewsTrans(own, m0, m2, m3, d);
  }

  // ------------------------------------------------------- what a space costs

  /** The frames of a directory that maps the kernel: itself and 136 tables. */
  const KERNEL_FRAMES: nat := 137

  /** The slots of the kernel's tables: 128 for the direct map, 8 for the devices. */
  ghost function KernelSlots(): set<int> {
    Spanned(0x8_0000, 0xA_0000) + Spanned(0xF_E000, 0x10_0000)
  }

  /** The tables of a user space of n pages. */
  function TablesFor(n: nat): nat {
    (n + NENTRIES - 1) / NENTRIES
  }

  /** The frames of a whole address space with n user pages. */
  function SpaceFrames(n: nat): nat {
    KERNEL_FRAMES + n + TablesFor(n)
  }

  /**
   Whether uvm_copy of n pages, with this many frames free, loses one: it runs out where a table starts with one frame
   left, which goes to the page.
   */
  predicate LosesFrame(frames: nat, n: nat) {
    KERNEL_FRAMES < frames < SpaceFrames(n) && (frames - KERNEL_FRAMES) % (NENTRIES + 1) == 1
  }

  /** With 138 free frames, copying a space of one page loses one. */
  lemma LosesOnePage()
    ensures LosesFrame(138, 1)
  {
  }

  predicate Between(a: int, b: int, i: int) {
    a <= i < b
  }

  ghost function Range(a: int, b: int): set<int> {
    set i | 0 <= i < NENTRIES && Between(a, b, i)
  }

  lemma {:induction false} RangeSize(a: int, b: int)
    requires 0 <= a <= b <= NENTRIES
    ensures |Range(a, b)| == b - a
    decreases b
  {
    if a < b {
      RangeSize(a, b - 1);
      assert Range(a, b) == Range(a, b - 1) + {b - 1};
    } else {
      assert Range(a, b) == {};
    }
  }

  lemma SpannedRange(lo: nat, hi: nat)
    requires lo < hi <= NPAGES
    ensures Spanned(lo, hi) == Range(lo / NENTRIES, (hi - 1) / NENTRIES + 1)
    ensures |Spanned(lo, hi)| == (hi - 1) / NENTRIES + 1 - lo / NENTRIES
  {
    RangeSize(lo / NENTRIES, (hi - 1) / NENTRIES + 1);
  }

  lemma KernelSlotCount()
    ensures |KernelSlots()| == KERNEL_FRAMES - 1
  {
    SpannedRange(0x8_0000, 0xA_0000);
    SpannedRange(0xF_E000, 0x10_0000);
    assert Spanned(0x8_0000, 0xA_0000) !! Spanned(0xF_E000, 0x10_0000);
  }

  lemma UserSlotCount(n: nat)
    requires n <= USER_PAGES
    ensures |Spanned(0, n)| == TablesFor(n) && |KernelSlots() + Spanned(0, n)| == |KernelSlots()| + TablesFor(n)
  {
    if n > 0 {
      SpannedRange(0, n);
    } else {
      assert Spanned(0, n) == {};
    }
    assert KernelSlots() !! Spanned(0, n);
  }

  lemma SpannedJoin(lo: nat, mid: nat, hi: nat)
    requires lo <= mid <= hi
    ensures Spanned(lo, mid) + Spanned(mid, hi) == Spanned(lo, hi)
  {
  }

  /** The slots of the first n mappings of kmap. */
  ghost function KmapSlots(lay: Layout, n: nat): set<int>
    requires lay.Valid() && n <= 4
  {
    if n == 0 then {}
    else KmapSlots(lay, n - 1) + Spanned(KmapStart(lay, n - 1), KmapStart(lay, n - 1) + KmapLength(lay, n - 1))
  }

  lemma KmapSlotsAll(lay: Layout, n: nat)
    requires lay.Valid() && n <= 4
    ensures KmapSlots(lay, n) <= KernelSlots()
    ensures KmapSlots(lay, 4) == KernelSlots()
    decreases 4 - n
  {
    hide Spanned;
    if n < 4 {
      KmapSlotsAll(lay, n + 1);
    } else {
      SpannedJoin(0x8_0000, 0x8_0100, 0x8_0000 + lay.data);
      SpannedJoin(0x8_0000, 0x8_0000 + lay.data, 0xA_0000);
      assert KmapSlots(lay, 1) == Spanned(0x8_0000, 0x8_0100);
      assert KmapSlots(lay, 2) == Spanned(0x8_0000, 0x8_0000 + lay.data);
      assert KmapSlots(lay, 3) == Spanned(0x8_0000, 0xA_0000);
    }
  }

  /** After n mappings: the directory, its tables so far, and what is left of the free list. */
  ghost predicate KernelPaid(lay: Layout, free0: seq<nat>, mem: Mem, free: seq<nat>, d: nat, n: nat)
    requires lay.Valid() && d < NFRAMES && n <= 4
  {
    Tables(mem, d) == KmapSlots(lay, n) && |free| + 1 + |Tables(mem, d)| == |free0|
  }

  lemma KernelPaidInit(lay: Layout, free0: seq<nat>, mem: Mem, free: seq<nat>, d: nat)
    requires lay.Valid() && d < NFRAMES && mem[d] == ZeroFrame() && |free| + 1 == |free0|
    ensures KernelPaid(lay, free0, mem, free, d, 0)
  {
    assert Tables(mem, d) == {};
  }

  lemma KernelPaidStep(lay: Layout, free0: seq<nat>, m1: Mem, free1: seq<nat>, m2: Mem, free2: seq<nat>, d: nat, n: nat)
    requires lay.Valid() && d < NFRAMES && n < 4 && KernelPaid(lay, free0, m1, free1, d, n)
    requires Paid(m1, free1, m2, free2, d, Spanned(KmapStart(lay, n), KmapStart(lay, n) + KmapLength(lay, n)))
    ensures KernelPaid(lay, free0, m2, free2, d, n + 1)
  {
    hide Tables, Spanned;
  }

  lemma KernelShort(lay: Layout, free0: seq<nat>, m1: Mem, free1: seq<nat>, d: nat, n: nat)
    requires lay.Valid() && d < NFRAMES && n < 4 && KernelPaid(lay, free0, m1, free1, d, n)
    requires TablesToMake(m1, d, KmapStart(lay, n), KmapStart(lay, n) + KmapLength(lay, n)) > |free1|
    ensures KERNEL_FRAMES > |free0|
  {
    hide Tables, Spanned, KernelSlots;
    KmapSlotsAll(lay, n + 1);
    KernelSlotCount();
    Subset(KmapSlots(lay, n + 1), KernelSlots());
  }

  lemma KernelPaidAll(lay: Layout, free0: seq<nat>, mem: Mem, free: seq<nat>, d: nat)
    requires lay.Valid() && d < NFRAMES && KernelPaid(lay, free0, mem, free, d, 4)
    ensures Tables(mem, d) == KernelSlots() && |free| + KERNEL_FRAMES == |free0|
  {
    hide Tables, Spanned, KernelSlots, KmapSlots;
    KmapSlotsAll(lay, 4);
    KernelSlotCount();
  }

  /** Where the directory was the only free frame, it has no table. */
  lemma LoneDirectory(lay: Layout, free0: seq<nat>, m1: Mem, free1: seq<nat>, m2: Mem, free2: seq<nat>, d: nat, n: nat, slots: set<int>)
    requires lay.Valid() && d < NFRAMES && n <= 4 && KernelPaid(lay, free0, m1, free1, d, n) && Paid(m1, free1, m2, free2, d, slots)
    ensures |free0| == 1 ==> m2[d] == ZeroFrame()
  {
    if |free0| == 1 {
      hide Spanned, KmapSlots;
      assert Tables(m2, d) == {};
      forall i | 0 <= i < NENTRIES ensures m2[d][i] == 0 {
        assert i !in Tables(m2, d);
      }
    }
  }

  /** With ownership as before, the link in the freed head is null exactly if it is the only free frame. */
  lemma FreedLink(lay: Layout, mem: Mem, own: Owners, head: Word, free: seq<nat>, mem': Mem, head': Word, free': seq<nat>, d: nat)
    requires Inv(lay, mem, own, head, free) && Inv(lay, mem', own, head', free') && free' != [] && free'[0] == d < NFRAMES
    ensures |free| == 1 ==> mem'[d][0] == 0
    ensures |free| >= 2 ==> mem'[d][0] >= KERN_BASE
  {
    var rest := free'[1..];
    assert free' == [d] + rest && d !in rest && Chain(mem', mem'[d][0], rest);
    forall f: nat ensures f in free <==> f == d || f in rest {
      assert f in free' <==> f == d || f in rest;
    }
    if |free| == 1 {
      assert free == [free[0]];
      SomeElement(rest);
    } else if |free| >= 2 {
      assert free[0] !in free[1..] && free[1] in free[1..];
      assert free[0] in free && free[1] in free;
      assert rest != [];
    }
  }

  lemma SomeElement(s: seq<nat>)
    ensures s == [] || exists f :: f in s
  {
    if s != [] {
      assert s[0] in s;
    }
  }

  /** What growing a space that holds only the kernel costs. */
  lemma GrowFromKernel(mem: Mem, d: nat, n: nat)
    requires d < NFRAMES && n <= USER_PAGES && Tables(mem, d) == KernelSlots()
    ensures FramesToGrow(mem, d, 0, n) == n + TablesFor(n)
  {
    hide Tables, KernelSlots;
    UserSlotCount(n);
  }

  /**
   kvm_allocate: a new directory that maps the kernel and nothing else. When memory runs
   out every frame it took is free again, but the caller's pointer to the directory stays: null (here 0) only
   if there was no frame at all.
   */
  method KvmAllocate(m: Memory) returns (ok: bool, d: nat)
    requires m.Valid()
    modifies m
    ensures m.Valid()
    ensures ok ==> d < NFRAMES && IsA(m.own, d, Dir)
                   && KernelState(m.lay, old(m.frames), old(m.own), m.frames, m.own, d, 4)
    ensures ok <==> KERNEL_FRAMES <= |old(m.free)|
    ensures ok ==> Tables(m.frames, d) == KernelSlots() && |m.free| + KERNEL_FRAMES == |old(m.free)|
    ensures !ok ==> m.own == old(m.own)
                    && KeepsViews(old(m.own), old(m.frames), m.frames, NFRAMES)
                    && KeepsContents(old(m.own), old(m.frames), m.frames)
                    && LowShrinks(old(m.frames), m.frames)
    ensures !ok ==> (d == 0 <==> old(m.free) == [])
    ensures !ok && d != 0 ==> d < NFRAMES && m.lay.end <= d && m.freelist == FrameToKa(d)
    ensures !ok && d != 0 ==> if |old(m.free)| == 1 then m.frames[d] == ZeroFrame() else m.frames[d][0] >= KERN_BASE
  {
    hide Tables, KernelSlots, KernelPaid, Paid, TablesToMake, KernelState, MapState, Mappable, RangeEmpty, PageCount, Kmap, KeepsViews, KeepsContents, FramesOk, FreeListOk, LowFrameOk,
         KaToFrame, Dissolved, GrowsTables;
    KeepsRefl(m.own, m.frames, NFRAMES);
    var ka := m.Alloc();
    if ka == 0 {
      return false, 0;
    }
    d := KaToFrame(ka);
    FreeIsNoDir(m.lay, old(m.frames), old(m.own), old(m.freelist), old(m.free), d);
    KernelStateInit(m.lay, m.frames, old(m.own), m.freelist, m.free, d);
    m.frames := m.frames[d := ZeroFrame()];
    m.own := m.own[d := Dir];
    assert m.own == old(m.own)[d := Dir];
    KernelPaidInit(m.lay, old(m.free), m.frames, m.free, d);
    var n := 0;
    while n < 4
      invariant 0 <= n <= 4 && m.Valid() && IsA(m.own, d, Dir)
      invariant KernelPaid(m.lay, old(m.free), m.frames, m.free, d, n)
      invariant KernelState(m.lay, old(m.frames), old(m.own), m.frames, m.own, d, n)
    {
      ghost var mem, own, free := m.frames, m.own, m.free;
      KmapShape(m.lay, m.own, n);
      KernelStateEmpty(m.lay, old(m.frames), old(m.own), mem, own, d, n);
      KmapLen(m.lay);
      var k := Kmap(m.lay)[n];
      var mapped, done := MapPages(m, d, k);
      PartialMap(old(m.frames), old(m.own), mem, own, m.frames, m.own, m.lay, d, n, k, done);
      if !mapped {
        ghost var mem2, own2 := m.frames, m.own;
        KernelShort(m.lay, old(m.free), mem, free, d, n);
        LoneDirectory(m.lay, old(m.free), mem, free, m.frames, m.free, d, n, Spanned(KmapStart(m.lay, n), KmapStart(m.lay, n) + done));
        OwnedFrame(m.lay, m.frames, m.own, m.freelist, m.free, d);
        VmFree(m, d);
        KernelUndo(old(m.own), own2, d);
        KernelUndoKeeps(old(m.own), own2, old(m.frames), mem2, m.frames, d);
        FreedLink(m.lay, old(m.frames), old(m.own), old(m.freelist), old(m.free), m.frames, m.freelist, m.free, d);
        return false, d;
      }
      KernelStateStep(m.lay, old(m.frames), old(m.own), mem, own, m.frames, m.own, d, n);
      KernelPaidStep(m.lay, old(m.free), mem, free, m.frames, m.free, d, n);
      n := n + 1;
    }
    KernelPaidAll(m.lay, old(m.free), m.frames, m.free, d);
    ok := true;
  }

  lemma KmapLen(lay: Layout)
    requires lay.Valid()
    ensures |Kmap(lay)| == 4
    ensures forall n :: 0 <= n < 4 ==> Kmap(lay)[n].perm < PAGE_SZ
  {
  }

  // ------------------------------------------------------------------- copying

  /** Page (i, j) of d is a private copy, in words and flags, of the same page of src. */
  ghost predicate CopiedPage(mem: Mem, own: Owners, mem': Mem, own': Owners, src: nat, d: nat, i: nat, j: nat)
    requires src < NFRAMES && d < NFRAMES && i < NENTRIES && j < NENTRIES
  {
    && PteFlags(Lookup(mem', d, i, j)) == PteFlags(Lookup(mem, src, i, j))
    && PteFrame(Lookup(mem', d, i, j)) < NFRAMES && PteFrame(Lookup(mem, src, i, j)) < NFRAMES
    && IsA(own, PteFrame(Lookup(mem', d, i, j)), Free)
    && IsA(own', PteFrame(Lookup(mem', d, i, j)), Page(d, i, j))
    && mem'[PteFrame(Lookup(mem', d, i, j))] == mem[PteFrame(Lookup(mem, src, i, j))]
  }

  /** Directory d holds the kernel map and copies of the first n pages of src. */
  ghost predicate CopyState(lay: Layout, mem: Mem, own: Owners, mem': Mem, own': Owners, src: nat, d: nat, n: nat)
    requires src < NFRAMES && d < NFRAMES
  {
    && (forall i, j :: 0 <= i < NENTRIES && 0 <= j < NENTRIES ==>
          if Vpn(i, j) < n then CopiedPage(mem, own, mem', own', src, d, i, j)
          else Lookup(mem', d, i, j) == KernelWord(lay, Vpn(i, j)))
    && IsA(own, d, Free) && IsA(own', d, Dir)
    && own'.Keys == own.Keys
    && (forall f :: f in own ==>
          || own'[f] == own[f]
          || (own[f].Free? && (f == d || ((own'[f].Table? || own'[f].Page?) && own'[f].dir == d))))
    && KeepsViews(own, mem, mem', d)
    && KeepsContents(own, mem, mem')
    && mem'[0] == mem[0]
  }

  lemma CopyStateInit(lay: Layout, mem: Mem, own: Owners, m1: Mem, own1: Owners, src: nat, d: nat)
    requires src < NFRAMES && d < NFRAMES && IsA(own1, d, Dir)
    requires KernelState(lay, mem, own, m1, own1, d, 4)
    ensures CopyState(lay, mem, own, m1, own1, src, d, 0)
  {
    forall i, j | 0 <= i < NENTRIES && 0 <= j < NENTRIES
      ensures Lookup(m1, d, i, j) == KernelWord(lay, Vpn(i, j))
    {
      assert !KmapCovers(lay, 4, Vpn(i, j)) ==> KernelWord(lay, Vpn(i, j)) == 0;
    }
  }

  /** The user pages of src below n are mapped, each to a frame of its own. */
  ghost predicate MappedBelow(mem: Mem, src: nat, n: nat)
    requires src < NFRAMES
  {
    forall i, j :: 0 <= i < NENTRIES && 0 <= j < NENTRIES && Vpn(i, j) < n ==> Present(Lookup(mem, src, i, j))
  }

  /** What one turn of uvm_copy finds: the page of src. */
  lemma CopySource(lay: Layout, mem: Mem, own: Owners, head0: Word, free0: seq<nat>, m1: Mem, own1: Owners, head: Word, free: seq<nat>,
                   src: nat, d: nat, v: nat, n: nat)
    requires src < NFRAMES && d < NFRAMES && v < n <= USER_PAGES
    requires Inv(lay, mem, own, head0, free0) && IsA(own, src, Dir) && MappedBelow(mem, src, n)
    requires CopyState(lay, mem, own, m1, own1, src, d, v) && Inv(lay, m1, own1, head, free)
    ensures src != d
    ensures var i, j := PageDirectoryIdx(PageAt(v)), PageTableIdx(PageAt(v));
            var w := Lookup(mem, src, i, j);
            && GetPte(m1, src, PageAt(v)).frame < NFRAMES
            && m1[GetPte(m1, src, PageAt(v)).frame][GetPte(m1, src, PageAt(v)).idx] == w
            && Present(w) && PteFrame(w) < NFRAMES && m1[PteFrame(w)] == mem[PteFrame(w)]
            && PteFlags(w) < PAGE_SZ && PteFlags(w) % 2 == 1
  {
    var i, j := PageDirectoryIdx(PageAt(v)), PageTableIdx(PageAt(v));
    var w := Lookup(mem, src, i, j);
    PageAtFields(v);
    hide PageDirectoryIdx, PageTableIdx, FreeListOk, LowFrameOk;
    assert SameView(mem, m1, src) && Lookup(m1, src, i, j) == w;
    GetPteMeaning(lay, m1, own1, src, PageAt(v));
    ZeroNotPresent();
    UserEntry(lay, mem, own, src, i, j);
    FlagsOdd(w);
  }

  lemma FlagsOdd(w: Word)
    requires Present(w)
    ensures PteFlags(w) < PAGE_SZ && PteFlags(w) % 2 == 1
  {
  }

  /** One turn of uvm_copy: the frame in hand takes the words g, and the page is free to map. */
  lemma CopyRoom(lay: Layout, mem: Mem, own: Owners, m1: Mem, own1: Owners, head: Word, free: seq<nat>,
                 src: nat, d: nat, v: nat, f: nat, g: Frame, perm: nat)
    requires src < NFRAMES && d < NFRAMES && v < USER_PAGES && f < NFRAMES && perm < PAGE_SZ
    requires CopyState(lay, mem, own, m1, own1, src, d, v)
    requires IsA(own1, f, Free) && Inv(lay, m1, own1[f := Other], head, free)
    ensures IsA(own1[f := Other], d, Dir)
    ensures Inv(lay, m1[f := g], own1[f := Other], head, free)
    ensures SameView(m1, m1[f := g], d) && KeepsViews(own1, m1, m1[f := g], NFRAMES)
    ensures Mappable(lay, own1[f := Other], UserPage(PageAt(v), f, perm))
    ensures RangeEmpty(m1[f := g], d, UserPage(PageAt(v), f, perm))
    ensures PageCount(UserPage(PageAt(v), f, perm)) == 1
    ensures f * PAGE_SZ / PAGE_SZ == f && PageAt(v) < KERN_BASE && f > 0
  {
    var own1' := own1[f := Other];
    assert FrameOk(lay, m1, own1', f);
    WriteContents(lay, m1, own1', head, free, f, g);
    UserPageMeaning(lay, own1', v, f, perm);
    hide PageDirectoryIdx, PageTableIdx, PageCount, Mappable, MakePte, FreeListOk, LowFrameOk, PteFrame, PteFlags;
    assert KeepsViews(own1, m1, m1[f := g], NFRAMES) by {
      assert forall e: nat :: IsA(own1, e, Dir) ==> IsA(own1', e, Dir);
    }
    forall a, b | 0 <= a < NENTRIES && 0 <= b < NENTRIES && v <= Vpn(a, b) < v + 1
      ensures Lookup(m1[f := g], d, a, b) == 0
    {
      assert Lookup(m1, d, a, b) == KernelWord(lay, v);
    }
  }

  /** A present entry of the user half names a page of the directory. */
  lemma UserEntry(lay: Layout, mem: Mem, own: Owners, d: nat, i: nat, j: nat)
    requires FramesOk(lay, mem, own) && IsA(own, d, Dir) && d < NFRAMES && i < USER_PDES && j < NENTRIES
    requires Present(Lookup(mem, d, i, j))
    ensures var f := PteFrame(Lookup(mem, d, i, j));
            f < NFRAMES && IsA(own, f, Page(d, i, j))
  {
    assert FrameOk(lay, mem, own, d) && DirEntryOk(mem, own, d, i);
    var t := PteFrame(mem[d][i]);
    assert FrameOk(lay, mem, own, t) && TableEntryOk(lay, mem, own, t, j);
    assert FrameOk(lay, mem, own, PteFrame(Lookup(mem, d, i, j)));
  }

  lemma CopyStateStep(lay: Layout, mem: Mem, own: Owners, m1: Mem, own1: Owners, m2: Mem, own2: Owners,
                      src: nat, d: nat, v: nat, f: nat, w: Word)
    requires src < NFRAMES && d < NFRAMES && v < USER_PAGES && f < NFRAMES && IsA(own1, f, Free)
    requires CopyState(lay, mem, own, m1, own1, src, d, v)
    requires w == Lookup(mem, src, PageDirectoryIdx(PageAt(v)), PageTableIdx(PageAt(v)))
    requires PteFrame(w) < NFRAMES && PteFlags(w) < PAGE_SZ && PteFlags(w) % 2 == 1
    requires PageAdded(m1, own1, m2, own2, d, v, f, PteFlags(w), mem[PteFrame(w)])
    ensures CopyState(lay, mem, own, m2, own2, src, d, v + 1)
  {
    hide PageDirectoryIdx, PageTableIdx, PageAt, MakePte, PteFrame, PteFlags, KernelWord, Lookup, SameView;
    var x, y := PageDirectoryIdx(PageAt(v)), PageTableIdx(PageAt(v));
    PageAtFields(v);
    MakePteParts(f, PteFlags(w));
    MakePteFlags(f, PteFlags(w));
    forall i, j | 0 <= i < NENTRIES && 0 <= j < NENTRIES
      ensures if Vpn(i, j) < v + 1 then CopiedPage(mem, own, m2, own2, src, d, i, j)
              else Lookup(m2, d, i, j) == KernelWord(lay, Vpn(i, j))
    {
      VpnInjective(i, j, x, y);
      if Vpn(i, j) < v {
        assert CopiedPage(mem, own, m1, own1, src, d, i, j);
      }
    }
    assert KeepsViews(own, m1, m2, d);
    KeepsViewsTrans(own, mem, m1, m2, d);
  }

  /** Freeing the half-made copy returns every frame but the one named by x, if that is in hand. */
  lemma CopyUndo(lay: Layout, mem: Mem, own: Owners, head: Word, free: seq<nat>, m1: Mem, own1: Owners, m2: Mem,
                 own2: Owners, m3: Mem, src: nat, d: nat, v: nat, x: nat)
    requires src < NFRAMES && d < NFRAMES && CopyState(lay, mem, own, m1, own1, src, d, v)
    requires Inv(lay, mem, own, head, free) && x != d
    requires own2 == own1 || (IsA(own1, x, Free) && own2 == own1[x := Other])
    requires KeepsViews(own1, m1, m2, NFRAMES)
    requires forall f :: f in own && (own[f].Page? || own[f].Other?) && f < NFRAMES ==> m2[f] == m1[f]
    requires KeepsViews(own2, m2, m3, d) && KeepsContents(Dissolved(own2, d, Free), m2, m3)
    requires m2[0] == m1[0] && LowShrinks(m2, m3)
    ensures LowShrinks(mem, m3)
    ensures Dissolved(own2, d, Free) == if own2 == own1 then own else own[x := Other]
    ensures KeepsViews(own, mem, m3, NFRAMES) && KeepsContents(own, mem, m3)
  {
    hide Inv, PteFrame, PteFlags, MakePte, KernelWord, Lookup, SameView;
    FreeIsNoDir(lay, mem, own, head, free, d);
    var own3 := Dissolved(own2, d, Free);
    forall f | f in own ensures own3[f] == if f == x && own2 != own1 then Other else own[f] {
    }
    assert own3 == if own2 == own1 then own else own[x := Other];
    assert KeepsViews(own, m1, m2, d) && KeepsViews(own, m2, m3, d);
    KeepsViewsTrans(own, mem, m1, m2, d);
    KeepsViewsTrans(own, mem, m2, m3, d);
    assert KeepsContents(own, m2, m3);
  }

  /**
   uvm_copy: a new directory whose first sz bytes are a private copy of src, page by page
   and flag by flag. It panics if a page of src below sz is absent.

   When palloc fails every frame is back where it was. When map_pages fails the page just
   copied is not returned: `leaked` is that one frame, and LosesFrame tells in advance whether that happens.
   */
  method UvmCopy(m: Memory, src: nat, sz: Word) returns (ok: bool, d: nat, ghost leaked: set<nat>)
    requires m.Valid() && IsA(m.own, src, Dir) && src < NFRAMES && sz <= KERN_BASE
    requires MappedBelow(m.frames, src, PagesFor(sz))
    modifies m
    ensures m.Valid()
    ensures ok ==> d < NFRAMES && d != src && leaked == {}
                   && CopyState(m.lay, old(m.frames), old(m.own), m.frames, m.own, src, d, PagesFor(sz))
    ensures ok <==> SpaceFrames(PagesFor(sz)) <= |old(m.free)|
    ensures ok ==> |m.free| + SpaceFrames(PagesFor(sz)) == |old(m.free)|
    ensures leaked != {} <==> LosesFrame(|old(m.free)|, PagesFor(sz))
    ensures !ok ==>
              && (leaked == {} ==> m.own == old(m.own))
              && (leaked != {} ==> exists f :: leaked == {f} && IsA(old(m.own), f, Free) && m.own == old(m.own)[f := Other])
              && KeepsViews(old(m.own), old(m.frames), m.frames, NFRAMES)
              && KeepsContents(old(m.own), old(m.frames), m.frames)
              && LowShrinks(old(m.frames), m.frames)
  {
    hide PageAlignUp, PagesFor, PageAt, Inv, CopyState, KernelState, MapState, MappedBelow, Mappable, RangeEmpty, KeepsViews,
         KeepsContents, SameView, PageCount, KaToFrame, Dissolved, PteFrame, PteFlags, PteAddr, Present, Lookup, PageAdded,
         Grown, FramesToGrow, Paid, TablesToMake, Tables, KernelSlots, TablesFor;
    leaked := {};
    ok, d := KvmAllocate(m);
    if !ok {
      return false, d, {};
    }
    ghost var n := PagesFor(sz);
    ghost var v := 0;
    PagesForMeaning(sz);
    CopyStateInit(m.lay, old(m.frames), old(m.own), m.frames, m.own, src, d);
    CopyDirs(m.lay, old(m.frames), old(m.own), m.frames, m.own, src, d, 0);
    PageZero();
    ghost var memK, freeK := m.frames, m.free;
    GrowFromKernel(memK, d, n);
    NothingGrown(memK, freeK, d, 0);
    var i: Word := 0;
    while i < sz
      invariant 0 <= v <= n && i == PageAt(v) && d != src
      invariant Grown(memK, freeK, m.frames, m.free, d, 0, v)
      invariant m.Valid() && IsA(m.own, d, Dir)
      invariant CopyState(m.lay, old(m.frames), old(m.own), m.frames, m.own, src, d, v)
      decreases n - v
    {
      ghost var mem, own, free := m.frames, m.own, m.free;
      CopySource(m.lay, old(m.frames), old(m.own), old(m.freelist), old(m.free), mem, own, m.freelist, m.free, src, d, v, n);
      var pte := GetPte(m.frames, src, i);
      var w := m.frames[pte.frame][pte.idx];
      var ka := m.Alloc();
      if ka == 0 {
        GrowShort(memK, freeK, mem, free, mem, d, 0, v, n);
        CopyNoPage(memK, freeK, mem, free, d, v);
        KeepsRefl(own, mem, NFRAMES);
        VmFree(m, d);
        CopyUndo(m.lay, old(m.frames), old(m.own), old(m.freelist), old(m.free), mem, own, mem, own, m.frames, src, d, v, NFRAMES);
        return false, d, {};
      }
      var f := KaToFrame(ka);
      CopyRoom(m.lay, old(m.frames), old(m.own), mem, own, m.freelist, m.free, src, d, v, f, mem[PteFrame(w)], PteFlags(w));
      m.frames := m.frames[f := m.frames[PteFrame(w)]];
      ghost var mem1, own1, free1 := m.frames, m.own, m.free;
      PageOfAddress(i, v);
      var mapped, done := MapPages(m, d, UserPage(i, f, PteFlags(w)));
      if !mapped {
        GrowShort(memK, freeK, mem, free, mem1, d, 0, v, n);
        CopyNoTable(memK, freeK, mem, free, mem1, d, v);
        MapStateFailed(mem1, own1, m.frames, m.own, d, UserPage(i, f, PteFlags(w)));
        CopyLeak(m.lay, old(m.frames), old(m.own), mem, own, src, d, v, f);
        VmFree(m, d);
        CopyUndo(m.lay, old(m.frames), old(m.own), old(m.freelist), old(m.free), mem, own, mem1, own1, m.frames, src, d, v, f);
        leaked := {f};
        return false, d, {f};
      }
      GrowStep(memK, freeK, mem, free, mem1, free1, m.frames, m.free, d, 0, v);
      AddPage(m.lay, mem, own, m.frames, m.own, d, v, f, PteFlags(w), old(m.frames)[PteFrame(w)]);
      CopyStateStep(m.lay, old(m.frames), old(m.own), mem, own, m.frames, m.own, src, d, v, f, w);
      CopyDirs(m.lay, old(m.frames), old(m.own), m.frames, m.own, src, d, v + 1);
      PageAtStepUser(v);
      i, v := i + PAGE_SZ, v + 1;
    }
    GrownAll(memK, freeK, m.frames, m.free, d, 0, n);
    CopyPaid(memK, freeK, m.frames, m.free, d, n);
    ok := true;
  }

  /** What is left before page v, when every page so far has been paid for. */
  lemma CopyLeft(memK: Mem, freeK: seq<nat>, mem: Mem, free: seq<nat>, d: nat, v: nat)
    requires d < NFRAMES && v < USER_PAGES && Tables(memK, d) == KernelSlots() && Grown(memK, freeK, mem, free, d, 0, v)
    ensures |free| + v + TablesFor(v) == |freeK| && Tables(mem, d) == KernelSlots() + Spanned(0, v)
  {
    hide Tables, KernelSlots;
    UserSlotCount(v);
  }

  lemma CopyNoPage(memK: Mem, freeK: seq<nat>, mem: Mem, free: seq<nat>, d: nat, v: nat)
    requires d < NFRAMES && v < USER_PAGES && Tables(memK, d) == KernelSlots() && Grown(memK, freeK, mem, free, d, 0, v)
    requires free == []
    ensures |freeK| % (NENTRIES + 1) != 1
  {
    CopyLeft(memK, freeK, mem, free, d, v);
  }

  /** A table cannot be had exactly where one starts and one frame is left. */
  lemma CopyNoTable(memK: Mem, freeK: seq<nat>, mem: Mem, free: seq<nat>, mem1: Mem, d: nat, v: nat)
    requires d < NFRAMES && v < USER_PAGES && Tables(memK, d) == KernelSlots() && Grown(memK, freeK, mem, free, d, 0, v)
    requires free != [] && mem1[d] == mem[d] && TablesToMake(mem1, d, v, v + 1) > |free| - 1
    ensures |freeK| % (NENTRIES + 1) == 1
  {
    CopyLeft(memK, freeK, mem, free, d, v);
    assert Tables(mem1, d) == Tables(mem, d);
    TurnCost(mem1, d, v);
    TableStart(|freeK|, v);
  }

  /** Page v needs a table of its own only if it is the first of its slot. */
  lemma TurnCost(mem: Mem, d: nat, v: nat)
    requires d < NFRAMES && v < USER_PAGES && Tables(mem, d) == KernelSlots() + Spanned(0, v)
    ensures TablesToMake(mem, d, v, v + 1) <= if v % NENTRIES == 0 then 1 else 0
  {
    var t := Tables(mem, d);
    hide Tables, KernelSlots;
    SpannedStep(v, v);
    if v % NENTRIES != 0 {
      SlotSpanned(v);
      assert t + Spanned(v, v + 1) == t;
    }
    assert |t + {v / NENTRIES}| <= |t| + 1;
  }

  lemma SlotSpanned(v: nat)
    requires v % NENTRIES != 0 && v < NPAGES
    ensures v / NENTRIES in Spanned(0, v)
  {
  }

  lemma TableStart(frames: nat, v: nat)
    requires frames == 1 + v + TablesFor(v) && v % NENTRIES == 0
    ensures frames % (NENTRIES + 1) == 1
  {
    assert frames == 1 + (NENTRIES + 1) * (v / NENTRIES);
  }

  lemma CopyPaid(memK: Mem, freeK: seq<nat>, mem: Mem, free: seq<nat>, d: nat, n: nat)
    requires d < NFRAMES && n <= USER_PAGES && Tables(memK, d) == KernelSlots() && Grown(memK, freeK, mem, free, d, 0, n)
    ensures Tables(mem, d) == KernelSlots() + Spanned(0, n) && |free| + n + TablesFor(n) == |freeK|
  {
    hide Tables, KernelSlots;
    UserSlotCount(n);
  }

  lemma PageZero()
    ensures PageAt(0) == 0
  {
  }

  lemma CopyDirs(lay: Layout, mem: Mem, own: Owners, mem': Mem, own': Owners, src: nat, d: nat, v: nat)
    requires src < NFRAMES && d < NFRAMES && CopyState(lay, mem, own, mem', own', src, d, v) && IsA(own, src, Dir)
    ensures IsA(own', d, Dir) && d != src
  {
  }

  lemma CopyLeak(lay: Layout, mem: Mem, own: Owners, mem': Mem, own': Owners, src: nat, d: nat, v: nat, f: nat)
    requires src < NFRAMES && d < NFRAMES && CopyState(lay, mem, own, mem', own', src, d, v) && IsA(own', f, Free)
    ensures IsA(own, f, Free) && f != d
  {
  }
}
