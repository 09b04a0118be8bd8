/**
 The address spaces of all processes at once: what fork, sbrk, exec, exit and writes keep of the others.
 */
module Spaces {
  import opened Wrappers
  import opened Mmu
  import opened Bytes
  import opened Frames
  import opened Pgtbl
  import opened Vmem
  import opened UserMem
  import opened Loader
  import opened ArgStack
  import opened Exec
  import opened Marks

  // ------------------------------------------------------------ the kernel map

  /** Every address of a new directory: the direct map, the device map, and nothing else. */
  lemma KernelTranslation(lay: Layout, mem: Mem, own: Owners, mem': Mem, own': Owners, d: nat, va: Word)
    requires lay.Valid() && d < NFRAMES && KernelState(lay, mem, own, mem', own', d, 4)
    ensures var w := Lookup(mem', d, PageDirectoryIdx(va), PageTableIdx(va));
            && !IsUser(w)
            && (if KERN_BASE <= va < KERN_BASE + PHYSTOP then
                  && Present(w) && PteAddr(w) + va % PAGE_SZ == va - KERN_BASE
                  && (IsWritable(w) <==> !(KERN_BASE + EXTMEM <= va < KERN_BASE + lay.data * PAGE_SZ))
                else if DEV_SPACE <= va then
                  Present(w) && PteAddr(w) + va % PAGE_SZ == va && IsWritable(w)
                else w == 0)
  {
    hide PageDirectoryIdx, PageTableIdx, KeepsViews, KeepsContents, GrowsTables;
    var i, j := PageDirectoryIdx(va), PageTableIdx(va);
    var v := Vpn(i, j);
    AddressFields(va);
    assert Lookup(mem', d, i, j) == if KmapCovers(lay, 4, v) then KernelWord(lay, v) else 0;
    KernelNotUser(lay, v, KernelWord(lay, v));
    if v >= 0x8_0000 {
      var f := if v < 0xF_E000 then v - 0x8_0000 else v;
      MakePteAddr(f, PTE_W);
      MakePteAddr(f, 0);
      MakePteFlags(f, PTE_W);
      MakePteFlags(f, 0);
    }
    hide MakePte, IsUser, IsWritable, Present, PteAddr;
  }

  lemma MakePteAddr(f: nat, perm: nat)
    requires f < NPAGES && perm < PAGE_SZ
    ensures PteAddr(MakePte(f, perm)) == f * PAGE_SZ && Present(MakePte(f, perm))
  {
    MakePteParts(f, perm);
    var w := MakePte(f, perm);
    assert w - w % PAGE_SZ == w / PAGE_SZ * PAGE_SZ;
  }

  // ---------------------------------------------------------------- isolation

  /** A write into one address space changes no byte that another reads. */
  lemma WriteIsolated(lay: Layout, mem: Mem, own: Owners, mem': Mem, head: Word, free: seq<nat>, d: nat, e: nat, a: Word)
    requires Inv(lay, mem, own, head, free) && KeepsOthers(own, mem, mem', d)
    requires IsA(own, e, Dir) && e != d && e < NFRAMES
    ensures UserByte(mem', e, a) == UserByte(mem, e, a)
  {
    hide PageDirectoryIdx, PageTableIdx;
    assert SameView(mem, mem', e);
    assert Lookup(mem', e, PageDirectoryIdx(a), PageTableIdx(a)) == Lookup(mem, e, PageDirectoryIdx(a), PageTableIdx(a));
    if UserFrame(mem, e, a).Some? {
      UserFrameOwned(lay, mem, own, e, a);
    }
  }

  /**
   After a fork the child reads, below the copied size, the bytes the parent read; every
   page has the parent's flags; the parent reads what it read; and no page is shared.
   */
  lemma ForkedAlike(lay: Layout, mem: Mem, own: Owners, head: Word, free: seq<nat>, mem': Mem, own': Owners, head': Word,
                    free': seq<nat>, src: nat, d: nat, n: nat, a: Word)
    requires Inv(lay, mem, own, head, free) && Inv(lay, mem', own', head', free') && IsA(own, src, Dir)
    requires src < NFRAMES && d < NFRAMES && n <= USER_PAGES && CopyState(lay, mem, own, mem', own', src, d, n)
    ensures a / PAGE_SZ < n ==> UserByte(mem', d, a) == UserByte(mem, src, a)
    ensures var i, j := PageDirectoryIdx(a), PageTableIdx(a);
            a / PAGE_SZ < n ==> PteFlags(Lookup(mem', d, i, j)) == PteFlags(Lookup(mem, src, i, j))
    ensures UserByte(mem', src, a) == UserByte(mem, src, a)
    ensures forall b: Word :: UserFrame(mem', d, a).Some? && UserFrame(mem', src, b).Some? ==>
              UserFrame(mem', d, a) != UserFrame(mem', src, b)
  {
    hide PageDirectoryIdx, PageTableIdx, FreeListOk, LowFrameOk, ByteAt;
    var i, j := PageDirectoryIdx(a), PageTableIdx(a);
    AddressFields(a);
    if a / PAGE_SZ < n {
      assert CopiedPage(mem, own, mem', own', src, d, i, j);
      SameFlags(Lookup(mem', d, i, j), Lookup(mem, src, i, j));
    }
    OthersOfContents(own, mem, mem', d);
    WriteIsolated(lay, mem, own, mem', head, free, d, src, a);
    assert IsA(own', src, Dir) && d != src;
    forall b: Word | UserFrame(mem', d, a).Some? && UserFrame(mem', src, b).Some?
      ensures UserFrame(mem', d, a) != UserFrame(mem', src, b)
    {
      UserFrameOwned(lay, mem', own', d, a);
      UserFrameOwned(lay, mem', own', src, b);
    }
  }

  /**
   fork and then a write, by uvm_memcpy or by the program, into either the child or the parent: the other still reads, below
   the copied size, what the parent read before the fork; the written one reads the new bytes there and the old elsewhere.
   */
  lemma ForkedApart(lay: Layout, mem: Mem, own: Owners, head: Word, free: seq<nat>, m1: Mem, own1: Owners, head1: Word, free1: seq<nat>,
                    m2: Mem, head2: Word, free2: seq<nat>, src: nat, d: nat, n: nat, toChild: bool, vaddr: Word, buf: seq<Byte>,
                    done: nat, a: Word)
    requires Inv(lay, mem, own, head, free) && Inv(lay, m1, own1, head1, free1) && IsA(own, src, Dir)
    requires src < NFRAMES && d < NFRAMES && n <= USER_PAGES && CopyState(lay, mem, own, m1, own1, src, d, n)
    requires Inv(lay, m2, own1, head2, free2) && UserWrite(m1, m2, own1, if toChild then d else src, vaddr, buf, done)
    requires a / PAGE_SZ < n
    ensures UserByte(m2, if toChild then src else d, a) == UserByte(mem, src, a)
    ensures UserByte(m2, if toChild then d else src, a) ==
            if vaddr <= a < vaddr + done then Some(buf[a - vaddr]) else UserByte(mem, src, a)
  {
    hide Inv, CopyState, UserByte, KeepsOthers;
    var x, y := if toChild then d else src, if toChild then src else d;
    BothDirs(lay, mem, own, m1, own1, src, d, n);
    ForkedAlike(lay, mem, own, head, free, m1, own1, head1, free1, src, d, n, a);
    OnlyWrites(m1, m2, own1, x, vaddr, buf, done);
    OthersOfWrite(lay, m1, own1, m2, head2, free2, x);
    WriteIsolated(lay, m1, own1, m2, head1, free1, x, y, a);
  }

  lemma BothDirs(lay: Layout, mem: Mem, own: Owners, m1: Mem, own1: Owners, src: nat, d: nat, n: nat)
    requires src < NFRAMES && d < NFRAMES && CopyState(lay, mem, own, m1, own1, src, d, n) && IsA(own, src, Dir)
    ensures IsA(own1, src, Dir) && IsA(own1, d, Dir) && src != d
  {
  }

  lemma SameFlags(v: Word, w: Word)
    requires PteFlags(v) == PteFlags(w)
    ensures (Present(v) <==> Present(w)) && (IsUser(v) <==> IsUser(w)) && (IsWritable(v) <==> IsWritable(w))
  {
    LowOfFlags(v);
    LowOfFlags(w);
    LowBits(v);
    LowBits(w);
    hide Present, IsUser, IsWritable;
  }

  lemma LowOfFlags(w: Word)
    ensures w % 8 == PteFlags(w) % 8
  {
    assert w == PAGE_SZ * (w / PAGE_SZ) + w % PAGE_SZ;
    assert w == 8 * (512 * (w / PAGE_SZ)) + w % PAGE_SZ;
  }

  // ------------------------------------------------------- all processes together

  /** The same frames are directories, and the same frames are in hand. */
  ghost predicate SameRoles(own: Owners, own': Owners) {
    forall f: nat :: (IsA(own, f, Dir) <==> IsA(own', f, Dir)) && (IsA(own, f, Other) <==> IsA(own', f, Other))
  }

  /**
   Every directory is the kernel's or a process's; every loose frame is accounted for; and the user pages of a process
   are exactly those its size calls for, unless it is one of the hollow ones, which have shrunk to exactly 0.
   */
  ghost predicate Consistent(mem: Mem, own: Owners, sizes: map<nat, Word>, kernel: nat, loose: set<nat>, holes: set<nat>) {
    && kernel !in sizes && holes <= sizes.Keys
    && (forall d: nat :: IsA(own, d, Dir) <==> d in sizes || d == kernel)
    && (forall f: nat :: IsA(own, f, Other) <==> f in loose)
    && (forall d :: d in sizes ==> SpaceOk(mem, d, sizes[d], d in holes))
  }

  ghost predicate SpaceOk(mem: Mem, d: nat, size: Word, hollow: bool) {
    if hollow then Hollow(mem, d, size) else Agrees(mem, d, size)
  }

  ghost predicate Agrees(mem: Mem, d: nat, size: Word) {
    d < NFRAMES && size <= KERN_BASE && MappedExactly(mem, d, PagesFor(size))
  }

  /** The first page is gone although the size is not 0; nothing is mapped from the size on. */
  ghost predicate Hollow(mem: Mem, d: nat, size: Word) {
    && d < NFRAMES && 0 < size <= KERN_BASE
    && Lookup(mem, d, 0, 0) == 0 && Unmapped(mem, d, PagesFor(size), USER_PAGES)
  }

  lemma SpaceViewKept(mem: Mem, mem': Mem, d: nat, size: Word, hollow: bool)
    requires d < NFRAMES && SpaceOk(mem, d, size, hollow) && SameView(mem, mem', d)
    ensures SpaceOk(mem', d, size, hollow)
  {
    hide PagesFor;
    if hollow {
      assert Lookup(mem', d, 0, 0) == Lookup(mem, d, 0, 0);
      forall i, j | 0 <= i < NENTRIES && 0 <= j < NENTRIES && PagesFor(size) <= Vpn(i, j) < USER_PAGES
        ensures Lookup(mem', d, i, j) == 0
      {
        assert Lookup(mem', d, i, j) == Lookup(mem, d, i, j);
      }
    } else {
      MappedKept(mem, mem', d, PagesFor(size));
    }
  }

  /** Processes other than d keep their spaces. */
  lemma OthersOk(mem: Mem, own: Owners, mem': Mem, sizes: map<nat, Word>, kernel: nat, loose: set<nat>, holes: set<nat>, d: nat)
    requires Consistent(mem, own, sizes, kernel, loose, holes) && KeepsViews(own, mem, mem', d)
    ensures forall e :: e in sizes && e != d ==> SpaceOk(mem', e, sizes[e], e in holes)
  {
    hide Agrees, Hollow;
    forall e | e in sizes && e != d ensures SpaceOk(mem', e, sizes[e], e in holes) {
      assert IsA(own, e, Dir) && SpaceOk(mem, e, sizes[e], e in holes);
      SpaceBound(mem, e, sizes[e], e in holes);
      SpaceViewKept(mem, mem', e, sizes[e], e in holes);
    }
  }

  lemma SpaceBound(mem: Mem, d: nat, size: Word, hollow: bool)
    requires SpaceOk(mem, d, size, hollow)
    ensures d < NFRAMES && size <= KERN_BASE
  {
  }

  /** A step on process d alone keeps the rest consistent. */
  lemma OneSpace(mem: Mem, own: Owners, mem': Mem, own': Owners, sizes: map<nat, Word>, kernel: nat, loose: set<nat>, holes: set<nat>,
                 d: nat, size: Word, hollow: bool)
    requires Consistent(mem, own, sizes, kernel, loose, holes) && d in sizes && SameRoles(own, own')
    requires KeepsViews(own, mem, mem', d) && SpaceOk(mem', d, size, hollow)
    ensures Consistent(mem', own', sizes[d := size], kernel, loose, if hollow then holes + {d} else holes - {d})
  {
    hide SpaceOk;
    OthersOk(mem, own, mem', sizes, kernel, loose, holes, d);
  }

  lemma GrownOk(mem: Mem, own: Owners, mem': Mem, own': Owners, d: nat, oldsz: Word, newsz: Word, hollow: bool)
    requires d < NFRAMES && oldsz <= newsz <= KERN_BASE && SpaceOk(mem, d, oldsz, hollow) && IsA(own, d, Dir)
    requires AllocState(mem, own, mem', own', d, PagesFor(oldsz), PagesFor(newsz))
    ensures SpaceOk(mem', d, newsz, hollow) && SameRoles(own, own') && KeepsViews(own, mem, mem', d) && LowShrinks(mem, mem')
    ensures own'.Keys == own.Keys
  {
    hide KeepsViews, KeepsContents;
    PagesForMonotone(oldsz, newsz);
    if hollow {
      SomePages(oldsz);
      assert Vpn(0, 0) == 0;
    } else {
      forall i, j | 0 <= i < USER_PDES && 0 <= j < NENTRIES
        ensures if Vpn(i, j) < PagesFor(newsz) then Present(Lookup(mem', d, i, j)) else Lookup(mem', d, i, j) == 0
      {
        if PagesFor(oldsz) <= Vpn(i, j) < PagesFor(newsz) {
          assert FreshPage(own, mem', own', d, i, j);
          MakePteParts(PteFrame(Lookup(mem', d, i, j)), PTE_W + PTE_U);
        }
      }
    }
  }

  lemma UndoneOk(mem: Mem, own: Owners, mem': Mem, own': Owners, d: nat, size: Word, hollow: bool)
    requires d < NFRAMES && SpaceOk(mem, d, size, hollow) && RolledBack(mem, own, mem', own', d)
    ensures SpaceOk(mem', d, size, hollow) && SameRoles(own, own') && KeepsViews(own, mem, mem', d) && LowShrinks(mem, mem')
    ensures own'.Keys == own.Keys
  {
    SpaceViewKept(mem, mem', d, size, hollow);
  }

  /** Shrinking to newsz; shrinking to 0 leaves a hollow space of the old size. */
  lemma ShrunkOk(mem: Mem, own: Owners, mem': Mem, own': Owners, d: nat, oldsz: Word, newsz: Word, hollow: bool)
    requires d < NFRAMES && newsz <= oldsz <= KERN_BASE && SpaceOk(mem, d, oldsz, hollow) && IsA(own, d, Dir)
    requires UnmapState(mem, own, mem', own', d, PagesFor(newsz), PagesFor(oldsz))
    ensures newsz > 0 || oldsz == 0 ==> SpaceOk(mem', d, newsz, hollow)
    ensures newsz == 0 && oldsz > 0 ==> Hollow(mem', d, oldsz) && !Agrees(mem', d, oldsz)
    ensures SameRoles(own, own') && KeepsViews(own, mem, mem', d) && LowShrinks(mem, mem') && own'.Keys == own.Keys
  {
    hide KeepsViews, KeepsContents, PagesFor;
    PagesForMonotone(newsz, oldsz);
    PagesForMeaning(oldsz);
    forall i, j | 0 <= i < NENTRIES && 0 <= j < NENTRIES
      ensures Lookup(mem', d, i, j) == if PagesFor(newsz) <= Vpn(i, j) < PagesFor(oldsz) then 0 else Lookup(mem, d, i, j)
    {
    }
    if newsz == 0 && oldsz > 0 {
      SomePages(oldsz);
      assert Vpn(0, 0) == 0 && Lookup(mem', d, 0, 0) == 0;
      ZeroNotPresent();
      BeyondUnmapped(mem, d, oldsz, hollow);
    }
  }

  lemma BeyondUnmapped(mem: Mem, d: nat, size: Word, hollow: bool)
    requires d < NFRAMES && SpaceOk(mem, d, size, hollow)
    ensures Unmapped(mem, d, PagesFor(size), USER_PAGES)
  {
  }

  lemma SomePages(size: Word)
    requires 0 < size <= KERN_BASE
    ensures 0 == PagesFor(0) < PagesFor(size)
  {
    AlignUpMeaning(size);
  }

  /** What growing needs: nothing is mapped from the current size on. */
  lemma OkCanGrow(mem: Mem, d: nat, size: Word, newsz: Word, hollow: bool)
    requires d < NFRAMES && SpaceOk(mem, d, size, hollow)
    ensures CanGrow(mem, d, size, newsz)
  {
    BeyondUnmapped(mem, d, size, hollow);
    if size <= newsz <= KERN_BASE {
      PagesForMeaning(newsz);
    }
  }

  /** uvm_copy finds every page of a space that agrees with its size, and panics on a hollow one. */
  lemma CopyPanics(mem: Mem, d: nat, size: Word, hollow: bool)
    requires d < NFRAMES && SpaceOk(mem, d, size, hollow)
    ensures MappedBelow(mem, d, PagesFor(size)) <==> !hollow
  {
    PagesForMeaning(size);
    if hollow {
      SomePages(size);
      assert Vpn(0, 0) == 0;
      ZeroNotPresent();
    }
  }

  /** fork: the child's pages are exactly the parent's. */
  lemma ForkConsistent(lay: Layout, mem: Mem, own: Owners, mem': Mem, own': Owners, sizes: map<nat, Word>, kernel: nat,
                       loose: set<nat>, holes: set<nat>, src: nat, d: nat)
    requires lay.Valid() && src in sizes && src !in holes && src < NFRAMES && d < NFRAMES
    requires Consistent(mem, own, sizes, kernel, loose, holes)
    requires CopyState(lay, mem, own, mem', own', src, d, PagesFor(sizes[src]))
    ensures d !in sizes && d != kernel && Consistent(mem', own', sizes[d := sizes[src]], kernel, loose, holes)
  {
    hide KeepsContents, PagesFor, UserByte, Hollow;
    var n := PagesFor(sizes[src]);
    assert IsA(own, d, Free) && SpaceOk(mem, src, sizes[src], false);
    PagesForMeaning(sizes[src]);
    forall i, j | 0 <= i < USER_PDES && 0 <= j < NENTRIES
      ensures if Vpn(i, j) < n then Present(Lookup(mem', d, i, j)) else Lookup(mem', d, i, j) == 0
    {
      if Vpn(i, j) < n {
        assert CopiedPage(mem, own, mem', own', src, d, i, j);
        SameFlags(Lookup(mem', d, i, j), Lookup(mem, src, i, j));
      }
    }
    assert MappedExactly(mem', d, n);
    hide MappedExactly;
    OthersOk(mem, own, mem', sizes, kernel, loose, holes, d);
  }

  /** A fork that fails changes nothing but, at worst, losing one frame. */
  lemma ForkFailed(mem: Mem, own: Owners, mem': Mem, own': Owners, sizes: map<nat, Word>, kernel: nat, loose: set<nat>,
                   holes: set<nat>, leaked: set<nat>)
    requires Consistent(mem, own, sizes, kernel, loose, holes) && KeepsViews(own, mem, mem', NFRAMES)
    requires leaked == {} ==> own' == own
    requires leaked != {} ==> exists f :: leaked == {f} && IsA(own, f, Free) && own' == own[f := Other]
    ensures Consistent(mem', own', sizes, kernel, loose + leaked, holes) && own'.Keys == own.Keys && |loose + leaked| <= |loose| + 1
  {
    hide SpaceOk;
    AllKept(mem, own, mem', sizes, kernel, loose, holes);
    if leaked != {} {
      var f :| leaked == {f} && IsA(own, f, Free) && own' == own[f := Other];
      assert f !in loose;
      assert |loose + {f}| == |loose| + 1;
    } else {
      assert loose + leaked == loose;
    }
  }

  lemma AllKept(mem: Mem, own: Owners, mem': Mem, sizes: map<nat, Word>, kernel: nat, loose: set<nat>, holes: set<nat>)
    requires Consistent(mem, own, sizes, kernel, loose, holes) && KeepsViews(own, mem, mem', NFRAMES)
    ensures forall e :: e in sizes ==> SpaceOk(mem', e, sizes[e], e in holes)
  {
    hide Agrees, Hollow;
    OthersOk(mem, own, mem', sizes, kernel, loose, holes, NFRAMES);
    forall e | e in sizes ensures e != NFRAMES {
      SpaceBound(mem, e, sizes[e], e in holes);
    }
  }

  lemma ExitConsistent(mem: Mem, own: Owners, mem': Mem, sizes: map<nat, Word>, kernel: nat, loose: set<nat>, holes: set<nat>, d: nat)
    requires Consistent(mem, own, sizes, kernel, loose, holes) && d in sizes && KeepsViews(own, mem, mem', d)
    ensures Consistent(mem', Dissolved(own, d, Free), sizes - {d}, kernel, loose, holes - {d})
  {
    hide SpaceOk;
    OthersOk(mem, own, mem', sizes, kernel, loose, holes, d);
    assert IsA(own, d, Dir);
  }

  lemma ExecConsistent(mem: Mem, own: Owners, mem': Mem, own': Owners, sizes: map<nat, Word>, kernel: nat, loose: set<nat>,
                       holes: set<nat>, old_: nat, d: nat, size: Word)
    requires Consistent(mem, own, sizes, kernel, loose, holes) && old_ in sizes && old_ < NFRAMES && d < NFRAMES
    requires Replaced(own, own', old_, d) && KeepsViews(own, mem, mem', old_)
    requires size % PAGE_SZ == 0 && size <= KERN_BASE && MappedExactly(mem', d, size / PAGE_SZ)
    requires IsA(own, d, Free)
    ensures Consistent(mem', own', (sizes - {old_})[d := size], kernel, loose, holes - {old_})
  {
    AlignedPages(size);
    hide MappedExactly, PagesFor, Hollow;
    assert IsA(own, old_, Dir);
    OthersOk(mem, own, mem', sizes, kernel, loose, holes, old_);
    assert d !in sizes;
    forall f: nat ensures IsA(own', f, Other) <==> IsA(own, f, Other) {
      if f in own && f != d {
      }
    }
    hide Agrees;
  }

  /** Marks the MMU leaves in the tables of d change no mapping. */
  lemma TouchConsistent(mem: Mem, own: Owners, mem': Mem, sizes: map<nat, Word>, kernel: nat, loose: set<nat>, holes: set<nat>, d: nat)
    requires Consistent(mem, own, sizes, kernel, loose, holes) && d in sizes && d < NFRAMES
    requires KeepsViews(own, mem, mem', d) && SameAccess(mem, mem', d)
    ensures Consistent(mem', own, sizes, kernel, loose, holes)
  {
    hide SpaceOk;
    OthersOk(mem, own, mem', sizes, kernel, loose, holes, d);
    assert SpaceOk(mem, d, sizes[d], d in holes);
    AccessKeepsSpace(mem, mem', d, sizes[d], d in holes);
  }

  lemma AccessKeepsSpace(mem: Mem, mem': Mem, d: nat, size: Word, hollow: bool)
    requires d < NFRAMES && SpaceOk(mem, d, size, hollow) && SameAccess(mem, mem', d)
    ensures SpaceOk(mem', d, size, hollow)
  {
    hide Lookup, PagesFor, Present, PteFrame, IsUser, IsWritable;
    forall i, j | 0 <= i < NENTRIES && 0 <= j < NENTRIES
      ensures Present(Lookup(mem', d, i, j)) == Present(Lookup(mem, d, i, j)) && (Lookup(mem', d, i, j) == 0 <==> Lookup(mem, d, i, j) == 0)
    {
      assert SameRights(Lookup(mem, d, i, j), Lookup(mem', d, i, j));
    }
  }

  /** A store by a process into its own pages changes no mapping. */
  lemma WriteConsistent(lay: Layout, mem: Mem, own: Owners, mem': Mem, head: Word, free: seq<nat>, sizes: map<nat, Word>, kernel: nat,
                        loose: set<nat>, holes: set<nat>, d: nat)
    requires Consistent(mem, own, sizes, kernel, loose, holes) && d in sizes && d < NFRAMES && IsA(own, d, Dir)
    requires Inv(lay, mem', own, head, free) && OnlyPagesOf(own, d, mem, mem')
    ensures Consistent(mem', own, sizes, kernel, loose, holes)
  {
    hide SpaceOk;
    OthersOfWrite(lay, mem, own, mem', head, free, d);
    WriteKeepsView(lay, mem, own, mem', d);
    OthersOk(mem, own, mem', sizes, kernel, loose, holes, d);
    assert SpaceOk(mem, d, sizes[d], d in holes);
    SpaceViewKept(mem, mem', d, sizes[d], d in holes);
  }

  /** After a write into process d alone. */
  lemma Wrote(lay: Layout, mem: Mem, own: Owners, mem': Mem, head: Word, free: seq<nat>, sizes: map<nat, Word>, kernel: nat,
              loose: set<nat>, holes: set<nat>, d: nat, vaddr: Word, buf: seq<Byte>, done: nat)
    requires Consistent(mem, own, sizes, kernel, loose, holes) && d in sizes && d < NFRAMES && IsA(own, d, Dir)
    requires Inv(lay, mem', own, head, free) && UserWrite(mem, mem', own, d, vaddr, buf, done)
    ensures Consistent(mem', own, sizes, kernel, loose, holes) && LowShrinks(mem, mem')
  {
    hide Inv, Consistent, LowShrinks;
    OnlyWrites(mem, mem', own, d, vaddr, buf, done);
    WriteKeepsLow(lay, mem, own, mem', head, free, d);
    LowEqual(mem, mem');
    WriteConsistent(lay, mem, own, mem', head, free, sizes, kernel, loose, holes, d);
  }

  /** The entry through which the program's store goes. */
  lemma StoreEntry(lay: Layout, mem: Mem, own: Owners, head: Word, free: seq<nat>, d: nat, a: Word)
    requires Inv(lay, mem, own, head, free) && IsA(own, d, Dir) && d < NFRAMES
    ensures mem[d][PageDirectoryIdx(a)] == 0 ==> !Present(Lookup(mem, d, PageDirectoryIdx(a), PageTableIdx(a)))
    ensures var pde := mem[d][PageDirectoryIdx(a)];
            pde != 0 ==>
              && PteFrame(pde) < NFRAMES && Lookup(mem, d, PageDirectoryIdx(a), PageTableIdx(a)) == mem[PteFrame(pde)][PageTableIdx(a)]
              && var w := mem[PteFrame(pde)][PageTableIdx(a)];
                 Present(w) && IsUser(w) ==> UserFrame(mem, d, a) == Some(PteFrame(w)) && PteFrame(w) < NFRAMES && a < KERN_BASE
  {
    GetPteMeaning(lay, mem, own, d, a);
    ZeroNotPresent();
    if UserFrame(mem, d, a).Some? {
      UserFrameOwned(lay, mem, own, d, a);
    }
  }

  // ------------------------------------------------------- frames in hand

  lemma HandTaken(mem: Mem, own: Owners, sizes: map<nat, Word>, kernel: nat, hands: set<nat>, holes: set<nat>, f: nat)
    requires Consistent(mem, own, sizes, kernel, hands, holes) && IsA(own, f, Free)
    ensures Consistent(mem, own[f := Other], sizes, kernel, hands + {f}, holes) && f !in hands
  {
    hide SpaceOk;
  }

  lemma HandReturned(lay: Layout, mem: Mem, own: Owners, head: Word, free: seq<nat>, sizes: map<nat, Word>, kernel: nat, hands: set<nat>,
                     holes: set<nat>, f: nat, link: Word)
    requires Inv(lay, mem, own, head, free) && Consistent(mem, own, sizes, kernel, hands, holes) && f < NFRAMES && IsA(own, f, Other)
    ensures Consistent(SetWord(mem, f, 0, link), own[f := Free], sizes, kernel, hands - {f}, holes)
    ensures LowShrinks(mem, SetWord(mem, f, 0, link)) && lay.end <= f
  {
    hide SpaceOk;
    var mem' := SetWord(mem, f, 0, link);
    OwnedFrame(lay, mem, own, head, free, f);
    TiesStand(lay, mem, own, mem', f);
    AllKept(mem, own, mem', sizes, kernel, hands, holes);
    assert mem'[0] == mem[0];
  }

  lemma LayValid(lay: Layout, mem: Mem, own: Owners, head: Word, free: seq<nat>)
    requires Inv(lay, mem, own, head, free)
    ensures lay.Valid()
  {
  }

  lemma CopyKeys(lay: Layout, mem: Mem, own: Owners, mem': Mem, own': Owners, src: nat, d: nat, n: nat)
    requires src < NFRAMES && d < NFRAMES && CopyState(lay, mem, own, mem', own', src, d, n)
    ensures own'.Keys == own.Keys && LowShrinks(mem, mem')
  {
  }

  lemma ReplacedKeys(own: Owners, own': Owners, old_: nat, d: nat)
    requires Replaced(own, own', old_, d)
    ensures own'.Keys == own.Keys
  {
  }

  lemma ImageTop(mem: Mem, d: nat, sp: Word, top: Word, argv: seq<seq<Byte>>)
    requires d < NFRAMES && StackImage(mem, d, sp, top, argv)
    ensures top <= KERN_BASE
  {
  }
}
