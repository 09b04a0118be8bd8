/**
 The first half of exec: a new address space filled from the program's segments.
 */
module Loader {
  import opened Wrappers
  import opened Mmu
  import opened Bytes
  import opened Frames
  import opened Palloc
  import opened Pgtbl
  import opened Vmem
  import opened UserMem
  import FsLayout

  // --------------------------------------------- a directory under construction

  /** Every frame that left the free list since own belongs to directory d now, and nothing else moved. */
  ghost predicate BuiltFrom(own: Owners, own': Owners, d: nat) {
    && IsA(own, d, Free) && IsA(own', d, Dir) && own'.Keys == own.Keys
    && forall f :: f in own ==> own'[f] == own[f] || (own[f].Free? && Holds(own', d, f))
  }

  /** Every directory but d translates as before and its pages hold the same words. */
  ghost predicate KeepsOthers(own: Owners, mem: Mem, mem': Mem, d: nat) {
    && KeepsViews(own, mem, mem', d)
    && forall f :: f in own && own[f].Page? && own[f].dir != d && f < NFRAMES ==> mem'[f] == mem[f]
  }

  /** The others are kept over a step taken after the directory was built from own. */
  lemma OthersTrans(own: Owners, own1: Owners, m0: Mem, m1: Mem, m2: Mem, d: nat)
    requires KeepsOthers(own, m0, m1, d) && BuiltFrom(own, own1, d) && KeepsOthers(own1, m1, m2, d)
    ensures KeepsOthers(own, m0, m2, d)
  {
    assert KeepsViews(own, m1, m2, d);
    KeepsViewsTrans(own, m0, m1, m2, d);
  }

  lemma OthersOfContents(own: Owners, mem: Mem, mem': Mem, d: nat)
    requires KeepsViews(own, mem, mem', d)
    requires KeepsContents(own, mem, mem') || KeepsContents(Dissolved(own, d, Free), mem, mem')
    requires IsA(own, d, Dir) || IsA(own, d, Free)
    ensures KeepsOthers(own, mem, mem', d)
  {
    if KeepsContents(Dissolved(own, d, Free), mem, mem') {
      forall f | f in own && own[f].Page? && own[f].dir != d && f < NFRAMES ensures mem'[f] == mem[f] {
        assert Dissolved(own, d, Free)[f] == own[f];
      }
    }
  }

  /** Writing pages of d keeps every other directory and its pages. */
  lemma OthersOfWrite(lay: Layout, mem: Mem, own: Owners, m1: Mem, head: Word, free: seq<nat>, d: nat)
    requires Inv(lay, m1, own, head, free) && OnlyPagesOf(own, d, mem, m1)
    ensures KeepsOthers(own, mem, m1, d)
  {
    forall e: nat | IsA(own, e, Dir) && e != d && e < NFRAMES ensures SameView(mem, m1, e) {
      assert FrameOk(lay, m1, own, e);
      forall i, j | 0 <= i < NENTRIES && 0 <= j < NENTRIES ensures Lookup(m1, e, i, j) == Lookup(mem, e, i, j) {
        assert DirEntryOk(m1, own, e, i);
      }
    }
  }

  /** Abandoning the directory restores ownership exactly. */
  lemma Abandon(lay: Layout, mem: Mem, own: Owners, head: Word, free: seq<nat>, own': Owners, d: nat)
    requires Inv(lay, mem, own, head, free) && BuiltFrom(own, own', d)
    ensures Dissolved(own', d, Free) == own
  {
    FreeIsNoDir(lay, mem, own, head, free, d);
  }

  /** The user half of d: pages below n are accessible to user code, the others absent. */
  ghost predicate UserSpace(mem: Mem, d: nat, n: nat)
    requires d < NFRAMES
  {
    forall i, j :: 0 <= i < USER_PDES && 0 <= j < NENTRIES ==>
      if Vpn(i, j) < n then Present(Lookup(mem, d, i, j)) && IsUser(Lookup(mem, d, i, j)) else Lookup(mem, d, i, j) == 0
  }

  lemma FreshKernelDir(lay: Layout, mem: Mem, own: Owners, m1: Mem, own1: Owners, d: nat)
    requires d < NFRAMES && KernelState(lay, mem, own, m1, own1, d, 4) && IsA(own1, d, Dir)
    ensures BuiltFrom(own, own1, d) && UserSpace(m1, d, 0) && KeepsOthers(own, mem, m1, d)
  {
    OthersOfContents(own, mem, m1, d);
  }

  lemma GrowSpace(lay: Layout, mem: Mem, own0: Owners, own: Owners, m1: Mem, own1: Owners, d: nat, lo: nat, hi: nat)
    requires d < NFRAMES && BuiltFrom(own0, own, d) && UserSpace(mem, d, lo) && lo <= hi <= USER_PAGES
    requires AllocState(mem, own, m1, own1, d, lo, hi) && IsA(own1, d, Dir)
    ensures BuiltFrom(own0, own1, d) && UserSpace(m1, d, hi)
  {
    hide KeepsViews, KeepsContents;
    forall i, j | 0 <= i < USER_PDES && 0 <= j < NENTRIES
      ensures if Vpn(i, j) < hi then Present(Lookup(m1, d, i, j)) && IsUser(Lookup(m1, d, i, j)) else Lookup(m1, d, i, j) == 0
    {
      if lo <= Vpn(i, j) < hi {
        assert FreshPage(own, m1, own1, d, i, j);
        MakePteParts(PteFrame(Lookup(m1, d, i, j)), PTE_W + PTE_U);
        MakePteFlags(PteFrame(Lookup(m1, d, i, j)), PTE_W + PTE_U);
      }
    }
  }

  lemma SpaceCanGrow(mem: Mem, d: nat, oldsz: Word, newsz: Word)
    requires d < NFRAMES && UserSpace(mem, d, PagesFor(oldsz))
    ensures CanGrow(mem, d, oldsz, newsz)
  {
    if oldsz <= newsz <= KERN_BASE {
      PagesForMeaning(newsz);
    }
  }

  lemma GrowFails(mem: Mem, own0: Owners, own: Owners, m1: Mem, own1: Owners, d: nat)
    requires d < NFRAMES && BuiltFrom(own0, own, d) && RolledBack(mem, own, m1, own1, d) && IsA(own1, d, Dir)
    ensures BuiltFrom(own0, own1, d) && LowShrinks(mem, m1) && KeepsOthers(own, mem, m1, d)
  {
    OthersOfContents(own, mem, m1, d);
  }

  /** Bytes after uvm_allocate: the new pages read as zero, the old bytes as before. */
  lemma AllocBytes(lay: Layout, mem: Mem, own: Owners, m1: Mem, own1: Owners, d: nat, lo: nat, hi: nat, a: Word)
    requires d < NFRAMES && lo <= hi <= USER_PAGES && IsA(own, d, Dir) && lay.Valid() && FramesOk(lay, mem, own)
    requires AllocState(mem, own, m1, own1, d, lo, hi)
    ensures UserByte(m1, d, a) == if lo <= a / PAGE_SZ < hi then Some(0) else UserByte(mem, d, a)
  {
    var i, j := PageDirectoryIdx(a), PageTableIdx(a);
    AddressFields(a);
    hide PageDirectoryIdx, PageTableIdx, KeepsViews, IsUser, Present;
    if lo <= a / PAGE_SZ < hi {
      assert FreshPage(own, m1, own1, d, i, j);
      MakePteParts(PteFrame(Lookup(m1, d, i, j)), PTE_W + PTE_U);
      MakePteFlags(PteFrame(Lookup(m1, d, i, j)), PTE_W + PTE_U);
      ZeroByte(a % PAGE_SZ);
    } else {
      assert Lookup(m1, d, i, j) == Lookup(mem, d, i, j);
      if UserFrame(mem, d, a).Some? {
        UserFrameOwned(lay, mem, own, d, a);
      }
    }
  }

  lemma ZeroByte(o: nat)
    requires o < PAGE_SZ
    ensures ByteAt(ZeroFrame(), o) == 0
  {
  }

  // ------------------------------------------------------------- program segments

  const PT_LOAD := 1

  datatype Segment = Segment(ptype: Word, offset: Word, vaddr: Word, filesz: Word, memsz: Word)

  /** Every byte of [a, b) is accessible to user code. */
  ghost predicate Accessible(mem: Mem, d: nat, a: nat, b: nat)
    requires d < NFRAMES
  {
    forall x: Word :: a <= x < b ==> UserFrame(mem, d, x).Some?
  }

  lemma SpaceAccessible(lay: Layout, mem: Mem, own: Owners, head: Word, free: seq<nat>, d: nat, n: nat, a: nat, b: nat)
    requires Inv(lay, mem, own, head, free) && IsA(own, d, Dir)
    requires d < NFRAMES && UserSpace(mem, d, n) && n <= USER_PAGES && b <= n * PAGE_SZ
    ensures Accessible(mem, d, a, b)
  {
    forall x: Word | a <= x < b ensures UserFrame(mem, d, x).Some? {
      UserIndex(x);
      AddressFields(x);
    }
  }

  lemma WriteKeepsAccess(lay: Layout, mem: Mem, own: Owners, m1: Mem, head: Word, free: seq<nat>, d: nat, vaddr: Word,
                         buf: seq<Byte>, p: nat, a: Word)
    requires Inv(lay, m1, own, head, free) && IsA(own, d, Dir) && d < NFRAMES
    requires UserWrite(mem, m1, own, d, vaddr, buf, p)
    ensures UserFrame(m1, d, a) == UserFrame(mem, d, a)
  {
    WriteKeepsView(lay, mem, own, m1, d);
    assert Lookup(m1, d, PageDirectoryIdx(a), PageTableIdx(a)) == Lookup(mem, d, PageDirectoryIdx(a), PageTableIdx(a));
  }

  /** Writing user pages of d leaves every translation of d as it was. */
  lemma WriteKeepsView(lay: Layout, mem: Mem, own: Owners, m1: Mem, d: nat)
    requires FramesOk(lay, m1, own) && IsA(own, d, Dir) && d < NFRAMES && OnlyPagesOf(own, d, mem, m1)
    ensures SameView(mem, m1, d)
  {
    assert FrameOk(lay, m1, own, d);
    forall i, j | 0 <= i < NENTRIES && 0 <= j < NENTRIES ensures Lookup(m1, d, i, j) == Lookup(mem, d, i, j) {
      assert DirEntryOk(m1, own, d, i);
    }
  }

  /**
   uvm_load: copies size bytes of the file, from offset on, to the mapped pages at the
   page-aligned address addr; fails when the file is too short.
   */
  method UvmLoad(m: Memory, d: nat, addr: Word, file: seq<Byte>, offset: Word, size: Word) returns (ok: bool)
    requires m.Valid() && IsA(m.own, d, Dir) && d < NFRAMES && |file| <= FsLayout.MAXFILE
    requires addr % PAGE_SZ == 0 && addr + size <= KERN_BASE && Accessible(m.frames, d, addr, addr + size)
    modifies m
    ensures m.Valid() && m.own == old(m.own) && m.free == old(m.free)
    ensures size > 0 ==> (ok <==> offset + size <= |file|)
    ensures size == 0 ==> ok && m.frames == old(m.frames)
    ensures ok && size > 0 ==> UserWrite(old(m.frames), m.frames, m.own, d, addr, file[offset..], size)
    ensures OnlyPagesOf(m.own, d, old(m.frames), m.frames)
  {
    hide PageDirectoryIdx, PageTableIdx, FramesOk, FreeListOk, LowFrameOk, UserWrite, UserFrame, ByteAt, Present, IsUser, PteFrame;
    var i := 0;
    ghost var buf := if offset <= |file| then file[offset..] else [];
    MemcpyInit(m.frames, m.own, d, addr, buf);
    while i < size
      invariant 0 <= i && (i <= size || i - size < PAGE_SZ) && i % PAGE_SZ == 0
      invariant m.Valid() && m.own == old(m.own) && m.free == old(m.free) && (i == 0 ==> m.frames == old(m.frames))
      invariant i > 0 ==> offset + (if i <= size then i else size) <= |file|
      invariant UserWrite(old(m.frames), m.frames, m.own, d, addr, buf, if i <= size then i else size)
    {
      var va: Word := addr + i;
      WriteKeepsAccess(m.lay, old(m.frames), m.own, m.frames, m.freelist, m.free, d, addr, buf, i, va);
      LoadPage(m.lay, m.frames, m.own, m.freelist, m.free, d, va);
      var pte := GetPte(m.frames, d, va);
      var pa := PteFrame(m.frames[pte.frame][pte.idx]);
      var n := if PAGE_SZ < size - i then PAGE_SZ else size - i;
      // inode_read(ino, page, offset + i, n)
      if offset + i > |file| {
        OnlyWrites(old(m.frames), m.frames, m.own, d, addr, buf, i);
        return false;
      }
      var avail := if offset + i + n > |file| then |file| - (offset + i) else n;
      var g := CopyIn(m.frames[pa], 0, file, offset + i, avail);
      MemcpyTurn(m.lay, old(m.frames), m.own, m.frames, m.freelist, m.free, d, addr, buf, i, va, avail, g);
      m.frames := m.frames[pa := g];
      if avail != n {
        OnlyWrites(old(m.frames), m.frames, m.own, d, addr, buf, i + avail);
        return false;
      }
      i := i + PAGE_SZ;
    }
    OnlyWrites(old(m.frames), m.frames, m.own, d, addr, buf, size);
    ok := true;
  }

  lemma OnlyWrites(mem: Mem, m1: Mem, own: Owners, d: nat, vaddr: Word, buf: seq<Byte>, n: nat)
    requires d < NFRAMES && UserWrite(mem, m1, own, d, vaddr, buf, n)
    ensures OnlyPagesOf(own, d, mem, m1)
  {
  }

  /** get_pte of an accessible page gives its frame. */
  lemma LoadPage(lay: Layout, mem: Mem, own: Owners, head: Word, free: seq<nat>, d: nat, va: Word)
    requires Inv(lay, mem, own, head, free) && IsA(own, d, Dir) && d < NFRAMES && UserFrame(mem, d, va).Some?
    ensures GetPte(mem, d, va).frame < NFRAMES && GetPte(mem, d, va).idx < NENTRIES
    ensures UserFrame(mem, d, va) == Some(PteFrame(mem[GetPte(mem, d, va).frame][GetPte(mem, d, va).idx]))
    ensures UserFrame(mem, d, va).value < NFRAMES
  {
    GetPteMeaning(lay, mem, own, d, va);
    ZeroNotPresent();
    UserFrameOwned(lay, mem, own, d, va);
  }

  // ------------------------------------------------------------ loading segments

  predicate IsLoad(ph: Segment) {
    ph.ptype == PT_LOAD
  }

  /** PT_LOAD segments ascend, each starting on a page past the pages of those before it. */
  ghost predicate Ascending(phs: seq<Segment>) {
    forall q, r :: 0 <= q < r < |phs| && IsLoad(phs[q]) && IsLoad(phs[r]) && phs[q].vaddr + phs[q].memsz <= KERN_BASE ==>
      PagesFor(phs[q].vaddr + phs[q].memsz) * PAGE_SZ <= phs[r].vaddr
  }

  /** The byte the segment puts at address a. */
  function SegmentByte(file: seq<Byte>, ph: Segment, a: Word): Byte
    requires ph.vaddr <= a && (a < ph.vaddr + ph.filesz ==> ph.offset + ph.filesz <= |file|)
  {
    if a < ph.vaddr + ph.filesz then file[ph.offset + (a - ph.vaddr)] else 0
  }

  /** User code reads the segment's file bytes at p_vaddr, and zeros up to p_memsz. */
  ghost predicate Loaded(mem: Mem, d: nat, file: seq<Byte>, ph: Segment)
    requires d < NFRAMES
  {
    && ph.filesz <= ph.memsz && ph.vaddr + ph.memsz <= KERN_BASE
    && (ph.filesz > 0 ==> ph.offset + ph.filesz <= |file|)
    && forall a: Word :: ph.vaddr <= a < ph.vaddr + ph.memsz ==> UserByte(mem, d, a) == Some(SegmentByte(file, ph, a))
  }

  /** The segments loaded so far, and the address space they fill. */
  ghost predicate LoadedUpTo(mem: Mem, d: nat, file: seq<Byte>, phs: seq<Segment>, i: nat, size: Word)
    requires d < NFRAMES && i <= |phs|
  {
    && size <= KERN_BASE && UserSpace(mem, d, PagesFor(size))
    && (forall q :: 0 <= q < i && IsLoad(phs[q]) ==> phs[q].vaddr + phs[q].memsz <= size)
    && (size == 0 || exists q :: 0 <= q < i && IsLoad(phs[q]) && size == phs[q].vaddr + phs[q].memsz)
    && (Ascending(phs) ==> forall q :: 0 <= q < i && IsLoad(phs[q]) ==> Loaded(mem, d, file, phs[q]))
  }

  /** In ascending order a segment starts past every page in use. */
  lemma SegmentAbove(mem: Mem, d: nat, file: seq<Byte>, phs: seq<Segment>, i: nat, size: Word)
    requires d < NFRAMES && i < |phs| && IsLoad(phs[i]) && LoadedUpTo(mem, d, file, phs, i, size) && Ascending(phs)
    ensures size <= PagesFor(size) * PAGE_SZ <= phs[i].vaddr
  {
    PagesForMeaning(size);
    AlignUpMeaning(size);
    if size != 0 {
      var q :| 0 <= q < i && IsLoad(phs[q]) && size == phs[q].vaddr + phs[q].memsz;
    }
  }

  lemma PageBelow(a: Word, size: Word)
    requires size <= KERN_BASE
    ensures a < size ==> a / PAGE_SZ < PagesFor(size)
    ensures PagesFor(size) * PAGE_SZ <= a ==> PagesFor(size) <= a / PAGE_SZ
  {
    AlignUpMeaning(size);
  }

  /** A segment loaded before keeps its bytes. */
  lemma OlderSegment(lay: Layout, mem: Mem, own: Owners, m1: Mem, own1: Owners, m2: Mem, d: nat, file: seq<Byte>,
                     phs: seq<Segment>, i: nat, q: nat, size: Word, size1: Word)
    requires d < NFRAMES && q < i < |phs| && IsLoad(phs[i]) && IsLoad(phs[q]) && IsA(own, d, Dir) && Ascending(phs)
    requires lay.Valid() && FramesOk(lay, mem, own) && LoadedUpTo(mem, d, file, phs, i, size)
    requires phs[i].vaddr + phs[i].memsz <= KERN_BASE && size1 == phs[i].vaddr + phs[i].memsz
    requires AllocState(mem, own, m1, own1, d, PagesFor(size), PagesFor(size1))
    requires if phs[i].filesz == 0 then m2 == m1
             else phs[i].offset <= |file| && UserWrite(m1, m2, own1, d, phs[i].vaddr, file[phs[i].offset..], phs[i].filesz)
    ensures Loaded(m2, d, file, phs[q])
  {
    hide UserByte, AllocState, FramesOk, PagesFor;
    var ph := phs[q];
    SegmentAbove(mem, d, file, phs, i, size);
    PagesForMeaning(size1);
    PagesForMonotone(size, size1);
    assert Loaded(mem, d, file, ph);
    forall a: Word | ph.vaddr <= a < ph.vaddr + ph.memsz ensures UserByte(m2, d, a) == Some(SegmentByte(file, ph, a)) {
      PageBelow(a, size);
      AllocBytes(lay, mem, own, m1, own1, d, PagesFor(size), PagesFor(size1), a);
      assert UserByte(m2, d, a) == UserByte(m1, d, a);
    }
  }

  /** The segment just loaded reads as its file bytes followed by zeros. */
  lemma NewSegment(lay: Layout, mem: Mem, own: Owners, m1: Mem, own1: Owners, m2: Mem, d: nat, file: seq<Byte>,
                   phs: seq<Segment>, i: nat, size: Word, size1: Word)
    requires d < NFRAMES && i < |phs| && IsLoad(phs[i]) && IsA(own, d, Dir) && Ascending(phs)
    requires lay.Valid() && FramesOk(lay, mem, own) && LoadedUpTo(mem, d, file, phs, i, size)
    requires phs[i].filesz <= phs[i].memsz && phs[i].vaddr + phs[i].memsz <= KERN_BASE && size1 == phs[i].vaddr + phs[i].memsz
    requires AllocState(mem, own, m1, own1, d, PagesFor(size), PagesFor(size1))
    requires phs[i].filesz > 0 ==> phs[i].offset + phs[i].filesz <= |file|
    requires if phs[i].filesz == 0 then m2 == m1
             else UserWrite(m1, m2, own1, d, phs[i].vaddr, file[phs[i].offset..], phs[i].filesz)
    ensures Loaded(m2, d, file, phs[i])
  {
    hide UserByte, AllocState, FramesOk, PagesFor;
    var ph := phs[i];
    SegmentAbove(mem, d, file, phs, i, size);
    PagesForMeaning(size1);
    PagesForMonotone(size, size1);
    forall a: Word | ph.vaddr <= a < ph.vaddr + ph.memsz ensures UserByte(m2, d, a) == Some(SegmentByte(file, ph, a)) {
      PageBelow(a, size);
      PageBelow(a, size1);
      AllocBytes(lay, mem, own, m1, own1, d, PagesFor(size), PagesFor(size1), a);
    }
  }

  /** One more segment: its pages were added, zeroed, and then its file bytes were written. */
  lemma SegmentStep(lay: Layout, mem: Mem, own: Owners, head: Word, free: seq<nat>, m1: Mem, own1: Owners, m2: Mem,
                    d: nat, file: seq<Byte>, phs: seq<Segment>, i: nat, size: Word, size1: Word)
    requires d < NFRAMES && i < |phs| && IsLoad(phs[i]) && IsA(own, d, Dir) && Inv(lay, mem, own, head, free)
    requires LoadedUpTo(mem, d, file, phs, i, size)
    requires phs[i].filesz <= phs[i].memsz && phs[i].vaddr + phs[i].memsz <= KERN_BASE
    requires if size <= phs[i].vaddr + phs[i].memsz then
               size1 == phs[i].vaddr + phs[i].memsz && AllocState(mem, own, m1, own1, d, PagesFor(size), PagesFor(size1))
             else size1 == size && m1 == mem && own1 == own
    requires UserSpace(m2, d, PagesFor(size1))
    requires phs[i].filesz > 0 ==> phs[i].offset + phs[i].filesz <= |file|
    requires if phs[i].filesz == 0 then m2 == m1
             else UserWrite(m1, m2, own1, d, phs[i].vaddr, file[phs[i].offset..], phs[i].filesz)
    ensures LoadedUpTo(m2, d, file, phs, i + 1, size1)
  {
    hide Loaded, UserSpace, AllocState, UserWrite, FramesOk, PagesFor;
    if Ascending(phs) {
      SegmentAbove(mem, d, file, phs, i, size);
      forall q | 0 <= q < i + 1 && IsLoad(phs[q]) ensures Loaded(m2, d, file, phs[q]) {
        if q < i {
          OlderSegment(lay, mem, own, m1, own1, m2, d, file, phs, i, q, size, size1);
        } else {
          NewSegment(lay, mem, own, m1, own1, m2, d, file, phs, i, size, size1);
        }
      }
    }
  }

  lemma WriteKeepsSpace(lay: Layout, m1: Mem, own1: Owners, m2: Mem, head: Word, free: seq<nat>, d: nat, n: nat)
    requires Inv(lay, m2, own1, head, free) && IsA(own1, d, Dir) && d < NFRAMES
    requires OnlyPagesOf(own1, d, m1, m2) && UserSpace(m1, d, n)
    ensures UserSpace(m2, d, n) && m2[0] == m1[0]
  {
    WriteKeepsView(lay, m1, own1, m2, d);
    LowFrameUnowned(lay, m2, own1, head, free);
    forall i, j | 0 <= i < USER_PDES && 0 <= j < NENTRIES ensures Lookup(m2, d, i, j) == Lookup(m1, d, i, j) {
    }
  }

  /** What uvm_allocate did for a segment, in every case in which it does not return 0. */
  lemma SegmentAllocated(lay: Layout, mem: Mem, own0: Owners, own: Owners, m1: Mem, own1: Owners, d: nat, size: Word, newsz: Word, size1: Word)
    requires d < NFRAMES && BuiltFrom(own0, own, d) && IsA(own1, d, Dir) && size <= KERN_BASE && newsz <= KERN_BASE
    requires UserSpace(mem, d, PagesFor(size))
    requires if size <= newsz then size1 == newsz && AllocState(mem, own, m1, own1, d, PagesFor(size), PagesFor(size1))
             else size1 == size && m1 == mem && own1 == own
    ensures BuiltFrom(own0, own1, d) && UserSpace(m1, d, PagesFor(size1)) && m1[0] == mem[0]
    ensures KeepsOthers(own, mem, m1, d)
  {
    if size <= newsz {
      PagesForMonotone(size, newsz);
      PagesForMeaning(newsz);
      GrowSpace(lay, mem, own0, own, m1, own1, d, PagesFor(size), PagesFor(size1));
      OthersOfContents(own, mem, m1, d);
    }
  }

  // ------------------------------------------------------- which programs load

  /** Where the PT_LOAD segments among the first i headers end. */
  function ProgramEnd(phs: seq<Segment>, i: nat): nat
    requires i <= |phs|
  {
    if i == 0 then 0
    else
      var before := ProgramEnd(phs, i - 1);
      var end := phs[i - 1].vaddr + phs[i - 1].memsz;
      if IsLoad(phs[i - 1]) && before < end then end else before
  }

  /** A segment that exec accepts after segments that end at size. */
  predicate SegmentFits(file: seq<Byte>, ph: Segment, size: nat) {
    && ph.filesz <= ph.memsz && ph.vaddr + ph.memsz <= KERN_BASE && ph.vaddr % PAGE_SZ == 0
    && (ph.filesz > 0 ==> ph.offset + ph.filesz <= |file|)
    && (size > 0 || ph.vaddr + ph.memsz > 0)
  }

  /** Every segment of the program is one that exec accepts. */
  predicate Loadable(file: seq<Byte>, phs: seq<Segment>) {
    FitsUpTo(file, phs, |phs|)
  }

  predicate FitsUpTo(file: seq<Byte>, phs: seq<Segment>, n: nat)
    requires n <= |phs|
  {
    forall i :: 0 <= i < n && IsLoad(phs[i]) ==> SegmentFits(file, phs[i], ProgramEnd(phs, i))
  }

  lemma HeaderStep(file: seq<Byte>, phs: seq<Segment>, i: nat)
    requires i < |phs|
    ensures ProgramEnd(phs, i + 1) == if IsLoad(phs[i]) then EndWith(ProgramEnd(phs, i), phs[i]) else ProgramEnd(phs, i)
    ensures FitsUpTo(file, phs, i + 1) <==>
              FitsUpTo(file, phs, i) && (IsLoad(phs[i]) ==> SegmentFits(file, phs[i], ProgramEnd(phs, i)))
    ensures FitsUpTo(file, phs, |phs|) ==> FitsUpTo(file, phs, i + 1)
  {
    hide SegmentFits;
  }

  lemma {:induction false} EndGrows(phs: seq<Segment>, i: nat, j: nat)
    requires i <= j <= |phs|
    ensures ProgramEnd(phs, i) <= ProgramEnd(phs, j)
    decreases j
  {
    if i < j {
      EndGrows(phs, i, j - 1);
    }
  }

  lemma PagesOfSize(size: Word)
    requires size <= KERN_BASE
    ensures PagesFor(size) == PagesTo(size)
  {
    AlignUpMeaning(size);
  }

  /** The space of d has n user pages, and it and its tables have been paid for out of budget frames. */
  ghost predicate Charged(mem: Mem, free: seq<nat>, d: nat, n: nat, budget: nat)
    requires d < NFRAMES
  {
    Tables(mem, d) == KernelSlots() + Spanned(0, n) && |free| + n + TablesFor(n) == budget
  }

  lemma ChargedNone(mem: Mem, free: seq<nat>, d: nat)
    requires d < NFRAMES && Tables(mem, d) == KernelSlots()
    ensures Charged(mem, free, d, 0, |free|)
  {
    assert Spanned(0, 0) == {};
  }

  lemma GrowCharge(mem: Mem, free: seq<nat>, d: nat, n: nat, n1: nat, budget: nat)
    requires d < NFRAMES && n <= n1 <= USER_PAGES && Charged(mem, free, d, n, budget)
    ensures FramesToGrow(mem, d, n, n1) <= |free| <==> n1 + TablesFor(n1) <= budget
  {
    hide Tables, Spanned, KernelSlots, TablesFor;
    SpannedJoin(0, n, n1);
    assert Tables(mem, d) + Spanned(n, n1) == KernelSlots() + Spanned(0, n1);
    UserSlotCount(n);
    UserSlotCount(n1);
  }

  lemma GrownCharge(mem: Mem, free: seq<nat>, m1: Mem, free1: seq<nat>, d: nat, n: nat, n1: nat, budget: nat)
    requires d < NFRAMES && n <= n1 <= USER_PAGES && Charged(mem, free, d, n, budget)
    requires Grown(mem, free, m1, free1, d, n, n1)
    ensures Charged(m1, free1, d, n1, budget)
  {
    hide Tables, Spanned, KernelSlots, TablesFor;
    SpannedJoin(0, n, n1);
    assert Tables(mem, d) + Spanned(n, n1) == KernelSlots() + Spanned(0, n1);
    UserSlotCount(n);
    UserSlotCount(n1);
  }

  /** Writing user pages of d leaves its directory alone. */
  lemma WriteKeepsCharge(own: Owners, mem: Mem, m1: Mem, free: seq<nat>, d: nat, n: nat, budget: nat)
    requires d < NFRAMES && IsA(own, d, Dir) && OnlyPagesOf(own, d, mem, m1) && Charged(mem, free, d, n, budget)
    ensures Charged(m1, free, d, n, budget)
  {
    hide KernelSlots, Spanned, TablesFor;
    assert m1[d] == mem[d];
    assert Tables(m1, d) == Tables(mem, d);
  }

  /** The end of the space once a segment is added. */
  function EndWith(size: nat, ph: Segment): nat {
    if size < ph.vaddr + ph.memsz then ph.vaddr + ph.memsz else size
  }

  function PagesTo(end: nat): nat {
    (end + PAGE_SZ - 1) / PAGE_SZ
  }

  /** The pages up to end, with their tables, are within budget. */
  predicate Affordable(end: nat, budget: nat) {
    PagesTo(end) + TablesFor(PagesTo(end)) <= budget
  }

  lemma AffordableBelow(a: nat, b: nat, budget: nat)
    requires a <= b && Affordable(b, budget)
    ensures Affordable(a, budget)
  {
  }

  /** Whether the frames suffice for a segment, seen before and after uvm_allocate. */
  lemma SegmentCost(mem: Mem, free: seq<nat>, d: nat, size: Word, newsz: Word, budget: nat)
    requires d < NFRAMES && size <= newsz <= KERN_BASE && Charged(mem, free, d, PagesFor(size), budget)
    ensures FramesToGrow(mem, d, PagesFor(size), PagesFor(newsz)) <= |free| <==> Affordable(newsz, budget)
  {
    PagesForMonotone(size, newsz);
    PagesForMeaning(newsz);
    PagesOfSize(newsz);
    hide PagesFor, Charged, FramesToGrow;
    GrowCharge(mem, free, d, PagesFor(size), PagesFor(newsz), budget);
  }

  lemma ChargedAffordable(mem: Mem, free: seq<nat>, d: nat, size: Word, budget: nat)
    requires d < NFRAMES && size <= KERN_BASE && Charged(mem, free, d, PagesFor(size), budget)
    ensures Affordable(size, budget)
  {
    PagesOfSize(size);
  }

  /** One turn of exec's loop, for a PT_LOAD header. */
  method LoadSegment(m: Memory, ghost mem0: Mem, ghost own0: Owners, d: nat, file: seq<Byte>, ghost phs: seq<Segment>, ghost i: nat,
                     ph: Segment, size: Word, ghost budget: nat)
    returns (ok: bool, size1: Word)
    requires m.Valid() && IsA(m.own, d, Dir) && d < NFRAMES && |file| <= FsLayout.MAXFILE && i < |phs| && ph == phs[i] && IsLoad(ph)
    requires BuiltFrom(own0, m.own, d) && KeepsOthers(own0, mem0, m.frames, d)
    requires LoadedUpTo(m.frames, d, file, phs, i, size) && Charged(m.frames, m.free, d, PagesFor(size), budget)
    modifies m
    ensures m.Valid() && IsA(m.own, d, Dir) && BuiltFrom(own0, m.own, d) && KeepsOthers(own0, mem0, m.frames, d)
    ensures LowShrinks(old(m.frames), m.frames)
    ensures ok <==> SegmentFits(file, ph, size) && Affordable(EndWith(size, ph), budget)
    ensures ok ==> size1 == EndWith(size, ph) && LoadedUpTo(m.frames, d, file, phs, i + 1, size1)
    ensures ok ==> m.frames[0] == old(m.frames)[0] && Charged(m.frames, m.free, d, PagesFor(size1), budget)
  {
    hide PagesFor, Inv, BuiltFrom, UserSpace, AllocState, RolledBack, UserWrite, OnlyPagesOf, Accessible, CanGrow, LoadedUpTo,
         KeepsOthers, Charged, Grown, FramesToGrow, Affordable;
    if ph.memsz < ph.filesz || Wrap(ph.vaddr + ph.memsz) < ph.vaddr {
      return false, size;
    }
    ghost var mem, own, head, free := m.frames, m.own, m.freelist, m.free;
    LoadedSpace(mem, d, file, phs, i, size);
    NoWrap(ph.vaddr, ph.memsz);
    var newsz: Word := Wrap(ph.vaddr + ph.memsz);
    SpaceCanGrow(mem, d, size, newsz);
    size1 := UvmAllocate(m, d, size, newsz);
    if size <= newsz <= KERN_BASE {
      SegmentCost(mem, free, d, size, newsz, budget);
    } else {
      ChargedAffordable(mem, free, d, size, budget);
    }
    if size1 == 0 {
      if size <= newsz <= KERN_BASE && newsz != 0 {
        GrowFails(mem, own0, own, m.frames, m.own, d);
        OthersTrans(own0, own, mem0, mem, m.frames, d);
      } else if size <= newsz <= KERN_BASE {
        SegmentAllocated(m.lay, mem, own0, own, m.frames, m.own, d, size, newsz, size1);
        OthersTrans(own0, own, mem0, mem, m.frames, d);
      }
      return false, size;
    }
    SegmentAllocated(m.lay, mem, own0, own, m.frames, m.own, d, size, newsz, size1);
    OthersTrans(own0, own, mem0, mem, m.frames, d);
    if ph.vaddr % PAGE_SZ != 0 {
      return false, size;
    }
    if size <= newsz {
      PagesForMonotone(size, newsz);
      PagesForMeaning(newsz);
      GrownCharge(mem, free, m.frames, m.free, d, PagesFor(size), PagesFor(newsz), budget);
    }
    PagesForMeaning(size1);
    SizeCovered(size1);
    SpaceAccessible(m.lay, m.frames, m.own, m.freelist, m.free, d, PagesFor(size1), ph.vaddr, ph.vaddr + ph.filesz);
    ghost var m1, own1 := m.frames, m.own;
    ok := UvmLoad(m, d, ph.vaddr, file, ph.offset, ph.filesz);
    WriteKeepsSpace(m.lay, m1, own1, m.frames, m.freelist, m.free, d, PagesFor(size1));
    OthersOfWrite(m.lay, m1, own1, m.frames, m.freelist, m.free, d);
    OthersTrans(own0, own1, mem0, m1, m.frames, d);
    WriteKeepsCharge(own1, m1, m.frames, m.free, d, PagesFor(size1), budget);
    if ok {
      SegmentStep(m.lay, mem, own, head, free, m1, own1, m.frames, d, file, phs, i, size, size1);
    }
  }

  /** exec's loop over the program headers: it succeeds exactly if every segment is acceptable and the frames suffice. */
  method LoadSegments(m: Memory, ghost mem0: Mem, ghost own0: Owners, d: nat, file: seq<Byte>, phs: seq<Segment>) returns (ok: bool, size: Word)
    requires m.Valid() && IsA(m.own, d, Dir) && d < NFRAMES && |file| <= FsLayout.MAXFILE
    requires BuiltFrom(own0, m.own, d) && UserSpace(m.frames, d, 0) && KeepsOthers(own0, mem0, m.frames, d)
    requires Charged(m.frames, m.free, d, 0, |m.free|)
    modifies m
    ensures m.Valid() && IsA(m.own, d, Dir) && BuiltFrom(own0, m.own, d) && KeepsOthers(own0, mem0, m.frames, d)
    ensures ok ==> LoadedUpTo(m.frames, d, file, phs, |phs|, size) && m.frames[0] == old(m.frames)[0]
    ensures LowShrinks(old(m.frames), m.frames)
    ensures ok <==> Loadable(file, phs) && Affordable(ProgramEnd(phs, |phs|), |old(m.free)|)
    ensures ok ==> size == ProgramEnd(phs, |phs|) && Charged(m.frames, m.free, d, PagesFor(size), |old(m.free)|)
  {
    hide PagesFor, Inv, BuiltFrom, UserSpace, LoadedUpTo, KeepsOthers, Charged, Affordable, SegmentFits, FitsUpTo;
    size := 0;
    var i := 0;
    LoadedNone(m.frames, d, file, phs);
    NoPages(file, phs);
    hide ProgramEnd;
    while i < |phs|
      invariant 0 <= i <= |phs| && m.Valid() && IsA(m.own, d, Dir) && BuiltFrom(own0, m.own, d)
      invariant KeepsOthers(own0, mem0, m.frames, d)
      invariant LoadedUpTo(m.frames, d, file, phs, i, size) && m.frames[0] == old(m.frames)[0]
      invariant size == ProgramEnd(phs, i) && Charged(m.frames, m.free, d, PagesFor(size), |old(m.free)|)
      invariant FitsUpTo(file, phs, i)
    {
      var ph := phs[i];
      HeaderStep(file, phs, i);
      if IsLoad(ph) {
        var size1;
        ok, size1 := LoadSegment(m, mem0, own0, d, file, phs, i, ph, size, |old(m.free)|);
        if !ok {
          EndGrows(phs, i + 1, |phs|);
          if Affordable(ProgramEnd(phs, |phs|), |old(m.free)|) {
            AffordableBelow(ProgramEnd(phs, i + 1), ProgramEnd(phs, |phs|), |old(m.free)|);
          }
          return false, size;
        }
        size := size1;
      } else {
        SkipSegment(m.frames, d, file, phs, i, size);
      }
      i := i + 1;
    }
    LoadedSpace(m.frames, d, file, phs, |phs|, size);
    ChargedAffordable(m.frames, m.free, d, size, |old(m.free)|);
    ok := true;
  }

  lemma NoPages(file: seq<Byte>, phs: seq<Segment>)
    ensures PagesFor(0) == 0 && ProgramEnd(phs, 0) == 0 && FitsUpTo(file, phs, 0)
  {
  }

  lemma LoadedNone(mem: Mem, d: nat, file: seq<Byte>, phs: seq<Segment>)
    requires d < NFRAMES && UserSpace(mem, d, 0)
    ensures LoadedUpTo(mem, d, file, phs, 0, 0)
  {
    UserRange();
  }

  lemma SkipSegment(mem: Mem, d: nat, file: seq<Byte>, phs: seq<Segment>, i: nat, size: Word)
    requires d < NFRAMES && i < |phs| && LoadedUpTo(mem, d, file, phs, i, size) && !IsLoad(phs[i])
    ensures LoadedUpTo(mem, d, file, phs, i + 1, size)
  {
  }

  lemma LoadedSpace(mem: Mem, d: nat, file: seq<Byte>, phs: seq<Segment>, i: nat, size: Word)
    requires d < NFRAMES && i <= |phs| && LoadedUpTo(mem, d, file, phs, i, size)
    ensures size <= KERN_BASE && UserSpace(mem, d, PagesFor(size))
  {
  }

  lemma NoWrap(a: Word, b: Word)
    requires Wrap(a + b) >= a
    ensures Wrap(a + b) == a + b
  {
  }

  lemma SizeCovered(size: Word)
    requires size <= KERN_BASE
    ensures size <= PagesFor(size) * PAGE_SZ
  {
    AlignUpMeaning(size);
  }
}
