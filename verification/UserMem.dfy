/**
 User memory as bytes: what user code reads through its page directory, and uvm_memcpy.
 */
module UserMem {
  import opened Wrappers
  import opened Mmu
  import opened Bytes
  import opened Frames
  import opened Palloc
  import opened Pgtbl
  import opened Vmem

  function SetWordByte(w: Word, k: nat, b: Byte): Word
    requires k < 4
  {
    FromBytes(if k == 0 then b else WordByte(w, 0), if k == 1 then b else WordByte(w, 1),
              if k == 2 then b else WordByte(w, 2), if k == 3 then b else WordByte(w, 3))
  }

  lemma SetWordByteMeaning(w: Word, k: nat, b: Byte, l: nat)
    requires k < 4 && l < 4
    ensures WordByte(SetWordByte(w, k, b), l) == if l == k then b else WordByte(w, l)
  {
    FromBytesInverse(if k == 0 then b else WordByte(w, 0), if k == 1 then b else WordByte(w, 1),
                     if k == 2 then b else WordByte(w, 2), if k == 3 then b else WordByte(w, 3));
  }

  /** The byte at offset o of a frame. */
  function ByteAt(f: Frame, o: nat): Byte
    requires o < PAGE_SZ
  {
    WordByte(f[o / 4], o % 4)
  }

  function PutByte(f: Frame, o: nat, b: Byte): Frame
    requires o < PAGE_SZ
  {
    f[o / 4 := SetWordByte(f[o / 4], o % 4, b)]
  }

  lemma PutByteMeaning(f: Frame, o: nat, b: Byte, q: nat)
    requires o < PAGE_SZ && q < PAGE_SZ
    ensures ByteAt(PutByte(f, o, b), q) == if q == o then b else ByteAt(f, q)
  {
    hide WordByte, SetWordByte;
    if q / 4 == o / 4 {
      SetWordByteMeaning(f[o / 4], o % 4, b, q % 4);
    }
  }

  /** memmove of n bytes of buf, from p on, into a page at offset off. */
  method CopyIn(f: Frame, off: nat, buf: seq<Byte>, p: nat, n: nat) returns (g: Frame)
    requires off + n <= PAGE_SZ && p + n <= |buf|
    ensures forall o :: 0 <= o < PAGE_SZ ==> ByteAt(g, o) == if off <= o < off + n then buf[p + o - off] else ByteAt(f, o)
  {
    hide ByteAt, PutByte;
    g := f;
    var k := 0;
    while k < n
      invariant 0 <= k <= n
      invariant forall o :: 0 <= o < PAGE_SZ ==> ByteAt(g, o) == if off <= o < off + k then buf[p + o - off] else ByteAt(f, o)
    {
      ghost var before := g;
      g := PutByte(g, off + k, buf[p + k]);
      forall o | 0 <= o < PAGE_SZ
        ensures ByteAt(g, o) == if off <= o < off + k + 1 then buf[p + o - off] else ByteAt(f, o)
      {
        PutByteMeaning(before, off + k, buf[p + k], o);
      }
      k := k + 1;
    }
  }

  // ---------------------------------------------------------------- user view

  /** The byte user code reads at address a of directory d; None where the access faults. */
  ghost function UserByte(mem: Mem, d: nat, a: Word): Option<Byte>
    requires d < NFRAMES
  {
    var w := Lookup(mem, d, PageDirectoryIdx(a), PageTableIdx(a));
    if Present(w) && IsUser(w) && PteFrame(w) < NFRAMES then Some(ByteAt(mem[PteFrame(w)], a % PAGE_SZ)) else None
  }

  /** uva2ka: the frame the kernel writes to for a user address, through get_pte. */
  function Uva2Ka(mem: Mem, d: nat, va: Word): Option<nat>
    requires d < NFRAMES && PteFrame(mem[d][PageDirectoryIdx(va)]) < NFRAMES
  {
    var p := GetPte(mem, d, va);
    var w := mem[p.frame][p.idx];
    if Present(w) && IsUser(w) then Some(PteFrame(w)) else None
  }

  /** What uva2ka should return: the frame that user code reaches at va. */
  ghost function UserFrame(mem: Mem, d: nat, va: Word): Option<nat>
    requires d < NFRAMES
  {
    var w := Lookup(mem, d, PageDirectoryIdx(va), PageTableIdx(va));
    if Present(w) && IsUser(w) then Some(PteFrame(w)) else None
  }

  /** The word of frame 0 that get_pte mistakes for the entry of va is not user-accessible. */
  predicate AliasFree(mem: Mem, d: nat, va: Word)
    requires d < NFRAMES
  {
    mem[d][PageDirectoryIdx(va)] == 0 ==> !(Present(mem[0][PageTableIdx(va)]) && IsUser(mem[0][PageTableIdx(va)]))
  }

  /** uva2ka agrees with the MMU exactly when the table is there or frame 0 offers no such word. */
  lemma Uva2KaExact(lay: Layout, mem: Mem, own: Owners, d: nat, va: Word)
    requires FramesOk(lay, mem, own) && lay.Valid() && IsA(own, d, Dir) && d < NFRAMES
    ensures PteFrame(mem[d][PageDirectoryIdx(va)]) < NFRAMES
    ensures Uva2Ka(mem, d, va) == UserFrame(mem, d, va) <==> AliasFree(mem, d, va)
  {
    hide PageDirectoryIdx, PageTableIdx;
    GetPteMeaning(lay, mem, own, d, va);
    ZeroNotPresent();
    PteFrameZero();
  }

  lemma PteFrameZero()
    ensures PteFrame(0) == 0
  {
  }

  /** A memory in which uva2ka reports a page of an empty directory as user-accessible. */
  lemma AliasExample(lay: Layout, mem: Mem, d: nat)
    requires lay.Valid() && lay.end <= d < NFRAMES && mem[d] == ZeroFrame() && mem[0] == ZeroFrame()[0 := 7]
    ensures Inv(lay, mem, map[d := Dir], 0, [])
    ensures UserFrame(mem, d, 0) == None && Uva2Ka(mem, d, 0) == Some(0)
  {
    forall i | 0 <= i < NENTRIES ensures DirEntryOk(mem, map[d := Dir], d, i) {
    }
    assert FrameOk(lay, mem, map[d := Dir], d);
  }

  // ---------------------------------------------------------------- uvm_memcpy

  /** Only user pages of directory d were written. */
  ghost predicate OnlyPagesOf(own: Owners, d: nat, mem: Mem, mem': Mem) {
    forall f: nat :: f < NFRAMES && !(f in own && own[f].Page? && own[f].dir == d) ==> mem'[f] == mem[f]
  }

  /** User code reaches byte o of frame f at address a. */
  ghost predicate Reaches(mem: Mem, d: nat, a: Word, f: nat, o: nat)
    requires d < NFRAMES
  {
    UserFrame(mem, d, a) == Some(f) && a % PAGE_SZ == o
  }

  /** Every byte of every frame that changed is one that user code reaches in [vaddr, vaddr + n). */
  ghost predicate OnlyRange(mem: Mem, mem': Mem, d: nat, vaddr: Word, n: nat)
    requires d < NFRAMES
  {
    forall f: nat, o: nat :: f < NFRAMES && o < PAGE_SZ && ByteAt(mem'[f], o) != ByteAt(mem[f], o) ==>
      exists a: Word :: vaddr <= a < vaddr + n && Reaches(mem', d, a, f, o)
  }

  /** The first n bytes of buf were written at vaddr of directory d, and no other byte of any frame changed. */
  ghost predicate UserWrite(mem: Mem, mem': Mem, own: Owners, d: nat, vaddr: Word, buf: seq<Byte>, n: nat)
    requires d < NFRAMES
  {
    && n <= |buf|
    && (n > 0 ==> vaddr + n <= KERN_BASE)
    && (forall a: Word :: UserByte(mem', d, a) == if vaddr <= a < vaddr + n then Some(buf[a - vaddr]) else UserByte(mem, d, a))
    && OnlyPagesOf(own, d, mem, mem')
    && OnlyRange(mem, mem', d, vaddr, n)
  }

  lemma KernelNotUser(lay: Layout, v: nat, w: Word)
    requires v < NPAGES && lay.data <= NFRAMES && Marked(w, KernelWord(lay, v))
    ensures !IsUser(w) && !IsUser(KernelWord(lay, v))
  {
    if v >= 0x8_0000 {
      var f := if v < 0xF_E000 then v - 0x8_0000 else v;
      MakePteFlags(f, PTE_W);
      MakePteFlags(f, 0);
    }
    assert !IsUser(0);
    hide KernelWord, IsUser, MakePte;
    MarkedFlags(w, KernelWord(lay, v));
  }

  /** The marks change none of the flags that matter for access. */
  lemma MarkedFlags(w: Word, v: Word)
    requires Marked(w, v)
    ensures Present(w) == Present(v) && IsUser(w) == IsUser(v) && IsWritable(w) == IsWritable(v)
  {
    hide Present, IsUser, IsWritable;
    assert w % 8 == v % 8;
    LowBits(w);
    LowBits(v);
  }

  /** A user-accessible page belongs to its directory and lies in the user half. */
  lemma UserFrameOwned(lay: Layout, mem: Mem, own: Owners, d: nat, va: Word)
    requires FramesOk(lay, mem, own) && lay.Valid() && IsA(own, d, Dir) && d < NFRAMES && UserFrame(mem, d, va).Some?
    ensures va < KERN_BASE
    ensures var f := UserFrame(mem, d, va).value;
            f < NFRAMES && IsA(own, f, Page(d, PageDirectoryIdx(va), PageTableIdx(va)))
  {
    var i, j := PageDirectoryIdx(va), PageTableIdx(va);
    UserIndex(va);
    hide PageDirectoryIdx, PageTableIdx, IsUser, Present, KernelWord;
    GetPteMeaning(lay, mem, own, d, va);
    ZeroNotPresent();
    if i >= USER_PDES {
      var t := GetPte(mem, d, va).frame;
      assert FrameOk(lay, mem, own, t) && TableEntryOk(lay, mem, own, t, j);
      KernelNotUser(lay, Vpn(i, j), mem[t][j]);
    } else {
      UserEntry(lay, mem, own, d, i, j);
    }
  }

  /** Rewriting the page at va changes the bytes user code reads there and nowhere else. */
  lemma PageWrite(lay: Layout, mem: Mem, own: Owners, d: nat, va: Word, g: Frame, a: Word)
    requires FramesOk(lay, mem, own) && lay.Valid() && IsA(own, d, Dir) && d < NFRAMES && UserFrame(mem, d, va).Some?
    requires UserFrame(mem, d, va).value < NFRAMES
    requires SameView(mem, mem[UserFrame(mem, d, va).value := g], d)
    ensures UserByte(mem[UserFrame(mem, d, va).value := g], d, a) ==
            if a / PAGE_SZ == va / PAGE_SZ then Some(ByteAt(g, a % PAGE_SZ)) else UserByte(mem, d, a)
  {
    var i, j := PageDirectoryIdx(va), PageTableIdx(va);
    var k, l := PageDirectoryIdx(a), PageTableIdx(a);
    AddressFields(va);
    AddressFields(a);
    VpnInjective(i, j, k, l);
    hide PageDirectoryIdx, PageTableIdx, ByteAt, IsUser, Present;
    UserFrameOwned(lay, mem, own, d, va);
    var f := UserFrame(mem, d, va).value;
    var mem' := mem[f := g];
    assert Lookup(mem', d, k, l) == Lookup(mem, d, k, l);
    if UserFrame(mem, d, a).Some? {
      UserFrameOwned(lay, mem, own, d, a);
    }
  }

  /** One turn of uvm_memcpy. */
  lemma MemcpyTurn(lay: Layout, mem: Mem, own: Owners, m1: Mem, head: Word, free: seq<nat>, d: nat, vaddr: Word,
                   buf: seq<Byte>, p: nat, va: Word, n: nat, g: Frame)
    requires Inv(lay, m1, own, head, free) && IsA(own, d, Dir) && d < NFRAMES
    requires UserWrite(mem, m1, own, d, vaddr, buf, p) && va == vaddr + p && p + n <= |buf| && va % PAGE_SZ + n <= PAGE_SZ
    requires UserFrame(m1, d, va).Some? && UserFrame(m1, d, va).value < NFRAMES
    requires var f := m1[UserFrame(m1, d, va).value];
             forall o :: 0 <= o < PAGE_SZ ==>
               ByteAt(g, o) == if va % PAGE_SZ <= o < va % PAGE_SZ + n then buf[p + o - va % PAGE_SZ] else ByteAt(f, o)
    ensures Inv(lay, m1[UserFrame(m1, d, va).value := g], own, head, free)
    ensures UserWrite(mem, m1[UserFrame(m1, d, va).value := g], own, d, vaddr, buf, p + n)
  {
    hide ByteAt, PageDirectoryIdx, PageTableIdx, OnlyRange;
    var f := UserFrame(m1, d, va).value;
    UserFrameOwned(lay, m1, own, d, va);
    WriteContents(lay, m1, own, head, free, f, g);
    var m2 := m1[f := g];
    assert SameView(m1, m2, d);
    forall a: Word ensures UserByte(m2, d, a) == if vaddr <= a < vaddr + p + n then Some(buf[a - vaddr]) else UserByte(mem, d, a) {
      PageWrite(lay, m1, own, d, va, g, a);
      assert UserByte(m1, d, a) == if vaddr <= a < vaddr + p then Some(buf[a - vaddr]) else UserByte(mem, d, a);
      SamePage(a, va, n);
      if a / PAGE_SZ == va / PAGE_SZ && !(va <= a < va + n) {
        SameFrameByte(m1, d, a, va);
      }
    }
    PageEnd(va, n);
    RangeTurn(mem, m1, d, vaddr, p, va, n, g);
  }

  /** The turn changes bytes of the one page only, within the range. */
  lemma RangeTurn(mem: Mem, m1: Mem, d: nat, vaddr: Word, p: nat, va: Word, n: nat, g: Frame)
    requires d < NFRAMES && OnlyRange(mem, m1, d, vaddr, p) && va == vaddr + p && va % PAGE_SZ + n <= PAGE_SZ && va + n <= KERN_BASE
    requires UserFrame(m1, d, va).Some? && UserFrame(m1, d, va).value < NFRAMES
    requires forall o :: 0 <= o < PAGE_SZ && !(va % PAGE_SZ <= o < va % PAGE_SZ + n) ==>
               ByteAt(g, o) == ByteAt(m1[UserFrame(m1, d, va).value], o)
    requires SameView(m1, m1[UserFrame(m1, d, va).value := g], d)
    ensures OnlyRange(mem, m1[UserFrame(m1, d, va).value := g], d, vaddr, p + n)
  {
    hide ByteAt, PageDirectoryIdx, PageTableIdx;
    var x := UserFrame(m1, d, va).value;
    var m2 := m1[x := g];
    forall a: Word ensures UserFrame(m2, d, a) == UserFrame(m1, d, a) {
      assert Lookup(m2, d, PageDirectoryIdx(a), PageTableIdx(a)) == Lookup(m1, d, PageDirectoryIdx(a), PageTableIdx(a));
    }
    hide UserFrame;
    forall f: nat, o: nat | f < NFRAMES && o < PAGE_SZ && ByteAt(m2[f], o) != ByteAt(mem[f], o)
      ensures exists a: Word :: vaddr <= a < vaddr + p + n && Reaches(m2, d, a, f, o)
    {
      if ByteAt(m1[f], o) != ByteAt(mem[f], o) {
        var a: Word :| vaddr <= a < vaddr + p && Reaches(m1, d, a, f, o);
        assert Reaches(m2, d, a, f, o);
      } else {
        var a: Word := va - va % PAGE_SZ + o;
        WithinPage(va, o);
        SameFrame(m1, d, a, va);
        assert Reaches(m2, d, a, f, o);
      }
    }
  }

  lemma WithinPage(va: Word, o: nat)
    requires o < PAGE_SZ && va < KERN_BASE
    ensures (va - va % PAGE_SZ + o) % PAGE_SZ == o && (va - va % PAGE_SZ + o) / PAGE_SZ == va / PAGE_SZ
  {
  }

  lemma SameFrame(mem: Mem, d: nat, a: Word, va: Word)
    requires d < NFRAMES && a / PAGE_SZ == va / PAGE_SZ
    ensures UserFrame(mem, d, a) == UserFrame(mem, d, va)
  {
    AddressFields(va);
    AddressFields(a);
    VpnInjective(PageDirectoryIdx(a), PageTableIdx(a), PageDirectoryIdx(va), PageTableIdx(va));
  }

  lemma SamePage(a: Word, va: Word, n: nat)
    requires va % PAGE_SZ + n <= PAGE_SZ
    ensures va <= a < va + n ==> a / PAGE_SZ == va / PAGE_SZ
    ensures a / PAGE_SZ == va / PAGE_SZ ==> a % PAGE_SZ - va % PAGE_SZ == a - va
  {
  }

  lemma SameFrameByte(mem: Mem, d: nat, a: Word, va: Word)
    requires d < NFRAMES && a / PAGE_SZ == va / PAGE_SZ && UserFrame(mem, d, va).Some? && UserFrame(mem, d, va).value < NFRAMES
    ensures UserByte(mem, d, a) == Some(ByteAt(mem[UserFrame(mem, d, va).value], a % PAGE_SZ))
  {
    AddressFields(va);
    AddressFields(a);
    VpnInjective(PageDirectoryIdx(a), PageTableIdx(a), PageDirectoryIdx(va), PageTableIdx(va));
  }

  lemma PageEnd(va: Word, n: nat)
    requires va < KERN_BASE && va % PAGE_SZ + n <= PAGE_SZ
    ensures va + n <= KERN_BASE
  {
  }

  /**
   uvm_memcpy: writes buf at vaddr of directory d, page by page, and gives up at the first
   page that user code could not write. `done` is the number of bytes written.
   */
  method UvmMemcpy(m: Memory, d: nat, vaddr: Word, buf: seq<Byte>) returns (ok: bool, ghost done: nat)
    requires m.Valid() && IsA(m.own, d, Dir) && d < NFRAMES && |buf| < WORDS
    requires forall a: Word :: PageAlignDown(vaddr) <= a < vaddr + |buf| ==> AliasFree(m.frames, d, a)
    modifies m
    ensures m.Valid() && m.own == old(m.own) && m.free == old(m.free)
    ensures UserWrite(old(m.frames), m.frames, m.own, d, vaddr, buf, done)
    ensures ok <==> done == |buf|
    ensures !ok ==> done == 0 || (vaddr + done) % PAGE_SZ == 0
    ensures !ok ==> vaddr + done < WORDS && UserByte(old(m.frames), d, vaddr + done) == None
  {
    hide PageDirectoryIdx, PageTableIdx, FramesOk, FreeListOk, LowFrameOk, UserWrite, UserFrame, Present, IsUser, PteFrame, ByteAt,
         PageAlignDown, AliasFree;
    var va: Word := vaddr;
    var p, size := 0, |buf|;
    done := 0;
    MemcpyInit(m.frames, m.own, d, vaddr, buf);
    while size > 0
      invariant 0 <= p == done <= |buf| && size == |buf| - p
      invariant m.Valid() && m.own == old(m.own) && m.free == old(m.free)
      invariant size > 0 ==> va == vaddr + p && (p == 0 || va % PAGE_SZ == 0)
      invariant UserWrite(old(m.frames), m.frames, m.own, d, vaddr, buf, p)
    {
      var va0: Word := PageAlignDown(va);
      AlignDownPage(va);
      MemcpyAliases(m.lay, old(m.frames), m.frames, m.own, m.freelist, m.free, d, vaddr, buf, p, va0);
      var ka := Uva2Ka(m.frames, d, va0);
      UserFrameOfPage(m.frames, d, va);
      if ka.None? {
        MemcpyStop(old(m.frames), m.frames, m.own, d, vaddr, buf, p, va);
        return false, p;
      }
      MemcpyInUser(m.lay, m.frames, m.own, m.freelist, m.free, d, va);
      var n := PAGE_SZ - (va - va0);
      if n > size {
        n := size;
      }
      var g := CopyIn(m.frames[ka.value], va - va0, buf, p, n);
      MemcpyTurn(m.lay, old(m.frames), m.own, m.frames, m.freelist, m.free, d, vaddr, buf, p, va, n, g);
      m.frames := m.frames[ka.value := g];
      size, p, done := size - n, p + n, done + n;
      va := va0 + PAGE_SZ;
    }
    ok := true;
  }

  lemma MemcpyInit(mem: Mem, own: Owners, d: nat, vaddr: Word, buf: seq<Byte>)
    requires d < NFRAMES
    ensures UserWrite(mem, mem, own, d, vaddr, buf, 0)
  {
  }

  lemma AlignDownPage(va: Word)
    ensures PageAlignDown(va) / PAGE_SZ == va / PAGE_SZ && va - PageAlignDown(va) == va % PAGE_SZ
    ensures PageAlignDown(va) % PAGE_SZ == 0 && PageAlignDown(va) <= va
    ensures forall a: Word :: a <= va ==> PageAlignDown(a) <= PageAlignDown(va)
  {
  }

  lemma UserFrameOfPage(mem: Mem, d: nat, va: Word)
    requires d < NFRAMES
    ensures UserFrame(mem, d, PageAlignDown(va)) == UserFrame(mem, d, va)
  {
    AlignDownPage(va);
    AddressFields(va);
    AddressFields(PageAlignDown(va));
    VpnInjective(PageDirectoryIdx(va), PageTableIdx(va), PageDirectoryIdx(PageAlignDown(va)), PageTableIdx(PageAlignDown(va)));
  }

  /** The copy writes neither frame 0 nor the directory, so uva2ka stays exact. */
  lemma MemcpyAliases(lay: Layout, mem: Mem, m1: Mem, own: Owners, head: Word, free: seq<nat>, d: nat, vaddr: Word,
                      buf: seq<Byte>, p: nat, va: Word)
    requires d < NFRAMES && IsA(own, d, Dir) && Inv(lay, m1, own, head, free)
    requires UserWrite(mem, m1, own, d, vaddr, buf, p) && AliasFree(mem, d, va)
    ensures PteFrame(m1[d][PageDirectoryIdx(va)]) < NFRAMES
    ensures Uva2Ka(m1, d, va) == UserFrame(m1, d, va)
  {
    LowFrameUnowned(lay, m1, own, head, free);
    assert m1[0] == mem[0] && m1[d] == mem[d];
    Uva2KaExact(lay, m1, own, d, va);
  }

  lemma MemcpyStop(mem: Mem, m1: Mem, own: Owners, d: nat, vaddr: Word, buf: seq<Byte>, p: nat, va: Word)
    requires d < NFRAMES && UserWrite(mem, m1, own, d, vaddr, buf, p) && va == vaddr + p && UserFrame(m1, d, va) == None
    ensures UserByte(mem, d, va) == None
  {
    assert UserByte(m1, d, va) == None;
  }

  lemma MemcpyInUser(lay: Layout, mem: Mem, own: Owners, head: Word, free: seq<nat>, d: nat, va: Word)
    requires Inv(lay, mem, own, head, free) && IsA(own, d, Dir) && d < NFRAMES && UserFrame(mem, d, va).Some?
    ensures va < KERN_BASE && UserFrame(mem, d, va).value < NFRAMES
  {
    UserFrameOwned(lay, mem, own, d, va);
  }
}
