/**
 What the hardware does to the page tables by itself: using an address sets the accessed bit of the entries on its way, and
 a store the dirty bit. The kernel's invariant and everything user code reads are indifferent to it.
 */
module Marks {
  import opened Wrappers
  import opened Mmu
  import opened Bytes
  import opened Frames
  import opened Palloc
  import opened Pgtbl
  import opened Vmem
  import opened UserMem

  /** `w | bit` for one of the MMU's bits. */
  function WithBit(w: Word, bit: nat): (r: Word)
    requires bit == PTE_ACCESSED || bit == PTE_DIRTY
  {
    if w / bit % 2 == 1 || w + bit >= WORDS then w else w + bit
  }

  lemma BitLow(w: Word, bit: nat)
    requires bit == PTE_ACCESSED || bit == PTE_DIRTY
    ensures WithBit(w, bit) % 8 == w % 8 && WithBit(w, bit) / PAGE_SZ == w / PAGE_SZ
  {
    var r := WithBit(w, bit);
    if r != w {
      if bit == PTE_ACCESSED {
        NextBit(w, 0x20, 0x40);
      } else {
        NextBit(w, 0x40, 0x20);
      }
    }
  }

  /** Adding a bit that is clear carries nowhere. */
  lemma NextBit(w: Word, bit: nat, rest: nat)
    requires (bit == 0x20 && rest == 0x40) || (bit == 0x40 && rest == 0x20)
    requires w / bit % 2 == 0
    ensures (w + bit) / PAGE_SZ == w / PAGE_SZ && (w + bit) % 8 == w % 8
  {
    var q := w / bit;
    assert (w + bit) / bit == q + 1;
    assert (q + 1) / 2 == q / 2;
    if bit == 0x20 {
      assert w / PAGE_SZ == q / 2 / 0x40 && (w + bit) / PAGE_SZ == (q + 1) / 2 / 0x40;
    } else {
      assert w / PAGE_SZ == q / 2 / 0x20 && (w + bit) / PAGE_SZ == (q + 1) / 2 / 0x20;
    }
  }

  /** Setting a mark keeps the frame an entry names and its access flags. */
  lemma BitParts(w: Word, bit: nat)
    requires bit == PTE_ACCESSED || bit == PTE_DIRTY
    ensures var r := WithBit(w, bit);
            PteFrame(r) == PteFrame(w) && Present(r) == Present(w) && IsUser(r) == IsUser(w) && IsWritable(r) == IsWritable(w)
  {
    BitLow(w, bit);
    hide WithBit, Present, IsUser, IsWritable;
    LowBits(w);
    LowBits(WithBit(w, bit));
  }

  lemma BitMarks(w: Word, v: Word, bit: nat)
    requires (bit == PTE_ACCESSED || bit == PTE_DIRTY) && Marked(w, v) && v % 0x80 < 0x20 && v <= WORDS - 0x80
    ensures Marked(WithBit(w, bit), v)
  {
    assert v == 0x80 * (v / 0x80) + v % 0x80;
  }

  // ------------------------------------------------------------- one entry

  /** The MMU marks an entry of a table. */
  lemma MarkEntry(lay: Layout, mem: Mem, own: Owners, head: Word, free: seq<nat>, t: nat, j: nat, bit: nat)
    requires Inv(lay, mem, own, head, free) && t in own && own[t].Table? && t < NFRAMES && j < NENTRIES && Present(mem[t][j])
    requires bit == PTE_ACCESSED || bit == PTE_DIRTY
    ensures var mem' := SetWord(mem, t, j, WithBit(mem[t][j], bit));
            && Inv(lay, mem', own, head, free) && t != 0
            && own[t].dir < NFRAMES && own[t].pdx < NENTRIES && KeepsViews(own, mem, mem', own[t].dir)
            && ViewSet(mem, mem', own[t].dir, own[t].pdx, j, WithBit(mem[t][j], bit)) && Lookup(mem, own[t].dir, own[t].pdx, j) == mem[t][j]
  {
    hide WithBit, FreeListOk, LowFrameOk, Present, PteFrame;
    assert FrameOk(lay, mem, own, t) && TableEntryOk(lay, mem, own, t, j);
    ZeroNotPresent();
    BitParts(mem[t][j], bit);
    EntryIsLookup(lay, mem, own, t, j);
    if own[t].pdx >= USER_PDES {
      KernelWordLow(lay, Vpn(own[t].pdx, j));
      BitMarks(mem[t][j], KernelWord(lay, Vpn(own[t].pdx, j)), bit);
    }
    RewriteEntry(lay, mem, own, head, free, t, j, WithBit(mem[t][j], bit));
    SetEntryView(lay, mem, own, t, j, WithBit(mem[t][j], bit));
  }

  lemma KernelWordLow(lay: Layout, v: nat)
    requires v < NPAGES && lay.data <= NFRAMES
    ensures KernelWord(lay, v) % 0x80 < 0x20 && KernelWord(lay, v) <= WORDS - 0x80
  {
  }

  /** The MMU marks an entry of a directory. */
  lemma MarkDir(lay: Layout, mem: Mem, own: Owners, head: Word, free: seq<nat>, d: nat, i: nat)
    requires Inv(lay, mem, own, head, free) && IsA(own, d, Dir) && d < NFRAMES && i < NENTRIES && mem[d][i] != 0
    ensures var mem' := SetWord(mem, d, i, WithBit(mem[d][i], PTE_ACCESSED));
            Inv(lay, mem', own, head, free) && KeepsViews(own, mem, mem', NFRAMES) && d != 0
  {
    hide WithBit, Present, PteFrame;
    ZeroNotPresent();
    var w := mem[d][i];
    var w' := WithBit(w, PTE_ACCESSED);
    var mem' := SetWord(mem, d, i, w');
    assert FrameOk(lay, mem, own, d) && DirEntryOk(mem, own, d, i);
    NamesTableParts(w, PteFrame(w));
    BitParts(w, PTE_ACCESSED);
    TableWordLow(PteFrame(w));
    BitMarks(w, MakePte(PteFrame(w), 7), PTE_ACCESSED);
    assert NamesTable(w', PteFrame(w'));
    MarkedFrames(lay, mem, own, d, i, w');
    ChainTransfer(mem, head, free, mem');
    forall e: nat | IsA(own, e, Dir) ensures e < NFRAMES && SameView(mem, mem', e) {
      assert FrameOk(lay, mem, own, e);
      forall k, l | 0 <= k < NENTRIES && 0 <= l < NENTRIES ensures Lookup(mem', e, k, l) == Lookup(mem, e, k, l) {
        assert DirEntryOk(mem, own, e, k);
        if mem[e][k] != 0 {
          NamesTableParts(mem[e][k], PteFrame(mem[e][k]));
        }
      }
    }
  }

  lemma TableWordLow(f: nat)
    requires f < NPAGES
    ensures MakePte(f, 7) % 0x80 < 0x20 && MakePte(f, 7) <= WORDS - 0x80
  {
  }

  lemma MarkedFrames(lay: Layout, mem: Mem, own: Owners, d: nat, i: nat, w': Word)
    requires FramesOk(lay, mem, own) && IsA(own, d, Dir) && d < NFRAMES && i < NENTRIES && mem[d][i] != 0
    requires NamesTable(w', PteFrame(w')) && PteFrame(w') == PteFrame(mem[d][i])
    ensures FramesOk(lay, SetWord(mem, d, i, w'), own)
  {
    hide PteFrame, Present, MakePte;
    var mem' := SetWord(mem, d, i, w');
    forall g | g in own ensures FrameOk(lay, mem', own, g) {
      assert FrameOk(lay, mem, own, g);
      match own[g] {
        case Dir =>
          forall k | 0 <= k < NENTRIES ensures DirEntryOk(mem', own, g, k) {
            assert DirEntryOk(mem, own, g, k);
          }
        case Table(e, k) =>
          if e == d && k == i {
            NamesTableParts(mem[d][i], g);
          }
          forall l | 0 <= l < NENTRIES ensures TableEntryOk(lay, mem', own, g, l) {
            assert TableEntryOk(lay, mem, own, g, l);
          }
        case Page(e, k, l) =>
        case _ =>
      }
    }
  }

  // ------------------------------------------------------------- one access

  /** Every page of d is mapped to the same frame with the same rights in both memories. */
  ghost predicate SameAccess(mem: Mem, mem': Mem, d: nat)
    requires d < NFRAMES
  {
    forall i, j :: 0 <= i < NENTRIES && 0 <= j < NENTRIES ==> SameRights(Lookup(mem, d, i, j), Lookup(mem', d, i, j))
  }

  predicate SameRights(v: Word, w: Word) {
    && (w == 0 <==> v == 0) && PteFrame(w) == PteFrame(v)
    && Present(w) == Present(v) && IsUser(w) == IsUser(v) && IsWritable(w) == IsWritable(v)
  }

  lemma BitRights(w: Word, bit: nat)
    requires (bit == PTE_ACCESSED || bit == PTE_DIRTY) && Present(w)
    ensures SameRights(w, WithBit(w, bit))
  {
    hide WithBit;
    BitParts(w, bit);
    ZeroNotPresent();
  }

  lemma AccessTrans(m0: Mem, m1: Mem, m2: Mem, d: nat)
    requires d < NFRAMES && SameAccess(m0, m1, d) && SameAccess(m1, m2, d)
    ensures SameAccess(m0, m2, d)
  {
    hide Lookup, Present, IsUser, IsWritable, PteFrame;
    forall i, j | 0 <= i < NENTRIES && 0 <= j < NENTRIES ensures SameRights(Lookup(m0, d, i, j), Lookup(m2, d, i, j)) {
      assert SameRights(Lookup(m0, d, i, j), Lookup(m1, d, i, j)) && SameRights(Lookup(m1, d, i, j), Lookup(m2, d, i, j));
    }
  }

  lemma AccessOfView(mem: Mem, mem': Mem, d: nat)
    requires d < NFRAMES && SameView(mem, mem', d)
    ensures SameAccess(mem, mem', d)
  {
    hide Lookup, Present, IsUser, IsWritable, PteFrame;
    forall i, j | 0 <= i < NENTRIES && 0 <= j < NENTRIES ensures SameRights(Lookup(mem, d, i, j), Lookup(mem', d, i, j)) {
      assert Lookup(mem', d, i, j) == Lookup(mem, d, i, j);
    }
  }

  lemma AccessOfBit(mem: Mem, mem': Mem, d: nat, i: nat, j: nat, bit: nat)
    requires d < NFRAMES && i < NENTRIES && j < NENTRIES && (bit == PTE_ACCESSED || bit == PTE_DIRTY) && Present(Lookup(mem, d, i, j))
    requires ViewSet(mem, mem', d, i, j, WithBit(Lookup(mem, d, i, j), bit))
    ensures SameAccess(mem, mem', d) && Present(Lookup(mem', d, i, j))
  {
    BitRights(Lookup(mem, d, i, j), bit);
    hide Lookup, Present, IsUser, IsWritable, PteFrame, WithBit;
    forall k, l | 0 <= k < NENTRIES && 0 <= l < NENTRIES ensures SameRights(Lookup(mem, d, k, l), Lookup(mem', d, k, l)) {
    }
  }

  /** Only directories and tables were written, and no right changed: user code reads what it read. */
  lemma SameReads(lay: Layout, mem: Mem, own: Owners, head: Word, free: seq<nat>, mem': Mem, e: nat, a: Word)
    requires Inv(lay, mem, own, head, free) && IsA(own, e, Dir) && e < NFRAMES && SameAccess(mem, mem', e)
    requires KeepsContents(own, mem, mem')
    ensures UserByte(mem', e, a) == UserByte(mem, e, a)
  {
    hide PageDirectoryIdx, PageTableIdx;
    var i, j := PageDirectoryIdx(a), PageTableIdx(a);
    assert SameRights(Lookup(mem, e, i, j), Lookup(mem', e, i, j));
    if UserFrame(mem, e, a).Some? {
      UserFrameOwned(lay, mem, own, e, a);
    }
  }

  /** The MMU translates address a of directory d, for a store or a load. */
  method Touch(m: Memory, d: nat, a: Word, store: bool)
    requires m.Valid() && IsA(m.own, d, Dir) && d < NFRAMES
    modifies m
    ensures m.Valid() && m.own == old(m.own) && m.free == old(m.free) && m.frames[0] == old(m.frames)[0]
    ensures KeepsViews(m.own, old(m.frames), m.frames, d) && KeepsContents(m.own, old(m.frames), m.frames)
    ensures SameAccess(old(m.frames), m.frames, d)
  {
    hide PageDirectoryIdx, PageTableIdx, FramesOk, FreeListOk, LowFrameOk, Present, PteFrame, WithBit, SameAccess, KeepsViews, KeepsContents,
         ViewSet, Lookup, SameView;
    var i, j := PageDirectoryIdx(a), PageTableIdx(a);
    ghost var mem := m.frames;
    Untouched(m.own, mem, d);
    GetPteMeaning(m.lay, mem, m.own, d, a);
    var pde := m.frames[d][i];
    if pde == 0 {
      return;
    }
    MarkDir(m.lay, mem, m.own, m.freelist, m.free, d, i);
    m.frames := SetWord(m.frames, d, i, WithBit(pde, PTE_ACCESSED));
    MarkedDir(m.own, mem, m.frames, d, i);
    var t := PteFrame(pde);
    if !Present(m.frames[t][j]) {
      return;
    }
    ghost var m1 := m.frames;
    MarkEntry(m.lay, m1, m.own, m.freelist, m.free, t, j, PTE_ACCESSED);
    m.frames := SetWord(m.frames, t, j, WithBit(m.frames[t][j], PTE_ACCESSED));
    MarkedEntry(m.own, mem, m1, m.frames, d, t, i, j, PTE_ACCESSED);
    if store {
      ghost var m2 := m.frames;
      MarkEntry(m.lay, m2, m.own, m.freelist, m.free, t, j, PTE_DIRTY);
      m.frames := SetWord(m.frames, t, j, WithBit(m.frames[t][j], PTE_DIRTY));
      MarkedEntry(m.own, mem, m2, m.frames, d, t, i, j, PTE_DIRTY);
    }
  }

  lemma Untouched(own: Owners, mem: Mem, d: nat)
    requires d < NFRAMES
    ensures KeepsViews(own, mem, mem, d) && KeepsContents(own, mem, mem) && SameAccess(mem, mem, d)
  {
  }

  lemma MarkedDir(own: Owners, mem: Mem, m1: Mem, d: nat, i: nat)
    requires d < NFRAMES && IsA(own, d, Dir) && KeepsViews(own, mem, m1, NFRAMES)
    requires forall f: nat :: f < NFRAMES && f != d ==> m1[f] == mem[f]
    ensures KeepsViews(own, mem, m1, d) && KeepsContents(own, mem, m1) && SameAccess(mem, m1, d)
  {
    hide SameView;
    AccessOfView(mem, m1, d);
  }

  lemma MarkedEntry(own: Owners, mem: Mem, m1: Mem, m2: Mem, d: nat, t: nat, i: nat, j: nat, bit: nat)
    requires d < NFRAMES && t < NFRAMES && i < NENTRIES && j < NENTRIES && IsA(own, t, Table(d, i))
    requires bit == PTE_ACCESSED || bit == PTE_DIRTY
    requires KeepsViews(own, mem, m1, d) && KeepsContents(own, mem, m1) && SameAccess(mem, m1, d) && Present(m1[t][j])
    requires forall f: nat :: f < NFRAMES && f != t ==> m2[f] == m1[f]
    requires KeepsViews(own, m1, m2, d) && Lookup(m1, d, i, j) == m1[t][j] && ViewSet(m1, m2, d, i, j, WithBit(m1[t][j], bit))
    requires m2[t][j] == WithBit(m1[t][j], bit)
    ensures KeepsViews(own, mem, m2, d) && KeepsContents(own, mem, m2) && SameAccess(mem, m2, d) && Present(m2[t][j])
  {
    hide SameView, SameAccess, Lookup, Present, WithBit;
    KeepsViewsTrans(own, mem, m1, m2, d);
    AccessOfBit(m1, m2, d, i, j, bit);
    AccessTrans(mem, m1, m2, d);
    BitParts(m1[t][j], bit);
  }
}
