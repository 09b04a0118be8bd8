/**
 32-bit two-level paging: constants, address arithmetic and the format of a page
 table entry (section 4.3 of volume 3A of the Intel SDM).

 Addresses and entries are 32-bit words; every sum that the kernel computes in a
 32-bit register goes through `Wrap`. An entry is read as a frame number and twelve
 flag bits, `frame * 4096 + flags`.
 */
module Mmu {

  const PAGE_SZ := 0x1000
  const NENTRIES := 1024
  const KERN_BASE := 0x8000_0000
  const PHYSTOP := 0x2000_0000
  const DEV_SPACE := 0xFE00_0000
  const EXTMEM := 0x10_0000
  const WORDS := 0x1_0000_0000

  /** Frames of physical memory below PHYSTOP. */
  const NFRAMES := 0x2_0000

  /** Directory entries that cover the user half, the addresses below KERN_BASE. */
  const USER_PDES := 512

  /** Virtual pages, and those of the user half. */
  const NPAGES := 0x10_0000
  const USER_PAGES := 0x8_0000

  const PTE_P := 1
  const PTE_W := 2
  const PTE_U := 4
  const PTE_D := 0x20

  /** The bits the MMU itself sets: accessed (bit 5, which the kernel calls PTE_D) and dirty (bit 6). */
  const PTE_ACCESSED := 0x20
  const PTE_DIRTY := 0x40

  type Word = w: int | 0 <= w < 0x1_0000_0000

  function Wrap(x: int): Word {
    x % WORDS
  }

  function PageDirectoryIdx(va: Word): (i: nat)
    ensures i < NENTRIES
  {
    va / 0x40_0000 % 0x400
  }

  function PageTableIdx(va: Word): (i: nat)
    ensures i < NENTRIES
  {
    va / PAGE_SZ % 0x400
  }

  function PageAlignDown(va: Word): Word {
    va - va % PAGE_SZ
  }

  function PageAlignUp(sz: Word): Word {
    PageAlignDown(Wrap(sz + PAGE_SZ - 1))
  }

  /** The address part of an entry, the frame it names, and its flag part. */
  function PteAddr(w: Word): Word {
    w - w % PAGE_SZ
  }

  function PteFrame(w: Word): nat {
    w / PAGE_SZ
  }

  function PteFlags(w: Word): nat {
    w % PAGE_SZ
  }

  predicate Present(w: Word) {
    w % 2 == 1
  }

  predicate IsWritable(w: Word) {
    w / 2 % 2 == 1
  }

  predicate IsUser(w: Word) {
    w / 4 % 2 == 1
  }

  /** `addr | PTE_P | perm` for the page-aligned address of `frame`. */
  function MakePte(frame: nat, perm: nat): Word
    requires frame < NPAGES && perm < PAGE_SZ
  {
    frame * PAGE_SZ + perm + (if perm % 2 == 1 then 0 else PTE_P)
  }

  /** `w & flag` for one of the flags the kernel names. */
  predicate HasFlag(w: Word, flag: nat)
    requires flag in {PTE_P, PTE_W, PTE_U, PTE_D}
  {
    if flag == PTE_P then Present(w)
    else if flag == PTE_W then IsWritable(w)
    else if flag == PTE_U then IsUser(w)
    else w / PTE_D % 2 == 1
  }

  /** `w & ~flag` */
  function ClearFlag(w: Word, flag: nat): Word
    requires flag in {PTE_P, PTE_W, PTE_U, PTE_D}
  {
    if HasFlag(w, flag) then w - flag else w
  }

  function PageAddr(pdx: nat, ptx: nat, offset: nat): Word
    requires pdx < NENTRIES && ptx < NENTRIES && offset < PAGE_SZ
  {
    pdx * 0x40_0000 + ptx * PAGE_SZ + offset
  }

  /** The virtual page that directory entry `pdx` and table entry `ptx` translate. */
  function Vpn(pdx: nat, ptx: nat): nat {
    pdx * NENTRIES + ptx
  }

  /** The kernel address of a frame in the direct map, and back. */
  function FrameToKa(f: nat): Word
    requires f < NFRAMES
  {
    KERN_BASE + f * PAGE_SZ
  }

  function KaToFrame(ka: Word): int {
    (ka - KERN_BASE) / PAGE_SZ
  }

  /** The index and offset fields are exactly the parts of an address. */
  lemma AddressFields(va: Word)
    ensures PageAddr(PageDirectoryIdx(va), PageTableIdx(va), va % PAGE_SZ) == va
    ensures Vpn(PageDirectoryIdx(va), PageTableIdx(va)) == va / PAGE_SZ
  {
    var p := va / PAGE_SZ;
    assert va / 0x40_0000 == p / 0x400;
    assert p == p / 0x400 * 0x400 + p % 0x400;
    assert p / 0x400 < 0x400;
  }

  /** Every pair of indices and offset comes back out of the address built from it. */
  lemma AddressFieldsInverse(pdx: nat, ptx: nat, offset: nat)
    requires pdx < NENTRIES && ptx < NENTRIES && offset < PAGE_SZ
    ensures PageDirectoryIdx(PageAddr(pdx, ptx, offset)) == pdx
    ensures PageTableIdx(PageAddr(pdx, ptx, offset)) == ptx
    ensures PageAddr(pdx, ptx, offset) % PAGE_SZ == offset
  {
  }

  /** Reading back the parts of an entry. */
  lemma MakePteParts(frame: nat, perm: nat)
    requires frame < NPAGES && perm < PAGE_SZ
    ensures var w := MakePte(frame, perm);
            && PteFrame(w) == frame
            && Present(w)
            && w != 0
  {
  }

  lemma MakePteFlags(frame: nat, perm: nat)
    requires frame < NPAGES && perm < PAGE_SZ
    ensures IsWritable(MakePte(frame, perm)) <==> perm / 2 % 2 == 1
    ensures IsUser(MakePte(frame, perm)) <==> perm / 4 % 2 == 1
    ensures PteFlags(MakePte(frame, perm)) == if perm % 2 == 1 then perm else perm + 1
  {
    var w, p := MakePte(frame, perm), if perm % 2 == 1 then perm else perm + 1;
    PartsOf(frame, p);
    LowBits(w);
    LowBits(p);
    LowBits(perm);
    EvenPlusOne(perm);
    hide IsWritable, IsUser, PteFlags, Present, MakePte;
  }

  lemma PartsOf(frame: nat, p: nat)
    requires frame < NPAGES && p < PAGE_SZ
    ensures (frame * PAGE_SZ + p) % 8 == p % 8 && (frame * PAGE_SZ + p) % PAGE_SZ == p
  {
    assert frame * PAGE_SZ + p == 8 * (512 * frame) + p;
  }

  lemma EvenPlusOne(n: nat)
    ensures n % 2 == 0 ==> n % 8 in {0, 2, 4, 6} && (n + 1) % 8 == n % 8 + 1
  {
  }

  /** Clearing PTE_U keeps the frame and the other flags. */
  lemma ClearUserParts(w: Word)
    ensures var c := ClearFlag(w, PTE_U);
            && PteFrame(c) == PteFrame(w)
            && (Present(c) <==> Present(w))
            && (IsWritable(c) <==> IsWritable(w))
            && !IsUser(c)
            && (Present(w) ==> c != 0)
  {
    var c := ClearFlag(w, PTE_U);
    if IsUser(w) {
      LowBits(w);
      LowBits(c);
    }
  }

  /** The three low flags are the low octal digit, which sits inside one page frame entry. */
  lemma LowBits(w: Word)
    ensures Present(w) <==> w % 8 in {1, 3, 5, 7}
    ensures IsWritable(w) <==> w % 8 in {2, 3, 6, 7}
    ensures IsUser(w) <==> w % 8 >= 4
    ensures PteFrame(w) == w / 8 / 512
  {
  }

  lemma AlignUpMeaning(sz: Word)
    requires sz <= WORDS - PAGE_SZ
    ensures PageAlignUp(sz) % PAGE_SZ == 0
    ensures sz <= PageAlignUp(sz) < sz + PAGE_SZ
  {
  }

  lemma FrameKaInverse(f: nat)
    requires f < NFRAMES
    ensures KaToFrame(FrameToKa(f)) == f && FrameToKa(f) % PAGE_SZ == 0 && FrameToKa(f) != 0
  {
  }

  /** The address of virtual page p; the page after the last one is page 0. */
  function PageAt(p: nat): Word
    requires p <= NPAGES
  {
    if p < NPAGES then p * PAGE_SZ else 0
  }

  lemma PageAtFields(p: nat)
    requires p < NPAGES
    ensures PageAt(p) / PAGE_SZ == p && PageAt(p) % PAGE_SZ == 0
    ensures Vpn(PageDirectoryIdx(PageAt(p)), PageTableIdx(PageAt(p))) == p
    ensures PageDirectoryIdx(PageAt(p)) < USER_PDES <==> p < USER_PAGES
  {
    AddressFields(PageAt(p));
  }

  lemma PageAtStep(p: nat)
    requires p < NPAGES
    ensures Wrap(PageAt(p) + PAGE_SZ) == PageAt(p + 1)
  {
  }

  lemma PageAtDistinct(p: nat, q: nat)
    requires p <= q <= NPAGES && q - p < NPAGES
    ensures PageAt(p) == PageAt(q) <==> p == q
  {
  }

  lemma PageAtDown(va: Word)
    ensures PageAlignDown(va) == PageAt(va / PAGE_SZ)
  {
  }
}
