/**
 Page table access: finding, making, clearing and editing entries.

 A page directory is named by its frame. A pointer to an entry is the frame and index
 it points into.
 */
module Pgtbl {
  import opened Mmu
  import opened Frames
  import opened Palloc

  datatype PtePtr = Null | At(frame: nat, idx: nat)

  /** get_pte: never null. Under an absent directory entry it points into frame 0. */
  function GetPte(mem: Mem, d: nat, va: Word): PtePtr
    requires d < NFRAMES
  {
    At(PteFrame(mem[d][PageDirectoryIdx(va)]), PageTableIdx(va))
  }

  // ------------------------------------------------------------ counting tables

  /** The slots of directory d that have a table. */
  ghost function Tables(mem: Mem, d: nat): set<int>
    requires d < NFRAMES
  {
    set i | 0 <= i < NENTRIES && mem[d][i] != 0
  }

  /** The slots that the virtual pages from lo up to hi fall into. */
  ghost function Spanned(lo: nat, hi: nat): set<int> {
    set i | 0 <= i < NENTRIES && InSpan(lo, hi, i)
  }

  predicate InSpan(lo: nat, hi: nat, i: int) {
    lo < hi && lo / NENTRIES <= i <= (hi - 1) / NENTRIES
  }

  /** How many tables have to be made before the pages from lo up to hi can be entered in d. */
  ghost function TablesToMake(mem: Mem, d: nat, lo: nat, hi: nat): int
    requires d < NFRAMES
  {
    |Tables(mem, d) + Spanned(lo, hi)| - |Tables(mem, d)|
  }

  /** What the tables of d cost: each one made has come from the free list. */
  ghost predicate Paid(mem: Mem, free: seq<nat>, mem': Mem, free': seq<nat>, d: nat, slots: set<int>)
    requires d < NFRAMES
  {
    && Tables(mem', d) == Tables(mem, d) + slots
    && |free'| + |Tables(mem', d)| == |free| + |Tables(mem, d)|
  }

  lemma SpannedStep(lo: nat, hi: nat)
    requires lo <= hi < NPAGES
    ensures Spanned(lo, hi + 1) == Spanned(lo, hi) + {hi / NENTRIES}
    ensures Spanned(lo, lo) == {}
  {
  }

  lemma SpannedMonotone(lo: nat, mid: nat, hi: nat)
    requires mid <= hi
    ensures Spanned(lo, mid) <= Spanned(lo, hi)
  {
  }

  lemma Subset(a: set<int>, b: set<int>)
    requires a <= b
    ensures |a| <= |b|
  {
    assert b == a + (b - a);
  }

  // --------------------------------------------------- two-state relations

  /** Ownership changed only by free frames becoming tables of directory d. */
  ghost predicate GrowsTables(own: Owners, own': Owners, d: nat) {
    && own'.Keys == own.Keys
    && forall f :: f in own ==>
         own'[f] == own[f] || (own[f].Free? && own'[f].Table? && own'[f].dir == d)
  }

  /** Where get_pte points for a page of a live directory. */
  lemma GetPteMeaning(lay: Layout, mem: Mem, own: Owners, d: nat, va: Word)
    requires FramesOk(lay, mem, own) && lay.Valid() && IsA(own, d, Dir) && d < NFRAMES
    ensures var i, j := PageDirectoryIdx(va), PageTableIdx(va);
            var p := GetPte(mem, d, va);
            && p.idx == j && p.frame < NFRAMES
            && (if mem[d][i] == 0 then p.frame == 0 && Lookup(mem, d, i, j) == 0
                else IsA(own, p.frame, Table(d, i)) && Lookup(mem, d, i, j) == mem[p.frame][j])
  {
    var i := PageDirectoryIdx(va);
    assert FrameOk(lay, mem, own, d) && DirEntryOk(mem, own, d, i);
    if mem[d][i] != 0 {
      NamesTableParts(mem[d][i], PteFrame(mem[d][i]));
      assert FrameOk(lay, mem, own, PteFrame(mem[d][i]));
    }
  }

  /** A directory entry is 0 or names a table of the directory. */
  lemma PdeMeaning(lay: Layout, mem: Mem, own: Owners, d: nat, va: Word)
    requires FramesOk(lay, mem, own) && lay.Valid() && IsA(own, d, Dir) && d < NFRAMES
    ensures var i := PageDirectoryIdx(va);
            if Present(mem[d][i]) then
              GetPte(mem, d, va).frame < NFRAMES && IsA(own, GetPte(mem, d, va).frame, Table(d, i))
            else mem[d][i] == 0
  {
    GetPteMeaning(lay, mem, own, d, va);
    var i := PageDirectoryIdx(va);
    assert FrameOk(lay, mem, own, d) && DirEntryOk(mem, own, d, i);
    if mem[d][i] != 0 {
      NamesTableParts(mem[d][i], PteFrame(mem[d][i]));
    }
  }

  /** walk's allocating branch: a frame fresh from the free list becomes the table of va. */
  lemma WalkGrows(lay: Layout, mem: Mem, own: Owners, head: Word, free: seq<nat>, d: nat, va: Word, t: nat)
    requires Inv(lay, mem, own[t := Other], head, free) && IsA(own, d, Dir) && d < NFRAMES
    requires mem[d][PageDirectoryIdx(va)] == 0 && IsA(own, t, Free) && t < NFRAMES
    ensures var i := PageDirectoryIdx(va);
            var mem', own' := SetWord(mem[t := ZeroFrame()], d, i, MakePte(t, 7)), own[t := Table(d, i)];
            && Inv(lay, mem', own', head, free)
            && GrowsTables(own, own', d)
            && KeepsViews(own, mem, mem', NFRAMES) && KeepsContents(own, mem, mem')
            && GetPte(mem', d, va) == At(t, PageTableIdx(va)) && IsA(own', t, Table(d, i))
            && mem'[0] == mem[0]
            && Tables(mem', d) == Tables(mem, d) + {i} && i !in Tables(mem, d)
  {
    var i := PageDirectoryIdx(va);
    var own1 := own[t := Other];
    assert FrameOk(lay, mem, own1, d) && FrameOk(lay, mem, own1, t);
    NewTable(lay, mem, own1, head, free, d, i, t);
    assert own1[t := Table(d, i)] == own[t := Table(d, i)];
    MakePteParts(t, 7);
    var mem' := SetWord(mem[t := ZeroFrame()], d, i, MakePte(t, 7));
    assert mem'[d] == mem[d][i := MakePte(t, 7)];
    assert KeepsViews(own, mem, mem', NFRAMES) by {
      assert forall e: nat :: IsA(own, e, Dir) ==> IsA(own1, e, Dir);
    }
  }

  /** walk: the entry of va, making its table if there is none; null when memory is out. */
  method Walk(m: Memory, d: nat, va: Word) returns (p: PtePtr)
    requires m.Valid() && IsA(m.own, d, Dir) && d < NFRAMES
    modifies m
    ensures m.Valid() && GrowsTables(old(m.own), m.own, d)
    ensures p.Null? ==> m.frames == old(m.frames) && m.own == old(m.own) && m.free == old(m.free) == []
    ensures p.Null? ==> PageDirectoryIdx(va) !in Tables(m.frames, d)
    ensures p.At? ==> Paid(old(m.frames), old(m.free), m.frames, m.free, d, {PageDirectoryIdx(va)})
    ensures p.At? ==> p.frame < NFRAMES && p.idx == PageTableIdx(va)
                      && IsA(m.own, p.frame, Table(d, PageDirectoryIdx(va)))
    ensures KeepsViews(old(m.own), old(m.frames), m.frames, NFRAMES)
    ensures KeepsContents(old(m.own), old(m.frames), m.frames)
    ensures m.frames[0] == old(m.frames)[0]
  {
    hide PageDirectoryIdx, PageTableIdx, MakePte, Present, PteFrame, FramesOk, FreeListOk, LowFrameOk, Lookup, KaToFrame;
    var i := PageDirectoryIdx(va);
    PdeMeaning(m.lay, m.frames, m.own, d, va);
    ZeroNotPresent();
    if Present(m.frames[d][i]) {
      assert Tables(m.frames, d) == Tables(m.frames, d) + {i};
      return GetPte(m.frames, d, va);
    }
    var r := m.Alloc();
    if r == 0 {
      return Null;
    }
    var t := KaToFrame(r);
    assert m.own == old(m.own)[t := Other];
    assert |old(m.free)| == |m.free| + 1;
    WalkGrows(m.lay, m.frames, old(m.own), m.freelist, m.free, d, va, t);
    m.frames := m.frames[t := ZeroFrame()];
    m.frames := SetWord(m.frames, d, i, MakePte(t, 7));
    m.own := m.own[t := Table(d, i)];
    assert m.own == old(m.own)[t := Table(d, i)];
    p := GetPte(m.frames, d, va);
  }

  datatype VMap = VMap(virt: Word, pstart: Word, pend: Word, perm: nat)

  /** The pages a mapping spans; its end may wrap to 0 at the top of the address space. */
  function PageCount(k: VMap): nat {
    Wrap(PageAlignDown(Wrap(k.virt + Wrap(k.pend - k.pstart))) - PageAlignDown(k.virt)) / PAGE_SZ
  }

  /** The loop bounds of map_pages, as pages. */
  lemma MapBounds(k: VMap)
    requires k.virt / PAGE_SZ + PageCount(k) <= NPAGES
    ensures PageAlignDown(k.virt) == PageAt(k.virt / PAGE_SZ)
    ensures PageAlignDown(Wrap(k.virt + Wrap(k.pend - k.pstart))) == PageAt(k.virt / PAGE_SZ + PageCount(k))
    ensures PageCount(k) < NPAGES
  {
    var e := Wrap(k.virt + Wrap(k.pend - k.pstart));
    PageAtDown(k.virt);
    PageAtDown(e);
    assert PageCount(k) == Wrap(PageAt(e / PAGE_SZ) - PageAt(k.virt / PAGE_SZ)) / PAGE_SZ;
    PageDistance(k.virt / PAGE_SZ, e / PAGE_SZ);
  }

  lemma PageDistance(p: nat, q: nat)
    requires p < NPAGES && q < NPAGES
    ensures Wrap(PageAt(q) - PageAt(p)) / PAGE_SZ == if p <= q then q - p else q - p + NPAGES
  {
    if p <= q {
      assert PageAt(q) - PageAt(p) == (q - p) * PAGE_SZ;
    } else {
      assert Wrap(PageAt(q) - PageAt(p)) == PageAt(q) - PageAt(p) + WORDS;
    }
  }

  /** The entry that mapping k gives virtual page v. */
  ghost function MappedWord(k: VMap, v: nat): Word
    requires k.virt / PAGE_SZ <= v && k.pstart / PAGE_SZ + (v - k.virt / PAGE_SZ) < NPAGES && k.perm < PAGE_SZ
  {
    MakePte(k.pstart / PAGE_SZ + (v - k.virt / PAGE_SZ), k.perm)
  }

  /** A mapping of one user page onto a frame in hand, or of a stretch of the kernel map. */
  ghost predicate Mappable(lay: Layout, own: Owners, k: VMap) {
    && k.perm < PAGE_SZ && k.pstart % PAGE_SZ == 0
    && k.virt / PAGE_SZ + PageCount(k) <= NPAGES
    && k.pstart / PAGE_SZ + PageCount(k) <= NPAGES
    && if k.virt < KERN_BASE then
         PageCount(k) == 1 && IsA(own, k.pstart / PAGE_SZ, Other)
       else
         forall v :: k.virt / PAGE_SZ <= v < k.virt / PAGE_SZ + PageCount(k) ==>
           MappedWord(k, v) == KernelWord(lay, v)
  }

  /** The view of d once the first n pages of k are entered. */
  ghost predicate ViewMapped(mem: Mem, mem': Mem, d: nat, k: VMap, n: nat)
    requires d < NFRAMES && k.perm < PAGE_SZ && k.pstart / PAGE_SZ + n <= NPAGES
  {
    forall i, j :: 0 <= i < NENTRIES && 0 <= j < NENTRIES ==>
      Lookup(mem', d, i, j) ==
      if k.virt / PAGE_SZ <= Vpn(i, j) < k.virt / PAGE_SZ + n then MappedWord(k, Vpn(i, j)) else Lookup(mem, d, i, j)
  }

  /** One turn of map_pages: the empty entry of va is set to name frame f. */
  method MapPage(m: Memory, d: nat, va: Word, f: nat, perm: nat) returns (ok: bool)
    requires m.Valid() && IsA(m.own, d, Dir) && d < NFRAMES && f < NPAGES && perm < PAGE_SZ
    requires Lookup(m.frames, d, PageDirectoryIdx(va), PageTableIdx(va)) == 0
    requires if PageDirectoryIdx(va) < USER_PDES then IsA(m.own, f, Other)
             else MakePte(f, perm) == KernelWord(m.lay, Vpn(PageDirectoryIdx(va), PageTableIdx(va)))
    modifies m
    ensures m.Valid()
    ensures !ok ==> m.frames == old(m.frames) && m.own == old(m.own) && m.free == old(m.free) == []
    ensures !ok ==> PageDirectoryIdx(va) !in Tables(m.frames, d)
    ensures ok ==> Paid(old(m.frames), old(m.free), m.frames, m.free, d, {PageDirectoryIdx(va)})
    ensures ok ==>
              var i, j := PageDirectoryIdx(va), PageTableIdx(va);
              && ViewSet(old(m.frames), m.frames, d, i, j, MakePte(f, perm))
              && GrowsTables(if i < USER_PDES then old(m.own)[f := Page(d, i, j)] else old(m.own), m.own, d)
    ensures KeepsViews(old(m.own), old(m.frames), m.frames, d)
    ensures KeepsContents(old(m.own), old(m.frames), m.frames)
    ensures m.frames[0] == old(m.frames)[0]
  {
    hide PageDirectoryIdx, PageTableIdx, MakePte, PteFrame, Present, KernelWord, FramesOk, FreeListOk, LowFrameOk, Lookup,
         KeepsViews, KeepsContents, ViewSet, Vpn;
    var i, j := PageDirectoryIdx(va), PageTableIdx(va);
    var pte := Walk(m, d, va);
    if pte.Null? {
      KeepsRefl(m.own, m.frames, d);
      return false;
    }
    // the remap check cannot fire: the entry is still absent
    MapEntry(m.lay, old(m.frames), old(m.own), m.frames, m.own, m.freelist, m.free, d, i, j, pte.frame, f, perm);
    if i < USER_PDES {
      m.own := m.own[f := Page(d, i, j)];
    }
    assert pte.frame != d;
    m.frames := SetWord(m.frames, pte.frame, pte.idx, MakePte(f, perm));
    ok := true;
  }

  lemma KeepsRefl(own: Owners, mem: Mem, d: nat)
    ensures KeepsViews(own, mem, mem, d) && KeepsContents(own, mem, mem)
  {
  }

  /** The effect of entering frame f in the entry that walk found. */
  lemma MapEntry(lay: Layout, m0: Mem, own0: Owners, mem: Mem, own: Owners, head: Word, free: seq<nat>,
                 d: nat, i: nat, j: nat, t: nat, f: nat, perm: nat)
    requires Inv(lay, mem, own, head, free) && GrowsTables(own0, own, d) && IsA(own0, d, Dir)
    requires d < NFRAMES && i < NENTRIES && j < NENTRIES && f < NPAGES && perm < PAGE_SZ
    requires t < NFRAMES && IsA(own, t, Table(d, i)) && Lookup(m0, d, i, j) == 0
    requires KeepsViews(own0, m0, mem, NFRAMES) && KeepsContents(own0, m0, mem) && mem[0] == m0[0]
    requires if i < USER_PDES then IsA(own0, f, Other) else MakePte(f, perm) == KernelWord(lay, Vpn(i, j))
    ensures var w := MakePte(f, perm);
            var mem' := SetWord(mem, t, j, w);
            && !Present(mem[t][j])
            && Inv(lay, mem', if i < USER_PDES then own[f := Page(d, i, j)] else own, head, free)
            && ViewSet(m0, mem', d, i, j, w)
            && KeepsViews(own0, m0, mem', d) && KeepsContents(own0, m0, mem') && mem'[0] == m0[0]
    ensures GrowsTables(if i < USER_PDES then own0[f := Page(d, i, j)] else own0,
                        if i < USER_PDES then own[f := Page(d, i, j)] else own, d)
  {
    var w := MakePte(f, perm);
    var mem' := SetWord(mem, t, j, w);
    assert FrameOk(lay, mem, own, t);
    EntryIsLookup(lay, mem, own, t, j);
    assert SameView(m0, mem, d) && mem[t][j] == 0;
    SetEntryView(lay, mem, own, t, j, w);
    MakePteParts(f, perm);
    if i < USER_PDES {
      MapUserPage(lay, mem, own, head, free, t, j, f, w);
    } else {
      RewriteEntry(lay, mem, own, head, free, t, j, w);
    }
    ViewSetAfter(m0, mem, mem', d, i, j, w);
    assert KeepsViews(own0, mem, mem', d);
    KeepsViewsTrans(own0, m0, mem, mem', d);
  }

  lemma EntryIsLookup(lay: Layout, mem: Mem, own: Owners, t: nat, j: nat)
    requires FramesOk(lay, mem, own) && t in own && own[t].Table? && t < NFRAMES && j < NENTRIES
    ensures own[t].dir < NFRAMES && own[t].pdx < NENTRIES && IsA(own, own[t].dir, Dir)
    ensures Lookup(mem, own[t].dir, own[t].pdx, j) == mem[t][j]
  {
    assert FrameOk(lay, mem, own, t);
    NamesTableParts(mem[own[t].dir][own[t].pdx], t);
  }

  lemma ViewSetAfter(m0: Mem, m1: Mem, m2: Mem, d: nat, i: nat, j: nat, w: Word)
    requires d < NFRAMES && SameView(m0, m1, d) && ViewSet(m1, m2, d, i, j, w)
    ensures ViewSet(m0, m2, d, i, j, w)
  {
    forall k, l | 0 <= k < NENTRIES && 0 <= l < NENTRIES
      ensures Lookup(m2, d, k, l) == if k == i && l == j then w else Lookup(m0, d, k, l)
    {
      assert Lookup(m1, d, k, l) == Lookup(m0, d, k, l);
    }
  }

  /** Each turn of map_pages extends the mapped stretch by one page. */
  lemma ViewMappedStep(m0: Mem, m1: Mem, m2: Mem, d: nat, k: VMap, n: nat, i: nat, j: nat, w: Word)
    requires d < NFRAMES && k.perm < PAGE_SZ && k.pstart / PAGE_SZ + n + 1 <= NPAGES
    requires i < NENTRIES && j < NENTRIES && Vpn(i, j) == k.virt / PAGE_SZ + n && w == MappedWord(k, Vpn(i, j))
    requires ViewMapped(m0, m1, d, k, n) && ViewSet(m1, m2, d, i, j, w)
    ensures ViewMapped(m0, m2, d, k, n + 1)
  {
    forall a, b | 0 <= a < NENTRIES && 0 <= b < NENTRIES
      ensures Lookup(m2, d, a, b) ==
              if k.virt / PAGE_SZ <= Vpn(a, b) < k.virt / PAGE_SZ + n + 1 then MappedWord(k, Vpn(a, b))
              else Lookup(m0, d, a, b)
    {
      VpnInjective(a, b, i, j);
      assert Lookup(m1, d, a, b) ==
             if k.virt / PAGE_SZ <= Vpn(a, b) < k.virt / PAGE_SZ + n then MappedWord(k, Vpn(a, b))
             else Lookup(m0, d, a, b);
    }
  }

  lemma VpnInjective(a: nat, b: nat, i: nat, j: nat)
    requires b < NENTRIES && j < NENTRIES
    ensures Vpn(a, b) == Vpn(i, j) <==> a == i && b == j
  {
  }

  /** Ownership once the first n pages of k are entered: a user page has changed hands. */
  ghost function OwnersMapped(own: Owners, d: nat, k: VMap, n: nat): Owners {
    if k.virt < KERN_BASE && n == 1 then
      own[k.pstart / PAGE_SZ := Page(d, PageDirectoryIdx(k.virt), PageTableIdx(k.virt))]
    else own
  }

  lemma OwnersMappedStep(lay: Layout, own: Owners, own1: Owners, own2: Owners, d: nat, k: VMap, n: nat, va: Word)
    requires Mappable(lay, own, k) && n < PageCount(k)
    requires va == PageAt(k.virt / PAGE_SZ + n)
    requires GrowsTables(OwnersMapped(own, d, k, n), own1, d)
    requires var i, j := PageDirectoryIdx(va), PageTableIdx(va);
             GrowsTables(if i < USER_PDES then own1[k.pstart / PAGE_SZ := Page(d, i, j)] else own1, own2, d)
    ensures GrowsTables(OwnersMapped(own, d, k, n + 1), own2, d)
  {
    PageAtFields(k.virt / PAGE_SZ + n);
    AddressFields(k.virt);
    if k.virt < KERN_BASE {
      var i, j := PageDirectoryIdx(va), PageTableIdx(va);
      VpnInjective(i, j, PageDirectoryIdx(k.virt), PageTableIdx(k.virt));
    }
  }

  /** Every directory of `own` is one of own1, and its pages and loose frames still hold contents. */
  ghost predicate KeepsRoles(own: Owners, own1: Owners) {
    forall f :: f in own ==>
      && f in own1
      && (own[f].Dir? ==> own1[f].Dir?)
      && (own[f].Page? || own[f].Other? ==> own1[f].Page? || own1[f].Other?)
  }

  /** Frames kept over two steps are kept over both. */
  lemma KeepsTrans(own: Owners, own1: Owners, m0: Mem, m1: Mem, m2: Mem, d: nat)
    requires KeepsRoles(own, own1)
    requires KeepsViews(own, m0, m1, d) && KeepsViews(own1, m1, m2, d)
    requires KeepsContents(own, m0, m1) && KeepsContents(own1, m1, m2)
    ensures KeepsViews(own, m0, m2, d) && KeepsContents(own, m0, m2)
  {
    assert KeepsViews(own, m1, m2, d);
    KeepsViewsTrans(own, m0, m1, m2, d);
  }

  /** What MapPage needs for page n of k. */
  lemma MappableAt(lay: Layout, own: Owners, own1: Owners, d: nat, k: VMap, n: nat, va: Word, pa: Word)
    requires Mappable(lay, own, k) && n < PageCount(k)
    requires va == PageAt(k.virt / PAGE_SZ + n) && pa == PageAt(k.pstart / PAGE_SZ + n)
    requires GrowsTables(OwnersMapped(own, d, k, n), own1, d) && IsA(own, d, Dir)
    ensures IsA(own1, d, Dir) && KeepsRoles(own, own1)
    ensures pa / PAGE_SZ == k.pstart / PAGE_SZ + n
    ensures Vpn(PageDirectoryIdx(va), PageTableIdx(va)) == k.virt / PAGE_SZ + n
    ensures MakePte(pa / PAGE_SZ, k.perm) == MappedWord(k, k.virt / PAGE_SZ + n)
    ensures if PageDirectoryIdx(va) < USER_PDES then n == 0 && IsA(own1, pa / PAGE_SZ, Other)
            else MakePte(pa / PAGE_SZ, k.perm) == KernelWord(lay, Vpn(PageDirectoryIdx(va), PageTableIdx(va)))
  {
    PageAtFields(k.virt / PAGE_SZ + n);
    PageAtFields(k.pstart / PAGE_SZ + n);
  }

  /** No page of k is mapped in d yet. */
  ghost predicate RangeEmpty(mem: Mem, d: nat, k: VMap)
    requires d < NFRAMES
  {
    forall i, j | 0 <= i < NENTRIES && 0 <= j < NENTRIES ::
      k.virt / PAGE_SZ <= Vpn(i, j) < k.virt / PAGE_SZ + PageCount(k) ==> Lookup(mem, d, i, j) == 0
  }

  lemma NextEntryEmpty(mem: Mem, mem1: Mem, d: nat, k: VMap, n: nat, i: nat, j: nat)
    requires d < NFRAMES && k.perm < PAGE_SZ && k.pstart / PAGE_SZ + n <= NPAGES && n < PageCount(k)
    requires RangeEmpty(mem, d, k) && ViewMapped(mem, mem1, d, k, n)
    requires i < NENTRIES && j < NENTRIES && Vpn(i, j) == k.virt / PAGE_SZ + n
    ensures Lookup(mem1, d, i, j) == 0
  {
  }

  /** Memory and ownership after map_pages entered n pages of k into d, from mem and own. */
  ghost predicate MapState(mem: Mem, own: Owners, mem': Mem, own': Owners, d: nat, k: VMap, n: nat)
    requires d < NFRAMES && k.perm < PAGE_SZ && k.pstart / PAGE_SZ + n <= NPAGES
  {
    && ViewMapped(mem, mem', d, k, n)
    && GrowsTables(OwnersMapped(own, d, k, n), own', d)
    && KeepsViews(own, mem, mem', d)
    && KeepsContents(own, mem, mem')
    && mem'[0] == mem[0]
    && (k.virt < KERN_BASE && n == 0 ==> mem' == mem && own' == own)
  }

  lemma MapStateInit(lay: Layout, mem: Mem, own: Owners, d: nat, k: VMap)
    requires d < NFRAMES && Mappable(lay, own, k)
    ensures MapState(mem, own, mem, own, d, k, 0)
    ensures k.virt / PAGE_SZ + PageCount(k) <= NPAGES && k.pstart / PAGE_SZ + PageCount(k) <= NPAGES
    ensures PageAlignDown(k.virt) == PageAt(k.virt / PAGE_SZ)
    ensures PageAlignDown(Wrap(k.virt + Wrap(k.pend - k.pstart))) == PageAt(k.virt / PAGE_SZ + PageCount(k))
    ensures k.pstart == PageAt(k.pstart / PAGE_SZ)
    ensures k.perm < PAGE_SZ && PageCount(k) < NPAGES
  {
    MapBounds(k);
    PageAtDown(k.pstart);
  }

  lemma MapStateStep(lay: Layout, mem: Mem, own: Owners, m1: Mem, own1: Owners, m2: Mem, own2: Owners,
                     d: nat, k: VMap, n: nat, va: Word, pa: Word)
    requires Mappable(lay, own, k) && n < PageCount(k) && IsA(own, d, Dir) && d < NFRAMES
    requires va == PageAt(k.virt / PAGE_SZ + n) && pa == PageAt(k.pstart / PAGE_SZ + n)
    requires MapState(mem, own, m1, own1, d, k, n)
    requires pa / PAGE_SZ < NPAGES
    requires var i, j := PageDirectoryIdx(va), PageTableIdx(va);
             && ViewSet(m1, m2, d, i, j, MakePte(pa / PAGE_SZ, k.perm))
             && GrowsTables(if i < USER_PDES then own1[pa / PAGE_SZ := Page(d, i, j)] else own1, own2, d)
    requires KeepsViews(own1, m1, m2, d) && KeepsContents(own1, m1, m2) && m2[0] == m1[0]
    ensures MapState(mem, own, m2, own2, d, k, n + 1)
  {
    MappableAt(lay, own, own1, d, k, n, va, pa);
    var i, j := PageDirectoryIdx(va), PageTableIdx(va);
    ViewMappedStep(mem, m1, m2, d, k, n, i, j, MappedWord(k, Vpn(i, j)));
    OwnersMappedStep(lay, own, own1, own2, d, k, n, va);
    KeepsTrans(own, own1, mem, m1, m2, d);
  }

  lemma MapStateNext(lay: Layout, mem: Mem, own: Owners, m1: Mem, own1: Owners, d: nat, k: VMap, n: nat, va: Word, pa: Word)
    requires Mappable(lay, own, k) && n < PageCount(k) && IsA(own, d, Dir) && d < NFRAMES
    requires va == PageAt(k.virt / PAGE_SZ + n) && pa == PageAt(k.pstart / PAGE_SZ + n)
    requires MapState(mem, own, m1, own1, d, k, n) && RangeEmpty(mem, d, k)
    ensures IsA(own1, d, Dir) && pa / PAGE_SZ < NPAGES
    ensures var i, j := PageDirectoryIdx(va), PageTableIdx(va);
            && Lookup(m1, d, i, j) == 0
            && if i < USER_PDES then n == 0 && IsA(own1, pa / PAGE_SZ, Other)
               else MakePte(pa / PAGE_SZ, k.perm) == KernelWord(lay, Vpn(i, j))
  {
    MappableAt(lay, own, own1, d, k, n, va, pa);
    NextEntryEmpty(mem, m1, d, k, n, PageDirectoryIdx(va), PageTableIdx(va));
  }

  /**
   map_pages: enters every page of k, in order, and stops at the first table that cannot
   be allocated. `done` is the number of pages entered. It panics on an entry that is
   already present.
   */
  method MapPages(m: Memory, d: nat, k: VMap) returns (ok: bool, ghost done: nat)
    requires m.Valid() && IsA(m.own, d, Dir) && d < NFRAMES && Mappable(m.lay, m.own, k)
    requires RangeEmpty(m.frames, d, k)
    modifies m
    ensures m.Valid()
    ensures done <= PageCount(k) && (ok <==> done == PageCount(k))
    ensures !ok ==> m.free == []
    ensures ok <==> TablesToMake(old(m.frames), d, k.virt / PAGE_SZ, k.virt / PAGE_SZ + PageCount(k)) <= |old(m.free)|
    ensures Paid(old(m.frames), old(m.free), m.frames, m.free, d, Spanned(k.virt / PAGE_SZ, k.virt / PAGE_SZ + done))
    ensures MapState(old(m.frames), old(m.own), m.frames, m.own, d, k, done)
  {
    hide PageAt, Wrap, PageAlignDown, PageDirectoryIdx, PageTableIdx, MakePte, PageCount, Inv, Mappable, MapState, ViewSet,
         KeepsViews, KeepsContents, GrowsTables, Lookup, RangeEmpty, Tables, Spanned;
    MapStateInit(m.lay, m.frames, m.own, d, k);
    var size := Wrap(k.pend - k.pstart);
    var vstart: Word := PageAlignDown(k.virt);
    var vend: Word := PageAlignDown(Wrap(k.virt + size));
    var pstart: Word := k.pstart;
    ghost var n, v, p := PageCount(k), k.virt / PAGE_SZ, k.pstart / PAGE_SZ;
    done := 0;
    NothingPaid(m.frames, m.free, d, v);
    while vstart != vend
      invariant done <= n && vstart == PageAt(v + done) && pstart == PageAt(p + done)
      invariant Paid(old(m.frames), old(m.free), m.frames, m.free, d, Spanned(v, v + done))
      invariant m.Valid()
      invariant MapState(old(m.frames), old(m.own), m.frames, m.own, d, k, done)
      decreases n - done
    {
      ghost var mem, own, free := m.frames, m.own, m.free;
      PageAtDistinct(v + done, v + n);
      PageAtSlot(v + done);
      MapStateNext(m.lay, old(m.frames), old(m.own), mem, own, d, k, done, vstart, pstart);
      ok := MapPage(m, d, vstart, pstart / PAGE_SZ, k.perm);
      if !ok {
        PaidShort(old(m.frames), old(m.free), m.frames, m.free, d, v, v + done, v + n);
        return;
      }
      PaidStep(old(m.frames), old(m.free), mem, free, m.frames, m.free, d, v, v + done);
      MapStateStep(m.lay, old(m.frames), old(m.own), mem, own, m.frames, m.own, d, k, done, vstart, pstart);
      PageAtStep(v + done);
      PageAtStep(p + done);
      done := done + 1;
      vstart, pstart := Wrap(vstart + PAGE_SZ), Wrap(pstart + PAGE_SZ);
    }
    PageAtDistinct(v + done, v + n);
    PaidAll(old(m.frames), old(m.free), m.frames, m.free, d, v, v + n);
    ok := true;
  }

  lemma NothingPaid(mem: Mem, free: seq<nat>, d: nat, v: nat)
    requires d < NFRAMES
    ensures Paid(mem, free, mem, free, d, Spanned(v, v))
  {
    assert Tables(mem, d) == Tables(mem, d) + Spanned(v, v);
  }

  lemma PaidStep(m0: Mem, free0: seq<nat>, m1: Mem, free1: seq<nat>, m2: Mem, free2: seq<nat>, d: nat, lo: nat, v: nat)
    requires d < NFRAMES && lo <= v < NPAGES
    requires Paid(m0, free0, m1, free1, d, Spanned(lo, v)) && Paid(m1, free1, m2, free2, d, {v / NENTRIES})
    ensures Paid(m0, free0, m2, free2, d, Spanned(lo, v + 1))
  {
    hide Tables, Spanned;
    SpannedStep(lo, v);
  }

  /** With no frame left and one more table to make, the whole range cannot be paid for. */
  lemma PaidShort(m0: Mem, free0: seq<nat>, m1: Mem, free1: seq<nat>, d: nat, lo: nat, v: nat, hi: nat)
    requires d < NFRAMES && lo <= v < hi <= NPAGES && v / NENTRIES !in Tables(m1, d) && free1 == []
    requires Paid(m0, free0, m1, free1, d, Spanned(lo, v))
    ensures TablesToMake(m0, d, lo, hi) > |free0|
  {
    hide Tables, Spanned;
    SpannedStep(lo, v);
    SpannedMonotone(lo, v + 1, hi);
    Subset(Tables(m1, d) + {v / NENTRIES}, Tables(m0, d) + Spanned(lo, hi));
  }

  lemma PaidAll(m0: Mem, free0: seq<nat>, m1: Mem, free1: seq<nat>, d: nat, lo: nat, hi: nat)
    requires d < NFRAMES && Paid(m0, free0, m1, free1, d, Spanned(lo, hi))
    ensures TablesToMake(m0, d, lo, hi) <= |free0|
  {
  }

  lemma PageAtSlot(p: nat)
    requires p < NPAGES
    ensures PageDirectoryIdx(PageAt(p)) == p / NENTRIES
  {
    PageAtFields(p);
  }

  // ---------------------------------------------------------------- unmapping

  /** `own` with the user pages of d in [lo, hi) back on the free list. */
  ghost function Released(own: Owners, d: nat, lo: nat, hi: nat): Owners {
    map f | f in own :: if InRange(own[f], d, lo, hi) then Free else own[f]
  }

  ghost predicate InRange(o: Owner, d: nat, lo: nat, hi: nat) {
    o.Page? && o.dir == d && lo <= Vpn(o.pdx, o.ptx) < hi
  }

  ghost predicate ViewCleared(mem: Mem, mem': Mem, d: nat, lo: nat, hi: nat)
    requires d < NFRAMES
  {
    forall i, j :: 0 <= i < NENTRIES && 0 <= j < NENTRIES ==>
      Lookup(mem', d, i, j) == if lo <= Vpn(i, j) < hi then 0 else Lookup(mem, d, i, j)
  }

  /** Memory and ownership after the pages of d in [lo, hi) were unmapped and freed. */
  ghost predicate UnmapState(mem: Mem, own: Owners, mem': Mem, own': Owners, d: nat, lo: nat, hi: nat)
    requires d < NFRAMES
  {
    && ViewCleared(mem, mem', d, lo, hi)
    && own' == Released(own, d, lo, hi)
    && KeepsViews(own, mem, mem', d)
    && KeepsContents(own', mem, mem')
    && LowShrinks(mem, mem')
  }

  lemma UnmapStateInit(mem: Mem, own: Owners, d: nat, lo: nat)
    requires d < NFRAMES
    ensures UnmapState(mem, own, mem, own, d, lo, lo)
  {
    assert Released(own, d, lo, lo) == own;
  }

  lemma ClearedStep(mem: Mem, m1: Mem, m2: Mem, d: nat, lo: nat, i: nat, j: nat)
    requires d < NFRAMES && i < NENTRIES && j < NENTRIES && lo <= Vpn(i, j)
    requires ViewCleared(mem, m1, d, lo, Vpn(i, j)) && ViewSet(m1, m2, d, i, j, 0)
    ensures ViewCleared(mem, m2, d, lo, Vpn(i, j) + 1)
  {
    hide Lookup;
    var v := Vpn(i, j);
    forall a, b | 0 <= a < NENTRIES && 0 <= b < NENTRIES
      ensures Lookup(m2, d, a, b) == if lo <= Vpn(a, b) < v + 1 then 0 else Lookup(mem, d, a, b)
    {
      VpnInjective(a, b, i, j);
      assert Lookup(m1, d, a, b) == if lo <= Vpn(a, b) < v then 0 else Lookup(mem, d, a, b);
    }
  }

  lemma ReleasedStep(own: Owners, own1: Owners, own2: Owners, d: nat, lo: nat, i: nat, j: nat)
    requires i < NENTRIES && j < NENTRIES && lo <= Vpn(i, j)
    requires own1 == Released(own, d, lo, Vpn(i, j)) && own2.Keys == own1.Keys
    requires forall f :: f in own1 ==> own2[f] == if own1[f] == Page(d, i, j) then Free else own1[f]
    requires forall f :: f in own1 && own1[f].Page? && own1[f].dir == d ==> own1[f].ptx < NENTRIES
    ensures own2 == Released(own, d, lo, Vpn(i, j) + 1)
  {
    var v := Vpn(i, j);
    forall f | f in own ensures own2[f] == Released(own, d, lo, v + 1)[f] {
      assert own1[f] == Released(own, d, lo, v)[f];
      if own1[f].Page? && own1[f].dir == d {
        VpnInjective(own1[f].pdx, own1[f].ptx, i, j);
      }
      if InRange(own[f], d, lo, v + 1) && !InRange(own[f], d, lo, v) {
        assert own1[f] == own[f];
      }
    }
  }

  /** One page further: memory changed only below directory d, ownership only at that page. */
  lemma UnmapStateStep(mem: Mem, own: Owners, m1: Mem, own1: Owners, m2: Mem, own2: Owners, d: nat, lo: nat, i: nat, j: nat)
    requires d < NFRAMES && i < NENTRIES && j < NENTRIES && lo <= Vpn(i, j)
    requires UnmapState(mem, own, m1, own1, d, lo, Vpn(i, j))
    requires ViewSet(m1, m2, d, i, j, 0) && KeepsViews(own1, m1, m2, d) && KeepsContents(own2, m1, m2) && LowShrinks(m1, m2)
    requires own2.Keys == own1.Keys
    requires forall f :: f in own1 ==> own2[f] == if own1[f] == Page(d, i, j) then Free else own1[f]
    requires forall f :: f in own1 && own1[f].Page? && own1[f].dir == d ==> own1[f].ptx < NENTRIES
    ensures UnmapState(mem, own, m2, own2, d, lo, Vpn(i, j) + 1)
  {
    hide Lookup, SameView, ViewCleared, ViewSet, Vpn;
    ClearedStep(mem, m1, m2, d, lo, i, j);
    ReleasedStep(own, own1, own2, d, lo, i, j);
    assert KeepsViews(own, m1, m2, d);
    KeepsViewsTrans(own, mem, m1, m2, d);
    assert KeepsContents(own2, mem, m1);
  }

  /** Whether unmap_pages frees the frame an entry names. */
  predicate Freeable(lay: Layout, w: Word) {
    Present(w) && !(PteAddr(w) >= PHYSTOP || KERN_BASE + PteAddr(w) < KERN_BASE + lay.end * PAGE_SZ)
  }

  lemma FreeableMeaning(lay: Layout, w: Word)
    ensures Freeable(lay, w) <==> Present(w) && lay.end <= PteFrame(w) < NFRAMES
    ensures PteFrame(w) < NFRAMES ==> KERN_BASE + PteAddr(w) == FrameToKa(PteFrame(w))
  {
  }

  /** One turn of unmap_pages, in each of its cases. */
  lemma UnmapEntry(lay: Layout, mem: Mem, own: Owners, head: Word, free: seq<nat>, d: nat, va: Word)
    requires Inv(lay, mem, own, head, free) && IsA(own, d, Dir) && d < NFRAMES && va < KERN_BASE
    ensures var p := GetPte(mem, d, va);
            && p.frame < NFRAMES
            && var w := mem[p.frame][p.idx];
            && var f := PteFrame(w);
            && var mem1 := if Freeable(lay, w) then SetWord(mem, f, 0, head) else mem;
            && var own1 := if Freeable(lay, w) then own[f := Free] else own;
            && var mem' := SetWord(mem1, p.frame, p.idx, 0);
            && Inv(lay, mem', own1, if Freeable(lay, w) then FrameToKa(f) else head,
                   if Freeable(lay, w) then [f] + free else free)
            && ViewSet(mem, mem', d, PageDirectoryIdx(va), PageTableIdx(va), 0)
            && KeepsViews(own, mem, mem', d) && KeepsContents(own1, mem, mem') && LowShrinks(mem, mem')
            && (forall g :: g in own ==>
                  own1[g] == if own[g] == Page(d, PageDirectoryIdx(va), PageTableIdx(va)) then Free else own[g])
            && own1.Keys == own.Keys && mem'[d] == mem[d]
  {
    var i, j := PageDirectoryIdx(va), PageTableIdx(va);
    AddressFields(va);
    var p := GetPte(mem, d, va);
    GetPteMeaning(lay, mem, own, d, va);
    var w := mem[p.frame][p.idx];
    FreeableMeaning(lay, w);
    PageOfEntry(lay, mem, own, d, i, j);
    if mem[d][i] == 0 {
      ClearLowWord(lay, mem, own, head, free, j);
      assert FrameOk(lay, mem, own, d);
    } else {
      assert FrameOk(lay, mem, own, p.frame) && TableEntryOk(lay, mem, own, p.frame, j);
      if w == 0 {
        assert mem[p.frame][j := 0] == mem[p.frame];
        assert SetWord(mem, p.frame, j, 0) == mem;
      } else {
        UnmapPage(lay, mem, own, head, free, p.frame, j);
        assert FrameOk(lay, mem, own, PteFrame(w));
        UnmapViews(lay, mem, own, head, d, i, j, p.frame);
      }
    }
  }

  /** A page of d belongs to (i, j) exactly when the entry names it. */
  lemma PageOfEntry(lay: Layout, mem: Mem, own: Owners, d: nat, i: nat, j: nat)
    requires FramesOk(lay, mem, own) && d < NFRAMES && i < NENTRIES && j < NENTRIES && IsA(own, d, Dir)
    ensures forall g :: g in own && own[g] == Page(d, i, j) ==> Lookup(mem, d, i, j) != 0 && PteFrame(Lookup(mem, d, i, j)) == g
  {
    forall g | g in own && own[g] == Page(d, i, j) ensures Lookup(mem, d, i, j) != 0 && PteFrame(Lookup(mem, d, i, j)) == g {
      assert FrameOk(lay, mem, own, g);
      assert FrameOk(lay, mem, own, PteFrame(mem[d][i]));
      NamesTableParts(mem[d][i], PteFrame(mem[d][i]));
    }
  }

  lemma UnmapViews(lay: Layout, mem: Mem, own: Owners, head: Word, d: nat, i: nat, j: nat, t: nat)
    requires FramesOk(lay, mem, own) && d < NFRAMES && i < NENTRIES && j < NENTRIES
    requires t < NFRAMES && IsA(own, t, Table(d, i)) && mem[t][j] != 0
    requires PteFrame(mem[t][j]) < NFRAMES && IsA(own, PteFrame(mem[t][j]), Page(d, i, j))
    ensures var f := PteFrame(mem[t][j]);
            var mem' := SetWord(SetWord(mem, f, 0, head), t, j, 0);
            && ViewSet(mem, mem', d, i, j, 0) && KeepsViews(own, mem, mem', d)
            && KeepsContents(own[f := Free], mem, mem')
  {
    var f := PteFrame(mem[t][j]);
    var mem1 := SetWord(mem, t, j, 0);
    SetEntryView(lay, mem, own, t, j, 0);
    var mem' := SetWord(SetWord(mem, f, 0, head), t, j, 0);
    assert mem' == SetWord(mem1, f, 0, head);
    assert FrameOk(lay, mem, own, t) && FrameOk(lay, mem, own, d);
    forall a, b | 0 <= a < NENTRIES && 0 <= b < NENTRIES ensures Lookup(mem', d, a, b) == Lookup(mem1, d, a, b) {
      assert DirEntryOk(mem, own, d, a);
    }
    ViewSetThen(mem, mem1, mem', d, i, j, 0);
    forall e: nat | IsA(own, e, Dir) && e != d && e < NFRAMES ensures SameView(mem, mem', e) {
      ViewTransfer(lay, mem, own, mem', e);
    }
  }

  lemma ViewSetThen(m0: Mem, m1: Mem, m2: Mem, d: nat, i: nat, j: nat, w: Word)
    requires d < NFRAMES && ViewSet(m0, m1, d, i, j, w) && SameView(m1, m2, d)
    ensures ViewSet(m0, m2, d, i, j, w)
  {
    forall k, l | 0 <= k < NENTRIES && 0 <= l < NENTRIES
      ensures Lookup(m2, d, k, l) == if k == i && l == j then w else Lookup(m0, d, k, l)
    {
      assert Lookup(m2, d, k, l) == Lookup(m1, d, k, l);
    }
  }

  /** The pieces of the invariant that the loop of unmap_pages carries from turn to turn. */
  lemma UnmapTurn(lay: Layout, mem: Mem, own: Owners, m1: Mem, own1: Owners, head: Word, free: seq<nat>,
                  m2: Mem, own2: Owners, d: nat, lo: nat, p: nat)
    requires Inv(lay, m1, own1, head, free) && IsA(own1, d, Dir) && d < NFRAMES && lo <= p < USER_PAGES
    requires UnmapState(mem, own, m1, own1, d, lo, p)
    requires var i, j := PageDirectoryIdx(PageAt(p)), PageTableIdx(PageAt(p));
             && ViewSet(m1, m2, d, i, j, 0) && KeepsViews(own1, m1, m2, d) && KeepsContents(own2, m1, m2) && LowShrinks(m1, m2)
             && own2.Keys == own1.Keys
             && forall f :: f in own1 ==> own2[f] == if own1[f] == Page(d, i, j) then Free else own1[f]
    ensures UnmapState(mem, own, m2, own2, d, lo, p + 1) && IsA(own2, d, Dir)
  {
    PageAtFields(p);
    forall f | f in own1 && own1[f].Page? && own1[f].dir == d ensures own1[f].ptx < NENTRIES {
      assert FrameOk(lay, m1, own1, f);
    }
    UnmapStateStep(mem, own, m1, own1, m2, own2, d, lo, PageDirectoryIdx(PageAt(p)), PageTableIdx(PageAt(p)));
  }

  /**
   unmap_pages with its free flag set: clears the entries of n pages of the user half and
   returns their frames. Pages that are not mapped are passed over; under an absent table
   the entry cleared is a word of frame 0.
   */
  method UnmapPages(m: Memory, d: nat, vstart: Word, n: nat)
    requires m.Valid() && IsA(m.own, d, Dir) && d < NFRAMES
    requires vstart % PAGE_SZ == 0 && vstart + n * PAGE_SZ <= KERN_BASE
    modifies m
    ensures m.Valid()
    ensures UnmapState(old(m.frames), old(m.own), m.frames, m.own, d, vstart / PAGE_SZ, vstart / PAGE_SZ + n)
    ensures m.frames[d] == old(m.frames)[d]
  {
    hide PageDirectoryIdx, PageTableIdx, PteFrame, PteAddr, Freeable, Inv, UnmapState, ViewSet, KeepsViews, KeepsContents, KaToFrame,
         LowShrinks;
    var vend: Word := vstart + n * PAGE_SZ;
    var a: Word := vstart;
    ghost var lo, k := vstart / PAGE_SZ, 0;
    UnmapStateInit(m.frames, m.own, d, lo);
    while a < vend
      invariant 0 <= k <= n && a == PageAt(lo + k)
      invariant m.Valid() && IsA(m.own, d, Dir)
      invariant UnmapState(old(m.frames), old(m.own), m.frames, m.own, d, lo, lo + k)
      invariant m.frames[d] == old(m.frames)[d]
      decreases n - k
    {
      ghost var mem, own, head, free := m.frames, m.own, m.freelist, m.free;
      UnmapEntry(m.lay, mem, own, head, free, d, a);
      var pte := GetPte(m.frames, d, a);
      var w := m.frames[pte.frame][pte.idx];
      if Freeable(m.lay, w) {
        FreeableMeaning(m.lay, w);
        FrameKaInverse(PteFrame(w));
        m.Free(KERN_BASE + PteAddr(w));
      }
      m.frames := SetWord(m.frames, pte.frame, pte.idx, 0);
      UnmapTurn(m.lay, old(m.frames), old(m.own), mem, own, head, free, m.frames, m.own, d, lo, lo + k);
      a, k := a + PAGE_SZ, k + 1;
    }
  }

  /** clear_pte_flag with PTE_U: the page stays mapped and stops being accessible to user code. */
  method ClearUser(m: Memory, d: nat, va: Word)
    requires m.Valid() && IsA(m.own, d, Dir) && d < NFRAMES && va < KERN_BASE
    requires Present(Lookup(m.frames, d, PageDirectoryIdx(va), PageTableIdx(va)))
    modifies m
    ensures m.Valid() && m.own == old(m.own) && m.free == old(m.free)
    ensures var i, j := PageDirectoryIdx(va), PageTableIdx(va);
            ViewSet(old(m.frames), m.frames, d, i, j, ClearFlag(Lookup(old(m.frames), d, i, j), PTE_U))
    ensures m.frames[d] == old(m.frames)[d]
    ensures KeepsViews(old(m.own), old(m.frames), m.frames, d)
    ensures KeepsContents(old(m.own), old(m.frames), m.frames)
    ensures m.frames[0] == old(m.frames)[0]
  {
    hide PageDirectoryIdx, PageTableIdx, PteFrame, Present, ClearFlag, FreeListOk, LowFrameOk;
    ghost var i, j := PageDirectoryIdx(va), PageTableIdx(va);
    GetPteMeaning(m.lay, m.frames, m.own, d, va);
    UserIndex(va);
    var pte := GetPte(m.frames, d, va);
    var w := m.frames[pte.frame][pte.idx];
    ZeroNotPresent();
    ClearUserParts(w);
    RewriteEntry(m.lay, m.frames, m.own, m.freelist, m.free, pte.frame, pte.idx, ClearFlag(w, PTE_U));
    SetEntryView(m.lay, m.frames, m.own, pte.frame, pte.idx, ClearFlag(w, PTE_U));
    assert FrameOk(m.lay, m.frames, m.own, pte.frame);
    m.frames := SetWord(m.frames, pte.frame, pte.idx, ClearFlag(w, PTE_U));
  }

  lemma UserIndex(va: Word)
    ensures va < KERN_BASE <==> PageDirectoryIdx(va) < USER_PDES
  {
  }

  lemma ZeroNotPresent()
    ensures !Present(0)
  {
  }
}
