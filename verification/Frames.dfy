/**
 Physical memory as frames of 1024 words, and who owns each frame.

 Page directories, page tables and the links of the free list all live inside the
 frames. The kernel keeps no record of ownership; the ghost map `own` is that record.
 It sends every frame ever handed to the allocator to the one place that holds it, so
 `Inv(..)` says that no frame is in two places and none is lost.
 */
module Frames {
  import opened Mmu

  type Frame = f: seq<Word> | |f| == 1024 witness seq(1024, _ => 0)
  type Mem = m: seq<Frame> | |m| == 0x2_0000 witness seq<Frame>(0x2_0000, _ => ZeroFrame())

  function ZeroFrame(): (f: Frame)
    ensures forall i :: 0 <= i < NENTRIES ==> f[i] == 0
  {
    seq(1024, _ => 0)
  }

  /** Where the linker put the kernel's `data` and `end`, both page aligned, as frames. */
  datatype Layout = Layout(data: nat, end: nat) {
    ghost predicate Valid() {
      EXTMEM / PAGE_SZ < data <= end <= NFRAMES
    }
  }

  /** The place that holds a frame. `Other` is a frame in the hands of the running code. */
  datatype Owner =
    | Free
    | Dir
    | Table(dir: nat, pdx: nat)
    | Page(dir: nat, pdx: nat, ptx: nat)
    | Other

  type Owners = map<nat, Owner>

  ghost predicate IsA(own: Owners, f: nat, o: Owner) {
    f in own && own[f] == o
  }

  function SetWord(mem: Mem, f: nat, i: nat, w: Word): Mem
    requires f < NFRAMES && i < NENTRIES
  {
    mem[f := mem[f][i := w]]
  }

  // ---------------------------------------------------------------- kernel map

  /** The entry `kmap` calls for at a virtual page; 0 where the kernel maps nothing. */
  function KernelWord(lay: Layout, vpn: nat): Word
    requires vpn < NPAGES
  {
    if vpn < 0x8_0000 then 0
    else if vpn < 0x8_0100 then MakePte(vpn - 0x8_0000, PTE_W)
    else if vpn < 0x8_0000 + lay.data then MakePte(vpn - 0x8_0000, 0)
    else if vpn < 0xA_0000 then MakePte(vpn - 0x8_0000, PTE_W)
    else if vpn < 0xF_E000 then 0
    else MakePte(vpn, PTE_W)
  }

  // ------------------------------------------------------------------ invariant

  /** The entry w is v, but for the accessed and dirty bits that the MMU sets. */
  predicate Marked(w: Word, v: Word) {
    w == v || w == v + PTE_ACCESSED || w == v + PTE_DIRTY || w == v + PTE_ACCESSED + PTE_DIRTY
  }

  /** The directory entry that walk makes for table f. */
  predicate NamesTable(w: Word, f: nat) {
    f < NPAGES && Marked(w, MakePte(f, 7))
  }

  lemma NamesTableParts(w: Word, f: nat)
    requires NamesTable(w, f)
    ensures PteFrame(w) == f && Present(w) && IsUser(w) && IsWritable(w) && w != 0
  {
    var c := w - f * PAGE_SZ;
    assert c == 7 || c == 7 + PTE_ACCESSED || c == 7 + PTE_DIRTY || c == 7 + PTE_ACCESSED + PTE_DIRTY;
    PartsOf(f, c);
    LowBits(w);
  }

  ghost predicate DirEntryOk(mem: Mem, own: Owners, d: nat, i: nat)
    requires d < NFRAMES && i < NENTRIES
  {
    var w := mem[d][i];
    w == 0 || (NamesTable(w, PteFrame(w)) && IsA(own, PteFrame(w), Table(d, i)))
  }

  ghost predicate TableEntryOk(lay: Layout, mem: Mem, own: Owners, t: nat, j: nat)
    requires t < NFRAMES && j < NENTRIES && t in own && own[t].Table? && own[t].pdx < NENTRIES
  {
    var w := mem[t][j];
    || w == 0
    || (Present(w) &&
        if own[t].pdx < USER_PDES then IsA(own, PteFrame(w), Page(own[t].dir, own[t].pdx, j))
        else Marked(w, KernelWord(lay, Vpn(own[t].pdx, j))))
  }

  ghost predicate FrameOk(lay: Layout, mem: Mem, own: Owners, f: nat)
    requires f in own
  {
    && lay.end <= f < NFRAMES
    && match own[f]
       case Dir => forall i :: 0 <= i < NENTRIES ==> DirEntryOk(mem, own, f, i)
       case Table(d, i) =>
         && d < NFRAMES && i < NENTRIES
         && IsA(own, d, Dir)
         && NamesTable(mem[d][i], f)
         && forall j :: 0 <= j < NENTRIES ==> TableEntryOk(lay, mem, own, f, j)
       case Page(d, i, j) =>
         && d < NFRAMES && i < USER_PDES && j < NENTRIES
         && IsA(own, d, Dir)
         && var t := PteFrame(mem[d][i]);
         && t < NFRAMES && IsA(own, t, Table(d, i))
         && Present(mem[t][j]) && PteFrame(mem[t][j]) == f
       case _ => true
  }

  ghost predicate FramesOk(lay: Layout, mem: Mem, own: Owners) {
    forall f :: f in own ==> FrameOk(lay, mem, own, f)
  }

  /** Frame 0 stands in for every absent page table; it must name no allocatable frame. */
  ghost predicate LowFrameOk(lay: Layout, mem: Mem) {
    forall j :: 0 <= j < NENTRIES && Present(mem[0][j]) ==> !(lay.end <= PteFrame(mem[0][j]) < NFRAMES)
  }

  /** The links stored in the free frames thread through `free`, in order, without repetition. */
  ghost predicate Chain(mem: Mem, head: Word, free: seq<nat>)
    decreases |free|
  {
    if free == [] then head == 0
    else
      && free[0] < NFRAMES
      && head == FrameToKa(free[0])
      && free[0] !in free[1..]
      && Chain(mem, mem[free[0]][0], free[1..])
  }

  ghost predicate FreeListOk(mem: Mem, own: Owners, head: Word, free: seq<nat>) {
    && Chain(mem, head, free)
    && forall f: nat :: f in free <==> IsA(own, f, Free)
  }

  ghost predicate Inv(lay: Layout, mem: Mem, own: Owners, head: Word, free: seq<nat>) {
    && lay.Valid()
    && FramesOk(lay, mem, own)
    && LowFrameOk(lay, mem)
    && FreeListOk(mem, own, head, free)
  }

  /** Frame 0 is never the allocator's. */
  lemma LowFrameUnowned(lay: Layout, mem: Mem, own: Owners, head: Word, free: seq<nat>)
    requires Inv(lay, mem, own, head, free)
    ensures 0 !in own
  {
  }

  // --------------------------------------------------- what the MMU sees

  /** The page table entry the hardware finds for a page of directory d; 0 if there is none. */
  ghost function Lookup(mem: Mem, d: nat, i: nat, j: nat): Word
    requires d < NFRAMES && i < NENTRIES && j < NENTRIES
  {
    var pde := mem[d][i];
    if Present(pde) && PteFrame(pde) < NFRAMES then mem[PteFrame(pde)][j] else 0
  }

  /** Directory d translates every page alike in both memories. */
  ghost predicate SameView(mem: Mem, mem': Mem, d: nat)
    requires d < NFRAMES
  {
    forall i, j :: 0 <= i < NENTRIES && 0 <= j < NENTRIES ==> Lookup(mem', d, i, j) == Lookup(mem, d, i, j)
  }

  /** Every live directory except x translates as before. */
  ghost predicate KeepsViews(own: Owners, mem: Mem, mem': Mem, x: nat) {
    forall e: nat :: IsA(own, e, Dir) && e != x && e < NFRAMES ==> SameView(mem, mem', e)
  }

  lemma KeepsViewsTrans(own: Owners, m0: Mem, m1: Mem, m2: Mem, x: nat)
    requires KeepsViews(own, m0, m1, x) && KeepsViews(own, m1, m2, x)
    ensures KeepsViews(own, m0, m2, x)
  {
    forall e: nat | IsA(own, e, Dir) && e != x && e < NFRAMES ensures SameView(m0, m2, e) {
      SameViewTrans(m0, m1, m2, e);
    }
  }

  lemma SameViewTrans(m0: Mem, m1: Mem, m2: Mem, e: nat)
    requires e < NFRAMES && SameView(m0, m1, e) && SameView(m1, m2, e)
    ensures SameView(m0, m2, e)
  {
    forall i, j | 0 <= i < NENTRIES && 0 <= j < NENTRIES ensures Lookup(m2, e, i, j) == Lookup(m0, e, i, j) {
      assert Lookup(m1, e, i, j) == Lookup(m0, e, i, j);
    }
  }

  /** Pages and loose frames of `own` hold the same words in both memories. */
  ghost predicate KeepsContents(own: Owners, mem: Mem, mem': Mem) {
    forall f :: f in own && (own[f].Page? || own[f].Other?) && f < NFRAMES ==> mem'[f] == mem[f]
  }

  /** No word of frame 0 changed except to 0. */
  ghost predicate LowShrinks(mem: Mem, mem': Mem) {
    forall j :: 0 <= j < NENTRIES ==> mem'[0][j] == mem[0][j] || mem'[0][j] == 0
  }

  // ------------------------------------------------------------ step lemmas

  predicate IsStructure(o: Owner) {
    o.Dir? || o.Table? || o.Page?
  }

  /** Every directory, table and user page of `own`, except frame x, is still one in own'. */
  ghost predicate KeepsStructure(own: Owners, own': Owners, x: nat) {
    forall f :: f in own && IsStructure(own[f]) && f != x ==> IsA(own', f, own[f])
  }

  /** The words that tie frame g to its owner are the same in both memories. */
  ghost predicate SameTies(mem: Mem, mem': Mem, own: Owners, g: nat)
    requires g in own && g < NFRAMES
  {
    match own[g]
    case Dir => mem'[g] == mem[g]
    case Table(d, i) => d < NFRAMES && i < NENTRIES && mem'[d][i] == mem[d][i] && mem'[g] == mem[g]
    case Page(d, i, j) =>
      && d < NFRAMES && i < NENTRIES && j < NENTRIES
      && mem'[d][i] == mem[d][i]
      && var t := PteFrame(mem[d][i]);
      && t < NFRAMES && mem'[t][j] == mem[t][j]
    case _ => true
  }

  /** Frame g refers to the loose or dying frame x. */
  ghost predicate RefersTo(own: Owners, g: nat, x: nat)
    requires g in own
  {
    x in own && match own[x]
    case Table(d, _) => g == d || (own[g].Page? && own[g].dir == d && own[g].pdx == own[x].pdx)
    case Page(d, i, _) => own[g].Table? && own[g].dir == d && own[g].pdx == i
    case _ => false
  }

  /** A frame whose ties are untouched stays well formed. */
  lemma Transfer(lay: Layout, mem: Mem, own: Owners, mem': Mem, own': Owners, x: nat, g: nat)
    requires FramesOk(lay, mem, own) && KeepsStructure(own, own', x)
    requires g in own && IsA(own', g, own[g]) && g != x && g < NFRAMES
    requires SameTies(mem, mem', own, g)
    requires x in own ==> own[x].Page? || !IsStructure(own[x])
    requires !RefersTo(own, g, x)
    ensures FrameOk(lay, mem', own', g)
  {
    assert FrameOk(lay, mem, own, g);
    match own[g] {
      case Dir =>
        forall i | 0 <= i < NENTRIES ensures DirEntryOk(mem', own', g, i) {
          assert DirEntryOk(mem, own, g, i);
        }
      case Table(d, i) =>
        forall j | 0 <= j < NENTRIES ensures TableEntryOk(lay, mem', own', g, j) {
          assert TableEntryOk(lay, mem, own, g, j);
        }
      case Page(d, i, j) =>
      case _ =>
    }
  }

  /** One frame x changes hands; every other frame keeps its ties and its form. */
  lemma TransferAll(lay: Layout, mem: Mem, own: Owners, mem': Mem, x: nat, o: Owner)
    requires FramesOk(lay, mem, own) && x in own
    requires IsStructure(own[x]) ==> o == own[x] || own[x].Page?
    requires forall g :: g in own && g != x ==> g < NFRAMES && SameTies(mem, mem', own, g)
    requires o != own[x] ==> forall g :: g in own ==> !RefersTo(own, g, x)
    requires FrameOk(lay, mem', own[x := o], x)
    ensures FramesOk(lay, mem', own[x := o])
  {
    var own' := own[x := o];
    var y := if o == own[x] then NFRAMES else x;
    forall g | g in own' ensures FrameOk(lay, mem', own', g) {
      assert FrameOk(lay, mem, own, g);
      if g != x {
        if y in own {
          assert FrameOk(lay, mem, own, y);
        }
        Transfer(lay, mem, own, mem', own', y, g);
      }
    }
  }

  lemma {:induction false} ChainTransfer(mem: Mem, head: Word, free: seq<nat>, mem': Mem)
    requires Chain(mem, head, free)
    requires forall f: nat :: f in free && f < NFRAMES ==> mem'[f] == mem[f]
    ensures Chain(mem', head, free)
    decreases |free|
  {
    if free != [] {
      ChainTransfer(mem, mem[free[0]][0], free[1..], mem');
    }
  }

  /** A directory whose own frame and tables are untouched translates as before. */
  lemma ViewTransfer(lay: Layout, mem: Mem, own: Owners, mem': Mem, e: nat)
    requires FramesOk(lay, mem, own) && IsA(own, e, Dir) && e < NFRAMES && mem'[e] == mem[e]
    requires forall t :: t in own && own[t].Table? && own[t].dir == e && t < NFRAMES ==> mem'[t] == mem[t]
    ensures SameView(mem, mem', e)
  {
    assert FrameOk(lay, mem, own, e);
    forall i, j | 0 <= i < NENTRIES && 0 <= j < NENTRIES ensures Lookup(mem', e, i, j) == Lookup(mem, e, i, j) {
      assert DirEntryOk(mem, own, e, i);
    }
  }

  /** The ties of every frame stand when the only frame written holds no table. */
  lemma TiesStand(lay: Layout, mem: Mem, own: Owners, mem': Mem, x: nat)
    requires FramesOk(lay, mem, own) && x < NFRAMES && (x in own ==> !own[x].Dir? && !own[x].Table?)
    requires forall f :: 0 <= f < NFRAMES && f != x ==> mem'[f] == mem[f]
    ensures forall g :: g in own && g != x ==> g < NFRAMES && SameTies(mem, mem', own, g)
    ensures KeepsViews(own, mem, mem', NFRAMES)
  {
    forall g | g in own && g != x ensures g < NFRAMES && SameTies(mem, mem', own, g) {
      assert FrameOk(lay, mem, own, g);
    }
    forall e: nat | IsA(own, e, Dir) ensures e < NFRAMES && SameView(mem, mem', e) {
      assert FrameOk(lay, mem, own, e);
      ViewTransfer(lay, mem, own, mem', e);
    }
  }

  /** palloc takes the head of the free list. */
  lemma TakeFree(lay: Layout, mem: Mem, own: Owners, head: Word, free: seq<nat>)
    requires Inv(lay, mem, own, head, free) && free != []
    ensures Inv(lay, mem, own[free[0] := Other], mem[free[0]][0], free[1..])
  {
    var x := free[0];
    assert IsA(own, x, Free) && FrameOk(lay, mem, own, x);
    TiesStand(lay, mem, own, mem, x);
    TransferAll(lay, mem, own, mem, x, Other);
    forall f: nat ensures f in free[1..] <==> IsA(own[x := Other], f, Free) {
      assert free == [x] + free[1..];
      assert f in free <==> IsA(own, f, Free);
    }
  }

  /** pfree puts back a frame that nothing else holds. */
  lemma PutFree(lay: Layout, mem: Mem, own: Owners, head: Word, free: seq<nat>, f: nat)
    requires Inv(lay, mem, own, head, free) && IsA(own, f, Other) && f < NFRAMES
    ensures Inv(lay, SetWord(mem, f, 0, head), own[f := Free], FrameToKa(f), [f] + free)
    ensures KeepsViews(own, mem, SetWord(mem, f, 0, head), NFRAMES)
  {
    var mem' := SetWord(mem, f, 0, head);
    assert FrameOk(lay, mem, own, f);
    TiesStand(lay, mem, own, mem', f);
    TransferAll(lay, mem, own, mem', f, Free);
    PushFree(mem, own, head, free, f);
  }

  lemma PushFree(mem: Mem, own: Owners, head: Word, free: seq<nat>, f: nat)
    requires FreeListOk(mem, own, head, free) && f in own && own[f] != Free && f < NFRAMES
    ensures FreeListOk(SetWord(mem, f, 0, head), own[f := Free], FrameToKa(f), [f] + free)
  {
    assert ([f] + free)[1..] == free;
    ChainTransfer(mem, head, free, SetWord(mem, f, 0, head));
  }

  /** Writing a frame in hand, or a user page, disturbs nobody. */
  lemma WriteContents(lay: Layout, mem: Mem, own: Owners, head: Word, free: seq<nat>, f: nat, new_: Frame)
    requires Inv(lay, mem, own, head, free) && f in own && f < NFRAMES && (own[f].Other? || own[f].Page?)
    ensures Inv(lay, mem[f := new_], own, head, free)
    ensures KeepsViews(own, mem, mem[f := new_], NFRAMES)
  {
    var mem' := mem[f := new_];
    assert FrameOk(lay, mem, own, f);
    TiesStand(lay, mem, own, mem', f);
    assert own[f := own[f]] == own;
    TransferAll(lay, mem, own, mem', f, own[f]);
    ChainTransfer(mem, head, free, mem');
  }

  /** walk: a zeroed frame becomes the table of an absent directory entry. */
  lemma AddTable(lay: Layout, mem: Mem, own: Owners, head: Word, free: seq<nat>, d: nat, i: nat, t: nat)
    requires Inv(lay, mem, own, head, free) && IsA(own, d, Dir) && d < NFRAMES && i < NENTRIES && mem[d][i] == 0
    requires IsA(own, t, Other) && t < NFRAMES && mem[t] == ZeroFrame()
    ensures Inv(lay, SetWord(mem, d, i, MakePte(t, 7)), own[t := Table(d, i)], head, free)
    ensures KeepsViews(own, mem, SetWord(mem, d, i, MakePte(t, 7)), NFRAMES)
  {
    var mem', own' := SetWord(mem, d, i, MakePte(t, 7)), own[t := Table(d, i)];
    MakePteParts(t, 7);
    forall g | g in own' ensures FrameOk(lay, mem', own', g) {
      assert FrameOk(lay, mem, own, g);
      if g == d {
        forall k | 0 <= k < NENTRIES ensures DirEntryOk(mem', own', d, k) {
          assert DirEntryOk(mem, own, d, k);
        }
      } else if g != t {
        Transfer(lay, mem, own, mem', own', t, g);
      }
    }
    ChainTransfer(mem, head, free, mem');
    forall e: nat | IsA(own, e, Dir) ensures e < NFRAMES && SameView(mem, mem', e) {
      assert FrameOk(lay, mem, own, e);
      if e != d {
        ViewTransfer(lay, mem, own, mem', e);
      } else {
        forall k, j | 0 <= k < NENTRIES && 0 <= j < NENTRIES ensures Lookup(mem', e, k, j) == Lookup(mem, e, k, j) {
          assert DirEntryOk(mem, own, e, k);
        }
      }
    }
  }

  /** Directory d translates page (i, j) to w, and every other page as before. */
  ghost predicate ViewSet(mem: Mem, mem': Mem, d: nat, i: nat, j: nat, w: Word)
    requires d < NFRAMES
  {
    forall k, l :: 0 <= k < NENTRIES && 0 <= l < NENTRIES ==>
      Lookup(mem', d, k, l) == if k == i && l == j then w else Lookup(mem, d, k, l)
  }

  lemma SetEntryView(lay: Layout, mem: Mem, own: Owners, t: nat, j: nat, w: Word)
    requires FramesOk(lay, mem, own) && t in own && own[t].Table? && t < NFRAMES && j < NENTRIES
    ensures own[t].dir < NFRAMES && ViewSet(mem, SetWord(mem, t, j, w), own[t].dir, own[t].pdx, j, w)
    ensures KeepsViews(own, mem, SetWord(mem, t, j, w), own[t].dir)
  {
    var mem', d, i := SetWord(mem, t, j, w), own[t].dir, own[t].pdx;
    assert FrameOk(lay, mem, own, t) && FrameOk(lay, mem, own, d);
    NamesTableParts(mem[d][i], t);
    forall k, l | 0 <= k < NENTRIES && 0 <= l < NENTRIES
      ensures Lookup(mem', d, k, l) == if k == i && l == j then w else Lookup(mem, d, k, l)
    {
      assert DirEntryOk(mem, own, d, k);
    }
    forall e: nat | IsA(own, e, Dir) && e != d ensures e < NFRAMES && SameView(mem, mem', e) {
      assert FrameOk(lay, mem, own, e);
      ViewTransfer(lay, mem, own, mem', e);
    }
  }

  /** The ties of every frame but the page it named stand when one table entry is written. */
  lemma EntryTies(lay: Layout, mem: Mem, own: Owners, t: nat, j: nat, w: Word, g: nat)
    requires FramesOk(lay, mem, own) && t in own && own[t].Table? && t < NFRAMES && j < NENTRIES
    requires g in own && g != t && own[g] != Page(own[t].dir, own[t].pdx, j)
    ensures g < NFRAMES && SameTies(mem, SetWord(mem, t, j, w), own, g)
  {
    assert FrameOk(lay, mem, own, g) && FrameOk(lay, mem, own, t);
    NamesTableParts(mem[own[t].dir][own[t].pdx], t);
    match own[g] {
      case Page(d, i, l) =>
        var s := PteFrame(mem[d][i]);
        assert s == t ==> l != j;
      case _ =>
    }
  }

  /** map_pages in the user half: a frame in hand becomes the page of an empty entry. */
  lemma MapUserPage(lay: Layout, mem: Mem, own: Owners, head: Word, free: seq<nat>, t: nat, j: nat, f: nat, w: Word)
    requires Inv(lay, mem, own, head, free) && t in own && own[t].Table? && t < NFRAMES && j < NENTRIES
    requires own[t].pdx < USER_PDES && mem[t][j] == 0
    requires IsA(own, f, Other) && Present(w) && PteFrame(w) == f
    ensures Inv(lay, SetWord(mem, t, j, w), own[f := Page(own[t].dir, own[t].pdx, j)], head, free)
  {
    var d, i := own[t].dir, own[t].pdx;
    var mem', own' := SetWord(mem, t, j, w), own[f := Page(d, i, j)];
    assert FrameOk(lay, mem, own, t);
    NamesTableParts(mem[own[t].dir][own[t].pdx], t);
    forall g | g in own' ensures FrameOk(lay, mem', own', g) {
      assert FrameOk(lay, mem, own, g);
      if g == t {
        forall l | 0 <= l < NENTRIES ensures TableEntryOk(lay, mem', own', t, l) {
          assert TableEntryOk(lay, mem, own, t, l);
        }
      } else if g != f {
        EntryTies(lay, mem, own, t, j, w, g);
        Transfer(lay, mem, own, mem', own', f, g);
      }
    }
    ChainTransfer(mem, head, free, mem');
  }

  /** Rewriting an entry in place: a kernel entry gets its kmap word, or a user entry new flags. */
  lemma RewriteEntry(lay: Layout, mem: Mem, own: Owners, head: Word, free: seq<nat>, t: nat, j: nat, w: Word)
    requires Inv(lay, mem, own, head, free) && t in own && own[t].Table? && t < NFRAMES && j < NENTRIES
    requires own[t].pdx < NENTRIES && Present(w)
    requires if own[t].pdx < USER_PDES then Present(mem[t][j]) && PteFrame(w) == PteFrame(mem[t][j])
             else Marked(w, KernelWord(lay, Vpn(own[t].pdx, j)))
    ensures Inv(lay, SetWord(mem, t, j, w), own, head, free)
  {
    var mem' := SetWord(mem, t, j, w);
    assert FrameOk(lay, mem, own, t);
    NamesTableParts(mem[own[t].dir][own[t].pdx], t);
    forall g | g in own ensures FrameOk(lay, mem', own, g) {
      assert FrameOk(lay, mem, own, g);
      if g == t {
        forall l | 0 <= l < NENTRIES ensures TableEntryOk(lay, mem', own, t, l) {
          assert TableEntryOk(lay, mem, own, t, l);
        }
      } else if own[g] != Page(own[t].dir, own[t].pdx, j) {
        EntryTies(lay, mem, own, t, j, w, g);
        Transfer(lay, mem, own, mem', own, NFRAMES, g);
      }
    }
    ChainTransfer(mem, head, free, mem');
  }

  /** unmap_pages: the page goes back on the free list and its entry is cleared. */
  lemma UnmapPage(lay: Layout, mem: Mem, own: Owners, head: Word, free: seq<nat>, t: nat, j: nat)
    requires Inv(lay, mem, own, head, free) && t in own && own[t].Table? && t < NFRAMES && j < NENTRIES
    requires own[t].pdx < USER_PDES && mem[t][j] != 0
    ensures var f := PteFrame(mem[t][j]);
            && f < NFRAMES && f != t
            && IsA(own, f, Page(own[t].dir, own[t].pdx, j))
            && Inv(lay, SetWord(SetWord(mem, f, 0, head), t, j, 0), own[f := Free], FrameToKa(f), [f] + free)
  {
    assert FrameOk(lay, mem, own, t) && TableEntryOk(lay, mem, own, t, j);
    var f := PteFrame(mem[t][j]);
    assert FrameOk(lay, mem, own, f);
    var mem1 := SetWord(mem, f, 0, head);
    var mem', own' := SetWord(mem1, t, j, 0), own[f := Free];
    TiesStand(lay, mem, own, mem1, f);
    forall g | g in own' ensures FrameOk(lay, mem', own', g) {
      assert FrameOk(lay, mem, own, g);
      if g == t {
        forall l | 0 <= l < NENTRIES ensures TableEntryOk(lay, mem', own', t, l) {
          assert TableEntryOk(lay, mem, own, t, l);
        }
      } else if g != f {
        EntryTies(lay, mem, own, t, j, 0, g);
        Transfer(lay, mem, own, mem', own', f, g);
      }
    }
    PushFree(mem, own, head, free, f);
    ChainTransfer(mem1, FrameToKa(f), [f] + free, mem');
  }

  /** unmap_pages on an absent table: a word of frame 0 is cleared. */
  lemma ClearLowWord(lay: Layout, mem: Mem, own: Owners, head: Word, free: seq<nat>, j: nat)
    requires Inv(lay, mem, own, head, free) && j < NENTRIES
    ensures Inv(lay, SetWord(mem, 0, j, 0), own, head, free)
    ensures KeepsViews(own, mem, SetWord(mem, 0, j, 0), NFRAMES)
  {
    var mem' := SetWord(mem, 0, j, 0);
    if 0 in own {
      assert FrameOk(lay, mem, own, 0);
    }
    TiesStand(lay, mem, own, mem', 0);
    forall g | g in own ensures FrameOk(lay, mem', own, g) {
      assert FrameOk(lay, mem, own, g);
      Transfer(lay, mem, own, mem', own, NFRAMES, g);
    }
    ChainTransfer(mem, head, free, mem');
  }

  /** kvm_allocate: a zeroed frame becomes a directory that maps nothing. */
  lemma NewDir(lay: Layout, mem: Mem, own: Owners, head: Word, free: seq<nat>, d: nat)
    requires Inv(lay, mem, own, head, free) && IsA(own, d, Other) && d < NFRAMES && mem[d] == ZeroFrame()
    ensures Inv(lay, mem, own[d := Dir], head, free)
    ensures forall i, j :: 0 <= i < NENTRIES && 0 <= j < NENTRIES ==> Lookup(mem, d, i, j) == 0
  {
    assert FrameOk(lay, mem, own, d);
    TiesStand(lay, mem, own, mem, d);
    TransferAll(lay, mem, own, mem, d, Dir);
  }

  /** The frames directory d holds: itself, its tables and its user pages. */
  ghost predicate Holds(own: Owners, d: nat, f: nat)
    requires f in own
  {
    f == d || ((own[f].Table? || own[f].Page?) && own[f].dir == d)
  }

  /** `own` with every frame of directory d handed to o. */
  ghost function Dissolved(own: Owners, d: nat, o: Owner): Owners {
    map f | f in own :: if Holds(own, d, f) then o else own[f]
  }

  /** vmfree: a directory with no user pages can be dissolved into loose frames. */
  lemma Dissolve(lay: Layout, mem: Mem, own: Owners, head: Word, free: seq<nat>, d: nat)
    requires Inv(lay, mem, own, head, free) && IsA(own, d, Dir)
    ensures Inv(lay, mem, Dissolved(own, d, Other), head, free)
  {
    var own' := Dissolved(own, d, Other);
    forall g | g in own' ensures FrameOk(lay, mem, own', g) {
      assert FrameOk(lay, mem, own, g);
      match own'[g] {
        case Dir =>
          forall i | 0 <= i < NENTRIES ensures DirEntryOk(mem, own', g, i) {
            assert DirEntryOk(mem, own, g, i);
          }
        case Table(e, i) =>
          forall j | 0 <= j < NENTRIES ensures TableEntryOk(lay, mem, own', g, j) {
            assert TableEntryOk(lay, mem, own, g, j);
          }
        case _ =>
      }
    }
    assert forall f: nat :: IsA(own', f, Free) <==> IsA(own, f, Free);
  }

  /** palloc_init: a frame of the pool that was never handed out joins the free list. */
  lemma AdmitFrame(lay: Layout, mem: Mem, own: Owners, head: Word, free: seq<nat>, f: nat)
    requires Inv(lay, mem, own, head, free) && f !in own && lay.end <= f < NFRAMES
    ensures Inv(lay, SetWord(mem, f, 0, head), own[f := Free], FrameToKa(f), [f] + free)
  {
    var mem', own' := SetWord(mem, f, 0, head), own[f := Free];
    TiesStand(lay, mem, own, mem', f);
    forall g | g in own' ensures FrameOk(lay, mem', own', g) {
      if g != f {
        assert FrameOk(lay, mem, own, g);
        Transfer(lay, mem, own, mem', own', f, g);
      }
    }
    assert ([f] + free)[1..] == free;
    ChainTransfer(mem, head, free, mem');
  }

  /** walk, whole: the frame in hand is zeroed and then entered in the directory. */
  lemma NewTable(lay: Layout, mem: Mem, own: Owners, head: Word, free: seq<nat>, d: nat, i: nat, t: nat)
    requires Inv(lay, mem, own, head, free) && IsA(own, d, Dir) && d < NFRAMES && i < NENTRIES && mem[d][i] == 0
    requires IsA(own, t, Other) && t < NFRAMES
    ensures Inv(lay, SetWord(mem[t := ZeroFrame()], d, i, MakePte(t, 7)), own[t := Table(d, i)], head, free)
    ensures KeepsViews(own, mem, SetWord(mem[t := ZeroFrame()], d, i, MakePte(t, 7)), NFRAMES)
  {
    var mem1 := mem[t := ZeroFrame()];
    WriteContents(lay, mem, own, head, free, t, ZeroFrame());
    AddTable(lay, mem1, own, head, free, d, i, t);
    KeepsViewsTrans(own, mem, mem1, SetWord(mem1, d, i, MakePte(t, 7)), NFRAMES);
  }
}
