/**
 The physical page allocator: a free list threaded through the free pages.
 */
module Palloc {
  import opened Mmu
  import opened Frames

  /** Physical memory and the head of the allocator's list. */
  class Memory {
    const lay: Layout
    var frames: Mem
    var freelist: Word

    ghost var own: Owners
    ghost var free: seq<nat>

    ghost predicate Valid()
      reads this
    {
      Inv(lay, frames, own, freelist, free)
    }

    /** Memory as the boot loader leaves it: nothing has been given to the allocator. */
    constructor (lay: Layout, frames: Mem)
      requires lay.Valid() && LowFrameOk(lay, frames)
      ensures Valid() && this.lay == lay && this.frames == frames && own == map[] && free == []
    {
      this.lay, this.frames, this.freelist := lay, frames, 0;
      this.own, this.free := map[], [];
    }

    /** Takes the first page of the list, or returns 0 when the list is empty. */
    method Alloc() returns (r: Word)
      requires Valid()
      modifies this
      ensures Valid() && frames == old(frames)
      ensures r == 0 <==> old(free) == []
      ensures r == 0 ==> own == old(own) && free == [] && freelist == old(freelist)
      ensures r != 0 ==>
                var f := KaToFrame(r);
                && 0 <= f < NFRAMES && r == FrameToKa(f)
                && old(free) == [f] + free
                && IsA(old(own), f, Owner.Free) && own == old(own)[f := Other]
    {
      r := freelist;
      if r != 0 {
        FrameKaInverse(free[0]);
        TakeFree(lay, frames, own, freelist, free);
        assert free == [free[0]] + free[1..];
        assert free[0] in free;
        freelist := frames[KaToFrame(r)][0];
        own, free := own[free[0] := Other], free[1..];
      }
    }

    /**
     Links the page at v in front of the list; the page's first word becomes the link.
     The kernel panics on an address outside [end, PHYSTOP) or off a page boundary.
     */
    method Free(v: Word)
      requires v % PAGE_SZ == 0 && lay.end <= KaToFrame(v) < NFRAMES
      modifies this
      ensures frames == SetWord(old(frames), KaToFrame(v), 0, old(freelist))
      ensures freelist == v
      ensures own == old(own)[KaToFrame(v) := Owner.Free] && free == [KaToFrame(v)] + old(free)
      ensures old(Valid()) && IsA(old(own), KaToFrame(v), Other) ==> Valid()
    {
      var f := KaToFrame(v);
      if Valid() && IsA(own, f, Other) {
        FrameKaInverse(f);
        PutFree(lay, frames, own, freelist, free, f);
      }
      frames := SetWord(frames, f, 0, freelist);
      freelist := v;
      own, free := own[f := Owner.Free], [f] + free;
    }

    /** Gives every whole page of [vstart, vend) to the allocator. */
    method FreeRange(vstart: Word, vend: Word)
      requires Valid() && vstart % PAGE_SZ == 0
      requires KERN_BASE + lay.end * PAGE_SZ <= vstart && vend <= KERN_BASE + PHYSTOP
      requires forall f :: f in own ==> !(KaToFrame(vstart) <= f < KaToFrame(vend))
      modifies this
      ensures Valid()
      ensures forall f: nat :: f in own <==> f in old(own) || KaToFrame(vstart) <= f < KaToFrame(vend)
      ensures forall f :: f in own ==> own[f] == if f in old(own) then old(own)[f] else Owner.Free
      ensures forall f :: 0 <= f < NFRAMES && !(KaToFrame(vstart) <= f < KaToFrame(vend)) ==> frames[f] == old(frames)[f]
      ensures |free| == |old(free)| + if vstart <= vend then KaToFrame(vend) - KaToFrame(vstart) else 0
    {
      var p := vstart;
      while p + PAGE_SZ <= vend
        invariant p % PAGE_SZ == 0 && vstart <= p && (p <= vend || p == vstart)
        invariant Valid()
        invariant forall f :: 0 <= f < NFRAMES && !(KaToFrame(vstart) <= f < KaToFrame(p)) ==> frames[f] == old(frames)[f]
        invariant |free| == |old(free)| + KaToFrame(p) - KaToFrame(vstart)
        invariant forall f: nat :: f in own <==> f in old(own) || KaToFrame(vstart) <= f < KaToFrame(p)
        invariant forall f :: f in own ==> own[f] == if f in old(own) then old(own)[f] else Owner.Free
        decreases vend - p
      {
        AdmitFrame(lay, frames, own, freelist, free, KaToFrame(p));
        assert KaToFrame(p + PAGE_SZ) == KaToFrame(p) + 1;
        Free(p);
        p := p + PAGE_SZ;
      }
      assert p <= vend ==> KaToFrame(p) == KaToFrame(vend);
    }
  }
}
