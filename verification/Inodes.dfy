/**
 The kernel's side of the disk format: reading and writing a file block by block through the inode's block map. Block
 access through the buffer cache is bracketed and synchronous, so each access is to the disk itself.
 */
module Inodes {
  import opened Mmu
  import opened Bytes
  import opened FsLayout
  import opened Files

  /** The in-memory inode: its number, its copy of the disk inode, and whether that has been read. */
  class Inode {
    const inum: nat
    var d: DInode
    var loaded: bool

    constructor (inum: nat, d: DInode)
      ensures this.inum == inum && !loaded
    {
      this.inum, this.d, this.loaded := inum, d, false;
    }
  }

  function Min(a: int, b: int): int {
    if a < b then a else b
  }

  /** A file after p has been written over it from o on. */
  function Overwritten(f: seq<Byte>, o: nat, p: seq<Byte>): seq<Byte>
    requires o <= |f|
  {
    f[..o] + p + if o + |p| < |f| then f[o + |p|..] else []
  }

  class Volume {
    var disk: Disk
    ghost var own: Uses
    ghost var n: nat

    ghost predicate Valid()
      reads this
    {
      VolumeOk(disk, own, n)
    }

    /** A file or directory whose cached inode, if read, agrees with the disk. */
    ghost predicate Regular(ino: Inode)
      reads this, ino
    {
      && 1 <= ino.inum < n <= NINODES
      && (NodeOf(disk, ino.inum).ftype == F_DIR || NodeOf(disk, ino.inum).ftype == F_FILE)
      && (ino.loaded ==> ino.d == NodeOf(disk, ino.inum))
    }

    constructor (disk: Disk, ghost own: Uses, ghost n: nat)
      requires VolumeOk(disk, own, n)
      ensures Valid() && this.disk == disk && this.own == own && this.n == n
    {
      this.disk, this.own, this.n := disk, own, n;
    }

    method InodeLoad(ino: Inode)
      requires Valid() && Regular(ino)
      modifies ino
      ensures Regular(ino) && ino.loaded && ino.d == NodeOf(disk, ino.inum)
    {
      if !ino.loaded {
        var b := disk[InodeBlock(ino.inum)];
        ino.d := GetNode(b, ino.inum % PER_BLOCK);
        ino.loaded := true;
      }
    }

    /** The lookup side of inode_bmap. */
    method InodeBmap(d: DInode, nth: nat) returns (blockno: Word)
      requires nth < MAXBLKS && (nth >= NDIRECT ==> 0 < d.addrs[NDIRECT] <= NBLKS)
      ensures blockno == BlockOf(disk, d, nth)
    {
      if nth < NDIRECT {
        blockno := d.addrs[nth];
      } else {
        var ptrsblock := disk[d.addrs[NDIRECT]];
        blockno := Entry(ptrsblock, nth - NDIRECT);
      }
    }

    /** Reads exactly the slice of the file, cropped at its size. */
    method InodeRead(ino: Inode, offset: Word, sz: Word) returns (r: int, buf: seq<Byte>)
      requires Valid() && Regular(ino)
      modifies ino
      ensures Regular(ino) && ino.loaded
      ensures var f := FileOf(disk, ino.inum);
              if |f| < offset || 0xffff_ffff - offset < sz then r == -1 && buf == []
              else r == Min(sz, |f| - offset) && buf == f[offset..offset + r]
    {
      hide NodeOf, Mapped, BlockOf, FileBytes, VolumeOk, BlocksFor;
      InodeLoad(ino);
      var d := ino.d;
      ghost var f := FileOf(disk, ino.inum);
      FileLength(disk, d, d.size);
      ghost var nb := BlocksFor(d.size);
      FileFacts(disk, own, n, ino.inum);
      if d.size < offset || 0xffff_ffff - offset < sz {
        return -1, [];
      }
      var len: nat := if offset + sz > d.size then d.size - offset else sz;
      var off, rd: nat := offset, 0;
      buf := [];
      while rd < len
        invariant rd <= len && off == offset + rd && Regular(ino) && ino.loaded
        invariant buf == f[offset..off]
      {
        var nth, o := off / BSIZE, off % BSIZE;
        WithinBlocks(d.size, off, nb);
        Reachable(disk, own, ino.inum, d, nb, nth);
        var blockno := InodeBmap(d, nth);
        var b := disk[blockno];
        var m := Min(len - rd, BSIZE - o);
        BlockSlice(disk, d, off, m);
        buf := buf + b[o..o + m];
        assert f[offset..off + m] == f[offset..off] + f[off..off + m];
        rd, off := rd + m, off + m;
      }
      r := len;
    }

    method InodeFlush(ino: Inode)
      requires ino.inum < NINODES
      modifies this
      ensures disk == WithNode(old(disk), ino.inum, ino.d) && own == old(own) && n == old(n)
    {
      var bn := InodeBlock(ino.inum);
      var b := disk[bn];
      b := PutNode(b, ino.inum % PER_BLOCK, ino.d);
      disk := disk[bn := b];
    }

    /** Writes over blocks the file already has: the byte array is overwritten, and grows in memory and on disk. */
    method InodeWrite(ino: Inode, buf: seq<Byte>, offset: Word) returns (r: int)
      requires Valid() && Regular(ino) && |buf| < 0x1_0000_0000
      requires var size := NodeOf(disk, ino.inum).size;
               offset <= size && offset + |buf| <= MAXFILE ==> BlocksFor(offset + |buf|) <= BlocksFor(size)
      modifies this, ino
      ensures Valid() && Regular(ino) && ino.loaded && own == old(own) && n == old(n)
      ensures var f := old(FileOf(disk, ino.inum));
              if |f| < offset || 0xffff_ffff - offset < |buf| || offset + |buf| > MAXFILE then r == -1 && disk == old(disk)
              else r == |buf| && FileOf(disk, ino.inum) == Overwritten(f, offset, buf)
      ensures ino.d.size == NodeOf(disk, ino.inum).size == |FileOf(disk, ino.inum)|
      ensures forall j: nat :: 1 <= j < n && j != ino.inum ==>
                NodeOf(disk, j) == NodeOf(old(disk), j) && FileOf(disk, j) == FileOf(old(disk), j)
    {
      hide NodeOf, Mapped, BlockOf, FileBytes, OnlyOf, Splice, WithNode, VolumeOk, BlocksFor, Overwritten, WrittenSoFar;
      InodeLoad(ino);
      var d := ino.d;
      ghost var disk0, nb := disk, BlocksFor(d.size);
      FileLength(disk, d, d.size);
      FileFacts(disk, own, n, ino.inum);
      var sz := |buf|;
      if d.size < offset || 0xffff_ffff - offset < sz || offset + sz > MAXFILE {
        return -1;
      }
      OnlyOfRefl(disk, own, ino.inum);
      NoneWritten(disk, d, nb, offset, buf);
      var off, wt: nat := offset, 0;
      while wt < sz
        invariant wt <= sz && off == offset + wt && ino.d == d && ino.loaded && own == old(own) && n == old(n)
        invariant Mapped(disk, own, ino.inum, d, nb) && OnlyOf(disk0, own, disk, own, ino.inum)
        invariant WrittenSoFar(disk0, disk, d, nb, offset, buf, wt)
      {
        var nth, o := off / BSIZE, off % BSIZE;
        WithinBlocks(offset + sz, off, nb);
        Reachable(disk, own, ino.inum, d, nb, nth);
        var blockno := InodeBmap(d, nth);
        var m := Min(sz - wt, BSIZE - o);
        ghost var disk1 := disk;
        PutData(disk, own, ino.inum, d, nb, nth, o, buf[wt..wt + m]);
        disk := disk[blockno := Splice(disk[blockno], o, buf[wt..wt + m])];
        OnlyOfTrans(disk0, own, disk1, own, disk, own, ino.inum);
        WroteOn(disk0, disk1, own, ino.inum, d, nb, offset, buf, wt, m);
        wt, off := wt + m, off + m;
      }
      WrittenFile(disk0, disk, d, nb, offset, buf);
      FileLength(disk, d, if off > d.size then off else d.size);
      if off > d.size {
        BlocksMonotone(d.size, off);
        FlushInode(disk0, own, disk, own, n, ino.inum, d, off);
        ino.d := ino.d.(size := off);
        InodeFlush(ino);
      } else {
        DataChanged(disk0, own, disk, n, ino.inum);
      }
      r := sz;
    }
  }

  /** The first wt bytes of buf are in the file at offset; its other bytes are as they were. */
  ghost predicate WrittenSoFar(disk0: Disk, disk: Disk, d: DInode, nb: nat, offset: nat, buf: seq<Byte>, wt: nat) {
    wt <= |buf| &&
    forall k: nat :: k < nb * BSIZE ==>
      ByteOf(disk, d, k) == if offset <= k < offset + wt then buf[k - offset] else ByteOf(disk0, d, k)
  }

  lemma NoneWritten(disk: Disk, d: DInode, nb: nat, offset: nat, buf: seq<Byte>)
    ensures WrittenSoFar(disk, disk, d, nb, offset, buf, 0)
  {
  }

  lemma FileFacts(disk: Disk, own: Uses, n: nat, ino: nat)
    requires VolumeOk(disk, own, n) && 1 <= ino < n
    ensures n <= NINODES && Placed(own)
    ensures Mapped(disk, own, ino, NodeOf(disk, ino), BlocksFor(NodeOf(disk, ino).size)) && NodeOf(disk, ino).size <= MAXFILE
    ensures PointersAsNeeded(NodeOf(disk, ino), NodeOf(disk, ino).size)
  {
    assert Good(disk, own, ino);
  }

  lemma WithinBlocks(end: nat, off: nat, nb: nat)
    requires off < end && BlocksFor(end) <= nb
    ensures off / BSIZE < nb
  {
  }

  lemma WroteOn(disk0: Disk, disk: Disk, own: Uses, ino: nat, d: DInode, nb: nat, offset: nat, buf: seq<Byte>, wt: nat, m: nat)
    requires Placed(own) && Mapped(disk, own, ino, d, nb) && WrittenSoFar(disk0, disk, d, nb, offset, buf, wt)
    requires wt + m <= |buf| && (offset + wt) / BSIZE < nb && (offset + wt) % BSIZE + m <= BSIZE
    requires BlockOf(disk, d, (offset + wt) / BSIZE) <= NBLKS
    ensures var b := BlockOf(disk, d, (offset + wt) / BSIZE);
            WrittenSoFar(disk0, disk[b := Splice(disk[b], (offset + wt) % BSIZE, buf[wt..wt + m])], d, nb, offset, buf, wt + m)
  {
    hide Mapped, BlockOf, Splice, ByteOf;
    var off := offset + wt;
    var nth, o := off / BSIZE, off % BSIZE;
    assert nth * BSIZE + o == off;
    var b := BlockOf(disk, d, nth);
    var disk': Disk := disk[b := Splice(disk[b], o, buf[wt..wt + m])];
    forall k: nat | k < nb * BSIZE
      ensures ByteOf(disk', d, k) == if offset <= k < offset + wt + m then buf[k - offset] else ByteOf(disk0, d, k)
    {
      PutBytes(disk, own, ino, d, nb, nth, o, buf[wt..wt + m], k);
    }
  }

  lemma WrittenFile(disk0: Disk, disk: Disk, d: DInode, nb: nat, offset: nat, buf: seq<Byte>)
    requires WrittenSoFar(disk0, disk, d, nb, offset, buf, |buf|) && offset <= d.size
    requires BlocksFor(d.size) <= nb && BlocksFor(offset + |buf|) <= nb
    ensures FileBytes(disk, d, if offset + |buf| > d.size then offset + |buf| else d.size)
         == Overwritten(FileBytes(disk0, d, d.size), offset, buf)
  {
    hide ByteOf;
    var end := if offset + |buf| > d.size then offset + |buf| else d.size;
    var f, g := FileBytes(disk0, d, d.size), FileBytes(disk, d, end);
    assert end <= nb * BSIZE;
    assert |Overwritten(f, offset, buf)| == end;
    forall k: nat | k < end ensures g[k] == Overwritten(f, offset, buf)[k] {
    }
  }

  lemma Reachable(disk: Disk, own: Uses, ino: nat, node: DInode, nb: nat, nth: nat)
    requires Placed(own) && Mapped(disk, own, ino, node, nb) && nth < nb
    ensures nth < MAXBLKS && DATA_START <= BlockOf(disk, node, nth) <= NBLKS
    ensures nth >= NDIRECT ==> 0 < node.addrs[NDIRECT] <= NBLKS
  {
    assert Is(own, BlockOf(disk, node, nth), Data(ino, nth));
  }

  lemma FileLength(disk: Disk, node: DInode, n: nat)
    ensures |FileBytes(disk, node, n)| == n
  {
  }

  /** Bytes of a file within one block. */
  lemma BlockSlice(disk: Disk, node: DInode, off: nat, m: nat)
    requires off % BSIZE + m <= BSIZE && off + m <= node.size && BlockOf(disk, node, off / BSIZE) <= NBLKS
    ensures FileBytes(disk, node, node.size)[off..off + m]
         == disk[BlockOf(disk, node, off / BSIZE)][off % BSIZE..off % BSIZE + m]
  {
    hide BlockOf;
    var b := BlockOf(disk, node, off / BSIZE);
    var f := FileBytes(disk, node, node.size);
    forall k | off <= k < off + m ensures f[k] == disk[b][k - off + off % BSIZE] {
      assert k / BSIZE == off / BSIZE && k % BSIZE == k - off + off % BSIZE;
    }
  }

  /** What a read finds after a write. */
  lemma OverwrittenAt(f: seq<Byte>, o: nat, p: seq<Byte>, k: nat)
    requires o <= |f| && k < |Overwritten(f, o, p)|
    ensures Overwritten(f, o, p)[k] == if o <= k < o + |p| then p[k - o] else f[k]
    ensures |Overwritten(f, o, p)| == if o + |p| > |f| then o + |p| else |f|
    ensures Overwritten(f, o, p)[o..o + |p|] == p
  {
  }
}
