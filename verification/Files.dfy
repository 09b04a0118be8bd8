/**
 Files as byte arrays on the disk: which block holds which part of which file, and why files never share one.
 */
module Files {
  import opened Mmu
  import opened Bytes
  import opened FsLayout

  /** What a data block is for: the nth block of a file, or its block of pointers. */
  datatype Use = Data(ino: nat, nth: nat) | Pointers(ino: nat)

  type Uses = map<int, Use>

  ghost predicate Is(own: Uses, b: int, u: Use) {
    b in own && own[b] == u
  }

  function InodeBlock(ino: nat): nat {
    ino / PER_BLOCK + INODE_START
  }

  function NodeOf(disk: Disk, ino: nat): DInode
    requires ino < NINODES
  {
    GetNode(disk[InodeBlock(ino)], ino % PER_BLOCK)
  }

  function BlockOf(disk: Disk, node: DInode, nth: nat): Word {
    if nth < NDIRECT then node.addrs[nth]
    else if nth < MAXBLKS && 0 < node.addrs[NDIRECT] <= NBLKS then Entry(disk[node.addrs[NDIRECT]], nth - NDIRECT)
    else 0
  }

  function ByteOf(disk: Disk, node: DInode, k: nat): Byte {
    var b := BlockOf(disk, node, k / BSIZE);
    if b <= NBLKS then disk[b][k % BSIZE] else 0
  }

  function FileBytes(disk: Disk, node: DInode, n: nat): seq<Byte> {
    seq(n, k requires 0 <= k < n => ByteOf(disk, node, k))
  }

  function BlocksFor(n: nat): nat {
    (n + BSIZE - 1) / BSIZE
  }

  lemma BlocksMonotone(a: nat, b: nat)
    requires a <= b
    ensures BlocksFor(a) <= BlocksFor(b)
  {
  }

  /** The file has a block of pointers exactly if its n bytes need one. */
  predicate PointersAsNeeded(node: DInode, n: nat) {
    node.addrs[NDIRECT] == 0 <==> BlocksFor(n) <= NDIRECT
  }

  /** The first nb blocks of the file are mapped, each to a block of its own; nothing else is. */
  ghost predicate Mapped(disk: Disk, own: Uses, ino: nat, node: DInode, nb: nat) {
    && nb <= MAXBLKS
    && (forall nth: nat :: nth < nb ==> Is(own, BlockOf(disk, node, nth), Data(ino, nth)))
    && (forall nth: nat :: nb <= nth < NDIRECT ==> node.addrs[nth] == 0)
    && (node.addrs[NDIRECT] == 0 ==> nb <= NDIRECT)
    && (node.addrs[NDIRECT] != 0 ==>
          && NDIRECT <= nb
          && Is(own, node.addrs[NDIRECT], Pointers(ino))
          && forall nth: nat :: nb <= nth < MAXBLKS ==> BlockOf(disk, node, nth) == 0)
  }

  ghost predicate Placed(own: Uses) {
    forall b :: b in own ==> DATA_START <= b <= NBLKS
  }

  ghost predicate Good(disk: Disk, own: Uses, ino: nat)
    requires ino < NINODES
  {
    var node := NodeOf(disk, ino);
    node.size <= MAXFILE && Mapped(disk, own, ino, node, BlocksFor(node.size)) && PointersAsNeeded(node, node.size)
  }

  /** The files 1 to n - 1 are laid out soundly. */
  ghost predicate VolumeOk(disk: Disk, own: Uses, n: nat) {
    && 1 <= n <= NINODES && Placed(own)
    && forall ino: nat :: 1 <= ino < n ==> Good(disk, own, ino)
  }

  ghost function FileOf(disk: Disk, ino: nat): seq<Byte>
    requires ino < NINODES
  {
    FileBytes(disk, NodeOf(disk, ino), NodeOf(disk, ino).size)
  }

  /** No two places of any files are one block. */
  lemma NeverShared(disk: Disk, own: Uses, n: nat, i: nat, p: nat, j: nat, q: nat)
    requires VolumeOk(disk, own, n) && 1 <= i < n && 1 <= j < n && (i != j || p != q)
    requires p < BlocksFor(NodeOf(disk, i).size) && q < BlocksFor(NodeOf(disk, j).size)
    ensures BlockOf(disk, NodeOf(disk, i), p) != BlockOf(disk, NodeOf(disk, j), q)
    ensures DATA_START <= BlockOf(disk, NodeOf(disk, i), p) <= NBLKS
    ensures NodeOf(disk, j).addrs[NDIRECT] != BlockOf(disk, NodeOf(disk, i), p)
  {
    assert Good(disk, own, i) && Good(disk, own, j);
    assert Is(own, BlockOf(disk, NodeOf(disk, i), p), Data(i, p));
    assert Is(own, BlockOf(disk, NodeOf(disk, j), q), Data(j, q));
  }

  // -------------------------------------------------------- changes to one file

  /** Only blocks that are (now) the file's differ, and no block changed hands. */
  ghost predicate OnlyOf(disk: Disk, own: Uses, disk': Disk, own': Uses, ino: nat) {
    && (forall b :: b in own ==> b in own' && own'[b] == own[b])
    && (forall b :: 0 <= b <= NBLKS && disk'[b] != disk[b] ==> b in own' && own'[b].ino == ino)
  }

  lemma OnlyOfRefl(disk: Disk, own: Uses, ino: nat)
    ensures OnlyOf(disk, own, disk, own, ino)
  {
  }

  lemma OnlyOfTrans(d1: Disk, o1: Uses, d2: Disk, o2: Uses, d3: Disk, o3: Uses, ino: nat)
    requires OnlyOf(d1, o1, d2, o2, ino) && OnlyOf(d2, o2, d3, o3, ino)
    ensures OnlyOf(d1, o1, d3, o3, ino)
  {
    forall b | 0 <= b <= NBLKS && d3[b] != d1[b] ensures b in o3 && o3[b].ino == ino {
      if d3[b] == d2[b] {
        assert d2[b] != d1[b];
      }
    }
  }

  /** The blocks of another file, and what they hold, stay. */
  lemma OtherMapped(disk: Disk, own: Uses, disk': Disk, own': Uses, ino: nat, other: nat, node: DInode, nb: nat)
    requires OnlyOf(disk, own, disk', own', ino) && other != ino && Placed(own)
    requires Mapped(disk, own, other, node, nb)
    ensures Mapped(disk', own', other, node, nb)
    ensures forall nth: nat :: nth < MAXBLKS ==> BlockOf(disk', node, nth) == BlockOf(disk, node, nth)
    ensures forall nth: nat :: nth < nb ==> BlockOf(disk, node, nth) <= NBLKS && disk'[BlockOf(disk, node, nth)] == disk[BlockOf(disk, node, nth)]
  {
    hide Entry;
    forall nth: nat | nth < MAXBLKS ensures BlockOf(disk', node, nth) == BlockOf(disk, node, nth) {
    }
    forall nth: nat | nth < nb
      ensures Is(own', BlockOf(disk, node, nth), Data(other, nth)) && BlockOf(disk, node, nth) <= NBLKS
      ensures disk'[BlockOf(disk, node, nth)] == disk[BlockOf(disk, node, nth)]
    {
      assert Is(own, BlockOf(disk, node, nth), Data(other, nth));
    }
  }

  lemma OtherFile(disk: Disk, own: Uses, disk': Disk, own': Uses, ino: nat, other: nat)
    requires OnlyOf(disk, own, disk', own', ino) && other != ino && Placed(own) && other < NINODES
    requires Good(disk, own, other) && NodeOf(disk', other) == NodeOf(disk, other)
    ensures Good(disk', own', other) && FileOf(disk', other) == FileOf(disk, other)
  {
    hide NodeOf, Mapped, BlockOf;
    var node := NodeOf(disk, other);
    OtherMapped(disk, own, disk', own', ino, other, node, BlocksFor(node.size));
    forall k: nat | k < node.size ensures ByteOf(disk', node, k) == ByteOf(disk, node, k) {
      assert k / BSIZE < BlocksFor(node.size);
    }
  }

  // ------------------------------------------------------ the steps of appending

  /** Blocks from free on have never been used, the data blocks before it all have. */
  ghost predicate Bump(disk: Disk, own: Uses, free: nat) {
    && DATA_START <= free <= NBLKS + 1
    && (forall b :: b in own <==> DATA_START <= b < free)
    && (forall b :: free <= b <= NBLKS ==> disk[b] == ZeroBlock())
  }

  lemma TakeDirect(disk: Disk, own: Uses, free: nat, ino: nat, node: DInode, nb: nat)
    requires Bump(disk, own, free) && free <= NBLKS && Mapped(disk, own, ino, node, nb) && nb < NDIRECT
    ensures var node' := node.(addrs := node.addrs[nb := free]);
            var own' := own[free := Data(ino, nb)];
            && Bump(disk, own', free + 1) && Mapped(disk, own', ino, node', nb + 1) && BlockOf(disk, node', nb) == free
            && OnlyOf(disk, own, disk, own', ino)
            && forall nth: nat :: nth < nb ==> BlockOf(disk, node', nth) == BlockOf(disk, node, nth)
  {
    hide Entry;
    var node' := node.(addrs := node.addrs[nb := free]);
    var own' := own[free := Data(ino, nb)];
    assert node.addrs[nb] == 0;
    forall nth: nat | nth < nb + 1 ensures Is(own', BlockOf(disk, node', nth), Data(ino, nth)) {
      if nth < nb {
        assert Is(own, BlockOf(disk, node, nth), Data(ino, nth));
      }
    }
  }

  lemma TakePointers(disk: Disk, own: Uses, free: nat, ino: nat, node: DInode)
    requires Bump(disk, own, free) && free <= NBLKS && Mapped(disk, own, ino, node, NDIRECT) && node.addrs[NDIRECT] == 0
    ensures var node' := node.(addrs := node.addrs[NDIRECT := free]);
            var own' := own[free := Pointers(ino)];
            && Bump(disk, own', free + 1) && Mapped(disk, own', ino, node', NDIRECT)
            && OnlyOf(disk, own, disk, own', ino)
            && forall nth: nat :: nth < NDIRECT ==> BlockOf(disk, node', nth) == BlockOf(disk, node, nth)
  {
    hide Entry;
    var node' := node.(addrs := node.addrs[NDIRECT := free]);
    var own' := own[free := Pointers(ino)];
    forall nth: nat | nth < NDIRECT ensures Is(own', BlockOf(disk, node', nth), Data(ino, nth)) {
      assert Is(own, BlockOf(disk, node, nth), Data(ino, nth));
    }
    forall nth: nat | NDIRECT <= nth < MAXBLKS ensures BlockOf(disk, node', nth) == 0 {
      ZeroEntries(nth - NDIRECT);
    }
  }

  lemma TakeEntry(disk: Disk, own: Uses, free: nat, ino: nat, node: DInode, nb: nat)
    requires Bump(disk, own, free) && free <= NBLKS && Mapped(disk, own, ino, node, nb) && NDIRECT <= nb < MAXBLKS
    requires node.addrs[NDIRECT] != 0
    ensures var p := node.addrs[NDIRECT];
            p <= NBLKS &&
            var disk' := disk[p := SetEntry(disk[p], nb - NDIRECT, free)];
            var own' := own[free := Data(ino, nb)];
            && Bump(disk', own', free + 1) && Mapped(disk', own', ino, node, nb + 1) && BlockOf(disk', node, nb) == free
            && OnlyOf(disk, own, disk', own', ino) && disk'[free] == ZeroBlock()
            && forall nth: nat :: nth < nb ==>
                 BlockOf(disk', node, nth) == BlockOf(disk, node, nth) != p
  {
    hide Entry, SetEntry;
    var p := node.addrs[NDIRECT];
    assert Is(own, p, Pointers(ino));
    var disk': Disk := disk[p := SetEntry(disk[p], nb - NDIRECT, free)];
    var own' := own[free := Data(ino, nb)];
    forall nth: nat | nth < MAXBLKS ensures BlockOf(disk', node, nth) == if nth == nb then free else BlockOf(disk, node, nth) {
      if nth >= NDIRECT {
        EntrySlots(disk[p], nb - NDIRECT, free, nth - NDIRECT);
      }
    }
    forall nth: nat | nth < nb ensures Is(own', BlockOf(disk', node, nth), Data(ino, nth)) && BlockOf(disk', node, nth) != p {
      assert Is(own, BlockOf(disk, node, nth), Data(ino, nth));
    }
  }

  /** Changing the nth block of a file changes its bytes there and moves nothing. */
  lemma PutData(disk: Disk, own: Uses, ino: nat, node: DInode, nb: nat, nth: nat, o: nat, p: seq<Byte>)
    requires Placed(own) && Mapped(disk, own, ino, node, nb) && nth < nb && o + |p| <= BSIZE
    ensures var b := BlockOf(disk, node, nth);
            DATA_START <= b <= NBLKS && b in own &&
            var disk' := disk[b := Splice(disk[b], o, p)];
            && Mapped(disk', own, ino, node, nb) && OnlyOf(disk, own, disk', own, ino)
            && (forall m: nat :: m < MAXBLKS ==> BlockOf(disk', node, m) == BlockOf(disk, node, m))
            && (forall m: nat :: m < nb && m != nth ==> BlockOf(disk, node, m) <= NBLKS && disk'[BlockOf(disk, node, m)] == disk[BlockOf(disk, node, m)])
  {
    hide Entry, Splice;
    var b := BlockOf(disk, node, nth);
    assert Is(own, b, Data(ino, nth));
    var disk': Disk := disk[b := Splice(disk[b], o, p)];
    assert node.addrs[NDIRECT] != 0 ==> Is(own, node.addrs[NDIRECT], Pointers(ino));
    forall m: nat | m < MAXBLKS ensures BlockOf(disk', node, m) == BlockOf(disk, node, m) {
    }
    forall m: nat | m < nb && m != nth ensures BlockOf(disk, node, m) <= NBLKS && disk'[BlockOf(disk, node, m)] == disk[BlockOf(disk, node, m)] {
      assert Is(own, BlockOf(disk, node, m), Data(ino, m));
    }
  }

  /** The bytes of the file after such a change. */
  lemma PutBytes(disk: Disk, own: Uses, ino: nat, node: DInode, nb: nat, nth: nat, o: nat, p: seq<Byte>, k: nat)
    requires Placed(own) && Mapped(disk, own, ino, node, nb) && nth < nb && o + |p| <= BSIZE && k < nb * BSIZE
    requires BlockOf(disk, node, nth) <= NBLKS
    ensures var b := BlockOf(disk, node, nth);
            var disk' := disk[b := Splice(disk[b], o, p)];
            ByteOf(disk', node, k)
              == if nth * BSIZE + o <= k < nth * BSIZE + o + |p| then p[k - nth * BSIZE - o] else ByteOf(disk, node, k)
  {
    hide BlockOf;
    PutData(disk, own, ino, node, nb, nth, o, p);
    var m := k / BSIZE;
    assert k == m * BSIZE + k % BSIZE && m < nb;
    var b := BlockOf(disk, node, nth);
    var disk': Disk := disk[b := Splice(disk[b], o, p)];
    assert BlockOf(disk', node, m) == BlockOf(disk, node, m);
  }

  // ------------------------------------------------------ bytes and inode slots

  ghost predicate SameBytes(disk: Disk, node: DInode, disk': Disk, node': DInode, n: nat) {
    forall k: nat :: k < n ==> ByteOf(disk', node', k) == ByteOf(disk, node, k)
  }

  lemma BlocksSameBytes(disk: Disk, node: DInode, disk': Disk, node': DInode, nb: nat)
    requires forall nth: nat :: nth < nb ==>
               BlockOf(disk', node', nth) == BlockOf(disk, node, nth) && (BlockOf(disk, node, nth) <= NBLKS ==>
                 disk'[BlockOf(disk, node, nth)] == disk[BlockOf(disk, node, nth)])
    ensures SameBytes(disk, node, disk', node', nb * BSIZE)
  {
    hide BlockOf;
    forall k: nat | k < nb * BSIZE ensures ByteOf(disk', node', k) == ByteOf(disk, node, k) {
      assert k / BSIZE < nb;
    }
  }

  function WithNode(disk: Disk, ino: nat, node: DInode): Disk
    requires ino < NINODES
  {
    disk[InodeBlock(ino) := PutNode(disk[InodeBlock(ino)], ino % PER_BLOCK, node)]
  }

  lemma WithNodeReads(disk: Disk, ino: nat, node: DInode, j: nat)
    requires ino < NINODES && j < NINODES
    ensures NodeOf(WithNode(disk, ino, node), j) == if j == ino then node else NodeOf(disk, j)
  {
    if InodeBlock(j) == InodeBlock(ino) {
      NodeSlots(disk[InodeBlock(ino)], ino % PER_BLOCK, node, j % PER_BLOCK);
      assert ino % PER_BLOCK == j % PER_BLOCK ==> ino == j;
    }
  }

  /** Writing an inode moves no file's data. */
  lemma WithNodeKeeps(disk: Disk, own: Uses, ino: nat, node: DInode, j: nat, other: DInode, nb: nat)
    requires ino < NINODES && Placed(own) && Mapped(disk, own, j, other, nb)
    ensures Mapped(WithNode(disk, ino, node), own, j, other, nb)
    ensures SameBytes(disk, other, WithNode(disk, ino, node), other, nb * BSIZE)
  {
    hide Entry, PutNode;
    var disk' := WithNode(disk, ino, node);
    forall nth: nat | nth < MAXBLKS ensures BlockOf(disk', other, nth) == BlockOf(disk, other, nth) {
    }
    forall nth: nat | nth < nb ensures DATA_START <= BlockOf(disk, other, nth) <= NBLKS {
      assert Is(own, BlockOf(disk, other, nth), Data(j, nth));
    }
    BlocksSameBytes(disk, other, disk', other, nb);
  }

  lemma SameFileBytes(disk: Disk, node: DInode, disk': Disk, node': DInode, n: nat, m: nat)
    requires SameBytes(disk, node, disk', node', m) && n <= m
    ensures FileBytes(disk', node', n) == FileBytes(disk, node, n)
  {
    hide ByteOf;
    forall k: nat | k < n ensures ByteOf(disk', node', k) == ByteOf(disk, node, k) {
    }
  }

  lemma OtherNode(disk: Disk, own: Uses, ino: nat, node: DInode, j: nat)
    requires ino < NINODES && j < NINODES && j != ino && Placed(own) && Good(disk, own, j)
    ensures var disk' := WithNode(disk, ino, node);
            Good(disk', own, j) && NodeOf(disk', j) == NodeOf(disk, j) && FileOf(disk', j) == FileOf(disk, j)
  {
    hide Mapped, NodeOf, WithNode, FileBytes;
    WithNodeReads(disk, ino, node, j);
    var other := NodeOf(disk, j);
    var nb := BlocksFor(other.size);
    WithNodeKeeps(disk, own, ino, node, j, other, nb);
    SameFileBytes(disk, other, WithNode(disk, ino, node), other, other.size, nb * BSIZE);
  }

  lemma SizeOnly(disk: Disk, own: Uses, ino: nat, node: DInode, nb: nat, n: Word)
    requires Mapped(disk, own, ino, node, nb)
    ensures Mapped(disk, own, ino, node.(size := n), nb)
    ensures SameBytes(disk, node, disk, node.(size := n), nb * BSIZE)
  {
    var node' := node.(size := n);
    forall nth: nat | nth < MAXBLKS ensures BlockOf(disk, node', nth) == BlockOf(disk, node, nth) {
    }
    forall nth: nat | nth < nb ensures Is(own, BlockOf(disk, node', nth), Data(ino, nth)) {
      assert Is(own, BlockOf(disk, node, nth), Data(ino, nth));
    }
    BlocksSameBytes(disk, node, disk, node', nb);
  }

  lemma InodesKept(disk: Disk, own: Uses, disk': Disk, own': Uses, ino: nat, j: nat)
    requires OnlyOf(disk, own, disk', own', ino) && Placed(own') && j < NINODES
    ensures NodeOf(disk', j) == NodeOf(disk, j)
  {
    assert InodeBlock(j) < DATA_START;
  }

  /** The inode is written last: the file has its new size and bytes, the others are untouched. */
  lemma FlushInode(disk0: Disk, own0: Uses, disk: Disk, own: Uses, n: nat, ino: nat, node: DInode, size: nat)
    requires VolumeOk(disk0, own0, n) && 1 <= ino < n && OnlyOf(disk0, own0, disk, own, ino) && Placed(own)
    requires Mapped(disk, own, ino, node, BlocksFor(size)) && PointersAsNeeded(node, size) && size <= MAXFILE
    ensures var disk' := WithNode(disk, ino, node.(size := size));
            && VolumeOk(disk', own, n)
            && NodeOf(disk', ino) == node.(size := size) && FileOf(disk', ino) == FileBytes(disk, node, size)
            && forall j: nat :: 1 <= j < n && j != ino ==> NodeOf(disk', j) == NodeOf(disk0, j) && FileOf(disk', j) == FileOf(disk0, j)
  {
    hide NodeOf, Mapped, FileBytes, WithNode, OnlyOf;
    var node' := node.(size := size);
    var disk' := WithNode(disk, ino, node');
    var nb := BlocksFor(size);
    SizeOnly(disk, own, ino, node, nb, size);
    WithNodeReads(disk, ino, node', ino);
    WithNodeKeeps(disk, own, ino, node', ino, node', nb);
    SameFileBytes(disk, node, disk, node', size, nb * BSIZE);
    SameFileBytes(disk, node', disk', node', size, nb * BSIZE);
    forall j: nat | 1 <= j < n && j != ino
      ensures Good(disk', own, j) && NodeOf(disk', j) == NodeOf(disk0, j) && FileOf(disk', j) == FileOf(disk0, j)
    {
      InodesKept(disk0, own0, disk, own, ino, j);
      assert Good(disk0, own0, j);
      OtherFile(disk0, own0, disk, own, ino, j);
      OtherNode(disk, own, ino, node', j);
    }
  }

  /** Nothing but the file's data has changed. */
  lemma DataChanged(disk0: Disk, own: Uses, disk: Disk, n: nat, ino: nat)
    requires VolumeOk(disk0, own, n) && 1 <= ino < n && OnlyOf(disk0, own, disk, own, ino)
    requires Mapped(disk, own, ino, NodeOf(disk0, ino), BlocksFor(NodeOf(disk0, ino).size))
    ensures VolumeOk(disk, own, n) && NodeOf(disk, ino) == NodeOf(disk0, ino)
    ensures forall j: nat :: 1 <= j < n && j != ino ==> NodeOf(disk, j) == NodeOf(disk0, j) && FileOf(disk, j) == FileOf(disk0, j)
  {
    hide NodeOf, Mapped, FileBytes, OnlyOf;
    assert Good(disk0, own, ino);
    InodesKept(disk0, own, disk, own, ino, ino);
    forall j: nat | 1 <= j < n && j != ino
      ensures Good(disk, own, j) && NodeOf(disk, j) == NodeOf(disk0, j) && FileOf(disk, j) == FileOf(disk0, j)
    {
      InodesKept(disk0, own, disk, own, ino, j);
      assert Good(disk0, own, j);
      OtherFile(disk0, own, disk, own, ino, j);
    }
  }
}
