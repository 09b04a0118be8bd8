/**
 mkfs: inodes and blocks handed out by two bump counters, inodes kept by read-modify-write of their block, and files
 built by appending.
 */
module Mkfs {
  import opened Mmu
  import opened Bytes
  import opened FsLayout
  import opened Files

  /** How many blocks the nth block of a file takes, if nb are mapped. */
  function Cost(node: DInode, nb: nat, nth: nat): nat {
    if nth < nb then 0 else if nth < NDIRECT || node.addrs[NDIRECT] != 0 then 1 else 2
  }

  /** How many blocks it takes for the file to grow from off bytes to end. */
  function Need(node: DInode, off: nat, end: nat): int {
    BlocksFor(end) - BlocksFor(off) + if node.addrs[NDIRECT] == 0 && NDIRECT < BlocksFor(end) then 1 else 0
  }

  /** What is new in the inode is only where its blocks are. */
  predicate SameFile(node: DInode, node': DInode) {
    node'.ftype == node.ftype && node'.major == node.major && node'.minor == node.minor && node'.nlink == node.nlink
  }

  class Image {
    var disk: Disk
    var freeino: nat
    var freeblock: nat
    ghost var own: Uses

    ghost predicate Valid()
      reads this
    {
      VolumeOk(disk, own, freeino) && Bump(disk, own, freeblock)
    }

    /** The cleared image with its counters set by sbconfig. */
    constructor ()
      ensures Valid() && freeino == 1 && freeblock == DATA_START
    {
      disk := seq<Block>(NBLKS + 1, i => ZeroBlock());
      freeino, freeblock := 1, DATA_START;
      own := map[];
    }

    /** iappend finds or takes a direct block; reading a block past the image ends the program. */
    method MapDirect(ino: nat, node: DInode, nth: nat, ghost nb: nat) returns (ok: bool, node': DInode, fb: Word)
      requires Bump(disk, own, freeblock) && Mapped(disk, own, ino, node, nb) && nb - 1 <= nth <= nb && nth < NDIRECT
      modifies this
      ensures freeino == old(freeino)
      ensures ok <==> old(freeblock) + Cost(node, nb, nth) <= NBLKS + 1
      ensures ok ==> freeblock == old(freeblock) + Cost(node, nb, nth)
      ensures ok ==> Bump(disk, own, freeblock) && Mapped(disk, own, ino, node', nth + 1)
      ensures ok ==> OnlyOf(old(disk), old(own), disk, own, ino) && BlockOf(disk, node', nth) == fb <= NBLKS
      ensures ok ==> SameBytes(old(disk), node, disk, node', nb * BSIZE) && SameFile(node, node')
      ensures ok ==> (node'.addrs[NDIRECT] == 0 <==> node.addrs[NDIRECT] == 0 && nth < NDIRECT)
    {
      hide Bump, OnlyOf, Entry, SameBytes;
      node' := node;
      BumpFacts(disk, own, freeblock);
      OnlyOfRefl(disk, own, ino);
      MappedFacts(disk, own, ino, node, nb, nth);
      ghost var disk0 := disk;
      if node'.addrs[nth] == 0 {
        if freeblock <= NBLKS {
          TakeDirect(disk, own, freeblock, ino, node, nb);
          own := own[freeblock := Data(ino, nth)];
        }
        node' := node'.(addrs := node'.addrs[nth := freeblock]);
        freeblock := freeblock + 1;
      }
      fb := node'.addrs[nth];
      ok := fb <= NBLKS;
      if ok {
        BlocksSameBytes(disk0, node, disk, node', nb);
      }
    }

    /** iappend finds or takes the block of pointers, and a block through it. */
    method MapIndirect(ino: nat, node: DInode, nth: nat, ghost nb: nat) returns (ok: bool, node': DInode, fb: Word)
      requires Bump(disk, own, freeblock) && Mapped(disk, own, ino, node, nb) && nb - 1 <= nth <= nb && NDIRECT <= nth < MAXBLKS
      modifies this
      ensures freeino == old(freeino)
      ensures ok <==> old(freeblock) + Cost(node, nb, nth) <= NBLKS + 1
      ensures ok ==> freeblock == old(freeblock) + Cost(node, nb, nth)
      ensures ok ==> Bump(disk, own, freeblock) && Mapped(disk, own, ino, node', nth + 1)
      ensures ok ==> OnlyOf(old(disk), old(own), disk, own, ino) && BlockOf(disk, node', nth) == fb <= NBLKS
      ensures ok ==> SameBytes(old(disk), node, disk, node', nb * BSIZE) && SameFile(node, node')
      ensures ok ==> (node'.addrs[NDIRECT] == 0 <==> node.addrs[NDIRECT] == 0 && nth < NDIRECT)
    {
      hide Bump, OnlyOf, Entry, SetEntry, SameBytes;
      node' := node;
      BumpFacts(disk, own, freeblock);
      OnlyOfRefl(disk, own, ino);
      ghost var disk0, own0 := disk, own;
      if node.addrs[NDIRECT] != 0 {
        PointersOwned(disk, own, ino, node, nb);
      }
      if node'.addrs[NDIRECT] == 0 {
        if freeblock <= NBLKS {
          TakePointers(disk, own, freeblock, ino, node);
          own := own[freeblock := Pointers(ino)];
        }
        node' := node'.(addrs := node'.addrs[NDIRECT := freeblock]);
        freeblock := freeblock + 1;
      }
      var p := node'.addrs[NDIRECT];
      if p > NBLKS {
        return false, node', 0;
      }
      BumpFacts(disk, own, freeblock);
      PointersOwned(disk, own, ino, node', nb);
      MappedFacts(disk, own, ino, node', nb, nth);
      if Entry(disk[p], nth - NDIRECT) == 0 {
        ghost var disk1, own1 := disk, own;
        if freeblock <= NBLKS {
          TakeEntry(disk, own, freeblock, ino, node', nb);
          own := own[freeblock := Data(ino, nth)];
        }
        disk := disk[p := SetEntry(disk[p], nth - NDIRECT, freeblock)];
        EntrySlots(disk1[p], nth - NDIRECT, freeblock, nth - NDIRECT);
        freeblock := freeblock + 1;
        if freeblock <= NBLKS + 1 {
          OnlyOfTrans(disk0, own0, disk1, own1, disk, own, ino);
        }
      }
      fb := Entry(disk[p], nth - NDIRECT);
      ok := fb <= NBLKS;
      if ok {
        BlocksSameBytes(disk0, node, disk, node', nb);
      }
    }

    /** One round of iappend's loop: part goes where the file ends, within one block. */
    method AppendPart(ino: nat, node: DInode, off: nat, part: seq<Byte>) returns (ok: bool, node': DInode)
      requires Bump(disk, own, freeblock) && Mapped(disk, own, ino, node, BlocksFor(off))
      requires 0 < |part| <= BSIZE - off % BSIZE && off + |part| <= MAXFILE
      modifies this
      ensures freeino == old(freeino)
      ensures ok <==> old(freeblock) + Need(node, off, off + |part|) <= NBLKS + 1
      ensures ok ==> freeblock == old(freeblock) + Need(node, off, off + |part|)
      ensures ok ==> Bump(disk, own, freeblock) && Mapped(disk, own, ino, node', BlocksFor(off + |part|))
      ensures ok ==> OnlyOf(old(disk), old(own), disk, own, ino) && SameFile(node, node')
      ensures ok ==> FileBytes(disk, node', off + |part|) == FileBytes(old(disk), node, off) + part
      ensures ok ==> (node'.addrs[NDIRECT] == 0 <==> node.addrs[NDIRECT] == 0 && BlocksFor(off + |part|) <= NDIRECT)
    {
      hide Bump, OnlyOf, Mapped, BlockOf, SameBytes, Splice;
      var nth := off / BSIZE;
      ghost var nb := BlocksFor(off);
      ghost var disk0, own0 := disk, own;
      LastBlock(off, |part|);
      NeedIsCost(disk, own, ino, node, off, |part|);
      var fb: Word;
      if nth < NDIRECT {
        ok, node', fb := MapDirect(ino, node, nth, nb);
      } else {
        ok, node', fb := MapIndirect(ino, node, nth, nb);
      }
      if ok {
        ghost var disk1, own1 := disk, own;
        BumpFacts(disk, own, freeblock);
        PutData(disk, own, ino, node', nth + 1, nth, off % BSIZE, part);
        disk := disk[fb := Splice(disk[fb], off % BSIZE, part)];
        OnlyOfTrans(disk0, own0, disk1, own1, disk, own, ino);
        BumpPut(disk1, own, freeblock, fb, disk[fb]);
        AppendedBytes(disk0, node, disk1, own, ino, node', off, part);
      }
    }

    method IRead(ino: nat) returns (node: DInode)
      requires ino < NINODES
      ensures node == NodeOf(disk, ino)
    {
      var buf := disk[InodeBlock(ino)];
      node := GetNode(buf, ino % PER_BLOCK);
    }

    method IWrite(ino: nat, node: DInode)
      requires ino < NINODES
      modifies this
      ensures disk == WithNode(old(disk), ino, node)
      ensures freeino == old(freeino) && freeblock == old(freeblock) && own == old(own)
    {
      var bn := InodeBlock(ino);
      var buf := disk[bn];
      buf := PutNode(buf, ino % PER_BLOCK, node);
      disk := disk[bn := buf];
    }

    /** A new, empty file in a slot of its own. */
    method IAlloc(ftype: Word) returns (inum: nat)
      requires Valid() && freeino < NINODES
      modifies this
      ensures Valid() && inum == old(freeino) && freeino == inum + 1 && freeblock == old(freeblock)
      ensures NodeOf(disk, inum) == DInode(ftype, 0, 0, 1, 0, seq(13, i => 0)) && FileOf(disk, inum) == []
      ensures forall j: nat :: 1 <= j < inum ==> NodeOf(disk, j) == NodeOf(old(disk), j) && FileOf(disk, j) == FileOf(old(disk), j)
    {
      hide NodeOf, Mapped, FileOf, WithNode, Bump, Good;
      inum := freeino;
      freeino := freeino + 1;
      var node := DInode(ftype, 0, 0, 1, 0, seq(13, i => 0));
      IWrite(inum, node);
      BumpNode(old(disk), own, freeblock, inum, node);
      NewFile(old(disk), own, inum, node);
      forall j: nat | 1 <= j < inum
        ensures Good(disk, own, j) && NodeOf(disk, j) == NodeOf(old(disk), j) && FileOf(disk, j) == FileOf(old(disk), j)
      {
        OtherNode(old(disk), own, inum, node, j);
      }
    }

    /** The bytes go to the end of the one file, and the program ends exactly if the image has no room for them. */
    method IAppend(ino: nat, p: seq<Byte>) returns (ok: bool)
      requires Valid() && 1 <= ino < freeino && NodeOf(disk, ino).size + |p| <= MAXFILE
      modifies this
      ensures freeino == old(freeino)
      ensures ok <==> old(freeblock) + Need(NodeOf(old(disk), ino), NodeOf(old(disk), ino).size, NodeOf(old(disk), ino).size + |p|) <= NBLKS + 1
      ensures ok ==> Valid() && freeblock == old(freeblock) + Need(NodeOf(old(disk), ino), NodeOf(old(disk), ino).size, NodeOf(old(disk), ino).size + |p|)
      ensures ok ==> FileOf(disk, ino) == FileOf(old(disk), ino) + p && SameFile(NodeOf(old(disk), ino), NodeOf(disk, ino))
      ensures ok ==> forall j: nat :: 1 <= j < freeino && j != ino ==>
                       NodeOf(disk, j) == NodeOf(old(disk), j) && FileOf(disk, j) == FileOf(old(disk), j)
    {
      hide NodeOf, Mapped, FileBytes, WithNode, Bump, OnlyOf, BlocksFor;
      assert Good(disk, own, ino);
      var node := IRead(ino);
      var off, done: nat := node.size, 0;
      var end := off + |p|;
      ghost var disk0, own0, node0 := disk, own, node;
      OnlyOfRefl(disk, own, ino);
      while done < |p|
        invariant done <= |p| && off == node0.size + done && freeino == old(freeino)
        invariant Bump(disk, own, freeblock) && Mapped(disk, own, ino, node, BlocksFor(off))
        invariant OnlyOf(disk0, own0, disk, own, ino) && SameFile(node0, node)
        invariant FileBytes(disk, node, off) == FileBytes(disk0, node0, node0.size) + p[..done]
        invariant freeblock + Need(node, off, end) == old(freeblock) + Need(node0, node0.size, end)
        invariant PointersAsNeeded(node, off)
      {
        var room := BSIZE - off % BSIZE;
        var realn := if |p| - done < room then |p| - done else room;
        var part := p[done..done + realn];
        ghost var disk1, own1, node1 := disk, own, node;
        NeedGrows(node, off, off + realn, end);
        ok, node := AppendPart(ino, node, off, part);
        if !ok {
          return;
        }
        NeedSplits(node1, node, off, off + realn, end);
        BlocksMonotone(off, off + realn);
        OnlyOfTrans(disk0, own0, disk1, own1, disk, own, ino);
        off, done := off + realn, done + realn;
        assert p[..done] == p[..done - realn] + part;
      }
      assert p[..done] == p;
      NeedZero(disk, own, ino, node, end);
      BumpFacts(disk, own, freeblock);
      ok := true;
      FlushInode(disk0, own0, disk, own, freeino, ino, node, off);
      node := node.(size := off);
      BumpNode(disk, own, freeblock, ino, node);
      IWrite(ino, node);
    }
  }

  // ------------------------------------------------------- any order of calls

  /** What mkfs does, in whatever order. */
  datatype Call = NewInode(ftype: Word) | Append(ino: nat, p: seq<Byte>)

  /** The files the calls build, by inode number: each the concatenation of what was appended to it. Slot 0 is unused. */
  function Replay(calls: seq<Call>): (files: seq<seq<Byte>>)
    ensures |files| >= 1
  {
    if calls == [] then [[]]
    else
      var files := Replay(calls[..|calls| - 1]);
      match calls[|calls| - 1]
      case NewInode(_) => files + [[]]
      case Append(ino, p) => if ino < |files| then files[ino := files[ino] + p] else files
  }

  /** Appends go to files that exist and stay within a file's largest size; there are enough inode slots. */
  predicate Sensible(calls: seq<Call>) {
    calls == [] ||
    (var before := Replay(calls[..|calls| - 1]);
     && Sensible(calls[..|calls| - 1])
     && match calls[|calls| - 1]
        case NewInode(ftype) => |before| < NINODES && (ftype == F_DIR || ftype == F_FILE)
        case Append(ino, p) => 1 <= ino < |before| && |before[ino]| + |p| <= MAXFILE)
  }

  ghost predicate Holds(disk: Disk, files: seq<seq<Byte>>) {
    && |files| <= NINODES
    && forall ino: nat :: 1 <= ino < |files| ==>
         && FileOf(disk, ino) == files[ino] && NodeOf(disk, ino).size == |files[ino]|
         && (NodeOf(disk, ino).ftype == F_DIR || NodeOf(disk, ino).ftype == F_FILE)
  }

  /** The blocks a file of n bytes takes, its block of pointers included. */
  function FileBlocks(n: nat): nat {
    BlocksFor(n) + if NDIRECT < BlocksFor(n) then 1 else 0
  }

  /** The blocks all the files take. */
  function BlocksOf(files: seq<seq<Byte>>): nat {
    if files == [] then 0 else BlocksOf(files[..|files| - 1]) + FileBlocks(|files[|files| - 1]|)
  }

  /** The data blocks of the image suffice for the files. */
  predicate Fits(files: seq<seq<Byte>>) {
    DATA_START + BlocksOf(files) <= NBLKS + 1
  }

  /**
   Whatever the interleaving, every file of the image is the concatenation of its appends; and the image is built
   exactly if its blocks suffice for the files.
   */
  method Build(calls: seq<Call>) returns (img: Image, ok: bool)
    requires Sensible(calls)
    ensures fresh(img)
    ensures ok <==> Fits(Replay(calls))
    ensures ok ==> img.Valid() && img.freeino == |Replay(calls)| && Holds(img.disk, Replay(calls))
  {
    hide NodeOf, FileOf, Bump, VolumeOk, Holds, BlocksOf, FileBlocks, Need, Replay, Sensible;
    img := new Image();
    ok := true;
    var k := 0;
    ReplayNone(calls);
    HoldsNone(img.disk);
    NoBlocks();
    while k < |calls|
      invariant 0 <= k <= |calls| && fresh(img) && ok
      invariant img.Valid() && img.freeino == |Replay(calls[..k])| && Holds(img.disk, Replay(calls[..k]))
      invariant img.freeblock == DATA_START + BlocksOf(Replay(calls[..k]))
    {
      ReplayStep(calls, k);
      ghost var before := img.disk;
      match calls[k] {
        case NewInode(ftype) =>
          var inum := img.IAlloc(ftype);
          HoldsNew(before, img.disk, Replay(calls[..k]), inum);
          BlocksOfMore(Replay(calls[..k]), []);
          NoBlocks();
        case Append(ino, p) =>
          HoldsSize(img.disk, Replay(calls[..k]), ino);
          NeedOfFile(img.disk, img.own, img.freeino, ino, |p|);
          BlocksOfUpdate(Replay(calls[..k]), ino, Replay(calls[..k])[ino] + p);
          ok := img.IAppend(ino, p);
          if !ok {
            BlocksGrow(calls, k + 1);
            return;
          }
          HoldsAppend(before, img.disk, Replay(calls[..k]), ino, p);
      }
      k := k + 1;
    }
    assert calls[..k] == calls;
    BumpFacts(img.disk, img.own, img.freeblock);
  }

  // ------------------------------------------------------------ counting blocks

  lemma NoBlocks()
    ensures BlocksOf([[]]) == 0 && FileBlocks(0) == 0
  {
    var none: seq<seq<Byte>> := [[]];
    assert none[..0] == [];
  }

  lemma BlocksOfMore(files: seq<seq<Byte>>, f: seq<Byte>)
    ensures BlocksOf(files + [f]) == BlocksOf(files) + FileBlocks(|f|)
  {
    assert (files + [f])[..|files|] == files;
  }

  lemma {:induction false} BlocksOfUpdate(files: seq<seq<Byte>>, i: nat, f: seq<Byte>)
    requires i < |files|
    ensures BlocksOf(files[i := f]) == BlocksOf(files) - FileBlocks(|files[i]|) + FileBlocks(|f|)
  {
    var n := |files| - 1;
    if i == n {
      assert files[i := f][..n] == files[..n];
    } else {
      BlocksOfUpdate(files[..n], i, f);
      assert files[i := f][..n] == files[..n][i := f];
    }
  }

  lemma NeedOfFile(disk: Disk, own: Uses, n: nat, ino: nat, more: nat)
    requires VolumeOk(disk, own, n) && 1 <= ino < n
    ensures var node := NodeOf(disk, ino);
            Need(node, node.size, node.size + more) == FileBlocks(node.size + more) - FileBlocks(node.size)
  {
    hide NodeOf, Mapped;
    assert Good(disk, own, ino);
    BlocksMonotone(NodeOf(disk, ino).size, NodeOf(disk, ino).size + more);
  }

  /** Later calls never need fewer blocks. */
  lemma {:induction false} BlocksGrow(calls: seq<Call>, k: nat)
    requires k <= |calls|
    ensures BlocksOf(Replay(calls[..k])) <= BlocksOf(Replay(calls))
    decreases |calls|
  {
    var n := |calls| - 1;
    if k == |calls| {
      assert calls[..k] == calls;
    } else {
      BlocksGrow(calls[..n], k);
      assert calls[..n][..k] == calls[..k];
      var files := Replay(calls[..n]);
      match calls[n] {
        case NewInode(_) => BlocksOfMore(files, []);
        case Append(ino, p) =>
          if ino < |files| {
            BlocksOfUpdate(files, ino, files[ino] + p);
            BlocksMonotone(|files[ino]|, |files[ino] + p|);
          }
      }
    }
  }

  // ------------------------------------------------------------ the files so far

  lemma SizeOfFile(disk: Disk, ino: nat)
    requires ino < NINODES
    ensures |FileOf(disk, ino)| == NodeOf(disk, ino).size
  {
  }

  lemma HoldsNone(disk: Disk)
    ensures Holds(disk, [[]])
  {
  }

  lemma HoldsSize(disk: Disk, files: seq<seq<Byte>>, ino: nat)
    requires Holds(disk, files) && 1 <= ino < |files|
    ensures NodeOf(disk, ino).size == |files[ino]|
  {
    hide NodeOf, FileOf;
  }

  lemma HoldsNew(disk: Disk, disk': Disk, files: seq<seq<Byte>>, inum: nat)
    requires Holds(disk, files) && inum == |files| < NINODES && FileOf(disk', inum) == []
    requires NodeOf(disk', inum).ftype == F_DIR || NodeOf(disk', inum).ftype == F_FILE
    requires forall j: nat :: 1 <= j < inum ==> NodeOf(disk', j) == NodeOf(disk, j) && FileOf(disk', j) == FileOf(disk, j)
    ensures Holds(disk', files + [[]])
  {
    hide NodeOf, FileOf;
    SizeOfFile(disk', inum);
  }

  lemma HoldsAppend(disk: Disk, disk': Disk, files: seq<seq<Byte>>, ino: nat, p: seq<Byte>)
    requires Holds(disk, files) && 1 <= ino < |files|
    requires FileOf(disk', ino) == FileOf(disk, ino) + p && SameFile(NodeOf(disk, ino), NodeOf(disk', ino))
    requires forall j: nat :: 1 <= j < |files| && j != ino ==> NodeOf(disk', j) == NodeOf(disk, j) && FileOf(disk', j) == FileOf(disk, j)
    ensures Holds(disk', files[ino := files[ino] + p])
  {
    hide NodeOf, FileOf;
    SizeOfFile(disk', ino);
  }

  lemma ReplayNone(calls: seq<Call>)
    ensures Replay(calls[..0]) == [[]]
  {
  }

  /** What the next call does to the files, and that it may be made. */
  lemma ReplayStep(calls: seq<Call>, k: nat)
    requires Sensible(calls) && k < |calls|
    ensures var before := Replay(calls[..k]);
            match calls[k]
            case NewInode(ftype) =>
              |before| < NINODES && (ftype == F_DIR || ftype == F_FILE) && Replay(calls[..k + 1]) == before + [[]]
            case Append(ino, p) =>
              && 1 <= ino < |before| && |before[ino]| + |p| <= MAXFILE
              && Replay(calls[..k + 1]) == before[ino := before[ino] + p]
  {
    SensiblePrefix(calls, k + 1);
    assert calls[..k + 1][..k] == calls[..k] && calls[..k + 1][k] == calls[k];
  }

  lemma {:induction false} SensiblePrefix(calls: seq<Call>, k: nat)
    requires Sensible(calls) && k <= |calls|
    ensures Sensible(calls[..k])
    decreases |calls|
  {
    if k < |calls| {
      SensiblePrefix(calls[..|calls| - 1], k);
      assert calls[..|calls| - 1][..k] == calls[..k];
    } else {
      assert calls[..k] == calls;
    }
  }

  // --------------------------------------------------------------- proofs

  lemma BumpNode(disk: Disk, own: Uses, free: nat, ino: nat, node: DInode)
    requires Bump(disk, own, free) && ino < NINODES
    ensures Bump(WithNode(disk, ino, node), own, free)
  {
    hide PutNode;
  }

  lemma NewFile(disk: Disk, own: Uses, ino: nat, node: DInode)
    requires ino < NINODES && node.size == 0 && node.addrs == seq(13, i => 0)
    ensures var disk' := WithNode(disk, ino, node);
            Good(disk', own, ino) && NodeOf(disk', ino) == node && FileOf(disk', ino) == []
  {
    hide NodeOf, WithNode;
    WithNodeReads(disk, ino, node, ino);
  }

  lemma NeedZero(disk: Disk, own: Uses, ino: nat, node: DInode, end: nat)
    requires Mapped(disk, own, ino, node, BlocksFor(end))
    ensures Need(node, end, end) == 0
  {
  }

  lemma NeedGrows(node: DInode, off: nat, mid: nat, end: nat)
    requires off <= mid <= end
    ensures Need(node, off, mid) <= Need(node, off, end)
  {
  }

  lemma NeedSplits(node: DInode, node': DInode, off: nat, mid: nat, end: nat)
    requires off <= mid <= end
    requires node'.addrs[NDIRECT] == 0 <==> node.addrs[NDIRECT] == 0 && BlocksFor(mid) <= NDIRECT
    ensures Need(node, off, end) == Need(node, off, mid) + Need(node', mid, end)
  {
  }

  lemma LastBlock(off: nat, n: nat)
    requires 0 < n <= BSIZE - off % BSIZE && off + n <= MAXFILE
    ensures off / BSIZE < MAXBLKS && BlocksFor(off + n) == off / BSIZE + 1
    ensures BlocksFor(off) == if off % BSIZE == 0 then off / BSIZE else off / BSIZE + 1
  {
  }

  lemma NeedIsCost(disk: Disk, own: Uses, ino: nat, node: DInode, off: nat, n: nat)
    requires 0 < n <= BSIZE - off % BSIZE && off + n <= MAXFILE && Mapped(disk, own, ino, node, BlocksFor(off))
    ensures Need(node, off, off + n) == Cost(node, BlocksFor(off), off / BSIZE)
  {
    LastBlock(off, n);
  }

  lemma BumpPut(disk: Disk, own: Uses, free: nat, b: Word, data: Block)
    requires Bump(disk, own, free) && b in own && b <= NBLKS
    ensures Bump(disk[b := data], own, free)
  {
  }

  lemma AppendedBytes(disk0: Disk, node: DInode, disk1: Disk, own: Uses, ino: nat, node': DInode, off: nat, part: seq<Byte>)
    requires 0 < |part| <= BSIZE - off % BSIZE && off + |part| <= MAXFILE && Placed(own)
    requires Mapped(disk1, own, ino, node', off / BSIZE + 1) && BlockOf(disk1, node', off / BSIZE) <= NBLKS
    requires SameBytes(disk0, node, disk1, node', BlocksFor(off) * BSIZE)
    ensures var fb := BlockOf(disk1, node', off / BSIZE);
            FileBytes(disk1[fb := Splice(disk1[fb], off % BSIZE, part)], node', off + |part|) == FileBytes(disk0, node, off) + part
  {
    hide Mapped, BlockOf, ByteOf, Splice;
    var fb, nth, o := BlockOf(disk1, node', off / BSIZE), off / BSIZE, off % BSIZE;
    var disk2: Disk := disk1[fb := Splice(disk1[fb], o, part)];
    assert nth * BSIZE + o == off;
    forall k: nat | k < off + |part|
      ensures ByteOf(disk2, node', k) == if k < off then ByteOf(disk0, node, k) else part[k - off]
    {
      PutBytes(disk1, own, ino, node', nth + 1, nth, o, part, k);
    }
  }

  /** A mapped block lies in the data area; the first unmapped one is 0. */
  lemma MappedFacts(disk: Disk, own: Uses, ino: nat, node: DInode, nb: nat, nth: nat)
    requires Mapped(disk, own, ino, node, nb) && Placed(own) && nth <= nb && nth < MAXBLKS
    ensures nth < nb ==> DATA_START <= BlockOf(disk, node, nth) <= NBLKS
    ensures nth == nb ==> BlockOf(disk, node, nth) == 0
  {
    if nth < nb {
      assert Is(own, BlockOf(disk, node, nth), Data(ino, nth));
    }
  }

  lemma PointersOwned(disk: Disk, own: Uses, ino: nat, node: DInode, nb: nat)
    requires Mapped(disk, own, ino, node, nb) && node.addrs[NDIRECT] != 0 && Placed(own)
    ensures DATA_START <= node.addrs[NDIRECT] <= NBLKS && forall nth: nat :: nth < nb ==> BlockOf(disk, node, nth) != node.addrs[NDIRECT]
  {
    forall nth: nat | nth < nb ensures BlockOf(disk, node, nth) != node.addrs[NDIRECT] {
      assert Is(own, BlockOf(disk, node, nth), Data(ino, nth));
    }
  }

  lemma BumpFacts(disk: Disk, own: Uses, free: nat)
    requires Bump(disk, own, free)
    ensures DATA_START <= free <= NBLKS + 1 && Placed(own)
  {
  }
}
