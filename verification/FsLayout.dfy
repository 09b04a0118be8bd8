/**
 The disk format that mkfs writes and the kernel reads: blocks, packed inodes, seven to a block, and blocks of pointers.
 */
module FsLayout {
  import opened Mmu
  import opened Bytes

  const BSIZE: nat := 512
  const NBLKS: nat := 1000
  const NINODES: nat := 128
  const NDIRECT: nat := 12
  const NINDIRECT: nat := 128
  const MAXBLKS: nat := 140
  const MAXFILE: nat := 71680
  const DINODE_SZ: nat := 66
  const PER_BLOCK: nat := 7

  const INODE_START: nat := 1
  const BMAP_START: nat := 20
  const DATA_START: nat := 21

  const F_DIR: Word := 1
  const F_FILE: Word := 2

  type Half = x: int | 0 <= x < 0x1_0000
  type Block = b: seq<Byte> | |b| == 512 witness seq(512, i => 0)
  type Addrs = a: seq<Word> | |a| == 13 witness seq(13, i => 0)

  /** The image has a block beyond NBLKS: mkfs clears blocks 0 to NBLKS inclusive. */
  type Disk = d: seq<Block> | |d| == 1001 ghost witness ZeroDisk()

  ghost function ZeroDisk(): seq<Block> {
    seq<Block>(1001, i => ZeroBlock())
  }

  datatype DInode = DInode(ftype: Word, major: Half, minor: Half, nlink: Half, size: Word, addrs: Addrs)

  function ZeroBlock(): Block {
    seq(BSIZE, i => 0)
  }

  /** sbconfig's arithmetic gives these starts. */
  lemma LayoutConstants()
    ensures BSIZE / DINODE_SZ == PER_BLOCK
    ensures BMAP_START == 1 + (NINODES / PER_BLOCK + 1)
    ensures DATA_START == 1 + (NINODES / PER_BLOCK + 1) + (NBLKS / (BSIZE * 8) + 1)
    ensures MAXFILE == (NDIRECT + BSIZE / 4) * BSIZE && MAXBLKS == NDIRECT + NINDIRECT
  {
  }

  // -------------------------------------------------------------- words

  function Le32(w: Word): (s: seq<Byte>) {
    [WordByte(w, 0), WordByte(w, 1), WordByte(w, 2), WordByte(w, 3)]
  }

  function Le16(h: Half): (s: seq<Byte>) {
    [h % 0x100, h / 0x100]
  }

  function Read32(s: seq<Byte>, o: nat): Word
    requires o + 4 <= |s|
  {
    FromBytes(s[o], s[o + 1], s[o + 2], s[o + 3])
  }

  function Read16(s: seq<Byte>, o: nat): Half
    requires o + 2 <= |s|
  {
    var lo: int, hi: int := s[o], s[o + 1];
    lo + 0x100 * hi
  }

  function Words(a: Addrs): (s: seq<Byte>)
    ensures |s| == 52
  {
    seq(52, k requires 0 <= k < 52 => WordByte(a[k / 4], k % 4))
  }

  // -------------------------------------------------------------- inodes

  function Encode(d: DInode): (s: seq<Byte>)
    ensures |s| == DINODE_SZ
  {
    Le32(d.ftype) + Le16(d.major) + Le16(d.minor) + Le16(d.nlink) + Le32(d.size) + Words(d.addrs)
  }

  function Decode(s: seq<Byte>): DInode
    requires |s| == DINODE_SZ
  {
    DInode(Read32(s, 0), Read16(s, 4), Read16(s, 6), Read16(s, 8), Read32(s, 10),
           seq(13, i requires 0 <= i < 13 => Read32(s, 14 + 4 * i)))
  }

  lemma WordsAt(a: Addrs, i: nat)
    requires i < 13
    ensures Read32(Words(a), 4 * i) == a[i]
  {
    hide WordByte;
    assert (4 * i) / 4 == i && (4 * i + 1) / 4 == i && (4 * i + 2) / 4 == i && (4 * i + 3) / 4 == i;
    WordBytesInverse(a[i]);
  }

  /** The packed inode survives the trip through its bytes. */
  lemma InodeRoundTrip(d: DInode)
    ensures Decode(Encode(d)) == d
  {
    hide WordByte, Words;
    var s := Encode(d);
    WordBytesInverse(d.ftype);
    WordBytesInverse(d.size);
    assert s[14..] == Words(d.addrs);
    forall i | 0 <= i < 13 ensures Read32(s, 14 + 4 * i) == d.addrs[i] {
      WordsAt(d.addrs, i);
      var w := Words(d.addrs);
      assert forall k :: 0 <= k < 52 ==> s[14..][k] == s[14 + k];
      assert s[14 + 4 * i] == w[4 * i] && s[14 + 4 * i + 1] == w[4 * i + 1];
      assert s[14 + 4 * i + 2] == w[4 * i + 2] && s[14 + 4 * i + 3] == w[4 * i + 3];
    }
    assert Decode(s).addrs == d.addrs;
  }

  /** Where each field of the packed inode lies, and its width. */
  lemma InodeOffsets(d: DInode, i: nat)
    requires i < 13
    ensures var s := Encode(d);
            && |s| == 4 + 2 + 2 + 2 + 4 + 13 * 4
            && Read32(s, 0) == d.ftype && Read16(s, 4) == d.major && Read16(s, 6) == d.minor && Read16(s, 8) == d.nlink
            && Read32(s, 10) == d.size && Read32(s, 14 + 4 * i) == d.addrs[i]
  {
    hide Encode, Read32, Read16;
    InodeRoundTrip(d);
    assert Decode(Encode(d)).addrs[i] == Read32(Encode(d), 14 + 4 * i);
  }

  /** Part of a block replaced. */
  function Splice(b: Block, o: nat, p: seq<Byte>): (r: Block)
    requires o + |p| <= BSIZE
    ensures forall k :: 0 <= k < BSIZE ==> r[k] == if o <= k < o + |p| then p[k - o] else b[k]
  {
    b[..o] + p + b[o + |p|..]
  }

  function GetNode(b: Block, k: nat): DInode
    requires k < PER_BLOCK
  {
    Decode(b[DINODE_SZ * k..DINODE_SZ * k + DINODE_SZ])
  }

  function PutNode(b: Block, k: nat, d: DInode): Block
    requires k < PER_BLOCK
  {
    Splice(b, DINODE_SZ * k, Encode(d))
  }

  /** Writing one slot of an inode block is read back there and nowhere else. */
  lemma NodeSlots(b: Block, k: nat, d: DInode, j: nat)
    requires k < PER_BLOCK && j < PER_BLOCK
    ensures GetNode(PutNode(b, k, d), j) == if j == k then d else GetNode(b, j)
  {
    hide Encode, Decode;
    var r := PutNode(b, k, d);
    if j == k {
      assert r[DINODE_SZ * k..DINODE_SZ * k + DINODE_SZ] == Encode(d);
      InodeRoundTrip(d);
    } else {
      assert DINODE_SZ * j + DINODE_SZ <= DINODE_SZ * k || DINODE_SZ * k + DINODE_SZ <= DINODE_SZ * j;
      assert r[DINODE_SZ * j..DINODE_SZ * j + DINODE_SZ] == b[DINODE_SZ * j..DINODE_SZ * j + DINODE_SZ];
    }
  }

  // ------------------------------------------------------------ pointer blocks

  function Entry(b: Block, k: nat): Word
    requires k < NINDIRECT
  {
    Read32(b, 4 * k)
  }

  function SetEntry(b: Block, k: nat, w: Word): Block
    requires k < NINDIRECT
  {
    Splice(b, 4 * k, Le32(w))
  }

  lemma EntrySlots(b: Block, k: nat, w: Word, j: nat)
    requires k < NINDIRECT && j < NINDIRECT
    ensures Entry(SetEntry(b, k, w), j) == if j == k then w else Entry(b, j)
  {
    hide WordByte;
    WordBytesInverse(w);
  }

  lemma ZeroEntries(j: nat)
    requires j < NINDIRECT
    ensures Entry(ZeroBlock(), j) == 0
  {
  }
}
