/** The two programs that share the disk format, end to end: mkfs builds the image, the kernel reads it. */
module ImageRoundTrip {
  import opened Mmu
  import opened Bytes
  import opened FsLayout
  import opened Files
  import opened Mkfs
  import opened Inodes

  /** For any order of appends to any files, the kernel reads exactly the slice of what was appended to the file, if the blocks suffice. */
  method BuildAndRead(calls: seq<Call>, inum: nat, offset: Word, sz: Word) returns (ok: bool, r: int, buf: seq<Byte>)
    requires Sensible(calls) && 1 <= inum < |Replay(calls)|
    ensures ok <==> Fits(Replay(calls))
    ensures ok ==>
              var f := Replay(calls)[inum];
              if |f| < offset || 0xffff_ffff - offset < sz then r == -1 && buf == []
              else r == Min(sz, |f| - offset) && buf == f[offset..offset + r]
  {
    var img;
    img, ok := Build(calls);
    if !ok {
      return false, -1, [];
    }
    var vol := new Volume(img.disk, img.own, img.freeino);
    var node := DInode(0, 0, 0, 0, 0, seq(13, i => 0));
    var ino := new Inode(inum, node);
    r, buf := vol.InodeRead(ino, offset, sz);
  }
}
