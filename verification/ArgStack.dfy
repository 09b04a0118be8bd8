/**
 The second half of exec: the argument strings and the words above them, laid out on a
 one-page user stack with a guard page below it.
 */
module ArgStack {
  import opened Wrappers
  import opened Mmu
  import opened Bytes
  import opened Frames
  import opened Palloc
  import opened Pgtbl
  import opened Vmem
  import opened UserMem
  import opened Loader

  const MAXARGS := 32

  /** The words of exec's buffer: three, the pointers, and the null. */
  const BUFFER_WORDS := 3 + MAXARGS + 1

  // ------------------------------------------------------------------ layout

  /** Bytes taken by the first k strings with their terminators. */
  function Used(argv: seq<seq<Byte>>, k: nat): nat
    requires k <= |argv|
  {
    if k == 0 then 0 else Used(argv, k - 1) + |argv[k - 1]| + 1
  }

  /** The whole image: the strings, the null-terminated pointer array and three words. */
  function ImageSize(argv: seq<seq<Byte>>): nat {
    Used(argv, |argv|) + 4 * (|argv| + 4)
  }

  lemma {:induction false} UsedMonotone(argv: seq<seq<Byte>>, k: nat, l: nat)
    requires k <= l <= |argv|
    ensures Used(argv, k) + (l - k) <= Used(argv, l)
    decreases l
  {
    if k < l {
      UsedMonotone(argv, k, l - 1);
    }
  }

  /** Where string k goes. */
  function ArgPtr(top: Word, argv: seq<seq<Byte>>, k: nat): int
    requires k < |argv|
  {
    top - Used(argv, k + 1)
  }

  /** String k lies between the strings placed before and after it. */
  lemma ArgPtrBounds(top: Word, argv: seq<seq<Byte>>, k: nat, l: nat)
    requires k < l <= |argv|
    ensures top - Used(argv, l) <= ArgPtr(top, argv, k)
    ensures ArgPtr(top, argv, k) + |argv[k]| + 1 == top - Used(argv, k) <= top
  {
    UsedMonotone(argv, k + 1, l);
  }

  /** A C string with its terminator. */
  function CStr(s: seq<Byte>): seq<Byte> {
    s + [0]
  }

  /** The page below top is accessible to user code and the page below that is not. */
  ghost predicate Guarded(mem: Mem, d: nat, top: Word)
    requires d < NFRAMES
  {
    && 2 * PAGE_SZ <= top <= KERN_BASE && top % PAGE_SZ == 0
    && (forall a: Word :: top - 2 * PAGE_SZ <= a < top - PAGE_SZ ==> UserFrame(mem, d, a).None?)
    && (forall a: Word :: top - PAGE_SZ <= a < top ==> UserFrame(mem, d, a).Some?)
  }

  /** User code reads the string s at address p. */
  ghost predicate StringAt(mem: Mem, d: nat, p: int, s: seq<Byte>)
    requires d < NFRAMES
  {
    && 0 <= p && p + |s| < WORDS
    && forall a: Word :: p <= a <= p + |s| ==> UserByte(mem, d, a) == Some(CStr(s)[a - p])
  }

  /** The first k strings lie below top, and no byte outside them has changed. */
  ghost predicate ArgsPlaced(mem: Mem, mem': Mem, own: Owners, d: nat, top: Word, argv: seq<seq<Byte>>, k: nat)
    requires d < NFRAMES && k <= |argv|
  {
    && Used(argv, k) <= PAGE_SZ <= top
    && (forall q :: 0 <= q < k ==> StringAt(mem', d, ArgPtr(top, argv, q), argv[q]))
    && (forall a: Word :: !(top - Used(argv, k) <= a < top) ==> UserByte(mem', d, a) == UserByte(mem, d, a))
    && OnlyPagesOf(own, d, mem, mem')
  }

  // ---------------------------------------------------- a write near the guard page

  /** A write that ends below top and inside the stack page succeeds exactly when it starts there too. */
  lemma StackWrite(lay: Layout, mem: Mem, own: Owners, m1: Mem, head: Word, free: seq<nat>, d: nat, top: Word, used: nat,
                   buf: seq<Byte>, sp: Word, done: nat)
    requires Inv(lay, m1, own, head, free) && IsA(own, d, Dir) && d < NFRAMES && Guarded(mem, d, top)
    requires used <= PAGE_SZ && 0 < |buf| < WORDS && sp == Wrap(top - used - |buf|)
    requires UserWrite(mem, m1, own, d, sp, buf, done)
    requires done < |buf| ==> sp + done < WORDS && UserByte(mem, d, sp + done) == None
    ensures done == |buf| <==> used + |buf| <= PAGE_SZ
    ensures used + |buf| <= PAGE_SZ ==> sp == top - used - |buf|
    ensures Guarded(m1, d, top)
  {
    hide PageDirectoryIdx, PageTableIdx, Inv, OnlyPagesOf, UserFrame;
    forall a: Word ensures UserFrame(m1, d, a) == UserFrame(mem, d, a) {
      WriteKeepsAccess(lay, mem, own, m1, head, free, d, sp, buf, done, a);
    }
    if used + |buf| <= PAGE_SZ {
      WrapSmall(top - used - |buf|);
      if done < |buf| {
        FrameByte(lay, mem, own, m1, head, free, d, sp + done);
      }
    } else if done == |buf| {
      WrapSub(top, used + |buf|);
      FrameByte(lay, mem, own, m1, head, free, d, top - PAGE_SZ - 1);
    }
  }

  lemma WrapSmall(x: int)
    requires 0 <= x < WORDS
    ensures Wrap(x) == x
  {
  }

  /** Subtracting past zero wraps to an address that, with the length added back, is past 2^32. */
  lemma WrapSub(top: Word, n: nat)
    requires n < 2 * WORDS
    ensures n <= top ==> Wrap(top - n) == top - n
    ensures top < n <= top + WORDS ==> Wrap(top - n) == top - n + WORDS
    ensures top + WORDS < n ==> Wrap(top - n) == top - n + 2 * WORDS
  {
  }

  lemma FrameByte(lay: Layout, mem: Mem, own: Owners, m1: Mem, head: Word, free: seq<nat>, d: nat, a: Word)
    requires d < NFRAMES && Inv(lay, m1, own, head, free) && IsA(own, d, Dir)
    requires UserFrame(m1, d, a) == UserFrame(mem, d, a)
    ensures UserFrame(mem, d, a).Some? ==> UserByte(mem, d, a).Some?
    ensures UserFrame(mem, d, a).None? ==> UserByte(m1, d, a).None?
  {
    if UserFrame(m1, d, a).Some? {
      UserFrameOwned(lay, m1, own, d, a);
    }
  }

  /** No word of frame 0 passes for a user-accessible entry, so uva2ka is exact everywhere. */
  predicate LowUserFree(mem: Mem) {
    forall j :: 0 <= j < NENTRIES ==> !(Present(mem[0][j]) && IsUser(mem[0][j]))
  }

  lemma LowUserFreeMeaning(mem: Mem, d: nat)
    requires d < NFRAMES && LowUserFree(mem)
    ensures forall a: Word :: AliasFree(mem, d, a)
  {
    forall a: Word ensures AliasFree(mem, d, a) {
      assert !(Present(mem[0][PageTableIdx(a)]) && IsUser(mem[0][PageTableIdx(a)]));
    }
  }

  lemma WriteKeepsLow(lay: Layout, mem: Mem, own: Owners, m1: Mem, head: Word, free: seq<nat>, d: nat)
    requires Inv(lay, m1, own, head, free) && OnlyPagesOf(own, d, mem, m1) && IsA(own, d, Dir) && d < NFRAMES
    ensures m1[0] == mem[0] && m1[d] == mem[d]
  {
    LowFrameUnowned(lay, m1, own, head, free);
  }

  /** The bytes of the device range, at the top of the address space. */
  const DEV_BYTES := WORDS - DEV_SPACE

  /** Every page below top has its table, and so has every page of the device range. */
  ghost predicate TablesAround(mem: Mem, d: nat, top: Word)
    requires d < NFRAMES
  {
    forall a: Word :: a < top || DEV_SPACE <= a ==> mem[d][PageDirectoryIdx(a)] != 0
  }

  /**
   Writing the image of argv below top never meets a word of frame 0 that passes for a user page: either there is none,
   or the tables are there and the image, should it reach below address 0, wraps into the device range at most.
   */
  ghost predicate StackSafe(mem: Mem, d: nat, top: Word, argv: seq<seq<Byte>>)
    requires d < NFRAMES
  {
    LowUserFree(mem) || (TablesAround(mem, d, top) && ImageSize(argv) <= top + DEV_BYTES)
  }

  lemma SafeKept(mem: Mem, m1: Mem, d: nat, top: Word, argv: seq<seq<Byte>>)
    requires d < NFRAMES && StackSafe(mem, d, top, argv) && m1[0] == mem[0] && m1[d] == mem[d]
    ensures StackSafe(m1, d, top, argv)
  {
  }

  /** Where uvm_memcpy writes part of the image, uva2ka is exact. */
  lemma SafeAlias(mem: Mem, d: nat, top: Word, argv: seq<seq<Byte>>, used: nat, n: nat, sp: Word)
    requires d < NFRAMES && StackSafe(mem, d, top, argv) && used + n <= ImageSize(argv) && sp == Wrap(top - used - n)
    ensures forall a: Word :: PageAlignDown(sp) <= a < sp + n ==> AliasFree(mem, d, a)
  {
    hide PageDirectoryIdx, PageTableIdx, PageAlignDown;
    if LowUserFree(mem) {
      LowUserFreeMeaning(mem, d);
    } else if used + n <= top {
      WrapSmall(top - used - n);
    } else {
      WrapSub(top, used + n);
      DeviceStart(sp);
    }
  }

  lemma DeviceStart(a: Word)
    requires DEV_SPACE <= a
    ensures DEV_SPACE <= PageAlignDown(a)
  {
  }

  lemma UsedInImage(argv: seq<seq<Byte>>, k: nat)
    requires k <= |argv|
    ensures Used(argv, k) <= ImageSize(argv)
  {
    UsedMonotone(argv, k, |argv|);
  }

  lemma OnlyPagesTrans(own: Owners, d: nat, m0: Mem, m1: Mem, m2: Mem)
    requires OnlyPagesOf(own, d, m0, m1) && OnlyPagesOf(own, d, m1, m2)
    ensures OnlyPagesOf(own, d, m0, m2)
  {
  }

  /** A string outside the written range keeps its bytes. */
  lemma StringKept(m1: Mem, m2: Mem, own: Owners, d: nat, p: int, str: seq<Byte>, sp: Word, buf: seq<Byte>, n: nat)
    requires d < NFRAMES && StringAt(m1, d, p, str) && UserWrite(m1, m2, own, d, sp, buf, n) && sp + n <= p
    ensures StringAt(m2, d, p, str)
  {
    hide UserByte, OnlyPagesOf;
  }

  lemma StringWritten(m1: Mem, m2: Mem, own: Owners, d: nat, sp: Word, str: seq<Byte>)
    requires d < NFRAMES && UserWrite(m1, m2, own, d, sp, CStr(str), |str| + 1)
    ensures StringAt(m2, d, sp, str)
  {
    hide UserByte, OnlyPagesOf;
  }

  lemma ArgPtrIs(top: Word, argv: seq<seq<Byte>>, k: nat)
    requires k < |argv|
    ensures ArgPtr(top, argv, k) == top - Used(argv, k + 1)
  {
  }

  lemma UsedStep(argv: seq<seq<Byte>>, k: nat)
    requires k < |argv|
    ensures Used(argv, k + 1) == Used(argv, k) + |argv[k]| + 1
  {
  }

  /** One more string below those already placed. */
  lemma ArgStep(mem: Mem, m1: Mem, m2: Mem, own: Owners, d: nat, top: Word, argv: seq<seq<Byte>>, k: nat, sp: Word)
    requires d < NFRAMES && k < |argv| && top <= KERN_BASE
    requires ArgsPlaced(mem, m1, own, d, top, argv, k)
    requires Used(argv, k + 1) <= PAGE_SZ && sp == top - Used(argv, k + 1)
    requires UserWrite(m1, m2, own, d, sp, CStr(argv[k]), |argv[k]| + 1)
    ensures ArgsPlaced(mem, m2, own, d, top, argv, k + 1)
  {
    hide UserByte, StringAt, Used, ArgPtr, OnlyPagesOf, CStr;
    ArgPtrBounds(top, argv, k, k + 1);
    StringWritten(m1, m2, own, d, sp, argv[k]);
    ArgPtrIs(top, argv, k);
    OnlyPagesTrans(own, d, mem, m1, m2);
    UsedStep(argv, k);
    forall q | 0 <= q < k + 1 ensures StringAt(m2, d, ArgPtr(top, argv, q), argv[q]) {
      if q < k {
        ArgPtrBounds(top, argv, q, k);
        StringKept(m1, m2, own, d, ArgPtr(top, argv, q), argv[q], sp, CStr(argv[k]), |argv[k]| + 1);
      }
    }
  }

  /** exec's loop over argv: copies each string below the last and records where it went. It lets 33 strings pass. */
  method CopyArgs(m: Memory, d: nat, top: Word, argv: seq<seq<Byte>>) returns (ok: bool, sp: Word, ptrs: seq<Word>)
    requires m.Valid() && IsA(m.own, d, Dir) && d < NFRAMES && Guarded(m.frames, d, top) && StackSafe(m.frames, d, top, argv)
    requires forall k :: 0 <= k < |argv| ==> |argv[k]| < WORDS - 1
    modifies m
    ensures m.Valid() && m.own == old(m.own) && m.free == old(m.free) && Guarded(m.frames, d, top)
    ensures OnlyPagesOf(m.own, d, old(m.frames), m.frames) && StackSafe(m.frames, d, top, argv)
    ensures ok <==> |argv| <= MAXARGS + 1 && Used(argv, |argv|) <= PAGE_SZ
    ensures ok ==>
              && ArgsPlaced(old(m.frames), m.frames, m.own, d, top, argv, |argv|)
              && sp == top - Used(argv, |argv|)
              && |ptrs| == |argv| && forall k :: 0 <= k < |argv| ==> ptrs[k] == ArgPtr(top, argv, k)
  {
    hide PageDirectoryIdx, PageTableIdx, Inv, UserFrame, UserByte, OnlyPagesOf, StackSafe, AliasFree, Guarded, PageAlignDown;
    sp, ptrs := top, [];
    var argc := 0;
    GuardedBounds(m.frames, m.own, d, top, argv);
    while argc < |argv|
      invariant 0 <= argc <= |argv| && argc <= MAXARGS + 1 && |ptrs| == argc
      invariant m.Valid() && m.own == old(m.own) && m.free == old(m.free) && Guarded(m.frames, d, top)
      invariant StackSafe(m.frames, d, top, argv)
      invariant ArgsPlaced(old(m.frames), m.frames, m.own, d, top, argv, argc) && sp == top - Used(argv, argc)
      invariant forall k :: 0 <= k < argc ==> ptrs[k] == ArgPtr(top, argv, k)
    {
      ArgsOnly(old(m.frames), m.frames, m.own, d, top, argv, argc);
      if argc > MAXARGS {
        return false, sp, ptrs;
      }
      ghost var mem := m.frames;
      var str := CStr(argv[argc]);
      sp := Wrap(sp - |str|);
      UsedStep(argv, argc);
      UsedInImage(argv, argc + 1);
      SafeAlias(mem, d, top, argv, Used(argv, argc), |str|, sp);
      var copied, done := UvmMemcpy(m, d, sp, str);
      StackWrite(m.lay, mem, m.own, m.frames, m.freelist, m.free, d, top, Used(argv, argc), str, sp, done);
      OnlyWrites(mem, m.frames, m.own, d, sp, str, done);
      OnlyPagesTrans(m.own, d, old(m.frames), mem, m.frames);
      WriteKeepsLow(m.lay, mem, m.own, m.frames, m.freelist, m.free, d);
      SafeKept(mem, m.frames, d, top, argv);
      UsedMonotone(argv, argc + 1, |argv|);
      if !copied {
        return false, sp, ptrs;
      }
      ArgStep(old(m.frames), mem, m.frames, m.own, d, top, argv, argc, sp);
      ptrs := ptrs + [sp];
      argc := argc + 1;
    }
    ArgsOnly(old(m.frames), m.frames, m.own, d, top, argv, argc);
    ok := true;
  }

  lemma GuardedBounds(mem: Mem, own: Owners, d: nat, top: Word, argv: seq<seq<Byte>>)
    requires d < NFRAMES && Guarded(mem, d, top)
    ensures 2 * PAGE_SZ <= top <= KERN_BASE && ArgsPlaced(mem, mem, own, d, top, argv, 0)
  {
  }

  // --------------------------------------------------------------- the word block

  /** The bytes of a block of little-endian words. */
  function WordsToBytes(ws: seq<Word>): (bs: seq<Byte>)
    ensures |bs| == 4 * |ws|
  {
    seq(4 * |ws|, o requires 0 <= o < 4 * |ws| => WordByte(ws[o / 4], o % 4))
  }

  /** The word user code reads at address a, which need not be aligned. */
  ghost function UserWord(mem: Mem, d: nat, a: Word): Option<Word>
    requires d < NFRAMES && a + 3 < WORDS
  {
    if UserByte(mem, d, a).Some? && UserByte(mem, d, a + 1).Some? && UserByte(mem, d, a + 2).Some? && UserByte(mem, d, a + 3).Some?
    then Some(FromBytes(UserByte(mem, d, a).value, UserByte(mem, d, a + 1).value,
                        UserByte(mem, d, a + 2).value, UserByte(mem, d, a + 3).value))
    else None
  }

  lemma WordsReadBack(mem: Mem, m1: Mem, own: Owners, d: nat, sp: Word, ws: seq<Word>, k: nat)
    requires d < NFRAMES && k < |ws| && sp + 4 * |ws| <= KERN_BASE
    requires UserWrite(mem, m1, own, d, sp, WordsToBytes(ws), 4 * |ws|)
    ensures UserWord(m1, d, sp + 4 * k) == Some(ws[k])
  {
    hide WordByte, UserByte, FromBytes, WordsToBytes, OnlyPagesOf;
    var bs: seq<Byte>, a: Word := WordsToBytes(ws), sp + 4 * k;
    WordBytesInverse(ws[k]);
    ByteOfWords(ws, k, 0);
    ByteOfWords(ws, k, 1);
    ByteOfWords(ws, k, 2);
    ByteOfWords(ws, k, 3);
    assert UserByte(m1, d, a) == Some(bs[a - sp]);
    assert UserByte(m1, d, a + 1) == Some(bs[a + 1 - sp]);
    assert UserByte(m1, d, a + 2) == Some(bs[a + 2 - sp]);
    assert UserByte(m1, d, a + 3) == Some(bs[a + 3 - sp]);
  }

  lemma ByteOfWords(ws: seq<Word>, k: nat, b: nat)
    requires k < |ws| && b < 4
    ensures WordsToBytes(ws)[4 * k + b] == WordByte(ws[k], b)
  {
    assert (4 * k + b) / 4 == k && (4 * k + b) % 4 == b;
  }

  /**
   The stack a new program finds at sp: a return address that cannot be returned to, argc,
   a pointer to the argv array just above, the array with its null, and the strings.
   */
  ghost predicate StackImage(mem: Mem, d: nat, sp: Word, top: Word, argv: seq<seq<Byte>>)
    requires d < NFRAMES
  {
    && top - PAGE_SZ <= sp && sp + ImageSize(argv) == top <= KERN_BASE && sp + 4 * (|argv| + 4) <= top
    && UserWord(mem, d, sp) == Some(0xffff_ffff)
    && UserWord(mem, d, sp + 4) == Some(|argv|)
    && UserWord(mem, d, sp + 8) == Some(sp + 12)
    && UserWord(mem, d, sp + 12 + 4 * |argv|) == Some(0)
    && forall k :: 0 <= k < |argv| ==> ArgAt(mem, d, sp, top, argv, k)
  }

  /** Entry k of the argv array of the stack at sp points to string k, which lies between the array and top. */
  ghost predicate ArgAt(mem: Mem, d: nat, sp: Word, top: Word, argv: seq<seq<Byte>>, k: nat)
    requires d < NFRAMES && k < |argv| && sp + 12 + 4 * |argv| < WORDS
  {
    && sp + 12 + 4 * (|argv| + 1) <= ArgPtr(top, argv, k) && ArgPtr(top, argv, k) + |argv[k]| < top
    && UserWord(mem, d, sp + 12 + 4 * k) == Some(ArgPtr(top, argv, k))
    && StringAt(mem, d, ArgPtr(top, argv, k), argv[k])
  }

  /** The words of exec's buffer for a stack at sp. */
  function Buffer(argc: Word, sp: Word, ptrs: seq<Word>): seq<Word>
    requires sp + 12 < WORDS
  {
    [0xffff_ffff, argc, sp + 12] + ptrs + [0]
  }

  lemma ArgBuilt(m1: Mem, m2: Mem, own: Owners, d: nat, top: Word, argv: seq<seq<Byte>>, ptrs: seq<Word>, sp: Word, k: nat)
    requires d < NFRAMES && top <= KERN_BASE && ImageSize(argv) <= PAGE_SZ && sp == top - ImageSize(argv) && k < |argv|
    requires |ptrs| == |argv| && ptrs[k] == ArgPtr(top, argv, k)
    requires StringAt(m1, d, ArgPtr(top, argv, k), argv[k])
    requires UserWrite(m1, m2, own, d, sp, WordsToBytes(Buffer(|argv|, sp, ptrs)), 4 * (|argv| + 4))
    ensures ArgAt(m2, d, sp, top, argv, k)
  {
    hide UserByte, UserWord, StringAt, UserWrite, WordsToBytes, Used, ArgPtr;
    var ws := Buffer(|argv|, sp, ptrs);
    assert ws[3 + k] == ptrs[k] && |ws| == |argv| + 4;
    WordsReadBack(m1, m2, own, d, sp, ws, 3 + k);
    ArgPtrBounds(top, argv, k, |argv|);
    StringKept(m1, m2, own, d, ArgPtr(top, argv, k), argv[k], sp, WordsToBytes(ws), 4 * (|argv| + 4));
  }

  /** The word block placed below the strings completes the image. */
  lemma ImageBuilt(mem: Mem, m1: Mem, m2: Mem, own: Owners, d: nat, top: Word, argv: seq<seq<Byte>>, ptrs: seq<Word>, sp: Word)
    requires d < NFRAMES && top <= KERN_BASE && |argv| <= MAXARGS && ImageSize(argv) <= PAGE_SZ && sp == top - ImageSize(argv)
    requires ArgsPlaced(mem, m1, own, d, top, argv, |argv|)
    requires |ptrs| == |argv| && forall k :: 0 <= k < |argv| ==> ptrs[k] == ArgPtr(top, argv, k)
    requires UserWrite(m1, m2, own, d, sp, WordsToBytes(Buffer(|argv|, sp, ptrs)), 4 * (|argv| + 4))
    ensures StackImage(m2, d, sp, top, argv)
    ensures forall a: Word :: !(top - PAGE_SZ <= a < top) ==> UserByte(m2, d, a) == UserByte(mem, d, a)
  {
    hide UserByte, UserWord, Used, ArgPtr, StringAt, ArgAt, WordsToBytes, OnlyPagesOf;
    var ws := Buffer(|argv|, sp, ptrs);
    assert |ws| == |argv| + 4 && ws[0] == 0xffff_ffff && ws[1] == |argv| && ws[2] == sp + 12 && ws[3 + |argv|] == 0;
    WordsReadBack(m1, m2, own, d, sp, ws, 0);
    WordsReadBack(m1, m2, own, d, sp, ws, 1);
    WordsReadBack(m1, m2, own, d, sp, ws, 2);
    WordsReadBack(m1, m2, own, d, sp, ws, 3 + |argv|);
    forall k | 0 <= k < |argv| ensures ArgAt(m2, d, sp, top, argv, k) {
      ArgBuilt(m1, m2, own, d, top, argv, ptrs, sp, k);
    }
  }

  /**
   Builds the initial stack of argv under top. It succeeds exactly when there are at most
   32 strings and the image fits the stack page; a larger image runs into the guard page.
   */
  method BuildStack(m: Memory, d: nat, top: Word, argv: seq<seq<Byte>>) returns (ok: bool, sp: Word)
    requires m.Valid() && IsA(m.own, d, Dir) && d < NFRAMES && Guarded(m.frames, d, top) && StackSafe(m.frames, d, top, argv)
    requires forall k :: 0 <= k < |argv| ==> |argv[k]| < WORDS - 1
    requires |argv| != MAXARGS + 1
    modifies m
    ensures m.Valid() && m.own == old(m.own) && m.free == old(m.free) && Guarded(m.frames, d, top)
    ensures m.frames[0] == old(m.frames)[0] && m.frames[d] == old(m.frames)[d]
    ensures ok <==> |argv| <= MAXARGS && ImageSize(argv) <= PAGE_SZ
    ensures ok ==> StackImage(m.frames, d, sp, top, argv)
    ensures ok ==> forall a: Word :: !(top - PAGE_SZ <= a < top) ==> UserByte(m.frames, d, a) == UserByte(old(m.frames), d, a)
    ensures OnlyPagesOf(m.own, d, old(m.frames), m.frames)
  {
    hide PageDirectoryIdx, PageTableIdx, Inv, UserFrame, UserByte, OnlyPagesOf, StackSafe, AliasFree, Guarded, PageAlignDown,
         WordByte, ArgsPlaced, UserWrite, StackImage;
    GuardedBounds(m.frames, m.own, d, top, argv);
    var ptrs;
    ok, sp, ptrs := CopyArgs(m, d, top, argv);
    WriteKeepsLow(m.lay, old(m.frames), m.own, m.frames, m.freelist, m.free, d);
    if !ok {
      return;
    }
    ghost var mem := m.frames;
    var argc := |argv|;
    // buffer[2] = sp - (argc + 1) * 4
    var base: Word := Wrap(sp - (argc + 1) * 4);
    sp := Wrap(sp - (3 + argc + 1) * 4);
    WrapSmall(top - Used(argv, argc) - (argc + 1) * 4);
    WrapSmall(top - Used(argv, argc) - (argc + 4) * 4);
    var buffer: seq<Word> := [0xffff_ffff, argc, base] + ptrs + [0];
    assert ImageSize(argv) <= PAGE_SZ ==> base == sp + 12;
    var bytes := WordsToBytes(buffer);
    SafeAlias(mem, d, top, argv, Used(argv, argc), |bytes|, sp);
    ghost var done;
    ok, done := UvmMemcpy(m, d, sp, bytes);
    StackWrite(m.lay, mem, m.own, m.frames, m.freelist, m.free, d, top, Used(argv, argc), bytes, sp, done);
    OnlyWrites(mem, m.frames, m.own, d, sp, bytes, done);
    OnlyPagesTrans(m.own, d, old(m.frames), mem, m.frames);
    WriteKeepsLow(m.lay, mem, m.own, m.frames, m.freelist, m.free, d);
    if ok {
      assert buffer == Buffer(|argv|, sp, ptrs);
      ImageBuilt(old(m.frames), mem, m.frames, m.own, d, top, argv, ptrs, sp);
    }
  }

  /** The null after the pointers is inside exec's buffer exactly for at most 32 strings; the loop accepts one more. */
  lemma TerminatorIndex(argv: seq<seq<Byte>>)
    ensures 3 + |argv| < BUFFER_WORDS <==> |argv| <= MAXARGS
    ensures |argv| == MAXARGS + 1 ==> 3 + |argv| == BUFFER_WORDS
  {
  }

  lemma ArgsOnly(mem: Mem, m1: Mem, own: Owners, d: nat, top: Word, argv: seq<seq<Byte>>, k: nat)
    requires d < NFRAMES && k <= |argv| && ArgsPlaced(mem, m1, own, d, top, argv, k)
    ensures OnlyPagesOf(own, d, mem, m1)
  {
  }
}
