// The file system above the buffer cache: alloc and free (ken/alloc.c), bmap (ken/subr.c),
// readi, writei and iomove (ken/rdwri.c) and itrunc (ken/iget.c), one call at a time.
//
// disk is the logical disk that the buffer cache presents: bread returns the block last
// given to bwrite, bawrite or bdwrite (proved in CacheView.dfy). held is the set of
// blocks whose buffers the caller is holding: asking for one of them again would sleep
// for ever, so getblk and bread require that it is not held.
module FileSystem {
  import opened Machine
  import opened FreeChain
  import opened BlockTree
  import opened UserIo
  import opened FlatFile
  import opened Truncate

  const EFBIG := 27
  const ENOSPC := 28

  // A buffer whose extra word is zero.
  predicate Padded(buf: seq<Byte>) {
    |buf| == BUFFER_SIZE && WordAt(buf, WORDS) == 0
  }

  function Data(buf: seq<Byte>): Block
    requires |buf| == BUFFER_SIZE
  {
    buf[..BLOCK_SIZE]
  }

  lemma DataOfPutWord(buf: seq<Byte>, k: nat, w: nat)
    requires Padded(buf) && k < WORDS && w < 0x1_0000
    ensures Padded(PutWord(buf, k, w))
    ensures Data(PutWord(buf, k, w)) == PutWord(Data(buf), k, w)
  {
  }

  lemma SpliceData(buf: seq<Byte>, at: nat, chunk: seq<Byte>)
    requires Padded(buf) && at + |chunk| <= BLOCK_SIZE
    ensures Padded(Splice(buf, at, chunk))
    ensures Data(Splice(buf, at, chunk)) == Splice(Data(buf), at, chunk)
  {
  }

  // A whole block is overwritten whatever it held.
  lemma SpliceWhole(a: Block, b: Block, chunk: seq<Byte>)
    requires |chunk| == BLOCK_SIZE
    ensures Splice(a, 0, chunk) == Splice(b, 0, chunk)
  {
  }

  // min of ken/rdwri.c.
  function Min(a: nat, b: nat): nat {
    if a < b then a else b
  }

  function Max(a: int, b: int): int {
    if a > b then a else b
  }

  // The bytes that one pass of readi or writei can move at this offset.
  function ChunkSize(offset: Offset, count: nat): (n: nat)
    ensures count > 0 ==> 0 < n <= count && offset % 512 + n <= 512
  {
    Min(512 - offset % 512, count)
  }

  // The number of blocks that a transfer still has to visit.
  function BlocksLeft(offset: Offset, count: nat): nat {
    if count == 0 then 0 else (offset % 512 + count + 511) / 512
  }

  // The number of blocks that bmap allocates to map logical block bn.
  function Need(d: Disk, n: InodeValue, bn: nat): nat
    requires |n.addr| == 8
  {
    if !n.large && bn < 8 then
      if n.addr[bn] == 0 then 1 else 0
    else if !n.large then
      if bn < WORDS then 2 else if bn < 7 * WORDS then 3 else 4
    else if bn < 7 * WORDS then
      if n.addr[bn / WORDS] == 0 then 2 else if MapOf(d, n, bn) == 0 then 1 else 0
    else
      if n.addr[7] == 0 then 3
      else if EntryPtr(d, n, 7, bn / WORDS - 7) == 0 then 2
      else if MapOf(d, n, bn) == 0 then 1 else 0
  }

  lemma SlotNumber(bn: nat)
    requires bn < 0x8000
    ensures RootSlot(bn) == if bn / 2048 != 0 then 7 else bn / 256
    ensures RootSlot(bn) == 7 ==> bn / 256 % 256 - 7 == bn / WORDS - 7 >= 0
    ensures RootSlot(bn) == 7 ==> bn / WORDS - 7 < WORDS
  {
  }

  // The slot of a large file that leads to logical block bn.
  function RootSlot(bn: nat): (i: nat)
    ensures i < 8
  {
    if bn < 7 * WORDS then bn / WORDS else 7
  }

  lemma NeedLarge(d: Disk, n: InodeValue, bn: nat)
    requires |n.addr| == 8 && n.large
    ensures var i := RootSlot(bn);
            && (n.addr[i] == 0 ==> Need(d, n, bn) == if i == 7 then 3 else 2)
            && (n.addr[i] != 0 && PointerBlock(d, n, bn) == 0 ==> i == 7 && Need(d, n, bn) == 2)
            && (n.addr[i] != 0 && PointerBlock(d, n, bn) != 0 ==>
                  Need(d, n, bn) == if MapOf(d, n, bn) == 0 then 1 else 0)
            && PointerBlock(d, n, bn) == if i == 7 then EntryPtr(d, n, 7, bn / WORDS - 7) else n.addr[i]
  {
  }

  lemma NeedAtMostFour(d: Disk, n: InodeValue, bn: nat)
    requires |n.addr| == 8
    ensures Need(d, n, bn) <= 4
  {
  }

  function Last(chain: seq<nat>): nat {
    if chain == [] then 0 else chain[|chain| - 1]
  }

  lemma LastOfTail(d: Disk, lo: nat, list: seq<nat>, chain: seq<nat>)
    requires FreeListOk(d, lo, list, chain)
    ensures |chain| > 1 ==> Last(chain[1..]) == Last(chain) != chain[0]
  {
  }

  // The block to read ahead: that of the next logical block, if its number stands next to that
  // of bn.
  function Following(d: Disk, n: InodeValue, bn: nat): nat
    requires |n.addr| == 8
  {
    if (if n.large then bn % WORDS == WORDS - 1 else bn >= 7) then 0 else MapOf(d, n, bn + 1)
  }

  // bmap makes a large file of a small one, and slot 0 is the one that it goes on in; then it
  // does not mark the inode.
  predicate Converts(n: InodeValue, bn: nat) {
    !n.large && 8 <= bn < 256
  }

  // Of these, the block taken by the small-to-large conversion, which is written at once.
  function NeedConvert(n: InodeValue, bn: nat): nat {
    if !n.large && bn >= 8 then 1 else 0
  }

  // The conversion takes one of the blocks that are needed.
  lemma NeedConverted(d: Disk, n: InodeValue, d': Disk, n': InodeValue, bn: nat)
    requires |n.addr| == |n'.addr| == 8 && !n.large && n'.large && 8 <= bn < 0x8000
    requires n'.addr[0] != 0 && (forall i :: 1 <= i < 8 ==> n'.addr[i] == 0) && MapOf(d', n', bn) == 0
    ensures Need(d, n, bn) == 1 + Need(d', n', bn)
  {
  }

  lemma NeedSmall(d: Disk, n: InodeValue, bn: nat)
    requires |n.addr| == 8 && !n.large && 8 <= bn
    ensures Need(d, n, bn) >= 2
  {
  }

  // A write of the bytes area[base..base + count] at off, of which written are done.
  ghost predicate Progress(s: Fs, s': Fs, n: Inode, area: seq<Byte>, off: Offset, base: nat, count: nat,
                           written: seq<Byte>, off': Offset, base': nat, count': nat)
  {
    && s'.t.Keys == s.t.Keys && n in s.t
    && base' == base + |written| && count' + |written| == count && off' == Dpadd(off, |written|)
    && base' + count' <= |area| && written == area[base..base']
    && OthersKept(s, s', n)
    && (off + count < MAX_FILE ==> Written(s, s', n, off, written))
    && (|s.chain| >= 4 * (count / 512 + 2) ==> |s'.chain| >= 4 * BlocksLeft(off', count'))
  }

  lemma ProgressStart(s: Fs, n: Inode, area: seq<Byte>, off: Offset, base: nat, count: nat)
    requires n in s.t && (forall m :: m in s.t ==> |s.t[m].addr| == 8) && base + count <= |area|
    ensures Progress(s, s, n, area, off, base, count, [], off, base, count)
  {
    OthersKeptReflexive(s, n);
    WrittenNothing(s, n, off);
  }

  lemma ProgressFacts(s: Fs, s': Fs, n: Inode, area: seq<Byte>, off: Offset, base: nat, count: nat,
                      written: seq<Byte>, off': Offset, base': nat, count': nat)
    requires Progress(s, s', n, area, off, base, count, written, off', base', count')
    ensures base' == base + |written| && count' + |written| == count && off' == Dpadd(off, |written|)
    ensures base' <= |area| && written == area[base..base'] && OthersKept(s, s', n)
    ensures off + count < MAX_FILE ==> Written(s, s', n, off, written)
  {
  }

  // Another block written.
  lemma ProgressStep(s: Fs, s1: Fs, s2: Fs, n: Inode, area: seq<Byte>, off: Offset, base: nat, count: nat,
                     written: seq<Byte>, off1: Offset, base1: nat, count1: nat, chunk: seq<Byte>)
    requires Progress(s, s1, n, area, off, base, count, written, off1, base1, count1)
    requires s.t[n].size < MAX_FILE && count1 > 0
    requires OthersKept(s1, s2, n) && |s2.chain| + 4 >= |s1.chain|
    requires |chunk| == ChunkSize(off1, count1) && chunk == area[base1..base1 + |chunk|]
    requires |s1.t[n].addr| == 8 && |s2.t[n].addr| == 8 && s1.t[n].size < MAX_FILE
    requires Overlaid(s1, s2, n, 512 * BlockNumber(off1) + off1 % 512, chunk)
    requires var off2 := Dpadd(off1, |chunk|);
             s2.t[n].size == if Dpcmp(s1.t[n].size, off2) < 0 then StoredSize(off2) else s1.t[n].size
    ensures Progress(s, s2, n, area, off, base, count, written + chunk,
                     Dpadd(off1, |chunk|), base1 + |chunk|, count1 - |chunk|)
  {
    hide Overlaid, Dpcmp, BlockNumber, OthersKept, Dpadd, Written;
    DpaddAdd(off, |written|, |chunk|);
    DpaddAdd(off, |written|, 0);
    DpaddAdd(off, |written| + |chunk|, 0);
    OthersKeptTransitive(s, s1, s2, n);
    if off + count < MAX_FILE {
      WrittenStep(s, s1, s2, n, off, written, chunk, Dpadd(off1, |chunk|));
    }
    BlocksLeftStep(off1, count1);
  }

  lemma BlocksLeftStep(off: Offset, count: nat)
    requires count > 0
    ensures var n := ChunkSize(off, count);
            BlocksLeft(off, count) == BlocksLeft(Dpadd(off, n), count - n) + 1
  {
    var n := ChunkSize(off, count);
    if n == 512 - off % 512 {
      assert Dpadd(off, n) % 512 == 0;
    }
  }

  // Below 2^24 no block number overflows.
  lemma InRange(off: Offset, count: nat, done: nat)
    requires done <= count
    ensures off + count < MAX_FILE ==> BlockNumber(Dpadd(off, done)) < 0x8000
  {
  }

  // A write that stops because nothing more can be allocated.
  lemma ProgressStop(s: Fs, s1: Fs, s2: Fs, n: Inode, area: seq<Byte>, off: Offset, base: nat, count: nat,
                     written: seq<Byte>, off1: Offset, base1: nat, count1: nat)
    requires Progress(s, s1, n, area, off, base, count, written, off1, base1, count1)
    requires Keeps(s1, s2) && OthersKept(s1, s2, n)
    ensures OthersKept(s, s2, n)
    ensures off + count < MAX_FILE ==> Written(s, s2, n, off, written)
  {
    OthersKeptTransitive(s, s1, s2, n);
    if off + count < MAX_FILE {
      WrittenKept(s, s1, s2, n, off, written);
    }
  }

  // An offset that the two-word compare gets right (see OffsetsWrap).
  predicate InReach(off: Offset, size: nat) {
    off <= size + 0x8000_0000
  }

  // A read of count bytes at off into area[base..], of which got are done.
  ghost predicate Reading(s: Fs, s': Fs, n: Inode, area: seq<Byte>, off: Offset, base: nat, count: nat,
                          got: seq<Byte>, area': seq<Byte>, off': Offset, base': nat, count': nat)
  {
    && Keeps(s, s') && n in s.t && |s.t[n].addr| == 8
    && base' == base + |got| && count' + |got| == count && off' == Dpadd(off, |got|)
    && base' + count' <= |area| && area' == Splice(area, base, got)
    && (InReach(off, s.t[n].size) ==> BytesAt(s, n, off, got) && (got == [] || off + |got| <= s.t[n].size))
    && (InReach(off, s.t[n].size) && |s.chain| >= 4 * (count / 512 + 2) ==>
          off' >= s.t[n].size || |s'.chain| >= 4 * BlocksLeft(off', count'))
  }

  lemma ReadingStart(s: Fs, n: Inode, area: seq<Byte>, off: Offset, base: nat, count: nat)
    requires Sound(s) && n in s.t && base + count <= |area|
    ensures Reading(s, s, n, area, off, base, count, [], area, off, base, count)
  {
    KeepsReflexive(s, n, 0);
    assert Splice(area, base, []) == area;
  }

  // Another block read, of n bytes or up to the end of the file.
  lemma ReadingStep(s: Fs, s1: Fs, s2: Fs, n: Inode, area: seq<Byte>, off: Offset, base: nat, count: nat,
                    got: seq<Byte>, area1: seq<Byte>, off1: Offset, base1: nat, count1: nat, more: seq<Byte>)
    requires Reading(s, s1, n, area, off, base, count, got, area1, off1, base1, count1)
    requires Keeps(s1, s2) && s.t[n].size < MAX_FILE && count1 > 0
    requires |s2.chain| + 4 >= |s1.chain| && more != []
    requires |more| == Min(ChunkSize(off1, count1), Max(0, Dpcmp(s.t[n].size, off1)))
    requires BytesAt(s1, n, 512 * BlockNumber(off1) + off1 % 512, more)
    ensures Reading(s, s2, n, area, off, base, count, got + more, Splice(area1, base1, more),
                    Dpadd(off1, |more|), base1 + |more|, count1 - |more|)
  {
    hide BlockOf, Keeps, Dpadd;
    DpaddAdd(off, |got|, |more|);
    KeepsTransitive(s, s1, s2);
    SpliceAppend(area, base, got, more);
    if InReach(off, s.t[n].size) {
      assert off1 == off + |got| by { DpaddAdd(off, |got|, 0); }
      DpcmpExact(s.t[n].size, off1);
      BlockNumberExact(off1);
      KeptBytesAt(s, s1, n, off1, more);
      BytesAppend(s, n, off, got, more);
      DpaddAdd(off1, |more|, 0);
    }
    if |more| == ChunkSize(off1, count1) {
      BlocksLeftStep(off1, count1);
    }
  }

  lemma SpliceAppend(s: seq<Byte>, at: nat, a: seq<Byte>, b: seq<Byte>)
    requires at + |a| + |b| <= |s|
    ensures Splice(Splice(s, at, a), at + |a|, b) == Splice(s, at, a + b)
  {
  }

  lemma ReadingFacts(s: Fs, s': Fs, n: Inode, area: seq<Byte>, off: Offset, base: nat, count: nat,
                     got: seq<Byte>, area': seq<Byte>, off': Offset, base': nat, count': nat)
    requires Reading(s, s', n, area, off, base, count, got, area', off', base', count')
    ensures base' == base + |got| && count' + |got| == count && off' == Dpadd(off, |got|)
    ensures Keeps(s, s') && base + count <= |area| && area' == Splice(area, base, got)
  {
  }

  // A read from an offset in reach stays there.
  lemma SmallOffsets(s: Fs, n: Inode, off: Offset, done: nat, off1: Offset)
    requires n in s.t && s.t[n].size < MAX_FILE && off1 == Dpadd(off, done)
    requires InReach(off, s.t[n].size) ==> done == 0 || off + done <= s.t[n].size
    ensures InReach(off, s.t[n].size) && Dpcmp(s.t[n].size, off1) > 0 ==>
              off1 < s.t[n].size && BlockNumber(off1) < 0x8000
    ensures InReach(off, s.t[n].size) && Dpcmp(s.t[n].size, off1) <= 0 ==> off1 >= s.t[n].size
    ensures InReach(off, s.t[n].size) && off1 >= s.t[n].size ==> Dpcmp(s.t[n].size, off1) <= 0
  {
    if InReach(off, s.t[n].size) {
      DpaddAdd(off, done, 0);
      DpcmpExact(s.t[n].size, off1);
    }
  }

  // Where a read may stop: at the count, or at the end of the file.
  lemma ReadingStop(s: Fs, s1: Fs, s2: Fs, n: Inode, area: seq<Byte>, off: Offset, base: nat, count: nat,
                    got: seq<Byte>, area1: seq<Byte>, off1: Offset, base1: nat, count1: nat)
    requires Reading(s, s1, n, area, off, base, count, got, area1, off1, base1, count1)
    requires Keeps(s1, s2) && s.t[n].size < MAX_FILE
    ensures Keeps(s, s2)
    ensures InReach(off, s.t[n].size) ==> got <= FlatRead(Contents(s.d, s.t[n]), off, count)
    ensures InReach(off, s.t[n].size) && (count1 == 0 || Dpcmp(s.t[n].size, off1) <= 0) ==>
              got == FlatRead(Contents(s.d, s.t[n]), off, count)
  {
    KeepsTransitive(s, s1, s2);
    if InReach(off, s.t[n].size) {
      DpaddAdd(off, |got|, 0);
      DpcmpExact(s.t[n].size, off1);
      BytesAreFlatRead(s, n, off, count, got);
    }
  }

  lemma DataSlice(buf: seq<Byte>, on: nat, n: nat)
    requires |buf| == BUFFER_SIZE && on + n <= BLOCK_SIZE
    ensures buf[on..on + n] == Data(buf)[on..on + n]
  {
  }

  class FileSys {
    const lo: nat            // s_isize + 2, the first block of the data area
    var disk: Disk           // s_fsize blocks
    var nfree: nat           // s_nfree
    var free: seq<nat>       // s_free[100]
    const inodes: set<Inode>
    const u: User
    const oddBuffers: bool   // whether the cache's buffers lie at odd addresses
    var rablock: nat
    ghost var held: set<nat>
    ghost var asked: seq<nat>   // the blocks that breada was to read ahead
    ghost var damaged: bool  // a pointer block was released unwritten (see Bmap)
    ghost var stale: nat     // which block that is
    ghost var chain: seq<nat>   // the free blocks, in the order alloc hands them out
    ghost var fs: Fs            // the state of all the fields below, as one value

    // The free list alone.
    ghost predicate FreeReady()
      reads this
    {
      |free| == NICFREE && nfree <= NICFREE && FreeListOk(disk, lo, free[..nfree], chain)
    }

    // fs mirrors the fields of this object and of the inodes.
    ghost predicate Mirrored()
      reads this, inodes
    {
      && nfree <= |free|
      && fs.d == disk && fs.lo == lo && fs.list == free[..nfree] && fs.chain == chain
      && fs.t.Keys == inodes && forall n :: n in inodes ==> fs.t[n] == n.Value()
    }

    // In the middle of bmap: pointer block b is held, with contents buf that the disk may
    // not have yet. fs is the state with b written.
    ghost predicate Pending(b: nat, buf: seq<Byte>)
      reads this, inodes
    {
      && FreeReady() && Sound(fs) && NothingLoose(fs) && held == {b} && !damaged
      && b < |disk| && b !in chain && Padded(buf) && fs.d == disk[b := Data(buf)]
      && fs.lo == lo && fs.list == free[..nfree] && fs.chain == chain
      && fs.t.Keys == inodes && forall n :: n in inodes ==> fs.t[n] == n.Value()
    }

    // After the damage: fs is the state that writing the zeroed block stale would have given.
    ghost predicate Stale(ip: Inode)
      reads this
    {
      Sound(fs) && NothingLoose(fs) && IsStale(fs, disk, ip, stale)
    }

    // In the middle of itrunc: slot i of ip still holds its number, but fs no longer counts
    // it; what is below it is loose.
    ghost predicate Truncating(ip: Inode, i: nat)
      reads this, inodes
    {
      && FreeReady() && Sound(fs) && !damaged && ip in inodes
      && fs.d == disk && fs.lo == lo && fs.list == free[..nfree] && fs.chain == chain
      && fs.t.Keys == inodes && (forall n :: n in inodes && n != ip ==> fs.t[n] == n.Value())
      && i < 8 && |ip.addr| == 8 && fs.t[ip] == SetSlot(ip.Value(), i, 0)
    }

    // Between system calls: every block of the data area has exactly one holder.
    ghost predicate Valid()
      reads this, inodes
    {
      FreeReady() && Mirrored() && Sound(fs) && NothingLoose(fs) && held == {} && !damaged
    }

    // A file system just made by mkfs (Mkfs.dfy proves that its free list is of this kind).
    constructor (isize: nat, blocks: Disk, n: nat, table: seq<nat>, ghost order: seq<nat>,
                 files: set<Inode>, user: User, odd: bool)
      requires |table| == NICFREE && n <= NICFREE && FreeListOk(blocks, isize + 2, table[..n], order)
      requires forall b :: isize + 2 <= b < |blocks| ==> b in order
      requires forall f :: f in files ==> f.Value() == InodeValue(false, seq(8, _ => 0), 0)
      ensures Valid() && Trimmed(fs) && disk == blocks && inodes == files && u == user && chain == order
    {
      lo, disk, inodes, u, oddBuffers := isize + 2, blocks, files, user, odd;
      nfree, free, rablock := n, table, 0;
      held, asked, damaged, stale, chain := {}, [], false, 0, order;
      fs := FreshFs(blocks, isize + 2, files, table[..n], order);
      new;
      FreshSound(blocks, isize + 2, files, table[..n], order);
    }

    // ---- The buffer cache as seen from here ----

    // A buffer for block b; unless it was read in, its contents are left over.
    method Getblk(b: nat) returns (buf: seq<Byte>)
      requires b < |disk| && b !in held
      modifies this`held
      ensures held == old(held) + {b} && Padded(buf)
    {
      held := held + {b};
      buf := disk[b] + [0, 0];
    }

    method Bread(b: nat) returns (buf: seq<Byte>)
      requires b < |disk| && b !in held
      modifies this`held
      ensures held == old(held) + {b} && Padded(buf) && Data(buf) == disk[b]
    {
      held := held + {b};
      buf := disk[b] + [0, 0];
    }

    // The read-ahead block is asked for, but not allocated to the caller.
    method Breada(b: nat, ahead: nat) returns (buf: seq<Byte>)
      requires b < |disk| && b !in held && ahead < |disk|
      modifies this`held, this`asked
      ensures held == old(held) + {b} && Padded(buf) && Data(buf) == disk[b]
      ensures asked == if ahead == 0 then old(asked) else old(asked) + [ahead]
    {
      buf := Bread(b);
      if ahead != 0 {
        asked := asked + [ahead];
      }
    }

    method Brelse(b: nat)
      requires b in held
      modifies this`held
      ensures held == old(held) - {b}
    {
      held := held - {b};
    }

    // bwrite, bawrite and bdwrite differ only in when the disk itself is written.
    method Bwrite(b: nat, buf: seq<Byte>)
      requires b in held && b < |disk| && Padded(buf)
      modifies this`held, this`disk
      ensures held == old(held) - {b} && disk == old(disk)[b := Data(buf)]
    {
      disk := disk[b := Data(buf)];
      held := held - {b};
    }

    // ---- alloc and free ----

    method Badblock(b: nat) returns (bad: bool)
      ensures bad <==> b < lo || b >= |disk|
    {
      bad := b < lo || b >= |disk|;
    }

    static method Clrbuf(buf: seq<Byte>) returns (r: seq<Byte>)
      requires Padded(buf)
      ensures Padded(r) && Data(r) == ZeroBlock()
    {
      r := buf;
      var c := 0;
      while c < WORDS
        invariant c <= WORDS && Padded(r)
        invariant forall k: nat :: k < c ==> WordAt(r, k) == 0
      {
        r := PutWord(r, c, 0);
        c := c + 1;
      }
      forall k: nat | k < WORDS ensures WordAt(Data(r), k) == WordAt(ZeroBlock(), k) {
        assert WordAt(r, k) == 0;
      }
      WordsDetermineBlock(Data(r), ZeroBlock());
    }

    // The table of a link block, from its second word on.
    static method CopyTable(buf: seq<Byte>) returns (t: seq<nat>)
      requires |buf| == BUFFER_SIZE
      ensures t == LinkTable(Data(buf))
    {
      t := [];
      while |t| < NICFREE
        invariant |t| <= NICFREE
        invariant forall k: nat :: k < |t| ==> t[k] == WordAt(buf, k + 1)
      {
        t := t + [WordAt(buf, |t| + 1)];
      }
    }

    // A link block is made: the number of entries, then the table.
    static method PutTable(buf: seq<Byte>, n: nat, t: seq<nat>) returns (r: seq<Byte>)
      requires Padded(buf) && |t| == NICFREE && n < 0x1_0000
      requires forall k: nat :: k < |t| ==> t[k] < 0x1_0000
      ensures Padded(r) && WordAt(Data(r), 0) == n && LinkTable(Data(r)) == t
    {
      r := PutWord(buf, 0, n);
      var c := 0;
      while c < NICFREE
        invariant c <= NICFREE && Padded(r) && WordAt(r, 0) == n
        invariant forall k: nat :: k < c ==> WordAt(r, k + 1) == t[k]
      {
        r := PutWord(r, c + 1, t[c]);
        c := c + 1;
      }
      forall k: nat | k < NICFREE ensures LinkTable(Data(r))[k] == t[k] {
        assert WordAt(r, k + 1) == t[k];
      }
    }

    // The next block of the free chain, in a zeroed buffer; or ENOSPC, exactly when the
    // chain is empty.
    method Alloc() returns (ok: bool, bno: nat, buf: seq<Byte>)
      requires FreeReady() && forall b :: b in chain ==> b !in held
      modifies this`nfree, this`free, this`chain, this`held, u`error
      ensures FreeReady()
      ensures ok <==> old(chain) != []
      ensures ok ==> old(chain) == [bno] + chain && lo <= bno < |disk|
      ensures ok ==> held == old(held) + {bno} && Padded(buf) && Data(buf) == ZeroBlock()
      ensures ok ==> u.error == old(u.error)
      ensures !ok ==> chain == [] && held == old(held) && u.error == ENOSPC
    {
      hide IsChain;
      ChainEmpty(disk, lo, free[..nfree], chain);
      ghost var list, was := free[..nfree], chain;
      assert was != [] ==> was[0] in was;
      bno, buf := 0, [];
      var bad := true;
      while bad
        modifies this`nfree, u`error
        invariant nfree <= NICFREE && u.error == old(u.error)
        invariant bad ==> free[..nfree] == list
        invariant !bad ==> list != [] && was != [] && bno == list[|list| - 1] == was[0]
        invariant !bad ==> nfree == |list| - 1 && free[..nfree] == list[..nfree]
        decreases bad
      {
        if nfree <= 0 {
          nfree, u.error := 0, ENOSPC;
          return false, 0, [];
        }
        nfree := nfree - 1;
        bno := free[nfree];
        if bno == 0 {
          nfree, u.error := 0, ENOSPC;
          return false, 0, [];
        }
        bad := Badblock(bno);
      }
      assert was == [bno] + was[1..] && bno in was;
      if nfree <= 0 {
        assert list == [bno];
        ChainReload(disk, lo, bno, was);
        buf := Bread(bno);
        nfree := WordAt(buf, 0);
        assert WordAt(buf, 0) == WordAt(disk[bno], 0);
        free := CopyTable(buf);
        assert free[..nfree] == free;
        Brelse(bno);
      } else {
        ChainPop(disk, lo, list, was);
      }
      chain := was[1..];
      buf := Getblk(bno);
      buf := Clrbuf(buf);
      ok := true;
    }

    // bno becomes the head of the free chain; at most bno itself is overwritten.
    method Free(bno: nat)
      requires FreeReady() && bno !in chain && bno !in held
      modifies this`nfree, this`free, this`chain, this`disk, this`held
      ensures FreeReady() && held == old(held) && |disk| == |old(disk)|
      ensures chain == if lo <= bno < |disk| then [bno] + old(chain) else old(chain)
      ensures forall x: nat :: x < |disk| && x != bno ==> disk[x] == old(disk)[x]
    {
      var bad := Badblock(bno);
      if bad {
        return;
      }
      ghost var list, d := free[..nfree], disk;
      if nfree <= 0 {
        nfree := 1;
        free := free[0 := 0];
        assert free[..1] == [0];
      }
      if nfree >= NICFREE {
        assert free[..nfree] == free == list;
        ListWords(list);
        var buf := Getblk(bno);
        buf := PutTable(buf, nfree, free);
        nfree := 0;
        Bwrite(bno, buf);
        ChainPushFull(d, disk, lo, list, chain, bno);
      } else {
        ChainPush(disk, lo, list, chain, bno);
      }
      ghost var before := free[..nfree];
      free := free[nfree := bno];
      nfree := nfree + 1;
      assert free[..nfree] == before + [bno];
      chain := [bno] + chain;
    }

    lemma ListWords(list: seq<nat>)
      requires FreeListOk(disk, lo, list, chain)
      ensures forall k: nat :: k < |list| ==> list[k] < 0x1_0000
    {
      forall k: nat | k < |list| ensures list[k] < 0x1_0000 {
        if list[0] == 0 {
          if k > 0 {
            assert chain[|list| - 1 - k] == list[1..][k - 1];
            assert list[k] in chain;
          }
        } else {
          assert chain[..|list|][|list| - 1 - k] == list[k];
          assert list[k] in chain;
        }
      }
    }

    // ---- bmap ----

    // The eight block numbers of the inode move to the buffer.
    method MoveAddresses(ip: Inode, zeroed: seq<Byte>) returns (buf: seq<Byte>)
      requires |ip.addr| == 8 && forall k: nat :: k < 8 ==> ip.addr[k] < 0x1_0000
      requires Padded(zeroed) && Data(zeroed) == ZeroBlock()
      modifies ip`addr
      ensures Padded(buf) && ip.addr == seq(8, _ => 0)
      ensures forall k: nat :: k < WORDS ==>
                WordAt(Data(buf), k) == if k < 8 then old(ip.addr)[k] else 0
    {
      ghost var addr := ip.addr;
      buf := zeroed;
      forall k: nat | k < WORDS ensures WordAt(buf, k) == 0 {
        assert WordAt(buf, k) == WordAt(ZeroBlock(), k);
      }
      var i := 0;
      while i < 8
        invariant i <= 8 && Padded(buf) && |ip.addr| == 8
        invariant forall k: nat :: k < 8 ==> ip.addr[k] == if k < i then 0 else addr[k]
        invariant forall k: nat :: k < WORDS ==> WordAt(buf, k) == if k < i then addr[k] else 0
      {
        buf := PutWord(buf, i, ip.addr[i]);
        ip.addr := ip.addr[i := 0];
        i := i + 1;
      }
      forall k: nat | k < WORDS ensures WordAt(Data(buf), k) == WordAt(buf, k) {
      }
    }

    // The small-to-large conversion.
    method ConvertToLarge(ip: Inode) returns (ok: bool)
      requires Valid() && ip in inodes && !ip.large
      modifies this, u`error, ip
      ensures Valid()
      ensures ok <==> old(chain) != []
      ensures ok ==> old(chain)[1..] == chain && u.error == old(u.error) && ip.large
      ensures ok ==> fs.t[ip].addr[0] != 0 && forall i :: 1 <= i < 8 ==> fs.t[ip].addr[i] == 0
      ensures ok ==> |disk| == |old(disk)|
                     && forall x: nat :: x < |disk| && x != old(chain)[0] ==> disk[x] == old(disk)[x]
      ensures !ok ==> chain == [] && u.error == ENOSPC && fs.t == old(fs).t
      ensures Keeps(old(fs), fs) && SameMap(old(fs), fs)
      ensures ip.updated == old(ip.updated) && ip.lastRead == old(ip.lastRead)
    {
      hide Sound, Keeps, SameMap, FreeListOk, Ptr, Conversion;
      var b, buf;
      ok, b, buf := Alloc();
      if !ok {
        ExhaustedSound(fs, free[..nfree]);
        fs := fs.(list := free[..nfree]);
        return;
      }
      AddressesFit(fs, ip);
      buf := MoveAddresses(ip, buf);
      ConversionSound(fs, disk, free[..nfree], ip, Data(buf));
      FinishConversion(ip, b, buf);
    }

    // Block b takes the eight numbers, and its own becomes the first of the inode.
    method FinishConversion(ip: Inode, b: nat, buf: seq<Byte>)
      requires FreeReady() && held == {b} && !damaged && ip in inodes && b < |disk| && Padded(buf)
      requires fs.lo == lo && fs.t.Keys == inodes && fs.d == disk && nfree <= |free| && !ip.large
      requires fs.chain != [] && fs.chain == [b] + chain && ip.addr == seq(8, _ => 0)
      requires forall n :: n in inodes && n != ip ==> fs.t[n] == n.Value()
      requires ip.size == fs.t[ip].size
      requires var t := Conversion(fs, free[..nfree], ip, Data(buf));
               && Sound(t) && NothingLoose(t) && t.d == disk[b := Data(buf)] && t.lo == lo
               && t.list == free[..nfree] && t.chain == chain
               && t.t == fs.t[ip := InodeValue(true, seq(8, k => if k == 0 then b else 0), ip.size)]
      modifies this`disk, this`held, this`fs, ip`addr, ip`large
      ensures Valid() && fs == Conversion(old(fs), free[..nfree], ip, Data(buf)) && ip.large
      ensures |disk| == |old(disk)| && forall x: nat :: x < |disk| && x != b ==> disk[x] == old(disk)[x]
    {
      hide Sound, NothingLoose, FreeListOk, Conversion;
      ip.addr := ip.addr[0 := b];
      ip.large := true;
      assert ip.addr == seq(8, k => if k == 0 then b else 0);
      fs := Conversion(fs, free[..nfree], ip, Data(buf));
      SoundFreeList(fs);
      Bwrite(b, buf);
    }

    // A new data block in an empty slot of a small file.
    method FillSlot(ip: Inode, bn: nat) returns (nb: nat)
      requires Valid() && ip in inodes && !ip.large && bn < 8
      requires |ip.addr| == 8 && ip.addr[bn] == 0
      modifies this, u`error, ip
      ensures Valid() && rablock == old(rablock) && ip.large == old(ip.large)
      ensures nb == 0 <==> old(chain) == []
      ensures nb == 0 ==> u.error == ENOSPC && chain == []
      ensures nb != 0 ==> u.error == old(u.error) && old(chain) == [nb] + chain
      ensures ip.addr == old(ip.addr)[bn := nb]
      ensures Keeps(old(fs), fs) && SameMapExcept(old(fs), fs, ip, bn)
      ensures ip.lastRead == old(ip.lastRead) && (old(ip.updated) ==> ip.updated)
      ensures ip.Value() != old(ip.Value()) ==> ip.updated
    {
      hide Sound, Keeps, SameMap, SameMapExcept, FreeListOk, NewSlot, Ptr;
      nb := 0;
      var ok, b, buf := Alloc();
      if !ok {
        ExhaustedSound(fs, free[..nfree]);
        SameMapIsExcept(fs, fs.(list := free[..nfree]), ip, bn);
        fs := fs.(list := free[..nfree]);
        return;
      }
      NewSlotSound(fs, disk, free[..nfree], ip, bn, bn);
      nb := b;
      FinishSlot(ip, bn, nb, buf);
    }

    // The zeroed block is written, and its number goes to the slot.
    method FinishSlot(ip: Inode, bn: nat, b: nat, buf: seq<Byte>)
      requires FreeReady() && held == {b} && !damaged && ip in inodes && b < |disk| && Padded(buf)
      requires fs.chain != [] && fs.chain == [b] + chain && fs.lo == lo && fs.t.Keys == inodes && fs.d == disk
      requires forall n :: n in inodes ==> fs.t[n] == n.Value()
      requires bn < |ip.addr| == |fs.t[ip].addr| && Data(buf) == ZeroBlock()
      requires var t := NewSlot(fs, free[..nfree], ip, bn);
               && Sound(t) && NothingLoose(t) && t.d == disk[b := ZeroBlock()] && t.lo == lo
               && t.list == free[..nfree] && t.chain == chain && t.t == fs.t[ip := SetSlot(fs.t[ip], bn, b)]
      modifies this`disk, this`held, this`fs, ip`addr, ip`updated
      ensures Valid() && fs == NewSlot(old(fs), free[..nfree], ip, bn) && ip.addr == old(ip.addr)[bn := b]
      ensures ip.updated
    {
      hide Sound, NothingLoose, FreeListOk, NewSlot;
      Bwrite(b, buf);
      ip.addr := ip.addr[bn := b];
      ip.updated := true;
      fs := NewSlot(fs, free[..nfree], ip, bn);
      SoundFreeList(fs);
    }

    // The small file algorithm.
    method SmallBlock(ip: Inode, bn: nat) returns (nb: nat)
      requires Valid() && ip in inodes && !ip.large && bn < 8
      modifies this, u`error, ip
      ensures Valid() && |fs.t[ip].addr| == 8
      ensures nb == 0 <==> |old(chain)| < Need(old(fs).d, old(fs).t[ip], bn)
      ensures nb == 0 ==> u.error == ENOSPC && chain == []
      ensures nb != 0 ==> u.error == old(u.error) && nb == MapOf(fs.d, fs.t[ip], bn)
      ensures nb != 0 ==> |chain| == |old(chain)| - Need(old(fs).d, old(fs).t[ip], bn)
      ensures Keeps(old(fs), fs) && SameMapExcept(old(fs), fs, ip, bn)
      ensures rablock == Following(fs.d, fs.t[ip], bn)
      ensures ip.lastRead == old(ip.lastRead) && (old(ip.updated) ==> ip.updated)
      ensures ip.Value() != old(ip.Value()) ==> ip.updated
    {
      hide Sound, Keeps, SameMapExcept, FreeListOk;
      AddressesFit(fs, ip);
      KeepsReflexive(fs, ip, bn);
      nb := ip.addr[bn];
      if nb == 0 {
        nb := FillSlot(ip, bn);
      }
      rablock := 0;
      if bn < 7 {
        rablock := ip.addr[bn + 1];
      }
      assert fs.t[ip] == ip.Value();
    }

    // The pointer block in slot i of a large file, read or newly allocated.
    method SlotBlock(ip: Inode, i: nat) returns (ok: bool, b: nat, buf: seq<Byte>, ghost isNew: bool)
      requires Valid() && ip in inodes && ip.large && i < 8
      modifies this, u`error, ip
      ensures disk == old(disk)
      ensures |old(ip.addr)| == 8 && (isNew <==> ok && old(ip.addr)[i] == 0)
      ensures ok <==> old(ip.addr)[i] != 0 || old(chain) != []
      ensures !ok ==> Valid() && chain == [] && u.error == ENOSPC
      ensures ok ==> Pending(b, buf) && u.error == old(u.error)
      ensures ok ==> |fs.t[ip].addr| == 8 && b == fs.t[ip].addr[i] != 0
      ensures ok && !isNew ==> fs == old(fs)
      ensures isNew ==> old(chain) == [b] + chain && Data(buf) == ZeroBlock()
                        && fs.t[ip] == SetSlot(old(fs).t[ip], i, b) && fs.d == old(fs).d[b := ZeroBlock()]
      ensures Keeps(old(fs), fs) && SameMap(old(fs), fs)
      ensures ip.lastRead == old(ip.lastRead) && (old(ip.updated) ==> ip.updated) && (old(ip.large) ==> ip.large)
      ensures ip.Value() != old(ip.Value()) ==> ip.updated
      ensures ip.updated == (old(ip.updated) || old(ip.addr)[i] == 0)
    {
      hide Sound, Keeps, SameMap, SameMapExcept, FreeListOk, NewSlot;
      AddressesFit(fs, ip);
      KeepsReflexive(fs, ip, 0);
      isNew := false;
      b := ip.addr[i];
      if b == 0 {
        ip.updated := true;
        ok, b, buf := Alloc();
        if !ok {
          ExhaustedSound(fs, free[..nfree]);
          fs := fs.(list := free[..nfree]);
          return;
        }
        isNew := true;
        NewSlotSound(fs, disk, free[..nfree], ip, i, 0);
        ip.addr := ip.addr[i := b];
        fs := NewSlot(fs, free[..nfree], ip, i);
      } else {
        PointersOwned(fs, ip, Slot(i));
        buf := Bread(b);
        ok := true;
        assert fs.d == disk[b := Data(buf)];
      }
    }

    // brelse of pointer block b when alloc has just failed: if the block is new, its zeroed
    // buffer is lost.
    method ReleaseUnwritten(ip: Inode, b: nat, bp: seq<Byte>, ghost isNew: bool)
      requires FreeReady() && chain == [] && held == {b} && !damaged && ip in inodes
      requires Sound(fs) && NothingLoose(fs) && IsPointerBlock(fs, ip, b)
      requires |bp| == BUFFER_SIZE && b < |disk| && fs.d == disk[b := Data(bp)]
      requires if isNew then Data(bp) == ZeroBlock() else disk == fs.d
      requires fs.lo == lo && fs.chain == chain && fs.t.Keys == inodes
      requires forall n :: n in inodes ==> fs.t[n] == n.Value()
      modifies this`held, this`damaged, this`stale, this`fs
      ensures held == {} && damaged == isNew && stale == b && fs == old(fs).(list := free[..nfree])
      ensures if isNew then Stale(ip) else Valid()
      ensures Keeps(old(fs), fs) && SameMap(old(fs), fs)
    {
      hide Sound, Keeps, SameMap, FreeListOk;
      Brelse(b);
      damaged, stale := isNew, b;
      FreeListFrame(disk, fs.d, lo, free[..nfree], chain, b);
      ExhaustedSound(fs, free[..nfree]);
      fs := fs.(list := free[..nfree]);
    }

    // Huge files: the second-level pointer block in word j of the double-indirect block b.
    method SecondLevel(ip: Inode, j: nat, b: nat, bp: seq<Byte>, ghost isNew: bool)
      returns (ok: bool, c: nat, buf: seq<Byte>, ghost newc: bool)
      requires Pending(b, bp) && ip in inodes && j < WORDS
      requires |fs.t[ip].addr| == 8 && fs.t[ip].large && b == fs.t[ip].addr[7] != 0
      requires if isNew then Data(bp) == ZeroBlock() else disk == fs.d
      modifies this, u`error
      ensures fs.t == old(fs).t
      ensures newc <==> ok && EntryPtr(old(fs).d, fs.t[ip], 7, j) == 0
      ensures ok <==> EntryPtr(old(fs).d, fs.t[ip], 7, j) != 0 || old(chain) != []
      ensures !ok ==> chain == [] && u.error == ENOSPC && damaged == isNew && (!isNew ==> Valid())
      ensures !ok && isNew ==> Stale(ip) && stale == b && disk == old(disk)
      ensures ok ==> Pending(c, buf) && u.error == old(u.error)
      ensures |disk| == |old(disk)| && forall x: nat :: x < |disk| && x != b ==> disk[x] == old(disk)[x]
      ensures newc ==> c != b
      ensures ok ==> c == EntryPtr(fs.d, fs.t[ip], 7, j) != 0
      ensures ok ==> if newc then Data(buf) == ZeroBlock() else disk == fs.d && fs == old(fs)
      ensures newc ==> old(chain) == [c] + chain
      ensures Keeps(old(fs), fs) && SameMap(old(fs), fs)
    {
      hide Sound, Keeps, SameMap, SameMapExcept, FreeListOk, NewWord, Ptr;
      KeepsReflexive(fs, ip, 0);
      newc := false;
      assert EntryPtr(fs.d, fs.t[ip], 7, j) == WordAt(bp, j);
      var nb := WordAt(bp, j);
      if nb == 0 {
        ok, c, buf := Alloc();
        if !ok {
          SlotIsPointerBlock(fs, ip, 7);
          ReleaseUnwritten(ip, b, bp, isNew);
          return;
        }
        newc := true;
        EntryPtrIsPtr(fs, ip, j);
        NewWordSound(fs, disk, free[..nfree], ip, Entry(7, j), b, j, 0);
        DataOfPutWord(bp, j, c);
        Bwrite(b, PutWord(bp, j, c));
        fs := NewWord(fs, free[..nfree], ip, Entry(7, j), b, j);
        assert fs.d == disk[c := Data(buf)];
        SoundFreeList(fs);
        FreeListFrame(fs.d, disk, lo, free[..nfree], chain, c);
      } else {
        ZeroWords();
        Brelse(b);
        c := nb;
        EntryPtrIsPtr(fs, ip, j);
        PointersOwned(fs, ip, Entry(7, j));
        buf := Bread(c);
        ok := true;
        assert fs.d == disk[c := Data(buf)];
      }
    }

    // A new data block in an empty word of the held pointer block b.
    method FillWord(ip: Inode, bn: nat, b: nat, bp: seq<Byte>, ghost isNew: bool)
      returns (nb: nat, buf: seq<Byte>)
      requires Pending(b, bp) && ip in inodes && bn < 0x8000
      requires |fs.t[ip].addr| == 8 && fs.t[ip].large && b == PointerBlock(fs.d, fs.t[ip], bn) != 0
      requires MapOf(fs.d, fs.t[ip], bn) == 0
      requires if isNew then Data(bp) == ZeroBlock() else disk == fs.d
      modifies this, u`error
      ensures fs.t == old(fs).t && rablock == old(rablock) && Padded(buf)
      ensures nb == 0 <==> old(chain) == []
      ensures nb == 0 ==> u.error == ENOSPC && chain == [] && damaged == isNew && fs.d == old(fs).d
      ensures damaged ==> Stale(ip) && stale == b && disk == old(disk)
      ensures nb != 0 ==> u.error == old(u.error) && old(chain) == [nb] + chain && !damaged
      ensures !damaged ==> Valid()
      ensures b < |fs.d| && Data(buf) == fs.d[b]
      ensures nb != 0 ==> WordAt(buf, bn % WORDS) == nb && b == PointerBlock(fs.d, fs.t[ip], bn)
      ensures Keeps(old(fs), fs) && SameMapExcept(old(fs), fs, ip, bn)
    {
      hide Sound, Keeps, SameMap, SameMapExcept, FreeListOk, NewWord, Ptr, MapOf, Stale, NothingLoose, PointerBlock;
      ghost var s := fs;
      PointerBlockMap(fs, ip, bn);
      nb, buf := 0, bp;
      var ok, c, cbuf := Alloc();
      if !ok {
        PointerBlockOwned(fs, ip, bn);
        ReleaseUnwritten(ip, b, bp, isNew);
        SameMapIsExcept(s, fs, ip, bn);
        return;
      }
      nb := c;
      ghost var k := bn % WORDS;
      NewWordSound(fs, disk, free[..nfree], ip, DataRef(true, bn), b, k, bn);
      NewWordSamePlace(fs, free[..nfree], ip, bn, b);
      DataOfPutWord(bp, k, c);
      buf := PutWord(bp, bn % WORDS, nb);
      FinishWord(ip, DataRef(true, bn), b, k, c, cbuf, buf);
    }

    // The zeroed block and the pointer block are written.
    method FinishWord(ghost ip: Inode, ghost ref: Ref, b: nat, ghost k: nat, c: nat, cbuf: seq<Byte>, buf: seq<Byte>)
      requires FreeReady() && held == {b, c} && b != c && !damaged && ip in inodes && b < |disk| && c < |disk|
      requires Padded(buf) && Padded(cbuf) && Data(cbuf) == ZeroBlock()
      requires fs.chain != [] && fs.chain == [c] + chain && fs.lo == lo && fs.t.Keys == inodes
      requires b < |fs.d| == |disk| && k < WORDS && c < 0x1_0000
      requires forall n :: n in inodes ==> fs.t[n] == n.Value()
      requires var t := NewWord(fs, free[..nfree], ip, ref, b, k);
               && Sound(t) && NothingLoose(t) && t.d == disk[c := ZeroBlock()][b := Data(buf)] && t.lo == lo
               && t.list == free[..nfree] && t.chain == chain && t.t == fs.t
      modifies this`disk, this`held, this`fs
      ensures Valid() && fs == NewWord(old(fs), free[..nfree], ip, ref, b, k) && Data(buf) == fs.d[b]
    {
      hide Sound, NothingLoose, FreeListOk, NewWord;
      Bwrite(c, cbuf);
      Bwrite(b, buf);
      fs := NewWord(fs, free[..nfree], ip, ref, b, k);
      SoundFreeList(fs);
    }

    // The normal indirect fetch, from the held pointer block b.
    method DataBlock(ip: Inode, bn: nat, b: nat, bp: seq<Byte>, ghost isNew: bool) returns (nb: nat)
      requires Pending(b, bp) && ip in inodes && bn < 0x8000
      requires |fs.t[ip].addr| == 8 && fs.t[ip].large && b == PointerBlock(fs.d, fs.t[ip], bn) != 0
      requires if isNew then Data(bp) == ZeroBlock() else disk == fs.d
      modifies this, u`error
      ensures fs.t == old(fs).t
      ensures nb == 0 <==> MapOf(old(fs).d, fs.t[ip], bn) == 0 && old(chain) == []
      ensures nb == 0 ==> u.error == ENOSPC && chain == []
      ensures damaged <==> isNew && nb == 0
      ensures damaged ==> Stale(ip) && stale == b && disk == old(disk)
      ensures !damaged ==> Valid()
      ensures nb != 0 ==> u.error == old(u.error) && nb == MapOf(fs.d, fs.t[ip], bn)
      ensures nb != 0 ==>
                |chain| == |old(chain)| - if MapOf(old(fs).d, fs.t[ip], bn) == 0 then 1 else 0
      ensures Keeps(old(fs), fs) && SameMapExcept(old(fs), fs, ip, bn)
      ensures rablock == Following(fs.d, fs.t[ip], bn)
    {
      hide Sound, Keeps, SameMap, SameMapExcept, FreeListOk, Ptr, MapOf, NothingLoose, PointerBlock;
      KeepsReflexive(fs, ip, bn);
      PointerBlockMap(fs, ip, bn);
      var i := bn % WORDS;
      nb := WordAt(bp, i);
      assert nb == MapOf(fs.d, fs.t[ip], bn);
      var buf := bp;
      if nb == 0 {
        nb, buf := FillWord(ip, bn, b, bp, isNew);
      } else {
        ZeroWords();
        Brelse(b);
      }
      if !damaged || nb != 0 {
        assert Data(buf) == fs.d[b];
        PointerBlockMap(fs, ip, bn);
      }
      rablock := 0;
      if i < 255 {
        rablock := WordAt(buf, i + 1);
      }
    }

    // SecondLevel, counting the blocks allocated since the slot was empty.
    method HugeBlock(ip: Inode, j: nat, b: nat, bp: seq<Byte>, ghost isNew: bool)
      returns (ok: bool, c: nat, buf: seq<Byte>, ghost newc: bool, ghost used: nat)
      requires Pending(b, bp) && ip in inodes && j < WORDS
      requires |fs.t[ip].addr| == 8 && fs.t[ip].large && b == fs.t[ip].addr[7] != 0
      requires if isNew then Data(bp) == ZeroBlock() else disk == fs.d
      modifies this, u`error
      ensures fs.t == old(fs).t
      ensures used == (if isNew then 1 else 0) + (if newc then 1 else 0)
      ensures isNew && ok ==> newc
      ensures ok && !isNew ==> (newc <==> EntryPtr(old(fs).d, fs.t[ip], 7, j) == 0)
      ensures !ok ==> old(chain) == [] == chain && u.error == ENOSPC
                      && damaged == isNew && (!isNew ==> Valid())
      ensures !ok && isNew ==> Stale(ip) && stale == b && disk == old(disk)
      ensures |disk| == |old(disk)| && forall x: nat :: x < |disk| && x != b ==> disk[x] == old(disk)[x]
      ensures ok && newc ==> c != b && old(chain) == [c] + chain
      ensures !ok && !isNew ==> EntryPtr(old(fs).d, fs.t[ip], 7, j) == 0
      ensures ok ==> Pending(c, buf) && u.error == old(u.error)
      ensures ok ==> c == EntryPtr(fs.d, fs.t[ip], 7, j) != 0
      ensures ok ==> if newc then Data(buf) == ZeroBlock() else disk == fs.d && fs == old(fs)
      ensures ok ==> |chain| == |old(chain)| - if newc then 1 else 0
      ensures Keeps(old(fs), fs) && SameMap(old(fs), fs)
    {
      hide Sound, Keeps, SameMap, SameMapExcept, FreeListOk, Ptr, FreeReady, MapOf;
      ZeroWords();
      assert isNew ==> EntryPtr(fs.d, fs.t[ip], 7, j) == 0;
      ok, c, buf, newc := SecondLevel(ip, j, b, bp, isNew);
      used := (if isNew then 1 else 0) + (if newc then 1 else 0);
    }

    // The pointer block for logical block bn of a large file, and how many blocks were
    // allocated to reach it.
    method IndirectBlock(ip: Inode, bn: nat)
      returns (ok: bool, b: nat, buf: seq<Byte>, ghost isNew: bool, ghost used: nat)
      requires Valid() && ip in inodes && ip.large && bn < 0x8000
      modifies this, u`error, ip
      ensures fs.t.Keys == inodes == old(fs).t.Keys
      ensures |old(fs).t[ip].addr| == 8 && |fs.t[ip].addr| == 8
      ensures !ok ==> chain == [] && u.error == ENOSPC && (!damaged ==> Valid())
      ensures !ok ==> |old(chain)| + 1 < Need(old(fs).d, old(fs).t[ip], bn)
      ensures !ok ==> (damaged <==> 0 < |old(chain)|)
      ensures damaged ==> Stale(ip) && stale == Last(old(chain)) && |old(disk)| == |disk|
                          && stale < |disk| && disk[stale] == old(disk)[stale]
      ensures ok && isNew ==> 0 < used <= |old(chain)| && b == old(chain)[used - 1]
      ensures ok && isNew ==> b < |disk| == |old(disk)| && disk[b] == old(disk)[b]
      ensures ok ==> Pending(b, buf) && u.error == old(u.error) && fs.t[ip].large
      ensures ok ==> b == PointerBlock(fs.d, fs.t[ip], bn) != 0
      ensures ok ==> if isNew then Data(buf) == ZeroBlock() else disk == fs.d
      ensures ok ==> (isNew <==> used > 0) && |chain| == |old(chain)| - used
      ensures ok ==> Need(old(fs).d, old(fs).t[ip], bn)
                     == used + if MapOf(fs.d, fs.t[ip], bn) == 0 then 1 else 0
      ensures ok && isNew ==> MapOf(fs.d, fs.t[ip], bn) == 0
      ensures Keeps(old(fs), fs) && SameMapExcept(old(fs), fs, ip, bn)
      ensures ip.lastRead == old(ip.lastRead) && (old(ip.updated) ==> ip.updated) && (old(ip.large) ==> ip.large)
      ensures ip.Value() != old(ip.Value()) ==> ip.updated
      ensures |old(ip.addr)| == 8 && ip.updated == (old(ip.updated) || old(ip.addr)[RootSlot(bn)] == 0)
    {
      hide Sound, Keeps, SameMap, SameMapExcept, FreeListOk, Ptr, FreeReady, MapOf, Need, PointerBlock, RootSlot,
           NothingLoose, Stale;
      AddressesFit(fs, ip);
      ZeroWords();
      NeedLarge(fs.d, fs.t[ip], bn);
      SlotNumber(bn);
      ghost var s := fs;
      var i := bn / 256;
      if bn / 2048 != 0 {   // bits 11 to 15
        i := 7;
      }
      used := 0;
      ok, b, buf, isNew := SlotBlock(ip, i);
      SameMapIsExcept(s, fs, ip, bn);
      if isNew {
        used := 1;
      }
      if !ok {
        return;
      }
      if i == 7 {
        i := bn / 256 % 256 - 7;
        ghost var s1 := fs;
        ok, b, buf, isNew, used := HugeBlock(ip, i, b, buf, isNew);
        SameMapIsExcept(s1, fs, ip, bn);
        KeepsTransitive(s, s1, fs);
        SameMapThenExcept(s, s1, fs, ip, bn);
        if !ok {
          return;
        }
      }
      NeedLarge(fs.d, fs.t[ip], bn);
      PointerBlockMap(fs, ip, bn);
    }

    // The large file algorithm.
    method LargeBlock(ip: Inode, bn: nat) returns (nb: nat)
      requires Valid() && ip in inodes && ip.large && bn < 0x8000
      modifies this, u`error, ip
      ensures fs.t.Keys == inodes == old(fs).t.Keys
      ensures |old(fs).t[ip].addr| == 8 && |fs.t[ip].addr| == 8
      ensures nb != 0 <==> |old(chain)| >= Need(old(fs).d, old(fs).t[ip], bn)
      ensures damaged <==> 0 < |old(chain)| < Need(old(fs).d, old(fs).t[ip], bn)
      ensures damaged ==> Stale(ip) && stale == Last(old(chain)) && |old(disk)| == |disk|
                          && stale < |disk| && disk[stale] == old(disk)[stale]
      ensures !damaged ==> Valid()
      ensures nb == 0 ==> u.error == ENOSPC && chain == []
      ensures nb != 0 ==> u.error == old(u.error) && nb == MapOf(fs.d, fs.t[ip], bn)
      ensures nb != 0 ==> |chain| == |old(chain)| - Need(old(fs).d, old(fs).t[ip], bn)
      ensures Keeps(old(fs), fs) && SameMapExcept(old(fs), fs, ip, bn)
      ensures nb != 0 ==> rablock == Following(fs.d, fs.t[ip], bn)
      ensures ip.lastRead == old(ip.lastRead) && (old(ip.updated) ==> ip.updated) && (old(ip.large) ==> ip.large)
      ensures ip.Value() != old(ip.Value()) ==> ip.updated
      ensures |old(ip.addr)| == 8 && ip.updated == (old(ip.updated) || old(ip.addr)[RootSlot(bn)] == 0)
    {
      hide Sound, Keeps, SameMapExcept, FreeListOk, Ptr, FreeReady, MapOf, PointerBlock, Need;
      ghost var s := fs;
      var ok, b, buf;
      ghost var isNew, used;
      ok, b, buf, isNew, used := IndirectBlock(ip, bn);
      if !ok {
        return 0;
      }
      ghost var s2 := fs;
      nb := DataBlock(ip, bn, b, buf, isNew);
      KeepsTransitive(s, s2, fs);
      SameMapThenExcept(s, s2, fs, ip, bn);
    }

    // Past the eighth block of a small file: convert, then go the large way.
    method ConvertAndMap(ip: Inode, bn: nat) returns (nb: nat)
      requires Valid() && ip in inodes && !ip.large && 8 <= bn < 0x8000
      modifies this, u`error, ip
      ensures fs.t.Keys == inodes == old(fs).t.Keys
      ensures |old(fs).t[ip].addr| == 8 && |fs.t[ip].addr| == 8
      ensures nb != 0 <==> |old(chain)| >= Need(old(fs).d, old(fs).t[ip], bn)
      ensures damaged <==> 1 < |old(chain)| < Need(old(fs).d, old(fs).t[ip], bn)
      ensures damaged ==> Stale(ip) && stale == Last(old(chain)) && |old(disk)| == |disk|
                          && stale < |disk| && disk[stale] == old(disk)[stale]
      ensures nb == 0 ==> u.error == ENOSPC && chain == []
      ensures nb != 0 ==> u.error == old(u.error) && nb == MapOf(fs.d, fs.t[ip], bn)
      ensures nb != 0 ==> |chain| == |old(chain)| - Need(old(fs).d, old(fs).t[ip], bn)
      ensures nb != 0 ==> rablock == Following(fs.d, fs.t[ip], bn)
      ensures !damaged ==> Valid()
      ensures Keeps(old(fs), fs) && SameMapExcept(old(fs), fs, ip, bn)
      ensures ip.lastRead == old(ip.lastRead) && (old(ip.updated) ==> ip.updated)
      ensures ip.Value() != old(ip.Value()) && bn >= 256 ==> ip.updated
      ensures ip.Value() != old(ip.Value()) ==> ip.large
      ensures bn < 256 ==> ip.updated == old(ip.updated)
    {
      hide Sound, Keeps, SameMapExcept, Ptr, MapOf, NothingLoose, Stale, FreeListOk, Valid, Mirrored, FreeReady, Need;
      Facts();
      AddressesFit(fs, ip);
      ghost var s := fs;
      LastOfTail(disk, lo, free[..nfree], chain);
      SmallMap(s.d, s.t[ip]);
      NeedSmall(s.d, s.t[ip], bn);
      var ok := ConvertToLarge(ip);
      Facts();
      SameMapIsExcept(s, fs, ip, bn);
      if !ok {
        return 0;
      }
      assert MapOf(fs.d, fs.t[ip], bn) == 0;
      ghost var s1 := fs;
      NeedConverted(s.d, s.t[ip], s1.d, s1.t[ip], bn);
      nb := LargeBlock(ip, bn);
      KeepsTransitive(s, s1, fs);
      SameMapThenExcept(s, s1, fs, ip, bn);
    }

    // The physical block of logical block bn, allocated if need be; 0 on failure. It
    // succeeds exactly when the free list holds as many blocks as it needs. When the list
    // runs out after a pointer block was taken but before it was filled, that block is
    // released unwritten and the file points to stale contents: damaged.
    method Bmap(ip: Inode, bn: nat) returns (nb: nat)
      requires Valid() && ip in inodes && bn < 0x1_0000
      modifies this, u`error, ip
      ensures fs.t.Keys == inodes == old(fs).t.Keys
      ensures |old(fs).t[ip].addr| == 8 && |fs.t[ip].addr| == 8
      ensures bn >= 0x8000 ==> nb == 0 && u.error == EFBIG && fs == old(fs) && !damaged
      ensures bn < 0x8000 ==> (nb != 0 <==> |old(chain)| >= Need(old(fs).d, old(fs).t[ip], bn))
      ensures bn < 0x8000 ==>
                (damaged <==> NeedConvert(old(fs).t[ip], bn) < |old(chain)|
                              < Need(old(fs).d, old(fs).t[ip], bn))
      ensures damaged ==> Stale(ip) && stale == Last(old(chain)) && |old(disk)| == |disk|
                          && stale < |disk| && disk[stale] == old(disk)[stale]
      ensures bn < 0x8000 && nb == 0 ==> u.error == ENOSPC && chain == []
      ensures nb != 0 ==> u.error == old(u.error) && nb == MapOf(fs.d, fs.t[ip], bn)
      ensures nb != 0 ==> |chain| == |old(chain)| - Need(old(fs).d, old(fs).t[ip], bn)
      ensures nb != 0 ==> rablock == Following(fs.d, fs.t[ip], bn)
      ensures !damaged ==> Valid()
      ensures Keeps(old(fs), fs) && SameMapExcept(old(fs), fs, ip, bn)
      ensures ip.lastRead == old(ip.lastRead) && (old(ip.updated) ==> ip.updated) && (old(ip.large) ==> ip.large)
      ensures ip.Value() != old(ip.Value()) && !Converts(old(ip.Value()), bn) ==> ip.updated
      ensures Converts(old(ip.Value()), bn) ==>
                ip.updated == old(ip.updated) && (ip.Value() != old(ip.Value()) ==> ip.large)
    {
      hide Sound, Keeps, SameMapExcept, FreeListOk, Ptr, FreeReady, MapOf, NothingLoose, Stale, Last;
      AddressesFit(fs, ip);
      KeepsReflexive(fs, ip, bn);
      if bn >= 0x8000 {   // bit 15
        u.error := EFBIG;
        return 0;
      }
      if ip.large {
        nb := LargeBlock(ip, bn);
      } else if bn >= 8 {   // not one of the first 8
        nb := ConvertAndMap(ip, bn);
      } else {
        nb := SmallBlock(ip, bn);
      }
    }

    // ---- readi and writei ----

    // The size becomes the offset, if it is less.
    method GrowSize(ip: Inode)
      requires Valid() && ip in inodes && fs.t[ip].size < MAX_FILE
      modifies ip`size, this`fs
      ensures Valid() && old(fs).t.Keys == fs.t.Keys
      ensures fs.d == old(fs).d && fs.chain == old(fs).chain
      ensures fs.t[ip].size == if Dpcmp(old(fs).t[ip].size, u.offset) < 0
                               then StoredSize(u.offset) else old(fs).t[ip].size
      ensures SameMap(old(fs), fs) && OthersKept(old(fs), fs, ip) && Overlaid(old(fs), fs, ip, 0, [])
    {
      hide Sound, NothingLoose, FreeListOk, MapOf, SameMap;
      AddressesFitAll(fs);
      KeepsReflexive(fs, ip, 0);
      OthersKeptReflexive(fs, ip);
      if Dpcmp(ip.size, u.offset) < 0 {
        ghost var size := StoredSize(u.offset);
        ip.size := StoredSize(u.offset);
        ResizedSound(fs, ip, size);
        ResizedBytes(fs, ip, size);
        fs := Resized(fs, ip, size);
      }
    }

    // The buffer of block nb receives the user's bytes and is written.
    method WriteChunk(ip: Inode, bn: nat, nb: nat, on: nat, n: nat)
      requires Valid() && ip in inodes && |fs.t[ip].addr| == 8
      requires nb == MapOf(fs.d, fs.t[ip], bn) != 0
      requires u.InArea() && u.error == 0 && 0 < n <= u.count && on + n <= 512
      modifies this`disk, this`held, this`fs, u, u.area
      ensures Valid() && u.InArea() && u.Advanced(n) && u.area[..] == old(u.area[..])
      ensures fs.t == old(fs).t && fs.chain == old(fs).chain
      ensures OthersKept(old(fs), fs, ip)
      ensures Overlaid(old(fs), fs, ip, 512 * bn + on, old(u.area[..])[old(u.base)..u.base])
    {
      hide Sound, NothingLoose, FreeListOk, MapOf, OthersKept, Overlaid, Dpadd;
      ghost var chunk := u.area[..][u.base..u.base + n];
      ChunkWritten(fs, ip, bn, on, chunk);
      var buf;
      if n == 512 {
        buf := Getblk(nb);
        SpliceWhole(Data(buf), disk[nb], chunk);
      } else {
        buf := Bread(nb);
      }
      SpliceData(buf, on, chunk);
      buf := u.Iomove(buf, on, n, true, oddBuffers);
      // The moves of this kernel cannot fail, so the buffer is always written:
      // bawrite at the end of a block, bdwrite before it.
      Bwrite(nb, buf);
      fs := fs.(d := disk);
    }

    // The rest of the pass: the bytes, then the size.
    method StoreChunk(ip: Inode, bn: nat, nb: nat, on: nat, n: nat, ghost chunk: seq<Byte>,
                      ghost s: Fs)
      requires Valid() && ip in inodes && |fs.t[ip].addr| == 8 && fs.t[ip].size < MAX_FILE
      requires nb == MapOf(fs.d, fs.t[ip], bn) != 0
      requires u.InArea() && u.error == 0 && 0 < n <= u.count && on + n <= 512
      requires chunk == u.area[..][u.base..u.base + n] && Keeps(s, fs) && ip in s.t
      modifies this`disk, this`held, this`fs, u, u.area, ip
      ensures Valid() && u.InArea() && u.Advanced(n) && u.area[..] == old(u.area[..])
      ensures fs.t.Keys == inodes && |fs.t[ip].addr| == 8 && chain == old(chain)
      ensures OthersKept(s, fs, ip)
      ensures Overlaid(s, fs, ip, 512 * bn + on, chunk)
      ensures fs.t[ip].size == if Dpcmp(old(fs).t[ip].size, u.offset) < 0
                               then StoredSize(u.offset) else old(fs).t[ip].size
      ensures ip.updated && ip.lastRead == old(ip.lastRead)
    {
      hide Sound, NothingLoose, FreeListOk, MapOf, OthersKept, Keeps, Overlaid, SameMap, Dpcmp, Dpadd;
      ghost var s1 := fs;
      WriteChunk(ip, bn, nb, on, n);
      ghost var s2 := fs;
      GrowSize(ip);
      ip.updated := true;
      AddressesFitAll(fs);
      ChunkThenSize(s1, s2, fs, ip, 512 * bn + on, chunk);
      KeptThenOverlaid(s, s1, fs, ip, 512 * bn + on, chunk);
    }

    // One pass of writei's loop: the part of the write that falls in one block.
    method WriteBlock(ip: Inode) returns (ok: bool, ghost chunk: seq<Byte>)
      requires Valid() && ip in inodes && fs.t[ip].size < MAX_FILE
      requires u.InArea() && u.count > 0 && u.error == 0
      modifies this, u, u.area, ip
      ensures fs.t.Keys == inodes == old(fs).t.Keys && u.InArea() && u.area[..] == old(u.area[..])
      ensures |old(fs).t[ip].addr| == 8 && |fs.t[ip].addr| == 8 && fs.t[ip].size < MAX_FILE
      ensures OthersKept(old(fs), fs, ip)
      ensures ok ==> Valid() && u.Advanced(ChunkSize(old(u.offset), old(u.count)))
      ensures ok ==> BlockNumber(old(u.offset)) < 0x8000 && |chain| + 4 >= |old(chain)|
      ensures chunk == old(u.area[..])[old(u.base)..old(u.base) + ChunkSize(old(u.offset), old(u.count))]
      ensures ok ==> Overlaid(old(fs), fs, ip,
                              512 * BlockNumber(old(u.offset)) + old(u.offset) % 512, chunk)
      ensures ok ==> fs.t[ip].size == if Dpcmp(old(fs).t[ip].size, u.offset) < 0
                                      then StoredSize(u.offset) else old(fs).t[ip].size
      ensures !ok ==> u.error == if BlockNumber(old(u.offset)) < 0x8000 then ENOSPC else EFBIG
      ensures !ok ==> (!damaged ==> Valid()) && Keeps(old(fs), fs)
      ensures !ok ==> u.base == old(u.base) && u.count == old(u.count) && u.offset == old(u.offset)
      ensures BlockNumber(old(u.offset)) < 0x8000 && |old(chain)| >= 4 ==> ok
      ensures ip.lastRead == old(ip.lastRead) && (old(ip.updated) || ok ==> ip.updated)
    {
      hide Sound, NothingLoose, FreeListOk, Keeps, SameMap, SameMapExcept, MapOf, OthersKept, Need, Valid, Mirrored;
      hide Overlaid, Dpcmp, BlockNumber, FreeReady, Dpadd, Converts, Following, Stale, Last, NeedConvert;
      Facts();
      ghost var s := fs;
      AddressesFitAll(s);
      var bn := BlockNumber(u.offset);
      var on := u.offset % 512;
      var n := Min(512 - on, u.count);
      chunk := u.area[..][u.base..u.base + n];
      NeedAtMostFour(s.d, s.t[ip], bn);
      var nb := Bmap(ip, bn);
      if nb == 0 {
        KeptBytes(s, fs, ip);
        KeptSizes(s, fs);
        ok := false;
        return;
      }
      KeptSizes(s, fs);
      Facts();
      StoreChunk(ip, bn, nb, on, n, chunk, s);
      Facts();
      ok := true;
    }

    // One iteration, as a step of the whole write.
    method WriteStep(ip: Inode, ghost s: Fs, ghost area: seq<Byte>, ghost off: Offset, ghost base: nat,
                     ghost count: nat, ghost written: seq<Byte>)
      returns (ok: bool, ghost chunk: seq<Byte>)
      requires Valid() && ip in inodes && fs.t[ip].size < MAX_FILE && s.t.Keys == inodes
      requires u.InArea() && u.count > 0 && u.error == 0 && u.area[..] == area
      requires Progress(s, fs, ip, area, off, base, count, written, u.offset, u.base, u.count)
      requires |s.t[ip].addr| == 8 && s.t[ip].size < MAX_FILE
      modifies this, u, u.area, ip
      ensures fs.t.Keys == inodes && u.InArea() && u.area[..] == area
      ensures ok ==> Valid() && u.error == 0 && u.count < old(u.count) && fs.t[ip].size < MAX_FILE
      ensures ok ==>
                Progress(s, fs, ip, area, off, base, count, written + chunk, u.offset, u.base, u.count)
      ensures !ok ==> (u.error == ENOSPC || u.error == EFBIG) && (!damaged ==> Valid())
      ensures !ok ==> u.base == old(u.base) && u.count == old(u.count) && u.offset == old(u.offset)
      ensures !ok ==> OthersKept(s, fs, ip)
      ensures !ok && off + count < MAX_FILE ==> Written(s, fs, ip, off, written) && u.error != EFBIG
      ensures off + count < MAX_FILE && |s.chain| >= 4 * (count / 512 + 2) ==> ok
      ensures ip.lastRead == old(ip.lastRead) && (old(ip.updated) ==> ip.updated)
    {
      hide Sound, NothingLoose, FreeListOk, OthersKept, Overlaid, BlockNumber, Dpcmp, Dpadd, Written, Keeps,
           Valid, Mirrored, FreeReady;
      Facts();
      AddressesFitAll(fs);
      ghost var s1, off1, base1, count1 := fs, u.offset, u.base, u.count;
      InRange(off, count, |written|);
      ok, chunk := WriteBlock(ip);
      if ok {
        Facts();
        ProgressStep(s, s1, fs, ip, area, off, base, count, written, off1, base1, count1, chunk);
      } else {
        ProgressStop(s, s1, fs, ip, area, off, base, count, written, off1, base1, count1);
      }
    }

    // Write the user's bytes at u_offset. Whatever the offset, no other file changes and
    // the ownership of blocks stays sound unless bmap ran out in mid-tree; below 2^24 the
    // file is the flat array with the written bytes in place.
    method Writei(ip: Inode) returns (ghost written: seq<Byte>)
      requires Valid() && ip in inodes && fs.t[ip].size < MAX_FILE
      requires u.InArea() && u.error == 0
      modifies this, u, u.area, ip
      ensures fs.t.Keys == inodes == old(fs).t.Keys && u.area[..] == old(u.area[..])
      ensures u.count <= old(u.count) && u.base == old(u.base) + |written|
      ensures |written| == old(u.count) - u.count && u.offset == Dpadd(old(u.offset), |written|)
      ensures written == u.area[..][old(u.base)..u.base]
      ensures u.error in {0, ENOSPC, EFBIG} && (u.error == 0 ==> u.count == 0)
      ensures OthersKept(old(fs), fs, ip)
      ensures !damaged || u.error == 0 ==> Valid()
      ensures old(u.offset) + old(u.count) < MAX_FILE ==>
                Written(old(fs), fs, ip, old(u.offset), written) && u.error != EFBIG
      ensures old(u.offset) + old(u.count) < MAX_FILE ==>
                (|old(chain)| >= 4 * (old(u.count) / 512 + 2) ==> u.error == 0 && !damaged)
      ensures ip.updated && ip.lastRead == old(ip.lastRead)
    {
      hide Sound, NothingLoose, FreeListOk, OthersKept, Overlaid, BlockNumber, Dpcmp, Dpadd, Written, Keeps;
      ghost var s, off, count, base, area := fs, u.offset, u.count, u.base, u.area[..];
      AddressesFitAll(s);
      ProgressStart(s, ip, area, off, base, count);
      written := [];
      ip.updated := true;
      if u.count == 0 {
        return;
      }
      hide Valid, Mirrored, FreeReady, Progress;
      var more := true;
      while more
        invariant fs.t.Keys == inodes && fs.t[ip].size < MAX_FILE
        invariant Valid() && u.InArea() && u.area[..] == area && u.error == 0
        invariant Progress(s, fs, ip, area, off, base, count, written, u.offset, u.base, u.count)
        invariant ip.updated && ip.lastRead == old(ip.lastRead)
        invariant more <==> u.count != 0
        decreases u.count
      {
        ghost var s1 := fs;
        ProgressFacts(s, fs, ip, area, off, base, count, written, u.offset, u.base, u.count);
        var ok;
        ghost var chunk;
        ok, chunk := WriteStep(ip, s, area, off, base, count, written);
        if !ok {
          return;
        }
        written := written + chunk;
        more := u.error == 0 && u.count != 0;
      }
      ProgressFacts(s, fs, ip, area, off, base, count, written, u.offset, u.base, u.count);
    }

    // The buffer of logical block bn, with read-ahead when the file is read in sequence,
    // and its bytes handed to the user.
    method ReadChunk(ip: Inode, bn: nat, nb: nat, on: nat, n: nat)
      requires Valid() && ip in inodes && |fs.t[ip].addr| == 8
      requires nb == MapOf(fs.d, fs.t[ip], bn) != 0
      requires rablock == Following(fs.d, fs.t[ip], bn)
      requires u.InArea() && 0 < n <= u.count && on + n <= 512
      modifies this`held, this`asked, u, u.area, ip`lastRead
      ensures Valid() && u.InArea() && u.Advanced(n)
      ensures u.area[..] ==
                Splice(old(u.area[..]), old(u.base), BlockOf(fs.d, fs.t[ip], bn)[on..on + n])
      ensures ip.lastRead == bn
      ensures asked == if old(ip.lastRead) + 1 == bn && rablock != 0 then old(asked) + [rablock] else old(asked)
    {
      hide Sound, NothingLoose, FreeListOk, MapOf, BlockOf, Dpadd;
      MapInArea(fs, ip, bn);
      MapInArea(fs, ip, bn + 1);
      BlockAt(fs.d, fs.t[ip], bn);
      var buf;
      if ip.lastRead + 1 == bn {
        buf := Breada(nb, rablock);
      } else {
        buf := Bread(nb);
      }
      ip.lastRead := bn;
      DataSlice(buf, on, n);
      buf := u.Iomove(buf, on, n, false, oddBuffers);
      Brelse(nb);
    }

    // One pass of readi's loop.
    method ReadBlock(ip: Inode) returns (end: bool, ghost got: seq<Byte>)
      requires Valid() && ip in inodes && fs.t[ip].size < MAX_FILE
      requires u.InArea() && u.count > 0 && u.error == 0
      modifies this, u, u.area, ip
      ensures fs.t.Keys == inodes == old(fs).t.Keys && u.InArea()
      ensures |old(fs).t[ip].addr| == 8 && fs.t[ip].size == old(fs).t[ip].size
      ensures Keeps(old(fs), fs) && (!damaged ==> Valid())
      ensures !end ==> Valid() && got != [] && u.Advanced(|got|)
      ensures !end ==> |got| == Min(ChunkSize(old(u.offset), old(u.count)),
                                    Max(0, Dpcmp(old(fs).t[ip].size, old(u.offset))))
      ensures !end ==> BytesAt(old(fs), ip,
                               512 * BlockNumber(old(u.offset)) + old(u.offset) % 512, got)
      ensures !end ==> u.area[..] == Splice(old(u.area[..]), old(u.base), got)
      ensures !end ==> |chain| + 4 >= |old(chain)|
      ensures end ==> got == [] && u.base == old(u.base) && u.count == old(u.count)
      ensures end ==> u.offset == old(u.offset) && u.area[..] == old(u.area[..])
      ensures end && u.error == 0 ==> Dpcmp(old(fs).t[ip].size, old(u.offset)) <= 0 && !damaged
      ensures end && u.error != 0 ==> Dpcmp(old(fs).t[ip].size, old(u.offset)) > 0
      ensures u.error == 0 || u.error == if BlockNumber(old(u.offset)) < 0x8000 then ENOSPC else EFBIG
      ensures BlockNumber(old(u.offset)) < 0x8000 && |old(chain)| >= 4 ==> u.error == 0
      ensures (old(ip.updated) ==> ip.updated) && (old(ip.large) ==> ip.large)
      ensures ip.Value() != old(ip.Value()) ==> ip.updated || (!old(ip.large) && ip.large)
      ensures !end ==> ip.lastRead == BlockNumber(old(u.offset))
    {
      hide Sound, NothingLoose, FreeListOk, Keeps, SameMap, SameMapExcept, MapOf, Need, BytesAt, Valid, Mirrored;
      hide Dpcmp, BlockNumber, FreeReady, Dpadd, BlockOf, Following, Stale, Last, NeedConvert;
      Facts();
      ghost var s := fs;
      AddressesFitAll(s);
      KeepsReflexive(s, ip, 0);
      got, end := [], true;
      var lbn := BlockNumber(u.offset);
      var on := u.offset % 512;
      var n := Min(512 - on, u.count);
      var dn := Dpcmp(ip.size, u.offset);
      if dn <= 0 {
        return;
      }
      n := Min(n, dn);
      NeedAtMostFour(s.d, s.t[ip], lbn);
      var nb := Bmap(ip, lbn);
      KeptSizes(s, fs);
      if nb == 0 {
        return;
      }
      Facts();
      BytesInBlock(s, fs, ip, lbn, on, n);
      got := BlockOf(fs.d, fs.t[ip], lbn)[on..on + n];
      ReadChunk(ip, lbn, nb, on, n);
      end := false;
    }

    // One iteration, as a step of the whole read.
    method ReadStep(ip: Inode, ghost s: Fs, ghost area: seq<Byte>, ghost off: Offset, ghost base: nat,
                    ghost count: nat, ghost got: seq<Byte>)
      returns (end: bool, ghost more: seq<Byte>)
      requires Valid() && ip in inodes && fs.t[ip].size < MAX_FILE && s.t.Keys == inodes
      requires u.InArea() && u.count > 0 && u.error == 0
      requires Reading(s, fs, ip, area, off, base, count, got, u.area[..], u.offset, u.base, u.count)
      requires s.t[ip].size < MAX_FILE
      modifies this, u, u.area, ip
      ensures fs.t.Keys == inodes && u.InArea() && fs.t[ip].size < MAX_FILE && |s.t[ip].addr| == 8
      ensures !end ==> Valid() && u.count < old(u.count)
      ensures !end ==> Reading(s, fs, ip, area, off, base, count, got + more,
                               u.area[..], u.offset, u.base, u.count)
      ensures end ==> u.base == old(u.base) && u.count == old(u.count)
      ensures end ==> u.offset == old(u.offset) && u.area[..] == old(u.area[..])
      ensures end ==> Keeps(s, fs) && (!damaged || u.error == 0 ==> Valid())
      ensures !end ==> u.error == 0
      ensures u.error in {0, ENOSPC, EFBIG} && (InReach(off, s.t[ip].size) ==> u.error != EFBIG)
      ensures end && InReach(off, s.t[ip].size) ==> got <= FlatRead(Contents(s.d, s.t[ip]), off, count)
      ensures end && InReach(off, s.t[ip].size) && u.error == 0 ==> got == FlatRead(Contents(s.d, s.t[ip]), off, count)
      ensures InReach(off, s.t[ip].size) && |s.chain| >= 4 * (count / 512 + 2) ==> u.error == 0
      ensures end && got == [] && u.error == 0 ==> InReach(off, s.t[ip].size)
      ensures !end ==> more != []
      ensures (old(ip.updated) ==> ip.updated) && (old(ip.large) ==> ip.large)
      ensures ip.Value() != old(ip.Value()) ==> ip.updated || (!old(ip.large) && ip.large)
    {
      hide Sound, NothingLoose, FreeListOk, BlockNumber, Dpcmp, Dpadd, Keeps, BytesAt, Contents, FlatRead,
           Valid, Mirrored, FreeReady;
      ghost var s1, area1, off1, base1, count1 := fs, u.area[..], u.offset, u.base, u.count;
      Facts();
      AddressesFitAll(fs);
      KeptSizes(s, s1);
      SmallOffsets(s, ip, off, |got|, off1);
      end, more := ReadBlock(ip);
      KeptSizes(s1, fs);
      DpaddZero(off);
      OffsetsWrap(s.t[ip].size, off);
      if end {
        ReadingStop(s, s1, fs, ip, area, off, base, count, got, area1, off1, base1, count1);
      } else {
        Facts();
        ReadingStep(s, s1, fs, ip, area, off, base, count, got, area1, off1, base1, count1, more);
      }
    }

    // Read at u_offset. No file changes, whatever the offset. Up to 2^31 behind the end the
    // user gets the bytes of the flat array, up to its end: all of them, unless a hole had
    // to be filled and there was no room. From an offset behind that, a read that is asked
    // for anything gives an error or bytes that are not there.
    method Readi(ip: Inode) returns (ghost got: seq<Byte>)
      requires Valid() && ip in inodes && fs.t[ip].size < MAX_FILE
      requires u.InArea() && u.error == 0
      modifies this, u, u.area, ip
      ensures fs.t.Keys == inodes == old(fs).t.Keys && |old(fs).t[ip].addr| == 8
      ensures u.count + |got| == old(u.count) && u.base == old(u.base) + |got|
      ensures u.offset == Dpadd(old(u.offset), |got|)
      ensures old(u.base) + |got| <= u.area.Length && u.area[..] == Splice(old(u.area[..]), old(u.base), got)
      ensures u.error in {0, ENOSPC, EFBIG} && (InReach(old(u.offset), old(fs).t[ip].size) ==> u.error != EFBIG)
      ensures Keeps(old(fs), fs) && (!damaged || u.error == 0 ==> Valid())
      ensures InReach(old(u.offset), old(fs).t[ip].size) ==>
                got <= FlatRead(Contents(old(fs).d, old(fs).t[ip]), old(u.offset), old(u.count))
      ensures InReach(old(u.offset), old(fs).t[ip].size) && u.error == 0 ==>
                got == FlatRead(Contents(old(fs).d, old(fs).t[ip]), old(u.offset), old(u.count))
      ensures InReach(old(u.offset), old(fs).t[ip].size) && |old(chain)| >= 4 * (old(u.count) / 512 + 2) ==>
                u.error == 0
      ensures !InReach(old(u.offset), old(fs).t[ip].size) && old(u.count) > 0 ==> u.error != 0 || got != []
      ensures (old(ip.updated) ==> ip.updated) && (old(ip.large) ==> ip.large)
      ensures ip.Value() != old(ip.Value()) ==> ip.updated || (!old(ip.large) && ip.large)
    {
      hide Sound, NothingLoose, FreeListOk, BlockNumber, Dpcmp, Dpadd, Keeps, BytesAt, Contents;
      ghost var s, off, count, base, area := fs, u.offset, u.count, u.base, u.area[..];
      AddressesFitAll(s);
      ReadingStart(s, ip, area, off, base, count);
      got := [];
      ReadingStop(s, s, s, ip, area, off, base, count, got, area, off, base, count);
      ReadingFacts(s, s, ip, area, off, base, count, got, area, off, base, count);
      hide Valid, Mirrored, FreeReady, Reading;
      if u.count == 0 {
        return;
      }
      var more := true;
      while more
        invariant fs.t.Keys == inodes && fs.t[ip].size < MAX_FILE && u.InArea() && u.error == 0
        invariant Valid()
        invariant Reading(s, fs, ip, area, off, base, count, got, u.area[..], u.offset, u.base, u.count)
        invariant (old(ip.updated) ==> ip.updated) && (old(ip.large) ==> ip.large)
        invariant ip.Value() != old(ip.Value()) ==> ip.updated || (!old(ip.large) && ip.large)
        invariant more <==> u.count != 0
        decreases u.count
      {
        ReadingFacts(s, fs, ip, area, off, base, count, got, u.area[..], u.offset, u.base, u.count);
        var end;
        ghost var bytes;
        end, bytes := ReadStep(ip, s, area, off, base, count, got);
        if end {
          return;
        }
        got := got + bytes;
        more := u.error == 0 && u.count != 0;
      }
      ReadingFacts(s, fs, ip, area, off, base, count, got, u.area[..], u.offset, u.base, u.count);
      KeptSizes(s, fs);
      KeepsAgain(s, fs);
      ReadingStop(s, fs, fs, ip, area, off, base, count, got, u.area[..], u.offset, u.base, u.count);
    }

    // ---- itrunc ----

    // free, for a block that hangs below slot i of ip at place r.
    method FreeLoose(ip: Inode, i: nat, b: nat, ghost n: InodeValue, ghost c: Cursor, ghost c': Cursor,
                     ghost r: Ref)
      requires Truncating(ip, i) && LooseTree(fs, n, i, c) && Left(i, c, r)
      requires b == Ptr(fs.d, n, r) != 0 && b !in held
      requires forall q :: Ptr(fs.d, n, q) != 0 ==> (Left(i, c', q) <==> Left(i, c, q) && q != r)
      requires match r
               case Slot(_) => c' == Nothing && c == RootOnly
               case Entry(_, j) => i == 7 ==> forall k :: !Left(i, c', Deep(j, k))
               case Deep(_, _) => true
      modifies this`nfree, this`free, this`chain, this`disk, this`held, this`fs
      ensures Truncating(ip, i) && held == old(held) && |disk| == |old(disk)|
      ensures forall x: nat :: x < |disk| && x != b ==> disk[x] == old(disk)[x]
      ensures r.Slot? ==> NothingLoose(fs)
      ensures !r.Slot? ==> LooseTree(fs, n, i, c')
      ensures OnlyFreed(old(fs), fs) && Keeps(old(fs), fs)
    {
      hide Keeps, FreeListOk, Sound, NothingLoose, LooseTree, Left, OnlyFreed, Ptr;
      ghost var s := fs;
      LooseNotFree(s, n, i, c, r);
      Free(b);
      LooseFreed(s, n, i, c, c', r, disk, free[..nfree]);
      GivenSound(s, disk, free[..nfree], b);
      fs := Given(s, disk, free[..nfree], b);
    }

    // The loop over the words of second-level block w, named by word j of slot 7.
    method FreeSecond(ip: Inode, j: nat, w: nat, ghost n: InodeValue)
      requires Truncating(ip, 7) && j < WORDS && |n.addr| == 8 && n.large
      requires LooseTree(fs, n, 7, Cursor(j, true, WORDS))
      requires w == EntryPtr(fs.d, n, 7, j) != 0 && held == {n.addr[7]}
      modifies this`nfree, this`free, this`chain, this`disk, this`held, this`fs
      ensures Truncating(ip, 7) && held == old(held) && |disk| == |old(disk)|
      ensures LooseTree(fs, n, 7, Cursor(j, true, 0))
      ensures n.addr[7] < |disk| && disk[n.addr[7]] == old(disk)[n.addr[7]]
      ensures OnlyFreed(old(fs), fs) && Keeps(old(fs), fs)
    {
      hide Sound, Keeps, FreeListOk, LooseTree, OnlyFreed, NothingLoose;
      ghost var s := fs;
      SecondLoose(fs, n, j, Cursor(j, true, WORDS));
      OnlyFreedReflexive(fs, ip);
      var dp := Bread(w);
      var ep: nat := WORDS + 1;
      while ep > 0
        modifies this`nfree, this`free, this`chain, this`disk, this`held, this`fs
        invariant ep <= WORDS + 1 && Truncating(ip, 7) && held == {n.addr[7], w}
        invariant |disk| == |s.d| && w < |disk| && n.addr[7] < |disk| && Data(dp) == disk[w]
        invariant disk[n.addr[7]] == s.d[n.addr[7]] && w == EntryPtr(fs.d, n, 7, j)
        invariant LooseTree(fs, n, 7, Cursor(j, true, Min(ep, WORDS)))
        invariant OnlyFreed(s, fs) && Keeps(s, fs)
      {
        ep := ep - 1;
        var x := WordAt(dp, ep);
        if x != 0 {
          assert x == Ptr(fs.d, n, Deep(j, ep));
          DeepStep(fs.d, n, j, ep);
          DeepLoose(fs, n, j, ep, Cursor(j, true, ep + 1));
          ghost var s1 := fs;
          FreeLoose(ip, 7, x, n, Cursor(j, true, ep + 1), Cursor(j, true, ep), Deep(j, ep));
          OnlyFreedTransitive(s, s1, fs);
          KeepsTransitive(s, s1, fs);
        } else if ep < WORDS {
          DeepStep(fs.d, n, j, ep);
          SoundLow(fs);
          LooseSkip(fs, n, 7, Cursor(j, true, ep + 1), Cursor(j, true, ep));
        }
      }
      Brelse(w);
    }

    // One word of the indirect block in slot i: what is below it, then its own block.
    method FreeEntry(ip: Inode, i: nat, cp: nat, w: nat, ghost n: InodeValue)
      requires Truncating(ip, i) && cp < WORDS && |n.addr| == 8 && n.large && n.addr[i] != 0
      requires LooseTree(fs, n, i, Cursor(cp + 1, false, 0))
      requires w == EntryPtr(fs.d, n, i, cp) != 0 && held == {n.addr[i]}
      modifies this`nfree, this`free, this`chain, this`disk, this`held, this`fs
      ensures Truncating(ip, i) && held == old(held) && |disk| == |old(disk)|
      ensures LooseTree(fs, n, i, Cursor(cp, false, 0))
      ensures n.addr[i] < |disk| && disk[n.addr[i]] == old(disk)[n.addr[i]]
      ensures OnlyFreed(old(fs), fs) && Keeps(old(fs), fs)
    {
      hide Sound, Keeps, FreeListOk, LooseTree, OnlyFreed, NothingLoose, FreeReady;
      ghost var s := fs;
      OnlyFreedReflexive(fs, ip);
      SoundLow(fs);
      EntryStep(fs.d, n, i, cp);
      RootLoose(fs, n, i, Cursor(cp + 1, false, 0));
      if i == 7 {
        LooseSkip(fs, n, i, Cursor(cp + 1, false, 0), Cursor(cp, true, WORDS));
        FreeSecond(ip, cp, w, n);
      } else {
        LooseSkip(fs, n, i, Cursor(cp + 1, false, 0), Cursor(cp, true, 0));
      }
      ghost var s1 := fs;
      EntryStep(fs.d, n, i, cp);
      EntryLoose(fs, n, i, cp, Cursor(cp, true, 0));
      FreeLoose(ip, i, w, n, Cursor(cp, true, 0), Cursor(cp, false, 0), Entry(i, cp));
      OnlyFreedTransitive(s, s1, fs);
      KeepsTransitive(s, s1, fs);
    }

    // The loop over the words of the indirect block in slot i.
    method FreeIndirect(ip: Inode, i: nat, ghost n: InodeValue)
      requires Truncating(ip, i) && |n.addr| == 8 && n.large && n.addr[i] == ip.addr[i] != 0
      requires LooseTree(fs, n, i, Cursor(WORDS, false, 0)) && held == {}
      modifies this`nfree, this`free, this`chain, this`disk, this`held, this`fs
      ensures Truncating(ip, i) && held == {} && |disk| == |old(disk)|
      ensures LooseTree(fs, n, i, Cursor(0, false, 0))
      ensures OnlyFreed(old(fs), fs) && Keeps(old(fs), fs)
    {
      hide Sound, Keeps, FreeListOk, LooseTree, OnlyFreed, NothingLoose;
      ghost var s := fs;
      RootLoose(fs, n, i, Cursor(WORDS, false, 0));
      OnlyFreedReflexive(fs, ip);
      var p := ip.addr[i];
      var bp := Bread(p);
      var cp: nat := WORDS + 1;
      while cp > 0
        modifies this`nfree, this`free, this`chain, this`disk, this`held, this`fs
        invariant cp <= WORDS + 1 && Truncating(ip, i) && held == {p} && ip.addr[i] == p
        invariant |disk| == |s.d| && p < |disk| && Data(bp) == disk[p]
        invariant LooseTree(fs, n, i, Cursor(Min(cp, WORDS), false, 0))
        invariant OnlyFreed(s, fs) && Keeps(s, fs)
      {
        cp := cp - 1;
        var w := WordAt(bp, cp);
        if w != 0 {
          assert w == EntryPtr(fs.d, n, i, cp);
          ghost var s1 := fs;
          FreeEntry(ip, i, cp, w, n);
          OnlyFreedTransitive(s, s1, fs);
          KeepsTransitive(s, s1, fs);
        } else if cp < WORDS {
          EntryStep(fs.d, n, i, cp);
          SoundLow(fs);
          LooseSkip(fs, n, i, Cursor(cp + 1, false, 0), Cursor(cp, false, 0));
        }
      }
      Brelse(p);
    }

    // One slot of i_addr.
    method FreeSlot(ip: Inode, i: nat)
      requires Valid() && ip in inodes && i < 8 && |ip.addr| == 8 && ip.addr[i] != 0
      modifies this`nfree, this`free, this`chain, this`disk, this`held, this`fs, ip`addr
      ensures Valid() && ip.addr == old(ip.addr)[i := 0]
      ensures OnlyFreed(Unlinked(old(fs), ip, i), fs) && Keeps(Unlinked(old(fs), ip, i), fs)
    {
      hide Sound, Keeps, FreeListOk, LooseTree, OnlyFreed, NothingLoose;
      ghost var n, s := ip.Value(), Unlinked(fs, ip, i);
      UnlinkedSound(fs, ip, i);
      UnlinkedTree(fs, ip, i);
      fs := s;
      OnlyFreedReflexive(fs, ip);
      if ip.large {
        FreeIndirect(ip, i, n);
        RootStep(fs.d, n, i);
        SoundLow(fs);
        LooseSkip(fs, n, i, Cursor(0, false, 0), RootOnly);
      }
      ghost var s1 := fs;
      RootStep(fs.d, n, i);
      FreeLoose(ip, i, ip.addr[i], n, RootOnly, Nothing, Slot(i));
      OnlyFreedTransitive(s, s1, fs);
      KeepsTransitive(s, s1, fs);
      ip.addr := ip.addr[i := 0];
    }

    // The loop over the slots, from the last to the first.
    method FreeSlots(ip: Inode)
      requires Valid() && ip in inodes
      modifies this`nfree, this`free, this`chain, this`disk, this`held, this`fs, ip`addr
      ensures Valid() && Truncated(old(fs), fs, ip, 0)
    {
      hide Sound, FreeListOk, OnlyFreed, NothingLoose, Truncated, Keeps;
      ghost var s := fs;
      TruncatedStart(s, ip);
      AddressesFit(fs, ip);
      var i: nat := 8;
      while i > 0
        modifies this`nfree, this`free, this`chain, this`disk, this`held, this`fs, ip`addr
        invariant i <= 8 && Valid() && Truncated(s, fs, ip, i) && |ip.addr| == 8
      {
        i := i - 1;
        if ip.addr[i] != 0 {
          ghost var s1 := fs;
          FreeSlot(ip, i);
          TruncatedStep(s, s1, fs, ip, i);
        } else {
          TruncatedEmpty(s, fs, ip, i);
        }
      }
    }

    // Free all the blocks of a file. Each goes to the free list once, pointer blocks are
    // read before they are freed, and no buffer is asked for twice.
    method Itrunc(ip: Inode)
      requires Valid() && ip in inodes
      modifies this`nfree, this`free, this`chain, this`disk, this`held, this`fs, ip
      ensures Valid() && fs.t.Keys == inodes
      ensures fs.t[ip] == InodeValue(false, seq(8, _ => 0), 0)
      ensures OthersKept(old(fs), fs, ip)
      ensures GrownBy(old(fs), fs, ip)
      ensures Trimmed(old(fs)) ==> Trimmed(fs)
      ensures ip.updated
    {
      hide Sound, FreeListOk, NothingLoose, Truncated, OthersKept, Trimmed, GrownBy, Contents, Valid;
      ghost var s := fs;
      Facts();
      FreeSlots(ip);
      Facts();
      TruncatedDone(s, fs, ip);
      EmptyInode(ip);
    }

    // The inode becomes that of a small, empty file.
    method EmptyInode(ip: Inode)
      requires Valid() && ip in inodes && fs.t[ip].addr == seq(8, _ => 0)
      requires Sound(Emptied(fs, ip)) && NothingLoose(Emptied(fs, ip))
      modifies this`fs, ip`large, ip`size, ip`updated
      ensures Valid() && fs == Emptied(old(fs), ip)
      ensures ip.updated
    {
      hide Sound, FreeListOk, NothingLoose;
      ip.large := false;
      ip.size := 0;
      ip.updated := true;
      fs := Emptied(fs, ip);
    }

    lemma Facts()
      requires Valid()
      ensures Sound(fs) && NothingLoose(fs) && fs.t.Keys == inodes && held == {} && !damaged
      ensures fs.d == disk && fs.chain == chain && nfree <= NICFREE == |free|
      ensures FreeListOk(disk, lo, free[..nfree], chain) && forall n :: n in inodes ==> fs.t[n] == n.Value()
    {
    }
  }
}
