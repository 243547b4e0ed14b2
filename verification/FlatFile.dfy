// Files as flat byte arrays with holes: what a reader of the block trees sees.
module FlatFile {
  import opened Machine
  import opened FreeChain
  import opened BlockTree
  import opened UserIo

  // Byte k of a file, whatever its size field says.
  function FileByte(d: Disk, n: InodeValue, k: nat): Byte
    requires |n.addr| == 8
  {
    BlockOf(d, n, k / 512)[k % 512]
  }

  // The file as an array of bytes.
  function Contents(d: Disk, n: InodeValue): (c: seq<Byte>)
    requires |n.addr| == 8
    ensures |c| == n.size
  {
    seq(n.size, k requires 0 <= k => FileByte(d, n, k))
  }

  // What write and read do to an array of bytes.
  function FlatWrite(c: seq<Byte>, off: nat, data: seq<Byte>): (c': seq<Byte>)
    ensures |c'| == if data == [] || off + |data| < |c| then |c| else off + |data|
    ensures forall k :: 0 <= k < |c'| ==>
              c'[k] == if off <= k < off + |data| then data[k - off] else if k < |c| then c[k] else 0
  {
    if data == [] then c
    else
      seq(if off + |data| < |c| then |c| else off + |data|, k requires 0 <= k =>
        if off <= k < off + |data| then data[k - off] else if k < |c| then c[k] else 0)
  }

  function FlatRead(c: seq<Byte>, off: nat, count: nat): (r: seq<Byte>)
    ensures |r| == if off >= |c| then 0 else if off + count < |c| then count else |c| - off
  {
    if off >= |c| then [] else if off + count < |c| then c[off..off + count] else c[off..]
  }

  // Sizes fit the inode, and no file has a nonzero byte beyond its size.
  ghost predicate Trimmed(s: Fs) {
    && (forall n :: n in s.t ==> |s.t[n].addr| == 8 && s.t[n].size < MAX_FILE)
    && (forall n, k: nat :: n in s.t && k >= s.t[n].size ==> FileByte(s.d, s.t[n], k) == 0)
  }

  // Every other file is exactly as it was.
  ghost predicate OthersKept(s: Fs, s': Fs, n: Inode) {
    && s'.t.Keys == s.t.Keys
    && (forall m :: m in s.t ==> |s.t[m].addr| == 8 && |s'.t[m].addr| == 8)
    && (forall m :: m in s.t && m != n ==> s'.t[m].size == s.t[m].size)
    && (forall m, x: nat :: m in s.t && m != n ==> BlockOf(s'.d, s'.t[m], x) == BlockOf(s.d, s.t[m], x))
  }

  // The bytes of n from off on are data, the others as before.
  ghost predicate Overlaid(s: Fs, s': Fs, n: Inode, off: nat, data: seq<Byte>)
    requires n in s.t && n in s'.t && |s.t[n].addr| == 8 && |s'.t[n].addr| == 8
  {
    forall k: nat :: FileByte(s'.d, s'.t[n], k)
      == if off <= k < off + |data| then data[k - off] else FileByte(s.d, s.t[n], k)
  }

  // One block written: the block keeps its bytes outside [on, on + |chunk|).
  lemma OverlayStep(s: Fs, s': Fs, n: Inode, bn: nat, on: nat, chunk: seq<Byte>)
    requires n in s.t && n in s'.t && |s.t[n].addr| == 8 && |s'.t[n].addr| == 8
    requires on + |chunk| <= 512
    requires BlockOf(s'.d, s'.t[n], bn) == Splice(BlockOf(s.d, s.t[n], bn), on, chunk)
    requires forall x: nat :: x != bn ==> BlockOf(s'.d, s'.t[n], x) == BlockOf(s.d, s.t[n], x)
    ensures Overlaid(s, s', n, 512 * bn + on, chunk)
  {
    forall k: nat ensures FileByte(s'.d, s'.t[n], k) ==
        if 512 * bn + on <= k < 512 * bn + on + |chunk| then chunk[k - (512 * bn + on)]
        else FileByte(s.d, s.t[n], k)
    {
      assert k == 512 * (k / 512) + k % 512;
      if k / 512 != bn {
        assert BlockOf(s'.d, s'.t[n], k / 512) == BlockOf(s.d, s.t[n], k / 512);
      }
    }
  }

  lemma OverlayAppend(s: Fs, s1: Fs, s2: Fs, n: Inode, off: nat, a: seq<Byte>, b: seq<Byte>)
    requires n in s.t && n in s1.t && n in s2.t
    requires |s.t[n].addr| == 8 && |s1.t[n].addr| == 8 && |s2.t[n].addr| == 8
    requires Overlaid(s, s1, n, off, a) && Overlaid(s1, s2, n, off + |a|, b)
    ensures Overlaid(s, s2, n, off, a + b)
  {
  }

  // Keeping every block keeps every byte.
  lemma KeptBytes(s: Fs, s': Fs, n: Inode)
    requires Keeps(s, s') && n in s.t
    ensures Overlaid(s, s', n, 0, []) && OthersKept(s, s', n)
    ensures Contents(s'.d, s'.t[n]) == Contents(s.d, s.t[n])
  {
    forall k: nat ensures FileByte(s'.d, s'.t[n], k) == FileByte(s.d, s.t[n], k) {
    }
  }

  lemma OthersContents(s: Fs, s': Fs, n: Inode, m: Inode)
    requires OthersKept(s, s', n) && m in s.t && m != n
    ensures Contents(s'.d, s'.t[m]) == Contents(s.d, s.t[m])
    ensures forall k: nat :: FileByte(s'.d, s'.t[m], k) == FileByte(s.d, s.t[m], k)
  {
    forall k: nat ensures FileByte(s'.d, s'.t[m], k) == FileByte(s.d, s.t[m], k) {
    }
  }

  // An overlay, with the size raised to cover it, is a write to the flat array; and no
  // nonzero byte appears beyond the size.
  lemma OverlayIsFlatWrite(s: Fs, s': Fs, n: Inode, off: nat, data: seq<Byte>)
    requires Trimmed(s) && n in s.t && OthersKept(s, s', n) && Overlaid(s, s', n, off, data)
    requires off + |data| < MAX_FILE
    requires s'.t[n].size == if data == [] || off + |data| <= s.t[n].size then s.t[n].size else off + |data|
    ensures Contents(s'.d, s'.t[n]) == FlatWrite(Contents(s.d, s.t[n]), off, data)
    ensures Trimmed(s')
  {
    forall m, k: nat | m in s'.t && k >= s'.t[m].size ensures FileByte(s'.d, s'.t[m], k) == 0 {
      if m != n {
        OthersContents(s, s', n, m);
      }
    }
  }

  lemma OthersKeptReflexive(s: Fs, n: Inode)
    requires forall m :: m in s.t ==> |s.t[m].addr| == 8
    ensures OthersKept(s, s, n)
    ensures n in s.t ==> Overlaid(s, s, n, 0, [])
  {
  }

  lemma OthersKeptTransitive(s: Fs, s': Fs, s'': Fs, n: Inode)
    requires OthersKept(s, s', n) && OthersKept(s', s'', n)
    ensures OthersKept(s, s'', n)
  {
  }

  // A run of overlays that starts with nothing written.
  lemma OverlayNone(s: Fs, s': Fs, n: Inode, off: nat)
    requires n in s.t && n in s'.t && |s.t[n].addr| == 8 && |s'.t[n].addr| == 8
    requires Overlaid(s, s', n, 0, [])
    ensures Overlaid(s, s', n, off, [])
  {
    forall k: nat ensures FileByte(s'.d, s'.t[n], k) == FileByte(s.d, s.t[n], k) {
    }
  }

  // Keeping the blocks and then writing data is writing data.
  lemma KeptThenOverlaid(s: Fs, s1: Fs, s2: Fs, n: Inode, off: nat, data: seq<Byte>)
    requires Keeps(s, s1) && n in s.t && n in s2.t && |s2.t[n].addr| == 8
    requires Overlaid(s1, s2, n, off, data) && OthersKept(s1, s2, n)
    ensures Overlaid(s, s2, n, off, data) && OthersKept(s, s2, n)
  {
    KeptBytes(s, s1, n);
    OverlayNone(s, s1, n, off);
    OverlayAppend(s, s1, s2, n, off, [], data);
    assert [] + data == data;
    OthersKeptTransitive(s, s1, s2, n);
  }

  lemma ResizedBytes(s: Fs, n: Inode, size: nat)
    requires Sound(s) && NothingLoose(s) && n in s.t
    ensures |s.t[n].addr| == 8
    ensures OthersKept(s, Resized(s, n, size), n)
    ensures Overlaid(s, Resized(s, n, size), n, 0, [])
  {
    ResizedSound(s, n, size);
    var s' := Resized(s, n, size);
    forall k: nat ensures FileByte(s'.d, s'.t[n], k) == FileByte(s.d, s.t[n], k) {
      assert BlockOf(s'.d, s'.t[n], k / 512) == BlockOf(s.d, s.t[n], k / 512);
    }
  }

  // A write to one file's block leaves the other files alone.
  lemma BlocksKept(s: Fs, s': Fs, n: Inode)
    requires s'.t == s.t && forall m :: m in s.t ==> |s.t[m].addr| == 8
    requires forall m, x: nat :: m in s.t && m != n ==> BlockOf(s'.d, s.t[m], x) == BlockOf(s.d, s.t[m], x)
    ensures OthersKept(s, s', n)
  {
  }

  // The block of logical block bn, with chunk spliced in, is written.
  lemma ChunkWritten(s: Fs, n: Inode, bn: nat, on: nat, chunk: seq<Byte>)
    requires Sound(s) && NothingLoose(s) && n in s.t && |s.t[n].addr| == 8
    requires MapOf(s.d, s.t[n], bn) != 0 && on + |chunk| <= 512
    ensures s.lo <= MapOf(s.d, s.t[n], bn) < |s.d|
    ensures var p := MapOf(s.d, s.t[n], bn);
            var s' := s.(d := s.d[p := Splice(s.d[p], on, chunk)]);
            && Sound(s') && NothingLoose(s') && FreeListOk(s'.d, s.lo, s.list, s.chain)
            && OthersKept(s, s', n) && Overlaid(s, s', n, 512 * bn + on, chunk)
  {
    hide Sound, NothingLoose, FreeListOk, SameMap, OthersKept, Overlaid, MapOf, BlockOf;
    AddressesFitAll(s);
    var p := MapOf(s.d, s.t[n], bn);
    DataWriteSound(s, n, bn, Splice(BlockOf(s.d, s.t[n], bn), on, chunk));
    BlockAt(s.d, s.t[n], bn);
    var s' := s.(d := s.d[p := Splice(s.d[p], on, chunk)]);
    SoundFreeList(s');
    OverlayStep(s, s', n, bn, on, chunk);
    BlocksKept(s, s', n);
  }

  // The block, then the size.
  lemma ChunkThenSize(s: Fs, s1: Fs, s2: Fs, n: Inode, off: nat, chunk: seq<Byte>)
    requires n in s.t && n in s1.t && n in s2.t
    requires |s.t[n].addr| == 8 && |s1.t[n].addr| == 8 && |s2.t[n].addr| == 8
    requires Overlaid(s, s1, n, off, chunk) && OthersKept(s, s1, n)
    requires Overlaid(s1, s2, n, 0, []) && OthersKept(s1, s2, n)
    ensures Overlaid(s, s2, n, off, chunk) && OthersKept(s, s2, n)
  {
    OverlayNone(s1, s2, n, off + |chunk|);
    OverlayAppend(s, s1, s2, n, off, chunk, []);
    assert chunk + [] == chunk;
    OthersKeptTransitive(s, s1, s2, n);
  }

  // The state of a write in progress: done bytes of data are in the file.
  ghost predicate Written(s: Fs, s': Fs, n: Inode, off: nat, data: seq<Byte>) {
    && n in s.t && n in s'.t && |s.t[n].addr| == 8 && |s'.t[n].addr| == 8
    && Overlaid(s, s', n, off, data)
    && s'.t[n].size == if data == [] || off + |data| <= s.t[n].size then s.t[n].size else off + |data|
  }

  // One more block, below 2^24: the block number and the size comparison are exact.
  lemma WrittenStep(s: Fs, s1: Fs, s2: Fs, n: Inode, off: nat, data: seq<Byte>, chunk: seq<Byte>, next: Offset)
    requires Written(s, s1, n, off, data) && s.t[n].size < MAX_FILE
    requires off + |data| + |chunk| < MAX_FILE && next == off + |data| + |chunk| && chunk != []
    requires n in s2.t && |s2.t[n].addr| == 8
    requires Overlaid(s1, s2, n, 512 * BlockNumber(off + |data|) + (off + |data|) % 512, chunk)
    requires s2.t[n].size == if Dpcmp(s1.t[n].size, next) < 0 then StoredSize(next) else s1.t[n].size
    ensures Written(s, s2, n, off, data + chunk)
  {
    BlockNumberExact(off + |data|);
    DpcmpExact(s1.t[n].size, next);
    OverlayAppend(s, s1, s2, n, off, data, chunk);
  }

  // A write that stops early, because nothing more could be allocated.
  lemma WrittenKept(s: Fs, s1: Fs, s2: Fs, n: Inode, off: nat, data: seq<Byte>)
    requires Written(s, s1, n, off, data) && Keeps(s1, s2) && n in s2.t
    ensures Written(s, s2, n, off, data)
  {
    KeptBytes(s1, s2, n);
    OverlayNone(s1, s2, n, off + |data|);
    OverlayAppend(s, s1, s2, n, off, data, []);
    assert data + [] == data;
  }

  lemma WrittenNothing(s: Fs, n: Inode, off: nat)
    requires n in s.t && |s.t[n].addr| == 8
    ensures Written(s, s, n, off, [])
  {
  }

  // The bytes of a file from off on, whatever its size.
  ghost predicate BytesAt(s: Fs, n: Inode, off: nat, got: seq<Byte>) {
    && n in s.t && |s.t[n].addr| == 8
    && forall j: nat :: j < |got| ==> got[j] == FileByte(s.d, s.t[n], off + j)
  }

  lemma BytesInBlock(s: Fs, s1: Fs, n: Inode, bn: nat, on: nat, count: nat)
    requires Keeps(s, s1) && n in s.t && on + count <= 512
    ensures |s.t[n].addr| == 8 && |s1.t[n].addr| == 8
    ensures BytesAt(s, n, 512 * bn + on, BlockOf(s1.d, s1.t[n], bn)[on..on + count])
  {
    var got := BlockOf(s1.d, s1.t[n], bn)[on..on + count];
    forall j: nat | j < |got| ensures got[j] == FileByte(s.d, s.t[n], 512 * bn + on + j) {
      assert (512 * bn + on + j) / 512 == bn && (512 * bn + on + j) % 512 == on + j;
    }
  }

  lemma BytesAppend(s: Fs, n: Inode, off: nat, a: seq<Byte>, b: seq<Byte>)
    requires BytesAt(s, n, off, a) && BytesAt(s, n, off + |a|, b)
    ensures BytesAt(s, n, off, a + b)
  {
    forall j: nat | j < |a + b| ensures (a + b)[j] == FileByte(s.d, s.t[n], off + j) {
      if j >= |a| {
        assert b[j - |a|] == FileByte(s.d, s.t[n], off + |a| + (j - |a|));
      }
    }
  }

  // Bytes of the file up to its end or the count are what a flat read returns.
  lemma BytesAreFlatRead(s: Fs, n: Inode, off: nat, count: nat, got: seq<Byte>)
    requires BytesAt(s, n, off, got)
    requires got == [] || off + |got| <= s.t[n].size
    ensures |got| <= count ==> got <= FlatRead(Contents(s.d, s.t[n]), off, count)
    ensures |got| == count || off + |got| >= s.t[n].size ==>
              |got| <= count ==> got == FlatRead(Contents(s.d, s.t[n]), off, count)
  {
    var c := Contents(s.d, s.t[n]);
    forall j: nat | j < |got| ensures off + j < |c| && got[j] == c[off + j] {
    }
  }

  // Bytes read from a state that kept the files are bytes of the files before.
  lemma KeptBytesAt(s: Fs, s1: Fs, n: Inode, off: nat, got: seq<Byte>)
    requires Keeps(s, s1) && BytesAt(s1, n, off, got) && n in s.t
    ensures BytesAt(s, n, off, got)
  {
    forall j: nat | j < |got| ensures got[j] == FileByte(s.d, s.t[n], off + j) {
      assert got[j] == FileByte(s1.d, s1.t[n], off + j);
    }
  }
}
