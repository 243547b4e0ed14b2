// Whole runs of reads, writes and truncations on any files: the results are those of flat
// byte arrays.
module FileRuns {
  import opened Machine
  import opened FreeChain
  import opened BlockTree
  import opened UserIo
  import opened FlatFile
  import opened FileSystem
  import Mkfs

  datatype Op =
    | Write(ip: Inode, offset: Offset, data: seq<Byte>)
    | Read(ip: Inode, offset: Offset, count: nat)
    | Truncate(ip: Inode)

  type Files = map<Inode, seq<Byte>>

  ghost function FilesOf(s: Fs): Files {
    map n | n in s.t :: if |s.t[n].addr| == 8 then Contents(s.d, s.t[n]) else []
  }

  // The operations for which offsets do not overflow: a write must end below 2^24.
  predicate InRange(op: Op, files: set<Inode>, area: nat) {
    && op.ip in files
    && match op
       case Write(_, off, data) => off + |data| < MAX_FILE && |data| <= area
       case Read(_, off, count) => off <= 0x8000_0000 && count <= area
       case Truncate(_) => true
  }

  // ---- Flat files ----

  function File(f: Files, ip: Inode): seq<Byte> {
    if ip in f then f[ip] else []
  }

  function FlatStep(f: Files, op: Op): Files {
    match op
    case Write(ip, off, data) => f[ip := FlatWrite(File(f, ip), off, data)]
    case Read(_, _, _) => f
    case Truncate(ip) => f[ip := []]
  }

  function FlatResult(f: Files, op: Op): seq<Byte> {
    if op.Read? then FlatRead(File(f, op.ip), op.offset, op.count) else []
  }

  function FlatRun(f: Files, ops: seq<Op>): Files {
    if ops == [] then f
    else FlatStep(FlatRun(f, ops[..|ops| - 1]), ops[|ops| - 1])
  }

  function FlatResults(f: Files, ops: seq<Op>): seq<seq<Byte>> {
    if ops == [] then []
    else
      var before := ops[..|ops| - 1];
      FlatResults(f, before) + [FlatResult(FlatRun(f, before), ops[|ops| - 1])]
  }

  // Reading back what was just written, at any offset of any file.
  lemma ReadAfterWrite(c: seq<Byte>, off: nat, data: seq<Byte>)
    ensures FlatRead(FlatWrite(c, off, data), off, |data|) == data
  {
    if data != [] {
      assert FlatWrite(c, off, data)[off..off + |data|] == data;
    }
  }

  // A gap left by a write beyond the end reads as zeros.
  lemma HolesAreZero(c: seq<Byte>, off: nat, data: seq<Byte>, k: nat)
    requires data != [] && |c| <= k < off
    ensures FlatRead(FlatWrite(c, off, data), k, 1) == [0]
  {
    var w := FlatWrite(c, off, data);
    assert w[k] == 0;
  }

  // ---- The real files ----

  lemma WriteEffect(s: Fs, s': Fs, n: Inode, off: nat, data: seq<Byte>)
    requires Trimmed(s) && OthersKept(s, s', n) && Written(s, s', n, off, data)
    requires off + |data| < MAX_FILE
    ensures Trimmed(s')
    ensures FilesOf(s') == FilesOf(s)[n := FlatWrite(FilesOf(s)[n], off, data)]
  {
    OverlayIsFlatWrite(s, s', n, off, data);
    forall m | m in s.t && m != n ensures Contents(s'.d, s'.t[m]) == Contents(s.d, s.t[m]) {
      OthersContents(s, s', n, m);
    }
  }

  lemma TrimmedFacts(s: Fs, n: Inode)
    requires Trimmed(s) && n in s.t
    ensures |s.t[n].addr| == 8 && s.t[n].size < MAX_FILE
    ensures n in FilesOf(s) && FilesOf(s)[n] == Contents(s.d, s.t[n])
  {
  }

  lemma KeptFiles(s: Fs, s': Fs)
    requires Keeps(s, s') && Trimmed(s)
    ensures Trimmed(s') && FilesOf(s') == FilesOf(s)
  {
    forall m | m in s.t
      ensures Contents(s'.d, s'.t[m]) == Contents(s.d, s.t[m])
      ensures forall k: nat :: FileByte(s'.d, s'.t[m], k) == FileByte(s.d, s.t[m], k)
    {
      KeptBytes(s, s', m);
    }
  }

  lemma TruncateEffect(s: Fs, s': Fs, n: Inode)
    requires Trimmed(s) && OthersKept(s, s', n) && n in s'.t && s'.t[n].size == 0
    ensures FilesOf(s') == FilesOf(s)[n := []]
  {
    forall m | m in s.t && m != n ensures Contents(s'.d, s'.t[m]) == Contents(s.d, s.t[m]) {
      OthersContents(s, s', n, m);
    }
  }

  // The part of an operation that was done: a write that finds no more room puts in a first
  // part of its bytes.
  function Part(op: Op, n: nat): Op {
    match op
    case Write(ip, off, data) => Write(ip, off, if n <= |data| then data[..n] else data)
    case _ => op
  }

  // A result is what the operation on flat arrays gives, or a first part of it after an error.
  ghost predicate Agrees(op: Op, ok: bool, n: nat, result: seq<Byte>, flat: seq<Byte>) {
    && result <= flat && (ok ==> result == flat)
    && (op.Write? ==> n <= |op.data| && (ok ==> n == |op.data|))
  }

  method DoWrite(k: FileSys, ip: Inode, off: Offset, data: seq<Byte>) returns (ok: bool, n: nat)
    requires k.Valid() && Trimmed(k.fs) && InRange(Write(ip, off, data), k.inodes, k.u.area.Length)
    modifies k, k.u, k.u.area, ip
    ensures k.fs.t.Keys == k.inodes == old(k.fs).t.Keys && (ok <==> k.u.error == 0)
    ensures n <= |data| && (ok ==> n == |data|)
    ensures ok || !k.damaged ==> k.Valid()
    ensures Trimmed(k.fs)
    ensures FilesOf(k.fs) == FilesOf(old(k.fs))[ip := FlatWrite(FilesOf(old(k.fs))[ip], off, data[..n])]
    ensures !ok ==> k.u.error == ENOSPC
  {
    hide Sound, NothingLoose, FreeListOk, OthersKept, Written, Trimmed, FilesOf, FlatWrite;
    ghost var s := k.fs;
    TrimmedFacts(s, ip);
    forall i | 0 <= i < |data| { k.u.area[i] := data[i]; }
    k.u.base, k.u.count, k.u.offset, k.u.error := 0, |data|, off, 0;
    ghost var area := k.u.area[..];
    assert area[0..|data|] == data;
    ghost var written := k.Writei(ip);
    ok, n := k.u.error == 0, |data| - k.u.count;
    assert written == area[0..n] == data[..n];
    WriteEffect(s, k.fs, ip, off, data[..n]);
  }

  method DoRead(k: FileSys, ip: Inode, off: Offset, count: nat) returns (ok: bool, result: seq<Byte>)
    requires k.Valid() && Trimmed(k.fs) && InRange(Read(ip, off, count), k.inodes, k.u.area.Length)
    modifies k, k.u, k.u.area, ip
    ensures k.fs.t.Keys == k.inodes == old(k.fs).t.Keys && (ok <==> k.u.error == 0)
    ensures ok || !k.damaged ==> k.Valid()
    ensures Trimmed(k.fs) && FilesOf(k.fs) == FilesOf(old(k.fs))
    ensures result <= FlatRead(FilesOf(old(k.fs))[ip], off, count)
    ensures ok ==> result == FlatRead(FilesOf(old(k.fs))[ip], off, count)
    ensures !ok ==> k.u.error == ENOSPC
  {
    hide Sound, NothingLoose, FreeListOk, Keeps, Trimmed, FilesOf, FlatRead;
    ghost var s := k.fs;
    TrimmedFacts(s, ip);
    k.u.base, k.u.count, k.u.offset, k.u.error := 0, count, off, 0;
    ghost var got := k.Readi(ip);
    ok := k.u.error == 0;
    KeptFiles(s, k.fs);
    result := k.u.area[..][..k.u.base];
    assert result == got;
  }

  method Step(k: FileSys, op: Op) returns (ok: bool, n: nat, result: seq<Byte>)
    requires k.Valid() && Trimmed(k.fs) && InRange(op, k.inodes, k.u.area.Length)
    modifies k, k.u, k.u.area, k.inodes
    ensures k.fs.t.Keys == k.inodes == old(k.fs).t.Keys
    ensures ok || !k.damaged ==> k.Valid() && Trimmed(k.fs)
    ensures ok || !k.damaged ==> FilesOf(k.fs) == FlatStep(FilesOf(old(k.fs)), Part(op, n))
    ensures Agrees(op, ok, n, result, FlatResult(FilesOf(old(k.fs)), op))
    ensures !ok ==> k.u.error == ENOSPC
  {
    hide Sound, NothingLoose, FreeListOk, OthersKept, Trimmed, FlatRead, FlatWrite;
    ghost var s := k.fs;
    n, result := 0, [];
    match op
    case Write(ip, off, data) =>
      ok, n := DoWrite(k, ip, off, data);
    case Read(ip, off, count) =>
      ok, result := DoRead(k, ip, off, count);
    case Truncate(ip) =>
      k.Itrunc(ip);
      ok := true;
      TruncateEffect(s, k.fs, ip);
  }

  // Any sequence of operations, on any files, up to the first failed allocation: every read
  // returns what flat byte arrays would give, and the files end up as those arrays. After a
  // failure that damages no file, n bytes of the write have gone in, or a first part of the
  // read has come out, and a run can go on from there.
  method Run(k: FileSys, ops: seq<Op>) returns (done: nat, results: seq<seq<Byte>>, n: nat, last: seq<Byte>)
    requires k.Valid() && Trimmed(k.fs)
    requires forall op :: op in ops ==> InRange(op, k.inodes, k.u.area.Length)
    modifies k, k.u, k.u.area, k.inodes
    ensures done <= |ops| && k.fs.t.Keys == k.inodes
    ensures results == FlatResults(FilesOf(old(k.fs)), ops[..done])
    ensures done == |ops| ==> k.Valid() && Trimmed(k.fs)
    ensures done == |ops| ==> FilesOf(k.fs) == FlatRun(FilesOf(old(k.fs)), ops)
    ensures done < |ops| ==> k.u.error == ENOSPC
    ensures done < |ops| && !k.damaged ==> k.Valid() && Trimmed(k.fs)
    ensures done < |ops| && !k.damaged ==>
              FilesOf(k.fs) == FlatStep(FlatRun(FilesOf(old(k.fs)), ops[..done]), Part(ops[done], n))
    ensures done < |ops| ==>
              last <= FlatResult(FlatRun(FilesOf(old(k.fs)), ops[..done]), ops[done])
              && (ops[done].Write? ==> n <= |ops[done].data|)
  {
    hide Trimmed, Sound, FilesOf, FlatStep, FlatResult;
    ghost var f := FilesOf(k.fs);
    done, results, n, last := 0, [], 0, [];
    while done < |ops|
      invariant done <= |ops| && k.Valid() && Trimmed(k.fs) && k.fs.t.Keys == k.inodes
      invariant FilesOf(k.fs) == FlatRun(f, ops[..done])
      invariant results == FlatResults(f, ops[..done])
    {
      assert ops[..done + 1][..done] == ops[..done];
      var ok, moved, result := Step(k, ops[done]);
      if !ok {
        n, last := moved, result;
        return;
      }
      PartIsAll(ops[done], moved);
      done, results := done + 1, results + [result];
    }
    assert ops[..done] == ops;
  }

  lemma PartIsAll(op: Op, n: nat)
    requires op.Write? ==> n == |op.data|
    ensures Part(op, n) == op
  {
  }

  // A file system whose free list mkfs has made, with empty files.
  method Mount(isize: nat, blocks: Disk, interleave: nat, step: nat, files: set<Inode>, user: User, odd: bool)
    returns (k: FileSys)
    requires isize + 2 <= |blocks| < 0x1_0000 && interleave > 0
    requires forall f :: f in files ==> f.Value() == InodeValue(false, seq(8, _ => 0), 0)
    ensures k.Valid() && Trimmed(k.fs) && k.inodes == files && k.u == user
    ensures forall b: nat :: b in k.chain <==> isize + 2 <= b < |blocks|
  {
    hide Sound, NothingLoose, FreeListOk, Trimmed;
    var made := new Mkfs.Filsys(isize, blocks);
    made.Bflist(interleave, step);
    var table := made.s_free[..];
    assert table[..made.s_nfree] == made.s_free[..made.s_nfree];
    k := new FileSys(isize, made.disk, made.s_nfree, table, made.chain, files, user, odd);
  }

  // bmap of block 256 of an empty file, with two free blocks where three are needed, leaves
  // the file with a pointer block full of what was in its block before; no account of who
  // holds what makes that sound.
  method RunsOut() returns (k: FileSys, ip: Inode)
    ensures k.damaged && k.Stale(ip) && k.stale < |k.disk| && k.disk[k.stale] != ZeroBlock()
    ensures forall owner :: NothingLoose(k.fs.(d := k.disk, owner := owner)) ==>
              !Sound(k.fs.(d := k.disk, owner := owner))
  {
    hide Sound, NothingLoose, Trimmed;
    var full: Block := seq(512, _ => 1);
    var blocks: Disk := [ZeroBlock(), ZeroBlock(), full, ZeroBlock()];
    var table: seq<nat> := [0, 2, 3] + seq(97, _ => 0);
    assert table[..3][1..] == [2, 3] && Reversed([2, 3]) == [3, 2];
    ip := new Inode();
    var area := new Byte[0];
    var user := new User(area);
    k := new FileSys(0, blocks, 3, table, [3, 2], {ip}, user, false);
    var nb := k.Bmap(ip, 256);
    assert k.disk[2] == full && full[0] == 1;
    StaleExactly(k.fs, k.disk, ip, k.stale);
  }
}
