// The block trees of all files and their ownership of the data area. Everything here is
// about values; the methods that change the real fields are in FileSystem.dfy.
module BlockTree {
  import opened Machine
  import opened FreeChain

  // The in-core inode (h/inode.h). The methods that update it are in FileSystem.
  class Inode {
    var large: bool        // ILARG
    var addr: seq<nat>     // i_addr[8]
    var size: nat          // i_size0:i_size1
    var updated: bool      // IUPD
    var lastRead: int      // i_lastr

    constructor ()
      ensures !large && addr == seq(8, _ => 0) && size == 0 && !updated && lastRead == -1
    {
      large, addr, size, updated, lastRead := false, seq(8, _ => 0), 0, false, -1;
    }

    ghost function Value(): InodeValue
      reads this
    {
      InodeValue(large, addr, size)
    }
  }

  datatype InodeValue = InodeValue(large: bool, addr: seq<nat>, size: nat)

  // A place that can hold a block number: a slot of i_addr, word j of the indirect
  // block in slot i, or word k of the second-level block named by word j of slot 7.
  datatype Ref = Slot(i: nat) | Entry(i: nat, j: nat) | Deep(j: nat, k: nat)

  // Who holds a block of the data area. A loose block has been taken from its holder (or
  // from the free list) and is not yet linked anywhere else.
  datatype Owner = Free | Of(ino: Inode, ref: Ref) | Loose(ref: Ref)

  type Table = map<Inode, InodeValue>

  datatype Fs = Fs(
    d: Disk, lo: nat, t: Table, owner: map<nat, Owner>, list: seq<nat>, chain: seq<nat>)

  // ---- Pointers ----

  function Word(d: Disk, b: nat, k: nat): nat {
    if b < |d| && k < WORDS then WordAt(d[b], k) else 0
  }

  function EntryPtr(d: Disk, n: InodeValue, i: nat, j: nat): nat
    requires |n.addr| == 8
  {
    if n.large && i < 8 && n.addr[i] != 0 then Word(d, n.addr[i], j) else 0
  }

  // The block number stored at a place; 0 when there is none.
  function Ptr(d: Disk, n: InodeValue, r: Ref): nat
    requires |n.addr| == 8
  {
    match r
    case Slot(i) => if i < 8 then n.addr[i] else 0
    case Entry(i, j) => EntryPtr(d, n, i, j)
    case Deep(j, k) =>
      var q := EntryPtr(d, n, 7, j);
      if q != 0 then Word(d, q, k) else 0
  }

  // Whether a place names a block of file data rather than a block of pointers.
  predicate IsData(large: bool, r: Ref) {
    match r
    case Slot(_) => !large
    case Entry(i, _) => i != 7
    case Deep(_, _) => true
  }

  // ---- Logical blocks ----

  // The place that holds the address of logical block bn.
  function DataRef(large: bool, bn: nat): Ref {
    if !large then Slot(bn)
    else if bn < 7 * WORDS then Entry(bn / WORDS, bn % WORDS)
    else Deep(bn / WORDS - 7, bn % WORDS)
  }

  // The physical block of logical block bn, or 0 for a hole.
  function MapOf(d: Disk, n: InodeValue, bn: nat): nat
    requires |n.addr| == 8
  {
    Ptr(d, n, DataRef(n.large, bn))
  }

  // The contents of logical block bn; a hole reads as zeros.
  function BlockOf(d: Disk, n: InodeValue, bn: nat): Block
    requires |n.addr| == 8
  {
    var p := MapOf(d, n, bn);
    if 0 < p < |d| then d[p] else ZeroBlock()
  }

  // ---- The ownership invariant ----

  // The data area [lo, |d|) is the disjoint union of the free chain, the blocks held by
  // the inodes of the table, and the loose blocks.
  ghost predicate Sound(s: Fs) {
    && FreeListOk(s.d, s.lo, s.list, s.chain)
    && (forall b :: s.lo <= b < |s.d| ==> b in s.owner)
    && (forall b :: s.lo <= b < |s.d| ==> (s.owner[b].Free? <==> b in s.chain))
    && (forall n :: n in s.t ==> |s.t[n].addr| == 8)
    && (forall n, r :: n in s.t && Ptr(s.d, s.t[n], r) != 0 ==>
          s.lo <= Ptr(s.d, s.t[n], r) < |s.d| && s.owner[Ptr(s.d, s.t[n], r)] == Of(n, r))
    && (forall b :: s.lo <= b < |s.d| && s.owner[b].Of? ==>
          s.owner[b].ino in s.t && Ptr(s.d, s.t[s.owner[b].ino], s.owner[b].ref) == b)
  }

  ghost predicate NothingLoose(s: Fs) {
    forall b :: s.lo <= b < |s.d| && b in s.owner ==> !s.owner[b].Loose?
  }

  // Nothing a reader of the files could see has changed, and no existing block of a file
  // has moved.
  ghost predicate Keeps(s: Fs, s': Fs) {
    && s'.t.Keys == s.t.Keys
    && s'.lo == s.lo && |s'.d| == |s.d|
    && (forall n :: n in s.t ==> |s.t[n].addr| == 8 && |s'.t[n].addr| == 8 && s'.t[n].size == s.t[n].size)
    && (forall n, bn: nat :: n in s.t ==> BlockOf(s'.d, s'.t[n], bn) == BlockOf(s.d, s.t[n], bn))
    && (forall n, bn: nat :: n in s.t && MapOf(s.d, s.t[n], bn) != 0 ==>
          MapOf(s'.d, s'.t[n], bn) == MapOf(s.d, s.t[n], bn))
  }

  // No logical block but bn of n was mapped or moved.
  ghost predicate SameMapExcept(s: Fs, s': Fs, n: Inode, bn: nat) {
    && s'.t.Keys == s.t.Keys
    && (forall m :: m in s.t ==> |s.t[m].addr| == 8 && |s'.t[m].addr| == 8)
    && (forall m, x: nat :: m in s.t && !(m == n && x == bn) ==>
          MapOf(s'.d, s'.t[m], x) == MapOf(s.d, s.t[m], x))
  }

  ghost predicate SameMap(s: Fs, s': Fs) {
    && s'.t.Keys == s.t.Keys
    && (forall m :: m in s.t ==> |s.t[m].addr| == 8 && |s'.t[m].addr| == 8)
    && (forall m, x: nat :: m in s.t ==> MapOf(s'.d, s'.t[m], x) == MapOf(s.d, s.t[m], x))
  }

  lemma DataRefInjective(large: bool, bn: nat, bn': nat)
    requires DataRef(large, bn) == DataRef(large, bn')
    ensures bn == bn'
  {
    assert bn == WORDS * (bn / WORDS) + bn % WORDS;
    assert bn' == WORDS * (bn' / WORDS) + bn' % WORDS;
  }

  // bmap is injective: two logical blocks, of one file or of two, never share a block.
  lemma MapInjective(s: Fs, n: Inode, bn: nat, n': Inode, bn': nat)
    requires Sound(s) && n in s.t && n' in s.t
    requires MapOf(s.d, s.t[n], bn) == MapOf(s.d, s.t[n'], bn') != 0
    ensures n == n' && bn == bn'
  {
    var r, r' := DataRef(s.t[n].large, bn), DataRef(s.t[n'].large, bn');
    assert Of(n, r) == s.owner[Ptr(s.d, s.t[n], r)] == Of(n', r');
    assert bn == WORDS * (bn / WORDS) + bn % WORDS;
    assert bn' == WORDS * (bn' / WORDS) + bn' % WORDS;
  }

  // ---- Steps ----

  // alloc: the first block of the chain becomes loose; alloc's caller has it zeroed.
  ghost function Taken(s: Fs, list: seq<nat>): Fs
    requires s.chain != []
  {
    var b := s.chain[0];
    s.(list := list, chain := s.chain[1..], owner := s.owner[b := Loose(Slot(0))],
       d := if b < |s.d| then s.d[b := ZeroBlock()] else s.d)
  }

  // d is the real disk, which agrees with s.d on the free chain.
  lemma TakenSound(s: Fs, d: Disk, list: seq<nat>)
    requires Sound(s) && s.chain != [] && FreeListOk(d, s.lo, list, s.chain[1..])
    requires |d| == |s.d| && forall x :: x in s.chain && x < |d| ==> s.d[x] == d[x]
    ensures Sound(Taken(s, list)) && Keeps(s, Taken(s, list))
    ensures SameMap(s, Taken(s, list))
    ensures 2 <= s.lo <= s.chain[0] < |d| && s.chain[0] !in s.chain[1..]
    ensures Taken(s, list).owner[s.chain[0]].Loose?
  {
    var b := s.chain[0];
    assert b in s.chain;
    assert s.chain == [b] + s.chain[1..];
    assert b !in s.chain[1..];
    ChainFrame(d, s.d, list, s.chain[1..]);
    var s1 := s.(list := list, chain := s.chain[1..], owner := s.owner[b := Loose(Slot(0))]);
    assert Sound(s1);
    WriteLooseKeeps(s1, b, ZeroBlock());
  }

  // alloc on an empty chain only resets the in-core list.
  lemma ExhaustedSound(s: Fs, list: seq<nat>)
    requires Sound(s) && s.chain == [] && FreeListOk(s.d, s.lo, list, [])
    ensures var s' := s.(list := list); Sound(s') && Keeps(s, s') && SameMap(s, s')
  {
    var s' := s.(list := list);
    assert forall m, r :: m in s.t ==> Ptr(s'.d, s'.t[m], r) == Ptr(s.d, s.t[m], r);
  }

  lemma AddressesFit(s: Fs, n: Inode)
    requires Sound(s) && n in s.t
    ensures |s.t[n].addr| == 8
    ensures forall k: nat :: k < 8 ==> s.t[n].addr[k] < 0x1_0000
  {
    forall k: nat | k < 8 ensures s.t[n].addr[k] < 0x1_0000 {
      assert s.t[n].addr[k] == Ptr(s.d, s.t[n], Slot(k));
    }
  }

  // Writing a loose block or a block of file data moves no pointer.
  ghost predicate Writable(s: Fs, b: nat) {
    && s.lo <= b < |s.d| && b in s.owner
    && match s.owner[b]
       case Free => false
       case Of(n, r) => n in s.t && IsData(s.t[n].large, r)
       case Loose(_) => true
  }

  lemma WritePtr(s: Fs, b: nat, blk: Block, n: Inode, r: Ref)
    requires Sound(s) && Writable(s, b) && n in s.t
    ensures Ptr(s.d[b := blk], s.t[n], r) == Ptr(s.d, s.t[n], r)
  {
    match r
    case Slot(_) =>
    case Entry(i, j) =>
      if i < 8 { var p := Ptr(s.d, s.t[n], Slot(i)); }
    case Deep(j, k) =>
      var p := Ptr(s.d, s.t[n], Slot(7));
      var q := Ptr(s.d, s.t[n], Entry(7, j));
  }

  lemma WriteSound(s: Fs, b: nat, blk: Block)
    requires Sound(s) && Writable(s, b)
    ensures Sound(s.(d := s.d[b := blk]))
    ensures forall n, r :: n in s.t ==> Ptr(s.d[b := blk], s.t[n], r) == Ptr(s.d, s.t[n], r)
    ensures forall n, bn: nat :: n in s.t && MapOf(s.d, s.t[n], bn) != b ==>
              BlockOf(s.d[b := blk], s.t[n], bn) == BlockOf(s.d, s.t[n], bn)
  {
    var d' := s.d[b := blk];
    ChainFrame(s.d, d', s.list, s.chain);
    forall n, r | n in s.t ensures Ptr(d', s.t[n], r) == Ptr(s.d, s.t[n], r) {
      WritePtr(s, b, blk, n, r);
    }
  }

  // A loose block is in no file, so writing it changes no file.
  lemma WriteLooseKeeps(s: Fs, b: nat, blk: Block)
    requires Sound(s) && s.lo <= b < |s.d| && s.owner[b].Loose?
    ensures Sound(s.(d := s.d[b := blk])) && Keeps(s, s.(d := s.d[b := blk]))
    ensures SameMap(s, s.(d := s.d[b := blk]))
  {
    WriteSound(s, b, blk);
    forall n, bn: nat | n in s.t ensures MapOf(s.d, s.t[n], bn) != b {
    }
  }

  ghost function SetSlot(n: InodeValue, i: nat, b: nat): InodeValue
    requires i < |n.addr|
  {
    n.(addr := n.addr[i := b])
  }

  // Entry i of the inode gets the zeroed loose block b.
  ghost function LinkSlot(s: Fs, n: Inode, i: nat, b: nat): Fs
    requires n in s.t && i < |s.t[n].addr|
  {
    s.(t := s.t[n := SetSlot(s.t[n], i, b)], owner := s.owner[b := Of(n, Slot(i))])
  }

  // One place ref of file n is set, from empty to the zeroed loose block b; q is the pointer
  // block that it is in, or 0.
  ghost predicate Linked(s: Fs, s': Fs, n: Inode, ref: Ref, b: nat, q: nat) {
    && Sound(s) && n in s.t && s'.t.Keys == s.t.Keys
    && s'.lo == s.lo && s'.list == s.list && s'.chain == s.chain
    && s'.owner == s.owner[b := Of(n, ref)]
    && s.lo <= b < |s.d| && s.owner[b].Loose? && s.d[b] == ZeroBlock()
    && |s'.d| == |s.d| && (forall x: nat :: x < |s.d| && x != q ==> s'.d[x] == s.d[x])
    && (q == 0 || (s.lo <= q < |s.d| && exists r :: s.owner[q] == Of(n, r) && !IsData(s.t[n].large, r)))
    && (forall m :: m in s.t ==> |s'.t[m].addr| == 8 && s'.t[m].large == s.t[m].large
                                 && s'.t[m].size == s.t[m].size)
    && Ptr(s.d, s.t[n], ref) == 0
    && forall m, r :: m in s.t ==>
         Ptr(s'.d, s'.t[m], r) == if m == n && r == ref then b else Ptr(s.d, s.t[m], r)
  }

  // No file's contents change, and of the maps only that place.
  lemma LinkKeeps(s: Fs, s': Fs, n: Inode, ref: Ref, b: nat, q: nat, bn: nat)
    requires Linked(s, s', n, ref, b, q)
    requires IsData(s.t[n].large, ref) ==> ref == DataRef(s.t[n].large, bn)
    ensures Keeps(s, s') && SameMapExcept(s, s', n, bn)
  {
    forall m, bn: nat | m in s.t ensures BlockOf(s'.d, s'.t[m], bn) == BlockOf(s.d, s.t[m], bn) {
      var p := Ptr(s.d, s.t[m], DataRef(s.t[m].large, bn));
      assert IsData(s.t[m].large, DataRef(s.t[m].large, bn)) || p == 0;
    }
    forall m, x: nat | m in s.t && !(m == n && x == bn)
      ensures MapOf(s'.d, s'.t[m], x) == MapOf(s.d, s.t[m], x)
    {
      if m == n && DataRef(s.t[n].large, x) == ref {
        DataRefInjective(s.t[n].large, x, bn);
      }
    }
  }

  // Whatever place is set, the result is sound.
  lemma LinkSound(s: Fs, s': Fs, n: Inode, ref: Ref, b: nat, q: nat, bn: nat)
    requires Linked(s, s', n, ref, b, q)
    requires IsData(s.t[n].large, ref) ==> ref == DataRef(s.t[n].large, bn)
    ensures Sound(s') && Keeps(s, s')
    ensures SameMapExcept(s, s', n, bn)
  {
    LinkKeeps(s, s', n, ref, b, q, bn);
    hide Keeps, SameMapExcept;
    assert forall x :: x in s.chain ==> s.owner[x].Free?;
    ChainFrame(s.d, s'.d, s.list, s.chain);
  }

  lemma LinkSlotSound(s: Fs, n: Inode, i: nat, b: nat, bn: nat)
    requires Sound(s) && n in s.t && i < 8 && s.t[n].addr[i] == 0
    requires s.lo <= b < |s.d| && s.owner[b].Loose? && s.d[b] == ZeroBlock()
    requires !s.t[n].large ==> i == bn
    ensures Sound(LinkSlot(s, n, i, b)) && Keeps(s, LinkSlot(s, n, i, b))
    ensures SameMapExcept(s, LinkSlot(s, n, i, b), n, bn)
  {
    var s' := LinkSlot(s, n, i, b);
    ZeroWords();
    forall m, r | m in s.t
      ensures Ptr(s'.d, s'.t[m], r) == if m == n && r == Slot(i) then b else Ptr(s.d, s.t[m], r)
    {
    }
    LinkSound(s, s', n, Slot(i), b, 0, bn);
  }

  // Word k of pointer block q, at place r, receives the zeroed loose block b.
  ghost function LinkWord(s: Fs, n: Inode, r: Ref, q: nat, k: nat, b: nat): Fs
    requires q < |s.d| && k < WORDS && b < 0x1_0000
  {
    s.(d := s.d[q := PutWord(s.d[q], k, b)], owner := s.owner[b := Of(n, r)])
  }

  lemma LinkWordPtr(s: Fs, n: Inode, ref: Ref, q: nat, k: nat, b: nat, m: Inode, r: Ref)
    requires Sound(s) && n in s.t && m in s.t && k < WORDS
    requires s.lo <= b < |s.d| && s.owner[b].Loose? && s.d[b] == ZeroBlock()
    requires s.t[n].large && s.lo <= q < |s.d|
    requires match ref
             case Slot(_) => false
             case Entry(i, j) => i < 8 && j == k && s.owner[q] == Of(n, Slot(i))
             case Deep(j, k') => k' == k && s.owner[q] == Of(n, Entry(7, j))
    requires Ptr(s.d, s.t[n], ref) == 0
    ensures Ptr(LinkWord(s, n, ref, q, k, b).d, s.t[m], r)
            == if m == n && r == ref then b else Ptr(s.d, s.t[m], r)
  {
    hide Word, LinkWord;
    LinkWordAt(s, n, ref, q, k, b);
    match r
    case Slot(_) =>
    case Entry(i, j) =>
      var p := Ptr(s.d, s.t[m], Slot(i));
    case Deep(j, k') =>
      var p := Ptr(s.d, s.t[m], Slot(7));
      var p' := Ptr(s.d, s.t[m], Entry(7, j));
      if p == q {
        assert m == n && s.owner[q] == Of(n, Slot(7));
      }
  }

  lemma LinkWordAt(s: Fs, n: Inode, ref: Ref, q: nat, k: nat, b: nat)
    requires q < |s.d| && k < WORDS && b < 0x1_0000 && b < |s.d| && s.d[b] == ZeroBlock()
    ensures forall j: nat :: Word(s.d, b, j) == 0
    ensures forall p: nat, j: nat :: Word(LinkWord(s, n, ref, q, k, b).d, p, j)
                                     == if p == q && j == k then b else Word(s.d, p, j)
  {
    ZeroWords();
  }

  lemma LinkEntrySound(s: Fs, n: Inode, i: nat, j: nat, b: nat, bn: nat)
    requires Sound(s) && n in s.t && s.t[n].large && i < 8 && j < WORDS
    requires s.t[n].addr[i] != 0 && Ptr(s.d, s.t[n], Entry(i, j)) == 0
    requires s.lo <= b < |s.d| && s.owner[b].Loose? && s.d[b] == ZeroBlock()
    requires i != 7 ==> bn == WORDS * i + j
    ensures s.t[n].addr[i] < |s.d|
    ensures var s' := LinkWord(s, n, Entry(i, j), s.t[n].addr[i], j, b);
            Sound(s') && Keeps(s, s') && SameMapExcept(s, s', n, bn)
  {
    var q := Ptr(s.d, s.t[n], Slot(i));
    assert s.owner[q] == Of(n, Slot(i)) && !IsData(s.t[n].large, Slot(i));
    var s' := LinkWord(s, n, Entry(i, j), q, j, b);
    forall m, r | m in s.t
      ensures Ptr(s'.d, s'.t[m], r) == if m == n && r == Entry(i, j) then b else Ptr(s.d, s.t[m], r)
    {
      LinkWordPtr(s, n, Entry(i, j), q, j, b, m, r);
    }
    LinkSound(s, s', n, Entry(i, j), b, q, bn);
  }

  lemma LinkDeepSound(s: Fs, n: Inode, j: nat, k: nat, b: nat, bn: nat)
    requires Sound(s) && n in s.t && j < WORDS && k < WORDS
    requires Ptr(s.d, s.t[n], Entry(7, j)) != 0 && Ptr(s.d, s.t[n], Deep(j, k)) == 0
    requires s.lo <= b < |s.d| && s.owner[b].Loose? && s.d[b] == ZeroBlock()
    requires bn == WORDS * (j + 7) + k
    ensures Ptr(s.d, s.t[n], Entry(7, j)) < |s.d|
    ensures var s' := LinkWord(s, n, Deep(j, k), Ptr(s.d, s.t[n], Entry(7, j)), k, b);
            Sound(s') && Keeps(s, s') && SameMapExcept(s, s', n, bn)
  {
    var q := Ptr(s.d, s.t[n], Entry(7, j));
    assert s.owner[q] == Of(n, Entry(7, j)) && !IsData(s.t[n].large, Entry(7, j));
    var s' := LinkWord(s, n, Deep(j, k), q, k, b);
    forall m, r | m in s.t
      ensures Ptr(s'.d, s'.t[m], r) == if m == n && r == Deep(j, k) then b else Ptr(s.d, s.t[m], r)
    {
      LinkWordPtr(s, n, Deep(j, k), q, k, b, m, r);
    }
    LinkSound(s, s', n, Deep(j, k), b, q, bn);
  }

  // The pointer block that holds the address of logical block bn of a large file.
  function PointerBlock(d: Disk, n: InodeValue, bn: nat): nat
    requires |n.addr| == 8
  {
    if bn < 7 * WORDS then n.addr[bn / WORDS] else EntryPtr(d, n, 7, bn / WORDS - 7)
  }

  // The next free block, zeroed, linked into an empty slot of i_addr.
  ghost function NewSlot(s: Fs, list: seq<nat>, n: Inode, i: nat): Fs
    requires s.chain != [] && n in s.t && i < |s.t[n].addr|
  {
    LinkSlot(Taken(s, list), n, i, s.chain[0])
  }

  lemma NewSlotSound(s: Fs, d: Disk, list: seq<nat>, n: Inode, i: nat, bn: nat)
    requires Sound(s) && NothingLoose(s) && s.chain != [] && FreeListOk(d, s.lo, list, s.chain[1..])
    requires |d| == |s.d| && forall x :: x in s.chain && x < |d| ==> s.d[x] == d[x]
    requires n in s.t && i < 8 && |s.t[n].addr| == 8 && s.t[n].addr[i] == 0
    requires !s.t[n].large ==> i == bn
    ensures 2 <= s.lo <= s.chain[0] < |s.d| && s.chain[0] !in s.chain[1..]
    ensures var s' := NewSlot(s, list, n, i);
            && Sound(s') && NothingLoose(s') && Keeps(s, s') && SameMapExcept(s, s', n, bn)
            && (s.t[n].large ==> SameMap(s, s'))
            && s'.d == s.d[s.chain[0] := ZeroBlock()] && s'.lo == s.lo
            && s'.list == list && s'.chain == s.chain[1..]
            && s'.t == s.t[n := SetSlot(s.t[n], i, s.chain[0])]
  {
    hide Sound, Keeps, FreeListOk, Ptr;
    TakenSound(s, d, list);
    LinkSlotSound(Taken(s, list), n, i, s.chain[0], bn);
    KeepsTransitive(s, Taken(s, list), NewSlot(s, list, n, i));
    if s.t[n].large {
      LinkSlotSound(Taken(s, list), n, i, s.chain[0], bn + 1);
    }
  }

  // The next free block, zeroed, linked into an empty word of a pointer block.
  ghost function NewWord(s: Fs, list: seq<nat>, n: Inode, ref: Ref, q: nat, k: nat): Fs
    requires s.chain != [] && s.chain[0] < 0x1_0000 && q < |s.d| && k < WORDS && n in s.t
  {
    LinkWord(Taken(s, list), n, ref, q, k, s.chain[0])
  }

  // Whether word k of pointer block q is the place ref of file n.
  ghost predicate IsPlace(s: Fs, n: Inode, ref: Ref, q: nat, k: nat)
    requires n in s.t && |s.t[n].addr| == 8
  {
    && k < WORDS && q != 0 && s.t[n].large
    && match ref
       case Slot(_) => false
       case Entry(i, j) => i < 8 && j == k && q == s.t[n].addr[i]
       case Deep(j, k') => j < WORDS && k' == k && q == EntryPtr(s.d, s.t[n], 7, j)
  }

  lemma NewWordSound(s: Fs, d: Disk, list: seq<nat>, n: Inode, ref: Ref, q: nat, k: nat, bn: nat)
    requires Sound(s) && NothingLoose(s) && s.chain != [] && FreeListOk(d, s.lo, list, s.chain[1..])
    requires |d| == |s.d| && forall x :: x in s.chain && x < |d| ==> s.d[x] == d[x]
    requires n in s.t && |s.t[n].addr| == 8 && IsPlace(s, n, ref, q, k) && Ptr(s.d, s.t[n], ref) == 0
    requires IsData(true, ref) ==> ref == DataRef(true, bn)
    ensures 2 <= s.lo <= s.chain[0] < |s.d| <= 0x1_0000 && s.chain[0] !in s.chain[1..]
    ensures q < |s.d| && q != s.chain[0] && q !in s.chain
    ensures var s' := NewWord(s, list, n, ref, q, k);
            && Sound(s') && NothingLoose(s') && Keeps(s, s') && SameMapExcept(s, s', n, bn)
            && (!IsData(true, ref) ==> SameMap(s, s'))
            && s'.d == s.d[s.chain[0] := ZeroBlock()][q := PutWord(s.d[q], k, s.chain[0])]
            && s'.lo == s.lo && s'.list == list && s'.chain == s.chain[1..] && s'.t == s.t
  {
    hide Keeps, FreeListOk, Sound, Ptr;
    TakenSound(s, d, list);
    SoundFreeList(s);
    var g, b := Taken(s, list), s.chain[0];
    PlaceOwned(s, n, ref, q, k);
    assert b in s.chain;
    PlaceStays(s, list, n, ref, q, k);
    LinkPlaceSound(g, n, ref, q, k, b, bn);
    KeepsTransitive(s, g, NewWord(s, list, n, ref, q, k));
    if !IsData(true, ref) {
      LinkPlaceSound(g, n, ref, q, k, b, bn + 1);
    }
  }

  lemma PlaceOwned(s: Fs, n: Inode, ref: Ref, q: nat, k: nat)
    requires Sound(s) && n in s.t && |s.t[n].addr| == 8 && IsPlace(s, n, ref, q, k)
    ensures s.lo <= q < |s.d| <= 0x1_0000 && s.owner[q].Of? && q !in s.chain
  {
    match ref
    case Entry(i, j) => assert q == Ptr(s.d, s.t[n], Slot(i));
    case Deep(j, k') => assert q == Ptr(s.d, s.t[n], Entry(7, j));
  }

  lemma TakenSamePtr(s: Fs, list: seq<nat>, n: Inode, r: Ref)
    requires Sound(s) && s.chain != [] && n in s.t
    ensures Ptr(Taken(s, list).d, s.t[n], r) == Ptr(s.d, s.t[n], r)
  {
    assert s.chain[0] in s.chain;
    match r
    case Slot(_) =>
    case Entry(i, j) =>
      if i < 8 { var p := Ptr(s.d, s.t[n], Slot(i)); }
    case Deep(j, k) =>
      var p := Ptr(s.d, s.t[n], Slot(7));
      var q := Ptr(s.d, s.t[n], Entry(7, j));
  }

  lemma PlaceStays(s: Fs, list: seq<nat>, n: Inode, ref: Ref, q: nat, k: nat)
    requires Sound(s) && s.chain != [] && n in s.t && |s.t[n].addr| == 8 && IsPlace(s, n, ref, q, k)
    ensures IsPlace(Taken(s, list), n, ref, q, k)
    ensures Ptr(Taken(s, list).d, s.t[n], ref) == Ptr(s.d, s.t[n], ref)
  {
    hide Sound;
    TakenSamePtr(s, list, n, ref);
    if ref.Deep? {
      TakenSamePtr(s, list, n, Entry(7, ref.j));
    }
  }

  lemma LinkPlaceSound(s: Fs, n: Inode, ref: Ref, q: nat, k: nat, b: nat, bn: nat)
    requires Sound(s) && n in s.t && |s.t[n].addr| == 8 && IsPlace(s, n, ref, q, k)
    requires Ptr(s.d, s.t[n], ref) == 0 && q < |s.d| <= 0x1_0000
    requires IsData(true, ref) ==> ref == DataRef(true, bn)
    requires s.lo <= b < |s.d| && s.owner[b].Loose? && s.d[b] == ZeroBlock()
    ensures var s' := LinkWord(s, n, ref, q, k, b);
            Sound(s') && Keeps(s, s') && SameMapExcept(s, s', n, bn)
  {
    hide Sound, Keeps;
    match ref
    case Entry(i, j) =>
      LinkEntrySound(s, n, i, j, b, bn);
    case Deep(j, k') =>
      LinkDeepSound(s, n, j, k', b, bn);
  }

  // The small-to-large conversion: the eight block numbers move, in order, from i_addr to
  // the loose block b, which becomes the indirect block of slot 0.
  ghost function Converted(s: Fs, n: Inode, b: nat): Fs
    requires n in s.t
  {
    s.(t := s.t[n := InodeValue(true, seq(8, k => if k == 0 then b else 0), s.t[n].size)],
       owner := map x | x in s.owner ::
         if x == b then Of(n, Slot(0))
         else match s.owner[x]
              case Of(m, Slot(k)) => if m == n then Of(n, Entry(0, k)) else s.owner[x]
              case _ => s.owner[x])
  }

  lemma ConvertedPtr(s: Fs, n: Inode, b: nat, m: Inode, r: Ref)
    requires Sound(s) && n in s.t && !s.t[n].large && m in s.t
    requires s.lo <= b < |s.d| && s.owner[b].Loose?
    requires forall k: nat :: k < WORDS ==>
               WordAt(s.d[b], k) == if k < 8 then s.t[n].addr[k] else 0
    ensures Ptr(s.d, Converted(s, n, b).t[m], r) ==
              if m != n then Ptr(s.d, s.t[m], r)
              else match r
                   case Slot(k) => if k == 0 then b else 0
                   case Entry(i, k) => if i == 0 && k < 8 then Ptr(s.d, s.t[n], Slot(k)) else 0
                   case Deep(_, _) => 0
  {
  }

  lemma ConvertedSound(s: Fs, n: Inode, b: nat)
    requires Sound(s) && n in s.t && !s.t[n].large
    requires s.lo <= b < |s.d| && s.owner[b].Loose?
    requires forall k: nat :: k < WORDS ==>
               WordAt(s.d[b], k) == if k < 8 then s.t[n].addr[k] else 0
    ensures Sound(Converted(s, n, b))
  {
    var s' := Converted(s, n, b);
    forall m, r | m in s.t && Ptr(s'.d, s'.t[m], r) != 0
      ensures s.lo <= Ptr(s'.d, s'.t[m], r) < |s.d| && s'.owner[Ptr(s'.d, s'.t[m], r)] == Of(m, r)
    {
      ConvertedPtr(s, n, b, m, r);
    }
    forall x | s.lo <= x < |s.d| && s'.owner[x].Of?
      ensures s'.owner[x].ino in s.t && Ptr(s'.d, s'.t[s'.owner[x].ino], s'.owner[x].ref) == x
    {
      if x != b {
        ConvertedPtr(s, n, b, s'.owner[x].ino, s'.owner[x].ref);
      }
    }
  }

  lemma ConvertedKeeps(s: Fs, n: Inode, b: nat)
    requires Sound(s) && n in s.t && !s.t[n].large
    requires s.lo <= b < |s.d| && s.owner[b].Loose?
    requires forall k: nat :: k < WORDS ==>
               WordAt(s.d[b], k) == if k < 8 then s.t[n].addr[k] else 0
    ensures Keeps(s, Converted(s, n, b)) && SameMap(s, Converted(s, n, b))
  {
    var s' := Converted(s, n, b);
    forall m, bn: nat | m in s.t
      ensures MapOf(s'.d, s'.t[m], bn) == MapOf(s.d, s.t[m], bn)
    {
      ConvertedPtr(s, n, b, m, DataRef(s'.t[m].large, bn));
    }
  }

  // The whole conversion: the first free block receives the eight block numbers.
  ghost function Conversion(s: Fs, list: seq<nat>, n: Inode, blk: Block): Fs
    requires s.chain != [] && s.chain[0] < |s.d| && n in s.t
  {
    var b := s.chain[0];
    var g := Taken(s, list);
    Converted(g.(d := g.d[b := blk]), n, b)
  }

  lemma ConversionSound(s: Fs, d: Disk, list: seq<nat>, n: Inode, blk: Block)
    requires Sound(s) && NothingLoose(s) && s.chain != [] && FreeListOk(d, s.lo, list, s.chain[1..])
    requires |d| == |s.d| && forall x :: x in s.chain && x < |d| ==> s.d[x] == d[x]
    requires n in s.t && !s.t[n].large
    requires forall k: nat :: k < WORDS ==> WordAt(blk, k) == if k < 8 then s.t[n].addr[k] else 0
    ensures 2 <= s.lo <= s.chain[0] < |s.d|
    ensures var s' := Conversion(s, list, n, blk);
            && Sound(s') && NothingLoose(s') && Keeps(s, s') && SameMap(s, s')
            && s'.d == s.d[s.chain[0] := blk] && s'.lo == s.lo
            && s'.list == list && s'.chain == s.chain[1..]
            && s'.t == s.t[n := InodeValue(true, seq(8, k => if k == 0 then s.chain[0] else 0), s.t[n].size)]
  {
    hide Sound, Keeps, SameMap, Ptr, FreeListOk;
    TakenSound(s, d, list);
    var b := s.chain[0];
    var g := Taken(s, list);
    var g2 := g.(d := g.d[b := blk]);
    WriteLooseKeeps(g, b, blk);
    ConvertedSound(g2, n, b);
    ConvertedKeeps(g2, n, b);
    KeepsTransitive(s, g, g2);
    KeepsTransitive(s, g2, Converted(g2, n, b));
  }

  lemma SoundFreeList(s: Fs)
    requires Sound(s)
    ensures FreeListOk(s.d, s.lo, s.list, s.chain)
  {
  }

  // Whether a place lies in slot i or below it.
  predicate Under(i: nat, r: Ref) {
    match r
    case Slot(i') => i' == i
    case Entry(i', _) => i' == i
    case Deep(_, _) => i == 7
  }

  // Slot i of n is given up: every block at or below it becomes loose.
  ghost function Unlinked(s: Fs, n: Inode, i: nat): Fs
    requires n in s.t && i < |s.t[n].addr|
  {
    s.(t := s.t[n := SetSlot(s.t[n], i, 0)],
       owner := map x | x in s.owner ::
         if s.owner[x].Of? && s.owner[x].ino == n && Under(i, s.owner[x].ref)
         then Loose(s.owner[x].ref) else s.owner[x])
  }

  lemma UnlinkedPtr(s: Fs, n: Inode, i: nat, m: Inode, r: Ref)
    requires Sound(s) && n in s.t && i < 8 && m in s.t
    ensures Ptr(s.d, Unlinked(s, n, i).t[m], r)
            == if m == n && Under(i, r) then 0 else Ptr(s.d, s.t[m], r)
  {
  }

  lemma UnlinkedSound(s: Fs, n: Inode, i: nat)
    requires Sound(s) && n in s.t && i < 8
    ensures Sound(Unlinked(s, n, i))
  {
    var s' := Unlinked(s, n, i);
    forall m, r | m in s.t && Ptr(s'.d, s'.t[m], r) != 0
      ensures s.lo <= Ptr(s'.d, s'.t[m], r) < |s.d| && s'.owner[Ptr(s'.d, s'.t[m], r)] == Of(m, r)
    {
      UnlinkedPtr(s, n, i, m, r);
    }
    forall x | s.lo <= x < |s.d| && s'.owner[x].Of?
      ensures s'.owner[x].ino in s.t && Ptr(s'.d, s'.t[s'.owner[x].ino], s'.owner[x].ref) == x
    {
      UnlinkedPtr(s, n, i, s'.owner[x].ino, s'.owner[x].ref);
    }
  }

  // A loose block goes to the head of the free chain; only it may have been written.
  ghost function Given(s: Fs, d': Disk, list': seq<nat>, b: nat): Fs {
    s.(d := d', list := list', chain := [b] + s.chain, owner := s.owner[b := Free])
  }

  lemma GivenSound(s: Fs, d': Disk, list': seq<nat>, b: nat)
    requires Sound(s) && s.lo <= b < |s.d| == |d'| && s.owner[b].Loose?
    requires forall x: nat :: x < |s.d| && x != b ==> d'[x] == s.d[x]
    requires FreeListOk(d', s.lo, list', [b] + s.chain)
    ensures Sound(Given(s, d', list', b)) && Keeps(s, Given(s, d', list', b))
  {
    assert d' == s.d[b := d'[b]];
    WriteLooseKeeps(s, b, d'[b]);
    var s1 := s.(d := d');
    var s' := Given(s, d', list', b);
    forall m, r | m in s.t ensures Ptr(s'.d, s'.t[m], r) == Ptr(s1.d, s1.t[m], r) {
    }
  }

  lemma KeepsTransitive(s: Fs, s': Fs, s'': Fs)
    requires Keeps(s, s') && Keeps(s', s'')
    ensures Keeps(s, s'')
    ensures SameMap(s, s') && SameMap(s', s'') ==> SameMap(s, s'')
  {
  }

  lemma KeepsReflexive(s: Fs, n: Inode, bn: nat)
    requires Sound(s)
    ensures Keeps(s, s) && SameMap(s, s) && SameMapExcept(s, s, n, bn)
  {
  }

  lemma SameMapIsExcept(s: Fs, s': Fs, n: Inode, bn: nat)
    requires SameMap(s, s')
    ensures SameMapExcept(s, s', n, bn)
  {
  }

  lemma SameMapThenExcept(s: Fs, s': Fs, s'': Fs, n: Inode, bn: nat)
    requires SameMapExcept(s, s', n, bn) && SameMapExcept(s', s'', n, bn)
    ensures SameMapExcept(s, s'', n, bn)
  {
  }

  // A block that a file points to is in the data area and not free.
  lemma PointersOwned(s: Fs, n: Inode, r: Ref)
    requires Sound(s) && n in s.t && |s.t[n].addr| == 8
    requires Ptr(s.d, s.t[n], r) != 0
    ensures 2 <= s.lo <= Ptr(s.d, s.t[n], r) < |s.d|
    ensures Ptr(s.d, s.t[n], r) !in s.chain
    ensures s.owner[Ptr(s.d, s.t[n], r)] == Of(n, r)
  {
  }

  lemma SmallMap(d: Disk, n: InodeValue)
    requires !n.large && |n.addr| == 8
    ensures forall bn: nat :: MapOf(d, n, bn) == if bn < 8 then n.addr[bn] else 0
  {
  }

  lemma PointerBlockMap(s: Fs, n: Inode, bn: nat)
    requires n in s.t && |s.t[n].addr| == 8 && s.t[n].large && bn < 0x8000
    requires PointerBlock(s.d, s.t[n], bn) != 0
    ensures MapOf(s.d, s.t[n], bn) == Word(s.d, PointerBlock(s.d, s.t[n], bn), bn % WORDS)
    ensures MapOf(s.d, s.t[n], bn) == Ptr(s.d, s.t[n], DataRef(true, bn))
    ensures IsPlace(s, n, DataRef(true, bn), PointerBlock(s.d, s.t[n], bn), bn % WORDS)
    ensures bn % WORDS < WORDS - 1 ==>
              MapOf(s.d, s.t[n], bn + 1) == Word(s.d, PointerBlock(s.d, s.t[n], bn), bn % WORDS + 1)
  {
    if bn % WORDS < WORDS - 1 {
      assert (bn + 1) / WORDS == bn / WORDS && (bn + 1) % WORDS == bn % WORDS + 1;
    }
  }

  lemma EntryPtrIsPtr(s: Fs, n: Inode, j: nat)
    requires n in s.t && |s.t[n].addr| == 8
    ensures Ptr(s.d, s.t[n], Entry(7, j)) == EntryPtr(s.d, s.t[n], 7, j)
  {
  }

  // Linking a data block leaves its pointer block where it was.
  lemma NewWordSamePlace(s: Fs, list: seq<nat>, n: Inode, bn: nat, q: nat)
    requires Sound(s) && s.chain != [] && n in s.t && |s.t[n].addr| == 8 && s.t[n].large && bn < 0x8000
    requires q == PointerBlock(s.d, s.t[n], bn) != 0 && q < |s.d| && s.chain[0] < 0x1_0000
    ensures PointerBlock(NewWord(s, list, n, DataRef(true, bn), q, bn % WORDS).d, s.t[n], bn) == q
  {
    if bn >= 7 * WORDS {
      var j := bn / WORDS - 7;
      TakenSamePtr(s, list, n, Entry(7, j));
      var p7 := Ptr(s.d, s.t[n], Slot(7));
      assert q == Ptr(s.d, s.t[n], Entry(7, j));
      assert p7 != q;
    }
  }

  // Writing the data block of logical block bn changes that block and no other.
  lemma DataWriteSound(s: Fs, n: Inode, bn: nat, blk: Block)
    requires Sound(s) && NothingLoose(s) && n in s.t && |s.t[n].addr| == 8
    requires MapOf(s.d, s.t[n], bn) != 0
    ensures s.lo <= MapOf(s.d, s.t[n], bn) < |s.d|
    ensures var s' := s.(d := s.d[MapOf(s.d, s.t[n], bn) := blk]);
            && Sound(s') && NothingLoose(s') && SameMap(s, s')
            && BlockOf(s'.d, s.t[n], bn) == blk
            && (forall m, x: nat :: m in s.t && !(m == n && x == bn) ==>
                  BlockOf(s'.d, s.t[m], x) == BlockOf(s.d, s.t[m], x))
  {
    var p := MapOf(s.d, s.t[n], bn);
    assert p == Ptr(s.d, s.t[n], DataRef(s.t[n].large, bn));
    WriteSound(s, p, blk);
    forall m, x: nat | m in s.t && !(m == n && x == bn)
      ensures BlockOf(s.d[p := blk], s.t[m], x) == BlockOf(s.d, s.t[m], x)
    {
      if MapOf(s.d, s.t[m], x) == p {
        MapInjective(s, n, bn, m, x);
      }
    }
  }

  // The size field plays no part in ownership.
  ghost function Resized(s: Fs, n: Inode, size: nat): Fs
    requires n in s.t
  {
    s.(t := s.t[n := s.t[n].(size := size)])
  }

  lemma ResizedSound(s: Fs, n: Inode, size: nat)
    requires Sound(s) && NothingLoose(s) && n in s.t
    ensures Sound(Resized(s, n, size)) && NothingLoose(Resized(s, n, size))
    ensures SameMap(s, Resized(s, n, size))
    ensures forall m, x: nat :: m in s.t ==>
              BlockOf(s.d, Resized(s, n, size).t[m], x) == BlockOf(s.d, s.t[m], x)
  {
    var s' := Resized(s, n, size);
    forall m, r | m in s.t ensures Ptr(s.d, s'.t[m], r) == Ptr(s.d, s.t[m], r) {
    }
  }

  lemma AddressesFitAll(s: Fs)
    requires Sound(s)
    ensures forall n :: n in s.t ==> |s.t[n].addr| == 8
  {
  }

  lemma BlockAt(d: Disk, n: InodeValue, bn: nat)
    requires |n.addr| == 8 && 0 < MapOf(d, n, bn) < |d|
    ensures BlockOf(d, n, bn) == d[MapOf(d, n, bn)]
  {
  }

  lemma KeptSizes(s: Fs, s': Fs)
    requires Keeps(s, s')
    ensures s'.t.Keys == s.t.Keys && forall n :: n in s.t ==> s'.t[n].size == s.t[n].size
  {
  }

  // A mapped block lies in the data area.
  lemma MapInArea(s: Fs, n: Inode, bn: nat)
    requires Sound(s) && n in s.t
    ensures |s.t[n].addr| == 8
    ensures MapOf(s.d, s.t[n], bn) != 0 ==> MapOf(s.d, s.t[n], bn) < |s.d|
    ensures 0 < |s.d|
  {
    if MapOf(s.d, s.t[n], bn) != 0 {
      PointersOwned(s, n, DataRef(s.t[n].large, bn));
    }
  }

  lemma KeepsAgain(s: Fs, s': Fs)
    requires Keeps(s, s')
    ensures Keeps(s', s')
  {
  }

  // ---- The out-of-space continuation of bmap ----

  // b is a block of pointers of n.
  ghost predicate IsPointerBlock(s: Fs, n: Inode, b: nat) {
    && s.lo <= b < |s.d| && b in s.owner && n in s.t && b !in s.chain
    && s.owner[b].Of? && s.owner[b].ino == n && !IsData(s.t[n].large, s.owner[b].ref)
  }

  lemma SlotIsPointerBlock(s: Fs, n: Inode, i: nat)
    requires Sound(s) && n in s.t && |s.t[n].addr| == 8 && s.t[n].large
    requires i < 8 && s.t[n].addr[i] != 0
    ensures IsPointerBlock(s, n, s.t[n].addr[i])
  {
    var p := Ptr(s.d, s.t[n], Slot(i));
  }

  // d is the disk of s except at pointer block b of n, which s has zeroed.
  ghost predicate IsStale(s: Fs, d: Disk, n: Inode, b: nat) {
    && |d| == |s.d| && IsPointerBlock(s, n, b)
    && s.d[b] == ZeroBlock() && forall x: nat :: x < |d| && x != b ==> d[x] == s.d[x]
  }

  lemma PointerBlockOwned(s: Fs, n: Inode, bn: nat)
    requires Sound(s) && n in s.t && |s.t[n].addr| == 8 && s.t[n].large
    requires PointerBlock(s.d, s.t[n], bn) != 0 && bn < 0x8000
    ensures IsPointerBlock(s, n, PointerBlock(s.d, s.t[n], bn))
  {
    if bn < 7 * WORDS {
      var p := Ptr(s.d, s.t[n], Slot(bn / WORDS));
    } else {
      var p := Ptr(s.d, s.t[n], Entry(7, bn / WORDS - 7));
    }
  }

  // A pointer that is read in s does not go through the zeroed block.
  lemma StalePath(s: Fs, d: Disk, n: Inode, b: nat, m: Inode, r: Ref)
    requires Sound(s) && IsStale(s, d, n, b) && m in s.t && Ptr(s.d, s.t[m], r) != 0
    ensures Ptr(d, s.t[m], r) == Ptr(s.d, s.t[m], r)
  {
    ZeroWords();
  }

  // The file system whose disk still has the old contents of the released pointer block is
  // sound, under any account of who holds what, exactly when those contents are zeros.
  lemma StaleExactly(s: Fs, d: Disk, n: Inode, b: nat)
    requires Sound(s) && NothingLoose(s) && IsStale(s, d, n, b)
    ensures d[b] == ZeroBlock() ==> d == s.d
    ensures d[b] != ZeroBlock() ==>
              forall owner :: NothingLoose(s.(d := d, owner := owner)) ==> !Sound(s.(d := d, owner := owner))
  {
    if d[b] != ZeroBlock() {
      var k: nat :| k < WORDS && WordAt(d[b], k) != WordAt(ZeroBlock(), k) by {
        if forall k: nat :: k < WORDS ==> WordAt(d[b], k) == WordAt(ZeroBlock(), k) {
          WordsDetermineBlock(d[b], ZeroBlock());
        }
      }
      ZeroWords();
      forall owner | NothingLoose(s.(d := d, owner := owner)) && Sound(s.(d := d, owner := owner))
        ensures false
      {
        StaleWord(s, d, n, b, k, owner);
      }
    }
  }

  // One nonzero word of it claims a block that has another holder.
  lemma StaleWord(s: Fs, d: Disk, n: Inode, b: nat, k: nat, owner: map<nat, Owner>)
    requires Sound(s) && NothingLoose(s) && IsStale(s, d, n, b)
    requires k < WORDS && WordAt(d[b], k) != 0
    requires NothingLoose(s.(d := d, owner := owner))
    ensures !Sound(s.(d := d, owner := owner))
  {
    var s' := s.(d := d, owner := owner);
    if Sound(s') {
      var w := WordAt(d[b], k);
      var r0 := s.owner[b].ref;
      assert Ptr(s.d, s.t[n], r0) == b;
      StalePath(s, d, n, b, n, r0);
      var r := match r0 case Slot(i) => Entry(i, k) case Entry(_, j) => Deep(j, k) case Deep(_, _) => r0;
      assert Ptr(d, s.t[n], r) == w;
      assert owner[w] == Of(n, r);
      ZeroWords();
      assert Ptr(s.d, s.t[n], r) == 0;
      var o := s.owner[w];
      assert o.Of?;
      assert Ptr(s.d, s.t[o.ino], o.ref) == w;
      StalePath(s, d, n, b, o.ino, o.ref);
    }
  }

  // A newly made file system: every block of the data area is free, every file empty.
  ghost function FreshFs(d: Disk, lo: nat, files: set<Inode>, list: seq<nat>, chain: seq<nat>): Fs {
    Fs(d, lo, map n | n in files :: InodeValue(false, seq(8, _ => 0), 0),
       map b | b in chain :: Free, list, chain)
  }

  lemma FreshSound(d: Disk, lo: nat, files: set<Inode>, list: seq<nat>, chain: seq<nat>)
    requires FreeListOk(d, lo, list, chain) && forall b :: lo <= b < |d| ==> b in chain
    ensures Sound(FreshFs(d, lo, files, list, chain)) && NothingLoose(FreshFs(d, lo, files, list, chain))
  {
    var s := FreshFs(d, lo, files, list, chain);
    forall n, r | n in s.t ensures Ptr(s.d, s.t[n], r) == 0 {
    }
  }
}
