// Giving back a file's block tree (itrunc in ken/iget.c): which blocks are still loose
// while the three nested loops run. Values only; the loops are in FileSystem.dfy.
module Truncate {
  import opened Machine
  import opened FreeChain
  import opened BlockTree
  import opened FlatFile

  function SlotOf(r: Ref): nat {
    match r
    case Slot(i) => i
    case Entry(i, _) => i
    case Deep(_, _) => 7
  }

  // How far the loops have come below slot i: words from cp on of the indirect block are
  // done, except that, when inside, word cp's own block is still there with its first ep
  // words to go.
  datatype Cursor = Cursor(cp: nat, inside: bool, ep: nat) | RootOnly | Nothing

  predicate Left(i: nat, c: Cursor, r: Ref) {
    match r
    case Slot(i') => c != Nothing && i' == i
    case Entry(i', j) => c.Cursor? && i' == i && (j < c.cp || (c.inside && j == c.cp))
    case Deep(j, k) => c.Cursor? && i == 7 && (j < c.cp || (c.inside && j == c.cp && k < c.ep))
  }

  // The loose blocks are exactly those still to be freed, and the pointers to them, in
  // the tree that n had, are intact.
  ghost predicate LooseTree(s: Fs, n: InodeValue, i: nat, c: Cursor) {
    && |n.addr| == 8
    && (forall r :: Left(i, c, r) && Ptr(s.d, n, r) != 0 ==>
          s.lo <= Ptr(s.d, n, r) < |s.d| && Ptr(s.d, n, r) in s.owner
          && s.owner[Ptr(s.d, n, r)] == Loose(r))
    && (forall b :: s.lo <= b < |s.d| && b in s.owner && s.owner[b].Loose? ==>
          Left(i, c, s.owner[b].ref) && Ptr(s.d, n, s.owner[b].ref) == b)
  }

  // Only loose blocks have changed hands, and they went to the free list.
  ghost predicate OnlyFreed(s: Fs, s': Fs) {
    && s'.lo == s.lo && |s'.d| == |s.d| && s'.t == s.t
    && forall b :: s.lo <= b < |s.d| && b in s.owner ==>
         b in s'.owner && (s'.owner[b] == s.owner[b] || (s.owner[b].Loose? && s'.owner[b].Free?))
  }

  lemma OnlyFreedTransitive(s: Fs, s': Fs, s'': Fs)
    requires OnlyFreed(s, s') && OnlyFreed(s', s'')
    ensures OnlyFreed(s, s'')
  {
  }

  // Unlinking a slot leaves the whole tree below it loose.
  lemma UnlinkedTree(s: Fs, n: Inode, i: nat)
    requires Sound(s) && NothingLoose(s) && n in s.t && i < 8 && |s.t[n].addr| == 8
    requires s.t[n].addr[i] != 0
    ensures var c := if s.t[n].large then Cursor(WORDS, false, 0) else RootOnly;
            LooseTree(Unlinked(s, n, i), s.t[n], i, c)
  {
    var s' := Unlinked(s, n, i);
    var c := if s.t[n].large then Cursor(WORDS, false, 0) else RootOnly;
    forall r | Left(i, c, r) && Ptr(s.d, s.t[n], r) != 0
      ensures s.lo <= Ptr(s.d, s.t[n], r) < |s.d| && s'.owner[Ptr(s.d, s.t[n], r)] == Loose(r)
    {
      assert Under(i, r);
    }
    forall b | s.lo <= b < |s.d| && s'.owner[b].Loose?
      ensures Left(i, c, s'.owner[b].ref) && Ptr(s.d, s.t[n], s'.owner[b].ref) == b
    {
      assert s.owner[b] == Of(n, s'.owner[b].ref);
    }
  }

  lemma UnlinkedOthers(s: Fs, n: Inode, i: nat)
    requires Sound(s) && n in s.t && i < 8
    ensures OthersKept(s, Unlinked(s, n, i), n)
  {
  }

  // One block freed, at place r, through which nothing that is left is reached.
  lemma LooseFreed(s: Fs, n: InodeValue, i: nat, c: Cursor, c': Cursor, r: Ref, d': Disk, list': seq<nat>)
    requires Sound(s) && LooseTree(s, n, i, c) && Left(i, c, r) && Ptr(s.d, n, r) != 0
    requires |d'| == |s.d| && forall x: nat :: x < |s.d| && x != Ptr(s.d, n, r) ==> d'[x] == s.d[x]
    requires forall q :: Ptr(s.d, n, q) != 0 ==> (Left(i, c', q) <==> Left(i, c, q) && q != r)
    requires match r
             case Slot(_) => c' == Nothing
             case Entry(_, j) => i == 7 ==> forall k :: !Left(i, c', Deep(j, k))
             case Deep(_, _) => true
    requires r.Slot? ==> c == RootOnly
    ensures Ptr(s.d, n, r) < |s.d|
    ensures r.Slot? ==> NothingLoose(Given(s, d', list', Ptr(s.d, n, r)))
    ensures !r.Slot? ==> LooseTree(Given(s, d', list', Ptr(s.d, n, r)), n, i, c')
    ensures OnlyFreed(s, Given(s, d', list', Ptr(s.d, n, r)))
  {
    var b := Ptr(s.d, n, r);
    var s' := Given(s, d', list', b);
    if !r.Slot? {
      forall q | Left(i, c', q) ensures Ptr(d', n, q) == Ptr(s.d, n, q) {
        SamePath(s, n, i, c, r, d', q);
      }
      forall x | s.lo <= x < |s.d| && x in s'.owner && s'.owner[x].Loose?
        ensures Left(i, c', s'.owner[x].ref) && Ptr(d', n, s'.owner[x].ref) == x
      {
        assert s.owner[x] == s'.owner[x];
      }
    }
  }

  lemma SamePath(s: Fs, n: InodeValue, i: nat, c: Cursor, r: Ref, d': Disk, q: Ref)
    requires LooseTree(s, n, i, c) && Left(i, c, r) && Left(i, c, q) && Ptr(s.d, n, r) != 0
    requires |d'| == |s.d| && forall x: nat :: x < |s.d| && x != Ptr(s.d, n, r) ==> d'[x] == s.d[x]
    requires !r.Slot?
    requires r.Entry? && q.Deep? ==> q.j != r.j || i != 7
    requires forall j, k :: q == Deep(j, k) ==> Left(i, c, Entry(7, j))
    ensures Ptr(d', n, q) == Ptr(s.d, n, q)
  {
    match q
    case Slot(_) =>
    case Entry(i', j) =>
      var p := Ptr(s.d, n, Slot(i));
    case Deep(j, k) =>
      var p := Ptr(s.d, n, Slot(7));
      var e := Ptr(s.d, n, Entry(7, j));
  }

  lemma LooseNotFree(s: Fs, n: InodeValue, i: nat, c: Cursor, r: Ref)
    requires Sound(s) && LooseTree(s, n, i, c) && Left(i, c, r) && Ptr(s.d, n, r) != 0
    ensures s.lo <= Ptr(s.d, n, r) < |s.d| && Ptr(s.d, n, r) !in s.chain
    ensures s.owner[Ptr(s.d, n, r)].Loose?
  {
  }

  // Moving the cursor over an empty word.
  lemma LooseSkip(s: Fs, n: InodeValue, i: nat, c: Cursor, c': Cursor)
    requires LooseTree(s, n, i, c) && s.lo > 0
    requires forall q :: Ptr(s.d, n, q) != 0 ==> (Left(i, c', q) <==> Left(i, c, q))
    ensures LooseTree(s, n, i, c')
  {
  }

  // The steps of the loops over the words of a second-level block ...
  lemma DeepStep(d: Disk, n: InodeValue, cp: nat, ep: nat)
    requires |n.addr| == 8
    ensures forall q :: Ptr(d, n, q) != 0 ==>
              (Left(7, Cursor(cp, true, ep), q) <==> Left(7, Cursor(cp, true, ep + 1), q) && q != Deep(cp, ep))
  {
  }

  // ... of an indirect block ...
  lemma EntryStep(d: Disk, n: InodeValue, i: nat, cp: nat)
    requires |n.addr| == 8
    ensures forall q :: Ptr(d, n, q) != 0 ==>
              (Left(i, Cursor(cp, false, 0), q) <==> Left(i, Cursor(cp, true, 0), q) && q != Entry(i, cp))
    ensures forall q :: Ptr(d, n, q) != 0 ==>
              (Left(i, Cursor(cp, true, WORDS), q) <==> Left(i, Cursor(cp + 1, false, 0), q))
    ensures i != 7 ==> forall q :: Ptr(d, n, q) != 0 ==>
              (Left(i, Cursor(cp, true, 0), q) <==> Left(i, Cursor(cp + 1, false, 0), q))
    ensures EntryPtr(d, n, i, cp) == 0 ==> forall q :: Ptr(d, n, q) != 0 ==>
              (Left(i, Cursor(cp, false, 0), q) <==> Left(i, Cursor(cp + 1, false, 0), q))
  {
  }

  // ... and the root.
  lemma RootStep(d: Disk, n: InodeValue, i: nat)
    requires |n.addr| == 8
    ensures forall q :: Left(i, RootOnly, q) <==> Left(i, Cursor(0, false, 0), q)
    ensures forall q :: Left(i, RootOnly, q) <==> q == Slot(i)
    ensures forall q :: !Left(i, Nothing, q)
  {
  }

  lemma SoundLow(s: Fs)
    requires Sound(s)
    ensures 2 <= s.lo <= |s.d|
  {
  }

  lemma OnlyFreedReflexive(s: Fs, n: Inode)
    requires Sound(s)
    ensures OnlyFreed(s, s) && Keeps(s, s)
  {
    KeepsReflexive(s, n, 0);
  }

  // The blocks on the way to the words of a second-level block, and those words, are all
  // different blocks.
  lemma SecondLoose(s: Fs, n: InodeValue, j: nat, c: Cursor)
    requires Sound(s) && LooseTree(s, n, 7, c) && Left(7, c, Entry(7, j))
    requires n.large && EntryPtr(s.d, n, 7, j) != 0
    ensures s.lo <= n.addr[7] < |s.d| && s.lo <= EntryPtr(s.d, n, 7, j) < |s.d|
    ensures n.addr[7] != EntryPtr(s.d, n, 7, j)
  {
    var p := Ptr(s.d, n, Slot(7));
    var q := Ptr(s.d, n, Entry(7, j));
  }

  lemma DeepLoose(s: Fs, n: InodeValue, j: nat, k: nat, c: Cursor)
    requires Sound(s) && LooseTree(s, n, 7, c)
    requires Left(7, c, Entry(7, j)) && Left(7, c, Deep(j, k))
    requires n.large && Ptr(s.d, n, Deep(j, k)) != 0
    ensures Ptr(s.d, n, Deep(j, k)) != n.addr[7]
    ensures Ptr(s.d, n, Deep(j, k)) != EntryPtr(s.d, n, 7, j)
  {
    var p := Ptr(s.d, n, Slot(7));
    var q := Ptr(s.d, n, Entry(7, j));
  }

  lemma RootLoose(s: Fs, n: InodeValue, i: nat, c: Cursor)
    requires Sound(s) && LooseTree(s, n, i, c) && i < 8 && n.addr[i] != 0 && c != Nothing
    ensures s.lo <= n.addr[i] < |s.d|
  {
    var p := Ptr(s.d, n, Slot(i));
    assert Left(i, c, Slot(i));
  }

  lemma EntryLoose(s: Fs, n: InodeValue, i: nat, j: nat, c: Cursor)
    requires Sound(s) && LooseTree(s, n, i, c) && i < 8 && Left(i, c, Entry(i, j))
    requires n.large && EntryPtr(s.d, n, i, j) != 0
    ensures EntryPtr(s.d, n, i, j) == Ptr(s.d, n, Entry(i, j)) < |s.d|
    ensures EntryPtr(s.d, n, i, j) != n.addr[i]
  {
    var p := Ptr(s.d, n, Slot(i));
    var q := Ptr(s.d, n, Entry(i, j));
  }

  // What itrunc has done so far: the slots from i on are empty, the blocks below them free,
  // and nothing else has changed hands.
  ghost predicate Truncated(s: Fs, s': Fs, n: Inode, i: nat) {
    && s'.lo == s.lo && |s'.d| == |s.d| && s'.t.Keys == s.t.Keys && n in s.t
    && |s.t[n].addr| == 8 && |s'.t[n].addr| == 8 && s'.t[n].large == s.t[n].large
    && (forall k :: 0 <= k < 8 ==> s'.t[n].addr[k] == if k < i then s.t[n].addr[k] else 0)
    && OthersKept(s, s', n)
    && forall b :: s.lo <= b < |s.d| ==>
         b in s.owner && b in s'.owner
         && s'.owner[b] == if s.owner[b].Of? && s.owner[b].ino == n && SlotOf(s.owner[b].ref) >= i
                           then Free else s.owner[b]
  }

  lemma TruncatedStart(s: Fs, n: Inode)
    requires Sound(s) && NothingLoose(s) && n in s.t
    ensures Truncated(s, s, n, 8)
  {
    forall b | s.lo <= b < |s.d| && s.owner[b].Of? && s.owner[b].ino == n
      ensures SlotOf(s.owner[b].ref) < 8
    {
      assert Ptr(s.d, s.t[n], s.owner[b].ref) == b;
    }
  }

  lemma TruncatedEmpty(s: Fs, s': Fs, n: Inode, i: nat)
    requires Truncated(s, s', n, i + 1) && Sound(s') && i < 8 && s'.t[n].addr[i] == 0
    ensures Truncated(s, s', n, i)
  {
    forall b | s.lo <= b < |s.d| && s.owner[b].Of? && s.owner[b].ino == n
      ensures SlotOf(s.owner[b].ref) != i
    {
      if s'.owner[b] == s.owner[b] {
        assert Ptr(s'.d, s'.t[n], s'.owner[b].ref) == b;
      }
    }
  }

  // A slot whose tree was unlinked and then freed.
  lemma TruncatedStep(s: Fs, s1: Fs, s2: Fs, n: Inode, i: nat)
    requires Truncated(s, s1, n, i + 1) && Sound(s1) && NothingLoose(s1) && i < 8
    requires OnlyFreed(Unlinked(s1, n, i), s2) && Keeps(Unlinked(s1, n, i), s2) && NothingLoose(s2)
    ensures Truncated(s, s2, n, i)
  {
    var g := Unlinked(s1, n, i);
    UnlinkedOthers(s1, n, i);
    UnlinkedSound(s1, n, i);
    KeptBytes(g, s2, n);
    OthersKeptTransitive(s1, g, s2, n);
    OthersKeptTransitive(s, s1, s2, n);
    forall b | s.lo <= b < |s.d|
      ensures b in s2.owner && s2.owner[b] ==
        if s.owner[b].Of? && s.owner[b].ino == n && SlotOf(s.owner[b].ref) >= i then Free else s.owner[b]
    {
      assert b in g.owner;
      assert s1.owner[b].Of? && s1.owner[b].ino == n ==>
               (Under(i, s1.owner[b].ref) <==> SlotOf(s1.owner[b].ref) == i);
    }
  }

  // i_mode and i_size are cleared last.
  ghost function Emptied(s: Fs, n: Inode): Fs
    requires n in s.t
  {
    s.(t := s.t[n := InodeValue(false, seq(8, _ => 0), 0)])
  }

  // The free blocks are those of before and those that n had.
  ghost predicate GrownBy(s: Fs, s': Fs, n: Inode) {
    forall b :: s.lo <= b < |s.d| && b in s.owner ==>
      (b in s'.chain <==> b in s.chain || (s.owner[b].Of? && s.owner[b].ino == n))
  }

  lemma TruncatedDone(s: Fs, s': Fs, n: Inode)
    requires Sound(s) && NothingLoose(s) && Sound(s') && NothingLoose(s') && Truncated(s, s', n, 0)
    ensures var z := Emptied(s', n);
            && Sound(z) && NothingLoose(z) && OthersKept(s, z, n)
            && (Trimmed(s) ==> Trimmed(z))
            && s'.t[n].addr == seq(8, _ => 0)
            && GrownBy(s, z, n)
  {
    var z := Emptied(s', n);
    assert s'.t[n].addr == seq(8, _ => 0);
    forall m, r | m in z.t ensures Ptr(z.d, z.t[m], r) == Ptr(s'.d, s'.t[m], r) {
    }
    TruncatedOthers(s, s', n);
    if Trimmed(s) {
      EmptiedTrimmed(s, z, n);
    }
  }

  lemma TruncatedOthers(s: Fs, s': Fs, n: Inode)
    requires Truncated(s, s', n, 0)
    ensures OthersKept(s, Emptied(s', n), n)
  {
    var z := Emptied(s', n);
    forall m, x: nat | m in s.t && m != n
      ensures BlockOf(z.d, z.t[m], x) == BlockOf(s.d, s.t[m], x)
    {
      assert BlockOf(s'.d, s'.t[m], x) == BlockOf(s.d, s.t[m], x);
    }
  }

  lemma EmptiedTrimmed(s: Fs, z: Fs, n: Inode)
    requires Trimmed(s) && OthersKept(s, z, n) && n in z.t && z.t[n] == InodeValue(false, seq(8, _ => 0), 0)
    ensures Trimmed(z)
  {
    forall m, k: nat | m in z.t && k >= z.t[m].size ensures FileByte(z.d, z.t[m], k) == 0 {
      if m != n {
        OthersContents(s, z, n, m);
      }
    }
  }
}
