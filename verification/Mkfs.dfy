// The free list that mkfs makes (tools/mkfs.c:453-488, 536-568).
module Mkfs {
  import opened Wrappers
  import opened Machine
  import opened FreeChain

  // adr is an order of the numbers below n.
  ghost predicate Permutation(a: seq<nat>, n: nat) {
    |a| == n && NoDuplicates(a) && forall x :: x in a <==> 0 <= x < n
  }

  function Range(n: nat): (s: set<nat>)
    ensures |s| == n && forall x :: x in s <==> 0 <= x < n
  {
    if n == 0 then {} else Range(n - 1) + {n - 1}
  }

  function Members(a: seq<nat>): (s: set<nat>)
    ensures |s| <= |a| && forall x :: x in s <==> x in a
    ensures NoDuplicates(a) ==> |s| == |a|
  {
    if a == [] then {} else Members(a[..|a| - 1]) + {a[|a| - 1]}
  }

  // Fewer than n numbers leave one out.
  lemma SomeLeft(a: seq<nat>, n: nat) returns (u: nat)
    requires |a| < n
    ensures u < n && u !in a
  {
    if Range(n) <= Members(a) {
      SubsetSize(Range(n), Members(a));
      assert false;
    }
    u :| u in Range(n) && u !in Members(a);
  }

  // n different numbers below n are all of them.
  lemma AllThere(a: seq<nat>, n: nat)
    requires |a| == n && NoDuplicates(a) && forall x :: x in a ==> x < n
    ensures Permutation(a, n)
  {
    SubsetSize(Members(a), Range(n));
  }

  function Later(i: nat, m: nat, n: nat): (r: nat)
    requires i < n
    ensures r < n
  {
    (i + m) % n
  }

  lemma LaterByOne(i: nat, n: nat)
    requires i < n
    ensures Later(i, 1, n) == if i + 1 == n then 0 else i + 1
  {
  }

  // k steps of one.
  function Steps(i: nat, k: nat, n: nat): (r: nat)
    requires i < n
    ensures r < n
  {
    if k == 0 then i else Later(Steps(i, k - 1, n), 1, n)
  }

  // Of the numbers below n, x is the first, cyclically from start on, that used does not have.
  ghost predicate FirstLeft(x: nat, start: nat, used: seq<nat>, n: nat)
    requires start < n
  {
    x !in used && exists k: nat :: x == Steps(start, k, n) && forall l: nat :: l < k ==> Steps(start, l, n) in used
  }

  // Each number is m steps behind the one before it, or the first one left from there.
  ghost predicate Spaced(a: seq<nat>, m: nat, n: nat) {
    && n > 0 && (forall k :: 0 <= k < |a| ==> a[k] < n) && (a != [] ==> a[0] == 0)
    && forall j: nat :: 0 < j < |a| ==> FirstLeft(a[j], Later(a[j - 1], m, n), a[..j], n)
  }

  lemma SpacedMore(a: seq<nat>, x: nat, m: nat, n: nat)
    requires Spaced(a, m, n) && x < n && forall k :: 0 <= k < |a| ==> a[k] < n
    requires if a == [] then x == 0 else FirstLeft(x, Later(a[|a| - 1], m, n), a, n)
    ensures Spaced(a + [x], m, n)
  {
    hide FirstLeft, Later;
    var r := a + [x];
    forall j: nat | 0 < j < |r| ensures FirstLeft(r[j], Later(r[j - 1], m, n), r[..j], n) {
      if j < |a| {
        assert r[..j] == a[..j] && FirstLeft(a[j], Later(a[j - 1], m, n), a[..j], n);
      } else {
        assert r[..j] == a;
      }
    }
  }

  lemma NextSpaced(a: seq<nat>, start: nat, x: nat, m: nat, n: nat)
    requires Spaced(a, m, n) && start < n && x < n && FirstLeft(x, start, a, n)
    requires start == if a == [] then 0 else Later(a[|a| - 1], m, n)
    ensures Spaced(a + [x], m, n)
  {
    if a == [] {
      FirstOfNone(x, start, a, n);
    }
    SpacedMore(a, x, m, n);
  }

  lemma SpacedNone(m: nat, n: nat)
    requires n > 0
    ensures Spaced([], m, n)
  {
  }

  lemma FirstOfNone(x: nat, start: nat, used: seq<nat>, n: nat)
    requires start < n && used == [] && FirstLeft(x, start, used, n)
    ensures x == start
  {
    var k: nat :| x == Steps(start, k, n) && forall l: nat :: l < k ==> Steps(start, l, n) in used;
    NoSteps(start, k, used, n);
  }

  lemma NoSteps(start: nat, k: nat, used: seq<nat>, n: nat)
    requires start < n && used == []
    ensures k > 0 ==> !forall l: nat :: l < k ==> Steps(start, l, n) in used
  {
    if k > 0 {
      assert Steps(start, 0, n) !in used;
    }
  }

  // ---- The order in which blocks are given out ----

  function Up(a: int, b: int): (r: seq<int>)
    ensures |r| == if a <= b then b - a else 0
    decreases b - a
  {
    if b <= a then [] else [a] + Up(a + 1, b)
  }

  lemma {:induction false} UpMore(a: int, b: int)
    requires a <= b
    ensures Up(a, b + 1) == Up(a, b) + [b]
    decreases b - a
  {
    if a < b {
      UpMore(a + 1, b);
    }
  }

  // The group of blocks that ends at i.
  function GroupAt(i: int, adr: seq<nat>): (r: seq<int>)
    ensures |r| == |adr|
  {
    seq(|adr|, k requires 0 <= k < |adr| => i - adr[|adr| - 1 - k])
  }

  // From lo to i in groups; what is left of them in order.
  function Groups(lo: nat, i: int, adr: seq<nat>): seq<int>
    decreases i - lo
  {
    if adr == [] || i < lo + |adr| then Up(lo, i + 1) else Groups(lo, i - |adr|, adr) + GroupAt(i, adr)
  }

  // From lo to i, with those behind the last group in order.
  function FreeOrder(lo: nat, i: int, adr: seq<nat>): seq<int>
    requires adr != []
    decreases i - lo
  {
    if i < lo || (i + 1) % |adr| == 0 then Groups(lo, i, adr) else FreeOrder(lo, i - 1, adr) + [i]
  }

  // Within a group, a block is given out m places before the next one, counted back from the
  // end modulo the size of the group, unless that place was freed before.
  lemma GroupSpacing(i: int, adr: seq<nat>, m: nat, k: nat)
    requires Spaced(adr, m, |adr|) && k + 1 < |adr| && adr[|adr| - 2 - k] < |adr|
    requires var j := |adr| - 2 - k; Later(adr[j], m, |adr|) !in adr[..j + 1]
    ensures i - GroupAt(i, adr)[k] == Later(i - GroupAt(i, adr)[k + 1], m, |adr|)
  {
    var n := |adr|;
    var j := n - 2 - k;
    assert FirstLeft(adr[j + 1], Later(adr[j], m, n), adr[..j + 1], n);
    var x := Later(adr[j], m, n);
    var l: nat :| adr[j + 1] == Steps(x, l, n) && forall q: nat :: q < l ==> Steps(x, q, n) in adr[..j + 1];
    assert Steps(x, 0, n) == x;
  }

  lemma OneMore(a: seq<int>, i: int, b: seq<int>)
    ensures a + [i] + b == a + ([i] + b)
  {
  }

  lemma GroupMore(a: seq<int>, g: seq<int>, b: seq<int>)
    ensures a + g + b == a + (g + b)
  {
  }

  lemma NoneUp(lo: int)
    ensures Up(lo, lo) == [] && forall s: seq<int> :: Up(lo, lo) + s == s
  {
  }

  lemma StartChain(d: Disk, lo: nat, chain: seq<nat>)
    requires FreeListOk(d, lo, [], chain)
    ensures chain == [] && FreeListOk(d, lo, [0], [])
  {
    assert Reversed([0][1..]) == [];
  }

  class Filsys {
    const s_isize: nat
    const s_fsize: nat
    const s_free: array<nat>
    var s_nfree: nat
    var disk: Disk
    var buf: Block

    // The free blocks, in the order in which alloc will give them out.
    ghost var chain: seq<nat>

    ghost predicate Ready()
      reads this, s_free
    {
      && s_free.Length == NICFREE && s_nfree <= NICFREE && |disk| == s_fsize
      && FreeListOk(disk, s_isize + 2, s_free[..s_nfree], chain)
      && forall k :: 0 <= k < NICFREE ==> s_free[k] < 0x1_0000
    }

    constructor (isize: nat, blocks: Disk)
      requires isize + 2 <= |blocks| < 0x1_0000
      ensures Ready() && fresh(s_free) && s_isize == isize && s_fsize == |blocks|
      ensures chain == [] && s_nfree == 0
    {
      s_isize, s_fsize, disk, buf := isize, |blocks|, blocks, ZeroBlock();
      s_free, s_nfree, chain := new nat[NICFREE](_ => 0), 0, [];
    }

    // bfree(0) ends the list; bfree of a block puts it in front.
    method Bfree(bno: nat)
      requires Ready() && (if s_nfree == 0 then bno == 0 else s_isize + 2 <= bno < s_fsize && bno !in chain)
      modifies this`s_nfree, this`disk, this`buf, this`chain, s_free
      ensures Ready() && s_nfree > 0
      ensures chain == if old(s_nfree) == 0 then [] else [bno] + old(chain)
    {
      hide IsChain, NoDuplicates, Reversed;
      ghost var list, d := s_free[..s_nfree], disk;
      if s_nfree >= 100 {
        assert s_free[..] == list;
        PutTable(bno);
        ChainPushFull(d, disk, s_isize + 2, list, chain, bno);
        s_nfree := 0;
      } else if s_nfree > 0 {
        ChainPush(disk, s_isize + 2, list, chain, bno);
      } else {
        StartChain(disk, s_isize + 2, chain);
      }
      ghost var before := s_free[..s_nfree];
      assert before == [] ==> before + [bno] == [bno];
      s_free[s_nfree] := bno;
      s_nfree := s_nfree + 1;
      assert s_free[..s_nfree] == before + [bno];
      chain := if bno == 0 then [] else [bno] + chain;
    }

    // The table of a full list goes to block bno.
    method PutTable(bno: nat)
      requires s_free.Length == NICFREE && bno < |disk| && forall k :: 0 <= k < NICFREE ==> s_free[k] < 0x1_0000
      modifies this`disk, this`buf
      ensures |disk| == |old(disk)| && forall x: nat :: x < |disk| && x != bno ==> disk[x] == old(disk)[x]
      ensures WordAt(disk[bno], 0) == NICFREE && LinkTable(disk[bno]) == s_free[..]
    {
      var b: seq<Byte> := PutWord(buf, 0, 100);
      var i := 0;
      while i < 100
        invariant 0 <= i <= 100 && |b| == 512 && WordAt(b, 0) == NICFREE
        invariant forall k: nat :: k < i ==> WordAt(b, k + 1) == s_free[k]
      {
        b := PutWord(b, i + 1, s_free[i]);
        i := i + 1;
      }
      buf := b;
      disk := disk[bno := buf];
      assert LinkTable(disk[bno]) == s_free[..];
    }

    // The next number, cyclically, that has not been used.
    method Skip(flg: array<bool>, start: nat, n: nat, ghost u: nat, ghost used: seq<nat>) returns (i: nat)
      requires start < n <= flg.Length && u < n && !flg[u]
      requires forall x: nat :: x < n ==> (flg[x] <==> x in used)
      ensures i < n && !flg[i] && FirstLeft(i, start, used, n)
    {
      i := start;
      ghost var k: nat := 0;
      while flg[i]
        invariant 0 <= i < n && i == Steps(start, k, n)
        invariant forall l: nat :: l < k ==> Steps(start, l, n) in used
        decreases if i <= u then u - i else u + n - i
      {
        LaterByOne(i, n);
        i := Later(i, 1, n);
        k := k + 1;
      }
    }

    // The interleave: each number below n once, steps of m apart where it can be.
    method Interleave(n: nat, m: nat, adr: array<nat>)
      requires 0 < n <= 100 && adr.Length == 100
      modifies adr
      ensures Permutation(adr[..n], n) && Spaced(adr[..n], m, n)
    {
      hide FirstLeft, Later, Spaced;
      SpacedNone(m, n);
      var flg := new bool[100](_ => false);
      var i := 0;
      var j := 0;
      assert adr[..0] == [];
      while j < n
        invariant 0 <= j <= n && 0 <= i < n && NoDuplicates(adr[..j])
        invariant forall x :: 0 <= x < n ==> (flg[x] <==> x in adr[..j])
        invariant forall x :: x in adr[..j] ==> x < n
        invariant Spaced(adr[..j], m, n) && (j > 0 ==> adr[j - 1] < n)
        invariant i == if j == 0 then 0 else Later(adr[j - 1], m, n)
      {
        ghost var u := SomeLeft(adr[..j], n);
        ghost var from := i;
        ghost var before := adr[..j];
        i := Skip(flg, i, n, u, before);
        adr[j] := i;
        assert adr[..j + 1] == before + [i];
        NextSpaced(before, from, i, m, n);
        flg[i] := true;
        i := Later(i, m, n);
        j := j + 1;
      }
      AllThere(adr[..n], n);
    }

    // Blocks above i are free, and those of the group ending at i that adr has had.
    ghost predicate Done(i: int, adr: seq<nat>)
      requires Ready()
      reads this, s_free
    {
      s_nfree > 0 &&
      forall b: nat :: b in chain <==> s_isize + 2 <= b < s_fsize && (b > i || (i - b) in adr)
    }

    // bflist: every block of the data area becomes free.
    method Bflist(want: nat, m: nat)
      requires Ready() && s_nfree == 0 && want > 0
      modifies this`s_nfree, this`disk, this`buf, this`chain, s_free
      ensures Ready() && forall b: nat :: b in chain <==> s_isize + 2 <= b < s_fsize
      ensures exists adr :: |adr| == (if want > 100 then 100 else want) && Permutation(adr, |adr|)
                            && Spaced(adr, m, |adr|) && chain == FreeOrder(s_isize + 2, s_fsize - 1, adr)
    {
      hide FreeListOk, Permutation, Done, Ready, Spaced, FreeOrder, Groups, Up;
      var n := if want > 100 then 100 else want;
      var adr := new nat[100];
      Interleave(n, m, adr);
      Bfree(0);
      NothingDone();
      ghost var order := adr[..n];
      var i := FreeTop(n, order);
      i := FreeGroups(i, n, adr);
      FreeRest(i);
    }

    // Blocks from the last down to one that ends a group of n.
    method FreeTop(n: nat, ghost adr: seq<nat>) returns (i: int)
      requires Ready() && Done(s_fsize - 1, []) && n > 0 && s_isize + 2 <= s_fsize && |adr| == n && chain == []
      modifies this`s_nfree, this`disk, this`buf, this`chain, s_free
      ensures s_isize + 1 <= i < s_fsize && Ready() && Done(i, [])
      ensures Groups(s_isize + 2, i, adr) + chain == FreeOrder(s_isize + 2, s_fsize - 1, adr)
    {
      hide FreeListOk, Done, Ready, Groups;
      i := s_fsize - 1;
      assert FreeOrder(s_isize + 2, i, adr) + chain == FreeOrder(s_isize + 2, s_fsize - 1, adr);
      while (i + 1) % n != 0
        invariant s_isize + 1 <= i < s_fsize && Ready() && Done(i, [])
        invariant FreeOrder(s_isize + 2, i, adr) + chain == FreeOrder(s_isize + 2, s_fsize - 1, adr)
        decreases i
      {
        if i < s_isize + 2 {
          break;
        }
        ghost var was := chain;
        FreeOne(i);
        OneMore(FreeOrder(s_isize + 2, i - 1, adr), i, was);
        i := i - 1;
      }
    }

    // Groups of n blocks, as long as there are more than n.
    method FreeGroups(start: int, n: nat, adr: array<nat>) returns (i: int)
      requires s_isize + 1 <= start < s_fsize && Ready() && Done(start, [])
      requires 0 < n <= adr.Length && Permutation(adr[..n], n) && adr != s_free
      modifies this`s_nfree, this`disk, this`buf, this`chain, s_free
      ensures s_isize + 1 <= i < s_fsize && Ready() && Done(i, [])
      ensures Up(s_isize + 2, i + 1) + chain == Groups(s_isize + 2, start, old(adr[..n])) + old(chain)
    {
      hide FreeListOk, Permutation, Done, Ready, Up, GroupAt;
      i := start;
      ghost var order := adr[..n];
      while i >= s_isize + 2 + n
        invariant s_isize + 1 <= i < s_fsize && Ready() && Done(i, []) && Permutation(adr[..n], n)
        invariant adr[..n] == order
        invariant Groups(s_isize + 2, i, order) + chain == Groups(s_isize + 2, start, order) + old(chain)
        decreases i
      {
        ghost var was := chain;
        Group(i, n, adr);
        GroupMore(Groups(s_isize + 2, i - n, order), GroupAt(i, order), was);
        i := i - n;
      }
    }

    method FreeRest(start: int)
      requires s_isize + 1 <= start < s_fsize && Ready() && Done(start, [])
      modifies this`s_nfree, this`disk, this`buf, this`chain, s_free
      ensures Ready() && forall b: nat :: b in chain <==> s_isize + 2 <= b < s_fsize
      ensures chain == Up(s_isize + 2, start + 1) + old(chain)
    {
      hide FreeListOk, Done, Ready, Up;
      var i := start;
      while i >= s_isize + 2
        invariant s_isize + 1 <= i < s_fsize && Ready() && Done(i, [])
        invariant Up(s_isize + 2, i + 1) + chain == Up(s_isize + 2, start + 1) + old(chain)
        decreases i
      {
        ghost var was := chain;
        FreeOne(i);
        UpMore(s_isize + 2, i);
        OneMore(Up(s_isize + 2, i), i, was);
        i := i - 1;
      }
      NoneUp(s_isize + 2);
      AllDone(i);
    }

    lemma NothingDone()
      requires Ready() && s_nfree > 0 && chain == []
      ensures Done(s_fsize - 1, []) && s_isize + 2 <= s_fsize
    {
    }

    lemma AllDone(i: int)
      requires Ready() && Done(i, []) && i == s_isize + 1
      ensures forall b: nat :: b in chain <==> s_isize + 2 <= b < s_fsize
    {
    }

    method FreeOne(i: nat)
      requires Ready() && Done(i, []) && s_isize + 2 <= i < s_fsize
      modifies this`s_nfree, this`disk, this`buf, this`chain, s_free
      ensures Ready() && Done(i - 1, []) && chain == [i] + old(chain)
    {
      hide FreeListOk;
      Bfree(i);
    }

    // The n blocks up to i, in the order of adr.
    method Group(i: int, n: nat, adr: array<nat>)
      requires Ready() && Done(i, []) && 0 < n <= adr.Length && Permutation(adr[..n], n) && adr != s_free
      requires s_isize + 2 + n <= i < s_fsize
      modifies this`s_nfree, this`disk, this`buf, this`chain, s_free
      ensures Ready() && Done(i - n, []) && adr[..n] == old(adr[..n])
      ensures chain == GroupAt(i, adr[..n]) + old(chain)
    {
      hide FreeListOk, Done;
      var j := 0;
      ghost var order := adr[..n];
      assert order[..0] == [];
      while j < n
        invariant 0 <= j <= n && Ready() && Done(i, order[..j]) && adr[..n] == order
        invariant |chain| == j + |old(chain)| && chain[j..] == old(chain)
        invariant forall k :: 0 <= k < j ==> chain[k] == i - order[j - 1 - k]
      {
        assert adr[j] == order[j] && order[j] in order;
        assert order[..j + 1] == order[..j] + [order[j]];
        FreeIn(i, adr[j], order[..j]);
        j := j + 1;
      }
      assert order[..n] == order;
      GroupDone(i, n, order);
    }

    method FreeIn(i: int, a: nat, ghost before: seq<nat>)
      requires Ready() && Done(i, before) && a !in before && s_isize + 2 <= i - a && i < s_fsize
      modifies this`s_nfree, this`disk, this`buf, this`chain, s_free
      ensures Ready() && Done(i, before + [a]) && chain == [i - a] + old(chain)
    {
      hide FreeListOk;
      Bfree(i - a);
    }

    lemma GroupDone(i: int, n: nat, order: seq<nat>)
      requires Ready() && Done(i, order) && Permutation(order, n)
      ensures Done(i - n, [])
    {
    }
  }
}
