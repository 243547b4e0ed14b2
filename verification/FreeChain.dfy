// The chained free-block list of ken/alloc.c. The superblock remembers up to 100 free
// blocks; entry 0 is either 0 (end of the list) or the block that stores the next 100.
module FreeChain {
  import opened Wrappers
  import opened Machine

  type Disk = seq<Block>

  const NICFREE := 100

  // The 100 block numbers that alloc copies out of a link block (words 1..100).
  function LinkTable(b: Block): (t: seq<nat>)
    ensures |t| == NICFREE
  {
    seq(NICFREE, k requires 0 <= k < NICFREE => WordAt(b, k + 1))
  }

  function Reversed(s: seq<nat>): (r: seq<nat>)
    ensures |r| == |s|
    ensures forall k: nat :: k < |s| ==> r[k] == s[|s| - 1 - k]
  {
    seq(|s|, k requires 0 <= k < |s| => s[|s| - 1 - k])
  }

  // chain is the sequence of blocks that alloc hands out, in order, when the in-core
  // list is list: the list from its top down, then the chain of its link block.
  ghost predicate IsChain(d: Disk, list: seq<nat>, chain: seq<nat>)
    decreases |chain|
  {
    if list == [] then
      chain == []
    else if list[0] == 0 then
      chain == Reversed(list[1..])
    else
      && |list| <= |chain|
      && chain[..|list|] == Reversed(list)
      && list[0] < |d|
      && WordAt(d[list[0]], 0) == NICFREE
      && IsChain(d, LinkTable(d[list[0]]), chain[|list|..])
  }

  // A well-formed free list over the data area [lo, |d|).
  ghost predicate FreeListOk(d: Disk, lo: nat, list: seq<nat>, chain: seq<nat>) {
    && 2 <= lo <= |d| <= 0x1_0000
    && |list| <= NICFREE
    && IsChain(d, list, chain)
    && NoDuplicates(chain)
    && forall b :: b in chain ==> lo <= b < |d|
  }

  // The chain depends only on the contents of its own blocks.
  lemma {:induction false} ChainFrame(d: Disk, d': Disk, list: seq<nat>, chain: seq<nat>)
    requires IsChain(d, list, chain)
    requires |d| == |d'|
    requires forall b :: b in chain && b < |d| ==> d'[b] == d[b]
    ensures IsChain(d', list, chain)
    decreases |chain|
  {
    if list != [] && list[0] != 0 {
      assert chain[..|list|][|list| - 1] == list[0];
      assert list[0] in chain;
      ChainFrame(d, d', LinkTable(d[list[0]]), chain[|list|..]);
    }
  }

  // alloc finds the list exhausted exactly when the chain is empty.
  lemma ChainEmpty(d: Disk, lo: nat, list: seq<nat>, chain: seq<nat>)
    requires FreeListOk(d, lo, list, chain)
    ensures chain == [] <==> list == [] || list == [0]
    ensures chain == [] ==> FreeListOk(d, lo, [], [])
    ensures chain != [] ==> list != [] && list[|list| - 1] == chain[0]
  {
    if list != [] && list[0] != 0 {
      assert chain[..|list|][0] == list[|list| - 1];
    }
  }

  // Taking the top entry of a longer list leaves the rest of the chain.
  lemma ChainPop(d: Disk, lo: nat, list: seq<nat>, chain: seq<nat>)
    requires FreeListOk(d, lo, list, chain) && |list| > 1
    ensures chain != []
    ensures FreeListOk(d, lo, list[..|list| - 1], chain[1..])
  {
    ChainEmpty(d, lo, list, chain);
    var list', chain' := list[..|list| - 1], chain[1..];
    assert forall b :: b in chain' ==> b in chain;
    if list[0] == 0 {
      assert chain' == Reversed(list'[1..]);
    } else {
      assert chain'[..|list'|] == chain[..|list|][1..] == Reversed(list');
      assert chain'[|list'|..] == chain[|list|..];
    }
  }

  // Taking the link block itself: its table becomes the in-core list.
  lemma ChainReload(d: Disk, lo: nat, b: nat, chain: seq<nat>)
    requires FreeListOk(d, lo, [b], chain) && b != 0
    ensures chain != [] && chain[0] == b
    ensures b < |d| && WordAt(d[b], 0) == NICFREE
    ensures FreeListOk(d, lo, LinkTable(d[b]), chain[1..])
  {
    assert chain[..1][0] == b;
    assert forall x :: x in chain[1..] ==> x in chain;
  }

  // free: b becomes the new head of the chain, whichever branch is taken.
  lemma ChainPush(d: Disk, lo: nat, list: seq<nat>, chain: seq<nat>, b: nat)
    requires FreeListOk(d, lo, list, chain) && |list| < NICFREE
    requires lo <= b < |d| && b !in chain
    ensures FreeListOk(d, lo, (if list == [] then [0] else list) + [b], [b] + chain)
  {
    var chain' := [b] + chain;
    if list == [] {
      assert chain' == Reversed(([0] + [b])[1..]);
    } else {
      var list' := list + [b];
      if list[0] == 0 {
        assert chain' == Reversed(list'[1..]);
      } else {
        assert chain'[..|list'|] == [b] + chain[..|list|] == Reversed(list');
        assert chain'[|list'|..] == chain[|list|..];
      }
    }
  }

  lemma ChainPushFull(d: Disk, d': Disk, lo: nat, list: seq<nat>, chain: seq<nat>, b: nat)
    requires FreeListOk(d, lo, list, chain) && |list| == NICFREE
    requires lo <= b < |d| == |d'| && b !in chain
    requires forall x: nat :: x < |d| && x != b ==> d'[x] == d[x]
    requires WordAt(d'[b], 0) == NICFREE && LinkTable(d'[b]) == list
    ensures FreeListOk(d', lo, [b], [b] + chain)
  {
    ChainFrame(d, d', list, chain);
    var chain' := [b] + chain;
    assert chain'[..1] == Reversed([b]);
    assert chain'[1..] == chain;
  }

  // Only the blocks of the chain itself matter.
  lemma FreeListFrame(d: Disk, d': Disk, lo: nat, list: seq<nat>, chain: seq<nat>, c: nat)
    requires FreeListOk(d, lo, list, chain) && c !in chain
    requires |d'| == |d| && forall x: nat :: x < |d| && x != c ==> d'[x] == d[x]
    ensures FreeListOk(d', lo, list, chain)
  {
    ChainFrame(d, d', list, chain);
  }
}
