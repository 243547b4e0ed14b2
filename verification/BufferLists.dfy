// The lists of buffers and the disk queue as linked structures (h/buf.h, dmr/bio.c:158-181,
// 209-297, 334-368; dmr/rk.c:30-87). BufferCache.dfy takes the lists as sequences; here each
// pointer operation is proved to do to its sequence what that model says.
module BufferLists {
  import opened Wrappers
  import BufferCache

  const NBUF: nat := 15

  // Pointers: the buffers are 0..NBUF, then the head bfreelist, the head rktab, and null.
  const BFREELIST: nat := 15
  const RKTAB: nat := 16
  const NIL: nat := 17
  const SIZE: nat := 18

  // ---- Rings ----

  // The nodes of the ring with head and list l: the head, the list, and the head again.
  function Node(head: nat, l: seq<nat>, i: nat): nat
    requires i <= |l| + 1
  {
    if i == 0 || i == |l| + 1 then head else l[i - 1]
  }

  // Forward pointers f and backward pointers b make a ring of head and l.
  ghost predicate Ring(f: seq<nat>, b: seq<nat>, head: nat, l: seq<nat>) {
    && |f| == |b| == SIZE && head < SIZE && NoDuplicates(l)
    && (forall i :: 0 <= i < |l| ==> l[i] < NBUF && l[i] != head)
    && (forall i :: 0 <= i <= |l| ==> f[Node(head, l, i)] == Node(head, l, i + 1))
    && (forall i :: 0 < i <= |l| + 1 ==> b[Node(head, l, i)] == Node(head, l, i - 1))
  }

  function Removed(l: seq<nat>, i: nat): seq<nat>
    requires i < |l|
  {
    l[..i] + l[i + 1..]
  }

  // The nodes of a ring differ, but for the head that closes it.
  lemma NodesDiffer(head: nat, l: seq<nat>)
    requires NoDuplicates(l) && forall i :: 0 <= i < |l| ==> l[i] != head
    ensures forall i, j :: 0 <= i < j <= |l| ==> Node(head, l, i) != Node(head, l, j)
    ensures forall i, j :: 0 < i < j <= |l| + 1 ==> Node(head, l, i) != Node(head, l, j)
  {
  }

  lemma RingLinks(f: seq<nat>, b: seq<nat>, head: nat, l: seq<nat>)
    requires Ring(f, b, head, l)
    ensures |f| == |b| == SIZE && head < SIZE && NoDuplicates(l)
    ensures forall i :: 0 <= i < |l| ==> l[i] < NBUF && l[i] != head
    ensures forall i :: 0 <= i <= |l| + 1 ==> Node(head, l, i) < SIZE
    ensures forall i :: 0 <= i <= |l| ==> f[Node(head, l, i)] == Node(head, l, i + 1)
    ensures forall i :: 0 < i <= |l| + 1 ==> b[Node(head, l, i)] == Node(head, l, i - 1)
  {
  }

  lemma IsRing(f: seq<nat>, b: seq<nat>, head: nat, l: seq<nat>)
    requires |f| == |b| == SIZE && head < SIZE && NoDuplicates(l)
    requires forall i :: 0 <= i < |l| ==> l[i] < NBUF && l[i] != head
    requires forall i :: 0 <= i <= |l| + 1 ==> Node(head, l, i) < SIZE
    requires forall i :: 0 <= i <= |l| ==> f[Node(head, l, i)] == Node(head, l, i + 1)
    requires forall i :: 0 < i <= |l| + 1 ==> b[Node(head, l, i)] == Node(head, l, i - 1)
    ensures Ring(f, b, head, l)
  {
  }

  lemma NodesOf(head: nat, l: seq<nat>)
    requires head < SIZE && forall i :: 0 <= i < |l| ==> l[i] < NBUF
    ensures forall i :: 0 <= i <= |l| + 1 ==> Node(head, l, i) < SIZE
    ensures Node(head, l, 0) == head == Node(head, l, |l| + 1)
    ensures forall i :: 0 <= i < |l| ==> Node(head, l, i + 1) == l[i]
  {
  }

  lemma RemovedNodes(head: nat, l: seq<nat>, i: nat, j: nat)
    requires i < |l| && j <= |l|
    ensures |Removed(l, i)| == |l| - 1
    ensures Node(head, Removed(l, i), j) == Node(head, l, if j <= i then j else j + 1)
  {
  }

  lemma RemovedDistinct(l: seq<nat>, i: nat, head: nat)
    requires i < |l| && NoDuplicates(l) && forall k :: 0 <= k < |l| ==> l[k] < NBUF && l[k] != head
    ensures NoDuplicates(Removed(l, i))
    ensures forall k :: 0 <= k < |l| - 1 ==> Removed(l, i)[k] < NBUF && Removed(l, i)[k] != head
  {
  }

  // The node before x is linked to the one behind it, both ways.
  lemma UnlinkRing(f: seq<nat>, b: seq<nat>, head: nat, l: seq<nat>, i: nat)
    requires Ring(f, b, head, l) && i < |l|
    ensures l[i] < NBUF && |f| == |b| == SIZE
    ensures f[l[i]] == Node(head, l, i + 2) < SIZE && b[l[i]] == Node(head, l, i) < SIZE
    ensures Ring(f[b[l[i]] := f[l[i]]], b[f[l[i]] := b[l[i]]], head, Removed(l, i))
  {
    hide Node, Removed, Ring, NoDuplicates;
    RingLinks(f, b, head, l);
    NodesDiffer(head, l);
    NodesOf(head, l);
    assert l[i] == Node(head, l, i + 1);
    var p, n, m := Node(head, l, i), Node(head, l, i + 2), Removed(l, i);
    var f', b' := f[p := n], b[n := p];
    RemovedDistinct(l, i, head);
    RemovedNodes(head, l, i, 0);
    NodesOf(head, m);
    forall j | 0 <= j <= |m| ensures f'[Node(head, m, j)] == Node(head, m, j + 1) {
      RemovedNodes(head, l, i, j);
      RemovedNodes(head, l, i, j + 1);
      var k := if j <= i then j else j + 1;
      assert f[Node(head, l, k)] == Node(head, l, k + 1);
      assert k != i ==> Node(head, l, k) != p;
    }
    forall j | 0 < j <= |m| + 1 ensures b'[Node(head, m, j)] == Node(head, m, j - 1) {
      RemovedNodes(head, l, i, j);
      RemovedNodes(head, l, i, j - 1);
      var k := if j <= i then j else j + 1;
      assert b[Node(head, l, k)] == Node(head, l, k - 1);
      assert k != i + 2 ==> Node(head, l, k) != n;
    }
    IsRing(f', b', head, m);
  }

  lemma AppendedNodes(head: nat, l: seq<nat>, x: nat)
    ensures forall j :: 0 <= j <= |l| ==> Node(head, l + [x], j) == Node(head, l, j)
    ensures Node(head, l + [x], |l| + 1) == x && Node(head, l + [x], |l| + 2) == head
  {
  }

  lemma AppendedDistinct(l: seq<nat>, x: nat, head: nat)
    requires NoDuplicates(l) && x !in l && x < NBUF && x != head
    requires forall k :: 0 <= k < |l| ==> l[k] < NBUF && l[k] != head
    ensures NoDuplicates(l + [x]) && forall k :: 0 <= k <= |l| ==> (l + [x])[k] < NBUF && (l + [x])[k] != head
    ensures forall j :: 0 <= j <= |l| ==> Node(head, l, j) != x
  {
  }

  // The node goes between the head and the last node.
  lemma AppendRing(f: seq<nat>, b: seq<nat>, head: nat, l: seq<nat>, x: nat)
    requires Ring(f, b, head, l) && x < NBUF && x != head && x !in l
    ensures |f| == |b| == SIZE && head < SIZE && b[head] < SIZE
    ensures Ring(f[b[head] := x][x := head], b[x := b[head]][head := x], head, l + [x])
  {
    hide Node, Ring, NoDuplicates;
    RingLinks(f, b, head, l);
    NodesDiffer(head, l);
    NodesOf(head, l);
    var m, last := l + [x], Node(head, l, |l|);
    assert b[Node(head, l, |l| + 1)] == last;
    var f', b' := f[last := x][x := head], b[x := last][head := x];
    AppendedNodes(head, l, x);
    AppendedDistinct(l, x, head);
    forall j | 0 <= j <= |m| ensures f'[Node(head, m, j)] == Node(head, m, j + 1) {
      if j < |l| {
        assert f[Node(head, l, j)] == Node(head, l, j + 1);
      }
    }
    forall j | 0 < j <= |m| + 1 ensures b'[Node(head, m, j)] == Node(head, m, j - 1) {
      if j <= |l| {
        assert b[Node(head, l, j)] == Node(head, l, j - 1);
        assert Node(head, l, j) != head;
      }
    }
    NodesOf(head, m);
    IsRing(f', b', head, m);
  }

  lemma PushedNodes(head: nat, l: seq<nat>, x: nat)
    ensures forall j :: 2 <= j <= |l| + 2 ==> Node(head, [x] + l, j) == Node(head, l, j - 1)
    ensures Node(head, [x] + l, 0) == head && Node(head, [x] + l, 1) == x
  {
  }

  lemma PushedDistinct(l: seq<nat>, x: nat, head: nat)
    requires NoDuplicates(l) && x !in l && x < NBUF && x != head
    requires forall k :: 0 <= k < |l| ==> l[k] < NBUF && l[k] != head
    ensures NoDuplicates([x] + l) && forall k :: 0 <= k <= |l| ==> ([x] + l)[k] < NBUF && ([x] + l)[k] != head
    ensures forall j :: 0 <= j <= |l| + 1 ==> Node(head, l, j) != x
  {
  }

  // The node goes between the head and the first node.
  lemma PushRing(f: seq<nat>, b: seq<nat>, head: nat, l: seq<nat>, x: nat)
    requires Ring(f, b, head, l) && x < NBUF && x != head && x !in l
    ensures |f| == |b| == SIZE && head < SIZE && f[head] < SIZE
    ensures Ring(f[x := f[head]][head := x], b[x := head][f[head] := x], head, [x] + l)
  {
    hide Node, Ring, NoDuplicates;
    RingLinks(f, b, head, l);
    NodesDiffer(head, l);
    NodesOf(head, l);
    var m, first := [x] + l, Node(head, l, 1);
    assert f[Node(head, l, 0)] == first;
    var f', b' := f[x := first][head := x], b[x := head][first := x];
    PushedNodes(head, l, x);
    PushedDistinct(l, x, head);
    forall j | 0 <= j <= |m| ensures f'[Node(head, m, j)] == Node(head, m, j + 1) {
      if j >= 2 {
        assert f[Node(head, l, j - 1)] == Node(head, l, j);
        assert Node(head, l, j - 1) != Node(head, l, 0);
      }
    }
    forall j | 0 < j <= |m| + 1 ensures b'[Node(head, m, j)] == Node(head, m, j - 1) {
      if j > 2 {
        assert b[Node(head, l, j - 1)] == Node(head, l, j - 2);
        assert Node(head, l, j - 1) != first;
      }
    }
    NodesOf(head, m);
    IsRing(f', b', head, m);
  }

  // Changes outside a ring leave it.
  lemma OtherRing(f: seq<nat>, b: seq<nat>, f': seq<nat>, b': seq<nat>, head: nat, l: seq<nat>)
    requires Ring(f, b, head, l) && |f'| == |b'| == SIZE
    requires f'[head] == f[head] && b'[head] == b[head]
    requires forall x :: x in l ==> f'[x] == f[x] && b'[x] == b[x]
    ensures Ring(f', b', head, l)
  {
    forall j | 0 <= j <= |l| ensures f'[Node(head, l, j)] == Node(head, l, j + 1) {
      assert f[Node(head, l, j)] == Node(head, l, j + 1);
    }
    forall j | 0 < j <= |l| + 1 ensures b'[Node(head, l, j)] == Node(head, l, j - 1) {
      assert b[Node(head, l, j)] == Node(head, l, j - 1);
    }
  }

  // ---- The driver's queue ----

  // From first, through f, to null.
  ghost predicate Queue(f: seq<nat>, first: nat, q: seq<nat>) {
    && |f| == SIZE && NoDuplicates(q) && (forall i :: 0 <= i < |q| ==> q[i] < NBUF)
    && first == (if q == [] then NIL else q[0])
    && (forall i :: 0 <= i < |q| ==> f[q[i]] == Next(q, i))
  }

  function Next(q: seq<nat>, i: nat): nat {
    if i + 1 < |q| then q[i + 1] else NIL
  }

  // x becomes the last: its link is null, and that of the one before it is x.
  function Linked(f: seq<nat>, q: seq<nat>, x: nat): seq<nat>
    requires |f| == SIZE && x < SIZE && forall i :: 0 <= i < |q| ==> q[i] < SIZE
  {
    if q == [] then f[x := NIL] else f[x := NIL][q[|q| - 1] := x]
  }

  lemma Enqueue(f: seq<nat>, first: nat, q: seq<nat>, x: nat)
    requires Queue(f, first, q) && x < NBUF && x !in q
    ensures forall i :: 0 <= i < |q| ==> q[i] < SIZE
    ensures Queue(Linked(f, q, x), if q == [] then x else first, q + [x])
  {
    var f' := Linked(f, q, x);
    var r := q + [x];
    forall i | 0 <= i < |r| ensures f'[r[i]] == Next(r, i) {
      assert i < |q| ==> f[q[i]] == Next(q, i);
    }
  }

  lemma Dequeue(f: seq<nat>, first: nat, q: seq<nat>)
    requires Queue(f, first, q) && q != []
    ensures Queue(f, f[first], q[1..]) && first == q[0] && first !in q[1..]
  {
    assert f[q[0]] == Next(q, 0);
    var r := q[1..];
    forall i | 0 <= i < |r| ensures f[r[i]] == Next(r, i) {
      assert f[q[i + 1]] == Next(q, i + 1);
    }
  }

  lemma RemovedMembers(l: seq<nat>, i: nat)
    requires NoDuplicates(l) && i < |l|
    ensures forall x :: x in Removed(l, i) <==> x in l && x != l[i]
  {
    forall x | x in l && x != l[i] ensures x in Removed(l, i) {
      var j :| 0 <= j < |l| && l[j] == x;
      assert Removed(l, i)[if j < i then j else j - 1] == x;
    }
  }

  // Where x is in l.
  function IndexOf(l: seq<nat>, x: nat): (i: nat)
    requires x in l
    ensures i < |l| && l[i] == x
  {
    if l[0] == x then 0 else 1 + IndexOf(l[1..], x)
  }

  // Taking a node out is what BufferCache.dfy says of the list.
  lemma {:induction false} RemovedIsWithout(l: seq<nat>, x: nat)
    requires NoDuplicates(l) && x in l
    ensures Removed(l, IndexOf(l, x)) == BufferCache.Without(l, x)
  {
    if l[0] == x {
      assert x !in l[1..];
      WithoutNothing(l[1..], x);
      assert Removed(l, 0) == l[1..];
    } else {
      assert NoDuplicates(l[1..]);
      RemovedIsWithout(l[1..], x);
      var i := IndexOf(l[1..], x);
      assert Removed(l, i + 1) == [l[0]] + Removed(l[1..], i);
    }
  }

  lemma {:induction false} WithoutNothing(l: seq<nat>, x: nat)
    requires x !in l
    ensures BufferCache.Without(l, x) == l
  {
    if l != [] {
      WithoutNothing(l[1..], x);
    }
  }

  lemma RingMembers(f: seq<nat>, b: seq<nat>, head: nat, l: seq<nat>)
    requires Ring(f, b, head, l)
    ensures |f| == |b| == SIZE && head < SIZE && NoDuplicates(l)
    ensures forall x :: x in l ==> x < NBUF && x != head
    ensures f[head] == Node(head, l, 1) && b[head] == Node(head, l, |l|)
    ensures f[head] == head || f[head] in l
    ensures b[head] == head || b[head] in l
  {
    assert f[Node(head, l, 0)] == Node(head, l, 1) && b[Node(head, l, |l| + 1)] == Node(head, l, |l|);
  }

  // Neighbours in a ring are of that ring.
  lemma Neighbours(f: seq<nat>, b: seq<nat>, head: nat, l: seq<nat>, x: nat)
    requires Ring(f, b, head, l) && x in l
    ensures x < NBUF && f[x] < SIZE && b[x] < SIZE
    ensures (f[x] == head || f[x] in l) && (b[x] == head || b[x] in l) && f[x] != x && b[x] != x
  {
    var i := IndexOf(l, x);
    UnlinkRing(f, b, head, l, i);
  }

  lemma QueueFrame(f: seq<nat>, f': seq<nat>, first: nat, q: seq<nat>)
    requires Queue(f, first, q) && |f'| == SIZE && forall x :: x in q ==> f'[x] == f[x]
    ensures Queue(f', first, q)
  {
  }

  // 0, 1, ..., n - 1.
  function Numbers(n: nat): (l: seq<nat>)
    ensures |l| == n && forall x :: x in l <==> 0 <= x < n
  {
    if n == 0 then [] else Numbers(n - 1) + [n - 1]
  }

  lemma EmptyQueue(f: seq<nat>)
    requires |f| == SIZE
    ensures Queue(f, NIL, [])
  {
  }

  // The pointers determine the list.
  lemma {:induction false} RingUnique(f: seq<nat>, b: seq<nat>, head: nat, l: seq<nat>, m: seq<nat>, i: nat)
    requires Ring(f, b, head, l) && Ring(f, b, head, m) && i <= |l| && i <= |m|
    ensures l[..i] == m[..i]
    ensures i == |l| ==> l == m
  {
    if i > 0 {
      RingUnique(f, b, head, l, m, i - 1);
      assert Node(head, l, i - 1) == Node(head, m, i - 1);
      assert f[Node(head, l, i - 1)] == Node(head, l, i) && f[Node(head, m, i - 1)] == Node(head, m, i);
    }
    if i == |l| {
      assert Node(head, l, i) == Node(head, m, i);
      assert f[Node(head, l, i)] == Node(head, l, i + 1) && f[Node(head, m, i)] == Node(head, m, i + 1);
      assert |m| == |l|;
      assert l[..i] == l && m[..i] == m;
    }
  }

  class BufferPool {
    const forw: array<nat>
    const back: array<nat>
    const avForw: array<nat>
    const avBack: array<nat>
    const busy: array<bool>
    const async: array<bool>
    const dev: array<int>
    const blkno: array<int>
    var actf: nat
    var actl: nat
    var active: bool

    // The available list, the buffers of no device and of the disk, and the disk's queue.
    ghost var avail: seq<nat>
    ghost var noDev: seq<nat>
    ghost var onDev: seq<nat>
    ghost var queue: seq<nat>

    ghost predicate Shape()
    {
      && forw.Length == back.Length == avForw.Length == avBack.Length == SIZE
      && busy.Length == async.Length == NBUF && dev.Length == blkno.Length == NBUF
      && forw != back && forw != avForw && forw != avBack && back != avForw && back != avBack && avForw != avBack
      && busy != async && dev != blkno
    }

    // A buffer is on the available list if and only if it is not busy.
    ghost predicate Availables()
      requires Shape()
      reads this`avail, avForw, avBack, busy
    {
      && Ring(avForw[..], avBack[..], BFREELIST, avail)
      && forall x :: 0 <= x < NBUF ==> (x in avail <==> !busy[x])
    }

    // Every buffer is on the ring of exactly one device, that of its block.
    ghost predicate Devices()
      requires Shape()
      reads this`noDev, this`onDev, forw, back, dev
    {
      && Ring(forw[..], back[..], BFREELIST, noDev) && Ring(forw[..], back[..], RKTAB, onDev)
      && (forall x :: 0 <= x < NBUF ==> (x in onDev <==> x !in noDev))
      && (forall x :: 0 <= x < NBUF ==> (x in onDev <==> dev[x] >= 0))
    }

    // The requests are busy buffers, linked through the pointers of the available list.
    ghost predicate Requests()
      requires Shape()
      reads this`queue, this`actf, this`actl, this`active, avForw, busy
    {
      && Queue(avForw[..], actf, queue) && (queue != [] ==> actl == queue[|queue| - 1])
      && (active <==> queue != [])
      && forall i :: 0 <= i < |queue| ==> queue[i] < NBUF && busy[queue[i]]
    }

    ghost predicate Valid()
      reads this, forw, back, avForw, avBack, busy, dev
    {
      Shape() && Availables() && Devices() && Requests()
    }

    // binit: every buffer is free, and belongs to no block.
    constructor ()
      ensures Valid() && fresh(forw) && fresh(back) && fresh(avForw) && fresh(avBack) && fresh(busy)
      ensures avail == Numbers(NBUF) && onDev == [] && queue == []
      ensures forall x :: 0 <= x < NBUF ==> !busy[x] && !async[x] && dev[x] == -1
    {
      forw, back := new nat[SIZE](i => i), new nat[SIZE](i => i);
      avForw, avBack := new nat[SIZE](i => i), new nat[SIZE](i => i);
      busy, async := new bool[NBUF](_ => true), new bool[NBUF](_ => false);
      dev, blkno := new int[NBUF](_ => -1), new int[NBUF](_ => 0);
      actf, actl, active := NIL, NIL, false;
      avail, noDev, onDev, queue := [], [], [], [];
      new;
      FreeAll();
    }

    // The buffers go one by one to the front of the ring of no device and to the end of the
    // available list.
    method FreeAll()
      requires Shape() && Ring(forw[..], back[..], BFREELIST, []) && Ring(forw[..], back[..], RKTAB, [])
      requires Ring(avForw[..], avBack[..], BFREELIST, [])
      requires forall x :: 0 <= x < NBUF ==> busy[x] && dev[x] == -1
      requires actf == NIL && !active && onDev == [] && queue == [] && noDev == [] && avail == []
      modifies forw, back, avForw, avBack, busy, this`noDev, this`avail
      ensures Valid() && avail == Numbers(NBUF) && forall x :: 0 <= x < NBUF ==> !busy[x]
    {
      hide Queue, NoDuplicates, Ring;
      var i := 0;
      while i < NBUF
        invariant 0 <= i <= NBUF
        invariant Ring(forw[..], back[..], BFREELIST, noDev) && Ring(forw[..], back[..], RKTAB, [])
        invariant Ring(avForw[..], avBack[..], BFREELIST, avail) && avail == Numbers(i)
        invariant forall x :: x in noDev <==> 0 <= x < i
        invariant forall x :: 0 <= x < NBUF ==> busy[x] == (x >= i)
      {
        Push(i, BFREELIST, noDev, RKTAB, []);
        Append(i, avail);
        busy[i] := false;
        noDev, avail := [i] + noDev, avail + [i];
        i := i + 1;
      }
      EmptyQueue(avForw[..]);
    }

    // Unlinks a buffer from the available list and marks it busy.
    method Notavail(bp: nat)
      requires Valid() && bp in avail
      modifies this`avail, avForw, avBack, busy
      ensures Valid() && avail == Removed(old(avail), IndexOf(old(avail), bp))
      ensures busy[..] == old(busy[..])[bp := true]
    {
      hide Devices, Ring, Queue, NoDuplicates, Removed, IndexOf;
      ghost var f, b, i := avForw[..], avBack[..], IndexOf(avail, bp);
      RingMembers(f, b, BFREELIST, avail);
      Neighbours(f, b, BFREELIST, avail, bp);
      UnlinkRing(f, b, BFREELIST, avail, i);
      var p, n := avBack[bp], avForw[bp];
      avForw[p] := n;
      avBack[n] := p;
      busy[bp] := true;
      assert avForw[..] == f[b[bp] := f[bp]] && avBack[..] == b[f[bp] := b[bp]];
      RemovedMembers(avail, i);
      assert forall x :: x in queue ==> x < NBUF && x !in avail;
      QueueFrame(f, avForw[..], actf, queue);
      avail := Removed(avail, i);
    }

    // The links of brelse: the buffer goes between the last and the head.
    method Append(bp: nat, ghost l: seq<nat>)
      requires Shape() && Ring(avForw[..], avBack[..], BFREELIST, l) && bp < NBUF && bp !in l
      modifies avForw, avBack
      ensures Ring(avForw[..], avBack[..], BFREELIST, l + [bp])
      ensures forall x :: 0 <= x < NBUF && x != bp && x !in l ==> avForw[x] == old(avForw[x])
    {
      hide Ring, NoDuplicates;
      ghost var f: seq<nat>, b: seq<nat> := avForw[..], avBack[..];
      AppendRing(f, b, BFREELIST, l, bp);
      RingMembers(f, b, BFREELIST, l);
      var last: nat := avBack[BFREELIST];
      avForw[last] := bp;
      avBack[bp] := last;
      avBack[BFREELIST] := bp;
      avForw[bp] := BFREELIST;
      assert avForw[..] == f[last := bp][bp := BFREELIST] && avBack[..] == b[bp := last][BFREELIST := bp];
    }

    // Puts a buffer at the end of the available list.
    method Brelse(bp: nat)
      requires Valid() && bp < NBUF && busy[bp] && bp !in queue
      modifies this`avail, avForw, avBack, busy, async
      ensures Valid() && avail == old(avail) + [bp]
      ensures busy[..] == old(busy[..])[bp := false] && async[..] == old(async[..])[bp := false]
    {
      hide Devices, Ring, Queue, NoDuplicates;
      ghost var f: seq<nat> := avForw[..];
      busy[bp], async[bp] := false, false;
      Append(bp, avail);
      QueueStart(f, actf, queue);
      assert forall x :: x in queue ==> x !in avail;
      QueueFrame(f, avForw[..], actf, queue);
      avail := avail + [bp];
    }

    // Takes a buffer off the ring of l.
    method Unlink(bp: nat, ghost head: nat, ghost l: seq<nat>, ghost other: nat, ghost o: seq<nat>)
      requires Shape() && Ring(forw[..], back[..], head, l) && Ring(forw[..], back[..], other, o)
      requires bp in l && head != other && head >= NBUF && other >= NBUF && forall x :: x in l ==> x !in o
      modifies forw, back
      ensures Ring(forw[..], back[..], head, Removed(l, IndexOf(l, bp))) && Ring(forw[..], back[..], other, o)
    {
      hide Ring, NoDuplicates, Removed;
      ghost var f: seq<nat>, b: seq<nat> := forw[..], back[..];
      RingMembers(f, b, head, l);
      RingMembers(f, b, other, o);
      Neighbours(f, b, head, l, bp);
      UnlinkRing(f, b, head, l, IndexOf(l, bp));
      var p, n := back[bp], forw[bp];
      forw[p] := n;
      back[n] := p;
      assert forw[..] == f[b[bp] := f[bp]] && back[..] == b[f[bp] := b[bp]];
      OtherRing(f, b, forw[..], back[..], other, o);
    }

    // Puts a buffer in front of the ring of dp.
    method Push(bp: nat, dp: nat, ghost l: seq<nat>, ghost other: nat, ghost o: seq<nat>)
      requires Shape() && Ring(forw[..], back[..], dp, l) && Ring(forw[..], back[..], other, o)
      requires bp < NBUF && bp !in l && bp !in o && dp != other && dp >= NBUF && other >= NBUF
      requires forall x :: x in l ==> x !in o
      modifies forw, back
      ensures Ring(forw[..], back[..], dp, [bp] + l) && Ring(forw[..], back[..], other, o)
    {
      hide Ring, NoDuplicates;
      ghost var f: seq<nat>, b: seq<nat> := forw[..], back[..];
      PushRing(f, b, dp, l, bp);
      RingMembers(f, b, dp, l);
      RingMembers(f, b, other, o);
      var first: nat := forw[dp];
      forw[bp] := first;
      back[bp] := dp;
      back[first] := bp;
      forw[dp] := bp;
      assert forw[..] == f[bp := first][dp := bp] && back[..] == b[bp := dp][first := bp];
      OtherRing(f, b, forw[..], back[..], other, o);
    }

    // Takes a buffer off the ring that it is on.
    method TakeOff(bp: nat)
      requires Valid() && bp < NBUF
      modifies this`noDev, this`onDev, forw, back
      ensures Ring(forw[..], back[..], BFREELIST, noDev) && Ring(forw[..], back[..], RKTAB, onDev)
      ensures onDev == if bp in old(onDev) then Removed(old(onDev), IndexOf(old(onDev), bp)) else old(onDev)
      ensures noDev == if bp in old(onDev) then old(noDev) else Removed(old(noDev), IndexOf(old(noDev), bp))
      ensures bp !in noDev && bp !in onDev
      ensures forall x :: 0 <= x < NBUF && x != bp ==>
                (x in onDev <==> x !in noDev) && (x in onDev <==> x in old(onDev))
      ensures forall x :: x in noDev || x in onDev ==> x < NBUF
    {
      hide Availables, Requests, Ring, NoDuplicates, Removed;
      RingMembers(forw[..], back[..], BFREELIST, noDev);
      RingMembers(forw[..], back[..], RKTAB, onDev);
      ghost var on := bp in onDev;
      ghost var l := if on then onDev else noDev;
      RemovedMembers(l, IndexOf(l, bp));
      Unlink(bp, if on then RKTAB else BFREELIST, l, if on then BFREELIST else RKTAB, if on then noDev else onDev);
      if on {
        onDev := Removed(l, IndexOf(l, bp));
      } else {
        noDev := Removed(l, IndexOf(l, bp));
      }
    }

    // Moves a buffer to the ring of another block's device; getblk does this to the first
    // available buffer. The device is the disk, or, when negative, none.
    method Relink(bp: nat, d: int, n: int)
      requires Valid() && bp < NBUF
      modifies this`noDev, this`onDev, forw, back, dev, blkno
      ensures Valid()
      ensures dev[..] == old(dev[..])[bp := d] && blkno[..] == old(blkno[..])[bp := n]
      ensures var on := if bp in old(onDev) then Removed(old(onDev), IndexOf(old(onDev), bp)) else old(onDev);
              onDev == if d < 0 then on else [bp] + on
      ensures var no := if bp in old(onDev) then old(noDev) else Removed(old(noDev), IndexOf(old(noDev), bp));
              noDev == if d < 0 then [bp] + no else no
    {
      hide Availables, Requests, Ring, NoDuplicates, Removed;
      assert forall x :: 0 <= x < NBUF ==> (x in onDev <==> dev[x] >= 0);
      TakeOff(bp);
      if d < 0 {
        Push(bp, BFREELIST, noDev, RKTAB, onDev);
        noDev := [bp] + noDev;
      } else {
        Push(bp, RKTAB, onDev, BFREELIST, noDev);
        onDev := [bp] + onDev;
      }
      dev[bp], blkno[bp] := d, n;
    }

    // The buffer of block n of device d, or null.
    method Incore(d: int, n: int) returns (bp: nat)
      requires Valid() && d >= 0
      ensures bp < NBUF ==> bp in onDev && dev[bp] == d && blkno[bp] == n
      ensures bp < NBUF || (bp == NIL && forall x :: 0 <= x < NBUF ==> !(dev[x] == d && blkno[x] == n))
    {
      hide Availables, Requests;
      ghost var f, b, i := forw[..], back[..], 0;
      bp := forw[RKTAB];
      assert f[Node(RKTAB, onDev, 0)] == Node(RKTAB, onDev, 1);
      while bp != RKTAB
        invariant 0 <= i <= |onDev| && bp == Node(RKTAB, onDev, i + 1)
        invariant forall j :: 0 <= j < i ==> !(dev[onDev[j]] == d && blkno[onDev[j]] == n)
        decreases |onDev| - i
      {
        assert bp == onDev[i] && bp in onDev;
        if blkno[bp] == n && dev[bp] == d {
          return;
        }
        assert f[Node(RKTAB, onDev, i + 1)] == Node(RKTAB, onDev, i + 2);
        bp, i := forw[bp], i + 1;
      }
      forall x | 0 <= x < NBUF ensures !(dev[x] == d && blkno[x] == n) {
        if x in onDev {
          var j :| 0 <= j < |onDev| && onDev[j] == x;
        }
      }
      bp := NIL;
    }

    // A request goes to the end of the queue; the driver starts if it was idle.
    method Strategy(bp: nat)
      requires Valid() && bp < NBUF && busy[bp] && bp !in queue
      modifies this`queue, this`actf, this`actl, this`active, avForw
      ensures Valid() && queue == old(queue) + [bp]
    {
      hide Devices, Ring, Queue, NoDuplicates;
      ghost var f: seq<nat>, b: seq<nat> := avForw[..], avBack[..];
      RingMembers(f, b, BFREELIST, avail);
      QueueStart(f, actf, queue);
      Enqueue(f, actf, queue, bp);
      avForw[bp] := NIL;
      if actf == NIL {
        actf := bp;
      } else {
        avForw[actl] := bp;
      }
      actl := bp;
      assert avForw[..] == Linked(f, queue, bp);
      OtherRing(f, b, avForw[..], b, BFREELIST, avail);
      queue := queue + [bp];
      active := true;
    }

    // The disk has finished the request at the head of the queue. Its link is read before
    // iodone may put the buffer on the available list.
    method Intr() returns (bp: nat)
      requires Valid()
      modifies this`queue, this`actf, this`active, this`avail, avForw, avBack, busy, async
      ensures Valid()
      ensures old(queue) == [] ==> bp == NIL && queue == [] && avail == old(avail)
      ensures old(queue) != [] ==>
                && bp == old(queue)[0] && queue == old(queue)[1..]
                && avail == (if old(async[bp]) then old(avail) + [bp] else old(avail))
                && busy[..] == (if old(async[bp]) then old(busy[..])[bp := false] else old(busy[..]))
                && async[..] == if old(async[bp]) then old(async[..])[bp := false] else old(async[..])
    {
      hide Devices, Ring, NoDuplicates, Queue;
      if !active {
        return NIL;
      }
      bp := actf;
      ghost var f: seq<nat> := avForw[..];
      QueueStart(f, actf, queue);
      Dequeue(f, actf, queue);
      active := false;
      actf := avForw[bp];
      queue := queue[1..];
      QueueStart(f, actf, queue);
      active := actf != NIL;
      if async[bp] {
        Brelse(bp);
      }
    }
  }

  lemma QueueStart(f: seq<nat>, first: nat, q: seq<nat>)
    requires Queue(f, first, q)
    ensures |f| == SIZE && (first == NIL <==> q == [])
    ensures q != [] ==> first == q[0] < NBUF && q[|q| - 1] < NBUF
    ensures forall x :: x in q ==> x < NBUF
  {
  }
}
