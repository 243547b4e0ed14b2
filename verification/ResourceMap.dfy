// The resource maps coremap and swapmap (ken/malloc.c): an array of runs of free units,
// by increasing address, ended by the first run of size 0.
module ResourceMap {

  datatype Run = Run(size: nat, addr: nat)

  const UINT := 0x1_0000

  // ---- Lists of runs ----

  // Sorted, and maximally coalesced: between two runs there is a gap. Addresses are
  // positive, since malloc returns 0 for failure, and 16-bit sums do not wrap.
  ghost predicate Canonical(e: seq<Run>) {
    && (forall i :: 0 <= i < |e| ==> e[i].size > 0 && e[i].addr > 0 && e[i].addr + e[i].size < UINT)
    && (forall i, j :: 0 <= i < j < |e| ==> e[i].addr + e[i].size < e[j].addr)
  }

  ghost predicate InRun(r: Run, u: nat) {
    r.addr <= u < r.addr + r.size
  }

  // Unit u is free.
  ghost predicate Free(e: seq<Run>, u: nat) {
    exists i :: 0 <= i < |e| && InRun(e[i], u)
  }

  // The first run of at least size units, or |e|.
  function FirstFit(e: seq<Run>, size: nat): (i: nat)
    ensures i <= |e|
    ensures i < |e| ==> e[i].size >= size
    ensures forall j :: 0 <= j < i ==> e[j].size < size
  {
    if e == [] then 0 else if e[0].size >= size then 0 else 1 + FirstFit(e[1..], size)
  }

  // The map after taking size units from the front of run i.
  function Taken(e: seq<Run>, i: nat, size: nat): seq<Run>
    requires i < |e| && size <= e[i].size
  {
    if e[i].size == size then e[..i] + e[i + 1..]
    else e[i := Run(e[i].size - size, e[i].addr + size)]
  }

  // The number of runs at or below address a: where a belongs.
  function Place(e: seq<Run>, a: nat): (p: nat)
    ensures p <= |e|
    ensures forall j :: 0 <= j < p ==> e[j].addr <= a
    ensures p < |e| ==> e[p].addr > a
  {
    if e == [] then 0 else if e[0].addr > a then 0 else 1 + Place(e[1..], a)
  }

  // Run r put between l and h: joined to the run before, to the run after, to both or to
  // neither.
  function Joined(l: seq<Run>, r: Run, h: seq<Run>): seq<Run> {
    var before := l != [] && l[|l| - 1].addr + l[|l| - 1].size == r.addr;
    var after := h != [] && r.addr + r.size == h[0].addr;
    if before then
      var x := l[|l| - 1];
      if after then l[..|l| - 1] + [Run(x.size + r.size + h[0].size, x.addr)] + h[1..]
      else l[..|l| - 1] + [Run(x.size + r.size, x.addr)] + h
    else if after then l + [Run(h[0].size + r.size, r.addr)] + h[1..]
    else l + [r] + h
  }

  lemma JoinedApart(l: seq<Run>, r: Run, h: seq<Run>)
    requires l == [] || l[|l| - 1].addr + l[|l| - 1].size != r.addr
    requires h == [] || r.addr + r.size != h[0].addr
    ensures Joined(l, r, h) == l + [r] + h
  {
  }

  // The map after giving back the size units at a.
  function Given(e: seq<Run>, size: nat, a: nat): seq<Run> {
    if size == 0 then e else Joined(e[..Place(e, a)], Run(size, a), e[Place(e, a)..])
  }

  // The units at a, right behind run bp - 1, and perhaps right before run bp.
  lemma JoinedLow(e: seq<Run>, bp: nat, size: nat, a: nat)
    requires 0 < bp <= |e| && e[bp - 1].addr + e[bp - 1].size == a
    requires size == 0 && bp < |e| ==> e[bp].addr > a
    ensures var x := e[bp - 1];
            var j := if size == 0 then e else Joined(e[..bp], Run(size, a), e[bp..]);
            if bp < |e| && a + size == e[bp].addr then
              j == e[bp - 1 := Run(x.size + size + e[bp].size, x.addr)][..bp] + e[bp + 1..]
            else j == e[bp - 1 := Run(x.size + size, x.addr)]
  {
    var x := e[bp - 1];
    var l, h := e[..bp], e[bp..];
    assert l[|l| - 1] == x && l[..|l| - 1] == e[..bp - 1];
    if bp < |e| {
      assert h[0] == e[bp] && h[1..] == e[bp + 1..];
    }
    assert e[bp - 1 := Run(x.size + size, x.addr)] == e[..bp - 1] + [Run(x.size + size, x.addr)] + h;
    if size == 0 {
      assert Run(x.size + size, x.addr) == x;
    }
  }

  lemma FreeConcat(a: seq<Run>, b: seq<Run>, u: nat)
    ensures Free(a + b, u) <==> Free(a, u) || Free(b, u)
  {
    if Free(a, u) {
      var i :| 0 <= i < |a| && InRun(a[i], u);
      assert InRun((a + b)[i], u);
    }
    if Free(b, u) {
      var i :| 0 <= i < |b| && InRun(b[i], u);
      assert InRun((a + b)[|a| + i], u);
    }
  }

  lemma FreeOne(r: Run, u: nat)
    ensures Free([r], u) <==> InRun(r, u)
  {
    assert [r][0] == r;
  }

  ghost predicate Below(a: seq<Run>, b: seq<Run>) {
    a == [] || b == [] || a[|a| - 1].addr + a[|a| - 1].size < b[0].addr
  }

  lemma CanonicalConcat(a: seq<Run>, b: seq<Run>)
    ensures Canonical(a + b) <==> Canonical(a) && Canonical(b) && Below(a, b)
  {
    var e := a + b;
    if Canonical(e) {
      forall i | 0 <= i < |b| ensures b[i] == e[|a| + i] {
      }
      assert forall i :: 0 <= i < |a| ==> a[i] == e[i];
    }
    if Canonical(a) && Canonical(b) && Below(a, b) {
      forall i, j | 0 <= i < j < |e| ensures e[i].addr + e[i].size < e[j].addr {
        if i < |a| <= j {
          assert a[i].addr + a[i].size <= a[|a| - 1].addr + a[|a| - 1].size;
          assert b[0].addr <= b[j - |a|].addr;
        }
      }
    }
  }

  // A run with what is on either side of it.
  lemma CanonicalAround(l: seq<Run>, r: Run, h: seq<Run>)
    ensures Canonical(l + [r] + h) <==>
              Canonical(l) && Canonical(h) && Below(l, [r]) && Below([r], h)
              && r.size > 0 && r.addr > 0 && r.addr + r.size < UINT
  {
    CanonicalConcat(l + [r], h);
    CanonicalConcat(l, [r]);
    assert (l + [r])[|l + [r]| - 1] == r;
  }

  lemma FreeAround(l: seq<Run>, r: Run, h: seq<Run>, u: nat)
    ensures Free(l + [r] + h, u) <==> Free(l, u) || InRun(r, u) || Free(h, u)
  {
    FreeConcat(l + [r], h, u);
    FreeConcat(l, [r], u);
    FreeOne(r, u);
  }

  // Below a run, no unit of it is free.
  lemma BelowNotFree(l: seq<Run>, h: seq<Run>, u: nat)
    requires Canonical(l + h)
    ensures Free(l, u) && h != [] ==> u < h[0].addr
    ensures Free(h, u) && l != [] ==> u >= l[|l| - 1].addr + l[|l| - 1].size
  {
    var e := l + h;
    if Free(l, u) && h != [] {
      var i :| 0 <= i < |l| && InRun(l[i], u);
      assert l[i] == e[i] && h[0] == e[|l|];
    }
    if Free(h, u) && l != [] {
      var i :| 0 <= i < |h| && InRun(h[i], u);
      assert h[i] == e[|l| + i] && l[|l| - 1] == e[|l| - 1];
    }
  }

  lemma TakenUnits(e: seq<Run>, i: nat, size: nat)
    requires Canonical(e) && i < |e| && size <= e[i].size
    ensures Canonical(Taken(e, i, size))
    ensures forall u: nat ::
              Free(Taken(e, i, size), u) <==> Free(e, u) && !InRun(Run(size, e[i].addr), u)
  {
    hide Canonical, Free;
    var l, r, h := e[..i], e[i], e[i + 1..];
    assert e == l + [r] + h == l + ([r] + h);
    CanonicalAround(l, r, h);
    CanonicalConcat(l, h);
    if e[i].size > size {
      var r' := Run(r.size - size, r.addr + size);
      assert Taken(e, i, size) == l + [r'] + h;
      CanonicalAround(l, r', h);
    } else if l != [] && h != [] {
      assert l[|l| - 1].addr + l[|l| - 1].size < r.addr;
    }
    forall u: nat ensures Free(Taken(e, i, size), u) <==> Free(e, u) && !InRun(Run(size, e[i].addr), u) {
      FreeAround(l, r, h, u);
      FreeConcat(l, h, u);
      BelowNotFree(l, [r] + h, u);
      BelowNotFree(l + [r], h, u);
      if e[i].size > size {
        FreeAround(l, Run(r.size - size, r.addr + size), h, u);
      }
    }
  }

  // The units given back must not be free already.
  ghost predicate Disjoint(e: seq<Run>, size: nat, a: nat) {
    forall u :: a <= u < a + size ==> !Free(e, u)
  }

  // Then they fit between the runs around their place.
  ghost predicate Fits(e: seq<Run>, size: nat, a: nat) {
    var p := Place(e, a);
    && (p > 0 ==> e[p - 1].addr + e[p - 1].size <= a)
    && (p < |e| ==> a + size <= e[p].addr)
  }

  lemma DisjointFits(e: seq<Run>, size: nat, a: nat)
    requires Canonical(e) && size > 0 && Disjoint(e, size, a)
    ensures Fits(e, size, a)
  {
    var p := Place(e, a);
    if p > 0 {
      assert InRun(e[p - 1], a) ==> Free(e, a);
    }
    if p < |e| {
      var u := e[p].addr;
      assert InRun(e[p], u) && Free(e, u);
    }
  }

  lemma GivenUnits(e: seq<Run>, size: nat, a: nat)
    requires Canonical(e) && a > 0 && a + size < UINT && (size == 0 || Fits(e, size, a))
    ensures Canonical(Given(e, size, a))
    ensures forall u: nat :: Free(Given(e, size, a), u) <==> Free(e, u) || InRun(Run(size, a), u)
  {
    if size > 0 {
      var p := Place(e, a);
      assert e == e[..p] + e[p..];
      JoinedUnits(e[..p], Run(size, a), e[p..]);
    }
  }

  lemma ClosedIs(e: seq<Run>, was: seq<Run>, p: nat)
    requires |e| + 1 == |was| && p < |was|
    requires forall k :: 0 <= k < p ==> e[k] == was[k]
    requires forall k :: p <= k < |e| ==> e[k] == was[k + 1]
    ensures e == was[..p] + was[p + 1..]
  {
  }

  lemma OpenedIs(e: seq<Run>, was: seq<Run>, p: nat, r: Run)
    requires |e| == |was| + 1 && p <= |was| && e[p] == r
    requires forall k :: 0 <= k < p ==> e[k] == was[k]
    requires forall k :: p < k < |e| ==> e[k] == was[k - 1]
    ensures e == was[..p] + [r] + was[p..]
  {
  }

  lemma JoinedUnits(l: seq<Run>, r: Run, h: seq<Run>)
    requires Canonical(l + h) && r.size > 0 && r.addr > 0 && r.addr + r.size < UINT
    requires l != [] ==> l[|l| - 1].addr + l[|l| - 1].size <= r.addr
    requires h != [] ==> r.addr + r.size <= h[0].addr
    ensures Canonical(Joined(l, r, h))
    ensures forall u: nat :: Free(Joined(l, r, h), u) <==> Free(l + h, u) || InRun(r, u)
  {
    hide Canonical, Free;
    var l0, h1 := if l == [] then [] else l[..|l| - 1], if h == [] then [] else h[1..];
    if l != [] {
      assert l == l0 + [l[|l| - 1]];
    }
    if h != [] {
      assert h == [h[0]] + h1;
      assert l + h == l + [h[0]] + h1;
    }
    if l != [] && l[|l| - 1].addr + l[|l| - 1].size == r.addr {
      if h != [] && r.addr + r.size == h[0].addr {
        JoinBoth(l0, l[|l| - 1], r, h[0], h1);
      } else {
        JoinBefore(l0, l[|l| - 1], r, h);
      }
    } else if h != [] && r.addr + r.size == h[0].addr {
      JoinAfter(l, r, h[0], h1);
    } else {
      JoinNeither(l, r, h);
    }
  }

  lemma JoinBoth(l: seq<Run>, x: Run, r: Run, y: Run, h: seq<Run>)
    requires Canonical(l + [x] + ([y] + h)) && x.addr + x.size == r.addr && r.addr + r.size == y.addr
    ensures var g := l + [Run(x.size + r.size + y.size, x.addr)] + h;
            && Canonical(g)
            && forall u: nat :: Free(g, u) <==> Free(l + [x] + ([y] + h), u) || InRun(r, u)
  {
    hide Canonical, Free;
    var j := Run(x.size + r.size + y.size, x.addr);
    CanonicalAround(l, x, [y] + h);
    CanonicalConcat([y], h);
    CanonicalAround([], y, h);
    assert [] + [y] + h == [y] + h;
    CanonicalAround(l, j, h);
    forall u: nat ensures Free(l + [j] + h, u) <==> Free(l + [x] + ([y] + h), u) || InRun(r, u) {
      FreeAround(l, x, [y] + h, u);
      FreeConcat([y], h, u);
      FreeOne(y, u);
      FreeAround(l, j, h, u);
    }
  }

  lemma JoinBefore(l: seq<Run>, x: Run, r: Run, h: seq<Run>)
    requires Canonical(l + [x] + h) && x.addr + x.size == r.addr && r.addr + r.size < UINT
    requires Below([r], h)
    ensures var g := l + [Run(x.size + r.size, x.addr)] + h;
            && Canonical(g)
            && forall u: nat :: Free(g, u) <==> Free(l + [x] + h, u) || InRun(r, u)
  {
    hide Canonical, Free;
    var j := Run(x.size + r.size, x.addr);
    CanonicalAround(l, x, h);
    CanonicalAround(l, j, h);
    forall u: nat ensures Free(l + [j] + h, u) <==> Free(l + [x] + h, u) || InRun(r, u) {
      FreeAround(l, x, h, u);
      FreeAround(l, j, h, u);
    }
  }

  lemma JoinAfter(l: seq<Run>, r: Run, y: Run, h: seq<Run>)
    requires Canonical(l + [y] + h) && r.addr + r.size == y.addr && r.addr > 0
    requires Below(l, [r])
    ensures var g := l + [Run(y.size + r.size, r.addr)] + h;
            && Canonical(g)
            && forall u: nat :: Free(g, u) <==> Free(l + [y] + h, u) || InRun(r, u)
  {
    hide Canonical, Free;
    var j := Run(y.size + r.size, r.addr);
    CanonicalAround(l, y, h);
    CanonicalAround(l, j, h);
    forall u: nat ensures Free(l + [j] + h, u) <==> Free(l + [y] + h, u) || InRun(r, u) {
      FreeAround(l, y, h, u);
      FreeAround(l, j, h, u);
    }
  }

  lemma JoinNeither(l: seq<Run>, r: Run, h: seq<Run>)
    requires Canonical(l + h) && r.size > 0 && r.addr > 0 && r.addr + r.size < UINT
    requires Below(l, [r]) && Below([r], h)
    ensures Canonical(l + [r] + h)
    ensures forall u: nat :: Free(l + [r] + h, u) <==> Free(l + h, u) || InRun(r, u)
  {
    hide Canonical, Free;
    CanonicalConcat(l, h);
    CanonicalAround(l, r, h);
    forall u: nat ensures Free(l + [r] + h, u) <==> Free(l + h, u) || InRun(r, u) {
      FreeConcat(l, h, u);
      FreeAround(l, r, h, u);
    }
  }

  // A set of free units has only one canonical map.
  lemma {:induction false} CanonicalUnique(e: seq<Run>, f: seq<Run>)
    requires Canonical(e) && Canonical(f)
    requires forall u: nat :: Free(e, u) <==> Free(f, u)
    ensures e == f
  {
    if e == [] || f == [] {
      if e != [] { assert InRun(e[0], e[0].addr); assert Free(e, e[0].addr); }
      if f != [] { assert InRun(f[0], f[0].addr); assert Free(f, f[0].addr); }
    } else {
      SameStart(e, f);
      SameStart(f, e);
      SameEnd(e, f);
      SameEnd(f, e);
      forall u: nat ensures Free(e[1..], u) <==> Free(f[1..], u) {
        FreeTail(e, u);
        FreeTail(f, u);
      }
      CanonicalUnique(e[1..], f[1..]);
    }
  }

  lemma FreeTail(e: seq<Run>, u: nat)
    requires Canonical(e) && e != []
    ensures Free(e[1..], u) <==> Free(e, u) && !InRun(e[0], u)
  {
    if Free(e[1..], u) {
      var i :| 0 <= i < |e[1..]| && InRun(e[1..][i], u);
      assert InRun(e[i + 1], u);
    }
    if Free(e, u) && !InRun(e[0], u) {
      var i :| 0 <= i < |e| && InRun(e[i], u);
      assert InRun(e[1..][i - 1], u);
    }
  }

  lemma SameStart(e: seq<Run>, f: seq<Run>)
    requires Canonical(e) && Canonical(f) && e != [] && f != []
    requires forall u: nat :: Free(e, u) <==> Free(f, u)
    ensures f[0].addr <= e[0].addr
  {
    assert InRun(e[0], e[0].addr);
    assert Free(e, e[0].addr);
    var i :| 0 <= i < |f| && InRun(f[i], e[0].addr);
  }

  lemma NotFreeAtEnd(e: seq<Run>)
    requires Canonical(e) && e != []
    ensures !Free(e, e[0].addr + e[0].size)
  {
  }

  lemma SameEnd(e: seq<Run>, f: seq<Run>)
    requires Canonical(e) && Canonical(f) && e != [] && f != [] && e[0].addr == f[0].addr
    requires forall u: nat :: Free(e, u) <==> Free(f, u)
    ensures f[0].size <= e[0].size
  {
    var end := e[0].addr + e[0].size;
    if end < f[0].addr + f[0].size {
      assert InRun(f[0], end) && Free(f, end);
      NotFreeAtEnd(e);
    }
  }

  // Freeing what was just allocated restores the map, entry for entry.
  lemma FreeUndoesAlloc(e: seq<Run>, size: nat)
    requires Canonical(e) && FirstFit(e, size) < |e|
    ensures var i := FirstFit(e, size);
            Given(Taken(e, i, size), size, e[i].addr) == e
  {
    var i := FirstFit(e, size);
    var t, a := Taken(e, i, size), e[i].addr;
    TakenUnits(e, i, size);
    assert e[i].addr + e[i].size < UINT;
    forall u | a <= u < a + size ensures !Free(t, u) {
      assert InRun(Run(size, a), u);
    }
    if size > 0 { DisjointFits(t, size, a); }
    GivenUnits(t, size, a);
    var g := Given(t, size, a);
    forall u: nat ensures Free(g, u) <==> Free(e, u) {
      if InRun(Run(size, a), u) { assert InRun(e[i], u); }
    }
    CanonicalUnique(g, e);
  }

  lemma GivenCanonical(e: seq<Run>, size: nat, a: nat)
    requires Canonical(e) && a > 0 && a + size < UINT && Disjoint(e, size, a)
    ensures Canonical(Given(e, size, a))
    ensures forall k :: 0 <= k < |e| ==> e[k].size > 0
  {
    if size > 0 { DisjointFits(e, size, a); }
    GivenUnits(e, size, a);
  }

  lemma SizesPositive(e: seq<Run>)
    requires Canonical(e)
    ensures forall k :: 0 <= k < |e| ==> e[k].size > 0
  {
  }

  lemma GivenAtPlace(e: seq<Run>, size: nat, a: nat)
    ensures var p := Place(e, a);
            p <= |e| && (p < |e| ==> e[p].addr > a)
            && Given(e, size, a) == if size == 0 then e else Joined(e[..p], Run(size, a), e[p..])
  {
  }

  // ---- The array and its two routines ----

  class ResMap {
    const m: array<Run>
    ghost var n: nat   // the number of runs

    ghost predicate Valid()
      reads this, m
    {
      && n < m.Length && Canonical(m[..n])
      && forall i :: n <= i < m.Length ==> m[i].size == 0
    }

    ghost function Entries(): seq<Run>
      reads this, m
      requires n <= m.Length
    {
      m[..n]
    }

    constructor (length: nat)
      requires length > 0
      ensures Valid() && m.Length == length && Entries() == [] && fresh(m)
    {
      m := new Run[length](_ => Run(0, 0));
      n := 0;
    }

    // Takes the front of run bp, which is closed up when nothing is left of it.
    method Take(bp: nat, size: nat) returns (a: nat)
      requires Valid() && bp < n && m[bp].size >= size
      modifies m, `n
      ensures Valid() && Entries() == Taken(old(Entries()), bp, size) && a == old(m[bp].addr)
    {
      hide Canonical, Free;
      ghost var e := Entries();
      assert e[bp] == m[bp];
      SizesPositive(e);
      TakenUnits(e, bp, size);
      a := m[bp].addr;
      m[bp] := m[bp].(addr := m[bp].addr + size);
      m[bp] := m[bp].(size := m[bp].size - size);
      if m[bp].size == 0 {
        CloseGap(bp, e);
      } else {
        assert m[..n] == Taken(e, bp, size);
      }
    }

    // First fit; 0 when no run is large enough.
    method Malloc(size: nat) returns (a: nat)
      requires Valid()
      modifies m, `n
      ensures Valid()
      ensures var e := old(Entries());
              var i := FirstFit(e, size);
              a == (if i < |e| then e[i].addr else 0)
              && Entries() == if i < |e| then Taken(e, i, size) else e
    {
      ghost var e := Entries();
      var bp := 0;
      while m[bp].size != 0
        invariant bp <= n && bp <= FirstFit(e, size)
        decreases n - bp
      {
        if m[bp].size >= size {
          assert e[bp] == m[bp] && FirstFit(e, size) == bp;
          a := Take(bp, size);
          return;
        }
        assert e[bp].size < size;
        bp := bp + 1;
      }
      a := 0;
    }

    // The runs behind the used-up run i move down by one, with the end of the list.
    method CloseGap(i: nat, ghost e: seq<Run>)
      requires i < n < m.Length && |e| == n && m[i].size == 0
      requires forall k :: 0 <= k < n && k != i ==> m[k] == e[k] && e[k].size > 0
      requires forall k :: n <= k < m.Length ==> m[k].size == 0
      modifies m, `n
      ensures n == old(n) - 1 && m[..n] == e[..i] + e[i + 1..]
      ensures forall k :: n <= k < m.Length ==> m[k].size == 0
    {
      ghost var was := m[..];
      assert forall k :: 0 <= k < m.Length && k != i ==> (was[k].size > 0 <==> k < n);
      var bp := i;
      var more := true;
      while more
        modifies m
        invariant n == old(n) && i <= bp <= n && (more ==> bp < n) && (!more ==> bp == n)
        invariant forall k :: 0 <= k < i || bp <= k < m.Length ==> m[k] == was[k]
        invariant forall k :: i <= k < bp ==> m[k] == was[k + 1]
        decreases n - bp, more
      {
        bp := bp + 1;
        m[bp - 1] := m[bp - 1].(addr := m[bp].addr);
        m[bp - 1] := m[bp - 1].(size := m[bp].size);
        assert m[bp - 1] == m[bp];
        more := m[bp - 1].size != 0;
      }
      n := n - 1;
      assert m[..n] == e[..i] + e[i + 1..];
    }

    // Run r goes to place p; the runs from p on move up by one.
    method OpenGap(p: nat, r: Run)
      requires p <= n && n + 1 < m.Length && r.size > 0
      requires forall k :: 0 <= k < n ==> m[k].size > 0
      requires forall k :: n <= k < m.Length ==> m[k].size == 0
      modifies m, `n
      ensures n == old(n) + 1 && m[..n] == old(m[..n])[..p] + [r] + old(m[..n])[p..]
      ensures forall k :: n <= k < m.Length ==> m[k].size == 0
    {
      ghost var was := m[..];
      assert forall k :: 0 <= k < m.Length ==> (was[k].size > 0 <==> k < n);
      var bp, carry := p, r;
      while carry.size != 0
        modifies m
        invariant n == old(n) && p <= bp <= n + 1 && (bp == n + 1 ==> carry.size == 0)
        invariant carry == if bp == p then r else was[bp - 1]
        invariant forall k :: 0 <= k < p || bp <= k < m.Length ==> m[k] == was[k]
        invariant forall k :: p < k < bp ==> m[k] == was[k - 1]
        invariant p < bp ==> m[p] == r
        decreases n + 1 - bp
      {
        var t := m[bp];
        m[bp] := carry;
        carry := t;
        bp := bp + 1;
      }
      n := n + 1;
      OpenedIs(m[..n], was[..n - 1], p, r);
    }

    // The first run that starts behind a, or the end of the list.
    method FindPlace(a: nat) returns (bp: nat)
      requires n < m.Length && m[n].size == 0
      requires forall k :: 0 <= k < n ==> m[k].size > 0
      ensures bp == Place(m[..n], a)
    {
      ghost var e := m[..n];
      assert forall k :: 0 <= k < n ==> m[k] == e[k];
      bp := 0;
      while m[bp].addr <= a && m[bp].size != 0
        invariant bp <= n && bp <= Place(e, a)
        decreases n - bp
      {
        bp := bp + 1;
      }
    }

    // Give back the size units at a, none of which is free. There must be room for one more
    // run and the end mark.
    method Mfree(size: nat, a: nat)
      requires Valid() && n + 1 < m.Length
      requires a > 0 && a + size < UINT && Disjoint(Entries(), size, a)
      modifies m, `n
      ensures Valid()
      ensures Entries() == Given(old(Entries()), size, a)
    {
      hide Canonical, Disjoint, Free, Joined, Given, Place;
      ghost var e := Entries();
      GivenCanonical(e, size, a);
      GivenAtPlace(e, size, a);
      SizesPositive(e);
      assert forall k :: 0 <= k < n ==> m[k] == e[k];
      var bp := FindPlace(a);
      Join(bp, size, a);
    }

    // The units at a belong before run bp.
    method Join(bp: nat, size: nat, a: nat)
      requires bp <= n && n + 1 < m.Length && (bp < n ==> m[bp].addr > a)
      requires forall k :: 0 <= k < n ==> m[k].size > 0
      requires forall k :: n <= k < m.Length ==> m[k].size == 0
      modifies m, `n
      ensures n < m.Length && forall k :: n <= k < m.Length ==> m[k].size == 0
      ensures var e := old(m[..n]);
              m[..n] == if size == 0 then e else Joined(e[..bp], Run(size, a), e[bp..])
    {
      hide Joined;
      ghost var e := m[..n];
      assert e[..bp] + e[bp..] == e;
      if bp > 0 && m[bp - 1].addr + m[bp - 1].size == a {
        JoinLow(bp, size, a);
      } else if a + size == m[bp].addr && m[bp].size != 0 {
        JoinHigh(bp, size, a);
      } else if size != 0 {
        JoinedApart(e[..bp], Run(size, a), e[bp..]);
        OpenGap(bp, Run(size, a));
      }
    }

    // The branch that joins the units at a to run bp only.
    method JoinHigh(bp: nat, size: nat, a: nat)
      requires bp < n <= m.Length && a + size == m[bp].addr
      requires bp > 0 ==> m[bp - 1].addr + m[bp - 1].size != a
      requires m[bp].addr > a
      modifies m
      ensures forall k :: n <= k < m.Length ==> m[k] == old(m[k])
      ensures var e := old(m[..n]); m[..n] == Joined(e[..bp], Run(size, a), e[bp..])
    {
      ghost var e := m[..n];
      m[bp] := m[bp].(addr := m[bp].addr - size);
      m[bp] := m[bp].(size := m[bp].size + size);
      assert m[..n] == e[..bp] + [Run(e[bp].size + size, a)] + e[bp..][1..];
    }

    // The branch that joins the units at a to the run before bp, and perhaps to bp too.
    method JoinLow(bp: nat, size: nat, a: nat)
      requires 0 < bp <= n < m.Length && m[bp - 1].addr + m[bp - 1].size == a
      requires forall k :: 0 <= k < n ==> m[k].size > 0
      requires forall k :: n <= k < m.Length ==> m[k].size == 0
      requires bp < n ==> m[bp].addr > a
      modifies m, `n
      ensures n < m.Length && forall k :: n <= k < m.Length ==> m[k].size == 0
      ensures var e := old(m[..n]);
              m[..n] == if size == 0 then e else Joined(e[..bp], Run(size, a), e[bp..])
    {
      hide Joined;
      ghost var e := m[..n];
      JoinedLow(e, bp, size, a);
      m[bp - 1] := m[bp - 1].(size := m[bp - 1].size + size);
      assert m[..n] == e[bp - 1 := Run(e[bp - 1].size + size, e[bp - 1].addr)];
      if a + size == m[bp].addr {
        m[bp - 1] := m[bp - 1].(size := m[bp - 1].size + m[bp].size);
        ghost var x := m[..n];
        assert bp < n ==> x == e[bp - 1 := Run(e[bp - 1].size + size + e[bp].size, e[bp - 1].addr)];
        MoveDown(bp);
      }
    }

    // The runs behind p move down by one, over the run at p, with the end of the list.
    method MoveDown(p: nat)
      requires p <= n < m.Length
      requires forall k :: p <= k < n ==> m[k].size > 0
      requires forall k :: n <= k < m.Length ==> m[k].size == 0
      modifies m, `n
      ensures n == if p < old(n) then old(n) - 1 else old(n)
      ensures m[..n] == if p < old(n) then old(m[..n])[..p] + old(m[..n])[p + 1..] else old(m[..n])
      ensures forall k :: n <= k < m.Length ==> m[k].size == 0
    {
      ghost var was := m[..];
      assert forall k :: p <= k < m.Length ==> (was[k].size > 0 <==> k < n);
      var bp := p;
      while m[bp].size != 0
        modifies m
        invariant n == old(n) && p <= bp <= n
        invariant forall k :: 0 <= k < p || bp <= k < m.Length ==> m[k] == was[k]
        invariant forall k :: p <= k < bp ==> m[k] == was[k + 1]
        decreases n - bp
      {
        bp := bp + 1;
        m[bp - 1] := m[bp - 1].(addr := m[bp].addr);
        m[bp - 1] := m[bp - 1].(size := m[bp].size);
        assert m[bp - 1] == m[bp];
      }
      if p < n {
        n := n - 1;
        ClosedIs(m[..n], was[..n + 1], p);
      }
    }
  }
}
