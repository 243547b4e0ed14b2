// Any run of allocations and releases on a resource map: no unit is handed out twice or
// lost, and the map never needs many runs.
module MapRuns {
  import opened Wrappers
  import opened ResourceMap

  // The map, and the pieces now in the hands of callers.
  datatype Arena = Arena(free: seq<Run>, out: set<Run>)

  datatype Request = Malloc(size: nat) | Mfree(piece: Run)

  // What malloc and mfree make of a request (see ResMap.Malloc and ResMap.Mfree). Callers
  // ask for at least one unit and release only whole pieces that they hold.
  function Serve(s: Arena, q: Request): Arena {
    match q
    case Malloc(size) =>
      var i := FirstFit(s.free, size);
      if size > 0 && i < |s.free| then
        Arena(Taken(s.free, i, size), s.out + {Run(size, s.free[i].addr)})
      else s
    case Mfree(r) =>
      if r in s.out then Arena(Given(s.free, r.size, r.addr), s.out - {r}) else s
  }

  function ServeAll(s: Arena, qs: seq<Request>): Arena {
    if qs == [] then s else Serve(ServeAll(s, qs[..|qs| - 1]), qs[|qs| - 1])
  }

  ghost predicate Out(s: Arena, u: nat) {
    exists r :: r in s.out && InRun(r, u)
  }

  // Free units and held pieces partition the units [lo, hi).
  ghost predicate Partition(s: Arena, lo: nat, hi: nat) {
    && Canonical(s.free) && 0 < lo <= hi < UINT
    && (forall r :: r in s.out ==> r.size > 0)
    && (forall u: nat :: lo <= u < hi <==> Free(s.free, u) || Out(s, u))
    && (forall r, u: nat :: r in s.out && InRun(r, u) ==> !Free(s.free, u))
    && (forall r, q, u: nat :: r in s.out && q in s.out && InRun(r, u) && InRun(q, u) ==> r == q)
  }

  // The map as main sets it up with one mfree.
  lemma StartPartition(lo: nat, hi: nat)
    requires 0 < lo < hi < UINT
    ensures Given([], hi - lo, lo) == [Run(hi - lo, lo)]
    ensures Partition(Arena([Run(hi - lo, lo)], {}), lo, hi)
  {
    var s := Arena([Run(hi - lo, lo)], {});
    forall u: nat ensures lo <= u < hi <==> Free(s.free, u) {
      FreeOne(Run(hi - lo, lo), u);
    }
  }

  lemma MallocPartition(s: Arena, size: nat, lo: nat, hi: nat)
    requires Partition(s, lo, hi) && size > 0 && FirstFit(s.free, size) < |s.free|
    ensures Partition(Serve(s, Malloc(size)), lo, hi)
    ensures Run(size, s.free[FirstFit(s.free, size)].addr) !in s.out
  {
    var i := FirstFit(s.free, size);
    var p := Run(size, s.free[i].addr);
    var t := Serve(s, Malloc(size));
    TakenUnits(s.free, i, size);
    forall u: nat | InRun(p, u) ensures Free(s.free, u) {
      assert InRun(s.free[i], u);
    }
    assert InRun(p, p.addr);
    forall u: nat ensures Out(t, u) <==> Out(s, u) || InRun(p, u) {
      if Out(t, u) {
        var r :| r in t.out && InRun(r, u);
      }
      if Out(s, u) {
        var r :| r in s.out && InRun(r, u);
        assert r in t.out;
      }
      if InRun(p, u) {
        assert p in t.out;
      }
    }
  }

  lemma MfreePartition(s: Arena, r: Run, lo: nat, hi: nat)
    requires Partition(s, lo, hi) && r in s.out
    ensures Disjoint(s.free, r.size, r.addr) && r.addr > 0 && r.addr + r.size < UINT
    ensures Partition(Serve(s, Mfree(r)), lo, hi)
  {
    forall u | r.addr <= u < r.addr + r.size ensures !Free(s.free, u) && lo <= u < hi {
      assert InRun(r, u) && Out(s, u);
    }
    assert InRun(r, r.addr) && Out(s, r.addr);
    assert InRun(r, r.addr + r.size - 1) && Out(s, r.addr + r.size - 1);
    DisjointFits(s.free, r.size, r.addr);
    GivenUnits(s.free, r.size, r.addr);
    var t := Serve(s, Mfree(r));
    forall u: nat ensures Out(s, u) <==> Out(t, u) || InRun(r, u) {
      if Out(s, u) && !InRun(r, u) {
        var q :| q in s.out && InRun(q, u);
        assert q in t.out;
      }
    }
  }

  // Every state that requests can reach.
  lemma {:induction false} RunPartition(s: Arena, qs: seq<Request>, lo: nat, hi: nat)
    requires Partition(s, lo, hi)
    ensures Partition(ServeAll(s, qs), lo, hi)
  {
    if qs != [] {
      var before := ServeAll(s, qs[..|qs| - 1]);
      RunPartition(s, qs[..|qs| - 1], lo, hi);
      match qs[|qs| - 1]
      case Malloc(size) =>
        if size > 0 && FirstFit(before.free, size) < |before.free| {
          MallocPartition(before, size, lo, hi);
        }
      case Mfree(r) =>
        if r in before.out {
          MfreePartition(before, r, lo, hi);
        }
    }
  }

  // The held pieces that fill the first k gaps between runs: one at least in each.
  lemma {:induction false} GapHolders(s: Arena, lo: nat, hi: nat, k: nat) returns (h: set<Run>)
    requires Partition(s, lo, hi) && k < |s.free|
    ensures h <= s.out && |h| == k
    ensures forall r :: r in h ==> r.addr + r.size <= s.free[k].addr
  {
    if k == 0 {
      h := {};
    } else {
      h := GapHolders(s, lo, hi, k - 1);
      var x, y := s.free[k - 1], s.free[k];
      var gap := x.addr + x.size;
      NotFreeBetween(s.free, k - 1);
      assert InRun(x, x.addr) && Free(s.free, x.addr);
      assert InRun(y, y.addr) && Free(s.free, y.addr);
      var r :| r in s.out && InRun(r, gap);
      assert r.addr + r.size > y.addr ==> InRun(r, y.addr);
      h := h + {r};
    }
  }

  lemma NotFreeBetween(e: seq<Run>, k: nat)
    requires Canonical(e) && k + 1 < |e|
    ensures !Free(e, e[k].addr + e[k].size)
  {
  }

  // So the map never has more runs than pieces held, plus one.
  lemma FewRuns(s: Arena, lo: nat, hi: nat)
    requires Partition(s, lo, hi)
    ensures |s.free| <= |s.out| + 1
  {
    if |s.free| > 0 {
      var h := GapHolders(s, lo, hi, |s.free| - 1);
      SubsetSize(h, s.out);
    }
  }
}
