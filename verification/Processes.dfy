// Processes: where their images are, and who waits for whom (ken/slp.c, ken/text.c,
// ken/sys1.c), as a state machine. An image is in core or on the swap area, or on its way
// from one to the other while other processes run. A step is what one process, or the
// scheduling process 0, does between two points where it may sleep.
module Processes {
  import opened Wrappers
  import opened ResourceMap
  import opened MapRuns

  // Pages of an image; its blocks on the swap area; the block of a zombie.
  const USIZE: nat := 16
  const IMAGE: nat := 128
  const MAXPID: nat := 32767

  datatype Stat = NoProc | Ready | Asleep | Idl | Zomb

  // What a process is doing in the kernel. Copying is the child that newproc makes by
  // swapping out its parent's image to area; Wanting is the child for which newproc has
  // found no area yet. Exiting has a block for what it leaves behind; Waiting is in wait,
  // Reaping there with zombie child.
  datatype Phase =
    | User
    | Copying(parent: nat, area: nat)
    | Wanting(parent: nat)
    | Exiting(block: nat)
    | Waiting
    | Reaping(child: nat)

  // loaded is SLOAD, locked is SLOCK.
  datatype Proc = Proc(stat: Stat, loaded: bool, locked: bool, pid: nat, ppid: nat, addr: nat, phase: Phase)

  // The transfer that sched has under way: process i to core at area, or to the swap area.
  datatype Transfer = NoTransfer | ToCore(i: nat, area: nat) | ToSwap(i: nat, area: nat)

  datatype State = State(procs: seq<Proc>, mpid: nat, core: Arena, swap: Arena, sched: Transfer)

  // A child that runs in its parent's image.
  predicate Borrows(p: Proc) {
    p.phase.Copying? || p.phase.Wanting?
  }

  predicate Live(p: Proc) {
    p.stat != NoProc && p.stat != Zomb
  }

  // ---- Process numbers ----

  predicate Used(procs: seq<Proc>, pid: nat) {
    exists i :: 0 <= i < |procs| && procs[i].pid == pid
  }

  // The k-th number tried after mpid.
  function Candidate(mpid: nat, k: nat): (pid: nat)
    requires k > 0
    ensures 0 < pid <= MAXPID
  {
    (mpid + k - 1) % MAXPID + 1
  }

  // The first candidate from the k-th on that is not used. More than |procs| cannot be.
  function FreshPid(procs: seq<Proc>, mpid: nat, k: nat): (pid: nat)
    requires k > 0
    ensures 0 < pid <= MAXPID
    decreases |procs| + 1 - k
  {
    if Used(procs, Candidate(mpid, k)) && k <= |procs| then FreshPid(procs, mpid, k + 1) else Candidate(mpid, k)
  }

  lemma CandidatesDiffer(mpid: nat, j: nat, k: nat)
    requires 0 < j < k <= j + MAXPID - 1
    ensures Candidate(mpid, j) != Candidate(mpid, k)
  {
  }

  lemma UsedLast(procs: seq<Proc>)
    requires procs != []
    ensures var n := |procs| - 1;
            forall x :: Used(procs, x) <==> Used(procs[..n], x) || x == procs[n].pid
  {
    var n := |procs| - 1;
    forall x | Used(procs[..n], x) ensures Used(procs, x) {
      var i :| 0 <= i < n && procs[..n][i].pid == x;
      assert procs[i].pid == x;
    }
    forall x | Used(procs, x) ensures Used(procs[..n], x) || x == procs[n].pid {
      var i :| 0 <= i < |procs| && procs[i].pid == x;
      assert i < n ==> procs[..n][i].pid == x;
    }
    assert procs[n].pid == procs[n].pid;
  }

  // The pids of a table of n entries are at most n numbers.
  function Pids(procs: seq<Proc>): (s: set<nat>)
    ensures forall x: nat :: x in s <==> Used(procs, x)
    ensures |s| <= |procs|
  {
    if procs == [] then {}
    else
      var n := |procs| - 1;
      var t := Pids(procs[..n]);
      UsedLast(procs);
      t + {procs[n].pid}
  }

  // The first k candidates are k numbers.
  lemma {:induction false} CandidateSet(mpid: nat, k: nat) returns (s: set<nat>)
    requires k < MAXPID
    ensures |s| == k
    ensures forall x :: x in s ==> exists j :: 0 < j <= k && x == Candidate(mpid, j)
  {
    s := {};
    if k > 0 {
      var r := CandidateSet(mpid, k - 1);
      var c := Candidate(mpid, k);
      if c in r {
        var j :| 0 < j <= k - 1 && c == Candidate(mpid, j);
        CandidatesDiffer(mpid, j, k);
      }
      s := r + {c};
      forall x | x in s ensures exists j :: 0 < j <= k && x == Candidate(mpid, j) {
        if x in r {
          var j :| 0 < j <= k - 1 && x == Candidate(mpid, j);
          assert 0 < j <= k;
        }
      }
    }
  }

  // So one of the first |procs| + 1 candidates is not used, and the search in newproc ends.
  lemma SomeCandidateFree(procs: seq<Proc>, mpid: nat)
    requires |procs| + 1 < MAXPID
    ensures exists j :: 0 < j <= |procs| + 1 && !Used(procs, Candidate(mpid, j))
  {
    if forall j :: 0 < j <= |procs| + 1 ==> Used(procs, Candidate(mpid, j)) {
      var s := CandidateSet(mpid, |procs| + 1);
      forall x | x in s ensures x in Pids(procs) {
        var j :| 0 < j <= |procs| + 1 && x == Candidate(mpid, j);
      }
      SubsetSize(s, Pids(procs));
      assert false;
    }
  }

  lemma {:induction false} FreshPidFrom(procs: seq<Proc>, mpid: nat, k: nat, j: nat)
    requires 0 < k <= j <= |procs| + 1 && !Used(procs, Candidate(mpid, j))
    ensures !Used(procs, FreshPid(procs, mpid, k))
    decreases j - k
  {
    if Used(procs, Candidate(mpid, k)) {
      FreshPidFrom(procs, mpid, k + 1, j);
    }
  }

  lemma FreshPidUnused(procs: seq<Proc>, mpid: nat)
    requires |procs| + 1 < MAXPID
    ensures !Used(procs, FreshPid(procs, mpid, 1))
  {
    SomeCandidateFree(procs, mpid);
    var j :| 0 < j <= |procs| + 1 && !Used(procs, Candidate(mpid, j));
    FreshPidFrom(procs, mpid, 1, j);
  }

  // It is the first one after mpid that nobody has: those before it are all used.
  lemma {:induction false} FreshPidFirst(procs: seq<Proc>, mpid: nat, k: nat) returns (j: nat)
    requires 0 < k <= |procs| + 1
    ensures k <= j <= |procs| + 1 && FreshPid(procs, mpid, k) == Candidate(mpid, j)
    ensures forall l :: k <= l < j ==> Used(procs, Candidate(mpid, l))
    decreases |procs| + 1 - k
  {
    hide Used, Candidate;
    if Used(procs, Candidate(mpid, k)) && k <= |procs| {
      j := FreshPidFirst(procs, mpid, k + 1);
    } else {
      j := k;
    }
  }

  // mpid after k tries.
  function Tried(was: nat, k: nat): nat {
    if k == 0 then was else Candidate(was, k)
  }

  lemma NextTried(was: nat, k: nat)
    requires was <= MAXPID
    ensures Tried(was, k) <= MAXPID
    ensures Tried(was, k + 1) == Candidate(was, k + 1) == if Tried(was, k) == MAXPID then 1 else Tried(was, k) + 1
  {
  }

  lemma FreshPidStep(procs: seq<Proc>, was: nat, k: nat)
    requires 0 < k && |procs| + 1 < MAXPID
    ensures !Used(procs, Candidate(was, k)) ==> FreshPid(procs, was, k) == Candidate(was, k)
    ensures Used(procs, Candidate(was, k)) && k <= |procs| ==> FreshPid(procs, was, k) == FreshPid(procs, was, k + 1)
    ensures k > |procs| ==> FreshPid(procs, was, k) == Candidate(was, k)
  {
  }

  // The first free entry, or |procs|.
  function FreeSlot(procs: seq<Proc>): (r: nat)
    ensures r <= |procs|
    ensures r < |procs| ==> procs[r].stat == NoProc
    ensures forall j :: 0 <= j < r ==> procs[j].stat != NoProc
  {
    if procs == [] then 0 else if procs[0].stat == NoProc then 0 else 1 + FreeSlot(procs[1..])
  }

  // The search at the start of newproc: a number, of 16 bits and wrapping, and an entry.
  method NewPid(procs: seq<Proc>, was: nat) returns (mpid: int, p: nat)
    requires was <= MAXPID && |procs| + 1 < MAXPID
    ensures mpid == FreshPid(procs, was, 1) && mpid > 0 && !Used(procs, mpid)
    ensures p == FreeSlot(procs)
  {
    hide Used, FreeSlot, Candidate, FreshPid;
    FreshPidUnused(procs, was);
    mpid, p := was, |procs|;
    ghost var k: nat := 0;
    while true
      invariant 0 <= mpid <= MAXPID && mpid == Tried(was, k)
      invariant FreshPid(procs, was, 1) == FreshPid(procs, was, k + 1) && k <= |procs|
      invariant p == |procs| || p == FreeSlot(procs)
      decreases |procs| - k
    {
      mpid := if mpid == MAXPID then -0x8000 else mpid + 1;
      if mpid < 0 {
        mpid := 0;
        mpid := mpid + 1;
      }
      NextTried(was, k);
      k := k + 1;
      FreshPidStep(procs, was, k);
      var again;
      again, p := LookUp(procs, mpid, p);
      if !again {
        return;
      }
    }
  }

  // One look at the table: whether the number is taken, and the first free entry.
  method LookUp(procs: seq<Proc>, mpid: nat, was: nat) returns (again: bool, p: nat)
    requires was == |procs| || was == FreeSlot(procs)
    ensures again == Used(procs, mpid)
    ensures if again then p == |procs| || p == FreeSlot(procs) else p == FreeSlot(procs)
  {
    p := was;
    var i := 0;
    while i < |procs|
      invariant 0 <= i <= |procs| && forall j :: 0 <= j < i ==> procs[j].pid != mpid
      invariant if p == |procs| then forall j :: 0 <= j < i ==> procs[j].stat != NoProc else p == FreeSlot(procs)
    {
      if procs[i].stat == NoProc && p == |procs| {
        p := i;
        SlotIs(procs, i);
      }
      if procs[i].pid == mpid {
        return true, p;
      }
      i := i + 1;
    }
    if p == |procs| {
      SlotIs(procs, p);
    }
    return false, p;
  }

  lemma SlotIs(procs: seq<Proc>, i: nat)
    requires i <= |procs| && (i < |procs| ==> procs[i].stat == NoProc)
    requires forall j :: 0 <= j < i ==> procs[j].stat != NoProc
    ensures FreeSlot(procs) == i
  {
  }

  // ---- Maps ----

  // malloc: the piece, if there is one.
  function Piece(m: Arena, size: nat): (r: Run)
    requires FirstFit(m.free, size) < |m.free|
    ensures r.size == size
  {
    Run(size, m.free[FirstFit(m.free, size)].addr)
  }

  predicate HasRoom(m: Arena, size: nat) {
    FirstFit(m.free, size) < |m.free|
  }

  // ---- Steps ----

  datatype Event =
    | Sleep(i: nat)                 // in any system call but wait
    | Wake(i: nat)
    | Signal(i: nat)                // a process asleep in wait
    | Fork(i: nat)
    | Retry(i: nat)                 // newproc, after sleeping for want of an area
    | CopyDone(i: nat)              // newproc, after xswap
    | Exit(i: nat)
    | ExitDone(i: nat)              // exit, after bwrite
    | Wait(i: nat)                  // one pass of the loop in wait
    | ReapDone(i: nat)              // wait, after bread
    | SwapIn(i: nat)
    | SwapInDone
    | SwapOut(i: nat)
    | SwapOutDone

  // A process that swtch may resume.
  predicate CanRun(s: State, i: nat) {
    0 < i < |s.procs| && s.procs[i].stat == Ready && s.procs[i].loaded
  }

  // When a step can happen. Entry 1 is init, which does not exit. Excluded is an exit that
  // finds no block (panic).
  predicate Enabled(s: State, e: Event) {
    match e
    case Sleep(i) => CanRun(s, i) && s.procs[i].phase != Waiting && !s.procs[i].phase.Wanting?
    case Wake(i) => 0 < i < |s.procs| && s.procs[i].stat == Asleep && s.procs[i].phase != Waiting
    case Signal(i) => 0 < i < |s.procs| && s.procs[i].stat == Asleep && s.procs[i].phase == Waiting
    case Fork(i) => CanRun(s, i) && s.procs[i].phase == User && FreeSlot(s.procs) < |s.procs|
    case Retry(i) => CanRun(s, i) && s.procs[i].phase.Wanting?
    case CopyDone(i) => CanRun(s, i) && s.procs[i].phase.Copying?
    case Exit(i) => CanRun(s, i) && i != 1 && s.procs[i].phase == User && HasRoom(s.swap, 1)
    case ExitDone(i) => CanRun(s, i) && s.procs[i].phase.Exiting?
    case Wait(i) => CanRun(s, i) && (s.procs[i].phase == User || s.procs[i].phase == Waiting)
    case ReapDone(i) => CanRun(s, i) && s.procs[i].phase.Reaping?
    case SwapIn(i) =>
      s.sched == NoTransfer && 0 < i < |s.procs| && s.procs[i].stat == Ready && !s.procs[i].loaded
      && HasRoom(s.core, USIZE)
    case SwapInDone => s.sched.ToCore?
    case SwapOut(i) =>
      s.sched == NoTransfer && 0 < i < |s.procs| && (s.procs[i].stat == Ready || s.procs[i].stat == Asleep)
      && s.procs[i].loaded && !s.procs[i].locked && HasRoom(s.swap, IMAGE)
    case SwapOutDone => s.sched.ToSwap?
  }

  function Set(s: State, i: nat, p: Proc): State
    requires i < |s.procs|
  {
    s.(procs := s.procs[i := p])
  }

  // newproc: into core when there is room there, else onto the swap area, where the child
  // runs in the parent's image until the copy is made; if there is no room either, the child
  // sleeps.
  function Forked(s: State, i: nat): State
    requires Enabled(s, Fork(i))
  {
    var c := FreeSlot(s.procs);
    var pid := FreshPid(s.procs, s.mpid, 1);
    var up := s.procs[i];
    if HasRoom(s.core, USIZE) then
      var a := Piece(s.core, USIZE).addr;
      Set(s, c, Proc(Ready, true, false, pid, up.pid, a, User)).(mpid := pid, core := Serve(s.core, Malloc(USIZE)))
    else if !HasRoom(s.swap, IMAGE) then
      Set(Set(s, c, Proc(Asleep, true, false, pid, up.pid, up.addr, Wanting(i))), i, up.(stat := Idl)).(mpid := pid)
    else
      var a := Piece(s.swap, IMAGE).addr;
      Set(Set(s, c, Proc(Ready, true, true, pid, up.pid, up.addr, Copying(i, a))), i, up.(stat := Idl))
      .(mpid := pid, swap := Serve(s.swap, Malloc(IMAGE)))
  }

  // exit makes init the parent of the children of the process with number pid, and wakes
  // its own parent and init.
  function Orphaned(procs: seq<Proc>, pid: nat, ppid: nat): (r: seq<Proc>)
    ensures |r| == |procs|
    ensures forall j :: 0 <= j < |procs| ==> r[j] == Orphan(procs[j], j, pid, ppid)
  {
    seq(|procs|, j requires 0 <= j < |procs| => Orphan(procs[j], j, pid, ppid))
  }

  function Orphan(p: Proc, j: nat, pid: nat, ppid: nat): Proc {
    p.(ppid := if p.ppid == pid then 1 else p.ppid,
       stat := if p.stat == Asleep && p.phase == Waiting && (j == 1 || p.pid == ppid) then Ready else p.stat)
  }

  // A process whose parent is not in the table gets init for its parent.
  function Parent(procs: seq<Proc>, ppid: nat): nat {
    if Used(procs, ppid) then ppid else 1
  }

  // The first zombie child of the process with number pid, or |procs|.
  function ZombieOf(procs: seq<Proc>, pid: nat): (c: nat)
    ensures c <= |procs| && (c < |procs| ==> procs[c].ppid == pid && procs[c].stat == Zomb)
    ensures forall j :: 0 <= j < c ==> !(procs[j].ppid == pid && procs[j].stat == Zomb)
  {
    if procs == [] then 0
    else if procs[0].ppid == pid && procs[0].stat == Zomb then 0 else 1 + ZombieOf(procs[1..], pid)
  }

  predicate HasChild(procs: seq<Proc>, pid: nat) {
    exists j :: 0 <= j < |procs| && procs[j].ppid == pid
  }

  ghost function Apply(s: State, e: Event): State
    requires Enabled(s, e)
  {
    match e
    case Sleep(i) => Set(s, i, s.procs[i].(stat := Asleep))
    case Wake(i) => Set(s, i, s.procs[i].(stat := Ready))
    case Signal(i) => Set(s, i, s.procs[i].(stat := Ready, phase := User))
    case Fork(i) => Forked(s, i)
    case Retry(i) =>
      var p := s.procs[i];
      if HasRoom(s.swap, IMAGE) then
        Set(s, i, p.(locked := true, phase := Copying(p.phase.parent, Piece(s.swap, IMAGE).addr)))
        .(swap := Serve(s.swap, Malloc(IMAGE)))
      else Set(s, i, p.(stat := Asleep))
    case CopyDone(i) =>
      var p := s.procs[i];
      var t := Set(s, i, p.(loaded := false, locked := false, addr := p.phase.area, phase := User));
      if p.phase.parent < |s.procs| then
        Set(t, p.phase.parent, t.procs[p.phase.parent].(stat := Ready))
      else t
    case Exit(i) =>
      Set(s, i, s.procs[i].(phase := Exiting(Piece(s.swap, 1).addr))).(swap := Serve(s.swap, Malloc(1)))
    case ExitDone(i) =>
      var p := s.procs[i];
      var up := Parent(s.procs, p.ppid);
      var t := Set(s, i, p.(stat := Zomb, addr := p.phase.block, phase := User, ppid := up));
      t.(core := Serve(s.core, Mfree(Run(USIZE, p.addr))), procs := Orphaned(t.procs, p.pid, up))
    case Wait(i) =>
      var p := s.procs[i];
      var c := ZombieOf(s.procs, p.pid);
      if c < |s.procs| then Set(s, i, p.(phase := Reaping(c)))
      else if HasChild(s.procs, p.pid) then Set(s, i, p.(stat := Asleep, phase := Waiting))
      else Set(s, i, p.(phase := User))
    case ReapDone(i) =>
      var p := s.procs[i];
      var c := p.phase.child;
      if c < |s.procs| then
        Set(Set(s, i, p.(phase := User)), c, Proc(NoProc, false, false, 0, 0, s.procs[c].addr, User))
        .(swap := Serve(s.swap, Mfree(Run(1, s.procs[c].addr))))
      else s
    case SwapIn(i) =>
      s.(sched := ToCore(i, Piece(s.core, USIZE).addr), core := Serve(s.core, Malloc(USIZE)))
    case SwapInDone =>
      var i := s.sched.i;
      if i < |s.procs| then
        var p := s.procs[i];
        Set(s, i, p.(addr := s.sched.area, loaded := true))
        .(sched := NoTransfer, swap := Serve(s.swap, Mfree(Run(IMAGE, p.addr))))
      else s
    case SwapOut(i) =>
      Set(s, i, s.procs[i].(loaded := false, locked := true))
      .(sched := ToSwap(i, Piece(s.swap, IMAGE).addr), swap := Serve(s.swap, Malloc(IMAGE)))
    case SwapOutDone =>
      var i := s.sched.i;
      if i < |s.procs| then
        var p := s.procs[i];
        Set(s, i, p.(addr := s.sched.area, locked := false))
        .(sched := NoTransfer, core := Serve(s.core, Mfree(Run(USIZE, p.addr))))
      else s
  }

  // sched takes a child that runs in its parent's image for a process with an image of its
  // own.
  predicate Steals(s: State, e: Event) {
    e.SwapOut? && Enabled(s, e) && s.procs[e.i].phase.Wanting?
  }

  // ---- Who owns what ----

  // The image or zombie block of entry i, what entry i has in flight, and what sched has.
  datatype Owner = Image(i: nat) | Extra(i: nat) | Sched

  function CoreOf(s: State, o: Owner): Option<Run> {
    match o
    case Image(i) =>
      if 0 < i < |s.procs| && Live(s.procs[i]) && !Borrows(s.procs[i])
         && (s.procs[i].loaded || (s.sched.ToSwap? && s.sched.i == i))
      then Some(Run(USIZE, s.procs[i].addr)) else None
    case Extra(i) => None
    case Sched => if s.sched.ToCore? then Some(Run(USIZE, s.sched.area)) else None
  }

  function SwapOf(s: State, o: Owner): Option<Run> {
    match o
    case Image(i) =>
      if 0 < i < |s.procs| && s.procs[i].stat == Zomb then Some(Run(1, s.procs[i].addr))
      else if 0 < i < |s.procs| && Live(s.procs[i]) && !Borrows(s.procs[i]) && !s.procs[i].loaded
              && !(s.sched.ToSwap? && s.sched.i == i)
      then Some(Run(IMAGE, s.procs[i].addr)) else None
    case Extra(i) =>
      if 0 < i < |s.procs| && s.procs[i].phase.Copying? then Some(Run(IMAGE, s.procs[i].phase.area))
      else if 0 < i < |s.procs| && s.procs[i].phase.Exiting? then Some(Run(1, s.procs[i].phase.block)) else None
    case Sched => if s.sched.ToSwap? then Some(Run(IMAGE, s.sched.area)) else None
  }

  // Every piece given out has exactly one owner.
  ghost predicate Owned(out: set<Run>, own: Owner -> Option<Run>) {
    && (forall o :: own(o).Some? ==> own(o).value in out)
    && (forall o, q :: own(o).Some? && own(o) == own(q) ==> o == q)
    && (forall r :: r in out ==> exists o :: own(o) == Some(r))
  }

  ghost function CoreOwners(s: State): Owner -> Option<Run> {
    o => CoreOf(s, o)
  }

  ghost function SwapOwners(s: State): Owner -> Option<Run> {
    o => SwapOf(s, o)
  }

  lemma OwnedSame(out: set<Run>, own: Owner -> Option<Run>, own': Owner -> Option<Run>)
    requires Owned(out, own) && forall o :: own'(o) == own(o)
    ensures Owned(out, own')
  {
    forall r | r in out ensures exists o :: own'(o) == Some(r) {
      var o :| own(o) == Some(r);
      assert own'(o) == Some(r);
    }
  }

  // Owner o is given piece r.
  lemma OwnedMore(out: set<Run>, own: Owner -> Option<Run>, own': Owner -> Option<Run>, o: Owner, r: Run)
    requires Owned(out, own) && r !in out && own(o) == None && own'(o) == Some(r)
    requires forall q :: q != o ==> own'(q) == own(q)
    ensures Owned(out + {r}, own')
  {
    forall x | x in out + {r} ensures exists q :: own'(q) == Some(x) {
      if x in out {
        var q :| own(q) == Some(x);
        assert own'(q) == Some(x);
      }
    }
  }

  // Owner o gives its piece back.
  lemma OwnedLess(out: set<Run>, own: Owner -> Option<Run>, own': Owner -> Option<Run>, o: Owner, r: Run)
    requires Owned(out, own) && own(o) == Some(r) && own'(o) == None
    requires forall q :: q != o ==> own'(q) == own(q)
    ensures r in out && Owned(out - {r}, own')
  {
    forall q | own'(q).Some? ensures own'(q).value in out - {r} {
      assert q != o && own(q) == own'(q);
    }
    forall x | x in out - {r} ensures exists q :: own'(q) == Some(x) {
      var q :| own(q) == Some(x);
      assert own'(q) == Some(x);
    }
  }

  // Owner o hands its piece to q.
  lemma OwnedMoved(out: set<Run>, own: Owner -> Option<Run>, own': Owner -> Option<Run>, o: Owner, q: Owner)
    requires Owned(out, own) && own(o).Some? && own(q) == None && own'(o) == None && own'(q) == own(o)
    requires forall x :: x != o && x != q ==> own'(x) == own(x)
    ensures Owned(out, own')
  {
    forall x, y | own'(x).Some? && own'(x) == own'(y) ensures x == y {
      var x' := if x == q then o else x;
      var y' := if y == q then o else y;
      assert own(x') == own'(x) && own(y') == own'(y);
    }
    forall r | r in out ensures exists x :: own'(x) == Some(r) {
      var x :| own(x) == Some(r);
      assert own'(if x == o then q else x) == Some(r);
    }
  }

  // ---- The invariant ----

  // The flags, the phase and the transfers of entry i agree.
  predicate StatOk(s: State, i: nat)
    requires i < |s.procs|
  {
    var p := s.procs[i];
    && (p.stat == NoProc || p.stat == Zomb || p.stat == Idl ==> p.phase == User)
    && (p.stat == NoProc || p.stat == Zomb || p.stat == Idl ==> !p.locked)
    && (p.stat == Idl ==> p.loaded)
    && (p.phase.Copying? ==> p.locked)
    && (Borrows(p) ==>
          p.loaded && p.phase.parent != i && 0 < p.phase.parent < |s.procs|
          && s.procs[p.phase.parent].stat == Idl && s.procs[p.phase.parent].addr == p.addr)
    && (p.locked ==> p.phase.Copying? || (s.sched.ToSwap? && s.sched.i == i))
  }

  ghost predicate Stats(s: State) {
    && 1 < |s.procs| && |s.procs| + 1 < MAXPID && s.mpid <= MAXPID && Live(s.procs[0])
    && (forall i :: 0 <= i < |s.procs| ==> StatOk(s, i))
    && (forall i, j :: 0 <= i < j < |s.procs| && Borrows(s.procs[i]) && Borrows(s.procs[j]) ==>
          s.procs[i].phase.parent != s.procs[j].phase.parent)
    && (match s.sched
        case NoTransfer => true
        case ToCore(i, _) =>
          0 < i < |s.procs| && s.procs[i].stat == Ready && !s.procs[i].loaded && !s.procs[i].locked
        case ToSwap(i, _) =>
          0 < i < |s.procs| && (s.procs[i].stat == Ready || s.procs[i].stat == Asleep)
          && !s.procs[i].loaded && s.procs[i].locked && !Borrows(s.procs[i]))
  }

  // Images, zombies and transfers have between them what the free maps do not have.
  ghost predicate Memory(s: State) {
    && Partition(s.core, 32, 160) && Partition(s.swap, 4000, 4872)
    && Owned(s.core.out, CoreOwners(s)) && Owned(s.swap.out, SwapOwners(s))
  }

  // ---- Steps and memory ----

  lemma MallocOut(m: Arena, size: nat, lo: nat, hi: nat)
    requires Partition(m, lo, hi) && size > 0 && HasRoom(m, size)
    ensures Partition(Serve(m, Malloc(size)), lo, hi) && Piece(m, size) !in m.out
    ensures Serve(m, Malloc(size)).out == m.out + {Piece(m, size)}
  {
    MallocPartition(m, size, lo, hi);
  }

  lemma MfreeOut(m: Arena, r: Run, lo: nat, hi: nat)
    requires Partition(m, lo, hi) && r in m.out
    ensures Partition(Serve(m, Mfree(r)), lo, hi) && Serve(m, Mfree(r)).out == m.out - {r}
  {
    MfreePartition(m, r, lo, hi);
  }

  // Steps that change no owner.
  lemma MemorySame(s: State, t: State)
    requires Memory(s) && t.core == s.core && t.swap == s.swap
    requires forall o :: CoreOf(t, o) == CoreOf(s, o)
    requires forall o :: SwapOf(t, o) == SwapOf(s, o)
    ensures Memory(t)
  {
    OwnedSame(s.core.out, CoreOwners(s), CoreOwners(t));
    OwnedSame(s.swap.out, SwapOwners(s), SwapOwners(t));
  }

  // An entry whose status and phase change, but neither its image nor a copy or a block.
  lemma QuietMemory(s: State, i: nat, p: Proc)
    requires Memory(s) && i < |s.procs| && Live(s.procs[i]) && Live(p)
    requires p == s.procs[i].(stat := p.stat, phase := p.phase)
    requires p.phase == s.procs[i].phase || (p.phase in {User, Waiting} && s.procs[i].phase in {User, Waiting})
             || (p.phase.Reaping? && s.procs[i].phase in {User, Waiting})
    ensures Memory(Set(s, i, p))
  {
    hide Partition, Owned;
    MemorySame(s, Set(s, i, p));
  }

  lemma SwapInMemory(s: State, i: nat)
    requires Stats(s) && Memory(s) && Enabled(s, SwapIn(i))
    ensures Memory(Apply(s, SwapIn(i)))
  {
    hide Partition, Owned, Serve, FirstFit;
    var t := Apply(s, SwapIn(i));
    MallocOut(s.core, USIZE, 32, 160);
    OwnedMore(s.core.out, CoreOwners(s), CoreOwners(t), Sched, Piece(s.core, USIZE));
    OwnedSame(s.swap.out, SwapOwners(s), SwapOwners(t));
  }

  lemma SwapInDoneMemory(s: State)
    requires Stats(s) && Memory(s) && Enabled(s, SwapInDone)
    ensures Memory(Apply(s, SwapInDone))
  {
    hide Partition, Owned, Serve, FirstFit;
    var t := Apply(s, SwapInDone);
    var i := s.sched.i;
    assert StatOk(s, i);
    OwnedMoved(s.core.out, CoreOwners(s), CoreOwners(t), Sched, Image(i));
    OwnedLess(s.swap.out, SwapOwners(s), SwapOwners(t), Image(i), Run(IMAGE, s.procs[i].addr));
    MfreeOut(s.swap, Run(IMAGE, s.procs[i].addr), 4000, 4872);
  }

  lemma SwapOutMemory(s: State, i: nat)
    requires Stats(s) && Memory(s) && Enabled(s, SwapOut(i)) && !Steals(s, SwapOut(i))
    ensures Memory(Apply(s, SwapOut(i)))
  {
    hide Partition, Owned, Serve, FirstFit;
    var t := Apply(s, SwapOut(i));
    MallocOut(s.swap, IMAGE, 4000, 4872);
    assert StatOk(s, i);
    OwnedSame(s.core.out, CoreOwners(s), CoreOwners(t));
    OwnedMore(s.swap.out, SwapOwners(s), SwapOwners(t), Sched, Piece(s.swap, IMAGE));
  }

  lemma SwapOutDoneMemory(s: State)
    requires Stats(s) && Memory(s) && Enabled(s, SwapOutDone)
    ensures Memory(Apply(s, SwapOutDone))
  {
    hide Partition, Owned, Serve, FirstFit;
    var t := Apply(s, SwapOutDone);
    var i := s.sched.i;
    OwnedLess(s.core.out, CoreOwners(s), CoreOwners(t), Image(i), Run(USIZE, s.procs[i].addr));
    MfreeOut(s.core, Run(USIZE, s.procs[i].addr), 32, 160);
    OwnedMoved(s.swap.out, SwapOwners(s), SwapOwners(t), Sched, Image(i));
  }

  lemma ForkIntoCore(s: State, i: nat)
    requires Stats(s) && Memory(s) && Enabled(s, Fork(i)) && HasRoom(s.core, USIZE)
    ensures Memory(Forked(s, i))
  {
    hide Partition, Owned, Serve, FirstFit, FreshPid;
    var t := Forked(s, i);
    var c := FreeSlot(s.procs);
    assert StatOk(s, c) && StatOk(s, i);
    MallocOut(s.core, USIZE, 32, 160);
    OwnedMore(s.core.out, CoreOwners(s), CoreOwners(t), Image(c), Piece(s.core, USIZE));
    OwnedSame(s.swap.out, SwapOwners(s), SwapOwners(t));
  }

  lemma ForkOntoSwap(s: State, i: nat)
    requires Stats(s) && Memory(s) && Enabled(s, Fork(i)) && !HasRoom(s.core, USIZE) && HasRoom(s.swap, IMAGE)
    ensures Memory(Forked(s, i))
  {
    hide Partition, Owned, Serve, FirstFit, FreshPid;
    var t := Forked(s, i);
    var c := FreeSlot(s.procs);
    assert StatOk(s, c) && StatOk(s, i);
    MallocOut(s.swap, IMAGE, 4000, 4872);
    OwnedSame(s.core.out, CoreOwners(s), CoreOwners(t));
    OwnedMore(s.swap.out, SwapOwners(s), SwapOwners(t), Extra(c), Piece(s.swap, IMAGE));
  }

  lemma ForkMemory(s: State, i: nat)
    requires Stats(s) && Memory(s) && Enabled(s, Fork(i))
    ensures Memory(Apply(s, Fork(i)))
  {
    hide Partition, Owned, Serve, FirstFit, FreshPid;
    if HasRoom(s.core, USIZE) {
      ForkIntoCore(s, i);
    } else if HasRoom(s.swap, IMAGE) {
      ForkOntoSwap(s, i);
    } else {
      assert StatOk(s, FreeSlot(s.procs)) && StatOk(s, i);
      MemorySame(s, Forked(s, i));
    }
  }

  lemma RetryMemory(s: State, i: nat)
    requires Stats(s) && Memory(s) && Enabled(s, Retry(i))
    ensures Memory(Apply(s, Retry(i)))
  {
    hide Partition, Owned, Serve, FirstFit;
    var t := Apply(s, Retry(i));
    if HasRoom(s.swap, IMAGE) {
      MallocOut(s.swap, IMAGE, 4000, 4872);
      OwnedSame(s.core.out, CoreOwners(s), CoreOwners(t));
      OwnedMore(s.swap.out, SwapOwners(s), SwapOwners(t), Extra(i), Piece(s.swap, IMAGE));
    } else {
      MemorySame(s, t);
    }
  }

  lemma CopyDoneMemory(s: State, i: nat)
    requires Stats(s) && Memory(s) && Enabled(s, CopyDone(i))
    ensures Memory(Apply(s, CopyDone(i)))
  {
    hide Partition, Owned, Serve, FirstFit;
    var t := Apply(s, CopyDone(i));
    assert StatOk(s, i) && StatOk(s, s.procs[i].phase.parent);
    OwnedSame(s.core.out, CoreOwners(s), CoreOwners(t));
    OwnedMoved(s.swap.out, SwapOwners(s), SwapOwners(t), Extra(i), Image(i));
  }

  lemma ExitMemory(s: State, i: nat)
    requires Stats(s) && Memory(s) && Enabled(s, Exit(i))
    ensures Memory(Apply(s, Exit(i)))
  {
    hide Partition, Owned, Serve, FirstFit;
    var t := Apply(s, Exit(i));
    MallocOut(s.swap, 1, 4000, 4872);
    OwnedSame(s.core.out, CoreOwners(s), CoreOwners(t));
    OwnedMore(s.swap.out, SwapOwners(s), SwapOwners(t), Extra(i), Piece(s.swap, 1));
  }

  lemma ExitDoneMemory(s: State, i: nat)
    requires Stats(s) && Memory(s) && Enabled(s, ExitDone(i))
    ensures Memory(Apply(s, ExitDone(i)))
  {
    hide Partition, Owned, Serve, FirstFit;
    var t := Apply(s, ExitDone(i));
    assert StatOk(s, i);
    OwnedLess(s.core.out, CoreOwners(s), CoreOwners(t), Image(i), Run(USIZE, s.procs[i].addr));
    MfreeOut(s.core, Run(USIZE, s.procs[i].addr), 32, 160);
    OwnedMoved(s.swap.out, SwapOwners(s), SwapOwners(t), Extra(i), Image(i));
  }

  lemma ReapDoneMemory(s: State, i: nat)
    requires Stats(s) && Memory(s) && Enabled(s, ReapDone(i))
    requires var c := s.procs[i].phase.child; 0 < c < |s.procs| && s.procs[c].stat == Zomb
    ensures Memory(Apply(s, ReapDone(i)))
  {
    hide Partition, Owned, Serve, FirstFit;
    var t := Apply(s, ReapDone(i));
    var c := s.procs[i].phase.child;
    assert StatOk(s, c);
    OwnedSame(s.core.out, CoreOwners(s), CoreOwners(t));
    OwnedLess(s.swap.out, SwapOwners(s), SwapOwners(t), Image(c), Run(1, s.procs[c].addr));
    MfreeOut(s.swap, Run(1, s.procs[c].addr), 4000, 4872);
  }

  // ---- Who waits for whom ----

  predicate HasLive(procs: seq<Proc>, pid: nat) {
    exists j :: 0 <= j < |procs| && Live(procs[j]) && procs[j].pid == pid
  }

  predicate IsZombieOf(p: Proc, pid: nat) {
    p.stat == Zomb && p.ppid == pid
  }

  // Every process and zombie has a parent that lives, and whoever is asleep in wait has no
  // zombie child.
  ghost predicate LifeOk(procs: seq<Proc>, i: nat)
    requires i < |procs|
  {
    var p := procs[i];
    && (p.stat == NoProc ==> p.pid == 0 && p.ppid == 0)
    && (i > 0 && p.stat != NoProc ==> p.pid > 0 && p.ppid != p.pid && HasLive(procs, p.ppid))
    && (p.stat == Asleep && p.phase == Waiting ==> forall c :: 0 <= c < |procs| ==> !IsZombieOf(procs[c], p.pid))
    && (p.phase.Reaping? ==>
          0 < p.phase.child < |procs| && Live(p) && IsZombieOf(procs[p.phase.child], p.pid))
  }

  ghost predicate Life(s: State) {
    && 1 < |s.procs| && Live(s.procs[1]) && s.procs[1].pid == 1 && s.procs[1].ppid == 0 && !s.procs[1].phase.Exiting?
    && s.procs[0].pid == 0 && Live(s.procs[0]) && s.procs[0].phase == User && s.procs[0].ppid == 0
    && (forall i, j :: 0 <= i < j < |s.procs| && s.procs[i].stat != NoProc && s.procs[j].stat != NoProc ==>
          s.procs[i].pid != s.procs[j].pid)
    && (forall i :: 0 <= i < |s.procs| ==> LifeOk(s.procs, i))
  }

  ghost predicate Inv(s: State) {
    Stats(s) && Memory(s) && Life(s)
  }

  // ---- Steps, flags and phases ----

  // An entry that changes only its status and phase.
  lemma QuietStats(s: State, i: nat, p: Proc)
    requires Stats(s) && i < |s.procs| && i > 0
    requires p == s.procs[i].(stat := p.stat, phase := p.phase, ppid := p.ppid)
    requires s.procs[i].stat in {Ready, Asleep} && p.stat in {Ready, Asleep}
    requires s.sched.ToCore? ==> s.sched.i != i || p.stat == Ready
    requires Borrows(p) || Borrows(s.procs[i]) ==> p.phase == s.procs[i].phase
    ensures Stats(Set(s, i, p))
  {
    var t := Set(s, i, p);
    forall j | 0 <= j < |t.procs| ensures StatOk(t, j) {
      assert StatOk(s, j) && StatOk(s, i);
    }
  }

  lemma SwapStats(s: State, e: Event)
    requires Stats(s) && Enabled(s, e) && (e.SwapIn? || e.SwapInDone? || e.SwapOut? || e.SwapOutDone?)
    requires !Steals(s, e)
    ensures Stats(Apply(s, e))
  {
    hide FirstFit, Serve;
    var t := Apply(s, e);
    assert e.SwapOut? || e.SwapIn? ==> StatOk(s, e.i);
    forall j | 0 <= j < |t.procs| ensures StatOk(t, j) {
      assert StatOk(s, j);
    }
  }

  // The entries after a fork: the child is new, and its parent waits if it borrows.
  lemma ForkShape(s: State, i: nat)
    requires Stats(s) && Enabled(s, Fork(i))
    ensures var t := Apply(s, Fork(i));
            var c := FreeSlot(s.procs);
            && 0 < c < |s.procs| == |t.procs| && c != i && t.sched == s.sched && t.mpid <= MAXPID
            && (forall j :: 0 <= j < |s.procs| && j != c && j != i ==> t.procs[j] == s.procs[j])
            && t.procs[i] == s.procs[i].(stat := if Borrows(t.procs[c]) then Idl else Ready)
            && NewChild(t.procs[c], s.procs[i], i) && t.procs[c].pid == FreshPid(s.procs, s.mpid, 1)
  {
    hide FirstFit, Serve, FreshPid;
    assert StatOk(s, 0);
  }

  predicate NewChild(p: Proc, up: Proc, i: nat) {
    && p.stat in {Ready, Asleep} && p.loaded && p.ppid == up.pid && p.locked == p.phase.Copying?
    && if Borrows(p) then p.phase.parent == i && p.addr == up.addr else p.phase == User
  }

  lemma ForkStats(s: State, i: nat)
    requires Stats(s) && Enabled(s, Fork(i))
    ensures Stats(Apply(s, Fork(i)))
  {
    hide Apply;
    ForkShape(s, i);
    var t := Apply(s, Fork(i));
    var c := FreeSlot(s.procs);
    assert StatOk(s, i) && StatOk(s, c);
    forall j | 0 <= j < |t.procs| ensures StatOk(t, j) {
      assert StatOk(s, j);
    }
    forall j, k | 0 <= j < k < |t.procs| && Borrows(t.procs[j]) && Borrows(t.procs[k])
      ensures t.procs[j].phase.parent != t.procs[k].phase.parent
    {
      assert StatOk(s, j) && StatOk(s, k);
    }
  }

  lemma RetryStats(s: State, i: nat)
    requires Stats(s) && Enabled(s, Retry(i))
    ensures Stats(Apply(s, Retry(i)))
  {
    hide FirstFit, Serve;
    var t := Apply(s, Retry(i));
    assert StatOk(s, i);
    forall j | 0 <= j < |t.procs| ensures StatOk(t, j) {
      assert StatOk(s, j);
    }
  }

  lemma CopyDoneStats(s: State, i: nat)
    requires Stats(s) && Enabled(s, CopyDone(i))
    ensures Stats(Apply(s, CopyDone(i)))
  {
    var t := Apply(s, CopyDone(i));
    assert StatOk(s, i);
    forall j | 0 <= j < |t.procs| ensures StatOk(t, j) {
      assert StatOk(s, j);
    }
  }

  lemma ExitDoneStats(s: State, i: nat)
    requires Stats(s) && Enabled(s, ExitDone(i))
    ensures Stats(Apply(s, ExitDone(i)))
  {
    hide FirstFit, Serve, Parent;
    var t := Apply(s, ExitDone(i));
    assert StatOk(s, i);
    forall j | 0 <= j < |t.procs| ensures StatOk(t, j) {
      assert StatOk(s, j);
    }
  }

  lemma ReapDoneStats(s: State, i: nat)
    requires Stats(s) && Enabled(s, ReapDone(i))
    requires var c := s.procs[i].phase.child; 0 < c < |s.procs| && s.procs[c].stat == Zomb
    ensures Stats(Apply(s, ReapDone(i)))
  {
    hide FirstFit, Serve;
    var t := Apply(s, ReapDone(i));
    forall j | 0 <= j < |t.procs| ensures StatOk(t, j) {
      assert StatOk(s, j) && StatOk(s, i);
    }
  }

  // ---- Steps and parents ----

  // Steps in which everybody stays alive, a child or not, and a zombie or not.
  lemma QuietLife(s: State, t: State)
    requires Life(s) && |t.procs| == |s.procs|
    requires forall j :: 0 <= j < |s.procs| ==> SameLife(s.procs[j], t.procs[j])
    ensures Life(t)
  {
    forall i | 0 <= i < |t.procs| ensures LifeOk(t.procs, i) {
      assert LifeOk(s.procs, i) && SameLife(s.procs[i], t.procs[i]);
      if i > 0 && t.procs[i].stat != NoProc {
        var j :| 0 <= j < |s.procs| && Live(s.procs[j]) && s.procs[j].pid == s.procs[i].ppid;
        assert Live(t.procs[j]) && t.procs[j].pid == t.procs[i].ppid;
      }
      forall c | 0 <= c < |t.procs| && IsZombieOf(t.procs[c], t.procs[i].pid)
        ensures IsZombieOf(s.procs[c], s.procs[i].pid)
      {
      }
    }
  }

  predicate SameLife(p: Proc, q: Proc) {
    && q.pid == p.pid && q.ppid == p.ppid && Live(q) == Live(p) && (q.stat == NoProc) == (p.stat == NoProc)
    && (q.stat == Zomb) == (p.stat == Zomb)
    && (q.stat == Asleep && q.phase == Waiting ==> p.stat == Asleep && p.phase == Waiting)
    && (q.phase.Reaping? ==> q.phase == p.phase)
    && (q.phase.Exiting? ==> p.phase.Exiting? || p.pid != 1)
    && (p.phase == User && p.pid == 0 ==> q.phase == User)
  }

  lemma ForkLife(s: State, i: nat)
    requires Life(s) && Stats(s) && Enabled(s, Fork(i))
    ensures Life(Apply(s, Fork(i)))
  {
    hide Apply, FreshPid;
    ForkShape(s, i);
    FreshPidUnused(s.procs, s.mpid);
    assert LifeOk(s.procs, i) && StatOk(s, i);
    NewChildLife(s, Apply(s, Fork(i)), i, FreeSlot(s.procs), FreshPid(s.procs, s.mpid, 1));
  }

  lemma NewChildLife(s: State, t: State, i: nat, c: nat, pid: nat)
    requires Life(s) && !Used(s.procs, pid) && pid > 0 && 1 < c < |s.procs| && 0 < i < |s.procs| && i != c
    requires s.procs[c].stat == NoProc && s.procs[i].stat == Ready && s.procs[i].phase == User
    requires |t.procs| == |s.procs| && t.procs[i] == s.procs[i].(stat := t.procs[i].stat)
    requires t.procs[i].stat in {Ready, Idl}
    requires forall j :: 0 <= j < |s.procs| && j != c && j != i ==> t.procs[j] == s.procs[j]
    requires t.procs[c].stat in {Ready, Asleep} && t.procs[c].pid == pid && t.procs[c].ppid == s.procs[i].pid
    requires t.procs[c].phase == User || Borrows(t.procs[c])
    ensures Life(t)
  {
    assert forall j :: 0 <= j < |s.procs| ==> s.procs[j].pid != pid;
    forall j | 0 <= j < |t.procs| ensures LifeOk(t.procs, j) {
      assert LifeOk(s.procs, j) && LifeOk(s.procs, i);
      if j == c {
        assert Live(t.procs[i]) && t.procs[i].pid == t.procs[c].ppid;
      } else if j > 0 && t.procs[j].stat != NoProc {
        var k :| 0 <= k < |s.procs| && Live(s.procs[k]) && s.procs[k].pid == s.procs[j].ppid;
        assert Live(t.procs[k]) && t.procs[k].pid == t.procs[j].ppid;
      }
      forall x | 0 <= x < |t.procs| && IsZombieOf(t.procs[x], t.procs[j].pid) && j != c
        ensures IsZombieOf(s.procs[x], s.procs[j].pid)
      {
      }
    }
  }

  lemma WaitLife(s: State, i: nat)
    requires Life(s) && Stats(s) && Enabled(s, Wait(i))
    ensures Life(Apply(s, Wait(i)))
  {
    var t := Apply(s, Wait(i));
    var c := ZombieOf(s.procs, s.procs[i].pid);
    assert t.procs == s.procs[i := t.procs[i]];
    assert c == |s.procs| ==> forall x :: 0 <= x < |s.procs| ==> !IsZombieOf(s.procs[x], s.procs[i].pid);
    assert t.procs[i].phase.Reaping? ==> c != 0 && t.procs[i].phase.child == c;
    assert c < |s.procs| ==> c != i && IsZombieOf(s.procs[c], s.procs[i].pid);
    OneLife(s, t, i);
  }

  // One process changes what it does.
  lemma OneLife(s: State, t: State, i: nat)
    requires Life(s) && 0 < i < |s.procs| == |t.procs| && t.procs == s.procs[i := t.procs[i]]
    requires Live(s.procs[i]) && Live(t.procs[i])
    requires t.procs[i] == s.procs[i].(stat := t.procs[i].stat, phase := t.procs[i].phase)
    requires t.procs[i].phase.Exiting? ==> i != 1
    requires t.procs[i].stat == Asleep && t.procs[i].phase == Waiting ==>
               forall x :: 0 <= x < |s.procs| ==> !IsZombieOf(s.procs[x], s.procs[i].pid)
    requires t.procs[i].phase.Reaping? ==>
               var c := t.procs[i].phase.child; 0 < c < |s.procs| && IsZombieOf(s.procs[c], s.procs[i].pid)
    ensures Life(t)
  {
    forall j | 0 <= j < |t.procs| ensures LifeOk(t.procs, j) {
      OneLifeOk(s, t, i, j);
    }
  }

  lemma OneLifeOk(s: State, t: State, i: nat, j: nat)
    requires Life(s) && 0 < i < |s.procs| == |t.procs| && t.procs == s.procs[i := t.procs[i]]
    requires Live(s.procs[i]) && Live(t.procs[i]) && j < |t.procs|
    requires t.procs[i] == s.procs[i].(stat := t.procs[i].stat, phase := t.procs[i].phase)
    requires t.procs[i].stat == Asleep && t.procs[i].phase == Waiting ==>
               forall x :: 0 <= x < |s.procs| ==> !IsZombieOf(s.procs[x], s.procs[i].pid)
    requires t.procs[i].phase.Reaping? ==>
               var c := t.procs[i].phase.child; 0 < c < |s.procs| && IsZombieOf(s.procs[c], s.procs[i].pid)
    ensures LifeOk(t.procs, j)
  {
    assert LifeOk(s.procs, j);
    if j > 0 && t.procs[j].stat != NoProc {
      var k :| 0 <= k < |s.procs| && Live(s.procs[k]) && s.procs[k].pid == s.procs[j].ppid;
      assert Live(t.procs[k]) && t.procs[k].pid == t.procs[j].ppid;
    }
    forall x | 0 <= x < |t.procs| && IsZombieOf(t.procs[x], t.procs[j].pid)
      ensures IsZombieOf(s.procs[x], s.procs[j].pid)
    {
    }
  }

  // A zombie appears; its children are given to init, and whoever is to know wakes up.
  lemma ExitDoneLife(s: State, i: nat)
    requires Life(s) && Stats(s) && Enabled(s, ExitDone(i))
    ensures Life(Apply(s, ExitDone(i)))
  {
    var t := Apply(s, ExitDone(i));
    var q := s.procs[i];
    var up := Parent(s.procs, q.ppid);
    assert LifeOk(s.procs, i) && i != 1;
    ParentKept(s.procs, q.ppid);
    var z := q.(stat := Zomb, addr := q.phase.block, phase := User);
    assert t.procs == Orphaned(s.procs[i := z], q.pid, up);
    assert t.procs[i] == Orphan(z, i, q.pid, up);
    assert forall j :: 0 <= j < |s.procs| && j != i ==> t.procs[j] == Orphan(s.procs[j], j, q.pid, up);
    ExitedLife(s, t, i, z, up);
  }

  lemma ExitedLife(s: State, t: State, i: nat, z: Proc, up: nat)
    requires Life(s) && 1 < i < |s.procs| == |t.procs| && Live(s.procs[i]) && s.procs[i].phase.Exiting?
    requires z.stat == Zomb && z.phase == User && z.pid == s.procs[i].pid && z.ppid == s.procs[i].ppid == up
    requires t.procs[i] == Orphan(z, i, z.pid, up)
    requires forall k :: 0 <= k < |t.procs| && k != i ==> t.procs[k] == Orphan(s.procs[k], k, z.pid, up)
    ensures Life(t)
  {
    forall j | 0 <= j < |t.procs| ensures LifeOk(t.procs, j) {
      ExitedLifeOk(s, t.procs, i, z, up, j);
    }
  }

  lemma ParentKept(procs: seq<Proc>, ppid: nat)
    requires HasLive(procs, ppid)
    ensures Parent(procs, ppid) == ppid
  {
    var j :| 0 <= j < |procs| && Live(procs[j]) && procs[j].pid == ppid;
    assert Used(procs, ppid);
  }

  lemma ExitedLifeOk(s: State, r: seq<Proc>, i: nat, z: Proc, up: nat, j: nat)
    requires Life(s) && 1 < i < |s.procs| == |r| && j < |r| && Live(s.procs[i]) && s.procs[i].phase.Exiting?
    requires z.stat == Zomb && z.phase == User && z.pid == s.procs[i].pid && z.ppid == s.procs[i].ppid == up
    requires r[i] == Orphan(z, i, z.pid, up)
    requires forall k :: 0 <= k < |r| && k != i ==> r[k] == Orphan(s.procs[k], k, z.pid, up)
    ensures LifeOk(r, j)
  {
    assert LifeOk(s.procs, j) && LifeOk(s.procs, i);
    if j > 0 && r[j].stat != NoProc {
      assert Live(r[1]) && r[1].pid == 1;
      if r[j].ppid != 1 {
        var k :| 0 <= k < |s.procs| && Live(s.procs[k]) && s.procs[k].pid == s.procs[j].ppid;
        assert k != i;
        assert Live(r[k]) && r[k].pid == r[j].ppid;
      }
    }
    if r[j].stat == Asleep && r[j].phase == Waiting {
      assert j != i && s.procs[j].stat == Asleep && s.procs[j].phase == Waiting && j != 1 && s.procs[j].pid != up;
      forall c | 0 <= c < |r| ensures !IsZombieOf(r[c], r[j].pid) {
        assert !IsZombieOf(s.procs[c], s.procs[j].pid);
        assert s.procs[j].pid != 1;
      }
    }
  }

  // The zombie is laid to rest; nobody had it for a parent.
  lemma ReapDoneLife(s: State, i: nat)
    requires Life(s) && Stats(s) && Enabled(s, ReapDone(i))
    ensures Life(Apply(s, ReapDone(i)))
    ensures var c := s.procs[i].phase.child; 0 < c < |s.procs| && s.procs[c].stat == Zomb
  {
    var t := Apply(s, ReapDone(i));
    var c := s.procs[i].phase.child;
    assert LifeOk(s.procs, i);
    assert t.procs[c] == Proc(NoProc, false, false, 0, 0, s.procs[c].addr, User);
    assert t.procs[i] == s.procs[i].(phase := User);
    assert forall j :: 0 <= j < |s.procs| && j != c && j != i ==> t.procs[j] == s.procs[j];
    hide Enabled, Apply, Stats;
    forall j | 0 <= j < |t.procs| ensures LifeOk(t.procs, j) {
      ReapedLifeOk(s, t, i, c, j);
    }
  }

  lemma ReapedLifeOk(s: State, t: State, i: nat, c: nat, j: nat)
    requires Life(s) && 0 < i < |s.procs| == |t.procs| && 0 < c < |s.procs| && j < |s.procs|
    requires Live(s.procs[i]) && s.procs[i].phase == Reaping(c) && s.procs[c].stat == Zomb
    requires t.procs[c] == Proc(NoProc, false, false, 0, 0, s.procs[c].addr, User)
    requires t.procs[i] == s.procs[i].(phase := User)
    requires forall k :: 0 <= k < |s.procs| && k != c && k != i ==> t.procs[k] == s.procs[k]
    ensures LifeOk(t.procs, j)
  {
    assert LifeOk(s.procs, j) && LifeOk(s.procs, i);
    if j > 0 && t.procs[j].stat != NoProc {
      var k :| 0 <= k < |s.procs| && Live(s.procs[k]) && s.procs[k].pid == s.procs[j].ppid;
      assert Live(t.procs[k]) && t.procs[k].pid == t.procs[j].ppid;
    }
    forall x | 0 <= x < |t.procs| && j != c && IsZombieOf(t.procs[x], t.procs[j].pid)
      ensures IsZombieOf(s.procs[x], s.procs[j].pid) && x != c
    {
    }
    assert t.procs[j].phase.Reaping? ==> t.procs[j].phase.child != c;
  }

  // ---- Every run ----

  lemma StepInv(s: State, e: Event)
    requires Inv(s) && !Steals(s, e)
    ensures Inv(Moved(s, e))
  {
    hide Apply, Stats, Memory, Life, Enabled, Steals;
    if Enabled(s, e) {
      match e {
        case Sleep(i) => QuietInv(s, e);
        case Wake(i) => QuietInv(s, e);
        case Signal(i) => QuietInv(s, e);
        case Wait(i) => WaitInv(s, i);
        case Fork(i) => ForkStats(s, i); ForkMemory(s, i); ForkLife(s, i);
        case Retry(i) => RetryStats(s, i); RetryMemory(s, i); RetryLife(s, i);
        case CopyDone(i) => CopyDoneStats(s, i); CopyDoneMemory(s, i); CopyDoneLife(s, i);
        case Exit(i) => ExitInv(s, i);
        case ExitDone(i) => ExitDoneStats(s, i); ExitDoneMemory(s, i); ExitDoneLife(s, i);
        case ReapDone(i) => ReapDoneLife(s, i); ReapDoneStats(s, i); ReapDoneMemory(s, i);
        case SwapIn(i) => SwapStats(s, e); SwapInMemory(s, i); SwapLife(s, e);
        case SwapInDone => SwapStats(s, e); SwapInDoneMemory(s); SwapLife(s, e);
        case SwapOut(i) => SwapStats(s, e); SwapOutMemory(s, i); SwapLife(s, e);
        case SwapOutDone => SwapStats(s, e); SwapOutDoneMemory(s); SwapLife(s, e);
      }
    }
  }

  ghost function Moved(s: State, e: Event): State {
    if Enabled(s, e) then Apply(s, e) else s
  }

  lemma QuietInv(s: State, e: Event)
    requires Inv(s) && Enabled(s, e) && (e.Sleep? || e.Wake? || e.Signal?)
    ensures Inv(Apply(s, e))
  {
    hide Memory, Stats;
    var t := Apply(s, e);
    var p := t.procs[e.i];
    assert s.sched.ToCore? ==> s.sched.i != e.i || p.stat == Ready by { if s.sched.ToCore? { InCoreIsOut(s); } }
    QuietStats(s, e.i, p);
    QuietMemory(s, e.i, p);
    QuietLife(s, t);
  }

  lemma InCoreIsOut(s: State)
    requires Stats(s) && s.sched.ToCore?
    ensures 0 < s.sched.i < |s.procs| && !s.procs[s.sched.i].loaded && s.procs[s.sched.i].stat == Ready
  {
  }

  lemma WaitInv(s: State, i: nat)
    requires Inv(s) && Enabled(s, Wait(i))
    ensures Inv(Apply(s, Wait(i)))
  {
    WaitLife(s, i);
    hide Memory, Stats, Life;
    var t := Apply(s, Wait(i));
    var p := t.procs[i];
    assert s.sched.ToCore? ==> s.sched.i != i by { if s.sched.ToCore? { InCoreIsOut(s); } }
    QuietStats(s, i, p);
    QuietMemory(s, i, p);
  }

  lemma ExitInv(s: State, i: nat)
    requires Inv(s) && Enabled(s, Exit(i))
    ensures Inv(Apply(s, Exit(i)))
  {
    ExitMemory(s, i);
    hide Memory, Serve, FirstFit;
    var t := Apply(s, Exit(i));
    QuietStats(s, i, t.procs[i]);
    StatsOther(Set(s, i, t.procs[i]), t);
    hide Stats;
    OneLife(s, t, i);
  }

  lemma RetryLife(s: State, i: nat)
    requires Life(s) && Stats(s) && Enabled(s, Retry(i))
    ensures Life(Apply(s, Retry(i)))
  {
    hide FirstFit, Serve;
    assert StatOk(s, i);
    QuietLife(s, Apply(s, Retry(i)));
  }

  lemma CopyDoneLife(s: State, i: nat)
    requires Life(s) && Stats(s) && Enabled(s, CopyDone(i))
    ensures Life(Apply(s, CopyDone(i)))
  {
    assert StatOk(s, i) && StatOk(s, s.procs[i].phase.parent);
    QuietLife(s, Apply(s, CopyDone(i)));
  }

  lemma SwapLife(s: State, e: Event)
    requires Life(s) && Stats(s) && Enabled(s, e) && (e.SwapIn? || e.SwapInDone? || e.SwapOut? || e.SwapOutDone?)
    ensures Life(Apply(s, e))
  {
    hide FirstFit, Serve;
    QuietLife(s, Apply(s, e));
  }

  lemma StatsOther(s: State, t: State)
    requires Stats(s) && t == s.(core := t.core, swap := t.swap)
    ensures Stats(t)
  {
    forall j | 0 <= j < |t.procs| ensures StatOk(t, j) {
      assert StatOk(s, j);
    }
  }

  const NPROC: nat := 50

  // The system when init has been made: 128 pages from 32, 872 blocks from 4000.
  function Booted(): State {
    var procs := seq(NPROC, i => if i == 0 then Proc(Ready, true, false, 0, 0, 0, User)
                                 else if i == 1 then Proc(Ready, true, false, 1, 0, 32, User)
                                 else Proc(NoProc, false, false, 0, 0, 0, User));
    State(procs, 1, Serve(Arena([Run(128, 32)], {}), Malloc(USIZE)), Arena([Run(872, 4000)], {}), NoTransfer)
  }

  lemma BootedInv()
    ensures Inv(Booted())
  {
    hide Memory, Serve, FirstFit;
    var s := Booted();
    assert Stats(s);
    assert LifeOk(s.procs, 1) by {
      assert Live(s.procs[0]) && s.procs[0].pid == s.procs[1].ppid;
    }
    assert forall i :: 0 <= i < NPROC && i != 1 ==> LifeOk(s.procs, i);
    assert Life(s);
    BootedMemory(s);
  }

  lemma BootedMemory(s: State)
    requires s == Booted()
    ensures Memory(s)
  {
    hide Partition, Owned, CoreOf, SwapOf, Serve;
    BootedMaps(s);
    forall o ensures CoreOf(s, o) == if o == Image(1) then Some(Run(USIZE, 32)) else None {
      BootedOwner(s, o);
    }
    forall o ensures SwapOf(s, o) == None {
      BootedOwner(s, o);
    }
    OwnedOne({Run(USIZE, 32)}, CoreOwners(s), Image(1), Run(USIZE, 32));
    OwnedNone({}, SwapOwners(s));
  }

  lemma BootedMaps(s: State)
    requires s == Booted()
    ensures Partition(s.core, 32, 160) && s.core.out == {Run(USIZE, 32)}
    ensures Partition(s.swap, 4000, 4872) && s.swap.out == {}
  {
    var m := Arena([Run(128, 32)], {});
    StartPartition(32, 160);
    StartPartition(4000, 4872);
    hide Partition, Serve;
    MallocOut(m, USIZE, 32, 160);
  }

  lemma BootedOwner(s: State, o: Owner)
    requires s == Booted()
    ensures CoreOf(s, o) == (if o == Image(1) then Some(Run(USIZE, 32)) else None) && SwapOf(s, o) == None
  {
    hide Serve;
  }

  lemma OwnedOne(out: set<Run>, own: Owner -> Option<Run>, o: Owner, r: Run)
    requires out == {r} && own(o) == Some(r) && forall q :: q != o ==> own(q) == None
    ensures Owned(out, own)
  {
  }

  lemma OwnedNone(out: set<Run>, own: Owner -> Option<Run>)
    requires out == {} && forall q :: own(q) == None
    ensures Owned(out, own)
  {
  }

  ghost function After(es: seq<Event>): State {
    if es == [] then Booted() else Moved(After(es[..|es| - 1]), es[|es| - 1])
  }

  // sched never does that.
  ghost predicate Careful(es: seq<Event>) {
    es == [] || (Careful(es[..|es| - 1]) && !Steals(After(es[..|es| - 1]), es[|es| - 1]))
  }

  lemma {:induction false} RunInv(es: seq<Event>)
    requires Careful(es)
    ensures Inv(After(es))
  {
    hide Steals;
    if es == [] {
      BootedInv();
    } else {
      RunInv(es[..|es| - 1]);
      StepInv(After(es[..|es| - 1]), es[|es| - 1]);
    }
  }

  ghost predicate Holds(r: Option<Run>, u: nat) {
    r.Some? && InRun(r.value, u)
  }

  // Every page of core is free or in exactly one image, finished or on its way; every block
  // of the swap area is free or in exactly one image, zombie's block or transfer.
  lemma EverythingAccounted(es: seq<Event>, u: nat)
    requires Careful(es)
    ensures var s := After(es);
            && (32 <= u < 160 <==> Free(s.core.free, u) || exists o :: Holds(CoreOf(s, o), u))
            && (forall o, q :: Holds(CoreOf(s, o), u) && Holds(CoreOf(s, q), u) ==> o == q)
            && (forall o :: Holds(CoreOf(s, o), u) ==> !Free(s.core.free, u))
    ensures var s := After(es);
            && (4000 <= u < 4872 <==> Free(s.swap.free, u) || exists o :: Holds(SwapOf(s, o), u))
            && (forall o, q :: Holds(SwapOf(s, o), u) && Holds(SwapOf(s, q), u) ==> o == q)
            && (forall o :: Holds(SwapOf(s, o), u) ==> !Free(s.swap.free, u))
  {
    RunInv(es);
    var s := After(es);
    hide CoreOf, SwapOf, Stats, Life, After;
    assert forall o :: CoreOwners(s)(o) == CoreOf(s, o);
    assert forall o :: SwapOwners(s)(o) == SwapOf(s, o);
    OwnersPartition(s.core, CoreOwners(s), 32, 160, u);
    OwnersPartition(s.swap, SwapOwners(s), 4000, 4872, u);
  }

  lemma OwnersPartition(m: Arena, own: Owner -> Option<Run>, lo: nat, hi: nat, u: nat)
    requires Partition(m, lo, hi) && Owned(m.out, own)
    ensures lo <= u < hi <==> Free(m.free, u) || exists o :: Holds(own(o), u)
    ensures forall o, q :: Holds(own(o), u) && Holds(own(q), u) ==> o == q
    ensures forall o :: Holds(own(o), u) ==> !Free(m.free, u)
  {
    hide Free, InRun;
    if Out(m, u) {
      var r :| r in m.out && InRun(r, u);
      var o :| own(o) == Some(r);
      assert Holds(own(o), u);
    }
    forall o | Holds(own(o), u) ensures Out(m, u) {
      assert own(o).value in m.out;
    }
  }

  // Two processes that can be resumed have no page in common; a child that is being copied
  // runs in the image of its parent, which cannot be resumed.
  lemma RunnersApart(es: seq<Event>, i: nat, j: nat, u: nat)
    requires Careful(es) && CanRun(After(es), i) && CanRun(After(es), j) && i != j
    ensures var s := After(es);
            !(InRun(Run(USIZE, s.procs[i].addr), u) && InRun(Run(USIZE, s.procs[j].addr), u))
  {
    RunInv(es);
    EverythingAccounted(es, u);
    hide Memory, Life, After;
    var s := After(es);
    assert StatOk(s, i) && StatOk(s, j);
    var o := if Borrows(s.procs[i]) then Image(s.procs[i].phase.parent) else Image(i);
    var q := if Borrows(s.procs[j]) then Image(s.procs[j].phase.parent) else Image(j);
    assert StatOk(s, o.i) && StatOk(s, q.i);
    assert CoreOf(s, o) == Some(Run(USIZE, s.procs[i].addr));
    assert CoreOf(s, q) == Some(Run(USIZE, s.procs[j].addr));
    assert o != q;
    assert InRun(Run(USIZE, s.procs[i].addr), u) ==> Holds(CoreOf(s, o), u);
    assert InRun(Run(USIZE, s.procs[j].addr), u) ==> Holds(CoreOf(s, q), u);
  }

  // A process that can be resumed owns the image at its address, or runs in its parent's.
  lemma RunnerOwnsImage(es: seq<Event>, i: nat)
    requires Careful(es) && CanRun(After(es), i)
    ensures var s := After(es);
            var o := if Borrows(s.procs[i]) then s.procs[i].phase.parent else i;
            CoreOf(s, Image(o)) == Some(Run(USIZE, s.procs[i].addr)) && (o != i ==> s.procs[o].stat == Idl)
  {
    RunInv(es);
    hide Memory, Life, After;
    var s := After(es);
    assert StatOk(s, i);
    assert Borrows(s.procs[i]) ==> StatOk(s, s.procs[i].phase.parent);
  }

  // No zombie is lost: its parent is alive, is not asleep in wait, and will find a zombie
  // when it looks.
  lemma NoZombieLost(es: seq<Event>, c: nat)
    requires Careful(es) && c < |After(es).procs| && After(es).procs[c].stat == Zomb
    ensures exists j :: 0 <= j < |After(es).procs| && ReadyToReap(After(es).procs, j, c)
  {
    RunInv(es);
    hide Memory, Stats, After;
    var s := After(es);
    assert LifeOk(s.procs, c);
    var j :| 0 <= j < |s.procs| && Live(s.procs[j]) && s.procs[j].pid == s.procs[c].ppid;
    assert LifeOk(s.procs, j);
    assert IsZombieOf(s.procs[c], s.procs[j].pid);
    assert ReadyToReap(s.procs, j, c);
  }

  predicate ReadyToReap(procs: seq<Proc>, j: nat, c: nat)
    requires j < |procs| && c < |procs|
  {
    && Live(procs[j]) && procs[j].pid == procs[c].ppid && !(procs[j].stat == Asleep && procs[j].phase == Waiting)
    && ZombieOf(procs, procs[j].pid) < |procs|
  }

  // Process numbers are positive, and no two processes or zombies have the same.
  lemma PidsDiffer(es: seq<Event>, i: nat, j: nat)
    requires Careful(es)
    requires var s := After(es); 0 < i < |s.procs| && j < |s.procs| && i != j
    requires var s := After(es); s.procs[i].stat != NoProc && s.procs[j].stat != NoProc
    ensures var s := After(es); s.procs[i].pid > 0 && s.procs[i].pid != s.procs[j].pid
  {
    RunInv(es);
    assert LifeOk(After(es).procs, i);
  }

  // ---- A child without an area ----

  // A fork leaves its child without one exactly when there is room neither in core nor on
  // the swap area.
  lemma WantingChild(s: State, i: nat)
    requires Inv(s) && Enabled(s, Fork(i))
    ensures var t := Moved(s, Fork(i));
            var c := FreeSlot(s.procs);
            && Inv(t) && 0 < c < |t.procs| && t.procs[c].stat in {Ready, Asleep}
            && (t.procs[c].phase.Wanting? <==> !HasRoom(s.core, USIZE) && !HasRoom(s.swap, IMAGE))
            && (t.procs[c].phase.Wanting? ==> !t.procs[c].locked && t.procs[c].addr == t.procs[i].addr)
  {
    hide Memory, Life, FirstFit, Serve, FreshPid;
    StepInv(s, Fork(i));
    assert StatOk(s, 0);
  }

  // Swapping it out gives the parent's pages away: the parent keeps their address, and they
  // are free.
  lemma StuckChild(s: State, c: nat)
    requires Inv(s) && Steals(s, SwapOut(c))
    ensures var t := Moved(Moved(s, SwapOut(c)), SwapOutDone);
            var i := s.procs[c].phase.parent;
            && 0 < i < |s.procs| == |t.procs| && t.procs[i] == s.procs[i] && s.procs[i].stat == Idl
            && CoreOf(t, Image(i)) == Some(Run(USIZE, s.procs[i].addr))
            && Run(USIZE, s.procs[i].addr) !in t.core.out && Free(t.core.free, s.procs[i].addr)
  {
    hide Partition, Free, Life, Serve, FirstFit;
    ParentsImage(s, c);
    var i := s.procs[c].phase.parent;
    var r := Run(USIZE, s.procs[i].addr);
    MfreeOut(s.core, r, 32, 160);
    var t := Moved(Moved(s, SwapOut(c)), SwapOutDone);
    assert t.core == Serve(s.core, Mfree(r));
    FreedIsFree(s.core, r);
  }

  // The parent whose image a process runs in has it in core.
  lemma ParentsImage(s: State, c: nat)
    requires Stats(s) && Memory(s) && 0 < c < |s.procs| && Borrows(s.procs[c])
    ensures var i := s.procs[c].phase.parent;
            && 0 < i < |s.procs| && i != c && s.procs[i].stat == Idl && s.procs[i].loaded && !Borrows(s.procs[i])
            && s.procs[i].addr == s.procs[c].addr && Partition(s.core, 32, 160)
            && Run(USIZE, s.procs[i].addr) in s.core.out
  {
    hide Partition;
    var i := s.procs[c].phase.parent;
    assert StatOk(s, c) && StatOk(s, i);
    assert CoreOwners(s)(Image(i)) == Some(Run(USIZE, s.procs[i].addr));
  }

  // What sched swaps out in a state in order leaves memory in order if and only if it is not
  // such a child.
  lemma SwapOutExactly(s: State, c: nat)
    requires Inv(s) && Enabled(s, SwapOut(c))
    ensures Memory(Moved(Moved(s, SwapOut(c)), SwapOutDone)) <==> !s.procs[c].phase.Wanting?
  {
    hide Stats, Memory, Life, Apply, CoreOf, SwapOf;
    var t := Moved(s, SwapOut(c));
    var u := Moved(t, SwapOutDone);
    if Steals(s, SwapOut(c)) {
      StuckChild(s, c);
      NotInOrder(u, s.procs[c].phase.parent);
    } else {
      StepInv(s, SwapOut(c));
      StepInv(t, SwapOutDone);
    }
  }

  lemma NotInOrder(s: State, i: nat)
    requires CoreOf(s, Image(i)).Some? && CoreOf(s, Image(i)).value !in s.core.out
    ensures !Memory(s)
  {
    assert CoreOwners(s)(Image(i)) == CoreOf(s, Image(i));
  }

  lemma FreedIsFree(m: Arena, r: Run)
    requires Partition(m, 32, 160) && r in m.out
    ensures Free(Serve(m, Mfree(r)).free, r.addr)
  {
    MfreePartition(m, r, 32, 160);
    var t := Serve(m, Mfree(r));
    assert InRun(r, r.addr) && Out(m, r.addr);
    forall q | q in t.out ensures !InRun(q, r.addr) {
    }
  }
}
