// What fork, exit, wait and swapping do to the processes (ken/slp.c, ken/sys1.c), told by the
// entries of the process table.
module Lives {
  import opened Wrappers
  import opened ResourceMap
  import opened MapRuns
  import opened Processes

  // ---- wait ----

  // Entry c is a child of process i, running or zombie.
  predicate ChildOf(s: State, c: nat, i: nat) {
    c < |s.procs| && i < |s.procs| && s.procs[c].stat != NoProc && s.procs[c].ppid == s.procs[i].pid
  }

  ghost predicate HasZombie(s: State, i: nat) {
    exists c: nat :: ChildOf(s, c, i) && s.procs[c].stat == Zomb
  }

  // Only entry i changes, and there what it does and whether it sleeps.
  predicate OnlyActs(s: State, t: State, i: nat) {
    && i < |s.procs| == |t.procs| && t == s.(procs := s.procs[i := t.procs[i]])
    && t.procs[i] == s.procs[i].(stat := t.procs[i].stat, phase := t.procs[i].phase)
  }

  // wait takes a zombie child when there is one, sleeps when there are only others, and
  // returns an error when there is none.
  lemma WaitFinds(s: State, i: nat)
    requires Inv(s) && Enabled(s, Wait(i))
    ensures var t := Apply(s, Wait(i));
            && OnlyActs(s, t, i)
            && (if HasZombie(s, i) then
                  && t.procs[i].stat == Ready && t.procs[i].phase.Reaping?
                  && ChildOf(s, t.procs[i].phase.child, i) && s.procs[t.procs[i].phase.child].stat == Zomb
                else if exists c: nat :: ChildOf(s, c, i) then
                  t.procs[i].stat == Asleep && t.procs[i].phase == Waiting
                else t.procs[i].stat == Ready && t.procs[i].phase == User)
  {
    hide Memory, Stats;
    var pid := s.procs[i].pid;
    assert LifeOk(s.procs, i) && pid > 0;
    var z := ZombieOf(s.procs, pid);
    if z < |s.procs| {
      assert ChildOf(s, z, i);
    } else if HasChild(s.procs, pid) {
      var c: nat :| c < |s.procs| && s.procs[c].ppid == pid;
      assert LifeOk(s.procs, c);
      assert ChildOf(s, c, i);
    }
  }

  // The end of wait frees the zombie's entry, number and block, and nothing else.
  lemma ReapFrees(s: State, i: nat)
    requires Inv(s) && Enabled(s, ReapDone(i))
    ensures var t := Apply(s, ReapDone(i));
            var c := s.procs[i].phase.child;
            && ChildOf(s, c, i) && s.procs[c].stat == Zomb && c != i && |t.procs| == |s.procs|
            && t.procs[i] == s.procs[i].(phase := User) && t.procs[c].stat == NoProc
            && (forall j :: 0 <= j < |s.procs| && j != i && j != c ==> t.procs[j] == s.procs[j])
            && !Used(t.procs, s.procs[c].pid) && t.core == s.core
            && (forall u: nat :: Free(t.swap.free, u) <==> Free(s.swap.free, u) || u == s.procs[c].addr)
  {
    hide Stats, Serve, Owned, Partition, Free;
    var c := s.procs[i].phase.child;
    assert LifeOk(s.procs, i) && LifeOk(s.procs, c);
    assert SwapOwners(s)(Image(c)) == Some(Run(1, s.procs[c].addr));
    assert Run(1, s.procs[c].addr) in s.swap.out by { OwnedHas(s.swap.out, SwapOwners(s), Image(c)); }
    FreedUnits(s.swap, Run(1, s.procs[c].addr), 4000, 4872);
    var t := Apply(s, ReapDone(i));
    assert forall j :: 0 <= j < |s.procs| && j != c && s.procs[j].stat != NoProc ==> s.procs[j].pid != s.procs[c].pid;
    assert forall j :: 0 <= j < |s.procs| && s.procs[j].stat == NoProc ==> LifeOk(s.procs, j);
  }

  lemma OwnedHas(out: set<Run>, own: Owner -> Option<Run>, o: Owner)
    requires Owned(out, own) && own(o).Some?
    ensures own(o).value in out
  {
  }

  lemma FreedUnits(m: Arena, r: Run, lo: nat, hi: nat)
    requires Partition(m, lo, hi) && r in m.out
    ensures forall u: nat :: Free(Serve(m, Mfree(r)).free, u) <==> Free(m.free, u) || InRun(r, u)
  {
    MfreePartition(m, r, lo, hi);
    hide Free, InRun, Given, Disjoint;
    DisjointFits(m.free, r.size, r.addr);
    GivenUnits(m.free, r.size, r.addr);
  }

  // ---- A zombie in a run ----

  // Process i has found zombie c in wait.
  predicate Reaps(s: State, i: nat, c: nat, pid: nat) {
    && i < |s.procs| && s.procs[i].phase == Reaping(c) && Live(s.procs[i])
    && c < |s.procs| && s.procs[c].stat == Zomb && s.procs[c].pid == pid
  }

  // It keeps it, whatever others do, until it frees it.
  lemma ReapStays(s: State, e: Event, i: nat, c: nat, pid: nat)
    requires Inv(s) && Reaps(s, i, c, pid) && e != ReapDone(i)
    ensures Reaps(Moved(s, e), i, c, pid)
  {
    hide Inv, Apply, Enabled;
    if Enabled(s, e) {
      NotActing(s, e, i, c, pid);
      match e {
        case ReapDone(j) => ReapKeeps(s, j, i, c, pid);
        case ExitDone(j) => ExitKeeps(s, j, i, c);
        case Retry(j) => RetryKeeps(s, j, i, c);
        case CopyDone(j) => CopyKeeps(s, j, i, c);
        case Fork(j) => ForkKeeps(s, j, i, c);
        case SwapIn(_) => SwapKeeps(s, e, i, c, pid);
        case SwapInDone => SwapKeeps(s, e, i, c, pid);
        case SwapOut(_) => SwapKeeps(s, e, i, c, pid);
        case SwapOutDone => SwapKeeps(s, e, i, c, pid);
        case _ => QuietKeeps(s, e, i, c, pid);
      }
    }
  }

  // Neither is at a place where it forks or exits.
  lemma NotActing(s: State, e: Event, i: nat, c: nat, pid: nat)
    requires Inv(s) && Reaps(s, i, c, pid) && Enabled(s, e)
    ensures i > 0 && i != c && s.procs[i].stat != Idl
    ensures e.Fork? || e.Retry? || e.CopyDone? || e.ExitDone? ==> e.i != i && e.i != c
  {
    hide Memory;
    assert LifeOk(s.procs, i) && StatOk(s, i);
  }

  lemma QuietKeeps(s: State, e: Event, i: nat, c: nat, pid: nat)
    requires Reaps(s, i, c, pid) && Enabled(s, e) && (e.Sleep? || e.Wake? || e.Signal? || e.Wait? || e.Exit?)
    ensures Reaps(Apply(s, e), i, c, pid)
  {
    hide Serve, FirstFit;
  }

  lemma SwapKeeps(s: State, e: Event, i: nat, c: nat, pid: nat)
    requires Reaps(s, i, c, pid) && Enabled(s, e) && (e.SwapIn? || e.SwapInDone? || e.SwapOut? || e.SwapOutDone?)
    ensures Reaps(Apply(s, e), i, c, pid)
  {
    hide Serve, FirstFit;
  }

  lemma ReapKeeps(s: State, j: nat, i: nat, c: nat, pid: nat)
    requires Inv(s) && Reaps(s, i, c, pid) && Enabled(s, ReapDone(j)) && i != j
    ensures Reaps(Apply(s, ReapDone(j)), i, c, pid)
  {
    hide Stats, Memory, Serve;
    assert LifeOk(s.procs, i) && LifeOk(s.procs, j);
  }

  lemma ExitKeeps(s: State, j: nat, i: nat, c: nat)
    requires Enabled(s, ExitDone(j)) && i < |s.procs| && c < |s.procs| && i != j && c != j
    ensures var t := Apply(s, ExitDone(j));
            && |t.procs| == |s.procs| && t.procs[i].phase == s.procs[i].phase && Live(t.procs[i]) == Live(s.procs[i])
            && t.procs[c].pid == s.procs[c].pid && (s.procs[c].stat == Zomb ==> t.procs[c].stat == Zomb)
  {
    hide Serve, Parent;
  }

  lemma RetryKeeps(s: State, j: nat, i: nat, c: nat)
    requires Enabled(s, Retry(j)) && i < |s.procs| && c < |s.procs| && i != j && c != j
    ensures var t := Apply(s, Retry(j));
            |t.procs| == |s.procs| && t.procs[i] == s.procs[i] && t.procs[c] == s.procs[c]
  {
    hide Serve, FirstFit;
  }

  lemma CopyKeeps(s: State, j: nat, i: nat, c: nat)
    requires Inv(s) && Enabled(s, CopyDone(j)) && i < |s.procs| && c < |s.procs| && i != j && c != j
    requires s.procs[i].stat != Idl && s.procs[c].stat != Idl
    ensures var t := Apply(s, CopyDone(j));
            |t.procs| == |s.procs| && t.procs[i] == s.procs[i] && t.procs[c] == s.procs[c]
  {
    hide Memory, Life;
    assert StatOk(s, j);
  }

  lemma ForkKeeps(s: State, j: nat, i: nat, c: nat)
    requires Inv(s) && Enabled(s, Fork(j)) && i < |s.procs| && c < |s.procs| && i != j && c != j
    requires s.procs[i].stat != NoProc && s.procs[c].stat != NoProc
    ensures var t := Apply(s, Fork(j));
            |t.procs| == |s.procs| && t.procs[i] == s.procs[i] && t.procs[c] == s.procs[c]
  {
    hide Memory, Life, Apply;
    ForkShape(s, j);
  }

  lemma {:induction false} ReapStaysLong(s: State, es: seq<Event>, i: nat, c: nat, pid: nat)
    requires Inv(s) && Reaps(s, i, c, pid) && CarefulFrom(s, es) && ReapDone(i) !in es
    ensures Inv(Later(s, es)) && Reaps(Later(s, es), i, c, pid)
  {
    hide Inv, Steals, Moved, Reaps;
    if es != [] {
      var n := |es| - 1;
      ReapStaysLong(s, es[..n], i, c, pid);
      StepInv(Later(s, es[..n]), es[n]);
      ReapStays(Later(s, es[..n]), es[n], i, c, pid);
    }
  }

  // The events from any state on; sched takes no child without an area.
  ghost function Later(s: State, es: seq<Event>): State {
    if es == [] then s else Moved(Later(s, es[..|es| - 1]), es[|es| - 1])
  }

  ghost predicate CarefulFrom(s: State, es: seq<Event>) {
    es == [] || (CarefulFrom(s, es[..|es| - 1]) && !Steals(Later(s, es[..|es| - 1]), es[|es| - 1]))
  }

  // Whatever happens meanwhile, a wait by a process that has a zombie child frees the entry of
  // one.
  lemma ZombieIsReaped(es: seq<Event>, mid: seq<Event>, i: nat) returns (c: nat)
    requires Careful(es) && Enabled(After(es), Wait(i)) && HasZombie(After(es), i)
    requires var s := Moved(After(es), Wait(i));
             CarefulFrom(s, mid) && ReapDone(i) !in mid && Enabled(Later(s, mid), ReapDone(i))
    ensures var s := After(es);
            var t := Moved(Later(Moved(s, Wait(i)), mid), ReapDone(i));
            && ChildOf(s, c, i) && s.procs[c].stat == Zomb
            && c < |t.procs| && t.procs[c].stat == NoProc && !Used(t.procs, s.procs[c].pid)
  {
    hide Inv, Enabled, Apply, Later, CarefulFrom, After, Steals, Used;
    var s := After(es);
    RunInv(es);
    WaitFinds(s, i);
    var t := Moved(s, Wait(i));
    c := t.procs[i].phase.child;
    NoSteal(s, i);
    StepInv(s, Wait(i));
    WaiterReaps(s, i, c);
    ReapStaysLong(t, mid, i, c, s.procs[c].pid);
    ReapFrees(Later(t, mid), i);
  }

  lemma NoSteal(s: State, i: nat)
    ensures !Steals(s, Wait(i))
  {
  }

  lemma WaiterReaps(s: State, i: nat, c: nat)
    requires Inv(s) && Enabled(s, Wait(i)) && HasZombie(s, i)
    requires Moved(s, Wait(i)).procs[i].phase == Reaping(c)
    ensures c < |s.procs| && Reaps(Moved(s, Wait(i)), i, c, s.procs[c].pid)
  {
    WaitFinds(s, i);
    hide Memory, Stats;
    assert LifeOk(s.procs, i);
  }

  // ---- A process in wait has a child ----

  ghost predicate HasSome(s: State, i: nat) {
    exists c: nat :: ChildOf(s, c, i)
  }

  ghost predicate WaitersHave(s: State) {
    forall i :: 0 <= i < |s.procs| && s.procs[i].phase == Waiting ==> HasSome(s, i)
  }

  lemma StepWaitersHave(s: State, e: Event)
    requires Inv(s) && WaitersHave(s)
    ensures WaitersHave(Moved(s, e))
  {
    hide Inv, Apply, Enabled, ChildOf;
    if Enabled(s, e) {
      var t := Apply(s, e);
      forall i | 0 <= i < |t.procs| && t.procs[i].phase == Waiting ensures HasSome(t, i) {
        if e == Wait(i) {
          NowWaiting(s, i);
        } else {
          StillWaiting(s, e, i);
          var c: nat :| ChildOf(s, c, i);
          ChildStays(s, e, i, c);
        }
      }
    }
  }

  lemma NowWaiting(s: State, i: nat)
    requires Inv(s) && Enabled(s, Wait(i)) && Apply(s, Wait(i)).procs[i].phase == Waiting
    ensures HasSome(Apply(s, Wait(i)), i)
  {
    WaitFinds(s, i);
    hide Inv;
    var c: nat :| ChildOf(s, c, i);
    assert ChildOf(Apply(s, Wait(i)), c, i);
  }

  lemma StillWaiting(s: State, e: Event, i: nat)
    requires Inv(s) && Enabled(s, e) && e != Wait(i) && i < |Apply(s, e).procs|
    requires Apply(s, e).procs[i].phase == Waiting
    ensures i < |s.procs| && s.procs[i].phase == Waiting && Live(s.procs[i])
    ensures e.ReapDone? || e.ExitDone? ==> e.i != i
  {
    hide Inv, Apply;
    SameTable(s, e);
    NoNewWaiter(s, e, i);
    WaiterLives(s, i);
  }

  lemma SameTable(s: State, e: Event)
    requires Enabled(s, e)
    ensures |Apply(s, e).procs| == |s.procs|
  {
    hide Serve, FirstFit, FreshPid, Parent;
  }

  lemma NoNewWaiter(s: State, e: Event, i: nat)
    requires Enabled(s, e) && e != Wait(i) && i < |s.procs| == |Apply(s, e).procs|
    ensures Apply(s, e).procs[i].phase == Waiting ==> s.procs[i].phase == Waiting
    ensures Apply(s, e).procs[i].phase == Waiting ==> !(e.ReapDone? && e.i == i) && !(e.ExitDone? && e.i == i)
  {
    hide Serve, FirstFit, FreshPid, Parent;
  }

  lemma WaiterLives(s: State, i: nat)
    requires Inv(s) && i < |s.procs| && s.procs[i].phase == Waiting
    ensures Live(s.procs[i])
  {
    hide Memory, Processes.Life;
    assert StatOk(s, i);
  }

  lemma ChildStays(s: State, e: Event, i: nat, c: nat)
    requires Inv(s) && Enabled(s, e) && i < |s.procs| && s.procs[i].phase == Waiting && Live(s.procs[i])
    requires ChildOf(s, c, i) && (e.ReapDone? || e.ExitDone? ==> e.i != i)
    ensures ChildOf(Apply(s, e), c, i)
  {
    hide Inv, Apply;
    match e {
      case Fork(j) => ForkFamily(s, j, i, c);
      case ReapDone(j) => ReapFamily(s, j, i, c);
      case ExitDone(j) => ExitFamily(s, j, i, c);
      case _ => OtherFamily(s, e, i, c);
    }
  }

  lemma ForkFamily(s: State, j: nat, i: nat, c: nat)
    requires Inv(s) && Enabled(s, Fork(j)) && ChildOf(s, c, i) && s.procs[i].stat != NoProc
    ensures ChildOf(Apply(s, Fork(j)), c, i)
  {
    hide Memory, Life, Apply;
    ForkShape(s, j);
  }

  lemma ReapFamily(s: State, j: nat, i: nat, c: nat)
    requires Inv(s) && Enabled(s, ReapDone(j)) && ChildOf(s, c, i) && Live(s.procs[i]) && i != j
    ensures ChildOf(Apply(s, ReapDone(j)), c, i)
  {
    hide Memory, Stats, Serve;
    assert LifeOk(s.procs, j) && LifeOk(s.procs, i) && LifeOk(s.procs, c);
  }

  lemma ExitFamily(s: State, j: nat, i: nat, c: nat)
    requires Inv(s) && Enabled(s, ExitDone(j)) && ChildOf(s, c, i) && Live(s.procs[i]) && i != j
    ensures ChildOf(Apply(s, ExitDone(j)), c, i)
  {
    hide Memory, Stats, Serve;
    assert LifeOk(s.procs, j) && LifeOk(s.procs, i) && LifeOk(s.procs, c);
    ParentKept(s.procs, s.procs[j].ppid);
  }

  lemma OtherFamily(s: State, e: Event, i: nat, c: nat)
    requires Enabled(s, e) && ChildOf(s, c, i) && !e.Fork? && !e.ReapDone? && !e.ExitDone?
    ensures ChildOf(Apply(s, e), c, i)
  {
    hide Serve, FirstFit;
  }

  // So wait returns an error only on its first look.
  lemma {:induction false} WaiterHasChild(es: seq<Event>)
    requires Careful(es)
    ensures WaitersHave(After(es))
  {
    hide Inv, Steals;
    if es != [] {
      RunInv(es[..|es| - 1]);
      WaiterHasChild(es[..|es| - 1]);
      StepWaitersHave(After(es[..|es| - 1]), es[|es| - 1]);
    }
  }

  // ---- fork ----

  // Only entries i and c change.
  predicate OnlyTwo(s: State, t: State, i: nat, c: nat) {
    && |t.procs| == |s.procs| && t.sched == s.sched
    && forall j :: 0 <= j < |s.procs| && j != i && j != c ==> t.procs[j] == s.procs[j]
  }

  // A fork turns a free entry into a child with a number nobody had. When there is room in
  // core it has an image there at once, and its parent runs on; otherwise it runs in its
  // parent's image, and the parent does not run.
  lemma ForkMakes(s: State, i: nat) returns (c: nat)
    requires Inv(s) && Enabled(s, Fork(i))
    ensures var t := Apply(s, Fork(i));
            && 0 < c < |s.procs| && c != i && s.procs[c].stat == NoProc && Live(t.procs[c]) && OnlyTwo(s, t, i, c)
            && ChildOf(t, c, i) && t.procs[c].pid > 0 && !Used(s.procs, t.procs[c].pid)
            && t.mpid == t.procs[c].pid == FreshPid(s.procs, s.mpid, 1)
            && if HasRoom(s.core, USIZE) then
                 && t.procs[i] == s.procs[i] && t.procs[c].phase == User && CanRun(t, c)
                 && CoreOf(t, Image(c)).Some? && CoreOf(t, Image(c)).value !in s.core.out && t.swap == s.swap
               else
                 && t.procs[i] == s.procs[i].(stat := Idl) && Borrows(t.procs[c]) && t.procs[c].phase.parent == i
                 && t.procs[c].addr == t.procs[i].addr && t.core == s.core
                 && (HasRoom(s.swap, IMAGE) <==> CanRun(t, c) && t.procs[c].phase.Copying?)
  {
    hide Memory, Life, FreshPid, Used, Partition;
    ForkShape(s, i);
    FreshPidUnused(s.procs, s.mpid);
    c := FreeSlot(s.procs);
    assert Apply(s, Fork(i)).mpid == FreshPid(s.procs, s.mpid, 1);
    if HasRoom(s.core, USIZE) {
      NewImage(s);
    }
  }

  lemma NewImage(s: State)
    requires Inv(s) && HasRoom(s.core, USIZE)
    ensures Piece(s.core, USIZE) !in s.core.out
  {
    hide Life, Stats;
    MallocOut(s.core, USIZE, 32, 160);
  }

  // A child that found no area looks again when it is woken up.
  lemma RetryFinds(s: State, c: nat)
    requires Inv(s) && Enabled(s, Retry(c))
    ensures var t := Apply(s, Retry(c));
            && OnlyTwo(s, t, c, c) && t.core == s.core
            && (HasRoom(s.swap, IMAGE) <==> t.procs[c].stat == Ready)
            && (HasRoom(s.swap, IMAGE) <==> t.procs[c].phase.Copying?)
            && (t.procs[c].phase.Copying? ==>
                  t.procs[c].phase.parent == s.procs[c].phase.parent && SwapOf(t, Extra(c)).Some?)
            && (!HasRoom(s.swap, IMAGE) ==> t == s.(procs := s.procs[c := s.procs[c].(stat := Asleep)]))
  {
    hide Inv, Serve, FirstFit;
  }

  // When the copy is made, the child has an image of its own on the swap area, and its parent
  // runs on.
  lemma CopyMakes(s: State, c: nat)
    requires Inv(s) && Enabled(s, CopyDone(c))
    ensures var t := Apply(s, CopyDone(c));
            var i := s.procs[c].phase.parent;
            && 0 < i < |s.procs| && i != c && OnlyTwo(s, t, i, c) && t.core == s.core && t.swap == s.swap
            && t.procs[i] == s.procs[i].(stat := Ready)
            && t.procs[c].stat == Ready && t.procs[c].phase == User && !t.procs[c].loaded && !t.procs[c].locked
            && SwapOf(s, Extra(c)).Some? && SwapOf(t, Image(c)) == SwapOf(s, Extra(c))
  {
    hide Memory, Life;
    assert StatOk(s, c);
  }

  // ---- exit ----

  // What exit leaves: a zombie with a block, whose parent and init are awake; its children
  // are init's; its pages are free.
  lemma ExitLeaves(s: State, i: nat)
    requires Inv(s) && Enabled(s, ExitDone(i))
    ensures var t := Apply(s, ExitDone(i));
            && |t.procs| == |s.procs| && i > 1
            && t.procs[i].stat == Zomb && t.procs[i].pid == s.procs[i].pid && t.procs[i].ppid == s.procs[i].ppid
            && t.swap == s.swap && SwapOf(s, Extra(i)).Some? && SwapOf(t, Image(i)) == SwapOf(s, Extra(i))
            && (forall j :: 0 <= j < |s.procs| && j != i ==> Left(s.procs[j], t.procs[j], s.procs[i]))
            && (forall u: nat :: Free(t.core.free, u) <==>
                  Free(s.core.free, u) || InRun(Run(USIZE, s.procs[i].addr), u))
  {
    hide Serve, Partition, Owned, Free, Parent;
    assert LifeOk(s.procs, i) && StatOk(s, i) && i != 1;
    ParentKept(s.procs, s.procs[i].ppid);
    assert CoreOwners(s)(Image(i)) == Some(Run(USIZE, s.procs[i].addr));
    OwnedHas(s.core.out, CoreOwners(s), Image(i));
    FreedUnits(s.core, Run(USIZE, s.procs[i].addr), 32, 160);
    var t := Apply(s, ExitDone(i));
    forall j | 0 <= j < |s.procs| && j != i ensures Left(s.procs[j], t.procs[j], s.procs[i]) {
      if s.procs[j].stat != NoProc {
        OnlyInit(s, j);
      }
      assert t.procs[j] == Orphan(s.procs[j], j, s.procs[i].pid, s.procs[i].ppid);
    }
  }

  lemma OnlyInit(s: State, j: nat)
    requires Inv(s) && j < |s.procs| && s.procs[j].stat != NoProc
    ensures s.procs[j].pid == 1 <==> j == 1
  {
    hide Memory, Stats;
  }

  // Another process, p before and q after z has become a zombie.
  predicate Left(p: Proc, q: Proc, z: Proc) {
    && q.ppid == (if p.ppid == z.pid then 1 else p.ppid) && q == p.(ppid := q.ppid, stat := q.stat)
    && if p.stat == Asleep && p.phase == Waiting && p.pid in {1, z.ppid} then q.stat == Ready else q.stat == p.stat
  }

  // ---- sched ----

  // A process swapped out gives its pages back and has an image on the swap area ...
  lemma SwappedOut(s: State, i: nat)
    requires Inv(s) && Enabled(s, SwapOut(i)) && !Steals(s, SwapOut(i))
    ensures var t := Apply(s, SwapOut(i));
            && Enabled(t, SwapOutDone) && !CanRun(t, i) && CoreOf(t, Image(i)) == CoreOf(s, Image(i))
            && var v := Apply(t, SwapOutDone);
            && OnlyTwo(s, v, i, i) && v.procs[i] == s.procs[i].(addr := v.procs[i].addr, loaded := false)
            && SwapOf(v, Image(i)).Some? && CoreOf(v, Image(i)) == None
            && (forall u: nat :: Free(v.core.free, u) <==>
                  Free(s.core.free, u) || InRun(Run(USIZE, s.procs[i].addr), u))
  {
    hide Serve, Partition, Owned, Free, Life, FirstFit;
    assert StatOk(s, i);
    assert CoreOwners(s)(Image(i)) == Some(Run(USIZE, s.procs[i].addr));
    OwnedHas(s.core.out, CoreOwners(s), Image(i));
    FreedUnits(s.core, Run(USIZE, s.procs[i].addr), 32, 160);
  }

  // ... and the other way round for one swapped in, which can then run.
  lemma SwappedIn(s: State, i: nat)
    requires Inv(s) && Enabled(s, SwapIn(i))
    ensures var t := Apply(s, SwapIn(i));
            && Enabled(t, SwapInDone) && !CanRun(t, i)
            && var v := Apply(t, SwapInDone);
            && OnlyTwo(s, v, i, i) && v.procs[i] == s.procs[i].(addr := v.procs[i].addr, loaded := true)
            && CanRun(v, i) && CoreOf(v, Image(i)).Some? && CoreOf(v, Image(i)).value !in s.core.out
            && (forall u: nat :: Free(v.swap.free, u) <==>
                  Free(s.swap.free, u) || InRun(Run(IMAGE, s.procs[i].addr), u))
  {
    hide Serve, Partition, Owned, Free, Life, FirstFit;
    assert StatOk(s, i);
    NewImage(s);
    assert SwapOwners(s)(Image(i)) == Some(Run(IMAGE, s.procs[i].addr));
    OwnedHas(s.swap.out, SwapOwners(s), Image(i));
    FreedUnits(s.swap, Run(IMAGE, s.procs[i].addr), 4000, 4872);
  }

  // ---- sleep and wakeup ----

  // A sleeper woken up is as before it slept; one asleep in wait that gets a signal gives up.
  lemma WokenRuns(s: State, i: nat)
    ensures Enabled(s, Sleep(i)) ==>
              var t := Apply(s, Sleep(i));
              !CanRun(t, i) && Enabled(t, Wake(i)) && Apply(t, Wake(i)) == s
    ensures Enabled(s, Signal(i)) ==>
              var t := Apply(s, Signal(i));
              OnlyActs(s, t, i) && t.procs[i].stat == Ready && t.procs[i].phase == User
  {
  }

  // ---- A life ----

  // Giving back the piece just given out restores the map.
  lemma PieceBack(m: Arena, size: nat, lo: nat, hi: nat)
    requires Partition(m, lo, hi) && size > 0 && HasRoom(m, size)
    ensures Serve(Serve(m, Malloc(size)), Mfree(Piece(m, size))) == m
  {
    MallocOut(m, size, lo, hi);
    FreeUndoesAlloc(m.free, size);
    assert m.out + {Piece(m, size)} - {Piece(m, size)} == m.out;
  }

  function LifeOf(i: nat, c: nat): seq<Event> {
    [Fork(i), Exit(c), ExitDone(c), Wait(i), ReapDone(i)]
  }

  // What is left of the child after k of these steps; t is the state then.
  ghost predicate Stage(s: State, t: State, i: nat, c: nat, k: nat)
    requires HasRoom(s.core, USIZE) && HasRoom(s.swap, 1)
  {
    && Inv(t) && 0 < c < |s.procs| == |t.procs| && 0 < i < |s.procs| && i != c && t.sched == s.sched
    && (forall j :: 0 <= j < |s.procs| && j != c && j != i && j != 1 ==> t.procs[j] == s.procs[j])
    && (i != 1 ==> t.procs[1] == s.procs[1] || (k >= 3 && t.procs[1] == s.procs[1].(stat := Ready)))
    && s.procs[i].phase == User && t.procs[i] == s.procs[i].(phase := if k == 4 then Reaping(c) else User)
    && CanRun(t, i)
    && t.core == (if k < 3 then Serve(s.core, Malloc(USIZE)) else s.core)
    && t.swap == (if k == 1 then s.swap else Serve(s.swap, Malloc(1)))
    && ChildOf(t, c, i) && c != 1
    && (k < 3 ==> CanRun(t, c) && t.procs[c].addr == Piece(s.core, USIZE).addr)
    && (k == 1 ==> t.procs[c].phase == User) && (k == 2 ==> t.procs[c].phase == Exiting(Piece(s.swap, 1).addr))
    && (k >= 3 ==> t.procs[c].stat == Zomb && t.procs[c].addr == Piece(s.swap, 1).addr)
    && (forall j :: 0 <= j < |t.procs| ==> t.procs[j].ppid != t.procs[c].pid)
  }

  lemma Born(s: State, i: nat) returns (c: nat)
    requires Inv(s) && Enabled(s, Fork(i)) && HasRoom(s.core, USIZE) && HasRoom(s.swap, 1)
    ensures 0 < c < |s.procs| && s.procs[c].stat == NoProc && Stage(s, Apply(s, Fork(i)), i, c, 1)
  {
    hide Inv, Serve, FirstFit, Used, Apply;
    StepInv(s, Fork(i));
    c := ForkMakes(s, i);
    IsUser(s, i);
    InitIsThere(s);
    BornShape(s, i, c);
    NoChildren(s, i, c);
  }

  lemma InitIsThere(s: State)
    requires Inv(s)
    ensures 1 < |s.procs| && s.procs[1].stat != NoProc
  {
  }

  lemma BornShape(s: State, i: nat, c: nat)
    requires Enabled(s, Fork(i)) && HasRoom(s.core, USIZE) && c < |s.procs| && s.procs[c].stat == NoProc
    requires |Apply(s, Fork(i)).procs| == |s.procs| && Live(Apply(s, Fork(i)).procs[c])
    ensures var t := Apply(s, Fork(i));
            && t.core == Serve(s.core, Malloc(USIZE)) && t.swap == s.swap && t.sched == s.sched
            && t.procs[c].addr == Piece(s.core, USIZE).addr
  {
    hide Serve, FirstFit, FreshPid;
  }

  lemma NoChildren(s: State, i: nat, c: nat)
    requires Inv(s) && Enabled(s, Fork(i)) && c < |s.procs| && s.procs[c].stat == NoProc
    requires var t := Apply(s, Fork(i));
             |t.procs| == |s.procs| && Live(t.procs[c]) && !Used(s.procs, t.procs[c].pid) && t.procs[c].pid > 0
    ensures var t := Apply(s, Fork(i)); forall j :: 0 <= j < |t.procs| ==> t.procs[j].ppid != t.procs[c].pid
  {
    hide Memory, Apply, Used;
    ForkShape(s, i);
    var t := Apply(s, Fork(i));
    NotUsed(s.procs, t.procs[c].pid);
    forall j | 0 <= j < |t.procs| ensures t.procs[j].ppid != t.procs[c].pid {
      assert LifeOk(s.procs, j);
    }
  }

  lemma NotUsed(procs: seq<Proc>, pid: nat)
    requires !Used(procs, pid)
    ensures forall j :: 0 <= j < |procs| ==> procs[j].pid != pid
  {
  }

  lemma Exits(s: State, t: State, i: nat, c: nat)
    requires HasRoom(s.core, USIZE) && HasRoom(s.swap, 1) && Stage(s, t, i, c, 1)
    ensures Enabled(t, Exit(c)) && Stage(s, Apply(t, Exit(c)), i, c, 2)
  {
    hide Inv, Serve, FirstFit, Apply;
    StepInv(t, Exit(c));
    ExitStarts(t, c);
  }

  lemma ExitStarts(t: State, c: nat)
    requires Enabled(t, Exit(c))
    ensures var v := Apply(t, Exit(c));
            v == t.(procs := t.procs[c := t.procs[c].(phase := Exiting(Piece(t.swap, 1).addr))],
                    swap := Serve(t.swap, Malloc(1)))
  {
    hide Serve, FirstFit;
  }

  lemma ExitShape(t: State, c: nat)
    requires Enabled(t, ExitDone(c))
    ensures var v := Apply(t, ExitDone(c));
            && v.core == Serve(t.core, Mfree(Run(USIZE, t.procs[c].addr))) && v.sched == t.sched
            && |v.procs| == |t.procs| && v.procs[c].addr == t.procs[c].phase.block
  {
    hide Serve, Parent;
  }

  lemma LeftAlone(p: Proc, q: Proc, z: Proc)
    requires Left(p, q, z) && p.ppid != z.pid
    ensures q == p || (q == p.(stat := Ready) && p.pid in {1, z.ppid} && p.stat == Asleep)
  {
  }

  lemma Exited(s: State, t: State, i: nat, c: nat)
    requires HasRoom(s.core, USIZE) && HasRoom(s.swap, 1) && Stage(s, t, i, c, 2) && Inv(s)
    ensures Enabled(t, ExitDone(c)) && Stage(s, Apply(t, ExitDone(c)), i, c, 3)
  {
    hide Inv, Serve, FirstFit, Apply, Left;
    StepInv(t, ExitDone(c));
    ExitLeaves(t, c);
    ExitShape(t, c);
    CoreBack(s);
    var v := Apply(t, ExitDone(c));
    forall j | 0 <= j < |t.procs| && j != c
      ensures v.procs[j] == t.procs[j] || (j == 1 && v.procs[j] == t.procs[j].(stat := Ready))
    {
      LeftAlone(t.procs[j], v.procs[j], t.procs[c]);
      if t.procs[j].stat == Asleep {
        OnlyParent(t, i, c, j);
      }
    }
  }

  lemma OnlyParent(t: State, i: nat, c: nat, j: nat)
    requires Inv(t) && ChildOf(t, c, i) && Live(t.procs[i]) && j < |t.procs| && t.procs[j].stat != NoProc
    ensures t.procs[j].pid == t.procs[c].ppid ==> j == i
    ensures t.procs[j].pid == 1 ==> j == 1
  {
    hide Memory, Stats;
  }

  lemma CoreBack(s: State)
    requires Inv(s)
    ensures HasRoom(s.core, USIZE) ==> Serve(Serve(s.core, Malloc(USIZE)), Mfree(Piece(s.core, USIZE))) == s.core
    ensures HasRoom(s.swap, 1) ==> Serve(Serve(s.swap, Malloc(1)), Mfree(Piece(s.swap, 1))) == s.swap
  {
    hide Stats, Processes.Life, Serve, Partition, FirstFit;
    if HasRoom(s.core, USIZE) {
      PieceBack(s.core, USIZE, 32, 160);
    }
    if HasRoom(s.swap, 1) {
      PieceBack(s.swap, 1, 4000, 4872);
    }
  }

  lemma Found(s: State, t: State, i: nat, c: nat)
    requires HasRoom(s.core, USIZE) && HasRoom(s.swap, 1) && Stage(s, t, i, c, 3) && !HasZombie(s, i)
    requires s.procs[i].phase == User && s.procs[c].stat == NoProc
    ensures Enabled(t, Wait(i)) && Stage(s, Apply(t, Wait(i)), i, c, 4)
  {
    hide Inv, Apply;
    StepInv(t, Wait(i));
    WaitFinds(t, i);
    assert HasZombie(t, i);
    var z := Apply(t, Wait(i)).procs[i].phase.child;
    OnlyZombie(s, t, i, c, z);
  }

  lemma OnlyZombie(s: State, t: State, i: nat, c: nat, z: nat)
    requires HasRoom(s.core, USIZE) && HasRoom(s.swap, 1) && Stage(s, t, i, c, 3)
    ensures ChildOf(t, z, i) && t.procs[z].stat == Zomb ==> z == c || HasZombie(s, i)
  {
    hide Inv, Serve, FirstFit;
    if ChildOf(t, z, i) && t.procs[z].stat == Zomb && z != c {
      assert ChildOf(s, z, i);
    }
  }

  lemma Gone(s: State, t: State, i: nat, c: nat)
    requires HasRoom(s.core, USIZE) && HasRoom(s.swap, 1) && Stage(s, t, i, c, 4) && Inv(s)
    ensures Enabled(t, ReapDone(i)) && Restored(s, Apply(t, ReapDone(i)), c)
  {
    hide Inv, Serve, FirstFit, Apply;
    ReapFrees(t, i);
    ReapShape(t, i);
    CoreBack(s);
  }

  lemma ReapShape(t: State, i: nat)
    requires Enabled(t, ReapDone(i)) && t.procs[i].phase.child < |t.procs|
    ensures var v := Apply(t, ReapDone(i));
            v.swap == Serve(t.swap, Mfree(Run(1, t.procs[t.procs[i].phase.child].addr))) && v.sched == t.sched
  {
    hide Serve;
  }

  // Memory and table are as in s, but that init may have been woken up.
  predicate Restored(s: State, t: State, c: nat) {
    && 1 < |s.procs| && c < |s.procs| && OnlyTwo(s, t, c, 1) && t.procs[c].stat == NoProc
    && t.core == s.core && t.swap == s.swap
    && (t.procs[1] == s.procs[1] || t.procs[1] == s.procs[1].(stat := Ready))
  }

  lemma Five(s: State, a: Event, b: Event, c: Event, d: Event, e: Event)
    ensures Later(s, [a, b, c, d, e]) == Moved(Moved(Moved(Moved(Moved(s, a), b), c), d), e)
  {
    hide Moved;
    LaterMore(s, [], a);
    LaterMore(s, [a], b);
    LaterMore(s, [a, b], c);
    LaterMore(s, [a, b, c], d);
    LaterMore(s, [a, b, c, d], e);
    assert [] + [a] == [a] && [a] + [b] == [a, b] && [a, b] + [c] == [a, b, c];
    assert [a, b, c] + [d] == [a, b, c, d] && [a, b, c, d] + [e] == [a, b, c, d, e];
  }

  lemma LaterMore(s: State, es: seq<Event>, e: Event)
    ensures Later(s, es + [e]) == Moved(Later(s, es), e)
  {
    hide Moved;
    assert (es + [e])[..|es|] == es;
  }

  // A child that is made in core, exits and is waited for leaves nothing behind.
  lemma LifeLeavesNothing(s: State, i: nat) returns (c: nat)
    requires Inv(s) && Enabled(s, Fork(i)) && HasRoom(s.core, USIZE) && HasRoom(s.swap, 1) && !HasZombie(s, i)
    ensures 0 < c < |s.procs| && s.procs[c].stat == NoProc && Restored(s, Later(s, LifeOf(i, c)), c)
  {
    IsUser(s, i);
    hide Stage, Inv, Apply, Enabled, HasZombie, Restored, HasRoom;
    c := Born(s, i);
    var t1 := Apply(s, Fork(i));
    Exits(s, t1, i, c);
    var t2 := Apply(t1, Exit(c));
    Exited(s, t2, i, c);
    var t3 := Apply(t2, ExitDone(c));
    Found(s, t3, i, c);
    var t4 := Apply(t3, Wait(i));
    Gone(s, t4, i, c);
    assert t1 == Moved(s, Fork(i)) && t2 == Moved(t1, Exit(c)) && t3 == Moved(t2, ExitDone(c));
    assert t4 == Moved(t3, Wait(i));
    assert Apply(t4, ReapDone(i)) == Moved(t4, ReapDone(i));
    Five(s, Fork(i), Exit(c), ExitDone(c), Wait(i), ReapDone(i));
    assert LifeOf(i, c) == [Fork(i), Exit(c), ExitDone(c), Wait(i), ReapDone(i)];
  }

  lemma IsUser(s: State, i: nat)
    requires Enabled(s, Fork(i))
    ensures i < |s.procs| && s.procs[i].phase == User
  {
  }
}
