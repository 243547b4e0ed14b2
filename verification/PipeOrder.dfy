// When bytes come out of a pipe in order, each once. While a process may still write, always:
// then the lock keeps all but one reader out. But when the last reference for writing goes,
// iput unlocks the pipe, although a reader may be inside, or update at work; then it depends
// on who may read what is left.
module PipeOrder {
  import opened Wrappers
  import opened Machine
  import opened Pipe

  // ---- One reader at a time ----

  // What came out is what went in, in order, none twice.
  ghost predicate InOrder(s: State) {
    forall i :: 0 <= i < |s.received| ==> s.received[i].number == i
  }

  ghost predicate NoReader(s: State) {
    forall p :: p in s.procs ==> !s.procs[p].act.Reading?
  }

  ghost predicate ReaderExact(s: State, a: Activity)
    requires a.Reading?
  {
    |s.received| == Base(s) + a.pos && s.off <= a.pos && PartHere(s, a)
  }

  // ... and reading goes on at the next byte.
  ghost predicate Kept(s: State) {
    && InOrder(s)
    && (forall p :: p in s.procs && s.procs[p].act.Reading? ==> ReaderExact(s, s.procs[p].act))
    && (NoReader(s) ==> |s.received| == Base(s) + s.off && s.off <= |s.file|)
  }

  ghost predicate Alone(s: State, p: nat) {
    forall x :: x in s.readFds ==> x.0 == p
  }

  // Process q alone may read, and its call takes everything there is.
  ghost predicate TakesAll(s: State, q: nat) {
    && Alone(s, q) && q in s.procs
    && match s.procs[q].act
       case ReadTop(_, count) => s.off + count >= |s.file|
       case Reading(_, pos, part, left) => pos + |part| + left >= |s.file|
       case _ => false
  }

  // Whoever is at work has the lock.
  ghost predicate Guarded(s: State) {
    && (forall p :: p in s.procs && s.procs[p].act.Reading? ==> s.lock == Some(By(p)))
    && (s.sync ==> s.lock == Some(Update))
  }

  ghost predicate Finishing(s: State) {
    s.writeFds == {} && exists q :: TakesAll(s, q) && Awake(s, q)
  }

  ghost predicate Over(s: State) {
    NoReader(s) && (s.readFds == {} || (s.writeFds == {} && s.off == |s.file|))
  }

  // Why it stays so: the lock is kept, or one process reads the rest, or all is read.
  ghost predicate Safe(s: State) {
    Guarded(s) || Finishing(s) || Over(s)
  }

  ghost predicate Exact(s: State) {
    Kept(s) && Safe(s)
  }

  // The last reference for writing goes ...
  ghost predicate LastWrite(s: State, e: Event) {
    e.CloseWrite? && Enabled(s, e) && s.writeFds == {(e.p, e.fd)}
  }

  // ... while a process that reads, or update, has the lock, and there is something to read
  // that does not all go to one process.
  ghost predicate Hazard(s: State, e: Event) {
    LastWrite(s, e) && s.lock.Some? && Leaves(s)
  }

  ghost predicate Leaves(s: State) {
    s.off < |s.file| && s.readFds != {} && !exists q :: TakesAll(s, q)
  }

  lemma OneReader(s: State, p: nat)
    requires Sound(s) && Safe(s) && IsReading(s, p)
    ensures forall q :: q in s.procs && q != p ==> !s.procs[q].act.Reading?
  {
    hide Typed, Flow, Shares, InOrder, Locking;
    assert ProcOk(s, p);
    forall q | q in s.procs && q != p ensures !s.procs[q].act.Reading? {
      assert ProcOk(s, q);
    }
  }

  lemma NobodyReads(s: State, p: nat)
    requires Sound(s) && Safe(s) && s.lock == None && p in s.procs && s.procs[p].act.ReadTop?
    ensures NoReader(s)
  {
    hide Typed, Flow, Shares, InOrder, Locking;
    assert ProcOk(s, p);
    forall q | q in s.procs ensures !s.procs[q].act.Reading? {
      assert ProcOk(s, q);
    }
  }

  // ---- Steps keep the order ----

  lemma StaysKept(s: State, t: State)
    requires Kept(s) && ReadersStay(s, t)
    ensures Kept(t)
  {
    forall q | q in t.procs && t.procs[q].act.Reading? ensures ReaderExact(t, t.procs[q].act) {
      var a := s.procs[q].act;
      assert ReaderExact(s, a);
      assert s.file[a.pos..a.pos + |a.part|] == t.file[a.pos..a.pos + |a.part|];
    }
    assert NoReader(t) ==> NoReader(s);
  }

  lemma ReadOnKept(s: State, p: nat)
    requires Kept(s) && IsReading(s, p) && (forall q :: q in s.procs && q != p ==> !s.procs[q].act.Reading?)
    requires s.procs[p].act.pos <= |s.file|
    ensures Kept(ReadOn(s, p))
  {
    hide ReadOn;
    ReadOnShape(s, p);
    var t := ReadOn(s, p);
    assert ReaderExact(s, s.procs[p].act);
    assert NoReader(t) || IsReading(t, p);
  }

  lemma CopyOutKept(s: State, p: nat)
    requires Kept(s) && IsReading(s, p) && (forall q :: q in s.procs && q != p ==> !s.procs[q].act.Reading?)
    requires Flow(s)
    ensures Kept(CopyOut(s, p))
  {
    hide CopyOut, NoReader;
    CopyOutShape(s, p);
    var t := CopyOut(s, p);
    var a := s.procs[p].act;
    assert ReaderExact(s, a);
    forall i | 0 <= i < |t.received| ensures t.received[i].number == i {
      if i >= |s.received| {
        var j := i - |s.received|;
        assert a.part[j] == s.file[a.pos + j];
      }
    }
    assert IsReading(t, p) && ReaderExact(t, t.procs[p].act);
    NotNoReader(t, p);
  }

  lemma NotNoReader(s: State, p: nat)
    requires IsReading(s, p)
    ensures !NoReader(s)
  {
  }

  lemma ReadEnterKept(s: State, p: nat)
    requires Sound(s) && Kept(s) && NoReader(s) && s.lock == None && p in s.procs && s.procs[p].act.ReadTop?
    ensures Kept(ReadEnter(s, p))
  {
    hide Sound, ReadEnter;
    ReadEnterShape(s, p);
  }

  lemma ReadChunkKept(s: State, p: nat)
    requires Sound(s) && Exact(s) && IsReading(s, p)
    ensures Kept(ReadChunk(s, p))
  {
    hide InOrder, ReadOn, CopyOut, Typed, Locking, Shares, Procs, Safe;
    OneReader(s, p);
    CopyOutKept(s, p);
    CopyOutShape(s, p);
    ReadOnKept(CopyOut(s, p), p);
  }

  lemma StepKept(s: State, e: Event)
    requires Sound(s) && Exact(s)
    ensures Kept(Moved(s, e))
  {
    hide Sound, Kept, Safe, Typed, ReadEnter, ReadChunk, NoReader;
    if Typed(s) && Enabled(s, e) {
      if !OfReader(s, e) {
        StepStays(s, e);
        StaysKept(s, Apply(s, e));
      } else if s.procs[e.p].act.Reading? {
        ReadChunkKept(s, e.p);
      } else {
        NobodyReads(s, e.p);
        ReadEnterKept(s, e.p);
      }
    }
  }

  // ---- ... and the reason for it ----

  // With both ends open the lock guards; with no reader left nothing comes out.
  lemma BothEnds(s: State)
    requires Sound(s) && (s.readFds == {} || s.writeFds != {})
    ensures Safe(s)
  {
    hide Typed, Flow, Shares;
    if s.readFds == {} {
      forall q | q in s.procs ensures !s.procs[q].act.Reading? {
        assert ProcOk(s, q);
      }
    }
  }

  lemma NobodyWrites(s: State)
    requires Sound(s) && s.writeFds == {}
    ensures forall p :: p in s.procs ==> !InWrite(s.procs[p].act)
  {
    hide Typed, Flow, Shares, Locking;
    forall p | p in s.procs ensures InWrite(s.procs[p].act) ==> (p, s.procs[p].act.fd) in s.writeFds {
      assert ProcOk(s, p);
    }
  }

  // Steps other than those of readers, when no writer is left.
  lemma QuietShape(s: State, e: Event)
    requires Sound(s) && Typed(s) && Enabled(s, e) && !OfReader(s, e) && s.writeFds == {}
    ensures var t := Apply(s, e);
            && ReadersStay(s, t) && t.file == s.file && t.off == s.off && t.writeFds == {}
            && (t.readFds == s.readFds || e.CloseRead? || e.Dup?)
            && match e
               case Sync => t.lock == Some(Update) && t.sync && s.lock == None
               case SyncDone => t.lock == None && !t.sync && s.sync
               case CloseRead(_, _) => t.sync == s.sync && (t.readFds == {} || t.lock == s.lock)
               case _ => t.sync == s.sync && t.lock == s.lock
  {
    hide Flow, Shares, Locking, Typed, Closed, WriteEnter, WriteChunk, ReadersStay, Release;
    StepStays(s, e);
    NobodyWrites(s);
    match e {
      case CloseRead(p, fd) => ClosedShape(s, s.readFds - {(p, fd)}, s.writeFds);
      case SyncDone => ReleaseProcs(s);
      case _ =>
    }
  }

  lemma QuietGuarded(s: State, e: Event)
    requires Sound(s) && Typed(s) && Enabled(s, e) && !OfReader(s, e) && s.writeFds == {} && Guarded(s)
    requires Apply(s, e).readFds != {}
    ensures Guarded(Apply(s, e))
  {
    hide Sound, Typed, Apply, Enabled, OfReader, Base;
    QuietShape(s, e);
  }

  lemma QuietOver(s: State, e: Event)
    requires Sound(s) && Typed(s) && Enabled(s, e) && !OfReader(s, e) && s.writeFds == {}
    requires NoReader(s) && s.off == |s.file|
    ensures Over(Apply(s, e))
  {
    hide Sound, Typed, Apply, Enabled, OfReader, Base;
    QuietShape(s, e);
  }

  // Only that process can do anything but wait for update.
  lemma QuietFinishing(s: State, e: Event, q: nat)
    requires Sound(s) && Typed(s) && Enabled(s, e) && !OfReader(s, e) && s.writeFds == {}
    requires TakesAll(s, q) && Awake(s, q) && Apply(s, e).readFds != {}
    ensures Safe(Apply(s, e))
  {
    hide Typed, Flow, Shares, Apply, Closed, Release, WriteEnter, WriteChunk;
    QuietShape(s, e);
    if e.ReadStep? {
      LockedOut(s, e.p, q);
      QuietGuarded(s, e);
    } else {
      OnlyOne(s, e, q);
      StillTakesAll(s, e, q);
    }
  }

  lemma LockedOut(s: State, p: nat, q: nat)
    requires Sound(s) && s.writeFds == {} && TakesAll(s, q) && p in s.procs && s.procs[p].act.ReadTop? && s.lock.Some?
    ensures Guarded(s)
  {
    hide Typed, Flow, Shares;
    forall r | r in s.procs ensures !Inside(s.procs[r].act) {
      assert ProcOk(s, r) && ProcOk(s, p);
    }
  }

  lemma OnlyOne(s: State, e: Event, q: nat)
    requires Sound(s) && Enabled(s, e) && !OfReader(s, e) && s.writeFds == {} && TakesAll(s, q) && Awake(s, q)
    requires !e.ReadStep?
    ensures e.Sync? || e.SyncDone? || (e.Signal? && e.p != q)
  {
    hide Typed, Flow, Shares, Locking;
    assert e.WriteStep? ==> ProcOk(s, e.p);
  }

  lemma StillTakesAll(s: State, e: Event, q: nat)
    requires Typed(s) && Enabled(s, e) && TakesAll(s, q) && Awake(s, q) && s.writeFds == {}
    requires e.Sync? || e.SyncDone? || (e.Signal? && e.p != q)
    ensures Finishing(Apply(s, e))
  {
    hide Typed, Release;
    ReleaseProcs(s);
    assert TakesAll(Apply(s, e), q) && Awake(Apply(s, e), q);
  }

  // A reader goes in ...
  lemma EnterSafe(s: State, p: nat)
    requires Sound(s) && Safe(s) && s.writeFds == {} && s.lock == None && NoReader(s) && s.off <= |s.file|
    requires p in s.procs && s.procs[p].act.ReadTop? && (p, s.procs[p].act.fd) in s.readFds
    requires Sound(ReadEnter(s, p))
    ensures Safe(ReadEnter(s, p))
  {
    hide Sound, ReadEnter;
    ReadEnterShape(s, p);
    var t := ReadEnter(s, p);
    if s.off == |s.file| {
      assert Over(t);
    } else if !Guarded(s) {
      var q :| TakesAll(s, q) && Awake(s, q);
      assert q == p && TakesAll(t, p);
      IdleIsAwake(t, p);
    }
  }

  // ... and reads on.
  lemma ChunkSafe(s: State, p: nat)
    requires Sound(s) && Safe(s) && s.writeFds == {} && IsReading(s, p) && (p, s.procs[p].act.fd) in s.readFds
    requires Sound(ReadChunk(s, p)) && Kept(ReadChunk(s, p))
    requires forall q :: q in s.procs && q != p ==> !s.procs[q].act.Reading?
    ensures Safe(ReadChunk(s, p))
  {
    hide Sound, ReadChunk, InOrder, ReaderExact;
    ReadChunkShape(s, p);
    var t := ReadChunk(s, p);
    if !Guarded(s) {
      var q :| TakesAll(s, q) && Awake(s, q);
      assert q == p;
      if IsReading(t, p) {
        assert TakesAll(t, p);
        IdleIsAwake(t, p);
      } else {
        assert NoReader(t);
      }
    }
  }

  lemma SoundTyped(s: State)
    requires Sound(s)
    ensures Typed(s)
  {
  }

  lemma IdleIsAwake(s: State, p: nat)
    requires Sound(s) && p in s.procs && (s.procs[p].act.Idle? || Inside(s.procs[p].act))
    ensures Awake(s, p)
  {
    assert ProcOk(s, p);
  }

  lemma ReaderSafe(s: State, e: Event)
    requires Sound(s) && Typed(s) && Exact(s) && Enabled(s, e) && OfReader(s, e) && s.writeFds == {}
    requires Sound(Apply(s, e))
    ensures Safe(Apply(s, e))
  {
    hide Sound, Typed, ReadEnter, ReadChunk, Safe;
    var p := e.p;
    HasFd(s, p);
    if s.procs[p].act.Reading? {
      OneReader(s, p);
      ReadChunkKept(s, p);
      ChunkSafe(s, p);
    } else {
      NobodyReads(s, p);
      EnterSafe(s, p);
    }
  }

  lemma HasFd(s: State, p: nat)
    requires Sound(s) && p in s.procs && InRead(s.procs[p].act)
    ensures (p, s.procs[p].act.fd) in s.readFds
  {
    assert ProcOk(s, p);
  }

  lemma LastWriteSafe(s: State, e: Event)
    requires Inv(s) && Exact(s) && LastWrite(s, e) && !Hazard(s, e) && Sound(Moved(s, e)) && s.readFds != {}
    ensures Safe(Moved(s, e))
  {
    hide Sound, Moved, InOrder;
    LastWriteEmpties(s, e);
    BothGuarded(s);
    ReadsSomething(s);
    var t := Moved(s, e);
    if s.lock == None {
      assert Guarded(t);
    } else if q :| TakesAll(s, q) {
      assert TakesAll(t, q);
      AllAwake(t, q);
    } else {
      assert Over(t);
    }
  }

  lemma ReadsSomething(s: State)
    requires Kept(s) && Fetching(s)
    ensures s.off >= |s.file| ==> NoReader(s)
  {
    forall p | p in s.procs && s.procs[p].act.Reading? ensures s.off < |s.file| {
      assert ReaderExact(s, s.procs[p].act);
    }
  }

  lemma BothGuarded(s: State)
    requires Sound(s) && s.readFds != {} && s.writeFds != {}
    ensures Guarded(s)
  {
  }

  lemma AllAwake(s: State, q: nat)
    requires Sound(s) && s.lock == None && s.writeFds == {} && q in s.procs
    ensures Awake(s, q) && !InWrite(s.procs[q].act)
  {
    assert ProcOk(s, q);
  }

  lemma StepSafe(s: State, e: Event)
    requires Inv(s) && Exact(s) && !Hazard(s, e)
    ensures Safe(Moved(s, e))
  {
    hide Sound, Fetching, Kept, Safe, Typed, Hazard, Apply, Enabled, OfReader;
    StepInv(s, e);
    var t := Moved(s, e);
    if t.readFds == {} || t.writeFds != {} {
      BothEnds(t);
    } else if !(Typed(s) && Enabled(s, e)) {
    } else if s.writeFds != {} {
      LastWriteIs(s, e);
      LastWriteSafe(s, e);
    } else if OfReader(s, e) {
      ReaderSafe(s, e);
    } else {
      QuietSafe(s, e);
    }
  }

  lemma QuietSafe(s: State, e: Event)
    requires Sound(s) && Typed(s) && Enabled(s, e) && !OfReader(s, e) && s.writeFds == {} && Safe(s)
    requires Apply(s, e).readFds != {}
    ensures Safe(Apply(s, e))
  {
    hide Sound, Typed, Apply, Enabled, OfReader, TakesAll;
    if Guarded(s) {
      QuietGuarded(s, e);
    } else if Finishing(s) {
      var q :| TakesAll(s, q) && Awake(s, q);
      QuietFinishing(s, e, q);
    } else if s.off == |s.file| {
      QuietOver(s, e);
    } else {
      NoReadFds(s, e);
    }
  }

  lemma NoReadFds(s: State, e: Event)
    requires Sound(s) && Typed(s) && Enabled(s, e) && !OfReader(s, e) && s.writeFds == {} && s.readFds == {}
    ensures Apply(s, e).readFds == {}
  {
    hide Flow, Shares, Locking, Typed, Closed, WriteEnter, WriteChunk, Release;
    QuietShape(s, e);
  }

  // The writers go with their last reference.
  lemma LastWriteIs(s: State, e: Event)
    requires Sound(s) && Typed(s) && Enabled(s, e) && s.writeFds != {} && Apply(s, e).writeFds == {}
    requires Apply(s, e).readFds != {}
    ensures LastWrite(s, e) && s.readFds != {}
  {
    hide Sound, Typed, ReadEnter, ReadChunk, WriteEnter, WriteChunk, Closed, Release;
    FdsStay(s, e);
    if e.CloseWrite? {
      ClosedShape(s, s.readFds, s.writeFds - {(e.p, e.fd)});
    }
    if e.CloseRead? {
      ClosedShape(s, s.readFds - {(e.p, e.fd)}, s.writeFds);
    }
  }

  lemma FdsStay(s: State, e: Event)
    requires Sound(s) && Typed(s) && Enabled(s, e)
    ensures e.CloseRead? || e.CloseWrite? || e.Dup? || SameFds(s, Apply(s, e))
  {
    hide Sound, Typed, ReadEnter, ReadChunk, WriteEnter, WriteChunk, Closed, Release;
    match e {
      case ReadStep(p) =>
        if s.procs[p].act.Reading? {
          ReadChunkShape(s, p);
        } else if s.lock == None {
          ReadEnterShape(s, p);
        }
      case WriteStep(p) =>
        TypedFacts(s, p);
        if s.procs[p].act.Writing? {
          WriteChunkShape(s, p);
        } else if s.lock == None {
          WriteEnterShape(s, p);
        }
      case SyncDone => ReleaseProcs(s);
      case _ =>
    }
  }

  lemma StepExact(s: State, e: Event)
    requires Inv(s) && Exact(s) && !Hazard(s, e)
    ensures Exact(Moved(s, e))
  {
    hide Sound, Fetching, Kept, Safe, Hazard, Moved;
    StepKept(s, e);
    StepSafe(s, e);
  }

  // ---- What runs keep ----

  // No close of a run is one that lets a second reader in.
  ghost predicate Careful(s: State, es: seq<Event>) {
    es == [] || (Careful(s, es[..|es| - 1]) && !Hazard(After(s, es[..|es| - 1]), es[|es| - 1]))
  }

  lemma {:induction false} CarefulExact(s: State, es: seq<Event>)
    requires Inv(s) && Exact(s) && Careful(s, es)
    ensures Exact(After(s, es))
  {
    hide Sound, Fetching, Exact, Moved, Hazard;
    if es != [] {
      CarefulExact(s, es[..|es| - 1]);
      AfterInv(s, es[..|es| - 1]);
      StepExact(After(s, es[..|es| - 1]), es[|es| - 1]);
    }
  }

  function Content(s: seq<Cell>): (r: seq<Byte>)
    ensures |r| == |s| && forall i :: 0 <= i < |s| ==> r[i] == s[i].byte
  {
    seq(|s|, i requires 0 <= i < |s| => s[i].byte)
  }

  function Bytes(sent: seq<(Byte, nat)>): (r: seq<Byte>)
    ensures |r| == |sent|
    ensures forall i :: 0 <= i < |sent| ==> r[i] == sent[i].0
  {
    seq(|sent|, i requires 0 <= i < |sent| => sent[i].0)
  }

  // Bytes come out in the order in which they went in, none lost and none twice; no more
  // than a pipeful is in between, in the file's first eight blocks.
  lemma BytesAreKept(p: nat, rfd: nat, wfd: nat, es: seq<Event>)
    requires Careful(Opened(p, rfd, wfd), es)
    ensures var s := After(Opened(p, rfd, wfd), es);
            && Content(s.received) <= Bytes(s.sent)
            && |s.sent| - |s.received| <= |s.file| <= PIPSIZ
            && (NoReader(s) ==> s.off <= |s.file| && Bytes(s.sent) == Content(s.received) + Content(s.file[s.off..]))
            && (forall i :: 0 <= i < |s.file| ==> i / 512 < 8)
  {
    hide Careful, After, Covered, Shares, Locking, Procs, Fetching;
    var s := After(Opened(p, rfd, wfd), es);
    RunInv(p, rfd, wfd, es);
    OpenedInv(p, rfd, wfd);
    CarefulExact(Opened(p, rfd, wfd), es);
    forall i | 0 <= i < |s.received| ensures i < |s.sent| && s.received[i].byte == s.sent[i].0 {
      assert s.received[i] in s.received;
    }
    assert |s.received| >= Base(s) by {
      if !NoReader(s) {
        var q :| q in s.procs && s.procs[q].act.Reading?;
        assert ReaderExact(s, s.procs[q].act);
      }
    }
  }

  // ---- The last close for writing ----

  lemma WritersGone(s: State, e: Event)
    requires Sound(s) && s.writeFds == {}
    ensures Moved(s, e).writeFds == {}
  {
    hide Sound, Typed, ReadEnter, ReadChunk, WriteEnter, WriteChunk, Closed, Release;
    if Typed(s) && Enabled(s, e) {
      FdsStay(s, e);
      match e {
        case CloseRead(p, fd) => ClosedShape(s, s.readFds - {(p, fd)}, s.writeFds);
        case CloseWrite(p, fd) => ClosedShape(s, s.readFds, s.writeFds - {(p, fd)});
        case _ =>
      }
    }
  }

  // Up to the last close for writing, every run is in order.
  lemma {:induction false} ExactUntilClosed(s: State, es: seq<Event>)
    requires Inv(s) && Exact(s) && After(s, es).writeFds != {}
    ensures Exact(After(s, es))
  {
    hide Sound, Fetching, Exact, Moved;
    if es != [] {
      var t := After(s, es[..|es| - 1]);
      var e := es[|es| - 1];
      AfterInv(s, es[..|es| - 1]);
      if t.writeFds == {} {
        WritersGone(t, e);
      } else {
        ExactUntilClosed(s, es[..|es| - 1]);
        if Hazard(t, e) {
          LastWriteEmpties(t, e);
        }
        StepExact(t, e);
      }
    }
  }

  lemma LastWriteEmpties(s: State, e: Event)
    requires Sound(s) && LastWrite(s, e)
    ensures var t := Moved(s, e);
            && t.writeFds == {} && Ends(t) < 2
            && (s.readFds != {} ==> t.lock == None)
            && t == s.(procs := t.procs, lock := t.lock, want := t.want, iread := false, iwrite := false,
                       writeFds := {})
            && SameActs(s, t)
  {
    hide Closed, Shares, Flow, Locking, Procs;
    ClosedShape(s, s.readFds, s.writeFds - {(e.p, e.fd)});
  }

  // After it, too, when no second reader can get in.
  lemma {:induction false} InOrderAfter(s: State, es: seq<Event>)
    requires Inv(s) && Exact(s) && s.writeFds == {}
    ensures Exact(After(s, es)) && After(s, es).writeFds == {}
  {
    hide Sound, Fetching, Exact, Moved;
    if es != [] {
      var t := After(s, es[..|es| - 1]);
      AfterInv(s, es[..|es| - 1]);
      InOrderAfter(s, es[..|es| - 1]);
      WritersGone(t, es[|es| - 1]);
      StepExact(t, es[|es| - 1]);
    }
  }

  // ---- A second reader ----

  lemma {:induction false} AfterMore(s: State, es: seq<Event>, fs: seq<Event>)
    ensures After(s, es + fs) == After(After(s, es), fs)
    decreases |fs|
  {
    hide Moved;
    if fs == [] {
      assert es + fs == es;
    } else {
      var n := |fs| - 1;
      AfterMore(s, es, fs[..n]);
      assert (es + fs)[..|es + fs| - 1] == es + fs[..n];
    }
  }

  lemma AfterTwo(s: State, e: Event, f: Event)
    ensures After(s, [e]) == Moved(s, e) && After(s, [e, f]) == Moved(Moved(s, e), f)
  {
    hide Moved;
    assert [e][..0] == [] && [e, f][..1] == [e];
  }

  // Nobody has the lock, no writer is left, and there is something to read.
  ghost predicate Readable(s: State) {
    Inv(s) && s.lock == None && s.writeFds == {} && s.off < |s.file| && |s.received| >= Base(s) + s.off
  }

  ghost predicate MayCall(s: State, b: nat, fd: nat) {
    b in s.procs && (b, fd) in s.readFds && (s.procs[b].act.Idle? || s.procs[b].act.ReadTop?)
  }

  ghost predicate Asks(s: State, b: nat) {
    Awake(s, b) && s.procs[b].act.ReadTop? && s.procs[b].act.count > 0
  }

  // Nothing changes but what b does.
  ghost predicate OnlyBy(s: State, t: State, b: nat) {
    && OthersAct(s, t, b) && t.file == s.file && t.off == s.off && t.sent == s.sent && t.received == s.received
    && SameFds(s, t) && t.sync == s.sync
  }

  // A process gets to plock.
  lemma ToTheLock(s: State, b: nat, fd: nat) returns (es: seq<Event>)
    requires Readable(s) && MayCall(s, b, fd)
    ensures var t := After(s, es);
            Readable(t) && OnlyBy(s, t, b) && MayCall(t, b, fd) && Asks(t, b)
  {
    hide Sound, Fetching, After, Moved, OthersAct;
    es := [];
    AfterNone(s);
    AllAwake(s, b);
    assert OnlyBy(s, s, b) by { ByNobody(s, b); }
    if s.procs[b].act.ReadTop? && s.procs[b].act.count == 0 {
      es := [ReadStep(b), Read(b, fd, 1)];
      ReadNothing(s, b, fd);
      AfterTwo(s, es[0], es[1]);
      var t := Moved(s, es[0]);
      CallAgain(t, b, fd);
      ByTwice(s, t, Moved(t, es[1]), b);
    } else if s.procs[b].act.Idle? {
      es := [Read(b, fd, 1)];
      AfterTwo(s, es[0], es[0]);
      CallAgain(s, b, fd);
    }
  }

  lemma AfterNone(s: State)
    ensures After(s, []) == s
  {
  }

  lemma ByNobody(s: State, b: nat)
    requires b in s.procs
    ensures OnlyBy(s, s, b)
  {
  }

  lemma ByTwice(s: State, t: State, u: State, b: nat)
    requires OnlyBy(s, t, b) && OnlyBy(t, u, b)
    ensures OnlyBy(s, u, b)
  {
  }

  lemma ReadNothing(s: State, b: nat, fd: nat)
    requires Readable(s) && MayCall(s, b, fd) && Awake(s, b)
    requires s.procs[b].act.ReadTop? && s.procs[b].act.count == 0
    ensures var t := Moved(s, ReadStep(b));
            Readable(t) && OnlyBy(s, t, b) && MayCall(t, b, fd) && t.procs[b].act.Idle?
  {
    hide Sound, Fetching, ReadEnter, Typed;
    SoundTyped(s);
    StepInv(s, ReadStep(b));
    ReadEnterShape(s, b);
  }

  lemma CallAgain(s: State, b: nat, fd: nat)
    requires Readable(s) && MayCall(s, b, fd) && s.procs[b].act.Idle?
    ensures var t := Moved(s, Read(b, fd, 1));
            Readable(t) && OnlyBy(s, t, b) && MayCall(t, b, fd) && Asks(t, b)
  {
    hide Sound, Fetching, Typed;
    SoundTyped(s);
    StepInv(s, Read(b, fd, 1));
  }

  // Process a waits for a block and has no lock, and process b gets in: both copy the same
  // byte.
  lemma BothRead(s: State, a: nat, b: nat)
    requires Readable(s) && IsReading(s, a) && a != b && Asks(s, b)
    ensures !InOrder(After(s, [ReadStep(b), ReadStep(a), ReadStep(b)]))
  {
    hide Sound, Fetching, Moved, After, InOrder;
    var es := [ReadStep(b), ReadStep(a), ReadStep(b)];
    assert es == [es[0], es[1]] + [es[2]];
    AfterMore(s, [es[0], es[1]], [es[2]]);
    AfterTwo(s, es[0], es[1]);
    AfterTwo(After(s, [es[0], es[1]]), es[2], es[2]);
    var t := Moved(s, es[0]);
    GoesIn(s, b);
    StepInv(s, es[0]);
    PartNotEmpty(s, a);
    var u := Moved(t, es[1]);
    OneCopies(t, a);
    StepInv(t, es[1]);
    OneCopies(u, b);
    var i := |u.received|;
    assert Moved(u, es[2]).received[i] == t.procs[b].act.part[0];
    NotInOrder(Moved(u, es[2]), i);
  }

  lemma NotInOrder(s: State, i: nat)
    requires i < |s.received| && s.received[i].number != i
    ensures !InOrder(s)
  {
  }

  // A process goes in and waits for the block with the next byte.
  lemma GoesIn(s: State, b: nat)
    requires Readable(s) && Asks(s, b)
    ensures var t := Moved(s, ReadStep(b));
            var count := s.procs[b].act.count;
            && OnlyBy(s, t, b) && IsReading(t, b) && t.procs[b].act.part != []
            && t.procs[b].act.part[0].number == Base(s) + s.off
            && t.procs[b].act.pos == s.off && s.off + |t.procs[b].act.part| + t.procs[b].act.left == s.off + count
  {
    hide ReadEnter, Shares, Procs, Locking, Covered, Genuine;
    ReadEnterShape(s, b);
  }

  lemma OneCopies(s: State, p: nat)
    requires Sound(s) && IsReading(s, p)
    ensures var t := Moved(s, ReadStep(p));
            OthersAct(s, t, p) && t.received == s.received + s.procs[p].act.part
  {
    hide Sound, Typed, ReadChunk;
    SoundTyped(s);
    IdleIsAwake(s, p);
    ReadChunkShape(s, p);
  }

  lemma SecondReader(s: State, a: nat, b: nat, fd: nat) returns (es: seq<Event>)
    requires Readable(s) && IsReading(s, a) && a != b && MayCall(s, b, fd)
    ensures !InOrder(After(s, es))
  {
    hide Inv, After, InOrder;
    var before := ToTheLock(s, b, fd);
    BothRead(After(s, before), a, b);
    var more := [ReadStep(b), ReadStep(a), ReadStep(b)];
    AfterMore(s, before, more);
    es := before + more;
  }

  // ---- update gives up a lock that is no longer its own ----

  // update is at work without the lock, and nobody reads.
  ghost predicate Adrift(s: State) {
    Readable(s) && s.sync && NoReader(s)
  }

  // Two processes may read: one goes in, update takes its lock away, the other one follows.
  lemma TwoAdrift(s: State, a: nat, fa: nat, b: nat, fb: nat) returns (es: seq<Event>)
    requires Adrift(s) && a != b && (a, fa) in s.readFds && (b, fb) in s.readFds
    ensures !InOrder(After(s, es))
  {
    hide Inv, After, InOrder, Moved;
    Callers(s, a, fa);
    Callers(s, b, fb);
    var before := ToTheLock(s, a, fa);
    var t := After(s, before);
    GoesIn(t, a);
    var u := Moved(t, ReadStep(a));
    LockGone(t, a);
    var v := Moved(u, SyncDone);
    var more := SecondReader(v, a, b, fb);
    AfterTwo(t, ReadStep(a), SyncDone);
    AfterMore(s, before, [ReadStep(a), SyncDone]);
    AfterMore(s, before + [ReadStep(a), SyncDone], more);
    es := before + [ReadStep(a), SyncDone] + more;
  }

  lemma Callers(s: State, b: nat, fd: nat)
    requires Adrift(s) && (b, fd) in s.readFds
    ensures MayCall(s, b, fd) && Awake(s, b)
  {
    hide Typed, Flow, Shares, Locking, Fetching;
    AllAwake(s, b);
  }

  lemma LockGone(s: State, a: nat)
    requires Readable(s) && Asks(s, a) && s.sync
    ensures var t := Moved(s, ReadStep(a));
            var u := Moved(t, SyncDone);
            Readable(u) && SameActs(t, u) && SameFds(t, u)
  {
    hide Sound, Fetching, Moved;
    GoesIn(s, a);
    StepInv(s, ReadStep(a));
    var t := Moved(s, ReadStep(a));
    StepInv(t, SyncDone);
    SyncEnds(t);
  }

  lemma SyncEnds(s: State)
    requires Sound(s) && s.sync
    ensures var t := Moved(s, SyncDone);
            t == s.(procs := t.procs, lock := None, want := false, sync := false) && SameActs(s, t)
  {
    hide Release, Sound, Typed;
    SoundTyped(s);
    ReleaseProcs(s);
  }

  // One process may read, and makes another one.
  lemma OneAdrift(s: State, q: nat, fd: nat) returns (es: seq<Event>)
    requires Adrift(s) && (q, fd) in s.readFds && q in s.procs && s.procs[q].act.Idle?
    ensures !InOrder(After(s, es))
  {
    hide Inv, After, InOrder, Moved, NoReader;
    var n := Bound(s.procs.Keys);
    NewReader(s, q, fd, n);
    var more := TwoAdrift(Moved(s, Dup(q, fd, n, fd)), q, fd, n, fd);
    AfterTwo(s, Dup(q, fd, n, fd), SyncDone);
    AfterMore(s, [Dup(q, fd, n, fd)], more);
    es := [Dup(q, fd, n, fd)] + more;
  }

  lemma NewReader(s: State, q: nat, fd: nat, n: nat)
    requires Adrift(s) && (q, fd) in s.readFds && q in s.procs && s.procs[q].act.Idle? && n !in s.procs
    ensures var t := Moved(s, Dup(q, fd, n, fd));
            Adrift(t) && (q, fd) in t.readFds && (n, fd) in t.readFds
  {
    hide Typed, Flow, Shares, Locking, Fetching;
    SoundTyped(s);
    StepInv(s, Dup(q, fd, n, fd));
  }

  lemma {:induction false} Bound(a: set<nat>) returns (m: nat)
    ensures forall x :: x in a ==> x < m
  {
    m := 0;
    if a != {} {
      var x :| x in a;
      var k := Bound(a - {x});
      m := if k > x then k else x + 1;
      forall y | y in a ensures y < m {
        assert y == x || y in a - {x};
      }
    }
  }

  // The only process that may read does so, and its call leaves something.
  ghost predicate Busy(s: State, a: nat, fd: nat) {
    && Inv(s) && s.sync && s.writeFds == {} && IsReading(s, a) && (a, fd) in s.readFds
    && (forall q :: q in s.procs && q != a ==> !s.procs[q].act.Reading?)
    && s.procs[a].act.pos + |s.procs[a].act.part| + s.procs[a].act.left < |s.file|
    && |s.received| >= Base(s) + s.procs[a].act.pos
  }

  lemma {:induction false} FinishCall(s: State, a: nat, fd: nat) returns (es: seq<Event>)
    requires Busy(s, a, fd)
    ensures var t := After(s, es); Adrift(t) && (a, fd) in t.readFds && a in t.procs && t.procs[a].act.Idle?
    decreases s.procs[a].act.left
  {
    hide Inv, After, Moved, NoReader, Base;
    var t := Moved(s, ReadStep(a));
    AfterTwo(s, ReadStep(a), ReadStep(a));
    OneBlockOn(s, a, fd);
    es := [ReadStep(a)];
    if IsReading(t, a) {
      var more := FinishCall(t, a, fd);
      AfterMore(s, es, more);
      es := es + more;
    }
  }

  lemma OneBlockOn(s: State, a: nat, fd: nat)
    requires Busy(s, a, fd)
    ensures var t := Moved(s, ReadStep(a));
            if IsReading(t, a) then Busy(t, a, fd) && t.procs[a].act.left < s.procs[a].act.left
            else Adrift(t) && (a, fd) in t.readFds && a in t.procs && t.procs[a].act.Idle?
  {
    hide Sound, Fetching, ReadChunk, Typed;
    SoundTyped(s);
    IdleIsAwake(s, a);
    StepInv(s, ReadStep(a));
    ReadChunkShape(s, a);
  }

  // The only process that may read has called, and will leave something.
  lemma CallLeaves(s: State, q: nat, fd: nat) returns (es: seq<Event>)
    requires Adrift(s) && MayCall(s, q, fd) && Awake(s, q)
    requires s.procs[q].act.ReadTop? && s.off + s.procs[q].act.count < |s.file|
    ensures !InOrder(After(s, es))
  {
    hide Inv, After, InOrder, Moved;
    var t := Moved(s, ReadStep(q));
    es := [ReadStep(q)];
    AfterTwo(s, ReadStep(q), ReadStep(q));
    var more;
    if s.procs[q].act.count == 0 {
      ReadNothing(s, q, fd);
      more := OneAdrift(t, q, fd);
    } else {
      GoesIn(s, q);
      NowBusy(s, q, fd);
      var rest := FinishCall(t, q, fd);
      more := OneAdrift(After(t, rest), q, fd);
      AfterMore(t, rest, more);
      more := rest + more;
    }
    AfterMore(s, es, more);
    es := es + more;
  }

  lemma NowBusy(s: State, q: nat, fd: nat)
    requires Adrift(s) && MayCall(s, q, fd) && Asks(s, q) && s.off + s.procs[q].act.count < |s.file|
    ensures Busy(Moved(s, ReadStep(q)), q, fd)
  {
    hide Sound, Fetching, Moved;
    GoesIn(s, q);
    StepInv(s, ReadStep(q));
  }

  // ---- After the last close for writing ----

  // Some continuation is not in order.
  lemma TwoReaders(s: State, e: Event) returns (es: seq<Event>)
    requires Inv(s) && Exact(s) && Hazard(s, e)
    ensures !InOrder(After(Moved(s, e), es))
  {
    hide Sound, Fetching, Kept, Safe, Moved, After, InOrder, TakesAll;
    var t := Moved(s, e);
    NowReadable(s, e);
    if a :| a in s.procs && s.procs[a].act.Reading? {
      es := WhileReading(s, e, a);
    } else {
      es := WhileSyncing(s, e);
    }
  }

  lemma NowReadable(s: State, e: Event)
    requires Inv(s) && Exact(s) && LastWrite(s, e) && s.readFds != {} && s.off < |s.file|
    ensures var t := Moved(s, e);
            && Readable(t) && SameActs(s, t) && t.sync == s.sync && t.file == s.file && t.off == s.off
            && t.readFds == s.readFds && t.sent == s.sent && t.received == s.received
  {
    hide Sound, Fetching, Moved, InOrder, Safe;
    StepInv(s, e);
    LastWriteEmpties(s, e);
    if a :| a in s.procs && s.procs[a].act.Reading? {
      assert ReaderExact(s, s.procs[a].act);
    }
  }

  lemma WhileReading(s: State, e: Event, a: nat) returns (es: seq<Event>)
    requires Inv(s) && Exact(s) && Hazard(s, e) && IsReading(s, a)
    ensures !InOrder(After(Moved(s, e), es))
  {
    hide Sound, Fetching, Moved, After, InOrder, Safe;
    var t := Moved(s, e);
    NowReadable(s, e);
    BothGuarded(s);
    HasFd(s, a);
    if x :| x in s.readFds && x.0 != a {
      Owners(t, x.0);
      es := SecondReader(t, a, x.0, x.1);
    } else {
      var fd := s.procs[a].act.fd;
      assert !TakesAll(s, a);
      SyncStarts(t);
      var u := Moved(t, Sync);
      assert ReaderExact(s, s.procs[a].act);
      assert Busy(u, a, fd);
      var rest := FinishCall(u, a, fd);
      var more := OneAdrift(After(u, rest), a, fd);
      AfterMore(u, rest, more);
      AfterTwo(t, Sync, Sync);
      AfterMore(t, [Sync], rest + more);
      es := [Sync] + (rest + more);
    }
  }

  lemma Owners(s: State, b: nat)
    requires Readable(s) && (exists x :: x in s.readFds && x.0 == b)
    requires b in s.procs ==> !s.procs[b].act.Reading?
    ensures b in s.procs && (s.procs[b].act.Idle? || s.procs[b].act.ReadTop?)
  {
    hide Typed, Flow, Shares, Locking, Fetching;
    AllAwake(s, b);
  }

  lemma SyncStarts(s: State)
    requires Readable(s) && s.readFds != {} && !s.sync
    ensures var t := Moved(s, Sync);
            Inv(t) && t == s.(lock := Some(Update), sync := true)
  {
    hide Sound, Fetching, Typed;
    SoundTyped(s);
    StepInv(s, Sync);
  }

  lemma WhileSyncing(s: State, e: Event) returns (es: seq<Event>)
    requires Inv(s) && Exact(s) && Hazard(s, e) && NoReader(s)
    ensures !InOrder(After(Moved(s, e), es))
  {
    hide Sound, Fetching, Moved, After, InOrder, Safe, Kept;
    var t := Moved(s, e);
    NowReadable(s, e);
    HeldByUpdate(s, e);
    assert Adrift(t);
    var x :| x in s.readFds;
    Callers(t, x.0, x.1);
    if y :| y in s.readFds && y.0 != x.0 {
      es := TwoAdrift(t, x.0, x.1, y.0, y.1);
    } else if t.procs[x.0].act.Idle? {
      es := OneAdrift(t, x.0, x.1);
    } else {
      assert !TakesAll(s, x.0);
      es := CallLeaves(t, x.0, x.1);
    }
  }

  lemma HeldByUpdate(s: State, e: Event)
    requires Sound(s) && LastWrite(s, e) && s.lock.Some? && NoReader(s)
    ensures s.lock == Some(Update) && s.sync
  {
    hide Typed, Flow, Shares;
    HolderWrites(s);
  }

  lemma HolderWrites(s: State)
    requires Sound(s) && s.lock.Some? && NoReader(s)
    ensures s.lock.value.By? ==>
              var q := s.lock.value.pid;
              IsWriting(s, q) && (q, s.procs[q].act.fd) in s.writeFds
  {
    hide Typed, Flow, Shares;
    assert s.lock.value.By? ==> ProcOk(s, s.lock.value.pid);
  }

  lemma PartNotEmpty(s: State, p: nat)
    requires Fetching(s) && IsReading(s, p)
    ensures s.procs[p].act.part != []
  {
  }

  lemma LastCloseState(s: State, e: Event)
    requires Inv(s) && Exact(s) && LastWrite(s, e)
    ensures (forall es :: InOrder(After(Moved(s, e), es))) <==> !Hazard(s, e)
  {
    hide Sound, Fetching, Exact, Moved, InOrder, Hazard, After;
    var t := Moved(s, e);
    if Hazard(s, e) {
      var es := TwoReaders(s, e);
    } else {
      StepInv(s, e);
      StepExact(s, e);
      LastWriteEmpties(s, e);
      forall es ensures InOrder(After(t, es)) {
        InOrderAfter(t, es);
        ExactInOrder(After(t, es));
      }
    }
  }

  lemma ExactInOrder(s: State)
    requires Exact(s)
    ensures InOrder(s)
  {
  }

  lemma OpenedExact(p: nat, rfd: nat, wfd: nat)
    ensures Exact(Opened(p, rfd, wfd))
  {
  }

  // After any run, the last close for writing leaves every continuation in order if and only
  // if at that time nobody has the pipe locked, or there is nothing to read or nobody to read
  // it, or one process alone may read and its call takes it all.
  lemma LastCloseExactly(p: nat, rfd: nat, wfd: nat, es: seq<Event>, e: Event)
    requires LastWrite(After(Opened(p, rfd, wfd), es), e)
    ensures var s := After(Opened(p, rfd, wfd), es);
            (forall more :: InOrder(After(Moved(s, e), more))) <==> !Hazard(s, e)
  {
    hide Inv, Exact, Moved, InOrder, Hazard, After;
    OpenedInv(p, rfd, wfd);
    OpenedExact(p, rfd, wfd);
    RunInv(p, rfd, wfd, es);
    ExactUntilClosed(Opened(p, rfd, wfd), es);
    LastCloseState(After(Opened(p, rfd, wfd), es), e);
  }

  // ---- A run in which a byte comes out twice ----

  lemma AfterThree(s: State, e: Event, f: Event, g: Event)
    ensures After(s, [e, f, g]) == Moved(Moved(Moved(s, e), f), g)
  {
    hide Moved;
    AfterTwo(s, e, f);
    assert [e, f, g][..2] == [e, f];
  }

  // Process 1 alone, with one byte in the pipe or none.
  function OneProc(lock: Option<Holder>, one: Activity, past: seq<Byte>, sent: seq<(Byte, nat)>,
                   file: seq<Cell>): State {
    State(file, 0, lock, false, false, false, false, {(1, 3)}, {(1, 4)}, map[1 := Proc(one, None, past)], sent, [])
  }

  lemma OneTagged()
    ensures Tagged([7], 1) == [(7, 1)] && Cells([7], 0) == [Cell(7, 0)]
  {
    assert [7][..0] == [];
  }

  lemma OneIn(t: State)
    requires t == OneProc(Some(By(1)), Writing(4, [7], 0, 1), [], [], [])
    ensures CopyIn(t, 1, 1) == OneProc(Some(By(1)), Writing(4, [7], 1, 1), [], [(7, 1)], [Cell(7, 0)])
  {
    hide Tagged, Cells;
    OneTagged();
    assert [7][0..1] == [7];
  }

  lemma OneOut(t: State)
    requires t == OneProc(None, WriteTop(4, [7], 1), [], [(7, 1)], [Cell(7, 0)])
    ensures WriteEnter(t, 1) == OneProc(None, Idle(Completed), [7], [(7, 1)], [Cell(7, 0)])
  {
    assert Release(t) == t;
    assert [] + [7][..1] == [7];
    assert Return(t, 1, Completed).procs[1] == Proc(Idle(Completed), None, [7]);
  }

  lemma OneBlock(t: State)
    requires t == OneProc(Some(By(1)), Writing(4, [7], 0, 1), [], [], [])
    ensures Typed(t) && WriteChunk(t, 1) == OneProc(None, Idle(Completed), [7], [(7, 1)], [Cell(7, 0)])
  {
    hide CopyIn, WriteEnter;
    OneIn(t);
    var u := OneProc(Some(By(1)), Writing(4, [7], 1, 1), [], [(7, 1)], [Cell(7, 0)]);
    var v := OneProc(None, WriteTop(4, [7], 1), [], [(7, 1)], [Cell(7, 0)]);
    assert LeaveWriting(u, 1) == v;
    OneOut(v);
  }

  lemma OneCall()
    ensures Moved(Moved(Opened(1, 3, 4), Write(1, 4, [7])), WriteStep(1))
            == OneProc(Some(By(1)), Writing(4, [7], 0, 1), [], [], [])
  {
    hide WriteChunk;
    assert Moved(Opened(1, 3, 4), Write(1, 4, [7])) == OneProc(None, WriteTop(4, [7], 0), [], [], []);
  }

  lemma ByteGoesIn()
    ensures After(Opened(1, 3, 4), [Write(1, 4, [7]), WriteStep(1), WriteStep(1)])
            == OneProc(None, Idle(Completed), [7], [(7, 1)], [Cell(7, 0)])
  {
    hide After, WriteChunk, Typed;
    AfterThree(Opened(1, 3, 4), Write(1, 4, [7]), WriteStep(1), WriteStep(1));
    OneCall();
    OneBlock(OneProc(Some(By(1)), Writing(4, [7], 0, 1), [], [], []));
  }

  // Processes 1 and 2, which share the reading end.
  function TwoProcs(off: nat, lock: Option<Holder>, writeFds: set<(nat, nat)>, one: Activity, two: Activity,
                    out: seq<Cell>): State {
    State([Cell(7, 0)], off, lock, false, false, false, false, {(1, 3), (2, 3)}, writeFds,
      map[1 := Proc(one, None, [7]), 2 := Proc(two, None, [])], [(7, 1)], out)
  }

  const Waits := Reading(3, 0, [Cell(7, 0)], 0)

  lemma Shared(s: State)
    requires s == OneProc(None, Idle(Completed), [7], [(7, 1)], [Cell(7, 0)])
    ensures Moved(s, Dup(1, 3, 2, 3)) == TwoProcs(0, None, {(1, 4)}, Idle(Completed), Idle(Fresh), [])
  {
  }

  lemma SecondCalls(s: State)
    requires s == TwoProcs(0, None, {(1, 4)}, Idle(Completed), Idle(Fresh), [])
    ensures Moved(s, Read(2, 3, 1)) == TwoProcs(0, None, {(1, 4)}, Idle(Completed), ReadTop(3, 1), [])
  {
  }

  lemma SecondWaits(s: State)
    requires s == TwoProcs(0, None, {(1, 4)}, Idle(Completed), ReadTop(3, 1), [])
    ensures Moved(s, ReadStep(2)) == TwoProcs(0, Some(By(2)), {(1, 4)}, Idle(Completed), Waits, [])
  {
    assert [Cell(7, 0)][0..1] == [Cell(7, 0)];
  }

  lemma LastWriterCloses(s: State)
    requires s == TwoProcs(0, Some(By(2)), {(1, 4)}, Idle(Completed), Waits, [])
    ensures Moved(s, CloseWrite(1, 4)) == TwoProcs(0, None, {}, Idle(Completed), Waits, [])
  {
    assert Closing(s) == s;
  }

  lemma FirstWaits(s: State)
    requires s == TwoProcs(0, None, {}, ReadTop(3, 1), Waits, [])
    ensures Moved(s, ReadStep(1)) == TwoProcs(0, Some(By(1)), {}, Waits, Waits, [])
  {
    assert [Cell(7, 0)][0..1] == [Cell(7, 0)];
  }

  lemma FirstCalls(s: State)
    requires s == TwoProcs(0, None, {}, Idle(Completed), Waits, [])
    ensures Moved(s, Read(1, 3, 1)) == TwoProcs(0, None, {}, ReadTop(3, 1), Waits, [])
  {
  }

  lemma SecondCopies(s: State)
    requires s == TwoProcs(0, Some(By(1)), {}, Waits, Waits, [])
    ensures Moved(s, ReadStep(2)) == TwoProcs(1, None, {}, Waits, Idle(Completed), [Cell(7, 0)])
  {
    var t := TwoProcs(0, Some(By(1)), {}, Waits, Reading(3, 1, [], 0), [Cell(7, 0)]);
    assert CopyOut(s, 2) == t;
    var u := t.(off := 1, lock := None);
    assert Release(t.(off := 1)) == u;
    assert Return(u, 2, Completed).procs[2] == Proc(Idle(Completed), None, []);
    assert Return(u, 2, Completed) == TwoProcs(1, None, {}, Waits, Idle(Completed), [Cell(7, 0)]);
  }

  lemma BothCopy(s: State)
    requires s == TwoProcs(0, Some(By(1)), {}, Waits, Waits, [])
    ensures var t := Moved(Moved(s, ReadStep(2)), ReadStep(1));
            t.received == [Cell(7, 0), Cell(7, 0)] && t.sent == [(7, 1)]
  {
    hide ReadChunk;
    SecondCopies(s);
    var t := TwoProcs(1, None, {}, Waits, Idle(Completed), [Cell(7, 0)]);
    ReadChunkShape(t, 1);
  }

  const Before: seq<Event> := [Write(1, 4, [7]), WriteStep(1), WriteStep(1)]
  const Second: seq<Event> := [Dup(1, 3, 2, 3), Read(2, 3, 1), ReadStep(2)]
  const First: seq<Event> := [CloseWrite(1, 4), Read(1, 3, 1), ReadStep(1)]
  const Both: seq<Event> := [ReadStep(2), ReadStep(1)]

  // Process 2 waits for its block when process 1 closes the last reference for writing; then
  // process 1 reads, too, and each gets the one byte that was written.
  lemma OneByteTwice()
    ensures var s := After(Opened(1, 3, 4), Before + Second + First + Both);
            Bytes(s.sent) == [7] && Content(s.received) == [7, 7]
  {
    hide After, Moved, OneProc, TwoProcs;
    ByteGoesIn();
    var s := OneProc(None, Idle(Completed), [7], [(7, 1)], [Cell(7, 0)]);
    AfterThree(s, Second[0], Second[1], Second[2]);
    Shared(s);
    SecondCalls(Moved(s, Second[0]));
    SecondWaits(TwoProcs(0, None, {(1, 4)}, Idle(Completed), ReadTop(3, 1), []));
    var t := TwoProcs(0, Some(By(2)), {(1, 4)}, Idle(Completed), Waits, []);
    AfterThree(t, First[0], First[1], First[2]);
    LastWriterCloses(t);
    FirstCalls(Moved(t, First[0]));
    FirstWaits(TwoProcs(0, None, {}, ReadTop(3, 1), Waits, []));
    var u := TwoProcs(0, Some(By(1)), {}, Waits, Waits, []);
    AfterTwo(u, Both[0], Both[1]);
    BothCopy(u);
    AfterMore(Opened(1, 3, 4), Before, Second);
    AfterMore(Opened(1, 3, 4), Before + Second, First);
    AfterMore(Opened(1, 3, 4), Before + Second + First, Both);
  }
}
