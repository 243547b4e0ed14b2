// What calls on a pipe come to (ken/pipe.c:55-178): when a process goes in, sleeps or returns,
// and with what.
module PipeCalls {
  import opened Wrappers
  import opened Machine
  import opened Pipe

  // Process p is asleep on c in the call it was in.
  ghost predicate Waits(s: State, t: State, p: nat, c: Channel) {
    p in s.procs && p in t.procs && t.procs[p] == s.procs[p].(sleep := Some(c))
  }

  predicate StartsRead(s: State, p: nat) {
    p in s.procs && s.procs[p].act.ReadTop?
  }

  predicate StartsWrite(s: State, p: nat) {
    p in s.procs && s.procs[p].act.WriteTop? && s.procs[p].act.done <= |s.procs[p].act.data|
  }

  // ---- Readers ----

  // A read with the pipe unlocked takes the lock where there is something to read; else it
  // returns with nothing when it asks for nothing or an end is closed, and sleeps for data
  // when both are open.
  ghost predicate ReadEntered(s: State, t: State, p: nat)
    requires StartsRead(s, p)
  {
    var a := s.procs[p].act;
    && p in t.procs
    && if s.off < |s.file| && a.count > 0 then
         && t.lock == Some(By(p)) && t.file == s.file && t.off == s.off
         && t.procs[p].act.Reading? && t.procs[p].act.pos == s.off && t.procs[p].act.part != []
         && t.procs[p].act.part <= s.file[s.off..] && |t.procs[p].act.part| + t.procs[p].act.left == a.count
       else if s.off < |s.file| || Ends(s) < 2 then t.procs[p].act == Idle(Completed) && t.lock == None
       else Waits(s, t, p, Data) && t.iread && t.lock == None && t.file == []
  }

  // So does one that has to wait for the lock, when it has it.
  lemma ReadTurns(s: State, p: nat)
    requires Inv(s) && Typed(s) && Enabled(s, ReadStep(p)) && StartsRead(s, p)
    ensures var t := Apply(s, ReadStep(p));
            && t.received == s.received && t.sent == s.sent
            && if s.lock.Some? then Waits(s, t, p, Lock) && t.want && t.lock == s.lock else ReadEntered(s, t, p)
  {
    hide Sound, Typed, ReadEnter, ReadEntered;
    if s.lock == None {
      EnterTurns(s, p);
    }
  }

  lemma EnterTurns(s: State, p: nat)
    requires Inv(s) && StartsRead(s, p) && s.lock == None
    ensures var t := ReadEnter(s, p); t.received == s.received && t.sent == s.sent && ReadEntered(s, t, p)
  {
    hide Sound, ReadEnter, Ends;
    ReadEnterShape(s, p);
    AtEnd(s);
    if s.off == |s.file| {
      EmptyTurns(s, p);
    }
  }

  // Beyond the end there is nothing, and no writer.
  lemma AtEnd(s: State)
    requires Sound(s)
    ensures s.off > |s.file| ==> Ends(s) < 2
  {
    hide Latest, Shares, Procs, Typed, Locking;
  }

  lemma EmptyTurns(s: State, p: nat)
    requires Sound(s) && StartsRead(s, p) && s.lock == None && s.off == |s.file|
    ensures var t := ReadEnter(s, p);
            if Ends(s) < 2 then p in t.procs && t.procs[p].act == Idle(Completed)
            else Waits(s, t, p, Data) && t.iread
  {
    hide Sound, Reset, Release, Ends;
    ResetProcs(s);
    ReleaseProcs(Reset(s));
    EndsSame(s, Release(Reset(s)));
  }

  // A reader inside gets its part, which is not empty, and goes on with the next part until it
  // has all it asked for or is at the end.
  lemma ReadTakes(s: State, p: nat)
    requires Inv(s) && Typed(s) && Enabled(s, ReadStep(p)) && s.procs[p].act.Reading?
    ensures var t := Apply(s, ReadStep(p));
            var a := s.procs[p].act;
            var pos := a.pos + |a.part|;
            && p in t.procs && a.part != [] && t.received == s.received + a.part && t.file == s.file
            && if a.left > 0 && pos < |s.file| then
                 && t.lock == s.lock && t.procs[p].act.Reading? && t.procs[p].act.pos == pos
                 && t.procs[p].act.part <= s.file[pos..] && |t.procs[p].act.part| + t.procs[p].act.left == a.left
               else t.procs[p].act == Idle(Completed) && t.off == pos && t.lock == None
  {
    hide Sound, Typed, ReadChunk;
    ReadChunkShape(s, p);
  }

  // ---- Writers ----

  // A write with the pipe unlocked returns when it is done, fails when an end is closed, sleeps
  // when the pipe is full, and else takes the lock and puts in what there is room for.
  ghost predicate WriteEntered(s: State, t: State, p: nat)
    requires StartsWrite(s, p)
  {
    var a := s.procs[p].act;
    && p in t.procs && t.file == s.file
    && if a.done == |a.data| then t.procs[p].act == Idle(Completed) && t.lock == None
       else if Ends(s) < 2 then t.procs[p].act == Idle(Broken) && t.lock == None
       else if |s.file| == PIPSIZ then Waits(s, t, p, Space) && t.iwrite && t.lock == None
       else
         && t.lock == Some(By(p)) && t.procs[p].act.Writing? && t.procs[p].act.done == a.done < t.procs[p].act.upto
         && t.procs[p].act.data == a.data
         && (t.procs[p].act.upto == |a.data| || |s.file| + t.procs[p].act.upto - a.done == PIPSIZ)
  }

  lemma WriteTurns(s: State, p: nat)
    requires Inv(s) && Typed(s) && Enabled(s, WriteStep(p)) && StartsWrite(s, p)
    ensures var t := Apply(s, WriteStep(p));
            && t.sent == s.sent && t.received == s.received
            && if s.lock.Some? then Waits(s, t, p, Lock) && t.want && t.lock == s.lock else WriteEntered(s, t, p)
  {
    hide Sound, WriteEnter, WriteEntered;
    if s.lock == None {
      WriteEnterTurns(s, p);
    }
  }

  lemma WriteEnterTurns(s: State, p: nat)
    requires StartsWrite(s, p) && |s.file| <= PIPSIZ
    ensures WriteEntered(s, WriteEnter(s, p), p)
    ensures var t := WriteEnter(s, p);
            t.sent == s.sent && t.received == s.received && t.file == s.file && p in t.procs
  {
    hide Release, Ends, Return, StartWriting, Asleep;
    ReleaseProcs(s);
    ReturnShape(s, Release(s), p, Completed);
    ReturnShape(s, Release(s), p, Broken);
    FullTurns(s, p);
    StartWritingTurns(s, p);
  }

  lemma FullTurns(s: State, p: nat)
    requires p in s.procs
    ensures var t := Asleep(Release(s.(iwrite := true)), p, Space);
            && t == s.(iwrite := true, lock := None, want := false, procs := t.procs)
            && (s.procs[p].act.WriteTop? ==> Waits(s, t, p, Space))
  {
    hide Release;
    ReleaseProcs(s.(iwrite := true));
  }

  lemma StartWritingTurns(s: State, p: nat)
    requires StartsWrite(s, p) && |s.file| <= PIPSIZ
    ensures var t := StartWriting(s, p);
            var a := s.procs[p].act;
            && t == s.(lock := Some(By(p)), procs := t.procs) && p in t.procs
            && t.procs[p].act == Writing(a.fd, a.data, a.done, a.done + Min(|a.data| - a.done, PIPSIZ - |s.file|))
  {
  }

  // A writer inside puts in the next bytes of its data. When those it came in for are in, the
  // lock is free, nobody sleeps for data, and it goes on as from the start.
  lemma WritePuts(s: State, p: nat) returns (n: nat, u: State)
    requires Inv(s) && Typed(s) && Enabled(s, WriteStep(p)) && s.procs[p].act.Writing?
    ensures var t := Apply(s, WriteStep(p));
            var a := s.procs[p].act;
            && a.done + n <= a.upto <= |a.data|
            && t.file == s.file + Cells(a.data[a.done..a.done + n], |s.sent|)
            && t.sent == s.sent + Tagged(a.data[a.done..a.done + n], p) && t.received == s.received
            && p in t.procs && p in u.procs && u.file == t.file && Ends(u) == Ends(s)
            && if a.done + n < a.upto then n > 0 && t.lock == s.lock && t.procs[p].act == a.(done := a.done + n)
               else
                 && u.lock == None && !u.iread && u.procs[p].act == WriteTop(a.fd, a.data, a.upto)
                 && WriteEntered(u, t, p) && forall q :: q in u.procs ==> u.procs[q].sleep != Some(Data)
  {
    hide Sound, CopyIn, LeaveWriting, WriteEnter, WriteEntered, Cells, Tagged, Ends;
    TypedFacts(s, p);
    var a := s.procs[p].act;
    n := Min(512 - |s.file| % 512, a.upto - a.done);
    var t := CopyIn(s, p, n);
    CopiedIn(s, p, n);
    u := t;
    if a.done + n >= a.upto {
      u := LeaveWriting(t, p);
      LeaveWritingAct(t, p);
      NoneForData(s, t, p);
      WriteEnterTurns(u, p);
      EndsSame(s, u);
    }
    EndsSame(s, t);
  }

  lemma CopiedIn(s: State, p: nat, n: nat)
    requires IsWriting(s, p) && s.procs[p].act.done + n <= |s.procs[p].act.data|
    ensures var t := CopyIn(s, p, n);
            var a := s.procs[p].act;
            && t == s.(file := s.file + Cells(a.data[a.done..a.done + n], |s.sent|),
                       sent := s.sent + Tagged(a.data[a.done..a.done + n], p), procs := t.procs)
            && t.procs.Keys == s.procs.Keys && t.procs[p].act == a.(done := a.done + n)
            && forall q :: q in s.procs && q != p ==> t.procs[q] == s.procs[q]
  {
  }

  // Whoever sleeps for data has left the flag that wakes it.
  lemma NoneForData(s: State, t: State, p: nat)
    requires Sound(s) && IsWriting(t, p) && t.procs[p].act.done <= |t.procs[p].act.data|
    requires t.procs.Keys == s.procs.Keys && t.iread == s.iread
    requires forall q :: q in s.procs && q != p ==> t.procs[q] == s.procs[q]
    ensures var u := LeaveWriting(t, p); forall q :: q in u.procs ==> u.procs[q].sleep != Some(Data)
  {
    hide LeaveWriting, Flow, Locking, Shares, Typed, Ends;
    LeaveWritingShape(t, p);
    forall q | q in s.procs ensures s.procs[q].sleep == Some(Data) ==> s.iread {
      assert ProcOk(s, q);
    }
  }

  // ---- What a return means ----

  // A read for something that returns with nothing has come to the end of file: nobody has the
  // pipe open for writing, and all has been read.
  lemma EndOfFile(p: nat, rfd: nat, wfd: nat, es: seq<Event>, q: nat)
    requires var s := After(Opened(p, rfd, wfd), es); Enabled(s, ReadStep(q)) && StartsRead(s, q)
    requires var s := After(Opened(p, rfd, wfd), es);
             s.procs[q].act.count > 0 && q in Moved(s, ReadStep(q)).procs
             && Moved(s, ReadStep(q)).procs[q].act == Idle(Completed)
    ensures var s := After(Opened(p, rfd, wfd), es); s.writeFds == {} && s.off >= |s.file|
  {
    hide After, Sound, Apply, Enabled;
    RunInv(p, rfd, wfd, es);
    var s := After(Opened(p, rfd, wfd), es);
    IsTyped(s);
    ReadTurns(s, q);
    Attached(s, q);
  }

  lemma IsTyped(s: State)
    requires Sound(s)
    ensures Typed(s)
  {
  }

  lemma Attached(s: State, q: nat)
    requires Sound(s) && q in s.procs
    ensures InRead(s.procs[q].act) ==> s.readFds != {} && (Ends(s) < 2 <==> s.writeFds == {})
    ensures InWrite(s.procs[q].act) ==> s.writeFds != {} && (Ends(s) < 2 <==> s.readFds == {})
  {
    assert ProcOk(s, q);
  }

  // A write fails only when nobody has the pipe open for reading, and before all is written.
  lemma BrokenPipe(p: nat, rfd: nat, wfd: nat, es: seq<Event>, q: nat)
    requires var s := After(Opened(p, rfd, wfd), es); Enabled(s, WriteStep(q))
    requires var s := After(Opened(p, rfd, wfd), es);
             q in Moved(s, WriteStep(q)).procs && Moved(s, WriteStep(q)).procs[q].act == Idle(Broken)
    ensures After(Opened(p, rfd, wfd), es).readFds == {}
  {
    hide After, Sound, Apply, Enabled, WriteEntered;
    RunInv(p, rfd, wfd, es);
    var s := After(Opened(p, rfd, wfd), es);
    IsTyped(s);
    BrokenEnds(s, q);
    Attached(s, q);
  }

  lemma BrokenEnds(s: State, q: nat)
    requires Inv(s) && Typed(s) && Enabled(s, WriteStep(q))
    requires q in Apply(s, WriteStep(q)).procs && Apply(s, WriteStep(q)).procs[q].act == Idle(Broken)
    ensures q in s.procs && InWrite(s.procs[q].act) && Ends(s) < 2
  {
    hide Sound, Apply, Ends;
    TypedFacts(s, q);
    if s.procs[q].act.Writing? {
      var n, u := WritePuts(s, q);
    } else {
      WriteTurns(s, q);
    }
  }

  // A signal takes a process out of its sleep and its call, and nothing else.
  lemma Interrupts(s: State, p: nat)
    requires Inv(s) && Typed(s) && Enabled(s, Signal(p))
    ensures var t := Apply(s, Signal(p));
            && t == s.(procs := t.procs) && t.procs.Keys == s.procs.Keys
            && t.procs[p].act == Idle(Interrupted) && t.procs[p].sleep == None
            && forall q :: q in s.procs && q != p ==> t.procs[q] == s.procs[q]
  {
    hide Inv, Typed;
  }

  // ---- Closes and copies of descriptors ----

  // A close takes one descriptor away and gets everybody who sleeps for data or space to look
  // again; with the last one of an end the lock is gone, and otherwise it stays.
  lemma CloseTakes(s: State, e: Event)
    requires Inv(s) && Typed(s) && Enabled(s, e) && (e.CloseRead? || e.CloseWrite?)
    ensures var t := Apply(s, e);
            && SameData(s, t) && SameActs(s, t)
            && (e.CloseRead? ==> t.readFds == s.readFds - {(e.p, e.fd)} && t.writeFds == s.writeFds)
            && (e.CloseWrite? ==> t.writeFds == s.writeFds - {(e.p, e.fd)} && t.readFds == s.readFds)
            && (forall q :: q in t.procs ==> t.procs[q].sleep !in {Some(Data), Some(Space)})
            && t.lock == (if Ends(t) < Ends(s) then None else s.lock)
            && (Ends(t) < Ends(s) ==> forall q :: q in t.procs ==> t.procs[q].sleep == None)
  {
    hide Sound, Typed, Closing, Release, Ends;
    var r := if e.CloseRead? then s.readFds - {(e.p, e.fd)} else s.readFds;
    var w := if e.CloseWrite? then s.writeFds - {(e.p, e.fd)} else s.writeFds;
    ClosedShape(s, r, w);
    ClosingProcs(s);
    var u := Closing(s).(readFds := r, writeFds := w);
    ReleaseProcs(u);
    FewerEnds(s, u);
    EndsSame(u, Release(u));
    ForLock(s);
    forall q | q in s.procs ensures Release(u).procs[q].sleep == None {
      match s.procs[q].sleep {
        case None =>
        case Some(Lock) =>
        case Some(Space) =>
        case Some(Data) =>
      }
    }
  }

  // Whoever sleeps for the lock has left the flag that wakes it.
  lemma ForLock(s: State)
    requires Sound(s)
    ensures forall q :: q in s.procs && s.procs[q].sleep == Some(Lock) ==> s.want
  {
    forall q | q in s.procs && s.procs[q].sleep == Some(Lock) ensures s.want {
      assert ProcOk(s, q);
    }
  }

  // A copy of a descriptor is one more of the same end.
  lemma DupAdds(s: State, p: nat, fd: nat, q: nat, fd': nat)
    requires Inv(s) && Typed(s) && Enabled(s, Dup(p, fd, q, fd'))
    ensures var t := Apply(s, Dup(p, fd, q, fd'));
            && SameData(s, t) && q in t.procs && t.procs[q].act.Idle? && t.lock == s.lock
            && ((q, fd') in t.readFds <==> (p, fd) in s.readFds)
            && ((q, fd') in t.writeFds <==> (p, fd) !in s.readFds)
            && t.readFds - {(q, fd')} == s.readFds && t.writeFds - {(q, fd')} == s.writeFds
            && forall r :: r in s.procs ==> r in t.procs && t.procs[r] == s.procs[r]
  {
    hide Inv, Typed, Ends;
  }
}
