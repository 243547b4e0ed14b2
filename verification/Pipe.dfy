// The pipe protocol (ken/pipe.c:55-214, with closef, closei and iput of ken/fio.c and
// ken/iget.c), as a state machine. Kernel code runs without interruption between sleeps; a
// step is what one process does from one point where it may sleep to the next. Disk input
// and output inside readi and writei may sleep, too, so a locked pipe is read and written
// block by block while others run. update (ken/alloc.c) locks the inode while it writes it.
module Pipe {
  import opened Wrappers
  import opened Machine

  const PIPSIZ: nat := 4096

  // A byte in the pipe, with its place among all the bytes that ever went in.
  datatype Cell = Cell(byte: Byte, number: nat)

  datatype Outcome = Fresh | Completed | Broken | Interrupted

  // What a process is doing. ReadTop and WriteTop are before plock. A reader inside waits
  // for the block with part, which starts at pos, and wants left more behind it; done is
  // how much of data the pipe has taken, and the writer inside goes on up to upto.
  datatype Activity =
    | Idle(last: Outcome)
    | ReadTop(fd: nat, count: nat)
    | Reading(fd: nat, pos: nat, part: seq<Cell>, left: nat)
    | WriteTop(fd: nat, data: seq<Byte>, done: nat)
    | Writing(fd: nat, data: seq<Byte>, done: nat, upto: nat)

  // ip, ip+1 and ip+2.
  datatype Channel = Lock | Space | Data

  // past is what the pipe has taken from the earlier writes of the process.
  datatype Proc = Proc(act: Activity, sleep: Option<Channel>, past: seq<Byte>)

  datatype Holder = By(pid: nat) | Update

  // lock is ILOCK, with whoever set it; sync says that update is at work on the inode. file
  // is the contents up to i_size1, off is f_offset[1] of the reading end; readFds and writeFds
  // are the references to its two ends. sent is all that has gone in, with the writers, and
  // received all that has come out.
  datatype State = State(
    file: seq<Cell>, off: nat, lock: Option<Holder>, sync: bool, want: bool, iread: bool, iwrite: bool,
    readFds: set<(nat, nat)>, writeFds: set<(nat, nat)>, procs: map<nat, Proc>,
    sent: seq<(Byte, nat)>, received: seq<Cell>)

  // i_count.
  function Ends(s: State): nat {
    (if s.readFds == {} then 0 else 1) + (if s.writeFds == {} then 0 else 1)
  }

  function SetAct(s: State, p: nat, a: Activity): State
    requires p in s.procs
  {
    s.(procs := s.procs[p := s.procs[p].(act := a, sleep := None)])
  }

  function Asleep(s: State, p: nat, c: Channel): State
    requires p in s.procs
  {
    s.(procs := s.procs[p := s.procs[p].(sleep := Some(c))])
  }

  function Wakeup(s: State, c: Channel): State {
    s.(procs := map p | p in s.procs ::
         if s.procs[p].sleep == Some(c) then s.procs[p].(sleep := None) else s.procs[p])
  }

  // prele: whoever has the lock, it is gone.
  function Release(s: State): State {
    var t := s.(lock := None);
    if s.want then Wakeup(t.(want := false), Lock) else t
  }

  // A call ends; what the pipe has taken of a write counts.
  function Return(s: State, p: nat, o: Outcome): State
    requires p in s.procs
  {
    var a := s.procs[p].act;
    var taken := if a.WriteTop? && a.done <= |a.data| then a.data[..a.done] else [];
    s.(procs := s.procs[p := Proc(Idle(o), None, s.procs[p].past + taken)])
  }

  function Min(a: nat, b: nat): nat {
    if a <= b then a else b
  }

  // ---- Steps ----

  datatype Event =
    | Read(p: nat, fd: nat, count: nat)
    | Write(p: nat, fd: nat, data: seq<Byte>)
    | ReadStep(p: nat)
    | WriteStep(p: nat)
    | CloseRead(p: nat, fd: nat)
    | CloseWrite(p: nat, fd: nat)
    | Dup(p: nat, fd: nat, q: nat, fd': nat)
    | Signal(p: nat)
    | Sync                          // update takes the lock
    | SyncDone                      // ... and calls prele

  predicate InRead(a: Activity) {
    a.ReadTop? || a.Reading?
  }

  predicate InWrite(a: Activity) {
    a.WriteTop? || a.Writing?
  }

  ghost predicate IsIdle(s: State, p: nat) {
    p in s.procs && s.procs[p].act.Idle?
  }

  ghost predicate IsReading(s: State, p: nat) {
    p in s.procs && s.procs[p].act.Reading?
  }

  ghost predicate IsWriting(s: State, p: nat) {
    p in s.procs && s.procs[p].act.Writing?
  }

  ghost predicate Awake(s: State, p: nat) {
    p in s.procs && s.procs[p].sleep == None
  }

  ghost predicate Enabled(s: State, e: Event) {
    match e
    case Read(p, fd, _) => IsIdle(s, p) && (p, fd) in s.readFds
    case Write(p, fd, _) => IsIdle(s, p) && (p, fd) in s.writeFds
    case ReadStep(p) => Awake(s, p) && InRead(s.procs[p].act)
    case WriteStep(p) => Awake(s, p) && InWrite(s.procs[p].act)
    case CloseRead(p, fd) => IsIdle(s, p) && (p, fd) in s.readFds
    case CloseWrite(p, fd) => IsIdle(s, p) && (p, fd) in s.writeFds
    case Dup(p, fd, q, fd') =>
      && IsIdle(s, p) && ((p, fd) in s.readFds || (p, fd) in s.writeFds)
      && (q in s.procs ==> IsIdle(s, q))
      && (q, fd') !in s.readFds && (q, fd') !in s.writeFds
    case Signal(p) => p in s.procs && s.procs[p].sleep.Some?
    case Sync => s.lock == None && !s.sync && Ends(s) > 0
    case SyncDone => s.sync
  }

  // Everything has been read: the pipe is made empty, and writers go on.
  function Reset(s: State): State {
    var r := s.(off := 0, file := []);
    if s.off == 0 then s else if s.iwrite then Wakeup(r.(iwrite := false), Space) else r
  }

  // How much the next pass of readi reads; 0 when it returns.
  function NextCount(s: State, pos: nat, left: nat): (n: nat)
    ensures n <= left && (n == 0 || pos + n <= |s.file|)
    ensures n == 0 <==> left == 0 || pos >= |s.file|
  {
    if pos >= |s.file| then 0 else Min(Min(512 - pos % 512, left), |s.file| - pos)
  }

  // readi from pos on: it waits for the next block, or returns.
  function ReadOn(s: State, p: nat): State
    requires p in s.procs && s.procs[p].act.Reading?
  {
    var a := s.procs[p].act;
    var n := NextCount(s, a.pos, a.left);
    if n == 0 then Return(Release(s.(off := a.pos)), p, Completed)
    else SetAct(s, p, Reading(a.fd, a.pos, s.file[a.pos..a.pos + n], a.left - n))
  }

  function StartReading(s: State, p: nat): State
    requires p in s.procs && s.procs[p].act.ReadTop?
  {
    var a := s.procs[p].act;
    SetAct(s.(lock := Some(By(p))), p, Reading(a.fd, s.off, [], a.count))
  }

  // The loop of readp, once plock has succeeded. What is in the part of the block that is on
  // its way does not change any more, so part can be fixed here.
  function ReadEnter(s: State, p: nat): State
    requires p in s.procs && s.procs[p].act.ReadTop?
  {
    if s.off == |s.file| then
      var u := Release(Reset(s));
      if Ends(u) < 2 then Return(u, p, Completed)
      else Asleep(u.(iread := true), p, Data)
    else ReadOn(StartReading(s, p), p)
  }

  // The block is there: its part goes to the reader.
  function CopyOut(s: State, p: nat): State
    requires p in s.procs && s.procs[p].act.Reading?
  {
    var Reading(fd, pos, part, left) := s.procs[p].act;
    SetAct(s.(received := s.received + part), p, Reading(fd, pos + |part|, [], left))
  }

  function ReadChunk(s: State, p: nat): State
    requires p in s.procs && s.procs[p].act.Reading?
  {
    ReadOn(CopyOut(s, p), p)
  }

  function StartWriting(s: State, p: nat): State
    requires p in s.procs && s.procs[p].act.WriteTop?
    requires s.procs[p].act.done <= |s.procs[p].act.data| && |s.file| <= PIPSIZ
  {
    var WriteTop(fd, data, done) := s.procs[p].act;
    SetAct(s.(lock := Some(By(p))), p, Writing(fd, data, done, done + Min(|data| - done, PIPSIZ - |s.file|)))
  }

  // The loop of writep, once plock has succeeded.
  function WriteEnter(s: State, p: nat): State
    requires p in s.procs && s.procs[p].act.WriteTop?
    requires s.procs[p].act.done <= |s.procs[p].act.data| && |s.file| <= PIPSIZ
  {
    var WriteTop(fd, data, done) := s.procs[p].act;
    if done == |data| then Return(Release(s), p, Completed)
    else if Ends(s) < 2 then Return(Release(s), p, Broken)
    else if |s.file| == PIPSIZ then Asleep(Release(s.(iwrite := true)), p, Space)
    else StartWriting(s, p)
  }

  function Tagged(w: seq<Byte>, p: nat): (r: seq<(Byte, nat)>)
    ensures |r| == |w| && forall i :: 0 <= i < |w| ==> r[i] == (w[i], p)
  {
    if w == [] then [] else Tagged(w[..|w| - 1], p) + [(w[|w| - 1], p)]
  }

  function Cells(w: seq<Byte>, first: nat): (r: seq<Cell>)
    ensures |r| == |w| && forall i :: 0 <= i < |w| ==> r[i] == Cell(w[i], first + i)
  {
    seq(|w|, i requires 0 <= i < |w| => Cell(w[i], first + i))
  }

  // One block of writei: n bytes go in.
  function CopyIn(s: State, p: nat, n: nat): State
    requires p in s.procs && s.procs[p].act.Writing?
    requires s.procs[p].act.done + n <= |s.procs[p].act.data|
  {
    var Writing(fd, data, done, upto) := s.procs[p].act;
    var w := data[done..done + n];
    SetAct(s.(file := s.file + Cells(w, |s.sent|), sent := s.sent + Tagged(w, p)), p,
      Writing(fd, data, done + n, upto))
  }

  // The end of writei: whoever waits for the lock, or for data, goes on.
  function LeaveWriting(s: State, p: nat): State
    requires p in s.procs && s.procs[p].act.Writing?
  {
    var Writing(fd, data, done, _) := s.procs[p].act;
    var t := Release(s);
    SetAct(if t.iread then Wakeup(t.(iread := false), Data) else t, p, WriteTop(fd, data, done))
  }

  function WriteChunk(s: State, p: nat): State
    requires Typed(s) && p in s.procs && s.procs[p].act.Writing?
  {
    var a := s.procs[p].act;
    assert TypedAct(s, a);
    var t := CopyIn(s, p, Min(512 - |s.file| % 512, a.upto - a.done));
    if t.procs[p].act.done < a.upto then t else WriteEnter(LeaveWriting(t, p), p)
  }

  // closef: whoever sleeps on the pipe looks again.
  function Closing(s: State): State {
    Wakeup(Wakeup(s.(iread := false, iwrite := false), Space), Data)
  }

  // ... and with the last reference to an end, closei gives up one reference to the inode,
  // and iput calls prele, whoever has the lock.
  function Closed(s: State, readFds: set<(nat, nat)>, writeFds: set<(nat, nat)>): State {
    var t := Closing(s).(readFds := readFds, writeFds := writeFds);
    if Ends(t) < Ends(s) then Release(t) else t
  }

  predicate TypedAct(s: State, a: Activity) {
    match a
    case WriteTop(_, data, done) => done <= |data|
    case Writing(_, data, done, upto) => done <= upto <= |data| && upto - done <= PIPSIZ - |s.file|
    case _ => true
  }

  predicate Typed(s: State) {
    |s.file| <= PIPSIZ && forall p :: p in s.procs ==> TypedAct(s, s.procs[p].act)
  }

  function Locked(s: State, p: nat): State
    requires p in s.procs
  {
    Asleep(s.(want := true), p, Lock)
  }

  function NewProc(s: State, q: nat): State {
    if q in s.procs then s else s.(procs := s.procs[q := Proc(Idle(Fresh), None, [])])
  }

  ghost function Apply(s: State, e: Event): State
    requires Typed(s) && Enabled(s, e)
  {
    match e
    case Read(p, fd, count) => SetAct(s, p, ReadTop(fd, count))
    case Write(p, fd, data) => SetAct(s, p, WriteTop(fd, data, 0))
    case ReadStep(p) =>
      if s.procs[p].act.Reading? then ReadChunk(s, p)
      else if s.lock.Some? then Locked(s, p)
      else ReadEnter(s, p)
    case WriteStep(p) =>
      if s.procs[p].act.Writing? then WriteChunk(s, p)
      else if s.lock.Some? then Locked(s, p)
      else (assert TypedAct(s, s.procs[p].act); WriteEnter(s, p))
    case CloseRead(p, fd) => Closed(s, s.readFds - {(p, fd)}, s.writeFds)
    case CloseWrite(p, fd) => Closed(s, s.readFds, s.writeFds - {(p, fd)})
    case Dup(p, fd, q, fd') =>
      var t := NewProc(s, q);
      if (p, fd) in s.readFds then t.(readFds := t.readFds + {(q, fd')})
      else t.(writeFds := t.writeFds + {(q, fd')})
    case Signal(p) => Return(s, p, Interrupted)
    case Sync => s.(lock := Some(Update), sync := true)
    case SyncDone => Release(s).(sync := false)
  }

  ghost function Moved(s: State, e: Event): State {
    if Typed(s) && Enabled(s, e) then Apply(s, e) else s
  }

  // The pipe as process p gets it, with descriptors rfd and wfd.
  function Opened(p: nat, rfd: nat, wfd: nat): State {
    State([], 0, None, false, false, false, false, {(p, rfd)}, {(p, wfd)},
      map[p := Proc(Idle(Fresh), None, [])], [], [])
  }

  ghost function After(s: State, es: seq<Event>): State {
    if es == [] then s else Moved(After(s, es[..|es| - 1]), es[|es| - 1])
  }

  // ---- The invariant ----

  // The bytes that came from p, in order.
  function From(sent: seq<(Byte, nat)>, p: nat): seq<Byte> {
    if sent == [] then []
    else
      var n := |sent| - 1;
      From(sent[..n], p) + (if sent[n].1 == p then [sent[n].0] else [])
  }

  // What the pipe has taken of the current call.
  function Taken(a: Activity): seq<Byte> {
    match a
    case WriteTop(_, data, done) => if done <= |data| then data[..done] else []
    case Writing(_, data, done, _) => if done <= |data| then data[..done] else []
    case _ => []
  }

  predicate Inside(a: Activity) {
    a.Reading? || a.Writing?
  }

  predicate SomeReading(s: State) {
    s.lock.Some? && s.lock.value.By? && s.lock.value.pid in s.procs && s.procs[s.lock.value.pid].act.Reading?
  }

  predicate SomeWriting(s: State) {
    s.lock.Some? && s.lock.value.By? && s.lock.value.pid in s.procs && s.procs[s.lock.value.pid].act.Writing?
  }

  // Who has the lock is inside, or is update. Without it a process or update can only be at
  // work once an end is closed; there are never two writers inside.
  ghost predicate Locking(s: State) {
    && (s.lock.Some? && s.lock.value.By? ==>
          s.lock.value.pid in s.procs && Inside(s.procs[s.lock.value.pid].act))
    && (s.lock == Some(Update) ==> s.sync) && (s.sync && s.lock != Some(Update) ==> Ends(s) < 2)
    && (forall p :: p in s.procs && Inside(s.procs[p].act) && s.lock != Some(By(p)) ==> Ends(s) < 2)
    && (forall p, q :: p in s.procs && q in s.procs && s.procs[p].act.Writing? && s.procs[q].act.Writing? ==> p == q)
  }

  // A call is made on a reference that stays open, and sleeps for a reason.
  ghost predicate ProcOk(s: State, p: nat)
    requires p in s.procs
  {
    var x := s.procs[p];
    && (InRead(x.act) ==> (p, x.act.fd) in s.readFds)
    && (InWrite(x.act) ==> (p, x.act.fd) in s.writeFds)
    && (match x.sleep
        case None => true
        case Some(Lock) => s.lock.Some? && s.want && (x.act.ReadTop? || x.act.WriteTop?)
        case Some(Data) =>
          x.act.ReadTop? && s.iread && Ends(s) == 2 && !SomeReading(s) && (!SomeWriting(s) ==> s.file == [])
        case Some(Space) =>
          x.act.WriteTop? && s.iwrite && Ends(s) == 2 && |s.file| == PIPSIZ && !SomeWriting(s))
  }

  ghost predicate Procs(s: State) {
    && (forall p :: p in s.procs ==> ProcOk(s, p))
    && (forall x :: x in s.readFds || x in s.writeFds ==> x.0 in s.procs)
  }

  ghost predicate Shares(s: State) {
    && (forall p :: p in s.procs ==> From(s.sent, p) == s.procs[p].past + Taken(s.procs[p].act))
    && (forall x :: x in s.sent ==> x.1 in s.procs)
  }

  // How many bytes went in before the one at the start of the file.
  function Base(s: State): int {
    |s.sent| - |s.file|
  }

  predicate Genuine(sent: seq<(Byte, nat)>, x: Cell) {
    x.number < |sent| && x.byte == sent[x.number].0
  }

  predicate Got(received: seq<Cell>, k: int) {
    exists i :: 0 <= i < |received| && received[i].number == k
  }

  // All that is before place pos of the file has been received.
  predicate Covered(s: State, pos: nat) {
    forall k :: 0 <= k < |s.sent| && k < Base(s) + pos ==> Got(s.received, k)
  }

  predicate Drained(s: State) {
    s.file == [] && s.writeFds == {}
  }

  predicate ReadingOk(s: State, a: Activity)
    requires a.Reading?
  {
    && (forall x :: x in a.part ==> Genuine(s.sent, x)) && Covered(s, a.pos)
    && (Drained(s) || PartHere(s, a))
  }

  predicate PartHere(s: State, a: Activity)
    requires a.Reading?
  {
    a.pos + |a.part| <= |s.file| && a.part == s.file[a.pos..a.pos + |a.part|]
  }

  // The file has the bytes that went in last.
  ghost predicate Latest(s: State) {
    |s.file| <= |s.sent| && forall i :: 0 <= i < |s.file| ==> s.file[i] == Cell(s.sent[Base(s) + i].0, Base(s) + i)
  }

  // ... what came out went in; nothing is skipped.
  ghost predicate Flow(s: State) {
    && Latest(s) && (s.off <= |s.file| || Drained(s)) && Covered(s, s.off)
    && (forall x :: x in s.received ==> Genuine(s.sent, x))
    && (forall p :: p in s.procs && s.procs[p].act.Reading? ==> ReadingOk(s, s.procs[p].act))
  }

  ghost predicate Sound(s: State) {
    Typed(s) && Locking(s) && Flow(s) && Shares(s) && Procs(s)
  }

  // A reader inside always waits for a block with something in it.
  ghost predicate Fetching(s: State) {
    forall p :: p in s.procs && s.procs[p].act.Reading? ==> s.procs[p].act.part != []
  }

  ghost predicate Inv(s: State) {
    Sound(s) && Fetching(s)
  }

  // ---- What a step does not touch ----

  // Nobody but p changes what it is doing or has done; wakeups change only sleep.
  ghost predicate OnlyMoves(s: State, t: State, p: nat) {
    && t.procs.Keys == s.procs.Keys && p in s.procs
    && (forall q :: q in s.procs && q != p ==>
          t.procs[q].act == s.procs[q].act && t.procs[q].past == s.procs[q].past)
    && t.procs[p].past + Taken(t.procs[p].act) == s.procs[p].past + Taken(s.procs[p].act)
  }

  ghost predicate SameActs(s: State, t: State) {
    && t.procs.Keys == s.procs.Keys
    && forall q :: q in s.procs ==> t.procs[q].act == s.procs[q].act && t.procs[q].past == s.procs[q].past
  }

  predicate SameFds(s: State, t: State) {
    t.readFds == s.readFds && t.writeFds == s.writeFds
  }

  predicate SameData(s: State, t: State) {
    t.file == s.file && t.off == s.off && t.sent == s.sent && t.received == s.received
  }

  lemma WakeupProcs(s: State, c: Channel)
    ensures var t := Wakeup(s, c);
            && t == s.(procs := t.procs) && SameActs(s, t)
            && forall q :: q in s.procs ==>
                 t.procs[q].sleep == (if s.procs[q].sleep == Some(c) then None else s.procs[q].sleep)
  {
  }

  lemma ReleaseProcs(s: State)
    ensures var t := Release(s);
            && t == s.(procs := t.procs, lock := None, want := false) && SameActs(s, t)
            && forall q :: q in s.procs ==>
                 t.procs[q].sleep == (if s.want && s.procs[q].sleep == Some(Lock) then None else s.procs[q].sleep)
  {
    hide Wakeup;
    WakeupProcs(s.(lock := None, want := false), Lock);
  }

  lemma ClosingProcs(s: State)
    ensures var t := Closing(s);
            && t == s.(procs := t.procs, iread := false, iwrite := false) && SameActs(s, t)
            && forall q :: q in s.procs ==>
                 t.procs[q].sleep ==
                   (if s.procs[q].sleep in {Some(Space), Some(Data)} then None else s.procs[q].sleep)
  {
    hide Wakeup;
    var r := s.(iread := false, iwrite := false);
    WakeupProcs(r, Space);
    WakeupProcs(Wakeup(r, Space), Data);
  }

  lemma EndsSame(s: State, t: State)
    requires SameFds(s, t)
    ensures Ends(t) == Ends(s) <= 2
  {
  }

  // With both ends open, only the process that has the lock is inside.
  lemma OthersOut(s: State, p: nat)
    requires Locking(s) && Ends(s) == 2 && (s.lock == None || s.lock == Some(By(p)))
    ensures forall q :: q in s.procs && q != p ==> !Inside(s.procs[q].act)
  {
  }

  // With a writer inside, nobody else is.
  lemma AloneWriting(s: State, p: nat)
    requires Sound(s) && IsWriting(s, p)
    ensures forall q :: q in s.procs && q != p ==> !Inside(s.procs[q].act)
    ensures s.procs[p].sleep == None && s.writeFds != {} && s.off <= |s.file|
    ensures Ends(s) == 2 ==> s.lock == Some(By(p))
  {
    hide Shares, Typed;
    assert ProcOk(s, p);
    forall q | q in s.procs && q != p ensures !Inside(s.procs[q].act) {
      assert ProcOk(s, q);
    }
  }

  // ---- The parts of the invariant, for a step of p ----

  lemma TypedStep(s: State, t: State, p: nat)
    requires Typed(s) && OnlyMoves(s, t, p) && TypedAct(t, t.procs[p].act) && |t.file| <= PIPSIZ
    requires |t.file| <= |s.file| || forall q :: q in s.procs && s.procs[q].act.Writing? ==> q == p
    ensures Typed(t)
  {
    hide Taken;
    forall q | q in t.procs ensures TypedAct(t, t.procs[q].act) {
      assert TypedAct(s, s.procs[q].act);
    }
  }

  lemma LockingStep(s: State, t: State, p: nat)
    requires Locking(s) && OnlyMoves(s, t, p) && SameFds(s, t) && t.sync == s.sync
    requires t.lock == None || t.lock == s.lock || t.lock == Some(By(p))
    requires t.lock == Some(By(p)) ==> Inside(t.procs[p].act)
    requires Inside(t.procs[p].act) && t.lock != Some(By(p)) ==> Ends(t) < 2
    requires t.lock != s.lock && Ends(s) == 2 ==> s.lock == None || s.lock == Some(By(p))
    requires IsWriting(t, p) ==> forall q :: q in s.procs && s.procs[q].act.Writing? ==> q == p
    ensures Locking(t)
  {
    hide Taken, Ends;
    EndsSame(s, t);
    forall q | q in t.procs && Inside(t.procs[q].act) && t.lock != Some(By(q)) ensures Ends(t) < 2 {
      if Ends(s) == 2 && q != p && t.lock != s.lock {
        OthersOut(s, p);
      }
    }
  }

  // The bytes the pipe has taken from each process.
  lemma SharesStep(s: State, t: State, p: nat)
    requires Shares(s) && OnlyMoves(s, t, p) && t.sent == s.sent
    ensures Shares(t)
  {
    hide From, Taken;
  }

  lemma FlowStep(s: State, t: State, p: nat)
    requires Flow(s) && OnlyMoves(s, t, p) && SameData(s, t) && t.writeFds == s.writeFds
    requires IsReading(t, p) ==> ReadingOk(t, t.procs[p].act)
    ensures Flow(t)
  {
    hide Taken, Got, Genuine;
    assert Covered(t, t.off) && (Drained(s) == Drained(t));
    forall q | q in t.procs && t.procs[q].act.Reading? ensures ReadingOk(t, t.procs[q].act) {
      if q != p {
      }
    }
  }

  // A step of p that changes neither contents nor references.
  lemma QuietStep(s: State, t: State, p: nat)
    requires Sound(s) && OnlyMoves(s, t, p) && SameData(s, t) && SameFds(s, t)
    requires t.lock == s.lock && t.sync == s.sync && !Inside(s.procs[p].act) && !Inside(t.procs[p].act)
    requires TypedAct(t, t.procs[p].act)
    ensures Typed(t) && Locking(t) && Flow(t) && Shares(t)
    ensures SomeReading(t) == SomeReading(s) && SomeWriting(t) == SomeWriting(s) && Ends(t) == Ends(s)
  {
    hide Procs, Flow, Shares, Ends, Taken;
    EndsSame(s, t);
    LockingStep(s, t, p);
    SharesStep(s, t, p);
    TypedStep(s, t, p);
    FlowStep(s, t, p);
  }

  lemma Facts(s: State, p: nat)
    requires Sound(s) && p in s.procs
    ensures TypedAct(s, s.procs[p].act) && ProcOk(s, p) && |s.file| <= PIPSIZ
    ensures IsReading(s, p) ==> ReadingOk(s, s.procs[p].act)
  {
  }

  // A process starts a call.
  lemma CallSound(s: State, p: nat, a: Activity)
    requires Sound(s) && IsIdle(s, p) && (a.ReadTop? || (a.WriteTop? && a.done == 0))
    requires a.ReadTop? ==> (p, a.fd) in s.readFds
    requires a.WriteTop? ==> (p, a.fd) in s.writeFds
    ensures Sound(SetAct(s, p, a))
  {
    hide Flow, Locking, Shares, Ends;
    var t := SetAct(s, p, a);
    QuietStep(s, t, p);
    forall q | q in t.procs ensures ProcOk(t, q) {
      assert ProcOk(s, q);
    }
  }

  // plock finds the pipe locked.
  lemma LockedSound(s: State, p: nat)
    requires Sound(s) && Awake(s, p) && s.lock.Some? && (s.procs[p].act.ReadTop? || s.procs[p].act.WriteTop?)
    ensures Sound(Locked(s, p))
  {
    hide Flow, Locking, Shares, Ends;
    var t := Locked(s, p);
    assert TypedAct(s, s.procs[p].act);
    QuietStep(s, t, p);
    forall q | q in t.procs ensures ProcOk(t, q) {
      assert ProcOk(s, q);
    }
  }

  // A call ends outside.
  lemma ReturnSound(s: State, p: nat, o: Outcome)
    requires Sound(s) && p in s.procs && !Inside(s.procs[p].act)
    ensures Sound(Return(s, p, o))
  {
    hide Flow, Locking, Shares, Ends;
    var t := Return(s, p, o);
    QuietStep(s, t, p);
    forall q | q in t.procs ensures ProcOk(t, q) {
      assert ProcOk(s, q);
    }
  }

  // prele by a process that found the pipe unlocked.
  lemma UnlockedSound(s: State)
    requires Sound(s) && s.lock == None
    ensures Sound(Release(s)) && Release(s) == s.(want := false)
  {
    hide Shares, Ends, Got, Genuine;
    var t := Release(s);
    assert t.procs == s.procs by {
      forall q | q in s.procs ensures s.procs[q].sleep != Some(Lock) {
        assert ProcOk(s, q);
      }
    }
    SameSound(s, t);
  }

  // The flag alone makes no difference while nobody waits for the lock.
  lemma SameSound(s: State, t: State)
    requires Sound(s) && s.lock == None && t == s.(want := t.want)
    ensures Sound(t)
  {
    hide Ends, From, Got, Genuine;
    EndsSame(s, t);
    assert Typed(t) && Locking(t) && Shares(t);
    SameFlow(s, t);
    hide Typed, Locking, Shares, Flow;
    forall q | q in t.procs ensures ProcOk(t, q) {
      assert ProcOk(s, q);
    }
  }

  lemma SameFlow(s: State, t: State)
    requires Flow(s) && SameActs(s, t) && SameData(s, t) && (s.writeFds == {} ==> t.writeFds == {})
    ensures Flow(t)
  {
    hide Got, Genuine;
    forall q | q in t.procs && t.procs[q].act.Reading? ensures ReadingOk(t, t.procs[q].act) {
    }
  }

  // ---- The loop of readp ----

  lemma ResetProcs(s: State)
    requires Sound(s) && s.lock == None && s.off == |s.file|
    ensures var t := Reset(s);
            && SameActs(s, t) && t == s.(file := [], off := 0, iwrite := t.iwrite, procs := t.procs)
            && forall q :: q in s.procs ==>
                 t.procs[q].sleep == (if s.procs[q].sleep == Some(Space) then None else s.procs[q].sleep)
  {
    hide Flow, Locking, Shares, Wakeup;
    var r := s.(off := 0, file := []);
    WakeupProcs(r.(iwrite := false), Space);
    forall q | q in s.procs ensures s.procs[q].sleep == Some(Space) ==> s.iwrite && s.file != [] {
      assert ProcOk(s, q);
    }
  }

  lemma ResetFlow(s: State, t: State)
    requires Flow(s) && s.off == |s.file| && SameActs(s, t)
    requires t.file == [] && t.off == 0 && t.sent == s.sent && t.received == s.received && SameFds(s, t)
    requires forall q :: q in s.procs && s.procs[q].act.Reading? ==> s.writeFds == {}
    ensures Flow(t)
  {
    hide Got, Genuine;
    forall q | q in t.procs && t.procs[q].act.Reading? ensures ReadingOk(t, t.procs[q].act) {
    }
  }

  lemma ResetSound(s: State, p: nat)
    requires Sound(s) && s.lock == None && s.off == |s.file| && p in s.procs && s.procs[p].act.ReadTop?
    ensures Sound(Reset(s)) && Reset(s).file == [] && Reset(s).off == 0 && Reset(s).lock == None
    ensures SameActs(s, Reset(s)) && Ends(Reset(s)) == Ends(s)
    ensures s.procs[p].sleep == None ==> Reset(s).procs[p].sleep == None
  {
    hide Ends, Reset, From, Flow, Got, Genuine;
    var t := Reset(s);
    ResetProcs(s);
    EndsSame(s, t);
    assert Locking(t) && Shares(t);
    NoWriters(s, p);
    ResetFlow(s, t);
    hide Locking, Shares;
    forall q | q in t.procs ensures ProcOk(t, q) {
      assert ProcOk(s, q);
    }
    forall q | q in t.procs ensures TypedAct(t, t.procs[q].act) {
      assert TypedAct(s, s.procs[q].act);
    }
  }

  // A reader is inside without the lock only when no writer is left.
  lemma NoWriters(s: State, p: nat)
    requires Sound(s) && s.lock == None && p in s.procs && InRead(s.procs[p].act)
    ensures forall q :: q in s.procs && s.procs[q].act.Reading? ==> s.writeFds == {}
  {
    assert ProcOk(s, p);
  }

  lemma SleepDataSound(s: State, p: nat)
    requires Sound(s) && p in s.procs && s.procs[p].act.ReadTop? && s.lock == None && s.file == [] && Ends(s) == 2
    ensures Sound(Asleep(s.(iread := true), p, Data))
  {
    hide Flow, Locking, Shares, Ends;
    var t := Asleep(s.(iread := true), p, Data);
    assert TypedAct(s, s.procs[p].act) && ProcOk(s, p);
    QuietStep(s, t, p);
    forall q | q in t.procs ensures ProcOk(t, q) {
      assert ProcOk(s, q);
    }
  }

  // A process takes the lock of a pipe that nobody has locked.
  lemma EnterSound(s: State, t: State, p: nat)
    requires Sound(s) && Awake(s, p) && s.lock == None && OnlyMoves(s, t, p)
    requires t == s.(lock := Some(By(p)), procs := s.procs[p := t.procs[p]]) && t.procs[p].sleep == None
    requires Inside(t.procs[p].act) && !Inside(s.procs[p].act) && TypedAct(t, t.procs[p].act)
    requires t.procs[p].act.Reading? ==>
               (p, t.procs[p].act.fd) in s.readFds && s.off != |s.file| && ReadingOk(t, t.procs[p].act)
    requires t.procs[p].act.Writing? ==>
               (p, t.procs[p].act.fd) in s.writeFds && |s.file| < PIPSIZ && Ends(s) == 2
    ensures Sound(t)
  {
    hide Shares, Flow, Taken, TypedAct, Ends, ReadingOk;
    EndsSame(s, t);
    if t.procs[p].act.Writing? {
      OthersOut(s, p);
    }
    LockingStep(s, t, p);
    SharesStep(s, t, p);
    TypedStep(s, t, p);
    FlowStep(s, t, p);
    EnterProcs(s, t, p);
  }

  lemma EnterProcs(s: State, t: State, p: nat)
    requires Sound(s) && Awake(s, p) && s.lock == None
    requires t == s.(lock := Some(By(p)), procs := t.procs) && p in t.procs
    requires t.procs == s.procs[p := t.procs[p]] && t.procs[p].sleep == None
    requires Inside(t.procs[p].act)
    requires t.procs[p].act.Reading? ==> (p, t.procs[p].act.fd) in s.readFds && s.off != |s.file|
    requires t.procs[p].act.Writing? ==> (p, t.procs[p].act.fd) in s.writeFds && |s.file| < PIPSIZ
    ensures Procs(t)
  {
    hide Ends, Shares, Locking, Typed, Covered, ReadingOk, Genuine;
    EndsSame(s, t);
    if t.procs[p].act.Reading? && s.file == [] {
      assert s.writeFds == {};
      NotBoth(s);
    }
    hide Flow;
    forall q | q in t.procs ensures ProcOk(t, q) {
      assert ProcOk(s, q);
    }
  }

  lemma NotBoth(s: State)
    requires s.writeFds == {} || s.readFds == {}
    ensures Ends(s) < 2
  {
  }

  lemma StartReadingSound(s: State, p: nat)
    requires Sound(s) && Awake(s, p) && s.procs[p].act.ReadTop? && s.lock == None && s.off != |s.file|
    ensures Sound(StartReading(s, p))
  {
    hide Ends, Locking, Procs, Typed, Shares, Got, Genuine;
    var t := StartReading(s, p);
    Facts(s, p);
    CallFds(s, p);
    hide ProcOk;
    assert ReadingOk(t, t.procs[p].act);
    hide Flow, ReadingOk;
    EnterSound(s, t, p);
  }

  lemma CallFds(s: State, p: nat)
    requires p in s.procs && ProcOk(s, p)
    ensures InRead(s.procs[p].act) ==> (p, s.procs[p].act.fd) in s.readFds
    ensures InWrite(s.procs[p].act) ==> (p, s.procs[p].act.fd) in s.writeFds
  {
  }

  // The reader leaves: reading goes on where it stopped.
  lemma LeaveReadingSound(s: State, p: nat)
    requires Sound(s) && IsReading(s, p)
    ensures Sound(Return(Release(s.(off := s.procs[p].act.pos)), p, Completed))
  {
    hide Ends, Shares, Release, Locking, Typed, ProcOk, Procs, Flow;
    var r := s.(off := s.procs[p].act.pos);
    ReleaseProcs(r);
    var t := Return(Release(r), p, Completed);
    EndsSame(s, t);
    LockHolder(s, p);
    LockingStep(s, t, p);
    SharesStep(s, t, p);
    Facts(s, p);
    TypedStep(s, t, p);
    LeaveReadingFlow(s, t, p);
    LeaveReadingProcs(s, t, p);
  }

  lemma LockHolder(s: State, p: nat)
    requires Sound(s) && p in s.procs && Inside(s.procs[p].act)
    ensures Ends(s) == 2 ==> s.lock == Some(By(p))
    ensures s.procs[p].sleep == None
  {
    assert ProcOk(s, p);
  }

  lemma LeaveReadingFlow(s: State, t: State, p: nat)
    requires Flow(s) && IsReading(s, p) && OnlyMoves(s, t, p) && t.procs[p].act.Idle?
    requires t.file == s.file && t.off == s.procs[p].act.pos && t.sent == s.sent && t.received == s.received
    requires t.writeFds == s.writeFds
    ensures Flow(t)
  {
    hide Got, Genuine, Taken;
    forall q | q in t.procs && t.procs[q].act.Reading? ensures ReadingOk(t, t.procs[q].act) {
    }
    assert ReadingOk(s, s.procs[p].act);
    assert Covered(t, t.off);
  }

  lemma LeaveReadingProcs(s: State, t: State, p: nat)
    requires Sound(s) && IsReading(s, p) && OnlyMoves(s, t, p) && SameFds(s, t) && t.procs[p].sleep == None
    requires t.procs[p].act.Idle? && t.lock == None && t.file == s.file && t.iread == s.iread && t.iwrite == s.iwrite
    requires forall q :: q in s.procs && q != p ==>
               t.procs[q].sleep == (if s.want && s.procs[q].sleep == Some(Lock) then None else s.procs[q].sleep)
    ensures Procs(t)
  {
    hide Ends, Shares, Locking, Flow, Typed, Taken;
    EndsSame(s, t);
    LockHolder(s, p);
    forall q | q in t.procs ensures ProcOk(t, q) {
      assert ProcOk(s, q);
    }
  }

  // The reader waits for its next block.
  lemma FetchSound(s: State, p: nat)
    requires Sound(s) && IsReading(s, p)
    requires var a := s.procs[p].act; NextCount(s, a.pos, a.left) > 0
    ensures Sound(ReadOn(s, p))
  {
    hide Ends, Shares, Locking, Typed, ProcOk, Procs, Flow;
    var t := ReadOn(s, p);
    EndsSame(s, t);
    LockHolder(s, p);
    Facts(s, p);
    LockingKept(s, t, p);
    SharesStep(s, t, p);
    TypedStep(s, t, p);
    FetchFlow(s, t, p);
    ReadingProcs(s, t, p);
  }

  lemma LockingKept(s: State, t: State, p: nat)
    requires Sound(s) && OnlyMoves(s, t, p) && SameFds(s, t) && t.lock == s.lock && t.sync == s.sync
    requires Inside(s.procs[p].act) && t.procs[p].act.Reading? == s.procs[p].act.Reading?
    requires t.procs[p].act.Writing? == s.procs[p].act.Writing?
    ensures Locking(t)
  {
    hide Ends, Shares, Typed, Procs, Flow, Taken;
    EndsSame(s, t);
  }

  lemma FetchFlow(s: State, t: State, p: nat)
    requires Flow(s) && IsReading(s, p) && t == ReadOn(s, p)
    requires var a := s.procs[p].act; NextCount(s, a.pos, a.left) > 0
    ensures Flow(t)
  {
    hide Got, NextCount;
    var a := s.procs[p].act;
    assert ReadingOk(s, a);
    assert ReadingOk(t, t.procs[p].act) by {
      forall x | x in t.procs[p].act.part ensures Genuine(t.sent, x) {
        assert x in s.file;
      }
    }
    hide Genuine, Covered;
    FlowStep(s, t, p);
  }

  // Steps of a reader that stays inside wake nobody and leave the file as it is.
  lemma ReadingProcs(s: State, t: State, p: nat)
    requires Sound(s) && IsReading(s, p) && OnlyMoves(s, t, p) && SameFds(s, t)
    requires t.procs == s.procs[p := t.procs[p]] && t.procs[p].sleep == None
    requires t.procs[p].act.Reading? && t.procs[p].act.fd == s.procs[p].act.fd
    requires t.lock == s.lock && t.want == s.want && t.iread == s.iread && t.iwrite == s.iwrite && t.file == s.file
    ensures Procs(t)
  {
    hide Ends, Shares, Locking, Flow, Typed, Taken;
    EndsSame(s, t);
    forall q | q in t.procs ensures ProcOk(t, q) {
      assert ProcOk(s, q);
    }
  }

  lemma CopyOutSound(s: State, p: nat)
    requires Sound(s) && IsReading(s, p)
    ensures Sound(CopyOut(s, p))
  {
    hide Ends, Shares, Locking, Typed, ProcOk, Procs, Flow;
    var t := CopyOut(s, p);
    EndsSame(s, t);
    Facts(s, p);
    LockingKept(s, t, p);
    SharesStep(s, t, p);
    TypedStep(s, t, p);
    CopyOutFlow(s, p);
    ReadingProcs(s, t, p);
  }

  lemma GotMore(r: seq<Cell>, part: seq<Cell>, k: int)
    ensures Got(r, k) ==> Got(r + part, k)
    ensures forall j :: 0 <= j < |part| && part[j].number == k ==> Got(r + part, k)
  {
    if Got(r, k) {
      var i :| 0 <= i < |r| && r[i].number == k;
      assert (r + part)[i] == r[i];
    }
    forall j | 0 <= j < |part| && part[j].number == k ensures Got(r + part, k) {
      assert (r + part)[|r| + j] == part[j];
    }
  }

  lemma CoveredMore(s: State, t: State, part: seq<Cell>, pos: nat)
    requires t.received == s.received + part && t.sent == s.sent && t.file == s.file && Covered(s, pos)
    ensures Covered(t, pos)
  {
    hide Got;
    forall k | 0 <= k < |t.sent| && k < Base(t) + pos ensures Got(t.received, k) {
      GotMore(s.received, part, k);
    }
  }

  lemma CoveredPart(s: State, t: State, a: Activity)
    requires a.Reading? && t.received == s.received + a.part && t.sent == s.sent && t.file == s.file
    requires Flow(s) && ReadingOk(s, a)
    ensures Covered(t, a.pos + |a.part|)
  {
    hide Got, Genuine;
    forall k | 0 <= k < |t.sent| && k < Base(t) + a.pos + |a.part| ensures Got(t.received, k) {
      GotMore(s.received, a.part, k);
      if k < Base(s) + a.pos {
        assert Got(s.received, k);
      } else if PartHere(s, a) {
        var j := k - Base(s) - a.pos;
        assert a.part[j] == s.file[a.pos + j];
      }
    }
  }

  lemma CopyOutFlow(s: State, p: nat)
    requires Flow(s) && IsReading(s, p)
    ensures Flow(CopyOut(s, p))
  {
    hide Covered, Genuine;
    var t := CopyOut(s, p);
    var a := s.procs[p].act;
    CoveredPart(s, t, a);
    CoveredMore(s, t, a.part, s.off);
    forall q | q in t.procs && t.procs[q].act.Reading? ensures ReadingOk(t, t.procs[q].act) {
      var b := s.procs[q].act;
      CoveredMore(s, t, a.part, b.pos);
      SameGenuine(s, t);
    }
    SameGenuine(s, t);
  }

  lemma SameGenuine(s: State, t: State)
    requires s.sent <= t.sent
    ensures forall x :: Genuine(s.sent, x) ==> Genuine(t.sent, x)
  {
  }

  lemma ReadOnSound(s: State, p: nat)
    requires Sound(s) && IsReading(s, p)
    ensures Sound(ReadOn(s, p))
  {
    hide Sound, Release, Return, SetAct;
    var a := s.procs[p].act;
    if NextCount(s, a.pos, a.left) == 0 {
      LeaveReadingSound(s, p);
    } else {
      FetchSound(s, p);
    }
  }

  lemma ReadEnterSound(s: State, p: nat)
    requires Sound(s) && Awake(s, p) && s.procs[p].act.ReadTop? && s.lock == None
    ensures Sound(ReadEnter(s, p))
  {
    hide Sound, Ends, Reset, Release, ReadOn;
    if s.off == |s.file| {
      ResetSound(s, p);
      var t := Reset(s);
      UnlockedSound(t);
      var u := Release(t);
      EndsSame(t, u);
      if Ends(u) < 2 {
        ReturnSound(u, p, Completed);
      } else {
        SleepDataSound(u, p);
      }
    } else {
      StartReadingSound(s, p);
      ReadOnSound(StartReading(s, p), p);
    }
  }

  // ---- The loop of writep ----

  lemma SleepSpaceSound(s: State, p: nat)
    requires Sound(s) && p in s.procs && s.procs[p].act.WriteTop? && s.lock == None
    requires |s.file| == PIPSIZ && Ends(s) == 2
    ensures Sound(Asleep(s.(iwrite := true), p, Space))
  {
    hide Flow, Locking, Shares, Ends;
    var t := Asleep(s.(iwrite := true), p, Space);
    assert TypedAct(s, s.procs[p].act) && ProcOk(s, p);
    QuietStep(s, t, p);
    forall q | q in t.procs ensures ProcOk(t, q) {
      assert ProcOk(s, q);
    }
  }

  lemma StartWritingSound(s: State, p: nat)
    requires Sound(s) && Awake(s, p) && s.procs[p].act.WriteTop? && s.lock == None && Ends(s) == 2
    requires |s.file| < PIPSIZ && s.procs[p].act.done < |s.procs[p].act.data|
    ensures Sound(StartWriting(s, p))
  {
    hide Ends, Shares, Flow, Locking, Procs, Typed;
    var t := StartWriting(s, p);
    Facts(s, p);
    CallFds(s, p);
    hide ProcOk;
    EnterSound(s, t, p);
  }

  lemma WriteEnterSound(s: State, p: nat)
    requires Sound(s) && Awake(s, p) && s.procs[p].act.WriteTop? && s.lock == None
    ensures s.procs[p].act.done <= |s.procs[p].act.data| && |s.file| <= PIPSIZ && Sound(WriteEnter(s, p))
  {
    hide Sound, Ends, ProcOk;
    Facts(s, p);
    UnlockedSound(s);
    var u := Release(s);
    EndsSame(s, u);
    var a := s.procs[p].act;
    if a.done == |a.data| {
      ReturnSound(u, p, Completed);
    } else if Ends(s) < 2 {
      ReturnSound(u, p, Broken);
    } else if |s.file| == PIPSIZ {
      SleepSpaceSound(u, p);
      assert Release(s.(iwrite := true)) == u.(iwrite := true);
    } else {
      StartWritingSound(s, p);
    }
  }

  lemma LeaveWritingShape(s: State, p: nat)
    requires IsWriting(s, p) && s.procs[p].act.done <= |s.procs[p].act.data|
    ensures var t := LeaveWriting(s, p);
            var a := s.procs[p].act;
            && t == s.(procs := t.procs, lock := None, want := false, iread := false) && OnlyMoves(s, t, p)
            && t.procs[p] == s.procs[p].(act := WriteTop(a.fd, a.data, a.done), sleep := None)
            && forall q :: q in s.procs && q != p ==>
                 t.procs[q].sleep == if (s.want && s.procs[q].sleep == Some(Lock))
                                        || (s.iread && s.procs[q].sleep == Some(Data)) then None else s.procs[q].sleep
  {
    hide Release, Wakeup;
    ReleaseProcs(s);
    WakeupProcs(Release(s).(iread := false), Data);
  }

  lemma LeaveWritingSound(s: State, p: nat)
    requires Sound(s) && IsWriting(s, p)
    ensures var t := LeaveWriting(s, p);
            Sound(t) && Awake(t, p) && t.lock == None && t.procs[p].act.WriteTop?
  {
    hide Ends, Shares, LeaveWriting, Locking, Typed, ProcOk, Procs, Flow;
    Facts(s, p);
    LeaveWritingShape(s, p);
    var t := LeaveWriting(s, p);
    EndsSame(s, t);
    LockHolder(s, p);
    LockingStep(s, t, p);
    SharesStep(s, t, p);
    TypedStep(s, t, p);
    FlowStep(s, t, p);
    LeaveWritingProcs(s, t, p);
  }

  lemma LeaveWritingProcs(s: State, t: State, p: nat)
    requires Sound(s) && IsWriting(s, p) && OnlyMoves(s, t, p)
    requires t == s.(procs := t.procs, lock := None, want := false, iread := false)
    requires t.procs[p].act.WriteTop? && t.procs[p].act.fd == s.procs[p].act.fd && t.procs[p].sleep == None
    requires forall q :: q in s.procs && q != p ==>
               t.procs[q].sleep == if (s.want && s.procs[q].sleep == Some(Lock))
                                      || (s.iread && s.procs[q].sleep == Some(Data)) then None else s.procs[q].sleep
    ensures Procs(t)
  {
    hide Ends, Shares, Locking, Flow, Typed, Taken;
    EndsSame(s, t);
    LockHolder(s, p);
    forall q | q in t.procs ensures ProcOk(t, q) {
      assert ProcOk(s, q);
    }
  }

  lemma {:induction false} FromAppend(a: seq<(Byte, nat)>, w: seq<Byte>, p: nat, q: nat)
    ensures From(a + Tagged(w, p), q) == From(a, q) + (if q == p then w else [])
    decreases |w|
  {
    if w == [] {
      assert a + Tagged(w, p) == a;
    } else {
      var n := |w| - 1;
      var b := Tagged(w[..n], p);
      FromAppend(a, w[..n], p, q);
      assert a + Tagged(w, p) == (a + b) + [(w[n], p)];
      assert ((a + b) + [(w[n], p)])[..|a + b|] == a + b;
      assert w == w[..n] + [w[n]];
    }
  }

  // A block is written behind what is there.
  lemma CopyInSound(s: State, p: nat, n: nat)
    requires Sound(s) && IsWriting(s, p) && s.procs[p].act.done + n <= s.procs[p].act.upto
    ensures s.procs[p].act.done + n <= |s.procs[p].act.data| && Sound(CopyIn(s, p, n))
  {
    hide Ends, Shares, Locking, ProcOk, Procs, Flow, Cells, Tagged, From;
    var Writing(fd, data, done, upto) := s.procs[p].act;
    AloneWriting(s, p);
    Facts(s, p);
    var t := CopyIn(s, p, n);
    CopyInTyped(s, t, p, n);
    hide Typed;
    CopyInLocking(s, t, p);
    CopyInShares(s, t, p, n);
    CopyInFlow(s, t, p, n);
    CopyInProcs(s, t, p);
  }

  ghost predicate Beside(s: State, t: State, p: nat) {
    && p in s.procs && p in t.procs && t.procs == s.procs[p := t.procs[p]] && SameFds(s, t)
    && t.lock == s.lock && t.sync == s.sync && t.want == s.want && t.iread == s.iread && t.iwrite == s.iwrite
    && t.procs[p].sleep == None && t.procs[p].past == s.procs[p].past
    && s.procs[p].act.Writing? && t.procs[p].act.Writing? && t.procs[p].act.fd == s.procs[p].act.fd
  }

  lemma CopyInTyped(s: State, t: State, p: nat, n: nat)
    requires Typed(s) && IsWriting(s, p) && s.procs[p].act.done + n <= s.procs[p].act.upto <= |s.procs[p].act.data|
    requires t == CopyIn(s, p, n)
    requires forall q :: q in s.procs && q != p ==> !Inside(s.procs[q].act)
    ensures Typed(t) && Beside(s, t, p)
  {
    assert TypedAct(s, s.procs[p].act);
    forall q | q in t.procs ensures TypedAct(t, t.procs[q].act) {
      assert TypedAct(s, s.procs[q].act);
    }
  }

  lemma CopyInLocking(s: State, t: State, p: nat)
    requires Locking(s) && Beside(s, t, p)
    ensures Locking(t)
  {
    hide Ends;
    EndsSame(s, t);
  }

  lemma CopyInShares(s: State, t: State, p: nat, n: nat)
    requires Shares(s) && IsWriting(s, p) && s.procs[p].act.done + n <= |s.procs[p].act.data| && t == CopyIn(s, p, n)
    ensures Shares(t)
  {
    hide From, Shares;
    var a := s.procs[p].act;
    var w := a.data[a.done..a.done + n];
    assert a.data[..a.done + n] == a.data[..a.done] + w;
    MoreShares(s, t, p, w);
  }

  lemma MoreShares(s: State, t: State, p: nat, w: seq<Byte>)
    requires Shares(s) && t.procs.Keys == s.procs.Keys && p in s.procs && t.sent == s.sent + Tagged(w, p)
    requires forall q :: q in s.procs && q != p ==> t.procs[q] == s.procs[q]
    requires t.procs[p].past == s.procs[p].past && Taken(t.procs[p].act) == Taken(s.procs[p].act) + w
    ensures Shares(t)
  {
    hide From, Taken;
    forall q | q in t.procs ensures From(t.sent, q) == t.procs[q].past + Taken(t.procs[q].act) {
      FromAppend(s.sent, w, p, q);
      assert q in s.procs;
    }
  }

  lemma CopyInLatest(s: State, t: State, w: seq<Byte>, p: nat)
    requires Latest(s) && t.file == s.file + Cells(w, |s.sent|) && t.sent == s.sent + Tagged(w, p)
    ensures Latest(t) && Base(t) == Base(s) && |t.file| == |s.file| + |w| && s.sent <= t.sent
  {
    forall i | 0 <= i < |t.file| ensures t.file[i] == Cell(t.sent[Base(t) + i].0, Base(t) + i) {
      if i >= |s.file| {
        assert t.file[i] == Cells(w, |s.sent|)[i - |s.file|];
        assert t.sent[Base(t) + i] == Tagged(w, p)[i - |s.file|];
      }
    }
  }

  lemma CopyInFlow(s: State, t: State, p: nat, n: nat)
    requires Flow(s) && IsWriting(s, p) && s.procs[p].act.done + n <= |s.procs[p].act.data| && t == CopyIn(s, p, n)
    requires s.off <= |s.file| && (forall q :: q in s.procs && q != p ==> !Inside(s.procs[q].act))
    ensures Flow(t)
  {
    hide Got, Cells, Tagged, Latest, Genuine;
    var a := s.procs[p].act;
    CopyInLatest(s, t, a.data[a.done..a.done + n], p);
    SameGenuine(s, t);
    assert Covered(t, t.off);
  }

  lemma CopyInProcs(s: State, t: State, p: nat)
    requires Sound(s) && IsWriting(s, p) && Beside(s, t, p)
    ensures Procs(t)
  {
    hide Ends, Shares, Locking, Flow, Typed;
    EndsSame(s, t);
    LockHolder(s, p);
    forall q | q in t.procs ensures ProcOk(t, q) {
      assert ProcOk(s, q);
    }
  }

  lemma WriteChunkSound(s: State, p: nat)
    requires Sound(s) && Typed(s) && IsWriting(s, p)
    ensures Sound(WriteChunk(s, p))
  {
    hide Sound, Typed, CopyIn, LeaveWriting, WriteEnter, ProcOk;
    Facts(s, p);
    var a := s.procs[p].act;
    var n := Min(512 - |s.file| % 512, a.upto - a.done);
    CopyInSound(s, p, n);
    var t := CopyIn(s, p, n);
    CopyInShape(s, p, n);
    if t.procs[p].act.done >= a.upto {
      LeaveWritingSound(t, p);
      WriteEnterSound(LeaveWriting(t, p), p);
    }
  }

  // ---- Closing and duplicating ----

  lemma CloseSound(s: State, r: set<(nat, nat)>, w: set<(nat, nat)>)
    requires Sound(s) && r <= s.readFds && w <= s.writeFds
    requires forall x: (nat, nat) :: x in s.readFds && x.0 in s.procs && InRead(s.procs[x.0].act) ==> x in r
    requires forall x: (nat, nat) :: x in s.writeFds && x.0 in s.procs && InWrite(s.procs[x.0].act) ==> x in w
    ensures Sound(Closed(s, r, w))
  {
    hide Shares, Ends, Closing, Release, From, Taken, Locking, Flow, Typed, Procs;
    var u := Closing(s).(readFds := r, writeFds := w);
    ClosingProcs(s);
    ReleaseProcs(u);
    EndsSame(u, Release(u));
    var t := Closed(s, r, w);
    FewerEnds(s, t);
    assert SameActs(s, t);
    CloseLocking(s, t);
    CloseTyped(s, t);
    SameFlow(s, t);
    CloseShares(s, t);
    CloseProcs(s, t);
  }

  lemma FewerEnds(s: State, t: State)
    requires t.readFds <= s.readFds && t.writeFds <= s.writeFds
    ensures Ends(t) <= Ends(s) <= 2
  {
  }

  lemma CloseLocking(s: State, t: State)
    requires Locking(s) && SameActs(s, t) && Ends(t) <= Ends(s) <= 2
    requires t.sync == s.sync && if Ends(t) < Ends(s) then t.lock == None else t.lock == s.lock
    ensures Locking(t)
  {
    hide Ends;
  }

  lemma CloseTyped(s: State, t: State)
    requires Typed(s) && SameActs(s, t) && t.file == s.file
    ensures Typed(t)
  {
    forall q | q in t.procs ensures TypedAct(t, t.procs[q].act) {
      assert TypedAct(s, s.procs[q].act);
    }
  }

  lemma CloseShares(s: State, t: State)
    requires Shares(s) && SameActs(s, t) && t.sent == s.sent
    ensures Shares(t)
  {
    hide From, Taken;
  }

  lemma CloseProcs(s: State, t: State)
    requires Procs(s) && SameActs(s, t) && t.file == s.file
    requires t.readFds <= s.readFds && t.writeFds <= s.writeFds
    requires forall x: (nat, nat) :: x in s.readFds && x.0 in s.procs && InRead(s.procs[x.0].act) ==> x in t.readFds
    requires forall x: (nat, nat) :: x in s.writeFds && x.0 in s.procs && InWrite(s.procs[x.0].act) ==> x in t.writeFds
    requires forall q :: q in s.procs && t.procs[q].sleep != None ==>
               t.procs[q].sleep == s.procs[q].sleep && s.procs[q].sleep !in {Some(Space), Some(Data)}
    requires forall q :: q in s.procs && t.procs[q].sleep == Some(Lock) && s.want ==>
               t.lock == s.lock && t.want == s.want
    ensures Procs(t)
  {
    hide Ends;
    forall q | q in t.procs ensures ProcOk(t, q) {
      assert ProcOk(s, q);
      var x := (q, if s.procs[q].act.Idle? then 0 else s.procs[q].act.fd);
      assert x.0 in s.procs;
    }
  }

  lemma {:induction false} FromNobody(sent: seq<(Byte, nat)>, q: nat)
    requires forall x :: x in sent ==> x.1 != q
    ensures From(sent, q) == []
  {
    if sent != [] {
      var n := |sent| - 1;
      assert sent[n] in sent;
      FromNobody(sent[..n], q);
    }
  }

  lemma NewProcSound(s: State, q: nat)
    requires Sound(s)
    ensures Sound(NewProc(s, q))
  {
    hide From, Ends, Got, Genuine, Covered;
    if q !in s.procs {
      var t := NewProc(s, q);
      FromNobody(s.sent, q);
      EndsSame(s, t);
      assert Locking(t) && Shares(t) && Typed(t);
      NewProcFlow(s, t, q);
      hide Locking, Flow, Shares, Typed;
      forall x | x in t.procs ensures ProcOk(t, x) {
        assert x in s.procs ==> ProcOk(s, x);
      }
    }
  }

  lemma NewProcFlow(s: State, t: State, q: nat)
    requires Flow(s) && q !in s.procs && t == NewProc(s, q)
    ensures Flow(t)
  {
    hide Got, Genuine;
    forall r | r in t.procs && t.procs[r].act.Reading? ensures ReadingOk(t, t.procs[r].act) {
    }
  }

  lemma DupSound(s: State, p: nat, fd: nat, q: nat, fd': nat)
    requires Sound(s) && Typed(s) && Enabled(s, Dup(p, fd, q, fd'))
    ensures Sound(Apply(s, Dup(p, fd, q, fd')))
  {
    hide Sound, Typed;
    NewProcSound(s, q);
    MoreFdsSound(NewProc(s, q), Apply(s, Dup(p, fd, q, fd')), q);
  }

  lemma MoreFdsSound(s: State, t: State, q: nat)
    requires Sound(s) && t == s.(readFds := t.readFds, writeFds := t.writeFds) && q in s.procs
    requires s.readFds <= t.readFds && s.writeFds <= t.writeFds
    requires (s.readFds == {} <==> t.readFds == {}) && (s.writeFds == {} <==> t.writeFds == {})
    requires forall x :: x in t.readFds || x in t.writeFds ==> x in s.readFds || x in s.writeFds || x.0 == q
    ensures Sound(t)
  {
    hide Flow, Shares, From;
    assert Ends(t) == Ends(s);
    hide Ends;
    assert Locking(t) && Shares(t) by {
      CloseShares(s, t);
    }
    SameFlow(s, t);
    hide Locking;
    CloseTyped(s, t);
    hide Typed;
    forall x | x in t.procs ensures ProcOk(t, x) {
      assert ProcOk(s, x);
    }
  }

  // ---- Every run ----

  lemma ReadStepSound(s: State, p: nat)
    requires Sound(s) && Typed(s) && Enabled(s, ReadStep(p))
    ensures Sound(Apply(s, ReadStep(p)))
  {
    hide Sound, Typed, ReadEnter, ReadOn, CopyOut, Locked;
    if s.procs[p].act.Reading? {
      CopyOutSound(s, p);
      CopyOutAct(s, p);
      ReadOnSound(CopyOut(s, p), p);
    } else if s.lock.Some? {
      LockedSound(s, p);
    } else {
      ReadEnterSound(s, p);
    }
  }

  lemma CopyOutAct(s: State, p: nat)
    requires IsReading(s, p)
    ensures IsReading(CopyOut(s, p), p)
  {
  }

  lemma WriteStepSound(s: State, p: nat)
    requires Sound(s) && Typed(s) && Enabled(s, WriteStep(p))
    ensures Sound(Apply(s, WriteStep(p)))
  {
    hide Sound, WriteEnter, WriteChunk, Locked, TypedAct;
    if s.procs[p].act.Writing? {
      WriteChunkSound(s, p);
    } else if s.lock.Some? {
      LockedSound(s, p);
    } else {
      WriteEnterSound(s, p);
    }
  }

  // A close, with all that closef, closei and iput do.
  lemma ClosingInv(s: State, e: Event)
    requires Sound(s) && Typed(s) && Enabled(s, e) && (e.CloseRead? || e.CloseWrite?)
    ensures Sound(Apply(s, e))
  {
    hide Closed, Sound, Typed;
    var x := (e.p, e.fd);
    CloseSound(s, if e.CloseRead? then s.readFds - {x} else s.readFds,
      if e.CloseWrite? then s.writeFds - {x} else s.writeFds);
  }

  // A signal reaches a process asleep on the pipe: its call ends there.
  lemma SignalSound(s: State, p: nat)
    requires Sound(s) && Typed(s) && Enabled(s, Signal(p))
    ensures Sound(Apply(s, Signal(p)))
  {
    hide Sound, Typed, Return;
    Facts(s, p);
    ReturnSound(s, p, Interrupted);
  }

  lemma SyncSound(s: State)
    requires Sound(s) && Typed(s) && Enabled(s, Sync)
    ensures Sound(Apply(s, Sync))
  {
    hide Ends, From, Got, Genuine, Covered, Typed;
    var t := Apply(s, Sync);
    EndsSame(s, t);
    assert Locking(t) && Shares(t);
    CloseTyped(s, t);
    SameFlow(s, t);
    hide Locking, Shares, Flow;
    forall q | q in t.procs ensures ProcOk(t, q) {
      assert ProcOk(s, q);
    }
  }

  lemma SyncDoneSound(s: State)
    requires Sound(s) && Typed(s) && Enabled(s, SyncDone)
    ensures Sound(Apply(s, SyncDone))
  {
    hide Ends, From, Taken, Got, Genuine, Covered, Typed, Release;
    var t := Apply(s, SyncDone);
    ReleaseProcs(s);
    EndsSame(s, t);
    assert Locking(t) && Shares(t);
    CloseTyped(s, t);
    SameFlow(s, t);
    hide Locking, Shares, Flow;
    forall q | q in t.procs ensures ProcOk(t, q) {
      assert ProcOk(s, q);
    }
  }

  lemma CallStepSound(s: State, e: Event)
    requires Sound(s) && Typed(s) && Enabled(s, e) && (e.Read? || e.Write?)
    ensures Sound(Apply(s, e))
  {
    hide Sound, Typed;
    CallSound(s, e.p, if e.Read? then ReadTop(e.fd, e.count) else WriteTop(e.fd, e.data, 0));
  }

  lemma ApplySound(s: State, e: Event)
    requires Sound(s) && Typed(s) && Enabled(s, e)
    ensures Sound(Apply(s, e))
  {
    hide Sound, Apply, Typed;
    match e {
      case Read(_, _, _) => CallStepSound(s, e);
      case Write(_, _, _) => CallStepSound(s, e);
      case ReadStep(p) => ReadStepSound(s, p);
      case WriteStep(p) => WriteStepSound(s, p);
      case CloseRead(_, _) => ClosingInv(s, e);
      case CloseWrite(_, _) => ClosingInv(s, e);
      case Dup(p, fd, q, fd') => DupSound(s, p, fd, q, fd');
      case Signal(p) => SignalSound(s, p);
      case Sync => SyncSound(s);
      case SyncDone => SyncDoneSound(s);
    }
  }

  // ---- Readers that stay where they are ----

  // What every step but those of readers inside, or going in, does.
  ghost predicate ReadersStay(s: State, t: State) {
    && t.received == s.received && t.off == s.off && Base(t) == Base(s) && s.file <= t.file
    && s.procs.Keys <= t.procs.Keys
    && (forall q :: q in t.procs && t.procs[q].act.Reading? ==> q in s.procs && t.procs[q].act == s.procs[q].act)
    && (forall q :: q in s.procs && s.procs[q].act.Reading? ==> t.procs[q].act == s.procs[q].act)
  }

  ghost predicate OthersAct(s: State, t: State, p: nat) {
    && t.procs.Keys == s.procs.Keys && p in s.procs
    && forall q :: q in s.procs && q != p ==> t.procs[q].act == s.procs[q].act
  }

  lemma NotAReader(s: State, t: State, p: nat)
    requires OthersAct(s, t, p) && !IsReading(s, p) && !IsReading(t, p)
    requires t.received == s.received && t.off == s.off && Base(t) == Base(s) && s.file <= t.file
    ensures ReadersStay(s, t)
  {
  }

  lemma ReturnShape(s: State, u: State, p: nat, o: Outcome)
    requires p in s.procs && SameActs(s, u)
    ensures var t := Return(u, p, o);
            t == u.(procs := t.procs) && OthersAct(s, t, p) && t.procs[p].act == Idle(o)
  {
  }

  lemma AsleepShape(s: State, u: State, p: nat, c: Channel)
    requires p in s.procs && SameActs(s, u)
    ensures var t := Asleep(u, p, c);
            t == u.(procs := t.procs) && OthersAct(s, t, p) && t.procs[p].act == s.procs[p].act
  {
  }

  lemma WaitShape(s: State, p: nat)
    requires p in s.procs && s.procs[p].act.WriteTop?
    ensures var t := Asleep(Release(s.(iwrite := true)), p, Space);
            && t == s.(iwrite := true, lock := None, want := false, procs := t.procs)
            && OthersAct(s, t, p) && !IsReading(t, p)
  {
    hide Release, Asleep;
    var v := s.(iwrite := true);
    ReleaseProcs(v);
    AsleepShape(v, Release(v), p, Space);
  }

  lemma StartWritingShape(s: State, p: nat)
    requires p in s.procs && s.procs[p].act.WriteTop?
    requires s.procs[p].act.done <= |s.procs[p].act.data| && |s.file| <= PIPSIZ
    ensures var t := StartWriting(s, p);
            t == s.(lock := Some(By(p)), procs := t.procs) && IsWriting(t, p) && OthersAct(s, t, p)
  {
  }

  lemma WriteEnterShape(s: State, p: nat)
    requires p in s.procs && s.procs[p].act.WriteTop?
    requires s.procs[p].act.done <= |s.procs[p].act.data| && |s.file| <= PIPSIZ
    ensures var t := WriteEnter(s, p);
            && t == s.(lock := t.lock, want := t.want, iwrite := t.iwrite, procs := t.procs)
            && OthersAct(s, t, p) && !IsReading(t, p)
  {
    hide Release, Ends, Return, Asleep, SameActs, OthersAct, StartWriting;
    ReleaseProcs(s);
    ReturnShape(s, Release(s), p, Completed);
    ReturnShape(s, Release(s), p, Broken);
    WaitShape(s, p);
    StartWritingShape(s, p);
  }

  lemma LeaveWritingAct(s: State, p: nat)
    requires IsWriting(s, p) && s.procs[p].act.done <= |s.procs[p].act.data|
    ensures var t := LeaveWriting(s, p);
            && t == s.(procs := t.procs, lock := None, want := false, iread := false) && OthersAct(s, t, p)
            && t.procs[p].act == WriteTop(s.procs[p].act.fd, s.procs[p].act.data, s.procs[p].act.done)
            && t.procs[p].past == s.procs[p].past
  {
    hide LeaveWriting;
    LeaveWritingShape(s, p);
  }

  lemma CopyInShape(s: State, p: nat, n: nat)
    requires IsWriting(s, p) && s.procs[p].act.done + n <= |s.procs[p].act.data|
    ensures var t := CopyIn(s, p, n);
            && OthersAct(s, t, p) && SameFds(s, t) && t.procs[p].act == s.procs[p].act.(done := s.procs[p].act.done + n)
            && t.procs[p].past == s.procs[p].past
            && t.received == s.received && t.off == s.off && Base(t) == Base(s) && s.file <= t.file
            && |t.file| == |s.file| + n
  {
  }

  lemma WriteChunkShape(s: State, p: nat)
    requires Typed(s) && IsWriting(s, p)
    ensures var t := WriteChunk(s, p);
            && OthersAct(s, t, p) && !IsReading(t, p) && SameFds(s, t)
            && t.received == s.received && t.off == s.off && Base(t) == Base(s) && s.file <= t.file
  {
    hide LeaveWriting, WriteEnter, Typed, CopyIn;
    TypedFacts(s, p);
    var a := s.procs[p].act;
    var n := Min(512 - |s.file| % 512, a.upto - a.done);
    var t := CopyIn(s, p, n);
    CopyInShape(s, p, n);
    if t.procs[p].act.done >= a.upto {
      LeaveWritingAct(t, p);
      WriteEnterShape(LeaveWriting(t, p), p);
    }
  }

  lemma TypedFacts(s: State, p: nat)
    requires Typed(s) && p in s.procs
    ensures TypedAct(s, s.procs[p].act) && |s.file| <= PIPSIZ
  {
  }

  lemma ClosedShape(s: State, r: set<(nat, nat)>, w: set<(nat, nat)>)
    requires r <= s.readFds && w <= s.writeFds
    ensures var t := Closed(s, r, w);
            && t == s.(procs := t.procs, lock := t.lock, want := t.want, iread := false, iwrite := false,
                       readFds := r, writeFds := w)
            && SameActs(s, t) && (t.lock == None || t.lock == s.lock)
            && (Ends(t) == Ends(s) ==> t.lock == s.lock) && (Ends(t) < Ends(s) ==> t.lock == None)
  {
    hide Closing, Release, Ends;
    var u := Closing(s).(readFds := r, writeFds := w);
    ClosingProcs(s);
    ReleaseProcs(u);
    EndsSame(u, Release(u));
    FewerEnds(s, u);
  }

  // Steps of readers inside, or going in.
  ghost predicate OfReader(s: State, e: Event) {
    && e.ReadStep? && e.p in s.procs
    && (s.procs[e.p].act.Reading? || (s.procs[e.p].act.ReadTop? && s.lock == None))
  }

  lemma WriteStepStays(s: State, p: nat)
    requires Typed(s) && Enabled(s, WriteStep(p))
    ensures ReadersStay(s, Apply(s, WriteStep(p)))
  {
    hide Typed, WriteEnter, WriteChunk, ReadersStay;
    var t := Apply(s, WriteStep(p));
    TypedFacts(s, p);
    if s.procs[p].act.Writing? {
      WriteChunkShape(s, p);
    } else if s.lock == None {
      WriteEnterShape(s, p);
    }
    NotAReader(s, t, p);
  }

  lemma SameReaders(s: State, t: State)
    requires SameActs(s, t) && SameData(s, t)
    ensures ReadersStay(s, t)
  {
  }

  lemma CloseStays(s: State, r: set<(nat, nat)>, w: set<(nat, nat)>)
    requires r <= s.readFds && w <= s.writeFds
    ensures ReadersStay(s, Closed(s, r, w))
  {
    hide Closed, Ends;
    ClosedShape(s, r, w);
  }

  lemma DupStays(s: State, t: State, q: nat)
    requires t == NewProc(s, q).(readFds := t.readFds, writeFds := t.writeFds)
    ensures ReadersStay(s, t)
  {
  }

  lemma StepStays(s: State, e: Event)
    requires Sound(s) && Typed(s) && Enabled(s, e) && !OfReader(s, e)
    ensures ReadersStay(s, Apply(s, e))
  {
    hide Sound, ProcOk, Typed, Closed, WriteEnter, WriteChunk, Ends, ReadersStay, SetAct, Locked, Return, Release;
    var t := Apply(s, e);
    match e {
      case Read(p, fd, count) => CallStays(s, p, ReadTop(fd, count));
      case Write(p, fd, data) => CallStays(s, p, WriteTop(fd, data, 0));
      case ReadStep(p) => LockedStays(s, p);
      case WriteStep(p) => WriteStepStays(s, p);
      case CloseRead(p, fd) => CloseStays(s, s.readFds - {(p, fd)}, s.writeFds);
      case CloseWrite(p, fd) => CloseStays(s, s.readFds, s.writeFds - {(p, fd)});
      case Dup(_, _, q, _) => DupStays(s, t, q);
      case Signal(p) =>
        SleeperOutside(s, p);
        ReturnStays(s, p);
      case Sync => SameReaders(s, t);
      case SyncDone =>
        ReleaseProcs(s);
        SameReaders(s, t);
    }
  }

  lemma CallStays(s: State, p: nat, a: Activity)
    requires p in s.procs && !s.procs[p].act.Reading? && !a.Reading?
    ensures ReadersStay(s, SetAct(s, p, a))
  {
    NotAReader(s, SetAct(s, p, a), p);
  }

  lemma LockedStays(s: State, p: nat)
    requires p in s.procs
    ensures ReadersStay(s, Locked(s, p))
  {
  }

  lemma ReturnStays(s: State, p: nat)
    requires p in s.procs && !s.procs[p].act.Reading?
    ensures ReadersStay(s, Return(s, p, Interrupted))
  {
    NotAReader(s, Return(s, p, Interrupted), p);
  }

  lemma SleeperOutside(s: State, p: nat)
    requires Sound(s) && p in s.procs && s.procs[p].sleep != None
    ensures !Inside(s.procs[p].act)
  {
    assert ProcOk(s, p);
  }

  // ---- Steps of readers ----

  lemma ReadOnShape(s: State, p: nat)
    requires IsReading(s, p)
    ensures var t := ReadOn(s, p);
            var a := s.procs[p].act;
            var n := NextCount(s, a.pos, a.left);
            && t == s.(lock := t.lock, want := t.want, off := t.off, procs := t.procs) && OthersAct(s, t, p)
            && (n == 0 ==> t.off == a.pos && t.lock == None && t.procs[p].act == Idle(Completed))
            && (n > 0 ==> t.off == s.off && t.lock == s.lock
                          && t.procs[p].act == Reading(a.fd, a.pos, s.file[a.pos..a.pos + n], a.left - n))
  {
    hide Release, Return;
    var r := s.(off := s.procs[p].act.pos);
    ReleaseProcs(r);
    ReturnShape(r, Release(r), p, Completed);
  }

  lemma CopyOutShape(s: State, p: nat)
    requires IsReading(s, p)
    ensures var t := CopyOut(s, p);
            var a := s.procs[p].act;
            && t == s.(received := s.received + a.part, procs := t.procs) && OthersAct(s, t, p)
            && t.procs[p].act == Reading(a.fd, a.pos + |a.part|, [], a.left)
  {
  }

  // A reader goes in where there is something to read; otherwise it goes out or asleep.
  lemma ReadEnterShape(s: State, p: nat)
    requires Sound(s) && p in s.procs && s.procs[p].act.ReadTop? && s.lock == None
    ensures var t := ReadEnter(s, p);
            && OthersAct(s, t, p) && SameFds(s, t) && t.sent == s.sent && t.received == s.received && t.sync == s.sync
            && if s.off == |s.file| then t.file == [] && t.off == 0 && t.lock == None && !IsReading(t, p)
               else
                 var a := s.procs[p].act;
                 var n := NextCount(s, s.off, a.count);
                 && t.file == s.file && t.off == s.off
                 && if n == 0 then t.lock == None && t.procs[p].act == Idle(Completed)
                    else t.lock == Some(By(p))
                         && t.procs[p].act == Reading(a.fd, s.off, s.file[s.off..s.off + n], a.count - n)
  {
    hide Sound, Release, Return, ReadOn, Reset, Ends, Asleep;
    if s.off == |s.file| {
      ReadNothingShape(s, p);
    } else {
      StartReadingShape(s, p);
      ReadOnShape(StartReading(s, p), p);
    }
  }

  lemma ReadNothingShape(s: State, p: nat)
    requires Sound(s) && p in s.procs && s.procs[p].act.ReadTop? && s.lock == None && s.off == |s.file|
    ensures var t := ReadEnter(s, p);
            && OthersAct(s, t, p) && SameFds(s, t) && t.sent == s.sent && t.received == s.received && t.sync == s.sync
            && t.file == [] && t.off == 0 && t.lock == None && !IsReading(t, p)
  {
    hide Sound, Release, Return, ReadOn, Reset, Ends, Asleep, SameActs, OthersAct;
    ResetProcs(s);
    var u := Release(Reset(s));
    ReleaseProcs(Reset(s));
    SameActsBoth(s, Reset(s), u);
    SameActsProcs(s, u, u.(iread := true));
    ReturnShape(s, u, p, Completed);
    AsleepShape(s, u.(iread := true), p, Data);
  }

  lemma SameActsBoth(s: State, t: State, u: State)
    requires SameActs(s, t) && SameActs(t, u)
    ensures SameActs(s, u)
  {
  }

  lemma SameActsProcs(s: State, t: State, u: State)
    requires SameActs(s, t) && u.procs == t.procs
    ensures SameActs(s, u)
  {
  }

  lemma StartReadingShape(s: State, p: nat)
    requires p in s.procs && s.procs[p].act.ReadTop?
    ensures var t := StartReading(s, p);
            && t == s.(lock := Some(By(p)), procs := t.procs) && OthersAct(s, t, p)
            && t.procs[p].act == Reading(s.procs[p].act.fd, s.off, [], s.procs[p].act.count)
  {
  }

  lemma ReadChunkShape(s: State, p: nat)
    requires IsReading(s, p)
    ensures var t := ReadChunk(s, p);
            var a := s.procs[p].act;
            var pos := a.pos + |a.part|;
            var n := NextCount(s, pos, a.left);
            && OthersAct(s, t, p) && SameFds(s, t) && t.sent == s.sent && t.file == s.file && t.sync == s.sync
            && t.received == s.received + a.part
            && (n == 0 ==> t.off == pos && t.lock == None && t.procs[p].act == Idle(Completed))
            && (n > 0 ==> t.off == s.off && t.lock == s.lock
                          && t.procs[p].act == Reading(a.fd, pos, s.file[pos..pos + n], a.left - n))
  {
    hide ReadOn, CopyOut;
    CopyOutShape(s, p);
    ReadOnShape(CopyOut(s, p), p);
  }

  lemma ReaderFetching(s: State, e: Event)
    requires Inv(s) && Typed(s) && Enabled(s, e) && OfReader(s, e)
    ensures Fetching(Apply(s, e))
  {
    hide Sound, Typed, ReadEnter, CopyOut, ReadOn, Release;
    var p := e.p;
    if s.procs[p].act.Reading? {
      CopyOutShape(s, p);
      ReadOnShape(CopyOut(s, p), p);
    } else {
      ReadEnterShape(s, p);
    }
  }

  lemma StepInv(s: State, e: Event)
    requires Inv(s)
    ensures Inv(Moved(s, e))
  {
    hide Sound, Typed, Apply, Enabled, OfReader, Base;
    if Typed(s) && Enabled(s, e) {
      ApplySound(s, e);
      if OfReader(s, e) {
        ReaderFetching(s, e);
      } else {
        StepStays(s, e);
      }
    }
  }

  lemma OpenedInv(p: nat, rfd: nat, wfd: nat)
    ensures Inv(Opened(p, rfd, wfd))
  {
    var s := Opened(p, rfd, wfd);
    assert Flow(s) && Locking(s);
    assert ProcOk(s, p);
  }

  lemma {:induction false} AfterInv(s: State, es: seq<Event>)
    requires Inv(s)
    ensures Inv(After(s, es))
  {
    hide Inv, Moved;
    if es != [] {
      AfterInv(s, es[..|es| - 1]);
      StepInv(After(s, es[..|es| - 1]), es[|es| - 1]);
    }
  }

  lemma RunInv(p: nat, rfd: nat, wfd: nat, es: seq<Event>)
    ensures Inv(After(Opened(p, rfd, wfd), es))
  {
    OpenedInv(p, rfd, wfd);
    AfterInv(Opened(p, rfd, wfd), es);
  }

  // ---- What runs keep ----

  // In every run, whatever its closes: what comes out went in, and nothing before the place
  // where reading goes on is skipped.
  lemma NothingIsSkipped(p: nat, rfd: nat, wfd: nat, es: seq<Event>)
    ensures var s := After(Opened(p, rfd, wfd), es);
            && |s.file| <= PIPSIZ && |s.file| <= |s.sent|
            && (forall x :: x in s.received ==> x.number < |s.sent| && x.byte == s.sent[x.number].0)
            && (forall k :: 0 <= k < |s.sent| && k < |s.sent| - |s.file| + s.off ==> Got(s.received, k))
            && (forall i :: 0 <= i < |s.file| ==> s.file[i].byte == s.sent[|s.sent| - |s.file| + i].0)
  {
    hide Shares, Locking, Procs, Fetching, After, Got;
    RunInv(p, rfd, wfd, es);
  }

  // What has gone in from a process is what it has written, in its order: of the call in
  // progress a first part, and all of a call that returned normally.
  lemma WritersAreServed(p: nat, rfd: nat, wfd: nat, es: seq<Event>, q: nat)
    requires q in After(Opened(p, rfd, wfd), es).procs
    ensures var s := After(Opened(p, rfd, wfd), es);
            From(s.sent, q) == s.procs[q].past + Taken(s.procs[q].act)
  {
    RunInv(p, rfd, wfd, es);
  }

  lemma ReturnedWrite(s: State, p: nat)
    requires p in s.procs && s.procs[p].act.WriteTop?
    requires s.procs[p].act.done <= |s.procs[p].act.data| && |s.file| <= PIPSIZ
    requires p in WriteEnter(s, p).procs && WriteEnter(s, p).procs[p].act == Idle(Completed)
    ensures WriteEnter(s, p).procs[p].past == s.procs[p].past + s.procs[p].act.data
  {
    hide Release, Ends;
    ReleaseProcs(s);
    ReleaseProcs(s.(iwrite := true));
    var a := s.procs[p].act;
    if a.done == |a.data| {
      assert a.data[..a.done] == a.data;
    }
  }

  lemma CompletedWrite(s: State, p: nat)
    requires Sound(s) && Typed(s) && Enabled(s, WriteStep(p))
    requires p in Apply(s, WriteStep(p)).procs && Apply(s, WriteStep(p)).procs[p].act == Idle(Completed)
    ensures Apply(s, WriteStep(p)).procs[p].past == s.procs[p].past + s.procs[p].act.data
  {
    hide Sound, Typed, CopyIn, LeaveWriting, WriteEnter;
    Facts(s, p);
    hide ProcOk;
    if s.procs[p].act.Writing? {
      var a := s.procs[p].act;
      var n := Min(512 - |s.file| % 512, a.upto - a.done);
      var t := CopyIn(s, p, n);
      CopyInShape(s, p, n);
      if t.procs[p].act.done >= a.upto {
        LeaveWritingAct(t, p);
        ReturnedWrite(LeaveWriting(t, p), p);
      }
    } else if s.lock == None {
      ReturnedWrite(s, p);
    }
  }

  predicate OtherEnd(a: Activity, b: Activity) {
    if InRead(a) then InWrite(b) else InRead(b)
  }

  // While the pipe is not locked, a reader sleeps only on an empty pipe with both ends open,
  // a writer only on a full one; so readers and writers never sleep at the same time, and
  // every process in a call on the other end can go on.
  lemma NobodyIsStuck(p: nat, rfd: nat, wfd: nat, es: seq<Event>, q: nat)
    requires var s := After(Opened(p, rfd, wfd), es);
             q in s.procs && s.procs[q].sleep.Some? && s.lock == None
    ensures var s := After(Opened(p, rfd, wfd), es);
            && Ends(s) == 2
            && (if s.procs[q].act.ReadTop? then s.file == [] && s.iread
                else s.procs[q].act.WriteTop? && |s.file| == PIPSIZ && s.iwrite)
            && forall r :: r in s.procs && OtherEnd(s.procs[q].act, s.procs[r].act) ==> s.procs[r].sleep == None
  {
    hide After, Flow, Locking, Shares, Typed, Ends, Fetching;
    RunInv(p, rfd, wfd, es);
    var s := After(Opened(p, rfd, wfd), es);
    assert ProcOk(s, q);
    forall r | r in s.procs && OtherEnd(s.procs[q].act, s.procs[r].act)
      ensures s.procs[r].sleep == None
    {
      assert ProcOk(s, r);
    }
  }

  // When it is locked, whoever has the lock can go on. With both ends open, nobody else is
  // inside.
  lemma LockIsReleased(p: nat, rfd: nat, wfd: nat, es: seq<Event>)
    requires After(Opened(p, rfd, wfd), es).lock.Some?
    ensures var s := After(Opened(p, rfd, wfd), es);
            match s.lock.value
            case Update => Enabled(s, SyncDone)
            case By(q) =>
              q in s.procs && (Enabled(s, ReadStep(q)) || Enabled(s, WriteStep(q))) && Inside(s.procs[q].act)
    ensures var s := After(Opened(p, rfd, wfd), es);
            Ends(s) == 2 ==> forall r :: r in s.procs && s.lock != Some(By(r)) ==> !Inside(s.procs[r].act)
  {
    hide After, Flow, Shares, Typed, Fetching;
    RunInv(p, rfd, wfd, es);
    var s := After(Opened(p, rfd, wfd), es);
    assert s.lock.value.By? ==> ProcOk(s, s.lock.value.pid);
  }
}
