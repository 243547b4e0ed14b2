// The cache as one process sees it: FileSystem.FileSys knows it as the contents of the blocks
// and the set of blocks whose buffers it holds. Here the calls of one process, with whatever
// other processes and the disk do before they return, are shown to be that, as long as no
// other process writes.
module CacheView {
  import opened Wrappers
  import opened Machine
  import opened BufferCache

  // ---- The buffers that a process holds ----

  function MainBufs(next: Next): set<nat> {
    match next
    case Ahead(main, _) => if main.Some? then {main.value} else {}
    case _ => {}
  }

  // Those that belong to the call it is in.
  function CallBufs(a: Activity): set<nat> {
    match a
    case Run => {}
    case Get(_, next) => MainBufs(next)
    case Got(b, _, next) => {b} + MainBufs(next)
    case Check(main, _, _) => if main.Some? then {main.value} else {}
    case Wait(b, _, _) => {b}
  }

  // Process p holds the buffers of held, and those of its call.
  ghost predicate Holding(s: State, p: nat, held: set<nat>) {
    && p in s.procs && held !! CallBufs(s.procs[p].act)
    && (forall b :: b in held ==> b < |s.bufs| && b !in s.queue)
    && (forall b :: 0 <= b < |s.bufs| ==>
          (s.bufs[b].holder == By(p) <==> b in held || b in CallBufs(s.procs[p].act)))
  }

  predicate Writes(e: Event) {
    e.CallBwrite? || e.CallBawrite? || e.CallBdwrite?
  }

  // p goes on with its call, or the event is not its own.
  predicate GoesOn(e: Event, p: nat) {
    Actor(e) != Some(p) || e.GetStep? || e.UseStep? || e.CheckStep? || e.WaitStep?
  }

  predicate SameBuf(x: Buf, y: Buf) {
    y.holder == x.holder && y.key == x.key && y.data == x.data && y.done == x.done && y.changed == x.changed
  }

  ghost predicate Same(s: State, t: State, held: set<nat>) {
    forall b :: b in held && b < |s.bufs| ==> b < |t.bufs| && SameBuf(s.bufs[b], t.bufs[b])
  }

  // ---- Events of others ----

  // What an event of another process, or of the disk, leaves of buffer b when p holds it, and
  // whether p holds it.
  ghost predicate Untouched(s: State, t: State, p: nat, b: nat)
    requires b < |s.bufs|
  {
    && b < |t.bufs| && (t.bufs[b].holder == By(p) <==> s.bufs[b].holder == By(p))
    && (s.bufs[b].holder == By(p) && b !in s.queue ==> SameBuf(s.bufs[b], t.bufs[b]) && b !in t.queue)
  }

  lemma BufFacts(s: State, b: nat)
    requires Inv(s) && b < |s.bufs|
    ensures HolderOk(s, b) && |s.bufs[b].data| == 514 && (b in s.avail <==> !s.bufs[b].busy)
  {
    assert HolderOk(s, b);
  }

  // An event changes no buffer but b, and neither its block nor its contents.
  ghost predicate OneBuf(s: State, t: State, b: nat) {
    && |t.bufs| == |s.bufs|
    && (forall x :: 0 <= x < |s.bufs| && x != b ==>
          t.bufs[x] == s.bufs[x] && (x in t.queue <==> x in s.queue))
  }

  lemma TakenBuf(s: State, b: nat, want: Option<Key>, p: nat)
    requires b < |s.bufs|
    ensures var t := Notavail(s, b, By(p)); OneBuf(s, t, b) && t.bufs[b].holder == By(p)
    ensures var t := StartWrite(Notavail(s, b, Disk), b, true);
            OneBuf(s, t, b) && t.bufs[b].holder == Disk && t.procs == s.procs
    ensures var t := Reassign(s, b, want, p); OneBuf(s, t, b) && t.bufs[b].holder == By(p)
  {
    hide Without;
  }

  lemma StartBuf(s: State, b: nat)
    requires b < |s.bufs|
    ensures var t := StartRead(s, b, false); OneBuf(s, t, b) && SameBuf(s.bufs[b], t.bufs[b])
    ensures var t := StartRead(s, b, true); OneBuf(s, t, b) && t.bufs[b].holder == Disk
  {
  }

  lemma BrelseBuf(s: State, b: nat)
    requires b < |s.bufs|
    ensures var t := Brelse(s, b); OneBuf(s, t, b) && t.bufs[b].holder == Nobody && t.queue == s.queue
  {
    hide Announced;
  }

  // A buffer that is taken was nobody's.
  lemma GetBuf(s: State, p: nat, want: Option<Key>, next: Next) returns (b: nat)
    requires Inv(s) && InRange(s.avail, |s.bufs|) && p in s.procs && s.procs[p].act == Get(want, next)
    ensures var t := GetPass(s, p, want, next);
            && OneBuf(s, t, b) && p in t.procs && (b < |s.bufs| || t.procs[p].act == Get(want, next))
            && (b < |s.bufs| ==>
                  || (SameBuf(s.bufs[b], t.bufs[b]) && (b in t.queue <==> b in s.queue)
                      && t.procs[p].act == Get(want, next))
                  || (s.bufs[b].holder == Nobody && t.bufs[b].holder == Disk && t.procs[p].act == Get(want, next))
                  || (s.bufs[b].holder == Nobody && t.bufs[b].holder == By(p)
                      && t.procs[p].act == Got(b, want, next)))
  {
    hide Inv, Notavail, StartWrite, Reassign, Without;
    if want.Some? && Incore(s, want.value) {
      b := Find(s.bufs, want.value);
      BufFacts(s, b);
      TakenBuf(s, b, want, p);
    } else if s.avail == [] {
      b := |s.bufs|;
    } else {
      b := s.avail[0];
      BufFacts(s, b);
      TakenBuf(s, b, want, p);
    }
  }

  // getblk's buffer stays with the process, or goes to the driver or the list.
  lemma UseBuf(s: State, p: nat, b: nat, want: Option<Key>, next: Next)
    requires b < |s.bufs|
    ensures var t := UsePass(s, p, b, want, next);
            && OneBuf(s, t, b)
            && if next.Ahead? then t.bufs[b].holder in {Nobody, Disk} else SameBuf(s.bufs[b], t.bufs[b])
  {
    hide Brelse, StartRead;
    BrelseBuf(s, b);
    StartBuf(s, b);
  }

  lemma AvailFacts(s: State)
    requires Inv(s)
    ensures InRange(s.avail, |s.bufs|) && InRange(s.queue, |s.bufs|)
  {
  }

  lemma GetOther(s: State, q: nat, p: nat, b: nat)
    requires Inv(s) && Typed(s) && Enabled(s, GetStep(q)) && p != q && b < |s.bufs|
    ensures Untouched(s, Apply(s, GetStep(q)), p, b)
  {
    hide Inv, Typed, GetPass;
    AvailFacts(s);
    var x := GetBuf(s, q, s.procs[q].act.want, s.procs[q].act.next);
  }

  lemma UseOther(s: State, q: nat, p: nat, b: nat)
    requires Inv(s) && Typed(s) && Enabled(s, UseStep(q)) && p != q && b < |s.bufs|
    ensures Untouched(s, Apply(s, UseStep(q)), p, b)
  {
    hide Inv, Typed, UsePass;
    Facts(s, q);
    var Got(x, want, next) := s.procs[q].act;
    UseBuf(s, q, x, want, next);
  }

  lemma WaitOther(s: State, q: nat, p: nat, b: nat)
    requires Inv(s) && Typed(s) && Enabled(s, WaitStep(q)) && p != q && b < |s.bufs|
    ensures Untouched(s, Apply(s, WaitStep(q)), p, b)
  {
    hide Inv, Typed, Brelse;
    Facts(s, q);
    BrelseBuf(s, s.procs[q].act.b);
  }

  lemma CallOther(s: State, e: Event, p: nat, b: nat)
    requires Inv(s) && Typed(s) && Enabled(s, e) && Actor(e) != Some(p) && b < |s.bufs|
    requires Writes(e) || e.Store? || e.CallBrelse?
    ensures Untouched(s, Apply(s, e), p, b)
  {
    hide Inv, Announced;
  }

  lemma FlushOther(s: State, e: Event, p: nat, b: nat)
    requires Inv(s) && Typed(s) && Enabled(s, e) && e.Flush? && b < |s.bufs|
    ensures Untouched(s, Apply(s, e), p, b)
  {
    hide Inv, Typed, Notavail, StartWrite, FirstDue;
    AvailFacts(s);
    if FirstDue(s, e.dev, 0) < |s.avail| {
      var x := s.avail[FirstDue(s, e.dev, 0)];
      BufFacts(s, x);
      TakenBuf(s, x, None, p);
    }
  }

  lemma DiskOther(s: State, p: nat, b: nat)
    requires Inv(s) && Typed(s) && Enabled(s, Interrupt) && b < |s.bufs|
    ensures Untouched(s, Apply(s, Interrupt), p, b)
  {
    hide Inv, Typed, Brelse;
    AvailFacts(s);
    HeadFacts(s);
    BufFacts(s, s.queue[0]);
    BrelseBuf(Transferred(s), s.queue[0]);
  }

  lemma HeadFacts(s: State)
    requires Inv(s) && s.queue != []
    ensures s.queue[0] < |s.bufs| && HolderOk(s, s.queue[0]) && s.bufs[s.queue[0]].busy && NoDuplicates(s.queue)
  {
    BufFacts(s, s.queue[0]);
  }

  lemma OtherUntouched(s: State, e: Event, p: nat, b: nat)
    requires Inv(s) && Typed(s) && Enabled(s, e) && Actor(e) != Some(p) && b < |s.bufs|
    ensures Untouched(s, Apply(s, e), p, b)
  {
    hide Inv, Typed, Apply, Untouched;
    match e {
      case GetStep(q) => GetOther(s, q, p, b);
      case UseStep(q) => UseOther(s, q, p, b);
      case WaitStep(q) => WaitOther(s, q, p, b);
      case Flush(q, _) => FlushOther(s, e, p, b);
      case Interrupt => DiskOther(s, p, b);
      case CallGetblk(_, _) => NoBuf(s, e, p, b);
      case CallBread(_, _) => NoBuf(s, e, p, b);
      case CallBreada(_, _, _) => NoBuf(s, e, p, b);
      case CheckStep(_) => NoBuf(s, e, p, b);
      case _ => CallOther(s, e, p, b);
    }
  }

  lemma NoBuf(s: State, e: Event, p: nat, b: nat)
    requires Typed(s) && Enabled(s, e) && b < |s.bufs|
    requires e.CallGetblk? || e.CallBread? || e.CallBreada? || e.CheckStep?
    ensures Untouched(s, Apply(s, e), p, b)
  {
  }

  // ---- Steps of the process in its call ----

  lemma OwnGet(s: State, p: nat, held: set<nat>)
    requires Inv(s) && Typed(s) && Enabled(s, GetStep(p)) && Holding(s, p, held)
    ensures var t := Apply(s, GetStep(p));
            p in t.procs && Holding(t, p, held) && Same(s, t, held) && t.procs[p].act != Run
  {
    hide Inv, Typed, GetPass;
    AvailFacts(s);
    var b := GetBuf(s, p, s.procs[p].act.want, s.procs[p].act.next);
  }

  // Whether the call ends with its buffer released.
  predicate Releases(a: Activity) {
    a.Wait? && a.release
  }

  // The call has ended; with buffer b, unless it released it.
  ghost predicate Ended(t: State, p: nat, held: set<nat>, a: Activity, b: nat) {
    if Releases(a) then Holding(t, p, held) else b !in held && Holding(t, p, held + {b})
  }

  lemma OwnUse(s: State, p: nat, held: set<nat>)
    requires Inv(s) && Typed(s) && Enabled(s, UseStep(p)) && Holding(s, p, held)
    ensures Used(s, Apply(s, UseStep(p)), p, held)
  {
    hide Inv, Typed, UsePass, Holding, Used;
    Facts(s, p);
    var Got(b, want, next) := s.procs[p].act;
    if next.Ahead? {
      OwnAhead(s, p, held, b, want, next);
    } else {
      OwnBlock(s, p, held, b, want, next);
    }
  }

  ghost predicate Used(s: State, t: State, p: nat, held: set<nat>)
    requires p in s.procs && (s.procs[p].act.Got? || s.procs[p].act.Wait?)
  {
    && p in t.procs && Same(s, t, held)
    && if t.procs[p].act == Run then Ended(t, p, held, s.procs[p].act, s.procs[p].act.b)
       else Holding(t, p, held)
  }

  lemma OwnAhead(s: State, p: nat, held: set<nat>, b: nat, want: Option<Key>, next: Next)
    requires Inv(s) && b < |s.bufs| && Holding(s, p, held) && s.procs[p].act == Got(b, want, next)
    requires ProcOk(s, p) && next.Ahead?
    ensures Used(s, UsePass(s, p, b, want, next), p, held)
  {
    hide Inv, Brelse, StartRead;
    UseBuf(s, p, b, want, next);
  }

  lemma OwnBlock(s: State, p: nat, held: set<nat>, b: nat, want: Option<Key>, next: Next)
    requires Inv(s) && b < |s.bufs| && Holding(s, p, held) && s.procs[p].act == Got(b, want, next)
    requires ProcOk(s, p) && !next.Ahead?
    ensures Used(s, UsePass(s, p, b, want, next), p, held)
  {
    hide Inv, Brelse, StartRead;
    UseBuf(s, p, b, want, next);
  }

  lemma OwnCheck(s: State, p: nat, held: set<nat>)
    requires Inv(s) && Typed(s) && Enabled(s, CheckStep(p)) && Holding(s, p, held)
    ensures var t := Apply(s, CheckStep(p));
            p in t.procs && Holding(t, p, held) && Same(s, t, held) && t.procs[p].act != Run
  {
    hide Inv, Typed;
  }

  lemma OwnWait(s: State, p: nat, held: set<nat>)
    requires Inv(s) && Typed(s) && Enabled(s, WaitStep(p)) && Holding(s, p, held)
    ensures Used(s, Apply(s, WaitStep(p)), p, held)
  {
    hide Inv, Typed, Brelse;
    Facts(s, p);
    var b := s.procs[p].act.b;
    BrelseBuf(s, b);
    DoneNotQueued(s, b);
  }

  lemma DoneNotQueued(s: State, b: nat)
    requires Inv(s) && b < |s.bufs|
    ensures s.bufs[b].key.Some? && s.bufs[b].done ==> b !in s.queue
  {
    BufferData(s, b);
  }

  lemma OwnStep(s: State, e: Event, p: nat, held: set<nat>)
    requires Inv(s) && Typed(s) && Enabled(s, e) && Holding(s, p, held) && GoesOn(e, p)
    ensures var t := Apply(s, e); p in t.procs && Same(s, t, held) && StillHolds(s, t, p, held)
  {
    hide Inv, Typed, Apply, Holding, Same, Ended;
    IsThere(s, p, held);
    if Actor(e) == Some(p) {
      match e {
        case GetStep(_) => OwnGet(s, p, held);
        case UseStep(_) => OwnUse(s, p, held);
        case CheckStep(_) => OwnCheck(s, p, held);
        case WaitStep(_) => OwnWait(s, p, held);
      }
    } else {
      OtherHolding(s, e, p, held);
    }
  }

  // The call goes on, or has ended.
  ghost predicate StillHolds(s: State, t: State, p: nat, held: set<nat>)
    requires p in s.procs && p in t.procs
  {
    var a := s.procs[p].act;
    if t.procs[p].act == Run && a != Run then (a.Got? || a.Wait?) && Ended(t, p, held, a, a.b)
    else Holding(t, p, held)
  }

  lemma IsThere(s: State, p: nat, held: set<nat>)
    requires Holding(s, p, held)
    ensures p in s.procs
  {
  }

  lemma OtherHolding(s: State, e: Event, p: nat, held: set<nat>)
    requires Inv(s) && Typed(s) && Enabled(s, e) && Holding(s, p, held) && Actor(e) != Some(p)
    ensures var t := Apply(s, e);
            p in t.procs && t.procs[p].act == s.procs[p].act && Holding(t, p, held) && Same(s, t, held)
  {
    hide Inv, Typed, Apply, Enabled, CallBufs;
    StepAsked(s, e, p);
    SameCount(s, e);
    var t := Apply(s, e);
    forall b | b in held ensures SameBuf(s.bufs[b], t.bufs[b]) && b !in t.queue {
      OtherUntouched(s, e, p, b);
    }
    forall b | 0 <= b < |s.bufs| ensures t.bufs[b].holder == By(p) <==> s.bufs[b].holder == By(p) {
      OtherUntouched(s, e, p, b);
    }
  }

  lemma SameCount(s: State, e: Event)
    requires Inv(s) && Typed(s) && Enabled(s, e)
    ensures |Apply(s, e).bufs| == |s.bufs|
  {
    hide Inv, Typed, GetPass, UsePass, Completed, StartWrite, Brelse;
    AvailFacts(s);
    match e {
      case GetStep(q) => var b := GetBuf(s, q, s.procs[q].act.want, s.procs[q].act.next);
      case UseStep(q) =>
        Facts(s, q);
        UseBuf(s, q, s.procs[q].act.b, s.procs[q].act.want, s.procs[q].act.next);
      case WaitStep(q) =>
        Facts(s, q);
        BrelseBuf(s, s.procs[q].act.b);
      case Interrupt => DiskCount(s);
      case _ => CallCount(s, e);
    }
  }

  lemma DiskCount(s: State)
    requires Inv(s) && Typed(s) && s.queue != []
    ensures |Apply(s, Interrupt).bufs| == |s.bufs|
  {
    hide Inv, Typed, Brelse;
    HeadFacts(s);
    BufFacts(s, s.queue[0]);
    BrelseBuf(Transferred(s), s.queue[0]);
  }

  lemma CallCount(s: State, e: Event)
    requires Inv(s) && Typed(s) && Enabled(s, e)
    requires !e.GetStep? && !e.UseStep? && !e.WaitStep? && !e.Interrupt?
    ensures |Apply(s, e).bufs| == |s.bufs|
  {
    hide Inv, Announced, Without, FirstDue;
  }

  // ---- The first step of a call ----

  predicate Reads(e: Event) {
    e.CallGetblk? || e.CallBread? || e.CallBreada?
  }

  predicate GivesUp(e: Event) {
    Writes(e) || e.CallBrelse?
  }

  // What p holds from the first step of the call on, until it ends.
  function Keeps(e: Event, held: set<nat>): set<nat> {
    if GivesUp(e) then held - {e.b} else held
  }

  lemma CallStarts(s: State, e: Event, p: nat, held: set<nat>)
    requires Inv(s) && Typed(s) && Enabled(s, e) && Actor(e) == Some(p) && (Reads(e) || GivesUp(e))
    requires Holding(s, p, held)
    ensures var t := Apply(s, e);
            p in t.procs && Holding(t, p, Keeps(e, held)) && Same(s, t, Keeps(e, held))
            && (t.procs[p].act != Run ==> Serves(t.procs[p].act, e)) && (Reads(e) ==> t.procs[p].act != Run)
  {
    hide Inv;
    if !Reads(e) {
      GivingUp(s, e, p, held);
    }
  }

  lemma GivingUp(s: State, e: Event, p: nat, held: set<nat>)
    requires Inv(s) && Typed(s) && Enabled(s, e) && Actor(e) == Some(p) && GivesUp(e)
    requires Holding(s, p, held)
    ensures GivenUp(s, Apply(s, e), e, p, held)
  {
    hide Inv, Typed, Enabled, Apply, Holding, GivenUp;
    if e.CallBwrite? || e.CallBawrite? {
      GivingWrite(s, e, p, held);
    } else {
      GivingBack(s, e, p, held);
    }
  }

  ghost predicate GivenUp(s: State, t: State, e: Event, p: nat, held: set<nat>)
    requires GivesUp(e) && (e.CallBwrite? ==> e.b < |s.bufs| && s.bufs[e.b].key.Some?)
  {
    && p in t.procs && Holding(t, p, held - {e.b}) && Same(s, t, held - {e.b})
    && t.procs[p].act == if e.CallBwrite? then Wait(e.b, s.bufs[e.b].key.value, true) else Run
  }

  lemma GivingWrite(s: State, e: Event, p: nat, held: set<nat>)
    requires Inv(s) && Typed(s) && Enabled(s, e) && Actor(e) == Some(p) && (e.CallBwrite? || e.CallBawrite?)
    requires Holding(s, p, held)
    ensures GivenUp(s, Apply(s, e), e, p, held)
  {
    hide Inv;
    assert e.b in held;
  }

  lemma GivingBack(s: State, e: Event, p: nat, held: set<nat>)
    requires Inv(s) && Typed(s) && Enabled(s, e) && Actor(e) == Some(p) && (e.CallBdwrite? || e.CallBrelse?)
    requires Holding(s, p, held)
    ensures GivenUp(s, Apply(s, e), e, p, held)
  {
    hide Inv, Announced;
    assert e.b in held;
  }

  // a is what p does in the call that e made.
  predicate Serves(a: Activity, e: Event) {
    match e
    case CallGetblk(_, want) => (a.Get? || a.Got?) && a.want == want && a.next == Plain
    case CallBread(_, k) => a != Run && Asked(a) == Some(k)
    case CallBreada(_, k, _) => a != Run && Asked(a) == Some(k)
    case CallBwrite(_, _) => Releases(a)
    case _ => false
  }

  lemma StepServes(s: State, e: Event, p: nat, call: Event)
    requires Inv(s) && Typed(s) && Enabled(s, e) && p in s.procs && GoesOn(e, p)
    requires Serves(s.procs[p].act, call)
    ensures p in Apply(s, e).procs
    ensures var a := Apply(s, e).procs[p].act; a == Run || Serves(a, call)
  {
    hide Inv, Typed, Apply;
    StepAsked(s, e, p);
    if Actor(e) == Some(p) && (call.CallGetblk? || call.CallBwrite?) {
      match e {
        case GetStep(_) => GetServes(s, p, call);
        case UseStep(_) => UseServes(s, p, call);
        case CheckStep(_) => assert false;
        case WaitStep(_) => WaitServes(s, p, call);
      }
    }
  }

  lemma GetServes(s: State, p: nat, call: Event)
    requires Inv(s) && Typed(s) && Enabled(s, GetStep(p)) && Serves(s.procs[p].act, call)
    requires call.CallGetblk? || call.CallBwrite?
    ensures p in Apply(s, GetStep(p)).procs && Serves(Apply(s, GetStep(p)).procs[p].act, call)
  {
    hide Inv, Typed, GetPass;
    AvailFacts(s);
    GetActs(s, p, s.procs[p].act.want, s.procs[p].act.next, p);
  }

  lemma UseServes(s: State, p: nat, call: Event)
    requires Inv(s) && Typed(s) && Enabled(s, UseStep(p)) && Serves(s.procs[p].act, call)
    requires call.CallGetblk? || call.CallBwrite?
    ensures p in Apply(s, UseStep(p)).procs && Apply(s, UseStep(p)).procs[p].act == Run
  {
    hide Inv;
  }

  lemma WaitServes(s: State, p: nat, call: Event)
    requires Inv(s) && Typed(s) && Enabled(s, WaitStep(p)) && Serves(s.procs[p].act, call)
    requires call.CallGetblk? || call.CallBwrite?
    ensures var t := Apply(s, WaitStep(p));
            p in t.procs && (t.procs[p].act == Run || Serves(t.procs[p].act, call))
  {
    hide Inv, Brelse;
  }

  // ---- A whole call ----

  // Nobody writes a block of dev in event e.
  ghost predicate NoWrite(s: State, e: Event, dev: nat) {
    forall n :: Given(s, e, Key(dev, n)) == None
  }

  // The events from a call of p to its end, in which nobody else writes a block of dev.
  ghost predicate OneCall(s: State, es: seq<Event>, p: nat, dev: nat) {
    && Inv(s) && es != [] && Typed(s) && Enabled(s, es[0])
    && Actor(es[0]) == Some(p) && (Reads(es[0]) || GivesUp(es[0]))
    && (forall n :: 1 <= n < |es| ==> InCall(After(s, es[..n]), es[n], p, dev))
    && p in After(s, es).procs && After(s, es).procs[p].act == Run
  }

  ghost predicate InCall(u: State, e: Event, p: nat, dev: nat) {
    p in u.procs && u.procs[p].act != Run && GoesOn(e, p) && NoWrite(u, e, dev)
  }

  // The buffers that p holds.
  function Mine(s: State, p: nat): set<nat> {
    set b | 0 <= b < |s.bufs| && s.bufs[b].holder == By(p)
  }

  lemma MineHeld(s: State, p: nat)
    requires Inv(s) && p in s.procs && s.procs[p].act == Run
    ensures Holding(s, p, Mine(s, p))
  {
    forall b | b in Mine(s, p) ensures b !in s.queue {
      BufFacts(s, b);
    }
  }

  lemma FirstOf(s: State, es: seq<Event>)
    requires es != []
    ensures After(s, es[..1]) == Moved(s, es[0])
  {
    assert es[..1][..0] == [];
  }

  lemma NextOf(s: State, es: seq<Event>, n: nat)
    requires 0 < n < |es|
    ensures After(s, es[..n + 1]) == Moved(After(s, es[..n]), es[n])
  {
    assert es[..n + 1][..n] == es[..n];
  }

  // Before the call ends.
  lemma {:induction false} Meanwhile(s: State, es: seq<Event>, p: nat, dev: nat, n: nat)
    requires OneCall(s, es, p, dev) && 1 <= n < |es|
    ensures var u := After(s, es[..n]);
            var held := Keeps(es[0], Mine(s, p));
            && Inv(u) && p in u.procs && Holding(u, p, held) && Same(s, u, held)
            && Serves(u.procs[p].act, es[0])
    decreases n
  {
    hide Inv, Typed, Enabled, Apply, Holding, Same, After, Serves;
    var held := Keeps(es[0], Mine(s, p));
    RunInv(s, es[..n]);
    if n == 1 {
      FirstOf(s, es);
      CallerRuns(s, es[0], p);
      MineHeld(s, p);
      CallStarts(s, es[0], p, Mine(s, p));
    } else {
      Meanwhile(s, es, p, dev, n - 1);
      NextOf(s, es, n - 1);
      var u := After(s, es[..n - 1]);
      assert InCall(u, es[n - 1], p, dev) && InCall(After(s, es[..n]), es[n], p, dev);
      CallStep(u, es[n - 1], p, held, es[0]);
      SameBoth(s, u, After(s, es[..n]), held);
    }
  }

  lemma CallerRuns(s: State, e: Event, p: nat)
    requires Enabled(s, e) && Actor(e) == Some(p) && (Reads(e) || GivesUp(e))
    ensures p in s.procs && s.procs[p].act == Run
  {
  }

  lemma SameBoth(s: State, t: State, u: State, held: set<nat>)
    requires Same(s, t, held) && Same(t, u, held)
    ensures Same(s, u, held)
  {
  }

  // One event of the call.
  lemma CallStep(u: State, e: Event, p: nat, held: set<nat>, call: Event)
    requires Inv(u) && p in u.procs && u.procs[p].act != Run && GoesOn(e, p)
    requires Holding(u, p, held) && Serves(u.procs[p].act, call)
    ensures var t := Moved(u, e);
            && p in t.procs && Same(u, t, held) && StillHolds(u, t, p, held)
            && (t.procs[p].act != Run ==> Serves(t.procs[p].act, call))
  {
    hide Inv, Typed, Enabled, Apply, Holding, Serves;
    if Typed(u) && Enabled(u, e) {
      OwnStep(u, e, p, held);
      StepServes(u, e, p, call);
    }
  }

  // What getblk and bread return: buffer b, of the block asked for, for bread with its contents.
  ghost predicate Gets(t: State, p: nat, b: nat, call: Event) {
    && b < |t.bufs|
    && match call
       case CallGetblk(_, want) => t.bufs[b].key == want
       case CallBread(_, k) => HasBlock(t, p, b, k)
       case CallBreada(_, k, _) => HasBlock(t, p, b, k)
       case _ => false
  }

  // The step in which the call ends.
  lemma LastStep(u: State, e: Event, p: nat, held: set<nat>, call: Event) returns (b: nat)
    requires Inv(u) && p in u.procs && u.procs[p].act != Run && GoesOn(e, p)
    requires Holding(u, p, held) && Serves(u.procs[p].act, call)
    requires p in Moved(u, e).procs && Moved(u, e).procs[p].act == Run
    ensures var t := Moved(u, e);
            && Same(u, t, held)
            && (GivesUp(call) ==> Holding(t, p, held))
            && (Reads(call) ==> b !in held && Holding(t, p, held + {b}) && Gets(t, p, b, call))
  {
    hide Inv, Typed, Enabled, Apply, Holding, Same, Gets;
    CallStep(u, e, p, held, call);
    StepAsked(u, e, p);
    b := u.procs[p].act.b;
    if Reads(call) {
      EndGets(u, e, p, call);
    }
  }

  lemma EndGets(u: State, e: Event, p: nat, call: Event)
    requires Inv(u) && Typed(u) && Enabled(u, e) && p in u.procs && (e == UseStep(p) || e == WaitStep(p))
    requires Serves(u.procs[p].act, call) && Reads(call) && (u.procs[p].act.Got? || u.procs[p].act.Wait?)
    requires p in Apply(u, e).procs && Apply(u, e).procs[p].act == Run
    ensures Gets(Apply(u, e), p, u.procs[p].act.b, call)
  {
    hide Inv, Typed, Apply;
    match call {
      case CallGetblk(_, _) => GetblkReturns(u, p);
      case CallBread(_, k) => EndReads(u, e, p, k);
      case CallBreada(_, k, _) => EndReads(u, e, p, k);
    }
  }

  lemma EndReads(u: State, e: Event, p: nat, k: Key)
    requires Inv(u) && Typed(u) && Enabled(u, e) && p in u.procs && (e == UseStep(p) || e == WaitStep(p))
    requires Asked(u.procs[p].act) == Some(k) && (u.procs[p].act.Got? || u.procs[p].act.Wait?)
    requires p in Apply(u, e).procs && Apply(u, e).procs[p].act == Run
    ensures HasBlock(Apply(u, e), p, u.procs[p].act.b, k)
  {
    hide Inv, Typed, Apply;
    if e == UseStep(p) {
      UseReturn(u, p, k);
    } else {
      WaitReturn(u, p, k);
    }
  }

  // What a whole call does to the buffers of p.
  lemma CallEnds(s: State, es: seq<Event>, p: nat, dev: nat) returns (b: nat)
    requires OneCall(s, es, p, dev)
    ensures var t := After(s, es);
            var held := Keeps(es[0], Mine(s, p));
            && Inv(t) && Same(s, t, held)
            && (GivesUp(es[0]) ==> Holding(t, p, held))
            && (Reads(es[0]) ==> b !in held && Holding(t, p, held + {b}) && Gets(t, p, b, es[0]))
  {
    hide Inv, Typed, Enabled, Apply, Holding, Same, After, Serves, Gets;
    var m := |es| - 1;
    assert es == es[..m + 1];
    RunInv(s, es);
    var held := Keeps(es[0], Mine(s, p));
    if m == 0 {
      FirstOf(s, es);
      CallerRuns(s, es[0], p);
      MineHeld(s, p);
      CallStarts(s, es[0], p, Mine(s, p));
      b := 0;
    } else {
      Meanwhile(s, es, p, dev, m);
      NextOf(s, es, m);
      assert InCall(After(s, es[..m]), es[m], p, dev);
      b := LastStep(After(s, es[..m]), es[m], p, held, es[0]);
      SameBoth(s, After(s, es[..m]), After(s, es), held);
    }
  }

  // The contents of the blocks of dev change in the call alone.
  lemma {:induction false} CallLogical(s: State, es: seq<Event>, p: nat, dev: nat, m: nat, k: Key)
    requires OneCall(s, es, p, dev) && 1 <= m <= |es| && k.dev == dev
    ensures var g := Given(s, es[0], k);
            At(After(s, es[..m]).logical, k) == if g.Some? then g.value else At(s.logical, k)
    decreases m
  {
    hide Inv, Typed, Enabled, Apply, After, Given, Moved;
    if m == 1 {
      FirstOf(s, es);
      StepLogical(s, es[0], k);
    } else {
      CallLogical(s, es, p, dev, m - 1, k);
      NextOf(s, es, m - 1);
      var u := After(s, es[..m - 1]);
      assert InCall(u, es[m - 1], p, dev) && k == Key(dev, k.blkno);
      StepLogical(u, es[m - 1], k);
    }
  }

  // ---- The view of FileSystem.FileSys ----

  predicate HasKey(s: State, p: nat, k: Key) {
    exists b :: 0 <= b < |s.bufs| && s.bufs[b].holder == By(p) && s.bufs[b].key == Some(k)
  }

  // To process p, which is in no call, the blocks of dev are those of disk, and held are the
  // blocks whose buffers it has.
  ghost predicate Shows(s: State, p: nat, dev: nat, disk: seq<Block>, held: set<nat>) {
    && Inv(s) && p in s.procs && s.procs[p].act == Run
    && (forall n :: 0 <= n < |disk| ==> At(s.logical, Key(dev, n)) == disk[n])
    && (forall n: nat :: n in held <==> n < |disk| && HasKey(s, p, Key(dev, n)))
  }

  // The buffers that p had and still has are as they were.
  ghost predicate Kept(s: State, t: State, p: nat) {
    forall b :: 0 <= b < |s.bufs| && b < |t.bufs| && s.bufs[b].holder == By(p) && t.bufs[b].holder == By(p) ==>
      SameBuf(s.bufs[b], t.bufs[b])
  }

  function Wanted(e: Event): Option<Key> {
    match e
    case CallGetblk(_, want) => want
    case CallBread(_, k) => Some(k)
    case CallBreada(_, k, _) => Some(k)
    case _ => None
  }

  // The buffers of p are those of mine.
  predicate Owns(s: State, p: nat, mine: set<nat>) {
    && (forall b :: b in mine ==> b < |s.bufs|)
    && (forall b :: 0 <= b < |s.bufs| ==> (s.bufs[b].holder == By(p) <==> b in mine))
  }

  lemma HoldingOwns(s: State, p: nat, mine: set<nat>)
    requires Holding(s, p, mine) && s.procs[p].act == Run
    ensures Owns(s, p, mine)
  {
  }

  lemma KeysAdded(s: State, t: State, p: nat, mine: set<nat>, b: nat, k: Key)
    requires Owns(s, p, mine) && Owns(t, p, mine + {b}) && Same(s, t, mine)
    ensures b < |t.bufs| && (HasKey(t, p, k) <==> HasKey(s, p, k) || t.bufs[b].key == Some(k))
  {
    assert b in mine + {b};
    if HasKey(s, p, k) {
      var x :| 0 <= x < |s.bufs| && s.bufs[x].holder == By(p) && s.bufs[x].key == Some(k);
      assert SameBuf(s.bufs[x], t.bufs[x]);
    }
  }

  lemma KeysTaken(s: State, t: State, p: nat, mine: set<nat>, b: nat, k: Key)
    requires Owns(s, p, mine) && Owns(t, p, mine - {b}) && Same(s, t, mine - {b}) && Unique(s) && b in mine
    ensures HasKey(t, p, k) <==> HasKey(s, p, k) && s.bufs[b].key != Some(k)
  {
    if HasKey(s, p, k) && s.bufs[b].key != Some(k) {
      var x :| 0 <= x < |s.bufs| && s.bufs[x].holder == By(p) && s.bufs[x].key == Some(k);
      assert SameBuf(s.bufs[x], t.bufs[x]);
    }
    if HasKey(t, p, k) {
      var x :| 0 <= x < |t.bufs| && t.bufs[x].holder == By(p) && t.bufs[x].key == Some(k);
      assert SameBuf(s.bufs[x], t.bufs[x]) && (x < b || b < x);
    }
  }

  lemma KeptBuffers(s: State, t: State, p: nat, mine: set<nat>, b: nat)
    requires Owns(s, p, mine)
    requires Same(s, t, mine) || (Owns(t, p, mine - {b}) && Same(s, t, mine - {b}))
    ensures Kept(s, t, p)
  {
  }

  // The contents of the blocks of dev when the call has ended.
  lemma CallBlocks(s: State, es: seq<Event>, p: nat, dev: nat, n: nat)
    requires OneCall(s, es, p, dev)
    ensures var g := Given(s, es[0], Key(dev, n));
            At(After(s, es).logical, Key(dev, n)) ==
            if g.Some? then g.value else At(s.logical, Key(dev, n))
  {
    hide After, Given, Inv, Apply;
    assert es[..|es|] == es;
    CallLogical(s, es, p, dev, |es|, Key(dev, n));
  }

  // FileSys.Getblk, and Bread and Breada but for the contents.
  lemma GetblkShows(s: State, es: seq<Event>, p: nat, dev: nat, disk: seq<Block>, held: set<nat>, n: nat)
    returns (b: nat)
    requires OneCall(s, es, p, dev) && Shows(s, p, dev, disk, held) && n < |disk|
    requires Reads(es[0]) && Wanted(es[0]) == Some(Key(dev, n))
    ensures var t := After(s, es);
            && Shows(t, p, dev, disk, held + {n}) && Kept(s, t, p)
            && b < |t.bufs| && t.bufs[b].holder == By(p) && t.bufs[b].key == Some(Key(dev, n))
            && |t.bufs[b].data| == 514 && t.bufs[b].data[512..] == [0, 0] && Gets(t, p, b, es[0])
  {
    hide Inv, Typed, Enabled, Apply, Holding, Same, After, Gets, HasKey, Given, Kept, Owns;
    var t, mine := After(s, es), Mine(s, p);
    b := CallEnds(s, es, p, dev);
    MineHeld(s, p);
    HoldingOwns(s, p, mine);
    HoldingOwns(t, p, mine + {b});
    KeptBuffers(s, t, p, mine, b);
    GotKey(t, p, b, mine, es[0]);
    ExtraWord(t, b);
    forall x: nat ensures HasKey(t, p, Key(dev, x)) <==> HasKey(s, p, Key(dev, x)) || x == n {
      KeysAdded(s, t, p, mine, b, Key(dev, x));
    }
    forall x | 0 <= x < |disk| ensures At(t.logical, Key(dev, x)) == disk[x] {
      CallBlocks(s, es, p, dev, x);
      ReadGives(s, es[0], Key(dev, x));
    }
  }

  lemma GotKey(t: State, p: nat, b: nat, mine: set<nat>, call: Event)
    requires Owns(t, p, mine + {b}) && Gets(t, p, b, call)
    ensures b < |t.bufs| && t.bufs[b].holder == By(p) && t.bufs[b].key == Wanted(call)
  {
    assert b in mine + {b};
  }

  lemma ExtraWord(t: State, b: nat)
    requires Inv(t) && b < |t.bufs|
    ensures |t.bufs[b].data| == 514 && t.bufs[b].data[512..] == [0, 0]
  {
    BufferData(t, b);
  }

  lemma ReadGives(s: State, e: Event, k: Key)
    requires !Writes(e)
    ensures Given(s, e, k) == None
  {
  }

  // FileSys.Bread and Breada.
  lemma BreadShows(s: State, es: seq<Event>, p: nat, dev: nat, disk: seq<Block>, held: set<nat>, n: nat)
    returns (b: nat)
    requires OneCall(s, es, p, dev) && Shows(s, p, dev, disk, held) && n < |disk|
    requires es[0].CallBread? || es[0].CallBreada?
    requires Wanted(es[0]) == Some(Key(dev, n))
    ensures var t := After(s, es);
            && Shows(t, p, dev, disk, held + {n}) && Kept(s, t, p)
            && b < |t.bufs| && t.bufs[b].holder == By(p) && t.bufs[b].key == Some(Key(dev, n))
            && t.bufs[b].data == disk[n] + [0, 0]
  {
    hide Inv, OneCall, Kept, After, HasKey;
    b := GetblkShows(s, es, p, dev, disk, held, n);
    var t := After(s, es);
    BusyHeld(t, p, b);
    assert t.bufs[b].data == t.bufs[b].data[..512] + t.bufs[b].data[512..];
  }

  // FileSys.Brelse, and what Bwrite does to the buffers.
  lemma Released(s: State, es: seq<Event>, p: nat, dev: nat, k: Key)
    requires OneCall(s, es, p, dev) && p in s.procs && s.procs[p].act == Run && GivesUp(es[0])
    ensures var t := After(s, es);
            && Inv(t) && Kept(s, t, p)
            && (HasKey(t, p, k) <==> HasKey(s, p, k) && s.bufs[es[0].b].key != Some(k))
  {
    hide Inv, Typed, Apply, Holding, Same, After, HasKey, Kept, Owns;
    var t, mine, b := After(s, es), Mine(s, p), es[0].b;
    var _ := CallEnds(s, es, p, dev);
    MineHeld(s, p);
    HoldingOwns(s, p, mine);
    HoldingOwns(t, p, mine - {b});
    KeptBuffers(s, t, p, mine, b);
    IsUnique(s);
    KeysTaken(s, t, p, mine, b, k);
  }

  lemma IsUnique(s: State)
    requires Inv(s)
    ensures Unique(s)
  {
  }

  // FileSys.Brelse.
  lemma BrelseShows(s: State, es: seq<Event>, p: nat, dev: nat, disk: seq<Block>, held: set<nat>, n: nat)
    requires OneCall(s, es, p, dev) && Shows(s, p, dev, disk, held) && n < |disk|
    requires es[0].CallBrelse? && s.bufs[es[0].b].key == Some(Key(dev, n))
    ensures Shows(After(s, es), p, dev, disk, held - {n}) && Kept(s, After(s, es), p)
  {
    hide Inv, After, HasKey, Given, Kept, Apply;
    forall x: nat ensures var t := After(s, es);
      && Inv(t) && Kept(s, t, p)
      && (HasKey(t, p, Key(dev, x)) <==> HasKey(s, p, Key(dev, x)) && x != n)
    {
      Released(s, es, p, dev, Key(dev, x));
    }
    forall x | 0 <= x < |disk| ensures At(After(s, es).logical, Key(dev, x)) == disk[x] {
      CallBlocks(s, es, p, dev, x);
      ReadGives(s, es[0], Key(dev, x));
    }
  }

  // FileSys.Bwrite, for bwrite, bawrite and bdwrite.
  lemma BwriteShows(s: State, es: seq<Event>, p: nat, dev: nat, disk: seq<Block>, held: set<nat>, n: nat)
    requires OneCall(s, es, p, dev) && Shows(s, p, dev, disk, held) && n < |disk|
    requires Writes(es[0]) && s.bufs[es[0].b].key == Some(Key(dev, n))
    ensures Shows(After(s, es), p, dev, disk[n := s.bufs[es[0].b].data[..512]], held - {n})
    ensures Kept(s, After(s, es), p)
  {
    hide Inv, After, HasKey, Given, Kept, Apply;
    forall x: nat ensures var t := After(s, es);
      && Inv(t) && Kept(s, t, p)
      && (HasKey(t, p, Key(dev, x)) <==> HasKey(s, p, Key(dev, x)) && x != n)
    {
      Released(s, es, p, dev, Key(dev, x));
    }
    var after := disk[n := s.bufs[es[0].b].data[..512]];
    forall x | 0 <= x < |disk| ensures At(After(s, es).logical, Key(dev, x)) == after[x] {
      CallBlocks(s, es, p, dev, x);
      WriteGives(s, es[0], Key(dev, x));
    }
  }

  lemma WriteGives(s: State, e: Event, k: Key)
    requires Typed(s) && Enabled(s, e) && Writes(e)
    ensures Given(s, e, k) == if s.bufs[e.b].key == Some(k) then Some(s.bufs[e.b].data[..512]) else None
  {
  }

  // Between the calls of p: other processes and the disk ...
  lemma OthersShow(s: State, e: Event, p: nat, dev: nat, disk: seq<Block>, held: set<nat>)
    requires Shows(s, p, dev, disk, held) && Typed(s) && Enabled(s, e) && Actor(e) != Some(p) && NoWrite(s, e, dev)
    ensures Shows(Apply(s, e), p, dev, disk, held) && Kept(s, Apply(s, e), p)
  {
    hide Inv, Typed, Enabled, Apply, Holding, Same, Given, Kept, Owns, HasKey;
    var t, mine := Apply(s, e), Mine(s, p);
    MineHeld(s, p);
    OtherHolding(s, e, p, mine);
    StepInv(s, e);
    HoldingOwns(s, p, mine);
    HoldingOwns(t, p, mine);
    KeptBuffers(s, t, p, mine, 0);
    forall x: nat ensures HasKey(t, p, Key(dev, x)) <==> HasKey(s, p, Key(dev, x)) {
      KeysSame(s, t, p, mine, Key(dev, x));
    }
    forall x | 0 <= x < |disk| ensures At(t.logical, Key(dev, x)) == disk[x] {
      StepLogical(s, e, Key(dev, x));
    }
  }

  lemma KeysSame(s: State, t: State, p: nat, mine: set<nat>, k: Key)
    requires Owns(s, p, mine) && Owns(t, p, mine) && Same(s, t, mine)
    ensures HasKey(t, p, k) <==> HasKey(s, p, k)
  {
    if HasKey(s, p, k) {
      var x :| 0 <= x < |s.bufs| && s.bufs[x].holder == By(p) && s.bufs[x].key == Some(k);
      assert SameBuf(s.bufs[x], t.bufs[x]);
    }
  }

  // ... and what p itself stores into a buffer that it has.
  lemma StoreShows(s: State, p: nat, b: nat, data: Block, dev: nat, disk: seq<Block>, held: set<nat>)
    requires Shows(s, p, dev, disk, held) && Typed(s) && Enabled(s, Store(p, b, data))
    ensures var t := Apply(s, Store(p, b, data));
            && Shows(t, p, dev, disk, held)
            && (forall x :: 0 <= x < |s.bufs| && x != b ==> t.bufs[x] == s.bufs[x])
            && t.bufs[b].data == data + s.bufs[b].data[512..]
  {
    hide Inv;
    StepInv(s, Store(p, b, data));
    var t := Apply(s, Store(p, b, data));
    forall x: nat ensures HasKey(t, p, Key(dev, x)) <==> HasKey(s, p, Key(dev, x)) {
      if HasKey(s, p, Key(dev, x)) {
        var y :| 0 <= y < |s.bufs| && s.bufs[y].holder == By(p) && s.bufs[y].key == Some(Key(dev, x));
        assert t.bufs[y].holder == By(p) && t.bufs[y].key == Some(Key(dev, x));
      }
    }
  }

  // ---- A call that ends ----

  // The disk is idle, block k is not in core and the first buffer on the list is clean.
  predicate Ready(s: State, p: nat, k: Key) {
    && p in s.procs && s.procs[p] == Proc(Run, None) && s.queue == [] && !Incore(s, k)
    && s.avail != [] && s.avail[0] < |s.bufs| && !s.bufs[s.avail[0]].delwri
  }

  function ReadEvents(p: nat, k: Key): seq<Event> {
    [CallBread(p, k), GetStep(p), UseStep(p), Interrupt, WaitStep(p)]
  }

  // p is at activity a, and b is its buffer.
  predicate Stands(t: State, p: nat, a: Activity, b: nat, queue: seq<nat>) {
    && p in t.procs && t.procs[p] == Proc(a, None) && b < |t.bufs| && t.queue == queue
    && !t.bufs[b].async && !t.bufs[b].delwri
  }

  lemma ReadGets(s: State, p: nat, k: Key)
    requires Inv(s) && Ready(s, p, k)
    ensures var t := Moved(Moved(s, CallBread(p, k)), GetStep(p));
            var b := s.avail[0];
            Stands(t, p, Got(b, Some(k), ReadIt), b, []) && !t.bufs[b].done
  {
    StepInv(s, CallBread(p, k));
    InvTyped(s);
    var u := Moved(s, CallBread(p, k));
    InvTyped(u);
    hide Inv, Without;
  }

  lemma ReadUses(s: State, p: nat, b: nat, k: Key)
    requires Inv(s) && Stands(s, p, Got(b, Some(k), ReadIt), b, []) && !s.bufs[b].done
    ensures Stands(Moved(s, UseStep(p)), p, Wait(b, k, false), b, [b])
  {
    InvTyped(s);
    hide Inv;
  }

  lemma RequestDone(s: State, p: nat, b: nat, k: Key, release: bool)
    requires Inv(s) && Stands(s, p, Wait(b, k, release), b, [b])
    ensures var t := Moved(s, Interrupt); Stands(t, p, Wait(b, k, release), b, []) && t.bufs[b].done
  {
    InvTyped(s);
    hide Inv;
  }

  lemma CallDone(s: State, p: nat, b: nat, k: Key, release: bool)
    requires Inv(s) && Stands(s, p, Wait(b, k, release), b, []) && s.bufs[b].done
    ensures Stands(Moved(s, WaitStep(p)), p, Run, b, [])
  {
    InvTyped(s);
    hide Inv;
  }

  // p is in a call.
  predicate InACall(s: State, p: nat) {
    p in s.procs && s.procs[p].act != Run
  }

  lemma StandsInCall(s: State, p: nat, a: Activity, b: nat, queue: seq<nat>)
    requires Stands(s, p, a, b, queue)
    ensures InACall(s, p) <==> a != Run
  {
  }

  lemma ReadNext(s: State, es: seq<Event>, n: nat)
    requires Inv(s) && 0 < n < |es|
    ensures After(s, es[..n + 1]) == Moved(After(s, es[..n]), es[n]) && Inv(After(s, es[..n]))
  {
    NextOf(s, es, n);
    RunInv(s, es[..n]);
  }

  lemma ReadRun(s: State, p: nat, k: Key, es: seq<Event>)
    requires Inv(s) && Ready(s, p, k) && es == ReadEvents(p, k)
    ensures forall n :: 1 <= n < 5 ==> InACall(After(s, es[..n]), p)
    ensures p in After(s, es).procs && After(s, es).procs[p].act == Run
  {
    hide Inv, Typed, Apply, After, Moved, Ready, Stands;
    var b := FirstFree(s, p, k);
    FirstOf(s, es);
    ReadStarts(s, p, k);
    ReadNext(s, es, 1);
    ReadGets(s, p, k);
    ReadNext(s, es, 2);
    ReadUses(After(s, es[..2]), p, b, k);
    ReadNext(s, es, 3);
    RequestDone(After(s, es[..3]), p, b, k, false);
    ReadNext(s, es, 4);
    CallDone(After(s, es[..4]), p, b, k, false);
    assert es[..5] == es;
    StandsInCall(After(s, es[..2]), p, Got(b, Some(k), ReadIt), b, []);
    StandsInCall(After(s, es[..3]), p, Wait(b, k, false), b, [b]);
    StandsInCall(After(s, es[..4]), p, Wait(b, k, false), b, []);
    StandsRun(After(s, es), p, b);
  }

  lemma FirstFree(s: State, p: nat, k: Key) returns (b: nat)
    requires Ready(s, p, k)
    ensures s.avail != [] && b == s.avail[0]
  {
    b := s.avail[0];
  }

  lemma StandsRun(s: State, p: nat, b: nat)
    requires Stands(s, p, Run, b, [])
    ensures p in s.procs && s.procs[p].act == Run
  {
  }

  // The call takes five steps.
  lemma ReadAlone(s: State, p: nat, k: Key, dev: nat)
    requires Inv(s) && Ready(s, p, k)
    ensures OneCall(s, ReadEvents(p, k), p, dev)
  {
    hide Inv, Typed, Apply, After, Given;
    var es := ReadEvents(p, k);
    ReadRun(s, p, k, es);
    InvTyped(s);
    forall n | 1 <= n < 5 ensures InCall(After(s, es[..n]), es[n], p, dev) {
      forall x: nat ensures Given(After(s, es[..n]), es[n], Key(dev, x)) == None {
        ReadGives(After(s, es[..n]), es[n], Key(dev, x));
      }
    }
  }

  lemma ReadStarts(s: State, p: nat, k: Key)
    requires Inv(s) && Ready(s, p, k)
    ensures InACall(Moved(s, CallBread(p, k)), p)
  {
    InvTyped(s);
    hide Inv;
  }

  function WriteEvents(p: nat, b: nat): seq<Event> {
    [CallBwrite(p, b), Interrupt, WaitStep(p)]
  }

  lemma WriteStarts(s: State, p: nat, b: nat)
    requires Inv(s) && Holds(s, p, b) && s.bufs[b].key.Some? && s.queue == []
    ensures Stands(Moved(s, CallBwrite(p, b)), p, Wait(b, s.bufs[b].key.value, true), b, [b])
  {
    InvTyped(s);
    hide Inv;
  }

  lemma WriteRun(s: State, p: nat, b: nat, es: seq<Event>)
    requires Inv(s) && Holds(s, p, b) && s.bufs[b].key.Some? && s.queue == [] && es == WriteEvents(p, b)
    ensures forall n :: 1 <= n < 3 ==> InACall(After(s, es[..n]), p)
    ensures p in After(s, es).procs && After(s, es).procs[p].act == Run
  {
    hide Inv, Typed, Apply, After, Moved, Stands, Enabled, Holds;
    var k := HeldKey(s, p, b);
    FirstOf(s, es);
    WriteStarts(s, p, b);
    ReadNext(s, es, 1);
    RequestDone(After(s, es[..1]), p, b, k, true);
    ReadNext(s, es, 2);
    CallDone(After(s, es[..2]), p, b, k, true);
    assert es[..3] == es;
    StandsInCall(After(s, es[..1]), p, Wait(b, k, true), b, [b]);
    StandsInCall(After(s, es[..2]), p, Wait(b, k, true), b, []);
    StandsRun(After(s, es), p, b);
  }

  lemma HeldKey(s: State, p: nat, b: nat) returns (k: Key)
    requires Holds(s, p, b) && s.bufs[b].key.Some?
    ensures b < |s.bufs| && s.bufs[b].key == Some(k)
  {
    k := s.bufs[b].key.value;
  }

  // With the disk idle, a process can write any buffer it holds, in three steps.
  lemma WriteAlone(s: State, p: nat, b: nat, dev: nat)
    requires Inv(s) && Holds(s, p, b) && s.bufs[b].key.Some? && s.queue == []
    ensures OneCall(s, WriteEvents(p, b), p, dev)
  {
    hide Inv, Typed, Apply, After, Given;
    var es := WriteEvents(p, b);
    WriteRun(s, p, b, es);
    InvTyped(s);
    forall n | 1 <= n < 3 ensures InCall(After(s, es[..n]), es[n], p, dev) {
      forall x: nat ensures Given(After(s, es[..n]), es[n], Key(dev, x)) == None {
        ReadGives(After(s, es[..n]), es[n], Key(dev, x));
      }
    }
  }
}
