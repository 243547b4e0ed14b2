// Character queues (dmr/tty.c:161-171, 561-639): bytes in chained blocks of eight, six of
// them characters, from a common free list.
module Clist {
  const NCLIST: nat := 100
  const CORE: nat := 808

  // Pointers are addresses: block n (from 1) is at 8n, with its link there and its characters
  // from 8n + 2 on; 0 is null.

  ghost predicate Blocks(l: seq<nat>) {
    && (forall i :: 0 <= i < |l| ==> 0 < l[i] <= NCLIST)
    && forall i, j :: 0 <= i < j < |l| ==> l[i] != l[j]
  }

  // Each block's link is the next block, the last one's null; first is the first block.
  ghost predicate Chain(next: seq<nat>, first: nat, ch: seq<nat>)
    decreases |ch|
  {
    && |next| == NCLIST + 1
    && if ch == [] then first == 0
       else 0 < ch[0] <= NCLIST && first == 8 * ch[0] && ch[0] !in ch[1..] && Chain(next, next[ch[0]], ch[1..])
  }

  // The pointers of a queue that is not empty are in its first and last block.
  ghost predicate Ends(ch: seq<nat>, cf: nat, cl: nat) {
    && ch != [] && 8 * ch[0] + 2 <= cf <= 8 * ch[0] + 7
    && 8 * ch[|ch| - 1] + 2 < cl <= 8 * ch[|ch| - 1] + 8 && (|ch| == 1 ==> cf < cl)
    && forall i :: 0 <= i < |ch| ==> 0 < ch[i] <= NCLIST
  }

  // The characters from cf in the first block up to cl in the last.
  ghost function Text(info: seq<int>, ch: seq<nat>, cf: nat, cl: nat): seq<int>
    requires |info| == CORE && Ends(ch, cf, cl)
    decreases |ch|
  {
    if |ch| == 1 then info[cf..cl]
    else info[cf..8 * ch[0] + 8] + Text(info, ch[1..], 8 * ch[1] + 2, cl)
  }

  // A queue: count cc, first and last pointers cf and cl, blocks ch, contents w.
  ghost predicate QueueOk(next: seq<nat>, info: seq<int>, cc: int, cf: nat, cl: nat, ch: seq<nat>, w: seq<int>) {
    && |next| == NCLIST + 1 && |info| == CORE && cc == |w|
    && if w == [] then ch == [] && cf == 0 && cl == 0
       else Ends(ch, cf, cl) && Chain(next, 8 * ch[0], ch) && w == Text(info, ch, cf, cl)
  }

  lemma EndsRest(ch: seq<nat>, cf: nat, cl: nat)
    requires Ends(ch, cf, cl)
    ensures ch != [] && 0 < ch[0] <= NCLIST && 8 * ch[0] + 2 <= cf <= 8 * ch[0] + 7 && 0 < ch[|ch| - 1] <= NCLIST
    ensures 8 * ch[|ch| - 1] + 2 < cl <= 8 * ch[|ch| - 1] + 8 && (|ch| == 1 ==> cf < cl)
    ensures |ch| > 1 ==> Ends(ch[1..], 8 * ch[1] + 2, cl) && ch[1..][|ch| - 2] == ch[|ch| - 1]
  {
  }

  lemma TextStep(info: seq<int>, ch: seq<nat>, cf: nat, cl: nat)
    requires |info| == CORE && Ends(ch, cf, cl)
    ensures |ch| == 1 ==> 0 <= cf < cl <= CORE && Text(info, ch, cf, cl) == info[cf..cl]
    ensures |ch| > 1 ==>
              && cf <= 8 * ch[0] + 8 <= CORE && Ends(ch[1..], 8 * ch[1] + 2, cl)
              && Text(info, ch, cf, cl) == info[cf..8 * ch[0] + 8] + Text(info, ch[1..], 8 * ch[1] + 2, cl)
  {
  }

  // The characters of block b are the same.
  ghost predicate SameBlock(info: seq<int>, info': seq<int>, b: nat)
    requires |info| == |info'| == CORE
  {
    forall a :: 8 * b + 2 <= a < 8 * b + 8 && a < CORE ==> info'[a] == info[a]
  }

  lemma SameSlice(info: seq<int>, info': seq<int>, b: nat, i: nat, j: nat)
    requires |info| == |info'| == CORE && SameBlock(info, info', b) && 8 * b + 2 <= i <= j <= 8 * b + 8 && b <= NCLIST
    ensures info'[i..j] == info[i..j]
  {
  }

  lemma {:induction false} TextFrame(info: seq<int>, info': seq<int>, ch: seq<nat>, cf: nat, cl: nat)
    requires |info| == |info'| == CORE && Ends(ch, cf, cl)
    requires forall b :: b in ch ==> SameBlock(info, info', b)
    ensures Text(info', ch, cf, cl) == Text(info, ch, cf, cl)
    decreases |ch|
  {
    hide Text, Ends, SameBlock;
    EndsRest(ch, cf, cl);
    TextStep(info, ch, cf, cl);
    TextStep(info', ch, cf, cl);
    assert ch[0] in ch;
    SameSlice(info, info', ch[0], cf, if |ch| == 1 then cl else 8 * ch[0] + 8);
    if |ch| > 1 {
      assert forall b :: b in ch[1..] ==> b in ch;
      TextFrame(info, info', ch[1..], 8 * ch[1] + 2, cl);
    }
  }

  lemma {:induction false} ChainFrame(next: seq<nat>, next': seq<nat>, first: nat, ch: seq<nat>)
    requires Chain(next, first, ch) && |next'| == NCLIST + 1
    requires forall b :: b in ch && 0 <= b <= NCLIST ==> next'[b] == next[b]
    ensures Chain(next', first, ch)
    decreases |ch|
  {
    if ch != [] {
      assert ch[0] in ch;
      assert forall b :: b in ch[1..] ==> b in ch;
      ChainFrame(next, next', next[ch[0]], ch[1..]);
    }
  }

  // Blocks of other queues may change.
  lemma QueueFrame(next: seq<nat>, info: seq<int>, next': seq<nat>, info': seq<int>,
                   cc: int, cf: nat, cl: nat, ch: seq<nat>, w: seq<int>)
    requires QueueOk(next, info, cc, cf, cl, ch, w) && |next'| == |next| && |info'| == |info|
    requires forall b :: b in ch && 0 <= b <= NCLIST ==> next'[b] == next[b]
    requires |info| == CORE && forall b :: b in ch ==> SameBlock(info, info', b)
    ensures QueueOk(next', info', cc, cf, cl, ch, w)
  {
    if w != [] {
      TextFrame(info, info', ch, cf, cl);
      ChainFrame(next, next', 8 * ch[0], ch);
    }
  }

  lemma TextSize(info: seq<int>, ch: seq<nat>, cf: nat, cl: nat)
    requires |info| == CORE && Ends(ch, cf, cl)
    ensures |Text(info, ch, cf, cl)| >= 1 && Text(info, ch, cf, cl)[0] == info[cf]
    ensures |ch| > 1 ==> |Text(info, ch, cf, cl)| >= 2
  {
    if |ch| > 1 && |ch[1..]| > 1 {
      assert |Text(info, ch[1..], 8 * ch[1] + 2, cl)| >= 6;
    }
  }

  // ---- getc ----

  // The first character goes; its block too, if it was the last character there.
  lemma GetText(info: seq<int>, ch: seq<nat>, cf: nat, cl: nat)
    requires |info| == CORE && Ends(ch, cf, cl)
    ensures var w := Text(info, ch, cf, cl);
            if |w| == 1 then |ch| == 1 && cf + 1 == cl
            else if cf == 8 * ch[0] + 7 then
              |ch| > 1 && Ends(ch[1..], 8 * ch[1] + 2, cl) && Text(info, ch[1..], 8 * ch[1] + 2, cl) == w[1..]
            else Ends(ch, cf + 1, cl) && Text(info, ch, cf + 1, cl) == w[1..]
  {
    TextSize(info, ch, cf, cl);
    var w := Text(info, ch, cf, cl);
    if |ch| == 1 {
      assert |w| > 1 ==> info[cf + 1..cl] == w[1..];
    } else {
      var a, rest := info[cf..8 * ch[0] + 8], Text(info, ch[1..], 8 * ch[1] + 2, cl);
      if cf == 8 * ch[0] + 7 {
        assert w[1..] == rest;
      } else {
        assert w[1..] == info[cf + 1..8 * ch[0] + 8] + rest;
      }
    }
  }

  // ---- putc ----

  // A character where the last block has room.
  lemma {:induction false} PutText(info: seq<int>, ch: seq<nat>, cf: nat, cl: nat, c: int)
    requires |info| == CORE && Ends(ch, cf, cl) && cl < 8 * ch[|ch| - 1] + 8 && Blocks(ch)
    ensures cl < CORE && Ends(ch, cf, cl + 1) && Text(info[cl := c], ch, cf, cl + 1) == Text(info, ch, cf, cl) + [c]
    decreases |ch|
  {
    hide Text, Ends;
    EndsMore(ch, cf, cl);
    EndsRest(ch, cf, cl);
    var info' := info[cl := c];
    TextStep(info, ch, cf, cl);
    TextStep(info', ch, cf, cl + 1);
    if |ch| == 1 {
      assert info'[cf..cl + 1] == info[cf..cl] + [c];
    } else {
      assert ch[0] != ch[|ch| - 1];
      PutText(info, ch[1..], 8 * ch[1] + 2, cl, c);
      assert info'[cf..8 * ch[0] + 8] == info[cf..8 * ch[0] + 8];
    }
  }

  lemma EndsMore(ch: seq<nat>, cf: nat, cl: nat)
    requires Ends(ch, cf, cl) && cl < 8 * ch[|ch| - 1] + 8
    ensures Ends(ch, cf, cl + 1)
  {
  }

  lemma EndsBlock(ch: seq<nat>, cf: nat, cl: nat, b: nat)
    requires Ends(ch, cf, cl) && 0 < b <= NCLIST
    ensures Ends(ch + [b], cf, 8 * b + 3)
  {
  }

  // A new block is joined to full ones.
  lemma {:induction false} JoinText(info: seq<int>, ch: seq<nat>, cf: nat, cl: nat, b: nat)
    requires |info| == CORE && Ends(ch, cf, cl) && cl == 8 * ch[|ch| - 1] + 8 && 0 < b <= NCLIST
    ensures Ends(ch + [b], cf, 8 * b + 3)
    ensures Text(info, ch + [b], cf, 8 * b + 3) == Text(info, ch, cf, cl) + [info[8 * b + 2]]
    decreases |ch|
  {
    hide Text, Ends;
    EndsBlock(ch, cf, cl, b);
    EndsRest(ch, cf, cl);
    var more := ch + [b];
    TextStep(info, ch, cf, cl);
    TextStep(info, more, cf, 8 * b + 3);
    assert more[1..] == ch[1..] + [b];
    if |ch| == 1 {
      assert more[1..] == [b];
      TextStep(info, [b], 8 * b + 2, 8 * b + 3);
      assert info[8 * b + 2..8 * b + 3] == [info[8 * b + 2]];
    } else {
      JoinText(info, ch[1..], 8 * ch[1] + 2, cl, b);
      var a, x, y := info[cf..8 * ch[0] + 8], Text(info, ch[1..], 8 * ch[1] + 2, cl), info[8 * b + 2];
      assert more[1] == ch[1];
      assert a + (x + [y]) == a + x + [y];
    }
  }

  // A character in a new block behind the last.
  lemma PutBlockText(info: seq<int>, ch: seq<nat>, cf: nat, cl: nat, b: nat, c: int)
    requires |info| == CORE && Ends(ch, cf, cl) && cl == 8 * ch[|ch| - 1] + 8 && 0 < b <= NCLIST && b !in ch
    ensures Ends(ch + [b], cf, 8 * b + 3)
    ensures Text(info[8 * b + 2 := c], ch + [b], cf, 8 * b + 3) == Text(info, ch, cf, cl) + [c]
  {
    hide Text, Ends;
    EndsRest(ch, cf, cl);
    var info' := info[8 * b + 2 := c];
    forall x | x in ch ensures SameBlock(info, info', x) {
    }
    TextFrame(info, info', ch, cf, cl);
    JoinText(info', ch, cf, cl, b);
  }

  lemma {:induction false} ChainAppend(next: seq<nat>, first: nat, ch: seq<nat>, b: nat)
    requires Chain(next, first, ch) && ch != [] && 0 < b <= NCLIST && b !in ch
    ensures 0 < ch[|ch| - 1] <= NCLIST
    ensures Chain(next[ch[|ch| - 1] := 8 * b][b := 0], first, ch + [b])
    decreases |ch|
  {
    var last := ch[|ch| - 1];
    assert last in ch && ch[0] in ch;
    if |ch| == 1 {
      var n := next[last := 8 * b][b := 0];
      assert (ch + [b])[1..] == [b];
      assert Chain(n, 8 * b, [b]);
    } else {
      assert ch[1..][|ch| - 2] == last && last in ch[1..];
      ChainAppend(next, next[ch[0]], ch[1..], b);
      assert (ch + [b])[1..] == ch[1..] + [b];
    }
  }

  lemma {:induction false} ChainDistinct(next: seq<nat>, first: nat, ch: seq<nat>)
    requires Chain(next, first, ch)
    ensures Blocks(ch)
    decreases |ch|
  {
    if ch != [] {
      ChainDistinct(next, next[ch[0]], ch[1..]);
      assert forall i :: 0 < i < |ch| ==> ch[i] == ch[1..][i - 1];
    }
  }

  // ---- All queues and the free list ----

  // c_cc, c_cf and c_cl.
  datatype Head = Head(cc: int, cf: nat, cl: nat)

  const FREE: int := -1
  const UNUSED: int := -2

  // owner says for each block which queue has it, or that it is free. The last block is
  // unused when the table does not start at a multiple of 8.
  ghost predicate Owners(owner: seq<int>, chains: seq<seq<nat>>, free: seq<nat>) {
    && |owner| == NCLIST + 1
    && (forall b :: 0 < b <= NCLIST ==> UNUSED <= owner[b] < |chains|)
    && (forall b :: 0 < b <= NCLIST ==> (b in free <==> owner[b] == FREE))
    && forall i, b :: 0 <= i < |chains| && 0 < b <= NCLIST ==> (b in chains[i] <==> owner[b] == i)
  }

  ghost predicate QueuesOk(next: seq<nat>, info: seq<int>, heads: seq<Head>, chains: seq<seq<nat>>,
                           texts: seq<seq<int>>) {
    && |heads| == |chains| == |texts|
    && forall i :: 0 <= i < |heads| ==> QueueAt(next, info, heads, chains, texts, i)
  }

  ghost predicate QueueAt(next: seq<nat>, info: seq<int>, heads: seq<Head>, chains: seq<seq<nat>>,
                          texts: seq<seq<int>>, i: nat)
    requires i < |heads| == |chains| == |texts|
  {
    QueueOk(next, info, heads[i].cc, heads[i].cf, heads[i].cl, chains[i], texts[i])
  }

  // Queues other than i keep their contents when only blocks change that they do not have.
  lemma OtherQueues(next: seq<nat>, info: seq<int>, next': seq<nat>, info': seq<int>, heads: seq<Head>,
                    chains: seq<seq<nat>>, texts: seq<seq<int>>, owner: seq<int>, free: seq<nat>,
                    i: nat, h: Head, ch: seq<nat>, w: seq<int>)
    requires QueuesOk(next, info, heads, chains, texts) && Owners(owner, chains, free) && i < |heads|
    requires |next| == |next'| == NCLIST + 1 && |info| == |info'| == CORE
    requires forall b :: 0 < b <= NCLIST && owner[b] != FREE && owner[b] != i ==>
               next'[b] == next[b] && SameBlock(info, info', b)
    requires QueueOk(next', info', h.cc, h.cf, h.cl, ch, w)
    ensures QueuesOk(next', info', heads[i := h], chains[i := ch], texts[i := w])
  {
    hide QueueOk, SameBlock;
    var heads', chains', texts' := heads[i := h], chains[i := ch], texts[i := w];
    forall j | 0 <= j < |heads'| ensures QueueAt(next', info', heads', chains', texts', j) {
      if j != i {
        assert QueueAt(next, info, heads, chains, texts, j);
        ChainBlocks(next, info, heads[j].cc, heads[j].cf, heads[j].cl, chains[j], texts[j]);
        QueueFrame(next, info, next', info', heads[j].cc, heads[j].cf, heads[j].cl, chains[j], texts[j]);
      }
    }
  }

  lemma ChainBlocks(next: seq<nat>, info: seq<int>, cc: int, cf: nat, cl: nat, ch: seq<nat>, w: seq<int>)
    requires QueueOk(next, info, cc, cf, cl, ch, w)
    ensures Blocks(ch) && (forall b :: b in ch ==> 0 < b <= NCLIST) && cc == |w| && (ch == [] <==> w == [])
    ensures |next| == NCLIST + 1 && |info| == CORE
    ensures (cf == 0 <==> w == []) && (cl == 0 <==> w == [])
  {
    if w != [] {
      ChainDistinct(next, 8 * ch[0], ch);
    }
  }

  // The owner of block b becomes o; its list is put in or out.
  lemma Freed(owner: seq<int>, chains: seq<seq<nat>>, free: seq<nat>, i: nat, b: nat, rest: seq<nat>)
    requires Owners(owner, chains, free) && i < |chains| && 0 < b <= NCLIST && owner[b] == i
    requires forall x :: x in rest <==> x in chains[i] && x != b
    ensures Owners(owner[b := FREE], chains[i := rest], [b] + free)
  {
  }

  lemma Allotted(owner: seq<int>, chains: seq<seq<nat>>, free: seq<nat>, i: nat, b: nat)
    requires Owners(owner, chains, free) && i < |chains| && free != [] && b == free[0] && 0 < b <= NCLIST
    requires b !in free[1..]
    ensures owner[b] == FREE && Owners(owner[b := i], chains[i := chains[i] + [b]], free[1..])
  {
    assert b in free;
    forall x | 0 < x <= NCLIST ensures x in free[1..] <==> owner[b := i][x] == FREE {
      if x in free && x != b {
        var k :| 0 <= k < |free| && free[k] == x;
        assert x == free[1..][k - 1];
      }
    }
  }

  // ---- getc on one queue ----

  // What getc leaves: the queue's pointers, and the block that is freed or 0.
  function GetHead(next: seq<nat>, h: Head): (Head, nat)
    requires |next| == NCLIST + 1 && h.cf / 8 <= NCLIST
  {
    if h.cc == 1 then (Head(0, 0, 0), h.cf / 8)
    else if (h.cf + 1) % 8 == 0 then (Head(h.cc - 1, next[h.cf / 8] + 2, h.cl), h.cf / 8)
    else (Head(h.cc - 1, h.cf + 1, h.cl), 0)
  }

  lemma GetQueue(next: seq<nat>, info: seq<int>, h: Head, ch: seq<nat>, w: seq<int>)
    requires QueueOk(next, info, h.cc, h.cf, h.cl, ch, w) && w != []
    ensures h.cf < CORE && h.cf / 8 <= NCLIST && h.cf / 8 == ch[0] && info[h.cf] == w[0]
    ensures var (h', b) := GetHead(next, h);
            && (b == 0 || b == ch[0])
            && QueueOk(next, info, h'.cc, h'.cf, h'.cl, if b == 0 then ch else ch[1..], w[1..])
  {
    hide Text;
    EndsRest(ch, h.cf, h.cl);
    TextSize(info, ch, h.cf, h.cl);
    GetText(info, ch, h.cf, h.cl);
    assert (h.cf + 1) % 8 == 0 <==> h.cf == 8 * ch[0] + 7;
    if |ch| > 1 {
      assert Chain(next, next[ch[0]], ch[1..]);
    }
  }

  // A freed block changes nothing in the rest of the queue.
  lemma FreeBlock(next: seq<nat>, info: seq<int>, h: Head, ch: seq<nat>, w: seq<int>, b: nat, x: nat)
    requires QueueOk(next, info, h.cc, h.cf, h.cl, ch, w) && b !in ch && b <= NCLIST
    ensures QueueOk(next[b := x], info, h.cc, h.cf, h.cl, ch, w)
  {
    QueueFrame(next, info, next[b := x], info, h.cc, h.cf, h.cl, ch, w);
  }

  // ... and goes to the free list.
  lemma Release(next: seq<nat>, info: seq<int>, heads: seq<Head>, chains: seq<seq<nat>>, texts: seq<seq<int>>,
                owner: seq<int>, free: seq<nat>, first: nat, i: nat, h: Head, b: nat)
    requires QueuesOk(next, info, heads, chains, texts) && Owners(owner, chains, free) && Chain(next, first, free)
    requires i < |heads| && texts[i] != [] && heads[i].cf / 8 <= NCLIST && |next| == NCLIST + 1
    requires GetHead(next, heads[i]) == (h, b) && b != 0
    ensures 0 < b <= NCLIST && |owner| == NCLIST + 1 && |info| == CORE && chains[i] != []
    ensures QueuesOk(next[b := first], info, heads[i := h], chains[i := chains[i][1..]], texts[i := texts[i][1..]])
    ensures Chain(next[b := first], 8 * b, [b] + free)
    ensures Owners(owner[b := FREE], chains[i := chains[i][1..]], [b] + free)
  {
    hide QueueOk, GetHead, SameBlock;
    assert QueueAt(next, info, heads, chains, texts, i);
    var ch, w := chains[i], texts[i];
    ChainBlocks(next, info, heads[i].cc, heads[i].cf, heads[i].cl, ch, w);
    GetQueue(next, info, heads[i], ch, w);
    assert ch[0] in ch;
    assert b !in ch[1..];
    FreeBlock(next, info, h, ch[1..], w[1..], b, first);
    SameAll(info);
    OtherQueues(next, info, next[b := first], info, heads, chains, texts, owner, free, i, h, ch[1..], w[1..]);
    ChainDistinct(next, first, free);
    assert b !in free;
    ChainFrame(next, next[b := first], first, free);
    assert ([b] + free)[1..] == free;
    Freed(owner, chains, free, i, b, ch[1..]);
  }

  lemma SameAll(info: seq<int>)
    requires |info| == CORE
    ensures forall b :: SameBlock(info, info, b)
  {
  }

  // ---- putc on one queue ----

  lemma PutSame(next: seq<nat>, info: seq<int>, h: Head, ch: seq<nat>, w: seq<int>, c: int)
    requires QueueOk(next, info, h.cc, h.cf, h.cl, ch, w) && h.cl != 0 && h.cl % 8 != 0
    ensures h.cl < CORE && QueueOk(next, info[h.cl := c], h.cc + 1, h.cf, h.cl + 1, ch, w + [c])
    ensures h.cl / 8 in ch
  {
    hide Text;
    ChainBlocks(next, info, h.cc, h.cf, h.cl, ch, w);
    EndsRest(ch, h.cf, h.cl);
    PutText(info, ch, h.cf, h.cl, c);
    assert h.cl / 8 == ch[|ch| - 1];
  }

  lemma PutFirst(next: seq<nat>, info: seq<int>, h: Head, ch: seq<nat>, w: seq<int>, b: nat, c: int)
    requires QueueOk(next, info, h.cc, h.cf, h.cl, ch, w) && h.cl == 0 && 0 < b <= NCLIST
    ensures w == [] && ch == []
    ensures QueueOk(next[b := 0], info[8 * b + 2 := c], h.cc + 1, 8 * b + 2, 8 * b + 3, [b], [c])
  {
    ChainBlocks(next, info, h.cc, h.cf, h.cl, ch, w);
    assert info[8 * b + 2 := c][8 * b + 2..8 * b + 3] == [c];
    assert Chain(next[b := 0], 0, [b][1..]);
    assert Chain(next[b := 0], 8 * b, [b]);
  }

  lemma PutBlock(next: seq<nat>, info: seq<int>, h: Head, ch: seq<nat>, w: seq<int>, b: nat, c: int)
    requires QueueOk(next, info, h.cc, h.cf, h.cl, ch, w) && h.cl != 0 && h.cl % 8 == 0 && 0 < b <= NCLIST && b !in ch
    ensures ch != [] && h.cl == 8 * ch[|ch| - 1] + 8 && 0 < ch[|ch| - 1] <= NCLIST
    ensures QueueOk(next[ch[|ch| - 1] := 8 * b][b := 0], info[8 * b + 2 := c], h.cc + 1, h.cf, 8 * b + 3,
                    ch + [b], w + [c])
  {
    hide Text;
    EndsRest(ch, h.cf, h.cl);
    PutBlockText(info, ch, h.cf, h.cl, b, c);
    ChainAppend(next, 8 * ch[0], ch, b);
    assert (ch + [b])[0] == ch[0];
  }

  // What putc leaves when it takes block b: the queue's pointers, and the links.
  function PutHead(h: Head, b: nat): Head {
    Head(h.cc + 1, if h.cl == 0 then 8 * b + 2 else h.cf, 8 * b + 3)
  }

  function PutLinks(next: seq<nat>, h: Head, b: nat): seq<nat>
    requires |next| == NCLIST + 1 && b <= NCLIST && (h.cl != 0 ==> 8 <= h.cl && (h.cl - 8) / 8 <= NCLIST)
  {
    if h.cl == 0 then next[b := 0] else next[(h.cl - 8) / 8 := 8 * b][b := 0]
  }

  lemma PutInPlace(next: seq<nat>, info: seq<int>, heads: seq<Head>, chains: seq<seq<nat>>, texts: seq<seq<int>>,
                   owner: seq<int>, free: seq<nat>, i: nat, c: int)
    requires QueuesOk(next, info, heads, chains, texts) && Owners(owner, chains, free) && i < |heads|
    requires heads[i].cl != 0 && heads[i].cl % 8 != 0
    ensures var h := heads[i];
            && h.cl < |info|
            && QueuesOk(next, info[h.cl := c], heads[i := Head(h.cc + 1, h.cf, h.cl + 1)], chains,
                        texts[i := texts[i] + [c]])
  {
    hide QueueOk;
    assert QueueAt(next, info, heads, chains, texts, i);
    var h, ch, w := heads[i], chains[i], texts[i];
    ChainBlocks(next, info, h.cc, h.cf, h.cl, ch, w);
    PutSame(next, info, h, ch, w, c);
    forall b | 0 < b <= NCLIST && owner[b] != FREE && owner[b] != i ensures SameBlock(info, info[h.cl := c], b) {
      assert h.cl / 8 != b;
    }
    OtherQueues(next, info, next, info[h.cl := c], heads, chains, texts, owner, free, i,
                Head(h.cc + 1, h.cf, h.cl + 1), ch, w + [c]);
    assert chains[i := ch] == chains;
  }

  lemma Acquire(next: seq<nat>, info: seq<int>, heads: seq<Head>, chains: seq<seq<nat>>, texts: seq<seq<int>>,
                owner: seq<int>, free: seq<nat>, first: nat, i: nat, c: int)
    requires QueuesOk(next, info, heads, chains, texts) && Owners(owner, chains, free) && Chain(next, first, free)
    requires i < |heads| && first != 0 && (heads[i].cl == 0 || heads[i].cl % 8 == 0)
    ensures free != [] && 0 < free[0] <= NCLIST && first == 8 * free[0] && |next| == NCLIST + 1 && |info| == CORE
    ensures heads[i].cl != 0 ==> 8 <= heads[i].cl && (heads[i].cl - 8) / 8 <= NCLIST && (heads[i].cl - 8) / 8 != free[0]
    ensures |owner| == NCLIST + 1
    ensures var b := free[0];
            && QueuesOk(PutLinks(next, heads[i], b), info[8 * b + 2 := c], heads[i := PutHead(heads[i], b)],
                        chains[i := chains[i] + [b]], texts[i := texts[i] + [c]])
            && Chain(PutLinks(next, heads[i], b), next[b], free[1..])
            && Owners(owner[b := i], chains[i := chains[i] + [b]], free[1..])
  {
    hide QueueOk, SameBlock;
    assert QueueAt(next, info, heads, chains, texts, i);
    var h, ch, w := heads[i], chains[i], texts[i];
    ChainBlocks(next, info, h.cc, h.cf, h.cl, ch, w);
    ChainDistinct(next, first, free);
    var b := free[0];
    assert b in free && b !in ch;
    if h.cl == 0 {
      PutFirst(next, info, h, ch, w, b, c);
      assert ch + [b] == [b] && w + [c] == [c];
    } else {
      PutBlock(next, info, h, ch, w, b, c);
      assert ch[|ch| - 1] in ch;
    }
    var next', info' := PutLinks(next, h, b), info[8 * b + 2 := c];
    OneBlock(info, info', b, c);
    OtherQueues(next, info, next', info', heads, chains, texts, owner, free, i, PutHead(h, b), ch + [b], w + [c]);
    assert b !in free[1..];
    assert forall x :: x in free[1..] ==> x in free;
    ChainFrame(next, next', next[b], free[1..]);
    Allotted(owner, chains, free, i, b);
  }

  lemma OneBlock(info: seq<int>, info': seq<int>, b: nat, c: int)
    requires |info| == CORE && 0 < b <= NCLIST && info' == info[8 * b + 2 := c]
    ensures forall x :: x != b ==> SameBlock(info, info', x)
  {
  }

  ghost predicate Characters(texts: seq<seq<int>>) {
    forall i, j :: 0 <= i < |texts| && 0 <= j < |texts[i]| ==> 0 <= texts[i][j] < 256
  }

  // The blocks cfree and the queues of the terminals.
  class CharQueues {
    const next: array<nat>
    const info: array<int>
    const heads: array<Head>
    var cfreelist: nat

    ghost var free: seq<nat>
    ghost var chains: seq<seq<nat>>
    ghost var owner: seq<int>
    // The characters in each queue.
    ghost var texts: seq<seq<int>>

    ghost predicate Valid()
      reads this, next, info, heads
    {
      && next.Length == NCLIST + 1 && info.Length == CORE
      && QueuesOk(next[..], info[..], heads[..], chains, texts)
      && Chain(next[..], cfreelist, free) && Owners(owner, chains, free)
      && Characters(texts)
    }

    // How many characters queue i can still take: in its last block and in the free ones.
    ghost function Capacity(i: nat): nat
      requires i < heads.Length
      reads this`free, heads
    {
      (if heads[i].cl % 8 == 0 then 0 else 8 - heads[i].cl % 8) + 6 * |free|
    }

    // c_cc is the number of characters.
    lemma Counted(i: nat)
      requires Valid() && i < heads.Length
      ensures |texts| == heads.Length && heads[i].cc == |texts[i]|
    {
      assert QueueAt(next[..], info[..], heads[..], chains, texts, i);
    }

    // Changes to blocks that the free list does not have leave it.
    lemma FreeKept(next': seq<nat>, first: nat, l: seq<nat>)
      requires Chain(next[..], first, l) && |next'| == NCLIST + 1
      requires forall b :: b in l && 0 <= b <= NCLIST ==> next'[b] == next[b]
      ensures Chain(next', first, l)
    {
      ChainFrame(next[..], next', first, l);
    }

    // cinit; start is the address of the table.
    constructor (queues: nat, start: nat)
      requires 0 < start <= 8
      ensures Valid() && fresh(next) && fresh(info) && fresh(heads) && heads.Length == queues
      ensures texts == seq(queues, _ => []) && |free| == if start % 8 == 0 then NCLIST else NCLIST - 1
    {
      next, info := new nat[NCLIST + 1](_ => 0), new int[CORE](_ => 0);
      heads := new Head[queues](_ => Head(0, 0, 0));
      cfreelist := 0;
      free, owner := [], seq(NCLIST + 1, _ => UNUSED);
      chains, texts := seq(queues, _ => []), seq(queues, _ => []);
      new;
      Cinit(start);
    }

    method Cinit(start: nat)
      requires next.Length == NCLIST + 1 && info.Length == CORE && cfreelist == 0 && free == [] && 0 < start <= 8
      requires chains == seq(heads.Length, _ => []) && texts == seq(heads.Length, _ => [])
      requires owner == seq(NCLIST + 1, _ => UNUSED)
      requires forall i :: 0 <= i < heads.Length ==> heads[i] == Head(0, 0, 0)
      modifies next, this`cfreelist, this`free, this`owner
      ensures Valid() && |free| == if start % 8 == 0 then NCLIST else NCLIST - 1
    {
      hide QueueOk;
      var cp := (start + 7) / 8 * 8;
      while cp <= start + 8 * (NCLIST - 1)
        invariant 8 <= cp <= 8 * NCLIST + 8 && cp % 8 == 0 && cp <= start + 8 * NCLIST
        invariant Chain(next[..], cfreelist, free) && |free| == cp / 8 - 1
        invariant forall x :: x in free <==> 0 < x < cp / 8
        invariant owner == seq(NCLIST + 1, x requires 0 <= x <= NCLIST => if 0 < x < cp / 8 then FREE else UNUSED)
      {
        var b := cp / 8;
        ghost var was := next[..];
        FreeKept(was[b := cfreelist], cfreelist, free);
        next[b] := cfreelist;
        assert next[..] == was[b := cfreelist];
        cfreelist := cp;
        assert ([b] + free)[1..] == free;
        free, owner := [b] + free, owner[b := FREE];
        cp := cp + 8;
      }
      forall i | 0 <= i < heads.Length ensures QueueAt(next[..], info[..], heads[..], chains, texts, i) {
        EmptyQueue(next[..], info[..]);
      }
    }

    // Takes the first character of queue i, or -1.
    method Getc(i: nat) returns (c: int)
      requires Valid() && i < heads.Length
      modifies this`cfreelist, this`free, this`chains, this`owner, this`texts, next, heads
      ensures Valid() && |texts| == heads.Length && (c == -1 || 0 <= c < 256)
      ensures old(texts[i]) == [] ==> c == -1 && texts == old(texts) && free == old(free)
      ensures old(texts[i]) != [] ==> c == old(texts[i])[0] && texts == old(texts)[i := old(texts[i])[1..]]
    {
      hide QueueOk, Chain, Owners;
      assert QueueAt(next[..], info[..], heads[..], chains, texts, i);
      var h := heads[i];
      ChainBlocks(next[..], info[..], h.cc, h.cf, h.cl, chains[i], texts[i]);
      if h.cf == 0 {
        c := -1;
        heads[i] := Head(h.cc, 0, 0);
        assert heads[..] == old(heads[..]);
        return;
      }
      GetQueue(next[..], info[..], h, chains[i], texts[i]);
      c := info[h.cf];
      var (h', b) := GetHead(next[..], h);
      heads[i] := h';
      ghost var ch, w := if b == 0 then chains[i] else chains[i][1..], texts[i][1..];
      ghost var was := next[..];
      if b != 0 {
        Release(was, info[..], old(heads[..]), chains, texts, owner, free, cfreelist, i, h', b);
        next[b] := cfreelist;
        assert next[..] == was[b := cfreelist];
        cfreelist := 8 * b;
        free, owner := [b] + free, owner[b := FREE];
      } else {
        OtherQueues(was, info[..], was, info[..], old(heads[..]), chains, texts, owner, free, i, h', ch, w);
        assert chains[i := ch] == chains;
      }
      assert heads[..] == old(heads[..])[i := h'];
      chains, texts := chains[i := ch], texts[i := w];
    }

    // Puts a character at the end of queue i; fails when a block is needed and none is free.
    method Putc(c: int, i: nat) returns (r: int)
      requires Valid() && i < heads.Length && 0 <= c < 256
      modifies this`cfreelist, this`free, this`chains, this`owner, this`texts, next, info, heads
      ensures Valid() && |texts| == heads.Length
      ensures r == 0 || r == -1
      ensures r == 0 <==> old(Capacity(i)) > 0
      ensures Capacity(i) == if r == 0 then old(Capacity(i)) - 1 else 0
      ensures r == 0 ==> texts == old(texts)[i := old(texts[i]) + [c]]
      ensures r == -1 ==> texts == old(texts) && free == old(free) && heads[..] == old(heads[..])
    {
      hide Valid;
      Shapes(i);
      var h := heads[i];
      if h.cl != 0 && h.cl % 8 != 0 {
        PutLast(c, i);
        return 0;
      }
      if cfreelist == 0 {
        return -1;
      }
      PutNew(c, i);
      return 0;
    }

    lemma Shapes(i: nat)
      requires Valid() && i < heads.Length
      ensures |texts| == heads.Length && (cfreelist == 0 <==> free == [])
    {
    }

    // The last block has room.
    method PutLast(c: int, i: nat)
      requires Valid() && i < heads.Length && 0 <= c < 256 && heads[i].cl % 8 != 0
      modifies this`texts, info, heads
      ensures Valid() && |texts| == heads.Length && Capacity(i) == old(Capacity(i)) - 1
      ensures texts == old(texts)[i := old(texts[i]) + [c]]
    {
      hide QueueOk, Owners, SameBlock;
      assert QueueAt(next[..], info[..], heads[..], chains, texts, i);
      ghost var n, s, hs := next[..], info[..], heads[..];
      var h := heads[i];
      ChainBlocks(n, s, h.cc, h.cf, h.cl, chains[i], texts[i]);
      PutInPlace(n, s, hs, chains, texts, owner, free, i, c);
      info[h.cl] := c;
      heads[i] := Head(h.cc + 1, h.cf, h.cl + 1);
      assert info[..] == s[h.cl := c] && heads[..] == hs[i := Head(h.cc + 1, h.cf, h.cl + 1)];
      texts := texts[i := texts[i] + [c]];
    }

    // The first free block is taken off and linked behind the last block of queue i.
    method TakeBlock(c: int, i: nat)
      requires i < heads.Length && next.Length == NCLIST + 1 && info.Length == CORE
      requires cfreelist % 8 == 0 && 8 <= cfreelist <= 8 * NCLIST
      requires heads[i].cl != 0 ==> 8 <= heads[i].cl <= 8 * NCLIST + 8
      modifies this`cfreelist, next, info, heads
      ensures cfreelist == old(next[cfreelist / 8])
      ensures var b, h := old(cfreelist) / 8, old(heads[i]);
              && next[..] == PutLinks(old(next[..]), h, b) && info[..] == old(info[..])[8 * b + 2 := c]
              && heads[..] == old(heads[..])[i := PutHead(h, b)]
    {
      var h := heads[i];
      var p := cfreelist;
      cfreelist := next[p / 8];
      if h.cl != 0 {
        next[(h.cl - 8) / 8] := p;
      }
      next[p / 8] := 0;
      info[p + 2] := c;
      heads[i] := Head(h.cc + 1, if h.cl == 0 then p + 2 else h.cf, p + 3);
    }

    // A free block becomes the last one.
    method PutNew(c: int, i: nat)
      requires Valid() && i < heads.Length && 0 <= c < 256 && heads[i].cl % 8 == 0 && free != []
      modifies this`cfreelist, this`free, this`chains, this`owner, this`texts, next, info, heads
      ensures Valid() && |texts| == heads.Length && Capacity(i) == old(Capacity(i)) - 1
      ensures texts == old(texts)[i := old(texts[i]) + [c]]
    {
      hide QueueOk, Owners, SameBlock;
      assert QueueAt(next[..], info[..], heads[..], chains, texts, i);
      ghost var n, s, hs := next[..], info[..], heads[..];
      var h := heads[i];
      ChainBlocks(n, s, h.cc, h.cf, h.cl, chains[i], texts[i]);
      ghost var b := free[0];
      assert b == cfreelist / 8;
      Acquire(n, s, hs, chains, texts, owner, free, cfreelist, i, c);
      TakeBlock(c, i);
      chains, texts := chains[i := chains[i] + [b]], texts[i := texts[i] + [c]];
      free, owner := free[1..], owner[b := i];
    }
  }

  lemma EmptyQueue(next: seq<nat>, info: seq<int>)
    requires |next| == NCLIST + 1 && |info| == CORE
    ensures QueueOk(next, info, 0, 0, 0, [], [])
  {
  }
}