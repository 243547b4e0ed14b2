// The texts of a pattern (usr/ed.c:1059-1163): compile gives a pattern exactly for the texts
// that spell it.
module Spelling {
  import opened Wrappers
  import opened Patterns
  import opened PatternCode
  import opened Compile

  // The characters from i up to j.
  function Read(input: seq<int>, i: nat, j: nat): (r: seq<int>)
    requires i <= j
    ensures |r| == j - i
  {
    seq(j - i, k requires 0 <= k < j - i => Char(input, i + k))
  }

  // An ordinary character stands for itself; so does a dollar sign that is not the last.
  predicate Plain(c: int, next: int, eof: int) {
    c !in {BACKSLASH, DOTCHAR, NEWLINE, STARCHAR, LEFT} && (c == DOLLAR ==> next != eof)
  }

  // w spells x; next is the character behind it.
  predicate SpellsSingle(w: seq<int>, x: Single, next: int, eof: int) {
    match x
    case Chr(c) =>
      (w == [c] && Plain(c, next, eof)) || (w == [BACKSLASH, c] && c !in {OPEN, CLOSE, NEWLINE})
    case Dot => w == [DOTCHAR]
    case Class(negated, members) =>
      && members != [] && NEWLINE !in members && RIGHT !in members[1..]
      && (!negated ==> members[0] != CARET)
      && w == [LEFT] + (if negated then [CARET] else []) + members + [RIGHT]
  }

  // Only where an item or a star begins does eof end the text.
  ghost predicate Spells(w: seq<int>, x: Item, next: int, eof: int) {
    && w != [] && w[0] != eof
    && match x
       case One(y) => SpellsSingle(w, y, next, eof)
       case Many(y) =>
         exists k :: 0 < k < |w| && SpellsSingle(w[..k], y, w[k], eof) && eof != STARCHAR && Stars(w[k..])
       case Dol => w == [DOLLAR] && next == eof
       case Bra(_) => w == [BACKSLASH, OPEN]
       case Ket(_) => w == [BACKSLASH, CLOSE]
  }

  predicate Stars(w: seq<int>) {
    forall k :: 0 <= k < |w| ==> w[k] == STARCHAR
  }

  // The number of brackets opened, and those of them that are still open.
  function Opened(items: seq<Item>): nat {
    if items == [] then 0
    else
      var n := |items| - 1;
      Opened(items[..n]) + if items[n].Bra? then 1 else 0
  }

  function StillOpen(items: seq<Item>): seq<nat> {
    if items == [] then []
    else
      var n := |items| - 1;
      OpenAfter(StillOpen(items[..n]), items[n])
  }

  function OpenAfter(open: seq<nat>, x: Item): seq<nat> {
    match x
    case Bra(n) => open + [n]
    case Ket(_) => if open == [] then [] else open[..|open| - 1]
    case _ => open
  }

  // A bracket has the next number, or that of the last one open.
  predicate Numbered(before: seq<Item>, x: Item) {
    && (x.Bra? ==> x.n == Opened(before) < NBRA)
    && (x.Ket? ==> StillOpen(before) != [] && x.n == StillOpen(before)[|StillOpen(before)| - 1])
  }

  // The characters from i up to j spell items.
  ghost predicate Written(input: seq<int>, i: nat, items: seq<Item>, j: nat, eof: int)
    decreases |items|
  {
    if items == [] then i == j
    else
      var n := |items| - 1;
      exists k: nat :: k < j && Written(input, i, items[..n], k, eof) && Numbered(items[..n], items[n])
                       && Spells(Read(input, k, j), items[n], Char(input, j), eof)
  }

  lemma WrittenMore(input: seq<int>, i: nat, before: seq<Item>, k: nat, x: Item, j: nat, eof: int)
    requires Written(input, i, before, k, eof) && k < j && Numbered(before, x)
    requires Spells(Read(input, k, j), x, Char(input, j), eof)
    ensures Written(input, i, before + [x], j, eof)
  {
    hide Spells, Read, Numbered, Opened, StillOpen;
    assert (before + [x])[..|before|] == before;
  }

  lemma CountsMore(before: seq<Item>, x: Item)
    ensures Opened(before + [x]) == Opened(before) + if x.Bra? then 1 else 0
    ensures StillOpen(before + [x]) == OpenAfter(StillOpen(before), x)
  {
    assert (before + [x])[..|before|] == before;
  }

  // ---- What is compiled is spelled ----

  // The members of a set are what stands between.
  lemma {:induction false} SetSpelled(input: seq<int>, i: nat, ep: nat, done: seq<int>)
    requires ScanSet(input, i, ep, done).Some?
    ensures var (m, next) := ScanSet(input, i, ep, done).value;
            && next > i + 1 && m == done + Read(input, i, next - 1) && Char(input, next - 1) == RIGHT
            && NEWLINE !in Read(input, i, next - 1) && RIGHT !in Read(input, i, next - 1)[1..]
            && ep + next - 1 - i < ESIZE
    decreases ESIZE - ep
  {
    var (m, next) := ScanSet(input, i, ep, done).value;
    var more := done + [Char(input, i)];
    if Char(input, i + 1) == RIGHT {
      assert Read(input, i, i + 1) == [Char(input, i)];
    } else {
      SetSpelled(input, i + 1, ep + 1, more);
      var rest := Read(input, i + 1, next - 1);
      assert Read(input, i, next - 1) == [Char(input, i)] + rest;
      assert rest[0] == Char(input, i + 1) != RIGHT;
      assert rest == [rest[0]] + rest[1..];
    }
  }

  lemma ClassSpelled(input: seq<int>, i: nat, ep: nat, negated: bool)
    requires Char(input, i) == LEFT && negated == (Char(input, i + 1) == CARET)
    requires ScanSet(input, if negated then i + 2 else i + 1, ep, []).Some?
    ensures var (m, next) := ScanSet(input, if negated then i + 2 else i + 1, ep, []).value;
            && i < next && ep + |m| < ESIZE
            && forall c, eof :: SpellsSingle(Read(input, i, next), Class(negated, m), c, eof)
  {
    hide ScanSet, Char, Read;
    var first := if negated then i + 2 else i + 1;
    SetSpelled(input, first, ep, []);
    var (m, next) := ScanSet(input, first, ep, []).value;
    ReadFirst(input, first, next - 1);
    assert m == Read(input, first, next - 1);
    ClassParts(input, i, next, negated);
  }

  lemma ClassParts(input: seq<int>, i: nat, next: nat, negated: bool)
    requires Char(input, i) == LEFT && (negated ==> Char(input, i + 1) == CARET)
    requires (if negated then i + 2 else i + 1) < next && Char(input, next - 1) == RIGHT
    ensures Read(input, i, next) == [LEFT] + (if negated then [CARET] else [])
                                    + Read(input, if negated then i + 2 else i + 1, next - 1) + [RIGHT]
  {
    hide Char, Read;
    var first := if negated then i + 2 else i + 1;
    ReadSplit(input, i, first, next);
    ReadSplit(input, first, next - 1, next);
    ReadOne(input, next - 1);
    ReadOne(input, i);
  }

  lemma ReadSplit(input: seq<int>, i: nat, k: nat, j: nat)
    requires i <= k <= j
    ensures Read(input, i, j) == Read(input, i, k) + Read(input, k, j)
  {
  }

  lemma ReadOne(input: seq<int>, i: nat)
    ensures Read(input, i, i + 1) == [Char(input, i)]
    ensures Read(input, i, i + 2) == [Char(input, i), Char(input, i + 1)]
  {
  }

  // What has been read, and the brackets counted.
  ghost predicate Sofar(input: seq<int>, i: nat, items: seq<Item>, nbra: nat, stack: seq<nat>, j: nat, eof: int) {
    Written(input, i, items, j, eof) && nbra == Opened(items) && stack == StillOpen(items)
  }

  lemma StepSpelled(input: seq<int>, start: nat, i: nat, eof: int, items: seq<Item>, nbra: nat, stack: seq<nat>)
    requires Sofar(input, start, items, nbra, stack, i, eof) && OneStep(input, i, eof, items, nbra, stack).More?
    ensures var n := OneStep(input, i, eof, items, nbra, stack);
            Sofar(input, start, n.items, n.nbra, n.stack, n.next, eof)
  {
    hide Written, Size, Opened, StillOpen, ScanSet, Spells, Starred;
    StepShape(input, i, eof, items, nbra, stack);
    var n := OneStep(input, i, eof, items, nbra, stack);
    if Char(input, i) == STARCHAR && eof != STARCHAR {
      StarSpelled(input, start, i, eof, items, nbra, stack);
    } else {
      ItemSpelled(input, i, eof, items, nbra, stack);
      WrittenMore(input, start, items, i, n.items[|items|], n.next, eof);
      CountsMore(items, n.items[|items|]);
    }
  }

  // A pass that reads no star reads the text of the item it adds.
  lemma ItemSpelled(input: seq<int>, i: nat, eof: int, items: seq<Item>, nbra: nat, stack: seq<nat>)
    requires OneStep(input, i, eof, items, nbra, stack).More? && Char(input, i) != STARCHAR
    requires nbra == Opened(items) && stack == StillOpen(items)
    ensures var n := OneStep(input, i, eof, items, nbra, stack);
            && |n.items| == |items| + 1 && n.items == items + [n.items[|items|]] && i < n.next
            && Numbered(items, n.items[|items|]) && !n.items[|items|].Many?
            && Spells(Read(input, i, n.next), n.items[|items|], Char(input, n.next), eof)
            && n.nbra == nbra + (if n.items[|items|].Bra? then 1 else 0)
            && n.stack == OpenAfter(stack, n.items[|items|])
  {
    hide Size, Opened, StillOpen, ScanSet, Read, Starred, Char;
    ReadOne(input, i);
    if Char(input, i) == LEFT && LEFT != eof && Size(items) < ESIZE {
      var negated := Char(input, i + 1) == CARET;
      ClassSpelled(input, i, Size(items) + 2, negated);
      ReadFirst(input, i, OneStep(input, i, eof, items, nbra, stack).next);
    }
  }

  lemma ReadFirst(input: seq<int>, i: nat, j: nat)
    requires i < j
    ensures Read(input, i, j)[0] == Char(input, i)
  {
  }

  // A star after an item makes one text with it.
  lemma StarSpelled(input: seq<int>, start: nat, i: nat, eof: int, items: seq<Item>, nbra: nat, stack: seq<nat>)
    requires Sofar(input, start, items, nbra, stack, i, eof) && Char(input, i) == STARCHAR != eof
    requires items != [] && Starred(items[|items| - 1]).Some?
    ensures Sofar(input, start, items[..|items| - 1] + [Starred(items[|items| - 1]).value], nbra, stack, i + 1, eof)
  {
    hide Opened, StillOpen, Numbered, Spells, Char, Read;
    var n := |items| - 1;
    var before, x := items[..n], items[n];
    assert items == before + [x];
    var k: nat :| k < i && Written(input, start, before, k, eof) && Numbered(before, x)
                  && Spells(Read(input, k, i), x, Char(input, i), eof);
    hide Written;
    SpelledStar(input, k, i, x, eof);
    CountsMore(before, x);
    CountsMore(before, Starred(x).value);
    assert Numbered(before, Starred(x).value) by {
      hide *;
      NumberedSingle(before, x);
    }
    WrittenMore(input, start, before, k, Starred(x).value, i + 1, eof);
  }

  lemma NumberedSingle(before: seq<Item>, x: Item)
    requires Starred(x).Some?
    ensures Numbered(before, Starred(x).value)
  {
  }

  lemma SpelledStar(input: seq<int>, k: nat, i: nat, x: Item, eof: int)
    requires k < i && Char(input, i) == STARCHAR != eof && Starred(x).Some?
    requires Spells(Read(input, k, i), x, Char(input, i), eof)
    ensures Spells(Read(input, k, i + 1), Starred(x).value, Char(input, i + 1), eof)
  {
    hide Char, SpellsSingle;
    ReadSplit(input, k, i, i + 1);
    ReadOne(input, i);
    hide Read;
    var w, v := Read(input, k, i), Read(input, k, i + 1);
    assert v == w + [STARCHAR];
    if x.One? {
      assert v[..|w|] == w && v[|w|..] == [STARCHAR];
    } else {
      var m :| 0 < m < |w| && SpellsSingle(w[..m], x.single, w[m], eof) && Stars(w[m..]);
      assert v[..m] == w[..m] && v[m..] == w[m..] + [STARCHAR] && v[m] == w[m];
    }
  }

  // A scan that ends well has read what it compiled; one that ends at a star has read up to a
  // bracket before it.
  lemma {:induction false} ScanSpelled(input: seq<int>, start: nat, i: nat, eof: int, items: seq<Item>,
                                       nbra: nat, stack: seq<nat>, circ: bool)
    requires Sofar(input, start, items, nbra, stack, i, eof) && (items == [] ==> Char(input, i) != STARCHAR)
    ensures var r := Scan(input, i, eof, items, nbra, stack, circ);
            match r
            case Compiled(all, c, next) =>
              && c == circ && 0 < next && Written(input, start, all, next - 1, eof) && Char(input, next - 1) == eof
              && Size(all) < ESIZE
            case Failed(cleared, stored) => !cleared ==> StarredBracketAt(input, start, stored, eof)
            case Reused => false
    decreases ESIZE - Size(items), |input| - i
  {
    var n := OneStep(input, i, eof, items, nbra, stack);
    hide OneStep, Written, Opened, StillOpen, Size;
    match n {
      case More(_, _, _, _) =>
        StepSpelled(input, start, i, eof, items, nbra, stack);
        Progress(input, i, eof, items, nbra, stack);
        StepShape(input, i, eof, items, nbra, stack);
        ScanSpelled(input, start, n.next, eof, n.items, n.nbra, n.stack, circ);
      case Done => DoneAt(input, i, eof, items, nbra, stack);
      case Bad(cleared) =>
        if !cleared {
          BadAt(input, start, i, eof, items, nbra, stack);
        }
    }
  }

  // A star follows a bracket.
  ghost predicate StarredBracketAt(input: seq<int>, i: nat, items: seq<Item>, eof: int) {
    && items != [] && (items[|items| - 1].Bra? || items[|items| - 1].Ket?) && Size(items) < ESIZE
    && exists j: nat :: Written(input, i, items, j, eof) && Char(input, j) == STARCHAR != eof
  }

  lemma DoneAt(input: seq<int>, i: nat, eof: int, items: seq<Item>, nbra: nat, stack: seq<nat>)
    requires OneStep(input, i, eof, items, nbra, stack).Done?
    ensures Char(input, i) == eof && Size(items) < ESIZE
  {
    hide Size;
  }

  lemma BadAt(input: seq<int>, start: nat, i: nat, eof: int, items: seq<Item>, nbra: nat, stack: seq<nat>)
    requires Sofar(input, start, items, nbra, stack, i, eof) && (items == [] ==> Char(input, i) != STARCHAR)
    requires OneStep(input, i, eof, items, nbra, stack) == Bad(false)
    ensures StarredBracketAt(input, start, items, eof)
  {
    hide Size, Numbered, Read, Opened, StillOpen;
    var n := |items| - 1;
    var k: nat :| k < i && Written(input, start, items[..n], k, eof) && Numbered(items[..n], items[n])
                  && Spells(Read(input, k, i), items[n], Char(input, i), eof);
  }

  // ---- What is spelled is compiled ----

  lemma {:induction false} SetRead(input: seq<int>, i: nat, ep: nat, done: seq<int>, m: seq<int>)
    requires m != [] && NEWLINE !in m && RIGHT !in m[1..] && ep + |m| < ESIZE
    requires Read(input, i, i + |m|) == m && Char(input, i + |m|) == RIGHT
    ensures ScanSet(input, i, ep, done) == Some((done + m, i + |m| + 1))
    decreases |m|
  {
    hide Read, Char;
    var more := done + [m[0]];
    MembersTail(m);
    ReadFirst(input, i, i + |m|);
    if |m| == 1 {
      assert more == done + m;
    } else {
      ReadTail(input, i, i + |m|);
      ReadAt(input, i, i + |m|, i + 1);
      SetRead(input, i + 1, ep + 1, more, m[1..]);
      assert more + m[1..] == done + m;
    }
  }

  lemma MembersTail(m: seq<int>)
    requires m != [] && NEWLINE !in m && RIGHT !in m[1..]
    ensures m[0] != NEWLINE
    ensures |m| > 1 ==> m[1] != RIGHT && NEWLINE !in m[1..] && RIGHT !in m[1..][1..]
  {
    if |m| > 1 {
      assert m[1..][0] == m[1];
      assert forall c :: c in m[1..][1..] ==> c in m[1..];
    }
  }

  lemma ReadTail(input: seq<int>, i: nat, j: nat)
    requires i < j
    ensures Read(input, i + 1, j) == Read(input, i, j)[1..]
  {
  }

  lemma ReadAt(input: seq<int>, i: nat, j: nat, k: nat)
    requires i <= k < j
    ensures Read(input, i, j)[k - i] == Char(input, k)
  {
  }

  lemma ClassRead(input: seq<int>, i: nat, j: nat, size: nat, negated: bool, m: seq<int>, next: int, eof: int)
    requires i < j && SpellsSingle(Read(input, i, j), Class(negated, m), next, eof) && size + 2 + |m| < ESIZE
    ensures Char(input, i) == LEFT && (Char(input, i + 1) == CARET <==> negated)
    ensures ScanSet(input, if negated then i + 2 else i + 1, size + 2, []) == Some((m, j))
  {
    hide ScanSet, Char;
    var first := if negated then i + 2 else i + 1;
    var w := Read(input, i, j);
    assert j == first + |m| + 1;
    ReadAt(input, i, j, i);
    ReadAt(input, i, j, i + 1);
    ReadAt(input, i, j, j - 1);
    ReadSplit(input, i, first, j);
    ReadSplit(input, first, j - 1, j);
    assert Read(input, first, j - 1) == w[first - i..j - 1 - i] == m;
    SetRead(input, first, size + 2, [], m);
    assert [] + m == m;
  }

  lemma SingleRead(input: seq<int>, i: nat, j: nat, eof: int, items: seq<Item>, nbra: nat, stack: seq<nat>, x: Single)
    requires i < j && SpellsSingle(Read(input, i, j), x, Char(input, j), eof) && Char(input, i) != eof
    requires Size(items) + |EncodeSingle(x)| < ESIZE
    ensures OneStep(input, i, eof, items, nbra, stack) == More(items + [One(x)], nbra, stack, j)
  {
    hide Size, Starred, ScanSet, Char;
    ReadAt(input, i, j, i);
    if j > i + 1 {
      ReadAt(input, i, j, i + 1);
    }
    match x {
      case Chr(c) =>
        assert j == i + |Read(input, i, j)|;
      case Dot =>
        assert j == i + |Read(input, i, j)|;
      case Class(negated, m) => ClassRead(input, i, j, Size(items), negated, m, Char(input, j), eof);
    }
  }

  lemma BracketRead(input: seq<int>, i: nat, j: nat, eof: int, items: seq<Item>, x: Item)
    requires i < j && Spells(Read(input, i, j), x, Char(input, j), eof) && Numbered(items, x) && Size(items) < ESIZE
    requires x.Bra? || x.Ket? || x.Dol?
    ensures OneStep(input, i, eof, items, Opened(items), StillOpen(items)) ==
              More(items + [x], Opened(items) + (if x.Bra? then 1 else 0), OpenAfter(StillOpen(items), x), j)
  {
    hide Size, Starred, ScanSet, Char, Opened, StillOpen;
    ReadAt(input, i, j, i);
    if j > i + 1 {
      ReadAt(input, i, j, i + 1);
    }
  }

  lemma ScanMore(input: seq<int>, i: nat, eof: int, items: seq<Item>, nbra: nat, stack: seq<nat>, circ: bool, n: Step)
    requires OneStep(input, i, eof, items, nbra, stack) == n && n.More?
    ensures Scan(input, i, eof, items, nbra, stack, circ) ==
              Scan(input, n.next, eof, n.items, n.nbra, n.stack, circ)
  {
    Progress(input, i, eof, items, nbra, stack);
  }

  // Stars after a starred item change nothing.
  lemma {:induction false} StarsRead(input: seq<int>, i: nat, j: nat, eof: int, before: seq<Item>, x: Item,
                                     nbra: nat, stack: seq<nat>, circ: bool)
    requires i <= j && Stars(Read(input, i, j)) && eof != STARCHAR && Size(before + [x]) < ESIZE
    requires Starred(x).Some? && (i == j ==> x.Many?)
    ensures Scan(input, i, eof, before + [x], nbra, stack, circ) ==
              Scan(input, j, eof, before + [Starred(x).value], nbra, stack, circ)
    decreases j - i
  {
    if i < j {
      ReadAt(input, i, j, i);
      var y := Starred(x).value;
      StarStep(input, i, eof, before, x, nbra, stack);
      ScanMore(input, i, eof, before + [x], nbra, stack, circ, More(before + [y], nbra, stack, i + 1));
      SameSize(before, x);
      ReadSplit(input, i, i + 1, j);
      StarsTail(Read(input, i, j), Read(input, i, i + 1), Read(input, i + 1, j));
      StarsRead(input, i + 1, j, eof, before, y, nbra, stack, circ);
    }
  }

  lemma StarsTail(w: seq<int>, a: seq<int>, b: seq<int>)
    requires w == a + b && Stars(w)
    ensures Stars(b)
  {
    forall k | 0 <= k < |b| ensures b[k] == STARCHAR {
      assert w[|a| + k] == b[k];
    }
  }

  lemma SameSize(before: seq<Item>, x: Item)
    requires Starred(x).Some?
    ensures Size(before + [Starred(x).value]) == Size(before + [x])
  {
    SizeAppend(before, x);
    SizeAppend(before, Starred(x).value);
  }

  lemma StarStep(input: seq<int>, i: nat, eof: int, before: seq<Item>, x: Item, nbra: nat, stack: seq<nat>)
    requires Char(input, i) == STARCHAR != eof && Size(before + [x]) < ESIZE && Starred(x).Some?
    ensures OneStep(input, i, eof, before + [x], nbra, stack) ==
              More(before + [Starred(x).value], nbra, stack, i + 1)
  {
    hide Size, Starred, ScanSet;
    assert (before + [x])[..|before|] == before;
  }

  // The passes that read one item.
  lemma ItemRead(input: seq<int>, i: nat, j: nat, eof: int, before: seq<Item>, x: Item, circ: bool)
    requires i < j && Spells(Read(input, i, j), x, Char(input, j), eof) && Numbered(before, x)
    requires Size(before + [x]) < ESIZE
    ensures Scan(input, i, eof, before, Opened(before), StillOpen(before), circ) ==
              Scan(input, j, eof, before + [x], Opened(before + [x]), StillOpen(before + [x]), circ)
  {
    hide OneStep, Scan, Size, Opened, StillOpen, Numbered, SpellsSingle, Char, Read, EncodeAll, EncodeSingle;
    SizeAppend(before, x);
    CountsMore(before, x);
    var nbra, stack := Opened(before), StillOpen(before);
    ReadFirst(input, i, j);
    match x {
      case One(y) =>
        SingleRead(input, i, j, eof, before, nbra, stack, y);
        ScanMore(input, i, eof, before, nbra, stack, circ, More(before + [x], nbra, stack, j));
      case Many(y) =>
        ManyRead(input, i, j, eof, before, y, nbra, stack, circ);
      case _ =>
        BracketRead(input, i, j, eof, before, x);
        ScanMore(input, i, eof, before, nbra, stack, circ, OneStep(input, i, eof, before, nbra, stack));
    }
  }

  lemma ManyRead(input: seq<int>, i: nat, j: nat, eof: int, before: seq<Item>, y: Single, nbra: nat, stack: seq<nat>,
                 circ: bool)
    requires i < j && Spells(Read(input, i, j), Many(y), Char(input, j), eof) && Size(before + [Many(y)]) < ESIZE
    ensures Scan(input, i, eof, before, nbra, stack, circ) ==
              Scan(input, j, eof, before + [Many(y)], nbra, stack, circ)
  {
    hide OneStep, Scan, SpellsSingle, Char, Read, EncodeAll, EncodeSingle, Spells, Stars;
    var k := ManyParts(input, i, j, y, eof);
    SameSize(before, One(y));
    SizeAppend(before, One(y));
    hide Size;
    SingleRead(input, i, k, eof, before, nbra, stack, y);
    ScanMore(input, i, eof, before, nbra, stack, circ, More(before + [One(y)], nbra, stack, k));
    StarsRead(input, k, j, eof, before, One(y), nbra, stack, circ);
  }

  lemma ManyParts(input: seq<int>, i: nat, j: nat, y: Single, eof: int) returns (k: nat)
    requires i < j && Spells(Read(input, i, j), Many(y), Char(input, j), eof)
    ensures i < k < j && SpellsSingle(Read(input, i, k), y, Char(input, k), eof) && Char(input, i) != eof
    ensures eof != STARCHAR && Stars(Read(input, k, j))
  {
    hide SpellsSingle, Char, Read, Stars;
    var w := Read(input, i, j);
    var n :| 0 < n < |w| && SpellsSingle(w[..n], y, w[n], eof) && eof != STARCHAR && Stars(w[n..]);
    k := i + n;
    ReadSplit(input, i, k, j);
    ReadAt(input, i, j, k);
    ReadFirst(input, i, j);
  }

  lemma {:induction false} WrittenScan(input: seq<int>, i: nat, items: seq<Item>, j: nat, eof: int, circ: bool)
    requires Written(input, i, items, j, eof) && Size(items) < ESIZE
    ensures Scan(input, i, eof, [], 0, [], circ) ==
              Scan(input, j, eof, items, Opened(items), StillOpen(items), circ)
    decreases |items|
  {
    hide Scan, Size, Spells, Numbered, Read, Char;
    if items != [] {
      var n := |items| - 1;
      var before, x := items[..n], items[n];
      assert items == before + [x];
      var k: nat :| k < j && Written(input, i, before, k, eof) && Numbered(before, x)
                    && Spells(Read(input, k, j), x, Char(input, j), eof);
      SizeAppend(before, x);
      WrittenScan(input, i, before, k, eof, circ);
      ItemRead(input, k, j, eof, before, x, circ);
    }
  }

  // ---- Which texts are compiled ----

  // A pattern is compiled exactly from the texts that spell it, as long as its code fits; a
  // circumflex in front is no part of it, and a star must not come first.
  lemma CompiledExactly(input: seq<int>, start: nat, eof: int, had: bool, items: seq<Item>, circ: bool, next: nat)
    ensures var first := if circ then start + 1 else start;
            CompileText(input, start, eof, had) == Compiled(items, circ, next) <==>
              && Char(input, start) != eof && circ == (Char(input, start) == CARET)
              && Char(input, first) != STARCHAR && 0 < next && Char(input, next - 1) == eof
              && Written(input, first, items, next - 1, eof) && Size(items) < ESIZE
  {
    hide Scan, Char, Size, Written;
    var circ' := Char(input, start) == CARET;
    var first := if circ' then start + 1 else start;
    WrittenNone(input, first, eof);
    if Char(input, start) != eof && Char(input, first) != STARCHAR {
      ScanSpelled(input, first, first, eof, [], 0, [], circ');
      if 0 < next && Char(input, next - 1) == eof && Written(input, first, items, next - 1, eof)
         && Size(items) < ESIZE {
        WrittenScan(input, first, items, next - 1, eof, circ');
        ScanDone(input, next - 1, eof, items, Opened(items), StillOpen(items), circ');
      }
    }
  }

  lemma WrittenNone(input: seq<int>, i: nat, eof: int)
    ensures Sofar(input, i, [], 0, [], i, eof)
  {
  }

  lemma ScanDone(input: seq<int>, i: nat, eof: int, items: seq<Item>, nbra: nat, stack: seq<nat>, circ: bool)
    requires Char(input, i) == eof && Size(items) < ESIZE
    ensures Scan(input, i, eof, items, nbra, stack, circ) == Compiled(items, circ, i + 1)
  {
    hide Size;
  }

  // The pattern in force is taken again exactly for an empty text. An error leaves the code
  // stored so far exactly where a star follows a bracket; all others clear it.
  lemma FailedExactly(input: seq<int>, start: nat, eof: int, had: bool, stored: seq<Item>)
    ensures CompileText(input, start, eof, had) == Reused <==> Char(input, start) == eof && had
    ensures var first := if Char(input, start) == CARET then start + 1 else start;
            CompileText(input, start, eof, had) == Failed(false, stored) <==>
              if Char(input, start) == eof then !had && stored == []
              else Char(input, first) != STARCHAR && StarredBracketAt(input, first, stored, eof)
  {
    hide Scan, Char, StarredBracketAt;
    var circ := Char(input, start) == CARET;
    var first := if circ then start + 1 else start;
    WrittenNone(input, first, eof);
    if Char(input, start) != eof && Char(input, first) != STARCHAR {
      ScanSpelled(input, first, first, eof, [], 0, [], circ);
      if StarredBracketAt(input, first, stored, eof) {
        StarredScan(input, first, stored, eof, circ);
      }
    }
  }

  lemma StarredScan(input: seq<int>, i: nat, stored: seq<Item>, eof: int, circ: bool)
    requires StarredBracketAt(input, i, stored, eof)
    ensures Scan(input, i, eof, [], 0, [], circ) == Failed(false, stored)
  {
    hide Size, Written, Opened, StillOpen;
    var j: nat :| Written(input, i, stored, j, eof) && Char(input, j) == STARCHAR != eof;
    WrittenScan(input, i, stored, j, eof, circ);
  }

  // ---- Texts that are compiled ----

  // A text of ordinary characters is compiled to those characters.
  lemma PlainIsItself(w: seq<int>, eof: int, more: seq<int>, had: bool)
    requires w != [] && 2 * |w| < ESIZE && w[0] != CARET && w[|w| - 1] != DOLLAR
    requires forall c :: c in w ==> c !in {BACKSLASH, DOTCHAR, NEWLINE, STARCHAR, LEFT, eof}
    ensures CompileText(w + [eof] + more, 0, eof, had) == Compiled(Chars(w), false, |w| + 1)
  {
    hide CompileText, Written;
    var input := w + [eof] + more;
    PlainWritten(input, w, |w|, eof);
    assert w[..|w|] == w && w[0] in w && Char(input, 0) == w[0];
    CharsSize(w);
    CompiledExactly(input, 0, eof, had, Chars(w), false, |w| + 1);
  }

  function Chars(w: seq<int>): (r: seq<Item>)
    ensures |r| == |w|
  {
    seq(|w|, k requires 0 <= k < |w| => One(Chr(w[k])))
  }

  lemma {:induction false} PlainWritten(input: seq<int>, w: seq<int>, n: nat, eof: int)
    requires n <= |w| < |input| && input[..|w|] == w && input[|w|] == eof && w != [] && w[|w| - 1] != DOLLAR
    requires forall c :: c in w ==> c !in {BACKSLASH, DOTCHAR, NEWLINE, STARCHAR, LEFT, eof}
    ensures Written(input, 0, Chars(w[..n]), n, eof)
    decreases n
  {
    if n > 0 {
      PlainWritten(input, w, n - 1, eof);
      assert w[..n][..n - 1] == w[..n - 1];
      assert Chars(w[..n]) == Chars(w[..n - 1]) + [One(Chr(w[n - 1]))];
      ReadOne(input, n - 1);
      assert Char(input, n - 1) == input[..|w|][n - 1] == w[n - 1] && w[n - 1] in w;
      assert n < |w| ==> Char(input, n) == input[..|w|][n] == w[n] && w[n] in w;
      hide Written;
      WrittenMore(input, 0, Chars(w[..n - 1]), n - 1, One(Chr(w[n - 1])), n, eof);
    } else {
      assert Chars(w[..0]) == [];
    }
  }

  lemma {:induction false} CharsSize(w: seq<int>)
    ensures Size(Chars(w)) == 2 * |w|
  {
    if w != [] {
      var n := |w| - 1;
      CharsSize(w[..n]);
      assert Chars(w) == Chars(w[..n]) + [One(Chr(w[n]))];
      SizeAppend(Chars(w[..n]), One(Chr(w[n])));
    }
  }

  // Every pattern has a text.
  function TextOf(x: Single): (r: seq<int>)
    ensures r != []
  {
    match x
    case Chr(c) => if c == OPEN || c == CLOSE then [c] else [BACKSLASH, c]
    case Dot => [DOTCHAR]
    case Class(negated, members) => [LEFT] + (if negated then [CARET] else []) + members + [RIGHT]
  }

  function Text(x: Item): (r: seq<int>)
    ensures r != []
  {
    match x
    case One(y) => TextOf(y)
    case Many(y) => TextOf(y) + [STARCHAR]
    case Dol => [DOLLAR]
    case Bra(_) => [BACKSLASH, OPEN]
    case Ket(_) => [BACKSLASH, CLOSE]
  }

  function TextAll(items: seq<Item>): seq<int> {
    if items == [] then [] else TextAll(items[..|items| - 1]) + Text(items[|items| - 1])
  }

  // A character's item that can be written between two eof characters.
  ghost predicate Writable(x: Single, eof: int) {
    match x
    case Chr(c) => c != NEWLINE && (c == OPEN || c == CLOSE ==> c != eof)
    case Dot => true
    case Class(negated, members) =>
      && members != [] && NEWLINE !in members && RIGHT !in members[1..]
      && (!negated ==> members[0] != CARET)
  }

  // Every item can be written, brackets are numbered in order, and only the last is the end of
  // the line.
  ghost predicate Tidy(items: seq<Item>, eof: int) {
    forall k :: 0 <= k < |items| ==>
      && (items[k].One? || items[k].Many? ==> Writable(items[k].single, eof))
      && (items[k].Dol? ==> k == |items| - 1) && Numbered(items[..k], items[k])
  }

  lemma TextSpells(x: Item, next: int, eof: int)
    requires eof !in {BACKSLASH, DOTCHAR, LEFT, STARCHAR, DOLLAR, CARET}
    requires x.One? || x.Many? ==> Writable(x.single, eof)
    requires x.Dol? ==> next == eof
    ensures Spells(Text(x), x, next, eof)
  {
    if x.Many? {
      var w := TextOf(x.single);
      assert Text(x)[..|w|] == w && Text(x)[|w|] == STARCHAR && Text(x)[|w|..] == [STARCHAR];
      assert SpellsSingle(w, x.single, STARCHAR, eof);
    }
  }

  // Text v stands at i and is what is read there.
  lemma ReadStands(input: seq<int>, i: nat, v: seq<int>)
    requires Stands(input, i, v)
    ensures Read(input, i, i + |v|) == v
  {
    forall k | 0 <= k < |v| ensures Read(input, i, i + |v|)[k] == v[k] {
      ReadAt(input, i, i + |v|, i + k);
      assert input[i..i + |v|][k] == input[i + k];
    }
  }

  lemma {:induction false} TidyWritten(input: seq<int>, i: nat, items: seq<Item>, n: nat, eof: int, rest: seq<int>)
    requires n <= |items| && Tidy(items, eof) && Stands(input, i, TextAll(items[..n]) + rest)
    requires eof !in {BACKSLASH, DOTCHAR, LEFT, STARCHAR, DOLLAR, CARET}
    requires n == |items| ==> rest == [eof]
    ensures Written(input, i, items[..n], i + |TextAll(items[..n])|, eof)
    decreases n
  {
    hide Tidy, Spells, Text, Writable, Stands, Numbered, Read;
    var part := items[..n];
    if n > 0 {
      var before, x := items[..n - 1], items[n - 1];
      assert part[..n - 1] == before && part == before + [x];
      TidyAt(items, n - 1, eof);
      var k := i + |TextAll(before)|;
      assert TextAll(part) + rest == TextAll(before) + (Text(x) + rest);
      TidyWritten(input, i, items, n - 1, eof, Text(x) + rest);
      StandsSplit(input, i, TextAll(before), Text(x) + rest);
      StandsSplit(input, k, Text(x), rest);
      ReadStands(input, k, Text(x));
      if n == |items| {
        StandsChar(input, k + |Text(x)|, eof);
      }
      TextSpells(x, Char(input, k + |Text(x)|), eof);
      WrittenMore(input, i, before, k, x, k + |Text(x)|, eof);
    }
  }

  lemma StandsChar(input: seq<int>, i: nat, c: int)
    requires Stands(input, i, [c])
    ensures Char(input, i) == c
  {
    assert input[i] == input[i..i + 1][0];
  }

  lemma TidyAt(items: seq<Item>, k: nat, eof: int)
    requires Tidy(items, eof) && k < |items|
    ensures items[k].One? || items[k].Many? ==> Writable(items[k].single, eof)
    ensures (items[k].Dol? ==> k == |items| - 1) && Numbered(items[..k], items[k])
  {
  }

  // The text of a pattern is compiled to the pattern.
  lemma CompileInvertsText(items: seq<Item>, circ: bool, eof: int, more: seq<int>, had: bool)
    requires Tidy(items, eof) && Size(items) < ESIZE && (items != [] || circ)
    requires eof !in {BACKSLASH, DOTCHAR, LEFT, STARCHAR, DOLLAR, CARET}
    ensures var w := (if circ then [CARET] else []) + TextAll(items) + [eof];
            CompileText(w + more, 0, eof, had) == Compiled(items, circ, |w|)
  {
    hide CompileText, Written, Size, Tidy, TextAll, Stands;
    var head: seq<int> := if circ then [CARET] else [];
    var w := head + TextAll(items) + [eof];
    var input := w + more;
    assert items[..|items|] == items;
    TextStands(head, TextAll(items), eof, more);
    TidyWritten(input, |head|, items, |items|, eof, [eof]);
    FirstChar(items, eof);
    CompiledExactly(input, 0, eof, had, items, circ, |w|);
  }

  lemma TextStands(head: seq<int>, text: seq<int>, eof: int, more: seq<int>)
    ensures var input := head + text + [eof] + more;
            && Stands(input, |head|, text + [eof]) && Char(input, |head| + |text|) == eof
            && Char(input, |head|) == (text + [eof])[0] && (head != [] ==> Char(input, 0) == head[0])
  {
    var input := head + text + [eof] + more;
    assert input[|head|..|head| + |text + [eof]|] == text + [eof];
  }

  lemma {:induction false} FirstChar(items: seq<Item>, eof: int)
    requires Tidy(items, eof)
    requires eof !in {BACKSLASH, DOTCHAR, LEFT, STARCHAR, DOLLAR, CARET}
    ensures (TextAll(items) + [eof])[0] !in {STARCHAR, CARET}
    ensures items != [] ==> TextAll(items) != [] && TextAll(items)[0] != eof
    decreases |items|
  {
    hide Tidy, Text, Writable, Spells;
    if items != [] {
      var n := |items| - 1;
      TidyAt(items, n, eof);
      TidyPart(items, eof);
      TextStarts(items[n], eof);
      FirstChar(items[..n], eof);
    }
  }

  lemma TextStarts(x: Item, eof: int)
    requires eof !in {BACKSLASH, DOTCHAR, LEFT, STARCHAR, DOLLAR, CARET}
    requires x.One? || x.Many? ==> Writable(x.single, eof)
    ensures Text(x)[0] !in {STARCHAR, CARET, eof}
  {
  }

  lemma TidyPart(items: seq<Item>, eof: int)
    requires Tidy(items, eof) && items != []
    ensures Tidy(items[..|items| - 1], eof)
  {
    var part := items[..|items| - 1];
    forall k | 0 <= k < |part| ensures part[k] == items[k] && part[..k] == items[..k] {
    }
  }
}
