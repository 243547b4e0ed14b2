// compile of the editor (usr/ed.c:1059-1163): from the text of a regular expression to the
// code that the matcher works on.
module Compile {
  import opened Wrappers
  import opened Patterns
  import opened PatternCode

  const ESIZE: nat := 128
  const EOF: int := -1
  const NEWLINE: int := 10
  const DOLLAR: int := 36
  const OPEN: int := 40
  const CLOSE: int := 41
  const STARCHAR: int := 42
  const DOTCHAR: int := 46
  const LEFT: int := 91
  const BACKSLASH: int := 92
  const RIGHT: int := 93
  const CARET: int := 94

  // An error that clears the pattern in force or leaves what is stored so far, the pattern in
  // force taken again, or a new one; next is where the text goes on.
  datatype Outcome =
    | Failed(cleared: bool, stored: seq<Item>)
    | Reused
    | Compiled(items: seq<Item>, circumflex: bool, next: nat)

  // getchar with its pushback: the characters typed, then end of file for ever.
  function Char(input: seq<int>, i: nat): int {
    if i < |input| then input[i] else EOF
  }

  // The members of a set from i on, to be stored from ep on, up to a closing bracket that
  // is not the first.
  function ScanSet(input: seq<int>, i: nat, ep: nat, members: seq<int>): (r: Option<(seq<int>, nat)>)
    ensures r.Some? ==> |members| < |r.value.0| && ep - |members| + |r.value.0| < ESIZE
    decreases ESIZE - ep
  {
    if Char(input, i) == NEWLINE || ep + 1 >= ESIZE then None
    else
      var m := members + [Char(input, i)];
      if Char(input, i + 1) == RIGHT then Some((m, i + 2)) else ScanSet(input, i + 1, ep + 1, m)
  }

  function Size(items: seq<Item>): nat {
    |EncodeAll(items)|
  }

  // How one pass of the loop ends.
  datatype Step = Bad(cleared: bool) | Done | More(items: seq<Item>, nbra: nat, stack: seq<nat>, next: nat)

  function Starred(x: Item): Option<Item> {
    match x
    case One(y) => Some(Many(y))
    case Many(y) => Some(x)
    case _ => None
  }

  // One pass of the loop: the characters from i on, after items; nbra brackets are open or
  // closed and stack has the open ones.
  function OneStep(input: seq<int>, i: nat, eof: int, items: seq<Item>, nbra: nat, stack: seq<nat>): Step {
    var c := Char(input, i);
    if Size(items) >= ESIZE then Bad(true)
    else if c == eof then Done
    else if c == BACKSLASH then Escaped(Char(input, i + 1), i, items, nbra, stack)
    else if c == DOTCHAR then More(items + [One(Dot)], nbra, stack, i + 1)
    else if c == NEWLINE then Bad(true)
    else if c == STARCHAR then
      if items == [] || Starred(items[|items| - 1]) == None then Bad(false)
      else More(items[..|items| - 1] + [Starred(items[|items| - 1]).value], nbra, stack, i + 1)
    else if c == DOLLAR && Char(input, i + 1) == eof then More(items + [Dol], nbra, stack, i + 1)
    else if c == LEFT then
      var negated := Char(input, i + 1) == CARET;
      var r := ScanSet(input, if negated then i + 2 else i + 1, Size(items) + 2, []);
      if r == None then Bad(true) else More(items + [One(Class(negated, r.value.0))], nbra, stack, r.value.1)
    else More(items + [One(Chr(c))], nbra, stack, i + 1)
  }

  function Escaped(d: int, i: nat, items: seq<Item>, nbra: nat, stack: seq<nat>): Step {
    if d == OPEN then
      if nbra >= NBRA then Bad(true) else More(items + [Bra(nbra)], nbra + 1, stack + [nbra], i + 2)
    else if d == CLOSE then
      if stack == [] then Bad(true)
      else More(items + [Ket(stack[|stack| - 1])], nbra, stack[..|stack| - 1], i + 2)
    else if d == NEWLINE then Bad(true)
    else More(items + [One(Chr(d))], nbra, stack, i + 2)
  }

  lemma Regrouped(a: seq<int>, b: seq<int>, c: seq<int>)
    ensures a + (b + c) == a + b + c
  {
  }

  lemma {:induction false} EncodeAllAppend(a: seq<Item>, b: seq<Item>)
    ensures EncodeAll(a + b) == EncodeAll(a) + EncodeAll(b)
  {
    hide Encode;
    if a == [] {
      assert a + b == b;
    } else {
      EncodeAllAppend(a[1..], b);
      assert (a + b)[0] == a[0] && (a + b)[1..] == a[1..] + b;
      Regrouped(Encode(a[0]), EncodeAll(a[1..]), EncodeAll(b));
    }
  }

  lemma SizeAppend(items: seq<Item>, x: Item)
    ensures EncodeAll(items + [x]) == EncodeAll(items) + Encode(x)
    ensures Size(items + [x]) == Size(items) + |Encode(x)| > Size(items)
  {
    EncodeAllAppend(items, [x]);
    assert EncodeAll([x]) == Encode(x) + EncodeAll([]);
  }

  lemma SizeStarred(items: seq<Item>)
    requires items != [] && Starred(items[|items| - 1]).Some?
    ensures Size(items[..|items| - 1] + [Starred(items[|items| - 1]).value]) == Size(items)
  {
    var n := |items| - 1;
    assert items == items[..n] + [items[n]];
    SizeAppend(items[..n], items[n]);
    SizeAppend(items[..n], Starred(items[n]).value);
  }

  // Each pass stores something or reads a star.
  lemma Progress(input: seq<int>, i: nat, eof: int, items: seq<Item>, nbra: nat, stack: seq<nat>)
    requires OneStep(input, i, eof, items, nbra, stack).More?
    ensures var n := OneStep(input, i, eof, items, nbra, stack);
            && Size(items) < ESIZE && i < n.next
            && (Size(n.items) > Size(items) || (Size(n.items) == Size(items) && i < |input|))
  {
    hide EncodeAll, Encode, Starred, ScanSet;
    var n := OneStep(input, i, eof, items, nbra, stack);
    if Char(input, i) == LEFT {
      SetAdvances(input, if Char(input, i + 1) == CARET then i + 2 else i + 1, Size(items) + 2, []);
    }
    StepShape(input, i, eof, items, nbra, stack);
    if Char(input, i) == STARCHAR {
      SizeStarred(items);
    } else {
      SizeAppend(items, n.items[|items|]);
    }
  }

  lemma StepShape(input: seq<int>, i: nat, eof: int, items: seq<Item>, nbra: nat, stack: seq<nat>)
    requires OneStep(input, i, eof, items, nbra, stack).More?
    ensures var n := OneStep(input, i, eof, items, nbra, stack);
            if Char(input, i) == STARCHAR then
              i < |input| && items != [] && Starred(items[|items| - 1]).Some?
              && n.items == items[..|items| - 1] + [Starred(items[|items| - 1]).value]
            else |n.items| == |items| + 1 && n.items == items + [n.items[|items|]]
  {
    hide Size, Starred, ScanSet;
  }

  lemma {:induction false} SetAdvances(input: seq<int>, i: nat, ep: nat, members: seq<int>)
    ensures var r := ScanSet(input, i, ep, members); r.Some? ==> r.value.1 > i
    decreases ESIZE - ep
  {
    if ep + 1 < ESIZE && Char(input, i + 1) != RIGHT {
      SetAdvances(input, i + 1, ep + 1, members + [Char(input, i)]);
    }
  }

  function Scan(input: seq<int>, i: nat, eof: int, items: seq<Item>, nbra: nat, stack: seq<nat>, circ: bool): Outcome
    decreases ESIZE - Size(items), |input| - i
  {
    match OneStep(input, i, eof, items, nbra, stack)
    case Bad(cleared) => Failed(cleared, items)
    case Done => Compiled(items, circ, i + 1)
    case More(items', nbra', stack', next) =>
      Progress(input, i, eof, items, nbra, stack);
      Scan(input, next, eof, items', nbra', stack', circ)
  }

  // The whole of compile; had says that a pattern is in force.
  function CompileText(input: seq<int>, start: nat, eof: int, had: bool): Outcome {
    if Char(input, start) == eof then if had then Reused else Failed(false, [])
    else
      var circ := Char(input, start) == CARET;
      var i := if circ then start + 1 else start;
      if Char(input, i) == STARCHAR then Failed(true, []) else Scan(input, i, eof, [], 0, [], circ)
  }

  // ---- What is compiled is well formed ----

  // Every closing bracket has its opening bracket before it.
  ghost predicate Balanced(items: seq<Item>) {
    forall k :: 0 <= k < |items| && items[k].Ket? ==> Bra(items[k].n) in items[..k]
  }

  // The brackets, while the text is being read.
  ghost predicate Going(items: seq<Item>, nbra: nat, stack: seq<nat>) {
    WellFormed(items) && Balanced(items) && Brackets(items, nbra, stack)
  }

  // nbra brackets have been opened, and those of stack not closed.
  ghost predicate Brackets(items: seq<Item>, nbra: nat, stack: seq<nat>) {
    && nbra <= NBRA
    && (forall n: nat :: Bra(n) in items <==> n < nbra)
    && (forall k :: 0 <= k < |stack| ==> stack[k] < nbra && Ket(stack[k]) !in items)
    && (forall j, k :: 0 <= j < k < |stack| ==> stack[j] != stack[k])
    && (forall n: nat :: Ket(n) in items ==> n < nbra)
  }

  ghost predicate NoZeroChar(input: seq<int>) {
    forall k :: 0 <= k < |input| ==> input[k] != 0
  }

  lemma InAppended(items: seq<Item>, x: Item)
    ensures forall y :: y in items + [x] <==> y in items || y == x
  {
  }

  lemma BalancedMore(items: seq<Item>, x: Item)
    requires Balanced(items) && (x.Ket? ==> Bra(x.n) in items)
    ensures Balanced(items + [x])
  {
    var r := items + [x];
    forall k | 0 <= k < |r| && r[k].Ket? ensures Bra(r[k].n) in r[..k] {
      if k < |items| {
        assert r[k] == items[k] && r[..k] == items[..k];
      } else {
        assert r[..k] == items;
      }
    }
  }

  lemma WellFormedMore(items: seq<Item>, x: Item)
    requires WellFormed(items) && GoodItem(x) && (x.Bra? || x.Ket? ==> x !in items)
    ensures WellFormed(items + [x])
  {
    hide GoodItem;
  }

  lemma AppendGoing(items: seq<Item>, x: Item, nbra: nat, stack: seq<nat>)
    requires Going(items, nbra, stack) && GoodItem(x) && !x.Bra? && !x.Ket?
    ensures Going(items + [x], nbra, stack)
  {
    BalancedMore(items, x);
    WellFormedMore(items, x);
    InAppended(items, x);
    hide Balanced, WellFormed;
    assert Brackets(items + [x], nbra, stack);
  }

  lemma BraBrackets(items: seq<Item>, nbra: nat, stack: seq<nat>)
    requires Brackets(items, nbra, stack) && nbra < NBRA
    ensures Bra(nbra) !in items && Brackets(items + [Bra(nbra)], nbra + 1, stack + [nbra])
  {
    InAppended(items, Bra(nbra));
  }

  lemma KetBrackets(items: seq<Item>, nbra: nat, stack: seq<nat>)
    requires Brackets(items, nbra, stack) && stack != []
    ensures var n := stack[|stack| - 1];
            Ket(n) !in items && Bra(n) in items && n < NBRA && Brackets(items + [Ket(n)], nbra, stack[..|stack| - 1])
  {
    InAppended(items, Ket(stack[|stack| - 1]));
  }

  lemma BracketGoing(items: seq<Item>, x: Item, nbra: nat, stack: seq<nat>, nbra': nat, stack': seq<nat>)
    requires Going(items, nbra, stack)
    requires (x == Bra(nbra) && nbra < NBRA && nbra' == nbra + 1 && stack' == stack + [nbra])
             || (stack != [] && x == Ket(stack[|stack| - 1]) && nbra' == nbra && stack' == stack[..|stack| - 1])
    ensures Going(items + [x], nbra', stack')
  {
    hide Balanced, WellFormed, Brackets;
    if x.Bra? {
      BraBrackets(items, nbra, stack);
    } else {
      KetBrackets(items, nbra, stack);
    }
    BalancedMore(items, x);
    WellFormedMore(items, x);
  }

  lemma StarGoing(items: seq<Item>, nbra: nat, stack: seq<nat>)
    requires Going(items, nbra, stack) && items != [] && Starred(items[|items| - 1]).Some?
    ensures Going(items[..|items| - 1] + [Starred(items[|items| - 1]).value], nbra, stack)
  {
    var n := |items| - 1;
    GoingWithoutLast(items, nbra, stack);
    assert GoodItem(items[n]);
    hide Going;
    AppendGoing(items[..n], Starred(items[n]).value, nbra, stack);
  }

  lemma GoingWithoutLast(items: seq<Item>, nbra: nat, stack: seq<nat>)
    requires Going(items, nbra, stack) && items != [] && !items[|items| - 1].Bra? && !items[|items| - 1].Ket?
    ensures Going(items[..|items| - 1], nbra, stack)
  {
    var part := items[..|items| - 1];
    assert items == part + [items[|items| - 1]];
    assert forall m: nat :: Bra(m) in items <==> Bra(m) in part;
    assert forall m: nat :: Ket(m) in items <==> Ket(m) in part;
    assert Balanced(part) by {
      forall k | 0 <= k < |part| && part[k].Ket? ensures Bra(part[k].n) in part[..k] {
        assert part[..k] == items[..k];
      }
    }
  }

  lemma StepGoing(input: seq<int>, i: nat, eof: int, items: seq<Item>, nbra: nat, stack: seq<nat>)
    requires NoZeroChar(input) && Going(items, nbra, stack) && OneStep(input, i, eof, items, nbra, stack).More?
    ensures var n := OneStep(input, i, eof, items, nbra, stack); Going(n.items, n.nbra, n.stack)
  {
    hide Going, Size;
    var n := OneStep(input, i, eof, items, nbra, stack);
    if Char(input, i) == STARCHAR && Size(items) < ESIZE && Char(input, i) != eof {
      StarGoing(items, nbra, stack);
    } else {
      var x := n.items[|items|];
      if x.Bra? || x.Ket? {
        BracketGoing(items, x, nbra, stack, n.nbra, n.stack);
      } else {
        AppendGoing(items, x, nbra, stack);
      }
    }
  }

  lemma {:induction false} ScanGood(input: seq<int>, i: nat, eof: int, items: seq<Item>, nbra: nat, stack: seq<nat>,
                                    circ: bool)
    requires NoZeroChar(input) && Going(items, nbra, stack)
    ensures var r := Scan(input, i, eof, items, nbra, stack, circ);
            r.Compiled? ==> WellFormed(r.items) && Balanced(r.items) && Size(r.items) < ESIZE && r.circumflex == circ
    decreases ESIZE - Size(items), |input| - i
  {
    var n := OneStep(input, i, eof, items, nbra, stack);
    if n.More? {
      StepGoing(input, i, eof, items, nbra, stack);
      Progress(input, i, eof, items, nbra, stack);
      ScanGood(input, n.next, eof, n.items, n.nbra, n.stack, circ);
    }
  }

  // What is compiled fits, has every bracket once, and closes only brackets that are open.
  lemma CompiledIsGood(input: seq<int>, start: nat, eof: int, had: bool)
    requires NoZeroChar(input)
    ensures var r := CompileText(input, start, eof, had);
            r.Compiled? ==> WellFormed(r.items) && Balanced(r.items) && Size(r.items) < ESIZE
                            && r.circumflex == (Char(input, start) == CARET)
  {
    ScanGood(input, if Char(input, start) == CARET then start + 1 else start, eof, [], 0, [],
             Char(input, start) == CARET);
  }

  // ---- The code buffer ----

  // The code stored so far is that of items; that of the last of them starts at lastep.
  ghost predicate CodeIs(code: seq<int>, items: seq<Item>, lastep: nat) {
    code == EncodeAll(items) && (items != [] ==> lastep == Size(items[..|items| - 1]))
  }

  lemma Stored(code: seq<int>, items: seq<Item>, x: Item)
    requires code == EncodeAll(items)
    ensures CodeIs(code + Encode(x), items + [x], |code|)
  {
    SizeAppend(items, x);
    assert (items + [x])[..|items|] == items;
  }

  lemma LastCode(items: seq<Item>)
    requires items != []
    ensures var n := |items| - 1;
            EncodeAll(items) == EncodeAll(items[..n]) + Encode(items[n]) && Size(items[..n]) < Size(items)
  {
    var n := |items| - 1;
    assert items == items[..n] + [items[n]];
    SizeAppend(items[..n], items[n]);
  }

  lemma LastOpcode(code: seq<int>, items: seq<Item>, lastep: nat)
    requires CodeIs(code, items, lastep) && items != [] && !items[|items| - 1].Dol?
    ensures lastep < |code| && code[lastep] == Encode(items[|items| - 1])[0]
    ensures code[lastep] == CBRA || code[lastep] == CKET <==> Starred(items[|items| - 1]).None?
  {
    hide EncodeAll;
    LastCode(items);
  }

  lemma StarCode(x: Item)
    requires Starred(x).Some?
    ensures Encode(Starred(x).value) == [Encode(x)[0] / 2 * 2 + STAR] + Encode(x)[1..]
  {
  }

  // A star put on the code of the last item makes it the code of the starred item.
  lemma StarStored(code: seq<int>, items: seq<Item>, lastep: nat)
    requires CodeIs(code, items, lastep) && items != [] && Starred(items[|items| - 1]).Some?
    requires lastep < |code|
    ensures CodeIs(code[lastep := code[lastep] / 2 * 2 + STAR],
                   items[..|items| - 1] + [Starred(items[|items| - 1]).value], lastep)
  {
    hide Encode, EncodeAll, Starred;
    var n := |items| - 1;
    var x, y := items[n], Starred(items[n]).value;
    var a, e := EncodeAll(items[..n]), Encode(x);
    LastCode(items);
    StarCode(x);
    SizeAppend(items[..n], y);
    assert (items[..n] + [y])[..n] == items[..n];
    assert code == a + e && lastep == |a| && code[lastep] == e[0];
    assert code[lastep := e[0] / 2 * 2 + STAR] == a + ([e[0] / 2 * 2 + STAR] + e[1..]);
  }

  // What a star on a bracket leaves in the buffer: the code up to the bracket, not ended.
  ghost predicate Abandoned(buffer: seq<int>, items: seq<Item>) {
    && items != [] && Starred(items[|items| - 1]) == None
    && Size(items) <= |buffer| && buffer[..Size(items)] == EncodeAll(items)
  }

  lemma StarredBracket(buffer: seq<int>, code: seq<int>, lastep: nat, input: seq<int>, i: nat, eof: int,
                       items: seq<Item>, nbra: nat, stack: seq<nat>)
    requires OneStep(input, i, eof, items, nbra, stack) == Bad(false)
    requires items == [] ==> Char(input, i) != STARCHAR
    requires code <= buffer && CodeIs(code, items, lastep)
    ensures Abandoned(buffer, items)
  {
  }

  datatype Status = Stop(cleared: bool) | End | Again

  // expbuf and circfl: the pattern in force.
  class Compiler {
    const expbuf: array<int>
    var circfl: bool

    constructor ()
      ensures fresh(expbuf) && expbuf.Length == ESIZE + 4 && expbuf[0] == 0
    {
      expbuf := new int[ESIZE + 4](_ => 0);
      circfl := false;
    }

    method Store(ep: nat, c: int)
      requires ep < expbuf.Length
      modifies expbuf
      ensures expbuf[..ep + 1] == old(expbuf[..ep]) + [c]
    {
      expbuf[ep] := c;
    }

    // The members of a set, up to the closing bracket.
    method StoreSet(input: seq<int>, start: nat, at: nat) returns (ok: bool, i: nat, ep: nat)
      requires expbuf.Length == ESIZE + 4 && at <= ESIZE + 1
      modifies expbuf
      ensures ok == ScanSet(input, start, at, []).Some?
      ensures ok ==> var (m, next) := ScanSet(input, start, at, []).value;
                i == next && ep == at + |m| <= ESIZE && expbuf[..ep] == old(expbuf[..at]) + m
    {
      ghost var was := expbuf[..at];
      ghost var m: seq<int> := [];
      i, ep := start, at;
      assert expbuf[..ep] == was + m;
      while true
        invariant at <= ep <= ESIZE + 1 && ep == at + |m| && expbuf[..ep] == was + m
        invariant ScanSet(input, start, at, []) == ScanSet(input, i, ep, m)
        decreases ESIZE + 1 - ep
      {
        if Char(input, i) == NEWLINE {
          return false, i, ep;
        }
        Store(ep, Char(input, i));
        m := m + [Char(input, i)];
        ep := ep + 1;
        if ep >= ESIZE {
          return false, i, ep;
        }
        i := i + 1;
        if Char(input, i) == RIGHT {
          return true, i + 1, ep;
        }
      }
    }

    // The pass of the loop that starts at i.
    method Pass(input: seq<int>, start: nat, eof: int, at: nat, last: nat, wasOpen: nat, bracket: seq<nat>,
                ghost items: seq<Item>)
      returns (r: Status, i: nat, ep: nat, lastep: nat, nbra: nat, stack: seq<nat>)
      requires expbuf.Length == ESIZE + 4 && at <= ESIZE + 1 && CodeIs(expbuf[..at], items, last)
      requires if items == [] then Char(input, start) != STARCHAR
               else items[|items| - 1].Dol? ==> Char(input, start) == eof
      modifies expbuf
      ensures match OneStep(input, start, eof, items, wasOpen, bracket)
              case Bad(cleared) => r == Stop(cleared) && (!cleared ==> expbuf[..] == old(expbuf[..]))
              case Done => r == End && expbuf[..] == old(expbuf[..]) && i == start + 1 && ep == at && lastep == last
              case More(items', nbra', stack', next) =>
                && r == Again && nbra == nbra' && stack == stack' && i == next
                && ep <= ESIZE + 1 && CodeIs(expbuf[..ep], items', lastep)
    {
      hide EncodeAll, CodeIs, ScanSet, Escaped;
      i, ep, lastep, nbra, stack := start, at, last, wasOpen, bracket;
      if ep >= ESIZE {
        SizeIs(expbuf[..at], items, last);
        return Stop(true), i, ep, lastep, nbra, stack;
      }
      SizeIs(expbuf[..at], items, last);
      var c := Char(input, i);
      i := i + 1;
      if c == eof {
        return End, i, ep, lastep, nbra, stack;
      }
      if c == STARCHAR {
        var ok := StoreStar(ep, lastep, items);
        return if ok then Again else Stop(false), i, ep, lastep, nbra, stack;
      }
      lastep := ep;
      if c == BACKSLASH {
        c := Char(input, i);
        i := i + 1;
        EscapedAt(c, start, items, nbra, stack);
        r, nbra, stack := StoreEscaped(c, at, nbra, stack, items);
        return r, i, ep + 2, lastep, nbra, stack;
      } else if c == DOTCHAR {
        Store1(ep, CDOT, items, One(Dot));
        return Again, i, ep + 1, lastep, nbra, stack;
      } else if c == NEWLINE {
        return Stop(true), i, ep, lastep, nbra, stack;
      } else if c == DOLLAR && Char(input, i) == eof {
        Store1(ep, CDOL, items, Dol);
        return Again, i, ep + 1, lastep, nbra, stack;
      } else if c == LEFT {
        var ok;
        ok, i, ep := StoreClass(input, i, ep, items);
        return if ok then Again else Stop(true), i, ep, lastep, nbra, stack;
      } else {
        Store2(ep, CCHR, c, items, One(Chr(c)));
        return Again, i, ep + 2, lastep, nbra, stack;
      }
    }

    // The star is put on the item at lastep.
    method StoreStar(ep: nat, lastep: nat, ghost items: seq<Item>) returns (ok: bool)
      requires expbuf.Length == ESIZE + 4 && ep <= ESIZE + 1 && CodeIs(expbuf[..ep], items, lastep)
      requires items != [] && !items[|items| - 1].Dol?
      modifies expbuf
      ensures ok == Starred(items[|items| - 1]).Some? && (!ok ==> expbuf[..] == old(expbuf[..]))
      ensures ok ==> CodeIs(expbuf[..ep], items[..|items| - 1] + [Starred(items[|items| - 1]).value], lastep)
    {
      hide EncodeAll, CodeIs, Starred;
      ghost var code := expbuf[..ep];
      LastOpcode(code, items, lastep);
      assert expbuf[lastep] == code[lastep];
      if expbuf[lastep] == CBRA || expbuf[lastep] == CKET {
        return false;
      }
      StarStored(code, items, lastep);
      expbuf[lastep] := expbuf[lastep] / 2 * 2 + STAR;
      assert expbuf[..ep] == code[lastep := code[lastep] / 2 * 2 + STAR];
      return true;
    }

    // Items of one and of two bytes.
    method Store1(ep: nat, a: int, ghost items: seq<Item>, ghost x: Item)
      requires ep < expbuf.Length && expbuf[..ep] == EncodeAll(items) && Encode(x) == [a]
      modifies expbuf
      ensures CodeIs(expbuf[..ep + 1], items + [x], ep)
    {
      hide EncodeAll, Encode, CodeIs;
      Stored(expbuf[..ep], items, x);
      Store(ep, a);
    }

    method Store2(ep: nat, a: int, b: int, ghost items: seq<Item>, ghost x: Item)
      requires ep + 1 < expbuf.Length && expbuf[..ep] == EncodeAll(items) && Encode(x) == [a, b]
      modifies expbuf
      ensures CodeIs(expbuf[..ep + 2], items + [x], ep)
    {
      hide EncodeAll, Encode, CodeIs;
      Stored(expbuf[..ep], items, x);
      ghost var code := expbuf[..ep];
      Store(ep, a);
      Store(ep + 1, b);
      assert code + [a] + [b] == code + [a, b];
    }

    method StoreEscaped(c: int, ep: nat, wasOpen: nat, bracket: seq<nat>, ghost items: seq<Item>)
      returns (r: Status, nbra: nat, stack: seq<nat>)
      requires expbuf.Length == ESIZE + 4 && ep < ESIZE && expbuf[..ep] == EncodeAll(items)
      modifies expbuf
      ensures match Escaped(c, 0, items, wasOpen, bracket)
              case Bad(cleared) => r == Stop(cleared) && cleared
              case Done => false
              case More(items', nbra', stack', _) =>
                r == Again && nbra == nbra' && stack == stack' && CodeIs(expbuf[..ep + 2], items', ep)
    {
      hide EncodeAll, CodeIs;
      nbra, stack := wasOpen, bracket;
      if c == OPEN {
        if nbra >= NBRA {
          return Stop(true), nbra, stack;
        }
        stack := stack + [nbra];
        Store2(ep, CBRA, nbra, items, Bra(nbra));
        nbra := nbra + 1;
      } else if c == CLOSE {
        if stack == [] {
          return Stop(true), nbra, stack;
        }
        var n := stack[|stack| - 1];
        stack := stack[..|stack| - 1];
        Store2(ep, CKET, n, items, Ket(n));
      } else {
        if c == NEWLINE {
          return Stop(true), nbra, stack;
        }
        Store2(ep, CCHR, c, items, One(Chr(c)));
      }
      return Again, nbra, stack;
    }

    // A set: its code, with the number of members put in when they are all there.
    method StoreClass(input: seq<int>, start: nat, at: nat, ghost items: seq<Item>) returns (ok: bool, i: nat, ep: nat)
      requires expbuf.Length == ESIZE + 4 && at < ESIZE && expbuf[..at] == EncodeAll(items)
      modifies expbuf
      ensures var negated := Char(input, start) == CARET;
              var m := ScanSet(input, if negated then start + 1 else start, at + 2, []);
              && ok == m.Some?
              && (ok ==> i == m.value.1 && ep <= ESIZE
                         && CodeIs(expbuf[..ep], items + [One(Class(negated, m.value.0))], at))
    {
      hide EncodeAll, CodeIs, ScanSet, Encode, EncodeSingle;
      i := start;
      ghost var code := expbuf[..at];
      Store(at, CCL);
      Store(at + 1, 0);
      var negated := Char(input, i) == CARET;
      if negated {
        i := i + 1;
        expbuf[at] := NCCL;
      }
      var op := if negated then NCCL else CCL;
      assert expbuf[..at + 2] == code + [op, 0];
      ok, i, ep := StoreSet(input, i, at + 2);
      if ok {
        ghost var m := ScanSet(input, if negated then start + 1 else start, at + 2, []).value.0;
        expbuf[at + 1] := ep - at - 1;
        ghost var x := One(Class(negated, m));
        ClassCode(negated, m);
        assert expbuf[..ep] == code + ([op, |m| + 1] + m);
        Stored(code, items, x);
      }
    }

    // Reads a pattern from start up to eof.
    method Compile(input: seq<int>, start: nat, eof: int) returns (ok: bool, next: nat)
      requires expbuf.Length == ESIZE + 4 && NoZeroChar(input)
      modifies this, expbuf
      ensures circfl == if Char(input, start) == eof then old(circfl) else Char(input, start) == CARET
      ensures match CompileText(input, start, eof, old(expbuf[0]) != 0)
              case Failed(cleared, stored) =>
                !ok && (if cleared then expbuf[0] == 0
                        else if stored == [] then expbuf[..] == old(expbuf[..])
                        else Abandoned(expbuf[..], stored))
              case Reused => ok && expbuf[..] == old(expbuf[..]) && next == start + 1
              case Compiled(items, circumflex, n) =>
                && ok && next == n && circumflex == circfl
                && Coded(expbuf[..], 0, items) && WellFormed(items) && Balanced(items)
    {
      hide Coded, WellFormed, Balanced, Scan;
      next := start + 1;
      if Char(input, start) == eof {
        return expbuf[0] != 0, next;
      }
      CompiledIsGood(input, start, eof, expbuf[0] != 0);
      circfl := false;
      var i := start;
      if Char(input, i) == CARET {
        circfl := true;
        i := i + 1;
      }
      if Char(input, i) == STARCHAR {
        expbuf[0] := 0;
        return false, i;
      }
      ok, next := Passes(input, i, eof);
    }

    method Passes(input: seq<int>, start: nat, eof: int) returns (ok: bool, next: nat)
      requires expbuf.Length == ESIZE + 4 && Char(input, start) != STARCHAR
      modifies expbuf
      ensures match Scan(input, start, eof, [], 0, [], circfl)
              case Failed(cleared, stored) =>
                !ok && if cleared then expbuf[0] == 0 else Abandoned(expbuf[..], stored)
              case Reused => false
              case Compiled(items, circumflex, n) => ok && next == n && Coded(expbuf[..], 0, items)
    {
      hide OneStep, CodeIs;
      var i, ep: nat, lastep, nbra, stack: seq<nat> := start, 0, 0, 0, [];
      ghost var items: seq<Item> := [];
      CodeStart(expbuf[..0]);
      while true
        invariant ep <= ESIZE + 1 && CodeIs(expbuf[..ep], items, lastep)
        invariant Scan(input, start, eof, [], 0, [], circfl) == Scan(input, i, eof, items, nbra, stack, circfl)
        invariant if items == [] then Char(input, i) != STARCHAR
                  else items[|items| - 1].Dol? ==> Char(input, i) == eof
        decreases ESIZE - Size(items), |input| - i
      {
        ghost var n := OneStep(input, i, eof, items, nbra, stack);
        ghost var was, wasNbra, wasStack := i, nbra, stack;
        ghost var code, last := expbuf[..ep], lastep;
        var r;
        r, i, ep, lastep, nbra, stack := Pass(input, i, eof, ep, lastep, nbra, stack, items);
        match r {
          case Stop(cleared) =>
            if cleared {
              expbuf[0] := 0;
            } else {
              StarredBracket(expbuf[..], code, last, input, was, eof, items, wasNbra, wasStack);
            }
            return false, i;
          case End =>
            Store(ep, CEOF);
            Finish(expbuf[..], code, items, lastep, ep);
            return true, i;
          case Again =>
            Progress(input, was, eof, items, wasNbra, wasStack);
            AfterPass(input, was, eof, items, wasNbra, wasStack);
            items := n.items;
        }
      }
    }
  }

  lemma ClassCode(negated: bool, m: seq<int>)
    ensures Encode(One(Class(negated, m))) == [if negated then NCCL else CCL, |m| + 1] + m
  {
  }

  lemma SizeIs(code: seq<int>, items: seq<Item>, lastep: nat)
    requires CodeIs(code, items, lastep)
    ensures Size(items) == |code| && code == EncodeAll(items)
  {
  }

  lemma EscapedAt(d: int, i: nat, items: seq<Item>, nbra: nat, stack: seq<nat>)
    ensures Escaped(d, i, items, nbra, stack) ==
              match Escaped(d, 0, items, nbra, stack)
              case More(a, b, c, _) => More(a, b, c, i + 2)
              case other => other
  {
  }

  // A star is read only after an item, and an end of line item is the last.
  lemma AfterPass(input: seq<int>, i: nat, eof: int, items: seq<Item>, nbra: nat, stack: seq<nat>)
    requires OneStep(input, i, eof, items, nbra, stack).More?
    requires items != [] && items[|items| - 1].Dol? ==> Char(input, i) == eof
    ensures var n := OneStep(input, i, eof, items, nbra, stack);
            n.items != [] && (n.items[|n.items| - 1].Dol? ==> Char(input, n.next) == eof)
  {
    hide Size;
  }

  lemma CodeStart(code: seq<int>)
    requires code == []
    ensures CodeIs(code, [], 0)
  {
  }

  lemma Finish(buffer: seq<int>, code: seq<int>, items: seq<Item>, lastep: nat, ep: nat)
    requires CodeIs(code, items, lastep) && ep == |code| && ep < |buffer| && buffer[..ep + 1] == code + [CEOF]
    ensures Coded(buffer, 0, items)
  {
    hide EncodeAll, Coded;
    EncodeIsCoded(buffer, 0, items);
  }
}
