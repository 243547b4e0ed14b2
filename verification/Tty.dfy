// Input of a terminal (dmr/tty.c:173-196, 198-289): characters as they are typed, with a
// delimiter after each line, and the line with erase, kill and escapes worked out.
module Tty {
  import opened Clist

  const CANBSIZ: nat := 256
  const TTYHOG: nat := 256
  const DELIM: int := 255
  const BACKSLASH: int := 92
  const NEWLINE: int := 10
  const RETURN: int := 13
  const CEOT: int := 4
  const CQUIT: int := 27
  const CINTR: int := 127

  datatype Modes = Modes(raw: bool, lcase: bool, crmod: bool, erase: int, kill: int)

  // ---- Editing a line, on lists ----

  function Last(line: seq<int>, back: nat): int {
    if back < |line| then line[|line| - 1 - back] else 0
  }

  // The escaped form of c: maptab, where it applies.
  predicate Escapable(maptab: seq<int>, m: Modes, c: int)
    requires |maptab| == 128
  {
    0 <= c < 128 && maptab[c] != 0 && (maptab[c] == c || m.lcase)
  }

  // The line after one more character.
  function Type(maptab: seq<int>, m: Modes, line: seq<int>, c: int): seq<int>
    requires |maptab| == 128
  {
    if m.raw then line + [c]
    else if Last(line, 0) != BACKSLASH then
      if c == m.erase then (if line == [] then [] else line[..|line| - 1])
      else if c == m.kill then []
      else if c == CEOT then line
      else line + [c]
    else if Escapable(maptab, m, c) then
      line[..|line| - 1] + [if Last(line, 1) != BACKSLASH then maptab[c] else c]
    else line + [c]
  }

  function Edited(maptab: seq<int>, m: Modes, line: seq<int>, typed: seq<int>): seq<int>
    requires |maptab| == 128
    decreases |typed|
  {
    if typed == [] then line else Edited(maptab, m, Type(maptab, m, line, typed[0]), typed[1..])
  }

  lemma {:induction false} EditedConcat(maptab: seq<int>, m: Modes, line: seq<int>, a: seq<int>, b: seq<int>)
    requires |maptab| == 128
    ensures Edited(maptab, m, line, a + b) == Edited(maptab, m, Edited(maptab, m, line, a), b)
    decreases |a|
  {
    if a == [] {
      assert a + b == b;
    } else {
      assert (a + b)[1..] == a[1..] + b;
      EditedConcat(maptab, m, Type(maptab, m, line, a[0]), a[1..], b);
    }
  }

  // A character that editing does not treat specially.
  predicate Ordinary(m: Modes, c: int) {
    c != m.erase && c != m.kill && c != CEOT && c != BACKSLASH
  }

  // Ordinary characters are the line.
  lemma {:induction false} OrdinaryLine(maptab: seq<int>, m: Modes, line: seq<int>, typed: seq<int>)
    requires |maptab| == 128 && (forall i :: 0 <= i < |typed| ==> Ordinary(m, typed[i]))
    requires Last(line, 0) != BACKSLASH
    ensures Edited(maptab, m, line, typed) == line + typed
    decreases |typed|
  {
    if typed != [] {
      OrdinaryLine(maptab, m, line + [typed[0]], typed[1..]);
      assert line + [typed[0]] + typed[1..] == line + typed;
    }
  }

  // Erase takes back the character before it, whatever came earlier.
  lemma EraseTakesBack(maptab: seq<int>, m: Modes, a: seq<int>, c: int, b: seq<int>)
    requires |maptab| == 128 && !m.raw && Ordinary(m, c)
    requires Last(Edited(maptab, m, [], a), 0) != BACKSLASH
    ensures Edited(maptab, m, [], a + [c, m.erase] + b) == Edited(maptab, m, [], a + b)
  {
    var line := Edited(maptab, m, [], a);
    EditedConcat(maptab, m, [], a, b);
    EditedConcat(maptab, m, [], a, [c, m.erase] + b);
    assert a + [c, m.erase] + b == a + ([c, m.erase] + b);
    EditedConcat(maptab, m, line, [c, m.erase], b);
    assert [c, m.erase][1..] == [m.erase] && [m.erase][1..] == [];
    assert (line + [c])[..|line|] == line;
  }

  // Kill forgets everything before it.
  lemma KillForgets(maptab: seq<int>, m: Modes, a: seq<int>, b: seq<int>)
    requires |maptab| == 128 && !m.raw && m.kill != m.erase
    requires Last(Edited(maptab, m, [], a), 0) != BACKSLASH
    ensures Edited(maptab, m, [], a + [m.kill] + b) == Edited(maptab, m, [], b)
  {
    var line := Edited(maptab, m, [], a);
    EditedConcat(maptab, m, [], a, [m.kill] + b);
    assert a + [m.kill] + b == a + ([m.kill] + b);
    EditedConcat(maptab, m, line, [m.kill], b);
    assert [m.kill][1..] == [];
  }

  // A backslash before a character that maptab has for itself, such as the default erase and
  // kill characters, enters the character.
  lemma EscapeEnters(maptab: seq<int>, m: Modes, a: seq<int>, c: int)
    requires |maptab| == 128 && !m.raw && 0 <= c < 128 && maptab[c] == c != 0
    requires m.erase != BACKSLASH && m.kill != BACKSLASH && Last(Edited(maptab, m, [], a), 0) != BACKSLASH
    ensures Edited(maptab, m, [], a + [BACKSLASH, c]) == Edited(maptab, m, [], a) + [c]
  {
    var line := Edited(maptab, m, [], a);
    EditedConcat(maptab, m, [], a, [BACKSLASH, c]);
    assert [BACKSLASH, c][1..] == [c] && [c][1..] == [];
    assert (line + [BACKSLASH])[..|line|] == line;
    assert Last(line + [BACKSLASH], 1) == Last(line, 0);
    assert Type(maptab, m, line, BACKSLASH) == line + [BACKSLASH];
    assert Type(maptab, m, line + [BACKSLASH], c) == line + [c];
    assert Edited(maptab, m, line + [BACKSLASH], [c]) == Edited(maptab, m, line + [c], []);
  }

  // One more character at the end.
  lemma EditedMore(maptab: seq<int>, m: Modes, a: seq<int>, c: int)
    requires |maptab| == 128
    ensures Edited(maptab, m, [], a + [c]) == Type(maptab, m, Edited(maptab, m, [], a), c)
  {
    var line := Edited(maptab, m, [], a);
    EditedConcat(maptab, m, [], a, [c]);
    assert Edited(maptab, m, Type(maptab, m, line, c), [c][1..]) == Type(maptab, m, line, c);
  }

  // The end of file character is no part of a line.
  lemma EotIsDropped(maptab: seq<int>, m: Modes, a: seq<int>, b: seq<int>)
    requires |maptab| == 128 && !m.raw && CEOT != m.erase && CEOT != m.kill
    requires Last(Edited(maptab, m, [], a), 0) != BACKSLASH
    ensures Edited(maptab, m, [], a + [CEOT] + b) == Edited(maptab, m, [], a + b)
  {
    EditedMore(maptab, m, a, CEOT);
    EditedConcat(maptab, m, [], a + [CEOT], b);
    EditedConcat(maptab, m, [], a, b);
  }

  // Erase takes back whatever is last, and nothing from an empty line.
  lemma EraseDrops(maptab: seq<int>, m: Modes, a: seq<int>)
    requires |maptab| == 128 && !m.raw && Last(Edited(maptab, m, [], a), 0) != BACKSLASH
    ensures var line := Edited(maptab, m, [], a);
            Edited(maptab, m, [], a + [m.erase]) == if line == [] then [] else line[..|line| - 1]
  {
    EditedMore(maptab, m, a, m.erase);
  }

  // In raw mode every character is entered.
  lemma {:induction false} RawIsAll(maptab: seq<int>, m: Modes, line: seq<int>, typed: seq<int>)
    requires |maptab| == 128 && m.raw
    ensures Edited(maptab, m, line, typed) == line + typed
    decreases |typed|
  {
    if typed != [] {
      RawIsAll(maptab, m, line + [typed[0]], typed[1..]);
      assert line + [typed[0]] + typed[1..] == line + typed;
    }
  }

  // What is typed after a backslash, itself entered.
  lemma AfterBackslash(maptab: seq<int>, m: Modes, a: seq<int>, c: int)
    requires |maptab| == 128 && !m.raw
    requires m.erase != BACKSLASH && m.kill != BACKSLASH && Last(Edited(maptab, m, [], a), 0) != BACKSLASH
    ensures var line := Edited(maptab, m, [], a) + [BACKSLASH];
            && Edited(maptab, m, [], a + [BACKSLASH]) == line
            && Edited(maptab, m, [], a + [BACKSLASH, c]) == Type(maptab, m, line, c)
            && Last(line, 0) == BACKSLASH && Last(line, 1) != BACKSLASH
            && line[..|line| - 1] == Edited(maptab, m, [], a)
  {
    EditedMore(maptab, m, a, BACKSLASH);
    EditedMore(maptab, m, a + [BACKSLASH], c);
    assert a + [BACKSLASH, c] == a + [BACKSLASH] + [c];
    assert Last(Edited(maptab, m, [], a) + [BACKSLASH], 1) == Last(Edited(maptab, m, [], a), 0);
  }

  // On a terminal without small letters, a backslash and a character that maptab has enter
  // what it stands for.
  lemma EscapeMaps(maptab: seq<int>, m: Modes, a: seq<int>, c: int)
    requires |maptab| == 128 && !m.raw && m.lcase && 0 <= c < 128 && maptab[c] != 0
    requires m.erase != BACKSLASH && m.kill != BACKSLASH && Last(Edited(maptab, m, [], a), 0) != BACKSLASH
    ensures Edited(maptab, m, [], a + [BACKSLASH, c]) == Edited(maptab, m, [], a) + [maptab[c]]
  {
    AfterBackslash(maptab, m, a, c);
  }

  // Before any other character the backslash is entered, and so is the character, even when
  // it is special.
  lemma BackslashStays(maptab: seq<int>, m: Modes, a: seq<int>, c: int)
    requires |maptab| == 128 && !m.raw && !Escapable(maptab, m, c)
    requires m.erase != BACKSLASH && m.kill != BACKSLASH && Last(Edited(maptab, m, [], a), 0) != BACKSLASH
    ensures Edited(maptab, m, [], a + [BACKSLASH, c]) == Edited(maptab, m, [], a) + [BACKSLASH, c]
  {
    AfterBackslash(maptab, m, a, c);
    assert Edited(maptab, m, [], a) + [BACKSLASH] + [c] == Edited(maptab, m, [], a) + [BACKSLASH, c];
  }

  // Two backslashes before a character that one would escape enter a backslash and that
  // character as it is.
  lemma TwoBackslashes(maptab: seq<int>, m: Modes, a: seq<int>, c: int)
    requires |maptab| == 128 && !m.raw && Escapable(maptab, m, c) && !Escapable(maptab, m, BACKSLASH)
    requires m.erase != BACKSLASH && m.kill != BACKSLASH && Last(Edited(maptab, m, [], a), 0) != BACKSLASH
    ensures Edited(maptab, m, [], a + [BACKSLASH, BACKSLASH, c]) == Edited(maptab, m, [], a) + [BACKSLASH, c]
  {
    BackslashStays(maptab, m, a, BACKSLASH);
    EditedMore(maptab, m, a + [BACKSLASH, BACKSLASH], c);
    assert a + [BACKSLASH, BACKSLASH] + [c] == a + [BACKSLASH, BACKSLASH, c];
    var line := Edited(maptab, m, [], a) + [BACKSLASH, BACKSLASH];
    assert line[..|line| - 1] == Edited(maptab, m, [], a) + [BACKSLASH];
    assert line[..|line| - 1] + [c] == Edited(maptab, m, [], a) + [BACKSLASH, c];
  }

  // ---- Delimiters ----

  function Delimiters(q: seq<int>): nat {
    if q == [] then 0 else Delimiters(q[1..]) + (if q[0] == DELIM then 1 else 0)
  }

  lemma {:induction false} DelimitersAppend(q: seq<int>, c: int)
    ensures Delimiters(q + [c]) == Delimiters(q) + (if c == DELIM then 1 else 0)
  {
    if q == [] {
      assert q + [c] == [c];
      assert [c][1..] == [];
    } else {
      assert (q + [c])[1..] == q[1..] + [c];
      DelimitersAppend(q[1..], c);
    }
  }

  // What canon takes from the raw queue: up to the first delimiter, and how much the line
  // buffer has room for.
  function Typed(q: seq<int>): (r: seq<int>)
    ensures |r| <= |q|
  {
    if q == [] || q[0] == DELIM then [] else [q[0]] + Typed(q[1..])
  }

  // The lines that the buffer has room for, after each character.
  ghost predicate Fits(maptab: seq<int>, m: Modes, line: seq<int>, typed: seq<int>)
    requires |maptab| == 128
    decreases |typed|
  {
    |line| < CANBSIZ - 2
    && (typed == [] || Fits(maptab, m, Type(maptab, m, line, typed[0]), typed[1..]))
  }

  // A line that does not fit is cut where the buffer is full: after so many characters ...
  function Consumed(maptab: seq<int>, m: Modes, line: seq<int>, typed: seq<int>): (k: nat)
    requires |maptab| == 128
    ensures k <= |typed|
    decreases |typed|
  {
    if typed == [] then 0
    else
      var l := Type(maptab, m, line, typed[0]);
      if |l| >= CANBSIZ - 2 then 1 else 1 + Consumed(maptab, m, l, typed[1..])
  }

  // ... and this is what there is of it.
  function CutLine(maptab: seq<int>, m: Modes, line: seq<int>, typed: seq<int>): seq<int>
    requires |maptab| == 128
    decreases |typed|
  {
    if typed == [] then line
    else
      var l := Type(maptab, m, line, typed[0]);
      if |l| >= CANBSIZ - 2 then l else CutLine(maptab, m, l, typed[1..])
  }

  lemma TypeGrows(maptab: seq<int>, m: Modes, line: seq<int>, c: int)
    requires |maptab| == 128
    ensures |Type(maptab, m, line, c)| <= |line| + 1
  {
  }

  // It is the edited form of those characters, and as long as the buffer.
  lemma {:induction false} CutIsEdited(maptab: seq<int>, m: Modes, line: seq<int>, typed: seq<int>)
    requires |maptab| == 128 && |line| < CANBSIZ - 2
    ensures CutLine(maptab, m, line, typed)
            == Edited(maptab, m, line, typed[..Consumed(maptab, m, line, typed)])
    ensures Fits(maptab, m, line, typed) <==> |CutLine(maptab, m, line, typed)| < CANBSIZ - 2
    ensures |CutLine(maptab, m, line, typed)| <= CANBSIZ - 2
    decreases |typed|
  {
    if typed != [] {
      var l := Type(maptab, m, line, typed[0]);
      var k := Consumed(maptab, m, line, typed);
      TypeGrows(maptab, m, line, typed[0]);
      assert typed[..k][0] == typed[0] && typed[..k][1..] == typed[1..][..k - 1];
      if |l| < CANBSIZ - 2 {
        CutIsEdited(maptab, m, l, typed[1..]);
      } else {
        assert Edited(maptab, m, l, []) == l;
      }
    }
  }

  // What canon makes of the raw queue, and what it leaves.
  ghost function LineOf(maptab: seq<int>, m: Modes, q: seq<int>): seq<int>
    requires |maptab| == 128
  {
    if Fits(maptab, m, [], Typed(q)) then Edited(maptab, m, [], Typed(q)) else CutLine(maptab, m, [], Typed(q))
  }

  ghost function RestOf(maptab: seq<int>, m: Modes, q: seq<int>): seq<int>
    requires |maptab| == 128
  {
    if Fits(maptab, m, [], Typed(q)) then AfterLine(q) else q[Consumed(maptab, m, [], Typed(q))..]
  }

  // A line typed, w with its newline, comes through the raw queue as it is edited, and what is
  // typed behind it stays; the end of file character alone is an empty line.
  lemma LineComesThrough(maptab: seq<int>, m: Modes, w: seq<int>, rest: seq<int>)
    requires |maptab| == 128 && DELIM !in w && Fits(maptab, m, [], w)
    ensures LineOf(maptab, m, w + [DELIM] + rest) == Edited(maptab, m, [], w)
    ensures RestOf(maptab, m, w + [DELIM] + rest) == rest
  {
    TypedUpTo(w, rest);
  }

  lemma {:induction false} TypedUpTo(w: seq<int>, rest: seq<int>)
    requires DELIM !in w
    ensures Typed(w + [DELIM] + rest) == w && AfterLine(w + [DELIM] + rest) == rest
  {
    var q := w + [DELIM] + rest;
    if w != [] {
      assert q[1..] == w[1..] + [DELIM] + rest;
      TypedUpTo(w[1..], rest);
    }
  }

  lemma EndOfFileIsEmpty(maptab: seq<int>, m: Modes, rest: seq<int>)
    requires |maptab| == 128 && !m.raw && CEOT != m.erase && CEOT != m.kill
    ensures LineOf(maptab, m, Arriving(m, CEOT) + rest) == [] && RestOf(maptab, m, Arriving(m, CEOT) + rest) == rest
  {
    assert Arriving(m, CEOT) == [CEOT] + [DELIM];
    assert Type(maptab, m, [], CEOT) == [];
    assert Edited(maptab, m, [], [CEOT]) == [] && Fits(maptab, m, [], [CEOT]);
    LineComesThrough(maptab, m, [CEOT], rest);
  }

  // The line is behind two zero bytes, so that looking back never finds a backslash there.
  lemma LastIs(buffer: seq<int>, bp: nat)
    requires 2 <= bp <= |buffer| && buffer[0] == 0 && buffer[1] == 0
    ensures Last(buffer[2..bp], 0) == buffer[bp - 1]
    ensures buffer[bp - 1] == BACKSLASH ==> bp > 2 && Last(buffer[2..bp], 1) == buffer[bp - 2]
  {
  }

  lemma {:induction false} SomeDelimiter(q: seq<int>)
    requires Delimiters(q) > 0
    ensures q != [] && DELIM in q
  {
    if q[0] != DELIM {
      SomeDelimiter(q[1..]);
    }
  }

  // The raw queue behind its first line.
  function AfterLine(q: seq<int>): seq<int> {
    if q == [] then [] else if q[0] == DELIM then q[1..] else AfterLine(q[1..])
  }

  // canon has come to cur, in the raw queue all, with line.
  ghost predicate Going(maptab: seq<int>, m: Modes, all: seq<int>, cur: seq<int>, line: seq<int>)
    requires |maptab| == 128
  {
    && DELIM in cur && Delimiters(cur) == Delimiters(all) && AfterLine(cur) == AfterLine(all)
    && Edited(maptab, m, line, Typed(cur)) == Edited(maptab, m, [], Typed(all))
    && CutLine(maptab, m, line, Typed(cur)) == CutLine(maptab, m, [], Typed(all))
    && (Fits(maptab, m, [], Typed(all)) <==> Fits(maptab, m, line, Typed(cur)))
    && |cur| <= |all| && cur == all[|all| - |cur|..]
    && Consumed(maptab, m, [], Typed(all)) == |all| - |cur| + Consumed(maptab, m, line, Typed(cur))
  }

  lemma GoingStart(maptab: seq<int>, m: Modes, all: seq<int>)
    requires |maptab| == 128 && Delimiters(all) > 0
    ensures Going(maptab, m, all, all, []) && all != []
  {
    SomeDelimiter(all);
  }

  lemma GoingStep(maptab: seq<int>, m: Modes, all: seq<int>, cur: seq<int>, line: seq<int>)
    requires |maptab| == 128 && Going(maptab, m, all, cur, line) && cur != [] && cur[0] != DELIM
    requires |line| < CANBSIZ - 2
    ensures var l := Type(maptab, m, line, cur[0]);
            if |l| < CANBSIZ - 2 then Going(maptab, m, all, cur[1..], l) && cur[1..] != []
            else l == LineOf(maptab, m, all) && cur[1..] == RestOf(maptab, m, all)
                 && !Fits(maptab, m, [], Typed(all))
    ensures Delimiters(cur[1..]) == Delimiters(all)
  {
    hide Type;
    TypedStep(cur);
    assert cur[1..] == all[|all| - |cur| + 1..];
  }

  lemma TypedStep(cur: seq<int>)
    requires DELIM in cur && cur[0] != DELIM
    ensures Typed(cur) == [cur[0]] + Typed(cur[1..]) && Typed(cur)[1..] == Typed(cur[1..])
    ensures DELIM in cur[1..] && AfterLine(cur) == AfterLine(cur[1..]) && Delimiters(cur) == Delimiters(cur[1..])
  {
    var k :| 0 <= k < |cur| && cur[k] == DELIM;
    assert cur[1..][k - 1] == DELIM;
  }

  lemma GoingEnd(maptab: seq<int>, m: Modes, all: seq<int>, cur: seq<int>, line: seq<int>)
    requires |maptab| == 128 && Going(maptab, m, all, cur, line) && cur != [] && cur[0] == DELIM
    requires |line| < CANBSIZ - 2
    ensures Fits(maptab, m, [], Typed(all)) && line == LineOf(maptab, m, all) && cur[1..] == RestOf(maptab, m, all)
    ensures Delimiters(cur[1..]) == Delimiters(all) - 1
  {
  }

  class Terminal {
    const queues: CharQueues
    const raw: nat
    const canq: nat
    const outq: nat
    const maptab: seq<int>
    const canonb: array<int>
    var modes: Modes
    var delct: int

    // delct counts the delimiters in the raw queue, modulo 256.
    ghost predicate Valid()
      reads this, queues, queues.next, queues.info, queues.heads, canonb
    {
      Shape() && delct == Delimiters(queues.texts[raw]) % 256
    }

    ghost predicate Shape()
      reads this, queues, queues.next, queues.info, queues.heads, canonb
    {
      && queues.Valid() && |queues.texts| == queues.heads.Length
      && raw < queues.heads.Length && canq < queues.heads.Length && outq < queues.heads.Length
      && raw != canq && raw != outq && canq != outq && |maptab| == 128
      && 0 <= delct < 256
      && canonb.Length == CANBSIZ && canonb[0] == 0 && canonb[1] == 0
      && canonb != queues.info && forall c :: 0 <= c < 128 ==> 0 <= maptab[c] < 128
    }

    constructor (q: CharQueues, first: nat, table: seq<int>, m: Modes)
      requires q.Valid() && first + 2 < q.heads.Length && |table| == 128
      requires (forall c :: 0 <= c < 128 ==> 0 <= table[c] < 128) && |q.texts| == q.heads.Length && q.texts[first] == []
      ensures Valid() && queues == q && raw == first && canq == first + 1 && outq == first + 2
      ensures maptab == table && modes == m && delct == 0
    {
      queues, raw, canq, outq, maptab := q, first, first + 1, first + 2, table;
      canonb := new int[CANBSIZ](_ => 0);
      modes, delct := m, 0;
    }

    // flushtty, without the wakeups.
    method Flush()
      requires Valid()
      modifies this`delct, queues, queues.next, queues.heads
      ensures Valid() && queues.texts == old(queues.texts)[raw := []][canq := []][outq := []]
    {
      Drain(canq);
      Drain(outq);
      Drain(raw);
      delct := 0;
    }

    method Drain(i: nat)
      requires queues.Valid() && i < queues.heads.Length
      modifies queues, queues.next, queues.heads
      ensures queues.Valid() && queues.texts == old(queues.texts)[i := []]
    {
      var c := queues.Getc(i);
      while c >= 0
        invariant queues.Valid() && |queues.texts| == queues.heads.Length
        invariant queues.texts == old(queues.texts)[i := queues.texts[i]]
        invariant c < 0 ==> queues.texts[i] == []
        decreases |queues.texts[i]| + if c >= 0 then 1 else 0
      {
        c := queues.Getc(i);
      }
    }

    // A character arrives. Echo, and the signal that an interrupt or quit character sends,
    // are not modelled.
    method Input(ac: nat)
      requires Valid()
      modifies this`delct, queues, queues.next, queues.info, queues.heads
      ensures Valid()
      ensures var q := old(queues.texts[raw]);
              var w := Arriving(modes, ac);
              queues.texts == if Flushes(modes, q, ac) then old(queues.texts)[raw := []][canq := []][outq := []]
                              else old(queues.texts)[raw := q + w[..Min(|w|, old(queues.Capacity(raw)))]]
    {
      hide Delimiters;
      var c: int := ac % 128;
      if c == RETURN && modes.crmod {
        c := NEWLINE;
      }
      if !modes.raw && (c == CQUIT || c == CINTR) {
        Flush();
        return;
      }
      queues.Counted(raw);
      if queues.heads[raw].cc >= TTYHOG {
        Flush();
        return;
      }
      if modes.lcase && 65 <= c <= 90 {
        c := c + 32;
      }
      Receive(c);
    }

    // A character goes to the raw queue, and a delimiter if it ends a line.
    method Receive(c: int)
      requires Valid() && 0 <= c < 128
      modifies this`delct, queues, queues.next, queues.info, queues.heads
      ensures Valid()
      ensures var w := if modes.raw || c == NEWLINE || c == CEOT then [c, DELIM] else [c];
              queues.texts == old(queues.texts)[raw := old(queues.texts[raw])
                                                       + w[..Min(|w|, old(queues.Capacity(raw)))]]
    {
      hide Delimiters;
      PutTwo(queues.texts[raw], c, queues.Capacity(raw));
      Append(c);
      if modes.raw || c == NEWLINE || c == CEOT {
        Append(DELIM);
      }
    }

    // putc on the raw queue; a delimiter is counted when it has gone in.
    method Append(c: int)
      requires Valid() && 0 <= c < 256
      modifies this`delct, queues, queues.next, queues.info, queues.heads
      ensures Valid()
      ensures var n := old(queues.Capacity(raw));
              && queues.Capacity(raw) == Max(n - 1, 0)
              && queues.texts == if n == 0 then old(queues.texts)
                                 else old(queues.texts)[raw := old(queues.texts[raw]) + [c]]
    {
      hide Delimiters;
      DelimitersAppend(queues.texts[raw], c);
      var r := queues.Putc(c, raw);
      if r == 0 && c == DELIM {
        delct := (delct + 1) % 256;
      }
    }

    // One character of the line.
    method TypeInto(at: nat, ch: int) returns (bp: nat)
      requires Shape() && 2 <= at < CANBSIZ && 0 <= ch < 256 && forall i :: 2 <= i < at ==> 0 <= canonb[i] < 256
      modifies canonb
      ensures Shape() && 2 <= bp <= CANBSIZ && forall i :: 2 <= i < bp ==> 0 <= canonb[i] < 256
      ensures canonb[2..bp] == Type(maptab, modes, old(canonb[2..at]), ch)
    {
      var c := ch;
      bp := at;
      ghost var line := canonb[2..at];
      LastIs(canonb[..], at);
      if !modes.raw {
        if canonb[bp - 1] != BACKSLASH {
          if c == modes.erase {
            if bp > 2 {
              bp := bp - 1;
            }
            assert canonb[2..bp] == if line == [] then [] else line[..|line| - 1];
            return;
          }
          if c == modes.kill {
            bp := 2;
            return;
          }
          if c == CEOT {
            return;
          }
        } else if c < 128 && maptab[c] != 0 && (maptab[c] == c || modes.lcase) {
          if canonb[bp - 2] != BACKSLASH {
            c := maptab[c];
          }
          bp := bp - 1;
        }
      }
      assert canonb[2..bp] == line[..bp - 2];
      canonb[bp] := c;
      bp := bp + 1;
      assert canonb[2..bp] == line[..bp - 3] + [c];
    }

    // The loop of canon: the line is canonb[2..bp].
    method Edit() returns (bp: nat)
      requires Valid() && delct != 0
      modifies this`delct, queues, queues.next, queues.heads, canonb
      ensures Valid() && 2 <= bp <= CANBSIZ && forall i :: 2 <= i < bp ==> 0 <= canonb[i] < 256
      ensures queues.texts == old(queues.texts)[raw := queues.texts[raw]]
      ensures var q := old(queues.texts[raw]);
              && queues.texts[raw] == RestOf(maptab, modes, q) && canonb[2..bp] == LineOf(maptab, modes, q)
              && delct == (old(delct) - if Fits(maptab, modes, [], Typed(q)) then 1 else 0) % 256
    {
      hide Going, Delimiters, AfterLine, Typed, Edited, Fits, Type, LineOf, RestOf;
      ghost var all, cur := queues.texts[raw], queues.texts[raw];
      GoingStart(maptab, modes, all);
      bp := 2;
      assert canonb[2..bp] == [];
      var c := queues.Getc(raw);
      while c >= 0
        invariant Shape() && 2 <= bp < CANBSIZ && cur != [] && 0 <= c == cur[0] < 256
        invariant forall i :: 2 <= i < bp ==> 0 <= canonb[i] < 256
        invariant queues.texts == old(queues.texts)[raw := cur[1..]] && delct == old(delct)
        invariant Going(maptab, modes, all, cur, canonb[2..bp])
        decreases |cur|
      {
        if c == DELIM {
          GoingEnd(maptab, modes, all, cur, canonb[2..bp]);
          delct := (delct - 1) % 256;
          return;
        }
        GoingStep(maptab, modes, all, cur, canonb[2..bp]);
        bp := TypeInto(bp, c);
        cur := cur[1..];
        if bp >= CANBSIZ {
          return;
        }
        c := queues.Getc(raw);
      }
    }

    // The line typed, with erase, kill and escapes worked out, goes to the canonical queue.
    // The result is 0 when there is no whole line yet: canon sleeps, or the line is gone.
    method Canon() returns (r: int)
      requires Valid()
      modifies this`delct, queues, queues.next, queues.info, queues.heads, canonb
      ensures Valid() && (r == 0 <==> old(delct) == 0)
      ensures r == 0 ==> queues.texts == old(queues.texts)
      ensures var q := old(queues.texts[raw]);
              var line := LineOf(maptab, modes, q);
              r != 0 ==>
                && queues.texts[raw] == RestOf(maptab, modes, q)
                && delct == (old(delct) - if Fits(maptab, modes, [], Typed(q)) then 1 else 0) % 256
                && exists k :: 0 <= k <= |line| && queues.texts[canq] == old(queues.texts[canq]) + line[..k]
                               && (k < |line| ==> queues.Capacity(canq) == 0)
      ensures forall i :: 0 <= i < queues.heads.Length && i != raw && i != canq ==>
                queues.texts[i] == old(queues.texts[i])
    {
      hide Going, Delimiters, AfterLine, Typed, Edited, Fits, Type, LineOf, RestOf;
      if delct == 0 {
        return 0;
      }
      var bp := Edit();
      ghost var k := PutLine(bp, canonb[2..bp]);
      return 1;
    }

    // The line goes to the canonical queue, as far as there is room.
    method PutLine(bp: nat, ghost line: seq<int>) returns (ghost k: nat)
      requires Valid() && 2 <= bp <= CANBSIZ && canonb[2..bp] == line
      requires forall i :: 2 <= i < bp ==> 0 <= canonb[i] < 256
      modifies queues, queues.next, queues.info, queues.heads
      ensures Valid() && k <= |line|
      ensures queues.texts == old(queues.texts)[canq := old(queues.texts[canq]) + line[..k]]
      ensures k < |line| ==> queues.Capacity(canq) == 0
    {
      hide Delimiters;
      ghost var mid := queues.texts;
      var i := 2;
      k := 0;
      assert mid[canq] + line[..k] == mid[canq];
      while i < bp
        invariant 2 <= i <= bp <= CANBSIZ && Valid() && canonb[2..bp] == line && 0 <= k <= i - 2
        invariant queues.texts == mid[canq := mid[canq] + line[..k]]
        invariant k < i - 2 ==> queues.Capacity(canq) == 0
      {
        assert canonb[i] == line[i - 2];
        var c := queues.Putc(canonb[i], canq);
        if c == 0 {
          assert line[..k + 1] == line[..k] + [line[k]];
          assert mid[canq] + line[..k + 1] == mid[canq] + line[..k] + [line[k]];
          k := k + 1;
        }
        i := i + 1;
      }
    }
  }

  // What a character puts into the raw queue, when it does not empty the queues ...
  function Arriving(m: Modes, ac: nat): seq<int> {
    var c := if ac % 128 == RETURN && m.crmod then NEWLINE else ac % 128;
    var d := if m.lcase && 65 <= c <= 90 then c + 32 else c;
    if m.raw || d == NEWLINE || d == CEOT then [d, DELIM] else [d]
  }

  // The character is taken without its parity bit; a carriage return may be a newline, and a
  // capital a small letter. A delimiter follows what ends a line, in raw mode everything.
  lemma ArrivingIs(m: Modes, ac: nat)
    ensures var w := Arriving(m, ac);
            var c := ac % 128;
            && 1 <= |w| <= 2 && 0 <= w[0] < 128
            && (w[0] != c ==> (c == RETURN && m.crmod) || (65 <= c <= 90 && m.lcase))
            && (c == RETURN && m.crmod ==> w[0] == NEWLINE) && (65 <= c <= 90 && m.lcase ==> w[0] == c + 32)
            && (|w| == 2 <==> m.raw || w[0] == NEWLINE || w[0] == CEOT) && (|w| == 2 ==> w[1] == DELIM)
  {
  }

  lemma PutTwo(q: seq<int>, d: int, n: nat)
    ensures q + [d][..Min(1, n)] == if n == 0 then q else q + [d]
    ensures q + [d, DELIM][..Min(2, n)] == if n == 0 then q else if n == 1 then q + [d] else q + [d] + [DELIM]
  {
  }

  // ... as interrupt, quit and a queue that is too long do.
  predicate Flushes(m: Modes, q: seq<int>, ac: nat) {
    (!m.raw && ac % 128 in {CQUIT, CINTR}) || |q| >= TTYHOG
  }

  function Min(a: nat, b: nat): nat {
    if a <= b then a else b
  }

  function Max(a: int, b: nat): nat {
    if a <= b then b else a
  }
}
