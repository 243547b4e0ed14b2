// execute, advance and cclass of the editor (usr/ed.c:1170-1318): a backtracking matcher
// that works on the compiled code of a pattern.
module PatternCode {
  import opened Wrappers
  import opened Patterns

  const NBRA: nat := 5

  const CBRA := 1
  const CCHR := 2
  const CDOT := 4
  const CCL := 6
  const NCCL := 8
  const CDOL := 10
  const CEOF := 11
  const CKET := 12
  const STAR := 1

  function EncodeSingle(x: Single): (r: seq<int>)
    ensures |r| >= 1
  {
    match x
    case Chr(c) => [CCHR, c]
    case Dot => [CDOT]
    case Class(negated, members) => [if negated then NCCL else CCL, |members| + 1] + members
  }

  function Encode(x: Item): (r: seq<int>)
    ensures |r| >= 1
  {
    match x
    case One(y) => EncodeSingle(y)
    case Many(y) => [EncodeSingle(y)[0] + STAR] + EncodeSingle(y)[1..]
    case Dol => [CDOL]
    case Bra(n) => [CBRA, n]
    case Ket(n) => [CKET, n]
  }

  function EncodeAll(items: seq<Item>): seq<int> {
    if items == [] then [] else Encode(items[0]) + EncodeAll(items[1..])
  }

  // From ep on, the code is that of items and the end mark.
  ghost predicate Coded(code: seq<int>, ep: nat, items: seq<Item>)
    decreases |items|
  {
    if items == [] then ep < |code| && code[ep] == CEOF
    else
      var e := Encode(items[0]);
      ep + |e| <= |code| && code[ep..ep + |e|] == e && Coded(code, ep + |e|, items[1..])
  }

  // Text w stands at i.
  ghost predicate Stands(text: seq<int>, i: nat, w: seq<int>) {
    i + |w| <= |text| && text[i..i + |w|] == w
  }

  lemma StandsSplit(text: seq<int>, i: nat, a: seq<int>, b: seq<int>)
    requires Stands(text, i, a + b)
    ensures Stands(text, i, a) && Stands(text, i + |a|, b)
    ensures a != [] ==> text[i] == a[0]
  {
    var w := text[i..i + |a + b|];
    assert text[i..i + |a|] == w[..|a|] == a;
    assert text[i + |a|..i + |a| + |b|] == w[|a|..] == b;
    if a != [] {
      assert text[i] == w[0];
    }
  }

  lemma {:induction false} EncodeIsCoded(code: seq<int>, ep: nat, items: seq<Item>)
    requires Stands(code, ep, EncodeAll(items) + [CEOF])
    ensures Coded(code, ep, items)
    decreases |items|
  {
    hide Encode;
    if items == [] {
      StandsSplit(code, ep, [CEOF], []);
    } else {
      var e, rest := Encode(items[0]), EncodeAll(items[1..]);
      assert EncodeAll(items) + [CEOF] == e + (rest + [CEOF]);
      StandsSplit(code, ep, e, rest + [CEOF]);
      hide EncodeAll;
      EncodeIsCoded(code, ep + |e|, items[1..]);
    }
  }

  ghost predicate GoodItem(x: Item) {
    match x
    case One(y) => y != Chr(0)
    case Many(y) => y != Chr(0)
    case Dol => true
    case Bra(n) => n < NBRA
    case Ket(n) => n < NBRA
  }

  // No zero bytes, and each bracket occurs once.
  ghost predicate WellFormed(items: seq<Item>) {
    && (forall k :: 0 <= k < |items| ==> GoodItem(items[k]))
    && forall i, j :: 0 <= i < j < |items| && (items[i].Bra? || items[i].Ket?) ==> items[i] != items[j]
  }

  // The brackets hold the places that pos gives to the items.
  ghost predicate Captured(items: seq<Item>, pos: seq<nat>, bras: seq<nat>, kets: seq<nat>) {
    && |bras| == |kets| == NBRA
    && forall k :: 0 <= k < |items| && k < |pos| ==>
         && (items[k].Bra? && items[k].n < NBRA ==> bras[items[k].n] == pos[k])
         && (items[k].Ket? && items[k].n < NBRA ==> kets[items[k].n] == pos[k])
  }

  // Only the brackets of these items have moved.
  ghost predicate Untouched(items: seq<Item>, was: seq<nat>, now: seq<nat>, wasKets: seq<nat>, nowKets: seq<nat>) {
    && |was| == |now| == |wasKets| == |nowKets| == NBRA
    && forall n: nat :: n < NBRA ==>
         && (Bra(n) !in items ==> now[n] == was[n])
         && (Ket(n) !in items ==> nowKets[n] == wasKets[n])
  }
}

module Matcher {
  import opened Wrappers
  import opened Patterns
  import opened PatternCode

  ghost predicate NoZero(t: seq<int>) {
    forall k :: 0 <= k < |t| ==> t[k] != 0
  }

  // A set: its size and one, and its members.
  ghost predicate SetAt(code: seq<int>, aset: nat, members: seq<int>) {
    && aset + 1 + |members| <= |code|
    && code[aset] == |members| + 1 && code[aset + 1..aset + 1 + |members|] == members
  }

  // The code of one character's item, with or without the star.
  ghost predicate CodeAt(code: seq<int>, ep: nat, x: Single, star: int) {
    && ep + |EncodeSingle(x)| <= |code|
    && code[ep..ep + |EncodeSingle(x)|] == [EncodeSingle(x)[0] + star] + EncodeSingle(x)[1..]
  }

  lemma CodeParts(code: seq<int>, ep: nat, x: Single, star: int)
    requires CodeAt(code, ep, x, star)
    ensures code[ep] == EncodeSingle(x)[0] + star
    ensures x.Chr? ==> ep + 1 < |code| && code[ep + 1] == x.c
    ensures x.Class? ==> SetAt(code, ep + 1, x.members)
  {
    var e := EncodeSingle(x);
    var c := code[ep..ep + |e|];
    assert code[ep] == c[0];
    match x {
      case Chr(d) => assert code[ep + 1] == c[1];
      case Dot =>
      case Class(negated, members) =>
        assert code[ep + 1] == c[1];
        assert code[ep + 2..ep + 2 + |members|] == c[2..] == e[2..] == members;
    }
  }

  function Joined(trail: seq<nat>, found: Option<seq<nat>>): Option<seq<nat>> {
    if found.Some? then Some(trail + found.value) else None
  }

  lemma JoinedNothing(found: Option<seq<nat>>)
    ensures Joined([], found) == found
  {
    if found.Some? {
      assert [] + found.value == found.value;
    }
  }

  lemma JoinedPrepend(trail: seq<nat>, i: nat, found: Option<seq<nat>>)
    ensures Joined(trail, Prepend(i, found)) == Joined(trail + [i], found)
  {
    if found.Some? {
      assert trail + ([i] + found.value) == trail + [i] + found.value;
    }
  }

  lemma OpcodeOf(code: seq<int>, ep: nat, items: seq<Item>)
    requires Coded(code, ep, items)
    ensures ep < |code| && (code[ep] == CEOF <==> items == [])
    ensures items != [] ==>
              && (items[0].Many? <==> code[ep] in {CDOT + STAR, CCHR + STAR, CCL + STAR, NCCL + STAR})
              && (items[0].Many? ==> CodeAt(code, ep, items[0].single, STAR))
              && ep + |Encode(items[0])| <= |code| && code[ep..ep + |Encode(items[0])|] == Encode(items[0])
              && Coded(code, ep + |Encode(items[0])|, items[1..])
              && (items[0].Many? ==> |Encode(items[0])| == |EncodeSingle(items[0].single)|)
  {
    if items != [] {
      var e := Encode(items[0]);
      assert code[ep] == code[ep..ep + |e|][0];
    }
  }

  lemma FindStep(items: seq<Item>, t: seq<int>, i: nat, locs: Option<nat>)
    requires i <= |t| && items != []
    ensures Find(items, t, i, locs) ==
              Prepend(i,
                match items[0]
                case One(x) => if i < |t| && Accepts(x, t[i]) then Find(items[1..], t, i + 1, locs) else None
                case Many(x) => FindMany(items[1..], t, i, Reach(x, t, i), locs)
                case Dol => if i == |t| then Find(items[1..], t, i, locs) else None
                case _ => Find(items[1..], t, i, locs))
  {
  }

  lemma FindManyStep(rest: seq<Item>, t: seq<int>, lo: nat, k: nat, locs: Option<nat>)
    requires lo <= k <= |t|
    ensures FindMany(rest, t, lo, k, locs) ==
              if locs == Some(k) then None
              else if Find(rest, t, k, locs).Some? || k == lo then Find(rest, t, k, locs)
              else FindMany(rest, t, lo, k - 1, locs)
  {
  }

  // A plain item moves at most its own bracket.
  lemma PlainMoves(items: seq<Item>, trail: seq<nat>, i: nat, b0: seq<nat>, k0: seq<nat>,
                   b1: seq<nat>, k1: seq<nat>, b2: seq<nat>, k2: seq<nat>)
    requires WellFormed(items) && |trail| < |items| && GoodItem(items[|trail|])
    requires Captured(items, trail, b1, k1) && Untouched(items, b0, b1, k0, k1)
    requires var x := items[|trail|];
             && b2 == (if x.Bra? then b1[x.n := i] else b1) && k2 == (if x.Ket? then k1[x.n := i] else k1)
    ensures Captured(items, trail + [i], b2, k2) && Untouched(items, b0, b2, k0, k2)
  {
    var x := items[|trail|];
    var pos := trail + [i];
    forall k | 0 <= k < |items| && k < |pos|
      ensures items[k].Bra? && items[k].n < NBRA ==> b2[items[k].n] == pos[k]
      ensures items[k].Ket? && items[k].n < NBRA ==> k2[items[k].n] == pos[k]
    {
      if k < |trail| {
        assert items[k].Bra? || items[k].Ket? ==> items[k] != x;
      }
    }
  }

  lemma SuffixWellFormed(items: seq<Item>, k: nat)
    requires WellFormed(items) && k < |items|
    ensures WellFormed(items[k + 1..]) && GoodItem(items[k])
    ensures forall x :: x in items[k + 1..] ==> x in items
    ensures items[k..][1..] == items[k + 1..]
    ensures items[k].Bra? || items[k].Ket? ==> items[k] !in items[..k]
    ensures forall i :: 0 <= i < k && (items[i].Bra? || items[i].Ket?) ==> items[i] !in items[k..]
  {
  }

  // A match is put together from the trail so far and the match of what follows a star.
  lemma Compose(items: seq<Item>, trail: seq<nat>, at: nat, tail: seq<nat>,
                bras: seq<nat>, kets: seq<nat>, bras': seq<nat>, kets': seq<nat>)
    requires WellFormed(items) && |trail| < |items| && items[|trail|].Many?
    requires Captured(items, trail, bras, kets)
    requires Untouched(items[|trail| + 1..], bras, bras', kets, kets')
    requires |tail| == |items| - |trail| && Captured(items[|trail| + 1..], tail, bras', kets')
    ensures Captured(items, trail + ([at] + tail), bras', kets')
  {
    var n := |trail|;
    var rest := items[n + 1..];
    var pos := trail + ([at] + tail);
    SuffixWellFormed(items, n);
    forall k | 0 <= k < |items|
      ensures items[k].Bra? && items[k].n < NBRA ==> bras'[items[k].n] == pos[k]
      ensures items[k].Ket? && items[k].n < NBRA ==> kets'[items[k].n] == pos[k]
    {
      if k < n {
        assert items[k].Bra? || items[k].Ket? ==> items[k] !in rest;
      } else if k > n {
        assert items[k] == rest[k - n - 1] && pos[k] == tail[k - n - 1];
      }
    }
  }

  // Other brackets' places stay when those of a part of the items have moved.
  lemma UntouchedTrans(items: seq<Item>, part: seq<Item>, b0: seq<nat>, k0: seq<nat>,
                       b1: seq<nat>, k1: seq<nat>, b2: seq<nat>, k2: seq<nat>)
    requires Untouched(items, b0, b1, k0, k1) && Untouched(part, b1, b2, k1, k2)
    requires forall x :: x in part ==> x in items
    ensures Untouched(items, b0, b2, k0, k2)
  {
  }

  lemma Start(items: seq<Item>, bras: seq<nat>, kets: seq<nat>)
    requires |bras| == |kets| == NBRA
    ensures Captured(items, [], bras, kets) && Untouched(items, bras, bras, kets, kets)
  {
  }

  lemma Whole(items: seq<Item>, trail: seq<nat>, i: nat, t: seq<int>, locs: Option<nat>,
              bras: seq<nat>, kets: seq<nat>)
    requires |trail| == |items| && i <= |t| && Captured(items, trail, bras, kets)
    ensures Joined(trail, Find([], t, i, locs)) == Some(trail + [i]) && Captured(items, trail + [i], bras, kets)
  {
  }

  // What the search comes to at a starred item ...
  lemma StarNext(items: seq<Item>, trail: seq<nat>, rest: seq<Item>, t: seq<int>, start: nat, i: nat,
                 locs: Option<nat>)
    requires start <= |t| && i <= |t| && rest != [] && rest[0].Many?
    requires Find(items, t, start, locs) == Joined(trail, Find(rest, t, i, locs))
    ensures var r := FindMany(rest[1..], t, i, Reach(rest[0].single, t, i), locs);
            && (Find(items, t, start, locs).Some? <==> r.Some?)
            && (r.Some? ==> Find(items, t, start, locs).value == trail + ([i] + r.value))
  {
    FindStep(rest, t, i, locs);
  }

  // ... and at another one.
  lemma PlainNext(items: seq<Item>, trail: seq<nat>, rest: seq<Item>, t: seq<int>, start: nat, i: nat,
                  good: bool, locs: Option<nat>)
    requires start <= |t| && i <= |t| && rest != [] && !rest[0].Many?
    requires Find(items, t, start, locs) == Joined(trail, Find(rest, t, i, locs))
    requires good <==> match rest[0]
                       case One(y) => i < |t| && Accepts(y, t[i])
                       case Dol => i == |t|
                       case _ => true
    ensures !good ==> Find(items, t, start, locs) == None
    ensures good ==> Find(items, t, start, locs)
                     == Joined(trail + [i], Find(rest[1..], t, if rest[0].One? then i + 1 else i, locs))
  {
    hide Find, Accepts;
    FindStep(rest, t, i, locs);
    if good {
      JoinedPrepend(trail, i, Find(rest[1..], t, if rest[0].One? then i + 1 else i, locs));
    }
  }

  // linebuf holds a line and a zero byte; pointers into it are offsets.
  class Matcher {
    var linebuf: seq<int>
    var expbuf: seq<int>
    var circfl: bool
    var loc1: nat
    var loc2: nat
    var locs: Option<nat>
    var braslist: seq<nat>
    var braelist: seq<nat>

    constructor (code: seq<int>, circumflex: bool)
      ensures expbuf == code && circfl == circumflex && |braslist| == |braelist| == NBRA
    {
      expbuf, circfl := code, circumflex;
      linebuf, loc1, loc2, locs := [0], 0, 0, None;
      braslist, braelist := [0, 0, 0, 0, 0], [0, 0, 0, 0, 0];
    }

    ghost predicate Ready(t: seq<int>)
      reads this
    {
      linebuf == t + [0] && NoZero(t) && |braslist| == |braelist| == NBRA
    }

    // Whether the set at expbuf[aset..] has the character; never, for the zero byte.
    method Cclass(aset: nat, ac: int, af: bool, ghost members: seq<int>) returns (r: bool)
      requires SetAt(expbuf, aset, members)
      ensures r <==> ac != 0 && Accepts(Class(!af, members), ac)
    {
      if ac == 0 {
        return false;
      }
      var n := expbuf[aset];
      var member := aset + 1;
      n := n - 1;
      while n != 0
        invariant 0 <= n <= |members| && member + n == aset + 1 + |members|
        invariant ac !in members[..member - aset - 1]
        decreases n
      {
        assert expbuf[member] == members[member - aset - 1];
        assert members[..member - aset] == members[..member - aset - 1] + [members[member - aset - 1]];
        if expbuf[member] == ac {
          return af;
        }
        member, n := member + 1, n - 1;
      }
      assert members[..|members|] == members;
      return !af;
    }

    // Skips what a starred item accepts; the result is one past the first character that
    // it does not accept, which may be the zero byte.
    method Skip(start: nat, ep: nat, ghost x: Single, ghost t: seq<int>) returns (lp: nat, next: nat)
      requires Ready(t) && start <= |t| && x != Chr(0)
      requires CodeAt(expbuf, ep, x, STAR)
      ensures lp == Reach(x, t, start) + 1 && next == ep + |EncodeSingle(x)|
    {
      CodeParts(expbuf, ep, x, STAR);
      lp := start;
      if expbuf[ep] == CDOT + STAR {
        while linebuf[lp] != 0
          invariant start <= lp <= |t| && Reach(x, t, start) == Reach(x, t, lp)
          decreases |t| - lp
        {
          lp := lp + 1;
        }
        return lp + 1, ep + 1;
      } else if expbuf[ep] == CCHR + STAR {
        while linebuf[lp] == expbuf[ep + 1]
          invariant start <= lp <= |t| && Reach(x, t, start) == Reach(x, t, lp)
          decreases |t| - lp
        {
          lp := lp + 1;
        }
        return lp + 1, ep + 2;
      } else {
        lp := SkipSet(start, ep + 1, expbuf[ep] == CCL + STAR, x, t);
        return lp, ep + 1 + expbuf[ep + 1];
      }
    }

    method SkipSet(start: nat, aset: nat, af: bool, ghost x: Single, ghost t: seq<int>) returns (lp: nat)
      requires Ready(t) && start <= |t| && x.Class? && af == !x.negated
      requires SetAt(expbuf, aset, x.members)
      ensures lp == Reach(x, t, start) + 1
    {
      lp := start;
      var more := Cclass(aset, linebuf[lp], af, x.members);
      while more
        invariant start <= lp <= |t| && Reach(x, t, start) == Reach(x, t, lp)
        invariant more <==> linebuf[lp] != 0 && Accepts(x, linebuf[lp])
        decreases |t| - lp
      {
        lp := lp + 1;
        more := Cclass(aset, linebuf[lp], af, x.members);
      }
      return lp + 1;
    }

    // One item without a star: whether it matches at lp, and what comes next.
    method Plain(at: nat, code: nat, ghost x: Item, ghost t: seq<int>) returns (good: bool, lp: nat, ep: nat)
      requires Ready(t) && at <= |t| && !x.Many? && GoodItem(x)
      requires code + |Encode(x)| <= |expbuf| && expbuf[code..code + |Encode(x)|] == Encode(x)
      modifies this`braslist, this`braelist
      ensures good <==> match x
                        case One(y) => at < |t| && Accepts(y, t[at])
                        case Dol => at == |t|
                        case _ => true
      ensures good ==> lp == (if x.One? then at + 1 else at) && ep == code + |Encode(x)|
      ensures braslist == if x.Bra? then old(braslist)[x.n := at] else old(braslist)
      ensures braelist == if x.Ket? then old(braelist)[x.n := at] else old(braelist)
    {
      ghost var e := Encode(x);
      var op := expbuf[code];
      assert op == e[0];
      if x.One? {
        assert e == [e[0] + 0] + e[1..];
        CodeParts(expbuf, code, x.single, 0);
      }
      if op == CCHR {
        return expbuf[code + 1] == linebuf[at], at + 1, code + 2;
      } else if op == CDOT {
        return linebuf[at] != 0, at + 1, code + 1;
      } else if op == CDOL {
        return linebuf[at] == 0, at, code + 1;
      } else if op == CCL || op == NCCL {
        good := Cclass(code + 1, linebuf[at], op == CCL, x.single.members);
        return good, at + 1, code + 1 + expbuf[code + 1];
      } else {
        assert expbuf[code + 1] == e[1];
        if op == CBRA {
          braslist := braslist[expbuf[code + 1] := at];
        } else {
          braelist := braelist[expbuf[code + 1] := at];
        }
        return true, at, code + 2;
      }
    }

    // Tries the rest of the pattern from one before lp down to curlp.
    method Star(curlp: nat, end: nat, ep: nat, ghost rest: seq<Item>, ghost t: seq<int>) returns (ok: bool)
      requires Ready(t) && curlp < end <= |t| + 1 && Coded(expbuf, ep, rest) && WellFormed(rest)
      modifies this`loc2, this`braslist, this`braelist
      ensures Untouched(rest, old(braslist), braslist, old(braelist), braelist)
      ensures ok <==> FindMany(rest, t, curlp, end - 1, locs).Some?
      ensures ok ==> Ended(rest, FindMany(rest, t, curlp, end - 1, locs).value)
      decreases |rest|, 2
    {
      hide Coded, WellFormed, Captured, Untouched, Find, FindMany, NoZero;
      var lp := end;
      Start(rest, braslist, braelist);
      while true
        invariant curlp < lp <= end
        invariant Ready(t) && Untouched(rest, old(braslist), braslist, old(braelist), braelist)
        invariant FindMany(rest, t, curlp, end - 1, locs) == FindMany(rest, t, curlp, lp - 1, locs)
        decreases lp
      {
        lp := lp - 1;
        FindManyStep(rest, t, curlp, lp, locs);
        if Some(lp) == locs {
          return false;
        }
        ghost var bras, kets := braslist, braelist;
        ok := Advance(lp, ep, rest, t);
        UntouchedTrans(rest, rest, old(braslist), old(braelist), bras, kets, braslist, braelist);
        if ok {
          return true;
        }
        if lp <= curlp {
          return false;
        }
      }
    }

    // loc2 and the brackets describe the match pos.
    ghost predicate Ended(items: seq<Item>, pos: seq<nat>)
      reads this
    {
      |pos| == |items| + 1 && loc2 == pos[|items|] && Captured(items, pos, braslist, braelist)
    }

    // The items of trail are matched, from alp up to lp; the code of rest is at ep.
    ghost predicate Reached(items: seq<Item>, t: seq<int>, alp: nat, lp: nat, ep: nat, trail: seq<nat>,
                            rest: seq<Item>, bras: seq<nat>, kets: seq<nat>)
      reads this
    {
      && Ready(t) && alp <= |t| && lp <= |t| && Coded(expbuf, ep, rest) && WellFormed(items)
      && |trail| + |rest| == |items| && rest == items[|trail|..]
      && Find(items, t, alp, locs) == Joined(trail, Find(rest, t, lp, locs))
      && Untouched(items, bras, braslist, kets, braelist) && Captured(items, trail, braslist, braelist)
    }

    // The next item has a star: the rest of the pattern ends the search.
    method StarItem(at: nat, code: nat, ghost items: seq<Item>, ghost t: seq<int>, ghost alp: nat,
                    ghost trail: seq<nat>, ghost rest: seq<Item>, ghost b0: seq<nat>, ghost k0: seq<nat>)
      returns (ok: bool)
      requires Reached(items, t, alp, at, code, trail, rest, b0, k0) && rest != [] && rest[0].Many?
      modifies this`loc2, this`braslist, this`braelist
      ensures Untouched(items, b0, braslist, k0, braelist)
      ensures ok <==> Find(items, t, alp, locs).Some?
      ensures ok ==> Ended(items, Find(items, t, alp, locs).value)
      decreases |rest|, 0
    {
      hide Encode, EncodeSingle, Coded, WellFormed, Captured, Untouched, Find, FindMany, GoodItem, NoZero, Reach,
           Joined, Prepend, Accepts;
      ghost var bras, kets, x := braslist, braelist, rest[0];
      OpcodeOf(expbuf, code, rest);
      SuffixWellFormed(items, |trail|);
      StarNext(items, trail, rest, t, alp, at, locs);
      var lp, ep := Skip(at, code, x.single, t);
      ok := Star(at, lp, ep, rest[1..], t);
      if ok {
        Compose(items, trail, at, FindMany(rest[1..], t, at, lp - 1, locs).value, bras, kets, braslist, braelist);
      }
      UntouchedTrans(items, rest[1..], b0, k0, bras, kets, braslist, braelist);
    }

    // The next item has none: it matches, or the search ends.
    method PlainItem(at: nat, code: nat, ghost items: seq<Item>, ghost t: seq<int>, ghost alp: nat,
                     ghost trail: seq<nat>, ghost rest: seq<Item>, ghost b0: seq<nat>, ghost k0: seq<nat>)
      returns (good: bool, lp: nat, ep: nat)
      requires Reached(items, t, alp, at, code, trail, rest, b0, k0) && rest != [] && !rest[0].Many?
      modifies this`braslist, this`braelist
      ensures good ==> Reached(items, t, alp, lp, ep, trail + [at], rest[1..], b0, k0)
      ensures !good ==> Find(items, t, alp, locs) == None && Untouched(items, b0, braslist, k0, braelist)
    {
      hide Encode, EncodeSingle, Coded, WellFormed, Captured, Untouched, Find, FindMany, GoodItem, NoZero, Reach,
           Joined, Prepend, Accepts;
      ghost var bras, kets := braslist, braelist;
      OpcodeOf(expbuf, code, rest);
      SuffixWellFormed(items, |trail|);
      good, lp, ep := Plain(at, code, rest[0], t);
      PlainMoves(items, trail, at, b0, k0, bras, kets, braslist, braelist);
      PlainNext(items, trail, rest, t, alp, at, good, locs);
    }

    // Matches from alp with the code at aep.
    method Advance(alp: nat, aep: nat, ghost items: seq<Item>, ghost t: seq<int>) returns (ok: bool)
      requires Ready(t) && alp <= |t| && Coded(expbuf, aep, items) && WellFormed(items)
      modifies this`loc2, this`braslist, this`braelist
      ensures Untouched(items, old(braslist), braslist, old(braelist), braelist)
      ensures ok <==> Find(items, t, alp, locs).Some?
      ensures ok ==> Ended(items, Find(items, t, alp, locs).value)
      decreases |items|, 1
    {
      hide Encode, EncodeSingle, Coded, WellFormed, Captured, Untouched, Find, FindMany, NoZero, Joined;
      var lp: nat, ep: nat := alp, aep;
      ghost var rest, trail: seq<nat> := items, [];
      JoinedNothing(Find(items, t, alp, locs));
      Start(items, braslist, braelist);
      while true
        invariant Reached(items, t, alp, lp, ep, trail, rest, old(braslist), old(braelist))
        decreases |rest|
      {
        OpcodeOf(expbuf, ep, rest);
        var op := expbuf[ep];
        if op == CEOF {
          loc2 := lp;
          Whole(items, trail, lp, t, locs, braslist, braelist);
          return true;
        }
        if op == CDOT + STAR || op == CCHR + STAR || op == CCL + STAR || op == NCCL + STAR {
          ok := StarItem(lp, ep, items, t, alp, trail, rest, old(braslist), old(braelist));
          return;
        }
        ghost var was: nat := lp;
        var good;
        good, lp, ep := PlainItem(lp, ep, items, t, alp, trail, rest, old(braslist), old(braelist));
        if !good {
          return false;
        }
        trail, rest := trail + [was], rest[1..];
      }
    }

    // loc1 is the first place from start on where a match starts.
    ghost predicate First(items: seq<Item>, t: seq<int>, start: nat, ok: bool)
      reads this
    {
      if ok then
        && start <= loc1 <= |t| && Find(items, t, loc1, locs).Some?
        && Ended(items, Find(items, t, loc1, locs).value)
        && forall i: nat :: start <= i < loc1 ==> Find(items, t, i, locs) == None
      else forall i: nat :: start <= i <= |t| ==> Find(items, t, i, locs) == None
    }

    // The search for a pattern that starts with character c: only where c is.
    method ScanFor(start: nat, c: int, ghost items: seq<Item>, ghost t: seq<int>) returns (ok: bool)
      requires Ready(t) && start <= |t| && Coded(expbuf, 0, items) && WellFormed(items)
      requires items != [] && items[0] == One(Chr(c))
      modifies this`loc1, this`loc2, this`braslist, this`braelist
      ensures Ready(t) && First(items, t, start, ok)
    {
      hide Coded, WellFormed, Captured;
      var p1: nat := start;
      while true
        invariant start <= p1 <= |t| && Ready(t)
        invariant forall i: nat :: start <= i < p1 ==> Find(items, t, i, locs) == None
        decreases |t| - p1
      {
        if linebuf[p1] == c {
          ok := Advance(p1, 0, items, t);
          if ok {
            loc1 := p1;
            return;
          }
        }
        if linebuf[p1] == 0 {
          return false;
        }
        p1 := p1 + 1;
      }
    }

    method Scan(start: nat, ghost items: seq<Item>, ghost t: seq<int>) returns (ok: bool)
      requires Ready(t) && start <= |t| && Coded(expbuf, 0, items) && WellFormed(items)
      modifies this`loc1, this`loc2, this`braslist, this`braelist
      ensures Ready(t) && First(items, t, start, ok)
    {
      hide Coded, WellFormed, Find, Captured;
      var p1: nat := start;
      while true
        invariant start <= p1 <= |t| && Ready(t)
        invariant forall i: nat :: start <= i < p1 ==> Find(items, t, i, locs) == None
        decreases |t| - p1
      {
        ok := Advance(p1, 0, items, t);
        if ok {
          loc1 := p1;
          return;
        }
        if linebuf[p1] == 0 {
          return false;
        }
        p1 := p1 + 1;
      }
    }

    // Searches line, or, when gf, what follows loc2 in the line of the last match. A zero
    // address has no line.
    method Execute(gf: bool, addressed: bool, line: seq<int>, ghost items: seq<Item>, ghost t: seq<int>)
      returns (ok: bool)
      requires line == t + [0] && NoZero(t) && |braslist| == |braelist| == NBRA
      requires gf ==> linebuf == line && loc2 <= |t|
      requires Coded(expbuf, 0, items) && WellFormed(items)
      modifies this`linebuf, this`loc1, this`loc2, this`locs, this`braslist, this`braelist
      ensures ok <==> Searched(gf, addressed) && exists i: nat, pos ::
                Candidate(t, gf, old(loc2), i) && Match(items, t, i, Resumed(gf, old(loc2)), pos)
      ensures ok ==> Ready(t) && locs == Resumed(gf, old(loc2)) && Candidate(t, gf, old(loc2), loc1)
      ensures ok ==> exists pos :: Greediest(items, t, loc1, Resumed(gf, old(loc2)), pos) && Ended(items, pos)
      ensures ok ==> forall i: nat, pos :: Match(items, t, i, Resumed(gf, old(loc2)), pos) ==>
                i >= loc1 || !Candidate(t, gf, old(loc2), i)
    {
      hide Coded, WellFormed, Match, Greediest, Find, Captured;
      var p1: nat := 0;
      if gf {
        if circfl {
          return false;
        }
        locs, p1 := Some(loc2), loc2;
      } else {
        if !addressed {
          return false;
        }
        linebuf, locs := line, None;
      }
      ghost var from := locs;
      assert from == Resumed(gf, old(loc2));
      FindMeanings(items, t, from, p1);
      if circfl {
        loc1 := p1;
        ok := Advance(p1, 0, items, t);
        assert p1 == 0 && Candidate(t, gf, old(loc2), 0);
        assert ok <==> exists q :: Match(items, t, 0, from, q);
        return;
      }
      OpcodeOf(expbuf, 0, items);
      if expbuf[0] == CCHR {
        FirstChr(expbuf, items);
        var c := expbuf[1];
        ok := ScanFor(p1, c, items, t);
      } else {
        ok := Scan(p1, items, t);
      }
      assert First(items, t, p1, ok);
      assert forall i: nat :: p1 <= i <= |t| && (!ok || i < loc1) ==> Find(items, t, i, locs).None?;
      forall i: nat, pos | Match(items, t, i, from, pos) && Candidate(t, gf, old(loc2), i)
        ensures ok && i >= loc1
      {
        assert Find(items, t, i, locs).Some?;
      }
    }

    // Where a match may start.
    predicate Candidate(t: seq<int>, gf: bool, last: nat, i: nat)
      reads this`circfl
    {
      (if gf then last else 0) <= i <= |t| && (circfl ==> i == 0)
    }

    predicate Searched(gf: bool, addressed: bool)
      reads this`circfl
    {
      if gf then !circfl else addressed
    }
  }

  function Resumed(gf: bool, last: nat): Option<nat> {
    if gf then Some(last) else None
  }

  lemma FirstChr(code: seq<int>, items: seq<Item>)
    requires Coded(code, 0, items) && code[0] == CCHR
    ensures items != [] && |code| > 1 && items[0] == One(Chr(code[1]))
  {
    OpcodeOf(code, 0, items);
    var e := Encode(items[0]);
    assert code[0] == code[0..|e|][0] == e[0];
    FirstOpcode(items[0]);
    assert code[1] == code[0..|e|][1];
  }

  // Only a plain character has its code in front.
  lemma FirstOpcode(x: Item)
    requires Encode(x)[0] == CCHR
    ensures x.One? && x.single.Chr? && Encode(x) == [CCHR, x.single.c]
  {
  }

  lemma FindMeanings(items: seq<Item>, t: seq<int>, locs: Option<nat>, start: nat)
    requires start <= |t| && (locs.Some? ==> locs.value <= start)
    ensures forall i: nat :: start <= i <= |t| ==>
              (Find(items, t, i, locs).Some? <==> exists q :: Match(items, t, i, locs, q))
    ensures forall i: nat :: start <= i <= |t| && Find(items, t, i, locs).Some? ==>
              Greediest(items, t, i, locs, Find(items, t, i, locs).value)
  {
    hide Match, Greediest;
    forall i: nat | start <= i <= |t|
      ensures Find(items, t, i, locs).Some? <==> exists q :: Match(items, t, i, locs, q)
      ensures Find(items, t, i, locs).Some? ==> Greediest(items, t, i, locs, Find(items, t, i, locs).value)
    {
      FindMeaning(items, t, i, locs);
    }
  }
}
