// What a regular expression of the editor means (usr/ed.c:1170-1318). A pattern is a list
// of items. It matches a stretch of a line when the stretch can be cut into consecutive
// pieces, one for each item.
module Patterns {
  import opened Wrappers

  datatype Single = Chr(c: int) | Dot | Class(negated: bool, members: seq<int>)

  // One character, any number of characters, the end of the line, and the brackets that
  // mark what a substitution can copy.
  datatype Item = One(single: Single) | Many(single: Single) | Dol | Bra(n: nat) | Ket(n: nat)

  predicate Accepts(x: Single, c: int) {
    match x
    case Chr(d) => c == d
    case Dot => true
    case Class(negated, members) => (c in members) != negated
  }

  predicate Piece(x: Item, t: seq<int>, i: nat, j: nat) {
    && i <= j <= |t|
    && match x
       case One(y) => j == i + 1 && Accepts(y, t[i])
       case Many(y) => forall m :: i <= m < j ==> Accepts(y, t[m])
       case Dol => i == j == |t|
       case _ => i == j
  }

  // Item k matches the characters from pos[k] up to pos[k + 1].
  ghost predicate Cut(items: seq<Item>, t: seq<int>, pos: seq<nat>) {
    && |pos| == |items| + 1 && pos[0] <= |t|
    && forall k :: 0 <= k < |items| ==> Piece(items[k], t, pos[k], pos[k + 1])
  }

  // A search that continues a substitution must not let a starred item end at locs, where
  // the match before it ended.
  ghost predicate Allowed(items: seq<Item>, pos: seq<nat>, locs: Option<nat>)
    requires |pos| == |items| + 1
  {
    forall k :: 0 <= k < |items| && items[k].Many? ==> Some(pos[k + 1]) != locs
  }

  ghost predicate Match(items: seq<Item>, t: seq<int>, i: nat, locs: Option<nat>, pos: seq<nat>) {
    Cut(items, t, pos) && pos[0] == i && Allowed(items, pos, locs)
  }

  // q comes no later than p, at the first place where they differ.
  predicate NoLater(p: seq<nat>, q: seq<nat>) {
    |p| == |q| && (p == [] || p[0] > q[0] || (p[0] == q[0] && NoLater(p[1..], q[1..])))
  }

  // Of all the ways to match from i, pos is the one in which every starred item in turn
  // takes as much as it can.
  ghost predicate Greediest(items: seq<Item>, t: seq<int>, i: nat, locs: Option<nat>, pos: seq<nat>) {
    && Match(items, t, i, locs, pos)
    && forall q :: Match(items, t, i, locs, q) ==> NoLater(pos, q)
  }

  lemma {:induction false} GreediestUnique(items: seq<Item>, t: seq<int>, i: nat, locs: Option<nat>,
                                           p: seq<nat>, q: seq<nat>)
    requires Greediest(items, t, i, locs, p) && Greediest(items, t, i, locs, q)
    ensures p == q
  {
    NoLaterBoth(p, q);
  }

  lemma {:induction false} NoLaterBoth(p: seq<nat>, q: seq<nat>)
    requires NoLater(p, q) && NoLater(q, p)
    ensures p == q
  {
    if p != [] {
      NoLaterBoth(p[1..], q[1..]);
      assert p == [p[0]] + p[1..] && q == [q[0]] + q[1..];
    }
  }

  // ---- The search ----

  // The first position from i on whose character x does not accept.
  function Reach(x: Single, t: seq<int>, i: nat): (r: nat)
    requires i <= |t|
    ensures i <= r <= |t| && (r < |t| ==> !Accepts(x, t[r]))
    ensures forall m :: i <= m < r ==> Accepts(x, t[m])
    decreases |t| - i
  {
    if i < |t| && Accepts(x, t[i]) then Reach(x, t, i + 1) else i
  }

  function Prepend(i: nat, found: Option<seq<nat>>): Option<seq<nat>> {
    if found.Some? then Some([i] + found.value) else None
  }

  // Backtracking: a starred item first takes all it can, then less and less.
  function Find(items: seq<Item>, t: seq<int>, i: nat, locs: Option<nat>): Option<seq<nat>>
    requires i <= |t|
    decreases |items|, 0
  {
    if items == [] then Some([i])
    else
      Prepend(i,
        match items[0]
        case One(x) => if i < |t| && Accepts(x, t[i]) then Find(items[1..], t, i + 1, locs) else None
        case Many(x) => FindMany(items[1..], t, i, Reach(x, t, i), locs)
        case Dol => if i == |t| then Find(items[1..], t, i, locs) else None
        case _ => Find(items[1..], t, i, locs))
  }

  function FindMany(rest: seq<Item>, t: seq<int>, lo: nat, k: nat, locs: Option<nat>): Option<seq<nat>>
    requires lo <= k <= |t|
    decreases |rest|, k + 1
  {
    if locs == Some(k) then None
    else
      var r := Find(rest, t, k, locs);
      if r.Some? || k == lo then r else FindMany(rest, t, lo, k - 1, locs)
  }

  // A match of the items is a match of the first and a match of the rest.
  lemma MatchCons(items: seq<Item>, t: seq<int>, i: nat, locs: Option<nat>, pos: seq<nat>)
    requires |pos| == |items| + 1 && items != []
    ensures Match(items, t, i, locs, pos) <==>
              pos[0] == i && Piece(items[0], t, i, pos[1]) && Match(items[1..], t, pos[1], locs, pos[1..])
              && (items[0].Many? ==> Some(pos[1]) != locs)
  {
    var rest, tail := items[1..], pos[1..];
    if Match(items, t, i, locs, pos) {
      forall k | 0 <= k < |rest|
        ensures Piece(rest[k], t, tail[k], tail[k + 1]) && (rest[k].Many? ==> Some(tail[k + 1]) != locs)
      {
        assert Piece(items[k + 1], t, pos[k + 1], pos[k + 2]);
      }
    }
    if pos[0] == i && Piece(items[0], t, i, pos[1]) && Match(rest, t, pos[1], locs, tail)
       && (items[0].Many? ==> Some(pos[1]) != locs)
    {
      forall k | 0 <= k < |items|
        ensures Piece(items[k], t, pos[k], pos[k + 1]) && (items[k].Many? ==> Some(pos[k + 1]) != locs)
      {
        if k > 0 {
          assert Piece(rest[k - 1], t, tail[k - 1], tail[k]);
        }
      }
    }
  }

  lemma {:induction false} FindSound(items: seq<Item>, t: seq<int>, i: nat, locs: Option<nat>)
    requires i <= |t| && Find(items, t, i, locs).Some?
    ensures Match(items, t, i, locs, Find(items, t, i, locs).value)
    decreases |items|, 0
  {
    if items != [] {
      var pos := Find(items, t, i, locs).value;
      var tail := pos[1..];
      assert pos == [i] + tail;
      match items[0] {
        case One(x) => FindSound(items[1..], t, i + 1, locs);
        case Many(x) => FindManySound(items[1..], t, i, Reach(x, t, i), locs);
        case _ => FindSound(items[1..], t, i, locs);
      }
      MatchCons(items, t, i, locs, pos);
    }
  }

  lemma {:induction false} FindManySound(rest: seq<Item>, t: seq<int>, lo: nat, k: nat, locs: Option<nat>)
    requires lo <= k <= |t| && FindMany(rest, t, lo, k, locs).Some?
    ensures var tail := FindMany(rest, t, lo, k, locs).value;
            |tail| > 0 && lo <= tail[0] <= k && Some(tail[0]) != locs && Match(rest, t, tail[0], locs, tail)
    decreases |rest|, k + 1
  {
    if Find(rest, t, k, locs).Some? {
      FindSound(rest, t, k, locs);
    } else {
      FindManySound(rest, t, lo, k - 1, locs);
    }
  }

  // Every match is found, or one that comes before it.
  lemma {:induction false} FindComplete(items: seq<Item>, t: seq<int>, i: nat, locs: Option<nat>, q: seq<nat>)
    requires Match(items, t, i, locs, q) && (locs.Some? ==> locs.value <= i)
    ensures Find(items, t, i, locs).Some? && NoLater(Find(items, t, i, locs).value, q)
    decreases |items|, 0
  {
    if items == [] {
      assert q == [i];
    } else {
      MatchCons(items, t, i, locs, q);
      if items[0].Many? {
        var r := Reach(items[0].single, t, i);
        FindManyComplete(items[1..], t, i, r, locs, q[1..]);
      } else {
        FindComplete(items[1..], t, q[1], locs, q[1..]);
      }
      var pos := Find(items, t, i, locs).value;
      assert pos[1..] == Prepend(i, Some(pos[1..])).value[1..];
    }
  }

  lemma {:induction false} FindManyComplete(rest: seq<Item>, t: seq<int>, lo: nat, k: nat, locs: Option<nat>,
                                            q: seq<nat>)
    requires lo <= k <= |t| && (locs.Some? ==> locs.value <= lo)
    requires |q| > 0 && lo <= q[0] <= k && Some(q[0]) != locs && Match(rest, t, q[0], locs, q)
    ensures FindMany(rest, t, lo, k, locs).Some? && NoLater(FindMany(rest, t, lo, k, locs).value, q)
    decreases |rest|, k + 1
  {
    if q[0] == k {
      FindComplete(rest, t, k, locs, q);
    } else if Find(rest, t, k, locs).Some? {
      FindSound(rest, t, k, locs);
    } else {
      FindManyComplete(rest, t, lo, k - 1, locs, q);
    }
  }

  // The search finds the greediest match if there is a match at all.
  lemma FindMeaning(items: seq<Item>, t: seq<int>, i: nat, locs: Option<nat>)
    requires i <= |t| && (locs.Some? ==> locs.value <= i)
    ensures Find(items, t, i, locs).Some? <==> exists q :: Match(items, t, i, locs, q)
    ensures Find(items, t, i, locs).Some? ==> Greediest(items, t, i, locs, Find(items, t, i, locs).value)
  {
    if Find(items, t, i, locs).Some? {
      FindSound(items, t, i, locs);
    }
    forall q | Match(items, t, i, locs, q)
      ensures Find(items, t, i, locs).Some? && NoLater(Find(items, t, i, locs).value, q)
    {
      FindComplete(items, t, i, locs, q);
    }
  }
}
