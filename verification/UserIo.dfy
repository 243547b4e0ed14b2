// The user structure's I/O fields and the routines that move bytes between a buffer and
// the area u_base points into: passc and cpass (ken/subr.c) and iomove (ken/rdwri.c).
module UserIo {
  import opened Machine

  const BUFFER_SIZE := 514   // buffers[NBUF][514]: one word more than a block

  // s with chunk written over the bytes from position at.
  function Splice(s: seq<Byte>, at: nat, chunk: seq<Byte>): seq<Byte>
    requires at + |chunk| <= |s|
  {
    s[..at] + chunk + s[at + |chunk|..]
  }

  class User {
    var base: nat             // u_base
    var count: nat            // u_count
    var offset: Offset        // u_offset
    var kernel: bool          // u_segflg
    var error: nat            // u_error
    const area: array<Byte>   // what u_base points into

    constructor (memory: array<Byte>)
      ensures area == memory && error == 0 && count == 0 && offset == 0
    {
      base, count, offset, kernel, error := 0, 0, 0, false, 0;
      area := memory;
    }

    ghost predicate InArea()
      reads this
    {
      base + count <= area.Length
    }

    // The pointers have advanced over n bytes.
    twostate predicate Advanced(n: nat)
      reads this
    {
      && base == old(base) + n && count == old(count) - n
      && offset == Dpadd(old(offset), n) && kernel == old(kernel) && error == old(error)
    }

    // Hand one byte to the user; -1 on the last byte of the read.
    method Passc(c: Byte) returns (r: int)
      requires InArea() && count > 0
      modifies this, area
      ensures InArea() && Advanced(1)
      ensures area[old(base)] == c
      ensures forall k :: 0 <= k < area.Length && k != old(base) ==> area[k] == old(area[k])
      ensures r == if count == 0 then -1 else 0
    {
      area[base] := c;
      count := count - 1;
      offset := Dpadd(offset, 1);
      base := base + 1;
      r := if count == 0 then -1 else 0;
    }

    // The next byte of the user's write; -1 when u_count is exhausted.
    method Cpass() returns (r: int)
      requires InArea()
      modifies this
      ensures InArea()
      ensures old(count) == 0 ==> r == -1 && Advanced(0)
      ensures old(count) > 0 ==> r == area[old(base)] && Advanced(1)
    {
      if count == 0 {
        return -1;
      }
      r := area[base];
      count := count - 1;
      offset := Dpadd(offset, 1);
      base := base + 1;
    }

    // The machine-language copies, for even addresses and counts.
    method CopyWords(buf: seq<Byte>, o: nat, n: nat, write: bool) returns (out: seq<Byte>)
      requires InArea() && n <= count && o + n <= |buf|
      modifies this, area
      ensures InArea() && Advanced(n)
      ensures write ==> out == Splice(buf, o, old(area[..])[old(base)..base]) && area[..] == old(area[..])
      ensures !write ==> out == buf && area[..] == Splice(old(area[..]), old(base), buf[o..o + n])
    {
      out := buf;
      if write {
        out := Splice(buf, o, area[..][base..base + n]);
      } else {
        forall k | 0 <= k < n { area[base + k] := buf[o + k]; }
      }
      base := base + n;
      offset := Dpadd(offset, n);
      count := count - n;
    }

    method BytesIn(buf: seq<Byte>, o: nat, n: nat) returns (out: seq<Byte>)
      requires InArea() && n <= count && o + n <= |buf|
      modifies this
      ensures InArea() && Advanced(n)
      ensures out == Splice(buf, o, area[..][old(base)..base])
    {
      hide Dpadd;
      out := buf;
      ghost var start, off := base, offset;
      DpaddZero(off);
      var i := 0;
      while i < n
        invariant 0 <= i <= n && InArea() && Advanced(i)
        invariant |out| == |buf| && forall k :: 0 <= k < |buf| ==>
                    out[k] == if o <= k < o + i then area[start + (k - o)] else buf[k]
      {
        var t := Cpass();
        if t < 0 {
          break;
        }
        out := out[o + i := t];
        DpaddNext(off, i);
        i := i + 1;
      }
      assert out == Splice(buf, o, area[..][start..base]);
    }

    method BytesOut(buf: seq<Byte>, o: nat, n: nat)
      requires InArea() && n <= count && o + n <= |buf|
      modifies this, area
      ensures InArea() && Advanced(n)
      ensures area[..] == Splice(old(area[..]), old(base), buf[o..o + n])
    {
      hide Dpadd;
      ghost var was, start, off := area[..], base, offset;
      DpaddZero(off);
      var i := 0;
      while i < n
        invariant 0 <= i <= n && InArea() && Advanced(i)
        invariant forall k :: 0 <= k < area.Length ==>
                    area[k] == if start <= k < start + i then buf[o + (k - start)] else was[k]
      {
        var t := Passc(buf[o + i]);
        DpaddNext(off, i);
        i := i + 1;
        if t < 0 {
          break;
        }
      }
      assert area[..] == Splice(was, start, buf[o..o + n]);
    }

    // Move n bytes between buf (from byte o) and the user's area; oddBuffers says whether
    // the buffers lie at odd addresses. Both algorithms have the same effect.
    method Iomove(buf: seq<Byte>, o: nat, n: nat, write: bool, oddBuffers: bool)
      returns (out: seq<Byte>)
      requires InArea() && n <= count && o + n <= |buf|
      modifies this, area
      ensures InArea() && Advanced(n)
      ensures write ==> out == Splice(buf, o, old(area[..])[old(base)..base]) && area[..] == old(area[..])
      ensures !write ==> out == buf && area[..] == Splice(old(area[..]), old(base), buf[o..o + n])
    {
      hide Dpadd;
      var even := n % 2 == 0 && (o + if oddBuffers then 1 else 0) % 2 == 0 && base % 2 == 0;
      if !kernel && even {
        out := CopyWords(buf, o, n, write);
      } else if write {
        out := BytesIn(buf, o, n);
      } else {
        out := buf;
        BytesOut(buf, o, n);
      }
    }
  }
}
