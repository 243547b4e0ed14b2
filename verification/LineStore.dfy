// The editor's line store (usr/ed.c:715-791): lines in a temporary file of blocks, behind
// one block of input and one of output.
module LineStore {
  const LBSIZE: nat := 512
  const BLOCK: nat := 512
  const MAXBLOCK: nat := 255
  const NEWLINE: int := 10

  // A line pointer has a block in its upper eight bits and a place in the lower eight, in
  // units of two bytes; the lowest bit is the mark of the global command.
  function BlockOf(tl: nat): nat {
    tl / 256 % 256
  }

  function OffsetOf(tl: nat): (r: nat)
    ensures r <= 508
  {
    tl % 256 / 2 * 4
  }

  function Address(tl: nat): nat {
    BLOCK * BlockOf(tl) + OffsetOf(tl)
  }

  lemma AddressOf(tl: nat)
    requires tl % 2 == 0 && tl < 0x1_0000
    ensures Address(tl) == 2 * tl && Address(tl + 1) == 2 * tl
    ensures BlockOf(tl) == 2 * tl / 512 && BlockOf(tl + 1) == BlockOf(tl) && OffsetOf(tl + 1) == OffsetOf(tl)
    ensures OffsetOf(tl) == 2 * tl % 512
  {
    var q, r := tl / 256, tl % 256;
    assert tl == 256 * q + r && q < 256 && r % 2 == 0;
    assert (tl + 1) / 256 == q && (tl + 1) % 256 == r + 1;
    assert r / 2 * 4 == 2 * r && (r + 1) / 2 * 4 == 2 * r;
    assert 2 * tl == 512 * q + 2 * r && 2 * r < 512;
  }

  // The start of a block: a line pointer without its low eight bits.
  lemma BlockStart(atl: nat)
    requires atl % 256 == 0 && atl < 0x1_0000
    ensures BLOCK * BlockOf(atl) == 2 * atl && OffsetOf(atl) == 0
  {
  }

  // A place in the blocks up to oblock, or at their end.
  lemma PlaceOf(p: nat, oblock: int, tl: nat)
    requires p % 2 == 0 && -1 <= oblock < MAXBLOCK && 2 * p <= BLOCK * (oblock + 1) && (tl == p || tl == p + 1)
    ensures tl < 0x1_0000 && tl / 256 == BlockOf(tl) <= oblock + 1 && OffsetOf(tl) == 2 * p - BLOCK * BlockOf(tl)
    ensures 2 * p < BLOCK * (oblock + 1) ==> BlockOf(tl) <= oblock
    ensures BLOCK * oblock <= 2 * p ==> oblock <= BlockOf(tl)
  {
    AddressOf(p);
    assert 2 * p == 512 * (2 * p / 512) + 2 * p % 512;
    assert tl / 256 == p / 256 == 2 * p / 512;
  }

  lemma SpaceFits(a: nat, n: nat, end: nat)
    requires a % 4 == 0 && end % 4 == 0 && a + n <= end
    ensures a + n <= a + 2 * Space(n) <= end && Space(n) % 2 == 0
  {
  }

  // How far putline moves tline for a line of n bytes with its end: to a multiple of four.
  function Space(n: nat): nat {
    (n + 3) / 4 * 2
  }

  // That is the least multiple of four bytes that has room for them.
  lemma SpaceLeast(n: nat, room: nat)
    requires room % 4 == 0
    ensures 2 * Space(n) % 4 == 0 && (n <= room <==> 2 * Space(n) <= room)
  {
  }

  // Line w stands in text where pointer p says.
  ghost predicate Stored(text: seq<int>, p: nat, w: seq<int>) {
    && p % 2 == 0 && 2 * p + |w| < |text| && text[2 * p..2 * p + |w|] == w && text[2 * p + |w|] == 0
    && 0 !in w && |w| < LBSIZE
  }

  ghost predicate AllStored(text: seq<int>, lines: map<nat, seq<int>>, tline: nat) {
    forall p :: p in lines ==> Stored(text, p, lines[p]) && 2 * p + |lines[p]| + 1 <= 2 * tline
  }

  // What is written behind the end of the lines changes none.
  lemma StoredStay(text: seq<int>, text': seq<int>, lines: map<nat, seq<int>>, tline: nat)
    requires AllStored(text, lines, tline) && 2 * tline <= |text| && 2 * tline <= |text'|
    requires text'[..2 * tline] == text[..2 * tline]
    ensures AllStored(text', lines, tline)
  {
    forall p | p in lines ensures Stored(text', p, lines[p]) {
      assert Stored(text, p, lines[p]);
      var n := 2 * p + |lines[p]|;
      assert text[2 * p..n] == text[..2 * tline][2 * p..n];
      assert text'[2 * p..n] == text'[..2 * tline][2 * p..n];
      assert text[n] == text[..2 * tline][n] && text'[n] == text'[..2 * tline][n];
    }
  }

  lemma StoredEnds(text: seq<int>, p: nat, w: seq<int>)
    requires Stored(text, p, w)
    ensures 2 * p + |w| < |text| && |w| < LBSIZE && p % 2 == 0
  {
  }

  lemma StoredByte(text: seq<int>, p: nat, w: seq<int>, k: nat)
    requires Stored(text, p, w) && k <= |w|
    ensures text[2 * p + k] == (if k < |w| then w[k] else 0) && (k < |w| ==> w[k] != 0)
  {
    if k < |w| {
      assert text[2 * p + k] == text[2 * p..2 * p + |w|][k];
    }
  }

  // A new line is added at tline.
  lemma StoredMore(text: seq<int>, lines: map<nat, seq<int>>, tline: nat, w: seq<int>)
    requires AllStored(text, lines, tline) && Stored(text, tline, w)
    ensures AllStored(text, lines[tline := w], tline + Space(|w| + 1)) && (tline + Space(|w| + 1)) % 2 == 0
    ensures 2 * (tline + Space(|w| + 1)) >= 2 * tline + |w| + 1
  {
  }

  // The part of the line buffer that putline stores: up to the end or a newline.
  function Head(line: seq<int>): seq<int> {
    if line == [] || line[0] == 0 || line[0] == NEWLINE then [] else [line[0]] + Head(line[1..])
  }

  lemma {:induction false} HeadEnds(line: seq<int>)
    requires 0 in line
    ensures var n := |Head(line)|;
            n < |line| && (line[n] == 0 || line[n] == NEWLINE) && Head(line) == line[..n]
            && 0 !in Head(line) && NEWLINE !in Head(line)
  {
    if line[0] != 0 && line[0] != NEWLINE {
      HeadEnds(line[1..]);
      var n := |Head(line[1..])|;
      assert line[..n + 1] == [line[0]] + line[1..][..n];
    }
  }

  lemma HeadSplit(line: seq<int>)
    requires 0 in line
    ensures forall k :: 0 <= k < |line| && k < |Head(line)| ==> line[k] != 0 && line[k] != NEWLINE
  {
    HeadEnds(line);
    forall k | 0 <= k < |line| && k < |Head(line)| ensures line[k] != 0 && line[k] != NEWLINE {
      assert Head(line)[k] == line[k];
    }
  }

  lemma HeadGoesOn(line: seq<int>, lp: nat)
    requires 0 in line && lp <= |Head(line)| && lp < |line| && line[lp] != 0 && line[lp] != NEWLINE
    ensures lp < |Head(line)| < |line|
  {
    HeadEnds(line);
  }

  // The end of the line has been reached, and stored as a zero byte.
  lemma LineEnds(text: seq<int>, tline: nat, line: seq<int>, lp: nat, end: nat)
    requires 0 in line && |line| == LBSIZE && lp <= |Head(line)| && lp < |line|
    requires line[lp] == 0 || line[lp] == NEWLINE
    requires tline % 2 == 0 && 2 * tline + lp < |text| && text[2 * tline..2 * tline + lp] == line[..lp]
    requires text[2 * tline + lp] == 0 && 2 * tline + lp < end && end % 4 == 0
    ensures lp == |Head(line)| && Stored(text, tline, Head(line))
    ensures 2 * tline + lp + 1 <= 2 * (tline + Space(lp + 1)) <= end
  {
    HeadEnds(line);
    HeadSplit(line);
    SpaceFits(2 * tline, lp + 1, end);
  }

  // One more byte of a line behind end.
  lemma TextPut(text: seq<int>, end: nat, lp: nat, line: seq<int>, c: int)
    requires end + lp < |text| && lp < |line| && text[end..end + lp] == line[..lp]
    ensures text[end + lp := c][..end] == text[..end]
    ensures c == line[lp] ==> text[end + lp := c][end..end + lp + 1] == line[..lp + 1]
    ensures text[end + lp := c][end..end + lp] == line[..lp]
  {
    var t := text[end + lp := c];
    assert t[end..end + lp] == text[end..end + lp];
    assert c == line[lp] ==> t[end..end + lp + 1] == t[end..end + lp] + [c];
    assert line[..lp + 1] == line[..lp] + [line[lp]];
  }

  class Store {
    const linebuf: array<int>
    const ibuff: array<int>
    const obuff: array<int>
    var iblock: int
    var oblock: int
    var ichanged: bool
    var nleft: nat
    var tline: nat
    var linebp: int
    var tfile: seq<seq<int>>

    // Everything written, up to the end of the output block, and the lines in it.
    ghost var text: seq<int>
    ghost var lines: map<nat, seq<int>>

    ghost predicate Shape() {
      linebuf.Length == LBSIZE && ibuff.Length == obuff.Length == BLOCK
      && linebuf != ibuff && linebuf != obuff && ibuff != obuff
    }

    // Block k of text is in the output block, the input block or the file.
    ghost predicate Blocks()
      requires Shape()
      reads this`iblock, this`oblock, this`ichanged, this`tfile, this`text, ibuff, obuff
    {
      && -1 <= iblock && -1 <= oblock < MAXBLOCK && |tfile| == MAXBLOCK && |text| == BLOCK * (oblock + 1)
      && (oblock >= 0 ==> iblock < oblock && obuff[..] == text[BLOCK * oblock..])
      && (oblock == -1 ==> iblock == -1) && (ichanged ==> iblock >= 0)
      && (forall k :: 0 <= k < oblock && !(k == iblock && ichanged) ==> tfile[k] == text[BLOCK * k..BLOCK * (k + 1)])
      && (iblock >= 0 ==> ibuff[..] == text[BLOCK * iblock..BLOCK * (iblock + 1)])
    }

    // The lines fill text up to tline, which is in the output block or at its end.
    ghost predicate Valid()
      reads this, ibuff, obuff
    {
      && Shape() && Blocks() && AllStored(text, lines, tline)
      && tline % 2 == 0 && BLOCK * oblock <= 2 * tline <= BLOCK * (oblock + 1)
    }

    constructor ()
      ensures Valid() && fresh(linebuf) && fresh(ibuff) && fresh(obuff) && lines == map[] && tline == 0
    {
      linebuf, ibuff, obuff := new int[LBSIZE], new int[BLOCK], new int[BLOCK];
      iblock, oblock, ichanged, nleft, tline, linebp := -1, -1, false, 0, 0, -1;
      tfile := seq(MAXBLOCK, _ => []);
      text, lines := [], map[];
    }

    // The buffer that has the block of atl, and the place in it.
    method Getblock(atl: nat, write: bool) returns (ok: bool, b: array<int>, off: nat)
      requires Shape() && Blocks() && (if write then oblock <= BlockOf(atl) <= oblock + 1 else BlockOf(atl) <= oblock)
      modifies this`nleft, this`iblock, this`oblock, this`ichanged, this`tfile, this`text, ibuff
      ensures Blocks() && ok == (BlockOf(atl) < MAXBLOCK) && (b == ibuff || b == obuff)
      ensures |text| == BLOCK * (oblock + 1) && -1 <= oblock < MAXBLOCK
      ensures !ok ==> text == old(text) && oblock == old(oblock)
      ensures ok ==> off == OffsetOf(atl) && nleft == BLOCK - off
      ensures ok && !write ==> text == old(text) && oblock == old(oblock)
                               && b[..] == text[BLOCK * BlockOf(atl)..BLOCK * (BlockOf(atl) + 1)]
      ensures ok && write ==>
                && b == obuff && oblock == BlockOf(atl) && |text| >= |old(text)| && text[..|old(text)|] == old(text)
    {
      hide BlockOf, OffsetOf;
      Sizes();
      var bno := BlockOf(atl);
      off, b, ok := OffsetOf(atl), ibuff, false;
      if bno >= MAXBLOCK {
        return;
      }
      ok := true;
      nleft := 512 - off;
      if bno == iblock {
        ichanged := ichanged || write;
        return;
      }
      if bno == oblock {
        b := obuff;
        assert text[BLOCK * oblock..] == text[BLOCK * oblock..BLOCK * (oblock + 1)];
        return;
      }
      if !write {
        Load(bno);
        return;
      }
      NextBlock(bno);
      b := obuff;
    }

    // Another block is read into the input buffer, which is written first if it has to be.
    method Load(bno: nat)
      requires Shape() && Blocks() && bno < oblock && bno != iblock
      modifies this`iblock, this`ichanged, this`tfile, ibuff
      ensures Blocks() && iblock == bno && ibuff[..] == text[BLOCK * bno..BLOCK * (bno + 1)]
    {
      if ichanged {
        tfile := tfile[iblock := ibuff[..]];
      }
      ichanged := false;
      iblock := bno;
      ReadBlock(bno);
    }

    // The output block is written, and its buffer becomes the next block.
    method NextBlock(bno: nat)
      requires Shape() && Blocks() && bno == oblock + 1 < MAXBLOCK
      modifies this`oblock, this`tfile, this`text
      ensures Blocks() && oblock == bno && text == old(text) + obuff[..]
    {
      if oblock >= 0 {
        tfile := tfile[oblock := obuff[..]];
      }
      oblock := bno;
      ghost var was := text;
      text := text + obuff[..];
      assert text[BLOCK * oblock..] == obuff[..];
      forall k | 0 <= k < oblock ensures text[BLOCK * k..BLOCK * (k + 1)] == was[BLOCK * k..BLOCK * (k + 1)] {
      }
    }

    // blkio with read.
    method ReadBlock(bno: nat)
      requires Shape() && bno < |tfile| && |tfile[bno]| == BLOCK
      modifies ibuff
      ensures ibuff[..] == tfile[bno]
    {
      var data := tfile[bno];
      forall i | 0 <= i < BLOCK {
        ibuff[i] := data[i];
      }
    }

    lemma Sizes()
      requires Shape() && Blocks()
      ensures |text| == BLOCK * (oblock + 1) && -1 <= oblock < MAXBLOCK
    {
    }

    lemma Located(p: nat, tl: nat)
      requires Valid() && p in lines && (tl == p || tl == p + 1)
      ensures Stored(text, p, lines[p]) && BlockOf(tl) <= oblock && OffsetOf(tl) == 2 * p - BLOCK * BlockOf(tl)
      ensures tl / 256 == BlockOf(tl) && tl < 0x1_0000 && p % 2 == 0
      ensures |text| == BLOCK * (oblock + 1) && -1 <= oblock < MAXBLOCK
    {
      hide Blocks, Stored, BlockOf, OffsetOf;
      Sizes();
      StoredEnds(text, p, lines[p]);
      PlaceOf(p, oblock, tl);
    }

    // The line that pointer tl, marked or not, was returned for.
    method Getline(tl: nat, ghost p: nat) returns (ok: bool)
      requires Valid() && p in lines && (tl == p || tl == p + 1)
      modifies this`nleft, this`iblock, this`ichanged, this`tfile, this`oblock, this`text, ibuff, linebuf
      ensures Valid() && ok && text == old(text)
      ensures linebuf[..|lines[p]| + 1] == lines[p] + [0]
    {
      hide Blocks, BlockOf, OffsetOf, AllStored, Stored;
      ghost var w := lines[p];
      Located(p, tl);
      StoredEnds(text, p, w);
      var b, bp;
      ok, b, bp := Getblock(tl, false);
      CopyLine(b, bp, tl / 256 * 256, p, w);
    }

    // Buffer b has the block of text at atl.
    ghost predicate HasBlock(b: array<int>, atl: nat)
      reads this`text, b
    {
      2 * atl + BLOCK <= |text| && b[..] == text[2 * atl..2 * atl + BLOCK]
    }

    ghost predicate Copied(lp: nat, w: seq<int>)
      requires linebuf.Length == LBSIZE && |w| < LBSIZE
      reads linebuf
    {
      lp <= |w| && linebuf[..lp] == w[..lp]
    }

    // The loop of getline, from byte bp of block b on.
    method CopyLine(first: array<int>, start: nat, block: nat, ghost p: nat, ghost w: seq<int>)
      requires Shape() && Blocks() && block % 256 == 0 && block / 256 <= oblock && (first == ibuff || first == obuff)
      requires |text| == BLOCK * (oblock + 1) && -1 <= oblock < MAXBLOCK && Stored(text, p, w)
      requires start < BLOCK && nleft == BLOCK - start && 2 * block + start == 2 * p
      requires first[..] == text[2 * block..2 * block + BLOCK]
      modifies this`nleft, this`iblock, this`ichanged, this`tfile, this`oblock, this`text, ibuff, linebuf
      ensures Blocks() && text == old(text) && oblock == old(oblock) && linebuf[..|w| + 1] == w + [0]
    {
      hide Blocks, Stored, Copied, HasBlock;
      StoredEnds(text, p, w);
      var b, bp, atl, nl, lp := first, start, block, nleft, 0;
      assert HasBlock(b, atl) && Copied(lp, w) by { CopyStart(b, atl, w); }
      while true
        invariant Blocks() && 0 <= lp <= |w| && text == old(text) && oblock == old(oblock)
        invariant 0 <= bp && bp + nl == BLOCK && nl > 0 && (b == ibuff || b == obuff)
        invariant atl % 256 == 0 && 2 * atl + bp == 2 * p + lp
        invariant HasBlock(b, atl) && Copied(lp, w)
        decreases |w| - lp
      {
        var last := TakeByte(b, bp, lp, atl, p, w);
        lp, bp := lp + 1, bp + 1;
        if last {
          return;
        }
        nl := nl - 1;
        if nl == 0 {
          atl := atl + 256;
          b := NextIn(atl);
          bp, nl := 0, nleft;
        }
      }
    }

    lemma CopyStart(b: array<int>, atl: nat, w: seq<int>)
      requires Shape() && 2 * atl + BLOCK <= |text| && b[..] == text[2 * atl..2 * atl + BLOCK] && |w| < LBSIZE
      ensures HasBlock(b, atl) && Copied(0, w)
    {
    }

    // The block at atl, which a line goes on in.
    method NextIn(atl: nat) returns (b: array<int>)
      requires Shape() && Blocks() && atl % 256 == 0 && 2 * atl < |text|
      modifies this`nleft, this`iblock, this`oblock, this`ichanged, this`tfile, this`text, ibuff
      ensures Blocks() && text == old(text) && oblock == old(oblock) && nleft == BLOCK && (b == ibuff || b == obuff)
      ensures HasBlock(b, atl)
    {
      hide Blocks, BlockOf, OffsetOf;
      Sizes();
      PlaceOf(atl, oblock, atl);
      BlockStart(atl);
      var ok, off;
      ok, b, off := Getblock(atl, false);
    }

    // A byte goes to the line buffer; the line ends with a zero byte.
    method TakeByte(b: array<int>, bp: nat, lp: nat, ghost atl: nat, ghost p: nat, ghost w: seq<int>)
      returns (last: bool)
      requires Shape() && (b == ibuff || b == obuff) && bp < BLOCK && Stored(text, p, w) && |w| < LBSIZE
      requires HasBlock(b, atl) && 2 * atl + bp == 2 * p + lp && Copied(lp, w)
      modifies linebuf
      ensures last ==> linebuf[..|w| + 1] == w + [0]
      ensures !last ==> lp < |w| && Copied(lp + 1, w) && 2 * p + lp + 1 < |text|
    {
      hide Stored;
      StoredEnds(text, p, w);
      StoredByte(text, p, w, lp);
      assert b[bp] == b[..][bp] == text[2 * p + lp];
      linebuf[lp] := b[bp];
      last := linebuf[lp] == 0;
      assert linebuf[..lp + 1] == linebuf[..lp] + [linebuf[lp]];
    }

    // The first lp bytes of line have been stored from end on, behind what was there.
    ghost predicate Progress(was: seq<int>, end: nat, lp: nat, line: seq<int>)
      requires Shape()
      reads this`iblock, this`oblock, this`ichanged, this`tfile, this`text, ibuff, obuff
    {
      && Blocks() && 0 <= oblock && end <= |was| && end + lp <= |text| && text[..end] == was[..end]
      && lp <= |line| && text[end..end + lp] == line[..lp]
    }

    // A byte of the line goes to the output block.
    method PutByte(bp: nat, c: int, ghost was: seq<int>, ghost end: nat, ghost lp: nat, ghost line: seq<int>)
      requires Shape() && Progress(was, end, lp, line) && bp < BLOCK && BLOCK * oblock + bp == end + lp && lp < |line|
      modifies obuff, this`text
      ensures Progress(was, end, lp, line) && (c == line[lp] ==> Progress(was, end, lp + 1, line))
      ensures end + lp < |text| == BLOCK * (oblock + 1) && text[end + lp] == c
    {
      TextPut(text, end, lp, line, c);
      obuff[bp] := c;
      text := text[end + lp := c];
    }

    // The output block is full: the next one, if there is one.
    method NextPlace(atl: nat, ghost was: seq<int>, ghost end: nat, ghost lp: nat, ghost line: seq<int>)
      returns (ok: bool)
      requires Shape() && Progress(was, end, lp, line) && atl % 256 == 0 && 2 * atl == BLOCK * (oblock + 1)
      modifies this`nleft, this`iblock, this`oblock, this`ichanged, this`tfile, this`text, ibuff
      ensures Progress(was, end, lp, line)
      ensures if ok then oblock == old(oblock) + 1 && nleft == BLOCK
              else oblock == old(oblock) && BLOCK * (oblock + 1) == 2 * atl
      ensures ok <==> old(oblock) < MAXBLOCK - 1
    {
      hide BlockOf, OffsetOf;
      BlockStart(atl);
      Sizes();
      ghost var t := text;
      var b, bp;
      ok, b, bp := Getblock(atl, true);
      if ok {
        assert text[..end] == t[..end] && text[end..end + lp] == t[end..end + lp] by {
          assert text[..|t|][..end] == text[..end] && text[..|t|][end..end + lp] == text[end..end + lp];
        }
      }
    }

    // The end of the line has been stored; a newline becomes the end.
    method EndLine(bp: nat, c: int, lp: nat, ghost was: seq<int>, ghost line: seq<int>)
      requires Shape() && Progress(was, 2 * tline, lp, line) && bp < BLOCK && BLOCK * oblock + bp == 2 * tline + lp
      requires |line| == LBSIZE && 0 in line && lp <= |Head(line)| && lp < |line| && c == line[lp]
      requires c == NEWLINE || (c == 0 && 2 * tline + lp < |text| && text[2 * tline + lp] == 0)
      requires tline % 2 == 0
      modifies this`linebp, this`text, obuff
      ensures Progress(was, 2 * tline, lp, line) && lp == |Head(line)| && Stored(text, tline, Head(line))
      ensures BLOCK * oblock <= 2 * (tline + Space(lp + 1)) <= BLOCK * (oblock + 1)
      ensures linebp == if c == NEWLINE then lp + 1 else old(linebp)
    {
      hide Shape, Blocks, Stored, Head, Space, Progress;
      if c == NEWLINE {
        PutByte(bp, 0, was, 2 * tline, lp, line);
        linebp := lp + 1;
      }
      ProgressFacts(was, 2 * tline, lp, line);
      LineEnds(text, tline, line, lp, BLOCK * (oblock + 1));
    }

    // The loop of putline, from byte start of the output block on.
    method StoreLine(start: nat, block: nat) returns (ok: bool, lp: nat)
      requires Shape() && Blocks() && oblock >= 0 && block % 256 == 0 && 2 * block == BLOCK * oblock
      requires tline % 2 == 0 && start == 2 * tline - 2 * block < BLOCK && nleft == BLOCK - start
      requires 0 in linebuf[..]
      modifies this`nleft, this`iblock, this`oblock, this`ichanged, this`tfile, this`text, this`linebp, ibuff, obuff
      ensures Blocks() && |text| >= 2 * tline && |old(text)| >= 2 * tline && text[..2 * tline] == old(text)[..2 * tline]
      ensures ok ==> lp == |Head(linebuf[..])| + 1 && Stored(text, tline, Head(linebuf[..]))
                     && BLOCK * oblock <= 2 * (tline + Space(lp)) <= BLOCK * (oblock + 1)
      ensures linebp == if ok && linebuf[lp - 1] == NEWLINE then lp else old(linebp)
      ensures !ok ==> BLOCK * oblock <= 2 * tline <= BLOCK * (oblock + 1)
      ensures ok <==> 2 * tline + |Head(linebuf[..])| + 1 <= BLOCK * MAXBLOCK
    {
      hide Shape, Blocks, BlockOf, OffsetOf, Stored, Head, Space, Progress;
      Buffers();
      ghost var was, line, end := text, linebuf[..], 2 * tline;
      HeadEnds(line);
      Sizes();
      StartProgress(end, line);
      lp := 0;
      var bp, nl, atl := start, nleft, block;
      while true
        invariant Progress(was, end, lp, line) && 0 <= lp <= |Head(line)| && linebp == old(linebp)
        invariant 2 * atl == BLOCK * oblock && atl % 256 == 0 && linebuf[..] == line
        invariant 0 <= bp && bp + nl == BLOCK && nl > 0 && 2 * atl + bp == end + lp
        decreases |line| - lp
      {
        var c := linebuf[lp];
        assert c == line[lp];
        PutByte(bp, c, was, end, lp, line);
        if c == 0 || c == NEWLINE {
          EndLine(bp, c, lp, was, line);
          ProgressFacts(was, end, lp, line);
          return true, lp + 1;
        }
        HeadGoesOn(line, lp);
        lp, bp, nl := lp + 1, bp + 1, nl - 1;
        if nl == 0 {
          atl := atl + 256;
          ok := NextPlace(atl, was, end, lp, line);
          if !ok {
            ProgressFacts(was, end, lp, line);
            return false, lp;
          }
          bp, nl := 0, nleft;
        }
      }
    }

    lemma Buffers()
      requires Shape()
      ensures linebuf.Length == LBSIZE && linebuf != ibuff && linebuf != obuff
    {
    }

    lemma StartProgress(end: nat, line: seq<int>)
      requires Shape() && Blocks() && 0 <= oblock && end <= |text|
      ensures Progress(text, end, 0, line)
    {
    }

    lemma ProgressFacts(was: seq<int>, end: nat, lp: nat, line: seq<int>)
      requires Shape() && Progress(was, end, lp, line)
      ensures Blocks() && 0 <= oblock && end <= |was| && end + lp <= |text| == BLOCK * (oblock + 1)
      ensures text[..end] == was[..end]
      ensures lp <= |line| && text[end..end + lp] == line[..lp]
    {
    }

    lemma TlineAt()
      requires Valid()
      ensures oblock <= BlockOf(tline) <= oblock + 1 && OffsetOf(tline) == 2 * tline - BLOCK * BlockOf(tline)
      ensures tline / 256 == BlockOf(tline) && tline < 0x1_0000 && tline !in lines
      ensures AllStored(text, lines, tline) && 2 * tline <= |text|
    {
      hide Blocks, Stored, BlockOf, OffsetOf;
      Sizes();
      PlaceOf(tline, oblock, tline);
    }

    // Stores the line buffer, up to its end or a newline, and returns a pointer to it; linebp
    // is what follows the newline. Fails exactly when the file has no room for it.
    method Putline() returns (ok: bool, nl: nat)
      requires Valid() && 0 in linebuf[..]
      modifies this`nleft, this`iblock, this`oblock, this`ichanged, this`tfile, this`text, this`tline, this`linebp,
               this`lines, ibuff, obuff
      ensures Valid()
      ensures ok ==> nl == old(tline) && nl !in old(lines) && lines == old(lines)[nl := Head(linebuf[..])]
      ensures var n := |Head(linebuf[..])|;
              n < LBSIZE && linebp == if ok && linebuf[n] == NEWLINE then n + 1 else old(linebp)
      ensures ok ==> tline == old(tline) + Space(|Head(linebuf[..])| + 1)
      ensures !ok ==> lines == old(lines) && tline == old(tline)
      ensures ok <==> 2 * old(tline) + |Head(linebuf[..])| + 1 <= BLOCK * MAXBLOCK
    {
      hide Blocks, Stored, Head, Space, AllStored, BlockOf, OffsetOf;
      ghost var w := Head(linebuf[..]);
      HeadEnds(linebuf[..]);
      Sizes();
      TlineAt();
      var b, bp, atl;
      ok, b, bp := Getblock(tline, true);
      if !ok {
        return false, 0;
      }
      assert |old(text)| >= 2 * tline && text[..2 * tline] == old(text)[..2 * tline] by {
        assert text[..|old(text)|][..2 * tline] == text[..2 * tline];
      }
      atl := tline / 256 * 256;
      var lp;
      ok, lp := StoreLine(bp, atl);
      StoredStay(old(text), text, lines, tline);
      nl := tline;
      if ok {
        StoredMore(text, lines, tline, w);
        tline := tline + Space(lp);
        lines := lines[nl := w];
      }
    }
  }
}
