// Bytes, 512-byte disk blocks, the 16-bit words stored in them, and the two-word
// (32-bit) arithmetic on file offsets of dmr/pc.c.
module Machine {

  type Byte = b: nat | b < 256

  const BLOCK_SIZE := 512
  const WORDS := 256
  const MAX_FILE := 0x100_0000   // 2^24: i_size0 and i_size1 hold 24 bits

  type Block = s: seq<Byte> | |s| == 512 witness seq(512, _ => 0)

  function ZeroBlock(): Block {
    seq(512, _ => 0)
  }

  // The k-th little-endian word of a buffer or block.
  function WordAt(s: seq<Byte>, k: nat): (w: nat)
    requires 2 * k + 1 < |s|
    ensures w < 0x1_0000
  {
    var low: nat, high: nat := s[2 * k], s[2 * k + 1];
    low + 256 * high
  }

  function PutWord(s: seq<Byte>, k: nat, w: nat): (t: seq<Byte>)
    requires 2 * k + 1 < |s| && w < 0x1_0000
    ensures |t| == |s| && WordAt(t, k) == w
    ensures forall j: nat :: 2 * j + 1 < |s| && j != k ==> WordAt(t, j) == WordAt(s, j)
    ensures forall p: nat :: p < |s| && p / 2 != k ==> t[p] == s[p]
  {
    s[2 * k := w % 256][2 * k + 1 := w / 256]
  }

  lemma ZeroWords()
    ensures forall k: nat :: k < WORDS ==> WordAt(ZeroBlock(), k) == 0
  {
  }

  // A block is determined by its words.
  lemma WordsDetermineBlock(a: Block, b: Block)
    requires forall k: nat :: k < WORDS ==> WordAt(a, k) == WordAt(b, k)
    ensures a == b
  {
    forall p: nat | p < 512 ensures a[p] == b[p] {
      assert WordAt(a, p / 2) == WordAt(b, p / 2);
      assert p == 2 * (p / 2) || p == 2 * (p / 2) + 1;
    }
  }

  // ---- Two-word arithmetic (dmr/pc.c) ----

  // A file offset u_offset[0]:u_offset[1], read as one unsigned 32-bit number.
  type Offset = x: nat | x < 0x1_0000_0000

  function Signed32(x: Offset): int {
    if x < 0x8000_0000 then x else x - 0x1_0000_0000
  }

  // The signed 32-bit value of an unbounded integer after wrap-around.
  function Wrap32(x: int): int {
    Signed32(x % 0x1_0000_0000)
  }

  function Dpadd(x: Offset, y: nat): Offset {
    (x + y) % 0x1_0000_0000
  }

  lemma DpaddZero(x: Offset)
    ensures Dpadd(x, 0) == x
  {
  }

  lemma DpaddAdd(x: Offset, a: nat, b: nat)
    ensures Dpadd(Dpadd(x, a), b) == Dpadd(x, a + b)
    ensures x + a < 0x1_0000_0000 ==> Dpadd(x, a) == x + a
  {
    var m := 0x1_0000_0000;
    assert x + a == m * ((x + a) / m) + (x + a) % m;
    assert (Dpadd(x, a) + b) % m == (x + a + b) % m by {
      assert x + a + b == m * ((x + a) / m) + (Dpadd(x, a) + b);
    }
  }

  lemma DpaddNext(x: Offset, a: nat)
    ensures Dpadd(Dpadd(x, a), 1) == Dpadd(x, a + 1)
  {
    DpaddAdd(x, a, 1);
  }

  // dpcmp: the 32-bit difference clamped to [-512, 512].
  function Dpcmp(x: Offset, y: Offset): int {
    Clamp(Wrap32(Signed32(x) - Signed32(y)))
  }

  function Clamp(diff: int): int {
    if diff > 512 then 512 else if diff < -512 then -512 else diff
  }

  // lshift(u_offset, -9), kept in a 16-bit word.
  function BlockNumber(x: Offset): (bn: nat)
    ensures bn < 0x1_0000
  {
    (x / 512) % 0x1_0000
  }

  // What i_size0 (8 bits) and i_size1 (16 bits) keep of an offset.
  function StoredSize(x: Offset): nat {
    x % MAX_FILE
  }

  // dpcmp has the sign of the true difference, and its clamped value, exactly when that
  // difference fits in 32 bits; and it is 0 only for equal offsets.
  lemma DpcmpExact(x: Offset, y: Offset)
    ensures (Dpcmp(x, y) < 0 <==> x < y) <==> x < y + 0x8000_0000 && y <= x + 0x8000_0000
    ensures Dpcmp(x, y) == Clamp(x - y) <==> x < y + 0x8000_0000 && y <= x + 0x8000_0000
    ensures Dpcmp(x, y) == 0 <==> x == y
  {
  }

  // The block number is the true one exactly below 2^25, and there bit 15 is clear exactly
  // below 2^24; the offset kept as a size is the true one exactly below 2^24.
  lemma BlockNumberExact(x: Offset)
    ensures BlockNumber(x) == x / 512 <==> x < 0x200_0000
    ensures x < 0x200_0000 ==> (BlockNumber(x) < 0x8000 <==> x < MAX_FILE)
    ensures StoredSize(x) == x <==> x < MAX_FILE
  {
  }

  // What readi makes of an offset: it takes it to be before the end of a file exactly when
  // it is, or when it is more than 2^31 behind the end; it then reads a block that is not
  // the one at the offset.
  lemma OffsetsWrap(size: nat, x: Offset)
    requires size < MAX_FILE
    ensures Dpcmp(size, x) > 0 <==> x < size || x > size + 0x8000_0000
    ensures x > size + 0x8000_0000 ==> BlockNumber(x) != x / 512
  {
  }
}
