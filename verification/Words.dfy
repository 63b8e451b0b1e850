/** Disk blocks as bytes, and the little-endian 32-bit words the kernel reads in
    them through `uint *` casts (indirect blocks, the log header). */
module Words {

  const BSIZE: nat := 512
  const NINDIRECT: nat := 128

  type Byte = x: int | 0 <= x < 256
  type Word = x: int | 0 <= x < 0x1_0000_0000
  type Block = s: seq<Byte> | |s| == BSIZE witness seq(BSIZE, i => 0)

  /** The block `bzero` leaves behind. */
  function ZeroBlock(): (b: Block)
    ensures forall i :: 0 <= i < BSIZE ==> b[i] == 0
  {
    seq(BSIZE, i => 0)
  }

  /** Word `i` of the block, on a little-endian machine. */
  function GetWord(b: Block, i: nat): Word
    requires i < NINDIRECT
  {
    var b0: int, b1: int, b2: int, b3: int := b[4 * i], b[4 * i + 1], b[4 * i + 2], b[4 * i + 3];
    b0 + 256 * b1 + 65536 * b2 + 16777216 * b3
  }

  /** Word `i` set to `v`. */
  function SetWord(b: Block, i: nat, v: Word): (r: Block)
    requires i < NINDIRECT
    ensures GetWord(r, i) == v
    ensures forall j: nat :: j < NINDIRECT && j != i ==> GetWord(r, j) == GetWord(b, j)
  {
    var v1 := v / 256;
    var v2 := v1 / 256;
    b[4 * i := v % 256][4 * i + 1 := v1 % 256][4 * i + 2 := v2 % 256][4 * i + 3 := v2 / 256]
  }

  lemma LowDigit(d: Byte, q: int, v: int)
    requires v == d + 256 * q
    ensures v % 256 == d && v / 256 == q
  {
  }

  /** On disk a word has its lowest byte first: one below 256 is that byte and three zeros. */
  lemma WordBytes(b: Block, i: nat, v: Word)
    requires i < NINDIRECT
    ensures GetWord(b, i) == v <==>
      b[4 * i] == v % 256 && b[4 * i + 1] == v / 256 % 256
      && b[4 * i + 2] == v / 256 / 256 % 256 && b[4 * i + 3] == v / 256 / 256 / 256
    ensures v < 256 ==>
      (GetWord(b, i) == v <==> b[4 * i] == v && b[4 * i + 1] == 0 && b[4 * i + 2] == 0 && b[4 * i + 3] == 0)
  {
    WordDigits(b[4 * i], b[4 * i + 1], b[4 * i + 2], b[4 * i + 3], v);
  }

  lemma WordDigits(b0: Byte, b1: Byte, b2: Byte, b3: Byte, v: Word)
    ensures b0 + 256 * b1 + 65536 * b2 + 16777216 * b3 == v <==>
      b0 == v % 256 && b1 == v / 256 % 256 && b2 == v / 256 / 256 % 256 && b3 == v / 256 / 256 / 256
  {
    if b0 + 256 * b1 + 65536 * b2 + 16777216 * b3 == v {
      LowDigit(b0, b1 + 256 * b2 + 65536 * b3, v);
      LowDigit(b1, b2 + 256 * b3, v / 256);
      LowDigit(b2, b3, v / 256 / 256);
    }
  }

  lemma ZeroWords()
    ensures forall i: nat :: i < NINDIRECT ==> GetWord(ZeroBlock(), i) == 0
  {
  }
}
