/** Disk blocks: 3072 bytes, or 512 words of six bytes each, the most significant byte first. */
module Blocks {
  import opened Common

  const BSIZE: nat := 3072
  const NINDIR: nat := 512
  const NBPW: nat := 6

  type Byte = b: nat | b < 256

  type Block = s: seq<Byte> | |s| == BSIZE witness seq(BSIZE, _ => 0)

  /** What clrbuf leaves. */
  function Zero(): (b: Block)
    ensures forall i :: 0 <= i < BSIZE ==> b[i] == 0
  {
    seq(BSIZE, _ => 0)
  }

  // ----- words ---------------------------------------------------------------------------------

  function Encode(v: nat): (b: seq<Byte>)
    requires v < WORDS
    ensures |b| == NBPW
  {
    [v / 0x100_0000_0000, v / 0x1_0000_0000 % 256, v / 0x100_0000 % 256, v / 0x1_0000 % 256, v / 256 % 256, v % 256]
  }

  function Decode(b: seq<Byte>): (v: nat)
    requires |b| == NBPW
    ensures v < WORDS
  {
    0x100_0000_0000 * (b[0] as int) + 0x1_0000_0000 * (b[1] as int) + 0x100_0000 * (b[2] as int) + 0x1_0000 * (b[3] as int) + 256 * (b[4] as int) + (b[5] as int)
  }

  lemma DecodeEncode(v: nat)
    requires v < WORDS
    ensures Decode(Encode(v)) == v
  {
    var a := v / 256;
    var b := a / 256;
    var c := b / 256;
    var d := c / 256;
    var e := d / 256;
    assert v / 0x1_0000 == b && v / 0x100_0000 == c && v / 0x1_0000_0000 == d && v / 0x100_0000_0000 == e;
  }

  /** Word i of a block. */
  function WordAt(b: Block, i: nat): (v: nat)
    requires i < NINDIR
    ensures v < WORDS
  {
    Decode(b[NBPW * i..NBPW * i + NBPW])
  }

  /** The block with word i set. */
  function PutWord(b: Block, i: nat, v: nat): Block
    requires i < NINDIR && v < WORDS
  {
    b[..NBPW * i] + Encode(v) + b[NBPW * i + NBPW..]
  }

  lemma {:induction false} WordPut(b: Block, i: nat, v: nat, j: nat)
    requires i < NINDIR && v < WORDS && j < NINDIR
    ensures WordAt(PutWord(b, i, v), j) == if i == j then v else WordAt(b, j)
  {
    hide Encode, Decode;
    var c := PutWord(b, i, v);
    if i == j {
      assert c[NBPW * i..NBPW * i + NBPW] == Encode(v);
      DecodeEncode(v);
    } else {
      assert c[NBPW * j..NBPW * j + NBPW] == b[NBPW * j..NBPW * j + NBPW];
    }
  }

  lemma WordZero(i: nat)
    requires i < NINDIR
    ensures WordAt(Zero(), i) == 0
  {
    assert Zero()[NBPW * i..NBPW * i + NBPW] == [0, 0, 0, 0, 0, 0];
  }

  // ----- bytes ---------------------------------------------------------------------------------

  /** The block with the bytes d from position o on. */
  function PutBytes(b: Block, o: nat, d: seq<Byte>): Block
    requires o + |d| <= BSIZE
  {
    b[..o] + d + b[o + |d|..]
  }
}
