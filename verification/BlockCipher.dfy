// A block cipher as an abstract permutation of 16-octet blocks.

module BlockCipher {
  import opened Bytes

  const BLOCK := 16

  function Zeros(n: nat): (s: seq<byte>)
    ensures |s| == n
  {
    seq(n, _ => 0)
  }

  type Block = s: seq<byte> | |s| == BLOCK witness seq(BLOCK, _ => 0)

  datatype Cipher = Cipher(enc: Block -> Block, dec: Block -> Block)

  // Decryption inverts encryption.
  ghost predicate Invertible(c: Cipher) {
    forall b: Block :: c.dec(c.enc(b)) == b
  }

  function XorBlocks(a: Block, b: Block): Block {
    XorBytes(a, b)
  }

  lemma XorBlocksInvolutive(a: Block, b: Block)
    ensures XorBlocks(XorBlocks(a, b), b) == a
  {
    XorBytesInvolutive(a, b);
  }

  lemma XorSame(a: seq<byte>, b: seq<byte>)
    requires |a| == |b|
    ensures XorBytes(a, b) == a <==> b == Zeros(|b|)
  {
    hide XorByte;
    forall i | 0 <= i < |a|
      ensures XorByte(a[i], b[i]) == a[i] <==> b[i] == 0
    {
      XorZeroOnly(a[i], b[i]);
    }
    if XorBytes(a, b) == a {
      assert forall i :: 0 <= i < |a| ==> XorBytes(a, b)[i] == a[i];
    }
  }
}
