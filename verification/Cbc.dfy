/** Cipher block chaining, section 6.2 of NIST SP 800-38A, over an abstract 16-byte
  * block cipher.
  */
module Cbc {
  import opened Collections
  import opened Numbers

  type Block = b: seq<byte> | |b| == 16 witness seq(16, _ => 0)

  /** AES, of which only "decryption inverts encryption under the same key" is used. */
  datatype Cipher = Cipher(enc: (seq<byte>, Block) -> Block, dec: (seq<byte>, Block) -> Block) {
    ghost predicate Inverts() {
      forall key, b :: dec(key, enc(key, b)) == b
    }
  }

  /** Exclusive or of the `n` low bits. */
  function XorBits(a: nat, b: nat, n: nat): (r: nat)
    ensures r == 0 || n > 0
  {
    if n == 0 then 0 else (a + b) % 2 + 2 * XorBits(a / 2, b / 2, n - 1)
  }

  lemma LowBit(bit: nat, high: nat)
    requires bit < 2
    ensures (bit + 2 * high) / 2 == high && (bit + 2 * high) % 2 == bit
  {
  }

  lemma BitCancels(a: nat, b: nat, s: nat)
    requires s % 2 == (a + b) % 2
    ensures (s + b) % 2 == a % 2
  {
    assert (s + b) % 2 == (a + b + b) % 2;
  }

  lemma {:induction false} XorBitsCancels(a: nat, b: nat, n: nat)
    ensures XorBits(XorBits(a, b, n), b, n) == XorBits(a, 0, n)
  {
    if n > 0 {
      var s := XorBits(a, b, n);
      LowBit((a + b) % 2, XorBits(a / 2, b / 2, n - 1));
      BitCancels(a, b, s);
      XorBitsCancels(a / 2, b / 2, n - 1);
    }
  }

  lemma {:induction false} XorBitsBound(a: nat, b: nat, n: nat)
    ensures XorBits(a, b, n) < Pow2(n)
  {
    if n > 0 {
      XorBitsBound(a / 2, b / 2, n - 1);
    }
  }

  lemma {:induction false} XorBitsZero(a: nat, n: nat)
    requires a < Pow2(n)
    ensures XorBits(a, 0, n) == a
  {
    if n > 0 {
      XorBitsZero(a / 2, n - 1);
    }
  }

  function Xor(a: byte, b: byte): byte {
    XorBitsBound(a, b, 8);
    assert Pow2(8) == 256 by { assert Pow2(4) == 16; }
    XorBits(a, b, 8)
  }

  lemma XorCancels(a: byte, b: byte)
    ensures Xor(Xor(a, b), b) == a
  {
    assert Pow2(8) == 256 by { assert Pow2(4) == 16; }
    XorBitsCancels(a, b, 8);
    XorBitsZero(a, 8);
  }

  /** Bit `k` of a number, the lowest being bit 0. */
  predicate Bit(a: nat, k: nat) {
    if k == 0 then a % 2 == 1 else Bit(a / 2, k - 1)
  }

  lemma ParityOfSum(a: nat, b: nat)
    ensures (a + b) % 2 == 1 <==> (a % 2 == 1) != (b % 2 == 1)
  {
  }

  lemma XorBitsParts(a: nat, b: nat, n: nat)
    requires n > 0
    ensures XorBits(a, b, n) / 2 == XorBits(a / 2, b / 2, n - 1) && XorBits(a, b, n) % 2 == (a + b) % 2
  {
    LowBit((a + b) % 2, XorBits(a / 2, b / 2, n - 1));
  }

  lemma {:induction false} XorBitsIsBitwise(a: nat, b: nat, n: nat, k: nat)
    requires k < n
    ensures Bit(XorBits(a, b, n), k) <==> Bit(a, k) != Bit(b, k)
  {
    hide XorBits;
    XorBitsParts(a, b, n);
    ParityOfSum(a, b);
    if k > 0 {
      XorBitsIsBitwise(a / 2, b / 2, n - 1, k - 1);
    }
  }

  /** A bit of the result is set exactly if one of the two is. */
  lemma XorIsBitwise(a: byte, b: byte, k: nat)
    requires k < 8
    ensures Bit(Xor(a, b), k) <==> Bit(a, k) != Bit(b, k)
  {
    XorBitsIsBitwise(a, b, 8, k);
  }

  function XorBlock(a: Block, b: Block): Block {
    seq(16, i requires 0 <= i < 16 => Xor(a[i], b[i]))
  }

  lemma XorBlockCancels(a: Block, b: Block)
    ensures XorBlock(XorBlock(a, b), b) == a
  {
    forall i | 0 <= i < 16
      ensures XorBlock(XorBlock(a, b), b)[i] == a[i]
    {
      XorCancels(a[i], b[i]);
    }
  }

  predicate Aligned(p: seq<byte>) {
    |p| % 16 == 0
  }

  function Encrypt(c: Cipher, key: seq<byte>, iv: Block, p: seq<byte>): (r: seq<byte>)
    requires Aligned(p)
    ensures |r| == |p|
    decreases |p|
  {
    if p == [] then []
    else
      var out := c.enc(key, XorBlock(p[..16], iv));
      out + Encrypt(c, key, out, p[16..])
  }

  function Decrypt(c: Cipher, key: seq<byte>, iv: Block, p: seq<byte>): (r: seq<byte>)
    requires Aligned(p)
    ensures |r| == |p|
    decreases |p|
  {
    if p == [] then []
    else XorBlock(c.dec(key, p[..16]), iv) + Decrypt(c, key, p[..16], p[16..])
  }

  lemma {:induction false} RoundTrip(c: Cipher, key: seq<byte>, iv: Block, p: seq<byte>)
    requires c.Inverts() && Aligned(p)
    ensures Decrypt(c, key, iv, Encrypt(c, key, iv, p)) == p
    decreases |p|
  {
    if p != [] {
      var out := c.enc(key, XorBlock(p[..16], iv));
      var e := Encrypt(c, key, iv, p);
      assert e[..16] == out && e[16..] == Encrypt(c, key, out, p[16..]);
      XorBlockCancels(p[..16], iv);
      RoundTrip(c, key, out, p[16..]);
      assert p == p[..16] + p[16..];
    }
  }

  // ---------- the chain ----------

  function BlockAt(p: seq<byte>, i: nat): Block
    requires Aligned(p) && 16 * i + 16 <= |p|
  {
    p[16 * i..16 * i + 16]
  }

  /** What block `i` is combined with: the ciphertext block before it, or the initial block. */
  function Before(iv: Block, c: seq<byte>, i: nat): Block
    requires Aligned(c) && 16 * i + 16 <= |c|
  {
    if i == 0 then iv else BlockAt(c, i - 1)
  }

  /** `c` is the plaintext `p` under cipher block chaining: each block is combined with the ciphertext
    * block before it and then enciphered.
    */
  ghost predicate Chained(cipher: Cipher, key: seq<byte>, iv: Block, p: seq<byte>, c: seq<byte>) {
    && Aligned(p) && |c| == |p|
    && forall i: nat :: 16 * i + 16 <= |p| ==>
         BlockAt(c, i) == cipher.enc(key, XorBlock(BlockAt(p, i), Before(iv, c, i)))
  }

  lemma BlockOfTail(p: seq<byte>, i: nat)
    requires Aligned(p) && 16 <= 16 * i && 16 * i + 16 <= |p|
    ensures BlockAt(p, i) == BlockAt(p[16..], i - 1)
  {
    SuffixSlice(p, 16, 16 * (i - 1), 16 * (i - 1) + 16);
  }

  lemma {:induction false} EncryptChains(cipher: Cipher, key: seq<byte>, iv: Block, p: seq<byte>)
    requires Aligned(p)
    ensures Chained(cipher, key, iv, p, Encrypt(cipher, key, iv, p))
    decreases |p|
  {
    hide XorBlock;
    var c := Encrypt(cipher, key, iv, p);
    if p != [] {
      var out := cipher.enc(key, XorBlock(p[..16], iv));
      var rest := Encrypt(cipher, key, out, p[16..]);
      assert c == out + rest && c[16..] == rest && c[..16] == out;
      EncryptChains(cipher, key, out, p[16..]);
      forall i: nat | 16 * i + 16 <= |p|
        ensures BlockAt(c, i) == cipher.enc(key, XorBlock(BlockAt(p, i), Before(iv, c, i)))
      {
        if i > 0 {
          BlockOfTail(p, i);
          BlockOfTail(c, i);
          if i > 1 {
            BlockOfTail(c, i - 1);
          }
          assert Before(iv, c, i) == Before(out, rest, i - 1);
        }
      }
    }
  }

  lemma {:induction false} SameBlocks(
    cipher: Cipher, key: seq<byte>, iv: Block, p: seq<byte>, c: seq<byte>, d: seq<byte>, i: nat
  )
    requires Chained(cipher, key, iv, p, c) && Chained(cipher, key, iv, p, d) && 16 * i + 16 <= |p|
    ensures BlockAt(c, i) == BlockAt(d, i)
  {
    if i > 0 {
      SameBlocks(cipher, key, iv, p, c, d, i - 1);
    }
    assert Before(iv, c, i) == Before(iv, d, i);
  }

  lemma ByteOfBlock(p: seq<byte>, k: nat)
    requires Aligned(p) && k < |p|
    ensures 16 * (k / 16) + 16 <= |p| && p[k] == BlockAt(p, k / 16)[k % 16]
  {
    assert k == 16 * (k / 16) + k % 16;
  }

  /** Only the encryption of a plaintext is its chained form. */
  lemma ChainedIsEncrypt(cipher: Cipher, key: seq<byte>, iv: Block, p: seq<byte>, c: seq<byte>)
    requires Chained(cipher, key, iv, p, c)
    ensures c == Encrypt(cipher, key, iv, p)
  {
    hide BlockAt, Encrypt;
    var d := Encrypt(cipher, key, iv, p);
    EncryptChains(cipher, key, iv, p);
    forall k | 0 <= k < |p|
      ensures c[k] == d[k]
    {
      ByteOfBlock(c, k);
      ByteOfBlock(d, k);
      SameBlocks(cipher, key, iv, p, c, d, k / 16);
    }
  }

  /** Decryption takes each block through the cipher and then combines it with the block before. */
  lemma {:induction false} DecryptUnchains(cipher: Cipher, key: seq<byte>, iv: Block, c: seq<byte>, i: nat)
    requires Aligned(c) && 16 * i + 16 <= |c|
    ensures BlockAt(Decrypt(cipher, key, iv, c), i)
            == XorBlock(cipher.dec(key, BlockAt(c, i)), Before(iv, c, i))
    decreases |c|
  {
    hide XorBlock;
    var p := Decrypt(cipher, key, iv, c);
    var first, rest := XorBlock(cipher.dec(key, c[..16]), iv), Decrypt(cipher, key, c[..16], c[16..]);
    assert p == first + rest && p[..16] == first && p[16..] == rest;
    if i > 0 {
      DecryptUnchains(cipher, key, c[..16], c[16..], i - 1);
      BlockOfTail(p, i);
      BlockOfTail(c, i);
      if i > 1 {
        BlockOfTail(c, i - 1);
      }
      assert Before(iv, c, i) == Before(c[..16], c[16..], i - 1);
    }
  }
}
