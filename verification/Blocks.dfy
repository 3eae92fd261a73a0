/** Disk blocks as byte arrays, and the two ways the kernel reinterprets them:
    as little-endian 32-bit words (log header, inodes, indirect blocks) and as
    bits (the free map). */
module Blocks {
  datatype Option<+T> = None | Some(value: T)

  type Byte = x: int | 0 <= x < 256
  type Word32 = x: int | 0 <= x < 0x1_0000_0000

  // BSIZE bytes per block (kernel/fs.h).
  type Block = b: seq<Byte> | |b| == 1024 witness seq(1024, _ => 0)

  function ZeroBlock(): (b: Block) {
    seq(1024, _ => 0)
  }

  // `((uint*)data)[i]`
  function Word(b: Block, i: nat): Word32
    requires i < 256
  {
    var b0: int, b1: int, b2: int, b3: int := b[4 * i], b[4 * i + 1], b[4 * i + 2], b[4 * i + 3];
    b0 + 0x100 * b1 + 0x1_0000 * b2 + 0x100_0000 * b3
  }

  // `((uint*)data)[i] = v`
  function SetWord(b: Block, i: nat, v: Word32): Block
    requires i < 256
  {
    b[4 * i := v % 0x100][4 * i + 1 := v / 0x100 % 0x100]
     [4 * i + 2 := v / 0x1_0000 % 0x100][4 * i + 3 := v / 0x100_0000]
  }

  lemma BytesOfWord(v: nat)
    ensures v % 0x100 + 0x100 * (v / 0x100 % 0x100) + 0x1_0000 * (v / 0x1_0000 % 0x100)
      + 0x100_0000 * (v / 0x100_0000) ==
      v
  {
    var a, b := v / 0x100, v / 0x1_0000;
    assert v == 0x100 * a + v % 0x100;
    assert b == a / 0x100 && a == 0x100 * b + a % 0x100;
    assert v / 0x100_0000 == b / 0x100 && b == 0x100 * (b / 0x100) + b % 0x100;
  }

  lemma WordOfSetWord(b: Block, i: nat, v: Word32, j: nat)
    requires i < 256 && j < 256
    ensures Word(SetWord(b, i, v), j) == if i == j then v else Word(b, j)
  {
    var c := SetWord(b, i, v);
    if i == j {
      BytesOfWord(v);
      assert c[4 * i] == v % 0x100;
    } else {
      assert c[4 * j] == b[4 * j] && c[4 * j + 1] == b[4 * j + 1];
      assert c[4 * j + 2] == b[4 * j + 2] && c[4 * j + 3] == b[4 * j + 3];
    }
  }

  lemma WordOfZeroBlock(i: nat)
    requires i < 256
    ensures Word(ZeroBlock(), i) == 0
  {
    assert ZeroBlock()[4 * i] == 0;
  }

  function Pow2(n: nat): nat {
    if n == 0 then 1 else 2 * Pow2(n - 1)
  }

  lemma {:induction false} PowerIsPositive(n: nat)
    ensures Pow2(n) > 0
  {
    if n > 0 {
      PowerIsPositive(n - 1);
    }
  }

  // `x & (1 << k)` is non-zero
  predicate TestBit(x: nat, k: nat) {
    if k == 0 then x % 2 == 1 else TestBit(x / 2, k - 1)
  }

  // `x | (1 << k)` or `x & ~(1 << k)`, for x of n bits
  function WithBit(x: nat, k: nat, on: bool, n: nat): (r: nat)
    requires x < Pow2(n) && k < n
    ensures r < Pow2(n)
  {
    if k == 0 then x - x % 2 + (if on then 1 else 0) else 2 * WithBit(x / 2, k - 1, on, n - 1) + x % 2
  }

  lemma {:induction false} TestWithBit(x: nat, k: nat, on: bool, n: nat, j: nat)
    requires x < Pow2(n) && k < n
    ensures TestBit(WithBit(x, k, on, n), j) == if j == k then on else TestBit(x, j)
  {
    if k > 0 && j > 0 {
      TestWithBit(x / 2, k - 1, on, n - 1, j - 1);
    }
  }

  // `(data[i/8] & (1 << (i%8))) != 0`
  predicate Bit(b: Block, i: nat)
    requires i < 8192
  {
    TestBit(b[i / 8], i % 8)
  }

  // `data[i/8] |= 1 << (i%8)` or `data[i/8] &= ~(1 << (i%8))`
  function PutBit(b: Block, i: nat, on: bool): Block
    requires i < 8192
  {
    assert Pow2(8) == 256 by { assert Pow2(4) == 16; }
    b[i / 8 := WithBit(b[i / 8], i % 8, on, 8)]
  }

  lemma BitOfPutBit(b: Block, i: nat, on: bool, j: nat)
    requires i < 8192 && j < 8192
    ensures Bit(PutBit(b, i, on), j) == if i == j then on else Bit(b, j)
  {
    assert Pow2(8) == 256 by { assert Pow2(4) == 16; }
    TestWithBit(b[i / 8], i % 8, on, 8, j % 8);
  }
}
