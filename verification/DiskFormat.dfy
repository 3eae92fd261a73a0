/** The on-disk format of kernel/fs.h over the bytes of the device alone: what
    another program that knows the format, such as mkfs, reads there. */
module DiskFormat {
  import opened Blocks
  import opened FsModel
  import opened Fs

  // A little-endian 32-bit integer at a byte offset; missing blocks read as 0.
  function Le32(d: Store, b: nat, at: nat): nat {
    if b in d && at + 3 < 1024 then
      var p: seq<int> := d[b];
      p[at] + 256 * (p[at + 1] + 256 * (p[at + 2] + 256 * p[at + 3]))
    else 0
  }

  // An inode takes 64 bytes: two bytes each for type, major, minor and nlink,
  // four for the size, and thirteen block addresses of four.
  function InodeField(d: Store, inodestart: nat, i: nat, at: nat): nat {
    Le32(d, inodestart + i / 16, 64 * (i % 16) + at)
  }

  function FileSize(d: Store, inodestart: nat, i: nat): nat { InodeField(d, inodestart, i, 8) }

  // Twelve direct blocks, then those that the thirteenth one lists.
  function FileBlock(d: Store, inodestart: nat, i: nat, n: nat): nat {
    if n < 12 then InodeField(d, inodestart, i, 12 + 4 * n)
    else Le32(d, InodeField(d, inodestart, i, 60), 4 * (n - 12))
  }

  function FileByte(d: Store, inodestart: nat, i: nat, x: nat): Byte {
    var b := FileBlock(d, inodestart, i, x / 1024);
    if b in d then d[b][x % 1024] else 0
  }

  ghost function FileBytes(d: Store, inodestart: nat, i: nat): seq<Byte> {
    seq(FileSize(d, inodestart, i), x requires 0 <= x => FileByte(d, inodestart, i, x))
  }

  // Bit b of the free map, counting from the lowest bit of its first byte.
  predicate InUse(d: Store, bmapstart: nat, b: nat) {
    var m := bmapstart + b / 8192;
    assert Pow2(b % 8) > 0 by { PowerIsPositive(b % 8); }
    m in d && d[m][b % 8192 / 8] / Pow2(b % 8) % 2 == 1
  }

  lemma WordIsLe32(d: Store, b: nat, i: nat)
    requires b in d && i < 256
    ensures Le32(d, b, 4 * i) == Word(d[b], i)
  {
  }

  lemma FieldsAre(sb: Super, d: Store, i: nat)
    requires IBlock(sb, i) in d
    ensures FileSize(d, sb.inodestart, i) == OnDisk(sb, d, i).size
    ensures forall k :: 0 <= k < 13 ==> InodeField(d, sb.inodestart, i, 12 + 4 * k) == OnDisk(sb, d, i).addrs[k]
  {
    var b, at := IBlock(sb, i), 16 * (i % 16);
    WordIsLe32(d, b, at + 2);
    forall k | 0 <= k < 13 ensures InodeField(d, sb.inodestart, i, 12 + 4 * k) == OnDisk(sb, d, i).addrs[k] {
      WordIsLe32(d, b, at + 3 + k);
    }
  }

  lemma BlocksAre(sb: Super, d: Store, i: nat, n: nat)
    requires IBlock(sb, i) in d && IndirectIn(d, OnDisk(sb, d, i)) && n < 268
    requires n >= 12 ==> OnDisk(sb, d, i).addrs[12] != 0
    ensures FileBlock(d, sb.inodestart, i, n) == Lookup(d, OnDisk(sb, d, i), n)
  {
    FieldsAre(sb, d, i);
    var ino := OnDisk(sb, d, i);
    if n >= 12 {
      assert InodeField(d, sb.inodestart, i, 12 + 4 * 12) == ino.addrs[12];
      WordIsLe32(d, ino.addrs[12], n - 12);
    }
  }

  // The contents that the operations of this model keep track of are the bytes
  // on the device, as the format lays them out.
  lemma ContentIsOnDisk(sb: Super, d: Store, inodes: Itable, i: nat)
    requires AllOnDisk(sb, d, inodes) && i in inodes && FileOk(d, inodes[i])
    ensures FileBytes(d, sb.inodestart, i) == Content(d, inodes[i])
  {
    FieldsAre(sb, d, i);
    var ino := inodes[i];
    forall x | 0 <= x < ino.size ensures FileByte(d, sb.inodestart, i, x) == ByteAt(d, ino, x) {
      var n := x / 1024;
      assert n < 268 && n * 1024 < ino.size;
      assert Lookup(d, ino, n) != 0;
      BlocksAre(sb, d, i, n);
    }
  }

  lemma SmallPowers()
    ensures Pow2(0) == 1 && Pow2(1) == 2 && Pow2(2) == 4 && Pow2(3) == 8 && Pow2(4) == 16
    ensures Pow2(5) == 32 && Pow2(6) == 64 && Pow2(7) == 128
  {
    assert Pow2(3) == 8;
    assert Pow2(6) == 64;
  }

  lemma HalfFirst(x: nat, k: nat)
    requires 0 < k < 8
    ensures Pow2(k - 1) > 0 && Pow2(k) > 0 && x / 2 / Pow2(k - 1) == x / Pow2(k)
  {
    SmallPowers();
    hide Pow2;
    if k == 1 {
    } else if k == 2 {
    } else if k == 3 {
    } else if k == 4 {
    } else if k == 5 {
    } else if k == 6 {
    } else {
      assert k == 7;
    }
  }

  lemma {:induction false} TestBitIs(x: nat, k: nat)
    requires k < 8
    ensures Pow2(k) > 0 && (TestBit(x, k) <==> x / Pow2(k) % 2 == 1)
  {
    PowerIsPositive(k);
    if k == 0 {
      assert Pow2(0) == 1;
    } else {
      hide Pow2;
      TestBitIs(x / 2, k - 1);
      HalfFirst(x, k);
    }
  }

  lemma LowBits(b: nat)
    ensures b % 8192 % 8 == b % 8
  {
    assert b == 8 * (1024 * (b / 8192)) + b % 8192;
  }

  lemma UsedIsOnDisk(sb: Super, d: Store, b: nat)
    requires BBlock(sb, b) in d
    ensures InUse(d, sb.bmapstart, b) <==> Used(sb, d, b)
  {
    var m := BBlock(sb, b);
    var x := d[m][b % 8192 / 8];
    assert InUse(d, sb.bmapstart, b) <==> (PowerIsPositive(b % 8); x / Pow2(b % 8) % 2 == 1);
    hide InUse, Pow2, TestBit;
    LowBits(b);
    TestBitIs(x, b % 8);
  }
}
