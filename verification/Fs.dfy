/** The block and file layer of kernel/fs.c: balloc, bfree, bmap, itrunc, readi,
    writei and iupdate, over the contents that the buffer cache shows. Every
    log_write is recorded in `logged`. */
module Fs {
  import opened Blocks
  import opened FsModel

  class FileSystem {
    const sb: Super
    var disk: Store
    var inodes: Itable          // the in-memory inodes
    ghost var logged: set<nat>  // blocks passed to log_write in this transaction
    ghost var base: Store       // the contents when it began

    constructor (super: Super, d: Store, table: Itable)
      ensures sb == super && disk == d && inodes == table && logged == {}
    {
      sb, disk, inodes, logged, base := super, d, table, {}, d;
    }

    ghost predicate Valid()
      reads this
    {
      && FsOk(sb, disk, inodes, {})
      && forall i :: i in inodes ==> i < sb.ninodes && FileOk(disk, inodes[i])
    }

    // bread, change the contents, log_write, brelse
    method Put(b: nat, v: Block)
      modifies this`disk, this`logged
      ensures disk == old(disk)[b := v] && logged == old(logged) + {b}
    {
      disk := disk[b := v];
      logged := logged + {b};
    }

    // The scan of balloc: the first clear bit of the free map, or sb.size.
    method FindFree() returns (b: nat)
      requires LayoutOk(sb) && Has(sb, disk)
      ensures b <= sb.size
      ensures forall x: nat :: x < b ==> BBlock(sb, x) in disk && Used(sb, disk, x)
      ensures b < sb.size ==> BBlock(sb, b) in disk && !Used(sb, disk, b)
    {
      b := 0;
      while b < sb.size
        invariant b % 8192 == 0 && forall x: nat :: x < b && x < sb.size ==> BBlock(sb, x) in disk && Used(sb, disk, x)
      {
        BBlockIsMeta(sb, b);
        var bp := disk[BBlock(sb, b)];
        var bi := 0;
        while bi < 8192 && b + bi < sb.size
          invariant bi <= 8192
          invariant forall x: nat :: x < b + bi && x < sb.size ==> BBlock(sb, x) in disk && Used(sb, disk, x)
        {
          assert BBlock(sb, b + bi) == BBlock(sb, b) && (b + bi) % 8192 == bi;
          if !Bit(bp, bi) {
            return b + bi;
          }
          bi := bi + 1;
        }
        b := b + 8192;
      }
      b := sb.size;
    }

    // balloc: 0 when the disk is full.
    method Balloc() returns (b: Word32)
      requires FsOk(sb, disk, inodes, {})
      modifies this`disk, this`logged
      ensures b == 0 ==>
        disk == old(disk) && logged == old(logged) && UsedSet(sb, disk) == Interval(sb.datastart, sb.size)
      ensures b != 0 ==>
        && sb.datastart <= b < sb.size && b !in UsedSet(sb, old(disk)) && BBlock(sb, b) in old(disk)
        && Interval(sb.datastart, b) <= UsedSet(sb, old(disk))
        && disk == Marked(sb, old(disk), b, true)[b := ZeroBlock()]
        && logged == old(logged) + {BBlock(sb, b), b}
        && FsOk(sb, disk, inodes, {b}) && Table(disk, inodes) == Table(old(disk), inodes)
      ensures old(Tracks(sb, base, disk, logged)) ==> Tracks(sb, base, disk, logged)
    {
      hide Tight, Table, UsedSet, Used, Interval, Tracks;
      b := FindFree();
      AllUsedBelow(sb, disk, b);
      if b < sb.size {
        AllocKeepsFs(sb, disk, inodes, b);
        BBlockIsMeta(sb, b);
        ghost var v := PutBit(disk[BBlock(sb, b)], b % 8192, true);
        TracksPut(sb, base, disk, logged, BBlock(sb, b), v);
        TracksPut(sb, base, disk[BBlock(sb, b) := v], logged + {BBlock(sb, b)}, b, ZeroBlock());
        Put(BBlock(sb, b), PutBit(disk[BBlock(sb, b)], b % 8192, true));
        Put(b, ZeroBlock());
      } else {
        b := 0;
      }
    }

    // bmap for a pointer kept in the inode: `ip->addrs[k]`, allocated if missing.
    method MapDirect(i: nat, k: nat) returns (addr: Word32)
      requires FsOk(sb, disk, inodes, {}) && i in inodes && k <= 12
      modifies this`disk, this`inodes, this`logged
      ensures FsOk(sb, disk, inodes, {}) && inodes.Keys == old(inodes.Keys)
      ensures SameData(old(disk), Table(old(disk), old(inodes)), disk, Table(disk, inodes))
      ensures forall x :: x in inodes ==>
        inodes[x] == if x == i then old(inodes)[i].(addrs := old(inodes)[i].addrs[k := addr]) else old(inodes)[x]
      ensures addr == 0 ==>
        disk == old(disk) && logged == old(logged) && UsedSet(sb, disk) == Interval(sb.datastart, sb.size)
      ensures old(inodes)[i].addrs[k] != 0 ==>
        addr == old(inodes)[i].addrs[k] && disk == old(disk) && inodes == old(inodes) && logged == old(logged)
      ensures old(inodes)[i].addrs[k] == 0 && addr != 0 ==>
        addr in disk && disk[addr] == ZeroBlock() && logged == old(logged) + {BBlock(sb, addr), addr}
      ensures old(Tracks(sb, base, disk, logged)) ==> Tracks(sb, base, disk, logged)
    {
      hide Tight, Table, UsedSet, Used, Interval, Marked, SameData, Tracks;
      SameDataSelf(sb, disk, inodes, {});
      addr := inodes[i].addrs[k];
      if addr == 0 {
        addr := Balloc();
        if addr != 0 {
          InTable(old(disk), inodes, Slot(i, k));
          AllocSameData(sb, old(disk), inodes, addr, Slot(i, k));
          AssignDirect(sb, disk, inodes, {addr}, i, k, addr);
          inodes := inodes[i := inodes[i].(addrs := inodes[i].addrs[k := addr])];
          assert {addr} - {addr} == {};
        }
      }
    }

    // bmap for a pointer kept in the indirect block: `a[j]`, allocated if missing.
    method MapEntry(i: nat, j: nat) returns (addr: Word32)
      requires FsOk(sb, disk, inodes, {}) && i in inodes && j < 256 && inodes[i].addrs[12] != 0
      modifies this`disk, this`logged
      ensures FsOk(sb, disk, inodes, {})
      ensures SameData(old(disk), Table(old(disk), inodes), disk, Table(disk, inodes))
      ensures addr == 0 ==>
        disk == old(disk) && logged == old(logged) && UsedSet(sb, disk) == Interval(sb.datastart, sb.size)
      ensures addr == Entry(disk, inodes[i], 13 + j)
      ensures Entry(old(disk), inodes[i], 13 + j) != 0 ==> disk == old(disk) && logged == old(logged)
      ensures Entry(old(disk), inodes[i], 13 + j) == 0 && addr != 0 ==>
        && addr in disk && disk[addr] == ZeroBlock()
        && logged == old(logged) + {BBlock(sb, addr), addr, inodes[i].addrs[12]}
      ensures old(Tracks(sb, base, disk, logged)) ==> Tracks(sb, base, disk, logged)
    {
      hide Tight, Table, UsedSet, Used, Interval, Marked, SameData, SetWord, Tracks;
      SameDataSelf(sb, disk, inodes, {});
      OwnedInRange(sb, disk, inodes, {}, i, 12);
      var ib := inodes[i].addrs[12];
      addr := Word(disk[ib], j);
      if addr == 0 {
        addr := Balloc();
        if addr != 0 {
          InTable(old(disk), inodes, Slot(i, 13 + j));
          InTable(disk, inodes, Slot(i, 13 + j));
          AllocSameData(sb, old(disk), inodes, addr, Slot(i, 13 + j));
          ghost var mid := disk;
          FillEntry(i, j, addr);
          SameDataTwice(old(disk), Table(old(disk), inodes), mid, Table(mid, inodes), disk, Table(disk, inodes));
        }
      }
    }

    method FillEntry(i: nat, j: nat, b: Word32)
      requires FsOk(sb, disk, inodes, {b}) && i in inodes && j < 256 && inodes[i].addrs[12] != 0 && b >= sb.datastart
      requires Entry(disk, inodes[i], 13 + j) == 0 && b in disk && inodes[i].addrs[12] != b
      modifies this`disk, this`logged
      ensures FsOk(sb, disk, inodes, {}) && Table(disk, inodes) == Table(old(disk), inodes)[Slot(i, 13 + j) := b]
      ensures SameData(old(disk), Table(old(disk), inodes), disk, Table(disk, inodes))
      ensures logged == old(logged) + {inodes[i].addrs[12]} && b in disk && disk[b] == old(disk)[b]
      ensures Entry(disk, inodes[i], 13 + j) == b
      ensures old(Tracks(sb, base, disk, logged)) ==> Tracks(sb, base, disk, logged)
    {
      hide Tight, Table, UsedSet, Used, SameData, SetWord, Tracks;
      OwnedInRange(sb, disk, inodes, {b}, i, 12);
      TracksPut(sb, base, disk, logged, inodes[i].addrs[12], SetWord(disk[inodes[i].addrs[12]], j, b));
      AssignEntry(sb, disk, inodes, {b}, i, j, b);
      EntrySameData(sb, disk, inodes, i, j, b);
      AssignEntryAt(sb, disk, inodes, {b}, i, j, b, Slot(i, 13 + j));
      assert {b} - {b} == {};
      Put(inodes[i].addrs[12], SetWord(disk[inodes[i].addrs[12]], j, b));
    }

    // What a step on inode i may have logged: the block itself and its free-map
    // block if it was newly allocated, and likewise for the indirect block.
    ghost predicate LoggedFor(before: set<nat>, i: nat, addr: nat, isNew: bool)
      requires i in inodes
      reads this
    {
      var ib := inodes[i].addrs[12];
      logged <= before + (if isNew && addr != 0 then {addr, BBlock(sb, addr)} else {})
                       + (if ib != 0 then {ib, BBlock(sb, ib)} else {})
    }

    // bmap
    method Bmap(i: nat, bn: nat) returns (addr: Word32, panic: bool)
      requires Valid() && i in inodes
      modifies this`disk, this`inodes, this`logged
      ensures Valid() && inodes.Keys == old(inodes.Keys) && panic == (bn >= 268)
      ensures panic ==> addr == 0 && disk == old(disk) && inodes == old(inodes) && logged == old(logged)
      ensures SameData(old(disk), Table(old(disk), old(inodes)), disk, Table(disk, inodes))
      ensures forall x :: x in inodes ==>
        inodes[x].size == old(inodes)[x].size && Content(disk, inodes[x]) == Content(old(disk), old(inodes)[x])
      ensures !panic && addr == 0 ==> UsedSet(sb, disk) == Interval(sb.datastart, sb.size)
      ensures !panic ==> addr == Lookup(disk, inodes[i], bn)
      ensures !panic && Lookup(old(disk), old(inodes)[i], bn) != 0 ==>
        disk == old(disk) && inodes == old(inodes) && logged == old(logged)
      ensures !panic && Lookup(old(disk), old(inodes)[i], bn) == 0 && addr != 0 ==>
        addr in disk && disk[addr] == ZeroBlock()
      ensures !panic ==> LoggedFor(old(logged), i, addr, Lookup(old(disk), old(inodes)[i], bn) == 0)
      ensures old(inodes)[i].addrs[12] != 0 ==> inodes[i].addrs[12] == old(inodes)[i].addrs[12]
      ensures OthersSame(old(inodes), inodes, i)
      ensures old(Tracks(sb, base, disk, logged)) ==> Tracks(sb, base, disk, logged)
    {
      hide Tight, Table, UsedSet, Used, Interval, Marked, SameData, FileOk, Content, Tracks;
      SameDataSelf(sb, disk, inodes, {});
      if bn < 12 {
        addr := MapDirect(i, bn);
        panic := false;
      } else if bn < 268 {
        var ib := MapDirect(i, 12);
        panic := false;
        if ib == 0 {
          addr := 0;
        } else {
          ghost var d1, t1 := disk, Table(disk, inodes);
          addr := MapEntry(i, bn - 12);
          SameDataTwice(old(disk), Table(old(disk), old(inodes)), d1, t1, disk, Table(disk, inodes));
        }
      } else {
        addr, panic := 0, true;
      }
      FilesKept(old(disk), old(inodes), disk, inodes);
    }

    // iupdate
    method Iupdate(i: nat)
      requires Valid() && i in inodes
      modifies this`disk, this`logged
      ensures Valid() && IBlock(sb, i) in disk && OnDisk(sb, disk, i) == inodes[i]
      ensures disk == old(disk)[IBlock(sb, i) := Encoded(old(disk)[IBlock(sb, i)], i % 16, inodes[i], 16)]
      ensures logged == old(logged) + {IBlock(sb, i)}
      ensures SameData(old(disk), Table(old(disk), inodes), disk, Table(disk, inodes))
      ensures forall x :: x in inodes ==> Content(disk, inodes[x]) == Content(old(disk), inodes[x])
      ensures IBlock(sb, i) in old(disk)
      ensures forall x :: x in inodes && x != i ==>
        IBlock(sb, x) in disk && IBlock(sb, x) in old(disk) && OnDisk(sb, disk, x) == OnDisk(sb, old(disk), x)
      ensures UsedSet(sb, disk) == UsedSet(sb, old(disk))
    {
      assert IBlock(sb, i) < sb.bmapstart;
      hide Tight, Table, UsedSet, Used, SameData, FileOk, Content, Encoded, Decoded;
      var data := disk[IBlock(sb, i)];
      var k := 0;
      while k < 16
        invariant 0 <= k <= 16 && data == Encoded(disk[IBlock(sb, i)], i % 16, inodes[i], k)
      {
        data := SetWord(data, 16 * (i % 16) + k, Word16(inodes[i], k));
        k := k + 1;
      }
      MetaWrite(sb, disk, inodes, IBlock(sb, i), data);
      FilesKept(disk, inodes, disk[IBlock(sb, i) := data], inodes);
      InodesKept(sb, disk, i, inodes);
      SameUsed(sb, disk, disk[IBlock(sb, i) := data]);
      Put(IBlock(sb, i), data);
    }

    // writei on inode i has put the bytes s at offset off of a file that held c.
    ghost predicate Writing(i: nat, d0: Store, inodes0: Itable, c: seq<Byte>, off: nat, s: seq<Byte>)
      reads this
    {
      && Valid() && i in inodes && inodes.Keys == inodes0.Keys
      && (forall x :: x in inodes ==> inodes[x].size == inodes0[x].size)
      && (forall x :: x in inodes && x != i ==>
            FileOk(d0, inodes0[x]) && Content(disk, inodes[x]) == Content(d0, inodes0[x]))
      && off <= |c| == inodes[i].size && |Splice(c, off, s)| <= 268 * 1024 && Shows(disk, inodes[i], c, off, s)
    }

    // What inode i's indirect block can add to the log.
    ghost function Indirect(i: nat): set<nat>
      requires i in inodes
      reads this
    {
      var ib := inodes[i].addrs[12];
      if ib != 0 then {ib, BBlock(sb, ib)} else {}
    }

    // bmap inside writei.
    method MapForWrite(i: nat, pos: nat, ghost d0: Store, ghost inodes0: Itable, ghost c: seq<Byte>, ghost off: nat,
                       ghost s: seq<Byte>)
      returns (addr: nat, ghost isNew: bool)
      requires Writing(i, d0, inodes0, c, off, s) && pos == off + |s| && pos / 1024 < 268
      modifies this`disk, this`inodes, this`logged
      ensures Writing(i, d0, inodes0, c, off, s) && AllIndirectIn(disk, inodes)
      ensures addr == Lookup(disk, inodes[i], pos / 1024)
      ensures s == [] && !Aligned(off) ==> !isNew
      ensures logged <= old(logged) + {addr} + (if isNew then {BBlock(sb, addr)} else {}) + Indirect(i)
      ensures old(Indirect(i)) <= Indirect(i)
      ensures addr == 0 ==> UsedSet(sb, disk) == Interval(sb.datastart, sb.size)
      ensures OthersSame(old(inodes), inodes, i)
      ensures old(Tracks(sb, base, disk, logged)) ==> Tracks(sb, base, disk, logged)
    {
      hide Tracks, OthersSame, FsOk, SameData, Shows, Content, UsedSet, Table, Interval, FileOk, Splice, Lookup, BBlock;
      StillIndirect();
      isNew := Lookup(disk, inodes[i], pos / 1024) == 0;
      if s == [] && !Aligned(off) {
        StartsInMappedBlock(i, d0, inodes0, c, off, s);
      }
      var a, panic := Bmap(i, pos / 1024);
      addr := a;
      StillIndirect();
      SameDataShows(old(disk), old(inodes), disk, inodes, i, c, off, s);
    }

    // One round of writei's loop: bmap, copy m bytes t into the block, log_write.
    // `addr` is the block used; `isNew` says that bmap had to allocate it.
    method WriteChunk(i: nat, t: seq<Byte>, pos: nat, fault: bool,
                      ghost d0: Store, ghost inodes0: Itable, ghost c: seq<Byte>, ghost off: nat, ghost s: seq<Byte>)
      returns (ok: bool, ghost addr: nat, ghost isNew: bool)
      requires Writing(i, d0, inodes0, c, off, s) && pos == off + |s| && InBlock(pos, |t|) && pos + |t| <= 268 * 1024
      requires |t| > 0
      modifies this`disk, this`inodes, this`logged
      ensures Writing(i, d0, inodes0, c, off, if ok then s + t else s)
      ensures s == [] && !Aligned(off) ==> !isNew
      ensures i in inodes && logged <= old(logged) + {addr} + (if isNew then {BBlock(sb, addr)} else {}) + Indirect(i)
      ensures old(Indirect(i)) <= Indirect(i)
      ensures !ok && !fault ==> UsedSet(sb, disk) == Interval(sb.datastart, sb.size)
      ensures ok ==> !fault
      ensures OthersSame(old(inodes), inodes, i)
      ensures old(Tracks(sb, base, disk, logged)) ==> Tracks(sb, base, disk, logged)
    {
      hide Tracks, OthersSame, FsOk, Shows, Content, UsedSet, Interval, FileOk, Splice, Lookup, BBlock;
      assert pos % 1024 + |t| <= 1024;
      var a, new1 := MapForWrite(i, pos, d0, inodes0, c, off, s);
      addr, isNew := a, new1;
      if a == 0 {
        ok := false;
      } else if fault {
        ok := false;
      } else {
        WriteStep(i, d0, inodes0, c, off, s, t);
        TracksPut(sb, base, disk, logged, a, Patch(disk[a], pos % 1024, t));
        Put(a, Patch(disk[a], pos % 1024, t));
        ok := true;
      }
    }

    // writei: `src` is the data; either_copyin fails from byte `good` of it on.
    // Result -1 is the refusal before anything is done.
    method Writei(i: nat, src: seq<Byte>, off0: Word32, good: nat) returns (r: int)
      requires Valid() && i in inodes && |src| < 0x1_0000_0000
      modifies this`disk, this`inodes, this`logged
      ensures Valid() && inodes.Keys == old(inodes.Keys)
      ensures r == -1 <==>
        off0 > old(inodes)[i].size || (off0 + |src|) % 0x1_0000_0000 < off0 || off0 + |src| > 268 * 1024
      ensures r == -1 ==> disk == old(disk) && inodes == old(inodes) && logged == old(logged)
      ensures r != -1 ==> 0 <= r <= |src|
      // exactly the first r bytes of src replace what was at off0, and no other file changes
      ensures r != -1 ==> Content(disk, inodes[i]) == Splice(Content(old(disk), old(inodes)[i]), off0, src[..r])
      ensures forall x :: x in inodes && x != i ==> Content(disk, inodes[x]) == Content(old(disk), old(inodes)[x])
      // a short write means a failed copy or a full disk
      ensures 0 <= r < |src| && |src| <= good ==> UsedSet(sb, disk) == Interval(sb.datastart, sb.size)
      ensures r != -1 ==> IBlock(sb, i) in disk && OnDisk(sb, disk, i) == inodes[i]
      // a write of at most k blocks' worth of bytes logs at most 2k + 4 blocks
      ensures old(logged) == {} ==> forall k: nat :: |src| <= k * 1024 ==> |logged| <= 2 * k + 4
      // what changes is logged, and the inodes on disk are those in memory
      ensures old(logged) == {} && base == old(disk) ==> Confined(sb, base, disk, logged)
      ensures old(logged) == {} && base == old(disk) && AllOnDisk(sb, base, old(inodes)) ==> AllOnDisk(sb, disk, inodes)
    {
      hide FsOk, SameData, Shows, Content, UsedSet, Table, Interval, FileOk, Splice, Confined, AllOnDisk, OnDisk;
      if old(logged) == {} {
        NothingLogged(sb, disk);
      }
      if off0 > inodes[i].size || (off0 + |src|) % 0x1_0000_0000 < off0 {
        return -1;
      }
      if (off0 + |src|) % 0x1_0000_0000 > 268 * 1024 {
        return -1;
      }
      var tot, t := WriteRange(i, src, off0, good);
      r := tot;
      if old(logged) == {} {
        LogBound(logged, t, inodes[i].addrs[12], BBlock(sb, inodes[i].addrs[12]), IBlock(sb, i), off0, |src|);
      }
    }

    // The rest of writei, for a range that a file can have.
    method WriteRange(i: nat, src: seq<Byte>, off0: Word32, good: nat) returns (tot: nat, ghost t: Tally)
      requires Valid() && i in inodes && off0 <= inodes[i].size && off0 + |src| <= 268 * 1024
      modifies this`disk, this`inodes, this`logged
      ensures Valid() && inodes.Keys == old(inodes.Keys) && tot <= |src|
      ensures Content(disk, inodes[i]) == Splice(Content(old(disk), old(inodes)[i]), off0, src[..tot])
      ensures forall x :: x in inodes && x != i ==> Content(disk, inodes[x]) == Content(old(disk), old(inodes)[x])
      ensures tot < |src| <= good ==> UsedSet(sb, disk) == Interval(sb.datastart, sb.size)
      ensures IBlock(sb, i) in disk && OnDisk(sb, disk, i) == inodes[i]
      ensures logged <= old(logged) + t.data + t.maps + Indirect(i) + {IBlock(sb, i)} && Within(t, off0, |src|)
      ensures old(logged) == {} && base == old(disk) ==> Confined(sb, base, disk, logged)
      ensures old(logged) == {} && base == old(disk) && AllOnDisk(sb, base, old(inodes)) ==> AllOnDisk(sb, disk, inodes)
    {
      hide FsOk, SameData, Shows, Content, UsedSet, Table, Interval, FileOk, Splice, Tracks, Confined, AllOnDisk;
      hide OnDisk, OthersSame, Within, BBlock;
      if old(logged) == {} {
        NothingLogged(sb, disk);
      }
      WritingStarts(i, off0);
      ghost var c := Content(disk, inodes[i]);
      tot, t := WriteLoop(i, src, off0, good, c);
      ghost var mid, table, changed := disk, inodes, logged;
      FinishWrite(i, off0 + tot, old(disk), old(inodes), c, off0, src[..tot]);
      if old(logged) == {} && base == old(disk) {
        StillIndirect();
        WrittenBack(sb, base, old(inodes), mid, table, changed, disk, inodes, i);
      }
    }

    lemma WritingStarts(i: nat, off: nat)
      requires Valid() && i in inodes && off <= inodes[i].size
      ensures Writing(i, disk, inodes, Content(disk, inodes[i]), off, [])
    {
      FileShows(disk, inodes[i], off);
      assert Splice(Content(disk, inodes[i]), off, []) == Content(disk, inodes[i]);
    }

    // The loop of writei, with the tally of what it logs.
    method WriteLoop(i: nat, src: seq<Byte>, off0: Word32, good: nat,
                     ghost c: seq<Byte>) returns (tot: nat, ghost t: Tally)
      requires Writing(i, disk, inodes, c, off0, []) && off0 + |src| <= 268 * 1024 && i in inodes
      modifies this`disk, this`inodes, this`logged
      ensures tot <= |src| && Writing(i, old(disk), old(inodes), c, off0, src[..tot]) && i in inodes
      ensures tot < |src| <= good ==> UsedSet(sb, disk) == Interval(sb.datastart, sb.size)
      ensures logged <= old(logged) + t.data + t.maps + Indirect(i) && Within(t, off0, |src|)
      ensures OthersSame(old(inodes), inodes, i)
      ensures old(Tracks(sb, base, disk, logged)) ==> Tracks(sb, base, disk, logged)
    {
      SameSelf(inodes, i);
      hide Tracks, OthersSame, FsOk, UsedSet, Interval, Writing, Tallied, Within, Aligned, InBlock, ChunkLen;
      var off, n := off0, |src|;
      tot, t := 0, Tally({}, {}, 0, 0);
      assert src[..0] == [];
      TallyStarts(off0, n);
      while tot < n
        invariant 0 <= tot <= n && off == off0 + tot && i in inodes
        invariant Writing(i, old(disk), old(inodes), c, off0, src[..tot])
        invariant Tallied(t, off0, tot) && Within(t, off0, n) && (tot < n && tot > 0 ==> Aligned(off))
        invariant logged <= old(logged) + t.data + t.maps + Indirect(i)
        invariant OthersSame(old(inodes), inodes, i)
        invariant (old(Tracks(sb, base, disk, logged)) ==> Tracks(sb, base, disk, logged))
      {
        ghost var was := inodes;
        RoundsGrow(off0, tot, n);
        var m := ChunkLen(off, n - tot);
        assert src[..tot + m] == src[..tot] + src[tot..tot + m];
        var ok, addr, isNew :=
          WriteChunk(i, src[tot..tot + m], off, tot + m > good, old(disk), old(inodes), c, off0, src[..tot]);
        SameTwice(old(inodes), was, inodes, i);
        TallyRound(t, off0, tot, n, addr, isNew, BBlock(sb, addr));
        t := Add(t, addr, isNew, BBlock(sb, addr));
        if !ok {
          return;
        }
        tot := tot + m;
        off := off + m;
      }
    }

    // A write that starts in the middle of a block starts in an allocated one.
    lemma StartsInMappedBlock(i: nat, d0: Store, inodes0: Itable, c: seq<Byte>, off: nat, s: seq<Byte>)
      requires Writing(i, d0, inodes0, c, off, s) && !Aligned(off)
      ensures AllIndirectIn(disk, inodes) && i in inodes && off / 1024 < 268 && Lookup(disk, inodes[i], off / 1024) != 0
    {
      assert off / 1024 * 1024 < off;
      assert FileOk(disk, inodes[i]);
    }

    // The end of writei: grow the size if needed, and iupdate.
    method FinishWrite(i: nat, off: nat, ghost d0: Store, ghost inodes0: Itable, ghost c: seq<Byte>, ghost off0: nat,
                       ghost s: seq<Byte>)
      requires Writing(i, d0, inodes0, c, off0, s) && off == off0 + |s|
      modifies this`disk, this`inodes, this`logged
      ensures Valid() && inodes.Keys == old(inodes.Keys) && Content(disk, inodes[i]) == Splice(c, off0, s)
      ensures forall x :: x in inodes && x != i ==>
        FileOk(d0, inodes0[x]) && Content(disk, inodes[x]) == Content(d0, inodes0[x])
      ensures logged == old(logged) + {IBlock(sb, i)} && inodes[i].addrs == old(inodes)[i].addrs
      ensures IBlock(sb, i) in disk && OnDisk(sb, disk, i) == inodes[i] && UsedSet(sb, disk) == UsedSet(sb, old(disk))
      ensures OthersSame(old(inodes), inodes, i) && IBlock(sb, i) in old(disk)
      ensures disk == old(disk)[IBlock(sb, i) := disk[IBlock(sb, i)]]
      ensures forall x :: x in inodes && x != i ==>
        IBlock(sb, x) in disk && IBlock(sb, x) in old(disk) && OnDisk(sb, disk, x) == OnDisk(sb, old(disk), x)
    {
      hide FsOk, SameData, Shows, Content, UsedSet, Table, FileOk, Encoded, Decoded, Splice;
      GrowFile(i, d0, inodes0, c, off0, s);
      if off > inodes[i].size {
        inodes := inodes[i := inodes[i].(size := off)];
      }
      Iupdate(i);
    }

    lemma GrowFile(i: nat, d0: Store, inodes0: Itable, c: seq<Byte>, off: nat, s: seq<Byte>)
      requires Writing(i, d0, inodes0, c, off, s)
      ensures var ino := inodes[i].(size := if off + |s| > inodes[i].size then off + |s| else inodes[i].size);
        && FsOk(sb, disk, inodes[i := ino], {}) && FileOk(disk, ino) && Content(disk, ino) == Splice(c, off, s)
    {
      var ino := inodes[i].(size := if off + |s| > inodes[i].size then off + |s| else inodes[i].size);
      assert IndirectIn(disk, inodes[i]);
      forall x: nat | x < |Splice(c, off, s)|
        ensures Mapped(disk, ino, x) && Raw(disk, ino, x) == Splice(c, off, s)[x]
      {
        assert Mapped(disk, inodes[i], x);
      }
      ShownFile(disk, ino, c, off, s);
      SizeKeepsFs(sb, disk, inodes, i, ino.size);
    }

    // bfree: false is the "freeing free block" panic.
    method Bfree(b: nat) returns (ok: bool)
      requires LayoutOk(sb) && Has(sb, disk) && b < sb.size
      modifies this`disk, this`logged
      ensures BBlock(sb, b) in old(disk) && ok == Used(sb, old(disk), b)
      ensures disk == if ok then Marked(sb, old(disk), b, false) else old(disk)
      ensures logged == if ok then old(logged) + {BBlock(sb, b)} else old(logged)
    {
      BBlockIsMeta(sb, b);
      var bp := disk[BBlock(sb, b)];
      if !Bit(bp, b % 8192) {
        return false;
      }
      Put(BBlock(sb, b), PutBit(bp, b % 8192, false));
      ok := true;
    }

    // Part of inode i is already truncated: only the free map and i have changed.
    ghost predicate Truncating(i: nat, d0: Store, inodes0: Itable)
      reads this
    {
      && FsOk(sb, disk, inodes, {}) && OnlyMap(sb, d0, disk)
      && i in inodes0 && inodes.Keys == inodes0.Keys && forall x :: x in inodes && x != i ==> inodes[x] == inodes0[x]
    }

    // The first loop of itrunc.
    method TruncDirect(i: nat, ghost d0: Store, ghost inodes0: Itable) returns (ok: bool)
      requires Truncating(i, d0, inodes0)
      modifies this`disk, this`inodes, this`logged
      ensures ok && Truncating(i, d0, inodes0)
      ensures inodes[i] == old(inodes)[i].(addrs := inodes[i].addrs) && inodes[i].addrs[12] == old(inodes)[i].addrs[12]
      ensures forall k :: 0 <= k < 12 ==> inodes[i].addrs[k] == 0
    {
      hide FsOk;
      var k := 0;
      while k < 12
        invariant 0 <= k <= 12 && Truncating(i, d0, inodes0)
        invariant inodes[i] == old(inodes)[i].(addrs := inodes[i].addrs)
        invariant inodes[i].addrs[12] == old(inodes)[i].addrs[12]
        invariant forall j :: 0 <= j < k ==> inodes[i].addrs[j] == 0
      {
        if inodes[i].addrs[k] != 0 {
          StillIndirect();
          DropDirect(sb, disk, inodes, i, k);
          ok := Bfree(inodes[i].addrs[k]);
          assert ok;  // the panic of bfree is out of reach
          inodes := inodes[i := inodes[i].(addrs := inodes[i].addrs[k := 0])];
        }
        k := k + 1;
      }
      ok := true;
    }

    // bfree of a block that nothing points to any more
    method FreeHeld(b: nat, ghost table: Itable, ghost extra: set<nat>)
      requires FsOk(sb, disk, table, extra) && b in extra
      modifies this`disk, this`logged
      ensures FsOk(sb, disk, table, extra - {b}) && OnlyMap(sb, old(disk), disk)
    {
      GiveBack(sb, disk, table, extra, b);
      FsBasics(sb, disk, table, extra);
      hide FsOk;
      var ok := Bfree(b);
      assert ok;
    }

    // The second loop of itrunc: free everything the indirect block points to.
    // `gone` is the inode table with the indirect block already cut off.
    method TruncEntries(i: nat, ghost gone: Itable) returns (ok: bool)
      requires FsOk(sb, disk, inodes, {}) && i in inodes && inodes[i].addrs[12] != 0
      requires gone == inodes[i := inodes[i].(addrs := inodes[i].addrs[12 := 0])]
      modifies this`disk, this`logged
      ensures ok && FsOk(sb, disk, gone, {inodes[i].addrs[12]}) && OnlyMap(sb, old(disk), disk)
    {
      DetachIndirect(sb, disk, inodes, {}, i);
      hide FsOk, Hanging, OnlyMap, Word;
      OnlyMapSelf(sb, disk);
      var ib := inodes[i].addrs[12];
      assert {} + {ib} + Hanging(disk, inodes[i], 0) == {ib} + Hanging(disk, inodes[i], 0);
      var a := disk[ib];
      var j := 0;
      while j < 256
        invariant 0 <= j <= 256 && IndirectIn(old(disk), inodes[i]) && OnlyMap(sb, old(disk), disk)
        invariant FsOk(sb, disk, gone, {ib} + Hanging(old(disk), inodes[i], j))
      {
        HangingStep(sb, old(disk), inodes, i, j);
        if Word(a, j) != 0 {
          ghost var extra := {ib} + Hanging(old(disk), inodes[i], j);
          ghost var was := disk;
          FreeHeld(Word(a, j), gone, extra);
          OnlyMapThrice(sb, old(disk), was, was, disk);
          assert extra - {Word(a, j)} == {ib} + Hanging(old(disk), inodes[i], j + 1);
        }
        j := j + 1;
      }
      HangingNone(old(disk), inodes[i]);
      assert {ib} + {} == {ib};
      ok := true;
    }

    // itrunc. The panic of bfree cannot happen, and exactly the blocks of
    // inode i become free.
    method Itrunc(i: nat) returns (ok: bool)
      requires Valid() && i in inodes
      modifies this`disk, this`inodes, this`logged
      ensures ok && Valid() && inodes.Keys == old(inodes.Keys)
      ensures Content(disk, inodes[i]) == [] && forall k :: 0 <= k <= 12 ==> inodes[i].addrs[k] == 0
      ensures UsedSet(sb, disk) == UsedSet(sb, old(disk)) - Owned(Table(old(disk), old(inodes)), i)
      ensures forall x :: x in inodes && x != i ==>
        inodes[x] == old(inodes)[x] && Content(disk, inodes[x]) == Content(old(disk), inodes[x])
      ensures IBlock(sb, i) in disk && OnDisk(sb, disk, i) == inodes[i]
    {
      hide FsOk, Content, UsedSet, Table, FileOk, Owned, OnlyMap;
      ok := FreeBlocks(i);
      TruncatedFs(i, old(disk), old(inodes));
      inodes := inodes[i := inodes[i].(size := 0)];
      Iupdate(i);
    }

    // Both loops of itrunc.
    method FreeBlocks(i: nat) returns (ok: bool)
      requires FsOk(sb, disk, inodes, {}) && i in inodes
      modifies this`disk, this`inodes, this`logged
      ensures ok && Truncating(i, old(disk), old(inodes))
      ensures forall k :: 0 <= k <= 12 ==> inodes[i].addrs[k] == 0
    {
      hide FsOk, OnlyMap;
      OnlyMapSelf(sb, disk);
      ok := TruncDirect(i, disk, inodes);
      if inodes[i].addrs[12] != 0 {
        ok := TruncIndirect(i, old(disk), old(inodes));
      }
    }

    method TruncIndirect(i: nat, ghost d0: Store, ghost inodes0: Itable) returns (ok: bool)
      requires Truncating(i, d0, inodes0) && i in inodes && inodes[i].addrs[12] != 0
      modifies this`disk, this`inodes, this`logged
      ensures ok && Truncating(i, d0, inodes0)
      ensures inodes[i] == old(inodes)[i].(addrs := old(inodes)[i].addrs[12 := 0])
    {
      hide FsOk, OnlyMap;
      ghost var gone := inodes[i := inodes[i].(addrs := inodes[i].addrs[12 := 0])];
      ghost var d1 := disk;
      var ib := inodes[i].addrs[12];
      ok := TruncEntries(i, gone);
      ghost var d2 := disk;
      GiveBack(sb, disk, gone, {ib}, ib);
      FsBasics(sb, disk, gone, {ib});
      ok := Bfree(ib);
      assert ok;
      OnlyMapThrice(sb, d0, d1, d2, disk);
      assert {ib} - {ib} == {};
      inodes := inodes[i := inodes[i].(addrs := inodes[i].addrs[12 := 0])];
    }

    // Every pointer of inode i is gone.
    lemma TruncatedFs(i: nat, d0: Store, inodes0: Itable)
      requires Truncating(i, d0, inodes0) && i in inodes && (forall k :: 0 <= k <= 12 ==> inodes[i].addrs[k] == 0)
      requires FsOk(sb, d0, inodes0, {}) && forall x :: x in inodes0 ==> FileOk(d0, inodes0[x])
      ensures FsOk(sb, disk, inodes[i := inodes[i].(size := 0)], {})
      ensures FileOk(disk, inodes[i].(size := 0)) && Content(disk, inodes[i].(size := 0)) == []
      ensures forall x :: x in inodes && x != i ==>
        FileOk(disk, inodes[x]) && Content(disk, inodes[x]) == Content(d0, inodes0[x])
      ensures UsedSet(sb, disk) == UsedSet(sb, d0) - Owned(Table(d0, inodes0), i)
    {
      hide FsOk, UsedSet, Owned, Table;
      SizeKeepsFs(sb, disk, inodes, i, 0);
      StillIndirect();
      forall x | x in inodes && x != i
        ensures FileOk(disk, inodes[x]) && Content(disk, inodes[x]) == Content(d0, inodes0[x])
      {
        OtherFilesUnderOnlyMap(sb, d0, inodes0, disk, x);
      }
      TruncatedTable(sb, d0, inodes0, disk, inodes, i);
    }

    // readi: the copy out fails from byte `good` of the request on. It never
    // allocates, and it returns exactly the bytes of the file in the range.
    method Readi(i: nat, off0: Word32, n0: Word32, good: nat) returns (r: int, out: seq<Byte>)
      requires Valid() && i in inodes
      modifies this`disk, this`inodes, this`logged
      ensures disk == old(disk) && inodes == old(inodes) && logged == old(logged)
      ensures off0 > inodes[i].size || (off0 + n0) % 0x1_0000_0000 < off0 ==> r == 0 && out == []
      ensures off0 <= inodes[i].size && (off0 + n0) % 0x1_0000_0000 >= off0 ==>
        var n := if off0 + n0 > inodes[i].size then inodes[i].size - off0 else n0;
        if n <= good then r == n && out == Content(disk, inodes[i])[off0..off0 + n] else r == -1
    {
      hide FsOk, Content, FileOk, UsedSet, Table;
      if off0 > inodes[i].size || (off0 + n0) % 0x1_0000_0000 < off0 {
        return 0, [];
      }
      var n := n0;
      if (off0 + n0) % 0x1_0000_0000 > inodes[i].size {
        n := inodes[i].size - off0;
      }
      r, out := ReadLoop(i, off0, n, good);
    }

    // readi's loop, for a range inside the file.
    method ReadLoop(i: nat, off0: nat, n: nat, good: nat) returns (r: int, out: seq<Byte>)
      requires Valid() && i in inodes && off0 + n <= inodes[i].size
      modifies this`disk, this`inodes, this`logged
      ensures disk == old(disk) && inodes == old(inodes) && logged == old(logged)
      ensures |Content(disk, inodes[i])| == inodes[i].size
      ensures if n <= good then r == n && out == Content(disk, inodes[i])[off0..off0 + n] else r == -1
    {
      hide FsOk, Content, FileOk, Lookup, UsedSet, Table, SameData, Interval, BBlock, Marked;
      FileSize(disk, inodes[i]);
      ghost var c := Content(disk, inodes[i]);
      var off, tot := off0, 0;
      out := [];
      while tot < n
        invariant i in inodes && 0 <= tot <= n && off == off0 + tot && off0 + n <= inodes[i].size == |c| && tot <= good
        invariant disk == old(disk) && inodes == old(inodes) && logged == old(logged)
        invariant out == c[off0..off]
      {
        FileBlock(disk, inodes[i], off);
        var addr, panic := Bmap(i, off / 1024);
        if addr == 0 {
          break;
        }
        var bp := disk[addr];
        var m := ChunkLen(off, n - tot);
        ReadSlice(disk, inodes[i], off, m);
        if tot + m > good {
          return -1, out;
        }
        out := out + bp[off % 1024..off % 1024 + m];
        assert c[off0..off] + c[off..off + m] == c[off0..off + m];
        tot := tot + m;
        off := off + m;
      }
      r := tot;
    }

    // begin_op, writei, end_op for one chunk of filewrite; `count` is the
    // number of blocks the transaction logged.
    method WriteOp(i: nat, t: seq<Byte>, off: Word32, good: nat, maxOp: nat) returns (r: int, ghost count: nat)
      requires Valid() && i in inodes && maxOp >= 4 && |t| <= (maxOp - 4) / 2 * 1024 && |t| < 0x1_0000_0000
      modifies this`disk, this`inodes, this`logged, this`base
      ensures Valid() && inodes.Keys == old(inodes.Keys) && count <= maxOp && -1 <= r <= |t|
      ensures r <= 0 ==> Content(disk, inodes[i]) == Content(old(disk), old(inodes)[i])
      ensures r > 0 ==> off <= |Content(old(disk), old(inodes)[i])| && off + r < 0x1_0000_0000
      ensures r > 0 ==> Content(disk, inodes[i]) == Splice(Content(old(disk), old(inodes)[i]), off, t[..r])
      ensures forall x :: x in inodes && x != i ==> Content(disk, inodes[x]) == Content(old(disk), old(inodes)[x])
      ensures count == |logged| && Confined(sb, old(disk), disk, logged)
      ensures AllOnDisk(sb, old(disk), old(inodes)) ==> AllOnDisk(sb, disk, inodes)
    {
      hide FsOk, Content, FileOk, Splice, UsedSet, Interval, OnDisk, Confined, AllOnDisk;
      FileSize(disk, inodes[i]);
      logged, base := {}, disk;
      r := Writei(i, t, off, good);
      count := |logged|;
      if r == 0 {
        SpliceNothing(Content(old(disk), old(inodes)[i]), off);
        assert t[..0] == [];
      }
    }

    // filewrite on an inode: one transaction per chunk. `ops` records how many
    // blocks each of them logged.
    method Filewrite(i: nat, src: seq<Byte>, off0: Word32, good: nat, maxOp: nat)
      returns (ret: int, off: Word32, ghost ops: seq<nat>)
      requires Valid() && i in inodes && |src| < 0x8000_0000 && maxOp >= 6
      modifies this`disk, this`inodes, this`logged, this`base
      ensures Valid() && inodes.Keys == old(inodes.Keys)
      ensures off0 <= off <= off0 + |src| && ret == if off == off0 + |src| then |src| else -1
      ensures off > off0 ==> off0 <= |Content(old(disk), old(inodes)[i])|
      ensures off > off0 ==>
        Content(disk, inodes[i]) == Splice(Content(old(disk), old(inodes)[i]), off0, src[..off - off0])
      ensures off == off0 ==> Content(disk, inodes[i]) == Content(old(disk), old(inodes)[i])
      ensures forall x :: x in inodes && x != i ==> Content(disk, inodes[x]) == Content(old(disk), old(inodes)[x])
      // no transaction exceeds MAXOPBLOCKS
      ensures forall k :: 0 <= k < |ops| ==> ops[k] <= maxOp
    {
      hide FsOk, Content, FileOk, Splice;
      var max := (maxOp - 1 - 1 - 2) / 2 * 1024;
      var pos, n := 0, |src|;
      off, ops := off0, [];
      ghost var c := Content(disk, inodes[i]);
      while pos < n
        invariant 0 <= pos <= n && off == off0 + pos && i in inodes && Valid() && inodes.Keys == old(inodes.Keys)
        invariant pos == 0 ==> Content(disk, inodes[i]) == c
        invariant pos > 0 ==> off0 <= |c| && Content(disk, inodes[i]) == Splice(c, off0, src[..pos])
        invariant forall x :: x in inodes && x != i ==> Content(disk, inodes[x]) == Content(old(disk), old(inodes)[x])
        invariant forall k :: 0 <= k < |ops| ==> ops[k] <= maxOp
      {
        var n1 := if n - pos > max then max else n - pos;
        var r, count := WriteOp(i, src[pos..pos + n1], off, if good > pos then good - pos else 0, maxOp);
        ops := ops + [count];
        if r > 0 {
          SpliceSplice(c, off0, src, pos, n1, r);
          off := off + r;
        }
        if r != n1 {
          break;
        }
        pos := pos + r;
      }
      ret := if pos == n then n else -1;
    }

    lemma StillIndirect()
      requires FsOk(sb, disk, inodes, {})
      ensures LayoutOk(sb) && Has(sb, disk) && AllIndirectIn(disk, inodes)
    {
    }

    lemma WriteStep(i: nat, d0: Store, inodes0: Itable, c: seq<Byte>, off: nat, s: seq<Byte>, t: seq<Byte>)
      requires Writing(i, d0, inodes0, c, off, s) && AllIndirectIn(disk, inodes)
      requires (off + |s|) % 1024 + |t| <= 1024 && off + |s| + |t| <= 268 * 1024 && |t| > 0
      requires Lookup(disk, inodes[i], (off + |s|) / 1024) != 0
      ensures var a := Lookup(disk, inodes[i], (off + |s|) / 1024);
        && a in disk && sb.datastart <= a < sb.size && sb.bmapstart <= sb.datastart
        && var d' := disk[a := Patch(disk[a], (off + |s|) % 1024, t)];
        && FsOk(sb, d', inodes, {}) && Shows(d', inodes[i], c, off, s + t) && |Splice(c, off, s + t)| <= 268 * 1024
        && FileOk(d', inodes[i])
        && forall x :: x in inodes && x != i ==>
             FileOk(d', inodes[x]) && Content(d', inodes[x]) == Content(disk, inodes[x])
    {
      hide FsOk, Shows, Content, Table, FileOk;
      var n := (off + |s|) / 1024;
      var a := Lookup(disk, inodes[i], n);
      OwnedInRange(sb, disk, inodes, {}, i, DSlot(n));
      StillIndirect();
      var v := Patch(disk[a], (off + |s|) % 1024, t);
      DataWrite(sb, disk, inodes, i, n, v);
      PatchShows(sb, disk, inodes, i, c, off, s, t);
      ShownIsFile(disk[a := v], inodes[i], c, off, s + t);
    }
  }

  // Only logged blocks differ from the contents at the start, and before the
  // inode itself is written they are all free-map or data blocks.
  ghost predicate Tracks(sb: Super, base: Store, d: Store, logged: set<nat>) {
    && d.Keys == base.Keys && (forall b :: b in d && b !in logged ==> d[b] == base[b])
    && (forall b :: b in logged ==> b in d && sb.bmapstart <= b < sb.size)
  }

  lemma TracksPut(sb: Super, base: Store, d: Store, logged: set<nat>, b: nat, v: Block)
    requires b in d && sb.bmapstart <= b < sb.size
    ensures Tracks(sb, base, d, logged) ==> Tracks(sb, base, d[b := v], logged + {b})
  {
  }

  // The same once the inode is written as well.
  ghost predicate Confined(sb: Super, base: Store, d: Store, logged: set<nat>) {
    && d.Keys == base.Keys && (forall b :: b in d && b !in logged ==> d[b] == base[b])
    && (forall b :: b in logged ==> b in d && sb.inodestart <= b < sb.size)
  }

  ghost predicate AllOnDisk(sb: Super, d: Store, inodes: Itable) {
    forall x :: x in inodes ==> IBlock(sb, x) in d && OnDisk(sb, d, x) == inodes[x]
  }

  lemma NothingLogged(sb: Super, d: Store)
    ensures Tracks(sb, d, d, {}) && Confined(sb, d, d, {})
  {
  }

  // iupdate after the loop of writei
  lemma WrittenBack(sb: Super, base: Store, inodes0: Itable, mid: Store, inodes1: Itable, logged: set<nat>,
                    d: Store, inodes: Itable, i: nat)
    requires LayoutOk(sb) && Tracks(sb, base, mid, logged) && OthersSame(inodes0, inodes1, i)
    requires OthersSame(inodes1, inodes, i) && i in inodes && forall x :: x in inodes ==> x < sb.ninodes
    requires IBlock(sb, i) in mid && IBlock(sb, i) in d && d == mid[IBlock(sb, i) := d[IBlock(sb, i)]]
    requires OnDisk(sb, d, i) == inodes[i]
    requires forall x :: x in inodes && x != i ==>
      IBlock(sb, x) in d && IBlock(sb, x) in mid && OnDisk(sb, d, x) == OnDisk(sb, mid, x)
    ensures Confined(sb, base, d, logged + {IBlock(sb, i)})
    ensures AllOnDisk(sb, base, inodes0) ==> AllOnDisk(sb, d, inodes)
  {
    hide Decoded;
    assert IBlock(sb, i) < sb.bmapstart;
    if AllOnDisk(sb, base, inodes0) {
      forall x | x in inodes && x != i ensures OnDisk(sb, d, x) == inodes[x] {
        assert IBlock(sb, x) < sb.bmapstart;
        assert OnDisk(sb, base, x) == inodes0[x];
      }
    }
  }

  ghost predicate OthersSame(t: Itable, t': Itable, i: nat) {
    t'.Keys == t.Keys && forall x :: x in t && x != i ==> t'[x] == t[x]
  }

  lemma SameSelf(t: Itable, i: nat)
    ensures OthersSame(t, t, i)
  {
  }

  lemma SameTwice(t: Itable, t': Itable, t'': Itable, i: nat)
    requires OthersSame(t, t', i) && OthersSame(t', t'', i)
    ensures OthersSame(t, t'', i)
  {
  }

  lemma ShownIsFile(d: Store, ino: Inode, c: seq<Byte>, off: nat, s: seq<Byte>)
    requires off <= |c| == ino.size && |Splice(c, off, s)| <= 268 * 1024 && |Splice(c, off, s)| > 0
    requires Shows(d, ino, c, off, s)
    ensures FileOk(d, ino)
  {
    assert Mapped(d, ino, 0);
    forall n: nat | n < 268 && n * 1024 < ino.size ensures Lookup(d, ino, n) != 0 && Lookup(d, ino, n) in d {
      assert n * 1024 < |Splice(c, off, s)|;
      assert Mapped(d, ino, n * 1024);
      assert n * 1024 / 1024 == n;
    }
  }

  lemma FsBasics(sb: Super, d: Store, inodes: Itable, extra: set<nat>)
    requires FsOk(sb, d, inodes, extra)
    ensures LayoutOk(sb) && Has(sb, d) && AllIndirectIn(d, inodes)
  {
  }

  lemma HangingNone(d: Store, ino: Inode)
    requires IndirectIn(d, ino) && ino.addrs[12] != 0
    ensures Hanging(d, ino, 256) == {}
  {
  }

  predicate Aligned(off: nat) {
    off % 1024 == 0
  }

  // The n bytes at offset pos lie in one block.
  predicate InBlock(pos: nat, n: nat) {
    pos % 1024 + n <= 1024
  }

  lemma TruncatedTable(sb: Super, d0: Store, inodes0: Itable, d: Store, inodes: Itable, i: nat)
    requires FsOk(sb, d0, inodes0, {}) && FsOk(sb, d, inodes, {}) && OnlyMap(sb, d0, d)
    requires i in inodes && inodes.Keys == inodes0.Keys && forall x :: x in inodes && x != i ==> inodes[x] == inodes0[x]
    requires forall k :: 0 <= k <= 12 ==> inodes[i].addrs[k] == 0
    ensures UsedSet(sb, d) == UsedSet(sb, d0) - Owned(Table(d0, inodes0), i)
  {
    hide Table, UsedSet, Tight, Used;
    forall s ensures s in Table(d, inodes) <==> s in Table(d0, inodes0)
      ensures s in Table(d0, inodes0) ==> Table(d, inodes)[s] == if s.inum == i then 0 else Table(d0, inodes0)[s]
    {
      InTable(d, inodes, s);
      InTable(d0, inodes0, s);
      if s in Table(d0, inodes0) && s.inum != i {
        OwnedInRange(sb, d0, inodes0, {}, s.inum, 12);
      }
    }
    assert Table(d, inodes).Keys == Table(d0, inodes0).Keys;
    TruncatedUsed(Table(d0, inodes0), UsedSet(sb, d0), Table(d, inodes), UsedSet(sb, d), i);
  }

  lemma FileSize(d: Store, ino: Inode)
    requires FileOk(d, ino)
    ensures |Content(d, ino)| == ino.size
  {
  }

  lemma SpliceNothing(c: seq<Byte>, off: nat)
    requires off <= |c|
    ensures Splice(c, off, []) == c
  {
  }

  // Writing the next r bytes right after the first pos is writing pos + r bytes.
  lemma SpliceSplice(c: seq<Byte>, off: nat, src: seq<Byte>, pos: nat, n1: nat, r: nat)
    requires r <= n1 && pos + n1 <= |src|
    ensures src[pos..pos + n1][..r] == src[pos..pos + r]
    ensures pos == 0 ==> src[0..r] == src[..r]
    ensures off <= |c| ==> off + pos <= |Splice(c, off, src[..pos])|
    ensures off <= |c| ==>
      Splice(Splice(c, off, src[..pos]), off + pos, src[pos..pos + r]) == Splice(c, off, src[..pos + r])
  {
  }

  lemma OnlyMapSelf(sb: Super, d: Store)
    ensures OnlyMap(sb, d, d)
  {
  }

  lemma OnlyMapThrice(sb: Super, a: Store, b: Store, c: Store, d: Store)
    requires OnlyMap(sb, a, b) && OnlyMap(sb, b, c) && OnlyMap(sb, c, d)
    ensures OnlyMap(sb, a, d)
  {
  }

  lemma FileBlock(d: Store, ino: Inode, x: nat)
    requires FileOk(d, ino) && x < ino.size
    ensures IndirectIn(d, ino) && x / 1024 < 268 && Lookup(d, ino, x / 1024) != 0 && Lookup(d, ino, x / 1024) in d
  {
    assert x / 1024 * 1024 <= x;
  }

  // The bytes a round of readi copies are a slice of the file.
  lemma ReadSlice(d: Store, ino: Inode, off: nat, m: nat)
    requires FileOk(d, ino) && off + m <= ino.size && m > 0 && off % 1024 + m <= 1024 && off / 1024 < 268
    requires Lookup(d, ino, off / 1024) in d
    ensures d[Lookup(d, ino, off / 1024)][off % 1024..off % 1024 + m] == Content(d, ino)[off..off + m]
  {
    var x, y := d[Lookup(d, ino, off / 1024)][off % 1024..off % 1024 + m], Content(d, ino)[off..off + m];
    hide FileOk, Lookup;
    forall k | 0 <= k < m ensures x[k] == y[k] {
      ReadByte(d, ino, off, k);
    }
  }

  lemma ReadByte(d: Store, ino: Inode, off: nat, k: nat)
    requires FileOk(d, ino) && off + k < ino.size && off % 1024 + k < 1024 && off / 1024 < 268
    requires Lookup(d, ino, off / 1024) in d
    ensures d[Lookup(d, ino, off / 1024)][off % 1024 + k] == Content(d, ino)[off + k]
  {
    assert (off + k) / 1024 == off / 1024 && (off + k) % 1024 == off % 1024 + k;
    assert Content(d, ino)[off + k] == ByteAt(d, ino, off + k);
  }

  // How many blocks the n bytes at offset off touch.
  function Rounds(off: nat, n: nat): nat {
    if n == 0 then 0 else (off + n + 1023) / 1024 - off / 1024
  }

  lemma CardAdd(s: set<nat>, x: nat)
    ensures |s + {x}| <= |s| + 1
  {
    if x in s {
      assert s + {x} == s;
    }
  }

  // min(n - tot, BSIZE - off % BSIZE)
  function ChunkLen(off: nat, rest: nat): nat {
    if rest < 1024 - off % 1024 then rest else 1024 - off % 1024
  }

  lemma RoundsGrow(off: nat, tot: nat, n: nat)
    requires tot < n && (tot > 0 ==> Aligned(off + tot))
    ensures var m := ChunkLen(off + tot, n - tot);
      && 0 < m <= n - tot && InBlock(off + tot, m)
      && Rounds(off, tot + m) == Rounds(off, tot) + 1 <= Rounds(off, n)
      && (tot + m < n ==> Aligned(off + tot + m))
  {
  }

  // What writei has logged so far besides the indirect block: data blocks, the
  // free-map blocks of new ones, and the number of rounds and of new blocks.
  datatype Tally = Tally(data: set<nat>, maps: set<nat>, rounds: nat, news: nat)

  ghost function Add(t: Tally, addr: nat, isNew: bool, m: nat): Tally {
    Tally(t.data + {addr}, if isNew then t.maps + {m} else t.maps, t.rounds + 1, if isNew then t.news + 1 else t.news)
  }

  ghost predicate Tallied(t: Tally, off: nat, tot: nat) {
    && t.rounds == Rounds(off, tot) && (t.rounds > 0 <==> tot > 0)
    && |t.data| <= t.rounds && |t.maps| <= t.news <= t.rounds
    && (!Aligned(off) && t.rounds > 0 ==> t.news < t.rounds)
  }

  ghost predicate Within(t: Tally, off: nat, n: nat) {
    && |t.data| <= Rounds(off, n) && |t.maps| <= Rounds(off, n)
    && (!Aligned(off) && |t.maps| > 0 ==> |t.maps| < Rounds(off, n))
  }

  lemma TallyStarts(off: nat, n: nat)
    ensures Tallied(Tally({}, {}, 0, 0), off, 0) && Within(Tally({}, {}, 0, 0), off, n)
  {
  }

  lemma TallyRound(t: Tally, off: nat, tot: nat, n: nat, addr: nat, isNew: bool, m: nat)
    requires Tallied(t, off, tot) && tot < n && (tot > 0 ==> Aligned(off + tot))
    requires tot == 0 && !Aligned(off) ==> !isNew
    ensures Tallied(Add(t, addr, isNew, m), off, tot + ChunkLen(off + tot, n - tot))
    ensures Within(Add(t, addr, isNew, m), off, n)
  {
    RoundsGrow(off, tot, n);
    CardAdd(t.data, addr);
    CardAdd(t.maps, m);
    hide Rounds, ChunkLen, Aligned;
  }

  // The whole account of a write: its data blocks, the free-map blocks of the
  // new ones, the indirect block and its free-map block, and the inode block.
  lemma LogBound(logged: set<nat>, t: Tally, ib: nat, ibMap: nat, inode: nat, off: nat, n: nat)
    requires logged <= t.data + t.maps + {ib, ibMap} + {inode} && Within(t, off, n)
    ensures forall k: nat :: n <= k * 1024 ==> |logged| <= 2 * k + 4
  {
    SetCard(logged, t.data + t.maps + {ib, ibMap} + {inode});
    UnionCard(t.data, t.maps);
    UnionCard(t.data + t.maps, {ib, ibMap});
    UnionCard(t.data + t.maps + {ib, ibMap}, {inode});
    forall k: nat | n <= k * 1024 ensures |logged| <= 2 * k + 4 {
      assert Rounds(off, n) <= k + (if off % 1024 == 0 then 0 else 1);
    }
  }

  lemma SetCard(a: set<nat>, b: set<nat>)
    requires a <= b
    ensures |a| <= |b|
  {
    assert b == a + (b - a);
  }

  lemma UnionCard(a: set<nat>, b: set<nat>)
    ensures |a + b| <= |a| + |b|
  {
    assert a + b == a + (b - a);
    SetCard(b - a, b);
  }

  lemma InodesKept(sb: Super, d: Store, i: nat, inodes: Itable)
    requires LayoutOk(sb) && Has(sb, d) && i in inodes && forall x :: x in inodes ==> x < sb.ninodes
    ensures forall x :: x in inodes ==> IBlock(sb, x) in d
    ensures var d' := d[IBlock(sb, i) := Encoded(d[IBlock(sb, i)], i % 16, inodes[i], 16)];
      && OnDisk(sb, d', i) == inodes[i]
      && forall x :: x in inodes && x != i ==> OnDisk(sb, d', x) == OnDisk(sb, d, x)
  {
    forall x | x in inodes ensures IBlock(sb, x) in d && IBlock(sb, x) < sb.bmapstart {}
    hide Encoded, Decoded;
    InodeRoundTrip(d[IBlock(sb, i)], i % 16, inodes[i], i % 16);
    forall x | x in inodes && x != i
      ensures OnDisk(sb, d[IBlock(sb, i) := Encoded(d[IBlock(sb, i)], i % 16, inodes[i], 16)], x) == OnDisk(sb, d, x)
    {
      InodeRoundTrip(d[IBlock(sb, i)], i % 16, inodes[i], x % 16);
    }
  }

  lemma FilesKept(d: Store, inodes: Itable, d': Store, inodes': Itable)
    requires AllIndirectIn(d, inodes) && AllIndirectIn(d', inodes')
    requires SameData(d, Table(d, inodes), d', Table(d', inodes'))
    requires inodes'.Keys == inodes.Keys && forall i :: i in inodes ==>
      inodes'[i].size == inodes[i].size && FileOk(d, inodes[i])
    ensures forall i :: i in inodes ==> FileOk(d', inodes'[i]) && Content(d', inodes'[i]) == Content(d, inodes[i])
  {
    forall i | i in inodes ensures FileOk(d', inodes'[i]) && Content(d', inodes'[i]) == Content(d, inodes[i]) {
      SameDataSameFile(d, inodes, d', inodes', i);
    }
  }
}
