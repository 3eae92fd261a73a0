/** One chunk of filewrite (kernel/file.c) as a transaction of the redo log
    (kernel/log.c): what a crash during its commit leaves of every file. */
module Durable {
  import opened Blocks
  import C = Cache
  import opened CrashSafety
  import opened FsModel
  import opened Fs

  // The blocks of one device by number.
  ghost function StoreOf(dev: nat, d: C.Disk): Store {
    map b | b in Numbers(dev, d) :: d[C.Id(dev, b)]
  }

  ghost function Numbers(dev: nat, d: C.Disk): set<nat> {
    set id | id in d && id.dev == dev :: id.bno
  }

  lemma StoreAt(dev: nat, d: C.Disk, b: nat)
    ensures b in StoreOf(dev, d) <==> C.Id(dev, b) in d
    ensures b in StoreOf(dev, d) ==> StoreOf(dev, d)[b] == d[C.Id(dev, b)]
  {
    if C.Id(dev, b) in d {
      assert C.Id(dev, b).bno in Numbers(dev, d);
    }
  }

  // The device's blocks as the cache shows them.
  ghost function Overlay(d: C.Disk, dev: nat, st: Store): C.Disk {
    map id | id in d :: if id.dev == dev && id.bno in st then st[id.bno] else d[id]
  }

  lemma OverlayStore(d: C.Disk, dev: nat, st: Store)
    requires st.Keys == StoreOf(dev, d).Keys
    ensures StoreOf(dev, Overlay(d, dev, st)) == st
  {
    forall b: nat ensures b in StoreOf(dev, Overlay(d, dev, st)) <==> b in st
      ensures b in st ==> StoreOf(dev, Overlay(d, dev, st))[b] == st[b]
    {
      StoreAt(dev, d, b);
      StoreAt(dev, Overlay(d, dev, st), b);
    }
  }

  // A file system whose inodes are all on disk.
  ghost predicate Consistent(sb: Super, d: Store, inodes: Itable) {
    && FsOk(sb, d, inodes, {}) && AllOnDisk(sb, d, inodes)
    && forall x :: x in inodes ==> x < sb.ninodes && FileOk(d, inodes[x])
  }

  // `st` is consistent with these inodes, and every file is what it is in `d`.
  ghost predicate Keeps(sb: Super, st: Store, d: Store, inodes: Itable)
    requires Consistent(sb, d, inodes)
  {
    Consistent(sb, st, inodes) && forall x :: x in inodes ==> Content(st, inodes[x]) == Content(d, inodes[x])
  }

  // Nothing but the blocks from the inodes on matters to files.
  lemma SameFromInodesOn(sb: Super, d: Store, d': Store, inodes: Itable)
    requires Consistent(sb, d, inodes) && Has(sb, d')
    requires forall b :: b in d && b >= sb.inodestart ==> b in d' && d'[b] == d[b]
    ensures Keeps(sb, d', d, inodes)
  {
    hide Tight, Used, UsedSet, Table, Entry, FileOk, Content, Decoded, SameData;
    forall i | i in inodes ensures inodes[i].addrs[12] != 0 ==> sb.datastart <= inodes[i].addrs[12] {
      OwnedInRange(sb, d, inodes, {}, i, 12);
      assert Entry(d, inodes[i], 12) == inodes[i].addrs[12] by { EntryTwelve(d, inodes[i]); }
    }
    assert AllIndirectIn(d', inodes) by {
      assert AllIndirectIn(d, inodes);
    }
    SameUsed(sb, d, d');
    SameTable(d, d', inodes);
    SameTargets(sb, d, d', inodes);
    forall x | x in inodes
      ensures FileOk(d', inodes[x]) && Content(d', inodes[x]) == Content(d, inodes[x])
      ensures IBlock(sb, x) in d' && OnDisk(sb, d', x) == inodes[x]
    {
      SameDataSameFile(d, inodes, d', inodes, x);
    }
  }

  lemma EntryTwelve(d: Store, ino: Inode)
    requires IndirectIn(d, ino)
    ensures Entry(d, ino, 12) == ino.addrs[12]
  {
  }

  lemma SameTargets(sb: Super, d: Store, d': Store, inodes: Itable)
    requires FsOk(sb, d, inodes, {}) && AllIndirectIn(d', inodes) && Table(d', inodes) == Table(d, inodes)
    requires forall b :: b in d && b >= sb.inodestart ==> b in d' && d'[b] == d[b]
    ensures SameData(d, Table(d, inodes), d', Table(d', inodes))
  {
    var t := Table(d, inodes);
    forall s | s in t && t[s] != 0 ensures t[s] in d && t[s] in d' && d'[t[s]] == d[t[s]] {
      OwnedInRange(sb, d, inodes, {}, s.inum, s.k);
    }
  }

  // --- crashes ---

  // The commit of `blocks` stops after k device writes, and so do any number
  // of recoveries after it, leaving the device at `stops` in turn.
  ghost predicate CrashAt(l: Layout, d: C.Disk, view: C.Disk, blocks: seq<Word32>, k: nat, stops: seq<C.Disk>) {
    && Loggable(l, d, view, blocks) && k <= |CommitStates(l, d, view, blocks)|
    && Interrupted(l, ([d] + CommitStates(l, d, view, blocks))[k], stops)
  }

  // What the recovery that finishes makes of it.
  ghost function Recovered(l: Layout, d: C.Disk, view: C.Disk, blocks: seq<Word32>, k: nat, stops: seq<C.Disk>): C.Disk
    requires CrashAt(l, d, view, blocks, k, stops)
  {
    CrashAtomicity(l, d, view, blocks, k, stops);
    Finished(l, LastStop(([d] + CommitStates(l, d, view, blocks))[k], stops))
  }

  // With equal home blocks, all blocks above the log are equal.
  lemma SameHomesSameStore(l: Layout, sb: Super, d: C.Disk, f: C.Disk)
    requires HasLog(l, f) && Homes(l, f) == Homes(l, d) && l.start + l.cap < sb.inodestart && Has(sb, StoreOf(l.dev, d))
    ensures Has(sb, StoreOf(l.dev, f))
    ensures forall b :: b in StoreOf(l.dev, d) && b >= sb.inodestart ==>
      b in StoreOf(l.dev, f) && StoreOf(l.dev, f)[b] == StoreOf(l.dev, d)[b]
  {
    forall b: nat | b < sb.size ensures b in StoreOf(l.dev, f) {
      StoreAt(l.dev, d, b);
      StoreAt(l.dev, f, b);
      var id := C.Id(l.dev, b);
      if Home(l, id) {
        assert id in Homes(l, d);
      } else if b > l.start {
        assert id == SlotId(l, b - l.start - 1);
      }
    }
    forall b | b in StoreOf(l.dev, d) && b >= sb.inodestart
      ensures b in StoreOf(l.dev, f) && StoreOf(l.dev, f)[b] == StoreOf(l.dev, d)[b]
    {
      StoreAt(l.dev, d, b);
      StoreAt(l.dev, f, b);
      assert C.Id(l.dev, b) in Homes(l, d) && Homes(l, d)[C.Id(l.dev, b)] == Homes(l, f)[C.Id(l.dev, b)];
    }
  }

  // All files are as before the transaction, or all are as after it.
  lemma RecoveredIsOldOrNew(l: Layout, sb: Super, d: C.Disk, view: C.Disk, blocks: seq<Word32>,
                            inodes: Itable, inodes': Itable, k: nat, stops: seq<C.Disk>)
    requires CrashAt(l, d, view, blocks, k, stops) && l.start + l.cap < sb.inodestart
    requires Consistent(sb, StoreOf(l.dev, d), inodes) && Consistent(sb, StoreOf(l.dev, view), inodes')
    ensures var st := StoreOf(l.dev, Recovered(l, d, view, blocks, k, stops));
      if k <= |blocks| then Keeps(sb, st, StoreOf(l.dev, d), inodes)
      else Keeps(sb, st, StoreOf(l.dev, view), inodes')
  {
    CrashAtomicity(l, d, view, blocks, k, stops);
    var f := Recovered(l, d, view, blocks, k, stops);
    RecoveredHasLog(l, d, view, blocks, k, stops);
    hide CrashAt, Recovered, Consistent, Keeps, StoreOf, Homes, HasLog, CommitStates, Finished, LastStop;
    if k <= |blocks| {
      ConsistentHas(sb, StoreOf(l.dev, d), inodes);
      SameHomesSameStore(l, sb, d, f);
      SameFromInodesOn(sb, StoreOf(l.dev, d), StoreOf(l.dev, f), inodes);
    } else {
      ConsistentHas(sb, StoreOf(l.dev, view), inodes');
      SameHomesSameStore(l, sb, view, f);
      SameFromInodesOn(sb, StoreOf(l.dev, view), StoreOf(l.dev, f), inodes');
    }
  }

  lemma ConsistentHas(sb: Super, d: Store, inodes: Itable)
    requires Consistent(sb, d, inodes)
    ensures Has(sb, d)
  {
  }

  lemma RecoveredHasLog(l: Layout, d: C.Disk, view: C.Disk, blocks: seq<Word32>, k: nat, stops: seq<C.Disk>)
    requires CrashAt(l, d, view, blocks, k, stops)
    ensures HasLog(l, Recovered(l, d, view, blocks, k, stops))
  {
    CrashAtomicity(l, d, view, blocks, k, stops);
    FinishedOutcome(l, LastStop(([d] + CommitStates(l, d, view, blocks))[k], stops));
  }

  // --- one chunk of filewrite ---

  lemma {:induction false} Listed(s: set<nat>) returns (blocks: seq<Word32>)
    requires forall b :: b in s ==> b < 0x1_0000_0000
    ensures |blocks| == |s| && forall b :: b in blocks <==> b in s
  {
    if s == {} {
      blocks := [];
    } else {
      var b :| b in s;
      blocks := Listed(s - {b});
      blocks := blocks + [b];
    }
  }

  // What was logged is all that changed, so it can be committed.
  lemma ChangesAreLoggable(l: Layout, sb: Super, d: C.Disk, st: Store, logged: set<nat>, blocks: seq<Word32>)
    requires WellFormed(l, d) && Count(l, d) == 0 && l.start + l.cap < sb.inodestart
    requires Confined(sb, StoreOf(l.dev, d), st, logged) && |blocks| <= l.cap
    requires forall b :: b in blocks <==> b in logged
    ensures Loggable(l, d, Overlay(d, l.dev, st), blocks)
  {
    hide WellFormed;
    forall k | 0 <= k < |blocks| ensures C.Id(l.dev, blocks[k]) in d && Home(l, C.Id(l.dev, blocks[k])) {
      assert blocks[k] in logged;
      StoreAt(l.dev, d, blocks[k]);
    }
    forall id | id in d && Overlay(d, l.dev, st)[id] != d[id] ensures id.dev == l.dev && id.bno in blocks {
      StoreAt(l.dev, d, id.bno);
      assert id == C.Id(id.dev, id.bno);
    }
  }

  // The transaction of one chunk of filewrite, on a device `d` with an empty
  // log that holds what the cache shows. Wherever its commit and the recoveries
  // after it stop, all files are in the end as before the chunk, or the file
  // has its r bytes and the others are as before.
  method WriteChunkDurably(fs: FileSystem, i: nat, t: seq<Byte>, off: Word32, good: nat, maxOp: nat,
                           ghost l: Layout, ghost d: C.Disk)
    returns (r: int, ghost blocks: seq<Word32>)
    requires fs.Valid() && i in fs.inodes && maxOp >= 4 && |t| <= (maxOp - 4) / 2 * 1024 && |t| < 0x1_0000_0000
    requires AllOnDisk(fs.sb, fs.disk, fs.inodes) && StoreOf(l.dev, d) == fs.disk
    requires WellFormed(l, d) && Count(l, d) == 0 && l.start + l.cap < fs.sb.inodestart && maxOp <= l.cap
    modifies fs
    ensures Consistent(fs.sb, old(fs.disk), old(fs.inodes)) && Consistent(fs.sb, fs.disk, fs.inodes)
    ensures fs.inodes.Keys == old(fs.inodes).Keys && -1 <= r <= |t|
    ensures r <= 0 ==> Content(fs.disk, fs.inodes[i]) == Content(old(fs.disk), old(fs.inodes)[i])
    ensures r > 0 ==> off <= |Content(old(fs.disk), old(fs.inodes)[i])|
    ensures r > 0 ==>
      Content(fs.disk, fs.inodes[i]) == Splice(Content(old(fs.disk), old(fs.inodes)[i]), off, t[..r])
    ensures forall x :: x in fs.inodes && x != i ==>
      Content(fs.disk, fs.inodes[x]) == Content(old(fs.disk), old(fs.inodes)[x])
    ensures |blocks| <= maxOp && Loggable(l, d, Overlay(d, l.dev, fs.disk), blocks)
    ensures forall k: nat, stops: seq<C.Disk> :: CrashAt(l, d, Overlay(d, l.dev, fs.disk), blocks, k, stops) ==>
      var st := StoreOf(l.dev, Recovered(l, d, Overlay(d, l.dev, fs.disk), blocks, k, stops));
      if k <= |blocks| then Keeps(fs.sb, st, old(fs.disk), old(fs.inodes))
      else Keeps(fs.sb, st, fs.disk, fs.inodes)
  {
    hide FsOk, Content, FileOk, Splice, Confined, AllOnDisk, WellFormed, Loggable, CrashAt, Recovered, StoreOf, Keeps;
    ghost var count;
    r, count := fs.WriteOp(i, t, off, good, maxOp);
    SizesFit(fs.sb, fs.disk, fs.inodes, old(fs.disk), fs.logged);
    blocks := Listed(fs.logged);
    ChangesAreLoggable(l, fs.sb, d, fs.disk, fs.logged, blocks);
    OverlayStore(d, l.dev, fs.disk);
    ghost var view := Overlay(d, l.dev, fs.disk);
    forall k: nat, stops: seq<C.Disk> | CrashAt(l, d, view, blocks, k, stops)
      ensures var st := StoreOf(l.dev, Recovered(l, d, view, blocks, k, stops));
        if k <= |blocks| then Keeps(fs.sb, st, old(fs.disk), old(fs.inodes)) else Keeps(fs.sb, st, fs.disk, fs.inodes)
    {
      RecoveredIsOldOrNew(l, fs.sb, d, view, blocks, old(fs.inodes), fs.inodes, k, stops);
    }
  }

  lemma SizesFit(sb: Super, d: Store, inodes: Itable, base: Store, logged: set<nat>)
    requires FsOk(sb, d, inodes, {}) && Confined(sb, base, d, logged)
    ensures d.Keys == base.Keys && forall b :: b in logged ==> b < 0x1_0000_0000
  {
  }
}
