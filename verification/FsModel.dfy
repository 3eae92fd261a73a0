/** The block layer of kernel/fs.c as values: the free map, the block pointers
    of all inodes, and what file contents mean. */
module FsModel {
  import opened Blocks

  // The fields of struct superblock that this layer uses; data blocks start
  // at `datastart`, everything below is boot block, super block, log, inodes
  // and free map.
  datatype Super = Super(size: nat, ninodes: nat, inodestart: nat, bmapstart: nat, datastart: nat)

  ghost predicate LayoutOk(sb: Super) {
    && 0 < sb.inodestart && sb.inodestart + sb.ninodes / 16 < sb.bmapstart
    && sb.bmapstart + sb.size / 8192 < sb.datastart <= sb.size < 0x1_0000_0000
  }

  // BBLOCK and IBLOCK
  function BBlock(sb: Super, b: nat): nat { b / 8192 + sb.bmapstart }
  function IBlock(sb: Super, i: nat): nat { i / 16 + sb.inodestart }

  // What the buffer cache shows for every block number.
  type Store = map<nat, Block>

  // struct dinode: type, major, minor and nlink fill the first two words.
  datatype RawInode = Inode(w0: Word32, w1: Word32, size: Word32, addrs: seq<Word32>)
  type Inode = x: RawInode | |x.addrs| == 13 witness Inode(0, 0, 0, seq(13, _ => 0))
  type Itable = map<nat, Inode>

  ghost predicate Has(sb: Super, d: Store) {
    forall b: nat :: b < sb.size ==> b in d
  }

  // The free-map bit of block b.
  ghost predicate Used(sb: Super, d: Store, b: nat)
    requires BBlock(sb, b) in d
  {
    Bit(d[BBlock(sb, b)], b % 8192)
  }

  function Interval(lo: nat, hi: nat): (s: set<nat>)
    ensures forall x: nat :: x in s <==> lo <= x < hi
    decreases hi
  {
    if hi <= lo then {} else Interval(lo, hi - 1) + {hi - 1}
  }

  lemma BBlockIsMeta(sb: Super, b: nat)
    requires LayoutOk(sb) && b < sb.size
    ensures sb.bmapstart <= BBlock(sb, b) < sb.datastart
  {
  }

  ghost function UsedSet(sb: Super, d: Store): set<nat>
    requires LayoutOk(sb) && Has(sb, d)
  {
    set b | b in Interval(sb.datastart, sb.size) && (BBlockIsMeta(sb, b); Used(sb, d, b))
  }

  // Every block pointer of an inode has a slot: 0..11 the direct ones, 12 the
  // indirect block, 13..268 the entries of the indirect block.
  datatype Slot = Slot(inum: nat, k: nat)

  ghost predicate IndirectIn(d: Store, ino: Inode) {
    ino.addrs[12] != 0 ==> ino.addrs[12] in d
  }

  ghost function Entry(d: Store, ino: Inode, k: nat): nat
    requires k < 269 && IndirectIn(d, ino)
  {
    if k <= 12 then ino.addrs[k] else if ino.addrs[12] == 0 then 0 else Word(d[ino.addrs[12]], k - 13)
  }

  ghost predicate AllIndirectIn(d: Store, inodes: Itable) {
    forall i :: i in inodes ==> IndirectIn(d, inodes[i])
  }

  ghost function Slots(inums: set<nat>): set<Slot> {
    set i, k | i in inums && k in Interval(0, 269) :: Slot(i, k)
  }

  type PointerTable = map<Slot, nat>

  ghost function Table(d: Store, inodes: Itable): PointerTable
    requires AllIndirectIn(d, inodes)
  {
    map s | s in Slots(inodes.Keys) :: Entry(d, inodes[s.inum], s.k)
  }

  ghost function Targets(t: PointerTable): set<nat> {
    set s | s in t && t[s] != 0 :: t[s]
  }

  // No block has two owners, and the used data blocks are exactly the owned
  // ones and `extra`, blocks that an operation holds on to for a moment.
  ghost predicate Tight(t: PointerTable, used: set<nat>, extra: set<nat>) {
    && (forall s, s' :: s in t && s' in t && t[s] != 0 && t[s] == t[s'] ==> s == s')
    && used == Targets(t) + extra && Targets(t) !! extra
  }

  ghost predicate FsOk(sb: Super, d: Store, inodes: Itable, extra: set<nat>) {
    && LayoutOk(sb) && Has(sb, d)
    && (forall b: nat :: b < sb.datastart ==> BBlock(sb, b) in d && Used(sb, d, b))
    && AllIndirectIn(d, inodes)
    && Tight(Table(d, inodes), UsedSet(sb, d), extra)
  }

  lemma {:induction false} TightAssign(t: PointerTable, used: set<nat>, extra: set<nat>, s: Slot, b: nat)
    requires Tight(t, used, extra) && s in t && t[s] == 0 && b in extra && b != 0
    ensures Tight(t[s := b], used, extra - {b})
  {
    var t' := t[s := b];
    assert Targets(t') == Targets(t) + {b} by {
      forall x | x in Targets(t) ensures x in Targets(t') {
        var r :| r in t && t[r] != 0 && t[r] == x;
        assert r in t' && t'[r] == x;
      }
      assert s in t' && t'[s] == b;
    }
  }

  lemma TightClear(t: PointerTable, used: set<nat>, extra: set<nat>, s: Slot)
    requires Tight(t, used, extra) && s in t && t[s] != 0
    ensures Tight(t[s := 0], used, extra + {t[s]}) && t[s] !in extra && t[s] in used
  {
    var t' := t[s := 0];
    assert t[s] in Targets(t);
    assert Targets(t') == Targets(t) - {t[s]} by {
      forall x | x in Targets(t) - {t[s]} ensures x in Targets(t') {
        var r :| r in t && t[r] != 0 && t[r] == x;
        assert r in t' && t'[r] == x;
      }
    }
  }

  // --- one free-map bit ---

  ghost function Marked(sb: Super, d: Store, b: nat, on: bool): Store
    requires BBlock(sb, b) in d
  {
    d[BBlock(sb, b) := PutBit(d[BBlock(sb, b)], b % 8192, on)]
  }

  lemma MarkedUsed(sb: Super, d: Store, b: nat, on: bool, x: nat)
    requires BBlock(sb, b) in d && BBlock(sb, x) in d
    ensures BBlock(sb, x) in Marked(sb, d, b, on)
    ensures Used(sb, Marked(sb, d, b, on), x) == if x == b then on else Used(sb, d, x)
  {
    BitOfPutBit(d[BBlock(sb, b)], b % 8192, on, x % 8192);
  }

  lemma MarkedUsedSet(sb: Super, d: Store, b: nat, on: bool)
    requires LayoutOk(sb) && Has(sb, d) && sb.datastart <= b < sb.size
    ensures BBlock(sb, b) in d && Has(sb, Marked(sb, d, b, on))
    ensures UsedSet(sb, Marked(sb, d, b, on)) == if on then UsedSet(sb, d) + {b} else UsedSet(sb, d) - {b}
  {
    BBlockIsMeta(sb, b);
    forall x | x in Interval(sb.datastart, sb.size)
      ensures BBlock(sb, x) in d && (Used(sb, Marked(sb, d, b, on), x) <==> if x == b then on else Used(sb, d, x))
    {
      BBlockIsMeta(sb, x);
      MarkedUsed(sb, d, b, on, x);
    }
  }

  // Used blocks stay used if no free-map block changes.
  lemma SameUsed(sb: Super, d: Store, d': Store)
    requires LayoutOk(sb) && Has(sb, d) && Has(sb, d')
    requires forall b: nat :: sb.bmapstart <= b < sb.datastart ==> d'[b] == d[b]
    ensures UsedSet(sb, d') == UsedSet(sb, d)
    ensures forall b: nat :: b < sb.size ==>
      BBlock(sb, b) in d && BBlock(sb, b) in d' && Used(sb, d', b) == Used(sb, d, b)
  {
    forall b: nat | b < sb.size ensures BBlock(sb, b) in d && BBlock(sb, b) in d' && Used(sb, d', b) == Used(sb, d, b) {
      BBlockIsMeta(sb, b);
    }
  }

  // Pointers stay the same if no indirect block changes.
  lemma SameTable(d: Store, d': Store, inodes: Itable)
    requires AllIndirectIn(d, inodes) && AllIndirectIn(d', inodes)
    requires forall i :: i in inodes && inodes[i].addrs[12] != 0 ==> d'[inodes[i].addrs[12]] == d[inodes[i].addrs[12]]
    ensures Table(d', inodes) == Table(d, inodes)
  {
    forall s | s in Slots(inodes.Keys) ensures Entry(d', inodes[s.inum], s.k) == Entry(d, inodes[s.inum], s.k) {
      var i := s.inum;
      assert i in inodes;
    }
  }

  // A non-zero pointer names a used data block.
  lemma OwnedInRange(sb: Super, d: Store, inodes: Itable, extra: set<nat>, i: nat, k: nat)
    requires FsOk(sb, d, inodes, extra) && i in inodes && k < 269
    ensures Slot(i, k) in Table(d, inodes) && Table(d, inodes)[Slot(i, k)] == Entry(d, inodes[i], k)
    ensures var b := Entry(d, inodes[i], k);
      b != 0 ==> sb.datastart <= b < sb.size && b in UsedSet(sb, d) && b !in extra
  {
    var t := Table(d, inodes);
    assert Slot(i, k) in t;
    if t[Slot(i, k)] != 0 {
      assert t[Slot(i, k)] in Targets(t);
    }
  }

  lemma DifferentSlots(sb: Super, d: Store, inodes: Itable, extra: set<nat>, s: Slot, s': Slot)
    requires FsOk(sb, d, inodes, extra) && s.inum in inodes && s.k < 269 && s'.inum in inodes && s'.k < 269 && s != s'
    ensures var b := Entry(d, inodes[s.inum], s.k); b != 0 ==> Entry(d, inodes[s'.inum], s'.k) != b
  {
    OwnedInRange(sb, d, inodes, extra, s.inum, s.k);
    OwnedInRange(sb, d, inodes, extra, s'.inum, s'.k);
  }

  // --- what the steps of an operation do to ownership ---

  // Changing one block that is neither free map nor an indirect block in use.
  lemma WriteKeepsFs(sb: Super, d: Store, inodes: Itable, extra: set<nat>, x: nat, v: Block)
    requires FsOk(sb, d, inodes, extra) && x in d && (x < sb.bmapstart || x >= sb.datastart)
    requires forall i :: i in inodes ==> inodes[i].addrs[12] == 0 || inodes[i].addrs[12] != x
    ensures FsOk(sb, d[x := v], inodes, extra) && Table(d[x := v], inodes) == Table(d, inodes)
    ensures UsedSet(sb, d[x := v]) == UsedSet(sb, d)
  {
    hide Table, Tight, Used, UsedSet, Entry;
    var d' := d[x := v];
    assert Has(sb, d');
    SameUsed(sb, d, d');
    assert AllIndirectIn(d', inodes);
    SameTable(d, d', inodes);
  }

  lemma IndirectElsewhere(sb: Super, d: Store, inodes: Itable, extra: set<nat>, x: nat)
    requires FsOk(sb, d, inodes, extra) && (x < sb.datastart || x !in UsedSet(sb, d) || x in extra)
    ensures forall i :: i in inodes ==> inodes[i].addrs[12] == 0 || inodes[i].addrs[12] != x
  {
    forall i | i in inodes ensures inodes[i].addrs[12] == 0 || inodes[i].addrs[12] != x {
      OwnedInRange(sb, d, inodes, extra, i, 12);
    }
  }

  lemma TightMark(t: PointerTable, used: set<nat>, extra: set<nat>, b: nat, on: bool)
    requires Tight(t, used, extra) && (if on then b !in used else b in extra)
    ensures Tight(t, if on then used + {b} else used - {b}, if on then extra + {b} else extra - {b})
  {
  }

  lemma MetaStaysUsed(sb: Super, d: Store, b: nat, on: bool, x: nat)
    requires LayoutOk(sb) && Has(sb, d) && sb.datastart <= b < sb.size && x < sb.datastart
    requires BBlock(sb, x) in d && Used(sb, d, x) && BBlock(sb, b) in d
    ensures BBlock(sb, x) in Marked(sb, d, b, on) && Used(sb, Marked(sb, d, b, on), x)
  {
    MarkedUsed(sb, d, b, on, x);
  }

  // balloc's free-map write, taking or giving back block b.
  lemma MarkKeepsFs(sb: Super, d: Store, inodes: Itable, extra: set<nat>, b: nat, on: bool)
    requires FsOk(sb, d, inodes, extra) && sb.datastart <= b < sb.size
    requires if on then b !in UsedSet(sb, d) else b in extra
    ensures BBlock(sb, b) in d
    ensures FsOk(sb, Marked(sb, d, b, on), inodes, if on then extra + {b} else extra - {b})
    ensures Table(Marked(sb, d, b, on), inodes) == Table(d, inodes)
  {
    hide Table, Tight, Used, UsedSet, Entry, PutBit;
    BBlockIsMeta(sb, b);
    MarkedUsedSet(sb, d, b, on);
    IndirectElsewhere(sb, d, inodes, extra, BBlock(sb, b));
    var d' := Marked(sb, d, b, on);
    assert AllIndirectIn(d', inodes);
    SameTable(d, d', inodes);
    TightMark(Table(d, inodes), UsedSet(sb, d), extra, b, on);
    forall x: nat | x < sb.datastart ensures BBlock(sb, x) in d' && Used(sb, d', x) {
      MetaStaysUsed(sb, d, b, on, x);
    }
  }

  // `ip->addrs[k] = b`
  lemma AssignDirect(sb: Super, d: Store, inodes: Itable, extra: set<nat>, i: nat, k: nat, b: Word32)
    requires FsOk(sb, d, inodes, extra) && i in inodes && k <= 12 && inodes[i].addrs[k] == 0
    requires b in extra && b >= sb.datastart && b in d && (k == 12 ==> d[b] == ZeroBlock())
    ensures var inodes' := inodes[i := inodes[i].(addrs := inodes[i].addrs[k := b])];
      FsOk(sb, d, inodes', extra - {b}) && Table(d, inodes') == Table(d, inodes)[Slot(i, k) := b]
  {
    hide Table, UsedSet, Entry, Tight, Used, AllIndirectIn;
    AssignDirectTable(d, inodes, i, k, b);
    TightAssign(Table(d, inodes), UsedSet(sb, d), extra, Slot(i, k), b);
  }

  lemma AssignDirectTable(d: Store, inodes: Itable, i: nat, k: nat, b: Word32)
    requires AllIndirectIn(d, inodes) && i in inodes && k <= 12 && inodes[i].addrs[k] == 0
    requires b in d && (k == 12 ==> d[b] == ZeroBlock())
    ensures var inodes' := inodes[i := inodes[i].(addrs := inodes[i].addrs[k := b])];
      AllIndirectIn(d, inodes') && Table(d, inodes') == Table(d, inodes)[Slot(i, k) := b]
    ensures Slot(i, k) in Table(d, inodes) && Table(d, inodes)[Slot(i, k)] == 0
  {
    hide Table, Entry;
    var inodes' := inodes[i := inodes[i].(addrs := inodes[i].addrs[k := b])];
    InTable(d, inodes, Slot(i, k));
    forall s ensures s in Table(d, inodes') <==> s in Table(d, inodes)
      ensures s in Table(d, inodes) ==> Table(d, inodes')[s] == if s == Slot(i, k) then b else Table(d, inodes)[s]
    {
      InTable(d, inodes, s);
      InTable(d, inodes', s);
      if s in Table(d, inodes) && s.inum == i && k == 12 && s.k > 12 {
        WordOfZeroBlock(s.k - 13);
      }
    }
  }

  lemma AssignEntryAt(sb: Super, d: Store, inodes: Itable, extra: set<nat>, i: nat, j: nat, b: Word32, s: Slot)
    requires FsOk(sb, d, inodes, extra) && i in inodes && j < 256 && inodes[i].addrs[12] != 0
    requires s in Slots(inodes.Keys)
    ensures var ib := inodes[i].addrs[12]; var d' := d[ib := SetWord(d[ib], j, b)];
      && IndirectIn(d', inodes[s.inum])
      && Entry(d', inodes[s.inum], s.k) == if s == Slot(i, 13 + j) then b else Entry(d, inodes[s.inum], s.k)
  {
    assert IndirectIn(d, inodes[s.inum]);
    if s.inum != i {
      DifferentSlots(sb, d, inodes, extra, Slot(i, 12), Slot(s.inum, 12));
    } else if s.k > 12 {
      WordOfSetWord(d[inodes[i].addrs[12]], j, b, s.k - 13);
    }
    hide FsOk;
  }

  lemma AssignEntryTable(sb: Super, d: Store, inodes: Itable, extra: set<nat>, i: nat, j: nat, b: Word32)
    requires FsOk(sb, d, inodes, extra) && i in inodes && j < 256 && inodes[i].addrs[12] != 0
    ensures var ib := inodes[i].addrs[12]; var d' := d[ib := SetWord(d[ib], j, b)];
      AllIndirectIn(d', inodes) && Table(d', inodes) == Table(d, inodes)[Slot(i, 13 + j) := b]
  {
    var ib := inodes[i].addrs[12];
    var d' := d[ib := SetWord(d[ib], j, b)];
    assert AllIndirectIn(d, inodes) && AllIndirectIn(d', inodes);
    hide FsOk, Entry;
    forall s | s in Slots(inodes.Keys)
      ensures Entry(d', inodes[s.inum], s.k) == if s == Slot(i, 13 + j) then b else Entry(d, inodes[s.inum], s.k)
    {
      AssignEntryAt(sb, d, inodes, extra, i, j, b, s);
    }
    assert Slot(i, 13 + j) in Slots(inodes.Keys);
  }

  // `a[j] = b` in the indirect block
  lemma AssignEntry(sb: Super, d: Store, inodes: Itable, extra: set<nat>, i: nat, j: nat, b: Word32)
    requires FsOk(sb, d, inodes, extra) && i in inodes && j < 256 && inodes[i].addrs[12] != 0
    requires Entry(d, inodes[i], 13 + j) == 0 && b in extra && b >= sb.datastart
    ensures var ib := inodes[i].addrs[12]; var d' := d[ib := SetWord(d[ib], j, b)];
      && ib >= sb.datastart && FsOk(sb, d', inodes, extra - {b})
      && Table(d', inodes) == Table(d, inodes)[Slot(i, 13 + j) := b]
      && UsedSet(sb, d') == UsedSet(sb, d)
  {
    hide Table, UsedSet, Tight, SetWord, Used;
    OwnedInRange(sb, d, inodes, extra, i, 12);
    OwnedInRange(sb, d, inodes, extra, i, 13 + j);
    var ib := inodes[i].addrs[12];
    AssignEntryTable(sb, d, inodes, extra, i, j, b);
    SameUsed(sb, d, d[ib := SetWord(d[ib], j, b)]);
    hide Entry, AllIndirectIn;
    TightAssign(Table(d, inodes), UsedSet(sb, d), extra, Slot(i, 13 + j), b);
  }

  // `ip->addrs[k] = 0`: the block is for the moment nobody's.
  lemma DetachDirect(sb: Super, d: Store, inodes: Itable, extra: set<nat>, i: nat, k: nat)
    requires FsOk(sb, d, inodes, extra) && i in inodes && k < 12 && inodes[i].addrs[k] != 0
    ensures var b := inodes[i].addrs[k]; var inodes' := inodes[i := inodes[i].(addrs := inodes[i].addrs[k := 0])];
      && sb.datastart <= b < sb.size && b !in extra && b in UsedSet(sb, d)
      && FsOk(sb, d, inodes', extra + {b}) && Table(d, inodes') == Table(d, inodes)[Slot(i, k) := 0]
  {
    hide Table, UsedSet, Entry, Tight, Used, AllIndirectIn;
    DetachDirectTable(d, inodes, i, k);
    OwnedInRange(sb, d, inodes, extra, i, k);
    TightClear(Table(d, inodes), UsedSet(sb, d), extra, Slot(i, k));
  }

  lemma DetachDirectTable(d: Store, inodes: Itable, i: nat, k: nat)
    requires AllIndirectIn(d, inodes) && i in inodes && k < 12
    ensures var inodes' := inodes[i := inodes[i].(addrs := inodes[i].addrs[k := 0])];
      AllIndirectIn(d, inodes') && Table(d, inodes') == Table(d, inodes)[Slot(i, k) := 0]
    ensures Slot(i, k) in Table(d, inodes) && Table(d, inodes)[Slot(i, k)] == inodes[i].addrs[k]
  {
    hide Table;
    var inodes' := inodes[i := inodes[i].(addrs := inodes[i].addrs[k := 0])];
    forall s ensures s in Table(d, inodes') <==> s in Table(d, inodes)
      ensures s in Table(d, inodes) ==> Table(d, inodes')[s] == if s == Slot(i, k) then 0 else Table(d, inodes)[s]
    {
      InTable(d, inodes, s);
      InTable(d, inodes', s);
    }
    InTable(d, inodes, Slot(i, k));
  }

  // The blocks that hang off an inode's indirect block.
  ghost function Hanging(d: Store, ino: Inode, j: nat): set<nat>
    requires IndirectIn(d, ino) && ino.addrs[12] != 0
  {
    set m | m in Interval(j, 256) && Word(d[ino.addrs[12]], m) != 0 :: Word(d[ino.addrs[12]], m)
  }

  ghost function Without(t: PointerTable, i: nat): PointerTable {
    map s | s in t :: if s.inum == i && s.k >= 12 then 0 else t[s]
  }

  // `ip->addrs[NDIRECT] = 0`: the indirect block and all it points to are for
  // the moment nobody's.
  lemma DetachIndirect(sb: Super, d: Store, inodes: Itable, extra: set<nat>, i: nat)
    requires FsOk(sb, d, inodes, extra) && i in inodes && inodes[i].addrs[12] != 0
    ensures var ib := inodes[i].addrs[12]; var inodes' := inodes[i := inodes[i].(addrs := inodes[i].addrs[12 := 0])];
      && sb.datastart <= ib < sb.size && ib !in Hanging(d, inodes[i], 0) && extra !! Hanging(d, inodes[i], 0) + {ib}
      && FsOk(sb, d, inodes', extra + {ib} + Hanging(d, inodes[i], 0))
      && Table(d, inodes') == Without(Table(d, inodes), i)
  {
    hide Table, UsedSet, Entry, Tight, Used, Hanging, Dropped, Without;
    DetachTable(d, inodes, i);
    HangingTargets(d, inodes, i);
    InTable(d, inodes, Slot(i, 12));
    OwnedInRange(sb, d, inodes, extra, i, 12);
    HangingDistinct(sb, d, inodes, extra, i);
    TightWithout(Table(d, inodes), UsedSet(sb, d), extra, i);
    var ib := inodes[i].addrs[12];
    assert extra + Dropped(Table(d, inodes), i) == extra + {ib} + Hanging(d, inodes[i], 0);
  }

  lemma DetachTable(d: Store, inodes: Itable, i: nat)
    requires AllIndirectIn(d, inodes) && i in inodes
    ensures var inodes' := inodes[i := inodes[i].(addrs := inodes[i].addrs[12 := 0])];
      AllIndirectIn(d, inodes') && Table(d, inodes') == Without(Table(d, inodes), i)
  {
    hide Table;
    var inodes' := inodes[i := inodes[i].(addrs := inodes[i].addrs[12 := 0])];
    forall s ensures s in Table(d, inodes') <==> s in Table(d, inodes)
      ensures s in Table(d, inodes) ==> Table(d, inodes')[s] == Without(Table(d, inodes), i)[s]
    {
      InTable(d, inodes, s);
      InTable(d, inodes', s);
    }
  }

  lemma HangingDistinct(sb: Super, d: Store, inodes: Itable, extra: set<nat>, i: nat)
    requires FsOk(sb, d, inodes, extra) && i in inodes && inodes[i].addrs[12] != 0
    ensures inodes[i].addrs[12] !in Hanging(d, inodes[i], 0) && extra !! Hanging(d, inodes[i], 0)
  {
    var ib := inodes[i].addrs[12];
    forall x | x in Hanging(d, inodes[i], 0) ensures x != ib && x !in extra {
      var m :| m in Interval(0, 256) && Word(d[ib], m) != 0 && Word(d[ib], m) == x;
      OwnedInRange(sb, d, inodes, extra, i, 13 + m);
      DifferentSlots(sb, d, inodes, extra, Slot(i, 12), Slot(i, 13 + m));
    }
  }

  ghost function Dropped(t: PointerTable, i: nat): set<nat> {
    set s | s in t && s.inum == i && s.k >= 12 && t[s] != 0 :: t[s]
  }

  lemma TightWithout(t: PointerTable, used: set<nat>, extra: set<nat>, i: nat)
    requires Tight(t, used, extra)
    ensures Tight(Without(t, i), used, extra + Dropped(t, i))
  {
    var t' := Without(t, i);
    forall x | x in Targets(t) ensures x in Targets(t') || x in Dropped(t, i) {
      var s :| s in t && t[s] != 0 && t[s] == x;
      if !(s.inum == i && s.k >= 12) {
        assert s in t' && t'[s] == x;
      }
    }
    forall x | x in Targets(t') ensures x in Targets(t) && x !in Dropped(t, i) {
      var s :| s in t' && t'[s] != 0 && t'[s] == x;
      assert s in t && t[s] == x;
    }
    assert Dropped(t, i) <= Targets(t);
  }

  lemma HangingTargets(d: Store, inodes: Itable, i: nat)
    requires AllIndirectIn(d, inodes) && i in inodes && inodes[i].addrs[12] != 0
    ensures Dropped(Table(d, inodes), i) == Hanging(d, inodes[i], 0) + {inodes[i].addrs[12]}
  {
    hide Table, Entry;
    var t, ino := Table(d, inodes), inodes[i];
    InTable(d, inodes, Slot(i, 12));
    forall x | x in Hanging(d, ino, 0) ensures x in Dropped(t, i) {
      var m :| m in Interval(0, 256) && Word(d[ino.addrs[12]], m) != 0 && Word(d[ino.addrs[12]], m) == x;
      InTable(d, inodes, Slot(i, 13 + m));
    }
    forall x | x in Dropped(t, i) ensures x in Hanging(d, ino, 0) || x == ino.addrs[12] {
      var s :| s in t && s.inum == i && s.k >= 12 && t[s] != 0 && t[s] == x;
      InTable(d, inodes, s);
      if s.k > 12 {
        assert s.k - 13 in Interval(0, 256);
      }
    }
  }

  lemma InTable(d: Store, inodes: Itable, s: Slot)
    requires AllIndirectIn(d, inodes)
    ensures s in Table(d, inodes) <==> s.inum in inodes && s.k < 269
    ensures s in Table(d, inodes) ==> Table(d, inodes)[s] == Entry(d, inodes[s.inum], s.k)
    ensures s in Table(d, inodes) ==> var ino := inodes[s.inum];
      Table(d, inodes)[s] ==
        if s.k <= 12 then ino.addrs[s.k] else if ino.addrs[12] == 0 then 0 else Word(d[ino.addrs[12]], s.k - 13)
  {
  }

  // --- files ---

  // The slot of a file's n-th block.
  function DSlot(n: nat): nat {
    if n < 12 then n else n + 1
  }

  ghost function Lookup(d: Store, ino: Inode, n: nat): nat
    requires n < 268 && IndirectIn(d, ino)
  {
    Entry(d, ino, DSlot(n))
  }

  // A file has no holes below its size.
  ghost predicate FileOk(d: Store, ino: Inode) {
    && IndirectIn(d, ino) && ino.size <= 268 * 1024
    && forall n: nat :: n < 268 && n * 1024 < ino.size ==> Lookup(d, ino, n) != 0 && Lookup(d, ino, n) in d
  }

  ghost function ByteAt(d: Store, ino: Inode, x: nat): Byte
    requires FileOk(d, ino) && x < ino.size
  {
    assert x / 1024 * 1024 <= x;
    d[Lookup(d, ino, x / 1024)][x % 1024]
  }

  // The abstract file: its bytes.
  ghost function Content(d: Store, ino: Inode): (c: seq<Byte>)
    requires FileOk(d, ino)
  {
    seq(ino.size, x requires 0 <= x < ino.size => ByteAt(d, ino, x))
  }

  // No data block in use has moved or changed.
  ghost predicate SameData(d: Store, t: PointerTable, d': Store, t': PointerTable) {
    forall s :: s in t && s.k != 12 && t[s] != 0 ==>
      s in t' && t'[s] == t[s] && t[s] in d && t[s] in d' && d'[t[s]] == d[t[s]]
  }

  lemma SameDataTwice(d: Store, t: PointerTable, d': Store, t': PointerTable, d'': Store, t'': PointerTable)
    requires SameData(d, t, d', t') && SameData(d', t', d'', t'')
    ensures SameData(d, t, d'', t'')
  {
  }

  lemma SameDataSameFile(d: Store, inodes: Itable, d': Store, inodes': Itable, i: nat)
    requires AllIndirectIn(d, inodes) && AllIndirectIn(d', inodes')
    requires SameData(d, Table(d, inodes), d', Table(d', inodes'))
    requires i in inodes && i in inodes' && inodes'[i].size == inodes[i].size && FileOk(d, inodes[i])
    ensures FileOk(d', inodes'[i]) && Content(d', inodes'[i]) == Content(d, inodes[i])
    ensures forall n: nat :: n < 268 && Lookup(d, inodes[i], n) != 0 ==>
      Lookup(d', inodes'[i], n) == Lookup(d, inodes[i], n)
  {
    hide Table;
    var ino, ino' := inodes[i], inodes'[i];
    forall n: nat | n < 268 && Lookup(d, ino, n) != 0
      ensures Lookup(d', ino', n) == Lookup(d, ino, n) && Lookup(d, ino, n) in d && Lookup(d, ino, n) in d'
      ensures d'[Lookup(d, ino, n)] == d[Lookup(d, ino, n)]
    {
      InTable(d, inodes, Slot(i, DSlot(n)));
      InTable(d', inodes', Slot(i, DSlot(n)));
    }
    assert FileOk(d', ino');
    forall x | 0 <= x < ino.size ensures ByteAt(d', ino', x) == ByteAt(d, ino, x) {
      assert x / 1024 < 268 && x / 1024 * 1024 <= x;
    }
  }

  // Taking a fresh block for slot s, zeroed, disturbs no data.
  lemma AllocSameData(sb: Super, d: Store, inodes: Itable, b: nat, s: Slot)
    requires FsOk(sb, d, inodes, {}) && sb.datastart <= b < sb.size && b !in UsedSet(sb, d) && BBlock(sb, b) in d
    requires s in Table(d, inodes) && Table(d, inodes)[s] == 0
    ensures SameData(d, Table(d, inodes), Marked(sb, d, b, true)[b := ZeroBlock()], Table(d, inodes))
    ensures SameData(d, Table(d, inodes), Marked(sb, d, b, true)[b := ZeroBlock()], Table(d, inodes)[s := b])
  {
    hide Table;
    BBlockIsMeta(sb, b);
    forall r | r in Table(d, inodes) && Table(d, inodes)[r] != 0
      ensures Table(d, inodes)[r] >= sb.datastart && Table(d, inodes)[r] != b && Table(d, inodes)[r] in d
    {
      InTable(d, inodes, r);
      OwnedInRange(sb, d, inodes, {}, r.inum, r.k);
    }
  }

  // A free block is a data block that nobody owns.
  lemma FreeIsData(sb: Super, d: Store, inodes: Itable, b: nat)
    requires FsOk(sb, d, inodes, {}) && b < sb.size && BBlock(sb, b) in d && !Used(sb, d, b)
    ensures sb.datastart <= b && b !in UsedSet(sb, d) && b in d
  {
  }

  // balloc's two writes.
  lemma AllocKeepsFs(sb: Super, d: Store, inodes: Itable, b: nat)
    requires FsOk(sb, d, inodes, {}) && b < sb.size && BBlock(sb, b) in d && !Used(sb, d, b)
    ensures var d' := Marked(sb, d, b, true)[b := ZeroBlock()];
      && b >= sb.datastart && b !in UsedSet(sb, d)
      && FsOk(sb, d', inodes, {b}) && Table(d', inodes) == Table(d, inodes)
  {
    hide Table, UsedSet, Used, Tight, FsOk, Entry, PutBit;
    FreeIsData(sb, d, inodes, b);
    assert {} + {b} == {b};
    MarkKeepsFs(sb, d, inodes, {}, b, true);
    IndirectElsewhere(sb, Marked(sb, d, b, true), inodes, {b}, b);
    WriteKeepsFs(sb, Marked(sb, d, b, true), inodes, {b}, b, ZeroBlock());
  }

  lemma AllUsedBelow(sb: Super, d: Store, b: nat)
    requires LayoutOk(sb) && Has(sb, d) && b <= sb.size
    requires forall x: nat :: x < b ==> BBlock(sb, x) in d && Used(sb, d, x)
    ensures Interval(sb.datastart, b) <= UsedSet(sb, d)
    ensures b == sb.size ==> UsedSet(sb, d) == Interval(sb.datastart, sb.size)
  {
  }

  lemma SameDataSelf(sb: Super, d: Store, inodes: Itable, extra: set<nat>)
    requires FsOk(sb, d, inodes, extra)
    ensures SameData(d, Table(d, inodes), d, Table(d, inodes))
  {
    hide Table;
    forall r | r in Table(d, inodes) && Table(d, inodes)[r] != 0 ensures Table(d, inodes)[r] in d {
      InTable(d, inodes, r);
      OwnedInRange(sb, d, inodes, extra, r.inum, r.k);
    }
  }

  // Filling in an entry of the indirect block disturbs no data.
  lemma EntrySameData(sb: Super, d: Store, inodes: Itable, i: nat, j: nat, b: Word32)
    requires FsOk(sb, d, inodes, {b}) && i in inodes && j < 256 && inodes[i].addrs[12] != 0
    requires Entry(d, inodes[i], 13 + j) == 0
    ensures var ib := inodes[i].addrs[12];
      SameData(d, Table(d, inodes), d[ib := SetWord(d[ib], j, b)], Table(d, inodes)[Slot(i, 13 + j) := b])
  {
    hide Table;
    InTable(d, inodes, Slot(i, 13 + j));
    forall r | r in Table(d, inodes) && r.k != 12 && Table(d, inodes)[r] != 0
      ensures Table(d, inodes)[r] in d && Table(d, inodes)[r] != inodes[i].addrs[12]
    {
      InTable(d, inodes, r);
      OwnedInRange(sb, d, inodes, {b}, r.inum, r.k);
      DifferentSlots(sb, d, inodes, {b}, r, Slot(i, 12));
    }
  }

  // --- reading and writing bytes ---

  ghost predicate Mapped(d: Store, ino: Inode, x: nat) {
    IndirectIn(d, ino) && x / 1024 < 268 && Lookup(d, ino, x / 1024) != 0 && Lookup(d, ino, x / 1024) in d
  }

  // The byte at offset x, whether or not it is below the file's size.
  ghost function Raw(d: Store, ino: Inode, x: nat): Byte
    requires Mapped(d, ino, x)
  {
    d[Lookup(d, ino, x / 1024)][x % 1024]
  }

  function Patch(b: Block, o: nat, s: seq<Byte>): Block
    requires o + |s| <= 1024
  {
    b[..o] + s + b[o + |s|..]
  }

  // Overwriting c from offset off on with s, growing it if needed.
  function Splice(c: seq<Byte>, off: nat, s: seq<Byte>): (r: seq<Byte>)
    requires off <= |c|
  {
    c[..off] + s + if off + |s| < |c| then c[off + |s|..] else []
  }

  // The blocks of inode `ino` already show Splice(c, off, s).
  ghost predicate Shows(d: Store, ino: Inode, c: seq<Byte>, off: nat, s: seq<Byte>)
    requires off <= |c|
  {
    forall x: nat :: x < |Splice(c, off, s)| ==> Mapped(d, ino, x) && Raw(d, ino, x) == Splice(c, off, s)[x]
  }

  lemma FileShows(d: Store, ino: Inode, off: nat)
    requires FileOk(d, ino) && off <= ino.size
    ensures Shows(d, ino, Content(d, ino), off, [])
  {
    var c := Content(d, ino);
    assert Splice(c, off, []) == c;
    forall x: nat | x < |c| ensures Mapped(d, ino, x) && Raw(d, ino, x) == c[x] {
      assert x / 1024 * 1024 <= x;
      assert c[x] == ByteAt(d, ino, x);
    }
  }

  // Once the size covers everything written, the file is the spliced one.
  lemma ShownFile(d: Store, ino: Inode, c: seq<Byte>, off: nat, s: seq<Byte>)
    requires off <= |c| && Shows(d, ino, c, off, s) && IndirectIn(d, ino)
    requires ino.size == |Splice(c, off, s)| <= 268 * 1024
    ensures FileOk(d, ino) && Content(d, ino) == Splice(c, off, s)
  {
    forall n: nat | n < 268 && n * 1024 < ino.size ensures Lookup(d, ino, n) != 0 && Lookup(d, ino, n) in d {
      assert Mapped(d, ino, n * 1024);
      assert n * 1024 / 1024 == n;
    }
    forall x: nat | x < ino.size ensures ByteAt(d, ino, x) == Splice(c, off, s)[x] {
      assert Mapped(d, ino, x);
    }
  }

  lemma SameDataShows(d: Store, inodes: Itable, d': Store, inodes': Itable, i: nat, c: seq<Byte>, off: nat,
                      s: seq<Byte>)
    requires AllIndirectIn(d, inodes) && AllIndirectIn(d', inodes')
    requires SameData(d, Table(d, inodes), d', Table(d', inodes'))
    requires i in inodes && i in inodes' && off <= |c| && Shows(d, inodes[i], c, off, s)
    ensures Shows(d', inodes'[i], c, off, s)
  {
    hide Table;
    forall x: nat | x < |Splice(c, off, s)|
      ensures Mapped(d', inodes'[i], x) && Raw(d', inodes'[i], x) == Splice(c, off, s)[x]
    {
      assert Mapped(d, inodes[i], x);
      InTable(d, inodes, Slot(i, DSlot(x / 1024)));
      InTable(d', inodes', Slot(i, DSlot(x / 1024)));
    }
  }

  // Copying the next m bytes into the block that holds offset off + |s|.
  lemma PatchShows(sb: Super, d: Store, inodes: Itable, i: nat, c: seq<Byte>, off: nat, s: seq<Byte>, t: seq<Byte>)
    requires FsOk(sb, d, inodes, {}) && i in inodes && off <= |c| && Shows(d, inodes[i], c, off, s)
    requires (off + |s|) % 1024 + |t| <= 1024 && Mapped(d, inodes[i], off + |s|)
    ensures var n := (off + |s|) / 1024; var b := Lookup(d, inodes[i], n);
      Shows(d[b := Patch(d[b], (off + |s|) % 1024, t)], inodes[i], c, off, s + t)
  {
    var ino := inodes[i];
    var o, n := (off + |s|) % 1024, (off + |s|) / 1024;
    var b := Lookup(d, ino, n);
    var d' := d[b := Patch(d[b], o, t)];
    var u, u' := Splice(c, off, s), Splice(c, off, s + t);
    OwnedInRange(sb, d, inodes, {}, i, DSlot(n));
    assert IndirectIn(d', ino);
    DifferentSlots(sb, d, inodes, {}, Slot(i, DSlot(n)), Slot(i, 12));
    forall x: nat | x < |u'| ensures Mapped(d', ino, x) && Raw(d', ino, x) == u'[x] {
      PatchAt(sb, d, inodes, i, c, off, s, t, x);
    }
  }

  lemma PatchAt(sb: Super, d: Store, inodes: Itable, i: nat, c: seq<Byte>, off: nat, s: seq<Byte>, t: seq<Byte>, x: nat)
    requires FsOk(sb, d, inodes, {}) && i in inodes && off <= |c| && Shows(d, inodes[i], c, off, s)
    requires (off + |s|) % 1024 + |t| <= 1024 && Mapped(d, inodes[i], off + |s|) && x < |Splice(c, off, s + t)|
    ensures var n := (off + |s|) / 1024; var b := Lookup(d, inodes[i], n);
      var d' := d[b := Patch(d[b], (off + |s|) % 1024, t)];
      Mapped(d', inodes[i], x) && Raw(d', inodes[i], x) == Splice(c, off, s + t)[x]
  {
    var p := off + |s|;
    var v := Patch(d[Lookup(d, inodes[i], p / 1024)], p % 1024, t);
    SpliceAt(c, off, s, t, x);
    if p <= x < p + |t| {
      assert x / 1024 == p / 1024 && x % 1024 == p % 1024 + (x - p);
      hide FsOk, Shows, Splice;
      OneBlockChanged(sb, d, inodes, i, p / 1024, v, x);
    } else {
      assert Mapped(d, inodes[i], x);
      assert x / 1024 == p / 1024 ==> x % 1024 < p % 1024 || x % 1024 >= p % 1024 + |t|;
      hide FsOk, Shows, Splice;
      OneBlockChanged(sb, d, inodes, i, p / 1024, v, x);
    }
  }

  lemma SpliceAt(c: seq<Byte>, off: nat, s: seq<Byte>, t: seq<Byte>, x: nat)
    requires off <= |c| && x < |Splice(c, off, s + t)|
    ensures var p := off + |s|;
      if p <= x < p + |t| then Splice(c, off, s + t)[x] == t[x - p]
      else x < |Splice(c, off, s)| && Splice(c, off, s + t)[x] == Splice(c, off, s)[x]
  {
  }

  // Changing the n-th block of a file changes the bytes of that block only.
  lemma OneBlockChanged(sb: Super, d: Store, inodes: Itable, i: nat, n: nat, v: Block, x: nat)
    requires FsOk(sb, d, inodes, {}) && i in inodes && n < 268 && Mapped(d, inodes[i], n * 1024)
    requires Mapped(d, inodes[i], x)
    ensures var d' := d[Lookup(d, inodes[i], n) := v];
      && Mapped(d', inodes[i], x)
      && Raw(d', inodes[i], x) == if x / 1024 == n then v[x % 1024] else Raw(d, inodes[i], x)
  {
    assert n * 1024 / 1024 == n;
    DifferentSlots(sb, d, inodes, {}, Slot(i, DSlot(n)), Slot(i, 12));
    if x / 1024 != n {
      DifferentSlots(sb, d, inodes, {}, Slot(i, DSlot(n)), Slot(i, DSlot(x / 1024)));
    }
    hide FsOk;
  }

  // Writing a data block of inode i leaves ownership and all other files alone.
  lemma DataWrite(sb: Super, d: Store, inodes: Itable, i: nat, n: nat, v: Block)
    requires FsOk(sb, d, inodes, {}) && i in inodes && n < 268 && Lookup(d, inodes[i], n) != 0
    ensures var b := Lookup(d, inodes[i], n);
      && b in d && FsOk(sb, d[b := v], inodes, {})
      && forall x :: x in inodes && x != i && FileOk(d, inodes[x]) ==>
           FileOk(d[b := v], inodes[x]) && Content(d[b := v], inodes[x]) == Content(d, inodes[x])
  {
    var b := Lookup(d, inodes[i], n);
    OwnedInRange(sb, d, inodes, {}, i, DSlot(n));
    forall x | x in inodes ensures inodes[x].addrs[12] == 0 || inodes[x].addrs[12] != b {
      DifferentSlots(sb, d, inodes, {}, Slot(i, DSlot(n)), Slot(x, 12));
    }
    WriteKeepsFs(sb, d, inodes, {}, b, v);
    hide Table;
    forall x | x in inodes && x != i && FileOk(d, inodes[x])
      ensures FileOk(d[b := v], inodes[x]) && Content(d[b := v], inodes[x]) == Content(d, inodes[x])
    {
      OtherFileKept(sb, d, inodes, i, n, v, x);
    }
  }

  lemma OtherFileKept(sb: Super, d: Store, inodes: Itable, i: nat, n: nat, v: Block, x: nat)
    requires FsOk(sb, d, inodes, {}) && i in inodes && n < 268 && Lookup(d, inodes[i], n) != 0
    requires x in inodes && x != i && FileOk(d, inodes[x])
    ensures var b := Lookup(d, inodes[i], n);
      FileOk(d[b := v], inodes[x]) && Content(d[b := v], inodes[x]) == Content(d, inodes[x])
  {
    var b := Lookup(d, inodes[i], n);
    var d', ino := d[b := v], inodes[x];
    DifferentSlots(sb, d, inodes, {}, Slot(i, DSlot(n)), Slot(x, 12));
    forall m: nat | m < 268
      ensures Lookup(d', ino, m) == Lookup(d, ino, m) && (Lookup(d, ino, m) != 0 ==> Lookup(d, ino, m) != b)
    {
      DifferentSlots(sb, d, inodes, {}, Slot(i, DSlot(n)), Slot(x, DSlot(m)));
    }
    hide FsOk;
    assert FileOk(d', ino);
    forall y: nat | y < ino.size ensures ByteAt(d', ino, y) == ByteAt(d, ino, y) {
      assert y / 1024 < 268 && y / 1024 * 1024 <= y;
    }
  }

  // --- inodes on disk: sixteen words each, sixteen to a block ---

  function Word16(ino: Inode, k: nat): Word32
    requires k < 16
  {
    if k == 0 then ino.w0 else if k == 1 then ino.w1 else if k == 2 then ino.size else ino.addrs[k - 3]
  }

  // iupdate after k words
  function Encoded(b: Block, at: nat, ino: Inode, k: nat): Block
    requires at < 16 && k <= 16
  {
    if k == 0 then b else SetWord(Encoded(b, at, ino, k - 1), 16 * at + k - 1, Word16(ino, k - 1))
  }

  // ilock's reading of an inode
  function Decoded(b: Block, at: nat): Inode
    requires at < 16
  {
    Inode(Word(b, 16 * at), Word(b, 16 * at + 1), Word(b, 16 * at + 2), Words(b, 16 * at + 3, 13))
  }

  function Words(b: Block, from: nat, n: nat): (s: seq<Word32>)
    requires from + n <= 256
    ensures |s| == n && forall k :: 0 <= k < n ==> s[k] == Word(b, from + k)
  {
    if n == 0 then [] else Words(b, from, n - 1) + [Word(b, from + n - 1)]
  }

  lemma {:induction false} EncodedWords(b: Block, at: nat, ino: Inode, k: nat, j: nat)
    requires at < 16 && k <= 16 && j < 256
    ensures Word(Encoded(b, at, ino, k), j) ==
      if 16 * at <= j < 16 * at + k then Word16(ino, j - 16 * at) else Word(b, j)
  {
    if k > 0 {
      EncodedWords(b, at, ino, k - 1, j);
      WordOfSetWord(Encoded(b, at, ino, k - 1), 16 * at + k - 1, Word16(ino, k - 1), j);
    }
  }

  // What iupdate writes, ilock reads back; the other fifteen inodes are kept.
  lemma InodeRoundTrip(b: Block, at: nat, ino: Inode, other: nat)
    requires at < 16 && other < 16
    ensures Decoded(Encoded(b, at, ino, 16), other) == if other == at then ino else Decoded(b, other)
  {
    var e := Encoded(b, at, ino, 16);
    hide Encoded, Word;
    var want := if other == at then ino else Decoded(b, other);
    EncodedWords(b, at, ino, 16, 16 * other);
    EncodedWords(b, at, ino, 16, 16 * other + 1);
    EncodedWords(b, at, ino, 16, 16 * other + 2);
    forall k: nat | k < 13 ensures Decoded(e, other).addrs[k] == want.addrs[k] {
      EncodedWords(b, at, ino, 16, 16 * other + 3 + k);
    }
    assert Decoded(e, other).addrs == want.addrs;
  }

  // Inode i as the disk has it.
  ghost function OnDisk(sb: Super, d: Store, i: nat): Inode
    requires IBlock(sb, i) in d
  {
    Decoded(d[IBlock(sb, i)], i % 16)
  }

  // Writing a metadata block below the free map touches no pointer and no data.
  lemma MetaWrite(sb: Super, d: Store, inodes: Itable, x: nat, v: Block)
    requires FsOk(sb, d, inodes, {}) && x < sb.bmapstart
    ensures x in d && FsOk(sb, d[x := v], inodes, {})
    ensures SameData(d, Table(d, inodes), d[x := v], Table(d[x := v], inodes))
  {
    hide Table, UsedSet, Used, Tight, Entry;
    IndirectElsewhere(sb, d, inodes, {}, x);
    WriteKeepsFs(sb, d, inodes, {}, x, v);
    forall r | r in Table(d, inodes) && Table(d, inodes)[r] != 0
      ensures Table(d, inodes)[r] in d && Table(d, inodes)[r] != x
    {
      InTable(d, inodes, r);
      OwnedInRange(sb, d, inodes, {}, r.inum, r.k);
    }
  }

  // `ip->size = n`
  lemma SizeKeepsFs(sb: Super, d: Store, inodes: Itable, i: nat, n: Word32)
    requires FsOk(sb, d, inodes, {}) && i in inodes
    ensures FsOk(sb, d, inodes[i := inodes[i].(size := n)], {})
    ensures Table(d, inodes[i := inodes[i].(size := n)]) == Table(d, inodes)
  {
    hide Table;
    var inodes' := inodes[i := inodes[i].(size := n)];
    forall s ensures s in Table(d, inodes') <==> s in Table(d, inodes)
      ensures s in Table(d, inodes) ==> Table(d, inodes')[s] == Table(d, inodes)[s]
    {
      InTable(d, inodes, s);
      InTable(d, inodes', s);
    }
    assert Table(d, inodes') == Table(d, inodes);
  }

  // --- truncation ---

  // d' differs from d in the free map only.
  ghost predicate OnlyMap(sb: Super, d: Store, d': Store) {
    d'.Keys == d.Keys && forall b :: b in d && (b < sb.bmapstart || b >= sb.datastart) ==> d'[b] == d[b]
  }

  // Giving back block b, which inode i's slot k < 12 pointed to.
  lemma DropDirect(sb: Super, d: Store, inodes: Itable, i: nat, k: nat)
    requires FsOk(sb, d, inodes, {}) && i in inodes && k < 12 && inodes[i].addrs[k] != 0
    ensures var b := inodes[i].addrs[k];
      && b < sb.size && BBlock(sb, b) in d && Used(sb, d, b)
      && FsOk(sb, Marked(sb, d, b, false), inodes[i := inodes[i].(addrs := inodes[i].addrs[k := 0])], {})
      && OnlyMap(sb, d, Marked(sb, d, b, false))
  {
    var b := inodes[i].addrs[k];
    var inodes' := inodes[i := inodes[i].(addrs := inodes[i].addrs[k := 0])];
    DetachDirect(sb, d, inodes, {}, i, k);
    assert b in UsedSet(sb, d);
    assert {} + {b} == {b};
    GiveBack(sb, d, inodes', {b}, b);
    assert {b} - {b} == {};
  }

  lemma GiveBack(sb: Super, d: Store, inodes: Itable, extra: set<nat>, b: nat)
    requires FsOk(sb, d, inodes, extra) && b in extra
    ensures sb.datastart <= b < sb.size && BBlock(sb, b) in d && Used(sb, d, b)
    ensures FsOk(sb, Marked(sb, d, b, false), inodes, extra - {b}) && OnlyMap(sb, d, Marked(sb, d, b, false))
  {
    assert b in UsedSet(sb, d);
    BBlockIsMeta(sb, b);
    MarkKeepsFs(sb, d, inodes, extra, b, false);
  }

  lemma HangingStep(sb: Super, d: Store, inodes: Itable, i: nat, j: nat)
    requires FsOk(sb, d, inodes, {}) && i in inodes && inodes[i].addrs[12] != 0 && j < 256
    ensures IndirectIn(d, inodes[i])
    ensures var a := Word(d[inodes[i].addrs[12]], j); var rest := Hanging(d, inodes[i], j + 1);
      && Hanging(d, inodes[i], j) == (if a == 0 then rest else rest + {a})
      && a !in rest && (a != 0 ==> a != inodes[i].addrs[12])
  {
    var ib := inodes[i].addrs[12];
    var a := Word(d[ib], j);
    DifferentSlots(sb, d, inodes, {}, Slot(i, 12), Slot(i, 13 + j));
    forall m: nat | m in Interval(j + 1, 256) && Word(d[ib], m) != 0 ensures Word(d[ib], m) != a {
      DifferentSlots(sb, d, inodes, {}, Slot(i, 13 + m), Slot(i, 13 + j));
    }
  }

  // All the blocks of inode i: direct, indirect, and those behind the indirect block.
  ghost function Owned(t: PointerTable, i: nat): set<nat> {
    set s | s in t && s.inum == i && t[s] != 0 :: t[s]
  }

  // Clearing all pointers of an inode gives back exactly its own blocks.
  lemma TruncatedUsed(t: PointerTable, used: set<nat>, t': PointerTable, used': set<nat>, i: nat)
    requires Tight(t, used, {}) && Tight(t', used', {}) && t'.Keys == t.Keys
    requires forall s :: s in t ==> t'[s] == if s.inum == i then 0 else t[s]
    ensures used' == used - Owned(t, i)
  {
    forall x | x in Targets(t') ensures x in Targets(t) && x !in Owned(t, i) {
      var s :| s in t' && t'[s] != 0 && t'[s] == x;
      assert s in t && t[s] == x;
    }
    forall x | x in Targets(t) && x !in Owned(t, i) ensures x in Targets(t') {
      var s :| s in t && t[s] != 0 && t[s] == x;
      assert s in t' && t'[s] == x;
    }
  }

  lemma OtherFilesUnderOnlyMap(sb: Super, d: Store, inodes: Itable, d': Store, x: nat)
    requires FsOk(sb, d, inodes, {}) && OnlyMap(sb, d, d') && x in inodes && FileOk(d, inodes[x])
    ensures FileOk(d', inodes[x]) && Content(d', inodes[x]) == Content(d, inodes[x])
  {
    var ino := inodes[x];
    OwnedInRange(sb, d, inodes, {}, x, 12);
    forall m: nat | m < 268
      ensures IndirectIn(d', ino) && Lookup(d', ino, m) == Lookup(d, ino, m)
      ensures Lookup(d, ino, m) != 0 ==> Lookup(d, ino, m) in d && d'[Lookup(d, ino, m)] == d[Lookup(d, ino, m)]
    {
      OwnedInRange(sb, d, inodes, {}, x, DSlot(m));
    }
    hide FsOk;
    assert FileOk(d', ino);
    forall y: nat | y < ino.size ensures ByteAt(d', ino, y) == ByteAt(d, ino, y) {
      assert y / 1024 < 268 && y / 1024 * 1024 <= y;
    }
  }
}
