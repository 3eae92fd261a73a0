/** What the on-disk redo log of kernel/log.c means: the device states that
    commit and recovery write one block at a time, and what recovery makes of
    each of them after a crash. */
module CrashSafety {
  import opened Blocks
  import opened Cache

  // Where the log lives: the header at `start`, then `cap` (LOGBLOCKS) slots.
  datatype Layout = Layout(dev: nat, start: nat, cap: nat)

  ghost predicate Fits(l: Layout) {
    l.dev != 0 && l.cap < 255
  }

  function HeaderId(l: Layout): Id {
    Id(l.dev, l.start)
  }

  function SlotId(l: Layout, k: nat): Id {
    Id(l.dev, l.start + k + 1)
  }

  function Home(l: Layout, id: Id): bool {
    id.dev != l.dev || id.bno < l.start || id.bno > l.start + l.cap
  }

  // The header block on the device: a count, then that many block numbers.
  function Count(l: Layout, d: Disk): nat
    requires HeaderId(l) in d
  {
    Word(d[HeaderId(l)], 0)
  }

  function Target(l: Layout, d: Disk, k: nat): Id
    requires HeaderId(l) in d && k < 255
  {
    Id(l.dev, Word(d[HeaderId(l)], k + 1))
  }

  ghost predicate HasLog(l: Layout, d: Disk) {
    && Fits(l) && HeaderId(l) in d
    && forall k :: 0 <= k < l.cap ==> SlotId(l, k) in d
  }

  ghost predicate WellFormed(l: Layout, d: Disk) {
    && HasLog(l, d) && Count(l, d) <= l.cap
    && forall k :: 0 <= k < Count(l, d) ==> Target(l, d, k) in d && Home(l, Target(l, d, k))
  }

  // The file system proper: everything outside the log region.
  ghost function Homes(l: Layout, d: Disk): Disk {
    map id | id in d && Home(l, id) :: d[id]
  }

  // The device after install_trans has copied the first k logged blocks.
  ghost function Installed(l: Layout, d: Disk, k: nat): Disk
    requires WellFormed(l, d) && k <= Count(l, d)
  {
    if k == 0 then d else Installed(l, d, k - 1)[Target(l, d, k - 1) := d[SlotId(l, k - 1)]]
  }

  ghost function Erased(l: Layout, d: Disk): Disk
    requires HasLog(l, d)
  {
    d[HeaderId(l) := SetWord(d[HeaderId(l)], 0, 0)]
  }

  // The file system that recovery will present if the machine stops at `d`.
  ghost function Outcome(l: Layout, d: Disk): Disk
    requires WellFormed(l, d)
  {
    Homes(l, Installed(l, d, Count(l, d)))
  }

  ghost predicate SameLog(l: Layout, d: Disk, d': Disk) {
    d.Keys == d'.Keys && forall id :: id in d && !Home(l, id) ==> d[id] == d'[id]
  }

  lemma {:induction false} InstallKeepsLog(l: Layout, d: Disk, k: nat)
    requires WellFormed(l, d) && k <= Count(l, d)
    ensures SameLog(l, d, Installed(l, d, k)) && WellFormed(l, Installed(l, d, k))
  {
    if k > 0 {
      InstallKeepsLog(l, d, k - 1);
    }
    SameLogWellFormed(l, d, Installed(l, d, k));
  }

  lemma {:induction false} InstallTouchesTargets(l: Layout, d: Disk, k: nat, id: Id)
    requires WellFormed(l, d) && k <= Count(l, d) && id in d
    ensures id in Installed(l, d, k)
    ensures Installed(l, d, k)[id] == d[id] || exists j :: 0 <= j < k && Target(l, d, j) == id
  {
    if k > 0 {
      InstallTouchesTargets(l, d, k - 1, id);
      assert Target(l, d, k - 1) == Target(l, d, k - 1);
    }
  }

  lemma SameLogWellFormed(l: Layout, d: Disk, d': Disk)
    requires WellFormed(l, d) && SameLog(l, d, d')
    ensures WellFormed(l, d') && Count(l, d') == Count(l, d)
    ensures forall k :: 0 <= k < Count(l, d) ==>
      Target(l, d', k) == Target(l, d, k) && d'[SlotId(l, k)] == d[SlotId(l, k)]
  {
    assert !Home(l, HeaderId(l));
    forall k | 0 <= k < Count(l, d) ensures Target(l, d', k) == Target(l, d, k) && d'[SlotId(l, k)] == d[SlotId(l, k)] {
      assert !Home(l, SlotId(l, k));
    }
  }

  lemma {:induction false} InstalledKeys(l: Layout, d: Disk, k: nat)
    requires WellFormed(l, d) && k <= Count(l, d)
    ensures Installed(l, d, k).Keys == d.Keys
  {
    hide Word, Home;
    if k > 0 {
      InstalledKeys(l, d, k - 1);
      assert Target(l, d, k - 1) in d;
    }
  }

  // Installing the same log twice makes up for any difference in its targets.
  lemma {:induction false} InstallForgets(l: Layout, d: Disk, d': Disk, k: nat, id: Id)
    requires WellFormed(l, d) && WellFormed(l, d') && d'.Keys == d.Keys && k <= Count(l, d) == Count(l, d')
    requires forall j :: 0 <= j < k ==> Target(l, d', j) == Target(l, d, j) && d'[SlotId(l, j)] == d[SlotId(l, j)]
    requires id in d && (d[id] == d'[id] || exists j :: 0 <= j < k && Target(l, d, j) == id)
    ensures id in Installed(l, d, k) && id in Installed(l, d', k)
    ensures Installed(l, d, k)[id] == Installed(l, d', k)[id]
  {
    InstalledKeys(l, d, k);
    InstalledKeys(l, d', k);
    hide Home, Word, WellFormed, HasLog;
    if k > 0 {
      var t := Target(l, d, k - 1);
      assert Target(l, d', k - 1) == t && d'[SlotId(l, k - 1)] == d[SlotId(l, k - 1)];
      if t != id {
        InstallForgets(l, d, d', k - 1, id);
      }
    }
  }

  // A partly finished install still recovers to the same file system.
  lemma PartialInstallOutcome(l: Layout, d: Disk, j: nat)
    requires WellFormed(l, d) && j <= Count(l, d)
    ensures WellFormed(l, Installed(l, d, j)) && Outcome(l, Installed(l, d, j)) == Outcome(l, d)
  {
    var d' := Installed(l, d, j);
    InstallKeepsLog(l, d, j);
    SameLogWellFormed(l, d, d');
    var n := Count(l, d);
    InstallKeepsLog(l, d, n);
    InstallKeepsLog(l, d', n);
    forall id | id in d ensures Installed(l, d, n)[id] == Installed(l, d', n)[id] {
      InstallTouchesTargets(l, d, j, id);
      InstallForgets(l, d, d', n, id);
    }
  }

  // Erasing the header after a complete install fixes that file system.
  lemma ErasedOutcome(l: Layout, d: Disk)
    requires WellFormed(l, d)
    ensures var e := Erased(l, d);
      WellFormed(l, e) && Count(l, e) == 0 && Outcome(l, e) == Homes(l, d)
  {
    WordOfSetWord(d[HeaderId(l)], 0, 0, 0);
  }

  ghost function InstallStates(l: Layout, d: Disk): (s: seq<Disk>)
    requires WellFormed(l, d)
  {
    seq(Count(l, d), k requires 0 <= k < Count(l, d) => Installed(l, d, k + 1))
  }

  lemma InstallStatesGrow(l: Layout, d: Disk, k: nat)
    requires WellFormed(l, d) && k <= Count(l, d)
    ensures var s := InstallStates(l, d);
      && |s| == Count(l, d) && s[..Count(l, d)] == s
      && (k < Count(l, d) ==> s[..k + 1] == s[..k] + [Installed(l, d, k + 1)])
  {
  }

  ghost function Finished(l: Layout, d: Disk): (e: Disk)
    requires WellFormed(l, d)
  {
    InstallKeepsLog(l, d, Count(l, d));
    Erased(l, Installed(l, d, Count(l, d)))
  }

  // The device states that recover_from_log goes through, one per block write.
  ghost function RecoveryStates(l: Layout, d: Disk): (s: seq<Disk>)
    requires WellFormed(l, d)
  {
    InstallStates(l, d) + [Finished(l, d)]
  }

  lemma FinishedOutcome(l: Layout, d: Disk)
    requires WellFormed(l, d)
    ensures WellFormed(l, Finished(l, d)) && Count(l, Finished(l, d)) == 0
    ensures Homes(l, Finished(l, d)) == Outcome(l, Finished(l, d)) == Outcome(l, d)
  {
    InstallKeepsLog(l, d, Count(l, d));
    ErasedOutcome(l, Installed(l, d, Count(l, d)));
  }

  // Stopping anywhere inside recovery does not change what recovery will present.
  lemma RecoveryIsRestartable(l: Layout, d: Disk, i: nat)
    requires WellFormed(l, d) && i < |RecoveryStates(l, d)|
    ensures var s := RecoveryStates(l, d)[i]; WellFormed(l, s) && Outcome(l, s) == Outcome(l, d)
  {
    if i < Count(l, d) {
      PartialInstallOutcome(l, d, i + 1);
    } else {
      FinishedOutcome(l, d);
    }
  }

  // `stops` is where each of a series of recoveries was cut off by the next crash.
  ghost predicate Interrupted(l: Layout, d: Disk, stops: seq<Disk>)
    decreases |stops|
  {
    && WellFormed(l, d)
    && (stops != [] ==> (stops[0] == d || stops[0] in RecoveryStates(l, d)) && Interrupted(l, stops[0], stops[1..]))
  }

  ghost function LastStop(d: Disk, stops: seq<Disk>): Disk {
    if stops == [] then d else stops[|stops| - 1]
  }

  lemma {:induction false} RecoveriesConverge(l: Layout, d: Disk, stops: seq<Disk>)
    requires Interrupted(l, d, stops)
    ensures var last := LastStop(d, stops);
      && WellFormed(l, last)
      && Homes(l, Finished(l, last)) == Outcome(l, d)
      && Count(l, Finished(l, last)) == 0
    decreases |stops|
  {
    if stops == [] {
      FinishedOutcome(l, d);
    } else {
      var s := stops[0];
      if s != d {
        var i :| 0 <= i < |RecoveryStates(l, d)| && RecoveryStates(l, d)[i] == s;
        RecoveryIsRestartable(l, d, i);
      }
      RecoveriesConverge(l, s, stops[1..]);
      assert LastStop(d, stops) == LastStop(s, stops[1..]);
    }
  }

  // --- commit ---

  // A transaction: `blocks` were logged, `view` is what the cache holds.
  ghost predicate Loggable(l: Layout, d: Disk, view: Disk, blocks: seq<Word32>) {
    && WellFormed(l, d) && Count(l, d) == 0
    && view.Keys == d.Keys && |blocks| <= l.cap
    && (forall k :: 0 <= k < |blocks| ==> Id(l.dev, blocks[k]) in d && Home(l, Id(l.dev, blocks[k])))
    && (forall id :: id in d && Home(l, id) && view[id] != d[id] ==> id.dev == l.dev && id.bno in blocks)
  }

  // write_log after k blocks.
  ghost function Copied(l: Layout, d: Disk, view: Disk, blocks: seq<Word32>, k: nat): Disk
    requires Loggable(l, d, view, blocks) && k <= |blocks|
  {
    if k == 0 then d else Copied(l, d, view, blocks, k - 1)[SlotId(l, k - 1) := view[Id(l.dev, blocks[k - 1])]]
  }

  // The header block as write_head fills it in: the count, then k entries.
  function HeaderBlock(b: Block, blocks: seq<Word32>, k: nat): Block
    requires k <= |blocks| < 255
  {
    if k == 0 then SetWord(b, 0, |blocks|) else SetWord(HeaderBlock(b, blocks, k - 1), k, blocks[k - 1])
  }

  lemma {:induction false} HeaderReadsBack(b: Block, blocks: seq<Word32>, k: nat)
    requires k <= |blocks| < 255
    ensures Word(HeaderBlock(b, blocks, k), 0) == |blocks|
    ensures forall j :: 0 <= j < k ==> Word(HeaderBlock(b, blocks, k), j + 1) == blocks[j]
  {
    if k == 0 {
      WordOfSetWord(b, 0, |blocks|, 0);
    } else {
      var h := HeaderBlock(b, blocks, k - 1);
      HeaderReadsBack(b, blocks, k - 1);
      WordOfSetWord(h, k, blocks[k - 1], 0);
      forall j | 0 <= j < k ensures Word(HeaderBlock(b, blocks, k), j + 1) == blocks[j] {
        WordOfSetWord(h, k, blocks[k - 1], j + 1);
      }
    }
  }

  lemma {:induction false} CopyKeepsHomes(l: Layout, d: Disk, view: Disk, blocks: seq<Word32>, k: nat)
    requires Loggable(l, d, view, blocks) && k <= |blocks|
    ensures var c := Copied(l, d, view, blocks, k);
      && c.Keys == d.Keys && c[HeaderId(l)] == d[HeaderId(l)]
      && (forall id :: id in d && Home(l, id) ==> c[id] == d[id])
      && (forall j :: 0 <= j < k ==> c[SlotId(l, j)] == view[Id(l.dev, blocks[j])])
  {
    if k > 0 {
      CopyKeepsHomes(l, d, view, blocks, k - 1);
    }
  }

  // The device right after the header write: the commit point.
  ghost function CommitPoint(l: Layout, d: Disk, view: Disk, blocks: seq<Word32>): Disk
    requires Loggable(l, d, view, blocks)
  {
    CopyKeepsHomes(l, d, view, blocks, |blocks|);
    var c := Copied(l, d, view, blocks, |blocks|);
    c[HeaderId(l) := HeaderBlock(c[HeaderId(l)], blocks, |blocks|)]
  }

  lemma BeforeCommitPoint(l: Layout, d: Disk, view: Disk, blocks: seq<Word32>, k: nat)
    requires Loggable(l, d, view, blocks) && k <= |blocks|
    ensures var c := Copied(l, d, view, blocks, k);
      WellFormed(l, c) && Outcome(l, c) == Homes(l, d)
  {
    CopyKeepsHomes(l, d, view, blocks, k);
    assert Count(l, Copied(l, d, view, blocks, k)) == 0;
  }

  lemma CommitPointWellFormed(l: Layout, d: Disk, view: Disk, blocks: seq<Word32>)
    requires Loggable(l, d, view, blocks)
    ensures var h := CommitPoint(l, d, view, blocks);
      && WellFormed(l, h) && h.Keys == d.Keys && Count(l, h) == |blocks|
      && (forall j :: 0 <= j < |blocks| ==>
            Target(l, h, j) == Id(l.dev, blocks[j]) && h[SlotId(l, j)] == view[Id(l.dev, blocks[j])])
      && (forall id :: id in d && Home(l, id) ==> h[id] == d[id])
  {
    CopyKeepsHomes(l, d, view, blocks, |blocks|);
    HeaderReadsBack(d[HeaderId(l)], blocks, |blocks|);
    var c, h := Copied(l, d, view, blocks, |blocks|), CommitPoint(l, d, view, blocks);
    assert forall id :: id in d && id != HeaderId(l) ==> h[id] == c[id];
    forall j | 0 <= j < |blocks|
      ensures Target(l, h, j) == Id(l.dev, blocks[j]) && h[SlotId(l, j)] == view[Id(l.dev, blocks[j])]
    {
      assert h[SlotId(l, j)] == c[SlotId(l, j)];
    }
  }

  // What installing k logged blocks makes of one block.
  lemma {:induction false} InstalledIs(l: Layout, h: Disk, view: Disk, blocks: seq<Word32>, k: nat, id: Id)
    requires WellFormed(l, h) && Count(l, h) == |blocks| && k <= |blocks| && id in h
    requires forall j :: 0 <= j < |blocks| ==>
      && Target(l, h, j) == Id(l.dev, blocks[j]) && Id(l.dev, blocks[j]) in view
      && h[SlotId(l, j)] == view[Id(l.dev, blocks[j])]
    ensures var s := Installed(l, h, k);
      id in s && if id.dev == l.dev && id.bno in blocks[..k] then id in view && s[id] == view[id] else s[id] == h[id]
  {
    hide Word, Home;
    if k > 0 {
      InstalledIs(l, h, view, blocks, k - 1, id);
      assert blocks[..k] == blocks[..k - 1] + [blocks[k - 1]];
      assert Target(l, h, k - 1) == Id(l.dev, blocks[k - 1]);
    }
  }

  lemma InstalledFromView(l: Layout, d: Disk, view: Disk, blocks: seq<Word32>, id: Id)
    requires Loggable(l, d, view, blocks) && id in d && Home(l, id)
    requires WellFormed(l, CommitPoint(l, d, view, blocks)) && Count(l, CommitPoint(l, d, view, blocks)) == |blocks|
    ensures var s := Installed(l, CommitPoint(l, d, view, blocks), |blocks|);
      id in s && s[id] == view[id]
  {
    CommitPointWellFormed(l, d, view, blocks);
    hide CommitPoint, Installed, Word;
    InstalledIs(l, CommitPoint(l, d, view, blocks), view, blocks, |blocks|, id);
    assert blocks[..|blocks|] == blocks;
  }

  lemma AfterCommitPoint(l: Layout, d: Disk, view: Disk, blocks: seq<Word32>)
    requires Loggable(l, d, view, blocks)
    ensures var h := CommitPoint(l, d, view, blocks);
      WellFormed(l, h) && Outcome(l, h) == Homes(l, view)
  {
    CommitPointWellFormed(l, d, view, blocks);
    var h := CommitPoint(l, d, view, blocks);
    InstallKeepsLog(l, h, |blocks|);
    forall id | id in d && Home(l, id) ensures Installed(l, h, |blocks|)[id] == view[id] {
      InstalledFromView(l, d, view, blocks, id);
    }
  }

  // The device states that commit goes through, one per block write.
  ghost function CommitStates(l: Layout, d: Disk, view: Disk, blocks: seq<Word32>): (s: seq<Disk>)
    requires Loggable(l, d, view, blocks)
  {
    CommitPointWellFormed(l, d, view, blocks);
    var h := CommitPoint(l, d, view, blocks);
    CopyStates(l, d, view, blocks) + [h] + RecoveryStates(l, h)
  }

  ghost function CopyStates(l: Layout, d: Disk, view: Disk, blocks: seq<Word32>): (s: seq<Disk>)
    requires Loggable(l, d, view, blocks)
  {
    seq(|blocks|, k requires 0 <= k < |blocks| => Copied(l, d, view, blocks, k + 1))
  }

  lemma CopyStatesGrow(l: Layout, d: Disk, view: Disk, blocks: seq<Word32>, k: nat)
    requires Loggable(l, d, view, blocks) && k <= |blocks|
    ensures var s := CopyStates(l, d, view, blocks);
      && |s| == |blocks| && s[..|blocks|] == s
      && (k < |blocks| ==> s[..k + 1] == s[..k] + [Copied(l, d, view, blocks, k + 1)])
  {
  }

  lemma CommitStatesParts(l: Layout, d: Disk, view: Disk, blocks: seq<Word32>)
    requires Loggable(l, d, view, blocks)
    ensures var h := CommitPoint(l, d, view, blocks);
      && WellFormed(l, h)
      && CommitStates(l, d, view, blocks) ==
         CopyStates(l, d, view, blocks) + [h] + InstallStates(l, h) + [Finished(l, h)]
  {
    CommitPointWellFormed(l, d, view, blocks);
  }

  // Until the header is written the old file system survives a crash, from then on the new one.
  lemma CommitStateOutcome(l: Layout, d: Disk, view: Disk, blocks: seq<Word32>, i: nat)
    requires Loggable(l, d, view, blocks) && i < |CommitStates(l, d, view, blocks)|
    ensures var s := CommitStates(l, d, view, blocks)[i];
      && WellFormed(l, s)
      && Outcome(l, s) == if i < |blocks| then Homes(l, d) else Homes(l, view)
  {
    AfterCommitPoint(l, d, view, blocks);
    var h := CommitPoint(l, d, view, blocks);
    if i < |blocks| {
      BeforeCommitPoint(l, d, view, blocks, i + 1);
    } else if i > |blocks| {
      assert CommitStates(l, d, view, blocks)[i] == RecoveryStates(l, h)[i - |blocks| - 1];
      RecoveryIsRestartable(l, h, i - |blocks| - 1);
    }
  }

  // Crash atomicity: stop commit after any number of its block writes, let any
  // number of recoveries be cut short, and let the last one finish. The file
  // system is then the old one or the new one, and the log is empty.
  lemma CrashAtomicity(l: Layout, d: Disk, view: Disk, blocks: seq<Word32>, i: nat, stops: seq<Disk>)
    requires Loggable(l, d, view, blocks) && i <= |CommitStates(l, d, view, blocks)|
    requires Interrupted(l, ([d] + CommitStates(l, d, view, blocks))[i], stops)
    ensures var last := LastStop(([d] + CommitStates(l, d, view, blocks))[i], stops);
      && WellFormed(l, last)
      && Count(l, Finished(l, last)) == 0
      && Homes(l, Finished(l, last)) == if i <= |blocks| then Homes(l, d) else Homes(l, view)
  {
    var states := [d] + CommitStates(l, d, view, blocks);
    if i > 0 {
      CommitStateOutcome(l, d, view, blocks, i - 1);
    }
    RecoveriesConverge(l, states[i], stops);
  }
}
