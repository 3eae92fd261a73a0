/** The redo log (kernel/log.c) running over the buffer cache. */
module Log {
  import opened Blocks
  import opened Lru
  import opened Cache
  import opened Bio
  import opened CrashSafety
  import P = LogProtocol

  // Buffers that other processes hold stay as they were, and no lock is taken over.
  ghost predicate LocksKept(bufs: seq<Buf>, bufs': seq<Buf>) {
    && |bufs'| == |bufs|
    && forall i :: 0 <= i < |bufs| && bufs'[i].owner.Some? ==> bufs'[i] == bufs[i]
  }

  ghost predicate Unlocked(bufs: seq<Buf>, id: Id) {
    forall i :: 0 <= i < |bufs| && bufs[i].id == id ==> bufs[i].owner.None?
  }

  ghost predicate Spare(bufs: seq<Buf>) {
    exists i :: 0 <= i < |bufs| && bufs[i].refcnt == 0
  }

  // Every buffer is in use for a home block: no room left to read a log block.
  ghost predicate Full(l: Layout, bufs: seq<Buf>) {
    forall i :: 0 <= i < |bufs| ==> bufs[i].refcnt > 0 && Home(l, bufs[i].id)
  }

  ghost predicate SameCounts(bufs: seq<Buf>, bufs': seq<Buf>) {
    |bufs'| == |bufs| && forall i :: 0 <= i < |bufs| ==> bufs'[i].refcnt == bufs[i].refcnt
  }

  lemma UnlockedIsSaved(s: State, id: Id)
    requires Inv(s) && Unlocked(s.bufs, id)
    ensures Saved(s, id)
  {
  }

  lemma PinnedIsPresent(c: Bcache, id: Id)
    requires c.Valid() && id in c.pins
    ensures c.Present(id)
  {
    assert Kept(c.bufs, c.pins, id);
  }

  // Taking one buffer leaves one of two.
  lemma OneLeft(bufs: seq<Buf>, bufs': seq<Buf>, x: nat)
    requires x < |bufs| == |bufs'| && bufs' == bufs[x := bufs'[x]]
    ensures TwoSpare(bufs) ==> Spare(bufs')
  {
    if TwoSpare(bufs) {
      var i, j :| 0 <= i < j < |bufs| && bufs[i].refcnt == 0 && bufs[j].refcnt == 0;
      assert bufs'[i].refcnt == 0 || bufs'[j].refcnt == 0;
    }
  }

  // Two bread calls in a row; None is a "no buffers" panic in either.
  method FetchPair(c: Bcache, me: nat, p: Id, q: Id) returns (r: Option<(nat, nat)>)
    requires c.Valid() && p != q && p.dev != 0 && q.dev != 0 && p in c.disk && q in c.disk
    requires Unlocked(c.bufs, p) && Unlocked(c.bufs, q)
    modifies c`bufs, c`uses
    ensures c.Valid()
    ensures r.Some? ==> var (x, y) := r.value;
      && x < c.n && y < c.n && x != y
      && Taken(old(c.bufs)[x], c.bufs[x], p, me) && Taken(old(c.bufs)[y], c.bufs[y], q, me)
      && c.bufs == old(c.bufs)[x := c.bufs[x]][y := c.bufs[y]]
      && c.bufs[x].data == c.latest[p] && c.bufs[y].data == c.latest[q]
    ensures Spare(old(c.bufs)) && (q in c.pins || TwoSpare(old(c.bufs))) ==> r.Some?
    ensures (forall i :: 0 <= i < c.n ==> old(c.bufs)[i].refcnt > 0 && old(c.bufs)[i].id != p) ==> r.None?
  {
    hide Inv, Stepped, Coherent, Linked, Recency;
    var x, _ := c.Bread(me, p);
    if x.NoBuffers? {
      return None;
    }
    if q in c.pins {
      PinnedIsPresent(c, q);
    }
    OneLeft(old(c.bufs), c.bufs, x.b);
    var y, _ := c.Bread(me, q);
    if y.NoBuffers? {
      return None;
    }
    return Some((x.b, y.b));
  }

  ghost predicate Taken(was: Buf, b: Buf, id: Id, me: nat) {
    && was.owner.None? && b.refcnt == was.refcnt + 1 && (was.id == id || was.refcnt == 0)
    && b.valid && b.id == id && b.owner == Some(me)
  }

  ghost predicate TwoSpare(bufs: seq<Buf>) {
    exists i, j :: 0 <= i < j < |bufs| && bufs[i].refcnt == 0 && bufs[j].refcnt == 0
  }

  // memmove from one held buffer to another, bwrite, bunpin if asked, and the two brelse calls.
  method CopyAndRelease(c: Bcache, me: nat, from: nat, to: nat, unpin: bool)
    requires c.Valid() && from < c.n && to < c.n && from != to
    requires c.bufs[from].valid && c.bufs[from].owner == Some(me) && c.bufs[to].valid && c.bufs[to].owner == Some(me)
    requires c.bufs[from].id != c.bufs[to].id && c.bufs[from].id in c.disk && c.bufs[to].id in c.disk
    requires c.disk[c.bufs[from].id] != c.latest[c.bufs[from].id] ==> c.bufs[from].id in c.pins
    requires unpin ==> c.bufs[to].id in c.pins
    modifies c
    ensures c.Valid()
    ensures var dst, v := old(c.bufs)[to].id, old(c.bufs)[from].data;
      && c.disk == old(c.disk)[dst := v] && c.latest == old(c.latest)[dst := v]
      && c.trace == old(c.trace) + [c.disk]
      && c.pins == if unpin then old(c.pins) - multiset{dst} else old(c.pins)
    ensures old(c.bufs)[from].refcnt > 0 && old(c.bufs)[to].refcnt > if unpin then 1 else 0
    ensures c.bufs == old(c.bufs)
      [to := Buf(true, old(c.bufs)[to].id, old(c.bufs)[to].refcnt - (if unpin then 2 else 1), None,
          old(c.bufs)[from].data)]
      [from := Buf(true, old(c.bufs)[from].id, old(c.bufs)[from].refcnt - 1, None, old(c.bufs)[from].data)]
  {
    hide Inv, Stepped, Coherent, Linked, Recency;
    CopyBlock(c, me, from, to, unpin);
    ReleasePair(c, me, from, to);
  }

  // Two brelse calls in a row.
  method ReleasePair(c: Bcache, me: nat, x: nat, y: nat)
    requires c.Valid() && x < c.n && y < c.n && x != y
    requires c.bufs[x].owner == Some(me) && Saved(c.View(), c.bufs[x].id)
    requires c.bufs[y].owner == Some(me) && Saved(c.View(), c.bufs[y].id)
    modifies c`bufs, c`uses, c`next, c`prev, c`order, c`stamps, c`now
    ensures c.Valid() && old(c.bufs)[x].refcnt > 0 && old(c.bufs)[y].refcnt > 0
    ensures c.bufs == old(c.bufs)
      [y := old(c.bufs)[y].(owner := None, refcnt := old(c.bufs)[y].refcnt - 1)]
      [x := old(c.bufs)[x].(owner := None, refcnt := old(c.bufs)[x].refcnt - 1)]
  {
    hide Inv, Stepped, Coherent, Linked, Recency;
    var _ := c.Brelse(x, me);
    var _ := c.Brelse(y, me);
  }

  method CopyBlock(c: Bcache, me: nat, from: nat, to: nat, unpin: bool)
    requires c.Valid() && from < c.n && to < c.n && from != to
    requires c.bufs[from].valid && c.bufs[to].valid && c.bufs[to].owner == Some(me)
    requires unpin ==> c.bufs[to].id in c.pins
    modifies c`bufs, c`latest, c`disk, c`trace, c`pins
    ensures c.Valid() && old(c.bufs)[to].id in old(c.disk) && old(c.bufs)[to].id in old(c.latest)
    ensures var dst, v := old(c.bufs)[to].id, old(c.bufs)[from].data;
      && c.disk == old(c.disk)[dst := v] && c.latest == old(c.latest)[dst := v]
      && c.trace == old(c.trace) + [c.disk]
      && c.pins == if unpin then old(c.pins) - multiset{dst} else old(c.pins)
    ensures unpin ==> old(c.bufs)[to].refcnt > 0
    ensures c.bufs == old(c.bufs)[to := old(c.bufs)[to].(
      refcnt := old(c.bufs)[to].refcnt - (if unpin then 1 else 0), data := old(c.bufs)[from].data)]
  {
    hide Inv, Stepped, Coherent, Linked, Recency;
    c.Change(to, me, c.bufs[from].data);
    var _ := c.Bwrite(to, me);
    if unpin {
      c.Bunpin(to);
    }
  }

  // New contents for a held buffer, bwrite and brelse.
  method PutAndRelease(c: Bcache, me: nat, b: nat, v: Block)
    requires c.Valid() && b < c.n && c.bufs[b].valid && c.bufs[b].owner == Some(me)
    modifies c
    ensures c.Valid() && old(c.bufs)[b].refcnt > 0
    ensures var id := old(c.bufs)[b].id;
      && c.disk == old(c.disk)[id := v] && c.latest == old(c.latest)[id := v]
      && c.trace == old(c.trace) + [c.disk] && c.pins == old(c.pins)
    ensures c.bufs == old(c.bufs)[b := Buf(true, old(c.bufs)[b].id, old(c.bufs)[b].refcnt - 1, None, v)]
  {
    hide Inv, Stepped, Coherent, Linked, Recency;
    c.Change(b, me, v);
    var _ := c.Bwrite(b, me);
    var _ := c.Brelse(b, me);
  }

  // One iteration of write_log: `dst` (a log slot) receives the cached
  // contents of `src` and goes to the device.
  method CopyToLog(c: Bcache, me: nat, dst: Id, src: Id) returns (ok: bool)
    requires c.Valid() && dst != src && dst.dev != 0 && src.dev != 0 && dst in c.disk && src in c.disk
    requires Unlocked(c.bufs, dst) && Unlocked(c.bufs, src)
    modifies c
    ensures c.Valid()
    ensures ok ==>
      && c.disk == old(c.disk)[dst := old(c.latest)[src]]
      && c.latest == old(c.latest)[dst := old(c.latest)[src]]
      && c.trace == old(c.trace) + [c.disk] && c.pins == old(c.pins)
      && LocksKept(old(c.bufs), c.bufs)
    ensures !ok ==> c.trace == old(c.trace)
    ensures ok ==> SameCounts(old(c.bufs), c.bufs)
    ensures Spare(old(c.bufs)) && src in old(c.pins) ==> ok
    ensures (forall i :: 0 <= i < c.n ==> old(c.bufs)[i].refcnt > 0 && old(c.bufs)[i].id != dst) ==> !ok
  {
    hide Inv, Stepped, Coherent, Linked, Recency;
    UnlockedIsSaved(c.View(), src);
    var r := FetchPair(c, me, dst, src);
    if r.None? {
      return false;
    }
    CopyAndRelease(c, me, r.value.1, r.value.0, false);
    ok := true;
  }

  // One iteration of install_trans: home block `dst` receives log slot `src`.
  method CopyHome(c: Bcache, me: nat, src: Id, dst: Id, recovering: bool) returns (ok: bool)
    requires c.Valid() && dst != src && dst.dev != 0 && src.dev != 0 && dst in c.disk && src in c.disk
    requires Unlocked(c.bufs, dst) && Unlocked(c.bufs, src)
    requires !recovering ==> dst in c.pins
    modifies c
    ensures c.Valid()
    ensures ok ==>
      && c.disk == old(c.disk)[dst := old(c.latest)[src]]
      && c.latest == old(c.latest)[dst := old(c.latest)[src]]
      && c.trace == old(c.trace) + [c.disk]
      && c.pins == (if recovering then old(c.pins) else old(c.pins) - multiset{dst})
      && LocksKept(old(c.bufs), c.bufs)
    ensures !ok ==> c.trace == old(c.trace)
    ensures ok ==> NoHigherCounts(old(c.bufs), c.bufs)
    ensures Spare(old(c.bufs)) && (!recovering || TwoSpare(old(c.bufs))) ==> ok
  {
    hide Inv, Stepped, Coherent, Linked, Recency;
    UnlockedIsSaved(c.View(), src);
    var r := FetchPair(c, me, src, dst);
    if r.None? {
      return false;
    }
    CopyAndRelease(c, me, r.value.0, r.value.1, !recovering);
    ok := true;
  }

  ghost predicate NoHigherCounts(bufs: seq<Buf>, bufs': seq<Buf>) {
    |bufs'| == |bufs| && forall i :: 0 <= i < |bufs| ==> bufs'[i].refcnt <= bufs[i].refcnt
  }

  lemma StaysUnlocked(bufs: seq<Buf>, bufs': seq<Buf>, id: Id)
    requires LocksKept(bufs, bufs') && Unlocked(bufs, id)
    ensures Unlocked(bufs', id)
  {
  }

  function LoggedIds(l: Layout, blocks: seq<Word32>): (ids: seq<Id>) {
    seq(|blocks|, k requires 0 <= k < |blocks| => Id(l.dev, blocks[k]))
  }

  lemma LoggedHere(l: Layout, blocks: seq<Word32>, i: nat)
    requires i < |blocks|
    ensures Id(l.dev, blocks[i]) in multiset(LoggedIds(l, blocks))
  {
    assert LoggedIds(l, blocks)[i] == Id(l.dev, blocks[i]);
  }

  lemma LoggedMore(l: Layout, blocks: seq<Word32>, b: Word32)
    ensures multiset(LoggedIds(l, blocks + [b])) == multiset(LoggedIds(l, blocks)) + multiset{Id(l.dev, b)}
  {
    assert LoggedIds(l, blocks + [b]) == LoggedIds(l, blocks) + [Id(l.dev, b)];
  }

  // The log's own blocks never wait in the cache.
  ghost predicate LogRegionClean(l: Layout, disk: Disk, latest: Disk) {
    disk.Keys == latest.Keys && forall id :: id in disk && !Home(l, id) ==> latest[id] == disk[id]
  }

  ghost predicate SameHomes(l: Layout, d: Disk, d': Disk) {
    d.Keys == d'.Keys && forall id :: id in d && Home(l, id) ==> d[id] == d'[id]
  }

  lemma SlotUpdate(l: Layout, view: Disk, disk: Disk, latest: Disk, id: Id, v: Block)
    requires SameHomes(l, view, latest) && LogRegionClean(l, disk, latest) && id in disk && !Home(l, id)
    ensures SameHomes(l, view, latest[id := v]) && LogRegionClean(l, disk[id := v], latest[id := v])
  {
  }

  lemma HeaderUpdate(l: Layout, view: Disk, disk: Disk, latest: Disk, v: Block)
    requires SameHomes(l, view, latest) && LogRegionClean(l, disk, latest) && HeaderId(l) in disk
    ensures Tracks(l, view, disk[HeaderId(l) := v], latest[HeaderId(l) := v])
    ensures LogRegionClean(l, disk[HeaderId(l) := v], latest[HeaderId(l) := v])
  {
  }

  // Every cached home block shows `view` or what the device holds.
  ghost predicate Tracks(l: Layout, view: Disk, disk: Disk, latest: Disk) {
    && view.Keys == disk.Keys == latest.Keys
    && forall id :: id in disk && Home(l, id) ==> latest[id] == view[id] || latest[id] == disk[id]
  }

  lemma HomeUpdate(l: Layout, view: Disk, disk: Disk, latest: Disk, id: Id, v: Block)
    requires Tracks(l, view, disk, latest) && LogRegionClean(l, disk, latest) && id in disk && Home(l, id)
    ensures Tracks(l, view, disk[id := v], latest[id := v]) && LogRegionClean(l, disk[id := v], latest[id := v])
  {
  }

  lemma LocksKeptTwice(a: seq<Buf>, b: seq<Buf>, c: seq<Buf>)
    requires LocksKept(a, b) && LocksKept(b, c)
    ensures LocksKept(a, c)
  {
  }

  lemma NoHigherTwice(a: seq<Buf>, b: seq<Buf>, c: seq<Buf>)
    requires NoHigherCounts(a, b) && NoHigherCounts(b, c)
    ensures NoHigherCounts(a, c)
  {
  }

  lemma StaysSpareLower(bufs: seq<Buf>, bufs': seq<Buf>)
    requires NoHigherCounts(bufs, bufs')
    ensures Spare(bufs) ==> Spare(bufs')
    ensures TwoSpare(bufs) ==> TwoSpare(bufs')
  {
    if Spare(bufs) {
      var i :| 0 <= i < |bufs| && bufs[i].refcnt == 0;
      assert bufs'[i].refcnt == 0;
    }
    if TwoSpare(bufs) {
      var i, j :| 0 <= i < j < |bufs| && bufs[i].refcnt == 0 && bufs[j].refcnt == 0;
      assert bufs'[i].refcnt == 0 && bufs'[j].refcnt == 0;
    }
  }

  lemma SameCountsTwice(a: seq<Buf>, b: seq<Buf>, c: seq<Buf>)
    requires SameCounts(a, b) && SameCounts(b, c)
    ensures SameCounts(a, c)
  {
  }

  class RedoLog {
    const c: Bcache
    const l: Layout
    var n: nat                  // log.lh.n
    var block: seq<Word32>      // log.lh.block[LOGBLOCKS]
    const maxOp: nat            // MAXOPBLOCKS
    var outstanding: nat
    var committing: bool
    ghost var ops: seq<Option<nat>>

    constructor (cache: Bcache, layout: Layout, max: nat, ghost nproc: nat)
      requires Fits(layout)
      ensures c == cache && l == layout && maxOp == max && Shaped() && n == 0
      ensures !committing && outstanding == 0 && |ops| == nproc && forall p :: 0 <= p < nproc ==> ops[p].None?
    {
      c, l, maxOp := cache, layout, max;
      n, block := 0, seq(layout.cap, _ => 0);
      outstanding, committing, ops := 0, false, seq(nproc, _ => None);
    }

    ghost function Abs(): P.State
      requires n <= |block|
      reads this
    {
      P.State(block[..n], outstanding, committing, ops)
    }

    ghost function Lim(): P.Limits {
      P.Limits(l.cap, maxOp)
    }

    // What the log keeps between commits, in every interleaving of operations.
    ghost predicate Sound()
      reads this, c
    {
      && c.Valid() && Shaped() && P.Inv(Lim(), Abs())
      && WellFormed(l, c.disk) && Count(l, c.disk) == 0
      && c.pins == multiset(LoggedIds(l, block[..n]))
      && forall k :: 0 <= k < n ==> Id(l.dev, block[k]) in c.disk && Home(l, Id(l.dev, block[k]))
    }

    ghost predicate Shaped()
      reads this
    {
      Fits(l) && |block| == l.cap && n <= l.cap
    }

    // Nobody holds a block that commit or recovery is about to touch.
    ghost predicate Idle()
      reads this, c
    {
      && (forall id :: !Home(l, id) ==> Unlocked(c.bufs, id))
      && (n <= |block| ==> forall k :: 0 <= k < n ==> Unlocked(c.bufs, Id(l.dev, block[k])))
    }

    ghost predicate Pending()
      reads this, c
    {
      && c.Valid() && Shaped() && Idle()
      && LogRegionClean(l, c.disk, c.latest)
      && Loggable(l, c.disk, c.latest, block[..n])
    }

    // write_log has copied the first `tail` of `blocks`; `was` are the buffers it started from.
    ghost predicate Logging(d: Disk, view: Disk, blocks: seq<Word32>, was: seq<Buf>, tail: nat)
      requires Loggable(l, d, view, blocks)
      reads this, c
    {
      && tail <= |blocks| && c.Valid() && Fits(l)
      && c.disk == Copied(l, d, view, blocks, tail)
      && SameHomes(l, view, c.latest) && LogRegionClean(l, c.disk, c.latest)
      && c.pins == multiset(LoggedIds(l, blocks))
      && LocksKept(was, c.bufs) && SameCounts(was, c.bufs)
      && (forall id :: !Home(l, id) ==> Unlocked(was, id))
      && (forall k :: 0 <= k < |blocks| ==> Unlocked(was, Id(l.dev, blocks[k])))
    }

    lemma LogStepReady(d: Disk, view: Disk, blocks: seq<Word32>, was: seq<Buf>, tail: nat)
      requires Loggable(l, d, view, blocks) && Logging(d, view, blocks, was, tail) && tail < |blocks|
      ensures var dst, src := SlotId(l, tail), Id(l.dev, blocks[tail]);
        && dst in c.disk && src in c.disk && src in view && dst != src && l.dev != 0 && !Home(l, dst)
        && Unlocked(c.bufs, dst) && Unlocked(c.bufs, src) && src in c.pins
        && (Spare(was) ==> Spare(c.bufs))
        && c.latest[src] == view[src]
        && Copied(l, d, view, blocks, tail + 1) == c.disk[dst := view[src]]
        && SameHomes(l, view, c.latest[dst := view[src]])
        && LogRegionClean(l, c.disk[dst := view[src]], c.latest[dst := view[src]])
    {
      var dst, src := SlotId(l, tail), Id(l.dev, blocks[tail]);
      assert dst in d && src in d;
      CopyKeepsHomes(l, d, view, blocks, tail);
      assert LoggedIds(l, blocks)[tail] == src;
      StaysUnlocked(was, c.bufs, dst);
      StaysUnlocked(was, c.bufs, src);
      if Spare(was) {
        StaysSpare(was, c.bufs);
      }
      SlotUpdate(l, view, c.disk, c.latest, dst, view[src]);
    }

    method WriteLogStep(me: nat, tail: nat, ghost d: Disk, ghost view: Disk, ghost blocks: seq<Word32>,
                        ghost was: seq<Buf>)
      returns (ok: bool)
      requires Loggable(l, d, view, blocks) && Logging(d, view, blocks, was, tail)
      requires tail < |blocks| && tail < |block| && block[tail] == blocks[tail]
      modifies c
      ensures c.Valid()
      ensures !ok ==> c.trace == old(c.trace)
      ensures ok ==>
        Logging(d, view, blocks, was, tail + 1) && c.trace == old(c.trace) + [Copied(l, d, view, blocks, tail + 1)]
      ensures Spare(was) ==> ok
      ensures Full(l, old(c.bufs)) ==> !ok
    {
      hide Inv, Stepped, Coherent, Linked, Recency, Loggable, SameHomes, LogRegionClean, LocksKept, SameCounts;
      hide Unlocked, Spare, Copied;
      LogStepReady(d, view, blocks, was, tail);
      ghost var bufs := c.bufs;
      ok := CopyToLog(c, me, SlotId(l, tail), Id(l.dev, block[tail]));
      if ok {
        LocksKeptTwice(was, bufs, c.bufs);
        SameCountsTwice(was, bufs, c.bufs);
      }
    }

    lemma LoggingStarts()
      requires Pending() && c.pins == multiset(LoggedIds(l, block[..n]))
      ensures Logging(c.disk, c.latest, block[..n], c.bufs, 0)
    {
    }

    // write_log
    method WriteLog(me: nat) returns (ok: bool)
      requires Pending() && c.pins == multiset(LoggedIds(l, block[..n]))
      modifies c
      ensures c.Valid()
      ensures c.trace <= old(c.trace) + CopyStates(l, old(c.disk), old(c.latest), block[..n])
      ensures ok ==> c.trace == old(c.trace) + CopyStates(l, old(c.disk), old(c.latest), block[..n])
      ensures ok ==> Logging(old(c.disk), old(c.latest), block[..n], old(c.bufs), n)
      ensures Spare(old(c.bufs)) ==> ok
      ensures n > 0 && Full(l, old(c.bufs)) ==> !ok
    {
      hide Inv, Stepped, Coherent, Linked, Recency, WellFormed, Loggable, Logging, CopyStates, Copied, LoggedIds;
      hide SameHomes, LogRegionClean;
      ghost var d, view, blocks := c.disk, c.latest, block[..n];
      LoggingStarts();
      CopyStatesGrow(l, d, view, blocks, n);
      var tail := 0;
      while tail < n
        invariant 0 <= tail <= n == |blocks| <= |block| && blocks == block[..n]
        invariant c.Valid() && Loggable(l, d, view, blocks) && Logging(d, view, blocks, old(c.bufs), tail)
        invariant c.trace == old(c.trace) + CopyStates(l, d, view, blocks)[..tail]
        invariant if tail == 0 then c.bufs == old(c.bufs) else !Full(l, old(c.bufs))
      {
        CopyStatesGrow(l, d, view, blocks, tail);
        var done := WriteLogStep(me, tail, d, view, blocks, old(c.bufs));
        if !done {
          return false;
        }
        tail := tail + 1;
      }
      ok := true;
    }

    // The header fields that write_head sets; the rest of the block is kept.
    method FillHeader(was: Block) returns (data: Block)
      requires Shaped()
      ensures data == HeaderBlock(was, block[..n], n)
    {
      data := SetWord(was, 0, n);
      var i := 0;
      while i < n
        invariant 0 <= i <= n && data == HeaderBlock(was, block[..n], i)
      {
        data := SetWord(data, i + 1, block[i]);
        i := i + 1;
      }
    }

    // write_head
    method WriteHead(me: nat) returns (ok: bool)
      requires c.Valid() && Shaped() && HeaderId(l) in c.disk && Unlocked(c.bufs, HeaderId(l))
      requires c.latest[HeaderId(l)] == c.disk[HeaderId(l)]
      modifies c
      ensures c.Valid()
      ensures !ok ==> c.trace == old(c.trace)
      ensures ok ==>
        var v := HeaderBlock(old(c.disk)[HeaderId(l)], block[..n], n);
        && c.disk == old(c.disk)[HeaderId(l) := v] && c.latest == old(c.latest)[HeaderId(l) := v]
        && c.trace == old(c.trace) + [c.disk] && c.pins == old(c.pins)
        && LocksKept(old(c.bufs), c.bufs) && SameCounts(old(c.bufs), c.bufs)
      ensures Spare(old(c.bufs)) ==> ok
    {
      hide Inv, Stepped, Coherent, Linked, Recency;
      var b, _ := c.Bread(me, HeaderId(l));
      if b.NoBuffers? {
        return false;
      }
      var data := FillHeader(c.bufs[b.b].data);
      PutAndRelease(c, me, b.b, data);
      ok := true;
    }

    // read_head
    method ReadHead(me: nat) returns (ok: bool)
      requires c.Valid() && Shaped() && WellFormed(l, c.disk) && Unlocked(c.bufs, HeaderId(l))
      requires c.latest[HeaderId(l)] == c.disk[HeaderId(l)]
      modifies this, c
      ensures c.Valid() && c.disk == old(c.disk) && c.latest == old(c.latest) && c.trace == old(c.trace)
      ensures c.pins == old(c.pins)
      ensures ok ==>
        && Shaped() && n == Count(l, c.disk) && (forall k :: 0 <= k < n ==> Id(l.dev, block[k]) == Target(l, c.disk, k))
        && LocksKept(old(c.bufs), c.bufs) && SameCounts(old(c.bufs), c.bufs)
      ensures Spare(old(c.bufs)) ==> ok
    {
      hide Inv, Stepped, Coherent, Linked, Recency;
      var b, _ := c.Bread(me, HeaderId(l));
      if b.NoBuffers? {
        return false;
      }
      var data := c.bufs[b.b].data;
      n := Word(data, 0);
      var i := 0;
      while i < n
        invariant 0 <= i <= n == Word(data, 0) <= l.cap == |block|
        invariant forall k :: 0 <= k < i ==> block[k] == Word(data, k + 1)
        modifies this`block
      {
        block := block[i := Word(data, i + 1)];
        i := i + 1;
      }
      ok := c.Brelse(b.b, me);
    }

    // install_trans has copied the first `tail` logged blocks of device state `h` home.
    ghost predicate Installing(h: Disk, view: Disk, was: seq<Buf>, recovering: bool, tail: nat)
      requires WellFormed(l, h)
      reads this, c
    {
      && c.Valid() && Shaped() && tail <= n == Count(l, h)
      && (forall k :: 0 <= k < n ==> Id(l.dev, block[k]) == Target(l, h, k))
      && c.disk == Installed(l, h, tail)
      && Tracks(l, view, c.disk, c.latest) && LogRegionClean(l, c.disk, c.latest)
      && c.pins == (if recovering then multiset{} else multiset(LoggedIds(l, block[..n])[tail..]))
      && LocksKept(was, c.bufs) && NoHigherCounts(was, c.bufs)
      && (forall id :: !Home(l, id) ==> Unlocked(was, id))
      && (forall k :: 0 <= k < n ==> Unlocked(was, Id(l.dev, block[k])))
    }

    lemma InstallStepBlocks(h: Disk, view: Disk, was: seq<Buf>, recovering: bool, tail: nat)
      requires WellFormed(l, h) && Installing(h, view, was, recovering, tail) && tail < n
      ensures var src, dst := SlotId(l, tail), Id(l.dev, block[tail]);
        && src in c.disk && dst in c.disk && src in h && src != dst && l.dev != 0 && Home(l, dst)
        && c.latest[src] == h[src]
        && Installed(l, h, tail + 1) == c.disk[dst := h[src]]
        && Tracks(l, view, c.disk[dst := h[src]], c.latest[dst := h[src]])
        && LogRegionClean(l, c.disk[dst := h[src]], c.latest[dst := h[src]])
    {
      var src, dst := SlotId(l, tail), Id(l.dev, block[tail]);
      assert dst == Target(l, h, tail);
      assert src in h && !Home(l, src);
      InstallKeepsLog(l, h, tail);
      hide WellFormed;
      HomeUpdate(l, view, c.disk, c.latest, dst, h[src]);
    }

    lemma InstallStepBuffers(h: Disk, view: Disk, was: seq<Buf>, recovering: bool, tail: nat)
      requires WellFormed(l, h) && Installing(h, view, was, recovering, tail) && tail < n
      ensures var src, dst := SlotId(l, tail), Id(l.dev, block[tail]);
        && Unlocked(c.bufs, src) && Unlocked(c.bufs, dst)
        && (!recovering ==> dst in c.pins && c.pins - multiset{dst} == multiset(LoggedIds(l, block[..n])[tail + 1..]))
        && (Spare(was) ==> Spare(c.bufs)) && (TwoSpare(was) ==> TwoSpare(c.bufs))
    {
      hide WellFormed, Installed, Tracks, LogRegionClean, Coherent, Linked, Recency, Inv;
      var src, dst := SlotId(l, tail), Id(l.dev, block[tail]);
      var ids := LoggedIds(l, block[..n]);
      assert ids[tail] == dst && ids[tail..] == [dst] + ids[tail + 1..];
      StaysUnlocked(was, c.bufs, dst);
      StaysUnlocked(was, c.bufs, src);
      StaysSpareLower(was, c.bufs);
    }

    method InstallStep(me: nat, recovering: bool, tail: nat, ghost h: Disk, ghost view: Disk, ghost was: seq<Buf>)
      returns (ok: bool)
      requires WellFormed(l, h) && Installing(h, view, was, recovering, tail) && tail < n <= |block|
      modifies c
      ensures c.Valid()
      ensures !ok ==> c.trace == old(c.trace)
      ensures ok ==>
        Installing(h, view, was, recovering, tail + 1) && c.trace == old(c.trace) + [Installed(l, h, tail + 1)]
      ensures Spare(was) && (!recovering || TwoSpare(was)) ==> ok
    {
      hide Inv, Stepped, Coherent, Linked, Recency, WellFormed, LoggedIds, Tracks, LogRegionClean, LocksKept;
      hide NoHigherCounts, Unlocked, Spare, TwoSpare, Installed;
      InstallStepBlocks(h, view, was, recovering, tail);
      InstallStepBuffers(h, view, was, recovering, tail);
      ghost var bufs := c.bufs;
      ok := CopyHome(c, me, SlotId(l, tail), Id(l.dev, block[tail]), recovering);
      if ok {
        LocksKeptTwice(was, bufs, c.bufs);
        NoHigherTwice(was, bufs, c.bufs);
      }
    }

    lemma InstallingBasics(h: Disk, view: Disk, was: seq<Buf>, recovering: bool, tail: nat)
      requires WellFormed(l, h) && Installing(h, view, was, recovering, tail)
      ensures c.Valid() && n <= |block| && HeaderId(l) in h && n == Count(l, h)
    {
    }

    // install_trans
    method InstallTrans(me: nat, recovering: bool, ghost h: Disk, ghost view: Disk,
                        ghost was: seq<Buf>) returns (ok: bool)
      requires WellFormed(l, h) && Installing(h, view, was, recovering, 0)
      modifies c
      ensures c.Valid()
      ensures c.trace <= old(c.trace) + InstallStates(l, h)
      ensures ok ==> c.trace == old(c.trace) + InstallStates(l, h) && Installing(h, view, was, recovering, n)
      ensures Spare(was) && (!recovering || TwoSpare(was)) ==> ok
    {
      hide Inv, Stepped, Coherent, Linked, Recency, WellFormed, Installing, Installed, InstallStates, Spare, TwoSpare;
      InstallingBasics(h, view, was, recovering, 0);
      var tail := 0;
      InstallStatesGrow(l, h, n);
      while tail < n
        invariant 0 <= tail <= n <= |block| && HeaderId(l) in h && n == Count(l, h) && c.Valid()
        invariant WellFormed(l, h) && Installing(h, view, was, recovering, tail)
        invariant c.trace == old(c.trace) + InstallStates(l, h)[..tail]
      {
        InstallStatesGrow(l, h, tail);
        var done := InstallStep(me, recovering, tail, h, view, was);
        if !done {
          return false;
        }
        tail := tail + 1;
      }
      ok := true;
    }

    // What commit leaves behind: the new file system on the device, an empty
    // log, and nothing pending in the cache.
    ghost predicate Settled(view: Disk)
      reads this, c
    {
      && c.Valid() && Shaped() && n == 0 && c.pins == multiset{}
      && WellFormed(l, c.disk) && Count(l, c.disk) == 0
      && Homes(l, c.disk) == Homes(l, c.latest) == Homes(l, view)
    }

    lemma HeaderReady(d: Disk, view: Disk, blocks: seq<Word32>, was: seq<Buf>)
      requires Loggable(l, d, view, blocks) && Logging(d, view, blocks, was, |blocks|)
      ensures HeaderId(l) in c.disk && HeaderId(l) in c.latest && Unlocked(c.bufs, HeaderId(l))
      ensures c.latest[HeaderId(l)] == c.disk[HeaderId(l)] && (Spare(was) ==> Spare(c.bufs))
      ensures |blocks| < 255 && HeaderId(l) in d && c.disk[HeaderId(l)] == d[HeaderId(l)]
      ensures c.disk[HeaderId(l) := HeaderBlock(c.disk[HeaderId(l)], blocks, |blocks|)] ==
        CommitPoint(l, d, view, blocks)
    {
      CopyKeepsHomes(l, d, view, blocks, |blocks|);
      assert !Home(l, HeaderId(l)) && HeaderId(l) in d;
      hide Inv, Stepped, Coherent, Linked, Recency, WellFormed, Spare;
      StaysUnlocked(was, c.bufs, HeaderId(l));
      if Spare(was) {
        StaysSpare(was, c.bufs);
      }
    }

    // The blocks side of `Installing` right after the header write.
    lemma HeaderWritten(d: Disk, view: Disk, blocks: seq<Word32>, disk: Disk, latest: Disk, v: Block)
      requires Loggable(l, d, view, blocks) && disk == Copied(l, d, view, blocks, |blocks|)
      requires SameHomes(l, view, latest) && LogRegionClean(l, disk, latest)
      requires v == HeaderBlock(d[HeaderId(l)], blocks, |blocks|)
      ensures var h := CommitPoint(l, d, view, blocks);
        && WellFormed(l, h) && Count(l, h) == |blocks|
        && (forall k :: 0 <= k < |blocks| ==> Id(l.dev, blocks[k]) == Target(l, h, k))
        && Installed(l, h, 0) == h == disk[HeaderId(l) := v]
        && Tracks(l, view, h, latest[HeaderId(l) := v]) && LogRegionClean(l, h, latest[HeaderId(l) := v])
    {
      CopyKeepsHomes(l, d, view, blocks, |blocks|);
      CommitPointWellFormed(l, d, view, blocks);
      assert !Home(l, HeaderId(l));
      assert CommitPoint(l, d, view, blocks) == disk[HeaderId(l) := v];
      hide WellFormed, Loggable, CommitPoint, HeaderBlock;
      HeaderUpdate(l, view, disk, latest, v);
    }

    // The first write_head of commit.
    method CommitHeader(me: nat, ghost d: Disk, ghost view: Disk, ghost blocks: seq<Word32>, ghost was: seq<Buf>)
      returns (ok: bool)
      requires Loggable(l, d, view, blocks) && Logging(d, view, blocks, was, |blocks|)
      requires Shaped() && n == |blocks| && block[..n] == blocks
      modifies c
      ensures c.Valid()
      ensures !ok ==> c.trace == old(c.trace)
      ensures WellFormed(l, CommitPoint(l, d, view, blocks))
      ensures ok ==> Installing(CommitPoint(l, d, view, blocks), view, was, false, 0)
      ensures ok ==> c.trace == old(c.trace) + [CommitPoint(l, d, view, blocks)]
      ensures Spare(was) ==> ok
    {
      hide Inv, Stepped, Coherent, Linked, Recency, WellFormed, Loggable, SameHomes, LogRegionClean, LocksKept;
      hide SameCounts, NoHigherCounts, Unlocked, Spare, Copied, LoggedIds, Tracks, HeaderBlock, CommitPoint, Installed;
      HeaderReady(d, view, blocks, was);
      HeaderWritten(d, view, blocks, c.disk, c.latest, HeaderBlock(c.disk[HeaderId(l)], blocks, |blocks|));
      ghost var bufs := c.bufs;
      ok := WriteHead(me);
      if ok {
        LocksKeptTwice(was, bufs, c.bufs);
        SameCountsTwice(was, bufs, c.bufs);
        SameIsNoHigher(was, c.bufs);
        assert LoggedIds(l, blocks)[0..] == LoggedIds(l, blocks);
      }
    }

    lemma EraseReady(h: Disk, view: Disk, was: seq<Buf>, recovering: bool)
      requires WellFormed(l, h) && Installing(h, view, was, recovering, n)
      ensures HeaderId(l) in c.disk && HeaderId(l) in c.latest && Unlocked(c.bufs, HeaderId(l))
      ensures c.latest[HeaderId(l)] == c.disk[HeaderId(l)] && (Spare(was) ==> Spare(c.bufs))
      ensures c.disk[HeaderId(l) := HeaderBlock(c.disk[HeaderId(l)], [], 0)] == Finished(l, h)
      ensures c.pins == multiset{}
    {
      InstallKeepsLog(l, h, n);
      assert !Home(l, HeaderId(l));
      StaysUnlocked(was, c.bufs, HeaderId(l));
      StaysSpareLower(was, c.bufs);
      if !recovering {
        assert LoggedIds(l, block[..n])[n..] == [];
      }
    }

    lemma HomesSettle(h: Disk, view: Disk, disk: Disk, latest: Disk, v: Block)
      requires WellFormed(l, h) && Outcome(l, h) == Homes(l, view) && disk == Installed(l, h, Count(l, h))
      requires Tracks(l, view, disk, latest)
      ensures Homes(l, Finished(l, h)) == Homes(l, latest[HeaderId(l) := v]) == Homes(l, view)
      ensures WellFormed(l, Finished(l, h)) && Count(l, Finished(l, h)) == 0
    {
      FinishedOutcome(l, h);
      InstallKeepsLog(l, h, Count(l, h));
      hide WellFormed, Finished, Outcome, Installed;
      assert !Home(l, HeaderId(l));
      forall id | id in disk && Home(l, id) ensures latest[id] == view[id] {
        assert Homes(l, disk)[id] == Homes(l, view)[id];
      }
      assert Homes(l, latest[HeaderId(l) := v]) == Homes(l, view);
    }

    // The final write_head, with log.lh.n back at 0.
    method EraseHeader(me: nat, recovering: bool, ghost h: Disk, ghost view: Disk,
                       ghost was: seq<Buf>) returns (ok: bool)
      requires WellFormed(l, h) && Installing(h, view, was, recovering, n) && Outcome(l, h) == Homes(l, view)
      modifies this`n, c
      ensures !ok ==> c.trace == old(c.trace)
      ensures ok ==> c.trace == old(c.trace) + [Finished(l, h)] && c.disk == Finished(l, h) && Settled(view)
      ensures Spare(was) ==> ok
    {
      hide Inv, Stepped, Coherent, Linked, Recency, WellFormed, LogRegionClean, LocksKept, NoHigherCounts, Unlocked;
      hide Spare, LoggedIds, Tracks, HeaderBlock, Installed, Finished, Outcome, Homes;
      EraseReady(h, view, was, recovering);
      HomesSettle(h, view, c.disk, c.latest, HeaderBlock(c.disk[HeaderId(l)], [], 0));
      n := 0;
      assert block[..n] == [];
      ok := WriteHead(me);
    }

    // commit. The device goes through exactly the states of CommitStates; a
    // false result is a panic that stops it after some of them.
    method Commit(me: nat) returns (ok: bool)
      requires Pending() && c.pins == multiset(LoggedIds(l, block[..n]))
      modifies this`n, c
      ensures old(n) == 0 ==> ok && c.trace == old(c.trace) && c.disk == old(c.disk)
      ensures old(n) > 0 ==>
        c.trace <= old(c.trace) + CommitStates(l, old(c.disk), old(c.latest), old(block[..n]))
      ensures old(n) > 0 && ok ==>
        c.trace == old(c.trace) + CommitStates(l, old(c.disk), old(c.latest), old(block[..n]))
      ensures ok ==> Settled(old(c.latest))
      ensures Spare(old(c.bufs)) ==> ok
      ensures old(n) > 0 && Full(l, old(c.bufs)) ==> !ok
    {
      hide Inv, Stepped, Coherent, Linked, Recency, WellFormed, Loggable, Logging, Installing, CopyStates;
      hide InstallStates, CommitStates, CommitPoint, Finished, Outcome, Homes, Copied, LoggedIds, LogRegionClean;
      hide Unlocked, Spare, TwoSpare;
      if n == 0 {
        NothingToCommit();
        return true;
      }
      ghost var d, view, blocks, was := c.disk, c.latest, block[..n], c.bufs;
      ghost var h := CommitPoint(l, d, view, blocks);
      AfterCommitPoint(l, d, view, blocks);
      CommitStatesParts(l, d, view, blocks);
      ok := WriteLog(me);
      if !ok {
        return;
      }
      ok := CommitHeader(me, d, view, blocks, was);
      if !ok {
        return;
      }
      ok := InstallTrans(me, false, h, view, was);
      if !ok {
        return;
      }
      ok := EraseHeader(me, false, h, view, was);
    }

    lemma NothingToCommit()
      requires Pending() && n == 0 && c.pins == multiset(LoggedIds(l, block[..n]))
      ensures Settled(c.latest)
    {
      assert block[..n] == [] && LoggedIds(l, block[..n]) == [];
    }

    // recover_from_log on a cold cache: the device goes through exactly the
    // states of RecoveryStates, whatever state the crash left it in.
    method RecoverFromLog(me: nat) returns (ok: bool)
      requires c.Valid() && Shaped() && WellFormed(l, c.disk) && c.latest == c.disk && c.pins == multiset{}
      requires forall i :: 0 <= i < c.n ==> c.bufs[i].owner.None?
      modifies this, c
      ensures c.trace <= old(c.trace) + RecoveryStates(l, old(c.disk))
      ensures ok ==> c.trace == old(c.trace) + RecoveryStates(l, old(c.disk)) && c.disk == Finished(l, old(c.disk))
      ensures ok ==> Settled(Installed(l, old(c.disk), Count(l, old(c.disk))))
      ensures TwoSpare(old(c.bufs)) ==> ok
    {
      ghost var h, was := c.disk, c.bufs;
      hide Stepped, Inv, Linked, Recency;
      ok := ReadHead(me);
      if !ok {
        return;
      }
      ghost var view := Installed(l, h, Count(l, h));
      InstallingStarts(h, was);
      hide Coherent, WellFormed, Installing, Installed, InstallStates, Finished, Outcome, Homes, Spare, TwoSpare;
      ok := Redo(me, h, view, was);
    }

    // The rest of recover_from_log: install_trans, then an empty header.
    method Redo(me: nat, ghost h: Disk, ghost view: Disk, ghost was: seq<Buf>) returns (ok: bool)
      requires WellFormed(l, h) && Installing(h, view, was, true, 0) && Outcome(l, h) == Homes(l, view)
      modifies this`n, c
      ensures c.trace <= old(c.trace) + InstallStates(l, h) + [Finished(l, h)]
      ensures ok ==> c.trace == old(c.trace) + InstallStates(l, h) + [Finished(l, h)]
      ensures ok ==> c.disk == Finished(l, h) && Settled(view)
      ensures TwoSpare(was) ==> ok
    {
      hide Inv, Stepped, Coherent, Linked, Recency, WellFormed, Installing, Installed, InstallStates, Finished, Outcome;
      hide Homes, Spare;
      if TwoSpare(was) {
        TwoIsSpare(was);
      }
      ok := InstallTrans(me, true, h, view, was);
      if !ok {
        return;
      }
      ok := EraseHeader(me, true, h, view, was);
    }

    lemma InstallingStarts(h: Disk, was: seq<Buf>)
      requires c.Valid() && Shaped() && WellFormed(l, h) && c.disk == c.latest == h && c.pins == multiset{}
      requires n == Count(l, h) && forall k :: 0 <= k < n ==> Id(l.dev, block[k]) == Target(l, h, k)
      requires LocksKept(was, c.bufs) && SameCounts(was, c.bufs) && forall i :: 0 <= i < |was| ==> was[i].owner.None?
      ensures Installing(h, Installed(l, h, Count(l, h)), was, true, 0)
      ensures Outcome(l, h) == Homes(l, Installed(l, h, Count(l, h)))
    {
      InstallKeepsLog(l, h, Count(l, h));
    }

    // With no other user of the cache, commit finds a spare buffer exactly when
    // fewer blocks are logged than there are buffers. LOGBLOCKS == NBUF in
    // kernel/param.h, so a completely full log cannot be committed.
    lemma CommitNeedsFewerThanNbuf()
      requires Sound() && forall i :: 0 <= i < c.n ==> c.Refs()[i] == 0
      ensures Spare(c.bufs) <==> n < c.n
      ensures n >= c.n ==> Full(l, c.bufs)
    {
      forall i, j | 0 <= i < j < n ensures block[..n][i] != block[..n][j] {}
      hide Inv, Stepped, Coherent, Linked, Recency, LoggedIds, WellFormed;
      SpareIffFewer(l, c.bufs, c.disk, c.latest, c.Refs(), c.pins, block[..n]);
    }

    // begin_op: one pass through its loop; false means it goes to sleep.
    method BeginOp(ghost p: nat) returns (admitted: bool)
      requires Sound() && p < |ops| && ops[p].None?
      modifies this
      ensures Sound() && admitted == P.Admits(Lim(), old(Abs()))
      ensures admitted ==> Abs() == P.Apply(Lim(), old(Abs()), P.Begin(p))
      ensures !admitted ==> Abs() == old(Abs())
    {
      hide Inv, Stepped, Coherent, Linked, Recency, WellFormed, LoggedIds;
      if committing {
        return false;
      } else if n + (outstanding + 1) * maxOp > l.cap {
        return false;
      }
      P.StepKeepsInv(Lim(), Abs(), P.Begin(p));
      outstanding := outstanding + 1;
      ops := ops[p := Some(0)];
      admitted := true;
    }

    // The search of log_write: the first slot holding the block, or n.
    method FindSlot(b: Word32) returns (i: nat)
      requires Shaped()
      ensures i <= n && (i < n ==> block[i] == b) && (i == n <==> b !in block[..n])
    {
      i := 0;
      while i < n && block[i] != b
        invariant i <= n && forall k :: 0 <= k < i ==> block[k] != b
      {
        i := i + 1;
      }
    }

    // log_write by process `me`, which holds buffer b; false is a panic.
    method LogWrite(b: nat, me: nat) returns (ok: bool)
      requires Sound() && b < c.n && c.bufs[b].owner == Some(me) && c.bufs[b].valid
      requires c.bufs[b].id.dev == l.dev && c.bufs[b].id.bno < 0x1_0000_0000 && Home(l, c.bufs[b].id)
      // an operation adds at most MAXOPBLOCKS blocks
      requires me < |ops|
      requires (outstanding > 0 ==> ops[me].Some? && (c.bufs[b].id.bno in block[..n] || ops[me].value < maxOp))
      modifies this, c`bufs, c`pins
      ensures Sound()
      ensures ok <==> old(n) < l.cap && old(outstanding) >= 1
      ensures !ok ==> Abs() == old(Abs()) && c.bufs == old(c.bufs)
      ensures ok ==> P.Enabled(Lim(), old(Abs()), P.Write(me, old(c.bufs)[b].id.bno))
      ensures ok ==> Abs() == P.Apply(Lim(), old(Abs()), P.Write(me, old(c.bufs)[b].id.bno))
      ensures ok ==> c.bufs[b].id == old(c.bufs)[b].id && c.bufs[b].id in c.pins
      ensures ok ==>
        c.bufs == old(c.bufs)[b := c.bufs[b]] && c.bufs[b].owner == Some(me) && c.bufs[b].data == old(c.bufs)[b].data
    {
      hide Inv, Stepped, Coherent, Linked, Recency, WellFormed, LoggedIds, P.Inv;
      if n >= l.cap {
        return false;
      }
      if outstanding < 1 {
        return false;
      }
      var bno: Word32 := c.bufs[b].id.bno;
      P.StepKeepsInv(Lim(), Abs(), P.Write(me, bno));
      var i := FindSlot(bno);
      LoggedAfter(b, i);
      block := block[i := bno];
      if i == n {
        c.Bpin(b);
        n := n + 1;
        ops := ops[me := Some(ops[me].value + 1)];
      }
      ok := true;
    }

    lemma LoggedAfter(b: nat, i: nat)
      requires Sound() && n < l.cap && b < c.n && c.bufs[b].valid && c.bufs[b].id.dev == l.dev
      requires c.bufs[b].id.bno < 0x1_0000_0000
      requires i <= n && (i < n ==> block[i] == c.bufs[b].id.bno)
      ensures var id := c.bufs[b].id; var block' := block[i := id.bno];
        && id in c.disk
        && (i < n ==> block' == block && id in multiset(LoggedIds(l, block[..n])))
        && (i == n ==>
              && block'[..n + 1] == block[..n] + [id.bno]
              && multiset(LoggedIds(l, block'[..n + 1])) == c.pins + multiset{id})
    {
      var id := c.bufs[b].id;
      assert BufOk(c.bufs[b], c.Refs()[b], c.disk, c.latest, c.pins);
      hide Inv, Stepped, Coherent, Linked, Recency, WellFormed, LoggedIds, P.Inv;
      if i < n {
        LoggedHere(l, block[..n], i);
        assert block[i := id.bno] == block;
      } else {
        assert block[i := id.bno][..n + 1] == block[..n] + [id.bno];
        LoggedMore(l, block[..n], id.bno);
      }
    }

    // end_op up to its first release: true means this process must commit.
    method EndOp(ghost p: nat) returns (doCommit: bool)
      requires Sound() && p < |ops| && ops[p].Some?
      modifies this
      ensures Sound() && P.Enabled(Lim(), old(Abs()), P.End(p))
      ensures Abs() == P.Apply(Lim(), old(Abs()), P.End(p)) && doCommit == committing
      ensures doCommit <==> old(outstanding) == 1
    {
      hide Inv, Stepped, Coherent, Linked, Recency, WellFormed, LoggedIds, P.Inv;
      P.AppendFindsRoom(Lim(), Abs(), p, 0);
      P.StepKeepsInv(Lim(), Abs(), P.End(p));
      outstanding := outstanding - 1;
      ops := ops[p := None];
      if outstanding == 0 {
        committing := true;
      }
      doCommit := committing;
    }

    // Once the operations have ended, whoever still holds a buffer is only
    // reading it. If none of these is the log's or is about to be written,
    // exactly the logged blocks are pending, which is what commit needs.
    lemma ReadyToCommit()
      requires Sound() && Idle() && Settling()
      ensures Pending()
    {
      forall id | id in c.disk && c.disk[id] != c.latest[id]
        ensures id.dev == l.dev && id.bno in block[..n] && Home(l, id)
      {
        ChangedIsLogged(id);
      }
    }

    lemma ChangedIsLogged(id: Id)
      requires Sound() && Settling()
      requires id in c.disk && id in c.latest
      ensures c.disk[id] != c.latest[id] ==> id.dev == l.dev && id.bno in block[..n] && Home(l, id)
    {
      if c.disk[id] != c.latest[id] {
        assert Kept(c.bufs, c.pins, id);
        assert id in c.pins;
        var ids := LoggedIds(l, block[..n]);
        assert id in ids;
        var k :| 0 <= k < n && ids[k] == id;
        assert block[..n][k] == id.bno && block[k] == id.bno;
      }
    }

    // The rest of end_op: commit and reopen the log. The device has gone
    // through CommitStates, and the log is empty and sound again.
    method FinishOp(me: nat) returns (ok: bool)
      requires Sound() && Pending() && committing
      modifies this, c
      ensures old(n) > 0 ==> c.trace <= old(c.trace) + CommitStates(l, old(c.disk), old(c.latest), old(block[..n]))
      ensures ok ==> Sound() && Homes(l, c.disk) == Homes(l, c.latest) == Homes(l, old(c.latest))
      ensures ok ==> Abs() == old(Abs()).(blocks := [], committing := false)
      ensures Spare(old(c.bufs)) ==> ok
      ensures old(n) > 0 && Full(l, old(c.bufs)) ==> !ok
    {
      hide Inv, Stepped, Coherent, Linked, Recency, WellFormed, Loggable, CommitStates, Spare, P.Inv, Homes;
      hide LogRegionClean, Unlocked;
      P.StepKeepsInv(Lim(), Abs(), P.Committed);
      ok := Commit(me);
      if ok {
        assert block[..n] == [] && LoggedIds(l, block[..n]) == [];
        committing := false;
      }
    }

    // end_op as a whole. If this was the last operation, its process commits,
    // and then the device's home blocks are what was last stored.
    method EndOpAndCommit(me: nat) returns (ok: bool)
      requires Sound() && me < |ops| && ops[me].Some? && Idle() && Settling()
      modifies this, c
      ensures old(outstanding) > 1 ==> ok && Sound() && outstanding == old(outstanding) - 1 && c.trace == old(c.trace)
      ensures ok && old(outstanding) == 1 ==>
        && Sound() && outstanding == 0 && !committing && n == 0
        && Homes(l, c.disk) == Homes(l, c.latest) == Homes(l, old(c.latest))
      ensures Spare(old(c.bufs)) ==> ok
    {
      hide Inv, Stepped, Coherent, Linked, Recency, WellFormed, LoggedIds, P.Inv, Homes, Spare;
      var doCommit := EndOp(me);
      ok := true;
      if doCommit {
        ReadyToCommit();
        ok := FinishOp(me);
      }
    }

    // Whoever holds a buffer has logged or written what it changed.
    ghost predicate Settling()
      reads this, c
    {
      forall i :: 0 <= i < c.n && i < |c.bufs| && c.bufs[i].owner.Some? ==> Saved(c.View(), c.bufs[i].id)
    }

    // While no operation runs and no commit is under way, the device has the
    // latest contents of every block.
    lemma QuietIsDurable()
      requires Sound() && outstanding == 0 && !committing && Settling()
      ensures n == 0 && c.disk == c.latest
    {
      assert Abs().blocks == [] && |block[..n]| == n;
      assert LoggedIds(l, block[..n]) == [];
      forall id | id in c.disk ensures c.disk[id] == c.latest[id] {
        ChangedIsLogged(id);
      }
    }
  }

  ghost function IdsOf(bufs: seq<Buf>, used: set<nat>): set<Id>
    requires forall i :: i in used ==> i < |bufs|
  {
    set i | i in used :: bufs[i].id
  }

  lemma {:induction false} InjectiveImage(bufs: seq<Buf>, used: set<nat>)
    requires forall i :: i in used ==> i < |bufs|
    requires forall i, j :: i in used && j in used && i != j ==> bufs[i].id != bufs[j].id
    ensures |IdsOf(bufs, used)| == |used|
  {
    if used != {} {
      var i :| i in used;
      InjectiveImage(bufs, used - {i});
      assert IdsOf(bufs, used) == IdsOf(bufs, used - {i}) + {bufs[i].id};
      assert bufs[i].id !in IdsOf(bufs, used - {i});
    }
  }

  lemma {:induction false} DistinctIds(ids: seq<Id>)
    requires forall i, j :: 0 <= i < j < |ids| ==> ids[i] != ids[j]
    ensures |set id | id in ids| == |ids|
  {
    if ids != [] {
      var k := |ids| - 1;
      DistinctIds(ids[..k]);
      assert (set id | id in ids) == (set id | id in ids[..k]) + {ids[k]};
    }
  }

  ghost function Upto(n: nat): (s: set<nat>)
    ensures |s| == n && forall i: nat :: i in s <==> i < n
  {
    if n == 0 then {} else Upto(n - 1) + {n - 1}
  }

  lemma {:induction false} SubsetCard<T>(a: set<T>, b: set<T>)
    requires a <= b
    ensures |a| <= |b|
  {
    assert b == a + (b - a);
  }

  ghost function InUse(bufs: seq<Buf>): set<nat> {
    set i | i in Upto(|bufs|) && bufs[i].refcnt > 0
  }

  lemma SpareIffFewer(l: Layout, bufs: seq<Buf>, disk: Disk, latest: Disk, refs: seq<nat>, pins: multiset<Id>,
                      blocks: seq<Word32>)
    requires Coherent(bufs, disk, latest, refs, pins) && pins == multiset(LoggedIds(l, blocks))
    requires forall i :: 0 <= i < |bufs| ==> refs[i] == 0
    requires forall i, j :: 0 <= i < j < |blocks| ==> blocks[i] != blocks[j]
    requires forall k :: 0 <= k < |blocks| ==> Home(l, Id(l.dev, blocks[k]))
    ensures Spare(bufs) <==> |blocks| < |bufs|
    ensures |blocks| >= |bufs| ==> Full(l, bufs)
  {
    hide Coherent, LoggedIds, IdsOf, InUse;
    var used := InUse(bufs);
    assert used <= Upto(|bufs|) && forall i :: i in Upto(|bufs|) ==> (i in used <==> bufs[i].refcnt > 0) by {
      InUseMembers(bufs);
    }
    UsedAreLogged(l, bufs, disk, latest, refs, pins, blocks);
    InjectiveImage(bufs, used);
    SubsetCard(used, Upto(|bufs|));
    if used == Upto(|bufs|) {
      forall i | 0 <= i < |bufs| ensures bufs[i].refcnt > 0 && Home(l, bufs[i].id) {
        assert i in used;
      }
    } else {
      var i :| i in Upto(|bufs|) && i !in used;
      SubsetCard(used, Upto(|bufs|) - {i});
      assert bufs[i].refcnt == 0;
    }
  }

  lemma InUseMembers(bufs: seq<Buf>)
    ensures InUse(bufs) <= Upto(|bufs|) && forall i :: i in Upto(|bufs|) ==> (i in InUse(bufs) <==> bufs[i].refcnt > 0)
  {
  }

  lemma UsedIsLogged(l: Layout, bufs: seq<Buf>, disk: Disk, latest: Disk, refs: seq<nat>, pins: multiset<Id>,
                     blocks: seq<Word32>, i: nat)
    requires Coherent(bufs, disk, latest, refs, pins) && pins == multiset(LoggedIds(l, blocks))
    requires i < |bufs| && bufs[i].refcnt > 0 && refs[i] == 0
    requires forall k :: 0 <= k < |blocks| ==> Home(l, Id(l.dev, blocks[k]))
    ensures bufs[i].id in LoggedIds(l, blocks) && bufs[i].id.dev != 0 && Home(l, bufs[i].id)
  {
    var ids := LoggedIds(l, blocks);
    assert BufOk(bufs[i], refs[i], disk, latest, pins);
    assert bufs[i].id in ids;
    var k :| 0 <= k < |blocks| && ids[k] == bufs[i].id;
    assert Home(l, Id(l.dev, blocks[k]));
  }

  lemma LoggedIsUsed(bufs: seq<Buf>, disk: Disk, latest: Disk, refs: seq<nat>, pins: multiset<Id>, id: Id)
    requires Coherent(bufs, disk, latest, refs, pins) && id in pins
    ensures id in IdsOf(bufs, InUse(bufs))
  {
    assert Kept(bufs, pins, id);
    var i: nat :| i < |bufs| && bufs[i].id == id;
    assert BufOk(bufs[i], refs[i], disk, latest, pins);
    assert i in InUse(bufs);
  }

  lemma UsedAreLogged(l: Layout, bufs: seq<Buf>, disk: Disk, latest: Disk, refs: seq<nat>, pins: multiset<Id>,
                      blocks: seq<Word32>)
    requires Coherent(bufs, disk, latest, refs, pins) && pins == multiset(LoggedIds(l, blocks))
    requires forall i :: 0 <= i < |bufs| ==> refs[i] == 0
    requires forall i, j :: 0 <= i < j < |blocks| ==> blocks[i] != blocks[j]
    requires forall k :: 0 <= k < |blocks| ==> Home(l, Id(l.dev, blocks[k]))
    ensures |IdsOf(bufs, InUse(bufs))| == |blocks| && forall i :: i in InUse(bufs) ==> Home(l, bufs[i].id)
    ensures forall i, j :: i in InUse(bufs) && j in InUse(bufs) && i != j ==> bufs[i].id != bufs[j].id
  {
    var ids, used := LoggedIds(l, blocks), InUse(bufs);
    assert Distinct(bufs) && |refs| == |bufs|;
    hide Coherent;
    DistinctIds(ids);
    hide LoggedIds, Home;
    InUseMembers(bufs);
    hide InUse;
    forall i | i in used ensures bufs[i].id in ids && bufs[i].id.dev != 0 && Home(l, bufs[i].id) {
      UsedIsLogged(l, bufs, disk, latest, refs, pins, blocks, i);
    }
    forall id | id in ids ensures id in IdsOf(bufs, used) {
      LoggedIsUsed(bufs, disk, latest, refs, pins, id);
    }
    assert IdsOf(bufs, used) == set id | id in ids;
  }

  lemma TwoIsSpare(bufs: seq<Buf>)
    requires TwoSpare(bufs)
    ensures Spare(bufs)
  {
  }

  lemma SameIsNoHigher(bufs: seq<Buf>, bufs': seq<Buf>)
    requires SameCounts(bufs, bufs')
    ensures NoHigherCounts(bufs, bufs')
  {
  }

  lemma StaysSpare(bufs: seq<Buf>, bufs': seq<Buf>)
    requires SameCounts(bufs, bufs') && Spare(bufs)
    ensures Spare(bufs')
  {
    var i :| 0 <= i < |bufs| && bufs[i].refcnt == 0;
    assert bufs'[i].refcnt == 0;
  }
}
