/** commit (kernel/log.c) while other processes go on reading: between any two
    of its steps they may take, wait for, hold and release any buffers, those
    of logged blocks included. Nobody else changes blocks, because no operation
    runs during a commit (LogProtocol.CommitIsIsolated). */
module CommitRuns {
  import opened Blocks
  import opened Cache
  import opened CrashSafety

  // What is committed: device `d`, the cache's view of it, the logged blocks.
  datatype Tx = Tx(l: Layout, d: Disk, view: Disk, blocks: seq<Word32>)

  ghost predicate Ready(x: Tx) {
    && Loggable(x.l, x.d, x.view, x.blocks)
    && forall id :: id in x.d && !Home(x.l, id) ==> x.view[id] == x.d[id]
  }

  // One device write of commit: a block copied by write_log or install_trans,
  // or the header.
  datatype Job = Copy(src: Id, dst: Id, unpin: bool) | Header(list: seq<Word32>)

  // An empty transaction writes nothing, not even the header.
  function Jobs(x: Tx): nat { if x.blocks == [] then 0 else 2 * |x.blocks| + 2 }

  function JobAt(x: Tx, t: nat): Job
    requires t < Jobs(x)
  {
    var n := |x.blocks|;
    if t < n then Copy(Id(x.l.dev, x.blocks[t]), SlotId(x.l, t), false)
    else if t == n then Header(x.blocks)
    else if t <= 2 * n then Copy(SlotId(x.l, t - n - 1), Id(x.l.dev, x.blocks[t - n - 1]), true)
    else Header([])
  }

  function Dst(x: Tx, job: Job): Id { if job.Copy? then job.dst else HeaderId(x.l) }

  // The header block that write_head makes of `b`.
  function Headed(b: Block, list: seq<Word32>): Block {
    if |list| < 255 then HeaderBlock(b, list, |list|) else b
  }

  function At(d: Disk, id: Id): Block { if id in d then d[id] else ZeroBlock() }

  function Value(x: Tx, job: Job, latest: Disk): Block {
    if job.Copy? then At(latest, job.src) else Headed(At(latest, HeaderId(x.l)), job.list)
  }

  // Device and latest contents after t jobs.
  ghost function After(x: Tx, t: nat): (Disk, Disk)
    requires t <= Jobs(x)
  {
    if t == 0 then (x.d, x.view)
    else
      var (d, v) := After(x, t - 1);
      var job := JobAt(x, t - 1);
      (d[Dst(x, job) := Value(x, job, v)], v[Dst(x, job) := Value(x, job, v)])
  }

  // --- the jobs write the states of CommitStates ---

  // `h` is the device right after the header is written.
  ghost predicate PointOf(x: Tx, h: Disk) {
    && Ready(x) && WellFormed(x.l, h) && Count(x.l, h) == |x.blocks|
    && h == CommitPoint(x.l, x.d, x.view, x.blocks)
  }

  ghost function StateAt(x: Tx, h: Disk, t: nat): Disk
    requires PointOf(x, h) && t <= Jobs(x)
  {
    var n := |x.blocks|;
    if t <= n then Copied(x.l, x.d, x.view, x.blocks, t)
    else if t <= 2 * n + 1 then Installed(x.l, h, t - n - 1)
    else Finished(x.l, h)
  }

  // The elements of four sequences put together.
  lemma Joined(a: seq<Disk>, h: Disk, c: seq<Disk>, f: Disk, k: nat)
    requires k < |a| + |c| + 2
    ensures |a + [h] + c + [f]| == |a| + |c| + 2
    ensures (a + [h] + c + [f])[k] ==
      if k < |a| then a[k] else if k == |a| then h else if k <= |a| + |c| then c[k - |a| - 1] else f
  {
  }

  lemma LaterState(x: Tx, h: Disk, t: nat)
    requires PointOf(x, h) && 0 < t <= Jobs(x)
    ensures |CommitStates(x.l, x.d, x.view, x.blocks)| == 2 * |x.blocks| + 2
    ensures StateAt(x, h, t) == CommitStates(x.l, x.d, x.view, x.blocks)[t - 1]
  {
    CommitStatesParts(x.l, x.d, x.view, x.blocks);
    InstalledNone(x.l, h);
    hide Copied, CommitPoint, CommitStates, Installed, Finished, WellFormed, Loggable, Word;
    Joined(CopyStates(x.l, x.d, x.view, x.blocks), h, InstallStates(x.l, h), Finished(x.l, h), t - 1);
  }

  lemma StateIsListed(x: Tx, h: Disk, t: nat)
    requires PointOf(x, h) && t <= Jobs(x)
    ensures t <= |CommitStates(x.l, x.d, x.view, x.blocks)|
    ensures StateAt(x, h, t) == ([x.d] + CommitStates(x.l, x.d, x.view, x.blocks))[t]
  {
    if t == 0 {
      CopiedNone(x);
    } else {
      LaterState(x, h, t);
      hide StateAt, CommitStates, Loggable, CommitPoint, WellFormed;
    }
  }

  lemma InstalledNone(l: Layout, h: Disk)
    requires WellFormed(l, h)
    ensures Installed(l, h, 0) == h
  {
  }

  lemma CopiedNone(x: Tx)
    requires Ready(x)
    ensures Copied(x.l, x.d, x.view, x.blocks, 0) == x.d && x.view.Keys == x.d.Keys
  {
  }

  // The cache goes on showing the new home blocks, and the log's own blocks
  // are on the device as soon as they are in the cache.
  ghost predicate Showing(x: Tx, d: Disk, latest: Disk)
    requires Ready(x)
  {
    && d.Keys == latest.Keys == x.d.Keys
    && forall id :: id in x.d ==> latest[id] == if Home(x.l, id) then x.view[id] else d[id]
  }

  lemma ShowsHome(x: Tx, d: Disk, v: Disk, id: Id)
    requires Ready(x) && Showing(x, d, v) && id in x.d && Home(x.l, id)
    ensures Showing(x, d[id := x.view[id]], v[id := x.view[id]])
  {
    hide Loggable, Home;
  }

  lemma ShowsLog(x: Tx, d: Disk, v: Disk, id: Id, b: Block)
    requires Ready(x) && Showing(x, d, v) && id in x.d && !Home(x.l, id)
    ensures Showing(x, d[id := b], v[id := b]) && id in v && id in d && v[id] == d[id]
  {
    hide Loggable, Home;
  }

  lemma SlotsAreLog(x: Tx, k: nat)
    requires Ready(x) && k < |x.blocks|
    ensures SlotId(x.l, k) in x.d && !Home(x.l, SlotId(x.l, k))
    ensures Id(x.l.dev, x.blocks[k]) in x.d && Home(x.l, Id(x.l.dev, x.blocks[k]))
  {
  }

  lemma HeaderIsLog(x: Tx)
    requires Ready(x)
    ensures HeaderId(x.l) in x.d && !Home(x.l, HeaderId(x.l)) && |x.blocks| < 255
  {
  }

  // The effect of job t on device and cache.
  ghost predicate Writes(x: Tx, h: Disk, t: nat, d: Disk, v: Disk)
    requires PointOf(x, h) && t < Jobs(x)
  {
    var job := JobAt(x, t);
    var dst, b := Dst(x, job), Value(x, job, v);
    d[dst := b] == StateAt(x, h, t + 1) && Showing(x, d[dst := b], v[dst := b])
  }

  lemma CopyJob(x: Tx, h: Disk, t: nat, d: Disk, v: Disk)
    requires PointOf(x, h) && t < |x.blocks| && d == StateAt(x, h, t) && Showing(x, d, v)
    ensures Writes(x, h, t, d, v)
  {
    hide CommitPoint;
    SlotsAreLog(x, t);
    var home := Id(x.l.dev, x.blocks[t]);
    assert home in v && v[home] == x.view[home];
    ShowsLog(x, d, v, SlotId(x.l, t), v[home]);
    hide Loggable, WellFormed, Home, Showing;
  }

  lemma CommitJob(x: Tx, h: Disk, d: Disk, v: Disk)
    requires PointOf(x, h) && x.blocks != [] && d == StateAt(x, h, |x.blocks|) && Showing(x, d, v)
    ensures Writes(x, h, |x.blocks|, d, v)
  {
    HeaderIsLog(x);
    InstalledNone(x.l, h);
    ShowsLog(x, d, v, HeaderId(x.l), Headed(At(v, HeaderId(x.l)), x.blocks));
    hide Loggable, WellFormed, Home, HeaderBlock, Copied, Installed, Showing;
  }

  lemma InstallJob(x: Tx, h: Disk, t: nat, d: Disk, v: Disk)
    requires PointOf(x, h) && |x.blocks| < t <= 2 * |x.blocks| && d == StateAt(x, h, t) && Showing(x, d, v)
    ensures Writes(x, h, t, d, v)
  {
    hide CommitPoint, Loggable, WellFormed, Home, Showing, Installed;
    var k := t - |x.blocks| - 1;
    SlotsAreLog(x, k);
    ShowsHome(x, d, v, Id(x.l.dev, x.blocks[k]));
    LoggedValue(x, h, k, d, v);
  }

  // What install_trans reads is what the cache shows for the home block.
  lemma LoggedValue(x: Tx, h: Disk, k: nat, d: Disk, v: Disk)
    requires PointOf(x, h) && k < |x.blocks| && Showing(x, d, v) && d == Installed(x.l, h, k)
    requires SlotId(x.l, k) in x.d && !Home(x.l, SlotId(x.l, k))
    ensures var home, slot := Id(x.l.dev, x.blocks[k]), SlotId(x.l, k);
      && home in x.view && slot in v && v[slot] == x.view[home]
      && Installed(x.l, h, k + 1) == d[home := x.view[home]]
  {
    CommitPointWellFormed(x.l, x.d, x.view, x.blocks);
    InstallKeepsLog(x.l, h, k);
    hide CommitPoint, Word;
    assert Target(x.l, h, k) == Id(x.l.dev, x.blocks[k]);
  }

  lemma EraseJob(x: Tx, h: Disk, d: Disk, v: Disk)
    requires PointOf(x, h) && x.blocks != [] && d == StateAt(x, h, Jobs(x) - 1) && Showing(x, d, v)
    ensures Writes(x, h, Jobs(x) - 1, d, v)
  {
    hide CommitPoint;
    HeaderIsLog(x);
    ShowsLog(x, d, v, HeaderId(x.l), Headed(At(v, HeaderId(x.l)), []));
    hide Loggable, WellFormed, Home, Installed, Showing;
  }

  lemma {:induction false} AfterIsState(x: Tx, h: Disk, t: nat)
    requires PointOf(x, h) && t <= Jobs(x)
    ensures After(x, t).0 == StateAt(x, h, t) && Showing(x, After(x, t).0, After(x, t).1)
  {
    hide CommitPoint, WellFormed, Value, Loggable, Dst, JobAt, Home;
    if t == 0 {
      CopiedNone(x);
    } else {
      AfterIsState(x, h, t - 1);
      hide StateAt, Showing, PointOf;
      var (d, v) := After(x, t - 1);
      if t - 1 < |x.blocks| {
        CopyJob(x, h, t - 1, d, v);
      } else if t - 1 == |x.blocks| {
        CommitJob(x, h, d, v);
      } else if t - 1 <= 2 * |x.blocks| {
        InstallJob(x, h, t - 1, d, v);
      } else {
        EraseJob(x, h, d, v);
      }
      assert Writes(x, h, t - 1, d, v);
    }
  }

  // --- the steps ---

  datatype Phase = Fetching | Stored | Written

  // The cache, the job commit is at, and how far it has got with it.
  datatype Commit = Commit(s: State, t: nat, at: Phase)

  datatype Step =
    | Other(a: Action)             // anyone's bget, acquiresleep, read or brelse
    | Change(b: nat, c: nat)       // memmove from buffer c, or the header fields, into buffer b
    | Flush(b: nat)                // bwrite
    | Drop(b: nat)                 // bunpin
    | Next

  predicate Reads(a: Action) { a.Get? || a.Acquire? || a.Fill? || a.Unlock? || a.Unref? }

  // Process `me` holds a valid buffer of block id.
  predicate Has(s: State, me: nat, b: nat, id: Id) {
    b < |s.bufs| && s.bufs[b].valid && s.bufs[b].owner == Some(me) && s.bufs[b].id == id
  }

  // What commit puts into the buffer.
  function NewData(s: State, job: Job, b: nat, c: nat): Block
    requires b < |s.bufs| && (job.Copy? ==> c < |s.bufs|)
  {
    if job.Copy? then s.bufs[c].data else Headed(s.bufs[b].data, job.list)
  }

  ghost predicate CanStep(x: Tx, me: nat, c: Commit, step: Step) {
    match step
    case Other(a) => Reads(a) && Enabled(c.s, a)
    case Change(b, from) =>
      && c.t < Jobs(x) && c.at == Fetching && Has(c.s, me, b, Dst(x, JobAt(x, c.t)))
      && (JobAt(x, c.t).Copy? ==> Has(c.s, me, from, JobAt(x, c.t).src))
    case Flush(b) => c.t < Jobs(x) && c.at == Stored && Has(c.s, me, b, Dst(x, JobAt(x, c.t)))
    case Drop(b) =>
      && c.t < Jobs(x) && c.at == Written && JobAt(x, c.t).Copy? && JobAt(x, c.t).unpin
      && Has(c.s, me, b, JobAt(x, c.t).dst) && Enabled(c.s, Unpin(b))
    case Next => c.t < Jobs(x) && c.at == Written && !(JobAt(x, c.t).Copy? && JobAt(x, c.t).unpin)
  }

  ghost function Do(x: Tx, me: nat, c: Commit, step: Step): Commit
    requires CanStep(x, me, c, step)
  {
    match step
    case Other(a) => c.(s := Apply(c.s, a))
    case Change(b, from) =>
      c.(s := Apply(c.s, Store(b, me, NewData(c.s, JobAt(x, c.t), b, from))), at := Stored)
    case Flush(b) => c.(s := Apply(c.s, Write(b, me)), at := Written)
    case Drop(b) => Commit(Apply(c.s, Unpin(b)), c.t + 1, Fetching)
    case Next => Commit(c.s, c.t + 1, Fetching)
  }

  ghost predicate CommitInv(x: Tx, c: Commit) {
    && Inv(c.s) && c.t <= Jobs(x) && (c.at != Fetching ==> c.t < Jobs(x))
    && c.s.disk == After(x, if c.at == Written then c.t + 1 else c.t).0
    && c.s.latest == After(x, if c.at == Fetching then c.t else c.t + 1).1
  }

  // Readers change neither the device nor what the blocks mean.
  lemma ReadersChangeNothing(s: State, a: Action)
    requires Enabled(s, a) && Reads(a)
    ensures Apply(s, a).disk == s.disk && Apply(s, a).latest == s.latest
  {
  }

  // What commit copies is the latest value of the block it read, whatever the
  // others did to the buffers meanwhile.
  lemma CopiesLatest(x: Tx, me: nat, c: Commit, b: nat, from: nat)
    requires Inv(c.s) && CanStep(x, me, c, Change(b, from))
    ensures NewData(c.s, JobAt(x, c.t), b, from) == Value(x, JobAt(x, c.t), c.s.latest)
  {
    hide Inv;
    ValidIsOnDevice(c.s, b);
    if JobAt(x, c.t).Copy? {
      ValidIsOnDevice(c.s, from);
    }
  }

  lemma StepKeepsCommit(x: Tx, me: nat, c: Commit, step: Step)
    requires CommitInv(x, c) && CanStep(x, me, c, step)
    ensures CommitInv(x, Do(x, me, c, step))
  {
    hide Inv, Headed;
    match step {
      case Other(a) =>
        StepKeepsInv(c.s, a);
        ReadersChangeNothing(c.s, a);
      case Change(b, from) =>
        CopiesLatest(x, me, c, b, from);
        StepKeepsInv(c.s, Store(b, me, NewData(c.s, JobAt(x, c.t), b, from)));
      case Flush(b) =>
        StepKeepsInv(c.s, Write(b, me));
        ValidIsOnDevice(c.s, b);
      case Drop(b) => StepKeepsInv(c.s, Unpin(b));
      case Next =>
    }
  }

  ghost predicate Run(x: Tx, me: nat, trace: seq<Commit>, steps: seq<Step>) {
    && |trace| == |steps| + 1
    && forall i :: 0 <= i < |steps| ==>
         CanStep(x, me, trace[i], steps[i]) && trace[i + 1] == Do(x, me, trace[i], steps[i])
  }

  // commit starts on a sound cache that shows the view.
  ghost predicate Begins(x: Tx, c: Commit) {
    Ready(x) && Inv(c.s) && c.s.disk == x.d && c.s.latest == x.view && c.t == 0 && c.at == Fetching
  }

  lemma BeginsSound(x: Tx, c: Commit)
    requires Begins(x, c)
    ensures CommitInv(x, c)
  {
    hide Inv, Loggable;
  }

  lemma {:induction false} RunKeepsCommit(x: Tx, me: nat, trace: seq<Commit>, steps: seq<Step>, i: nat)
    requires Run(x, me, trace, steps) && Begins(x, trace[0]) && i < |trace|
    ensures CommitInv(x, trace[i])
  {
    hide CanStep, Do, CommitInv, Inv, Loggable;
    if i == 0 {
      BeginsSound(x, trace[0]);
    } else {
      RunKeepsCommit(x, me, trace, steps, i - 1);
      StepKeepsCommit(x, me, trace[i - 1], steps[i - 1]);
    }
  }

  // However readers interleave, the device is at every moment in one of the
  // states of CommitStates, the one after as many of its writes as were made.
  lemma DeviceFollowsCommitStates(x: Tx, me: nat, trace: seq<Commit>, steps: seq<Step>, i: nat)
    requires Run(x, me, trace, steps) && Begins(x, trace[0]) && i < |trace|
    ensures var k := if trace[i].at == Written then trace[i].t + 1 else trace[i].t;
      && k <= |CommitStates(x.l, x.d, x.view, x.blocks)|
      && trace[i].s.disk == ([x.d] + CommitStates(x.l, x.d, x.view, x.blocks))[k]
  {
    RunKeepsCommit(x, me, trace, steps, i);
    var k := if trace[i].at == Written then trace[i].t + 1 else trace[i].t;
    CommitPointWellFormed(x.l, x.d, x.view, x.blocks);
    var h := CommitPoint(x.l, x.d, x.view, x.blocks);
    hide CommitStates, Loggable, StateAt, Showing, WellFormed, CommitPoint;
    AfterIsState(x, h, k);
    StateIsListed(x, h, k);
  }

  // So a crash at any moment of any such run is recovered from.
  lemma CommitIsAtomicAmongReaders(x: Tx, me: nat, trace: seq<Commit>, steps: seq<Step>, i: nat, stops: seq<Disk>)
    requires Run(x, me, trace, steps) && Begins(x, trace[0]) && i < |trace|
    requires Interrupted(x.l, trace[i].s.disk, stops)
    ensures var last := LastStop(trace[i].s.disk, stops);
      && WellFormed(x.l, last) && Count(x.l, Finished(x.l, last)) == 0
      && Homes(x.l, Finished(x.l, last)) ==
           (if trace[i].t < |x.blocks| || (trace[i].t == |x.blocks| && trace[i].at != Written)
            then Homes(x.l, x.d) else Homes(x.l, x.view))
  {
    DeviceFollowsCommitStates(x, me, trace, steps, i);
    var k := if trace[i].at == Written then trace[i].t + 1 else trace[i].t;
    hide CommitStates, Finished, Homes;
    CrashAtomicity(x.l, x.d, x.view, x.blocks, k, stops);
  }
}
