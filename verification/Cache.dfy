/** What the buffer cache means (kernel/bio.c): which buffer holds the latest
    contents of a block, and a transition system of all processes that read,
    change, write and release blocks, one lock-protected step at a time. */
module Cache {
  import opened Blocks

  datatype Id = Id(dev: nat, bno: nat)
  type Disk = map<Id, Block>

  // struct buf; `owner` is the process holding the buffer's sleep-lock.
  datatype Buf = Buf(valid: bool, id: Id, refcnt: nat, owner: Option<nat>, data: Block)

  // What holds of one buffer: `refs` is its number of bget references.
  ghost predicate BufOk(b: Buf, refs: nat, disk: Disk, latest: Disk, pins: multiset<Id>) {
    && b.refcnt == refs + pins[b.id]
    && (b.id.dev != 0 || b.refcnt > 0 || b.valid ==> b.id.dev != 0 && b.id in disk && b.id in latest)
    && (b.owner.Some? ==> refs > 0)
    && (b.valid ==> b.data == latest[b.id])
  }

  // Some buffer holds a usable copy of block `id` that cannot be recycled.
  ghost predicate Kept(bufs: seq<Buf>, pins: multiset<Id>, id: Id) {
    exists i :: 0 <= i < |bufs| && bufs[i].id == id && bufs[i].valid && (id in pins || bufs[i].owner.Some?)
  }

  ghost predicate Distinct(bufs: seq<Buf>) {
    forall i, j :: 0 <= i < j < |bufs| && bufs[i].id.dev != 0 ==> bufs[i].id != bufs[j].id
  }

  // `latest` is what was last put into each block through any buffer;
  // `pins` counts the bpin references.
  ghost predicate Coherent(bufs: seq<Buf>, disk: Disk, latest: Disk, refs: seq<nat>, pins: multiset<Id>) {
    && latest.Keys == disk.Keys
    && |refs| == |bufs|
    && (forall i :: 0 <= i < |bufs| ==> BufOk(bufs[i], refs[i], disk, latest, pins))
    && Distinct(bufs)
    && (forall id :: id in pins ==> Kept(bufs, pins, id))
    && (forall id :: id in disk && disk[id] != latest[id] ==> Kept(bufs, pins, id))
  }

  // Replacing buffer `b` loses no kept block other than the one it held.
  lemma StaysKept(bufs: seq<Buf>, b: nat, v: Buf, pins: multiset<Id>, pins': multiset<Id>, id: Id)
    requires b < |bufs| && Kept(bufs, pins, id) && (id in pins ==> id in pins')
    requires bufs[b].id == id ==> v.id == id && v.valid && (id in pins' || v.owner.Some?)
    ensures Kept(bufs[b := v], pins', id)
  {
    var bufs' := bufs[b := v];
    var j :| 0 <= j < |bufs| && bufs[j].id == id && bufs[j].valid && (id in pins || bufs[j].owner.Some?);
    assert bufs'[j].id == id && bufs'[j].valid;
  }

  // A buffer nobody references holds no pending change, so it may take on another block.
  lemma RecycleStaysCoherent(bufs: seq<Buf>, disk: Disk, latest: Disk, refs: seq<nat>, pins: multiset<Id>,
                             b: nat, id: Id)
    requires Coherent(bufs, disk, latest, refs, pins)
    requires b < |bufs| && bufs[b].refcnt == 0
    requires id.dev != 0 && id in disk && forall i :: 0 <= i < |bufs| ==> bufs[i].id != id
    ensures refs[b] == 0 && bufs[b].owner.None?
    ensures bufs[b].id in disk ==> disk[bufs[b].id] == latest[bufs[b].id]
    ensures Coherent(bufs[b := bufs[b].(valid := false, id := id, refcnt := 1)], disk, latest, refs[b := 1], pins)
  {
    assert BufOk(bufs[b], refs[b], disk, latest, pins);
    var v := bufs[b].(valid := false, id := id, refcnt := 1);
    assert id !in pins by {
      NoPinWithoutBuffer(bufs, pins, id);
    }
    assert BufOk(v, 1, disk, latest, pins);
    hide Kept, BufOk;
    forall x | Kept(bufs, pins, x) ensures x != bufs[b].id && Kept(bufs[b := v], pins, x) {
      KeptElsewhere(bufs, disk, latest, refs, pins, b, x);
      StaysKept(bufs, b, v, pins, pins, x);
    }
  }

  lemma NoPinWithoutBuffer(bufs: seq<Buf>, pins: multiset<Id>, id: Id)
    requires forall i :: 0 <= i < |bufs| ==> bufs[i].id != id
    ensures !Kept(bufs, pins, id)
  {
  }

  lemma KeptElsewhere(bufs: seq<Buf>, disk: Disk, latest: Disk, refs: seq<nat>, pins: multiset<Id>, b: nat, id: Id)
    requires Coherent(bufs, disk, latest, refs, pins)
    requires b < |bufs| && bufs[b].refcnt == 0 && Kept(bufs, pins, id)
    ensures bufs[b].id != id
  {
    var j :| 0 <= j < |bufs| && bufs[j].id == id && bufs[j].valid && (id in pins || bufs[j].owner.Some?);
    assert BufOk(bufs[j], refs[j], disk, latest, pins) && BufOk(bufs[b], refs[b], disk, latest, pins);
  }

  // Changing buffer `b` without changing which block it holds.
  lemma UpdateStaysCoherent(bufs: seq<Buf>, disk: Disk, latest: Disk, refs: seq<nat>, pins: multiset<Id>,
                            b: nat, v: Buf, r: nat)
    requires Coherent(bufs, disk, latest, refs, pins)
    requires b < |bufs| && v.id == bufs[b].id && BufOk(v, r, disk, latest, pins)
    requires bufs[b].valid ==> v.valid
    requires v.id in disk && disk[v.id] != latest[v.id] ==> v.id in pins || v.owner.Some?
    ensures Coherent(bufs[b := v], disk, latest, refs[b := r], pins)
  {
    forall x | Kept(bufs, pins, x) && (x in pins || (x in disk && disk[x] != latest[x]))
      ensures Kept(bufs[b := v], pins, x)
    {
      if bufs[b].id == x {
        OnlyCopy(bufs, pins, b, x);
      }
      StaysKept(bufs, b, v, pins, pins, x);
    }
  }

  lemma OnlyCopy(bufs: seq<Buf>, pins: multiset<Id>, b: nat, id: Id)
    requires Distinct(bufs) && b < |bufs| && bufs[b].id == id && Kept(bufs, pins, id)
    ensures id.dev != 0 ==> bufs[b].valid
  {
  }

  lemma ReferenceStaysCoherent(bufs: seq<Buf>, disk: Disk, latest: Disk, refs: seq<nat>, pins: multiset<Id>, b: nat)
    requires Coherent(bufs, disk, latest, refs, pins)
    requires b < |bufs| && bufs[b].id in disk && bufs[b].id.dev != 0
    ensures Coherent(bufs[b := bufs[b].(refcnt := bufs[b].refcnt + 1)], disk, latest, refs[b := refs[b] + 1], pins)
  {
    var v := bufs[b].(refcnt := bufs[b].refcnt + 1);
    assert BufOk(bufs[b], refs[b], disk, latest, pins);
    PendingIsHeld(bufs, disk, latest, refs, pins, b);
    UpdateStaysCoherent(bufs, disk, latest, refs, pins, b, v, refs[b] + 1);
  }

  // A pending change sits in a buffer that is pinned or locked.
  lemma PendingIsHeld(bufs: seq<Buf>, disk: Disk, latest: Disk, refs: seq<nat>, pins: multiset<Id>, b: nat)
    requires Coherent(bufs, disk, latest, refs, pins)
    requires b < |bufs| && bufs[b].id in disk && bufs[b].id.dev != 0
    ensures disk[bufs[b].id] != latest[bufs[b].id] ==> bufs[b].valid && (bufs[b].id in pins || bufs[b].owner.Some?)
  {
  }

  // Writing into a locked buffer changes only what its own block means.
  lemma StoreStaysCoherent(bufs: seq<Buf>, disk: Disk, latest: Disk, refs: seq<nat>, pins: multiset<Id>,
                           b: nat, v: Block)
    requires Coherent(bufs, disk, latest, refs, pins)
    requires b < |bufs| && bufs[b].valid && bufs[b].owner.Some?
    ensures bufs[b].id in disk
    ensures Coherent(bufs[b := bufs[b].(data := v)], disk, latest[bufs[b].id := v], refs, pins)
  {
    assert BufOk(bufs[b], refs[b], disk, latest, pins);
    hide Kept, BufOk;
    var bufs', latest' := bufs[b := bufs[b].(data := v)], latest[bufs[b].id := v];
    forall i | 0 <= i < |bufs| ensures BufOk(bufs'[i], refs[i], disk, latest', pins) {
      StoredBufOk(bufs, disk, latest, refs, pins, b, v, i);
    }
    forall x | x in pins || (x in disk && disk[x] != latest'[x]) ensures Kept(bufs', pins, x) {
      StoredIsKept(bufs, disk, latest, refs, pins, b, v, x);
    }
  }

  lemma StoredIsKept(bufs: seq<Buf>, disk: Disk, latest: Disk, refs: seq<nat>, pins: multiset<Id>,
                     b: nat, v: Block, x: Id)
    requires Coherent(bufs, disk, latest, refs, pins)
    requires b < |bufs| && bufs[b].valid && bufs[b].owner.Some?
    requires x in pins || (x in disk && disk[x] != latest[bufs[b].id := v][x])
    ensures Kept(bufs[b := bufs[b].(data := v)], pins, x)
  {
    hide BufOk;
    var w := bufs[b].(data := v);
    if x == bufs[b].id {
      assert bufs[b := w][b].id == x;
    } else {
      StaysKept(bufs, b, w, pins, pins, x);
    }
  }

  lemma StoredBufOk(bufs: seq<Buf>, disk: Disk, latest: Disk, refs: seq<nat>, pins: multiset<Id>, b: nat, v: Block,
                    i: nat)
    requires Coherent(bufs, disk, latest, refs, pins) && b < |bufs| && i < |bufs| && bufs[b].valid
    ensures BufOk(bufs[b := bufs[b].(data := v)][i], refs[i], disk, latest[bufs[b].id := v], pins)
  {
    assert BufOk(bufs[i], refs[i], disk, latest, pins) && BufOk(bufs[b], refs[b], disk, latest, pins);
  }

  // Flushing a buffer makes its block clean and leaves the rest alone.
  lemma FlushStaysCoherent(bufs: seq<Buf>, disk: Disk, latest: Disk, refs: seq<nat>, pins: multiset<Id>, b: nat)
    requires Coherent(bufs, disk, latest, refs, pins)
    requires b < |bufs| && bufs[b].valid
    ensures bufs[b].id in disk && bufs[b].id in latest && bufs[b].data == latest[bufs[b].id]
    ensures Coherent(bufs, disk[bufs[b].id := bufs[b].data], latest, refs, pins)
  {
    assert BufOk(bufs[b], refs[b], disk, latest, pins);
    var disk' := disk[bufs[b].id := bufs[b].data];
    forall i | 0 <= i < |bufs| ensures BufOk(bufs[i], refs[i], disk', latest, pins) {
      assert BufOk(bufs[i], refs[i], disk, latest, pins);
    }
  }

  lemma PinStaysCoherent(bufs: seq<Buf>, disk: Disk, latest: Disk, refs: seq<nat>, pins: multiset<Id>, b: nat)
    requires Coherent(bufs, disk, latest, refs, pins)
    requires b < |bufs| && bufs[b].valid
    ensures Coherent(bufs[b := bufs[b].(refcnt := bufs[b].refcnt + 1)], disk, latest, refs, pins + multiset{bufs[b].id})
  {
    var id, pins' := bufs[b].id, pins + multiset{bufs[b].id};
    var bufs' := bufs[b := bufs[b].(refcnt := bufs[b].refcnt + 1)];
    assert BufOk(bufs[b], refs[b], disk, latest, pins);
    forall i | 0 <= i < |bufs| ensures BufOk(bufs'[i], refs[i], disk, latest, pins') {
      assert BufOk(bufs[i], refs[i], disk, latest, pins);
    }
    assert bufs'[b].id == id && bufs'[b].valid && id in pins';
    forall x | x in pins' || (x in disk && disk[x] != latest[x]) ensures Kept(bufs', pins', x) {
      if x != id {
        StaysKept(bufs, b, bufs'[b], pins, pins', x);
      }
    }
  }

  lemma UnpinStaysCoherent(bufs: seq<Buf>, disk: Disk, latest: Disk, refs: seq<nat>, pins: multiset<Id>, b: nat)
    requires Coherent(bufs, disk, latest, refs, pins)
    requires b < |bufs| && bufs[b].id in pins && bufs[b].owner.Some?
    ensures bufs[b].refcnt > 0
    ensures Coherent(bufs[b := bufs[b].(refcnt := bufs[b].refcnt - 1)], disk, latest, refs, pins - multiset{bufs[b].id})
  {
    var id, pins' := bufs[b].id, pins - multiset{bufs[b].id};
    assert BufOk(bufs[b], refs[b], disk, latest, pins);
    var w := bufs[b].(refcnt := bufs[b].refcnt - 1);
    var bufs' := bufs[b := w];
    forall i | 0 <= i < |bufs| ensures BufOk(bufs'[i], refs[i], disk, latest, pins') {
      assert BufOk(bufs[i], refs[i], disk, latest, pins);
    }
    OnlyCopy(bufs, pins, b, id);
    assert bufs'[b].id == id && bufs'[b].valid && bufs'[b].owner.Some?;
    forall x | x in pins' || (x in disk && disk[x] != latest[x]) ensures Kept(bufs', pins', x) {
      if x != id {
        StaysKept(bufs, b, w, pins, pins', x);
      }
    }
  }

  lemma LockStaysCoherent(bufs: seq<Buf>, disk: Disk, latest: Disk, refs: seq<nat>, pins: multiset<Id>, b: nat, me: nat)
    requires Coherent(bufs, disk, latest, refs, pins) && b < |bufs| && refs[b] > 0
    ensures Coherent(bufs[b := bufs[b].(owner := Some(me))], disk, latest, refs[b := refs[b]], pins)
  {
    assert BufOk(bufs[b], refs[b], disk, latest, pins);
    UpdateStaysCoherent(bufs, disk, latest, refs, pins, b, bufs[b].(owner := Some(me)), refs[b]);
  }

  // A block without a usable copy is intact on the device, so reading it finds its latest contents.
  lemma FillStaysCoherent(bufs: seq<Buf>, disk: Disk, latest: Disk, refs: seq<nat>, pins: multiset<Id>, b: nat)
    requires Coherent(bufs, disk, latest, refs, pins) && b < |bufs| && bufs[b].owner.Some?
    ensures bufs[b].id in disk && bufs[b].id in latest
    ensures latest[bufs[b].id] == if bufs[b].valid then bufs[b].data else disk[bufs[b].id]
    ensures Coherent(bufs[b := bufs[b].(valid := true, data := latest[bufs[b].id])], disk, latest, refs[b := refs[b]],
                     pins)
  {
    assert BufOk(bufs[b], refs[b], disk, latest, pins);
    PendingIsHeld(bufs, disk, latest, refs, pins, b);
    UpdateStaysCoherent(bufs, disk, latest, refs, pins, b, bufs[b].(valid := true, data := latest[bufs[b].id]),
                        refs[b]);
  }

  lemma UnlockStaysCoherent(bufs: seq<Buf>, disk: Disk, latest: Disk, refs: seq<nat>, pins: multiset<Id>, b: nat)
    requires Coherent(bufs, disk, latest, refs, pins) && b < |bufs|
    requires bufs[b].id in disk && disk[bufs[b].id] != latest[bufs[b].id] ==> bufs[b].id in pins
    ensures Coherent(bufs[b := bufs[b].(owner := None)], disk, latest, refs[b := refs[b]], pins)
  {
    assert BufOk(bufs[b], refs[b], disk, latest, pins);
    UpdateStaysCoherent(bufs, disk, latest, refs, pins, b, bufs[b].(owner := None), refs[b]);
  }

  lemma UnrefStaysCoherent(bufs: seq<Buf>, disk: Disk, latest: Disk, refs: seq<nat>, pins: multiset<Id>, b: nat)
    requires Coherent(bufs, disk, latest, refs, pins)
    requires b < |bufs| && refs[b] > 0 && (bufs[b].owner.Some? ==> refs[b] > 1)
    ensures bufs[b].refcnt > 0
    ensures Coherent(bufs[b := bufs[b].(refcnt := bufs[b].refcnt - 1)], disk, latest, refs[b := refs[b] - 1], pins)
  {
    assert BufOk(bufs[b], refs[b], disk, latest, pins);
    PendingIsHeld(bufs, disk, latest, refs, pins, b);
    UpdateStaysCoherent(bufs, disk, latest, refs, pins, b, bufs[b].(refcnt := bufs[b].refcnt - 1), refs[b] - 1);
  }

  lemma EmptyIsCoherent(n: nat, disk: Disk)
    ensures Coherent(seq(n, _ => Buf(false, Id(0, 0), 0, None, ZeroBlock())), disk, disk, seq(n, _ => 0), multiset{})
  {
  }

  // --- processes ---

  // How far one bread ... brelse of a process has come: bget has given it a
  // reference and it waits for the sleep-lock; it has the lock; bread has
  // returned; brelse has given up the lock and not yet the reference.
  datatype Stage = Waiting | Locked | Holding | Releasing

  // A use of block `id` through buffer `b`. A process may have several.
  datatype Use = Use(proc: nat, b: nat, id: Id, at: Stage)

  datatype State = State(bufs: seq<Buf>, disk: Disk, latest: Disk, pins: multiset<Id>, uses: map<nat, Use>)

  predicate Owns(at: Stage) { at.Locked? || at.Holding? }

  ghost function UsersOf(uses: map<nat, Use>, b: nat): set<nat> {
    set u | u in uses && uses[u].b == b
  }

  // The references that uses account for.
  ghost function Counts(n: nat, uses: map<nat, Use>): seq<nat> {
    seq(n, b requires 0 <= b < n => |UsersOf(uses, b)|)
  }

  datatype Action =
    | Get(u: nat, p: nat, id: Id, b: nat)  // bget under bcache.lock, giving buffer b
    | Acquire(u: nat)                      // acquiresleep takes the lock
    | Fill(u: nat)                         // the rest of bread
    | Store(b: nat, p: nat, v: Block)      // the holder changes b->data
    | Write(b: nat, p: nat)                // bwrite
    | Pin(b: nat)
    | Unpin(b: nat)
    | Unlock(u: nat)                       // brelse up to releasesleep
    | Unref(u: nat)                        // the rest of brelse

  predicate Absent(bufs: seq<Buf>, id: Id) {
    forall i :: 0 <= i < |bufs| ==> bufs[i].id != id
  }

  // A changed block must be logged (pinned) or written before it is released.
  predicate Saved(s: State, id: Id) {
    id in s.disk && id in s.latest && s.disk[id] != s.latest[id] ==> id in s.pins
  }

  predicate Enabled(s: State, a: Action) {
    match a
    case Get(u, p, id, b) =>
      && u !in s.uses && id.dev != 0 && id in s.disk && b < |s.bufs|
      && (s.bufs[b].id == id || (s.bufs[b].refcnt == 0 && Absent(s.bufs, id)))
    case Acquire(u) => u in s.uses && s.uses[u].at.Waiting? && s.uses[u].b < |s.bufs| && s.bufs[s.uses[u].b].owner.None?
    case Fill(u) => u in s.uses && s.uses[u].at.Locked? && s.uses[u].b < |s.bufs| && s.bufs[s.uses[u].b].id in s.disk
    case Store(b, p, v) => b < |s.bufs| && s.bufs[b].owner == Some(p) && s.bufs[b].valid
    case Write(b, p) => b < |s.bufs| && s.bufs[b].owner == Some(p) && s.bufs[b].valid
    case Pin(b) => b < |s.bufs| && s.bufs[b].valid
    case Unpin(b) => b < |s.bufs| && s.bufs[b].id in s.pins && s.bufs[b].owner.Some? && s.bufs[b].refcnt > 0
    case Unlock(u) => u in s.uses && Owns(s.uses[u].at) && s.uses[u].b < |s.bufs| && Saved(s, s.bufs[s.uses[u].b].id)
    case Unref(u) => u in s.uses && s.uses[u].at.Releasing? && s.uses[u].b < |s.bufs| && s.bufs[s.uses[u].b].refcnt > 0
  }

  function Move(s: State, u: nat, at: Stage, v: Buf): State
    requires u in s.uses && s.uses[u].b < |s.bufs|
  {
    s.(bufs := s.bufs[s.uses[u].b := v], uses := s.uses[u := s.uses[u].(at := at)])
  }

  function Apply(s: State, a: Action): State
    requires Enabled(s, a)
  {
    match a
    case Get(u, p, id, b) =>
      var v := s.bufs[b];
      var v' := if v.id == id then v.(refcnt := v.refcnt + 1) else v.(valid := false, id := id, refcnt := 1);
      s.(bufs := s.bufs[b := v'], uses := s.uses[u := Use(p, b, id, Waiting)])
    case Acquire(u) => Move(s, u, Locked, s.bufs[s.uses[u].b].(owner := Some(s.uses[u].proc)))
    case Fill(u) =>
      var v := s.bufs[s.uses[u].b];
      Move(s, u, Holding, if v.valid then v else v.(valid := true, data := s.disk[v.id]))
    case Store(b, p, v) => s.(bufs := s.bufs[b := s.bufs[b].(data := v)], latest := s.latest[s.bufs[b].id := v])
    case Write(b, p) => s.(disk := s.disk[s.bufs[b].id := s.bufs[b].data])
    case Pin(b) =>
      s.(bufs := s.bufs[b := s.bufs[b].(refcnt := s.bufs[b].refcnt + 1)], pins := s.pins + multiset{s.bufs[b].id})
    case Unpin(b) =>
      s.(bufs := s.bufs[b := s.bufs[b].(refcnt := s.bufs[b].refcnt - 1)], pins := s.pins - multiset{s.bufs[b].id})
    case Unlock(u) => Move(s, u, Releasing, s.bufs[s.uses[u].b].(owner := None))
    case Unref(u) =>
      var b := s.uses[u].b;
      s.(bufs := s.bufs[b := s.bufs[b].(refcnt := s.bufs[b].refcnt - 1)], uses := s.uses - {u})
  }

  // --- the invariant ---

  ghost predicate UseOk(bufs: seq<Buf>, use: Use) {
    && use.b < |bufs| && bufs[use.b].id == use.id && use.id.dev != 0
    && (Owns(use.at) ==> bufs[use.b].owner == Some(use.proc))
    && (use.at.Holding? ==> bufs[use.b].valid)
  }

  ghost predicate OwnedBy(uses: map<nat, Use>, b: nat) {
    exists u :: u in uses && uses[u].b == b && Owns(uses[u].at)
  }

  // Every reference and every lock belongs to one use, and the buffer a use
  // has a reference to goes on holding its block.
  ghost predicate Attributed(bufs: seq<Buf>, uses: map<nat, Use>) {
    && (forall u :: u in uses ==> UseOk(bufs, uses[u]))
    && (forall u, v :: u in uses && v in uses && u != v && uses[u].b == uses[v].b ==>
          !(Owns(uses[u].at) && Owns(uses[v].at)))
    && (forall b :: 0 <= b < |bufs| && bufs[b].owner.Some? ==> OwnedBy(uses, b))
  }

  ghost predicate Inv(s: State) {
    && Coherent(s.bufs, s.disk, s.latest, Counts(|s.bufs|, s.uses), s.pins)
    && Attributed(s.bufs, s.uses)
  }

  // --- counting references ---

  lemma UsersAdd(uses: map<nat, Use>, u: nat, use: Use, b: nat)
    requires u !in uses
    ensures |UsersOf(uses[u := use], b)| == |UsersOf(uses, b)| + if b == use.b then 1 else 0
  {
    if b == use.b {
      assert UsersOf(uses[u := use], b) == UsersOf(uses, b) + {u};
    } else {
      assert UsersOf(uses[u := use], b) == UsersOf(uses, b);
    }
  }

  lemma CountsAdd(n: nat, uses: map<nat, Use>, u: nat, use: Use)
    requires u !in uses && use.b < n
    ensures Counts(n, uses[u := use]) == Counts(n, uses)[use.b := Counts(n, uses)[use.b] + 1]
  {
    hide UsersOf;
    forall b | 0 <= b < n
      ensures |UsersOf(uses[u := use], b)| == |UsersOf(uses, b)| + if b == use.b then 1 else 0
    {
      UsersAdd(uses, u, use, b);
    }
  }

  lemma CountsMove(n: nat, uses: map<nat, Use>, u: nat, at: Stage)
    requires u in uses
    ensures Counts(n, uses[u := uses[u].(at := at)]) == Counts(n, uses)
  {
    forall b | 0 <= b < n ensures UsersOf(uses[u := uses[u].(at := at)], b) == UsersOf(uses, b) {
    }
  }

  lemma CountsDrop(n: nat, uses: map<nat, Use>, u: nat)
    requires u in uses && uses[u].b < n
    ensures Counts(n, uses)[uses[u].b] > 0
    ensures Counts(n, uses - {u}) == Counts(n, uses)[uses[u].b := Counts(n, uses)[uses[u].b] - 1]
  {
    assert u in UsersOf(uses, uses[u].b);
    forall b | 0 <= b < n
      ensures UsersOf(uses - {u}, b) == if b == uses[u].b then UsersOf(uses, b) - {u} else UsersOf(uses, b)
    {
    }
  }

  // The lock's owner and a process that is leaving account for two references.
  lemma OwnerCounts(bufs: seq<Buf>, uses: map<nat, Use>, u: nat)
    requires Attributed(bufs, uses) && u in uses && !Owns(uses[u].at)
    ensures uses[u].b < |bufs|
    ensures bufs[uses[u].b].owner.Some? ==> Counts(|bufs|, uses)[uses[u].b] > 1
  {
    var b := uses[u].b;
    assert UseOk(bufs, uses[u]);
    if bufs[b].owner.Some? {
      assert OwnedBy(uses, b);
      var v :| v in uses && uses[v].b == b && Owns(uses[v].at);
      assert {u, v} <= UsersOf(uses, b);
      assert UsersOf(uses, b) == {u, v} + (UsersOf(uses, b) - {u, v});
      assert |{u, v}| == 2;
    }
  }

  // A reference keeps the buffer from being recycled.
  lemma UsedIsReferenced(s: State, u: nat)
    requires Inv(s) && u in s.uses
    ensures s.uses[u].b < |s.bufs| && Counts(|s.bufs|, s.uses)[s.uses[u].b] > 0
    ensures s.bufs[s.uses[u].b].refcnt > 0 && s.bufs[s.uses[u].b].id == s.uses[u].id && s.uses[u].id in s.disk
  {
    assert UseOk(s.bufs, s.uses[u]);
    CountsDrop(|s.bufs|, s.uses, u);
    var b := s.uses[u].b;
    assert BufOk(s.bufs[b], Counts(|s.bufs|, s.uses)[b], s.disk, s.latest, s.pins);
  }

  // --- every step keeps the invariant ---

  lemma GetKeeps(s: State, u: nat, p: nat, id: Id, b: nat)
    requires Inv(s) && Enabled(s, Get(u, p, id, b))
    ensures Inv(Apply(s, Get(u, p, id, b)))
  {
    hide Attributed, Coherent, Counts;
    CountsAdd(|s.bufs|, s.uses, u, Use(p, b, id, Waiting));
    GetAttributed(s, u, p, id, b);
    var refs := Counts(|s.bufs|, s.uses);
    if s.bufs[b].id == id {
      ReferenceStaysCoherent(s.bufs, s.disk, s.latest, refs, s.pins, b);
    } else {
      RecycleStaysCoherent(s.bufs, s.disk, s.latest, refs, s.pins, b, id);
    }
  }

  lemma GetAttributed(s: State, u: nat, p: nat, id: Id, b: nat)
    requires Inv(s) && Enabled(s, Get(u, p, id, b))
    ensures Attributed(Apply(s, Get(u, p, id, b)).bufs, Apply(s, Get(u, p, id, b)).uses)
  {
    hide Coherent, Counts;
    var t := Apply(s, Get(u, p, id, b));
    forall x | x in t.uses ensures UseOk(t.bufs, t.uses[x]) {
      if x != u {
        UsedIsReferenced(s, x);
        assert UseOk(s.bufs, s.uses[x]);
      }
    }
    forall c | 0 <= c < |t.bufs| && t.bufs[c].owner.Some? ensures OwnedBy(t.uses, c) {
      assert OwnedBy(s.uses, c);
      var x :| x in s.uses && s.uses[x].b == c && Owns(s.uses[x].at);
      assert t.uses[x] == s.uses[x];
    }
  }

  // A use moves on and its buffer changes with it.
  lemma MoveAttributed(s: State, u: nat, at: Stage, v: Buf)
    requires Attributed(s.bufs, s.uses) && u in s.uses && s.uses[u].b < |s.bufs|
    requires v.id == s.bufs[s.uses[u].b].id && (s.bufs[s.uses[u].b].valid ==> v.valid)
    requires v.owner == if Owns(at) then Some(s.uses[u].proc) else None
    requires Owns(s.uses[u].at) || s.bufs[s.uses[u].b].owner.None?
    requires at.Holding? ==> v.valid
    ensures Attributed(Move(s, u, at, v).bufs, Move(s, u, at, v).uses)
  {
    var t, b := Move(s, u, at, v), s.uses[u].b;
    forall x | x in t.uses ensures UseOk(t.bufs, t.uses[x]) {
      assert UseOk(s.bufs, s.uses[x]) && UseOk(s.bufs, s.uses[u]);
    }
    forall c | 0 <= c < |t.bufs| && t.bufs[c].owner.Some? ensures OwnedBy(t.uses, c) {
      if c == b {
        assert t.uses[u].b == c && Owns(t.uses[u].at);
      } else {
        assert OwnedBy(s.uses, c);
        var x :| x in s.uses && s.uses[x].b == c && Owns(s.uses[x].at);
        assert t.uses[x] == s.uses[x];
      }
    }
  }

  lemma AcquireKeeps(s: State, u: nat)
    requires Inv(s) && Enabled(s, Acquire(u))
    ensures Inv(Apply(s, Acquire(u)))
  {
    hide Coherent, Attributed, Counts;
    var b, refs := s.uses[u].b, Counts(|s.bufs|, s.uses);
    SameKeys(s);
    UsedIsReferenced(s, u);
    CountsMove(|s.bufs|, s.uses, u, Locked);
    MoveAttributed(s, u, Locked, s.bufs[b].(owner := Some(s.uses[u].proc)));
    LockStaysCoherent(s.bufs, s.disk, s.latest, refs, s.pins, b, s.uses[u].proc);
    assert refs[b := refs[b]] == refs;
  }

  lemma FillKeeps(s: State, u: nat)
    requires Inv(s) && Enabled(s, Fill(u))
    ensures Inv(Apply(s, Fill(u)))
    ensures s.bufs[s.uses[u].b].id in s.latest
    ensures Apply(s, Fill(u)).bufs[s.uses[u].b].data == s.latest[s.bufs[s.uses[u].b].id]
  {
    var b, refs := s.uses[u].b, Counts(|s.bufs|, s.uses);
    assert UseOk(s.bufs, s.uses[u]);
    CountsMove(|s.bufs|, s.uses, u, Holding);
    hide Coherent, Attributed, Counts;
    FillStaysCoherent(s.bufs, s.disk, s.latest, refs, s.pins, b);
    assert refs[b := refs[b]] == refs;
    MoveAttributed(s, u, Holding, s.bufs[b].(valid := true, data := s.latest[s.bufs[b].id]));
    assert Apply(s, Fill(u)).bufs == s.bufs[b := s.bufs[b].(valid := true, data := s.latest[s.bufs[b].id])];
  }

  lemma UnlockKeeps(s: State, u: nat)
    requires Inv(s) && Enabled(s, Unlock(u))
    ensures Inv(Apply(s, Unlock(u)))
  {
    hide Coherent, Attributed, Counts;
    var b, refs := s.uses[u].b, Counts(|s.bufs|, s.uses);
    SameKeys(s);
    CountsMove(|s.bufs|, s.uses, u, Releasing);
    MoveAttributed(s, u, Releasing, s.bufs[b].(owner := None));
    UnlockStaysCoherent(s.bufs, s.disk, s.latest, refs, s.pins, b);
    assert refs[b := refs[b]] == refs;
  }

  lemma SameKeys(s: State)
    requires Inv(s)
    ensures s.latest.Keys == s.disk.Keys && |Counts(|s.bufs|, s.uses)| == |s.bufs|
  {
  }

  lemma UnrefKeeps(s: State, u: nat)
    requires Inv(s) && Enabled(s, Unref(u))
    ensures Inv(Apply(s, Unref(u)))
  {
    hide Coherent, Attributed, Counts;
    SameKeys(s);
    UsedIsReferenced(s, u);
    OwnerCounts(s.bufs, s.uses, u);
    CountsDrop(|s.bufs|, s.uses, u);
    UnrefAttributed(s, u);
    UnrefStaysCoherent(s.bufs, s.disk, s.latest, Counts(|s.bufs|, s.uses), s.pins, s.uses[u].b);
  }

  lemma UnrefAttributed(s: State, u: nat)
    requires Inv(s) && Enabled(s, Unref(u))
    ensures Attributed(Apply(s, Unref(u)).bufs, Apply(s, Unref(u)).uses)
  {
    hide Coherent, Counts;
    var t := Apply(s, Unref(u));
    forall x | x in t.uses ensures UseOk(t.bufs, t.uses[x]) {
      assert UseOk(s.bufs, s.uses[x]);
    }
    forall c | 0 <= c < |t.bufs| && t.bufs[c].owner.Some? ensures OwnedBy(t.uses, c) {
      assert OwnedBy(s.uses, c);
      var x :| x in s.uses && s.uses[x].b == c && Owns(s.uses[x].at);
      assert t.uses[x] == s.uses[x];
    }
  }

  // A change of a buffer that keeps its block, its lock and its validity.
  lemma ChangeAttributed(bufs: seq<Buf>, uses: map<nat, Use>, b: nat, v: Buf)
    requires Attributed(bufs, uses) && b < |bufs|
    requires v.id == bufs[b].id && v.owner == bufs[b].owner && v.valid == bufs[b].valid
    ensures Attributed(bufs[b := v], uses)
  {
    forall x | x in uses ensures UseOk(bufs[b := v], uses[x]) {
      assert UseOk(bufs, uses[x]);
    }
  }

  lemma StoreKeeps(s: State, b: nat, p: nat, v: Block)
    requires Inv(s) && Enabled(s, Store(b, p, v))
    ensures Inv(Apply(s, Store(b, p, v)))
  {
    hide Coherent, Attributed, Counts;
    StoreStaysCoherent(s.bufs, s.disk, s.latest, Counts(|s.bufs|, s.uses), s.pins, b, v);
    ChangeAttributed(s.bufs, s.uses, b, s.bufs[b].(data := v));
  }

  lemma WriteKeeps(s: State, b: nat, p: nat)
    requires Inv(s) && Enabled(s, Write(b, p))
    ensures Inv(Apply(s, Write(b, p)))
  {
    hide Coherent, Attributed, Counts;
    FlushStaysCoherent(s.bufs, s.disk, s.latest, Counts(|s.bufs|, s.uses), s.pins, b);
  }

  lemma PinKeeps(s: State, b: nat)
    requires Inv(s) && Enabled(s, Pin(b))
    ensures Inv(Apply(s, Pin(b)))
  {
    hide Coherent, Attributed, Counts;
    PinStaysCoherent(s.bufs, s.disk, s.latest, Counts(|s.bufs|, s.uses), s.pins, b);
    ChangeAttributed(s.bufs, s.uses, b, s.bufs[b].(refcnt := s.bufs[b].refcnt + 1));
  }

  lemma UnpinKeeps(s: State, b: nat)
    requires Inv(s) && Enabled(s, Unpin(b))
    ensures Inv(Apply(s, Unpin(b)))
  {
    hide Coherent, Attributed, Counts;
    UnpinStaysCoherent(s.bufs, s.disk, s.latest, Counts(|s.bufs|, s.uses), s.pins, b);
    ChangeAttributed(s.bufs, s.uses, b, s.bufs[b].(refcnt := s.bufs[b].refcnt - 1));
  }

  lemma StepKeepsInv(s: State, a: Action)
    requires Inv(s) && Enabled(s, a)
    ensures Inv(Apply(s, a))
  {
    hide Inv, Apply;
    match a {
      case Get(u, p, id, b) => GetKeeps(s, u, p, id, b);
      case Acquire(u) => AcquireKeeps(s, u);
      case Fill(u) => FillKeeps(s, u);
      case Store(b, p, v) => StoreKeeps(s, b, p, v);
      case Write(b, p) => WriteKeeps(s, b, p);
      case Pin(b) => PinKeeps(s, b);
      case Unpin(b) => UnpinKeeps(s, b);
      case Unlock(u) => UnlockKeeps(s, u);
      case Unref(u) => UnrefKeeps(s, u);
    }
  }

  // --- what the code of the cache relies on ---

  lemma {:induction false} FreshKey(keys: set<nat>) returns (u: nat)
    ensures forall k :: k in keys ==> k < u
  {
    if keys == {} {
      u := 0;
    } else {
      var k :| k in keys;
      var v := FreshKey(keys - {k});
      u := if k < v then v else k + 1;
      assert forall x :: x in keys ==> x == k || x in keys - {k};
    }
  }

  lemma ValidIsOnDevice(s: State, b: nat)
    requires Inv(s) && b < |s.bufs| && s.bufs[b].valid
    ensures s.bufs[b].id in s.disk && s.bufs[b].id in s.latest && s.bufs[b].data == s.latest[s.bufs[b].id]
  {
    assert BufOk(s.bufs[b], Counts(|s.bufs|, s.uses)[b], s.disk, s.latest, s.pins);
  }

  // The use that took the lock.
  lemma OwnerUse(s: State, b: nat) returns (u: nat)
    requires Inv(s) && b < |s.bufs| && s.bufs[b].owner.Some?
    ensures u in s.uses && s.uses[u].b == b && Owns(s.uses[u].at) && s.bufs[b].owner == Some(s.uses[u].proc)
  {
    assert OwnedBy(s.uses, b);
    u :| u in s.uses && s.uses[u].b == b && Owns(s.uses[u].at);
    assert UseOk(s.bufs, s.uses[u]);
  }

  lemma OwnerIsReferenced(s: State, b: nat)
    requires Inv(s) && b < |s.bufs| && s.bufs[b].owner.Some?
    ensures s.bufs[b].refcnt > 0 && s.bufs[b].id in s.disk && s.bufs[b].id.dev != 0
  {
    var u := OwnerUse(s, b);
    UsedIsReferenced(s, u);
    assert UseOk(s.bufs, s.uses[u]);
  }

  // No other buffer holds the same block.
  lemma OnlyBuffer(s: State, b: nat)
    requires Inv(s) && b < |s.bufs| && s.bufs[b].id.dev != 0
    ensures forall i :: 0 <= i < |s.bufs| && s.bufs[i].id == s.bufs[b].id ==> i == b
  {
  }

  // --- every run ---

  ghost predicate Run(trace: seq<State>, actions: seq<Action>) {
    && |trace| == |actions| + 1
    && forall i :: 0 <= i < |actions| ==> Enabled(trace[i], actions[i]) && trace[i + 1] == Apply(trace[i], actions[i])
  }

  // binit over a device with these contents
  function Start(n: nat, device: Disk): State {
    State(seq(n, _ => Buf(false, Id(0, 0), 0, None, ZeroBlock())), device, device, multiset{}, map[])
  }

  lemma StartInv(n: nat, device: Disk)
    ensures Inv(Start(n, device))
  {
    EmptyIsCoherent(n, device);
    assert Counts(n, map[]) == seq(n, _ => 0) by {
      assert forall b: nat :: UsersOf(map[], b) == {};
    }
  }

  lemma {:induction false} RunKeepsInv(n: nat, device: Disk, trace: seq<State>, actions: seq<Action>, i: nat)
    requires Run(trace, actions) && trace[0] == Start(n, device) && i < |trace|
    ensures Inv(trace[i])
  {
    hide Inv, Start, Apply, Enabled;
    if i == 0 {
      StartInv(n, device);
    } else {
      RunKeepsInv(n, device, trace, actions, i - 1);
      StepKeepsInv(trace[i - 1], actions[i - 1]);
    }
  }

  // What the last store to a buffer of block id, among the first i steps, put
  // there; what the device had if there was none.
  ghost function LastStored(device: Disk, trace: seq<State>, actions: seq<Action>, i: nat, id: Id): Option<Block>
    requires i <= |actions| && i <= |trace|
  {
    if i == 0 then (if id in device then Some(device[id]) else None)
    else
      var a := actions[i - 1];
      if a.Store? && a.b < |trace[i - 1].bufs| && trace[i - 1].bufs[a.b].id == id then Some(a.v)
      else LastStored(device, trace, actions, i - 1, id)
  }

  lemma {:induction false} LatestIsLastStored(n: nat, device: Disk, trace: seq<State>, actions: seq<Action>, i: nat,
                                              id: Id)
    requires Run(trace, actions) && trace[0] == Start(n, device) && i < |trace|
    ensures LastStored(device, trace, actions, i, id) ==
      if id in trace[i].latest then Some(trace[i].latest[id]) else None
  {
    hide Apply;
    if i > 0 {
      LatestIsLastStored(n, device, trace, actions, i - 1, id);
      LatestAfter(trace[i - 1], actions[i - 1], id);
    }
  }

  lemma LatestAfter(s: State, a: Action, id: Id)
    requires Enabled(s, a)
    ensures var t := Apply(s, a);
      if a.Store? && s.bufs[a.b].id == id then id in t.latest && t.latest[id] == a.v
      else (id in t.latest <==> id in s.latest) && (id in s.latest ==> t.latest[id] == s.latest[id])
  {
  }

  // Transparency: whatever the other processes did while it waited, a process
  // past bread of a block has it in a valid buffer, alone, with the contents
  // stored last; and no second buffer holds the block.
  lemma BreadReturnsLatest(n: nat, device: Disk, trace: seq<State>, actions: seq<Action>, i: nat, u: nat)
    requires Run(trace, actions) && trace[0] == Start(n, device) && i < |trace|
    requires u in trace[i].uses && trace[i].uses[u].at.Holding?
    ensures var s, x := trace[i], trace[i].uses[u];
      && x.b < |s.bufs| && x.id in s.latest
      && s.bufs[x.b].valid && s.bufs[x.b].id == x.id && s.bufs[x.b].data == s.latest[x.id]
      && LastStored(device, trace, actions, i, x.id) == Some(s.bufs[x.b].data)
      && s.bufs[x.b].owner == Some(x.proc)
      && (forall v :: v in s.uses && v != u && s.uses[v].id == x.id ==> s.uses[v].b == x.b && !Owns(s.uses[v].at))
  {
    RunKeepsInv(n, device, trace, actions, i);
    HoldingIsLatest(trace[i], u);
    LatestIsLastStored(n, device, trace, actions, i, trace[i].uses[u].id);
  }

  lemma HoldingIsLatest(s: State, u: nat)
    requires Inv(s) && u in s.uses && s.uses[u].at.Holding?
    ensures var x := s.uses[u];
      && x.b < |s.bufs| && x.id in s.latest
      && s.bufs[x.b].valid && s.bufs[x.b].id == x.id && s.bufs[x.b].data == s.latest[x.id]
      && s.bufs[x.b].owner == Some(x.proc)
      && (forall v :: v in s.uses && v != u && s.uses[v].id == x.id ==> s.uses[v].b == x.b && !Owns(s.uses[v].at))
  {
    var x := s.uses[u];
    UsedIsReferenced(s, u);
    assert UseOk(s.bufs, x);
    assert BufOk(s.bufs[x.b], Counts(|s.bufs|, s.uses)[x.b], s.disk, s.latest, s.pins);
    forall v | v in s.uses && v != u && s.uses[v].id == x.id ensures s.uses[v].b == x.b {
      assert UseOk(s.bufs, s.uses[v]);
    }
  }

  // A waiting process takes the lock as soon as it is free, bread then ends,
  // and a brelse that has begun can be finished: refcnt never underflows.
  lemma UseGoesOn(n: nat, device: Disk, trace: seq<State>, actions: seq<Action>, i: nat, u: nat)
    requires Run(trace, actions) && trace[0] == Start(n, device) && i < |trace| && u in trace[i].uses
    ensures var s, x := trace[i], trace[i].uses[u];
      && x.b < |s.bufs| && s.bufs[x.b].refcnt > 0 && s.bufs[x.b].id == x.id
      && (x.at.Waiting? && s.bufs[x.b].owner.None? ==> Enabled(s, Acquire(u)))
      && (x.at.Locked? ==> Enabled(s, Fill(u)))
      && (x.at.Releasing? ==> Enabled(s, Unref(u)))
  {
    RunKeepsInv(n, device, trace, actions, i);
    UsedIsReferenced(trace[i], u);
  }
}
