/** The code of the buffer cache (kernel/bio.c). Every method from Bget to
    DropRef is one piece that the source performs under a lock and is proved to
    be one step of the transition system in Cache, whose runs are all
    interleavings of processes. */
module Bio {
  import opened Blocks
  import opened Cache
  import opened Lru

  // The list visits every buffer, most recently released first.
  ghost predicate Recency(n: nat, order: seq<nat>, stamps: seq<nat>, now: nat) {
    && |stamps| == n
    && (forall b :: 0 <= b < n ==> b in order)
    && (forall b :: 0 <= b < n ==> stamps[b] < now)
    && (forall i :: 0 <= i < |order| ==> order[i] < n)
    && (forall i, j :: 0 <= i < j < |order| ==> stamps[order[i]] > stamps[order[j]])
  }

  lemma PositionOf(n: nat, order: seq<nat>, stamps: seq<nat>, now: nat, b: nat) returns (k: nat)
    requires Recency(n, order, stamps, now) && b < n
    ensures k < |order| && order[k] == b
  {
    assert b in order;
    k :| k < |order| && order[k] == b;
  }

  lemma RecencyOfFront(n: nat, order: seq<nat>, stamps: seq<nat>, now: nat, k: nat)
    requires Recency(n, order, stamps, now) && k < |order|
    ensures Recency(n, [order[k]] + Without(order, k), stamps[order[k] := now], now + 1)
  {
    var b := order[k];
    var order' := [b] + Without(order, k);
    forall x | 0 <= x < n ensures x in order' {
      assert x in order;
      var i :| 0 <= i < |order| && order[i] == x;
      assert i == k || order'[if i < k then i + 1 else i] == x;
    }
  }

  // What bread comes to: the buffer, a sleep on its lock, or the panic.
  datatype Reading = NoBuffers | Waits(b: nat) | Got(b: nat)

  ghost predicate Stepped(s: Cache.State, a: Action, t: Cache.State) {
    Enabled(s, a) && t == Apply(s, a)
  }

  class Bcache {
    const n: nat                 // NBUF
    var bufs: seq<Buf>
    var next: seq<nat>
    var prev: seq<nat>
    var disk: Disk               // the device behind virtio_disk_rw
    ghost var latest: Disk
    ghost var uses: map<nat, Use>
    ghost var pins: multiset<Id>
    ghost var order: seq<nat>    // buffers along the list
    ghost var stamps: seq<nat>   // when each buffer was last moved to the front
    ghost var now: nat
    ghost var trace: seq<Disk>   // the device after each write so far

    ghost predicate Valid()
      reads this
    {
      && |bufs| == n && latest.Keys == disk.Keys
      && Inv(View())
      && Linked(n, next, prev, order)
      && Recency(n, order, stamps, now)
    }

    ghost function View(): Cache.State
      reads this
    {
      State(bufs, disk, latest, pins, uses)
    }

    // The number of bget references to each buffer.
    ghost function Refs(): seq<nat>
      reads this
    {
      Counts(|bufs|, uses)
    }

    // binit
    constructor (nbuf: nat, device: Disk)
      ensures Valid() && n == nbuf && disk == latest == device && pins == multiset{} && trace == []
      ensures View() == Start(nbuf, device)
      ensures forall i :: 0 <= i < n ==> bufs[i] == Buf(false, Id(0, 0), 0, None, ZeroBlock())
    {
      n := nbuf;
      bufs := seq(nbuf, _ => Buf(false, Id(0, 0), 0, None, ZeroBlock()));
      disk, latest := device, device;
      uses, pins, trace := map[], multiset{}, [];
      next, prev := seq(nbuf + 1, _ => nbuf), seq(nbuf + 1, _ => nbuf);
      order, stamps, now := [], seq(nbuf, i => i), nbuf;
      new;
      hide Inv;
      StartInv(nbuf, device);
      ghost var stamps0, bufs0 := stamps, bufs;
      var b := 0;
      while b < n
        invariant 0 <= b <= n && Linked(n, next, prev, order)
        invariant |order| == b && forall i :: 0 <= i < b ==> order[i] == b - 1 - i
        invariant bufs == bufs0 && uses == map[] && stamps == stamps0 && now == n
        invariant disk == latest == device && pins == multiset{} && trace == []
      {
        PushLinksFront(n, next, prev, order, b);
        next := next[b := next[n]];
        prev := prev[b := n];
        prev := prev[next[n] := b];
        next := next[n := b];
        order := [b] + order;
        b := b + 1;
      }
      forall b | 0 <= b < n ensures b in order {
        assert order[n - 1 - b] == b;
      }
    }

    ghost predicate Present(id: Id)
      reads this
    {
      exists i :: 0 <= i < |bufs| && bufs[i].id == id
    }

    // The first loop of bget: walk from the head looking for the block.
    method FindCached(id: Id) returns (b: nat)
      requires Valid()
      ensures b <= n
      ensures b < n ==> bufs[b].id == id
      ensures b == n ==> !Present(id)
    {
      b := next[n];
      ghost var d, k := Closed(n, order), 0;
      assert Edge(next, prev, d[0], d[1]);
      while b != n
        invariant 0 <= k <= |order| && b == d[k + 1]
        invariant forall i :: 0 <= i < k ==> bufs[order[i]].id != id
        decreases |order| - k
      {
        if bufs[b].id == id {
          return;
        }
        assert Edge(next, prev, d[k + 1], d[k + 1 + 1]);
        b := next[b];
        k := k + 1;
      }
      forall i | 0 <= i < n ensures bufs[i].id != id {
        assert i in order;
      }
    }

    // The second loop of bget: walk back from the tail to an unreferenced buffer.
    method FindUnused() returns (b: nat)
      requires Valid()
      ensures b <= n
      ensures b == n <==> forall i :: 0 <= i < n ==> bufs[i].refcnt > 0
      ensures b < n ==> bufs[b].refcnt == 0
      ensures b < n ==> forall i :: 0 <= i < n && i != b && bufs[i].refcnt == 0 ==> stamps[i] > stamps[b]
    {
      hide Inv;
      b := prev[n];
      ghost var d, k := Closed(n, order), |order|;
      assert Edge(next, prev, d[k], d[k + 1]);
      while b != n
        invariant 0 <= k <= |order| && b == d[k]
        invariant forall i :: k <= i < |order| ==> bufs[order[i]].refcnt > 0
        decreases k
      {
        if bufs[b].refcnt == 0 {
          OldestAfter(k - 1);
          return;
        }
        assert Edge(next, prev, d[k - 1], d[k - 1 + 1]);
        b := prev[b];
        k := k - 1;
      }
      forall i | 0 <= i < n ensures bufs[i].refcnt > 0 {
        assert i in order;
      }
    }

    lemma OldestAfter(k: nat)
      requires Valid() && k < |order|
      requires forall i :: k < i < |order| ==> bufs[order[i]].refcnt > 0
      ensures forall b :: 0 <= b < n && b != order[k] && bufs[b].refcnt == 0 ==> stamps[b] > stamps[order[k]]
    {
      forall b | 0 <= b < n && b != order[k] && bufs[b].refcnt == 0
        ensures stamps[b] > stamps[order[k]]
      {
        assert b in order;
        var i :| 0 <= i < |order| && order[i] == b;
      }
    }

    // A number for a new use.
    lemma FreshUse() returns (u: nat)
      ensures u !in uses
    {
      u := FreshKey(uses.Keys);
    }

    // bget, up to `release(&bcache.lock)`. None is the "no buffers" panic.
    method Bget(me: nat, id: Id) returns (r: Option<nat>, ghost u: nat)
      requires Valid() && id.dev != 0 && id in disk
      modifies this`bufs, this`uses
      ensures Valid()
      ensures r.None? <==> !old(Present(id)) && forall i :: 0 <= i < n ==> old(bufs[i].refcnt) > 0
      ensures r.None? ==> bufs == old(bufs) && uses == old(uses)
      ensures r.Some? ==> r.value < n && uses == old(uses)[u := Use(me, r.value, id, Waiting)]
      ensures r.Some? ==> Stepped(old(View()), Get(u, me, id, r.value), View())
      ensures r.Some? && old(Present(id)) ==>
        var b := old(bufs)[r.value];
        b.id == id && bufs == old(bufs)[r.value := b.(refcnt := b.refcnt + 1)]
      // A miss recycles the least recently released unreferenced buffer, and
      // its old block is intact on the device.
      ensures r.Some? && !old(Present(id)) ==>
        var b := old(bufs)[r.value];
        && b.refcnt == 0 && b.owner.None? && (b.id in disk ==> disk[b.id] == latest[b.id])
        && bufs == old(bufs)[r.value := b.(valid := false, id := id, refcnt := 1)]
        && forall i :: 0 <= i < n && i != r.value && old(bufs)[i].refcnt == 0 ==> stamps[i] > stamps[r.value]
    {
      hide Inv, Linked, Recency;
      u := FreshUse();
      var b := FindCached(id);
      if b < n {
        Reference(b, me, u);
        return Some(b), u;
      }
      b := FindUnused();
      if b < n {
        Recycle(b, id, me, u);
        return Some(b), u;
      }
      return None, u;
    }

    // `b->refcnt++` on a hit.
    method Reference(b: nat, me: nat, ghost u: nat)
      requires Valid() && b < n && bufs[b].id.dev != 0 && bufs[b].id in disk && u !in uses
      modifies this`bufs, this`uses
      ensures Valid() && Stepped(old(View()), Get(u, me, old(bufs)[b].id, b), View())
      ensures uses == old(uses)[u := Use(me, b, old(bufs)[b].id, Waiting)]
      ensures bufs == old(bufs)[b := old(bufs)[b].(refcnt := old(bufs)[b].refcnt + 1)]
    {
      hide Inv, Linked, Recency;
      StepKeepsInv(View(), Get(u, me, bufs[b].id, b));
      uses := uses[u := Use(me, b, bufs[b].id, Waiting)];
      bufs := bufs[b := bufs[b].(refcnt := bufs[b].refcnt + 1)];
    }

    // A miss: the buffer takes on the new block.
    method Recycle(b: nat, id: Id, me: nat, ghost u: nat)
      requires Valid() && id.dev != 0 && id in disk && !Present(id) && u !in uses
      requires b < n && bufs[b].refcnt == 0
      modifies this`bufs, this`uses
      ensures Valid() && Stepped(old(View()), Get(u, me, id, b), View())
      ensures uses == old(uses)[u := Use(me, b, id, Waiting)]
      ensures old(bufs)[b].owner.None?
      ensures old(bufs)[b].id in disk ==> disk[old(bufs)[b].id] == latest[old(bufs)[b].id]
      ensures bufs == old(bufs)[b := old(bufs)[b].(valid := false, id := id, refcnt := 1)]
    {
      hide Linked, Recency, Coherent, Attributed;
      RecycleStaysCoherent(bufs, disk, latest, Refs(), pins, b, id);
      StepKeepsInv(View(), Get(u, me, id, b));
      bufs := bufs[b := bufs[b].(id := id)];
      bufs := bufs[b := bufs[b].(valid := false)];
      bufs := bufs[b := bufs[b].(refcnt := 1)];
      uses := uses[u := Use(me, b, id, Waiting)];
      assert bufs == old(bufs)[b := old(bufs)[b].(valid := false, id := id, refcnt := 1)];
    }

    // acquiresleep(&b->lock), at the step that takes the lock.
    method Lock(b: nat, me: nat, ghost u: nat)
      requires Valid() && b < n && bufs[b].owner.None?
      requires u in uses && uses[u].at.Waiting? && uses[u].b == b && uses[u].proc == me
      modifies this`bufs, this`uses
      ensures Valid() && Stepped(old(View()), Acquire(u), View())
      ensures bufs == old(bufs)[b := old(bufs)[b].(owner := Some(me))]
      ensures uses == old(uses)[u := old(uses)[u].(at := Locked)]
    {
      hide Inv, Linked, Recency;
      StepKeepsInv(View(), Acquire(u));
      bufs := bufs[b := bufs[b].(owner := Some(me))];
      uses := uses[u := uses[u].(at := Locked)];
    }

    // The rest of bread: read the block from the device unless it is cached.
    method FillIn(b: nat, ghost u: nat)
      requires Valid() && b < n && u in uses && uses[u].at.Locked? && uses[u].b == b
      modifies this`bufs, this`uses
      ensures Valid() && bufs[b].id in latest && Stepped(old(View()), Fill(u), View())
      ensures bufs == old(bufs)[b := old(bufs)[b].(valid := true, data := latest[bufs[b].id])]
      ensures uses == old(uses)[u := old(uses)[u].(at := Holding)]
    {
      hide Inv, Linked, Recency;
      UsedIsReferenced(View(), u);
      StepKeepsInv(View(), Fill(u));
      FillKeeps(View(), u);
      if !bufs[b].valid {
        bufs := bufs[b := bufs[b].(data := disk[bufs[b].id])];
        bufs := bufs[b := bufs[b].(valid := true)];
      }
      uses := uses[u := uses[u].(at := Holding)];
      assert View() == Apply(old(View()), Fill(u));
    }

    // The holder of the buffer overwrites `b->data`.
    method Change(b: nat, me: nat, v: Block)
      requires Valid() && b < n && bufs[b].owner == Some(me) && bufs[b].valid
      modifies this`bufs, this`latest
      ensures Valid() && Stepped(old(View()), Store(b, me, v), View())
      ensures bufs == old(bufs)[b := old(bufs)[b].(data := v)]
      ensures bufs[b].id in disk && latest == old(latest)[bufs[b].id := v]
    {
      hide Inv, Linked, Recency;
      StepKeepsInv(View(), Store(b, me, v));
      ValidIsOnDevice(View(), b);
      latest := latest[bufs[b].id := v];
      bufs := bufs[b := bufs[b].(data := v)];
    }

    // bwrite: false is the panic of a caller without the lock.
    method Bwrite(b: nat, me: nat) returns (ok: bool)
      requires Valid() && b < n && (bufs[b].owner == Some(me) ==> bufs[b].valid)
      modifies this`disk, this`trace
      ensures Valid() && ok == (bufs[b].owner == Some(me))
      ensures !ok ==> disk == old(disk) && trace == old(trace)
      ensures ok ==> bufs[b].id in latest && Stepped(old(View()), Write(b, me), View())
      ensures ok ==> disk == old(disk)[bufs[b].id := latest[bufs[b].id]] && trace == old(trace) + [disk]
    {
      hide Inv, Linked, Recency;
      if bufs[b].owner != Some(me) {
        return false;
      }
      StepKeepsInv(View(), Write(b, me));
      ValidIsOnDevice(View(), b);
      disk := disk[bufs[b].id := bufs[b].data];
      trace := trace + [disk];
      ok := true;
    }

    // bpin
    method Bpin(b: nat)
      requires Valid() && b < n && bufs[b].valid
      modifies this`bufs, this`pins
      ensures Valid() && Stepped(old(View()), Pin(b), View()) && pins == old(pins) + multiset{bufs[b].id}
      ensures bufs == old(bufs)[b := old(bufs)[b].(refcnt := old(bufs)[b].refcnt + 1)]
    {
      hide Inv, Linked, Recency;
      StepKeepsInv(View(), Pin(b));
      pins := pins + multiset{bufs[b].id};
      bufs := bufs[b := bufs[b].(refcnt := bufs[b].refcnt + 1)];
    }

    // bunpin, by the holder of the buffer
    method Bunpin(b: nat)
      requires Valid() && b < n && bufs[b].id in pins && bufs[b].owner.Some?
      modifies this`bufs, this`pins
      ensures Valid() && pins == old(pins) - multiset{bufs[b].id} && old(bufs)[b].refcnt > 0
      ensures Stepped(old(View()), Unpin(b), View())
      ensures bufs == old(bufs)[b := old(bufs)[b].(refcnt := old(bufs)[b].refcnt - 1)]
    {
      hide Inv, Linked, Recency;
      OwnerIsReferenced(View(), b);
      StepKeepsInv(View(), Unpin(b));
      pins := pins - multiset{bufs[b].id};
      bufs := bufs[b := bufs[b].(refcnt := bufs[b].refcnt - 1)];
    }

    // brelse, up to releasesleep: a changed buffer was logged (pinned) or
    // written first. The use is the one that took the lock.
    method GiveUpLock(b: nat, me: nat) returns (ok: bool, ghost u: nat)
      requires Valid() && b < n && (bufs[b].owner == Some(me) ==> Saved(View(), bufs[b].id))
      modifies this`bufs, this`uses
      ensures Valid() && ok == (old(bufs)[b].owner == Some(me))
      ensures !ok ==> bufs == old(bufs) && uses == old(uses)
      ensures ok ==> u in old(uses) && old(uses)[u].b == b && old(uses)[u].proc == me && Owns(old(uses)[u].at)
      ensures ok ==> Stepped(old(View()), Unlock(u), View()) && uses == old(uses)[u := old(uses)[u].(at := Releasing)]
      ensures ok ==> bufs == old(bufs)[b := old(bufs)[b].(owner := None)]
    {
      hide Inv, Linked, Recency;
      if bufs[b].owner != Some(me) {
        return false, 0;
      }
      u := OwnerUse(View(), b);
      StepKeepsInv(View(), Unlock(u));
      bufs := bufs[b := bufs[b].(owner := None)];
      uses := uses[u := uses[u].(at := Releasing)];
      ok := true;
    }

    // The rest of brelse: drop the reference; the last one out moves the
    // buffer to the most-recently-used end of the list.
    method DropRef(b: nat, ghost u: nat)
      requires Valid() && b < n && u in uses && uses[u].at.Releasing? && uses[u].b == b
      modifies this`bufs, this`uses, this`next, this`prev, this`order, this`stamps, this`now
      ensures Valid() && uses == old(uses) - {u} && old(bufs)[b].refcnt > 0
      ensures Stepped(old(View()), Unref(u), View())
      ensures bufs == old(bufs)[b := old(bufs)[b].(refcnt := old(bufs)[b].refcnt - 1)]
      ensures bufs[b].refcnt > 0 ==> order == old(order)
      ensures bufs[b].refcnt == 0 ==>
        exists k: nat :: k < |old(order)| && old(order)[k] == b && order == [b] + Without(old(order), k)
    {
      hide Inv, Linked, Recency;
      UsedIsReferenced(View(), u);
      StepKeepsInv(View(), Unref(u));
      bufs := bufs[b := bufs[b].(refcnt := bufs[b].refcnt - 1)];
      uses := uses - {u};
      if bufs[b].refcnt == 0 {
        ghost var k := PositionOf(n, order, stamps, now, b);
        MoveToFront(b, k);
      }
    }

    method MoveToFront(b: nat, ghost k: nat)
      requires Linked(n, next, prev, order) && Recency(n, order, stamps, now)
      requires k < |order| && order[k] == b
      modifies this`next, this`prev, this`order, this`stamps, this`now
      ensures Linked(n, next, prev, order) && Recency(n, order, stamps, now)
      ensures order == [b] + Without(old(order), k)
      ensures stamps == old(stamps)[b := old(now)]
    {
      ghost var rest := Without(order, k);
      UnlinkKeepsRest(n, next, prev, order, k);
      PushLinksFront(n, next[prev[b] := next[b]], prev[next[b] := prev[b]], rest, b);
      RecencyOfFront(n, order, stamps, now, k);
      assert next[b] != b;
      hide Linked, Recency;
      prev := prev[next[b] := prev[b]];
      next := next[prev[b] := next[b]];
      next := next[b := next[n]];
      prev := prev[b := n];
      prev := prev[next[n] := b];
      next := next[n := b];
      order := [b] + rest;
      stamps := stamps[b := now];
      now := now + 1;
    }

    // bread: the buffer with the block's latest contents, or the panic of
    // bget, or another process holds the block; then this one has its
    // reference and sleeps until Resume.
    method Bread(me: nat, id: Id) returns (r: Reading, ghost u: nat)
      requires Valid() && id.dev != 0 && id in disk
      modifies this`bufs, this`uses
      ensures Valid()
      ensures r.NoBuffers? <==> !old(Present(id)) && forall i :: 0 <= i < n ==> old(bufs)[i].refcnt > 0
      ensures r.NoBuffers? ==> bufs == old(bufs) && uses == old(uses)
      ensures r.Waits? <==> exists i :: 0 <= i < n && old(bufs)[i].id == id && old(bufs)[i].owner.Some?
      ensures !r.NoBuffers? ==> var b := r.b;
        && b < n && u !in old(uses) && uses == old(uses)[u := Use(me, b, id, if r.Waits? then Waiting else Holding)]
        && bufs == old(bufs)[b := bufs[b]] && bufs[b].refcnt == old(bufs)[b].refcnt + 1
        && (old(bufs)[b].id == id || old(bufs)[b].refcnt == 0)
      ensures r.Waits? ==> bufs[r.b] == old(bufs)[r.b].(refcnt := old(bufs)[r.b].refcnt + 1)
      ensures r.Got? ==> Has(r.b, me, id) && old(bufs)[r.b].owner.None?
    {
      hide Inv, Linked, Recency;
      var got: Option<nat>;
      got, u := Bget(me, id);
      if got.None? {
        return NoBuffers, u;
      }
      OnlyBuffer(View(), got.value);
      assert forall i :: 0 <= i < n && old(bufs)[i].id == id ==>
        bufs[i].id == id && bufs[i].owner == old(bufs)[i].owner;
      if bufs[got.value].owner.Some? {
        return Waits(got.value), u;
      }
      Resume(got.value, me, u);
      return Got(got.value), u;
    }

    // `me` holds buffer b, and it is what the block was last made.
    ghost predicate Has(b: nat, me: nat, id: Id)
      reads this
    {
      && b < |bufs| && bufs[b].valid && bufs[b].id == id && bufs[b].owner == Some(me)
      && id in latest && bufs[b].data == latest[id]
    }

    // The rest of bread once the lock is free. Nothing is asked about what
    // happened meanwhile: the use says which block the buffer still holds.
    method Resume(b: nat, me: nat, ghost u: nat)
      requires Valid() && b < n && bufs[b].owner.None?
      requires u in uses && uses[u].at.Waiting? && uses[u].b == b && uses[u].proc == me
      modifies this`bufs, this`uses
      ensures Valid() && Has(b, me, old(uses)[u].id) && uses == old(uses)[u := old(uses)[u].(at := Holding)]
      ensures bufs == old(bufs)[b := bufs[b]] && bufs[b].refcnt == old(bufs)[b].refcnt
    {
      hide Inv, Linked, Recency;
      UsedIsReferenced(View(), u);
      Lock(b, me, u);
      FillIn(b, u);
    }

    // brelse
    method Brelse(b: nat, me: nat) returns (ok: bool)
      requires Valid() && b < n && (bufs[b].owner == Some(me) ==> Saved(View(), bufs[b].id))
      modifies this`bufs, this`uses, this`next, this`prev, this`order, this`stamps, this`now
      ensures Valid() && ok == (old(bufs)[b].owner == Some(me))
      ensures !ok ==> bufs == old(bufs) && uses == old(uses)
      ensures ok ==>
        exists u :: u in old(uses) && old(uses)[u].b == b && old(uses)[u].proc == me && uses == old(uses) - {u}
      ensures ok ==> old(bufs)[b].refcnt > 0
      ensures ok ==> bufs == old(bufs)[b := old(bufs)[b].(owner := None, refcnt := old(bufs)[b].refcnt - 1)]
    {
      hide Inv, Linked, Recency;
      ghost var u;
      ok, u := GiveUpLock(b, me);
      if ok {
        DropRef(b, u);
        assert old(uses)[u := old(uses)[u].(at := Releasing)] - {u} == old(uses) - {u};
      }
    }
  }
}
