/** The virtio disk driver (kernel/virtio_disk.c) against a device that takes
    and completes requests at any time and in any order (sections 2.6 and 5.2
    of VIRTIO 1.1). Driver code runs under vdisk_lock; the device acts between
    any two of its stores to the queue, as calls of Device, and may stop
    anywhere between taking a request, carrying it out and reporting it. */
module Virtio {
  import opened Blocks
  import opened VirtQueue

  function Get(m: map<nat, nat>, k: nat): nat { if k in m then m[k] else 0 }

  // A process waiting in virtio_disk_rw for chain h to be done with buffer b.
  datatype Waiter = Waiter(h: nat, b: nat)

  // Every chain has one waiting process, which knows its head and its buffer.
  ghost predicate WaitOk(chains: map<nat, Chain>, waiting: map<nat, Waiter>) {
    && (forall p :: p in waiting ==> waiting[p].h in chains && chains[waiting[p].h].req.b == waiting[p].b)
    && (forall p, q :: p in waiting && q in waiting && waiting[p].h == waiting[q].h ==> p == q)
    && (forall h :: h in chains ==> Awaited(waiting, h))
  }

  ghost predicate Awaited(waiting: map<nat, Waiter>, h: nat) { exists p :: p in waiting && waiting[p].h == h }

  lemma WaitMore(chains: map<nat, Chain>, waiting: map<nat, Waiter>, p: nat, h: nat, c: Chain)
    requires WaitOk(chains, waiting) && p !in waiting && h !in chains
    ensures WaitOk(chains[h := c], waiting[p := Waiter(h, c.req.b)])
  {
    var waiting' := waiting[p := Waiter(h, c.req.b)];
    forall k | k in chains[h := c] ensures Awaited(waiting', k) {
      if k == h {
        assert waiting'[p].h == k;
      } else {
        assert Awaited(waiting, k);
        var q :| q in waiting && waiting[q].h == k;
        assert waiting'[q].h == k;
      }
    }
  }

  lemma WaitLess(chains: map<nat, Chain>, waiting: map<nat, Waiter>, p: nat)
    requires WaitOk(chains, waiting) && p in waiting
    ensures WaitOk(chains - {waiting[p].h}, waiting - {p})
  {
    forall k | k in chains - {waiting[p].h} ensures Awaited(waiting - {p}, k) {
      assert Awaited(waiting, k);
      var q :| q in waiting && waiting[q].h == k;
      assert q in waiting - {p};
    }
  }

  class Disk {
    // driver memory
    var free: seq<bool>
    var desc: seq<Desc>
    var ops: seq<Op>
    var info: seq<Info>
    var busy: set<nat>          // buffers with b->disk == 1
    var availRing: seq<nat>
    var availIdx: nat           // avail->idx, 16 bits
    var seen: nat               // used_idx, 16 bits
    // written by the device
    var usedRing: seq<nat>
    var usedIdx: nat            // used->idx, 16 bits
    var devAvail: nat           // how far the device has read the available ring, 16 bits
    var taken: set<nat>         // chains the device is working on
    var carried: set<nat>       // those of them it has carried out
    var sectors: map<nat, nat>  // contents of the disk
    var data: map<nat, nat>     // contents of the buffers

    ghost var owner: seq<Option<nat>>
    ghost var chains: map<nat, Chain>
    ghost var held: set<nat>
    ghost var waiting: map<nat, Waiter>
    ghost var posted: seq<nat>
    ghost var finished: seq<nat>
    ghost var done: set<nat>
    ghost var takenCount: nat   // unbounded counters behind the 16-bit indices
    ghost var seenCount: nat

    ghost predicate Sound()
      reads this
    {
      && QueueOk(free, desc, info, ops, owner, chains, held)
      && PhasesOk(chains, posted, taken, finished, done) && BusyOk(chains, busy, done) && carried <= taken
      && RingOk(availRing, devAvail, availIdx, takenCount, posted)
      && RingOk(usedRing, seen, usedIdx, seenCount, finished)
    }

    ghost predicate Valid()
      reads this
    {
      Sound() && WaitOk(chains, waiting)
    }

    constructor ()
      ensures Valid() && chains == map[] && waiting == map[] && held == {} && busy == {}
      ensures free == seq(NUM, _ => true)
    {
      free, desc, ops := seq(NUM, _ => true), seq(NUM, _ => ZERO), seq(NUM, _ => Op(false, 0));
      info, busy := seq(NUM, _ => Info(None, 0)), {};
      availRing, availIdx, seen, usedRing, usedIdx := seq(NUM, _ => 0), 0, 0, seq(NUM, _ => 0), 0;
      devAvail, taken, carried, sectors, data := 0, {}, {}, map[], map[];
      owner, chains, held, waiting := seq(NUM, _ => None), map[], {}, map[];
      posted, finished, done, takenCount, seenCount := [], [], {}, 0, 0;
    }

    // --- the device ---

    // What the device may change, as the driver sees it.
    twostate predicate DeviceActed()
      reads this
    {
      && free == old(free) && desc == old(desc) && ops == old(ops) && busy == old(busy)
      && availRing == old(availRing) && availIdx == old(availIdx) && seen == old(seen) && seenCount == old(seenCount)
      && owner == old(owner) && chains == old(chains) && held == old(held) && done == old(done)
      && |info| == |old(info)| && (forall i :: 0 <= i < |info| ==> info[i].b == old(info)[i].b)
      && old(finished) <= finished
      && takenCount + |posted| == old(takenCount) + |old(posted)| && |posted| <= |old(posted)|
      && (forall i :: 0 <= i < |info| && i in old(finished) ==> info[i] == old(info)[i])
    }

    // The device reads a new entry of the available ring.
    method DeviceTake()
      requires Sound()
      modifies this`devAvail, this`taken, this`posted, this`takenCount
      ensures Sound() && DeviceActed()
      ensures old(posted) != [] ==> taken == old(taken) + {old(posted)[0]} && posted == old(posted)[1..]
      ensures old(posted) == [] ==> taken == old(taken) && posted == []
    {
      hide QueueOk, PhasesOk, BusyOk, RingOk, Wrap16;
      RingEmpty(availRing, devAvail, availIdx, takenCount, posted);
      if devAvail != availIdx {
        RingRead(availRing, devAvail, availIdx, takenCount, posted);
        TakePhase(chains, posted, taken, finished, done);
        var h := availRing[devAvail % NUM];
        devAvail, taken := Wrap16(devAvail + 1), taken + {h};
        posted, takenCount := posted[1..], takenCount + 1;
      }
    }

    // The device carries out the request it reads from a chain's descriptors
    // and writes the status byte.
    method CarryOut(h: nat, status: nat)
      requires Sound() && h in taken && h !in carried
      modifies this`info, this`sectors, this`data, this`carried
      ensures Sound() && DeviceActed() && carried == old(carried) + {h}
      ensures h in chains && h < |old(info)| && info == old(info)[h := Info(Some(chains[h].req.b), status)]
      ensures var req := chains[h].req;
        && sectors ==
             (if status == 0 && req.write then old(sectors)[req.sector := Get(old(data), req.b)] else old(sectors))
        && data == (if status == 0 && !req.write then old(data)[req.b := Get(old(sectors), req.sector)] else old(data))
    {
      hide QueueOk, PhasesOk, BusyOk, RingOk, Wrap16;
      TakenFacts(chains, posted, taken, finished, done, h);
      ChainFacts(free, desc, info, ops, owner, chains, held, h);
      FormattedIsRead(desc, info, ops, h, chains[h]);
      var read := ChainRead(desc, ops, h);
      if read.Some? && read.value.1 < |info| {
        var (req, at) := read.value;
        if status == 0 {
          if req.write {
            sectors := sectors[req.sector := Get(data, req.b)];
          } else {
            data := data[req.b := Get(sectors, req.sector)];
          }
        }
        StatusWrite(free, desc, info, ops, owner, chains, held, h, status);
        info := info[at := info[at].(status := status)];
      }
      carried := carried + {h};
    }

    // The device puts a chain it has carried out in the used ring.
    method PutUsed(h: nat)
      requires Sound() && h in carried
      modifies this`usedRing, this`usedIdx, this`taken, this`carried, this`finished
      ensures Sound() && DeviceActed() && taken == old(taken) - {h} && finished == old(finished) + [h]
      ensures carried == old(carried) - {h}
    {
      hide QueueOk, PhasesOk, BusyOk, RingOk, Wrap16;
      TakenFacts(chains, posted, taken, finished, done, h);
      KeysInRange(free, desc, info, ops, owner, chains, held);
      PhasesRoom(chains, finished, h);
      RingFill(usedRing, seen, usedIdx, seenCount, finished, h);
      RingAdvance(usedRing[usedIdx % NUM := h], seen, usedIdx, seenCount, finished, h);
      FinishPhase(chains, posted, taken, finished, done, h);
      usedRing := usedRing[usedIdx % NUM := h];
      usedIdx, taken, carried := Wrap16(usedIdx + 1), taken - {h}, carried - {h};
      finished := finished + [h];
    }

    // Any number of device steps.
    method Device()
      requires Sound()
      modifies this`devAvail, this`posted, this`takenCount, this`info, this`usedRing, this`usedIdx, this`taken,
        this`carried, this`finished, this`sectors, this`data
      ensures Sound() && DeviceActed()
    {
      hide QueueOk, PhasesOk, BusyOk, RingOk, Wrap16;
      var steps: nat := *;
      while steps > 0
        invariant Sound() && DeviceActed()
      {
        var choice: nat := *;
        if choice == 0 {
          DeviceTake();
        } else if choice == 1 && taken - carried != {} {
          var h :| h in taken - carried;
          var status: nat := *;
          CarryOut(h, status);
        } else if carried != {} {
          var h :| h in carried;
          PutUsed(h);
        }
        steps := steps - 1;
      }
    }

    // --- the driver, inside vdisk_lock ---

    // alloc_desc
    method AllocDesc() returns (i: int)
      requires Sound()
      modifies this`free, this`held
      ensures Sound()
      ensures 0 <= i ==>
        && i < NUM && i !in old(held) && held == old(held) + {i} && |old(free)| == NUM && old(free)[i]
        && free == old(free)[i := false]
      ensures i < 0 ==> free == old(free) && held == old(held) && forall j :: 0 <= j < |free| ==> !free[j]
    {
      hide PhasesOk, BusyOk, RingOk, Wrap16;
      for k := 0 to NUM
        invariant free == old(free) && held == old(held) && |free| == NUM
        invariant forall j :: 0 <= j < k ==> !free[j]
      {
        if free[k] {
          TakeDesc(free, desc, info, ops, owner, chains, held, k);
          free := free[k := false];
          held := held + {k};
          return k;
        }
      }
      return -1;
    }

    // free_desc of a descriptor that this code holds: neither panic happens.
    method FreeDesc(i: nat) returns (panic: bool)
      requires Sound() && i in held
      modifies this`free, this`desc, this`held
      ensures Sound() && !panic && held == old(held) - {i}
      ensures |old(free)| == |old(desc)| == NUM && i < NUM && free == old(free)[i := true]
      ensures desc == old(desc)[i := ZERO]
    {
      hide QueueOk, PhasesOk, BusyOk, RingOk, Wrap16;
      KeysInRange(free, desc, info, ops, owner, chains, held);
      GiveDesc(free, desc, info, ops, owner, chains, held, i);
      if i >= NUM || free[i] {
        return true;
      }
      desc := desc[i := ZERO];
      free := free[i := true];
      held := held - {i};
      panic := false;
    }

    // alloc3_desc: succeeds exactly when three descriptors are free, and
    // changes nothing when it fails.
    method Alloc3Desc() returns (ok: bool, idx: seq<nat>)
      requires Sound() && held == {}
      modifies this`free, this`desc, this`held
      ensures Sound() && ok == (CountFree(old(free)) >= 3)
      ensures ok ==>
        && |idx| == 3 && held == {idx[0], idx[1], idx[2]} && idx[0] != idx[1] && idx[0] != idx[2] && idx[1] != idx[2]
        && desc == old(desc)
      ensures !ok ==> free == old(free) && held == {} && desc == old(desc)
    {
      hide QueueOk, PhasesOk, BusyOk, RingOk, Wrap16;
      KeysInRange(free, desc, info, ops, owner, chains, held);
      idx := [];
      for i := 0 to 3
        invariant |idx| == i && Sound() && desc == old(desc) && held == Elems(idx) && Distinct(idx)
        invariant CountFree(free) == CountFree(old(free)) - i && Borrowed(old(free), free, desc, held)
      {
        ghost var f, was := free, held;
        var x := AllocDesc();
        if x < 0 {
          CountNone(free);
          GiveBack(old(free), idx);
          return false, idx;
        }
        FreeIsBlank(f, desc, info, ops, owner, chains, was, x);
        CountTake(f, x);
        idx := idx + [x];
      }
      assert held == {idx[0], idx[1], idx[2]};
      ok := true;
    }

    // The failure path of alloc3_desc.
    method GiveBack(ghost f: seq<bool>, idx: seq<nat>)
      requires Sound() && held == Elems(idx) && Distinct(idx) && Borrowed(f, free, desc, held)
      modifies this`free, this`desc, this`held
      ensures Sound() && held == {} && desc == old(desc) && free == f
    {
      hide QueueOk, PhasesOk, BusyOk, RingOk, Wrap16;
      assert idx[0..] == idx;
      for j := 0 to |idx|
        invariant Sound() && held == Elems(idx[j..]) && desc == old(desc) && Borrowed(f, free, desc, held)
      {
        Tail(idx[j..]);
        assert idx[j..][0] == idx[j] && idx[j..][1..] == idx[j + 1..];
        var _ := FreeDesc(idx[j]);
        assert desc == old(desc);
      }
    }

    // A store to a descriptor that this code holds.
    method PutDesc(i: nat, d: Desc)
      requires Sound() && i in held
      modifies this`desc
      ensures Sound() && i < |old(desc)| && desc == old(desc)[i := d]
    {
      hide QueueOk, PhasesOk, BusyOk, RingOk, Wrap16;
      KeysInRange(free, desc, info, ops, owner, chains, held);
      WriteHeld(free, desc, info, ops, owner, chains, held, desc[i := d], info, ops);
      desc := desc[i := d];
    }

    method PutOp(i: nat, op: Op)
      requires Sound() && i in held
      modifies this`ops
      ensures Sound() && i < |old(ops)| && ops == old(ops)[i := op]
    {
      hide QueueOk, PhasesOk, BusyOk, RingOk, Wrap16;
      KeysInRange(free, desc, info, ops, owner, chains, held);
      WriteHeld(free, desc, info, ops, owner, chains, held, desc, info, ops[i := op]);
      ops := ops[i := op];
    }

    method PutInfo(i: nat, inf: Info)
      requires Sound() && i in held
      modifies this`info
      ensures Sound() && i < |old(info)| && info == old(info)[i := inf]
    {
      hide QueueOk, PhasesOk, BusyOk, RingOk, Wrap16;
      KeysInRange(free, desc, info, ops, owner, chains, held);
      WriteHeld(free, desc, info, ops, owner, chains, held, desc, info[i := inf], ops);
      info := info[i := inf];
    }

    // b->disk = 1
    method MarkBusy(b: nat)
      requires Sound() && forall k :: k in chains ==> chains[k].req.b != b
      modifies this`busy
      ensures Sound() && busy == old(busy) + {b}
    {
      BusyMore(chains, busy, done, b);
      busy := busy + {b};
    }

    lemma HeldInRange()
      requires Sound()
      ensures |desc| == |info| == |ops| == NUM && forall i :: i in held ==> i < NUM
    {
      KeysInRange(free, desc, info, ops, owner, chains, held);
    }

    // The stores of virtio_disk_rw into what it has allocated, with the device
    // at work between any two of them.
    method Format(h: nat, c: Chain)
      requires Sound() && held == {h, c.d1, c.d2} && h != c.d1 && h != c.d2 && c.d1 != c.d2
      requires forall k :: k in chains ==> chains[k].req.b != c.req.b
      modifies this`desc, this`ops, this`busy, this`devAvail, this`posted, this`takenCount, this`info, this`usedRing,
        this`usedIdx, this`taken, this`carried, this`finished, this`sectors, this`data
      ensures Sound() && Formatted(desc, info, ops, h, c) && busy == old(busy) + {c.req.b}
    {
      hide Sound, DeviceActed, Formatted, Spelled;
      PutOp(h, Op(c.req.write, c.req.sector));
      Device();
      FormatDescs(h, c);
      Device();
      MarkBusy(c.req.b);
      Device();
      HeldInRange();
      PutInfo(h, info[h].(b := Some(c.req.b)));
      IsFormatted(desc, info, ops, h, c);
    }

    method FormatDescs(h: nat, c: Chain)
      requires Sound() && held == {h, c.d1, c.d2} && h != c.d1 && h != c.d2 && c.d1 != c.d2
      modifies this`desc, this`devAvail, this`posted, this`takenCount, this`info, this`usedRing, this`usedIdx,
        this`taken, this`carried, this`finished, this`sectors, this`data
      ensures Sound() && Spelled(desc, h, c)
    {
      hide Sound, DeviceActed;
      PutDesc(h, Desc(Header(h), 16, F_NEXT, c.d1));
      Device();
      PutDesc(c.d1, Desc(Data(c.req.b), 1024, (if c.req.write then 0 else F_WRITE) + F_NEXT, c.d2));
      Device();
      HeldInRange();
      PutInfo(h, info[h].(status := 0xff));
      Device();
      PutDesc(c.d2, Desc(Status(h), 1, F_WRITE, 0));
      HeldInRange();
    }

    ghost method SetWaiting(w: map<nat, Waiter>)
      requires Sound()
      modifies this`waiting
      ensures Sound() && waiting == w
    {
      waiting := w;
    }

    // virtio_disk_rw up to the wait: one attempt to queue a request.
    method Start(ghost p: nat, write: bool, sector: nat, b: nat) returns (ok: bool, h: nat, d1: nat, d2: nat)
      requires Valid() && held == {} && p !in waiting
      // the caller has b locked, so that no other request uses it
      requires forall k :: k in chains ==> chains[k].req.b != b
      modifies this
      ensures Valid() && held == {} && ok == (CountFree(old(free)) >= 3)
      ensures ok ==> Queued(old(chains), h, Chain(d1, d2, Req(write, sector, b)))
      ensures ok ==> done == old(done) && waiting == old(waiting)[p := Waiter(h, b)]
      ensures !ok ==> chains == old(chains) && waiting == old(waiting) && done == old(done)
      ensures !ok ==> free == old(free) && busy == old(busy) && desc == old(desc)
    {
      hide Sound, WaitOk;
      ok, h, d1, d2 := QueueRequest(write, sector, b);
      if ok {
        WaitMore(old(chains), old(waiting), p, h, Chain(d1, d2, Req(write, sector, b)));
        SetWaiting(waiting[p := Waiter(h, b)]);
      }
    }

    ghost predicate Queued(was: map<nat, Chain>, h: nat, c: Chain)
      reads this
    {
      h !in was && chains == was[h := c] && c.req.b in busy && h in posted
    }

    method QueueRequest(write: bool, sector: nat, b: nat) returns (ok: bool, h: nat, d1: nat, d2: nat)
      requires Sound() && held == {}
      requires forall k :: k in chains ==> chains[k].req.b != b
      modifies this
      ensures Sound() && held == {} && ok == (CountFree(old(free)) >= 3)
      ensures done == old(done) && waiting == old(waiting)
      ensures ok ==> Queued(old(chains), h, Chain(d1, d2, Req(write, sector, b)))
      ensures !ok ==> chains == old(chains) && free == old(free) && busy == old(busy) && desc == old(desc)
    {
      hide Sound, Formatted;
      var idx;
      h, d1, d2 := 0, 0, 0;
      ok, idx := Alloc3Desc();
      if !ok {
        return;
      }
      h, d1, d2 := idx[0], idx[1], idx[2];
      FormatAndPost(h, Chain(d1, d2, Req(write, sector, b)));
    }

    method FormatAndPost(h: nat, c: Chain)
      requires Sound() && held == {h, c.d1, c.d2} && h != c.d1 && h != c.d2 && c.d1 != c.d2
      requires forall k :: k in chains ==> chains[k].req.b != c.req.b
      modifies this
      ensures Sound() && held == {} && Queued(old(chains), h, c) && done == old(done) && waiting == old(waiting)
    {
      hide Sound, Formatted;
      Device();
      Format(h, c);
      ghost var i1 := info;
      Device();
      FormattedSame(desc, i1, info, ops, h, c);
      Post(h, c);
    }

    // The request goes into the available ring, and only then does the index move.
    method Post(h: nat, ghost c: Chain)
      requires Sound() && held == {h, c.d1, c.d2} && Formatted(desc, info, ops, h, c) && c.req.b in busy
      requires forall k :: k in chains ==> chains[k].req.b != c.req.b
      modifies this
      ensures Sound() && held == {} && h !in old(chains) && chains == old(chains)[h := c] && posted != []
      ensures posted[|posted| - 1] == h
      ensures c.req.b in busy && done == old(done) && waiting == old(waiting)
    {
      hide QueueOk, PhasesOk, BusyOk, RingOk, Wrap16, Formatted;
      WriteAvail(h);
      ghost var i1 := info;
      Device();
      FormattedSame(desc, i1, info, ops, h, c);
      Publish(h, c);
    }

    // avail->idx += 1: from here on the device can see the chain.
    method Publish(ghost h: nat, ghost c: Chain)
      requires Sound() && held == {h, c.d1, c.d2} && Formatted(desc, info, ops, h, c) && c.req.b in busy
      requires forall k :: k in chains ==> chains[k].req.b != c.req.b
      requires |posted| < NUM && availIdx % NUM < |availRing| && availRing[availIdx % NUM] == h
      modifies this`availIdx, this`owner, this`chains, this`held, this`posted
      ensures Sound() && held == {} && h !in old(chains) && chains == old(chains)[h := c] && posted == old(posted) + [h]
    {
      hide QueueOk, PhasesOk, BusyOk, RingOk, Wrap16, Formatted;
      MakeChain(free, desc, info, ops, owner, chains, held, h, c);
      assert held - {h, c.d1, c.d2} == {};
      RingAdvance(availRing, devAvail, availIdx, takenCount, posted, h);
      PostPhase(chains, posted, taken, finished, done, h, c);
      BusyPost(chains, posted, taken, finished, done, busy, h, c);
      availIdx := Wrap16(availIdx + 1);
      owner, chains, held := owner[h := Some(h)][c.d1 := Some(h)][c.d2 := Some(h)], chains[h := c], {};
      posted := posted + [h];
    }

    method WriteAvail(h: nat)
      requires Sound() && h in held
      modifies this`availRing
      ensures Sound() && |posted| < NUM && availIdx % NUM < |availRing| && availRing[availIdx % NUM] == h
    {
      hide QueueOk, PhasesOk, BusyOk, RingOk, Wrap16;
      KeysInRange(free, desc, info, ops, owner, chains, held);
      PostedFacts(chains, posted, taken, finished, done);
      PhasesRoom(chains, posted, h);
      RingFill(availRing, devAvail, availIdx, takenCount, posted, h);
      availRing := availRing[availIdx % NUM := h];
    }

    // One turn of virtio_disk_intr's loop.
    method ReadUsed() returns (panic: bool)
      requires Sound() && finished != []
      modifies this`seen, this`busy, this`finished, this`done, this`seenCount
      ensures Sound() && old(finished)[0] in chains && old(finished)[0] < |info|
      ensures panic == (info[old(finished)[0]].status != 0)
      // the buffer released is the one of the request that completed
      ensures !panic ==>
        && finished == old(finished)[1..] && done == old(done) + {old(finished)[0]}
        && busy == old(busy) - {chains[old(finished)[0]].req.b}
      ensures panic ==> finished == old(finished) && done == old(done) && busy == old(busy)
      ensures old(finished)[0] !in old(done)
    {
      hide QueueOk, PhasesOk, BusyOk, RingOk, Wrap16, Formatted;
      FinishedFacts(chains, posted, taken, finished, done);
      RingRead(usedRing, seen, usedIdx, seenCount, finished);
      ChainInfo(free, desc, info, ops, owner, chains, held, finished[0]);
      var id := usedRing[seen % NUM];
      if info[id].status != 0 {
        return true;
      }
      var b := info[id].b;
      BusyRead(free, desc, info, ops, owner, chains, held, busy, done, id);
      ReadPhase(chains, posted, taken, finished, done);
      busy, seen := busy - {b.value}, Wrap16(seen + 1);
      finished, done, seenCount := finished[1..], done + {id}, seenCount + 1;
      panic := false;
    }

    // virtio_disk_intr. It ends however fast the device adds completions.
    method Intr() returns (panic: bool)
      requires Valid() && held == {}
      modifies this`seen, this`busy, this`finished, this`done, this`seenCount,
        this`devAvail, this`posted, this`takenCount, this`info, this`usedRing, this`usedIdx, this`taken, this`carried,
        this`sectors, this`data
      ensures Valid() && chains == old(chains) && old(done) <= done
      ensures busy == old(busy) - Buffers(chains, done - old(done))
      ensures !panic ==> finished == []
      ensures panic ==> exists h :: h in finished && h < |info| && info[h].status != 0
    {
      hide Sound, WaitOk, Buffers;
      panic := IntrLoop();
    }

    method IntrLoop() returns (panic: bool)
      requires Sound()
      modifies this`seen, this`busy, this`finished, this`done, this`seenCount,
        this`devAvail, this`posted, this`takenCount, this`info, this`usedRing, this`usedIdx, this`taken, this`carried,
        this`sectors, this`data
      ensures Sound() && old(done) <= done
      ensures busy == old(busy) - Buffers(chains, done - old(done))
      ensures !panic ==> finished == []
      ensures panic ==> exists h :: h in finished && h < |info| && info[h].status != 0
    {
      hide QueueOk, PhasesOk, BusyOk, RingOk, Wrap16, Buffers;
      Device();
      RingEmpty(usedRing, seen, usedIdx, seenCount, finished);
      BuffersNone(chains, done, busy);
      while seen != usedIdx
        invariant Sound() && old(done) <= done && (seen != usedIdx <==> finished != []) && chains == old(chains)
        invariant busy == old(busy) - Buffers(chains, done - old(done))
        decreases |chains.Keys - done|
      {
        panic := IntrTurn(old(busy), old(done));
        if panic {
          return;
        }
      }
      panic := false;
    }

    method IntrTurn(ghost busy0: set<nat>, ghost done0: set<nat>) returns (panic: bool)
      requires Sound() && finished != [] && done0 <= done && busy == busy0 - Buffers(chains, done - done0)
      modifies this`seen, this`busy, this`finished, this`done, this`seenCount,
        this`devAvail, this`posted, this`takenCount, this`info, this`usedRing, this`usedIdx, this`taken, this`carried,
        this`sectors, this`data
      ensures Sound() && (seen != usedIdx <==> finished != []) && done0 <= done
      ensures busy == busy0 - Buffers(chains, done - done0)
      ensures !panic ==> |chains.Keys - done| < |chains.Keys - old(done)|
      ensures panic ==> exists h :: h in finished && h < |info| && info[h].status != 0
    {
      hide QueueOk, PhasesOk, BusyOk, RingOk, Wrap16, Buffers;
      FinishedFacts(chains, posted, taken, finished, done);
      BuffersMore(chains, done0, done, finished[0], busy0);
      DoneMore(chains, done, finished[0]);
      panic := ReadUsed();
      if !panic {
        Device();
      }
      RingEmpty(usedRing, seen, usedIdx, seenCount, finished);
    }

    // free_chain, on the held descriptors `todo` in chain order.
    method FreeChain(first: nat, ghost all: seq<nat>) returns (panic: bool)
      requires Sound() && all != [] && all[0] == first && held == Elems(all) && Distinct(all) && Linked(desc, all)
      modifies this`free, this`desc, this`held
      ensures Sound() && !panic && held == {}
      ensures |free| == |old(free)| && forall k :: 0 <= k < |free| ==> free[k] == (old(free)[k] || k in all)
    {
      hide QueueOk, PhasesOk, BusyOk, RingOk, Wrap16;
      var i := first;
      ghost var todo := all;
      while true
        invariant Sound() && todo != [] && todo[0] == i && held == Elems(todo) && Distinct(todo) && Linked(desc, todo)
        invariant |free| == |old(free)| && forall k :: 0 <= k < |free| ==>
          (old(free)[k] || k in all <==> free[k] || k in todo)
        decreases |todo|
      {
        Tail(todo);
        KeysInRange(free, desc, info, ops, owner, chains, held);
        ghost var was := desc;
        var flag := desc[i].flags;
        var nxt := desc[i].next;
        panic := FreeDesc(i);
        if flag % 2 == 1 {
          LinkedElsewhere(was, todo[1..], i);
          i, todo := nxt, todo[1..];
        } else {
          assert todo[1..] == [];
          break;
        }
      }
    }

    // A waiting process finds b->disk at 0 exactly when its own request has
    // been reported done, whatever became of the others.
    lemma WaitsForOwn(p: nat)
      requires Valid() && p in waiting
      ensures var w := waiting[p]; w.h in chains && chains[w.h].req.b == w.b && (w.b !in busy <==> w.h in done)
      ensures forall q :: q in waiting && q != p ==> waiting[q].h != waiting[p].h && waiting[q].b != waiting[p].b
    {
      BusyMeans(chains, busy, done, waiting[p].h);
    }

    lemma OwnIsDone(p: nat)
      requires Valid() && p in waiting
      ensures var w := waiting[p]; w.h in chains && chains[w.h].req.b == w.b && (w.b !in busy ==> w.h in done)
    {
      WaitsForOwn(p);
    }

    // virtio_disk_rw after the wait, on nothing but its test: b->disk is 0 again.
    method Finish(ghost p: nat, h: nat, b: nat) returns (panic: bool)
      requires Valid() && held == {} && p in waiting && waiting[p] == Waiter(h, b) && b !in busy
      modifies this`free, this`desc, this`held, this`info, this`owner, this`chains, this`done, this`waiting
      ensures Valid() && !panic && held == {} && waiting == old(waiting) - {p}
      ensures h in old(done) && h in old(chains) && chains == old(chains) - {h} && done == old(done) - {h}
      ensures |free| == |old(free)| && forall k :: 0 <= k < |free| ==>
        free[k] == (old(free)[k] || InChain(k, h, old(chains)[h]))
    {
      hide QueueOk, PhasesOk, BusyOk, RingOk, Wrap16, Formatted, WaitOk, Linked, Distinct, Elems;
      OwnIsDone(p);
      ghost var c := chains[h];
      WaitLess(chains, waiting, p);
      Dissolve(h);
      panic := FreeChain(h, [h, c.d1, c.d2]);
      SetWaiting(waiting - {p});
    }

    // info[idx[0]].b = 0, after which the descriptors belong to this code.
    method Dissolve(h: nat)
      requires Sound() && held == {} && h in done && h in chains
      modifies this`held, this`info, this`owner, this`chains, this`done
      ensures Sound() && chains == old(chains) - {h} && done == old(done) - {h}
      ensures var c := old(chains)[h];
        held == Elems([h, c.d1, c.d2]) && Distinct([h, c.d1, c.d2]) && Linked(desc, [h, c.d1, c.d2])
    {
      hide QueueOk, PhasesOk, BusyOk, RingOk, Wrap16, Linked, Distinct, Elems, Sized;
      ghost var c := chains[h];
      DissolveFacts(free, desc, info, ops, owner, chains, held, h);
      BreakChain(free, desc, info, ops, owner, chains, held, h, info[h].(b := None));
      FreePhase(chains, posted, taken, finished, done, h);
      BusyLess(chains, busy, done, h);
      info := info[h := info[h].(b := None)];
      owner, chains, held, done :=
        owner[h := None][c.d1 := None][c.d2 := None], chains - {h}, held + {h, c.d1, c.d2}, done - {h};
    }
  }

  // The three descriptors of a request, before info says whose it is.
  ghost predicate Spelled(desc: seq<Desc>, h: nat, c: Chain) {
    && |desc| == NUM && h < NUM && c.d1 < NUM && c.d2 < NUM && h != c.d1 && h != c.d2 && c.d1 != c.d2
    && desc[h] == Desc(Header(h), 16, F_NEXT, c.d1)
    && desc[c.d1] == Desc(Data(c.req.b), 1024, if c.req.write then F_NEXT else F_WRITE + F_NEXT, c.d2)
    && desc[c.d2] == Desc(Status(h), 1, F_WRITE, 0)
  }

  lemma IsFormatted(desc: seq<Desc>, info: seq<Info>, ops: seq<Op>, h: nat, c: Chain)
    requires Spelled(desc, h, c) && |info| == |ops| == NUM
    requires ops[h] == Op(c.req.write, c.req.sector) && info[h].b == Some(c.req.b)
    ensures Formatted(desc, info, ops, h, c)
  {
  }

  lemma TakenFacts(chains: map<nat, Chain>, posted: seq<nat>, taken: set<nat>, finished: seq<nat>, done: set<nat>,
                   h: nat)
    requires PhasesOk(chains, posted, taken, finished, done) && h in taken
    ensures h in chains && h !in finished && h !in posted && Distinct(finished) && forall k :: k in finished ==>
      k in chains
  {
  }

  lemma KeysInRange(free: seq<bool>, desc: seq<Desc>, info: seq<Info>, ops: seq<Op>, owner: seq<Option<nat>>,
                    chains: map<nat, Chain>, held: set<nat>)
    requires QueueOk(free, desc, info, ops, owner, chains, held)
    ensures Sized(free, desc, info, ops, owner) && (forall k :: k in chains ==> k < NUM)
    ensures (forall i :: i in held ==> i < NUM && i !in chains)
  {
    forall k | k in chains ensures k < NUM && k !in held {
      assert OwnsThree(owner, k, chains[k]);
    }
  }

  ghost function Elems(idx: seq<nat>): set<nat> { set x | x in idx }

  // The held descriptors are blank and were free in f; the others are as in f.
  ghost predicate Borrowed(f: seq<bool>, free: seq<bool>, desc: seq<Desc>, held: set<nat>) {
    && |f| == |free| == |desc| == NUM
    && (forall k :: 0 <= k < NUM ==> f[k] == (free[k] || k in held))
    && (forall k :: k in held ==> k < NUM && desc[k] == ZERO && !free[k])
  }

  lemma FreeIsBlank(free: seq<bool>, desc: seq<Desc>, info: seq<Info>, ops: seq<Op>, owner: seq<Option<nat>>,
                    chains: map<nat, Chain>, held: set<nat>, i: nat)
    requires QueueOk(free, desc, info, ops, owner, chains, held) && i < NUM && |free| == NUM && free[i]
    ensures |desc| == NUM && desc[i] == ZERO
  {
  }

  lemma PostedFacts(chains: map<nat, Chain>, posted: seq<nat>, taken: set<nat>, finished: seq<nat>, done: set<nat>)
    requires PhasesOk(chains, posted, taken, finished, done)
    ensures Distinct(posted) && forall k :: k in posted ==> k in chains
  {
  }

  lemma BusyMore(chains: map<nat, Chain>, busy: set<nat>, done: set<nat>, b: nat)
    requires BusyOk(chains, busy, done) && forall k :: k in chains ==> chains[k].req.b != b
    ensures BusyOk(chains, busy + {b}, done)
  {
  }

  lemma BusyPost(chains: map<nat, Chain>, posted: seq<nat>, taken: set<nat>, finished: seq<nat>, done: set<nat>,
                 busy: set<nat>, h: nat, c: Chain)
    requires PhasesOk(chains, posted, taken, finished, done) && BusyOk(chains, busy, done) && h !in chains
    requires c.req.b in busy
    ensures BusyOk(chains[h := c], busy, done)
  {
  }

  lemma FormattedSame(desc: seq<Desc>, info: seq<Info>, info': seq<Info>, ops: seq<Op>, h: nat, c: Chain)
    requires Formatted(desc, info, ops, h, c) && |info'| == |info| && forall i :: 0 <= i < |info| ==>
      info'[i].b == info[i].b
    ensures Formatted(desc, info', ops, h, c)
  {
  }

  ghost function Buffers(chains: map<nat, Chain>,
                         hs: set<nat>): set<nat> { set h | h in hs && h in chains :: chains[h].req.b }

  lemma BuffersNone(chains: map<nat, Chain>, done: set<nat>, busy: set<nat>)
    ensures busy - Buffers(chains, done - done) == busy
  {
  }

  lemma BuffersMore(chains: map<nat, Chain>, was: set<nat>, done: set<nat>, h: nat, busy: set<nat>)
    requires h in chains && h !in done && was <= done
    ensures busy - Buffers(chains, done + {h} - was) == busy - Buffers(chains, done - was) - {chains[h].req.b}
  {
    assert done + {h} - was == (done - was) + {h};
    var more := Buffers(chains, done + {h} - was);
    assert forall b :: b in more ==> b in Buffers(chains, done - was) + {chains[h].req.b};
    assert h in done + {h} - was;
  }

  lemma DoneMore(chains: map<nat, Chain>, done: set<nat>, h: nat)
    requires h in chains && h !in done
    ensures |chains.Keys - (done + {h})| < |chains.Keys - done|
  {
    assert h in chains.Keys - done && chains.Keys - (done + {h}) < chains.Keys - done;
    StrictSubset(chains.Keys - (done + {h}), chains.Keys - done);
  }

  // next and F_NEXT lead through these descriptors and stop at the last.
  ghost predicate Linked(desc: seq<Desc>, ds: seq<nat>) {
    ds == [] || (&& ds[0] < |desc| && (HasNext(desc[ds[0]]) <==> |ds| > 1)
                 && (|ds| > 1 ==> desc[ds[0]].next == ds[1]) && Linked(desc, ds[1..]))
  }

  lemma FormattedLinks(desc: seq<Desc>, info: seq<Info>, ops: seq<Op>, h: nat, c: Chain)
    requires Formatted(desc, info, ops, h, c)
    ensures Linked(desc, [h, c.d1, c.d2])
  {
    assert [h, c.d1, c.d2][1..] == [c.d1, c.d2] && [c.d1, c.d2][1..] == [c.d2] && [c.d2][1..] == [];
    assert Linked(desc, [c.d2]) && Linked(desc, [c.d1, c.d2]);
  }

  lemma {:induction false} LinkedElsewhere(desc: seq<Desc>, ds: seq<nat>, x: nat)
    requires Linked(desc, ds) && x < |desc| && x !in ds
    ensures Linked(desc[x := ZERO], ds)
  {
    if ds != [] {
      LinkedElsewhere(desc, ds[1..], x);
    }
  }

  lemma FinishedFacts(chains: map<nat, Chain>, posted: seq<nat>, taken: set<nat>, finished: seq<nat>, done: set<nat>)
    requires PhasesOk(chains, posted, taken, finished, done) && finished != []
    ensures finished[0] in chains && finished[0] !in done
  {
    assert finished[0] in finished;
  }

  lemma DissolveFacts(free: seq<bool>, desc: seq<Desc>, info: seq<Info>, ops: seq<Op>, owner: seq<Option<nat>>,
                      chains: map<nat, Chain>, held: set<nat>, h: nat)
    requires QueueOk(free, desc, info, ops, owner, chains, held) && h in chains && held == {}
    ensures var c := chains[h];
      && h < |info| && h < |owner| && c.d1 < |owner| && c.d2 < |owner|
      && held + {h, c.d1, c.d2} == Elems([h, c.d1, c.d2]) && Distinct([h, c.d1, c.d2]) && Linked(desc, [h, c.d1, c.d2])
  {
    ChainFacts(free, desc, info, ops, owner, chains, held, h);
    FormattedLinks(desc, info, ops, h, chains[h]);
  }

  lemma ChainInfo(free: seq<bool>, desc: seq<Desc>, info: seq<Info>, ops: seq<Op>, owner: seq<Option<nat>>,
                  chains: map<nat, Chain>, held: set<nat>, h: nat)
    requires QueueOk(free, desc, info, ops, owner, chains, held) && h in chains
    ensures h < |info| && info[h].b == Some(chains[h].req.b)
  {
    ChainFacts(free, desc, info, ops, owner, chains, held, h);
  }

  lemma BusyMeans(chains: map<nat, Chain>, busy: set<nat>, done: set<nat>, h: nat)
    requires BusyOk(chains, busy, done) && h in chains
    ensures chains[h].req.b in busy <==> h !in done
  {
  }

  lemma BusyLess(chains: map<nat, Chain>, busy: set<nat>, done: set<nat>, h: nat)
    requires BusyOk(chains, busy, done)
    ensures BusyOk(chains - {h}, busy, done - {h})
  {
  }

  lemma BusyRead(free: seq<bool>, desc: seq<Desc>, info: seq<Info>, ops: seq<Op>, owner: seq<Option<nat>>,
                 chains: map<nat, Chain>, held: set<nat>, busy: set<nat>, done: set<nat>, id: nat)
    requires QueueOk(free, desc, info, ops, owner, chains, held) && BusyOk(chains, busy, done) && id in chains
    ensures BusyOk(chains, busy - {chains[id].req.b}, done + {id})
  {
  }

  lemma StrictSubset(a: set<nat>, b: set<nat>)
    requires a < b
    ensures |a| < |b|
  {
    var x :| x in b && x !in a;
    assert a <= b - {x};
    SubsetSize(a, b - {x});
  }

  lemma {:induction false} SubsetSize(a: set<nat>, b: set<nat>)
    requires a <= b
    ensures |a| <= |b|
    decreases |a|
  {
    if a != {} {
      var x :| x in a;
      SubsetSize(a - {x}, b - {x});
    }
  }
}
