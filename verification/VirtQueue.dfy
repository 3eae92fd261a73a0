/** The split virtqueue of kernel/virtio_disk.c as values: descriptors, the
    chains made of them, and the two rings. */
module VirtQueue {
  import opened Blocks

  const NUM: nat := 8
  const F_NEXT: nat := 1
  const F_WRITE: nat := 2

  // What a descriptor's address can point to: a request header, the data of a
  // buffer, or the status byte of a request.
  datatype Addr = Null | Header(i: nat) | Data(b: nat) | Status(i: nat)

  datatype Desc = Desc(addr: Addr, len: nat, flags: nat, next: nat)

  const ZERO: Desc := Desc(Null, 0, 0, 0)

  datatype Op = Op(write: bool, sector: nat)          // type and sector of virtio_blk_req
  datatype Info = Info(b: Option<nat>, status: nat)
  datatype Req = Req(write: bool, sector: nat, b: nat)

  // A chain of three descriptors, known by the first one.
  datatype Chain = Chain(d1: nat, d2: nat, req: Req)

  predicate HasNext(d: Desc) { d.flags % 2 == 1 }

  predicate DeviceWrites(d: Desc) { d.flags / 2 % 2 == 1 }

  // What a block device makes of the chain at h by its descriptors alone: a
  // header of 16 bytes it may read, a block it may only write for a read
  // request and only read for a write request, and a status byte it may write.
  // The result is the request and where its status goes.
  function ChainRead(desc: seq<Desc>, ops: seq<Op>, h: nat): Option<(Req, nat)> {
    if h < |desc| && HasNext(desc[h]) && desc[h].next < |desc| && HasNext(desc[desc[h].next])
      && desc[desc[h].next].next < |desc|
    then RequestIn(ops, desc[h], desc[desc[h].next], desc[desc[desc[h].next].next])
    else None
  }

  function RequestIn(ops: seq<Op>, header: Desc, data: Desc, status: Desc): Option<(Req, nat)> {
    if header.addr.Header? && header.addr.i < |ops| && data.addr.Data? && status.addr.Status?
      && header.len == 16 && data.len == 1024 && status.len == 1 && !HasNext(status)
      && !DeviceWrites(header) && DeviceWrites(status) && DeviceWrites(data) != ops[header.addr.i].write
    then Some((Req(ops[header.addr.i].write, ops[header.addr.i].sector, data.addr.b), status.addr.i))
    else None
  }

  ghost predicate Sized(free: seq<bool>, desc: seq<Desc>, info: seq<Info>, ops: seq<Op>, owner: seq<Option<nat>>) {
    |free| == |desc| == |info| == |ops| == |owner| == NUM
  }

  // The three descriptors of chain h spell out its request.
  ghost predicate Formatted(desc: seq<Desc>, info: seq<Info>, ops: seq<Op>, h: nat, c: Chain) {
    && |desc| == |info| == |ops| == NUM && h < NUM && c.d1 < NUM && c.d2 < NUM
    && h != c.d1 && h != c.d2 && c.d1 != c.d2
    && desc[h] == Desc(Header(h), 16, F_NEXT, c.d1)
    && desc[c.d1] == Desc(Data(c.req.b), 1024, if c.req.write then F_NEXT else F_WRITE + F_NEXT, c.d2)
    && desc[c.d2] == Desc(Status(h), 1, F_WRITE, 0)
    && ops[h] == Op(c.req.write, c.req.sector)
    && info[h].b == Some(c.req.b)
  }

  // The device reads a formatted chain as the request it was made for.
  lemma FormattedIsRead(desc: seq<Desc>, info: seq<Info>, ops: seq<Op>, h: nat, c: Chain)
    requires Formatted(desc, info, ops, h, c)
    ensures ChainRead(desc, ops, h) == Some((c.req, h))
  {
  }

  ghost predicate OwnsThree(owner: seq<Option<nat>>, h: nat, c: Chain) {
    && h < |owner| && c.d1 < |owner| && c.d2 < |owner|
    && owner[h] == owner[c.d1] == owner[c.d2] == Some(h)
  }

  // Every descriptor is free, in one chain, or held by the driver code that is
  // inside vdisk_lock.
  ghost predicate QueueOk(free: seq<bool>, desc: seq<Desc>, info: seq<Info>, ops: seq<Op>, owner: seq<Option<nat>>,
                          chains: map<nat, Chain>, held: set<nat>) {
    && Sized(free, desc, info, ops, owner)
    && (forall i :: 0 <= i < NUM ==> (free[i] <==> owner[i] == None && i !in held))
    && (forall i :: 0 <= i < NUM && free[i] ==> desc[i] == ZERO)
    && (forall i :: i in held ==> i < NUM && owner[i] == None)
    && (forall i :: 0 <= i < NUM && owner[i].Some? ==>
          owner[i].value in chains && InChain(i, owner[i].value, chains[owner[i].value]))
    && (forall h :: h in chains ==> OwnsThree(owner, h, chains[h]) && Formatted(desc, info, ops, h, chains[h]))
    && (forall h, k :: h in chains && k in chains && chains[h].req.b == chains[k].req.b ==> h == k)
  }

  predicate InChain(i: nat, h: nat, c: Chain) { i == h || i == c.d1 || i == c.d2 }

  // --- descriptors ---

  lemma TakeDesc(free: seq<bool>, desc: seq<Desc>, info: seq<Info>, ops: seq<Op>, owner: seq<Option<nat>>,
                 chains: map<nat, Chain>, held: set<nat>, i: nat)
    requires QueueOk(free, desc, info, ops, owner, chains, held) && i < NUM && free[i]
    ensures QueueOk(free[i := false], desc, info, ops, owner, chains, held + {i}) && i !in held
  {
  }

  lemma GiveDesc(free: seq<bool>, desc: seq<Desc>, info: seq<Info>, ops: seq<Op>, owner: seq<Option<nat>>,
                 chains: map<nat, Chain>, held: set<nat>, i: nat)
    requires QueueOk(free, desc, info, ops, owner, chains, held) && i in held
    ensures i < NUM && !free[i] && QueueOk(free[i := true], desc[i := ZERO], info, ops, owner, chains, held - {i})
  {
    forall h | h in chains ensures !InChain(i, h, chains[h]) {
      assert OwnsThree(owner, h, chains[h]);
    }
    forall h | h in chains ensures Formatted(desc[i := ZERO], info, ops, h, chains[h]) {
      assert Formatted(desc, info, ops, h, chains[h]) && !InChain(i, h, chains[h]);
    }
  }

  lemma FormattedBasics(desc: seq<Desc>, info: seq<Info>, ops: seq<Op>, h: nat, c: Chain)
    requires Formatted(desc, info, ops, h, c)
    ensures h < NUM && c.d1 < NUM && c.d2 < NUM && h != c.d1 && h != c.d2 && c.d1 != c.d2
  {
  }

  // Writing to held descriptors disturbs no chain.
  lemma WriteHeld(free: seq<bool>, desc: seq<Desc>, info: seq<Info>, ops: seq<Op>, owner: seq<Option<nat>>,
                  chains: map<nat, Chain>, held: set<nat>,
                  desc': seq<Desc>, info': seq<Info>, ops': seq<Op>)
    requires QueueOk(free, desc, info, ops, owner, chains, held) && |desc'| == |info'| == |ops'| == NUM
    requires forall i :: 0 <= i < NUM && i !in held ==> desc'[i] == desc[i] && info'[i] == info[i] && ops'[i] == ops[i]
    ensures QueueOk(free, desc', info', ops', owner, chains, held)
  {
    forall k | k in chains ensures Formatted(desc', info', ops', k, chains[k]) {
      assert OwnsThree(owner, k, chains[k]) && Formatted(desc, info, ops, k, chains[k]);
      assert k !in held && chains[k].d1 !in held && chains[k].d2 !in held;
    }
  }

  // Three held descriptors become a chain.
  lemma MakeChain(free: seq<bool>, desc: seq<Desc>, info: seq<Info>, ops: seq<Op>, owner: seq<Option<nat>>,
                  chains: map<nat, Chain>, held: set<nat>, h: nat, c: Chain)
    requires QueueOk(free, desc, info, ops, owner, chains, held)
    requires Formatted(desc, info, ops, h, c) && {h, c.d1, c.d2} <= held
    requires forall k :: k in chains ==> chains[k].req.b != c.req.b
    ensures h !in chains && h < |owner| && c.d1 < |owner| && c.d2 < |owner|
    ensures QueueOk(free, desc, info, ops, owner[h := Some(h)][c.d1 := Some(h)][c.d2 := Some(h)], chains[h := c],
                    held - {h, c.d1, c.d2})
  {
    hide Formatted;
    FormattedBasics(desc, info, ops, h, c);
    var owner' := owner[h := Some(h)][c.d1 := Some(h)][c.d2 := Some(h)];
    assert h !in chains by {
      assert h in chains ==> OwnsThree(owner, h, chains[h]);
    }
    forall k | k in chains ensures OwnsThree(owner', k, chains[k]) {
      assert OwnsThree(owner, k, chains[k]);
      assert k !in held && chains[k].d1 !in held && chains[k].d2 !in held;
    }
  }

  lemma FormattedElse(desc: seq<Desc>, info: seq<Info>, ops: seq<Op>, k: nat, c: Chain, h: nat, inf: Info)
    requires Formatted(desc, info, ops, k, c) && h < |info| && h != k
    ensures Formatted(desc, info[h := inf], ops, k, c)
  {
  }

  // A chain is dissolved into three held descriptors.
  lemma BreakChain(free: seq<bool>, desc: seq<Desc>, info: seq<Info>, ops: seq<Op>, owner: seq<Option<nat>>,
                   chains: map<nat, Chain>, held: set<nat>, h: nat, inf: Info)
    requires QueueOk(free, desc, info, ops, owner, chains, held) && h in chains
    ensures Formatted(desc, info, ops, h, chains[h])
    ensures QueueOk(free, desc, info[h := inf], ops, owner[h := None][chains[h].d1 := None][chains[h].d2 := None],
                    chains - {h}, held + {h, chains[h].d1, chains[h].d2})
  {
    hide Formatted;
    var c := chains[h];
    var owner', info' := owner[h := None][c.d1 := None][c.d2 := None], info[h := inf];
    assert OwnsThree(owner, h, c);
    forall k | k in chains && k != h
      ensures OwnsThree(owner', k, chains[k]) && Formatted(desc, info', ops, k, chains[k])
    {
      assert OwnsThree(owner, k, chains[k]);
      FormattedElse(desc, info, ops, k, chains[k], h, inf);
    }
  }

  // The device writes the status byte of a request.
  lemma StatusWrite(free: seq<bool>, desc: seq<Desc>, info: seq<Info>, ops: seq<Op>, owner: seq<Option<nat>>,
                    chains: map<nat, Chain>, held: set<nat>, h: nat, status: nat)
    requires QueueOk(free, desc, info, ops, owner, chains, held) && h < NUM
    ensures QueueOk(free, desc, info[h := info[h].(status := status)], ops, owner, chains, held)
  {
    forall k | k in chains ensures Formatted(desc, info[h := info[h].(status := status)], ops, k, chains[k]) {
      assert Formatted(desc, info, ops, k, chains[k]);
    }
  }

  lemma ChainFacts(free: seq<bool>, desc: seq<Desc>, info: seq<Info>, ops: seq<Op>, owner: seq<Option<nat>>,
                   chains: map<nat, Chain>, held: set<nat>, h: nat)
    requires QueueOk(free, desc, info, ops, owner, chains, held) && h in chains
    ensures Formatted(desc, info, ops, h, chains[h])
  {
  }

  function CountFree(free: seq<bool>): nat {
    if free == [] then 0 else (if free[0] then 1 else 0) + CountFree(free[1..])
  }

  lemma {:induction false} CountTake(free: seq<bool>, i: nat)
    requires i < |free| && free[i]
    ensures CountFree(free[i := false]) == CountFree(free) - 1
  {
    if i == 0 {
      assert free[0 := false][1..] == free[1..];
    } else {
      assert free[i := false][1..] == free[1..][i - 1 := false];
      CountTake(free[1..], i - 1);
    }
  }

  lemma {:induction false} CountNone(free: seq<bool>)
    requires forall i :: 0 <= i < |free| ==> !free[i]
    ensures CountFree(free) == 0
  {
    if free != [] {
      CountNone(free[1..]);
    }
  }

  // --- rings ---

  predicate Distinct(items: seq<nat>) { forall i, j :: 0 <= i < j < |items| ==> items[i] != items[j] }

  // The ring holds `items` in the slots from index `first` on.
  ghost predicate RingHolds(ring: seq<nat>, first: nat, items: seq<nat>) {
    && |ring| == NUM && |items| <= NUM
    && forall i :: 0 <= i < |items| ==> items[i] == ring[(first + i) % NUM]
  }

  lemma SlotsDiffer(first: nat, i: nat, j: nat)
    requires i < j < i + NUM
    ensures (first + i) % NUM != (first + j) % NUM
  {
  }

  // Writing the next slot overwrites no entry of a window that is not full.
  lemma RingWrite(ring: seq<nat>, first: nat, items: seq<nat>, h: nat)
    requires RingHolds(ring, first, items) && |items| < NUM
    ensures RingHolds(ring[(first + |items|) % NUM := h], first, items)
  {
    forall i | 0 <= i < |items| ensures items[i] == ring[(first + |items|) % NUM := h][(first + i) % NUM] {
      SlotsDiffer(first, i, |items|);
    }
  }

  lemma RingPush(ring: seq<nat>, first: nat, items: seq<nat>, h: nat)
    requires RingHolds(ring, first, items) && |items| < NUM && ring[(first + |items|) % NUM] == h
    ensures RingHolds(ring, first, items + [h])
  {
  }

  lemma RingPop(ring: seq<nat>, first: nat, items: seq<nat>)
    requires RingHolds(ring, first, items) && items != []
    ensures ring[first % NUM] == items[0] && RingHolds(ring, first + 1, items[1..])
  {
    assert items[0] == ring[(first + 0) % NUM];
    forall i | 0 <= i < |items| - 1 ensures items[1..][i] == ring[(first + 1 + i) % NUM] {
      assert items[1 + i] == ring[(first + (1 + i)) % NUM];
    }
  }

  // Distinct numbers below n are at most n.
  lemma {:induction false} Pigeonhole(items: seq<nat>, n: nat)
    requires Distinct(items) && forall i :: 0 <= i < |items| ==> items[i] < n
    ensures |items| <= n
    decreases n
  {
    if items == [] {
      return;
    }
    assert items[0] < n;
    if n - 1 in items {
      var i :| 0 <= i < |items| && items[i] == n - 1;
      var rest := items[..i] + items[i + 1..];
      Pigeonhole(rest, n - 1);
    } else {
      Pigeonhole(items, n - 1);
    }
  }

  // The 16-bit indices and the rings' slots agree with unbounded counters.
  function Wrap16(k: nat): nat { k % 0x1_0000 }

  lemma WrapSlot(k: nat)
    ensures Wrap16(k) % NUM == k % NUM
  {
    assert k == 0x1_0000 * (k / 0x1_0000) + k % 0x1_0000;
    assert k % NUM == (8192 * (k / 0x1_0000) * 8 + k % 0x1_0000) % 8;
  }

  lemma WrapNext(k: nat)
    ensures Wrap16(Wrap16(k) + 1) == Wrap16(k + 1)
  {
  }

  lemma WrapDiffers(k: nat, n: nat)
    requires n <= NUM
    ensures Wrap16(k) != Wrap16(k + n) <==> n != 0
  {
  }

  // A ring with its reader's and writer's 16-bit indices: `items` is what has
  // been written and not read.
  ghost predicate RingOk(ring: seq<nat>, reader: nat, writer: nat, first: nat, items: seq<nat>) {
    RingHolds(ring, first, items) && reader == Wrap16(first) && writer == Wrap16(first + |items|)
  }

  lemma RingEmpty(ring: seq<nat>, reader: nat, writer: nat, first: nat, items: seq<nat>)
    requires RingOk(ring, reader, writer, first, items)
    ensures |ring| == NUM && |items| <= NUM && (reader != writer <==> items != [])
  {
    WrapDiffers(first, |items|);
  }

  lemma RingRead(ring: seq<nat>, reader: nat, writer: nat, first: nat, items: seq<nat>)
    requires RingOk(ring, reader, writer, first, items) && items != []
    ensures reader % NUM < |ring| && ring[reader % NUM] == items[0]
    ensures RingOk(ring, Wrap16(reader + 1), writer, first + 1, items[1..])
  {
    WrapSlot(first);
    WrapNext(first);
    RingPop(ring, first, items);
  }

  // Filling the next slot changes nothing for the reader until the index moves.
  lemma RingFill(ring: seq<nat>, reader: nat, writer: nat, first: nat, items: seq<nat>, h: nat)
    requires RingOk(ring, reader, writer, first, items) && |items| < NUM
    ensures writer % NUM < |ring| && RingOk(ring[writer % NUM := h], reader, writer, first, items)
  {
    WrapSlot(first + |items|);
    RingWrite(ring, first, items, h);
  }

  lemma RingAdvance(ring: seq<nat>, reader: nat, writer: nat, first: nat, items: seq<nat>, h: nat)
    requires RingOk(ring, reader, writer, first, items) && |items| < NUM && writer % NUM < |ring|
    requires ring[writer % NUM] == h
    ensures RingOk(ring, reader, Wrap16(writer + 1), first, items + [h])
  {
    WrapSlot(first + |items|);
    WrapNext(first + |items|);
    RingPush(ring, first, items, h);
  }

  // A buffer is marked busy until its own request has been read back.
  ghost predicate BusyOk(chains: map<nat, Chain>, busy: set<nat>, done: set<nat>) {
    forall h :: h in chains ==> (chains[h].req.b in busy <==> h !in done)
  }

  // Where every chain is: posted in the available ring, taken by the device,
  // finished but unread in the used ring, or done and waiting to be freed.
  ghost predicate PhasesOk(chains: map<nat, Chain>, posted: seq<nat>, taken: set<nat>, finished: seq<nat>,
                           done: set<nat>) {
    && Distinct(posted) && Distinct(finished)
    && (forall h :: h in posted ==> h in chains && h !in taken && h !in finished && h !in done)
    && (forall h :: h in taken ==> h in chains && h !in finished && h !in done)
    && (forall h :: h in finished ==> h in chains && h !in done)
    && (forall h :: h in done ==> h in chains)
    && (forall h :: h in chains ==> h in posted || h in taken || h in finished || h in done)
  }

  lemma PhasesRoom(chains: map<nat, Chain>, items: seq<nat>, h: nat)
    requires Distinct(items) && h !in items && h < NUM && (forall k :: k in chains ==> k < NUM)
    requires (forall k :: k in items ==> k in chains)
    ensures |items| < NUM
  {
    forall i | 0 <= i < |items + [h]| ensures (items + [h])[i] < NUM {
      assert i < |items| ==> items[i] in items;
    }
    Pigeonhole(items + [h], NUM);
  }

  lemma PostPhase(chains: map<nat, Chain>, posted: seq<nat>, taken: set<nat>, finished: seq<nat>, done: set<nat>,
                  h: nat, c: Chain)
    requires PhasesOk(chains, posted, taken, finished, done) && h !in chains
    ensures PhasesOk(chains[h := c], posted + [h], taken, finished, done)
  {
  }

  lemma TakePhase(chains: map<nat, Chain>, posted: seq<nat>, taken: set<nat>, finished: seq<nat>, done: set<nat>)
    requires PhasesOk(chains, posted, taken, finished, done) && posted != []
    ensures PhasesOk(chains, posted[1..], taken + {posted[0]}, finished, done)
  {
    Tail(posted);
  }

  lemma FinishPhase(chains: map<nat, Chain>, posted: seq<nat>, taken: set<nat>, finished: seq<nat>, done: set<nat>,
                    h: nat)
    requires PhasesOk(chains, posted, taken, finished, done) && h in taken
    ensures PhasesOk(chains, posted, taken - {h}, finished + [h], done)
  {
  }

  lemma ReadPhase(chains: map<nat, Chain>, posted: seq<nat>, taken: set<nat>, finished: seq<nat>, done: set<nat>)
    requires PhasesOk(chains, posted, taken, finished, done) && finished != []
    ensures PhasesOk(chains, posted, taken, finished[1..], done + {finished[0]})
  {
    Tail(finished);
  }

  lemma FreePhase(chains: map<nat, Chain>, posted: seq<nat>, taken: set<nat>, finished: seq<nat>, done: set<nat>,
                  h: nat)
    requires PhasesOk(chains, posted, taken, finished, done) && h in done
    ensures PhasesOk(chains - {h}, posted, taken, finished, done - {h})
  {
  }

  lemma Tail(items: seq<nat>)
    requires Distinct(items) && items != []
    ensures Distinct(items[1..]) && items[0] !in items[1..]
    ensures forall h :: h in items <==> h == items[0] || h in items[1..]
  {
    assert items == [items[0]] + items[1..];
  }
}
