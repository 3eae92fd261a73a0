/** The disk request queue of kernel/disk_sched.c: a list linked through
    `next`, FCFS and SSTF scheduling, and the statistics. */
module DiskSched {
  import opened Blocks
  import opened Sums

  const NUM_DISKS: nat := 4
  const DISK_ROTATIONAL_DELAY: nat := 5

  // struct disk_request; `next` is an address, 0 for none.
  datatype Request = Request(write: bool, disk: nat, block: nat, priority: nat, next: nat)

  type Memory = map<nat, Request>

  function Distance(a: int, b: int): (d: nat)
    ensures a == b + d || b == a + d
  {
    if a < b then b - a else a - b
  }

  // calculate_disk_latency
  function Latency(heads: seq<nat>, r: Request): nat
    requires r.disk < |heads|
  {
    Distance(heads[r.disk], r.block) + DISK_ROTATIONAL_DELAY
  }

  // --- the list ---

  ghost predicate LinkAt(mem: Memory, q: seq<nat>, i: nat)
    requires i < |q|
  {
    q[i] != 0 && q[i] in mem && mem[q[i]].next == if i + 1 < |q| then q[i + 1] else 0
  }

  ghost predicate Distinct(q: seq<nat>) { forall i, j :: 0 <= i < j < |q| ==> q[i] != q[j] }

  // The requests reachable from head are q, in this order.
  ghost predicate Queued(mem: Memory, head: nat, q: seq<nat>) {
    && head == (if q == [] then 0 else q[0]) && Distinct(q)
    && forall i :: 0 <= i < |q| ==> LinkAt(mem, q, i)
  }

  // disk_queue_tail is where a request has to be added.
  ghost predicate TailIsLast(tail: nat, q: seq<nat>) {
    tail == if q == [] then 0 else q[|q| - 1]
  }

  function Without(q: seq<nat>, b: nat): seq<nat>
    requires b < |q|
  {
    q[..b] + q[b + 1..]
  }

  lemma AppendQueued(mem: Memory, head: nat, q: seq<nat>, a: nat, r: Request)
    requires Queued(mem, head, q) && q != [] && a != 0 && a !in q && r.next == 0 && q[|q| - 1] in mem
    ensures var last := q[|q| - 1];
      Queued(mem[a := r][last := mem[last].(next := a)], head, q + [a])
  {
    var last := q[|q| - 1];
    var mem' := mem[a := r][last := mem[last].(next := a)];
    forall i | 0 <= i < |q + [a]| ensures LinkAt(mem', q + [a], i) {
      if i < |q| {
        assert LinkAt(mem, q, i);
      }
    }
  }

  // Writes outside the list leave it alone.
  lemma ElsewhereQueued(mem: Memory, head: nat, q: seq<nat>, a: nat, r: Request)
    requires Queued(mem, head, q) && a !in q
    ensures Queued(mem[a := r], head, q)
  {
    var mem' := mem[a := r];
    forall i | 0 <= i < |q| ensures LinkAt(mem', q, i) {
      assert LinkAt(mem, q, i);
    }
  }

  // Taking out the first request, and one with a predecessor.
  lemma PopQueued(mem: Memory, head: nat, q: seq<nat>)
    requires Queued(mem, head, q) && q != []
    ensures head in mem && Queued(mem, mem[head].next, q[1..])
  {
    assert LinkAt(mem, q, 0);
    forall i | 0 <= i < |q| - 1 ensures LinkAt(mem, q[1..], i) {
      assert LinkAt(mem, q, i + 1);
    }
  }

  lemma UnlinkQueued(mem: Memory, head: nat, q: seq<nat>, b: nat)
    requires Queued(mem, head, q) && 0 < b < |q|
    ensures q[b - 1] in mem && q[b] in mem
    ensures Queued(mem[q[b - 1] := mem[q[b - 1]].(next := mem[q[b]].next)], head, Without(q, b))
  {
    assert LinkAt(mem, q, b - 1) && LinkAt(mem, q, b);
    var rest := Without(q, b);
    var mem' := mem[q[b - 1] := mem[q[b - 1]].(next := mem[q[b]].next)];
    forall i | 0 <= i < |rest| ensures LinkAt(mem', rest, i) {
      if i < b {
        assert LinkAt(mem, q, i) && rest[i] == q[i];
        assert i + 1 < |rest| ==> rest[i + 1] == if i + 1 < b then q[i + 1] else q[i + 2];
      } else {
        assert LinkAt(mem, q, i + 1) && rest[i] == q[i + 1];
        assert i + 1 < |rest| ==> rest[i + 1] == q[i + 2];
      }
    }
    forall i, j | 0 <= i < j < |rest| ensures rest[i] != rest[j] {
      assert rest[i] == (if i < b then q[i] else q[i + 1]) && rest[j] == (if j < b then q[j] else q[j + 1]);
    }
  }

  // --- the choice of SSTF ---

  // Request a goes before b: nearer to its disk's head, or as near and of a
  // process with higher priority.
  predicate Before(heads: seq<nat>, a: Request, b: Request)
    requires a.disk < |heads| && b.disk < |heads|
  {
    Latency(heads, a) < Latency(heads, b) || (Latency(heads, a) == Latency(heads, b) && a.priority < b.priority)
  }

  ghost predicate DisksOk(mem: Memory, q: seq<nat>) {
    forall a :: a in q ==> a in mem && mem[a].disk < NUM_DISKS
  }

  // The first of the best among the first n.
  ghost predicate Shortest(heads: seq<nat>, mem: Memory, q: seq<nat>, n: nat, b: nat)
    requires |heads| == NUM_DISKS && DisksOk(mem, q) && n <= |q|
  {
    && b < n
    && (forall i :: 0 <= i < n ==> !Before(heads, mem[q[i]], mem[q[b]]))
    && (forall i :: 0 <= i < b ==> Before(heads, mem[q[b]], mem[q[i]]))
  }

  // That is the request whose (distance, priority, position) comes first.
  lemma ShortestIsLeast(heads: seq<nat>, mem: Memory, q: seq<nat>, b: nat)
    requires |heads| == NUM_DISKS && DisksOk(mem, q) && b < |q|
    ensures Shortest(heads, mem, q, |q|, b) <==> forall i :: 0 <= i < |q| ==>
      var d, e := Distance(heads[mem[q[b]].disk], mem[q[b]].block), Distance(heads[mem[q[i]].disk], mem[q[i]].block);
      var x, y := mem[q[b]].priority, mem[q[i]].priority;
      d < e || (d == e && (x < y || (x == y && b <= i)))
  {
    assert forall i :: 0 <= i < |q| ==>
      (!Before(heads, mem[q[i]], mem[q[b]]) && (i < b ==> Before(heads, mem[q[b]], mem[q[i]])) <==>
         var d, e := Distance(heads[mem[q[b]].disk], mem[q[b]].block), Distance(heads[mem[q[i]].disk], mem[q[i]].block);
         var x, y := mem[q[b]].priority, mem[q[i]].priority;
         d < e || (d == e && (x < y || (x == y && b <= i))));
  }

  // --- head movement ---

  // How far a head moves along the positions it has had.
  function Travel(path: seq<nat>): nat {
    if |path| < 2 then 0 else Travel(path[..|path| - 1]) + Distance(path[|path| - 2], path[|path| - 1])
  }

  ghost function Travels(paths: seq<seq<nat>>): seq<nat> {
    seq(|paths|, d requires 0 <= d < |paths| => Travel(paths[d])) }

  ghost function Moves(paths: seq<seq<nat>>): seq<nat> {
    seq(|paths|, d requires 0 <= d < |paths| => if |paths[d]| == 0 then 0 else |paths[d]| - 1)
  }

  // --- every sequence of requests and choices ---

  // The queue as far as losing requests goes: all requests ever made, those
  // that can be scheduled, and whether the tail is not the last of them.
  datatype Line = Line(made: set<nat>, queue: seq<nat>, stale: bool)

  // Take(b) schedules the request at position b: 0 for FCFS, any for SSTF.
  datatype Op = Make(a: nat) | Take(b: nat)

  predicate Enabled(s: Line, op: Op) {
    match op
    case Make(a) => a !in s.made
    case Take(b) => b < |s.queue|
  }

  function Apply(s: Line, op: Op): Line
    requires Enabled(s, op)
  {
    match op
    case Make(a) => Line(s.made + {a}, if s.stale then s.queue else s.queue + [a], s.stale)
    case Take(b) =>
      var rest := Without(s.queue, b);
      Line(s.made, rest, rest != [] && (s.stale || b + 1 == |s.queue|))
  }

  ghost predicate Run(trace: seq<Line>, ops: seq<Op>) {
    && |trace| == |ops| + 1
    && forall i :: 0 <= i < |ops| ==> Enabled(trace[i], ops[i]) && trace[i + 1] == Apply(trace[i], ops[i])
  }

  // A request that is not in the queue, because it was scheduled or because it
  // was lost when it was made, is in no later queue.
  lemma {:induction false} LostForGood(trace: seq<Line>, ops: seq<Op>, i: nat, j: nat, a: nat)
    requires Run(trace, ops) && i <= j < |trace| && a in trace[i].made && a !in trace[i].queue
    ensures a in trace[j].made && a !in trace[j].queue
    decreases j
  {
    if i < j {
      LostForGood(trace, ops, i, j - 1, a);
      var s, t := trace[j - 1], trace[j];
      assert t == Apply(s, ops[j - 1]);
      assert forall x :: x in t.queue ==> x in s.queue || ops[j - 1] == Make(x);
    }
  }

  ghost predicate Sound(s: Line) { forall a :: a in s.queue ==> a in s.made }

  lemma {:induction false} StaysSound(trace: seq<Line>, ops: seq<Op>, j: nat)
    requires Run(trace, ops) && j < |trace| && Sound(trace[0])
    ensures Sound(trace[j])
  {
    if j > 0 {
      StaysSound(trace, ops, j - 1);
      assert trace[j] == Apply(trace[j - 1], ops[j - 1]);
    }
  }

  // A stale tail stays stale until the queue has been empty.
  lemma {:induction false} StaleUntilEmpty(trace: seq<Line>, ops: seq<Op>, i: nat, j: nat)
    requires Run(trace, ops) && i <= j < |trace| && trace[i].stale
    requires forall k :: i < k <= j ==> trace[k].queue != []
    ensures trace[j].stale
    decreases j
  {
    if i < j {
      StaleUntilEmpty(trace, ops, i, j - 1);
      assert trace[j] == Apply(trace[j - 1], ops[j - 1]);
    }
  }

  // Every request made in that time is never scheduled: it is in no queue
  // from then on.
  lemma MadeWhileStale(trace: seq<Line>, ops: seq<Op>, i: nat, k: nat, j: nat)
    requires Run(trace, ops) && Sound(trace[0]) && i <= k < j < |trace| && trace[i].stale
    requires (forall m :: i < m <= k ==> trace[m].queue != []) && ops[k].Make?
    ensures ops[k].a !in trace[j].queue
  {
    StaleUntilEmpty(trace, ops, i, k);
    StaysSound(trace, ops, k);
    assert trace[k + 1] == Apply(trace[k], ops[k]);
    LostForGood(trace, ops, k + 1, j, ops[k].a);
  }

  class Scheduler {
    var mem: Memory
    var head: nat
    var tail: nat
    var heads: seq<nat>         // current_disk_head
    var diskReads: nat
    var diskWrites: nat
    var latency: nat            // total_disk_latency
    var operations: nat
    ghost var queue: seq<nat>
    ghost var paths: seq<seq<nat>>   // all positions each head has had

    ghost predicate QueueOk()
      reads this`mem, this`head, this`tail, this`queue
    {
      && Queued(mem, head, queue) && DisksOk(mem, queue)
      && (tail == 0 <==> queue == []) && (tail != 0 ==> tail in mem)
      && (tail in queue ==> TailIsLast(tail, queue))
    }

    // Total latency is the rotational delay per operation plus all head movement.
    ghost predicate StatsOk()
      reads this`heads, this`paths, this`diskReads, this`diskWrites, this`latency, this`operations
    {
      && |heads| == |paths| == NUM_DISKS && diskReads + diskWrites == operations
      && (forall d :: 0 <= d < NUM_DISKS ==> paths[d] != [] && heads[d] == paths[d][|paths[d]| - 1])
      && operations == Total(Moves(paths))
      && latency == DISK_ROTATIONAL_DELAY * operations + Total(Travels(paths))
    }

    ghost predicate Valid()
      reads this
    {
      QueueOk() && StatsOk()
    }

    ghost function View(): Line
      reads this
    {
      Line(mem.Keys, queue, !TailIsLast(tail, queue))
    }

    constructor ()
      ensures Valid() && queue == [] && mem == map[] && tail == 0 && heads == [0, 0, 0, 0]
      ensures View() == Line({}, [], false)
    {
      mem, head, tail, queue := map[], 0, 0, [];
      heads, diskReads, diskWrites, latency, operations := [0, 0, 0, 0], 0, 0, 0, 0;
      paths := [[0], [0], [0], [0]];
      new;
      assert Travels(paths) == [0, 0, 0, 0] && Moves(paths) == [0, 0, 0, 0];
      TotalOfZeros([0, 0, 0, 0]);
    }

    // add_disk_request; `a` is the page from kalloc (0 for none) and `place`
    // the result of the RAID mapping.
    method Add(write: bool, place: Option<(nat, nat)>, priority: nat, a: nat) returns (ok: bool)
      requires Valid() && a !in mem && (place.Some? ==> place.value.0 < NUM_DISKS)
      modifies this`mem, this`head, this`tail, this`queue
      ensures Valid() && ok == (a != 0 && place.Some?)
      ensures ok ==>
        mem.Keys == old(mem.Keys) + {a} && mem[a] == Request(write, place.value.0, place.value.1, priority, 0)
      // the new request is queued, at the end, exactly if the tail was the last request
      ensures ok ==> queue == if old(TailIsLast(tail, queue)) then old(queue) + [a] else old(queue)
      ensures ok ==> (TailIsLast(tail, queue) <==> old(TailIsLast(tail, queue)))
      ensures ok ==> Enabled(old(View()), Make(a)) && View() == Apply(old(View()), Make(a))
      ensures forall b :: b in old(mem) ==>
        b in mem && mem[b] == old(mem)[b].(next := mem[b].next) && (b != old(tail) ==> mem[b] == old(mem)[b])
      ensures !ok ==> queue == old(queue) && mem == old(mem) && tail == old(tail)
    {
      hide StatsOk, Queued;
      if a == 0 || place == None {
        return false;
      }
      QueuedInMemory(mem, head, queue);
      var r := Request(write, place.value.0, place.value.1, priority, 0);
      if tail == 0 {
        mem := mem[a := r];
        head, tail := a, a;
        queue := [a];
        OneQueued(mem, a);
      } else {
        if tail in queue {
          AppendQueued(mem, head, queue, a, r);
        } else {
          ElsewhereQueued(mem, head, queue, a, r);
          ElsewhereQueued(mem[a := r], head, queue, tail, mem[tail].(next := a));
        }
        mem := mem[a := r][tail := mem[tail].(next := a)];
        if tail in queue {
          queue := queue + [a];
        }
        tail := a;
      }
      ok := true;
    }

    // schedule_fcfs
    method Fcfs() returns (a: nat)
      requires Valid()
      modifies this`head, this`tail, this`queue
      ensures Valid() && (a == 0 <==> old(queue) == [])
      ensures a != 0 ==> a == old(queue)[0] && queue == old(queue)[1..]
      ensures a == 0 ==> queue == old(queue) && tail == old(tail)
      ensures a != 0 ==> Enabled(old(View()), Take(0)) && View() == Apply(old(View()), Take(0))
      // the tail is right if it was, or if the queue is empty now
      ensures a != 0 ==> (TailIsLast(tail, queue) <==> old(TailIsLast(tail, queue)) || queue == [])
    {
      hide StatsOk, Queued;
      QueuedInMemory(mem, head, queue);
      a := head;
      if a != 0 {
        PopQueued(mem, head, queue);
        RestHead(mem, mem[head].next, queue[1..]);
        head := mem[a].next;
        queue := queue[1..];
        if head == 0 {
          tail := 0;
        }
      }
    }

    // The search of schedule_sstf: the best request and its predecessor.
    method FindShortest() returns (best: nat, prevBest: nat, ghost b: nat)
      requires Valid() && queue != []
      ensures Shortest(heads, mem, queue, |queue|, b) && best == queue[b]
      ensures prevBest == (if b == 0 then 0 else queue[b - 1])
    {
      hide StatsOk;
      StatsSizes();
      best, prevBest, b := head, 0, 0;
      var curr, prev := head, 0;
      assert LinkAt(mem, queue, 0);
      var minLatency := Latency(heads, mem[best]);
      ghost var n: nat := 0;
      while curr != 0
        invariant n <= |queue| && curr == (if n < |queue| then queue[n] else 0)
        invariant prev == (if n == 0 then 0 else queue[n - 1])
        invariant (n < |queue| ==> curr != 0) && b < |queue| && best == queue[b]
        invariant prevBest == (if b == 0 then 0 else queue[b - 1]) && minLatency == Latency(heads, mem[best])
        invariant if n == 0 then b == 0 else Shortest(heads, mem, queue, n, b)
        decreases |queue| - n
      {
        assert LinkAt(mem, queue, n);
        var latency := Latency(heads, mem[curr]);
        if latency < minLatency || (latency == minLatency && mem[curr].priority < mem[best].priority) {
          minLatency, best, prevBest := latency, curr, prev;
          b := n;
        }
        prev, curr := curr, mem[curr].next;
        n := n + 1;
        assert n < |queue| ==> LinkAt(mem, queue, n);
      }
    }

    // schedule_sstf
    method Sstf() returns (a: nat, ghost b: nat)
      requires Valid()
      modifies this`mem, this`head, this`tail, this`queue
      ensures Valid() && (a == 0 <==> old(queue) == [])
      ensures a == 0 ==> queue == old(queue) && mem == old(mem) && tail == old(tail)
      ensures a != 0 ==>
        |heads| == NUM_DISKS && DisksOk(old(mem), old(queue)) && Shortest(heads, old(mem), old(queue), |old(queue)|, b)
      // exactly the other requests are left, in order
      ensures a != 0 ==> a == old(queue)[b] && queue == Without(old(queue), b)
      ensures a != 0 ==> mem.Keys == old(mem.Keys) && forall c :: c in old(mem) ==>
        mem[c] == old(mem)[c].(next := mem[c].next)
      ensures a != 0 ==> Enabled(old(View()), Take(b)) && View() == Apply(old(View()), Take(b))
      // the tail is right exactly if the queue is empty, or if it was right and
      // a request before the last was taken
      ensures a != 0 ==>
        (TailIsLast(tail, queue) <==> queue == [] || (old(TailIsLast(tail, queue)) && b + 1 < |old(queue)|))
    {
      hide StatsOk, Queued, Shortest;
      b := 0;
      QueuedInMemory(mem, head, queue);
      StatsSizes();
      if head == 0 {
        return 0, b;
      }
      var best, prev;
      best, prev, b := FindShortest();
      ShortestIn(heads, mem, queue, b);
      Unlink(best, prev, b);
      a := best;
    }

    // The removal in schedule_sstf.
    method Unlink(best: nat, prev: nat, ghost b: nat)
      requires Valid() && b < |queue| && best == queue[b] && prev == (if b == 0 then 0 else queue[b - 1])
      modifies this`mem, this`head, this`tail, this`queue
      ensures Valid() && queue == Without(old(queue), b)
      ensures mem.Keys == old(mem.Keys) && forall c :: c in old(mem) ==> mem[c] == old(mem)[c].(next := mem[c].next)
      ensures TailIsLast(tail, queue) <==> queue == [] || (old(TailIsLast(tail, queue)) && b + 1 < |old(queue)|)
    {
      hide StatsOk, Queued, Without, Distinct;
      QueuedInMemory(mem, head, queue);
      WithoutFacts(queue, b);
      ghost var rest := Without(queue, b);
      if prev == 0 {
        PopQueued(mem, head, queue);
        head := mem[best].next;
      } else {
        UnlinkQueued(mem, head, queue, b);
        mem := mem[prev := mem[prev].(next := mem[best].next)];
      }
      RestHead(mem, head, rest);
      if head == 0 {
        tail := 0;
      }
      ElsewhereQueued(mem, head, rest, best, mem[best].(next := 0));
      mem := mem[best := mem[best].(next := 0)];
      queue := rest;
    }

    lemma StatsSizes()
      requires StatsOk()
      ensures |heads| == NUM_DISKS
    {
    }

    // process_disk_request with update_disk_stats
    method Process(a: nat)
      requires Valid() && (a != 0 ==> a in mem && mem[a].disk < NUM_DISKS)
      modifies this`heads, this`diskReads, this`diskWrites, this`latency, this`operations, this`paths
      ensures Valid()
      ensures a != 0 ==>
        && |old(paths)| == |paths| == NUM_DISKS
        && paths == old(paths)[mem[a].disk := old(paths)[mem[a].disk] + [mem[a].block]]
        && diskWrites == old(diskWrites) + (if mem[a].write then 1 else 0)
        && diskReads == old(diskReads) + (if mem[a].write then 0 else 1)
      ensures a == 0 ==> paths == old(paths) && diskReads == old(diskReads) && diskWrites == old(diskWrites)
    {
      hide QueueOk, Total, Travels, Moves;
      if a == 0 {
        return;
      }
      var r := mem[a];
      var lat := Latency(heads, r);
      StatsStep(paths, heads, r);
      heads := heads[r.disk := r.block];
      if r.write {
        diskWrites := diskWrites + 1;
      } else {
        diskReads := diskReads + 1;
      }
      latency, operations := latency + lat, operations + 1;
      paths := paths[r.disk := paths[r.disk] + [r.block]];
    }
  }

  // Two requests, of which SSTF takes the second; a third one is then lost.
  method LostRequest() returns (s: Scheduler)
    ensures fresh(s) && s.Valid() && s.queue == [1] && 3 in s.mem && s.mem[3] == Request(true, 0, 7, 0, 0)
  {
    hide Scheduler.StatsOk, Scheduler.QueueOk;
    s := new Scheduler();
    var ok := s.Add(false, Some((0, 100)), 0, 1);
    ok := s.Add(false, Some((0, 0)), 0, 2);
    assert s.queue == [1, 2] && s.heads == [0, 0, 0, 0];
    ghost var q, m := s.queue, s.mem;
    var a; ghost var b;
    a, b := s.Sstf();
    assert Before(s.heads, m[q[1]], m[q[0]]);
    assert b == 1 && Without(q, b) == [1];
    ok := s.Add(true, Some((0, 7)), 0, 3);
  }

  lemma StatsStep(paths: seq<seq<nat>>, heads: seq<nat>, r: Request)
    requires r.disk < |paths| == |heads| && paths[r.disk] != [] && heads[r.disk] == paths[r.disk][|paths[r.disk]| - 1]
    ensures var paths' := paths[r.disk := paths[r.disk] + [r.block]];
      && Total(Moves(paths')) == Total(Moves(paths)) + 1
      && Total(Travels(paths')) == Total(Travels(paths)) + Distance(heads[r.disk], r.block)
  {
    var d, path := r.disk, paths[r.disk];
    var longer := path + [r.block];
    var paths' := paths[d := longer];
    assert longer[..|longer| - 1] == path;
    assert Travel(longer) == Travel(path) + Distance(heads[d], r.block);
    assert Travels(paths') == Travels(paths)[d := Travel(longer)];
    assert Moves(paths') == Moves(paths)[d := |longer| - 1];
    TotalUpdate(Travels(paths), d, Travel(longer));
    TotalUpdate(Moves(paths), d, |longer| - 1);
  }

  lemma QueuedInMemory(mem: Memory, head: nat, q: seq<nat>)
    requires Queued(mem, head, q)
    ensures Distinct(q) && (head == 0 <==> q == []) && (q != [] ==> head == q[0]) && forall i :: 0 <= i < |q| ==>
      q[i] in mem && q[i] != 0
  {
    forall i | 0 <= i < |q| ensures q[i] in mem && q[i] != 0 {
      assert LinkAt(mem, q, i);
    }
  }

  lemma OneQueued(mem: Memory, a: nat)
    requires a != 0 && a in mem && mem[a].next == 0
    ensures Queued(mem, a, [a])
  {
  }

  lemma RestHead(mem: Memory, head: nat, q: seq<nat>)
    requires Queued(mem, head, q)
    ensures head == 0 <==> q == []
  {
    if q != [] {
      assert LinkAt(mem, q, 0);
    }
  }

  lemma ShortestIn(heads: seq<nat>, mem: Memory, q: seq<nat>, b: nat)
    requires |heads| == NUM_DISKS && DisksOk(mem, q) && Shortest(heads, mem, q, |q|, b)
    ensures b < |q|
  {
  }

  lemma WithoutFacts(q: seq<nat>, b: nat)
    requires Distinct(q) && b < |q|
    ensures q[b] !in Without(q, b) && (forall x :: x in Without(q, b) ==> x in q)
    ensures |Without(q, b)| == |q| - 1 && (b == 0 ==> Without(q, b) == q[1..])
    ensures |q| > 1 ==> Without(q, b)[|q| - 2] == if b == |q| - 1 then q[|q| - 2] else q[|q| - 1]
  {
  }
}
