/** The K&R allocator (user/umalloc.c). A pointer is a unit address; the block
    handed to the user starts one unit after its header. */
module Umalloc {
  import opened Blocks
  import opened FreeList

  const MINUNITS: nat := 4096
  const INTMAX: nat := 0x7fff_ffff

  // (nbytes + sizeof(Header) - 1) / sizeof(Header) + 1
  function Units(nbytes: Word32): nat {
    (nbytes + 15) / 16 + 1
  }

  function Max(a: nat, b: nat): nat {
    if a < b then b else a
  }

  // sbrk takes an int: the value it receives for a request of nu units.
  function SbrkArg(nu: nat): int {
    var n := nu * 16 % 0x1_0000_0000;
    if n > INTMAX then n - 0x1_0000_0000 else n
  }

  // morecore asks for what it then hands out exactly when the byte count fits
  // an int; beyond that it always asks for less.
  lemma SbrkRequestIsExact(nbytes: Word32)
    ensures var nu := Max(Units(nbytes), MINUNITS);
      && (SbrkArg(nu) == nu * 16 <==> nbytes <= 0x7fff_ffe0)
      && (nbytes > 0x7fff_ffe0 ==> SbrkArg(nu) < nu * 16)
  {
  }

  // The largest request: sbrk hands out one unit and morecore records 2^28 + 1.
  lemma LargestRequest()
    ensures Max(Units(0xffff_ffff), MINUNITS) == 0x1000_0001 && SbrkArg(0x1000_0001) == 16
  {
  }

  // Number of links to follow from block j to reach block f.
  function Ahead(m: nat, j: nat, f: nat): nat
    requires j < m && f < m
  {
    if j <= f then f - j else f - j + m
  }

  function NextIndex(m: nat, j: nat): nat
    requires j < m
  {
    if j + 1 < m then j + 1 else 0
  }

  lemma AddressesDiffer(l: seq<Seg>, i: nat, j: nat)
    requires Ordered(l) && i < |l| && j < |l| && l[i].a == l[j].a
    ensures i == j
  {
  }

  // `list` is the free list from base upwards, `live` the allocated blocks
  // (header address to size), `arena` the units obtained from sbrk, `top` the
  // end of the last of them.
  ghost predicate HeapOk(base: nat, mem: Memory, freep: nat, list: seq<Seg>, live: map<nat, nat>, arena: set<nat>,
                         top: nat) {
    && base > 0 && base in mem
    && Ordered(list) && list[0].a == base && LiveApart(list, live)
    && (forall x :: x in arena ==> x in mem && base < x < top)
    && (forall a :: a in live ==> a in mem && mem[a].size == live[a])
    && Partition(arena, list, live)
    && (if freep == 0 then list == [Seg(base, 0)] && live == map[]
        else Linked(mem, list) && OnList(list, freep))
  }

  ghost predicate OnList(list: seq<Seg>, a: nat) {
    exists i :: 0 <= i < |list| && list[i].a == a
  }

  // Every unit obtained from sbrk is in a free or an allocated block, and no other unit is.
  ghost predicate Partition(arena: set<nat>, list: seq<Seg>, live: map<nat, nat>) {
    forall x: nat :: x in arena <==> InFree(list, x) || InLive(live, x)
  }

  lemma FreePartition(arena: set<nat>, l: seq<Seg>, live: map<nat, nat>, t: nat, b: Seg)
    requires Partition(arena, l, live) && t < |l| && b.a in live && live[b.a] == b.s
    ensures Partition(arena, Freed(l, t, b), live - {b.a})
  {
    forall x: nat
      ensures x in arena <==> InFree(Freed(l, t, b), x) || InLive(live - {b.a}, x)
    {
      FreedUnits(l, t, b, x);
      if InLive(live, x) && !(b.a <= x < b.End()) {
        var a :| a in live && a <= x < a + live[a];
        assert a in live - {b.a};
      }
      if InLive(live - {b.a}, x) {
        var a :| a in live - {b.a} && a <= x < a + live[a];
        assert a in live;
      }
    }
  }

  // The freed list keeps the block before the freed one and holds all its units in one block.
  lemma FreedHolds(l: seq<Seg>, t: nat, b: Seg)
    requires Ordered(l) && Precedes(l, t, b.a) && b.s > 0
    ensures OnList(Freed(l, t, b), l[t].a) && l[0].a <= l[t].a
    ensures Holds(Freed(l, t, b), b)
  {
    var m := Freed(l, t, b);
    FreedAt(l, t, b, t);
    assert m[t].a == l[t].a;
    var i := if l[t].End() == b.a then t else t + 1;
    FreedAt(l, t, b, i);
    assert m[i].a <= b.a && b.End() <= m[i].End();
  }

  lemma FreeKeepsHeap(base: nat, mem: Memory, freep: nat, l: seq<Seg>, live: map<nat, nat>, arena: set<nat>, top: nat,
                      t: nat, bp: nat)
    requires HeapOk(base, mem, freep, l, live, arena, top) && freep != 0 && bp in live && Precedes(l, t, bp)
    ensures l[t].a > 0 && l[t].a in mem && bp in mem && mem[l[t].a].ptr in mem
    ensures HeapOk(base, FreeMem(mem, l[t].a, bp), l[t].a, Freed(l, t, Seg(bp, live[bp])), live - {bp}, arena, top)
    ensures forall x: nat :: InLive(live - {bp}, x) ==> x in mem && FreeMem(mem, l[t].a, bp)[x] == mem[x]
    ensures Holds(Freed(l, t, Seg(bp, live[bp])), Seg(bp, live[bp]))
  {
    hide Ordered, Linked, LiveApart, Partition, Freed, InLive, Holds, OnList;
    var b := Seg(bp, live[bp]);
    LiveBlockApart(l, live, bp);
    FreedOrdered(l, t, b);
    FreeMemLinks(mem, l, t, b);
    FreedApart(l, t, b, live);
    FreePartition(arena, l, live, t, b);
    FreedHolds(l, t, b);
    LiveUntouched(mem, l, live, t, b, arena);
    FreeMemElsewhere(mem, l[t].a, bp);
  }

  ghost predicate Holds(l: seq<Seg>, b: Seg) {
    exists i :: 0 <= i < |l| && l[i].a <= b.a && b.End() <= l[i].End()
  }

  lemma LiveBlockApart(l: seq<Seg>, live: map<nat, nat>, a: nat)
    requires Ordered(l) && LiveApart(l, live) && a in live
    ensures live[a] > 0 && l[0].a < a && forall i :: 0 <= i < |l| ==> Apart(a, live[a], l[i].a, l[i].s)
  {
  }

  lemma FreeMemElsewhere(mem: Memory, p: nat, bp: nat)
    requires p in mem && bp in mem && mem[p].ptr in mem
    ensures FreeMem(mem, p, bp).Keys == mem.Keys
    ensures forall x :: x in mem && x != p && x != bp ==> FreeMem(mem, p, bp)[x] == mem[x]
  {
  }

  // free writes only the headers of p and bp, and neither is in another allocated block.
  lemma LiveUntouched(mem: Memory, l: seq<Seg>, live: map<nat, nat>, t: nat, b: Seg, arena: set<nat>)
    requires Ordered(l) && LiveApart(l, live) && b.a in live && live[b.a] == b.s && t < |l|
    requires Partition(arena, l, live) && forall x :: x in arena ==> x in mem
    ensures forall x: nat :: InLive(live - {b.a}, x) ==> x != l[t].a && x != b.a && x in mem
    ensures forall a :: a in live - {b.a} ==> a != l[t].a && a != b.a
  {
    forall a | a in live - {b.a} ensures a != l[t].a && a != b.a {
      assert live[a] > 0;
      if t > 0 {
        assert Apart(a, live[a], l[t].a, l[t].s);
      }
    }
    forall x | InLive(live - {b.a}, x) ensures x != l[t].a && x != b.a && x in mem {
      var a :| a in live - {b.a} && a <= x < a + live[a];
      assert a in live;
      assert x in arena;
      assert Apart(a, live[a], b.a, live[b.a]) && l[0].a < a;
      if t > 0 {
        assert Apart(a, live[a], l[t].a, l[t].s);
      }
    }
  }

  function UnitRange(a: nat, n: nat): (s: set<nat>)
    ensures |s| == n && forall x: nat :: x in s <==> a <= x < a + n
  {
    if n == 0 then {} else UnitRange(a, n - 1) + {a + n - 1}
  }

  // The memory that sbrk adds.
  function Fresh(a: nat, n: nat): (m: Memory)
    ensures m.Keys == UnitRange(a, n)
  {
    map x | x in UnitRange(a, n) :: Header(0, 0)
  }

  // ... and the header that morecore writes at its start.
  function GrowMem(mem: Memory, hp: nat, nu: nat): Memory {
    (mem + Fresh(hp, nu))[hp := Header(0, nu)]
  }

  lemma BlocksBelowTop(base: nat, mem: Memory, freep: nat, l: seq<Seg>, live: map<nat, nat>, arena: set<nat>, top: nat)
    requires HeapOk(base, mem, freep, l, live, arena, top)
    ensures |l| > 0 && forall i :: 0 < i < |l| ==> l[i].a in arena && l[i].End() <= top
    ensures forall a :: a in live ==> a in arena && a + live[a] <= top
    ensures forall x: nat :: InLive(live, x) ==> x in mem && x < top
  {
    forall i | 0 < i < |l| ensures l[i].a in arena && l[i].End() <= top {
      assert InFree(l, l[i].a);
      assert InFree(l, l[i].End() - 1);
    }
    forall a | a in live ensures a in arena && a + live[a] <= top {
      assert InLive(live, a);
      assert InLive(live, a + live[a] - 1);
    }
  }

  // Memory from sbrk joins the heap as one allocated block.
  lemma GrowKeepsHeap(base: nat, mem: Memory, freep: nat, l: seq<Seg>, live: map<nat, nat>, arena: set<nat>, top: nat,
                      hp: nat, nu: nat)
    requires HeapOk(base, mem, freep, l, live, arena, top) && freep != 0 && hp >= top && hp > base && nu > 0
    ensures hp !in live && live[hp := nu] - {hp} == live
    ensures HeapOk(base, GrowMem(mem, hp, nu), freep, l, live[hp := nu], arena + UnitRange(hp, nu), hp + nu)
    ensures forall x: nat :: InLive(live, x) ==>
      x in mem && InLive(live[hp := nu], x) && x in GrowMem(mem, hp, nu) && GrowMem(mem, hp, nu)[x] == mem[x]
  {
    hide Ordered, Linked, LiveApart, Partition, InLive, OnList, UnitRange;
    BlocksBelowTop(base, mem, freep, l, live, arena, top);
    GrowApart(l, live, hp, nu);
    GrowLinked(mem, l, hp, nu);
    GrowPartition(arena, l, live, hp, nu);
    GrowsInLive(live, hp, nu);
  }

  lemma GrowApart(l: seq<Seg>, live: map<nat, nat>, hp: nat, nu: nat)
    requires |l| > 0 && LiveApart(l, live) && l[0].a < hp && nu > 0
    requires forall i :: 0 < i < |l| ==> l[i].End() <= hp
    requires forall a :: a in live ==> a + live[a] <= hp
    ensures hp !in live && LiveApart(l, live[hp := nu]) && live[hp := nu] - {hp} == live
  {
  }

  lemma GrowLinked(mem: Memory, l: seq<Seg>, hp: nat, nu: nat)
    requires Linked(mem, l) && forall i :: 0 <= i < |l| ==> l[i].a < hp
    ensures Linked(GrowMem(mem, hp, nu), l)
  {
    var mem' := GrowMem(mem, hp, nu);
    forall i | 0 <= i < |l| ensures LinkedAt(mem', l, i) {
      assert LinkedAt(mem, l, i) && l[i].a < hp;
    }
  }

  lemma GrowsInLive(live: map<nat, nat>, hp: nat, nu: nat)
    requires hp !in live
    ensures forall x: nat :: InLive(live, x) ==> InLive(live[hp := nu], x)
  {
    forall x: nat | InLive(live, x) ensures InLive(live[hp := nu], x) {
      var a :| a in live && a <= x < a + live[a];
      assert a in live[hp := nu];
    }
  }

  lemma GrowPartition(arena: set<nat>, l: seq<Seg>, live: map<nat, nat>, hp: nat, nu: nat)
    requires Partition(arena, l, live) && hp !in live
    ensures Partition(arena + UnitRange(hp, nu), l, live[hp := nu])
  {
    var live' := live[hp := nu];
    forall x: nat ensures x in arena + UnitRange(hp, nu) <==> InFree(l, x) || InLive(live', x) {
      if InLive(live, x) {
        var a :| a in live && a <= x < a + live[a];
        assert a in live';
      }
      if hp <= x < hp + nu {
        assert hp in live';
      }
      if InLive(live', x) && !(hp <= x < hp + nu) {
        var a :| a in live' && a <= x < a + live'[a];
        assert a in live;
      }
    }
  }

  // free's two exit tests hold together at the predecessor and nowhere else.
  lemma SearchStopsAtPredecessor(mem: Memory, l: seq<Seg>, t: nat, bp: nat, k: nat)
    requires Ordered(l) && Linked(mem, l) && Precedes(l, t, bp) && k < |l| && l[0].a < bp
    ensures l[k].a in mem && mem[l[k].a].ptr == l[NextIndex(|l|, k)].a
    ensures var p := l[k].a; var q := mem[p].ptr;
      (bp > p && bp < q) || (p >= q && (bp > p || bp < q)) <==> k == t
  {
    assert LinkedAt(mem, l, k);
    assert k < t ==> l[k].a < l[t].a;
    assert k + 1 < t ==> l[k + 1].a < l[t].a;
    assert k > t + 1 ==> l[t + 1].a < l[k].a;
    assert k > 0 ==> l[0].a < l[k].a;
    assert k + 1 < |l| ==> l[k].a < l[k + 1].a;
    hide Ordered, Linked;
  }

  class Heap {
    const base: nat
    var mem: Memory
    var freep: nat               // 0 is the null pointer
    ghost var list: seq<Seg>     // the free list from base upwards
    ghost var live: map<nat, nat>  // allocated blocks: header address to size
    ghost var arena: set<nat>    // units obtained from sbrk
    ghost var top: nat           // end of the last sbrk

    ghost predicate Valid()
      reads this
    {
      HeapOk(base, mem, freep, list, live, arena, top)
    }

    constructor (b: nat)
      requires b > 0
      ensures Valid() && base == b && freep == 0 && live == map[] && arena == {} && top == b
    {
      base, mem, freep := b, map[b := Header(0, 0)], 0;
      list, live, arena, top := [Seg(b, 0)], map[], {}, b;
    }

    // The search loop of free: the block that the freed one goes after.
    method FindPredecessor(bp: nat) returns (p: nat, ghost t: nat)
      requires Valid() && freep != 0 && bp in live
      ensures t < |list| && Precedes(list, t, bp) && p == list[t].a
    {
      t := PredecessorOf(bp);
      ghost var f := FreepIndex();
      hide Ordered, Linked, Precedes, LiveApart, Valid;
      ghost var k, m := f, |list|;
      p := freep;
      SearchStopsAtPredecessor(mem, list, t, bp, k);
      while !(bp > p && bp < mem[p].ptr)
        invariant 0 <= k < m && p == list[k].a && p in mem && mem[p].ptr == list[NextIndex(m, k)].a
        invariant var q := mem[p].ptr; (bp > p && bp < q) || (p >= q && (bp > p || bp < q)) <==> k == t
        decreases Ahead(m, k, t)
      {
        if p >= mem[p].ptr && (bp > p || bp < mem[p].ptr) {
          break;
        }
        p := mem[p].ptr;
        k := NextIndex(m, k);
        SearchStopsAtPredecessor(mem, list, t, bp, k);
      }
    }

    lemma LiveInMemory()
      requires Valid()
      ensures forall x: nat :: InLive(live, x) ==> x in mem
    {
      BlocksBelowTop(base, mem, freep, list, live, arena, top);
    }

    lemma HasBeenUsed(bp: nat)
      requires Valid() && bp in live
      ensures freep != 0
    {
    }

    lemma FreepIndex() returns (f: nat)
      requires Valid() && freep != 0
      ensures f < |list| && list[f].a == freep
    {
      f :| f < |list| && list[f].a == freep;
    }

    lemma PredecessorOf(bp: nat) returns (t: nat)
      requires Valid() && freep != 0 && bp in live
      ensures Ordered(list) && Linked(mem, list) && list[0].a < bp && t < |list| && Precedes(list, t, bp)
    {
      forall i | 0 <= i < |list| ensures list[i].a != bp {
        if i > 0 {
          assert Apart(bp, live[bp], list[i].a, list[i].s);
        }
      }
      t := PredecessorExists(list, bp);
    }

    // free
    method Free(ap: nat)
      requires Valid() && ap > 0 && ap - 1 in live
      modifies this
      ensures Valid() && live == old(live) - {ap - 1} && arena == old(arena) && top == old(top)
      ensures freep != 0 && mem.Keys == old(mem.Keys)
      // no block still allocated is written to
      ensures forall x: nat :: InLive(live, x) ==> x in mem && mem[x] == old(mem[x])
      // the freed units are in one block of the list
      ensures Holds(list, Seg(ap - 1, old(live[ap - 1])))
    {
      var bp := ap - 1;
      hide Ordered, Linked, LiveApart, Partition, Freed, FreeMem, Precedes, HeapOk, Holds, InLive;
      HasBeenUsed(bp);
      var p, t := FindPredecessor(bp);
      FreeKeepsHeap(base, mem, freep, list, live, arena, top, t, bp);
      FreeMemElsewhere(mem, p, bp);
      LinkIn(p, bp);
      freep := p;
      list := Freed(list, t, Seg(bp, live[bp]));
      live := live - {bp};
    }

    // The writes of free, after its search.
    method LinkIn(p: nat, bp: nat)
      requires p in mem && bp in mem && mem[p].ptr in mem
      modifies this`mem
      ensures mem == FreeMem(old(mem), p, bp)
    {
      if bp + mem[bp].size == mem[p].ptr {
        var next := mem[p].ptr;
        mem := mem[bp := mem[bp].(size := mem[bp].size + mem[next].size)];
        mem := mem[bp := mem[bp].(ptr := mem[next].ptr)];
      } else {
        mem := mem[bp := mem[bp].(ptr := mem[p].ptr)];
      }
      if p + mem[p].size == bp {
        mem := mem[p := mem[p].(size := mem[p].size + mem[bp].size)];
        mem := mem[p := mem[p].(ptr := mem[bp].ptr)];
      } else {
        mem := mem[p := mem[p].(ptr := bp)];
      }
    }

    // morecore: `brk` is where sbrk put the new memory, None if it failed.
    method Morecore(nunits: nat, brk: Option<nat>) returns (p: nat)
      requires Valid() && freep != 0
      requires brk.Some? ==> brk.value >= top && brk.value > base
      modifies this
      ensures Valid() && live == old(live) && p == (if brk.Some? then freep else 0)
      ensures brk.None? ==>
        mem == old(mem) && freep == old(freep) && list == old(list) && arena == old(arena) && top == old(top)
      ensures brk.Some? ==>
        var nu := Max(nunits, MINUNITS);
        && freep != 0 && top == brk.value + nu
        && arena == old(arena) + UnitRange(brk.value, nu)
        && Holds(list, Seg(brk.value, nu))
      ensures forall x: nat :: InLive(live, x) ==> x in mem && x in old(mem) && mem[x] == old(mem[x])
    {
      hide HeapOk, InLive, UnitRange, Holds;
      LiveInMemory();
      if brk.None? {
        return 0;
      }
      var nu, hp := Max(nunits, MINUNITS), brk.value;
      AddBlock(hp, nu);
      Free(hp + 1);
      p := freep;
    }

    // sbrk succeeds and morecore writes the size into the new block.
    method AddBlock(hp: nat, nu: nat)
      requires Valid() && freep != 0 && hp >= top && hp > base && nu > 0
      modifies this
      ensures Valid() && hp !in old(live) && live == old(live)[hp := nu] && top == hp + nu && freep == old(freep)
      ensures arena == old(arena) + UnitRange(hp, nu) && old(live)[hp := nu] - {hp} == old(live)
      ensures forall x: nat :: InLive(old(live), x) ==>
        InLive(live, x) && x in old(mem) && x in mem && mem[x] == old(mem[x])
    {
      hide HeapOk, InLive, UnitRange, GrowMem;
      GrowKeepsHeap(base, mem, freep, list, live, arena, top, hp, nu);
      mem := GrowMem(mem, hp, nu);
      arena, top, live := arena + UnitRange(hp, nu), hp + nu, live[hp := nu];
    }

    // malloc found block p, after prevp, large enough: take n units from its end.
    method Take(prevp: nat, p: nat, n: nat, ghost k: nat) returns (r: nat)
      requires Valid() && freep != 0 && 0 < k < |list| && list[k].a == p && list[k - 1].a == prevp
      requires 0 < n <= list[k].s
      modifies this
      ensures Valid() && freep == prevp != 0 && r > 0 && arena == old(arena) && top == old(top)
      ensures r - 1 !in old(live) && live == old(live)[r - 1 := n]
      ensures forall x: nat :: InLive(old(live), x) ==> x in old(mem) && x in mem && mem[x] == old(mem[x])
    {
      hide HeapOk, InLive, Taken, TakeMem;
      TakeKeepsHeap(base, mem, freep, list, live, arena, top, k, n);
      mem, r := CutBlock(prevp, p, n);
      freep := prevp;
      list, live := Taken(list, k, n), live[r - 1 := n];
    }

    method CutBlock(prevp: nat, p0: nat, n: nat) returns (mem': Memory, r: nat)
      requires prevp in mem && p0 in mem && n <= mem[p0].size && p0 + mem[p0].size - n in mem
      ensures mem' == TakeMem(mem, prevp, p0, n) && r == p0 + mem[p0].size - n + 1
    {
      var p := p0;
      mem' := mem;
      if mem'[p].size == n {
        mem' := mem'[prevp := mem'[prevp].(ptr := mem'[p].ptr)];
      } else {
        mem' := mem'[p := mem'[p].(size := mem'[p].size - n)];
        p := p + mem'[p].size;
        mem' := mem'[p := mem'[p].(size := n)];
      }
      r := p + 1;
    }

    // malloc. `brk` is the outcome of sbrk, should malloc need it; the size
    // bound is where sbrk still receives the size that morecore means.
    method Malloc(nbytes: Word32, brk: Option<nat>) returns (r: nat)
      requires Valid()
      // asked only when no free block is large enough
      requires brk.Some? && !Fits(list, Units(nbytes)) ==>
        brk.value >= top && brk.value > base && nbytes <= 0x7fff_ffe0
      modifies this
      ensures Valid()
      ensures r != 0 ==> r - 1 !in old(live) && live == old(live)[r - 1 := Units(nbytes)]
      // past the header unit, room for the bytes and less than a unit more
      ensures r != 0 ==> nbytes <= 16 * (live[r - 1] - 1) < nbytes + 16
      ensures r == 0 ==> brk.None? && live == old(live) && !Fits(old(list), Units(nbytes))
      // sbrk is used at most once, and only when no free block is large enough
      ensures if Fits(old(list), Units(nbytes)) || brk.None? then arena == old(arena)
              else arena == old(arena) + UnitRange(brk.value, Max(Units(nbytes), MINUNITS))
      ensures forall x: nat :: InLive(old(live), x) ==> x in old(mem) && x in mem && mem[x] == old(mem[x])
    {
      var nunits := Units(nbytes);
      if freep == 0 {
        FirstUse();
      }
      r := Search(nunits, brk);
    }

    // `if((prevp = freep) == 0)`: the list is just the sentinel.
    method FirstUse()
      requires Valid() && freep == 0
      modifies this`mem, this`freep
      ensures Valid() && freep != 0
      ensures forall x: nat :: InLive(live, x) ==> x in old(mem) && x in mem && mem[x] == old(mem[x])
    {
      mem := mem[base := Header(base, 0)];
      freep := base;
      assert list[0].a == base;
    }

    // malloc's loop around the list.
    method Search(nunits: nat, brk: Option<nat>) returns (r: nat)
      requires Valid() && freep != 0 && nunits > 0
      requires brk.Some? && !Fits(list, nunits) ==> brk.value >= top && brk.value > base
      modifies this
      ensures Valid()
      ensures r != 0 ==> r - 1 !in old(live) && live == old(live)[r - 1 := nunits]
      ensures r == 0 ==> brk.None? && live == old(live) && !Fits(old(list), nunits)
      ensures if Fits(old(list), nunits) || brk.None? then arena == old(arena)
              else arena == old(arena) + UnitRange(brk.value, Max(nunits, MINUNITS))
      ensures forall x: nat :: InLive(old(live), x) ==> x in old(mem) && x in mem && mem[x] == old(mem[x])
    {
      hide HeapOk, InLive, Fits, Unvisited;
      LiveInMemory();
      ghost var f: nat := FreepIndex();
      ghost var i: nat, grown := f, false;
      var prevp := freep;
      FollowLink(base, mem, freep, list, live, arena, top, f);
      var p := mem[prevp].ptr;
      StartRound(list, f, nunits);
      while true
        invariant Valid() && freep != 0 && live == old(live)
        invariant i < |list| && f < |list| && list[f].a == freep
        invariant prevp == list[i].a && p == list[NextIndex(|list|, i)].a
        invariant Unvisited(list, NextIndex(|list|, i), f, nunits)
        invariant !grown ==> list == old(list) && arena == old(arena) && top == old(top)
        invariant grown ==> brk.Some? && !Fits(old(list), nunits) && Fits(list, nunits)
        invariant grown ==> arena == old(arena) + UnitRange(brk.value, Max(nunits, MINUNITS))
        invariant forall x: nat :: InLive(old(live), x) ==> x in old(mem) && x in mem && mem[x] == old(mem[x])
        decreases if grown then 0 else 1, Ahead(|list|, NextIndex(|list|, i), f)
      {
        ghost var j := NextIndex(|list|, i);
        FollowLink(base, mem, freep, list, live, arena, top, j);
        if mem[p].size >= nunits {
          LargeEnough(list, j, nunits);
          r := Take(prevp, p, nunits, j);
          return;
        }
        if p == freep {
          SameBlock(base, mem, freep, list, live, arena, top, j, f);
          RoundOver(list, f, nunits);
          assert !grown;
          p := Morecore(nunits, brk);
          if p == 0 {
            return 0;
          }
          grown := true;
          f := FreepIndex();
          j := f;
          HeldFits(list, Seg(brk.value, Max(nunits, MINUNITS)), nunits);
          StartRound(list, f, nunits);
          FollowLink(base, mem, freep, list, live, arena, top, f);
        } else {
          NextBlock(list, j, f, nunits);
        }
        prevp := p;
        p := mem[p].ptr;
        i := j;
      }
    }
  }

  // Some free block has at least n units.
  ghost predicate Fits(l: seq<Seg>, n: nat) {
    exists g :: 0 <= g < |l| && l[g].s >= n
  }

  // Every block with n units is still ahead of j on the way to f.
  ghost predicate Unvisited(l: seq<Seg>, j: nat, f: nat, n: nat) {
    && j < |l| && f < |l|
    && forall g: nat :: g < |l| && l[g].s >= n ==> Ahead(|l|, j, g) <= Ahead(|l|, j, f)
  }

  lemma StartRound(l: seq<Seg>, f: nat, n: nat)
    requires f < |l|
    ensures Unvisited(l, NextIndex(|l|, f), f, n)
  {
  }

  lemma NextBlock(l: seq<Seg>, j: nat, f: nat, n: nat)
    requires Unvisited(l, j, f, n) && l[j].s < n && j != f
    ensures Unvisited(l, NextIndex(|l|, j), f, n) && Ahead(|l|, NextIndex(|l|, j), f) < Ahead(|l|, j, f)
  {
  }

  lemma RoundOver(l: seq<Seg>, f: nat, n: nat)
    requires Unvisited(l, f, f, n) && l[f].s < n
    ensures !Fits(l, n)
  {
  }

  lemma LargeEnough(l: seq<Seg>, j: nat, n: nat)
    requires j < |l| && l[j].s >= n
    ensures Fits(l, n)
  {
  }

  lemma HeldFits(l: seq<Seg>, b: Seg, n: nat)
    requires Holds(l, b) && b.s >= n
    ensures Fits(l, n)
  {
    var i :| 0 <= i < |l| && l[i].a <= b.a && b.End() <= l[i].End();
    assert l[i].s >= n;
  }

  lemma FollowLink(base: nat, mem: Memory, freep: nat, l: seq<Seg>, live: map<nat, nat>, arena: set<nat>, top: nat,
                   j: nat)
    requires HeapOk(base, mem, freep, l, live, arena, top) && freep != 0 && j < |l|
    ensures l[j].a in mem && mem[l[j].a] == Header(l[NextIndex(|l|, j)].a, l[j].s)
    ensures l[j].s > 0 ==> j > 0
  {
    assert LinkedAt(mem, l, j);
  }

  lemma SameBlock(base: nat, mem: Memory, freep: nat, l: seq<Seg>, live: map<nat, nat>, arena: set<nat>, top: nat,
                  j: nat, f: nat)
    requires HeapOk(base, mem, freep, l, live, arena, top) && j < |l| && f < |l| && l[j].a == l[f].a
    ensures j == f
  {
    AddressesDiffer(l, j, f);
  }

  lemma TakeKeepsHeap(base: nat, mem: Memory, freep: nat, l: seq<Seg>, live: map<nat, nat>, arena: set<nat>, top: nat,
                      k: nat, n: nat)
    requires HeapOk(base, mem, freep, l, live, arena, top) && freep != 0 && 0 < k < |l| && 0 < n <= l[k].s
    ensures var r := TakenAddr(l, k, n);
      && r !in live && r in mem && l[k - 1].a in mem && l[k].a in mem && mem[l[k].a].size == l[k].s && l[k - 1].a > 0
      && HeapOk(base, TakeMem(mem, l[k - 1].a, l[k].a, n), l[k - 1].a, Taken(l, k, n), live[r := n], arena, top)
    ensures forall x: nat :: InLive(live, x) ==>
      x in mem && x in TakeMem(mem, l[k - 1].a, l[k].a, n) && TakeMem(mem, l[k - 1].a, l[k].a, n)[x] == mem[x]
  {
    hide Ordered, Linked, LiveApart, Partition, Taken, InLive, OnList, TakeMem;
    TakenPlace(base, mem, freep, l, live, arena, top, k, n);
    TakeUntouched(l, live, k, n);
    BlocksBelowTop(base, mem, freep, l, live, arena, top);
    TakenOrdered(l, k, n);
    TakenApart(l, k, n, live);
    TakeMemLinks(mem, l, k, n);
    TakePartition(arena, l, live, k, n);
    TakeMemElsewhere(mem, l[k - 1].a, l[k].a, n);
  }

  lemma TakeMemElsewhere(mem: Memory, prevp: nat, p: nat, n: nat)
    requires prevp in mem && p in mem && n <= mem[p].size && p + mem[p].size - n in mem
    ensures TakeMem(mem, prevp, p, n).Keys == mem.Keys
    ensures forall x :: x in mem && x != prevp && x != p && x != p + mem[p].size - n ==>
      TakeMem(mem, prevp, p, n)[x] == mem[x]
  {
  }

  lemma TakePartition(arena: set<nat>, l: seq<Seg>, live: map<nat, nat>, k: nat, n: nat)
    requires Partition(arena, l, live) && 0 < k < |l| && 0 < n <= l[k].s && TakenAddr(l, k, n) !in live
    ensures Partition(arena, Taken(l, k, n), live[TakenAddr(l, k, n) := n])
  {
    var r := TakenAddr(l, k, n);
    var live' := live[r := n];
    forall x: nat ensures x in arena <==> InFree(Taken(l, k, n), x) || InLive(live', x) {
      TakenUnits(l, k, n, x);
      if InLive(live, x) {
        var a :| a in live && a <= x < a + live[a];
        assert a in live';
      }
      if r <= x < r + n {
        assert r in live';
      }
      if InLive(live', x) && !(r <= x < r + n) {
        var a :| a in live' && a <= x < a + live'[a];
        assert a in live;
      }
    }
  }

  lemma TakenPlace(base: nat, mem: Memory, freep: nat, l: seq<Seg>, live: map<nat, nat>, arena: set<nat>, top: nat,
                   k: nat, n: nat)
    requires HeapOk(base, mem, freep, l, live, arena, top) && 0 < k < |l| && 0 < n <= l[k].s
    ensures TakenAddr(l, k, n) in mem && 0 < l[k - 1].a && OnList(Taken(l, k, n), l[k - 1].a)
  {
    assert InFree(l, TakenAddr(l, k, n));
    assert k > 1 ==> l[0].a < l[k - 1].a;
    TakenAt(l, k, n, k - 1);
    assert Taken(l, k, n)[k - 1].a == l[k - 1].a;
  }

  // malloc writes only headers of the list, and none is in an allocated block.
  lemma TakeUntouched(l: seq<Seg>, live: map<nat, nat>, k: nat, n: nat)
    requires Ordered(l) && LiveApart(l, live) && 0 < k < |l| && 0 < n <= l[k].s
    ensures forall x: nat :: InLive(live, x) ==> x != l[k - 1].a && x != l[k].a && x != TakenAddr(l, k, n)
    ensures forall a :: a in live ==> InLive(live, a)
  {
    forall x: nat | InLive(live, x) ensures x != l[k - 1].a && x != l[k].a && x != TakenAddr(l, k, n) {
      var a :| a in live && a <= x < a + live[a];
      assert Apart(a, live[a], l[k].a, l[k].s) && l[0].a < a;
      if k > 1 {
        assert Apart(a, live[a], l[k - 1].a, l[k - 1].s);
      }
    }
    forall a | a in live ensures InLive(live, a) {
      assert live[a] > 0;
    }
  }
}
