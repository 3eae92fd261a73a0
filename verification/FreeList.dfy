/** The free list of the K&R allocator (user/umalloc.c) as the blocks it strings
    together: first the sentinel `base` of size 0, then the free blocks by
    address. Addresses and sizes are in units of one Header. */
module FreeList {
  datatype Seg = Seg(a: nat, s: nat) {
    function End(): nat { a + s }
  }

  datatype Header = Header(ptr: nat, size: nat)
  type Memory = map<nat, Header>

  // Ascending, disjoint, and no two blocks adjacent: adjacency is allowed only
  // just after block t, while free() has not merged it yet.
  ghost predicate OrderedBut(l: seq<Seg>, t: int) {
    && |l| > 0 && l[0].s == 0
    && (forall i :: 0 < i < |l| ==> l[i].s > 0)
    && (forall i, j :: 0 <= i < j < |l| ==> l[i].End() < l[j].a || (i == t && j == t + 1 && l[i].End() == l[j].a))
  }

  ghost predicate Ordered(l: seq<Seg>) {
    OrderedBut(l, -1)
  }

  function NextAddr(l: seq<Seg>, i: nat): nat
    requires i < |l|
  {
    if i + 1 < |l| then l[i + 1].a else l[0].a
  }

  // The headers in memory form one cycle through exactly these blocks.
  ghost predicate Linked(mem: Memory, l: seq<Seg>) {
    forall i :: 0 <= i < |l| ==> LinkedAt(mem, l, i)
  }

  ghost predicate LinkedAt(mem: Memory, l: seq<Seg>, i: nat)
    requires i < |l|
  {
    l[i].a in mem && mem[l[i].a] == Header(NextAddr(l, i), l[i].s)
  }

  ghost predicate Apart(a: nat, n: nat, b: nat, m: nat) {
    a + n <= b || b + m <= a
  }

  // Allocated blocks lie above the sentinel, apart from each other and from the free list.
  ghost predicate LiveApart(l: seq<Seg>, live: map<nat, nat>) {
    && |l| > 0
    && (forall a :: a in live ==> live[a] > 0 && l[0].a < a)
    && (forall a, i :: a in live && 0 < i < |l| ==> Apart(a, live[a], l[i].a, l[i].s))
    && (forall a, b :: a in live && b in live && a != b ==> Apart(a, live[a], b, live[b]))
  }

  ghost predicate InFree(l: seq<Seg>, x: nat) {
    exists i :: 0 <= i < |l| && l[i].a <= x < l[i].End()
  }

  ghost predicate InLive(live: map<nat, nat>, x: nat) {
    exists a :: a in live && a <= x < a + live[a]
  }

  // Where free() links a block in: after the last block below it.
  ghost predicate Precedes(l: seq<Seg>, t: nat, a: nat) {
    t < |l| && l[t].a < a && (t + 1 < |l| ==> a < l[t + 1].a)
  }

  lemma {:induction false} PredecessorExists(l: seq<Seg>, a: nat) returns (t: nat)
    requires Ordered(l) && l[0].a < a && forall i :: 0 <= i < |l| ==> l[i].a != a
    ensures Precedes(l, t, a)
  {
    t := 0;
    while t + 1 < |l| && l[t + 1].a < a
      invariant t < |l| && l[t].a < a
    {
      t := t + 1;
    }
  }

  // First half of free(): link b in after block t, swallowing block t + 1 if adjacent.
  function Absorbed(l: seq<Seg>, t: nat, b: Seg): seq<Seg>
    requires t < |l|
  {
    if t + 1 < |l| && b.End() == l[t + 1].a
    then l[..t + 1] + [Seg(b.a, b.s + l[t + 1].s)] + l[t + 2..]
    else l[..t + 1] + [b] + l[t + 1..]
  }

  // Second half: merge block t + 1 into block t if adjacent.
  function Joined(l: seq<Seg>, t: nat): seq<Seg>
    requires t + 1 < |l|
  {
    if l[t].End() == l[t + 1].a
    then l[..t] + [Seg(l[t].a, l[t].s + l[t + 1].s)] + l[t + 2..]
    else l
  }

  function Freed(l: seq<Seg>, t: nat, b: Seg): seq<Seg>
    requires t < |l|
  {
    Joined(Absorbed(l, t, b), t)
  }

  lemma AbsorbedAt(l: seq<Seg>, t: nat, b: Seg, i: nat)
    requires t < |l| && i < |Absorbed(l, t, b)|
    ensures var merged := t + 1 < |l| && b.End() == l[t + 1].a;
      Absorbed(l, t, b)[i] ==
        if i <= t then l[i]
        else if i == t + 1 then (if merged then Seg(b.a, b.s + l[t + 1].s) else b)
        else if merged then l[i] else l[i - 1]
  {
  }

  lemma AbsorbedPair(l: seq<Seg>, t: nat, b: Seg, i: nat, j: nat)
    requires Ordered(l) && Precedes(l, t, b.a) && b.s > 0
    requires forall i :: 0 <= i < |l| ==> Apart(b.a, b.s, l[i].a, l[i].s)
    requires i < j < |Absorbed(l, t, b)|
    ensures var m := Absorbed(l, t, b);
      m[i].End() < m[j].a || (i == t && j == t + 1 && m[i].End() == m[j].a)
  {
    AbsorbedAt(l, t, b, i);
    AbsorbedAt(l, t, b, j);
    var merged := t + 1 < |l| && b.End() == l[t + 1].a;
    assert Apart(b.a, b.s, l[t].a, l[t].s);
    assert i < t ==> l[i].End() < l[t].a;
    if t + 1 < |l| {
      assert Apart(b.a, b.s, l[t + 1].a, l[t + 1].s);
      if j > t + 1 {
        var k := if merged then j else j - 1;
        assert k > t + 1 ==> l[t + 1].End() < l[k].a;
      }
    }
    hide Absorbed, Precedes;
  }

  lemma AbsorbedOrdered(l: seq<Seg>, t: nat, b: Seg)
    requires Ordered(l) && Precedes(l, t, b.a) && b.s > 0
    requires forall i :: 0 <= i < |l| ==> Apart(b.a, b.s, l[i].a, l[i].s)
    ensures OrderedBut(Absorbed(l, t, b), t) && Absorbed(l, t, b)[0] == l[0]
  {
    var m := Absorbed(l, t, b);
    forall i, j | 0 <= i < j < |m|
      ensures m[i].End() < m[j].a || (i == t && j == t + 1 && m[i].End() == m[j].a)
    {
      AbsorbedPair(l, t, b, i, j);
    }
    forall i | 0 < i < |m| ensures m[i].s > 0 {
      AbsorbedAt(l, t, b, i);
    }
  }

  lemma JoinedAt(l: seq<Seg>, t: nat, i: nat)
    requires t + 1 < |l| && i < |Joined(l, t)| && l[t].End() == l[t + 1].a
    ensures Joined(l, t)[i] == if i < t then l[i] else if i == t then Seg(l[t].a, l[t].s + l[t + 1].s) else l[i + 1]
  {
  }

  lemma JoinedOrdered(l: seq<Seg>, t: nat)
    requires t + 1 < |l| && OrderedBut(l, t) && l[0].a < l[1].a
    ensures Ordered(Joined(l, t)) && Joined(l, t)[0] == l[0]
  {
    var m := Joined(l, t);
    if l[t].End() == l[t + 1].a {
      assert t > 0;
      forall i, j | 0 <= i < j < |m| ensures m[i].End() < m[j].a {
        JoinedAt(l, t, i);
        JoinedAt(l, t, j);
        assert j > t ==> l[t + 1].End() < l[j + 1].a;
        hide Joined;
      }
      forall i | 0 <= i < |m| ensures 0 < i ==> m[i].s > 0 {
        JoinedAt(l, t, i);
      }
      JoinedAt(l, t, 0);
    }
  }

  lemma FreedOrdered(l: seq<Seg>, t: nat, b: Seg)
    requires Ordered(l) && Precedes(l, t, b.a) && b.s > 0
    requires forall i :: 0 <= i < |l| ==> Apart(b.a, b.s, l[i].a, l[i].s)
    ensures Ordered(Freed(l, t, b)) && Freed(l, t, b)[0] == l[0]
  {
    AbsorbedOrdered(l, t, b);
    var m := Absorbed(l, t, b);
    assert m[0].a < m[1].a;
    JoinedOrdered(m, t);
  }

  // Freeing neither loses nor invents a unit.
  lemma FreedUnits(l: seq<Seg>, t: nat, b: Seg, x: nat)
    requires t < |l|
    ensures InFree(Freed(l, t, b), x) <==> InFree(l, x) || b.a <= x < b.End()
  {
    AbsorbedUnits(l, t, b, x);
    JoinedUnits(Absorbed(l, t, b), t, x);
  }

  lemma AbsorbedUnits(l: seq<Seg>, t: nat, b: Seg, x: nat)
    requires t < |l|
    ensures InFree(Absorbed(l, t, b), x) <==> InFree(l, x) || b.a <= x < b.End()
  {
    var m := Absorbed(l, t, b);
    var d := if t + 1 < |l| && b.End() == l[t + 1].a then 0 else 1;
    assert forall i :: 0 <= i <= t ==> m[i] == l[i];
    assert forall i :: t + 1 < i < |m| ==> m[i] == l[i - d];
    assert forall i :: t + 2 - d <= i < |l| ==> l[i] == m[i + d];
    if InFree(l, x) {
      var i :| 0 <= i < |l| && l[i].a <= x < l[i].End();
      var j := if i <= t then i else if i < t + 2 - d then t + 1 else i + d;
      assert m[j].a <= x < m[j].End();
    }
    if b.a <= x < b.End() {
      assert m[t + 1].a <= x < m[t + 1].End();
    }
  }

  lemma JoinedUnits(l: seq<Seg>, t: nat, x: nat)
    requires t + 1 < |l|
    ensures InFree(Joined(l, t), x) <==> InFree(l, x)
  {
    var m := Joined(l, t);
    if l[t].End() == l[t + 1].a {
      if InFree(l, x) {
        var i :| 0 <= i < |l| && l[i].a <= x < l[i].End();
        var j := if i <= t then i else i - 1;
        JoinedAt(l, t, j);
        assert m[j].a <= x < m[j].End();
      }
      if InFree(m, x) {
        var j :| 0 <= j < |m| && m[j].a <= x < m[j].End();
        JoinedAt(l, t, j);
        var i := if j < t then j else if j > t then j + 1 else if x < l[t].End() then t else t + 1;
        assert l[i].a <= x < l[i].End();
      }
    }
  }

  // The assignments of free() once it has found p, the block that precedes bp.
  function FreeMem(mem: Memory, p: nat, bp: nat): Memory
    requires p in mem && bp in mem && mem[p].ptr in mem
  {
    var h, next := mem[bp], mem[p].ptr;
    var mem1 :=
      if bp + h.size == next
      then mem[bp := Header(mem[next].ptr, h.size + mem[next].size)]
      else mem[bp := Header(next, h.size)];
    if p + mem1[p].size == bp
    then mem1[p := Header(mem1[bp].ptr, mem1[p].size + mem1[bp].size)]
    else mem1[p := Header(bp, mem1[p].size)]
  }

  // They leave exactly the cycle of the freed list.
  lemma FreeMemLinks(mem: Memory, l: seq<Seg>, t: nat, b: Seg)
    requires Ordered(l) && Linked(mem, l) && Precedes(l, t, b.a)
    requires b.a in mem && mem[b.a].size == b.s && b.s > 0
    requires forall i :: 0 <= i < |l| ==> Apart(b.a, b.s, l[i].a, l[i].s)
    ensures NextAddr(l, t) in mem && l[t].a in mem && mem[l[t].a] == Header(NextAddr(l, t), l[t].s)
    ensures Linked(FreeMem(mem, l[t].a, b.a), Freed(l, t, b))
  {
    var p := l[t].a;
    assert LinkedAt(mem, l, t) && LinkedAt(mem, l, 0) && (t + 1 < |l| ==> LinkedAt(mem, l, t + 1));
    var m, mem' := Freed(l, t, b), FreeMem(mem, p, b.a);
    hide Freed, FreeMem, Ordered, Linked;
    forall i | 0 <= i < |m| ensures LinkedAt(mem', m, i) {
      FreeMemLinksAt(mem, l, t, b, i);
    }
    LinkedIs(mem', m);
  }

  lemma LinkedIs(mem: Memory, l: seq<Seg>)
    requires forall i :: 0 <= i < |l| ==> LinkedAt(mem, l, i)
    ensures Linked(mem, l)
  {
  }

  // Where the i-th block of the freed list was before.
  lemma FreedAt(l: seq<Seg>, t: nat, b: Seg, i: nat)
    requires t < |l| && i < |Freed(l, t, b)|
    ensures var hi := t + 1 < |l| && b.End() == l[t + 1].a;
      var lo := l[t].End() == b.a;
      var s := b.s + if hi then l[t + 1].s else 0;
      && |Freed(l, t, b)| == |l| + 1 - (if hi then 1 else 0) - (if lo then 1 else 0)
      && Freed(l, t, b)[i] ==
         if i < t || (i == t && !lo) then l[i]
         else if i == t then Seg(l[t].a, l[t].s + s)
         else if i == t + 1 && !lo then Seg(b.a, s)
         else l[i - 1 + (if hi then 1 else 0) + (if lo then 1 else 0)]
  {
    var m := Absorbed(l, t, b);
    AbsorbedAt(l, t, b, t);
    AbsorbedAt(l, t, b, t + 1);
    if l[t].End() == b.a {
      JoinedAt(m, t, i);
      if i > t {
        AbsorbedAt(l, t, b, i + 1);
      } else {
        AbsorbedAt(l, t, b, i);
      }
    } else {
      AbsorbedAt(l, t, b, i);
    }
  }

  // What they write, told in terms of the list.
  lemma FreeMemAt(mem: Memory, l: seq<Seg>, t: nat, b: Seg, x: nat)
    requires Ordered(l) && Linked(mem, l) && Precedes(l, t, b.a)
    requires b.a in mem && mem[b.a].size == b.s && b.s > 0
    requires forall i :: 0 <= i < |l| ==> Apart(b.a, b.s, l[i].a, l[i].s)
    requires NextAddr(l, t) in mem && l[t].a in mem && mem[l[t].a].ptr == NextAddr(l, t) && x in mem
    ensures var hi := t + 1 < |l| && b.End() == l[t + 1].a;
      var lo := l[t].End() == b.a;
      var s := b.s + if hi then l[t + 1].s else 0;
      var next := if hi then NextAddr(l, t + 1) else NextAddr(l, t);
      var mem' := FreeMem(mem, l[t].a, b.a);
      && x in mem'
      && mem'[x] ==
         if x == l[t].a then (if lo then Header(next, l[t].s + s) else Header(b.a, l[t].s))
         else if x == b.a then Header(next, s)
         else mem[x]
  {
    assert LinkedAt(mem, l, t) && l[0].a < b.a && (t + 1 < |l| ==> LinkedAt(mem, l, t + 1));
    hide Ordered, Linked;
  }

  lemma FreeMemLinksAt(mem: Memory, l: seq<Seg>, t: nat, b: Seg, i: nat)
    requires Ordered(l) && Linked(mem, l) && Precedes(l, t, b.a)
    requires b.a in mem && mem[b.a].size == b.s && b.s > 0
    requires forall i :: 0 <= i < |l| ==> Apart(b.a, b.s, l[i].a, l[i].s)
    requires i < |Freed(l, t, b)| && NextAddr(l, t) in mem && l[t].a in mem && mem[l[t].a].ptr == NextAddr(l, t)
    ensures LinkedAt(FreeMem(mem, l[t].a, b.a), Freed(l, t, b), i)
  {
    hide Freed, FreeMem, Ordered, Linked;
    var m := Freed(l, t, b);
    var hi := t + 1 < |l| && b.End() == l[t + 1].a;
    var lo := l[t].End() == b.a;
    var k := if i <= t then i else i - 1 + (if hi then 1 else 0) + (if lo then 1 else 0);
    FreedAt(l, t, b, i);
    FreedAt(l, t, b, 0);
    if i + 1 < |m| {
      FreedAt(l, t, b, i + 1);
    }
    if i == t + 1 && !lo {
      FreeMemAt(mem, l, t, b, b.a);
    } else {
      BlockAt(mem, l, t, b, k);
      FreeMemAt(mem, l, t, b, l[k].a);
    }
  }

  lemma BlockAt(mem: Memory, l: seq<Seg>, t: nat, b: Seg, k: nat)
    requires Ordered(l) && Linked(mem, l) && t < |l| && k < |l|
    requires b.s > 0 && Precedes(l, t, b.a) && Apart(b.a, b.s, l[k].a, l[k].s)
    ensures l[k].a in mem && mem[l[k].a] == Header(NextAddr(l, k), l[k].s)
    ensures l[k].a != b.a && (k != t ==> l[k].a != l[t].a)
  {
    assert LinkedAt(mem, l, k);
  }

  lemma FreedApart(l: seq<Seg>, t: nat, b: Seg, live: map<nat, nat>)
    requires Ordered(l) && Precedes(l, t, b.a) && LiveApart(l, live) && b.a in live && live[b.a] == b.s
    ensures LiveApart(Freed(l, t, b), live - {b.a})
  {
    var m := Freed(l, t, b);
    FreedAt(l, t, b, 0);
    assert l[0].a < b.a;
    forall a, i | a in live - {b.a} && 0 < i < |m| ensures Apart(a, live[a], m[i].a, m[i].s) {
      FreedAt(l, t, b, i);
      FreedApartAt(l, t, b, live, a, i);
    }
  }

  lemma FreedApartAt(l: seq<Seg>, t: nat, b: Seg, live: map<nat, nat>, a: nat, i: nat)
    requires Ordered(l) && Precedes(l, t, b.a) && LiveApart(l, live) && b.a in live && live[b.a] == b.s
    requires a in live && a != b.a && 0 < i < |Freed(l, t, b)|
    ensures Apart(a, live[a], Freed(l, t, b)[i].a, Freed(l, t, b)[i].s)
  {
    FreedAt(l, t, b, i);
    assert Apart(a, live[a], b.a, live[b.a]) && live[a] > 0;
    assert t > 0 ==> Apart(a, live[a], l[t].a, l[t].s);
    assert t + 1 < |l| ==> Apart(a, live[a], l[t + 1].a, l[t + 1].s);
    var hi := t + 1 < |l| && b.End() == l[t + 1].a;
    var lo := l[t].End() == b.a;
    var k := if i <= t then i else i - 1 + (if hi then 1 else 0) + (if lo then 1 else 0);
    assert 0 < k < |l| ==> Apart(a, live[a], l[k].a, l[k].s);
    hide Freed, LiveApart;
  }

  // malloc() takes all of block k, or carves n units off its end.
  function Taken(l: seq<Seg>, k: nat, n: nat): seq<Seg>
    requires 0 < k < |l| && n <= l[k].s
  {
    if l[k].s == n then l[..k] + l[k + 1..] else l[k := Seg(l[k].a, l[k].s - n)]
  }

  function TakenAddr(l: seq<Seg>, k: nat, n: nat): nat
    requires 0 < k < |l| && n <= l[k].s
  {
    l[k].End() - n
  }

  lemma TakenAt(l: seq<Seg>, k: nat, n: nat, i: nat)
    requires 0 < k < |l| && n <= l[k].s && i < |Taken(l, k, n)|
    ensures Taken(l, k, n)[i] ==
      if l[k].s == n then (if i < k then l[i] else l[i + 1]) else if i == k then Seg(l[k].a, l[k].s - n) else l[i]
  {
  }

  lemma TakenOrdered(l: seq<Seg>, k: nat, n: nat)
    requires Ordered(l) && 0 < k < |l| && 0 < n <= l[k].s
    ensures Ordered(Taken(l, k, n)) && Taken(l, k, n)[0] == l[0]
  {
    var m := Taken(l, k, n);
    forall i, j | 0 <= i < j < |m| ensures m[i].End() < m[j].a {
      TakenAt(l, k, n, i);
      TakenAt(l, k, n, j);
    }
    forall i | 0 <= i < |m| ensures 0 < i ==> m[i].s > 0 {
      TakenAt(l, k, n, i);
    }
    TakenAt(l, k, n, 0);
  }

  lemma TakenApart(l: seq<Seg>, k: nat, n: nat, live: map<nat, nat>)
    requires Ordered(l) && LiveApart(l, live) && 0 < k < |l| && 0 < n <= l[k].s
    ensures TakenAddr(l, k, n) !in live
    ensures LiveApart(Taken(l, k, n), live[TakenAddr(l, k, n) := n])
  {
    var m, r := Taken(l, k, n), TakenAddr(l, k, n);
    assert l[0].a < l[k].a;
    TakenAt(l, k, n, 0);
    forall a | a in live ensures Apart(a, live[a], r, n) && a != r {
      assert Apart(a, live[a], l[k].a, l[k].s);
    }
    forall i | 0 < i < |m|
      ensures Apart(r, n, m[i].a, m[i].s) && forall a :: a in live ==> Apart(a, live[a], m[i].a, m[i].s)
    {
      TakenAt(l, k, n, i);
      var j := if l[k].s == n && i >= k then i + 1 else i;
      assert j < k ==> l[j].End() < l[k].a;
      assert j > k ==> l[k].End() < l[j].a;
      forall a | a in live ensures Apart(a, live[a], m[i].a, m[i].s) {
        assert Apart(a, live[a], l[j].a, l[j].s);
      }
    }
    hide Ordered, Taken;
  }

  lemma TakenUnits(l: seq<Seg>, k: nat, n: nat, x: nat)
    requires 0 < k < |l| && n <= l[k].s
    ensures InFree(l, x) <==> InFree(Taken(l, k, n), x) || TakenAddr(l, k, n) <= x < l[k].End()
  {
    var m := Taken(l, k, n);
    if InFree(m, x) {
      var i :| 0 <= i < |m| && m[i].a <= x < m[i].End();
      TakenAt(l, k, n, i);
    }
    if InFree(l, x) {
      var i :| 0 <= i < |l| && l[i].a <= x < l[i].End();
      if i != k {
        var j := if l[k].s == n && i > k then i - 1 else i;
        TakenAt(l, k, n, j);
        assert m[j].a <= x < m[j].End();
      } else if x < TakenAddr(l, k, n) {
        TakenAt(l, k, n, k);
        assert m[k].a <= x < m[k].End();
      }
    }
  }

  // The assignments of malloc() when block p, after prevp, is large enough.
  function TakeMem(mem: Memory, prevp: nat, p: nat, n: nat): Memory
    requires prevp in mem && p in mem && n <= mem[p].size && p + mem[p].size - n in mem
  {
    if mem[p].size == n
    then mem[prevp := mem[prevp].(ptr := mem[p].ptr)]
    else
      var mem1 := mem[p := mem[p].(size := mem[p].size - n)];
      var r := p + mem1[p].size;
      mem1[r := mem1[r].(size := n)]
  }

  lemma TakeMemLinks(mem: Memory, l: seq<Seg>, k: nat, n: nat)
    requires Ordered(l) && Linked(mem, l) && 0 < k < |l| && 0 < n <= l[k].s && TakenAddr(l, k, n) in mem
    ensures l[k - 1].a in mem && l[k].a in mem && mem[l[k].a].size == l[k].s
    ensures Linked(TakeMem(mem, l[k - 1].a, l[k].a, n), Taken(l, k, n))
    ensures TakeMem(mem, l[k - 1].a, l[k].a, n)[TakenAddr(l, k, n)].size == n
  {
    hide Ordered, Taken;
    BlockBeside(mem, l, k, k);
    BlockBeside(mem, l, k, k - 1);
    var m, mem' := Taken(l, k, n), TakeMem(mem, l[k - 1].a, l[k].a, n);
    hide Linked, TakeMem;
    forall i | 0 <= i < |m| ensures LinkedAt(mem', m, i) {
      TakeMemLinksAt(mem, l, k, n, i);
    }
    LinkedIs(mem', m);
  }

  lemma TakeMemLinksAt(mem: Memory, l: seq<Seg>, k: nat, n: nat, i: nat)
    requires Ordered(l) && Linked(mem, l) && 0 < k < |l| && 0 < n <= l[k].s && TakenAddr(l, k, n) in mem
    requires l[k - 1].a in mem && l[k].a in mem && mem[l[k].a] == Header(NextAddr(l, k), l[k].s)
    requires i < |Taken(l, k, n)|
    ensures LinkedAt(TakeMem(mem, l[k - 1].a, l[k].a, n), Taken(l, k, n), i)
  {
    hide Taken, Ordered, Linked;
    var m := Taken(l, k, n);
    TakenAt(l, k, n, i);
    TakenAt(l, k, n, 0);
    if i + 1 < |m| {
      TakenAt(l, k, n, i + 1);
    }
    TakenLength(l, k, n);
    BlockBeside(mem, l, k, if l[k].s == n && i >= k then i + 1 else i);
  }

  lemma TakenLength(l: seq<Seg>, k: nat, n: nat)
    requires 0 < k < |l| && n <= l[k].s
    ensures |Taken(l, k, n)| == if l[k].s == n then |l| - 1 else |l|
  {
  }

  lemma BlockBeside(mem: Memory, l: seq<Seg>, k: nat, j: nat)
    requires Ordered(l) && Linked(mem, l) && 0 < k < |l| && j < |l|
    ensures l[j].a in mem && mem[l[j].a] == Header(NextAddr(l, j), l[j].s)
    ensures j < k ==> l[j].End() < l[k].a
    ensures j > k ==> l[k].End() < l[j].a
    ensures j != k - 1 ==> l[j].a != l[k - 1].a
  {
    assert LinkedAt(mem, l, j);
  }
}
