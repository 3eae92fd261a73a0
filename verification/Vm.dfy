/** walk, mappages, uvmunmap, uvmalloc, uvmdealloc, freewalk and uvmfree
    (kernel/vm.c) with kalloc and kfree (kernel/kalloc.c). */
module Vm {
  import opened PageTable
  import opened Sv39

  function Filled(x: nat): Page { seq(512, _ => x) }

  // Allocation turns free frames into page-table pages and changes no other role.
  ghost predicate OnlyNewTables(role: map<nat, Role>, role': map<nat, Role>) {
    role'.Keys == role.Keys && forall f :: f in role ==> role'[f] == role[f] || (role[f] == Free && role'[f].Table?)
  }

  // What user memory and frames held by others contain has not changed.
  ghost predicate DataKept(mem: Memory, role: map<nat, Role>, mem': Memory, role': map<nat, Role>) {
    forall f :: f in role && f in role' && role'[f] == role[f] && (role[f].User? || role[f].Held?) && f in mem ==>
      f in mem' && mem'[f] == mem[f]
  }

  // Both together, for the steps of walk.
  ghost predicate OnlyTablesAdded(mem: Memory, role: map<nat, Role>, mem': Memory, role': map<nat, Role>) {
    OnlyNewTables(role, role') && DataKept(mem, role, mem', role')
  }

  lemma NoTablesAdded(mem: Memory, tables: map<Node, nat>, role: map<nat, Role>)
    ensures SameView(mem, tables, mem, tables) && OnlyTablesAdded(mem, role, mem, role)
  {
  }

  lemma TablesAddedTwice(mem: Memory, role: map<nat, Role>, mem': Memory, role': map<nat, Role>, mem'': Memory,
                         role'': map<nat, Role>)
    requires OnlyTablesAdded(mem, role, mem', role') && OnlyTablesAdded(mem', role', mem'', role'')
    ensures OnlyTablesAdded(mem, role, mem'', role'')
  {
  }

  datatype MapResult = Mapped | NoMemory | Panic

  // The k pages from v on have been mapped to consecutive frames from f on.
  ghost predicate MappedView(mem: Memory, tables: map<Node, nat>, mem': Memory, tables': map<Node, nat>, v: nat, k: nat,
                             f: nat, perm: nat)
    requires perm < 1024
  {
    forall w: nat :: Pte(mem', tables', w) == if v <= w < v + k then MakePte(f + (w - v), perm) else Pte(mem, tables, w)
  }

  // The user frames of the k pages from v on have gone back to the free list.
  ghost predicate FreedRoles(role: map<nat, Role>, role': map<nat, Role>, v: nat, k: nat) {
    role'.Keys == role.Keys && forall f :: f in role ==>
      role'[f] == if role[f].User? && v <= role[f].v < v + k then Free else role[f]
  }

  ghost function Without(user: map<nat, nat>, v: nat, k: nat): map<nat, nat> {
    map w | w in user && !(v <= w < v + k) :: user[w]
  }

  // PGROUNDUP(sz) / PGSIZE
  function Pages(sz: nat): (n: nat)
    ensures sz <= n * 4096 < sz + 4096
  {
    (sz + 4095) / 4096
  }

  // What the processor makes of every address of a page is in its PTE.
  ghost predicate Sees(mem: Memory, tables: map<Node, nat>, root: nat) {
    forall x: nat :: x < 0x80_0000_0000 ==> Translate(mem, root, x, 2) == Pte(mem, tables, x / 4096)
  }

  // PTE_U of the entry the processor finds
  ghost predicate UserByte(mem: Memory, root: nat, x: nat) {
    x < 0x40_0000_0000 && Translate(mem, root, x, 2) / 16 % 2 == 1
  }

  // Growth seen by the processor: every page that starts between the two sizes
  // has the asked permissions, and if the user could reach every byte below the
  // old size, it can reach every byte below the new one.
  ghost predicate GrownBytes(mem: Memory, mem': Memory, root: nat, oldsz: nat, newsz: nat, perm: nat) {
    && (forall x: nat :: oldsz <= x / 4096 * 4096 && x < newsz ==> Translate(mem', root, x, 2) % 1024 == perm + 1)
    && ((forall x: nat :: x < oldsz ==> UserByte(mem, root, x)) ==>
          forall x: nat :: x < newsz ==> UserByte(mem', root, x))
  }

  lemma PermissionBits(f: nat, perm: nat)
    requires perm in {18, 22, 26, 30}
    ensures MakePte(f, perm) % 1024 == perm + 1 && MakePte(f, perm) / 16 % 2 == 1
  {
    PteRoundTrip(f, perm);
    assert MakePte(f, perm) == 1024 * f + perm + 1;
    hide MakePte;
    UserBit(MakePte(f, perm), f, perm + 1);
  }

  lemma UserBit(x: nat, f: nat, r: nat)
    requires x == 1024 * f + r && 16 <= r < 32
    ensures x / 16 % 2 == 1
  {
    var h := 32 * f;
    assert x == 16 * (2 * h + 1) + (r - 16);
    assert x / 16 == 2 * h + 1;
  }

  lemma GrownIsSeen(s: Space, s': Space, root: nat, oldsz: nat, newsz: nat, perm: nat)
    requires perm in {18, 22, 26, 30} && oldsz <= newsz
    requires Grown(s, s', Pages(oldsz), Surplus(newsz, oldsz), perm)
    requires Pages(newsz) > Pages(oldsz) ==> Pages(newsz) <= MAXVPN
    requires Sees(s.mem, s.tables, root) && Sees(s'.mem, s'.tables, root)
    ensures GrownBytes(s.mem, s'.mem, root, oldsz, newsz, perm)
  {
    hide MakePte;
    var lo, hi := Pages(oldsz), Pages(newsz);
    forall x: nat | oldsz <= x / 4096 * 4096 && x < newsz
      ensures Translate(s'.mem, root, x, 2) % 1024 == perm + 1 && UserByte(s'.mem, root, x)
    {
      assert lo <= x / 4096 < hi;
      PermissionBits(s'.user[x / 4096], perm);
    }
    if forall x: nat :: x < oldsz ==> UserByte(s.mem, root, x) {
      forall x: nat | x < newsz && x / 4096 * 4096 < oldsz ensures UserByte(s'.mem, root, x) {
        OldByte(s, s', root, oldsz, newsz, perm, x);
      }
    }
  }

  lemma OldByte(s: Space, s': Space, root: nat, oldsz: nat, newsz: nat, perm: nat, x: nat)
    requires perm < 1024 && Grown(s, s', Pages(oldsz), Surplus(newsz, oldsz), perm)
    requires Sees(s.mem, s.tables, root) && Sees(s'.mem, s'.tables, root)
    requires x / 4096 * 4096 < oldsz && UserByte(s.mem, root, x / 4096 * 4096)
    ensures UserByte(s'.mem, root, x)
  {
    hide MakePte;
    var y := x / 4096 * 4096;
    assert y / 4096 == x / 4096 && x / 4096 < Pages(oldsz);
  }

  function Surplus(oldsz: nat, newsz: nat): nat {
    if Pages(newsz) < Pages(oldsz) then Pages(oldsz) - Pages(newsz) else 0
  }

  // The pages that uvmdealloc makes uvmunmap visit. Its page count is an int:
  // the upper bits are lost, and a negative count ends the range before its
  // start, or beyond all addresses if that wraps round.
  function Visited(oldsz: nat, newsz: nat): nat {
    var v, low := Pages(newsz), Surplus(oldsz, newsz) % 0x1_0000_0000;
    if low < 0x8000_0000 then low
    else if v + low >= 0x1_0000_0000 then 0
    else 0x10_0000_0000_0000 + low - 0x1_0000_0000
  }

  // They are the pages between the two sizes exactly if their number fits an
  // int, or is so close to all of them that the lost bits come back.
  lemma VisitedIsSurplus(oldsz: nat, newsz: nat)
    requires oldsz + 4095 < 0x1_0000_0000_0000_0000
    ensures Visited(oldsz, newsz) == Surplus(oldsz, newsz) <==>
      Surplus(oldsz, newsz) < 0x8000_0000 || Surplus(oldsz, newsz) >= 0x10_0000_0000_0000 - 0x8000_0000
  {
    var n, v := Surplus(oldsz, newsz), Pages(newsz);
    assert n > 0 ==> v + n == Pages(oldsz) < 0x10_0000_0000_0000;
    var k, low := n / 0x1_0000_0000, n % 0x1_0000_0000;
    assert n == k * 0x1_0000_0000 + low && k < 0x10_0000;
  }

  // --- how many frames growing takes ---

  // The page-table pages once the k pages from v on have been walked to.
  ghost function Reach(keys: set<Node>, v: nat, k: nat): set<Node> {
    if k == 0 then keys else Reach(keys, v, k - 1) + {Mid(Px2(v + k - 1)), LowOf(v + k - 1)}
  }

  // Frames for k pages from v on: one each, and the missing page-table pages.
  ghost function Cost(keys: set<Node>, v: nat, k: nat): int { k + |Reach(keys, v, k)| - |keys| }

  // The first pages below the root on the way to page v.
  ghost function Path(v: nat, depth: nat): set<Node> {
    if depth == 0 then {} else if depth == 1 then {Mid(Px2(v))} else {Mid(Px2(v)), LowOf(v)}
  }

  lemma PathNext(keys: set<Node>, now: set<Node>, v: nat, depth: nat)
    requires depth < 2 && now == keys + Path(v, depth)
    ensures now + {if depth == 0 then Mid(Px2(v)) else LowOf(v)} == keys + Path(v, depth + 1)
  {
  }

  lemma PathNone(keys: set<Node>, v: nat)
    ensures keys + Path(v, 0) == keys
  {
  }

  lemma PathIsReach(keys: set<Node>, v: nat)
    ensures keys + Path(v, 2) == Reach(keys, v, 1)
  {
    assert Reach(keys, v, 0) == keys;
  }

  // The next page of the way is missing.
  lemma NoRoom(keys: set<Node>, now: set<Node>, v: nat, depth: nat)
    requires depth < 2 && now == keys + Path(v, depth)
    requires (if depth == 0 then Mid(Px2(v)) else LowOf(v)) !in now
    ensures |now| < |Reach(keys, v, 1)|
  {
    PathIsReach(keys, v);
    var next := if depth == 0 then Mid(Px2(v)) else LowOf(v);
    SubsetCard(now + {next}, keys + Path(v, 2));
  }

  lemma SubsetCard(a: set<Node>, b: set<Node>)
    requires a <= b
    ensures |a| <= |b|
  {
    assert b == a + (b - a);
  }

  lemma ReachNone(keys: set<Node>, v: nat)
    ensures Reach(keys, v, 0) == keys && Cost(keys, v, 0) == 0
  {
  }

  lemma CostOne(keys: set<Node>, v: nat, k: nat)
    ensures Reach(keys, v, k + 1) == Reach(Reach(keys, v, k), v + k, 1)
    ensures Cost(keys, v, k + 1) == Cost(keys, v, k) + Cost(Reach(keys, v, k), v + k, 1)
    ensures Cost(keys, v, k + 1) >= Cost(keys, v, k) + 1
  {
    assert Reach(Reach(keys, v, k), v + k, 0) == Reach(keys, v, k);
    SubsetCard(Reach(keys, v, k), Reach(keys, v, k + 1));
  }

  lemma {:induction false} CostGrows(keys: set<Node>, v: nat, j: nat, k: nat)
    requires j <= k
    ensures Cost(keys, v, j) + (k - j) <= Cost(keys, v, k)
    decreases k
  {
    if j < k {
      CostGrows(keys, v, j, k - 1);
      CostOne(keys, v, k - 1);
    }
  }

  // Where mappages panics.
  ghost predicate Blocked(s: Space, w: nat) { w >= MAXVPN || IsValid(Pte(s.mem, s.tables, w)) }

  // The first blocked page from lo on is w, and the frames last up to it.
  ghost predicate RunsInto(s: Space, free: nat, lo: nat, hi: nat, w: nat) {
    && lo <= w < hi && Blocked(s, w) && (forall x: nat :: lo <= x < w ==> !Blocked(s, x))
    && Cost(s.tables.Keys, lo, w - lo) < free
  }

  ghost predicate CanGrow(s: Space, free: nat, lo: nat, hi: nat) {
    && (forall x: nat :: lo <= x < hi ==> !Blocked(s, x))
    && (lo < hi ==> Cost(s.tables.Keys, lo, hi - lo) <= free)
  }

  // uvmalloc stops at page a, which is blocked, or runs out of frames there.
  lemma StopsAt(s: Space, free: nat, lo: nat, hi: nat, a: nat, panic: bool)
    requires lo <= a < hi && forall x: nat :: lo <= x < a ==> !Blocked(s, x)
    requires panic ==> Blocked(s, a) && Cost(s.tables.Keys, lo, a - lo) < free
    requires !panic ==>
      || Cost(s.tables.Keys, lo, a - lo) >= free
      || (!Blocked(s, a) && Cost(s.tables.Keys, lo, a + 1 - lo) > free)
    ensures !CanGrow(s, free, lo, hi)
    ensures panic <==> exists w: nat :: RunsInto(s, free, lo, hi, w)
  {
    hide Blocked, Cost;
    if panic {
      assert RunsInto(s, free, lo, hi, a);
    } else {
      CostOne(s.tables.Keys, lo, a - lo);
      CostGrows(s.tables.Keys, lo, a + 1 - lo, hi - lo);
      forall w: nat | RunsInto(s, free, lo, hi, w) ensures false {
        if w > a {
          CostGrows(s.tables.Keys, lo, a + 1 - lo, w - lo);
        }
      }
    }
  }

  datatype Space = Space(mem: Memory, tables: map<Node, nat>, role: map<nat, Role>, user: map<nat, nat>)

  // The k pages from v on have been unmapped and their frames freed; nothing
  // else has changed.
  ghost predicate Unmapped(s: Space, s': Space, v: nat, k: nat) {
    && s'.tables == s.tables && s'.user == Without(s.user, v, k)
    && FreedRoles(s.role, s'.role, v, k) && DataKept(s.mem, s.role, s'.mem, s'.role)
    && forall w: nat :: Pte(s'.mem, s'.tables, w) == if v <= w < v + k then 0 else Pte(s.mem, s.tables, w)
  }

  // The k pages from v on, unmapped before, now have a zeroed frame each, taken
  // from the free list; nothing else has changed but for new page-table pages.
  ghost predicate Grown(s: Space, s': Space, v: nat, k: nat, perm: nat)
    requires perm < 1024
  {
    && s.user == Without(s'.user, v, k) && DataKept(s.mem, s.role, s'.mem, s'.role)
    && (forall w: nat :: v <= w < v + k ==> w in s'.user && Fresh(s, s', w, s'.user[w]))
    && (forall w: nat :: v <= w < v + k ==> !IsValid(Pte(s.mem, s.tables, w)))
    && (forall w: nat :: Pte(s'.mem, s'.tables, w) ==
          if v <= w < v + k then MakePte(s'.user[w], perm) else Pte(s.mem, s.tables, w))
    && s'.role.Keys == s.role.Keys
    && (forall f :: f in s.role ==>
          || s'.role[f] == s.role[f]
          || (s.role[f] == Free && (s'.role[f].Table? || (s'.role[f].User? && v <= s'.role[f].v < v + k))))
  }

  // Frame f was free and is now the zeroed memory of page w.
  ghost predicate Fresh(s: Space, s': Space, w: nat, f: nat) {
    && f in s.role && s.role[f] == Free
    && f in s'.role && s'.role[f] == User(w)
    && f in s'.mem && s'.mem[f] == Filled(0)
  }

  // A call that failed: translations and user memory are as before.
  ghost predicate Undone(s: Space, s': Space) {
    && s'.user == s.user && SameView(s.mem, s.tables, s'.mem, s'.tables)
    && OnlyNewTables(s.role, s'.role) && DataKept(s.mem, s.role, s'.mem, s'.role)
  }

  lemma GrownNone(s: Space, v: nat, perm: nat)
    requires perm < 1024
    ensures Grown(s, s, v, 0, perm)
  {
    assert Without(s.user, v, 0) == s.user;
  }

  lemma GrownNext(s: Space, s1: Space, s2: Space, v: nat, k: nat, perm: nat)
    requires perm < 1024 && Grown(s, s1, v, k, perm) && Grown(s1, s2, v + k, 1, perm)
    ensures Grown(s, s2, v, k + 1, perm)
  {
    hide Pte, MakePte, IsValid;
    forall w: nat | v <= w < v + k + 1 ensures w in s2.user && Fresh(s, s2, w, s2.user[w]) {
      if w < v + k {
        assert w in s1.user && Fresh(s, s1, w, s1.user[w]);
      } else {
        assert Fresh(s1, s2, w, s2.user[w]);
      }
    }
    assert s.user == Without(s2.user, v, k + 1);
  }

  lemma UndoneAtOnce(s: Space)
    ensures Undone(s, s)
  {
  }

  // s1 is s with a zeroed frame f taken, s2 is s1 after mappages.
  ghost predicate Taken(s: Space, s1: Space, s2: Space, f: nat) {
    && f in s.role && s.role[f] == Free && s1.role == s.role[f := Held] && s1.user == s.user == s2.user
    && f in s.mem && s1.mem == s.mem[f := Filled(0)] && s1.tables == s.tables
    && SameView(s.mem, s.tables, s1.mem, s1.tables)
    && OnlyNewTables(s1.role, s2.role) && DataKept(s1.mem, s1.role, s2.mem, s2.role)
  }

  lemma GrowOneRole(s: Space, s1: Space, s2: Space, f: nat)
    requires Taken(s, s1, s2, f)
    ensures f in s2.role && s2.role[f] == Held && f in s2.mem && s2.mem[f] == Filled(0)
  {
  }

  lemma GrowOneFails(s: Space, s1: Space, s2: Space, s3: Space, f: nat, v: nat, perm: nat)
    requires perm < 1024 && Taken(s, s1, s2, f) && MappedView(s1.mem, s1.tables, s2.mem, s2.tables, v, 0, f, perm)
    requires SameView(s2.mem, s2.tables, s3.mem, s3.tables) && s3.user == s2.user && f in s2.role
    requires s3.role == s2.role[f := Free]
    requires f in s2.mem && f in s3.mem && s3.mem == s2.mem[f := s3.mem[f]]
    ensures Undone(s, s3)
  {
    hide Pte, MakePte;
    GrowOneRole(s, s1, s2, f);
  }

  lemma GrowOneWorks(s: Space, s1: Space, s2: Space, f: nat, v: nat, perm: nat)
    requires perm < 1024 && Taken(s, s1, s2, f) && MappedView(s1.mem, s1.tables, s2.mem, s2.tables, v, 1, f, perm)
    requires v !in s.user && !IsValid(Pte(s.mem, s.tables, v))
    ensures MapsTo(s2.mem, s2.tables, v, f)
    ensures Grown(s, Space(s2.mem, s2.tables, s2.role[f := User(v)], s2.user[v := f]), v, 1, perm)
  {
    hide IsValid, MakePte, Pte, MapsTo;
    GrowOneRole(s, s1, s2, f);
    assert Pte(s2.mem, s2.tables, v) == MakePte(f, perm);
    MappedMapsTo(s2.mem, s2.tables, v, f, perm);
    var s3 := Space(s2.mem, s2.tables, s2.role[f := User(v)], s2.user[v := f]);
    assert s.user == Without(s3.user, v, 1);
    assert Fresh(s, s3, v, f);
  }

  lemma GrownOutside(s: Space, s': Space, v: nat, k: nat, perm: nat, w: nat)
    requires perm < 1024 && Grown(s, s', v, k, perm) && w >= v + k
    ensures Pte(s'.mem, s'.tables, w) == Pte(s.mem, s.tables, w)
  {
  }

  lemma GrownInside(s: Space, s': Space, v: nat, k: nat, perm: nat)
    requires perm < 1024 && Grown(s, s', v, k, perm)
    ensures forall w: nat :: v <= w < v + k ==> w in s'.user && !IsValid(Pte(s.mem, s.tables, w))
  {
  }

  // Giving back the pages of [v, v + k) after a failure to get one more.
  lemma GrownUndone(s: Space, s1: Space, s2: Space, s3: Space, v: nat, k: nat, perm: nat)
    requires perm < 1024 && Grown(s, s1, v, k, perm) && Undone(s1, s2)
    requires Unmapped(s2, s3, v, k)
    requires forall w: nat :: v <= w < v + k ==> Pte(s.mem, s.tables, w) == 0
    requires forall f :: f in s.role && s.role[f].User? ==> s.role[f].v in s.user
    ensures Undone(s, s3)
  {
    hide Pte, MakePte, IsValid, OnlyNewTables, DataKept, FreedRoles, Fresh;
    GrownUndoneRoles(s, s1, s2, s3, v, k, perm);
    assert s3.user == s.user;
  }

  lemma GrownUndoneRoles(s: Space, s1: Space, s2: Space, s3: Space, v: nat, k: nat, perm: nat)
    requires perm < 1024 && Grown(s, s1, v, k, perm) && Undone(s1, s2) && Unmapped(s2, s3, v, k)
    requires forall f :: f in s.role && s.role[f].User? ==> s.role[f].v in s.user
    ensures OnlyNewTables(s.role, s3.role) && DataKept(s.mem, s.role, s3.mem, s3.role)
  {
    hide Pte, MakePte, IsValid, Fresh, SameView;
    forall f | f in s.role && s.role[f].User? ensures !(v <= s.role[f].v < v + k) {
      assert s.role[f].v in Without(s1.user, v, k);
    }
  }

  lemma MappedMapsTo(mem: Memory, tables: map<Node, nat>, v: nat, f: nat, perm: nat)
    requires perm < 1024 && Pte(mem, tables, v) == MakePte(f, perm)
    ensures MapsTo(mem, tables, v, f)
  {
    PteRoundTrip(f, perm);
  }

  lemma MissingPte(mem: Memory, tables: map<Node, nat>, v: nat)
    requires LowOf(v) !in tables
    ensures Pte(mem, tables, v) == 0 && !IsValid(0)
  {
  }

  lemma MappedNext(mem: Memory, tables: map<Node, nat>, mem': Memory, tables': map<Node, nat>, mem'': Memory,
                   tables'': map<Node, nat>,
                   v: nat, k: nat, j: nat, f: nat, perm: nat)
    requires perm < 1024 && MappedView(mem, tables, mem', tables', v, k, f, perm)
    requires MappedView(mem', tables', mem'', tables'', v + k, j, f + k, perm)
    ensures MappedView(mem, tables, mem'', tables'', v, k + j, f, perm)
  {
    hide Pte, MakePte;
  }

  lemma UnmappedNone(s: Space, v: nat)
    ensures Unmapped(s, s, v, 0)
  {
    hide Pte;
    assert Without(s.user, v, 0) == s.user;
  }

  lemma UnmappedNext(s: Space, s1: Space, s2: Space, v: nat, k: nat)
    requires Unmapped(s, s1, v, k) && Unmapped(s1, s2, v + k, 1)
    ensures Unmapped(s, s2, v, k + 1)
  {
    hide Pte;
    assert Without(s.user, v, k + 1) == s2.user;
  }

  lemma UnmappedAhead(s: Space, s': Space, v: nat, k: nat)
    requires Unmapped(s, s', v, k)
    ensures Pte(s'.mem, s'.tables, v + k) == Pte(s.mem, s.tables, v + k) && (v + k in s'.user <==> v + k in s.user)
    ensures s'.tables == s.tables
  {
    hide Pte;
  }

  // A page that was not mapped.
  lemma NothingToUnmap(s: Space, a: nat)
    requires Pte(s.mem, s.tables, a) == 0 && a !in s.user && forall g :: g in s.role ==> s.role[g] != User(a)
    ensures Unmapped(s, s, a, 1)
  {
    hide Pte;
    assert Without(s.user, a, 1) == s.user;
  }

  // One PTE has been cleared; if it was user memory, its frame f is free.
  lemma UnmappedOne(s: Space, s': Space, a: nat, f: nat, t: nat)
    requires s'.tables == s.tables && t in s.mem && t in s'.mem && t in s.role && s.role[t].Table?
    requires forall w: nat :: Pte(s'.mem, s'.tables, w) == if w == a then 0 else Pte(s.mem, s.tables, w)
    requires if a in s.user
      then f == s.user[a] && f in s.role && s.role[f] == User(a)
           && s'.role == s.role[f := Free] && s'.user == s.user - {a}
      else s'.role == s.role && s'.user == s.user && f == t
    requires forall g :: g in s.role && s.role[g] == User(a) ==> a in s.user && g == s.user[a]
    requires forall g :: g in s.mem && g != f && g != t ==> g in s'.mem && s'.mem[g] == s.mem[g]
    ensures Unmapped(s, s', a, 1)
  {
    hide Pte;
    assert Without(s.user, a, 1) == s'.user;
  }

  // A page on the free list, filled with junk and linked to the next one.
  function FreePage(next: nat): Page { Filled(0x0101_0101_0101_0101)[0 := next] }

  // The page-table pages behind the first k entries of n, and n's own, are free.
  ghost predicate Pruned(role: map<nat, Role>, role': map<nat, Role>, n: Node, k: nat, own: bool) {
    role'.Keys == role.Keys && forall f :: f in role ==>
      role'[f] == if role[f].Table? && (Cut(role[f].n, n, k) || (own && role[f].n == n)) then Free else role[f]
  }

  ghost function Rest(tables: map<Node, nat>, n: Node): map<Node, nat> {
    map m | m in tables && !Below(m, n) :: tables[m]
  }

  ghost function Kept(tables: map<Node, nat>, n: Node, k: nat): map<Node, nat> {
    map m | m in tables && !Cut(m, n, k) :: tables[m]
  }

  ghost function Level(n: Node): nat { if n.Root? then 2 else if n.Mid? then 1 else 0 }

  // Virtual pages translated through n, and through entry i of n.
  ghost predicate Under(v: nat, n: Node) { Below(LowOf(v), n) }

  ghost predicate Behind(v: nat, n: Node, i: nat) {
    if n.Low? then LowOf(v) == n && Px0(v) == i else Under(v, Child(n, i))
  }

  lemma BehindUnder(n: Node, i: nat)
    requires i < 512
    ensures forall v: nat :: Behind(v, n, i) ==> Under(v, n)
  {
  }

  lemma UnderBehind(n: Node)
    ensures forall v: nat :: Under(v, n) ==> exists i :: 0 <= i < 512 && Behind(v, n, i)
  {
    forall v: nat | Under(v, n) ensures exists i :: 0 <= i < 512 && Behind(v, n, i) {
      var i := match n case Root => Px2(v) case Mid(_) => Px1(v) case Low(_, _) => Px0(v);
      assert Behind(v, n, i);
    }
  }

  lemma EmptyEntry(mem: Memory, tables: map<Node, nat>, role: map<nat, Role>, n: Node, i: nat)
    requires TreeOk(mem, tables, role) && n in tables && i < 512 && tables[n] in mem
    requires if n.Low? then !IsValid(mem[tables[n]][i]) else Child(n, i) !in tables
    ensures forall v: nat :: Behind(v, n, i) ==> !IsValid(Pte(mem, tables, v))
    ensures !n.Low? ==> tables == Rest(tables, Child(n, i)) && Pruned(role, role, Child(n, i), 512, true)
  {
    if !n.Low? {
      NothingBelow(mem, tables, role, Child(n, i));
    }
  }

  // Memory as freewalk leaves it once it clears entry i of n.
  lemma UnlinkedIs(mem: Memory, tables: map<Node, nat>, role: map<nat, Role>, n: Node, i: nat)
    requires n in tables && !n.Low? && i < 512 && TreeOk(Unlinked(mem, tables, Child(n, i)), tables, role)
    ensures tables[n] in mem && Unlinked(mem, tables, Child(n, i)) == mem[tables[n] := mem[tables[n]][i := 0]]
  {
    assert tables[n] in Unlinked(mem, tables, Child(n, i));
  }

  lemma KeptAll(tables: map<Node, nat>, role: map<nat, Role>, n: Node)
    ensures Kept(tables, n, 0) == tables && Pruned(role, role, n, 0, false)
  {
  }

  // From i entries to i + 1; the lowest pages have no pages behind them.
  lemma PrunedNext(mem: Memory, tables: map<Node, nat>, role: map<nat, Role>, tables': map<Node, nat>,
                   role': map<nat, Role>, tables'': map<Node, nat>, role'': map<nat, Role>, n: Node, i: nat)
    requires TreeOk(mem, tables, role) && n in tables && tables' == Kept(tables, n, i)
    requires Pruned(role, role', n, i, false)
    requires n.Low? ==> tables'' == tables' && role'' == role'
    requires !n.Low? ==> tables'' == Rest(tables', Child(n, i)) && Pruned(role', role'', Child(n, i), 512, true)
    ensures tables'' == Kept(tables, n, i + 1) && Pruned(role, role'', n, i + 1, false) && n in tables''
    ensures tables''[n] == tables[n]
  {
    if !n.Low? {
      forall m | Indexed(m) ensures Cut(m, n, i + 1) <==> Cut(m, n, i) || Below(m, Child(n, i)) {
        CutNext(m, n, i);
      }
    }
  }

  lemma PrunedData(mem: Memory, role: map<nat, Role>, mem': Memory, role': map<nat, Role>, mem'': Memory,
                   role'': map<nat, Role>, n: Node, i: nat)
    requires Pruned(role, role', n, i, false)
    requires (if n.Low? then role'' == role' else Pruned(role', role'', Child(n, i), 512, true))
    requires DataKept(mem, role, mem', role') && DataKept(mem', role', mem'', role'')
    ensures DataKept(mem, role, mem'', role'')
  {
  }

  lemma RootCoversAll(mem: Memory, tables: map<Node, nat>, role: map<nat, Role>)
    requires TreeOk(mem, tables, role)
    ensures Rest(tables, Root) == map[] && forall v: nat :: IsValid(Pte(mem, tables, v)) ==> Under(v, Root)
  {
  }

  lemma NothingLeft(mem: Memory, head: nat, free: seq<nat>, role: map<nat, Role>, user: map<nat, nat>)
    requires SpaceOk(mem, head, free, map[], role, user)
    ensures user == map[] && forall f :: f in role ==> role[f] == Free || role[f] == Held
  {
    forall v ensures v !in user {
      assert v in user ==> MapsTo(mem, map[], v, user[v]);
    }
  }

  // What is still mapped after the first k pages have been unmapped.
  lemma UnmappedRest(s: Space, s': Space, k: nat)
    requires Unmapped(s, s', 0, k)
    ensures (exists v: nat :: IsValid(Pte(s'.mem, s'.tables, v))) <==>
      exists w: nat :: w >= k && IsValid(Pte(s.mem, s.tables, w))
  {
    hide Pte;
    if v: nat :| IsValid(Pte(s'.mem, s'.tables, v)) {
      assert v >= k && IsValid(Pte(s.mem, s.tables, v));
    }
    if w: nat :| w >= k && IsValid(Pte(s.mem, s.tables, w)) {
      assert IsValid(Pte(s'.mem, s'.tables, w));
    }
  }

  lemma AllGivenBack(s: Space, s1: Space, s2: Space, k: nat)
    requires Unmapped(s, s1, 0, k) && Pruned(s1.role, s2.role, Root, 512, true)
    requires DataKept(s1.mem, s1.role, s2.mem, s2.role)
    requires forall f :: f in s2.role ==> s2.role[f] == Free || s2.role[f] == Held
    ensures s2.role.Keys == s.role.Keys && forall f :: f in s.role ==>
      s2.role[f] == if s.role[f] == Held then Held else Free
    ensures DataKept(s.mem, s.role, s2.mem, s2.role)
  {
    hide Pte;
  }

  lemma PrunedOwn(mem: Memory, tables: map<Node, nat>, role: map<nat, Role>, role': map<nat, Role>, n: Node)
    requires TreeOk(mem, tables, role) && n in tables && Pruned(role, role', n, 512, false)
    ensures Pruned(role, role'[tables[n] := Free], n, 512, true)
  {
  }

  class AddressSpace {
    const root: nat
    var mem: Memory
    var head: nat                       // kmem.freelist
    ghost var free: seq<nat>
    ghost var tables: map<Node, nat>
    ghost var role: map<nat, Role>      // every frame of the pool, used exactly once
    ghost var user: map<nat, nat>       // user memory: virtual page to frame

    ghost predicate Valid()
      reads this
    {
      && SpaceOk(mem, head, free, tables, role, user)
      && Root in tables && tables[Root] == root
    }

    ghost function Now(): Space
      reads this
    {
      Space(mem, tables, role, user)
    }

    // In every state the processor, walking memory from the root, finds for
    // every virtual address the PTE of its page.
    lemma ProcessorSeesPtes()
      requires Valid()
      ensures Sees(mem, tables, root)
    {
      forall x: nat | x < 0x80_0000_0000 ensures Translate(mem, root, x, 2) == Pte(mem, tables, x / 4096) {
        ProcessorSees(mem, tables, role, user, x);
      }
    }

    ghost function Entry(t: nat, i: nat): nat
      reads this
    {
      if t in mem && i < 512 then mem[t][i] else 0
    }

    lemma EntryIsSeen(v: nat)
      requires Valid() && v < MAXVPN && LowOf(v) in tables
      ensures Entry(tables[LowOf(v)], v % 512) == Translate(mem, root, v * 4096, 2)
    {
      ProcessorSees(mem, tables, role, user, v * 4096);
    }

    // uvmcreate, on a pool whose free list is already in place.
    constructor (m: Memory, h: nat, ghost fs: seq<nat>, ghost r: map<nat, Role>, f: nat)
      requires SpaceOk(m, h, fs, map[], r, map[]) && f in r && r[f] == Held && m[f] == Filled(0)
      ensures Valid() && root == f && mem == m && head == h && free == fs && user == map[]
      ensures tables == map[Root := f] && role == r[f := Table(Root)]
      ensures forall v: nat :: Pte(mem, tables, v) == 0
    {
      root, mem, head := f, m, h;
      free, tables, role, user := fs, map[Root := f], r[f := Table(Root)], map[];
      new;
      FreeElsewhere(m, h, fs, r, f, m[f], Table(Root));
      assert m[f := m[f]] == m;
    }

    // kalloc
    method Kalloc() returns (f: nat)
      requires Valid()
      modifies this`mem, this`head, this`free, this`role
      ensures Valid() && (f == 0 <==> old(free) == [])
      ensures f == 0 ==> mem == old(mem) && head == old(head) && role == old(role) && free == old(free)
      ensures f != 0 ==>
        f in old(role) && old(role)[f] == Free && role == old(role)[f := Held] && free == old(free)[1..]
      ensures f != 0 ==> f in old(mem) && mem == old(mem)[f := Filled(0x0505_0505_0505_0505)]
      ensures SameView(old(mem), tables, mem, tables)
    {
      hide TreeOk, LeavesOk;
      f := head;
      if f != 0 {
        KallocStep(mem, head, free, tables, role, user, Filled(0x0505_0505_0505_0505));
        forall v: nat ensures Pte(mem[f := Filled(0x0505_0505_0505_0505)], tables, v) == Pte(mem, tables, v) {
          PteElsewhere(mem, tables, role, f, Filled(0x0505_0505_0505_0505), v);
        }
        head := mem[f][0];
        mem := mem[f := Filled(0x0505_0505_0505_0505)];
        free, role := free[1..], role[f := Held];
      }
    }

    // kfree: junk fill, then a push on the free list
    method PushPage(f: nat)
      requires f in mem
      modifies this`mem, this`head
      ensures mem == old(mem)[f := FreePage(old(head))] && head == f
    {
      mem := mem[f := Filled(0x0101_0101_0101_0101)];
      mem := mem[f := mem[f][0 := head]];
      head := f;
    }

    // kfree of a frame that the caller holds
    method Kfree(f: nat)
      requires Valid() && f in role && role[f] == Held
      modifies this`mem, this`head, this`free, this`role
      ensures Valid() && role == old(role)[f := Free] && free == [f] + old(free)
      ensures f in old(mem) && mem == old(mem)[f := mem[f]] && f in mem
      ensures SameView(old(mem), tables, mem, tables)
    {
      hide TreeOk, LeavesOk, FreeListOk;
      ghost var page := FreePage(head);
      KfreeStep(mem, head, free, tables, role, user, f, page);
      forall v: nat ensures Pte(mem[f := page], tables, v) == Pte(mem, tables, v) {
        PteElsewhere(mem, tables, role, f, page, v);
      }
      PushPage(f);
      free, role := [f] + free, role[f := Free];
    }

    // One level of walk: from page f through entry idx to the next page, which
    // is allocated if missing and wanted. 0 means there is none.
    method Descend(f: nat, idx: nat, alloc: bool, ghost n: Node) returns (g: nat)
      requires Valid() && n in tables && !n.Low? && tables[n] == f && idx < 512
      modifies this`mem, this`head, this`free, this`role, this`tables
      ensures Valid() && SameView(old(mem), old(tables), mem, tables) && OnlyNewTables(old(role), role)
      ensures g != 0 ==> Child(n, idx) in tables && tables[Child(n, idx)] == g
      ensures DataKept(old(mem), old(role), mem, role) && OnlyTablesAdded(old(mem), old(role), mem, role)
      ensures g == 0 ==> Child(n, idx) !in old(tables) && (alloc ==> old(free) == [])
      ensures g == 0 || !alloc || Child(n, idx) in old(tables) ==>
        mem == old(mem) && head == old(head) && free == old(free) && role == old(role) && tables == old(tables)
      ensures forall m :: m in old(tables) ==> m in tables && tables[m] == old(tables)[m]
      ensures g != 0 ==> tables.Keys == old(tables.Keys) + {Child(n, idx)}
      ensures |free| + |tables.Keys| == |old(free)| + |old(tables).Keys|
    {
      hide TreeOk, LeavesOk, FreeListOk;
      TableEntry(mem, tables, role, n, idx);
      if IsValid(mem[f][idx]) {
        g := FrameOf(mem[f][idx]);
      } else {
        if !alloc {
          return 0;
        }
        g := Kalloc();
        if g == 0 {
          return;
        }
        ghost var m1 := mem;
        AddTable(f, idx, g, n);
        SameViewTwice(old(mem), old(tables), m1, old(tables), mem, tables);
      }
    }

    // A held frame becomes the page-table page behind entry idx of page f.
    method AddTable(f: nat, idx: nat, g: nat, ghost n: Node)
      requires Valid() && n in tables && !n.Low? && tables[n] == f && idx < 512 && Child(n, idx) !in tables
      requires g in role && role[g] == Held
      modifies this`mem, this`role, this`tables
      ensures Valid() && SameView(old(mem), old(tables), mem, tables)
      ensures tables == old(tables)[Child(n, idx) := g] && role == old(role)[g := Table(Child(n, idx))]
      ensures DataKept(old(mem), old(role), mem, role)
    {
      hide TreeOk, LeavesOk, FreeListOk;
      TablesInMemory(mem, tables, role);
      HeldWriteStep(mem, head, free, tables, role, user, g, Filled(0));
      mem := mem[g := Filled(0)];
      AttachStep(mem, head, free, tables, role, user, n, idx, g);
      SameViewTwice(old(mem), tables, mem, tables, Linked(mem, tables, n, idx, g), tables[Child(n, idx) := g]);
      mem := mem[f := mem[f][idx := MakePte(g, 0)]];
      tables, role := tables[Child(n, idx) := g], role[g := Table(Child(n, idx))];
    }

    // walk: the page holding the PTE of v, or 0. `panic` is the range check.
    method Walk(v: nat, alloc: bool) returns (t: nat, panic: bool)
      requires Valid()
      modifies this`mem, this`head, this`free, this`role, this`tables
      ensures Valid() && panic == (v >= MAXVPN)
      // creating page-table pages changes no translation
      ensures SameView(old(mem), old(tables), mem, tables) && OnlyNewTables(old(role), role)
      ensures DataKept(old(mem), old(role), mem, role)
      ensures t != 0 ==> !panic && LowOf(v) in tables && tables[LowOf(v)] == t
      // entry PX(0, va) of that page is what the processor finds for va
      ensures t != 0 ==> Entry(t, v % 512) == Translate(mem, root, v * 4096, 2)
      ensures panic ==> t == 0
      ensures !panic && t == 0 ==> LowOf(v) !in old(tables)
      ensures !panic && t == 0 && alloc ==> free == []
      // one frame for each page-table page that was missing
      ensures alloc && t != 0 ==> tables.Keys == Reach(old(tables).Keys, v, 1)
      ensures |free| + |tables.Keys| == |old(free)| + |old(tables).Keys|
      ensures alloc && t == 0 && !panic ==> |old(free)| + |old(tables).Keys| < |Reach(old(tables).Keys, v, 1)|
      ensures !alloc || panic ==>
        mem == old(mem) && head == old(head) && free == old(free) && role == old(role) && tables == old(tables)
    {
      hide TreeOk, LeavesOk, FreeListOk, Translate, Entry, SameView, OnlyNewTables, DataKept, Reach;
      NoTablesAdded(mem, tables, role);
      if v >= MAXVPN {
        return 0, true;
      }
      panic := false;
      t := WalkDown(v, alloc);
      if t != 0 {
        EntryIsSeen(v);
      }
    }

    // The loop of walk.
    method WalkDown(v: nat, alloc: bool) returns (t: nat)
      requires Valid() && v < MAXVPN
      modifies this`mem, this`head, this`free, this`role, this`tables
      ensures Valid() && SameView(old(mem), old(tables), mem, tables) && OnlyTablesAdded(old(mem), old(role), mem, role)
      ensures t != 0 ==> LowOf(v) in tables && tables[LowOf(v)] == t
      ensures t == 0 ==> LowOf(v) !in old(tables) && (alloc ==> free == [])
      ensures alloc && t != 0 ==> tables.Keys == Reach(old(tables).Keys, v, 1)
      ensures |free| + |tables.Keys| == |old(free)| + |old(tables).Keys|
      ensures alloc && t == 0 ==> |old(free)| + |old(tables).Keys| < |Reach(old(tables).Keys, v, 1)|
      ensures !alloc ==>
        mem == old(mem) && head == old(head) && free == old(free) && role == old(role) && tables == old(tables)
    {
      hide TreeOk, LeavesOk, FreeListOk, SameView, OnlyTablesAdded, Reach, Path;
      NoTablesAdded(mem, tables, role);
      PathNone(tables.Keys, v);
      t := root;
      ghost var n := Root;
      var level := 2;
      while level > 0
        invariant 0 <= level <= 2 && Valid() && (level < 2 ==> t != 0)
        invariant n in tables && tables[n] == t
        invariant n == (if level == 2 then Root else if level == 1 then Mid(Px2(v)) else LowOf(v))
        invariant SameView(old(mem), old(tables), mem, tables) && OnlyTablesAdded(old(mem), old(role), mem, role)
        invariant forall m :: m in old(tables) ==> m in tables && tables[m] == old(tables)[m]
        invariant |free| + |tables.Keys| == |old(free)| + |old(tables).Keys|
        invariant tables.Keys == old(tables).Keys + Path(v, 2 - level)
        invariant !alloc ==>
          mem == old(mem) && head == old(head) && free == old(free) && role == old(role) && tables == old(tables)
      {
        var idx := if level == 2 then Px2(v) else Px1(v);
        assert idx < 512;
        ghost var m1, t1, r1 := mem, tables, role;
        t := Descend(t, idx, alloc, n);
        SameViewTwice(old(mem), old(tables), m1, t1, mem, tables);
        TablesAddedTwice(old(mem), old(role), m1, r1, mem, role);
        if t == 0 {
          MissingBelow(old(mem), old(tables), old(role), v);
          NoRoom(old(tables).Keys, tables.Keys, v, 2 - level);
          return;
        }
        PathNext(old(tables).Keys, t1.Keys, v, 2 - level);
        n := Child(n, idx);
        level := level - 1;
      }
      PathIsReach(old(tables).Keys, v);
    }

    // `*pte = x` for the PTE of v, in page t
    method Store(v: nat, t: nat, x: nat)
      requires Valid() && LowOf(v) in tables && tables[LowOf(v)] == t && v !in user
      requires x == 0 || (IsValid(x) && IsLeaf(x))
      modifies this`mem
      ensures t in old(mem) && t in mem && mem == old(mem)[t := mem[t]] && role[t].Table?
      ensures Valid() && forall w: nat :: Pte(mem, tables, w) == if w == v then x else Pte(old(mem), tables, w)
    {
      hide TreeOk, LeavesOk, FreeListOk;
      TablesInMemory(mem, tables, role);
      StoreStep(mem, head, free, tables, role, user, v, x);
      forall w: nat ensures Pte(Stored(mem, tables, v, x), tables, w) == if w == v then x else Pte(mem, tables, w) {
        StoredPte(mem, tables, role, v, x, w);
      }
      mem := mem[t := mem[t][Px0(v) := x]];
    }

    // One page of mappages.
    method MapOne(a: nat, f: nat, perm: nat) returns (r: MapResult)
      requires Valid() && perm < 1024 && perm / 2 % 8 != 0
      modifies this`mem, this`head, this`free, this`role, this`tables
      ensures Valid() && OnlyNewTables(old(role), role) && DataKept(old(mem), old(role), mem, role)
      ensures MappedView(old(mem), old(tables), mem, tables, a, if r == Mapped then 1 else 0, f, perm)
      ensures r == Mapped ==> a < MAXVPN && !IsValid(Pte(old(mem), old(tables), a))
      ensures r == NoMemory ==> free == []
      ensures r != Mapped ==> (r == Panic <==> a >= MAXVPN || IsValid(Pte(old(mem), old(tables), a)))
      ensures r == Mapped ==> tables.Keys == Reach(old(tables).Keys, a, 1)
      ensures |free| + |tables.Keys| == |old(free)| + |old(tables).Keys|
      ensures r == NoMemory ==> |old(free)| + |old(tables).Keys| < |Reach(old(tables).Keys, a, 1)|
    {
      hide Reach, TreeOk, LeavesOk, FreeListOk, Pte, IsValid, IsLeaf, FrameOf, MakePte, LowOf;
      var t, panic := Walk(a, true);
      if panic {
        return Panic;
      }
      if t == 0 {
        MissingPte(old(mem), old(tables), a);
        return NoMemory;
      }
      LeafEntry(mem, tables, role, user, a);
      if IsValid(mem[t][Px0(a)]) {
        return Panic;
      }
      UserFacts(a);
      PteRoundTrip(f, perm);
      Store(a, t, MakePte(f, perm));
      r := Mapped;
    }

    // mappages for n pages from v on; `done` counts those mapped.
    method Mappages(v: nat, n: nat, f: nat, perm: nat) returns (r: MapResult, ghost done: nat)
      requires Valid() && perm < 1024 && perm / 2 % 8 != 0
      modifies this`mem, this`head, this`free, this`role, this`tables
      ensures Valid() && OnlyNewTables(old(role), role) && DataKept(old(mem), old(role), mem, role)
      ensures MappedView(old(mem), old(tables), mem, tables, v, done, f, perm)
      ensures forall w: nat :: v <= w < v + done ==> w < MAXVPN && !IsValid(Pte(old(mem), old(tables), w))
      ensures if r == Mapped then done == n > 0 else done < n || n == 0
      ensures r == NoMemory ==> free == []
      ensures r != Mapped ==>
        (r == Panic <==> n == 0 || v + done >= MAXVPN || IsValid(Pte(old(mem), old(tables), v + done)))
      // one frame for each page-table page that was missing
      ensures r == Mapped ==> tables.Keys == Reach(old(tables).Keys, v, n)
      ensures |free| + |tables.Keys| == |old(free)| + |old(tables).Keys|
      ensures r == NoMemory ==> |old(free)| + |old(tables).Keys| < |Reach(old(tables).Keys, v, done + 1)|
    {
      hide Reach, TreeOk, LeavesOk, FreeListOk, Pte, IsValid, MakePte;
      done := 0;
      ReachNone(tables.Keys, v);
      if n == 0 {
        return Panic, done;
      }
      var a, pa := v, f;
      var last := v + n - 1;
      while true
        invariant a == v + done <= last && pa == f + done
        invariant Valid() && OnlyNewTables(old(role), role) && DataKept(old(mem), old(role), mem, role)
        invariant MappedView(old(mem), old(tables), mem, tables, v, done, f, perm)
        invariant forall w: nat :: v <= w < a ==> w < MAXVPN && !IsValid(Pte(old(mem), old(tables), w))
        invariant tables.Keys == Reach(old(tables).Keys, v, done)
        invariant |free| + |tables.Keys| == |old(free)| + |old(tables).Keys|
        decreases last - a
      {
        ghost var m1, t1, r1 := mem, tables, role;
        CostOne(old(tables).Keys, v, done);
        r := MapOne(a, pa, perm);
        MappedNext(old(mem), old(tables), m1, t1, mem, tables, v, done, if r == Mapped then 1 else 0, f, perm);
        if r != Mapped {
          return;
        }
        done := done + 1;
        if a == last {
          break;
        }
        a := a + 1;
        pa := pa + 1;
      }
    }

    // One page of uvmunmap. The frame goes back to the free list before its
    // PTE is cleared.
    method UnmapOne(a: nat, doFree: bool)
      requires Valid() && a < MAXVPN && (IsValid(Pte(mem, tables, a)) ==> (doFree <==> a in user))
      modifies this`mem, this`head, this`free, this`role, this`tables, this`user
      ensures Valid() && Unmapped(old(Now()), Now(), a, 1)
    {
      hide TreeOk, LeavesOk, FreeListOk, Pte, IsValid, IsLeaf, FrameOf, LowOf, Unmapped;
      UserFacts(a);
      var t, _ := Walk(a, false);
      if t == 0 {
        MissingPte(mem, tables, a);
        NothingToUnmap(Now(), a);
        return;
      }
      LeafEntry(mem, tables, role, user, a);
      if !IsValid(mem[t][Px0(a)]) {
        NothingToUnmap(Now(), a);
        return;
      }
      ghost var g := t;
      if doFree {
        var f := FrameOf(mem[t][Px0(a)]);
        g := f;
        ReleaseStep(mem, head, free, tables, role, user, a);
        role, user := role[f := Held], user - {a};
        Kfree(f);
      }
      Store(a, t, 0);
      UnmappedOne(old(Now()), Now(), a, g, t);
    }

    lemma UserFacts(v: nat)
      requires Valid()
      ensures v in user ==> IsValid(Pte(mem, tables, v)) && user[v] in role && role[user[v]] == User(v)
      ensures forall f :: f in role && role[f] == User(v) ==> v in user && user[v] == f
    {
      if v in user {
        assert MapsTo(mem, tables, v, user[v]);
      }
    }

    // uvmunmap of n pages from v on; the panic is walk's range check.
    method Uvmunmap(v: nat, n: nat, doFree: bool) returns (panic: bool)
      requires Valid()
      // the mapped pages are user memory to be freed, or none of them is
      requires forall w: nat :: v <= w < v + n && w < MAXVPN && IsValid(Pte(mem, tables, w)) ==> (doFree <==> w in user)
      modifies this`mem, this`head, this`free, this`role, this`tables, this`user
      ensures Valid() && panic == (n > 0 && v + n > MAXVPN)
      ensures Unmapped(old(Now()), Now(), v, if !panic then n else if v >= MAXVPN then 0 else MAXVPN - v)
    {
      hide TreeOk, LeavesOk, FreeListOk, Pte, IsValid, Unmapped;
      var a := v;
      UnmappedNone(Now(), v);
      while a < v + n
        invariant v <= a <= v + n && (a == v || a <= MAXVPN) && Valid() && Unmapped(old(Now()), Now(), v, a - v)
      {
        if a >= MAXVPN {
          return true;
        }
        ghost var s1 := Now();
        UnmappedAhead(old(Now()), s1, v, a - v);
        UnmapOne(a, doFree);
        UnmappedNext(old(Now()), s1, Now(), v, a - v);
        a := a + 1;
      }
      panic := false;
    }

    // uvmdealloc, on process sizes in bytes that PGROUNDUP can round up; the
    // panic is walk's range check.
    method Uvmdealloc(oldsz: nat, newsz: nat) returns (sz: nat, panic: bool)
      requires Valid() && oldsz + 4095 < 0x1_0000_0000_0000_0000
      requires forall w: nat :: Pages(newsz) <= w < Pages(oldsz) && IsValid(Pte(mem, tables, w)) ==> w in user
      modifies this`mem, this`head, this`free, this`role, this`tables, this`user
      ensures Valid() && (!panic ==> sz == (if newsz < oldsz then newsz else oldsz))
      ensures var v, n := Pages(newsz), Visited(oldsz, newsz);
        && panic == (n > 0 && v + n > MAXVPN)
        && Unmapped(old(Now()), Now(), v, if !panic then n else if v >= MAXVPN then 0 else MAXVPN - v)
    {
      hide TreeOk, LeavesOk, FreeListOk, Pte, IsValid, Unmapped;
      UnmappedNone(Now(), Pages(newsz));
      if newsz >= oldsz {
        return oldsz, false;
      }
      panic := false;
      if Pages(newsz) < Pages(oldsz) {
        panic := Uvmunmap(Pages(newsz), Visited(oldsz, newsz), true);
      }
      sz := newsz;
    }

    // kalloc followed by memset(mem, 0, PGSIZE)
    method AllocZeroed() returns (f: nat)
      requires Valid()
      modifies this`mem, this`head, this`free, this`role
      ensures Valid() && SameView(old(mem), tables, mem, tables)
      ensures f == 0 ==> mem == old(mem) && role == old(role) && free == old(free) == []
      ensures f != 0 ==> |free| + 1 == |old(free)|
      ensures f != 0 ==>
        && f in old(role) && old(role)[f] == Free && role == old(role)[f := Held] && f in old(mem)
        && mem == old(mem)[f := Filled(0)]
    {
      hide TreeOk, LeavesOk, FreeListOk, Pte;
      f := Kalloc();
      if f != 0 {
        ghost var m1 := mem;
        HeldWriteStep(mem, head, free, tables, role, user, f, Filled(0));
        mem := mem[f := Filled(0)];
        SameViewTwice(old(mem), tables, m1, tables, mem, tables);
      }
    }

    // One page of uvmalloc.
    method GrowOne(a: nat, perm: nat) returns (r: MapResult)
      requires Valid() && perm < 1024 && perm / 2 % 8 != 0
      modifies this`mem, this`head, this`free, this`role, this`tables, this`user
      ensures r != Panic ==> Valid()
      ensures r == NoMemory ==> Undone(old(Now()), Now())
      ensures r == Mapped ==> a < MAXVPN && Grown(old(Now()), Now(), a, 1, perm)
      ensures r == Panic ==> (a >= MAXVPN || IsValid(Pte(old(mem), old(tables), a))) && |old(free)| > 0
      ensures r == Mapped ==> tables.Keys == Reach(old(tables).Keys, a, 1) && !IsValid(Pte(old(mem), old(tables), a))
      ensures r == Mapped ==> |free| + Cost(old(tables).Keys, a, 1) == |old(free)|
      ensures r == NoMemory ==>
        || |old(free)| == 0
        || (a < MAXVPN && !IsValid(Pte(old(mem), old(tables), a)) && Cost(old(tables).Keys, a, 1) > |old(free)|)
    {
      hide Reach, TreeOk, LeavesOk, FreeListOk, Pte, IsValid, MakePte, Undone, Grown, MappedView, OnlyNewTables;
      hide DataKept;
      hide MapsTo;
      UserFacts(a);
      var f := AllocZeroed();
      if f == 0 {
        UndoneAtOnce(Now());
        return NoMemory;
      }
      ghost var s1 := Now();
      ghost var done;
      r, done := Mappages(a, 1, f, perm);
      if r == Panic {
        return;
      }
      ghost var s2 := Now();
      GrowOneRole(old(Now()), s1, s2, f);
      if r == NoMemory {
        Kfree(f);
        GrowOneFails(old(Now()), s1, s2, Now(), f, a, perm);
        return;
      }
      assert !IsValid(Pte(s1.mem, s1.tables, a));
      GrowOneWorks(old(Now()), s1, s2, f, a, perm);
      AdoptStep(mem, head, free, tables, role, user, a, f);
      role, user := role[f := User(a)], user[a := f];
    }

    lemma Entries()
      requires Valid()
      ensures forall w: nat :: !IsValid(Pte(mem, tables, w)) ==> Pte(mem, tables, w) == 0
      ensures forall f :: f in role && role[f].User? ==> role[f].v in user
    {
    }

    // The rollback of uvmalloc.
    method ShrinkBack(ghost s: Space, ghost s1: Space, lo: nat, k: nat, perm: nat)
      requires Valid() && perm < 1024 && Grown(s, s1, lo, k, perm) && Undone(s1, Now())
      requires (k == 0 || lo + k <= MAXVPN) && lo * 4096 + 4095 < 0x1_0000_0000_0000_0000
      requires forall w: nat :: !IsValid(Pte(s.mem, s.tables, w)) ==> Pte(s.mem, s.tables, w) == 0
      requires forall f :: f in s.role && s.role[f].User? ==> s.role[f].v in s.user
      modifies this`mem, this`head, this`free, this`role, this`tables, this`user
      ensures Valid() && Undone(s, Now())
    {
      hide TreeOk, LeavesOk, FreeListOk, Pte, IsValid, MakePte, Grown, Unmapped;
      GrownInside(s, s1, lo, k, perm);
      assert Pages((lo + k) * 4096) == lo + k && Pages(lo * 4096) == lo;
      ghost var s2 := Now();
      var _, _ := Uvmdealloc((lo + k) * 4096, lo * 4096);
      GrownUndone(s, s1, s2, Now(), lo, k, perm);
    }

    // uvmalloc, on process sizes in bytes; oldsz is one that PGROUNDUP can round up.
    method Uvmalloc(oldsz: nat, newsz: nat, xperm: nat) returns (sz: nat, panic: bool)
      requires Valid() && xperm in {0, 4, 8, 12} && oldsz + 4095 < 0x1_0000_0000_0000_0000
      modifies this`mem, this`head, this`free, this`role, this`tables, this`user
      ensures !panic ==> Valid()
      ensures newsz < oldsz ==> !panic && sz == oldsz
      ensures newsz < oldsz ==> mem == old(mem) && role == old(role) && user == old(user) && tables == old(tables)
      // it panics exactly if the frames last to the first page that is mapped
      // or beyond MAXVA, and works exactly if they last to the end
      ensures newsz >= oldsz ==>
        (panic <==> exists w: nat :: RunsInto(old(Now()), |old(free)|, Pages(oldsz), Pages(newsz), w))
      ensures newsz >= oldsz ==>
        (!panic && sz == newsz <==> CanGrow(old(Now()), |old(free)|, Pages(oldsz), Pages(newsz)))
      ensures !panic && newsz >= oldsz && sz != 0 ==> sz == newsz
      ensures !panic && newsz >= oldsz && sz == newsz ==>
        && Grown(old(Now()), Now(), Pages(oldsz), Surplus(newsz, oldsz), 18 + xperm)
        && GrownBytes(old(mem), mem, root, oldsz, newsz, 18 + xperm)
      // a failed call gives back every frame of user memory and every translation
      ensures !panic && newsz >= oldsz && sz != newsz ==> Undone(old(Now()), Now())
    {
      hide TreeOk, LeavesOk, FreeListOk, Pte, IsValid, MakePte, Grown, GrownBytes, Sees, Undone, Reach, Cost;
      ProcessorSeesPtes();
      if newsz < oldsz {
        return oldsz, false;
      }
      var perm := 18 + xperm;
      var lo := Pages(oldsz);
      var a := lo;
      ghost var keys := tables.Keys;
      GrownNone(Now(), lo, perm);
      ReachNone(keys, lo);
      Entries();
      while a * 4096 < newsz
        invariant lo <= a && (a == lo || a <= MAXVPN) && (a == lo || a <= Pages(newsz)) && Valid()
        invariant Grown(old(Now()), Now(), lo, a - lo, perm)
        invariant tables.Keys == Reach(keys, lo, a - lo) && |free| + Cost(keys, lo, a - lo) == |old(free)|
        invariant forall x: nat :: lo <= x < a ==> !Blocked(old(Now()), x)
        decreases newsz - a * 4096
      {
        ghost var s1 := Now();
        GrownOutside(old(Now()), s1, lo, a - lo, perm, a);
        CostOne(keys, lo, a - lo);
        var r := GrowOne(a, perm);
        if r == Panic {
          StopsAt(old(Now()), |old(free)|, lo, Pages(newsz), a, true);
          return 0, true;
        }
        if r == NoMemory {
          StopsAt(old(Now()), |old(free)|, lo, Pages(newsz), a, false);
          ShrinkBack(old(Now()), s1, lo, a - lo, perm);
          return 0, false;
        }
        GrownNext(old(Now()), s1, Now(), lo, a - lo, perm);
        a := a + 1;
      }
      sz, panic := newsz, false;
      ProcessorSeesPtes();
      GrownIsSeen(old(Now()), Now(), root, oldsz, newsz, perm);
    }

    // One turn of freewalk's loop.
    method FreeEntry(t: nat, i: nat, ghost n: Node) returns (panic: bool)
      requires SpaceOk(mem, head, free, tables, role, user) && n in tables && tables[n] == t && i < 512
      modifies this`mem, this`head, this`free, this`role, this`tables
      ensures panic <==> exists v: nat :: Behind(v, n, i) && IsValid(Pte(old(mem), old(tables), v))
      ensures !panic ==> SpaceOk(mem, head, free, tables, role, user) && SameView(old(mem), old(tables), mem, tables)
      ensures !panic ==> DataKept(old(mem), old(role), mem, role)
      ensures !panic && n.Low? ==>
        mem == old(mem) && tables == old(tables) && role == old(role) && t in mem && mem[t][i] == 0
      ensures !panic && !n.Low? ==>
        tables == Rest(old(tables), Child(n, i)) && Pruned(old(role), role, Child(n, i), 512, true)
      decreases Level(n), 0
    {
      hide TreeOk, LeavesOk, FreeListOk, Pte, IsLeaf, FrameOf, MakePte, Unlinked;
      TablesInMemory(mem, tables, role);
      ghost var v: nat;
      if n.Low? {
        v := LowEntry(mem, tables, role, user, n, i);
      } else {
        TableEntry(mem, tables, role, n, i);
      }
      var pte := mem[t][i];
      if IsValid(pte) && !IsLeaf(pte) {
        var child := FrameOf(pte);
        panic := Freewalk(child, Child(n, i));
        if panic {
          return;
        }
        UnlinkedIs(mem, tables, role, n, i);
        UnlinkedView(mem, tables, role, Child(n, i));
        SameViewTwice(old(mem), old(tables), mem, tables, Unlinked(mem, tables, Child(n, i)), tables);
        mem := mem[t := mem[t][i := 0]];
      } else if IsValid(pte) {
        return true;
      } else {
        EmptyEntry(mem, tables, role, n, i);
        panic := false;
      }
    }

    // The loop of freewalk.
    method FreeEntries(t: nat, ghost n: Node) returns (panic: bool)
      requires SpaceOk(mem, head, free, tables, role, user) && n in tables && tables[n] == t
      modifies this`mem, this`head, this`free, this`role, this`tables
      ensures panic <==> exists v: nat :: Under(v, n) && IsValid(Pte(old(mem), old(tables), v))
      ensures !panic ==> SpaceOk(mem, head, free, tables, role, user) && SameView(old(mem), old(tables), mem, tables)
      ensures !panic ==>
        n in tables && tables[n] == t && tables == Kept(old(tables), n, 512) && Pruned(old(role), role, n, 512, false)
      ensures !panic ==> t in mem && (n.Low? ==> mem[t] == Filled(0)) && DataKept(old(mem), old(role), mem, role)
      decreases Level(n), 1
    {
      hide TreeOk, LeavesOk, FreeListOk, Pte, IsValid, Pruned, Behind, Under;
      TablesInMemory(mem, tables, role);
      KeptAll(tables, role, n);
      var i := 0;
      while i < 512
        invariant 0 <= i <= 512 && SpaceOk(mem, head, free, tables, role, user) && n in tables && tables[n] == t
        invariant SameView(old(mem), old(tables), mem, tables) && tables == Kept(old(tables), n, i)
        invariant Pruned(old(role), role, n, i, false)
        invariant forall v: nat, j :: 0 <= j < i && Behind(v, n, j) ==> !IsValid(Pte(old(mem), old(tables), v))
        invariant t in mem && (n.Low? ==> mem[t][..i] == Filled(0)[..i]) && DataKept(old(mem), old(role), mem, role)
      {
        ghost var m1, t1, r1 := mem, tables, role;
        panic := FreeEntry(t, i, n);
        BehindUnder(n, i);
        if panic {
          return;
        }
        PrunedNext(old(mem), old(tables), old(role), t1, r1, tables, role, n, i);
        PrunedData(old(mem), old(role), m1, r1, mem, role, n, i);
        TablesInMemory(mem, tables, role);
        i := i + 1;
      }
      UnderBehind(n);
      panic := false;
    }

    // freewalk: frees the page t of node n and all pages below it. The entry
    // that leads to n is the caller's to clear. `panic` reports a leaf.
    method Freewalk(t: nat, ghost n: Node) returns (panic: bool)
      requires SpaceOk(mem, head, free, tables, role, user) && n in tables && tables[n] == t
      modifies this`mem, this`head, this`free, this`role, this`tables
      ensures panic <==> exists v: nat :: Under(v, n) && IsValid(Pte(old(mem), old(tables), v))
      ensures !panic ==> SpaceOk(Unlinked(mem, tables, n), head, free, tables, role, user)
      ensures !panic ==> SameView(old(mem), old(tables), mem, tables) && tables == Rest(old(tables), n)
      ensures !panic ==> Pruned(old(role), role, n, 512, true) && DataKept(old(mem), old(role), mem, role)
      decreases Level(n), 2
    {
      hide TreeOk, LeavesOk, FreeListOk, Pte, IsValid, Unlinked, Pruned;
      panic := FreeEntries(t, n);
      if panic {
        return;
      }
      ghost var m1, t1 := mem, tables;
      PrunedOwn(old(mem), old(tables), old(role), role, n);
      DropStep(mem, head, free, tables, role, user, n, FreePage(head));
      PushPage(t);
      free, tables, role := [t] + free, tables - {n}, role[t := Free];
      UnlinkedView(mem, tables, role, n);
      SameViewTwice(old(mem), old(tables), m1, t1, Unlinked(mem, tables, n), tables);
    }

    // uvmfree: every frame of the address space is back on the free list, once.
    method Uvmfree(sz: nat) returns (panic: bool)
      requires Valid() && Pages(sz) <= MAXVPN
      requires forall w: nat :: w < Pages(sz) && IsValid(Pte(mem, tables, w)) ==> w in user
      modifies this`mem, this`head, this`free, this`role, this`tables, this`user
      ensures panic <==> exists w: nat :: w >= Pages(sz) && IsValid(Pte(old(mem), old(tables), w))
      ensures !panic ==> SpaceOk(mem, head, free, map[], role, map[]) && tables == map[] && user == map[]
      ensures !panic ==> role.Keys == old(role).Keys && forall f :: f in role ==>
        role[f] == if old(role)[f] == Held then Held else Free
      ensures !panic ==> DataKept(old(mem), old(role), mem, role)
    {
      hide TreeOk, LeavesOk, FreeListOk, Pte, IsValid, Unmapped, FreedRoles, Pruned, DataKept;
      UnmappedNone(Now(), 0);
      if sz > 0 {
        var _ := Uvmunmap(0, Pages(sz), true);
      }
      assert Pages(0) == 0 && Unmapped(old(Now()), Now(), 0, Pages(sz));
      ghost var s1 := Now();
      UnmappedRest(old(Now()), s1, Pages(sz));
      RootCoversAll(mem, tables, role);
      panic := Freewalk(root, Root);
      if !panic {
        NothingLeft(mem, head, free, role, user);
        AllGivenBack(old(Now()), s1, Now(), Pages(sz));
      }
    }
  }
}
