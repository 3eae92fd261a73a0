/** Sv39 page tables (kernel/vm.c) over the frame pool of kernel/kalloc.c, as
    values. A frame is named by its physical page number, a page holds 512
    64-bit words, and a virtual page number (vpn) is an address shifted right
    by 12. */
module PageTable {
  type Page = p: seq<nat> | |p| == 512 witness seq(512, _ => 0)
  type Memory = map<nat, Page>

  // PTE_V; PTE_R, PTE_W and PTE_X; PTE2PA
  predicate IsValid(pte: nat) { pte % 2 == 1 }
  predicate IsLeaf(pte: nat) { pte / 2 % 8 != 0 }
  function FrameOf(pte: nat): nat { pte / 1024 }

  // PA2PTE(pa) | perm | PTE_V
  function MakePte(f: nat, perm: nat): nat
    requires perm < 1024
  {
    f * 1024 + (perm - perm % 2 + 1)
  }

  lemma PteRoundTrip(f: nat, perm: nat)
    requires perm < 1024
    ensures IsValid(MakePte(f, perm)) && FrameOf(MakePte(f, perm)) == f
    ensures IsLeaf(MakePte(f, perm)) <==> perm / 2 % 8 != 0
    ensures MakePte(f, perm) % 1024 == if perm % 2 == 0 then perm + 1 else perm
  {
    var p, x := perm - perm % 2 + 1, MakePte(f, perm);
    Halves(p, perm / 2, 1);
    Halves(x, f * 512 + perm / 2, 1);
    Eighths(f * 512 + perm / 2, f * 64 + perm / 2 / 8, perm / 2 % 8);
    Frames(x, f, p);
  }

  lemma Halves(x: nat, q: nat, r: nat)
    requires x == 2 * q + r && r < 2
    ensures x / 2 == q && x % 2 == r
  {
  }

  lemma Eighths(x: nat, q: nat, r: nat)
    requires x == 8 * q + r && r < 8
    ensures x / 8 == q && x % 8 == r
  {
  }

  lemma Frames(x: nat, q: nat, r: nat)
    requires x == 1024 * q + r && r < 1024
    ensures x / 1024 == q && x % 1024 == r
  {
  }

  // The page-table pages of one address space: the root, a page per 1 GB
  // (index PX(2, va)) and a page per 2 MB (indices PX(2, va) and PX(1, va)).
  datatype Node = Root | Mid(i2: nat) | Low(i2: nat, i1: nat)

  const MAXVPN: nat := 0x400_0000   // MAXVA >> 12

  function Px2(v: nat): nat { v / 0x4_0000 }
  function Px1(v: nat): nat { v / 512 % 512 }
  function Px0(v: nat): nat { v % 512 }

  function LowOf(v: nat): Node { Low(Px2(v), Px1(v)) }

  ghost predicate Indexed(n: Node) {
    match n
    case Root => true
    case Mid(i2) => i2 < 512
    case Low(i2, i1) => i2 < 512 && i1 < 512
  }

  ghost function Child(n: Node, i: nat): Node
    requires !n.Low?
  {
    if n.Root? then Mid(i) else Low(n.i2, i)
  }

  // What each frame of the pool is used for.
  datatype Role =
    | Free              // on kalloc's free list
    | Table(n: Node)    // a page-table page of this address space
    | User(v: nat)      // user memory mapped at v
    | Held              // allocated to somebody else

  ghost predicate LinksOn(mem: Memory, free: seq<nat>, i: nat)
    requires i < |free|
  {
    free[i] in mem && mem[free[i]][0] == if i + 1 < |free| then free[i + 1] else 0
  }

  // kmem.freelist: `head` and the first word of every free page link up `free`.
  ghost predicate FreeListOk(mem: Memory, head: nat, free: seq<nat>, role: map<nat, Role>) {
    && head == (if free == [] then 0 else free[0])
    && (forall i, j :: 0 <= i < j < |free| ==> free[i] != free[j])
    && (forall i :: 0 <= i < |free| ==> free[i] != 0 && free[i] in mem && free[i] in role && role[free[i]] == Free)
    && (forall i :: 0 <= i < |free| ==> LinksOn(mem, free, i))
    && (forall f :: f in role && role[f] == Free ==> f in free)
  }

  // The pages of memory hold exactly the tree of page tables in `tables`.
  ghost predicate TreeOk(mem: Memory, tables: map<Node, nat>, role: map<nat, Role>) {
    && (forall n :: n in tables ==>
          Indexed(n) && tables[n] != 0 && tables[n] in mem && tables[n] in role && role[tables[n]] == Table(n))
    && (forall f :: f in role && role[f].Table? ==> role[f].n in tables && tables[role[f].n] == f)
    && (forall i2 :: Mid(i2) in tables ==> Root in tables)
    && (forall i2, i1 :: Low(i2, i1) in tables ==> Mid(i2) in tables)
    && (forall n, i :: n in tables && !n.Low? && 0 <= i < 512 ==>
          mem[tables[n]][i] == if Child(n, i) in tables then MakePte(tables[Child(n, i)], 0) else 0)
  }

  // The flat view: the PTE of a virtual page, 0 if there is none.
  ghost function Pte(mem: Memory, tables: map<Node, nat>, v: nat): nat {
    if LowOf(v) in tables && tables[LowOf(v)] in mem then mem[tables[LowOf(v)]][Px0(v)] else 0
  }

  // Two states of the address space translate every page alike.
  ghost predicate SameView(mem: Memory, tables: map<Node, nat>, mem': Memory, tables': map<Node, nat>) {
    forall v: nat :: Pte(mem', tables', v) == Pte(mem, tables, v)
  }

  ghost predicate MapsTo(mem: Memory, tables: map<Node, nat>, v: nat, f: nat) {
    && LowOf(v) in tables && tables[LowOf(v)] in mem
    && IsValid(Pte(mem, tables, v)) && FrameOf(Pte(mem, tables, v)) == f
  }

  // Leaf entries are valid leaves or empty, and user frames are mapped where they say.
  ghost predicate LeavesOk(mem: Memory, tables: map<Node, nat>, role: map<nat, Role>, user: map<nat, nat>) {
    && (forall n, i :: n in tables && n.Low? && 0 <= i < 512 && tables[n] in mem ==>
          mem[tables[n]][i] == 0 || (IsValid(mem[tables[n]][i]) && IsLeaf(mem[tables[n]][i])))
    && (forall v :: v in user ==> v < MAXVPN && user[v] in role && role[user[v]] == User(v))
    && (forall f :: f in role && role[f].User? ==> role[f].v in user && user[role[f].v] == f)
    && (forall v :: v in user ==> MapsTo(mem, tables, v, user[v]))
  }

  ghost predicate SpaceOk(mem: Memory, head: nat, free: seq<nat>, tables: map<Node, nat>, role: map<nat, Role>,
                          user: map<nat, nat>) {
    && role.Keys == mem.Keys && 0 !in mem
    && FreeListOk(mem, head, free, role)
    && TreeOk(mem, tables, role)
    && LeavesOk(mem, tables, role, user)
  }

  // --- steps that change one frame outside the page tables ---

  lemma TreeElsewhere(mem: Memory, tables: map<Node, nat>, role: map<nat, Role>, f: nat, page: Page, r: Role)
    requires TreeOk(mem, tables, role) && f in mem && f in role && !role[f].Table? && !r.Table?
    ensures TreeOk(mem[f := page], tables, role[f := r])
    ensures forall n :: n in tables ==> tables[n] != f
  {
    forall n | n in tables ensures tables[n] != f {
      assert role[tables[n]] == Table(n);
    }
  }

  lemma LeavesElsewhere(mem: Memory, tables: map<Node, nat>, role: map<nat, Role>, user: map<nat, nat>, f: nat,
                        page: Page, r: Role)
    requires LeavesOk(mem, tables, role, user) && f in mem && f in role && !role[f].User? && !r.User?
    requires forall n :: n in tables ==> tables[n] != f && tables[n] in mem
    ensures LeavesOk(mem[f := page], tables, role[f := r], user)
  {
    forall v | v in user ensures MapsTo(mem[f := page], tables, v, user[v]) && user[v] != f {
      assert MapsTo(mem, tables, v, user[v]) && role[user[v]] == User(v);
    }
  }

  lemma PopFree(mem: Memory, head: nat, free: seq<nat>, role: map<nat, Role>, junk: Page, r: Role)
    requires FreeListOk(mem, head, free, role) && free != [] && r != Free
    ensures head in mem && head in role && role[head] == Free
    ensures FreeListOk(mem[head := junk], mem[head][0], free[1..], role[head := r])
  {
    var rest := free[1..];
    assert role[free[0]] == Free && LinksOn(mem, free, 0);
    forall i | 0 <= i < |rest| ensures rest[i] != head && LinksOn(mem[head := junk], rest, i) {
      assert rest[i] == free[i + 1] && LinksOn(mem, free, i + 1);
      assert i + 1 < |rest| ==> rest[i + 1] == free[i + 2];
    }
    forall f | f in role && role[f] == Free && f != head ensures f in rest {
      assert f in free;
      var i :| 0 <= i < |free| && free[i] == f;
      assert rest[i - 1] == f;
    }
  }

  lemma PushLinks(mem: Memory, free: seq<nat>, f: nat, page: Page, i: nat)
    requires i <= |free| && f !in free && page[0] == (if free == [] then 0 else free[0])
    requires i > 0 ==> LinksOn(mem, free, i - 1)
    ensures LinksOn(mem[f := page], [f] + free, i)
  {
    var all := [f] + free;
    assert i > 0 ==> all[i] == free[i - 1];
    assert i + 1 < |all| ==> all[i + 1] == free[i];
  }

  lemma PushFree(mem: Memory, head: nat, free: seq<nat>, role: map<nat, Role>, f: nat, page: Page)
    requires FreeListOk(mem, head, free, role) && f in mem && f in role && role[f] != Free && f != 0 && page[0] == head
    ensures FreeListOk(mem[f := page], f, [f] + free, role[f := Free])
  {
    var all, mem' := [f] + free, mem[f := page];
    forall i | 0 <= i < |free| ensures free[i] != f && all[i + 1] == free[i] {
      assert role[free[i]] == Free;
    }
    forall i | 0 <= i < |all| ensures LinksOn(mem', all, i) {
      PushLinks(mem, free, f, page, i);
    }
    forall g | g in role[f := Free] && role[f := Free][g] == Free ensures g in all {
      assert g == f || g in free;
      assert all[0] == f;
    }
  }

  lemma FreeElsewhere(mem: Memory, head: nat, free: seq<nat>, role: map<nat, Role>, f: nat, page: Page, r: Role)
    requires FreeListOk(mem, head, free, role) && f in mem && f in role && role[f] != Free && r != Free
    ensures FreeListOk(mem[f := page], head, free, role[f := r])
  {
    forall i | 0 <= i < |free| ensures free[i] != f && LinksOn(mem[f := page], free, i) {
      assert role[free[i]] == Free && LinksOn(mem, free, i);
    }
  }

  // Translations depend only on page-table pages.
  lemma PteElsewhere(mem: Memory, tables: map<Node, nat>, role: map<nat, Role>, f: nat, page: Page, v: nat)
    requires TreeOk(mem, tables, role) && f in role && !role[f].Table?
    ensures Pte(mem[f := page], tables, v) == Pte(mem, tables, v)
  {
    if LowOf(v) in tables {
      assert role[tables[LowOf(v)]] == Table(LowOf(v));
    }
  }

  lemma KallocStep(mem: Memory, head: nat, free: seq<nat>, tables: map<Node, nat>, role: map<nat, Role>,
                   user: map<nat, nat>, junk: Page)
    requires SpaceOk(mem, head, free, tables, role, user) && free != []
    ensures head != 0 && head in mem && role[head] == Free
    ensures SpaceOk(mem[head := junk], mem[head][0], free[1..], tables, role[head := Held], user)
  {
    hide TreeOk, LeavesOk;
    PopFree(mem, head, free, role, junk, Held);
    hide FreeListOk;
    TreeElsewhere(mem, tables, role, head, junk, Held);
    TablesInMemory(mem, tables, role);
    LeavesElsewhere(mem, tables, role, user, head, junk, Held);
  }

  lemma TablesInMemory(mem: Memory, tables: map<Node, nat>, role: map<nat, Role>)
    requires TreeOk(mem, tables, role)
    ensures forall n :: n in tables ==> tables[n] in mem && tables[n] in role && role[tables[n]] == Table(n)
  {
  }

  lemma KfreeStep(mem: Memory, head: nat, free: seq<nat>, tables: map<Node, nat>, role: map<nat, Role>,
                  user: map<nat, nat>, f: nat, page: Page)
    requires SpaceOk(mem, head, free, tables, role, user) && f in role && role[f] == Held && page[0] == head
    ensures SpaceOk(mem[f := page], f, [f] + free, tables, role[f := Free], user)
  {
    hide TreeOk, LeavesOk, FreeListOk;
    PushFree(mem, head, free, role, f, page);
    TreeElsewhere(mem, tables, role, f, page, Free);
    TablesInMemory(mem, tables, role);
    LeavesElsewhere(mem, tables, role, user, f, page, Free);
  }

  // --- steps that change the tree or a leaf ---

  lemma VpnParts(v: nat, w: nat)
    requires LowOf(v) == LowOf(w) && Px0(v) == Px0(w)
    ensures v == w
  {
    assert v / 512 == Px2(v) * 512 + Px1(v);
    assert w / 512 == Px2(w) * 512 + Px1(w);
  }

  // `*pte = PA2PTE(pagetable) | PTE_V` in walk
  ghost function Linked(mem: Memory, tables: map<Node, nat>, n: Node, i: nat, f: nat): Memory
    requires n in tables && tables[n] in mem && i < 512
  {
    mem[tables[n] := mem[tables[n]][i := MakePte(f, 0)]]
  }

  lemma AttachTree(mem: Memory, tables: map<Node, nat>, role: map<nat, Role>, n: Node, i: nat, f: nat)
    requires TreeOk(mem, tables, role) && n in tables && !n.Low? && i < 512 && Child(n, i) !in tables
    requires f in mem && f != 0 && f in role && role[f] == Held && mem[f] == seq(512, _ => 0)
    ensures tables[n] in mem && tables[n] != f
    ensures TreeOk(Linked(mem, tables, n, i, f), tables[Child(n, i) := f], role[f := Table(Child(n, i))])
  {
    var t, c := tables[n], Child(n, i);
    assert role[t] == Table(n);
    var mem', tables', role' := Linked(mem, tables, n, i, f), tables[c := f], role[f := Table(c)];
    forall m | m in tables ensures tables[m] != f {
      assert role[tables[m]] == Table(m);
    }
    forall m, k | m in tables' && !m.Low? && 0 <= k < 512
      ensures mem'[tables'[m]][k] == if Child(m, k) in tables' then MakePte(tables'[Child(m, k)], 0) else 0
    {
      if m == c {
        assert Child(c, k) !in tables;
      } else {
        assert m != n ==> tables[m] != t by {
          assert role[tables[m]] == Table(m);
        }
        assert Child(m, k) == c <==> m == n && k == i;
      }
    }
  }

  lemma AttachLeaves(mem: Memory, tables: map<Node, nat>, role: map<nat, Role>, user: map<nat, nat>, n: Node, i: nat,
                     f: nat)
    requires TreeOk(mem, tables, role) && LeavesOk(mem, tables, role, user)
    requires n in tables && !n.Low? && i < 512 && Child(n, i) !in tables
    requires f in mem && f in role && role[f] == Held && mem[f] == seq(512, _ => 0) && tables[n] in mem
    ensures LeavesOk(Linked(mem, tables, n, i, f), tables[Child(n, i) := f], role[f := Table(Child(n, i))], user)
  {
    var mem', tables' := Linked(mem, tables, n, i, f), tables[Child(n, i) := f];
    forall m | m in tables && m.Low? ensures tables[m] != f && tables[m] != tables[n] && tables[m] in mem {
      assert role[tables[m]] == Table(m) && role[tables[n]] == Table(n);
    }
    forall v | v in user ensures MapsTo(mem', tables', v, user[v]) && user[v] != f {
      assert MapsTo(mem, tables, v, user[v]) && role[user[v]] == User(v);
    }
  }

  lemma AttachPte(mem: Memory, tables: map<Node, nat>, role: map<nat, Role>, n: Node, i: nat, f: nat, v: nat)
    requires TreeOk(mem, tables, role) && n in tables && !n.Low? && i < 512 && Child(n, i) !in tables
    requires f in mem && f in role && role[f] == Held && mem[f] == seq(512, _ => 0) && tables[n] in mem
    ensures Pte(Linked(mem, tables, n, i, f), tables[Child(n, i) := f], v) == Pte(mem, tables, v)
  {
    assert role[tables[n]] == Table(n);
    if LowOf(v) in tables {
      assert role[tables[LowOf(v)]] == Table(LowOf(v));
    }
  }

  lemma AttachStep(mem: Memory, head: nat, free: seq<nat>, tables: map<Node, nat>, role: map<nat, Role>,
                   user: map<nat, nat>, n: Node, i: nat, f: nat)
    requires SpaceOk(mem, head, free, tables, role, user) && n in tables && !n.Low? && i < 512 && Child(n, i) !in tables
    requires f in role && role[f] == Held && mem[f] == seq(512, _ => 0)
    ensures tables[n] in mem && tables[n] != f
    ensures SpaceOk(Linked(mem, tables, n, i, f), head, free, tables[Child(n, i) := f], role[f := Table(Child(n, i))],
                    user)
    ensures SameView(mem, tables, Linked(mem, tables, n, i, f), tables[Child(n, i) := f])
  {
    AttachTree(mem, tables, role, n, i, f);
    AttachLeaves(mem, tables, role, user, n, i, f);
    TablesInMemory(mem, tables, role);
    hide TreeOk, LeavesOk, FreeListOk, Pte;
    var t := tables[n];
    FreeElsewhere(mem, head, free, role, t, mem[t][i := MakePte(f, 0)], role[t]);
    assert role[t := role[t]] == role;
    FreeElsewhere(Linked(mem, tables, n, i, f), head, free, role, f, mem[f], Table(Child(n, i)));
    assert Linked(mem, tables, n, i, f)[f := mem[f]] == Linked(mem, tables, n, i, f);
    forall v: nat ensures Pte(Linked(mem, tables, n, i, f), tables[Child(n, i) := f], v) == Pte(mem, tables, v) {
      AttachPte(mem, tables, role, n, i, f, v);
    }
  }

  // `*pte = x`
  ghost function Stored(mem: Memory, tables: map<Node, nat>, v: nat, x: nat): Memory
    requires LowOf(v) in tables && tables[LowOf(v)] in mem
  {
    mem[tables[LowOf(v)] := mem[tables[LowOf(v)]][Px0(v) := x]]
  }

  // Storing a PTE changes the translation of its own page only.
  lemma StoredPte(mem: Memory, tables: map<Node, nat>, role: map<nat, Role>, v: nat, x: nat, w: nat)
    requires TreeOk(mem, tables, role) && LowOf(v) in tables && tables[LowOf(v)] in mem
    ensures Pte(Stored(mem, tables, v, x), tables, w) == if w == v then x else Pte(mem, tables, w)
  {
    if LowOf(w) in tables {
      assert role[tables[LowOf(w)]] == Table(LowOf(w)) && role[tables[LowOf(v)]] == Table(LowOf(v));
      if LowOf(w) == LowOf(v) && Px0(w) == Px0(v) {
        VpnParts(v, w);
      }
    }
  }

  lemma StoreStep(mem: Memory, head: nat, free: seq<nat>, tables: map<Node, nat>, role: map<nat, Role>,
                  user: map<nat, nat>, v: nat, x: nat)
    requires SpaceOk(mem, head, free, tables, role, user) && LowOf(v) in tables && v !in user
    requires x == 0 || (IsValid(x) && IsLeaf(x))
    ensures tables[LowOf(v)] in mem
    ensures SpaceOk(Stored(mem, tables, v, x), head, free, tables, role, user)
  {
    TablesInMemory(mem, tables, role);
    var t := tables[LowOf(v)];
    assert role[t := role[t]] == role;
    StoreTree(mem, tables, role, v, x);
    StoreLeaves(mem, tables, role, user, v, x);
    hide TreeOk, LeavesOk, FreeListOk;
    FreeElsewhere(mem, head, free, role, t, mem[t][Px0(v) := x], role[t]);
  }

  lemma StoreTree(mem: Memory, tables: map<Node, nat>, role: map<nat, Role>, v: nat, x: nat)
    requires TreeOk(mem, tables, role) && LowOf(v) in tables && tables[LowOf(v)] in mem
    ensures TreeOk(Stored(mem, tables, v, x), tables, role)
  {
    forall n | n in tables && !n.Low? ensures tables[n] != tables[LowOf(v)] {
      assert role[tables[n]] == Table(n) && role[tables[LowOf(v)]] == Table(LowOf(v));
    }
  }

  lemma StoreLeaves(mem: Memory, tables: map<Node, nat>, role: map<nat, Role>, user: map<nat, nat>, v: nat, x: nat)
    requires TreeOk(mem, tables, role) && LeavesOk(mem, tables, role, user) && LowOf(v) in tables
    requires tables[LowOf(v)] in mem
    requires v !in user && (x == 0 || (IsValid(x) && IsLeaf(x)))
    ensures LeavesOk(Stored(mem, tables, v, x), tables, role, user)
  {
    forall w | w in user ensures MapsTo(Stored(mem, tables, v, x), tables, w, user[w]) {
      assert MapsTo(mem, tables, w, user[w]);
      StoredPte(mem, tables, role, v, x, w);
    }
    forall n | n in tables && n.Low? ensures n != LowOf(v) ==> tables[n] != tables[LowOf(v)] {
      assert role[tables[n]] == Table(n) && role[tables[LowOf(v)]] == Table(LowOf(v));
    }
  }

  // A held frame mapped at v becomes user memory, and back.
  lemma AdoptStep(mem: Memory, head: nat, free: seq<nat>, tables: map<Node, nat>, role: map<nat, Role>,
                  user: map<nat, nat>, v: nat, f: nat)
    requires SpaceOk(mem, head, free, tables, role, user) && v !in user && v < MAXVPN
    requires f in role && role[f] == Held && MapsTo(mem, tables, v, f)
    ensures SpaceOk(mem, head, free, tables, role[f := User(v)], user[v := f])
  {
    hide TreeOk, FreeListOk;
    assert mem[f := mem[f]] == mem;
    FreeElsewhere(mem, head, free, role, f, mem[f], User(v));
    TreeElsewhere(mem, tables, role, f, mem[f], User(v));
    forall w | w in user ensures user[w] != f {
      assert role[user[w]] == User(w);
    }
  }

  lemma ReleaseStep(mem: Memory, head: nat, free: seq<nat>, tables: map<Node, nat>, role: map<nat, Role>,
                    user: map<nat, nat>, v: nat)
    requires SpaceOk(mem, head, free, tables, role, user) && v in user
    ensures user[v] in role && role[user[v]] == User(v) && MapsTo(mem, tables, v, user[v])
    ensures SpaceOk(mem, head, free, tables, role[user[v] := Held], user - {v})
  {
    var f := user[v];
    assert role[f] == User(v) && MapsTo(mem, tables, v, user[v]);
    hide TreeOk, FreeListOk;
    assert mem[f := mem[f]] == mem;
    FreeElsewhere(mem, head, free, role, f, mem[f], Held);
    TreeElsewhere(mem, tables, role, f, mem[f], Held);
    forall w | w in user && w != v ensures user[w] != f {
      assert role[user[w]] == User(w);
    }
  }

  // memset of a frame that the caller holds
  lemma HeldWriteStep(mem: Memory, head: nat, free: seq<nat>, tables: map<Node, nat>, role: map<nat, Role>,
                      user: map<nat, nat>, f: nat, page: Page)
    requires SpaceOk(mem, head, free, tables, role, user) && f in role && role[f] == Held
    ensures SpaceOk(mem[f := page], head, free, tables, role, user) && SameView(mem, tables, mem[f := page], tables)
  {
    hide TreeOk, LeavesOk, FreeListOk;
    assert role[f := Held] == role;
    FreeElsewhere(mem, head, free, role, f, page, Held);
    TreeElsewhere(mem, tables, role, f, page, Held);
    TablesInMemory(mem, tables, role);
    LeavesElsewhere(mem, tables, role, user, f, page, Held);
    forall v: nat ensures Pte(mem[f := page], tables, v) == Pte(mem, tables, v) {
      PteElsewhere(mem, tables, role, f, page, v);
    }
  }

  lemma TableEntry(mem: Memory, tables: map<Node, nat>, role: map<nat, Role>, n: Node, i: nat)
    requires TreeOk(mem, tables, role) && n in tables && !n.Low? && i < 512
    ensures tables[n] in mem && tables[n] != 0
    ensures var e := mem[tables[n]][i];
      && (IsValid(e) <==> Child(n, i) in tables)
      && (IsValid(e) ==> FrameOf(e) == tables[Child(n, i)] && FrameOf(e) != 0 && !IsLeaf(e))
      && (!IsValid(e) ==> e == 0)
  {
    assert mem[tables[n]][i] == if Child(n, i) in tables then MakePte(tables[Child(n, i)], 0) else 0;
    if Child(n, i) in tables {
      PteRoundTrip(tables[Child(n, i)], 0);
    }
  }

  lemma LeafEntry(mem: Memory, tables: map<Node, nat>, role: map<nat, Role>, user: map<nat, nat>, v: nat)
    requires TreeOk(mem, tables, role) && LeavesOk(mem, tables, role, user) && LowOf(v) in tables
    ensures tables[LowOf(v)] in mem && mem[tables[LowOf(v)]][Px0(v)] == Pte(mem, tables, v)
    ensures Pte(mem, tables, v) == 0 || (IsValid(Pte(mem, tables, v)) && IsLeaf(Pte(mem, tables, v)))
    ensures v in user ==> MapsTo(mem, tables, v, user[v]) && FrameOf(Pte(mem, tables, v)) == user[v]
  {
    assert role[tables[LowOf(v)]] == Table(LowOf(v));
  }

  lemma SameViewTwice(mem: Memory, tables: map<Node, nat>, mem': Memory, tables': map<Node, nat>, mem'': Memory,
                      tables'': map<Node, nat>)
    requires SameView(mem, tables, mem', tables') && SameView(mem', tables', mem'', tables'')
    ensures SameView(mem, tables, mem'', tables'')
  {
  }

  lemma MissingBelow(mem: Memory, tables: map<Node, nat>, role: map<nat, Role>, v: nat)
    requires TreeOk(mem, tables, role)
    ensures Mid(Px2(v)) !in tables ==> LowOf(v) !in tables
  {
  }

  // --- freewalk: taking page-table pages away ---

  ghost predicate Cut(m: Node, n: Node, k: nat) {
    // m is in the tree behind one of the first k entries of n
    match n
    case Root => !m.Root? && m.i2 < k
    case Mid(i2) => m.Low? && m.i2 == i2 && m.i1 < k
    case Low(_, _) => false
  }

  ghost predicate Below(m: Node, n: Node) { m == n || Cut(m, n, 512) }

  ghost function Parent(n: Node): Node
    requires !n.Root?
  {
    if n.Mid? then Root else Mid(n.i2)
  }

  ghost function Slot(n: Node): nat
    requires !n.Root?
  {
    if n.Mid? then n.i2 else n.i1
  }

  // Memory with the entry that leads to n cleared.
  ghost function Unlinked(mem: Memory, tables: map<Node, nat>, n: Node): Memory {
    if n.Root? || !Indexed(n) || Parent(n) !in tables || tables[Parent(n)] !in mem then mem
    else mem[tables[Parent(n)] := mem[tables[Parent(n)]][Slot(n) := 0]]
  }

  lemma DropTree(mem: Memory, tables: map<Node, nat>, role: map<nat, Role>, n: Node, page: Page)
    requires TreeOk(mem, tables, role) && n in tables && (forall m :: m in tables ==> !Cut(m, n, 512))
    ensures TreeOk(Unlinked(mem[tables[n] := page], tables - {n}, n), tables - {n}, role[tables[n] := Free])
  {
    var t, tables' := tables[n], tables - {n};
    var mem' := Unlinked(mem[t := page], tables', n);
    forall m | m in tables && m != n ensures tables[m] != t {
      assert role[tables[m]] == Table(m);
    }
    forall m, i | m in tables' && !m.Low? && 0 <= i < 512
      ensures mem'[tables'[m]][i] == if Child(m, i) in tables' then MakePte(tables'[Child(m, i)], 0) else 0
    {
      assert role[tables[m]] == Table(m) && role[t] == Table(n);
      if !n.Root? && m != Parent(n) && Parent(n) in tables {
        assert role[tables[Parent(n)]] == Table(Parent(n));
      }
      assert Child(m, i) == n <==> !n.Root? && m == Parent(n) && i == Slot(n);
    }
    DropClosed(tables, n);
  }

  lemma DropClosed(tables: map<Node, nat>, n: Node)
    requires n in tables && (forall m :: m in tables ==> !Cut(m, n, 512) && Indexed(m))
    ensures n == Root ==> tables - {n} == map[]
    ensures forall i2 :: n == Mid(i2) ==> forall i1 :: Low(i2, i1) !in tables
  {
    if n == Root {
      forall m | m in tables ensures m == n {
      }
    }
  }

  lemma DropPte(mem: Memory, tables: map<Node, nat>, role: map<nat, Role>, n: Node, page: Page, v: nat)
    requires TreeOk(mem, tables, role) && n in tables
    requires n.Low? ==> mem[tables[n]] == seq(512, _ => 0)
    ensures Pte(Unlinked(mem[tables[n] := page], tables - {n}, n), tables - {n}, v) == Pte(mem, tables, v)
  {
    if LowOf(v) in tables {
      assert role[tables[LowOf(v)]] == Table(LowOf(v)) && role[tables[n]] == Table(n);
      if !n.Root? && Parent(n) in tables {
        assert role[tables[Parent(n)]] == Table(Parent(n));
      }
    }
  }

  lemma DropLeaves(mem: Memory, tables: map<Node, nat>, role: map<nat, Role>, user: map<nat, nat>, n: Node, page: Page)
    requires TreeOk(mem, tables, role) && LeavesOk(mem, tables, role, user) && n in tables
    requires n.Low? ==> mem[tables[n]] == seq(512, _ => 0)
    ensures LeavesOk(Unlinked(mem[tables[n] := page], tables - {n}, n), tables - {n}, role[tables[n] := Free], user)
  {
    var t, tables' := tables[n], tables - {n};
    var mem' := Unlinked(mem[t := page], tables', n);
    assert role[t] == Table(n);
    forall m | m in tables' && m.Low? ensures tables'[m] in mem' && mem'[tables'[m]] == mem[tables[m]] {
      assert role[tables[m]] == Table(m);
      if !n.Root? && Parent(n) in tables {
        assert role[tables[Parent(n)]] == Table(Parent(n));
      }
    }
    forall v | v in user ensures MapsTo(mem', tables', v, user[v]) && user[v] != t {
      assert MapsTo(mem, tables, v, user[v]) && role[user[v]] == User(v);
      DropPte(mem, tables, role, n, page, v);
    }
  }

  lemma DropStep(mem: Memory, head: nat, free: seq<nat>, tables: map<Node, nat>, role: map<nat, Role>,
                 user: map<nat, nat>, n: Node, page: Page)
    requires SpaceOk(mem, head, free, tables, role, user) && n in tables
    requires (forall m :: m in tables ==> !Cut(m, n, 512))
    requires (n.Low? ==> mem[tables[n]] == seq(512, _ => 0)) && page[0] == head
    ensures SpaceOk(Unlinked(mem[tables[n] := page], tables - {n}, n), tables[n], [tables[n]] + free, tables - {n},
                    role[tables[n] := Free], user)
    ensures SameView(mem, tables, Unlinked(mem[tables[n] := page], tables - {n}, n), tables - {n})
  {
    TablesInMemory(mem, tables, role);
    DropTree(mem, tables, role, n, page);
    DropLeaves(mem, tables, role, user, n, page);
    forall v: nat
      ensures Pte(Unlinked(mem[tables[n] := page], tables - {n}, n), tables - {n}, v) == Pte(mem, tables, v)
    {
      DropPte(mem, tables, role, n, page, v);
    }
    hide TreeOk, LeavesOk, FreeListOk;
    var t := tables[n];
    PushFree(mem, head, free, role, t, page);
    if !n.Root? && Indexed(n) && Parent(n) in tables {
      var p := tables[Parent(n)];
      var role' := role[t := Free];
      assert p != t && role[p] == Table(Parent(n));
      FreeElsewhere(mem[t := page], t, [t] + free, role', p, mem[p][Slot(n) := 0], role'[p]);
      assert role'[p := role'[p]] == role';
    }
  }

  // Clearing the entry behind which nothing is left changes no translation.
  lemma UnlinkedView(mem: Memory, tables: map<Node, nat>, role: map<nat, Role>, n: Node)
    requires TreeOk(Unlinked(mem, tables, n), tables, role)
    ensures SameView(mem, tables, Unlinked(mem, tables, n), tables)
  {
    forall v: nat ensures Pte(Unlinked(mem, tables, n), tables, v) == Pte(mem, tables, v) {
      if LowOf(v) in tables && !n.Root? && Parent(n) in tables {
        assert role[tables[LowOf(v)]] == Table(LowOf(v)) && role[tables[Parent(n)]] == Table(Parent(n));
      }
    }
  }

  lemma NothingBelow(mem: Memory, tables: map<Node, nat>, role: map<nat, Role>, n: Node)
    requires TreeOk(mem, tables, role) && n !in tables && !n.Root?
    ensures forall m :: m in tables ==> !Below(m, n)
  {
  }

  lemma CutNext(m: Node, n: Node, i: nat)
    requires Indexed(m) && !n.Low?
    ensures Cut(m, n, i + 1) <==> Cut(m, n, i) || Below(m, Child(n, i))
  {
  }

  lemma VpnAt(n: Node, i: nat) returns (v: nat)
    requires n.Low? && Indexed(n) && i < 512
    ensures LowOf(v) == n && Px0(v) == i
  {
    v := n.i2 * 0x4_0000 + n.i1 * 512 + i;
    assert v / 512 == n.i2 * 512 + n.i1;
  }

  // An entry of a lowest page is the PTE of some virtual page.
  lemma LowEntry(mem: Memory, tables: map<Node, nat>, role: map<nat, Role>, user: map<nat, nat>, n: Node,
                 i: nat) returns (v: nat)
    requires TreeOk(mem, tables, role) && LeavesOk(mem, tables, role, user) && n in tables && n.Low? && i < 512
    ensures LowOf(v) == n && Px0(v) == i && tables[n] in mem && mem[tables[n]][i] == Pte(mem, tables, v)
    ensures var e := mem[tables[n]][i]; e == 0 || (IsValid(e) && IsLeaf(e))
  {
    v := VpnAt(n, i);
    LeafEntry(mem, tables, role, user, v);
  }
}
