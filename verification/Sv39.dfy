/** Address translation as the processor does it, over memory alone: the Sv39
    algorithm of the RISC-V privileged architecture, section "Virtual Address
    Translation Process". */
module Sv39 {
  import opened Blocks
  import opened PageTable

  // The entry that translating va ends with, starting in a page-table page at
  // the given level; 0 is a page fault. Bit 0 of an entry is V; R, W and X are
  // bits 1 to 3, all clear in a pointer to the next level; the frame is above
  // bit 10.
  function Translate(mem: Memory, page: nat, va: nat, level: nat): nat
    decreases level
  {
    if page !in mem then 0
    else
      assert Pow2(12 + 9 * level) > 0 by { PowerIsPositive(12 + 9 * level); }
      var pte := mem[page][va / Pow2(12 + 9 * level) % 512];
      if pte % 2 == 0 then 0
      else if pte / 2 % 8 != 0 then pte
      else if level == 0 then 0
      else Translate(mem, pte / 1024, va, level - 1)
  }

  lemma Powers()
    ensures Pow2(12) == 0x1000 && Pow2(21) == 0x20_0000 && Pow2(30) == 0x4000_0000
  {
    assert Pow2(4) == 16 && Pow2(8) == 256;
    assert Pow2(16) == 0x1_0000 && Pow2(20) == 0x10_0000;
    assert Pow2(24) == 0x100_0000 && Pow2(28) == 0x1000_0000;
  }

  // The three fields of the virtual page number.
  lemma Fields(va: nat)
    requires va < 0x80_0000_0000
    ensures va / 0x4000_0000 % 512 == Px2(va / 4096) && va / 0x20_0000 % 512 == Px1(va / 4096)
    ensures va / 0x1000 % 512 == Px0(va / 4096)
  {
    assert va / 0x20_0000 == va / 4096 / 512;
    assert va / 0x4000_0000 == va / 4096 / 0x4_0000 < 512;
  }

  // The processor finds the entry that the flat view has for the page of va.
  lemma ProcessorSees(mem: Memory, tables: map<Node, nat>, role: map<nat, Role>, user: map<nat, nat>, va: nat)
    requires TreeOk(mem, tables, role) && LeavesOk(mem, tables, role, user) && Root in tables
    requires va < 0x80_0000_0000
    ensures Translate(mem, tables[Root], va, 2) == Pte(mem, tables, va / 4096)
  {
    Powers();
    Fields(va);
    var v := va / 4096;
    AtRoot(mem, tables, role, va);
    if Mid(Px2(v)) in tables {
      AtMid(mem, tables, role, va);
      if LowOf(v) in tables {
        AtLow(mem, tables, role, user, va);
      }
    }
  }

  lemma Pointer(f: nat)
    ensures MakePte(f, 0) % 2 == 1 && MakePte(f, 0) / 2 % 8 == 0 && MakePte(f, 0) / 1024 == f
  {
    Halves(MakePte(f, 0), f * 512, 1);
    Eighths(f * 512, f * 64, 0);
    Frames(MakePte(f, 0), f, 1);
  }

  lemma AtRoot(mem: Memory, tables: map<Node, nat>, role: map<nat, Role>, va: nat)
    requires TreeOk(mem, tables, role) && Root in tables && va < 0x80_0000_0000
    ensures var c := Mid(Px2(va / 4096));
      Translate(mem, tables[Root], va, 2) == if c in tables then Translate(mem, tables[c], va, 1) else 0
  {
    Powers();
    Fields(va);
    var i := Px2(va / 4096);
    assert Child(Root, i) == Mid(i);
    if Mid(i) in tables {
      Pointer(tables[Mid(i)]);
    }
  }

  lemma AtMid(mem: Memory, tables: map<Node, nat>, role: map<nat, Role>, va: nat)
    requires TreeOk(mem, tables, role) && Mid(Px2(va / 4096)) in tables && va < 0x80_0000_0000
    ensures var c := LowOf(va / 4096);
      Translate(mem, tables[Mid(Px2(va / 4096))], va, 1) == if c in tables then Translate(mem, tables[c], va, 0) else 0
  {
    Powers();
    Fields(va);
    var n, i := Mid(Px2(va / 4096)), Px1(va / 4096);
    assert Child(n, i) == LowOf(va / 4096);
    if LowOf(va / 4096) in tables {
      Pointer(tables[LowOf(va / 4096)]);
    }
  }

  lemma AtLow(mem: Memory, tables: map<Node, nat>, role: map<nat, Role>, user: map<nat, nat>, va: nat)
    requires TreeOk(mem, tables, role) && LeavesOk(mem, tables, role, user) && va < 0x80_0000_0000
    requires LowOf(va / 4096) in tables
    ensures Translate(mem, tables[LowOf(va / 4096)], va, 0) == Pte(mem, tables, va / 4096)
  {
    Powers();
    Fields(va);
    var n, i := LowOf(va / 4096), Px0(va / 4096);
    assert n.Low? && tables[n] in mem;
    assert mem[tables[n]][i] == 0 || (IsValid(mem[tables[n]][i]) && IsLeaf(mem[tables[n]][i]));
  }
}
