/** kernel/memory/vm.c in place: table words written one by one, through the allocator. Each method is
    the operation of the same name in PageTables. */
module VirtualMemoryClass {
  import opened Words
  import opened PageModel
  import opened PageTables
  import PageAllocator

  class VirtualMemory {
    const pages: PageAllocator.Allocator
    const boot: seq<nat>
    var mem: Memory
    var active: nat

    ghost function Abs(): Machine reads this, pages, pages.states { Machine(pages.Abs(), mem) }

    ghost predicate Sound() reads this, pages, pages.states { MachineOk(Abs()) && |boot| == 512 }

    constructor (pages: PageAllocator.Allocator, boot: seq<nat>, mem: Memory, active: nat)
      ensures this.pages == pages && this.boot == boot && this.mem == mem && this.active == active
    {
      this.pages, this.boot, this.mem, this.active := pages, boot, mem, active;
    }

    method PageAlloc() returns (r: Option<nat>)
      requires Sound()
      modifies pages`free, pages`next, pages.states
      ensures pages.Abs() == Alloc(old(pages.Abs())).0 && r == Alloc(old(pages.Abs())).1
      ensures Sound() && (r.Some? ==> r.value < pages.states.Length <= |mem|)
    {
      hide Scan;
      ghost var before := pages.Abs();
      AllocFacts(before);
      var a := pages.Allocate();
      r := match a case None => None case Some(address) => Some(address / 4096);
      if r.Some? {
        StillReserved(before, pages.Abs(), {r.value});
      }
    }

    static lemma StillReserved(p: Pages, q: Pages, taken: set<nat>)
      requires |p.states| > 0 && p.states[0].Unmanaged? && Took(p, q, taken)
      ensures q.states[0].Unmanaged?
    {
      assert 0 !in FreeSet(p) && 0 !in LiveSet(p);
      assert 0 !in FreeSet(q) && 0 !in LiveSet(q);
    }

    /** memset of a whole frame, word by word. */
    method ClearFrame(f: nat)
      requires Sound() && f < |mem|
      modifies this`mem
      ensures mem == Clear(old(mem), f) && Sound()
    {
      var i := 0;
      while i < 512
        modifies this`mem
        invariant 0 <= i <= 512 && |mem| == |old(mem)| && |mem[f]| == 512
        invariant forall g :: 0 <= g < |mem| && g != f ==> mem[g] == old(mem[g])
        invariant forall j :: 0 <= j < i ==> mem[f][j] == 0
      {
        mem := Store(mem, f, i, 0);
        i := i + 1;
      }
      assert mem[f] == Zeros();
      assert mem == Clear(old(mem), f);
    }

    /** new_table */
    method NewTable(s: Space) returns (s': Space, r: Option<nat>)
      requires Sound()
      modifies this`mem, pages`free, pages`next, pages.states
      ensures (Abs(), s', r) == PageTables.NewTable(old(Abs()), s) && Sound()
    {
      s', r := s, None;
      if |s.tables| == TABLE_LIMIT { return; }
      r := PageAlloc();
      if r.Some? {
        ClearFrame(r.value);
        s' := s.(tables := s.tables + [r.value]);
      }
    }

    /** vm_create */
    method Create(s: Space) returns (s': Space, ok: bool)
      requires Sound()
      modifies this`mem, pages`free, pages`next, pages.states
      ensures (Abs(), s', ok) == PageTables.Create(old(Abs()), s, boot) && Sound()
    {
      hide PageTables.NewTable, Alloc;
      if s.root != 0 || s.tables != [] { return s, false; }
      NewTableFacts(Abs(), s);
      var s1, r := NewTable(s);
      if r == None { return s1, false; }
      var f := r.value;
      ghost var m1 := Abs();
      ghost var zeroed := mem;
      assert PageTables.NewTable(old(Abs()), s) == (m1, s1, r);
      var i := 256;
      while i < 512
        modifies this`mem
        invariant 256 <= i <= 512 && |mem| == |zeroed| && |mem[f]| == 512
        invariant forall g :: 0 <= g < |mem| && g != f ==> mem[g] == zeroed[g]
        invariant forall j :: 0 <= j < 512 ==> mem[f][j] == if 256 <= j < i then ClearUser(boot[j]) else zeroed[f][j]
      {
        mem := Store(mem, f, i, ClearUser(boot[i]));
        i := i + 1;
      }
      assert mem[f] == CopyUpper(zeroed[f], boot);
      assert mem == zeroed[f := CopyUpper(zeroed[f], boot)];
      assert Abs() == m1.(mem := mem);
      return s1.(root := f), true;
    }

    /** leaf_entry: three levels down from the root. */
    method LeafEntry(s: Space, address: nat) returns (r: Option<Leaf>)
      ensures r == PageTables.LeafEntry(mem, s, address)
    {
      if s.root == 0 || address >= ADDRESS_LIMIT { return None; }
      var table, rights, level := s.root, ALL_RIGHTS, 3;
      while level > 0
        invariant 0 <= level <= 3
        invariant Walk(mem, s.root, address / 4096, 3, ALL_RIGHTS) == Walk(mem, table, address / 4096, level, rights)
      {
        var entry := Word(mem, table, Index(address / 4096, level));
        if !Present(entry) || Large(entry) { return None; }
        rights := rights.Meet(EntryRights(entry));
        table := FrameOf(entry);
        level := level - 1;
      }
      return Some(Leaf(table, rights));
    }

    /** vm_lookup */
    method Lookup(s: Space, address: nat) returns (r: Option<Translation>)
      ensures r == PageTables.Lookup(mem, s, address)
    {
      hide PageTables.LeafEntry;
      var leaf := LeafEntry(s, address);
      if leaf == None { return None; }
      var w := Word(mem, leaf.value.table, address / 4096 % 512);
      if !Present(w) { return None; }
      return Some(Translation(FrameOf(w) * 4096 + address % 4096, leaf.value.rights.Meet(EntryRights(w))));
    }

    /** vm_map */
    method Map(s: Space, address: nat, physical: nat, flags: nat) returns (s': Space, ok: bool)
      requires Sound()
      modifies this`mem, pages`free, pages`next, pages.states
      ensures (Abs(), s', ok) == PageTables.Map(old(Abs()), s, address, physical, flags) && Sound()
    {
      hide PageTables.NewTable, PageTables.Lookup, TableWord, LeafWord, Word, Alloc;
      s' := s;
      if s.root == 0 || address == 0 || address >= ADDRESS_LIMIT || address % 4096 != 0 { return s, false; }
      var backed := pages.Data(physical);
      if !backed || flags >= 8 { return s, false; }
      var existing := Lookup(s, address);
      if existing.Some? { return s, false; }
      var page, table, level := address / 4096, s.root, 3;
      while level > 0
        invariant 0 <= level <= 3 && Sound()
        invariant Descend(old(Abs()), s, s.root, page, 3) == Descend(Abs(), s', table, page, level)
      {
        var index := Index(page, level);
        if !Present(Word(mem, table, index)) {
          var next;
          s', next := NewTable(s');
          if next == None { return s', false; }
          mem := Store(mem, table, index, TableWord(next.value));
        }
        var entry := Word(mem, table, index);
        if Large(entry) { return s', false; }
        table := FrameOf(entry);
        level := level - 1;
      }
      mem := Store(mem, table, page % 512, LeafWord(physical / 4096, RightsOf(flags)));
      return s', true;
    }

    /** vm_unmap */
    method Unmap(s: Space, address: nat) returns (ok: bool)
      modifies this`mem
      ensures (mem, ok) == PageTables.Unmap(old(mem), s, address)
    {
      hide PageTables.LeafEntry, Word;
      if address % 4096 != 0 { return false; }
      var leaf := LeafEntry(s, address);
      if leaf == None { return false; }
      var index := address / 4096 % 512;
      if !Present(Word(mem, leaf.value.table, index)) { return false; }
      mem := Store(mem, leaf.value.table, index, 0);
      return true;
    }

    /** vm_destroy: tables are freed from the last recorded to the first. */
    method Destroy(s: Space) returns (ok: bool, panicked: bool)
      requires Sound()
      modifies pages`free, pages.states
      ensures match PageTables.Destroy(old(pages.Abs()), s, active)
              case Refused => !ok && !panicked && pages.Abs() == old(pages.Abs())
              case Destroyed(p) => ok && !panicked && pages.Abs() == p
              case OwnershipDiffers => panicked
    {
      if s.root == 0 || s.root == active { return false, false; }
      var i := |s.tables|;
      assert s.tables[..i] == s.tables;
      while i > 0
        invariant 0 <= i <= |s.tables|
        invariant ReleaseBack(old(pages.Abs()), s.tables) == ReleaseBack(pages.Abs(), s.tables[..i])
      {
        assert s.tables[..i][..i - 1] == s.tables[..i - 1];
        var freed := pages.Deallocate(s.tables[i - 1] * 4096);
        if !freed { return false, true; }
        i := i - 1;
      }
      return true, false;
    }
  }
}
