/** Four-level page tables (kernel/memory/vm.c) over frame-indexed physical memory. A frame holds
    512 words; `Space` records the root and every table frame an address space owns, as frame
    numbers (0 is "no root": frame 0 is never allocated). */
module PageTables {
  import opened Words
  import opened PageModel

  type Memory = seq<seq<nat>>
  datatype Machine = Machine(pages: Pages, mem: Memory)
  datatype Space = Space(root: nat, tables: seq<nat>)

  const NO_SPACE := Space(0, [])
  const ADDRESS_LIMIT: nat := 0x8000_0000_0000  // 2^47, the lower canonical half
  const PAGE_LIMIT: nat := 0x8_0000_0000        // its 2^35 pages
  const TABLE_LIMIT: nat := 16                  // VM_TABLE_LIMIT

  function Word(mem: Memory, frame: nat, index: nat): nat {
    if frame < |mem| && index < |mem[frame]| then mem[frame][index] else 0
  }

  function Store(mem: Memory, frame: nat, index: nat, w: nat): Memory {
    if frame < |mem| && index < |mem[frame]| then
      var row: seq<nat> := mem[frame][index := w];
      mem[frame := row]
    else mem
  }

  function Zeros(): (r: seq<nat>)
    ensures |r| == 512 && forall i :: 0 <= i < 512 ==> r[i] == 0
  {
    seq(512, _ => 0)
  }

  function Clear(mem: Memory, frame: nat): Memory {
    if frame < |mem| then mem[frame := Zeros()] else mem
  }

  /** The page number with `level` nine-bit fields dropped: (address >> (12 + 9 * level)). */
  function Shift(page: nat, level: nat): nat {
    if level == 0 then page else Shift(page, level - 1) / 512
  }

  function Index(page: nat, level: nat): nat { Shift(page, level) % 512 }

  // ---- the operations of vm.c ----

  datatype Leaf = Leaf(table: nat, rights: Rights)
  datatype Translation = Translation(physical: nat, rights: Rights)

  /** The loop of leaf_entry from a table at `level` down to the leaf table. */
  function Walk(mem: Memory, table: nat, page: nat, level: nat, rights: Rights): Option<Leaf>
    decreases level
  {
    if level == 0 then Some(Leaf(table, rights))
    else
      var w := Word(mem, table, Index(page, level));
      if !Present(w) || Large(w) then None
      else Walk(mem, FrameOf(w), page, level - 1, rights.Meet(EntryRights(w)))
  }

  /** leaf_entry */
  function LeafEntry(mem: Memory, s: Space, address: nat): Option<Leaf> {
    if s.root == 0 || address >= ADDRESS_LIMIT then None
    else Walk(mem, s.root, address / 4096, 3, ALL_RIGHTS)
  }

  /** vm_lookup */
  function Lookup(mem: Memory, s: Space, address: nat): Option<Translation> {
    match LeafEntry(mem, s, address)
    case None => None
    case Some(leaf) =>
      var w := Word(mem, leaf.table, address / 4096 % 512);
      if !Present(w) then None
      else Some(Translation(FrameOf(w) * 4096 + address % 4096, leaf.rights.Meet(EntryRights(w))))
  }

  /** new_table */
  function NewTable(m: Machine, s: Space): (Machine, Space, Option<nat>) {
    if |s.tables| == TABLE_LIMIT then (m, s, None)
    else
      var (pages, r) := Alloc(m.pages);
      match r
      case None => (m.(pages := pages), s, None)
      case Some(f) => (Machine(pages, Clear(m.mem, f)), s.(tables := s.tables + [f]), Some(f))
  }

  /** The upper half of a new root: the boot root's entries without their user bit. */
  function CopyUpper(root: seq<nat>, boot: seq<nat>): (r: seq<nat>)
    requires |root| == |boot| == 512
    ensures |r| == 512
    ensures forall i :: 0 <= i < 512 ==> r[i] == if i < 256 then root[i] else ClearUser(boot[i])
  {
    seq(512, i requires 0 <= i < 512 => if i < 256 then root[i] else ClearUser(boot[i]))
  }

  /** vm_create */
  function Create(m: Machine, s: Space, boot: seq<nat>): (Machine, Space, bool)
    requires |boot| == 512
  {
    if s.root != 0 || s.tables != [] then (m, s, false)
    else
      var (m1, s1, r) := NewTable(m, s);
      match r
      case None => (m1, s1, false)
      case Some(f) =>
        var mem := if f < |m1.mem| && |m1.mem[f]| == 512
                   then m1.mem[f := CopyUpper(m1.mem[f], boot)] else m1.mem;
        (m1.(mem := mem), s1.(root := f), true)
  }

  /** The loop of vm_map that finds or makes the tables from `level` down. */
  function Descend(m: Machine, s: Space, table: nat, page: nat, level: nat): (Machine, Space, Option<nat>)
    decreases level
  {
    if level == 0 then (m, s, Some(table))
    else
      var i := Index(page, level);
      var w := Word(m.mem, table, i);
      if Present(w) then
        if Large(w) then (m, s, None) else Descend(m, s, FrameOf(w), page, level - 1)
      else
        var (m1, s1, r) := NewTable(m, s);
        match r
        case None => (m1, s1, None)
        case Some(f) =>
          var m2 := m1.(mem := Store(m1.mem, table, i, TableWord(f)));
          var w2 := Word(m2.mem, table, i);
          if Large(w2) then (m2, s1, None) else Descend(m2, s1, FrameOf(w2), page, level - 1)
  }

  predicate MapArguments(m: Machine, s: Space, address: nat, physical: nat, flags: nat) {
    && s.root != 0 && address != 0 && address < ADDRESS_LIMIT && address % 4096 == 0
    && PageData(m.pages, physical) && flags < 8
  }

  /** vm_map */
  function Map(m: Machine, s: Space, address: nat, physical: nat, flags: nat): (Machine, Space, bool) {
    if !MapArguments(m, s, address, physical, flags) || Lookup(m.mem, s, address).Some? then (m, s, false)
    else
      var (m1, s1, r) := Descend(m, s, s.root, address / 4096, 3);
      match r
      case None => (m1, s1, false)
      case Some(table) =>
        var w := LeafWord(physical / 4096, RightsOf(flags));
        (m1.(mem := Store(m1.mem, table, address / 4096 % 512, w)), s1, true)
  }

  /** vm_unmap */
  function Unmap(mem: Memory, s: Space, address: nat): (Memory, bool) {
    if address % 4096 != 0 then (mem, false)
    else match LeafEntry(mem, s, address)
      case None => (mem, false)
      case Some(leaf) =>
        var i := address / 4096 % 512;
        if Present(Word(mem, leaf.table, i)) then (Store(mem, leaf.table, i, 0), true) else (mem, false)
  }

  datatype Destruction = Refused | Destroyed(pages: Pages) | OwnershipDiffers

  /** vm_destroy: refused for no space or the active root, a panic if a table is not a live page. */
  function Destroy(p: Pages, s: Space, active: nat): Destruction {
    if s.root == 0 || s.root == active then Refused
    else match ReleaseBack(p, s.tables)
      case None => OwnershipDiffers
      case Some(q) => Destroyed(q)
  }

  // ---- what a tree of tables means ----

  /** A table's place: `level` 3 is the root, 0 a leaf table; `prefix` is the page-number prefix
      shared by every page the table covers. */
  datatype Node = Node(level: nat, prefix: nat)
  type Tree = map<Node, nat>

  datatype Mapping = Mapping(frame: nat, rights: Rights)
  type Flat = map<nat, Mapping>

  const ROOT := Node(3, 0)

  predicate Placed(n: Node) {
    match n.level
    case 3 => n.prefix == 0
    case 2 => n.prefix < 256
    case 1 => n.prefix < 0x2_0000
    case 0 => n.prefix < 0x400_0000
    case _ => false
  }

  function Parent(n: Node): Node { Node(n.level + 1, n.prefix / 512) }

  /** The table of `level` that translates `page`. */
  function Cover(page: nat, level: nat): Node { Node(level, Shift(page, level + 1)) }

  ghost predicate LinkOk(mem: Memory, tree: Tree, n: Node)
    requires Parent(n) in tree
  {
    var w := Word(mem, tree[Parent(n)], n.prefix % 512);
    if n in tree then w == TableWord(tree[n]) else !Present(w)
  }

  ghost predicate LeafOk(mem: Memory, tree: Tree, flat: Flat, page: nat)
    requires Cover(page, 0) in tree
  {
    var w := Word(mem, tree[Cover(page, 0)], page % 512);
    if page in flat then w == LeafWord(flat[page].frame, flat[page].rights) else !Present(w)
  }

  ghost predicate MemoryOk(mem: Memory) {
    |mem| <= FRAME_LIMIT && forall f :: 0 <= f < |mem| ==> |mem[f]| == 512
  }

  ghost predicate TreeOk(mem: Memory, s: Space, tree: Tree) {
    && ROOT in tree && tree[ROOT] == s.root
    && |s.tables| == |tree| && Distinct(s.tables)
    && (forall n :: n in tree ==> Placed(n) && tree[n] in s.tables && tree[n] < |mem| && tree[n] != 0)
    && (forall n :: n in tree && n.level < 3 ==> Parent(n) in tree)
    && (forall a, b :: a in tree && b in tree && tree[a] == tree[b] ==> a == b)
  }

  ghost predicate LinksOk(mem: Memory, tree: Tree) {
    forall n :: Placed(n) && n.level < 3 && Parent(n) in tree ==> LinkOk(mem, tree, n)
  }

  ghost predicate LeavesOk(mem: Memory, tree: Tree, flat: Flat) {
    && (forall page :: page in flat ==>
          0 < page < PAGE_LIMIT && Cover(page, 0) in tree && flat[page].frame < FRAME_LIMIT)
    && (forall page: nat :: page < PAGE_LIMIT && Cover(page, 0) in tree ==> LeafOk(mem, tree, flat, page))
  }

  ghost predicate UpperOk(mem: Memory, root: nat, boot: seq<nat>) {
    forall i :: 256 <= i < 512 && i < |boot| ==> Word(mem, root, i) == ClearUser(boot[i])
  }

  /** The tables of `s` in `mem` form the tree `tree` and translate exactly the flat map `flat`. */
  ghost predicate Represents(mem: Memory, boot: seq<nat>, s: Space, tree: Tree, flat: Flat) {
    MemoryOk(mem) && TreeOk(mem, s, tree) && LinksOk(mem, tree) && LeavesOk(mem, tree, flat) &&
    UpperOk(mem, s.root, boot)
  }

  lemma CoverFacts(page: nat, level: nat)
    requires page < PAGE_LIMIT && level <= 3
    ensures Placed(Cover(page, level))
    ensures level == 3 ==> Cover(page, level) == ROOT
    ensures level > 0 ==> Parent(Cover(page, level - 1)) == Cover(page, level) &&
                          Cover(page, level - 1).prefix % 512 == Index(page, level)
  {
    assert Shift(page, 1) == page / 512;
    assert Shift(page, 2) == page / 512 / 512;
    assert Shift(page, 3) == page / 512 / 512 / 512;
    assert Shift(page, 4) == page / 512 / 512 / 512 / 512;
  }

  /** If a page's leaf table exists, so does every table above it. */
  lemma {:induction false} CoverUp(mem: Memory, s: Space, tree: Tree, page: nat, level: nat)
    requires TreeOk(mem, s, tree) && page < PAGE_LIMIT && level <= 3
    requires Cover(page, 0) in tree
    ensures Cover(page, level) in tree
  {
    if level > 0 {
      CoverUp(mem, s, tree, page, level - 1);
      CoverFacts(page, level);
    }
  }

  lemma ChildWord(mem: Memory, boot: seq<nat>, s: Space, tree: Tree, flat: Flat, n: Node)
    requires Represents(mem, boot, s, tree, flat) && Placed(n) && n.level < 3 && Parent(n) in tree
    ensures var w := Word(mem, tree[Parent(n)], n.prefix % 512);
            if n in tree then Present(w) && !Large(w) && FrameOf(w) == tree[n] && EntryRights(w) == ALL_RIGHTS else !Present(w)
  {
    hide TableWord, Word;
    assert LinkOk(mem, tree, n);
    if n in tree {
      TableWordFacts(tree[n]);
    }
  }

  /** Walking from any table of the tree finds the leaf table of the page, at full rights, exactly
      when the tree has one. */
  lemma {:induction false} WalkFacts(mem: Memory, boot: seq<nat>, s: Space, tree: Tree, flat: Flat,
                                     page: nat, level: nat, rights: Rights)
    requires Represents(mem, boot, s, tree, flat) && page < PAGE_LIMIT && level <= 3
    requires Cover(page, level) in tree
    ensures Walk(mem, tree[Cover(page, level)], page, level, rights) ==
            if Cover(page, 0) in tree then Some(Leaf(tree[Cover(page, 0)], rights)) else None
    decreases level
  {
    hide LinksOk, LeavesOk, TreeOk, Word, Placed, Shift;
    if level > 0 {
      var child := Cover(page, level - 1);
      if Cover(page, 0) in tree {
        CoverUp(mem, s, tree, page, level - 1);
      }
      CoverFacts(page, level - 1);
      CoverFacts(page, level);
      ChildWord(mem, boot, s, tree, flat, child);
      if child in tree {
        WalkFacts(mem, boot, s, tree, flat, page, level - 1, rights);
      }
    }
  }

  lemma LeafEntryFacts(mem: Memory, boot: seq<nat>, s: Space, tree: Tree, flat: Flat, address: nat)
    requires Represents(mem, boot, s, tree, flat)
    ensures LeafEntry(mem, s, address) ==
            if address < ADDRESS_LIMIT && Cover(address / 4096, 0) in tree
            then Some(Leaf(tree[Cover(address / 4096, 0)], ALL_RIGHTS))
            else None
  {
    if address < ADDRESS_LIMIT {
      CoverFacts(address / 4096, 3);
      WalkFacts(mem, boot, s, tree, flat, address / 4096, 3, ALL_RIGHTS);
    }
  }

  /** vm_lookup is the flat map: it answers the frame, offset and rights of a mapped page, and
      nothing for any other address. */
  lemma LookupFacts(mem: Memory, boot: seq<nat>, s: Space, tree: Tree, flat: Flat, address: nat)
    requires Represents(mem, boot, s, tree, flat)
    ensures var page := address / 4096;
            Lookup(mem, s, address) ==
            if page in flat
            then Some(Translation(flat[page].frame * 4096 + address % 4096, flat[page].rights))
            else None
    ensures address < 4096 ==> Lookup(mem, s, address) == None
  {
    hide TreeOk, LinksOk, LeafWord;
    var page := address / 4096;
    LeafEntryFacts(mem, boot, s, tree, flat, address);
    if page in flat {
      assert LeafOk(mem, tree, flat, page);
      LeafWordFacts(flat[page].frame, flat[page].rights);
    } else if address < ADDRESS_LIMIT && Cover(page, 0) in tree {
      assert LeafOk(mem, tree, flat, page);
    }
  }

  /** Only the words of a space's own tables matter to it. */
  lemma RepresentsFrame(mem: Memory, mem': Memory, boot: seq<nat>, s: Space, tree: Tree, flat: Flat)
    requires Represents(mem, boot, s, tree, flat) && MemoryOk(mem') && |mem'| == |mem|
    requires forall f :: f in s.tables && f < |mem| ==> mem'[f] == mem[f]
    ensures Represents(mem', boot, s, tree, flat)
  {
    forall n | Placed(n) && n.level < 3 && Parent(n) in tree
      ensures LinkOk(mem', tree, n)
    {
      assert LinkOk(mem, tree, n);
    }
    forall page: nat | page < PAGE_LIMIT && Cover(page, 0) in tree
      ensures LeafOk(mem', tree, flat, page)
    {
      assert LeafOk(mem, tree, flat, page);
    }
  }

  // ---- growing a tree ----

  ghost predicate MachineOk(m: Machine) {
    && MemoryOk(m.mem) && Valid(m.pages) && |m.pages.states| <= |m.mem|
    && m.pages.states[0].Unmanaged?
  }

  /** From (m, s) to (m', s') only tables were added: `s` keeps its record, every new table is
      recorded and taken from the free pages, and no other frame changed, live or unmanaged. */
  ghost predicate Grew(m: Machine, s: Space, m': Machine, s': Space) {
    && MachineOk(m') && |m'.mem| == |m.mem|
    && s'.root == s.root && s.tables <= s'.tables
    && Took(m.pages, m'.pages, Elements(s'.tables) - Elements(s.tables))
    && m'.pages.free == m.pages.free - (|s'.tables| - |s.tables|)
    && (forall f :: 0 <= f < |m.mem| && f !in FreeSet(m.pages) && f !in s.tables ==> m'.mem[f] == m.mem[f])
  }

  lemma GrewNothing(m: Machine, s: Space)
    requires MachineOk(m)
    ensures Grew(m, s, m, s)
  {
    assert Elements(s.tables) - Elements(s.tables) == {};
  }

  lemma GrewTransitive(m: Machine, s: Space, m1: Machine, s1: Space, m2: Machine, s2: Space)
    requires Grew(m, s, m1, s1) && Grew(m1, s1, m2, s2)
    requires Elements(s.tables) <= LiveSet(m.pages)
    ensures Grew(m, s, m2, s2)
  {
    var a, b := Elements(s1.tables) - Elements(s.tables), Elements(s2.tables) - Elements(s1.tables);
    assert forall f :: f in s.tables ==> f in s1.tables;
    assert forall f :: f in s1.tables ==> f in s2.tables;
    assert Elements(s2.tables) - Elements(s.tables) == a + b;
    TookTransitive(m.pages, m1.pages, m2.pages, a, b);
    forall f | 0 <= f < |m.mem| && f !in FreeSet(m.pages) && f !in s.tables
      ensures m2.mem[f] == m.mem[f]
    {
      assert f !in a;
      assert f !in s1.tables;
      assert f !in FreeSet(m1.pages);
    }
  }

  lemma NewTableFacts(m: Machine, s: Space)
    requires MachineOk(m)
    ensures var (m', s', r) := NewTable(m, s);
            match r
            case None => m' == m && s' == s && (|s.tables| == TABLE_LIMIT || m.pages.free == 0)
            case Some(f) =>
              && |s.tables| != TABLE_LIMIT && m.pages.free > 0
              && f < |m.mem| && f != 0 && f in FreeSet(m.pages) && f !in LiveSet(m.pages)
              && s' == s.(tables := s.tables + [f]) && m'.mem == m.mem[f := Zeros()]
              && Took(m.pages, m'.pages, {f}) && m'.pages.free == m.pages.free - 1
              && MachineOk(m')
  {
    hide Scan;
    AllocFacts(m.pages);
    var (m', s', r) := NewTable(m, s);
    if r.Some? {
      var f := r.value;
      assert 0 !in FreeSet(m.pages) && 0 !in LiveSet(m.pages);
      assert 0 !in FreeSet(m'.pages) && 0 !in LiveSet(m'.pages);
    }
  }

  /** new_table gives up exactly when the space records sixteen tables already or no page is free. */
  lemma SixteenTables(m: Machine, s: Space)
    requires MachineOk(m)
    ensures NewTable(m, s).2.Some? <==> |s.tables| != 16 && m.pages.free > 0
  {
    NewTableFacts(m, s);
  }

  /** `mem'` is `mem` with frame `f` zeroed and then word `i` of frame `t` set to `w`. */
  ghost predicate Linked(mem: Memory, mem': Memory, f: nat, t: nat, i: nat, w: nat) {
    forall g: nat, j: nat :: g < |mem| && j < 512 ==>
      Word(mem', g, j) == if g == t && j == i then w else if g == f then 0 else Word(mem, g, j)
  }

  lemma LinkedByStore(mem: Memory, mem': Memory, f: nat, t: nat, i: nat, w: nat)
    requires MemoryOk(mem) && f < |mem| && t < |mem| && t != f && i < 512
    requires mem' == Store(mem[f := Zeros()], t, i, w)
    ensures Linked(mem, mem', f, t, i, w) && MemoryOk(mem') && |mem'| == |mem|
    ensures forall g :: 0 <= g < |mem| && g != f && g != t ==> mem'[g] == mem[g]
  {
  }

  lemma SiblingsDiffer(a: Node, b: Node)
    requires Parent(a) == Parent(b) && a != b
    ensures a.prefix % 512 != b.prefix % 512
  {
  }

  lemma AddLinks(mem: Memory, mem': Memory, s: Space, tree: Tree, n: Node, f: nat)
    requires TreeOk(mem, s, tree) && LinksOk(mem, tree)
    requires Placed(n) && n.level < 3 && n !in tree && Parent(n) in tree
    requires f < |mem| && f !in s.tables
    requires Linked(mem, mem', f, tree[Parent(n)], n.prefix % 512, TableWord(f))
    ensures LinksOk(mem', tree[n := f])
  {
    hide TableWord, Word, Placed, Parent, Distinct;
    var tree' := tree[n := f];
    forall c | Placed(c) && c.level < 3 && Parent(c) in tree'
      ensures LinkOk(mem', tree', c)
    {
      if Parent(c) == n {
        assert c !in tree;
      } else if c != n {
        assert LinkOk(mem, tree, c);
        if tree[Parent(c)] == tree[Parent(n)] {
          SiblingsDiffer(c, n);
        }
      }
    }
  }

  lemma AddLeaves(mem: Memory, mem': Memory, s: Space, tree: Tree, flat: Flat, n: Node, f: nat)
    requires TreeOk(mem, s, tree) && LeavesOk(mem, tree, flat)
    requires Placed(n) && n.level < 3 && n !in tree && Parent(n) in tree
    requires f < |mem| && f !in s.tables
    requires Linked(mem, mem', f, tree[Parent(n)], n.prefix % 512, TableWord(f))
    ensures LeavesOk(mem', tree[n := f], flat)
  {
    hide TableWord, LeafWord, Word, Shift, Placed;
    var tree' := tree[n := f];
    forall page: nat | page < PAGE_LIMIT && Cover(page, 0) in tree'
      ensures LeafOk(mem', tree', flat, page)
    {
      if Cover(page, 0) == n {
        assert page !in flat;
      } else {
        assert LeafOk(mem, tree, flat, page);
        assert tree[Cover(page, 0)] != tree[Parent(n)];
      }
    }
  }

  lemma AddTree(mem: Memory, s: Space, tree: Tree, n: Node, f: nat)
    requires TreeOk(mem, s, tree)
    requires Placed(n) && n.level < 3 && n !in tree && Parent(n) in tree
    requires f < |mem| && f != 0 && f !in s.tables
    ensures TreeOk(mem, s.(tables := s.tables + [f]), tree[n := f])
  {
    hide Placed;
    var tree' := tree[n := f];
    assert tree'.Keys == tree.Keys + {n};
    forall c | c in tree' && c.level < 3
      ensures Parent(c) in tree'
    {
      assert c == n || Parent(c) in tree;
    }
  }

  /** Linking a zeroed new table under an existing one keeps every translation. */
  lemma AddTable(mem: Memory, mem': Memory, boot: seq<nat>, s: Space, tree: Tree, flat: Flat, n: Node, f: nat)
    requires Represents(mem, boot, s, tree, flat)
    requires Placed(n) && n.level < 3 && n !in tree && Parent(n) in tree
    requires f < |mem| && f != 0 && f !in s.tables
    requires mem' == Store(mem[f := Zeros()], tree[Parent(n)], n.prefix % 512, TableWord(f))
    ensures Represents(mem', boot, s.(tables := s.tables + [f]), tree[n := f], flat)
    ensures forall g :: 0 <= g < |mem| && g != f && g !in s.tables ==> mem'[g] == mem[g]
    ensures Word(mem', tree[Parent(n)], n.prefix % 512) == TableWord(f)
  {
    hide LinksOk, LeavesOk, TableWord, Word, Store;
    LinkedByStore(mem, mem', f, tree[Parent(n)], n.prefix % 512, TableWord(f));
    AddLinks(mem, mem', s, tree, n, f);
    AddLeaves(mem, mem', s, tree, flat, n, f);
    AddTree(mem, s, tree, n, f);
    if tree[Parent(n)] == s.root {
      assert Parent(n) == ROOT;
    }
  }

  // ---- vm_map, vm_unmap, vm_create and vm_destroy on trees ----

  /** How many of the tables below `level` on the way to `page` are still to be made. */
  ghost function Missing(tree: Tree, page: nat, level: nat): nat {
    if level == 0 then 0
    else Missing(tree, page, level - 1) + if Cover(page, level - 1) in tree then 0 else 1
  }

  ghost function Path(page: nat, level: nat): set<Node> {
    if level == 0 then {} else Path(page, level - 1) + {Cover(page, level - 1)}
  }

  lemma {:induction false} MissingBelow(tree: Tree, page: nat, level: nat, above: nat, f: nat)
    requires level <= above
    ensures Missing(tree[Cover(page, above) := f], page, level) == Missing(tree, page, level)
  {
    if level > 0 {
      MissingBelow(tree, page, level - 1, above, f);
    }
  }

  ghost predicate CanGrow(m: Machine, s: Space, missing: nat) {
    missing <= m.pages.free && |s.tables| + missing <= TABLE_LIMIT
  }

  /** One missing table: made, linked and recorded, or nothing at all. */
  lemma GrowOne(m: Machine, boot: seq<nat>, s: Space, tree: Tree, flat: Flat, n: Node)
    requires MachineOk(m) && Represents(m.mem, boot, s, tree, flat) && Elements(s.tables) <= LiveSet(m.pages)
    requires Placed(n) && n.level < 3 && n !in tree && Parent(n) in tree
    ensures var (m1, s1, r) := NewTable(m, s);
            match r
            case None => m1 == m && s1 == s && (|s.tables| == TABLE_LIMIT || m.pages.free == 0)
            case Some(f) =>
              var m2 := m1.(mem := Store(m1.mem, tree[Parent(n)], n.prefix % 512, TableWord(f)));
              && |s.tables| != TABLE_LIMIT && m.pages.free > 0 && |s1.tables| == |s.tables| + 1
              && f < FRAME_LIMIT && MachineOk(m2) && m2.pages.free == m.pages.free - 1
              && Grew(m, s, m2, s1) && Elements(s1.tables) <= LiveSet(m2.pages)
              && Represents(m2.mem, boot, s1, tree[n := f], flat)
              && Word(m2.mem, tree[Parent(n)], n.prefix % 512) == TableWord(f)
  {
    NewTableFacts(m, s);
    var (m1, s1, r) := NewTable(m, s);
    if r.Some? {
      var f := r.value;
      var m2 := m1.(mem := Store(m1.mem, tree[Parent(n)], n.prefix % 512, TableWord(f)));
      assert f !in Elements(s.tables);
      AddTable(m.mem, m2.mem, boot, s, tree, flat, n, f);
      hide TableWord, Word, Store, NewTable, LinksOk, LeavesOk, Took, TreeOk;
      assert Elements(s1.tables) == Elements(s.tables) + {f};
      assert Elements(s1.tables) - Elements(s.tables) == {f};
    }
  }

  /** The descent of vm_map: it succeeds iff the missing tables fit the free pages and the table
      limit, it then leads to the page's leaf table, and whatever happens no translation changes
      and every new table is recorded. */
  lemma {:induction false} DescendFacts(m: Machine, boot: seq<nat>, s: Space, tree: Tree, flat: Flat,
                                        page: nat, level: nat) returns (tree': Tree)
    requires MachineOk(m) && Represents(m.mem, boot, s, tree, flat) && Elements(s.tables) <= LiveSet(m.pages)
    requires page < PAGE_LIMIT && level <= 3 && Cover(page, level) in tree && |s.tables| <= TABLE_LIMIT
    ensures var (m', s', r) := Descend(m, s, tree[Cover(page, level)], page, level);
            && Represents(m'.mem, boot, s', tree', flat)
            && Grew(m, s, m', s') && Elements(s'.tables) <= LiveSet(m'.pages) && |s'.tables| <= TABLE_LIMIT
            && (r.Some? <==> CanGrow(m, s, Missing(tree, page, level)))
            && (r.Some? ==> Cover(page, 0) in tree' && r.value == tree'[Cover(page, 0)] &&
                            |s'.tables| == |s.tables| + Missing(tree, page, level) &&
                            tree'.Keys == tree.Keys + Path(page, level))
    decreases level
  {
    hide Represents, Grew, MachineOk, TableWord, Word, Store, NewTable;
    if level == 0 {
      tree' := tree;
      GrewNothing(m, s);
    } else {
      var n := Cover(page, level - 1);
      CoverFacts(page, level);
      CoverFacts(page, level - 1);
      ChildWord(m.mem, boot, s, tree, flat, n);
      if n in tree {
        tree' := DescendFacts(m, boot, s, tree, flat, page, level - 1);
      } else {
        GrowOne(m, boot, s, tree, flat, n);
        var (m1, s1, r) := NewTable(m, s);
        if r == None {
          tree' := tree;
          GrewNothing(m, s);
        } else {
          var f := r.value;
          var m2 := m1.(mem := Store(m1.mem, tree[Parent(n)], n.prefix % 512, TableWord(f)));
          TableWordFacts(f);
          MissingBelow(tree, page, level - 1, level - 1, f);
          tree' := DescendFacts(m2, boot, s1, tree[n := f], flat, page, level - 1);
          var (m3, s3, _) := Descend(m2, s1, f, page, level - 1);
          GrewTransitive(m, s, m2, s1, m3, s3);
        }
      }
    }
  }

  lemma SetLeaf(mem: Memory, mem': Memory, boot: seq<nat>, s: Space, tree: Tree, flat: Flat, flat': Flat,
                page: nat, w: nat)
    requires Represents(mem, boot, s, tree, flat)
    requires 0 < page < PAGE_LIMIT && Cover(page, 0) in tree
    requires mem' == Store(mem, tree[Cover(page, 0)], page % 512, w)
    requires flat' - {page} == flat - {page}
    requires if page in flat' then flat'[page].frame < FRAME_LIMIT && w == LeafWord(flat'[page].frame, flat'[page].rights)
             else !Present(w)
    ensures Represents(mem', boot, s, tree, flat')
    ensures |mem'| == |mem| && forall g :: 0 <= g < |mem| && g !in s.tables ==> mem'[g] == mem[g]
  {
    hide TableWord, LeafWord, Shift, Placed, LinksOk, LeavesOk;
    var t := tree[Cover(page, 0)];
    SetLeafLinks(mem, mem', s, tree, t);
    SetLeafLeaves(mem, mem', s, tree, flat, flat', page, w);
    assert t != s.root;
  }

  lemma SetLeafLeaves(mem: Memory, mem': Memory, s: Space, tree: Tree, flat: Flat, flat': Flat, page: nat, w: nat)
    requires MemoryOk(mem) && TreeOk(mem, s, tree) && LeavesOk(mem, tree, flat)
    requires 0 < page < PAGE_LIMIT && Cover(page, 0) in tree
    requires mem' == Store(mem, tree[Cover(page, 0)], page % 512, w)
    requires flat' - {page} == flat - {page}
    requires if page in flat' then flat'[page].frame < FRAME_LIMIT && w == LeafWord(flat'[page].frame, flat'[page].rights)
             else !Present(w)
    ensures LeavesOk(mem', tree, flat')
  {
    hide TableWord, LeafWord, Shift, Placed, LeafOk, Store;
    forall p | p in flat'
      ensures 0 < p < PAGE_LIMIT && Cover(p, 0) in tree && flat'[p].frame < FRAME_LIMIT
    {
      if p != page {
        SameElsewhere(flat, flat', page, p);
      }
    }
    forall p: nat | p < PAGE_LIMIT && Cover(p, 0) in tree
      ensures LeafOk(mem', tree, flat', p)
    {
      SetLeafOther(mem, mem', tree, flat, flat', page, p, w);
    }
  }

  lemma SameElsewhere(flat: Flat, flat': Flat, page: nat, p: nat)
    requires flat' - {page} == flat - {page} && p != page
    ensures p in flat <==> p in flat'
    ensures p in flat ==> flat[p] == flat'[p]
  {
    assert p in flat' <==> p in flat' - {page};
    assert p in flat <==> p in flat - {page};
    if p in flat {
      assert flat'[p] == (flat' - {page})[p] == (flat - {page})[p] == flat[p];
    }
  }

  lemma SetLeafLinks(mem: Memory, mem': Memory, s: Space, tree: Tree, t: nat)
    requires TreeOk(mem, s, tree) && LinksOk(mem, tree) && |mem'| == |mem|
    requires forall g :: 0 <= g < |mem| && g != t ==> mem'[g] == mem[g]
    requires forall n :: n in tree && tree[n] == t ==> n.level == 0
    ensures LinksOk(mem', tree)
  {
    hide TableWord, Placed;
    forall n | Placed(n) && n.level < 3 && Parent(n) in tree
      ensures LinkOk(mem', tree, n)
    {
      assert LinkOk(mem, tree, n);
    }
  }

  lemma SetLeafOther(mem: Memory, mem': Memory, tree: Tree, flat: Flat, flat': Flat, page: nat, p: nat, w: nat)
    requires MemoryOk(mem) && LeavesOk(mem, tree, flat)
    requires page < PAGE_LIMIT && Cover(page, 0) in tree && tree[Cover(page, 0)] < |mem|
    requires p < PAGE_LIMIT && Cover(p, 0) in tree
    requires tree[Cover(page, 0)] == tree[Cover(p, 0)] ==> Cover(page, 0) == Cover(p, 0)
    requires mem' == Store(mem, tree[Cover(page, 0)], page % 512, w)
    requires flat' - {page} == flat - {page}
    requires if page in flat' then w == LeafWord(flat'[page].frame, flat'[page].rights) else !Present(w)
    ensures LeafOk(mem', tree, flat', p)
  {
    hide LeafWord, Shift;
    assert LeafOk(mem, tree, flat, p);
    if p != page {
      SameElsewhere(flat, flat', page, p);
      SamePage(p, page);
    }
  }

  lemma SamePage(a: nat, b: nat)
    ensures Cover(a, 0) == Cover(b, 0) && a % 512 == b % 512 ==> a == b
  {
    assert Shift(a, 0) == a && Shift(b, 0) == b;
    assert Shift(a, 1) == Shift(a, 0) / 512;
    assert Shift(b, 1) == Shift(b, 0) / 512;
  }

  /** vm_map succeeds iff its arguments are in order, the page is unmapped and the missing tables can
      be made. Success adds exactly the one mapping; failure at any depth changes no translation.
      Either way all new tables are recorded and no frame outside the space changes, live or unmanaged. */
  lemma MapFacts(m: Machine, boot: seq<nat>, s: Space, tree: Tree, flat: Flat,
                 address: nat, physical: nat, flags: nat) returns (tree': Tree)
    requires MachineOk(m) && Represents(m.mem, boot, s, tree, flat)
    requires Elements(s.tables) <= LiveSet(m.pages) && |s.tables| <= TABLE_LIMIT
    ensures var (m', s', ok) := Map(m, s, address, physical, flags);
            var page := address / 4096;
            var mapping := Mapping(physical / 4096, RightsOf(flags));
            && Represents(m'.mem, boot, s', tree', if ok then flat[page := mapping] else flat)
            && Grew(m, s, m', s') && Elements(s'.tables) <= LiveSet(m'.pages) && |s'.tables| <= TABLE_LIMIT
            && (ok <==> MapArguments(m, s, address, physical, flags) && page !in flat &&
                        CanGrow(m, s, Missing(tree, page, 3)))
            && (ok ==> tree'.Keys == tree.Keys + Path(page, 3) &&
                       |s'.tables| == |s.tables| + Missing(tree, page, 3))
  {
    hide Represents, Grew, MachineOk, Word, Store, Descend, Lookup, LeafWord;
    var page := address / 4096;
    LookupFacts(m.mem, boot, s, tree, flat, address);
    if !MapArguments(m, s, address, physical, flags) || page in flat {
      tree' := tree;
      GrewNothing(m, s);
    } else {
      CoverFacts(page, 3);
      RootInTree(m.mem, boot, s, tree, flat);
      tree' := DescendFacts(m, boot, s, tree, flat, page, 3);
      var (m1, s1, r) := Descend(m, s, s.root, page, 3);
      if r.Some? {
        FinishMap(m, m1, boot, s, s1, tree', flat, page, physical, RightsOf(flags));
      }
    }
  }

  /** vm_map in numbers: it succeeds iff the page is a nonzero aligned one below 2^47 that is not mapped yet,
      the physical page is live, the flags are among the three, and the missing tables fit the free pages and
      the sixteen of a space. */
  lemma MapExactly(m: Machine, boot: seq<nat>, s: Space, tree: Tree, flat: Flat, address: nat, physical: nat, flags: nat)
    requires MachineOk(m) && Represents(m.mem, boot, s, tree, flat)
    requires Elements(s.tables) <= LiveSet(m.pages) && |s.tables| <= 16
    ensures var missing := Missing(tree, address / 4096, 3);
            Map(m, s, address, physical, flags).2 <==>
            && 0 < address < 0x8000_0000_0000 && address % 0x1000 == 0 && address / 0x1000 !in flat
            && physical % 0x1000 == 0 && physical / 0x1000 in LiveSet(m.pages) && flags < 8
            && missing <= m.pages.free && |s.tables| + missing <= 16
  {
    hide Represents, Grew, MachineOk, Map, Missing;
    var tree' := MapFacts(m, boot, s, tree, flat, address, physical, flags);
    RootInTree(m.mem, boot, s, tree, flat);
  }

  lemma RootInTree(mem: Memory, boot: seq<nat>, s: Space, tree: Tree, flat: Flat)
    requires Represents(mem, boot, s, tree, flat)
    ensures ROOT in tree && tree[ROOT] == s.root && s.root != 0 && s.root in s.tables
  {
  }

  lemma FinishMap(m: Machine, m1: Machine, boot: seq<nat>, s: Space, s1: Space, tree: Tree, flat: Flat,
                  page: nat, physical: nat, rights: Rights)
    requires MachineOk(m) && Grew(m, s, m1, s1) && Represents(m1.mem, boot, s1, tree, flat)
    requires 0 < page < PAGE_LIMIT && page !in flat && Cover(page, 0) in tree && PageData(m.pages, physical)
    requires Elements(s1.tables) <= LiveSet(m1.pages)
    ensures var m2 := m1.(mem := Store(m1.mem, tree[Cover(page, 0)], page % 512, LeafWord(physical / 4096, rights)));
            Represents(m2.mem, boot, s1, tree, flat[page := Mapping(physical / 4096, rights)]) &&
            Grew(m, s, m2, s1)
  {
    hide LeafWord, LinksOk, LeavesOk, TreeOk, Store, Took;
    var flat' := flat[page := Mapping(physical / 4096, rights)];
    var m2 := m1.(mem := Store(m1.mem, tree[Cover(page, 0)], page % 512, LeafWord(physical / 4096, rights)));
    assert flat' - {page} == flat - {page};
    SetLeaf(m1.mem, m2.mem, boot, s1, tree, flat, flat', page, LeafWord(physical / 4096, rights));
    forall f | 0 <= f < |m.mem| && f !in FreeSet(m.pages) && f !in s.tables
      ensures m2.mem[f] == m.mem[f]
    {
      NewTablesWereFree(m, s, m1, s1, f);
    }
  }

  lemma NewTablesWereFree(m: Machine, s: Space, m1: Machine, s1: Space, f: nat)
    requires Grew(m, s, m1, s1) && f !in FreeSet(m.pages) && f !in s.tables
    ensures f !in s1.tables
  {
    assert f !in Elements(s1.tables) - Elements(s.tables);
  }

  /** vm_unmap succeeds iff the page is mapped, and then removes exactly that page. */
  lemma UnmapFacts(mem: Memory, boot: seq<nat>, s: Space, tree: Tree, flat: Flat, address: nat)
    requires Represents(mem, boot, s, tree, flat)
    ensures var (mem', ok) := Unmap(mem, s, address);
            && (ok <==> address % 4096 == 0 && address / 4096 in flat)
            && Represents(mem', boot, s, tree, if ok then flat - {address / 4096} else flat)
            && (!ok ==> mem' == mem)
  {
    hide Represents, LeafEntry, Store, Word, LeafWord;
    var page := address / 4096;
    if address % 4096 == 0 {
      LeafEntryFacts(mem, boot, s, tree, flat, address);
      if address < ADDRESS_LIMIT && Cover(page, 0) in tree {
        LeafWordAt(mem, boot, s, tree, flat, page);
        if page in flat {
          assert (flat - {page}) - {page} == flat - {page};
          SetLeaf(mem, Store(mem, tree[Cover(page, 0)], page % 512, 0), boot, s, tree, flat, flat - {page}, page, 0);
        }
      } else {
        LeafHasTable(mem, boot, s, tree, flat, page);
      }
    }
  }

  lemma LeafWordAt(mem: Memory, boot: seq<nat>, s: Space, tree: Tree, flat: Flat, page: nat)
    requires Represents(mem, boot, s, tree, flat) && page < PAGE_LIMIT && Cover(page, 0) in tree
    ensures Present(Word(mem, tree[Cover(page, 0)], page % 512)) <==> page in flat
    ensures page in flat ==> page > 0
  {
    hide LeafWord;
    assert LeafOk(mem, tree, flat, page);
    if page in flat {
      LeafWordFacts(flat[page].frame, flat[page].rights);
    }
  }

  lemma LeafHasTable(mem: Memory, boot: seq<nat>, s: Space, tree: Tree, flat: Flat, page: nat)
    requires Represents(mem, boot, s, tree, flat)
    ensures page in flat ==> page < PAGE_LIMIT && Cover(page, 0) in tree
  {
  }

  /** vm_create on an empty record takes one page or nothing; the new root maps no page and carries
      the boot root's upper half without user rights. */
  lemma CreateFacts(m: Machine, boot: seq<nat>)
    requires MachineOk(m) && |boot| == 512
    ensures var (m', s', ok) := Create(m, NO_SPACE, boot);
            && (ok <==> m.pages.free > 0)
            && (!ok ==> m' == m && s' == NO_SPACE)
            && (ok ==> Represents(m'.mem, boot, s', map[ROOT := s'.root], map[]) && |s'.tables| == 1 &&
                       Elements(s'.tables) <= LiveSet(m'.pages) &&
                       Grew(m, NO_SPACE.(root := s'.root), m', s'))
  {
    hide Represents, Valid;
    NewTableFacts(m, NO_SPACE);
    var (m1, s1, r) := NewTable(m, NO_SPACE);
    if r.Some? {
      var f := r.value;
      FreshRoot(m.mem, boot, f);
      var (m', s', _) := Create(m, NO_SPACE, boot);
      assert m'.mem == m.mem[f := CopyUpper(Zeros(), boot)];
      assert s' == Space(f, [f]);
      assert Elements([f]) == {f} && Elements([]) == {};
    }
  }

  /** vm_destroy refuses a space that does not exist or is in use, panics exactly when the record is not a list
      of live pages, each once, and otherwise gives back exactly what is recorded. */
  lemma DestroyFacts(p: Pages, s: Space, active: nat)
    requires Valid(p)
    ensures match Destroy(p, s, active)
            case Refused => s.root == 0 || s.root == active
            case OwnershipDiffers =>
              s.root != 0 && s.root != active && !(Distinct(s.tables) && Elements(s.tables) <= LiveSet(p))
            case Destroyed(q) => s.root != 0 && s.root != active && Distinct(s.tables) && Gave(p, q, Elements(s.tables))
  {
    hide Distinct, ReleaseBack;
    ReleasedExactly(p, s.tables);
    if Distinct(s.tables) && Elements(s.tables) <= LiveSet(p) {
      ReleaseBackFacts(p, s.tables);
    }
  }

  /** The entries the kernel writes, as numbers: present is bit 0, write bit 1, user bit 2, no-execute bit 63
      and the frame from bit 12 on, as in section 4.5 of Intel SDM Volume 3A; and each level takes its nine
      bits of the address. */
  lemma EntryFormat(frame: nat, rights: Rights, address: nat)
    requires frame < FRAME_LIMIT
    ensures TableWord(frame) == frame * 0x1000 + 7
    ensures LeafWord(frame, rights) ==
            frame * 0x1000 + 1 + (if rights.write then 2 else 0) + (if rights.user then 4 else 0) +
            (if rights.exec then 0 else 0x8000_0000_0000_0000)
    ensures Index(address / 4096, 3) == address / 0x80_0000_0000 % 512
    ensures Index(address / 4096, 2) == address / 0x4000_0000 % 512
    ensures Index(address / 4096, 1) == address / 0x20_0000 % 512
    ensures Index(address / 4096, 0) == address / 0x1000 % 512
  {
    hide TableWord, LeafWord;
    TableWordValue(frame);
    LeafWordValue(frame, rights);
    var page := address / 4096;
    assert Shift(page, 1) == page / 512;
    assert Shift(page, 2) == page / 512 / 512;
    assert Shift(page, 3) == page / 512 / 512 / 512;
    assert page / 512 == address / 0x20_0000;
    assert page / 512 / 512 == address / 0x4000_0000;
    assert page / 512 / 512 / 512 == address / 0x80_0000_0000;
  }

  /** A large page is not followed, and a copied kernel entry loses bit 2 and nothing else. */
  lemma EntryBits(w: nat)
    ensures Large(w) <==> w / 128 % 2 == 1
    ensures ClearUser(w) == w - w / 4 % 2 * 4
    ensures FrameOf(w) == w / 0x1000 % 0x100_0000_0000
  {
  }

  lemma FreshRoot(mem: Memory, boot: seq<nat>, f: nat)
    requires MemoryOk(mem) && |boot| == 512 && 0 < f < |mem|
    ensures Represents(mem[f := CopyUpper(Zeros(), boot)], boot, Space(f, [f]), map[ROOT := f], map[])
  {
    hide Shift;
  }

  /** Whoever walks a space through kernel addresses meets the boot entries, never with user rights. */
  lemma UpperHalfIsBoot(mem: Memory, boot: seq<nat>, s: Space, tree: Tree, flat: Flat, i: nat)
    requires Represents(mem, boot, s, tree, flat) && |boot| == 512 && 256 <= i < 512
    ensures Word(mem, s.root, i) == ClearUser(boot[i]) && !UserBit(Word(mem, s.root, i))
  {
    ClearUserFacts(boot[i]);
  }

  // ---- translation in arbitrary memory ----

  /** The entry a walk meets at `level`, whatever memory holds. */
  function WalkWord(mem: Memory, root: nat, page: nat, level: nat): nat
    decreases 3 - level
  {
    if level >= 3 then Word(mem, root, Index(page, 3))
    else Word(mem, FrameOf(WalkWord(mem, root, page, level + 1)), Index(page, level))
  }

  predicate Passable(w: nat) { Present(w) && !Large(w) }

  /** vm_lookup in any memory at all, also with tables it did not build: it translates exactly when the
      three upper entries are present and not large pages and the leaf is present, and the rights are those
      granted by all four entries together. */
  lemma LookupEffective(mem: Memory, s: Space, address: nat)
    ensures var page := address / 4096;
            var w3, w2 := WalkWord(mem, s.root, page, 3), WalkWord(mem, s.root, page, 2);
            var w1, w0 := WalkWord(mem, s.root, page, 1), WalkWord(mem, s.root, page, 0);
            Lookup(mem, s, address) ==
            if s.root != 0 && address < ADDRESS_LIMIT && Passable(w3) && Passable(w2) && Passable(w1) && Present(w0)
            then Some(Translation(FrameOf(w0) * 4096 + address % 4096,
                                  EntryRights(w3).Meet(EntryRights(w2)).Meet(EntryRights(w1)).Meet(EntryRights(w0))))
            else None
  {
    hide Word, FrameOf, Present, Large, EntryRights, Shift;
    var page := address / 4096;
    var r3 := ALL_RIGHTS.Meet(EntryRights(WalkWord(mem, s.root, page, 3)));
    var r2 := r3.Meet(EntryRights(WalkWord(mem, s.root, page, 2)));
    var t2 := FrameOf(WalkWord(mem, s.root, page, 3));
    var t1 := FrameOf(WalkWord(mem, s.root, page, 2));
    var t0 := FrameOf(WalkWord(mem, s.root, page, 1));
    assert Index(page, 0) == page % 512 by { LeafIndex(page); }
    assert WalkWord(mem, s.root, page, 2) == Word(mem, t2, Index(page, 2));
    assert WalkWord(mem, s.root, page, 1) == Word(mem, t1, Index(page, 1));
    assert WalkWord(mem, s.root, page, 0) == Word(mem, t0, Index(page, 0));
    assert Walk(mem, t1, page, 1, r2) ==
      if Passable(WalkWord(mem, s.root, page, 1)) then Some(Leaf(t0, r2.Meet(EntryRights(WalkWord(mem, s.root, page, 1))))) else None;
    assert Walk(mem, t2, page, 2, r3) ==
      if Passable(WalkWord(mem, s.root, page, 2)) then Walk(mem, t1, page, 1, r2) else None;
    assert Walk(mem, s.root, page, 3, ALL_RIGHTS) ==
      if Passable(WalkWord(mem, s.root, page, 3)) then Walk(mem, t2, page, 2, r3) else None;
  }

  lemma LeafIndex(page: nat)
    ensures Index(page, 0) == page % 512
  {
  }
}
