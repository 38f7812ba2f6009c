/** Building a process (prepare and map_owned in kernel/laboratory.c): what is held at every point,
    what it costs, and what the finished address space contains. */
module Build {
  import opened Words
  import opened PageModel
  import opened PageTables
  import UserCopy
  import opened KernelModel

  ghost predicate ConfigOk(cfg: Config) {
    && |cfg.boot| == 512 && 1 <= |cfg.image| <= 65536
    && (forall i :: 0 <= i < |cfg.image| ==> cfg.image[i] < 256)
  }

  function LayoutPage(code: nat, i: nat): nat { LayoutAddress(code, i) / 4096 }

  /** The mappings of a process whose pages are `pages`, as a flat map. */
  function LayoutFlat(code: nat, pages: seq<nat>): Flat {
    if pages == [] then map[]
    else
      var last := |pages| - 1;
      LayoutFlat(code, pages[..last])[LayoutPage(code, last) := Mapping(pages[last], RightsOf(LayoutFlags(code, last)))]
  }

  lemma LayoutPages(code: nat, i: nat)
    requires 1 <= code <= 16 && i < code + 3
    ensures LayoutAddress(code, i) % 4096 == 0 && 0 < LayoutAddress(code, i) < ADDRESS_LIMIT
    ensures LayoutPage(code, i) == if i < code then 1024 + i else if i == code then 1536 else 2048 + (i - code - 1)
    ensures 0 < LayoutPage(code, i) < PAGE_LIMIT
    ensures forall j :: 0 <= j < code + 3 && j != i ==> LayoutPage(code, j) != LayoutPage(code, i)
  {
  }

  lemma {:induction false} LayoutFlatFacts(code: nat, pages: seq<nat>)
    requires 1 <= code <= 16 && |pages| <= code + 3
    ensures forall j :: 0 <= j < |pages| ==>
              LayoutPage(code, j) in LayoutFlat(code, pages) &&
              LayoutFlat(code, pages)[LayoutPage(code, j)] == Mapping(pages[j], RightsOf(LayoutFlags(code, j)))
    ensures forall page :: page in LayoutFlat(code, pages) ==>
              exists j :: 0 <= j < |pages| && LayoutPage(code, j) == page
    decreases |pages|
  {
    hide LayoutPage;
    if pages != [] {
      var last := |pages| - 1;
      LayoutFlatFacts(code, pages[..last]);
      LayoutPages(code, last);
      forall page | page in LayoutFlat(code, pages)
        ensures exists j :: 0 <= j < |pages| && LayoutPage(code, j) == page
      {
        if page != LayoutPage(code, last) {
          assert page in LayoutFlat(code, pages[..last]);
          var j :| 0 <= j < last && LayoutPage(code, j) == page;
          assert 0 <= j < |pages| && LayoutPage(code, j) == page;
        } else {
          assert 0 <= last < |pages| && LayoutPage(code, last) == page;
        }
      }
    }
  }

  // ---- the tables a layout needs ----

  function LayoutNodes(code: nat, i: nat): set<Node> {
    {ROOT} + (if i >= 1 then {Node(2, 0), Node(1, 0), Node(0, 2)} else {}) +
    (if i > code then {Node(0, 3)} else {}) + (if i > code + 1 then {Node(0, 4)} else {})
  }

  function LayoutTables(code: nat, i: nat): nat {
    if i == 0 then 1 else if i <= code then 4 else if i == code + 1 then 5 else 6
  }

  lemma LayoutCovers(code: nat, i: nat)
    requires 1 <= code <= 16 && i < code + 3
    ensures var page := LayoutPage(code, i);
            Cover(page, 2) == Node(2, 0) && Cover(page, 1) == Node(1, 0) &&
            Cover(page, 0) == Node(0, if i < code then 2 else if i == code then 3 else 4)
  {
    LayoutPages(code, i);
    var page := LayoutPage(code, i);
    assert Shift(page, 1) == page / 512;
    assert Shift(page, 2) == page / 512 / 512;
    assert Shift(page, 3) == page / 512 / 512 / 512;
  }

  /** Mapping page `i` of the layout makes exactly the tables the layout says. */
  lemma LayoutMissing(code: nat, i: nat, tree: Tree)
    requires 1 <= code <= 16 && i < code + 3 && tree.Keys == LayoutNodes(code, i)
    ensures Missing(tree, LayoutPage(code, i), 3) == LayoutTables(code, i + 1) - LayoutTables(code, i)
    ensures tree.Keys + Path(LayoutPage(code, i), 3) == LayoutNodes(code, i + 1)
  {
    var page := LayoutPage(code, i);
    LayoutCovers(code, i);
    hide LayoutPage, Cover;
    assert forall n :: n in tree <==> n in LayoutNodes(code, i);
    assert Missing(tree, page, 0) == 0 && Path(page, 0) == {};
    assert Missing(tree, page, 1) == (if Cover(page, 0) in tree then 0 else 1) && Path(page, 1) == {Cover(page, 0)};
    assert Missing(tree, page, 2) == Missing(tree, page, 1) + (if Cover(page, 1) in tree then 0 else 1);
    assert Path(page, 2) == {Cover(page, 0), Cover(page, 1)};
    assert Missing(tree, page, 3) == Missing(tree, page, 2) + (if Cover(page, 2) in tree then 0 else 1);
    assert Path(page, 3) == {Cover(page, 0), Cover(page, 1), Cover(page, 2)};
  }

  // ---- what is held while building ----

  ghost function Owned(t: Task): set<nat> { Elements(t.space.tables) + Elements(t.pages) }

  /** From `m0` to `m` exactly the recorded tables and pages of `t` were taken, each once, and no frame
      that was not free before changed. */
  ghost predicate Holding(m0: Machine, m: Machine, t: Task) {
    && MachineOk(m) && |m.mem| == |m0.mem|
    && Distinct(t.space.tables) && Distinct(t.pages) && Elements(t.space.tables) !! Elements(t.pages)
    && Took(m0.pages, m.pages, Owned(t))
    && m.pages.free == m0.pages.free - |t.space.tables| - |t.pages|
    && (t.space.root == 0 ==> t.space.tables == []) && (t.space.root != 0 ==> t.space.root in t.space.tables)
    && (forall f :: 0 <= f < |m0.mem| && f !in FreeSet(m0.pages) ==> m.mem[f] == m0.mem[f])
  }

  lemma HoldAlloc(m0: Machine, m: Machine, t: Task)
    requires MachineOk(m0) && Holding(m0, m, t)
    ensures var (pages, r) := Alloc(m.pages);
            match r
            case None => m.pages.free == 0 && pages == m.pages
            case Some(f) =>
              var m1 := Machine(pages, Clear(m.mem, f));
              && m.pages.free > 0 && Holding(m0, m1, t.(pages := t.pages + [f]))
              && f in LiveSet(m1.pages) && f !in LiveSet(m.pages) && f < |m.mem| && m1.mem == m.mem[f := Zeros()]
              && m1.pages.free == m.pages.free - 1 && LiveSet(m1.pages) == LiveSet(m.pages) + {f}
              && PageData(m1.pages, f * 4096)
  {
    hide Scan, Valid;
    AllocFacts(m.pages);
    var (pages, r) := Alloc(m.pages);
    if r.Some? {
      var f := r.value;
      var t1 := t.(pages := t.pages + [f]);
      assert f !in Owned(t);
      assert Elements(t1.pages) == Elements(t.pages) + {f};
      assert Owned(t1) == Owned(t) + {f};
      TookTransitive(m0.pages, m.pages, pages, Owned(t), {f});
      assert 0 !in FreeSet(m.pages) && 0 !in LiveSet(m.pages);
      assert 0 !in FreeSet(pages) && 0 !in LiveSet(pages);
      FreeAndLiveDisjoint(m0.pages);
      assert f * 4096 / 4096 == f;
    }
  }

  lemma HoldGrew(m0: Machine, m: Machine, t: Task, m1: Machine, space: Space)
    requires MachineOk(m0) && Holding(m0, m, t) && Grew(m, t.space, m1, space) && Distinct(space.tables)
    requires t.space.root != 0
    ensures Holding(m0, m1, t.(space := space))
  {
    hide Valid;
    var t1 := t.(space := space);
    var added := Elements(space.tables) - Elements(t.space.tables);
    assert forall f :: f in t.space.tables ==> f in space.tables;
    FreeAndLiveDisjoint(m.pages);
    FreeAndLiveDisjoint(m0.pages);
    TookTransitive(m0.pages, m.pages, m1.pages, Owned(t), added);
    assert Owned(t1) == Owned(t) + added;
    forall f | 0 <= f < |m0.mem| && f !in FreeSet(m0.pages)
      ensures m1.mem[f] == m0.mem[f]
    {
      assert f !in Elements(t.space.tables);
      assert f !in FreeSet(m.pages);
    }
  }

  lemma RepresentsDistinct(mem: Memory, boot: seq<nat>, s: Space, tree: Tree, flat: Flat)
    requires Represents(mem, boot, s, tree, flat)
    ensures Distinct(s.tables) && s.root in s.tables && s.root != 0 && |s.tables| == |tree|
  {
  }

  /** map_owned succeeds iff one page and the missing tables are left; whatever happens, all that it
      took is recorded. */
  lemma MapOwnedFacts(m0: Machine, m: Machine, boot: seq<nat>, t: Task, tree: Tree, flat: Flat, va: nat, flags: nat)
      returns (tree': Tree)
    requires MachineOk(m0) && Holding(m0, m, t) && Represents(m.mem, boot, t.space, tree, flat)
    requires 0 < va < ADDRESS_LIMIT && va % 4096 == 0 && flags < 8 && va / 4096 !in flat
    requires |t.pages| < 19 && |t.space.tables| <= TABLE_LIMIT
    ensures var b := MapOwned(m, t, va, flags);
            var missing := Missing(tree, va / 4096, 3);
            && Holding(m0, b.m, b.task)
            && (b.ok <==> 1 + missing <= m.pages.free && |t.space.tables| + missing <= TABLE_LIMIT)
            && (b.ok ==>
                  && |b.task.pages| == |t.pages| + 1 && |b.task.space.tables| == |t.space.tables| + missing
                  && b.task == t.(pages := b.task.pages, space := b.task.space)
                  && b.task.pages[..|t.pages|] == t.pages
                  && (var f := b.task.pages[|t.pages|];
                      && f !in LiveSet(m.pages) && f !in b.task.space.tables && f < |b.m.mem| && b.m.mem[f] == Zeros()
                      && Represents(b.m.mem, boot, b.task.space, tree', flat[va / 4096 := Mapping(f, RightsOf(flags))]))
                  && tree'.Keys == tree.Keys + Path(va / 4096, 3)
                  && (forall g :: g in LiveSet(m.pages) && g !in t.space.tables ==> b.m.mem[g] == m.mem[g]))
  {
    hide Represents, Grew, Map, Alloc, Took, Path, Missing;
    tree' := tree;
    HoldAlloc(m0, m, t);
    RepresentsDistinct(m.mem, boot, t.space, tree, flat);
    var (pages, r) := Alloc(m.pages);
    if r.Some? {
      var f := r.value;
      var m1 := Machine(pages, Clear(m.mem, f));
      var t1 := t.(pages := t.pages + [f]);
      HeldTablesLive(m0, m, t);
      HeldTablesLive(m0, m1, t1);
      assert f !in Elements(t.space.tables);
      RepresentsFrame(m.mem, m1.mem, boot, t.space, tree, flat);
      tree' := MapFacts(m1, boot, t.space, tree, flat, va, f * 4096, flags);
      var (m2, space, ok) := Map(m1, t.space, va, f * 4096, flags);
      RepresentsDistinct(m2.mem, boot, space, tree', if ok then flat[va / 4096 := Mapping(f, RightsOf(flags))] else flat);
      HoldGrew(m0, m1, t1, m2, space);
      NewPageUntouched(m1, t.space, m2, space, f);
      MapArgumentsHere(m1, t.space, va, f, flags);
      forall g | g in LiveSet(m.pages) && g !in t.space.tables
        ensures m2.mem[g] == m.mem[g]
      {
        GrewKeeps(m1, t.space, m2, space, g);
      }
    }
  }

  /** A process never records more than nineteen pages: the twentieth is refused before anything is taken. */
  lemma NineteenPages(m: Machine, t: Task, va: nat, flags: nat)
    requires |t.pages| == 19
    ensures MapOwned(m, t, va, flags) == Building(m, t, false)
  {
    hide Map, Alloc;
  }

  lemma MapArgumentsHere(m: Machine, s: Space, va: nat, f: nat, flags: nat)
    requires 0 < va < ADDRESS_LIMIT && va % 4096 == 0 && flags < 8 && s.root != 0 && PageData(m.pages, f * 4096)
    ensures MapArguments(m, s, va, f * 4096, flags) && f * 4096 / 4096 == f
  {
  }

  lemma HeldTablesLive(m0: Machine, m: Machine, t: Task)
    requires Holding(m0, m, t)
    ensures Elements(t.space.tables) <= LiveSet(m.pages) && Elements(t.pages) <= LiveSet(m.pages)
    ensures Elements(t.space.tables) !! LiveSet(m0.pages) && Elements(t.pages) !! LiveSet(m0.pages)
    ensures Owned(t) <= FreeSet(m0.pages)
  {
    FreeAndLiveDisjoint(m0.pages);
  }

  lemma NewPageUntouched(m: Machine, s: Space, m': Machine, s': Space, f: nat)
    requires Grew(m, s, m', s') && f in LiveSet(m.pages) && f !in s.tables
    ensures m'.mem[f] == m.mem[f] && f !in s'.tables
  {
    NewTablesWereFree(m, s, m', s', f);
  }

  lemma GrewKeeps(m: Machine, s: Space, m': Machine, s': Space, g: nat)
    requires Grew(m, s, m', s') && g in LiveSet(m.pages) && g !in s.tables
    ensures m'.mem[g] == m.mem[g]
  {
  }

  // ---- the contents of a new process ----

  /** Byte `o` of page `i` of a fresh process: the image followed by zeros, or all zeros. */
  function FreshByte(cfg: Config, i: nat, o: nat): nat {
    if i < CodePages(cfg) && i * 4096 + o < |cfg.image| then cfg.image[i * 4096 + o] else 0
  }

  function PageByte(mem: Memory, frame: nat, o: nat): nat { UserCopy.ReadByte(mem, frame * 4096 + o) }

  ghost predicate Fresh(cfg: Config, mem: Memory, frame: nat, i: nat) {
    forall o: nat :: o < 4096 ==> PageByte(mem, frame, o) == FreshByte(cfg, i, o)
  }

  lemma FreshFrame(cfg: Config, mem: Memory, mem': Memory, frame: nat, i: nat)
    requires Fresh(cfg, mem, frame, i) && frame < |mem| && |mem'| == |mem| && mem'[frame] == mem[frame]
    ensures Fresh(cfg, mem', frame, i)
  {
    hide ByteOf;
  }

  lemma {:induction false} FillFrameFacts(mem: Memory, frame: nat, bytes: seq<nat>, n: nat)
    requires MemoryOk(mem) && frame < |mem| && n <= |bytes| && n <= 4096
    requires forall k :: 0 <= k < |bytes| ==> bytes[k] < 256
    ensures var mem' := FillFrame(mem, frame, bytes, n);
            && MemoryOk(mem') && |mem'| == |mem|
            && (forall g :: 0 <= g < |mem| && g != frame ==> mem'[g] == mem[g])
            && (forall o: nat :: o < 4096 ==>
                  PageByte(mem', frame, o) == if o < n then bytes[o] else PageByte(mem, frame, o))
  {
    hide UserCopy.ReadByte, UserCopy.WriteByte;
    if n > 0 {
      FillFrameFacts(mem, frame, bytes, n - 1);
      var before := FillFrame(mem, frame, bytes, n - 1);
      assert (frame * 4096 + (n - 1)) / 4096 == frame;
      UserCopy.WriteByteFacts(before, frame * 4096 + (n - 1), bytes[n - 1]);
      forall o: nat | o < 4096
        ensures PageByte(FillFrame(mem, frame, bytes, n), frame, o) ==
                if o < n then bytes[o] else PageByte(mem, frame, o)
      {
        assert PageByte(before, frame, o) == if o < n - 1 then bytes[o] else PageByte(mem, frame, o);
      }
    }
  }

  lemma ZeroedByte(mem: Memory, frame: nat, o: nat)
    requires frame < |mem| && mem[frame] == Zeros() && o < 4096
    ensures PageByte(mem, frame, o) == 0
  {
    var p := frame * 4096 + o;
    assert p / 4096 == frame && p % 4096 == o;
    assert Word(mem, frame, o / 8) == 0;
    ZeroBytes(p % 8);
  }

  /** A zeroed page, with its piece of the image copied in when it is a code page. */
  function Filled(cfg: Config, mem: Memory, frame: nat, i: nat): Memory {
    var chunk := ImageChunk(cfg.image, i);
    if i < CodePages(cfg) then FillFrame(mem, frame, chunk, |chunk|) else mem
  }

  lemma FilledFacts(cfg: Config, mem: Memory, frame: nat, i: nat)
    requires ConfigOk(cfg) && MemoryOk(mem) && frame < |mem| && mem[frame] == Zeros()
    ensures var mem' := Filled(cfg, mem, frame, i);
            && MemoryOk(mem') && |mem'| == |mem| && (forall g :: 0 <= g < |mem| && g != frame ==> mem'[g] == mem[g])
            && Fresh(cfg, mem', frame, i)
  {
    hide PageByte, FillFrame;
    var chunk := ImageChunk(cfg.image, i);
    forall o: nat | o < 4096
      ensures PageByte(mem, frame, o) == 0
    {
      ZeroedByte(mem, frame, o);
    }
    if i < CodePages(cfg) {
      FillFrameFacts(mem, frame, chunk, |chunk|);
    }
  }

  // ---- building page by page ----

  /** `t` holds the first `i` pages of the layout: tables, translations and contents are those of the
      finished process restricted to them. */
  ghost predicate Built(cfg: Config, m0: Machine, m: Machine, t: Task, i: nat, tree: Tree) {
    var code := CodePages(cfg);
    && Holding(m0, m, t)
    && |t.pages| == i
    && Represents(m.mem, cfg.boot, t.space, tree, LayoutFlat(code, t.pages))
    && tree.Keys == LayoutNodes(code, i) && |t.space.tables| == LayoutTables(code, i)
    && (i > code ==> t.dataPage == t.pages[code])
    && (forall j :: 0 <= j < i ==> t.pages[j] < |m.mem| && Fresh(cfg, m.mem, t.pages[j], j))
  }

  /** A process costs its code pages plus nine: six tables, one data page and two stack pages. */
  function Price(cfg: Config): nat { CodePages(cfg) + 9 }

  /** What MapOwned did to a process with `i` pages built, seen as one more page of the layout. */
  lemma BuildOne(cfg: Config, m0: Machine, m: Machine, t: Task, i: nat, tree: Tree) returns (tree': Tree)
    requires ConfigOk(cfg) && MachineOk(m0) && i < CodePages(cfg) + 3 && Built(cfg, m0, m, t, i, tree)
    ensures var code := CodePages(cfg);
            var b := MapOwned(m, t, LayoutAddress(code, i), LayoutFlags(code, i));
            && Holding(m0, b.m, b.task)
            && (b.ok <==> LayoutTables(code, i + 1) + i + 1 <= m0.pages.free)
            && (b.ok ==>
                  && |b.task.pages| == i + 1
                  && b.task == t.(pages := b.task.pages, space := b.task.space)
                  && (var f := b.task.pages[i];
                      var m1 := b.m.(mem := Filled(cfg, b.m.mem, f, i));
                      var t1 := if i == code then b.task.(dataPage := f) else b.task;
                      Built(cfg, m0, m1, t1, i + 1, tree')))
  {
    hide Holding, Represents, LayoutFlat, LayoutPage, LayoutAddress, LayoutNodes, MapOwned, Missing, Path, MachineOk, Filled, Fresh;
    var code := CodePages(cfg);
    CodeBound(cfg);
    LayoutPages(code, i);
    LayoutFlatFacts(code, t.pages);
    LayoutMissing(code, i, tree);
    HoldingCount(m0, m, t);
    assert LayoutAddress(code, i) / 4096 == LayoutPage(code, i) by { PageOfAddress(code, i); }
    assert LayoutPage(code, i) !in LayoutFlat(code, t.pages);
    tree' := MapOwnedFacts(m0, m, cfg.boot, t, tree, LayoutFlat(code, t.pages), LayoutAddress(code, i), LayoutFlags(code, i));
    var b := MapOwned(m, t, LayoutAddress(code, i), LayoutFlags(code, i));
    if b.ok {
      var f := b.task.pages[i];
      LayoutFlatStep(code, t.pages, b.task.pages, f);
      BuiltStep(cfg, m0, m, t, i, b, tree');
    }
  }

  lemma CodeBound(cfg: Config)
    requires ConfigOk(cfg)
    ensures 1 <= CodePages(cfg) <= 16
  {
  }

  lemma PageOfAddress(code: nat, i: nat)
    ensures LayoutAddress(code, i) / 4096 == LayoutPage(code, i)
  {
  }

  lemma HoldingCount(m0: Machine, m: Machine, t: Task)
    requires Holding(m0, m, t)
    ensures m.pages.free == m0.pages.free - |t.space.tables| - |t.pages|
  {
  }

  lemma LayoutFlatStep(code: nat, pages: seq<nat>, pages': seq<nat>, f: nat)
    requires |pages'| == |pages| + 1 && pages'[..|pages|] == pages && pages'[|pages|] == f
    ensures LayoutFlat(code, pages') ==
            LayoutFlat(code, pages)[LayoutPage(code, |pages|) := Mapping(f, RightsOf(LayoutFlags(code, |pages|)))]
  {
  }

  lemma BuiltStep(cfg: Config, m0: Machine, m: Machine, t: Task, i: nat, b: Building, tree': Tree)
    requires ConfigOk(cfg) && MachineOk(m0) && i < CodePages(cfg) + 3
    requires Holding(m0, m, t) && |t.pages| == i && (i > CodePages(cfg) ==> t.dataPage == t.pages[CodePages(cfg)])
    requires forall j :: 0 <= j < i ==> t.pages[j] < |m.mem| && Fresh(cfg, m.mem, t.pages[j], j)
    requires Holding(m0, b.m, b.task) && |b.task.pages| == i + 1 && b.task.pages[..i] == t.pages
    requires b.task == t.(pages := b.task.pages, space := b.task.space)
    requires tree'.Keys == LayoutNodes(CodePages(cfg), i + 1) && |b.task.space.tables| == LayoutTables(CodePages(cfg), i + 1)
    requires var f := b.task.pages[i];
             && f !in LiveSet(m.pages) && f !in b.task.space.tables && f < |b.m.mem| && b.m.mem[f] == Zeros()
             && Represents(b.m.mem, cfg.boot, b.task.space, tree', LayoutFlat(CodePages(cfg), b.task.pages))
    requires forall g :: g in LiveSet(m.pages) && g !in t.space.tables ==> b.m.mem[g] == m.mem[g]
    ensures var f := b.task.pages[i];
            var m1 := b.m.(mem := Filled(cfg, b.m.mem, f, i));
            var t1 := if i == CodePages(cfg) then b.task.(dataPage := f) else b.task;
            Built(cfg, m0, m1, t1, i + 1, tree')
  {
    hide Represents, LayoutFlat, LayoutNodes, Filled, Fresh, Took, Valid;
    var f := b.task.pages[i];
    var m1 := b.m.(mem := Filled(cfg, b.m.mem, f, i));
    FilledFacts(cfg, b.m.mem, f, i);
    RepresentsFrame(b.m.mem, m1.mem, cfg.boot, b.task.space, tree', LayoutFlat(CodePages(cfg), b.task.pages));
    HeldTablesLive(m0, m, t);
    HeldTablesLive(m0, b.m, b.task);
    forall j | 0 <= j < i
      ensures Fresh(cfg, m1.mem, b.task.pages[j], j)
    {
      var g := t.pages[j];
      assert b.task.pages[j] == g;
      assert g in Elements(t.pages);
      assert g !in Elements(t.space.tables);
      FreshFrame(cfg, m.mem, m1.mem, g, j);
    }
    assert f in Elements(b.task.pages) && f in Owned(b.task);
  }

  /** Building from page `i` on succeeds iff the whole price was there, and a failure at any depth
      leaves everything recorded. */
  lemma {:induction false} BuildFacts(cfg: Config, m0: Machine, m: Machine, t: Task, i: nat, tree: Tree) returns (tree': Tree)
    requires ConfigOk(cfg) && MachineOk(m0) && i <= CodePages(cfg) + 3 && Built(cfg, m0, m, t, i, tree)
    ensures var b := BuildFrom(cfg, m, t, i);
            && Holding(m0, b.m, b.task)
            && (b.ok <==> Price(cfg) <= m0.pages.free)
            && (b.ok ==> Built(cfg, m0, b.m, b.task, CodePages(cfg) + 3, tree') &&
                         b.task == t.(pages := b.task.pages, space := b.task.space, dataPage := b.task.dataPage))
    decreases CodePages(cfg) + 3 - i
  {
    hide Built, Holding, MapOwned, Filled, FillFrame, MachineOk;
    var code := CodePages(cfg);
    BuiltHolds(cfg, m0, m, t, i, tree);
    CodeBound(cfg);
    tree' := tree;
    if i < code + 3 {
      var b := MapOwned(m, t, LayoutAddress(code, i), LayoutFlags(code, i));
      tree' := BuildOne(cfg, m0, m, t, i, tree);
      if b.ok {
        var f := b.task.pages[i];
        var m1 := b.m.(mem := Filled(cfg, b.m.mem, f, i));
        var t1 := if i == code then b.task.(dataPage := f) else b.task;
        FilledIs(cfg, b.m, f, i);
        tree' := BuildFacts(cfg, m0, m1, t1, i + 1, tree');
      }
    }
  }

  lemma FilledIs(cfg: Config, m: Machine, f: nat, i: nat)
    ensures var chunk := ImageChunk(cfg.image, i);
            m.(mem := Filled(cfg, m.mem, f, i)) ==
            if i < CodePages(cfg) then m.(mem := FillFrame(m.mem, f, chunk, |chunk|)) else m
  {
  }

  lemma BuiltHolds(cfg: Config, m0: Machine, m: Machine, t: Task, i: nat, tree: Tree)
    requires Built(cfg, m0, m, t, i, tree)
    ensures Holding(m0, m, t) && |t.pages| == i && |t.space.tables| == LayoutTables(CodePages(cfg), i)
    ensures m.pages.free == m0.pages.free - |t.space.tables| - |t.pages|
  {
  }
}
