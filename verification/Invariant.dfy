/** What holds of the LAB kernel at every step boundary, in four parts: who owns which page, how the
    processes are related, what is running, and what the host has been told. */
module Invariant {
  import opened Words
  import opened PageModel
  import opened PageTables
  import RamFs
  import opened KernelModel
  import opened Build
  import TraceText
  import opened HostModel

  const NOBODY: nat := 8

  // ---- ownership ----

  ghost predicate Mapped(cfg: Config, mem: Memory, t: Task) {
    exists tree :: Represents(mem, cfg.boot, t.space, tree, LayoutFlat(CodePages(cfg), t.pages))
  }

  /** Everything a slot records is live, recorded once, and no table is a user page. */
  ghost predicate Recorded(m: Machine, t: Task) {
    && Distinct(t.space.tables) && Distinct(t.pages) && Elements(t.space.tables) !! Elements(t.pages)
    && Owned(t) <= LiveSet(m.pages)
    && (t.space.root == 0 ==> t.space.tables == []) && (t.space.root != 0 ==> t.space.root in t.space.tables)
  }

  /** A complete process image: six tables, the code, data and stack pages, mapped as laid out. */
  ghost predicate Held(cfg: Config, m: Machine, t: Task) {
    && Recorded(m, t)
    && |t.pages| == CodePages(cfg) + 3 && |t.space.tables| == 6
    && t.dataPage == t.pages[CodePages(cfg)]
    && Mapped(cfg, m.mem, t)
  }

  predicate Bare(t: Task) { t.space == NO_SPACE && t.pages == [] }

  /** Ready and waiting tasks hold a process image, and so does a task that is just being buried. */
  predicate Holder(t: Task, i: nat, dying: nat) { t.state.Live() || i == dying }

  ghost predicate SlotsHeld(cfg: Config, m: Machine, tasks: seq<Task>, dying: nat) {
    forall i :: 0 <= i < |tasks| ==> if Holder(tasks[i], i, dying) then Held(cfg, m, tasks[i]) else Bare(tasks[i])
  }

  ghost predicate Apart(tasks: seq<Task>) {
    forall i, j :: 0 <= i < |tasks| && 0 <= j < |tasks| && i != j ==> Owned(tasks[i]) !! Owned(tasks[j])
  }

  ghost predicate AllOwned(p: Pages, tasks: seq<Task>) {
    forall f :: f in LiveSet(p) ==> exists i :: 0 <= i < |tasks| && f in Owned(tasks[i])
  }

  /** The live pages are the disjoint union of the tables and user pages of the holders. */
  ghost predicate OwnOk(cfg: Config, m: Machine, tasks: seq<Task>, dying: nat) {
    MachineOk(m) && SlotsHeld(cfg, m, tasks, dying) && Apart(tasks) && AllOwned(m.pages, tasks)
  }

  predicate SameHold(t: Task, t': Task) {
    t'.space == t.space && t'.pages == t.pages && (t.pages != [] ==> t'.dataPage == t.dataPage)
  }

  /** The same page states; the cursor may have moved. */
  predicate SamePages(p: Pages, q: Pages) { q.states == p.states && q.free == p.free && q.next < |q.states| }

  lemma MappedFrame(cfg: Config, mem: Memory, mem': Memory, t: Task, t': Task)
    requires Mapped(cfg, mem, t) && SameHold(t, t') && MemoryOk(mem') && |mem'| == |mem|
    requires forall f :: f in t.space.tables && f < |mem| ==> mem'[f] == mem[f]
    ensures Mapped(cfg, mem', t')
  {
    hide Represents, LayoutFlat;
    var tree :| Represents(mem, cfg.boot, t.space, tree, LayoutFlat(CodePages(cfg), t.pages));
    RepresentsFrame(mem, mem', cfg.boot, t.space, tree, LayoutFlat(CodePages(cfg), t.pages));
  }

  /** Ownership looks only at the page states, the table words and what the holders record. */
  lemma OwnFrame(cfg: Config, m: Machine, m': Machine, tasks: seq<Task>, tasks': seq<Task>, dying: nat, dying': nat)
    requires OwnOk(cfg, m, tasks, dying) && |tasks'| == |tasks|
    requires SamePages(m.pages, m'.pages) && MemoryOk(m'.mem) && |m'.mem| == |m.mem|
    requires forall i, f :: 0 <= i < |tasks| && f in tasks[i].space.tables && f < |m.mem| ==> m'.mem[f] == m.mem[f]
    requires forall i :: 0 <= i < |tasks| ==> SameHold(tasks[i], tasks'[i])
    requires forall i :: 0 <= i < |tasks| ==> (Holder(tasks'[i], i, dying') == Holder(tasks[i], i, dying))
    ensures OwnOk(cfg, m', tasks', dying')
  {
    hide Mapped;
    assert LiveSet(m'.pages) == LiveSet(m.pages);
    forall i | 0 <= i < |tasks|
      ensures Owned(tasks'[i]) == Owned(tasks[i])
      ensures if Holder(tasks'[i], i, dying') then Held(cfg, m', tasks'[i]) else Bare(tasks'[i])
    {
      if Holder(tasks[i], i, dying) {
        MappedFrame(cfg, m.mem, m'.mem, tasks[i], tasks'[i]);
      }
    }
    forall f | f in LiveSet(m'.pages)
      ensures exists i :: 0 <= i < |tasks'| && f in Owned(tasks'[i])
    {
      var i :| 0 <= i < |tasks| && f in Owned(tasks[i]);
      assert f in Owned(tasks'[i]);
    }
  }

  // ---- the family of processes ----

  predicate Parents(p: Task, c: Task) {
    p.state.Live() && p.id == c.parent && p.id < c.id && p.program <= PROGRAM_SHELL
  }

  predicate Awaited(p: Task, c: Task) {
    c.state.Live() && c.id == p.waitingFor && c.parent == p.id && p.id < c.id
  }

  predicate Citizen(t: Task, nextPid: nat) {
    t.state != Unused ==>
      && 0 < t.id < nextPid && t.program < PROGRAM_COUNT
      && (t.program <= PROGRAM_SHELL ==> t.state.Live())
      && (t.program == PROGRAM_INIT ==> t.parent == 0)
  }

  ghost predicate DistinctIds(tasks: seq<Task>) {
    forall i, j | 0 <= i < |tasks| && 0 <= j < |tasks| && i != j ::
      tasks[i].state != Unused && tasks[j].state != Unused ==> tasks[i].id != tasks[j].id
  }

  ghost predicate HasParent(tasks: seq<Task>, t: Task) {
    exists p :: 0 <= p < |tasks| && Parents(tasks[p], t)
  }

  ghost predicate HasChild(tasks: seq<Task>, t: Task) {
    exists c :: 0 <= c < |tasks| && Awaited(t, tasks[c])
  }

  /** Pids are unique and below the next one; nobody is an orphan; whoever waits, waits for a live
      child of its own with a larger pid. */
  ghost predicate FamilyOk(tasks: seq<Task>, nextPid: nat) {
    && (forall i :: 0 <= i < |tasks| ==> Citizen(tasks[i], nextPid) && RamFs.SlotsOk(RamFs.RAM_FILES, tasks[i].files))
    && DistinctIds(tasks)
    && (forall i :: 0 <= i < |tasks| && tasks[i].state != Unused && tasks[i].program != PROGRAM_INIT ==>
          HasParent(tasks, tasks[i]))
    && (forall i :: 0 <= i < |tasks| && tasks[i].state == Waiting ==> HasChild(tasks, tasks[i]))
  }

  predicate SameKin(t: Task, t': Task) {
    && t'.state == t.state
    && (t.state != Unused ==> t'.id == t.id && t'.parent == t.parent && t'.program == t.program &&
                              t'.waitingFor == t.waitingFor)
  }

  lemma FamilyFrame(tasks: seq<Task>, tasks': seq<Task>, nextPid: nat, nextPid': nat)
    requires FamilyOk(tasks, nextPid) && |tasks'| == |tasks| && nextPid <= nextPid'
    requires forall i :: 0 <= i < |tasks| ==> SameKin(tasks[i], tasks'[i]) && RamFs.SlotsOk(RamFs.RAM_FILES, tasks'[i].files)
    ensures FamilyOk(tasks', nextPid')
  {
    hide RamFs.SlotsOk;
    forall i | 0 <= i < |tasks| && tasks'[i].state != Unused && tasks'[i].program != PROGRAM_INIT
      ensures HasParent(tasks', tasks'[i])
    {
      assert HasParent(tasks, tasks[i]);
      var p :| 0 <= p < |tasks| && Parents(tasks[p], tasks[i]);
      assert Parents(tasks'[p], tasks'[i]);
    }
    forall i | 0 <= i < |tasks| && tasks'[i].state == Waiting
      ensures HasChild(tasks', tasks'[i])
    {
      assert HasChild(tasks, tasks[i]);
      var c :| 0 <= c < |tasks| && Awaited(tasks[i], tasks[c]);
      assert Awaited(tasks'[i], tasks'[c]);
    }
  }

  /** Following a waiting task to the child it waits for, the pid grows, so the chain ends at a ready
      task: deadlock freedom. */
  lemma {:induction false} SomeReady(tasks: seq<Task>, nextPid: nat, i: nat) returns (r: nat)
    requires FamilyOk(tasks, nextPid) && i < |tasks| && tasks[i].state.Live()
    ensures r < |tasks| && tasks[r].state == Ready && tasks[r].id >= tasks[i].id
    decreases nextPid - tasks[i].id
  {
    if tasks[i].state == Ready {
      r := i;
    } else {
      assert HasChild(tasks, tasks[i]);
      var c :| 0 <= c < |tasks| && Awaited(tasks[i], tasks[c]);
      assert Citizen(tasks[c], nextPid);
      r := SomeReady(tasks, nextPid, c);
    }
  }

  // ---- what runs ----

  ghost predicate CurrentOk(k: Kernel) {
    Shaped(k) && k.tasks[k.current].state == Ready && k.root == k.tasks[k.current].space.root
  }

  // ---- what the host knows ----

  /** The mapping table the host should hold for a process with these pages. */
  function ExpectedMaps(code: nat, pages: seq<nat>): map<string, MapEntry> {
    if pages == [] then map[]
    else
      var last := |pages| - 1;
      ExpectedMaps(code, pages[..last])[TraceText.Hex(LayoutAddress(code, last)) :=
        MapEntry(TraceText.Hex(pages[last] * 4096), LayoutFlags(code, last), PartName(LayoutPart(code, last)))]
  }

  ghost predicate ProcessAgrees(p: Process, t: Task) {
    p.parent == t.parent && p.program == ProgramName(t.program) && p.state == STATES[t.state.Number()] &&
    p.root == TraceText.Hex(t.space.root * 4096)
  }

  /** The host knows this slot: parent, program, state and root of any process, and the exact mappings
      of a live one. */
  ghost predicate SlotAgrees(cfg: Config, h: Host, t: Task) {
    t.state != Unused ==>
      && t.id in h.processes && ProcessAgrees(h.processes[t.id], t)
      && (t.state.Live() ==> t.id in h.maps && h.maps[t.id] == ExpectedMaps(CodePages(cfg), t.pages))
  }

  ghost predicate KnownPid(tasks: seq<Task>, pid: nat) {
    exists i :: 0 <= i < |tasks| && tasks[i].state != Unused && tasks[i].id == pid
  }

  ghost predicate TablesAgree(cfg: Config, h: Host, tasks: seq<Task>) {
    && (forall i :: 0 <= i < |tasks| ==> SlotAgrees(cfg, h, tasks[i]))
    && (forall pid :: pid in h.processes ==> KnownPid(tasks, pid))
    && (forall pid :: pid in h.maps ==> pid in h.processes)
  }

  ghost predicate MemoryAgrees(h: Host, p: Pages) { h.frames == |p.states| && h.free == p.free }

  ghost predicate AllNameable(trace: seq<Record>) { forall r :: r in trace ==> Nameable(r) }

  /** Folding the trace reproduces these slots and these page counts. */
  ghost predicate Told(cfg: Config, trace: seq<Record>, tasks: seq<Task>, p: Pages) {
    TablesAgree(cfg, Replay(trace), tasks) && MemoryAgrees(Replay(trace), p) && AllNameable(trace)
  }

  lemma ReplayEmit(trace: seq<Record>, r: Record)
    ensures Replay(trace + [r]) == Apply(Replay(trace), r)
  {
    assert (trace + [r])[..|trace|] == trace;
  }

  /** The whole invariant. */
  ghost predicate Inv(cfg: Config, k: Kernel) {
    && ConfigOk(cfg) && Shaped(k) && k.panic == None
    && OwnOk(cfg, k.m, k.tasks, NOBODY)
    && FamilyOk(k.tasks, k.nextPid)
    && CurrentOk(k)
    && Told(cfg, k.trace, k.tasks, k.m.pages)
  }

  // ---- consequences of ownership ----

  /** What the tables of a holder translate: page `j` of the layout, and nothing else. */
  lemma HeldLookup(cfg: Config, m: Machine, t: Task, address: nat)
    requires ConfigOk(cfg) && Held(cfg, m, t)
    ensures match Lookup(m.mem, t.space, address)
      case None => forall j :: 0 <= j < |t.pages| ==> LayoutPage(CodePages(cfg), j) != address / 4096
      case Some(x) =>
        exists j :: 0 <= j < |t.pages| && LayoutPage(CodePages(cfg), j) == address / 4096 &&
                    x.physical == t.pages[j] * 4096 + address % 4096 && x.rights == RightsOf(LayoutFlags(CodePages(cfg), j))
  {
    hide Represents, LayoutFlat, LayoutPage, Lookup;
    var code := CodePages(cfg);
    CodeBound(cfg);
    var tree :| Represents(m.mem, cfg.boot, t.space, tree, LayoutFlat(code, t.pages));
    LookupFacts(m.mem, cfg.boot, t.space, tree, LayoutFlat(code, t.pages), address);
    LayoutFlatFacts(code, t.pages);
    if address / 4096 in LayoutFlat(code, t.pages) {
      var j :| 0 <= j < |t.pages| && LayoutPage(code, j) == address / 4096;
      assert LayoutFlat(code, t.pages)[LayoutPage(code, j)] == Mapping(t.pages[j], RightsOf(LayoutFlags(code, j)));
    }
  }

  lemma HeldRoot(cfg: Config, m: Machine, t: Task)
    requires Held(cfg, m, t)
    ensures t.space.root != 0 && t.space.root in t.space.tables && t.space.root in Owned(t)
  {
    hide Represents, LayoutFlat;
    var tree :| Represents(m.mem, cfg.boot, t.space, tree, LayoutFlat(CodePages(cfg), t.pages));
    RepresentsDistinct(m.mem, cfg.boot, t.space, tree, LayoutFlat(CodePages(cfg), t.pages));
  }

  /** Two holders never share a frame, so their roots differ. */
  lemma RootsDiffer(cfg: Config, m: Machine, tasks: seq<Task>, dying: nat, i: nat, j: nat)
    requires OwnOk(cfg, m, tasks, dying) && i < |tasks| && j < |tasks| && i != j
    requires Holder(tasks[i], i, dying) && Holder(tasks[j], j, dying)
    ensures tasks[i].space.root != tasks[j].space.root
  {
    hide Held, MachineOk, AllOwned;
    HeldRoot(cfg, m, tasks[i]);
    HeldRoot(cfg, m, tasks[j]);
    assert Owned(tasks[i]) !! Owned(tasks[j]);
  }
}
