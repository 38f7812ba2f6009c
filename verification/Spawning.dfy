/** spawn in kernel/laboratory.c: all or nothing, at an exact price. */
module Spawning {
  import opened Words
  import opened PageModel
  import opened PageTables
  import opened RamFs
  import opened KernelModel
  import opened Build
  import TraceText
  import opened HostModel
  import opened Invariant
  import opened Replica
  import QuietSteps

  // ---- prepare ----

  /** prepare on an empty slot succeeds iff the price is free. Success is a complete process image with
      the fresh contents; failure leaves exactly what is recorded to be given back. */
  lemma PrepareFacts(cfg: Config, m: Machine, t: Task)
    requires ConfigOk(cfg) && MachineOk(m) && Bare(t)
    ensures var b := Prepare(cfg, m, t);
            && Holding(m, b.m, b.task)
            && (b.ok <==> Price(cfg) <= m.pages.free)
            && (b.ok ==>
                  && Held(cfg, b.m, b.task)
                  && b.task == t.(pages := b.task.pages, space := b.task.space, dataPage := b.task.dataPage, frame := FIRST_FRAME)
                  && b.m.pages.free == m.pages.free - Price(cfg)
                  && (forall j :: 0 <= j < |b.task.pages| ==> Fresh(cfg, b.m.mem, b.task.pages[j], j)))
  {
    hide Create, BuildFrom, Built, Holding, Grew, Represents, MachineOk, Held, Fresh;
    CreateFacts(m, cfg.boot);
    var (m1, space, ok) := Create(m, NO_SPACE, cfg.boot);
    if !ok {
      HoldNothing(m, t);
    } else {
      var t1 := t.(space := space);
      BuiltRoot(cfg, m, m1, t1);
      var tree := BuildFacts(cfg, m, m1, t1, 0, map[ROOT := space.root]);
      var b := BuildFrom(cfg, m1, t1, 0);
      if b.ok {
        BuiltIsHeld(cfg, m, b.m, b.task, tree);
        HeldNotEmpty(cfg, b.m, b.task);
        SameFrameHeld(cfg, m, b.m, b.task, b.task.(frame := FIRST_FRAME));
      }
    }
  }

  lemma HoldNothing(m: Machine, t: Task)
    requires MachineOk(m) && Bare(t)
    ensures Holding(m, m, t)
  {
    assert Owned(t) == {};
    TookNothing(m.pages);
  }

  lemma BuiltRoot(cfg: Config, m: Machine, m1: Machine, t: Task)
    requires ConfigOk(cfg) && MachineOk(m) && t.pages == [] && |t.space.tables| == 1
    requires Represents(m1.mem, cfg.boot, t.space, map[ROOT := t.space.root], map[])
    requires Grew(m, NO_SPACE.(root := t.space.root), m1, t.space)
    ensures Built(cfg, m, m1, t, 0, map[ROOT := t.space.root])
  {
    hide Represents, Took;
    RepresentsDistinct(m1.mem, cfg.boot, t.space, map[ROOT := t.space.root], map[]);
    assert Elements([]) == {};
    assert Owned(t) == Elements(t.space.tables) - Elements([]);
    assert LayoutFlat(CodePages(cfg), []) == map[];
    assert (map[ROOT := t.space.root]).Keys == {ROOT};
  }

  lemma BuiltIsHeld(cfg: Config, m0: Machine, m: Machine, t: Task, tree: Tree)
    requires ConfigOk(cfg) && Built(cfg, m0, m, t, CodePages(cfg) + 3, tree)
    ensures Held(cfg, m, t) && m.pages.free == m0.pages.free - Price(cfg)
    ensures forall j :: 0 <= j < |t.pages| ==> Fresh(cfg, m.mem, t.pages[j], j)
  {
    hide Represents, Fresh, LayoutFlat, LayoutNodes, Took;
    CodeBound(cfg);
    HeldTablesLive(m0, m, t);
  }

  lemma SameFrameHeld(cfg: Config, m0: Machine, m: Machine, t: Task, t': Task)
    requires Held(cfg, m, t) && Holding(m0, m, t) && SameHold(t, t') && t.pages != []
    ensures Held(cfg, m, t') && Holding(m0, m, t')
  {
    hide Represents, LayoutFlat;
  }

  // ---- release_pages ----

  /** release_pages of anything properly recorded, off its own page tables, cannot panic and gives back
      exactly what is recorded. */
  lemma ReleaseFactsAll(m: Machine, t: Task, active: nat)
    requires MachineOk(m) && Recorded(m, t) && (t.space.root != 0 ==> active != t.space.root)
    ensures var r := ReleasePages(m, t, active);
            && r.Released? && r.task == t.(space := NO_SPACE, pages := []) && r.m.mem == m.mem
            && Gave(m.pages, r.m.pages, Owned(t)) && MachineOk(r.m)
  {
    hide ReleaseAll, ReleaseBack;
    ReleaseBackFacts(m.pages, t.space.tables);
    var mid := ReleaseBack(m.pages, t.space.tables).value;
    if t.space.root == 0 {
      assert Elements(t.space.tables) == {};
      ReleaseAllFacts(m.pages, t.pages);
      assert t.space == NO_SPACE;
    } else {
      ReleaseAllFacts(mid, t.pages);
      GaveBoth(m.pages, mid, ReleaseAll(mid, t.pages).value, Elements(t.space.tables), Elements(t.pages));
    }
    var r := ReleasePages(m, t, active);
    StillUnmanaged(m.pages, r.m.pages, Owned(t));
  }

  lemma StillUnmanaged(p: Pages, q: Pages, given: set<nat>)
    requires |p.states| > 0 && p.states[0].Unmanaged? && Gave(p, q, given)
    ensures |q.states| > 0 && q.states[0].Unmanaged?
  {
    assert 0 !in FreeSet(p) && 0 !in LiveSet(p);
    assert 0 !in FreeSet(q) && 0 !in LiveSet(q);
  }

  // ---- a new owner ----

  /** Adding a freshly built process to an unused slot keeps ownership exact. */
  lemma OwnBorn(cfg: Config, m: Machine, m': Machine, tasks: seq<Task>, i: nat, t: Task)
    requires OwnOk(cfg, m, tasks, NOBODY) && |tasks| == 8 && i < 8 && tasks[i].state == Unused
    requires Holding(m, m', t) && Held(cfg, m', t) && t.state.Live()
    ensures OwnOk(cfg, m', tasks[i := t], NOBODY)
  {
    hide Mapped, Valid;
    var tasks' := tasks[i := t];
    assert Bare(tasks[i]) && Owned(tasks[i]) == {};
    HeldTablesLive(m, m', t);
    assert Owned(t) !! LiveSet(m.pages);
    forall j | 0 <= j < |tasks| && j != i
      ensures if Holder(tasks[j], j, NOBODY) then Held(cfg, m', tasks[j]) else Bare(tasks[j])
      ensures Owned(tasks[j]) <= LiveSet(m.pages)
    {
      OwnedLive(cfg, m, tasks, j);
      if Holder(tasks[j], j, NOBODY) {
        forall f | f in tasks[j].space.tables && f < |m.mem|
          ensures m'.mem[f] == m.mem[f]
        {
          assert f in Owned(tasks[j]);
        }
        MappedFrame(cfg, m.mem, m'.mem, tasks[j], tasks[j]);
      }
    }
    forall f | f in LiveSet(m'.pages)
      ensures exists j :: 0 <= j < |tasks'| && f in Owned(tasks'[j])
    {
      if f in Owned(t) {
        assert f in Owned(tasks'[i]);
      } else {
        var j :| 0 <= j < |tasks| && f in Owned(tasks[j]);
        assert f in Owned(tasks'[j]);
      }
    }
  }

  lemma OwnedLive(cfg: Config, m: Machine, tasks: seq<Task>, j: nat)
    requires SlotsHeld(cfg, m, tasks, NOBODY) && j < |tasks|
    ensures Owned(tasks[j]) <= LiveSet(m.pages)
  {
    hide Mapped;
    if !Holder(tasks[j], j, NOBODY) {
      assert Owned(tasks[j]) == {};
    }
  }

  lemma FamilyBorn(tasks: seq<Task>, nextPid: nat, i: nat, t: Task)
    requires FamilyOk(tasks, nextPid) && i < |tasks| && tasks[i].state == Unused
    requires t.state == Ready && t.id == nextPid > 0 && t.program < PROGRAM_COUNT && SlotsOk(RAM_FILES, t.files)
    requires if t.program == PROGRAM_INIT then t.parent == 0 else HasParent(tasks, t)
    ensures FamilyOk(tasks[i := t], nextPid + 1)
  {
    hide SlotsOk;
    var tasks' := tasks[i := t];
    forall j | 0 <= j < |tasks'| && tasks'[j].state != Unused && tasks'[j].program != PROGRAM_INIT
      ensures HasParent(tasks', tasks'[j])
    {
      assert HasParent(tasks, tasks'[j]);
      var p :| 0 <= p < |tasks| && Parents(tasks[p], tasks'[j]);
      assert Parents(tasks'[p], tasks'[j]);
    }
    forall j | 0 <= j < |tasks'| && tasks'[j].state == Waiting
      ensures HasChild(tasks', tasks'[j])
    {
      assert HasChild(tasks, tasks[j]);
      var c :| 0 <= c < |tasks| && Awaited(tasks[j], tasks[c]);
      assert Awaited(tasks'[j], tasks'[c]);
    }
  }

  // ---- telling the host ----

  ghost predicate Known(cfg: Config, trace: seq<Record>, tasks: seq<Task>) {
    TablesAgree(cfg, Replay(trace), tasks) && AllNameable(trace)
  }

  lemma MemoryTold(cfg: Config, trace: seq<Record>, tasks: seq<Task>, tick: nat, p: Pages)
    requires Known(cfg, trace, tasks)
    ensures Told(cfg, trace + [MemoryRecord(tick, |p.states|, p.free)], tasks, p)
  {
    hide ExpectedMaps, Fields, Last, TraceText.Hex, ProgramName;
    var r := MemoryRecord(tick, |p.states|, p.free);
    ReplayEmit(trace, r);
    var h, h' := Replay(trace), Replay(trace + [r]);
    hide Replay;
    assert h'.processes == h.processes && h'.maps == h.maps;
    forall i | 0 <= i < |tasks|
      ensures SlotAgrees(cfg, h', tasks[i])
    {
      assert SlotAgrees(cfg, h, tasks[i]);
    }
  }

  /** The host learns of a new process from its process record and its mappings. */
  lemma ProcessBorn(cfg: Config, h: Host, r: Record, h2: Host, tasks: seq<Task>, i: nat, t: Task)
    requires TablesAgree(cfg, h, tasks) && i < |tasks| && tasks[i].state == Unused && t.state.Live() && Announces(r, t)
    requires forall j :: 0 <= j < |tasks| && tasks[j].state != Unused ==> tasks[j].id != t.id
    requires ToldMaps(Apply(h, r), h2, t.id, ExpectedMaps(CodePages(cfg), t.pages))
    ensures TablesAgree(cfg, h2, tasks[i := t])
  {
    hide ExpectedMaps, Apply, TraceText.Hex, ProgramName;
    ProcessRecordEffect(h, r);
    var tasks' := tasks[i := t];
    forall j | 0 <= j < |tasks'|
      ensures SlotAgrees(cfg, h2, tasks'[j])
    {
      assert SlotAgrees(cfg, h, tasks[j]);
    }
    forall pid | pid in h2.processes
      ensures KnownPid(tasks', pid)
    {
      if pid == t.id {
        assert tasks'[i].state != Unused && tasks'[i].id == pid;
      } else {
        assert KnownPid(tasks, pid);
        var j :| 0 <= j < |tasks| && tasks[j].state != Unused && tasks[j].id == pid;
        assert tasks'[j].state != Unused && tasks'[j].id == pid;
      }
    }
  }

  lemma NewPidUnknown(cfg: Config, h: Host, tasks: seq<Task>, nextPid: nat)
    requires TablesAgree(cfg, h, tasks) && FamilyOk(tasks, nextPid)
    ensures nextPid !in h.processes && nextPid !in h.maps
    ensures forall j :: 0 <= j < |tasks| && tasks[j].state != Unused ==> tasks[j].id != nextPid
  {
    hide SlotsOk, SlotAgrees, HasParent, HasChild;
    assert nextPid in h.processes ==> KnownPid(tasks, nextPid);
  }

  /** The records of a successful spawn tell the host everything about the new process. */
  lemma AnnounceTold(cfg: Config, k: Kernel, tasks: seq<Task>, i: nat)
    requires ConfigOk(cfg) && Shaped(k) && MachineOk(k.m) && i < TASK_LIMIT && |tasks| == 8 && k.panic == None
    requires k.tasks == tasks[i := k.tasks[i]] && tasks[i].state == Unused && k.tasks[i].state.Live()
    requires Held(cfg, k.m, k.tasks[i]) && k.tasks[i].program < 7
    requires Known(cfg, k.trace, tasks) && FamilyOk(tasks, k.tasks[i].id)
    ensures var k' := Announce(cfg, k, i);
            k' == k.(trace := k'.trace) && Told(cfg, k'.trace, k.tasks, k.m.pages)
  {
    hide TablesAgree, Replay, Apply, Held, MachineOk, FamilyOk, ExpectedMaps, MappingsEvent;
    var t := k.tasks[i];
    var h := Replay(k.trace);
    NewPidUnknown(cfg, h, tasks, t.id);
    var spawn := SpawnRecord(k.ticks, t.id, t.parent, t.program);
    var k1 := Emit(k, spawn);
    ReplayEmit(k.trace, spawn);
    NeutralKeeps(cfg, h, spawn, tasks, k.m.pages);
    NewPidUnknown(cfg, Replay(k1.trace), tasks, t.id);
    var r := RecordOf(k1, i);
    var k2 := Emit(k1, r);
    assert k2 == ProcessEvent(k1, i);
    ReplayEmit(k1.trace, r);
    BirthKeepsMaps(Replay(k1.trace), r);
    MappingsTold(cfg, k2, t);
    var k3 := MappingsEvent(cfg, k2, t);
    ProcessBorn(cfg, Replay(k1.trace), r, Replay(k3.trace), tasks, i, t);
    MemoryTold(cfg, k3.trace, k.tasks, k3.ticks, k.m.pages);
  }

  lemma BirthKeepsMaps(h: Host, r: Record)
    requires r.ProcessRecord? && r.state != Unused
    ensures Apply(h, r).maps == h.maps
  {
    hide Apply;
    ProcessRecordEffect(h, r);
  }

  // ---- spawn ----

  lemma {:induction false} FindUnusedFacts(tasks: seq<Task>, i: nat)
    requires i <= |tasks|
    ensures var r := FindUnused(tasks, i);
            i <= r <= |tasks| && (r < |tasks| ==> tasks[r].state == Unused) &&
            (forall j :: i <= j < r ==> tasks[j].state != Unused)
    decreases |tasks| - i
  {
    if i < |tasks| {
      FindUnusedFacts(tasks, i + 1);
    }
  }

  /** Failed spawn, whatever the depth of the failure: the page states, the free count and every other
      slot are as before, no frame that was not free has changed, and nothing was told to the host. */
  ghost predicate Undone(k: Kernel, k': Kernel, i: nat)
    requires Shaped(k) && i < TASK_LIMIT
  {
    && k' == k.(m := k'.m, nextPid := k.nextPid + 1, tasks := k.tasks[i := EMPTY_TASK])
    && SamePages(k.m.pages, k'.m.pages)
    && MemoryOk(k'.m.mem) && |k'.m.mem| == |k.m.mem|
    && (forall f :: 0 <= f < |k.m.mem| && f !in FreeSet(k.m.pages) ==> k'.m.mem[f] == k.m.mem[f])
  }

  lemma SpawnFails(cfg: Config, k: Kernel, program: nat, parent: nat, i: nat)
    requires ConfigOk(cfg) && Shaped(k) && MachineOk(k.m) && i == FindUnused(k.tasks, 0) && i < TASK_LIMIT
    requires k.m.pages.free < Price(cfg) && (k.root < |k.m.mem| ==> k.root !in FreeSet(k.m.pages))
    ensures var o := Spawn(cfg, k, program, parent);
            o.result == -5 && Undone(k, o.k, i)
  {
    hide Prepare, ReleasePages, Valid, Took, Gave;
    var t := NewTask(k, program, parent);
    PrepareFacts(cfg, k.m, t);
    var b := Prepare(cfg, k.m, t);
    HoldingRecorded(k.m, b.m, b.task, k.root);
    ReleaseFactsAll(b.m, b.task, k.root);
    GaveBack(k.m.pages, b.m.pages, ReleasePages(b.m, b.task, k.root).m.pages, Owned(b.task));
    GaveValid(b.m.pages, ReleasePages(b.m, b.task, k.root).m.pages, Owned(b.task));
  }

  lemma GaveValid(p: Pages, q: Pages, given: set<nat>)
    requires Gave(p, q, given)
    ensures q.next < |q.states|
  {
  }

  lemma HoldingRecorded(m0: Machine, m: Machine, t: Task, active: nat)
    requires Holding(m0, m, t) && (active < |m0.mem| ==> active !in FreeSet(m0.pages)) && MachineOk(m0)
    ensures Recorded(m, t) && (t.space.root != 0 ==> active != t.space.root)
  {
    hide Valid;
    HeldTablesLive(m0, m, t);
    if t.space.root != 0 {
      assert t.space.root in Owned(t) && t.space.root in FreeSet(m0.pages);
    }
  }

  lemma UndoneQuiet(cfg: Config, k: Kernel, k': Kernel, i: nat)
    requires Inv(cfg, k) && i < TASK_LIMIT && k.tasks[i].state == Unused && Undone(k, k', i)
    ensures Inv(cfg, k')
  {
    hide FamilyOk, Told, Held, Apart, AllOwned, MachineOk, SlotsOk;
    QuietSteps.InvFamily(cfg, k);
    assert Bare(k.tasks[i]);
    assert SlotsOk(RAM_FILES, EMPTY_TASK.files) by { EmptyFiles(); }
    forall j, f | 0 <= j < |k.tasks| && f in k.tasks[j].space.tables && f < |k.m.mem|
      ensures k'.m.mem[f] == k.m.mem[f]
    {
      OwnedLive(cfg, k.m, k.tasks, j);
      assert f in Owned(k.tasks[j]);
    }
    assert k.current != i;
    QuietSteps.QuietKeeps(cfg, k, k');
  }

  lemma EmptyFiles()
    ensures SlotsOk(RAM_FILES, EMPTY_TASK.files)
  {
  }

  /** Successful spawn: the price is paid, the process is complete and fresh, ready in its slot, and
      everything else is as before. */
  ghost predicate Spawned(cfg: Config, k: Kernel, k': Kernel, i: nat, program: nat, parent: nat)
    requires Shaped(k) && i < TASK_LIMIT
  {
    && |k'.tasks| == TASK_LIMIT
    && k' == k.(m := k'.m, nextPid := k.nextPid + 1, tasks := k.tasks[i := k'.tasks[i]], trace := k'.trace)
    && (var t := k'.tasks[i];
        && t == EMPTY_TASK.(id := k.nextPid, program := program, parent := parent, state := Ready, pages := t.pages,
                            space := t.space, dataPage := t.dataPage, frame := FIRST_FRAME)
        && Held(cfg, k'.m, t) && Holding(k.m, k'.m, t)
        && (forall j :: 0 <= j < |t.pages| ==> Fresh(cfg, k'.m.mem, t.pages[j], j)))
    && k'.m.pages.free == k.m.pages.free - Price(cfg)
  }

  lemma SpawnSucceeds(cfg: Config, k: Kernel, tasks: seq<Task>, program: nat, parent: nat, i: nat)
    requires ConfigOk(cfg) && Shaped(k) && MachineOk(k.m) && k.panic == None && k.tasks == tasks
    requires i == FindUnused(k.tasks, 0) && i < TASK_LIMIT && tasks[i].state == Unused && program < PROGRAM_COUNT
    requires Price(cfg) <= k.m.pages.free && FamilyOk(tasks, k.nextPid) && Known(cfg, k.trace, tasks)
    ensures var o := Spawn(cfg, k, program, parent);
            && o.result == k.nextPid && Spawned(cfg, k, o.k, i, program, parent)
            && Told(cfg, o.k.trace, o.k.tasks, o.k.m.pages)
  {
    hide Prepare, Holding, Held, Fresh, FamilyOk, Known, Announce, Told, MachineOk;
    var t := NewTask(k, program, parent);
    PrepareFacts(cfg, k.m, t);
    var b := Prepare(cfg, k.m, t);
    var t1 := b.task.(state := Ready);
    HeldNotEmpty(cfg, b.m, b.task);
    SameFrameHeld(cfg, k.m, b.m, b.task, t1);
    var k1 := SetTask(k.(nextPid := k.nextPid + 1, m := b.m), i, t1);
    HoldingMachine(k.m, b.m, b.task);
    AnnounceTold(cfg, k1, tasks, i);
  }

  lemma HeldNotEmpty(cfg: Config, m: Machine, t: Task)
    requires Held(cfg, m, t)
    ensures t.pages != []
  {
    hide Mapped;
  }

  lemma HoldingMachine(m0: Machine, m: Machine, t: Task)
    requires Holding(m0, m, t)
    ensures MachineOk(m)
  {
  }
}
