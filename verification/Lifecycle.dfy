/** Spawn, wait, exit, fault and inspect keep the invariant of the kernel. */
module Lifecycle {
  import opened Words
  import opened PageModel
  import PageTables
  import opened RamFs
  import opened KernelModel
  import opened Build
  import TraceText
  import opened HostModel
  import opened Invariant
  import opened Replica
  import opened QuietSteps
  import opened Spawning

  // ---- spawn ----

  lemma ActiveNotFree(cfg: Config, k: Kernel)
    requires Inv(cfg, k)
    ensures k.root in LiveSet(k.m.pages) && k.root !in FreeSet(k.m.pages)
  {
    hide FamilyOk, Told, Apart, AllOwned, Mapped, SlotsHeld, PageTables.MachineOk;
    CurrentHeld(cfg, k);
    HeldRoot(cfg, k.m, k.tasks[k.current]);
    FreeAndLiveDisjoint(k.m.pages);
  }

  lemma SpawnedKeeps(cfg: Config, k: Kernel, k': Kernel, i: nat, program: nat)
    requires Inv(cfg, k) && MaySpawn(k.tasks[k.current], program)
    requires i < TASK_LIMIT && k.tasks[i].state == Unused && Spawned(cfg, k, k', i, program, k.tasks[k.current].id)
    requires Told(cfg, k'.trace, k'.tasks, k'.m.pages)
    ensures Inv(cfg, k')
  {
    hide OwnOk, FamilyOk, Told, Held, Holding, Fresh, Price, SlotsOk, RAM_FILES;
    var t := k'.tasks[i];
    assert k'.tasks == k.tasks[i := t];
    OwnBorn(cfg, k.m, k'.m, k.tasks, i, t);
    CurrentParents(cfg, k, t);
    assert SlotsOk(RAM_FILES, t.files) by { EmptyFiles(); }
    FamilyBorn(k.tasks, k.nextPid, i, t);
  }

  lemma SpawnRefusedKeeps(cfg: Config, k: Kernel, program: nat, i: nat)
    requires Inv(cfg, k) && i == FindUnused(k.tasks, 0) && i < TASK_LIMIT && k.m.pages.free < Price(cfg)
    ensures Inv(cfg, Spawn(cfg, k, program, k.tasks[k.current].id).k)
  {
    hide OwnOk, FamilyOk, Told, Spawn, Price, SlotsOk, RAM_FILES, FindUnused;
    InvParts(cfg, k);
    ActiveNotFree(cfg, k);
    FindUnusedFacts(k.tasks, 0);
    SpawnFails(cfg, k, program, k.tasks[k.current].id, i);
    UndoneQuiet(cfg, k, Spawn(cfg, k, program, k.tasks[k.current].id).k, i);
  }

  /** Spawn from a running init or shell keeps everything, whether it succeeds or not. */
  lemma SpawnKeeps(cfg: Config, k: Kernel, program: nat)
    requires Inv(cfg, k) && MaySpawn(k.tasks[k.current], program)
    ensures Inv(cfg, Spawn(cfg, k, program, k.tasks[k.current].id).k)
  {
    hide Inv, Spawn, Spawned, Price, FindUnused, Known, PageTables.MachineOk, FamilyOk, Told;
    InvParts(cfg, k);
    var parent := k.tasks[k.current].id;
    var i := FindUnused(k.tasks, 0);
    FindUnusedFacts(k.tasks, 0);
    if i >= TASK_LIMIT {
      SpawnNoSlot(cfg, k, program, parent);
    } else if k.m.pages.free < Price(cfg) {
      SpawnRefusedKeeps(cfg, k, program, i);
    } else {
      ToldIsKnown(cfg, k.trace, k.tasks, k.m.pages);
      SpawnSucceeds(cfg, k, k.tasks, program, parent, i);
      SpawnedKeeps(cfg, k, Spawn(cfg, k, program, parent).k, i, program);
    }
  }

  lemma InvParts(cfg: Config, k: Kernel)
    requires Inv(cfg, k)
    ensures ConfigOk(cfg) && Shaped(k) && k.panic == None && PageTables.MachineOk(k.m)
    ensures FamilyOk(k.tasks, k.nextPid) && Told(cfg, k.trace, k.tasks, k.m.pages)
  {
    hide SlotsHeld, Apart, AllOwned, FamilyOk, Told, PageTables.MachineOk;
  }

  lemma SpawnNoSlot(cfg: Config, k: Kernel, program: nat, parent: nat)
    requires Shaped(k) && |cfg.boot| == 512 && FindUnused(k.tasks, 0) >= TASK_LIMIT
    ensures Spawn(cfg, k, program, parent) == Outcome(k, -5)
  {
  }

  lemma ToldIsKnown(cfg: Config, trace: seq<Record>, tasks: seq<Task>, p: Pages)
    requires Told(cfg, trace, tasks, p)
    ensures Known(cfg, trace, tasks)
  {
  }

  lemma CurrentParents(cfg: Config, k: Kernel, t: Task)
    requires Inv(cfg, k) && t.parent == k.tasks[k.current].id && t.id == k.nextPid && k.tasks[k.current].program <= PROGRAM_SHELL
    ensures HasParent(k.tasks, t) && k.nextPid > 0
  {
    hide OwnOk, Told, SlotsOk, HasChild;
    assert Citizen(k.tasks[k.current], k.nextPid);
    assert Parents(k.tasks[k.current], t);
  }

  // ---- inspect ----

  lemma SlotTold(cfg: Config, k: Kernel, i: nat)
    requires Inv(cfg, k) && i < TASK_LIMIT && k.tasks[i].state != Unused
    ensures Inv(cfg, ProcessEvent(k, i))
  {
    hide OwnOk, TablesAgree, Replay, Apply, SlotsOk;
    var t := k.tasks[i];
    var r := RecordOf(k, i);
    var k1 := ProcessEvent(k, i);
    assert k1 == Emit(k, r);
    ReplayEmit(k.trace, r);
    ProcessTold(cfg, Replay(k.trace), r, k.tasks, i, t);
    assert k.tasks[i := t] == k.tasks;
    assert Citizen(t, k.nextPid);
  }

  /** An exited process has nothing mapped; a live one repeats what the host already knows. */
  lemma SlotMapsTold(cfg: Config, k: Kernel, i: nat)
    requires Inv(cfg, k) && i < TASK_LIMIT && k.tasks[i].state != Unused
    ensures var k' := MappingsEvent(cfg, k, k.tasks[i]);
            k' == k.(trace := k'.trace) && Inv(cfg, k')
  {
    hide FamilyOk, Replay, MappingsEvent, Apart, AllOwned, Held, PageTables.MachineOk, ExpectedMaps;
    var t := k.tasks[i];
    assert SlotAgrees(cfg, Replay(k.trace), t);
    if t.state.Live() {
      MappingsTold(cfg, k, t);
      var k' := MappingsEvent(cfg, k, t);
      RepeatedMaps(cfg, Replay(k.trace), Replay(k'.trace), k.tasks, i);
    } else {
      NothingMapped(cfg, k, t);
    }
  }

  lemma NothingMapped(cfg: Config, k: Kernel, t: Task)
    requires Shaped(k) && Bare(t)
    ensures MappingsEvent(cfg, k, t) == k
  {
  }

  lemma RepeatedMaps(cfg: Config, h: Host, h': Host, tasks: seq<Task>, i: nat)
    requires TablesAgree(cfg, h, tasks) && i < |tasks| && tasks[i].state.Live()
    requires ToldMaps(h, h', tasks[i].id, ExpectedMaps(CodePages(cfg), tasks[i].pages))
    ensures TablesAgree(cfg, h', tasks) && h'.frames == h.frames && h'.free == h.free
  {
    hide ExpectedMaps, TraceText.Hex, ProgramName;
    assert SlotAgrees(cfg, h, tasks[i]);
    assert h'.maps == h.maps;
    forall j | 0 <= j < |tasks|
      ensures SlotAgrees(cfg, h', tasks[j])
    {
      assert SlotAgrees(cfg, h, tasks[j]);
    }
  }

  lemma {:induction false} InspectFromKeeps(cfg: Config, k: Kernel, i: nat)
    requires Inv(cfg, k) && i <= TASK_LIMIT
    ensures var k' := InspectFrom(cfg, k, i);
            k' == k.(trace := k'.trace) && Inv(cfg, k')
    decreases TASK_LIMIT - i
  {
    hide OwnOk, FamilyOk, Told, MappingsEvent;
    if i < TASK_LIMIT {
      if k.tasks[i].state == Unused {
        InspectFromKeeps(cfg, k, i + 1);
      } else {
        SlotTold(cfg, k, i);
        SlotMapsTold(cfg, ProcessEvent(k, i), i);
        InspectFromKeeps(cfg, MappingsEvent(cfg, ProcessEvent(k, i), k.tasks[i]), i + 1);
      }
    }
  }

  lemma MemoryEventKeeps(cfg: Config, k: Kernel)
    requires Inv(cfg, k)
    ensures Inv(cfg, MemoryEvent(k))
  {
    hide OwnOk, FamilyOk, Told;
    ToldIsKnown(cfg, k.trace, k.tasks, k.m.pages);
    MemoryTold(cfg, k.trace, k.tasks, k.ticks, k.m.pages);
  }

  lemma InspectKeeps(cfg: Config, k: Kernel)
    requires Inv(cfg, k)
    ensures var k' := Inspect(cfg, k);
            k' == k.(trace := k'.trace) && Inv(cfg, k')
  {
    hide OwnOk, FamilyOk, Told, InspectFrom;
    NeutralEmitKeeps(cfg, k, SnapshotRecord(k.ticks));
    var k0 := Emit(k, SnapshotRecord(k.ticks));
    InspectFromKeeps(cfg, k0, 0);
    var k1 := InspectFrom(cfg, k0, 0);
    MemoryEventKeeps(cfg, k1);
    NeutralEmitKeeps(cfg, MemoryEvent(k1), SnapshotEndRecord(k1.ticks));
  }

  // ---- wait ----

  lemma {:induction false} FindChildFacts(tasks: seq<Task>, pid: nat, parent: nat, i: nat)
    requires i <= |tasks|
    ensures var c := FindChild(tasks, pid, parent, i);
            i <= c <= |tasks| && (c < |tasks| ==> ChildOf(tasks[c], pid, parent)) &&
            (forall j :: i <= j < c ==> !ChildOf(tasks[j], pid, parent))
    decreases |tasks| - i
  {
    if i < |tasks| {
      FindChildFacts(tasks, pid, parent, i + 1);
    }
  }

  /** Whoever is left keeps a parent when no init or shell goes away. */
  lemma KeepParents(tasks: seq<Task>, tasks': seq<Task>)
    requires |tasks'| == |tasks|
    requires forall j :: 0 <= j < |tasks| && tasks'[j].state != Unused ==>
               tasks[j].state != Unused && tasks'[j].id == tasks[j].id && tasks'[j].parent == tasks[j].parent &&
               tasks'[j].program == tasks[j].program
    requires forall p :: 0 <= p < |tasks| && tasks[p].state.Live() && tasks[p].program <= PROGRAM_SHELL ==>
               tasks'[p].state.Live()
    requires forall j :: 0 <= j < |tasks| && tasks[j].state != Unused && tasks[j].program != PROGRAM_INIT ==> HasParent(tasks, tasks[j])
    ensures forall j :: 0 <= j < |tasks'| && tasks'[j].state != Unused && tasks'[j].program != PROGRAM_INIT ==> HasParent(tasks', tasks'[j])
  {
    forall j | 0 <= j < |tasks'| && tasks'[j].state != Unused && tasks'[j].program != PROGRAM_INIT
      ensures HasParent(tasks', tasks'[j])
    {
      assert HasParent(tasks, tasks[j]);
      var p :| 0 <= p < |tasks| && Parents(tasks[p], tasks[j]);
      assert Parents(tasks'[p], tasks'[j]);
    }
  }

  /** Nobody waits for a zombie and no zombie is a parent, so reaping one breaks no relation. */
  lemma FamilyReap(tasks: seq<Task>, nextPid: nat, i: nat, t: Task)
    requires FamilyOk(tasks, nextPid) && i < |tasks| && tasks[i].state == Exited
    requires t.state == Unused && SlotsOk(RAM_FILES, t.files)
    ensures FamilyOk(tasks[i := t], nextPid)
  {
    hide SlotsOk;
    var tasks' := tasks[i := t];
    KeepParents(tasks, tasks');
    forall j | 0 <= j < |tasks'| && tasks'[j].state == Waiting
      ensures HasChild(tasks', tasks'[j])
    {
      assert HasChild(tasks, tasks[j]);
      var c :| 0 <= c < |tasks| && Awaited(tasks[j], tasks[c]);
      assert Awaited(tasks'[j], tasks'[c]);
    }
  }

  lemma ParentIsOlder(tasks: seq<Task>, nextPid: nat, i: nat, c: nat)
    requires FamilyOk(tasks, nextPid) && i < |tasks| && c < |tasks| && tasks[i].state == Ready
    requires tasks[c].state.Live() && tasks[c].parent == tasks[i].id
    ensures tasks[i].id < tasks[c].id && c != i && Citizen(tasks[i], nextPid)
  {
    hide SlotsOk, HasChild;
    assert Citizen(tasks[i], nextPid) && Citizen(tasks[c], nextPid);
    assert HasParent(tasks, tasks[c]);
  }

  /** A ready task starts to wait for a live child of its own. */
  lemma FamilyWait(tasks: seq<Task>, nextPid: nat, i: nat, c: nat)
    requires FamilyOk(tasks, nextPid) && i < |tasks| && c < |tasks| && tasks[i].state == Ready
    requires tasks[c].state.Live() && tasks[c].parent == tasks[i].id
    ensures FamilyOk(tasks[i := tasks[i].(state := Waiting, waitingFor := tasks[c].id)], nextPid)
  {
    hide SlotsOk, HasParent;
    var t := tasks[i].(state := Waiting, waitingFor := tasks[c].id);
    var tasks' := tasks[i := t];
    ParentIsOlder(tasks, nextPid, i, c);
    assert Awaited(t, tasks'[c]);
    KeepParents(tasks, tasks');
    forall j | 0 <= j < |tasks'| && tasks'[j].state == Waiting
      ensures HasChild(tasks', tasks'[j])
    {
      if j != i {
        assert HasChild(tasks, tasks[j]);
        var d :| 0 <= d < |tasks| && Awaited(tasks[j], tasks[d]);
        assert Awaited(tasks'[j], tasks'[d]);
      }
    }
  }

  /** All but `what runs`: the state between a change and the choice of the next task. */
  ghost predicate Settled(cfg: Config, k: Kernel) {
    && ConfigOk(cfg) && Shaped(k) && k.panic == None
    && OwnOk(cfg, k.m, k.tasks, NOBODY) && FamilyOk(k.tasks, k.nextPid) && Told(cfg, k.trace, k.tasks, k.m.pages)
  }

  /** As long as anybody is live, somebody is ready: rescheduling never panics. */
  lemma RescheduleKeeps(cfg: Config, k: Kernel, live: nat)
    requires Settled(cfg, k) && live < TASK_LIMIT && k.tasks[live].state.Live()
    ensures Inv(cfg, Reschedule(k))
  {
    hide OwnOk, FamilyOk, Told, ReadyFrom;
    var r := SomeReady(k.tasks, k.nextPid, live);
    ReadyFound(k.tasks, k.current, r);
    SelectKeeps(cfg, k, NextReady(k).value);
  }

  lemma WaitKeeps(cfg: Config, k: Kernel, pid: nat)
    requires Inv(cfg, k)
    ensures Inv(cfg, WaitChild(k, pid))
  {
    hide OwnOk, FamilyOk, Told, SlotsOk, Reschedule;
    var me := k.current;
    var r := WaitRecord(k.ticks, k.tasks[me].id, pid);
    NeutralEmitKeeps(cfg, k, r);
    var k1 := Emit(k, r);
    FindChildFacts(k.tasks, pid, k.tasks[me].id, 0);
    var c := FindChild(k.tasks, pid, k.tasks[me].id, 0);
    if c >= TASK_LIMIT {
      SetRaxKeeps(cfg, k1, Unsigned(-3));
    } else if k.tasks[c].state == Exited {
      SetRaxKeeps(cfg, k1, k.tasks[c].status);
      ReapKeeps(cfg, SetRax(k1, me, k.tasks[c].status), c);
    } else {
      BlockKeeps(cfg, k1, c, pid);
    }
  }

  /** The zombie's slot becomes unused and the host forgets it. */
  lemma ReapKeeps(cfg: Config, k: Kernel, c: nat)
    requires Inv(cfg, k) && c < TASK_LIMIT && k.tasks[c].state == Exited
    ensures Inv(cfg, ProcessEvent(SetTask(k, c, k.tasks[c].(state := Unused)), c))
  {
    hide OwnOk, FamilyOk, TablesAgree, Replay, Apply, SlotsOk;
    var t := k.tasks[c].(state := Unused);
    InvFamily(cfg, k);
    var k1 := SetTask(k, c, t);
    OwnFrame(cfg, k.m, k.m, k.tasks, k1.tasks, NOBODY, NOBODY);
    FamilyReap(k.tasks, k.nextPid, c, t);
    var r := RecordOf(k1, c);
    ReplayEmit(k.trace, r);
    FamilyDistinct(k.tasks, k.nextPid);
    ProcessForgotten(cfg, Replay(k.trace), r, k.tasks, c, t);
    FamilyPrograms(k.tasks, k.nextPid, c);
  }

  lemma FamilyDistinct(tasks: seq<Task>, nextPid: nat)
    requires FamilyOk(tasks, nextPid)
    ensures DistinctIds(tasks)
  {
  }

  lemma FamilyPrograms(tasks: seq<Task>, nextPid: nat, i: nat)
    requires FamilyOk(tasks, nextPid) && i < |tasks| && tasks[i].state != Unused
    ensures tasks[i].program < 7 && 0 < tasks[i].id < nextPid
  {
    assert Citizen(tasks[i], nextPid);
  }

  /** The caller starts to wait and another task takes over. */
  lemma BlockKeeps(cfg: Config, k: Kernel, c: nat, pid: nat)
    requires Inv(cfg, k) && c < TASK_LIMIT && ChildOf(k.tasks[c], pid, k.tasks[k.current].id) && k.tasks[c].state != Exited
    ensures var k1 := SetTask(k, k.current, k.tasks[k.current].(state := Waiting, waitingFor := pid));
            Inv(cfg, Reschedule(ProcessEvent(k1, k.current)))
  {
    hide OwnOk, FamilyOk, TablesAgree, Replay, Apply, SlotsOk, Reschedule;
    var me := k.current;
    var t := k.tasks[me].(state := Waiting, waitingFor := pid);
    InvFamily(cfg, k);
    var k1 := SetTask(k, me, t);
    OwnFrame(cfg, k.m, k.m, k.tasks, k1.tasks, NOBODY, NOBODY);
    FamilyWait(k.tasks, k.nextPid, me, c);
    var r := RecordOf(k1, me);
    ReplayEmit(k.trace, r);
    FamilyDistinct(k.tasks, k.nextPid);
    ProcessTold(cfg, Replay(k.trace), r, k.tasks, me, t);
    FamilyPrograms(k.tasks, k.nextPid, me);
    var k2 := ProcessEvent(k1, me);
    assert k2 == Emit(k1, r);
    RescheduleKeeps(cfg, k2, me);
  }
}
