/** What the kernel reports and the host keeps, beyond the tables of the replica: the records of each step,
    the exact picture after a snapshot, and which records become events. */
module Observations {
  import opened Words
  import opened PageTables
  import opened TraceText
  import opened KernelModel
  import opened HostModel
  import opened Invariant
  import opened Replica
  import opened QuietSteps
  import opened Lifecycle
  import opened Exiting
  import opened Safety
  import opened StepTheorems
  import SystemCalls
  import Effects
  import Spawning
  import PageModel
  import RamFs
  import Build
  import RunSizes

  // ---- names ----

  function StateText(s: ProcessState): string {
    match s case Unused => "unused" case Ready => "ready" case Waiting => "waiting" case Exited => "exited"
  }

  function ProgramText(program: nat): string {
    if program == 0 then "init" else if program == 1 then "shell" else if program == 2 then "hello"
    else if program == 3 then "reader" else if program == 4 then "counter-a" else if program == 5 then "counter-b"
    else "fault"
  }

  lemma NamesAgree(t: Task)
    requires t.program < 7
    ensures STATES[t.state.Number()] == StateText(t.state) && ProgramName(t.program) == ProgramText(t.program)
  {
  }

  // ---- a snapshot ----

  /** The host's entries for slot `i` in full: also its slices, whether it runs, and its data word. */
  ghost predicate Shown(h: Host, k: Kernel, i: nat)
    requires Shaped(k) && i < TASK_LIMIT
  {
    var t := k.tasks[i];
    t.state != Unused ==>
      && t.id in h.processes
      && h.processes[t.id] == Process(t.parent, ProgramText(t.program), StateText(t.state), Hex(t.space.root * 4096), t.slices, i == k.current)
      && (t.state.Live() ==>
            t.id in h.data &&
            h.data[t.id] == DataEntry(Hex(0x600000), Hex(t.dataPage * 4096), Hex(Word(k.m.mem, t.dataPage, 0))))
  }

  lemma DataUntouched(h: Host, r: Record)
    requires !r.DataRecord? && !(r.ProcessRecord? && r.state == Unused)
    ensures Apply(h, r).data == h.data
  {
    hide Fields, Last, Hex, Interesting, Kind, ProgramName, PartName;
  }

  lemma DataEffect(h: Host, r: Record)
    requires r.DataRecord?
    ensures Apply(h, r).data == h.data[r.pid := DataEntry(Hex(r.va), Hex(r.pa), Hex(r.marker))] && Apply(h, r).processes == h.processes
  {
    hide Fields, Last, Hex;
  }

  lemma SnapshotEffect(h: Host, r: Record)
    requires r.MemoryRecord? || r.SnapshotRecord? || r.SnapshotEndRecord?
    ensures Apply(h, r).data == h.data && Apply(h, r).processes == h.processes
  {
    hide Fields, Last, Hex;
  }

  lemma {:induction false} MapTraceData(cfg: Config, trace: seq<Record>, tick: nat, t: Task, i: nat)
    ensures Replay(trace + MapTrace(cfg, tick, t, i)).data == Replay(trace).data
    decreases |t.pages| - i
  {
    hide Apply, Replay, MapRecordOf;
    if i >= |t.pages| {
      assert trace + MapTrace(cfg, tick, t, i) == trace;
    } else {
      var r := MapRecordOf(cfg, tick, t, i);
      IsMapRecord(cfg, tick, t, i);
      ReplayEmit(trace, r);
      DataUntouched(Replay(trace), r);
      MapTraceData(cfg, trace + [r], tick, t, i + 1);
      assert trace + [r] + MapTrace(cfg, tick, t, i + 1) == trace + MapTrace(cfg, tick, t, i);
    }
  }

  lemma IsMapRecord(cfg: Config, tick: nat, t: Task, i: nat)
    requires i < |t.pages|
    ensures MapRecordOf(cfg, tick, t, i).MapRecord?
  {
  }

  /** What the records of one slot show. */
  lemma SlotShown(cfg: Config, k: Kernel, i: nat)
    requires Inv(cfg, k) && i < TASK_LIMIT && k.tasks[i].state != Unused
    ensures var t, k1 := k.tasks[i], MappingsEvent(cfg, ProcessEvent(k, i), k.tasks[i]);
            var h, h1 := Replay(k.trace), Replay(k1.trace);
            && k1 == k.(trace := k1.trace) && Inv(cfg, k1) && Shown(h1, k, i)
            && (forall p :: p in h.processes && p != t.id ==> p in h1.processes && h1.processes[p] == h.processes[p])
            && (forall p :: p in h.data && p != t.id ==> p in h1.data && h1.data[p] == h.data[p])
  {
    hide Inv, FamilyOk, Told, MachineOk, Apply, Replay, Hex, MappingsEvent, ProgramName, StateText, ProgramText;
    InvParts(cfg, k);
    var t := k.tasks[i];
    var r := RecordOf(k, i);
    SlotTold(cfg, k, i);
    SlotMapsTold(cfg, ProcessEvent(k, i), i);
    ReplayEmit(k.trace, r);
    ProcessRecordEffect(Replay(k.trace), r);
    DataUntouched(Replay(k.trace), r);
    FamilyPrograms(k.tasks, k.nextPid, i);
    NamesAgree(t);
    OnlyOneRuns(cfg, k, i);
    if t.state.Live() {
      MapsShown(cfg, ProcessEvent(k, i), i);
    } else {
      SlotBare(cfg, k, i);
      NothingMapped(cfg, ProcessEvent(k, i), t);
    }
  }

  lemma OnlyOneRuns(cfg: Config, k: Kernel, i: nat)
    requires Inv(cfg, k) && i < TASK_LIMIT
    ensures i == k.current ==> k.tasks[i].state == Ready
  {
    hide OwnOk, FamilyOk, Told;
  }

  lemma SlotBare(cfg: Config, k: Kernel, i: nat)
    requires Inv(cfg, k) && i < TASK_LIMIT && !k.tasks[i].state.Live()
    ensures Bare(k.tasks[i])
  {
    hide FamilyOk, Told, Held, Apart, AllOwned, MachineOk;
    assert !Holder(k.tasks[i], i, NOBODY);
  }

  lemma MapsShown(cfg: Config, k: Kernel, i: nat)
    requires Inv(cfg, k) && i < TASK_LIMIT && k.tasks[i].state.Live()
    ensures var t, k1 := k.tasks[i], MappingsEvent(cfg, k, k.tasks[i]);
            var h, h1 := Replay(k.trace), Replay(k1.trace);
            && h1.processes == h.processes
            && h1.data == h.data[t.id := DataEntry(Hex(0x600000), Hex(t.dataPage * 4096), Hex(Word(k.m.mem, t.dataPage, 0)))]
  {
    hide FamilyOk, Replay, Apply, Apart, AllOwned, Held, MachineOk, ExpectedMaps, Hex, MapTrace, TablesAgree;
    var t := k.tasks[i];
    assert Holder(t, i, NOBODY);
    HeldRoot(cfg, k.m, t);
    MapEventsFacts(cfg, k, t, 0);
    var mid := k.trace + MapTrace(cfg, k.ticks, t, 0);
    MapTraceData(cfg, k.trace, k.ticks, t, 0);
    MapsKeepProcesses(cfg, k, t);
    ReplayEmit(mid, DataRecordOf(k, t));
    DataEffect(Replay(mid), DataRecordOf(k, t));
  }

  lemma {:induction false} MapTraceProcesses(cfg: Config, trace: seq<Record>, tick: nat, t: Task, i: nat)
    ensures Replay(trace + MapTrace(cfg, tick, t, i)).processes == Replay(trace).processes
    decreases |t.pages| - i
  {
    hide Apply, Replay, MapRecordOf, Hex, PartName;
    if i >= |t.pages| {
      assert trace + MapTrace(cfg, tick, t, i) == trace;
    } else {
      var r := MapRecordOf(cfg, tick, t, i);
      IsMapRecord(cfg, tick, t, i);
      ReplayEmit(trace, r);
      MapRecordEffect(Replay(trace), r);
      MapTraceProcesses(cfg, trace + [r], tick, t, i + 1);
      assert trace + [r] + MapTrace(cfg, tick, t, i + 1) == trace + MapTrace(cfg, tick, t, i);
    }
  }

  lemma MapsKeepProcesses(cfg: Config, k: Kernel, t: Task)
    ensures Replay(k.trace + MapTrace(cfg, k.ticks, t, 0)).processes == Replay(k.trace).processes
  {
    MapTraceProcesses(cfg, k.trace, k.ticks, t, 0);
  }

  lemma StillShown(h: Host, h1: Host, k: Kernel, j: nat, pid: nat)
    requires Shaped(k) && j < TASK_LIMIT && Shown(h, k, j) && (k.tasks[j].state != Unused ==> k.tasks[j].id != pid)
    requires forall p :: p in h.processes && p != pid ==> p in h1.processes && h1.processes[p] == h.processes[p]
    requires forall p :: p in h.data && p != pid ==> p in h1.data && h1.data[p] == h.data[p]
    ensures Shown(h1, k, j)
  {
    hide Hex, StateText, ProgramText;
  }

  lemma {:induction false} InspectShows(cfg: Config, k: Kernel, i: nat)
    requires Inv(cfg, k) && i <= TASK_LIMIT && forall j :: 0 <= j < i ==> Shown(Replay(k.trace), k, j)
    ensures var k' := InspectFrom(cfg, k, i);
            && k' == k.(trace := k'.trace) && Inv(cfg, k')
            && (forall j :: 0 <= j < TASK_LIMIT ==> Shown(Replay(k'.trace), k, j))
    decreases TASK_LIMIT - i
  {
    hide Inv, FamilyOk, Told, MachineOk, Replay, MappingsEvent, Shown;
    InvParts(cfg, k);
    if i < TASK_LIMIT {
      if k.tasks[i].state == Unused {
        UnusedShown(Replay(k.trace), k, i);
        InspectShows(cfg, k, i + 1);
      } else {
        SlotShown(cfg, k, i);
        var k1 := MappingsEvent(cfg, ProcessEvent(k, i), k.tasks[i]);
        var h, h1 := Replay(k.trace), Replay(k1.trace);
        forall j | 0 <= j < i
          ensures Shown(h1, k1, j)
        {
          IdsDiffer(cfg, k, j, i);
          StillShown(h, h1, k, j, k.tasks[i].id);
          SameShown(h1, k, k1, j);
        }
        SameShown(h1, k, k1, i);
        InvParts(cfg, k1);
        InspectShows(cfg, k1, i + 1);
        var k' := InspectFrom(cfg, k1, i + 1);
        forall j | 0 <= j < TASK_LIMIT ensures Shown(Replay(k'.trace), k, j) { SameShown(Replay(k'.trace), k, k1, j); }
      }
    }
  }

  lemma UnusedShown(h: Host, k: Kernel, i: nat)
    requires Shaped(k) && i < TASK_LIMIT && k.tasks[i].state == Unused
    ensures Shown(h, k, i)
  {
  }

  lemma SameShown(h: Host, k: Kernel, k1: Kernel, j: nat)
    requires Shaped(k) && Shaped(k1) && j < TASK_LIMIT && k1.tasks == k.tasks && k1.current == k.current && k1.m == k.m
    ensures Shown(h, k1, j) == Shown(h, k, j)
  {
    hide Hex, StateText, ProgramText;
  }

  lemma IdsDiffer(cfg: Config, k: Kernel, j: nat, i: nat)
    requires Inv(cfg, k) && j < i < TASK_LIMIT && k.tasks[i].state != Unused
    ensures k.tasks[j].state != Unused ==> k.tasks[j].id != k.tasks[i].id
  {
    hide OwnOk, Told, HasParent, HasChild;
  }

  /** After SYS_INSPECT the host knows everything about every process, zombies included: parent, program,
      state, root, slices, which one runs, and the first word of the data page of each live one. */
  lemma SnapshotIsExact(cfg: Config, k: Kernel, input: Input)
    requires Inv(cfg, k) && Calls(input, 15)
    ensures var k' := Step(cfg, k, input);
            forall j :: 0 <= j < TASK_LIMIT ==> Shown(Replay(k'.trace), k', j)
  {
    hide Inv, FamilyOk, Told, MachineOk, Step, Replay, Apply, Shown, InspectFrom;
    InvParts(cfg, k);
    SystemCalls.InspectCall(cfg, k, input);
    var k' := Step(cfg, k, input);
    var k1 := Enter(k, input.frame);
    EnterKeeps(cfg, k, input.frame);
    InvParts(cfg, k1);
    NeutralEmitKeeps(cfg, k1, SnapshotRecord(k1.ticks));
    var k2 := Emit(k1, SnapshotRecord(k1.ticks));
    InspectShows(cfg, k2, 0);
    var k3 := InspectFrom(cfg, k2, 0);
    InvParts(cfg, k3);
    var r, e := MemoryRecord(k3.ticks, |k3.m.pages.states|, k3.m.pages.free), SnapshotEndRecord(k3.ticks);
    ReplayEmit(k3.trace, r);
    ReplayEmit(k3.trace + [r], e);
    SnapshotEffect(Replay(k3.trace), r);
    SnapshotEffect(Replay(k3.trace + [r]), e);
    forall j | 0 <= j < TASK_LIMIT
      ensures Shown(Replay(k'.trace), k', j)
    {
      SameTables(Replay(k3.trace), Replay(k'.trace), k2, k', j);
    }
  }

  lemma SameTables(h: Host, h1: Host, k: Kernel, k1: Kernel, j: nat)
    requires Shaped(k) && Shaped(k1) && j < TASK_LIMIT && k1.current == k.current && k1.m == k.m
    requires k1.tasks[j] == k.tasks[j].(frame := k1.tasks[j].frame)
    requires h1.processes == h.processes && h1.data == h.data && Shown(h, k, j)
    ensures Shown(h1, k1, j)
  {
    hide Hex, StateText, ProgramText;
  }

  // ---- the records of exit, fault and wait ----

  /** A slot that does not run, as a process record shows it. */
  function Idle(tick: nat, t: Task): Record {
    ProcessRecord(tick, t.id, t.parent, t.program, t.state, t.space.root * 4096, t.slices, false)
  }

  lemma ExitRecords(cfg: Config, k: Kernel, status: nat)
    requires Inv(cfg, k) && k.tasks[k.current].program > PROGRAM_SHELL
    ensures var me, t, k' := k.current, k.tasks[k.current], Exit(k, status);
            var p := WaiterOf(k.tasks, t, 0);
            k'.trace == k.trace + [ExitRecord(k.ticks, t.id, status)]
                        + (if p < TASK_LIMIT then [Idle(k.ticks, k'.tasks[p])] else [])
                        + [Idle(k.ticks, k'.tasks[me]), MemoryRecord(k.ticks, |k'.m.pages.states|, k'.m.pages.free)]
  {
    hide OwnOk, FamilyOk, Told, WakeFrom, Reschedule, Spawning.Known, WaiterOf, ReleasePages, PageModel.Gave;
    WakeUp(cfg, k, status);
    var dying := k.current;
    var t := k.tasks[dying].(status := status, state := Exited);
    var p := WaiterOf(k.tasks, t, 0);
    Effects.SameWaiter(k.tasks, k.tasks[dying], t, 0);
    var k1 := Emit(SetTask(k, dying, t), ExitRecord(k.ticks, t.id, status));
    var w := WakeFrom(k1, t, 0, false);
    WakeRecords(cfg, k, status);
    TakeOver(cfg, w.k, k.tasks, dying, t, p);
    var k2 := Reschedule(w.k);
    DyingHeld(cfg, k2, dying);
    Spawning.ReleaseFactsAll(k2.m, k2.tasks[dying], k2.root);
  }

  lemma WakeRecords(cfg: Config, k: Kernel, status: nat)
    requires Inv(cfg, k) && k.tasks[k.current].program > PROGRAM_SHELL
    ensures var dying := k.current;
            var t := k.tasks[dying].(status := status, state := Exited);
            var p := WaiterOf(k.tasks, t, 0);
            var w := WakeFrom(Emit(SetTask(k, dying, t), ExitRecord(k.ticks, t.id, status)), t, 0, false);
            && w.k.trace == k.trace + [ExitRecord(k.ticks, t.id, status)] + (if p < TASK_LIMIT then [Idle(k.ticks, w.k.tasks[p])] else [])
            && w.k.ticks == k.ticks && (p < TASK_LIMIT ==> p != dying)
  {
    hide OwnOk, Told, WaiterOf, WakeFrom, HasParent, HasChild, RamFs.SlotsOk;
    var dying := k.current;
    var t := k.tasks[dying].(status := status, state := Exited);
    var p := WaiterOf(k.tasks, t, 0);
    OneWaiter(k.tasks, k.nextPid, t, p);
    var k1 := Emit(SetTask(k, dying, t), ExitRecord(k.ticks, t.id, status));
    if p < TASK_LIMIT {
      assert p != dying;
      WakeOne(k1, t, 0, p);
    } else {
      WakeNone(k1, t, 0, false);
    }
  }

  /** What a step reports: for the end of a process its status, the parent it woke, the slot it left and the
      pages that came back, after the fault record if a fault ended it. */
  lemma EndReported(cfg: Config, k: Kernel, input: Input)
    requires Inv(cfg, k) && Doom(k, input) == None && ExitStatus(input).Some?
    ensures var me, t, k' := k.current, k.tasks[k.current], Step(cfg, k, input);
            var f := input.frame;
            var p := WaiterOf(k.tasks, t, 0);
            k'.trace == k.trace
                        + (if Faults(input) then [FaultRecord(k.ticks, t.id, f.vector, f.error, if f.vector == 14 then input.cr2 else 0, f.rip, 3)] else [])
                        + [ExitRecord(k.ticks, t.id, if Faults(input) then 128 + f.vector else f.rdi)]
                        + (if p < TASK_LIMIT then [Idle(k.ticks, k'.tasks[p])] else [])
                        + [Idle(k.ticks, k'.tasks[me]), MemoryRecord(k.ticks, |k'.m.pages.states|, k'.m.pages.free)]
  {
    hide Inv, FamilyOk, Told, MachineOk, Exit, WaiterOf, FaultText;
    InvParts(cfg, k);
    var f := input.frame;
    EnterKeeps(cfg, k, f);
    var k1 := Enter(k, f);
    InvParts(cfg, k1);
    SameWaiters(k.tasks, k1.tasks, k.tasks[k.current], k1.tasks[k1.current], 0);
    if Faults(input) {
      NoteFaultKeeps(cfg, k1, if f.vector == 14 then input.cr2 else 0);
      ExitRecords(cfg, NoteFault(k1, if f.vector == 14 then input.cr2 else 0), 128 + f.vector);
    } else {
      ExitRecords(cfg, k1, f.rdi);
      NoRecord(k.trace);
    }
  }

  lemma NoRecord(trace: seq<Record>)
    ensures trace + [] == trace
  {
  }

  /** Wait reports itself, and then the zombie it reaped or the caller that now waits. */
  lemma WaitReported(cfg: Config, k: Kernel, input: Input)
    requires Inv(cfg, k) && Calls(input, 10)
    ensures var me, t, k' := k.current, k.tasks[k.current], Step(cfg, k, input);
            var c := FindChild(k.tasks, input.frame.rdi, t.id, 0);
            k'.trace == k.trace + [WaitRecord(k.ticks, t.id, input.frame.rdi)] +
                        if c >= TASK_LIMIT then []
                        else if k.tasks[c].state == Exited then [Idle(k.ticks, k'.tasks[c])]
                        else [Idle(k.ticks, k'.tasks[me])]
  {
    hide Inv, FamilyOk, Told, MachineOk, WaitChild, FindChild;
    InvParts(cfg, k);
    var f := input.frame;
    EnterKeeps(cfg, k, f);
    var k1 := Enter(k, f);
    SameChildren(k.tasks, k1.tasks, f.rdi, k.tasks[k.current].id, 0);
    WaitRecords(cfg, k1, f.rdi);
  }

  lemma WaitRecords(cfg: Config, k: Kernel, pid: nat)
    requires Inv(cfg, k)
    ensures var me, k' := k.current, WaitChild(k, pid);
            var c := FindChild(k.tasks, pid, k.tasks[me].id, 0);
            k'.trace == k.trace + [WaitRecord(k.ticks, k.tasks[me].id, pid)] +
                        if c >= TASK_LIMIT then []
                        else if k.tasks[c].state == Exited then [Idle(k.ticks, k'.tasks[c])]
                        else [Idle(k.ticks, k'.tasks[me])]
  {
    hide OwnOk, FamilyOk, Told, ReadyFrom, FindChild;
    FindChildFacts(k.tasks, pid, k.tasks[k.current].id, 0);
    NoOwnChild(cfg, k, pid);
    WaitKeeps(cfg, k, pid);
  }

  /** A spawn that succeeds reports the spawn, the new slot, all its mappings, its data word, the pages left,
      and the call. */
  lemma SpawnReported(cfg: Config, k: Kernel, input: Input)
    requires Inv(cfg, k) && Calls(input, 9) && SystemCalls.Allowed(k.tasks[k.current].program, input.frame.rdi)
    requires FindUnused(k.tasks, 0) < TASK_LIMIT && Build.Price(cfg) <= k.m.pages.free
    ensures var f, t, k' := input.frame, k.tasks[k.current], Step(cfg, k, input);
            var born := k'.tasks[FindUnused(k.tasks, 0)];
            k'.trace == k.trace + [SpawnRecord(k.ticks, k.nextPid, t.id, f.rdi), Idle(k.ticks, born)]
                        + MapTrace(cfg, k.ticks, born, 0)
                        + [DataRecord(k.ticks, k.nextPid, 0x600000, born.dataPage * 4096, Word(k'.m.mem, born.dataPage, 0)),
                           MemoryRecord(k.ticks, |k'.m.pages.states|, k'.m.pages.free),
                           SyscallRecord(k.ticks, t.id, 9, f.rdi, f.rsi, f.rdx, k.nextPid)]
  {
    hide Inv, FamilyOk, Told, MachineOk, Service, Spawn, Finish, FindUnused, Build.Price, MapTrace;
    InvParts(cfg, k);
    var f := input.frame;
    var k1 := Enter(k, f);
    SystemCalls.Dispatched(cfg, k, input);
    SystemCalls.ServiceTable(cfg, k1, f, input.serial);
    SystemCalls.SameUnused(k, f);
    Spawning.FindUnusedFacts(k.tasks, 0);
    SpawnRecords(cfg, k1, f.rdi);
    FinishRecord(Spawn(cfg, k1, f.rdi, k.tasks[k.current].id).k, f, k.nextPid);
    Effects.SpawnEffect(cfg, k1, f.rdi);
    CurrentUsed(cfg, k);
  }

  lemma CurrentUsed(cfg: Config, k: Kernel)
    requires Inv(cfg, k)
    ensures k.tasks[k.current].state == Ready
  {
    hide OwnOk, FamilyOk, Told;
  }

  lemma FinishRecord(k: Kernel, f: Frame, result: int)
    requires Shaped(k) && f.rax == 9
    ensures var k' := Finish(k, f, result);
            && k'.trace == k.trace + [SyscallRecord(k.ticks, k.tasks[k.current].id, 9, f.rdi, f.rsi, f.rdx, result)]
            && k'.m == k.m && (forall i :: 0 <= i < TASK_LIMIT && i != k.current ==> k'.tasks[i] == k.tasks[i])
  {
  }

  lemma SpawnRecords(cfg: Config, k: Kernel, program: nat)
    requires Inv(cfg, k) && MaySpawn(k.tasks[k.current], program)
    requires FindUnused(k.tasks, 0) < TASK_LIMIT && Build.Price(cfg) <= k.m.pages.free
    ensures var t, k' := k.tasks[k.current], Spawn(cfg, k, program, k.tasks[k.current].id).k;
            var born := k'.tasks[FindUnused(k.tasks, 0)];
            k'.trace == k.trace + [SpawnRecord(k.ticks, k.nextPid, t.id, program), Idle(k.ticks, born)]
                        + MapTrace(cfg, k.ticks, born, 0)
                        + [DataRecord(k.ticks, k.nextPid, 0x600000, born.dataPage * 4096, Word(k'.m.mem, born.dataPage, 0)),
                           MemoryRecord(k.ticks, |k'.m.pages.states|, k'.m.pages.free)]
  {
    hide Inv, FamilyOk, Told, MachineOk, Spawn, FindUnused, Build.Price, MapTrace, Prepare, Announce, Held, Build.Holding, Build.Fresh;
    InvParts(cfg, k);
    var parent := k.tasks[k.current].id;
    var i := FindUnused(k.tasks, 0);
    Spawning.FindUnusedFacts(k.tasks, 0);
    CurrentUsed(cfg, k);
    Effects.SpawnEffect(cfg, k, program);
    RunSizes.SpawnIsAnnounced(cfg, k, program, parent);
    var b := Prepare(cfg, k.m, NewTask(k, program, parent));
    var k1 := SetTask(k.(nextPid := k.nextPid + 1, m := b.m), i, b.task.(state := Ready));
    RunSizes.AnnounceKeeps(cfg, k1, i);
    Spawning.HoldingMachine(k.m, Spawn(cfg, k, program, parent).k.m, k1.tasks[i]);
    AnnounceRecords(cfg, k1, i);
  }

  lemma AnnounceRecords(cfg: Config, k: Kernel, i: nat)
    requires Build.ConfigOk(cfg) && Shaped(k) && MachineOk(k.m) && i < TASK_LIMIT && i != k.current && k.panic == None
    requires Held(cfg, k.m, k.tasks[i])
    ensures var t, k' := k.tasks[i], Announce(cfg, k, i);
            && k'.m == k.m && k'.tasks == k.tasks
            && k'.trace == k.trace + [SpawnRecord(k.ticks, t.id, t.parent, t.program), Idle(k.ticks, t)]
                        + MapTrace(cfg, k.ticks, t, 0)
                        + [DataRecord(k.ticks, t.id, 0x600000, t.dataPage * 4096, Word(k.m.mem, t.dataPage, 0)),
                           MemoryRecord(k.ticks, |k.m.pages.states|, k.m.pages.free)]
  {
    hide Held, MachineOk, MapTrace, MapEvents;
    var t := k.tasks[i];
    HeldRoot(cfg, k.m, t);
    var k1 := ProcessEvent(Emit(k, SpawnRecord(k.ticks, t.id, t.parent, t.program)), i);
    MapEventsFacts(cfg, k1, t, 0);
  }

  /** A switch and a system call tell the host which process is running: that one and no other. */
  lemma RunningShown(h: Host, r: Record)
    requires r.ScheduleRecord? || r.SyscallRecord?
    ensures var h' := Apply(h, r);
            var pid := if r.ScheduleRecord? then r.to else r.pid;
            && h'.processes.Keys == h.processes.Keys
            && (forall p :: p in h.processes ==> h'.processes[p] == h.processes[p].(running := p == pid))
  {
    hide Fields, Last, Interesting, Kind;
  }

  // ---- events ----

  lemma ChangeKeepsEvents(h: Host, r: Record)
    ensures Change(h, r).events == h.events && Change(h, r).sequence == h.sequence && Change(h, r).ticks == h.ticks
  {
    hide Hex;
  }

  lemma InterestingKinds(h: Host, r: Record)
    ensures Interesting(h, r) <==> match r
              case MemoryRecord(_, _, free) => free != h.free
              case DataRecord(_, pid, _, pa, marker) =>
                !(pid in h.data && h.data[pid].pa == Hex(pa) && h.data[pid].marker == Hex(marker))
              case ProcessRecord(_, _, _, _, _, _, _, _) => false
              case MapRecord(_, _, _, _, _, _) => false
              case SnapshotRecord(_) => false
              case SnapshotEndRecord(_) => false
              case _ => true
  {
    hide Hex;
  }

  lemma WindowIsLast(events: seq<Event>)
    ensures Last(events) == if |events| <= 2000 then events else events[|events| - 2000..]
  {
  }

  /** Which records the host keeps as events: the seven kinds that say that something happened, a memory
      record when the free count is new, and a data record when the page or its word is new; never process,
      map or snapshot records. A kept record is the last event, numbered by its place in the whole trace, and
      the window holds the last 2000. The host's clock never goes back. */
  lemma EventsKept(h: Host, r: Record)
    ensures var h' := Apply(h, r);
            && h'.sequence == h.sequence + 1 && h'.ticks == (if h.ticks < r.tick then r.tick else h.ticks)
            && var kept := match r
                 case MemoryRecord(_, _, free) => free != h.free
                 case DataRecord(_, pid, _, pa, marker) =>
                   !(pid in h.data && h.data[pid].pa == Hex(pa) && h.data[pid].marker == Hex(marker))
                 case ProcessRecord(_, _, _, _, _, _, _, _) => false
                 case MapRecord(_, _, _, _, _, _) => false
                 case SnapshotRecord(_) => false
                 case SnapshotEndRecord(_) => false
                 case _ => true;
               if !kept then h'.events == h.events
               else
                 var all := h.events + [Event(h.sequence + 1, Kind(r), r.tick, Fields(r))];
                 h'.events == if |all| <= 2000 then all else all[|all| - 2000..]
  {
    hide Hex, Fields, Change, Interesting, Kind, Last;
    ChangeKeepsEvents(Noted(h, r), r);
    InterestingKinds(h, r);
    WindowIsLast(h.events + [Event(h.sequence + 1, Kind(r), r.tick, Fields(r))]);
  }
}
