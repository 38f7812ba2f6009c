/** Every record of every run prints 64-bit words: registers are 64 bits wide, and there are fewer than
    2^32 spawns. So the kernel's own trace never makes the host's reader give up. */
module RunSizes {
  import opened Words
  import opened PageModel
  import opened PageTables
  import UserCopy
  import opened RamFs
  import opened KernelModel
  import HostModel
  import opened RecordSizes
  import opened Invariant
  import QuietSteps
  import opened Spawning
  import opened Lifecycle
  import Exiting
  import opened Safety
  import Effects
  import StepTheorems
  import Build
  import Delivery
  import TraceText

  const PID_LIMIT: nat := 0x1_0000_0000

  /** The registers of an entry are 64-bit words, and its vector is a byte. */
  predicate WordInput(input: Input) {
    input.Trap? ==>
      var f := input.frame;
      f.rax < WORD_LIMIT && f.rdi < WORD_LIMIT && f.rsi < WORD_LIMIT && f.rdx < WORD_LIMIT && f.error < WORD_LIMIT && f.vector < 256
  }

  predicate SmallTask(t: Task) {
    t.id < WORD_LIMIT && t.parent < WORD_LIMIT && t.program < WORD_LIMIT && t.status < WORD_LIMIT && t.slices < WORD_LIMIT
  }

  ghost predicate Small(k: Kernel) {
    && Shaped(k) && k.ticks < WORD_LIMIT && AllSized(k.trace)
    && forall i :: 0 <= i < TASK_LIMIT ==> SmallTask(k.tasks[i])
  }

  /** The page counts are far below 2^64. */
  lemma {:induction false} CountBound(states: seq<PageState>)
    ensures CountFree(states) <= |states|
  {
    if states != [] {
      CountBound(states[..|states| - 1]);
    }
  }

  lemma EmitSmall(k: Kernel, r: Record)
    requires Small(k) && Sized(r)
    ensures Small(Emit(k, r))
  {
  }

  lemma SetTaskSmall(k: Kernel, i: nat, t: Task)
    requires Small(k) && i < TASK_LIMIT && SmallTask(t)
    ensures Small(SetTask(k, i, t))
  {
  }

  lemma ProcessSmall(k: Kernel, i: nat)
    requires Small(k) && i < TASK_LIMIT
    ensures Small(ProcessEvent(k, i))
  {
    var t := k.tasks[i];
    assert SmallTask(t);
    EmitSmall(k, ProcessRecord(k.ticks, t.id, t.parent, t.program, t.state, t.space.root * 4096, t.slices,
                               i == k.current && t.state == Ready));
  }

  lemma MemorySmall(k: Kernel)
    requires Small(k) && MachineOk(k.m)
    ensures Small(MemoryEvent(k))
  {
    CountBound(k.m.pages.states);
    EmitSmall(k, MemoryRecord(k.ticks, |k.m.pages.states|, k.m.pages.free));
  }

  lemma {:induction false} MapSmall(cfg: Config, k: Kernel, t: Task, i: nat)
    requires Small(k) && t.id < WORD_LIMIT
    ensures Small(MapEvents(cfg, k, t, i))
    decreases CodePages(cfg) + 3 - i
  {
    hide Small, AllSized, Lookup, LayoutAddress, PageData, Word;
    var code := CodePages(cfg);
    TicksSmall(k);
    if i >= code + 3 {
      FailSmall(k, KernelFault);
      EmitSmall(k, DataRecord(k.ticks, t.id, USER_DATA, t.dataPage * 4096, Word(k.m.mem, t.dataPage, 0)));
    } else {
      match Lookup(k.m.mem, t.space, LayoutAddress(code, i)) {
        case None => FailSmall(k, MappingDisappeared);
        case Some(x) =>
          var r := MapRecord(k.ticks, t.id, LayoutAddress(code, i), x.physical, x.rights.Bits(), LayoutPart(code, i));
          EmitSmall(k, r);
          MapSmall(cfg, Emit(k, r), t, i + 1);
      }
    }
  }

  lemma TicksSmall(k: Kernel)
    requires Small(k)
    ensures k.ticks < WORD_LIMIT && Shaped(k) && (forall i :: 0 <= i < TASK_LIMIT ==> SmallTask(k.tasks[i]))
  {
  }

  lemma FailSmall(k: Kernel, p: Panic)
    requires Small(k)
    ensures Small(Fail(k, p))
  {
  }

  lemma {:induction false} InspectFromSmall(cfg: Config, k: Kernel, i: nat)
    requires Small(k) && i <= TASK_LIMIT
    ensures Small(InspectFrom(cfg, k, i))
    decreases TASK_LIMIT - i
  {
    hide Small, MapEvents;
    TicksSmall(k);
    if i < TASK_LIMIT {
      if k.tasks[i].state == Unused {
        InspectFromSmall(cfg, k, i + 1);
      } else {
        ProcessSmall(k, i);
        var k0 := ProcessEvent(k, i);
        MapSmall(cfg, k0, k.tasks[i], 0);
        InspectFromSmall(cfg, MappingsEvent(cfg, k0, k.tasks[i]), i + 1);
      }
    }
  }

  lemma InspectSmall(cfg: Config, k: Kernel)
    requires Inv(cfg, k) && Small(k)
    ensures Small(Inspect(cfg, k))
  {
    hide Inv, FamilyOk, Told, MachineOk, Small, InspectFrom;
    TicksSmall(k);
    InspectKeeps(cfg, k);
    InvParts(cfg, k);
    var k0 := Emit(k, SnapshotRecord(k.ticks));
    EmitSmall(k, SnapshotRecord(k.ticks));
    QuietSteps.NeutralEmitKeeps(cfg, k, SnapshotRecord(k.ticks));
    InspectFromSmall(cfg, k0, 0);
    InspectFromKeeps(cfg, k0, 0);
    var k1 := InspectFrom(cfg, k0, 0);
    MemorySmall(k1);
    TicksSmall(k1);
    EmitSmall(MemoryEvent(k1), SnapshotEndRecord(k1.ticks));
  }

  lemma AnnounceSmall(cfg: Config, k: Kernel, i: nat)
    requires Small(k) && i < TASK_LIMIT && MachineOk(k.m) && Announce(cfg, k, i).panic == None && k.panic == None
    ensures Small(Announce(cfg, k, i))
  {
    hide Small, MapEvents, MachineOk;
    TicksSmall(k);
    var t := k.tasks[i];
    var r := SpawnRecord(k.ticks, t.id, t.parent, t.program);
    EmitSmall(k, r);
    ProcessSmall(Emit(k, r), i);
    var k1 := ProcessEvent(Emit(k, r), i);
    MapSmall(cfg, k1, t, 0);
    MappingsSameMachine(cfg, k1, t, 0);
    MemorySmall(MappingsEvent(cfg, k1, t));
  }

  lemma {:induction false} MappingsSameMachine(cfg: Config, k: Kernel, t: Task, i: nat)
    requires Shaped(k)
    ensures MapEvents(cfg, k, t, i).m == k.m && MapEvents(cfg, k, t, i).tasks == k.tasks
    decreases CodePages(cfg) + 3 - i
  {
    hide Lookup, LayoutAddress, PageData, Word;
    var code := CodePages(cfg);
    if i < code + 3 && Lookup(k.m.mem, t.space, LayoutAddress(code, i)).Some? {
      var x := Lookup(k.m.mem, t.space, LayoutAddress(code, i)).value;
      MappingsSameMachine(cfg, Emit(k, MapRecord(k.ticks, t.id, LayoutAddress(code, i), x.physical, x.rights.Bits(), LayoutPart(code, i))), t, i + 1);
    }
  }

  // ---- spawn ----

  lemma SpawnIsAnnounced(cfg: Config, k: Kernel, program: nat, parent: nat)
    requires Shaped(k) && |cfg.boot| == 512 && FindUnused(k.tasks, 0) < TASK_LIMIT
    requires Spawn(cfg, k, program, parent).result != -5
    ensures var i, b := FindUnused(k.tasks, 0), Prepare(cfg, k.m, NewTask(k, program, parent));
            Spawn(cfg, k, program, parent).k ==
            Announce(cfg, SetTask(k.(nextPid := k.nextPid + 1, m := b.m), i, b.task.(state := Ready)), i)
  {
    hide Prepare, Announce, ReleasePages;
  }

  lemma AnnounceKeeps(cfg: Config, k: Kernel, i: nat)
    requires Shaped(k) && i < TASK_LIMIT
    ensures Announce(cfg, k, i).m == k.m && Announce(cfg, k, i).tasks == k.tasks
  {
    hide MapEvents;
    var t := k.tasks[i];
    var k1 := ProcessEvent(Emit(k, SpawnRecord(k.ticks, t.id, t.parent, t.program)), i);
    MappingsSameMachine(cfg, k1, t, 0);
  }

  lemma UndoneSmall(k: Kernel, k': Kernel, i: nat)
    requires Small(k) && i < TASK_LIMIT && Undone(k, k', i)
    ensures Small(k')
  {
    hide AllSized, MemoryOk, SamePages;
  }

  lemma SpawnedSmall(cfg: Config, k: Kernel, program: nat, parent: nat, i: nat)
    requires Small(k) && |cfg.boot| == 512 && k.nextPid < WORD_LIMIT && program < WORD_LIMIT && parent < WORD_LIMIT
    requires i == FindUnused(k.tasks, 0) && i < TASK_LIMIT && k.panic == None
    requires Spawn(cfg, k, program, parent).result != -5 && Spawn(cfg, k, program, parent).k.panic == None
    requires Spawned(cfg, k, Spawn(cfg, k, program, parent).k, i, program, parent)
    requires MachineOk(Spawn(cfg, k, program, parent).k.m)
    ensures Small(Spawn(cfg, k, program, parent).k)
  {
    hide Spawn, Held, Build.Holding, Build.Fresh, Build.Price, FindUnused, Announce, Prepare, MachineOk, AllSized;
    SpawnIsAnnounced(cfg, k, program, parent);
    var b := Prepare(cfg, k.m, NewTask(k, program, parent));
    var k1 := SetTask(k.(nextPid := k.nextPid + 1, m := b.m), i, b.task.(state := Ready));
    AnnounceKeeps(cfg, k1, i);
    assert SmallTask(k1.tasks[i]);
    AnnounceSmall(cfg, k1, i);
  }

  lemma SpawnSmall(cfg: Config, k: Kernel, program: nat)
    requires Inv(cfg, k) && Small(k) && MaySpawn(k.tasks[k.current], program) && k.nextPid < WORD_LIMIT
    ensures Small(Spawn(cfg, k, program, k.tasks[k.current].id).k)
  {
    hide Inv, FamilyOk, Told, MachineOk, Small, Spawn, Undone, Spawned, Build.Price, FindUnused;
    InvParts(cfg, k);
    TicksSmall(k);
    var i := FindUnused(k.tasks, 0);
    FindUnusedFacts(k.tasks, 0);
    Effects.SpawnEffect(cfg, k, program);
    SpawnKeeps(cfg, k, program);
    var o := Spawn(cfg, k, program, k.tasks[k.current].id);
    InvParts(cfg, o.k);
    if i < TASK_LIMIT {
      if k.m.pages.free < Build.Price(cfg) {
        UndoneSmall(k, o.k, i);
      } else {
        SpawnedSmall(cfg, k, program, k.tasks[k.current].id, i);
      }
    }
  }

  // ---- exit, wait and tick ----

  lemma {:induction false} WakeSmall(k: Kernel, child: Task, i: nat, reaped: bool)
    requires Small(k) && i <= TASK_LIMIT && child.status < WORD_LIMIT
    ensures Small(WakeFrom(k, child, i, reaped).k)
    decreases TASK_LIMIT - i
  {
    hide Small, ProcessEvent;
    TicksSmall(k);
    if i < TASK_LIMIT {
      if WaitsFor(k.tasks[i], child) {
        var p := k.tasks[i];
        var t := p.(frame := p.frame.(rax := child.status), state := Ready);
        SetTaskSmall(k, i, t);
        ProcessSmall(SetTask(k, i, t), i);
        WakeSmall(ProcessEvent(SetTask(k, i, t), i), child, i + 1, true);
      } else {
        WakeSmall(k, child, i + 1, reaped);
      }
    }
  }

  lemma RescheduleSmall(k: Kernel)
    requires Small(k)
    ensures Small(Reschedule(k))
  {
    hide ReadyFrom, AllSized;
  }

  lemma ReleasedTask(m: Machine, t: Task, active: nat)
    requires ReleasePages(m, t, active).Released? && SmallTask(t)
    ensures SmallTask(ReleasePages(m, t, active).task)
  {
    hide ReleaseAll, ReleaseBack;
  }

  lemma BurySmall(k: Kernel, dying: nat, reaped: bool)
    requires Small(k) && dying < TASK_LIMIT && k.panic == None
    requires Bury(k, dying, reaped).panic == None && MachineOk(Bury(k, dying, reaped).m)
    ensures Small(Bury(k, dying, reaped))
  {
    hide ReleasePages, Small, MachineOk, SmallTask;
    TicksSmall(k);
    var r := ReleasePages(k.m, k.tasks[dying], k.root);
    if r.Released? {
      ReleasedTask(k.m, k.tasks[dying], k.root);
      var t := if reaped then r.task.(state := Unused) else r.task;
      StateSmall(r.task, Unused);
      MachineSmall(k, r.m);
      SetTaskSmall(k.(m := r.m), dying, t);
      ProcessSmall(SetTask(k.(m := r.m), dying, t), dying);
      MemorySmall(ProcessEvent(SetTask(k.(m := r.m), dying, t), dying));
    }
  }

  lemma StateSmall(t: Task, state: ProcessState)
    requires SmallTask(t)
    ensures SmallTask(t.(state := state))
  {
  }

  lemma MachineSmall(k: Kernel, m: Machine)
    requires Small(k)
    ensures Small(k.(m := m))
  {
  }

  lemma ExitSmall(cfg: Config, k: Kernel, status: nat)
    requires Inv(cfg, k) && Small(k) && k.tasks[k.current].program > PROGRAM_SHELL && status < WORD_LIMIT
    ensures Small(Exit(k, status))
  {
    Exiting.ExitKeeps(cfg, k, status);
    hide Inv, FamilyOk, Told, MachineOk, Small, WakeFrom, Reschedule, Bury;
    TicksSmall(k);
    InvParts(cfg, Exit(k, status));
    var dying := k.current;
    var t := k.tasks[dying].(status := status, state := Exited);
    var k1 := Emit(SetTask(k, dying, t), ExitRecord(k.ticks, t.id, status));
    SetTaskSmall(k, dying, t);
    EmitSmall(SetTask(k, dying, t), ExitRecord(k.ticks, t.id, status));
    WakeSmall(k1, t, 0, false);
    var w := WakeFrom(k1, t, 0, false);
    RescheduleSmall(w.k);
    var k2 := Reschedule(w.k);
    if k2.panic == None {
      BurySmall(k2, dying, w.reaped);
    }
  }

  lemma WaitSmall(k: Kernel, pid: nat)
    requires Small(k) && pid < WORD_LIMIT
    ensures Small(WaitChild(k, pid))
  {
    hide Small, FindChild, Reschedule;
    TicksSmall(k);
    var me := k.current;
    var r := WaitRecord(k.ticks, k.tasks[me].id, pid);
    EmitSmall(k, r);
    var k1 := Emit(k, r);
    var c := FindChild(k.tasks, pid, k.tasks[me].id, 0);
    if c >= TASK_LIMIT {
      RaxSmall(k1, me, Unsigned(-3));
    } else if k.tasks[c].state == Exited {
      RaxSmall(k1, me, k.tasks[c].status);
      var k2 := SetRax(k1, me, k.tasks[c].status);
      TicksSmall(k2);
      SetTaskSmall(k2, c, k2.tasks[c].(state := Unused));
      ProcessSmall(SetTask(k2, c, k2.tasks[c].(state := Unused)), c);
    } else {
      var t := k1.tasks[me].(state := Waiting, waitingFor := pid);
      SetTaskSmall(k1, me, t);
      ProcessSmall(SetTask(k1, me, t), me);
      RescheduleSmall(ProcessEvent(SetTask(k1, me, t), me));
    }
  }

  lemma RaxSmall(k: Kernel, i: nat, value: nat)
    requires Small(k) && i < TASK_LIMIT
    ensures Small(SetRax(k, i, value))
  {
    hide AllSized;
  }

  lemma TickSmall(k: Kernel)
    requires Small(k)
    ensures Small(Tick(k))
  {
    hide ReadyFrom;
    var t := k.tasks[k.current];
    assert SmallTask(t);
    var k1 := SetTask(k, k.current, t.(slices := (t.slices + 1) % 0x1_0000_0000)).(ticks := (k.ticks + 1) % 0x1_0000_0000_0000_0000);
    assert Small(k1);
    if NextReady(k1).Some? && NextReady(k1).value < TASK_LIMIT {
      var next := NextReady(k1).value;
      assert SmallTask(k1.tasks[next]);
      EmitSmall(k1, ScheduleRecord(k1.ticks, t.id, k1.tasks[next].id, k1.tasks[next].space.root * 4096, 3));
    }
  }

  // ---- system calls ----

  lemma DeliverSmall(k: Kernel, address: nat, bytes: seq<nat>, result: int)
    requires Small(k)
    ensures Small(Deliver(k, address, bytes, result).k)
  {
    hide AllSized;
  }

  lemma FilesSmall(k: Kernel, files: seq<OpenFile>)
    requires Small(k)
    ensures Small(SetFiles(k, files))
  {
    hide AllSized;
  }

  predicate WordResult(result: int) { 0 < result + WORD_LIMIT && result < WORD_LIMIT }

  lemma ReadSmall(k: Kernel, f: Frame)
    requires Small(k) && SlotsOk(RAM_FILES, k.tasks[k.current].files) && f.rdx < WORD_LIMIT
    ensures Small(SysRead(k, f).k) && WordResult(SysRead(k, f).result)
  {
    hide Small, SlotsOk, RAM_FILES, InRange, Read, SetFiles;
    TicksSmall(k);
    ReadBound(RAM_FILES, k.tasks[k.current].files, f.rdi, f.rdx);
    var c := Read(RAM_FILES, k.tasks[k.current].files, f.rdi, f.rdx);
    FilesSmall(k, c.slots);
    DeliverSmall(SetFiles(k, c.slots), f.rsi, c.bytes, c.result);
  }

  lemma CloseSmall(k: Kernel, f: Frame)
    requires Small(k)
    ensures Small(SysClose(k, f).k) && WordResult(SysClose(k, f).result)
  {
    hide Small, Close, SetFiles;
    TicksSmall(k);
    CloseBound(k.tasks[k.current].files, f.rdi);
    FilesSmall(k, Close(k.tasks[k.current].files, f.rdi).slots);
  }

  lemma ReportsSmall(k: Kernel, f: Frame, serial: int)
    requires Small(k)
    ensures Small(SysInput(k, f, serial).k) && WordResult(SysInput(k, f, serial).result)
    ensures Small(SysProcess(k, f).k) && WordResult(SysProcess(k, f).result)
    ensures Small(SysFile(k, f).k) && WordResult(SysFile(k, f).result)
    ensures Small(SysMemory(k, f).k) && WordResult(SysMemory(k, f).result)
  {
    hide Small, InRange, ProcessInfo, FileInfo, LittleEndian, RAM_FILES;
    TicksSmall(k);
    DeliverSmall(k, f.rdi, [serial % 256], 1);
    if f.rdi < TASK_LIMIT {
      DeliverSmall(k, f.rsi, ProcessInfo(k.tasks[f.rdi]), 1);
    }
    if f.rdi < |RAM_FILES| {
      DeliverSmall(k, f.rsi, FileInfo(RAM_FILES[f.rdi]), 1);
    }
    DeliverSmall(k, f.rdi, LittleEndian(|k.m.pages.states|) + LittleEndian(k.m.pages.free), 0);
  }

  /** The calls that neither spawn nor inspect write no record, and answer a word. */
  lemma QuietSmall(cfg: Config, k: Kernel, f: Frame, serial: int)
    requires Small(k) && |cfg.boot| == 512 && SlotsOk(RAM_FILES, k.tasks[k.current].files)
    requires f.rsi < WORD_LIMIT && f.rdx < WORD_LIMIT && f.rax !in {9, 15}
    ensures var o := Service(cfg, k, f, serial);
            Small(o.k) && (f.rax != 2 ==> WordResult(o.result))
  {
    hide Small, SlotsOk, RAM_FILES, SysWrite, SysOpen, SysRead, SysClose, SysInput, SysProcess, SysFile, SysMemory, SysSpawn, Inspect;
    TicksSmall(k);
    match f.rax
    case 1 => WriteSmall(k, f);
    case 5 => OpenSmall(k, f);
    case 6 => ReadSmall(k, f);
    case 7 => CloseSmall(k, f);
    case 11 => ReportsSmall(k, f, serial);
    case 12 => ReportsSmall(k, f, serial);
    case 13 => ReportsSmall(k, f, serial);
    case 14 => ReportsSmall(k, f, serial);
    case _ =>
  }

  lemma WriteSmall(k: Kernel, f: Frame)
    requires Small(k) && f.rsi < WORD_LIMIT
    ensures Small(SysWrite(k, f).k) && WordResult(SysWrite(k, f).result)
  {
    hide AllSized, InRange, UserCopy.CopyIn;
  }

  lemma OpenSmall(k: Kernel, f: Frame)
    requires Small(k) && SlotsOk(RAM_FILES, k.tasks[k.current].files)
    ensures Small(SysOpen(k, f).k) && WordResult(SysOpen(k, f).result)
  {
    hide Small, SlotsOk, RAM_FILES, InRange, UserCopy.CopyIn, Open, SetFiles;
    TicksSmall(k);
    forall p: Panic ensures Small(Fail(k, p)) { FailSmall(k, p); }
    if InRange(k, f.rdi, f.rsi, false) && UserCopy.CopyIn(k.m.mem, Active(k), f.rdi, f.rsi).Some? {
      var name := UserCopy.CopyIn(k.m.mem, Active(k), f.rdi, f.rsi).value;
      OpenBound(RAM_FILES, k.tasks[k.current].files, name);
      FilesSmall(k, Open(RAM_FILES, k.tasks[k.current].files, name).slots);
    }
  }

  lemma OpenBound(files: seq<File>, slots: seq<OpenFile>, name: seq<nat>)
    requires SlotsOk(files, slots)
    ensures WordResult(Open(files, slots, name).result)
  {
    OpenFacts(files, slots, name);
  }

  lemma ReadBound(files: seq<File>, slots: seq<OpenFile>, fd: nat, length: nat)
    requires SlotsOk(files, slots) && length < WORD_LIMIT
    ensures WordResult(Read(files, slots, fd, length).result)
  {
    ReadFacts(files, slots, fd, length);
  }

  lemma CloseBound(slots: seq<OpenFile>, fd: nat)
    ensures WordResult(Close(slots, fd).result)
  {
  }

  lemma FinishSmall(k: Kernel, f: Frame, result: int)
    requires Small(k) && f.rax < WORD_LIMIT && (f.rax !in {2, 15} ==> WordResult(result))
    ensures Small(Finish(k, f, result))
  {
    hide Small, SetRax;
    TicksSmall(k);
    var r := SyscallRecord(k.ticks, k.tasks[k.current].id, f.rax, f.rdi, f.rsi, f.rdx, result);
    if Traced(f, result) {
      EmitSmall(k, r);
      RaxSmall(Emit(k, r), k.current, Unsigned(result));
    } else {
      RaxSmall(k, k.current, Unsigned(result));
    }
  }

  lemma ServiceInspects(cfg: Config, k: Kernel, f: Frame, serial: int)
    requires Shaped(k) && |cfg.boot| == 512 && f.rax == 15
    ensures Service(cfg, k, f, serial) == Outcome(Inspect(cfg, k), 0)
  {
    hide Inspect;
  }

  lemma SpawnResult(cfg: Config, k: Kernel, program: nat)
    requires Inv(cfg, k) && MaySpawn(k.tasks[k.current], program) && k.nextPid < WORD_LIMIT
    ensures WordResult(Spawn(cfg, k, program, k.tasks[k.current].id).result)
  {
    hide Inv, FamilyOk, Told, MachineOk, Spawn, Undone, Spawned;
    InvParts(cfg, k);
    Effects.SpawnEffect(cfg, k, program);
  }

  lemma ServiceSmall(cfg: Config, k: Kernel, f: Frame, serial: int)
    requires Inv(cfg, k) && Small(k) && WordInput(Trap(f, 0, serial)) && k.nextPid < WORD_LIMIT
    ensures var o := Service(cfg, k, f, serial);
            Small(Finish(o.k, f, o.result))
  {
    hide Inv, FamilyOk, Told, MachineOk, Small, Finish, Service, Spawn, SlotsOk, RAM_FILES;
    InvParts(cfg, k);
    QuietSteps.InvFamily(cfg, k);
    var o := Service(cfg, k, f, serial);
    if f.rax == 9 {
      StepTheorems.ServiceSpawns(cfg, k, f, serial);
      if MaySpawn(k.tasks[k.current], f.rdi) {
        SpawnSmall(cfg, k, f.rdi);
        SpawnResult(cfg, k, f.rdi);
      }
    } else if f.rax == 15 {
      ServiceInspects(cfg, k, f, serial);
      InspectSmall(cfg, k);
    } else {
      QuietSmall(cfg, k, f, serial);
    }
    FinishSmall(o.k, f, o.result);
  }

  // ---- steps and runs ----

  lemma EnterSmall(k: Kernel, f: Frame)
    requires Small(k)
    ensures Small(Enter(k, f))
  {
    hide AllSized;
  }

  lemma StoreSmall(k: Kernel, address: nat, value: nat)
    requires Small(k)
    ensures Small(ProgramStore(k, address, value))
  {
    hide AllSized;
  }

  lemma SyscallSmall(cfg: Config, k: Kernel, serial: int)
    requires Inv(cfg, k) && Small(k) && k.nextPid < WORD_LIMIT && WordInput(Trap(k.tasks[k.current].frame, 0, serial))
    requires Syscall(cfg, k, serial).panic == None
    ensures Small(Syscall(cfg, k, serial))
  {
    hide Inv, FamilyOk, Told, MachineOk, Small, Exit, WaitChild, Service, Finish;
    InvParts(cfg, k);
    var f := k.tasks[k.current].frame;
    if f.rax == 4 {
      if k.tasks[k.current].program > PROGRAM_SHELL {
        ExitSmall(cfg, k, f.rdi);
      } else {
        SystemStays(k, f.rdi);
      }
    } else if f.rax == 10 {
      WaitSmall(k, f.rdi);
    } else {
      ServiceSmall(cfg, k, f, serial);
    }
  }

  lemma SystemStays(k: Kernel, status: nat)
    requires Shaped(k) && k.tasks[k.current].program <= PROGRAM_SHELL
    ensures Exit(k, status).panic.Some?
  {
  }

  lemma ConsoleSmall(k: Kernel, console: seq<nat>)
    requires Small(k)
    ensures Small(k.(console := console))
  {
  }

  lemma FaultSmall(cfg: Config, k: Kernel, address: nat)
    requires Inv(cfg, k) && Small(k) && k.tasks[k.current].program > PROGRAM_SHELL
    requires k.tasks[k.current].frame.vector < 256 && k.tasks[k.current].frame.error < WORD_LIMIT
    ensures Small(UserFault(k, address))
  {
    hide Inv, FamilyOk, Told, MachineOk, Small, Exit;
    InvParts(cfg, k);
    TicksSmall(k);
    var t := k.tasks[k.current];
    var f := t.frame;
    var r := FaultRecord(k.ticks, t.id, f.vector, f.error, address, f.rip, f.cs % 4);
    QuietSteps.NoteFaultKeeps(cfg, k, address);
    EmitSmall(k, r);
    ConsoleSmall(Emit(k, r), k.console + FaultText(t.id, f.vector));
    ExitSmall(cfg, NoteFault(k, address), 128 + f.vector);
  }

  lemma StepSmall(cfg: Config, k: Kernel, input: Input)
    requires Inv(cfg, k) && Small(k) && WordInput(input) && Doom(k, input) == None && k.nextPid < WORD_LIMIT
    ensures Small(Step(cfg, k, input))
  {
    hide Inv, FamilyOk, Told, MachineOk, Small, Syscall, UserFault, Tick, ProgramStore;
    InvParts(cfg, k);
    StepKeeps(cfg, k, input);
    match input
    case UserStore(address, value) => StoreSmall(k, address, value);
    case Trap(f, cr2, serial) =>
      QuietSteps.EnterKeeps(cfg, k, f);
      EnterSmall(k, f);
      var k1 := Enter(k, f);
      if f.vector == 128 {
        SyscallSmall(cfg, k1, serial);
      } else if StepTheorems.Faults(input) {
        FaultSmall(cfg, k1, if f.vector == 14 then cr2 else 0);
      } else {
        TickSmall(k1);
      }
  }

  ghost predicate WordInputs(inputs: seq<Input>) { forall n :: 0 <= n < |inputs| ==> WordInput(inputs[n]) }

  lemma {:induction false} RunSmall(cfg: Config, k: Kernel, inputs: seq<Input>)
    requires Inv(cfg, k) && Small(k) && WordInputs(inputs)
    requires Run(cfg, k, inputs).panic == None && Run(cfg, k, inputs).nextPid <= PID_LIMIT
    ensures Small(Run(cfg, k, inputs))
    decreases |inputs|
  {
    hide Inv, FamilyOk, Told, MachineOk, Small, Step, Doom, WordInput;
    InvParts(cfg, k);
    StillUp(cfg, k, inputs);
    if inputs != [] {
      var before, last := inputs[..|inputs| - 1], inputs[|inputs| - 1];
      var k1 := Run(cfg, k, before);
      assert forall n :: 0 <= n < |before| ==> before[n] == inputs[n];
      Delivery.PidsGrow(cfg, k1, last);
      RunSmall(cfg, k, before);
      StepSmall(cfg, k1, last);
    }
  }

  lemma BootSmall(cfg: Config, m: Machine, bootRoot: nat)
    requires BootOk(cfg, m, bootRoot) && 1 <= |cfg.image| <= 65536 && Build.Price(cfg) <= m.pages.free
    ensures Small(Boot(cfg, m, bootRoot))
  {
    hide Inv, OwnOk, FamilyOk, Known, Told, Spawn, Announce, Prepare, MachineOk, Build.Price, Held, Build.Holding, Build.Fresh, FindUnused;
    ColdFacts(cfg, m, bootRoot);
    BootFacts(cfg, m, bootRoot);
    var k := Emit(Cold(m, bootRoot), BootRecord(0));
    assert Small(k);
    SpawnSucceeds(cfg, k, k.tasks, PROGRAM_INIT, 0, 0);
    InvParts(cfg, Boot(cfg, m, bootRoot));
    SpawnedSmall(cfg, k, PROGRAM_INIT, 0, 0);
  }

  /** In every run from power-on with fewer than 2^32 spawns, every record of the trace prints words, so the
      reader's limit on unfinished lines is never reached. */
  lemma TraceIsShort(cfg: Config, m: Machine, bootRoot: nat, inputs: seq<Input>)
    requires BootOk(cfg, m, bootRoot) && 1 <= |cfg.image| <= 65536 && Build.Price(cfg) <= m.pages.free && WordInputs(inputs)
    requires var k := Run(cfg, Boot(cfg, m, bootRoot), inputs);
             k.panic == None && k.nextPid <= PID_LIMIT
    ensures var k := Run(cfg, Boot(cfg, m, bootRoot), inputs);
            AllSized(k.trace) && TraceText.ShortLines(HostModel.Stream(k.trace))
  {
    hide Inv, FamilyOk, Told, MachineOk, Boot, Run, Build.Price, AllSized, HostModel.Stream;
    BootFacts(cfg, m, bootRoot);
    BootSmall(cfg, m, bootRoot);
    RunSmall(cfg, Boot(cfg, m, bootRoot), inputs);
    StreamShort(Run(cfg, Boot(cfg, m, bootRoot), inputs).trace);
  }
}
