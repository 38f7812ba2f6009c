/** What one step does to each slot and to memory, told slot by slot: the running task, the other
    processes, the unused slots, and the frames. */
module Effects {
  import opened Words
  import opened PageModel
  import PageTables
  import opened UserCopy
  import opened RamFs
  import opened KernelModel
  import opened Build
  import opened Invariant
  import opened Copies
  import opened QuietSteps
  import opened Spawning
  import opened Lifecycle
  import opened Exiting

  // ---- memory ----

  /** Of the frames that were not free, live or unmanaged, only user pages of the running process changed. */
  ghost predicate OnlyOwnPages(k: Kernel, mem': PageTables.Memory)
    requires Shaped(k)
  {
    && |mem'| == |k.m.mem|
    && forall f :: 0 <= f < |k.m.mem| && f !in FreeSet(k.m.pages) && f !in k.tasks[k.current].pages ==> mem'[f] == k.m.mem[f]
  }

  ghost function Managed(p: Pages): set<nat> { FreeSet(p) + LiveSet(p) }

  // ---- system calls that only serve the caller ----

  /** Only the caller's frame and files, its user pages, the console and the trace may have changed. */
  ghost predicate Served(k: Kernel, k': Kernel)
    requires Shaped(k)
  {
    && |k'.tasks| == TASK_LIMIT
    && k' == k.(m := k'.m, tasks := k'.tasks, trace := k'.trace, console := k'.console)
    && k'.m.pages == k.m.pages && OnlyOwnPages(k, k'.m.mem)
    && (forall i :: 0 <= i < TASK_LIMIT && i != k.current ==> k'.tasks[i] == k.tasks[i])
    && (var t := k.tasks[k.current]; k'.tasks[k.current] == t.(frame := k'.tasks[k.current].frame, files := k'.tasks[k.current].files))
  }

  lemma DeliverServes(cfg: Config, k: Kernel, address: nat, bytes: seq<nat>, result: int)
    requires Inv(cfg, k)
    requires forall i :: 0 <= i < |bytes| ==> bytes[i] < 256
    requires WritableRange(k.m.mem, k.tasks[k.current].space, address, |bytes|)
    ensures Served(k, Deliver(k, address, bytes, result).k)
  {
    hide OwnOk, FamilyOk, Told, Held, CopyOut, UserByte, PageTables.MachineOk;
    CurrentHeld(cfg, k);
    CopyOutFacts(cfg, k.m, k.tasks[k.current], Active(k), address, bytes);
  }

  lemma ReportsServe(cfg: Config, k: Kernel, f: Frame, serial: int)
    requires Inv(cfg, k)
    ensures Served(k, SysProcess(k, f).k) && Served(k, SysMemory(k, f).k) && Served(k, SysInput(k, f, serial).k)
  {
    hide OwnOk, FamilyOk, Told, Permitted, UserRange, Deliver, LittleEndian;
    if InRange(k, f.rsi, 48, true) && f.rdi < TASK_LIMIT {
      RangeWritable(k, f.rsi, 48);
      var t := k.tasks[f.rdi];
      LittleBytes(t.id); LittleBytes(t.parent); LittleBytes(t.program); LittleBytes(t.state.Number());
      LittleBytes(t.space.root * 4096); LittleBytes(t.slices);
      DeliverServes(cfg, k, f.rsi, ProcessInfo(t), 1);
    }
    if InRange(k, f.rdi, 16, true) {
      RangeWritable(k, f.rdi, 16);
      LittleBytes(|k.m.pages.states|);
      LittleBytes(k.m.pages.free);
      DeliverServes(cfg, k, f.rdi, LittleEndian(|k.m.pages.states|) + LittleEndian(k.m.pages.free), 0);
    }
    if InRange(k, f.rdi, 1, true) && serial >= 0 {
      RangeWritable(k, f.rdi, 1);
      DeliverServes(cfg, k, f.rdi, [serial % 256], 1);
    }
  }

  lemma ReadServes(cfg: Config, k: Kernel, f: Frame)
    requires Inv(cfg, k)
    ensures Served(k, SysRead(k, f).k)
  {
    hide OwnOk, FamilyOk, Told, UserRange, Deliver, RAM_FILES, LiveSet, Read, SlotsOk, WritableRange;
    var t := k.tasks[k.current];
    if InRange(k, f.rsi, f.rdx, true) {
      InvFamily(cfg, k);
      ReadPiece(k, f);
      var c := Read(RAM_FILES, t.files, f.rdi, f.rdx);
      SetFilesKeeps(cfg, k, c.slots);
      DeliverServes(cfg, SetFiles(k, c.slots), f.rsi, c.bytes, c.result);
    }
  }

  lemma FileServes(cfg: Config, k: Kernel, f: Frame)
    requires Inv(cfg, k)
    ensures Served(k, SysFile(k, f).k)
  {
    hide OwnOk, FamilyOk, Told, Permitted, UserRange, Deliver, LittleEndian, RAM_FILES, LiveSet;
    if InRange(k, f.rsi, 40, true) && f.rdi < |RAM_FILES| {
      FileBytes();
      RangeWritable(k, f.rsi, 40);
      LittleBytes(|RAM_FILES[f.rdi].bytes|);
      DeliverServes(cfg, k, f.rsi, FileInfo(RAM_FILES[f.rdi]), 1);
    }
  }

  lemma TextServes(cfg: Config, k: Kernel, f: Frame)
    requires Inv(cfg, k)
    ensures Served(k, SysWrite(k, f).k) && Served(k, SysOpen(k, f).k) && Served(k, SysClose(k, f).k)
  {
    hide OwnOk, FamilyOk, Told, Permitted, UserRange, CopyIn, Open, LiveSet, UserByte;
    var t := k.tasks[k.current];
    if InRange(k, f.rdi, f.rsi, false) {
      UserRangeFacts(k.m.mem, t.space, f.rdi, f.rsi, false);
      CopyInFacts(k.m.mem, t, Active(k), f.rdi, f.rsi);
    }
  }

  lemma ServiceServes(cfg: Config, k: Kernel, f: Frame, serial: int)
    requires Inv(cfg, k) && f.rax != 9
    ensures Served(k, Service(cfg, k, f, serial).k)
  {
    hide OwnOk, FamilyOk, Told, SysWrite, SysOpen, SysRead, SysClose, SysInput, SysProcess, SysFile, SysMemory, Inspect, Spawn, LiveSet;
    ReportsServe(cfg, k, f, serial);
    ReadServes(cfg, k, f);
    FileServes(cfg, k, f);
    TextServes(cfg, k, f);
    InspectKeeps(cfg, k);
  }

  // ---- exit and wait, slot by slot ----

  /** The slot a process leaves: unused at once when its parent was waiting, a zombie otherwise. */
  function Remains(t: Task, status: nat, awaited: bool): Task {
    t.(status := status, state := if awaited then Unused else Exited, space := PageTables.NO_SPACE, pages := [])
  }

  lemma ExitEffect(cfg: Config, k: Kernel, status: nat)
    requires Inv(cfg, k) && k.tasks[k.current].program > PROGRAM_SHELL
    ensures var k' := Exit(k, status);
            var t := k.tasks[k.current];
            var p := WaiterOf(k.tasks, t, 0);
            && k'.tasks == Roused(k.tasks, p, status)[k.current := Remains(t, status, p < TASK_LIMIT)]
            && k'.m.mem == k.m.mem && Gave(k.m.pages, k'.m.pages, Owned(t)) && k'.nextPid == k.nextPid
  {
    hide OwnOk, FamilyOk, Told, WakeFrom, Reschedule, Known, WaiterOf, ReleasePages, Gave;
    WakeUp(cfg, k, status);
    var dying := k.current;
    var t := k.tasks[dying].(status := status, state := Exited);
    var p := WaiterOf(k.tasks, t, 0);
    SameWaiter(k.tasks, k.tasks[dying], t, 0);
    var w := WakeFrom(Emit(SetTask(k, dying, t), ExitRecord(k.ticks, t.id, status)), t, 0, false);
    TakeOver(cfg, w.k, k.tasks, dying, t, p);
    var k2 := Reschedule(w.k);
    DyingHeld(cfg, k2, dying);
    ReleaseFactsAll(k2.m, k2.tasks[dying], k2.root);
    assert Owned(k2.tasks[dying]) == Owned(k.tasks[dying]);
  }

  lemma {:induction false} SameWaiter(tasks: seq<Task>, c: Task, c': Task, i: nat)
    requires i <= |tasks| && c.id == c'.id && c.parent == c'.parent
    ensures WaiterOf(tasks, c, i) == WaiterOf(tasks, c', i)
    decreases |tasks| - i
  {
    if i < |tasks| {
      SameWaiter(tasks, c, c', i + 1);
    }
  }

  lemma WaitEffect(cfg: Config, k: Kernel, pid: nat)
    requires Inv(cfg, k)
    ensures var k' := WaitChild(k, pid);
            var me := k.current;
            var c := FindChild(k.tasks, pid, k.tasks[me].id, 0);
            && k'.m == k.m && k'.nextPid == k.nextPid
            && k'.tasks ==
               if c >= TASK_LIMIT then k.tasks[me := k.tasks[me].(frame := k.tasks[me].frame.(rax := Unsigned(-3)))]
               else if k.tasks[c].state == Exited
               then k.tasks[me := k.tasks[me].(frame := k.tasks[me].frame.(rax := k.tasks[c].status))]
                            [c := k.tasks[c].(state := Unused)]
               else k.tasks[me := k.tasks[me].(state := Waiting, waitingFor := pid)]
  {
    hide OwnOk, FamilyOk, Told, ReadyFrom;
    FindChildFacts(k.tasks, pid, k.tasks[k.current].id, 0);
  }

  // ---- spawn ----

  /** Spawn is all or nothing at an exact price: with a slot and the price it builds the process, and
      otherwise it answers -5 with at most the cursor and the next pid moved. */
  lemma SpawnEffect(cfg: Config, k: Kernel, program: nat)
    requires Inv(cfg, k) && MaySpawn(k.tasks[k.current], program)
    ensures var o := Spawn(cfg, k, program, k.tasks[k.current].id);
            var i := FindUnused(k.tasks, 0);
            && (i >= TASK_LIMIT ==> o == Outcome(k, -5))
            && (i < TASK_LIMIT && k.m.pages.free < Price(cfg) ==> o.result == -5 && Undone(k, o.k, i))
            && (i < TASK_LIMIT && Price(cfg) <= k.m.pages.free ==>
                  o.result == k.nextPid && Spawned(cfg, k, o.k, i, program, k.tasks[k.current].id))
  {
    hide OwnOk, FamilyOk, Told, Spawn, Held, Holding, Fresh, Price, Known;
    var parent := k.tasks[k.current].id;
    var i := FindUnused(k.tasks, 0);
    FindUnusedFacts(k.tasks, 0);
    InvFamily(cfg, k);
    if i >= TASK_LIMIT {
      SpawnNoSlot(cfg, k, program, parent);
    } else if k.m.pages.free < Price(cfg) {
      ActiveNotFree(cfg, k);
      SpawnFails(cfg, k, program, parent, i);
    } else {
      ToldIsKnown(cfg, k.trace, k.tasks, k.m.pages);
      SpawnSucceeds(cfg, k, k.tasks, program, parent, i);
    }
  }
}
