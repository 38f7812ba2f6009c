/** Theorems about one step from any state that satisfies the invariant: what becomes of every other
    process, of the running task, of unused slots, and of memory. */
module StepTheorems {
  import opened Words
  import opened PageModel
  import PageTables
  import opened KernelModel
  import opened Build
  import opened Invariant
  import Copies
  import opened QuietSteps
  import Spawning
  import Lifecycle
  import opened Exiting
  import opened Safety
  import opened Effects

  predicate Calls(input: Input, number: nat) {
    input.Trap? && input.frame.vector == 128 && input.frame.cs == USER_CS && input.frame.rax == number
  }

  predicate Faults(input: Input) {
    input.Trap? && input.frame.cs % 4 == 3 && input.frame.vector in {0, 6, 13, 14}
  }

  /** The status a step ends the running task with: the argument of exit, or 128 plus the vector. */
  function ExitStatus(input: Input): Option<nat> {
    if Calls(input, 4) then Some(input.frame.rdi)
    else if Faults(input) then Some(128 + input.frame.vector)
    else None
  }

  /** What a step makes of a process that is not running: the parent waiting for a process that ends is
      woken with its status; a zombie its parent waits for is reaped; anyone else is untouched. */
  function OtherAfter(k: Kernel, input: Input, i: nat): Task
    requires Shaped(k) && i < TASK_LIMIT
  {
    var t, me := k.tasks[i], k.tasks[k.current];
    if ExitStatus(input).Some? && WaitsFor(t, me)
    then t.(state := Ready, frame := t.frame.(rax := ExitStatus(input).value))
    else if Calls(input, 10) && t.state == Exited && ChildOf(t, input.frame.rdi, me.id) then t.(state := Unused)
    else t
  }

  lemma ExitSlots(cfg: Config, k: Kernel, status: nat, i: nat)
    requires Inv(cfg, k) && k.tasks[k.current].program > PROGRAM_SHELL && i < TASK_LIMIT && i != k.current
    ensures Exit(k, status).tasks[i] ==
            if WaitsFor(k.tasks[i], k.tasks[k.current]) then Awoken(k.tasks[i], status) else k.tasks[i]
  {
    hide OwnOk, FamilyOk, Told, Exit, WaiterOf, Gave;
    ExitEffect(cfg, k, status);
    OneWaiter(k.tasks, k.nextPid, k.tasks[k.current], WaiterOf(k.tasks, k.tasks[k.current], 0));
  }

  lemma WaitSlots(cfg: Config, k: Kernel, pid: nat, i: nat)
    requires Inv(cfg, k) && i < TASK_LIMIT && i != k.current
    ensures WaitChild(k, pid).tasks[i] ==
            if k.tasks[i].state == Exited && ChildOf(k.tasks[i], pid, k.tasks[k.current].id)
            then k.tasks[i].(state := Unused) else k.tasks[i]
  {
    hide OwnOk, Told, WaitChild, HasParent, HasChild;
    WaitEffect(cfg, k, pid);
    Lifecycle.FindChildFacts(k.tasks, pid, k.tasks[k.current].id, 0);
  }

  /** A process that is not running is changed by a step in exactly two ways: it is the parent woken by
      the end of the child it waits for, with only its state and rax changed, or the zombie reaped by its
      parent's wait. In particular its saved frame survives untouched otherwise. */
  lemma OthersKept(cfg: Config, k: Kernel, input: Input, i: nat)
    requires Inv(cfg, k) && Doom(k, input) == None && i < TASK_LIMIT && i != k.current && k.tasks[i].state != Unused
    ensures Step(cfg, k, input).tasks[i] == OtherAfter(k, input, i)
  {
    hide OwnOk, FamilyOk, Told, Exit, WaitChild, Service, Finish, Spawn, ProgramStore, ReadyFrom, Price, Held, Holding, Fresh;
    match input
    case UserStore(address, value) => StoreTasks(k, address, value);
    case Trap(f, cr2, serial) =>
      EnterKeeps(cfg, k, f);
      var k1 := Enter(k, f);
      if Faults(input) {
        var noted := NoteFault(k1, if f.vector == 14 then cr2 else 0);
        NoteFaultKeeps(cfg, k1, if f.vector == 14 then cr2 else 0);
        ExitSlots(cfg, noted, 128 + f.vector, i);
      } else if f.vector == 128 {
        if f.rax == 4 {
          ExitSlots(cfg, k1, f.rdi, i);
        } else if f.rax == 10 {
          WaitSlots(cfg, k1, f.rdi, i);
        } else {
          ServiceSlots(cfg, k1, f, serial, i);
        }
      }
  }

  lemma StoreTasks(k: Kernel, address: nat, value: nat)
    requires Shaped(k)
    ensures ProgramStore(k, address, value).tasks == k.tasks && ProgramStore(k, address, value).nextPid == k.nextPid
  {
  }

  lemma ServiceSlots(cfg: Config, k: Kernel, f: Frame, serial: int, i: nat)
    requires Inv(cfg, k) && i < TASK_LIMIT && i != k.current && k.tasks[i].state != Unused
    ensures var o := Service(cfg, k, f, serial);
            o.k.panic == None && Finish(o.k, f, o.result).tasks[i] == k.tasks[i]
  {
    hide OwnOk, FamilyOk, Told, Service, Spawn, Price, Held, Holding, Fresh;
    ServiceKeeps(cfg, k, f, serial);
    var o := Service(cfg, k, f, serial);
    if f.rax == 9 {
      ServiceSpawns(cfg, k, f, serial);
      if MaySpawn(k.tasks[k.current], f.rdi) {
        SpawnEffect(cfg, k, f.rdi);
        Spawning.FindUnusedFacts(k.tasks, 0);
      }
    } else {
      ServiceServes(cfg, k, f, serial);
    }
  }

  lemma ServiceSpawns(cfg: Config, k: Kernel, f: Frame, serial: int)
    requires Shaped(k) && |cfg.boot| == 512 && f.rax == 9
    ensures Service(cfg, k, f, serial) ==
            if MaySpawn(k.tasks[k.current], f.rdi) then Spawn(cfg, k, f.rdi, k.tasks[k.current].id) else Outcome(k, -3)
  {
    hide Spawn;
  }

  // ---- the running task ----

  /** The process the running task is after the step. */
  lemma CurrentAfter(cfg: Config, k: Kernel, input: Input)
    requires Inv(cfg, k) && Doom(k, input) == None
    ensures var t, t' := k.tasks[k.current], Step(cfg, k, input).tasks[k.current];
            && t'.id == t.id && t'.parent == t.parent && t'.program == t.program
            && (match ExitStatus(input)
                case Some(s) =>
                  t'.status == s && t'.state == if WaiterOf(k.tasks, t, 0) < TASK_LIMIT then Unused else Exited
                case None =>
                  if Calls(input, 10) then
                    var c := FindChild(k.tasks, input.frame.rdi, t.id, 0);
                    if c >= TASK_LIMIT then t'.state == Ready && t'.frame.rax == Unsigned(-3)
                    else if k.tasks[c].state == Exited then t'.state == Ready && t'.frame.rax == k.tasks[c].status
                    else t'.state == Waiting && t'.waitingFor == input.frame.rdi && t'.frame == input.frame
                  else t'.state == Ready)
  {
    hide OwnOk, FamilyOk, Told, Exit, WaitChild, Service, Finish, ProgramStore, ReadyFrom, WaiterOf, FindChild, Gave;
    match input
    case UserStore(address, value) => StoreTasks(k, address, value);
    case Trap(f, cr2, serial) =>
      EnterKeeps(cfg, k, f);
      var k1 := Enter(k, f);
      SameWaiters(k.tasks, k1.tasks, k.tasks[k.current], k1.tasks[k1.current], 0);
      SameChildren(k.tasks, k1.tasks, f.rdi, k.tasks[k.current].id, 0);
      if Faults(input) {
        var noted := NoteFault(k1, if f.vector == 14 then cr2 else 0);
        NoteFaultKeeps(cfg, k1, if f.vector == 14 then cr2 else 0);
        ExitEffect(cfg, noted, 128 + f.vector);
      } else if f.vector == 128 {
        if f.rax == 4 {
          ExitEffect(cfg, k1, f.rdi);
        } else if f.rax == 10 {
          WaitEffect(cfg, k1, f.rdi);
          NoOwnChild(cfg, k1, f.rdi);
        } else {
          ServiceCurrent(cfg, k1, f, serial);
        }
      }
  }

  /** An exception raised by a program other than init and the shell ends that program alone exactly when
      its vector is one of the four the dispatcher names; any other one, although raised in user mode, stops
      the whole kernel. */
  lemma ExceptionContained(cfg: Config, k: Kernel, input: Input)
    requires Inv(cfg, k) && input.Trap? && input.frame.cs == USER_CS && input.frame.vector < 32
    requires k.tasks[k.current].program > PROGRAM_SHELL
    ensures var k', v := Step(cfg, k, input), input.frame.vector;
            if v in {0, 6, 13, 14} then
              && Inv(cfg, k') && k'.tasks[k.current].state in {Unused, Exited} && k'.tasks[k.current].status == 128 + v
              && k'.current != k.current
            else k'.panic == Some(UnexpectedException)
  {
    hide OwnOk, FamilyOk, Told, Step, WaiterOf, FindChild;
    StepKeeps(cfg, k, input);
    if input.frame.vector in {0, 6, 13, 14} {
      CurrentAfter(cfg, k, input);
    }
  }

  /** The input that shows it: a stack fault, which a user program raises by pushing through a stack
      pointer that is not canonical. */
  lemma StackFaultStops(cfg: Config, k: Kernel, f: Frame, cr2: nat, serial: int)
    requires Inv(cfg, k) && f.cs == USER_CS && f.vector == 12
    ensures Step(cfg, k, Trap(f, cr2, serial)).panic == Some(UnexpectedException)
  {
    hide Inv, Step;
    Lifecycle.InvParts(cfg, k);
    StepKeeps(cfg, k, Trap(f, cr2, serial));
  }

  lemma NoOwnChild(cfg: Config, k: Kernel, pid: nat)
    requires Inv(cfg, k)
    ensures FindChild(k.tasks, pid, k.tasks[k.current].id, 0) != k.current
  {
    hide OwnOk, Told, HasChild;
    var t := k.tasks[k.current];
    Lifecycle.FindChildFacts(k.tasks, pid, t.id, 0);
    assert Citizen(t, k.nextPid);
    if t.program != PROGRAM_INIT {
      assert HasParent(k.tasks, t);
    }
  }

  lemma {:induction false} SameWaiters(tasks: seq<Task>, tasks': seq<Task>, c: Task, c': Task, i: nat)
    requires i <= |tasks| == |tasks'| && c.id == c'.id && c.parent == c'.parent
    requires forall j :: 0 <= j < |tasks| ==> tasks'[j] == tasks[j].(frame := tasks'[j].frame)
    ensures WaiterOf(tasks, c, i) == WaiterOf(tasks', c', i)
    decreases |tasks| - i
  {
    if i < |tasks| {
      SameWaiters(tasks, tasks', c, c', i + 1);
    }
  }

  lemma {:induction false} SameChildren(tasks: seq<Task>, tasks': seq<Task>, pid: nat, parent: nat, i: nat)
    requires i <= |tasks| == |tasks'|
    requires forall j :: 0 <= j < |tasks| ==> tasks'[j] == tasks[j].(frame := tasks'[j].frame)
    ensures FindChild(tasks, pid, parent, i) == FindChild(tasks', pid, parent, i)
    decreases |tasks| - i
  {
    if i < |tasks| {
      SameChildren(tasks, tasks', pid, parent, i + 1);
    }
  }

  lemma ServiceCurrent(cfg: Config, k: Kernel, f: Frame, serial: int)
    requires Inv(cfg, k)
    ensures var o := Service(cfg, k, f, serial);
            var t, t' := k.tasks[k.current], Finish(o.k, f, o.result).tasks[k.current];
            o.k.panic == None && t'.id == t.id && t'.parent == t.parent && t'.program == t.program && t'.state == Ready
  {
    hide OwnOk, FamilyOk, Told, Service, Spawn, Price, Held, Holding, Fresh;
    ServiceKeeps(cfg, k, f, serial);
    if f.rax == 9 {
      ServiceSpawns(cfg, k, f, serial);
      if MaySpawn(k.tasks[k.current], f.rdi) {
        SpawnEffect(cfg, k, f.rdi);
        Spawning.FindUnusedFacts(k.tasks, 0);
      }
    } else {
      ServiceServes(cfg, k, f, serial);
    }
  }

  // ---- unused slots and pids ----

  /** An unused slot stays unused or holds a process with the next pid, a child of the running task. */
  lemma UnusedAfter(cfg: Config, k: Kernel, input: Input, i: nat)
    requires Inv(cfg, k) && Doom(k, input) == None && i < TASK_LIMIT && k.tasks[i].state == Unused
    ensures var k' := Step(cfg, k, input);
            && k.nextPid <= k'.nextPid
            && (k'.tasks[i].state == Unused ||
                (k'.tasks[i].state == Ready && k'.tasks[i].id == k.nextPid < k'.nextPid && k'.tasks[i].parent == k.tasks[k.current].id))
  {
    hide OwnOk, FamilyOk, Told, Exit, WaitChild, Service, Finish, Spawn, ProgramStore, ReadyFrom, Price, Held, Holding, Fresh, WaiterOf, Gave;
    match input
    case UserStore(address, value) => StoreTasks(k, address, value);
    case Trap(f, cr2, serial) =>
      EnterKeeps(cfg, k, f);
      var k1 := Enter(k, f);
      if Faults(input) {
        var noted := NoteFault(k1, if f.vector == 14 then cr2 else 0);
        NoteFaultKeeps(cfg, k1, if f.vector == 14 then cr2 else 0);
        ExitEffect(cfg, noted, 128 + f.vector);
        ExitSlots(cfg, noted, 128 + f.vector, i);
      } else if f.vector == 128 {
        if f.rax == 4 {
          ExitEffect(cfg, k1, f.rdi);
          ExitSlots(cfg, k1, f.rdi, i);
        } else if f.rax == 10 {
          WaitEffect(cfg, k1, f.rdi);
          WaitSlots(cfg, k1, f.rdi, i);
        } else {
          ServiceUnused(cfg, k1, f, serial, i);
        }
      }
  }

  lemma ServiceUnused(cfg: Config, k: Kernel, f: Frame, serial: int, i: nat)
    requires Inv(cfg, k) && i < TASK_LIMIT && k.tasks[i].state == Unused
    ensures var o := Service(cfg, k, f, serial);
            var k' := Finish(o.k, f, o.result);
            && o.k.panic == None && k.nextPid <= k'.nextPid
            && (k'.tasks[i].state == Unused ||
                (k'.tasks[i].state == Ready && k'.tasks[i].id == k.nextPid < k'.nextPid && k'.tasks[i].parent == k.tasks[k.current].id))
  {
    hide OwnOk, FamilyOk, Told, Service, Spawn, Price, Held, Holding, Fresh;
    ServiceKeeps(cfg, k, f, serial);
    if f.rax == 9 {
      ServiceSpawns(cfg, k, f, serial);
      if MaySpawn(k.tasks[k.current], f.rdi) {
        SpawnEffect(cfg, k, f.rdi);
      }
    } else {
      ServiceServes(cfg, k, f, serial);
    }
  }

  lemma TrapGrows(cfg: Config, k: Kernel, f: Frame, cr2: nat, serial: int)
    requires Inv(cfg, k) && Doom(k, Trap(f, cr2, serial)) == None
    ensures k.nextPid <= Step(cfg, k, Trap(f, cr2, serial)).nextPid
  {
    hide OwnOk, FamilyOk, Told, Exit, WaitChild, Service, Finish, ReadyFrom, WaiterOf, FindChild, Gave;
    EnterKeeps(cfg, k, f);
    var k1 := Enter(k, f);
    if Faults(Trap(f, cr2, serial)) {
      var noted := NoteFault(k1, if f.vector == 14 then cr2 else 0);
      NoteFaultKeeps(cfg, k1, if f.vector == 14 then cr2 else 0);
      ExitEffect(cfg, noted, 128 + f.vector);
    } else if f.vector == 128 {
      if f.rax == 4 {
        ExitEffect(cfg, k1, f.rdi);
      } else if f.rax == 10 {
        WaitEffect(cfg, k1, f.rdi);
      } else {
        ServiceGrows(cfg, k1, f, serial);
      }
    }
  }

  lemma ServiceGrows(cfg: Config, k: Kernel, f: Frame, serial: int)
    requires Inv(cfg, k)
    ensures var o := Service(cfg, k, f, serial);
            o.k.panic == None && k.nextPid <= Finish(o.k, f, o.result).nextPid
  {
    hide OwnOk, FamilyOk, Told, Service, Spawn, Price, Held, Holding, Fresh;
    ServiceKeeps(cfg, k, f, serial);
    if f.rax == 9 {
      ServiceSpawns(cfg, k, f, serial);
      if MaySpawn(k.tasks[k.current], f.rdi) {
        SpawnEffect(cfg, k, f.rdi);
      }
    } else {
      ServiceServes(cfg, k, f, serial);
    }
  }

  // ---- memory ----

  /** Of the frames that are not free, a step changes only user pages of the running task: no page table,
      nothing another process can see, and nothing the allocator does not manage. The set of managed frames
      never changes. */
  lemma MemoryKept(cfg: Config, k: Kernel, input: Input)
    requires Inv(cfg, k) && Doom(k, input) == None
    ensures var k' := Step(cfg, k, input);
            OnlyOwnPages(k, k'.m.mem) && Managed(k'.m.pages) == Managed(k.m.pages)
  {
    hide OwnOk, FamilyOk, Told, Exit, WaitChild, Service, Finish, Spawn, ProgramStore, ReadyFrom, WaiterOf, Gave, LiveSet, FreeSet;
    match input
    case UserStore(address, value) => StoreMemory(cfg, k, address, value);
    case Trap(f, cr2, serial) =>
      EnterKeeps(cfg, k, f);
      var k1 := Enter(k, f);
      if Faults(input) {
        var noted := NoteFault(k1, if f.vector == 14 then cr2 else 0);
        NoteFaultKeeps(cfg, k1, if f.vector == 14 then cr2 else 0);
        ExitEffect(cfg, noted, 128 + f.vector);
        GaveManaged(k1.m.pages, Exit(noted, 128 + f.vector).m.pages, Owned(k1.tasks[k1.current]));
      } else if f.vector == 128 {
        if f.rax == 4 {
          ExitEffect(cfg, k1, f.rdi);
          GaveManaged(k1.m.pages, Exit(k1, f.rdi).m.pages, Owned(k1.tasks[k1.current]));
        } else if f.rax == 10 {
          WaitEffect(cfg, k1, f.rdi);
        } else {
          ServiceMemory(cfg, k1, f, serial);
        }
      }
  }

  lemma RunningPages(cfg: Config, k: Kernel, f: nat)
    requires Inv(cfg, k) && f in k.tasks[k.current].pages
    ensures f in Managed(k.m.pages)
  {
    hide OwnOk, FamilyOk, Told, PageTables.MachineOk, Mapped;
    CurrentHeld(cfg, k);
    assert f in Owned(k.tasks[k.current]);
  }

  /** No step changes a frame that the allocator does not manage. */
  lemma UnmanagedKept(cfg: Config, k: Kernel, input: Input, f: nat)
    requires Inv(cfg, k) && Doom(k, input) == None && f < |k.m.mem| && f !in Managed(k.m.pages)
    ensures var k' := Step(cfg, k, input);
            |k'.m.mem| == |k.m.mem| && k'.m.mem[f] == k.m.mem[f] && Managed(k'.m.pages) == Managed(k.m.pages)
  {
    hide OwnOk, FamilyOk, Told, Step, Doom, PageTables.MachineOk, Mapped;
    MemoryKept(cfg, k, input);
    CurrentHeld(cfg, k);
    if f in k.tasks[k.current].pages {
      RunningPages(cfg, k, f);
    }
  }

  lemma GaveManaged(p: Pages, q: Pages, given: set<nat>)
    requires Gave(p, q, given)
    ensures Managed(q) == Managed(p)
  {
    hide LiveSet, FreeSet, Valid;
  }

  lemma StoreMemory(cfg: Config, k: Kernel, address: nat, value: nat)
    requires Inv(cfg, k)
    ensures var k' := ProgramStore(k, address, value);
            OnlyOwnPages(k, k'.m.mem) && k'.m.pages == k.m.pages
  {
    hide OwnOk, FamilyOk, Told, PageTables.Lookup, Held, PageTables.MachineOk, LiveSet;
    CurrentHeld(cfg, k);
    var t := k.tasks[k.current];
    Copies.SameRoot(k.m.mem, Active(k), t.space, address);
    if PageTables.Lookup(k.m.mem, t.space, address).Some? {
      Copies.StoreByte(cfg, k.m, t, address, value % 256);
    }
  }

  lemma ServiceMemory(cfg: Config, k: Kernel, f: Frame, serial: int)
    requires Inv(cfg, k)
    ensures var o := Service(cfg, k, f, serial);
            var k' := Finish(o.k, f, o.result);
            o.k.panic == None && OnlyOwnPages(k, k'.m.mem) && Managed(k'.m.pages) == Managed(k.m.pages)
  {
    hide OwnOk, FamilyOk, Told, Service, Spawn, Price, Held, Fresh, PageTables.MachineOk;
    ServiceKeeps(cfg, k, f, serial);
    if f.rax == 9 {
      ServiceSpawns(cfg, k, f, serial);
      if MaySpawn(k.tasks[k.current], f.rdi) {
        SpawnEffect(cfg, k, f.rdi);
      }
    } else {
      ServiceServes(cfg, k, f, serial);
    }
  }
}
