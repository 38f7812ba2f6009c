/** Whole runs of the LAB kernel: from boot, under every sequence of traps and stores. */
module Safety {
  import opened Words
  import opened PageModel
  import opened PageTables
  import RamFs
  import opened KernelModel
  import opened Build
  import HostModel
  import opened Invariant
  import opened QuietSteps
  import opened Spawning
  import opened Lifecycle
  import Exiting

  lemma ServiceKeeps(cfg: Config, k: Kernel, f: Frame, serial: int)
    requires Inv(cfg, k)
    ensures var o := Service(cfg, k, f, serial);
            Inv(cfg, o.k) && o.k.current == k.current
  {
    hide OwnOk, FamilyOk, Told, SysWrite, SysOpen, SysRead, SysClose, SysInput, SysProcess, SysFile, SysMemory, Inspect, Spawn;
    match f.rax
    case 1 => SysWriteKeeps(cfg, k, f); ServiceStays(cfg, k, f, serial);
    case 5 => SysOpenKeeps(cfg, k, f); ServiceStays(cfg, k, f, serial);
    case 6 => SysReadKeeps(cfg, k, f); ServiceStays(cfg, k, f, serial);
    case 7 => SysCloseKeeps(cfg, k, f); ServiceStays(cfg, k, f, serial);
    case 9 =>
      if MaySpawn(k.tasks[k.current], f.rdi) {
        SpawnKeeps(cfg, k, f.rdi);
        SpawnStays(cfg, k, f.rdi, k.tasks[k.current].id);
      }
    case 11 => SysReportsKeep(cfg, k, f, serial); ServiceStays(cfg, k, f, serial);
    case 12 => SysReportsKeep(cfg, k, f, serial); ServiceStays(cfg, k, f, serial);
    case 13 => SysFileKeeps(cfg, k, f); ServiceStays(cfg, k, f, serial);
    case 14 => SysReportsKeep(cfg, k, f, serial); ServiceStays(cfg, k, f, serial);
    case 15 => InspectKeeps(cfg, k);
    case _ =>
  }

  lemma ServiceStays(cfg: Config, k: Kernel, f: Frame, serial: int)
    requires Shaped(k) && |cfg.boot| == 512 && f.rax != 9 && f.rax != 15
    ensures Service(cfg, k, f, serial).k.current == k.current
  {
    hide Spawn, Inspect;
  }

  lemma SpawnStays(cfg: Config, k: Kernel, program: nat, parent: nat)
    requires Shaped(k) && |cfg.boot| == 512
    ensures Spawn(cfg, k, program, parent).k.current == k.current
  {
    hide Prepare, ReleasePages, MapEvents;
    var i := FindUnused(k.tasks, 0);
    if i < TASK_LIMIT {
      var b := Prepare(cfg, k.m, NewTask(k, program, parent));
      var k1 := SetTask(k.(nextPid := k.nextPid + 1, m := b.m), i, b.task.(state := Ready));
      MapEventsStay(cfg, ProcessEvent(Emit(k1, SpawnRecord(k1.ticks, b.task.id, b.task.parent, b.task.program)), i), k1.tasks[i], 0);
    }
  }

  lemma {:induction false} MapEventsStay(cfg: Config, k: Kernel, t: Task, i: nat)
    requires Shaped(k)
    ensures MapEvents(cfg, k, t, i).current == k.current
    decreases CodePages(cfg) + 3 - i
  {
    hide Lookup, LayoutAddress;
    if i < CodePages(cfg) + 3 && Lookup(k.m.mem, t.space, LayoutAddress(CodePages(cfg), i)).Some? {
      var x := Lookup(k.m.mem, t.space, LayoutAddress(CodePages(cfg), i)).value;
      MapEventsStay(cfg, Emit(k, MapRecord(k.ticks, t.id, LayoutAddress(CodePages(cfg), i), x.physical, x.rights.Bits(), LayoutPart(CodePages(cfg), i))), t, i + 1);
    }
  }

  lemma FinishKeeps(cfg: Config, k: Kernel, f: Frame, result: int)
    requires Inv(cfg, k)
    ensures Inv(cfg, Finish(k, f, result))
  {
    hide OwnOk, FamilyOk, Told, SetRax;
    var t := k.tasks[k.current];
    if Traced(f, result) {
      var r := SyscallRecord(k.ticks, t.id, f.rax, f.rdi, f.rsi, f.rdx, result);
      NeutralEmitKeeps(cfg, k, r);
      SetRaxKeeps(cfg, Emit(k, r), Unsigned(result));
    } else {
      SetRaxKeeps(cfg, k, Unsigned(result));
    }
  }

  /** The inputs that stop the kernel, and why: init or shell ending, by a call or a fault; an entry
      that did not come from user code; an exception the kernel does not expect. */
  function Doom(k: Kernel, input: Input): Option<Panic>
    requires Shaped(k)
  {
    match input
    case UserStore(_, _) => None
    case Trap(f, _, _) =>
      var system := k.tasks[k.current].program <= PROGRAM_SHELL;
      if f.vector == 128 then
        if f.cs != USER_CS then Some(NotUserMode)
        else if f.rax == 4 && system then Some(InitOrShellExited) else None
      else if f.cs % 4 == 3 && f.vector in {0, 6, 13, 14} then if system then Some(InitOrShellExited) else None
      else if f.vector == 32 then if f.cs % 4 != 3 then Some(NotUserMode) else None
      else Some(UnexpectedException)
  }

  lemma SyscallKeeps(cfg: Config, k: Kernel, serial: int)
    requires Inv(cfg, k)
    ensures var f := k.tasks[k.current].frame;
            var k' := Syscall(cfg, k, serial);
            if f.cs != USER_CS then k'.panic == Some(NotUserMode)
            else if f.rax == 4 && k.tasks[k.current].program <= PROGRAM_SHELL then k'.panic == Some(InitOrShellExited)
            else Inv(cfg, k')
  {
    hide OwnOk, FamilyOk, Told, Service, WaitChild, Exit, Finish;
    var f := k.tasks[k.current].frame;
    if f.cs == USER_CS {
      if f.rax == 10 {
        WaitKeeps(cfg, k, f.rdi);
      } else if f.rax == 4 {
        Exiting.ExitKeeps(cfg, k, f.rdi);
      } else {
        ServiceKeeps(cfg, k, f, serial);
        FinishKeeps(cfg, Service(cfg, k, f, serial).k, f, Service(cfg, k, f, serial).result);
      }
    }
  }

  /** One step: the kernel panics exactly when the input dooms it, and for exactly that reason;
      otherwise the invariant holds again. */
  lemma StepKeeps(cfg: Config, k: Kernel, input: Input)
    requires Inv(cfg, k)
    ensures Step(cfg, k, input).panic == Doom(k, input)
    ensures Doom(k, input) == None ==> Inv(cfg, Step(cfg, k, input))
  {
    hide OwnOk, FamilyOk, Told, Syscall, Exit, Tick, ProgramStore;
    match input
    case UserStore(address, value) => ProgramStoreKeeps(cfg, k, address, value);
    case Trap(f, cr2, serial) =>
      EnterKeeps(cfg, k, f);
      var k1 := Enter(k, f);
      if f.vector == 128 {
        SyscallKeeps(cfg, k1, serial);
      } else if f.cs % 4 == 3 && f.vector in {0, 6, 13, 14} {
        var noted := NoteFault(k1, if f.vector == 14 then cr2 else 0);
        NoteFaultKeeps(cfg, k1, if f.vector == 14 then cr2 else 0);
        Exiting.ExitKeeps(cfg, noted, 128 + f.vector);
      } else if f.vector == 32 && f.cs % 4 == 3 {
        TickKeeps(cfg, k1);
      } else if f.vector == 32 {
        TickPanics(k1);
      }
  }

  lemma TickPanics(k: Kernel)
    requires Shaped(k) && k.tasks[k.current].frame.cs % 4 != 3
    ensures Tick(k).panic == Some(NotUserMode)
  {
  }

  // ---- boot ----

  /** What page_init and the boot loader leave: a working allocator with nothing live, and the boot root
      table in a frame outside the pages it may hand out. */
  ghost predicate BootOk(cfg: Config, m: Machine, bootRoot: nat) {
    && |cfg.boot| == 512 && (forall i :: 0 <= i < |cfg.image| ==> cfg.image[i] < 256)
    && MachineOk(m) && LiveSet(m.pages) == {}
    && bootRoot < |m.mem| && bootRoot !in FreeSet(m.pages) && m.mem[bootRoot] == cfg.boot
  }

  /** Eight empty slots own nothing and are nobody's kin. */
  lemma EmptySlots(cfg: Config, m: Machine, tasks: seq<Task>)
    requires MachineOk(m) && LiveSet(m.pages) == {}
    requires |tasks| == 8 && forall i :: 0 <= i < 8 ==> tasks[i] == EMPTY_TASK
    ensures OwnOk(cfg, m, tasks, NOBODY) && FamilyOk(tasks, 1)
  {
    hide MachineOk, Held;
    assert Owned(EMPTY_TASK) == {};
    EmptyFiles();
  }

  lemma ColdFacts(cfg: Config, m: Machine, bootRoot: nat)
    requires BootOk(cfg, m, bootRoot) && 1 <= |cfg.image| <= 65536
    ensures var k := Emit(Cold(m, bootRoot), BootRecord(0));
            && OwnOk(cfg, m, k.tasks, NOBODY) && FamilyOk(k.tasks, 1) && Known(cfg, k.trace, k.tasks)
            && FindUnused(k.tasks, 0) == 0
  {
    hide HostModel.Fields, HostModel.Last, Valid, OwnOk, FamilyOk, MachineOk;
    var k := Emit(Cold(m, bootRoot), BootRecord(0));
    assert forall i :: 0 <= i < 8 ==> k.tasks[i] == EMPTY_TASK;
    EmptySlots(cfg, m, k.tasks);
    ReplayEmit([], BootRecord(0));
    assert k.trace == [] + [BootRecord(0)];
  }

  /** task_start brings up init exactly when the image has 1 to 65536 bytes and its price is free. */
  lemma BootFacts(cfg: Config, m: Machine, bootRoot: nat)
    requires BootOk(cfg, m, bootRoot)
    ensures var k := Boot(cfg, m, bootRoot);
            var fits := 1 <= |cfg.image| <= 65536;
            && (fits && Price(cfg) <= m.pages.free ==> Inv(cfg, k) && k.m.pages.free == m.pages.free - Price(cfg))
            && (fits && m.pages.free < Price(cfg) ==> k.panic == Some(InitFailed))
            && (!fits ==> k.panic == Some(ImageTooLarge))
  {
    hide OwnOk, FamilyOk, Known, Told, Spawn, Held, Holding, MachineOk, Fresh, FindUnused, TablesAgree, HostModel.Replay;
    if 1 <= |cfg.image| <= 65536 {
      ColdFacts(cfg, m, bootRoot);
      var k := Emit(Cold(m, bootRoot), BootRecord(0));
      if m.pages.free < Price(cfg) {
        SpawnFails(cfg, k, PROGRAM_INIT, 0, 0);
      } else {
        SpawnSucceeds(cfg, k, k.tasks, PROGRAM_INIT, 0, 0);
        var o := Spawn(cfg, k, PROGRAM_INIT, 0);
        var t := o.k.tasks[0];
        OwnBorn(cfg, m, o.k.m, k.tasks, 0, t);
        assert RamFs.SlotsOk(RamFs.RAM_FILES, t.files) by { EmptyFiles(); }
        FamilyBorn(k.tasks, 1, 0, t);
        SelectKeeps(cfg, o.k, 0);
      }
    }
  }

  // ---- whole runs ----

  /** No input of the run dooms the kernel. */
  ghost predicate Undoomed(cfg: Config, k: Kernel, inputs: seq<Input>)
    requires Shaped(k) && |cfg.boot| == 512
  {
    forall n :: 0 <= n < |inputs| ==> Doom(Run(cfg, k, inputs[..n]), inputs[n]) == None
  }

  /** Input `n` is the first that dooms the kernel. */
  ghost predicate FirstDoomed(cfg: Config, k: Kernel, inputs: seq<Input>, n: nat)
    requires Shaped(k) && |cfg.boot| == 512
  {
    n < |inputs| && Undoomed(cfg, k, inputs[..n]) && Doom(Run(cfg, k, inputs[..n]), inputs[n]) != None
  }

  /** The run stopped at its first doomed input, for the reason that input gives. */
  ghost predicate StoppedByDoom(cfg: Config, k: Kernel, inputs: seq<Input>)
    requires Shaped(k) && |cfg.boot| == 512
  {
    exists n: nat :: FirstDoomed(cfg, k, inputs, n) && Run(cfg, k, inputs).panic == Doom(Run(cfg, k, inputs[..n]), inputs[n])
  }

  lemma UndoomedStep(cfg: Config, k: Kernel, inputs: seq<Input>)
    requires Shaped(k) && |cfg.boot| == 512 && inputs != []
    ensures var last := |inputs| - 1;
            Undoomed(cfg, k, inputs) <==>
            Undoomed(cfg, k, inputs[..last]) && Doom(Run(cfg, k, inputs[..last]), inputs[last]) == None
  {
    hide Run, Doom;
    var before := inputs[..|inputs| - 1];
    forall n | 0 <= n < |before|
      ensures before[..n] == inputs[..n] && before[n] == inputs[n]
    {
    }
  }

  lemma StoppedStep(cfg: Config, k: Kernel, inputs: seq<Input>)
    requires Shaped(k) && |cfg.boot| == 512 && inputs != []
    requires var before := inputs[..|inputs| - 1];
             StoppedByDoom(cfg, k, before) && Run(cfg, k, inputs).panic == Run(cfg, k, before).panic
    ensures StoppedByDoom(cfg, k, inputs)
  {
    hide Run, Doom, Undoomed;
    var before := inputs[..|inputs| - 1];
    var n: nat :| FirstDoomed(cfg, k, before, n) && Run(cfg, k, before).panic == Doom(Run(cfg, k, before[..n]), before[n]);
    assert before[..n] == inputs[..n] && before[n] == inputs[n];
    assert FirstDoomed(cfg, k, inputs, n);
  }

  /** Whole-run safety, for every sequence of inputs whatever: the kernel is still up exactly when no input
      doomed it, and then the invariant holds; otherwise its panic is that of the first doomed input. */
  lemma {:induction false} RunSafe(cfg: Config, k: Kernel, inputs: seq<Input>)
    requires Inv(cfg, k)
    ensures Run(cfg, k, inputs).panic == None <==> Undoomed(cfg, k, inputs)
    ensures Run(cfg, k, inputs).panic == None ==> Inv(cfg, Run(cfg, k, inputs))
    ensures Run(cfg, k, inputs).panic != None ==> StoppedByDoom(cfg, k, inputs)
    decreases |inputs|
  {
    InvParts(cfg, k);
    hide Inv, Step, Doom, Undoomed, StoppedByDoom;
    if inputs == [] {
      assert Undoomed(cfg, k, inputs) by { NothingDooms(cfg, k); }
    } else {
      var before, last := inputs[..|inputs| - 1], inputs[|inputs| - 1];
      RunSafe(cfg, k, before);
      UndoomedStep(cfg, k, inputs);
      var k1 := Run(cfg, k, before);
      if k1.panic == None {
        StepKeeps(cfg, k1, last);
        if Doom(k1, last) != None {
          StopsHere(cfg, k, inputs);
        }
      } else {
        StepStopped(cfg, k1, last);
        StoppedStep(cfg, k, inputs);
      }
    }
  }

  lemma NothingDooms(cfg: Config, k: Kernel)
    requires Shaped(k) && |cfg.boot| == 512
    ensures Undoomed(cfg, k, [])
  {
  }

  lemma StopsHere(cfg: Config, k: Kernel, inputs: seq<Input>)
    requires Shaped(k) && |cfg.boot| == 512 && inputs != []
    requires var before, last := inputs[..|inputs| - 1], inputs[|inputs| - 1];
             Undoomed(cfg, k, before) && Doom(Run(cfg, k, before), last) != None &&
             Run(cfg, k, inputs).panic == Doom(Run(cfg, k, before), last)
    ensures StoppedByDoom(cfg, k, inputs)
  {
    hide Run, Doom, Undoomed;
    assert FirstDoomed(cfg, k, inputs, |inputs| - 1);
  }

  /** So the only panics that any run can reach are: init or the shell ended, an entry did not come from
      user code, an exception was not expected. */
  lemma OnlyPanics(cfg: Config, k: Kernel, inputs: seq<Input>)
    requires Inv(cfg, k)
    ensures Run(cfg, k, inputs).panic in {None, Some(InitOrShellExited), Some(NotUserMode), Some(UnexpectedException)}
  {
    RunSafe(cfg, k, inputs);
    hide Inv, Run;
    if Run(cfg, k, inputs).panic != None {
      var n: nat :| FirstDoomed(cfg, k, inputs, n) && Run(cfg, k, inputs).panic == Doom(Run(cfg, k, inputs[..n]), inputs[n]);
      DoomRange(Run(cfg, k, inputs[..n]), inputs[n]);
    }
  }

  lemma DoomRange(k: Kernel, input: Input)
    requires Shaped(k)
    ensures Doom(k, input) in {None, Some(InitOrShellExited), Some(NotUserMode), Some(UnexpectedException)}
  {
  }

  lemma StepStopped(cfg: Config, k: Kernel, input: Input)
    requires Shaped(k) && |cfg.boot| == 512 && k.panic != None
    ensures Step(cfg, k, input) == k
  {
  }

  /** A run that is still up was up, with the invariant, before its last input, which did not doom it. */
  lemma StillUp(cfg: Config, k: Kernel, inputs: seq<Input>)
    requires Inv(cfg, k) && Run(cfg, k, inputs).panic == None
    ensures Inv(cfg, Run(cfg, k, inputs))
    ensures inputs != [] ==>
              var k1 := Run(cfg, k, inputs[..|inputs| - 1]);
              var last := inputs[|inputs| - 1];
              Inv(cfg, k1) && k1.panic == None && Doom(k1, last) == None && Run(cfg, k, inputs) == Step(cfg, k1, last)
  {
    hide OwnOk, FamilyOk, Told, Step, Doom, Undoomed, StoppedByDoom;
    RunSafe(cfg, k, inputs);
    if inputs != [] {
      var k1 := Run(cfg, k, inputs[..|inputs| - 1]);
      if k1.panic != None {
        StepStopped(cfg, k1, inputs[|inputs| - 1]);
      }
      RunSafe(cfg, k, inputs[..|inputs| - 1]);
      StepKeeps(cfg, k1, inputs[|inputs| - 1]);
    }
  }

  /** From power-on, under every sequence of inputs: the kernel is up, with the invariant, exactly as long
      as no input dooms it. */
  lemma Reachable(cfg: Config, m: Machine, bootRoot: nat, inputs: seq<Input>)
    requires BootOk(cfg, m, bootRoot) && 1 <= |cfg.image| <= 65536 && Price(cfg) <= m.pages.free
    ensures var k0 := Boot(cfg, m, bootRoot);
            var k := Run(cfg, k0, inputs);
            && Inv(cfg, k0) && (k.panic == None <==> Undoomed(cfg, k0, inputs)) && (k.panic == None ==> Inv(cfg, k))
            && (k.panic != None ==> StoppedByDoom(cfg, k0, inputs))
            && k.panic in {None, Some(InitOrShellExited), Some(NotUserMode), Some(UnexpectedException)}
  {
    hide Inv, Boot, Run, MachineOk, Undoomed, StoppedByDoom;
    BootFacts(cfg, m, bootRoot);
    RunSafe(cfg, Boot(cfg, m, bootRoot), inputs);
    OnlyPanics(cfg, Boot(cfg, m, bootRoot), inputs);
  }

  // ---- the smallest machine ----

  lemma {:induction false} AllFree(n: nat)
    ensures CountFree([Unmanaged] + seq(n, _ => Free)) == n
  {
    var states := [Unmanaged] + seq(n, _ => Free);
    if n == 0 {
      assert states == [Unmanaged];
    } else {
      AllFree(n - 1);
      assert states[..n] == [Unmanaged] + seq(n - 1, _ => Free);
    }
  }

  /** Whatever the image, a machine with just its price in free frames boots, and nothing is left over. */
  lemma SmallestMachine(cfg: Config) returns (m: Machine)
    requires ConfigOk(cfg)
    ensures |m.mem| == Price(cfg) + 1 && BootOk(cfg, m, 0)
    ensures var k := Boot(cfg, m, 0);
            Inv(cfg, k) && k.m.pages.free == 0
  {
    hide Inv, Boot, CountFree;
    var n := Price(cfg);
    var states := [Unmanaged] + seq(n, _ => Free);
    AllFree(n);
    m := Machine(Pages(states, n, 0), [cfg.boot] + seq(n, _ => seq(512, _ => 0)));
    BootFacts(cfg, m, 0);
  }
}
