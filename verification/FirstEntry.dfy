/** Where a new process enters user mode: the saved frame that spawn leaves for the first return, read
    against the page tables it will run on. */
module FirstEntry {
  import opened Words
  import opened PageTables
  import opened KernelModel
  import opened Build
  import opened Invariant
  import opened Copies
  import opened Spawning
  import opened Safety
  import Effects
  import RunTheorems
  import Lifecycle

  /** The frame enters the process at the first byte of its image, on a page it may execute and not write. */
  ghost predicate EntersImage(cfg: Config, m: Machine, t: Task) {
    var x := Lookup(m.mem, t.space, t.frame.rip);
    && t.frame.rip == 0x400000 && cfg.image != []
    && x.Some? && x.value.rights.user && x.value.rights.exec && !x.value.rights.write
    && UserByte(m.mem, t.space, t.frame.rip) == Some(cfg.image[0])
  }

  /** The eight bytes at rsp are the last ones of a writable, zeroed stack. */
  ghost predicate StackReady(m: Machine, t: Task) {
    && t.frame.rsp == 0x801ff8 && t.frame.rsp % 8 == 0
    && (forall a :: t.frame.rsp <= a < t.frame.rsp + 8 ==>
          var x := Lookup(m.mem, t.space, a);
          x.Some? && x.value.rights.user && x.value.rights.write && !x.value.rights.exec && UserByte(m.mem, t.space, a) == Some(0))
    && Lookup(m.mem, t.space, t.frame.rsp + 8) == None
  }

  /** User-mode selectors, interrupts on and nothing else in rflags, every general register 0. */
  predicate UserRegisters(f: Frame) {
    && f.cs == 0x23 && f.ss == 0x1b && f.rflags == 0x202 && f.rflags / 0x200 % 2 == 1
    && f.rax == 0 && f.rdi == 0 && f.rsi == 0 && f.rdx == 0
    && |f.others| == 11 && (forall i :: 0 <= i < 11 ==> f.others[i] == 0)
  }

  /** A process that has not run yet. */
  ghost predicate NewProcess(cfg: Config, m: Machine, t: Task, pid: nat, parent: nat, program: nat) {
    && t.state == Ready && t.id == pid && t.parent == parent && t.program == program
    && t.slices == 0 && t.status == 0 && t.waitingFor == 0
    && |t.files| == 2 && !t.files[0].used && !t.files[1].used
    && EntersImage(cfg, m, t) && StackReady(m, t) && UserRegisters(t.frame)
  }

  lemma SpawnedEntry(cfg: Config, k: Kernel, k': Kernel, i: nat, program: nat, parent: nat)
    requires ConfigOk(cfg) && Shaped(k) && i < TASK_LIMIT && Spawned(cfg, k, k', i, program, parent)
    ensures NewProcess(cfg, k'.m, k'.tasks[i], k.nextPid, parent, program)
  {
    hide Lookup, Held, Holding, Fresh, UserByte, RightsOf;
    var t := k'.tasks[i];
    CodeBound(cfg);
    RunTheorems.ImageByte(cfg, k'.m, t, 0x400000);
    RunTheorems.ImageByte(cfg, k'.m, t, 0x802000);
    forall a | 0x801ff8 <= a < 0x802000
      ensures var x := Lookup(k'.m.mem, t.space, a);
              x.Some? && x.value.rights.user && x.value.rights.write && !x.value.rights.exec && UserByte(k'.m.mem, t.space, a) == Some(0)
    {
      RunTheorems.ImageByte(cfg, k'.m, t, a);
      DataRights();
    }
    CodeRights();
  }

  lemma DataRights()
    ensures RightsOf(3) == Rights(true, true, false)
  {
  }

  lemma CodeRights()
    ensures RightsOf(6) == Rights(false, true, true)
  {
  }

  /** Whatever slot spawn fills, its process will enter at the first byte of the image with a clean frame. */
  lemma SpawnEntry(cfg: Config, k: Kernel, program: nat)
    requires Inv(cfg, k) && MaySpawn(k.tasks[k.current], program) && Price(cfg) <= k.m.pages.free
    requires FindUnused(k.tasks, 0) < TASK_LIMIT
    ensures var o := Spawn(cfg, k, program, k.tasks[k.current].id);
            o.result == k.nextPid &&
            NewProcess(cfg, o.k.m, o.k.tasks[FindUnused(k.tasks, 0)], k.nextPid, k.tasks[k.current].id, program)
  {
    hide Inv, FamilyOk, Told, MachineOk, Spawn, Spawned, Price, FindUnused, NewProcess;
    Lifecycle.InvParts(cfg, k);
    Effects.SpawnEffect(cfg, k, program);
    SpawnedEntry(cfg, k, Spawn(cfg, k, program, k.tasks[k.current].id).k, FindUnused(k.tasks, 0), program, k.tasks[k.current].id);
  }

  /** The same of the process that boot runs: pid 1 in slot 0, alone, with the clock at 0 and nothing on the
      console. */
  lemma BootEntry(cfg: Config, m: Machine, bootRoot: nat)
    requires BootOk(cfg, m, bootRoot) && 1 <= |cfg.image| <= 65536 && Price(cfg) <= m.pages.free
    ensures var k := Boot(cfg, m, bootRoot);
            && NewProcess(cfg, k.m, k.tasks[0], 1, 0, 0)
            && k.current == 0 && k.root == k.tasks[0].space.root && k.nextPid == 2 && k.ticks == 0 && k.console == []
            && (forall i :: 1 <= i < TASK_LIMIT ==> k.tasks[i].state == Unused)
  {
    hide OwnOk, FamilyOk, Known, Told, Spawn, Held, Holding, MachineOk, Fresh, FindUnused, Price, NewProcess;
    ColdFacts(cfg, m, bootRoot);
    var k := Emit(Cold(m, bootRoot), BootRecord(0));
    SpawnSucceeds(cfg, k, k.tasks, PROGRAM_INIT, 0, 0);
    SpawnedEntry(cfg, k, Spawn(cfg, k, PROGRAM_INIT, 0).k, 0, PROGRAM_INIT, 0);
  }
}
