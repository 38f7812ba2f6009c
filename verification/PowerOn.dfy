/** From the boot loader's memory map to any number of traps: the classes together. */
module PowerOn {
  import opened Words
  import opened PageModel
  import opened PageTables
  import opened KernelModel
  import Build
  import opened Invariant
  import opened Safety
  import Effects
  import RunTheorems
  import opened PageAllocator
  import VirtualMemoryClass
  import LaboratoryClass

  /** What the boot loader promises: usable entries below 2^52 that do not overlap, physical memory with
      512 words to a frame, and the boot root table in a frame outside usable memory. */
  ghost predicate LoaderOk(cfg: Config, entries: MemoryMap, mem: Memory, bootRoot: nat) {
    && Wide(entries) && NoOverlap(entries) && Highest(entries) <= 0x10_0000_0000_0000
    && Highest(entries) / 4096 <= |mem| && MemoryOk(mem)
    && bootRoot < |mem| && !InUsable(entries, |entries|, bootRoot) && mem[bootRoot] == cfg.boot
    && |cfg.boot| == 512 && (forall i :: 0 <= i < |cfg.image| ==> cfg.image[i] < 256)
  }

  /** The frames page_init leaves free when its state array occupies the bytes from `base` to `end`. */
  ghost function SpareFrames(entries: MemoryMap, base: nat, end: nat): set<nat> {
    set f | 0 <= f < Highest(entries) / 4096 && InUsable(entries, |entries|, f) && Spare(base, end, f)
  }

  /** page_init meets everything task_start relies on, and its count is the number of spare frames. */
  lemma InitGivesBoot(cfg: Config, entries: MemoryMap, mem: Memory, bootRoot: nat, a: Allocator)
    requires LoaderOk(cfg, entries, mem, bootRoot) && 0 < a.states.Length == Highest(entries) / 4096
    requires Valid(a.Abs()) && LiveSet(a.Abs()) == {}
    requires a.Marked(entries, |entries|, a.metadataBase, a.metadataBase + a.metadataPages * 4096)
    ensures BootOk(cfg, Machine(a.Abs(), mem), bootRoot)
    ensures Effects.Managed(a.Abs()) == SpareFrames(entries, a.metadataBase, a.metadataBase + a.metadataPages * 4096)
    ensures a.free == |SpareFrames(entries, a.metadataBase, a.metadataBase + a.metadataPages * 4096)|
  {
    hide InUsable, Highest, CountFree;
    var p := a.Abs();
    CountIsSize(p);
    assert !Spare(a.metadataBase, a.metadataBase + a.metadataPages * 4096, 0);
    assert forall f :: 0 <= f < |p.states| ==> p.states[f] == a.states[f];
    assert FreeSet(p) == SpareFrames(entries, a.metadataBase, a.metadataBase + a.metadataPages * 4096);
  }

  /** Any run on the concrete state is the run of the model. It stays up exactly as long as no input dooms
      it, and as long as it is up the invariant holds and no frame outside the managed pages has changed. */
  method RunInputs(lab: LaboratoryClass.Laboratory, inputs: seq<Input>)
    requires lab.Fit() && Inv(lab.cfg, lab.Abs())
    modifies lab, lab.tasks, lab.vm`mem, lab.vm`active, lab.vm.pages`free, lab.vm.pages`next, lab.vm.pages.states
    ensures LaboratoryClass.Matches(lab.Abs(), Run(lab.cfg, old(lab.Abs()), inputs))
    ensures lab.panic == None <==> Undoomed(lab.cfg, old(lab.Abs()), inputs)
    ensures lab.panic == None ==>
              Inv(lab.cfg, lab.Abs()) && Effects.Managed(lab.Abs().m.pages) == Effects.Managed(old(lab.Abs().m.pages)) &&
              |lab.vm.mem| == |old(lab.vm.mem)| &&
              forall f :: 0 <= f < |old(lab.vm.mem)| && f !in Effects.Managed(old(lab.Abs().m.pages)) ==> lab.vm.mem[f] == old(lab.vm.mem)[f]
  {
    hide OwnOk, FamilyOk, Told, Step, Doom, Undoomed, StoppedByDoom, Effects.Managed;
    ghost var k0 := lab.Abs();
    var n := 0;
    while n < |inputs|
      invariant 0 <= n <= |inputs| && LaboratoryClass.Matches(lab.Abs(), Run(lab.cfg, k0, inputs[..n]))
      invariant lab.panic == None ==> lab.Fit() && Inv(lab.cfg, lab.Abs())
    {
      assert inputs[..n + 1][..n] == inputs[..n];
      if lab.panic == None {
        StepKeeps(lab.cfg, lab.Abs(), inputs[n]);
        match inputs[n] {
          case Trap(frame, cr2, serial) => lab.Interrupt(frame, cr2, serial);
          case UserStore(address, value) => lab.UserWrite(address, value);
        }
      } else {
        StepStopped(lab.cfg, Run(lab.cfg, k0, inputs[..n]), inputs[n]);
      }
      n := n + 1;
    }
    assert inputs[..n] == inputs;
    RunSafe(lab.cfg, k0, inputs);
    if lab.panic == None {
      RunTheorems.RunManaged(lab.cfg, k0, inputs);
    }
  }

  /** Kernel start from the memory map: page_init, the address-space layer and task_start. Init comes up
      exactly when page_init succeeds, the image has 1 to 65536 bytes and there are spare frames enough for
      its price; then the invariant holds, the other spare frames are free, and no frame but the spare ones
      has changed: not the state array, not the boot root table. */
  method StartLab(cfg: Config, entries: MemoryMap, hhdm: nat, mem: Memory, bootRoot: nat) returns (lab: LaboratoryClass.Laboratory?)
    requires LoaderOk(cfg, entries, mem, bootRoot) && hhdm < WORD_LIMIT
    ensures lab == null <==> !CanInit(entries, hhdm)
    ensures lab != null ==> fresh(lab) && lab.cfg == cfg && lab.panic in {None, Some(ImageTooLarge), Some(InitFailed)}
    ensures lab != null && lab.panic == None ==> lab.Fit() && Inv(cfg, lab.Abs())
    ensures lab != null ==>
      var a := lab.vm.pages;
      var spare := |SpareFrames(entries, a.metadataBase, a.metadataBase + a.metadataPages * 4096)|;
      && (lab.panic == Some(ImageTooLarge) <==> !(1 <= |cfg.image| <= 65536))
      && (lab.panic == None <==> 1 <= |cfg.image| <= 65536 && Build.Price(cfg) <= spare)
      && (lab.panic == None ==> a.free == spare - Build.Price(cfg))
    ensures lab != null && lab.panic == None ==>
      var a := lab.vm.pages;
      var spare := SpareFrames(entries, a.metadataBase, a.metadataBase + a.metadataPages * 4096);
      && Effects.Managed(a.Abs()) == spare && |lab.vm.mem| == |mem|
      && (forall f :: 0 <= f < |mem| && f !in spare ==> lab.vm.mem[f] == mem[f])
  {
    hide InUsable, Highest, CanInit, OwnOk, FamilyOk, Told, Boot, MachineOk, SpareFrames, Build.Price, Effects.Managed;
    var pages := new Allocator();
    var ok := pages.Init(Some(entries), hhdm);
    if !ok { return null; }
    InitGivesBoot(cfg, entries, mem, bootRoot, pages);
    var vm := new VirtualMemoryClass.VirtualMemory(pages, cfg.boot, mem, bootRoot);
    lab := new LaboratoryClass.Laboratory(cfg, vm);
    ghost var m := vm.Abs();
    BootFacts(cfg, m, bootRoot);
    lab.TaskStart();
    if lab.panic == None {
      RunTheorems.BootMemory(cfg, m, bootRoot);
    }
  }
}
