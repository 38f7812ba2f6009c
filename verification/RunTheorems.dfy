/** Theorems about every state and every run: isolation, fresh images, page conservation, delivery of
    exit statuses, bounded waiting and the host's replica. */
module RunTheorems {
  import opened Words
  import opened PageModel
  import opened PageTables
  import opened UserCopy
  import opened KernelModel
  import opened Build
  import opened TraceText
  import opened HostModel
  import opened Invariant
  import opened Copies
  import opened QuietSteps
  import opened Spawning
  import opened Safety
  import opened Effects
  import StepTheorems
  import RunSizes

  // ---- isolation ----

  lemma LiveHeld(cfg: Config, k: Kernel, i: nat)
    requires Inv(cfg, k) && i < TASK_LIMIT && k.tasks[i].state.Live()
    ensures Held(cfg, k.m, k.tasks[i]) && MachineOk(k.m)
  {
    hide Held, FamilyOk, Told, Apart, AllOwned;
    assert Holder(k.tasks[i], i, NOBODY);
  }

  /** No frame is user-mapped by two processes, nor both user-mapped and a page table; no frame is mapped
      twice in one process; nothing is both writable and executable; every mapping is a user mapping. */
  lemma Isolation(cfg: Config, k: Kernel, i: nat, j: nat, a: nat, b: nat)
    requires Inv(cfg, k) && i < TASK_LIMIT && j < TASK_LIMIT && k.tasks[i].state.Live() && k.tasks[j].state.Live()
    requires Lookup(k.m.mem, k.tasks[i].space, a).Some? && Lookup(k.m.mem, k.tasks[j].space, b).Some?
    ensures var x, y := Lookup(k.m.mem, k.tasks[i].space, a).value, Lookup(k.m.mem, k.tasks[j].space, b).value;
            && (i != j || a != b ==> x.physical != y.physical)
            && (i != j ==> x.physical / 4096 != y.physical / 4096)
            && x.physical / 4096 !in k.tasks[j].space.tables
            && x.rights.user && !(x.rights.write && x.rights.exec)
  {
    hide OwnOk, FamilyOk, Told, Lookup, Held, MachineOk;
    LiveHeld(cfg, k, i);
    LiveHeld(cfg, k, j);
    PermittedPage(cfg, k.m, k.tasks[i], a);
    PermittedPage(cfg, k.m, k.tasks[j], b);
    var x, y := Lookup(k.m.mem, k.tasks[i].space, a).value, Lookup(k.m.mem, k.tasks[j].space, b).value;
    PagesApart(cfg, k, i, j, x.physical / 4096, y.physical / 4096);
    if i == j && a != b {
      NoAliases(cfg, k.m, k.tasks[i], a, b);
    }
    LayoutRights(cfg, k.m, k.tasks[i], a);
  }

  lemma PagesApart(cfg: Config, k: Kernel, i: nat, j: nat, f: nat, g: nat)
    requires Inv(cfg, k) && i < TASK_LIMIT && j < TASK_LIMIT && k.tasks[i].state.Live() && k.tasks[j].state.Live()
    requires f in k.tasks[i].pages && g in k.tasks[j].pages
    ensures i != j ==> f != g
    ensures f !in k.tasks[j].space.tables
  {
    hide Mapped, FamilyOk, Told, AllOwned, MachineOk;
    LiveHeld(cfg, k, i);
    assert f in Elements(k.tasks[i].pages) && g in Elements(k.tasks[j].pages);
    if i != j {
      assert Owned(k.tasks[i]) !! Owned(k.tasks[j]);
    }
    assert f !in Elements(k.tasks[j].space.tables);
  }

  lemma LayoutRights(cfg: Config, m: Machine, t: Task, a: nat)
    requires ConfigOk(cfg) && Held(cfg, m, t) && Lookup(m.mem, t.space, a).Some?
    ensures var x := Lookup(m.mem, t.space, a).value; x.rights.user && !(x.rights.write && x.rights.exec)
  {
    hide Mapped, Lookup, LayoutPage;
    HeldLookup(cfg, m, t, a);
  }

  lemma SameView(cfg: Config, mem: Memory, m: Machine, t: Task, address: nat)
    requires ConfigOk(cfg) && MachineOk(m) && Held(cfg, m, t) && MemoryOk(mem) && |mem| == |m.mem|
    requires forall f :: f in Owned(t) && f < |mem| ==> mem[f] == m.mem[f]
    ensures UserByte(mem, t.space, address) == UserByte(m.mem, t.space, address)
  {
    hide Represents, LayoutFlat, Lookup, MachineOk, ReadByte;
    var flat := LayoutFlat(CodePages(cfg), t.pages);
    var tree :| Represents(m.mem, cfg.boot, t.space, tree, flat);
    forall f | f in t.space.tables && f < |mem| ensures mem[f] == m.mem[f] { assert f in Owned(t); }
    RepresentsFrame(m.mem, mem, cfg.boot, t.space, tree, flat);
    LookupFacts(m.mem, cfg.boot, t.space, tree, flat, address);
    LookupFacts(mem, cfg.boot, t.space, tree, flat, address);
    if Lookup(m.mem, t.space, address).Some? {
      PermittedPage(cfg, m, t, address);
      var p := Lookup(m.mem, t.space, address).value.physical;
      assert p / 4096 in Owned(t);
      SameByteRead(m.mem, mem, p);
    }
  }

  lemma SameByteRead(mem: Memory, mem': Memory, p: nat)
    requires p / 4096 < |mem| == |mem'| && mem'[p / 4096] == mem[p / 4096]
    ensures ReadByte(mem', p) == ReadByte(mem, p)
  {
  }

  /** No step of one process, whatever it calls, stores or raises, changes a byte that another live process
      sees. */
  lemma MemoryIsPrivate(cfg: Config, k: Kernel, input: Input, i: nat, address: nat)
    requires Inv(cfg, k) && Safety.Doom(k, input) == None && i < TASK_LIMIT && i != k.current && k.tasks[i].state.Live()
    ensures var k' := Step(cfg, k, input);
            && k'.tasks[i].space == k.tasks[i].space && k'.tasks[i].pages == k.tasks[i].pages
            && UserByte(k'.m.mem, k'.tasks[i].space, address) == UserByte(k.m.mem, k.tasks[i].space, address)
  {
    hide FamilyOk, Told, Held, MachineOk, AllOwned, Step, Safety.Doom, UserByte;
    LiveHeld(cfg, k, i);
    Safety.StepKeeps(cfg, k, input);
    StepTheorems.OthersKept(cfg, k, input, i);
    StepTheorems.MemoryKept(cfg, k, input);
    var k' := Step(cfg, k, input);
    InvMemory(cfg, k');
    assert Owned(k.tasks[i]) !! Owned(k.tasks[k.current]);
    forall f | f in Owned(k.tasks[i]) && f < |k.m.mem|
      ensures k'.m.mem[f] == k.m.mem[f]
    {
      OwnedNotFree(cfg, k, i, f);
      assert f !in Owned(k.tasks[k.current]);
      PagesOwned(k.tasks[k.current], f);
    }
    SameView(cfg, k'.m.mem, k.m, k.tasks[i], address);
  }

  lemma InvMemory(cfg: Config, k: Kernel)
    requires Inv(cfg, k)
    ensures MemoryOk(k.m.mem) && ConfigOk(cfg)
  {
    hide SlotsHeld, Apart, AllOwned, FamilyOk, Told, Valid;
  }

  lemma PagesOwned(t: Task, f: nat)
    ensures f in t.pages ==> f in Owned(t)
  {
  }

  lemma OwnedNotFree(cfg: Config, k: Kernel, i: nat, f: nat)
    requires Inv(cfg, k) && i < TASK_LIMIT && f in Owned(k.tasks[i])
    ensures f !in FreeSet(k.m.pages)
  {
    hide FamilyOk, Told, Held, Apart, AllOwned, MachineOk;
    OwnedLive(cfg, k.m, k.tasks, i);
    FreeAndLiveDisjoint(k.m.pages);
  }

  // ---- the image of a new process ----

  /** Through its own page tables a process just spawned reads the embedded image at 0x400000 followed
      by zeros to the page end, and zeros in its data and stack pages; code is not writable, data and
      stack not executable, and nothing else is mapped. */
  lemma FreshImage(cfg: Config, k: Kernel, program: nat, address: nat)
    requires Inv(cfg, k) && MaySpawn(k.tasks[k.current], program) && Price(cfg) <= k.m.pages.free
    requires FindUnused(k.tasks, 0) < TASK_LIMIT
    ensures var k' := Spawn(cfg, k, program, k.tasks[k.current].id).k;
            var t := k'.tasks[FindUnused(k.tasks, 0)];
            var code := CodePages(cfg);
            var x := Lookup(k'.m.mem, t.space, address);
            if USER_CODE <= address < USER_CODE + code * 4096 then
              && x.Some? && x.value.rights == Rights(false, true, true)
              && UserByte(k'.m.mem, t.space, address) ==
                 Some(if address - USER_CODE < |cfg.image| then cfg.image[address - USER_CODE] else 0)
            else if USER_DATA <= address < USER_DATA + 4096 || USER_STACK <= address < USER_STACK + 8192 then
              && x.Some? && x.value.rights == Rights(true, true, false)
              && UserByte(k'.m.mem, t.space, address) == Some(0)
            else x == None
  {
    hide OwnOk, FamilyOk, Told, Spawn, Lookup, Holding, Held, Fresh, ReadByte, Price, FindUnused;
    SpawnEffect(cfg, k, program);
    FindUnusedFacts(k.tasks, 0);
    var k' := Spawn(cfg, k, program, k.tasks[k.current].id).k;
    var t := k'.tasks[FindUnused(k.tasks, 0)];
    ImageByte(cfg, k'.m, t, address);
  }

  function LayoutIndex(code: nat, address: nat): Option<nat> {
    if USER_CODE <= address < USER_CODE + code * 4096 then Some((address - USER_CODE) / 4096)
    else if USER_DATA <= address < USER_DATA + 4096 then Some(code)
    else if USER_STACK <= address < USER_STACK + 8192 then Some(code + 1 + (address - USER_STACK) / 4096)
    else None
  }

  lemma LayoutIndexFacts(code: nat, address: nat, j: nat)
    requires 1 <= code <= 16 && j < code + 3
    ensures LayoutPage(code, j) == address / 4096 <==> LayoutIndex(code, address) == Some(j)
  {
    LayoutPages(code, j);
  }

  lemma ImageByte(cfg: Config, m: Machine, t: Task, address: nat)
    requires ConfigOk(cfg) && Held(cfg, m, t)
    requires forall j :: 0 <= j < |t.pages| ==> Fresh(cfg, m.mem, t.pages[j], j)
    ensures var code := CodePages(cfg);
            var x := Lookup(m.mem, t.space, address);
            match LayoutIndex(code, address)
            case None => x == None
            case Some(j) =>
              && j < code + 3 && x.Some? && x.value.rights == RightsOf(LayoutFlags(code, j))
              && UserByte(m.mem, t.space, address) == Some(FreshByte(cfg, j, address % 4096))
  {
    hide Lookup, Mapped, LayoutPage, LayoutAddress, ReadByte, Fresh, RightsOf;
    var code := CodePages(cfg);
    CodeBound(cfg);
    HeldLookup(cfg, m, t, address);
    forall j | 0 <= j < code + 3
      ensures LayoutPage(code, j) == address / 4096 <==> LayoutIndex(code, address) == Some(j)
    {
      LayoutIndexFacts(code, address, j);
    }
    if LayoutIndex(code, address).Some? {
      var j := LayoutIndex(code, address).value;
      assert LayoutPage(code, j) == address / 4096;
      FreshAt(cfg, m.mem, t.pages[j], j, address % 4096);
    }
  }

  lemma FreshAt(cfg: Config, mem: Memory, frame: nat, j: nat, o: nat)
    requires Fresh(cfg, mem, frame, j) && o < 4096
    ensures ReadByte(mem, frame * 4096 + o) == FreshByte(cfg, j, o)
  {
    hide ReadByte;
    assert PageByte(mem, frame, o) == FreshByte(cfg, j, o);
  }

  // ---- conservation of pages ----

  function LiveCount(tasks: seq<Task>): nat {
    if tasks == [] then 0 else LiveCount(tasks[..|tasks| - 1]) + if tasks[|tasks| - 1].state.Live() then 1 else 0
  }

  ghost function AllOwnedFrames(tasks: seq<Task>): set<nat> {
    if tasks == [] then {} else AllOwnedFrames(tasks[..|tasks| - 1]) + Owned(tasks[|tasks| - 1])
  }

  lemma {:induction false} AllOwnedFacts(tasks: seq<Task>, f: nat)
    ensures f in AllOwnedFrames(tasks) <==> exists i :: 0 <= i < |tasks| && f in Owned(tasks[i])
    decreases |tasks|
  {
    hide Owned;
    if tasks != [] {
      var before, last := tasks[..|tasks| - 1], |tasks| - 1;
      AllOwnedFacts(before, f);
      if exists i :: 0 <= i < |tasks| && f in Owned(tasks[i]) {
        var i :| 0 <= i < |tasks| && f in Owned(tasks[i]);
        assert i == last || f in Owned(before[i]);
      }
      if f in AllOwnedFrames(before) {
        var i :| 0 <= i < |before| && f in Owned(before[i]);
        assert f in Owned(tasks[i]);
      } else if f in Owned(tasks[last]) {
        assert 0 <= last < |tasks| && f in Owned(tasks[last]);
      }
    }
  }

  lemma PriceOf(cfg: Config, m: Machine, t: Task)
    requires Held(cfg, m, t)
    ensures |Owned(t)| == Price(cfg)
  {
    hide Mapped;
    DistinctCount(t.space.tables);
    DistinctCount(t.pages);
  }

  lemma {:induction false} OwnedCount(cfg: Config, m: Machine, tasks: seq<Task>)
    requires SlotsHeld(cfg, m, tasks, NOBODY) && Apart(tasks) && |tasks| <= 8
    ensures |AllOwnedFrames(tasks)| == Price(cfg) * LiveCount(tasks)
    decreases |tasks|
  {
    hide Held, Price, Owned, Bare;
    if tasks != [] {
      var before, t := tasks[..|tasks| - 1], tasks[|tasks| - 1];
      OwnedCount(cfg, m, before);
      LastApart(tasks);
      assert Holder(t, |tasks| - 1, NOBODY) == t.state.Live();
      if t.state.Live() {
        PriceOf(cfg, m, t);
        assert Price(cfg) * (LiveCount(before) + 1) == Price(cfg) * LiveCount(before) + Price(cfg);
      } else {
        BareOwnsNothing(t);
      }
    }
  }

  lemma BareOwnsNothing(t: Task)
    requires Bare(t)
    ensures Owned(t) == {}
  {
  }

  lemma LastApart(tasks: seq<Task>)
    requires Apart(tasks) && tasks != []
    ensures AllOwnedFrames(tasks[..|tasks| - 1]) !! Owned(tasks[|tasks| - 1])
  {
    hide Owned, AllOwnedFrames;
    var before, t := tasks[..|tasks| - 1], tasks[|tasks| - 1];
    forall f | f in AllOwnedFrames(before)
      ensures f !in Owned(t)
    {
      AllOwnedFacts(before, f);
      var i :| 0 <= i < |before| && f in Owned(before[i]);
      assert Owned(tasks[i]) !! Owned(tasks[|tasks| - 1]);
    }
  }

  /** The live frames number exactly the price of a process for each ready or waiting task; zombies
      hold nothing. */
  lemma LivePages(cfg: Config, k: Kernel)
    requires Inv(cfg, k)
    ensures |LiveSet(k.m.pages)| == Price(cfg) * LiveCount(k.tasks)
    ensures k.m.pages.free + Price(cfg) * LiveCount(k.tasks) == |Managed(k.m.pages)|
  {
    hide FamilyOk, Told, Price, Held;
    OwnedCount(cfg, k.m, k.tasks);
    forall f
      ensures f in LiveSet(k.m.pages) <==> f in AllOwnedFrames(k.tasks)
    {
      if f >= 0 {
        AllOwnedFacts(k.tasks, f);
      }
      if f in AllOwnedFrames(k.tasks) {
        var i :| 0 <= i < |k.tasks| && f in Owned(k.tasks[i]);
        OwnedLive(cfg, k.m, k.tasks, i);
      }
    }
    assert LiveSet(k.m.pages) == AllOwnedFrames(k.tasks);
    ManagedCount(k.m.pages);
  }

  lemma {:induction false} RunManaged(cfg: Config, k: Kernel, inputs: seq<Input>)
    requires Inv(cfg, k) && Run(cfg, k, inputs).panic == None
    ensures var k' := Run(cfg, k, inputs);
            && Inv(cfg, k') && Managed(k'.m.pages) == Managed(k.m.pages) && |k'.m.mem| == |k.m.mem|
            && (forall f :: 0 <= f < |k.m.mem| && f !in Managed(k.m.pages) ==> k'.m.mem[f] == k.m.mem[f])
    decreases |inputs|
  {
    hide OwnOk, FamilyOk, Told, Step, Managed, Doom;
    StillUp(cfg, k, inputs);
    if inputs != [] {
      var before, last := inputs[..|inputs| - 1], inputs[|inputs| - 1];
      var k1 := Run(cfg, k, before);
      RunManaged(cfg, k, before);
      StepTheorems.MemoryKept(cfg, k1, last);
      forall f | 0 <= f < |k.m.mem| && f !in Managed(k.m.pages)
        ensures Run(cfg, k, inputs).m.mem[f] == k.m.mem[f]
      {
        StepTheorems.UnmanagedKept(cfg, k1, last, f);
      }
    }
  }

  // ---- what lies outside the managed pages ----

  lemma BootMemory(cfg: Config, m: Machine, bootRoot: nat)
    requires BootOk(cfg, m, bootRoot) && 1 <= |cfg.image| <= 65536 && Price(cfg) <= m.pages.free
    ensures var k := Boot(cfg, m, bootRoot);
            && Managed(k.m.pages) == Managed(m.pages) && |k.m.mem| == |m.mem|
            && (forall f :: 0 <= f < |m.mem| && f !in Managed(m.pages) ==> k.m.mem[f] == m.mem[f])
  {
    hide OwnOk, FamilyOk, Known, Told, Spawn, Held, MachineOk, Fresh, FindUnused, Price, Owned, LiveSet, FreeSet;
    ColdFacts(cfg, m, bootRoot);
    var k := Emit(Cold(m, bootRoot), BootRecord(0));
    SpawnSucceeds(cfg, k, k.tasks, PROGRAM_INIT, 0, 0);
  }

  /** Over every run from power-on no frame outside the managed pages ever changes: neither the frames that
      hold the allocator's state array nor the boot root table, which therefore keeps the words every new
      root is made from. */
  lemma UnmanagedUntouched(cfg: Config, m: Machine, bootRoot: nat, inputs: seq<Input>, f: nat)
    requires BootOk(cfg, m, bootRoot) && 1 <= |cfg.image| <= 65536 && Price(cfg) <= m.pages.free
    requires Run(cfg, Boot(cfg, m, bootRoot), inputs).panic == None && f < |m.mem| && f !in FreeSet(m.pages)
    ensures var k := Run(cfg, Boot(cfg, m, bootRoot), inputs);
            && |k.m.mem| == |m.mem| && f !in Managed(k.m.pages)
            && k.m.mem[f] == m.mem[f] && k.m.mem[bootRoot] == cfg.boot
  {
    hide Inv, Boot, Run, MachineOk, Price;
    BootFacts(cfg, m, bootRoot);
    BootMemory(cfg, m, bootRoot);
    RunManaged(cfg, Boot(cfg, m, bootRoot), inputs);
  }

  /** The kernel half of every process, in every reachable state, is the kernel half of the boot root table
      as it stands in memory, without its user bits. */
  lemma KernelHalfShared(cfg: Config, m: Machine, bootRoot: nat, inputs: seq<Input>, i: nat, j: nat)
    requires BootOk(cfg, m, bootRoot) && 1 <= |cfg.image| <= 65536 && Price(cfg) <= m.pages.free
    requires Run(cfg, Boot(cfg, m, bootRoot), inputs).panic == None && i < TASK_LIMIT && 256 <= j < 512
    requires Run(cfg, Boot(cfg, m, bootRoot), inputs).tasks[i].state.Live()
    ensures var k := Run(cfg, Boot(cfg, m, bootRoot), inputs);
            var w := Word(k.m.mem, k.tasks[i].space.root, j);
            w == ClearUser(Word(k.m.mem, bootRoot, j)) && !UserBit(w)
  {
    hide Inv, Boot, Run, MachineOk, Price, Represents, LayoutFlat, ClearUser, UserBit;
    Reachable(cfg, m, bootRoot, inputs);
    UnmanagedUntouched(cfg, m, bootRoot, inputs, bootRoot);
    var k := Run(cfg, Boot(cfg, m, bootRoot), inputs);
    LiveHeld(cfg, k, i);
    var t := k.tasks[i];
    var tree :| Represents(k.m.mem, cfg.boot, t.space, tree, LayoutFlat(CodePages(cfg), t.pages));
    UpperHalfIsBoot(k.m.mem, cfg.boot, t.space, tree, LayoutFlat(CodePages(cfg), t.pages), j);
  }

  /** Page conservation over every run from boot: what is free is what was free at boot minus the price
      of a process for each task that is ready or waiting. */
  lemma PagesConserved(cfg: Config, m: Machine, bootRoot: nat, inputs: seq<Input>)
    requires BootOk(cfg, m, bootRoot) && 1 <= |cfg.image| <= 65536 && Price(cfg) <= m.pages.free
    requires Run(cfg, Boot(cfg, m, bootRoot), inputs).panic == None
    ensures var k := Run(cfg, Boot(cfg, m, bootRoot), inputs);
            k.m.pages.free + Price(cfg) * LiveCount(k.tasks) == m.pages.free
  {
    hide Inv, Boot, Run, MachineOk, Price, LiveCount;
    BootFacts(cfg, m, bootRoot);
    var k0 := Boot(cfg, m, bootRoot);
    RunManaged(cfg, k0, inputs);
    LivePages(cfg, Run(cfg, k0, inputs));
    LivePages(cfg, k0);
    BootOneLive(cfg, m, bootRoot);
    assert Price(cfg) * 1 == Price(cfg);
  }

  lemma BootOneLive(cfg: Config, m: Machine, bootRoot: nat)
    requires BootOk(cfg, m, bootRoot) && 1 <= |cfg.image| <= 65536 && Price(cfg) <= m.pages.free
    ensures LiveCount(Boot(cfg, m, bootRoot).tasks) == 1
  {
    hide OwnOk, FamilyOk, Known, Told, Spawn, Held, Holding, MachineOk, Fresh, FindUnused, Price, LiveCount;
    ColdFacts(cfg, m, bootRoot);
    var k := Emit(Cold(m, bootRoot), BootRecord(0));
    SpawnSucceeds(cfg, k, k.tasks, PROGRAM_INIT, 0, 0);
    var tasks := Spawn(cfg, k, PROGRAM_INIT, 0).k.tasks;
    OneLive(tasks, 8);
    assert tasks[..8] == tasks;
  }

  lemma {:induction false} OneLive(tasks: seq<Task>, n: nat)
    requires 1 <= n <= |tasks| && tasks[0].state == Ready && forall i :: 1 <= i < |tasks| ==> tasks[i].state == Unused
    ensures LiveCount(tasks[..n]) == 1
    decreases n
  {
    assert tasks[..n][..n - 1] == tasks[..n - 1];
    if n > 1 {
      OneLive(tasks, n - 1);
    } else {
      assert LiveCount(tasks[..0]) == 0;
    }
  }

  // ---- the replica ----

  /** The pids of the slots in use. */
  ghost function Pids(tasks: seq<Task>): set<nat> { set i | 0 <= i < |tasks| && tasks[i].state != Unused :: tasks[i].id }

  lemma PidsKnown(cfg: Config, h: Host, tasks: seq<Task>)
    requires TablesAgree(cfg, h, tasks)
    ensures h.processes.Keys == Pids(tasks)
  {
    hide SlotAgrees;
    forall pid | pid in h.processes
      ensures pid in Pids(tasks)
    {
      assert KnownPid(tasks, pid);
    }
    forall pid | pid in Pids(tasks)
      ensures pid in h.processes
    {
      var i :| 0 <= i < |tasks| && tasks[i].state != Unused && tasks[i].id == pid;
      KnownSlot(cfg, h, tasks, i);
    }
  }

  lemma KnownSlot(cfg: Config, h: Host, tasks: seq<Task>, i: nat)
    requires TablesAgree(cfg, h, tasks) && i < |tasks| && tasks[i].state != Unused
    ensures tasks[i].id in h.processes
  {
    assert SlotAgrees(cfg, h, tasks[i]);
  }

  /** Trace replica: after any run from boot that is still up, with 64-bit registers and fewer than 2^32
      spawns, however the serial stream was cut into chunks, the host holds exactly the kernel's pids, with parent, program, state and root of each, the exact mappings of
      every ready or waiting task, and the frame and free counts. */
  lemma ReplicaAgrees(cfg: Config, m: Machine, bootRoot: nat, inputs: seq<Input>, chunks: seq<string>)
    requires BootOk(cfg, m, bootRoot) && 1 <= |cfg.image| <= 65536 && Price(cfg) <= m.pages.free
    requires RunSizes.WordInputs(inputs)
    requires var k := Run(cfg, Boot(cfg, m, bootRoot), inputs);
             k.panic == None && k.nextPid <= RunSizes.PID_LIMIT && Concat(chunks) == Stream(k.trace)
    ensures var k := Run(cfg, Boot(cfg, m, bootRoot), inputs);
            var reader := FeedAll(Reader("", [], false), chunks);
            var h := HostLines(reader.lines);
            && !reader.failed && !h.raised && h.host.processes.Keys == Pids(k.tasks)
            && (forall i :: 0 <= i < TASK_LIMIT ==> SlotAgrees(cfg, h.host, k.tasks[i]))
            && MemoryAgrees(h.host, k.m.pages)
  {
    hide Boot, Run, MachineOk, Price, OwnOk, FamilyOk, Concat, Stream, ShortLines, FeedAll, HostLines, Replay, SlotAgrees, Pids;
    Reachable(cfg, m, bootRoot, inputs);
    RunSizes.TraceIsShort(cfg, m, bootRoot, inputs);
    var k := Run(cfg, Boot(cfg, m, bootRoot), inputs);
    StreamReplay(k.trace, chunks);
    PidsKnown(cfg, Replay(k.trace), k.tasks);
  }

  // ---- deadlock freedom ----

  /** In every reachable state the running task is ready on its own page tables, and from every waiting
      task a chain of children with growing pids leads to a ready one. */
  lemma NeverStuck(cfg: Config, k: Kernel, i: nat) returns (r: nat)
    requires Inv(cfg, k) && i < TASK_LIMIT && k.tasks[i].state.Live()
    ensures r < TASK_LIMIT && k.tasks[r].state == Ready && k.tasks[i].id <= k.tasks[r].id
    ensures k.tasks[k.current].state == Ready && k.root == k.tasks[k.current].space.root
    ensures NextReady(k).Some?
  {
    hide OwnOk, FamilyOk, Told;
    r := SomeReady(k.tasks, k.nextPid, i);
    ReadyFound(k.tasks, k.current, r);
  }
}
