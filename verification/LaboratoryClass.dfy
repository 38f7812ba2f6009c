/** kernel/laboratory.c and kernel/usercopy.c in place: task slots, clock, trace and page tables updated
    statement by statement. Every method is proved to be the step of the same name in KernelModel. */
module LaboratoryClass {
  import opened Words
  import opened PageModel
  import opened PageTables
  import opened UserCopy
  import opened RamFs
  import opened KernelModel
  import VirtualMemoryClass

  /** The same outcome; after a panic nothing else matters. */
  ghost predicate Matches(k: Kernel, spec: Kernel) { k.panic == spec.panic && (k.panic == None ==> k == spec) }

  lemma StoreOk(mem: Memory, f: nat, i: nat, w: nat)
    requires MemoryOk(mem)
    ensures MemoryOk(Store(mem, f, i, w)) && |Store(mem, f, i, w)| == |mem|
  {
  }

  lemma ReleaseOk(p: Pages, address: nat)
    requires Valid(p) && |p.states| > 0 && p.states[0].Unmanaged? && Release(p, address).Some?
    ensures var q := Release(p, address).value; Valid(q) && |q.states| == |p.states| && q.states[0].Unmanaged?
  {
    assert address == address / 4096 * 4096;
    ReleaseFacts(p, address / 4096);
  }

  lemma {:induction false} ReleaseBackOk(p: Pages, frames: seq<nat>)
    requires Valid(p) && |p.states| > 0 && p.states[0].Unmanaged? && ReleaseBack(p, frames).Some?
    ensures var q := ReleaseBack(p, frames).value; Valid(q) && |q.states| == |p.states| && q.states[0].Unmanaged?
    decreases |frames|
  {
    hide Release, Valid;
    if frames != [] {
      var address := frames[|frames| - 1] * 4096;
      ReleaseOk(p, address);
      ReleaseBackOk(Release(p, address).value, frames[..|frames| - 1]);
    }
  }

  class Laboratory {
    const cfg: Config
    const vm: VirtualMemoryClass.VirtualMemory
    const tasks: array<Task>
    var current: nat
    var nextPid: nat
    var ticks: nat
    var trace: seq<Record>
    var console: seq<nat>
    var panic: Option<Panic>

    ghost function Abs(): Kernel
      reads this, tasks, vm, vm.pages, vm.pages.states
    {
      Kernel(vm.Abs(), vm.active, tasks[..], current, nextPid, ticks, trace, console, panic)
    }

    /** The shape every method keeps while the kernel runs. */
    ghost predicate Fit()
      reads this, tasks, vm, vm.pages, vm.pages.states
    {
      tasks.Length == TASK_LIMIT && current < TASK_LIMIT && vm.Sound() && vm.boot == cfg.boot && panic == None
    }

    constructor (cfg: Config, vm: VirtualMemoryClass.VirtualMemory)
      requires vm.Sound() && vm.boot == cfg.boot
      ensures this.cfg == cfg && this.vm == vm && fresh(tasks) && Fit()
      ensures Abs() == Cold(vm.Abs(), vm.active)
    {
      this.cfg, this.vm := cfg, vm;
      tasks := new Task[8](_ => EMPTY_TASK);
      current, nextPid, ticks, trace, console, panic := 0, 1, 0, [], [], None;
      new;
      assert tasks[..] == Cold(vm.Abs(), vm.active).tasks;
    }

    // ---- records ----

    /** process_event */
    method ReportProcess(i: nat)
      requires Fit() && i < TASK_LIMIT
      modifies this`trace
      ensures Fit() && Abs() == ProcessEvent(old(Abs()), i)
    {
      var t := tasks[i];
      trace := trace + [ProcessRecord(ticks, t.id, t.parent, t.program, t.state, t.space.root * 4096, t.slices,
                                      i == current && t.state == Ready)];
    }

    /** memory_event */
    method ReportMemory()
      requires Fit()
      modifies this`trace
      ensures Fit() && Abs() == MemoryEvent(old(Abs()))
    {
      trace := trace + [MemoryRecord(ticks, vm.pages.states.Length, vm.pages.free)];
    }

    /** mappings_event */
    method ReportMappings(t: Task)
      requires Fit()
      modifies this`trace, this`panic
      ensures Matches(Abs(), MappingsEvent(cfg, old(Abs()), t)) && (panic == None ==> Fit())
    {
      hide Lookup, LayoutAddress;
      if t.space.root == 0 { return; }
      var code := CodePages(cfg);
      var i := 0;
      while i < code + 3
        modifies this`trace, this`panic
        invariant 0 <= i <= code + 3 && Fit()
        invariant MapEvents(cfg, old(Abs()), t, 0) == MapEvents(cfg, Abs(), t, i)
      {
        var x := vm.Lookup(t.space, LayoutAddress(code, i));
        if x == None { panic := Some(MappingDisappeared); return; }
        trace := trace + [MapRecord(ticks, t.id, LayoutAddress(code, i), x.value.physical, x.value.rights.Bits(), LayoutPart(code, i))];
        i := i + 1;
      }
      var backed := vm.pages.Data(t.dataPage * 4096);
      if !backed { panic := Some(KernelFault); return; }
      trace := trace + [DataRecord(ticks, t.id, USER_DATA, t.dataPage * 4096, Word(vm.mem, t.dataPage, 0))];
    }

    /** inspect */
    method InspectAll()
      requires Fit()
      modifies this`trace, this`panic
      ensures Matches(Abs(), Inspect(cfg, old(Abs()))) && (panic == None ==> Fit())
    {
      hide MappingsEvent, ProcessEvent, MachineOk;
      trace := trace + [SnapshotRecord(ticks)];
      ghost var start := Abs();
      var i := 0;
      while i < TASK_LIMIT
        modifies this`trace, this`panic
        invariant 0 <= i <= TASK_LIMIT && Fit()
        invariant InspectFrom(cfg, start, 0) == InspectFrom(cfg, Abs(), i)
      {
        if tasks[i].state != Unused {
          ReportProcess(i);
          ReportMappings(tasks[i]);
          if panic.Some? { return; }
        }
        i := i + 1;
      }
      ReportMemory();
      trace := trace + [SnapshotEndRecord(ticks)];
    }

    // ---- building and releasing a process ----

    /** map_owned */
    method MapOwned(t: Task, va: nat, flags: nat) returns (t': Task, ok: bool)
      requires Fit()
      modifies vm`mem, vm.pages`free, vm.pages`next, vm.pages.states
      ensures Building(vm.Abs(), t', ok) == KernelModel.MapOwned(old(vm.Abs()), t, va, flags) && Fit()
      ensures ok ==> t'.pages != [] && t'.pages[|t'.pages| - 1] < |vm.mem|
    {
      hide Map, Alloc;
      if |t.pages| == 19 { return t, false; }
      var r := vm.PageAlloc();
      if r == None { return t, false; }
      t' := t.(pages := t.pages + [r.value]);
      vm.ClearFrame(r.value);
      var space;
      space, ok := vm.Map(t'.space, va, r.value * 4096, flags);
      t' := t'.(space := space);
    }

    /** memcpy of an image chunk to the start of a frame. */
    method FillPage(f: nat, bytes: seq<nat>)
      requires Fit()
      modifies vm`mem
      ensures vm.mem == FillFrame(old(vm.mem), f, bytes, |bytes|) && Fit()
    {
      hide Store, SetByte;
      var k := 0;
      while k < |bytes|
        modifies vm`mem
        invariant 0 <= k <= |bytes| && vm.mem == FillFrame(old(vm.mem), f, bytes, k) && Fit()
      {
        var physical := f * 4096 + k;
        StoreOk(vm.mem, physical / 4096, physical % 4096 / 8, SetByte(Word(vm.mem, physical / 4096, physical % 4096 / 8), physical % 8, bytes[k]));
        vm.mem := WriteByte(vm.mem, physical, bytes[k]);
        k := k + 1;
      }
    }

    /** The four mapping groups of prepare: the loop over code pages, then data and two stack pages. */
    method BuildPages(t: Task) returns (t': Task, ok: bool)
      requires Fit()
      modifies vm`mem, vm.pages`free, vm.pages`next, vm.pages.states
      ensures Building(vm.Abs(), t', ok) == BuildFrom(cfg, old(vm.Abs()), t, 0) && Fit()
    {
      hide KernelModel.MapOwned, FillFrame, LayoutAddress, LayoutFlags, ImageChunk;
      var code := CodePages(cfg);
      t', ok := t, true;
      var i := 0;
      while i < code
        invariant 0 <= i <= code && Fit()
        invariant BuildFrom(cfg, old(vm.Abs()), t, 0) == BuildFrom(cfg, vm.Abs(), t', i)
      {
        t', ok := MapOwned(t', LayoutAddress(code, i), LayoutFlags(code, i));
        if !ok { return; }
        FillPage(t'.pages[|t'.pages| - 1], ImageChunk(cfg.image, i));
        i := i + 1;
      }
      ghost var spec := BuildFrom(cfg, old(vm.Abs()), t, 0);
      t', ok := MapOwned(t', LayoutAddress(code, code), LayoutFlags(code, code));
      if !ok { return; }
      t' := t'.(dataPage := t'.pages[|t'.pages| - 1]);
      assert spec == BuildFrom(cfg, vm.Abs(), t', code + 1);
      t', ok := MapOwned(t', LayoutAddress(code, code + 1), LayoutFlags(code, code + 1));
      if !ok { return; }
      assert spec == BuildFrom(cfg, vm.Abs(), t', code + 2);
      t', ok := MapOwned(t', LayoutAddress(code, code + 2), LayoutFlags(code, code + 2));
      if !ok { return; }
      assert spec == BuildFrom(cfg, vm.Abs(), t', code + 3);
    }

    /** prepare */
    method PrepareTask(t: Task) returns (t': Task, ok: bool)
      requires Fit()
      modifies vm`mem, vm.pages`free, vm.pages`next, vm.pages.states
      ensures Building(vm.Abs(), t', ok) == Prepare(cfg, old(vm.Abs()), t) && Fit()
    {
      hide Create, BuildFrom;
      var space;
      space, ok := vm.Create(t.space);
      t' := t.(space := space);
      if !ok { return; }
      t', ok := BuildPages(t');
      if ok { t' := t'.(frame := FIRST_FRAME); }
    }

    /** release_pages */
    method ReleaseTask(t: Task) returns (t': Task, why: Option<Panic>)
      requires Fit()
      modifies vm.pages`free, vm.pages.states
      ensures match ReleasePages(old(vm.Abs()), t, vm.active)
              case ReleasePanic(p) => why == Some(p)
              case Released(m, r) => why == None && vm.Abs() == m && t' == r && Fit()
    {
      hide ReleaseBack, Release, CountFree;
      t', why := t, None;
      if t.space.root != 0 {
        ghost var before := vm.pages.Abs();
        var ok, panicked := vm.Destroy(t.space);
        if panicked { why := Some(TableOwnership); return; }
        if !ok { why := Some(ActiveRoot); return; }
        ReleaseBackOk(before, t.space.tables);
        t' := t.(space := NO_SPACE);
      }
      ghost var start := vm.pages.Abs();
      var i := 0;
      assert t.pages[0..] == t.pages;
      while i < |t.pages|
        invariant 0 <= i <= |t.pages| && Fit()
        invariant ReleaseAll(start, t.pages) == ReleaseAll(vm.pages.Abs(), t.pages[i..])
      {
        assert t.pages[i..][1..] == t.pages[i + 1..];
        ghost var before := vm.pages.Abs();
        var ok := vm.pages.Deallocate(t.pages[i] * 4096);
        if !ok { why := Some(PageOwnership); return; }
        ReleaseOk(before, t.pages[i] * 4096);
        i := i + 1;
      }
      t' := t'.(pages := []);
    }

    /** spawn */
    method SpawnTask(program: nat, parent: nat) returns (result: int)
      requires Fit()
      modifies this, tasks, vm`mem, vm.pages`free, vm.pages`next, vm.pages.states
      ensures var o := Spawn(cfg, old(Abs()), program, parent);
              Matches(Abs(), o.k) && (panic == None ==> Fit() && result == o.result)
    {
      hide Prepare, ReleasePages, Announce, FindUnused;
      var i := FreeSlot();
      if i == TASK_LIMIT { return -5; }
      var t := EMPTY_TASK.(id := nextPid, program := program, parent := parent);
      nextPid := nextPid + 1;
      var ok;
      t, ok := PrepareTask(t);
      if !ok {
        var why;
        t, why := ReleaseTask(t);
        if why.Some? { panic := why; return -5; }
        tasks[i] := EMPTY_TASK;
        return -5;
      }
      t := t.(state := Ready);
      tasks[i] := t;
      ReportSpawn(i);
      return t.id;
    }

    /** The search of spawn for an unused slot. */
    method FreeSlot() returns (i: nat)
      requires Fit()
      ensures i == FindUnused(tasks[..], 0) && i <= TASK_LIMIT
    {
      i := 0;
      while i < TASK_LIMIT && tasks[i].state != Unused
        modifies {}
        invariant 0 <= i <= TASK_LIMIT && FindUnused(tasks[..], 0) == FindUnused(tasks[..], i)
      {
        i := i + 1;
      }
    }

    /** The records at the end of a successful spawn. */
    method ReportSpawn(i: nat)
      requires Fit() && i < TASK_LIMIT
      modifies this`trace, this`panic
      ensures Matches(Abs(), Announce(cfg, old(Abs()), i)) && (panic == None ==> Fit())
    {
      hide MappingsEvent, ProcessEvent;
      var t := tasks[i];
      trace := trace + [SpawnRecord(ticks, t.id, t.parent, t.program)];
      ReportProcess(i);
      ReportMappings(t);
      if panic.Some? { return; }
      ReportMemory();
    }

    // ---- scheduling ----

    /** next_ready */
    method FindReady() returns (next: Option<nat>)
      requires Fit()
      ensures next == NextReady(Abs()) && (next.Some? ==> next.value < TASK_LIMIT)
    {
      var n := 1;
      while n <= TASK_LIMIT
        invariant 1 <= n <= TASK_LIMIT + 1
        invariant ReadyFrom(tasks[..], current, 1) == ReadyFrom(tasks[..], current, n)
      {
        var i := (current + n) % 8;
        if tasks[i].state == Ready { return Some(i); }
        n := n + 1;
      }
      return None;
    }

    /** select_task */
    method SelectTask(next: nat)
      requires Fit() && next < TASK_LIMIT
      modifies this`current, vm`active
      ensures Fit() && Abs() == Select(old(Abs()), next)
    {
      current := next;
      if vm.active != tasks[next].space.root { vm.active := tasks[next].space.root; }
    }

    /** select_task(next_ready()) */
    method SwitchAway()
      requires Fit()
      modifies this`current, this`panic, vm`active
      ensures Abs() == Reschedule(old(Abs())) && (panic == None ==> Fit())
    {
      var next := FindReady();
      if next == None { panic := Some(NoRunnableShell); return; }
      SelectTask(next.value);
    }

    /** task_tick */
    method TaskTick()
      requires Fit()
      modifies this, tasks, vm`active
      ensures Abs() == Tick(old(Abs())) && (panic == None ==> Fit())
    {
      hide NextReady;
      var t := tasks[current];
      if t.frame.cs % 4 != 3 { panic := Some(NotUserMode); return; }
      tasks[current] := t.(slices := (t.slices + 1) % 0x1_0000_0000);
      ticks := (ticks + 1) % 0x1_0000_0000_0000_0000;
      var next := FindReady();
      if next == None { panic := Some(NoRunnableShell); return; }
      if next.value != current {
        trace := trace + [ScheduleRecord(ticks, t.id, tasks[next.value].id, tasks[next.value].space.root * 4096, 3)];
      }
      SelectTask(next.value);
    }

    /** The loop of task_exit over possible parents. */
    method WakeParents(t: Task) returns (reaped: bool)
      requires Fit()
      modifies tasks, this`trace
      ensures Waking(Abs(), reaped) == WakeFrom(old(Abs()), t, 0, false) && Fit()
    {
      reaped := false;
      var i := 0;
      while i < TASK_LIMIT
        invariant 0 <= i <= TASK_LIMIT && Fit()
        invariant WakeFrom(old(Abs()), t, 0, false) == WakeFrom(Abs(), t, i, reaped)
      {
        var p := tasks[i];
        if p.id == t.parent && p.state == Waiting && p.waitingFor == t.id {
          tasks[i] := p.(frame := p.frame.(rax := t.status), state := Ready);
          reaped := true;
          ReportProcess(i);
        }
        i := i + 1;
      }
    }

    /** task_exit */
    method TaskExit(status: nat)
      requires Fit()
      modifies this, tasks, vm`active, vm.pages`free, vm.pages.states
      ensures Matches(Abs(), Exit(old(Abs()), status)) && (panic == None ==> Fit())
    {
      hide ReleasePages, NextReady, WakeFrom;
      var dying := current;
      if tasks[dying].program <= PROGRAM_SHELL { panic := Some(InitOrShellExited); return; }
      var t := tasks[dying].(status := status, state := Exited);
      tasks[dying] := t;
      trace := trace + [ExitRecord(ticks, t.id, status)];
      var reaped := WakeParents(t);
      SwitchAway();
      if panic.Some? { return; }
      var left, why := ReleaseTask(tasks[dying]);
      if why.Some? { panic := why; return; }
      tasks[dying] := if reaped then left.(state := Unused) else left;
      ReportProcess(dying);
      ReportMemory();
    }

    /** user_fault */
    method FaultTask(address: nat)
      requires Fit()
      modifies this, tasks, vm`active, vm.pages`free, vm.pages.states
      ensures Matches(Abs(), UserFault(old(Abs()), address)) && (panic == None ==> Fit())
    {
      hide Exit, FaultText;
      var t := tasks[current];
      var f := t.frame;
      trace := trace + [FaultRecord(ticks, t.id, f.vector, f.error, address, f.rip, f.cs % 4)];
      console := console + FaultText(t.id, f.vector);
      TaskExit(128 + f.vector);
    }

    method SetResult(i: nat, value: nat)
      requires Fit() && i < TASK_LIMIT
      modifies tasks
      ensures Fit() && Abs() == SetRax(old(Abs()), i, value)
    {
      tasks[i] := tasks[i].(frame := tasks[i].frame.(rax := value));
    }

    /** wait_child */
    method WaitFor(pid: nat)
      requires Fit()
      modifies this, tasks, vm`active
      ensures Abs() == WaitChild(old(Abs()), pid) && (panic == None ==> Fit())
    {
      hide Reschedule;
      var me := current;
      trace := trace + [WaitRecord(ticks, tasks[me].id, pid)];
      var c := 0;
      while c < TASK_LIMIT && !ChildOf(tasks[c], pid, tasks[me].id)
        modifies {}
        invariant 0 <= c <= TASK_LIMIT
        invariant FindChild(tasks[..], pid, tasks[me].id, 0) == FindChild(tasks[..], pid, tasks[me].id, c)
      {
        c := c + 1;
      }
      if c == TASK_LIMIT {
        SetResult(me, Unsigned(-3));
      } else if tasks[c].state == Exited {
        SetResult(me, tasks[c].status);
        tasks[c] := tasks[c].(state := Unused);
        ReportProcess(c);
      } else {
        tasks[me] := tasks[me].(state := Waiting, waitingFor := pid);
        ReportProcess(me);
        SwitchAway();
      }
    }

    // ---- user memory ----

    /** user_range: one lookup per page, not per byte. */
    method CheckRange(s: Space, address: nat, length: nat, writing: bool) returns (ok: bool)
      ensures ok == UserRange(vm.mem, s, address, length, writing)
    {
      hide PageTables.Lookup;
      if length > COPY_LIMIT || address >= ADDRESS_LIMIT || length > ADDRESS_LIMIT - address { return false; }
      var checked := 0;
      while checked < length
        invariant 0 <= checked <= length
        invariant RangeFrom(vm.mem, s, address, length, writing, 0) == RangeFrom(vm.mem, s, address, length, writing, checked)
      {
        var x := vm.Lookup(s, address + checked);
        if x == None || !x.value.rights.user || (writing && !x.value.rights.write) { return false; }
        var step := 4096 - (address + checked) % 4096;
        if step > length - checked { step := length - checked; }
        checked := checked + step;
      }
      return true;
    }

    /** memcpy to a user address, through the active tables. */
    method CopyToUser(address: nat, bytes: seq<nat>) returns (ok: bool)
      requires Fit()
      modifies vm`mem
      ensures match CopyOut(old(vm.mem), Space(vm.active, []), address, bytes)
              case None => !ok
              case Some(mem) => ok && vm.mem == mem && Fit()
    {
      hide Store, SetByte, PageTables.Lookup;
      var s := Space(vm.active, []);
      var k := 0;
      assert bytes[0..] == bytes;
      while k < |bytes|
        modifies vm`mem
        invariant 0 <= k <= |bytes| && Fit()
        invariant CopyOut(old(vm.mem), s, address, bytes) == CopyOut(vm.mem, s, address + k, bytes[k..])
      {
        assert bytes[k..][1..] == bytes[k + 1..];
        var x := vm.Lookup(s, address + k);
        if x == None || !x.value.rights.write { return false; }
        var p := x.value.physical;
        StoreOk(vm.mem, p / 4096, p % 4096 / 8, SetByte(Word(vm.mem, p / 4096, p % 4096 / 8), p % 8, bytes[k]));
        vm.mem := WriteByte(vm.mem, p, bytes[k]);
        k := k + 1;
      }
      return true;
    }

    /** Reading a user buffer, byte by byte. */
    method CopyFromUser(address: nat, length: nat) returns (r: Option<seq<nat>>)
      ensures r == CopyIn(vm.mem, Space(vm.active, []), address, length)
    {
      hide PageTables.Lookup, ReadByte;
      var s := Space(vm.active, []);
      var bytes := [];
      var k := length;
      while k > 0
        invariant 0 <= k <= length
        invariant CopyIn(vm.mem, s, address + k, length - k) == Some(bytes)
      {
        var x := vm.Lookup(s, address + k - 1);
        if x == None {
          CopyInFails(vm.mem, s, address, length, k - 1);
          return None;
        }
        bytes := [ReadByte(vm.mem, x.value.physical)] + bytes;
        k := k - 1;
      }
      return Some(bytes);
    }

    static lemma {:induction false} CopyInFails(mem: Memory, s: Space, address: nat, length: nat, k: nat)
      requires k < length && PageTables.Lookup(mem, s, address + k) == None
      ensures CopyIn(mem, s, address, length) == None
      decreases length
    {
      hide PageTables.Lookup, ReadByte;
      if k > 0 {
        CopyInFails(mem, s, address + 1, length - 1, k - 1);
      }
    }

    // ---- system calls ----

    method CopyReply(address: nat, bytes: seq<nat>, result: int) returns (r: int)
      requires Fit()
      modifies vm`mem, this`panic
      ensures var o := Deliver(old(Abs()), address, bytes, result);
              Matches(Abs(), o.k) && r == o.result && (panic == None ==> Fit())
    {
      hide CopyOut;
      r := result;
      var ok := CopyToUser(address, bytes);
      if !ok { panic := Some(KernelFault); }
    }

    method CallWrite(f: Frame) returns (r: int)
      requires Fit()
      modifies this`console, this`panic
      ensures var o := SysWrite(old(Abs()), f);
              Matches(Abs(), o.k) && r == o.result && (panic == None ==> Fit())
    {
      hide UserRange, CopyIn;
      var ok := CheckRange(tasks[current].space, f.rdi, f.rsi, false);
      if !ok { return -2; }
      var bytes := CopyFromUser(f.rdi, f.rsi);
      if bytes == None { panic := Some(KernelFault); return -2; }
      console := console + bytes.value;
      return f.rsi;
    }

    method CallOpen(f: Frame) returns (r: int)
      requires Fit()
      modifies tasks, this`panic
      ensures var o := SysOpen(old(Abs()), f);
              Matches(Abs(), o.k) && r == o.result && (panic == None ==> Fit())
    {
      hide UserRange, CopyIn, Open;
      var ok := CheckRange(tasks[current].space, f.rdi, f.rsi, false);
      if !ok { return -2; }
      var name := CopyFromUser(f.rdi, f.rsi);
      if name == None { panic := Some(KernelFault); return -2; }
      var a := Open(RAM_FILES, tasks[current].files, name.value);
      tasks[current] := tasks[current].(files := a.slots);
      return a.result;
    }

    method CallRead(f: Frame) returns (r: int)
      requires Fit()
      modifies tasks, vm`mem, this`panic
      ensures var o := SysRead(old(Abs()), f);
              Matches(Abs(), o.k) && r == o.result && (panic == None ==> Fit())
    {
      hide UserRange, Deliver, Read;
      var ok := CheckRange(tasks[current].space, f.rsi, f.rdx, true);
      if !ok { return -2; }
      var c := Read(RAM_FILES, tasks[current].files, f.rdi, f.rdx);
      tasks[current] := tasks[current].(files := c.slots);
      r := CopyReply(f.rsi, c.bytes, c.result);
    }

    method CallClose(f: Frame) returns (r: int)
      requires Fit()
      modifies tasks
      ensures var o := SysClose(old(Abs()), f); Abs() == o.k && r == o.result && Fit()
    {
      hide Close;
      var a := Close(tasks[current].files, f.rdi);
      tasks[current] := tasks[current].(files := a.slots);
      return a.result;
    }

    method CallSpawn(f: Frame) returns (r: int)
      requires Fit()
      modifies this, tasks, vm`mem, vm.pages`free, vm.pages`next, vm.pages.states
      ensures var o := SysSpawn(cfg, old(Abs()), f);
              Matches(Abs(), o.k) && (panic == None ==> Fit() && r == o.result)
    {
      hide Spawn;
      var t := tasks[current];
      if !MaySpawn(t, f.rdi) { return -3; }
      r := SpawnTask(f.rdi, t.id);
    }

    method CallInput(f: Frame, serial: int) returns (r: int)
      requires Fit()
      modifies vm`mem, this`panic
      ensures var o := SysInput(old(Abs()), f, serial);
              Matches(Abs(), o.k) && r == o.result && (panic == None ==> Fit())
    {
      hide UserRange, Deliver;
      var ok := CheckRange(tasks[current].space, f.rdi, 1, true);
      if !ok { return -2; }
      if serial < 0 { return -6; }
      r := CopyReply(f.rdi, [serial % 256], 1);
    }

    method CallProcess(f: Frame) returns (r: int)
      requires Fit()
      modifies vm`mem, this`panic
      ensures var o := SysProcess(old(Abs()), f);
              Matches(Abs(), o.k) && r == o.result && (panic == None ==> Fit())
    {
      hide UserRange, Deliver, ProcessInfo;
      var ok := CheckRange(tasks[current].space, f.rsi, 48, true);
      if !ok { return -2; }
      if f.rdi >= TASK_LIMIT || tasks[f.rdi].state == Unused { return 0; }
      r := CopyReply(f.rsi, ProcessInfo(tasks[f.rdi]), 1);
    }

    method CallFile(f: Frame) returns (r: int)
      requires Fit()
      modifies vm`mem, this`panic
      ensures var o := SysFile(old(Abs()), f);
              Matches(Abs(), o.k) && r == o.result && (panic == None ==> Fit())
    {
      hide UserRange, Deliver, FileInfo;
      var ok := CheckRange(tasks[current].space, f.rsi, 40, true);
      if !ok { return -2; }
      if f.rdi > 0xffff_ffff || f.rdi >= |RAM_FILES| { return 0; }
      r := CopyReply(f.rsi, FileInfo(RAM_FILES[f.rdi]), 1);
    }

    method CallMemory(f: Frame) returns (r: int)
      requires Fit()
      modifies vm`mem, this`panic
      ensures var o := SysMemory(old(Abs()), f);
              Matches(Abs(), o.k) && r == o.result && (panic == None ==> Fit())
    {
      hide UserRange, Deliver, LittleEndian;
      var ok := CheckRange(tasks[current].space, f.rdi, 16, true);
      if !ok { return -2; }
      r := CopyReply(f.rdi, LittleEndian(vm.pages.states.Length) + LittleEndian(vm.pages.free), 0);
    }

    /** The switch of syscall_dispatch. */
    method Serve(f: Frame, serial: int) returns (r: int)
      requires Fit()
      modifies this, tasks, vm`mem, vm.pages`free, vm.pages`next, vm.pages.states
      ensures var o := Service(cfg, old(Abs()), f, serial);
              Matches(Abs(), o.k) && (panic == None ==> Fit() && r == o.result)
    {
      hide SysWrite, SysOpen, SysRead, SysClose, SysSpawn, SysInput, SysProcess, SysFile, SysMemory, Inspect;
      match f.rax
      case 0 => r := tasks[current].id;
      case 1 => r := CallWrite(f);
      case 2 => r := Signed(ticks);
      case 5 => r := CallOpen(f);
      case 6 => r := CallRead(f);
      case 7 => r := CallClose(f);
      case 8 => r := tasks[current].program;
      case 9 => r := CallSpawn(f);
      case 11 => r := CallInput(f, serial);
      case 12 => r := CallProcess(f);
      case 13 => r := CallFile(f);
      case 14 => r := CallMemory(f);
      case 15 => InspectAll(); r := 0;
      case _ => r := -1;
    }

    /** syscall_dispatch */
    method SyscallDispatch(serial: int)
      requires Fit()
      modifies this, tasks, vm`mem, vm`active, vm.pages`free, vm.pages`next, vm.pages.states
      ensures Matches(Abs(), Syscall(cfg, old(Abs()), serial)) && (panic == None ==> Fit())
    {
      hide Service, WaitChild, Exit;
      var f := tasks[current].frame;
      if f.cs != USER_CS { panic := Some(NotUserMode); return; }
      if f.rax == 10 { WaitFor(f.rdi); return; }
      if f.rax == 4 { TaskExit(f.rdi); return; }
      var result := Serve(f, serial);
      if panic.Some? { return; }
      if Traced(f, result) {
        trace := trace + [SyscallRecord(ticks, tasks[current].id, f.rax, f.rdi, f.rsi, f.rdx, result)];
      }
      SetResult(current, Unsigned(result));
    }

    /** interrupt_dispatch, after the entry code has stored the frame. */
    method Interrupt(frame: Frame, cr2: nat, serial: int)
      requires Fit()
      modifies this, tasks, vm`mem, vm`active, vm.pages`free, vm.pages`next, vm.pages.states
      ensures Matches(Abs(), Step(cfg, old(Abs()), Trap(frame, cr2, serial))) && (panic == None ==> Fit())
    {
      hide Syscall, UserFault, Tick;
      tasks[current] := tasks[current].(frame := frame);
      assert Abs() == Enter(old(Abs()), frame);
      if frame.vector == 128 {
        SyscallDispatch(serial);
      } else if frame.cs % 4 == 3 && frame.vector in {0, 6, 13, 14} {
        FaultTask(if frame.vector == 14 then cr2 else 0);
      } else if frame.vector == 32 {
        TaskTick();
      } else {
        panic := Some(UnexpectedException);
      }
    }

    /** A store by the running program itself. */
    method UserWrite(address: nat, value: nat)
      requires Fit()
      modifies vm`mem
      ensures Abs() == Step(cfg, old(Abs()), UserStore(address, value)) && Fit()
    {
      hide Store, SetByte, PageTables.Lookup;
      var x := vm.Lookup(Space(vm.active, []), address);
      if x.Some? && x.value.rights.user && x.value.rights.write {
        var p := x.value.physical;
        StoreOk(vm.mem, p / 4096, p % 4096 / 8, SetByte(Word(vm.mem, p / 4096, p % 4096 / 8), p % 8, value % 256));
        vm.mem := WriteByte(vm.mem, p, value % 256);
      }
    }

    /** task_start */
    method TaskStart()
      requires Fit() && Abs() == Cold(vm.Abs(), vm.active)
      modifies this, tasks, vm`mem, vm`active, vm.pages`free, vm.pages`next, vm.pages.states
      ensures Matches(Abs(), Boot(cfg, old(vm.Abs()), old(vm.active))) && (panic == None ==> Fit())
    {
      hide Spawn, Cold;
      if cfg.image == [] || |cfg.image| > 65536 { panic := Some(ImageTooLarge); return; }
      ColdTicks(vm.Abs(), vm.active);
      trace := trace + [BootRecord(ticks)];
      var result := SpawnTask(PROGRAM_INIT, 0);
      if panic.Some? { return; }
      if result != 1 { panic := Some(InitFailed); return; }
      SelectTask(0);
    }

    static lemma ColdTicks(m: Machine, root: nat)
      ensures Cold(m, root).ticks == 0
    {
    }
  }
}
