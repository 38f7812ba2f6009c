/** Steps that leave every process as it is: entering the kernel, ticking, storing, and the system
    calls that only read, copy or report. */
module QuietSteps {
  import opened Words
  import PageModel
  import opened PageTables
  import opened UserCopy
  import opened RamFs
  import opened KernelModel
  import Build
  import TraceText
  import opened HostModel
  import opened Invariant
  import Replica
  import opened Copies

  predicate SameProcess(t: Task, t': Task) { SameKin(t, t') && SameHold(t, t') }

  /** Between `k` and `k'` no process changed: at most saved frames, slices, open files, the contents of
      user pages, the clock, the console and the trace did. */
  ghost predicate Quiet(k: Kernel, k': Kernel) {
    && Shaped(k) && Shaped(k') && k'.panic == None
    && SamePages(k.m.pages, k'.m.pages) && MemoryOk(k'.m.mem) && |k'.m.mem| == |k.m.mem|
    && (forall i, f :: 0 <= i < |k.tasks| && f in k.tasks[i].space.tables && f < |k.m.mem| ==> k'.m.mem[f] == k.m.mem[f])
    && k'.root == k.root && k'.current == k.current && k.nextPid <= k'.nextPid
    && (forall i :: 0 <= i < |k.tasks| ==> SameProcess(k.tasks[i], k'.tasks[i]) && SlotsOk(RAM_FILES, k'.tasks[i].files))
  }

  lemma AgreeFrame(cfg: Config, h: Host, tasks: seq<Task>, tasks': seq<Task>)
    requires TablesAgree(cfg, h, tasks) && |tasks'| == |tasks|
    requires forall i :: 0 <= i < |tasks| ==> SameProcess(tasks[i], tasks'[i])
    ensures TablesAgree(cfg, h, tasks')
  {
    hide ExpectedMaps, TraceText.Hex, ProgramName;
    forall i | 0 <= i < |tasks|
      ensures SlotAgrees(cfg, h, tasks'[i])
    {
      assert SlotAgrees(cfg, h, tasks[i]);
    }
    forall pid | pid in h.processes
      ensures KnownPid(tasks', pid)
    {
      assert KnownPid(tasks, pid);
      var i :| 0 <= i < |tasks| && tasks[i].state != Unused && tasks[i].id == pid;
      assert tasks'[i].state != Unused && tasks'[i].id == pid;
    }
  }

  lemma QuietKeeps(cfg: Config, k: Kernel, k': Kernel)
    requires Inv(cfg, k) && Quiet(k, k') && Told(cfg, k'.trace, k.tasks, k.m.pages)
    ensures Inv(cfg, k')
  {
    hide OwnOk, FamilyOk, Told, SlotsOk, TablesAgree, Replay;
    OwnFrame(cfg, k.m, k'.m, k.tasks, k'.tasks, NOBODY, NOBODY);
    FamilyFrame(k.tasks, k'.tasks, k.nextPid, k'.nextPid);
    ToldFrame(cfg, k'.trace, k.tasks, k'.tasks, k.m.pages, k'.m.pages);
  }

  lemma ToldFrame(cfg: Config, trace: seq<Record>, tasks: seq<Task>, tasks': seq<Task>, p: PageModel.Pages, p': PageModel.Pages)
    requires Told(cfg, trace, tasks, p) && |tasks'| == |tasks| && SamePages(p, p')
    requires forall i :: 0 <= i < |tasks| ==> SameProcess(tasks[i], tasks'[i])
    ensures Told(cfg, trace, tasks', p')
  {
    hide TablesAgree, Replay;
    AgreeFrame(cfg, Replay(trace), tasks, tasks');
  }

  lemma ToldNeutral(cfg: Config, trace: seq<Record>, r: Record, tasks: seq<Task>, p: PageModel.Pages)
    requires Told(cfg, trace, tasks, p) && Replica.Neutral(r)
    ensures Told(cfg, trace + [r], tasks, p)
  {
    hide TablesAgree, Replay, Apply;
    ReplayEmit(trace, r);
    Replica.NeutralKeeps(cfg, Replay(trace), r, tasks, p);
  }

  lemma InvFamily(cfg: Config, k: Kernel)
    requires Inv(cfg, k)
    ensures forall i :: 0 <= i < |k.tasks| ==> SlotsOk(RAM_FILES, k.tasks[i].files)
    ensures MachineOk(k.m) && SamePages(k.m.pages, k.m.pages)
  {
    hide SlotsOk, Told, Held, Apart, AllOwned;
  }

  /** Changing only the frame, slices or open files of one slot. */
  lemma TouchTask(cfg: Config, k: Kernel, k': Kernel, i: nat, t: Task)
    requires Inv(cfg, k) && i < TASK_LIMIT && SameProcess(k.tasks[i], t) && SlotsOk(RAM_FILES, t.files)
    requires k' == k.(tasks := k.tasks[i := t], ticks := k'.ticks, console := k'.console, trace := k'.trace)
    requires Told(cfg, k'.trace, k.tasks, k.m.pages)
    ensures Inv(cfg, k')
  {
    hide OwnOk, FamilyOk, Told, SlotsOk;
    InvFamily(cfg, k);
    QuietKeeps(cfg, k, k');
  }

  lemma EnterKeeps(cfg: Config, k: Kernel, f: Frame)
    requires Inv(cfg, k)
    ensures Inv(cfg, Enter(k, f))
  {
    hide OwnOk, FamilyOk, Told, SlotsOk;
    InvFamily(cfg, k);
    TouchTask(cfg, k, Enter(k, f), k.current, k.tasks[k.current].(frame := f));
  }

  lemma SetRaxKeeps(cfg: Config, k: Kernel, value: nat)
    requires Inv(cfg, k)
    ensures Inv(cfg, SetRax(k, k.current, value))
  {
    hide OwnOk, FamilyOk, Told, SlotsOk;
    InvFamily(cfg, k);
    TouchTask(cfg, k, SetRax(k, k.current, value), k.current,
              k.tasks[k.current].(frame := k.tasks[k.current].frame.(rax := value)));
  }

  lemma SetFilesKeeps(cfg: Config, k: Kernel, files: seq<OpenFile>)
    requires Inv(cfg, k) && SlotsOk(RAM_FILES, files)
    ensures Inv(cfg, SetFiles(k, files))
  {
    hide OwnOk, FamilyOk, Told, SlotsOk;
    TouchTask(cfg, k, SetFiles(k, files), k.current, k.tasks[k.current].(files := files));
  }

  lemma NeutralEmitKeeps(cfg: Config, k: Kernel, r: Record)
    requires Inv(cfg, k) && Replica.Neutral(r)
    ensures Inv(cfg, Emit(k, r))
  {
    hide OwnOk, FamilyOk, Told, SlotsOk;
    ToldNeutral(cfg, k.trace, r, k.tasks, k.m.pages);
    InvFamily(cfg, k);
    assert k.tasks[k.current := k.tasks[k.current]] == k.tasks;
    TouchTask(cfg, k, Emit(k, r), k.current, k.tasks[k.current]);
  }

  lemma NoteFaultKeeps(cfg: Config, k: Kernel, address: nat)
    requires Inv(cfg, k)
    ensures Inv(cfg, NoteFault(k, address))
  {
    hide OwnOk, FamilyOk, Told, SlotsOk, FaultText;
    var t := k.tasks[k.current];
    var f := t.frame;
    var r := FaultRecord(k.ticks, t.id, f.vector, f.error, address, f.rip, f.cs % 4);
    NeutralEmitKeeps(cfg, k, r);
    InvFamily(cfg, k);
    assert k.tasks[k.current := t] == k.tasks;
    TouchTask(cfg, Emit(k, r), NoteFault(k, address), k.current, t);
  }

  lemma CurrentHeld(cfg: Config, k: Kernel)
    requires Inv(cfg, k)
    ensures Held(cfg, k.m, k.tasks[k.current]) && Active(k).root == k.tasks[k.current].space.root && MachineOk(k.m)
  {
    hide Held, FamilyOk, Told, Apart, AllOwned;
  }

  /** Writing into the running task's user pages disturbs nobody's tables. */
  lemma PagesKeep(cfg: Config, k: Kernel, mem: Memory)
    requires Inv(cfg, k) && OnlyPages(k.m.mem, mem, k.tasks[k.current])
    ensures Inv(cfg, k.(m := k.m.(mem := mem)))
  {
    hide OwnOk, FamilyOk, Told, Held, SlotsOk;
    InvFamily(cfg, k);
    forall i, f | 0 <= i < |k.tasks| && f in k.tasks[i].space.tables && f < |k.m.mem|
      ensures mem[f] == k.m.mem[f]
    {
      TablesNotPages(cfg, k, i, f);
    }
    QuietKeeps(cfg, k, k.(m := k.m.(mem := mem)));
  }

  lemma TablesNotPages(cfg: Config, k: Kernel, i: nat, f: nat)
    requires Inv(cfg, k) && i < |k.tasks| && f in k.tasks[i].space.tables
    ensures f !in k.tasks[k.current].pages
  {
    hide Mapped, FamilyOk, Told, AllOwned, SlotsHeld, MachineOk;
    CurrentHeld(cfg, k);
    assert f in Elements(k.tasks[i].space.tables) && f in Build.Owned(k.tasks[i]);
    if i != k.current {
      assert f !in Build.Owned(k.tasks[k.current]);
    }
    assert f !in Elements(k.tasks[k.current].pages);
  }

  // ---- the timer ----

  /** How many steps around the slots lead from `current` to `i`: 1 to 8, with 8 for itself. */
  function Turns(current: nat, i: nat): int { if i > current then i - current else i + 8 - current }

  /** next_ready answers the ready slot nearest after the current one, and finds one iff there is one. */
  lemma {:induction false} ReadyFromFacts(tasks: seq<Task>, current: nat, n: nat)
    requires |tasks| == TASK_LIMIT && current < TASK_LIMIT && 1 <= n <= TASK_LIMIT + 1
    ensures match ReadyFrom(tasks, current, n)
      case None => forall i :: 0 <= i < TASK_LIMIT && n <= Turns(current, i) ==> tasks[i].state != Ready
      case Some(next) =>
        && next < TASK_LIMIT && tasks[next].state == Ready && n <= Turns(current, next)
        && (forall i :: 0 <= i < TASK_LIMIT && n <= Turns(current, i) < Turns(current, next) ==> tasks[i].state != Ready)
    decreases TASK_LIMIT + 1 - n
  {
    if n <= TASK_LIMIT {
      var here := (current + n) % 8;
      assert forall i :: 0 <= i < TASK_LIMIT && Turns(current, i) == n ==> i == here;
      if tasks[here].state != Ready {
        ReadyFromFacts(tasks, current, n + 1);
      }
    }
  }

  lemma ReadyFound(tasks: seq<Task>, current: nat, r: nat)
    requires |tasks| == TASK_LIMIT && current < TASK_LIMIT && r < TASK_LIMIT && tasks[r].state == Ready
    ensures var next := ReadyFrom(tasks, current, 1);
            next.Some? && next.value < TASK_LIMIT && tasks[next.value].state == Ready
  {
    ReadyFromFacts(tasks, current, 1);
  }

  lemma SelectKeeps(cfg: Config, k: Kernel, next: nat)
    requires Build.ConfigOk(cfg) && Shaped(k) && k.panic == None && OwnOk(cfg, k.m, k.tasks, NOBODY)
    requires FamilyOk(k.tasks, k.nextPid) && Told(cfg, k.trace, k.tasks, k.m.pages) && next < TASK_LIMIT && k.tasks[next].state == Ready
    ensures Inv(cfg, Select(k, next))
  {
    hide OwnOk, FamilyOk, Told;
  }

  lemma TickKeeps(cfg: Config, k: Kernel)
    requires Inv(cfg, k) && k.tasks[k.current].frame.cs % 4 == 3
    ensures Inv(cfg, Tick(k))
  {
    hide OwnOk, FamilyOk, Told, SlotsOk, ReadyFrom;
    var t := k.tasks[k.current];
    InvFamily(cfg, k);
    var t1 := t.(slices := (t.slices + 1) % 0x1_0000_0000);
    var k1 := SetTask(k, k.current, t1).(ticks := (k.ticks + 1) % 0x1_0000_0000_0000_0000);
    TouchTask(cfg, k, k1, k.current, t1);
    ReadyFound(k1.tasks, k1.current, k1.current);
    var next := NextReady(k1).value;
    if next != k1.current {
      var r := ScheduleRecord(k1.ticks, t.id, k1.tasks[next].id, k1.tasks[next].space.root * 4096, 3);
      NeutralEmitKeeps(cfg, k1, r);
      SelectKeeps(cfg, Emit(k1, r), next);
    } else {
      SelectKeeps(cfg, k1, next);
    }
  }

  // ---- stores and copies ----

  lemma ProgramStoreKeeps(cfg: Config, k: Kernel, address: nat, value: nat)
    requires Inv(cfg, k)
    ensures Inv(cfg, ProgramStore(k, address, value))
  {
    hide OwnOk, FamilyOk, Told, Lookup, Held, WriteByte;
    var t := k.tasks[k.current];
    CurrentHeld(cfg, k);
    InvConfig(cfg, k);
    SameRoot(k.m.mem, Active(k), t.space, address);
    if Lookup(k.m.mem, t.space, address).Some? {
      StoreByte(cfg, k.m, t, address, value % 256);
      PagesKeep(cfg, k, WriteByte(k.m.mem, Lookup(k.m.mem, t.space, address).value.physical, value % 256));
    }
  }

  lemma InvConfig(cfg: Config, k: Kernel)
    requires Inv(cfg, k)
    ensures Build.ConfigOk(cfg) && k.panic == None
  {
  }

  lemma DeliverKeeps(cfg: Config, k: Kernel, address: nat, bytes: seq<nat>, result: int)
    requires Inv(cfg, k)
    requires forall i :: 0 <= i < |bytes| ==> bytes[i] < 256
    requires WritableRange(k.m.mem, k.tasks[k.current].space, address, |bytes|)
    ensures Inv(cfg, Deliver(k, address, bytes, result).k) && Deliver(k, address, bytes, result).result == result
  {
    hide OwnOk, FamilyOk, Told, Held, CopyOut, UserByte;
    CurrentHeld(cfg, k);
    InvConfig(cfg, k);
    CopyOutFacts(cfg, k.m, k.tasks[k.current], Active(k), address, bytes);
    PagesKeep(cfg, k, CopyOut(k.m.mem, Active(k), address, bytes).value);
  }

  lemma RangeWritable(k: Kernel, address: nat, length: nat)
    requires Shaped(k) && InRange(k, address, length, true)
    ensures WritableRange(k.m.mem, k.tasks[k.current].space, address, length)
  {
    hide Permitted;
    UserRangeFacts(k.m.mem, k.tasks[k.current].space, address, length, true);
  }

  lemma SysWriteKeeps(cfg: Config, k: Kernel, f: Frame)
    requires Inv(cfg, k)
    ensures Inv(cfg, SysWrite(k, f).k)
  {
    hide OwnOk, FamilyOk, Told, Permitted, CopyIn, UserByte, UserRange, SlotsOk;
    var t := k.tasks[k.current];
    if InRange(k, f.rdi, f.rsi, false) {
      UserRangeFacts(k.m.mem, t.space, f.rdi, f.rsi, false);
      CopyInFacts(k.m.mem, t, Active(k), f.rdi, f.rsi);
      InvFamily(cfg, k);
      assert k.tasks[k.current := t] == k.tasks;
      TouchTask(cfg, k, SysWrite(k, f).k, k.current, t);
    }
  }

  lemma SysOpenKeeps(cfg: Config, k: Kernel, f: Frame)
    requires Inv(cfg, k)
    ensures Inv(cfg, SysOpen(k, f).k)
  {
    hide OwnOk, FamilyOk, Told, Permitted, CopyIn, UserByte, UserRange, SlotsOk, Open;
    var t := k.tasks[k.current];
    if InRange(k, f.rdi, f.rsi, false) {
      UserRangeFacts(k.m.mem, t.space, f.rdi, f.rsi, false);
      CopyInFacts(k.m.mem, t, Active(k), f.rdi, f.rsi);
      InvFamily(cfg, k);
      var name := CopyIn(k.m.mem, Active(k), f.rdi, f.rsi).value;
      OpenFacts(RAM_FILES, t.files, name);
      SetFilesKeeps(cfg, k, Open(RAM_FILES, t.files, name).slots);
    }
  }

  lemma FileBytes()
    ensures forall i, j :: 0 <= i < |RAM_FILES| && 0 <= j < |RAM_FILES[i].bytes| ==> RAM_FILES[i].bytes[j] < 256
    ensures forall i, j :: 0 <= i < |RAM_FILES| && 0 <= j < |RAM_FILES[i].name| ==> RAM_FILES[i].name[j] < 256
    ensures forall i :: 0 <= i < |RAM_FILES| ==> |RAM_FILES[i].name| == 10
  {
    hide Ascii;
    assert forall j :: 0 <= j < 17 ==> Ascii("hello from ramfs\n")[j] < 256;
    assert forall j :: 0 <= j < 10 ==> Ascii("/hello.txt")[j] < 256;
    assert forall j :: 0 <= j < 10 ==> Ascii("/empty.txt")[j] < 256;
  }

  /** The piece a read hands out consists of bytes and fits the buffer that was checked. */
  lemma ReadPiece(k: Kernel, f: Frame)
    requires Shaped(k) && InRange(k, f.rsi, f.rdx, true) && SlotsOk(RAM_FILES, k.tasks[k.current].files)
    ensures var c := Read(RAM_FILES, k.tasks[k.current].files, f.rdi, f.rdx);
            && SlotsOk(RAM_FILES, c.slots)
            && (forall i :: 0 <= i < |c.bytes| ==> c.bytes[i] < 256)
            && WritableRange(k.m.mem, k.tasks[k.current].space, f.rsi, |c.bytes|)
  {
    hide UserRange, Permitted, RAM_FILES;
    FileBytes();
    RangeWritable(k, f.rsi, f.rdx);
    ReadFacts(RAM_FILES, k.tasks[k.current].files, f.rdi, f.rdx);
  }

  lemma SysReadKeeps(cfg: Config, k: Kernel, f: Frame)
    requires Inv(cfg, k)
    ensures Inv(cfg, SysRead(k, f).k)
  {
    hide OwnOk, FamilyOk, Told, UserRange, Deliver, RAM_FILES, Read, SlotsOk, WritableRange;
    var t := k.tasks[k.current];
    if InRange(k, f.rsi, f.rdx, true) {
      InvFamily(cfg, k);
      ReadPiece(k, f);
      var c := Read(RAM_FILES, t.files, f.rdi, f.rdx);
      SetFilesKeeps(cfg, k, c.slots);
      DeliverKeeps(cfg, SetFiles(k, c.slots), f.rsi, c.bytes, c.result);
    }
  }

  lemma SysCloseKeeps(cfg: Config, k: Kernel, f: Frame)
    requires Inv(cfg, k)
    ensures Inv(cfg, SysClose(k, f).k)
  {
    hide OwnOk, FamilyOk, Told;
    InvFamily(cfg, k);
    SetFilesKeeps(cfg, k, Close(k.tasks[k.current].files, f.rdi).slots);
  }

  lemma LittleBytes(w: nat)
    ensures forall i :: 0 <= i < 8 ==> LittleEndian(w)[i] < 256
  {
    forall i | 0 <= i < 8 ensures LittleEndian(w)[i] < 256 { ByteBound(w, i); }
  }

  /** The three report calls copy 48, 40 and 16 bytes, as many as user_range accepted. */
  lemma SysReportsKeep(cfg: Config, k: Kernel, f: Frame, serial: int)
    requires Inv(cfg, k)
    ensures Inv(cfg, SysProcess(k, f).k) && Inv(cfg, SysMemory(k, f).k) && Inv(cfg, SysInput(k, f, serial).k)
  {
    hide OwnOk, FamilyOk, Told, Permitted, UserRange, Deliver, LittleEndian;
    if InRange(k, f.rsi, 48, true) && f.rdi < TASK_LIMIT {
      RangeWritable(k, f.rsi, 48);
      var t := k.tasks[f.rdi];
      LittleBytes(t.id); LittleBytes(t.parent); LittleBytes(t.program); LittleBytes(t.state.Number());
      LittleBytes(t.space.root * 4096); LittleBytes(t.slices);
      DeliverKeeps(cfg, k, f.rsi, ProcessInfo(t), 1);
    }
    if InRange(k, f.rdi, 16, true) {
      RangeWritable(k, f.rdi, 16);
      LittleBytes(|k.m.pages.states|);
      LittleBytes(k.m.pages.free);
      DeliverKeeps(cfg, k, f.rdi, LittleEndian(|k.m.pages.states|) + LittleEndian(k.m.pages.free), 0);
    }
    if InRange(k, f.rdi, 1, true) && serial >= 0 {
      RangeWritable(k, f.rdi, 1);
      DeliverKeeps(cfg, k, f.rdi, [serial % 256], 1);
    }
  }

  lemma SysFileKeeps(cfg: Config, k: Kernel, f: Frame)
    requires Inv(cfg, k)
    ensures Inv(cfg, SysFile(k, f).k)
  {
    hide OwnOk, FamilyOk, Told, Permitted, UserRange, Deliver, LittleEndian, RAM_FILES;
    if InRange(k, f.rsi, 40, true) && f.rdi < |RAM_FILES| {
      RangeWritable(k, f.rsi, 40);
      FileBytes();
      LittleBytes(|RAM_FILES[f.rdi].bytes|);
      DeliverKeeps(cfg, k, f.rsi, FileInfo(RAM_FILES[f.rdi]), 1);
    }
  }
}
