/** The LAB kernel of kernel/laboratory.c as a state machine: eight task slots, one step per trap,
    a trace of the records it emits on COM2, and panic as a terminal state. */
module KernelModel {
  import opened Words
  import PageModel
  import opened PageTables
  import opened UserCopy
  import opened RamFs
  import opened TraceText

  const TASK_LIMIT: nat := 8
  const PROGRAM_INIT: nat := 0
  const PROGRAM_SHELL: nat := 1
  const PROGRAM_HELLO: nat := 2
  const PROGRAM_COUNT: nat := 7
  const USER_CODE: nat := 0x400000
  const USER_DATA: nat := 0x600000
  const USER_STACK: nat := 0x800000
  const USER_CS: nat := 0x23

  /** The embedded user image (bytes) and the boot root table vm_create copies from. */
  datatype Config = Config(image: seq<nat>, boot: seq<nat>)

  datatype ProcessState = Unused | Ready | Waiting | Exited {
    function Number(): nat {
      match this case Unused => 0 case Ready => 1 case Waiting => 2 case Exited => 3
    }
    predicate Live() { Ready? || Waiting? }
  }

  /** A saved interrupt frame; `others` is r15..r8, rbp, rcx, rbx. */
  datatype Frame = Frame(rax: nat, rdi: nat, rsi: nat, rdx: nat, others: seq<nat>,
                         vector: nat, error: nat, rip: nat, cs: nat, rflags: nat, rsp: nat, ss: nat)

  const ZERO_FRAME := Frame(0, 0, 0, 0, [0, 0, 0, 0, 0, 0, 0, 0, 0, 0, 0], 0, 0, 0, 0, 0, 0, 0)

  /** A task slot. `frame` is the interrupt frame at the top of the slot's kernel stack, where every
      entry from user mode puts it. */
  datatype Task = Task(state: ProcessState, id: nat, parent: nat, program: nat, waitingFor: nat, status: nat,
                       slices: nat, space: Space, pages: seq<nat>, dataPage: nat, files: seq<OpenFile>, frame: Frame)

  const EMPTY_TASK := Task(Unused, 0, 0, 0, 0, 0, 0, NO_SPACE, [], 0, [CLOSED, CLOSED], ZERO_FRAME)

  datatype Part = Code | Data | Stack

  datatype Record =
    | BootRecord(tick: nat)
    | SpawnRecord(tick: nat, pid: nat, parent: nat, program: nat)
    | ProcessRecord(tick: nat, pid: nat, parent: nat, program: nat, state: ProcessState, root: nat, slices: nat,
                    running: bool)
    | MapRecord(tick: nat, pid: nat, va: nat, pa: nat, flags: nat, part: Part)
    | DataRecord(tick: nat, pid: nat, va: nat, pa: nat, marker: nat)
    | MemoryRecord(tick: nat, frames: nat, free: nat)
    | ScheduleRecord(tick: nat, from: nat, to: nat, root: nat, cpl: nat)
    | SyscallRecord(tick: nat, pid: nat, number: nat, a: nat, b: nat, c: nat, result: int)
    | WaitRecord(tick: nat, pid: nat, child: nat)
    | ExitRecord(tick: nat, pid: nat, status: nat)
    | FaultRecord(tick: nat, pid: nat, vector: nat, error: nat, address: nat, rip: nat, cpl: nat)
    | SnapshotRecord(tick: nat)
    | SnapshotEndRecord(tick: nat)

  datatype Panic =
    | NoRunnableShell | ActiveRoot | PageOwnership | TableOwnership | MappingDisappeared
    | InitOrShellExited | NotUserMode | UnexpectedException | KernelFault | ImageTooLarge | InitFailed

  /** `root` is the frame in CR3. */
  datatype Kernel = Kernel(m: Machine, root: nat, tasks: seq<Task>, current: nat, nextPid: nat, ticks: nat,
                           trace: seq<Record>, console: seq<nat>, panic: Option<Panic>)

  predicate Shaped(k: Kernel) { |k.tasks| == TASK_LIMIT && k.current < TASK_LIMIT }

  /** What the processor delivers: an entry into the kernel (with CR2 and the next serial character,
      -1 for none), or a byte the running program stores by itself. */
  datatype Input = Trap(frame: Frame, cr2: nat, serial: int) | UserStore(address: nat, value: nat)

  function CodePages(cfg: Config): nat { (|cfg.image| + 4095) / 4096 }

  /** Where and how page `i` of a process is mapped: code pages, one data page, two stack pages. */
  function LayoutAddress(code: nat, i: nat): nat {
    if i < code then USER_CODE + i * 4096 else if i == code then USER_DATA else USER_STACK + (i - code - 1) * 4096
  }

  function LayoutFlags(code: nat, i: nat): nat { if i < code then 6 else 3 }

  function LayoutPart(code: nat, i: nat): Part { if i < code then Code else if i == code then Data else Stack }

  // ---- small updates ----

  function Emit(k: Kernel, r: Record): Kernel { k.(trace := k.trace + [r]) }
  function Fail(k: Kernel, p: Panic): Kernel { k.(panic := Some(p)) }

  function SetTask(k: Kernel, i: nat, t: Task): (r: Kernel)
    requires Shaped(k) && i < TASK_LIMIT
    ensures Shaped(r)
  {
    k.(tasks := k.tasks[i := t])
  }

  // ---- records ----

  /** process_event */
  function ProcessEvent(k: Kernel, i: nat): (r: Kernel)
    requires Shaped(k) && i < TASK_LIMIT
    ensures Shaped(r)
  {
    var t := k.tasks[i];
    Emit(k, ProcessRecord(k.ticks, t.id, t.parent, t.program, t.state, t.space.root * 4096, t.slices,
                          i == k.current && t.state == Ready))
  }

  /** memory_event */
  function MemoryEvent(k: Kernel): Kernel {
    Emit(k, MemoryRecord(k.ticks, |k.m.pages.states|, k.m.pages.free))
  }

  /** The loop of mappings_event from page `i` on, and the data record after it. */
  function MapEvents(cfg: Config, k: Kernel, t: Task, i: nat): (r: Kernel)
    requires Shaped(k)
    ensures Shaped(r)
    decreases CodePages(cfg) + 3 - i
  {
    var code := CodePages(cfg);
    if i >= code + 3 then
      if PageModel.PageData(k.m.pages, t.dataPage * 4096)
      then Emit(k, DataRecord(k.ticks, t.id, USER_DATA, t.dataPage * 4096, Word(k.m.mem, t.dataPage, 0)))
      else Fail(k, KernelFault)
    else match Lookup(k.m.mem, t.space, LayoutAddress(code, i))
      case None => Fail(k, MappingDisappeared)
      case Some(x) =>
        MapEvents(cfg, Emit(k, MapRecord(k.ticks, t.id, LayoutAddress(code, i), x.physical, x.rights.Bits(), LayoutPart(code, i))),
                  t, i + 1)
  }

  /** mappings_event */
  function MappingsEvent(cfg: Config, k: Kernel, t: Task): (r: Kernel)
    requires Shaped(k)
    ensures Shaped(r)
  {
    if t.space.root == 0 then k else MapEvents(cfg, k, t, 0)
  }

  /** The loop of inspect. */
  function InspectFrom(cfg: Config, k: Kernel, i: nat): (r: Kernel)
    requires Shaped(k) && i <= TASK_LIMIT
    ensures Shaped(r)
    decreases TASK_LIMIT - i
  {
    if i == TASK_LIMIT then k
    else if k.tasks[i].state == Unused then InspectFrom(cfg, k, i + 1)
    else
      var k1 := MappingsEvent(cfg, ProcessEvent(k, i), k.tasks[i]);
      if k1.panic.Some? then k1 else InspectFrom(cfg, k1, i + 1)
  }

  /** inspect */
  function Inspect(cfg: Config, k: Kernel): (r: Kernel)
    requires Shaped(k)
    ensures Shaped(r)
  {
    var k1 := InspectFrom(cfg, Emit(k, SnapshotRecord(k.ticks)), 0);
    if k1.panic.Some? then k1 else Emit(MemoryEvent(k1), SnapshotEndRecord(k1.ticks))
  }

  // ---- creating and releasing a process ----

  datatype Building = Building(m: Machine, task: Task, ok: bool)

  /** map_owned: the page is recorded before it is mapped. */
  function MapOwned(m: Machine, t: Task, va: nat, flags: nat): Building {
    if |t.pages| == 19 then Building(m, t, false)
    else
      var (pages, r) := PageModel.Alloc(m.pages);
      match r
      case None => Building(m.(pages := pages), t, false)
      case Some(f) =>
        var (m1, space, ok) := Map(Machine(pages, Clear(m.mem, f)), t.space, va, f * 4096, flags);
        Building(m1, t.(pages := t.pages + [f], space := space), ok)
  }

  /** memcpy of the first `n` bytes to the start of a frame. */
  function FillFrame(mem: Memory, frame: nat, bytes: seq<nat>, n: nat): Memory
    requires n <= |bytes|
  {
    if n == 0 then mem else WriteByte(FillFrame(mem, frame, bytes, n - 1), frame * 4096 + (n - 1), bytes[n - 1])
  }

  /** The bytes of the image that belong in code page `i`. */
  function ImageChunk(image: seq<nat>, i: nat): seq<nat> {
    if i * 4096 >= |image| then [] else if |image| - i * 4096 > 4096 then image[i * 4096..i * 4096 + 4096] else image[i * 4096..]
  }

  /** The mapping part of prepare, from page `i` of the layout on. */
  function BuildFrom(cfg: Config, m: Machine, t: Task, i: nat): Building
    decreases CodePages(cfg) + 3 - i
  {
    var code := CodePages(cfg);
    if i >= code + 3 then Building(m, t, true)
    else
      var b := MapOwned(m, t, LayoutAddress(code, i), LayoutFlags(code, i));
      if !b.ok || b.task.pages == [] then b.(ok := false)
      else
        var f := b.task.pages[|b.task.pages| - 1];
        var chunk := ImageChunk(cfg.image, i);
        var m1 := if i < code then b.m.(mem := FillFrame(b.m.mem, f, chunk, |chunk|)) else b.m;
        var t1 := if i == code then b.task.(dataPage := f) else b.task;
        BuildFrom(cfg, m1, t1, i + 1)
  }

  const FIRST_FRAME := ZERO_FRAME.(rip := USER_CODE, cs := USER_CS, ss := 0x1b, rsp := USER_STACK + 8184, rflags := 0x202)

  /** prepare */
  function Prepare(cfg: Config, m: Machine, t: Task): Building
    requires |cfg.boot| == 512
  {
    var (m1, space, ok) := Create(m, t.space, cfg.boot);
    if !ok then Building(m1, t.(space := space), false)
    else
      var b := BuildFrom(cfg, m1, t.(space := space), 0);
      if b.ok then Building(b.m, b.task.(frame := FIRST_FRAME), true) else b
  }

  datatype Released = Released(m: Machine, task: Task) | ReleasePanic(why: Panic)

  /** release_pages */
  function ReleasePages(m: Machine, t: Task, active: nat): Released {
    if t.space.root == 0 then ReleaseUser(m, t)
    else match Destroy(m.pages, t.space, active)
      case Refused => ReleasePanic(ActiveRoot)
      case OwnershipDiffers => ReleasePanic(TableOwnership)
      case Destroyed(pages) => ReleaseUser(m.(pages := pages), t.(space := NO_SPACE))
  }

  function ReleaseUser(m: Machine, t: Task): Released {
    match PageModel.ReleaseAll(m.pages, t.pages)
    case None => ReleasePanic(PageOwnership)
    case Some(pages) => Released(m.(pages := pages), t.(pages := []))
  }

  function FindUnused(tasks: seq<Task>, i: nat): nat
    requires i <= |tasks|
    decreases |tasks| - i
  {
    if i == |tasks| || tasks[i].state == Unused then i else FindUnused(tasks, i + 1)
  }

  datatype Outcome = Outcome(k: Kernel, result: int)

  function NewTask(k: Kernel, program: nat, parent: nat): Task {
    EMPTY_TASK.(id := k.nextPid, program := program, parent := parent)
  }

  /** spawn */
  function Spawn(cfg: Config, k: Kernel, program: nat, parent: nat): (r: Outcome)
    requires Shaped(k) && |cfg.boot| == 512
    ensures Shaped(r.k)
  {
    var i := FindUnused(k.tasks, 0);
    if i >= TASK_LIMIT then Outcome(k, -5)
    else
      var b := Prepare(cfg, k.m, NewTask(k, program, parent));
      var k1 := k.(nextPid := k.nextPid + 1, m := b.m);
      if !b.ok then
        match ReleasePages(b.m, b.task, k.root)
        case ReleasePanic(why) => Outcome(Fail(k1, why), -5)
        case Released(m, _) => Outcome(SetTask(k1.(m := m), i, EMPTY_TASK), -5)
      else Outcome(Announce(cfg, SetTask(k1, i, b.task.(state := Ready)), i), b.task.id)
  }

  /** The records of a successful spawn. */
  function Announce(cfg: Config, k: Kernel, i: nat): (r: Kernel)
    requires Shaped(k) && i < TASK_LIMIT
    ensures Shaped(r)
  {
    var t := k.tasks[i];
    var k1 := MappingsEvent(cfg, ProcessEvent(Emit(k, SpawnRecord(k.ticks, t.id, t.parent, t.program)), i), t);
    if k1.panic.Some? then k1 else MemoryEvent(k1)
  }

  // ---- scheduling ----

  /** The search of next_ready after `n - 1` slots have been refused. */
  function ReadyFrom(tasks: seq<Task>, current: nat, n: nat): Option<nat>
    requires |tasks| == TASK_LIMIT && 1 <= n <= TASK_LIMIT + 1
    decreases TASK_LIMIT + 1 - n
  {
    if n > TASK_LIMIT then None
    else if tasks[(current + n) % 8].state == Ready then Some((current + n) % 8)
    else ReadyFrom(tasks, current, n + 1)
  }

  /** next_ready */
  function NextReady(k: Kernel): Option<nat>
    requires Shaped(k)
  {
    ReadyFrom(k.tasks, k.current, 1)
  }

  /** select_task: CR3 follows the selected task. */
  function Select(k: Kernel, next: nat): (r: Kernel)
    requires Shaped(k) && next < TASK_LIMIT
    ensures Shaped(r)
  {
    k.(current := next, root := k.tasks[next].space.root)
  }

  /** select_task(next_ready()) */
  function Reschedule(k: Kernel): (r: Kernel)
    requires Shaped(k)
    ensures Shaped(r)
  {
    match NextReady(k)
    case None => Fail(k, NoRunnableShell)
    case Some(next) => if next < TASK_LIMIT then Select(k, next) else k
  }

  /** task_tick */
  function Tick(k: Kernel): (r: Kernel)
    requires Shaped(k)
    ensures Shaped(r)
  {
    var t := k.tasks[k.current];
    if t.frame.cs % 4 != 3 then Fail(k, NotUserMode)
    else
      var k1 := SetTask(k, k.current, t.(slices := (t.slices + 1) % 0x1_0000_0000))
                .(ticks := (k.ticks + 1) % 0x1_0000_0000_0000_0000);
      match NextReady(k1)
      case None => Fail(k1, NoRunnableShell)
      case Some(next) =>
        if next >= TASK_LIMIT then k1
        else
          var k2 := if next == k1.current then k1
                    else Emit(k1, ScheduleRecord(k1.ticks, t.id, k1.tasks[next].id, k1.tasks[next].space.root * 4096, 3));
          Select(k2, next)
  }

  // ---- exit, fault and wait ----

  predicate WaitsFor(p: Task, child: Task) {
    p.id == child.parent && p.state == Waiting && p.waitingFor == child.id
  }

  datatype Waking = Waking(k: Kernel, reaped: bool)

  /** The loop of task_exit over the parents, from slot `i` on. */
  function WakeFrom(k: Kernel, child: Task, i: nat, reaped: bool): (r: Waking)
    requires Shaped(k) && i <= TASK_LIMIT
    ensures Shaped(r.k)
    decreases TASK_LIMIT - i
  {
    if i == TASK_LIMIT then Waking(k, reaped)
    else if WaitsFor(k.tasks[i], child) then
      var p := k.tasks[i];
      var k1 := SetTask(k, i, p.(frame := p.frame.(rax := child.status), state := Ready));
      WakeFrom(ProcessEvent(k1, i), child, i + 1, true)
    else WakeFrom(k, child, i + 1, reaped)
  }

  /** task_exit */
  function Exit(k: Kernel, status: nat): (r: Kernel)
    requires Shaped(k)
    ensures Shaped(r)
  {
    var dying := k.current;
    if k.tasks[dying].program <= PROGRAM_SHELL then Fail(k, InitOrShellExited)
    else
      var t := k.tasks[dying].(status := status, state := Exited);
      var k1 := Emit(SetTask(k, dying, t), ExitRecord(k.ticks, t.id, status));
      var w := WakeFrom(k1, t, 0, false);
      var k2 := Reschedule(w.k);
      if k2.panic.Some? then k2 else Bury(k2, dying, w.reaped)
  }

  /** The tail of task_exit, on the next task's page tables. */
  function Bury(k: Kernel, dying: nat, reaped: bool): (r: Kernel)
    requires Shaped(k) && dying < TASK_LIMIT
    ensures Shaped(r)
  {
    match ReleasePages(k.m, k.tasks[dying], k.root)
    case ReleasePanic(why) => Fail(k, why)
    case Released(m, t) =>
      var t1 := if reaped then t.(state := Unused) else t;
      MemoryEvent(ProcessEvent(SetTask(k.(m := m), dying, t1), dying))
  }

  /** What user_fault writes on the console. */
  function FaultText(pid: nat, vector: nat): seq<nat> {
    Ascii("\nuser fault: pid=" + Decimal(pid) + " vector=" + Decimal(vector) + "\n")
  }

  /** The record and the message of user_fault. */
  function NoteFault(k: Kernel, address: nat): (r: Kernel)
    requires Shaped(k)
    ensures Shaped(r)
  {
    var t := k.tasks[k.current];
    var f := t.frame;
    Emit(k, FaultRecord(k.ticks, t.id, f.vector, f.error, address, f.rip, f.cs % 4))
      .(console := k.console + FaultText(t.id, f.vector))
  }

  /** user_fault */
  function UserFault(k: Kernel, address: nat): (r: Kernel)
    requires Shaped(k)
    ensures Shaped(r)
  {
    Exit(NoteFault(k, address), 128 + k.tasks[k.current].frame.vector)
  }

  predicate ChildOf(c: Task, pid: nat, parent: nat) {
    c.state != Unused && c.id == pid && c.parent == parent
  }

  function FindChild(tasks: seq<Task>, pid: nat, parent: nat, i: nat): nat
    requires i <= |tasks|
    decreases |tasks| - i
  {
    if i == |tasks| || ChildOf(tasks[i], pid, parent) then i else FindChild(tasks, pid, parent, i + 1)
  }

  function SetRax(k: Kernel, i: nat, value: nat): (r: Kernel)
    requires Shaped(k) && i < TASK_LIMIT
    ensures Shaped(r)
  {
    SetTask(k, i, k.tasks[i].(frame := k.tasks[i].frame.(rax := value)))
  }

  /** An int64_t result as the uint64_t stored in rax. */
  function Unsigned(result: int): nat { result % 0x1_0000_0000_0000_0000 }

  /** wait_child */
  function WaitChild(k: Kernel, pid: nat): (r: Kernel)
    requires Shaped(k)
    ensures Shaped(r)
  {
    var me := k.current;
    var k1 := Emit(k, WaitRecord(k.ticks, k.tasks[me].id, pid));
    var c := FindChild(k.tasks, pid, k.tasks[me].id, 0);
    if c >= TASK_LIMIT then SetRax(k1, me, Unsigned(-3))
    else if k.tasks[c].state == Exited then
      var k2 := SetRax(k1, me, k.tasks[c].status);
      ProcessEvent(SetTask(k2, c, k2.tasks[c].(state := Unused)), c)
    else
      var k2 := SetTask(k1, me, k1.tasks[me].(state := Waiting, waitingFor := pid));
      Reschedule(ProcessEvent(k2, me))
  }

  // ---- system calls ----

  /** The page tables the processor is using. */
  function Active(k: Kernel): Space { Space(k.root, []) }

  /** memcpy to user memory, with the result to return when the copy does not fault. */
  function Deliver(k: Kernel, address: nat, bytes: seq<nat>, result: int): (r: Outcome)
    requires Shaped(k)
    ensures Shaped(r.k)
  {
    match CopyOut(k.m.mem, Active(k), address, bytes)
    case None => Outcome(Fail(k, KernelFault), result)
    case Some(mem) => Outcome(k.(m := k.m.(mem := mem)), result)
  }

  function SetFiles(k: Kernel, files: seq<OpenFile>): (r: Kernel)
    requires Shaped(k)
    ensures Shaped(r)
  {
    SetTask(k, k.current, k.tasks[k.current].(files := files))
  }

  predicate InRange(k: Kernel, address: nat, length: nat, writing: bool)
    requires Shaped(k)
  {
    UserRange(k.m.mem, k.tasks[k.current].space, address, length, writing)
  }

  function SysWrite(k: Kernel, f: Frame): (r: Outcome)
    requires Shaped(k)
    ensures Shaped(r.k)
  {
    if !InRange(k, f.rdi, f.rsi, false) then Outcome(k, -2)
    else match CopyIn(k.m.mem, Active(k), f.rdi, f.rsi)
      case None => Outcome(Fail(k, KernelFault), -2)
      case Some(bytes) => Outcome(k.(console := k.console + bytes), f.rsi)
  }

  function SysOpen(k: Kernel, f: Frame): (r: Outcome)
    requires Shaped(k)
    ensures Shaped(r.k)
  {
    if !InRange(k, f.rdi, f.rsi, false) then Outcome(k, -2)
    else match CopyIn(k.m.mem, Active(k), f.rdi, f.rsi)
      case None => Outcome(Fail(k, KernelFault), -2)
      case Some(name) =>
        var a := Open(RAM_FILES, k.tasks[k.current].files, name);
        Outcome(SetFiles(k, a.slots), a.result)
  }

  function SysRead(k: Kernel, f: Frame): (r: Outcome)
    requires Shaped(k)
    ensures Shaped(r.k)
  {
    if !InRange(k, f.rsi, f.rdx, true) then Outcome(k, -2)
    else
      var c := Read(RAM_FILES, k.tasks[k.current].files, f.rdi, f.rdx);
      Deliver(SetFiles(k, c.slots), f.rsi, c.bytes, c.result)
  }

  function SysClose(k: Kernel, f: Frame): (r: Outcome)
    requires Shaped(k)
    ensures Shaped(r.k)
  {
    var a := Close(k.tasks[k.current].files, f.rdi);
    Outcome(SetFiles(k, a.slots), a.result)
  }

  predicate MaySpawn(t: Task, program: nat) {
    || (t.program == PROGRAM_INIT && program == PROGRAM_SHELL)
    || (t.program == PROGRAM_SHELL && PROGRAM_HELLO <= program < PROGRAM_COUNT)
  }

  function SysSpawn(cfg: Config, k: Kernel, f: Frame): (r: Outcome)
    requires Shaped(k) && |cfg.boot| == 512
    ensures Shaped(r.k)
  {
    var t := k.tasks[k.current];
    if MaySpawn(t, f.rdi) then Spawn(cfg, k, f.rdi, t.id) else Outcome(k, -3)
  }

  function SysInput(k: Kernel, f: Frame, serial: int): (r: Outcome)
    requires Shaped(k)
    ensures Shaped(r.k)
  {
    if !InRange(k, f.rdi, 1, true) then Outcome(k, -2)
    else if serial < 0 then Outcome(k, -6)
    else Deliver(k, f.rdi, [serial % 256], 1)
  }

  /** struct process_info, six little-endian words. */
  function ProcessInfo(t: Task): seq<nat> {
    LittleEndian(t.id) + LittleEndian(t.parent) + LittleEndian(t.program) + LittleEndian(t.state.Number()) +
    LittleEndian(t.space.root * 4096) + LittleEndian(t.slices)
  }

  function SysProcess(k: Kernel, f: Frame): (r: Outcome)
    requires Shaped(k)
    ensures Shaped(r.k)
  {
    if !InRange(k, f.rsi, 48, true) then Outcome(k, -2)
    else if f.rdi >= TASK_LIMIT || k.tasks[f.rdi].state == Unused then Outcome(k, 0)
    else Deliver(k, f.rsi, ProcessInfo(k.tasks[f.rdi]), 1)
  }

  /** struct file_info: a 32-byte zero-padded name and the size. */
  function FileInfo(file: File): seq<nat> {
    file.name + (if |file.name| < 32 then seq(32 - |file.name|, _ => 0) else []) + LittleEndian(|file.bytes|)
  }

  function SysFile(k: Kernel, f: Frame): (r: Outcome)
    requires Shaped(k)
    ensures Shaped(r.k)
  {
    if !InRange(k, f.rsi, 40, true) then Outcome(k, -2)
    else if f.rdi > 0xffff_ffff || f.rdi >= |RAM_FILES| then Outcome(k, 0)
    else Deliver(k, f.rsi, FileInfo(RAM_FILES[f.rdi]), 1)
  }

  function SysMemory(k: Kernel, f: Frame): (r: Outcome)
    requires Shaped(k)
    ensures Shaped(r.k)
  {
    if !InRange(k, f.rdi, 16, true) then Outcome(k, -2)
    else Deliver(k, f.rdi, LittleEndian(|k.m.pages.states|) + LittleEndian(k.m.pages.free), 0)
  }

  /** A uint64_t read as int64_t. */
  function Signed(w: nat): int { if w >= 0x8000_0000_0000_0000 then w - 0x1_0000_0000_0000_0000 else w }

  /** The switch of syscall_dispatch, without wait and exit, which return by themselves. */
  function Service(cfg: Config, k: Kernel, f: Frame, serial: int): (r: Outcome)
    requires Shaped(k) && |cfg.boot| == 512
    ensures Shaped(r.k)
  {
    match f.rax
    case 0 => Outcome(k, k.tasks[k.current].id)
    case 1 => SysWrite(k, f)
    case 2 => Outcome(k, Signed(k.ticks))
    case 5 => SysOpen(k, f)
    case 6 => SysRead(k, f)
    case 7 => SysClose(k, f)
    case 8 => Outcome(k, k.tasks[k.current].program)
    case 9 => SysSpawn(cfg, k, f)
    case 11 => SysInput(k, f, serial)
    case 12 => SysProcess(k, f)
    case 13 => SysFile(k, f)
    case 14 => SysMemory(k, f)
    case 15 => Outcome(Inspect(cfg, k), 0)
    case _ => Outcome(k, -1)
  }

  predicate Traced(f: Frame, result: int) {
    f.rax !in {2, 15, 0, 8} && !(f.rax == 11 && result == -6) && !(f.rax == 1 && f.rsi == 1)
  }

  /** The end of syscall_dispatch: the record and the result in rax. */
  function Finish(k: Kernel, f: Frame, result: int): (r: Kernel)
    requires Shaped(k)
    ensures Shaped(r)
  {
    var t := k.tasks[k.current];
    var k1 := if Traced(f, result)
              then Emit(k, SyscallRecord(k.ticks, t.id, f.rax, f.rdi, f.rsi, f.rdx, result)) else k;
    SetRax(k1, k1.current, Unsigned(result))
  }

  /** syscall_dispatch */
  function Syscall(cfg: Config, k: Kernel, serial: int): (r: Kernel)
    requires Shaped(k) && |cfg.boot| == 512
    ensures Shaped(r)
  {
    var f := k.tasks[k.current].frame;
    if f.cs != USER_CS then Fail(k, NotUserMode)
    else if f.rax == 10 then WaitChild(k, f.rdi)
    else if f.rax == 4 then Exit(k, f.rdi)
    else
      var o := Service(cfg, k, f, serial);
      if o.k.panic.Some? then o.k else Finish(o.k, f, o.result)
  }

  // ---- the machine ----

  /** Entering the kernel stores the frame on the running task's kernel stack. */
  function Enter(k: Kernel, f: Frame): (r: Kernel)
    requires Shaped(k)
    ensures Shaped(r)
  {
    SetTask(k, k.current, k.tasks[k.current].(frame := f))
  }

  /** interrupt_dispatch */
  function Dispatch(cfg: Config, k: Kernel, cr2: nat, serial: int): (r: Kernel)
    requires Shaped(k) && |cfg.boot| == 512
    ensures Shaped(r)
  {
    var f := k.tasks[k.current].frame;
    if f.vector == 128 then Syscall(cfg, k, serial)
    else if f.cs % 4 == 3 && f.vector in {0, 6, 13, 14} then UserFault(k, if f.vector == 14 then cr2 else 0)
    else if f.vector == 32 then Tick(k)
    else Fail(k, UnexpectedException)
  }

  /** A store by the running program goes where the active tables allow it; a refused one is a page
      fault, which arrives as a trap of its own. */
  function ProgramStore(k: Kernel, address: nat, value: nat): (r: Kernel)
    requires Shaped(k)
    ensures Shaped(r)
  {
    match Lookup(k.m.mem, Active(k), address)
    case None => k
    case Some(t) =>
      if t.rights.user && t.rights.write then k.(m := k.m.(mem := WriteByte(k.m.mem, t.physical, value % 256))) else k
  }

  function Step(cfg: Config, k: Kernel, input: Input): (r: Kernel)
    requires Shaped(k) && |cfg.boot| == 512
    ensures Shaped(r)
  {
    if k.panic.Some? then k
    else match input
      case Trap(frame, cr2, serial) => Dispatch(cfg, Enter(k, frame), cr2, serial)
      case UserStore(address, value) => ProgramStore(k, address, value)
  }

  function Run(cfg: Config, k: Kernel, inputs: seq<Input>): (r: Kernel)
    requires Shaped(k) && |cfg.boot| == 512
    ensures Shaped(r)
    decreases |inputs|
  {
    if inputs == [] then k else Step(cfg, Run(cfg, k, inputs[..|inputs| - 1]), inputs[|inputs| - 1])
  }

  /** The state task_start finds: no task, the boot root active. */
  function Cold(m: Machine, bootRoot: nat): (r: Kernel)
    ensures Shaped(r)
  {
    Kernel(m, bootRoot, seq(8, _ => EMPTY_TASK), 0, 1, 0, [], [], None)
  }

  /** task_start */
  function Boot(cfg: Config, m: Machine, bootRoot: nat): (r: Kernel)
    requires |cfg.boot| == 512
    ensures Shaped(r)
  {
    var k := Cold(m, bootRoot);
    if cfg.image == [] || |cfg.image| > 65536 then Fail(k, ImageTooLarge)
    else
      var o := Spawn(cfg, Emit(k, BootRecord(0)), PROGRAM_INIT, 0);
      if o.k.panic.Some? then o.k
      else if o.result != 1 then Fail(o.k, InitFailed)
      else Select(o.k, 0)
  }
}
