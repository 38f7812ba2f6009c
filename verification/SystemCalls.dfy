/** Every system call end to end, as one step: what the caller finds in rax, in its buffer and in its open
    files, what appears on the console and in the trace, and that nothing else has changed. */
module SystemCalls {
  import opened Words
  import opened PageModel
  import opened PageTables
  import opened UserCopy
  import opened RamFs
  import opened KernelModel
  import opened Invariant
  import opened Copies
  import opened QuietSteps
  import opened Safety
  import opened Effects
  import opened StepTheorems
  import Build
  import Lifecycle
  import TraceText
  import Spawning
  import FirstEntry

  /** user_range said byte by byte: at most 256 bytes from an address in the lower half, each of them mapped
      for the user, and writable when the kernel is to write. */
  ghost predicate Accepts(k: Kernel, address: nat, length: nat, writing: bool)
    requires Shaped(k)
  {
    && length <= 256 && address < 0x8000_0000_0000
    && forall a :: address <= a < address + length ==> Permitted(k.m.mem, k.tasks[k.current].space, a, writing)
  }

  /** The bytes a process sees from an address on. */
  function UserText(mem: Memory, s: Space, address: nat, length: nat): (r: seq<nat>)
    ensures |r| == length
  {
    if length == 0 then [] else UserText(mem, s, address, length - 1) + [SeenByte(mem, s, address + length - 1)]
  }

  lemma {:induction false} UserTextAt(mem: Memory, s: Space, address: nat, length: nat, j: nat)
    requires j < length
    ensures UserText(mem, s, address, length)[j] == SeenByte(mem, s, address + j)
  {
    hide SeenByte;
    if j < length - 1 {
      UserTextAt(mem, s, address, length - 1, j);
    }
  }

  function SeenByte(mem: Memory, s: Space, address: nat): nat {
    match UserByte(mem, s, address) case None => 0 case Some(b) => b
  }

  /** Calls that leave no record: the cheap questions, an empty poll, and a single character written. */
  predicate Unrecorded(f: Frame, result: int) {
    f.rax == 0 || f.rax == 2 || f.rax == 8 || f.rax == 15 || (f.rax == 11 && result == -6) || (f.rax == 1 && f.rsi == 1)
  }

  /** All that a call leaves behind: memory, the caller's files, the console, the result in rax with every
      other register as it was, and one record. The clock, the other slots, the pages, the running slot and
      its root are as before. */
  ghost predicate Leaves(k: Kernel, input: Input, k': Kernel, mem: Memory, files: seq<OpenFile>, console: seq<nat>, result: int)
    requires Shaped(k) && input.Trap?
  {
    var f, t := input.frame, k.tasks[k.current];
    k' == k.(m := k.m.(mem := mem),
             tasks := k.tasks[k.current := t.(frame := f.(rax := result % 0x1_0000_0000_0000_0000), files := files)],
             console := console,
             trace := k.trace + if Unrecorded(f, result) then []
                                else [SyscallRecord(k.ticks, t.id, f.rax, f.rdi, f.rsi, f.rdx, result)])
  }

  /** Nothing but the result. */
  ghost predicate Answers(k: Kernel, input: Input, k': Kernel, result: int)
    requires Shaped(k) && input.Trap?
  {
    Leaves(k, input, k', k.m.mem, k.tasks[k.current].files, k.console, result)
  }

  /** In the new memory exactly the buffer changed among all that the caller sees, to exactly these bytes,
      and no frame that was not free changed but its own pages. */
  ghost predicate Receives(k: Kernel, mem': Memory, address: nat, bytes: seq<nat>)
    requires Shaped(k)
  {
    && OnlyOwnPages(k, mem')
    && forall a: nat :: UserByte(mem', k.tasks[k.current].space, a) ==
         if address <= a < address + |bytes| then Some(bytes[a - address]) else UserByte(k.m.mem, k.tasks[k.current].space, a)
  }

  lemma RangeAccepts(k: Kernel, address: nat, length: nat, writing: bool)
    requires Shaped(k)
    ensures InRange(k, address, length, writing) <==> Accepts(k, address, length, writing)
  {
    hide Permitted;
    var s := k.tasks[k.current].space;
    UserRangeFacts(k.m.mem, s, address, length, writing);
    if Accepts(k, address, length, writing) && length > 0 {
      LowerHalf(k.m.mem, s, address + length - 1, writing);
    }
  }

  lemma LowerHalf(mem: Memory, s: Space, address: nat, writing: bool)
    requires Permitted(mem, s, address, writing)
    ensures address < 0x8000_0000_0000
  {
  }

  // ---- the way through the dispatcher ----

  lemma Dispatched(cfg: Config, k: Kernel, input: Input)
    requires Inv(cfg, k) && input.Trap? && Calls(input, input.frame.rax) && input.frame.rax !in {4, 10}
    ensures var k1 := Enter(k, input.frame);
            var o := Service(cfg, k1, input.frame, input.serial);
            && Inv(cfg, k1) && Inv(cfg, o.k) && Step(cfg, k, input) == Finish(o.k, input.frame, o.result)
  {
    hide OwnOk, FamilyOk, Told, Service, Finish;
    EnterKeeps(cfg, k, input.frame);
    ServiceKeeps(cfg, Enter(k, input.frame), input.frame, input.serial);
  }

  lemma Finished(k: Kernel, input: Input, o: Outcome, mem: Memory, files: seq<OpenFile>, console: seq<nat>)
    requires Shaped(k) && input.Trap? && Shaped(o.k) && input.frame.rax != 15
    requires o.k == k.(m := k.m.(mem := mem), tasks := k.tasks[k.current := k.tasks[k.current].(frame := input.frame, files := files)],
                       console := console)
    ensures Leaves(k, input, Finish(o.k, input.frame, o.result), mem, files, console, o.result)
  {
  }

  /** A call whose service changed nothing. */
  lemma JustAnswers(cfg: Config, k: Kernel, input: Input, result: int)
    requires Inv(cfg, k) && input.Trap? && Calls(input, input.frame.rax) && input.frame.rax !in {4, 10, 15}
    requires Service(cfg, Enter(k, input.frame), input.frame, input.serial) == Outcome(Enter(k, input.frame), result)
    ensures Answers(k, input, Step(cfg, k, input), result)
  {
    hide Inv, FamilyOk, Told, MachineOk, Service, Finish, Step, Leaves;
    Lifecycle.InvParts(cfg, k);
    Dispatched(cfg, k, input);
    var t := k.tasks[k.current];
    Finished(k, input, Outcome(Enter(k, input.frame), result), k.m.mem, t.files, k.console);
  }

  /** Which call each number is. */
  lemma ServiceTable(cfg: Config, k: Kernel, f: Frame, serial: int)
    requires Shaped(k) && |cfg.boot| == 512
    ensures var o := Service(cfg, k, f, serial);
            && (f.rax == 0 ==> o == Outcome(k, k.tasks[k.current].id))
            && (f.rax == 1 ==> o == SysWrite(k, f))
            && (f.rax == 2 ==> o == Outcome(k, Signed(k.ticks)))
            && (f.rax == 5 ==> o == SysOpen(k, f))
            && (f.rax == 6 ==> o == SysRead(k, f))
            && (f.rax == 7 ==> o == SysClose(k, f))
            && (f.rax == 8 ==> o == Outcome(k, k.tasks[k.current].program))
            && (f.rax == 9 ==> o == SysSpawn(cfg, k, f))
            && (f.rax == 11 ==> o == SysInput(k, f, serial))
            && (f.rax == 12 ==> o == SysProcess(k, f))
            && (f.rax == 13 ==> o == SysFile(k, f))
            && (f.rax == 14 ==> o == SysMemory(k, f))
            && (f.rax == 15 ==> o == Outcome(Inspect(cfg, k), 0))
            && (f.rax == 3 || f.rax == 4 || f.rax == 10 || f.rax > 15 ==> o == Outcome(k, -1))
  {
    hide SysWrite, SysOpen, SysRead, SysClose, SysSpawn, SysInput, SysProcess, SysFile, SysMemory, Inspect, Signed;
  }

  // ---- calls that only answer ----

  /** Who am I, which program am I; a number that names no call answers -1. */
  lemma QuestionCalls(cfg: Config, k: Kernel, input: Input)
    requires Inv(cfg, k) && input.Trap? && Calls(input, input.frame.rax)
    ensures input.frame.rax == 0 ==> Answers(k, input, Step(cfg, k, input), k.tasks[k.current].id)
    ensures input.frame.rax == 8 ==> Answers(k, input, Step(cfg, k, input), k.tasks[k.current].program)
    ensures input.frame.rax == 3 || input.frame.rax > 15 ==> Answers(k, input, Step(cfg, k, input), -1)
  {
    hide Inv, FamilyOk, Told, MachineOk, Step, Leaves, Service, Answers;
    Lifecycle.InvParts(cfg, k);
    ServiceTable(cfg, Enter(k, input.frame), input.frame, input.serial);
    var n := input.frame.rax;
    if n == 0 {
      JustAnswers(cfg, k, input, k.tasks[k.current].id);
    } else if n == 8 {
      JustAnswers(cfg, k, input, k.tasks[k.current].program);
    } else if n == 3 || n > 15 {
      JustAnswers(cfg, k, input, -1);
    }
  }

  /** SYS_TICKS: rax is the clock, and nothing else changes. */
  lemma TicksCall(cfg: Config, k: Kernel, input: Input)
    requires Inv(cfg, k) && Calls(input, 2)
    ensures Answers(k, input, Step(cfg, k, input), Signed(k.ticks))
    ensures Step(cfg, k, input).tasks[k.current].frame == input.frame.(rax := k.ticks % 0x1_0000_0000_0000_0000)
  {
    hide Inv, FamilyOk, Told, MachineOk, Step, Service;
    Lifecycle.InvParts(cfg, k);
    ServiceTable(cfg, Enter(k, input.frame), input.frame, input.serial);
    JustAnswers(cfg, k, input, Signed(k.ticks));
    SameWord(k.ticks);
  }

  lemma SameWord(w: nat)
    ensures Signed(w) % 0x1_0000_0000_0000_0000 == w % 0x1_0000_0000_0000_0000
  {
  }

  // ---- the console ----

  lemma TextIsRead(mem: Memory, t: Task, s: Space, address: nat, length: nat)
    requires s.root == t.space.root
    requires forall a :: address <= a < address + length ==> Permitted(mem, t.space, a, false)
    ensures CopyIn(mem, s, address, length) == Some(UserText(mem, t.space, address, length))
    ensures forall j :: 0 <= j < length ==> UserByte(mem, t.space, address + j) == Some(UserText(mem, t.space, address, length)[j])
  {
    hide Permitted, CopyIn, UserByte;
    CopyInFacts(mem, t, s, address, length);
    var r := CopyIn(mem, s, address, length).value;
    forall j | 0 <= j < length
      ensures UserByte(mem, t.space, address + j) == Some(r[j]) && UserText(mem, t.space, address, length)[j] == r[j]
    {
      assert r[address + j - address] == r[j];
      UserTextAt(mem, t.space, address, length, j);
    }
    assert r == UserText(mem, t.space, address, length);
  }

  lemma WriteServed(k: Kernel, f: Frame)
    requires Shaped(k) && Active(k).root == k.tasks[k.current].space.root
    ensures var t := k.tasks[k.current];
            SysWrite(k, f) ==
            if Accepts(k, f.rdi, f.rsi, false)
            then Outcome(k.(console := k.console + UserText(k.m.mem, t.space, f.rdi, f.rsi)), f.rsi) else Outcome(k, -2)
  {
    hide UserRange, CopyIn, UserText, Permitted;
    RangeAccepts(k, f.rdi, f.rsi, false);
    if Accepts(k, f.rdi, f.rsi, false) {
      TextIsRead(k.m.mem, k.tasks[k.current], Active(k), f.rdi, f.rsi);
    }
  }

  /** Entering the kernel changes no buffer. */
  lemma SameBuffers(k: Kernel, f: Frame)
    requires Shaped(k)
    ensures Enter(k, f).m == k.m && Enter(k, f).tasks[k.current] == k.tasks[k.current].(frame := f)
    ensures forall a, n, w :: Accepts(Enter(k, f), a, n, w) == Accepts(k, a, n, w)
  {
    hide Permitted;
    assert Enter(k, f).tasks[k.current].space == k.tasks[k.current].space;
  }

  /** SYS_WRITE: an accepted text is on the console, byte for byte as the caller sees it, and rax is its
      length; a refused one is nowhere. */
  lemma WriteCall(cfg: Config, k: Kernel, input: Input)
    requires Inv(cfg, k) && Calls(input, 1)
    ensures var f, t, k' := input.frame, k.tasks[k.current], Step(cfg, k, input);
            var text := UserText(k.m.mem, t.space, f.rdi, f.rsi);
            if Accepts(k, f.rdi, f.rsi, false) then
              && Leaves(k, input, k', k.m.mem, t.files, k.console + text, f.rsi)
              && (forall j :: 0 <= j < f.rsi ==> UserByte(k.m.mem, t.space, f.rdi + j) == Some(text[j]))
            else Answers(k, input, k', -2)
  {
    hide Inv, FamilyOk, Told, MachineOk, Step, Leaves, Answers, Finish, Service, SysWrite, UserText, Accepts, UserByte;
    Lifecycle.InvParts(cfg, k);
    var f, t := input.frame, k.tasks[k.current];
    var k1 := Enter(k, f);
    ServiceTable(cfg, k1, f, input.serial);
    RunningRoot(cfg, k);
    WriteServed(k1, f);
    SameBuffers(k, f);
    if Accepts(k, f.rdi, f.rsi, false) {
      Dispatched(cfg, k, input);
      ReadableText(k, f.rdi, f.rsi);
      Finished(k, input, SysWrite(k1, f), k.m.mem, t.files, k.console + UserText(k.m.mem, t.space, f.rdi, f.rsi));
    } else {
      JustAnswers(cfg, k, input, -2);
    }
  }

  lemma ReadableText(k: Kernel, address: nat, length: nat)
    requires Shaped(k) && Accepts(k, address, length, false)
    ensures var s := k.tasks[k.current].space;
            forall j :: 0 <= j < length ==> UserByte(k.m.mem, s, address + j) == Some(UserText(k.m.mem, s, address, length)[j])
  {
    hide Permitted, CopyIn, UserByte, UserText;
    TextIsRead(k.m.mem, k.tasks[k.current], k.tasks[k.current].space, address, length);
  }

  lemma RunningRoot(cfg: Config, k: Kernel)
    requires Inv(cfg, k)
    ensures Active(k).root == k.tasks[k.current].space.root
  {
    hide OwnOk, FamilyOk, Told;
  }

  // ---- files ----

  ghost predicate FirstNamed(files: seq<File>, name: seq<nat>, i: nat) {
    i < |files| && files[i].name == name && forall j :: 0 <= j < i ==> files[j].name != name
  }

  ghost predicate FirstFree(slots: seq<OpenFile>, fd: nat) {
    fd < |slots| && !slots[fd].used && forall d :: 0 <= d < fd ==> slots[d].used
  }

  /** What open makes of the caller's slots, and what it answers: the first file of the name in the lowest
      free slot, from its beginning. */
  ghost predicate Opens(files: seq<File>, slots: seq<OpenFile>, name: seq<nat>, slots': seq<OpenFile>, result: int) {
    if forall i :: 0 <= i < |files| ==> files[i].name != name then slots' == slots && result == -4
    else if forall fd :: 0 <= fd < |slots| ==> slots[fd].used then slots' == slots && result == -5
    else exists i: nat, fd: nat :: FirstNamed(files, name, i) && FirstFree(slots, fd) &&
                                   slots' == slots[fd := OpenFile(true, i, 0)] && result == fd
  }

  lemma OpenIsFirst(files: seq<File>, slots: seq<OpenFile>, name: seq<nat>)
    requires SlotsOk(files, slots)
    ensures Opens(files, slots, name, Open(files, slots, name).slots, Open(files, slots, name).result)
  {
    hide Open;
    OpenFacts(files, slots, name);
    var a := Open(files, slots, name);
    OpenTakesFirst(files, slots, name);
    if a.result >= 0 {
      var i: nat :| i < |files| && files[i].name == name && (forall j :: 0 <= j < i ==> files[j].name != name) &&
                    a.slots == slots[a.result := OpenFile(true, i, 0)];
      assert FirstNamed(files, name, i) && FirstFree(slots, a.result);
    }
  }

  lemma OpenServed(k: Kernel, f: Frame)
    requires Shaped(k) && Active(k).root == k.tasks[k.current].space.root
    ensures var t := k.tasks[k.current];
            var a := Open(RAM_FILES, t.files, UserText(k.m.mem, t.space, f.rdi, f.rsi));
            SysOpen(k, f) == if Accepts(k, f.rdi, f.rsi, false) then Outcome(SetFiles(k, a.slots), a.result) else Outcome(k, -2)
  {
    hide UserRange, CopyIn, UserText, Permitted, Open, RAM_FILES;
    RangeAccepts(k, f.rdi, f.rsi, false);
    if Accepts(k, f.rdi, f.rsi, false) {
      TextIsRead(k.m.mem, k.tasks[k.current], Active(k), f.rdi, f.rsi);
    }
  }

  lemma FilesFinished(cfg: Config, k: Kernel, input: Input, files: seq<OpenFile>, result: int)
    requires Inv(cfg, k) && input.Trap? && Calls(input, input.frame.rax) && input.frame.rax !in {4, 10, 15}
    requires Service(cfg, Enter(k, input.frame), input.frame, input.serial) == Outcome(SetFiles(Enter(k, input.frame), files), result)
    ensures Leaves(k, input, Step(cfg, k, input), k.m.mem, files, k.console, result)
  {
    hide Inv, FamilyOk, Told, MachineOk, Service, Finish, Step, Leaves;
    Lifecycle.InvParts(cfg, k);
    Dispatched(cfg, k, input);
    Finished(k, input, Outcome(SetFiles(Enter(k, input.frame), files), result), k.m.mem, files, k.console);
  }

  /** SYS_OPEN */
  lemma OpenCall(cfg: Config, k: Kernel, input: Input)
    requires Inv(cfg, k) && Calls(input, 5)
    ensures var f, t, k' := input.frame, k.tasks[k.current], Step(cfg, k, input);
            var t' := k'.tasks[k.current];
            if Accepts(k, f.rdi, f.rsi, false) then
              exists result: int ::
                Opens(RAM_FILES, t.files, UserText(k.m.mem, t.space, f.rdi, f.rsi), t'.files, result) &&
                Leaves(k, input, k', k.m.mem, t'.files, k.console, result)
            else Answers(k, input, k', -2)
  {
    hide Inv, FamilyOk, Told, MachineOk, Step, Leaves, Answers, Service, SysOpen, UserText, Accepts, Open, RAM_FILES, SlotsOk, Opens;
    Lifecycle.InvParts(cfg, k);
    var f, t := input.frame, k.tasks[k.current];
    var k1 := Enter(k, f);
    ServiceTable(cfg, k1, f, input.serial);
    RunningRoot(cfg, k);
    OpenServed(k1, f);
    SameBuffers(k, f);
    if Accepts(k, f.rdi, f.rsi, false) {
      InvFamily(cfg, k);
      var a := Open(RAM_FILES, t.files, UserText(k.m.mem, t.space, f.rdi, f.rsi));
      OpenIsFirst(RAM_FILES, t.files, UserText(k.m.mem, t.space, f.rdi, f.rsi));
      FilesFinished(cfg, k, input, a.slots, a.result);
      LeavesFiles(k, input, Step(cfg, k, input), k.m.mem, a.slots, k.console, a.result);
    } else {
      JustAnswers(cfg, k, input, -2);
    }
  }

  lemma LeavesFiles(k: Kernel, input: Input, k': Kernel, mem: Memory, files: seq<OpenFile>, console: seq<nat>, result: int)
    requires Shaped(k) && input.Trap? && Leaves(k, input, k', mem, files, console, result)
    ensures Shaped(k') && k'.tasks[k.current].files == files && k'.m.mem == mem
  {
  }

  /** SYS_CLOSE */
  lemma CloseCall(cfg: Config, k: Kernel, input: Input)
    requires Inv(cfg, k) && Calls(input, 7)
    ensures var f, t, k' := input.frame, k.tasks[k.current], Step(cfg, k, input);
            if f.rdi < |t.files| && t.files[f.rdi].used
            then Leaves(k, input, k', k.m.mem, t.files[f.rdi := t.files[f.rdi].(used := false)], k.console, 0)
            else Answers(k, input, k', -3)
  {
    hide Inv, FamilyOk, Told, MachineOk, Step, Leaves, Service;
    Lifecycle.InvParts(cfg, k);
    var f, t := input.frame, k.tasks[k.current];
    var k1 := Enter(k, f);
    ServiceTable(cfg, k1, f, input.serial);
    var a := Close(t.files, f.rdi);
    FilesFinished(cfg, k, input, a.slots, a.result);
  }

  // ---- buffers ----

  lemma DeliverDone(cfg: Config, k: Kernel, address: nat, bytes: seq<nat>, result: int)
    requires Inv(cfg, k) && (forall i :: 0 <= i < |bytes| ==> bytes[i] < 256)
    requires WritableRange(k.m.mem, k.tasks[k.current].space, address, |bytes|)
    ensures var o := Deliver(k, address, bytes, result);
            o == Outcome(k.(m := k.m.(mem := o.k.m.mem)), result) && Receives(k, o.k.m.mem, address, bytes)
  {
    hide OwnOk, FamilyOk, Told, Held, CopyOut, UserByte, MachineOk;
    CurrentHeld(cfg, k);
    CopyOutFacts(cfg, k.m, k.tasks[k.current], Active(k), address, bytes);
  }

  lemma AcceptsWritable(k: Kernel, address: nat, length: nat)
    requires Shaped(k) && Accepts(k, address, length, true)
    ensures WritableRange(k.m.mem, k.tasks[k.current].space, address, length)
  {
    hide Permitted;
  }

  /** A call that fills a buffer, seen from before the entry. */
  lemma BufferFinished(cfg: Config, k: Kernel, input: Input, address: nat, bytes: seq<nat>, files: seq<OpenFile>, result: int)
    requires Inv(cfg, k) && input.Trap? && Calls(input, input.frame.rax) && input.frame.rax !in {4, 10, 15}
    requires Inv(cfg, SetFiles(Enter(k, input.frame), files))
    requires Service(cfg, Enter(k, input.frame), input.frame, input.serial) ==
             Deliver(SetFiles(Enter(k, input.frame), files), address, bytes, result)
    requires (forall i :: 0 <= i < |bytes| ==> bytes[i] < 256) && |bytes| <= 256 && WritableRange(k.m.mem, k.tasks[k.current].space, address, |bytes|)
    ensures var k' := Step(cfg, k, input);
            Leaves(k, input, k', k'.m.mem, files, k.console, result) && Receives(k, k'.m.mem, address, bytes)
  {
    hide Inv, FamilyOk, Told, MachineOk, Service, Finish, Step, Leaves, Deliver, Receives;
    Lifecycle.InvParts(cfg, k);
    Dispatched(cfg, k, input);
    var k1 := SetFiles(Enter(k, input.frame), files);
    DeliverDone(cfg, k1, address, bytes, result);
    var o := Deliver(k1, address, bytes, result);
    Finished(k, input, o, o.k.m.mem, files, k.console);
    LeavesFiles(k, input, Step(cfg, k, input), o.k.m.mem, files, k.console, result);
    SameReceives(k, input.frame, files, o.k.m.mem, address, bytes);
  }

  lemma SameReceives(k: Kernel, f: Frame, files: seq<OpenFile>, mem': Memory, address: nat, bytes: seq<nat>)
    requires Shaped(k) && Receives(SetFiles(Enter(k, f), files), mem', address, bytes)
    ensures Receives(k, mem', address, bytes)
  {
    hide UserByte, FreeSet;
    var k1 := SetFiles(Enter(k, f), files);
    assert k1.tasks[k.current].space == k.tasks[k.current].space && k1.tasks[k.current].pages == k.tasks[k.current].pages && k1.m == k.m;
  }

  lemma SameFiles(cfg: Config, k: Kernel, f: Frame)
    requires Inv(cfg, k)
    ensures Inv(cfg, Enter(k, f)) && SetFiles(Enter(k, f), k.tasks[k.current].files) == Enter(k, f)
  {
    hide Inv, FamilyOk, Told, MachineOk;
    Lifecycle.InvParts(cfg, k);
    EnterKeeps(cfg, k, f);
    var t := k.tasks[k.current].(frame := f);
    assert Enter(k, f).tasks[k.current := t] == Enter(k, f).tasks;
  }

  /** SYS_INPUT: the next character, if there is one, is in the byte asked for. */
  lemma InputCall(cfg: Config, k: Kernel, input: Input)
    requires Inv(cfg, k) && Calls(input, 11)
    ensures var f, t, k' := input.frame, k.tasks[k.current], Step(cfg, k, input);
            if !Accepts(k, f.rdi, 1, true) then Answers(k, input, k', -2)
            else if input.serial < 0 then Answers(k, input, k', -6)
            else Leaves(k, input, k', k'.m.mem, t.files, k.console, 1) && Receives(k, k'.m.mem, f.rdi, [input.serial % 256])
  {
    hide Inv, FamilyOk, Told, MachineOk, Step, Leaves, Answers, Service, UserRange, Accepts, Deliver, Receives, WritableRange;
    Lifecycle.InvParts(cfg, k);
    var f, t := input.frame, k.tasks[k.current];
    var k1 := Enter(k, f);
    ServiceTable(cfg, k1, f, input.serial);
    SameBuffers(k, f);
    RangeAccepts(k1, f.rdi, 1, true);
    if !Accepts(k, f.rdi, 1, true) {
      JustAnswers(cfg, k, input, -2);
    } else if input.serial < 0 {
      JustAnswers(cfg, k, input, -6);
    } else {
      SameFiles(cfg, k, f);
      AcceptsWritable(k, f.rdi, 1);
      BufferFinished(cfg, k, input, f.rdi, [input.serial % 256], t.files, 1);
    }
  }

  /** The word eight bytes spell, lowest first. */
  function LittleValue(bytes: seq<nat>): nat {
    if bytes == [] then 0 else bytes[0] + 256 * LittleValue(bytes[1..])
  }

  function WordOf(bytes: seq<nat>, j: nat): nat
    requires 8 * j + 8 <= |bytes|
  {
    LittleValue(bytes[8 * j..8 * j + 8])
  }

  lemma {:induction false} Spells(w: nat, b: seq<nat>) returns (rest: nat)
    requires forall k :: 0 <= k < |b| ==> b[k] == ByteOf(w, k)
    ensures w == LittleValue(b) + TraceText.Power(256, |b|) * rest && LittleValue(b) < TraceText.Power(256, |b|)
    decreases |b|
  {
    if b == [] {
      rest := w;
    } else {
      forall k | 0 <= k < |b| - 1 ensures b[1..][k] == ByteOf(w / 256, k) { assert b[k + 1] == ByteOf(w, k + 1); }
      rest := Spells(w / 256, b[1..]);
      assert b[0] == w % 256;
      Regroup(256, TraceText.Power(256, |b| - 1), rest);
    }
  }

  lemma Regroup(a: nat, b: nat, c: nat)
    ensures a * (b * c) == (a * b) * c
  {
  }

  /** What memcpy of a 64-bit field leaves spells the field. */
  lemma LittleIsWord(w: nat)
    ensures LittleValue(LittleEndian(w)) == w % 0x1_0000_0000_0000_0000
  {
    hide LittleValue, ByteOf;
    var rest := Spells(w, LittleEndian(w));
    assert TraceText.Power(256, 4) == 0x1_0000_0000;
    assert TraceText.Power(256, 8) == 0x1_0000_0000_0000_0000;
  }

  lemma BytesOfWord(w: nat)
    ensures |LittleEndian(w)| == 8 && LittleValue(LittleEndian(w)) == w % 0x1_0000_0000_0000_0000
    ensures forall i :: 0 <= i < 8 ==> LittleEndian(w)[i] < 256
  {
    LittleBytes(w);
    LittleIsWord(w);
  }

  lemma WordInside(before: seq<nat>, w: nat, after: seq<nat>, j: nat)
    requires |before| == 8 * j
    ensures WordOf(before + LittleEndian(w) + after, j) == w % 0x1_0000_0000_0000_0000
  {
    hide LittleEndian, LittleValue;
    BytesOfWord(w);
    assert (before + LittleEndian(w) + after)[8 * j..8 * j + 8] == LittleEndian(w);
  }

  lemma ProcessWords(t: Task)
    ensures var b := ProcessInfo(t);
            && |b| == 48 && (forall i :: 0 <= i < 48 ==> b[i] < 256)
            && WordOf(b, 0) == t.id % 0x1_0000_0000_0000_0000
            && WordOf(b, 1) == t.parent % 0x1_0000_0000_0000_0000
            && WordOf(b, 2) == t.program % 0x1_0000_0000_0000_0000
            && WordOf(b, 3) == (match t.state case Unused => 0 case Ready => 1 case Waiting => 2 case Exited => 3)
            && WordOf(b, 4) == t.space.root * 4096 % 0x1_0000_0000_0000_0000
            && WordOf(b, 5) == t.slices % 0x1_0000_0000_0000_0000
  {
    hide LittleEndian, WordOf;
    var a0, a1, a2 := LittleEndian(t.id), LittleEndian(t.parent), LittleEndian(t.program);
    var a3, a4, a5 := LittleEndian(t.state.Number()), LittleEndian(t.space.root * 4096), LittleEndian(t.slices);
    BytesOfWord(t.id); BytesOfWord(t.parent); BytesOfWord(t.program);
    BytesOfWord(t.state.Number()); BytesOfWord(t.space.root * 4096); BytesOfWord(t.slices);
    var b := ProcessInfo(t);
    assert b == [] + a0 + (a1 + a2 + a3 + a4 + a5) && b == a0 + a1 + (a2 + a3 + a4 + a5);
    assert b == (a0 + a1) + a2 + (a3 + a4 + a5) && b == (a0 + a1 + a2) + a3 + (a4 + a5);
    assert b == (a0 + a1 + a2 + a3) + a4 + a5 && b == (a0 + a1 + a2 + a3 + a4) + a5 + [];
    WordInside([], t.id, a1 + a2 + a3 + a4 + a5, 0);
    WordInside(a0, t.parent, a2 + a3 + a4 + a5, 1);
    WordInside(a0 + a1, t.program, a3 + a4 + a5, 2);
    WordInside(a0 + a1 + a2, t.state.Number(), a4 + a5, 3);
    WordInside(a0 + a1 + a2 + a3, t.space.root * 4096, a5, 4);
    WordInside(a0 + a1 + a2 + a3 + a4, t.slices, [], 5);
  }

  /** SYS_PROCESS: the six words of the slot asked for, or 0 when it is unused or there is no such slot. */
  lemma ProcessCall(cfg: Config, k: Kernel, input: Input) returns (bytes: seq<nat>)
    requires Inv(cfg, k) && Calls(input, 12)
    ensures |bytes| == 48
    ensures var f, t, k' := input.frame, k.tasks[k.current], Step(cfg, k, input);
            if !Accepts(k, f.rsi, 48, true) then Answers(k, input, k', -2)
            else if f.rdi >= TASK_LIMIT || k.tasks[f.rdi].state == Unused then Answers(k, input, k', 0)
            else
              var found := k.tasks[f.rdi];
              && Leaves(k, input, k', k'.m.mem, t.files, k.console, 1) && Receives(k, k'.m.mem, f.rsi, bytes)
              && WordOf(bytes, 0) == found.id % 0x1_0000_0000_0000_0000
              && WordOf(bytes, 1) == found.parent % 0x1_0000_0000_0000_0000
              && WordOf(bytes, 2) == found.program % 0x1_0000_0000_0000_0000
              && WordOf(bytes, 3) == (match found.state case Unused => 0 case Ready => 1 case Waiting => 2 case Exited => 3)
              && WordOf(bytes, 4) == found.space.root * 4096 % 0x1_0000_0000_0000_0000
              && WordOf(bytes, 5) == found.slices % 0x1_0000_0000_0000_0000
  {
    hide Inv, FamilyOk, Told, MachineOk, Step, Leaves, Answers, Service, UserRange, Accepts, Deliver, Receives, WritableRange, ProcessInfo, WordOf;
    Lifecycle.InvParts(cfg, k);
    var f, t := input.frame, k.tasks[k.current];
    var k1 := Enter(k, f);
    ServiceTable(cfg, k1, f, input.serial);
    SameBuffers(k, f);
    RangeAccepts(k1, f.rsi, 48, true);
    bytes := if f.rdi < TASK_LIMIT then ProcessInfo(k1.tasks[f.rdi]) else ProcessInfo(t);
    ProcessWords(if f.rdi < TASK_LIMIT then k1.tasks[f.rdi] else t);
    if !Accepts(k, f.rsi, 48, true) {
      JustAnswers(cfg, k, input, -2);
    } else if f.rdi >= TASK_LIMIT || k.tasks[f.rdi].state == Unused {
      JustAnswers(cfg, k, input, 0);
    } else {
      SameFiles(cfg, k, f);
      AcceptsWritable(k, f.rsi, 48);
      BufferFinished(cfg, k, input, f.rsi, bytes, t.files, 1);
    }
  }

  lemma FileWords(file: File)
    requires |file.name| <= 32 && (forall i :: 0 <= i < |file.name| ==> file.name[i] < 256)
    ensures var b := FileInfo(file);
            && |b| == 40 && (forall i :: 0 <= i < 40 ==> b[i] < 256)
            && (forall i :: 0 <= i < 32 ==> b[i] == if i < |file.name| then file.name[i] else 0)
            && WordOf(b, 4) == |file.bytes| % 0x1_0000_0000_0000_0000
  {
    hide LittleEndian, WordOf;
    var w := |file.bytes|;
    BytesOfWord(w);
    var pad: seq<nat> := if |file.name| < 32 then seq(32 - |file.name|, _ => 0) else [];
    assert FileInfo(file) == (file.name + pad) + LittleEndian(w) + [];
    WordInside(file.name + pad, w, [], 4);
  }

  /** SYS_FILE: the name, padded with zeros to 32 bytes, and the size of the file asked for; 0 when there is
      none of that number. */
  lemma FileCall(cfg: Config, k: Kernel, input: Input) returns (bytes: seq<nat>)
    requires Inv(cfg, k) && Calls(input, 13)
    ensures |bytes| == 40
    ensures var f, t, k' := input.frame, k.tasks[k.current], Step(cfg, k, input);
            if !Accepts(k, f.rsi, 40, true) then Answers(k, input, k', -2)
            else if f.rdi >= |RAM_FILES| then Answers(k, input, k', 0)
            else
              var file := RAM_FILES[f.rdi];
              && Leaves(k, input, k', k'.m.mem, t.files, k.console, 1) && Receives(k, k'.m.mem, f.rsi, bytes)
              && (forall i :: 0 <= i < 32 ==> bytes[i] == if i < |file.name| then file.name[i] else 0)
              && WordOf(bytes, 4) == |file.bytes| % 0x1_0000_0000_0000_0000
  {
    hide Inv, FamilyOk, Told, MachineOk, Step, Leaves, Answers, Service, UserRange, Accepts, Deliver, Receives, WritableRange, FileInfo, WordOf, RAM_FILES;
    Lifecycle.InvParts(cfg, k);
    var f, t := input.frame, k.tasks[k.current];
    var k1 := Enter(k, f);
    ServiceTable(cfg, k1, f, input.serial);
    SameBuffers(k, f);
    RangeAccepts(k1, f.rsi, 40, true);
    FileBytes();
    FewFiles();
    bytes := FileInfo(RAM_FILES[if f.rdi < |RAM_FILES| then f.rdi else 0]);
    FileWords(RAM_FILES[if f.rdi < |RAM_FILES| then f.rdi else 0]);
    if !Accepts(k, f.rsi, 40, true) {
      JustAnswers(cfg, k, input, -2);
    } else if f.rdi >= |RAM_FILES| {
      JustAnswers(cfg, k, input, 0);
    } else {
      SameFiles(cfg, k, f);
      AcceptsWritable(k, f.rsi, 40);
      BufferFinished(cfg, k, input, f.rsi, bytes, t.files, 1);
    }
  }

  lemma FewFiles()
    ensures 0 < |RAM_FILES| < 0xffff_ffff
  {
  }

  lemma MemoryWords(frames: nat, free: nat)
    ensures var b := LittleEndian(frames) + LittleEndian(free);
            && |b| == 16 && (forall i :: 0 <= i < 16 ==> b[i] < 256)
            && WordOf(b, 0) == frames % 0x1_0000_0000_0000_0000 && WordOf(b, 1) == free % 0x1_0000_0000_0000_0000
  {
    hide LittleEndian, WordOf;
    var x, y := LittleEndian(frames), LittleEndian(free);
    BytesOfWord(frames);
    BytesOfWord(free);
    assert x + y == [] + x + y && x + y == x + y + [];
    WordInside([], frames, y, 0);
    WordInside(x, free, [], 1);
  }

  /** SYS_MEMORY: the number of frames and the number of free ones. */
  lemma MemoryCall(cfg: Config, k: Kernel, input: Input) returns (bytes: seq<nat>)
    requires Inv(cfg, k) && Calls(input, 14)
    ensures |bytes| == 16
    ensures var f, t, k' := input.frame, k.tasks[k.current], Step(cfg, k, input);
            if !Accepts(k, f.rdi, 16, true) then Answers(k, input, k', -2)
            else
              && Leaves(k, input, k', k'.m.mem, t.files, k.console, 0) && Receives(k, k'.m.mem, f.rdi, bytes)
              && WordOf(bytes, 0) == |k.m.pages.states| % 0x1_0000_0000_0000_0000
              && WordOf(bytes, 1) == k.m.pages.free % 0x1_0000_0000_0000_0000
  {
    hide Inv, FamilyOk, Told, MachineOk, Step, Leaves, Answers, Service, UserRange, Accepts, Deliver, Receives, WritableRange, LittleEndian, WordOf;
    Lifecycle.InvParts(cfg, k);
    var f, t := input.frame, k.tasks[k.current];
    var k1 := Enter(k, f);
    ServiceTable(cfg, k1, f, input.serial);
    SameBuffers(k, f);
    RangeAccepts(k1, f.rdi, 16, true);
    bytes := LittleEndian(|k.m.pages.states|) + LittleEndian(k.m.pages.free);
    MemoryWords(|k.m.pages.states|, k.m.pages.free);
    if !Accepts(k, f.rdi, 16, true) {
      JustAnswers(cfg, k, input, -2);
    } else {
      SameFiles(cfg, k, f);
      AcceptsWritable(k, f.rdi, 16);
      BufferFinished(cfg, k, input, f.rdi, bytes, t.files, 0);
    }
  }

  /** The next bytes of an open file, at most `length` of them. */
  function NextPiece(slot: OpenFile, length: nat): seq<nat> {
    if slot.file < |RAM_FILES| && slot.offset <= |RAM_FILES[slot.file].bytes| then
      var left := |RAM_FILES[slot.file].bytes| - slot.offset;
      RAM_FILES[slot.file].bytes[slot.offset..slot.offset + if length < left then length else left]
    else []
  }

  lemma ReadIsPiece(slots: seq<OpenFile>, fd: nat, length: nat)
    requires SlotsOk(RAM_FILES, slots)
    ensures Read(RAM_FILES, slots, fd, length) ==
            if fd < |slots| && slots[fd].used
            then Chunk(slots[fd := slots[fd].(offset := slots[fd].offset + |NextPiece(slots[fd], length)|)],
                       |NextPiece(slots[fd], length)|, NextPiece(slots[fd], length))
            else Chunk(slots, -3, [])
  {
    hide RAM_FILES;
    if fd < |slots| && slots[fd].used {
      var bytes, o := RAM_FILES[slots[fd].file].bytes, slots[fd].offset;
      assert Rest(RAM_FILES, slots[fd]) == bytes[o..];
      if length <= |bytes[o..]| {
        assert bytes[o..][..length] == bytes[o..o + length];
      }
    }
  }

  lemma ReadLengths(slots: seq<OpenFile>, fd: nat, length: nat)
    requires SlotsOk(RAM_FILES, slots)
    ensures |Read(RAM_FILES, slots, fd, length).bytes| <= length
  {
    hide RAM_FILES;
    ReadFacts(RAM_FILES, slots, fd, length);
  }

  /** SYS_READ: the next piece of the file is in the buffer, its length in rax, and the offset moves past it. */
  lemma ReadCall(cfg: Config, k: Kernel, input: Input)
    requires Inv(cfg, k) && Calls(input, 6)
    ensures var f, t, k' := input.frame, k.tasks[k.current], Step(cfg, k, input);
            if !Accepts(k, f.rsi, f.rdx, true) then Answers(k, input, k', -2)
            else if f.rdi >= |t.files| || !t.files[f.rdi].used then Answers(k, input, k', -3)
            else
              var piece := NextPiece(t.files[f.rdi], f.rdx);
              && Leaves(k, input, k', k'.m.mem, t.files[f.rdi := t.files[f.rdi].(offset := t.files[f.rdi].offset + |piece|)], k.console, |piece|)
              && Receives(k, k'.m.mem, f.rsi, piece)
  {
    hide Inv, FamilyOk, Told, MachineOk, Step, Leaves, Answers, Service, UserRange, Accepts, Deliver, Receives, RAM_FILES, SlotsOk, Read, NextPiece, WritableRange;
    Lifecycle.InvParts(cfg, k);
    var f, t := input.frame, k.tasks[k.current];
    var k1 := Enter(k, f);
    ServiceTable(cfg, k1, f, input.serial);
    SameBuffers(k, f);
    RangeAccepts(k1, f.rsi, f.rdx, true);
    if !Accepts(k, f.rsi, f.rdx, true) {
      JustAnswers(cfg, k, input, -2);
    } else {
      EnterKeeps(cfg, k, f);
      InvFamily(cfg, k);
      ReadPiece(k1, f);
      ReadIsPiece(t.files, f.rdi, f.rdx);
      ReadLengths(t.files, f.rdi, f.rdx);
      LengthAccepted(k, f.rsi, f.rdx);
      var c := Read(RAM_FILES, t.files, f.rdi, f.rdx);
      if f.rdi >= |t.files| || !t.files[f.rdi].used {
        SameFiles(cfg, k, f);
        DeliversNothing(k1, f.rsi, -3);
        JustAnswers(cfg, k, input, -3);
      } else {
        SetFilesKeeps(cfg, k1, c.slots);
        BufferFinished(cfg, k, input, f.rsi, c.bytes, c.slots, c.result);
      }
    }
  }

  lemma DeliversNothing(k: Kernel, address: nat, result: int)
    requires Shaped(k)
    ensures Deliver(k, address, [], result) == Outcome(k, result)
  {
  }

  lemma LengthAccepted(k: Kernel, address: nat, length: nat)
    requires Shaped(k) && Accepts(k, address, length, true)
    ensures length <= 256
  {
  }

  // ---- spawn, wait and inspect ----

  ghost predicate FirstUnused(tasks: seq<Task>, i: nat) {
    i < |tasks| && tasks[i].state == Unused && forall j :: 0 <= j < i ==> tasks[j].state != Unused
  }

  /** Who may start what: init the shell, and the shell the five programs after it. */
  predicate Allowed(parent: nat, program: nat) {
    (parent == 0 && program == 1) || (parent == 1 && 2 <= program <= 6)
  }

  /** After a spawn that was tried: only slot `i`, the caller's rax, the pages and the next pid. */
  ghost predicate Tried(k: Kernel, input: Input, k': Kernel, i: nat, result: int)
    requires Shaped(k) && input.Trap? && i < TASK_LIMIT
  {
    var f, t := input.frame, k.tasks[k.current];
    && Shaped(k') && i != k.current
    && k'.tasks == k.tasks[i := k'.tasks[i]][k.current := t.(frame := f.(rax := result % 0x1_0000_0000_0000_0000))]
    && k' == k.(m := k'.m, tasks := k'.tasks, trace := k'.trace, nextPid := k.nextPid + 1)
    && k'.trace != [] && k'.trace[|k'.trace| - 1] == SyscallRecord(k.ticks, t.id, f.rax, f.rdi, f.rsi, f.rdx, result)
  }

  lemma TriedFinish(k: Kernel, input: Input, o: Outcome, i: nat)
    requires Shaped(k) && input.Trap? && input.frame.rax == 9 && i < TASK_LIMIT && i != k.current && Shaped(o.k)
    requires var k1 := Enter(k, input.frame);
             o.k == k1.(m := o.k.m, tasks := k1.tasks[i := o.k.tasks[i]], trace := o.k.trace, nextPid := k.nextPid + 1)
    ensures Tried(k, input, Finish(o.k, input.frame, o.result), i, o.result)
    ensures Finish(o.k, input.frame, o.result).tasks[i] == o.k.tasks[i] && Finish(o.k, input.frame, o.result).m == o.k.m
  {
  }

  /** What a spawn with slot `i` unused leaves: the slot and the pages as they were when the price is not
      free, and otherwise a new process for the price. */
  ghost predicate SpawnLeaves(cfg: Config, k: Kernel, input: Input, k': Kernel, i: nat, price: nat)
    requires Shaped(k) && input.Trap? && i < TASK_LIMIT
  {
    if k.m.pages.free < price then
      && Tried(k, input, k', i, -5) && k'.tasks[i].state == Unused
      && k'.m.pages.states == k.m.pages.states && k'.m.pages.free == k.m.pages.free
    else
      && Tried(k, input, k', i, k.nextPid)
      && FirstEntry.NewProcess(cfg, k'.m, k'.tasks[i], k.nextPid, k.tasks[k.current].id, input.frame.rdi)
      && k'.m.pages.free == k.m.pages.free - price
  }

  /** SYS_SPAWN: -3 for a program the caller may not start; -5 when no slot is unused or the price is not
      free, with no page gone; otherwise the lowest unused slot holds a new process that will enter at the
      first byte of the image, and rax is its pid. */
  lemma SpawnCall(cfg: Config, k: Kernel, input: Input)
    requires Inv(cfg, k) && Calls(input, 9)
    ensures var f, t, k' := input.frame, k.tasks[k.current], Step(cfg, k, input);
            var price := (|cfg.image| + 4095) / 4096 + 9;
            if !Allowed(t.program, f.rdi) then Answers(k, input, k', -3)
            else if forall i :: 0 <= i < TASK_LIMIT ==> k.tasks[i].state != Unused then Answers(k, input, k', -5)
            else exists i: nat :: FirstUnused(k.tasks, i) && i < TASK_LIMIT && SpawnLeaves(cfg, k, input, k', i, price)
  {
    hide Inv, FamilyOk, Told, MachineOk, Step, Leaves, Answers, Service, Finish, Spawn, SpawnLeaves, FindUnused;
    Lifecycle.InvParts(cfg, k);
    var f, t := input.frame, k.tasks[k.current];
    var k1 := Enter(k, f);
    ServiceTable(cfg, k1, f, input.serial);
    var i := FindUnused(k.tasks, 0);
    SameUnused(k, f);
    Spawning.FindUnusedFacts(k.tasks, 0);
    if !Allowed(t.program, f.rdi) {
      JustAnswers(cfg, k, input, -3);
    } else {
      EnterKeeps(cfg, k, f);
      if i == TASK_LIMIT {
        Lifecycle.SpawnNoSlot(cfg, k1, f.rdi, t.id);
        JustAnswers(cfg, k, input, -5);
      } else {
        Dispatched(cfg, k, input);
        assert FirstUnused(k.tasks, i);
        SpawnTried(cfg, k, input, i);
      }
    }
  }

  lemma SameUnused(k: Kernel, f: Frame)
    requires Shaped(k)
    ensures |Enter(k, f).tasks| == TASK_LIMIT && FindUnused(Enter(k, f).tasks, 0) == FindUnused(k.tasks, 0)
  {
    SameUnusedFrom(k.tasks, Enter(k, f).tasks, 0);
  }

  lemma {:induction false} SameUnusedFrom(tasks: seq<Task>, tasks': seq<Task>, i: nat)
    requires i <= |tasks| == |tasks'| && forall j :: 0 <= j < |tasks| ==> tasks'[j].state == tasks[j].state
    ensures FindUnused(tasks', i) == FindUnused(tasks, i)
    decreases |tasks| - i
  {
    if i < |tasks| {
      SameUnusedFrom(tasks, tasks', i + 1);
    }
  }

  lemma SpawnTried(cfg: Config, k: Kernel, input: Input, i: nat)
    requires Inv(cfg, k) && Calls(input, 9) && MaySpawn(k.tasks[k.current], input.frame.rdi)
    requires i == FindUnused(k.tasks, 0) && i < TASK_LIMIT
    ensures var f, t := input.frame, k.tasks[k.current];
            var o := Spawn(cfg, Enter(k, f), f.rdi, t.id);
            var k' := Finish(o.k, f, o.result);
            SpawnLeaves(cfg, k, input, k', i, Build.Price(cfg))
  {
    hide OwnOk, FamilyOk, Told, Spawn, Finish, Tried, FirstEntry.NewProcess, Build.Price, Held, Build.Holding, Build.Fresh, FindUnused, MemoryOk;
    var f, t := input.frame, k.tasks[k.current];
    var k1 := Enter(k, f);
    EnterKeeps(cfg, k, f);
    SameUnused(k, f);
    Spawning.FindUnusedFacts(k.tasks, 0);
    SpawnEffect(cfg, k1, f.rdi);
    var o := Spawn(cfg, k1, f.rdi, t.id);
    if Build.Price(cfg) <= k.m.pages.free {
      FirstEntry.SpawnEntry(cfg, k1, f.rdi);
    }
    TriedFinish(k, input, o, i);
  }

  /** SYS_INSPECT answers 0 and leaves no syscall record; what it reports is the matter of `Observations`. */
  lemma InspectCall(cfg: Config, k: Kernel, input: Input)
    requires Inv(cfg, k) && Calls(input, 15)
    ensures var t, k1 := k.tasks[k.current], Enter(k, input.frame);
            Step(cfg, k, input) ==
            k.(tasks := k.tasks[k.current := t.(frame := input.frame.(rax := 0))], trace := Inspect(cfg, k1).trace)
  {
    hide Inv, FamilyOk, Told, MachineOk, Step, Service, Inspect;
    Lifecycle.InvParts(cfg, k);
    var k1 := Enter(k, input.frame);
    ServiceTable(cfg, k1, input.frame, input.serial);
    Dispatched(cfg, k, input);
    Lifecycle.InspectKeeps(cfg, k1);
    var o := Outcome(Inspect(cfg, k1), 0);
    assert Finish(o.k, input.frame, 0).tasks == k.tasks[k.current := k.tasks[k.current].(frame := input.frame.(rax := 0))];
  }

  /** What wait leaves when child `c` is the one named: its status in rax and its slot unused when it has
      ended; otherwise the caller waits, its frame saved as it entered, and another slot runs. */
  ghost predicate WaitLeaves(k: Kernel, f: Frame, k': Kernel, c: nat)
    requires Shaped(k) && c < TASK_LIMIT
  {
    var me, t := k.current, k.tasks[k.current];
    if k.tasks[c].state == Exited
    then k'.tasks == k.tasks[me := t.(frame := f.(rax := k.tasks[c].status))][c := k.tasks[c].(state := Unused)] && k'.current == me
    else k'.tasks == k.tasks[me := t.(frame := f, state := Waiting, waitingFor := f.rdi)] && k'.current != me
  }

  /** SYS_WAIT in full; for a pid that is no child it answers -3 and does nothing else. */
  lemma WaitCall(cfg: Config, k: Kernel, input: Input)
    requires Inv(cfg, k) && Calls(input, 10)
    ensures var f, me, t, k' := input.frame, k.current, k.tasks[k.current], Step(cfg, k, input);
            && k' == k.(tasks := k'.tasks, current := k'.current, root := k'.root, trace := k'.trace)
            && ((forall i :: 0 <= i < TASK_LIMIT ==> !ChildOf(k.tasks[i], f.rdi, t.id)) ==>
                  k'.tasks == k.tasks[me := t.(frame := f.(rax := 0xffff_ffff_ffff_fffd))] && k'.current == me)
            && (forall c :: 0 <= c < TASK_LIMIT && ChildOf(k.tasks[c], f.rdi, t.id) ==> WaitLeaves(k, f, k', c))
  {
    hide Inv, FamilyOk, Told, MachineOk, WaitChild, FindChild, ChildOf, WaitLeaves;
    Lifecycle.InvParts(cfg, k);
    var f, me := input.frame, k.current;
    var k1 := Enter(k, f);
    EnterKeeps(cfg, k, f);
    SameChildren(k.tasks, k1.tasks, f.rdi, k.tasks[me].id, 0);
    Lifecycle.FindChildFacts(k.tasks, f.rdi, k.tasks[me].id, 0);
    WaitSwitches(cfg, k1, f.rdi);
    WaitEntered(cfg, k, f);
    forall c | 0 <= c < TASK_LIMIT && ChildOf(k.tasks[c], f.rdi, k.tasks[me].id)
      ensures WaitLeaves(k, f, WaitChild(k1, f.rdi), c)
    {
      OneChild(cfg, k, f.rdi, c, FindChild(k.tasks, f.rdi, k.tasks[me].id, 0));
    }
  }

  lemma WaitEntered(cfg: Config, k: Kernel, f: Frame)
    requires Inv(cfg, k)
    ensures var me, t, k' := k.current, k.tasks[k.current], WaitChild(Enter(k, f), f.rdi);
            var c := FindChild(k.tasks, f.rdi, t.id, 0);
            if c < TASK_LIMIT then WaitLeaves(k, f, k', c)
            else k'.tasks == k.tasks[me := t.(frame := f.(rax := 0xffff_ffff_ffff_fffd))]
  {
    hide Inv, FamilyOk, Told, MachineOk, WaitChild, FindChild;
    Lifecycle.InvParts(cfg, k);
    var k1 := Enter(k, f);
    EnterKeeps(cfg, k, f);
    SameChildren(k.tasks, k1.tasks, f.rdi, k.tasks[k.current].id, 0);
    WaitEffect(cfg, k1, f.rdi);
    WaitSwitches(cfg, k1, f.rdi);
    NoOwnChild(cfg, k1, f.rdi);
  }

  lemma OneChild(cfg: Config, k: Kernel, pid: nat, c: nat, d: nat)
    requires Inv(cfg, k) && c < TASK_LIMIT && d <= TASK_LIMIT && ChildOf(k.tasks[c], pid, k.tasks[k.current].id)
    requires (d < TASK_LIMIT ==> ChildOf(k.tasks[d], pid, k.tasks[k.current].id)) && (d == TASK_LIMIT ==> !ChildOf(k.tasks[c], pid, k.tasks[k.current].id))
    ensures c == d
  {
    hide OwnOk, Told, HasParent, HasChild;
  }

  lemma WaitSwitches(cfg: Config, k: Kernel, pid: nat)
    requires Inv(cfg, k)
    ensures var k' := WaitChild(k, pid);
            var c := FindChild(k.tasks, pid, k.tasks[k.current].id, 0);
            && k' == k.(tasks := k'.tasks, current := k'.current, root := k'.root, trace := k'.trace)
            && (c < TASK_LIMIT && k.tasks[c].state != Exited <==> k'.current != k.current)
  {
    hide OwnOk, FamilyOk, Told, ReadyFrom, FindChild;
    Lifecycle.WaitKeeps(cfg, k, pid);
    Lifecycle.FindChildFacts(k.tasks, pid, k.tasks[k.current].id, 0);
    WaitEffect(cfg, k, pid);
  }
}
