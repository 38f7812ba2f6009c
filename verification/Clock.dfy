/** What every step does to the clock, the console and the saved registers, and what follows over whole
    runs. */
module Clock {
  import opened Words
  import opened PageTables
  import RamFs
  import opened UserCopy
  import opened Copies
  import opened TraceText
  import opened KernelModel
  import opened Invariant
  import opened QuietSteps
  import opened Safety
  import opened StepTheorems
  import opened SystemCalls
  import Effects
  import Exiting
  import Lifecycle
  import FirstEntry
  import Build
  import PageModel

  // ---- the timer ----

  predicate IsTick(input: Input) { input.Trap? && input.frame.vector == 32 }

  /** A tick adds one to the clock and to the slices of the running slot alone, and saves its registers as
      they were; nothing else but the choice of the next slot changes. */
  lemma TickStep(cfg: Config, k: Kernel, input: Input)
    requires Inv(cfg, k) && IsTick(input) && Doom(k, input) == None
    ensures var me, t, k' := k.current, k.tasks[k.current], Step(cfg, k, input);
            && k' == k.(ticks := (k.ticks + 1) % 0x1_0000_0000_0000_0000,
                        tasks := k.tasks[me := t.(frame := input.frame, slices := (t.slices + 1) % 0x1_0000_0000)],
                        current := k'.current, root := k'.root, trace := k'.trace)
            && k'.trace == k.trace +
               if k'.current == me then []
               else [ScheduleRecord(k'.ticks, t.id, k'.tasks[k'.current].id, k'.tasks[k'.current].space.root * 4096, 3)]
  {
    hide OwnOk, FamilyOk, Told, ReadyFrom;
    EnterKeeps(cfg, k, input.frame);
    var k1 := Enter(k, input.frame);
    TickKeeps(cfg, k1);
    assert k.tasks[k.current := k.tasks[k.current].(frame := input.frame)][k.current := k1.tasks[k.current].(slices := (k1.tasks[k.current].slices + 1) % 0x1_0000_0000)]
        == k.tasks[k.current := k1.tasks[k.current].(slices := (k1.tasks[k.current].slices + 1) % 0x1_0000_0000)];
  }

  // ---- an exit ----

  lemma {:induction false} WakeQuiet(k: Kernel, child: Task, i: nat, reaped: bool)
    requires Shaped(k) && i <= TASK_LIMIT
    ensures var w := WakeFrom(k, child, i, reaped).k; w.ticks == k.ticks && w.console == k.console && w.nextPid == k.nextPid
    decreases TASK_LIMIT - i
  {
    if i < TASK_LIMIT {
      if WaitsFor(k.tasks[i], child) {
        var p := k.tasks[i];
        var k1 := SetTask(k, i, p.(frame := p.frame.(rax := child.status), state := Ready));
        WakeQuiet(ProcessEvent(k1, i), child, i + 1, true);
      } else {
        WakeQuiet(k, child, i + 1, reaped);
      }
    }
  }

  lemma ExitQuiet(k: Kernel, status: nat)
    requires Shaped(k)
    ensures Exit(k, status).ticks == k.ticks && Exit(k, status).console == k.console
  {
    hide WakeFrom, ReadyFrom, ReleasePages;
    var t := k.tasks[k.current].(status := status, state := Exited);
    WakeQuiet(Emit(SetTask(k, k.current, t), ExitRecord(k.ticks, t.id, status)), t, 0, false);
  }

  /** The message of a fault. */
  function FaultMessage(k: Kernel, f: Frame): seq<nat>
    requires Shaped(k)
  {
    RamFs.Ascii("\nuser fault: pid=") + RamFs.Ascii(Decimal(k.tasks[k.current].id)) + RamFs.Ascii(" vector=") + RamFs.Ascii(Decimal(f.vector)) + RamFs.Ascii("\n")
  }

  lemma MessageIs(k: Kernel, f: Frame)
    requires Shaped(k)
    ensures FaultText(k.tasks[k.current].id, f.vector) == FaultMessage(k, f)
  {
    hide Decimal, RamFs.Ascii;
    var a, b, c, d, e := "\nuser fault: pid=", Decimal(k.tasks[k.current].id), " vector=", Decimal(f.vector), "\n";
    assert FaultText(k.tasks[k.current].id, f.vector) == RamFs.Ascii(a + b + c + d + e);
    AsciiJoins(a, b);
    AsciiJoins(a + b, c);
    AsciiJoins(a + b + c, d);
    AsciiJoins(a + b + c + d, e);
  }

  lemma AsciiJoins(a: string, b: string)
    ensures RamFs.Ascii(a + b) == RamFs.Ascii(a) + RamFs.Ascii(b)
  {
  }

  lemma FaultQuiet(cfg: Config, k: Kernel, input: Input)
    requires Inv(cfg, k) && Faults(input)
    ensures Step(cfg, k, input).ticks == k.ticks && Step(cfg, k, input).console == k.console + FaultMessage(k, input.frame)
  {
    hide Inv, FamilyOk, Told, MachineOk, Exit, FaultText, FaultMessage;
    Lifecycle.InvParts(cfg, k);
    var k1 := Enter(k, input.frame);
    MessageIs(k, input.frame);
    ExitQuiet(NoteFault(k1, if input.frame.vector == 14 then input.cr2 else 0), 128 + input.frame.vector);
  }

  lemma ExitCallQuiet(cfg: Config, k: Kernel, input: Input)
    requires Inv(cfg, k) && Calls(input, 4)
    ensures Step(cfg, k, input).ticks == k.ticks && Step(cfg, k, input).console == k.console
  {
    hide Inv, FamilyOk, Told, MachineOk, Exit;
    Lifecycle.InvParts(cfg, k);
    ExitQuiet(Enter(k, input.frame), input.frame.rdi);
  }

  // ---- any call that returns ----

  /** What a call that returns or waits leaves alone. */
  ghost predicate Returns(k: Kernel, input: Input, k': Kernel, console: seq<nat>)
    requires Shaped(k) && input.Trap?
  {
    && Shaped(k') && k'.ticks == k.ticks && k'.console == console
    && var t, t' := k.tasks[k.current], k'.tasks[k.current];
       && t' == t.(frame := t'.frame, files := t'.files, state := t'.state, waitingFor := t'.waitingFor)
       && t'.frame == input.frame.(rax := t'.frame.rax)
       && (t'.state == Waiting ==> t'.frame == input.frame && t'.files == t.files)
  }

  lemma LeavesReturns(cfg: Config, k: Kernel, input: Input, k': Kernel, mem: Memory, files: seq<RamFs.OpenFile>, console: seq<nat>, result: int)
    requires Inv(cfg, k) && input.Trap? && Leaves(k, input, k', mem, files, console, result)
    ensures Returns(k, input, k', console)
  {
    hide OwnOk, FamilyOk, Told;
  }

  lemma SpawnReturns(cfg: Config, k: Kernel, input: Input)
    requires Inv(cfg, k) && Calls(input, 9)
    ensures Returns(k, input, Step(cfg, k, input), k.console)
  {
    hide Inv, FamilyOk, Told, MachineOk, Step, Leaves, SpawnLeaves, Returns;
    Lifecycle.InvParts(cfg, k);
    SpawnCall(cfg, k, input);
    var k' := Step(cfg, k, input);
    var t := k.tasks[k.current];
    if !Allowed(t.program, input.frame.rdi) {
      LeavesReturns(cfg, k, input, k', k.m.mem, t.files, k.console, -3);
    } else if forall i :: 0 <= i < TASK_LIMIT ==> k.tasks[i].state != Unused {
      LeavesReturns(cfg, k, input, k', k.m.mem, t.files, k.console, -5);
    } else {
      var price := (|cfg.image| + 4095) / 4096 + 9;
      var i: nat :| FirstUnused(k.tasks, i) && i < TASK_LIMIT && SpawnLeaves(cfg, k, input, k', i, price);
      TriedReturns(cfg, k, input, k', i, price);
    }
  }

  lemma TriedReturns(cfg: Config, k: Kernel, input: Input, k': Kernel, i: nat, price: nat)
    requires Inv(cfg, k) && input.Trap? && i < TASK_LIMIT && SpawnLeaves(cfg, k, input, k', i, price)
    ensures Returns(k, input, k', k.console)
  {
    hide OwnOk, FamilyOk, Told, FirstEntry.NewProcess;
  }

  lemma WaitReturns(cfg: Config, k: Kernel, input: Input)
    requires Inv(cfg, k) && Calls(input, 10)
    ensures Returns(k, input, Step(cfg, k, input), k.console)
  {
    hide Inv, FamilyOk, Told, MachineOk, Step, WaitLeaves, Returns, ChildOf;
    Lifecycle.InvParts(cfg, k);
    WaitCall(cfg, k, input);
    var k' := Step(cfg, k, input);
    var pid, me := input.frame.rdi, k.tasks[k.current].id;
    if exists c :: 0 <= c < TASK_LIMIT && ChildOf(k.tasks[c], pid, me) {
      var c :| 0 <= c < TASK_LIMIT && ChildOf(k.tasks[c], pid, me);
      WaitLeavesReturns(cfg, k, input, k', c);
    } else {
      UnwaitedReturns(cfg, k, input, k');
    }
  }

  lemma WaitLeavesReturns(cfg: Config, k: Kernel, input: Input, k': Kernel, c: nat)
    requires Inv(cfg, k) && input.Trap? && c < TASK_LIMIT && WaitLeaves(k, input.frame, k', c)
    requires k' == k.(tasks := k'.tasks, current := k'.current, root := k'.root, trace := k'.trace) && k'.current < TASK_LIMIT
    ensures Returns(k, input, k', k.console)
  {
    hide OwnOk, FamilyOk, Told;
  }

  lemma UnwaitedReturns(cfg: Config, k: Kernel, input: Input, k': Kernel)
    requires Inv(cfg, k) && input.Trap?
    requires k' == k.(tasks := k.tasks[k.current := k.tasks[k.current].(frame := input.frame.(rax := 0xffff_ffff_ffff_fffd))],
                      current := k'.current, root := k'.root, trace := k'.trace) && k'.current < TASK_LIMIT
    ensures Returns(k, input, k', k.console)
  {
    hide OwnOk, FamilyOk, Told;
  }

  /** What a system call other than exit adds to the console: an accepted text, or nothing. */
  function Printed(k: Kernel, input: Input): seq<nat>
    requires Shaped(k) && input.Trap?
  {
    if input.frame.rax == 1 && InRange(k, input.frame.rdi, input.frame.rsi, false)
    then UserText(k.m.mem, k.tasks[k.current].space, input.frame.rdi, input.frame.rsi) else []
  }

  lemma CallReturns(cfg: Config, k: Kernel, input: Input)
    requires Inv(cfg, k) && input.Trap? && Calls(input, input.frame.rax) && input.frame.rax != 4
    ensures Returns(k, input, Step(cfg, k, input), k.console + Printed(k, input))
  {
    hide Inv, FamilyOk, Told, MachineOk, Step, Leaves, Returns, Accepts, Receives, Opens, UserText, NextPiece, WordOf, UserRange;
    Lifecycle.InvParts(cfg, k);
    var f, t, k' := input.frame, k.tasks[k.current], Step(cfg, k, input);
    var n := f.rax;
    NothingAdded(k.console);
    if n == 1 {
      WriteCall(cfg, k, input);
      RangeAccepts(k, f.rdi, f.rsi, false);
      if Accepts(k, f.rdi, f.rsi, false) {
        LeavesReturns(cfg, k, input, k', k.m.mem, t.files, k.console + UserText(k.m.mem, t.space, f.rdi, f.rsi), f.rsi);
      } else {
        LeavesReturns(cfg, k, input, k', k.m.mem, t.files, k.console, -2);
      }
    } else if n == 9 {
      SpawnReturns(cfg, k, input);
    } else if n == 10 {
      WaitReturns(cfg, k, input);
    } else if n == 15 {
      InspectReturns(cfg, k, input);
    } else {
      var mem, files, result := LeavesSomething(cfg, k, input);
      LeavesReturns(cfg, k, input, k', mem, files, k.console, result);
    }
  }

  lemma NothingAdded(console: seq<nat>)
    ensures console + [] == console
  {
  }

  lemma InspectReturns(cfg: Config, k: Kernel, input: Input)
    requires Inv(cfg, k) && Calls(input, 15)
    ensures Returns(k, input, Step(cfg, k, input), k.console)
  {
    hide OwnOk, FamilyOk, Told, MachineOk, Step, Inspect;
    InspectCall(cfg, k, input);
  }

  /** The calls that neither print, spawn, wait nor inspect. */
  lemma LeavesSomething(cfg: Config, k: Kernel, input: Input) returns (mem: Memory, files: seq<RamFs.OpenFile>, result: int)
    requires Inv(cfg, k) && input.Trap? && Calls(input, input.frame.rax) && input.frame.rax !in {1, 4, 9, 10, 15}
    ensures Leaves(k, input, Step(cfg, k, input), mem, files, k.console, result)
  {
    hide Inv, FamilyOk, Told, MachineOk, Step, Leaves, Accepts, Receives, Opens, UserText, NextPiece, WordOf;
    Lifecycle.InvParts(cfg, k);
    var f, t, k' := input.frame, k.tasks[k.current], Step(cfg, k, input);
    var n := f.rax;
    mem, files, result := k.m.mem, t.files, -2;
    if n == 5 {
      OpenCall(cfg, k, input);
      if Accepts(k, f.rdi, f.rsi, false) {
        files := k'.tasks[k.current].files;
        result :| Opens(RamFs.RAM_FILES, t.files, UserText(k.m.mem, t.space, f.rdi, f.rsi), files, result) && Leaves(k, input, k', k.m.mem, files, k.console, result);
      }
    } else if n == 6 {
      ReadCall(cfg, k, input);
      if Accepts(k, f.rsi, f.rdx, true) {
        if f.rdi >= |t.files| || !t.files[f.rdi].used {
          result := -3;
        } else {
          var piece := NextPiece(t.files[f.rdi], f.rdx);
          mem, files, result := k'.m.mem, t.files[f.rdi := t.files[f.rdi].(offset := t.files[f.rdi].offset + |piece|)], |piece|;
        }
      }
    } else if n == 7 {
      CloseCall(cfg, k, input);
      if f.rdi < |t.files| && t.files[f.rdi].used {
        files, result := t.files[f.rdi := t.files[f.rdi].(used := false)], 0;
      } else {
        result := -3;
      }
    } else if n == 11 {
      InputCall(cfg, k, input);
      if Accepts(k, f.rdi, 1, true) {
        if input.serial < 0 { result := -6; } else { mem, result := k'.m.mem, 1; }
      }
    } else if n == 12 {
      var bytes := ProcessCall(cfg, k, input);
      if Accepts(k, f.rsi, 48, true) {
        if f.rdi >= TASK_LIMIT || k.tasks[f.rdi].state == Unused { result := 0; } else { mem, result := k'.m.mem, 1; }
      }
    } else if n == 13 {
      var bytes := FileCall(cfg, k, input);
      if Accepts(k, f.rsi, 40, true) {
        if f.rdi >= |RamFs.RAM_FILES| { result := 0; } else { mem, result := k'.m.mem, 1; }
      }
    } else if n == 14 {
      var bytes := MemoryCall(cfg, k, input);
      if Accepts(k, f.rdi, 16, true) { mem, result := k'.m.mem, 0; }
    } else if n == 2 {
      TicksCall(cfg, k, input);
      result := Signed(k.ticks);
    } else {
      QuestionCalls(cfg, k, input);
      result := if n == 0 then t.id else if n == 8 then t.program else -1;
    }
  }

  // ---- one step ----

  /** What a step writes on the console: the text of an accepted write, the message of a fault, or nothing. */
  ghost function ConsoleOutput(k: Kernel, input: Input): seq<nat>
    requires Shaped(k)
  {
    if Calls(input, 1) && Accepts(k, input.frame.rdi, input.frame.rsi, false)
    then UserText(k.m.mem, k.tasks[k.current].space, input.frame.rdi, input.frame.rsi)
    else if Faults(input) then FaultMessage(k, input.frame)
    else []
  }

  /** The clock advances by one with each tick and with nothing else; the console grows by exactly what the
      step writes. */
  lemma ClockAndConsole(cfg: Config, k: Kernel, input: Input)
    requires Inv(cfg, k) && Doom(k, input) == None
    ensures var k' := Step(cfg, k, input);
            && k'.ticks == (if IsTick(input) then (k.ticks + 1) % 0x1_0000_0000_0000_0000 else k.ticks)
            && k'.console == k.console + ConsoleOutput(k, input)
  {
    hide Inv, FamilyOk, Told, MachineOk, Step, Returns, Accepts, UserText, FaultMessage, UserRange;
    Lifecycle.InvParts(cfg, k);
    NothingAdded(k.console);
    if input.UserStore? {
      StoreQuiet(cfg, k, input);
    } else if IsTick(input) {
      TickStep(cfg, k, input);
    } else if Faults(input) {
      FaultQuiet(cfg, k, input);
    } else if input.frame.rax == 4 {
      ExitCallQuiet(cfg, k, input);
    } else {
      CallReturns(cfg, k, input);
      RangeAccepts(k, input.frame.rdi, input.frame.rsi, false);
      ReturnsClock(k, input, Step(cfg, k, input), k.console + Printed(k, input));
    }
  }

  lemma StoreQuiet(cfg: Config, k: Kernel, input: Input)
    requires Inv(cfg, k) && input.UserStore?
    ensures var k' := Step(cfg, k, input); k' == k.(m := k'.m)
  {
    hide OwnOk, FamilyOk, Told, WriteByte;
  }

  /** A store by the running program reaches exactly the byte it may write, and otherwise nothing. */
  lemma StoreStep(cfg: Config, k: Kernel, input: Input)
    requires Inv(cfg, k) && input.UserStore?
    ensures var k' := Step(cfg, k, input);
            if Permitted(k.m.mem, k.tasks[k.current].space, input.address, true)
            then k' == k.(m := k.m.(mem := k'.m.mem)) && Receives(k, k'.m.mem, input.address, [input.value % 256])
            else k' == k
  {
    hide OwnOk, FamilyOk, Told, Lookup, Held, WriteByte, MachineOk, UserByte;
    CurrentHeld(cfg, k);
    var t := k.tasks[k.current];
    SameRoot(k.m.mem, Active(k), t.space, input.address);
    if Permitted(k.m.mem, t.space, input.address, true) {
      StoreByte(cfg, k.m, t, input.address, input.value % 256);
    }
  }

  lemma ReturnsClock(k: Kernel, input: Input, k': Kernel, console: seq<nat>)
    requires Shaped(k) && input.Trap? && Returns(k, input, k', console)
    ensures k'.ticks == k.ticks && k'.console == console
  {
  }

  /** An interruption does not disturb the program: whatever enters the kernel without ending the process,
      its registers are saved as they were, but for rax after a call that has returned; a tick and a wait
      that blocks change none, and a store enters nothing. All else a call changes of the process is its open
      files, its slices and whether it waits. */
  lemma RegistersKept(cfg: Config, k: Kernel, input: Input)
    requires Inv(cfg, k) && Doom(k, input) == None && ExitStatus(input) == None
    ensures var t, t' := k.tasks[k.current], Step(cfg, k, input).tasks[k.current];
            && t' == t.(frame := t'.frame, files := t'.files, slices := t'.slices, state := t'.state, waitingFor := t'.waitingFor)
            && (input.UserStore? ==> t' == t)
            && (input.Trap? ==> t'.frame == input.frame.(rax := t'.frame.rax))
            && (IsTick(input) || t'.state == Waiting ==> t'.files == t.files && (input.Trap? ==> t'.frame == input.frame))
  {
    hide Inv, FamilyOk, Told, MachineOk, Step, Returns, Accepts, UserText, UserRange;
    Lifecycle.InvParts(cfg, k);
    if input.UserStore? {
      StoreQuiet(cfg, k, input);
      RunningReady(cfg, k);
    } else if IsTick(input) {
      TickStep(cfg, k, input);
    } else {
      CallReturns(cfg, k, input);
      ReturnsFrame(k, input, Step(cfg, k, input), k.console + Printed(k, input));
    }
  }

  lemma RunningReady(cfg: Config, k: Kernel)
    requires Inv(cfg, k)
    ensures k.tasks[k.current].state == Ready
  {
    hide OwnOk, FamilyOk, Told;
  }

  lemma ReturnsFrame(k: Kernel, input: Input, k': Kernel, console: seq<nat>)
    requires Shaped(k) && input.Trap? && Returns(k, input, k', console)
    ensures var t, t' := k.tasks[k.current], k'.tasks[k.current];
            && t' == t.(frame := t'.frame, files := t'.files, state := t'.state, waitingFor := t'.waitingFor)
            && t'.frame == input.frame.(rax := t'.frame.rax)
            && (t'.state == Waiting ==> t'.frame == input.frame && t'.files == t.files)
  {
  }

  /** Slices count ticks: only a tick changes them, and only those of the slot that was running. */
  lemma SlicesCount(cfg: Config, k: Kernel, input: Input, i: nat)
    requires Inv(cfg, k) && Doom(k, input) == None && i < TASK_LIMIT && k.tasks[i].state != Unused
    ensures Step(cfg, k, input).tasks[i].slices ==
            if IsTick(input) && i == k.current then (k.tasks[i].slices + 1) % 0x1_0000_0000 else k.tasks[i].slices
  {
    hide Inv, FamilyOk, Told, MachineOk, Step, Returns, Doom, UserRange;
    Lifecycle.InvParts(cfg, k);
    if i != k.current {
      OthersKept(cfg, k, input, i);
    } else if IsTick(input) {
      TickStep(cfg, k, input);
    } else if ExitStatus(input).Some? {
      EndedSlices(cfg, k, input);
    } else if input.UserStore? {
      StoreQuiet(cfg, k, input);
    } else {
      NotDoomed(k, input);
      CallReturns(cfg, k, input);
      ReturnsFrame(k, input, Step(cfg, k, input), k.console + Printed(k, input));
    }
  }

  lemma NotDoomed(k: Kernel, input: Input)
    requires Shaped(k) && Doom(k, input) == None && input.Trap? && !IsTick(input) && ExitStatus(input) == None
    ensures Calls(input, input.frame.rax) && input.frame.rax != 4
  {
  }

  lemma EndedSlices(cfg: Config, k: Kernel, input: Input)
    requires Inv(cfg, k) && Doom(k, input) == None && ExitStatus(input).Some?
    ensures Step(cfg, k, input).tasks[k.current].slices == k.tasks[k.current].slices
  {
    hide OwnOk, FamilyOk, Told, Exit, Exiting.WaiterOf, PageModel.Gave;
    var f := input.frame;
    EnterKeeps(cfg, k, f);
    var k1 := Enter(k, f);
    if Faults(input) {
      NoteFaultKeeps(cfg, k1, if f.vector == 14 then input.cr2 else 0);
      Effects.ExitEffect(cfg, NoteFault(k1, if f.vector == 14 then input.cr2 else 0), 128 + f.vector);
    } else {
      Effects.ExitEffect(cfg, k1, f.rdi);
    }
  }

  // ---- runs ----

  /** The timer inputs of a run. */
  function TimerCount(inputs: seq<Input>): nat {
    if inputs == [] then 0 else TimerCount(inputs[..|inputs| - 1]) + if IsTick(inputs[|inputs| - 1]) then 1 else 0
  }

  /** All that a run writes. */
  ghost function Transcript(cfg: Config, k: Kernel, inputs: seq<Input>): seq<nat>
    requires Shaped(k) && |cfg.boot| == 512
    decreases |inputs|
  {
    if inputs == [] then []
    else
      var before := inputs[..|inputs| - 1];
      Transcript(cfg, k, before) + ConsoleOutput(Run(cfg, k, before), inputs[|inputs| - 1])
  }

  /** Over every run that is still up, the clock is the number of timer inputs, modulo 2^64, and the console
      is what the steps wrote, in order. */
  lemma {:induction false} RunClock(cfg: Config, k: Kernel, inputs: seq<Input>)
    requires Inv(cfg, k) && Run(cfg, k, inputs).panic == None && k.ticks < 0x1_0000_0000_0000_0000
    ensures var k' := Run(cfg, k, inputs);
            && k'.ticks == (k.ticks + TimerCount(inputs)) % 0x1_0000_0000_0000_0000
            && k'.console == k.console + Transcript(cfg, k, inputs)
    decreases |inputs|
  {
    hide Inv, FamilyOk, Told, MachineOk, Step, Doom, ConsoleOutput, IsTick;
    Lifecycle.InvParts(cfg, k);
    StillUp(cfg, k, inputs);
    if inputs == [] {
      NothingAdded(k.console);
    } else {
      var before := inputs[..|inputs| - 1];
      RunClock(cfg, k, before);
      ClockAndConsole(cfg, Run(cfg, k, before), inputs[|inputs| - 1]);
      OneMoreTick(k.ticks, TimerCount(before));
    }
  }

  lemma OneMoreTick(from: nat, count: nat)
    ensures ((from + count) % 0x1_0000_0000_0000_0000 + 1) % 0x1_0000_0000_0000_0000 == (from + (count + 1)) % 0x1_0000_0000_0000_0000
  {
  }

  /** From power-on: SYS_TICKS as the last input of a run leaves in rax how many timer interrupts came
      before it. */
  lemma TicksAreCounted(cfg: Config, m: Machine, bootRoot: nat, inputs: seq<Input>, input: Input)
    requires BootOk(cfg, m, bootRoot) && 1 <= |cfg.image| <= 65536 && Build.Price(cfg) <= m.pages.free
    requires Run(cfg, Boot(cfg, m, bootRoot), inputs).panic == None && Calls(input, 2)
    ensures var k := Run(cfg, Boot(cfg, m, bootRoot), inputs);
            Step(cfg, k, input).tasks[k.current].frame.rax == TimerCount(inputs) % 0x1_0000_0000_0000_0000
  {
    hide Inv, Boot, Run, Step, MachineOk, Undoomed, StoppedByDoom, Build.Price, FirstEntry.NewProcess, Answers, Leaves, Transcript, TimerCount, Signed;
    Reachable(cfg, m, bootRoot, inputs);
    FirstEntry.BootEntry(cfg, m, bootRoot);
    RunClock(cfg, Boot(cfg, m, bootRoot), inputs);
    TicksCall(cfg, Run(cfg, Boot(cfg, m, bootRoot), inputs), input);
  }
}
