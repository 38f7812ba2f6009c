/** Round robin: a task that stays ready is selected within eight scheduling decisions. */
module Fairness {
  import opened Words
  import PageModel
  import opened KernelModel
  import opened Invariant
  import opened QuietSteps
  import Spawning
  import Lifecycle
  import opened Exiting
  import Safety
  import opened StepTheorems

  /** The steps that call next_ready: a tick, the end of the running task, and a wait that blocks. */
  predicate Decides(k: Kernel, input: Input)
    requires Shaped(k)
  {
    || (input.Trap? && input.frame.vector == 32)
    || ExitStatus(input).Some?
    || (Calls(input, 10) && var c := FindChild(k.tasks, input.frame.rdi, k.tasks[k.current].id, 0);
                            c < TASK_LIMIT && k.tasks[c].state != Exited)
  }

  /** The slot `next` is the ready slot nearest after `current`. */
  ghost predicate Nearest(tasks: seq<Task>, current: nat, next: nat)
    requires |tasks| == TASK_LIMIT
  {
    && next < TASK_LIMIT && tasks[next].state == Ready
    && forall i :: 0 <= i < TASK_LIMIT && tasks[i].state == Ready ==> Turns(current, next) <= Turns(current, i)
  }

  lemma RescheduleNearest(k: Kernel)
    requires Shaped(k) && k.panic == None && Reschedule(k).panic == None
    ensures var k' := Reschedule(k); k'.tasks == k.tasks && Nearest(k.tasks, k.current, k'.current)
  {
    ReadyFromFacts(k.tasks, k.current, 1);
  }

  lemma ExitChooses(cfg: Config, k: Kernel, status: nat)
    requires Inv(cfg, k) && k.tasks[k.current].program > PROGRAM_SHELL
    ensures var k' := Exit(k, status); Nearest(k'.tasks, k.current, k'.current)
  {
    hide OwnOk, FamilyOk, Told, WakeFrom, Reschedule, Spawning.Known, WaiterOf, ReleasePages, PageModel.Gave;
    WakeUp(cfg, k, status);
    var dying := k.current;
    var t := k.tasks[dying].(status := status, state := Exited);
    var p := WaiterOf(k.tasks, t, 0);
    var w := WakeFrom(Emit(SetTask(k, dying, t), ExitRecord(k.ticks, t.id, status)), t, 0, false);
    TakeOver(cfg, w.k, k.tasks, dying, t, p);
    RescheduleNearest(w.k);
    var k2 := Reschedule(w.k);
    DyingHeld(cfg, k2, dying);
    Spawning.ReleaseFactsAll(k2.m, k2.tasks[dying], k2.root);
  }

  lemma WaitChooses(cfg: Config, k: Kernel, pid: nat)
    requires Inv(cfg, k)
    ensures var c := FindChild(k.tasks, pid, k.tasks[k.current].id, 0);
            var k' := WaitChild(k, pid);
            if c < TASK_LIMIT && k.tasks[c].state != Exited then Nearest(k'.tasks, k.current, k'.current)
            else k'.current == k.current
  {
    hide OwnOk, FamilyOk, Told, Reschedule, FindChild;
    var me := k.current;
    Lifecycle.FindChildFacts(k.tasks, pid, k.tasks[me].id, 0);
    var c := FindChild(k.tasks, pid, k.tasks[me].id, 0);
    if c < TASK_LIMIT && k.tasks[c].state != Exited {
      var k1 := Emit(k, WaitRecord(k.ticks, k.tasks[me].id, pid));
      NeutralEmitKeeps(cfg, k, WaitRecord(k.ticks, k.tasks[me].id, pid));
      Lifecycle.BlockKeeps(cfg, k1, c, pid);
      RescheduleNearest(ProcessEvent(SetTask(k1, me, k1.tasks[me].(state := Waiting, waitingFor := pid)), me));
    }
  }

  lemma TickChooses(cfg: Config, k: Kernel)
    requires Inv(cfg, k) && k.tasks[k.current].frame.cs % 4 == 3
    ensures var k' := Tick(k); Nearest(k'.tasks, k.current, k'.current)
  {
    hide OwnOk, FamilyOk, Told, ReadyFrom;
    var t := k.tasks[k.current];
    var tasks := k.tasks[k.current := t.(slices := (t.slices + 1) % 0x1_0000_0000)];
    ReadyFromFacts(tasks, k.current, 1);
    ReadyFound(tasks, k.current, k.current);
  }

  /** A step that decides selects the ready slot nearest after the one that was running; any other step
      leaves the running slot running. */
  lemma Selected(cfg: Config, k: Kernel, input: Input)
    requires Inv(cfg, k) && Safety.Doom(k, input) == None
    ensures var k' := Step(cfg, k, input);
            if Decides(k, input) then Nearest(k'.tasks, k.current, k'.current) else k'.current == k.current
  {
    hide OwnOk, FamilyOk, Told, Exit, WaitChild, Service, Finish, Tick, ProgramStore, FindChild, Nearest;
    match input
    case UserStore(address, value) => StoreStays(k, address, value);
    case Trap(f, cr2, serial) =>
      EnterKeeps(cfg, k, f);
      var k1 := Enter(k, f);
      SameChildren(k.tasks, k1.tasks, f.rdi, k.tasks[k.current].id, 0);
      if Faults(input) {
        var noted := NoteFault(k1, if f.vector == 14 then cr2 else 0);
        NoteFaultKeeps(cfg, k1, if f.vector == 14 then cr2 else 0);
        ExitChooses(cfg, noted, 128 + f.vector);
      } else if f.vector == 32 {
        TickChooses(cfg, k1);
      } else if f.rax == 4 {
        ExitChooses(cfg, k1, f.rdi);
      } else if f.rax == 10 {
        WaitChooses(cfg, k1, f.rdi);
      } else {
        Safety.ServiceKeeps(cfg, k1, f, serial);
        FinishStays(Service(cfg, k1, f, serial).k, f, Service(cfg, k1, f, serial).result);
      }
  }

  lemma FinishStays(k: Kernel, f: Frame, result: int)
    requires Shaped(k)
    ensures Finish(k, f, result).current == k.current
  {
  }

  lemma StoreStays(k: Kernel, address: nat, value: nat)
    requires Shaped(k)
    ensures ProgramStore(k, address, value).current == k.current
  {
  }

  /** How many scheduling decisions a run makes. */
  function Decisions(cfg: Config, k: Kernel, inputs: seq<Input>): nat
    requires Shaped(k) && |cfg.boot| == 512
    decreases |inputs|
  {
    if inputs == [] then 0
    else
      var before := inputs[..|inputs| - 1];
      Decisions(cfg, k, before) + if Decides(Run(cfg, k, before), inputs[|inputs| - 1]) then 1 else 0
  }

  /** Slot `i` is ready after every step of the run, and never the one selected. */
  ghost predicate PassedOver(cfg: Config, k: Kernel, inputs: seq<Input>, i: nat)
    requires Shaped(k) && |cfg.boot| == 512 && i < TASK_LIMIT
  {
    forall n :: 1 <= n <= |inputs| ==>
      var k' := Run(cfg, k, inputs[..n]); k'.panic == None && k'.tasks[i].state == Ready && k'.current != i
  }

  /** Bounded waiting: each decision that passes a ready slot over brings the running slot closer to it,
      whatever mixture of ticks, waits, exits, faults and spawns occurs. So at most seven decisions in a
      row can pass it over. */
  lemma {:induction false} BoundedWaiting(cfg: Config, k: Kernel, inputs: seq<Input>, i: nat)
    requires Inv(cfg, k) && i < TASK_LIMIT && PassedOver(cfg, k, inputs, i)
    ensures Decisions(cfg, k, inputs) + Turns(Run(cfg, k, inputs).current, i) <= Turns(k.current, i)
    ensures Decisions(cfg, k, inputs) <= 7
    decreases |inputs|
  {
    hide OwnOk, FamilyOk, Told, Step, Decides, Safety.Doom;
    if inputs != [] {
      var before, last := inputs[..|inputs| - 1], inputs[|inputs| - 1];
      forall n | 1 <= n <= |before|
        ensures inputs[..n] == before[..n]
      {
      }
      BoundedWaiting(cfg, k, before, i);
      assert inputs[..|inputs|] == inputs;
      Safety.StillUp(cfg, k, inputs);
      Selected(cfg, Run(cfg, k, before), last);
    }
  }
}
