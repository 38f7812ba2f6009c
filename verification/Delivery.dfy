/** Exit statuses over whole runs: a process leaves exactly by the delivery of its status, to its parent,
    and no status is delivered twice. */
module Delivery {
  import opened Words
  import opened KernelModel
  import opened Invariant
  import Lifecycle
  import opened Exiting
  import opened Safety
  import opened StepTheorems

  /** A pid that was given out and that no slot holds any more. */
  ghost predicate Gone(k: Kernel, pid: nat)
    requires Shaped(k)
  {
    pid < k.nextPid && forall i :: 0 <= i < TASK_LIMIT && k.tasks[i].state != Unused ==> k.tasks[i].id != pid
  }

  /** When a process disappears from its slot, its status has just been delivered: either its parent
      waited for that very pid and finds the zombie's status in rax, or it ended while its parent was
      waiting for it, and the parent is ready again with the exit argument, or 128 plus the vector, in rax
      and nothing else of its frame changed. Either way the pid is gone. */
  lemma StatusDelivered(cfg: Config, k: Kernel, input: Input, i: nat)
    requires Inv(cfg, k) && Doom(k, input) == None && i < TASK_LIMIT && k.tasks[i].state != Unused
    requires Step(cfg, k, input).tasks[i].state == Unused
    ensures var k' := Step(cfg, k, input);
            var c, me := k.tasks[i], k.current;
            && Gone(k', c.id)
            && if i != me then
                 && Calls(input, 10) && input.frame.rdi == c.id && c.parent == k.tasks[me].id && c.state == Exited
                 && k'.tasks[me].state == Ready && k'.tasks[me].frame.rax == c.status
               else
                 exists p :: 0 <= p < TASK_LIMIT && p != me && WaitsFor(k.tasks[p], c) && ExitStatus(input).Some? &&
                             k'.tasks[p] == k.tasks[p].(state := Ready, frame := k.tasks[p].frame.(rax := ExitStatus(input).value))
  {
    hide OwnOk, FamilyOk, Told, Step, WaiterOf, FindChild, Doom;
    var c := k.tasks[i];
    CurrentAfter(cfg, k, input);
    if i != k.current {
      OthersKept(cfg, k, input, i);
      TheChild(cfg, k, i);
    } else {
      var p := WaiterOf(k.tasks, c, 0);
      assert p < TASK_LIMIT && WaitsFor(k.tasks[p], c);
      OthersKept(cfg, k, input, p);
    }
    DepartedIsGone(cfg, k, input, i);
  }

  lemma TheChild(cfg: Config, k: Kernel, i: nat)
    requires Inv(cfg, k) && i < TASK_LIMIT && k.tasks[i].state != Unused && k.tasks[i].parent == k.tasks[k.current].id
    ensures FindChild(k.tasks, k.tasks[i].id, k.tasks[k.current].id, 0) == i
  {
    hide OwnOk, Told, HasParent, HasChild;
    Lifecycle.FindChildFacts(k.tasks, k.tasks[i].id, k.tasks[k.current].id, 0);
  }

  /** Pids never move between slots: whatever a slot holds after a step it held before, or it is new. */
  lemma SlotOrigin(cfg: Config, k: Kernel, input: Input, i: nat)
    requires Inv(cfg, k) && Doom(k, input) == None && i < TASK_LIMIT
    ensures var t, t' := k.tasks[i], Step(cfg, k, input).tasks[i];
            t'.state != Unused ==> (t.state != Unused && t'.id == t.id) || (t.state == Unused && t'.id == k.nextPid)
    ensures k.nextPid <= Step(cfg, k, input).nextPid
  {
    hide OwnOk, FamilyOk, Told, Step, WaiterOf, FindChild, Doom;
    if k.tasks[i].state == Unused {
      UnusedAfter(cfg, k, input, i);
    } else {
      PidsGrow(cfg, k, input);
      if i == k.current {
        CurrentAfter(cfg, k, input);
      } else {
        OthersKept(cfg, k, input, i);
      }
    }
  }

  lemma PidsGrow(cfg: Config, k: Kernel, input: Input)
    requires Inv(cfg, k) && Doom(k, input) == None
    ensures k.nextPid <= Step(cfg, k, input).nextPid
  {
    hide OwnOk, FamilyOk, Told, Exit, WaitChild, Service, Finish, ProgramStore, ReadyFrom, WaiterOf, FindChild;
    match input
    case UserStore(address, value) => StoreTasks(k, address, value);
    case Trap(f, cr2, serial) => TrapGrows(cfg, k, f, cr2, serial);
  }

  lemma DepartedIsGone(cfg: Config, k: Kernel, input: Input, i: nat)
    requires Inv(cfg, k) && Doom(k, input) == None && i < TASK_LIMIT && k.tasks[i].state != Unused
    requires Step(cfg, k, input).tasks[i].state == Unused
    ensures Gone(Step(cfg, k, input), k.tasks[i].id)
  {
    hide OwnOk, Told, Step, HasParent, HasChild, Doom;
    var k' := Step(cfg, k, input);
    forall j | 0 <= j < TASK_LIMIT && k'.tasks[j].state != Unused
      ensures k'.tasks[j].id != k.tasks[i].id
    {
      SlotOrigin(cfg, k, input, j);
      assert Citizen(k.tasks[i], k.nextPid);
    }
    SlotOrigin(cfg, k, input, i);
    assert Citizen(k.tasks[i], k.nextPid);
  }

  lemma GoneStays(cfg: Config, k: Kernel, input: Input, pid: nat)
    requires Inv(cfg, k) && Doom(k, input) == None && Gone(k, pid)
    ensures Gone(Step(cfg, k, input), pid)
  {
    hide OwnOk, FamilyOk, Told, Step, Doom;
    var k' := Step(cfg, k, input);
    forall j | 0 <= j < TASK_LIMIT && k'.tasks[j].state != Unused
      ensures k'.tasks[j].id != pid
    {
      SlotOrigin(cfg, k, input, j);
    }
    SlotOrigin(cfg, k, input, 0);
  }

  /** This input delivers the exit status of `pid`: the parent waits for it and finds the zombie, or the
      process ends while its parent waits for it. */
  ghost predicate Delivers(k: Kernel, input: Input, pid: nat)
    requires Shaped(k)
  {
    var me := k.tasks[k.current];
    || (Calls(input, 10) && input.frame.rdi == pid &&
        exists c :: 0 <= c < TASK_LIMIT && ChildOf(k.tasks[c], pid, me.id) && k.tasks[c].state == Exited)
    || (ExitStatus(input).Some? && me.id == pid && exists p :: 0 <= p < TASK_LIMIT && WaitsFor(k.tasks[p], me))
  }

  ghost predicate Present(k: Kernel, pid: nat)
    requires Shaped(k)
  {
    exists i :: 0 <= i < TASK_LIMIT && k.tasks[i].state != Unused && k.tasks[i].id == pid
  }

  /** A delivery takes the pid away. */
  lemma DeliveryEnds(cfg: Config, k: Kernel, input: Input, pid: nat)
    requires Inv(cfg, k) && Doom(k, input) == None && Delivers(k, input, pid)
    ensures Present(k, pid) && Gone(Step(cfg, k, input), pid)
  {
    hide OwnOk, FamilyOk, Told, Step, WaiterOf, FindChild, Doom;
    var me := k.tasks[k.current];
    if Calls(input, 10) {
      var c :| 0 <= c < TASK_LIMIT && ChildOf(k.tasks[c], pid, me.id) && k.tasks[c].state == Exited;
      OthersKept(cfg, k, input, c);
      DepartedIsGone(cfg, k, input, c);
    } else {
      var p :| 0 <= p < TASK_LIMIT && WaitsFor(k.tasks[p], me);
      assert WaiterOf(k.tasks, me, 0) <= p;
      CurrentAfter(cfg, k, input);
      DepartedIsGone(cfg, k, input, k.current);
    }
  }

  /** A process goes away exactly by the delivery of its status. */
  lemma DeliveryIsDeparture(cfg: Config, k: Kernel, input: Input, pid: nat)
    requires Inv(cfg, k) && Doom(k, input) == None
    ensures Delivers(k, input, pid) <==> Present(k, pid) && Gone(Step(cfg, k, input), pid)
  {
    hide OwnOk, FamilyOk, Told, Step, Doom;
    if Delivers(k, input, pid) {
      DeliveryEnds(cfg, k, input, pid);
    } else if Present(k, pid) {
      var i :| 0 <= i < TASK_LIMIT && k.tasks[i].state != Unused && k.tasks[i].id == pid;
      if Step(cfg, k, input).tasks[i].state == Unused {
        StatusDelivered(cfg, k, input, i);
      } else {
        SlotOrigin(cfg, k, input, i);
      }
    }
  }

  /** A pid that is gone stays gone in every later state of every run. */
  lemma {:induction false} GoneForever(cfg: Config, k: Kernel, inputs: seq<Input>, m: nat, n: nat, pid: nat)
    requires Inv(cfg, k) && m <= n <= |inputs| && Run(cfg, k, inputs[..n]).panic == None
    requires Gone(Run(cfg, k, inputs[..m]), pid)
    ensures Gone(Run(cfg, k, inputs[..n]), pid)
    decreases n
  {
    hide OwnOk, FamilyOk, Told, Step, Gone, Doom;
    if m < n {
      assert inputs[..n][..n - 1] == inputs[..n - 1];
      StillUp(cfg, k, inputs[..n]);
      GoneForever(cfg, k, inputs, m, n - 1, pid);
      GoneStays(cfg, Run(cfg, k, inputs[..n - 1]), inputs[n - 1], pid);
    }
  }

  lemma DeliveredGone(cfg: Config, k: Kernel, inputs: seq<Input>, m: nat, pid: nat)
    requires Inv(cfg, k) && m < |inputs| && Run(cfg, k, inputs[..m + 1]).panic == None
    requires Delivers(Run(cfg, k, inputs[..m]), inputs[m], pid)
    ensures Gone(Run(cfg, k, inputs[..m + 1]), pid)
  {
    hide OwnOk, FamilyOk, Told, Step, Gone, Doom, Delivers;
    assert inputs[..m + 1][..m] == inputs[..m];
    StillUp(cfg, k, inputs[..m + 1]);
    DeliveryEnds(cfg, Run(cfg, k, inputs[..m]), inputs[m], pid);
  }

  lemma {:induction false} UpBefore(cfg: Config, k: Kernel, inputs: seq<Input>, m: nat, n: nat)
    requires Inv(cfg, k) && m <= n <= |inputs| && Run(cfg, k, inputs[..n]).panic == None
    ensures Run(cfg, k, inputs[..m]).panic == None && Inv(cfg, Run(cfg, k, inputs[..m]))
    decreases n
  {
    hide OwnOk, FamilyOk, Told, Step, Doom;
    StillUp(cfg, k, inputs[..n]);
    if m < n {
      assert inputs[..n][..n - 1] == inputs[..n - 1];
      UpBefore(cfg, k, inputs, m, n - 1);
    }
  }

  lemma GoneUndelivered(cfg: Config, k: Kernel, input: Input, pid: nat)
    requires Inv(cfg, k) && Gone(k, pid)
    ensures !Delivers(k, input, pid)
    ensures Calls(input, 10) && input.frame.rdi == pid ==>
              var t' := Step(cfg, k, input).tasks[k.current];
              t'.state == Ready && t'.frame.rax == Unsigned(-3)
  {
    hide OwnOk, FamilyOk, Told, Step;
    if Calls(input, 10) && input.frame.rdi == pid {
      LaterWaits(cfg, k, input);
    }
  }

  /** Exit statuses are delivered at most once: when input `m` of a run delivers the status of a pid, no
      later input `n` delivers one for that pid, and a later wait that names it answers -3, whoever asks. */
  lemma DeliveredOnce(cfg: Config, k: Kernel, inputs: seq<Input>, m: nat, n: nat, pid: nat)
    requires Inv(cfg, k) && m < n < |inputs| && Run(cfg, k, inputs[..n]).panic == None
    requires Delivers(Run(cfg, k, inputs[..m]), inputs[m], pid)
    ensures var k' := Run(cfg, k, inputs[..n]);
            && !Delivers(k', inputs[n], pid)
            && (Calls(inputs[n], 10) && inputs[n].frame.rdi == pid ==>
                  var t' := Step(cfg, k', inputs[n]).tasks[k'.current];
                  t'.state == Ready && t'.frame.rax == Unsigned(-3))
  {
    hide OwnOk, FamilyOk, Told, Run, Step, Gone, Doom, Delivers;
    UpBefore(cfg, k, inputs, m + 1, n);
    UpBefore(cfg, k, inputs, n, n);
    DeliveredGone(cfg, k, inputs, m, pid);
    GoneForever(cfg, k, inputs, m + 1, n, pid);
    GoneUndelivered(cfg, Run(cfg, k, inputs[..n]), inputs[n], pid);
  }

  /** A wait on a pid that is gone, or that never was a child of the caller, answers -3. */
  lemma LaterWaits(cfg: Config, k: Kernel, input: Input)
    requires Inv(cfg, k) && Calls(input, 10)
    requires forall i :: 0 <= i < TASK_LIMIT ==> !ChildOf(k.tasks[i], input.frame.rdi, k.tasks[k.current].id)
    ensures var t' := Step(cfg, k, input).tasks[k.current];
            t'.state == Ready && t'.frame.rax == Unsigned(-3)
  {
    hide OwnOk, FamilyOk, Told, Step, WaiterOf;
    Lifecycle.FindChildFacts(k.tasks, input.frame.rdi, k.tasks[k.current].id, 0);
    CurrentAfter(cfg, k, input);
  }

  /** A zombie keeps its pid and status until its parent asks. */
  lemma ZombieKeeps(cfg: Config, k: Kernel, input: Input, i: nat)
    requires Inv(cfg, k) && Doom(k, input) == None && i < TASK_LIMIT && k.tasks[i].state == Exited
    ensures var t' := Step(cfg, k, input).tasks[i];
            t' == k.tasks[i] || (t'.state == Unused && Calls(input, 10) && input.frame.rdi == k.tasks[i].id &&
                                 k.tasks[k.current].id == k.tasks[i].parent)
  {
    hide OwnOk, FamilyOk, Told, Step, Doom;
    assert i != k.current;
    OthersKept(cfg, k, input, i);
  }
}
