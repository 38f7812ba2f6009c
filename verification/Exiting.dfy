/** task_exit and user_fault in kernel/laboratory.c: the waiting parent is woken with the status,
    another task takes over, and only then are the pages of the dying task given back. */
module Exiting {
  import opened Words
  import PageModel
  import PageTables
  import opened RamFs
  import opened KernelModel
  import opened Build
  import opened HostModel
  import opened Invariant
  import opened Replica
  import QuietSteps
  import Spawning
  import opened Lifecycle

  function Awoken(p: Task, status: nat): Task { p.(frame := p.frame.(rax := status), state := Ready) }

  lemma {:induction false} WakeNone(k: Kernel, child: Task, i: nat, reaped: bool)
    requires Shaped(k) && i <= TASK_LIMIT
    requires forall j :: i <= j < TASK_LIMIT ==> !WaitsFor(k.tasks[j], child)
    ensures WakeFrom(k, child, i, reaped) == Waking(k, reaped)
    decreases TASK_LIMIT - i
  {
    if i < TASK_LIMIT {
      WakeNone(k, child, i + 1, reaped);
    }
  }

  lemma {:induction false} WakeOne(k: Kernel, child: Task, i: nat, p: nat)
    requires Shaped(k) && i <= p < TASK_LIMIT && WaitsFor(k.tasks[p], child)
    requires forall j :: i <= j < TASK_LIMIT && j != p ==> !WaitsFor(k.tasks[j], child)
    ensures WakeFrom(k, child, i, false) == Waking(ProcessEvent(SetTask(k, p, Awoken(k.tasks[p], child.status)), p), true)
    decreases TASK_LIMIT - i
  {
    if i < p {
      WakeOne(k, child, i + 1, p);
    } else {
      WakeNone(ProcessEvent(SetTask(k, p, Awoken(k.tasks[p], child.status)), p), child, i + 1, true);
    }
  }

  /** The slot of the parent waiting for this child, or 8. */
  function WaiterOf(tasks: seq<Task>, child: Task, i: nat): (p: nat)
    requires i <= |tasks|
    ensures i <= p <= |tasks| && (p < |tasks| ==> WaitsFor(tasks[p], child))
    ensures forall j :: i <= j < p ==> !WaitsFor(tasks[j], child)
    decreases |tasks| - i
  {
    if i == |tasks| || WaitsFor(tasks[i], child) then i else WaiterOf(tasks, child, i + 1)
  }

  /** Pids are unique, so at most one task can be waiting for a child. */
  lemma OneWaiter(tasks: seq<Task>, nextPid: nat, child: Task, p: nat)
    requires FamilyOk(tasks, nextPid) && p == WaiterOf(tasks, child, 0)
    ensures forall j :: 0 <= j < |tasks| && j != p ==> !WaitsFor(tasks[j], child)
  {
    hide SlotsOk, HasParent, HasChild, Citizen, WaiterOf;
  }

  /** The slots once the waiter, if any, is awake. */
  function Roused(tasks: seq<Task>, p: nat, status: nat): (r: seq<Task>)
    ensures |r| == |tasks|
  {
    if p < |tasks| then tasks[p := Awoken(tasks[p], status)] else tasks
  }

  /** Waking the waiter and ending the child together keep the family in order. */
  lemma ExitFamily(tasks: seq<Task>, nextPid: nat, dying: nat, t: Task, p: nat)
    requires FamilyOk(tasks, nextPid) && dying < |tasks| && tasks[dying].state == Ready && tasks[dying].program > PROGRAM_SHELL
    requires t == tasks[dying].(state := Exited, status := t.status) && p == WaiterOf(tasks, t, 0)
    ensures FamilyOk(Roused(tasks, p, t.status)[dying := t], nextPid)
  {
    hide SlotsOk, HasParent, WaiterOf;
    var tasks' := Roused(tasks, p, t.status)[dying := t];
    OneWaiter(tasks, nextPid, t, p);
    KeepParents(tasks, tasks');
    forall j | 0 <= j < |tasks'| && tasks'[j].state == Waiting
      ensures HasChild(tasks', tasks'[j])
    {
      assert HasChild(tasks, tasks[j]);
      var c :| 0 <= c < |tasks| && Awaited(tasks[j], tasks[c]);
      assert c != dying by { assert !WaitsFor(tasks[j], t); }
      assert Awaited(tasks'[j], tasks'[c]);
    }
    assert Citizen(tasks[dying], nextPid);
  }

  /** After the dying task's pages went back, the remaining tasks own everything that is live. */
  lemma OwnBuried(cfg: Config, m: PageTables.Machine, m': PageTables.Machine, tasks: seq<Task>, dying: nat, t: Task)
    requires OwnOk(cfg, m, tasks, dying) && |tasks| == 8 && dying < 8 && !tasks[dying].state.Live()
    requires m'.mem == m.mem && PageTables.MachineOk(m') && PageModel.Gave(m.pages, m'.pages, Owned(tasks[dying]))
    requires Bare(t) && !t.state.Live()
    ensures OwnOk(cfg, m', tasks[dying := t], NOBODY)
  {
    hide Mapped, PageModel.Valid;
    var tasks' := tasks[dying := t];
    assert Owned(t) == {};
    forall j | 0 <= j < |tasks| && j != dying
      ensures if Holder(tasks'[j], j, NOBODY) then Held(cfg, m', tasks'[j]) else Bare(tasks'[j])
    {
      assert Owned(tasks[j]) !! Owned(tasks[dying]);
      assert Holder(tasks[j], j, dying) == Holder(tasks'[j], j, NOBODY);
    }
    forall f | f in PageModel.LiveSet(m'.pages)
      ensures exists j :: 0 <= j < |tasks'| && f in Owned(tasks'[j])
    {
      var j :| 0 <= j < |tasks| && f in Owned(tasks[j]);
      assert f in Owned(tasks'[j]);
    }
  }

  /** The middle of task_exit: status stored, waiter awake, pages still held by the dying task, which
      the host still believes to be running. */
  ghost predicate Passing(cfg: Config, k: Kernel, before: seq<Task>, dying: nat, t: Task, p: nat) {
    && ConfigOk(cfg) && Shaped(k) && k.panic == None && |before| == TASK_LIMIT && dying < TASK_LIMIT
    && FamilyOk(before, k.nextPid) && before[dying].state == Ready && before[dying].program > PROGRAM_SHELL
    && t == before[dying].(state := Exited, status := t.status) && p == WaiterOf(before, t, 0)
    && k.tasks == Roused(before, p, t.status)[dying := t]
    && OwnOk(cfg, k.m, k.tasks, dying)
    && Spawning.Known(cfg, k.trace, Roused(before, p, t.status))
  }

  lemma WakeUp(cfg: Config, k: Kernel, status: nat)
    requires Inv(cfg, k) && k.tasks[k.current].program > PROGRAM_SHELL
    ensures var dying := k.current;
            var t := k.tasks[dying].(status := status, state := Exited);
            var p := WaiterOf(k.tasks, t, 0);
            var k1 := Emit(SetTask(k, dying, t), ExitRecord(k.ticks, t.id, status));
            var w := WakeFrom(k1, t, 0, false);
            && w.reaped == (p < TASK_LIMIT) && p != dying
            && w.k == k.(tasks := w.k.tasks, trace := w.k.trace)
            && Passing(cfg, w.k, k.tasks, dying, t, p)
  {
    hide OwnOk, FamilyOk, TablesAgree, Replay, Apply, SlotsOk, WaiterOf, WakeFrom;
    var dying := k.current;
    var t := k.tasks[dying].(status := status, state := Exited);
    var p := WaiterOf(k.tasks, t, 0);
    var exit := ExitRecord(k.ticks, t.id, status);
    var k1 := Emit(SetTask(k, dying, t), exit);
    OneWaiter(k.tasks, k.nextPid, t, p);
    ReplayEmit(k.trace, exit);
    NeutralKeeps(cfg, Replay(k.trace), exit, k.tasks, k.m.pages);
    QuietSteps.InvFamily(cfg, k);
    var tasks2 := Roused(k.tasks, p, status)[dying := t];
    OwnFrame(cfg, k.m, k.m, k.tasks, tasks2, NOBODY, dying);
    if p < TASK_LIMIT {
      WakeOne(k1, t, 0, p);
      var k2 := SetTask(k1, p, Awoken(k1.tasks[p], status));
      var r := RecordOf(k2, p);
      ReplayEmit(k1.trace, r);
      FamilyDistinct(k.tasks, k.nextPid);
      FamilyPrograms(k.tasks, k.nextPid, p);
      ProcessTold(cfg, Replay(k1.trace), r, k.tasks, p, Awoken(k.tasks[p], status));
      assert k2.tasks == tasks2;
    } else {
      WakeNone(k1, t, 0, false);
    }
  }

  /** Somebody takes over: the parent of the dying task is live, so some task is ready. */
  lemma TakeOver(cfg: Config, k: Kernel, before: seq<Task>, dying: nat, t: Task, p: nat)
    requires Passing(cfg, k, before, dying, t, p)
    ensures var k' := Reschedule(k);
            && k' == k.(current := k'.current, root := k'.root) && CurrentOk(k') && k'.current != dying
            && FamilyOk(k.tasks, k.nextPid) && k'.root != k.tasks[dying].space.root
  {
    hide FamilyOk, OwnOk, TablesAgree, Replay, WaiterOf, ReadyFrom, Spawning.Known;
    ExitFamily(before, k.nextPid, dying, t, p);
    var live := LiveParent(before, k.nextPid, dying);
    assert k.tasks[live].state.Live();
    var r := SomeReady(k.tasks, k.nextPid, live);
    QuietSteps.ReadyFound(k.tasks, k.current, r);
    var next := NextReady(k).value;
    RootsDiffer(cfg, k.m, k.tasks, dying, next, dying);
  }

  lemma LiveParent(tasks: seq<Task>, nextPid: nat, i: nat) returns (p: nat)
    requires FamilyOk(tasks, nextPid) && i < |tasks| && tasks[i].state != Unused && tasks[i].program > PROGRAM_SHELL
    ensures p < |tasks| && tasks[p].state.Live() && p != i && tasks[p].program <= PROGRAM_SHELL && tasks[p].id == tasks[i].parent
  {
    assert HasParent(tasks, tasks[i]);
    p :| 0 <= p < |tasks| && Parents(tasks[p], tasks[i]);
  }

  lemma BuryKeeps(cfg: Config, k: Kernel, before: seq<Task>, dying: nat, t: Task, p: nat)
    requires Passing(cfg, k, before, dying, t, p) && FamilyOk(k.tasks, k.nextPid) && CurrentOk(k)
    requires k.current != dying && k.root != k.tasks[dying].space.root && p != dying
    ensures Inv(cfg, Bury(k, dying, p < TASK_LIMIT))
  {
    hide FamilyOk, TablesAgree, Replay, Apply, WaiterOf, ReleasePages, Mapped, Apart, AllOwned, PageTables.MachineOk, PageModel.Gave, SlotsOk, Roused;
    var host := Roused(before, p, t.status);
    DyingHeld(cfg, k, dying);
    Spawning.ReleaseFactsAll(k.m, k.tasks[dying], k.root);
    var r := ReleasePages(k.m, k.tasks[dying], k.root);
    var t1 := if p < TASK_LIMIT then r.task.(state := Unused) else r.task;
    OwnBuried(cfg, k.m, r.m, k.tasks, dying, t1);
    var k1 := SetTask(k.(m := r.m), dying, t1);
    BuriedFamily(k.tasks, k.nextPid, dying, t1);
    BuriedTold(cfg, k1, host, dying, before, p, t);
  }

  lemma DyingHeld(cfg: Config, k: Kernel, dying: nat)
    requires OwnOk(cfg, k.m, k.tasks, dying) && Shaped(k) && dying < TASK_LIMIT
    ensures Recorded(k.m, k.tasks[dying]) && PageTables.MachineOk(k.m)
  {
    hide Mapped, Recorded;
    assert Holder(k.tasks[dying], dying, dying);
  }

  lemma BuriedFamily(tasks: seq<Task>, nextPid: nat, dying: nat, t: Task)
    requires FamilyOk(tasks, nextPid) && dying < |tasks| && tasks[dying].state == Exited
    requires t == tasks[dying].(space := PageTables.NO_SPACE, pages := [], state := t.state) && t.state in {Unused, Exited}
    ensures FamilyOk(tasks[dying := t], nextPid)
  {
    hide HasParent, HasChild;
    assert SlotsOk(RAM_FILES, tasks[dying].files);
    hide SlotsOk;
    if t.state == Unused {
      FamilyReap(tasks, nextPid, dying, t);
    } else {
      FamilyFrame(tasks, tasks[dying := t], nextPid, nextPid);
    }
  }

  /** The last two records of task_exit: the end of the process and the pages that came back. */
  lemma BuriedTold(cfg: Config, k: Kernel, host: seq<Task>, dying: nat, before: seq<Task>, p: nat, t: Task)
    requires Shaped(k) && dying < TASK_LIMIT && |before| == TASK_LIMIT && host == Roused(before, p, t.status) && p != dying
    requires FamilyOk(before, k.nextPid) && before[dying].state == Ready && p == WaiterOf(before, t, 0)
    requires Spawning.Known(cfg, k.trace, host) && k.tasks == host[dying := k.tasks[dying]]
    requires k.tasks[dying].state in {Unused, Exited} && k.tasks[dying].id == before[dying].id &&
             k.tasks[dying].program == before[dying].program
    ensures var k' := MemoryEvent(ProcessEvent(k, dying));
            k' == k.(trace := k'.trace) && Told(cfg, k'.trace, k.tasks, k.m.pages)
  {
    hide TablesAgree, Replay, Apply, WaiterOf, FamilyOk;
    var r := RecordOf(k, dying);
    var k1 := ProcessEvent(k, dying);
    assert k1 == Emit(k, r);
    ReplayEmit(k.trace, r);
    FamilyDistinct(before, k.nextPid);
    FamilyPrograms(before, k.nextPid, dying);
    assert DistinctIds(host);
    if k.tasks[dying].state == Unused {
      ProcessForgotten(cfg, Replay(k.trace), r, host, dying, k.tasks[dying]);
    } else {
      ProcessTold(cfg, Replay(k.trace), r, host, dying, k.tasks[dying]);
    }
    Spawning.MemoryTold(cfg, k1.trace, k.tasks, k1.ticks, k.m.pages);
  }

  /** task_exit of an ordinary program keeps the invariant; of init or shell it is the documented panic. */
  lemma ExitKeeps(cfg: Config, k: Kernel, status: nat)
    requires Inv(cfg, k)
    ensures if k.tasks[k.current].program <= PROGRAM_SHELL then Exit(k, status) == Fail(k, InitOrShellExited)
            else Inv(cfg, Exit(k, status))
  {
    hide OwnOk, FamilyOk, Told, WakeFrom, Reschedule, Bury, Spawning.Known, WaiterOf;
    if k.tasks[k.current].program > PROGRAM_SHELL {
      WakeUp(cfg, k, status);
      var dying := k.current;
      var t := k.tasks[dying].(status := status, state := Exited);
      var p := WaiterOf(k.tasks, t, 0);
      var w := WakeFrom(Emit(SetTask(k, dying, t), ExitRecord(k.ticks, t.id, status)), t, 0, false);
      TakeOver(cfg, w.k, k.tasks, dying, t, p);
      BuryKeeps(cfg, Reschedule(w.k), k.tasks, dying, t, p);
    }
  }
}
