/** The host's replica through the records of kernel/laboratory.c: what each record, and each burst
    of records, does to the agreement between the host and the slots. */
module Replica {
  import opened Words
  import PageModel
  import opened PageTables
  import opened KernelModel
  import opened Build
  import opened TraceText
  import opened HostModel
  import opened Invariant

  /** Records that tell the host nothing about processes, mappings or memory. */
  predicate Neutral(r: Record) { !(r.ProcessRecord? || r.MapRecord? || r.MemoryRecord?) }

  /** A neutral record changes at most which process is marked as running. */
  lemma NeutralEffect(h: Host, r: Record)
    requires Neutral(r)
    ensures var h' := Apply(h, r);
            && h'.maps == h.maps && h'.frames == h.frames && h'.free == h.free
            && h'.processes.Keys == h.processes.Keys
            && (forall p :: p in h.processes ==> h'.processes[p] == h.processes[p].(running := h'.processes[p].running))
  {
    hide Fields, Last, Hex, Interesting, Kind;
  }

  lemma NeutralKeeps(cfg: Config, h: Host, r: Record, tasks: seq<Task>, p: PageModel.Pages)
    requires Neutral(r) && TablesAgree(cfg, h, tasks)
    ensures TablesAgree(cfg, Apply(h, r), tasks)
    ensures MemoryAgrees(h, p) ==> MemoryAgrees(Apply(h, r), p)
  {
    hide ExpectedMaps, Apply, Hex, ProgramName;
    var h' := Apply(h, r);
    NeutralEffect(h, r);
    forall i | 0 <= i < |tasks|
      ensures SlotAgrees(cfg, h', tasks[i])
    {
      assert SlotAgrees(cfg, h, tasks[i]);
    }
  }

  function RecordOf(k: Kernel, i: nat): Record
    requires Shaped(k) && i < TASK_LIMIT
  {
    var t := k.tasks[i];
    ProcessRecord(k.ticks, t.id, t.parent, t.program, t.state, t.space.root * 4096, t.slices, i == k.current && t.state == Ready)
  }

  predicate Announces(r: Record, t: Task) {
    r.ProcessRecord? && r.pid == t.id && r.parent == t.parent && r.program == t.program && r.state == t.state &&
    r.root == t.space.root * 4096
  }

  function ProcessOf(r: Record): Process
    requires r.ProcessRecord?
  {
    Process(r.parent, ProgramName(r.program), STATES[r.state.Number()], Hex(r.root), r.slices, r.running)
  }

  /** All a process record does to the tables. */
  lemma ProcessRecordEffect(h: Host, r: Record)
    requires r.ProcessRecord?
    ensures var h' := Apply(h, r);
            && h'.frames == h.frames && h'.free == h.free
            && (r.state != Unused ==> h'.processes == h.processes[r.pid := ProcessOf(r)] && h'.maps == h.maps && h'.data == h.data)
            && (r.state == Unused ==>
                  h'.processes == h.processes - {r.pid} && h'.maps == h.maps - {r.pid} && h'.data == h.data - {r.pid})
  {
    hide Fields, Last, Hex, ProgramName;
  }

  /** Telling the host the new state of a known process. */
  lemma ProcessTold(cfg: Config, h: Host, r: Record, tasks: seq<Task>, i: nat, t: Task)
    requires TablesAgree(cfg, h, tasks) && DistinctIds(tasks) && i < |tasks|
    requires tasks[i].state != Unused && t.state != Unused && t.id == tasks[i].id && Announces(r, t)
    requires t.state.Live() ==> tasks[i].state.Live() && t.pages == tasks[i].pages
    ensures TablesAgree(cfg, Apply(h, r), tasks[i := t])
    ensures Apply(h, r).frames == h.frames && Apply(h, r).free == h.free
  {
    hide ExpectedMaps, Apply, Hex, ProgramName;
    ProcessRecordEffect(h, r);
    var h' := Apply(h, r);
    var tasks' := tasks[i := t];
    assert SlotAgrees(cfg, h, tasks[i]);
    forall j | 0 <= j < |tasks'|
      ensures SlotAgrees(cfg, h', tasks'[j])
    {
      assert SlotAgrees(cfg, h, tasks[j]);
    }
    forall pid | pid in h'.processes
      ensures KnownPid(tasks', pid)
    {
      if pid == t.id {
        assert tasks'[i].state != Unused && tasks'[i].id == pid;
      } else {
        assert KnownPid(tasks, pid);
        var j :| 0 <= j < |tasks| && tasks[j].state != Unused && tasks[j].id == pid;
        assert tasks'[j].state != Unused && tasks'[j].id == pid;
      }
    }
  }

  /** Telling the host that a process is gone. */
  lemma ProcessForgotten(cfg: Config, h: Host, r: Record, tasks: seq<Task>, i: nat, t: Task)
    requires TablesAgree(cfg, h, tasks) && DistinctIds(tasks) && i < |tasks|
    requires tasks[i].state != Unused && t.state == Unused && t.id == tasks[i].id && Announces(r, t)
    ensures TablesAgree(cfg, Apply(h, r), tasks[i := t])
    ensures Apply(h, r).frames == h.frames && Apply(h, r).free == h.free
  {
    hide ExpectedMaps, Apply, Hex, ProgramName;
    ProcessRecordEffect(h, r);
    var h' := Apply(h, r);
    var tasks' := tasks[i := t];
    forall j | 0 <= j < |tasks'|
      ensures SlotAgrees(cfg, h', tasks'[j])
    {
      assert SlotAgrees(cfg, h, tasks[j]);
    }
    forall pid | pid in h'.processes
      ensures KnownPid(tasks', pid)
    {
      assert KnownPid(tasks, pid);
      var j :| 0 <= j < |tasks| && tasks[j].state != Unused && tasks[j].id == pid;
      assert tasks'[j].state != Unused && tasks'[j].id == pid;
    }
  }

  // ---- the mapping records of one process ----

  function MapRecordOf(cfg: Config, tick: nat, t: Task, i: nat): Record
    requires i < |t.pages|
  {
    var code := CodePages(cfg);
    MapRecord(tick, t.id, LayoutAddress(code, i), t.pages[i] * 4096, LayoutFlags(code, i), LayoutPart(code, i))
  }

  /** The mapping records of `t` from page `i` on. */
  function MapTrace(cfg: Config, tick: nat, t: Task, i: nat): seq<Record>
    decreases |t.pages| - i
  {
    if i >= |t.pages| then [] else [MapRecordOf(cfg, tick, t, i)] + MapTrace(cfg, tick, t, i + 1)
  }

  function DataRecordOf(k: Kernel, t: Task): Record {
    DataRecord(k.ticks, t.id, USER_DATA, t.dataPage * 4096, Word(k.m.mem, t.dataPage, 0))
  }

  /** mappings_event of a holder never finds a mapping gone: it emits its layout, then the data word. */
  lemma {:induction false} MapEventsFacts(cfg: Config, k: Kernel, t: Task, i: nat)
    requires ConfigOk(cfg) && Shaped(k) && MachineOk(k.m) && Held(cfg, k.m, t) && i <= |t.pages|
    ensures MapEvents(cfg, k, t, i) == k.(trace := k.trace + MapTrace(cfg, k.ticks, t, i) + [DataRecordOf(k, t)])
    decreases |t.pages| - i
  {
    hide Held, Recorded, Lookup, LayoutAddress, MachineOk;
    HeldShape(cfg, k.m, t);
    CodeBound(cfg);
    if i == |t.pages| {
      DataPageLive(k.m, t);
    } else {
      LayoutLookup(cfg, k.m, t, i);
      var r := MapRecordOf(cfg, k.ticks, t, i);
      MapEventsFacts(cfg, Emit(k, r), t, i + 1);
      TraceJoins(k.trace, r, MapTrace(cfg, k.ticks, t, i + 1), DataRecordOf(k, t));
    }
  }

  lemma TraceJoins(before: seq<Record>, r: Record, after: seq<Record>, last: Record)
    ensures before + [r] + after + [last] == before + ([r] + after) + [last]
  {
  }

  lemma HeldShape(cfg: Config, m: Machine, t: Task)
    requires Held(cfg, m, t)
    ensures |t.pages| == CodePages(cfg) + 3 && Recorded(m, t) && t.dataPage in Elements(t.pages)
  {
    hide Mapped;
  }

  lemma DataPageLive(m: Machine, t: Task)
    requires Recorded(m, t) && t.dataPage in Elements(t.pages)
    ensures PageModel.PageData(m.pages, t.dataPage * 4096)
  {
    assert t.dataPage in PageModel.LiveSet(m.pages);
    assert t.dataPage * 4096 / 4096 == t.dataPage;
  }

  lemma LayoutLookup(cfg: Config, m: Machine, t: Task, i: nat)
    requires ConfigOk(cfg) && Held(cfg, m, t) && i < |t.pages|
    ensures var x := Lookup(m.mem, t.space, LayoutAddress(CodePages(cfg), i));
            x.Some? && x.value.physical == t.pages[i] * 4096 && x.value.rights.Bits() == LayoutFlags(CodePages(cfg), i)
  {
    hide Mapped, Lookup;
    var code := CodePages(cfg);
    CodeBound(cfg);
    LayoutPages(code, i);
    HeldLookup(cfg, m, t, LayoutAddress(code, i));
    hide LayoutAddress;
    PageOfAddress(code, i);
    assert LayoutPage(code, i) == LayoutAddress(code, i) / 4096;
  }

  /** Layout addresses have different texts. */
  lemma AddressTexts(code: nat, i: nat, j: nat)
    requires 1 <= code <= 16 && i < code + 3 && j < code + 3 && i != j
    ensures Hex(LayoutAddress(code, i)) != Hex(LayoutAddress(code, j))
  {
    hide Hex, ParseHex;
    LayoutPages(code, i);
    LayoutPages(code, j);
    NumbersRoundTrip(LayoutAddress(code, i));
    NumbersRoundTrip(LayoutAddress(code, j));
    assert LayoutPage(code, i) != LayoutPage(code, j);
  }

  function EntryOf(code: nat, pages: seq<nat>, j: nat): MapEntry
    requires j < |pages|
  {
    MapEntry(Hex(pages[j] * 4096), LayoutFlags(code, j), PartName(LayoutPart(code, j)))
  }

  lemma {:induction false} ExpectedAt(code: nat, pages: seq<nat>, j: nat)
    requires 1 <= code <= 16 && |pages| <= code + 3 && j < |pages|
    ensures Hex(LayoutAddress(code, j)) in ExpectedMaps(code, pages)
    ensures ExpectedMaps(code, pages)[Hex(LayoutAddress(code, j))] == EntryOf(code, pages, j)
    decreases |pages|
  {
    hide Hex, LayoutAddress;
    var last := |pages| - 1;
    if j < last {
      ExpectedAt(code, pages[..last], j);
      AddressTexts(code, j, last);
    }
  }

  /** `h'` is `h` with the mappings of one process told; nothing else the replica promises moved. */
  predicate ToldMaps(h: Host, h': Host, pid: nat, maps: map<string, MapEntry>) {
    h'.processes == h.processes && h'.frames == h.frames && h'.free == h.free && h'.maps == h.maps[pid := maps]
  }

  /** The host has the first `i` mappings of a new process, or all of them already. */
  ghost predicate MapsSoFar(cfg: Config, h: Host, t: Task, i: nat)
    requires i <= |t.pages|
  {
    || (MapsOf(h, t.id) == ExpectedMaps(CodePages(cfg), t.pages[..i]) && (i > 0 ==> t.id in h.maps))
    || (t.id in h.maps && h.maps[t.id] == ExpectedMaps(CodePages(cfg), t.pages))
  }

  lemma MapRecordEffect(h: Host, r: Record)
    requires r.MapRecord?
    ensures var h' := Apply(h, r);
            && h'.processes == h.processes && h'.frames == h.frames && h'.free == h.free
            && h'.maps == h.maps[r.pid := MapsOf(h, r.pid)[Hex(r.va) := MapEntry(Hex(r.pa), r.flags, PartName(r.part))]]
  {
    hide Hex, Fields, Last, PartName;
  }

  lemma OneMapTold(cfg: Config, h: Host, tick: nat, t: Task, i: nat)
    requires ConfigOk(cfg) && |t.pages| == CodePages(cfg) + 3 && i < |t.pages| && MapsSoFar(cfg, h, t, i)
    ensures var h' := Apply(h, MapRecordOf(cfg, tick, t, i));
            && t.id in h'.maps && MapsSoFar(cfg, h', t, i + 1)
            && ToldMaps(h, h', t.id, h'.maps[t.id])
  {
    hide Hex, LayoutAddress, Apply, PartName;
    var code := CodePages(cfg);
    CodeBound(cfg);
    MapRecordEffect(h, MapRecordOf(cfg, tick, t, i));
    if t.id in h.maps && h.maps[t.id] == ExpectedMaps(code, t.pages) {
      ExpectedAt(code, t.pages, i);
    } else {
      assert t.pages[..i + 1][..i] == t.pages[..i];
    }
  }

  /** For a new process the records build its table; for a known one they repeat it. */
  lemma {:induction false} MapTraceTold(cfg: Config, trace: seq<Record>, tick: nat, t: Task, i: nat)
    requires ConfigOk(cfg) && |t.pages| == CodePages(cfg) + 3 && i <= |t.pages|
    requires MapsSoFar(cfg, Replay(trace), t, i)
    ensures ToldMaps(Replay(trace), Replay(trace + MapTrace(cfg, tick, t, i)), t.id, ExpectedMaps(CodePages(cfg), t.pages))
    decreases |t.pages| - i
  {
    hide Apply, Replay, ExpectedMaps, MapRecordOf;
    var h := Replay(trace);
    if i == |t.pages| {
      assert t.pages[..i] == t.pages;
      assert trace + MapTrace(cfg, tick, t, i) == trace;
    } else {
      var r := MapRecordOf(cfg, tick, t, i);
      ReplayEmit(trace, r);
      OneMapTold(cfg, h, tick, t, i);
      MapTraceTold(cfg, trace + [r], tick, t, i + 1);
      assert trace + [r] + MapTrace(cfg, tick, t, i + 1) == trace + MapTrace(cfg, tick, t, i);
    }
  }

  lemma {:induction false} MapTraceNameable(cfg: Config, tick: nat, t: Task, i: nat)
    ensures AllNameable(MapTrace(cfg, tick, t, i))
    decreases |t.pages| - i
  {
    if i < |t.pages| {
      MapTraceNameable(cfg, tick, t, i + 1);
    }
  }

  /** The records of a whole process: its state, its mappings and its data word. */
  lemma MappingsTold(cfg: Config, k: Kernel, t: Task)
    requires ConfigOk(cfg) && Shaped(k) && MachineOk(k.m) && Held(cfg, k.m, t) && AllNameable(k.trace)
    requires var h := Replay(k.trace);
             t.id !in h.maps || h.maps[t.id] == ExpectedMaps(CodePages(cfg), t.pages)
    ensures var k' := MappingsEvent(cfg, k, t);
            && k' == k.(trace := k'.trace) && AllNameable(k'.trace)
            && ToldMaps(Replay(k.trace), Replay(k'.trace), t.id, ExpectedMaps(CodePages(cfg), t.pages))
  {
    hide Held, MachineOk, Fields, Last, Hex, ExpectedMaps, Replay, MapTrace;
    HeldRoot(cfg, k.m, t);
    HeldPages(cfg, k.m, t);
    MapEventsFacts(cfg, k, t, 0);
    assert t.pages[..0] == [] && ExpectedMaps(CodePages(cfg), []) == map[] by { NoMaps(CodePages(cfg)); }
    MapTraceTold(cfg, k.trace, k.ticks, t, 0);
    MapTraceNameable(cfg, k.ticks, t, 0);
    var mid := k.trace + MapTrace(cfg, k.ticks, t, 0);
    ReplayEmit(mid, DataRecordOf(k, t));
  }

  lemma NoMaps(code: nat)
    ensures ExpectedMaps(code, []) == map[]
  {
  }

  lemma HeldPages(cfg: Config, m: Machine, t: Task)
    requires Held(cfg, m, t)
    ensures |t.pages| == CodePages(cfg) + 3
  {
  }
}
