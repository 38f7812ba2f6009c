/** The host's replica of the guest: Guest._event of tools/lab_guest.py, on record text and on the
    records the text stands for. */
module HostModel {
  import opened Words
  import opened TraceText
  import opened KernelModel

  const WINDOW: nat := 2000
  const PROGRAMS := ["init", "shell", "hello", "reader", "counter-a", "counter-b", "fault"]
  const STATES := ["unused", "ready", "waiting", "exited"]

  /** One retained event. */
  datatype Event = Event(id: nat, kind: string, tick: nat, fields: seq<string>)
  datatype Process = Process(parent: nat, program: string, state: string, root: string, slices: nat, running: bool)
  datatype MapEntry = MapEntry(pa: string, flags: nat, name: string)
  datatype DataEntry = DataEntry(va: string, pa: string, marker: string)

  /** The fields of Guest that records change. */
  datatype Host = Host(processes: map<nat, Process>, maps: map<nat, map<string, MapEntry>>, data: map<nat, DataEntry>,
                       frames: nat, free: nat, ticks: nat, sequence: nat, events: seq<Event>)

  const NEW_HOST := Host(map[], map[], map[], 0, 0, 0, 0, [])

  /** list[-2000:] */
  function Last(events: seq<Event>): seq<Event> {
    if |events| > WINDOW then events[|events| - WINDOW..] else events
  }

  // ---- the text of a record ----

  function Kind(r: Record): string {
    match r
    case BootRecord(_) => "boot"
    case SpawnRecord(_, _, _, _) => "spawn"
    case ProcessRecord(_, _, _, _, _, _, _, _) => "process"
    case MapRecord(_, _, _, _, _, _) => "map"
    case DataRecord(_, _, _, _, _) => "data"
    case MemoryRecord(_, _, _) => "memory"
    case ScheduleRecord(_, _, _, _, _) => "schedule"
    case SyscallRecord(_, _, _, _, _, _, _) => "syscall"
    case WaitRecord(_, _, _) => "wait"
    case ExitRecord(_, _, _) => "exit"
    case FaultRecord(_, _, _, _, _, _, _) => "fault"
    case SnapshotRecord(_) => "snapshot"
    case SnapshotEndRecord(_) => "snapshot-end"
  }

  function PartName(p: Part): string { match p case Code => "code" case Data => "data" case Stack => "stack" }

  function SignedText(n: int): string { if n < 0 then "-" + Decimal(-n) else Decimal(n) }

  function Fields(r: Record): seq<string> {
    match r
    case BootRecord(_) => ["LAB", "x86_64", "100", "8"]
    case SpawnRecord(_, pid, parent, program) => [Decimal(pid), Decimal(parent), Decimal(program)]
    case ProcessRecord(_, pid, parent, program, state, root, slices, running) =>
      [Decimal(pid), Decimal(parent), Decimal(program), Decimal(state.Number()), Hex(root), Decimal(slices),
       Decimal(if running then 1 else 0)]
    case MapRecord(_, pid, va, pa, flags, part) => [Decimal(pid), Hex(va), Hex(pa), Decimal(flags), PartName(part)]
    case DataRecord(_, pid, va, pa, marker) => [Decimal(pid), Hex(va), Hex(pa), Hex(marker)]
    case MemoryRecord(_, frames, free) => [Decimal(frames), Decimal(free)]
    case ScheduleRecord(_, from, to, root, cpl) => [Decimal(from), Decimal(to), Hex(root), Decimal(cpl)]
    case SyscallRecord(_, pid, number, a, b, c, result) =>
      [Decimal(pid), Decimal(number), Hex(a), Hex(b), Hex(c), SignedText(result), Decimal(3)]
    case WaitRecord(_, pid, child) => [Decimal(pid), Decimal(child)]
    case ExitRecord(_, pid, status) => [Decimal(pid), Decimal(status)]
    case FaultRecord(_, pid, vector, error, address, rip, cpl) =>
      [Decimal(pid), Decimal(vector), Decimal(error), Hex(address), Hex(rip), Decimal(cpl)]
    case SnapshotRecord(_) => []
    case SnapshotEndRecord(_) => []
  }

  /** The line the kernel writes for a record, without its newline. */
  function Line(r: Record): string { Join(["ML", Kind(r), Decimal(r.tick)] + Fields(r)) }

  // ---- the fold over records ----

  predicate Interesting(h: Host, r: Record) {
    match r
    case MemoryRecord(_, _, free) => free != h.free
    case DataRecord(_, pid, _, pa, marker) =>
      pid !in h.data || h.data[pid].pa != Hex(pa) || h.data[pid].marker != Hex(marker)
    case _ => Kind(r) in INTERESTING
  }

  /** Clock, sequence number and retained window. */
  function Note(h: Host, kind: string, tick: nat, fields: seq<string>, interesting: bool): Host {
    h.(ticks := if h.ticks < tick then tick else h.ticks,
       sequence := h.sequence + 1,
       events := if interesting then Last(h.events + [Event(h.sequence + 1, kind, tick, fields)]) else h.events)
  }

  function SetRunning(h: Host, pid: nat): Host {
    h.(processes := map p | p in h.processes :: h.processes[p].(running := p == pid))
  }

  function Forget(h: Host, pid: nat): Host {
    h.(processes := h.processes - {pid}, maps := h.maps - {pid}, data := h.data - {pid})
  }

  function MapsOf(h: Host, pid: nat): map<string, MapEntry> { if pid in h.maps then h.maps[pid] else map[] }

  function ProgramName(program: nat): string { if program < 7 then PROGRAMS[program] else "" }

  /** What a record does to the tables. */
  function Change(h: Host, r: Record): Host {
    match r
    case ProcessRecord(_, pid, parent, program, state, root, slices, running) =>
      if state == Unused then Forget(h, pid)
      else h.(processes := h.processes[pid := Process(parent, ProgramName(program), STATES[state.Number()], Hex(root), slices, running)])
    case MapRecord(_, pid, va, pa, flags, part) =>
      h.(maps := h.maps[pid := MapsOf(h, pid)[Hex(va) := MapEntry(Hex(pa), flags, PartName(part))]])
    case DataRecord(_, pid, va, pa, marker) => h.(data := h.data[pid := DataEntry(Hex(va), Hex(pa), Hex(marker))])
    case MemoryRecord(_, frames, free) => h.(frames := frames, free := free)
    case ScheduleRecord(_, _, to, _, _) => SetRunning(h, to)
    case SyscallRecord(_, pid, _, _, _, _, _) => SetRunning(h, pid)
    case _ => h
  }

  function Noted(h: Host, r: Record): Host { Note(h, Kind(r), r.tick, Fields(r), Interesting(h, r)) }

  function Apply(h: Host, r: Record): Host { Change(Noted(h, r), r) }

  function Replay(trace: seq<Record>): Host {
    if trace == [] then NEW_HOST else Apply(Replay(trace[..|trace| - 1]), trace[|trace| - 1])
  }

  // ---- the fold over text ----

  function Number(fields: seq<string>, i: nat): Option<nat> {
    if i < |fields| then ParseDecimal(fields[i]) else None
  }

  // Each of these is the table part of _event for one kind of record; None is an exception, which comes
  // before any table has changed.

  function ProcessLine(h: Host, fields: seq<string>): Option<Host> {
    if |fields| < 4 then None
    else match (ParseDecimal(fields[0]), ParseDecimal(fields[1]), ParseDecimal(fields[2]), ParseDecimal(fields[3]))
      case (Some(pid), Some(parent), Some(program), Some(state)) =>
        if state == 0 then Some(Forget(h, pid))
        else if program >= 7 || state >= 4 || |fields| < 7 then None
        else (match ParseDecimal(fields[5])
          case None => None
          case Some(slices) =>
            Some(h.(processes := h.processes[pid := Process(parent, PROGRAMS[program], STATES[state], fields[4], slices, fields[6] == "1")])))
      case _ => None
  }

  function MapLine(h: Host, fields: seq<string>): Option<Host> {
    match (Number(fields, 0), Number(fields, 3))
    case (Some(pid), Some(flags)) =>
      if |fields| < 5 then None
      else Some(h.(maps := h.maps[pid := MapsOf(h, pid)[fields[1] := MapEntry(fields[2], flags, fields[4])]]))
    case _ => None
  }

  function DataLine(h: Host, fields: seq<string>): Option<Host> {
    match Number(fields, 0)
    case None => None
    case Some(pid) =>
      if |fields| < 4 then None else Some(h.(data := h.data[pid := DataEntry(fields[1], fields[2], fields[3])]))
  }

  function MemoryLine(h: Host, fields: seq<string>): Option<Host> {
    match (Number(fields, 0), Number(fields, 1))
    case (Some(frames), Some(free)) => Some(h.(frames := frames, free := free))
    case _ => None
  }

  /** The loop over the processes, which looks at the field only when there is a process. */
  function RunningLine(h: Host, fields: seq<string>, i: nat): Option<Host> {
    if h.processes == map[] then Some(h)
    else match Number(fields, i) case None => None case Some(pid) => Some(SetRunning(h, pid))
  }

  const INTERESTING := ["boot", "spawn", "schedule", "syscall", "wait", "exit", "fault"]

  /** Whether a data record says something new: fields are read only as far as the comparison gets. */
  function DataNews(h: Host, fields: seq<string>): Option<bool> {
    match Number(fields, 0)
    case None => None
    case Some(pid) =>
      if pid !in h.data then Some(true)
      else if |fields| < 3 then None
      else if h.data[pid].pa != fields[2] then Some(true)
      else if |fields| < 4 then None
      else Some(h.data[pid].marker != fields[3])
  }

  /** Whether a record is kept as an event; None is an exception. */
  function News(h: Host, kind: string, fields: seq<string>): Option<bool> {
    if kind == "memory" then match Number(fields, 1) case None => None case Some(free) => Some(free != h.free)
    else if kind == "data" then DataNews(h, fields)
    else Some(kind in INTERESTING)
  }

  function TableLine(h: Host, kind: string, fields: seq<string>): Option<Host> {
    if kind == "process" then ProcessLine(h, fields)
    else if kind == "map" then MapLine(h, fields)
    else if kind == "data" then DataLine(h, fields)
    else if kind == "memory" then MemoryLine(h, fields)
    else if kind == "schedule" then RunningLine(h, fields, 1)
    else if kind == "syscall" then RunningLine(h, fields, 0)
    else Some(h)
  }

  /** What a line leaves behind, also when it raises an exception half way. */
  datatype Handled = Handled(host: Host, raised: bool)

  function EventParts(h: Host, kind: string, tick: nat, fields: seq<string>): Handled {
    match News(h, kind, fields)
    case None => Handled(Note(h, kind, tick, fields, false), true)
    case Some(news) =>
      var h1 := Note(h, kind, tick, fields, news);
      match TableLine(h1, kind, fields)
      case None => Handled(h1, true)
      case Some(h2) => Handled(h2, false)
  }

  /** Guest._event on one line. */
  function EventLine(h: Host, line: string): Handled {
    var parts := Split(Rstrip(line));
    if |parts| < 3 || parts[0] != "ML" then Handled(h, false)
    else match ParseDecimal(parts[2])
      case None => Handled(h, true)
      case Some(tick) => EventParts(h, parts[1], tick, parts[3..])
  }

  /** Field `i` is there and is a nonempty digit string. */
  predicate Digits(fields: seq<string>, i: nat) {
    i < |fields| && fields[i] != "" && forall j :: 0 <= j < |fields[i]| ==> '0' <= fields[i][j] <= '9'
  }

  predicate Below(fields: seq<string>, i: nat, bound: nat) {
    match Number(fields, i) case None => false case Some(n) => n < bound
  }

  lemma DigitsParse(fields: seq<string>, i: nat)
    ensures Digits(fields, i) <==> Number(fields, i).Some?
  {
    if i < |fields| {
      ParsesDigits(fields[i]);
    }
  }

  /** Which records raise once they have been counted: those whose numbers are missing or no digit strings,
      or name no program or state, or that are too short; and a process that is gone needs only four fields. */
  lemma TablesRaise(h: Host, kind: string, f: seq<string>)
    ensures TableLine(h, kind, f) == None <==>
            || (kind == "process" &&
                (!(Digits(f, 0) && Digits(f, 1) && Digits(f, 2) && Digits(f, 3)) ||
                 (Number(f, 3) != Some(0) &&
                  (!Below(f, 2, 7) || !Below(f, 3, 4) || |f| < 7 || !Digits(f, 5)))))
            || (kind == "map" && !(Digits(f, 0) && Digits(f, 3) && |f| >= 5))
            || (kind == "data" && !(Digits(f, 0) && |f| >= 4))
            || (kind == "memory" && !(Digits(f, 0) && Digits(f, 1)))
            || (kind == "schedule" && h.processes != map[] && !Digits(f, 1))
            || (kind == "syscall" && h.processes != map[] && !Digits(f, 0))
  {
    hide ParseDecimal, Digits, Forget;
    DigitsParse(f, 0); DigitsParse(f, 1); DigitsParse(f, 2); DigitsParse(f, 3); DigitsParse(f, 5);
  }

  /** A line that raises leaves every table as it was; at most it has been counted and kept. A line that is not
      an observation leaves everything. */
  lemma RaisedKeepsTables(h: Host, line: string)
    ensures var r := EventLine(h, line);
            var parts := Split(Rstrip(line));
            && (r.raised ==>
                  && r.host.processes == h.processes && r.host.maps == h.maps && r.host.data == h.data
                  && r.host.frames == h.frames && r.host.free == h.free && r.host.sequence in {h.sequence, h.sequence + 1})
            && (|parts| < 3 || parts[0] != "ML" ==> r == Handled(h, false))
            && (!r.raised && |parts| >= 3 && parts[0] == "ML" ==> r.host.sequence == h.sequence + 1)
  {
    hide Split, Rstrip, ParseDecimal, News, Last;
    var parts := Split(Rstrip(line));
    if |parts| >= 3 && parts[0] == "ML" && ParseDecimal(parts[2]).Some? {
      var tick := ParseDecimal(parts[2]).value;
      TableLineCounts(Note(h, parts[1], tick, parts[3..], News(h, parts[1], parts[3..]) == Some(true)), parts[1], parts[3..]);
    }
  }

  lemma TableLineCounts(h: Host, kind: string, fields: seq<string>)
    ensures TableLine(h, kind, fields).Some? ==> TableLine(h, kind, fields).value.sequence == h.sequence
  {
    hide ParseDecimal;
  }

  lemma PlainNumbers(n: nat)
    ensures Plain(Decimal(n)) && Plain(Hex(n)) && ParseDecimal(Decimal(n)) == Some(n)
  {
    DecimalFacts(n);
    PlainHex(n, 16);
  }

  lemma {:induction false} PlainHex(n: nat, count: nat)
    ensures Plain(HexDigits(n, count))
  {
    if count > 0 {
      PlainHex(n / 16, count - 1);
    }
  }

  lemma PlainSigned(n: int)
    ensures Plain(SignedText(n))
  {
    hide Decimal;
    PlainNumbers(if n < 0 then -n else n);
  }

  lemma PlainPart(part: Part)
    ensures Plain(PartName(part))
  {
  }

  lemma PlainBoot()
    ensures Plain("LAB") && Plain("x86_64") && Plain("100") && Plain("8")
  {
  }

  lemma PlainFields(r: Record)
    ensures forall p :: p in Fields(r) ==> Plain(p)
  {
    hide Decimal, Hex, Plain, SignedText, PartName;
    forall n: nat ensures Plain(Decimal(n)) && Plain(Hex(n)) { PlainNumbers(n); }
    forall n: int ensures Plain(SignedText(n)) { PlainSigned(n); }
    forall part: Part ensures Plain(PartName(part)) { PlainPart(part); }
    PlainBoot();
  }

  lemma LineParts(r: Record)
    ensures Split(Rstrip(Line(r))) == ["ML", Kind(r), Decimal(r.tick)] + Fields(r)
  {
    hide Decimal, Split, Rstrip, Join, Fields;
    var parts := ["ML", Kind(r), Decimal(r.tick)] + Fields(r);
    PlainFields(r);
    PlainNumbers(r.tick);
    SplitJoin(parts);
    RstripPlain(Join(parts));
  }

  /** A record the kernel may write: its program number names a program. */
  predicate Nameable(r: Record) { r.ProcessRecord? ==> r.program < 7 }

  lemma PartsProcess(h: Host, r: Record)
    requires r.ProcessRecord? && Nameable(r)
    ensures EventParts(h, Kind(r), r.tick, Fields(r)) == Handled(Apply(h, r), false)
  {
    hide Decimal, Hex, ParseDecimal, Last, Forget;
    PlainNumbers(r.pid);
    PlainNumbers(r.parent);
    PlainNumbers(r.program);
    PlainNumbers(r.state.Number());
    PlainNumbers(r.slices);
    OneOrZero(r.running);
  }

  lemma PartsTables(h: Host, r: Record)
    requires r.MapRecord? || r.DataRecord? || r.MemoryRecord?
    ensures EventParts(h, Kind(r), r.tick, Fields(r)) == Handled(Apply(h, r), false)
  {
    hide Decimal, Hex, ParseDecimal, Last, PartName;
    match r
    case MapRecord(_, pid, va, pa, flags, part) => PlainNumbers(pid); PlainNumbers(flags);
    case DataRecord(_, pid, va, pa, marker) => PlainNumbers(pid);
    case MemoryRecord(_, frames, free) => PlainNumbers(frames); PlainNumbers(free);
  }

  lemma NobodyRuns(h: Host, pid: nat)
    ensures h.processes == map[] ==> SetRunning(h, pid) == h
  {
  }

  lemma PartsOther(h: Host, r: Record)
    requires !(r.ProcessRecord? || r.MapRecord? || r.DataRecord? || r.MemoryRecord?)
    ensures EventParts(h, Kind(r), r.tick, Fields(r)) == Handled(Apply(h, r), false)
  {
    hide Decimal, Hex, ParseDecimal, Last, SetRunning;
    match r
    case ScheduleRecord(_, from, to, root, cpl) => PlainNumbers(to); NobodyRuns(Noted(h, r), to);
    case SyscallRecord(_, pid, number, a, b, c, result) => PlainNumbers(pid); NobodyRuns(Noted(h, r), pid);
    case _ =>
  }

  /** Reading the line of a record is applying the record. */
  lemma LineIsRecord(h: Host, r: Record)
    requires Nameable(r)
    ensures EventLine(h, Line(r)) == Handled(Apply(h, r), false)
  {
    hide Decimal, Split, Rstrip, Line, ParseDecimal, EventParts, Apply, Fields, Kind;
    LineParts(r);
    assert Split(Rstrip(Line(r)))[3..] == Fields(r);
    PlainNumbers(r.tick);
    if r.ProcessRecord? {
      PartsProcess(h, r);
    } else if r.MapRecord? || r.DataRecord? || r.MemoryRecord? {
      PartsTables(h, r);
    } else {
      PartsOther(h, r);
    }
  }

  lemma OneOrZero(b: bool)
    ensures (Decimal(if b then 1 else 0) == "1") == b
  {
    assert Decimal(0) == "0" && Decimal(1) == "1";
  }

  // ---- a whole stream ----

  function Stream(trace: seq<Record>): string {
    if trace == [] then "" else Stream(trace[..|trace| - 1]) + Line(trace[|trace| - 1]) + "\n"
  }

  function Lines(trace: seq<Record>): seq<string> {
    if trace == [] then [] else Lines(trace[..|trace| - 1]) + [Line(trace[|trace| - 1])]
  }

  /** The host after handling lines one by one, up to the first that raises. */
  function HostLines(lines: seq<string>): Handled {
    if lines == [] then Handled(NEW_HOST, false)
    else
      var before := HostLines(lines[..|lines| - 1]);
      if before.raised then before else EventLine(before.host, lines[|lines| - 1])
  }

  lemma LineIsOneLine(r: Record)
    ensures OneLine(Line(r))
  {
    hide Decimal, Fields, Join, Split;
    var parts := ["ML", Kind(r), Decimal(r.tick)] + Fields(r);
    PlainFields(r);
    PlainNumbers(r.tick);
    SplitJoin(parts);
  }

  lemma {:induction false} StreamLines(trace: seq<Record>)
    ensures TakeLines(Stream(trace), []) == Reader("", Lines(trace), false)
    decreases |trace|
  {
    hide Line;
    if trace != [] {
      var before, r := trace[..|trace| - 1], trace[|trace| - 1];
      StreamLines(before);
      LineIsOneLine(r);
      var tail := Line(r) + "\n";
      TakeLinesFacts(Stream(before), [], tail);
      assert Stream(trace) == Stream(before) + tail;
      assert "" + tail == tail;
      FindIs(tail, '\n', |Line(r)|) by { forall j | 0 <= j < |Line(r)| ensures tail[j] != '\n' { assert Line(r)[j] in Line(r); } }
      assert tail[..|Line(r)|] == Line(r) && tail[|Line(r)| + 1..] == "";
    }
  }

  lemma {:induction false} LinesReplay(trace: seq<Record>)
    requires forall r :: r in trace ==> Nameable(r)
    ensures HostLines(Lines(trace)) == Handled(Replay(trace), false)
    decreases |trace|
  {
    hide Line, Apply, EventLine;
    if trace != [] {
      var before, r := trace[..|trace| - 1], trace[|trace| - 1];
      LinesReplay(before);
      LineIsRecord(Replay(before), r);
      assert Lines(trace)[..|Lines(trace)| - 1] == Lines(before);
    }
  }

  /** From bytes to replica: however the serial stream of a trace is cut into chunks, the host ends
      with the fold of the trace, provided no record exceeds the reader's limit. */
  lemma StreamReplay(trace: seq<Record>, chunks: seq<string>)
    requires forall r :: r in trace ==> Nameable(r)
    requires Concat(chunks) == Stream(trace) && ShortLines(Stream(trace))
    ensures var reader := FeedAll(Reader("", [], false), chunks);
            !reader.failed && reader.pending == "" && HostLines(reader.lines) == Handled(Replay(trace), false)
  {
    ChunksDoNotMatter(chunks);
    StreamLines(trace);
    LinesReplay(trace);
  }
}
