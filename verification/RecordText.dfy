/** A line of the trace says everything about its record: reading the fields back, by kind and position,
    gives the same record. */
module RecordText {
  import opened Words
  import opened TraceText
  import opened KernelModel
  import opened HostModel

  function DecimalAt(parts: seq<string>, i: nat): Option<nat> { if i < |parts| then ParseDecimal(parts[i]) else None }
  function HexAt(parts: seq<string>, i: nat): Option<nat> { if i < |parts| then ParseHex(parts[i]) else None }

  /** A decimal number with a minus sign in front of a negative one. */
  function SignedAt(parts: seq<string>, i: nat): Option<int> {
    if i >= |parts| then None
    else if |parts[i]| > 0 && parts[i][0] == '-' then
      match ParseDecimal(parts[i][1..]) case None => None case Some(n) => Some(0 - n)
    else match ParseDecimal(parts[i]) case None => None case Some(n) => Some(n)
  }

  function StateOf(n: nat): Option<ProcessState> {
    if n == 0 then Some(Unused) else if n == 1 then Some(Ready) else if n == 2 then Some(Waiting) else if n == 3 then Some(Exited) else None
  }

  function PartAt(parts: seq<string>, i: nat): Option<Part> {
    if i >= |parts| then None
    else if parts[i] == "code" then Some(Code) else if parts[i] == "data" then Some(Data) else if parts[i] == "stack" then Some(Stack) else None
  }

  /** The record a split line stands for: "ML", the kind, the tick, and then the fields of that kind in the
      order in which the kernel prints them. */
  function ReadRecord(parts: seq<string>): Option<Record> {
    if |parts| < 3 || parts[0] != "ML" then None
    else match ParseDecimal(parts[2])
      case None => None
      case Some(tick) => ReadFields(parts[1], tick, parts[3..])
  }

  function ReadFields(kind: string, tick: nat, f: seq<string>): Option<Record> {
    if kind == "boot" then (if f == ["LAB", "x86_64", "100", "8"] then Some(BootRecord(tick)) else None)
    else if kind == "spawn" then
      (match (DecimalAt(f, 0), DecimalAt(f, 1), DecimalAt(f, 2))
       case (Some(pid), Some(parent), Some(program)) => Some(SpawnRecord(tick, pid, parent, program))
       case _ => None)
    else if kind == "process" then ReadProcess(tick, f)
    else if kind == "map" then
      (match (DecimalAt(f, 0), HexAt(f, 1), HexAt(f, 2), DecimalAt(f, 3), PartAt(f, 4))
       case (Some(pid), Some(va), Some(pa), Some(flags), Some(part)) => Some(MapRecord(tick, pid, va, pa, flags, part))
       case _ => None)
    else if kind == "data" then
      (match (DecimalAt(f, 0), HexAt(f, 1), HexAt(f, 2), HexAt(f, 3))
       case (Some(pid), Some(va), Some(pa), Some(marker)) => Some(DataRecord(tick, pid, va, pa, marker))
       case _ => None)
    else if kind == "memory" then
      (match (DecimalAt(f, 0), DecimalAt(f, 1))
       case (Some(frames), Some(free)) => Some(MemoryRecord(tick, frames, free))
       case _ => None)
    else ReadMore(kind, tick, f)
  }

  function ReadProcess(tick: nat, f: seq<string>): Option<Record> {
    match (DecimalAt(f, 0), DecimalAt(f, 1), DecimalAt(f, 2), DecimalAt(f, 3), HexAt(f, 4), DecimalAt(f, 5), DecimalAt(f, 6))
    case (Some(pid), Some(parent), Some(program), Some(state), Some(root), Some(slices), Some(running)) =>
      (match StateOf(state)
       case None => None
       case Some(s) => Some(ProcessRecord(tick, pid, parent, program, s, root, slices, running == 1)))
    case _ => None
  }

  function ReadMore(kind: string, tick: nat, f: seq<string>): Option<Record> {
    if kind == "schedule" then
      (match (DecimalAt(f, 0), DecimalAt(f, 1), HexAt(f, 2), DecimalAt(f, 3))
       case (Some(from), Some(to), Some(root), Some(cpl)) => Some(ScheduleRecord(tick, from, to, root, cpl))
       case _ => None)
    else if kind == "syscall" then
      (match (DecimalAt(f, 0), DecimalAt(f, 1), HexAt(f, 2), HexAt(f, 3), HexAt(f, 4), SignedAt(f, 5))
       case (Some(pid), Some(number), Some(a), Some(b), Some(c), Some(result)) => Some(SyscallRecord(tick, pid, number, a, b, c, result))
       case _ => None)
    else if kind == "wait" then
      (match (DecimalAt(f, 0), DecimalAt(f, 1))
       case (Some(pid), Some(child)) => Some(WaitRecord(tick, pid, child))
       case _ => None)
    else if kind == "exit" then
      (match (DecimalAt(f, 0), DecimalAt(f, 1))
       case (Some(pid), Some(status)) => Some(ExitRecord(tick, pid, status))
       case _ => None)
    else if kind == "fault" then
      (match (DecimalAt(f, 0), DecimalAt(f, 1), DecimalAt(f, 2), HexAt(f, 3), HexAt(f, 4), DecimalAt(f, 5))
       case (Some(pid), Some(vector), Some(error), Some(address), Some(rip), Some(cpl)) =>
         Some(FaultRecord(tick, pid, vector, error, address, rip, cpl))
       case _ => None)
    else if kind == "snapshot" then (if f == [] then Some(SnapshotRecord(tick)) else None)
    else if kind == "snapshot-end" then (if f == [] then Some(SnapshotEndRecord(tick)) else None)
    else None
  }

  /** Every number printed in hexadecimal is a 64-bit word. */
  predicate HexWords(r: Record) {
    match r
    case ProcessRecord(_, _, _, _, _, root, _, _) => root < WORD_LIMIT
    case MapRecord(_, _, va, pa, _, _) => va < WORD_LIMIT && pa < WORD_LIMIT
    case DataRecord(_, _, va, pa, marker) => va < WORD_LIMIT && pa < WORD_LIMIT && marker < WORD_LIMIT
    case ScheduleRecord(_, _, _, root, _) => root < WORD_LIMIT
    case SyscallRecord(_, _, _, a, b, c, _) => a < WORD_LIMIT && b < WORD_LIMIT && c < WORD_LIMIT
    case FaultRecord(_, _, _, _, address, rip, _) => address < WORD_LIMIT && rip < WORD_LIMIT
    case _ => true
  }

  lemma Numbers()
    ensures forall n: nat :: ParseDecimal(Decimal(n)) == Some(n)
    ensures forall n: nat :: n < WORD_LIMIT ==> ParseHex(Hex(n)) == Some(n)
  {
    hide Decimal, Hex, ParseDecimal, ParseHex;
    forall n: nat ensures ParseDecimal(Decimal(n)) == Some(n) { PlainNumbers(n); }
    forall n: nat | n < WORD_LIMIT ensures ParseHex(Hex(n)) == Some(n) { NumbersRoundTrip(n); }
  }

  /** A printed number starts with a digit. */
  lemma {:induction false} FirstDigit(n: nat)
    ensures Decimal(n) != "" && Decimal(n)[0] != '-'
  {
    if n >= 10 {
      FirstDigit(n / 10);
    }
  }

  lemma SignedReadsBack(n: int, parts: seq<string>, i: nat)
    requires i < |parts| && parts[i] == SignedText(n)
    ensures SignedAt(parts, i) == Some(n)
  {
    hide Decimal, ParseDecimal;
    var m := if n < 0 then -n else n;
    PlainNumbers(m);
    FirstDigit(m);
    if n < 0 {
      assert ("-" + Decimal(-n))[1..] == Decimal(-n);
    }
  }

  lemma TablesReadBack(r: Record)
    requires HexWords(r) && (r.BootRecord? || r.SpawnRecord? || r.MapRecord? || r.DataRecord? || r.MemoryRecord?)
    ensures ReadFields(Kind(r), r.tick, Fields(r)) == Some(r)
  {
    hide Decimal, Hex, ParseDecimal, ParseHex;
    Numbers();
  }

  lemma ProcessReadsBack(r: Record)
    requires HexWords(r) && r.ProcessRecord?
    ensures ReadFields(Kind(r), r.tick, Fields(r)) == Some(r)
  {
    hide Decimal, Hex, ParseDecimal, ParseHex;
    Numbers();
    assert StateOf(r.state.Number()) == Some(r.state);
  }

  lemma StepsReadBack(r: Record)
    requires HexWords(r) && !(r.BootRecord? || r.SpawnRecord? || r.ProcessRecord? || r.MapRecord? || r.DataRecord? || r.MemoryRecord?)
    ensures ReadFields(Kind(r), r.tick, Fields(r)) == Some(r)
  {
    hide Decimal, Hex, ParseDecimal, ParseHex, SignedText, SignedAt;
    Numbers();
    if r.SyscallRecord? {
      SignedReadsBack(r.result, Fields(r), 5);
    }
  }

  /** Round trip: cutting the line of a record at its tabs and reading the fields gives the record back, so
      no two records have the same line. */
  lemma RecordReadsBack(r: Record)
    requires HexWords(r)
    ensures ReadRecord(Split(Rstrip(Line(r)))) == Some(r)
  {
    hide Decimal, Split, Rstrip, Line, ParseDecimal, ReadFields, Fields, Kind, HexWords;
    LineParts(r);
    var parts := Split(Rstrip(Line(r)));
    PlainNumbers(r.tick);
    assert parts[3..] == Fields(r);
    if r.ProcessRecord? {
      ProcessReadsBack(r);
    } else if r.BootRecord? || r.SpawnRecord? || r.MapRecord? || r.DataRecord? || r.MemoryRecord? {
      TablesReadBack(r);
    } else {
      StepsReadBack(r);
    }
  }
}
