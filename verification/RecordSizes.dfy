/** How long the text of a record can be: fields that are 64-bit words keep every line of the trace far
    below the reader's limit. */
module RecordSizes {
  import opened Words
  import opened TraceText
  import opened KernelModel
  import opened HostModel

  /** Every number the record prints in decimal is a 64-bit word, and so is the tick. */
  predicate Sized(r: Record) {
    r.tick < WORD_LIMIT &&
    match r
    case BootRecord(_) => true
    case SpawnRecord(_, pid, parent, program) => pid < WORD_LIMIT && parent < WORD_LIMIT && program < WORD_LIMIT
    case ProcessRecord(_, pid, parent, program, state, root, slices, running) =>
      pid < WORD_LIMIT && parent < WORD_LIMIT && program < WORD_LIMIT && slices < WORD_LIMIT
    case MapRecord(_, pid, va, pa, flags, part) => pid < WORD_LIMIT && flags < WORD_LIMIT
    case DataRecord(_, pid, va, pa, marker) => pid < WORD_LIMIT
    case MemoryRecord(_, frames, free) => frames < WORD_LIMIT && free < WORD_LIMIT
    case ScheduleRecord(_, from, to, root, cpl) => from < WORD_LIMIT && to < WORD_LIMIT && cpl < WORD_LIMIT
    case SyscallRecord(_, pid, number, a, b, c, result) =>
      pid < WORD_LIMIT && number < WORD_LIMIT && 0 < result + WORD_LIMIT && result < WORD_LIMIT
    case WaitRecord(_, pid, child) => pid < WORD_LIMIT && child < WORD_LIMIT
    case ExitRecord(_, pid, status) => pid < WORD_LIMIT && status < WORD_LIMIT
    case FaultRecord(_, pid, vector, error, address, rip, cpl) =>
      pid < WORD_LIMIT && vector < WORD_LIMIT && error < WORD_LIMIT && cpl < WORD_LIMIT
    case SnapshotRecord(_) => true
    case SnapshotEndRecord(_) => true
  }

  ghost predicate AllSized(trace: seq<Record>) { forall r :: r in trace ==> Sized(r) }

  lemma {:induction false} DecimalLength(n: nat, digits: nat)
    requires n < Power(10, digits) && 0 < digits
    ensures |Decimal(n)| <= digits
  {
    if n >= 10 {
      assert digits > 1 by { assert Power(10, 1) == 10 * Power(10, 0); }
      DecimalLength(n / 10, digits - 1);
    }
  }

  lemma WordLength(n: nat)
    ensures n < WORD_LIMIT ==> |Decimal(n)| <= 20
    ensures |Hex(n)| == 18
  {
    PowersOfTen();
    if n < WORD_LIMIT {
      DecimalLength(n, 20);
    }
  }

  ghost predicate ShortParts(parts: seq<string>, length: nat) { forall i :: 0 <= i < |parts| ==> |parts[i]| <= length }

  lemma FieldsShort(r: Record)
    requires Sized(r)
    ensures |Fields(r)| <= 7 && ShortParts(Fields(r), 21)
  {
    hide Decimal, Hex;
    forall n: nat ensures (n < WORD_LIMIT ==> |Decimal(n)| <= 20) && |Hex(n)| == 18 { WordLength(n); }
    if r.SyscallRecord? && r.result < 0 {
      WordLength(-r.result);
    }
  }

  lemma {:induction false} JoinLength(parts: seq<string>, length: nat)
    requires ShortParts(parts, length)
    ensures |Join(parts)| <= |parts| * (length + 1)
    decreases |parts|
  {
    if |parts| > 1 {
      assert forall i :: 0 <= i < |parts[1..]| ==> parts[1..][i] == parts[i + 1];
      JoinLength(parts[1..], length);
      assert |parts| * (length + 1) == (|parts| - 1) * (length + 1) + (length + 1);
    }
  }

  /** A line has at most ten fields of at most twenty-one characters. */
  lemma LineShort(r: Record)
    requires Sized(r)
    ensures |Line(r)| <= 220
  {
    hide Decimal, Fields, Join;
    var parts := ["ML", Kind(r), Decimal(r.tick)] + Fields(r);
    FieldsShort(r);
    WordLength(r.tick);
    forall i | 0 <= i < |parts| ensures |parts[i]| <= 21 {
      assert i >= 3 ==> parts[i] == Fields(r)[i - 3];
    }
    JoinLength(parts, 21);
  }

  lemma AcrossNewline(before: string, tail: string, a: nat, b: nat)
    requires before != "" && before[|before| - 1] == '\n' && a < |before| < b <= |before| + |tail|
    ensures '\n' in (before + tail)[a..b]
  {
    assert (before + tail)[a..b][|before| - 1 - a] == before[|before| - 1];
  }

  /** The stream of such records never makes a reader give up. */
  lemma {:induction false} StreamShort(trace: seq<Record>)
    requires AllSized(trace)
    ensures ShortLines(Stream(trace))
    ensures trace != [] ==> Stream(trace) != "" && Stream(trace)[|Stream(trace)| - 1] == '\n'
    decreases |trace|
  {
    hide Sized, Line;
    if trace != [] {
      var before, r := trace[..|trace| - 1], trace[|trace| - 1];
      assert r in trace;
      StreamShort(before);
      LineShort(r);
      var s, whole := Stream(before), Stream(trace);
      forall a, b | 0 <= a <= b <= |whole| && '\n' !in whole[a..b]
        ensures b - a <= 4096
      {
        assert whole == s + (Line(r) + "\n");
        if b <= |s| {
          assert whole[a..b] == s[a..b];
        } else if a < |s| {
          AcrossNewline(s, Line(r) + "\n", a, b);
        }
      }
    }
  }
}
