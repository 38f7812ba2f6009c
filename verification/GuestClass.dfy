/** tools/lab_guest.py in place: the dictionaries of Guest updated record by record, and the reader
    that cuts the serial stream into lines. */
module GuestClass {
  import opened Words
  import opened TraceText
  import opened HostModel
  import KernelModel

  /** Guest: what the records change, and the reading thread's unfinished line. */
  class Guest {
    var processes: map<nat, Process>
    var maps: map<nat, map<string, MapEntry>>
    var data: map<nat, DataEntry>
    var frames: nat
    var free: nat
    var ticks: nat
    var sequence: nat
    var events: seq<Event>
    var pending: string
    var failed: bool              // the reading thread has ended
    ghost var lines: seq<string>  // every line handled so far

    function Abs(): Host reads this { Host(processes, maps, data, frames, free, ticks, sequence, events) }

    ghost function Stage(): Reader reads this { Reader(pending, lines, failed) }

    /** The tables are what the handled lines make of an empty host. */
    ghost predicate Valid() reads this { HostLines(lines) == Handled(Abs(), false) }

    constructor ()
      ensures Valid() && Abs() == NEW_HOST && Stage() == Reader("", [], false)
    {
      processes, maps, data, frames, free, ticks, sequence, events := map[], map[], map[], 0, 0, 0, 0, [];
      pending, failed, lines := "", false, [];
    }

    method Remember(kind: string, tick: nat, fields: seq<string>, interesting: bool)
      modifies this`ticks, this`sequence, this`events
      ensures Abs() == Note(old(Abs()), kind, tick, fields, interesting)
    {
      hide Last;
      if ticks < tick { ticks := tick; }
      sequence := sequence + 1;
      if interesting {
        events := events + [Event(sequence, kind, tick, fields)];
        events := Last(events);
      }
    }

    /** for process in self.processes.values(): process["current"] = ... */
    method MarkRunning(pid: nat)
      modifies this`processes
      ensures Abs() == SetRunning(old(Abs()), pid)
    {
      var rest := processes.Keys;
      while rest != {}
        modifies this`processes
        invariant rest <= processes.Keys == old(processes).Keys
        invariant forall p :: p in processes ==>
          processes[p] == if p in rest then old(processes)[p] else old(processes)[p].(running := p == pid)
        decreases rest
      {
        var p :| p in rest;
        processes := processes[p := processes[p].(running := p == pid)];
        rest := rest - {p};
      }
    }

    /** The table part of _event for a process record. */
    method HandleProcess(fields: seq<string>) returns (raised: bool)
      modifies this`processes, this`maps, this`data
      ensures match ProcessLine(old(Abs()), fields)
              case None => raised && Abs() == old(Abs())
              case Some(h) => !raised && Abs() == h
    {
      hide ParseDecimal;
      if |fields| < 4 { return true; }
      var pid, parent, program, state := ParseDecimal(fields[0]), ParseDecimal(fields[1]), ParseDecimal(fields[2]), ParseDecimal(fields[3]);
      if pid == None || parent == None || program == None || state == None { return true; }
      if state.value == 0 {
        processes, maps, data := processes - {pid.value}, maps - {pid.value}, data - {pid.value};
        return false;
      }
      if program.value >= 7 || state.value >= 4 || |fields| < 7 { return true; }
      var slices := ParseDecimal(fields[5]);
      if slices == None { return true; }
      processes := processes[pid.value := Process(parent.value, PROGRAMS[program.value], STATES[state.value], fields[4], slices.value, fields[6] == "1")];
      return false;
    }

    /** schedule and syscall: the loop reads the field once there is a process. */
    method HandleRunning(fields: seq<string>, i: nat) returns (raised: bool)
      modifies this`processes
      ensures match RunningLine(old(Abs()), fields, i)
              case None => raised && Abs() == old(Abs())
              case Some(h) => !raised && Abs() == h
    {
      hide ParseDecimal, SetRunning;
      if processes == map[] { return false; }
      var pid := Number(fields, i);
      if pid == None { return true; }
      MarkRunning(pid.value);
      return false;
    }

    /** The rest of _event, once the record has been counted and perhaps kept. */
    method HandleTables(kind: string, fields: seq<string>) returns (raised: bool)
      modifies this
      ensures lines == old(lines) && pending == old(pending) && failed == old(failed)
      ensures match TableLine(old(Abs()), kind, fields)
              case None => raised && Abs() == old(Abs())
              case Some(h) => !raised && Abs() == h
    {
      hide ParseDecimal, ProcessLine, RunningLine;
      if kind == "process" {
        raised := HandleProcess(fields);
        return;
      } else if kind == "map" {
        var pid, flags := Number(fields, 0), Number(fields, 3);
        if pid == None || flags == None || |fields| < 5 { return true; }
        var known := if pid.value in maps then maps[pid.value] else map[];
        maps := maps[pid.value := known[fields[1] := MapEntry(fields[2], flags.value, fields[4])]];
      } else if kind == "data" {
        var pid := Number(fields, 0);
        if pid == None || |fields| < 4 { return true; }
        data := data[pid.value := DataEntry(fields[1], fields[2], fields[3])];
      } else if kind == "memory" {
        var total, left := Number(fields, 0), Number(fields, 1);
        if total == None || left == None { return true; }
        frames, free := total.value, left.value;
      } else if kind == "schedule" || kind == "syscall" {
        raised := HandleRunning(fields, if kind == "schedule" then 1 else 0);
        return;
      }
      return false;
    }

    /** _event. An exception leaves the record counted, and perhaps kept, but no table changed. */
    method Handle(line: string) returns (raised: bool)
      modifies this
      ensures pending == old(pending) && failed == old(failed)
      ensures Handled(Abs(), raised) == EventLine(old(Abs()), line)
      ensures lines == old(lines) + [line]
      ensures old(Valid()) && !raised ==> Valid()
    {
      hide Split, Rstrip, ParseDecimal, Note, News, TableLine;
      var parts := Split(Rstrip(line));
      lines := lines + [line];
      assert lines[..|lines| - 1] == old(lines);
      if |parts| < 3 || parts[0] != "ML" { return false; }
      var tick := ParseDecimal(parts[2]);
      if tick == None { return true; }
      var kind, fields := parts[1], parts[3..];
      var news := News(Abs(), kind, fields);
      Remember(kind, tick.value, fields, news == Some(true));
      if news == None { return true; }
      raised := HandleTables(kind, fields);
    }

    /** One chunk of _read: the tables are those of all the lines handed on so far, up to and including
        one that raises; a line that raises, or an unfinished one that is too long, ends the thread. */
    method Receive(chunk: string) returns (raised: bool)
      requires Valid() && !failed
      modifies this
      ensures Handled(Abs(), raised) == HostLines(Feed(old(Stage()), chunk).lines)
      ensures !raised ==> Valid() && Stage() == Feed(old(Stage()), chunk)
      ensures raised ==> failed
    {
      hide EventLine, HostLines, Find;
      pending := pending + chunk;
      var i := Find(pending, '\n');
      while i < |pending|
        invariant Valid() && !failed && i == Find(pending, '\n')
        invariant TakeLines(old(pending) + chunk, old(lines)) == TakeLines(pending, lines)
        decreases |pending|
      {
        var line := pending[..i];
        pending := pending[i + 1..];
        ghost var before := lines;
        raised := Handle(line);
        OneLineMore(before, line);
        if raised {
          TakeLinesExtends(pending, lines);
          RaisedForGood(lines, TakeLines(pending, lines).lines);
          failed := true;
          return;
        }
        i := Find(pending, '\n');
      }
      if |pending| > 4096 { failed := true; }
      raised := false;
    }
  }

  lemma OneLineMore(lines: seq<string>, line: string)
    ensures HostLines(lines + [line]) ==
            if HostLines(lines).raised then HostLines(lines) else EventLine(HostLines(lines).host, line)
  {
    hide EventLine;
    assert (lines + [line])[..|lines|] == lines;
  }

  /** After an exception nothing more is handled. */
  lemma {:induction false} RaisedForGood(a: seq<string>, b: seq<string>)
    requires a <= b && HostLines(a).raised
    ensures HostLines(b) == HostLines(a)
    decreases |b|
  {
    hide EventLine;
    if |a| < |b| {
      RaisedForGood(a, b[..|b| - 1]);
    } else {
      assert a == b;
    }
  }

  lemma {:induction false} TakeLinesExtends(pending: string, lines: seq<string>)
    ensures lines <= TakeLines(pending, lines).lines
    decreases |pending|
  {
    var i := Find(pending, '\n');
    if i < |pending| {
      TakeLinesExtends(pending[i + 1..], lines + [pending[..i]]);
    }
  }

  lemma {:induction false} FeedGrows(r: Reader, chunks: seq<string>, n: nat)
    requires n <= |chunks|
    ensures FeedAll(r, chunks[..n]).lines <= FeedAll(r, chunks).lines
    decreases |chunks|
  {
    if n < |chunks| {
      var before := chunks[..|chunks| - 1];
      assert before[..n] == chunks[..n];
      FeedGrows(r, before, n);
      var s := FeedAll(r, before);
      TakeLinesExtends(s.pending + chunks[|chunks| - 1], s.lines);
    } else {
      assert chunks[..n] == chunks;
    }
  }

  lemma {:induction false} ShortPrefix(chunks: seq<string>, n: nat)
    requires n <= |chunks| && ShortLines(Concat(chunks))
    ensures ShortLines(Concat(chunks[..n]))
    decreases |chunks|
  {
    if n < |chunks| {
      var before := chunks[..|chunks| - 1];
      assert before[..n] == chunks[..n];
      var s := Concat(before);
      forall a, b | 0 <= a <= b <= |s| && '\n' !in s[a..b]
        ensures b - a <= 4096
      {
        assert Concat(chunks)[a..b] == s[a..b];
      }
      ShortPrefix(before, n);
    } else {
      assert chunks[..n] == chunks;
    }
  }

  /** No chunk of the stream of a trace makes the reader fail or raise. */
  lemma ChunkFine(trace: seq<KernelModel.Record>, chunks: seq<string>, n: nat)
    requires forall r :: r in trace ==> Nameable(r)
    requires Concat(chunks) == Stream(trace) && ShortLines(Stream(trace)) && n <= |chunks|
    ensures var r := FeedAll(Reader("", [], false), chunks[..n]);
            !r.failed && !HostLines(r.lines).raised
  {
    hide Concat, Stream, ShortLines, Feed, FeedAll, HostLines;
    ShortPrefix(chunks, n);
    ChunksDoNotMatter(chunks[..n]);
    StreamReplay(trace, chunks);
    FeedGrows(Reader("", [], false), chunks, n);
    var r := FeedAll(Reader("", [], false), chunks[..n]);
    if HostLines(r.lines).raised {
      RaisedForGood(r.lines, FeedAll(Reader("", [], false), chunks).lines);
    }
  }

  /** A host fed the stream of a trace in any chunks raises nothing and ends with the fold of the trace. */
  method Observe(trace: seq<KernelModel.Record>, chunks: seq<string>) returns (guest: Guest)
    requires forall r :: r in trace ==> Nameable(r)
    requires Concat(chunks) == Stream(trace) && ShortLines(Stream(trace))
    ensures guest.Valid() && !guest.failed && guest.pending == "" && guest.Abs() == Replay(trace)
  {
    hide Concat, Stream, ShortLines, Feed, Replay, HostLines;
    guest := new Guest();
    var n := 0;
    while n < |chunks|
      invariant 0 <= n <= |chunks| && guest.Valid() && fresh(guest)
      invariant guest.Stage() == FeedAll(Reader("", [], false), chunks[..n])
    {
      assert chunks[..n + 1][..n] == chunks[..n];
      ChunkFine(trace, chunks, n);
      ChunkFine(trace, chunks, n + 1);
      var raised := guest.Receive(chunks[n]);
      assert !raised;
      n := n + 1;
    }
    assert chunks[..n] == chunks;
    StreamReplay(trace, chunks);
  }
}
