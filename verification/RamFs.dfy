/** The read-only files of kernel/ramfs.c and a task's two open slots. */
module RamFs {

  datatype File = File(name: seq<nat>, bytes: seq<nat>)
  datatype OpenFile = OpenFile(used: bool, file: nat, offset: nat)

  const OPEN_LIMIT: nat := 2
  const CLOSED := OpenFile(false, 0, 0)

  function Ascii(s: string): (r: seq<nat>)
    ensures |r| == |s| && forall i :: 0 <= i < |s| ==> r[i] == s[i] as nat
  {
    seq(|s|, i requires 0 <= i < |s| => s[i] as nat)
  }

  const RAM_FILES: seq<File> := [File(Ascii("/hello.txt"), Ascii("hello from ramfs\n")), File(Ascii("/empty.txt"), [])]

  /** offset <= size: what every open, read and close keeps. */
  ghost predicate SlotsOk(files: seq<File>, slots: seq<OpenFile>) {
    && |slots| == OPEN_LIMIT
    && forall fd :: 0 <= fd < OPEN_LIMIT && slots[fd].used ==>
         slots[fd].file < |files| && slots[fd].offset <= |files[slots[fd].file].bytes|
  }

  function FindFile(files: seq<File>, name: seq<nat>, i: nat): nat
    requires i <= |files|
    decreases |files| - i
  {
    if i == |files| || files[i].name == name then i else FindFile(files, name, i + 1)
  }

  function FindSlot(slots: seq<OpenFile>, fd: nat): nat
    requires fd <= |slots|
    decreases |slots| - fd
  {
    if fd == |slots| || !slots[fd].used then fd else FindSlot(slots, fd + 1)
  }

  datatype Answer = Answer(slots: seq<OpenFile>, result: int)

  /** ramfs_open */
  function Open(files: seq<File>, slots: seq<OpenFile>, name: seq<nat>): Answer {
    var file := FindFile(files, name, 0);
    if file == |files| then Answer(slots, -4)
    else
      var fd := FindSlot(slots, 0);
      if fd < |slots| then Answer(slots[fd := OpenFile(true, file, 0)], fd) else Answer(slots, -5)
  }

  datatype Chunk = Chunk(slots: seq<OpenFile>, result: int, bytes: seq<nat>)

  /** What is left of the file behind an open slot. */
  function Rest(files: seq<File>, slot: OpenFile): seq<nat> {
    if slot.file < |files| && slot.offset <= |files[slot.file].bytes|
    then files[slot.file].bytes[slot.offset..] else []
  }

  /** ramfs_read: the bytes are what memcpy puts in the caller's buffer. */
  function Read(files: seq<File>, slots: seq<OpenFile>, fd: nat, length: nat): Chunk {
    if fd >= |slots| || !slots[fd].used then Chunk(slots, -3, [])
    else
      var rest := Rest(files, slots[fd]);
      var bytes := if length > |rest| then rest else rest[..length];
      Chunk(slots[fd := slots[fd].(offset := slots[fd].offset + |bytes|)], |bytes|, bytes)
  }

  /** ramfs_close */
  function Close(slots: seq<OpenFile>, fd: nat): Answer {
    if fd >= |slots| || !slots[fd].used then Answer(slots, -3) else Answer(slots[fd := slots[fd].(used := false)], 0)
  }

  // ---- sequences of calls ----

  datatype Call = OpenCall(name: seq<nat>) | ReadCall(fd: nat, length: nat) | CloseCall(fd: nat)

  function After(files: seq<File>, slots: seq<OpenFile>, call: Call): seq<OpenFile> {
    match call
    case OpenCall(name) => Open(files, slots, name).slots
    case ReadCall(fd, length) => Read(files, slots, fd, length).slots
    case CloseCall(fd) => Close(slots, fd).slots
  }

  function AfterAll(files: seq<File>, slots: seq<OpenFile>, calls: seq<Call>): seq<OpenFile>
    decreases |calls|
  {
    if calls == [] then slots else AfterAll(files, After(files, slots, calls[0]), calls[1..])
  }

  /** Everything the reads of descriptor `fd` hand back, in order. */
  function Delivered(files: seq<File>, slots: seq<OpenFile>, calls: seq<Call>, fd: nat): seq<nat>
    decreases |calls|
  {
    if calls == [] then []
    else
      var here := if calls[0].ReadCall? && calls[0].fd == fd then Read(files, slots, fd, calls[0].length).bytes else [];
      here + Delivered(files, After(files, slots, calls[0]), calls[1..], fd)
  }

  lemma {:induction false} FindFacts(files: seq<File>, name: seq<nat>, slots: seq<OpenFile>, i: nat, fd: nat)
    requires i <= |files| && fd <= |slots|
    ensures var f := FindFile(files, name, i);
            i <= f <= |files| && (f < |files| ==> files[f].name == name) &&
            (forall j :: i <= j < f ==> files[j].name != name)
    ensures var d := FindSlot(slots, fd);
            fd <= d <= |slots| && (d < |slots| ==> !slots[d].used) && (forall j :: fd <= j < d ==> slots[j].used)
    decreases |files| - i + |slots| - fd
  {
    if i < |files| {
      FindFacts(files, name, slots, i + 1, fd);
    }
    if fd < |slots| {
      FindFacts(files, name, slots, i, fd + 1);
    }
  }

  /** Open answers -4 exactly when no file has the name, -5 exactly when the file exists and every
      slot is taken, and otherwise opens a file of that name, from its beginning, in a free slot. */
  lemma OpenFacts(files: seq<File>, slots: seq<OpenFile>, name: seq<nat>)
    requires SlotsOk(files, slots)
    ensures var Answer(slots', r) := Open(files, slots, name);
            && SlotsOk(files, slots')
            && (r == -4 <==> forall j :: 0 <= j < |files| ==> files[j].name != name)
            && (r == -5 <==> r != -4 && forall d :: 0 <= d < |slots| ==> slots[d].used)
            && (r < 0 ==> slots' == slots && r in {-4, -5})
            && (r >= 0 ==> r < |slots| && !slots[r].used && slots'[r].used && Rest(files, slots'[r]) == files[slots'[r].file].bytes &&
                           files[slots'[r].file].name == name && slots' == slots[r := slots'[r]])
  {
    FindFacts(files, name, slots, 0, 0);
  }

  /** It is the first file of that name, and the lowest free slot. */
  lemma OpenTakesFirst(files: seq<File>, slots: seq<OpenFile>, name: seq<nat>)
    ensures var r := Open(files, slots, name).result;
            r >= 0 ==>
              && r < |slots| && !slots[r].used && (forall d :: 0 <= d < r ==> slots[d].used)
              && exists i: nat :: i < |files| && files[i].name == name && (forall j :: 0 <= j < i ==> files[j].name != name) &&
                                  Open(files, slots, name).slots == slots[r := OpenFile(true, i, 0)]
  {
    FindFacts(files, name, slots, 0, 0);
    var i := FindFile(files, name, 0);
    assert i < |files| ==> files[i].name == name;
  }

  /** A read hands back a prefix of the rest and leaves exactly what follows it. */
  lemma ReadFacts(files: seq<File>, slots: seq<OpenFile>, fd: nat, length: nat)
    requires SlotsOk(files, slots)
    ensures var c := Read(files, slots, fd, length);
            && SlotsOk(files, c.slots)
            && (c.result < 0 ==> c.result == -3 && c.slots == slots && c.bytes == [])
            && (c.result < 0 <==> fd >= |slots| || !slots[fd].used)
            && (c.result >= 0 ==> c.result == |c.bytes| <= length && c.slots[fd].used &&
                                  Rest(files, slots[fd]) == c.bytes + Rest(files, c.slots[fd]) &&
                                  (c.bytes == [] <==> length == 0 || Rest(files, slots[fd]) == []) &&
                                  c.slots == slots[fd := c.slots[fd]])
  {
  }

  /** Close answers -3 exactly for a descriptor that is not open, and otherwise frees that slot alone. */
  lemma CloseFacts(slots: seq<OpenFile>, fd: nat)
    ensures var Answer(slots', r) := Close(slots, fd);
            && |slots'| == |slots|
            && (fd < |slots| && slots[fd].used ==> r == 0 && !slots'[fd].used)
            && (!(fd < |slots| && slots[fd].used) ==> r == -3 && slots' == slots)
            && (forall d :: 0 <= d < |slots| && d != fd ==> slots'[d] == slots[d])
  {
  }

  lemma AfterKeepsSlots(files: seq<File>, slots: seq<OpenFile>, call: Call)
    requires SlotsOk(files, slots)
    ensures SlotsOk(files, After(files, slots, call))
  {
    match call
    case OpenCall(name) => OpenFacts(files, slots, name);
    case ReadCall(fd, length) => ReadFacts(files, slots, fd, length);
    case CloseCall(fd) =>
  }

  /** A call that neither closes `fd` nor is a read of it leaves its slot alone. */
  lemma OtherCalls(files: seq<File>, slots: seq<OpenFile>, call: Call, fd: nat)
    requires SlotsOk(files, slots) && fd < |slots| && slots[fd].used
    requires call != CloseCall(fd) && !(call.ReadCall? && call.fd == fd)
    ensures After(files, slots, call)[fd] == slots[fd]
  {
    match call
    case OpenCall(name) => OpenFacts(files, slots, name);
    case ReadCall(other, length) => ReadFacts(files, slots, other, length);
    case CloseCall(other) =>
  }

  /** Chunk independence: whatever the chunk sizes and whatever happens on other descriptors, the
      reads of an open descriptor deliver consecutive pieces of the file. */
  lemma {:induction false} ChunksArePrefix(files: seq<File>, slots: seq<OpenFile>, calls: seq<Call>, fd: nat)
    requires SlotsOk(files, slots) && fd < |slots| && slots[fd].used
    requires CloseCall(fd) !in calls
    ensures var slots' := AfterAll(files, slots, calls);
            SlotsOk(files, slots') && slots'[fd].used && slots'[fd].file == slots[fd].file &&
            Rest(files, slots[fd]) == Delivered(files, slots, calls, fd) + Rest(files, slots'[fd])
    decreases |calls|
  {
    if calls != [] {
      var call, rest := calls[0], calls[1..];
      var next := After(files, slots, call);
      AfterKeepsSlots(files, slots, call);
      if call.ReadCall? && call.fd == fd {
        ReadFacts(files, slots, fd, call.length);
      } else {
        OtherCalls(files, slots, call, fd);
      }
      assert CloseCall(fd) !in rest;
      ChunksArePrefix(files, next, rest, fd);
    }
  }
}
