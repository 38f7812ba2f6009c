/** kernel/ramfs.c on its slot array, and the copy loops of user/laboratory.c on top of it. */
module FileCopy {
  import opened RamFs

  const COPY_LIMIT: nat := 256

  /** ramfs_open: nested searches over files, names and slots. */
  method OpenSlot(files: seq<File>, slots: array<OpenFile>, name: seq<nat>) returns (r: int)
    modifies slots
    ensures var a := Open(files, old(slots[..]), name); slots[..] == a.slots && r == a.result
  {
    var file := 0;
    while file < |files|
      invariant slots[..] == old(slots[..])
      invariant 0 <= file <= |files| && FindFile(files, name, 0) == FindFile(files, name, file)
    {
      if |name| == |files[file].name| {
        var i := 0;
        while i < |name| && name[i] == files[file].name[i]
          invariant 0 <= i <= |name| && forall j :: 0 <= j < i ==> name[j] == files[file].name[j]
        {
          i := i + 1;
        }
        if i == |name| {
          assert files[file].name == name;
          var fd := 0;
          while fd < slots.Length
            invariant slots[..] == old(slots[..])
            invariant 0 <= fd <= slots.Length && FindSlot(slots[..], 0) == FindSlot(slots[..], fd)
          {
            if !slots[fd].used {
              slots[fd] := OpenFile(true, file, 0);
              return fd;
            }
            fd := fd + 1;
          }
          return -5;
        }
      }
      file := file + 1;
    }
    return -4;
  }

  /** ramfs_read */
  method ReadSlot(files: seq<File>, slots: array<OpenFile>, fd: nat, length: nat) returns (r: int, bytes: seq<nat>)
    requires SlotsOk(files, slots[..])
    modifies slots
    ensures Read(files, old(slots[..]), fd, length) == Chunk(slots[..], r, bytes)
  {
    if fd >= slots.Length || !slots[fd].used { return -3, []; }
    var open := slots[fd];
    var file := files[open.file];
    var available := |file.bytes| - open.offset;
    var count := if length > available then available else length;
    bytes := file.bytes[open.offset..open.offset + count];
    slots[fd] := open.(offset := open.offset + count);
    return count, bytes;
  }

  /** ramfs_close */
  method CloseSlot(slots: array<OpenFile>, fd: nat) returns (r: int)
    modifies slots
    ensures var a := Close(old(slots[..]), fd); slots[..] == a.slots && r == a.result
  {
    if fd >= slots.Length || !slots[fd].used { return -3; }
    slots[fd] := slots[fd].(used := false);
    return 0;
  }

  /** write_bytes: pieces of at most 256 bytes, which user_range never finds too long. */
  method WriteBytes(console: seq<nat>, text: seq<nat>) returns (console': seq<nat>)
    ensures console' == console + text
  {
    console' := console;
    var rest := text;
    while |rest| > 0
      invariant console' + rest == console + text
      decreases |rest|
    {
      var part := if |rest| > COPY_LIMIT then COPY_LIMIT else |rest|;
      assert part <= COPY_LIMIT && rest == rest[..part] + rest[part..];
      console' := console' + rest[..part];
      rest := rest[part..];
    }
  }

  function CatPath(name: seq<nat>): seq<nat> { if name != [] && name[0] == '/' as nat then name else ['/' as nat] + name }

  /** What cat prints, given the file system it finds. */
  function CatOutput(files: seq<File>, slots: seq<OpenFile>, name: seq<nat>): seq<nat> {
    if |name| > 90 || name == [] then Ascii("cat: expected a short file name\n")
    else
      var a := Open(files, slots, CatPath(name));
      if 0 <= a.result < |a.slots| then Rest(files, a.slots[a.result]) else Ascii("cat: file not found\n")
  }

  /** The loop of cat: pieces of 128 until end of file deliver the rest of the file, in order and once,
      and no other slot changes. */
  method Drain(files: seq<File>, slots: array<OpenFile>, console: seq<nat>, fd: nat) returns (console': seq<nat>)
    requires SlotsOk(files, slots[..]) && fd < slots.Length && slots[fd].used
    modifies slots
    ensures console' == console + old(Rest(files, slots[fd]))
    ensures SlotsOk(files, slots[..]) && slots[fd].used
    ensures forall d :: 0 <= d < slots.Length && d != fd ==> slots[d] == old(slots[d])
  {
    hide Read, Rest;
    console' := console;
    while true
      invariant SlotsOk(files, slots[..]) && slots[fd].used
      invariant forall d :: 0 <= d < slots.Length && d != fd ==> slots[d] == old(slots[d])
      invariant console' + Rest(files, slots[fd]) == console + old(Rest(files, slots[fd]))
      decreases |Rest(files, slots[fd])|
    {
      ghost var before := slots[..];
      ReadFacts(files, before, fd, 128);
      var count, bytes := ReadSlot(files, slots, fd, 128);
      if count <= 0 { return; }
      console' := WriteBytes(console', bytes);
    }
  }

  /** cat: it prints what CatOutput says and gives its slot back. */
  method Cat(files: seq<File>, slots: array<OpenFile>, console: seq<nat>, name: seq<nat>) returns (console': seq<nat>)
    requires SlotsOk(files, slots[..])
    modifies slots
    ensures console' == console + CatOutput(files, old(slots[..]), name)
    ensures SlotsOk(files, slots[..])
    ensures forall fd :: 0 <= fd < slots.Length ==>
              slots[fd] == old(slots[fd]) || (!slots[fd].used && !old(slots[fd].used))
  {
    hide Open, Rest, Ascii;
    if |name| > 90 || name == [] {
      console' := WriteBytes(console, Ascii("cat: expected a short file name\n"));
      return;
    }
    OpenFacts(files, slots[..], CatPath(name));
    var fd := OpenSlot(files, slots, CatPath(name));
    if fd < 0 {
      console' := WriteBytes(console, Ascii("cat: file not found\n"));
      return;
    }
    console' := Drain(files, slots, console, fd);
    var closed := CloseSlot(slots, fd);
  }

  /** The file a name given to cat stands for: the name itself when it starts with a slash, and otherwise
      the name behind a slash. */
  predicate Means(file: File, name: seq<nat>)
    requires name != []
  {
    if name[0] == '/' as nat then file.name == name
    else |file.name| == |name| + 1 && file.name[0] == '/' as nat && file.name[1..] == name
  }

  lemma PathIsMeant(file: File, name: seq<nat>)
    requires name != []
    ensures Means(file, name) <==> file.name == CatPath(name)
  {
    var slash := ['/' as nat];
    assert (slash + name)[1..] == name;
    if name[0] != '/' as nat && Means(file, name) {
      assert file.name == [file.name[0]] + file.name[1..];
    }
  }

  /** cat prints the bytes of the first file its name stands for, and the error text exactly when there is
      none or no slot is free; in particular never that text otherwise, unless a file consists of it. */
  lemma CatPrintsFile(files: seq<File>, slots: seq<OpenFile>, name: seq<nat>)
    requires SlotsOk(files, slots) && 0 < |name| <= 90
    ensures var found := exists i :: 0 <= i < |files| && Means(files[i], name);
            var room := exists fd :: 0 <= fd < |slots| && !slots[fd].used;
            && (!found || !room ==> CatOutput(files, slots, name) == Ascii("cat: file not found\n"))
            && (room ==> forall i :: 0 <= i < |files| && Means(files[i], name) &&
                                     (forall j :: 0 <= j < i ==> !Means(files[j], name)) ==>
                         CatOutput(files, slots, name) == files[i].bytes)
            && ((forall i :: 0 <= i < |files| ==> files[i].bytes != Ascii("cat: file not found\n")) ==>
                  (CatOutput(files, slots, name) == Ascii("cat: file not found\n") <==> !found || !room))
  {
    hide Open, Ascii, Means, CatPath;
    forall i | 0 <= i < |files|
      ensures Means(files[i], name) <==> files[i].name == CatPath(name)
    {
      PathIsMeant(files[i], name);
    }
    OpenFacts(files, slots, CatPath(name));
    OpenTakesFirst(files, slots, CatPath(name));
  }

  /** The two files of the system, by both of their names. */
  lemma CatHello(slots: seq<OpenFile>)
    requires SlotsOk(RAM_FILES, slots) && exists fd :: 0 <= fd < |slots| && !slots[fd].used
    ensures CatOutput(RAM_FILES, slots, Ascii("hello.txt")) == Ascii("hello from ramfs\n")
    ensures CatOutput(RAM_FILES, slots, Ascii("/hello.txt")) == Ascii("hello from ramfs\n")
    ensures CatOutput(RAM_FILES, slots, Ascii("empty.txt")) == []
  {
    hide CatOutput, SlotsOk;
    var hello, empty := Ascii("/hello.txt"), Ascii("/empty.txt");
    assert hello[1] != empty[1];
    assert hello[1..] == Ascii("hello.txt") && empty[1..] == Ascii("empty.txt");
    assert Means(RAM_FILES[0], Ascii("hello.txt")) && Means(RAM_FILES[0], hello) && Means(RAM_FILES[1], Ascii("empty.txt"));
    assert !Means(RAM_FILES[0], Ascii("empty.txt"));
    CatPrintsFile(RAM_FILES, slots, Ascii("hello.txt"));
    CatPrintsFile(RAM_FILES, slots, hello);
    CatPrintsFile(RAM_FILES, slots, Ascii("empty.txt"));
  }
}
