/** Copies between the kernel and the running process: once user_range has accepted a buffer the copy
    cannot fault, lands only in the caller's own user pages, and reads back as written. */
module Copies {
  import opened Words
  import PageModel
  import opened PageTables
  import opened UserCopy
  import opened KernelModel
  import opened Build
  import opened Invariant

  /** Only the root matters to a translation. */
  lemma SameRoot(mem: Memory, s: Space, s': Space, address: nat)
    requires s.root == s'.root
    ensures Lookup(mem, s, address) == Lookup(mem, s', address)
  {
  }

  /** Memory in which only user pages of `t` may differ. */
  ghost predicate OnlyPages(mem: Memory, mem': Memory, t: Task) {
    MemoryOk(mem') && |mem'| == |mem| && forall g :: 0 <= g < |mem| && g !in t.pages ==> mem'[g] == mem[g]
  }

  lemma HeldAfter(cfg: Config, m: Machine, mem': Memory, t: Task)
    requires ConfigOk(cfg) && MachineOk(m) && Held(cfg, m, t) && OnlyPages(m.mem, mem', t)
    ensures Held(cfg, m.(mem := mem'), t) && MachineOk(m.(mem := mem'))
    ensures forall f :: f in t.space.tables && f < |m.mem| ==> mem'[f] == m.mem[f]
  {
    hide Mapped, PageModel.Valid;
    forall f | f in t.space.tables && f < |m.mem|
      ensures mem'[f] == m.mem[f]
    {
      assert f in Elements(t.space.tables) && f !in Elements(t.pages);
    }
    MappedFrame(cfg, m.mem, mem', t, t);
  }

  lemma LookupAfter(cfg: Config, m: Machine, mem': Memory, t: Task, address: nat)
    requires ConfigOk(cfg) && MachineOk(m) && Held(cfg, m, t) && OnlyPages(m.mem, mem', t)
    ensures Lookup(mem', t.space, address) == Lookup(m.mem, t.space, address)
  {
    hide Represents, LayoutFlat, Lookup, MachineOk;
    HeldAfter(cfg, m, mem', t);
    var flat := LayoutFlat(CodePages(cfg), t.pages);
    var tree :| Represents(m.mem, cfg.boot, t.space, tree, flat);
    MemoryFine(m);
    RepresentsFrame(m.mem, mem', cfg.boot, t.space, tree, flat);
    LookupFacts(m.mem, cfg.boot, t.space, tree, flat, address);
    LookupFacts(mem', cfg.boot, t.space, tree, flat, address);
  }

  lemma MemoryFine(m: Machine)
    requires MachineOk(m)
    ensures MemoryOk(m.mem)
  {
  }

  /** A permitted byte lies in a user page of the process. */
  lemma PermittedPage(cfg: Config, m: Machine, t: Task, address: nat)
    requires ConfigOk(cfg) && MachineOk(m) && Held(cfg, m, t) && Lookup(m.mem, t.space, address).Some?
    ensures var p := Lookup(m.mem, t.space, address).value.physical;
            p / 4096 in t.pages && p / 4096 < |m.mem| && p % 4096 == address % 4096
  {
    hide Lookup, Mapped, LayoutPage, LayoutFlags, PageModel.Valid;
    HeldLookup(cfg, m, t, address);
    var p := Lookup(m.mem, t.space, address).value.physical;
    var j :| 0 <= j < |t.pages| && p == t.pages[j] * 4096 + address % 4096;
    assert p / 4096 == t.pages[j];
    assert t.pages[j] in Elements(t.pages);
    assert t.pages[j] in PageModel.LiveSet(m.pages);
  }

  /** Different user addresses never meet in one physical byte. */
  lemma NoAliases(cfg: Config, m: Machine, t: Task, a: nat, b: nat)
    requires ConfigOk(cfg) && Held(cfg, m, t) && a != b
    requires Lookup(m.mem, t.space, a).Some? && Lookup(m.mem, t.space, b).Some?
    ensures Lookup(m.mem, t.space, a).value.physical != Lookup(m.mem, t.space, b).value.physical
  {
    hide Lookup, Mapped, LayoutPage, LayoutFlags;
    HeldLookup(cfg, m, t, a);
    HeldLookup(cfg, m, t, b);
    var x, y := Lookup(m.mem, t.space, a).value, Lookup(m.mem, t.space, b).value;
    var i :| 0 <= i < |t.pages| && LayoutPage(CodePages(cfg), i) == a / 4096 && x.physical == t.pages[i] * 4096 + a % 4096;
    var j :| 0 <= j < |t.pages| && LayoutPage(CodePages(cfg), j) == b / 4096 && y.physical == t.pages[j] * 4096 + b % 4096;
    assert x.physical / 4096 == t.pages[i] && y.physical / 4096 == t.pages[j];
  }

  ghost predicate WritableRange(mem: Memory, s: Space, address: nat, length: nat) {
    forall a :: address <= a < address + length ==> Permitted(mem, s, a, true)
  }

  /** What a process reads at one of its addresses. */
  function UserByte(mem: Memory, s: Space, address: nat): Option<nat> {
    match Lookup(mem, s, address) case None => None case Some(x) => Some(ReadByte(mem, x.physical))
  }

  lemma StoreByte(cfg: Config, m: Machine, t: Task, address: nat, b: nat)
    requires ConfigOk(cfg) && MachineOk(m) && Held(cfg, m, t) && b < 256 && Lookup(m.mem, t.space, address).Some?
    ensures var mem' := WriteByte(m.mem, Lookup(m.mem, t.space, address).value.physical, b);
            && OnlyPages(m.mem, mem', t)
            && (forall a: nat :: UserByte(mem', t.space, a) ==
                                 if a == address then Some(b) else UserByte(m.mem, t.space, a))
  {
    hide Lookup, Held, WriteByte, ReadByte, MachineOk;
    MemoryFine(m);
    PermittedPage(cfg, m, t, address);
    var p := Lookup(m.mem, t.space, address).value.physical;
    WriteByteFacts(m.mem, p, b);
    var mem' := WriteByte(m.mem, p, b);
    forall a: nat
      ensures UserByte(mem', t.space, a) == if a == address then Some(b) else UserByte(m.mem, t.space, a)
    {
      LookupAfter(cfg, m, mem', t, a);
      if a != address && Lookup(m.mem, t.space, a).Some? {
        NoAliases(cfg, m, t, a, address);
      }
    }
  }

  /** memcpy to an accepted buffer: no fault, only the caller's user pages change, and among all user
      addresses exactly the buffer changes, to exactly the bytes. */
  lemma {:induction false} CopyOutFacts(cfg: Config, m: Machine, t: Task, s: Space, address: nat, bytes: seq<nat>)
    requires ConfigOk(cfg) && MachineOk(m) && Held(cfg, m, t) && s.root == t.space.root
    requires forall k :: 0 <= k < |bytes| ==> bytes[k] < 256
    requires WritableRange(m.mem, t.space, address, |bytes|)
    ensures var r := CopyOut(m.mem, s, address, bytes);
            && r.Some? && OnlyPages(m.mem, r.value, t)
            && (forall a: nat :: UserByte(r.value, t.space, a) ==
                  if address <= a < address + |bytes| then Some(bytes[a - address]) else UserByte(m.mem, t.space, a))
    decreases |bytes|
  {
    hide Lookup, Held, WriteByte, UserByte, MachineOk;
    if bytes == [] {
      MemoryFine(m);
    } else {
      assert Permitted(m.mem, t.space, address, true);
      SameRoot(m.mem, s, t.space, address);
      StoreByte(cfg, m, t, address, bytes[0]);
      var mem1 := WriteByte(m.mem, Lookup(m.mem, t.space, address).value.physical, bytes[0]);
      HeldAfter(cfg, m, mem1, t);
      forall a | address + 1 <= a < address + |bytes|
        ensures Permitted(mem1, t.space, a, true)
      {
        assert Permitted(m.mem, t.space, a, true);
        LookupAfter(cfg, m, mem1, t, a);
      }
      CopyOutFacts(cfg, m.(mem := mem1), t, s, address + 1, bytes[1..]);
    }
  }

  /** Reading an accepted buffer cannot fault and returns what the process would read itself. */
  lemma {:induction false} CopyInFacts(mem: Memory, t: Task, s: Space, address: nat, length: nat)
    requires s.root == t.space.root
    requires forall a :: address <= a < address + length ==> Permitted(mem, t.space, a, false)
    ensures var r := CopyIn(mem, s, address, length);
            r.Some? && |r.value| == length &&
            forall a :: address <= a < address + length ==> UserByte(mem, t.space, a) == Some(r.value[a - address])
    decreases length
  {
    hide Lookup, ReadByte;
    if length > 0 {
      assert Permitted(mem, t.space, address, false);
      SameRoot(mem, s, t.space, address);
      CopyInFacts(mem, t, s, address + 1, length - 1);
      var rest := CopyIn(mem, s, address + 1, length - 1).value;
      var all := CopyIn(mem, s, address, length).value;
      forall a | address <= a < address + length
        ensures UserByte(mem, t.space, a) == Some(all[a - address])
      {
        if a > address {
          assert all[a - address] == rest[a - (address + 1)];
        }
      }
    }
  }
}
