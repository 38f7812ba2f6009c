/** kernel/memory/page.c in place: a state array scanned by a cursor, and its construction from the
    boot loader's memory map. */
module PageAllocator {
  import opened Words
  import opened PageModel

  datatype MemoryEntry = MemoryEntry(base: nat, length: nat, usable: bool)

  /** A memory map as page_init receives it; a missing entry is a null pointer. Addresses and lengths are
      uint64_t. */
  type MemoryMap = seq<Option<MemoryEntry>>

  ghost predicate Wide(entries: MemoryMap) {
    forall i :: 0 <= i < |entries| && entries[i].Some? ==> entries[i].value.base < WORD_LIMIT && entries[i].value.length < WORD_LIMIT
  }

  // 64-bit arithmetic: the requirement is that it does not wrap.
  function Add64(a: nat, b: nat): nat requires a + b < WORD_LIMIT { a + b }
  function Mul4096(a: nat): nat requires a * 4096 < WORD_LIMIT { a * 4096 }

  predicate Usable(entries: MemoryMap, i: int) {
    0 <= i < |entries| && entries[i].Some? && entries[i].value.usable
  }

  function End(e: MemoryEntry): nat { e.base + e.length }

  /** What page_init demands of an entry: not null, and aligned without wrap-around when usable. */
  predicate EntryOk(entry: Option<MemoryEntry>) {
    entry.Some? && (entry.value.usable ==>
      entry.value.base % 4096 == 0 && entry.value.length % 4096 == 0 && End(entry.value) < WORD_LIMIT)
  }

  predicate EntriesOk(entries: MemoryMap) { forall i :: 0 <= i < |entries| ==> EntryOk(entries[i]) }

  /** The end of the highest usable entry, 0 when there is none. */
  function Highest(entries: MemoryMap): nat {
    if entries == [] then 0
    else
      var rest, last := Highest(entries[..|entries| - 1]), |entries| - 1;
      if Usable(entries, last) && End(entries[last].value) > rest then End(entries[last].value) else rest
  }

  function MetadataPages(frames: nat): nat { (frames + 4095) / 4096 }

  /** The state array takes the fewest pages that hold a byte for each frame. */
  lemma FewestPages(frames: nat)
    ensures frames <= MetadataPages(frames) * 4096 < frames + 4096
  {
  }

  function FirstByte(e: MemoryEntry): nat { if e.base == 0 then 4096 else e.base }

  /** Entry `i` can hold the state array without using frame 0. */
  predicate Room(entries: MemoryMap, i: int) {
    Usable(entries, i) && FirstByte(entries[i].value) + MetadataPages(Highest(entries) / 4096) * 4096 <= End(entries[i].value)
  }

  /** When page_init succeeds. */
  ghost predicate CanInit(entries: MemoryMap, hhdm: nat) {
    && EntriesOk(entries) && Highest(entries) > 0 && Highest(entries) - 1 + hhdm < WORD_LIMIT
    && exists i :: 0 <= i < |entries| && Room(entries, i)
  }

  /** Frame `f` lies in a usable entry among the first `n`. */
  ghost predicate InUsable(entries: MemoryMap, n: int, f: nat) {
    exists i :: 0 <= i < n && Usable(entries, i) && entries[i].value.base <= f * 4096 < End(entries[i].value)
  }

  ghost predicate NoOverlap(entries: MemoryMap) {
    forall i, j :: 0 <= i < j < |entries| && Usable(entries, i) && Usable(entries, j) ==>
      End(entries[i].value) <= entries[j].value.base || End(entries[j].value) <= entries[i].value.base
  }

  lemma {:induction false} HighestFacts(entries: MemoryMap)
    requires EntriesOk(entries)
    ensures Highest(entries) % 4096 == 0 && Highest(entries) < WORD_LIMIT
    ensures forall i :: 0 <= i < |entries| && Usable(entries, i) ==> End(entries[i].value) <= Highest(entries)
    decreases |entries|
  {
    if entries != [] {
      var before := entries[..|entries| - 1];
      assert forall i :: 0 <= i < |before| ==> before[i] == entries[i];
      HighestFacts(before);
      assert EntryOk(entries[|entries| - 1]);
      forall i | 0 <= i < |entries| && Usable(entries, i)
        ensures End(entries[i].value) <= Highest(entries)
      {
        if i < |before| {
          assert Usable(before, i);
        }
      }
    }
  }

  /** The sizes page_init computes fit in 64 bits, and the state array fits in its pages. */
  lemma MetadataFits(highest: nat)
    requires highest < WORD_LIMIT
    ensures var frames := highest / 4096;
            frames + 4095 < WORD_LIMIT && MetadataPages(frames) == Add64(frames, 4095) / 4096 && MetadataPages(frames) * 4096 < WORD_LIMIT && frames <= MetadataPages(frames) * 4096
  {
  }

  /** Where the state array goes: inside the entry, above frame 0, and reachable through the offset. */
  lemma RoomFacts(entries: MemoryMap, i: int, hhdm: nat)
    requires EntriesOk(entries) && Room(entries, i) && Highest(entries) > 0 && Highest(entries) - 1 + hhdm < WORD_LIMIT
    ensures var base := FirstByte(entries[i].value);
            var end := base + MetadataPages(Highest(entries) / 4096) * 4096;
            4096 <= base && entries[i].value.base <= base && end <= End(entries[i].value) && end < WORD_LIMIT && hhdm + base < WORD_LIMIT
  {
    HighestFacts(entries);
    assert EntryOk(entries[i]);
    assert Highest(entries) >= 4096;
    assert MetadataPages(Highest(entries) / 4096) >= 1;
  }

  /** A usable frame that page_init marks free: not frame 0 and not part of the state array. */
  predicate Spare(base: nat, end: nat, f: nat) { f != 0 && !(base <= f * 4096 < end) }

  lemma CountOneMore(states: seq<PageState>, f: nat)
    requires f < |states| && !states[f].Free?
    ensures CountFree(states[f := Free]) == CountFree(states) + 1
  {
    var p, q := Pages(states, 0, 0), Pages(states[f := Free], 0, 0);
    CountIsSize(p);
    CountIsSize(q);
    assert FreeSet(q) == FreeSet(p) + {f};
  }

  lemma {:induction false} CountNone(states: seq<PageState>)
    requires forall f :: 0 <= f < |states| ==> states[f].Unmanaged?
    ensures CountFree(states) == 0
  {
    if states != [] {
      CountNone(states[..|states| - 1]);
    }
  }

  class Allocator {
    var states: array<PageState>
    var free: nat
    var next: nat
    var hhdm: nat
    var metadataBase: nat
    var metadataPages: nat

    /** pages.states is null until page_init succeeds. */
    ghost predicate Uninitialised() reads this { states.Length == 0 }

    ghost predicate Consistent() reads this { Uninitialised() ==> free == 0 && next == 0 }

    ghost function Abs(): Pages reads this, states { Pages(states[..], free, next) }

    constructor ()
      ensures Uninitialised() && Consistent() && fresh(states)
    {
      states := new PageState[0];
      free, next, hhdm, metadataBase, metadataPages := 0, 0, 0, 0, 0;
    }

    /** The first pass of page_init: validate the entries and find the highest usable address. */
    static method FindHighest(entries: MemoryMap) returns (ok: bool, highest: nat)
      requires Wide(entries)
      ensures ok <==> EntriesOk(entries)
      ensures ok ==> highest == Highest(entries)
    {
      highest := 0;
      var i := 0;
      while i < |entries|
        invariant 0 <= i <= |entries|
        invariant EntriesOk(entries[..i]) && highest == Highest(entries[..i])
      {
        assert entries[..i + 1][..i] == entries[..i];
        if entries[i] == None { return false, 0; }
        var entry := entries[i].value;
        if entry.usable {
          if entry.base % 4096 != 0 || entry.length % 4096 != 0 || entry.length > WORD_LIMIT - 1 - entry.base {
            assert !EntryOk(entries[i]);
            return false, 0;
          }
          var end := Add64(entry.base, entry.length);
          if end > highest { highest := end; }
        }
        assert EntryOk(entries[i]);
        i := i + 1;
      }
      assert entries[..i] == entries;
      ok := true;
    }

    /** The second pass: the first usable entry with room for the state array. */
    static method FindMetadata(entries: MemoryMap, bytes: nat) returns (base: nat)
      requires EntriesOk(entries) && bytes == MetadataPages(Highest(entries) / 4096) * 4096
      ensures base == 0 <==> forall i :: 0 <= i < |entries| ==> !Room(entries, i)
      ensures base != 0 ==> exists i :: 0 <= i < |entries| && Room(entries, i) && base == FirstByte(entries[i].value) &&
                                        forall j :: 0 <= j < i ==> !Room(entries, j)
    {
      base := 0;
      var i := 0;
      while i < |entries|
        invariant 0 <= i <= |entries| && base == 0
        invariant forall j :: 0 <= j < i ==> !Room(entries, j)
      {
        assert EntryOk(entries[i]);
        var entry := entries[i].value;
        if entry.usable {
          var first := if entry.base == 0 then 4096 else entry.base;
          var end := Add64(entry.base, entry.length);
          if first <= end && bytes <= end - first {
            assert Room(entries, i);
            return first;
          }
        }
        assert !Room(entries, i);
        i := i + 1;
      }
    }

    /** One entry of the third pass: free every spare frame of it. */
    method MarkEntry(ghost entries: MemoryMap, n: nat, entry: MemoryEntry, base: nat, end: nat)
      requires EntriesOk(entries) && n < |entries| && entries[n] == Some(entry) && entry.usable
      requires states.Length == Highest(entries) / 4096
      requires Marked(entries, n, base, end)
      requires NoOverlap(entries) ==> free == CountFree(states[..])
      modifies this`free, states
      ensures Marked(entries, n + 1, base, end)
      ensures NoOverlap(entries) ==> free == CountFree(states[..])
    {
      hide Highest, InUsable, CountFree, NoOverlap;
      HighestFacts(entries);
      assert Usable(entries, n) && EntryOk(entries[n]);
      var last := Add64(entry.base, entry.length);
      var address := entry.base;
      while address < last
        invariant entry.base <= address <= last && address % 4096 == 0
        invariant forall f :: 0 <= f < states.Length ==>
          states[f] == if (InUsable(entries, n, f) || entry.base <= f * 4096 < address) && Spare(base, end, f) then Free else Unmanaged
        invariant NoOverlap(entries) ==> free == CountFree(states[..])
        decreases last - address
      {
        var f := address / 4096;
        if !(address == 0 || (address >= base && address < end)) {
          ghost var before := states[..];
          states[f] := Free;
          free := free + 1;
          assert states[..] == before[f := Free];
          if NoOverlap(entries) {
            NotYet(entries, n, f);
            assert !before[f].Free?;
            CountOneMore(before, f);
          }
        }
        address := Add64(address, 4096);
      }
      forall f | 0 <= f < states.Length
        ensures InUsable(entries, n + 1, f) <==> InUsable(entries, n, f) || entry.base <= f * 4096 < last
      {
        UsableStep(entries, n, f);
      }
    }

    static lemma NotYet(entries: MemoryMap, n: nat, f: nat)
      requires NoOverlap(entries) && Usable(entries, n) && entries[n].value.base <= f * 4096 < End(entries[n].value)
      ensures !InUsable(entries, n, f)
    {
    }

    static lemma UsableStep(entries: MemoryMap, n: nat, f: nat)
      requires n < |entries|
      ensures InUsable(entries, n + 1, f) <==>
              InUsable(entries, n, f) || (Usable(entries, n) && entries[n].value.base <= f * 4096 < End(entries[n].value))
    {
      if Usable(entries, n) && entries[n].value.base <= f * 4096 < End(entries[n].value) {
        assert 0 <= n < n + 1 && Usable(entries, n);
      }
      if InUsable(entries, n, f) {
        var i :| 0 <= i < n && Usable(entries, i) && entries[i].value.base <= f * 4096 < End(entries[i].value);
        assert 0 <= i < n + 1;
      }
    }

    /** Among the first `n` entries exactly the spare usable frames are free. */
    ghost predicate Marked(entries: MemoryMap, n: int, base: nat, end: nat)
      reads this, states
    {
      forall f :: 0 <= f < states.Length ==>
        states[f] == if InUsable(entries, n, f) && Spare(base, end, f) then Free else Unmanaged
    }

    /** The third pass, entry by entry. */
    method Populate(entries: MemoryMap, base: nat, end: nat)
      requires EntriesOk(entries) && states.Length == Highest(entries) / 4096 && free == 0
      requires forall f :: 0 <= f < states.Length ==> states[f].Unmanaged?
      modifies this`free, states
      ensures Marked(entries, |entries|, base, end)
      ensures NoOverlap(entries) ==> free == CountFree(states[..])
    {
      CountNone(states[..]);
      var n := 0;
      while n < |entries|
        invariant 0 <= n <= |entries|
        invariant Marked(entries, n, base, end)
        invariant NoOverlap(entries) ==> free == CountFree(states[..])
      {
        assert EntryOk(entries[n]);
        if entries[n].value.usable {
          MarkEntry(entries, n, entries[n].value, base, end);
        } else {
          forall f | 0 <= f < states.Length
            ensures InUsable(entries, n + 1, f) <==> InUsable(entries, n, f)
          {
            UsableStep(entries, n, f);
          }
        }
        n := n + 1;
      }
    }

    /** page_init. It succeeds exactly when every usable entry is aligned and the state array has room;
        then a frame is free iff it lies in a usable entry and is neither frame 0 nor part of the array,
        nothing is live, and, when usable entries do not overlap, the free count is exact. */
    method Init(entries: Option<MemoryMap>, offset: nat) returns (ok: bool)
      requires entries.Some? ==> Wide(entries.value)
      requires offset < WORD_LIMIT && Consistent()
      modifies this
      ensures ok <==> old(Uninitialised()) && entries.Some? && CanInit(entries.value, offset)
      ensures !ok ==> unchanged(this)
      ensures ok ==> fresh(states) && next == 0 && states.Length > 0
      ensures ok ==> states.Length == Highest(entries.value) / 4096 && metadataPages == MetadataPages(states.Length)
      ensures ok ==> states.Length <= metadataPages * 4096 && 4096 <= metadataBase
      ensures ok ==> exists i :: 0 <= i < |entries.value| && Usable(entries.value, i) &&
                                 entries.value[i].value.base <= metadataBase &&
                                 metadataBase + metadataPages * 4096 <= End(entries.value[i].value)
      ensures ok ==> Marked(entries.value, |entries.value|, metadataBase, metadataBase + metadataPages * 4096)
      ensures ok && NoOverlap(entries.value) ==> Valid(Abs()) && LiveSet(Abs()) == {}
    {
      hide Highest, InUsable, CountFree, CanInit, NoOverlap;
      if states.Length != 0 || entries == None { return false; }
      var frames, count, base;
      ok, frames, count, base := Plan(entries.value, offset);
      if !ok { return; }
      states := new PageState[frames](_ => Unmanaged);
      metadataBase, metadataPages, hhdm := base, count, offset;
      Populate(entries.value, base, Add64(base, Mul4096(count)));
    }

    /** Everything page_init decides before it writes: the number of frames, and where the state array
        goes. All of it stays within 64 bits. */
    static method Plan(entries: MemoryMap, offset: nat) returns (ok: bool, frames: nat, count: nat, base: nat)
      requires Wide(entries) && offset < WORD_LIMIT
      ensures ok <==> CanInit(entries, offset)
      ensures ok ==> EntriesOk(entries) && frames == Highest(entries) / 4096 && frames > 0
      ensures ok ==> count == MetadataPages(frames) && frames <= count * 4096 && 4096 <= base
      ensures ok ==> base + count * 4096 < WORD_LIMIT && offset + base < WORD_LIMIT
      ensures ok ==> exists i :: 0 <= i < |entries| && Usable(entries, i) && entries[i].value.base <= base &&
                                 base + count * 4096 <= End(entries[i].value)
    {
      hide Highest, EntryOk, MetadataPages;
      ok, frames, count, base := false, 0, 0, 0;
      var valid, highest := FindHighest(entries);
      if !valid { return; }
      HighestFacts(entries);
      if highest == 0 || highest - 1 > WORD_LIMIT - 1 - offset { return; }
      MetadataFits(highest);
      frames := highest / 4096;
      count := Add64(frames, 4095) / 4096;
      base := FindMetadata(entries, Mul4096(count));
      if base == 0 { return; }
      ghost var i :| 0 <= i < |entries| && Room(entries, i) && base == FirstByte(entries[i].value);
      RoomFacts(entries, i, offset);
      UsableRoom(entries, i);
      ok := true;
    }

    static lemma UsableRoom(entries: MemoryMap, i: int)
      requires Room(entries, i)
      ensures Usable(entries, i)
    {
    }

    /** page_alloc: the scan in place is the scan of the model, and the cursor goes to the frame after the
        one taken. */
    method Allocate() returns (r: Option<nat>)
      requires Consistent() && (!Uninitialised() ==> Valid(Abs()))
      modifies this`free, this`next, states
      ensures var (p, f) := Alloc(old(Abs()));
              Abs() == p && r == (if f.Some? then Some(f.value * 4096) else None)
      ensures match r
              case None => next == old(next)
              case Some(address) =>
                (address % 4096 == 0 && next == if address / 4096 + 1 == states.Length then 0 else address / 4096 + 1)
    {
      if states.Length == 0 || free == 0 { return None; }
      var frame := next;
      var checked := 0;
      while checked < states.Length
        invariant 0 <= checked <= states.Length && 0 <= frame < states.Length
        invariant Abs() == old(Abs())
        invariant Scan(states[..], next, 0) == Scan(states[..], frame, checked)
      {
        if states[frame].Free? {
          states[frame] := Allocated;
          free := free - 1;
          next := if frame + 1 == states.Length then 0 else frame + 1;
          return Some(frame * 4096);
        }
        frame := frame + 1;
        if frame == states.Length { frame := 0; }
        checked := checked + 1;
      }
      return None;
    }

    /** page_free */
    method Deallocate(address: nat) returns (ok: bool)
      modifies this`free, states
      ensures match Release(old(Abs()), address)
              case None => !ok && Abs() == old(Abs())
              case Some(p) => ok && Abs() == p
    {
      if address % 4096 != 0 || address / 4096 >= states.Length || !states[address / 4096].Allocated? { return false; }
      states[address / 4096] := Free;
      free := free + 1;
      return true;
    }

    /** page_data: whether a pointer is answered. */
    method Data(address: nat) returns (ok: bool)
      ensures ok <==> PageData(Abs(), address)
    {
      return address % 4096 == 0 && address / 4096 < states.Length && states[address / 4096].Allocated?;
    }
  }
}
