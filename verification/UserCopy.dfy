/** The boundary between system calls and user memory: kernel/usercopy.c and the byte copies the
    kernel makes through user addresses. */
module UserCopy {
  import opened Words
  import opened PageTables

  const COPY_LIMIT: nat := 256

  predicate Permitted(mem: Memory, s: Space, address: nat, writing: bool) {
    match Lookup(mem, s, address)
    case None => false
    case Some(t) => t.rights.user && (writing ==> t.rights.write)
  }

  /** The loop of user_range with `checked` bytes behind it. */
  function RangeFrom(mem: Memory, s: Space, address: nat, length: nat, writing: bool, checked: nat): bool
    decreases length - checked
  {
    if checked >= length then true
    else if !Permitted(mem, s, address + checked, writing) then false
    else
      var step := 4096 - (address + checked) % 4096;
      RangeFrom(mem, s, address, length, writing, checked + if step > length - checked then length - checked else step)
  }

  /** user_range */
  function UserRange(mem: Memory, s: Space, address: nat, length: nat, writing: bool): bool {
    if length > COPY_LIMIT || address >= ADDRESS_LIMIT || length > ADDRESS_LIMIT - address then false
    else RangeFrom(mem, s, address, length, writing, 0)
  }

  function ReadByte(mem: Memory, physical: nat): nat {
    ByteOf(Word(mem, physical / 4096, physical % 4096 / 8), physical % 8)
  }

  function WriteByte(mem: Memory, physical: nat, b: nat): Memory {
    var i := physical % 4096 / 8;
    Store(mem, physical / 4096, i, SetByte(Word(mem, physical / 4096, i), physical % 8, b))
  }

  /** memcpy into a user buffer, byte by byte through the active tables. None is a page fault in
      kernel mode: an absent page, or a read-only one (CR0.WP is set). */
  function CopyOut(mem: Memory, s: Space, address: nat, bytes: seq<nat>): Option<Memory>
    decreases |bytes|
  {
    if bytes == [] then Some(mem)
    else match Lookup(mem, s, address)
      case None => None
      case Some(t) =>
        if t.rights.write then CopyOut(WriteByte(mem, t.physical, bytes[0]), s, address + 1, bytes[1..]) else None
  }

  /** Reading a user buffer the same way. */
  function CopyIn(mem: Memory, s: Space, address: nat, length: nat): Option<seq<nat>>
    decreases length
  {
    if length == 0 then Some([])
    else match Lookup(mem, s, address)
      case None => None
      case Some(t) =>
        match CopyIn(mem, s, address + 1, length - 1)
        case None => None
        case Some(rest) => Some([ReadByte(mem, t.physical)] + rest)
  }

  // ---- user_range is the per-byte check ----

  /** Translation rights belong to the page, not to the byte. */
  lemma SamePageSameRights(mem: Memory, s: Space, a: nat, b: nat, writing: bool)
    requires a / 4096 == b / 4096
    ensures Permitted(mem, s, a, writing) == Permitted(mem, s, b, writing)
  {
    hide Walk, Word, EntryRights, Present;
    assert a < ADDRESS_LIMIT <==> b < ADDRESS_LIMIT;
  }

  lemma {:induction false} RangeFromFacts(mem: Memory, s: Space, address: nat, length: nat, writing: bool, checked: nat)
    ensures RangeFrom(mem, s, address, length, writing, checked) <==>
            forall a :: address + checked <= a < address + length ==> Permitted(mem, s, a, writing)
    decreases length - checked
  {
    hide Permitted;
    if checked < length && Permitted(mem, s, address + checked, writing) {
      var step := 4096 - (address + checked) % 4096;
      var next := checked + if step > length - checked then length - checked else step;
      forall a | address + checked <= a < address + next
        ensures Permitted(mem, s, a, writing)
      {
        assert a / 4096 == (address + checked) / 4096;
        SamePageSameRights(mem, s, a, address + checked, writing);
      }
      RangeFromFacts(mem, s, address, length, writing, next);
    }
  }

  /** user_range accepts exactly when the length is at most 256, the range stays in the lower half and
      every single byte is mapped for user access, writable when writing. */
  lemma UserRangeFacts(mem: Memory, s: Space, address: nat, length: nat, writing: bool)
    ensures UserRange(mem, s, address, length, writing) <==>
            && length <= COPY_LIMIT && address < ADDRESS_LIMIT && address + length <= ADDRESS_LIMIT
            && (forall a :: address <= a < address + length ==> Permitted(mem, s, a, writing))
  {
    hide Permitted;
    RangeFromFacts(mem, s, address, length, writing, 0);
  }

  // ---- byte copies ----

  /** A physical address is its frame, its word and its byte. */
  lemma BytePlace(p: nat)
    ensures p == p / 4096 * 4096 + p % 4096 / 8 * 8 + p % 8 && p % 4096 / 8 < 512
  {
    var frame, offset := p / 4096, p % 4096;
    assert p == frame * 4096 + offset;
    assert p == 8 * (frame * 512 + offset / 8) + offset % 8;
    SameByte(frame * 512 + offset / 8, offset % 8);
  }

  lemma SameByte(word: nat, byte: nat)
    requires byte < 8
    ensures (8 * word + byte) % 8 == byte
  {
  }

  lemma WriteByteFacts(mem: Memory, physical: nat, b: nat)
    requires MemoryOk(mem) && physical / 4096 < |mem| && b < 256
    ensures var mem' := WriteByte(mem, physical, b);
            && MemoryOk(mem') && |mem'| == |mem|
            && (forall g :: 0 <= g < |mem| && g != physical / 4096 ==> mem'[g] == mem[g])
            && (forall p: nat :: ReadByte(mem', p) == if p == physical then b else ReadByte(mem, p))
  {
    hide SetByte, ByteOf;
    BytePlace(physical);
    forall p: nat
      ensures ReadByte(WriteByte(mem, physical, b), p) == if p == physical then b else ReadByte(mem, p)
    {
      BytePlace(p);
      WriteThenRead(mem, physical, b, p);
    }
  }

  lemma WriteThenRead(mem: Memory, physical: nat, b: nat, p: nat)
    requires MemoryOk(mem) && physical / 4096 < |mem| && b < 256 && physical % 4096 / 8 < 512
    requires p == p / 4096 * 4096 + p % 4096 / 8 * 8 + p % 8
    requires physical == physical / 4096 * 4096 + physical % 4096 / 8 * 8 + physical % 8
    ensures ReadByte(WriteByte(mem, physical, b), p) == if p == physical then b else ReadByte(mem, p)
  {
    hide SetByte, ByteOf;
    var frame, i := physical / 4096, physical % 4096 / 8;
    SetByteFacts(Word(mem, frame, i), physical % 8, b, p % 8);
    StoreThenWord(mem, frame, i, SetByte(Word(mem, frame, i), physical % 8, b), p / 4096, p % 4096 / 8);
  }

  lemma StoreThenWord(mem: Memory, frame: nat, i: nat, w: nat, g: nat, j: nat)
    requires MemoryOk(mem) && frame < |mem| && i < 512
    ensures Word(Store(mem, frame, i, w), g, j) == if g == frame && j == i then w else Word(mem, g, j)
  {
  }
}
