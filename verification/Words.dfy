/** 64-bit words: page-table entries (kernel/memory/vm.c, sections 4.5 and 4.6 of
    Intel SDM Volume 3A) and the bytes a word holds in little-endian order. */
module Words {
  datatype Option<+T> = None | Some(value: T)

  const WORD_LIMIT: nat := 0x1_0000_0000_0000_0000
  const FRAME_LIMIT: nat := 0x100_0000_0000

  /** What an entry, or a whole walk, lets user code do. */
  datatype Rights = Rights(write: bool, user: bool, exec: bool) {
    function Meet(other: Rights): Rights {
      Rights(write && other.write, user && other.user, exec && other.exec)
    }

    /** The VM_WRITE | VM_USER | VM_EXEC encoding of include/vm.h. */
    function Bits(): (r: nat)
      ensures r < 8 && RightsOf(r) == this
    {
      (if write then 1 else 0) + (if user then 2 else 0) + (if exec then 4 else 0)
    }
  }

  const ALL_RIGHTS := Rights(true, true, true)

  function RightsOf(flags: nat): Rights {
    Rights(flags % 2 == 1, flags / 2 % 2 == 1, flags / 4 % 2 == 1)
  }

  predicate Present(w: nat) { w % 2 == 1 }
  predicate Writable(w: nat) { w / 2 % 2 == 1 }
  predicate UserBit(w: nat) { w / 4 % 2 == 1 }
  predicate Large(w: nat) { w / 128 % 2 == 1 }
  predicate NoExecute(w: nat) { w / 0x8000_0000_0000_0000 % 2 == 1 }
  function FrameOf(w: nat): nat { w / 4096 % 0x100_0000_0000 }

  // A single-bit `|=` leaves a word alone when the bit is already set.
  function OrPresent(w: nat): nat { if Present(w) then w else w + 1 }
  function OrWrite(w: nat): nat { if Writable(w) then w else w + 2 }
  function OrUser(w: nat): nat { if UserBit(w) then w else w + 4 }
  function OrNoExecute(w: nat): nat { if NoExecute(w) then w else w + 0x8000_0000_0000_0000 }
  function ClearUser(w: nat): nat { if UserBit(w) then w - 4 else w }

  function EntryRights(w: nat): Rights { Rights(Writable(w), UserBit(w), !NoExecute(w)) }

  /** The entry vm_map puts in a parent: it permits every access below it. */
  function TableWord(frame: nat): nat { OrUser(OrWrite(OrPresent(frame * 4096))) }

  /** The entry vm_map puts in a leaf table. */
  function LeafWord(frame: nat, rights: Rights): nat {
    var present := OrPresent(frame * 4096);
    var write := if rights.write then OrWrite(present) else present;
    var user := if rights.user then OrUser(write) else write;
    if rights.exec then user else OrNoExecute(user)
  }

  lemma TableWordFacts(frame: nat)
    requires frame < FRAME_LIMIT
    ensures var w := TableWord(frame);
            Present(w) && !Large(w) && FrameOf(w) == frame && EntryRights(w) == ALL_RIGHTS && w < WORD_LIMIT
  {
    WordFields(frame, 7, 0);
    NotLarge(frame);
    OrAll(frame * 4096);
  }

  lemma TableWordValue(frame: nat)
    ensures TableWord(frame) == frame * 4096 + 7
  {
    OrAll(frame * 4096);
  }

  lemma OrAll(w: nat)
    requires w % 4096 == 0
    ensures OrUser(OrWrite(OrPresent(w))) == w + 7
  {
  }

  lemma NotLarge(frame: nat)
    ensures !Large(frame * 4096 + 7)
  {
    assert (frame * 4096 + 7) / 128 == frame * 32;
  }

  lemma LeafWordFacts(frame: nat, rights: Rights)
    requires frame < FRAME_LIMIT
    ensures var w := LeafWord(frame, rights);
            Present(w) && FrameOf(w) == frame && EntryRights(w) == rights && w < WORD_LIMIT
  {
    hide LeafWord, FrameOf;
    var low := 1 + (if rights.write then 2 else 0) + (if rights.user then 4 else 0);
    WordFields(frame, low, if rights.exec then 0 else 1);
    LeafWordValue(frame, rights);
  }

  lemma LeafWordValue(frame: nat, rights: Rights)
    requires frame < FRAME_LIMIT
    ensures LeafWord(frame, rights) ==
            frame * 4096 + 1 + (if rights.write then 2 else 0) + (if rights.user then 4 else 0) +
            (if rights.exec then 0 else 0x8000_0000_0000_0000)
  {
    var w := frame * 4096;
    assert !Present(w) && !Writable(w + 1) && !UserBit(w + 1) && !UserBit(w + 3);
    assert frame * 4096 + 7 < 0x8000_0000_0000_0000;
  }

  lemma WordFields(frame: nat, low: nat, nx: nat)
    requires frame < FRAME_LIMIT && low < 8 && nx < 2
    ensures var w := nx * 0x8000_0000_0000_0000 + frame * 4096 + low;
            w % 2 == low % 2 && w / 2 % 2 == low / 2 % 2 && w / 4 % 2 == low / 4 &&
            FrameOf(w) == frame && w / 0x8000_0000_0000_0000 == nx
  {
    var w := nx * 0x8000_0000_0000_0000 + frame * 4096 + low;
    assert w / 4096 == nx * 0x8_0000_0000_0000 + frame;
    assert w / 4096 == 0x100_0000_0000 * (nx * 0x800) + frame;
    LowFields(nx * 0x1000_0000_0000_0000 + frame * 512, low);
  }

  /** Words that agree above their low three bits agree in every field up there. */
  lemma SameHighFields(a: nat, b: nat)
    requires a / 8 == b / 8
    ensures Large(a) == Large(b) && FrameOf(a) == FrameOf(b) && NoExecute(a) == NoExecute(b)
  {
    assert a / 128 == a / 8 / 16 && b / 128 == b / 8 / 16;
    assert a / 4096 == a / 8 / 512 && b / 4096 == b / 8 / 512;
    assert a / 0x8000_0000_0000_0000 == a / 8 / 0x1000_0000_0000_0000 && b / 0x8000_0000_0000_0000 == b / 8 / 0x1000_0000_0000_0000;
  }

  lemma LowFields(q: nat, r: nat)
    requires r < 8
    ensures var w := 8 * q + r;
            w / 8 == q && Present(w) == (r % 2 == 1) && Writable(w) == (r / 2 % 2 == 1) && UserBit(w) == (r >= 4)
  {
    LowBit(4 * q, r);
    LowBit(2 * q, r / 2);
    LowBit(q, r / 4);
    Quotients(q, r);
  }

  lemma LowBit(half: nat, r: nat)
    ensures (2 * half + r) % 2 == r % 2 && (2 * half + r) / 2 == half + r / 2
  {
  }

  lemma Quotients(q: nat, r: nat)
    requires r < 8
    ensures (8 * q + r) / 8 == q && (8 * q + r) / 4 == 2 * q + r / 4
  {
  }

  /** Clearing the user bit of a copied kernel entry touches no other field. */
  lemma ClearUserFacts(w: nat)
    ensures var c := ClearUser(w);
            !UserBit(c) && Present(c) == Present(w) && Writable(c) == Writable(w) &&
            Large(c) == Large(w) && FrameOf(c) == FrameOf(w) && NoExecute(c) == NoExecute(w)
  {
    hide Present, Writable, UserBit, Large, FrameOf, NoExecute;
    var q, r := w / 8, w % 8;
    LowFields(q, r);
    if r >= 4 {
      LowFields(q, r - 4);
      SameHighFields(8 * q + (r - 4), 8 * q + r);
    }
  }

  // ---- the bytes of a word ----

  function ByteOf(w: nat, k: nat): nat {
    if k == 0 then w % 256 else ByteOf(w / 256, k - 1)
  }

  function SetByte(w: nat, k: nat, b: nat): nat {
    if k == 0 then w / 256 * 256 + b else w % 256 + 256 * SetByte(w / 256, k - 1, b)
  }

  lemma {:induction false} SetByteFacts(w: nat, k: nat, b: nat, j: nat)
    requires b < 256
    ensures ByteOf(SetByte(w, k, b), j) == if j == k then b else ByteOf(w, j)
  {
    var s := SetByte(w, k, b);
    if k == 0 {
      assert s % 256 == b && s / 256 == w / 256;
    } else {
      assert s % 256 == w % 256 && s / 256 == SetByte(w / 256, k - 1, b);
      if j > 0 {
        SetByteFacts(w / 256, k - 1, b, j - 1);
      }
    }
  }

  lemma {:induction false} ZeroBytes(k: nat)
    ensures ByteOf(0, k) == 0
  {
    if k > 0 {
      ZeroBytes(k - 1);
    }
  }

  /** The eight bytes memcpy takes from a uint64_t. */
  function LittleEndian(w: nat): (r: seq<nat>)
    ensures |r| == 8 && forall k :: 0 <= k < 8 ==> r[k] == ByteOf(w, k)
  {
    seq(8, k requires 0 <= k => ByteOf(w, k))
  }

  lemma {:induction false} ByteBound(w: nat, k: nat)
    ensures ByteOf(w, k) < 256
  {
    if k > 0 {
      ByteBound(w / 256, k - 1);
    }
  }

  // ---- sequences used as sets of frames ----

  function Elements(s: seq<nat>): set<nat> { set f | f in s }

  ghost predicate Distinct(s: seq<nat>) {
    forall i, j :: 0 <= i < j < |s| ==> s[i] != s[j]
  }

  lemma DistinctTail(s: seq<nat>)
    requires Distinct(s) && s != []
    ensures Distinct(s[1..]) && s[0] !in Elements(s[1..]) && Elements(s) == Elements(s[1..]) + {s[0]}
  {
    assert s == [s[0]] + s[1..];
  }

  lemma DistinctFront(s: seq<nat>)
    requires Distinct(s) && s != []
    ensures var last := |s| - 1;
            Distinct(s[..last]) && s[last] !in Elements(s[..last]) && Elements(s) == Elements(s[..last]) + {s[last]}
  {
    assert s == s[..|s| - 1] + [s[|s| - 1]];
  }

  lemma {:induction false} DistinctCount(s: seq<nat>)
    requires Distinct(s)
    ensures |Elements(s)| == |s|
  {
    if s == [] {
      assert Elements(s) == {};
    } else {
      DistinctFront(s);
      DistinctCount(s[..|s| - 1]);
    }
  }
}
