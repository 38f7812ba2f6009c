/** The physical page allocator of kernel/memory/page.c as a value: a state per frame, a free
    count and a next-fit cursor. Its meaning is two disjoint sets of frames, free and live. */
module PageModel {
  import opened Words

  datatype PageState = Unmanaged | Free | Allocated
  datatype Pages = Pages(states: seq<PageState>, free: nat, next: nat)

  ghost function FreeSet(p: Pages): set<nat> { set f | 0 <= f < |p.states| && p.states[f].Free? }
  ghost function LiveSet(p: Pages): set<nat> { set f | 0 <= f < |p.states| && p.states[f].Allocated? }

  function CountFree(states: seq<PageState>): nat {
    if states == [] then 0
    else CountFree(states[..|states| - 1]) + if states[|states| - 1].Free? then 1 else 0
  }

  ghost predicate Valid(p: Pages) { p.next < |p.states| && p.free == CountFree(p.states) }

  lemma LastState(p: Pages, q: Pages)
    requires p.states != [] && q == p.(states := p.states[..|p.states| - 1])
    ensures var last := |p.states| - 1;
            last !in FreeSet(q) && FreeSet(p) == if p.states[last].Free? then FreeSet(q) + {last} else FreeSet(q)
  {
  }

  lemma {:induction false} CountIsSize(p: Pages)
    ensures CountFree(p.states) == |FreeSet(p)|
    decreases |p.states|
  {
    var last := |p.states| - 1;
    if p.states == [] {
      assert FreeSet(p) == {};
    } else {
      var q := p.(states := p.states[..last]);
      CountIsSize(q);
      LastState(p, q);
    }
  }

  function After(frame: nat, count: nat): nat { if frame + 1 == count then 0 else frame + 1 }

  /** The scan of page_alloc after `checked` frames have been refused. */
  function Scan(states: seq<PageState>, frame: nat, checked: nat): Option<nat>
    requires frame < |states| && checked <= |states|
    decreases |states| - checked
  {
    if checked == |states| then None
    else if states[frame].Free? then Some(frame)
    else Scan(states, After(frame, |states|), checked + 1)
  }

  /** page_alloc. A cursor outside the states stands for an allocator with no state array. */
  function Alloc(p: Pages): (Pages, Option<nat>) {
    if p.free == 0 || p.next >= |p.states| then (p, None)
    else match Scan(p.states, p.next, 0)
      case None => (p, None)
      case Some(f) =>
        if f < |p.states|
        then (Pages(p.states[f := Allocated], p.free - 1, After(f, |p.states|)), Some(f))
        else (p, None)
  }

  /** page_data answers a pointer exactly for a live page. */
  predicate PageData(p: Pages, address: nat) {
    address % 4096 == 0 && address / 4096 < |p.states| && p.states[address / 4096].Allocated?
  }

  /** page_free */
  function Release(p: Pages, address: nat): Option<Pages> {
    if PageData(p, address)
    then Some(p.(states := p.states[address / 4096 := Free], free := p.free + 1))
    else None
  }

  /** How far the cursor is from a frame, going forward and around. */
  function Distance(from: nat, to: nat, count: nat): int {
    if from <= to then to - from else to + count - from
  }

  lemma {:induction false} ScanFacts(states: seq<PageState>, frame: nat, checked: nat)
    requires frame < |states| && checked <= |states|
    ensures match Scan(states, frame, checked)
      case None =>
        forall g :: 0 <= g < |states| && Distance(frame, g, |states|) < |states| - checked ==> !states[g].Free?
      case Some(f) =>
        && f < |states| && states[f].Free?
        && (forall g :: 0 <= g < |states| && states[g].Free? && Distance(frame, g, |states|) < |states| - checked
              ==> Distance(frame, f, |states|) <= Distance(frame, g, |states|))
    decreases |states| - checked
  {
    if checked < |states| && !states[frame].Free? {
      var n := After(frame, |states|);
      ScanFacts(states, n, checked + 1);
      assert forall g | 0 <= g < |states| && g != frame ::
          Distance(n, g, |states|) == Distance(frame, g, |states|) - 1;
    }
  }

  /** `p'` is `p` with the frames `taken` moved from free to live. */
  ghost predicate Took(p: Pages, p': Pages, taken: set<nat>) {
    && |p'.states| == |p.states|
    && taken <= FreeSet(p)
    && FreeSet(p') == FreeSet(p) - taken
    && LiveSet(p') == LiveSet(p) + taken
    && Valid(p')
  }

  lemma FreeAndLiveDisjoint(p: Pages)
    ensures FreeSet(p) !! LiveSet(p)
  {
  }

  /** The two sets say everything the state array says. */
  lemma SetsDetermineStates(p: Pages, q: Pages)
    requires |p.states| == |q.states| && FreeSet(p) == FreeSet(q) && LiveSet(p) == LiveSet(q)
    ensures p.states == q.states
  {
    forall f | 0 <= f < |p.states|
      ensures p.states[f] == q.states[f]
    {
      assert (f in FreeSet(p)) == (f in FreeSet(q));
      assert (f in LiveSet(p)) == (f in LiveSet(q));
    }
  }

  lemma TookNothing(p: Pages)
    requires Valid(p)
    ensures Took(p, p, {})
  {
  }

  lemma TookTransitive(p: Pages, q: Pages, r: Pages, a: set<nat>, b: set<nat>)
    requires Took(p, q, a) && Took(q, r, b)
    ensures Took(p, r, a + b) && a !! b
  {
  }

  /** page_alloc succeeds iff a page is free; it takes the free frame nearest the cursor and
      nothing else, and the cursor goes to the frame after it, around the end. */
  lemma AllocFacts(p: Pages)
    requires Valid(p)
    ensures var (p', r) := Alloc(p);
            match r
            case None => p.free == 0 && p' == p
            case Some(f) =>
              && p.free > 0
              && Took(p, p', {f})
              && p'.free == p.free - 1
              && f in FreeSet(p) && f !in LiveSet(p) && f < |p.states|
              && p'.next == (if f + 1 == |p.states| then 0 else f + 1)
              && (forall g :: g in FreeSet(p) ==> Distance(p.next, f, |p.states|) <= Distance(p.next, g, |p.states|))
  {
    ScanFacts(p.states, p.next, 0);
    CountIsSize(p);
    if p.free > 0 {
      var g :| g in FreeSet(p);
      assert Distance(p.next, g, |p.states|) < |p.states|;
      var f := Alloc(p).1.value;
      var p' := Alloc(p).0;
      assert FreeSet(p') == FreeSet(p) - {f};
      assert LiveSet(p') == LiveSet(p) + {f};
      CountIsSize(p');
    }
  }

  /** Next fit, seen without the cursor: while another page is free, a page just given back is not the one
      handed out next. */
  lemma JustFreedWaits(p: Pages)
    requires Valid(p) && p.free > 1
    ensures var (p1, a) := Alloc(p);
            && a.Some? && Release(p1, a.value * 4096).Some?
            && var (p3, b) := Alloc(Release(p1, a.value * 4096).value);
               b.Some? && b != a
  {
    hide Scan, CountFree;
    AllocFacts(p);
    var (p1, a) := Alloc(p);
    var f := a.value;
    ReleaseFacts(p1, f);
    var p2 := Release(p1, f * 4096).value;
    assert FreeSet(p2) == FreeSet(p);
    AllocFacts(p2);
    CountIsSize(p2);
    assert |FreeSet(p2) - {f}| == |FreeSet(p2)| - 1;
    var g :| g in FreeSet(p2) - {f};
    assert Distance(p2.next, g, |p2.states|) < Distance(p2.next, f, |p2.states|);
  }

  /** page_free accepts exactly a live page and makes it free; a refusal changes nothing. */
  lemma ReleaseFacts(p: Pages, f: nat)
    requires Valid(p)
    ensures Release(p, f * 4096).Some? <==> f in LiveSet(p)
    ensures f in LiveSet(p) ==>
              var q := Release(p, f * 4096).value;
              Valid(q) && |q.states| == |p.states| && q.next == p.next && q.free == p.free + 1 &&
              FreeSet(q) == FreeSet(p) + {f} && LiveSet(q) == LiveSet(p) - {f}
  {
    assert f * 4096 / 4096 == f;
    if f in LiveSet(p) {
      var q := Release(p, f * 4096).value;
      assert FreeSet(q) == FreeSet(p) + {f};
      assert LiveSet(q) == LiveSet(p) - {f};
      CountIsSize(p);
      CountIsSize(q);
    }
  }

  // ---- freeing a recorded list ----

  /** The ascending loop of release_pages; None is its ownership panic. */
  function ReleaseAll(p: Pages, frames: seq<nat>): Option<Pages>
    decreases |frames|
  {
    if frames == [] then Some(p)
    else match Release(p, frames[0] * 4096)
      case None => None
      case Some(q) => ReleaseAll(q, frames[1..])
  }

  /** The descending loop of vm_destroy. */
  function ReleaseBack(p: Pages, frames: seq<nat>): Option<Pages>
    decreases |frames|
  {
    if frames == [] then Some(p)
    else match Release(p, frames[|frames| - 1] * 4096)
      case None => None
      case Some(q) => ReleaseBack(q, frames[..|frames| - 1])
  }

  /** `q` is `p` with the frames `given` moved from live to free. */
  ghost predicate Gave(p: Pages, q: Pages, given: set<nat>) {
    && |q.states| == |p.states|
    && given <= LiveSet(p)
    && FreeSet(q) == FreeSet(p) + given
    && LiveSet(q) == LiveSet(p) - given
    && q.next == p.next
    && Valid(q)
  }

  lemma ReleaseOne(p: Pages, frames: seq<nat>, f: nat, rest: seq<nat>) returns (q: Pages)
    requires Valid(p) && Elements(frames) <= LiveSet(p)
    requires Elements(frames) == Elements(rest) + {f} && f !in Elements(rest)
    ensures Release(p, f * 4096) == Some(q) && Gave(p, q, {f}) && Elements(rest) <= LiveSet(q)
  {
    assert f in Elements(frames);
    ReleaseFacts(p, f);
    q := Release(p, f * 4096).value;
  }

  lemma {:induction false} ReleaseAllFacts(p: Pages, frames: seq<nat>)
    requires Valid(p) && Distinct(frames) && Elements(frames) <= LiveSet(p)
    ensures ReleaseAll(p, frames).Some? && Gave(p, ReleaseAll(p, frames).value, Elements(frames))
    decreases |frames|
  {
    if frames == [] {
      assert Elements(frames) == {};
    } else {
      var f, rest := frames[0], frames[1..];
      DistinctTail(frames);
      var q := ReleaseOne(p, frames, f, rest);
      ReleaseAllFacts(q, rest);
      GaveBoth(p, q, ReleaseAll(q, rest).value, {f}, Elements(rest));
    }
  }

  lemma {:induction false} ReleaseBackFacts(p: Pages, frames: seq<nat>)
    requires Valid(p) && Distinct(frames) && Elements(frames) <= LiveSet(p)
    ensures ReleaseBack(p, frames).Some? && Gave(p, ReleaseBack(p, frames).value, Elements(frames))
    decreases |frames|
  {
    if frames == [] {
      assert Elements(frames) == {};
    } else {
      var f, rest := frames[|frames| - 1], frames[..|frames| - 1];
      DistinctFront(frames);
      var q := ReleaseOne(p, frames, f, rest);
      ReleaseBackFacts(q, rest);
      GaveBoth(p, q, ReleaseBack(q, rest).value, {f}, Elements(rest));
    }
  }

  /** Both loops succeed exactly when the list names live pages, each once. */
  lemma ReleasedExactly(p: Pages, frames: seq<nat>)
    requires Valid(p)
    ensures ReleaseAll(p, frames).Some? <==> Distinct(frames) && Elements(frames) <= LiveSet(p)
    ensures ReleaseBack(p, frames).Some? <==> Distinct(frames) && Elements(frames) <= LiveSet(p)
  {
    hide Distinct, ReleaseAll, ReleaseBack;
    if Distinct(frames) && Elements(frames) <= LiveSet(p) {
      ReleaseAllFacts(p, frames);
      ReleaseBackFacts(p, frames);
    }
    if ReleaseAll(p, frames).Some? {
      ReleaseAllOnlyLive(p, frames);
    }
    if ReleaseBack(p, frames).Some? {
      ReleaseBackOnlyLive(p, frames);
    }
  }

  lemma {:induction false} ReleaseAllOnlyLive(p: Pages, frames: seq<nat>)
    requires Valid(p) && ReleaseAll(p, frames).Some?
    ensures Distinct(frames) && Elements(frames) <= LiveSet(p)
    decreases |frames|
  {
    if frames != [] {
      var f, rest := frames[0], frames[1..];
      ReleaseFacts(p, f);
      var q := Release(p, f * 4096).value;
      ReleaseAllOnlyLive(q, rest);
      assert frames == [f] + rest;
      assert f !in LiveSet(q) && f !in Elements(rest);
      assert Elements(frames) == Elements(rest) + {f};
      assert LiveSet(q) <= LiveSet(p);
    }
  }

  lemma {:induction false} ReleaseBackOnlyLive(p: Pages, frames: seq<nat>)
    requires Valid(p) && ReleaseBack(p, frames).Some?
    ensures Distinct(frames) && Elements(frames) <= LiveSet(p)
    decreases |frames|
  {
    if frames != [] {
      var f, rest := frames[|frames| - 1], frames[..|frames| - 1];
      ReleaseFacts(p, f);
      var q := Release(p, f * 4096).value;
      ReleaseBackOnlyLive(q, rest);
      assert frames == rest + [f];
      assert f !in LiveSet(q) && f !in Elements(rest);
      assert Elements(frames) == Elements(rest) + {f};
      assert LiveSet(q) <= LiveSet(p);
    }
  }

  lemma GaveBack(p: Pages, q: Pages, r: Pages, taken: set<nat>)
    requires Valid(p) && Took(p, q, taken) && Gave(q, r, taken)
    ensures r.states == p.states && r.free == p.free
  {
    assert FreeSet(r) == FreeSet(p);
    assert LiveSet(r) == LiveSet(p);
    SetsDetermineStates(r, p);
  }

  lemma GaveBoth(p: Pages, q: Pages, r: Pages, a: set<nat>, b: set<nat>)
    requires Gave(p, q, a) && Gave(q, r, b)
    ensures Gave(p, r, a + b)
  {
  }

  /** The managed frames split into free and live ones. */
  lemma ManagedCount(p: Pages)
    requires Valid(p)
    ensures p.free + |LiveSet(p)| == |FreeSet(p) + LiveSet(p)|
  {
    FreeAndLiveDisjoint(p);
    CountIsSize(p);
  }

  // ---- any sequence of calls ----

  datatype Call = AllocCall | FreeCall(address: nat)

  /** One call on the model: the new state, and the frame an allocation answers. */
  function AfterCall(p: Pages, call: Call): (Pages, Option<nat>) {
    match call
    case AllocCall => Alloc(p)
    case FreeCall(address) => match Release(p, address) case None => (p, None) case Some(q) => (q, None)
  }

  function AfterCalls(p: Pages, calls: seq<Call>): Pages
    decreases |calls|
  {
    if calls == [] then p else AfterCall(AfterCalls(p, calls[..|calls| - 1]), calls[|calls| - 1]).0
  }

  /** The abstract allocator: a set of live frames inside a fixed set of managed ones. */
  ghost function AbstractLive(p: Pages, calls: seq<Call>): set<nat>
    decreases |calls|
  {
    if calls == [] then LiveSet(p)
    else
      var before, call := calls[..|calls| - 1], calls[|calls| - 1];
      var live := AbstractLive(p, before);
      match call
      case AllocCall => (match Alloc(AfterCalls(p, before)).1 case None => live case Some(f) => live + {f})
      case FreeCall(address) => if address % 4096 == 0 then live - {address / 4096} else live
  }

  /** Over any sequence of calls the state array is exactly the abstract set: an allocation answers a
      managed frame that is not live, refuses only when every managed frame is live, and a free takes
      away exactly the named live frame or nothing. */
  lemma {:induction false} CallsRefine(p: Pages, calls: seq<Call>)
    requires Valid(p)
    ensures var q := AfterCalls(p, calls);
            && Valid(q) && |q.states| == |p.states|
            && LiveSet(q) == AbstractLive(p, calls) && FreeSet(q) + LiveSet(q) == FreeSet(p) + LiveSet(p)
            && (match Alloc(q).1
                case None => FreeSet(p) + LiveSet(p) == AbstractLive(p, calls)
                case Some(f) => f in FreeSet(p) + LiveSet(p) && f !in AbstractLive(p, calls))
    decreases |calls|
  {
    hide Alloc, Release, Scan;
    if calls != [] {
      var before, call := calls[..|calls| - 1], calls[|calls| - 1];
      CallsRefine(p, before);
      OneCall(AfterCalls(p, before), call);
    }
    NextAlloc(AfterCalls(p, calls));
  }

  lemma NextAlloc(q: Pages)
    requires Valid(q)
    ensures match Alloc(q).1
            case None => FreeSet(q) == {}
            case Some(f) => f in FreeSet(q) && f !in LiveSet(q)
  {
    AllocFacts(q);
    CountIsSize(q);
  }

  lemma OneCall(q: Pages, call: Call)
    requires Valid(q)
    ensures var (r, answer) := AfterCall(q, call);
            && Valid(r) && |r.states| == |q.states| && FreeSet(r) + LiveSet(r) == FreeSet(q) + LiveSet(q)
            && LiveSet(r) == match call
               case AllocCall => (match Alloc(q).1 case None => LiveSet(q) case Some(f) => LiveSet(q) + {f})
               case FreeCall(address) => if address % 4096 == 0 then LiveSet(q) - {address / 4096} else LiveSet(q)
  {
    match call
    case AllocCall => AllocFacts(q);
    case FreeCall(address) =>
      if address % 4096 == 0 {
        assert address == address / 4096 * 4096;
        ReleaseFacts(q, address / 4096);
      }
  }
}
