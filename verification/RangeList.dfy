/**
 The kernel's runtime frame allocator: up to 64 free ranges in a fixed array, merged by a full
 coalesce after every free.
 */
module RangeList {
  import opened Machine
  import opened Frames

  datatype Region = Region(start: nat, end: nat)

  type Slot = Option<Region>

  predicate Within(r: Region, f: nat) {
    r.start <= f < r.end
  }

  // ---- what a list of regions stands for ----

  function Covered(s: seq<Slot>): (free: set<nat>) {
    if s == [] then {}
    else
      var last := s[|s| - 1];
      var rest := Covered(s[..|s| - 1]);
      if last.None? then rest else rest + Range(last.value.start, last.value.end)
  }

  ghost predicate CoveredAt(s: seq<Slot>, i: nat, f: nat) {
    i < |s| && s[i].Some? && Within(s[i].value, f)
  }

  lemma {:induction false} CoveredSomewhere(s: seq<Slot>, f: nat)
    ensures f in Covered(s) <==> exists i: nat :: CoveredAt(s, i, f)
    decreases |s|
  {
    if s != [] {
      var rest := s[..|s| - 1];
      CoveredSomewhere(rest, f);
      assert forall i: nat :: CoveredAt(rest, i, f) ==> CoveredAt(s, i, f);
      assert forall i: nat :: CoveredAt(s, i, f) && i < |rest| ==> CoveredAt(rest, i, f);
      if s[|s| - 1].Some? && Within(s[|s| - 1].value, f) {
        assert CoveredAt(s, |s| - 1, f);
      }
    }
  }

  /** Live regions in index order are non-empty, sorted and at least one frame apart. */
  ghost predicate Separated(s: seq<Slot>) {
    && (forall i :: 0 <= i < |s| && s[i].Some? ==> s[i].value.start < s[i].value.end)
    && (forall i, j :: 0 <= i < j < |s| && s[i].Some? && s[j].Some? ==> s[i].value.end < s[j].value.start)
  }

  ghost predicate Bounded(s: seq<Slot>) {
    forall i :: 0 <= i < |s| && s[i].Some? ==> s[i].value.end <= U64_MAX
  }

  function Live(s: seq<Slot>): (n: nat)
    ensures n <= |s|
    ensures n == |s| <==> forall i :: 0 <= i < |s| ==> s[i].Some?
  {
    if s == [] then 0
    else
      assert forall i :: 0 <= i < |s| - 1 ==> s[..|s| - 1][i] == s[i];
      Live(s[..|s| - 1]) + if s[|s| - 1].Some? then 1 else 0
  }

  function TotalLength(s: seq<Slot>): nat {
    if s == [] then 0
    else
      var last := s[|s| - 1];
      TotalLength(s[..|s| - 1])
      + if last.Some? && last.value.start < last.value.end then last.value.end - last.value.start else 0
  }

  /** Frames covered by earlier regions lie below the last one, with a gap between. */
  lemma BelowLast(s: seq<Slot>, rest: seq<Slot>, last: Region)
    requires Separated(s) && s == rest + [Some(last)]
    ensures forall f :: f in Covered(rest) ==> f + 1 < last.start
  {
    forall f | f in Covered(rest)
      ensures f + 1 < last.start
    {
      CoveredSomewhere(rest, f);
      var i: nat :| CoveredAt(rest, i, f);
      assert s[i] == rest[i] && s[|rest|] == Some(last);
    }
  }

  lemma DisjointSizes(a: set<nat>, b: set<nat>)
    requires a !! b
    ensures |a + b| == |a| + |b|
  {
  }

  /** The total length of separated regions is the number of free frames. */
  lemma {:induction false} TotalIsCount(s: seq<Slot>)
    requires Separated(s)
    ensures TotalLength(s) == |Covered(s)|
    decreases |s|
  {
    if s != [] {
      var rest, last := s[..|s| - 1], s[|s| - 1];
      TotalIsCount(rest);
      if last.Some? {
        BelowLast(s, rest, last.value);
        RangeSize(last.value.start, last.value.end);
        DisjointSizes(Covered(rest), Range(last.value.start, last.value.end));
      }
    }
  }

  /** A run added above a gap adds its own end to the run ends. */
  lemma RunAbove(low: set<nat>, a: nat, b: nat)
    requires a < b && forall f :: f in low ==> f + 1 < a
    ensures RunEnds(low + Range(a, b)) == RunEnds(low) + {b - 1}
    ensures b - 1 !in RunEnds(low)
  {
  }

  /** Separated regions are exactly the maximal runs of the free set. */
  lemma {:induction false} LiveCountsRuns(s: seq<Slot>)
    requires Separated(s)
    ensures |RunEnds(Covered(s))| == Live(s)
    decreases |s|
  {
    if s != [] {
      var rest, last := s[..|s| - 1], s[|s| - 1];
      LiveCountsRuns(rest);
      if last.Some? {
        BelowLast(s, rest, last.value);
        RunAbove(Covered(rest), last.value.start, last.value.end);
      }
    }
  }

  // ---- the phases of a coalesce ----

  ghost predicate Touches(s: seq<Region>, f: nat) {
    exists r :: r in s && Within(r, f)
  }

  ghost function Elements(s: seq<Region>): multiset<Region> {
    multiset(s)
  }

  lemma SwapKeepsElements(s: seq<Region>, i: nat, j: nat)
    requires i < j < |s|
    ensures Elements(s[i := s[j]][j := s[i]]) == Elements(s)
  {
  }

  lemma SameElementsTouchAlike(s: seq<Region>, t: seq<Region>)
    requires Elements(s) == Elements(t)
    ensures forall f :: Touches(s, f) <==> Touches(t, f)
    ensures forall k :: 0 <= k < |t| ==> t[k] in s
  {
    assert forall r :: r in s <==> r in Elements(s);
    assert forall r :: r in t <==> r in Elements(t);
    forall f
      ensures Touches(s, f) <==> Touches(t, f)
    {
      if Touches(s, f) {
        var r :| r in s && Within(r, f);
        assert r in t;
      }
      if Touches(t, f) {
        var r :| r in t && Within(r, f);
        assert r in s;
      }
    }
    assert forall k :: 0 <= k < |t| ==> t[k] in Elements(t);
  }

  method Collect(regions: array<Slot>) returns (live: array<Region>, n: nat)
    requires regions.Length == MAX_REGIONS
    ensures fresh(live) && live.Length == MAX_REGIONS && n <= MAX_REGIONS
    ensures forall r :: r in live[..n] ==> r.start < r.end && Some(r) in regions[..]
    ensures forall f :: f in Covered(regions[..]) <==> Touches(live[..n], f)
  {
    live := new Region[MAX_REGIONS](_ => Region(0, 0));
    n := 0;
    for i := 0 to MAX_REGIONS
      invariant n <= i
      invariant forall k :: 0 <= k < n ==> live[k].start < live[k].end && Some(live[k]) in regions[..]
      invariant forall k :: 0 <= k < i && regions[k].Some? && regions[k].value.start < regions[k].value.end ==>
                  regions[k].value in live[..n]
    {
      if regions[i].Some? && regions[i].value.start < regions[i].value.end {
        live[n] := regions[i].value;
        n := n + 1;
        assert live[..n] == live[..n - 1] + [regions[i].value];
      }
    }
    forall f
      ensures f in Covered(regions[..]) <==> Touches(live[..n], f)
    {
      CoveredSomewhere(regions[..], f);
      if f in Covered(regions[..]) {
        var i: nat :| CoveredAt(regions[..], i, f);
        assert regions[i].value in live[..n];
      }
      if Touches(live[..n], f) {
        var r :| r in live[..n] && Within(r, f);
        var k :| 0 <= k < n && live[k] == r;
        assert Some(live[k]) in regions[..];
        var i :| 0 <= i < MAX_REGIONS && regions[..][i] == Some(r);
        assert CoveredAt(regions[..], i, f);
      }
    }
  }

  ghost predicate SortedTo(s: seq<Region>, n: nat) {
    n <= |s| && forall a, b :: 0 <= a < b < n ==> s[a].start <= s[b].start
  }

  /** Sorted up to and including `i` but for the element at `j`, which is below all behind it. */
  ghost predicate SortedButFor(s: seq<Region>, i: nat, j: nat) {
    && j <= i < |s|
    && (forall a, b :: 0 <= a < b <= i && a != j && b != j ==> s[a].start <= s[b].start)
    && (forall b :: j < b <= i ==> s[j].start < s[b].start)
  }

  lemma ExchangeSinks(s: seq<Region>, i: nat, j: nat)
    requires SortedButFor(s, i, j) && j > 0 && s[j - 1].start > s[j].start
    ensures SortedButFor(s[j - 1 := s[j]][j := s[j - 1]], i, j - 1)
  {
  }

  /** One exchange of neighbours in the pass for element `i`. */
  method Exchange(live: array<Region>, i: nat, j: nat)
    requires SortedButFor(live[..], i, j) && j > 0 && live[j - 1].start > live[j].start
    modifies live
    ensures SortedButFor(live[..], i, j - 1)
    ensures forall k :: i < k < live.Length ==> live[k] == old(live[k])
    ensures Elements(live[..i + 1]) == old(Elements(live[..i + 1]))
  {
    ghost var was := live[..];
    ExchangeSinks(was, i, j);
    SwapKeepsElements(was[..i + 1], j - 1, j);
    hide SortedButFor, Elements;
    live[j - 1], live[j] := live[j], live[j - 1];
    assert live[..] == was[j - 1 := was[j]][j := was[j - 1]];
    assert was[..i + 1] == old(live[..i + 1]);
    assert live[..i + 1] == was[..i + 1][j - 1 := was[j]][j := was[j - 1]];
  }

  /** One pass of the insertion sort: element `i` is exchanged backwards into place. */
  method SinkBack(live: array<Region>, i: nat)
    requires SortedTo(live[..], i) && i < live.Length
    modifies live
    ensures SortedTo(live[..], i + 1)
    ensures forall k :: i < k < live.Length ==> live[k] == old(live[k])
    ensures Elements(live[..i + 1]) == old(Elements(live[..i + 1]))
  {
    hide Elements;
    var j := i;
    while j > 0 && live[j - 1].start > live[j].start
      invariant 0 <= j && SortedButFor(live[..], i, j)
      invariant forall k :: i < k < live.Length ==> live[k] == old(live[k])
      invariant Elements(live[..i + 1]) == old(Elements(live[..i + 1]))
    {
      Exchange(live, i, j);
      j := j - 1;
    }
  }

  /** Insertion sort by start. */
  method SortByStart(live: array<Region>, n: nat)
    requires 1 <= n <= live.Length
    modifies live
    ensures SortedTo(live[..], n)
    ensures Elements(live[..n]) == old(Elements(live[..n]))
  {
    for i := 1 to n
      invariant SortedTo(live[..], i)
      invariant Elements(live[..n]) == old(Elements(live[..n]))
    {
      ghost var was := live[..];
      assert was[..n] == live[..n] && was[..i + 1] == live[..i + 1];
      SinkBack(live, i);
      assert live[..][..i + 1] == live[..i + 1];
      ElementsOfParts(was, live[..], i + 1, n);
      assert live[..n] == live[..][..n];
    }
  }

  lemma ElementsOfParts(s: seq<Region>, t: seq<Region>, k: nat, n: nat)
    requires k <= n <= |s| == |t|
    requires Elements(s[..k]) == Elements(t[..k])
    requires forall i :: k <= i < |s| ==> s[i] == t[i]
    ensures Elements(s[..n]) == Elements(t[..n])
  {
    assert s[..n] == s[..k] + s[k..n] && t[..n] == t[..k] + t[k..n];
    assert s[k..n] == t[k..n];
  }

  lemma CoveredSnoc(done: seq<Slot>, r: Region)
    ensures Covered(done + [Some(r)]) == Covered(done) + Range(r.start, r.end)
  {
  }

  lemma TouchesSnoc(s: seq<Region>, r: Region, f: nat)
    ensures Touches(s + [r], f) <==> Touches(s, f) || Within(r, f)
  {
  }

  /** A region that starts within or just behind the current run extends it. */
  function Absorb(cur: Region, r: Region): Region {
    if r.end > cur.end then Region(cur.start, r.end) else cur
  }

  ghost predicate AllEndBefore(s: seq<Slot>, bound: nat) {
    forall i :: 0 <= i < |s| && s[i].Some? ==> s[i].value.end < bound
  }

  lemma SeparatedSnoc(done: seq<Slot>, r: Region)
    ensures Separated(done + [Some(r)]) <==> Separated(done) && r.start < r.end && AllEndBefore(done, r.start)
  {
    var s := done + [Some(r)];
    assert forall i :: 0 <= i < |done| ==> s[i] == done[i];
    assert s[|done|] == Some(r);
  }

  /** Extending the current run keeps the cover and the separation. */
  lemma Extend(done: seq<Slot>, cur: Region, r: Region)
    requires Separated(done + [Some(cur)]) && cur.start <= r.start < r.end && cur.end >= r.start
    ensures Separated(done + [Some(Absorb(cur, r))])
    ensures Covered(done + [Some(Absorb(cur, r))]) == Covered(done + [Some(cur)]) + Range(r.start, r.end)
  {
    SeparatedSnoc(done, cur);
    SeparatedSnoc(done, Absorb(cur, r));
    CoveredSnoc(done, cur);
    CoveredSnoc(done, Absorb(cur, r));
  }

  /** So does starting a new run behind a gap. */
  lemma Push(done: seq<Slot>, cur: Region, r: Region)
    requires Separated(done + [Some(cur)]) && r.start < r.end && cur.end < r.start
    ensures Separated(done + [Some(cur)] + [Some(r)])
    ensures Covered(done + [Some(cur)] + [Some(r)]) == Covered(done + [Some(cur)]) + Range(r.start, r.end)
  {
    SeparatedSnoc(done, cur);
    SeparatedSnoc(done + [Some(cur)], r);
    CoveredSnoc(done + [Some(cur)], r);
  }

  /** The finished runs and the current one cover exactly the regions taken in so far. */
  ghost predicate Merged(done: seq<Slot>, cur: Region, taken: seq<Region>) {
    && Separated(done + [Some(cur)])
    && (forall f :: f in Covered(done + [Some(cur)]) <==> Touches(taken, f))
  }

  lemma MergedFirst(r: Region)
    requires r.start < r.end
    ensures Merged([], r, [r])
  {
    SeparatedSnoc([], r);
    CoveredSnoc([], r);
    forall f ensures f in Covered([] + [Some(r)]) <==> Touches([r], f) {
      TouchesSnoc([], r, f);
      assert [] + [r] == [r];
    }
  }

  lemma MergedNext(done: seq<Slot>, cur: Region, taken: seq<Region>, r: Region)
    requires Merged(done, cur, taken) && cur.start <= r.start < r.end
    ensures if cur.end >= r.start then Merged(done, Absorb(cur, r), taken + [r])
            else Merged(done + [Some(cur)], r, taken + [r])
  {
    hide Covered, Separated, Touches;
    if cur.end >= r.start {
      Extend(done, cur, r);
    } else {
      Push(done, cur, r);
    }
    forall f ensures Touches(taken + [r], f) <==> Touches(taken, f) || Within(r, f) {
      TouchesSnoc(taken, r, f);
    }
  }

  /** Merging sorted regions: adjacent and overlapping ones become one. */
  method Merge(live: array<Region>, n: nat) returns (out: array<Slot>, oi: nat)
    requires 1 <= n <= live.Length == MAX_REGIONS && SortedTo(live[..], n)
    requires forall k :: 0 <= k < n ==> live[k].start < live[k].end <= U64_MAX
    ensures fresh(out) && out.Length == MAX_REGIONS && oi <= n
    ensures forall i :: 0 <= i < oi ==> out[i].Some?
    ensures Separated(out[..oi]) && Bounded(out[..oi])
    ensures forall f :: f in Covered(out[..oi]) <==> Touches(live[..n], f)
  {
    out := new Slot[MAX_REGIONS](_ => None);
    oi := 0;
    var cur := live[0];
    MergedFirst(cur);
    assert live[..1] == [live[0]];
    assert out[..0] == [];
    for k := 1 to n
      invariant oi < k && forall i :: 0 <= i < oi ==> out[i].Some?
      invariant cur.start <= live[k - 1].start && cur.end <= U64_MAX
      invariant Merged(out[..oi], cur, live[..k]) && Bounded(out[..oi])
    {
      hide Merged;
      MergedNext(out[..oi], cur, live[..k], live[k]);
      assert live[..k + 1] == live[..k] + [live[k]];
      assert live[k - 1].start <= live[k].start;
      if cur.end >= live[k].start {
        if live[k].end > cur.end {
          cur := Region(cur.start, live[k].end);
        }
      } else {
        ghost var done := out[..oi];
        out[oi] := Some(cur);
        oi := oi + 1;
        assert out[..oi] == done + [Some(cur)];
        cur := live[k];
      }
    }
    ghost var done := out[..oi];
    out[oi] := Some(cur);
    oi := oi + 1;
    assert out[..oi] == done + [Some(cur)];
  }

  lemma NothingTouched()
    ensures forall f :: !Touches([], f)
  {
  }

  // ---- one slot changed ----

  /** Replacing slot `i`: frames outside its old and new region are covered as before. */
  lemma SlotReplaced(s: seq<Slot>, i: nat, x: Slot, f: nat)
    requires i < |s|
    requires s[i].Some? && Within(s[i].value, f) <==> x.Some? && Within(x.value, f)
    ensures f in Covered(s[i := x]) <==> f in Covered(s)
  {
    CoveredSomewhere(s, f);
    CoveredSomewhere(s[i := x], f);
    if f in Covered(s) {
      var j: nat :| CoveredAt(s, j, f);
      assert CoveredAt(s[i := x], j, f);
    }
    if f in Covered(s[i := x]) {
      var j: nat :| CoveredAt(s[i := x], j, f);
      assert CoveredAt(s, j, f);
    }
  }

  /** Growing the region in slot `i` (or filling it) by one frame adds that frame. */
  lemma SlotGrown(s: seq<Slot>, i: nat, x: Region, frame: nat)
    requires i < |s| && Within(x, frame)
    requires forall f :: f != frame ==> (Within(x, f) <==> s[i].Some? && Within(s[i].value, f))
    ensures Covered(s[i := Some(x)]) == Covered(s) + {frame}
  {
    forall f
      ensures f in Covered(s[i := Some(x)]) <==> f in Covered(s) + {frame}
    {
      if f == frame {
        CoveredSomewhere(s[i := Some(x)], f);
        assert CoveredAt(s[i := Some(x)], i, f);
      } else {
        SlotReplaced(s, i, Some(x), f);
      }
    }
  }

  /** What remains of a region once its first frame is handed out. */
  function Shrunk(r: Region): Slot {
    if r.start + 1 >= r.end then None else Some(Region(r.start + 1, r.end))
  }

  /** Handing out the first frame of the lowest region removes the least free frame. */
  lemma FirstFrameTaken(s: seq<Slot>, i: nat)
    requires Separated(s) && i < |s| && s[i].Some?
    requires forall j :: 0 <= j < |s| && s[j].Some? ==> s[i].value.start <= s[j].value.start
    ensures Least(Covered(s), s[i].value.start)
    ensures Covered(s[i := Shrunk(s[i].value)]) == Covered(s) - {s[i].value.start}
    ensures Separated(s[i := Shrunk(s[i].value)])
  {
    var frame, t := s[i].value.start, s[i := Shrunk(s[i].value)];
    forall f
      ensures f in Covered(s) ==> frame <= f
      ensures f in Covered(t) <==> f in Covered(s) - {frame}
    {
      CoveredSomewhere(s, f);
      CoveredSomewhere(t, f);
      if f == frame {
        assert forall j: nat :: CoveredAt(s, j, f) ==> j == i;
        assert forall j: nat :: CoveredAt(t, j, f) ==> CoveredAt(s, j, f);
      } else {
        SlotReplaced(s, i, Shrunk(s[i].value), f);
      }
    }
    CoveredSomewhere(s, frame);
    assert CoveredAt(s, i, frame);
  }

  /** With no region to extend, a frame next to a free one is free already. */
  lemma NoNeighbour(s: seq<Slot>, frame: nat)
    requires forall i :: 0 <= i < |s| && s[i].Some? ==> s[i].value.end != frame && s[i].value.start != frame + 1
    ensures frame + 1 in Covered(s) || (frame > 0 && frame - 1 in Covered(s)) ==> frame in Covered(s)
  {
  }

  lemma AllEmpty(s: seq<Slot>)
    requires forall i :: 0 <= i < |s| ==> s[i].None?
    ensures Covered(s) == {} && Separated(s) && Bounded(s) && Live(s) == 0
  {
  }

  lemma {:induction false} TrailingNone(s: seq<Slot>, n: nat)
    requires n <= |s| && forall i :: n <= i < |s| ==> s[i].None?
    ensures Covered(s) == Covered(s[..n])
    ensures Separated(s[..n]) ==> Separated(s)
    ensures Bounded(s[..n]) ==> Bounded(s)
    decreases |s|
  {
    if n < |s| {
      var rest := s[..|s| - 1];
      TrailingNone(rest, n);
      assert rest[..n] == s[..n];
      assert forall i :: 0 <= i < |rest| ==> rest[i] == s[i];
    } else {
      assert s[..n] == s;
    }
  }

  // ---- the boot memory map ----

  datatype Entry = Entry(base: nat, length: nat, usable: bool)

  /** Bytes to whole frames: the base rounded up, the end rounded down, nothing below 1 MiB. */
  function FrameRange(e: Entry): Region {
    var first := (e.base + 0xfff) / 0x1000;
    Region(if first >= 0x100 then first else 0x100, (e.base + e.length) / 0x1000)
  }

  /** The frame lies entirely inside the entry, which is usable, and above 1 MiB. */
  predicate Whole(e: Entry, f: nat) {
    e.usable && f >= 0x100 && e.base <= f * 0x1000 && (f + 1) * 0x1000 <= e.base + e.length
  }

  lemma RoundsInward(e: Entry, f: nat)
    ensures e.usable && Within(FrameRange(e), f) <==> Whole(e, f)
  {
  }

  /** Entries that give the allocator a range to keep. */
  function Kept(entries: seq<Entry>): nat {
    if entries == [] then 0
    else
      var e := entries[|entries| - 1];
      Kept(entries[..|entries| - 1]) + if HasRange(e) then 1 else 0
  }

  lemma KeptSnoc(entries: seq<Entry>, e: Entry)
    ensures Kept(entries + [e]) == Kept(entries) + if HasRange(e) then 1 else 0
  {
  }

  predicate HasRange(e: Entry) {
    e.usable && FrameRange(e).start < FrameRange(e).end
  }

  ghost predicate InSomeEntry(entries: seq<Entry>, f: nat) {
    exists e :: e in entries && Whole(e, f)
  }

  /** The free frames are those of the entries; all of them, unless there were too many ranges. */
  ghost predicate Taken(free: set<nat>, entries: seq<Entry>) {
    && (forall f :: f in free ==> InSomeEntry(entries, f))
    && (Kept(entries) <= MAX_REGIONS ==> forall f :: InSomeEntry(entries, f) ==> f in free)
  }

  lemma TakenNext(free: set<nat>, free': set<nat>, entries: seq<Entry>, e: Entry)
    requires Taken(free, entries) && free <= free'
    requires forall f :: f in free' ==> f in free || Whole(e, f)
    requires Kept(entries) < MAX_REGIONS ==> forall f :: Whole(e, f) ==> f in free'
    requires !HasRange(e) ==> forall f :: !Whole(e, f)
    ensures Taken(free', entries + [e])
  {
    hide Whole, InSomeEntry, HasRange, Kept;
    KeptSnoc(entries, e);
    forall f ensures InSomeEntry(entries + [e], f) <==> InSomeEntry(entries, f) || Whole(e, f) {
      InSomeEntrySnoc(entries, e, f);
    }
  }

  lemma InSomeEntrySnoc(entries: seq<Entry>, e: Entry, f: nat)
    ensures InSomeEntry(entries + [e], f) <==> InSomeEntry(entries, f) || Whole(e, f)
  {
  }

  // ---- the allocator ----

  class FrameAllocator {
    const regions: array<Slot>

    ghost predicate Shaped()
      reads this, regions
    {
      regions.Length == MAX_REGIONS && Bounded(regions[..])
    }

    ghost predicate Valid()
      reads this, regions
    {
      Shaped() && Separated(regions[..])
    }

    ghost function FreeFrames(): set<nat>
      reads this, regions
    {
      Covered(regions[..])
    }

    constructor ()
      ensures Valid() && FreeFrames() == {} && fresh(regions)
    {
      regions := new Slot[MAX_REGIONS](_ => None);
      new;
      AllEmpty(regions[..]);
    }

    method Clear()
      requires regions.Length == MAX_REGIONS
      modifies regions
      ensures forall i :: 0 <= i < regions.Length ==> regions[i].None?
    {
      for i := 0 to regions.Length
        invariant forall j :: 0 <= j < i ==> regions[j].None?
      {
        regions[i] := None;
      }
    }

    /** Sorts and merges the list: the same frames, in separated regions packed at the front. */
    method Coalesce()
      requires Shaped()
      modifies regions
      ensures Valid() && FreeFrames() == old(FreeFrames())
      ensures forall i, j :: 0 <= i < j < MAX_REGIONS && regions[j].Some? ==> regions[i].Some?
    {
      hide Covered, Separated, Touches, SortedTo;
      var live, n := Collect(regions);
      if n == 0 {
        NothingTouched();
        assert live[..n] == [];
        assert FreeFrames() == {};
        Clear();
        AllEmpty(regions[..]);
        return;
      }
      ghost var collected := live[..n];
      SortByStart(live, n);
      SameElementsTouchAlike(collected, live[..n]);
      assert forall k :: 0 <= k < n ==> live[k] == live[..n][k] && live[k] in collected;
      var out, oi := Merge(live, n);
      PutBack(out, oi);
    }

    /** The merged regions go to the front of the list, the rest of it is empty. */
    method PutBack(out: array<Slot>, oi: nat)
      requires regions.Length == MAX_REGIONS == out.Length && out != regions && oi <= MAX_REGIONS
      requires Separated(out[..oi]) && Bounded(out[..oi]) && forall k :: 0 <= k < oi ==> out[k].Some?
      modifies regions
      ensures Valid() && FreeFrames() == Covered(old(out[..oi]))
      ensures forall i, j :: 0 <= i < j < MAX_REGIONS && regions[j].Some? ==> regions[i].Some?
    {
      hide Covered, Separated;
      Clear();
      for i := 0 to oi
        invariant forall k :: 0 <= k < i ==> regions[k] == out[k]
        invariant forall k :: i <= k < MAX_REGIONS ==> regions[k].None?
      {
        regions[i] := out[i];
      }
      assert regions[..][..oi] == out[..oi];
      TrailingNone(regions[..], oi);
    }

    /** Takes the next empty slot for an initial range; with none left the range is dropped. */
    method AddRegion(start: nat, end: nat)
      requires Shaped() && end <= U64_MAX
      modifies regions
      ensures Shaped()
      ensures if start >= end || Live(old(regions[..])) == MAX_REGIONS then regions[..] == old(regions[..])
              else FreeFrames() == old(FreeFrames()) + Range(start, end) && Live(regions[..]) == old(Live(regions[..])) + 1
    {
      if start >= end {
        return;
      }
      for i := 0 to MAX_REGIONS
        invariant forall j :: 0 <= j < i ==> regions[j].Some?
        invariant regions[..] == old(regions[..])
      {
        if regions[i].None? {
          SlotFilled(regions[..], i, Region(start, end));
          regions[i] := Some(Region(start, end));
          assert regions[..] == old(regions[..])[i := Some(Region(start, end))];
          return;
        }
      }
    }

    /** One boot map entry: its whole frames are added, or none of them when the list is full. */
    method AddEntry(e: Entry)
      requires Shaped() && e.base + e.length <= U64_MAX
      modifies regions
      ensures Shaped()
      ensures Live(regions[..]) == Min(old(Live(regions[..])) + (if HasRange(e) then 1 else 0), MAX_REGIONS)
      ensures forall f :: f in FreeFrames() ==> f in old(FreeFrames()) || Whole(e, f)
      ensures forall f :: f in old(FreeFrames()) ==> f in FreeFrames()
      ensures forall f :: old(Live(regions[..])) < MAX_REGIONS && Whole(e, f) ==> f in FreeFrames()
      ensures !HasRange(e) ==> forall f :: !Whole(e, f)
    {
      hide Covered, Whole, Live;
      forall f ensures Whole(e, f) <==> e.usable && Within(FrameRange(e), f) {
        RoundsInward(e, f);
      }
      if e.usable {
        var first := if (e.base + 0xfff) / 0x1000 >= 0x100 then (e.base + 0xfff) / 0x1000 else 0x100;
        var last := (e.base + e.length) / 0x1000;
        assert FrameRange(e) == Region(first, last);
        if first < last {
          AddRegion(first, last);
        }
      }
    }

    /**
     Taking in the boot memory map: every free frame then lies whole inside a usable entry, and with
     no more than 64 usable ranges every such frame is free.
     */
    method Init(entries: seq<Entry>)
      requires regions.Length == MAX_REGIONS
      requires forall e :: e in entries ==> e.base + e.length <= U64_MAX
      modifies regions
      ensures Valid()
      ensures forall f :: f in FreeFrames() ==> InSomeEntry(entries, f)
      ensures Kept(entries) <= MAX_REGIONS ==> forall f :: InSomeEntry(entries, f) ==> f in FreeFrames()
    {
      Clear();
      AllEmpty(regions[..]);
      assert Taken(FreeFrames(), entries[..0]) && Kept(entries[..0]) == 0;
      for i := 0 to |entries|
        invariant Shaped() && Live(regions[..]) == Min(Kept(entries[..i]), MAX_REGIONS)
        invariant Taken(FreeFrames(), entries[..i])
      {
        hide Covered, Taken, Whole, Live, HasRange, Kept, Bounded;
        var e := entries[i];
        assert entries[..i + 1] == entries[..i] + [e];
        ghost var before := FreeFrames();
        KeptSnoc(entries[..i], e);
        AddEntry(e);
        TakenNext(before, FreeFrames(), entries[..i], e);
      }
      assert entries[..|entries|] == entries;
      Coalesce();
    }

    /** The lowest free frame leaves the set; nothing is returned only when nothing is free. */
    method Alloc() returns (r: Option<nat>)
      requires Valid()
      modifies regions
      ensures Valid()
      ensures r == Lowest(old(FreeFrames()))
      ensures FreeFrames() == AfterAlloc(old(FreeFrames()))
    {
      var bestIdx: Option<nat> := None;
      var bestStart := U64_MAX;
      for i := 0 to MAX_REGIONS
        invariant bestIdx.None? ==> bestStart == U64_MAX && forall j :: 0 <= j < i ==> regions[j].None?
        invariant bestIdx.Some? ==>
                    && bestIdx.value < i && regions[bestIdx.value].Some?
                    && bestStart == regions[bestIdx.value].value.start
                    && forall j :: 0 <= j < i && regions[j].Some? ==> bestStart <= regions[j].value.start
      {
        if regions[i].Some? {
          var q := regions[i].value;
          assert q.start < q.end <= U64_MAX by { assert regions[..][i] == Some(q); }
          if q.start < q.end && q.start < bestStart {
            bestStart, bestIdx := q.start, Some(i);
          }
        }
      }
      if bestIdx.None? {
        AllEmpty(regions[..]);
        return None;
      }
      var i := bestIdx.value;
      var q := regions[i].value;
      ghost var was := regions[..];
      FirstFrameTaken(was, i);
      regions[i] := Some(Region(q.start + 1, q.end));
      if q.start + 1 >= q.end {
        regions[i] := None;
      }
      assert regions[..] == was[i := Shrunk(q)];
      r := Some(q.start);
      LeastUnique(Covered(was), q.start);
    }

    /**
     Returning a frame adds it to the set, whether or not it was there; it is lost exactly when it is
     alone and all slots are taken by runs.
     */
    method Free(frame: nat)
      requires Valid() && frame < U64_MAX
      modifies regions
      ensures Valid()
      ensures FreeFrames() == AfterRangeFree(old(FreeFrames()), frame)
    {
      ghost var was := regions[..];
      var extended := false;
      var i := 0;
      while i < MAX_REGIONS && !extended
        invariant 0 <= i <= MAX_REGIONS && Shaped()
        invariant !extended ==> regions[..] == was
        invariant !extended ==> forall j :: 0 <= j < i && was[j].Some? ==>
                    was[j].value.end != frame && was[j].value.start != frame + 1
        invariant extended ==> FreeFrames() == Covered(was) + {frame} && !Dropped(Covered(was), frame)
      {
        if regions[i].Some? {
          var q := regions[i].value;
          if q.end == frame {
            GrownAt(was, i, frame);
            regions[i] := Some(Region(q.start, frame + 1));
            assert regions[..] == was[i := Some(Region(q.start, frame + 1))];
            extended := true;
          } else if q.start == frame + 1 {
            GrownAt(was, i, frame);
            regions[i] := Some(Region(frame, q.end));
            assert regions[..] == was[i := Some(Region(frame, q.end))];
            extended := true;
          }
        }
        i := i + 1;
      }
      if !extended {
        NoNeighbour(was, frame);
        LiveCountsRuns(was);
        InsertSingleton(frame);
      }
      Coalesce();
    }

    /** Puts a lone frame into the first empty slot, if there is one. */
    method InsertSingleton(frame: nat)
      requires Shaped() && frame < U64_MAX
      modifies regions
      ensures Shaped()
      ensures FreeFrames() == if Live(old(regions[..])) == MAX_REGIONS then old(FreeFrames()) else old(FreeFrames()) + {frame}
    {
      for i := 0 to MAX_REGIONS
        invariant forall j :: 0 <= j < i ==> regions[j].Some?
        invariant regions[..] == old(regions[..])
      {
        if regions[i].None? {
          SlotGrown(regions[..], i, Region(frame, frame + 1), frame);
          regions[i] := Some(Region(frame, frame + 1));
          assert regions[..] == old(regions[..])[i := Some(Region(frame, frame + 1))];
          return;
        }
      }
    }

    method FreeCount() returns (n: nat)
      requires Valid()
      ensures n == |FreeFrames()|
    {
      n := 0;
      for i := 0 to MAX_REGIONS
        invariant n == TotalLength(regions[..i])
      {
        assert regions[..i + 1][..i] == regions[..i];
        if regions[i].Some? {
          var q := regions[i].value;
          n := n + if q.end >= q.start then q.end - q.start else 0;
        }
      }
      assert regions[..MAX_REGIONS] == regions[..];
      TotalIsCount(regions[..]);
    }
  }

  lemma LeastUnique(free: set<nat>, f: nat)
    requires Least(free, f)
    ensures Lowest(free) == Some(f)
  {
  }

  lemma {:induction false} LiveUpdate(s: seq<Slot>, i: nat, x: Region)
    requires i < |s| && s[i].None?
    ensures Live(s[i := Some(x)]) == Live(s) + 1
    decreases |s|
  {
    var t := s[i := Some(x)];
    if i == |s| - 1 {
      assert t[..|s| - 1] == s[..|s| - 1];
    } else {
      LiveUpdate(s[..|s| - 1], i, x);
      assert t[..|s| - 1] == s[..|s| - 1][i := Some(x)];
    }
  }

  lemma SlotFilled(s: seq<Slot>, i: nat, x: Region)
    requires i < |s| && s[i].None?
    ensures Covered(s[i := Some(x)]) == Covered(s) + Range(x.start, x.end)
    ensures Live(s[i := Some(x)]) == Live(s) + 1
  {
    LiveUpdate(s, i, x);
    forall f
      ensures f in Covered(s[i := Some(x)]) <==> f in Covered(s) + Range(x.start, x.end)
    {
      if Within(x, f) {
        CoveredSomewhere(s[i := Some(x)], f);
        assert CoveredAt(s[i := Some(x)], i, f);
      } else {
        SlotReplaced(s, i, Some(x), f);
      }
    }
  }

  /** A region that ends at the frame or starts right behind it can take it in. */
  lemma GrownAt(s: seq<Slot>, i: nat, frame: nat)
    requires Separated(s) && i < |s| && s[i].Some?
    requires s[i].value.end == frame || s[i].value.start == frame + 1
    ensures s[i].value.end == frame ==>
              Covered(s[i := Some(Region(s[i].value.start, frame + 1))]) == Covered(s) + {frame}
    ensures s[i].value.end != frame ==>
              Covered(s[i := Some(Region(frame, s[i].value.end))]) == Covered(s) + {frame}
    ensures !Dropped(Covered(s), frame)
  {
    hide Covered;
    var q := s[i].value;
    if q.end == frame {
      SlotGrown(s, i, Region(q.start, frame + 1), frame);
      CoveredSomewhere(s, frame - 1);
      assert CoveredAt(s, i, frame - 1);
    } else {
      SlotGrown(s, i, Region(frame, q.end), frame);
      CoveredSomewhere(s, frame + 1);
      assert CoveredAt(s, i, frame + 1);
    }
  }
}
