/**
 What both physical frame allocators are meant to be: a set of free frames that hands out its
 minimum. The range list differs from it in one way, a free it has no room to record.
 */
module Frames {
  import opened Machine

  const MAX_REGIONS: nat := 64

  ghost predicate Least(free: set<nat>, f: nat) {
    f in free && forall g :: g in free ==> f <= g
  }

  lemma {:induction false} LeastExists(free: set<nat>) returns (f: nat)
    requires free != {}
    ensures Least(free, f)
    decreases |free|
  {
    var x :| x in free;
    if free == {x} {
      return x;
    }
    var rest := free - {x};
    assert free == rest + {x};
    var y := LeastExists(rest);
    f := Min(x, y);
    forall g | g in free ensures f <= g {
      assert g == x || g in rest;
    }
  }

  /** The frame an allocation returns. */
  ghost function Lowest(free: set<nat>): (r: Option<nat>)
    ensures r.None? <==> free == {}
    ensures r.Some? ==> Least(free, r.value)
  {
    if free == {} then None
    else
      assert exists f :: Least(free, f) by { var f := LeastExists(free); }
      var f :| Least(free, f);
      Some(f)
  }

  ghost function AfterAlloc(free: set<nat>): set<nat> {
    match Lowest(free)
    case None => free
    case Some(f) => free - {f}
  }

  ghost predicate EndsRun(free: set<nat>, f: nat) {
    f in free && f + 1 !in free
  }

  /** The last frames of the maximal runs of consecutive free frames. */
  ghost function RunEnds(free: set<nat>): set<nat> {
    set f | f in free && EndsRun(free, f)
  }

  /** The range list loses a freed frame that is alone while all its slots hold a run. */
  ghost predicate Dropped(free: set<nat>, f: nat) {
    && f !in free && f + 1 !in free && (f == 0 || f - 1 !in free)
    && |RunEnds(free)| >= MAX_REGIONS
  }

  ghost function AfterRangeFree(free: set<nat>, f: nat): set<nat> {
    if Dropped(free, f) then free else free + {f}
  }

  /** The bitmap ignores a frame beyond its capacity. */
  ghost function AfterBitmapFree(free: set<nat>, f: nat, frames: nat): set<nat> {
    if f < frames then free + {f} else free
  }

  // ---- ranges ----

  function Range(a: nat, b: nat): (r: set<nat>)
    ensures forall f :: f in r <==> a <= f < b
  {
    if a >= b then {} else Range(a, b - 1) + {b - 1}
  }

  lemma {:induction false} RangeSize(a: nat, b: nat)
    requires a <= b
    ensures |Range(a, b)| == b - a
    decreases b
  {
    if a < b {
      RangeSize(a, b - 1);
    }
  }

  // ---- the two allocators agree ----

  datatype Op = Alloc | Free(frame: nat) | Count

  datatype Reply = Frame(f: Option<nat>) | Done | Number(n: nat)

  ghost function ReplyTo(free: set<nat>, op: Op): Reply {
    match op
    case Alloc => Frame(Lowest(free))
    case Free(_) => Done
    case Count => Number(|free|)
  }

  ghost function RangeStep(free: set<nat>, op: Op): set<nat> {
    match op
    case Alloc => AfterAlloc(free)
    case Free(f) => AfterRangeFree(free, f)
    case Count => free
  }

  ghost function BitmapStep(free: set<nat>, op: Op, frames: nat): set<nat> {
    match op
    case Alloc => AfterAlloc(free)
    case Free(f) => AfterBitmapFree(free, f, frames)
    case Count => free
  }

  ghost function RangeReplies(free: set<nat>, ops: seq<Op>): seq<Reply>
    decreases |ops|
  {
    if ops == [] then [] else [ReplyTo(free, ops[0])] + RangeReplies(RangeStep(free, ops[0]), ops[1..])
  }

  ghost function BitmapReplies(free: set<nat>, ops: seq<Op>, frames: nat): seq<Reply>
    decreases |ops|
  {
    if ops == [] then []
    else [ReplyTo(free, ops[0])] + BitmapReplies(BitmapStep(free, ops[0], frames), ops[1..], frames)
  }

  ghost function RangeEnd(free: set<nat>, ops: seq<Op>): set<nat>
    decreases |ops|
  {
    if ops == [] then free else RangeEnd(RangeStep(free, ops[0]), ops[1..])
  }

  ghost function BitmapEnd(free: set<nat>, ops: seq<Op>, frames: nat): set<nat>
    decreases |ops|
  {
    if ops == [] then free else BitmapEnd(BitmapStep(free, ops[0], frames), ops[1..], frames)
  }

  /** A freed frame is free already, or kept by both allocators, or by neither. */
  ghost predicate Alike(free: set<nat>, op: Op, frames: nat) {
    op.Free? ==> op.frame in free || (op.frame < frames <==> !Dropped(free, op.frame))
  }

  /** No free along the way is kept by only one of the two. */
  ghost predicate Faithful(free: set<nat>, ops: seq<Op>, frames: nat)
    decreases |ops|
  {
    ops == [] || (Alike(free, ops[0], frames) && Faithful(RangeStep(free, ops[0]), ops[1..], frames))
  }

  lemma AlikeMeansSameStep(free: set<nat>, op: Op, frames: nat)
    ensures Alike(free, op, frames) <==> RangeStep(free, op) == BitmapStep(free, op, frames)
    ensures Alike(free, op, frames) <==> |RangeStep(free, op)| == |BitmapStep(free, op, frames)|
  {
    if op.Free? && op.frame !in free {
      assert |free + {op.frame}| == |free| + 1;
    } else if op.Free? {
      assert free + {op.frame} == free;
    }
  }

  predicate WithinCapacity(ops: seq<Op>, frames: nat) {
    forall op :: op in ops && op.Free? ==> op.frame < frames
  }

  /** The range list loses none of the frames freed. */
  ghost predicate NeverDropped(free: set<nat>, ops: seq<Op>)
    decreases |ops|
  {
    ops == [] || ((ops[0].Free? ==> !Dropped(free, ops[0].frame)) && NeverDropped(RangeStep(free, ops[0]), ops[1..]))
  }

  lemma {:induction false} FaithfulExactly(free: set<nat>, ops: seq<Op>, frames: nat)
    requires WithinCapacity(ops, frames)
    ensures Faithful(free, ops, frames) <==> NeverDropped(free, ops)
    decreases |ops|
  {
    if ops != [] {
      FaithfulExactly(RangeStep(free, ops[0]), ops[1..], frames);
    }
  }

  lemma {:induction false} FaithfulReplies(free: set<nat>, ops: seq<Op>, frames: nat)
    requires Faithful(free, ops, frames)
    ensures RangeReplies(free, ops) == BitmapReplies(free, ops, frames)
    ensures RangeEnd(free, ops) == BitmapEnd(free, ops, frames)
    decreases |ops|
  {
    if ops != [] {
      AlikeMeansSameStep(free, ops[0], frames);
      FaithfulReplies(RangeStep(free, ops[0]), ops[1..], frames);
    }
  }

  /** From the same free set, with frees within the bitmap and none dropped, the replies and the outcome are the same. */
  lemma AllocatorsAgree(free: set<nat>, ops: seq<Op>, frames: nat)
    requires WithinCapacity(ops, frames) && NeverDropped(free, ops)
    ensures RangeReplies(free, ops) == BitmapReplies(free, ops, frames)
    ensures RangeEnd(free, ops) == BitmapEnd(free, ops, frames)
  {
    FaithfulExactly(free, ops, frames);
    FaithfulReplies(free, ops, frames);
  }

  /** The replies agree up to step `n`, and so do the free counts then. */
  ghost predicate AgreeUpTo(free: set<nat>, ops: seq<Op>, frames: nat, n: nat)
    requires n <= |ops|
  {
    RangeReplies(free, ops[..n] + [Count]) == BitmapReplies(free, ops[..n] + [Count], frames)
  }

  lemma AgreementPeels(free: set<nat>, ops: seq<Op>, frames: nat, n: nat)
    requires 0 < n <= |ops| && RangeStep(free, ops[0]) == BitmapStep(free, ops[0], frames)
    ensures AgreeUpTo(free, ops, frames, n) <==> AgreeUpTo(RangeStep(free, ops[0]), ops[1..], frames, n - 1)
  {
    assert (ops[..n] + [Count])[1..] == ops[1..][..n - 1] + [Count];
    var r := RangeReplies(RangeStep(free, ops[0]), ops[1..][..n - 1] + [Count]);
    var b := BitmapReplies(RangeStep(free, ops[0]), ops[1..][..n - 1] + [Count], frames);
    assert ([ReplyTo(free, ops[0])] + r)[1..] == r && ([ReplyTo(free, ops[0])] + b)[1..] == b;
  }

  lemma CountAlone(free: set<nat>, frames: nat)
    ensures RangeReplies(free, [Count]) == BitmapReplies(free, [Count], frames) == [Number(|free|)]
  {
  }

  /** The first free that only one of them keeps shows in the next count. */
  lemma FirstStepShows(free: set<nat>, ops: seq<Op>, frames: nat)
    requires ops != [] && AgreeUpTo(free, ops, frames, 1)
    ensures Alike(free, ops[0], frames)
  {
    AlikeMeansSameStep(free, ops[0], frames);
    var both := ops[..1] + [Count];
    assert both[1..] == [Count];
    var r, b := RangeStep(free, ops[0]), BitmapStep(free, ops[0], frames);
    CountAlone(r, frames);
    CountAlone(b, frames);
    assert RangeReplies(free, both) == [ReplyTo(free, ops[0])] + [Number(|r|)];
    assert BitmapReplies(free, both, frames) == [ReplyTo(free, ops[0])] + [Number(|b|)];
    assert RangeReplies(free, both)[1] == BitmapReplies(free, both, frames)[1];
  }

  ghost predicate AgreeThroughout(free: set<nat>, ops: seq<Op>, frames: nat) {
    forall n :: 0 <= n <= |ops| ==> AgreeUpTo(free, ops, frames, n)
  }

  lemma AgreementStep(free: set<nat>, ops: seq<Op>, frames: nat)
    requires ops != []
    ensures AgreeThroughout(free, ops, frames) <==>
            Alike(free, ops[0], frames) && AgreeThroughout(RangeStep(free, ops[0]), ops[1..], frames)
  {
    assert ops[..0] + [Count] == [Count];
    CountAlone(free, frames);
    assert AgreeUpTo(free, ops, frames, 0);
    if AgreeThroughout(free, ops, frames) {
      FirstStepShows(free, ops, frames);
    }
    if Alike(free, ops[0], frames) {
      AlikeMeansSameStep(free, ops[0], frames);
      var next := RangeStep(free, ops[0]);
      hide AgreeUpTo;
      forall n | 0 < n <= |ops|
        ensures AgreeUpTo(free, ops, frames, n) <==> AgreeUpTo(next, ops[1..], frames, n - 1)
      {
        AgreementPeels(free, ops, frames, n);
      }
      if AgreeThroughout(free, ops, frames) {
        forall m | 0 <= m <= |ops[1..]| ensures AgreeUpTo(next, ops[1..], frames, m) {
          assert AgreeUpTo(free, ops, frames, m + 1);
        }
      }
    }
  }

  /**
   The range list and the bitmap are observationally equal over a sequence of operations exactly when
   every free of a frame that is not free already is kept by both or by neither: for frames within
   the bitmap, when the range list never drops one.
   */
  lemma {:induction false} AllocatorsAgreeExactly(free: set<nat>, ops: seq<Op>, frames: nat)
    ensures AgreeThroughout(free, ops, frames) <==> Faithful(free, ops, frames)
    decreases |ops|
  {
    if ops == [] {
      assert ops[..0] + [Count] == [Count];
      CountAlone(free, frames);
    } else {
      AgreementStep(free, ops, frames);
      AllocatorsAgreeExactly(RangeStep(free, ops[0]), ops[1..], frames);
    }
  }
}
