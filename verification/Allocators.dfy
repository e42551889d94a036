/**
 The two frame allocators side by side, each given the same operations: what they reply is what the
 functions on sets of free frames say, and so the two agree exactly as those do.
 */
module Allocators {
  import opened Machine
  import opened Frames
  import RangeList
  import Bitmap

  method ApplyToRanges(a: RangeList.FrameAllocator, op: Op) returns (r: Reply)
    requires a.Valid() && (op.Free? ==> op.frame < U64_MAX)
    modifies a.regions
    ensures a.Valid()
    ensures r == ReplyTo(old(a.FreeFrames()), op) && a.FreeFrames() == RangeStep(old(a.FreeFrames()), op)
  {
    match op {
      case Alloc =>
        var f := a.Alloc();
        r := Frame(f);
      case Free(f) =>
        a.Free(f);
        r := Done;
      case Count =>
        var n := a.FreeCount();
        r := Number(n);
    }
  }

  method ApplyToBitmap(a: Bitmap.BitmapFrameAllocator, op: Op) returns (r: Reply)
    requires a.Valid()
    modifies a.words
    ensures a.Valid()
    ensures r == ReplyTo(old(a.FreeFrames()), op) && a.FreeFrames() == BitmapStep(old(a.FreeFrames()), op, a.frames)
  {
    match op {
      case Alloc =>
        var f := a.Alloc();
        r := Frame(f);
      case Free(f) =>
        a.Free(f);
        r := Done;
      case Count =>
        var n := a.FreeCount();
        r := Number(n);
    }
  }

  lemma Regroup(rs: seq<Reply>, r: Reply, rest: seq<Reply>)
    ensures rs + ([r] + rest) == (rs + [r]) + rest
  {
  }

  /**
   Both allocators, from the same free frames, through the same operations. With every free below the
   bitmap's capacity and none dropped by the range list, they reply alike and end with the same
   frames free.
   */
  method RunBoth(a: RangeList.FrameAllocator, b: Bitmap.BitmapFrameAllocator, ops: seq<Op>)
    returns (rs: seq<Reply>, qs: seq<Reply>)
    requires a.Valid() && b.Valid() && a.FreeFrames() == b.FreeFrames()
    requires forall op :: op in ops && op.Free? ==> op.frame < U64_MAX
    modifies a.regions, b.words
    ensures a.Valid() && b.Valid()
    ensures rs == RangeReplies(old(a.FreeFrames()), ops) && qs == BitmapReplies(old(b.FreeFrames()), ops, b.frames)
    ensures a.FreeFrames() == RangeEnd(old(a.FreeFrames()), ops)
    ensures b.FreeFrames() == BitmapEnd(old(b.FreeFrames()), ops, b.frames)
    ensures WithinCapacity(ops, b.frames) && NeverDropped(old(a.FreeFrames()), ops) ==>
              rs == qs && a.FreeFrames() == b.FreeFrames()
  {
    hide RangeList.Covered, RangeList.Separated, RangeList.Bounded, Bitmap.FreeIn, Bitmap.AllWords, Dropped;
    ghost var free := a.FreeFrames();
    rs, qs := [], [];
    for i := 0 to |ops|
      invariant a.Valid() && b.Valid()
      invariant rs + RangeReplies(a.FreeFrames(), ops[i..]) == RangeReplies(free, ops)
      invariant qs + BitmapReplies(b.FreeFrames(), ops[i..], b.frames) == BitmapReplies(free, ops, b.frames)
      invariant RangeEnd(a.FreeFrames(), ops[i..]) == RangeEnd(free, ops)
      invariant BitmapEnd(b.FreeFrames(), ops[i..], b.frames) == BitmapEnd(free, ops, b.frames)
    {
      hide ReplyTo, RangeStep, BitmapStep;
      assert ops[i..][0] == ops[i] && ops[i..][1..] == ops[i + 1..];
      var r := ApplyToRanges(a, ops[i]);
      var q := ApplyToBitmap(b, ops[i]);
      Regroup(rs, r, RangeReplies(a.FreeFrames(), ops[i + 1..]));
      Regroup(qs, q, BitmapReplies(b.FreeFrames(), ops[i + 1..], b.frames));
      rs, qs := rs + [r], qs + [q];
    }
    assert ops[|ops|..] == [];
    if WithinCapacity(ops, b.frames) && NeverDropped(free, ops) {
      AllocatorsAgree(free, ops, b.frames);
    }
  }

  /**
   Watching both allocators for the first difference in a reply or in the number of free frames: there
   is none exactly when each frame freed is free already, kept by both or kept by neither; for frees
   within the bitmap, exactly when the range list drops none.
   */
  method StayAlike(a: RangeList.FrameAllocator, b: Bitmap.BitmapFrameAllocator, ops: seq<Op>) returns (same: bool)
    requires a.Valid() && b.Valid() && a.FreeFrames() == b.FreeFrames()
    requires forall op :: op in ops && op.Free? ==> op.frame < U64_MAX
    modifies a.regions, b.words
    ensures a.Valid() && b.Valid()
    ensures same <==> Faithful(old(a.FreeFrames()), ops, b.frames)
    ensures WithinCapacity(ops, b.frames) ==> (same <==> NeverDropped(old(a.FreeFrames()), ops))
    ensures same ==> a.FreeFrames() == b.FreeFrames() == RangeEnd(old(a.FreeFrames()), ops)
  {
    hide RangeList.Covered, RangeList.Separated, RangeList.Bounded, Bitmap.FreeIn, Bitmap.AllWords, Dropped;
    ghost var free := a.FreeFrames();
    if WithinCapacity(ops, b.frames) {
      FaithfulExactly(free, ops, b.frames);
    }
    for i := 0 to |ops|
      invariant a.Valid() && b.Valid() && a.FreeFrames() == b.FreeFrames()
      invariant Faithful(free, ops, b.frames) <==> Faithful(a.FreeFrames(), ops[i..], b.frames)
      invariant RangeEnd(a.FreeFrames(), ops[i..]) == RangeEnd(free, ops)
    {
      assert ops[i..][0] == ops[i] && ops[i..][1..] == ops[i + 1..];
      AlikeMeansSameStep(a.FreeFrames(), ops[i], b.frames);
      hide ReplyTo, RangeStep, BitmapStep, Alike;
      var r := ApplyToRanges(a, ops[i]);
      var q := ApplyToBitmap(b, ops[i]);
      var m := a.FreeCount();
      var n := b.FreeCount();
      if r != q || m != n {
        return false;
      }
    }
    assert ops[|ops|..] == [];
    same := true;
  }
}
