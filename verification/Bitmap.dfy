/**
 The bitmap frame allocator for any number of frames. A 64-bit word is a natural number, and the
 bit operations on it are defined bit by bit.
 */
module Bitmap {
  import opened Machine
  import opened Frames

  // ---- words ----

  predicate Bit(w: nat, b: nat)
    decreases b
  {
    if b == 0 then w % 2 == 1 else Bit(w / 2, b - 1)
  }

  /** `w | 1 << b` */
  function SetBit(w: nat, b: nat): nat
    decreases b
  {
    if b == 0 then w / 2 * 2 + 1 else w % 2 + 2 * SetBit(w / 2, b - 1)
  }

  /** `w & !(1 << b)` */
  function ClearBit(w: nat, b: nat): nat
    decreases b
  {
    if b == 0 then w / 2 * 2 else w % 2 + 2 * ClearBit(w / 2, b - 1)
  }

  function TrailingZeros(w: nat): (z: nat)
    requires w > 0
    ensures Bit(w, z) && forall b :: 0 <= b < z ==> !Bit(w, b)
  {
    if w % 2 == 1 then 0
    else
      var z := 1 + TrailingZeros(w / 2);
      assert forall b :: 0 < b < z ==> (Bit(w, b) <==> Bit(w / 2, b - 1));
      z
  }

  function CountOnes(w: nat): nat {
    if w == 0 then 0 else w % 2 + CountOnes(w / 2)
  }

  lemma {:induction false} SetBitSets(w: nat, b: nat, c: nat)
    ensures Bit(SetBit(w, b), c) <==> b == c || Bit(w, c)
    decreases b
  {
    if b > 0 && c > 0 {
      SetBitSets(w / 2, b - 1, c - 1);
    }
  }

  lemma {:induction false} ClearBitClears(w: nat, b: nat, c: nat)
    ensures Bit(ClearBit(w, b), c) <==> b != c && Bit(w, c)
    decreases b
  {
    if b > 0 && c > 0 {
      ClearBitClears(w / 2, b - 1, c - 1);
    }
  }

  lemma {:induction false} BitsBelowWidth(w: nat, n: nat, b: nat)
    requires w < Pow2(n) && Bit(w, b)
    ensures b < n
    decreases b
  {
    if n == 0 {
      ZeroHasNoBits(b);
    } else if b > 0 {
      BitsBelowWidth(w / 2, n - 1, b - 1);
    }
  }

  lemma {:induction false} ZeroHasNoBits(b: nat)
    ensures !Bit(0, b)
  {
    if b > 0 {
      ZeroHasNoBits(b - 1);
    }
  }

  lemma {:induction false} WidthKept(w: nat, b: nat, n: nat)
    requires w < Pow2(n) && b < n
    ensures SetBit(w, b) < Pow2(n) && ClearBit(w, b) < Pow2(n)
    decreases b
  {
    assert Pow2(n) == 2 * Pow2(n - 1);
    if b > 0 {
      hide Pow2;
      WidthKept(w / 2, b - 1, n - 1);
    }
  }

  // ---- the set of a word and of all words ----

  /** The frames a word marks free, its lowest bit standing for frame `base`. */
  ghost function FramesOf(w: nat, base: nat): (s: set<nat>)
    ensures forall f :: f in s ==> f >= base
    decreases w
  {
    if w == 0 then {} else (if w % 2 == 1 then {base} else {}) + FramesOf(w / 2, base + 1)
  }

  lemma {:induction false} FramesOfMembers(w: nat, base: nat, f: nat)
    ensures f in FramesOf(w, base) <==> f >= base && Bit(w, f - base)
    decreases w
  {
    if w == 0 {
      if f >= base {
        ZeroHasNoBits(f - base);
      }
    } else {
      FramesOfMembers(w / 2, base + 1, f);
    }
  }

  lemma {:induction false} OnesAreFrames(w: nat, base: nat)
    ensures |FramesOf(w, base)| == CountOnes(w)
    decreases w
  {
    if w > 0 {
      OnesAreFrames(w / 2, base + 1);
    }
  }

  ghost predicate Marked(words: seq<nat>, f: nat) {
    f / 64 < |words| && Bit(words[f / 64], f % 64)
  }

  ghost function FreeIn(words: seq<nat>): set<nat> {
    if words == [] then {}
    else FreeIn(words[..|words| - 1]) + FramesOf(words[|words| - 1], 64 * (|words| - 1))
  }

  function TotalOnes(words: seq<nat>): nat {
    if words == [] then 0 else TotalOnes(words[..|words| - 1]) + CountOnes(words[|words| - 1])
  }

  ghost predicate AllWords(words: seq<nat>) {
    forall i :: 0 <= i < |words| ==> words[i] < TWO_64
  }

  lemma {:induction false} FreeInMembers(words: seq<nat>, f: nat)
    requires AllWords(words)
    ensures f in FreeIn(words) <==> Marked(words, f)
    decreases |words|
  {
    if words != [] {
      var k := |words| - 1;
      var rest := words[..k];
      FreeInMembers(rest, f);
      FramesOfMembers(words[k], 64 * k, f);
      if f >= 64 * k && Bit(words[k], f - 64 * k) {
        Pow2Of64();
        BitsBelowWidth(words[k], 64, f - 64 * k);
        assert f / 64 == k && f % 64 == f - 64 * k;
      }
    }
  }

  lemma {:induction false} TotalOnesCounts(words: seq<nat>)
    requires AllWords(words)
    ensures TotalOnes(words) == |FreeIn(words)|
    decreases |words|
  {
    if words != [] {
      var k := |words| - 1;
      TotalOnesCounts(words[..k]);
      OnesAreFrames(words[k], 64 * k);
      forall f | f in FreeIn(words[..k]) ensures f < 64 * k {
        FreeInMembers(words[..k], f);
      }
      assert FreeIn(words[..k]) !! FramesOf(words[k], 64 * k);
    }
  }

  // ---- the allocator ----

  class BitmapFrameAllocator {
    const frames: nat
    const words: array<nat>

    /** No bit is set at or beyond `frames`. */
    ghost predicate Valid()
      reads this, words
    {
      && words.Length == (frames + 63) / 64
      && AllWords(words[..])
      && (forall f :: f in FreeIn(words[..]) ==> f < frames)
    }

    ghost function FreeFrames(): set<nat>
      reads this, words
    {
      FreeIn(words[..])
    }

    constructor (n: nat)
      ensures Valid() && frames == n && FreeFrames() == {} && fresh(words)
    {
      frames := n;
      words := new nat[(n + 63) / 64](_ => 0);
      new;
      forall f: nat ensures f !in FreeIn(words[..]) {
        FreeInMembers(words[..], f);
        ZeroHasNoBits(f % 64);
      }
    }

    method IsFree(frame: nat) returns (b: bool)
      requires Valid()
      ensures b <==> frame in FreeFrames()
    {
      if frame >= frames {
        return false;
      }
      FreeInMembers(words[..], frame);
      b := Bit(words[frame / 64], frame % 64);
    }

    method MarkFree(frame: nat)
      requires Valid()
      modifies words
      ensures Valid()
      ensures FreeFrames() == AfterBitmapFree(old(FreeFrames()), frame, frames)
    {
      if frame >= frames {
        return;
      }
      WordChanged(words[..], frame, SetBit(words[frame / 64], frame % 64), true);
      words[frame / 64] := SetBit(words[frame / 64], frame % 64);
      assert words[..] == old(words[..])[frame / 64 := words[frame / 64]];
    }

    method MarkUsed(frame: nat)
      requires Valid()
      modifies words
      ensures Valid()
      ensures FreeFrames() == old(FreeFrames()) - {frame}
    {
      if frame >= frames {
        return;
      }
      WordChanged(words[..], frame, ClearBit(words[frame / 64], frame % 64), false);
      words[frame / 64] := ClearBit(words[frame / 64], frame % 64);
      assert words[..] == old(words[..])[frame / 64 := words[frame / 64]];
    }

    method Free(frame: nat)
      requires Valid()
      modifies words
      ensures Valid()
      ensures FreeFrames() == AfterBitmapFree(old(FreeFrames()), frame, frames)
    {
      MarkFree(frame);
    }

    /** The lowest free frame leaves the set; the branch for a frame out of range is never taken. */
    method Alloc() returns (r: Option<nat>)
      requires Valid()
      modifies words
      ensures Valid()
      ensures r == Lowest(old(FreeFrames()))
      ensures FreeFrames() == AfterAlloc(old(FreeFrames()))
    {
      for wi := 0 to words.Length
        invariant words[..] == old(words[..])
        invariant forall i :: 0 <= i < wi ==> words[i] == 0
      {
        if words[wi] != 0 {
          var bi := TrailingZeros(words[wi]);
          LowestBit(words[..], wi);
          var frame := wi * 64 + bi;
          if frame < frames {
            WordChanged(words[..], frame, ClearBit(words[wi], bi), false);
            words[wi] := ClearBit(words[wi], bi);
            assert words[..] == old(words[..])[wi := words[wi]];
            return Some(frame);
          } else {
            assert false;
          }
        }
      }
      forall f: nat ensures f !in FreeIn(words[..]) {
        FreeInMembers(words[..], f);
        ZeroHasNoBits(f % 64);
      }
      r := None;
    }

    method FreeCount() returns (n: nat)
      requires Valid()
      ensures n == |FreeFrames()|
    {
      n := 0;
      for i := 0 to words.Length
        invariant n == TotalOnes(words[..i])
      {
        assert words[..i + 1][..i] == words[..i];
        n := n + CountOnes(words[i]);
      }
      assert words[..words.Length] == words[..];
      TotalOnesCounts(words[..]);
    }
  }

  /** Setting or clearing one frame's bit changes the set by that frame. */
  lemma WordChanged(words: seq<nat>, frame: nat, w: nat, free: bool)
    requires AllWords(words) && frame / 64 < |words|
    requires w == if free then SetBit(words[frame / 64], frame % 64) else ClearBit(words[frame / 64], frame % 64)
    ensures AllWords(words[frame / 64 := w])
    ensures FreeIn(words[frame / 64 := w]) == if free then FreeIn(words) + {frame} else FreeIn(words) - {frame}
  {
    hide SetBit, ClearBit, FreeIn, Bit;
    var after := words[frame / 64 := w];
    Pow2Of64();
    WidthKept(words[frame / 64], frame % 64, 64);
    forall f: nat
      ensures f in FreeIn(after) <==> if free then f in FreeIn(words) || f == frame else f in FreeIn(words) && f != frame
    {
      FreeInMembers(words, f);
      FreeInMembers(after, f);
      SetBitSets(words[frame / 64], frame % 64, f % 64);
      ClearBitClears(words[frame / 64], frame % 64, f % 64);
    }
  }

  /** The lowest set bit of the first non-zero word is the least free frame. */
  lemma LowestBit(words: seq<nat>, wi: nat)
    requires AllWords(words) && wi < |words| && words[wi] != 0
    requires forall i :: 0 <= i < wi ==> words[i] == 0
    ensures TrailingZeros(words[wi]) < 64
    ensures Lowest(FreeIn(words)) == Some(wi * 64 + TrailingZeros(words[wi]))
  {
    var bi := TrailingZeros(words[wi]);
    Pow2Of64();
    BitsBelowWidth(words[wi], 64, bi);
    var frame := wi * 64 + bi;
    FreeInMembers(words, frame);
    assert frame / 64 == wi && frame % 64 == bi;
    forall f | f in FreeIn(words) ensures frame <= f {
      FreeInMembers(words, f);
      if f / 64 < wi {
        ZeroHasNoBits(f % 64);
      }
    }
    assert Least(FreeIn(words), frame);
  }
}
