/**
 A block device with a volatile write cache (VIRTIO 1.0, section 5.2.6). Reads see the newest
 write. A flush that succeeds makes everything durable. At a crash each sector independently keeps
 its durable value, or any value written since the last flush, or a torn mixture.
 */
module Disk {
  import opened Machine
  import opened Codec
  import Fnv

  datatype Write = Write(lba: nat, data: Sector)

  /** `live` is what a read returns; `cache` holds every write since the last flush. */
  datatype Disk = Disk(durable: seq<Sector>, live: seq<Sector>, cache: set<Write>)

  ghost predicate Settled(d: Disk, l: nat) {
    forall w :: w in d.cache ==> w.lba != l
  }

  ghost predicate WellFormed(d: Disk) {
    && |d.live| == |d.durable|
    && 2 < |d.durable| < TWO_64
    && (forall l :: 0 <= l < |d.durable| && Settled(d, l) ==> d.live[l] == d.durable[l])
    && (forall l :: 0 <= l < |d.durable| && !Settled(d, l) ==> Write(l, d.live[l]) in d.cache)
  }

  /**
   What an interrupted write may leave behind. In the two superblock slots it is assumed not to
   validate; in the log it is arbitrary.
   */
  predicate Torn(l: nat, x: Sector) {
    l < 2 ==> DecodeSb(x).None?
  }

  /** The contents that sector `l` may have after a crash now. */
  ghost predicate MayHold(d: Disk, l: nat, x: Sector)
    requires l < |d.durable|
  {
    || x == d.durable[l]
    || Write(l, x) in d.cache
    || (!Settled(d, l) && Torn(l, x))
  }

  function Written(d: Disk, l: nat, x: Sector): Disk
    requires l < |d.live|
  {
    Disk(d.durable, d.live[l := x], d.cache + {Write(l, x)})
  }

  /** A write outside the device fails; one that fails inside may still have taken effect, whole or torn. */
  ghost predicate WriteSector(d: Disk, l: nat, x: Sector, ok: bool, d': Disk)
    requires WellFormed(d)
  {
    if l >= |d.durable| then !ok && d' == d
    else if ok then d' == Written(d, l, x)
    else d' == d || (exists y: Sector :: (y == x || Torn(l, y)) && d' == Written(d, l, y))
  }

  /** A flush that fails promises nothing: what it did persist is among what a crash may keep anyway. */
  ghost predicate Flush(d: Disk, ok: bool, d': Disk) {
    d' == if ok then Disk(d.live, d.live, {}) else d
  }

  ghost predicate Crash(d: Disk, d': Disk) {
    && |d'.durable| == |d.durable|
    && d' == Disk(d'.durable, d'.durable, {})
    && (forall l :: 0 <= l < |d.durable| ==> MayHold(d, l, d'.durable[l]))
  }

  /** Whatever a crash of `e` may leave, a crash of `d` may leave. */
  ghost predicate Covers(d: Disk, e: Disk) {
    |e.durable| == |d.durable| && forall l, x: Sector :: 0 <= l < |d.durable| && MayHold(e, l, x) ==> MayHold(d, l, x)
  }

  lemma CoveredCrash(d: Disk, e: Disk, c: Disk)
    requires Covers(d, e) && Crash(e, c)
    ensures Crash(d, c)
  {
  }

  /** The running hash over the first `len` bytes from sector `l`, sector by sector. */
  function Streamed(h: U64, image: seq<Sector>, l: nat, len: nat): (r: U64)
    requires len == 0 || l + Sectors(len) <= |image|
    decreases len
  {
    if len == 0 then h
    else
      var n := Min(len, 512);
      Streamed(Fnv.Fold(h, image[l][..n]), image, l + 1, len - n)
  }

  ghost predicate HoldsBytes(image: seq<Sector>, l: nat, bytes: seq<Byte>) {
    && l + Sectors(|bytes|) <= |image|
    && (forall k :: 0 <= k < Sectors(|bytes|) ==> image[l + k] == Chunk(bytes, k))
  }

  lemma {:induction false} StreamedFrom(h: U64, image: seq<Sector>, l: nat, bytes: seq<Byte>, k: nat)
    requires HoldsBytes(image, l, bytes)
    requires k <= Sectors(|bytes|) && 512 * k <= |bytes| + 511
    ensures k < Sectors(|bytes|) ==> 512 * k < |bytes|
    ensures var rest := if 512 * k < |bytes| then bytes[512 * k..] else [];
            && l + k + Sectors(|rest|) <= |image|
            && Streamed(h, image, l + k, |rest|) == Fnv.Fold(h, rest)
    decreases Sectors(|bytes|) - k
  {
    if 512 * k < |bytes| {
      var rest := bytes[512 * k..];
      var n := Min(|rest|, 512);
      assert image[l + k] == Chunk(bytes, k);
      assert image[l + k][..n] == rest[..n];
      StreamedFrom(Fnv.Fold(h, rest[..n]), image, l, bytes, k + 1);
      assert rest == rest[..n] + rest[n..];
      Fnv.FoldConcat(h, rest[..n], rest[n..]);
      assert rest[n..] == if 512 * (k + 1) < |bytes| then bytes[512 * (k + 1)..] else [];
    }
  }

  /** Re-hashing padded sectors one at a time gives the one-shot hash of the bytes. */
  lemma StreamingIsOneShot(image: seq<Sector>, l: nat, bytes: seq<Byte>)
    requires HoldsBytes(image, l, bytes)
    ensures Streamed(Fnv.BASIS, image, l, |bytes|) == Fnv.Hash(bytes)
  {
    StreamedFrom(Fnv.BASIS, image, l, bytes, 0);
    assert bytes[0..] == bytes;
  }

  // ---- the device operations on the state ----

  lemma WrittenKeepsOthers(d: Disk, l: nat, x: Sector)
    requires WellFormed(d) && l < |d.durable|
    ensures var d' := Written(d, l, x);
            && WellFormed(d')
            && !Settled(d', l)
            && (forall j :: j != l ==> (Settled(d, j) <==> Settled(d', j)))
            && (forall j, y: Sector :: 0 <= j < |d.durable| && j != l && MayHold(d', j, y) ==> MayHold(d, j, y))
            && (forall y: Sector :: MayHold(d', l, y) ==> MayHold(d, l, y) || y == x || Torn(l, y))
  {
    var d' := Written(d, l, x);
    assert Write(l, x) in d'.cache;
    forall j | j != l
      ensures Settled(d, j) <==> Settled(d', j)
    {
      if Settled(d', j) {
        forall w | w in d.cache ensures w.lba != j { assert w in d'.cache; }
      }
    }
  }

  /** A write, succeeding or not, concerns one sector and no durable value. */
  lemma WriteKeepsOthers(d: Disk, l: nat, x: Sector, ok: bool, d': Disk)
    requires WellFormed(d) && WriteSector(d, l, x, ok, d')
    ensures WellFormed(d') && d'.durable == d.durable
    ensures forall j :: 0 <= j < |d.durable| && j != l ==> d'.live[j] == d.live[j]
    ensures forall j :: j != l && Settled(d, j) ==> Settled(d', j)
    ensures forall j, y: Sector :: 0 <= j < |d.durable| && j != l && MayHold(d', j, y) ==> MayHold(d, j, y)
    ensures forall y: Sector :: l < |d.durable| && MayHold(d', l, y) ==> MayHold(d, l, y) || y == x || Torn(l, y)
  {
    if l < |d.durable| {
      forall y: Sector
        ensures WellFormed(Written(d, l, y))
      {
        WrittenKeepsOthers(d, l, y);
      }
    }
  }

  lemma FlushSettlesAll(d: Disk, d': Disk)
    requires WellFormed(d) && Flush(d, true, d')
    ensures WellFormed(d')
    ensures forall l :: Settled(d', l)
    ensures forall l, y: Sector :: 0 <= l < |d.durable| && MayHold(d', l, y) ==> y == d.live[l]
  {
  }
}
