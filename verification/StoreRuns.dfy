/**
 Whole runs of the store: any sequence of mounts, puts, device failures and crashes from a fresh
 disk, with a crash allowed between any two device operations.
 */
module StoreRuns {
  import opened Machine
  import opened Codec
  import opened Disk
  import opened StoreModel
  import opened StoreSafety
  import Fnv

  /** Consecutive states linked by events. */
  ghost predicate IsPath(path: seq<Sys>, events: seq<Event>) {
    && |path| == |events| + 1
    && (forall i :: 0 <= i < |path| ==> WellFormed(path[i].disk))
    && (forall i :: 0 <= i < |events| ==> Step(path[i], events[i], path[i + 1]))
  }

  /** No mount along the path takes an out-of-date slot because the newer one could not be read. */
  ghost predicate CurrentPath(path: seq<Sys>, events: seq<Event>) {
    && IsPath(path, events)
    && (forall i :: 0 <= i < |events| && events[i].Mount? ==>
          !StaleMount(path[i].disk.live, events[i].readA, events[i].readB))
  }

  ghost predicate IsRun(path: seq<Sys>, events: seq<Event>) {
    CurrentPath(path, events) && Fresh(path[0])
  }

  lemma {:induction false} InvAlongPath(path: seq<Sys>, events: seq<Event>, i: nat)
    requires CurrentPath(path, events) && Inv(path[0]) && i < |path|
    ensures Inv(path[i])
  {
    hide Inv, Step;
    if i > 0 {
      InvAlongPath(path, events, i - 1);
      StepKeepsInv(path[i - 1], events[i - 1], path[i]);
    }
  }

  lemma InvAlongRun(path: seq<Sys>, events: seq<Event>, i: nat)
    requires IsRun(path, events) && i < |path|
    ensures Inv(path[i])
  {
    FreshSatisfiesInv(path[0]);
    InvAlongPath(path, events, i);
  }

  /** What recover should report for a root: nothing for no object or an empty one. */
  function Expected(r: Option<Extent>): Option<(nat, nat, nat)> {
    match r
    case None => None
    case Some(e) => if e.bytes == [] then None else Some((e.lba, |e.bytes|, Fnv.Hash(e.bytes)))
  }

  lemma IntactHoldsBytes(d: Disk, e: Extent)
    requires WellFormed(d) && Intact(d, e)
    ensures HoldsBytes(d.live, e.lba, e.bytes) && HoldsBytes(d.durable, e.lba, e.bytes)
    ensures Streamed(Fnv.BASIS, d.live, e.lba, |e.bytes|) == Fnv.Hash(e.bytes)
  {
    forall k | 0 <= k < Sectors(|e.bytes|)
      ensures d.live[e.lba + k] == Chunk(e.bytes, k) && d.durable[e.lba + k] == Chunk(e.bytes, k)
    {
      assert SectorIntact(d, e, k);
    }
    StreamingIsOneShot(d.live, e.lba, e.bytes);
  }

  lemma SafeRootIsRecovered(d: Disk, sb: Superblock, r: Option<Extent>)
    requires WellFormed(d) && RootSafe(d, sb, r)
    ensures Recovered(d.live, sb) == Expected(r)
    ensures r.Some? ==> HoldsBytes(d.live, r.value.lba, r.value.bytes)
  {
    if r.Some? {
      IntactHoldsBytes(d, r.value);
    }
  }

  /**
   The mount found the last root or the one in limbo, whole, and recover reports exactly it; or it
   found the very superblock that a failed put of an empty object wrote, for which recover reports
   nothing. It found no older one: the mounted head is past everything acknowledged and past the
   last root.
   */
  ghost predicate MountAtomic(before: Sys, after: Sys)
    requires after.boot.Up?
  {
    && (|| after.last == before.last
        || (before.limbo.Some? && after.last == Some(before.limbo.value.extent))
        || (before.hollow == Some(after.boot.m.sb) && after.last == None))
    && Names(after.boot.m.sb, after.last)
    && (forall e :: e in before.acked ==> End(e) < after.boot.m.sb.logHead)
    && (before.last.Some? ==> End(before.last.value) < after.boot.m.sb.logHead)
    && Recovered(after.disk.live, after.boot.m.sb) == Expected(after.last)
    && (after.last.Some? ==> HoldsBytes(after.disk.live, after.last.value.lba, after.last.value.bytes))
    && RootAccepted(after)
  }

  /** The mounted root is empty or has the content its superblock names. */
  ghost predicate RootAccepted(s: Sys)
    requires s.boot.Up?
  {
    s.boot.m.sb.rootLen == 0 || Recovered(s.disk.live, s.boot.m.sb).Some?
  }

  lemma CleanMountIsAtomic(s: Sys, e: Event, s': Sys)
    requires Inv(s) && Step(s, e, s') && e.Mount? && s'.boot.Up? && !s.tainted && s'.boot.m.sb !in s.lost
    requires !StaleMount(s.disk.live, e.readA, e.readB)
    ensures MountAtomic(s, s')
  {
    hide DecodeSb, EncodeSb, Chunk, Header, RecordHeader, SectorIntact, Recovered, Fnv.Hash, SlotsSane, OtherSlotOk, NewerIsLive;
    StepKeepsInv(s, e, s');
    SafeRootIsRecovered(s'.disk, s'.boot.m.sb, s'.last);
  }

  /**
   Crash atomicity. In every run, when a mount succeeds, the root it finds is the last one (put and
   acknowledged, or found by the mount before) or the one put in limbo, whole: its bytes are on the
   disk and recover reports exactly it. The exception is a mount that finds the superblock of a failed
   put over which a further put was begun, and what follows it up to the next acknowledged put.
   */
  lemma CrashAtomicity(path: seq<Sys>, events: seq<Event>, i: nat)
    requires IsRun(path, events) && i < |events|
    requires events[i].Mount? && path[i + 1].boot.Up?
    requires !path[i].tainted
    ensures path[i + 1].boot.m.sb in path[i].lost || MountAtomic(path[i], path[i + 1])
  {
    hide MountAtomic;
    InvAlongRun(path, events, i);
    if path[i + 1].boot.m.sb !in path[i].lost {
      CleanMountIsAtomic(path[i], events[i], path[i + 1]);
    }
  }

  /** The same for a crash at any point of any run, in the middle of a put or not, and the next mount. */
  lemma CrashAnywhereIsAtomic(path: seq<Sys>, events: seq<Event>, i: nat, cut: Sys, e: Event, up: Sys)
    requires IsRun(path, events) && i < |path| && !path[i].tainted
    requires Step(path[i], PowerCut, cut) && WellFormed(cut.disk)
    requires e.Mount? && Step(cut, e, up) && up.boot.Up?
    requires !StaleMount(cut.disk.live, e.readA, e.readB)
    ensures up.boot.m.sb in path[i].lost || MountAtomic(path[i], up)
  {
    InvAlongRun(path, events, i);
    StepKeepsInv(path[i], PowerCut, cut);
    if up.boot.m.sb !in path[i].lost {
      CleanMountIsAtomic(cut, e, up);
      assert MountAtomic(cut, up);
    }
  }

  lemma AckedGrows(s: Sys, e: Event, s': Sys)
    requires WellFormed(s.disk) && Step(s, e, s')
    ensures s.acked <= s'.acked
  {
    hide DecodeSb, EncodeSb, Chunk, Header, Sectors, Crash, WriteSector, Flush, NextSb;
  }

  lemma {:induction false} AckedForever(path: seq<Sys>, events: seq<Event>, i: nat, j: nat)
    requires CurrentPath(path, events) && i <= j < |path|
    ensures path[i].acked <= path[j].acked
    decreases j
  {
    hide Step;
    if i < j {
      AckedForever(path, events, i, j - 1);
      AckedGrows(path[j - 1], events[j - 1], path[j]);
    }
  }

  lemma AckedIsIntact(s: Sys, e: Extent)
    requires Inv(s) && e in s.acked
    ensures Intact(s.disk, e)
    ensures s.boot.Up? ==> End(e) < s.boot.m.sb.logHead
    ensures !s.boot.Up? ==> Newest(s.disk.durable).Some? && End(e) < Newest(s.disk.durable).value.sb.logHead
  {
  }

  /** The sector behind the data names its length, its hash and the root before it. */
  ghost predicate HasHeader(image: seq<Sector>, e: Extent) {
    && e.lba + Sectors(|e.bytes|) < |image|
    && image[e.lba + Sectors(|e.bytes|)] == Header(|e.bytes|, Fnv.Hash(e.bytes), e.prev)
  }

  /**
   Acknowledged extents are immutable. After any later steps at all (puts that succeed or fail
   anywhere, crashes, mounts) the extent still holds its bytes and re-hashes to its name, would
   still do so after a crash at that very moment, lies below the head of whatever is mounted, and has
   its record header right behind it.
   */
  lemma AckedExtentsImmutable(path: seq<Sys>, events: seq<Event>, i: nat, j: nat, e: Extent)
    requires IsRun(path, events) && i <= j < |path|
    requires e in path[i].acked
    ensures WellFormed(path[j].disk) && HoldsBytes(path[j].disk.live, e.lba, e.bytes)
    ensures Streamed(Fnv.BASIS, path[j].disk.live, e.lba, |e.bytes|) == Fnv.Hash(e.bytes)
    ensures forall d :: Crash(path[j].disk, d) ==> HoldsBytes(d.live, e.lba, e.bytes)
    ensures path[j].boot.Up? ==> End(e) < path[j].boot.m.sb.logHead
    ensures HasHeader(path[j].disk.live, e) && forall d :: Crash(path[j].disk, d) ==> HasHeader(d.live, e)
  {
    hide Inv, Step, Fresh, HoldsBytes, HasHeader, Streamed, Crash;
    AckedForever(path, events, i, j);
    InvAlongRun(path, events, j);
    AckedIsIntact(path[j], e);
    IntactHoldsBytes(path[j].disk, e);
    IntactHasHeader(path[j].disk, e);
    forall d | Crash(path[j].disk, d)
      ensures HoldsBytes(d.live, e.lba, e.bytes) && HasHeader(d.live, e)
    {
      IntactAfterCrash(path[j], d, e);
    }
  }

  lemma IntactHasHeader(d: Disk, e: Extent)
    requires WellFormed(d) && Intact(d, e)
    ensures HasHeader(d.live, e)
  {
    hide Header;
  }

  lemma IntactAfterCrash(s: Sys, d: Disk, e: Extent)
    requires Inv(s) && Intact(s.disk, e) && Crash(s.disk, d)
    ensures HoldsBytes(d.live, e.lba, e.bytes) && HasHeader(d.live, e)
  {
    hide HoldsBytes, HasHeader, Streamed, SectorIntact, RecordHeader, DecodeSb;
    CrashKeepsSlots(s.disk, d);
    IntactHoldsBytes(d, e);
    IntactHasHeader(d, e);
  }

  /**
   The log has no gaps and its records are chained. A put that is acknowledged puts its record right
   behind that of the last root and names it as the root before; on a formatted disk it begins at
   sector 2 and names none.
   */
  lemma RecordsAreChained(path: seq<Sys>, events: seq<Event>, i: nat)
    requires IsRun(path, events) && i < |events| && events[i] == CommitFlush(true)
    ensures var s, s' := path[i], path[i + 1];
            && s'.last.Some? && s'.acked == s.acked + {s'.last.value}
            && var x := s'.last.value;
            && x.bytes == s.job.bytes && HasHeader(s'.disk.durable, x)
            && (!s.tainted && s.last.Some? ==>
                  x.lba == s.last.value.lba + Sectors(|s.last.value.bytes|) + 1 && x.prev == s.last.value.lba)
            && (s.boot.m.sb.seqNo == 1 ==> x.lba == 2 && x.prev == 0)
  {
    hide DecodeSb, EncodeSb, Header, Chunk, NextSb, SlotsSane, OtherSlotOk, NewerIsLive;
    InvAlongRun(path, events, i);
    InvAlongRun(path, events, i + 1);
    MountedSane(path[i]);
    AckedIsIntact(path[i + 1], path[i + 1].last.value);
  }

  /** At any time slot 0 can only hold odd and slot 1 even sequence numbers, so mount meets no tie. */
  lemma SlotsNeverTie(path: seq<Sys>, events: seq<Event>, i: nat, x: Sector, y: Sector)
    requires IsRun(path, events) && i < |path|
    requires MayHold(path[i].disk, 0, x) && MayHold(path[i].disk, 1, y)
    ensures DecodeSb(x).Some? ==> DecodeSb(x).value.seqNo % 2 == 1
    ensures DecodeSb(y).Some? ==> DecodeSb(y).value.seqNo % 2 == 0
  {
    InvAlongRun(path, events, i);
  }

  /** Recover reports no root whose bytes differ from the named ones in one place. */
  lemma AlteredRootRejected(image: seq<Sector>, sb: Superblock, e: Extent, actual: seq<Byte>, i: nat)
    requires Names(sb, Some(e))
    requires Fnv.DifferOnlyAt(e.bytes, actual, i)
    requires HoldsBytes(image, e.lba, actual)
    ensures Recovered(image, sb) == None
  {
    StreamingIsOneShot(image, e.lba, actual);
    Fnv.SingleByteChangeDetected(Fnv.BASIS, e.bytes, actual, i);
  }

  // ---- when exactly a put may be begun ----

  /** The other slot may after a crash hold a superblock newer than the mounted one, of a non-empty object. */
  ghost predicate Exposed(s: Sys)
    requires WellFormed(s.disk) && s.boot.Up?
  {
    exists y: Sector :: IsExposed(s, y)
  }

  ghost predicate IsExposed(s: Sys, y: Sector)
    requires WellFormed(s.disk) && s.boot.Up?
  {
    s.boot.m.slot < 2 && MayHold(s.disk, OtherSlot(s.boot.m.slot), y) && IsNewer(s.boot.m, y)
  }

  lemma ExposedExactlyIfLive(s: Sys)
    requires Inv(s) && s.boot.Up? && s.lost == {}
    ensures Exposed(s) <==> NewerInOtherSlot(s)
  {
    hide DecodeSb, MayHold;
    LiveIsPossible(s.disk, OtherSlot(s.boot.m.slot));
    if NewerInOtherSlot(s) {
      assert IsExposed(s, s.disk.live[OtherSlot(s.boot.m.slot)]);
    }
  }

  /** One put and whatever may happen to it and after it, but no second put. */
  ghost predicate OnePut(events: seq<Event>) {
    && |events| > 0 && events[0].Begin?
    && (forall i :: 1 <= i < |events| ==> !events[i].Begin?)
  }

  /** However a put begun now goes, every later mount finds a root that recover accepts. */
  ghost predicate PutIsCrashSafe(s: Sys) {
    forall path: seq<Sys>, events: seq<Event>, i: nat ::
      (&& CurrentPath(path, events) && path[0] == s && OnePut(events)
       && i < |events| && events[i].Mount? && path[i + 1].boot.Up?) ==> RootAccepted(path[i + 1])
  }

  /** No put was begun over a newer superblock, or one has been acknowledged since. */
  predicate Clean(s: Sys) {
    s.lost == {} && !s.tainted
  }

  lemma TaintNeedsNewer(s: Sys, e: Event, s': Sys)
    requires WellFormed(s.disk) && Step(s, e, s') && Clean(s)
    requires e.Begin? && s.boot.Up? ==> !NewerInOtherSlot(s)
    ensures Clean(s')
  {
    hide DecodeSb, EncodeSb, Chunk, Header, Sectors, Crash, WriteSector, Flush, NextSb, NewerInOtherSlot;
  }

  /** A superblock gets lost only by a put begun over it, and taints only by being mounted. */
  lemma HowLossArises(s: Sys, e: Event, s': Sys)
    requires WellFormed(s.disk) && Step(s, e, s')
    ensures !(s'.lost <= s.lost) ==> e.Begin? && NewerInOtherSlot(s)
    ensures s'.tainted && !s.tainted ==> e.Mount? && s'.boot.Up? && s'.boot.m.sb in s.lost
    ensures e == CommitFlush(true) ==> Clean(s')
  {
    hide DecodeSb, EncodeSb, Chunk, Header, Sectors, Crash, WriteSector, Flush, NextSb, NewerInOtherSlot;
  }

  /** Along the path no put is begun while a newer superblock is to be read in the other slot. */
  ghost predicate Careful(path: seq<Sys>, events: seq<Event>)
    requires IsPath(path, events)
  {
    forall i :: 0 <= i < |events| && events[i].Begin? && path[i].boot.Up? ==> !NewerInOtherSlot(path[i])
  }

  lemma {:induction false} CarefulStaysClean(path: seq<Sys>, events: seq<Event>, i: nat)
    requires IsPath(path, events) && Careful(path, events) && Clean(path[0]) && i < |path|
    ensures Clean(path[i])
  {
    hide Step, NewerInOtherSlot;
    if i > 0 {
      CarefulStaysClean(path, events, i - 1);
      TaintNeedsNewer(path[i - 1], events[i - 1], path[i]);
    }
  }

  /**
   Crash atomicity without exception for a store that looks first: in every run in which each put is
   begun only when a read of the other slot finds no newer superblock of a non-empty object, every
   mount that succeeds is atomic.
   */
  lemma CarefulRunIsAtomic(path: seq<Sys>, events: seq<Event>, i: nat)
    requires IsRun(path, events) && Careful(path, events)
    requires i < |events| && events[i].Mount? && path[i + 1].boot.Up?
    ensures MountAtomic(path[i], path[i + 1])
  {
    hide Step, MountAtomic, Careful;
    CarefulStaysClean(path, events, i);
    CrashAtomicity(path, events, i);
  }

  lemma SafeUnlessNewer(s: Sys)
    requires Inv(s) && s.boot.Up? && s.job.Idle? && Clean(s) && !NewerInOtherSlot(s)
    ensures PutIsCrashSafe(s)
  {
    hide Inv, Step, NewerInOtherSlot;
    forall path: seq<Sys>, events: seq<Event>, i: nat |
      && CurrentPath(path, events) && path[0] == s && OnePut(events)
      && i < |events| && events[i].Mount? && path[i + 1].boot.Up?
      ensures RootAccepted(path[i + 1])
    {
      InvAlongPath(path, events, i);
      CarefulStaysClean(path, events, i);
      CleanMountIsAtomic(path[i], events[i], path[i + 1]);
    }
  }

  // ---- how an exposed object is lost ----

  /** The object in limbo with its first byte changed. */
  function Altered(bytes: seq<Byte>): (q: seq<Byte>)
    requires bytes != []
    ensures |q| == |bytes| && Fnv.DifferOnlyAt(bytes, q, 0)
  {
    bytes[0 := if bytes[0] == 0 then 1 else 0]
  }

  lemma AlteredChunks(bytes: seq<Byte>, k: nat)
    requires bytes != [] && 0 < k < Sectors(|bytes|)
    ensures Chunk(Altered(bytes), k) == Chunk(bytes, k)
  {
  }

  /** The superblock that is exposed names the object in limbo, which lies whole at the mounted head. */
  lemma ExposedNamesLimbo(s: Sys, y: Sector)
    requires Inv(s) && s.boot.Up? && s.job.Idle? && Clean(s) && IsExposed(s, y)
    ensures AtRisk(s) && RootSafe(s.disk, DecodeSb(y).value, Some(s.limbo.value.extent))
  {
    hide DecodeSb, EncodeSb, Chunk, Header, NewerInOtherSlot;
    MountedSane(s);
    ExposedExactlyIfLive(s);
    assert OtherOk(s, s.boot.m, DecodeSb(y).value);
  }

  ghost predicate AtRisk(s: Sys) {
    && WellFormed(s.disk) && s.boot.Up? && s.boot.m.slot < 2 && s.job.Idle? && s.limbo.Some? && NewerInOtherSlot(s)
    && var x := s.limbo.value.extent;
    && x.bytes != [] && LimboOk(s.limbo.value, s.boot.m) && Intact(s.disk, x)
  }

  /** The next put overwrites the first sector of the object in limbo, and then the power fails. */
  ghost function LosingState(s: Sys, y: Sector, k: nat): (r: Sys)
    requires AtRisk(s)
  {
    var m, q := s.boot.m, Altered(s.limbo.value.extent.bytes);
    var d := Written(s.disk, m.sb.logHead, Chunk(q, 0));
    var image := d.live[OtherSlot(m.slot) := y];
    var lost := s.lost + {DecodeSb(s.disk.live[OtherSlot(m.slot)]).value};
    var begun := s.(limbo := None, lost := lost, job := Putting(q, Data(0)));
    var cut := s.(limbo := None, lost := lost, boot := Booting, disk := Disk(image, image, {}));
    if k == 0 then s
    else if k == 1 then begun
    else if k == 2 then
      begun.(disk := d, job := Putting(q, if 1 == Sectors(|q|) then HeaderNext else Data(1)))
    else if k == 3 then cut
    else AfterMount(cut, true, true)
  }

  ghost function LosingEvents(s: Sys): seq<Event>
    requires AtRisk(s)
  {
    [Begin(Altered(s.limbo.value.extent.bytes)), WriteData(true), PowerCut, Mount(true, true)]
  }

  ghost function LosingRun(s: Sys, y: Sector): seq<Sys>
    requires AtRisk(s)
  {
    [s, LosingState(s, y, 1), LosingState(s, y, 2), LosingState(s, y, 3), LosingState(s, y, 4)]
  }

  lemma LosingRunIsPath(s: Sys, y: Sector)
    requires AtRisk(s) && MayHold(s.disk, OtherSlot(s.boot.m.slot), y)
    ensures CurrentPath(LosingRun(s, y), LosingEvents(s))
  {
    hide DecodeSb, EncodeSb, Chunk, NextSb, Altered, Header, RecordHeader, SectorIntact;
    var q := Altered(s.limbo.value.extent.bytes);
    var l := s.boot.m.sb.logHead;
    WrittenKeepsOthers(s.disk, l, Chunk(q, 0));
    var d, d' := LosingState(s, y, 2).disk, LosingState(s, y, 3).disk;
    forall j | 0 <= j < |d.durable| ensures MayHold(d, j, d'.durable[j]) { LiveIsPossible(d, j); }
    assert Step(LosingState(s, y, 0), LosingEvents(s)[0], LosingState(s, y, 1));
    assert Step(LosingState(s, y, 1), LosingEvents(s)[1], LosingState(s, y, 2));
    assert Step(LosingState(s, y, 2), LosingEvents(s)[2], LosingState(s, y, 3));
    assert Step(LosingState(s, y, 3), LosingEvents(s)[3], LosingState(s, y, 4));
  }

  lemma LosingEnd(s: Sys, y: Sector)
    requires Inv(s) && s.boot.Up? && s.job.Idle? && Clean(s) && IsExposed(s, y) && AtRisk(s)
    ensures LosingState(s, y, 4).boot.Up?
    ensures !RootAccepted(LosingState(s, y, 4))
  {
    hide DecodeSb, EncodeSb, Chunk, SlotsSane, Streamed, Fnv.Hash, Altered, Header, RecordHeader, OtherSlotOk, NewerIsLive;
    MountedSane(s);
    ExposedNamesLimbo(s, y);
    var m, x, sb := s.boot.m, s.limbo.value.extent, DecodeSb(y).value;
    var q, image := Altered(x.bytes), LosingState(s, y, 3).disk.live;
    assert image[OtherSlot(m.slot)] == y;
    assert image[m.slot] == s.disk.durable[m.slot];
    assert Newest(image) == Some(Mounted(sb, OtherSlot(m.slot)));
    IntactHoldsBytes(s.disk, x);
    forall k | 0 <= k < Sectors(|q|) ensures image[x.lba + k] == Chunk(q, k) {
      if k > 0 {
        AlteredChunks(x.bytes, k);
      }
    }
    AlteredRootRejected(image, sb, x, q, 0);
  }

  lemma LostMount(s: Sys, path: seq<Sys>, events: seq<Event>, i: nat)
    requires CurrentPath(path, events) && path[0] == s && OnePut(events)
    requires i < |events| && events[i].Mount? && path[i + 1].boot.Up?
    requires !RootAccepted(path[i + 1])
    ensures !PutIsCrashSafe(s)
  {
    hide CurrentPath, OnePut, RootAccepted;
  }

  lemma UnsafeIfExposed(s: Sys, y: Sector)
    requires Inv(s) && s.boot.Up? && s.job.Idle? && Clean(s) && IsExposed(s, y)
    ensures !PutIsCrashSafe(s)
  {
    hide PutIsCrashSafe, Inv, CurrentPath, RootAccepted, LosingState, DecodeSb, AtRisk, MayHold, WellFormed, RootSafe;
    ExposedNamesLimbo(s, y);
    ExposedExactlyIfLive(s);
    LosingRunIsPath(s, y);
    LosingEnd(s, y);
    LostMount(s, LosingRun(s, y), LosingEvents(s), 3);
  }

  /**
   Beginning a put keeps crash atomicity exactly when a read of the other slot finds no superblock
   newer than the mounted one, of a non-empty object. Otherwise that superblock is of an earlier put
   that was not acknowledged: the new put overwrites the bytes it names, and after a crash recover
   rejects the root although the acknowledged one is untouched.
   */
  lemma PutIsCrashSafeExactly(s: Sys)
    requires Inv(s) && s.boot.Up? && s.job.Idle? && Clean(s)
    ensures PutIsCrashSafe(s) <==> !NewerInOtherSlot(s)
  {
    assert WellFormed(s.disk);
    ExposedExactlyIfLive(s);
    hide PutIsCrashSafe, Inv, IsExposed, NewerInOtherSlot;
    if Exposed(s) {
      var y: Sector :| IsExposed(s, y);
      UnsafeIfExposed(s, y);
    } else {
      SafeUnlessNewer(s);
    }
  }

  /** A store that always looks first can go on relying on what it sees. */
  lemma CarefulPutIsCrashSafeExactly(path: seq<Sys>, events: seq<Event>, i: nat)
    requires IsRun(path, events) && Careful(path, events) && i < |path|
    requires path[i].boot.Up? && path[i].job.Idle?
    ensures PutIsCrashSafe(path[i]) <==> !NewerInOtherSlot(path[i])
  {
    hide Step, PutIsCrashSafe, NewerInOtherSlot, Careful, Inv;
    InvAlongRun(path, events, i);
    CarefulStaysClean(path, events, i);
    PutIsCrashSafeExactly(path[i]);
  }

  /** A put of a non-empty object that fails at its very last flush leaves the store exposed. */
  lemma UnconfirmedCommitExposes(s: Sys, s': Sys)
    requires Inv(s) && Step(s, CommitFlush(false), s') && s.job.bytes != []
    ensures Exposed(s') && (Clean(s) ==> Clean(s')) && s'.job.Idle?
  {
    hide DecodeSb, EncodeSb, Chunk, Header;
    var m := s.boot.m;
    assert PutOk(s, m);
    NextSbIsNewer(s);
    SuperblockRoundTrip(NextSb(m, s.job.bytes));
    LiveIsPossible(s.disk, OtherSlot(m.slot));
    assert IsExposed(s', s.disk.live[OtherSlot(m.slot)]);
  }

  // ---- such a state is reached ----

  ghost predicate Ends(path: seq<Sys>, events: seq<Event>, s: Sys, t: Sys) {
    IsRun(path, events) && path[0] == s && path[|events|] == t
  }

  /** Some run leads from `s` to `t`. */
  ghost predicate Reachable(s: Sys, t: Sys) {
    exists path: seq<Sys>, events: seq<Event> :: Ends(path, events, s, t)
  }

  lemma ReachableInitially(s: Sys)
    requires Fresh(s)
    ensures Reachable(s, s)
  {
    assert Ends([s], [], s, s);
  }

  lemma ReachableNext(s: Sys, t: Sys, e: Event, u: Sys)
    requires Reachable(s, t) && WellFormed(t.disk) && WellFormed(u.disk) && Step(t, e, u)
    requires e.Mount? ==> !StaleMount(t.disk.live, e.readA, e.readB)
    ensures Reachable(s, u)
  {
    hide Step, WellFormed, Fresh, StaleMount;
    var path: seq<Sys>, events: seq<Event> :| Ends(path, events, s, t);
    assert Ends(path + [u], events + [e], s, u);
  }

  lemma ReachableInv(s: Sys, t: Sys)
    requires Reachable(s, t)
    ensures Inv(t)
  {
    hide Inv;
    var path: seq<Sys>, events: seq<Event> :| Ends(path, events, s, t);
    InvAlongRun(path, events, |events|);
  }

  // What the device may do when it works.

  lemma DataCanBeWritten(s: Sys) returns (t: Sys)
    requires WellFormed(s.disk) && s.boot.Up? && s.job.Putting? && s.job.phase == Data(0)
    requires Sectors(|s.job.bytes|) == 1 && s.boot.m.sb.logHead < |s.disk.live|
    ensures Step(s, WriteData(true), t) && WellFormed(t.disk) && |t.disk.live| == |s.disk.live|
    ensures t == s.(disk := t.disk, job := Putting(s.job.bytes, HeaderNext))
  {
    hide Chunk;
    var l, x := s.boot.m.sb.logHead, Chunk(s.job.bytes, 0);
    WrittenKeepsOthers(s.disk, l, x);
    t := Onward(s, true, Written(s.disk, l, x), NextData(s));
  }

  lemma HeaderCanBeWritten(s: Sys) returns (t: Sys)
    requires WellFormed(s.disk) && s.boot.Up? && s.job.Putting? && s.job.phase.HeaderNext?
    requires End(Pending(s.boot.m, s.job.bytes)) < |s.disk.live|
    ensures Step(s, WriteHeader(true), t) && WellFormed(t.disk)
    ensures t == s.(disk := t.disk, job := Putting(s.job.bytes, Barrier))
  {
    hide Header;
    var l := End(Pending(s.boot.m, s.job.bytes));
    var x := Header(|s.job.bytes|, Fnv.Hash(s.job.bytes), s.boot.m.sb.rootLba);
    WrittenKeepsOthers(s.disk, l, x);
    t := Onward(s, true, Written(s.disk, l, x), Barrier);
  }

  lemma RecordCanBeFlushed(s: Sys) returns (t: Sys)
    requires WellFormed(s.disk) && s.boot.Up? && s.job.Putting? && s.job.phase.Barrier?
    ensures Step(s, DataFlush(true), t) && WellFormed(t.disk) && |t.disk.live| == |s.disk.live|
    ensures t == s.(disk := t.disk, job := Putting(s.job.bytes, Flip))
  {
    t := Onward(s, true, Disk(s.disk.live, s.disk.live, {}), Flip);
  }

  lemma SlotCanBeWritten(s: Sys) returns (t: Sys)
    requires WellFormed(s.disk) && s.boot.Up? && s.job.Putting? && s.job.phase.Flip? && |s.job.bytes| <= U32_MAX
    ensures Step(s, WriteSlot(true), t) && WellFormed(t.disk)
    ensures t.boot == s.boot && t.job == Putting(s.job.bytes, Commit) && t.tainted == s.tainted && t.lost == s.lost
  {
    hide EncodeSb, NextSb;
    var o, x := OtherSlot(s.boot.m.slot), EncodeSb(NextSb(s.boot.m, s.job.bytes));
    WrittenKeepsOthers(s.disk, o, x);
    t := AfterWriteSlot(s, true, Written(s.disk, o, x));
  }

  lemma CommitCanFail(s: Sys) returns (t: Sys)
    requires WellFormed(s.disk) && s.boot.Up? && s.job.Putting? && s.job.phase.Commit? && |s.job.bytes| <= U32_MAX
    ensures Step(s, CommitFlush(false), t) && t == s.(job := Idle)
  {
    t := AfterCommit(s, false, s.disk);
  }

  lemma FreshMountFormats(s: Sys) returns (t: Sys)
    requires Fresh(s)
    ensures Step(s, Mount(true, true), t) && !StaleMount(s.disk.live, true, true)
    ensures t == s.(job := Formatting(false))
  {
    NothingCached(s.disk);
    hide DecodeSb;
    t := AfterMount(s, true, true);
  }

  lemma FormatCanSucceed(s: Sys) returns (t: Sys, u: Sys)
    requires WellFormed(s.disk) && s.job == Formatting(false)
    ensures Step(s, FormatWrite(true), t) && WellFormed(t.disk)
    ensures Step(t, FormatFlush(true), u) && WellFormed(u.disk) && |u.disk.live| == |s.disk.live|
    ensures u == s.(disk := u.disk, job := Idle, boot := Up(Mounted(FORMAT_SB, 0)))
    ensures u.disk.live[1] == s.disk.live[1]
  {
    hide EncodeSb;
    WrittenKeepsOthers(s.disk, 0, EncodeSb(FORMAT_SB));
    t := AfterFormatWrite(s, true, Written(s.disk, 0, EncodeSb(FORMAT_SB)));
    u := AfterFormatFlush(t, true, Disk(t.disk.live, t.disk.live, {}));
  }

  /** Mounting a fresh disk formats it, when the device does not fail. */
  lemma FormattingRun(s: Sys) returns (t: Sys)
    requires Fresh(s)
    ensures Reachable(s, t) && WellFormed(t.disk) && |t.disk.live| == |s.disk.live|
    ensures t.boot == Up(Mounted(FORMAT_SB, 0)) && t.job.Idle? && Clean(t) && !NewerInOtherSlot(t)
  {
    ReachableInitially(s);
    NothingCached(s.disk);
    var s1 := FreshMountFormats(s);
    assert |s.disk.live| > 2 && DecodeSb(s1.disk.live[1]).None?;
    hide Reachable, Step, WellFormed, StaleMount, DecodeSb, Fresh;
    ReachableNext(s, s, Mount(true, true), s1);
    var s2, s3 := FormatCanSucceed(s1);
    ReachableNext(s, s1, FormatWrite(true), s2);
    ReachableNext(s, s2, FormatFlush(true), s3);
    t := s3;
  }

  /** In any mounted idle state with room, a put of one sector's worth may fail at its last flush. */
  lemma FailingPut(s0: Sys, s: Sys, bytes: seq<Byte>) returns (t: Sys)
    requires Reachable(s0, s) && WellFormed(s.disk)
    requires s.boot.Up? && s.job.Idle? && Clean(s) && !NewerInOtherSlot(s)
    requires s.boot.m.sb.logHead + 1 < |s.disk.live| && 0 < |bytes| <= 512
    ensures Reachable(s0, t) && WellFormed(t.disk)
    ensures t.boot.Up? && t.job.Idle? && Clean(t) && Exposed(t)
  {
    var s1 := AfterBegin(s, bytes);
    assert Step(s, Begin(bytes), s1);
    hide Reachable, Step, WellFormed, Exposed, Inv;
    ReachableNext(s0, s, Begin(bytes), s1);
    var s2 := DataCanBeWritten(s1);
    ReachableNext(s0, s1, WriteData(true), s2);
    var s3 := HeaderCanBeWritten(s2);
    ReachableNext(s0, s2, WriteHeader(true), s3);
    var s4 := RecordCanBeFlushed(s3);
    ReachableNext(s0, s3, DataFlush(true), s4);
    var s5 := SlotCanBeWritten(s4);
    ReachableNext(s0, s4, WriteSlot(true), s5);
    ReachableInv(s0, s5);
    t := CommitCanFail(s5);
    ReachableNext(s0, s5, CommitFlush(false), t);
    UnconfirmedCommitExposes(s5, t);
  }

  /**
   The failure is real: from every fresh disk with room for one record, a run of ordinary device
   behaviour and one failing flush ends in a state in which beginning a put is not crash safe.
   */
  lemma UnsafePutIsReachable(s: Sys)
    requires Fresh(s) && |s.disk.live| >= 4
    ensures exists t :: Reachable(s, t) && t.boot.Up? && t.job.Idle? && Clean(t) && !PutIsCrashSafe(t)
  {
    hide PutIsCrashSafe, Reachable, Exposed, Inv;
    var s1 := FormattingRun(s);
    var t := FailingPut(s, s1, [0]);
    ReachableInv(s, t);
    ExposedExactlyIfLive(t);
    PutIsCrashSafeExactly(t);
  }

  // ---- why an out-of-date mount is excluded ----

  /** The boot after an acknowledged put reads only the older slot, and the next put is begun. */
  ghost function StaleEvents(m: Mounted, e: Extent): seq<Event>
    requires e.bytes != []
  {
    [PowerCut, Mount(m.slot == 0, m.slot == 1), Begin(Altered(e.bytes)), WriteData(true)]
  }

  /**
   What an out-of-date mount costs, and why runs exclude it: after any acknowledged put of a non-empty
   object, if the next boot cannot read the slot just written, it mounts the older one, and the next
   put destroys the acknowledged extent.
   */
  lemma StaleMountDestroysAcked(s0: Sys, s: Sys) returns (path: seq<Sys>, e: Extent)
    requires Inv(s0) && Step(s0, CommitFlush(true), s) && WellFormed(s.disk) && s0.job.bytes != []
    ensures e in s.acked && e == Pending(s0.boot.m, s0.job.bytes)
    ensures IsPath(path, StaleEvents(s0.boot.m, e)) && path[0] == s
    ensures StaleMount(path[1].disk.live, s0.boot.m.slot == 0, s0.boot.m.slot == 1)
    ensures e in path[4].acked && !HoldsBytes(path[4].disk.live, e.lba, e.bytes)
  {
    var m := s0.boot.m;
    e := Pending(m, s0.job.bytes);
    CommittedSlots(s0, s);
    hide Inv, Step, IsPath, DecodeSb, StaleMount, Chunk, Altered;
    path := StalePath(s, m, e);
    Overwritten(s.disk.live, e);
  }

  /** After a commit the two slots hold the superblocks before and after it, and nothing is cached. */
  lemma CommittedSlots(s0: Sys, s: Sys)
    requires Inv(s0) && Step(s0, CommitFlush(true), s) && WellFormed(s.disk)
    ensures var m := s0.boot.m;
            && m.slot < 2 && s.disk.cache == {} && s.disk.live == s.disk.durable
            && DecodeSb(s.disk.live[m.slot]) == Some(m.sb)
            && DecodeSb(s.disk.live[OtherSlot(m.slot)]).Some?
            && DecodeSb(s.disk.live[OtherSlot(m.slot)]).value.seqNo == m.sb.seqNo + 1
            && End(Pending(m, s0.job.bytes)) < |s.disk.live|
            && |s0.job.bytes| <= U32_MAX && Pending(m, s0.job.bytes) in s.acked
  {
    hide DecodeSb, EncodeSb, Chunk, Header;
    assert PutOk(s0, s0.boot.m);
    NextSbIsNewer(s0);
    SuperblockRoundTrip(NextSb(s0.boot.m, s0.job.bytes));
  }

  lemma StalePath(s: Sys, m: Mounted, e: Extent) returns (path: seq<Sys>)
    requires WellFormed(s.disk) && s.disk.cache == {} && s.disk.live == s.disk.durable && m.slot < 2
    requires DecodeSb(s.disk.live[m.slot]) == Some(m.sb)
    requires DecodeSb(s.disk.live[OtherSlot(m.slot)]).Some?
    requires DecodeSb(s.disk.live[OtherSlot(m.slot)]).value.seqNo == m.sb.seqNo + 1
    requires e == Pending(m, e.bytes) && 0 < |e.bytes| <= U32_MAX && End(e) < |s.disk.live|
    ensures StaleMount(s.disk.live, m.slot == 0, m.slot == 1)
    ensures IsPath(path, StaleEvents(m, e)) && path[0] == s && path[1].disk == s.disk
    ensures path[4].acked == s.acked && path[4].disk.live == s.disk.live[e.lba := Chunk(Altered(e.bytes), 0)]
  {
    hide DecodeSb, Chunk, Altered;
    var q := Altered(e.bytes);
    WrittenKeepsOthers(s.disk, e.lba, Chunk(q, 0));
    var cut := s.(boot := Booting, job := Idle);
    assert Step(s, PowerCut, cut);
    var up := AfterMount(cut, m.slot == 0, m.slot == 1);
    assert up.boot == Up(m) && Step(cut, StaleEvents(m, e)[1], up);
    var begun := AfterBegin(up, q);
    assert Step(up, StaleEvents(m, e)[2], begun);
    var over := Onward(begun, true, Written(begun.disk, e.lba, Chunk(q, 0)), NextData(begun));
    assert Step(begun, StaleEvents(m, e)[3], over);
    path := [s, cut, up, begun, over];
  }

  lemma Overwritten(image: seq<Sector>, e: Extent)
    requires e.bytes != [] && End(e) <= |image|
    ensures !HoldsBytes(image[e.lba := Chunk(Altered(e.bytes), 0)], e.lba, e.bytes)
  {
    assert Chunk(Altered(e.bytes), 0)[0] != Chunk(e.bytes, 0)[0];
    assert image[e.lba := Chunk(Altered(e.bytes), 0)][e.lba + 0] != Chunk(e.bytes, 0);
  }
}
