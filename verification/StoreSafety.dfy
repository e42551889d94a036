/**
 What every step of the store keeps: slots sane, the root and all acknowledged extents intact, and in
 the other slot nothing newer than the mounted superblock except that of a put in limbo.
 */
module StoreSafety {
  import opened Machine
  import opened Codec
  import opened Disk
  import opened StoreModel
  import Fnv

  // ---- the invariant ----

  ghost predicate SectorIntact(d: Disk, e: Extent, k: nat)
    requires k < Sectors(|e.bytes|) && End(e) <= |d.durable|
  {
    Settled(d, e.lba + k) && d.durable[e.lba + k] == Chunk(e.bytes, k)
  }

  function RecordHeader(e: Extent): Sector {
    Header(|e.bytes|, Fnv.Hash(e.bytes), e.prev)
  }

  /** The extent's sectors and the header behind them are durable, hold its bytes, and have no write outstanding. */
  ghost predicate Intact(d: Disk, e: Extent) {
    && LOG_START <= e.lba
    && End(e) < |d.durable|
    && Settled(d, End(e)) && d.durable[End(e)] == RecordHeader(e)
    && (forall k :: 0 <= k < Sectors(|e.bytes|) ==> SectorIntact(d, e, k))
  }

  ghost predicate Names(sb: Superblock, r: Option<Extent>) {
    match r
    case None => sb.rootLen == 0
    case Some(e) => sb.rootLba == e.lba && sb.rootLen == |e.bytes| && sb.rootHash == Fnv.Hash(e.bytes)
  }

  ghost predicate RootSafe(d: Disk, sb: Superblock, r: Option<Extent>) {
    && Names(sb, r)
    && (r.Some? ==> Intact(d, r.value) && End(r.value) + 1 == sb.logHead)
  }

  ghost predicate AllIntact(d: Disk, acked: set<Extent>, head: nat) {
    forall e :: e in acked ==> Intact(d, e) && End(e) < head
  }

  /** Slot 0 holds odd and slot 1 even sequence numbers; each commit after formatting uses up at least one sector. */
  ghost predicate Sane(k: nat, sb: Superblock, size: nat) {
    && sb.seqNo % 2 == 1 - k
    && 1 <= sb.seqNo
    && sb.seqNo + 1 <= sb.logHead <= size
    && (sb.seqNo == 1 ==> sb == FORMAT_SB)
  }

  ghost predicate SlotsSane(d: Disk)
    requires WellFormed(d)
  {
    forall k, y: Sector :: 0 <= k < 2 && MayHold(d, k, y) && DecodeSb(y).Some? ==>
      Sane(k, DecodeSb(y).value, |d.durable|)
  }

  ghost predicate IsOf(x: Superblock, m: Mounted, e: Extent) {
    |e.bytes| <= U32_MAX && x == NextSb(m, e.bytes)
  }

  /** A superblock in the other slot is older than the mounted one, or is of a put in limbo. */
  ghost predicate OtherOk(s: Sys, m: Mounted, x: Superblock) {
    || x.seqNo < m.sb.seqNo
    || (&& x.seqNo == m.sb.seqNo + 1
        && m.sb.logHead < x.logHead
        && (x in s.lost || s.hollow == Some(x)
            || (s.limbo.Some? && IsOf(x, m, s.limbo.value.extent) && RootSafe(s.disk, x, Some(s.limbo.value.extent)))))
  }

  ghost predicate OtherSlotOk(s: Sys, m: Mounted)
    requires WellFormed(s.disk)
  {
    forall y: Sector :: MayHold(s.disk, OtherSlot(m.slot), y) && DecodeSb(y).Some? ==>
      OtherOk(s, m, DecodeSb(y).value)
  }

  ghost predicate LivePrefix(s: Sys, m: Mounted, n: nat)
    requires s.job.Putting?
  {
    var bytes := s.job.bytes;
    && n <= Sectors(|bytes|)
    && m.sb.logHead + n <= |s.disk.live|
    && (forall k :: 0 <= k < n ==> s.disk.live[m.sb.logHead + k] == Chunk(bytes, k))
  }

  ghost predicate PutOk(s: Sys, m: Mounted)
    requires WellFormed(s.disk) && s.job.Putting?
  {
    var bytes := s.job.bytes;
    var x := Pending(m, bytes);
    && |bytes| <= U32_MAX
    && (match s.job.phase
        case Data(k) => s.limbo.None? && LivePrefix(s, m, k) && k < Sectors(|bytes|)
        case HeaderNext => s.limbo.None? && LivePrefix(s, m, Sectors(|bytes|))
        case Barrier => s.limbo.None? && LivePrefix(s, m, Sectors(|bytes|)) && End(x) < |s.disk.live|
                        && s.disk.live[End(x)] == RecordHeader(x)
        case Flip => s.limbo.None? && Intact(s.disk, x) && End(x) < |s.disk.live| && s.disk.cache == {}
        case Commit =>
          && s.limbo == Some(Attempt(m.sb.seqNo + 1, x))
          && Intact(s.disk, x) && End(x) < |s.disk.live|
          && s.disk.live[OtherSlot(m.slot)] == EncodeSb(NextSb(m, bytes)))
  }

  /** If a newer superblock can surface in the other slot, a read of that slot returns it, or it is lost. */
  ghost predicate NewerIsLive(d: Disk, m: Mounted, lost: set<Superblock>)
    requires WellFormed(d)
  {
    forall y: Sector :: MayHold(d, OtherSlot(m.slot), y) && IsNewer(m, y) ==>
      y == d.live[OtherSlot(m.slot)] || DecodeSb(y).value in lost
  }

  ghost predicate LimboOk(a: Attempt, m: Mounted) {
    a.seqNo == m.sb.seqNo + 1 && a.extent == Pending(m, a.extent.bytes) && |a.extent.bytes| <= U32_MAX
  }

  ghost predicate UpOk(s: Sys, m: Mounted)
    requires WellFormed(s.disk)
  {
    && m.slot < 2
    && Settled(s.disk, m.slot)
    && DecodeSb(s.disk.durable[m.slot]) == Some(m.sb)
    && AllIntact(s.disk, s.acked, m.sb.logHead)
    && (!s.tainted ==> RootSafe(s.disk, m.sb, s.last))
    && OtherSlotOk(s, m)
    && (s.limbo.Some? ==> LimboOk(s.limbo.value, m) && (s.limbo.value.extent.bytes == [] ==> s.hollow.Some?))
    && (s.hollow.Some? ==> s.hollow.value == NextSb(m, []) && s.hollow.value.seqNo == m.sb.seqNo + 1)
    && (forall x :: x in s.lost ==> x.seqNo == m.sb.seqNo + 1)
    && NewerIsLive(s.disk, m, s.lost)
    && (s.job.Putting? ==> PutOk(s, m))
    && !s.job.Formatting?
  }

  /** Nothing has ever been put; only the formatting superblock can be on the disk. */
  ghost predicate Unused(s: Sys)
    requires WellFormed(s.disk)
  {
    && s.acked == {} && s.last == None && s.limbo == None && s.hollow == None && s.lost == {} && !s.tainted
    && (forall y: Sector :: MayHold(s.disk, 0, y) && DecodeSb(y).Some? ==> DecodeSb(y).value == FORMAT_SB)
    && (forall y: Sector :: MayHold(s.disk, 1, y) ==> DecodeSb(y).None?)
    && (s.job.Formatting? ==> s.boot.Booting?)
    && (s.job == Formatting(true) ==> s.disk.live[0] == EncodeSb(FORMAT_SB))
    && (s.boot.Booting? && s.job.Idle? ==> s.disk.cache == {})
    && !s.job.Putting?
  }

  /** After a crash of a used disk: the newest superblock is the mounted one or the one in limbo. */
  ghost predicate Rebooted(s: Sys)
    requires WellFormed(s.disk)
  {
    && s.disk.cache == {} && s.job.Idle?
    && Newest(s.disk.durable).Some?
    && var m := Newest(s.disk.durable).value;
    && AllIntact(s.disk, s.acked, m.sb.logHead)
    && (!s.tainted && m.sb !in s.lost ==>
          RootSafe(s.disk, m.sb, RootOf(s, m.sb)) && (s.last.Some? ==> End(s.last.value) < m.sb.logHead))
  }

  ghost predicate Inv(s: Sys) {
    && WellFormed(s.disk)
    && SlotsSane(s.disk)
    && match s.boot
       case Up(m) => UpOk(s, m)
       case Booting => Unused(s) || Rebooted(s)
       case Refused => Unused(s) || Rebooted(s)
  }

  // ---- preservation, one event at a time ----

  lemma FreshSatisfiesInv(s: Sys)
    requires Fresh(s)
    ensures Inv(s)
  {
  }

  /** Intact extents stay intact under any write elsewhere. */
  lemma IntactUnderWrite(d: Disk, l: nat, x: Sector, ok: bool, d': Disk, e: Extent)
    requires WellFormed(d) && WriteSector(d, l, x, ok, d')
    requires Intact(d, e) && !(e.lba <= l <= End(e))
    ensures Intact(d', e)
  {
    WriteKeepsOthers(d, l, x, ok, d');
    forall k | 0 <= k < Sectors(|e.bytes|) ensures SectorIntact(d', e, k) {
      assert SectorIntact(d, e, k);
    }
  }

  lemma IntactUnderFlush(d: Disk, ok: bool, d': Disk, e: Extent)
    requires WellFormed(d) && Flush(d, ok, d') && Intact(d, e)
    ensures Intact(d', e)
  {
    forall k | 0 <= k < Sectors(|e.bytes|) ensures SectorIntact(d', e, k) {
      assert SectorIntact(d, e, k);
    }
  }

  lemma IntactUnderCrash(d: Disk, d': Disk, e: Extent)
    requires WellFormed(d) && Crash(d, d') && Intact(d, e)
    ensures Intact(d', e)
  {
    forall k | 0 <= k < Sectors(|e.bytes|)
      ensures SectorIntact(d', e, k)
    {
      assert SectorIntact(d, e, k);
      SettledSurvives(d, d', e.lba + k);
    }
    SettledSurvives(d, d', End(e));
  }

  lemma SettledSurvives(d: Disk, d': Disk, l: nat)
    requires WellFormed(d) && Crash(d, d') && Settled(d, l) && l < |d.durable|
    ensures d'.durable[l] == d.durable[l]
  {
  }

  lemma MountedSane(s: Sys)
    requires Inv(s) && s.boot.Up?
    ensures Sane(s.boot.m.slot, s.boot.m.sb, |s.disk.durable|)
  {
    hide DecodeSb, EncodeSb, Chunk, Header, RecordHeader;
    assert MayHold(s.disk, s.boot.m.slot, s.disk.durable[s.boot.m.slot]);
  }

  /** With nothing in the cache, a crash can only leave what is durable. */
  lemma NothingCached(d: Disk)
    requires WellFormed(d) && d.cache == {}
    ensures d.live == d.durable
    ensures forall k, y: Sector :: 0 <= k < 2 && MayHold(d, k, y) <==> 0 <= k < 2 && y == d.durable[k]
  {
  }

  lemma CrashKeepsSlots(d: Disk, d': Disk)
    requires WellFormed(d) && SlotsSane(d) && Crash(d, d')
    ensures WellFormed(d') && SlotsSane(d')
    ensures forall e :: Intact(d, e) ==> Intact(d', e)
  {
    hide DecodeSb, EncodeSb, Chunk, Header, RecordHeader;
    NothingCached(d');
    assert MayHold(d, 0, d'.durable[0]) && MayHold(d, 1, d'.durable[1]);
    forall e | Intact(d, e) ensures Intact(d', e) { IntactUnderCrash(d, d', e); }
  }

  /** A crash of a mounted store leaves the mounted superblock or the one in limbo as the newest. */
  lemma CrashOfMounted(s: Sys, s': Sys)
    requires Inv(s) && s.boot.Up? && Step(s, PowerCut, s')
    ensures WellFormed(s'.disk) && Rebooted(s')
  {
    hide DecodeSb, EncodeSb, Chunk, Header, RecordHeader;
    var m, d, d' := s.boot.m, s.disk, s'.disk;
    CrashKeepsSlots(d, d');
    MountedSane(s);
    SettledSurvives(d, d', m.slot);
    var o := OtherSlot(m.slot);
    var y := d'.durable[o];
    assert MayHold(d, o, y);
    if DecodeSb(y).Some? {
      assert OtherOk(s, m, DecodeSb(y).value);
    }
  }

  lemma CrashKeepsInv(s: Sys, s': Sys)
    requires Inv(s) && Step(s, PowerCut, s')
    ensures Inv(s')
  {
    hide DecodeSb, EncodeSb, Chunk, Header, RecordHeader;
    CrashKeepsSlots(s.disk, s'.disk);
    NothingCached(s'.disk);
    if s.boot.Up? {
      CrashOfMounted(s, s');
    } else if Rebooted(s) {
      NothingCached(s.disk);
      assert forall l :: 0 <= l < |s.disk.durable| ==> MayHold(s.disk, l, s'.disk.durable[l]);
      assert s'.disk == s.disk;
    } else {
      assert MayHold(s.disk, 0, s'.disk.durable[0]) && MayHold(s.disk, 1, s'.disk.durable[1]);
    }
  }

  lemma MountKeepsInv(s: Sys, readA: bool, readB: bool, s': Sys)
    requires Inv(s) && Step(s, Mount(readA, readB), s')
    requires !StaleMount(s.disk.live, readA, readB)
    ensures Inv(s')
  {
    hide DecodeSb, EncodeSb, Chunk, Header, RecordHeader, Intact;
    var d := s.disk;
    NothingCached(d);
    assert MayHold(d, 0, d.durable[0]) && MayHold(d, 1, d.durable[1]);
    if s'.boot.Up? {
      MountPicksNewestExactly(d.live, readA, readB);
      var m := s'.boot.m;
      assert Newest(d.durable) == Some(m);
      assert DecodeSb(d.durable[m.slot]) == Some(m.sb);
      assert AllIntact(d, s'.acked, m.sb.logHead);
      assert !s'.tainted ==> RootSafe(d, m.sb, s'.last);
      assert OtherSlotOk(s', m);
    }
  }

  lemma FormatWriteKeepsInv(s: Sys, ok: bool, s': Sys)
    requires Inv(s) && Step(s, FormatWrite(ok), s')
    ensures Inv(s')
  {
    hide DecodeSb, EncodeSb, Chunk, Header, RecordHeader;
    SuperblockRoundTrip(FORMAT_SB);
    WriteKeepsOthers(s.disk, 0, EncodeSb(FORMAT_SB), ok, s'.disk);
    assert Unused(s);
    assert Unused(s');
  }

  lemma FormatFlushKeepsInv(s: Sys, ok: bool, s': Sys)
    requires Inv(s) && Step(s, FormatFlush(ok), s')
    ensures Inv(s')
  {
    hide DecodeSb, EncodeSb, Chunk, Header, RecordHeader;
    SuperblockRoundTrip(FORMAT_SB);
    assert Unused(s);
    if ok {
      FlushSettlesAll(s.disk, s'.disk);
      assert DecodeSb(s.disk.live[0]) == Some(FORMAT_SB);
      LiveIsPossible(s.disk, 1);
    }
  }

  /** What a read returns is among what a crash may keep. */
  lemma LiveIsPossible(d: Disk, l: nat)
    requires WellFormed(d) && l < |d.durable|
    ensures MayHold(d, l, d.live[l])
  {
  }

  lemma BeginKeepsInv(s: Sys, bytes: seq<Byte>, s': Sys)
    requires Inv(s) && Step(s, Begin(bytes), s')
    ensures Inv(s')
  {
    hide DecodeSb, EncodeSb, Chunk, Header, RecordHeader;
    var m := s.boot.m;
    MountedSane(s);
    assert PutOk(s', m);
    assert OtherSlotOk(s', m);
  }

  /** A write at or past the mounted head concerns neither slot nor any kept extent. */
  lemma LogWriteKeepsUp(s: Sys, l: nat, x: Sector, ok: bool, s': Sys)
    requires Inv(s) && s.boot.Up? && l >= s.boot.m.sb.logHead
    requires s.limbo.None?
    requires WriteSector(s.disk, l, x, ok, s'.disk)
    requires s' == s.(disk := s'.disk, job := Idle)
    ensures Inv(s')
  {
    hide DecodeSb, EncodeSb, Chunk, Header, RecordHeader;
    var m := s.boot.m;
    WriteKeepsOthers(s.disk, l, x, ok, s'.disk);
    MountedSane(s);
    forall e | Intact(s.disk, e) && End(e) < m.sb.logHead
      ensures Intact(s'.disk, e)
    {
      IntactUnderWrite(s.disk, l, x, ok, s'.disk, e);
    }
    assert OtherSlotOk(s', m);
  }

  lemma WriteDataKeepsInv(s: Sys, ok: bool, s': Sys)
    requires Inv(s) && Step(s, WriteData(ok), s')
    ensures Inv(s')
  {
    hide DecodeSb, EncodeSb, Chunk, Header, RecordHeader;
    var m, k := s.boot.m, s.job.phase.done;
    assert PutOk(s, m);
    LogWriteKeepsUp(s, m.sb.logHead + k, Chunk(s.job.bytes, k), ok, s.(disk := s'.disk, job := Idle));
    WriteKeepsOthers(s.disk, m.sb.logHead + k, Chunk(s.job.bytes, k), ok, s'.disk);
    if ok {
      assert LivePrefix(s', m, k + 1);
    }
  }

  lemma WriteHeaderKeepsInv(s: Sys, ok: bool, s': Sys)
    requires Inv(s) && Step(s, WriteHeader(ok), s')
    ensures Inv(s')
  {
    hide DecodeSb, EncodeSb, Chunk, Header;
    var m, bytes := s.boot.m, s.job.bytes;
    var l, x := End(Pending(m, bytes)), RecordHeader(Pending(m, bytes));
    assert PutOk(s, m);
    LogWriteKeepsUp(s, l, x, ok, s.(disk := s'.disk, job := Idle));
    WriteKeepsOthers(s.disk, l, x, ok, s'.disk);
    if ok {
      assert LivePrefix(s', m, Sectors(|bytes|));
    }
  }

  lemma FlushKeepsUp(s: Sys, ok: bool, s': Sys)
    requires Inv(s) && s.boot.Up?
    requires Flush(s.disk, ok, s'.disk)
    requires s' == s.(disk := s'.disk, job := Idle)
    ensures Inv(s')
  {
    hide DecodeSb, EncodeSb, Chunk, Header, RecordHeader;
    var m := s.boot.m;
    if ok {
      FlushSettlesAll(s.disk, s'.disk);
      LiveIsPossible(s.disk, 0);
      LiveIsPossible(s.disk, 1);
      forall e | Intact(s.disk, e) ensures Intact(s'.disk, e) { IntactUnderFlush(s.disk, ok, s'.disk, e); }
      assert OtherSlotOk(s', m);
    }
  }

  lemma DataFlushKeepsInv(s: Sys, ok: bool, s': Sys)
    requires Inv(s) && Step(s, DataFlush(ok), s')
    ensures Inv(s')
  {
    hide DecodeSb, EncodeSb, Chunk, Header, RecordHeader;
    var m := s.boot.m;
    assert PutOk(s, m);
    MountedSane(s);
    FlushKeepsUp(s, ok, s.(disk := s'.disk, job := Idle));
    if ok {
      FlushSettlesAll(s.disk, s'.disk);
      var x := Pending(m, s.job.bytes);
      forall k | 0 <= k < Sectors(|x.bytes|) ensures SectorIntact(s'.disk, x, k) {
        assert s.disk.live[m.sb.logHead + k] == Chunk(x.bytes, k);
      }
    }
  }

  /** The superblock a put commits does not wrap and names what the put wrote. */
  lemma NextSbIsNewer(s: Sys)
    requires Inv(s) && s.boot.Up? && s.job.Putting?
    requires s.job.phase.Flip? || s.job.phase.Commit?
    ensures var m := s.boot.m;
            var sb := NextSb(m, s.job.bytes);
            && sb.seqNo == m.sb.seqNo + 1
            && sb.logHead == End(Pending(m, s.job.bytes)) + 1
            && Sane(OtherSlot(m.slot), sb, |s.disk.durable|)
            && RootSafe(s.disk, sb, Some(Pending(m, s.job.bytes)))
  {
    hide DecodeSb, EncodeSb, Chunk, Header, RecordHeader;
    hide Fnv.Hash, Sectors, SectorIntact;
    MountedSane(s);
    var m := s.boot.m;
    var x := Pending(m, s.job.bytes);
    assert PutOk(s, m);
    assert m.sb.seqNo + 1 < TWO_64 && End(x) + 1 < TWO_64;
    assert Intact(s.disk, x);
  }

  /** Writing a slot with nothing else cached: a valid superblock found there later is the old or the new one. */
  lemma SlotAfterWrite(d: Disk, o: nat, x: Sector, ok: bool, d': Disk, y: Sector)
    requires WellFormed(d) && d.cache == {} && o < 2 && WriteSector(d, o, x, ok, d')
    requires MayHold(d', o, y) && DecodeSb(y).Some?
    ensures y == d.durable[o] || (y == x && y == d'.live[o])
  {
    hide DecodeSb;
  }

  lemma WriteSlotKeepsOther(s: Sys, m: Mounted, o: nat, sb: Superblock, ok: bool, s': Sys)
    requires WellFormed(s.disk) && WellFormed(s'.disk) && o == OtherSlot(m.slot) && o < 2
    requires s.disk.cache == {} && WriteSector(s.disk, o, EncodeSb(sb), ok, s'.disk)
    requires OtherSlotOk(s, m) && s.limbo.None? && s'.limbo.Some? && s'.lost == s.lost
    requires s.hollow.Some? ==> s.hollow.value.rootLen == 0 && s'.hollow == s.hollow
    requires sb.seqNo == m.sb.seqNo + 1 && m.sb.logHead < sb.logHead
    requires IsOf(sb, m, s'.limbo.value.extent) && RootSafe(s'.disk, sb, Some(s'.limbo.value.extent))
    ensures OtherSlotOk(s', m) && NewerIsLive(s'.disk, m, s'.lost)
  {
    SuperblockRoundTrip(sb);
    hide DecodeSb, EncodeSb, IsOf, RootSafe, WriteSector, MayHold;
    forall y: Sector | MayHold(s'.disk, o, y) && DecodeSb(y).Some?
      ensures OtherOk(s', m, DecodeSb(y).value)
      ensures IsNewer(m, y) ==> y == s'.disk.live[o] || DecodeSb(y).value in s'.lost
    {
      SlotAfterWrite(s.disk, o, EncodeSb(sb), ok, s'.disk, y);
      if y == s.disk.durable[o] {
        DurableIsPossible(s.disk, o);
        assert OtherOk(s, m, DecodeSb(y).value);
      }
    }
  }

  lemma DurableIsPossible(d: Disk, l: nat)
    requires l < |d.durable|
    ensures MayHold(d, l, d.durable[l])
  {
  }

  lemma WriteSlotKeepsInv(s: Sys, ok: bool, s': Sys)
    requires Inv(s) && Step(s, WriteSlot(ok), s')
    ensures Inv(s')
  {
    hide DecodeSb, EncodeSb, Chunk, Header, RecordHeader, OtherSlotOk, NewerIsLive;
    var m, o := s.boot.m, OtherSlot(s.boot.m.slot);
    var x, sb := Pending(m, s.job.bytes), NextSb(m, s.job.bytes);
    assert PutOk(s, m);
    NextSbIsNewer(s);
    MountedSane(s);
    SuperblockRoundTrip(sb);
    WriteKeepsOthers(s.disk, o, EncodeSb(sb), ok, s'.disk);
    forall e | Intact(s.disk, e) ensures Intact(s'.disk, e) {
      IntactUnderWrite(s.disk, o, EncodeSb(sb), ok, s'.disk, e);
    }
    WriteSlotKeepsOther(s, m, o, sb, ok, s');
  }

  lemma CommitFlushKeepsInv(s: Sys, ok: bool, s': Sys)
    requires Inv(s) && Step(s, CommitFlush(ok), s')
    ensures Inv(s')
  {
    hide DecodeSb, EncodeSb, Chunk, Header, RecordHeader;
    var m := s.boot.m;
    var x, sb := Pending(m, s.job.bytes), NextSb(m, s.job.bytes);
    assert PutOk(s, m);
    FlushKeepsUp(s, ok, s.(disk := s'.disk, job := Idle));
    if ok {
      NextSbIsNewer(s);
      SuperblockRoundTrip(sb);
      FlushSettlesAll(s.disk, s'.disk);
      IntactUnderFlush(s.disk, ok, s'.disk, x);
      assert OtherSlotOk(s', s'.boot.m);
    }
  }

  /** Every step keeps the invariant, except a mount of an out-of-date slot. */
  lemma StepKeepsInv(s: Sys, e: Event, s': Sys)
    requires Inv(s) && Step(s, e, s')
    requires e.Mount? ==> !StaleMount(s.disk.live, e.readA, e.readB)
    ensures Inv(s')
  {
    hide DecodeSb, EncodeSb, Chunk, Header, RecordHeader;
    match e
    case PowerCut => CrashKeepsInv(s, s');
    case Mount(readA, readB) => MountKeepsInv(s, readA, readB, s');
    case FormatWrite(ok) => FormatWriteKeepsInv(s, ok, s');
    case FormatFlush(ok) => FormatFlushKeepsInv(s, ok, s');
    case Begin(bytes) => BeginKeepsInv(s, bytes, s');
    case WriteData(ok) => WriteDataKeepsInv(s, ok, s');
    case WriteHeader(ok) => WriteHeaderKeepsInv(s, ok, s');
    case DataFlush(ok) => DataFlushKeepsInv(s, ok, s');
    case WriteSlot(ok) => WriteSlotKeepsInv(s, ok, s');
    case CommitFlush(ok) => CommitFlushKeepsInv(s, ok, s');
  }
}
