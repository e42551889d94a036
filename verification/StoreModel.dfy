/**
 The store's mount and put protocols as a state machine, one device operation per step, so that a
 crash may come between any two of them.
 */
module StoreModel {
  import opened Machine
  import opened Codec
  import opened Disk
  import Fnv

  const LOG_START: nat := 2

  /** An object in the log, and the place of the root before it that its record header names. */
  datatype Extent = Extent(lba: nat, bytes: seq<Byte>, prev: U64)

  /** The mounted superblock and the slot it was read from or written to. */
  datatype Mounted = Mounted(sb: Superblock, slot: nat)

  /** A put whose superblock write has been issued but not acknowledged. */
  datatype Attempt = Attempt(seqNo: nat, extent: Extent)

  datatype Boot = Booting | Up(m: Mounted) | Refused

  datatype Phase = Data(done: nat) | HeaderNext | Barrier | Flip | Commit

  datatype Job = Idle | Formatting(written: bool) | Putting(bytes: seq<Byte>, phase: Phase)

  /**
   `disk`, `boot` and `job` are the system. The rest is history: every extent a successful put has
   returned, the last root put or found by a mount, the put in limbo if there is one, the superblock
   of an empty object whose commit was tried in this session, the superblocks of non-empty objects
   that another put was begun over, and whether one of those was mounted.
   */
  datatype Sys = Sys(disk: Disk, boot: Boot, job: Job,
                     acked: set<Extent>, last: Option<Extent>, limbo: Option<Attempt>, hollow: Option<Superblock>,
                     lost: set<Superblock>, tainted: bool)

  datatype Event =
    | PowerCut
    | Mount(readA: bool, readB: bool)
    | FormatWrite(ok: bool)
    | FormatFlush(ok: bool)
    | Begin(bytes: seq<Byte>)
    | WriteData(ok: bool)
    | WriteHeader(ok: bool)
    | DataFlush(ok: bool)
    | WriteSlot(ok: bool)
    | CommitFlush(ok: bool)

  // ---- mount ----

  datatype SlotRead = Io | Invalid | Valid(sb: Superblock)

  function ReadSlot(readable: bool, s: Sector): SlotRead {
    if !readable then Io
    else match DecodeSb(s)
      case None => Invalid
      case Some(sb) => Valid(sb)
  }

  /** The slot that mount uses, if any. */
  function Choose(a: SlotRead, b: SlotRead): Option<Mounted> {
    if a.Valid? && b.Valid? then
      Some(if a.sb.seqNo >= b.sb.seqNo then Mounted(a.sb, 0) else Mounted(b.sb, 1))
    else if a.Valid? then Some(Mounted(a.sb, 0))
    else if b.Valid? then Some(Mounted(b.sb, 1))
    else None
  }

  const FORMAT_SB: Superblock := Superblock(1, 2, 0, 0, 0)

  /** What a mount with both slots readable would choose. */
  function Newest(image: seq<Sector>): Option<Mounted>
    requires |image| >= 2
  {
    Choose(ReadSlot(true, image[0]), ReadSlot(true, image[1]))
  }

  /** The chosen slot is not the newest valid one: the newer one could not be read. */
  predicate StaleMount(image: seq<Sector>, readA: bool, readB: bool)
    requires |image| >= 2
  {
    var a, b := ReadSlot(true, image[0]), ReadSlot(true, image[1]);
    && a.Valid? && b.Valid?
    && ((!readA && readB && a.sb.seqNo >= b.sb.seqNo) || (readA && !readB && a.sb.seqNo < b.sb.seqNo))
  }

  /** A mount that picks a slot picks the newest valid one, except exactly in a stale mount. */
  lemma MountPicksNewestExactly(image: seq<Sector>, readA: bool, readB: bool)
    requires |image| >= 2
    requires Choose(ReadSlot(readA, image[0]), ReadSlot(readB, image[1])).Some?
    ensures Choose(ReadSlot(readA, image[0]), ReadSlot(readB, image[1])) == Newest(image)
            <==> !StaleMount(image, readA, readB)
  {
  }

  // ---- put ----

  function End(e: Extent): nat {
    e.lba + Sectors(|e.bytes|)
  }

  function Pending(m: Mounted, bytes: seq<Byte>): Extent {
    Extent(m.sb.logHead, bytes, m.sb.rootLba)
  }

  /** The superblock a put would commit; the machine's additions wrap. */
  function NextSb(m: Mounted, bytes: seq<Byte>): Superblock
    requires |bytes| <= U32_MAX
  {
    Superblock((m.sb.seqNo + 1) % TWO_64, (End(Pending(m, bytes)) + 1) % TWO_64,
               m.sb.logHead, |bytes|, Fnv.Hash(bytes))
  }

  function OtherSlot(slot: nat): nat {
    if slot == 0 then 1 else 0
  }

  /** The root that a mounted superblock stands for, given the history. */
  function RootOf(s: Sys, sb: Superblock): Option<Extent> {
    if s.hollow == Some(sb) then None
    else if s.limbo.Some? && s.limbo.value.seqNo == sb.seqNo then Some(s.limbo.value.extent)
    else s.last
  }

  function AfterMount(s: Sys, readA: bool, readB: bool): Sys
    requires |s.disk.live| >= 2
  {
    var a, b := ReadSlot(readA, s.disk.live[0]), ReadSlot(readB, s.disk.live[1]);
    match Choose(a, b)
    case Some(m) =>
      s.(boot := Up(m), last := RootOf(s, m.sb), limbo := None, hollow := None,
         lost := {}, tainted := s.tainted || m.sb in s.lost)
    case None => if a.Invalid? && b.Invalid? then s.(job := Formatting(false)) else s.(boot := Refused)
  }

  // The state after each event, given the disk the device leaves.

  function AfterFormatWrite(s: Sys, ok: bool, d: Disk): Sys {
    if ok then s.(disk := d, job := Formatting(true)) else s.(disk := d, job := Idle, boot := Refused)
  }

  function AfterFormatFlush(s: Sys, ok: bool, d: Disk): Sys {
    s.(disk := d, job := Idle, boot := if ok then Up(Mounted(FORMAT_SB, 0)) else Refused)
  }

  /** A superblock newer than the mounted one, of a non-empty object. */
  predicate IsNewer(m: Mounted, y: Sector) {
    && DecodeSb(y).Some? && DecodeSb(y).value.seqNo == m.sb.seqNo + 1
    && DecodeSb(y).value.rootLen > 0
  }

  /** What the store can find out before a put: it reads a newer superblock in the other slot. */
  predicate NewerInOtherSlot(s: Sys)
    requires s.boot.Up? && |s.disk.live| >= 2
  {
    IsNewer(s.boot.m, s.disk.live[OtherSlot(s.boot.m.slot)])
  }

  function AfterBegin(s: Sys, bytes: seq<Byte>): Sys
    requires s.boot.Up? && |s.disk.live| >= 2
  {
    s.(job := Putting(bytes, if bytes == [] then HeaderNext else Data(0)),
       limbo := None,
       lost := if NewerInOtherSlot(s) then s.lost + {DecodeSb(s.disk.live[OtherSlot(s.boot.m.slot)]).value} else s.lost)
  }

  /** The put goes on to `next`, or ends without touching the mounted state. */
  function Onward(s: Sys, ok: bool, d: Disk, next: Phase): Sys
    requires s.job.Putting?
  {
    s.(disk := d, job := if ok then Putting(s.job.bytes, next) else Idle)
  }

  function NextData(s: Sys): Phase
    requires s.job.Putting? && s.job.phase.Data?
  {
    if s.job.phase.done + 1 == Sectors(|s.job.bytes|) then HeaderNext else Data(s.job.phase.done + 1)
  }

  function AfterWriteSlot(s: Sys, ok: bool, d: Disk): Sys
    requires s.boot.Up? && s.job.Putting?
  {
    var m := s.boot.m;
    Onward(s, ok, d, Commit).(limbo := Some(Attempt(m.sb.seqNo + 1, Pending(m, s.job.bytes))),
                              hollow := if s.job.bytes == [] then Some(NextSb(m, [])) else s.hollow)
  }

  function AfterCommit(s: Sys, ok: bool, d: Disk): Sys
    requires s.boot.Up? && s.job.Putting? && |s.job.bytes| <= U32_MAX
  {
    if !ok then s.(disk := d, job := Idle)
    else
      var m := s.boot.m;
      var x := Pending(m, s.job.bytes);
      Sys(d, Up(Mounted(NextSb(m, s.job.bytes), OtherSlot(m.slot))), Idle, s.acked + {x}, Some(x), None, None, {}, false)
  }

  ghost predicate Step(s: Sys, e: Event, s': Sys)
    requires WellFormed(s.disk)
  {
    match e
    case PowerCut =>
      && Crash(s.disk, s'.disk)
      && s' == s.(disk := s'.disk, boot := Booting, job := Idle)
    case Mount(readA, readB) =>
      && s.boot.Booting? && s.job.Idle?
      && s' == AfterMount(s, readA, readB)
    case FormatWrite(ok) =>
      && s.job == Formatting(false)
      && WriteSector(s.disk, 0, EncodeSb(FORMAT_SB), ok, s'.disk)
      && s' == AfterFormatWrite(s, ok, s'.disk)
    case FormatFlush(ok) =>
      && s.job == Formatting(true)
      && Flush(s.disk, ok, s'.disk)
      && s' == AfterFormatFlush(s, ok, s'.disk)
    case Begin(bytes) =>
      && s.boot.Up? && s.job.Idle? && |bytes| <= U32_MAX
      && s' == AfterBegin(s, bytes)
    case WriteData(ok) =>
      && s.boot.Up? && s.job.Putting? && s.job.phase.Data?
      && s.job.phase.done < Sectors(|s.job.bytes|)
      && var k := s.job.phase.done;
      && WriteSector(s.disk, s.boot.m.sb.logHead + k, Chunk(s.job.bytes, k), ok, s'.disk)
      && s' == Onward(s, ok, s'.disk, NextData(s))
    case WriteHeader(ok) =>
      && s.boot.Up? && s.job.Putting? && s.job.phase.HeaderNext?
      && var m := s.boot.m;
      && WriteSector(s.disk, End(Pending(m, s.job.bytes)),
                     Header(|s.job.bytes|, Fnv.Hash(s.job.bytes), m.sb.rootLba), ok, s'.disk)
      && s' == Onward(s, ok, s'.disk, Barrier)
    case DataFlush(ok) =>
      && s.boot.Up? && s.job.Putting? && s.job.phase.Barrier?
      && Flush(s.disk, ok, s'.disk)
      && s' == Onward(s, ok, s'.disk, Flip)
    case WriteSlot(ok) =>
      && s.boot.Up? && s.job.Putting? && s.job.phase.Flip? && |s.job.bytes| <= U32_MAX
      && WriteSector(s.disk, OtherSlot(s.boot.m.slot), EncodeSb(NextSb(s.boot.m, s.job.bytes)), ok, s'.disk)
      && s' == AfterWriteSlot(s, ok, s'.disk)
    case CommitFlush(ok) =>
      && s.boot.Up? && s.job.Putting? && s.job.phase.Commit? && |s.job.bytes| <= U32_MAX
      && Flush(s.disk, ok, s'.disk)
      && s' == AfterCommit(s, ok, s'.disk)
  }

  /** A disk on which no superblock has ever been written, at power-on. */
  ghost predicate Fresh(s: Sys) {
    && WellFormed(s.disk) && s.disk.cache == {}
    && DecodeSb(s.disk.durable[0]).None? && DecodeSb(s.disk.durable[1]).None?
    && s == Sys(s.disk, Booting, Idle, {}, None, None, None, {}, false)
  }

  /** What recover reports: the root's place and hash, if its bytes still have that hash. */
  function Recovered(image: seq<Sector>, sb: Superblock): (r: Option<(nat, nat, nat)>) {
    if sb.rootLen == 0 || sb.rootLba + Sectors(sb.rootLen) > |image| then None
    else if Streamed(Fnv.BASIS, image, sb.rootLba, sb.rootLen) == sb.rootHash then
      Some((sb.rootLba, sb.rootLen, sb.rootHash))
    else None
  }
}
