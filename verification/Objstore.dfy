/**
 The store's operations as the kernel runs them: loops over sectors, buffers filled in place, and
 the statics `MOUNTED`, `MOUNTED_OK` and `MOUNTED_SLOT`, over the block driver's queue. Every device
 operation performed is a step of the protocol in `StoreModel`, added to the steps of the boots
 before, so what is proved of runs holds at every point inside a call.
 */
module Objstore {
  import opened Machine
  import opened Codec
  import D = Disk
  import V = VirtioRing
  import opened StoreModel
  import opened StoreSafety
  import opened StoreRuns
  import Fnv

  /**
   The block device behind its driver. `disk` is what the store has to reckon with: the device's own
   disk, and once the driver has given up on a request, the disk on which that request has done all it
   may still do. `unreadable` holds the sectors whose latest read failed.
   */
  class Device {
    const queue: V.Queue
    ghost var disk: D.Disk
    ghost var unreadable: set<nat>

    ghost function Repr(): set<object> {
      {this, queue, queue.desc, queue.ring}
    }

    /** The driver has not given up on the device. */
    ghost predicate On()
      reads queue
    {
      queue.present
    }

    /** The driver has given up, or the last request was answered with an error. */
    ghost predicate Failed()
      reads queue
    {
      !queue.present || queue.status != 0
    }

    ghost predicate Valid()
      reads Repr()
    {
      && queue.Quiet() && queue.flushOk && D.WellFormed(disk)
      && (On() ==> disk == queue.disk)
      && D.Covers(disk, queue.disk)
      && (queue.InFlight() ==> disk == V.AtWorst(queue.disk, queue.asked[|queue.asked| - 1]))
    }

    constructor (q: V.Queue)
      requires q.Quiet() && q.flushOk && q.present
      ensures Valid() && queue == q && On() && disk == q.disk && unreadable == {}
    {
      queue := q;
      disk := q.disk;
      unreadable := {};
    }

    method ReadSector(l: nat) returns (ok: bool, s: Sector)
      requires Valid()
      modifies Repr()
      ensures Valid() && disk == old(disk)
      ensures unreadable == if ok then old(unreadable) - {l} else old(unreadable) + {l}
      ensures ok ==> On() && l < |disk.live| && s == disk.live[l]
      ensures !old(On()) ==> !On()
      ensures ok <==> !Failed()
    {
      hide D.WellFormed, D.Covers, V.AtWorst;
      ok, s := queue.ReadSector(l);
      unreadable := if ok then unreadable - {l} else unreadable + {l};
      assert V.AtWorst(queue.disk, V.Read(l)) == queue.disk by { ReadDoesNothing(queue.disk, l); }
    }

    method WriteSector(l: nat, x: Sector) returns (ok: bool)
      requires Valid()
      modifies Repr()
      ensures Valid() && D.WellFormed(disk) && unreadable == old(unreadable)
      ensures D.WellFormed(old(disk)) && D.WriteSector(old(disk), l, x, ok, disk)
      ensures ok ==> On()
      ensures !old(On()) ==> !ok && !On() && disk == old(disk)
      ensures ok <==> !Failed()
    {
      hide D.WellFormed, D.Covers, V.AtWorst, D.WriteSector;
      ghost var on := On();
      ok := queue.WriteSector(l, x);
      if on {
        V.StillInFlight(queue.disk, V.Write(l, x));
        SelfCovers(queue.disk);
        disk := if On() then queue.disk else V.AtWorst(queue.disk, V.Write(l, x));
      } else {
        NothingWritten(disk, l, x);
      }
    }

    method Flush() returns (ok: bool)
      requires Valid()
      modifies Repr()
      ensures Valid() && D.WellFormed(disk) && D.Flush(old(disk), ok, disk) && unreadable == old(unreadable)
      ensures ok ==> On()
      ensures !old(On()) ==> !ok && !On() && disk == old(disk)
      ensures ok <==> !Failed()
    {
      hide D.WellFormed, D.Covers, V.AtWorst;
      ghost var on := On();
      ok := queue.Flush();
      if on {
        SelfCovers(queue.disk);
        assert V.AtWorst(queue.disk, V.FlushCache) == queue.disk by { FlushDoesNothing(queue.disk); }
        disk := queue.disk;
      }
    }

    /** The device looks at the queue between the store's calls, and may answer a request long given up. */
    method Later()
      requires Valid()
      modifies Repr()
      ensures Valid() && disk == old(disk) && unreadable == old(unreadable) && On() == old(On())
    {
      hide D.WellFormed, D.Covers, V.AtWorst, V.Served;
      ghost var was := queue.disk;
      queue.DeviceTurn();
      if |queue.answers| != |old(queue.answers)| {
        V.LateAnswer(was, queue.asked[|queue.asked| - 1], queue.status, queue.disk, queue.data);
      }
    }
  }

  lemma ReadDoesNothing(d: D.Disk, l: nat)
    ensures V.AtWorst(d, V.Read(l)) == d
  {
  }

  lemma FlushDoesNothing(d: D.Disk)
    ensures V.AtWorst(d, V.FlushCache) == d
  {
  }

  lemma SelfCovers(d: D.Disk)
    ensures D.Covers(d, d)
  {
  }

  lemma NothingWritten(d: D.Disk, l: nat, x: Sector)
    requires D.WellFormed(d)
    ensures D.WriteSector(d, l, x, false, d)
  {
  }

  // ---- the events of one call ----

  /** The event of the same operation failing. */
  function Failed(e: Event): Event {
    match e
    case FormatWrite(_) => FormatWrite(false)
    case FormatFlush(_) => FormatFlush(false)
    case WriteData(_) => WriteData(false)
    case WriteHeader(_) => WriteHeader(false)
    case DataFlush(_) => DataFlush(false)
    case WriteSlot(_) => WriteSlot(false)
    case CommitFlush(_) => CommitFlush(false)
    case _ => e
  }

  ghost predicate StoppedAt(done: seq<Event>, plan: seq<Event>, k: nat) {
    k < |plan| && done == plan[..k] + [Failed(plan[k])]
  }

  /** The operations were performed as planned, or up to the first that failed. */
  ghost predicate Follows(done: seq<Event>, plan: seq<Event>, ok: bool) {
    if ok then done == plan else exists k: nat :: StoppedAt(done, plan, k)
  }

  /** What happened since the events `was`, if they are a beginning of `now`. */
  ghost function Since(was: seq<Event>, now: seq<Event>): seq<Event>
    requires was <= now
  {
    now[|was|..]
  }

  const FORMAT_PLAN: seq<Event> := [FormatWrite(true), FormatFlush(true)]

  function DataPlan(n: nat): seq<Event> {
    seq(n, _ => WriteData(true))
  }

  function RecordPlan(bytes: seq<Byte>): seq<Event> {
    [Begin(bytes)] + DataPlan(Sectors(|bytes|)) + [WriteHeader(true), DataFlush(true)]
  }

  /** A put that nothing goes wrong with. */
  function PutPlan(bytes: seq<Byte>): seq<Event> {
    RecordPlan(bytes) + [WriteSlot(true), CommitFlush(true)]
  }

  /** Going on after a plan that succeeded, and stopping inside a longer one. */
  lemma FollowsOn(e0: seq<Event>, e1: seq<Event>, e2: seq<Event>, p: seq<Event>, q: seq<Event>, ok: bool)
    requires e0 <= e1 <= e2 && Since(e0, e1) == p && Follows(Since(e1, e2), q, ok)
    ensures Follows(Since(e0, e2), p + q, ok)
  {
    assert Since(e0, e2) == p + Since(e1, e2);
    if !ok {
      var k: nat :| StoppedAt(Since(e1, e2), q, k);
      assert (p + q)[..|p| + k] == p + q[..k];
      assert StoppedAt(Since(e0, e2), p + q, |p| + k);
    }
  }

  lemma FollowsPart(done: seq<Event>, p: seq<Event>, q: seq<Event>)
    requires Follows(done, p, false)
    ensures Follows(done, p + q, false)
  {
    var k: nat :| StoppedAt(done, p, k);
    assert (p + q)[..k] == p[..k];
    assert StoppedAt(done, p + q, k);
  }

  /** The events of one put, however it went, are those that crash safety of a put is about. */
  lemma PutIsOnePut(bytes: seq<Byte>, done: seq<Event>, ok: bool)
    requires Follows(done, PutPlan(bytes), ok)
    ensures OnePut(done) && done[0] == Begin(bytes)
    ensures forall e :: e in done ==> !e.Mount? && !e.PowerCut?
  {
    var plan := PutPlan(bytes);
    assert forall i :: 1 <= i < |plan| ==> !plan[i].Begin? && !plan[i].Mount? && !plan[i].PowerCut?;
    if !ok {
      var k: nat :| StoppedAt(done, plan, k);
    }
  }

  class Store {
    const dev: Device
    var mounted: Superblock
    var mountedOk: bool
    var mountedSlot: nat
    ghost var sys: Sys
    ghost var path: seq<Sys>
    ghost var events: seq<Event>

    /** The steps performed so far form a path that ends in the present state. */
    ghost predicate Tracked()
      reads this
    {
      IsPath(path, events) && path[|events|] == sys
    }

    ghost predicate Valid()
      reads this, dev.Repr()
    {
      && Tracked() && dev.Valid()
      && sys.disk == dev.disk
      && (mountedOk <==> sys.boot.Up?)
      && (mountedOk ==> sys.boot.m == Mounted(mounted, mountedSlot))
    }

    /** Power-on, after the boots before. */
    constructor (d: Device, ghost before: seq<Sys>, ghost past: seq<Event>)
      requires d.Valid() && IsPath(before, past)
      requires before[|past|].disk == d.disk && before[|past|].boot.Booting? && before[|past|].job.Idle?
      ensures Valid() && dev == d && !mountedOk && path == before && events == past
    {
      dev := d;
      mountedOk := false;
      mounted := Superblock(0, 0, 0, 0, 0);
      mountedSlot := 0;
      sys := before[|past|];
      path := before;
      events := past;
    }

    /**
     The power fails, with or without a request the driver had given up on, and the machine comes up
     again with a fresh queue over what the device kept. The boots so far remain one run.
     */
    method PowerCycle(q: V.Queue) returns (next: Store)
      requires Valid() && q.Quiet() && q.flushOk && q.present && D.Crash(dev.queue.disk, q.disk)
      ensures fresh(next) && next.Valid() && next.dev.queue == q && !next.mountedOk
      ensures next.sys == sys.(disk := q.disk, boot := Booting, job := Idle)
      ensures next.path == path + [next.sys] && next.events == events + [PowerCut]
      ensures IsRun(path, events) ==> IsRun(next.path, next.events)
    {
      var d := new Device(q);
      ghost var cut := sys.(disk := q.disk, boot := Booting, job := Idle);
      D.CoveredCrash(dev.disk, dev.queue.disk, q.disk);
      PathWellFormed(path, events);
      assert Step(sys, PowerCut, cut) && D.WellFormed(cut.disk);
      CutExtends(path, events, cut);
      hide IsPath, IsRun, Step, D.Crash, D.Covers;
      next := new Store(d, path + [cut], events + [PowerCut]);
    }

    ghost method Record(e: Event, s': Sys)
      requires Tracked() && D.WellFormed(sys.disk) && D.WellFormed(s'.disk)
      requires Step(sys, e, s')
      modifies this`sys, this`path, this`events
      ensures Tracked() && sys == s'
      ensures path == old(path) + [s'] && events == old(events) + [e]
    {
      hide Device.Valid, D.WellFormed, Step;
      path, events, sys := path + [s'], events + [e], s';
    }

    method ReadSuperblock(slot: nat) returns (r: SlotRead)
      requires Valid() && slot < 2 && |dev.disk.live| > 2
      modifies dev.Repr()
      ensures Valid() && dev.disk == old(dev.disk) && r == ReadSlot(slot !in dev.unreadable, dev.disk.live[slot])
      ensures forall l :: l != slot ==> (l in dev.unreadable <==> l in old(dev.unreadable))
      ensures !r.Io? ==> dev.On()
      ensures r.Io? <==> dev.Failed()
    {
      hide Device.Valid, IsPath, DecodeSb;
      var ok, s := dev.ReadSector(slot);
      if !ok {
        return Io;
      }
      var sb := ParseSuperblock(s);
      r := if sb.Some? then SlotRead.Valid(sb.value) else Invalid;
    }

    method ReadSlots() returns (a: SlotRead, b: SlotRead)
      requires Valid() && |dev.disk.live| > 2
      modifies dev.Repr()
      ensures Valid() && dev.disk == old(dev.disk)
      ensures a == ReadSlot(0 !in dev.unreadable, dev.disk.live[0]) && b == ReadSlot(1 !in dev.unreadable, dev.disk.live[1])
      ensures forall l :: l > 1 ==> (l in dev.unreadable <==> l in old(dev.unreadable))
      ensures !b.Io? ==> dev.On()
    {
      hide Device.Valid, IsPath, DecodeSb;
      a := ReadSuperblock(0);
      b := ReadSuperblock(1);
    }

    /** Formatting a disk with no valid superblock: the first one, written and flushed. */
    method Format()
      requires Valid() && dev.On() && sys.boot.Booting? && sys.job == Formatting(false)
      modifies this`mounted, this`mountedOk, this`mountedSlot, this`sys, this`path, this`events, dev.Repr()
      ensures Valid() && sys.job.Idle? && !sys.boot.Booting?
      ensures old(path) <= path && old(events) <= events
      ensures Follows(Since(old(events), events), FORMAT_PLAN, mountedOk)
      ensures mountedOk ==> mounted == FORMAT_SB && mountedSlot == 0
      ensures mountedOk <==> !dev.Failed()
      ensures dev.unreadable == old(dev.unreadable)
    {
      hide Device.Valid, DecodeSb, EncodeSb, D.WriteSector, D.Flush, IsPath, Step, D.WellFormed, Follows, Since;
      PathWellFormed(path, events);
      var s := SuperblockSector(FORMAT_SB);
      var wrote := dev.WriteSector(0, s);
      FormatWriteStep(sys, wrote, dev.disk);
      Record(FormatWrite(wrote), AfterFormatWrite(sys, wrote, dev.disk));
      if wrote {
        var flushed := dev.Flush();
        FormatFlushStep(sys, flushed, dev.disk);
        Record(FormatFlush(flushed), AfterFormatFlush(sys, flushed, dev.disk));
        FormatDone(old(events), true, flushed);
        if flushed {
          mounted, mountedSlot, mountedOk := FORMAT_SB, 0, true;
        }
      } else {
        FormatDone(old(events), false, false);
        assert events == old(events) + [FormatWrite(false)] + [];
      }
    }

    /** Mounting once after power-on: the newest valid slot, or formatting a disk that has none. */
    method Mount()
      requires Valid() && sys.boot.Booting? && sys.job.Idle?
      modifies this`mounted, this`mountedOk, this`mountedSlot, this`sys, this`path, this`events, dev.Repr()
      ensures Valid() && sys.job.Idle? && !sys.boot.Booting?
      ensures old(path) <= path && old(events) <= events
      ensures forall l :: l > 1 ==> (l in dev.unreadable <==> l in old(dev.unreadable))
      ensures var readA, readB := 0 !in dev.unreadable, 1 !in dev.unreadable;
              var a, b := ReadSlot(readA, old(dev.disk.live)[0]), ReadSlot(readB, old(dev.disk.live)[1]);
              var done, mount := Since(old(events), events), [Event.Mount(readA, readB)];
              if Choose(a, b).Some? then
                done == mount && mountedOk && Mounted(mounted, mountedSlot) == Choose(a, b).value && dev.disk == old(dev.disk)
              else if a.Invalid? && b.Invalid? then
                Follows(done, mount + FORMAT_PLAN, mountedOk) && (mountedOk <==> !dev.Failed())
              else done == mount && !mountedOk
    {
      hide Device.Valid, DecodeSb, EncodeSb, IsPath, D.WellFormed, Follows, Step, D.WriteSector, D.Flush;
      PathWellFormed(path, events);
      DiskHasSlots(dev.disk);
      ghost var e0 := events;
      var a, b := ReadSlots();
      ghost var readA, readB := 0 !in dev.unreadable, 1 !in dev.unreadable;
      MountStep(sys, readA, readB);
      Record(Event.Mount(readA, readB), AfterMount(sys, readA, readB));
      if a.Valid? && b.Valid? {
        if a.sb.seqNo >= b.sb.seqNo {
          mounted, mountedSlot, mountedOk := a.sb, 0, true;
        } else {
          mounted, mountedSlot, mountedOk := b.sb, 1, true;
        }
      } else if a.Valid? {
        mounted, mountedSlot, mountedOk := a.sb, 0, true;
      } else if b.Valid? {
        mounted, mountedSlot, mountedOk := b.sb, 1, true;
      } else if a.Invalid? && b.Invalid? {
        ghost var e1 := events;
        Format();
        FollowsOn(e0, e1, events, [Event.Mount(readA, readB)], FORMAT_PLAN, mountedOk);
      }
    }

    /** Mounting goes on with the run, unless an out-of-date slot was taken. */
    method MountOnRun() returns (ghost readA: bool, ghost readB: bool)
      requires Valid() && sys.boot.Booting? && sys.job.Idle? && IsRun(path, events)
      modifies this`mounted, this`mountedOk, this`mountedSlot, this`sys, this`path, this`events, dev.Repr()
      ensures Valid() && old(path) <= path && old(events) < events
      ensures events[|old(events)|] == Event.Mount(readA, readB) && |old(sys).disk.live| > 2
      ensures !StaleMount(old(sys).disk.live, readA, readB) ==> IsRun(path, events)
    {
      ghost var s0, p0, e0 := sys, path, events;
      assert p0[|e0|] == s0;
      PathWellFormed(path, events);
      DiskHasSlots(sys.disk);
      hide Device.Valid, IsRun, IsPath, StaleMount, Follows, DecodeSb, D.WellFormed;
      Mount();
      readA, readB := 0 !in dev.unreadable, 1 !in dev.unreadable;
      MountFirst(e0, events, readA, readB, mountedOk);
      if !StaleMount(s0.disk.live, readA, readB) {
        MountKeepsRun(p0, e0, path, events, readA, readB, mountedOk);
      }
    }

    /**
     Coming back after whatever happened before: if a slot is mounted, and not an out-of-date or a lost
     one, the root is the last one or the one in limbo, and recover reports exactly it.
     */
    method MountAndRecover() returns (r: Option<(nat, nat, nat)>)
      requires Valid() && sys.boot.Booting? && sys.job.Idle? && IsRun(path, events) && !sys.tainted
      modifies this`mounted, this`mountedOk, this`mountedSlot, this`sys, this`path, this`events, dev.Repr()
      ensures Valid() && old(path) <= path && old(events) < events && events[|old(events)|].Mount?
      ensures |old(sys).disk.live| > 2
      ensures var e := events[|old(events)|];
              !StaleMount(old(sys).disk.live, e.readA, e.readB) ==>
                && IsRun(path, events)
                && (mountedOk && |events| == |old(events)| + 1 && mounted !in old(sys).lost ==>
                      && MountAtomic(old(sys), sys)
                      && r == if Readable(mounted.rootLba, Sectors(mounted.rootLen)) then Expected(sys.last) else None)
      ensures !mountedOk ==> r.None?
    {
      ghost var p0, e0 := path, events;
      assert p0[|e0|] == sys;
      hide Device.Valid, IsRun, IsPath, StaleMount, MountAtomic, DecodeSb, Recovered, Expected;
      ghost var readA, readB := MountOnRun();
      if !StaleMount(p0[|e0|].disk.live, readA, readB) && mountedOk && |events| == |e0| + 1 && mounted !in p0[|e0|].lost {
        MountedOnce(p0, e0, path, events);
      }
      r := Recover();
    }

    /** The data sectors, in order from the mounted head; stops at the first failing write. */
    method WriteDataSectors(bytes: seq<Byte>) returns (ok: bool)
      requires Valid() && mountedOk
      requires dev.On() ==> sys.job == Putting(bytes, if bytes == [] then HeaderNext else Data(0))
      modifies this`sys, this`path, this`events, dev.Repr()
      ensures Valid() && old(path) <= path && old(events) <= events
      ensures if old(dev.On()) then
                && sys == old(sys).(disk := dev.disk, job := if ok then Putting(bytes, HeaderNext) else Idle)
                && Follows(Since(old(events), events), DataPlan(Sectors(|bytes|)), ok) && (ok ==> dev.On())
              else
                sys == old(sys) && path == old(path) && events == old(events) && !dev.On() && (ok <==> bytes == [])
      ensures !ok ==> dev.Failed()
    {
      hide Device.Valid, Chunk, D.WriteSector, IsPath, Step, D.WellFormed;
      ghost var on := dev.On();
      var ndata := Sectors(|bytes|);
      var written, s := 0, 0;
      while s < ndata
        invariant 0 <= s <= ndata && dev.On() == on
        invariant s < ndata ==> written == 512 * s
        invariant Valid() && old(path) <= path && old(events) <= events
        invariant on ==> Since(old(events), events) == DataPlan(s)
        invariant on ==> sys == old(sys).(disk := dev.disk, job := Putting(bytes, if s == ndata then HeaderNext else Data(s)))
        invariant !on ==> s == 0 && sys == old(sys) && path == old(path) && events == old(events)
      {
        PathWellFormed(path, events);
        var sect, n := DataSector(bytes, s, written);
        var wrote := dev.WriteSector(mounted.logHead + s, sect);
        if on {
          DataStep(sys, s, wrote, dev.disk);
          Record(WriteData(wrote), Onward(sys, wrote, dev.disk, NextData(sys)));
        }
        if !wrote {
          assert on ==> StoppedAt(Since(old(events), events), DataPlan(ndata), s);
          return false;
        }
        written := written + n;
        s := s + 1;
      }
      ok := true;
    }

    /** The record header behind the data. */
    method WriteRecordHeader(bytes: seq<Byte>, h: U64) returns (ok: bool)
      requires Valid() && mountedOk && (dev.On() ==> sys.job == Putting(bytes, HeaderNext))
      requires |bytes| <= U32_MAX && h == Fnv.Hash(bytes)
      modifies this`sys, this`path, this`events, dev.Repr()
      ensures Valid() && old(path) <= path && old(events) <= events
      ensures if old(dev.On()) then
                && sys == Onward(old(sys), ok, dev.disk, Barrier)
                && Follows(Since(old(events), events), [WriteHeader(true)], ok) && (ok ==> dev.On())
              else !ok && sys == old(sys) && path == old(path) && events == old(events) && !dev.On()
      ensures ok <==> !dev.Failed()
    {
      hide Device.Valid, Header, D.WriteSector, IsPath;
      PathWellFormed(path, events);
      ghost var on := dev.On();
      var hdr := HeaderSector(|bytes|, h, mounted.rootLba);
      ok := dev.WriteSector(mounted.logHead + Sectors(|bytes|), hdr);
      if on {
        Record(WriteHeader(ok), Onward(sys, ok, dev.disk, Barrier));
        assert !ok ==> StoppedAt(Since(old(events), events), [WriteHeader(true)], 0);
      }
    }

    /** Data and header durable before the commit. */
    method FlushRecord(bytes: seq<Byte>) returns (ok: bool)
      requires Valid() && dev.On() && mountedOk && sys.job == Putting(bytes, Barrier)
      modifies this`sys, this`path, this`events, dev.Repr()
      ensures Valid() && old(path) <= path && old(events) <= events
      ensures sys == Onward(old(sys), ok, dev.disk, Flip) && (ok ==> dev.On())
      ensures Follows(Since(old(events), events), [DataFlush(true)], ok)
      ensures ok <==> !dev.Failed()
    {
      hide Device.Valid, D.Flush, IsPath;
      PathWellFormed(path, events);
      ok := dev.Flush();
      Record(DataFlush(ok), Onward(sys, ok, dev.disk, Flip));
      assert !ok ==> StoppedAt(Since(old(events), events), [DataFlush(true)], 0);
    }

    /** Everything before the commit: data, header, flush. On a device given up nothing is begun. */
    method StageRecord(bytes: seq<Byte>, h: U64) returns (ok: bool)
      requires Valid() && mountedOk && sys.job.Idle?
      requires |bytes| <= U32_MAX && h == Fnv.Hash(bytes)
      modifies this`sys, this`path, this`events, dev.Repr()
      ensures Valid() && old(path) <= path && old(events) <= events
      ensures |old(sys).disk.live| > 2
      ensures if old(dev.On()) then
                && sys == Onward(AfterBegin(old(sys), bytes), ok, dev.disk, Flip)
                && Follows(Since(old(events), events), RecordPlan(bytes), ok) && (ok ==> dev.On())
              else !ok && sys == old(sys) && path == old(path) && events == old(events) && !dev.On()
      ensures ok <==> !dev.Failed()
    {
      hide Device.Valid, IsPath, Step, Fnv.Hash, Sectors, Follows, NewerInOtherSlot, D.WellFormed;
      PathWellFormed(path, events);
      BeginStep(sys, bytes);
      ghost var e0, data := events, DataPlan(Sectors(|bytes|));
      ghost var on := dev.On();
      if on {
        Record(Begin(bytes), AfterBegin(sys, bytes));
      }
      ghost var e1 := events;
      ok := WriteDataSectors(bytes);
      if on {
        FollowsOn(e0, e1, events, [Begin(bytes)], data, ok);
      }
      if !ok {
        if on {
          FollowsPart(Since(e0, events), [Begin(bytes)] + data, [WriteHeader(true), DataFlush(true)]);
        }
        return;
      }
      ok := FinishRecord(bytes, h, e0);
    }

    /** The header behind the data, and both flushed. */
    method FinishRecord(bytes: seq<Byte>, h: U64, ghost e0: seq<Event>) returns (ok: bool)
      requires Valid() && mountedOk && (dev.On() ==> sys.job == Putting(bytes, HeaderNext))
      requires |bytes| <= U32_MAX && h == Fnv.Hash(bytes)
      requires e0 <= events
      requires dev.On() ==> Follows(Since(e0, events), [Begin(bytes)] + DataPlan(Sectors(|bytes|)), true)
      modifies this`sys, this`path, this`events, dev.Repr()
      ensures Valid() && old(path) <= path && old(events) <= events && e0 <= events
      ensures if old(dev.On()) then
                && sys == Onward(old(sys), ok, dev.disk, Flip)
                && Follows(Since(e0, events), RecordPlan(bytes), ok) && (ok ==> dev.On())
              else !ok && sys == old(sys) && path == old(path) && events == old(events) && !dev.On()
      ensures ok <==> !dev.Failed()
    {
      ghost var p := [Begin(bytes)] + DataPlan(Sectors(|bytes|));
      ghost var e2, on := events, dev.On();
      assert on ==> Since(e0, events) == p;
      assert p + [WriteHeader(true)] + [DataFlush(true)] == RecordPlan(bytes);
      hide Device.Valid, IsPath, Fnv.Hash, DataPlan;
      ok := WriteRecordHeader(bytes, h);
      if on {
        FollowsOn(e0, e2, events, p, [WriteHeader(true)], ok);
      }
      if !ok {
        if on {
          FollowsPart(Since(e0, events), p + [WriteHeader(true)], [DataFlush(true)]);
        }
        return;
      }
      ghost var e3 := events;
      ok := FlushRecord(bytes);
      FollowsOn(e0, e3, events, p + [WriteHeader(true)], [DataFlush(true)], ok);
    }

    /** The flip: the other slot is written and flushed. */
    method WriteSuperblock(bytes: seq<Byte>, other: nat, newSb: Superblock) returns (ok: bool)
      requires Valid() && dev.On() && mountedOk && sys.job == Putting(bytes, Flip) && |bytes| <= U32_MAX
      requires other == OtherSlot(mountedSlot) && newSb == NextSb(sys.boot.m, bytes)
      modifies this`sys, this`path, this`events, dev.Repr()
      ensures Tracked() && dev.Valid() && sys.disk == dev.disk && old(path) <= path && old(events) <= events
      ensures sys.job == Idle
      ensures ok ==> sys == AfterCommit(old(sys), true, dev.disk)
      ensures !ok ==> sys == AfterWriteSlot(old(sys), false, dev.disk)
      ensures Follows(Since(old(events), events), [WriteSlot(true), CommitFlush(true)], ok)
      ensures ok <==> !dev.Failed()
    {
      hide Device.Valid, EncodeSb, D.WriteSector, D.Flush, IsPath, NextSb, Fnv.Hash, Step, D.WellFormed;
      PathWellFormed(path, events);
      var x := SuperblockSector(newSb);
      var wrote := dev.WriteSector(other, x);
      SlotStep(sys, wrote, dev.disk);
      Record(WriteSlot(wrote), AfterWriteSlot(sys, wrote, dev.disk));
      if !wrote {
        assert StoppedAt(Since(old(events), events), [WriteSlot(true), CommitFlush(true)], 0);
        return false;
      }
      ok := dev.Flush();
      CommitStep(sys, ok, dev.disk);
      Record(CommitFlush(ok), AfterCommit(sys, ok, dev.disk));
      assert !ok ==> StoppedAt(Since(old(events), events), [WriteSlot(true), CommitFlush(true)], 1);
    }

    /** The commit: the flip, and on its success the mounted state moves on. */
    method CommitRecord(bytes: seq<Byte>, h: U64) returns (ok: bool)
      requires Valid() && dev.On() && mountedOk && sys.job == Putting(bytes, Flip)
      requires |bytes| <= U32_MAX && h == Fnv.Hash(bytes)
      modifies this`mounted, this`mountedSlot, this`sys, this`path, this`events, dev.Repr()
      ensures Valid() && old(path) <= path && old(events) <= events
      ensures ok ==> sys == AfterCommit(old(sys), true, dev.disk)
      ensures !ok ==> sys == AfterWriteSlot(old(sys), false, dev.disk)
                      && mounted == old(mounted) && mountedSlot == old(mountedSlot)
      ensures Follows(Since(old(events), events), [WriteSlot(true), CommitFlush(true)], ok)
      ensures ok <==> !dev.Failed()
    {
      hide Device.Valid, IsPath, D.WellFormed, Sectors, Fnv.Hash;
      var newSb := Superblock((mounted.seqNo + 1) % TWO_64, (mounted.logHead + Sectors(|bytes|) + 1) % TWO_64,
                              mounted.logHead, |bytes|, h);
      var other := if mountedSlot == 0 then 1 else 0;
      ok := WriteSuperblock(bytes, other, newSb);
      if ok {
        mounted, mountedSlot := newSb, other;
      }
    }

    /**
     Append and commit: data, header, flush, then the other superblock slot and another flush. A put
     returns the extent exactly when it has become an acknowledged one, and otherwise leaves the
     mounted superblock and the acknowledged extents as they were. On a mounted store it fails only
     because the last device operation did, and then stops there.
     */
    method Put(bytes: seq<Byte>) returns (r: Option<(nat, nat, nat)>)
      requires Valid() && sys.job.Idle?
      modifies this`mounted, this`mountedSlot, this`sys, this`path, this`events, dev.Repr()
      ensures Valid() && sys.job.Idle?
      ensures old(path) <= path && old(events) <= events
      ensures r.Some? ==> old(mountedOk) && r == Some((old(mounted).logHead, |bytes|, Fnv.Hash(bytes)))
      ensures r.Some? ==> sys.acked == old(sys.acked) + {Extent(old(mounted).logHead, bytes, old(mounted).rootLba)}
      ensures r.None? ==> mounted == old(mounted) && mountedSlot == old(mountedSlot) && sys.acked == old(sys.acked)
      ensures if old(mountedOk) && old(dev.On()) && |bytes| <= U32_MAX
              then Follows(Since(old(events), events), PutPlan(bytes), r.Some?) && (r.Some? <==> !dev.Failed())
              else r.None? && sys == old(sys) && path == old(path) && events == old(events)
      ensures old(IsRun(path, events)) ==> IsRun(path, events)
      ensures old(mountedOk) && |old(sys).disk.live| > 2 && Clean(old(sys)) && !NewerInOtherSlot(old(sys)) ==> Clean(sys)
    {
      if !mountedOk || |bytes| > U32_MAX {
        return None;
      }
      var dataLba := mounted.logHead;
      var h := Fnv.FnvStep(Fnv.BASIS, bytes);
      assert h == Fnv.Hash(bytes);
      hide Device.Valid, IsPath, IsRun, D.WellFormed, Sectors, Fnv.Hash, Fnv.Fold, NextSb, RecordPlan, NewerInOtherSlot;
      ghost var p0, e0, on := path, events, dev.On();
      var ok := StageRecord(bytes, h);
      if !ok {
        if on {
          FollowsPart(Since(e0, events), RecordPlan(bytes), [WriteSlot(true), CommitFlush(true)]);
          PutKeepsRun(p0, e0, path, events, bytes, false);
        }
        return None;
      }
      ghost var e1 := events;
      ok := CommitRecord(bytes, h);
      FollowsOn(e0, e1, events, RecordPlan(bytes), [WriteSlot(true), CommitFlush(true)], ok);
      PutKeepsRun(p0, e0, path, events, bytes, ok);
      r := if ok then Some((dataLba, |bytes|, h)) else None;
    }

    ghost predicate Readable(lba: nat, n: nat)
      reads dev.Repr()
    {
      n == 0 || (lba + n <= |dev.disk.live| && forall l :: lba <= l < lba + n ==> l !in dev.unreadable)
    }

    /** Reads an extent back and hashes it sector by sector; fails exactly if the read of one sector fails. */
    method ExtentContentHash(lba: nat, len: nat) returns (r: Option<U64>)
      requires Valid()
      modifies dev.Repr()
      ensures Valid() && dev.disk == old(dev.disk)
      ensures forall l :: l < lba ==> (l in dev.unreadable <==> l in old(dev.unreadable))
      ensures r == if Readable(lba, Sectors(len)) then Some(D.Streamed(Fnv.BASIS, dev.disk.live, lba, len)) else None
    {
      hide Device.Valid, IsPath, Fnv.Fold;
      ghost var image := dev.disk.live;
      var nsect := Sectors(len);
      var h, consumed, s := Fnv.BASIS, 0, 0;
      while s < nsect
        invariant 0 <= s <= nsect && consumed == Min(512 * s, len)
        invariant Valid() && dev.disk == old(dev.disk) && Readable(lba, s)
        invariant forall l :: l < lba ==> (l in dev.unreadable <==> l in old(dev.unreadable))
        invariant len == 0 || lba + nsect <= |image| ==>
                    D.Streamed(Fnv.BASIS, image, lba, len) == D.Streamed(h, image, lba + s, len - consumed)
      {
        var ok, sect := dev.ReadSector(lba + s);
        if !ok {
          return None;
        }
        var remaining := len - consumed;
        var n := if remaining >= 512 then 512 else remaining;
        h := Fnv.FnvStep(h, sect[..n]);
        consumed := consumed + n;
        s := s + 1;
      }
      r := Some(h);
    }

    /** The persisted root, if the store is mounted, the root is not empty and its bytes still hash to its name. */
    method Recover() returns (r: Option<(nat, nat, nat)>)
      requires Valid()
      modifies dev.Repr()
      ensures Valid() && dev.disk == old(dev.disk)
      ensures forall l :: l < mounted.rootLba ==> (l in dev.unreadable <==> l in old(dev.unreadable))
      ensures r == if mountedOk && Readable(mounted.rootLba, Sectors(mounted.rootLen))
                   then Recovered(dev.disk.live, mounted) else None
    {
      hide Device.Valid, IsPath, D.Streamed;
      if !mountedOk || mounted.rootLen == 0 {
        return None;
      }
      var h := ExtentContentHash(mounted.rootLba, mounted.rootLen);
      r := if h.Some? && h.value == mounted.rootHash
           then Some((mounted.rootLba, mounted.rootLen, mounted.rootHash)) else None;
    }
  }

  lemma CutExtends(path: seq<Sys>, events: seq<Event>, cut: Sys)
    requires IsPath(path, events) && D.WellFormed(cut.disk) && Step(path[|events|], PowerCut, cut)
    ensures IsPath(path + [cut], events + [PowerCut]) && (path + [cut])[|events + [PowerCut]|] == cut
    ensures IsRun(path, events) ==> IsRun(path + [cut], events + [PowerCut])
  {
    hide Step, D.WellFormed, StaleMount, Fresh;
  }

  lemma MountFirst(e0: seq<Event>, e: seq<Event>, readA: bool, readB: bool, ok: bool)
    requires e0 <= e
    requires Since(e0, e) == [Event.Mount(readA, readB)] || Follows(Since(e0, e), [Event.Mount(readA, readB)] + FORMAT_PLAN, ok)
    ensures e0 < e && e[|e0|] == Event.Mount(readA, readB)
  {
    var done := Since(e0, e);
    if done != [Event.Mount(readA, readB)] && !ok {
      var k: nat :| StoppedAt(done, [Event.Mount(readA, readB)] + FORMAT_PLAN, k);
    }
    assert e[|e0|] == done[0];
  }

  /** A run that a single mount continues. */
  lemma MountedOnce(p0: seq<Sys>, e0: seq<Event>, p: seq<Sys>, e: seq<Event>)
    requires IsRun(p0, e0) && IsRun(p, e) && p0 <= p && e0 <= e && |e| == |e0| + 1 && e[|e0|].Mount?
    requires !p0[|e0|].tainted && p[|e|].boot.Up? && p[|e|].boot.m.sb !in p0[|e0|].lost
    ensures MountAtomic(p0[|e0|], p[|e|])
    ensures Recovered(p[|e|].disk.live, p[|e|].boot.m.sb) == Expected(p[|e|].last)
  {
    hide Step;
    assert p[|e0|] == p0[|e0|];
    CrashAtomicity(p, e, |e0|);
  }

  /** The events of a mount: the mount itself, and a format if neither slot validates. */
  lemma MountKeepsRun(p0: seq<Sys>, e0: seq<Event>, p: seq<Sys>, e: seq<Event>, readA: bool, readB: bool, ok: bool)
    requires IsPath(p, e) && IsRun(p0, e0) && p0 <= p && e0 <= e
    requires Since(e0, e) == [Event.Mount(readA, readB)] || Follows(Since(e0, e), [Event.Mount(readA, readB)] + FORMAT_PLAN, ok)
    requires !StaleMount(p0[|e0|].disk.live, readA, readB)
    ensures IsRun(p, e) && |e0| < |e| && e[|e0|] == Event.Mount(readA, readB)
  {
    assert |p0| == |e0| + 1 && p[|e0|] == p0[|e0|];
    hide IsPath, IsRun, StaleMount;
    var done := Since(e0, e);
    if done != [Event.Mount(readA, readB)] {
      var plan := [Event.Mount(readA, readB)] + FORMAT_PLAN;
      if !ok {
        var k: nat :| StoppedAt(done, plan, k);
      }
    }
    forall i | |e0| <= i < |e| && e[i].Mount? ensures i == |e0| && e[i] == Event.Mount(readA, readB) {
      assert e[i] == done[i - |e0|];
    }
    RunGoesOn(p0, e0, p, e);
  }

  /** A longer path is a run if its beginning is one and no mount since then took an out-of-date slot. */
  lemma RunGoesOn(p0: seq<Sys>, e0: seq<Event>, p: seq<Sys>, e: seq<Event>)
    requires IsRun(p0, e0) && IsPath(p, e) && p0 <= p && e0 <= e
    requires forall i :: |e0| <= i < |e| && e[i].Mount? ==> !StaleMount(p[i].disk.live, e[i].readA, e[i].readB)
    ensures IsRun(p, e)
  {
    hide Step, StaleMount, Fresh, D.WellFormed;
  }

  lemma PutKeepsRun(p0: seq<Sys>, e0: seq<Event>, p: seq<Sys>, e: seq<Event>, bytes: seq<Byte>, ok: bool)
    requires IsPath(p, e) && p0 <= p && e0 <= e && Follows(Since(e0, e), PutPlan(bytes), ok)
    ensures IsRun(p0, e0) ==> IsRun(p, e)
  {
    PutIsOnePut(bytes, Since(e0, e), ok);
    hide IsPath, IsRun, Follows, StaleMount, OnePut;
    if IsRun(p0, e0) {
      forall i | |e0| <= i < |e| ensures !e[i].Mount? {
        assert e[i] == Since(e0, e)[i - |e0|];
      }
      RunGoesOn(p0, e0, p, e);
    }
  }

  lemma FormatDone(was: seq<Event>, wrote: bool, flushed: bool)
    ensures var now := was + [FormatWrite(wrote)] + if wrote then [FormatFlush(flushed)] else [];
            was <= now && Follows(Since(was, now), FORMAT_PLAN, wrote && flushed)
  {
    var now := was + [FormatWrite(wrote)] + if wrote then [FormatFlush(flushed)] else [];
    if !wrote {
      assert StoppedAt(Since(was, now), FORMAT_PLAN, 0);
    } else if !flushed {
      assert StoppedAt(Since(was, now), FORMAT_PLAN, 1);
    }
  }

  // The operations of the store as steps of the protocol.

  lemma MountStep(s: Sys, readA: bool, readB: bool)
    requires D.WellFormed(s.disk) && s.boot.Booting? && s.job.Idle?
    ensures |s.disk.live| > 2 && Step(s, Event.Mount(readA, readB), AfterMount(s, readA, readB))
  {
  }

  lemma FormatWriteStep(s: Sys, ok: bool, d: D.Disk)
    requires D.WellFormed(s.disk) && s.job == Formatting(false)
    requires D.WriteSector(s.disk, 0, EncodeSb(FORMAT_SB), ok, d)
    ensures Step(s, FormatWrite(ok), AfterFormatWrite(s, ok, d))
  {
  }

  lemma FormatFlushStep(s: Sys, ok: bool, d: D.Disk)
    requires D.WellFormed(s.disk) && s.job == Formatting(true) && D.Flush(s.disk, ok, d)
    ensures Step(s, FormatFlush(ok), AfterFormatFlush(s, ok, d))
  {
  }

  lemma DataStep(s: Sys, k: nat, ok: bool, d: D.Disk)
    requires D.WellFormed(s.disk) && s.boot.Up? && s.job.Putting? && s.job.phase == Data(k)
    requires k < Sectors(|s.job.bytes|)
    requires D.WriteSector(s.disk, s.boot.m.sb.logHead + k, Chunk(s.job.bytes, k), ok, d)
    ensures Step(s, WriteData(ok), Onward(s, ok, d, NextData(s)))
  {
  }

  lemma SlotStep(s: Sys, ok: bool, d: D.Disk)
    requires D.WellFormed(s.disk) && s.boot.Up? && s.job.Putting? && s.job.phase.Flip? && |s.job.bytes| <= U32_MAX
    requires D.WriteSector(s.disk, OtherSlot(s.boot.m.slot), EncodeSb(NextSb(s.boot.m, s.job.bytes)), ok, d)
    ensures Step(s, WriteSlot(ok), AfterWriteSlot(s, ok, d))
  {
  }

  lemma CommitStep(s: Sys, ok: bool, d: D.Disk)
    requires D.WellFormed(s.disk) && s.boot.Up? && s.job.Putting? && s.job.phase.Commit? && |s.job.bytes| <= U32_MAX
    requires D.Flush(s.disk, ok, d)
    ensures Step(s, CommitFlush(ok), AfterCommit(s, ok, d))
  {
  }

  lemma BeginStep(s: Sys, bytes: seq<Byte>)
    requires D.WellFormed(s.disk) && s.boot.Up? && s.job.Idle? && |bytes| <= U32_MAX
    ensures |s.disk.live| > 2 && Step(s, Begin(bytes), AfterBegin(s, bytes))
  {
  }

  lemma DiskHasSlots(d: D.Disk)
    requires D.WellFormed(d)
    ensures |d.live| > 2
  {
  }

  lemma PathWellFormed(path: seq<Sys>, events: seq<Event>)
    requires IsPath(path, events)
    ensures D.WellFormed(path[|events|].disk)
  {
  }
}
