/**
 The block driver's queue (VIRTIO 1.0, sections 2.4 and 5.2.6) and the device on its other side. The
 two share 16-bit counters that wrap, one descriptor chain and one request buffer. Ghost logs record
 every request ever published and every answer ever given; the invariant ties them to the counters.
 */
module VirtioRing {
  import opened Machine
  import opened Codec
  import D = Disk

  const TWO_16: nat := 0x1_0000
  const QSIZE: nat := 128
  const POLL_LIMIT: nat := 50_000_000

  const T_IN: nat := 0
  const T_OUT: nat := 1
  const T_FLUSH: nat := 4

  datatype Buffer = Unset | Header | Data | Status

  datatype Desc = Desc(buffer: Buffer, length: nat, deviceWrites: bool, next: Option<nat>)

  datatype Request = Read(lba: nat) | Write(lba: nat, payload: Sector) | FlushCache | Unsupported

  datatype Answer = Answer(request: Request, status: Byte)

  // ---- wrapping counters ----

  function Wrap(n: nat): U16 {
    n % TWO_16
  }

  /** Two counts less than 2^16 apart are equal exactly when their 16-bit images are. */
  lemma WrapExact(a: nat, b: nat)
    requires a <= b < a + TWO_16
    ensures Wrap(a) == Wrap(b) <==> a == b
  {
  }

  lemma WrapNext(n: nat)
    ensures Wrap(Wrap(n) + 1) == Wrap(n + 1)
  {
  }

  // ---- what the device makes of the queue's memory ----

  /** The descriptors met when following `next` from `i`, at most `left` of them. */
  function Walk(table: seq<Desc>, i: nat, left: nat): seq<Desc>
    decreases left
  {
    if left == 0 || i >= |table| then []
    else [table[i]] + match table[i].next case None => [] case Some(j) => Walk(table, j, left - 1)
  }

  /** The request that a chain, a header and a data buffer denote. */
  function Understood(chain: seq<Desc>, op: nat, lba: nat, data: Sector): Request {
    if |chain| < 2 || !IsPart(chain[0], Header, 16, false) || !IsPart(chain[|chain| - 1], Status, 1, true) then Unsupported
    else if |chain| == 2 then
      if op == T_FLUSH then FlushCache else Unsupported
    else if |chain| > 3 then Unsupported
    else if op == T_IN && IsPart(chain[1], Data, 512, true) then Read(lba)
    else if op == T_OUT && IsPart(chain[1], Data, 512, false) then Write(lba, data)
    else Unsupported
  }

  predicate IsPart(d: Desc, buffer: Buffer, length: nat, deviceWrites: bool) {
    d.buffer == buffer && d.length == length && d.deviceWrites == deviceWrites
  }

  /** What the driver means by a request type, a sector number and whether data goes along. */
  function Wanted(op: nat, lba: nat, hasData: bool, data: Sector): Request {
    if hasData && op == T_IN then Read(lba)
    else if hasData && op == T_OUT then Write(lba, data)
    else if !hasData && op == T_FLUSH then FlushCache
    else Unsupported
  }

  /** Serving `q` with status `st` takes the disk from `d` to `d'` and leaves `data` in the buffer. */
  ghost predicate Served(d: D.Disk, q: Request, st: Byte, d': D.Disk, data: Sector)
    requires D.WellFormed(d)
  {
    match q
    case Read(l) => d' == d && (st == 0 ==> l < |d.live| && data == d.live[l])
    case Write(l, x) => D.WriteSector(d, l, x, st == 0, d')
    case FlushCache => D.Flush(d, st == 0, d')
    case Unsupported => d' == d && st != 0
  }

  /** The disk on which a request left in flight has done all it may still do. */
  function AtWorst(d: D.Disk, q: Request): D.Disk {
    if q.Write? && q.lba < |d.live| then D.Written(d, q.lba, q.payload) else d
  }

  /** A request answered late leaves no more for a crash than if it had failed having taken effect. */
  lemma LateAnswer(d: D.Disk, q: Request, st: Byte, d': D.Disk, data: Sector)
    requires D.WellFormed(d) && Served(d, q, st, d', data)
    ensures D.Covers(AtWorst(d, q), d')
  {
    hide DecodeSb;
    forall l: nat, x: Sector | l < |d.durable| && D.MayHold(d', l, x) ensures D.MayHold(AtWorst(d, q), l, x) {
      LateAnswerAt(d, q, st, d', data, l, x);
    }
  }

  lemma LateAnswerAt(d: D.Disk, q: Request, st: Byte, d': D.Disk, data: Sector, l: nat, x: Sector)
    requires D.WellFormed(d) && Served(d, q, st, d', data) && l < |d.durable| && |d'.durable| == |d.durable|
    requires D.MayHold(d', l, x)
    ensures D.MayHold(AtWorst(d, q), l, x)
  {
    hide DecodeSb;
  }

  lemma StillInFlight(d: D.Disk, q: Request)
    requires D.WellFormed(d)
    ensures D.WellFormed(AtWorst(d, q)) && D.Covers(AtWorst(d, q), d)
    ensures q.Write? ==> D.WriteSector(d, q.lba, q.payload, false, AtWorst(d, q))
  {
    if q.Write? && q.lba < |d.live| {
      D.WrittenKeepsOthers(d, q.lba, q.payload);
    }
  }

  /** Everything a driver call could disturb while a request is in flight. */
  datatype Memory = Memory(availIdx: nat, desc: seq<Desc>, ring: seq<nat>, op: nat, lba: nat, asked: seq<Request>)

  class Queue {
    // driver
    var present: bool
    const flushOk: bool
    const qsize: nat
    // shared memory
    const desc: array<Desc>
    const ring: array<nat>
    var availIdx: U16
    var usedIdx: U16
    var op: nat
    var lba: nat
    var data: Sector
    var status: Byte
    // device
    var seen: U16
    var disk: D.Disk
    // history
    ghost var asked: seq<Request>
    ghost var answers: seq<Answer>
    ghost var frozen: Option<Memory>

    ghost function Queued(): Memory
      reads this, desc, ring
    {
      Memory(availIdx, desc[..], ring[..], op, lba, asked)
    }

    ghost predicate InFlight()
      reads this
    {
      |answers| < |asked|
    }

    /** The request the device will find when it looks. */
    ghost function Posted(): Request
      requires ring.Length == qsize && 0 < qsize
      reads this, desc, ring
    {
      Understood(Walk(desc[..], ring[seen % qsize], desc.Length), op, lba, data)
    }

    ghost predicate Valid()
      reads this, desc, ring
    {
      && desc.Length == QSIZE && 0 < qsize <= QSIZE && ring.Length == qsize
      && D.WellFormed(disk)
      && availIdx == Wrap(|asked|)
      && usedIdx == seen == Wrap(|answers|)
      && |answers| <= |asked| <= |answers| + 1
      && (forall i :: 0 <= i < |answers| ==> answers[i].request == asked[i])
      && (InFlight() ==> Posted() == asked[|asked| - 1])
      && (frozen.Some? ==> !present && frozen.value == Queued())
    }

    /** Between calls: nothing is in flight unless the driver has given up on the device. */
    ghost predicate Quiet()
      reads this, desc, ring
    {
      Valid() && (present ==> !InFlight())
    }

    constructor (size: nat, flush: bool, d: D.Disk)
      requires 0 < size && D.WellFormed(d)
      ensures Quiet() && present && flushOk == flush && disk == d && asked == [] && answers == []
      ensures fresh(desc) && fresh(ring)
    {
      qsize := if size < QSIZE then size else QSIZE;
      desc := new Desc[QSIZE](_ => Desc(Unset, 0, false, None));
      ring := new nat[if size < QSIZE then size else QSIZE](_ => 0);
      availIdx, usedIdx, seen := 0, 0, 0;
      op, lba, data, status := 0, 0, Zeros(512), 0;
      flushOk, disk, present := flush, d, true;
      asked, answers, frozen := [], [], None;
    }

    /** One look by the device at the queue; it may also stay idle. */
    method DeviceTurn()
      requires Valid()
      modifies this`usedIdx, this`seen, this`data, this`status, this`disk, this`answers
      ensures Valid()
      ensures if |answers| == |old(answers)| then
                && answers == old(answers) && data == old(data) && status == old(status) && disk == old(disk)
              else
                && old(InFlight()) && answers == old(answers) + [Answer(asked[|asked| - 1], status)]
                && Served(old(disk), asked[|asked| - 1], status, disk, data)
    {
      hide Wrap, Walk, Understood, Served, D.WellFormed;
      WrapExact(|answers|, |asked|);
      WrapNext(|answers|);
      var awake: bool := *;
      if !awake || seen == availIdx {
        return;
      }
      var q := Understood(Walk(desc[..], ring[seen % qsize], desc.Length), op, lba, data);
      Serve(q);
      seen := Wrap(seen + 1);
      usedIdx := Wrap(usedIdx + 1);
      answers := answers + [Answer(q, status)];
    }

    method Serve(q: Request)
      requires D.WellFormed(disk)
      modifies this`data, this`status, this`disk
      ensures D.WellFormed(disk)
      ensures Served(old(disk), q, status, disk, data)
    {
      status := *;
      match q {
        case Read(l) =>
          data := *;
          if l >= |disk.live| {
            status := 1;
          } else if status == 0 {
            data := disk.live[l];
          }
        case Write(l, x) =>
          if l >= |disk.live| {
            status := 1;
          } else {
            var y: Sector := *;
            if status == 0 || !D.Torn(l, y) {
              y := x;
            }
            D.WrittenKeepsOthers(disk, l, y);
            var reached: bool := *;
            if status == 0 || reached {
              disk := D.Written(disk, l, y);
            }
          }
        case FlushCache =>
          if status == 0 {
            disk := D.Disk(disk.live, disk.live, {});
          }
        case Unsupported =>
          status := 2;
      }
    }

    /** Header, status byte and descriptor chain of a request. */
    method Describe(kind: nat, sector: nat, hasData: bool)
      requires desc.Length == QSIZE
      modifies this`op, this`lba, this`status, desc
      ensures op == kind && lba == sector && status == 0xff
      ensures Understood(Walk(desc[..], 0, desc.Length), op, lba, data) == Wanted(kind, sector, hasData, data)
    {
      op, lba, status := kind, sector, 0xff;
      desc[0] := Desc(Header, 16, false, Some(1));
      if hasData {
        desc[1] := Desc(Data, 512, kind == T_IN, Some(2));
        desc[2] := Desc(Status, 1, true, None);
        WalkThree(desc[..]);
      } else {
        desc[1] := Desc(Status, 1, true, None);
        WalkTwo(desc[..]);
      }
    }

    /** Puts the chain into the next ring slot and moves the index; `target` is the count that answers it. */
    method Publish(kind: nat, sector: nat, hasData: bool) returns (target: U16)
      requires Quiet() && present
      modifies this`availIdx, this`op, this`lba, this`status, this`asked, desc, ring
      ensures Valid() && InFlight() && target == Wrap(|asked|)
      ensures asked == old(asked) + [Wanted(kind, sector, hasData, data)]
    {
      hide Wrap, Walk, Understood, Wanted, D.WellFormed;
      Describe(kind, sector, hasData);
      var slot := availIdx % qsize;
      ring[slot] := 0;
      WrapNext(|asked|);
      target := Wrap(availIdx + 1);
      availIdx := target;
      asked := asked + [Wanted(kind, sector, hasData, data)];
    }

    /**
     One request from publication to answer. If the driver still trusts the device afterwards, the
     newest answer is the one to this very request and `ok` is its verdict; otherwise every one of
     the allowed polls found it unanswered and nothing has happened yet.
     */
    method Submit(kind: nat, sector: nat, hasData: bool) returns (ok: bool, ghost polls: nat)
      requires Quiet()
      modifies this`present, this`availIdx, this`usedIdx, this`seen, this`op, this`lba, this`data, this`status,
               this`disk, this`asked, this`answers, this`frozen, desc, ring
      ensures Quiet()
      ensures !old(present) ==>
                && !ok && !present && Queued() == old(Queued())
                && disk == old(disk) && data == old(data) && answers == old(answers)
      ensures var q := Wanted(kind, sector, hasData, old(data));
              old(present) ==>
                && asked == old(asked) + [q]
                && (present ==>
                      && answers == old(answers) + [Answer(q, status)] && ok == (status == 0)
                      && Served(old(disk), q, status, disk, data))
                && (!present ==>
                      && !ok && polls == POLL_LIMIT + 1 && InFlight()
                      && answers == old(answers) && disk == old(disk) && data == old(data))
    {
      hide Wrap, Walk, Understood, Wanted, Served, D.WellFormed;
      ok, polls := false, 0;
      if !present {
        return;
      }
      var target := Publish(kind, sector, hasData);
      var guard := 0;
      while true
        invariant Valid() && present && frozen.None? && !ok
        invariant InFlight() && answers == old(answers) && disk == old(disk) && data == old(data)
        invariant asked == old(asked) + [Wanted(kind, sector, hasData, old(data))] && target == Wrap(|asked|)
        invariant guard == polls <= POLL_LIMIT
        decreases POLL_LIMIT - guard
      {
        DeviceTurn();
        WrapExact(|answers|, |asked|);
        if usedIdx == target {
          break;
        }
        guard, polls := guard + 1, polls + 1;
        if guard > POLL_LIMIT {
          present := false;
          frozen := Some(Queued());
          return;
        }
      }
      ok := status == 0;
    }

    method ReadSector(l: nat) returns (ok: bool, dst: Sector)
      requires Quiet()
      modifies this`present, this`availIdx, this`usedIdx, this`seen, this`op, this`lba, this`data, this`status,
               this`disk, this`asked, this`answers, this`frozen, desc, ring
      ensures Quiet() && disk == old(disk)
      ensures ok ==> present && l < |disk.live| && dst == disk.live[l]
      ensures old(present) && present ==> answers == old(answers) + [Answer(Read(l), status)] && ok == (status == 0)
      ensures old(present) && !present ==> InFlight() && asked == old(asked) + [Read(l)]
      ensures !old(present) ==> !ok && !present && Queued() == old(Queued()) && data == old(data) && answers == old(answers)
    {
      dst := Zeros(512);
      ghost var polls;
      ok, polls := Submit(T_IN, l, true);
      if ok {
        dst := data;
      }
    }

    method WriteSector(l: nat, src: Sector) returns (ok: bool)
      requires Quiet()
      modifies this`present, this`availIdx, this`usedIdx, this`seen, this`op, this`lba, this`data, this`status,
               this`disk, this`asked, this`answers, this`frozen, desc, ring
      ensures Quiet()
      ensures D.WriteSector(old(disk), l, src, ok, disk)
      ensures ok ==> present
      ensures old(present) && present ==> answers == old(answers) + [Answer(Write(l, src), status)] && ok == (status == 0)
      ensures old(present) && !present ==> disk == old(disk) && InFlight() && asked == old(asked) + [Write(l, src)]
      ensures !old(present) ==>
                && !ok && !present && Queued() == old(Queued())
                && data == old(data) && disk == old(disk) && answers == old(answers)
    {
      if !present {
        return false;
      }
      data := src;
      ghost var polls;
      ok, polls := Submit(T_OUT, l, true);
    }

    /** Without the negotiated feature a flush is a promise about a cache that is not there. */
    method Flush() returns (ok: bool)
      requires Quiet()
      modifies this`present, this`availIdx, this`usedIdx, this`seen, this`op, this`lba, this`data, this`status,
               this`disk, this`asked, this`answers, this`frozen, desc, ring
      ensures Quiet()
      ensures flushOk ==> D.Flush(old(disk), ok, disk)
      ensures !flushOk ==> ok == old(present) && disk == old(disk) && answers == old(answers)
      ensures ok ==> present
      ensures flushOk && old(present) && present ==>
                answers == old(answers) + [Answer(FlushCache, status)] && ok == (status == 0)
      ensures old(present) && !present ==> disk == old(disk) && InFlight() && asked == old(asked) + [FlushCache]
      ensures !old(present) ==>
                && !ok && !present && Queued() == old(Queued())
                && data == old(data) && disk == old(disk) && answers == old(answers)
    {
      if !present {
        return false;
      }
      if !flushOk {
        return true;
      }
      ghost var polls;
      ok, polls := Submit(T_FLUSH, 0, false);
    }
  }

  lemma WalkThree(t: seq<Desc>)
    requires |t| == QSIZE && t[0].next == Some(1) && t[1].next == Some(2) && t[2].next == None
    ensures Walk(t, 0, |t|) == [t[0], t[1], t[2]]
  {
  }

  lemma WalkTwo(t: seq<Desc>)
    requires |t| == QSIZE && t[0].next == Some(1) && t[1].next == None
    ensures Walk(t, 0, |t|) == [t[0], t[1]]
  {
  }
}
