/**
 The kernel's interface as a holder of capabilities sees it: which slot each step needs, what it
 answers when the slot does not allow it, and what it does when it does. Everything here is said of
 the slots of the tables and the numbers of the system call interface.
 */
module Interface {
  import opened Machine
  import opened CapCore
  import opened Sched
  import opened Ledger
  import opened KernelModel
  import opened Parking
  import opened Messages
  import opened Lineage
  import opened Transfer
  import opened Supervision

  // ---- the gate every invocation goes through ----

  /** The entry names an object that is there, of its kind and at its epoch. */
  ghost predicate Live(objs: Objects, x: CapEntry) {
    x.objectId < 1024 && objs[x.objectId] == Meta(x.kind, x.epoch, true)
  }

  /** Slot `c` holds a live entry with INVOKE: what it takes to get through the gate. */
  ghost predicate Open(k: Kernel, d: nat, c: nat)
    requires d < 6
  {
    c < 256 && k.caps[d][c].Some? && Live(k.objs, k.caps[d][c].value) && Invoke in k.caps[d][c].value.rights
  }

  /** The status with which an entry is refused that does not fit its object; 0 if it does. */
  ghost function Stale(objs: Objects, x: CapEntry): nat {
    if x.objectId >= 1024 then 1
    else if x.epoch != objs[x.objectId].epoch then 2
    else if !objs[x.objectId].present || x.kind != objs[x.objectId].kind then 3
    else 0
  }

  /** The status with which slot `c` is refused to an invocation: what is first found missing, 0 if nothing is. */
  ghost function GateStatus(k: Kernel, d: nat, c: nat): nat
    requires d < 6
  {
    if c >= 256 || k.caps[d][c].None? then 1
    else if Stale(k.objs, k.caps[d][c].value) != 0 then Stale(k.objs, k.caps[d][c].value)
    else if Invoke !in k.caps[d][c].value.rights then 4
    else 0
  }

  ghost predicate Invokes(e: Event) {
    e.Call? || e.Direct?
  }

  /** The domain in whose table the slot is looked up. */
  ghost function Caller(k: Kernel, e: Event): (d: nat)
    requires e.Direct? || (e.Call? && k.curDomain < 6)
    ensures d < 6
  {
    if e.Call? then k.curDomain else if e.domain < 6 then e.domain else 5
  }

  /** What an invocation returns at once; nothing if its task was parked. */
  ghost function Reply(k: Kernel, e: Event): Option<IpcResult>
    requires Shaped(k) && Invokes(e)
  {
    if e.Call? then Told(k, e) else InvokeDirect(k, e.domain, e.cptr, e.op, e.env).result
  }

  ghost predicate Refused(k: Kernel, e: Event, status: nat)
    requires Shaped(k) && Enabled(k, e) && Invokes(e)
  {
    Next(k, e) == k && Reply(k, e) == Some(IpcResult(status, 0, 0xffff))
  }

  lemma LiveExactly(objs: Objects, x: CapEntry)
    ensures Liveness(objs, x) == Ok <==> Live(objs, x)
    ensures Live(objs, x) <==> Stale(objs, x) == 0
    ensures Code(Liveness(objs, x)) == Stale(objs, x)
  {
  }

  /** The check in front of every invocation, by the slot it looks at. */
  lemma GateOpens(k: Kernel, d: nat, c: nat)
    requires d < 6
    ensures Open(k, d, c) <==> GateStatus(k, d, c) == 0
    ensures Code(InvokeCap(k.caps[d], k.objs, c, {Invoke})) == GateStatus(k, d, c)
    ensures InvokeCap(k.caps[d], k.objs, c, {Invoke}) == Ok <==> Open(k, d, c)
    ensures Open(k, d, c) ==> Lookup(k.caps[d], k.objs, c) == Success(k.caps[d][c].value)
  {
    hide Liveness, Live, Stale;
    if c < 256 && k.caps[d][c].Some? { LiveExactly(k.objs, k.caps[d][c].value); }
  }

  /**
   No invocation does anything without a live entry with INVOKE in the slot it names. One that is out
   of range, empty, stale or without INVOKE leaves the kernel as it was and says which.
   */
  lemma NothingWithoutInvoke(k: Kernel, e: Event)
    requires Inv(k) && Enabled(k, e) && Invokes(e) && !Open(k, Caller(k, e), e.cptr)
    ensures var t, c := k.caps[Caller(k, e)], e.cptr;
            && (c >= 256 || t[c].None? ==> Refused(k, e, 1))
            && (c < 256 && t[c].Some? && !Live(k.objs, t[c].value) ==>
                  1 <= Stale(k.objs, t[c].value) <= 3 && Refused(k, e, Stale(k.objs, t[c].value)))
            && (c < 256 && t[c].Some? && Live(k.objs, t[c].value) ==> Invoke !in t[c].value.rights && Refused(k, e, 4))
            && Next(k, e) == k && Reply(k, e).Some? && Reply(k, e).value.status != 0
  {
    hide InvokeCap, Lookup, EpSend, EpRecv, DispatchMethod, SchedOk, Paired, Live, Stale;
    var t, c := k.caps[Caller(k, e)], e.cptr;
    GateOpens(k, Caller(k, e), c);
    if c < 256 && t[c].Some? { LiveExactly(k.objs, t[c].value); }
  }

  // ---- methods that need no endpoint ----

  /** The right each method needs beside INVOKE. */
  const METHOD_RIGHT: map<(Kind, nat), Right> :=
    map[(Notification, 1) := Write, (Notification, 2) := Read,
        (Extent, 1) := Read, (Extent, 2) := Write, (Extent, 3) := Write, (Extent, 4) := Map,
        (DeviceQueue, 1) := Read, (DeviceQueue, 2) := Map, (DeviceQueue, 3) := Write, (DeviceQueue, 4) := Write]

  ghost predicate MayUse(x: CapEntry, op: nat) {
    (x.kind, op) in METHOD_RIGHT ==> METHOD_RIGHT[(x.kind, op)] in x.rights
  }

  lemma MayUseExactly(x: CapEntry, op: nat)
    ensures MayUse(x, op) <==> ExtraRight(x.kind, op) <= x.rights
  {
  }

  /** An invocation that gets through the gate and is not a send or a receive. */
  ghost predicate PlainMethod(k: Kernel, e: Event)
    requires e.Direct? || (e.Call? && k.curDomain < 6)
  {
    && Open(k, Caller(k, e), e.cptr)
    && (e.Call? ==> e.xfer == 0xffff && !(k.caps[k.curDomain][e.cptr].value.kind.Endpoint? && e.op in {1, 2}))
  }

  /** The page is not mapped yet and its table can be had. */
  ghost predicate Mappable(m: Maps, env: Environment, va: nat) {
    va !in m.mapped && va !in env.noTable
  }

  const EXTENT_PAGE: nat := 0x110_0000

  /** The pages of the queue window, in the order they are mapped. */
  const QUEUE_PAGES: seq<nat> := [0x100_0000, 0x100_1000, 0x100_2000, 0x100_3000, 0x100_4000]

  /** What the object has to have for the method to succeed. */
  ghost predicate Serves(m: Maps, x: CapEntry, op: nat, env: Environment) {
    match x.kind
    case Memory => op == 1 && env.memory.Some?
    case Notification => op == 1 || op == 2
    case Extent => op == 1 || (op == 4 && x.objectId in m.loaded && Mappable(m, env, EXTENT_PAGE))
    case DeviceQueue =>
      || op == 1 || op == 3
      || (op == 4 && x.objectId in m.seeded && env.io.Some?)
      || (op == 2 && x.objectId in m.seeded && forall i :: 0 <= i < 5 ==> Mappable(m, env, QUEUE_PAGES[i]))
    case _ => false
  }

  /** The word a method that succeeds replies with. */
  ghost function Word(x: CapEntry, op: nat, env: Environment): nat {
    if x.kind.Memory? && env.memory.Some? then env.memory.value
    else if x.kind.Notification? && op == 1 then 0
    else if x.kind.Extent? && op == 4 then 0x110_0000
    else if x.kind.DeviceQueue? && op == 2 then 0x100_0000
    else if x.kind.DeviceQueue? && op == 4 && env.io.Some? then env.io.value
    else env.word
  }

  lemma QueuePages(m: Maps, d: nat, noTable: set<nat>) returns (n: nat)
    requires d < 6 && Complete(m)
    ensures var r := MapPages(m, d, DQ_PAGES, noTable);
            MappedUpTo(m, d, QUEUE_PAGES, noTable, n, r.0) && (r.1 <==> n == 5)
  {
    assert Elements(DQ_PAGES) <= WINDOW && NoRepeats(DQ_PAGES) && DQ_PAGES == QUEUE_PAGES;
    n := MapsUpToFirstFailure(m, d, DQ_PAGES, noTable);
  }

  /** What a method with the right it needs leaves in the window and its ledger. */
  ghost predicate WindowAfter(m: Maps, d: nat, x: CapEntry, op: nat, env: Environment, m': Maps)
    requires d < 6
  {
    if x.kind.Extent? && op == 4 && x.objectId in m.loaded then
      exists n :: MappedUpTo(m, d, [EXTENT_PAGE], env.noTable, n, m')
    else if x.kind.DeviceQueue? && op == 2 && x.objectId in m.seeded then
      exists n :: MappedUpTo(m, d, QUEUE_PAGES, env.noTable, n, m')
    else m' == m
  }

  lemma MethodBySlot(m: Maps, d: nat, x: CapEntry, op: nat, env: Environment)
    requires d < 6 && Complete(m) && x.objectId < 1024
    ensures var r := MapsAfter(m, d, x.kind, x.objectId, op, env);
            && (Serves(m, x, op, env) ==> r.1 == IpcResult(0, Word(x, op, env), 0xffff))
            && (!Serves(m, x, op, env) ==> r.1 == IpcResult(if x.kind.Memory? && op == 1 then 4 else 5, 0, 0xffff))
            && WindowAfter(m, d, x, op, env, r.0)
  {
    hide Complete, MapPages, MappedUpTo;
    if x.kind.DeviceQueue? && op == 2 {
      var n := QueuePages(m, d, env.noTable);
      QueueServed(m, d, env, n, MapPages(m, d, DQ_PAGES, env.noTable).0);
    } else if x.kind.Extent? && op == 4 {
      ExtentServed(m, d, env);
    }
  }

  lemma QueueServed(m: Maps, d: nat, env: Environment, n: nat, m': Maps)
    requires d < 6 && MappedUpTo(m, d, QUEUE_PAGES, env.noTable, n, m')
    ensures n == 5 <==> forall i :: 0 <= i < 5 ==> Mappable(m, env, QUEUE_PAGES[i])
  {
    if n < 5 { assert !Mappable(m, env, QUEUE_PAGES[n]); }
  }

  lemma ExtentServed(m: Maps, d: nat, env: Environment)
    requires d < 6 && Complete(m)
    ensures var r := MapPage(m, d, EXTENT_MAP_BASE, env.noTable);
            && (r.Some? <==> Mappable(m, env, EXTENT_PAGE))
            && MappedUpTo(m, d, [EXTENT_PAGE], env.noTable, if r.Some? then 1 else 0, if r.Some? then r.value else m)
  {
    hide Complete;
    LedgerNeverFull(m, d);
    assert [EXTENT_PAGE][..0] == [] && [EXTENT_PAGE][..1] == [EXTENT_PAGE];
    assert Elements([EXTENT_PAGE]) == {EXTENT_PAGE} && Elements([]) == {};
    assert m.ledgers[d] + [] == m.ledgers[d];
  }

  /**
   What a method answers and does. Without the right it needs it is refused with ErrRights and changes
   nothing; with it, it succeeds exactly if the object serves it, and nothing but the window changes.
   */
  ghost predicate Performs(k: Kernel, d: nat, x: CapEntry, op: nat, env: Environment, k': Kernel, r: IpcResult)
    requires d < 6
  {
    if !MayUse(x, op) then k' == k && r == IpcResult(4, 0, 0xffff)
    else
      && r == (if Serves(k.maps, x, op, env) then IpcResult(0, Word(x, op, env), 0xffff)
               else IpcResult(if x.kind.Memory? && op == 1 then 4 else 5, 0, 0xffff))
      && k' == k.(maps := k'.maps)
      && WindowAfter(k.maps, d, x, op, env, k'.maps)
  }

  lemma MethodPerforms(k: Kernel, d: nat, x: CapEntry, op: nat, env: Environment)
    requires d < 6 && Complete(k.maps) && Live(k.objs, x)
    ensures var o := DispatchMethod(k, d, x.kind, x.objectId, x.rights, op, env);
            o.result.Some? && Performs(k, d, x, op, env, o.k, o.result.value)
  {
    hide MapsAfter, ExtraRight, MayUse, Serves, Word, WindowAfter, Complete;
    MayUseExactly(x, op);
    MethodBySlot(k.maps, d, x, op, env);
  }

  lemma MethodsAreExact(k: Kernel, e: Event)
    requires Inv(k) && Complete(k.maps) && Enabled(k, e) && Invokes(e) && PlainMethod(k, e)
    ensures Reply(k, e).Some?
    ensures Performs(k, Caller(k, e), k.caps[Caller(k, e)][e.cptr].value, e.op, e.env, Next(k, e), Reply(k, e).value)
  {
    hide InvokeCap, Lookup, EpSend, EpRecv, SchedOk, Paired, Live, DispatchMethod, Performs, Complete;
    var d := Caller(k, e);
    GateOpens(k, d, e.cptr);
    MethodPerforms(k, d, k.caps[d][e.cptr].value, e.op, e.env);
  }

  lemma LiveInRange(objs: Objects, x: CapEntry)
    ensures Live(objs, x) ==> x.objectId < 1024
  {
  }

  /** A capability offered with anything but a send or a receive is refused. */
  lemma StrayTransferRefused(k: Kernel, e: Event)
    requires Inv(k) && Enabled(k, e) && e.Call? && Open(k, k.curDomain, e.cptr) && e.xfer != 0xffff
    requires !(k.caps[k.curDomain][e.cptr].value.kind.Endpoint? && e.op in {1, 2})
    ensures Refused(k, e, 5)
  {
    hide InvokeCap, Lookup, EpSend, EpRecv, DispatchMethod, SchedOk, Paired, Live;
    GateOpens(k, k.curDomain, e.cptr);
  }

  /**
   In every run, mappings change in an invocation only through a live entry with INVOKE and MAP for an
   extent or a queue with its payload, invoked with the mapping method.
   */
  lemma MappingNeedsMap(ks: seq<Kernel>, es: seq<Event>, i: nat)
    requires IsRun(ks, es) && i < |es| && Invokes(es[i]) && ks[i + 1].maps != ks[i].maps
    ensures var k, e := ks[i], es[i];
            && Open(k, Caller(k, e), e.cptr)
            && var x := k.caps[Caller(k, e)][e.cptr].value;
            && Map in x.rights
            && ((x.kind.Extent? && e.op == 4 && x.objectId in k.maps.loaded)
                || (x.kind.DeviceQueue? && e.op == 2 && x.objectId in k.maps.seeded))
  {
    var k, e := ks[i], es[i];
    InvAlongRun(ks, es, i);
    LedgersComplete(ks, es, i);
    InvokedMapping(k, e);
  }

  lemma InvokedMapping(k: Kernel, e: Event)
    requires Inv(k) && Complete(k.maps) && Enabled(k, e) && Invokes(e) && Next(k, e).maps != k.maps
    ensures Open(k, Caller(k, e), e.cptr)
    ensures var x := k.caps[Caller(k, e)][e.cptr].value;
            && Map in x.rights
            && ((x.kind.Extent? && e.op == 4 && x.objectId in k.maps.loaded)
                || (x.kind.DeviceQueue? && e.op == 2 && x.objectId in k.maps.seeded))
  {
    assert Shaped(k);
    hide Inv, Complete, Next, Reply, Serves, Word;
    if !Open(k, Caller(k, e), e.cptr) {
      NothingWithoutInvoke(k, e);
    } else if PlainMethod(k, e) {
      MethodsAreExact(k, e);
    } else if e.xfer != 0xffff && !(k.caps[k.curDomain][e.cptr].value.kind.Endpoint? && e.op in {1, 2}) {
      StrayTransferRefused(k, e);
    } else {
      EndpointsKeepMaps(k, e);
    }
  }

  lemma EndpointsKeepMaps(k: Kernel, e: Event)
    requires Inv(k) && Enabled(k, e) && e.Call? && Open(k, k.curDomain, e.cptr)
    requires k.caps[k.curDomain][e.cptr].value.kind.Endpoint? && e.op in {1, 2}
    ensures Next(k, e).maps == k.maps
  {
    hide Rendezvous, Rolled, PickNext, SchedOk, Paired, Liveness, InvokeCap, Live, DispatchMethod;
    GateOpens(k, k.curDomain, e.cptr);
  }

  // ---- sends and receives ----

  ghost predicate Full(t: Table) {
    forall c :: 0 <= c < 256 ==> t[c].Some?
  }

  /** `c` is the first empty slot. */
  ghost predicate FirstEmpty(t: Table, c: nat) {
    c < 256 && t[c].None? && forall j :: 0 <= j < c ==> t[j].Some?
  }

  lemma FirstEmptyFound(t: Table)
    ensures FreeSlot(t, 0).None? <==> Full(t)
    ensures FreeSlot(t, 0).Some? ==> FirstEmpty(t, FreeSlot(t, 0).value)
  {
  }

  /** The status of moving slot `c` of domain `src` to domain `dst`; 0 if it can be moved. */
  ghost function MoveStatus(k: Kernel, src: nat, c: nat, dst: nat): nat
    requires src < 6 && dst < 6
  {
    if src == dst || c >= 256 || k.caps[src][c].None? then 1
    else if Delegate !in k.caps[src][c].value.rights then 4
    else if Stale(k.objs, k.caps[src][c].value) != 0 then Stale(k.objs, k.caps[src][c].value)
    else if Full(k.caps[dst]) then 1
    else 0
  }

  /** The tables after the move into slot `n`: the badge is cleared and the source slot emptied. */
  function MovedTo(caps: Tables, src: nat, c: nat, dst: nat, n: nat): Tables
    requires src < 6 && dst < 6 && c < 256 && n < 256 && caps[src][c].Some?
  {
    caps[dst := caps[dst][n := Some(caps[src][c].value.(badge := 0))]][src := caps[src][c := None]]
  }

  /** A word and perhaps a capability go from `src` to `dst`: all of it, or nothing and one status for both. */
  ghost predicate HandsOver(k: Kernel, src: nat, xfer: nat, dst: nat, word: nat, x: Handoff)
    requires src < 6 && dst < 6
  {
    if xfer == 0xffff then x == Handoff(k.caps, IpcResult(0, 0, 0xffff), IpcResult(0, word, 0xffff))
    else if MoveStatus(k, src, xfer, dst) != 0 then
      var err := IpcResult(MoveStatus(k, src, xfer, dst), 0, 0xffff);
      x == Handoff(k.caps, err, err)
    else
      exists n :: FirstEmpty(k.caps[dst], n)
                  && x == Handoff(MovedTo(k.caps, src, xfer, dst, n), IpcResult(0, 0, 0xffff), IpcResult(0, word, n))
  }

  lemma RendezvousHandsOver(k: Kernel, src: nat, xfer: nat, dst: nat, word: nat)
    requires src < 6 && dst < 6
    ensures HandsOver(k, src, xfer, dst, word, Rendezvous(k, src, xfer, dst, word))
  {
    hide Liveness, Stale, Live, FirstEmpty, Full;
    FirstEmptyFound(k.caps[dst]);
    if xfer < 256 && k.caps[src][xfer].Some? {
      var x := k.caps[src][xfer].value;
      LiveExactly(k.objs, x);
      AllRightsIsAll(x.rights);
      assert Child(x, ALL_RIGHTS, 0) == x.(badge := 0);
    }
  }

  /** The entry for an endpoint in the slot a send or a receive names. */
  ghost predicate OnEndpoint(k: Kernel, e: Event)
    requires e.Direct? || (e.Call? && k.curDomain < 6)
  {
    && e.Call? && e.op in {1, 2} && Open(k, k.curDomain, e.cptr)
    && k.caps[k.curDomain][e.cptr].value.kind.Endpoint?
  }

  /** The running task before it is switched away from, inside its call. */
  function AsleepOn(t: Task, oid: nat, why: Direction): Task {
    t.(blocked := true, reason := why, waitEp := oid, context := InsideCall)
  }

  /** The caller is parked with its word and slot in the endpoint, and the processor goes to another task. */
  ghost predicate ParkedOn(k: Kernel, e: Event, oid: nat, k': Kernel)
    requires Shaped(k) && e.Call? && oid < 1024
  {
    var ep, why := k.eps[oid], if e.op == 1 then Sending else Receiving;
    && k'.eps == k.eps[oid := if e.op == 1 then EpSlot(SendWait, k.current, k.curDomain, e.arg, e.xfer)
                              else EpSlot(RecvWait, k.current, k.curDomain, ep.msg, ep.xfer)]
    && WentToSleep(k.(eps := k'.eps), why, oid, e.now, k')
  }

  /** A switch away from the running task, asleep on endpoint `oid`. */
  ghost predicate WentToSleep(k: Kernel, why: Direction, oid: nat, now: nat, k': Kernel)
    requires k.current < 5
  {
    Switched(k, k.tasks[k.current := AsleepOn(k.tasks[k.current], oid, why)], now, k')
  }

  /** Nothing but a switch at `now` from the task table `ts`: earliest deadline first, its domain published. */
  ghost predicate Switched(k: Kernel, ts: Tasks, now: nat, k': Kernel) {
    && k'.current < 5
    && k' == k.(tasks := k'.tasks, current := k'.current, curDomain := k'.tasks[k'.current].domain,
                mode := if k'.tasks[k'.current].context.InsideCall? then Resuming else Running)
    && k'.tasks[0] == ts[0]
    && forall i :: 1 <= i < 5 ==> EdfFor(ts, now, k'.tasks, k'.current, i)
  }

  lemma DispatchSwitches(k: Kernel, now: nat)
    requires now < U64_MAX
    ensures Switched(k, k.tasks, now, Dispatch(k, now))
  {
    hide EdfFor, PickNext;
    forall i | 1 <= i < 5 ensures EdfFor(k.tasks, now, Rolled(k.tasks, now), PickNext(Rolled(k.tasks, now)), i) {
      EarliestDeadlineFirst(k.tasks, now, i);
    }
  }

  /** The partner waiting at the endpoint is told its part and can run again; the endpoint is idle. */
  ghost predicate Met(k: Kernel, e: Event, oid: nat, k': Kernel, reply: Option<IpcResult>)
    requires Inv(k) && e.Call? && oid < 1024 && !k.eps[oid].state.EpIdle?
  {
    var ep, p := k.eps[oid], k.eps[oid].peerTask;
    exists x ::
      && (if e.op == 1 then HandsOver(k, k.curDomain, e.xfer, k.tasks[p].domain, e.arg, x)
          else HandsOver(k, k.tasks[p].domain, ep.xfer, k.curDomain, ep.msg, x))
      && reply == Some(if e.op == 1 then x.sender else x.receiver)
      && k' == k.(eps := k.eps[oid := ep.(state := EpIdle)], caps := x.caps,
                  tasks := k.tasks[p := k.tasks[p].(ipc := if e.op == 1 then x.receiver else x.sender, blocked := false)])
  }

  /**
   Every send and every receive, by what the slot and the endpoint hold: refused with GRANT_CAP missing,
   a slot out of range or somebody already waiting in the same direction; parked if nobody waits; and
   else met with the partner that waits.
   */
  ghost predicate MeetsOrWaits(k: Kernel, e: Event, k': Kernel, r: Option<IpcResult>)
    requires Inv(k) && (e.Direct? || e.Call?) && OnEndpoint(k, e)
  {
    var x := k.caps[k.curDomain][e.cptr].value;
    && x.objectId < 1024
    && var ep := k.eps[x.objectId];
    if e.op == 1 && e.xfer != 0xffff && GrantCap !in x.rights then k' == k && r == Some(IpcResult(4, 0, 0xffff))
    else if e.op == 1 && e.xfer != 0xffff && e.xfer >= 256 then k' == k && r == Some(IpcResult(1, 0, 0xffff))
    else if ep.state == (if e.op == 1 then SendWait else RecvWait) then k' == k && r == Some(IpcResult(4, 0, 0xffff))
    else if ep.state.EpIdle? then r.None? && ParkedOn(k, e, x.objectId, k')
    else Met(k, e, x.objectId, k', r)
  }

  lemma EndpointCallsAreExact(k: Kernel, e: Event)
    requires Inv(k) && Enabled(k, e) && e.Call? && OnEndpoint(k, e)
    ensures MeetsOrWaits(k, e, Next(k, e), Reply(k, e))
  {
    hide Rendezvous, Dispatch, CountPresent, InvokeCap, Lookup, Live, Switched, HandsOver, DispatchMethod;
    GateOpens(k, k.curDomain, e.cptr);
    var x := k.caps[k.curDomain][e.cptr].value;
    LiveInRange(k.objs, x);
    var ep := k.eps[x.objectId];
    if ep.state.EpIdle? {
      ParkSwitches(k, e, x.objectId);
    } else {
      assert WaitsOn(k.tasks[ep.peerTask], x.objectId, ep);
      RendezvousHandsOver(k, k.curDomain, e.xfer, ep.peerDomain, e.arg);
      RendezvousHandsOver(k, ep.peerDomain, ep.xfer, k.curDomain, ep.msg);
    }
  }

  lemma ParkingSwitches(k: Kernel, why: Direction, oid: nat, now: nat)
    requires k.current < 5 && now < U64_MAX
    ensures WentToSleep(k, why, oid, now, BlockCurrent(k, why, oid, now))
  {
    hide Dispatch, EdfFor;
    DispatchSwitches(k.(tasks := k.tasks[k.current := AsleepOn(k.tasks[k.current], oid, why)]), now);
  }

  lemma ParkSwitches(k: Kernel, e: Event, oid: nat)
    requires Inv(k) && Enabled(k, e) && e.Call? && oid < 1024
    ensures e.op == 1 ==>
              ParkedOn(k, e, oid, Park(k, oid, EpSlot(SendWait, k.current, k.curDomain, e.arg, e.xfer), Sending, e.now).k)
    ensures e.op == 2 ==>
              ParkedOn(k, e, oid, Park(k, oid, k.eps[oid].(state := RecvWait, peerTask := k.current, peerDomain := k.curDomain), Receiving, e.now).k)
  {
    hide BlockCurrent, EdfFor, SchedOk, Paired;
    var slot := if e.op == 1 then EpSlot(SendWait, k.current, k.curDomain, e.arg, e.xfer)
                else k.eps[oid].(state := RecvWait, peerTask := k.current, peerDomain := k.curDomain);
    var why := if e.op == 1 then Sending else Receiving;
    ParkingSwitches(k.(eps := k.eps[oid := slot]), why, oid, e.now);
  }

  /**
   What every invocation answers and does, by the slot it names: refused at the gate; a method performed
   or refused; a stray capability refused; or a send or receive that meets its partner or waits.
   */
  ghost predicate Answered(k: Kernel, e: Event, k': Kernel, r: Option<IpcResult>)
    requires e.Direct? || (e.Call? && k.curDomain < 6)
  {
    var d := Caller(k, e);
    if GateStatus(k, d, e.cptr) != 0 then k' == k && r == Some(IpcResult(GateStatus(k, d, e.cptr), 0, 0xffff))
    else if !Open(k, d, e.cptr) then false
    else if PlainMethod(k, e) then
      Complete(k.maps) ==> r.Some? && Performs(k, d, k.caps[d][e.cptr].value, e.op, e.env, k', r.value)
    else if !OnEndpoint(k, e) then k' == k && r == Some(IpcResult(5, 0, 0xffff))
    else Inv(k) && Enabled(k, e) ==> MeetsOrWaits(k, e, k', r)
  }

  lemma SyscallAnswers(k: Kernel, cptr: nat, op: nat, arg: nat, xfer: nat, env: Environment, now: nat)
    requires k.current < 5 && k.curDomain < 6
    ensures var o := Syscall(k, cptr, op, arg, xfer, env, now);
            Answered(k, Call(cptr, op, arg, xfer, env, now), o.k, o.result)
  {
    hide InvokeCap, Lookup, EpSend, EpRecv, DispatchMethod, Live, Stale, Complete, Performs, MeetsOrWaits, Inv;
    var e := Call(cptr, op, arg, xfer, env, now);
    GateOpens(k, k.curDomain, cptr);
    if Open(k, k.curDomain, cptr) && PlainMethod(k, e) && Complete(k.maps) {
      MethodPerforms(k, k.curDomain, k.caps[k.curDomain][cptr].value, op, env);
    }
    if OnEndpoint(k, e) && Inv(k) && Enabled(k, e) {
      ShapedByInv(k);
      EndpointCallsAreExact(k, e);
    }
  }

  lemma ShapedByInv(k: Kernel)
    requires Inv(k)
    ensures Shaped(k)
  {
  }

  lemma DirectAnswers(k: Kernel, domain: nat, cptr: nat, op: nat, env: Environment)
    ensures var o := InvokeDirect(k, domain, cptr, op, env);
            Answered(k, Direct(domain, cptr, op, env), o.k, o.result)
  {
    hide InvokeCap, Lookup, DispatchMethod, Live, Stale, Complete, Performs, MeetsOrWaits, Inv;
    var d := Caller(k, Direct(domain, cptr, op, env));
    GateOpens(k, d, cptr);
    if Open(k, d, cptr) && Complete(k.maps) {
      MethodPerforms(k, d, k.caps[d][cptr].value, op, env);
    }
  }

  /** In every run, every invocation is answered so. */
  lemma InvocationsAreExact(ks: seq<Kernel>, es: seq<Event>, i: nat)
    requires IsRun(ks, es) && i < |es| && Invokes(es[i])
    ensures Complete(ks[i].maps) && Inv(ks[i])
    ensures Answered(ks[i], es[i], ks[i + 1], Reply(ks[i], es[i]))
  {
    hide Initial, Inv, Complete, Answered, Syscall, InvokeDirect;
    InvAlongRun(ks, es, i);
    LedgersComplete(ks, es, i);
    match es[i]
    case Call(cptr, op, arg, xfer, env, now) => SyscallAnswers(ks[i], cptr, op, arg, xfer, env, now);
    case Direct(domain, cptr, op, env) => DirectAnswers(ks[i], domain, cptr, op, env);
    case _ => assert false;
  }

  // ---- the processor ----

  /** A timer interrupt with more than one task is such a switch; with one it only publishes the domain. */
  ghost predicate Ticked(k: Kernel, now: nat, k': Kernel)
    requires k.current < 5
  {
    if k.num > 1 then Switched(k, k.tasks[k.current := k.tasks[k.current].(context := OwnCode)], now, k')
    else k' == k.(curDomain := k.tasks[k.current].domain)
  }

  lemma TicksAreExact(k: Kernel, now: nat)
    requires k.current < 5 && now < U64_MAX
    ensures Ticked(k, now, Tick(k, now))
  {
    hide Dispatch, EdfFor;
    DispatchSwitches(k.(tasks := k.tasks[k.current := k.tasks[k.current].(context := OwnCode)]), now);
  }

  /** `i` is the first slot from 1 on with no task. */
  ghost predicate FirstAbsent(ts: Tasks, i: nat) {
    1 <= i < 5 && !ts[i].present && forall j :: 1 <= j < i ==> ts[j].present
  }

  /** A task as it is admitted. */
  function NewTask(user: bool, domain: nat, period: nat, deadline: nat): Task {
    Task(OwnCode, true, true, user, period, if deadline <= U64_MAX then deadline else U64_MAX, 0, domain,
         false, Sending, 0, IpcResult(0, 0, 0))
  }

  /**
   A task is admitted exactly if it has a period, the root slot holds a live entry with INVOKE and some
   slot has no task; it takes the first of them, and a refused admission changes nothing.
   */
  ghost predicate Admitted(k: Kernel, cptr: nat, t: Task, r: Made) {
    if t.period > 0 && Open(k, 0, cptr) && (exists i :: 1 <= i < 5 && !k.tasks[i].present) then
      && r.index.Some? && FirstAbsent(k.tasks, r.index.value)
      && r.k == k.(tasks := k.tasks[r.index.value := t], num := k.num + 1)
    else r == Made(k, None)
  }

  lemma AdmissionIsExact(k: Kernel, cptr: nat, user: bool, domain: nat, period: nat, relative: nat, now: nat)
    ensures Admitted(k, cptr, NewTask(user, domain, period, now + relative),
                     Admit(k, cptr, user, domain, period, relative, now))
  {
    hide InvokeCap, Open;
    GateOpens(k, 0, cptr);
  }

  // ---- objects and grants ----

  /** The rights a new object's capability has: every kind INVOKE, and the others by kind. */
  ghost predicate Minted(kind: Kind, rights: Rights) {
    && Invoke in rights
    && (Read in rights <==> kind != TimeSlice)
    && (Write in rights <==> kind != TimeSlice)
    && (Delegate in rights <==> kind != TimeSlice)
    && (Map in rights <==> kind in {Memory, Extent, DeviceQueue})
    && (GrantCap in rights <==> kind == Endpoint)
    && Revoke !in rights && Seal !in rights
  }

  ghost predicate FirstAbsentObject(objs: Objects, oid: nat) {
    oid < 1024 && !objs[oid].present && forall j :: 0 <= j < oid ==> objs[j].present
  }

  /** The object `oid` is new, with its payload if it is backed, and has its capability in the root table. */
  ghost predicate CreatedAs(k: Kernel, kind: Kind, backed: bool, oid: nat, rights: Rights, r: Made) {
    && FirstAbsentObject(k.objs, oid) && Minted(kind, rights)
    && r.k == k.(objs := k.objs[oid := Meta(kind, 0, true)], caps := r.k.caps,
                 maps := k.maps.(loaded := if backed && kind == Extent then k.maps.loaded + {oid} else k.maps.loaded,
                                 seeded := if backed && kind == DeviceQueue then k.maps.seeded + {oid} else k.maps.seeded))
    && (if Full(k.caps[0]) then r.index.None? && r.k.caps == k.caps
        else
          && r.index.Some? && FirstEmpty(k.caps[0], r.index.value)
          && r.k.caps == k.caps[0 := k.caps[0][r.index.value := Some(CapEntry(oid, rights, 0, kind, 0))]])
  }

  /**
   A new object takes the first free place at epoch 0 and its capability the first empty root slot; with
   the root table full the object is there without one, with no place free nothing happens.
   */
  lemma CreationIsExact(k: Kernel, kind: Kind, backed: bool)
    requires Creatable(kind)
    ensures var r := CreateBacked(k, kind, backed);
            if forall i :: 0 <= i < 1024 ==> k.objs[i].present then r == Made(k, None)
            else exists oid: nat, rights :: CreatedAs(k, kind, backed, oid, rights, r)
  {
    hide CreatedAs, Create;
    var oid := FreeObject(k.objs, 0);
    if oid.Some? {
      assert !k.objs[oid.value].present;
      CreatedAtFirst(k, kind, backed, oid.value);
    } else {
      NothingCreated(k, kind);
    }
  }

  lemma NothingCreated(k: Kernel, kind: Kind)
    requires FreeObject(k.objs, 0).None?
    ensures Create(k, kind) == Made(k, None)
  {
  }

  lemma CreatedAtFirst(k: Kernel, kind: Kind, backed: bool, oid: nat)
    requires Creatable(kind) && FreeObject(k.objs, 0) == Some(oid)
    ensures CreatedAs(k, kind, backed, oid, Ceiling(kind), CreateBacked(k, kind, backed))
  {
    hide Full, FirstEmpty, Minted, Ceiling;
    FirstEmptyFound(k.caps[0]);
    MintedAtCeiling(kind);
  }

  lemma MintedAtCeiling(kind: Kind)
    requires Creatable(kind)
    ensures Minted(kind, Ceiling(kind))
  {
  }

  /** In every run, what any capability anywhere can be good for is bounded by its kind. */
  lemma AuthorityByKind(ks: seq<Kernel>, es: seq<Event>, bs: seq<Ledgerbook>, i: nat, d: nat, c: nat)
    requires IsTracedRun(ks, es, bs) && i < |ks| && d < 6 && c < 256 && ks[i].caps[d][c].Some?
    ensures var x := ks[i].caps[d][c].value;
            && (Map in x.rights ==> x.kind in {Memory, Extent, DeviceQueue})
            && (GrantCap in x.rights ==> x.kind == Endpoint)
            && (x.kind == TimeSlice ==> d == 0 && x.rights <= {Invoke})
            && Revoke !in x.rights && Seal !in x.rights
  {
    hide Inv, Initial, NextBook, SlotOk;
    AuthorityIsBounded(ks, es, bs, i, d, c);
  }

  /**
   A grant from the root domain succeeds exactly if the slot holds a live entry with DELEGATE and the
   other domain has an empty slot: the first of them gets the same object at the same epoch, with the
   rights both entry and mask have. A refused grant changes nothing.
   */
  lemma GrantsAreExact(k: Kernel, dst: nat, c: nat, mask: Rights, badge: U16)
    ensures var r := DelegateFromRoot(k, dst, c, mask, badge);
            if 1 <= dst < 6 && c < 256 && k.caps[0][c].Some? && Live(k.objs, k.caps[0][c].value)
               && Delegate in k.caps[0][c].value.rights && !Full(k.caps[dst])
            then
              var x := k.caps[0][c].value;
              && r.index.Some? && FirstEmpty(k.caps[dst], r.index.value)
              && r.k == k.(caps := k.caps[dst := k.caps[dst][r.index.value :=
                             Some(CapEntry(x.objectId, x.rights * mask, x.epoch, x.kind, badge))]])
            else r == Made(k, None)
  {
    hide Live, Liveness, Full, FirstEmpty;
    if 1 <= dst < 6 && c < 256 && k.caps[0][c].Some? {
      var x := k.caps[0][c].value;
      LiveExactly(k.objs, x);
      FirstEmptyFound(k.caps[dst]);
    }
  }

  /** Revocation makes every entry for the object stale and no other, and touches nothing else. */
  lemma RevocationIsSelective(k: Kernel, oid: nat, x: CapEntry)
    requires Inv(k) && Enabled(k, RevokeAll(oid)) && Live(k.objs, x)
    ensures var k' := Next(k, RevokeAll(oid));
            && (Live(k'.objs, x) <==> x.objectId != oid)
            && (x.objectId == oid ==> Stale(k'.objs, x) == 2)
            && k' == k.(objs := k'.objs)
            && (forall i :: 0 <= i < 1024 ==> k'.objs[i] == k.objs[i].(epoch := k'.objs[i].epoch))
  {
    assert (x.epoch + 1) % TWO_32 != x.epoch;
  }

  // ---- death ----

  /**
   What taking domain `d` and task `t` down does: every slot of `d` is empty and nobody else's changed,
   the pages of its ledger are unmapped, and exactly the endpoints that wait with `t` are reset.
   */
  ghost predicate Reaped(k: Kernel, d: nat, t: nat, k': Kernel) {
    && (d < 6 ==> Emptied(k'.caps[d]))
    && (forall e :: 0 <= e < 6 && e != d ==> k'.caps[e] == k.caps[e])
    && (forall i :: 0 <= i < 1024 ==>
          if (k.eps[i].state.SendWait? || k.eps[i].state.RecvWait?) && k.eps[i].peerTask == t then
            k'.eps[i] == EpSlot(EpIdle, 0, 0, 0, 0)
          else k'.eps[i] == k.eps[i])
    && k' == k.(caps := k'.caps, eps := k'.eps, maps := k'.maps)
    && (if d < 6 then
          k'.maps == k.maps.(mapped := k.maps.mapped - Elements(k.maps.ledgers[d]), ledgers := k.maps.ledgers[d := []])
        else k'.maps == k.maps)
  }

  lemma ReapingIsExact(k: Kernel, d: nat, t: nat)
    ensures Reaped(k, d, t, Reap(k, d, t))
  {
  }

  ghost predicate Emptied(t: Table) {
    forall c :: 0 <= c < 256 ==> t[c].None?
  }

  /** Entries that were there still are. */
  ghost predicate KeepsEntries(t: Table, t': Table) {
    forall c :: 0 <= c < 256 && t[c].Some? ==> t'[c] == t[c]
  }

  lemma CreateKeepsEntries(k: Kernel, kind: Kind)
    ensures var k' := Create(k, kind).k;
            && KeepsEntries(k.caps[0], k'.caps[0])
            && (forall d :: 1 <= d < 6 ==> k'.caps[d] == k.caps[d])
  {
    hide Ceiling;
  }

  /** The supervisor's grants reach only the root table and the supervised domain's. */
  lemma RegrantTables(k: Kernel)
    requires k.caps[4] == EmptyTable()
    ensures var g := Regrant(k).k;
            && KeepsEntries(k.caps[0], g.caps[0])
            && (forall d :: 1 <= d < 6 && d != 4 ==> g.caps[d] == k.caps[d])
            && (if OneFreeObject(k.objs) && OneFreeSlot(k.caps[0]) then FreshInstance(g, 4)
                else g.caps[4] == EmptyTable())
  {
    hide Create, DelegateFromRoot, OneFreeObject, OneFreeSlot, TwoFreeObjects, TwoFreeSlots, FreshInstance;
    CreationNeeds(k, Memory);
    CreateKeepsEntries(k, Memory);
    var root := Create(k, Memory);
    if root.index.Some? {
      MemoryDelegated(root.k, root.index.value);
      GrantReaches(root.k, 4, root.index.value, {Invoke}, 0);
      var mem := DelegateFromRoot(root.k, 4, root.index.value, {Invoke}, 0).k;
      CreateKeepsEntries(mem, TimeSlice);
      InstanceSurvivesCreation(mem, TimeSlice);
    } else {
      CreateKeepsEntries(root.k, TimeSlice);
    }
  }

  lemma GrantReaches(k: Kernel, dst: nat, c: nat, mask: Rights, badge: U16)
    ensures var k' := DelegateFromRoot(k, dst, c, mask, badge).k;
            forall d :: 0 <= d < 6 && d != dst ==> k'.caps[d] == k.caps[d]
  {
    hide DelegateCap;
  }

  /** The task table without the running task. */
  function Bereft(k: Kernel): Tasks
    requires k.current < 5
  {
    k.tasks[k.current := k.tasks[k.current].(present := false, runnable := false, blocked := false)]
  }

  /** When the death of a task of domain `d` is followed by a fresh instance. */
  ghost predicate Restartable(k: Kernel, d: nat) {
    d == 4 && k.restarts > 0 && TwoFreeObjects(k.objs) && TwoFreeSlots(k.caps[0])
  }

  /** The kernel without the running task and its domain's mappings; tables and objects are those of `k'`. */
  function Buried(k: Kernel, k': Kernel, num: nat): Kernel
    requires Shaped(k)
  {
    var d := k.tasks[k.current].domain;
    k.(objs := k'.objs, caps := k'.caps, num := num,
       restarts := if d == 4 && k.restarts > 0 then k.restarts - 1 else k.restarts,
       maps := k.maps.(mapped := k.maps.mapped - Elements(k.maps.ledgers[d]), ledgers := k.maps.ledgers[d := []]))
  }

  lemma RemovedIsBuried(k: Kernel)
    requires Inv(k) && k.current != 0
    ensures var k1, d := Removed(k), k.tasks[k.current].domain;
            && k1 == k.(tasks := Bereft(k), num := k.num - 1, caps := k.caps[d := EmptyTable()], maps := k1.maps)
            && k1.maps == k.maps.(mapped := k.maps.mapped - Elements(k.maps.ledgers[d]), ledgers := k.maps.ledgers[d := []])
            && (forall c :: 0 <= c < 256 ==> k1.caps[d][c].None?)
  {
    hide Scrubbed, Paired;
    ScrubFindsNothing(k);
  }

  /** The fresh instance's task, in the first free slot. */
  ghost predicate Reborn(ts: Tasks, now: nat, i: nat, ts': Tasks) {
    FirstAbsent(ts, i) && ts' == ts[i := NewTask(true, 4, 5_000_000, now + 5_000_000)]
  }

  /** Where the processor is switched from after a death, whoever died. */
  lemma DeathBySlot(k: Kernel, now: nat)
    requires Inv(k) && k.current != 0 && k.tasks[k.current].user
    ensures var d := k.tasks[k.current].domain;
            var r := OnDomainDeath(Removed(k), d, now);
            && (r.index.Some? <==> Restartable(k, d))
            && (!Restartable(k, d) ==> r.k == Buried(k, r.k, k.num - 1).(tasks := Bereft(k)))
            && (Restartable(k, d) ==>
                  && r.k == Buried(k, r.k, k.num).(tasks := r.k.tasks)
                  && Reborn(Bereft(k), now, r.index.value, r.k.tasks))
  {
    hide Removed, Regrant, SchedOk, Paired, TwoFreeObjects, TwoFreeSlots, Admit, Elements, FirstAbsent, NewTask;
    RemovedIsBuried(k);
    if k.tasks[k.current].domain == 4 {
      RestartSucceedsExactly(k, now);
      if k.restarts > 0 {
        var k2 := Removed(k).(restarts := k.restarts - 1);
        RegrantKeepsTasks(k2);
        RegrantKeepsMaps(k2);
        var g := Regrant(k2);
        if g.memory.Some? && g.time.Some? {
          AdmissionIsExact(g.k, g.time.value, true, 4, 5_000_000, 5_000_000, now);
        }
      }
    }
  }

  /**
   The dead task's domain `d` has lost every slot, and no other domain any. Only a death in domain 4
   with budget left puts something back, into its own table and the root's.
   */
  ghost predicate TablesAfterDeath(k: Kernel, d: nat, k': Kernel)
    requires d < 6
  {
    && (forall e :: 0 <= e < 6 && e != d && (d == 4 ==> e != 0) ==> k'.caps[e] == k.caps[e])
    && (d == 4 ==> KeepsEntries(k.caps[0], k'.caps[0]))
    && (d == 4 && k.restarts > 0 && OneFreeObject(k.objs) && OneFreeSlot(k.caps[0]) ==> FreshInstance(k', 4))
    && (!(d == 4 && k.restarts > 0 && OneFreeObject(k.objs) && OneFreeSlot(k.caps[0])) ==> Emptied(k'.caps[d]))
    && (d != 4 || k.restarts == 0 ==> k'.objs == k.objs && k'.caps == k.caps[d := k'.caps[d]])
  }

  lemma InstanceDependsOn(k: Kernel, k': Kernel)
    requires k'.caps == k.caps && k'.objs == k.objs
    ensures FreshInstance(k, 4) <==> FreshInstance(k', 4)
  {
  }

  lemma DeathTables(k: Kernel, now: nat)
    requires Inv(k) && k.current != 0 && k.tasks[k.current].user
    ensures var d := k.tasks[k.current].domain;
            TablesAfterDeath(k, d, OnDomainDeath(Removed(k), d, now).k)
  {
    hide Removed, Regrant, SchedOk, Paired, OneFreeObject, OneFreeSlot, FreshInstance, InvokeCap;
    RemovedIsBuried(k);
    if k.tasks[k.current].domain == 4 && k.restarts > 0 {
      var k2 := Removed(k).(restarts := k.restarts - 1);
      RegrantTables(k2);
      InstanceDependsOn(Regrant(k2).k, OnDomainDeath(Removed(k), 4, now).k);
    }
  }

  /**
   The fault of the running task: its slot is free, its domain has lost its table and its mappings, and
   the processor goes to another task by earliest deadline. A fresh instance takes the first free slot
   exactly if the domain is the supervised one, budget is left and there is room for its capabilities.
   */
  ghost predicate Died(k: Kernel, now: nat, k': Kernel)
    requires Shaped(k)
  {
    var d := k.tasks[k.current].domain;
    && TablesAfterDeath(k, d, k')
    && (!Restartable(k, d) ==> k.num > 0 && Switched(Buried(k, k', k.num - 1), Bereft(k), now, k'))
    && (Restartable(k, d) ==>
          exists i: nat, ts :: Reborn(Bereft(k), now, i, ts) && Switched(Buried(k, k', k.num), ts, now, k'))
  }

  lemma FaultsAreExact(k: Kernel, now: nat)
    requires Inv(k) && Enabled(k, Fault(now))
    ensures Died(k, now, Next(k, Fault(now)))
    ensures Restarts(k, Fault(now)) <==> Restartable(k, k.tasks[k.current].domain)
  {
    hide Removed, OnDomainDeath, SchedOk, Paired, TwoFreeObjects, TwoFreeSlots, OneFreeObject, OneFreeSlot, FreshInstance,
         Dispatch, Reborn, EdfFor, KeepsEntries, Emptied;
    var d := k.tasks[k.current].domain;
    var r := OnDomainDeath(Removed(k), d, now);
    DeathBySlot(k, now);
    DeathTables(k, now);
    DispatchSwitches(r.k, now);
    InstanceDependsOn(r.k, Next(k, Fault(now)));
  }

  /** In every run a fault empties the dead task's domain and takes no slot from any other. */
  lemma DeathClearsOnlyItsDomain(ks: seq<Kernel>, es: seq<Event>, i: nat)
    requires IsRun(ks, es) && i < |es| && es[i].Fault?
    ensures TablesAfterDeath(ks[i], ks[i].tasks[ks[i].current].domain, ks[i + 1])
  {
    hide Initial, Inv, TablesAfterDeath, Switched, Restartable, Reborn;
    InvAlongRun(ks, es, i);
    FaultsAreExact(ks[i], es[i].now);
  }

  // ---- who runs, over whole runs ----

  /** The steps in which the processor may change hands. */
  ghost predicate Switches(k: Kernel, e: Event)
    requires Shaped(k)
  {
    (e.TimerTick? && k.num > 1) || e.Fault? || (e.Call? && Reply(k, e).None?)
  }

  ghost predicate Ready(t: Task) {
    t.present && t.runnable && !t.blocked
  }

  /** No job due at `now` is unreleased, and nobody ready has an earlier deadline than the task that runs. */
  ghost predicate ByDeadline(k: Kernel, now: nat)
    requires k.current < 5
  {
    && k.curDomain == k.tasks[k.current].domain
    && (k.current > 0 ==> Ready(k.tasks[k.current]))
    && (forall i :: 1 <= i < 5 && k.tasks[i].present && k.tasks[i].period > 0 ==> k.tasks[i].deadline > now)
    && (forall i :: 1 <= i < 5 && Ready(k.tasks[i]) ==>
          k.current > 0 && k.tasks[k.current].deadline <= k.tasks[i].deadline)
  }

  lemma SwitchedByDeadline(k: Kernel, ts: Tasks, now: nat, k': Kernel)
    requires Switched(k, ts, now, k')
    ensures ByDeadline(k', now)
  {
    forall i | 1 <= i < 5
      ensures k'.tasks[i].present && k'.tasks[i].period > 0 ==> k'.tasks[i].deadline > now
      ensures Ready(k'.tasks[i]) ==> k'.current > 0 && k'.tasks[k'.current].deadline <= k'.tasks[i].deadline
      ensures k'.current == i ==> Ready(k'.tasks[i])
    {
      assert EdfFor(ts, now, k'.tasks, k'.current, i);
    }
  }

  lemma CallsSwitchByDeadline(k: Kernel, e: Event)
    requires Inv(k) && Complete(k.maps) && Enabled(k, e) && e.Call?
    ensures if Reply(k, e).None? then Next(k, e).current < 5 && ByDeadline(Next(k, e), e.now)
            else Next(k, e).current == k.current && Next(k, e).curDomain == k.curDomain
  {
    hide Next, Reply, ByDeadline, WindowAfter, Serves, Word, HandsOver, MayUse, Complete, Live, Stale, SchedOk, Switched, Paired;
    if !Open(k, k.curDomain, e.cptr) {
      NothingWithoutInvoke(k, e);
    } else if OnEndpoint(k, e) {
      EndpointCallsAreExact(k, e);
      var oid := k.caps[k.curDomain][e.cptr].value.objectId;
      if Reply(k, e).None? {
        ParkedByDeadline(k, e, oid, Next(k, e));
      }
    } else if e.xfer != 0xffff {
      StrayTransferRefused(k, e);
    } else {
      MethodsAreExact(k, e);
    }
  }

  lemma ParkedByDeadline(k: Kernel, e: Event, oid: nat, k': Kernel)
    requires Shaped(k) && e.Call? && oid < 1024 && ParkedOn(k, e, oid, k')
    ensures k'.current < 5 && ByDeadline(k', e.now)
  {
    hide ByDeadline, EdfFor;
    var why := if e.op == 1 then Sending else Receiving;
    SwitchedByDeadline(k.(eps := k'.eps), k.tasks[k.current := AsleepOn(k.tasks[k.current], oid, why)], e.now, k');
  }

  lemma FaultSwitchesByDeadline(k: Kernel, now: nat)
    requires Inv(k) && Enabled(k, Fault(now))
    ensures Next(k, Fault(now)).current < 5 && ByDeadline(Next(k, Fault(now)), now)
  {
    hide Next, ByDeadline, Reborn, TablesAfterDeath, SchedOk, Paired, EdfFor, Restartable;
    var k', d := Next(k, Fault(now)), k.tasks[k.current].domain;
    FaultsAreExact(k, now);
    if Restartable(k, d) {
      var i: nat, ts :| Reborn(Bereft(k), now, i, ts) && Switched(Buried(k, k', k.num), ts, now, k');
      SwitchedByDeadline(Buried(k, k', k.num), ts, now, k');
    } else {
      SwitchedByDeadline(Buried(k, k', k.num - 1), Bereft(k), now, k');
    }
  }

  /**
   In every run the processor changes hands only in a timer interrupt, a fault or a call that parks
   its task, and each of them leaves it with a task of the earliest deadline among those ready.
   */
  lemma ProcessorGoesByDeadline(ks: seq<Kernel>, es: seq<Event>, i: nat)
    requires IsRun(ks, es) && i < |es|
    ensures if Switches(ks[i], es[i]) then ks[i + 1].current < 5 && ByDeadline(ks[i + 1], es[i].now)
            else ks[i + 1].current == ks[i].current && ks[i + 1].curDomain == ks[i].curDomain
  {
    hide Initial, ByDeadline, Reply, Complete, SchedOk, Paired, Tick, Syscall, Terminate, Switched;
    var k, e := ks[i], es[i];
    InvAlongRun(ks, es, i);
    LedgersComplete(ks, es, i);
    match e
    case Call(_, _, _, _, _, _) => CallsSwitchByDeadline(k, e);
    case Fault(now) => FaultSwitchesByDeadline(k, now);
    case TimerTick(now) =>
      TicksAreExact(k, now);
      assert k.curDomain == k.tasks[k.current].domain by { PublishedDomain(k); }
      if k.num > 1 {
        SwitchedByDeadline(k, k.tasks[k.current := k.tasks[k.current].(context := OwnCode)], now, ks[i + 1]);
      }
    case _ => OthersKeepCurrent(k, e);
  }

  lemma PublishedDomain(k: Kernel)
    requires Inv(k)
    ensures k.curDomain == k.tasks[k.current].domain
  {
  }

  lemma OthersKeepCurrent(k: Kernel, e: Event)
    requires Inv(k) && Enabled(k, e) && !e.Call? && !e.Fault? && !e.TimerTick?
    ensures Next(k, e).current == k.current && Next(k, e).curDomain == k.curDomain
    ensures e.Resume? ==> Next(k, e) == k.(mode := Running)
  {
    hide Create, DelegateCap, DispatchMethod, InvokeCap, Backed, CreateObject, MintCap, FreeTask;
    match e
    case NewObject(kind, backed) => CreateKeepsTasks(k, kind, backed);
    case Direct(domain, cptr, op, env) => DirectKeepsTables(k, domain, cptr, op, env);
    case _ =>
  }
}
