/**
 The kernel as one transition system: object table, capability tables, endpoints, task table,
 mapping ledger and restart budget. Every entry into the kernel runs with interrupts off and is one
 atomic step; a call that blocks ends its step where the processor switches to another task.
 */
module KernelModel {
  import opened Machine
  import opened CapCore
  import opened Sched
  import opened Ledger

  const CPTR_NONE: nat := 0xffff
  const FAULT_DOMAIN: nat := 4
  const RESTART_PERIOD: nat := 5_000_000

  const M_ALLOC: nat := 1
  const N_SIGNAL: nat := 1
  const N_POLL: nat := 2
  const E_SEND: nat := 1
  const E_RECV: nat := 2
  const X_READ: nat := 1
  const X_WRITE: nat := 2
  const X_COMMIT: nat := 3
  const X_MAP: nat := 4
  const DQ_INFO: nat := 1
  const DQ_MAP: nat := 2
  const DQ_REPORT: nat := 3
  const DQ_SUBMIT: nat := 4

  datatype EpState = EpIdle | SendWait | RecvWait

  datatype EpSlot = EpSlot(state: EpState, peerTask: nat, peerDomain: nat, msg: nat, xfer: nat)

  const EP_EMPTY: EpSlot := EpSlot(EpIdle, 0, 0, 0, 0)

  type Endpoints = s: seq<EpSlot> | |s| == 1024 witness seq(1024, _ => EP_EMPTY)

  type Tables = s: seq<Table> | |s| == 6 witness seq(6, _ => EmptyTable())

  /** What the processor runs: the current task's own code, or the end of a blocking call it resumed in. */
  datatype Mode = Running | Resuming

  datatype Kernel = Kernel(
    objs: Objects, caps: Tables, eps: Endpoints, tasks: Tasks, num: nat,
    current: nat, curDomain: nat, mode: Mode, maps: Maps, restarts: nat)

  /** The numeric status of the syscall interface. */
  function Code(st: Status): nat {
    match st
    case Ok => 0
    case ErrBadCPtr => 1
    case ErrRevoked => 2
    case ErrType => 3
    case ErrRights => 4
    case ErrMethod => 5
  }

  function Error(st: Status): IpcResult {
    IpcResult(Code(st), 0, CPTR_NONE)
  }

  /** A kernel operation that may produce a capability slot or a task index. */
  datatype Made = Made(k: Kernel, index: Option<nat>)

  // ---- scheduling ----

  ghost predicate Shaped(k: Kernel) {
    k.current < 5 && k.curDomain < 6 && forall t :: 0 <= t < 5 ==> k.tasks[t].domain < 6
  }

  /** Release due jobs, choose the next task and load its saved context. */
  function Dispatch(k: Kernel, now: nat): Kernel {
    var ts := Rolled(k.tasks, now);
    var n := PickNext(ts);
    k.(tasks := ts, current := n, curDomain := ts[n].domain,
       mode := if ts[n].context.InsideCall? then Resuming else Running)
  }

  /** The timer interrupt; with a single task there is nothing to switch to. */
  function Tick(k: Kernel, now: nat): Kernel
    requires k.current < 5
  {
    if k.num <= 1 then k.(curDomain := k.tasks[k.current].domain)
    else
      Dispatch(k.(tasks := k.tasks[k.current := k.tasks[k.current].(context := OwnCode)]), now)
  }

  /** Parks the running task inside its call and switches away. */
  function BlockCurrent(k: Kernel, why: Direction, ep: nat, now: nat): Kernel
    requires k.current < 5
  {
    var t := k.tasks[k.current].(blocked := true, reason := why, waitEp := ep, context := InsideCall);
    Dispatch(k.(tasks := k.tasks[k.current := t]), now)
  }

  /** Stages the result, then lets the task run again; no switch. */
  function Unblock(k: Kernel, t: nat, r: IpcResult): Kernel {
    if t >= MAX_TASKS then k
    else k.(tasks := k.tasks[t := k.tasks[t].(ipc := r, blocked := false)])
  }

  function FreeTask(ts: Tasks): Option<nat> {
    if !ts[1].present then Some(1)
    else if !ts[2].present then Some(2)
    else if !ts[3].present then Some(3)
    else if !ts[4].present then Some(4)
    else None
  }

  /** Admission needs a period, a live root capability with INVOKE (of any kind) and a free task slot. */
  function Admit(k: Kernel, cptr: nat, user: bool, domain: nat, period: nat, relative: nat, now: nat): Made {
    if period == 0 || InvokeCap(k.caps[0], k.objs, cptr, {Invoke}) != Ok || FreeTask(k.tasks).None? then Made(k, None)
    else
      var i := FreeTask(k.tasks).value;
      var t := EMPTY_TASK.(context := OwnCode, present := true, runnable := true, user := user, period := period,
                           deadline := Min(now + relative, U64_MAX), domain := domain);
      Made(k.(tasks := k.tasks[i := t], num := k.num + 1), Some(i))
  }

  // ---- capabilities ----

  /** The rights with which a kind is minted in the root domain. */
  function Ceiling(kind: Kind): Rights {
    match kind
    case Memory => {Read, Write, Invoke, Map, Delegate}
    case Notification => {Invoke, Read, Write, Delegate}
    case Endpoint => {Invoke, Read, Write, GrantCap, Delegate}
    case TimeSlice => {Invoke}
    case Extent => {Invoke, Read, Write, Map, Delegate}
    case DeviceQueue => {Invoke, Read, Write, Map, Delegate}
    case _ => {}
  }

  predicate Creatable(kind: Kind) {
    kind in {Memory, Notification, Endpoint, TimeSlice, Extent, DeviceQueue}
  }

  /** A new object and its root capability; the object stays even if the root table is full. */
  function Create(k: Kernel, kind: Kind): Made {
    match CreateObject(k.objs, kind)
    case None => Made(k, None)
    case Some(o) =>
      match MintCap(k.caps[0], o.0, o.1, Ceiling(kind), 0)
      case Failure(_) => Made(k.(objs := o.0), None)
      case Success(t) => Made(k.(objs := o.0, caps := k.caps[0 := t.0]), Some(t.1))
  }

  /** The payload kept beside the object table for an extent with a data frame or a seeded queue. */
  function Backed(m: Maps, kind: Kind, oid: nat): Maps {
    if kind.Extent? then m.(loaded := m.loaded + {oid})
    else if kind.DeviceQueue? then m.(seeded := m.seeded + {oid})
    else m
  }

  function CreateBacked(k: Kernel, kind: Kind, backed: bool): Made {
    var oid := FreeObject(k.objs, 0);
    Create(if backed && oid.Some? then k.(maps := Backed(k.maps, kind, oid.value)) else k, kind)
  }

  function DelegateFromRoot(k: Kernel, dst: nat, cptr: nat, mask: Rights, badge: U16): Made {
    if dst == 0 || dst >= MAX_DOMAINS then Made(k, None)
    else match DelegateCap(k.caps[0], k.objs, cptr, mask, badge, k.caps[dst])
      case Failure(_) => Made(k, None)
      case Success(t) => Made(k.(caps := k.caps[dst := t.0]), Some(t.1))
  }

  /** Moves a capability: delegate with all rights and badge 0, then clear the source slot. */
  function CapTransfer(k: Kernel, src: nat, cptr: nat, dst: nat): Result<(Tables, nat)> {
    if src == dst || src >= MAX_DOMAINS || dst >= MAX_DOMAINS then Failure(ErrBadCPtr)
    else match DelegateCap(k.caps[src], k.objs, cptr, ALL_RIGHTS, 0, k.caps[dst])
      case Failure(st) => Failure(st)
      case Success(t) => Success((k.caps[dst := t.0][src := k.caps[src][cptr := None]], t.1))
  }

  // ---- endpoints ----

  /** The end of a rendezvous: what the sender and the receiver are told. */
  datatype Handoff = Handoff(caps: Tables, sender: IpcResult, receiver: IpcResult)

  /** Message and optional capability go over together or not at all. */
  function Rendezvous(k: Kernel, sendDomain: nat, xfer: nat, recvDomain: nat, msg: nat): Handoff {
    if xfer == CPTR_NONE then
      Handoff(k.caps, IpcResult(Code(Ok), 0, CPTR_NONE), IpcResult(Code(Ok), msg, CPTR_NONE))
    else match CapTransfer(k, sendDomain, xfer, recvDomain)
      case Failure(st) => Handoff(k.caps, Error(st), Error(st))
      case Success(t) =>
        Handoff(t.0, IpcResult(Code(Ok), 0, CPTR_NONE), IpcResult(Code(Ok), msg, t.1))
  }

  /** A call returns a result now, or its task is parked and the result comes later. */
  datatype Outcome = Outcome(k: Kernel, result: Option<IpcResult>)

  function Park(k: Kernel, ep: nat, slot: EpSlot, why: Direction, now: nat): Outcome
    requires k.current < 5 && ep < 1024
  {
    Outcome(BlockCurrent(k.(eps := k.eps[ep := slot]), why, ep, now), None)
  }

  function EpSend(k: Kernel, domain: nat, oid: nat, msg: nat, xfer: nat, rights: Rights, now: nat): Outcome
    requires k.current < 5
  {
    if oid >= OBJECT_TABLE_SIZE then Outcome(k, Some(Error(ErrBadCPtr)))
    else if xfer != CPTR_NONE && GrantCap !in rights then Outcome(k, Some(Error(ErrRights)))
    else if xfer != CPTR_NONE && xfer >= CAP_TABLE_SLOTS then Outcome(k, Some(Error(ErrBadCPtr)))
    else
      var ep := k.eps[oid];
      match ep.state
      case RecvWait =>
        var h := Rendezvous(k, domain, xfer, ep.peerDomain, msg);
        Outcome(Unblock(k.(eps := k.eps[oid := ep.(state := EpIdle)], caps := h.caps), ep.peerTask, h.receiver),
                Some(h.sender))
      case SendWait => Outcome(k, Some(Error(ErrRights)))
      case EpIdle => Park(k, oid, EpSlot(SendWait, k.current, domain, msg, xfer), Sending, now)
  }

  function EpRecv(k: Kernel, domain: nat, oid: nat, now: nat): Outcome
    requires k.current < 5
  {
    if oid >= OBJECT_TABLE_SIZE then Outcome(k, Some(Error(ErrBadCPtr)))
    else
      var ep := k.eps[oid];
      match ep.state
      case SendWait =>
        var h := Rendezvous(k, ep.peerDomain, ep.xfer, domain, ep.msg);
        Outcome(Unblock(k.(eps := k.eps[oid := ep.(state := EpIdle)], caps := h.caps), ep.peerTask, h.sender),
                Some(h.receiver))
      case RecvWait => Outcome(k, Some(Error(ErrRights)))
      case EpIdle =>
        Park(k, oid, ep.(state := RecvWait, peerTask := k.current, peerDomain := domain), Receiving, now)
  }

  // ---- the other methods ----

  /** What the rest of the machine contributes to a call: failing page tables and object replies. */
  datatype Environment = Environment(noTable: set<nat>, memory: Option<nat>, io: Option<nat>, word: nat)

  function ExtraRight(kind: Kind, op: nat): Rights {
    match kind
    case Notification => if op == N_SIGNAL then {Write} else if op == N_POLL then {Read} else {}
    case Extent =>
      if op == X_READ then {Read}
      else if op == X_WRITE || op == X_COMMIT then {Write}
      else if op == X_MAP then {Map} else {}
    case DeviceQueue =>
      if op == DQ_INFO then {Read}
      else if op == DQ_MAP then {Map}
      else if op == DQ_REPORT || op == DQ_SUBMIT then {Write} else {}
    case _ => {}
  }

  function Answer(st: Status, word: nat): IpcResult {
    IpcResult(Code(st), if st == Ok then word else 0, CPTR_NONE)
  }

  /** X_MAP and DQ_MAP install mappings; the other methods change nothing that is modelled here. */
  function MapsAfter(m: Maps, domain: nat, kind: Kind, oid: nat, op: nat, env: Environment): (Maps, IpcResult)
    requires domain < 6
  {
    match kind
    case Memory =>
      (m, if op == M_ALLOC && env.memory.Some? then Answer(Ok, env.memory.value)
          else if op == M_ALLOC then Answer(ErrRights, 0) else Answer(ErrMethod, 0))
    case Notification =>
      (m, if op == N_SIGNAL then Answer(Ok, 0) else if op == N_POLL then Answer(Ok, env.word) else Answer(ErrMethod, 0))
    case Extent =>
      if op == X_READ then (m, Answer(Ok, env.word))
      else if op != X_MAP then (m, Answer(ErrMethod, 0))
      else if oid >= OBJECT_TABLE_SIZE then (m, Answer(ErrBadCPtr, 0))
      else if oid !in m.loaded || MapPage(m, domain, EXTENT_MAP_BASE, env.noTable).None? then (m, Answer(ErrMethod, 0))
      else (MapPage(m, domain, EXTENT_MAP_BASE, env.noTable).value, Answer(Ok, EXTENT_MAP_BASE))
    case DeviceQueue =>
      if op == DQ_INFO || op == DQ_REPORT then (m, Answer(Ok, env.word))
      else if op == DQ_SUBMIT then
        (m, if oid in m.seeded && env.io.Some? then Answer(Ok, env.io.value) else Answer(ErrMethod, 0))
      else if op != DQ_MAP then (m, Answer(ErrMethod, 0))
      else if oid >= OBJECT_TABLE_SIZE then (m, Answer(ErrBadCPtr, 0))
      else if oid !in m.seeded then (m, Answer(ErrMethod, 0))
      else
        var r := MapPages(m, domain, DQ_PAGES, env.noTable);
        (r.0, if r.1 then Answer(Ok, DQ_BASE) else Answer(ErrMethod, 0))
    case _ => (m, Answer(ErrMethod, 0))
  }

  function DispatchMethod(k: Kernel, domain: nat, kind: Kind, oid: nat, rights: Rights, op: nat, env: Environment): Outcome
    requires domain < 6
  {
    if !(ExtraRight(kind, op) <= rights) then Outcome(k, Some(Answer(ErrRights, 0)))
    else
      var r := MapsAfter(k.maps, domain, kind, oid, op, env);
      Outcome(k.(maps := r.0), Some(r.1))
  }

  /** The system call: resolve the capability in the running domain, then act on its object. */
  function Syscall(k: Kernel, cptr: nat, op: nat, arg: nat, xfer: nat, env: Environment, now: nat): Outcome
    requires k.current < 5 && k.curDomain < 6
  {
    var domain := k.curDomain;
    var st := InvokeCap(k.caps[domain], k.objs, cptr, {Invoke});
    if st != Ok then Outcome(k, Some(Error(st)))
    else
      var e := Lookup(k.caps[domain], k.objs, cptr).value;
      if e.kind.Endpoint? && op == E_SEND then EpSend(k, domain, e.objectId, arg, xfer, e.rights, now)
      else if e.kind.Endpoint? && op == E_RECV then EpRecv(k, domain, e.objectId, now)
      else if xfer != CPTR_NONE then Outcome(k, Some(Error(ErrMethod)))
      else DispatchMethod(k, domain, e.kind, e.objectId, e.rights, op, env)
  }

  /** A method invoked by the kernel itself in a domain's table: never an endpoint operation, and it cannot block. */
  function InvokeDirect(k: Kernel, domain: nat, cptr: nat, op: nat, env: Environment): Outcome {
    var d := Min(domain, MAX_DOMAINS - 1);
    var st := InvokeCap(k.caps[d], k.objs, cptr, {Invoke});
    if st != Ok then Outcome(k, Some(Answer(st, 0)))
    else
      var e := Lookup(k.caps[d], k.objs, cptr).value;
      DispatchMethod(k, d, e.kind, e.objectId, e.rights, op, env)
  }

  // ---- death and restart ----

  /** Clears the domain's table, scrubs endpoints the task was parked on and takes its mappings down. */
  function Reap(k: Kernel, d: nat, t: nat): Kernel {
    if d < MAX_DOMAINS then k.(caps := k.caps[d := EmptyTable()], eps := Scrubbed(k.eps, t), maps := TornDown(k.maps, d))
    else k.(eps := Scrubbed(k.eps, t))
  }

  function Scrubbed(eps: Endpoints, t: nat): Endpoints {
    seq(1024, i requires 0 <= i < 1024 =>
      if !eps[i].state.EpIdle? && eps[i].peerTask == t then EP_EMPTY else eps[i])
  }

  /** The supervisor's grants for a fresh instance: an INVOKE-only Memory capability and a TimeSlice. */
  datatype Regranted = Regranted(k: Kernel, memory: Option<nat>, time: Option<nat>)

  function Regrant(k: Kernel): Regranted {
    var root := Create(k, Memory);
    var mem := if root.index.None? then root else DelegateFromRoot(root.k, FAULT_DOMAIN, root.index.value, {Invoke}, 0);
    var time := Create(mem.k, TimeSlice);
    Regranted(time.k, mem.index, time.index)
  }

  function OnDomainDeath(k: Kernel, domain: nat, now: nat): Made {
    if domain != FAULT_DOMAIN || k.restarts == 0 then Made(k, None)
    else
      var g := Regrant(k.(restarts := k.restarts - 1));
      if g.memory.None? || g.time.None? then Made(g.k, None)
      else Admit(g.k, g.time.value, true, FAULT_DOMAIN, RESTART_PERIOD, RESTART_PERIOD, now)
  }

  /** The running task is gone: its slot freed and its domain reaped. */
  function Removed(k: Kernel): Kernel
    requires Shaped(k)
  {
    var t := k.tasks[k.current];
    Reap(k.(tasks := k.tasks[k.current := t.(present := false, runnable := false, blocked := false)],
            num := if k.num > 0 then k.num - 1 else 0),
         t.domain, k.current)
  }

  /** A fault in ring 3: the task dies, its domain may be restarted, another task runs. */
  function Terminate(k: Kernel, now: nat): Kernel
    requires Shaped(k)
  {
    Dispatch(OnDomainDeath(Removed(k), k.tasks[k.current].domain, now).k, now)
  }

  // ---- steps ----

  datatype Event =
    | TimerTick(now: nat)
    | Call(cptr: nat, op: nat, arg: nat, xfer: nat, env: Environment, now: nat)
    | Direct(domain: nat, cptr: nat, op: nat, env: Environment)
    | Resume
    | Fault(now: nat)
    | NewObject(kind: Kind, backed: bool)
    | Grant(dst: nat, cptr: nat, mask: Rights, badge: U16)
    | RevokeAll(oid: nat)
    | AdmitTask(cptr: nat, user: bool, domain: nat, period: nat, relative: nat, now: nat)
    | Register(budget: nat)

  /**
   Only a ring-3 task makes calls and faults; the boot task never does. A task that resumes inside a
   call runs on to the end of it with interrupts off, so nothing else can happen before that.
   */
  predicate Enabled(k: Kernel, e: Event) {
    && k.current < 5
    && (e.Resume? <==> k.mode.Resuming?)
    && match e
       case TimerTick(now) => now < U64_MAX
       case Call(_, _, _, xfer, _, now) => k.current != 0 && k.tasks[k.current].user && xfer <= CPTR_NONE && now < U64_MAX
       case Fault(now) => k.current != 0 && k.tasks[k.current].user && now < U64_MAX
       case NewObject(kind, _) => Creatable(kind)
       case AdmitTask(_, user, domain, _, _, _) => domain < MAX_DOMAINS && (!user ==> domain == 0)
       case _ => true
  }

  function Next(k: Kernel, e: Event): Kernel
    requires Shaped(k) && Enabled(k, e)
  {
    match e
    case TimerTick(now) => Tick(k, now)
    case Call(cptr, op, arg, xfer, env, now) => Syscall(k, cptr, op, arg, xfer, env, now).k
    case Direct(domain, cptr, op, env) => InvokeDirect(k, domain, cptr, op, env).k
    case Resume => k.(mode := Running)
    case Fault(now) => Terminate(k, now)
    case NewObject(kind, backed) => CreateBacked(k, kind, backed).k
    case Grant(dst, cptr, mask, badge) => DelegateFromRoot(k, dst, cptr, mask, badge).k
    case RevokeAll(oid) => k.(objs := RevokeObject(k.objs, oid).1)
    case AdmitTask(cptr, user, domain, period, relative, now) => Admit(k, cptr, user, domain, period, relative, now).k
    case Register(budget) => k.(restarts := budget)
  }

  /** After boot: empty tables, and the boot thread as the only task. */
  ghost predicate Initial(k: Kernel) {
    && k == Kernel(k.objs, seq(6, _ => EmptyTable()), seq(1024, _ => EP_EMPTY), k.tasks, 1, 0, 0, Running,
                   Maps({}, seq(6, _ => []), {}, {}), 0)
    && (forall i :: 0 <= i < 1024 ==> k.objs[i] == Meta(Null, 0, false))
    && k.tasks[0] == EMPTY_TASK.(present := true, runnable := true)
    && (forall i :: 1 <= i < 5 ==> k.tasks[i] == EMPTY_TASK)
  }
}
