/**
 What every step of the kernel keeps of the task table and the endpoints: an endpoint is waiting
 with a task exactly when that task is blocked on it, and the running task can always be switched
 away from and to.
 */
module Parking {
  import opened Machine
  import opened CapCore
  import opened Sched
  import opened KernelModel
  import opened Ledger

  function One(b: bool): nat {
    if b then 1 else 0
  }

  function CountPresent(ts: Tasks): nat {
    One(ts[0].present) + One(ts[1].present) + One(ts[2].present) + One(ts[3].present) + One(ts[4].present)
  }

  /** What holds of one task at any time. */
  ghost predicate TaskOk(t: Task) {
    && t.domain < 6
    && (t.blocked ==> t.present && t.user && t.runnable && t.context.InsideCall? && t.waitEp < 1024)
    && (t.present ==> t.runnable)
    && (t.present && !t.user ==> t.domain == 0 && !t.context.InsideCall?)
  }

  /** Tasks off the processor can be resumed; task 0 is the boot thread and never parks. */
  ghost predicate TableOk(ts: Tasks, num: nat, current: nat) {
    && current < 5
    && (forall t :: 0 <= t < 5 ==> TaskOk(ts[t]))
    && (forall t :: 0 <= t < 5 && ts[t].present && t != current ==> !ts[t].context.NoContext?)
    && ts[0].present && !ts[0].user
    && num == CountPresent(ts)
  }

  /** The scheduler's own invariant: the current task is present and runnable, its domain published. */
  ghost predicate SchedOk(k: Kernel) {
    && TableOk(k.tasks, k.num, k.current)
    && k.tasks[k.current].present && !k.tasks[k.current].blocked
    && k.curDomain == k.tasks[k.current].domain
    && (k.mode.Resuming? ==> k.tasks[k.current].context.InsideCall?)
  }

  function WaitState(why: Direction): EpState {
    if why.Sending? then SendWait else RecvWait
  }

  /** `t` is parked on endpoint `e`, in the direction and from the domain the endpoint records. */
  ghost predicate WaitsOn(t: Task, e: nat, ep: EpSlot) {
    t.present && t.blocked && t.waitEp == e && WaitState(t.reason) == ep.state && t.domain == ep.peerDomain
  }

  /** An endpoint is non-idle with peer `t` exactly when `t` waits on it. */
  ghost predicate Paired(eps: Endpoints, ts: Tasks) {
    && (forall e :: 0 <= e < 1024 && !eps[e].state.EpIdle? ==>
          eps[e].peerTask < 5 && WaitsOn(ts[eps[e].peerTask], e, eps[e]))
    && (forall t :: 0 <= t < 5 && ts[t].blocked ==>
          && ts[t].waitEp < 1024
          && !eps[ts[t].waitEp].state.EpIdle?
          && eps[ts[t].waitEp].peerTask == t)
    && (forall e :: 0 <= e < 1024 && eps[e].state.SendWait? ==> eps[e].xfer == CPTR_NONE || eps[e].xfer < 256)
  }

  ghost predicate Inv(k: Kernel) {
    Shaped(k) && SchedOk(k) && Paired(k.eps, k.tasks)
  }

  lemma InitialSatisfiesInv(k: Kernel)
    requires Initial(k)
    ensures Inv(k)
  {
  }

  // ---- rolling and dispatching ----

  /** Releasing jobs touches neither presence nor blocking nor contexts. */
  lemma RolledKeeps(ts: Tasks, now: nat, t: nat)
    requires t < 5
    ensures var a, b := ts[t], Rolled(ts, now)[t];
            b == a.(activations := b.activations, deadline := b.deadline, runnable := b.runnable)
            && (a.runnable ==> b.runnable)
            && (a.blocked || !a.present ==> b.runnable == a.runnable)
  {
  }

  lemma RolledKeepsTable(ts: Tasks, num: nat, current: nat, now: nat)
    requires TableOk(ts, num, current)
    ensures TableOk(Rolled(ts, now), num, current)
  {
    hide Rolled;
    forall t | 0 <= t < 5 ensures TaskOk(Rolled(ts, now)[t]) { RolledKeeps(ts, now, t); }
    RolledKeeps(ts, now, 0);
    RolledKeeps(ts, now, 1);
    RolledKeeps(ts, now, 2);
    RolledKeeps(ts, now, 3);
    RolledKeeps(ts, now, 4);
  }

  lemma RolledKeepsPaired(eps: Endpoints, ts: Tasks, now: nat)
    requires Paired(eps, ts)
    ensures Paired(eps, Rolled(ts, now))
  {
    hide Rolled;
    forall t: nat | t < 5
      ensures ts[t].blocked == Rolled(ts, now)[t].blocked
      ensures ts[t].waitEp == Rolled(ts, now)[t].waitEp
      ensures forall e, ep :: WaitsOn(ts[t], e, ep) ==> WaitsOn(Rolled(ts, now)[t], e, ep)
    {
      RolledKeeps(ts, now, t);
    }
  }

  /** Where a switch is made from: everyone but possibly the outgoing task can be resumed. */
  ghost predicate Switchable(k: Kernel) {
    && k.current < 5
    && (forall t :: 0 <= t < 5 ==> TaskOk(k.tasks[t]))
    && (forall t :: 0 <= t < 5 && k.tasks[t].present ==> !k.tasks[t].context.NoContext?)
    && k.tasks[0].present && !k.tasks[0].user
    && k.num == CountPresent(k.tasks)
    && Paired(k.eps, k.tasks)
  }

  lemma DispatchKeepsInv(k: Kernel, now: nat)
    requires Switchable(k)
    ensures Inv(Dispatch(k, now))
  {
    hide Rolled, Paired;
    var ts := Rolled(k.tasks, now);
    RolledKeepsTable(k.tasks, k.num, k.current, now);
    RolledKeepsPaired(k.eps, k.tasks, now);
    var n := PickNext(ts);
    RolledKeeps(k.tasks, now, n);
    forall t: nat | t < 5 && ts[t].present ensures !ts[t].context.NoContext? { RolledKeeps(k.tasks, now, t); }
  }

  // ---- the steps ----

  lemma TickIsSwitchable(k: Kernel)
    requires Inv(k) && k.mode.Running?
    ensures Switchable(k.(tasks := k.tasks[k.current := k.tasks[k.current].(context := OwnCode)]))
  {
    hide CountPresent;
    var t := k.tasks[k.current].(context := OwnCode);
    CountAfterUpdate(k.tasks, k.current, t);
    assert forall i :: 0 <= i < 5 && i != k.current ==> k.tasks[k.current := t][i] == k.tasks[i];
  }

  lemma TickKeepsInv(k: Kernel, now: nat)
    requires Inv(k) && k.mode.Running?
    ensures Inv(Tick(k, now))
  {
    hide Dispatch;
    if k.num > 1 {
      TickIsSwitchable(k);
      DispatchKeepsInv(k.(tasks := k.tasks[k.current := k.tasks[k.current].(context := OwnCode)]), now);
    }
  }

  /** With one task left there is nothing a switch could choose but what runs. */
  lemma SingleTaskIsIdle(k: Kernel, now: nat)
    requires Inv(k) && k.num <= 1
    ensures k.current == 0 && PickNext(Rolled(k.tasks, now)) == 0
  {
  }

  lemma PairedAfterPark(eps: Endpoints, ts: Tasks, e: nat, slot: EpSlot, c: nat, t: Task)
    requires Paired(eps, ts) && e < 1024 && c < 5 && eps[e].state.EpIdle? && !ts[c].blocked
    requires WaitsOn(t, e, slot) && !slot.state.EpIdle? && slot.peerTask == c
    requires slot.state.SendWait? ==> slot.xfer == CPTR_NONE || slot.xfer < 256
    ensures Paired(eps[e := slot], ts[c := t])
  {
  }

  lemma ParkIsSwitchable(k: Kernel, e: nat, slot: EpSlot, why: Direction)
    requires Inv(k) && k.current != 0 && k.tasks[k.current].user && e < 1024 && k.eps[e].state.EpIdle?
    requires slot.state == WaitState(why) && slot.peerTask == k.current && slot.peerDomain == k.curDomain
    requires slot.state.SendWait? ==> slot.xfer == CPTR_NONE || slot.xfer < 256
    ensures var t := k.tasks[k.current].(blocked := true, reason := why, waitEp := e, context := InsideCall);
            Switchable(k.(eps := k.eps[e := slot], tasks := k.tasks[k.current := t]))
  {
    hide Paired, CountPresent;
    var c := k.current;
    var t := k.tasks[c].(blocked := true, reason := why, waitEp := e, context := InsideCall);
    PairedAfterPark(k.eps, k.tasks, e, slot, c, t);
    CountAfterUpdate(k.tasks, c, t);
    assert forall i :: 0 <= i < 5 && i != c ==> k.tasks[c := t][i] == k.tasks[i];
  }

  lemma ParkKeepsInv(k: Kernel, e: nat, slot: EpSlot, why: Direction, now: nat)
    requires Inv(k) && k.current != 0 && k.tasks[k.current].user && e < 1024 && k.eps[e].state.EpIdle?
    requires slot.state == WaitState(why) && slot.peerTask == k.current && slot.peerDomain == k.curDomain
    requires slot.state.SendWait? ==> slot.xfer == CPTR_NONE || slot.xfer < 256
    ensures Inv(Park(k, e, slot, why, now).k)
  {
    hide Dispatch, Switchable;
    var t := k.tasks[k.current].(blocked := true, reason := why, waitEp := e, context := InsideCall);
    ParkIsSwitchable(k, e, slot, why);
    DispatchKeepsInv(k.(eps := k.eps[e := slot], tasks := k.tasks[k.current := t]), now);
  }

  lemma PairedAfterHandoff(eps: Endpoints, ts: Tasks, e: nat, r: IpcResult)
    requires Paired(eps, ts) && e < 1024 && !eps[e].state.EpIdle?
    ensures var p := eps[e].peerTask;
            p < 5 && ts[p].blocked && ts[p].present
            && Paired(eps[e := eps[e].(state := EpIdle)], ts[p := ts[p].(ipc := r, blocked := false)])
  {
  }

  /** Waking the task an endpoint waits with, and idling the endpoint. */
  lemma HandoffKeepsInv(k: Kernel, e: nat, caps: Tables, r: IpcResult)
    requires Inv(k) && e < 1024 && !k.eps[e].state.EpIdle?
    ensures Inv(Unblock(k.(eps := k.eps[e := k.eps[e].(state := EpIdle)], caps := caps), k.eps[e].peerTask, r))
  {
    hide Paired, CountPresent;
    PairedAfterHandoff(k.eps, k.tasks, e, r);
    var p := k.eps[e].peerTask;
    var t := k.tasks[p].(ipc := r, blocked := false);
    CountAfterUpdate(k.tasks, p, t);
    assert forall i :: 0 <= i < 5 && i != p ==> k.tasks[p := t][i] == k.tasks[i];
  }

  lemma EpSendKeepsInv(k: Kernel, oid: nat, msg: nat, xfer: nat, rights: Rights, now: nat)
    requires Inv(k) && k.current != 0 && k.tasks[k.current].user
    ensures Inv(EpSend(k, k.curDomain, oid, msg, xfer, rights, now).k)
  {
    hide Inv, Park, Unblock, Rendezvous;
    if oid < 1024 {
      if k.eps[oid].state.RecvWait? {
        HandoffKeepsInv(k, oid, Rendezvous(k, k.curDomain, xfer, k.eps[oid].peerDomain, msg).caps,
                        Rendezvous(k, k.curDomain, xfer, k.eps[oid].peerDomain, msg).receiver);
      } else if k.eps[oid].state.EpIdle? && (xfer == CPTR_NONE || xfer < 256) {
        ParkKeepsInv(k, oid, EpSlot(SendWait, k.current, k.curDomain, msg, xfer), Sending, now);
      }
    }
  }

  lemma EpRecvKeepsInv(k: Kernel, oid: nat, now: nat)
    requires Inv(k) && k.current != 0 && k.tasks[k.current].user
    ensures Inv(EpRecv(k, k.curDomain, oid, now).k)
  {
    hide Inv, Park, Unblock, Rendezvous;
    if oid < 1024 {
      var ep := k.eps[oid];
      if ep.state.SendWait? {
        HandoffKeepsInv(k, oid, Rendezvous(k, ep.peerDomain, ep.xfer, k.curDomain, ep.msg).caps,
                        Rendezvous(k, ep.peerDomain, ep.xfer, k.curDomain, ep.msg).sender);
      } else if ep.state.EpIdle? {
        ParkKeepsInv(k, oid, ep.(state := RecvWait, peerTask := k.current, peerDomain := k.curDomain), Receiving, now);
      }
    }
  }

  lemma CallKeepsInv(k: Kernel, e: Event)
    requires Inv(k) && Enabled(k, e) && e.Call?
    ensures Inv(Next(k, e))
  {
    hide EpSend, EpRecv, MapsAfter, ExtraRight;
    var st := InvokeCap(k.caps[k.curDomain], k.objs, e.cptr, {Invoke});
    if st == Ok {
      var c := Lookup(k.caps[k.curDomain], k.objs, e.cptr).value;
      EpSendKeepsInv(k, c.objectId, e.arg, e.xfer, c.rights, e.now);
      EpRecvKeepsInv(k, c.objectId, e.now);
    }
  }

  // ---- death, restart, admission ----

  /** A task that runs is named by no endpoint, so the scrub has nothing to clear. */
  lemma ScrubFindsNothing(k: Kernel)
    requires Inv(k)
    ensures Scrubbed(k.eps, k.current) == k.eps
  {
  }

  lemma CountAfterUpdate(ts: Tasks, i: nat, t: Task)
    requires i < 5
    ensures CountPresent(ts[i := t]) + One(ts[i].present) == CountPresent(ts) + One(t.present)
  {
  }

  lemma RemovedIsSwitchable(k: Kernel)
    requires Inv(k) && k.current != 0 && k.tasks[k.current].user
    ensures Switchable(Removed(k))
  {
    var k' := Removed(k);
    ScrubFindsNothing(k);
    assert k'.eps == k.eps;
    CountAfterUpdate(k.tasks, k.current, k'.tasks[k.current]);
    assert k'.tasks == k.tasks[k.current := k'.tasks[k.current]];
    assert forall i :: 0 <= i < 5 && i != k.current ==> k'.tasks[i] == k.tasks[i];
    assert Paired(k.eps, k'.tasks);
  }

  /** A newly admitted task takes a slot nobody waits in. */
  lemma AdmittedSlot(k: Kernel, cptr: nat, user: bool, domain: nat, period: nat, relative: nat, now: nat)
    requires domain < 6 && (!user ==> domain == 0)
    requires (forall t :: 0 <= t < 5 ==> TaskOk(k.tasks[t])) && Paired(k.eps, k.tasks)
    ensures var r := Admit(k, cptr, user, domain, period, relative, now);
            if r.index.None? then r.k == k
            else
              var i := r.index.value;
              && 1 <= i < 5 && !k.tasks[i].present
              && r.k == k.(tasks := k.tasks[i := r.k.tasks[i]], num := k.num + 1)
              && TaskOk(r.k.tasks[i]) && r.k.tasks[i].present && r.k.tasks[i].context.OwnCode?
              && CountPresent(r.k.tasks) == CountPresent(k.tasks) + 1
              && Paired(r.k.eps, r.k.tasks)
  {
    hide InvokeCap;
    var r := Admit(k, cptr, user, domain, period, relative, now);
    if r.index.Some? {
      var i := r.index.value;
      CountAfterUpdate(k.tasks, i, r.k.tasks[i]);
      assert !k.tasks[i].blocked;
    }
  }

  lemma AdmitKeepsInv(k: Kernel, cptr: nat, user: bool, domain: nat, period: nat, relative: nat, now: nat)
    requires domain < 6 && (!user ==> domain == 0) && Inv(k)
    ensures Inv(Admit(k, cptr, user, domain, period, relative, now).k)
  {
    hide Admit, Paired, CountPresent;
    AdmittedSlot(k, cptr, user, domain, period, relative, now);
  }

  lemma AdmitKeepsSwitchable(k: Kernel, cptr: nat, user: bool, domain: nat, period: nat, relative: nat, now: nat)
    requires domain < 6 && (!user ==> domain == 0) && Switchable(k)
    ensures Switchable(Admit(k, cptr, user, domain, period, relative, now).k)
  {
    hide Admit, Paired, CountPresent;
    AdmittedSlot(k, cptr, user, domain, period, relative, now);
  }

  /** Kernel operations on capabilities and objects leave tasks and endpoints alone. */
  ghost predicate SameTasks(k: Kernel, k': Kernel) {
    k' == k.(objs := k'.objs, caps := k'.caps, maps := k'.maps, restarts := k'.restarts)
  }

  lemma CreateKeepsTasks(k: Kernel, kind: Kind, backed: bool)
    ensures SameTasks(k, Create(k, kind).k)
    ensures SameTasks(k, CreateBacked(k, kind, backed).k)
  {
  }

  lemma GrantKeepsTasks(k: Kernel, dst: nat, cptr: nat, mask: Rights, badge: U16)
    ensures SameTasks(k, DelegateFromRoot(k, dst, cptr, mask, badge).k)
  {
  }

  lemma RegrantKeepsTasks(k: Kernel)
    ensures SameTasks(k, Regrant(k).k)
  {
    hide Create, DelegateFromRoot;
    var root := Create(k, Memory);
    CreateKeepsTasks(k, Memory, false);
    if root.index.None? {
      CreateKeepsTasks(root.k, TimeSlice, false);
    } else {
      GrantKeepsTasks(root.k, FAULT_DOMAIN, root.index.value, {Invoke}, 0);
      CreateKeepsTasks(DelegateFromRoot(root.k, FAULT_DOMAIN, root.index.value, {Invoke}, 0).k, TimeSlice, false);
    }
  }

  /** A method invoked by the kernel itself changes mappings at most. */
  lemma DirectKeepsTables(k: Kernel, domain: nat, cptr: nat, op: nat, env: Environment)
    ensures var k' := InvokeDirect(k, domain, cptr, op, env).k; k' == k.(maps := k'.maps)
  {
    hide MapsAfter, ExtraRight, InvokeCap;
  }

  lemma SameTasksKeeps(k: Kernel, k': Kernel)
    requires SameTasks(k, k')
    ensures Inv(k) ==> Inv(k')
    ensures Switchable(k) ==> Switchable(k')
  {
  }

  lemma DeathIsSwitchable(k: Kernel, domain: nat, now: nat)
    requires Switchable(k)
    ensures Switchable(OnDomainDeath(k, domain, now).k)
  {
    hide Regrant, Admit, Switchable;
    if domain == FAULT_DOMAIN && k.restarts > 0 {
      var k1 := k.(restarts := k.restarts - 1);
      SameTasksKeeps(k, k1);
      RegrantKeepsTasks(k1);
      SameTasksKeeps(k1, Regrant(k1).k);
      var g := Regrant(k1);
      if g.memory.Some? && g.time.Some? {
        AdmitKeepsSwitchable(g.k, g.time.value, true, FAULT_DOMAIN, RESTART_PERIOD, RESTART_PERIOD, now);
      }
    }
  }

  lemma FaultKeepsInv(k: Kernel, now: nat)
    requires Inv(k) && k.current != 0 && k.tasks[k.current].user
    ensures Inv(Terminate(k, now))
  {
    hide OnDomainDeath, Removed, Dispatch, Switchable;
    RemovedIsSwitchable(k);
    DeathIsSwitchable(Removed(k), k.tasks[k.current].domain, now);
    DispatchKeepsInv(OnDomainDeath(Removed(k), k.tasks[k.current].domain, now).k, now);
  }

  /** Every step of the kernel keeps the invariant. */
  lemma StepKeepsInv(k: Kernel, e: Event)
    requires Inv(k) && Enabled(k, e)
    ensures Inv(Next(k, e))
  {
    hide Tick, Syscall, InvokeDirect, Terminate, Admit, CreateBacked, DelegateFromRoot, RevokeObject;
    match e
    case TimerTick(now) => TickKeepsInv(k, now);
    case Call(_, _, _, _, _, _) => CallKeepsInv(k, e);
    case Direct(domain, cptr, op, env) => DirectKeepsTables(k, domain, cptr, op, env); SameTasksKeeps(k, Next(k, e));
    case Resume =>
    case Fault(now) => FaultKeepsInv(k, now);
    case NewObject(kind, backed) => CreateKeepsTasks(k, kind, backed); SameTasksKeeps(k, Next(k, e));
    case Grant(dst, cptr, mask, badge) => GrantKeepsTasks(k, dst, cptr, mask, badge); SameTasksKeeps(k, Next(k, e));
    case RevokeAll(oid) => SameTasksKeeps(k, Next(k, e));
    case AdmitTask(cptr, user, domain, period, relative, now) =>
      AdmitKeepsInv(k, cptr, user, domain, period, relative, now);
    case Register(budget) => SameTasksKeeps(k, Next(k, e));
  }

  // ---- runs ----

  /**
   Any sequence of steps from boot. The shape only makes `Next` well defined: it is part of `Inv`, so
   `StepKeepsInv` gives it for every successor.
   */
  ghost predicate IsRun(ks: seq<Kernel>, es: seq<Event>) {
    && |ks| == |es| + 1 && Initial(ks[0])
    && (forall i :: 0 <= i < |ks| ==> Shaped(ks[i]))
    && (forall i :: 0 <= i < |es| ==> Enabled(ks[i], es[i]) && ks[i + 1] == Next(ks[i], es[i]))
  }

  lemma {:induction false} InvAlongRun(ks: seq<Kernel>, es: seq<Event>, i: nat)
    requires IsRun(ks, es) && i < |ks|
    ensures Inv(ks[i])
  {
    hide Initial, Next;
    if i == 0 {
      InitialSatisfiesInv(ks[0]);
    } else {
      InvAlongRun(ks, es, i - 1);
      StepKeepsInv(ks[i - 1], es[i - 1]);
    }
  }

  /**
   In every reachable state an endpoint waits with peer `t` exactly when `t` is present, blocked and
   waiting on that endpoint in that direction and from that domain; the running task is not blocked,
   and no endpoint names it or a slot without a task.
   */
  lemma ParkingIsExact(ks: seq<Kernel>, es: seq<Event>, i: nat, e: nat, t: nat)
    requires IsRun(ks, es) && i < |ks| && e < 1024 && t < 5
    ensures var k := ks[i];
            && (!k.eps[e].state.EpIdle? && k.eps[e].peerTask == t
                <==> k.tasks[t].blocked && k.tasks[t].waitEp == e)
            && (k.tasks[t].blocked && k.tasks[t].waitEp == e ==> WaitsOn(k.tasks[t], e, k.eps[e]))
            && !k.tasks[k.current].blocked
            && (!k.tasks[t].present || t == k.current ==> k.eps[e].state.EpIdle? || k.eps[e].peerTask != t)
            && Scrubbed(k.eps, k.current) == k.eps
  {
    InvAlongRun(ks, es, i);
    ScrubFindsNothing(ks[i]);
  }

  /**
   In every reachable state the task count is right, the boot task and the current one are present,
   every other task has a context to resume, and the published domain is the running task's.
   */
  lemma SchedulerIsSound(ks: seq<Kernel>, es: seq<Event>, i: nat, t: nat)
    requires IsRun(ks, es) && i < |ks| && t < 5
    ensures var k := ks[i];
            && k.num == CountPresent(k.tasks)
            && k.tasks[0].present && k.tasks[k.current].present
            && (k.tasks[t].present && t != k.current ==> !k.tasks[t].context.NoContext?)
            && k.curDomain == k.tasks[k.current].domain < MAX_DOMAINS
            && (k.num <= 1 ==> k.current == 0)
  {
    InvAlongRun(ks, es, i);
  }

  /** The endpoint was waited on; now it is idle and its peer awake. */
  ghost predicate HandedOff(k: Kernel, k': Kernel, oid: nat) {
    && oid < 1024 && !k.eps[oid].state.EpIdle? && k'.eps[oid].state.EpIdle?
    && k.eps[oid].peerTask < 5 && !k'.tasks[k.eps[oid].peerTask].blocked
  }

  lemma SendChangesTables(k: Kernel, oid: nat, msg: nat, xfer: nat, rights: Rights, now: nat)
    requires Inv(k)
    ensures var k' := EpSend(k, k.curDomain, oid, msg, xfer, rights, now).k;
            k'.caps == k.caps || HandedOff(k, k', oid)
  {
    hide Rendezvous, Rolled, PickNext;
  }

  lemma RecvChangesTables(k: Kernel, oid: nat, now: nat)
    requires Inv(k)
    ensures var k' := EpRecv(k, k.curDomain, oid, now).k;
            k'.caps == k.caps || HandedOff(k, k', oid)
  {
    hide Rendezvous, Rolled, PickNext;
  }

  /** No invocation changes a capability table, except by a rendezvous on an endpoint someone waits on. */
  lemma TablesChangeOnlyInRendezvous(k: Kernel, e: Event)
    requires Inv(k) && Enabled(k, e) && (e.Call? || e.Direct?) && Next(k, e).caps != k.caps
    ensures e.Call? && exists oid :: HandedOff(k, Next(k, e), oid)
  {
    hide MapsAfter, ExtraRight, EpSend, EpRecv, HandedOff, SchedOk, Paired;
    if e.Direct? {
      DirectKeepsTables(k, e.domain, e.cptr, e.op, e.env);
    }
    var c := Lookup(k.caps[k.curDomain], k.objs, e.cptr).value;
    SendChangesTables(k, c.objectId, e.arg, e.xfer, c.rights, e.now);
    RecvChangesTables(k, c.objectId, e.now);
    assert HandedOff(k, Next(k, e), c.objectId);
  }
}
