/**
 The kernel's operations as they are carried out: tables and endpoints updated in place, loops over
 slots, endpoints and pages. Each is proved to do what the transition system says of it, and every
 entry into the kernel extends a run, so that what is proved of runs holds of the statics.
 */
module KernelMachine {
  import opened Machine
  import opened CapCore
  import opened Sched
  import opened Ledger
  import opened KernelModel
  import opened Parking
  import opened Messages
  import opened Lineage
  import opened Interface

  /** Saving the outgoing task's context before or after choosing the next task is the same. */
  lemma ContextDoesNotMatter(ts: Tasks, c: nat, x: Context, now: nat)
    requires c < 5
    ensures var us: Tasks := ts[c := ts[c].(context := x)];
            && Rolled(us, now) == Rolled(ts, now)[c := Rolled(ts, now)[c].(context := x)]
            && PickNext(Rolled(us, now)) == PickNext(Rolled(ts, now))
  {
    hide Releases;
    var us: Tasks := ts[c := ts[c].(context := x)];
    var a, b := Rolled(ts, now), Rolled(us, now);
    forall i: nat | i < 5 ensures b[i] == if i == c then a[i].(context := x) else a[i] {
      if i == c { SameRelease(ts[c], x, now); }
    }
    assert forall i :: 0 <= i < 5 ==> (Eligible(a[i]) <==> Eligible(b[i])) && a[i].deadline == b[i].deadline;
    ChoiceUnique(a, PickNext(a), PickNext(b));
  }

  lemma SameRelease(t: Task, x: Context, now: nat)
    ensures Released(t.(context := x), now) == Released(t, now).(context := x)
  {
  }

  lemma ParkedNotChosen(ts: Tasks, c: nat, now: nat)
    requires 0 < c < 5 && ts[c].blocked
    ensures PickNext(Rolled(ts, now)) != c
  {
  }

  /** A switch away from a parked task, its context saved afterwards. */
  lemma ContextSavedLast(k: Kernel, c: nat, now: nat)
    requires 0 < c < 5 && k.tasks[c].blocked
    ensures var ts: Tasks := k.tasks[c := k.tasks[c].(context := InsideCall)];
            var d := Dispatch(k, now);
            Dispatch(k.(tasks := ts), now) == d.(tasks := d.tasks[c := d.tasks[c].(context := InsideCall)])
  {
    hide Rolled, PickNext;
    ContextDoesNotMatter(k.tasks, c, InsideCall, now);
    ParkedNotChosen(k.tasks, c, now);
    PickInRange(Rolled(k.tasks, now));
  }

  function Marked(k: Kernel, why: Direction, ep: nat): Kernel
    requires k.current < 5
  {
    k.(tasks := k.tasks[k.current := k.tasks[k.current].(blocked := true, reason := why, waitEp := ep)])
  }

  lemma ParkByParts(k: Kernel, why: Direction, ep: nat, now: nat)
    requires k.current < 5 && now < U64_MAX
    ensures var m := Marked(k, why, ep);
            var k' := Dispatch(m.(tasks := m.tasks[m.current := m.tasks[m.current].(context := InsideCall)]), now);
            k' == BlockCurrent(k, why, ep, now) && WentToSleep(k, why, ep, now, k')
  {
    hide Dispatch, WentToSleep;
    ParkingSwitches(k, why, ep, now);
    var m := Marked(k, why, ep);
    assert m.tasks[m.current := m.tasks[m.current].(context := InsideCall)]
        == k.tasks[k.current := AsleepOn(k.tasks[k.current], ep, why)];
  }

  lemma PickInRange(ts: Tasks)
    ensures PickNext(ts) < 5
  {
  }

  const NO_BOOK: Ledgerbook := Ledgerbook([], map[], seq(1024, _ => 0))

  lemma BootState(k: Kernel)
    requires forall i :: 0 <= i < 1024 ==> k.objs[i] == Meta(Null, 0, false) && k.eps[i] == EP_EMPTY
    requires forall i :: 0 <= i < 6 ==> k.caps[i] == EmptyTable() && k.maps.ledgers[i] == []
    requires k.tasks[0] == EMPTY_TASK.(present := true, runnable := true)
    requires forall i :: 1 <= i < 5 ==> k.tasks[i] == EMPTY_TASK
    requires k == Kernel(k.objs, k.caps, k.eps, k.tasks, 1, 0, 0, Running, Maps({}, k.maps.ledgers, {}, {}), 0)
    ensures Initial(k)
  {
    assert k.caps == seq(6, _ => EmptyTable());
    assert k.eps == seq(1024, _ => EP_EMPTY);
    assert k.maps.ledgers == seq(6, _ => []);
  }

  /** Creation from its parts: an object id, then a slot of the root table. */
  lemma CreateByParts(k: Kernel, kind: Kind)
    ensures var oid, slot := FreeObject(k.objs, 0), FreeSlot(k.caps[0], 0);
            Create(k, kind) ==
              if oid.None? then Made(k, None)
              else
                var objs: Objects := k.objs[oid.value := Meta(kind, 0, true)];
                if slot.None? then Made(k.(objs := objs), None)
                else
                  var t: Table := k.caps[0][slot.value := Some(CapEntry(oid.value, Ceiling(kind), 0, kind, 0))];
                  Made(k.(objs := objs, caps := k.caps[0 := t]), slot)
  {
  }

  lemma RunStarts(k: Kernel)
    requires Initial(k)
    ensures IsLoggedRun([k], [], [NO_HISTORY]) && IsTracedRun([k], [], [NO_BOOK])
  {
    InitialSatisfiesInv(k);
    hide Initial, Next, NextHistory, NextBook;
  }

  lemma RunGoesOn(ks: seq<Kernel>, es: seq<Event>, e: Event)
    requires IsRun(ks, es) && Enabled(ks[|es|], e) && Shaped(Next(ks[|es|], e))
    ensures IsRun(ks + [Next(ks[|es|], e)], es + [e])
  {
    hide Next, Initial, Enabled, Shaped;
  }

  lemma LogGoesOn(ks: seq<Kernel>, es: seq<Event>, hs: seq<History>, e: Event)
    requires IsLoggedRun(ks, es, hs) && Enabled(ks[|es|], e)
    requires IsRun(ks + [Next(ks[|es|], e)], es + [e])
    ensures IsLoggedRun(ks + [Next(ks[|es|], e)], es + [e], hs + [NextHistory(hs[|es|], ks[|es|], e)])
  {
    hide Next, NextHistory, Initial, Enabled, Shaped;
    var ks', es', hs' := ks + [Next(ks[|es|], e)], es + [e], hs + [NextHistory(hs[|es|], ks[|es|], e)];
    forall i | 0 <= i < |es'| ensures hs'[i + 1] == NextHistory(hs'[i], ks'[i], es'[i]) {
      assert hs'[i] == hs[i] && ks'[i] == ks[i];
    }
  }

  lemma BookGoesOn(ks: seq<Kernel>, es: seq<Event>, bs: seq<Ledgerbook>, e: Event)
    requires IsTracedRun(ks, es, bs) && Enabled(ks[|es|], e)
    requires IsRun(ks + [Next(ks[|es|], e)], es + [e])
    ensures IsTracedRun(ks + [Next(ks[|es|], e)], es + [e], bs + [NextBook(bs[|es|], ks[|es|], e)])
  {
    hide Next, NextBook, Initial, Enabled, Shaped;
    var ks', es', bs' := ks + [Next(ks[|es|], e)], es + [e], bs + [NextBook(bs[|es|], ks[|es|], e)];
    forall i | 0 <= i < |es'| ensures bs'[i + 1] == NextBook(bs'[i], ks'[i], es'[i]) {
      assert bs'[i] == bs[i] && ks'[i] == ks[i];
    }
  }

  /** One more step of a run, with its history and its book of capabilities. */
  lemma RunExtended(ks: seq<Kernel>, es: seq<Event>, hs: seq<History>, bs: seq<Ledgerbook>, e: Event, k: Kernel)
    returns (h: History, b: Ledgerbook)
    requires IsLoggedRun(ks, es, hs) && IsTracedRun(ks, es, bs) && Enabled(ks[|es|], e) && k == Next(ks[|es|], e)
    ensures Inv(k)
    ensures IsLoggedRun(ks + [k], es + [e], hs + [h]) && IsTracedRun(ks + [k], es + [e], bs + [b])
    ensures (ks + [k])[|es + [e]|] == k
  {
    InvAlongRun(ks, es, |es|);
    StepKeepsInv(ks[|es|], e);
    assert Shaped(ks[|es|]) && Shaped(Next(ks[|es|], e));
    assert IsRun(ks, es);
    hide Next, NextHistory, NextBook, IsRun, IsLoggedRun, IsTracedRun, Enabled, Inv, Shaped;
    RunGoesOn(ks, es, e);
    LogGoesOn(ks, es, hs, e);
    BookGoesOn(ks, es, bs, e);
    h, b := NextHistory(hs[|es|], ks[|es|], e), NextBook(bs[|es|], ks[|es|], e);
  }

  /** What a task that ends its call is told: what the rendezvous of that call decided. */
  ghost predicate IsMatchedResult(h: History, t: nat, r: IpcResult) {
    && t < 5 && h.open[t].Some?
    && var id := h.open[t].value;
    && id in h.matchOf && h.matchOf[id] < |h.matches| && r == ResultFor(h.matches[h.matchOf[id]], id)
  }

  class System {
    const metas: array<Meta>
    const tables: array<Table>
    const eps: array<EpSlot>
    const tasks: array<Task>
    var num: nat
    var current: nat
    var curDomain: nat
    var mode: Mode
    var mapped: set<nat>
    const ledgers: array<seq<nat>>
    var loaded: set<nat>
    var seeded: set<nat>
    var restarts: nat
    // the run so far
    ghost var ks: seq<Kernel>
    ghost var es: seq<Event>
    ghost var hs: seq<History>
    ghost var bs: seq<Ledgerbook>

    ghost predicate Formed() {
      metas.Length == 1024 && tables.Length == 6 && eps.Length == 1024 && tasks.Length == 5 && ledgers.Length == 6
    }

    ghost function State(): Kernel
      requires Formed()
      reads this`num, this`current, this`curDomain, this`mode, this`mapped, this`loaded, this`seeded, this`restarts
      reads metas, tables, eps, tasks, ledgers
    {
      Kernel(metas[..], tables[..], eps[..], tasks[..], num, current, curDomain, mode,
             Maps(mapped, ledgers[..], loaded, seeded), restarts)
    }

    /** The statics are the last state of a run from boot. */
    ghost predicate Valid()
      reads this, metas, tables, eps, tasks, ledgers
    {
      && Formed() && IsLoggedRun(ks, es, hs) && IsTracedRun(ks, es, bs)
      && ks[|es|] == State()
    }

    /** Boot: empty statics, and the running thread registered as task 0. */
    constructor ()
      ensures Valid() && Initial(State()) && es == []
      ensures fresh(metas) && fresh(tables) && fresh(eps) && fresh(tasks) && fresh(ledgers)
    {
      metas := new Meta[1024](_ => Meta(Null, 0, false));
      tables := new Table[6](_ => EmptyTable());
      eps := new EpSlot[1024](_ => EP_EMPTY);
      tasks := new Task[5](i => if i == 0 then EMPTY_TASK.(present := true, runnable := true) else EMPTY_TASK);
      ledgers := new seq<nat>[6](_ => []);
      num, current, curDomain, mode := 1, 0, 0, Running;
      mapped, loaded, seeded, restarts := {}, {}, {}, 0;
      new;
      hide IsLoggedRun, IsTracedRun, Initial, EmptyTable;
      BootState(State());
      RunStarts(State());
      ks, es, hs, bs := [State()], [], [NO_HISTORY], [NO_BOOK];
    }

    // ---- scheduling ----

    /** Release due jobs, choose, and publish the chosen task's domain and context. */
    method SwitchAway(now: nat)
      requires Formed() && now < U64_MAX
      modifies this`current, this`curDomain, this`mode, tasks
      ensures State() == Dispatch(old(State()), now)
    {
      var n := Reschedule(tasks, now);
      current := n;
      curDomain := tasks[n].domain;
      mode := if tasks[n].context.InsideCall? then Resuming else Running;
    }

    method ScheduleTick(now: nat)
      requires Formed() && current < 5 && now < U64_MAX
      modifies this`current, this`curDomain, this`mode, tasks
      ensures State() == Tick(old(State()), now)
      ensures Ticked(old(State()), now, State())
    {
      TicksAreExact(State(), now);
      hide Switched, Dispatch;
      if num <= 1 {
        curDomain := tasks[current].domain;
        return;
      }
      tasks[current] := tasks[current].(context := OwnCode);
      assert tasks[..] == old(tasks[..])[current := old(tasks[..])[current].(context := OwnCode)];
      SwitchAway(now);
    }

    /** Switches away from a parked task; its context is saved last, when the next one is loaded. */
    method SwitchInsideCall(now: nat)
      requires Formed() && 0 < current < 5 && tasks[current].blocked && now < U64_MAX
      modifies this`current, this`curDomain, this`mode, tasks
      ensures var k := old(State());
              State() == Dispatch(k.(tasks := k.tasks[k.current := k.tasks[k.current].(context := InsideCall)]), now)
    {
      hide Dispatch;
      var cur := current;
      ContextSavedLast(State(), cur, now);
      SwitchAway(now);
      ghost var switched := State();
      tasks[cur] := tasks[cur].(context := InsideCall);
      assert State() == switched.(tasks := switched.tasks[cur := switched.tasks[cur].(context := InsideCall)]);
    }

    method ParkCurrent(why: Direction, ep: nat, now: nat)
      requires Formed() && 0 < current < 5 && now < U64_MAX
      modifies this`current, this`curDomain, this`mode, tasks
      ensures State() == BlockCurrent(old(State()), why, ep, now)
      ensures WentToSleep(old(State()), why, ep, now, State())
    {
      ghost var k := State();
      ParkByParts(k, why, ep, now);
      hide Dispatch, BlockCurrent, WentToSleep;
      tasks[current] := tasks[current].(blocked := true, reason := why, waitEp := ep);
      assert State() == Marked(k, why, ep);
      SwitchInsideCall(now);
    }

    method Wake(task: nat, r: IpcResult)
      requires Formed()
      modifies tasks
      ensures State() == Unblock(old(State()), task, r)
    {
      if task >= MAX_TASKS {
        return;
      }
      tasks[task] := tasks[task].(ipc := r);
      tasks[task] := tasks[task].(blocked := false);
      assert tasks[..] == old(tasks[..])[task := old(tasks[..])[task].(ipc := r, blocked := false)];
    }

    method AdmitTask(cptr: nat, user: bool, domain: nat, period: nat, relative: nat, now: nat) returns (r: Option<nat>)
      requires Formed()
      modifies this`num, tasks
      ensures Made(State(), r) == Admit(old(State()), cptr, user, domain, period, relative, now)
      ensures Admitted(old(State()), cptr, NewTask(user, domain, period, now + relative), Made(State(), r))
    {
      AdmissionIsExact(State(), cptr, user, domain, period, relative, now);
      hide Admitted, NewTask;
      if period == 0 {
        return None;
      }
      if InvokeCap(tables[0], metas[..], cptr, {Invoke}) != Ok {
        return None;
      }
      var i := 1;
      while i < MAX_TASKS && tasks[i].present
        invariant 1 <= i <= MAX_TASKS
        invariant forall j :: 1 <= j < i ==> tasks[j].present
      {
        i := i + 1;
      }
      if i == MAX_TASKS {
        return None;
      }
      tasks[i] := EMPTY_TASK.(context := OwnCode, present := true, runnable := true, user := user, period := period,
                              deadline := Min(now + relative, U64_MAX), domain := domain);
      num := num + 1;
      r := Some(i);
      assert tasks[..] == old(tasks[..])[i := tasks[i]];
    }

    // ---- objects and capabilities ----

    method NewMeta(kind: Kind) returns (r: Option<nat>)
      requires Formed()
      modifies metas
      ensures r == FreeObject(old(metas[..]), 0)
      ensures metas[..] == if r.None? then old(metas[..]) else old(metas[..])[r.value := Meta(kind, 0, true)]
    {
      for i := 0 to OBJECT_TABLE_SIZE
        invariant metas[..] == old(metas[..])
        invariant FreeObject(metas[..], 0) == FreeObject(metas[..], i)
      {
        if !metas[i].present {
          metas[i] := Meta(kind, 0, true);
          assert metas[..] == old(metas[..])[i := Meta(kind, 0, true)];
          return Some(i);
        }
      }
      r := None;
    }

    /**
     Revocation: every capability minted or copied at the object's present epoch stops being live, and
     no capability of any other object is affected.
     */
    method RevokeId(oid: nat) returns (st: Status)
      requires Formed()
      modifies metas
      ensures State() == old(State()).(objs := RevokeObject(old(State()).objs, oid).1)
      ensures if oid < 1024 && old(metas[..])[oid].present then st == Ok else st == ErrBadCPtr && metas[..] == old(metas[..])
      ensures forall e: CapEntry :: st == Ok && e.objectId == oid && e.epoch == old(metas[..])[oid].epoch ==>
                Liveness(metas[..], e) == ErrRevoked
      ensures forall e: CapEntry :: e.objectId != oid ==> Liveness(metas[..], e) == Liveness(old(metas[..]), e)
    {
      if oid >= OBJECT_TABLE_SIZE || !metas[oid].present {
        return ErrBadCPtr;
      }
      metas[oid] := metas[oid].(epoch := (metas[oid].epoch + 1) % TWO_32);
      assert metas[..] == old(metas[..])[oid := metas[oid]];
      st := Ok;
    }

    /** The first empty slot of a table. */
    method FindSlot(t: Table) returns (r: Option<nat>)
      ensures r == FreeSlot(t, 0)
    {
      for i := 0 to CAP_TABLE_SLOTS
        invariant FreeSlot(t, 0) == FreeSlot(t, i)
      {
        if t[i].None? {
          return Some(i);
        }
      }
      r := None;
    }

    /** The root capability of an object, in the first free slot of the root table. */
    method MintRoot(oid: nat, kind: Kind) returns (r: Option<nat>)
      requires Formed() && oid < 1024 && metas[oid] == Meta(kind, 0, true)
      modifies tables
      ensures r == FreeSlot(old(tables[..])[0], 0)
      ensures tables[..] == if r.None? then old(tables[..])
                            else old(tables[..])[0 := old(tables[..])[0][r.value := Some(CapEntry(oid, Ceiling(kind), 0, kind, 0))]]
    {
      r := FindSlot(tables[0]);
      if r.Some? {
        var e := CapEntry(oid, Ceiling(kind), metas[oid].epoch, metas[oid].kind, 0);
        tables[0] := tables[0][r.value := Some(e)];
        assert tables[..] == old(tables[..])[0 := tables[0]];
      }
    }

    /** A new object with its root capability. */
    method CreateRoot(kind: Kind) returns (r: Option<nat>)
      requires Formed()
      modifies metas, tables
      ensures Made(State(), r) == Create(old(State()), kind)
    {
      var oid := NewMeta(kind);
      if oid.None? {
        return None;
      }
      r := MintRoot(oid.value, kind);
    }

    method KeepPayload(kind: Kind, oid: nat)
      requires Formed()
      modifies this`loaded, this`seeded
      ensures State() == old(State()).(maps := Backed(old(State()).maps, kind, oid))
    {
      match kind {
        case Extent => loaded := loaded + {oid};
        case DeviceQueue => seeded := seeded + {oid};
        case _ =>
      }
    }

    /** An object with a payload beside the table: an extent's data frame or a seeded queue. */
    method CreateWithPayload(kind: Kind, backed: bool) returns (r: Option<nat>)
      requires Formed()
      modifies this`loaded, this`seeded, metas, tables
      ensures Made(State(), r) == CreateBacked(old(State()), kind, backed)
    {
      hide Create, Ceiling, Backed;
      ghost var k := State();
      ghost var k1 := if backed && FreeObject(k.objs, 0).Some? then k.(maps := Backed(k.maps, kind, FreeObject(k.objs, 0).value)) else k;
      CreateByParts(k1, kind);
      var oid := NewMeta(kind);
      if oid.None? {
        return None;
      }
      if backed {
        KeepPayload(kind, oid.value);
      }
      r := MintRoot(oid.value, kind);
    }

    /** Copies a capability with a subset of its rights into another domain's table. */
    method DelegateTo(src: nat, cptr: nat, mask: Rights, badge: U16, dst: nat) returns (r: Result<nat>)
      requires Formed() && src < 6 && dst < 6
      modifies tables
      ensures match DelegateCap(old(tables[src]), metas[..], cptr, mask, badge, old(tables[dst]))
              case Failure(st) => r == Failure(st) && tables[..] == old(tables[..])
              case Success(t) => r == Success(t.1) && tables[..] == old(tables[..])[dst := t.0]
    {
      if cptr >= CAP_TABLE_SLOTS || tables[src][cptr].None? {
        return Failure(ErrBadCPtr);
      }
      var e := tables[src][cptr].value;
      if Delegate !in e.rights {
        return Failure(ErrRights);
      }
      var live := Liveness(metas[..], e);
      if live != Ok {
        return Failure(live);
      }
      var slot := FindSlot(tables[dst]);
      if slot.None? {
        return Failure(ErrBadCPtr);
      }
      tables[dst] := tables[dst][slot.value := Some(CapEntry(e.objectId, e.rights * mask, e.epoch, e.kind, badge))];
      assert tables[..] == old(tables[..])[dst := tables[dst]];
      r := Success(slot.value);
    }

    method GrantFromRoot(dst: nat, cptr: nat, mask: Rights, badge: U16) returns (r: Option<nat>)
      requires Formed()
      modifies tables
      ensures Made(State(), r) == DelegateFromRoot(old(State()), dst, cptr, mask, badge)
    {
      if dst == 0 || dst >= MAX_DOMAINS {
        return None;
      }
      var d := DelegateTo(0, cptr, mask, badge, dst);
      r := if d.Success? then Some(d.value) else None;
    }

    /** Moves a capability: the source slot is cleared only after the copy has been made. */
    method MoveCap(src: nat, cptr: nat, dst: nat) returns (r: Result<nat>)
      requires Formed()
      modifies tables
      ensures match CapTransfer(old(State()), src, cptr, dst)
              case Failure(st) => r == Failure(st) && State() == old(State())
              case Success(t) => r == Success(t.1) && State() == old(State()).(caps := t.0)
    {
      if src == dst || src >= MAX_DOMAINS || dst >= MAX_DOMAINS {
        return Failure(ErrBadCPtr);
      }
      r := DelegateTo(src, cptr, ALL_RIGHTS, 0, dst);
      if r.Success? {
        ghost var mid := tables[..];
        tables[src] := tables[src][cptr := None];
        assert tables[..] == mid[src := mid[src][cptr := None]];
      }
    }

    // ---- endpoints ----

    /** The capability and message of a rendezvous; the channel is already idle and nobody woken yet. */
    method HandOver(sendDomain: nat, xfer: nat, recvDomain: nat, msg: nat) returns (sender: IpcResult, receiver: IpcResult)
      requires Formed()
      modifies tables
      ensures var x := Rendezvous(old(State()), sendDomain, xfer, recvDomain, msg);
              State() == old(State()).(caps := x.caps) && sender == x.sender && receiver == x.receiver
    {
      hide CapTransfer;
      var moved: Result<nat> := Success(CPTR_NONE);
      if xfer != CPTR_NONE {
        moved := MoveCap(sendDomain, xfer, recvDomain);
      }
      if moved.Success? {
        sender, receiver := IpcResult(Code(Ok), 0, CPTR_NONE), IpcResult(Code(Ok), msg, moved.value);
      } else {
        sender, receiver := Error(moved.status), Error(moved.status);
      }
    }

    method Send(domain: nat, oid: nat, msg: nat, xfer: nat, rights: Rights, now: nat) returns (r: Option<IpcResult>)
      requires Formed() && 0 < current < 5 && now < U64_MAX
      modifies this`current, this`curDomain, this`mode, tables, eps, tasks
      ensures Outcome(State(), r) == EpSend(old(State()), domain, oid, msg, xfer, rights, now)
    {
      hide Rendezvous, Dispatch;
      if oid >= OBJECT_TABLE_SIZE {
        return Some(Error(ErrBadCPtr));
      }
      if xfer != CPTR_NONE {
        if GrantCap !in rights {
          return Some(Error(ErrRights));
        }
        if xfer >= CAP_TABLE_SLOTS {
          return Some(Error(ErrBadCPtr));
        }
      }
      ghost var k := State();
      var ep := eps[oid];
      match ep.state {
        case RecvWait =>
          eps[oid] := ep.(state := EpIdle);
          assert eps[..] == k.eps[oid := ep.(state := EpIdle)];
          RendezvousIgnoresEndpoints(k, eps[..], domain, xfer, ep.peerDomain, msg);
          var sender, receiver := HandOver(domain, xfer, ep.peerDomain, msg);
          Wake(ep.peerTask, receiver);
          r := Some(sender);
        case SendWait =>
          r := Some(Error(ErrRights));
        case EpIdle =>
          eps[oid] := EpSlot(SendWait, current, domain, msg, xfer);
          assert eps[..] == k.eps[oid := EpSlot(SendWait, current, domain, msg, xfer)];
          ParkCurrent(Sending, oid, now);
          r := None;
      }
    }

    method Receive(domain: nat, oid: nat, now: nat) returns (r: Option<IpcResult>)
      requires Formed() && 0 < current < 5 && now < U64_MAX
      modifies this`current, this`curDomain, this`mode, tables, eps, tasks
      ensures Outcome(State(), r) == EpRecv(old(State()), domain, oid, now)
    {
      hide Rendezvous, Dispatch;
      if oid >= OBJECT_TABLE_SIZE {
        return Some(Error(ErrBadCPtr));
      }
      ghost var k := State();
      var ep := eps[oid];
      match ep.state {
        case SendWait =>
          eps[oid] := ep.(state := EpIdle);
          assert eps[..] == k.eps[oid := ep.(state := EpIdle)];
          RendezvousIgnoresEndpoints(k, eps[..], ep.peerDomain, ep.xfer, domain, ep.msg);
          var sender, receiver := HandOver(ep.peerDomain, ep.xfer, domain, ep.msg);
          Wake(ep.peerTask, sender);
          r := Some(receiver);
        case RecvWait =>
          r := Some(Error(ErrRights));
        case EpIdle =>
          eps[oid] := ep.(state := RecvWait, peerTask := current, peerDomain := domain);
          assert eps[..] == k.eps[oid := ep.(state := RecvWait, peerTask := current, peerDomain := domain)];
          ParkCurrent(Receiving, oid, now);
          r := None;
      }
    }

    // ---- mappings ----

    method RecordMap(d: nat, va: nat)
      requires Formed()
      modifies ledgers
      ensures ledgers[..] == if d < 6 then Recorded(old(ledgers[..]), d, va) else old(ledgers[..])
    {
      if d >= MAX_DOMAINS {
        return;
      }
      if |ledgers[d]| < MAX_MAPS_PER_DOMAIN {
        ledgers[d] := ledgers[d] + [va];
        assert ledgers[..] == old(ledgers[..])[d := ledgers[d]];
      }
    }

    /** Maps one page and records it. */
    method MapOne(d: nat, va: nat, noTable: set<nat>) returns (ok: bool)
      requires Formed() && d < 6
      modifies this`mapped, ledgers
      ensures match MapPage(old(State()).maps, d, va, noTable)
              case None => !ok && State() == old(State())
              case Some(m) => ok && State() == old(State()).(maps := m)
    {
      if va in mapped || va in noTable {
        return false;
      }
      mapped := mapped + {va};
      RecordMap(d, va);
      ok := true;
    }

    /** The loop over the queue's five pages; on a failure the pages mapped so far stay, and stay recorded. */
    method MapAll(d: nat, vas: seq<nat>, noTable: set<nat>) returns (ok: bool)
      requires Formed() && d < 6
      modifies this`mapped, ledgers
      ensures (State().maps, ok) == MapPages(old(State()).maps, d, vas, noTable)
      ensures State() == old(State()).(maps := State().maps)
    {
      hide MapPage;
      for i := 0 to |vas|
        invariant MapPages(old(State()).maps, d, vas, noTable) == MapPages(State().maps, d, vas[i..], noTable)
        invariant State() == old(State()).(maps := State().maps)
      {
        assert vas[i..][0] == vas[i] && vas[i..][1..] == vas[i + 1..];
        var mappedOne := MapOne(d, vas[i], noTable);
        if !mappedOne {
          return false;
        }
      }
      assert vas[|vas|..] == [];
      ok := true;
    }

    /** Unmaps the ledger's pages one by one and empties it. */
    method UnmapAll(d: nat)
      requires Formed() && d < 6
      modifies this`mapped, ledgers
      ensures State() == old(State()).(maps := TornDown(old(State()).maps, d))
    {
      var total := |ledgers[d]|;
      for j := 0 to total
        invariant ledgers[..] == old(ledgers[..]) && total == |ledgers[d]|
        invariant mapped == old(mapped) - Elements(ledgers[d][..j])
      {
        assert ledgers[d][..j + 1] == ledgers[d][..j] + [ledgers[d][j]];
        assert Elements(ledgers[d][..j + 1]) == Elements(ledgers[d][..j]) + {ledgers[d][j]};
        mapped := mapped - {ledgers[d][j]};
      }
      assert ledgers[d][..total] == ledgers[d];
      ledgers[d] := [];
      assert ledgers[..] == old(ledgers[..])[d := []];
    }

    // ---- death and restart ----

    method ReapDomain(d: nat, task: nat)
      requires Formed()
      modifies this`mapped, tables, eps, ledgers
      ensures State() == Reap(old(State()), d, task)
      ensures Reaped(old(State()), d, task, State())
    {
      ReapingIsExact(State(), d, task);
      hide Reaped;
      if d < MAX_DOMAINS {
        tables[d] := EmptyTable();
        assert tables[..] == old(tables[..])[d := EmptyTable()];
      }
      for i := 0 to OBJECT_TABLE_SIZE
        modifies eps
        invariant forall j :: 0 <= j < i ==> eps[j] == Scrubbed(old(eps[..]), task)[j]
        invariant forall j :: i <= j < OBJECT_TABLE_SIZE ==> eps[j] == old(eps[j])
      {
        if !eps[i].state.EpIdle? && eps[i].peerTask == task {
          eps[i] := EP_EMPTY;
        }
      }
      assert eps[..] == Scrubbed(old(eps[..]), task);
      if d < MAX_DOMAINS {
        UnmapAll(d);
      }
    }

    /** The supervisor: one restart off the budget, fresh capabilities, a fresh task. */
    method DomainDied(domain: nat, now: nat) returns (r: Option<nat>)
      requires Formed()
      modifies this`num, this`restarts, metas, tables, tasks
      ensures Made(State(), r) == OnDomainDeath(old(State()), domain, now)
    {
      hide Create, DelegateFromRoot, Admit;
      if domain != FAULT_DOMAIN || restarts == 0 {
        return None;
      }
      restarts := restarts - 1;
      var root := CreateRoot(Memory);
      var mem: Option<nat> := None;
      if root.Some? {
        mem := GrantFromRoot(FAULT_DOMAIN, root.value, {Invoke}, 0);
      }
      var time := CreateRoot(TimeSlice);
      if mem.None? || time.None? {
        return None;
      }
      r := AdmitTask(time.value, true, FAULT_DOMAIN, RESTART_PERIOD, RESTART_PERIOD, now);
    }

    /** Frees the running task's slot and takes its domain down. */
    method RemoveCurrent()
      requires Formed() && Shaped(State())
      modifies this`num, this`mapped, tables, eps, tasks, ledgers
      ensures State() == Removed(old(State()))
    {
      hide Scrubbed, TornDown;
      var cur := current;
      tasks[cur] := tasks[cur].(present := false);
      tasks[cur] := tasks[cur].(runnable := false);
      tasks[cur] := tasks[cur].(blocked := false);
      assert tasks[..] == old(tasks[..])[cur := old(tasks[..])[cur].(present := false, runnable := false, blocked := false)];
      if num > 0 {
        num := num - 1;
      }
      ReapDomain(tasks[cur].domain, cur);
    }

    method TerminateCurrent(now: nat)
      requires Formed() && Shaped(State()) && now < U64_MAX
      modifies this`num, this`current, this`curDomain, this`mode, this`mapped, this`restarts,
               metas, tables, eps, tasks, ledgers
      ensures State() == Terminate(old(State()), now)
      ensures Inv(old(State())) && Enabled(old(State()), Fault(now)) ==> Died(old(State()), now, State())
    {
      ghost var k := State();
      if Inv(k) && Enabled(k, Fault(now)) {
        FaultsAreExact(k, now);
      }
      var domain := tasks[current].domain;
      hide Dispatch, OnDomainDeath, Removed, Died, Inv;
      RemoveCurrent();
      var _ := DomainDied(domain, now);
      SwitchAway(now);
      assert State() == Terminate(k, now);
    }

    // ---- the system call ----

    method MapMethod(domain: nat, kind: Kind, oid: nat, op: nat, env: Environment) returns (r: IpcResult)
      requires Formed() && domain < 6
      modifies this`mapped, ledgers
      ensures (State().maps, r) == MapsAfter(old(State()).maps, domain, kind, oid, op, env)
      ensures State() == old(State()).(maps := State().maps)
    {
      hide MapPage, MapPages;
      if kind.Extent? && op == X_MAP && oid < OBJECT_TABLE_SIZE && oid in loaded {
        var ok := MapOne(domain, EXTENT_MAP_BASE, env.noTable);
        r := if ok then Answer(Ok, EXTENT_MAP_BASE) else Answer(ErrMethod, 0);
      } else if kind.DeviceQueue? && op == DQ_MAP && oid < OBJECT_TABLE_SIZE && oid in seeded {
        var ok := MapAll(domain, DQ_PAGES, env.noTable);
        r := if ok then Answer(Ok, DQ_BASE) else Answer(ErrMethod, 0);
      } else {
        r := MapsAfter(Maps(mapped, ledgers[..], loaded, seeded), domain, kind, oid, op, env).1;
      }
    }

    method CapInvoke(cptr: nat, op: nat, arg: nat, xfer: nat, env: Environment, now: nat) returns (r: Option<IpcResult>)
      requires Formed() && 0 < current < 5 && curDomain < 6 && now < U64_MAX
      modifies this`current, this`curDomain, this`mode, this`mapped, tables, eps, tasks, ledgers
      ensures Outcome(State(), r) == Syscall(old(State()), cptr, op, arg, xfer, env, now)
      ensures Answered(old(State()), Call(cptr, op, arg, xfer, env, now), State(), r)
    {
      SyscallAnswers(State(), cptr, op, arg, xfer, env, now);
      hide Answered;
      hide EpSend, EpRecv, MapsAfter, ExtraRight;
      var domain := curDomain;
      var st := InvokeCap(tables[domain], metas[..], cptr, {Invoke});
      if st != Ok {
        return Some(Error(st));
      }
      var e := Lookup(tables[domain], metas[..], cptr).value;
      if e.kind.Endpoint? && op == E_SEND {
        r := Send(domain, e.objectId, arg, xfer, e.rights, now);
      } else if e.kind.Endpoint? && op == E_RECV {
        r := Receive(domain, e.objectId, now);
      } else if xfer != CPTR_NONE {
        r := Some(Error(ErrMethod));
      } else if !(ExtraRight(e.kind, op) <= e.rights) {
        r := Some(Answer(ErrRights, 0));
      } else {
        var a := MapMethod(domain, e.kind, e.objectId, op, env);
        r := Some(a);
      }
    }

    /** The kernel's own invocation in the table of a domain. */
    method InvokeIn(domain: nat, cptr: nat, op: nat, env: Environment) returns (r: IpcResult)
      requires Formed()
      modifies this`mapped, ledgers
      ensures Outcome(State(), Some(r)) == InvokeDirect(old(State()), domain, cptr, op, env)
      ensures Answered(old(State()), Direct(domain, cptr, op, env), State(), Some(r))
    {
      DirectAnswers(State(), domain, cptr, op, env);
      hide Answered;
      hide MapsAfter, ExtraRight;
      var d := if domain < MAX_DOMAINS then domain else MAX_DOMAINS - 1;
      var st := InvokeCap(tables[d], metas[..], cptr, {Invoke});
      if st != Ok {
        return Answer(st, 0);
      }
      var e := Lookup(tables[d], metas[..], cptr).value;
      if !(ExtraRight(e.kind, op) <= e.rights) {
        r := Answer(ErrRights, 0);
      } else {
        r := MapMethod(d, e.kind, e.objectId, op, env);
      }
    }

    /** The staged result of a task whose partner has come: what their rendezvous decided. */
    method TakeResult(task: nat, ghost h: History) returns (r: IpcResult)
      requires Formed() && HistoryOk(h, State())
      ensures task < 5 && h.open[task].Some? && !tasks[..][task].blocked ==> IsMatchedResult(h, task, r)
      ensures task < 5 ==> r == tasks[..][task].ipc
      ensures task >= 5 ==> r == IpcResult(0, 0, 0)
    {
      hide MatchesOk, ReturnsOk, StagedOk;
      if task >= MAX_TASKS {
        return IpcResult(0, 0, 0);
      }
      assert CallOk(h, task, tasks[..][task], IsRunning(State(), task));
      r := tasks[task].ipc;
    }

    /** The end of a blocking call, in the task that resumed inside it. */
    method FinishCall(ghost h: History) returns (r: IpcResult)
      requires Formed() && Inv(State()) && HistoryOk(h, State()) && mode.Resuming?
      modifies this`mode
      ensures State() == old(State()).(mode := Running) && r == State().tasks[current].ipc
      ensures IsMatchedResult(h, current, r)
    {
      assert CallOk(h, current, tasks[..][current], false);
      hide HistoryOk, CountPresent, Paired;
      r := TakeResult(current, h);
      mode := Running;
    }

    method RegisterFaulter(budget: nat)
      requires Formed()
      modifies this`restarts
      ensures State() == old(State()).(restarts := budget)
    {
      restarts := budget;
    }

    // ---- every way into the kernel ----

    /** Carries out one event. */
    method Perform(e: Event, ghost h: History) returns (r: Option<IpcResult>)
      requires Formed() && Inv(State()) && HistoryOk(h, State()) && Enabled(State(), e)
      modifies this`num, this`current, this`curDomain, this`mode, this`mapped, this`loaded, this`seeded, this`restarts,
               metas, tables, eps, tasks, ledgers
      ensures State() == Next(old(State()), e)
      ensures e.Call? ==> r == Told(old(State()), e)
      ensures e.Direct? ==> r == InvokeDirect(old(State()), e.domain, e.cptr, e.op, e.env).result
      ensures e.Resume? ==> r.Some? && IsMatchedResult(h, old(current), r.value)
    {
      hide InvokeDirect, Tick, Syscall, Terminate, CreateBacked, DelegateFromRoot, RevokeObject, Admit, HistoryOk, SchedOk, Paired;
      r := None;
      match e {
        case TimerTick(now) => ScheduleTick(now);
        case Call(cptr, op, arg, xfer, env, now) => r := CapInvoke(cptr, op, arg, xfer, env, now);
        case Direct(domain, cptr, op, env) =>
          var x := InvokeIn(domain, cptr, op, env);
          r := Some(x);
        case Resume =>
          var x := FinishCall(h);
          r := Some(x);
        case Fault(now) => TerminateCurrent(now);
        case NewObject(kind, backed) => var _ := CreateWithPayload(kind, backed);
        case Grant(dst, cptr, mask, badge) => var _ := GrantFromRoot(dst, cptr, mask, badge);
        case RevokeAll(oid) => var _ := RevokeId(oid);
        case AdmitTask(cptr, user, domain, period, relative, now) =>
          var _ := AdmitTask(cptr, user, domain, period, relative, now);
        case Register(budget) => RegisterFaulter(budget);
      }
    }

    /** Enters the step just made into the run. */
    ghost method Note(e: Event, k: Kernel)
      requires Formed() && IsLoggedRun(ks, es, hs) && IsTracedRun(ks, es, bs) && ks[|es|] == k
      requires Shaped(k) && Enabled(k, e) && State() == Next(k, e)
      modifies this`ks, this`es, this`hs, this`bs
      ensures Valid() && Inv(State())
      ensures ks == old(ks) + [State()] && es == old(es) + [e]
    {
      hide Inv, Next, IsLoggedRun, IsTracedRun, Enabled, Shaped;
      ghost var h, b := RunExtended(ks, es, hs, bs, e, State());
      ks, hs, bs, es := ks + [State()], hs + [h], bs + [b], es + [e];
    }

    /**
     One entry into the kernel, whichever it is, takes the statics one step further along a run; every
     invariant and theorem about runs therefore holds of them before and after it.
     */
    method Enter(e: Event) returns (r: Option<IpcResult>)
      requires Valid() && Enabled(State(), e)
      modifies this, metas, tables, eps, tasks, ledgers
      ensures Valid() && Inv(State()) && Shaped(old(State()))
      ensures State() == Next(old(State()), e)
      ensures ks == old(ks) + [State()] && es == old(es) + [e]
      ensures e.Call? ==> r == Told(old(State()), e)
      ensures e.Direct? ==> r == InvokeDirect(old(State()), e.domain, e.cptr, e.op, e.env).result
      ensures e.Resume? ==> r.Some? && IsMatchedResult(old(hs[|es|]), old(current), r.value)
    {
      ghost var k := State();
      InvAlongRun(ks, es, |es|);
      HistoryAlongRun(ks, es, hs, |es|);
      assert Shaped(k);
      hide Inv, HistoryOk, Next, IsLoggedRun, IsTracedRun, Enabled, Told, Shaped, IsMatchedResult, InvokeDirect;
      r := Perform(e, hs[|es|]);
      Note(e, k);
    }
  }

  lemma RendezvousIgnoresEndpoints(k: Kernel, eps: Endpoints, src: nat, xfer: nat, dst: nat, msg: nat)
    ensures Rendezvous(k.(eps := eps), src, xfer, dst, msg) == Rendezvous(k, src, xfer, dst, msg)
  {
  }
}
