/**
 Death and restart over whole runs: the restart budget, what exactly a restart needs and leaves, and
 the completeness of the mapping ledgers.
 */
module Supervision {
  import opened Machine
  import opened CapCore
  import opened Sched
  import opened Ledger
  import opened KernelModel
  import opened Parking

  // ---- mapping ledgers ----

  lemma MethodKeepsLedgers(m: Maps, d: nat, kind: Kind, oid: nat, op: nat, env: Environment)
    requires Complete(m) && d < 6
    ensures Complete(MapsAfter(m, d, kind, oid, op, env).0)
  {
    hide Complete, MapPage, MapPages;
    if MapPage(m, d, EXTENT_MAP_BASE, env.noTable).Some? {
      MapPageKeepsComplete(m, d, EXTENT_MAP_BASE, env.noTable);
    }
    assert Elements(DQ_PAGES) <= WINDOW;
    MapPagesKeepsComplete(m, d, DQ_PAGES, env.noTable);
  }

  lemma CallKeepsLedgers(k: Kernel, e: Event)
    requires Inv(k) && Enabled(k, e) && e.Call? && Complete(k.maps)
    ensures Complete(Next(k, e).maps)
  {
    hide Rendezvous, Rolled, PickNext, SchedOk, Paired, Complete, Liveness, MapsAfter, ExtraRight;
    var c := Lookup(k.caps[k.curDomain], k.objs, e.cptr);
    if c.Success? {
      MethodKeepsLedgers(k.maps, k.curDomain, c.value.kind, c.value.objectId, e.op, e.env);
    }
  }

  lemma DirectKeepsLedgers(k: Kernel, domain: nat, cptr: nat, op: nat, env: Environment)
    requires Complete(k.maps)
    ensures Complete(InvokeDirect(k, domain, cptr, op, env).k.maps)
  {
    hide Complete, MapsAfter, ExtraRight;
    var d := Min(domain, MAX_DOMAINS - 1);
    var c := Lookup(k.caps[d], k.objs, cptr);
    if c.Success? {
      MethodKeepsLedgers(k.maps, d, c.value.kind, c.value.objectId, op, env);
    }
  }

  lemma FaultMaps(k: Kernel, now: nat)
    requires Inv(k)
    ensures Terminate(k, now).maps == TornDown(k.maps, k.tasks[k.current].domain)
  {
    hide Rolled, PickNext, SchedOk, Paired, TornDown, Scrubbed, Regrant, InvokeCap;
    RegrantKeepsMaps(Removed(k).(restarts := if k.restarts > 0 then k.restarts - 1 else 0));
  }

  lemma RegrantKeepsMaps(k: Kernel)
    ensures Regrant(k).k.maps == k.maps && Regrant(k).k.restarts == k.restarts
  {
    hide CreateObject, MintCap, DelegateCap;
  }

  lemma StepKeepsLedgers(k: Kernel, e: Event)
    requires Inv(k) && Enabled(k, e) && Complete(k.maps)
    ensures Complete(Next(k, e).maps)
  {
    hide Rolled, PickNext, SchedOk, Paired, Syscall, Terminate, InvokeCap, CreateObject, MintCap, DelegateCap, InvokeDirect;
    match e
    case Call(_, _, _, _, _, _) => CallKeepsLedgers(k, e);
    case Direct(domain, cptr, op, env) => DirectKeepsLedgers(k, domain, cptr, op, env);
    case Fault(now) => FaultMaps(k, now); TearDownKeepsComplete(k.maps, k.tasks[k.current].domain);
    case _ =>
  }

  /**
   The ledgers are complete. In every reachable state the window pages mapped are the disjoint union
   of the domains' ledgers, no ledger is ever full, so no mapping goes unrecorded, also when a
   mapping call fails half way.
   */
  lemma {:induction false} LedgersComplete(ks: seq<Kernel>, es: seq<Event>, i: nat)
    requires IsRun(ks, es) && i < |ks|
    ensures Complete(ks[i].maps)
    ensures forall d :: 0 <= d < 6 ==> |ks[i].maps.ledgers[d]| <= 6 < MAX_MAPS_PER_DOMAIN
  {
    hide Inv, Next, Complete;
    if i == 0 {
      EmptyIsComplete(ks[0]);
    } else {
      LedgersComplete(ks, es, i - 1);
      InvAlongRun(ks, es, i - 1);
      StepKeepsLedgers(ks[i - 1], es[i - 1]);
    }
    forall d: nat | d < 6 ensures |ks[i].maps.ledgers[d]| <= 6 { LedgerNeverFull(ks[i].maps, d); }
  }

  lemma EmptyIsComplete(k: Kernel)
    requires Initial(k)
    ensures Complete(k.maps)
  {
  }

  /** After a task dies, none of the pages its domain had mapped is mapped, and all others still are. */
  lemma DeathUnmapsEverything(ks: seq<Kernel>, es: seq<Event>, i: nat)
    requires IsRun(ks, es) && i < |es| && es[i].Fault?
    ensures var d := ks[i].tasks[ks[i].current].domain;
            && (forall va :: va in ks[i].maps.ledgers[d] ==> va !in ks[i + 1].maps.mapped)
            && ks[i + 1].maps.mapped == ks[i].maps.mapped - Elements(ks[i].maps.ledgers[d])
            && ks[i + 1].maps.ledgers[d] == []
  {
    hide Inv, Initial, Terminate, Complete;
    InvAlongRun(ks, es, i);
    LedgersComplete(ks, es, i);
    FaultMaps(ks[i], es[i].now);
    TearDownKeepsComplete(ks[i].maps, ks[i].tasks[ks[i].current].domain);
  }

  // ---- the restart budget ----

  /** A fault that ends in a fresh instance. */
  predicate Restarts(k: Kernel, e: Event)
    requires Shaped(k)
  {
    e.Fault? && OnDomainDeath(Removed(k), k.tasks[k.current].domain, e.now).index.Some?
  }

  ghost function CountRestarts(ks: seq<Kernel>, es: seq<Event>, i: nat): nat
    requires IsRun(ks, es) && i < |ks|
  {
    if i == 0 then 0 else CountRestarts(ks, es, i - 1) + One(Restarts(ks[i - 1], es[i - 1]))
  }

  ghost function Budgets(es: seq<Event>, i: nat): nat
    requires i <= |es|
  {
    if i == 0 then 0 else Budgets(es, i - 1) + if es[i - 1].Register? then es[i - 1].budget else 0
  }

  lemma BudgetStep(k: Kernel, e: Event)
    requires Inv(k) && Enabled(k, e)
    ensures !e.Register? ==> Next(k, e).restarts + One(Restarts(k, e)) <= k.restarts
  {
    hide Rolled, PickNext, SchedOk, Paired, Rendezvous, MapsAfter, ExtraRight, InvokeCap, CreateObject, MintCap, DelegateCap, Regrant, Scrubbed, TornDown;
    if k.restarts > 0 {
      RegrantKeepsMaps(Removed(k).(restarts := k.restarts - 1));
    }
  }

  /** Over any run the supervised domain is restarted at most as often as was budgeted. */
  lemma {:induction false} RestartsWithinBudget(ks: seq<Kernel>, es: seq<Event>, i: nat)
    requires IsRun(ks, es) && i < |ks|
    ensures CountRestarts(ks, es, i) + ks[i].restarts <= Budgets(es, i)
  {
    hide Inv, Next, Restarts;
    if i == 0 {
      assert ks[0].restarts == 0;
    } else {
      RestartsWithinBudget(ks, es, i - 1);
      InvAlongRun(ks, es, i - 1);
      RegisterStep(ks[i - 1], es[i - 1]);
      BudgetStep(ks[i - 1], es[i - 1]);
    }
  }

  lemma RegisterStep(k: Kernel, e: Event)
    requires Inv(k) && Enabled(k, e)
    ensures e.Register? ==> Next(k, e) == k.(restarts := e.budget) && !Restarts(k, e)
  {
  }

  // ---- what a restart needs ----

  ghost predicate OneFreeObject(objs: Objects) {
    exists i :: 0 <= i < 1024 && !objs[i].present
  }

  ghost predicate TwoFreeObjects(objs: Objects) {
    exists i, j :: 0 <= i < j < 1024 && !objs[i].present && !objs[j].present
  }

  ghost predicate OneFreeSlot(t: Table) {
    exists i :: 0 <= i < 256 && t[i].None?
  }

  ghost predicate TwoFreeSlots(t: Table) {
    exists i, j :: 0 <= i < j < 256 && t[i].None? && t[j].None?
  }

  /** Creation succeeds exactly with a free object and a free root slot, and uses up one of each. */
  lemma CreationNeeds(k: Kernel, kind: Kind)
    ensures var r := Create(k, kind);
            && (r.index.Some? <==> OneFreeObject(k.objs) && OneFreeSlot(k.caps[0]))
            && (r.index.Some? ==>
                  && (OneFreeObject(r.k.objs) <==> TwoFreeObjects(k.objs))
                  && (OneFreeSlot(r.k.caps[0]) <==> TwoFreeSlots(k.caps[0]))
                  && (forall d :: 1 <= d < 6 ==> r.k.caps[d] == k.caps[d])
                  && r.index.value < 256
                  && exists oid :: 0 <= oid < 1024
                       && r.k.caps[0][r.index.value] == Some(CapEntry(oid, Ceiling(kind), 0, kind, 0))
                       && r.k.objs[oid] == Meta(kind, 0, true))
            && (r.index.None? ==> r.k.caps == k.caps)
  {
    hide Ceiling, OneFreeObject, TwoFreeObjects, OneFreeSlot, TwoFreeSlots;
    FreeObjectFound(k.objs);
    FreeSlotFound(k.caps[0]);
    if FreeObject(k.objs, 0).Some? {
      UseOneObject(k.objs, Meta(kind, 0, true));
      if FreeSlot(k.caps[0], 0).Some? {
        UseOneSlot(k.caps[0], CapEntry(FreeObject(k.objs, 0).value, Ceiling(kind), 0, kind, 0));
      }
    }
  }

  lemma FreeObjectFound(objs: Objects)
    ensures FreeObject(objs, 0).Some? <==> OneFreeObject(objs)
  {
  }

  lemma FreeSlotFound(t: Table)
    ensures FreeSlot(t, 0).Some? <==> OneFreeSlot(t)
  {
  }

  lemma UseOneObject(objs: Objects, m: Meta)
    requires FreeObject(objs, 0).Some? && m.present
    ensures OneFreeObject(objs[FreeObject(objs, 0).value := m]) <==> TwoFreeObjects(objs)
  {
    var i := FreeObject(objs, 0).value;
    var objs' := objs[i := m];
    if TwoFreeObjects(objs) {
      var a, b :| 0 <= a < b < 1024 && !objs[a].present && !objs[b].present;
      assert !objs'[if a == i then b else a].present;
    }
    if OneFreeObject(objs') {
      var a :| 0 <= a < 1024 && !objs'[a].present;
      assert i < a && !objs[i].present && !objs[a].present;
    }
  }

  lemma UseOneSlot(t: Table, x: CapEntry)
    requires FreeSlot(t, 0).Some?
    ensures OneFreeSlot(t[FreeSlot(t, 0).value := Some(x)]) <==> TwoFreeSlots(t)
  {
    var i := FreeSlot(t, 0).value;
    var t' := t[i := Some(x)];
    if TwoFreeSlots(t) {
      var a, b :| 0 <= a < b < 256 && t[a].None? && t[b].None?;
      assert t'[if a == i then b else a].None?;
    }
    if OneFreeSlot(t') {
      var a :| 0 <= a < 256 && t'[a].None?;
      assert i < a && t[i].None? && t[a].None?;
    }
  }

  lemma TwoMeansOne(objs: Objects, t: Table)
    ensures TwoFreeObjects(objs) ==> OneFreeObject(objs)
    ensures TwoFreeSlots(t) ==> OneFreeSlot(t)
  {
  }

  /** The capability of a fresh object of this kind, in this slot, with these rights. */
  ghost predicate FreshCap(k: Kernel, d: nat, slot: nat, kind: Kind, rights: Rights)
    requires d < 6
  {
    && slot < 256
    && exists oid :: 0 <= oid < 1024 && k.caps[d][slot] == Some(CapEntry(oid, rights, 0, kind, 0))
                     && k.objs[oid] == Meta(kind, 0, true)
  }

  /** The table holds one INVOKE-only Memory capability in slot 0 and nothing else. */
  ghost predicate FreshInstance(k: Kernel, d: nat)
    requires d < 6
  {
    FreshCap(k, d, 0, Memory, {Invoke}) && forall c :: 1 <= c < 256 ==> k.caps[d][c].None?
  }

  lemma MemoryDelegated(k: Kernel, slot: nat)
    requires FreshCap(k, 0, slot, Memory, Ceiling(Memory)) && k.caps[FAULT_DOMAIN] == EmptyTable()
    ensures var r := DelegateFromRoot(k, FAULT_DOMAIN, slot, {Invoke}, 0);
            && r.index == Some(0) && FreshInstance(r.k, FAULT_DOMAIN)
            && r.k.objs == k.objs && r.k.caps[0] == k.caps[0]
  {
    assert Ceiling(Memory) * {Invoke} == {Invoke};
    assert FreeSlot(EmptyTable(), 0) == Some(0);
  }

  lemma InstanceSurvivesCreation(k: Kernel, kind: Kind)
    requires FreshInstance(k, FAULT_DOMAIN)
    ensures FreshInstance(Create(k, kind).k, FAULT_DOMAIN)
  {
    hide Ceiling;
  }

  lemma RegrantNeeds(k: Kernel)
    requires k.caps[FAULT_DOMAIN] == EmptyTable()
    ensures var g := Regrant(k);
            && (g.memory.Some? && g.time.Some? <==> TwoFreeObjects(k.objs) && TwoFreeSlots(k.caps[0]))
            && (g.memory.Some? && g.time.Some? ==>
                  FreshInstance(g.k, FAULT_DOMAIN) && FreshCap(g.k, 0, g.time.value, TimeSlice, {Invoke}))
  {
    hide Create, DelegateFromRoot, TwoFreeObjects, TwoFreeSlots, OneFreeObject, OneFreeSlot, FreshInstance;
    TwoMeansOne(k.objs, k.caps[0]);
    CreationNeeds(k, Memory);
    var root := Create(k, Memory);
    if root.index.Some? {
      MemoryDelegated(root.k, root.index.value);
      var mem := DelegateFromRoot(root.k, FAULT_DOMAIN, root.index.value, {Invoke}, 0).k;
      CreationNeeds(mem, TimeSlice);
      InstanceSurvivesCreation(mem, TimeSlice);
      assert Ceiling(TimeSlice) == {Invoke};
    }
  }

  /**
   A restart of the supervised domain succeeds exactly when budget remains and two objects and two
   root slots are free: a task slot and the admission are never what it fails for. The new instance
   starts with one INVOKE-only Memory capability in slot 0 and nothing else.
   */
  lemma RestartSucceedsExactly(k: Kernel, now: nat)
    requires Inv(k) && k.current != 0 && k.tasks[k.current].user && k.tasks[k.current].domain == FAULT_DOMAIN
    ensures var r := OnDomainDeath(Removed(k), FAULT_DOMAIN, now);
            && (r.index.Some? <==> k.restarts > 0 && TwoFreeObjects(k.objs) && TwoFreeSlots(k.caps[0]))
            && (r.index.Some? ==>
                  && FreshInstance(r.k, FAULT_DOMAIN)
                  && 1 <= r.index.value < 5
                  && var t := r.k.tasks[r.index.value];
                  t.present && t.user && t.domain == FAULT_DOMAIN && Eligible(t) && t.period == RESTART_PERIOD)
  {
    hide Regrant, Scrubbed, TornDown, SchedOk, Paired, TwoFreeObjects, TwoFreeSlots, FreshInstance;
    var k1 := Removed(k);
    assert k1.objs == k.objs && k1.caps[0] == k.caps[0] && k1.caps[FAULT_DOMAIN] == EmptyTable();
    if k.restarts > 0 {
      var k2 := k1.(restarts := k1.restarts - 1);
      RegrantNeeds(k2);
      RegrantKeepsTasks(k2);
      var g := Regrant(k2);
      assert !g.k.tasks[k.current].present;
      if g.time.Some? && g.memory.Some? {
        assert InvokeCap(g.k.caps[0], g.k.objs, g.time.value, {Invoke}) == Ok;
        AdmitKeepsInstance(g.k, g.time.value, now);
      }
    }
  }

  lemma AdmitKeepsInstance(k: Kernel, cptr: nat, now: nat)
    requires FreshInstance(k, FAULT_DOMAIN)
    ensures FreshInstance(Admit(k, cptr, true, FAULT_DOMAIN, RESTART_PERIOD, RESTART_PERIOD, now).k, FAULT_DOMAIN)
  {
  }
}
