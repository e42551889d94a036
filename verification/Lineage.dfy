/**
 Where capabilities come from. A log records every root mint and every delegation or move, each
 with its parent; every capability held anywhere is traced to its record. The bound on authority
 and the exactness of revocation over whole runs follow from the log.
 */
module Lineage {
  import opened Machine
  import opened CapCore
  import opened Sched
  import opened KernelModel
  import opened Parking
  import opened Messages

  /** A mint in the root domain, after `born` revocations of its object; or a copy of an earlier record's capability. */
  datatype Record =
    | Minted(cap: CapEntry, born: nat)
    | Derived(cap: CapEntry, parent: nat, dst: nat)

  type Counts = s: seq<nat> | |s| == 1024 witness seq(1024, _ => 0)

  /** `tags` gives the record of the capability in each slot, `revs` how often each object was revoked. */
  datatype Ledgerbook = Ledgerbook(log: seq<Record>, tags: map<(nat, nat), nat>, revs: Counts)

  function Owner(r: Record): nat {
    if r.Minted? then 0 else r.dst
  }

  // ---- what the log promises ----

  /** A copy names the same object at the same epoch, loses no check, and comes from a delegable parent. */
  ghost predicate LinkOk(parent: CapEntry, child: CapEntry) {
    && child == parent.(rights := child.rights, badge := child.badge)
    && child.rights <= parent.rights
    && Delegate in parent.rights
  }

  ghost predicate RecordOk(b: Ledgerbook, objs: Objects, i: nat)
    requires i < |b.log|
  {
    var cap := b.log[i].cap;
    && cap.objectId < 1024 && objs[cap.objectId].present && objs[cap.objectId].kind == cap.kind
    && match b.log[i]
       case Minted(_, born) =>
         cap.rights == Ceiling(cap.kind) && cap.epoch == born % TWO_32 && born <= b.revs[cap.objectId]
       case Derived(_, parent, _) => parent < i && LinkOk(b.log[parent].cap, cap)
  }

  ghost predicate LogOk(b: Ledgerbook, objs: Objects) {
    forall i :: 0 <= i < |b.log| ==> RecordOk(b, objs, i)
  }

  /** Every capability held is the one its record made, in the domain the record made it for. */
  ghost predicate SlotOk(b: Ledgerbook, d: nat, c: nat, cap: CapEntry)
  {
    && (d, c) in b.tags && b.tags[(d, c)] < |b.log|
    && b.log[b.tags[(d, c)]].cap == cap && Owner(b.log[b.tags[(d, c)]]) == d
  }

  ghost predicate TagsOk(b: Ledgerbook, caps: Tables) {
    forall d, c :: 0 <= d < 6 && 0 <= c < 256 && caps[d][c].Some? ==> SlotOk(b, d, c, caps[d][c].value)
  }

  ghost predicate EpochsOk(b: Ledgerbook, objs: Objects) {
    forall o :: 0 <= o < 1024 ==>
      objs[o].epoch == b.revs[o] % TWO_32 && (!objs[o].present ==> b.revs[o] == 0)
  }

  /** Each object is minted at most once, when it is created. */
  ghost predicate OneMint(b: Ledgerbook) {
    forall i, j :: 0 <= i < j < |b.log| && b.log[i].Minted? && b.log[j].Minted? ==>
      b.log[i].cap.objectId != b.log[j].cap.objectId
  }

  ghost predicate Traced(b: Ledgerbook, objs: Objects, caps: Tables) {
    LogOk(b, objs) && TagsOk(b, caps) && EpochsOk(b, objs) && OneMint(b)
  }

  // ---- how the log grows ----

  /** A slot keeps its capability and its record, or gets a capability with a new record. */
  ghost predicate OnlyNew(b: Ledgerbook, caps: Tables, b': Ledgerbook, caps': Tables) {
    && b.log <= b'.log
    && (forall d, c :: 0 <= d < 6 && 0 <= c < 256 && caps'[d][c].Some? ==>
          || (caps'[d][c] == caps[d][c] && (d, c) in b.tags && (d, c) in b'.tags && b'.tags[(d, c)] == b.tags[(d, c)])
          || ((d, c) in b'.tags && b'.tags[(d, c)] >= |b.log|))
  }

  /** The next book traces the next tables, and every change of a slot is in its log. */
  ghost predicate Follows(b: Ledgerbook, caps: Tables, b': Ledgerbook, objs': Objects, caps': Tables) {
    Traced(b', objs', caps') && OnlyNew(b, caps, b', caps')
  }

  lemma Unchanged(b: Ledgerbook, objs: Objects, caps: Tables)
    requires Traced(b, objs, caps)
    ensures Follows(b, caps, b, objs, caps)
  {
  }

  lemma FollowsOn(b: Ledgerbook, caps: Tables, b1: Ledgerbook, objs1: Objects, caps1: Tables,
                  b2: Ledgerbook, objs2: Objects, caps2: Tables)
    requires Follows(b, caps, b1, objs1, caps1) && Follows(b1, caps1, b2, objs2, caps2)
    ensures Follows(b, caps, b2, objs2, caps2)
  {
  }

  function Entered(b: Ledgerbook, r: Record, d: nat, c: nat): Ledgerbook
  {
    b.(log := b.log + [r], tags := b.tags[(d, c) := |b.log|])
  }

  /** An entry at a slot that now holds its capability. */
  lemma EnteredKeeps(b: Ledgerbook, objs: Objects, caps: Tables, r: Record, d: nat, c: nat)
    requires Traced(b, objs, caps) && d < 6 && c < 256 && Owner(r) == d
    requires var b' := Entered(b, r, d, c); RecordOk(b', objs, |b.log|)
    requires r.Minted? ==> forall i :: 0 <= i < |b.log| ==> b.log[i].cap.objectId != r.cap.objectId
    ensures Follows(b, caps, Entered(b, r, d, c), objs, caps[d := caps[d][c := Some(r.cap)]])
  {
    var b' := Entered(b, r, d, c);
    Unchanged(b, objs, caps);
    forall i | 0 <= i < |b.log| ensures RecordOk(b', objs, i) {
      assert RecordOk(b, objs, i);
      assert b'.log[i] == b.log[i];
      if b.log[i].Derived? { assert b'.log[b.log[i].parent] == b.log[b.log[i].parent]; }
    }
    var caps' := caps[d := caps[d][c := Some(r.cap)]];
    forall e: nat, j: nat | e < 6 && j < 256 && caps'[e][j].Some?
      ensures SlotOk(b', e, j, caps'[e][j].value)
    {
      if e != d || j != c { assert SlotOk(b, e, j, caps[e][j].value); }
    }
  }

  /** Clearing a slot needs no entry. */
  lemma ClearedKeeps(b: Ledgerbook, objs: Objects, caps: Tables, d: nat, t: Table)
    requires Traced(b, objs, caps) && d < 6
    requires forall c :: 0 <= c < 256 && t[c].Some? ==> t[c] == caps[d][c]
    ensures Follows(b, caps, b, objs, caps[d := t])
  {
  }

  /** A new object changes nothing about those there are. */
  lemma NewObjectKeeps(b: Ledgerbook, objs: Objects, caps: Tables, oid: nat, kind: Kind)
    requires Traced(b, objs, caps) && oid < 1024 && !objs[oid].present
    ensures Follows(b, caps, b, objs[oid := Meta(kind, 0, true)], caps)
  {
    Unchanged(b, objs, caps);
    hide TagsOk, OnlyNew;
    var objs' := objs[oid := Meta(kind, 0, true)];
    forall i | 0 <= i < |b.log| ensures RecordOk(b, objs', i) { assert RecordOk(b, objs, i); }
  }

  // ---- the operations that make capabilities ----

  function CreateBook(b: Ledgerbook, k: Kernel, kind: Kind): Ledgerbook {
    var oid, r := FreeObject(k.objs, 0), Create(k, kind);
    if oid.None? || r.index.None? then b
    else Entered(b, Minted(CapEntry(oid.value, Ceiling(kind), 0, kind, 0), b.revs[oid.value]), 0, r.index.value)
  }

  lemma CreateTraced(b: Ledgerbook, k: Kernel, kind: Kind)
    requires Traced(b, k.objs, k.caps)
    ensures Follows(b, k.caps, CreateBook(b, k, kind), Create(k, kind).k.objs, Create(k, kind).k.caps)
  {
    hide Traced, OnlyNew, Ceiling;
    Unchanged(b, k.objs, k.caps);
    var oid, r := FreeObject(k.objs, 0), Create(k, kind);
    if oid.Some? {
      NewObjectKeeps(b, k.objs, k.caps, oid.value, kind);
      if r.index.Some? {
        AbsentIsUnknown(b, k.objs, k.caps, oid.value);
        var m := Minted(CapEntry(oid.value, Ceiling(kind), 0, kind, 0), b.revs[oid.value]);
        EnteredKeeps(b, r.k.objs, k.caps, m, 0, r.index.value);
        FollowsOn(b, k.caps, b, r.k.objs, k.caps, Entered(b, m, 0, r.index.value), r.k.objs, r.k.caps);
      }
    }
  }

  /** An object that does not exist yet has no records and no revocations. */
  lemma AbsentIsUnknown(b: Ledgerbook, objs: Objects, caps: Tables, o: nat)
    requires Traced(b, objs, caps) && o < 1024 && !objs[o].present
    ensures b.revs[o] == 0
    ensures forall i :: 0 <= i < |b.log| ==> b.log[i].cap.objectId != o
  {
    forall i | 0 <= i < |b.log| ensures b.log[i].cap.objectId != o { assert RecordOk(b, objs, i); }
  }

  /** The record of a copy of the capability in slot `cptr` of `src`. */
  function CopyOf(b: Ledgerbook, k: Kernel, src: nat, cptr: nat, mask: Rights, badge: U16, dst: nat): Record
    requires src < 6 && cptr < 256 && k.caps[src][cptr].Some?
  {
    Derived(Child(k.caps[src][cptr].value, mask, badge), if (src, cptr) in b.tags then b.tags[(src, cptr)] else 0, dst)
  }

  /** A successful delegation enters a sound copy. */
  lemma CopyTraced(b: Ledgerbook, k: Kernel, src: nat, cptr: nat, mask: Rights, badge: U16, dst: nat)
    requires Traced(b, k.objs, k.caps) && src < 6 && dst < 6
    requires DelegateCap(k.caps[src], k.objs, cptr, mask, badge, k.caps[dst]).Success?
    ensures var t := DelegateCap(k.caps[src], k.objs, cptr, mask, badge, k.caps[dst]).value;
            Follows(b, k.caps, Entered(b, CopyOf(b, k, src, cptr, mask, badge, dst), dst, t.1), k.objs, k.caps[dst := t.0])
  {
    hide LogOk, EpochsOk;
    var t := DelegateCap(k.caps[src], k.objs, cptr, mask, badge, k.caps[dst]).value;
    assert SlotOk(b, src, cptr, k.caps[src][cptr].value);
    ParentRecord(b, k.objs, k.caps, b.tags[(src, cptr)]);
    EnteredKeeps(b, k.objs, k.caps, CopyOf(b, k, src, cptr, mask, badge, dst), dst, t.1);
  }

  lemma ParentRecord(b: Ledgerbook, objs: Objects, caps: Tables, i: nat)
    requires Traced(b, objs, caps) && i < |b.log|
    ensures RecordOk(b, objs, i)
  {
  }

  function GrantBook(b: Ledgerbook, k: Kernel, dst: nat, cptr: nat, mask: Rights, badge: U16): Ledgerbook {
    var r := DelegateFromRoot(k, dst, cptr, mask, badge);
    if r.index.None? then b else Entered(b, CopyOf(b, k, 0, cptr, mask, badge, dst), dst, r.index.value)
  }

  lemma GrantTraced(b: Ledgerbook, k: Kernel, dst: nat, cptr: nat, mask: Rights, badge: U16)
    requires Traced(b, k.objs, k.caps)
    ensures var k' := DelegateFromRoot(k, dst, cptr, mask, badge).k;
            Follows(b, k.caps, GrantBook(b, k, dst, cptr, mask, badge), k'.objs, k'.caps)
  {
    hide Follows, Traced, Entered, CopyOf;
    Unchanged(b, k.objs, k.caps);
    if DelegateFromRoot(k, dst, cptr, mask, badge).index.Some? {
      CopyTraced(b, k, 0, cptr, mask, badge, dst);
    }
  }

  function TransferBook(b: Ledgerbook, k: Kernel, src: nat, cptr: nat, dst: nat): Ledgerbook {
    match CapTransfer(k, src, cptr, dst)
    case Failure(_) => b
    case Success(t) => Entered(b, CopyOf(b, k, src, cptr, ALL_RIGHTS, 0, dst), dst, t.1)
  }

  lemma TransferTraced(b: Ledgerbook, k: Kernel, src: nat, cptr: nat, dst: nat)
    requires Traced(b, k.objs, k.caps) && CapTransfer(k, src, cptr, dst).Success?
    ensures Follows(b, k.caps, TransferBook(b, k, src, cptr, dst), k.objs, CapTransfer(k, src, cptr, dst).value.0)
  {
    hide Traced, OnlyNew, Entered, CopyOf;
    CopyTraced(b, k, src, cptr, ALL_RIGHTS, 0, dst);
    var t := DelegateCap(k.caps[src], k.objs, cptr, ALL_RIGHTS, 0, k.caps[dst]).value;
    var b' := TransferBook(b, k, src, cptr, dst);
    ClearedKeeps(b', k.objs, k.caps[dst := t.0], src, k.caps[src][cptr := None]);
    FollowsOn(b, k.caps, b', k.objs, k.caps[dst := t.0], b', k.objs, CapTransfer(k, src, cptr, dst).value.0);
  }

  /** Who gives what to whom in a rendezvous. */
  function CallBook(b: Ledgerbook, k: Kernel, e: Event): Ledgerbook
    requires k.curDomain < 6
  {
    var o := EndpointCall(k, e);
    if o.None? || k.eps[o.value.ep].state != WaitState(Opposite(o.value.why)) then b
    else
      var ep := k.eps[o.value.ep];
      if o.value.why.Sending? then
        if o.value.xfer == CPTR_NONE then b else TransferBook(b, k, k.curDomain, o.value.xfer, ep.peerDomain)
      else if ep.xfer == CPTR_NONE then b else TransferBook(b, k, ep.peerDomain, ep.xfer, k.curDomain)
  }

  lemma RendezvousTraced(b: Ledgerbook, k: Kernel, src: nat, xfer: nat, dst: nat, msg: nat)
    requires Traced(b, k.objs, k.caps)
    ensures Follows(b, k.caps, if xfer == CPTR_NONE then b else TransferBook(b, k, src, xfer, dst),
                    k.objs, Rendezvous(k, src, xfer, dst, msg).caps)
  {
    hide Follows, Traced, CapTransfer;
    Unchanged(b, k.objs, k.caps);
    if xfer != CPTR_NONE && CapTransfer(k, src, xfer, dst).Success? {
      TransferTraced(b, k, src, xfer, dst);
    }
  }

  lemma CallTraced(b: Ledgerbook, k: Kernel, e: Event)
    requires Inv(k) && Enabled(k, e) && e.Call? && Traced(b, k.objs, k.caps)
    ensures Follows(b, k.caps, CallBook(b, k, e), Next(k, e).objs, Next(k, e).caps)
  {
    Unchanged(b, k.objs, k.caps);
    hide Follows, Traced, EndpointCall, Syscall, TransferBook, Rendezvous, Rolled, PickNext, SchedOk, Paired;
    CallByCase(k, e);
    CallKeepsObjects(k, e);
    var o := EndpointCall(k, e);
    if o.Some? {
      var ep := k.eps[o.value.ep];
      RendezvousTraced(b, k, k.curDomain, o.value.xfer, ep.peerDomain, o.value.word);
      RendezvousTraced(b, k, ep.peerDomain, ep.xfer, k.curDomain, ep.msg);
    }
  }

  lemma CallKeepsObjects(k: Kernel, e: Event)
    requires Inv(k) && Enabled(k, e) && e.Call?
    ensures Next(k, e).objs == k.objs
    ensures EndpointCall(k, e).None? ==> Next(k, e).caps == k.caps
  {
    hide MapsAfter, ExtraRight, Rendezvous, Rolled, PickNext, SchedOk, Paired;
  }

  function RegrantBook(b: Ledgerbook, k: Kernel): Ledgerbook {
    var root := Create(k, Memory);
    var b1 := CreateBook(b, k, Memory);
    var mem := if root.index.None? then root else DelegateFromRoot(root.k, FAULT_DOMAIN, root.index.value, {Invoke}, 0);
    var b2 := if root.index.None? then b1 else GrantBook(b1, root.k, FAULT_DOMAIN, root.index.value, {Invoke}, 0);
    CreateBook(b2, mem.k, TimeSlice)
  }

  lemma RegrantTraced(b: Ledgerbook, k: Kernel)
    requires Traced(b, k.objs, k.caps)
    ensures Follows(b, k.caps, RegrantBook(b, k), Regrant(k).k.objs, Regrant(k).k.caps)
  {
    hide Traced, OnlyNew, Create, DelegateFromRoot, CreateBook, GrantBook;
    var root := Create(k, Memory);
    var b1 := CreateBook(b, k, Memory);
    CreateTraced(b, k, Memory);
    var last := Regrant(k).k;
    if root.index.None? {
      CreateTraced(b1, root.k, TimeSlice);
      FollowsOn(b, k.caps, b1, root.k.objs, root.k.caps, RegrantBook(b, k), last.objs, last.caps);
    } else {
      var mem := DelegateFromRoot(root.k, FAULT_DOMAIN, root.index.value, {Invoke}, 0).k;
      var b2 := GrantBook(b1, root.k, FAULT_DOMAIN, root.index.value, {Invoke}, 0);
      GrantTraced(b1, root.k, FAULT_DOMAIN, root.index.value, {Invoke}, 0);
      FollowsOn(b, k.caps, b1, root.k.objs, root.k.caps, b2, mem.objs, mem.caps);
      CreateTraced(b2, mem, TimeSlice);
      FollowsOn(b, k.caps, b2, mem.objs, mem.caps, RegrantBook(b, k), last.objs, last.caps);
    }
  }

  function DeathBook(b: Ledgerbook, k: Kernel, domain: nat): Ledgerbook {
    if domain != FAULT_DOMAIN || k.restarts == 0 then b else RegrantBook(b, k.(restarts := k.restarts - 1))
  }

  lemma FaultTraced(b: Ledgerbook, k: Kernel, now: nat)
    requires Inv(k) && Traced(b, k.objs, k.caps)
    ensures var k' := Terminate(k, now);
            Follows(b, k.caps, DeathBook(b, Removed(k), k.tasks[k.current].domain), k'.objs, k'.caps)
  {
    hide Traced, OnlyNew, Regrant, RegrantBook, Rolled, PickNext, Scrubbed, InvokeCap, SchedOk, Paired;
    var d, k1 := k.tasks[k.current].domain, Removed(k);
    ClearedKeeps(b, k.objs, k.caps, d, EmptyTable());
    if d == FAULT_DOMAIN && k1.restarts > 0 {
      var k2 := k1.(restarts := k1.restarts - 1);
      RegrantTraced(b, k2);
      FollowsOn(b, k.caps, b, k1.objs, k1.caps, RegrantBook(b, k2), Regrant(k2).k.objs, Regrant(k2).k.caps);
    }
  }

  function RevokeBook(b: Ledgerbook, objs: Objects, oid: nat): Ledgerbook {
    if oid >= OBJECT_TABLE_SIZE || !objs[oid].present then b
    else b.(revs := b.revs[oid := b.revs[oid] + 1])
  }

  lemma RevokeTraced(b: Ledgerbook, objs: Objects, caps: Tables, oid: nat)
    requires Traced(b, objs, caps)
    ensures Follows(b, caps, RevokeBook(b, objs, oid), RevokeObject(objs, oid).1, caps)
  {
    Unchanged(b, objs, caps);
    hide TagsOk;
    var b', objs' := RevokeBook(b, objs, oid), RevokeObject(objs, oid).1;
    forall i | 0 <= i < |b.log| ensures RecordOk(b', objs', i) { assert RecordOk(b, objs, i); }
    assert TagsOk(b', caps) by { TagsDependOnLog(b, b', caps); }
  }

  lemma TagsDependOnLog(b: Ledgerbook, b': Ledgerbook, caps: Tables)
    requires b.log == b'.log && b.tags == b'.tags && TagsOk(b, caps)
    ensures TagsOk(b', caps)
  {
  }

  function NextBook(b: Ledgerbook, k: Kernel, e: Event): Ledgerbook
    requires Shaped(k) && Enabled(k, e)
  {
    match e
    case Call(_, _, _, _, _, _) => CallBook(b, k, e)
    case Fault(_) => DeathBook(b, Removed(k), k.tasks[k.current].domain)
    case NewObject(kind, _) => CreateBook(b, k, kind)
    case Grant(dst, cptr, mask, badge) => GrantBook(b, k, dst, cptr, mask, badge)
    case RevokeAll(oid) => RevokeBook(b, k.objs, oid)
    case _ => b
  }

  /** Every step keeps every capability traced. */
  lemma StepKeepsTraced(b: Ledgerbook, k: Kernel, e: Event)
    requires Inv(k) && Enabled(k, e) && Traced(b, k.objs, k.caps)
    ensures Follows(b, k.caps, NextBook(b, k, e), Next(k, e).objs, Next(k, e).caps)
  {
    Unchanged(b, k.objs, k.caps);
    hide Follows, Traced, Syscall, Terminate, CallBook, DeathBook, CreateBook, GrantBook, Rolled, PickNext, InvokeCap, SchedOk, Paired, InvokeDirect;
    match e
    case Direct(domain, cptr, op, env) => DirectKeepsTables(k, domain, cptr, op, env);
    case Call(_, _, _, _, _, _) => CallTraced(b, k, e);
    case Fault(now) => FaultTraced(b, k, now);
    case NewObject(kind, backed) => CreateTraced(b, k, kind); BackingKeepsTables(k, kind, backed);
    case Grant(dst, cptr, mask, badge) => GrantTraced(b, k, dst, cptr, mask, badge);
    case RevokeAll(oid) => RevokeTraced(b, k.objs, k.caps, oid);
    case _ =>
  }

  lemma BackingKeepsTables(k: Kernel, kind: Kind, backed: bool)
    ensures CreateBacked(k, kind, backed).k.objs == Create(k, kind).k.objs
    ensures CreateBacked(k, kind, backed).k.caps == Create(k, kind).k.caps
  {
  }

  // ---- runs ----

  ghost predicate IsTracedRun(ks: seq<Kernel>, es: seq<Event>, bs: seq<Ledgerbook>) {
    && IsRun(ks, es) && |bs| == |ks|
    && bs[0] == Ledgerbook([], map[], seq(1024, _ => 0))
    && (forall i :: 0 <= i < |es| ==> bs[i + 1] == NextBook(bs[i], ks[i], es[i]))
  }

  lemma {:induction false} TracedAlongRun(ks: seq<Kernel>, es: seq<Event>, bs: seq<Ledgerbook>, i: nat)
    requires IsTracedRun(ks, es, bs) && i < |ks|
    ensures Traced(bs[i], ks[i].objs, ks[i].caps)
  {
    hide Inv, NextBook, Next;
    if i > 0 {
      TracedAlongRun(ks, es, bs, i - 1);
      InvAlongRun(ks, es, i - 1);
      StepKeepsTraced(bs[i - 1], ks[i - 1], es[i - 1]);
    }
  }

  /** The mint at which a record's line of descent begins. */
  function Root(log: seq<Record>, i: nat): (r: nat)
    requires i < |log|
    ensures r <= i
  {
    if log[i].Minted? || log[i].parent >= i then i else Root(log, log[i].parent)
  }

  /** Down a line of descent the object, kind and epoch stay and rights only shrink. */
  lemma {:induction false} DescentIsMonotone(b: Ledgerbook, objs: Objects, i: nat)
    requires LogOk(b, objs) && i < |b.log|
    ensures var r, cap := b.log[Root(b.log, i)], b.log[i].cap;
            && r.Minted?
            && cap == r.cap.(rights := cap.rights, badge := cap.badge)
            && cap.rights <= r.cap.rights == Ceiling(cap.kind)
            && (i != Root(b.log, i) ==> Delegate in Ceiling(cap.kind))
  {
    hide Ceiling;
    assert RecordOk(b, objs, i);
    if b.log[i].Derived? {
      DescentIsMonotone(b, objs, b.log[i].parent);
    }
  }

  /**
   The bound on authority. At any time every capability in every domain descends from the one mint
   of its object, with no more rights than that kind is minted with; a TimeSlice capability is never
   found outside the root domain.
   */
  lemma AuthorityIsBounded(ks: seq<Kernel>, es: seq<Event>, bs: seq<Ledgerbook>, i: nat, d: nat, c: nat)
    requires IsTracedRun(ks, es, bs) && i < |ks| && d < 6 && c < 256 && ks[i].caps[d][c].Some?
    ensures var b, cap := bs[i], ks[i].caps[d][c].value;
            && SlotOk(b, d, c, cap)
            && var r := Root(b.log, b.tags[(d, c)]);
            && b.log[r].Minted? && b.log[r].cap.objectId == cap.objectId
            && (forall j :: 0 <= j < |b.log| && b.log[j].Minted? && b.log[j].cap.objectId == cap.objectId ==> j == r)
            && cap.rights <= Ceiling(cap.kind)
            && (cap.kind.TimeSlice? ==> d == 0)
  {
    TracedAlongRun(ks, es, bs, i);
    DescentIsMonotone(bs[i], ks[i].objs, bs[i].tags[(d, c)]);
  }

  /**
   Revocation is exact. A capability whose line began after `born` revocations of its object is live
   after `n` of them exactly when their difference is a multiple of 2^32, and otherwise fails as
   revoked; the type error cannot happen.
   */
  lemma RevocationIsExact(ks: seq<Kernel>, es: seq<Event>, bs: seq<Ledgerbook>, i: nat, d: nat, c: nat)
    requires IsTracedRun(ks, es, bs) && i < |ks| && d < 6 && c < 256 && ks[i].caps[d][c].Some?
    ensures var b, cap := bs[i], ks[i].caps[d][c].value;
            && SlotOk(b, d, c, cap) && cap.objectId < 1024
            && var r := b.log[Root(b.log, b.tags[(d, c)])];
            && r.Minted? && r.born <= b.revs[cap.objectId]
            && (Liveness(ks[i].objs, cap) == Ok <==> (b.revs[cap.objectId] - r.born) % TWO_32 == 0)
            && (Liveness(ks[i].objs, cap) != Ok ==> Liveness(ks[i].objs, cap) == ErrRevoked)
  {
    TracedAlongRun(ks, es, bs, i);
    var b, cap := bs[i], ks[i].caps[d][c].value;
    var tag := b.tags[(d, c)];
    DescentIsMonotone(b, ks[i].objs, tag);
    assert RecordOk(b, ks[i].objs, tag) && RecordOk(b, ks[i].objs, Root(b.log, tag));
    SameRemainder(b.revs[cap.objectId], b.log[Root(b.log, tag)].born);
  }

  /** Fewer than 2^32 revocations leave no use for any copy: it can be neither invoked nor handed on. */
  lemma RevokedCapIsDead(ks: seq<Kernel>, es: seq<Event>, bs: seq<Ledgerbook>, i: nat, d: nat, c: nat,
                         required: Rights, mask: Rights, badge: U16, dst: nat)
    requires IsTracedRun(ks, es, bs) && i < |ks| && d < 6 && c < 256 && dst < 6 && ks[i].caps[d][c].Some?
    requires SlotOk(bs[i], d, c, ks[i].caps[d][c].value) && ks[i].caps[d][c].value.objectId < 1024
    requires var r := bs[i].log[Root(bs[i].log, bs[i].tags[(d, c)])];
             r.Minted? && 0 < bs[i].revs[ks[i].caps[d][c].value.objectId] - r.born < TWO_32
    ensures InvokeCap(ks[i].caps[d], ks[i].objs, c, required) == ErrRevoked
    ensures DelegateCap(ks[i].caps[d], ks[i].objs, c, mask, badge, ks[i].caps[dst]).Failure?
  {
    hide IsTracedRun, Root;
    RevocationIsExact(ks, es, bs, i, d, c);
  }

  lemma SameRemainder(n: nat, m: nat)
    requires m <= n
    ensures n % TWO_32 == m % TWO_32 <==> (n - m) % TWO_32 == 0
  {
  }

  lemma {:induction false} OnlyNewAlongRun(ks: seq<Kernel>, es: seq<Event>, bs: seq<Ledgerbook>, i: nat, j: nat)
    requires IsTracedRun(ks, es, bs) && i <= j < |ks|
    ensures Follows(bs[i], ks[i].caps, bs[j], ks[j].objs, ks[j].caps)
    decreases j
  {
    hide Inv, NextBook, Next, Traced, OnlyNew;
    TracedAlongRun(ks, es, bs, i);
    if i == j {
      Unchanged(bs[i], ks[i].objs, ks[i].caps);
    } else {
      OnlyNewAlongRun(ks, es, bs, i, j - 1);
      InvAlongRun(ks, es, j - 1);
      StepKeepsTraced(bs[j - 1], ks[j - 1], es[j - 1]);
      FollowsOn(bs[i], ks[i].caps, bs[j - 1], ks[j - 1].objs, ks[j - 1].caps, bs[j], ks[j].objs, ks[j].caps);
    }
  }

  ghost predicate HoldsObject(k: Kernel, d: nat, oid: nat)
    requires d < 6
  {
    exists c :: 0 <= c < 256 && k.caps[d][c].Some? && k.caps[d][c].value.objectId == oid
  }

  /**
   A domain that holds no capability for an object, for instance because it was just reaped, can hold
   one later only if one was minted or delivered to it in between.
   */
  lemma HeldMeansDelivered(ks: seq<Kernel>, es: seq<Event>, bs: seq<Ledgerbook>, i: nat, j: nat, d: nat, oid: nat)
    requires IsTracedRun(ks, es, bs) && i <= j < |ks| && d < 6
    requires !HoldsObject(ks[i], d, oid) && HoldsObject(ks[j], d, oid)
    ensures exists n :: |bs[i].log| <= n < |bs[j].log| && Owner(bs[j].log[n]) == d && bs[j].log[n].cap.objectId == oid
  {
    hide NextBook, Next, LogOk, EpochsOk, OneMint;
    OnlyNewAlongRun(ks, es, bs, i, j);
    var c :| 0 <= c < 256 && ks[j].caps[d][c].Some? && ks[j].caps[d][c].value.objectId == oid;
    assert SlotOk(bs[j], d, c, ks[j].caps[d][c].value);
    var n := bs[j].tags[(d, c)];
    assert n >= |bs[i].log|;
  }
}
