/**
 Moving a capability through an endpoint: it is conserved over all tables together, it happens
 exactly under the stated conditions, and a failed move changes nothing.
 */
module Transfer {
  import opened Machine
  import opened CapCore
  import opened Sched
  import opened KernelModel
  import opened Parking
  import opened Messages
  import opened Lineage

  /** The authority a slot holds, apart from the badge. */
  function Held(s: Option<CapEntry>): multiset<CapEntry> {
    match s
    case None => multiset{}
    case Some(e) => multiset{e.(badge := 0)}
  }

  function HeldIn(t: seq<Option<CapEntry>>): multiset<CapEntry> {
    if t == [] then multiset{} else HeldIn(t[..|t| - 1]) + Held(t[|t| - 1])
  }

  function HeldByAll(caps: seq<Table>): multiset<CapEntry> {
    if caps == [] then multiset{} else HeldByAll(caps[..|caps| - 1]) + HeldIn(caps[|caps| - 1])
  }

  lemma AddBoth(a: multiset<CapEntry>, b: multiset<CapEntry>, c: multiset<CapEntry>, d: multiset<CapEntry>, y: multiset<CapEntry>)
    requires a + b == c + d
    ensures (a + y) + b == (c + y) + d
  {
    forall e ensures ((a + y) + b)[e] == ((c + y) + d)[e] {
      assert (a + b)[e] == (c + d)[e];
    }
  }

  lemma {:induction false} SlotChanged(t: seq<Option<CapEntry>>, i: nat, x: Option<CapEntry>)
    requires i < |t|
    ensures HeldIn(t[i := x]) + Held(t[i]) == HeldIn(t) + Held(x)
    decreases |t|
  {
    hide Held;
    var n := |t| - 1;
    if i == n {
      assert t[i := x][..n] == t[..n];
      AddBoth(Held(x), Held(t[n]), Held(t[n]), Held(x), HeldIn(t[..n]));
    } else {
      SlotChanged(t[..n], i, x);
      assert t[i := x][..n] == t[..n][i := x];
      AddBoth(HeldIn(t[..n][i := x]), Held(t[i]), HeldIn(t[..n]), Held(x), Held(t[n]));
    }
  }

  lemma {:induction false} TableChanged(caps: seq<Table>, d: nat, t: Table)
    requires d < |caps|
    ensures HeldByAll(caps[d := t]) + HeldIn(caps[d]) == HeldByAll(caps) + HeldIn(t)
    decreases |caps|
  {
    hide HeldIn;
    var n := |caps| - 1;
    if d == n {
      assert caps[d := t][..n] == caps[..n];
      AddBoth(HeldIn(t), HeldIn(caps[n]), HeldIn(caps[n]), HeldIn(t), HeldByAll(caps[..n]));
    } else {
      TableChanged(caps[..n], d, t);
      assert caps[d := t][..n] == caps[..n][d := t];
      AddBoth(HeldByAll(caps[..n][d := t]), HeldIn(caps[d]), HeldByAll(caps[..n]), HeldIn(t), HeldIn(caps[n]));
    }
  }

  /** A capability can be moved exactly when it is live, delegable, going elsewhere and has room there. */
  ghost predicate Movable(k: Kernel, src: nat, cptr: nat, dst: nat) {
    && src < 6 && dst < 6 && src != dst && cptr < 256 && k.caps[src][cptr].Some?
    && Delegate in k.caps[src][cptr].value.rights
    && Liveness(k.objs, k.caps[src][cptr].value) == Ok
    && (exists c :: 0 <= c < 256 && k.caps[dst][c].None?)
  }

  lemma MovesExactlyWhenMovable(k: Kernel, src: nat, cptr: nat, dst: nat)
    ensures CapTransfer(k, src, cptr, dst).Success? <==> Movable(k, src, cptr, dst)
  {
  }

  /**
   A successful move conserves the authority held over all tables together: the source slot is
   emptied, the destination slot was free and holds the capability with the badge cleared, and no
   other slot changes.
   */
  lemma MoveConserves(k: Kernel, src: nat, cptr: nat, dst: nat)
    requires CapTransfer(k, src, cptr, dst).Success?
    ensures var caps, slot := CapTransfer(k, src, cptr, dst).value.0, CapTransfer(k, src, cptr, dst).value.1;
            && HeldByAll(caps) == HeldByAll(k.caps)
            && src < 6 && dst < 6 && cptr < 256 && slot < 256 && k.caps[src][cptr].Some?
            && caps[src][cptr].None? && k.caps[dst][slot].None?
            && caps[dst][slot] == Some(k.caps[src][cptr].value.(badge := 0))
            && (forall d, c :: 0 <= d < 6 && 0 <= c < 256 && (d, c) != (src, cptr) && (d, c) != (dst, slot) ==>
                  caps[d][c] == k.caps[d][c])
  {
    hide HeldIn, HeldByAll, Liveness;
    var t := DelegateCap(k.caps[src], k.objs, cptr, ALL_RIGHTS, 0, k.caps[dst]).value;
    var e := k.caps[src][cptr].value;
    AllRightsIsAll(e.rights);
    assert Child(e, ALL_RIGHTS, 0) == e.(badge := 0);
    SlotChanged(k.caps[dst], t.1, Some(e.(badge := 0)));
    TableChanged(k.caps, dst, t.0);
    var mid := k.caps[dst := t.0];
    SlotChanged(mid[src], cptr, None);
    TableChanged(mid, src, mid[src][cptr := None]);
    MultisetBalance(HeldByAll(k.caps), HeldByAll(mid), HeldByAll(mid[src := mid[src][cptr := None]]),
                    HeldIn(k.caps[dst]), HeldIn(t.0), HeldIn(mid[src]), HeldIn(mid[src][cptr := None]), Held(Some(e)));
  }

  /** Adding one thing in one place and taking it away in another. */
  lemma MultisetBalance(all: multiset<CapEntry>, mid: multiset<CapEntry>, end: multiset<CapEntry>,
                        d0: multiset<CapEntry>, d1: multiset<CapEntry>, s0: multiset<CapEntry>, s1: multiset<CapEntry>,
                        x: multiset<CapEntry>)
    requires d1 == d0 + x && s1 + x == s0
    requires mid + d0 == all + d1 && end + s0 == mid + s1
    ensures end == all
  {
    forall e ensures end[e] == all[e] {
      assert (mid + d0)[e] == (all + d1)[e];
      assert (end + s0)[e] == (mid + s1)[e];
    }
  }

  lemma AllRightsIsAll(r: Rights)
    ensures r * ALL_RIGHTS == r
  {
    forall x: Right ensures x in ALL_RIGHTS {
      match x
      case Read =>
      case Write =>
      case Invoke =>
      case Delegate =>
      case Revoke =>
      case Map =>
      case GrantCap =>
      case Seal =>
    }
  }

  /** A rendezvous that fails leaves every table as it was and tells both sides the same, with no message. */
  lemma FailedRendezvousChangesNothing(k: Kernel, src: nat, xfer: nat, dst: nat, msg: nat)
    ensures var x := Rendezvous(k, src, xfer, dst, msg);
            x.receiver.status != Code(Ok) <==> xfer != CPTR_NONE && !Movable(k, src, xfer, dst)
    ensures var x := Rendezvous(k, src, xfer, dst, msg);
            x.receiver.status != Code(Ok) ==>
              x.caps == k.caps && x.sender == x.receiver && x.receiver.reply == 0 && x.receiver.cptr == CPTR_NONE
  {
  }

  /** The domains of the tasks whose send and receive make up a match. */
  function Domains(k: Kernel, ops: seq<Op>, m: Match): (nat, nat)
    requires m.send < |ops| && m.recv < |ops| && ops[m.send].task < 5 && ops[m.recv].task < 5
  {
    (k.tasks[ops[m.send].task].domain, k.tasks[ops[m.recv].task].domain)
  }

  /**
   The match moved the capability that its send offered: out of the sending task's domain, where it
   was live with DELEGATE, into the slot of the receiving task's domain that the receiver was told.
   */
  ghost predicate Moves(k: Kernel, ops: seq<Op>, m: Match, k': Kernel) {
    && m.send < |ops| && m.recv < |ops| && ops[m.send].task < 5 && ops[m.recv].task < 5
    && var src, dst, xfer := Domains(k, ops, m).0, Domains(k, ops, m).1, ops[m.send].xfer;
    && xfer != CPTR_NONE && Movable(k, src, xfer, dst)
    && CapTransfer(k, src, xfer, dst).Success?
    && k'.caps == CapTransfer(k, src, xfer, dst).value.0
    && m.receiver.status == Code(Ok) && m.receiver.cptr == CapTransfer(k, src, xfer, dst).value.1
  }

  /**
   In every run, when a call changes a table, it is a rendezvous that moves exactly the capability its
   send offered (`Moves`; `MoveConserves` says what that does to the slots), that send was made over
   an endpoint capability with GRANT_CAP at that time, and the authority held in all tables together
   is what it was.
   */
  lemma MovesAreGranted(ks: seq<Kernel>, es: seq<Event>, hs: seq<History>, i: nat)
    requires IsLoggedRun(ks, es, hs) && i < |es| && es[i].Call? && ks[i + 1].caps != ks[i].caps
    ensures HeldByAll(ks[i + 1].caps) == HeldByAll(ks[i].caps)
    ensures |hs[i + 1].matches| == |hs[i].matches| + 1
    ensures var m := hs[i + 1].matches[|hs[i].matches|];
            && MatchOk(hs[i + 1].ops, m) && hs[i + 1].ops[m.send].granted
            && Moves(ks[i], hs[i + 1].ops, m, ks[i + 1])
  {
    hide Next, Initial, EndpointCall, HeldByAll, MatchesOk, ReturnsOk, CallOk, Paired, Rendezvous, CapTransfer, Movable, SchedOk, MatchOk, Unblock, Park, Told;
    var k, e, h := ks[i], es[i], hs[i];
    InvAlongRun(ks, es, i);
    HistoryAlongRun(ks, es, hs, i);
    HistoryAlongRun(ks, es, hs, i + 1);
    CallByCase(k, e);
    CallMoves(h, k, e);
    NewestMatch(hs[i + 1], ks[i + 1]);
  }

  lemma NewestMatch(h: History, k: Kernel)
    requires HistoryOk(h, k) && h.matches != []
    ensures var m := h.matches[|h.matches| - 1];
            MatchOk(h.ops, m) && (h.ops[m.send].xfer != CPTR_NONE ==> h.ops[m.send].granted)
  {
    var m := h.matches[|h.matches| - 1];
    assert MatchOk(h.ops, m);
    assert h.ops[m.send] in h.ops;
  }

  lemma RendezvousMoves(k: Kernel, src: nat, xfer: nat, dst: nat, msg: nat)
    requires Rendezvous(k, src, xfer, dst, msg).caps != k.caps
    ensures var x := Rendezvous(k, src, xfer, dst, msg);
            && xfer != CPTR_NONE && Movable(k, src, xfer, dst) && CapTransfer(k, src, xfer, dst).Success?
            && HeldByAll(x.caps) == HeldByAll(k.caps)
            && x.caps == CapTransfer(k, src, xfer, dst).value.0
            && x.receiver.status == Code(Ok) && x.receiver.cptr == CapTransfer(k, src, xfer, dst).value.1
  {
    hide CapTransfer, Movable;
    MovesExactlyWhenMovable(k, src, xfer, dst);
    MoveConserves(k, src, xfer, dst);
  }

  lemma CallMoves(h: History, k: Kernel, e: Event)
    requires Inv(k) && Enabled(k, e) && e.Call? && HistoryOk(h, k) && Next(k, e).caps != k.caps
    ensures HeldByAll(Next(k, e).caps) == HeldByAll(k.caps)
    ensures var h' := NextHistory(h, k, e);
            && |h'.matches| == |h.matches| + 1
            && var m := h'.matches[|h.matches|];
            Moves(k, h'.ops, m, Next(k, e))
  {
    hide EndpointCall, HeldByAll, MatchesOk, ReturnsOk, Rendezvous, CapTransfer, Movable, Rolled, PickNext, CountPresent, Syscall, Told;
    CallByCase(k, e);
    CallKeepsObjects(k, e);
    var o := EndpointCall(k, e).value;
    var ep := k.eps[o.ep];
    var p := ep.peerTask;
    assert WaitsOn(k.tasks[p], o.ep, ep);
    assert CallOk(h, p, k.tasks[p], IsRunning(k, p));
    if o.why.Sending? {
      RendezvousMoves(k, k.curDomain, o.xfer, ep.peerDomain, o.word);
    } else {
      RendezvousMoves(k, ep.peerDomain, ep.xfer, k.curDomain, ep.msg);
    }
  }
}
