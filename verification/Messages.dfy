/**
 The history of endpoint calls: which sends and receives were begun, which were matched with which,
 and what each was told. Every rendezvous pairs one send with one receive, and the result staged
 for a woken task stays in place until that task has read it.
 */
module Messages {
  import opened Machine
  import opened CapCore
  import opened Sched
  import opened KernelModel
  import opened Parking

  /** One send or receive that got as far as the endpoint. `granted` is GRANT_CAP at that time. */
  datatype Op = Op(why: Direction, task: nat, ep: nat, word: nat, xfer: nat, granted: bool)

  /** A rendezvous of two of them, and what either side is told. */
  datatype Match = Match(send: nat, recv: nat, sender: IpcResult, receiver: IpcResult)

  type PerTask = s: seq<Option<nat>> | |s| == 5 witness seq(5, _ => None)

  /** `open` is the call each task is inside of; `matchOf` maps a call to its rendezvous. */
  datatype History = History(
    ops: seq<Op>, open: PerTask, matches: seq<Match>, matchOf: map<nat, nat>, returned: map<nat, IpcResult>)

  const NO_HISTORY: History := History([], [None, None, None, None, None], [], map[], map[])

  function ResultFor(m: Match, id: nat): IpcResult {
    if id == m.send then m.sender else m.receiver
  }

  // ---- how history grows ----

  /** The endpoint operation a call comes to, if it passes the checks made before the endpoint is touched. */
  function EndpointCall(k: Kernel, e: Event): Option<Op>
    requires k.curDomain < 6
  {
    if !e.Call? || InvokeCap(k.caps[k.curDomain], k.objs, e.cptr, {Invoke}) != Ok then None
    else
      var c := Lookup(k.caps[k.curDomain], k.objs, e.cptr).value;
      if !c.kind.Endpoint? || c.objectId >= OBJECT_TABLE_SIZE then None
      else if e.op == E_SEND then
        if e.xfer != CPTR_NONE && (GrantCap !in c.rights || e.xfer >= CAP_TABLE_SLOTS) then None
        else Some(Op(Sending, k.current, c.objectId, e.arg, e.xfer, GrantCap in c.rights))
      else if e.op == E_RECV then Some(Op(Receiving, k.current, c.objectId, 0, CPTR_NONE, false))
      else None
  }

  /** What the two sides of a rendezvous with the waiting partner are told. */
  function HandoffOf(k: Kernel, o: Op): Handoff
    requires o.ep < 1024
  {
    var ep := k.eps[o.ep];
    if o.why.Sending? then Rendezvous(k, k.curDomain, o.xfer, ep.peerDomain, o.word)
    else Rendezvous(k, ep.peerDomain, ep.xfer, k.curDomain, ep.msg)
  }

  function Opposite(why: Direction): Direction {
    if why.Sending? then Receiving else Sending
  }

  function Parked(h: History, o: Op): History
    requires o.task < 5
  {
    h.(ops := h.ops + [o], open := h.open[o.task := Some(|h.ops|)])
  }

  /** A call met its partner; `told` is what the system call returned to the caller, if it returned. */
  function Matched(h: History, o: Op, partner: nat, x: Handoff, told: Option<IpcResult>): History {
    var id := |h.ops|;
    var m := if o.why.Sending? then Match(id, partner, x.sender, x.receiver) else Match(partner, id, x.sender, x.receiver);
    h.(ops := h.ops + [o], matches := h.matches + [m],
       matchOf := h.matchOf[id := |h.matches|][partner := |h.matches|],
       returned := if told.Some? then h.returned[id := told.value] else h.returned)
  }

  function Returned(h: History, t: nat, r: IpcResult): History
    requires t < 5
  {
    if h.open[t].None? then h
    else h.(returned := h.returned[h.open[t].value := r], open := h.open[t := None])
  }

  /** What a system call returns at once; nothing if its task was parked. */
  function Told(k: Kernel, e: Event): Option<IpcResult>
    requires Shaped(k) && e.Call?
  {
    Syscall(k, e.cptr, e.op, e.arg, e.xfer, e.env, e.now).result
  }

  function NextHistory(h: History, k: Kernel, e: Event): History
    requires Shaped(k) && Enabled(k, e)
  {
    if e.Resume? then Returned(h, k.current, k.tasks[k.current].ipc)
    else
      var o := EndpointCall(k, e);
      if o.None? then h
      else
        var ep := k.eps[o.value.ep];
        if ep.state.EpIdle? then Parked(h, o.value)
        else if ep.state == WaitState(o.value.why) || ep.peerTask >= 5 || h.open[ep.peerTask].None? then h
        else Matched(h, o.value, h.open[ep.peerTask].value, HandoffOf(k, o.value), Told(k, e))
  }

  // ---- the invariant ----

  ghost predicate IsRunning(k: Kernel, t: nat) {
    t == k.current && k.mode.Running?
  }

  /** How a task's state and its open call agree. */
  ghost predicate CallOk(h: History, t: nat, task: Task, running: bool)
    requires t < 5
  {
    match h.open[t]
    case None => !task.blocked && (task.present && !running ==> !task.context.InsideCall?)
    case Some(id) =>
      && id < |h.ops| && h.ops[id].task == t && id !in h.returned
      && task.present && task.context.InsideCall? && !running
      && (if task.blocked then
            id !in h.matchOf && h.ops[id].why == task.reason && h.ops[id].ep == task.waitEp
          else
            id in h.matchOf && h.matchOf[id] < |h.matches| && task.ipc == ResultFor(h.matches[h.matchOf[id]], id))
  }

  ghost predicate CallsOk(h: History, k: Kernel) {
    forall t :: 0 <= t < 5 ==> CallOk(h, t, k.tasks[t], IsRunning(k, t))
  }

  /** A waiting sender's endpoint holds its word and its capability slot. */
  ghost predicate StagedOk(h: History, eps: Endpoints) {
    forall e :: 0 <= e < 1024 && eps[e].state.SendWait? ==>
      && eps[e].peerTask < 5 && h.open[eps[e].peerTask].Some?
      && h.open[eps[e].peerTask].value < |h.ops|
      && h.ops[h.open[eps[e].peerTask].value].word == eps[e].msg
      && h.ops[h.open[eps[e].peerTask].value].xfer == eps[e].xfer
  }

  /** One send, one receive, one endpoint; on success the sender's word, on failure the same error for both. */
  ghost predicate MatchOk(ops: seq<Op>, m: Match) {
    && m.send < |ops| && m.recv < |ops|
    && ops[m.send].why.Sending? && ops[m.recv].why.Receiving?
    && ops[m.send].ep == ops[m.recv].ep
    && m.sender.status == m.receiver.status && m.sender.reply == 0 && m.sender.cptr == CPTR_NONE
    && (m.receiver.status == Code(Ok) ==> m.receiver.reply == ops[m.send].word)
    && (m.receiver.status != Code(Ok) ==> m.receiver.reply == 0 && m.receiver.cptr == CPTR_NONE)
    && (m.receiver.cptr != CPTR_NONE ==> ops[m.send].granted && ops[m.send].xfer != CPTR_NONE)
  }

  ghost predicate MatchesOk(h: History) {
    && (forall j :: 0 <= j < |h.matches| ==>
          && MatchOk(h.ops, h.matches[j])
          && h.matches[j].send in h.matchOf && h.matchOf[h.matches[j].send] == j
          && h.matches[j].recv in h.matchOf && h.matchOf[h.matches[j].recv] == j)
    && (forall id :: id in h.matchOf ==>
          && id < |h.ops| && h.matchOf[id] < |h.matches|
          && (id == h.matches[h.matchOf[id]].send || id == h.matches[h.matchOf[id]].recv))
    && (forall o :: o in h.ops && o.xfer != CPTR_NONE ==> o.granted)
  }

  ghost predicate AnswersOk(h: History) {
    forall id :: id in h.returned ==>
      && id in h.matchOf && h.matchOf[id] < |h.matches|
      && h.returned[id] == ResultFor(h.matches[h.matchOf[id]], id)
  }

  ghost predicate OpenOk(h: History) {
    forall id :: 0 <= id < |h.ops| && id !in h.returned ==>
      h.ops[id].task < 5 && h.open[h.ops[id].task] == Some(id)
  }

  /** Every call has returned what its rendezvous gave it, or is still open. */
  ghost predicate ReturnsOk(h: History) {
    AnswersOk(h) && OpenOk(h)
  }

  ghost predicate HistoryOk(h: History, k: Kernel) {
    CallsOk(h, k) && StagedOk(h, k.eps) && MatchesOk(h) && ReturnsOk(h)
  }

  // ---- preservation ----

  lemma InitialHistoryOk(k: Kernel)
    requires Initial(k)
    ensures HistoryOk(NO_HISTORY, k)
  {
  }

  /** Both sides get the same status; the word goes over exactly on success. */
  ghost predicate Fair(x: Handoff, word: nat, xfer: nat) {
    && x.sender.status == x.receiver.status && x.sender.reply == 0 && x.sender.cptr == CPTR_NONE
    && (x.receiver.status == Code(Ok) ==> x.receiver.reply == word)
    && (x.receiver.status != Code(Ok) ==> x.receiver.reply == 0 && x.receiver.cptr == CPTR_NONE)
    && (x.receiver.cptr != CPTR_NONE ==> xfer != CPTR_NONE)
  }

  lemma RendezvousIsFair(k: Kernel, sendDomain: nat, xfer: nat, recvDomain: nat, msg: nat)
    ensures Fair(Rendezvous(k, sendDomain, xfer, recvDomain, msg), msg, xfer)
  {
  }

  /** A switch leaves every call where it was; a task whose context is inside a call resumes there. */
  lemma DispatchKeepsCalls(h: History, k: Kernel, now: nat)
    requires Switchable(k)
    requires forall t :: 0 <= t < 5 ==> CallOk(h, t, k.tasks[t], false)
    ensures CallsOk(h, Dispatch(k, now)) && Dispatch(k, now).eps == k.eps
  {
    hide Rolled, Paired, CountPresent;
    var k' := Dispatch(k, now);
    forall t: nat | t < 5
      ensures CallOk(h, t, k'.tasks[t], IsRunning(k', t))
    {
      RolledKeeps(k.tasks, now, t);
    }
  }

  /** More calls do not disturb the matches made. */
  lemma MatchesKept(h: History, o: Op, j: nat)
    requires MatchesOk(h) && j < |h.matches|
    ensures MatchOk(h.ops + [o], h.matches[j])
  {
  }

  lemma ParkedKeepsMatches(h: History, o: Op)
    requires MatchesOk(h) && o.task < 5 && (o.xfer != CPTR_NONE ==> o.granted)
    ensures MatchesOk(Parked(h, o))
  {
    hide MatchOk;
    forall j: nat | j < |h.matches| ensures MatchOk(h.ops + [o], h.matches[j]) { MatchesKept(h, o, j); }
    assert forall q :: q in h.ops + [o] ==> q in h.ops || q == o;
  }

  lemma ParkedKeepsReturns(h: History, o: Op)
    requires ReturnsOk(h) && MatchesOk(h) && o.task < 5 && h.open[o.task].None?
    ensures ReturnsOk(Parked(h, o))
  {
    hide MatchOk;
    var h' := Parked(h, o);
    forall id | 0 <= id < |h'.ops| && id !in h'.returned
      ensures h'.ops[id].task < 5 && h'.open[h'.ops[id].task] == Some(id)
    {
      if id < |h.ops| {
        assert h'.ops[id] == h.ops[id] && h.open[h.ops[id].task] == Some(id);
      }
    }
  }

  /** What the peer of a rendezvous is told, and what the caller is. */
  function PeerResult(x: Handoff, o: Op): IpcResult {
    if o.why.Sending? then x.receiver else x.sender
  }

  function CallerResult(x: Handoff, o: Op): IpcResult {
    if o.why.Sending? then x.sender else x.receiver
  }

  lemma MatchedKeepsMatches(h: History, o: Op, partner: nat, x: Handoff, told: Option<IpcResult>)
    requires MatchesOk(h) && partner < |h.ops| && partner !in h.matchOf
    requires h.ops[partner].why == Opposite(o.why) && h.ops[partner].ep == o.ep
    requires o.xfer != CPTR_NONE ==> o.granted
    requires var send := if o.why.Sending? then o else h.ops[partner];
             Fair(x, send.word, send.xfer)
    ensures MatchesOk(Matched(h, o, partner, x, told))
  {
    hide MatchOk;
    var h' := Matched(h, o, partner, x, told);
    assert |h.ops| !in h.matchOf;
    forall j: nat | j < |h.matches| ensures MatchOk(h'.ops, h'.matches[j]) { MatchesKept(h, o, j); }
    NewMatchOk(h, o, partner, x, told);
    assert forall q :: q in h'.ops ==> q in h.ops || q == o;
  }

  lemma NewMatchOk(h: History, o: Op, partner: nat, x: Handoff, told: Option<IpcResult>)
    requires MatchesOk(h) && partner < |h.ops|
    requires h.ops[partner].why == Opposite(o.why) && h.ops[partner].ep == o.ep
    requires o.xfer != CPTR_NONE ==> o.granted
    requires var send := if o.why.Sending? then o else h.ops[partner];
             Fair(x, send.word, send.xfer)
    ensures var h' := Matched(h, o, partner, x, told);
            MatchOk(h'.ops, h'.matches[|h.matches|])
  {
  }

  lemma MatchedKeepsAnswers(h: History, o: Op, partner: nat, x: Handoff, told: Option<IpcResult>)
    requires AnswersOk(h) && partner < |h.ops| && partner !in h.matchOf && |h.ops| !in h.matchOf
    requires told == Some(CallerResult(x, o))
    ensures AnswersOk(Matched(h, o, partner, x, told))
  {
    var h' := Matched(h, o, partner, x, told);
    forall id | id in h'.returned
      ensures id in h'.matchOf && h'.matchOf[id] < |h'.matches|
      ensures h'.returned[id] == ResultFor(h'.matches[h'.matchOf[id]], id)
    {
      if id != |h.ops| {
        assert id in h.returned && id != partner;
        assert h'.matches[h.matchOf[id]] == h.matches[h.matchOf[id]];
      }
    }
  }

  lemma MatchedKeepsReturns(h: History, o: Op, partner: nat, x: Handoff, told: Option<IpcResult>)
    requires MatchesOk(h) && ReturnsOk(h) && partner < |h.ops| && partner !in h.matchOf
    requires told == Some(CallerResult(x, o))
    ensures ReturnsOk(Matched(h, o, partner, x, told))
  {
    assert |h.ops| !in h.matchOf;
    hide MatchesOk, AnswersOk, ResultFor;
    MatchedKeepsAnswers(h, o, partner, x, told);
    var h' := Matched(h, o, partner, x, told);
    forall id | 0 <= id < |h'.ops| && id !in h'.returned
      ensures h'.ops[id].task < 5 && h'.open[h'.ops[id].task] == Some(id)
    {
      assert id < |h.ops| && h'.ops[id] == h.ops[id];
    }
  }

  /** The endpoint record a parking call leaves. */
  function ParkSlot(k: Kernel, o: Op): EpSlot
    requires o.ep < 1024
  {
    if o.why.Sending? then EpSlot(SendWait, k.current, k.curDomain, o.word, o.xfer)
    else k.eps[o.ep].(state := RecvWait, peerTask := k.current, peerDomain := k.curDomain)
  }

  /** What a call does to the kernel, by the endpoint operation it comes to. */
  lemma CallByCase(k: Kernel, e: Event)
    requires Inv(k) && Enabled(k, e) && e.Call?
    ensures var o := EndpointCall(k, e);
            var told := Told(k, e);
            if o.None? then SameTasks(k, Next(k, e)) && told.Some?
            else
              && o.value.ep < 1024 && o.value.task == k.current
              && (o.value.xfer != CPTR_NONE ==> o.value.granted && o.value.xfer < CAP_TABLE_SLOTS)
              && var ep := k.eps[o.value.ep];
              if ep.state.EpIdle? then
                && Next(k, e) == Park(k, o.value.ep, ParkSlot(k, o.value), o.value.why, e.now).k
                && told.None?
              else if ep.state == WaitState(o.value.why) then Next(k, e) == k && told == Some(Error(ErrRights))
              else
                var x := HandoffOf(k, o.value);
                && Next(k, e) == Unblock(k.(eps := k.eps[o.value.ep := ep.(state := EpIdle)], caps := x.caps),
                                         ep.peerTask, PeerResult(x, o.value))
                && told == Some(CallerResult(x, o.value))
  {
    hide MapsAfter, ExtraRight, Rendezvous, BlockCurrent, Unblock, SchedOk, Paired;
  }

  lemma ParkStepKeeps(h: History, k: Kernel, e: Event)
    requires Inv(k) && Enabled(k, e) && HistoryOk(h, k) && e.Call?
    requires EndpointCall(k, e).Some? && k.eps[EndpointCall(k, e).value.ep].state.EpIdle?
    ensures HistoryOk(NextHistory(h, k, e), Next(k, e))
  {
    hide Dispatch, MatchesOk, ReturnsOk, EndpointCall, CountPresent;
    var o := EndpointCall(k, e).value;
    CallByCase(k, e);
    var c := k.current;
    var t := k.tasks[c].(blocked := true, reason := o.why, waitEp := o.ep, context := InsideCall);
    var k' := k.(eps := k.eps[o.ep := ParkSlot(k, o)], tasks := k.tasks[c := t]);
    var h' := Parked(h, o);
    assert CallOk(h, c, k.tasks[c], true);
    ParkedKeepsMatches(h, o);
    ParkedKeepsReturns(h, o);
    NotYetKnown(h);
    forall i | 0 <= i < 5 ensures CallOk(h', i, k'.tasks[i], false) {
      if i != c { assert CallOk(h, i, k.tasks[i], false); }
    }
    ParkIsSwitchable(k, o.ep, ParkSlot(k, o), o.why);
    DispatchKeepsCalls(h', k', e.now);
    StagedAfterPark(h, k, o);
  }

  /** The next call's number is in no match and has not returned. */
  lemma NotYetKnown(h: History)
    requires MatchesOk(h) && ReturnsOk(h)
    ensures |h.ops| !in h.matchOf && |h.ops| !in h.returned
  {
  }

  lemma StagedAfterPark(h: History, k: Kernel, o: Op)
    requires Inv(k) && CallsOk(h, k) && StagedOk(h, k.eps) && k.mode.Running?
    requires o.ep < 1024 && o.task == k.current
    ensures StagedOk(Parked(h, o), k.eps[o.ep := ParkSlot(k, o)])
  {
    assert CallOk(h, k.current, k.tasks[k.current], true);
    forall e | 0 <= e < 1024 && k.eps[e].state.SendWait?
      ensures k.eps[e].peerTask != k.current
    {
      assert k.tasks[k.eps[e].peerTask].blocked;
    }
  }

  lemma HandoffStepKeeps(h: History, k: Kernel, e: Event)
    requires Inv(k) && Enabled(k, e) && HistoryOk(h, k) && e.Call? && EndpointCall(k, e).Some?
    requires var s := k.eps[EndpointCall(k, e).value.ep].state;
             !s.EpIdle? && s != WaitState(EndpointCall(k, e).value.why)
    ensures HistoryOk(NextHistory(h, k, e), Next(k, e))
  {
    hide MatchesOk, ReturnsOk, EndpointCall, CountPresent, Rendezvous, Told;
    var o := EndpointCall(k, e).value;
    CallByCase(k, e);
    var ep := k.eps[o.ep];
    var p := ep.peerTask;
    assert WaitsOn(k.tasks[p], o.ep, ep) && CallOk(h, p, k.tasks[p], false);
    var id := h.open[p].value;
    var x, told := HandoffOf(k, o), Told(k, e);
    RendezvousIsFair(k, k.curDomain, o.xfer, ep.peerDomain, o.word);
    RendezvousIsFair(k, ep.peerDomain, ep.xfer, k.curDomain, ep.msg);
    MatchedKeepsMatches(h, o, id, x, told);
    MatchedKeepsReturns(h, o, id, x, told);
    NotYetKnown(h);
    CallsAfterMatch(h, k, o, x, told);
    assert StagedOk(Matched(h, o, id, x, told), Next(k, e).eps);
  }

  lemma CallsAfterMatch(h: History, k: Kernel, o: Op, x: Handoff, told: Option<IpcResult>)
    requires Inv(k) && CallsOk(h, k) && |h.ops| !in h.matchOf && |h.ops| !in h.returned
    requires o.ep < 1024 && o.task == k.current
    requires !k.eps[o.ep].state.EpIdle? && k.eps[o.ep].state != WaitState(o.why)
    requires h.open[k.eps[o.ep].peerTask].Some?
    ensures var p := k.eps[o.ep].peerTask;
            var k' := Unblock(k.(eps := k.eps[o.ep := k.eps[o.ep].(state := EpIdle)], caps := x.caps), p, PeerResult(x, o));
            CallsOk(Matched(h, o, h.open[p].value, x, told), k')
  {
    hide CountPresent;
    var p := k.eps[o.ep].peerTask;
    var id := h.open[p].value;
    var h' := Matched(h, o, id, x, told);
    assert WaitsOn(k.tasks[p], o.ep, k.eps[o.ep]);
    assert CallOk(h, p, k.tasks[p], false);
    forall i: nat | i < 5 && i != p ensures CallOk(h', i, k.tasks[i], IsRunning(k, i)) {
      assert CallOk(h, i, k.tasks[i], IsRunning(k, i));
      if h.open[i].Some? {
        var j := h.open[i].value;
        assert j != id && j != |h.ops| && h'.ops[j] == h.ops[j];
        if j in h.matchOf {
          assert h'.matches[h.matchOf[j]] == h.matches[h.matchOf[j]];
        }
      }
    }
  }

  /** Reading the staged result closes the call with what its rendezvous gave it. */
  lemma ReturnedKeepsReturns(h: History, t: nat, task: Task)
    requires t < 5 && ReturnsOk(h) && CallOk(h, t, task, false) && !task.blocked && h.open[t].Some?
    ensures ReturnsOk(Returned(h, t, task.ipc))
  {
  }

  lemma ResumeKeeps(h: History, k: Kernel)
    requires Inv(k) && HistoryOk(h, k) && k.mode.Resuming?
    ensures HistoryOk(Returned(h, k.current, k.tasks[k.current].ipc), k.(mode := Running))
    ensures h.open[k.current].Some?
  {
    hide MatchOk, CountPresent, ReturnsOk;
    var c := k.current;
    assert CallOk(h, c, k.tasks[c], false);
    ReturnedKeepsReturns(h, c, k.tasks[c]);
    var h' := Returned(h, c, k.tasks[c].ipc);
    forall i: nat | i < 5 ensures CallOk(h', i, k.tasks[i], i == c) {
      assert CallOk(h, i, k.tasks[i], IsRunning(k, i));
    }
    forall e | 0 <= e < 1024 && k.eps[e].state.SendWait? ensures k.eps[e].peerTask != c {
      assert k.tasks[k.eps[e].peerTask].blocked;
    }
  }

  // ---- steps that are not endpoint calls ----

  lemma TickKeeps(h: History, k: Kernel, now: nat)
    requires Inv(k) && HistoryOk(h, k) && k.mode.Running?
    ensures HistoryOk(h, Tick(k, now))
  {
    hide Dispatch, MatchesOk, ReturnsOk, CountPresent;
    if k.num > 1 {
      var t := k.tasks[k.current].(context := OwnCode);
      var k' := k.(tasks := k.tasks[k.current := t]);
      forall i: nat | i < 5 ensures CallOk(h, i, k'.tasks[i], false) {
        assert CallOk(h, i, k.tasks[i], IsRunning(k, i));
      }
      TickIsSwitchable(k);
      DispatchKeepsCalls(h, k', now);
    }
  }

  lemma AdmitKeepsCalls(h: History, k: Kernel, cptr: nat, user: bool, domain: nat, period: nat, relative: nat, now: nat)
    requires domain < 6 && (!user ==> domain == 0)
    requires (forall t :: 0 <= t < 5 ==> TaskOk(k.tasks[t])) && Paired(k.eps, k.tasks)
    ensures var k' := Admit(k, cptr, user, domain, period, relative, now).k;
            forall t, running :: 0 <= t < 5 && CallOk(h, t, k.tasks[t], running) ==> CallOk(h, t, k'.tasks[t], running)
  {
    hide Admit, Paired, CountPresent;
    AdmittedSlot(k, cptr, user, domain, period, relative, now);
  }

  /** The task that dies is in no call. */
  lemma RemovedKeepsCalls(h: History, k: Kernel)
    requires Inv(k) && CallsOk(h, k) && k.mode.Running? && k.tasks[k.current].user
    ensures Removed(k).eps == k.eps
    ensures forall t :: 0 <= t < 5 ==> CallOk(h, t, Removed(k).tasks[t], false)
  {
    hide CountPresent;
    ScrubFindsNothing(k);
    forall t: nat | t < 5 ensures CallOk(h, t, Removed(k).tasks[t], false) {
      assert CallOk(h, t, k.tasks[t], IsRunning(k, t));
    }
  }

  lemma DeathKeepsCalls(h: History, k: Kernel, domain: nat, now: nat)
    requires Switchable(k) && forall t :: 0 <= t < 5 ==> CallOk(h, t, k.tasks[t], false)
    ensures forall t :: 0 <= t < 5 ==> CallOk(h, t, OnDomainDeath(k, domain, now).k.tasks[t], false)
    ensures OnDomainDeath(k, domain, now).k.eps == k.eps
  {
    hide Regrant, CountPresent, InvokeCap;
    if domain == FAULT_DOMAIN && k.restarts > 0 {
      var g := Regrant(k.(restarts := k.restarts - 1));
      RegrantKeepsTasks(k.(restarts := k.restarts - 1));
      if g.memory.Some? && g.time.Some? {
        AdmitKeepsCalls(h, g.k, g.time.value, true, FAULT_DOMAIN, RESTART_PERIOD, RESTART_PERIOD, now);
      }
    }
  }

  lemma FaultKeeps(h: History, k: Kernel, now: nat)
    requires Inv(k) && HistoryOk(h, k) && k.mode.Running? && k.current != 0 && k.tasks[k.current].user
    ensures HistoryOk(h, Terminate(k, now))
  {
    hide Removed, OnDomainDeath, Dispatch, Switchable, MatchesOk, ReturnsOk, CallOk;
    RemovedIsSwitchable(k);
    RemovedKeepsCalls(h, k);
    var d := k.tasks[k.current].domain;
    DeathIsSwitchable(Removed(k), d, now);
    DeathKeepsCalls(h, Removed(k), d, now);
    DispatchKeepsCalls(h, OnDomainDeath(Removed(k), d, now).k, now);
  }

  lemma SameTasksKeepsHistory(h: History, k: Kernel, k': Kernel)
    requires HistoryOk(h, k) && SameTasks(k, k')
    ensures HistoryOk(h, k')
  {
    hide MatchesOk, ReturnsOk, CallOk;
  }

  lemma AdmitStepKeeps(h: History, k: Kernel, e: Event)
    requires Inv(k) && Enabled(k, e) && HistoryOk(h, k) && e.AdmitTask?
    ensures HistoryOk(h, Next(k, e))
  {
    hide MatchesOk, ReturnsOk, CallOk, CountPresent, InvokeCap;
    AdmitKeepsCalls(h, k, e.cptr, e.user, e.domain, e.period, e.relative, e.now);
  }

  /** Every step keeps the agreement between the kernel and its history. */
  lemma StepKeepsHistory(h: History, k: Kernel, e: Event)
    requires Inv(k) && Enabled(k, e) && HistoryOk(h, k)
    ensures HistoryOk(NextHistory(h, k, e), Next(k, e))
  {
    hide HistoryOk, SchedOk, Paired, Tick, Syscall, Terminate, Admit, CreateBacked, DelegateFromRoot, RevokeObject, EndpointCall, InvokeDirect;
    match e
    case TimerTick(now) => NoEndpointCall(k, e); TickKeeps(h, k, now);
    case Direct(domain, cptr, op, env) =>
      NoEndpointCall(k, e); DirectKeepsTables(k, domain, cptr, op, env); SameTasksKeepsHistory(h, k, Next(k, e));
    case Call(_, _, _, _, _, _) => CallKeepsHistory(h, k, e);
    case Resume => ResumeKeeps(h, k);
    case Fault(now) => NoEndpointCall(k, e); FaultKeeps(h, k, now);
    case AdmitTask(_, _, _, _, _, _) => NoEndpointCall(k, e); AdmitStepKeeps(h, k, e);
    case NewObject(kind, backed) =>
      NoEndpointCall(k, e); CreateKeepsTasks(k, kind, backed); SameTasksKeepsHistory(h, k, Next(k, e));
    case Grant(dst, cptr, mask, badge) =>
      NoEndpointCall(k, e); GrantKeepsTasks(k, dst, cptr, mask, badge); SameTasksKeepsHistory(h, k, Next(k, e));
    case RevokeAll(oid) => NoEndpointCall(k, e); SameTasksKeepsHistory(h, k, Next(k, e));
    case Register(budget) => NoEndpointCall(k, e); SameTasksKeepsHistory(h, k, Next(k, e));
  }

  lemma NoEndpointCall(k: Kernel, e: Event)
    requires Inv(k) && !e.Call?
    ensures k.curDomain < 6 && EndpointCall(k, e).None?
  {
  }

  lemma CallKeepsHistory(h: History, k: Kernel, e: Event)
    requires Inv(k) && Enabled(k, e) && HistoryOk(h, k) && e.Call?
    ensures HistoryOk(NextHistory(h, k, e), Next(k, e))
  {
    hide EndpointCall, Syscall, MatchesOk, ReturnsOk, CallOk, StagedOk, CountPresent, Paired;
    CallByCase(k, e);
    var o := EndpointCall(k, e);
    if o.None? {
      SameTasksKeepsHistory(h, k, Next(k, e));
    } else if k.eps[o.value.ep].state.EpIdle? {
      ParkStepKeeps(h, k, e);
    } else if k.eps[o.value.ep].state != WaitState(o.value.why) {
      HandoffStepKeeps(h, k, e);
    }
  }

  // ---- runs ----

  ghost predicate IsLoggedRun(ks: seq<Kernel>, es: seq<Event>, hs: seq<History>) {
    && IsRun(ks, es) && |hs| == |ks| && hs[0] == NO_HISTORY
    && (forall i :: 0 <= i < |es| ==> hs[i + 1] == NextHistory(hs[i], ks[i], es[i]))
  }

  lemma {:induction false} HistoryAlongRun(ks: seq<Kernel>, es: seq<Event>, hs: seq<History>, i: nat)
    requires IsLoggedRun(ks, es, hs) && i < |ks|
    ensures HistoryOk(hs[i], ks[i])
  {
    hide HistoryOk, Initial, Inv, NextHistory, Next;
    if i == 0 {
      InitialHistoryOk(ks[0]);
    } else {
      HistoryAlongRun(ks, es, hs, i - 1);
      InvAlongRun(ks, es, i - 1);
      StepKeepsHistory(hs[i - 1], ks[i - 1], es[i - 1]);
    }
  }

  // ---- the log and the kernel agree ----

  /** The call meets a partner that waits in the opposite direction. */
  predicate Meets(k: Kernel, e: Event)
    requires Shaped(k)
  {
    && EndpointCall(k, e).Some?
    && var o := EndpointCall(k, e).value;
    o.ep < 1024 && !k.eps[o.ep].state.EpIdle? && k.eps[o.ep].state != WaitState(o.why)
  }

  ghost predicate Woken(k: Kernel, k': Kernel, t: nat) {
    t < 5 && k.tasks[t].blocked && !k'.tasks[t].blocked
  }

  ghost predicate SomeoneWoken(k: Kernel, k': Kernel) {
    exists t: nat :: Woken(k, k', t)
  }

  /** The rendezvous of a call with its waiting partner, as the log and the two kernels show it. */
  ghost predicate LoggedHandoff(h: History, k: Kernel, o: Op, told: Option<IpcResult>, h': History, k': Kernel)
    requires o.ep < 1024
  {
    var id, p := |h.ops|, k.eps[o.ep].peerTask;
    && h'.ops == h.ops + [o] && p < 5 && h.open[p].Some?
    && |h'.matches| == |h.matches| + 1 && h'.matches[..|h.matches|] == h.matches
    && var partner, m := h.open[p].value, h'.matches[|h.matches|];
    && (m.send, m.recv) == (if o.why.Sending? then (id, partner) else (partner, id))
    && id in h'.returned && told == Some(h'.returned[id]) && h'.returned[id] == ResultFor(m, id)
    && Woken(k, k', p) && k'.tasks[p].ipc == ResultFor(m, partner)
  }

  lemma HandoffLogged(h: History, k: Kernel, e: Event)
    requires Inv(k) && Enabled(k, e) && HistoryOk(h, k) && e.Call? && Meets(k, e)
    ensures LoggedHandoff(h, k, EndpointCall(k, e).value, Told(k, e), NextHistory(h, k, e), Next(k, e))
  {
    hide MatchesOk, ReturnsOk, StagedOk, EndpointCall, CountPresent, Rendezvous, Told, Syscall;
    var o := EndpointCall(k, e).value;
    CallByCase(k, e);
    var p := k.eps[o.ep].peerTask;
    assert WaitsOn(k.tasks[p], o.ep, k.eps[o.ep]) && CallOk(h, p, k.tasks[p], false);
  }

  /**
   Every handoff the kernel makes is in the log: the call and the open call of the task it wakes are
   the two sides of a new match, and what the system call returned and what it staged are what that
   match decided.
   */
  lemma HandoffIsLogged(ks: seq<Kernel>, es: seq<Event>, hs: seq<History>, i: nat)
    requires IsLoggedRun(ks, es, hs) && i < |es| && es[i].Call? && Meets(ks[i], es[i])
    ensures LoggedHandoff(hs[i], ks[i], EndpointCall(ks[i], es[i]).value, Told(ks[i], es[i]), hs[i + 1], ks[i + 1])
  {
    hide HistoryOk, Initial, Inv, NextHistory, Next, LoggedHandoff;
    InvAlongRun(ks, es, i);
    HistoryAlongRun(ks, es, hs, i);
    HandoffLogged(hs[i], ks[i], es[i]);
  }

  lemma DispatchWakesNobody(k: Kernel, now: nat)
    ensures !SomeoneWoken(k, Dispatch(k, now))
  {
    hide Rolled, PickNext;
    forall t: nat ensures !Woken(k, Dispatch(k, now), t) {
      if t < 5 { RolledKeeps(k.tasks, now, t); }
    }
  }

  lemma AdmissionWakesNobody(k: Kernel, cptr: nat, user: bool, domain: nat, period: nat, relative: nat, now: nat)
    requires domain < 6 && (!user ==> domain == 0)
    requires (forall t :: 0 <= t < 5 ==> TaskOk(k.tasks[t])) && Paired(k.eps, k.tasks)
    ensures !SomeoneWoken(k, Admit(k, cptr, user, domain, period, relative, now).k)
  {
    hide Admit, Paired, CountPresent;
    AdmittedSlot(k, cptr, user, domain, period, relative, now);
  }

  lemma DeathWakesNobody(k: Kernel, domain: nat, now: nat)
    requires Switchable(k)
    ensures !SomeoneWoken(k, OnDomainDeath(k, domain, now).k)
  {
    hide Regrant, Admit, CountPresent;
    var k1 := k.(restarts := if k.restarts > 0 then k.restarts - 1 else 0);
    RegrantKeepsTasks(k1);
    var g := Regrant(k1);
    if domain == FAULT_DOMAIN && k.restarts > 0 && g.memory.Some? && g.time.Some? {
      AdmissionWakesNobody(g.k, g.time.value, true, FAULT_DOMAIN, RESTART_PERIOD, RESTART_PERIOD, now);
      var k2 := OnDomainDeath(k, domain, now).k;
      forall t: nat ensures !Woken(k, k2, t) {
        assert !Woken(g.k, k2, t);
      }
    }
  }

  lemma FaultWakesNobody(k: Kernel, now: nat)
    requires Inv(k) && k.current != 0 && k.tasks[k.current].user
    ensures !SomeoneWoken(k, Terminate(k, now))
  {
    hide Dispatch, OnDomainDeath, Scrubbed, CountPresent, Paired;
    RemovedIsSwitchable(k);
    var k2 := OnDomainDeath(Removed(k), k.tasks[k.current].domain, now).k;
    DeathWakesNobody(Removed(k), k.tasks[k.current].domain, now);
    DispatchWakesNobody(k2, now);
    forall t: nat ensures !Woken(k, Terminate(k, now), t) {
      if t < 5 && k.tasks[t].blocked {
        assert !Woken(Removed(k), k2, t) && !Woken(k2, Terminate(k, now), t);
      }
    }
  }

  lemma ParkWakesNobody(k: Kernel, ep: nat, slot: EpSlot, why: Direction, now: nat)
    requires k.current < 5 && ep < 1024
    ensures !SomeoneWoken(k, Park(k, ep, slot, why, now).k)
  {
    hide Dispatch;
    var t := k.tasks[k.current].(blocked := true, reason := why, waitEp := ep, context := InsideCall);
    var k1 := k.(eps := k.eps[ep := slot], tasks := k.tasks[k.current := t]);
    DispatchWakesNobody(k1, now);
    forall i: nat ensures !Woken(k, Park(k, ep, slot, why, now).k, i) {
      assert !Woken(k1, Dispatch(k1, now), i);
    }
  }

  lemma CallWakesNobody(h: History, k: Kernel, e: Event)
    requires Inv(k) && Enabled(k, e) && e.Call? && !Meets(k, e)
    ensures !SomeoneWoken(k, Next(k, e))
    ensures NextHistory(h, k, e).matches == h.matches
  {
    hide EndpointCall, Told, Syscall, Park, SchedOk, Paired;
    CallByCase(k, e);
    var o := EndpointCall(k, e);
    if o.Some? && k.eps[o.value.ep].state.EpIdle? {
      ParkWakesNobody(k, o.value.ep, ParkSlot(k, o.value), o.value.why, e.now);
    }
  }

  lemma TickWakesNobody(k: Kernel, now: nat)
    requires k.current < 5
    ensures !SomeoneWoken(k, Tick(k, now))
  {
    hide Dispatch;
    var k1 := k.(tasks := k.tasks[k.current := k.tasks[k.current].(context := OwnCode)]);
    DispatchWakesNobody(k1, now);
    forall t: nat ensures !Woken(k, Tick(k, now), t) {
      assert !Woken(k1, Dispatch(k1, now), t);
    }
  }

  /** Without a handoff nobody is woken and nothing is matched. */
  lemma NobodyWoken(h: History, k: Kernel, e: Event)
    requires Inv(k) && Enabled(k, e) && !(e.Call? && Meets(k, e))
    ensures !SomeoneWoken(k, Next(k, e))
    ensures NextHistory(h, k, e).matches == h.matches
  {
    hide SchedOk, Paired, Tick, Syscall, Terminate, Admit, CreateBacked, DelegateFromRoot, RevokeObject, EndpointCall, InvokeDirect;
    if !e.Call? { NoEndpointCall(k, e); }
    match e
    case TimerTick(now) => TickWakesNobody(k, now);
    case Call(_, _, _, _, _, _) => CallWakesNobody(h, k, e);
    case Fault(now) => FaultWakesNobody(k, now);
    case AdmitTask(cptr, user, domain, period, relative, now) =>
      AdmitStepWakesNobody(k, e);
    case NewObject(kind, backed) => CreateKeepsTasks(k, kind, backed);
    case Grant(dst, cptr, mask, badge) => GrantKeepsTasks(k, dst, cptr, mask, badge);
    case Direct(domain, cptr, op, env) => DirectKeepsTables(k, domain, cptr, op, env);
    case _ =>
  }

  lemma AdmitStepWakesNobody(k: Kernel, e: Event)
    requires Inv(k) && Enabled(k, e) && e.AdmitTask?
    ensures !SomeoneWoken(k, Next(k, e))
  {
    AdmissionWakesNobody(k, e.cptr, e.user, e.domain, e.period, e.relative, e.now);
  }

  /** A blocked task is woken in a step exactly when that step is a logged rendezvous. */
  lemma WokenExactlyByRendezvous(ks: seq<Kernel>, es: seq<Event>, hs: seq<History>, i: nat)
    requires IsLoggedRun(ks, es, hs) && i < |es|
    ensures SomeoneWoken(ks[i], ks[i + 1]) <==> |hs[i + 1].matches| == |hs[i].matches| + 1
    ensures hs[i + 1].matches == hs[i].matches || |hs[i + 1].matches| == |hs[i].matches| + 1
  {
    hide HistoryOk, Initial, NextHistory, Next, Woken;
    InvAlongRun(ks, es, i);
    HistoryAlongRun(ks, es, hs, i);
    if es[i].Call? && Meets(ks[i], es[i]) {
      HandoffLogged(hs[i], ks[i], es[i]);
    } else {
      NobodyWoken(hs[i], ks[i], es[i]);
    }
  }

  /**
   Exactly-once rendezvous. In every reachable state each rendezvous made pairs one send with one
   receive on the same endpoint and hands over exactly that send's word; no call is in two of them;
   and every call has returned what its rendezvous decided, or is parked, or has that result staged.
   The log is the kernel's: a call that meets a waiting partner is logged with what it returned and
   what it staged, and a step wakes a blocked task exactly when it adds a rendezvous.
   */
  lemma RendezvousExactlyOnce(ks: seq<Kernel>, es: seq<Event>, hs: seq<History>, i: nat)
    requires IsLoggedRun(ks, es, hs) && i < |ks|
    ensures var h, k := hs[i], ks[i];
            && (forall j :: 0 <= j < |h.matches| ==> MatchOk(h.ops, h.matches[j]))
            && (forall j, l :: 0 <= j < l < |h.matches| ==>
                  h.matches[j].send != h.matches[l].send && h.matches[j].recv != h.matches[l].recv)
            && (forall id :: 0 <= id < |h.ops| ==>
                  || (id in h.returned && id in h.matchOf && h.matchOf[id] < |h.matches|
                      && h.returned[id] == ResultFor(h.matches[h.matchOf[id]], id))
                  || (h.ops[id].task < 5 && h.open[h.ops[id].task] == Some(id)
                      && var t := k.tasks[h.ops[id].task];
                      if t.blocked then id !in h.matchOf
                      else id in h.matchOf && h.matchOf[id] < |h.matches|
                           && t.ipc == ResultFor(h.matches[h.matchOf[id]], id)))
    ensures i < |es| && es[i].Call? && Meets(ks[i], es[i]) ==>
              LoggedHandoff(hs[i], ks[i], EndpointCall(ks[i], es[i]).value, Told(ks[i], es[i]), hs[i + 1], ks[i + 1])
    ensures i < |es| ==> (SomeoneWoken(ks[i], ks[i + 1]) <==> |hs[i + 1].matches| == |hs[i].matches| + 1)
  {
    hide MatchOk, LoggedHandoff, EndpointCall, Told, Initial, NextHistory, Next, SomeoneWoken, SchedOk, Paired;
    HistoryAlongRun(ks, es, hs, i);
    if i < |es| {
      WokenExactlyByRendezvous(ks, es, hs, i);
      if es[i].Call? && Meets(ks[i], es[i]) { HandoffIsLogged(ks, es, hs, i); }
    }
    forall id | 0 <= id < |hs[i].ops| && id !in hs[i].returned
      ensures hs[i].ops[id].task < 5
      ensures CallOk(hs[i], hs[i].ops[id].task, ks[i].tasks[hs[i].ops[id].task], IsRunning(ks[i], hs[i].ops[id].task))
    {
      assert hs[i].open[hs[i].ops[id].task] == Some(id);
    }
  }

  ghost predicate Grows(h: History, h': History) {
    && h.ops <= h'.ops && h.matches <= h'.matches
    && (forall id :: id in h.matchOf ==> id in h'.matchOf && h'.matchOf[id] == h.matchOf[id])
    && (forall id :: id in h.returned ==> id in h'.returned && h'.returned[id] == h.returned[id])
  }

  lemma GrowsByCall(h: History, o: Op, partner: nat, x: Handoff, told: Option<IpcResult>)
    requires |h.ops| !in h.matchOf && |h.ops| !in h.returned
    ensures o.task < 5 ==> Grows(h, Parked(h, o))
    ensures partner !in h.matchOf ==> Grows(h, Matched(h, o, partner, x, told))
  {
  }

  lemma HistoryGrows(h: History, k: Kernel, e: Event)
    requires Inv(k) && Enabled(k, e) && HistoryOk(h, k)
    ensures Grows(h, NextHistory(h, k, e))
  {
    hide MatchesOk, ReturnsOk, StagedOk, EndpointCall, CountPresent, HandoffOf, Parked, Matched, Told;
    NotYetKnown(h);
    assert CallOk(h, k.current, k.tasks[k.current], IsRunning(k, k.current));
    if e.Call? {
      CallByCase(k, e);
      var o := EndpointCall(k, e);
      if o.Some? {
        var p := k.eps[o.value.ep].peerTask;
        GrowsByCall(h, o.value, 0, HandoffOf(k, o.value), Told(k, e));
        if !k.eps[o.value.ep].state.EpIdle? && h.open[p].Some? {
          assert WaitsOn(k.tasks[p], o.value.ep, k.eps[o.value.ep]);
          assert CallOk(h, p, k.tasks[p], IsRunning(k, p));
          GrowsByCall(h, o.value, h.open[p].value, HandoffOf(k, o.value), Told(k, e));
        }
      }
    } else if !e.Resume? {
      NoEndpointCall(k, e);
    }
  }

  lemma {:induction false} HistoryGrowsAlongRun(ks: seq<Kernel>, es: seq<Event>, hs: seq<History>, i: nat, j: nat)
    requires IsLoggedRun(ks, es, hs) && i <= j < |ks|
    ensures Grows(hs[i], hs[j])
    decreases j
  {
    hide HistoryOk, Initial, Inv, NextHistory, Next;
    if i < j {
      HistoryGrowsAlongRun(ks, es, hs, i, j - 1);
      InvAlongRun(ks, es, j - 1);
      HistoryAlongRun(ks, es, hs, j - 1);
      HistoryGrows(hs[j - 1], ks[j - 1], es[j - 1]);
    }
  }

  /**
   No result is lost or overwritten: once a call has been matched, whatever it returns later is what
   the rendezvous decided then.
   */
  lemma StagedResultIsReturned(ks: seq<Kernel>, es: seq<Event>, hs: seq<History>, i: nat, j: nat, id: nat)
    requires IsLoggedRun(ks, es, hs) && i <= j < |ks|
    requires id in hs[i].matchOf && id in hs[j].returned
    ensures hs[i].matchOf[id] < |hs[i].matches|
    ensures hs[j].returned[id] == ResultFor(hs[i].matches[hs[i].matchOf[id]], id)
  {
    hide MatchOk;
    HistoryAlongRun(ks, es, hs, i);
    HistoryAlongRun(ks, es, hs, j);
    HistoryGrowsAlongRun(ks, es, hs, i, j);
  }

  /** A task that resumes inside a call always has a call to resume, and it has been matched. */
  lemma ResumeHasResult(ks: seq<Kernel>, es: seq<Event>, hs: seq<History>, i: nat)
    requires IsLoggedRun(ks, es, hs) && i < |es| && es[i].Resume?
    ensures var c := ks[i].current;
            hs[i].open[c].Some? && hs[i].open[c].value in hs[i].matchOf
            && hs[i + 1].returned == hs[i].returned[hs[i].open[c].value := ks[i].tasks[c].ipc]
  {
    hide MatchesOk, ReturnsOk, StagedOk;
    InvAlongRun(ks, es, i);
    HistoryAlongRun(ks, es, hs, i);
    assert CallOk(hs[i], ks[i].current, ks[i].tasks[ks[i].current], false);
  }
}
