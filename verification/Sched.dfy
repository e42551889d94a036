/**
 The earliest-deadline-first scheduler's task table: releasing periodic jobs and choosing the next
 task. A task's saved stack pointer is reduced to what it resumes.
 */
module Sched {
  import opened Machine

  const MAX_TASKS: nat := 5

  /** No saved context; one that resumes the task's own code; one that resumes inside a blocking call. */
  datatype Context = NoContext | OwnCode | InsideCall

  datatype Direction = Sending | Receiving

  /** What a waker stages for the task it wakes: status, reply word and capability slot. */
  datatype IpcResult = IpcResult(status: nat, reply: nat, cptr: nat)

  datatype Task = Task(
    context: Context, present: bool, runnable: bool, user: bool,
    period: nat, deadline: nat, activations: nat, domain: nat,
    blocked: bool, reason: Direction, waitEp: nat, ipc: IpcResult)

  const EMPTY_TASK: Task :=
    Task(NoContext, false, false, false, 0, U64_MAX, 0, 0, false, Sending, 0, IpcResult(0, 0, 0))

  type Tasks = s: seq<Task> | |s| == 5 witness seq(5, _ => EMPTY_TASK)

  // ---- releasing jobs ----

  predicate Due(t: Task, now: nat) {
    t.present && t.period > 0 && t.deadline <= now
  }

  /** Periods to add so that a due deadline lies after `now`. */
  function Releases(t: Task, now: nat): (k: nat)
    requires Due(t, now)
    ensures k >= 1
    ensures t.deadline + k * t.period > now
    ensures t.deadline + (k - 1) * t.period <= now
  {
    var q := (now - t.deadline) / t.period;
    DivisionBounds(now - t.deadline, t.period);
    assert (q + 1) * t.period == q * t.period + t.period;
    q + 1
  }

  lemma DivisionBounds(a: nat, b: nat)
    requires b > 0
    ensures 0 <= a / b * b <= a < a / b * b + b
  {
  }

  /** All releases at once: whole periods are added, the deadline saturating at the largest u64. */
  function Released(t: Task, now: nat): Task {
    if !Due(t, now) then t
    else
      var k := Releases(t, now);
      t.(activations := t.activations + k, deadline := Min(t.deadline + k * t.period, U64_MAX),
         runnable := t.runnable || !t.blocked)
  }

  /** Task 0 has no deadline to roll. */
  function Rolled(ts: Tasks, now: nat): (r: Tasks) {
    seq(5, i requires 0 <= i < 5 => if i == 0 then ts[0] else Released(ts[i], now))
  }

  function OneRelease(t: Task): Task {
    t.(activations := t.activations + 1, deadline := Min(t.deadline + t.period, U64_MAX),
       runnable := t.runnable || !t.blocked)
  }

  /** One release does not change where the rest lead. */
  lemma ReleaseOnce(t: Task, now: nat)
    requires Due(t, now) && now < U64_MAX
    ensures Released(OneRelease(t), now) == Released(t, now)
    ensures OneRelease(t).deadline > t.deadline
  {
    var k, u := Releases(t, now), OneRelease(t);
    if k == 1 {
      assert k * t.period == t.period;
      assert u.deadline > now;
    } else {
      assert (k - 1) * t.period >= 1 * t.period by { MultiplyMonotone(1, k - 1, t.period); }
      assert u.deadline == t.deadline + t.period <= now;
      assert (k - 2) * t.period + t.period == (k - 1) * t.period;
      assert (k - 1) * t.period + t.period == k * t.period;
      ReleasesUnique(u, now, k - 1);
    }
  }

  lemma MultiplyMonotone(a: nat, b: nat, c: nat)
    requires a <= b
    ensures a * c <= b * c
  {
  }

  lemma ReleasesUnique(t: Task, now: nat, k: nat)
    requires Due(t, now) && k >= 1
    requires t.deadline + k * t.period > now >= t.deadline + (k - 1) * t.period
    ensures Releases(t, now) == k
  {
    var j := Releases(t, now);
    if j < k {
      MultiplyMonotone(j, k - 1, t.period);
    } else if j > k {
      MultiplyMonotone(k, j - 1, t.period);
    }
  }

  /** No job is lost by rolling late: rolling at `a` and again at `b` releases what rolling at `b` alone does. */
  lemma RollingComposes(t: Task, a: nat, b: nat)
    requires a <= b < U64_MAX
    ensures Released(Released(t, a), b) == Released(t, b)
  {
    if Due(t, a) {
      var k, u := Releases(t, a), Released(t, a);
      if u.deadline > b {
        assert t.deadline + (k - 1) * t.period <= a;
        ReleasesUnique(t, b, k);
      } else {
        var j := Releases(u, b);
        assert (k + j) * t.period == k * t.period + j * t.period;
        assert (k + j - 1) * t.period == k * t.period + (j - 1) * t.period;
        ReleasesUnique(t, b, k + j);
      }
    }
  }

  /** The catch-up loop of one periodic task. */
  method CatchUp(t0: Task, now: nat) returns (t: Task)
    requires t0.present && t0.period > 0 && now < U64_MAX
    ensures t == Released(t0, now)
  {
    t := t0;
    while t.deadline <= now
      invariant t.present && t.period > 0
      invariant Released(t, now) == Released(t0, now)
      decreases U64_MAX - t.deadline
    {
      ReleaseOnce(t, now);
      var d := Min(t.deadline + t.period, U64_MAX);
      t := t.(activations := t.activations + 1, deadline := d);
      if !t.blocked {
        t := t.(runnable := true);
      }
    }
  }

  /** Every task but the idle one catches up. */
  method RollDeadlines(tasks: array<Task>, now: nat)
    requires tasks.Length == MAX_TASKS && now < U64_MAX
    modifies tasks
    ensures tasks[..] == Rolled(old(tasks[..]), now)
  {
    hide Released;
    for i := 1 to MAX_TASKS
      invariant tasks[0] == old(tasks[0])
      invariant forall j :: 1 <= j < i ==> tasks[j] == Released(old(tasks[j]), now)
      invariant forall j :: i <= j < MAX_TASKS ==> tasks[j] == old(tasks[j])
    {
      if tasks[i].present && tasks[i].period > 0 {
        var t := CatchUp(tasks[i], now);
        tasks[i] := t;
      } else {
        NotPeriodic(tasks[i], now);
      }
    }
  }

  lemma NotPeriodic(t: Task, now: nat)
    requires !t.present || t.period == 0
    ensures Released(t, now) == t
  {
  }

  // ---- choosing the next task ----

  predicate Eligible(t: Task) {
    t.present && t.runnable && !t.blocked
  }

  /** `n` is the eligible task with the least deadline, the lowest index among equals, or idle. */
  ghost predicate IsChoice(ts: Tasks, n: nat) {
    && n < 5
    && (n == 0 ==> forall i :: 1 <= i < 5 ==> !Eligible(ts[i]))
    && (n > 0 ==>
          && Eligible(ts[n])
          && (forall i :: 1 <= i < 5 && Eligible(ts[i]) ==> ts[n].deadline <= ts[i].deadline)
          && (forall i :: 1 <= i < n && Eligible(ts[i]) ==> ts[n].deadline < ts[i].deadline))
  }

  function Better(ts: Tasks, i: nat, best: nat): nat
    requires 1 <= i < 5 && best < 5
  {
    if Eligible(ts[i]) && (best == 0 || ts[i].deadline < ts[best].deadline) then i else best
  }

  function PickNext(ts: Tasks): (n: nat)
    ensures IsChoice(ts, n)
  {
    Better(ts, 4, Better(ts, 3, Better(ts, 2, Better(ts, 1, 0))))
  }

  lemma ChoiceUnique(ts: Tasks, m: nat, n: nat)
    requires IsChoice(ts, m) && IsChoice(ts, n)
    ensures m == n
  {
  }

  /**
   What a switch at `now` promises task `i`: exactly the jobs that fell due are released, no periodic
   task stays due, and the task `n` chosen is the eligible one with the least (deadline, index).
   */
  ghost predicate EdfFor(ts: Tasks, now: nat, r: Tasks, n: nat, i: nat)
    requires 1 <= i < 5 && n < 5
  {
    var t, u := ts[i], r[i];
    && (if t.present && t.period > 0 && t.deadline <= now then
          var k := (now - t.deadline) / t.period + 1;
          u == t.(activations := t.activations + k, deadline := Min(t.deadline + k * t.period, U64_MAX),
                  runnable := t.runnable || !t.blocked)
        else u == t)
    && (t.present && t.period > 0 ==> u.deadline > now)
    && (u.present && u.runnable && !u.blocked ==>
          n > 0 && (r[n].deadline < u.deadline || (r[n].deadline == u.deadline && n <= i)))
    && (n == i ==> u.present && u.runnable && !u.blocked)
  }

  lemma EarliestDeadlineFirst(ts: Tasks, now: nat, i: nat)
    requires 1 <= i < 5 && now < U64_MAX
    ensures EdfFor(ts, now, Rolled(ts, now), PickNext(Rolled(ts, now)), i)
  {
    var t := ts[i];
    if Due(t, now) {
      var q := (now - t.deadline) / t.period;
      DivisionBounds(now - t.deadline, t.period);
      assert (q + 1) * t.period == q * t.period + t.period;
      ReleasesUnique(t, now, q + 1);
    }
  }

  /** The scan over the task table. */
  method PickNextScan(ts: Tasks) returns (best: nat)
    ensures best == PickNext(ts)
  {
    best := 0;
    var bestDl, foundReal := U64_MAX, false;
    for i := 1 to MAX_TASKS
      invariant best < i && (foundReal <==> best > 0)
      invariant foundReal ==> Eligible(ts[best]) && bestDl == ts[best].deadline
      invariant forall j :: 1 <= j < i && Eligible(ts[j]) ==> foundReal && ts[best].deadline <= ts[j].deadline
      invariant forall j :: 1 <= j < best && Eligible(ts[j]) ==> ts[best].deadline < ts[j].deadline
    {
      if Eligible(ts[i]) && (!foundReal || ts[i].deadline < bestDl) {
        best, bestDl, foundReal := i, ts[i].deadline, true;
      }
    }
    ChoiceUnique(ts, best, PickNext(ts));
  }

  /** Every switch: the loops of the release, then the scan. */
  method Reschedule(tasks: array<Task>, now: nat) returns (n: nat)
    requires tasks.Length == MAX_TASKS && now < U64_MAX
    modifies tasks
    ensures n < 5 && tasks[0] == old(tasks[0])
    ensures forall i :: 1 <= i < 5 ==> EdfFor(old(tasks[..]), now, tasks[..], n, i)
    ensures tasks[..] == Rolled(old(tasks[..]), now) && n == PickNext(tasks[..])
  {
    ghost var was := tasks[..];
    RollDeadlines(tasks, now);
    n := PickNextScan(tasks[..]);
    hide EdfFor, PickNext;
    forall i | 1 <= i < 5 ensures EdfFor(was, now, tasks[..], n, i) { EarliestDeadlineFirst(was, now, i); }
  }
}
