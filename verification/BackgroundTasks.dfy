/** Background tasks: TaskService over the task table. Ids are handed out in creation order. */
module BackgroundTasks {
  import opened Common

  type TaskId = nat

  datatype Status = Queued | Running | Succeeded | Failed | Cancelled

  datatype Task = Task(
    user: nat,
    taskType: string,
    key: Option<string>,
    status: Status,
    progress: int,
    createdAt: int,
    startedAt: Option<int>,
    completedAt: Option<int>,
    cancelledAt: Option<int>)

  datatype State = State(tasks: map<TaskId, Task>, nextId: TaskId)

  /** What an idempotency key is looked up by. */
  datatype Query = Query(user: nat, taskType: string, key: string)

  /** allowed is the outcome of the permission check; now is the time of the call. */
  datatype Call =
    | CreateTask(user: nat, taskType: string, key: Option<string>, allowed: bool, now: int)
    | CancelTask(id: TaskId, allowed: bool, now: int)
    | MarkRunning(id: TaskId, progress: int, now: int)
    | MarkSucceeded(id: TaskId, progress: int, now: int)
    | MarkFailed(id: TaskId, now: int)
    | Cleanup(now: int)

  predicate IsTerminal(status: Status) {
    status.Succeeded? || status.Failed? || status.Cancelled?
  }

  predicate Matches(t: Task, q: Query) {
    t.user == q.user && t.taskType == q.taskType && t.key == Some(q.key)
  }

  /** ORDER BY created_at DESC LIMIT 1 among the ids below n. */
  function NewestBelow(tasks: map<TaskId, Task>, q: Query, n: TaskId): (r: Option<TaskId>)
    ensures r.Some? ==> r.value < n && r.value in tasks && Matches(tasks[r.value], q)
    ensures forall i :: 0 <= i < n && i in tasks && Matches(tasks[i], q) ==>
              r.Some? && tasks[i].createdAt <= tasks[r.value].createdAt
  {
    if n == 0 then None
    else
      var before := NewestBelow(tasks, q, n - 1);
      if n - 1 in tasks && Matches(tasks[n - 1], q) &&
         (before.None? || tasks[before.value].createdAt <= tasks[n - 1].createdAt)
      then Some(n - 1) else before
  }

  /** The newest task with the key, unless it ended longer ago than tasks are retained. */
  function Existing(retention: nat, s: State, q: Query, now: int): Option<TaskId> {
    var newest := NewestBelow(s.tasks, q, s.nextId);
    if newest.None? then None
    else
      var t := s.tasks[newest.value];
      if IsTerminal(t.status) && t.completedAt.Some? && t.completedAt.value < now - retention then None else newest
  }

  /** The task a key stands for; an empty key stands for none. */
  function ExistingFor(retention: nat, s: State, call: Call): Option<TaskId>
    requires call.CreateTask?
  {
    if call.key.Some? && call.key.value != ""
    then Existing(retention, s, Query(call.user, call.taskType, call.key.value), call.now)
    else None
  }

  /** The nearest percentage. */
  function Clamp(progress: int): (percent: int)
    ensures 0 <= percent <= 100
    ensures (percent < progress ==> percent == 100) && (progress < percent ==> percent == 0)
  {
    if progress < 0 then 0 else if progress > 100 then 100 else progress
  }

  function NewTask(call: Call): Task
    requires call.CreateTask?
  {
    Task(call.user, call.taskType, call.key, Queued, 0, call.now, None, None, None)
  }

  function After(retention: nat, s: State, call: Call): State {
    match call
    case CreateTask(_, _, _, allowed, _) =>
      if !allowed || ExistingFor(retention, s, call).Some? then s
      else State(s.tasks[s.nextId := NewTask(call)], s.nextId + 1)
    case CancelTask(id, allowed, now) =>
      if id !in s.tasks || !allowed || IsTerminal(s.tasks[id].status) then s
      else
        var t := s.tasks[id];
        s.(tasks := s.tasks[id := t.(status := Cancelled, cancelledAt := Some(now), completedAt := Some(now))])
    case MarkRunning(id, progress, now) =>
      if id !in s.tasks || IsTerminal(s.tasks[id].status) then s
      else
        var t := s.tasks[id];
        s.(tasks := s.tasks[id := t.(status := Running, progress := Clamp(progress),
                                     startedAt := if t.startedAt.Some? then t.startedAt else Some(now))])
    case MarkSucceeded(id, progress, now) =>
      if id !in s.tasks || s.tasks[id].status.Cancelled? then s
      else
        var t := s.tasks[id];
        s.(tasks := s.tasks[id := t.(status := Succeeded, progress := Clamp(progress), completedAt := Some(now))])
    case MarkFailed(id, now) =>
      if id !in s.tasks || s.tasks[id].status.Cancelled? then s
      else s.(tasks := s.tasks[id := s.tasks[id].(status := Failed, completedAt := Some(now))])
    case Cleanup(now) =>
      s.(tasks := map id | id in s.tasks && !Expired(retention, s.tasks[id], now) :: s.tasks[id])
  }

  predicate Expired(retention: nat, t: Task, now: int) {
    t.createdAt < now - retention && (t.status.Succeeded? || t.status.Cancelled?)
  }

  class TaskService {
    const retention: nat
    var tasks: map<TaskId, Task>
    var nextId: TaskId

    ghost function Now(): State
      reads this
    {
      State(tasks, nextId)
    }

    constructor (retention: nat)
      ensures this.retention == retention && Now() == State(map[], 0)
    {
      this.retention := retention;
      tasks, nextId := map[], 0;
    }

    /** TaskRepository.update: only the fields given are written, and progress is clamped. */
    method Update(id: TaskId, status: Option<Status>, progress: Option<int>, startedAt: Option<int>,
                  completedAt: Option<int>, cancelledAt: Option<int>)
      requires id in tasks
      modifies this`tasks
      ensures var t := old(tasks)[id];
              tasks == old(tasks)[id := t.(
                status := if status.Some? then status.value else t.status,
                progress := if progress.Some? then Clamp(progress.value) else t.progress,
                startedAt := if startedAt.Some? then startedAt else t.startedAt,
                completedAt := if completedAt.Some? then completedAt else t.completedAt,
                cancelledAt := if cancelledAt.Some? then cancelledAt else t.cancelledAt)]
    {
      var t := tasks[id];
      if status.Some? {
        t := t.(status := status.value);
      }
      if progress.Some? {
        t := t.(progress := Clamp(progress.value));
      }
      if startedAt.Some? {
        t := t.(startedAt := startedAt);
      }
      if completedAt.Some? {
        t := t.(completedAt := completedAt);
      }
      if cancelledAt.Some? {
        t := t.(cancelledAt := cancelledAt);
      }
      tasks := tasks[id := t];
    }

    method CreateTask(user: nat, taskType: string, key: Option<string>, allowed: bool, now: int)
      returns (id: Option<TaskId>)
      modifies this
      ensures var call := Call.CreateTask(user, taskType, key, allowed, now);
              Now() == After(retention, old(Now()), call) && id == Returned(retention, old(Now()), call)
      ensures !allowed ==> id.None? && Now() == old(Now())
      ensures allowed ==> id.Some? && id.value in tasks
      ensures allowed && (key.None? || key.value == "") ==> id == Some(old(nextId))
      ensures id == Some(old(nextId)) ==>
                nextId == old(nextId) + 1 &&
                tasks == old(tasks)[old(nextId) := Task(user, taskType, key, Queued, 0, now, None, None, None)]
      ensures id != Some(old(nextId)) ==> Now() == old(Now())
    {
      if !allowed {
        return None;
      }
      if key.Some? && key.value != "" {
        var existing := Existing(retention, State(tasks, nextId), Query(user, taskType, key.value), now);
        if existing.Some? {
          return existing;
        }
      }
      tasks := tasks[nextId := Task(user, taskType, key, Queued, 0, now, None, None, None)];
      id := Some(nextId);
      nextId := nextId + 1;
    }

    method CancelTask(id: TaskId, allowed: bool, now: int)
      modifies this`tasks
      ensures Now() == After(retention, old(Now()), Call.CancelTask(id, allowed, now))
      ensures tasks.Keys == old(tasks).Keys && forall i :: i in tasks && i != id ==> tasks[i] == old(tasks)[i]
      ensures id in tasks && allowed && (old(tasks)[id].status.Queued? || old(tasks)[id].status.Running?) ==>
                tasks[id] == old(tasks)[id].(status := Cancelled, cancelledAt := Some(now), completedAt := Some(now))
    {
      if id !in tasks || !allowed || IsTerminal(tasks[id].status) {
        return;
      }
      Update(id, Some(Cancelled), None, None, Some(now), Some(now));
    }

    method MarkRunning(id: TaskId, progress: int, now: int)
      modifies this`tasks
      ensures Now() == After(retention, old(Now()), Call.MarkRunning(id, progress, now))
      ensures tasks.Keys == old(tasks).Keys && forall i :: i in tasks && i != id ==> tasks[i] == old(tasks)[i]
      ensures id in tasks && (old(tasks)[id].status.Queued? || old(tasks)[id].status.Running?) ==>
                var t := old(tasks)[id];
                tasks[id] == t.(status := Running, progress := Clamp(progress),
                                startedAt := if t.startedAt.Some? then t.startedAt else Some(now))
    {
      if id !in tasks || IsTerminal(tasks[id].status) {
        return;
      }
      var startedAt := if tasks[id].startedAt.Some? then tasks[id].startedAt else Some(now);
      Update(id, Some(Running), Some(progress), startedAt, None, None);
    }

    method MarkSucceeded(id: TaskId, progress: int, now: int)
      modifies this`tasks
      ensures Now() == After(retention, old(Now()), Call.MarkSucceeded(id, progress, now))
      ensures tasks.Keys == old(tasks).Keys && forall i :: i in tasks && i != id ==> tasks[i] == old(tasks)[i]
      ensures id in tasks && old(tasks)[id].status != Cancelled ==>
                tasks[id] == old(tasks)[id].(status := Succeeded, progress := Clamp(progress),
                                             completedAt := Some(now))
    {
      if id !in tasks || tasks[id].status.Cancelled? {
        return;
      }
      Update(id, Some(Succeeded), Some(progress), None, Some(now), None);
    }

    method MarkFailed(id: TaskId, now: int)
      modifies this`tasks
      ensures Now() == After(retention, old(Now()), Call.MarkFailed(id, now))
      ensures tasks.Keys == old(tasks).Keys && forall i :: i in tasks && i != id ==> tasks[i] == old(tasks)[i]
      ensures id in tasks && old(tasks)[id].status != Cancelled ==>
                tasks[id] == old(tasks)[id].(status := Failed, completedAt := Some(now))
    {
      if id !in tasks || tasks[id].status.Cancelled? {
        return;
      }
      Update(id, Some(Failed), None, None, Some(now), None);
    }

    method CleanupExpiredTasks(now: int)
      modifies this`tasks
      ensures Now() == After(retention, old(Now()), Cleanup(now))
      ensures forall id :: id in tasks ==> id in old(tasks) && tasks[id] == old(tasks)[id]
      ensures forall id :: id in old(tasks) ==>
                (id !in tasks <==> old(tasks)[id].createdAt < now - retention &&
                                   (old(tasks)[id].status == Succeeded || old(tasks)[id].status == Cancelled))
    {
      tasks := map id | id in tasks && !Expired(retention, tasks[id], now) :: tasks[id];
    }
  }

  /** The task a create_task call returns. */
  function Returned(retention: nat, s: State, call: Call): Option<TaskId>
    requires call.CreateTask?
  {
    if !call.allowed then None
    else if ExistingFor(retention, s, call).Some? then ExistingFor(retention, s, call)
    else Some(s.nextId)
  }
}

/** Task lifecycles and idempotency keys over whole runs. */
module BackgroundTaskProofs {
  import opened Common
  import opened BackgroundTasks

  function Run(retention: nat, s: State, calls: seq<Call>): State
    decreases |calls|
  {
    if calls == [] then s else Run(retention, After(retention, s, calls[0]), calls[1..])
  }

  /** Times that start no earlier than clock and never go back. */
  ghost predicate TimesFrom(clock: int, calls: seq<Call>)
    decreases |calls|
  {
    calls != [] ==> clock <= calls[0].now && TimesFrom(calls[0].now, calls[1..])
  }

  // ----- lifecycles -----

  ghost predicate LifeOk(t: Task, clock: int) {
    && (t.completedAt.Some? <==> IsTerminal(t.status))
    && (t.cancelledAt.Some? <==> t.status.Cancelled?)
    && (t.status.Queued? ==> t.startedAt.None?)
    && (t.status.Running? ==> t.startedAt.Some?)
    && 0 <= t.progress <= 100
    && t.createdAt <= clock
    && (t.completedAt.Some? ==> t.createdAt <= t.completedAt.value <= clock)
  }

  /** No two tasks with the same key were created at the same time; later ids are later. */
  ghost predicate KeysOk(tasks: map<TaskId, Task>, q: Query) {
    forall i, j :: i in tasks && j in tasks && i < j && Matches(tasks[i], q) && Matches(tasks[j], q) ==>
      tasks[i].createdAt < tasks[j].createdAt
  }

  ghost predicate Inv(s: State, clock: int) {
    && (forall id :: id in s.tasks ==> id < s.nextId && LifeOk(s.tasks[id], clock))
    && (forall q: Query :: q.key != "" ==> KeysOk(s.tasks, q))
  }

  /** What one call may do to a task that stays in the table. */
  ghost predicate Moves(before: Task, after: Task) {
    && (after.user, after.taskType, after.key, after.createdAt) ==
       (before.user, before.taskType, before.key, before.createdAt)
    && (before.status.Cancelled? ==> after == before)
    && (IsTerminal(before.status) ==>
          IsTerminal(after.status) && !(after.status.Cancelled? && !before.status.Cancelled?))
    && (before.status.Running? ==> !after.status.Queued?)
    && (before.startedAt.Some? ==> after.startedAt == before.startedAt)
  }

  /** Kept tasks only make allowed moves; exactly the expired succeeded or cancelled ones go, at a cleanup. */
  lemma CallMoves(retention: nat, s: State, call: Call, id: TaskId)
    requires Inv(s, call.now) && id in s.tasks
    ensures var t := After(retention, s, call);
            && (id in t.tasks ==> Moves(s.tasks[id], t.tasks[id]))
            && (id !in t.tasks <==>
                  call.Cleanup? && s.tasks[id].createdAt < call.now - retention &&
                  (s.tasks[id].status.Succeeded? || s.tasks[id].status.Cancelled?))
  {
  }

  lemma CallKeepsKeys(retention: nat, s: State, clock: int, call: Call, q: Query)
    requires Inv(s, clock) && clock <= call.now && q.key != ""
    ensures KeysOk(After(retention, s, call).tasks, q)
  {
    var t := After(retention, s, call);
    assert KeysOk(s.tasks, q);
    if call.CreateTask? && t != s && Matches(NewTask(call), q) {
      var newest := NewestBelow(s.tasks, q, s.nextId);
      forall i | i in s.tasks && Matches(s.tasks[i], q)
        ensures s.tasks[i].createdAt < call.now
      {
        assert ExistingFor(retention, s, call) == Existing(retention, s, q, call.now);
        assert LifeOk(s.tasks[newest.value], clock);
      }
    } else {
      forall i | i in t.tasks && Matches(t.tasks[i], q)
        ensures i in s.tasks && Matches(s.tasks[i], q) && s.tasks[i].createdAt == t.tasks[i].createdAt
      {
      }
    }
  }

  lemma CallKeepsInv(retention: nat, s: State, clock: int, call: Call)
    requires Inv(s, clock) && clock <= call.now
    ensures Inv(After(retention, s, call), call.now)
  {
    var t := After(retention, s, call);
    forall id | id in t.tasks
      ensures id < t.nextId && LifeOk(t.tasks[id], call.now)
    {
      if id in s.tasks {
        assert LifeOk(s.tasks[id], clock);
      }
    }
    forall q: Query | q.key != ""
      ensures KeysOk(t.tasks, q)
    {
      CallKeepsKeys(retention, s, clock, call, q);
    }
  }

  function LastTime(clock: int, calls: seq<Call>): int {
    if calls == [] then clock else calls[|calls| - 1].now
  }

  lemma {:induction false} RunKeepsInv(retention: nat, s: State, clock: int, calls: seq<Call>)
    requires Inv(s, clock) && TimesFrom(clock, calls)
    ensures Inv(Run(retention, s, calls), LastTime(clock, calls))
    decreases |calls|
  {
    if calls != [] {
      CallKeepsInv(retention, s, clock, calls[0]);
      RunKeepsInv(retention, After(retention, s, calls[0]), calls[0].now, calls[1..]);
    }
  }

  /** In every reachable table each task's times and progress fit its status, and two tasks never tie on a key. */
  lemma ReachableTasksAreSound(retention: nat, clock: int, calls: seq<Call>, id: TaskId, other: TaskId, q: Query)
    requires TimesFrom(clock, calls)
    ensures var s := Run(retention, State(map[], 0), calls);
            && (id in s.tasks ==> LifeOk(s.tasks[id], LastTime(clock, calls)))
            && (id in s.tasks && other in s.tasks && id < other && q.key != "" &&
                Matches(s.tasks[id], q) && Matches(s.tasks[other], q) ==>
                  s.tasks[id].createdAt < s.tasks[other].createdAt)
  {
    RunKeepsInv(retention, State(map[], 0), clock, calls);
    assert q.key != "" ==> KeysOk(Run(retention, State(map[], 0), calls).tasks, q);
  }

  /** A cancelled task never changes again, and a terminal one never becomes active again, while it is kept. */
  lemma {:induction false} TerminalStaysTerminal(retention: nat, s: State, clock: int, calls: seq<Call>, id: TaskId)
    requires Inv(s, clock) && TimesFrom(clock, calls) && id in s.tasks && IsTerminal(s.tasks[id].status)
    ensures var t := Run(retention, s, calls);
            id in t.tasks ==>
              IsTerminal(t.tasks[id].status) &&
              (s.tasks[id].status.Cancelled? ==> t.tasks[id] == s.tasks[id]) &&
              (t.tasks[id].status.Cancelled? ==> s.tasks[id].status.Cancelled?) &&
              t.tasks[id].startedAt == s.tasks[id].startedAt
    decreases |calls|
  {
    if calls != [] {
      var t := After(retention, s, calls[0]);
      CallKeepsInv(retention, s, clock, calls[0]);
      if id in t.tasks {
        TerminalStaysTerminal(retention, t, calls[0].now, calls[1..], id);
      } else {
        GoneStaysGone(retention, t, calls[0].now, calls[1..], id);
      }
    }
  }

  lemma {:induction false} GoneStaysGone(retention: nat, s: State, clock: int, calls: seq<Call>, id: TaskId)
    requires Inv(s, clock) && TimesFrom(clock, calls) && id !in s.tasks && id < s.nextId
    ensures id !in Run(retention, s, calls).tasks
    decreases |calls|
  {
    if calls != [] {
      CallKeepsInv(retention, s, clock, calls[0]);
      GoneStaysGone(retention, After(retention, s, calls[0]), calls[0].now, calls[1..], id);
    }
  }

  /** A started task keeps its start time for as long as it is kept. */
  lemma {:induction false} StartIsWrittenOnce(retention: nat, s: State, clock: int, calls: seq<Call>, id: TaskId)
    requires Inv(s, clock) && TimesFrom(clock, calls) && id in s.tasks && s.tasks[id].startedAt.Some?
    ensures var t := Run(retention, s, calls);
            id in t.tasks ==> t.tasks[id].startedAt == s.tasks[id].startedAt && !t.tasks[id].status.Queued?
    decreases |calls|
  {
    if calls != [] {
      var t := After(retention, s, calls[0]);
      CallKeepsInv(retention, s, clock, calls[0]);
      if id in t.tasks {
        StartIsWrittenOnce(retention, t, calls[0].now, calls[1..], id);
      } else {
        GoneStaysGone(retention, t, calls[0].now, calls[1..], id);
      }
    }
  }

  // ----- the calls decide the status -----

  predicate IsReport(call: Call, id: TaskId) {
    (call.MarkSucceeded? || call.MarkFailed?) && call.id == id
  }

  predicate IsCancel(call: Call, id: TaskId) {
    call.CancelTask? && call.id == id && call.allowed
  }

  predicate IsStart(call: Call, id: TaskId) {
    call.MarkRunning? && call.id == id
  }

  /** Call k is a permitted cancel of the task, and neither a report on it nor such a cancel comes before it. */
  ghost predicate CancelComesFirst(calls: seq<Call>, k: nat, id: TaskId) {
    && k < |calls| && IsCancel(calls[k], id)
    && forall j :: 0 <= j < k ==> !IsReport(calls[j], id) && !IsCancel(calls[j], id)
  }

  ghost predicate IsCancelledBy(calls: seq<Call>, id: TaskId) {
    exists k: nat :: CancelComesFirst(calls, k, id)
  }

  /** What the last report on the task says, if there is one. */
  function LastReport(calls: seq<Call>, id: TaskId): Option<Status>
    decreases |calls|
  {
    if calls == [] then None
    else if LastReport(calls[1..], id).Some? then LastReport(calls[1..], id)
    else if IsReport(calls[0], id) then Some(if calls[0].MarkSucceeded? then Succeeded else Failed)
    else None
  }

  ghost predicate IsStartedBy(calls: seq<Call>, id: TaskId) {
    exists k :: 0 <= k < |calls| && IsStart(calls[k], id)
  }

  lemma CallDecidesStatus(retention: nat, s: State, call: Call, id: TaskId)
    requires id in s.tasks && id < s.nextId && id in After(retention, s, call).tasks
    ensures var before, after := s.tasks[id], After(retention, s, call).tasks[id];
            if before.status.Cancelled? then after == before
            else if IsReport(call, id) then after.status == if call.MarkSucceeded? then Succeeded else Failed
            else if IsTerminal(before.status) then after == before
            else if IsCancel(call, id) then
              after.status == Cancelled && after.cancelledAt == after.completedAt == Some(call.now)
            else if IsStart(call, id) then after.status == Running
            else after == before
  {
  }

  /** The first call is no such cancel and no report: the later calls decide. */
  lemma LaterCancelDecides(calls: seq<Call>, id: TaskId)
    requires calls != [] && !IsReport(calls[0], id) && !IsCancel(calls[0], id)
    ensures IsCancelledBy(calls, id) <==> IsCancelledBy(calls[1..], id)
    ensures forall k: nat :: k > 0 && CancelComesFirst(calls, k, id) ==> CancelComesFirst(calls[1..], k - 1, id)
  {
    var later := calls[1..];
    assert forall j :: 0 <= j < |later| ==> later[j] == calls[j + 1];
    if IsCancelledBy(calls, id) {
      var k: nat :| CancelComesFirst(calls, k, id);
      assert CancelComesFirst(later, k - 1, id);
    }
    if IsCancelledBy(later, id) {
      var k: nat :| CancelComesFirst(later, k, id);
      assert forall j :: 0 < j <= k ==> calls[j] == later[j - 1];
      assert CancelComesFirst(calls, k + 1, id);
    }
  }

  lemma FirstCallDecides(calls: seq<Call>, id: TaskId)
    requires calls != []
    ensures IsCancel(calls[0], id) ==> CancelComesFirst(calls, 0, id)
    ensures IsReport(calls[0], id) || IsCancel(calls[0], id) ==>
              forall k: nat :: k > 0 ==> !CancelComesFirst(calls, k, id)
    ensures IsReport(calls[0], id) ==> !IsCancelledBy(calls, id)
  {
  }

  lemma KeptFromStart(retention: nat, s: State, clock: int, calls: seq<Call>, id: TaskId)
    requires Inv(s, clock) && TimesFrom(clock, calls) && calls != [] && id in s.tasks
    requires id in Run(retention, s, calls).tasks
    ensures var t := After(retention, s, calls[0]);
            Inv(t, calls[0].now) && id in t.tasks && id < s.nextId
  {
    CallKeepsInv(retention, s, clock, calls[0]);
    if id !in After(retention, s, calls[0]).tasks {
      GoneStaysGone(retention, After(retention, s, calls[0]), calls[0].now, calls[1..], id);
    }
  }

  /**
   Over any run, a kept task that was active ends up cancelled exactly when a permitted cancel of it comes before
   every report on it, and then at the time of the first such cancel.
   */
  lemma {:induction false} CancelledIff(retention: nat, s: State, clock: int, calls: seq<Call>, id: TaskId)
    requires Inv(s, clock) && TimesFrom(clock, calls) && id in s.tasks && !IsTerminal(s.tasks[id].status)
    requires id in Run(retention, s, calls).tasks
    ensures var t := Run(retention, s, calls).tasks[id];
            && (t.status.Cancelled? <==> IsCancelledBy(calls, id))
            && (forall k: nat :: CancelComesFirst(calls, k, id) ==>
                  t.cancelledAt == Some(calls[k].now) && t.completedAt == Some(calls[k].now))
    decreases |calls|
  {
    if calls != [] {
      var t := After(retention, s, calls[0]);
      KeptFromStart(retention, s, clock, calls, id);
      CallDecidesStatus(retention, s, calls[0], id);
      FirstCallDecides(calls, id);
      if IsCancel(calls[0], id) || IsReport(calls[0], id) {
        TerminalStaysTerminal(retention, t, calls[0].now, calls[1..], id);
      } else {
        LaterCancelDecides(calls, id);
        CancelledIff(retention, t, calls[0].now, calls[1..], id);
      }
    }
  }

  /** A terminal task that is kept and was not cancelled has the status of the last report on it. */
  lemma {:induction false} TerminalFollowsReports(retention: nat, s: State, clock: int, calls: seq<Call>, id: TaskId)
    requires Inv(s, clock) && TimesFrom(clock, calls) && id in s.tasks
    requires s.tasks[id].status.Succeeded? || s.tasks[id].status.Failed?
    requires id in Run(retention, s, calls).tasks
    ensures var t := Run(retention, s, calls).tasks[id];
            t.status == if LastReport(calls, id).Some? then LastReport(calls, id).value else s.tasks[id].status
    decreases |calls|
  {
    if calls != [] {
      KeptFromStart(retention, s, clock, calls, id);
      CallDecidesStatus(retention, s, calls[0], id);
      TerminalFollowsReports(retention, After(retention, s, calls[0]), calls[0].now, calls[1..], id);
    }
  }

  /**
   The calls alone decide: a kept task that was active is cancelled if a permitted cancel comes before every report;
   otherwise it has the status of the last report; without one it is running as soon as it has been marked so.
   */
  lemma {:induction false} StatusFollowsCalls(retention: nat, s: State, clock: int, calls: seq<Call>, id: TaskId)
    requires Inv(s, clock) && TimesFrom(clock, calls) && id in s.tasks && !IsTerminal(s.tasks[id].status)
    requires id in Run(retention, s, calls).tasks
    ensures var t := Run(retention, s, calls).tasks[id];
            t.status == if IsCancelledBy(calls, id) then Cancelled
                        else if LastReport(calls, id).Some? then LastReport(calls, id).value
                        else if IsStartedBy(calls, id) then Running
                        else s.tasks[id].status
    decreases |calls|
  {
    if calls != [] {
      var t := After(retention, s, calls[0]);
      KeptFromStart(retention, s, clock, calls, id);
      CallDecidesStatus(retention, s, calls[0], id);
      FirstCallDecides(calls, id);
      if IsCancel(calls[0], id) {
        TerminalStaysTerminal(retention, t, calls[0].now, calls[1..], id);
      } else if IsReport(calls[0], id) {
        TerminalFollowsReports(retention, t, calls[0].now, calls[1..], id);
      } else {
        LaterCancelDecides(calls, id);
        StatusFollowsCalls(retention, t, calls[0].now, calls[1..], id);
        assert IsStartedBy(calls, id) <==> IsStart(calls[0], id) || IsStartedBy(calls[1..], id) by {
          assert forall k :: 0 <= k < |calls[1..]| ==> calls[1..][k] == calls[k + 1];
        }
      }
    }
  }

  // ----- success and failure are not frozen -----

  /** A report that contradicts how the task ended. */
  predicate Overturns(call: Call, status: Status, id: TaskId) {
    || (status.Failed? && call.MarkSucceeded? && call.id == id)
    || (status.Succeeded? && call.MarkFailed? && call.id == id)
  }

  /** A kept terminal task changes its status exactly when it failed and is reported succeeded, or the reverse. */
  lemma TerminalStatusChangesIff(retention: nat, s: State, call: Call, id: TaskId)
    requires id in s.tasks && IsTerminal(s.tasks[id].status) && id < s.nextId
    requires id in After(retention, s, call).tasks
    ensures After(retention, s, call).tasks[id].status != s.tasks[id].status <==>
              Overturns(call, s.tasks[id].status, id)
  {
  }

  /** The task, while it is there, has this status now and after each of the calls. */
  ghost predicate HoldsStatus(retention: nat, s: State, calls: seq<Call>, id: TaskId, status: Status)
    decreases |calls|
  {
    && (id in s.tasks ==> s.tasks[id].status == status)
    && (calls != [] ==> HoldsStatus(retention, After(retention, s, calls[0]), calls[1..], id, status))
  }

  /** Over any run, a terminal task that is kept holds its status throughout exactly when no call overturns it. */
  lemma {:induction false} TerminalStatusHoldsIff(retention: nat, s: State, clock: int, calls: seq<Call>, id: TaskId)
    requires Inv(s, clock) && TimesFrom(clock, calls) && id in s.tasks && IsTerminal(s.tasks[id].status)
    requires id in Run(retention, s, calls).tasks
    ensures HoldsStatus(retention, s, calls, id, s.tasks[id].status) <==>
              forall i :: 0 <= i < |calls| ==> !Overturns(calls[i], s.tasks[id].status, id)
    decreases |calls|
  {
    if calls != [] {
      var status, t := s.tasks[id].status, After(retention, s, calls[0]);
      CallKeepsInv(retention, s, clock, calls[0]);
      if id !in t.tasks {
        GoneStaysGone(retention, t, calls[0].now, calls[1..], id);
      }
      TerminalStatusChangesIff(retention, s, calls[0], id);
      if t.tasks[id].status == status {
        TerminalStatusHoldsIff(retention, t, calls[0].now, calls[1..], id);
        assert forall i :: 1 <= i < |calls| ==> calls[i] == calls[1..][i - 1];
      } else {
        assert !HoldsStatus(retention, t, calls[1..], id, status);
      }
    }
  }

  /** A run in which a late report turns a failed task into a succeeded one. */
  lemma FailureCanTurnIntoSuccess(retention: nat, now: int)
    ensures var create := CreateTask(1, "log_analysis", None, true, now);
            var calls := [create, MarkFailed(0, now), MarkSucceeded(0, 100, now)];
            var s := Run(retention, State(map[], 0), calls);
            0 in s.tasks && s.tasks[0].status == Succeeded
  {
    var calls := [CreateTask(1, "log_analysis", None, true, now), MarkFailed(0, now), MarkSucceeded(0, 100, now)];
    var s1 := After(retention, State(map[], 0), calls[0]);
    var s2 := After(retention, s1, calls[1]);
    var s3 := After(retention, s2, calls[2]);
    assert calls[1..][1..] == calls[2..] && calls[2..][1..] == [];
    assert Run(retention, s2, calls[2..]) == Run(retention, s3, []);
    assert Run(retention, s1, calls[1..]) == s3;
  }

  // ----- idempotency -----

  /** id is the one task the key stands for: present, created at the time given, newest with the key. */
  ghost predicate Stands(s: State, q: Query, id: TaskId, createdAt: int) {
    && id in s.tasks && id < s.nextId && Matches(s.tasks[id], q) && s.tasks[id].createdAt == createdAt
    && forall i :: i in s.tasks && i != id && Matches(s.tasks[i], q) ==> s.tasks[i].createdAt < createdAt
  }

  lemma StandingIsNewest(s: State, q: Query, id: TaskId, createdAt: int)
    requires Stands(s, q, id, createdAt) && forall i :: i in s.tasks ==> i < s.nextId
    ensures NewestBelow(s.tasks, q, s.nextId) == Some(id)
  {
    var r := NewestBelow(s.tasks, q, s.nextId);
    assert r.Some? && createdAt <= s.tasks[r.value].createdAt;
  }

  /** Within the retention period the standing task is the one found. */
  lemma StandingIsFound(retention: nat, s: State, clock: int, q: Query, id: TaskId, createdAt: int, now: int)
    requires Inv(s, clock) && Stands(s, q, id, createdAt) && now <= createdAt + retention
    ensures Existing(retention, s, q, now) == Some(id)
  {
    StandingIsNewest(s, q, id, createdAt);
    assert LifeOk(s.tasks[id], clock);
  }

  lemma CallKeepsStanding(retention: nat, s: State, clock: int, q: Query, id: TaskId, createdAt: int, call: Call)
    requires Inv(s, clock) && clock <= call.now <= createdAt + retention && q.key != ""
    requires Stands(s, q, id, createdAt)
    ensures Stands(After(retention, s, call), q, id, createdAt)
  {
    StandingIsFound(retention, s, clock, q, id, createdAt, call.now);
    var t := After(retention, s, call);
    if call.CreateTask? && Matches(NewTask(call), q) {
      assert ExistingFor(retention, s, call) == Some(id);
      assert t == s;
    } else {
      forall i | i in t.tasks && Matches(t.tasks[i], q)
        ensures i in s.tasks && Matches(s.tasks[i], q) && s.tasks[i].createdAt == t.tasks[i].createdAt
      {
      }
    }
  }

  lemma {:induction false} RunKeepsStanding(retention: nat, s: State, clock: int, q: Query, id: TaskId, createdAt: int,
                                            calls: seq<Call>)
    requires Inv(s, clock) && TimesFrom(clock, calls) && LastTime(clock, calls) <= createdAt + retention && q.key != ""
    requires Stands(s, q, id, createdAt)
    ensures Stands(Run(retention, s, calls), q, id, createdAt)
    decreases |calls|
  {
    if calls != [] {
      TimesBounded(clock, calls);
      CallKeepsStanding(retention, s, clock, q, id, createdAt, calls[0]);
      CallKeepsInv(retention, s, clock, calls[0]);
      RunKeepsStanding(retention, After(retention, s, calls[0]), calls[0].now, q, id, createdAt, calls[1..]);
    }
  }

  lemma {:induction false} TimesBounded(clock: int, calls: seq<Call>)
    requires TimesFrom(clock, calls)
    ensures clock <= LastTime(clock, calls)
    ensures calls != [] ==> calls[0].now <= LastTime(clock, calls)
    decreases |calls|
  {
    if |calls| > 1 {
      TimesBounded(calls[0].now, calls[1..]);
    }
  }

  lemma ReturnedStands(retention: nat, s: State, clock: int, call: Call, q: Query)
    requires Inv(s, clock) && clock <= call.now && q.key != ""
    requires call.CreateTask? && call.allowed && Matches(NewTask(call), q)
    ensures var t := After(retention, s, call);
            var id := Returned(retention, s, call);
            id.Some? && id.value in t.tasks && Stands(t, q, id.value, t.tasks[id.value].createdAt)
  {
    var t := After(retention, s, call);
    CallKeepsInv(retention, s, clock, call);
    assert KeysOk(t.tasks, q) && KeysOk(s.tasks, q);
    var newest := NewestBelow(s.tasks, q, s.nextId);
    assert ExistingFor(retention, s, call) == Existing(retention, s, q, call.now);
    if ExistingFor(retention, s, call).Some? {
      assert t == s;
    } else {
      forall i | i in s.tasks && Matches(s.tasks[i], q)
        ensures s.tasks[i].createdAt < call.now
      {
        assert i < s.nextId && t.tasks[i] == s.tasks[i] && Matches(t.tasks[s.nextId], q);
      }
    }
  }

  /**
   A permitted creation with the key of a standing task returns that task exactly when it has not ended longer ago
   than tasks are retained; otherwise it makes a new one, queued, and the key stands for that.
   */
  lemma KeyFindsTaskIff(retention: nat, s: State, clock: int, q: Query, id: TaskId, createdAt: int, call: Call)
    requires Inv(s, clock) && clock <= call.now && q.key != "" && Stands(s, q, id, createdAt)
    requires call.CreateTask? && call.allowed
    requires (call.user, call.taskType, call.key) == (q.user, q.taskType, Some(q.key))
    ensures var t := After(retention, s, call);
            if s.tasks[id].completedAt.Some? && s.tasks[id].completedAt.value < call.now - retention then
              Returned(retention, s, call) == Some(s.nextId) && t.nextId == s.nextId + 1 &&
              s.nextId in t.tasks && t.tasks[s.nextId].status == Queued && Stands(t, q, s.nextId, call.now) &&
              forall i :: i in s.tasks ==> i in t.tasks && t.tasks[i] == s.tasks[i]
            else Returned(retention, s, call) == Some(id) && t == s
  {
    StandingIsNewest(s, q, id, createdAt);
    assert LifeOk(s.tasks[id], clock);
    ReturnedStands(retention, s, clock, call, q);
  }

  /**
   Two create_task calls with one key, the second no later than the retention period after the task
   was created, return the same task, whatever is cancelled, marked, created or cleaned up in between.
   */
  lemma SameKeySameTask(retention: nat, s: State, clock: int, first: Call, calls: seq<Call>, second: Call)
    requires Inv(s, clock) && TimesFrom(clock, [first] + calls + [second])
    requires first.CreateTask? && second.CreateTask? && first.allowed && second.allowed
    requires first.key.Some? && first.key.value != ""
    requires (second.user, second.taskType, second.key) == (first.user, first.taskType, first.key)
    requires var t := After(retention, s, first);
             var id := Returned(retention, s, first);
             id.Some? && id.value in t.tasks ==> second.now <= t.tasks[id.value].createdAt + retention
    ensures Returned(retention, s, first).Some?
    ensures Returned(retention, Run(retention, After(retention, s, first), calls), second)
         == Returned(retention, s, first)
  {
    var q := Query(first.user, first.taskType, first.key.value);
    var all := [first] + calls + [second];
    assert all[1..] == calls + [second];
    ReturnedStands(retention, s, clock, first, q);
    CallKeepsInv(retention, s, clock, first);
    var t, id := After(retention, s, first), Returned(retention, s, first).value;
    TimesSplit(first.now, calls, second);
    RunKeepsStanding(retention, t, first.now, q, id, t.tasks[id].createdAt, calls);
    RunKeepsInv(retention, t, first.now, calls);
    StandingIsFound(retention, Run(retention, t, calls), LastTime(first.now, calls), q, id, t.tasks[id].createdAt,
                    second.now);
  }

  lemma {:induction false} TimesSplit(clock: int, calls: seq<Call>, last: Call)
    requires TimesFrom(clock, calls + [last])
    ensures TimesFrom(clock, calls) && LastTime(clock, calls) <= last.now
    decreases |calls|
  {
    if calls != [] {
      assert (calls + [last])[1..] == calls[1..] + [last];
      TimesSplit(calls[0].now, calls[1..], last);
    }
  }
}
