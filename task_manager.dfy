/** src/downloader/task_manager.rs: the map of download tasks and the
    state changes the manager applies to it. The downloader itself, the
    background tasks it spawns and the change notifications are not part
    of this model: where the source awaits the downloader, its answer is a
    parameter, and the download task id the source draws from a UUID generator is
    a parameter too. */
module TaskManager {
  import opened Wrappers
  import opened Collections
  import opened DownloadStates

  /** src/downloader/error.rs: the kinds of download errors. */
  datatype ErrorKind = Network | FileSystem | InvalidInput | TaskNotFound | TaskAlreadyExists
                     | Cancelled | Unsupported | Unknown

  datatype DownloadError = DownloadError(kind: ErrorKind, message: string)

  /** The source's `Result<T, DownloadError>`. */
  datatype Outcome<T> = Success(value: T) | Failure(error: DownloadError)

  function NotFound(taskId: string): (e: DownloadError)
    ensures e.kind == TaskNotFound && e.message == "Task not found: " + taskId
  {
    DownloadError(TaskNotFound, "Task not found: " + taskId)
  }

  function AlreadyExists(taskId: string): (e: DownloadError)
    ensures e.kind == TaskAlreadyExists && e.message == "Task already exists: " + taskId
  {
    DownloadError(TaskAlreadyExists, "Task already exists: " + taskId)
  }

  /** The `{:?}` rendering of a state. */
  function StateName(s: DownloadState): (r: string)
    ensures |r| >= 6 && 'A' <= r[0] <= 'Z'
  {
    match s
    case Pending => "Pending"
    case Downloading => "Downloading"
    case Stopped => "Stopped"
    case Completed => "Completed"
    case Failed => "Failed"
    case Cancelled => "Cancelled"
  }

  /** Different states print differently, so an error message names the
      state the task was in. */
  lemma StateNameInjective(s: DownloadState, t: DownloadState)
    ensures StateName(s) == StateName(t) ==> s == t
  {
  }

  /** Every task sits under its own id. */
  predicate KeyedById(tasks: map<string, TaskInfo>) {
    forall id :: id in tasks ==> tasks[id].taskId == id
  }

  predicate DistinctTasks(ts: seq<TaskInfo>) {
    forall i, j :: 0 <= i < j < |ts| ==> ts[i].taskId != ts[j].taskId
  }

  /** `.filter(..)` on the download task states, order kept. */
  function Select(ts: seq<TaskInfo>, keep: DownloadState -> bool): (r: seq<TaskInfo>)
    ensures forall t :: t in r <==> t in ts && keep(t.state)
    ensures |r| <= |ts|
  {
    if ts == [] then []
    else (if keep(ts[0].state) then [ts[0]] else []) + Select(ts[1..], keep)
  }

  /** Filtering keeps task ids distinct. */
  lemma {:induction false} SelectDistinct(ts: seq<TaskInfo>, keep: DownloadState -> bool)
    requires DistinctTasks(ts)
    ensures DistinctTasks(Select(ts, keep))
  {
    if ts != [] {
      var tail := ts[1..];
      assert DistinctTasks(tail) by {
        forall i, j | 0 <= i < j < |tail|
          ensures tail[i].taskId != tail[j].taskId
        {
          assert tail[i] == ts[i + 1] && tail[j] == ts[j + 1];
        }
      }
      SelectDistinct(tail, keep);
      var rest := Select(tail, keep);
      forall x | x in rest
        ensures x.taskId != ts[0].taskId
      {
        var k :| 0 <= k < |tail| && tail[k] == x;
        assert x == ts[k + 1];
      }
    }
  }

  /** Whether `cleanup_old_tasks` keeps a task: it is not finished, or its
      finishing time is unknown or later than `now`, or it finished less
      than `maxAge` seconds ago. */
  predicate KeptByCleanup(t: TaskInfo, maxAge: nat, now: nat) {
    !IsTerminal(t.state) || t.completedAt.None? || t.completedAt.value > now
    || now - t.completedAt.value < maxAge
  }

  /** The download tasks `cleanup_old_tasks` retains. */
  function Retained(tasks: map<string, TaskInfo>, maxAge: nat, now: nat): (r: map<string, TaskInfo>)
    ensures r.Keys <= tasks.Keys
    ensures forall id :: id in r ==> r[id] == tasks[id]
    ensures forall id :: id in tasks && !IsTerminal(tasks[id].state) ==> id in r
    ensures forall id :: id in tasks && id !in r ==>
              (IsTerminal(tasks[id].state) && tasks[id].completedAt.Some?
               && tasks[id].completedAt.value + maxAge <= now)
    ensures forall id :: (id in tasks && IsTerminal(tasks[id].state) && tasks[id].completedAt.Some?
                          && tasks[id].completedAt.value + maxAge <= now) ==> id !in r
  {
    map id | id in tasks && KeptByCleanup(tasks[id], maxAge, now) :: tasks[id]
  }

  /** Cleaning up twice at the same time removes nothing more. */
  lemma RetainedIdempotent(tasks: map<string, TaskInfo>, maxAge: nat, now: nat)
    ensures Retained(Retained(tasks, maxAge, now), maxAge, now) == Retained(tasks, maxAge, now)
  {
  }

  /** A download that finishes after the download task was cancelled overwrites
      the cancellation: `execute_task` checks for `Cancelled` only before
      it starts. */
  lemma FinishAfterCancelOverwrites(t: TaskInfo, message: string, now1: nat, now2: nat)
    ensures MarkCompleted(MarkCancelled(t, now1), now2).state == Completed
    ensures MarkFailed(MarkCancelled(t, now1), message, now2).state == Failed
  {
  }

  /** After `i` requests of a batch have been submitted on top of `before`:
      their ids were distinct and new, each holds its fresh task, and
      nothing else changed. */
  ghost predicate BatchSoFar(before: map<string, TaskInfo>, tasks: map<string, TaskInfo>,
                             requests: seq<(string, string)>, ids: seq<string>, i: nat, now: nat)
  {
    i <= |ids| == |requests|
    && Distinct(ids[..i]) && (forall j :: 0 <= j < i ==> ids[j] !in before)
    && (forall id :: id in before ==> id in tasks && tasks[id] == before[id])
    && (forall id :: id in tasks && id !in before ==> id in ids[..i])
    && (forall j :: 0 <= j < i ==>
          ids[j] in tasks && tasks[ids[j]] == NewTask(ids[j], requests[j].0, requests[j].1, None, None, now))
  }

  /** Submitting the next request under a new id extends the batch. */
  lemma BatchStep(before: map<string, TaskInfo>, tasks: map<string, TaskInfo>,
                  requests: seq<(string, string)>, ids: seq<string>, i: nat, now: nat)
    requires BatchSoFar(before, tasks, requests, ids, i, now) && i < |ids|
    requires ids[i] !in tasks
    ensures BatchSoFar(before, tasks[ids[i] := NewTask(ids[i], requests[i].0, requests[i].1, None, None, now)],
                       requests, ids, i + 1, now)
  {
    assert ids[..i + 1] == ids[..i] + [ids[i]];
  }

  /** A request whose id is already taken shows the batch's ids were not
      all distinct and new. */
  lemma BatchClash(before: map<string, TaskInfo>, tasks: map<string, TaskInfo>,
                   requests: seq<(string, string)>, ids: seq<string>, i: nat, now: nat)
    requires BatchSoFar(before, tasks, requests, ids, i, now) && i < |ids|
    requires ids[i] in tasks
    ensures !(Distinct(ids) && forall j :: 0 <= j < |ids| ==> ids[j] !in before)
  {
    if ids[i] !in before {
      var j :| 0 <= j < i && ids[..i][j] == ids[i];
      assert ids[j] == ids[i];
    }
  }

  class DownloadTaskManager {
    var tasks: map<string, TaskInfo>
    /** `DownloaderCapabilities::supports_pause` / `supports_resume`,
        fixed when the manager is built. */
    const supportsPause: bool
    const supportsResume: bool

    ghost predicate Valid()
      reads this
    {
      KeyedById(tasks)
    }

    /** `DownloadTaskManager::new`: no tasks yet. */
    constructor(supportsPause: bool, supportsResume: bool)
      ensures Valid() && tasks == map[]
      ensures this.supportsPause == supportsPause && this.supportsResume == supportsResume
    {
      tasks := map[];
      this.supportsPause := supportsPause;
      this.supportsResume := supportsResume;
    }

    /** `submit_task_with_options` (and `submit_task`, with no headers or
        cookies): a fresh pending task under a new id. */
    method SubmitTaskWithOptions(taskId: string, url: string, destPath: string,
                                 headers: Option<map<string, string>>, cookies: Option<map<string, string>>,
                                 now: nat)
      returns (r: Outcome<string>)
      requires Valid()
      modifies this
      ensures Valid()
      ensures taskId in old(tasks) ==> r == Failure(AlreadyExists(taskId)) && tasks == old(tasks)
      ensures taskId !in old(tasks) ==>
                (r == Success(taskId) && tasks == old(tasks)[taskId := NewTask(taskId, url, destPath, headers, cookies, now)])
    {
      if taskId in tasks {
        return Failure(AlreadyExists(taskId));
      }
      tasks := tasks[taskId := NewTask(taskId, url, destPath, headers, cookies, now)];
      r := Success(taskId);
    }

    method SubmitTask(taskId: string, url: string, destPath: string, now: nat) returns (r: Outcome<string>)
      requires Valid()
      modifies this
      ensures Valid()
      ensures taskId in old(tasks) ==> r == Failure(AlreadyExists(taskId)) && tasks == old(tasks)
      ensures taskId !in old(tasks) ==>
                (r == Success(taskId) && tasks == old(tasks)[taskId := NewTask(taskId, url, destPath, None, None, now)])
    {
      r := SubmitTaskWithOptions(taskId, url, destPath, None, None, now);
    }

    /** `submit_batch`: submits the requests in order under the given ids
        and stops at the first failure, keeping the download tasks already
        submitted. It succeeds exactly when the ids are distinct and new. */
    method SubmitBatch(requests: seq<(string, string)>, ids: seq<string>, now: nat) returns (r: Outcome<seq<string>>)
      requires Valid() && |ids| == |requests|
      modifies this
      ensures Valid()
      ensures r.Success? <==> Distinct(ids) && forall i :: 0 <= i < |ids| ==> ids[i] !in old(tasks)
      ensures r.Success? ==> r.value == ids
      ensures r.Failure? ==> r.error.kind == TaskAlreadyExists
      ensures forall id :: id in old(tasks) ==> id in tasks && tasks[id] == old(tasks)[id]
      ensures forall id :: id in tasks && id !in old(tasks) ==> id in ids
      ensures r.Success? ==>
                forall i :: 0 <= i < |ids| ==> ids[i] in tasks && tasks[ids[i]] == NewTask(ids[i], requests[i].0, requests[i].1, None, None, now)
    {
      ghost var before := tasks;
      var i := 0;
      while i < |requests|
        invariant 0 <= i <= |requests|
        invariant Valid()
        invariant BatchSoFar(before, tasks, requests, ids, i, now)
      {
        ghost var prev := tasks;
        var one := SubmitTask(ids[i], requests[i].0, requests[i].1, now);
        if one.Failure? {
          BatchClash(before, prev, requests, ids, i, now);
          return Failure(one.error);
        }
        BatchStep(before, prev, requests, ids, i, now);
        i := i + 1;
      }
      assert ids[..i] == ids;
      r := Success(ids);
    }

    /** `get_task`: the download task, or `TaskNotFound`. */
    function GetTask(taskId: string): (r: Outcome<TaskInfo>)
      reads this
      ensures r.Success? <==> taskId in tasks
      ensures r.Success? ==> r.value == tasks[taskId]
      ensures r.Failure? ==> r.error == NotFound(taskId)
    {
      if taskId in tasks then Success(tasks[taskId]) else Failure(NotFound(taskId))
    }

    /** `get_all_tasks`: one entry per task, in the map's (unspecified)
        order. */
    method GetAllTasks() returns (r: seq<TaskInfo>)
      requires Valid()
      ensures |r| == |tasks| && DistinctTasks(r)
      ensures forall id :: id in tasks ==> tasks[id] in r
      ensures forall t :: t in r ==> t.taskId in tasks && tasks[t.taskId] == t
    {
      var m := tasks;
      var entries := MapEntries(m);
      r := seq(|entries|, i requires 0 <= i < |entries| => entries[i].1);
      forall id | id in m
        ensures m[id] in r
      {
        var i :| 0 <= i < |entries| && entries[i] == (id, m[id]);
        assert r[i] == m[id];
      }
      forall i, j | 0 <= i < j < |r|
        ensures r[i].taskId != r[j].taskId
      {
        assert r[i].taskId == entries[i].0 && r[j].taskId == entries[j].0;
      }
    }

    /** `get_tasks_by_state`: exactly the download tasks in `state`. */
    method GetTasksByState(state: DownloadState) returns (r: seq<TaskInfo>)
      requires Valid()
      ensures DistinctTasks(r)
      ensures forall t :: t in r ==> (t.state == state && t.taskId in tasks && tasks[t.taskId] == t)
      ensures forall id :: id in tasks && tasks[id].state == state ==> tasks[id] in r
    {
      var all := GetAllTasks();
      r := Select(all, s => s == state);
      SelectDistinct(all, s => s == state);
    }

    /** `get_active_tasks`: exactly the download tasks in an active state. */
    method GetActiveTasks() returns (r: seq<TaskInfo>)
      requires Valid()
      ensures DistinctTasks(r)
      ensures forall t :: t in r ==> (IsActive(t.state) && t.taskId in tasks && tasks[t.taskId] == t)
      ensures forall id :: id in tasks && IsActive(tasks[id].state) ==> tasks[id] in r
    {
      var all := GetAllTasks();
      r := Select(all, IsActive);
      SelectDistinct(all, IsActive);
    }

    /** `cancel_task`: an unknown task is `TaskNotFound`, a finished one is
        `InvalidInput` and stays as it is; any other is cancelled. */
    method CancelTask(taskId: string, now: nat) returns (r: Outcome<()>)
      requires Valid()
      modifies this
      ensures Valid()
      ensures taskId !in old(tasks) ==> r == Failure(NotFound(taskId)) && tasks == old(tasks)
      ensures taskId in old(tasks) && IsTerminal(old(tasks)[taskId].state) ==>
                (r == Failure(DownloadError(InvalidInput, "Task " + taskId + " is already in terminal state: "
                                                         + StateName(old(tasks)[taskId].state)))
                 && tasks == old(tasks))
      ensures taskId in old(tasks) && !IsTerminal(old(tasks)[taskId].state) ==>
                (r == Success(()) && tasks == old(tasks)[taskId := MarkCancelled(old(tasks)[taskId], now)])
    {
      if taskId !in tasks {
        return Failure(NotFound(taskId));
      }
      var task := tasks[taskId];
      if IsTerminal(task.state) {
        return Failure(DownloadError(InvalidInput, "Task " + taskId + " is already in terminal state: "
                                                   + StateName(task.state)));
      }
      tasks := tasks[taskId := MarkCancelled(task, now)];
      r := Success(());
    }

    /** `pause_task`: refused when the downloader cannot pause, when the
        task is unknown, or when it is not downloading; then the
        downloader's own answer `paused` (its error propagated); on success
        the download task is stopped at the bytes downloaded so far. */
    method PauseTask(taskId: string, paused: Outcome<()>, now: nat) returns (r: Outcome<()>)
      requires Valid()
      modifies this
      ensures Valid()
      ensures !supportsPause ==>
                (r == Failure(DownloadError(Unsupported, "This downloader does not support pause functionality"))
                 && tasks == old(tasks))
      ensures supportsPause && taskId !in old(tasks) ==> r == Failure(NotFound(taskId)) && tasks == old(tasks)
      ensures supportsPause && taskId in old(tasks) && !IsPausable(old(tasks)[taskId].state) ==>
                (r == Failure(DownloadError(InvalidInput, "Task " + taskId + " cannot be paused in state: "
                                                         + StateName(old(tasks)[taskId].state)))
                 && tasks == old(tasks))
      ensures supportsPause && taskId in old(tasks) && IsPausable(old(tasks)[taskId].state) && paused.Failure? ==>
                r == paused && tasks == old(tasks)
      ensures supportsPause && taskId in old(tasks) && IsPausable(old(tasks)[taskId].state) && paused.Success? ==>
                (r == Success(()) && tasks == old(tasks)[taskId := MarkStopped(old(tasks)[taskId], now)])
      ensures r.Success? ==> taskId in tasks && tasks[taskId].state == Stopped
    {
      if !supportsPause {
        return Failure(DownloadError(Unsupported, "This downloader does not support pause functionality"));
      }
      if taskId !in tasks {
        return Failure(NotFound(taskId));
      }
      if !IsPausable(tasks[taskId].state) {
        return Failure(DownloadError(InvalidInput, "Task " + taskId + " cannot be paused in state: "
                                                   + StateName(tasks[taskId].state)));
      }
      if paused.Failure? {
        return paused;
      }
      tasks := tasks[taskId := MarkStopped(tasks[taskId], now)];
      r := Success(());
    }

    /** `resume_task`, up to the restart: refused when the downloader
        cannot resume, when the download task is unknown, or when it is neither
        stopped nor failed; otherwise the download task is marked downloading again.
        The restarted download ends through `FinishTask`. */
    method ResumeTask(taskId: string) returns (r: Outcome<()>)
      requires Valid()
      modifies this
      ensures Valid()
      ensures !supportsResume ==>
                (r == Failure(DownloadError(Unsupported, "This downloader does not support resume functionality"))
                 && tasks == old(tasks))
      ensures supportsResume && taskId !in old(tasks) ==> r == Failure(NotFound(taskId)) && tasks == old(tasks)
      ensures supportsResume && taskId in old(tasks) && !IsResumable(old(tasks)[taskId].state) ==>
                (r == Failure(DownloadError(InvalidInput, "Task " + taskId + " cannot be resumed from state: "
                                                         + StateName(old(tasks)[taskId].state)))
                 && tasks == old(tasks))
      ensures supportsResume && taskId in old(tasks) && IsResumable(old(tasks)[taskId].state) ==>
                (r == Success(()) && tasks == old(tasks)[taskId := MarkResumed(old(tasks)[taskId])])
      ensures r.Success? ==> taskId in tasks && tasks[taskId].state == Downloading
    {
      if !supportsResume {
        return Failure(DownloadError(Unsupported, "This downloader does not support resume functionality"));
      }
      if taskId !in tasks {
        return Failure(NotFound(taskId));
      }
      if !IsResumable(tasks[taskId].state) {
        return Failure(DownloadError(InvalidInput, "Task " + taskId + " cannot be resumed from state: "
                                                   + StateName(tasks[taskId].state)));
      }
      tasks := tasks[taskId := MarkResumed(tasks[taskId])];
      r := Success(());
    }

    /** `cleanup_old_tasks` at time `now`. */
    method CleanupOldTasks(maxAge: nat, now: nat)
      requires Valid()
      modifies this
      ensures Valid()
      ensures tasks == Retained(old(tasks), maxAge, now)
    {
      tasks := Retained(tasks, maxAge, now);
    }

    /** `remove_task`: an unknown task is `TaskNotFound`, an unfinished one
        is `InvalidInput` and stays; a finished one is removed. */
    method RemoveTask(taskId: string) returns (r: Outcome<()>)
      requires Valid()
      modifies this
      ensures Valid()
      ensures taskId !in old(tasks) ==> r == Failure(NotFound(taskId)) && tasks == old(tasks)
      ensures taskId in old(tasks) && !IsTerminal(old(tasks)[taskId].state) ==>
                (r == Failure(DownloadError(InvalidInput, "Cannot remove active task: " + taskId))
                 && tasks == old(tasks))
      ensures taskId in old(tasks) && IsTerminal(old(tasks)[taskId].state) ==>
                r == Success(()) && tasks == old(tasks) - {taskId}
    {
      if taskId !in tasks {
        return Failure(NotFound(taskId));
      }
      if !IsTerminal(tasks[taskId].state) {
        return Failure(DownloadError(InvalidInput, "Cannot remove active task: " + taskId));
      }
      tasks := tasks - {taskId};
      r := Success(());
    }

    /** The first half of `execute_task`: an unknown or cancelled task is
        not started; any other is marked downloading. */
    method StartTask(taskId: string, now: nat) returns (started: bool)
      requires Valid()
      modifies this
      ensures Valid()
      ensures started <==> taskId in old(tasks) && old(tasks)[taskId].state != DownloadStates.Cancelled
      ensures started ==> tasks == old(tasks)[taskId := MarkStarted(old(tasks)[taskId], now)]
      ensures !started ==> tasks == old(tasks)
    {
      if taskId !in tasks || tasks[taskId].state == DownloadStates.Cancelled {
        return false;
      }
      tasks := tasks[taskId := MarkStarted(tasks[taskId], now)];
      started := true;
    }

    /** The second half of `execute_task` (and of the download `resume_task`
        restarts): the downloader's result `result` completes the download task or
        fails it with the downloader's message, whatever state the download task is
        in by then; a task removed meanwhile is left alone. */
    method FinishTask(taskId: string, result: Outcome<()>, now: nat)
      requires Valid()
      modifies this
      ensures Valid()
      ensures taskId !in old(tasks) ==> tasks == old(tasks)
      ensures taskId in old(tasks) && result.Success? ==>
                tasks == old(tasks)[taskId := MarkCompleted(old(tasks)[taskId], now)]
      ensures taskId in old(tasks) && result.Failure? ==>
                tasks == old(tasks)[taskId := MarkFailed(old(tasks)[taskId], result.error.message, now)]
    {
      if taskId in tasks {
        match result
        case Success(_) =>
          tasks := tasks[taskId := MarkCompleted(tasks[taskId], now)];
        case Failure(e) =>
          tasks := tasks[taskId := MarkFailed(tasks[taskId], e.message, now)];
      }
    }

    /** `execute_task` with no other operation between its two halves:
        a cancelled task is never started, and any other known task ends
        completed or failed with the downloader's message. */
    method ExecuteTask(taskId: string, result: Outcome<()>, startedAt: nat, finishedAt: nat)
      requires Valid()
      modifies this
      ensures Valid()
      ensures taskId !in old(tasks) || old(tasks)[taskId].state == DownloadStates.Cancelled ==> tasks == old(tasks)
      ensures taskId in old(tasks) && old(tasks)[taskId].state != DownloadStates.Cancelled ==>
                (taskId in tasks && tasks.Keys == old(tasks).Keys
                 && tasks[taskId].state == (if result.Success? then Completed else Failed)
                 && tasks[taskId].startedAt == Some(startedAt) && tasks[taskId].completedAt == Some(finishedAt)
                 && (result.Failure? ==> tasks[taskId].error == Some(result.error.message))
                 && SameTask(old(tasks)[taskId], tasks[taskId]))
    ensures taskId in old(tasks) && old(tasks)[taskId].state != DownloadStates.Cancelled ==>
              tasks == old(tasks)[taskId :=
                         if result.Success? then MarkCompleted(MarkStarted(old(tasks)[taskId], startedAt), finishedAt)
                         else MarkFailed(MarkStarted(old(tasks)[taskId], startedAt), result.error.message, finishedAt)]
    {
      var started := StartTask(taskId, startedAt);
      if started {
        FinishTask(taskId, result, finishedAt);
      }
    }
  }
}
