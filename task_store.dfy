/**
 * The client-side task registry (BillNote_frontend/src/store/taskStore/index.ts):
 * an ordered list of tasks, most recent first, and the id of the selected task.
 */
module TaskStore {
  import opened Wrappers
  import opened NoteApi

  /** The source spells the failure state 'FAILD'. */
  datatype TaskStatus = Pending | Running | Success | Faild

  datatype Segment = Segment(start: real, end: real, text: string)

  /** `raw` is an untyped JSON value in the source; None stands for `null`. */
  datatype Transcript = Transcript(fullText: string, language: string, raw: Option<string>, segments: seq<Segment>)

  /** `raw_info` is an untyped JSON value in the source; None stands for `null`. */
  datatype AudioMeta = AudioMeta(
    coverUrl: string, duration: real, filePath: string, platform: string,
    rawInfo: Option<string>, title: string, videoId: string)

  /** A task record. `platform` is the top-level field `addPendingTask` writes
      beside `audioMeta.platform`; `removeTask` reads this one. */
  datatype Task = Task(
    id: string, status: TaskStatus, markdown: string, platform: string,
    transcript: Transcript, createdAt: string, audioMeta: AudioMeta)

  /** The fields an `updateTaskContent` call supplies (a partial task without
      `id` and `createdAt`); None means the key is absent. */
  datatype TaskPatch = TaskPatch(
    markdown: Option<string>, transcript: Option<Transcript>,
    status: Option<TaskStatus>, audioMeta: Option<AudioMeta>)

  const LOCAL := "local"
  const LOADING_TITLE := "加载中..."

  /** The transcript of a task nobody has reported on yet. */
  const EMPTY_TRANSCRIPT := Transcript("", "", None, [])

  /** The title a new task shows until the backend reports metadata. */
  function InitialTitle(platform: string, fileName: Option<string>): string {
    if platform == LOCAL && fileName.Some? && fileName.value != "" then fileName.value else LOADING_TITLE
  }

  /** The record `addPendingTask` puts at the head of the list. */
  function PendingTask(taskId: string, platform: string, fileName: Option<string>, createdAt: string): (t: Task)
    ensures t.id == taskId && t.status == Pending && t.markdown == "" && t.platform == platform
    ensures t.transcript.segments == [] && t.transcript.raw == None && t.createdAt == createdAt
    ensures t.audioMeta.platform == platform
    ensures t.audioMeta.title == fileName.value <== platform == LOCAL && Truthy(fileName)
    ensures t.audioMeta.title == LOADING_TITLE <== platform != LOCAL || !Truthy(fileName)
    ensures t.audioMeta.videoId == taskId <== platform == LOCAL
    ensures t.audioMeta.videoId == "" <== platform != LOCAL
  {
    Task(taskId, Pending, "", platform, EMPTY_TRANSCRIPT, createdAt,
         AudioMeta("", 0.0, "", platform, None, InitialTitle(platform, fileName),
                   if platform == LOCAL then taskId else ""))
  }

  /** `{...task, ...data}`: every supplied field replaces the task's own. */
  function Merge(task: Task, patch: TaskPatch): (t: Task)
    ensures t.id == task.id && t.platform == task.platform && t.createdAt == task.createdAt
    ensures t.markdown == patch.markdown.GetOr(task.markdown)
    ensures t.transcript == patch.transcript.GetOr(task.transcript)
    ensures t.status == patch.status.GetOr(task.status)
    ensures t.audioMeta == patch.audioMeta.GetOr(task.audioMeta)
  {
    task.(markdown := patch.markdown.GetOr(task.markdown),
          transcript := patch.transcript.GetOr(task.transcript),
          status := patch.status.GetOr(task.status),
          audioMeta := patch.audioMeta.GetOr(task.audioMeta))
  }

  /** `tasks.map(task => task.id === id ? {...task, ...data} : task)`. */
  function UpdateMatching(tasks: seq<Task>, id: string, patch: TaskPatch): (r: seq<Task>)
    ensures |r| == |tasks|
  {
    seq(|tasks|, i requires 0 <= i < |tasks| => if tasks[i].id == id then Merge(tasks[i], patch) else tasks[i])
  }

  /** `tasks.filter(task => task.id !== id)`. */
  function RemoveMatching(tasks: seq<Task>, id: string): (r: seq<Task>)
    ensures |r| <= |tasks|
    decreases |tasks|
  {
    if tasks == [] then []
    else if tasks[0].id == id then RemoveMatching(tasks[1..], id)
    else [tasks[0]] + RemoveMatching(tasks[1..], id)
  }

  /** `tasks.find(t => t.id === id)`: the first task with that id. */
  function FindTask(tasks: seq<Task>, id: string): (r: Option<Task>)
    ensures r.None? <==> forall i :: 0 <= i < |tasks| ==> tasks[i].id != id
    ensures r.Some? ==> r.value in tasks && r.value.id == id
    decreases |tasks|
  {
    if tasks == [] then None
    else if tasks[0].id == id then Some(tasks[0])
    else FindTask(tasks[1..], id)
  }

  /** How many entries carry the id. */
  function CountId(tasks: seq<Task>, id: string): nat
    decreases |tasks|
  {
    if tasks == [] then 0 else (if tasks[0].id == id then 1 else 0) + CountId(tasks[1..], id)
  }

  /** The `delete_task` argument `removeTask` builds for a found task: a local
      task is identified by its own id, any other by `audioMeta.video_id`;
      both pass the task's platform. */
  function DeleteRequestFor(task: Task): (req: DeleteRequest)
    ensures req.platform == task.platform
    ensures req.videoId == (if task.platform == LOCAL then task.id else task.audioMeta.videoId)
  {
    if task.platform == LOCAL then DeleteRequest(task.id, task.platform)
    else DeleteRequest(task.audioMeta.videoId, task.platform)
  }

  /** The registry. `persist` keeps it in local storage; that is not modelled. */
  class Store {
    var tasks: seq<Task>
    var currentTaskId: Option<string>

    constructor ()
      ensures tasks == [] && currentTaskId == None
    {
      tasks := [];
      currentTaskId := None;
    }

    /** The new task goes to the head; nothing checks whether the id is known. */
    method AddPendingTask(taskId: string, platform: string, fileName: Option<string>, createdAt: string)
      modifies this
      ensures tasks == [PendingTask(taskId, platform, fileName, createdAt)] + old(tasks)
      ensures currentTaskId == old(currentTaskId)
    {
      tasks := [PendingTask(taskId, platform, fileName, createdAt)] + tasks;
    }

    method UpdateTaskContent(id: string, patch: TaskPatch)
      modifies this
      ensures tasks == UpdateMatching(old(tasks), id, patch)
      ensures currentTaskId == old(currentTaskId)
    {
      tasks := UpdateMatching(tasks, id, patch);
    }

    /** The task the selection points at, or None. */
    function GetCurrentTask(): (r: Option<Task>)
      reads this
      ensures r.Some? ==> currentTaskId == Some(r.value.id) && r.value in tasks
      ensures r.None? <==> currentTaskId.None? || forall i :: 0 <= i < |tasks| ==> Some(tasks[i].id) != currentTaskId
    {
      match currentTaskId
      case None => None
      case Some(id) => FindTask(tasks, id)
    }

    /** Removes every task with the id and clears a selection that pointed at
        it; only then, if a task was found, asks the backend to delete it.
        The local change does not depend on the backend's reply. */
    method RemoveTask(id: string, backend: DeleteRequest -> Transport<DeleteReply>, toaster: Toaster)
      returns (sent: Option<DeleteRequest>, outcome: Outcome<()>)
      modifies this, toaster
      ensures tasks == RemoveMatching(old(tasks), id)
      ensures currentTaskId == if old(currentTaskId) == Some(id) then None else old(currentTaskId)
      ensures sent == match FindTask(old(tasks), id)
                      case None => None
                      case Some(t) => Some(DeleteRequestFor(t))
      ensures sent.None? ==> toaster.shown == old(toaster.shown) && outcome == Returned(())
      ensures sent.Some? ==>
                var call := DeleteTask(backend(sent.value));
                toaster.shown == old(toaster.shown) + call.toasts &&
                outcome == if call.outcome.Thrown? then Thrown(call.outcome.fault) else Returned(())
    {
      var task := FindTask(tasks, id);
      tasks := RemoveMatching(tasks, id);
      if currentTaskId == Some(id) {
        currentTaskId := None;
      }
      sent := None;
      outcome := Returned(());
      if task.Some? {
        sent := Some(DeleteRequestFor(task.value));
        var call := DeleteTask(backend(sent.value));
        toaster.Show(call.toasts);
        if call.outcome.Thrown? {
          outcome := Thrown(call.outcome.fault);
        }
      }
    }

    method ClearTasks()
      modifies this
      ensures tasks == [] && currentTaskId == None
    {
      tasks := [];
      currentTaskId := None;
    }

    /** Stores any id, known or not. */
    method SetCurrentTask(taskId: Option<string>)
      modifies this
      ensures currentTaskId == taskId && tasks == old(tasks)
    {
      currentTaskId := taskId;
    }
  }

  // ---------------------------------------------------------------------
  // Properties of the registry operations

  /** Head insertion: the new task is at index 0 and the earlier tasks follow
      in their old order; an id already present now occurs once more. */
  lemma {:induction false} AddPendingTaskShape(tasks: seq<Task>, taskId: string, platform: string, fileName: Option<string>, createdAt: string)
    ensures var r := [PendingTask(taskId, platform, fileName, createdAt)] + tasks;
            |r| == |tasks| + 1 && r[0].id == taskId && r[1..] == tasks &&
            CountId(r, taskId) == CountId(tasks, taskId) + 1 &&
            FindTask(r, taskId) == Some(r[0])
  {
    var r := [PendingTask(taskId, platform, fileName, createdAt)] + tasks;
    assert r[1..] == tasks;
  }

  /** `updateTaskContent` keeps length and order, leaves other ids alone and
      merges the patch into every task with the id. */
  lemma UpdateMatchingSpec(tasks: seq<Task>, id: string, patch: TaskPatch)
    ensures var r := UpdateMatching(tasks, id, patch);
            |r| == |tasks| &&
            (forall i :: 0 <= i < |tasks| && tasks[i].id != id ==> r[i] == tasks[i]) &&
            (forall i :: 0 <= i < |tasks| && tasks[i].id == id ==> r[i] == Merge(tasks[i], patch)) &&
            (forall i :: 0 <= i < |tasks| ==> r[i].id == tasks[i].id)
  {
  }

  /** An unknown id leaves the list unchanged: updates racing with a deletion
      are harmless. */
  lemma UpdateUnknownId(tasks: seq<Task>, id: string, patch: TaskPatch)
    requires FindTask(tasks, id).None?
    ensures UpdateMatching(tasks, id, patch) == tasks
  {
    var r := UpdateMatching(tasks, id, patch);
    assert forall i :: 0 <= i < |tasks| ==> r[i] == tasks[i];
  }

  /** Applying the same update twice has the effect of applying it once. */
  lemma UpdateMatchingIdempotent(tasks: seq<Task>, id: string, patch: TaskPatch)
    ensures UpdateMatching(UpdateMatching(tasks, id, patch), id, patch) == UpdateMatching(tasks, id, patch)
  {
    var once := UpdateMatching(tasks, id, patch);
    var twice := UpdateMatching(once, id, patch);
    forall i | 0 <= i < |tasks| ensures twice[i] == once[i] {
    }
  }

  /** Nothing guards a finished task: a later update can set it back to pending. */
  lemma UpdateCanRegressStatus(t: Task)
    requires t.status == Success
    ensures UpdateMatching([t], t.id, TaskPatch(None, None, Some(Pending), None))[0].status == Pending
  {
  }

  /** What `filter` keeps: exactly the tasks with another id. */
  lemma {:induction false} RemoveMatchingMembers(tasks: seq<Task>, id: string, t: Task)
    ensures t in RemoveMatching(tasks, id) <==> t in tasks && t.id != id
    decreases |tasks|
  {
    if tasks != [] {
      RemoveMatchingMembers(tasks[1..], id, t);
      assert tasks == [tasks[0]] + tasks[1..];
    }
  }

  /** No task with the removed id remains, and the count drops by the number
      of entries that had it. */
  lemma {:induction false} RemoveMatchingGone(tasks: seq<Task>, id: string)
    ensures FindTask(RemoveMatching(tasks, id), id).None?
    ensures CountId(RemoveMatching(tasks, id), id) == 0
    ensures |RemoveMatching(tasks, id)| == |tasks| - CountId(tasks, id)
    decreases |tasks|
  {
    if tasks != [] {
      RemoveMatchingGone(tasks[1..], id);
      var r := RemoveMatching(tasks, id);
      if tasks[0].id != id {
        assert r == [tasks[0]] + RemoveMatching(tasks[1..], id);
        assert r[1..] == RemoveMatching(tasks[1..], id);
      }
    }
  }

  /** Filtering distributes over concatenation, so the tasks that remain keep
      their relative order. */
  lemma {:induction false} RemoveMatchingAppend(a: seq<Task>, b: seq<Task>, id: string)
    ensures RemoveMatching(a + b, id) == RemoveMatching(a, id) + RemoveMatching(b, id)
    decreases |a|
  {
    if a != [] {
      assert (a + b)[0] == a[0] && (a + b)[1..] == a[1..] + b;
      RemoveMatchingAppend(a[1..], b, id);
      if a[0].id != id {
        calc {
          RemoveMatching(a + b, id);
          [a[0]] + RemoveMatching(a[1..] + b, id);
          [a[0]] + (RemoveMatching(a[1..], id) + RemoveMatching(b, id));
          ([a[0]] + RemoveMatching(a[1..], id)) + RemoveMatching(b, id);
        }
      }
    } else {
      assert a + b == b;
    }
  }

  /** Removing twice is removing once. */
  lemma {:induction false} RemoveMatchingIdempotent(tasks: seq<Task>, id: string)
    ensures RemoveMatching(RemoveMatching(tasks, id), id) == RemoveMatching(tasks, id)
    decreases |tasks|
  {
    if tasks != [] {
      RemoveMatchingIdempotent(tasks[1..], id);
      if tasks[0].id != id {
        var rest := RemoveMatching(tasks[1..], id);
        assert ([tasks[0]] + rest)[1..] == rest;
      }
    }
  }

  /** Removing an unknown id changes nothing, so it makes no backend call either. */
  lemma {:induction false} RemoveUnknownId(tasks: seq<Task>, id: string)
    requires FindTask(tasks, id).None?
    ensures RemoveMatching(tasks, id) == tasks
    decreases |tasks|
  {
    if tasks != [] {
      RemoveUnknownId(tasks[1..], id);
      assert [tasks[0]] + tasks[1..] == tasks;
    }
  }

  /** `find` returns the first match: every task before it has another id. */
  lemma {:induction false} FindTaskFirst(tasks: seq<Task>, id: string) returns (k: nat)
    requires FindTask(tasks, id).Some?
    ensures k < |tasks| && tasks[k] == FindTask(tasks, id).value
    ensures forall i :: 0 <= i < k ==> tasks[i].id != id
    decreases |tasks|
  {
    if tasks[0].id == id {
      k := 0;
    } else {
      var j := FindTaskFirst(tasks[1..], id);
      k := j + 1;
    }
  }

  /** For a local task as `addPendingTask` created it, `audioMeta.video_id` is
      the task id, so the two deletion keys agree until an update replaces the
      metadata. */
  lemma LocalDeleteKeyAgrees(taskId: string, fileName: Option<string>, createdAt: string)
    ensures DeleteRequestFor(PendingTask(taskId, LOCAL, fileName, createdAt)).videoId
            == PendingTask(taskId, LOCAL, fileName, createdAt).audioMeta.videoId
  {
  }
}
