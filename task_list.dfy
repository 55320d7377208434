/** The task list under one objective node (components/TaskList.js): the list operations it
    performs in place on its `tasks` state, the assignee and status labels, and the component
    itself with its refresh, notification, delete and progress handlers. */
module TaskList {
  import opened Common

  // ---------------------------------------------------------------------------------------
  // List operations

  /** `tasks.filter(task => task.id !== id)`: every task with another id, in order. */
  function WithoutTask(ts: seq<Task>, id: int): (r: seq<Task>)
    ensures |r| <= |ts|
    ensures forall t :: t in r <==> t in ts && t.id != id
  {
    if ts == [] then []
    else (if ts[0].id != id then [ts[0]] else []) + WithoutTask(ts[1..], id)
  }

  /** Removing by id distributes over concatenation, so the kept tasks keep their order. */
  lemma {:induction false} WithoutTaskAppend(a: seq<Task>, b: seq<Task>, id: int)
    ensures WithoutTask(a + b, id) == WithoutTask(a, id) + WithoutTask(b, id)
  {
    if a == [] {
      assert a + b == b;
    } else {
      WithoutTaskAppend(a[1..], b, id);
      var head := if a[0].id != id then [a[0]] else [];
      assert (a + b)[0] == a[0] && (a + b)[1..] == a[1..] + b;
      calc {
        WithoutTask(a + b, id);
        head + WithoutTask(a[1..] + b, id);
        head + (WithoutTask(a[1..], id) + WithoutTask(b, id));
        (head + WithoutTask(a[1..], id)) + WithoutTask(b, id);
        WithoutTask(a, id) + WithoutTask(b, id);
      }
    }
  }

  /** A list without the id is left exactly as it is. */
  lemma {:induction false} WithoutAbsentTask(ts: seq<Task>, id: int)
    requires forall i :: 0 <= i < |ts| ==> ts[i].id != id
    ensures WithoutTask(ts, id) == ts
  {
    if ts != [] {
      WithoutAbsentTask(ts[1..], id);
    }
  }

  /** `tasks.map(task => task.id === id ? {...task, progressPercentage: p} : task)`: the tasks with
      that id get progress `p`; nothing else changes, not the length, the order, or other fields. */
  function WithProgress(ts: seq<Task>, id: int, p: int): (r: seq<Task>)
    ensures |r| == |ts|
    ensures forall i :: 0 <= i < |ts| ==> r[i].(progressPercentage := ts[i].progressPercentage) == ts[i]
    ensures forall i :: 0 <= i < |ts| ==>
      r[i].progressPercentage == if ts[i].id == id then Some(p) else ts[i].progressPercentage
  {
    if ts == [] then []
    else [if ts[0].id == id then ts[0].(progressPercentage := Some(p)) else ts[0]]
         + WithProgress(ts[1..], id, p)
  }

  /** Setting the same progress twice is the same as setting it once. */
  lemma WithProgressIdempotent(ts: seq<Task>, id: int, p: int)
    ensures WithProgress(WithProgress(ts, id, p), id, p) == WithProgress(ts, id, p)
  {
    var once := WithProgress(ts, id, p);
    var twice := WithProgress(once, id, p);
    forall i | 0 <= i < |ts| ensures twice[i] == once[i] {
      assert once[i].id == ts[i].id;
    }
  }

  /** The body updateTaskProgress sends: the selected task with the slider's progress. */
  function WithTaskProgress(task: Task, p: int): (r: Task)
    ensures r.id == task.id && r.progressPercentage == Some(p)
    ensures r.(progressPercentage := task.progressPercentage) == task
  {
    task.(progressPercentage := Some(p))
  }

  /** The list after a successful update holds, in the updated task's place, exactly the body
      that was sent. */
  lemma {:induction false} SentTaskInList(ts: seq<Task>, task: Task, p: int)
    requires task in ts
    ensures WithTaskProgress(task, p) in WithProgress(ts, task.id, p)
  {
    var k :| 0 <= k < |ts| && ts[k] == task;
    assert WithProgress(ts, task.id, p)[k] == WithTaskProgress(task, p);
  }

  // ---------------------------------------------------------------------------------------
  // Labels

  /** `usersMap[empId] || empId`: the user's name, or the id itself for an unknown (or unnamed) user. */
  function UserName(users: map<string, string>, empId: string): string {
    if empId in users && users[empId] != "" then users[empId] else empId
  }

  function UserNames(users: map<string, string>, ids: seq<string>): (r: seq<string>)
    ensures |r| == |ids|
    ensures forall i :: 0 <= i < |ids| ==> r[i] == UserName(users, ids[i])
  {
    if ids == [] then [] else [UserName(users, ids[0])] + UserNames(users, ids[1..])
  }

  /** getAssigneeNames (and renderAssignees in app/tasks/page.js). */
  function AssigneeNames(users: map<string, string>, assignedTo: Option<seq<string>>): (r: string)
    ensures assignedTo.None? || assignedTo.value == [] ==> r == "Not assigned"
    ensures assignedTo.Some? && |assignedTo.value| == 1 ==> r == UserName(users, assignedTo.value[0])
  {
    if assignedTo.None? || assignedTo.value == [] then "Not assigned"
    else Join(UserNames(users, assignedTo.value), ", ")
  }

  lemma {:induction false} JoinAppend(a: seq<string>, b: seq<string>, sep: string)
    requires |a| >= 1 && |b| >= 1
    ensures Join(a + b, sep) == Join(a, sep) + sep + Join(b, sep)
  {
    if |a| == 1 {
      assert (a + b)[1..] == b;
    } else {
      JoinAppend(a[1..], b, sep);
      assert (a + b)[1..] == a[1..] + b;
    }
  }

  /** The label of a concatenated assignee list is the two labels joined by ", ": the names
      appear in input order. */
  lemma AssigneeNamesAppend(users: map<string, string>, a: seq<string>, b: seq<string>)
    requires a != [] && b != []
    ensures AssigneeNames(users, Some(a + b))
         == AssigneeNames(users, Some(a)) + ", " + AssigneeNames(users, Some(b))
  {
    assert UserNames(users, a + b) == UserNames(users, a) + UserNames(users, b);
    JoinAppend(UserNames(users, a), UserNames(users, b), ", ");
  }

  const OtherStatusColor := "bg-slate-100 text-slate-800"

  /** getStatusColor: one colour per known status, a neutral colour otherwise. */
  function StatusColor(status: Option<string>): (r: string)
    ensures r == OtherStatusColor <==> !(status.Some? && status.value in {"COMPLETED", "IN_PROGRESS", "PENDING"})
  {
    if status == Some("COMPLETED") then "bg-green-100 text-green-800"
    else if status == Some("IN_PROGRESS") then "bg-blue-100 text-blue-800"
    else if status == Some("PENDING") then "bg-yellow-100 text-yellow-800"
    else OtherStatusColor
  }

  // ---------------------------------------------------------------------------------------
  // The component

  class TaskListView {
    const objectiveId: int
    var tasks: seq<Task>
    var usersMap: map<string, string>
    var loading: bool
    var selectedTask: Option<Task>
    var showTaskDetails: bool
    var showUpdateForm: bool
    var progress: int
    var showProgressDialog: bool
    var isUpdating: bool
    var showDeleteAlert: bool
    var taskToDelete: Option<int>
    var errorToasts: nat

    constructor (objectiveId: int)
      ensures this.objectiveId == objectiveId
      ensures tasks == [] && usersMap == map[] && loading && selectedTask.None?
      ensures !showTaskDetails && !showUpdateForm && progress == 0 && !showProgressDialog && !isUpdating
      ensures !showDeleteAlert && taskToDelete.None? && errorToasts == 0
    {
      this.objectiveId := objectiveId;
      tasks, usersMap, loading, selectedTask := [], map[], true, None;
      showTaskDetails, showUpdateForm, progress, showProgressDialog, isUpdating := false, false, 0, false, false;
      showDeleteAlert, taskToDelete, errorToasts := false, None, 0;
    }

    /** The mount effect: load this objective's tasks, then the id-to-name map. */
    method FetchData(tasksReply: Reply<Option<seq<Task>>>, usersReply: Reply<Option<map<string, string>>>)
      modifies this`tasks, this`usersMap, this`loading, this`errorToasts
      ensures tasks == if tasksReply.Ok? then tasksReply.data.GetOr([]) else old(tasks)
      ensures usersMap == if tasksReply.Ok? && usersReply.Ok? then usersReply.data.GetOr(map[]) else old(usersMap)
      ensures errorToasts == old(errorToasts) + if tasksReply.Failed? || usersReply.Failed? then 1 else 0
      ensures !loading
    {
      loading := true;
      if tasksReply.Failed? {
        errorToasts := errorToasts + 1;
      } else {
        tasks := tasksReply.data.GetOr([]);
        if usersReply.Ok? {
          usersMap := usersReply.data.GetOr(map[]);
        } else {
          errorToasts := errorToasts + 1;
        }
      }
      loading := false;
    }

    /** refreshTasks: replace the whole list with the fetched one, keep it on failure. */
    method RefreshTasks(reply: Reply<Option<seq<Task>>>)
      modifies this`tasks, this`loading, this`errorToasts
      ensures tasks == if reply.Ok? then reply.data.GetOr([]) else old(tasks)
      ensures errorToasts == old(errorToasts) + if reply.Failed? then 1 else 0
      ensures !loading
    {
      loading := true;
      if reply.Ok? {
        tasks := reply.data.GetOr([]);
      } else {
        errorToasts := errorToasts + 1;
      }
      loading := false;
    }

    /** handleTaskRefresh: a notification for another objective is ignored; one for this
        objective appends the created task, or refreshes when it carries none. */
    method HandleTaskRefresh(notice: TaskNotice, reply: Reply<Option<seq<Task>>>)
      modifies this`tasks, this`loading, this`errorToasts
      ensures notice.objectiveId != Some(objectiveId) ==>
        tasks == old(tasks) && loading == old(loading) && errorToasts == old(errorToasts)
      ensures notice.objectiveId == Some(objectiveId) && notice.createdTask.Some? ==>
        tasks == old(tasks) + [notice.createdTask.value]
        && loading == old(loading) && errorToasts == old(errorToasts)
      ensures notice.objectiveId == Some(objectiveId) && notice.createdTask.None? ==>
        tasks == (if reply.Ok? then reply.data.GetOr([]) else old(tasks))
        && !loading && errorToasts == old(errorToasts) + (if reply.Failed? then 1 else 0)
    {
      if notice.objectiveId == Some(objectiveId) {
        if notice.createdTask.Some? {
          tasks := tasks + [notice.createdTask.value];
        } else {
          RefreshTasks(reply);
        }
      }
    }

    method OpenDeleteAlert(taskId: int)
      modifies this`taskToDelete, this`showDeleteAlert
      ensures taskToDelete == Some(taskId) && showDeleteAlert
    {
      taskToDelete := Some(taskId);
      showDeleteAlert := true;
    }

    /** The confirmation's Cancel button: forget the pending task (the dialog closes itself). */
    method CancelDeleteTask()
      modifies this`taskToDelete, this`showDeleteAlert
      ensures taskToDelete.None? && !showDeleteAlert
    {
      taskToDelete := None;
      showDeleteAlert := false;
    }

    /** handleDeleteTask: with a pending task, delete it and drop every task with its id; the
        pending id and the dialog are cleared whether the delete succeeded or not. */
    method HandleDeleteTask(reply: Reply<()>)
      modifies this`tasks, this`taskToDelete, this`showDeleteAlert, this`errorToasts
      ensures !Truthy(old(taskToDelete)) ==>
        tasks == old(tasks) && taskToDelete == old(taskToDelete)
        && showDeleteAlert == old(showDeleteAlert) && errorToasts == old(errorToasts)
      ensures Truthy(old(taskToDelete)) ==>
        taskToDelete.None? && !showDeleteAlert
        && tasks == (if reply.Ok? then WithoutTask(old(tasks), old(taskToDelete).value) else old(tasks))
        && errorToasts == old(errorToasts) + (if reply.Failed? then 1 else 0)
    {
      if !Truthy(taskToDelete) {
        return;
      }
      if reply.Ok? {
        tasks := WithoutTask(tasks, taskToDelete.value);
      } else {
        errorToasts := errorToasts + 1;
      }
      showDeleteAlert := false;
      taskToDelete := None;
    }

    method OpenTaskDetails(task: Task)
      modifies this`selectedTask, this`showTaskDetails
      ensures selectedTask == Some(task) && showTaskDetails
    {
      selectedTask := Some(task);
      showTaskDetails := true;
    }

    method OpenUpdateForm(task: Task)
      modifies this`selectedTask, this`showUpdateForm
      ensures selectedTask == Some(task) && showUpdateForm
    {
      selectedTask := Some(task);
      showUpdateForm := true;
    }

    /** openProgressDialog: the slider starts at the task's progress, or 0 when it has none. */
    method OpenProgressDialog(task: Task)
      modifies this`selectedTask, this`progress, this`showProgressDialog
      ensures selectedTask == Some(task) && showProgressDialog
      ensures progress == if task.progressPercentage.Some? then task.progressPercentage.value else 0
    {
      selectedTask := Some(task);
      progress := NumOrZero(task.progressPercentage);
      showProgressDialog := true;
    }

    /** The slider's onValueChange. */
    method SetProgress(value: int)
      modifies this`progress
      ensures progress == value
    {
      progress := value;
    }

    /** updateTaskProgress: send the selected task with the slider's progress (unclamped); on
        success set that progress on the tasks with its id and close the dialog. Returns the
        update request's body, or None when no task is selected. */
    method UpdateTaskProgress(reply: Reply<()>) returns (sent: Option<Task>)
      modifies this`tasks, this`showProgressDialog, this`isUpdating, this`errorToasts
      ensures old(selectedTask).None? ==>
        sent.None? && tasks == old(tasks) && showProgressDialog == old(showProgressDialog)
        && isUpdating == old(isUpdating) && errorToasts == old(errorToasts)
      ensures old(selectedTask).Some? ==>
        sent == Some(WithTaskProgress(old(selectedTask).value, progress)) && !isUpdating
      ensures old(selectedTask).Some? && reply.Ok? ==>
        tasks == WithProgress(old(tasks), old(selectedTask).value.id, progress)
        && !showProgressDialog && errorToasts == old(errorToasts)
      ensures old(selectedTask).Some? && reply.Failed? ==>
        tasks == old(tasks) && showProgressDialog == old(showProgressDialog)
        && errorToasts == old(errorToasts) + 1
    {
      if selectedTask.None? {
        return None;
      }
      isUpdating := true;
      var task := selectedTask.value;
      sent := Some(WithTaskProgress(task, progress));
      if reply.Ok? {
        tasks := WithProgress(tasks, task.id, progress);
        showProgressDialog := false;
      } else {
        errorToasts := errorToasts + 1;
      }
      isUpdating := false;
    }

    /** handleTaskUpdated: close the update form and reload the list; a failed reload is only
        logged. */
    method HandleTaskUpdated(reply: Reply<Option<seq<Task>>>)
      modifies this`tasks, this`showUpdateForm
      ensures !showUpdateForm
      ensures tasks == if reply.Ok? then reply.data.GetOr([]) else old(tasks)
    {
      showUpdateForm := false;
      if reply.Ok? {
        tasks := reply.data.GetOr([]);
      }
    }
  }
}
