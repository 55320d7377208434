/** The signed-in user's own task page (app/tasks/page.js): loading the user's tasks, the
    progress dialog and its update. The list operations and the assignee and status labels
    (renderAssignees, getStatusColor) are those of TaskList. */
module TasksPage {
  import opened Common
  import opened TaskList

  class MyTasksView {
    var tasks: seq<Task>
    var usersMap: map<string, string>
    var isLoading: bool
    var selectedTask: Option<Task>
    var progress: int
    var isDialogOpen: bool
    var isUpdating: bool
    var errorToasts: nat

    constructor ()
      ensures tasks == [] && usersMap == map[] && isLoading && selectedTask.None? && progress == 0
      ensures !isDialogOpen && !isUpdating && errorToasts == 0
    {
      tasks, usersMap, isLoading, selectedTask := [], map[], true, None;
      progress, isDialogOpen, isUpdating, errorToasts := 0, false, false, 0;
    }

    /** fetchData: without a signed-in user with a non-empty id nothing happens (the page stays
        loading); otherwise the user's tasks replace the list and the name map is loaded. */
    method FetchData(user: Option<User>, tasksReply: Reply<Option<seq<Task>>>,
                     usersReply: Reply<Option<map<string, string>>>)
      modifies this`tasks, this`usersMap, this`isLoading, this`errorToasts
      ensures user.None? || user.value.empId == "" ==>
        tasks == old(tasks) && usersMap == old(usersMap) && isLoading == old(isLoading)
        && errorToasts == old(errorToasts)
      ensures user.Some? && user.value.empId != "" ==>
        tasks == (if tasksReply.Ok? then tasksReply.data.GetOr([]) else old(tasks))
        && usersMap == (if tasksReply.Ok? && usersReply.Ok? then usersReply.data.GetOr(map[]) else old(usersMap))
        && errorToasts == old(errorToasts) + (if tasksReply.Failed? || usersReply.Failed? then 1 else 0)
        && !isLoading
    {
      if user.None? || user.value.empId == "" {
        return;
      }
      isLoading := true;
      if tasksReply.Ok? {
        tasks := tasksReply.data.GetOr([]);
        if usersReply.Ok? {
          usersMap := usersReply.data.GetOr(map[]);
        } else {
          errorToasts := errorToasts + 1;
        }
      } else {
        errorToasts := errorToasts + 1;
      }
      isLoading := false;
    }

    /** openTaskDialog: the slider starts at the task's progress, or 0 when it has none. */
    method OpenTaskDialog(task: Task)
      modifies this`selectedTask, this`progress, this`isDialogOpen
      ensures selectedTask == Some(task) && isDialogOpen
      ensures progress == if task.progressPercentage.Some? then task.progressPercentage.value else 0
    {
      selectedTask := Some(task);
      progress := NumOrZero(task.progressPercentage);
      isDialogOpen := true;
    }

    /** The slider's onValueChange. */
    method SetProgress(value: int)
      modifies this`progress
      ensures progress == value
    {
      progress := value;
    }

    /** updateTaskProgress: as in the task list, send the selected task with the slider's
        progress and, on success, set that progress on the tasks with its id. */
    method UpdateTaskProgress(reply: Reply<()>) returns (sent: Option<Task>)
      modifies this`tasks, this`isDialogOpen, this`isUpdating, this`errorToasts
      ensures old(selectedTask).None? ==>
        sent.None? && tasks == old(tasks) && isDialogOpen == old(isDialogOpen)
        && isUpdating == old(isUpdating) && errorToasts == old(errorToasts)
      ensures old(selectedTask).Some? ==>
        sent == Some(WithTaskProgress(old(selectedTask).value, progress)) && !isUpdating
      ensures old(selectedTask).Some? && reply.Ok? ==>
        tasks == WithProgress(old(tasks), old(selectedTask).value.id, progress)
        && !isDialogOpen && errorToasts == old(errorToasts)
      ensures old(selectedTask).Some? && reply.Failed? ==>
        tasks == old(tasks) && isDialogOpen == old(isDialogOpen) && errorToasts == old(errorToasts) + 1
    {
      if selectedTask.None? {
        return None;
      }
      isUpdating := true;
      var task := selectedTask.value;
      sent := Some(WithTaskProgress(task, progress));
      if reply.Ok? {
        tasks := WithProgress(tasks, task.id, progress);
        isDialogOpen := false;
      } else {
        errorToasts := errorToasts + 1;
      }
      isUpdating := false;
    }
  }
}
