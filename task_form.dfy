/** The create/update task dialog (components/TaskForm.js): the assignee selection and its
    toggle rule, the user search filter, edit hydration, the reset on close, and the submit
    dispatch. */
module TaskForm {
  import opened Common

  // ---------------------------------------------------------------------------------------
  // The assignee selection

  /** `s.filter(x => x !== id)`. */
  function RemoveAll(s: seq<string>, id: string): (r: seq<string>)
    ensures |r| <= |s|
    ensures forall x :: x in r <==> x in s && x != id
  {
    if s == [] then []
    else (if s[0] != id then [s[0]] else []) + RemoveAll(s[1..], id)
  }

  /** The toggle rule of toggleUserSelection: drop every occurrence of a selected id, append an
      unselected one at the end. */
  function Toggle(s: seq<string>, id: string): (r: seq<string>)
    ensures id in r <==> id !in s
    ensures forall x :: x != id ==> (x in r <==> x in s)
    ensures id !in s ==> r == s + [id]
  {
    if id in s then RemoveAll(s, id) else s + [id]
  }

  predicate NoDup(s: seq<string>) {
    forall i, j :: 0 <= i < j < |s| ==> s[i] != s[j]
  }

  lemma {:induction false} RemoveAllNoDup(s: seq<string>, id: string)
    requires NoDup(s)
    ensures NoDup(RemoveAll(s, id))
  {
    if s != [] {
      RemoveAllNoDup(s[1..], id);
      var rest := RemoveAll(s[1..], id);
      forall k | 0 <= k < |s[1..]| ensures s[1..][k] != s[0] {
        assert s[1..][k] == s[k + 1];
      }
      assert s[0] !in rest;
    }
  }

  lemma {:induction false} RemoveAllAbsent(s: seq<string>, id: string)
    requires id !in s
    ensures RemoveAll(s, id) == s
  {
    if s != [] {
      RemoveAllAbsent(s[1..], id);
      assert s == [s[0]] + s[1..];
    }
  }

  /** On a duplicate-free selection the removed id was there exactly once, so removing it
      takes exactly one element away. */
  lemma {:induction false} RemoveAllOnce(s: seq<string>, id: string)
    requires NoDup(s) && id in s
    ensures multiset(RemoveAll(s, id)) + multiset{id} == multiset(s)
  {
    assert s == [s[0]] + s[1..];
    assert NoDup(s[1..]) by {
      forall i, j | 0 <= i < j < |s[1..]| ensures s[1..][i] != s[1..][j] {
        assert s[i + 1] != s[j + 1];
      }
    }
    if s[0] == id {
      forall k | 0 <= k < |s[1..]| ensures s[1..][k] != id {
        assert s[1..][k] == s[k + 1];
      }
      RemoveAllAbsent(s[1..], id);
    } else {
      RemoveAllOnce(s[1..], id);
    }
  }

  /** Toggling keeps a duplicate-free selection duplicate-free. */
  lemma ToggleNoDup(s: seq<string>, id: string)
    requires NoDup(s)
    ensures NoDup(Toggle(s, id))
  {
    if id in s {
      RemoveAllNoDup(s, id);
    }
  }

  /** Toggling an unselected id twice restores the selection exactly. */
  lemma ToggleTwiceAbsent(s: seq<string>, id: string)
    requires id !in s
    ensures Toggle(Toggle(s, id), id) == s
  {
    assert Toggle(s, id) == s + [id];
    calc {
      RemoveAll(s + [id], id);
      { RemoveAllAppend(s, [id], id); }
      RemoveAll(s, id) + RemoveAll([id], id);
      { RemoveAllAbsent(s, id); }
      s;
    }
  }

  /** Toggling a selected id twice in a duplicate-free selection keeps the same ids, but the
      id moves to the end. */
  lemma ToggleTwicePresent(s: seq<string>, id: string)
    requires NoDup(s) && id in s
    ensures multiset(Toggle(Toggle(s, id), id)) == multiset(s)
    ensures Toggle(Toggle(s, id), id) == RemoveAll(s, id) + [id]
  {
    RemoveAllOnce(s, id);
  }

  lemma {:induction false} RemoveAllAppend(a: seq<string>, b: seq<string>, id: string)
    ensures RemoveAll(a + b, id) == RemoveAll(a, id) + RemoveAll(b, id)
  {
    if a == [] {
      assert a + b == b;
    } else {
      RemoveAllAppend(a[1..], b, id);
      var head := if a[0] != id then [a[0]] else [];
      assert (a + b)[0] == a[0] && (a + b)[1..] == a[1..] + b;
      calc {
        RemoveAll(a + b, id);
        head + RemoveAll(a[1..] + b, id);
        head + (RemoveAll(a[1..], id) + RemoveAll(b, id));
        (head + RemoveAll(a[1..], id)) + RemoveAll(b, id);
      }
    }
  }

  // ---------------------------------------------------------------------------------------
  // The user list and its search filter

  /** One checkbox of the user list: the employee id and its label `name (empId)`. */
  datatype UserOption = UserOption(value: string, caption: string)

  function OptionOf(entry: (string, string)): UserOption {
    UserOption(entry.0, entry.1 + " (" + entry.0 + ")")
  }

  /** `Object.entries(usersMap).map(...)`: one option per (empId, name) entry, in order. */
  function Options(entries: seq<(string, string)>): (r: seq<UserOption>)
    ensures |r| == |entries|
    ensures forall i :: 0 <= i < |entries| ==> r[i] == OptionOf(entries[i])
  {
    if entries == [] then [] else [OptionOf(entries[0])] + Options(entries[1..])
  }

  /** An entry matches a lowercased query when its lowercased name, or its id as it is,
      contains the query. */
  predicate Matches(entry: (string, string), needle: string) {
    Contains(LowerString(entry.1), needle) || Contains(entry.0, needle)
  }

  function FilterEntries(entries: seq<(string, string)>, needle: string): (r: seq<(string, string)>)
    ensures |r| <= |entries|
    ensures forall e :: e in r <==> e in entries && Matches(e, needle)
  {
    if entries == [] then []
    else (if Matches(entries[0], needle) then [entries[0]] else []) + FilterEntries(entries[1..], needle)
  }

  /** Filtering keeps the entries in the order they were listed. */
  lemma {:induction false} FilterEntriesAppend(a: seq<(string, string)>, b: seq<(string, string)>, needle: string)
    ensures FilterEntries(a + b, needle) == FilterEntries(a, needle) + FilterEntries(b, needle)
  {
    if a != [] {
      FilterEntriesAppend(a[1..], b, needle);
      assert (a + b)[1..] == a[1..] + b;
    } else {
      assert a + b == b;
    }
  }

  /** The entries the search box shows for a query: the matching ones for a non-empty query,
      all of them for an empty one. */
  function SearchResults(entries: seq<(string, string)>, query: string): (r: seq<(string, string)>)
    ensures query == [] ==> r == entries
    ensures query != [] ==> forall e :: e in r <==> e in entries && Matches(e, LowerString(query))
    ensures query != [] ==> r == FilterEntries(entries, LowerString(query))
  {
    var needle := LowerString(query);
    if needle != [] then FilterEntries(entries, needle) else entries
  }

  /** The empty needle matches every entry, so the empty-query branch and the filter agree. */
  lemma {:induction false} EmptyNeedleKeepsAll(entries: seq<(string, string)>)
    ensures FilterEntries(entries, []) == entries
  {
    if entries != [] {
      EmptyContained(entries[0].0);
      EmptyNeedleKeepsAll(entries[1..]);
      assert entries == [entries[0]] + entries[1..];
    }
  }

  // ---------------------------------------------------------------------------------------
  // Form values and the submit request

  datatype TaskFields = TaskFields(
    title: string,
    description: string,
    dueDate: string,
    status: string,
    assignedTo: seq<string>,
    progressPercentage: int)

  /** `new Date().toISOString().split('T')[0]`, with the clock's ISO timestamp as a parameter. */
  function Today(isoNow: string): (r: string)
    ensures 'T' !in r
    ensures 'T' in isoNow ==> r == isoNow[..IndexOf(isoNow, 'T').value]
    ensures 'T' !in isoNow ==> r == isoNow
  {
    SplitFirst(isoNow, 'T');
    Split(isoNow, 'T')[0]
  }

  /** The default values, used on open and on every reset. */
  function Defaults(isoNow: string): TaskFields {
    TaskFields("", "", Today(isoNow), "PENDING", [], 0)
  }

  /** The values an edited task puts in the form: missing (or empty) strings become '' and
      'PENDING', missing assignees [] and missing progress 0. */
  function FieldsFrom(task: Task): (r: TaskFields)
    ensures r.title == task.title.GetOr("") && r.description == task.description.GetOr("")
    ensures r.dueDate == task.dueDate.GetOr("")
    ensures r.status == (if task.status.Some? && task.status.value != "" then task.status.value else "PENDING")
    ensures r.assignedTo == task.assignedTo.GetOr([])
    ensures r.progressPercentage == task.progressPercentage.GetOr(0)
  {
    TaskFields(StrOr(task.title, ""), StrOr(task.description, ""), StrOr(task.dueDate, ""),
               StrOr(task.status, "PENDING"), task.assignedTo.GetOr([]), NumOrZero(task.progressPercentage))
  }

  datatype TaskRequest =
    | UpdateTask(taskId: int, payload: TaskFields)
    | CreateTask(objectiveId: int, payload: TaskFields)

  /** The request onSubmit sends: an update of the edited task, or a create under the
      objective; the payload is the form data with `assignedTo` replaced by the selection.
      Update mode with no task dereferences null, so nothing is sent. */
  function RequestFor(isUpdate: bool, task: Option<Task>, objectiveId: int, data: TaskFields,
                      selectedUsers: seq<string>): (r: Option<TaskRequest>)
    ensures r.None? <==> isUpdate && task.None?
    ensures r.Some? ==> r.value.payload == data.(assignedTo := selectedUsers)
    ensures r.Some? && isUpdate ==> r.value == UpdateTask(task.value.id, r.value.payload)
    ensures r.Some? && !isUpdate ==> r.value == CreateTask(objectiveId, r.value.payload)
  {
    var payload := data.(assignedTo := selectedUsers);
    if isUpdate then
      if task.Some? then Some(UpdateTask(task.value.id, payload)) else None
    else Some(CreateTask(objectiveId, payload))
  }

  // ---------------------------------------------------------------------------------------
  // The component

  class TaskFormView {
    const objectiveId: int
    const task: Option<Task>
    const isUpdate: bool
    var values: TaskFields
    var selectedUsers: seq<string>
    var isSubmitting: bool
    var usersMap: seq<(string, string)>
    var usersArray: seq<UserOption>
    var errorToasts: nat

    constructor (objectiveId: int, task: Option<Task>, isUpdate: bool, isoNow: string)
      ensures this.objectiveId == objectiveId && this.task == task && this.isUpdate == isUpdate
      ensures values == Defaults(isoNow) && selectedUsers == [] && !isSubmitting
      ensures usersMap == [] && usersArray == [] && errorToasts == 0
    {
      this.objectiveId, this.task, this.isUpdate := objectiveId, task, isUpdate;
      values, selectedUsers, isSubmitting := Defaults(isoNow), [], false;
      usersMap, usersArray, errorToasts := [], [], 0;
    }

    /** The mount effect that loads the id-to-name map (its entries in order) and lists them all. */
    method FetchUsers(reply: Reply<Option<seq<(string, string)>>>)
      modifies this`usersMap, this`usersArray, this`errorToasts
      ensures reply.Ok? ==> usersMap == reply.data.GetOr([]) && usersArray == Options(usersMap)
                            && errorToasts == old(errorToasts)
      ensures reply.Failed? ==> usersMap == old(usersMap) && usersArray == old(usersArray)
                                && errorToasts == old(errorToasts) + 1
    {
      if reply.Ok? {
        usersMap := reply.data.GetOr([]);
        usersArray := Options(usersMap);
      } else {
        errorToasts := errorToasts + 1;
      }
    }

    /** The edit-hydration effect: in update mode with a task, load its values and assignees. */
    method Hydrate()
      modifies this`values, this`selectedUsers
      ensures isUpdate && task.Some? ==>
        values == FieldsFrom(task.value) && selectedUsers == task.value.assignedTo.GetOr([])
      ensures !(isUpdate && task.Some?) ==> values == old(values) && selectedUsers == old(selectedUsers)
    {
      if isUpdate && task.Some? {
        values := FieldsFrom(task.value);
        selectedUsers := task.value.assignedTo.GetOr([]);
      }
    }

    /** The reset effect: a closed dialog returns to the defaults with nobody selected. */
    method ResetOnClose(isOpen: bool, isoNow: string)
      modifies this`values, this`selectedUsers
      ensures !isOpen ==> values == Defaults(isoNow) && selectedUsers == []
      ensures isOpen ==> values == old(values) && selectedUsers == old(selectedUsers)
    {
      if !isOpen {
        values := Defaults(isoNow);
        selectedUsers := [];
      }
    }

    /** toggleUserSelection: the selection and the form's `assignedTo` get the same toggled list. */
    method ToggleUserSelection(empId: string)
      modifies this`values, this`selectedUsers
      ensures selectedUsers == Toggle(old(selectedUsers), empId)
      ensures values == old(values).(assignedTo := selectedUsers)
    {
      var newSelection := Toggle(selectedUsers, empId);
      selectedUsers := newSelection;
      values := values.(assignedTo := newSelection);
    }

    /** The search box's onChange. */
    method Search(query: string)
      modifies this`usersArray
      ensures usersArray == Options(SearchResults(usersMap, query))
    {
      var needle := LowerString(query);
      if needle != [] {
        usersArray := Options(FilterEntries(usersMap, needle));
      } else {
        usersArray := Options(usersMap);
      }
    }

    /** onSubmit: send the request, and on success hand the reply body to onSuccess. Returns
        the request sent and the argument onSuccess was called with, if it was called. */
    method Submit(reply: Reply<Option<Task>>)
      returns (request: Option<TaskRequest>, delivered: Option<Option<Task>>)
      modifies this`isSubmitting, this`errorToasts
      ensures request == RequestFor(isUpdate, task, objectiveId, values, selectedUsers)
      ensures delivered.Some? <==> request.Some? && reply.Ok?
      ensures delivered.Some? ==> delivered.value == reply.data
      ensures errorToasts == old(errorToasts) + (if delivered.None? then 1 else 0)
      ensures !isSubmitting
    {
      isSubmitting := true;
      request := RequestFor(isUpdate, task, objectiveId, values, selectedUsers);
      if request.Some? && reply.Ok? {
        delivered := Some(reply.data);
      } else {
        delivered := None;
        errorToasts := errorToasts + 1;
      }
      isSubmitting := false;
    }
  }
}
