/** The objective tree view (components/OKRTree.js): the tree shaper that turns the objective
    graph returned by the tree endpoint into the view-model tree, the level label of a node card,
    and the OKRTree controller with its asynchronous handlers, each taken as one atomic step
    whose remote replies are passed in as arguments. */
module OkrTree {
  import opened Common

  /** An objective as the tree endpoints return it. A child slot may hold null. */
  datatype Objective = Objective(
    id: int,
    title: string,
    description: string,
    level: string,
    treeLevel: int,
    progressPercentage: int,
    parentId: Option<int>,
    children: seq<Option<Objective>>)

  /** The view-model node handed to the tree renderer; `name` is the label it draws. */
  datatype TreeNode = TreeNode(
    name: string,
    id: int,
    title: string,
    description: string,
    level: string,
    treeLevel: int,
    progressPercentage: int,
    parentId: Option<int>,
    children: seq<TreeNode>)

  // ---------------------------------------------------------------------------------------
  // The tree shaper (formatDataForD3Tree)

  /** The non-null child slots, in order. */
  function Present(cs: seq<Option<Objective>>): (r: seq<Objective>)
    ensures |r| <= |cs|
  {
    if cs == [] then []
    else (if cs[0].Some? then [cs[0].value] else []) + Present(cs[1..])
  }

  /** The present children are exactly the objectives in the non-null slots. */
  lemma {:induction false} PresentMembers(cs: seq<Option<Objective>>)
    ensures forall o :: o in Present(cs) <==> Some(o) in cs
  {
    if cs != [] {
      PresentMembers(cs[1..]);
      assert cs == [cs[0]] + cs[1..];
    }
  }

  /** A view-model tree as the shaper builds it: every node is labelled with its own title. */
  predicate Labelled(n: TreeNode) {
    n.name == n.title && forall i :: 0 <= i < |n.children| ==> Labelled(n.children[i])
  }

  /** formatDataForD3Tree: null gives null; an objective gives a node labelled with its title,
      with one shaped child per non-null child slot. */
  function Shape(o: Option<Objective>): (r: Option<TreeNode>)
    decreases o, 1
    ensures r.Some? <==> o.Some?
    ensures r.Some? ==> Labelled(r.value) && |r.value.children| == |Present(o.value.children)|
  {
    match o
    case None => None
    case Some(obj) =>
      Some(TreeNode(obj.title, obj.id, obj.title, obj.description, obj.level, obj.treeLevel,
                    obj.progressPercentage, obj.parentId, ShapeAll(obj.children)))
  }

  /** `children.map(formatDataForD3Tree).filter(Boolean)`. */
  function ShapeAll(cs: seq<Option<Objective>>): (r: seq<TreeNode>)
    decreases cs, 0
    ensures |r| == |Present(cs)|
    ensures forall i :: 0 <= i < |r| ==> Labelled(r[i])
  {
    if cs == [] then []
    else
      match Shape(cs[0])
      case None => ShapeAll(cs[1..])
      case Some(n) => [n] + ShapeAll(cs[1..])
  }

  /** Shaping a list of child slots distributes over concatenation. */
  lemma {:induction false} ShapeAllAppend(a: seq<Option<Objective>>, b: seq<Option<Objective>>)
    ensures ShapeAll(a + b) == ShapeAll(a) + ShapeAll(b)
  {
    if a != [] {
      ShapeAllAppend(a[1..], b);
      assert (a + b)[0] == a[0] && (a + b)[1..] == a[1..] + b;
      if a[0].None? {
        assert ShapeAll(a + b) == ShapeAll(a[1..] + b);
        assert ShapeAll(a) == ShapeAll(a[1..]);
      } else {
        var n := Shape(a[0]).value;
        calc {
          ShapeAll(a + b);
          [n] + ShapeAll(a[1..] + b);
          [n] + (ShapeAll(a[1..]) + ShapeAll(b));
          ([n] + ShapeAll(a[1..])) + ShapeAll(b);
        }
      }
    } else {
      assert a + b == b;
    }
  }

  /** A null child slot is dropped: shaping with it equals shaping with it removed. */
  lemma {:induction false} ShapeAllDropsNull(a: seq<Option<Objective>>, b: seq<Option<Objective>>)
    ensures ShapeAll(a + [None] + b) == ShapeAll(a + b)
  {
    ShapeAllAppend(a + [None], b);
    ShapeAllAppend(a, [None]);
    ShapeAllAppend(a, b);
    var none: seq<Option<Objective>> := [None];
    assert none[1..] == [];
    assert ShapeAll(none) == [];
  }

  /** The shaped children are the shapes of the non-null children, in the same order. */
  lemma {:induction false} ShapeAllInOrder(cs: seq<Option<Objective>>)
    ensures forall i :: 0 <= i < |ShapeAll(cs)| ==> Shape(Some(Present(cs)[i])) == Some(ShapeAll(cs)[i])
  {
    if cs != [] {
      ShapeAllInOrder(cs[1..]);
      if cs[0].Some? {
        forall i | 0 <= i < |ShapeAll(cs)|
          ensures Shape(Some(Present(cs)[i])) == Some(ShapeAll(cs)[i])
        {
          if i > 0 {
            assert Present(cs)[i] == Present(cs[1..])[i - 1];
            assert ShapeAll(cs)[i] == ShapeAll(cs[1..])[i - 1];
          }
        }
      }
    }
  }

  /** The objective a well-labelled node was shaped from: every child slot present. */
  function Unshape(n: TreeNode): (o: Objective)
    decreases n, 1
  {
    Objective(n.id, n.title, n.description, n.level, n.treeLevel, n.progressPercentage,
              n.parentId, UnshapeAll(n.children))
  }

  function UnshapeAll(ns: seq<TreeNode>): (os: seq<Option<Objective>>)
    decreases ns, 0
    ensures |os| == |ns|
    ensures forall i :: 0 <= i < |os| ==> os[i].Some?
  {
    if ns == [] then [] else [Some(Unshape(ns[0]))] + UnshapeAll(ns[1..])
  }

  /** An objective with every null child slot removed, at every depth. */
  function Prune(o: Objective): Objective
    decreases Some(o), 1
  {
    o.(children := PruneAll(o.children))
  }

  function PruneAll(cs: seq<Option<Objective>>): (r: seq<Option<Objective>>)
    decreases cs, 0
  {
    if cs == [] then []
    else
      match cs[0]
      case None => PruneAll(cs[1..])
      case Some(c) => [Some(Prune(c))] + PruneAll(cs[1..])
  }

  /** Round trip from the view model: a labelled node is the shape of its unshaped objective. */
  lemma {:induction false} ShapeUnshape(n: TreeNode)
    requires Labelled(n)
    ensures Shape(Some(Unshape(n))) == Some(n)
    decreases n, 1
  {
    ShapeUnshapeAll(n.children);
  }

  lemma {:induction false} ShapeUnshapeAll(ns: seq<TreeNode>)
    requires forall i :: 0 <= i < |ns| ==> Labelled(ns[i])
    ensures ShapeAll(UnshapeAll(ns)) == ns
    decreases ns, 0
  {
    if ns != [] {
      ShapeUnshape(ns[0]);
      ShapeUnshapeAll(ns[1..]);
      assert UnshapeAll(ns)[1..] == UnshapeAll(ns[1..]);
    }
  }

  /** Round trip from the objective: shaping forgets exactly the null child slots. */
  lemma {:induction false} UnshapeShape(o: Objective)
    ensures Unshape(Shape(Some(o)).value) == Prune(o)
    decreases Some(o), 1
  {
    UnshapeShapeAll(o.children);
  }

  lemma {:induction false} UnshapeShapeAll(cs: seq<Option<Objective>>)
    ensures UnshapeAll(ShapeAll(cs)) == PruneAll(cs)
    decreases cs, 0
  {
    if cs != [] {
      UnshapeShapeAll(cs[1..]);
      if cs[0].Some? {
        UnshapeShape(cs[0].value);
        assert UnshapeAll(ShapeAll(cs)) == [Some(Unshape(Shape(cs[0]).value))] + UnshapeAll(ShapeAll(cs[1..]));
      }
    }
  }

  /** The trees the shaper can produce are exactly the labelled ones. */
  lemma LabelledIffShaped(n: TreeNode)
    ensures Labelled(n) <==> exists o :: Shape(Some(o)) == Some(n)
  {
    if Labelled(n) {
      ShapeUnshape(n);
    }
  }

  /** getLevelLabel: the badge text of a node card. */
  function LevelLabel(level: string): (r: string)
    ensures r == "Unknown Level" <==> level !in {"COMPANY", "DEPARTMENT", "TEAMS", "INDIVIDUALS"}
  {
    if level == "COMPANY" then "Company Level"
    else if level == "DEPARTMENT" then "Department Level"
    else if level == "TEAMS" then "Team Level"
    else if level == "INDIVIDUALS" then "Individual Level"
    else "Unknown Level"
  }

  // ---------------------------------------------------------------------------------------
  // The controller state and the effect of each handler on it

  /** The state of the OKRTree component; `errorToasts` counts the error notifications shown. */
  datatype TreeState = TreeState(
    treeData: Option<TreeNode>,
    loading: bool,
    error: Option<string>,
    rootObjectives: seq<Objective>,
    selectedRootId: Option<int>,
    showAddRootDialog: bool,
    showAddSubDialog: bool,
    showAddTaskDialog: bool,
    showUpdateDialog: bool,
    currentObjectiveId: Option<int>,
    currentObjective: Option<TreeNode>,
    showDeleteAlert: bool,
    objectiveToDelete: Option<int>,
    errorToasts: nat)

  const InitialTreeState := TreeState(None, true, None, [], None, false, false, false, false,
                                      None, None, false, None, 0)

  const LoadTreesError := "Failed to load OKR trees. Please try again later."

  /** The displayed tree, when there is one, is always a shaper output. */
  predicate ValidState(s: TreeState) {
    s.treeData.Some? ==> Labelled(s.treeData.value)
  }

  /** The result of fetchRootObjectives: the new state and the list the promise resolves to. */
  datatype Fetched = Fetched(state: TreeState, trees: seq<Objective>)

  predicate NonEmptyList(reply: Reply<Option<seq<Objective>>>) {
    reply.Ok? && reply.data.Some? && reply.data.value != []
  }

  /** The list fetchRootObjectives resolves to: the fetched roots when there are some, the tree
      of root 1 alone when the root-list request failed and that tree could be fetched, and
      the empty list otherwise. */
  function RootsOf(reply: Reply<Option<seq<Objective>>>, fallback: Reply<Option<Objective>>): seq<Objective> {
    if NonEmptyList(reply) then reply.data.value
    else if reply.Failed? && fallback.Ok? && fallback.data.Some? then [fallback.data.value]
    else []
  }

  /** fetchRootObjectives: the root-list endpoint, and on its failure the tree of root 1. The
      root list becomes the resolved list, except that a failure without fallback keeps the old
      one; an empty reply clears the displayed tree; a failure sets the error even when the
      fallback succeeds; nothing else changes and loading ends. */
  function FetchRoots(s: TreeState, reply: Reply<Option<seq<Objective>>>,
                      fallback: Reply<Option<Objective>>): (f: Fetched)
    ensures f.trees == RootsOf(reply, fallback)
    ensures ValidState(s) ==> ValidState(f.state)
    ensures f.state.rootObjectives == if reply.Failed? && f.trees == [] then s.rootObjectives else f.trees
    ensures f.state.treeData == if reply.Ok? && f.trees == [] then None else s.treeData
    ensures f.state.error == if reply.Failed? then Some(LoadTreesError) else s.error
    ensures !f.state.loading
    ensures f.state.(rootObjectives := s.rootObjectives, treeData := s.treeData, error := s.error,
                     loading := s.loading) == s
  {
    if NonEmptyList(reply) then
      Fetched(s.(rootObjectives := reply.data.value, loading := false), reply.data.value)
    else if reply.Ok? then
      Fetched(s.(rootObjectives := [], treeData := None, loading := false), [])
    else
      var s1 := s.(error := Some(LoadTreesError));
      if fallback.Ok? && fallback.data.Some? then
        Fetched(s1.(rootObjectives := [fallback.data.value], loading := false), [fallback.data.value])
      else
        Fetched(s1.(loading := false), [])
  }

  /** The mount effect: fetch the roots, then select and show the first one when none is
      selected yet. */
  function Mount(s: TreeState, reply: Reply<Option<seq<Objective>>>,
                 fallback: Reply<Option<Objective>>): (f: Fetched)
    ensures ValidState(s) ==> ValidState(f.state)
    ensures f.trees == RootsOf(reply, fallback)
    ensures f.trees != [] && !Truthy(s.selectedRootId) ==>
      f.state.selectedRootId == Some(f.trees[0].id) && f.state.treeData == Shape(Some(f.trees[0]))
    ensures f.state == FetchRoots(s, reply, fallback).state.(selectedRootId := f.state.selectedRootId,
                                                             treeData := f.state.treeData)
    ensures f.trees == [] || Truthy(s.selectedRootId) ==> f.state == FetchRoots(s, reply, fallback).state
  {
    var f := FetchRoots(s, reply, fallback);
    if |f.trees| > 0 && !Truthy(s.selectedRootId) then
      Fetched(f.state.(selectedRootId := Some(f.trees[0].id), treeData := Shape(Some(f.trees[0]))),
              f.trees)
    else f
  }

  /** loadTree(rootId): select and show the fetched tree; on failure show one error toast and
      keep the previous tree and selection. */
  function LoadTree(s: TreeState, rootId: Option<int>, reply: Reply<Option<Objective>>): (t: TreeState)
    ensures !t.loading
    ensures ValidState(s) ==> ValidState(t)
    ensures reply.Ok? && reply.data.Some? ==>
      t.selectedRootId == rootId && t.treeData == Shape(reply.data) && t.errorToasts == s.errorToasts
    ensures !(reply.Ok? && reply.data.Some?) ==>
      t.selectedRootId == s.selectedRootId && t.treeData == s.treeData
    ensures reply.Failed? ==> t.errorToasts == s.errorToasts + 1
    ensures t.rootObjectives == s.rootObjectives && t.objectiveToDelete == s.objectiveToDelete
    ensures reply.Ok? ==> t.errorToasts == s.errorToasts
    ensures t.(selectedRootId := s.selectedRootId, treeData := s.treeData, errorToasts := s.errorToasts)
         == s.(loading := false)
  {
    if reply.Ok? && reply.data.Some? then
      s.(selectedRootId := rootId, treeData := Shape(reply.data), loading := false)
    else if reply.Ok? then
      s.(loading := false)
    else
      s.(errorToasts := s.errorToasts + 1, loading := false)
  }

  /** handleDeleteObjective: remember which objective to delete and open the confirmation. */
  function RequestDelete(s: TreeState, id: int): (t: TreeState)
    ensures t.objectiveToDelete == Some(id) && t.showDeleteAlert
  {
    s.(objectiveToDelete := Some(id), showDeleteAlert := true)
  }

  /** The confirmation's Cancel button: forget the pending objective (the dialog closes itself). */
  function CancelDelete(s: TreeState): (t: TreeState)
    ensures t.objectiveToDelete.None? && !t.showDeleteAlert
  {
    s.(objectiveToDelete := None, showDeleteAlert := false)
  }

  /** confirmDeleteObjective: delete the pending objective; on success refetch the root list when
      it was the selected root and reload the selected tree otherwise. */
  function ConfirmDelete(s: TreeState, deleted: Reply<()>, roots: Reply<Option<seq<Objective>>>,
                         fallback: Reply<Option<Objective>>, tree: Reply<Option<Objective>>): (t: TreeState)
    ensures ValidState(s) ==> ValidState(t)
    ensures !Truthy(s.objectiveToDelete) ==> t == s
    ensures Truthy(s.objectiveToDelete) ==> t.objectiveToDelete.None? && !t.showDeleteAlert
    ensures t.selectedRootId == s.selectedRootId
    ensures Truthy(s.objectiveToDelete) && deleted.Ok? && s.selectedRootId == s.objectiveToDelete ==>
      t.rootObjectives == FetchRoots(s, roots, fallback).state.rootObjectives
      && t.treeData == FetchRoots(s, roots, fallback).state.treeData
    ensures Truthy(s.objectiveToDelete) && deleted.Ok? && s.selectedRootId != s.objectiveToDelete ==>
      t.treeData == LoadTree(s, s.selectedRootId, tree).treeData && t.rootObjectives == s.rootObjectives
    ensures Truthy(s.objectiveToDelete) && deleted.Failed? ==>
      t.errorToasts == s.errorToasts + 1 && t.treeData == s.treeData && t.rootObjectives == s.rootObjectives
    ensures Truthy(s.objectiveToDelete) && deleted.Failed? ==>
      t == s.(errorToasts := s.errorToasts + 1, showDeleteAlert := false, objectiveToDelete := None)
    ensures Truthy(s.objectiveToDelete) && deleted.Ok? && s.selectedRootId == s.objectiveToDelete ==>
      t == FetchRoots(s, roots, fallback).state.(showDeleteAlert := false, objectiveToDelete := None)
    ensures Truthy(s.objectiveToDelete) && deleted.Ok? && s.selectedRootId != s.objectiveToDelete ==>
      t == LoadTree(s, s.selectedRootId, tree).(showDeleteAlert := false, objectiveToDelete := None)
  {
    if !Truthy(s.objectiveToDelete) then s
    else
      var t :=
        if deleted.Failed? then s.(errorToasts := s.errorToasts + 1)
        else if s.selectedRootId == s.objectiveToDelete then FetchRoots(s, roots, fallback).state
        else LoadTree(s, s.selectedRootId, tree);
      t.(showDeleteAlert := false, objectiveToDelete := None)
  }

  /** handleObjectiveCreated: close both create dialogs and refetch the roots; then select the
      last root when none was selected before, or reload the root that was selected. */
  function ObjectiveCreated(s: TreeState, roots: Reply<Option<seq<Objective>>>,
                            fallback: Reply<Option<Objective>>, tree: Reply<Option<Objective>>): (t: TreeState)
    ensures ValidState(s) ==> ValidState(t)
    ensures !t.showAddRootDialog && !t.showAddSubDialog
    ensures Truthy(s.selectedRootId) ==> t.selectedRootId == s.selectedRootId
    ensures var trees := RootsOf(roots, fallback);
      !Truthy(s.selectedRootId) && trees != [] ==>
        t.selectedRootId == Some(trees[|trees| - 1].id) && t.treeData == Shape(Some(trees[|trees| - 1]))
    ensures var f := FetchRoots(s.(showAddRootDialog := false, showAddSubDialog := false), roots, fallback);
      t.rootObjectives == f.state.rootObjectives
      && (Truthy(s.selectedRootId) ==> t == LoadTree(f.state, s.selectedRootId, tree))
      && (!Truthy(s.selectedRootId) && f.trees == [] ==> t == f.state)
      && (!Truthy(s.selectedRootId) && f.trees != [] ==>
            t == f.state.(selectedRootId := t.selectedRootId, treeData := t.treeData))
  {
    var f := FetchRoots(s.(showAddRootDialog := false, showAddSubDialog := false), roots, fallback);
    if !Truthy(s.selectedRootId) && |f.trees| > 0 then
      var last := f.trees[|f.trees| - 1];
      f.state.(selectedRootId := Some(last.id), treeData := Shape(Some(last)))
    else if Truthy(s.selectedRootId) then
      LoadTree(f.state, s.selectedRootId, tree)
    else
      f.state
  }

  /** The result of handleTaskCreated: the new state and the notification sent to task lists. */
  datatype Notified = Notified(state: TreeState, notice: TaskNotice)

  /** handleTaskCreated: close the task dialog, notify the task lists with the objective the
      dialog was opened for and the created task, and reload the selected tree if any. */
  function TaskCreated(s: TreeState, created: Option<Task>, tree: Reply<Option<Objective>>): (n: Notified)
    ensures ValidState(s) ==> ValidState(n.state)
    ensures !n.state.showAddTaskDialog
    ensures n.notice.objectiveId == s.currentObjectiveId && n.notice.createdTask == created
    ensures n.state.selectedRootId == s.selectedRootId
    ensures !Truthy(s.selectedRootId) ==> n.state.treeData == s.treeData
    ensures Truthy(s.selectedRootId) ==> n.state.treeData == LoadTree(s, s.selectedRootId, tree).treeData
    ensures Truthy(s.selectedRootId) ==>
      n.state == LoadTree(s.(showAddTaskDialog := false), s.selectedRootId, tree)
    ensures !Truthy(s.selectedRootId) ==> n.state == s.(showAddTaskDialog := false)
  {
    var s1 := s.(showAddTaskDialog := false);
    Notified(if Truthy(s.selectedRootId) then LoadTree(s1, s.selectedRootId, tree) else s1,
             TaskNotice(s.currentObjectiveId, created))
  }

  /** handleObjectiveUpdated: close the update dialog and reload the selected tree if any. */
  function ObjectiveUpdated(s: TreeState, tree: Reply<Option<Objective>>): (t: TreeState)
    ensures ValidState(s) ==> ValidState(t)
    ensures !t.showUpdateDialog
    ensures t.selectedRootId == s.selectedRootId
    ensures !Truthy(s.selectedRootId) ==> t.treeData == s.treeData
    ensures Truthy(s.selectedRootId) ==> t.treeData == LoadTree(s, s.selectedRootId, tree).treeData
    ensures Truthy(s.selectedRootId) ==> t == LoadTree(s.(showUpdateDialog := false), s.selectedRootId, tree)
    ensures !Truthy(s.selectedRootId) ==> t == s.(showUpdateDialog := false)
  {
    var s1 := s.(showUpdateDialog := false);
    if Truthy(s.selectedRootId) then LoadTree(s1, s.selectedRootId, tree) else s1
  }

  /** Asking to delete and then cancelling makes a later confirmation do nothing. */
  lemma CancelledDeleteIsNoop(s: TreeState, id: int, deleted: Reply<()>,
                              roots: Reply<Option<seq<Objective>>>, fallback: Reply<Option<Objective>>,
                              tree: Reply<Option<Objective>>)
    ensures var c := CancelDelete(RequestDelete(s, id));
      ConfirmDelete(c, deleted, roots, fallback, tree) == c
  {
  }

  /** Creating the first root: when the refreshed list holds just the new root, it is selected
      and shown, whatever the reload reply. */
  lemma FirstRootIsSelected(s: TreeState, created: Objective, fallback: Reply<Option<Objective>>,
                            tree: Reply<Option<Objective>>)
    requires s.selectedRootId.None?
    ensures var t := ObjectiveCreated(s, Ok(Some([created])), fallback, tree);
      t.rootObjectives == [created] && t.selectedRootId == Some(created.id)
      && t.treeData == Shape(Some(created))
  {
  }

  // ---------------------------------------------------------------------------------------
  // The component

  class TreeController {
    var treeData: Option<TreeNode>
    var loading: bool
    var error: Option<string>
    var rootObjectives: seq<Objective>
    var selectedRootId: Option<int>
    var showAddRootDialog: bool
    var showAddSubDialog: bool
    var showAddTaskDialog: bool
    var showUpdateDialog: bool
    var currentObjectiveId: Option<int>
    var currentObjective: Option<TreeNode>
    var showDeleteAlert: bool
    var objectiveToDelete: Option<int>
    var errorToasts: nat

    function State(): TreeState
      reads this
    {
      TreeState(treeData, loading, error, rootObjectives, selectedRootId, showAddRootDialog,
                showAddSubDialog, showAddTaskDialog, showUpdateDialog, currentObjectiveId,
                currentObjective, showDeleteAlert, objectiveToDelete, errorToasts)
    }

    ghost predicate Valid()
      reads this
    {
      ValidState(State())
    }

    constructor ()
      ensures Valid() && State() == InitialTreeState
    {
      treeData, loading, error, rootObjectives, selectedRootId := None, true, None, [], None;
      showAddRootDialog, showAddSubDialog, showAddTaskDialog, showUpdateDialog := false, false, false, false;
      currentObjectiveId, currentObjective := None, None;
      showDeleteAlert, objectiveToDelete, errorToasts := false, None, 0;
    }

    method FetchRootObjectives(reply: Reply<Option<seq<Objective>>>, fallback: Reply<Option<Objective>>)
      returns (trees: seq<Objective>)
      requires Valid()
      modifies this
      ensures Valid()
      ensures Fetched(State(), trees) == FetchRoots(old(State()), reply, fallback)
    {
      loading := true;
      if reply.Ok? && reply.data.Some? && |reply.data.value| > 0 {
        rootObjectives := reply.data.value;
        trees := reply.data.value;
      } else if reply.Ok? {
        rootObjectives := [];
        treeData := None;
        trees := [];
      } else {
        error := Some(LoadTreesError);
        trees := [];
        if fallback.Ok? && fallback.data.Some? {
          var roots := [fallback.data.value];
          rootObjectives := roots;
          trees := roots;
        }
      }
      loading := false;
    }

    method MountEffect(reply: Reply<Option<seq<Objective>>>, fallback: Reply<Option<Objective>>)
      returns (trees: seq<Objective>)
      requires Valid()
      modifies this
      ensures Valid()
      ensures Fetched(State(), trees) == Mount(old(State()), reply, fallback)
    {
      var wasSelected := selectedRootId;
      trees := FetchRootObjectives(reply, fallback);
      if |trees| > 0 && !Truthy(wasSelected) {
        selectedRootId := Some(trees[0].id);
        treeData := Shape(Some(trees[0]));
      }
    }

    method LoadTreeOf(rootId: Option<int>, reply: Reply<Option<Objective>>)
      requires Valid()
      modifies this
      ensures Valid()
      ensures State() == LoadTree(old(State()), rootId, reply)
    {
      loading := true;
      if reply.Ok? {
        if reply.data.Some? {
          selectedRootId := rootId;
          treeData := Shape(reply.data);
        }
      } else {
        errorToasts := errorToasts + 1;
      }
      loading := false;
    }

    method HandleAddRootObjective()
      modifies this
      ensures State() == old(State()).(currentObjectiveId := None, showAddRootDialog := true)
    {
      currentObjectiveId := None;
      showAddRootDialog := true;
    }

    method HandleAddSubObjective(parentId: int)
      modifies this
      ensures State() == old(State()).(currentObjectiveId := Some(parentId), showAddSubDialog := true)
    {
      currentObjectiveId := Some(parentId);
      showAddSubDialog := true;
    }

    method HandleAddTask(objectiveId: int)
      modifies this
      ensures State() == old(State()).(currentObjectiveId := Some(objectiveId), showAddTaskDialog := true)
    {
      currentObjectiveId := Some(objectiveId);
      showAddTaskDialog := true;
    }

    method HandleUpdateObjective(node: TreeNode)
      modifies this
      ensures State() == old(State()).(currentObjective := Some(node), showUpdateDialog := true)
    {
      currentObjective := Some(node);
      showUpdateDialog := true;
    }

    method HandleDeleteObjective(id: int)
      requires Valid()
      modifies this
      ensures Valid()
      ensures State() == RequestDelete(old(State()), id)
    {
      objectiveToDelete := Some(id);
      showDeleteAlert := true;
    }

    method CancelDeleteObjective()
      requires Valid()
      modifies this
      ensures Valid()
      ensures State() == CancelDelete(old(State()))
    {
      objectiveToDelete := None;
      showDeleteAlert := false;
    }

    method ConfirmDeleteObjective(deleted: Reply<()>, roots: Reply<Option<seq<Objective>>>,
                                  fallback: Reply<Option<Objective>>, tree: Reply<Option<Objective>>)
      requires Valid()
      modifies this
      ensures Valid()
      ensures State() == ConfirmDelete(old(State()), deleted, roots, fallback, tree)
    {
      if !Truthy(objectiveToDelete) {
        return;
      }
      if deleted.Ok? {
        if selectedRootId == objectiveToDelete {
          var _ := FetchRootObjectives(roots, fallback);
        } else {
          LoadTreeOf(selectedRootId, tree);
        }
      } else {
        errorToasts := errorToasts + 1;
      }
      showDeleteAlert := false;
      objectiveToDelete := None;
    }

    method HandleObjectiveCreated(roots: Reply<Option<seq<Objective>>>, fallback: Reply<Option<Objective>>,
                                  tree: Reply<Option<Objective>>)
      requires Valid()
      modifies this
      ensures Valid()
      ensures State() == ObjectiveCreated(old(State()), roots, fallback, tree)
    {
      showAddRootDialog := false;
      showAddSubDialog := false;
      ghost var before := old(State());
      ghost var closed := State();
      assert closed == before.(showAddRootDialog := false, showAddSubDialog := false);
      var currentRootId := selectedRootId;
      var trees := FetchRootObjectives(roots, fallback);
      ghost var fetched := State();
      assert Fetched(fetched, trees) == FetchRoots(closed, roots, fallback);
      ghost var target := ObjectiveCreated(before, roots, fallback, tree);
      if !Truthy(currentRootId) && |trees| > 0 {
        selectedRootId := Some(trees[|trees| - 1].id);
        treeData := Shape(Some(trees[|trees| - 1]));
        assert target == fetched.(selectedRootId := selectedRootId, treeData := treeData);
      } else if Truthy(currentRootId) {
        LoadTreeOf(currentRootId, tree);
        assert target == LoadTree(fetched, currentRootId, tree);
      } else {
        assert target == fetched;
      }
    }

    method HandleTaskCreated(created: Option<Task>, tree: Reply<Option<Objective>>)
      returns (notice: TaskNotice)
      requires Valid()
      modifies this
      ensures Valid()
      ensures Notified(State(), notice) == TaskCreated(old(State()), created, tree)
    {
      showAddTaskDialog := false;
      notice := TaskNotice(currentObjectiveId, created);
      if Truthy(selectedRootId) {
        LoadTreeOf(selectedRootId, tree);
      }
    }

    method HandleObjectiveUpdated(tree: Reply<Option<Objective>>)
      requires Valid()
      modifies this
      ensures Valid()
      ensures State() == ObjectiveUpdated(old(State()), tree)
    {
      showUpdateDialog := false;
      if Truthy(selectedRootId) {
        LoadTreeOf(selectedRootId, tree);
      }
    }
  }
}
