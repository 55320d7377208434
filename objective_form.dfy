/** The create/update objective dialog (components/ObjectiveForm.js): edit hydration, the reset
    on close, and the three-way submit dispatch with the forced fields of a root objective. */
module ObjectiveForm {
  import opened Common
  import opened OkrTree

  datatype ObjectiveFields = ObjectiveFields(
    title: string,
    description: string,
    level: string,
    progressPercentage: int)

  const DefaultFields := ObjectiveFields("", "", "COMPANY", 0)

  /** A parent link in a request body: left out, an explicit null, or an id. */
  datatype Link = Absent | Null | Id(id: int)

  /** The submitted body: the form fields and whatever tree position the data carries. */
  datatype ObjectiveData = ObjectiveData(fields: ObjectiveFields, treeLevel: Option<int>, parentId: Link)

  datatype ObjectiveRequest =
    | UpdateObjective(objectiveId: int, body: ObjectiveData)
    | CreateSubObjective(parentId: int, body: ObjectiveData)
    | CreateObjective(body: ObjectiveData)

  /** The values an edited node puts in the form: an empty level becomes 'COMPANY'. */
  function FieldsFrom(node: TreeNode): (r: ObjectiveFields)
    ensures r.title == node.title && r.description == node.description
    ensures r.progressPercentage == node.progressPercentage
    ensures r.level == if node.level == "" then "COMPANY" else node.level
  {
    ObjectiveFields(StrOr(Some(node.title), ""), StrOr(Some(node.description), ""),
                    StrOr(Some(node.level), "COMPANY"), node.progressPercentage)
  }

  /** onSubmit's dispatch: update mode updates the edited objective whatever the parent; else
      a truthy parent id creates a sub-objective under it; else a root objective is created at
      tree level 0 with a null parent, whatever the data said. Update mode with no objective
      dereferences null, so nothing is sent. */
  function RequestFor(isUpdate: bool, objective: Option<TreeNode>, parentId: Option<int>,
                      data: ObjectiveData): (r: Option<ObjectiveRequest>)
    ensures r.None? <==> isUpdate && objective.None?
    ensures isUpdate && objective.Some? ==> r == Some(UpdateObjective(objective.value.id, data))
    ensures !isUpdate && Truthy(parentId) ==> r == Some(CreateSubObjective(parentId.value, data))
    ensures !isUpdate && !Truthy(parentId) ==>
      r.Some? && r.value.CreateObjective? && r.value.body.fields == data.fields
      && r.value.body.treeLevel == Some(0) && r.value.body.parentId == Null
  {
    if isUpdate then
      if objective.Some? then Some(UpdateObjective(objective.value.id, data)) else None
    else if Truthy(parentId) then Some(CreateSubObjective(parentId.value, data))
    else Some(CreateObjective(data.(treeLevel := Some(0), parentId := Null)))
  }

  /** A parent id of 0 is falsy, so it creates a root objective rather than a child of 0. */
  lemma ZeroParentCreatesRoot(data: ObjectiveData)
    ensures RequestFor(false, None, Some(0), data)
         == Some(CreateObjective(ObjectiveData(data.fields, Some(0), Null)))
  {
  }

  /** The root branch's request depends only on the form fields: any tree level or parent the
      data carries is overridden. */
  lemma RootRequestIgnoresPosition(parentId: Option<int>, a: ObjectiveData, b: ObjectiveData)
    requires !Truthy(parentId) && a.fields == b.fields
    ensures RequestFor(false, None, parentId, a) == RequestFor(false, None, parentId, b)
  {
  }

  class ObjectiveFormView {
    const parentId: Option<int>
    const objective: Option<TreeNode>
    const isUpdate: bool
    var values: ObjectiveFields
    var isSubmitting: bool
    var errorToasts: nat

    constructor (parentId: Option<int>, objective: Option<TreeNode>, isUpdate: bool)
      ensures this.parentId == parentId && this.objective == objective && this.isUpdate == isUpdate
      ensures values == DefaultFields && !isSubmitting && errorToasts == 0
    {
      this.parentId, this.objective, this.isUpdate := parentId, objective, isUpdate;
      values, isSubmitting, errorToasts := DefaultFields, false, 0;
    }

    /** The edit-hydration effect: in update mode with an objective, load its values. */
    method Hydrate()
      modifies this`values
      ensures isUpdate && objective.Some? ==> values == FieldsFrom(objective.value)
      ensures !(isUpdate && objective.Some?) ==> values == old(values)
    {
      if isUpdate && objective.Some? {
        values := FieldsFrom(objective.value);
      }
    }

    /** The reset effect: a closed dialog returns to the defaults. */
    method ResetOnClose(isOpen: bool)
      modifies this`values
      ensures values == if isOpen then old(values) else DefaultFields
    {
      if !isOpen {
        values := DefaultFields;
      }
    }

    /** onSubmit: send the request for the form's values (which carry no tree position);
        onSuccess is called (the result is true) only when a request was sent and succeeded,
        an error toast is shown otherwise. */
    method Submit(reply: Reply<()>)
      returns (request: Option<ObjectiveRequest>, succeeded: bool)
      modifies this`isSubmitting, this`errorToasts
      ensures request == RequestFor(isUpdate, objective, parentId, ObjectiveData(values, None, Absent))
      ensures succeeded <==> request.Some? && reply.Ok?
      ensures errorToasts == old(errorToasts) + (if succeeded then 0 else 1)
      ensures !isSubmitting
    {
      isSubmitting := true;
      request := RequestFor(isUpdate, objective, parentId, ObjectiveData(values, None, Absent));
      succeeded := request.Some? && reply.Ok?;
      if !succeeded {
        errorToasts := errorToasts + 1;
      }
      isSubmitting := false;
    }
  }
}
