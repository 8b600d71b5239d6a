/**
 * The task edit dialog (src/components/kanban/edit-task-modal.tsx): the form
 * filled in from the task, the update request it sends, the assignee select
 * and the delete confirmation.
 */
module EditTaskModal {
  import opened Wrappers
  import opened Text
  import opened Tasks

  /** The six form fields; an empty `assigneeId` means "not assigned". */
  datatype Fields = Fields(title: string, description: string, status: Status, priority: Priority,
                           assigneeId: string, deadline: Option<int>)

  const InitialFields := Fields("", "", Todo, Medium, "", None)

  /** What the open effect copies from the task: null description and assignee read as "". */
  function FieldsOf(task: Task): Fields {
    Fields(task.title, task.description.GetOr(""), task.status, task.priority,
           task.assigneeId.GetOr(""), task.deadline)
  }

  /** The PUT body; `None` stands for `null`, and for `deadline` for a key `JSON.stringify` leaves out. */
  datatype UpdateBody = UpdateBody(title: string, description: Option<string>, status: Status, priority: Priority,
                                   assigneeId: Option<string>, deadline: Option<int>)

  /** The body built from the fields: trimmed title, `null` for a blank description or an empty assignee. */
  function BodyOf(f: Fields): (b: UpdateBody)
    ensures b.title == Trim(f.title)
    ensures b.description.None? <==> IsBlank(f.description)
    ensures b.description.Some? ==> b.description.value == Trim(f.description)
    ensures b.assigneeId.None? <==> f.assigneeId == ""
    ensures b.assigneeId.Some? ==> b.assigneeId.value == f.assigneeId
    ensures b.status == f.status && b.priority == f.priority && b.deadline == f.deadline
  {
    var d := Trim(f.description);
    UpdateBody(Trim(f.title), if d != "" then Some(d) else None, f.status, f.priority,
               if f.assigneeId != "" then Some(f.assigneeId) else None, f.deadline)
  }

  /**
   * Opening the dialog and saving without an edit sends the task back: its own
   * status, priority, deadline and assignee (a null one stays null), and its
   * description (a null one stays null), trimmed.
   */
  lemma UneditedSaveRoundTrip(task: Task)
    requires task.assigneeId != Some("")
    ensures var b := BodyOf(FieldsOf(task));
      && b.status == task.status && b.priority == task.priority && b.deadline == task.deadline
      && b.assigneeId == task.assigneeId
      && (task.description.None? ==> b.description.None?)
      && (task.description.Some? && !IsBlank(task.description.value) ==> b.description == Some(Trim(task.description.value)))
      && b.title == Trim(task.title)
  {
    var f := FieldsOf(task);
    assert f.assigneeId == "" <==> task.assigneeId.None?;
    if task.description.None? {
      assert f.description == "";
      assert Trim("") == "";
    } else {
      assert f.description == task.description.value;
    }
  }

  /** A task whose fields are already trimmed comes back exactly. */
  lemma UneditedSaveOfCleanTask(task: Task)
    requires task.assigneeId != Some("")
    requires Trim(task.title) == task.title
    requires task.description.Some? ==> !IsBlank(task.description.value) && Trim(task.description.value) == task.description.value
    ensures BodyOf(FieldsOf(task)) == UpdateBody(task.title, task.description, task.status, task.priority,
                                                 task.assigneeId, task.deadline)
  {
    UneditedSaveRoundTrip(task);
  }

  /** The assignee select shows "none" for an empty assignee... */
  function SelectValue(assigneeId: string): (r: string)
    ensures r != ""
  {
    if assigneeId != "" then assigneeId else "none"
  }

  /** ...and choosing "none" clears it. */
  function OnSelect(value: string): (r: string)
    ensures r != "none"
  {
    if value == "none" then "" else value
  }

  /** The select mapping round-trips on both sides, except for a user whose id is literally "none". */
  lemma SelectRoundTrip(assigneeId: string, value: string)
    ensures assigneeId != "none" ==> OnSelect(SelectValue(assigneeId)) == assigneeId
    ensures value != "" ==> SelectValue(OnSelect(value)) == value
    ensures OnSelect(SelectValue("none")) == ""
  {
  }

  /** A request's outcome: an ok response, or a non-ok or thrown one. */
  datatype Outcome = Succeeded | NotSucceeded

  class Dialog {
    var title: string
    var description: string
    var status: Status
    var priority: Priority
    var assigneeId: string
    var deadline: Option<int>
    var isSubmitting: bool
    var showDeleteDialog: bool
    var isDeleting: bool

    function Form(): Fields
      reads this
    {
      Fields(title, description, status, priority, assigneeId, deadline)
    }

    constructor ()
      ensures Form() == InitialFields && !isSubmitting && !showDeleteDialog && !isDeleting
    {
      title := "";
      description := "";
      status := Todo;
      priority := Medium;
      assigneeId := "";
      deadline := None;
      isSubmitting := false;
      showDeleteDialog := false;
      isDeleting := false;
    }

    /** The effect: with a task and the dialog open, the six fields are copied from the task. */
    method Populate(task: Option<Task>, isOpen: bool)
      modifies this`title, this`description, this`status, this`priority, this`assigneeId, this`deadline
      ensures task.Some? && isOpen ==> Form() == FieldsOf(task.value)
      ensures !(task.Some? && isOpen) ==> Form() == old(Form())
    {
      if task.Some? && isOpen {
        var t := task.value;
        title := t.title;
        description := if t.description.Some? then t.description.value else "";
        status := t.status;
        priority := t.priority;
        assigneeId := if t.assigneeId.Some? then t.assigneeId.value else "";
        deadline := t.deadline;
      }
    }

    /** The assignee select's change handler. */
    method SelectAssignee(value: string)
      modifies this`assigneeId
      ensures assigneeId == OnSelect(value)
    {
      assigneeId := if value == "none" then "" else value;
    }

    /**
     * `handleSubmit`: nothing without a task or with a blank title; otherwise
     * the body of the fields is sent, and `closed` (with the board told to
     * reload) only after an ok reply. The fields themselves never change.
     */
    method Submit(task: Option<Task>, outcome: Outcome) returns (sent: Option<UpdateBody>, closed: bool)
      modifies this`isSubmitting
      ensures task.None? || IsBlank(title) ==> sent.None? && !closed && isSubmitting == old(isSubmitting)
      ensures task.Some? && !IsBlank(title) ==> sent == Some(BodyOf(Form())) && !isSubmitting
      ensures closed <==> sent.Some? && outcome == Succeeded
    {
      var f := Form();
      var blank := IsBlank(f.title);
      if task.None? || blank {
        return None, false;
      }
      isSubmitting := true;
      sent := Some(BodyOf(f));
      closed := outcome == Succeeded;
      isSubmitting := false;
    }

    /** The confirmation's `onOpenChange`: the flag takes the value the dialog reports. */
    method DeleteDialogChange(open: bool)
      modifies this`showDeleteDialog
      ensures showDeleteDialog == open
    {
      showDeleteDialog := open;
    }

    /**
     * `handleDelete`: without a task nothing happens; otherwise the task's id
     * is reported (and the dialog closed) only after an ok reply, and the
     * confirmation closes on every path.
     */
    method Delete(task: Option<Task>, outcome: Outcome) returns (deletedId: Option<string>, closed: bool)
      modifies this`isDeleting, this`showDeleteDialog
      ensures task.None? ==> deletedId.None? && !closed && isDeleting == old(isDeleting)
                              && showDeleteDialog == old(showDeleteDialog)
      ensures task.Some? ==> !isDeleting && !showDeleteDialog
      ensures task.Some? && outcome == Succeeded ==> deletedId == Some(task.value.id) && closed
      ensures task.Some? && outcome == NotSucceeded ==> deletedId.None? && !closed
    {
      if task.None? {
        return None, false;
      }
      isDeleting := true;
      deletedId, closed := None, false;
      if outcome == Succeeded {
        deletedId := Some(task.value.id);
        closed := true;
      }
      isDeleting := false;
      showDeleteDialog := false;
    }
  }
}
