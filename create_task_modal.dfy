/**
 * The new-task dialog (src/components/kanban/create-task-modal.tsx): the
 * submit guard, the create request and the form reset.
 */
module CreateTaskModal {
  import opened Wrappers
  import opened Text
  import opened Tasks

  /** The five form fields; an empty `assigneeId` means "not assigned". */
  datatype Fields = Fields(title: string, description: string, priority: Priority, assigneeId: string,
                           deadline: Option<int>)

  const InitialFields := Fields("", "", Medium, "", None)

  /**
   * The POST body. `None` is a key `JSON.stringify` leaves out (its value was
   * `undefined`); there is no status: the server picks it.
   */
  datatype CreateBody = CreateBody(title: string, description: Option<string>, priority: Priority,
                                   assigneeId: Option<string>, deadline: Option<int>)

  /** The body: trimmed title; a blank description and an empty assignee are left out. */
  function BodyOf(f: Fields): (b: CreateBody)
    ensures b.title == Trim(f.title)
    ensures b.title != "" <==> !IsBlank(f.title)
    ensures b.description.None? <==> IsBlank(f.description)
    ensures b.description.Some? ==> b.description.value == Trim(f.description)
    ensures b.assigneeId.None? <==> f.assigneeId == ""
    ensures b.assigneeId.Some? ==> b.assigneeId.value == f.assigneeId
    ensures b.priority == f.priority && b.deadline == f.deadline
  {
    var d := Trim(f.description);
    CreateBody(Trim(f.title), if d != "" then Some(d) else None, f.priority,
               if f.assigneeId != "" then Some(f.assigneeId) else None, f.deadline)
  }

  /** A title-only form creates a MEDIUM task with nothing else set. */
  lemma TitleOnlyBody(title: string)
    ensures BodyOf(InitialFields.(title := title)) == CreateBody(Trim(title), None, Medium, None, None)
  {
    assert Trim("") == "";
  }

  /** `disabled={isSubmitting || !title.trim()}` */
  predicate SubmitDisabled(isSubmitting: bool, title: string) {
    isSubmitting || IsBlank(title)
  }

  /** The create request's outcome: an ok response with the created task, or a non-ok or thrown one. */
  datatype Outcome = Created(task: Task) | NotCreated

  class Dialog {
    var title: string
    var description: string
    var priority: Priority
    var assigneeId: string
    var deadline: Option<int>
    var isSubmitting: bool

    function Form(): Fields
      reads this
    {
      Fields(title, description, priority, assigneeId, deadline)
    }

    constructor ()
      ensures Form() == InitialFields && !isSubmitting
    {
      title := "";
      description := "";
      priority := Medium;
      assigneeId := "";
      deadline := None;
      isSubmitting := false;
    }

    /**
     * `handleSubmit`: a blank title sends nothing; otherwise the body is sent,
     * and after an ok reply the created task is handed to the board, the
     * dialog closes and every field is back at its initial value. A failure
     * keeps the form as it was.
     */
    method Submit(outcome: Outcome) returns (sent: Option<CreateBody>, created: Option<Task>)
      modifies this
      ensures IsBlank(old(title)) ==> sent.None? && created.None? && Form() == old(Form())
                                      && isSubmitting == old(isSubmitting)
      ensures !IsBlank(old(title)) ==> sent == Some(BodyOf(old(Form()))) && !isSubmitting
      ensures !IsBlank(old(title)) && outcome.Created? ==> created == Some(outcome.task) && Form() == InitialFields
      ensures !IsBlank(old(title)) && outcome.NotCreated? ==> created.None? && Form() == old(Form())
    {
      var f := Form();
      var blank := IsBlank(f.title);
      if blank {
        return None, None;
      }
      isSubmitting := true;
      sent := Some(BodyOf(f));
      created := None;
      if outcome.Created? {
        created := Some(outcome.task);
        title := "";
        description := "";
        priority := Medium;
        assigneeId := "";
        deadline := None;
      }
      isSubmitting := false;
    }
  }

  /** The button is disabled exactly for the titles `Submit` refuses, and during a request. */
  lemma DisabledMatchesGuard(isSubmitting: bool, title: string)
    ensures !isSubmitting ==> (SubmitDisabled(isSubmitting, title) <==> IsBlank(title))
    ensures isSubmitting ==> SubmitDisabled(isSubmitting, title)
  {
  }
}
