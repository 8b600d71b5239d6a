/**
 * The new-project dialog (src/components/dashboard/create-project-modal.tsx):
 * the name guard, the create request and the project it hands to the grid.
 */
module CreateProjectModal {
  import opened Wrappers
  import opened Text

  const NameRequired := "Название проекта обязательно"
  const CreateFailed := "Произошла ошибка при создании проекта"

  datatype CreateBody = CreateBody(name: string, description: Option<string>)

  /** The body: trimmed name, and the trimmed description or `null` when it is blank. */
  function BodyOf(name: string, description: string): (b: CreateBody)
    ensures b.name == Trim(name)
    ensures b.description.None? <==> IsBlank(description)
    ensures b.description.Some? ==> b.description.value == Trim(description) && !IsBlank(b.description.value)
  {
    var d := Trim(description);
    TrimIdempotent(description);
    CreateBody(Trim(name), if d != "" then Some(d) else None)
  }

  /** The created project as the API answers. */
  datatype NewProject = NewProject(id: string, name: string, description: Option<string>, createdAt: string)

  /** The card's shape: counts of members and tasks. */
  datatype CreatedProject = CreatedProject(id: string, name: string, description: Option<string>, createdAt: string,
                                           members: nat, tasks: nat)

  /** `formattedProject`: the reply's four fields, with the creator as the only member and no task. */
  function Formatted(p: NewProject): (r: CreatedProject)
    ensures r.id == p.id && r.name == p.name && r.description == p.description && r.createdAt == p.createdAt
    ensures r.members == 1 && r.tasks == 0
  {
    CreatedProject(p.id, p.name, p.description, p.createdAt, 1, 0)
  }

  /** The create request's outcome: an ok reply with the new project, or a non-ok or thrown one. */
  datatype Outcome = Created(project: NewProject) | NotCreated

  class Dialog {
    var name: string
    var description: string
    var isLoading: bool
    var error: string

    constructor ()
      ensures name == "" && description == "" && !isLoading && error == ""
    {
      name := "";
      description := "";
      isLoading := false;
      error := "";
    }

    /**
     * `handleSubmit`: a blank name only shows its error; otherwise the body is
     * sent, a created project is handed on and the fields cleared, and a
     * failure keeps the fields and shows the error.
     */
    method Submit(outcome: Outcome) returns (sent: Option<CreateBody>, emitted: Option<CreatedProject>)
      modifies this
      ensures IsBlank(old(name)) ==>
                sent.None? && emitted.None? && error == NameRequired
                && name == old(name) && description == old(description) && isLoading == old(isLoading)
      ensures !IsBlank(old(name)) ==> sent == Some(BodyOf(old(name), old(description))) && !isLoading
      ensures !IsBlank(old(name)) && outcome.Created? ==>
                emitted == Some(Formatted(outcome.project)) && name == "" && description == "" && error == ""
      ensures !IsBlank(old(name)) && outcome.NotCreated? ==>
                emitted.None? && name == old(name) && description == old(description) && error == CreateFailed
    {
      var n := name;
      var d := description;
      var blank := IsBlank(n);
      if blank {
        error := NameRequired;
        return None, None;
      }
      isLoading := true;
      error := "";
      sent := Some(BodyOf(n, d));
      emitted := None;
      match outcome {
        case Created(p) =>
          emitted := Some(Formatted(p));
          name := "";
          description := "";
        case NotCreated =>
          error := CreateFailed;
      }
      isLoading := false;
    }
  }
}
