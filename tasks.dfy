/** The task record the Kanban board, its cards and its modals share. */
module Tasks {
  import opened Wrappers

  datatype Status = Todo | InProgress | Review | Done {
    /** The wire value of the status, as the database and the requests carry it. */
    function Code(): string {
      match this
      case Todo => "TODO"
      case InProgress => "IN_PROGRESS"
      case Review => "REVIEW"
      case Done => "DONE"
    }
  }

  datatype Priority = Low | Medium | High | Urgent {
    function Code(): string {
      match this
      case Low => "LOW"
      case Medium => "MEDIUM"
      case High => "HIGH"
      case Urgent => "URGENT"
    }
  }

  /** The creator or assignee as the task query returns them. */
  datatype Person = Person(id: string, name: Option<string>, email: string)

  /** Dates are milliseconds since the epoch. */
  datatype Task = Task(
    id: string,
    title: string,
    description: Option<string>,
    status: Status,
    priority: Priority,
    deadline: Option<int>,
    creatorId: string,
    assigneeId: Option<string>,
    projectId: string,
    createdAt: int,
    updatedAt: int,
    creator: Person,
    assignee: Option<Person>)
}
