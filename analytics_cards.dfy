/**
 * The dashboard's analytics cards (src/components/dashboard/analytics-cards.tsx):
 * counters folded over every project's tasks, the per-status task list of the
 * management dialog, the card-title to status mapping and the status-transition
 * buttons the dialog offers.
 */
module AnalyticsCards {
  import opened Wrappers
  import opened Text
  import TaskCard

  /** A task as the dashboard query returns it: its status is a plain string. */
  datatype TaskSummary = TaskSummary(id: string, status: string, deadline: Option<int>)

  datatype Project = Project(id: string, name: string, tasks: seq<TaskSummary>)

  datatype Stats = Stats(total: nat, todo: nat, inProgress: nat, review: nat, done: nat, overdue: nat)

  /** One entry of the management dialog's list. */
  datatype TaskRow = TaskRow(id: string, title: string, status: string, projectName: string, projectId: string)

  // ---------------------------------------------------------------------------
  // Reference definitions
  // ---------------------------------------------------------------------------

  /** Every task of every project, project by project. */
  function AllTasks(projects: seq<Project>): seq<TaskSummary>
    decreases |projects|
  {
    if projects == [] then []
    else AllTasks(projects[..|projects| - 1]) + projects[|projects| - 1].tasks
  }

  function CountStatus(tasks: seq<TaskSummary>, status: string): (r: nat)
    ensures r <= |tasks|
    decreases |tasks|
  {
    if tasks == [] then 0
    else CountStatus(tasks[..|tasks| - 1], status) + (if tasks[|tasks| - 1].status == status then 1 else 0)
  }

  function CountOverdue(tasks: seq<TaskSummary>, now: int): (r: nat)
    ensures r <= |tasks|
    decreases |tasks|
  {
    if tasks == [] then 0
    else
      var t := tasks[|tasks| - 1];
      CountOverdue(tasks[..|tasks| - 1], now) + (if TaskCard.IsOverdue(t.deadline, t.status, now) then 1 else 0)
  }

  predicate IsBoardStatus(s: string) {
    s == "TODO" || s == "IN_PROGRESS" || s == "REVIEW" || s == "DONE"
  }

  predicate OnlyBoardStatuses(tasks: seq<TaskSummary>) {
    forall i :: 0 <= i < |tasks| ==> IsBoardStatus(tasks[i].status)
  }

  function CountOther(tasks: seq<TaskSummary>): nat
    decreases |tasks|
  {
    if tasks == [] then 0
    else CountOther(tasks[..|tasks| - 1]) + (if IsBoardStatus(tasks[|tasks| - 1].status) then 0 else 1)
  }

  // ---------------------------------------------------------------------------
  // The `stats` reduce
  // ---------------------------------------------------------------------------

  /** A task's contribution to the running counters. */
  function Tally(acc: Stats, t: TaskSummary, now: int): (r: Stats)
    ensures r.total == acc.total + 1
  {
    var s := acc.(total := acc.total + 1);
    var s := if t.status == "TODO" then s.(todo := s.todo + 1)
             else if t.status == "IN_PROGRESS" then s.(inProgress := s.inProgress + 1)
             else if t.status == "REVIEW" then s.(review := s.review + 1)
             else if t.status == "DONE" then s.(done := s.done + 1)
             else s;
    if TaskCard.IsOverdue(t.deadline, t.status, now) then s.(overdue := s.overdue + 1) else s
  }

  /** The counters are the reference counts over the given tasks. */
  predicate Counts(s: Stats, tasks: seq<TaskSummary>, now: int) {
    && s.total == |tasks|
    && s.todo == CountStatus(tasks, "TODO")
    && s.inProgress == CountStatus(tasks, "IN_PROGRESS")
    && s.review == CountStatus(tasks, "REVIEW")
    && s.done == CountStatus(tasks, "DONE")
    && s.overdue == CountOverdue(tasks, now)
  }

  lemma TallyStep(s: Stats, tasks: seq<TaskSummary>, t: TaskSummary, now: int)
    requires Counts(s, tasks, now)
    ensures Counts(Tally(s, t, now), tasks + [t], now)
  {
    assert (tasks + [t])[..|tasks|] == tasks;
  }

  /**
   * `projects.reduce(...)` with the inner `forEach`: each task bumps `total`, the
   * counter of its status (no counter for any other value) and `overdue`.
   */
  method ComputeStats(projects: seq<Project>, now: int) returns (stats: Stats)
    ensures Counts(stats, AllTasks(projects), now)
  {
    stats := Stats(0, 0, 0, 0, 0, 0);
    var i := 0;
    while i < |projects|
      invariant 0 <= i <= |projects|
      invariant Counts(stats, AllTasks(projects[..i]), now)
    {
      var tasks := projects[i].tasks;
      ghost var before := AllTasks(projects[..i]);
      var j := 0;
      assert before + tasks[..0] == before;
      while j < |tasks|
        invariant 0 <= j <= |tasks|
        invariant Counts(stats, before + tasks[..j], now)
      {
        TallyStep(stats, before + tasks[..j], tasks[j], now);
        assert before + tasks[..j] + [tasks[j]] == before + tasks[..j + 1];
        stats := Tally(stats, tasks[j], now);
        j := j + 1;
      }
      assert projects[..i + 1][..i] == projects[..i];
      assert tasks[..j] == tasks;
      i := i + 1;
    }
    assert projects[..i] == projects;
  }

  /**
   * The four status counters and the tasks with any other status make up the
   * total, so the counters sum to `total` exactly when every status is one of
   * the four, and to less otherwise.
   */
  lemma {:induction false} StatusCountsSum(tasks: seq<TaskSummary>)
    ensures CountStatus(tasks, "TODO") + CountStatus(tasks, "IN_PROGRESS") + CountStatus(tasks, "REVIEW")
            + CountStatus(tasks, "DONE") + CountOther(tasks) == |tasks|
    ensures CountOther(tasks) == 0 <==> OnlyBoardStatuses(tasks)
    decreases |tasks|
  {
    if tasks != [] {
      var init := tasks[..|tasks| - 1];
      StatusCountsSum(init);
      assert forall i :: 0 <= i < |init| ==> init[i] == tasks[i];
    }
  }

  /** What the dashboard shows follows: the four cards add up to "Всего задач" iff no task has a foreign status. */
  lemma StatsSumToTotal(projects: seq<Project>, now: int, stats: Stats)
    requires Counts(stats, AllTasks(projects), now)
    ensures stats.todo + stats.inProgress + stats.review + stats.done <= stats.total
    ensures stats.todo + stats.inProgress + stats.review + stats.done == stats.total <==>
              OnlyBoardStatuses(AllTasks(projects))
  {
    StatusCountsSum(AllTasks(projects));
  }

  /** Finished tasks are never counted as overdue. */
  lemma {:induction false} OverdueExcludesDone(tasks: seq<TaskSummary>, now: int)
    ensures CountOverdue(tasks, now) + CountStatus(tasks, "DONE") <= |tasks|
    decreases |tasks|
  {
    if tasks != [] {
      OverdueExcludesDone(tasks[..|tasks| - 1], now);
    }
  }

  /** `total` is the number of tasks across all projects. */
  lemma {:induction false} AllTasksLength(projects: seq<Project>)
    ensures |AllTasks(projects)| == SumOfCounts(projects)
    decreases |projects|
  {
    if projects != [] {
      AllTasksLength(projects[..|projects| - 1]);
    }
  }

  function SumOfCounts(projects: seq<Project>): nat
    decreases |projects|
  {
    if projects == [] then 0 else SumOfCounts(projects[..|projects| - 1]) + |projects[|projects| - 1].tasks|
  }

  // ---------------------------------------------------------------------------
  // getTasksByStatus
  // ---------------------------------------------------------------------------

  /** `s.replace(from, to)` with a one-character string pattern: only the first occurrence. */
  function ReplaceFirst(s: string, from: char, to: char): (r: string)
    ensures |r| == |s|
    decreases |s|
  {
    if s == [] then []
    else if s[0] == from then [to] + s[1..]
    else [s[0]] + ReplaceFirst(s[1..], from, to)
  }

  /** The `'_' -> '_'` normalisation changes nothing. */
  lemma {:induction false} ReplaceFirstSame(s: string, c: char)
    ensures ReplaceFirst(s, c, c) == s
    decreases |s|
  {
    if s != [] && s[0] != c {
      ReplaceFirstSame(s[1..], c);
      assert s == [s[0]] + s[1..];
    }
  }

  function RowTitle(id: string): string {
    "Задача " + Take(id, 8)
  }

  function ProjectRows(p: Project, tasks: seq<TaskSummary>, status: string): (r: seq<TaskRow>)
    ensures |r| <= |tasks|
    decreases |tasks|
  {
    if tasks == [] then []
    else
      var t := tasks[|tasks| - 1];
      ProjectRows(p, tasks[..|tasks| - 1], status)
      + (if t.status == status then [TaskRow(t.id, RowTitle(t.id), t.status, p.name, p.id)] else [])
  }

  /** Reference definition: the tasks with exactly this status, project by project, tagged with their project. */
  function RowsWithStatus(projects: seq<Project>, status: string): seq<TaskRow>
    decreases |projects|
  {
    if projects == [] then []
    else
      var p := projects[|projects| - 1];
      RowsWithStatus(projects[..|projects| - 1], status) + ProjectRows(p, p.tasks, status)
  }

  /** The inner loop's step: one more task of the project adds its row when its status matches. */
  lemma ProjectRowsStep(p: Project, j: nat, status: string)
    requires j < |p.tasks|
    ensures var t := p.tasks[j];
            ProjectRows(p, p.tasks[..j + 1], status)
            == ProjectRows(p, p.tasks[..j], status)
               + (if t.status == status then [TaskRow(t.id, RowTitle(t.id), t.status, p.name, p.id)] else [])
  {
    assert p.tasks[..j + 1][..j] == p.tasks[..j];
  }

  /** The outer loop's step: one more project appends its rows. */
  lemma RowsWithStatusStep(projects: seq<Project>, i: nat, status: string)
    requires i < |projects|
    ensures RowsWithStatus(projects[..i + 1], status)
            == RowsWithStatus(projects[..i], status) + ProjectRows(projects[i], projects[i].tasks, status)
  {
    assert projects[..i + 1][..i] == projects[..i];
  }

  /** `getTasksByStatus`: the nested `forEach` that pushes every matching task. */
  method GetTasksByStatus(projects: seq<Project>, status: string) returns (rows: seq<TaskRow>)
    ensures rows == RowsWithStatus(projects, status)
  {
    rows := [];
    var i := 0;
    while i < |projects|
      invariant 0 <= i <= |projects|
      invariant rows == RowsWithStatus(projects[..i], status)
    {
      var project := projects[i];
      ghost var before := rows;
      var j := 0;
      while j < |project.tasks|
        invariant 0 <= j <= |project.tasks|
        invariant rows == before + ProjectRows(project, project.tasks[..j], status)
      {
        var task := project.tasks[j];
        var normalizedTaskStatus := ReplaceFirst(task.status, '_', '_');
        var normalizedFilterStatus := ReplaceFirst(status, '_', '_');
        ReplaceFirstSame(task.status, '_');
        ReplaceFirstSame(status, '_');
        ProjectRowsStep(project, j, status);
        if normalizedTaskStatus == normalizedFilterStatus {
          rows := rows + [TaskRow(task.id, RowTitle(task.id), task.status, project.name, project.id)];
        }
        j := j + 1;
      }
      assert project.tasks[..j] == project.tasks;
      RowsWithStatusStep(projects, i, status);
      i := i + 1;
    }
    assert projects[..i] == projects;
  }

  lemma {:induction false} CountStatusAppend(a: seq<TaskSummary>, b: seq<TaskSummary>, status: string)
    ensures CountStatus(a + b, status) == CountStatus(a, status) + CountStatus(b, status)
    decreases |b|
  {
    if b == [] {
      assert a + b == a;
    } else {
      CountStatusAppend(a, b[..|b| - 1], status);
      assert (a + b)[..|a + b| - 1] == a + b[..|b| - 1];
    }
  }

  /** The rows of one project: one per task with the requested status, titled from its id, tagged with the project. */
  lemma {:induction false} ProjectRowsShape(p: Project, tasks: seq<TaskSummary>, status: string)
    ensures |ProjectRows(p, tasks, status)| == CountStatus(tasks, status)
    ensures forall r :: r in ProjectRows(p, tasks, status) ==>
              r.status == status && r.title == RowTitle(r.id) && r.projectId == p.id && r.projectName == p.name
              && exists t :: t in tasks && t.id == r.id && t.status == status
    decreases |tasks|
  {
    if tasks != [] {
      var init := tasks[..|tasks| - 1];
      ProjectRowsShape(p, init, status);
      assert forall t :: t in init ==> t in tasks;
    }
  }

  /**
   * `getTasksByStatus` lists exactly the tasks whose status equals the filter:
   * as many rows as such tasks, each with that status, its own title and the
   * project it belongs to.
   */
  lemma {:induction false} RowsWithStatusShape(projects: seq<Project>, status: string)
    ensures |RowsWithStatus(projects, status)| == CountStatus(AllTasks(projects), status)
    ensures forall r :: r in RowsWithStatus(projects, status) ==>
              r.status == status && r.title == "Задача " + Take(r.id, 8)
              && exists k :: 0 <= k < |projects| && projects[k].id == r.projectId && projects[k].name == r.projectName
                             && exists t :: t in projects[k].tasks && t.id == r.id && t.status == status
    decreases |projects|
  {
    if projects != [] {
      var init, p := projects[..|projects| - 1], projects[|projects| - 1];
      RowsWithStatusShape(init, status);
      ProjectRowsShape(p, p.tasks, status);
      CountStatusAppend(AllTasks(init), p.tasks, status);
      forall r | r in RowsWithStatus(projects, status)
        ensures exists k :: 0 <= k < |projects| && projects[k].id == r.projectId && projects[k].name == r.projectName
                            && exists t :: t in projects[k].tasks && t.id == r.id && t.status == status
      {
        if r in RowsWithStatus(init, status) {
          var k :| 0 <= k < |init| && init[k].id == r.projectId && init[k].name == r.projectName
                   && exists t :: t in init[k].tasks && t.id == r.id && t.status == status;
          assert projects[k] == init[k];
        } else {
          assert r in ProjectRows(p, p.tasks, status);
          assert projects[|projects| - 1] == p;
        }
      }
    }
  }

  // ---------------------------------------------------------------------------
  // Cards, the management dialog and its transition buttons
  // ---------------------------------------------------------------------------

  /**
   * The card's click handler: the trimmed title picks the status whose dialog
   * opens; "Всего задач", "К выполнению" and any unknown title pick none.
   */
  function CardTitleStatus(title: string): (r: Option<string>)
    ensures r.Some? ==> r.value in {"IN_PROGRESS", "REVIEW", "DONE"}
  {
    var t := Trim(title);
    if t == "К выполнению" || t == "Всего задач" then None
    else if t == "В работе" then Some("IN_PROGRESS")
    else if t == "Проверка" then Some("REVIEW")
    else if t == "Готово" then Some("DONE")
    else None
  }

  /** Only three titles open a dialog, never for TODO; white space around a title is ignored. */
  lemma CardTitleStatusSpec(title: string)
    ensures CardTitleStatus(title) == Some("IN_PROGRESS") <==> Trim(title) == "В работе"
    ensures CardTitleStatus(title) == Some("REVIEW") <==> Trim(title) == "Проверка"
    ensures CardTitleStatus(title) == Some("DONE") <==> Trim(title) == "Готово"
    ensures CardTitleStatus(title).None? <==> Trim(title) !in {"В работе", "Проверка", "Готово"}
  {
  }

  /** The columns in board order; the dialog's buttons move a task one column at a time. */
  function ColumnIndex(s: string): int {
    if s == "TODO" then 0 else if s == "IN_PROGRESS" then 1 else if s == "REVIEW" then 2
    else if s == "DONE" then 3 else -1
  }

  /** The statuses the dialog's buttons send for the selected status, left button first. */
  function TransitionTargets(selected: Option<string>): (r: seq<string>)
    ensures |r| <= 2
    ensures forall t :: t in r ==> IsBoardStatus(t) && selected.Some? && t != selected.value
  {
    if selected == Some("IN_PROGRESS") then ["TODO", "REVIEW"]
    else if selected == Some("REVIEW") then ["IN_PROGRESS", "DONE"]
    else if selected == Some("DONE") then ["REVIEW"]
    else []
  }

  /**
   * For each status a card can select, the buttons offer exactly the adjacent
   * columns, the previous one first; nothing is offered for any other selection.
   */
  lemma TransitionsAreAdjacent(selected: Option<string>)
    ensures selected.Some? && selected.value in {"IN_PROGRESS", "REVIEW", "DONE"} ==>
              forall t :: t in TransitionTargets(selected) <==>
                IsBoardStatus(t) && (ColumnIndex(t) == ColumnIndex(selected.value) - 1
                                     || ColumnIndex(t) == ColumnIndex(selected.value) + 1)
    ensures selected.Some? && selected.value in {"IN_PROGRESS", "REVIEW", "DONE"} ==>
              ColumnIndex(TransitionTargets(selected)[0]) == ColumnIndex(selected.value) - 1
    ensures selected.None? || selected.value !in {"IN_PROGRESS", "REVIEW", "DONE"} ==>
              TransitionTargets(selected) == []
  {
  }

  /** The status-change reply: a response with its `ok` flag, or a thrown fetch. */
  datatype WriteReply = Response(ok: bool) | NetworkError

  /**
   * `handleStatusChange`: sends `{status: newStatus}` for the task and asks the
   * page to reload its data only after an ok reply.
   */
  method StatusChange(taskId: string, newStatus: string, reply: WriteReply)
    returns (requestStatus: string, refresh: bool)
    ensures requestStatus == newStatus
    ensures refresh <==> reply == Response(true)
  {
    requestStatus := newStatus;
    refresh := reply.Response? && reply.ok;
  }

  /** The component's own state: which status's dialog is open. */
  class Dashboard {
    var selectedStatus: Option<string>
    var showTaskModal: bool

    constructor ()
      ensures selectedStatus == None && !showTaskModal
    {
      selectedStatus := None;
      showTaskModal := false;
    }

    /** `handleCardClick`: "TODO" is refused; any other status is selected and the dialog opens. */
    method CardClick(status: string)
      modifies this
      ensures status == "TODO" ==> selectedStatus == old(selectedStatus) && showTaskModal == old(showTaskModal)
      ensures status != "TODO" ==> selectedStatus == Some(status) && showTaskModal
    {
      if status == "TODO" {
        return;
      }
      selectedStatus := Some(status);
      showTaskModal := true;
    }

    /** A click on the card with this title. */
    method TitleClick(title: string)
      modifies this
      ensures CardTitleStatus(title).None? ==>
                selectedStatus == old(selectedStatus) && showTaskModal == old(showTaskModal)
      ensures CardTitleStatus(title).Some? ==> selectedStatus == CardTitleStatus(title) && showTaskModal
    {
      var trimmedTitle := Trim(title);
      if trimmedTitle != "К выполнению" && trimmedTitle != "Всего задач" {
        var status := "";
        if trimmedTitle == "В работе" {
          status := "IN_PROGRESS";
        } else if trimmedTitle == "Проверка" {
          status := "REVIEW";
        } else if trimmedTitle == "Готово" {
          status := "DONE";
        } else {
          return;
        }
        if status != "" {
          CardClick(status);
        }
      }
    }

    /** The dialog's open state follows the dialog (closing it keeps the selection). */
    method SetTaskModal(open: bool)
      modifies this`showTaskModal
      ensures showTaskModal == open
    {
      showTaskModal := open;
    }

    /** The rows the open dialog lists: none while nothing is selected (an empty status is falsy). */
    method DialogRows(projects: seq<Project>) returns (rows: seq<TaskRow>)
      ensures rows == if selectedStatus.Some? && selectedStatus.value != "" then RowsWithStatus(projects, selectedStatus.value) else []
    {
      if selectedStatus.Some? && selectedStatus.value != "" {
        rows := GetTasksByStatus(projects, selectedStatus.value);
      } else {
        rows := [];
      }
    }
  }
}
