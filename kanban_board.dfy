/**
 * The Kanban board's task-list controller (src/components/kanban/kanban-board.tsx):
 * the projection of the flat task list into four status columns, and the
 * handlers that change the list: drag start and drag end (an optimistic status
 * write, undone when the persistence reply fails), delete, create and the edit
 * modal's delete notification.
 */
module KanbanBoard {
  import opened Wrappers
  import opened Tasks

  const Statuses: set<Status> := {Todo, InProgress, Review, Done}

  // ---------------------------------------------------------------------------
  // The column projection
  // ---------------------------------------------------------------------------

  /** Reference definition of a column: the tasks carrying `s`, in list order. */
  function WithStatus(tasks: seq<Task>, s: Status): (r: seq<Task>)
    ensures |r| <= |tasks|
    ensures forall i :: 0 <= i < |r| ==> r[i].status == s
    decreases |tasks|
  {
    if tasks == [] then []
    else (if tasks[0].status == s then [tasks[0]] else []) + WithStatus(tasks[1..], s)
  }

  /** One step of the `reduce`: create the task's bucket if absent, then push the task. */
  function Push(acc: map<Status, seq<Task>>, t: Task): map<Status, seq<Task>> {
    acc[t.status := (if t.status in acc then acc[t.status] else []) + [t]]
  }

  /**
   * `tasks.reduce(push, {})`: a left fold, so the last task is pushed last.
   * Every bucket it creates is non-empty and holds only tasks of its own status.
   */
  function Grouped(tasks: seq<Task>): (r: map<Status, seq<Task>>)
    ensures forall s :: s in r ==> r[s] != [] && forall t :: t in r[s] ==> t.status == s
    decreases |tasks|
  {
    if tasks == [] then map[] else Push(Grouped(tasks[..|tasks| - 1]), tasks[|tasks| - 1])
  }

  /** `grouped.X || []` */
  function BucketOrEmpty(g: map<Status, seq<Task>>, s: Status): seq<Task> {
    if s in g then g[s] else []
  }

  /** The `columns` memo: every status key is present, with `[]` for one no task carries. */
  function Columns(tasks: seq<Task>): (r: map<Status, seq<Task>>)
    ensures r.Keys == Statuses
  {
    var g := Grouped(tasks);
    map[Todo := BucketOrEmpty(g, Todo), InProgress := BucketOrEmpty(g, InProgress),
        Review := BucketOrEmpty(g, Review), Done := BucketOrEmpty(g, Done)]
  }

  lemma {:induction false} WithStatusAppend(tasks: seq<Task>, t: Task, s: Status)
    ensures WithStatus(tasks + [t], s) == WithStatus(tasks, s) + (if t.status == s then [t] else [])
    decreases |tasks|
  {
    if tasks == [] {
      assert [t][1..] == [];
    } else {
      var u := tasks + [t];
      assert u[0] == tasks[0];
      assert u[1..] == tasks[1..] + [t];
      var head := if tasks[0].status == s then [tasks[0]] else [];
      assert WithStatus(u, s) == head + WithStatus(tasks[1..] + [t], s);
      WithStatusAppend(tasks[1..], t, s);
      assert WithStatus(tasks, s) == head + WithStatus(tasks[1..], s);
    }
  }

  /**
   * The fold builds exactly the reference columns: a bucket exists iff some
   * task carries its status, and then holds those tasks in list order.
   */
  lemma {:induction false} GroupedIsFilter(tasks: seq<Task>, s: Status)
    ensures s in Grouped(tasks) <==> WithStatus(tasks, s) != []
    ensures s in Grouped(tasks) ==> Grouped(tasks)[s] == WithStatus(tasks, s)
    decreases |tasks|
  {
    if tasks != [] {
      var init, last := tasks[..|tasks| - 1], tasks[|tasks| - 1];
      assert tasks == init + [last];
      GroupedIsFilter(init, s);
      WithStatusAppend(init, last, s);
    }
  }

  /** Each column holds exactly the tasks with that status, in their original relative order. */
  lemma ColumnsAreFilters(tasks: seq<Task>)
    ensures forall s :: s in Statuses ==> Columns(tasks)[s] == WithStatus(tasks, s)
  {
    forall s | s in Statuses ensures Columns(tasks)[s] == WithStatus(tasks, s) {
      GroupedIsFilter(tasks, s);
    }
  }

  /** A task occurs in its own status's column as often as in the list, and in no other. */
  lemma {:induction false} CountInColumn(tasks: seq<Task>, s: Status, x: Task)
    ensures multiset(WithStatus(tasks, s))[x] == if x.status == s then multiset(tasks)[x] else 0
    decreases |tasks|
  {
    if tasks != [] {
      var h, rest := tasks[0], tasks[1..];
      CountInColumn(rest, s, x);
      assert tasks == [h] + rest;
      assert WithStatus(tasks, s) == (if h.status == s then [h] else []) + WithStatus(rest, s);
    }
  }

  /** The four reference columns, pooled. */
  function Pooled(tasks: seq<Task>): multiset<Task> {
    multiset(WithStatus(tasks, Todo)) + multiset(WithStatus(tasks, InProgress))
    + multiset(WithStatus(tasks, Review)) + multiset(WithStatus(tasks, Done))
  }

  /** The four reference columns together hold every task exactly once. */
  lemma FiltersPartition(tasks: seq<Task>)
    ensures Pooled(tasks) == multiset(tasks)
  {
    forall x: Task ensures Pooled(tasks)[x] == multiset(tasks)[x] {
      CountInColumn(tasks, Todo, x);
      CountInColumn(tasks, InProgress, x);
      CountInColumn(tasks, Review, x);
      CountInColumn(tasks, Done, x);
    }
  }

  /** No task is dropped or duplicated by the projection; column lengths sum to the list length. */
  lemma ColumnsPartition(tasks: seq<Task>)
    ensures var c := Columns(tasks);
            multiset(c[Todo]) + multiset(c[InProgress]) + multiset(c[Review]) + multiset(c[Done])
            == multiset(tasks)
    ensures var c := Columns(tasks);
            |c[Todo]| + |c[InProgress]| + |c[Review]| + |c[Done]| == |tasks|
  {
    ColumnsAreFilters(tasks);
    FiltersPartition(tasks);
    var c := Columns(tasks);
    assert |multiset(c[Todo]) + multiset(c[InProgress]) + multiset(c[Review]) + multiset(c[Done])|
        == |c[Todo]| + |c[InProgress]| + |c[Review]| + |c[Done]|;
  }

  /** The example board: two TODO tasks and one DONE task. */
  lemma ColumnsExample(a: Task, b: Task, c: Task)
    requires a.status == Todo && b.status == Done && c.status == Todo
    ensures Columns([a, b, c]) == map[Todo := [a, c], InProgress := [], Review := [], Done := [b]]
  {
    ColumnsAreFilters([a, b, c]);
    assert [a, b, c][1..] == [b, c];
    assert [b, c][1..] == [c];
    assert [c][1..] == [];
    forall s | s in Statuses
      ensures WithStatus([a, b, c], s) == (if s == Todo then [a, c] else if s == Done then [b] else [])
    {
      assert WithStatus([c], s) == (if s == Todo then [c] else []);
      assert WithStatus([b, c], s) == (if s == Done then [b] else []) + WithStatus([c], s);
    }
  }

  // ---------------------------------------------------------------------------
  // Lookups and list rewrites used by the handlers
  // ---------------------------------------------------------------------------

  /** `tasks.find(t => t.id === id)`: the first task with that id, if any. */
  function FindById(tasks: seq<Task>, id: string): (r: Option<Task>)
    ensures r.None? <==> forall i :: 0 <= i < |tasks| ==> tasks[i].id != id
    ensures r.Some? ==> exists i :: 0 <= i < |tasks| && tasks[i] == r.value && r.value.id == id
                                    && forall j :: 0 <= j < i ==> tasks[j].id != id
    decreases |tasks|
  {
    if tasks == [] then None
    else if tasks[0].id == id then Some(tasks[0])
    else
      var r := FindById(tasks[1..], id);
      assert forall i :: 1 <= i < |tasks| ==> tasks[i] == tasks[1..][i - 1];
      r
  }

  /** `prev.map(t => t.id === id ? {...t, status, updatedAt: now} : t)`: the optimistic write. */
  function MoveTask(tasks: seq<Task>, id: string, status: Status, now: int): (r: seq<Task>)
    ensures |r| == |tasks|
    ensures forall i :: 0 <= i < |tasks| && tasks[i].id == id ==>
              r[i] == tasks[i].(status := status, updatedAt := now)
    ensures forall i :: 0 <= i < |tasks| && tasks[i].id != id ==> r[i] == tasks[i]
    decreases |tasks|
  {
    if tasks == [] then []
    else
      var rest := MoveTask(tasks[1..], id, status, now);
      [if tasks[0].id == id then tasks[0].(status := status, updatedAt := now) else tasks[0]] + rest
  }

  /** `prev.map(t => t.id === id ? {...t, status: previous} : t)`: the revert, which keeps `updatedAt`. */
  function RevertTask(tasks: seq<Task>, id: string, previous: Status): (r: seq<Task>)
    ensures |r| == |tasks|
    ensures forall i :: 0 <= i < |tasks| && tasks[i].id == id ==> r[i] == tasks[i].(status := previous)
    ensures forall i :: 0 <= i < |tasks| && tasks[i].id != id ==> r[i] == tasks[i]
    decreases |tasks|
  {
    if tasks == [] then []
    else
      var rest := RevertTask(tasks[1..], id, previous);
      [if tasks[0].id == id then tasks[0].(status := previous) else tasks[0]] + rest
  }

  /** `prev.filter(t => t.id !== id)`: never longer than the list. */
  function RemoveById(tasks: seq<Task>, id: string): (r: seq<Task>)
    ensures |r| <= |tasks|
    decreases |tasks|
  {
    if tasks == [] then []
    else (if tasks[0].id == id then [] else [tasks[0]]) + RemoveById(tasks[1..], id)
  }

  /** Removing by id keeps only tasks of the list, and none with that id. */
  lemma {:induction false} RemoveByIdKeepsOthers(tasks: seq<Task>, id: string)
    ensures forall t :: t in RemoveById(tasks, id) ==> t.id != id && t in tasks
    decreases |tasks|
  {
    if tasks != [] {
      RemoveByIdKeepsOthers(tasks[1..], id);
    }
  }

  /**
   * Removing by id takes out exactly the tasks with that id: together with them
   * the result is the whole list again.
   */
  lemma {:induction false} RemoveByIdSplits(tasks: seq<Task>, id: string)
    ensures multiset(RemoveById(tasks, id)) + multiset(WithId(tasks, id)) == multiset(tasks)
    decreases |tasks|
  {
    if tasks != [] {
      RemoveByIdSplits(tasks[1..], id);
      assert tasks == [tasks[0]] + tasks[1..];
    }
  }

  /**
   * Filtering distributes over concatenation, so the kept tasks stay in their
   * original relative order.
   */
  lemma {:induction false} RemoveByIdAppend(a: seq<Task>, b: seq<Task>, id: string)
    ensures RemoveById(a + b, id) == RemoveById(a, id) + RemoveById(b, id)
    decreases |a|
  {
    if a == [] {
      assert a + b == b;
    } else {
      var h, rest := a[0], a[1..];
      var keep := if h.id == id then [] else [h];
      assert a + b == [h] + (rest + b);
      assert RemoveById(a + b, id) == keep + RemoveById(rest + b, id);
      RemoveByIdAppend(rest, b, id);
      assert RemoveById(a, id) == keep + RemoveById(rest, id);
    }
  }

  /** The tasks on either side of a removed task keep their order around the gap. */
  lemma RemoveByIdAround(a: seq<Task>, t: Task, b: seq<Task>)
    ensures RemoveById(a + [t] + b, t.id) == RemoveById(a, t.id) + RemoveById(b, t.id)
  {
    RemoveByIdAppend(a + [t], b, t.id);
    RemoveByIdAppend(a, [t], t.id);
    assert RemoveById([t], t.id) == [] by {
      assert [t][1..] == [];
    }
  }

  /** Removing an id no task carries changes nothing. */
  lemma {:induction false} RemoveAbsentId(tasks: seq<Task>, id: string)
    requires forall i :: 0 <= i < |tasks| ==> tasks[i].id != id
    ensures RemoveById(tasks, id) == tasks
    decreases |tasks|
  {
    if tasks != [] {
      RemoveAbsentId(tasks[1..], id);
      assert tasks == [tasks[0]] + tasks[1..];
    }
  }

  /** The tasks carrying `id`, in list order. */
  function WithId(tasks: seq<Task>, id: string): seq<Task>
    decreases |tasks|
  {
    if tasks == [] then []
    else (if tasks[0].id == id then [tasks[0]] else []) + WithId(tasks[1..], id)
  }

  /**
   * A failed write undoes its optimistic move except for the timestamp, provided
   * every task with that id still carried the captured status when it was moved.
   */
  lemma MoveThenRevert(tasks: seq<Task>, id: string, previous: Status, target: Status, now: int)
    requires forall i :: 0 <= i < |tasks| && tasks[i].id == id ==> tasks[i].status == previous
    ensures var r := RevertTask(MoveTask(tasks, id, target, now), id, previous);
            |r| == |tasks| &&
            forall i :: 0 <= i < |tasks| ==>
              r[i] == if tasks[i].id == id then tasks[i].(updatedAt := now) else tasks[i]
  {
  }

  /**
   * The revert overwrites with the status its own drop read (the `find` of
   * `handleDragEnd`), even when a later drag of the same task has moved it on:
   * a failed first write after a second move to `c` leaves the task at `a`,
   * not at `c`. A per-request revert target is not what the board implements.
   */
  lemma RevertClobbersLaterMove(t: Task, b: Status, c: Status, now1: int, now2: int)
    requires t.status != b && b != c && c != t.status
    ensures var afterFirst := MoveTask([t], t.id, b, now1);
            var afterSecond := MoveTask(afterFirst, t.id, c, now2);
            var afterFailure := RevertTask(afterSecond, t.id, t.status);
            afterFailure[0].status == t.status && afterFailure[0].status != c
  {
  }

  // ---------------------------------------------------------------------------
  // The board's state and its handlers
  // ---------------------------------------------------------------------------

  /** What the optimistic step captured for its PUT request: the revert target and the sent status. */
  datatype PendingWrite = PendingWrite(taskId: string, previous: Status, target: Status)

  /** The reply to `PUT /api/tasks/:id`: a response with its `ok` flag, or a thrown fetch. */
  datatype WriteReply = Response(ok: bool) | NetworkError

  /** The reply to `DELETE /api/tasks/:id`. */
  datatype DeleteReply = DeleteResponse(ok: bool) | DeleteNetworkError

  class Board {
    var tasks: seq<Task>
    var activeTask: Option<Task>
    var showCreateModal: bool
    var showEditModal: bool
    var editingTask: Option<Task>

    constructor (initialTasks: seq<Task>)
      ensures tasks == initialTasks && activeTask == None
      ensures !showCreateModal && !showEditModal && editingTask == None
    {
      tasks := initialTasks;
      activeTask := None;
      showCreateModal := false;
      showEditModal := false;
      editingTask := None;
    }

    /** The dragged card becomes the overlay task (none for an unknown id). */
    method DragStart(activeId: string)
      modifies this`activeTask
      ensures activeTask == FindById(tasks, activeId)
    {
      activeTask := FindById(tasks, activeId);
    }

    /**
     * Drop `activeId` onto column `over` (none: dropped outside every column).
     * A real move writes the target status and `now` into the task at once and
     * returns the request that is then in flight; otherwise the list is left alone.
     */
    method DragEnd(activeId: string, over: Option<Status>, now: int) returns (pending: Option<PendingWrite>)
      modifies this`tasks, this`activeTask
      ensures activeTask == None
      ensures pending.None? <==>
                over.None? || FindById(old(tasks), activeId).None?
                || FindById(old(tasks), activeId).value.status == over.value
      ensures pending.None? ==> tasks == old(tasks)
      ensures pending.Some? ==>
                pending.value == PendingWrite(activeId, FindById(old(tasks), activeId).value.status, over.value)
                && tasks == MoveTask(old(tasks), activeId, over.value, now)
    {
      if over.None? {
        activeTask := None;
        return None;
      }
      var newStatus := over.value;
      var task := FindById(tasks, activeId);
      if task.None? || task.value.status == newStatus {
        activeTask := None;
        return None;
      }
      tasks := MoveTask(tasks, activeId, newStatus, now);
      activeTask := None;
      pending := Some(PendingWrite(activeId, task.value.status, newStatus));
    }

    /**
     * The persistence reply for `p` arrives. A success changes nothing; a non-ok
     * response or a thrown request sets every task with that id back to the status
     * the drop read before its optimistic write, whatever the task carries now.
     */
    method PersistReply(p: PendingWrite, reply: WriteReply)
      modifies this`tasks
      ensures reply == Response(true) ==> tasks == old(tasks)
      ensures reply != Response(true) ==> tasks == RevertTask(old(tasks), p.taskId, p.previous)
    {
      if reply.NetworkError? || !reply.ok {
        tasks := RevertTask(tasks, p.taskId, p.previous);
      }
    }

    /**
     * The card's delete action. Returns whether the DELETE request was sent; only
     * a confirmed delete with an ok reply removes the tasks with that id.
     */
    method DeleteTask(taskId: string, confirmed: bool, reply: DeleteReply) returns (requested: bool)
      modifies this`tasks
      ensures requested == confirmed
      ensures tasks == if confirmed && reply == DeleteResponse(true) then RemoveById(old(tasks), taskId)
                       else old(tasks)
    {
      if !confirmed {
        return false;
      }
      requested := true;
      if reply.DeleteResponse? && reply.ok {
        tasks := RemoveById(tasks, taskId);
      }
    }

    method OpenCreateModal()
      modifies this`showCreateModal
      ensures showCreateModal
    {
      showCreateModal := true;
    }

    /** The create modal reports a new task: it goes at the end and the modal closes. */
    method TaskCreated(newTask: Task)
      modifies this`tasks, this`showCreateModal
      ensures tasks == old(tasks) + [newTask]
      ensures !showCreateModal
    {
      tasks := tasks + [newTask];
      showCreateModal := false;
    }

    method EditTask(task: Task)
      modifies this`editingTask, this`showEditModal
      ensures editingTask == Some(task) && showEditModal
    {
      editingTask := Some(task);
      showEditModal := true;
    }

    /** The edit modal reports a deletion: the tasks with that id go and the modal closes. */
    method TaskDeleted(taskId: string)
      modifies this`tasks, this`showEditModal, this`editingTask
      ensures tasks == RemoveById(old(tasks), taskId)
      ensures !showEditModal && editingTask == None
    {
      tasks := RemoveById(tasks, taskId);
      showEditModal := false;
      editingTask := None;
    }

    method CloseEditModal()
      modifies this`showEditModal, this`editingTask
      ensures !showEditModal && editingTask == None
    {
      showEditModal := false;
      editingTask := None;
    }
  }
}
