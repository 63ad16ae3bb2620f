/**
 * The tasks service over its three tables: tasks, task assignments and task history.
 * Assigning and completing a task each append one history row stamped with the current time.
 */
module TasksService {
  import opened Wrappers
  import opened Records
  import opened Seqs
  import opened Tables
  import opened Pagination

  datatype Assignment = Assignment(taskId: int, userId: int, assignedBy: int)
  datatype HistoryEntry = HistoryEntry(taskId: int, action: string, changedBy: int, createdAt: int)
  datatype AssignRequest = AssignRequest(userId: int, assignedBy: int)

  /** What the operations throw: `Task with ID <id> not found`, `Task not found`, the ORM's
      error for updating a missing row, and `No history found for task with ID <id>`. */
  datatype TaskError = TaskIdNotFound(id: int) | TaskNotFound | RecordToUpdateNotFound | NoHistory(id: int)

  const CompletedStatus: string := "completed"
  const AssignedAction: string := "assigned"
  const CompletedAction: string := "completed"

  function OfProject(projectId: int): Row -> bool {
    ColumnIs("project_id", Num(projectId))
  }

  function ForTask(taskId: int): HistoryEntry -> bool {
    (h: HistoryEntry) => h.taskId == taskId
  }

  /** `findMany({ where: { task_id }, orderBy: { created_at: 'desc' } })`, newest row first. */
  function TaskHistory(history: seq<HistoryEntry>, taskId: int): (r: seq<HistoryEntry>)
    ensures forall i :: 0 <= i < |r| ==> r[i].taskId == taskId && r[i] in history
    ensures forall i :: 0 <= i < |history| && history[i].taskId == taskId ==> history[i] in r
  {
    var mine := Filter(history, ForTask(taskId));
    var r := Reverse(mine);
    assert forall x :: x in mine ==> x in r by {
      forall x | x in mine ensures x in r {
        var k :| 0 <= k < |mine| && mine[k] == x;
        assert r[|mine| - 1 - k] == x;
      }
    }
    r
  }

  /** History rows are appended with the current time, which does not go back. */
  ghost predicate Chronological(history: seq<HistoryEntry>) {
    forall i, j :: 0 <= i < j < |history| ==> history[i].createdAt <= history[j].createdAt
  }

  ghost predicate NotBefore(history: seq<HistoryEntry>, now: int) {
    forall i :: 0 <= i < |history| ==> history[i].createdAt <= now
  }

  lemma {:induction false} FilterKeepsChronological(history: seq<HistoryEntry>, p: HistoryEntry -> bool)
    requires Chronological(history)
    ensures Chronological(Filter(history, p))
    decreases |history|
  {
    if history != [] {
      var init := history[..|history| - 1];
      FilterKeepsChronological(init, p);
      var rest := Filter(init, p);
      forall i | 0 <= i < |rest| ensures rest[i].createdAt <= history[|history| - 1].createdAt {
        var k :| 0 <= k < |init| && init[k] == rest[i];
      }
    }
  }

  /** The history listing is ordered newest first. */
  lemma NewestFirst(history: seq<HistoryEntry>, taskId: int)
    requires Chronological(history)
    ensures var h := TaskHistory(history, taskId);
      forall i, j :: 0 <= i < j < |h| ==> h[i].createdAt >= h[j].createdAt
  {
    FilterKeepsChronological(history, ForTask(taskId));
  }

  /** A row just appended for a task heads that task's history listing. */
  lemma AppendedEntryComesFirst(history: seq<HistoryEntry>, e: HistoryEntry)
    ensures TaskHistory(history + [e], e.taskId) == [e] + TaskHistory(history, e.taskId)
  {
    assert (history + [e])[..|history|] == history;
  }

  /** Appending a row for one task leaves every other task's listing unchanged. */
  lemma AppendedEntryInvisibleElsewhere(history: seq<HistoryEntry>, e: HistoryEntry, taskId: int)
    requires taskId != e.taskId
    ensures TaskHistory(history + [e], taskId) == TaskHistory(history, taskId)
  {
    assert (history + [e])[..|history|] == history;
  }

  class TasksService {
    var tasks: seq<Row>
    var assignments: seq<Assignment>
    var history: seq<HistoryEntry>

    ghost predicate Valid()
      reads this
    {
      UniqueIds(tasks) && Chronological(history)
    }

    constructor (tasks: seq<Row>, assignments: seq<Assignment>, history: seq<HistoryEntry>)
      requires UniqueIds(tasks) && Chronological(history)
      ensures Valid()
      ensures this.tasks == tasks && this.assignments == assignments && this.history == history
    {
      this.tasks, this.assignments, this.history := tasks, assignments, history;
    }

    /** `findAllTasks`: one page of all tasks and the meta block. */
    method FindAllTasks(q: PageQuery) returns (r: Response<seq<Row>>)
      requires WellFormed(q)
      ensures r.data == Window(tasks, PageOf(q), LimitOf(q))
      ensures r.meta == Some(Meta(|tasks|, q)) && r.statusCode == 200
    {
      var page, limit := PageOf(q), LimitOf(q);
      var rows := Window(tasks, page, limit);
      var total := |tasks|;
      r := Response("Tasks retrieved successfully", rows, 200, Some(PageMeta(total, page, limit, CeilDiv(total, limit))));
    }

    /** `updateTask`: existence check first, then the update with `id` taken out of the data. */
    method UpdateTask(id: int, dto: Record) returns (r: Result<Response<Row>, TaskError>)
      requires Valid()
      modifies this`tasks
      ensures Valid()
      ensures Lookup(old(tasks), id).None? ==> r == Failure(TaskIdNotFound(id)) && tasks == old(tasks)
      ensures Lookup(old(tasks), id).Some? ==>
        && tasks == UpdateById(old(tasks), id, Omit(dto, "id"))
        && r == Success(Response("Task updated successfully",
                                 Row(id, Lookup(old(tasks), id).value.cols + Omit(dto, "id")), 200, None))
    {
      var existing := FindById(tasks, id);
      if existing.None? {
        return Failure(TaskIdNotFound(id));
      }
      var updateData := Omit(dto, "id");
      UpdateKeepsUniqueIds(tasks, id, updateData);
      LookupAfterUpdate(tasks, id, updateData);
      tasks := UpdateById(tasks, id, updateData);
      var task := FindById(tasks, id);
      r := Success(Response("Task updated successfully", task.value, 200, None));
    }

    /** `findOne`: the row, or the plain error 'Task not found'. */
    method FindOne(id: int) returns (r: Result<Response<Row>, TaskError>)
      ensures r.Failure? <==> forall i :: 0 <= i < |tasks| ==> tasks[i].id != id
      ensures r.Failure? ==> r.error == TaskNotFound
      ensures r.Success? ==> r.value.data in tasks && r.value.data.id == id && r.value.statusCode == 200
    {
      var task := FindById(tasks, id);
      if task.None? {
        return Failure(TaskNotFound);
      }
      r := Success(Response("Task retrieved successfully", task.value, 200, None));
    }

    /** `assignTask`: one assignment row and one 'assigned' history row. The history row's
        `changed_by` is the assignee, not the user who assigned. No task row is looked up. */
    method AssignTask(id: int, dto: AssignRequest, now: int) returns (r: Response<Assignment>)
      requires Valid() && NotBefore(history, now)
      modifies this`assignments, this`history
      ensures Valid()
      ensures assignments == old(assignments) + [Assignment(id, dto.userId, dto.assignedBy)]
      ensures history == old(history) + [HistoryEntry(id, AssignedAction, dto.userId, now)]
      ensures r == Response("Task assigned successfully", Assignment(id, dto.userId, dto.assignedBy), 201, None)
    {
      var assignment := Assignment(id, dto.userId, dto.assignedBy);
      assignments := assignments + [assignment];
      history := history + [HistoryEntry(id, AssignedAction, dto.userId, now)];
      r := Response("Task assigned successfully", assignment, 201, None);
    }

    /** `completeTask`: status set to 'completed', then one 'completed' history row by `userId`.
        A missing task makes the update throw before any history is written. */
    method CompleteTask(id: int, userId: int, now: int) returns (r: Result<Response<Row>, TaskError>)
      requires Valid() && NotBefore(history, now)
      modifies this`tasks, this`history
      ensures Valid()
      ensures Lookup(old(tasks), id).None? ==>
        r == Failure(RecordToUpdateNotFound) && tasks == old(tasks) && history == old(history)
      ensures Lookup(old(tasks), id).Some? ==>
        && tasks == UpdateById(old(tasks), id, map["status" := Str(CompletedStatus)])
        && history == old(history) + [HistoryEntry(id, CompletedAction, userId, now)]
        && r.Success? && r.value.data.id == id && "status" in r.value.data.cols
        && r.value.data.cols["status"] == Str(CompletedStatus)
        && r.value.data == Lookup(tasks, id).value
        && r.value.data.cols == Lookup(old(tasks), id).value.cols["status" := Str(CompletedStatus)]
    {
      var existing := FindById(tasks, id);
      if existing.None? {
        return Failure(RecordToUpdateNotFound);
      }
      var data := map["status" := Str(CompletedStatus)];
      UpdateKeepsUniqueIds(tasks, id, data);
      LookupAfterUpdate(tasks, id, data);
      tasks := UpdateById(tasks, id, data);
      var task := FindById(tasks, id);
      history := history + [HistoryEntry(id, CompletedAction, userId, now)];
      r := Success(Response("Task completed successfully", task.value, 200, None));
    }

    /** `getAllTasksByProjectId`: the page and the count both cover only that project's tasks. */
    method GetAllTasksByProjectId(projectId: int, q: PageQuery) returns (r: Response<seq<Row>>)
      requires WellFormed(q)
      ensures var mine := Filter(tasks, OfProject(projectId));
        && r.data == Window(mine, PageOf(q), LimitOf(q))
        && r.meta == Some(Meta(|mine|, q))
      ensures forall i :: 0 <= i < |r.data| ==> r.data[i] in tasks && OfProject(projectId)(r.data[i])
    {
      var page, limit := PageOf(q), LimitOf(q);
      var mine := Select(tasks, OfProject(projectId));
      var rows := Window(mine, page, limit);
      r := Response("Tasks retrieved successfully", rows, 200, Some(PageMeta(|mine|, page, limit, CeilDiv(|mine|, limit))));
    }

    /** `getAllTaskHistory`: newest first; an empty page is an error, also when that task has
        history and the page merely lies past the last one. */
    method GetAllTaskHistory(id: int, q: PageQuery) returns (r: Result<Response<seq<HistoryEntry>>, TaskError>)
      requires WellFormed(q)
      ensures var rows := TaskHistory(history, id);
        && (r.Failure? <==> PageOf(q) > Meta(|rows|, q).totalPages)
        && (r.Failure? ==> r.error == NoHistory(id))
        && (r.Success? ==> r.value.data == Window(rows, PageOf(q), LimitOf(q)) && r.value.meta == Some(Meta(|rows|, q)))
    {
      var page, limit := PageOf(q), LimitOf(q);
      var mine := Select(history, ForTask(id));
      var rows := Reverse(mine);
      var pageRows := Window(rows, page, limit);
      PageNonEmptyIffWithinTotalPages(rows, q);
      if pageRows == [] {
        return Failure(NoHistory(id));
      }
      var total := |rows|;
      r := Success(Response("Task history retrieved successfully", pageRows, 200,
                            Some(PageMeta(total, page, limit, CeilDiv(total, limit)))));
    }
  }
}
