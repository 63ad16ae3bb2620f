/**
 * The gateway's task controller. Every route sits behind the JWT guard; the handlers only
 * shape the message sent to the tasks service, taking the caller's identity from the token's
 * `sub` and the row to act on from the URL.
 */
module GatewayTasksController {
  import opened Wrappers
  import opened Records

  /** An HTTP request as the handler receives it: URL id, body or query. */
  datatype Request =
    | FindAll(query: Record)
    | Create(body: Record)
    | FindOne(id: int)
    | Update(id: int, body: Record)
    | Assign(id: int, body: Record)
    | Complete(id: int)
    | ByProject(projectId: int, query: Record)
    | History(id: int, query: Record)
    | MyTasks(query: Record)
    | AssignedToMe(query: Record)

  /** The message sent to the tasks service: its command and payload. */
  datatype Message =
    | FindAllTasks(query: Record)
    | CreateTask(data: Record)
    | FindOneTask(id: int)
    | UpdateTask(data: Record)
    | AssignTask(id: int, assignTaskDto: Record)
    | CompleteTask(id: int, userId: int)
    | TasksByProject(projectId: int, paginationDto: Record)
    | TaskHistory(id: int, paginationDto: Record)
    | FindUserTasks(query: Record)
    | FindAssignedTasks(query: Record)

  /** The message a request from the user `sub` produces. */
  function Route(req: Request, sub: int): Message
  {
    match req
    case FindAll(query) => FindAllTasks(query)
    case Create(body) => CreateTask(body["created_by" := Num(sub)])
    case FindOne(id) => FindOneTask(id)
    case Update(id, body) => UpdateTask(body["id" := Num(id)]["updated_by" := Num(sub)])
    case Assign(id, body) => AssignTask(id, body["assigned_by" := Num(sub)])
    case Complete(id) => CompleteTask(id, sub)
    case ByProject(projectId, query) => TasksByProject(projectId, query)
    case History(id, query) => TaskHistory(id, query)
    case MyTasks(query) => FindUserTasks(query["userId" := Num(sub)])
    case AssignedToMe(query) => FindAssignedTasks(query["userId" := Num(sub)])
  }

  /** Whatever the body says, the tasks service is told that the caller created that task. */
  lemma CreatorIsCaller(body: Record, sub: int)
    ensures var m := Route(Create(body), sub);
      NumberAt(m.data, "created_by") == Some(sub)
      && forall k :: k in body && k != "created_by" ==> k in m.data && m.data[k] == body[k]
  {
  }

  /** An update reaches the row with the URL's id, even when the body names another one;
      after the service strips `id`, the caller is recorded as `updated_by` and the other body
      keys are written as sent. */
  lemma UpdateTargetsUrlTask(id: int, body: Record, sub: int)
    ensures var m := Route(Update(id, body), sub);
      && NumberAt(m.data, "id") == Some(id)
      && Omit(m.data, "id") == Overriding(Omit(body, "id"), "updated_by", Num(sub))
  {
    var m := Route(Update(id, body), sub);
    assert Omit(m.data, "id") == Overriding(Omit(body, "id"), "updated_by", Num(sub));
  }

  /** The assignment is recorded as made by the caller; who is assigned is the body's choice. */
  lemma AssignerIsCaller(id: int, body: Record, sub: int)
    ensures var m := Route(Assign(id, body), sub);
      && m.id == id
      && NumberAt(m.assignTaskDto, "assigned_by") == Some(sub)
      && NumberAt(m.assignTaskDto, "user_id") == NumberAt(body, "user_id")
  {
  }

  /** The personal listings always ask for the caller's own tasks; a `userId` in the query is
      replaced, and the pagination fields pass through. */
  lemma OwnListingsAreCallers(query: Record, sub: int)
    ensures var a := Route(MyTasks(query), sub);
      var b := Route(AssignedToMe(query), sub);
      && NumberAt(a.query, "userId") == Some(sub) && NumberAt(b.query, "userId") == Some(sub)
      && (forall k :: k in query && k != "userId" ==> k in a.query && a.query[k] == query[k])
      && (forall k :: k in query && k != "userId" ==> k in b.query && b.query[k] == query[k])
  {
  }

  /** Completion is recorded for the caller; the listings forward the query as received. */
  lemma CompleterIsCallerAndQueriesForwarded(id: int, query: Record, sub: int)
    ensures Route(Complete(id), sub) == CompleteTask(id, sub)
    ensures Route(FindAll(query), sub) == FindAllTasks(query)
    ensures Route(ByProject(id, query), sub) == TasksByProject(id, query)
    ensures Route(History(id, query), sub) == TaskHistory(id, query)
  {
  }
}
