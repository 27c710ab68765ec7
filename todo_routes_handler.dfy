/** The transport layer's error vocabulary, the status each error is answered
    with, and the todo the update route builds from its path and body. */
module TodoRoutes {
  import Api = ApiModels
  import C = TodoController
  import S = TodoService

  datatype TodoRoutesError = BadTask(task: string) | NoSuchTask(id: Api.TodoId)

  /** What an error response's message reports: the offending task or id. */
  datatype ResponseBody = InvalidTask(task: string) | NoSuchTodo(id: Api.TodoId)

  datatype HttpResponse = HttpResponse(status: nat, body: ResponseBody)

  const StatusBadRequest: nat := 400
  const StatusNotFound: nat := 404

  /** From<TodoControllerDataErr>: a bad task with the same text. */
  function FromControllerDataErr(e: C.TodoControllerDataErr): (r: TodoRoutesError)
    ensures r.BadTask? && r.task == e.task
  {
    match e
    case InvalidData(task) => BadTask(task)
  }

  /** From<TodoControllerLookupErr>: no such task, with the same id. */
  function FromControllerLookupErr(e: C.TodoControllerLookupErr): (r: TodoRoutesError)
    ensures r.NoSuchTask? && r.id == e.id
  {
    match e
    case NotFound(id) => NoSuchTask(id)
  }

  /** From<TodoControllerUpdateErr>: the lookup branch becomes NoSuchTask and
      the data branch BadTask, each with its payload. */
  function FromControllerUpdateErr(e: C.TodoControllerUpdateErr): (r: TodoRoutesError)
    ensures r.BadTask? <==> e.DataErr?
    ensures e.DataErr? ==> r.task == e.data.task
    ensures e.LookupErr? ==> r.id == e.lookup.id
  {
    match e
    case LookupErr(inner) => FromControllerLookupErr(inner)
    case DataErr(inner) => FromControllerDataErr(inner)
  }

  /** A bad task is answered 400 and a missing todo 404, the message naming
      the task or the id. */
  function ErrorResponse(e: TodoRoutesError): (r: HttpResponse)
    ensures r.status == StatusBadRequest <==> e.BadTask?
    ensures r.status == StatusNotFound <==> e.NoSuchTask?
    ensures e.BadTask? ==> r.body == InvalidTask(e.task)
    ensures e.NoSuchTask? ==> r.body == NoSuchTodo(e.id)
  {
    match e
    case BadTask(task) => HttpResponse(StatusBadRequest, InvalidTask(task))
    case NoSuchTask(id) => HttpResponse(StatusNotFound, NoSuchTodo(id))
  }

  /** The todo the update route sends to the controller: the path's id and
      the body's task. */
  function UpdateTodo(id: Api.TodoId, body: Api.TodoData): (r: Api.Todo)
    ensures r.id == id && r.task == body.task
  {
    Api.Todo(id, body.task)
  }

  /** Across the three translations, a failed update is answered 400 exactly
      when the service rejected the task, and 404 with the same id number
      exactly when the id was missing. */
  lemma UpdateFailureStatus(e: S.TodoServiceUpdateErr)
    ensures var resp := ErrorResponse(FromControllerUpdateErr(C.UpdateErrFromService(e)));
            && (resp.status == StatusBadRequest <==> e.DataErr?)
            && (resp.status == StatusNotFound <==> e.LookupErr?)
            && (e.DataErr? ==> resp.body == InvalidTask(e.data.task))
            && (e.LookupErr? ==> resp.body.NoSuchTodo? && resp.body.id.value == e.lookup.id.value)
  {
  }

  /** A service lookup failure is answered 404 naming the same id number. */
  lemma LookupFailureStatus(e: S.TodoServiceLookupErr)
    ensures var resp := ErrorResponse(FromControllerLookupErr(C.LookupErrFromService(e)));
            resp.status == StatusNotFound && resp.body.NoSuchTodo? && resp.body.id.value == e.id.value
  {
  }

  /** A service data failure is answered 400 naming the same task. */
  lemma DataFailureStatus(e: S.TodoServiceDataErr)
    ensures var resp := ErrorResponse(FromControllerDataErr(C.DataErrFromService(e)));
            resp.status == StatusBadRequest && resp.body == InvalidTask(e.task)
  {
  }
}
