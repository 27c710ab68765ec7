/** The controller: converts API values to domain values, calls the service,
    converts the answer back and translates the service's errors into its own
    vocabulary, keeping which branch occurred and what it carried.  The
    controller is generic over its service in the original; here it is given
    the domain service. */
module TodoController {
  import D = Domain
  import Api = ApiModels
  import S = TodoService
  import InMem

  datatype TodoControllerLookupErr = NotFound(id: Api.TodoId)

  datatype TodoControllerDataErr = InvalidData(task: string)

  datatype TodoControllerUpdateErr =
    | LookupErr(lookup: TodoControllerLookupErr)
    | DataErr(data: TodoControllerDataErr)

  /** From<TodoServiceLookupErr>: the same id number, as an API id. */
  function LookupErrFromService(e: S.TodoServiceLookupErr): (r: TodoControllerLookupErr)
    ensures r.id.value == e.id.value
  {
    match e
    case NotFound(id) => NotFound(Api.IdFromDomain(id))
  }

  /** From<TodoServiceDataErr>: the same task text. */
  function DataErrFromService(e: S.TodoServiceDataErr): (r: TodoControllerDataErr)
    ensures r.task == e.task
  {
    match e
    case InvalidData(task) => InvalidData(task)
  }

  /** From<TodoServiceUpdateErr>: the branch is kept and its payload converted. */
  function UpdateErrFromService(e: S.TodoServiceUpdateErr): (r: TodoControllerUpdateErr)
    ensures r.DataErr? <==> e.DataErr?
    ensures e.DataErr? ==> r.data.task == e.data.task
    ensures e.LookupErr? ==> r.lookup.id.value == e.lookup.id.value
  {
    match e
    case DataErr(inner) => DataErr(DataErrFromService(inner))
    case LookupErr(inner) => LookupErr(LookupErrFromService(inner))
  }

  /** The element-wise conversion of a domain listing: same length, same
      order, each todo with the same id number and task. */
  function ListFromDomain(ds: seq<D.Todo>): (r: seq<Api.Todo>)
    ensures |r| == |ds|
    ensures forall i :: 0 <= i < |ds| ==> r[i].id.value == ds[i].id.value && r[i].task == ds[i].task
  {
    if ds == [] then [] else [Api.TodoFromDomain(ds[0])] + ListFromDomain(ds[1..])
  }

  /** The domain view of an API listing (used to state what List returns). */
  function ListToDomain(todos: seq<Api.Todo>): seq<D.Todo>
  {
    seq(|todos|, i requires 0 <= i < |todos| => Api.TodoToDomain(todos[i]))
  }

  class TodoControllerImpl {
    const service: S.TodoServiceImpl

    constructor (service: S.TodoServiceImpl)
      ensures this.service == service
    {
      this.service := service;
    }

    /** The service's create; an invalid task comes back as InvalidData with
        the same text and nothing is stored. */
    method Create(data: Api.TodoData) returns (r: D.Result<Api.Todo, TodoControllerDataErr>)
      requires service.repo.Valid()
      modifies service.repo
      ensures service.repo.Valid()
      ensures data.task == "" ==> r == D.Err(InvalidData(data.task)) && unchanged(service.repo)
      ensures data.task != "" ==>
                && service.repo.lastId == old(service.repo.lastId) + 1
                && r == D.Ok(Api.Todo(Api.TodoId(service.repo.lastId), data.task))
                && service.repo.storage ==
                   old(service.repo.storage)[D.TodoId(service.repo.lastId) := InMem.PersistedTodo(data.task)]
    {
      var asDomain := Api.DataToDomain(data);
      var created := service.Create(asDomain);
      match created
      case Ok(todo) => r := D.Ok(Api.TodoFromDomain(todo));
      case Err(e) => r := D.Err(DataErrFromService(e));
    }

    /** The stored todo under the id, or NotFound with the same id. */
    method Get(id: Api.TodoId) returns (r: D.Result<Api.Todo, TodoControllerLookupErr>)
      ensures r.Ok? <==> Api.IdToDomain(id) in service.repo.storage
      ensures r.Ok? ==> r.value == Api.Todo(id, service.repo.storage[Api.IdToDomain(id)].task)
      ensures r.Err? ==> r.error == NotFound(id)
    {
      var domainId := Api.IdToDomain(id);
      var found := service.Get(domainId);
      match found
      case Ok(todo) => r := D.Ok(Api.TodoFromDomain(todo));
      case Err(e) => r := D.Err(LookupErrFromService(e));
    }

    /** The service's listing converted element-wise. */
    method List() returns (todos: seq<Api.Todo>)
      ensures InMem.IsListing(service.repo.storage, ListToDomain(todos))
    {
      var domainTodos := service.List();
      todos := ListFromDomain(domainTodos);
      assert ListToDomain(todos) == domainTodos;
    }

    /** Succeeds exactly when the service's update does; otherwise the
        service's error with its branch kept. */
    method Update(todo: Api.Todo) returns (r: D.Result<(), TodoControllerUpdateErr>)
      requires service.repo.Valid()
      modifies service.repo
      ensures service.repo.Valid()
      ensures todo.task == "" ==> r == D.Err(DataErr(InvalidData(todo.task))) && unchanged(service.repo)
      ensures todo.task != "" && Api.IdToDomain(todo.id) !in old(service.repo.storage) ==>
                r == D.Err(LookupErr(NotFound(todo.id))) && unchanged(service.repo)
      ensures todo.task != "" && Api.IdToDomain(todo.id) in old(service.repo.storage) ==>
                && r == D.Ok(())
                && service.repo.lastId == old(service.repo.lastId)
                && service.repo.storage ==
                   old(service.repo.storage)[Api.IdToDomain(todo.id) := InMem.PersistedTodo(todo.task)]
    {
      var asDomain := Api.TodoToDomain(todo);
      var updated := service.Update(asDomain);
      match updated
      case Ok(_) => r := D.Ok(());
      case Err(e) => r := D.Err(UpdateErrFromService(e));
    }

    /** Succeeds exactly when the service's delete does; otherwise NotFound
        with the same id. */
    method Delete(id: Api.TodoId) returns (r: D.Result<(), TodoControllerLookupErr>)
      requires service.repo.Valid()
      modifies service.repo
      ensures service.repo.Valid()
      ensures service.repo.lastId == old(service.repo.lastId)
      ensures Api.IdToDomain(id) in old(service.repo.storage) ==>
                r == D.Ok(()) && service.repo.storage == old(service.repo.storage) - {Api.IdToDomain(id)}
      ensures Api.IdToDomain(id) !in old(service.repo.storage) ==>
                r == D.Err(NotFound(id)) && unchanged(service.repo)
    {
      var domainId := Api.IdToDomain(id);
      var deleted := service.Delete(domainId);
      match deleted
      case Ok(_) => r := D.Ok(());
      case Err(e) => r := D.Err(LookupErrFromService(e));
    }
  }

  /** Over a real service and repository holding two todos, an id that was
      never handed out is reported as NotFound with that id by get, update
      and delete, and a valid create afterwards continues the numbering. */
  method NeverIssuedIdScenario()
    returns (got: D.Result<Api.Todo, TodoControllerLookupErr>,
             updated: D.Result<(), TodoControllerUpdateErr>,
             deleted: D.Result<(), TodoControllerLookupErr>,
             created: D.Result<Api.Todo, TodoControllerDataErr>)
    ensures got == D.Err(NotFound(Api.TodoId(999)))
    ensures updated == D.Err(LookupErr(NotFound(Api.TodoId(999))))
    ensures deleted == D.Err(NotFound(Api.TodoId(999)))
    ensures created == D.Ok(Api.Todo(Api.TodoId(3), "say bye"))
  {
    var repo := new InMem.InMemTodoRepo();
    var service := new S.TodoServiceImpl(repo);
    var controller := new TodoControllerImpl(service);
    var _ := controller.Create(Api.TodoData("say hello"));
    var _ := controller.Create(Api.TodoData("hello world"));
    var missing := Api.TodoId(999);
    got := controller.Get(missing);
    updated := controller.Update(Api.Todo(missing, "hello world"));
    deleted := controller.Delete(missing);
    created := controller.Create(Api.TodoData("say bye"));
  }
}
