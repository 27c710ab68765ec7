/** The domain service: validates the task before every mutating call and
    translates the repository's NotFound into the service's typed errors.
    The service is generic over its repository in the original; here it is
    given the in-memory repository. */
module TodoService {
  import opened Domain
  import opened InMem

  /** A lookup failed: no todo under that id. */
  datatype TodoServiceLookupErr = NotFound(id: TodoId)

  /** The task failed validation. */
  datatype TodoServiceDataErr = InvalidData(task: string)

  /** An update failed either because the id is absent or because the task
      is invalid; the two causes stay distinguishable. */
  datatype TodoServiceUpdateErr =
    | LookupErr(lookup: TodoServiceLookupErr)
    | DataErr(data: TodoServiceDataErr)

  /** Only the exact empty string is rejected; whitespace passes. */
  function ValidateTask(task: string): (r: Result<(), TodoServiceDataErr>)
    ensures r.Err? <==> task == ""
    ensures r.Err? ==> r.error.task == task
  {
    if |task| == 0 then Err(InvalidData(task)) else Ok(())
  }

  /** A task made only of blanks is not rejected. */
  lemma BlankTaskIsValid(task: string)
    requires task != []
    requires forall i :: 0 <= i < |task| ==> task[i] == ' ' || task[i] == '\t' || task[i] == '\n'
    ensures ValidateTask(task).Ok?
  {
  }

  /** From<TodoRepoErr> for TodoServiceLookupErr: same id. */
  function LookupErrFromRepo(e: TodoRepoErr): (r: TodoServiceLookupErr)
    ensures r.id == e.id
  {
    match e
    case NotFound(id) => TodoServiceLookupErr.NotFound(id)
  }

  /** From<TodoServiceDataErr> for TodoServiceUpdateErr: the data branch. */
  function UpdateErrFromData(e: TodoServiceDataErr): (r: TodoServiceUpdateErr)
    ensures r.DataErr? && r.data.task == e.task
  {
    DataErr(e)
  }

  /** From<TodoRepoErr> for TodoServiceUpdateErr: the lookup branch, same id. */
  function UpdateErrFromRepo(e: TodoRepoErr): (r: TodoServiceUpdateErr)
    ensures r.LookupErr? && r.lookup.id == e.id
  {
    LookupErr(LookupErrFromRepo(e))
  }

  class TodoServiceImpl {
    const repo: InMemTodoRepo

    constructor (repo: InMemTodoRepo)
      ensures this.repo == repo
    {
      this.repo := repo;
    }

    /** An empty task is refused before the repository is touched; any other
        task is created by the repository. */
    method Create(data: TodoData) returns (r: Result<Todo, TodoServiceDataErr>)
      requires repo.Valid()
      modifies repo
      ensures repo.Valid()
      ensures data.task == "" ==> r == Err(InvalidData(data.task)) && unchanged(repo)
      ensures data.task != "" ==>
                && repo.lastId == old(repo.lastId) + 1
                && r == Ok(Todo(TodoId(repo.lastId), data.task))
                && repo.storage == old(repo.storage)[TodoId(repo.lastId) := PersistedTodo(data.task)]
    {
      var valid := ValidateTask(data.task);
      if valid.Err? {
        return Err(valid.error);
      }
      var todo := repo.Create(data);
      r := Ok(todo);
    }

    /** The repository's answer, its NotFound carried over with the same id. */
    method Get(id: TodoId) returns (r: Result<Todo, TodoServiceLookupErr>)
      ensures r.Ok? <==> id in repo.storage
      ensures r.Ok? ==> r.value == Todo(id, repo.storage[id].task)
      ensures r.Err? ==> r.error == TodoServiceLookupErr.NotFound(id)
    {
      var found := repo.Get(id);
      match found
      case Ok(todo) => r := Ok(todo);
      case Err(e) => r := Err(LookupErrFromRepo(e));
    }

    /** The repository's listing, passed through. */
    method List() returns (todos: seq<Todo>)
      ensures IsListing(repo.storage, todos)
    {
      todos := repo.List();
    }

    /** The repository's delete, its NotFound carried over with the same id. */
    method Delete(id: TodoId) returns (r: Result<(), TodoServiceLookupErr>)
      requires repo.Valid()
      modifies repo
      ensures repo.Valid()
      ensures repo.lastId == old(repo.lastId)
      ensures id in old(repo.storage) ==> r == Ok(()) && repo.storage == old(repo.storage) - {id}
      ensures id !in old(repo.storage) ==> r == Err(TodoServiceLookupErr.NotFound(id)) && unchanged(repo)
    {
      var deleted := repo.Delete(id);
      match deleted
      case Ok(_) => r := Ok(());
      case Err(e) => r := Err(LookupErrFromRepo(e));
    }

    /** An empty task is refused before the repository is touched (the data
        branch); otherwise a missing id gives the lookup branch. */
    method Update(todo: Todo) returns (r: Result<(), TodoServiceUpdateErr>)
      requires repo.Valid()
      modifies repo
      ensures repo.Valid()
      ensures todo.task == "" ==> r == Err(DataErr(InvalidData(todo.task))) && unchanged(repo)
      ensures todo.task != "" && todo.id !in old(repo.storage) ==>
                r == Err(LookupErr(TodoServiceLookupErr.NotFound(todo.id))) && unchanged(repo)
      ensures todo.task != "" && todo.id in old(repo.storage) ==>
                && r == Ok(())
                && repo.lastId == old(repo.lastId)
                && repo.storage == old(repo.storage)[todo.id := PersistedTodo(todo.task)]
    {
      var valid := ValidateTask(todo.task);
      if valid.Err? {
        return Err(UpdateErrFromData(valid.error));
      }
      var updated := repo.Update(todo);
      match updated
      case Ok(_) => r := Ok(());
      case Err(e) => r := Err(UpdateErrFromRepo(e));
    }
  }
}
