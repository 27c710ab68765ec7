/** The API's own copies of the todo types and the field-copy conversions
    between them and the domain types. */
module ApiModels {
  import D = Domain

  datatype TodoId = TodoId(value: nat)

  datatype TodoData = TodoData(task: string)

  datatype Todo = Todo(id: TodoId, task: string)

  /** Domain id to API id: same number. */
  function IdFromDomain(v: D.TodoId): (r: TodoId)
    ensures r.value == v.value
  {
    TodoId(v.value)
  }

  /** Domain payload to API payload: same task. */
  function DataFromDomain(v: D.TodoData): (r: TodoData)
    ensures r.task == v.task
  {
    TodoData(v.task)
  }

  /** Domain todo to API todo: same id number, same task. */
  function TodoFromDomain(v: D.Todo): (r: Todo)
    ensures r.id.value == v.id.value && r.task == v.task
  {
    Todo(IdFromDomain(v.id), v.task)
  }

  /** API id to domain id; converting back gives the original. */
  function IdToDomain(v: TodoId): (r: D.TodoId)
    ensures IdFromDomain(r) == v
  {
    D.TodoId(v.value)
  }

  /** API payload to domain payload; converting back gives the original. */
  function DataToDomain(v: TodoData): (r: D.TodoData)
    ensures DataFromDomain(r) == v
  {
    D.TodoData(v.task)
  }

  /** API todo to domain todo; converting back gives the original. */
  function TodoToDomain(v: Todo): (r: D.Todo)
    ensures TodoFromDomain(r) == v
  {
    D.Todo(IdToDomain(v.id), v.task)
  }

  /** The conversions are mutually inverse, starting from the domain side too. */
  lemma DomainRoundTrips(id: D.TodoId, data: D.TodoData, todo: D.Todo)
    ensures IdToDomain(IdFromDomain(id)) == id
    ensures DataToDomain(DataFromDomain(data)) == data
    ensures TodoToDomain(TodoFromDomain(todo)) == todo
  {
  }
}
