/** The domain value types shared by every layer: identifiers, the payload
    accepted for creation, a persisted todo, and the one error a repository
    can report.  The repository contract's signatures (create never fails,
    list never fails, get/delete/update fail only with TodoRepoErr) are the
    signatures of InMem.InMemTodoRepo's methods. */
module Domain {

  /** The outcome of a fallible operation, as Rust's Result. */
  datatype Result<+T, +E> = Ok(value: T) | Err(error: E)

  /** A todo's identifier: a wrapper around one unsigned number. */
  datatype TodoId = TodoId(value: nat)

  /** The order TodoId derives: the order of the wrapped number.  Listings
      are sorted by it. */
  predicate IdLess(a: TodoId, b: TodoId)
  {
    a.value < b.value
  }

  /** The payload of a creation request: a task not yet given an id. */
  datatype TodoData = TodoData(task: string)

  /** A persisted todo: its id and its task. */
  datatype Todo = Todo(id: TodoId, task: string)

  /** The only failure of a repository lookup: the requested id is absent. */
  datatype TodoRepoErr = NotFound(id: TodoId)
}
