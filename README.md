# Layered todo service — a Dafny model

This project models the non-transport logic of a small layered todo-list
web service. Requests pass down the layers handler → controller → domain
service → repository, and each layer translates the errors of the layer
below into its own vocabulary.

- **Domain types** (`Domain`, `domain_todo.dfy`) define `TodoId` (a wrapped
  number, ordered by that number), `TodoData`, `Todo` and the repository's
  single error, `NotFound(id)`. The repository contract's signatures
  appear as the signatures of the in-memory repository's methods: `create`
  and `list` cannot fail, and `get`, `delete` and `update` fail only with
  `NotFound`.
- **In-memory repository** (`InMem`, `in_mem_todo_repo.dfy`) is a class
  with the two fields the original keeps behind its lock: `lastId` and
  `storage: map<TodoId, PersistedTodo>`. The class invariant `Valid()` says
  that every stored id lies in `1..lastId`, so `Create`, which takes
  `lastId + 1`, never overwrites an entry. `List` collects the entries in
  the map's own unspecified order and sorts them in place on an array. Its
  result is the unique *listing* of the store: strictly ascending by id,
  every element taken from the store, every key present. The lemma
  `ListingUnique` shows there is only one such sequence.
- **Domain service** (`TodoService`, `todo_service.dfy`) rejects the exact
  empty task before `create` and `update`. Whitespace is accepted. A
  rejection leaves the repository `unchanged`. The service maps the
  repository's `NotFound` to `LookupErr` and keeps the two update failures
  apart.
- **API models** (`ApiModels`, `api_models_todo.dfy`) are the field-copy
  conversions between API and domain types. Each conversion inverts the
  other.
- **Controller** (`TodoController`, `todo_controller.dfy`) converts values
  on the way in and out. Its three error conversions are total and keep
  the branch.
- **Route errors** (`TodoRoutes`, `todo_routes_handler.dfy`) map controller
  errors to `BadTask` or `NoSuchTask` and choose the status: 400 or 404.
  The module also holds the todo that the update route builds from the
  path id and the body's task.

The original's service and controller are generic over the layer below.
In this model each one holds the concrete class of the layer below
(`TodoServiceImpl.repo`, `TodoControllerImpl.service`), so their contracts
speak directly about the repository's state.

The repository accepts any task text, the empty string included; only
the service validates it (domain/src/services/todo_service.rs:23-31), so
`InMem.InMemTodoRepo.Create` has no precondition on the task.

## Model

| member | source | states |
|---|---|---|
| `InMem.InMemTodoRepo.constructor` | infra/src/in_mem/todo_repo.rs:14-21 | a new repository has `lastId = 0`, empty storage and satisfies the invariant |
| `InMem.InMemTodoRepo.Create` | infra/src/in_mem/todo_repo.rs:32-45 | the id returned is `old lastId + 1`, `lastId` becomes that id, and the id is above every previously stored id, so nothing is overwritten; storage gains exactly that entry with the given task; the todo returned carries the id and the task |
| `InMem.InMemTodoRepo.Get` | infra/src/in_mem/todo_repo.rs:47-59 | succeeds exactly when the id is stored, returning the requested id with the stored task, and otherwise fails with `NotFound` of the requested id; nothing changes (no `modifies`) |
| `InMem.InMemTodoRepo.List` | infra/src/in_mem/todo_repo.rs:61-73 | the result is the listing of the store: strictly ascending under the derived order of `TodoId` (`Domain.IdLess`, the order `sort_by` compares with), every element a stored entry, every stored key present; nothing changes |
| `InMem.InMemTodoRepo.Delete` | infra/src/in_mem/todo_repo.rs:75-81 | a stored id is removed and nothing else changes; an absent id gives `NotFound(id)` with the repository unchanged; `lastId` never moves |
| `InMem.InMemTodoRepo.Update` | infra/src/in_mem/todo_repo.rs:83-94 | a stored id gets the new task, the key set and `lastId` stay the same; an absent id gives `NotFound(todo.id)`, inserts nothing and changes nothing |
| `InMem.SortById` | infra/src/in_mem/todo_repo.rs:71 | in place, the array ends ascending by id and is a permutation of what it held |
| `InMem.SortedPermutationIsListing` | infra/src/in_mem/todo_repo.rs:63-72 | an ascending permutation of the distinct collected entries, which come from and cover the store, is the store's listing |
| `InMem.ListingEmptyIff` | infra/src/in_mem/todo_repo.rs:61-73 | a listing is empty exactly when the store is empty |
| `InMem.AscendingWithSameElementsEqual` | infra/src/in_mem/todo_repo.rs:71 | two id-ascending sequences holding the same todos are the same sequence, so the sorted order leaves no choice |
| `InMem.ListingElements` | infra/src/in_mem/todo_repo.rs:63-70 | a todo is in a listing exactly when its id is stored with its task |
| `InMem.ListingUnique` | infra/src/in_mem/todo_repo.rs:61-73 | two listings of the same store are equal, so `list` is determined by the store alone |
| `InMem.ListingExtend` | infra/src/in_mem/todo_repo.rs:33-40 | storing a new todo under an id above every stored id appends that todo to the listing |
| `InMem.CreateThenGet` | infra/src/in_mem/todo_repo.rs:113-128 | in a fresh repository the first create returns id 1, and a get of that id returns exactly the created todo |
| `InMem.ListAfterCreates` | infra/src/in_mem/todo_repo.rs:156-173 | creating any list of tasks in a fresh repository hands out ids 1, 2, … in order, and a later list equals the created todos |
| `InMem.CreateDeleteScenario` | infra/src/in_mem/todo_repo.rs:175-194 | after creating ids 1 and 2 and deleting 1, the list is the second todo alone, a get of 1 is `NotFound(1)`, and the next create gets id 3, never the deleted 1 |
| `TodoService.ValidateTask` | domain/src/services/todo_service.rs:23-31 | fails exactly when the task is the empty string, and the error carries that task |
| `TodoService.BlankTaskIsValid` | domain/src/services/todo_service.rs:23-31 | a non-empty task made only of blanks passes validation |
| `TodoService.LookupErrFromRepo` | domain/src/services/todo_service.rs:72-78 | the repository's `NotFound(id)` becomes the service's `NotFound` with the same id |
| `TodoService.UpdateErrFromData` | domain/src/services/todo_service.rs:80-84 | a data error becomes the `DataErr` branch with the same task |
| `TodoService.UpdateErrFromRepo` | domain/src/services/todo_service.rs:86-90 | a repository error becomes the `LookupErr` branch with the same id |
| `TodoService.TodoServiceImpl.constructor` | domain/src/services/todo_service.rs:18-20 | the service wraps the given repository |
| `TodoService.TodoServiceImpl.Create` | domain/src/services/todo_service.rs:36-39 | an empty task gives `InvalidData` with the repository unchanged; any other task gives exactly the repository's create: id `old lastId + 1`, entry inserted |
| `TodoService.TodoServiceImpl.Get` | domain/src/services/todo_service.rs:41-43 | the stored todo, or the service's `NotFound` with the requested id |
| `TodoService.TodoServiceImpl.List` | domain/src/services/todo_service.rs:45-47 | the repository's listing, unchanged |
| `TodoService.TodoServiceImpl.Delete` | domain/src/services/todo_service.rs:49-51 | the repository's delete, with its `NotFound` carried over with the same id and the store unchanged on failure |
| `TodoService.TodoServiceImpl.Update` | domain/src/services/todo_service.rs:53-56 | an empty task gives the `DataErr` branch with the repository unchanged; a valid task on a missing id gives the `LookupErr(NotFound(id))` branch, never `DataErr`, with the repository unchanged; otherwise the stored task is replaced |
| `ApiModels.IdFromDomain` | api/src/models/todo.rs:45-49 | the API id wraps the same number |
| `ApiModels.DataFromDomain` | api/src/models/todo.rs:51-55 | the task is preserved |
| `ApiModels.TodoFromDomain` | api/src/models/todo.rs:57-64 | id number and task are preserved |
| `ApiModels.IdToDomain` | api/src/models/todo.rs:22-26 | converting the result back gives the original API id |
| `ApiModels.DataToDomain` | api/src/models/todo.rs:28-34 | converting the result back gives the original API payload |
| `ApiModels.TodoToDomain` | api/src/models/todo.rs:36-43 | converting the result back gives the original API todo |
| `ApiModels.DomainRoundTrips` | api/src/models/todo.rs:16-20 | starting from the domain side, id, payload and todo also survive the round trip |
| `TodoController.LookupErrFromService` | api/src/controllers/todo_controller.rs:76-82 | the service's `NotFound(id)` becomes the controller's `NotFound` with the same id number |
| `TodoController.DataErrFromService` | api/src/controllers/todo_controller.rs:88-94 | `InvalidData` keeps the identical task text |
| `TodoController.UpdateErrFromService` | api/src/controllers/todo_controller.rs:96-105 | the branch is kept in both directions (`DataErr` iff `DataErr`), and the payloads are converted as above |
| `TodoController.ListFromDomain` | api/src/controllers/todo_controller.rs:51-54 | same length and order, each element with the same id number and task |
| `TodoController.TodoControllerImpl.constructor` | api/src/controllers/todo_controller.rs:27-29 | the controller wraps the given service |
| `TodoController.TodoControllerImpl.Create` | api/src/controllers/todo_controller.rs:33-40 | an empty task gives `InvalidData` with the same text and the store unchanged; otherwise the created todo with its new id and the given task |
| `TodoController.TodoControllerImpl.Get` | api/src/controllers/todo_controller.rs:42-49 | the stored todo under the requested id, or `NotFound` with that id |
| `TodoController.TodoControllerImpl.List` | api/src/controllers/todo_controller.rs:51-54 | converted back to domain todos, the result is the store's listing |
| `TodoController.TodoControllerImpl.Update` | api/src/controllers/todo_controller.rs:56-59 | succeeds exactly when the service's update does; the data and lookup failures come back in their own branches with the store unchanged |
| `TodoController.TodoControllerImpl.Delete` | api/src/controllers/todo_controller.rs:61-64 | succeeds exactly when the id is stored, and otherwise gives `NotFound` with that id and the store unchanged |
| `TodoController.NeverIssuedIdScenario` | api/src/controllers/todo_controller.rs:169-259 | over a real service and repository, get, update and delete of the never-issued id 999 each give `NotFound(999)` in the layer's own wrapping, and numbering continues at 3 |
| `TodoRoutes.FromControllerDataErr` | api/src/handlers/todo_routes_handler.rs:113-119 | `InvalidData{task}` becomes `BadTask` with the same text |
| `TodoRoutes.FromControllerLookupErr` | api/src/handlers/todo_routes_handler.rs:121-127 | `NotFound(id)` becomes `NoSuchTask` with the same id |
| `TodoRoutes.FromControllerUpdateErr` | api/src/handlers/todo_routes_handler.rs:129-136 | the lookup branch becomes `NoSuchTask` and the data branch `BadTask` (an if-and-only-if), each with its payload |
| `TodoRoutes.ErrorResponse` | api/src/handlers/todo_routes_handler.rs:96-106 | status 400 exactly for `BadTask`, with a body naming the task; 404 exactly for `NoSuchTask`, naming the id |
| `TodoRoutes.UpdateTodo` | api/src/handlers/todo_routes_handler.rs:70-74 | the todo sent to the controller has the path's id and the body's task |
| `TodoRoutes.UpdateFailureStatus` | api/src/handlers/todo_routes_handler.rs:129-136 | through all three translations, a failed update is answered 400 exactly when validation failed and 404 exactly when the id was missing, with the same payload |
| `TodoRoutes.LookupFailureStatus` | api/src/handlers/todo_routes_handler.rs:121-127 | a service lookup failure ends as 404 naming the same id number |
| `TodoRoutes.DataFailureStatus` | api/src/handlers/todo_routes_handler.rs:113-119 | a service validation failure ends as 400 naming the same task |

## Left out

- The async mutex and its compat plumbing (infra/src/in_mem/todo_repo.rs:24-28) are not modelled. A Dafny object serves one call at a time, which is the serial order the lock gives. `async` and `await` are not modelled either.
- The trait boundaries (`TodoRepo`, `TodoService`, `TodoController`) are not modelled, because this model has no interfaces. Each layer holds the concrete class of the layer below. Substituting another backing store is therefore not captured.
- The mock-based tests count calls to the layer below. The model states the same checks as `unchanged` frames on the repository.
- InMem.InMemTodoRepo.Create: ids and `lastId` are unbounded naturals. The original's `u64` overflow of `last_id + 1` is not modelled, because the source does not handle it.
- InMem.SortById: an insertion sort stands in for the library's stable `sort_by`. Only its result is claimed: ascending by id, and a permutation of the input.
- The `HashMap` iteration order is modelled as an arbitrary choice of the next key in `List`. Nothing depends on that order.
- TodoRoutes.ErrorResponse: the message text is not modelled, including the `{:?}` Debug rendering of the id. The response body records the task or the id that the message formats.
- The actix route bodies (`list`, `create`, `get`, `delete`, and `update` apart from the todo it builds) are not modelled. JSON and path extraction, serde and the OpenAPI schema macros are left out too. They are framework wiring.
- `api/src/lib.rs` (server setup, routes, static files, bind address), `src/main.rs` (logging and environment) and `api/src/models/common.rs` (a message struct with no behaviour) are not part of this model.
