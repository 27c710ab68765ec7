/** The in-memory repository: the only stateful component.  It keeps the last
    id it handed out and a map from ids to persisted descriptions.  The lock
    that serialises access in the original is not modelled: a Dafny object is
    used by one caller at a time, which is the serial order the lock gives. */
module InMem {
  import opened Domain

  /** What is stored per key: only the task; the id is the map key. */
  datatype PersistedTodo = PersistedTodo(task: string)

  /** Ordered by id under TodoId's derived order, ties allowed: no later
      element has a smaller id than an earlier one. */
  predicate Ascending(s: seq<Todo>)
  {
    forall i, j :: 0 <= i < j < |s| ==> !IdLess(s[j].id, s[i].id)
  }

  /** Ordered by id under TodoId's derived order, with no repeated id. */
  predicate StrictlyAscending(s: seq<Todo>)
  {
    forall i, j :: 0 <= i < j < |s| ==> IdLess(s[i].id, s[j].id)
  }

  predicate Distinct(s: seq<Todo>)
  {
    forall i, j :: 0 <= i < j < |s| ==> s[i] != s[j]
  }

  /** Every element of `s` is an entry of `storage`, rebuilt as a Todo. */
  predicate FromStorage(storage: map<TodoId, PersistedTodo>, s: seq<Todo>)
  {
    forall i :: 0 <= i < |s| ==> s[i].id in storage && s[i].task == storage[s[i].id].task
  }

  /** Every key of `storage` is the id of some element of `s`. */
  predicate CoversStorage(storage: map<TodoId, PersistedTodo>, s: seq<Todo>)
  {
    forall id :: id in storage ==> exists i :: 0 <= i < |s| && s[i].id == id
  }

  /** `s` holds every entry of `storage` exactly once, ascending by id. */
  predicate IsListing(storage: map<TodoId, PersistedTodo>, s: seq<Todo>)
  {
    StrictlyAscending(s) && FromStorage(storage, s) && CoversStorage(storage, s)
  }

  class InMemTodoRepo {
    var lastId: nat
    var storage: map<TodoId, PersistedTodo>

    /** Every stored id was handed out by Create, so lies in 1..lastId. */
    ghost predicate Valid()
      reads this
    {
      forall id :: id in storage ==> 1 <= id.value <= lastId
    }

    /** A fresh repository: no id handed out yet and nothing stored. */
    constructor ()
      ensures Valid()
      ensures lastId == 0 && storage == map[]
    {
      lastId := 0;
      storage := map[];
    }

    /** Hands out the next id, stores the task under it and returns the todo.
        The new id is above every stored id, so no entry is overwritten. */
    method Create(data: TodoData) returns (todo: Todo)
      requires Valid()
      modifies this
      ensures Valid()
      ensures lastId == old(lastId) + 1
      ensures todo == Todo(TodoId(lastId), data.task)
      ensures forall id :: id in old(storage) ==> IdLess(id, todo.id)
      ensures storage == old(storage)[todo.id := PersistedTodo(data.task)]
    {
      var nextId := lastId + 1;
      var id := TodoId(nextId);
      lastId := nextId;
      storage := storage[id := PersistedTodo(data.task)];
      todo := Todo(id, data.task);
    }

    /** The stored todo under `id`, carrying the requested id, or NotFound(id). */
    method Get(id: TodoId) returns (r: Result<Todo, TodoRepoErr>)
      ensures r.Ok? <==> id in storage
      ensures r.Ok? ==> r.value.id == id && r.value.task == storage[id].task
      ensures r.Err? ==> r.error == NotFound(id)
    {
      if id in storage {
        r := Ok(Todo(id, storage[id].task));
      } else {
        r := Err(NotFound(id));
      }
    }

    /** Every stored todo exactly once, ascending by id.  The entries are
        collected in the map's own (unspecified) order, then sorted in place. */
    method List() returns (todos: seq<Todo>)
      ensures IsListing(storage, todos)
    {
      var collected: seq<Todo> := [];
      var remaining := storage.Keys;
      while remaining != {}
        invariant remaining <= storage.Keys
        invariant FromStorage(storage, collected)
        invariant forall i :: 0 <= i < |collected| ==> collected[i].id !in remaining
        invariant forall id :: id in storage && id !in remaining ==>
                    exists i :: 0 <= i < |collected| && collected[i].id == id
        invariant Distinct(collected)
        decreases remaining
      {
        var id :| id in remaining;
        ghost var before := collected;
        collected := collected + [Todo(id, storage[id].task)];
        remaining := remaining - {id};
        forall k | k in storage && k !in remaining
          ensures exists i :: 0 <= i < |collected| && collected[i].id == k
        {
          if k == id {
            assert collected[|before|].id == k;
          } else {
            var i :| 0 <= i < |before| && before[i].id == k;
            assert collected[i].id == k;
          }
        }
      }
      var a := new Todo[|collected|](i requires 0 <= i < |collected| => collected[i]);
      assert a[..] == collected;
      SortById(a);
      todos := a[..];
      SortedPermutationIsListing(storage, collected, todos);
    }

    /** Removes the entry under `id`, or reports NotFound(id) and changes nothing. */
    method Delete(id: TodoId) returns (r: Result<(), TodoRepoErr>)
      requires Valid()
      modifies this
      ensures Valid()
      ensures lastId == old(lastId)
      ensures id in old(storage) ==> r == Ok(()) && storage == old(storage) - {id}
      ensures id !in old(storage) ==> r == Err(NotFound(id)) && unchanged(this)
    {
      if id in storage {
        storage := storage - {id};
        r := Ok(());
      } else {
        r := Err(NotFound(id));
      }
    }

    /** Replaces the task stored under `todo.id`; never inserts a new key. */
    method Update(todo: Todo) returns (r: Result<(), TodoRepoErr>)
      requires Valid()
      modifies this
      ensures Valid()
      ensures lastId == old(lastId)
      ensures storage.Keys == old(storage).Keys
      ensures todo.id in old(storage) ==>
                r == Ok(()) && storage == old(storage)[todo.id := PersistedTodo(todo.task)]
      ensures todo.id !in old(storage) ==> r == Err(NotFound(todo.id)) && unchanged(this)
    {
      if todo.id in storage {
        storage := storage[todo.id := PersistedTodo(todo.task)];
        r := Ok(());
      } else {
        r := Err(NotFound(todo.id));
      }
    }
  }

  /** Sorts todos in place by id: insertion by adjacent swaps, a stable sort
      like the one the original calls. */
  method SortById(a: array<Todo>)
    modifies a
    ensures Ascending(a[..])
    ensures multiset(a[..]) == multiset(old(a[..]))
  {
    var i := 0;
    while i < a.Length
      invariant 0 <= i <= a.Length
      invariant forall p, q :: 0 <= p < q < i ==> !IdLess(a[q].id, a[p].id)
      invariant multiset(a[..]) == multiset(old(a[..]))
    {
      InsertIntoPrefix(a, i);
      i := i + 1;
    }
  }

  /** Moves a[i] down into the ascending prefix a[..i], so that a[..i+1] is
      ascending; the rest of the array is untouched. */
  method InsertIntoPrefix(a: array<Todo>, i: nat)
    requires i < a.Length
    requires forall p, q :: 0 <= p < q < i ==> !IdLess(a[q].id, a[p].id)
    modifies a
    ensures forall p, q :: 0 <= p < q <= i ==> !IdLess(a[q].id, a[p].id)
    ensures multiset(a[..]) == multiset(old(a[..]))
  {
    var j := i;
    while 0 < j && IdLess(a[j].id, a[j - 1].id)
      invariant 0 <= j <= i
      invariant forall p, q :: 0 <= p < q <= i && p != j && q != j ==> !IdLess(a[q].id, a[p].id)
      invariant forall q :: j < q <= i ==> IdLess(a[j].id, a[q].id)
      invariant multiset(a[..]) == multiset(old(a[..]))
    {
      Swap(a, j - 1, j);
      j := j - 1;
    }
  }

  /** Exchanges two elements and leaves every other one in place. */
  method Swap(a: array<Todo>, p: nat, q: nat)
    requires p < q < a.Length
    modifies a
    ensures a[p] == old(a[q]) && a[q] == old(a[p])
    ensures forall k :: 0 <= k < a.Length && k != p && k != q ==> a[k] == old(a[k])
    ensures multiset(a[..]) == multiset(old(a[..]))
  {
    a[p], a[q] := a[q], a[p];
  }

  /** A sequence has no repeated element exactly when every count in its
      multiset is at most one. */
  lemma {:induction false} DistinctIffSingleCounts(s: seq<Todo>)
    ensures Distinct(s) <==> forall x :: multiset(s)[x] <= 1
  {
    if s != [] {
      var h, rest := s[0], s[1..];
      assert s == [h] + rest;
      DistinctIffSingleCounts(rest);
      assert Distinct(s) <==> h !in rest && Distinct(rest) by {
        if Distinct(s) {
          forall i, j | 0 <= i < j < |rest| ensures rest[i] != rest[j] {
            assert rest[i] == s[i + 1] && rest[j] == s[j + 1];
          }
          forall i | 0 <= i < |rest| ensures rest[i] != h {
            assert rest[i] == s[i + 1];
          }
        }
        if h !in rest && Distinct(rest) {
          forall i, j | 0 <= i < j < |s| ensures s[i] != s[j] {
            if i == 0 {
              assert s[j] == rest[j - 1];
            } else {
              assert s[i] == rest[i - 1] && s[j] == rest[j - 1];
            }
          }
        }
      }
      assert forall x :: multiset(s)[x] == multiset(rest)[x] + (if x == h then 1 else 0);
      if forall x :: multiset(s)[x] <= 1 {
        assert multiset(s)[h] <= 1;
        forall x ensures multiset(rest)[x] <= 1 {
          assert multiset(s)[x] <= 1;
        }
      }
    }
  }

  /** An ascending permutation of distinct entries that come from, and cover,
      the storage is its listing. */
  lemma SortedPermutationIsListing(storage: map<TodoId, PersistedTodo>, collected: seq<Todo>, sorted: seq<Todo>)
    requires FromStorage(storage, collected) && CoversStorage(storage, collected)
    requires Distinct(collected)
    requires multiset(sorted) == multiset(collected)
    requires Ascending(sorted)
    ensures IsListing(storage, sorted)
  {
    DistinctIffSingleCounts(collected);
    DistinctIffSingleCounts(sorted);
    forall i | 0 <= i < |sorted|
      ensures sorted[i].id in storage && sorted[i].task == storage[sorted[i].id].task
    {
      assert sorted[i] in multiset(sorted);
      var p :| 0 <= p < |collected| && collected[p] == sorted[i];
    }
    forall id | id in storage
      ensures exists i :: 0 <= i < |sorted| && sorted[i].id == id
    {
      var p :| 0 <= p < |collected| && collected[p].id == id;
      assert collected[p] in multiset(collected);
      var i :| 0 <= i < |sorted| && sorted[i] == collected[p];
    }
  }

  /** A listing is empty exactly when the storage is. */
  lemma ListingEmptyIff(storage: map<TodoId, PersistedTodo>, s: seq<Todo>)
    requires IsListing(storage, s)
    ensures s == [] <==> storage == map[]
  {
    if s != [] {
      assert s[0].id in storage;
    }
    if storage != map[] {
      var id :| id in storage;
    }
  }

  /** A sequence is empty exactly when nothing is in it. */
  lemma EmptyIffNoElements(s: seq<Todo>)
    ensures s == [] <==> forall x :: x !in s
  {
    if s != [] {
      assert s[0] in s;
    }
  }

  /** In a strictly ascending sequence the tail holds every element but the head. */
  lemma AscendingTailElements(s: seq<Todo>, x: Todo)
    requires StrictlyAscending(s) && s != []
    ensures x in s[1..] <==> x in s && x != s[0]
  {
    if x in s[1..] {
      var k :| 0 <= k < |s[1..]| && s[1..][k] == x;
      assert s[k + 1] == x;
    }
    if x in s && x != s[0] {
      var k :| 0 <= k < |s| && s[k] == x;
      assert s[1..][k - 1] == x;
    }
  }

  /** Two non-empty strictly ascending sequences with the same elements
      start with the same element: the least one. */
  lemma AscendingSameHead(s: seq<Todo>, t: seq<Todo>)
    requires StrictlyAscending(s) && StrictlyAscending(t)
    requires s != [] && t != []
    requires s[0] in t && t[0] in s
    ensures s[0] == t[0]
  {
    var j :| 0 <= j < |t| && t[j] == s[0];
    var i :| 0 <= i < |s| && s[i] == t[0];
    assert !IdLess(t[j].id, t[0].id) && !IdLess(s[i].id, s[0].id);
  }

  /** Removing a common head keeps the element sets equal. */
  lemma AscendingSameTails(s: seq<Todo>, t: seq<Todo>)
    requires StrictlyAscending(s) && StrictlyAscending(t)
    requires s != [] && t != [] && s[0] == t[0]
    requires forall x :: x in s <==> x in t
    ensures forall x :: x in s[1..] <==> x in t[1..]
  {
    forall x ensures x in s[1..] <==> x in t[1..] {
      AscendingTailElements(s, x);
      AscendingTailElements(t, x);
    }
  }

  /** Two strictly ascending sequences with the same elements are equal. */
  lemma {:induction false} AscendingWithSameElementsEqual(s: seq<Todo>, t: seq<Todo>)
    requires StrictlyAscending(s) && StrictlyAscending(t)
    requires forall x :: x in s <==> x in t
    ensures s == t
    decreases |s|
  {
    EmptyIffNoElements(s);
    EmptyIffNoElements(t);
    if s != [] {
      AscendingSameHead(s, t);
      AscendingSameTails(s, t);
      AscendingWithSameElementsEqual(s[1..], t[1..]);
      assert s == [s[0]] + s[1..] && t == [t[0]] + t[1..];
    }
  }

  /** The elements of a listing are exactly the stored entries, rebuilt as todos. */
  lemma ListingElements(storage: map<TodoId, PersistedTodo>, s: seq<Todo>, x: Todo)
    requires IsListing(storage, s)
    ensures x in s <==> x.id in storage && x.task == storage[x.id].task
  {
    if x.id in storage && x.task == storage[x.id].task {
      var i :| 0 <= i < |s| && s[i].id == x.id;
      assert s[i] == x;
    }
  }

  /** A storage has exactly one listing: `list` is determined by the store. */
  lemma ListingUnique(storage: map<TodoId, PersistedTodo>, s: seq<Todo>, t: seq<Todo>)
    requires IsListing(storage, s) && IsListing(storage, t)
    ensures s == t
  {
    forall x ensures x in s <==> x in t {
      ListingElements(storage, s, x);
      ListingElements(storage, t, x);
    }
    AscendingWithSameElementsEqual(s, t);
  }

  /** Creating under an id above every stored one appends the new todo to
      the listing. */
  lemma ListingExtend(storage: map<TodoId, PersistedTodo>, s: seq<Todo>, id: TodoId, task: string)
    requires IsListing(storage, s)
    requires forall k :: k in storage ==> IdLess(k, id)
    ensures IsListing(storage[id := PersistedTodo(task)], s + [Todo(id, task)])
  {
    var s' := s + [Todo(id, task)];
    var storage' := storage[id := PersistedTodo(task)];
    forall k | k in storage' ensures exists i :: 0 <= i < |s'| && s'[i].id == k {
      if k == id {
        assert s'[|s|].id == k;
      } else {
        var i :| 0 <= i < |s| && s[i].id == k;
        assert s'[i].id == k;
      }
    }
  }

  /** A created task is retrieved unchanged from a fresh repository. */
  method CreateThenGet(task: string) returns (created: Todo, retrieved: Result<Todo, TodoRepoErr>)
    ensures created == Todo(TodoId(1), task)
    ensures retrieved == Ok(created)
  {
    var repo := new InMemTodoRepo();
    created := repo.Create(TodoData(task));
    retrieved := repo.Get(created.id);
  }

  /** Creating the given tasks one by one in a fresh repository hands out
      ids 1, 2, ... in order, and listing afterwards yields exactly the
      created todos in creation order. */
  method ListAfterCreates(tasks: seq<string>) returns (created: seq<Todo>, listed: seq<Todo>)
    ensures |created| == |tasks|
    ensures forall i :: 0 <= i < |tasks| ==> created[i] == Todo(TodoId(i + 1), tasks[i])
    ensures listed == created
  {
    var repo := new InMemTodoRepo();
    created := [];
    var n := 0;
    while n < |tasks|
      invariant 0 <= n <= |tasks|
      invariant repo.Valid() && repo.lastId == n
      invariant |created| == n
      invariant forall i :: 0 <= i < n ==> created[i] == Todo(TodoId(i + 1), tasks[i])
      invariant IsListing(repo.storage, created)
    {
      ghost var before := repo.storage;
      var todo := repo.Create(TodoData(tasks[n]));
      ListingExtend(before, created, todo.id, tasks[n]);
      created := created + [todo];
      n := n + 1;
    }
    listed := repo.List();
    ListingUnique(repo.storage, listed, created);
  }

  /** Two creates, a delete of the first, a list, a get of the deleted id and
      a third create: ids are never handed out twice, a deleted todo is gone. */
  method CreateDeleteScenario()
    returns (first: Todo, second: Todo, listed: seq<Todo>, afterDelete: Result<Todo, TodoRepoErr>, third: Todo)
    ensures first == Todo(TodoId(1), "say hello")
    ensures second == Todo(TodoId(2), "say bye")
    ensures listed == [second]
    ensures afterDelete == Err(NotFound(TodoId(1)))
    ensures third.id == TodoId(3)
  {
    var repo := new InMemTodoRepo();
    first := repo.Create(TodoData("say hello"));
    second := repo.Create(TodoData("say bye"));
    var deleted := repo.Delete(first.id);
    listed := repo.List();
    assert repo.storage == map[second.id := PersistedTodo("say bye")];
    assert [second][0].id == second.id;
    ListingUnique(repo.storage, listed, [second]);
    afterDelete := repo.Get(first.id);
    third := repo.Create(TodoData("again"));
  }
}
