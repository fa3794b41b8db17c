/**
 The task repository: an ordered collection of tasks that is changed in
 place, written to storage after every change, and published to an ordered,
 duplicate-free list of observers.
 */
module TaskServices {
  import opened TaskModel

  /** Observers are compared by identity; an id stands for that identity. */
  type ObserverId = int

  /** One call of an observer's `update`, with the collection it was handed. */
  type Delivery = (ObserverId, seq<Task>)

  // ---------------------------------------------------------------------
  // Searching and splicing
  // ---------------------------------------------------------------------

  /** Some task in `ts` carries `id`. */
  predicate HasId(ts: seq<Task>, id: int)
  {
    exists j :: 0 <= j < |ts| && ts[j].id == id
  }

  /** `findIndex(task => task.id === id)`: the first position holding `id`, or -1. */
  function FindIndex(ts: seq<Task>, id: int): (r: int)
    ensures -1 <= r < |ts|
    ensures r == -1 <==> !HasId(ts, id)
    ensures 0 <= r ==> ts[r].id == id && !HasId(ts[..r], id)
  {
    if ts == [] then -1
    else if ts[0].id == id then 0
    else
      var k := FindIndex(ts[1..], id);
      if k == -1 then -1 else k + 1
  }

  /** `indexOf(x)`: the first position holding `x`, or -1. */
  function IndexOf<T(==)>(s: seq<T>, x: T): (r: int)
    ensures -1 <= r < |s|
    ensures r == -1 <==> x !in s
    ensures 0 <= r ==> s[r] == x && x !in s[..r]
  {
    if s == [] then -1
    else if s[0] == x then 0
    else
      var k := IndexOf(s[1..], x);
      assert k >= 0 ==> s[..k + 1] == [s[0]] + s[1..][..k];
      if k == -1 then -1 else k + 1
  }

  /** `splice(i, 1)`: the sequence without its element at `i`, the rest in order. */
  function RemoveAt<T>(s: seq<T>, i: nat): (r: seq<T>)
    requires i < |s|
    ensures |r| == |s| - 1
    ensures forall j :: 0 <= j < i ==> r[j] == s[j]
    ensures forall j :: i <= j < |r| ==> r[j] == s[j + 1]
    ensures multiset(r) + multiset{s[i]} == multiset(s)
  {
    assert s == s[..i] + [s[i]] + s[i + 1..];
    s[..i] + s[i + 1..]
  }

  /** The assignment `task.status = newStatus` to the task at `i`. */
  function WithStatusAt(ts: seq<Task>, i: nat, st: Status): (r: seq<Task>)
    requires i < |ts|
    ensures |r| == |ts|
    ensures forall j :: 0 <= j < |ts| && j != i ==> r[j] == ts[j]
    ensures r[i].status == st
    ensures r[i].id == ts[i].id && r[i].title == ts[i].title
    ensures r[i].description == ts[i].description && r[i].createdAt == ts[i].createdAt
  {
    ts[i := ts[i].(status := st)]
  }

  // ---------------------------------------------------------------------
  // Reference definitions of deletion and moving, and their agreement
  // with the index-based code
  // ---------------------------------------------------------------------

  /** Removing the first task with `id`, written as a structural recursion. */
  function DeleteFirst(ts: seq<Task>, id: int): seq<Task>
  {
    if ts == [] then []
    else if ts[0].id == id then ts[1..]
    else [ts[0]] + DeleteFirst(ts[1..], id)
  }

  /** Giving the first task with `id` the status `st`, written as a structural recursion. */
  function MoveFirst(ts: seq<Task>, id: int, st: Status): seq<Task>
  {
    if ts == [] then []
    else if ts[0].id == id then [ts[0].(status := st)] + ts[1..]
    else [ts[0]] + MoveFirst(ts[1..], id, st)
  }

  /** Removing the first task with `id`, when that task sits at `k`, is the splice at `k`. */
  lemma {:induction false} DeleteFirstAt(ts: seq<Task>, id: int, k: nat)
    requires k < |ts| && ts[k].id == id
    requires forall j :: 0 <= j < k ==> ts[j].id != id
    ensures DeleteFirst(ts, id) == ts[..k] + ts[k + 1..]
  {
    if k == 0 {
      assert ts[..0] + ts[1..] == ts[1..];
    } else {
      var tail := ts[1..];
      assert forall j :: 0 <= j < k - 1 ==> tail[j] == ts[j + 1];
      DeleteFirstAt(tail, id, k - 1);
      assert ts[..k] == [ts[0]] + tail[..k - 1];
      assert ts[k + 1..] == tail[k..];
    }
  }

  /** Removing the first task with an id no task has changes nothing. */
  lemma {:induction false} DeleteFirstAbsent(ts: seq<Task>, id: int)
    requires forall j :: 0 <= j < |ts| ==> ts[j].id != id
    ensures DeleteFirst(ts, id) == ts
  {
    if ts != [] {
      var tail := ts[1..];
      assert forall j :: 0 <= j < |tail| ==> tail[j] == ts[j + 1];
      DeleteFirstAbsent(tail, id);
      assert ts == [ts[0]] + tail;
    }
  }

  /** The splice at `findIndex` removes exactly the first task with `id`; without one, nothing. */
  lemma {:induction false} SpliceIsDeleteFirst(ts: seq<Task>, id: int)
    ensures FindIndex(ts, id) == -1 ==> DeleteFirst(ts, id) == ts
    ensures FindIndex(ts, id) >= 0 ==> ts[..FindIndex(ts, id)] + ts[FindIndex(ts, id) + 1..] == DeleteFirst(ts, id)
  {
    var k := FindIndex(ts, id);
    if k == -1 {
      DeleteFirstAbsent(ts, id);
    } else {
      assert forall j :: 0 <= j < k ==> ts[j].id != id by {
        forall j | 0 <= j < k ensures ts[j].id != id {
          assert ts[..k][j] == ts[j];
        }
      }
      DeleteFirstAt(ts, id, k);
    }
  }

  /** The status write at `findIndex` is a move of exactly the first task with `id`; without one, nothing. */
  lemma {:induction false} StatusWriteIsMoveFirst(ts: seq<Task>, id: int, st: Status)
    ensures FindIndex(ts, id) == -1 ==> MoveFirst(ts, id, st) == ts
    ensures FindIndex(ts, id) >= 0 ==>
      ts[FindIndex(ts, id) := ts[FindIndex(ts, id)].(status := st)] == MoveFirst(ts, id, st)
  {
    if ts == [] {
    } else if ts[0].id == id {
      assert ts[0 := ts[0].(status := st)] == [ts[0].(status := st)] + ts[1..];
    } else {
      var tail := ts[1..];
      StatusWriteIsMoveFirst(tail, id, st);
      var k := FindIndex(tail, id);
      if k >= 0 {
        assert ts[k + 1 := ts[k + 1].(status := st)] == [ts[0]] + tail[k := tail[k].(status := st)];
      } else {
        assert ts == [ts[0]] + tail;
      }
    }
  }

  /**
   Deleting a present id shortens the collection by one, keeps every task
   before the first match and every task after it in order, and loses
   exactly one task with that id.
   */
  lemma {:induction false} DeleteFirstRemovesOne(ts: seq<Task>, id: int)
    requires HasId(ts, id)
    ensures var r := DeleteFirst(ts, id); var k := FindIndex(ts, id);
      && |r| == |ts| - 1
      && r == ts[..k] + ts[k + 1..]
      && ts[k].id == id
      && multiset(r) + multiset{ts[k]} == multiset(ts)
  {
    var k := FindIndex(ts, id);
    SpliceIsDeleteFirst(ts, id);
    assert RemoveAt(ts, k) == DeleteFirst(ts, id);
  }

  /** Moving never changes the length, the order of ids, or any field but one status. */
  lemma {:induction false} MoveFirstKeepsShape(ts: seq<Task>, id: int, st: Status)
    ensures |MoveFirst(ts, id, st)| == |ts|
    ensures forall j :: 0 <= j < |ts| ==> MoveFirst(ts, id, st)[j] == ts[j].(status := MoveFirst(ts, id, st)[j].status)
    ensures forall j :: 0 <= j < |ts| && MoveFirst(ts, id, st)[j] != ts[j] ==> j == FindIndex(ts, id)
  {
    StatusWriteIsMoveFirst(ts, id, st);
  }

  // ---------------------------------------------------------------------
  // The observer list
  // ---------------------------------------------------------------------

  /** No observer appears twice. */
  predicate NoDups<T(==)>(s: seq<T>)
  {
    forall i, j :: 0 <= i < j < |s| ==> s[i] != s[j]
  }

  /** The list after `attach(o)`: `includes` guards a `push`. */
  function Attached(obs: seq<ObserverId>, o: ObserverId): (r: seq<ObserverId>)
    ensures NoDups(obs) ==> NoDups(r)
    ensures forall x :: x in r <==> x in obs || x == o
    ensures |r| == |obs| + (if o in obs then 0 else 1)
    ensures r[..|obs|] == obs
  {
    if o in obs then obs else obs + [o]
  }

  /** The list after `detach(o)`: `indexOf` guards a `splice`. */
  function Detached(obs: seq<ObserverId>, o: ObserverId): (r: seq<ObserverId>)
    ensures NoDups(obs) ==> NoDups(r)
    ensures NoDups(obs) ==> forall x :: x in r <==> x in obs && x != o
    ensures |r| == |obs| - (if o in obs then 1 else 0)
    ensures o !in obs ==> r == obs
    ensures o in obs ==> r == obs[..IndexOf(obs, o)] + obs[IndexOf(obs, o) + 1..]
  {
    var k := IndexOf(obs, o);
    if k == -1 then obs
    else
      var r := RemoveAt(obs, k);
      assert forall x :: x in r ==> x in obs by {
        forall x | x in r ensures x in obs {
          var j :| 0 <= j < |r| && r[j] == x;
          if j < k { assert obs[j] == x; } else { assert obs[j + 1] == x; }
        }
      }
      assert NoDups(obs) ==> forall j :: 0 <= j < |r| ==> r[j] != o by {
        if NoDups(obs) {
          forall j | 0 <= j < |r| ensures r[j] != o {
            if j < k { assert r[j] == obs[j]; } else { assert r[j] == obs[j + 1]; }
          }
        }
      }
      assert forall x :: x in obs && x != o ==> x in r by {
        forall x | x in obs && x != o ensures x in r {
          var j :| 0 <= j < |obs| && obs[j] == x;
          if j < k { assert r[j] == x; } else { assert j != k; assert r[j - 1] == x; }
        }
      }
      r
  }

  /** What one walk of `notify` over `obs` delivers: each observer, in order, handed `ts`. */
  function Broadcast(obs: seq<ObserverId>, ts: seq<Task>): (log: seq<Delivery>)
    ensures |log| == |obs|
    ensures forall i :: 0 <= i < |obs| ==> log[i] == (obs[i], ts)
  {
    seq(|obs|, i requires 0 <= i < |obs| => (obs[i], ts))
  }

  /** How many deliveries in `log` went to `o`. */
  function Receipts(log: seq<Delivery>, o: ObserverId): nat
  {
    if log == [] then 0
    else (if log[0].0 == o then 1 else 0) + Receipts(log[1..], o)
  }

  /**
   One notification reaches every attached observer exactly once and no one
   else, provided the list has no duplicates (which `attach` guarantees).
   */
  lemma {:induction false} BroadcastReachesEachOnce(obs: seq<ObserverId>, ts: seq<Task>, o: ObserverId)
    requires NoDups(obs)
    ensures Receipts(Broadcast(obs, ts), o) == if o in obs then 1 else 0
  {
    if obs != [] {
      var log := Broadcast(obs, ts);
      assert log[1..] == Broadcast(obs[1..], ts);
      assert NoDups(obs[1..]);
      assert forall j :: 0 <= j < |obs[1..]| ==> obs[1..][j] != obs[0] by {
        forall j | 0 <= j < |obs[1..]| ensures obs[1..][j] != obs[0] {
          assert obs[1..][j] == obs[j + 1];
        }
      }
      assert o in obs <==> o == obs[0] || o in obs[1..];
      BroadcastReachesEachOnce(obs[1..], ts, o);
    }
  }

  /**
   After `attach(o)` a notification reaches `o` exactly once; after
   `detach(o)` it reaches `o` not at all.
   */
  lemma AttachDetachDelivery(obs: seq<ObserverId>, ts: seq<Task>, o: ObserverId)
    requires NoDups(obs)
    ensures Receipts(Broadcast(Attached(obs, o), ts), o) == 1
    ensures Receipts(Broadcast(Detached(obs, o), ts), o) == 0
  {
    BroadcastReachesEachOnce(Attached(obs, o), ts, o);
    BroadcastReachesEachOnce(Detached(obs, o), ts, o);
  }

  // ---------------------------------------------------------------------
  // The repository
  // ---------------------------------------------------------------------

  class TaskService {
    /** `tasksArray`, in insertion order. */
    var tasks: seq<Task>
    /** `observers`, in attachment order. */
    var observers: seq<ObserverId>
    /** The value last written under the storage key, if any. */
    ghost var persisted: Option<seq<Task>>
    /** Every `update` call made so far, in order. */
    ghost var deliveries: seq<Delivery>

    /**
     The observer list has no duplicates, and loading the storage key now
     would give back the in-memory collection.
     */
    ghost predicate Valid()
      reads this
    {
      NoDups(observers) && LoadOrEmpty(persisted) == tasks
    }

    /** `stored` is what the storage gateway's `load` returns for the key. */
    constructor (stored: Option<seq<Task>>)
      ensures Valid()
      ensures tasks == LoadOrEmpty(stored) && persisted == stored
      ensures observers == [] && deliveries == []
    {
      tasks := LoadOrEmpty(stored);
      observers := [];
      persisted := stored;
      deliveries := [];
    }

    /** Writes the collection under the storage key (assumed to succeed). */
    method Save()
      modifies this`persisted
      ensures persisted == Some(tasks)
    {
      persisted := Some(tasks);
    }

    /** Calls `update(tasks)` on each observer in attachment order. */
    method Notify()
      modifies this`deliveries
      ensures deliveries == old(deliveries) + Broadcast(observers, tasks)
    {
      for i := 0 to |observers|
        invariant deliveries == old(deliveries) + Broadcast(observers[..i], tasks)
      {
        assert Broadcast(observers[..i + 1], tasks) == Broadcast(observers[..i], tasks) + [(observers[i], tasks)];
        deliveries := deliveries + [(observers[i], tasks)];
      }
      assert observers[..|observers|] == observers;
    }

    /** Appends a task created at time `now`, then saves and notifies. */
    method AddTask(title: string, description: string, status: Status, now: int)
      requires Valid()
      modifies this
      ensures Valid()
      ensures tasks == old(tasks) + [Task(now, title, description, status, now)]
      ensures observers == old(observers)
      ensures persisted == Some(tasks)
      ensures deliveries == old(deliveries) + Broadcast(observers, tasks)
    {
      tasks := tasks + [Task(now, title, description, status, now)];
      Save();
      Notify();
    }

    /** Removes the first task with `id`; with none, changes nothing and neither saves nor notifies. */
    method DeleteTask(id: int)
      requires Valid()
      modifies this
      ensures Valid()
      ensures old(FindIndex(tasks, id)) == -1 ==> unchanged(this)
      ensures old(FindIndex(tasks, id)) >= 0 ==>
        && tasks == old(DeleteFirst(tasks, id))
        && tasks == old(tasks[..FindIndex(tasks, id)] + tasks[FindIndex(tasks, id) + 1..])
        && persisted == Some(tasks)
        && deliveries == old(deliveries) + Broadcast(observers, tasks)
      ensures observers == old(observers)
    {
      var index := FindIndex(tasks, id);
      if index != -1 {
        SpliceIsDeleteFirst(tasks, id);
        tasks := RemoveAt(tasks, index);
        Save();
        Notify();
      }
    }

    /** Empties the collection, then saves and notifies even if it was already empty. */
    method ClearTasks()
      requires Valid()
      modifies this
      ensures Valid()
      ensures tasks == [] && persisted == Some([])
      ensures observers == old(observers)
      ensures deliveries == old(deliveries) + Broadcast(observers, [])
    {
      tasks := [];
      Save();
      Notify();
    }

    /** A copy of the collection; nothing changes. */
    method GetAllTasks() returns (r: seq<Task>)
      ensures r == tasks
    {
      r := tasks;
    }

    /** Sets the status of the first task with `id`; with none, changes nothing and neither saves nor notifies. */
    method MoveTask(id: int, newStatus: Status)
      requires Valid()
      modifies this
      ensures Valid()
      ensures old(FindIndex(tasks, id)) == -1 ==> unchanged(this)
      ensures old(FindIndex(tasks, id)) >= 0 ==>
        && tasks == old(MoveFirst(tasks, id, newStatus))
        && tasks == old(tasks[FindIndex(tasks, id) := tasks[FindIndex(tasks, id)].(status := newStatus)])
        && persisted == Some(tasks)
        && deliveries == old(deliveries) + Broadcast(observers, tasks)
      ensures observers == old(observers)
    {
      var index := FindIndex(tasks, id);
      if index != -1 {
        StatusWriteIsMoveFirst(tasks, id, newStatus);
        tasks := WithStatusAt(tasks, index, newStatus);
        Save();
        Notify();
      }
    }

    /** Registers `observer` at the end of the list unless it is already there. */
    method Attach(observer: ObserverId)
      requires Valid()
      modifies this`observers
      ensures Valid()
      ensures observers == Attached(old(observers), observer)
      ensures observer in old(observers) ==> observers == old(observers)
      ensures observer !in old(observers) ==> observers == old(observers) + [observer]
    {
      var ifExist := observer in observers;
      if !ifExist {
        observers := observers + [observer];
      }
    }

    /** Unregisters `observer` if it is in the list. */
    method Detach(observer: ObserverId)
      requires Valid()
      modifies this`observers
      ensures Valid()
      ensures observers == Detached(old(observers), observer)
      ensures observer !in observers
      ensures forall x :: x in observers <==> x in old(observers) && x != observer
      ensures observer !in old(observers) ==> observers == old(observers)
      ensures observer in old(observers) ==>
        observers == old(observers[..IndexOf(observers, observer)] + observers[IndexOf(observers, observer) + 1..])
    {
      var observerIndex := IndexOf(observers, observer);
      if observerIndex != -1 {
        observers := RemoveAt(observers, observerIndex);
      }
    }
  }

  /**
   The collection starts empty; one task is added, moved to DOING and
   deleted. Each step is visible through `getAllTasks`, and at the end both
   the collection and the stored value are empty.
   */
  method AddMoveDeleteScenario(now: int) returns (afterAdd: seq<Task>, afterMove: seq<Task>, afterDelete: seq<Task>, ghost stored: Option<seq<Task>>)
    ensures afterAdd == [Task(now, "Buy milk", "2%", TODO, now)]
    ensures afterMove == [Task(now, "Buy milk", "2%", DOING, now)]
    ensures afterDelete == [] && stored == Some([])
  {
    var service := new TaskService(None);
    service.AddTask("Buy milk", "2%", TODO, now);
    afterAdd := service.GetAllTasks();
    service.MoveTask(now, DOING);
    afterMove := service.GetAllTasks();
    service.DeleteTask(now);
    afterDelete := service.GetAllTasks();
    stored := service.persisted;
  }
}
