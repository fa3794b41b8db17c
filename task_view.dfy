/**
 The board renderer: three column containers, one per status, rebuilt from
 the whole collection on every render, and the visibility of the
 create-task modal.
 */
module TaskViews {
  import opened TaskModel

  /** The tasks of `ts` whose status is `s`, in the order of `ts`. */
  function OfStatus(ts: seq<Task>, s: Status): (r: seq<Task>)
    ensures |r| <= |ts|
    ensures forall i :: 0 <= i < |r| ==> r[i].status == s
  {
    if ts == [] then []
    else (if ts[0].status == s then [ts[0]] else []) + OfStatus(ts[1..], s)
  }

  /** The left-border accent class of a card. The fallback `border-gray-500` is never produced. */
  function BorderColor(s: Status): (c: string)
    ensures s == TODO ==> c == "border-blue-500"
    ensures s == DOING ==> c == "border-yellow-500"
    ensures s == DONE ==> c == "border-green-500"
    ensures c != "border-gray-500"
  {
    match s
    case TODO => "border-blue-500"
    case DOING => "border-yellow-500"
    case DONE => "border-green-500"
  }

  /** Distinct columns get distinct accents. */
  lemma BorderColorInjective(s: Status, t: Status)
    ensures BorderColor(s) == BorderColor(t) <==> s == t
  {
    if s != t {
      assert BorderColor(s)[7] != BorderColor(t)[7];
    }
  }

  /** Rendering a concatenation renders the parts one after the other. */
  lemma {:induction false} OfStatusAppend(a: seq<Task>, b: seq<Task>, s: Status)
    ensures OfStatus(a + b, s) == OfStatus(a, s) + OfStatus(b, s)
  {
    if a == [] {
      assert a + b == b;
    } else {
      assert (a + b)[1..] == a[1..] + b;
      OfStatusAppend(a[1..], b, s);
    }
  }

  /** A task lands in the container of status `s` exactly when it is in `ts` with status `s`. */
  lemma {:induction false} OfStatusMembers(ts: seq<Task>, s: Status, t: Task)
    ensures t in OfStatus(ts, s) <==> t in ts && t.status == s
  {
    if ts != [] {
      OfStatusMembers(ts[1..], s, t);
      assert t in ts <==> t == ts[0] || t in ts[1..];
    }
  }

  /** The three containers together hold every task once: their lengths sum to |ts|. */
  lemma {:induction false} PartitionSizes(ts: seq<Task>)
    ensures |OfStatus(ts, TODO)| + |OfStatus(ts, DOING)| + |OfStatus(ts, DONE)| == |ts|
  {
    if ts != [] {
      PartitionSizes(ts[1..]);
    }
  }

  /** The three containers together are a rearrangement of `ts`. */
  lemma {:induction false} PartitionIsPermutation(ts: seq<Task>)
    ensures multiset(OfStatus(ts, TODO)) + multiset(OfStatus(ts, DOING)) + multiset(OfStatus(ts, DONE)) == multiset(ts)
  {
    if ts != [] {
      var tail := ts[1..];
      PartitionIsPermutation(tail);
      assert ts == [ts[0]] + tail;
      assert multiset(ts) == multiset{ts[0]} + multiset(tail);
      var a, b, c := OfStatus(tail, TODO), OfStatus(tail, DOING), OfStatus(tail, DONE);
      match ts[0].status
      case TODO =>
        assert OfStatus(ts, TODO) == [ts[0]] + a && OfStatus(ts, DOING) == b && OfStatus(ts, DONE) == c;
        assert multiset([ts[0]] + a) == multiset{ts[0]} + multiset(a);
      case DOING =>
        assert OfStatus(ts, TODO) == a && OfStatus(ts, DOING) == [ts[0]] + b && OfStatus(ts, DONE) == c;
        assert multiset([ts[0]] + b) == multiset{ts[0]} + multiset(b);
      case DONE =>
        assert OfStatus(ts, TODO) == a && OfStatus(ts, DOING) == b && OfStatus(ts, DONE) == [ts[0]] + c;
        assert multiset([ts[0]] + c) == multiset{ts[0]} + multiset(c);
    }
  }

  /** A container keeps the order of `ts`: tasks of other statuses are simply skipped. */
  lemma {:induction false} OfStatusKeepsAll(ts: seq<Task>, s: Status)
    requires forall i :: 0 <= i < |ts| ==> ts[i].status == s
    ensures OfStatus(ts, s) == ts
  {
    if ts != [] {
      OfStatusKeepsAll(ts[1..], s);
      assert ts == [ts[0]] + ts[1..];
    }
  }

  class TaskView {
    /** The cards in `.todo-list`, `.doing-list` and `.done-list`. */
    var todoList: seq<Task>
    var doingList: seq<Task>
    var doneList: seq<Task>
    /** Whether `#task-modal` carries the `hidden` class. */
    var modalHidden: bool

    /** The containers start empty; the modal starts as the page has it. */
    constructor (initiallyHidden: bool)
      ensures todoList == [] && doingList == [] && doneList == []
      ensures modalHidden == initiallyHidden
    {
      todoList, doingList, doneList := [], [], [];
      modalHidden := initiallyHidden;
    }

    /** The container a status selects. */
    function Container(s: Status): seq<Task>
      reads this
    {
      match s
      case TODO => todoList
      case DOING => doingList
      case DONE => doneList
    }

    /** Appends one card to the container of its status; the other two and the modal are untouched. */
    method RenderTask(task: Task)
      modifies this
      ensures Container(task.status) == old(Container(task.status)) + [task]
      ensures forall s :: s != task.status ==> Container(s) == old(Container(s))
      ensures modalHidden == old(modalHidden)
    {
      match task.status
      case DOING => doingList := doingList + [task];
      case TODO => todoList := todoList + [task];
      case DONE => doneList := doneList + [task];
    }

    /**
     Clears the board and renders every task: each container then holds
     exactly the tasks of its status, in collection order, whatever the
     board showed before.
     */
    method RenderAll(tasks: seq<Task>)
      modifies this
      ensures forall s :: Container(s) == OfStatus(tasks, s)
      ensures modalHidden == old(modalHidden)
    {
      ClearAll();
      for i := 0 to |tasks|
        invariant forall s :: Container(s) == OfStatus(tasks[..i], s)
        invariant modalHidden == old(modalHidden)
      {
        assert tasks[..i + 1] == tasks[..i] + [tasks[i]];
        forall s ensures OfStatus(tasks[..i + 1], s) == OfStatus(tasks[..i], s) + OfStatus([tasks[i]], s) {
          OfStatusAppend(tasks[..i], [tasks[i]], s);
        }
        RenderTask(tasks[i]);
      }
      assert tasks[..|tasks|] == tasks;
    }

    /** Empties the three containers and leaves the modal as it is. */
    method ClearAll()
      modifies this
      ensures todoList == [] && doingList == [] && doneList == []
      ensures modalHidden == old(modalHidden)
    {
      todoList := [];
      doingList := [];
      doneList := [];
    }

    /** Removes `hidden` from the modal; the containers are untouched. */
    method ShowModal()
      modifies this`modalHidden
      ensures !modalHidden
    {
      modalHidden := false;
    }

    /** Adds `hidden` to the modal; the containers are untouched. */
    method HideModal()
      modifies this`modalHidden
      ensures modalHidden
    {
      modalHidden := true;
    }
  }

  /**
   Rendering a collection onto a board that already shows it changes
   nothing, so rendering the same collection twice is the same as once.
   */
  method RerenderChangesNothing(view: TaskView, tasks: seq<Task>)
    requires forall s :: view.Container(s) == OfStatus(tasks, s)
    modifies view
    ensures view.todoList == old(view.todoList) && view.doingList == old(view.doingList)
    ensures view.doneList == old(view.doneList) && view.modalHidden == old(view.modalHidden)
  {
    assert view.todoList == view.Container(TODO) == OfStatus(tasks, TODO);
    assert view.doingList == view.Container(DOING) == OfStatus(tasks, DOING);
    assert view.doneList == view.Container(DONE) == OfStatus(tasks, DONE);
    view.RenderAll(tasks);
    assert view.todoList == view.Container(TODO) == OfStatus(tasks, TODO);
    assert view.doingList == view.Container(DOING) == OfStatus(tasks, DOING);
    assert view.doneList == view.Container(DONE) == OfStatus(tasks, DONE);
  }

  /** After a render every task of the collection is in the container of its status and in no other. */
  lemma RenderedOnce(tasks: seq<Task>, t: Task, s: Status)
    requires t in tasks
    ensures t in OfStatus(tasks, s) <==> s == t.status
  {
    OfStatusMembers(tasks, s, t);
  }
}
