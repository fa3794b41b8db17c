/**
 The task record and its status, shared by the repository and the board
 renderer.
 */
module TaskModel {

  /** The three columns of the board; the enumeration is closed. */
  datatype Status = TODO | DOING | DONE

  /** A task card. `id` and `createdAt` are both clock readings in milliseconds. */
  datatype Task = Task(id: int, title: string, description: string, status: Status, createdAt: int)

  /** What the storage gateway's `load` hands back: a stored value or nothing. */
  datatype Option<T> = None | Some(value: T)

  /** The repository's initial collection: the stored one, or empty when nothing is stored. */
  function LoadOrEmpty(stored: Option<seq<Task>>): seq<Task>
  {
    match stored
    case None => []
    case Some(v) => v
  }
}
