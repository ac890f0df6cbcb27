/** Values that travel between the browser client and the task server as JSON:
    the task object and the small helpers both sides use to talk about lists of them. */
module Tasks {

  /** A JSON field that may be absent (or null). */
  datatype Option<T> = None | Some(value: T)

  /** A task as the server returns it: `{id, title, completed}`. */
  datatype Task = Task(id: int, title: string, completed: bool)

  /** The ids carried by a list of tasks. */
  function IdSet(ts: seq<Task>): set<int>
  {
    set i | 0 <= i < |ts| :: ts[i].id
  }

  /** No id occurs twice in the list. */
  predicate DistinctIds(ts: seq<Task>)
  {
    forall i, j :: 0 <= i < j < |ts| ==> ts[i].id != ts[j].id
  }

  lemma IdSetSnoc(ts: seq<Task>, t: Task)
    ensures IdSet(ts + [t]) == IdSet(ts) + {t.id}
  {
    var us := ts + [t];
    assert forall i :: 0 <= i < |ts| ==> us[i] == ts[i];
    assert us[|ts|] == t;
  }
}
