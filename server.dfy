/** The REST server's `tasks` table with its AUTOINCREMENT counter, and the four
    route handlers (list, create, update, delete) over it. */
module Server {
  import opened Tasks

  /** A row of the table, apart from its id. */
  datatype Row = Row(title: string, completed: bool)

  /** The table: the rows by id, and the largest id ever handed out (the value the
      AUTOINCREMENT sequence holds; 0 before the first insert). */
  datatype Table = Table(rows: map<int, Row>, lastId: nat)

  /** Every row's id was handed out by the counter. */
  predicate Valid(db: Table)
  {
    forall k :: k in db.rows ==> 1 <= k <= db.lastId
  }

  /** The create body the server reads: a title only. */
  datatype TaskCreate = TaskCreate(title: string)

  /** The update body the server reads: both fields optional. */
  datatype TaskUpdate = TaskUpdate(title: Option<string>, completed: Option<bool>)

  /** A handler's answer: a body, or an HTTP error with its status and detail. */
  datatype Response<T> = Ok(value: T) | Error(status: nat, detail: string)

  /** The table after a handler ran, and what it answered. */
  datatype Outcome<T> = Outcome(db: Table, response: Response<T>)

  function NotFound<T>(): Response<T>
  {
    Error(404, "Task not found")
  }

  /** The dict built from a row: `{id, title, completed}`. */
  function TaskOf(id: int, row: Row): (t: Task)
    ensures t.id == id && t.title == row.title && t.completed == row.completed
  {
    Task(id, row.title, row.completed)
  }

  // ---- get_tasks ----------------------------------------------------------

  /** The rows with ids `1..n`, as task dicts in ascending id order. */
  function Listing(rows: map<int, Row>, n: nat): (ts: seq<Task>)
    ensures forall i :: 0 <= i < |ts| ==> 1 <= ts[i].id <= n && ts[i].id in rows && ts[i] == TaskOf(ts[i].id, rows[ts[i].id])
    ensures forall i, j :: 0 <= i < j < |ts| ==> ts[i].id < ts[j].id
    ensures IdSet(ts) == set k | k in rows && 1 <= k <= n
    decreases n
  {
    if n == 0 then []
    else
      var front := Listing(rows, n - 1);
      if n in rows then
        IdSetSnoc(front, TaskOf(n, rows[n]));
        front + [TaskOf(n, rows[n])]
      else front
  }

  /** `SELECT * FROM tasks` as a list of dicts: every row exactly once, as the task it
      stores, in id order (the scan order of the table). */
  function List(db: Table): (ts: seq<Task>)
    ensures DistinctIds(ts)
    ensures forall i :: 0 <= i < |ts| ==> ts[i].id in db.rows && ts[i] == TaskOf(ts[i].id, db.rows[ts[i].id])
    ensures Valid(db) ==> IdSet(ts) == db.rows.Keys
  {
    Listing(db.rows, db.lastId)
  }

  // ---- create_task --------------------------------------------------------

  /** The insert: a new row under the id after the counter, with `completed` at its
      default of false; the counter advances; the answer carries the new id. */
  function Create(db: Table, req: TaskCreate): (r: Outcome<Task>)
    ensures r.response == Ok(Task(db.lastId + 1, req.title, false))
    ensures r.db.lastId == db.lastId + 1
    ensures r.db.rows.Keys == db.rows.Keys + {db.lastId + 1}
    ensures r.db.rows[db.lastId + 1] == Row(req.title, false)
    ensures Valid(db) ==> forall k :: k in db.rows ==> k < db.lastId + 1 && r.db.rows[k] == db.rows[k]
    ensures Valid(db) ==> Valid(r.db)
  {
    var id := db.lastId + 1;
    Outcome(Table(db.rows[id := Row(req.title, false)], id), Ok(Task(id, req.title, false)))
  }

  // ---- update_task --------------------------------------------------------

  /** `task_update.title or existing['title']`: an absent or empty title keeps the old one. */
  function MergeTitle(update: Option<string>, current: string): (t: string)
    ensures update.None? || update.value == [] ==> t == current
    ensures update.Some? && update.value != [] ==> t == update.value
  {
    if update.Some? && update.value != [] then update.value else current
  }

  /** An absent `completed` keeps the old flag; a present one, `false` included, replaces it. */
  function MergeCompleted(update: Option<bool>, current: bool): (c: bool)
    ensures update.None? ==> c == current
    ensures update.Some? ==> c == update.value
  {
    if update.Some? then update.value else current
  }

  /** The stored row after an update: each field present in the update (a title
      only when non-empty) replaces the row's, the others stay. */
  function Merge(row: Row, upd: TaskUpdate): (r: Row)
    ensures upd.completed.Some? ==> r.completed == upd.completed.value
    ensures upd.completed.None? ==> r.completed == row.completed
    ensures upd.title.Some? && upd.title.value != [] ==> r.title == upd.title.value
    ensures upd.title.None? || upd.title.value == [] ==> r.title == row.title
  {
    Row(MergeTitle(upd.title, row.title), MergeCompleted(upd.completed, row.completed))
  }

  /** Applying the same update twice changes nothing more; an update with neither
      field changes nothing; a non-empty title never becomes empty. */
  lemma MergeProperties(row: Row, upd: TaskUpdate)
    ensures Merge(Merge(row, upd), upd) == Merge(row, upd)
    ensures Merge(row, TaskUpdate(None, None)) == row
    ensures row.title != [] ==> Merge(row, upd).title != []
  {
  }

  /** The update: a missing id is a 404 with the table as it was; otherwise only that
      row changes, to the merge of its old fields with the update, and the answer is
      the row as stored. */
  function Modify(db: Table, id: int, upd: TaskUpdate): (r: Outcome<Task>)
    ensures r.response.Error? <==> id !in db.rows
    ensures id !in db.rows ==> r.db == db && r.response == NotFound()
    ensures r.db.lastId == db.lastId && r.db.rows.Keys == db.rows.Keys
    ensures forall k :: k in db.rows && k != id ==> r.db.rows[k] == db.rows[k]
    ensures id in db.rows ==> r.db.rows[id] == Merge(db.rows[id], upd)
    ensures id in db.rows ==> r.response == Ok(TaskOf(id, r.db.rows[id]))
    ensures Valid(db) ==> Valid(r.db)
  {
    if id !in db.rows then Outcome(db, NotFound())
    else
      var row := Merge(db.rows[id], upd);
      Outcome(db.(rows := db.rows[id := row]), Ok(TaskOf(id, row)))
  }

  // ---- delete_task --------------------------------------------------------

  /** The delete: a missing id is a 404 with the table as it was; otherwise exactly
      that row goes, every other row stays, and the counter does not move back. */
  function Remove(db: Table, id: int): (r: Outcome<string>)
    ensures r.response.Error? <==> id !in db.rows
    ensures id !in db.rows ==> r.db == db && r.response == NotFound()
    ensures id in db.rows ==> r.response == Ok("Task deleted")
    ensures r.db.lastId == db.lastId
    ensures r.db.rows.Keys == db.rows.Keys - {id}
    ensures forall k :: k in r.db.rows ==> r.db.rows[k] == db.rows[k]
    ensures Valid(db) ==> Valid(r.db)
  {
    if id !in db.rows then Outcome(db, NotFound())
    else Outcome(db.(rows := db.rows - {id}), Ok("Task deleted"))
  }

  // ---- runs of requests ---------------------------------------------------

  /** A request to one of the four routes. */
  datatype Request = Get | Post(create: TaskCreate) | Put(id: int, update: TaskUpdate) | Delete(id: int)

  /** The table after one request. */
  function Handle(db: Table, req: Request): Table
  {
    match req
    case Get => db
    case Post(body) => Create(db, body).db
    case Put(id, body) => Modify(db, id, body).db
    case Delete(id) => Remove(db, id).db
  }

  /** The table after a run of requests handled one after another. */
  function Run(db: Table, reqs: seq<Request>): Table
    decreases |reqs|
  {
    if reqs == [] then db else Run(Handle(db, reqs[0]), reqs[1..])
  }

  /** The ids the creates of a run hand out. */
  function Issued(db: Table, reqs: seq<Request>): set<int>
    decreases |reqs|
  {
    if reqs == [] then {}
    else
      var here := if reqs[0].Post? then {db.lastId + 1} else {};
      here + Issued(Handle(db, reqs[0]), reqs[1..])
  }

  /** Over any run the counter never goes back and stays above every id the table
      held before and every id the run handed out; so the next create's id was never
      used before, even for a row created and deleted since. */
  lemma {:induction false} IdsNeverReused(db: Table, reqs: seq<Request>, body: TaskCreate)
    requires Valid(db)
    ensures Valid(Run(db, reqs))
    ensures db.lastId <= Run(db, reqs).lastId
    ensures forall k :: k in Issued(db, reqs) ==> db.lastId < k <= Run(db, reqs).lastId
    ensures var id := Create(Run(db, reqs), body).response.value.id;
      id !in db.rows && id !in Issued(db, reqs) && id !in Run(db, reqs).rows
    decreases |reqs|
  {
    if reqs != [] {
      IdsNeverReused(Handle(db, reqs[0]), reqs[1..], body);
    }
  }

  /** Deleting a row and then creating one never brings its id back. */
  lemma DeleteThenCreate(db: Table, id: int, body: TaskCreate)
    requires Valid(db) && id in db.rows
    ensures Create(Remove(db, id).db, body).response.value.id != id
  {
  }

  // ---- the handlers over the database -------------------------------------

  /** The database file: the `tasks` table and its AUTOINCREMENT counter, changed in
      place by the create, update and delete routes. */
  class TaskApp {
    var rows: map<int, Row>
    var lastId: nat

    function State(): Table
      reads this
    {
      Table(rows, lastId)
    }

    /** The table as first created: empty, counter at 0. */
    constructor ()
      ensures State() == Table(map[], 0) && Valid(State())
    {
      rows := map[];
      lastId := 0;
    }

    /** `GET /api/tasks`. */
    method GetTasks() returns (ts: seq<Task>)
      ensures ts == List(State())
      ensures DistinctIds(ts)
      ensures Valid(State()) ==> IdSet(ts) == rows.Keys
      ensures forall i :: 0 <= i < |ts| ==>
        (ts[i].id in rows && ts[i].title == rows[ts[i].id].title && ts[i].completed == rows[ts[i].id].completed)
    {
      ts := List(State());
    }

    /** `POST /api/tasks`: insert the title, take the new row id, answer with
        `completed: false`. */
    method CreateTask(task: TaskCreate) returns (r: Task)
      requires Valid(State())
      modifies this
      ensures Valid(State())
      ensures State() == Create(old(State()), task).db
      ensures Ok(r) == Create(old(State()), task).response
    {
      var taskId := lastId + 1;
      rows := rows[taskId := Row(task.title, false)];
      lastId := taskId;
      r := Task(taskId, task.title, false);
    }

    /** `PUT /api/tasks/{task_id}`: fetch the row, 404 if none, merge, write back,
        answer with the merged fields. */
    method UpdateTask(taskId: int, taskUpdate: TaskUpdate) returns (r: Response<Task>)
      requires Valid(State())
      modifies this
      ensures Valid(State())
      ensures Outcome(State(), r) == Modify(old(State()), taskId, taskUpdate)
    {
      if taskId !in rows {
        return NotFound();
      }
      var existing := rows[taskId];
      var title := MergeTitle(taskUpdate.title, existing.title);
      var completed := MergeCompleted(taskUpdate.completed, existing.completed);
      rows := rows[taskId := Row(title, completed)];
      r := Ok(Task(taskId, title, completed));
    }

    /** `DELETE /api/tasks/{task_id}`: delete the row, 404 if no row was affected. */
    method DeleteTask(taskId: int) returns (r: Response<string>)
      requires Valid(State())
      modifies this
      ensures Valid(State())
      ensures Outcome(State(), r) == Remove(old(State()), taskId)
    {
      var rowcount := if taskId in rows then 1 else 0;
      rows := rows - {taskId};
      if rowcount == 0 {
        return NotFound();
      }
      r := Ok("Task deleted");
    }
  }
}
