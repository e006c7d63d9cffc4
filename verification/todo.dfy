/**
 * The task service of the root variant: the client chooses a new task's id,
 * an id already in use is a conflict, titles are not checked, ids in the
 * path are signed decimals read by `Atoi`.
 */
module Todo {
  import opened Wrappers
  import opened Ints
  import Strconv
  import opened Http
  import opened Storage

  const BadRequest := "Request is not valid\n"

  /** The message `fmt.Sprintf(IDNotFound, id)`. */
  function IdNotFound(id: i64): string {
    "Task with ID " + Strconv.Itoa(id) + " was not found\n"
  }

  /** The message `fmt.Sprintf(IDExists, id)`. */
  function IdExists(id: i64): string {
    "Task with ID " + Strconv.Itoa(id) + " already exists\n"
  }

  datatype Task = Task(id: i64, title: string, completed: bool)

  /** A response document: one task, or a list of tasks. */
  datatype Doc = One(task: Task) | All(tasks: seq<Task>)

  /** Every record is stored under its own id, the table's primary key. */
  ghost predicate WellKeyed(rows: map<i64, Task>) {
    forall id :: id in rows ==> rows[id].id == id
  }

  /** The body is one JSON list holding each stored record once. */
  ghost predicate ListsStore(body: seq<Chunk<Doc>>, rows: map<i64, Task>) {
    |body| == 1 && body[0].Json? && body[0].doc.All? && multiset(body[0].doc.tasks) == Bag(rows)
  }

  class TodoServer {
    var db: Table<i64, Task>

    ghost predicate Valid()
      reads this, db
    {
      WellKeyed(db.rows)
    }

    /** A server over a freshly created, empty database. */
    constructor()
      ensures Valid() && fresh(db) && db.rows == map[]
    {
      db := new Table();
    }

    /** `dbIsExist`: the record stored under `id`, if there is one. */
    function DbIsExist(id: i64): (r: Option<Task>)
      requires Valid()
      reads this, db
      ensures r.Some? <==> id in db.rows
      ensures r.Some? ==> r.value == db.rows[id] && r.value.id == id
    {
      db.First(id)
    }

    /** GET /todo. A failed read still writes the (empty) list after the error. */
    method GetAllTasks(w: ResponseWriter<Doc>, findErr: Option<string>)
      requires Valid() && w.Unwritten()
      modifies w
      ensures w.wroteHeader
      ensures findErr.None? ==> w.code == StatusOK && ListsStore(w.body, db.rows)
      ensures findErr.Some? ==>
        w.code == StatusInternalServerError && w.body == [Text(findErr.value + "\n"), Json(All([]))]
    {
      var tasks, err := db.Find(findErr);
      if err.Some? {
        Error(w, err.value, StatusInternalServerError);
      }
      HttpResponse(w, All(tasks), StatusOK);
    }

    /** POST /todo. The decoded task is stored as it is, under the client's id. */
    method AddTask(w: ResponseWriter<Doc>, req: Option<Task>, createErr: Option<string>)
      requires Valid() && w.Unwritten()
      modifies db, w
      ensures Valid() && w.wroteHeader
      ensures req.None? ==>
        w.code == StatusBadRequest && w.body == [Text(BadRequest + "\n")] && db.rows == old(db.rows)
      ensures req.Some? ==>
        var t := req.value;
        if t.id in old(db.rows) then
          w.code == StatusConflict && w.body == [Text(IdExists(t.id) + "\n")] && db.rows == old(db.rows)
        else if createErr.Some? then
          w.code == StatusInternalServerError && w.body == [Text(createErr.value + "\n")] && db.rows == old(db.rows)
        else
          w.code == StatusCreated && w.body == [Json(One(t))] && db.rows == old(db.rows)[t.id := t]
    {
      if req.None? {
        Error(w, BadRequest, StatusBadRequest);
        return;
      }
      var newTask := req.value;
      var existing := DbIsExist(newTask.id);
      if existing.Some? {
        Error(w, IdExists(newTask.id), StatusConflict);
        return;
      }
      var err := db.Create(newTask.id, newTask, createErr);
      if err.Some? {
        Error(w, err.value, StatusInternalServerError);
        return;
      }
      HttpResponse(w, One(newTask), StatusCreated);
    }

    /** GET /todo/{id}. */
    method GetTaskByID(w: ResponseWriter<Doc>, pathId: string)
      requires Valid() && w.Unwritten()
      modifies w
      ensures w.wroteHeader
      ensures Strconv.Atoi(pathId).None? ==>
        w.code == StatusBadRequest && w.body == [Text(BadRequest + "\n")]
      ensures Strconv.Atoi(pathId).Some? ==>
        var id := Strconv.Atoi(pathId).value;
        if id in db.rows then
          w.code == StatusOK && w.body == [Json(One(db.rows[id]))]
        else
          w.code == StatusNotFound && w.body == [Text(IdNotFound(id) + "\n")]
    {
      var id := Strconv.Atoi(pathId);
      if id.None? {
        Error(w, BadRequest, StatusBadRequest);
        return;
      }
      var task := DbIsExist(id.value);
      if task.None? {
        Error(w, IdNotFound(id.value), StatusNotFound);
        return;
      }
      HttpResponse(w, One(task.value), StatusOK);
    }

    /** PATCH /todo. The body's id selects the record; only its title and completion flag are written. */
    method ModifyTask(w: ResponseWriter<Doc>, req: Option<Task>, saveErr: Option<string>)
      requires Valid() && w.Unwritten()
      modifies db, w
      ensures Valid() && w.wroteHeader
      ensures req.None? ==>
        w.code == StatusBadRequest && w.body == [Text(BadRequest + "\n")] && db.rows == old(db.rows)
      ensures req.Some? ==>
        var id := req.value.id;
        if id !in old(db.rows) then
          w.code == StatusNotFound && w.body == [Text(IdNotFound(id) + "\n")] && db.rows == old(db.rows)
        else
          var updated := old(db.rows)[id].(title := req.value.title, completed := req.value.completed);
          if saveErr.Some? then
            w.code == StatusInternalServerError && w.body == [Text(saveErr.value + "\n")] && db.rows == old(db.rows)
          else
            w.code == StatusOK && w.body == [Json(One(updated))] && db.rows == old(db.rows)[id := updated]
    {
      if req.None? {
        Error(w, BadRequest, StatusBadRequest);
        return;
      }
      var newTask := req.value;
      var found := DbIsExist(newTask.id);
      if found.None? {
        Error(w, IdNotFound(newTask.id), StatusNotFound);
        return;
      }
      var task := found.value.(title := newTask.title, completed := newTask.completed);
      var err := db.Save(task.id, task, saveErr);
      if err.Some? {
        Error(w, err.value, StatusInternalServerError);
        return;
      }
      HttpResponse(w, One(task), StatusOK);
    }

    /**
     * DELETE /todo/{id}. After writing 404 the handler goes on and asks the
     * database to delete a nil record; the status stays 404 and nothing is
     * removed, but the refusal's text is appended to the body.
     */
    method DeleteTaskByID(w: ResponseWriter<Doc>, pathId: string, deleteErr: Option<string>)
      requires Valid() && w.Unwritten()
      modifies db, w
      ensures Valid() && w.wroteHeader
      ensures Strconv.Atoi(pathId).None? ==>
        w.code == StatusBadRequest && w.body == [Text(BadRequest + "\n")] && db.rows == old(db.rows)
      ensures Strconv.Atoi(pathId).Some? ==>
        var id := Strconv.Atoi(pathId).value;
        if id !in old(db.rows) then
          w.code == StatusNotFound && db.rows == old(db.rows)
          && w.body == [Text(IdNotFound(id) + "\n"), Text(InvalidValue + "\n")]
        else if deleteErr.Some? then
          w.code == StatusInternalServerError && w.body == [Text(deleteErr.value + "\n")] && db.rows == old(db.rows)
        else
          w.code == StatusOK && w.body == [] && db.rows == old(db.rows) - {id}
    {
      var id := Strconv.Atoi(pathId);
      if id.None? {
        Error(w, BadRequest, StatusBadRequest);
        return;
      }
      var task := DbIsExist(id.value);
      if task.None? {
        Error(w, IdNotFound(id.value), StatusNotFound);
      }
      var key: Option<i64> := if task.None? then None else Some(task.value.id);
      var err := db.Delete(key, deleteErr);
      if err.Some? {
        Error(w, err.value, StatusInternalServerError);
        return;
      }
      w.WriteHeader(StatusOK);
    }
  }
}
