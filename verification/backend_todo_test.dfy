/**
 * The scenarios of the backend's test file, run against the backend
 * variant, and two properties over every store: a created task can be
 * fetched by the id in its response, and a deleted task leaves the list.
 */
module BackendTodoTest {
  import opened Wrappers
  import opened Ints
  import Strconv
  import opened Http
  import opened Storage
  import opened BackendTodo

  /** A server whose database holds `seed`. */
  method ServerWith(seed: map<u64, Task>) returns (app: TodoServer)
    requires WellKeyed(seed)
    ensures fresh(app) && fresh(app.db) && app.Valid() && app.db.rows == seed
  {
    app := new TodoServer();
    app.db.rows := seed;
  }

  /** Fetching the id a successful create assigned returns the created task. */
  method CreateThenGet(seed: map<u64, Task>, req: Task, nowMillis: i64)
    returns (addStatus: int, getStatus: int, got: seq<Chunk<Doc>>)
    requires WellKeyed(seed)
    ensures addStatus == StatusCreated <==> req.title != "" && ToUint64(nowMillis) !in seed
    ensures addStatus == StatusCreated ==>
      getStatus == StatusOK && got == [Json(One(Task(ToUint64(nowMillis), req.title, req.completed)))]
  {
    var app := ServerWith(seed);
    var w := new ResponseWriter<Doc>();
    app.AddTask(w, Some(req), nowMillis, None);
    addStatus := w.code;
    var id := ToUint64(nowMillis);
    Strconv.ParseUintFormat(id as int);
    var w2 := new ResponseWriter<Doc>();
    app.GetTaskByID(w2, Strconv.FormatUint(id as int));
    getStatus, got := w2.code, w2.body;
  }

  /** Deleting a stored id succeeds; the list then lacks that id and is one shorter. */
  method DeleteThenList(seed: map<u64, Task>, id: u64) returns (delStatus: int, listed: seq<Task>)
    requires WellKeyed(seed) && id in seed
    ensures delStatus == StatusOK
    ensures |listed| == |seed| - 1
    ensures forall t :: t in listed ==> t.id != id && t.id in seed && seed[t.id] == t
  {
    var app := ServerWith(seed);
    var w := new ResponseWriter<Doc>();
    Strconv.ParseUintFormat(id as int);
    app.DeleteTaskByID(w, Strconv.FormatUint(id as int), None);
    delStatus := w.code;
    var w2 := new ResponseWriter<Doc>();
    app.GetAllTasks(w2, None);
    listed := w2.body[0].doc.tasks;
    var rest := seed - {id};
    assert rest.Keys == seed.Keys - {id};
    BagSize(rest);
    forall t | t in listed ensures t.id != id && t.id in seed && seed[t.id] == t {
      assert t in multiset(listed);
      BagHas(rest, t);
    }
  }

  /** "Get all todo tasks": one record created directly is listed. */
  method TestGetAllTasks() returns (listed: seq<Task>)
    ensures multiset(listed) == multiset{Task(1, "Clean the room", false)}
  {
    var app := new TodoServer();
    var _ := app.db.Create(1, Task(1, "Clean the room", false), None);
    var w := new ResponseWriter<Doc>();
    app.GetAllTasks(w, None);
    listed := w.body[0].doc.tasks;
    BagInsert(map[], 1 as u64, Task(1, "Clean the room", false));
  }

  /** "Add new task": the response carries the clock's id, so the expected id 1 comes back only at time 1. */
  method TestAddTask(nowMillis: i64) returns (status: int, got: seq<Chunk<Doc>>)
    ensures status == StatusCreated
    ensures got == [Json(One(Task(ToUint64(nowMillis), "Clean the room", false)))]
  {
    var app := new TodoServer();
    var w := new ResponseWriter<Doc>();
    app.AddTask(w, Some(Task(1, "Clean the room", false)), nowMillis, None);
    status, got := w.code, w.body;
  }

  /**
   * "try to add existing element": this variant never answers 409. The body's
   * id 1 is replaced by the clock, so the add succeeds, or fails with 500 when
   * the clock reads exactly 1.
   */
  method TestAddExistingElement(nowMillis: i64) returns (status: int)
    ensures status != StatusConflict
    ensures ToUint64(nowMillis) != 1 ==> status == StatusCreated
    ensures ToUint64(nowMillis) == 1 ==> status == StatusInternalServerError
  {
    var app := new TodoServer();
    var _ := app.db.Create(1, Task(1, "Clean the room", false), None);
    var w := new ResponseWriter<Doc>();
    app.AddTask(w, Some(Task(1, "study", false)), nowMillis, None);
    status := w.code;
  }

  /** "Add new task with invalid json syntax" and "... with invalid fields". */
  method TestAddInvalid(nowMillis: i64) returns (syntaxStatus: int, fieldsStatus: int)
    ensures syntaxStatus == StatusBadRequest && fieldsStatus == StatusBadRequest
  {
    var app := new TodoServer();
    var w := new ResponseWriter<Doc>();
    app.AddTask(w, None, nowMillis, None);
    syntaxStatus := w.code;
    var w2 := new ResponseWriter<Doc>();
    app.AddTask(w2, Some(Task(0, "", false)), nowMillis, None);
    fieldsStatus := w2.code;
  }

  /**
   * "Modify existing task": the patch names id 1, but the task was stored
   * under the clock's id, so unless the clock read 1 the patch is not found
   * and the list still holds the original title.
   */
  method TestModifyExistingTask(nowMillis: i64) returns (patchStatus: int, listed: seq<Task>)
    ensures ToUint64(nowMillis) != 1 ==>
      patchStatus == StatusNotFound
      && multiset(listed) == multiset{Task(ToUint64(nowMillis), "Clean the room", false)}
    ensures ToUint64(nowMillis) == 1 ==>
      patchStatus == StatusOK && multiset(listed) == multiset{Task(1, "Make the bed", false)}
  {
    var app := new TodoServer();
    var w := new ResponseWriter<Doc>();
    app.AddTask(w, Some(Task(1, "Clean the room", false)), nowMillis, None);
    var w2 := new ResponseWriter<Doc>();
    app.ModifyTask(w2, Some(Task(1, "Make the bed", false)), None);
    patchStatus := w2.code;
    var w3 := new ResponseWriter<Doc>();
    app.GetAllTasks(w3, None);
    listed := w3.body[0].doc.tasks;
    var id := ToUint64(nowMillis);
    BagInsert(map[], id, app.db.rows[id]);
    assert app.db.rows == map[id := app.db.rows[id]];
  }

  /** "Modify task with invalid json syntax" and "... with invalid fields". */
  method TestModifyInvalid() returns (syntaxStatus: int, fieldsStatus: int)
    ensures syntaxStatus == StatusBadRequest && fieldsStatus == StatusBadRequest
  {
    var app := new TodoServer();
    var w := new ResponseWriter<Doc>();
    app.ModifyTask(w, None, None);
    syntaxStatus := w.code;
    var w2 := new ResponseWriter<Doc>();
    app.ModifyTask(w2, Some(Task(0, "", false)), None);
    fieldsStatus := w2.code;
  }

  /**
   * "Delete existing task": the body has no title, so the add is refused;
   * the handler is called without the router, so the path id is empty and
   * the delete is refused too. The list is empty, as the test expects.
   */
  method TestDeleteExistingTask(nowMillis: i64) returns (addStatus: int, delStatus: int, listed: seq<Task>)
    ensures addStatus == StatusBadRequest && delStatus == StatusBadRequest && listed == []
  {
    var app := new TodoServer();
    var w := new ResponseWriter<Doc>();
    app.AddTask(w, Some(Task(1, "", false)), nowMillis, None);
    addStatus := w.code;
    var w2 := new ResponseWriter<Doc>();
    app.DeleteTaskByID(w2, "", None);
    delStatus := w2.code;
    var w3 := new ResponseWriter<Doc>();
    app.GetAllTasks(w3, None);
    listed := w3.body[0].doc.tasks;
  }

  /** "Delete with invalid task fields": without the router the path id is empty. */
  method TestDeleteInvalid() returns (status: int)
    ensures status == StatusBadRequest
  {
    var app := new TodoServer();
    var w := new ResponseWriter<Doc>();
    app.DeleteTaskByID(w, "", None);
    status := w.code;
  }
}
