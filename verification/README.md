# Task service handlers, modelled in Dafny

The service keeps to-do tasks (id, title, completed flag) in one SQLite
table through gorm. It serves five HTTP handlers: list all tasks, add a task,
fetch a task by id, modify a task, and delete a task by id. The repository
holds two variants of these handlers:

- `backend/todo.go` (module `BackendTodo`): the server assigns a new task's
  id from the clock in milliseconds, converted with `uint64(...)`; titles must
  not be empty; path ids are read with `strconv.ParseUint(s, 10, 64)`; there
  is no duplicate-id check.
- `todo.go` (module `Todo`): the client chooses the id; an id already in use
  is answered with 409; titles are not checked; path ids are read with
  `strconv.Atoi` (Go's 64-bit `int`).

The model is imperative where the source is. Each variant has a class
`TodoServer` whose field `db` is the database handle, a `Storage.Table` over a
`map` from id to task. Each handler is a method. It receives the
response writer (`Http.ResponseWriter`), the outcome of JSON decoding as an
`Option<Task>` (`None` is a decoding error) and the raw `{id}` path string.
It writes status and body to the writer step by step, as the Go code does,
and changes the table. Go's writer keeps the first status written and
ignores later ones; `Write` without a status first sends 200. The model
keeps both rules, so the handlers that write an error and do not return show
the same status and body they show in Go.

Every handler's postcondition gives the final status, the whole body and the
new table, for every input. Each handler keeps the invariant that every record
is stored under its own id. The pure parts come with their own proofs:

- the decimal parsers: round trips with `%d` formatting, leading zeros,
  and the 2^63 / 2^64 bounds;
- the title validator;
- the lookup `dbIsExist`;
- the listing, which holds each stored record exactly once, as a multiset.

The modules `BackendTodoTest` and `TodoTest` replay every scenario of
`backend/todo_test.go` against each variant. They also prove some properties
over every store: create then fetch, delete then list, and add with an id
already in use.

Inputs that Go takes from outside the handler are parameters:

- the clock (`nowMillis`);
- a failure of the database, one per database call (`findErr`, `createErr`,
  `saveErr`, `deleteErr`). `None` is success and `Some(text)` is the error's
  text. A failed call changes nothing.

The code and the design notes disagree in places. The model follows the code:

- ids in `todo.go` are signed (`int`), and a negative path id such as `-5` is
  parsed and looked up;
- titles are validated only in `backend/todo.go`;
- the 409 conflict exists only in `todo.go`;
- in `backend/todo.go` a clock value equal to an existing id makes the
  insert fail on the primary key. The answer is then 500, not 409.

## Model

| member | source | states |
|---|---|---|
| Ints.ToUint64 | backend/todo.go:121 | `uint64(x)` of an int64 keeps the same bits: the result is congruent to x modulo 2^64 and equals x when x is not negative |
| Strconv.FormatUint | backend/todo.go:143 | `%d` of an id is a non-empty digit string, starting with 0 only for 0, one digit exactly below 10 |
| Strconv.Itoa | todo.go:91 | `%d` of a signed id starts with '-' exactly for negative ids |
| Strconv.ValueOfFormatUint | backend/todo.go:143 | the digits `%d` prints denote the number printed |
| Strconv.ParseUint | backend/todo.go:135 | `ParseUint(s, 10, 64)` accepts only non-empty strings of decimal digits |
| Strconv.ParseUintFormat | backend/todo.go:135 | every uint64 printed with `%d` parses back to itself; the `%d` form of any number from 2^64 up is rejected |
| Strconv.FormatParseUint | backend/todo.go:135 | an accepted digit string without leading zeros is exactly the `%d` form of the parsed id |
| Strconv.ParseUintLeadingZero | backend/todo.go:186 | a leading zero does not change what a path id parses to ("/todo/007" is id 7) |
| Strconv.Atoi | todo.go:107 | `Atoi` accepts only non-empty strings that start with a sign or a digit |
| Strconv.AtoiItoa | todo.go:152 | every int64, negative ones included, printed with `%d` parses back to itself |
| Strconv.AtoiParseUint | todo.go:107 | on unsigned digit strings `Atoi` agrees with `ParseUint` below 2^63 and rejects from 2^63 on |
| Http.ResponseWriter.constructor | backend/todo.go:94 | a handler starts from a writer with no status and an empty body |
| Http.ResponseWriter.WriteHeader | backend/todo.go:203 | the first status written is kept; later ones change nothing |
| Http.ResponseWriter.Write | backend/todo.go:218 | writing appends to the body and sends status 200 if no status was written yet |
| Http.Error | backend/todo.go:111 | `http.Error` writes the status (if none yet) and appends the message and a newline |
| Http.HttpResponse | backend/todo.go:216-219 | `httpResponse` writes the status (if none yet) and appends the JSON document |
| Storage.BagRemove | backend/todo_test.go:227-244 | the multiset of a table's records is that of the rest plus the record under any one key |
| Storage.BagSize | backend/todo_test.go:227-244 | a table lists as many records as it has keys |
| Storage.BagHas | backend/todo_test.go:227-244 | a record is listed exactly when some key holds it |
| Storage.BagInsert | backend/todo.go:123 | inserting under a new key adds that record to the listing once |
| Storage.Table.constructor | backend/todo_test.go:20-33 | a freshly migrated database has no records |
| Storage.Table.First | backend/todo.go:208 | `First` finds a record exactly when the key is present, and returns the stored record |
| Storage.Table.Find | backend/todo.go:97 | `Find` returns the error it got, and an empty slice on failure; on success each stored record exactly once (as a multiset), as many as there are keys |
| Storage.Table.Create | backend/todo.go:123 | `Create` refuses a key in use with the unique-constraint error, otherwise inserts unless the database fails |
| Storage.Table.Save | backend/todo.go:174 | `Save` overwrites the record under its key unless the database fails |
| Storage.Table.Delete | backend/todo.go:197 | `Delete` of a nil record is refused with gorm's invalid-value error and removes nothing; otherwise it removes the key unless the database fails |
| BackendTodo.ValidateTaskFields | backend/todo.go:221-226 | a task is rejected, with the bad-request message, exactly when its title is empty |
| BackendTodo.TodoServer.constructor | backend/todo_test.go:20-33 | a server starts over an empty table |
| BackendTodo.TodoServer.DbIsExist | backend/todo.go:206-214 | the lookup succeeds exactly when the id is stored, and returns the record stored under it, whose id is that id |
| BackendTodo.TodoServer.GetAllTasks | backend/todo.go:94-104 | 200 with each stored record once; on a read failure 500, with the error text followed by the empty list (no return after the error); the table is never changed |
| BackendTodo.TodoServer.AddTask | backend/todo.go:106-131 | 400 and no change for an undecodable body or an empty title; otherwise the record gets the clock's id and the body's title and flag. It is inserted with 201 and returned, or 500 with no change when the id is taken or the database fails |
| BackendTodo.TodoServer.GetTaskByID | backend/todo.go:133-149 | 400 for a path that is not a uint64, 404 with the id in the message when absent, 200 with the stored record when present; the table is never changed |
| BackendTodo.TodoServer.ModifyTask | backend/todo.go:151-182 | validation before lookup: 400 for a bad body or empty title even when the id is absent; 404 and no change when absent. Otherwise only title and flag of that record are overwritten, with 200; every other record is unchanged. 500 and no change if the save fails |
| BackendTodo.TodoServer.DeleteTaskByID | backend/todo.go:184-204 | 400 and no change for a bad path. An absent id gives 404 and no change, with gorm's refusal text appended because the handler does not return. A present id is removed with 200 and an empty body, or 500 and no change if the delete fails |
| Todo.TodoServer.constructor | todo.go:50-58 | a server starts over an empty table |
| Todo.TodoServer.DbIsExist | todo.go:172-180 | the lookup succeeds exactly when the id is stored, and returns the record stored under it, whose id is that id |
| Todo.TodoServer.GetAllTasks | todo.go:68-78 | 200 with each stored record once; on a read failure 500, with the error text followed by the empty list (no return after the error); the table is never changed |
| Todo.TodoServer.AddTask | todo.go:80-103 | 400 and no change for an undecodable body. 409 with the id in the message and no change when the id is in use. Otherwise the decoded task is stored verbatim, empty title included, with 201, or 500 and no change if the database fails |
| Todo.TodoServer.GetTaskByID | todo.go:105-121 | 400 when `Atoi` rejects the path; 404 for an absent (possibly negative) id; 200 with the stored record when present; the table is never changed |
| Todo.TodoServer.ModifyTask | todo.go:123-148 | 400 and no change for a bad body; 404 and no change when absent. Otherwise only title and flag of that record are overwritten, with 200; every other record is unchanged. 500 and no change if the save fails |
| Todo.TodoServer.DeleteTaskByID | todo.go:150-170 | 400 and no change for a bad path. An absent id gives 404 and no change, with gorm's refusal text appended because the handler does not return. A present id is removed with 200, or 500 and no change if the delete fails |
| BackendTodoTest.CreateThenGet | backend/todo.go:121-148 | on any store, the add succeeds exactly when the title is non-empty and the clock's id is free. Fetching the `%d` form of that id then returns 200 and the created task |
| BackendTodoTest.DeleteThenList | backend/todo.go:186-203 | on any store, deleting a stored id answers 200. The list then has one record fewer, none with that id, each of them as stored |
| BackendTodoTest.TestGetAllTasks | backend/todo_test.go:39-56 | the record created directly is listed, alone |
| BackendTodoTest.TestAddTask | backend/todo_test.go:58-73 | the add succeeds, but the response carries the clock's id rather than the 1 the test expects |
| BackendTodoTest.TestAddExistingElement | backend/todo_test.go:75-91 | this variant never answers the 409 the test expects: 201, or 500 when the clock reads exactly 1 |
| BackendTodoTest.TestAddInvalid | backend/todo_test.go:93-121 | malformed JSON and a body without a title both answer 400 |
| BackendTodoTest.TestModifyExistingTask | backend/todo_test.go:125-149 | unless the clock read 1, the patch of id 1 is not found and the list still holds the original title under the clock's id |
| BackendTodoTest.TestModifyInvalid | backend/todo_test.go:151-180 | malformed JSON and a body without a title both answer 400 |
| BackendTodoTest.TestDeleteExistingTask | backend/todo_test.go:184-209 | the untitled add is refused, the delete without the router sees an empty path and is refused, and the list is empty as expected |
| BackendTodoTest.TestDeleteInvalid | backend/todo_test.go:211-224 | an empty path id answers 400 |
| TodoTest.CreateThenGet | todo.go:80-121 | on any store, the add succeeds exactly when the id is free, and fetching the `%d` form of the id then returns 200 and the task verbatim |
| TodoTest.AddExisting | todo.go:89-93 | on any store, adding a task whose id is in use answers 409 and leaves the table as it was |
| TodoTest.DeleteThenList | todo.go:150-170 | on any store, deleting a stored id answers 200. The list then has one record fewer, none with that id, each of them as stored |
| TodoTest.List | todo.go:68-78 | without a failure the listed records are exactly the stored ones, as a multiset |
| TodoTest.CreateThreeThenList | todo.go:80-103 | creating ids 1, 2, 3 with titles "a", "b", "c" stores and lists exactly those three |
| TodoTest.DeleteTwoThenList | todo.go:150-170 | deleting id 2 from those three leaves exactly 1 "a" and 3 "c" |
| TodoTest.AcAfterDelete | todo.go:150-170 | removing id 2 from the records 1 "a", 2 "b", 3 "c" lists exactly 1 "a" and 3 "c" |
| TodoTest.TestGetAllTasks | backend/todo_test.go:39-56 | the record created directly is listed, alone |
| TodoTest.TestAddTask | backend/todo_test.go:58-73 | 201 with the task under the client's id 1, as the test expects |
| TodoTest.TestAddExistingElement | backend/todo_test.go:75-91 | 409, as the test expects |
| TodoTest.TestAddInvalid | backend/todo_test.go:93-121 | malformed JSON answers 400, but the body without a title is stored with 201 where the test expects 400 |
| TodoTest.TestModifyExistingTask | backend/todo_test.go:125-149 | the patch answers 200 and the list holds the new title, as the test expects |
| TodoTest.TestModifyInvalid | backend/todo_test.go:151-180 | malformed JSON answers 400, but the body without a title looks up id 0 and answers 404 where the test expects 400 |
| TodoTest.TestDeleteExistingTask | backend/todo_test.go:184-209 | the untitled task is stored and the delete with an empty path is refused, so the list still holds it where the test expects an empty list |

## Quirks kept as written

- Missing return after 404 in delete (`backend/todo.go:193-195`,
  `todo.go:159-161`). The handler then asks gorm to delete a nil record. The
  status stays 404 because the first status wins. Nothing is removed, and
  gorm's refusal text follows the not-found message in the body. See the
  `DeleteTaskByID` postconditions.
- Missing return after 500 in list (`backend/todo.go:98-100`,
  `todo.go:72-74`). The status stays 500, and the body holds the error text
  followed by the JSON of the empty list. See the `GetAllTasks`
  postconditions.
- The one test file matches neither variant completely. `backend/todo.go`
  never answers 409, returns the clock's id, and cannot find the patched id
  1. `todo.go` stores untitled tasks, which three of the tests expect it to
  refuse. The tests call `DeleteTaskByID` without the router, so the path id
  is always empty and the delete always answers 400. The "Delete existing
  task" test passes against `backend/todo.go` only because both of its
  requests are refused. The `BackendTodoTest` and `TodoTest` members state
  each outcome.

## Left out

- Bootstrap: `main`, `InitDB` and `RegisterHandlers` in both files. This covers
  environment variables, opening the SQLite file, routing and CORS, and
  `ListenAndServe`; `backend/todo.go:55` also ignores the `DB_FILE` value it
  reads. The routes are modelled only by the handler each one reaches, and the
  router's `{id}` variable by the `pathId` argument.
- JSON: `json.NewDecoder(...).Decode` is the `Option<Task>` argument. Unknown
  fields are ignored, missing fields decode to zero values, and an id that
  does not fit the field's type is a decoding error. `json.MarshalIndent` is
  the `Http.Chunk.Json` value, so the exact indentation of the text is not
  modelled.
- Response headers (`Content-Type`, and the headers `http.Error` sets) and the
  errors returned by `w.Write`.
- `time.Now().UnixMilli()` is the `nowMillis` parameter.
- gorm and SQLite internals. `Create` with a zero id, which SQLite would give a
  new row id, is modelled as an insert under id 0. `Save` of a record that is
  absent is not reachable from the handlers, which look the record up first.
- A database failure inside `First`: `dbIsExist` reads any error as "not
  found" (404). The model's lookup never fails.
- The exact text of database errors, beyond SQLite's unique-constraint message
  and gorm's invalid-value error. Other failures carry their text as an
  input.
- The order in which `Find` returns records. It is stated as a multiset, as the
  tests compare lists.
- Concurrency: the check-then-act races between requests. Handlers run one at
  a time.
- `demo/client.go` and `backend/demo/client.go`: scripted network clients.
- Strconv.ParseUint: its own contract states only what an accepted string
  looks like. The accepted set and the values are stated by
  `Strconv.ParseUintFormat`, `Strconv.FormatParseUint` and
  `Strconv.ParseUintLeadingZero`.
- Strconv.Atoi: its own contract states only what an accepted string looks
  like. The accepted set and the values are stated by `Strconv.AtoiItoa` and
  `Strconv.AtoiParseUint`.
