# Task list: view-model, task store, register form and view router

A Dafny model of a small to-do application. A signed-in user keeps a list of tasks.
Each task has a title, a free-form category, a completion flag and a creation time.
The user can add, edit, complete, uncomplete and delete tasks, and filter the list
by status and by category.

The model covers four parts of the application:

- `TodoList` (`todo_list.dfy`) is the front end's task-list view-model. It holds a
  local cache of the tasks, the add-form drafts, two filter selections and a
  single-slot inline-edit session. Two pure derivations compute the category list
  and the visible tasks. Every command handler sends at most one write to the task
  service. After a successful write it reloads the whole cache; nothing is patched
  locally. When a call fails, nothing changes. Each handler is one step: it takes
  the replies it would receive as parameters (`Reply<T>`: a JSON body or a network
  error) and returns the requests it sent, in order. The browser's confirmation
  dialog is a boolean parameter.
- `TaskStore` (`task_store.dfy`) is the back end. Its `users` and `tasks` tables are
  maps in a `Store` class. Users are keyed by their unique name; tasks are keyed by
  id. Two counters model AUTOINCREMENT. Each route handler is a method with the
  route's error messages. The password hash is a function given to the store. Each
  new task's creation time is an ordered timestamp passed in by the caller.
- `RegisterForm` (`register_form.dfy`) is the registration form. It runs a
  three-step check in order and stops at the first failure. Only when every check
  passes does it post the form; the reply then decides which fields change.
- `AppView` (`app_view.dfy`) is the top-level router. Its state is the current view
  and the signed-in user. The screen drawn is a function of that state.

`Remote` (`remote.dfy`) holds `Option` and `Reply`, which all four modules share.

Points where the code is easy to misread:

- The category placeholder is `'未分类'`.
- The placeholder replaces only the empty category: `category || '未分类'`. A
  category made only of spaces is sent unchanged.
- `loadTasks` replaces the cache only when the reply carries a `tasks` field. An
  empty array counts as carrying it; in JavaScript `[]` is truthy.
- `getCategories` puts the distinct categories after `'all'` without removing
  `'all'` from them. So a task whose category is literally `all` makes `'all'`
  appear twice.
- `update_task` and `delete_task` do not check who owns the task.

## Model

| member | source | states |
|---|---|---|
| `TodoList.IsJsWhitespace` | todo-frontend/src/components/TodoList.js:39 | the characters `trim` removes all lie in the Basic Multilingual Plane; NEL (U+0085), the Mongolian vowel separator (U+180E) and the zero-width space (U+200B) are not among them |
| `TodoList.TrimStart` | todo-frontend/src/components/TodoList.js:39 | `trimStart` drops only whitespace, only from the front, and the rest starts with a non-whitespace character or is empty |
| `TodoList.TrimEnd` | todo-frontend/src/components/TodoList.js:39 | `trimEnd` drops only whitespace, only from the back, and the rest ends with a non-whitespace character or is empty |
| `TodoList.Trim` | todo-frontend/src/components/TodoList.js:39 | `trim` never lengthens a string, leaves no whitespace at either end, and gives the empty string exactly when every character is whitespace; so `!s.trim()` holds exactly for all-whitespace titles |
| `TodoList.TrimBothEnds` | todo-frontend/src/components/TodoList.js:112 | trimming the front and then the back leaves an empty string exactly when the whole input is whitespace |
| `TodoList.CategoryOrDefault` | todo-frontend/src/components/TodoList.js:49 | the category sent is never empty; any non-empty category, a whitespace-only one included, is sent unchanged; only the empty one becomes `'未分类'` |
| `TodoList.DistinctInOrder` | todo-frontend/src/components/TodoList.js:144 | the values of a JavaScript `Set` built from a sequence: no value twice, and exactly the values of the sequence |
| `TodoList.DistinctInOrderKeepsFirstOccurrenceOrder` | todo-frontend/src/components/TodoList.js:144 | those values come in the order of their first occurrence in the sequence |
| `TodoList.CategoriesOf` | todo-frontend/src/components/TodoList.js:144 | `tasks.map(task => task.category)`: one category per task, in task order |
| `TodoList.Categories` | todo-frontend/src/components/TodoList.js:143-146 | `getCategories` starts with `'all'`, even with no tasks; after it, no category repeats, and a value appears exactly when some task has that category |
| `TodoList.CategoriesInFirstOccurrenceOrder` | todo-frontend/src/components/TodoList.js:144 | the categories after `'all'` come in the order they first occur among the tasks |
| `TodoList.CategoriesOfNoTasks` | todo-frontend/src/components/TodoList.js:143-146 | with no tasks the category list is exactly `['all']` |
| `TodoList.CategoriesExample` | todo-frontend/src/components/TodoList.js:143-146 | categories work, home, work give `['all', 'work', 'home']` |
| `TodoList.Matches` | todo-frontend/src/components/TodoList.js:150-158 | with both filters `'all'` every task matches; a matching task has the selected category unless the category filter is `'all'`; `'completed'` matches only completed tasks and `'pending'` only pending ones; any other status value matches nothing |
| `TodoList.Filtered` | todo-frontend/src/components/TodoList.js:149-159 | a task is visible exactly when it is in the cache and matches both the status filter and the category filter |
| `TodoList.FilteredIsSubsequence` | todo-frontend/src/components/TodoList.js:149-159 | the visible tasks keep the cache's order: they are a subsequence of it |
| `TodoList.FilteredCounts` | todo-frontend/src/components/TodoList.js:149-159 | each matching task is kept as many times as it occurs in the cache; no other task is kept |
| `TodoList.FilteredAllIsIdentity` | todo-frontend/src/components/TodoList.js:149-159 | with status `'all'` and category `'all'` the visible list is the whole cache, in order |
| `TodoList.FilteredCompletedExample` | todo-frontend/src/components/TodoList.js:150-153 | status `'completed'` on a completed and a pending task shows only the completed one |
| `TodoList.AfterLoad` | todo-frontend/src/components/TodoList.js:28-29 | after a list reply, the cache is the reply's tasks when it carries some; after any other reply it is unchanged |
| `TodoList.TodoListView.constructor` | todo-frontend/src/components/TodoList.js:5-12 | the initial state: no tasks, empty drafts, both filters `'all'`, no edit session |
| `TodoList.TodoListView.GetCategories` | todo-frontend/src/components/TodoList.js:143-146 | the category options for the current cache start with `'all'` and list exactly the categories of the cached tasks |
| `TodoList.TodoListView.FilteredTasks` | todo-frontend/src/components/TodoList.js:149-159 | the visible tasks for the current filters are exactly the matching cached tasks; with both filters `'all'` they are the whole cache |
| `TodoList.TodoListView.LoadTasks` | todo-frontend/src/components/TodoList.js:19-35 | sends one list request for the user; the new cache is `AfterLoad` of the old one and the reply, so it is replaced only when the reply carries tasks; nothing else changes |
| `TodoList.TodoListView.HandleAddTask` | todo-frontend/src/components/TodoList.js:38-63 | with a blank title, sends nothing and changes nothing; otherwise sends one create request with the title and the defaulted category; on success, it reloads and empties both drafts; on failure, nothing changes |
| `TodoList.TodoListView.HandleToggleComplete` | todo-frontend/src/components/TodoList.js:66-83 | asks for `completed = !completed`; reloads only on success; touches nothing but the cache |
| `TodoList.TodoListView.HandleDeleteTask` | todo-frontend/src/components/TodoList.js:86-101 | sends nothing unless confirmed; then one delete request, and a reload only on success |
| `TodoList.TodoListView.HandleStartEdit` | todo-frontend/src/components/TodoList.js:104-108 | the session becomes the task's id, title and category, whatever draft was open before |
| `TodoList.TodoListView.HandleSaveEdit` | todo-frontend/src/components/TodoList.js:111-133 | with a blank draft title, sends nothing and leaves the session unchanged; otherwise sends one update with the draft title and the defaulted category; on success, reloads and closes the session; on failure, nothing changes |
| `TodoList.TodoListView.HandleCancelEdit` | todo-frontend/src/components/TodoList.js:136-140 | the session becomes (null, '', '') and nothing else changes |
| `TodoList.TodoListView.SetNewTask` | todo-frontend/src/components/TodoList.js:176 | the title draft becomes the typed text; nothing else changes |
| `TodoList.TodoListView.SetNewTaskCategory` | todo-frontend/src/components/TodoList.js:183 | the category draft becomes the typed text; nothing else changes |
| `TodoList.TodoListView.SetFilterStatus` | todo-frontend/src/components/TodoList.js:193 | the status filter becomes the selected value; nothing else changes |
| `TodoList.TodoListView.SetFilterCategory` | todo-frontend/src/components/TodoList.js:204 | the category filter becomes the selected value; nothing else changes |
| `TodoList.TodoListView.SetEditText` | todo-frontend/src/components/TodoList.js:226 | the edit title draft becomes the typed text; nothing else changes |
| `TodoList.TodoListView.SetEditCategory` | todo-frontend/src/components/TodoList.js:232 | the edit category draft becomes the typed text; nothing else changes |
| `TodoList.StartEditDiscardsDraft` | todo-frontend/src/components/TodoList.js:104-108 | starting an edit on task A, changing its draft, then starting an edit on task B leaves only B's values in the session, and the cache untouched |
| `TaskStore.Missing` | todo-backend/app.py:53 | Python's `not value` on a JSON string field, as in `register`, `login` (line 82), `get_tasks` (line 115) and `add_task` (line 152): true exactly when the key is absent or its value is empty |
| `TaskStore.ToJson` | todo-backend/app.py:131-137 | one entry of `task_list` carries the row's id, title, category and `created_at`; `completed` is true exactly when the stored flag is non-zero, and a stored 0 or 1 is what `CompletedFlag` writes for that boolean |
| `TaskStore.CompletedFlag` | todo-backend/app.py:201 | the stored flag is 0 or 1, and it is non-zero exactly when `completed` is true |
| `TaskStore.AssignAll` | todo-backend/app.py:207-211 | applying the SET clauses of an UPDATE never changes the owner or the creation time |
| `TaskStore.ApplyPatch` | todo-backend/app.py:188-211 | an update body replaces only the columns whose keys it has; owner and creation time are kept; a given `completed` is stored as `CompletedFlag` of that boolean |
| `TaskStore.AssignAllMatchesPatch` | todo-backend/app.py:188-211 | the clauses `update_task` appends for title, category and completed, applied in order, give the same row as `ApplyPatch` |
| `TaskStore.ToggleTwiceRestoresCompleted` | todo-backend/app.py:199-201 | setting `completed` to the opposite of what reads back, twice, restores the original flag and keeps title and category |
| `TaskStore.InsertNewestFirst` | todo-backend/app.py:125 | placing a task id in the result keeps every earlier id and adds exactly that one |
| `TaskStore.InsertKeepsNewestFirst` | todo-backend/app.py:125 | a list ordered by `created_at` descending stays ordered after an insertion |
| `TaskStore.InsertKeepsDistinct` | todo-backend/app.py:125 | inserting a new id into a list without repeats gives a list without repeats |
| `TaskStore.Store.constructor` | todo-backend/app.py:14-38 | a new database has no users and no tasks |
| `TaskStore.Store.UserId` | todo-backend/app.py:103-109 | `get_user_id` finds an id exactly for a registered name, and that id is at least 1; so the callers' falsy test `not user_id` means "no such user" |
| `TaskStore.Store.Register` | todo-backend/app.py:48-73 | a missing or empty username or password is refused before the length is checked; a password shorter than 6 is refused; a taken username is refused with `'用户名已存在'`; in all three cases no user is added; otherwise exactly one user is added, with a fresh id and the hashed password |
| `TaskStore.Store.Login` | todo-backend/app.py:77-100 | with both fields present, login succeeds exactly when a user of that name is stored with the hash of that password, and then returns that user's id and name; otherwise it fails with the matching message |
| `TaskStore.Store.GetTasks` | todo-backend/app.py:113-142 | a missing username gives `'未登录'` and an unknown user `'用户不存在'`; otherwise the reply has exactly that user's tasks, each once, ordered by `created_at` descending, with `completed` as a boolean |
| `TaskStore.Store.AddTask` | todo-backend/app.py:146-168 | a missing username or title gives `'参数不完整'` and an unknown user gives `'用户不存在'`, with no insert; otherwise exactly one task is added under a fresh id, pending, with the given category or `'未分类'` when the key is absent |
| `TaskStore.Store.UpdateTask` | todo-backend/app.py:172-218 | an unknown id gives `'任务不存在'`; a body with no updatable key gives `'没有需要更新的字段'`; neither changes a task; otherwise only that task changes, exactly as `ApplyPatch` says; ownership is not checked |
| `TaskStore.Store.DeleteTask` | todo-backend/app.py:222-243 | an unknown id gives `'任务不存在'` and changes nothing; otherwise exactly that task is removed and every other task is kept |
| `RegisterForm.Validate` | todo-frontend/src/components/Register.js:14-27 | an empty field gives `'请填写所有字段'`; differing passwords are reported only when no field is empty; a short password only when no field is empty and the two passwords match; no message exactly when every check passes |
| `RegisterForm.MessageOrDefault` | todo-frontend/src/components/Register.js:47 | the error shown is never empty: the server's message when it has a non-empty one, and `'注册失败，请稍后重试'` exactly otherwise |
| `RegisterForm.RegisterFormView.constructor` | todo-frontend/src/components/Register.js:4-8 | every field and message starts empty |
| `RegisterForm.RegisterFormView.HandleSubmit` | todo-frontend/src/components/Register.js:10-56 | a failed check sends nothing and changes only `error`, to the first failing check's message; otherwise it posts username and password; success sets the success message, clears `error` and empties the three fields; a refusal sets the server message or the default and clears `success`; a transport error sets the default and clears `success`; the fields are kept on failure |
| `RegisterForm.RegisterFormView.SetUsername` | todo-frontend/src/components/Register.js:70 | the username field becomes the typed text; nothing else changes |
| `RegisterForm.RegisterFormView.SetPassword` | todo-frontend/src/components/Register.js:80 | the password field becomes the typed text; nothing else changes |
| `RegisterForm.RegisterFormView.SetConfirmPassword` | todo-frontend/src/components/Register.js:90 | the confirmation field becomes the typed text; nothing else changes |
| `Remote.Succeeded` | todo-frontend/src/components/TodoList.js:54 | the `data.success` test of every write handler (also lines 76, 93 and 123): a task-endpoint reply counts as success exactly when a body arrived and its `success` field is true; a network error never does |
| `AppView.ScreenFor` | todo-frontend/src/App.js:23-31 | exactly one screen (or none) is drawn: login only in the login view, register only in the register view, and the task list only in the todo view with a non-empty user, which it receives |
| `AppView.AppState.Screen` | todo-frontend/src/App.js:23-31 | the router's current screen: login exactly in the login view, register exactly in the register view, and the task list exactly in the todo view with a non-empty user, for that user |
| `AppView.AppState.constructor` | todo-frontend/src/App.js:8-9 | the router starts on the login view with no user, showing the login screen |
| `AppView.AppState.HandleLogin` | todo-frontend/src/App.js:11-14 | the user becomes the given name and the view becomes todo, which then shows that user's task list |
| `AppView.AppState.HandleLogout` | todo-frontend/src/App.js:16-19 | the user is cleared and the view becomes login |
| `AppView.AppState.ShowRegister` | todo-frontend/src/App.js:24 | the login screen's register link switches to the register view |
| `AppView.AppState.ShowLogin` | todo-frontend/src/App.js:27 | the register screen's back link switches to the login view |
| `AppView.LoginThenLogout` | todo-frontend/src/App.js:11-19 | logging in and then out returns the router to its initial state, whatever state it started in |

## Left out

- HTTP and JSON plumbing (`fetch`, parsing, headers, Flask routing, CORS) is left out. Each remote call is a `Reply` parameter, and each handler returns the requests it sends.
- JSON values that are not strings or booleans are not modelled. An explicit `null` for `category` is one example; it would store SQL NULL. An `Option` only says whether a key is present.
- Concurrency is not modelled. Requests in flight can interleave, and a completion can arrive after the component is torn down. Here each handler is a request and its completion in one atomic step.
- The mount-time load (`useEffect`) is not a separate member. It is the constructor followed by `LoadTasks`.
- `console.error` and Python's `print` logging are left out. So are the generic `except Exception` branches: a database failure gives the route's generic failure message.
- SQLite connections, `init_db` and `app.run` are left out. The tables are maps with counters.
- SHA-256 is not modelled; the store's `hash` function stands in for it. `created_at` is an opaque integer, and a new task's timestamp is a parameter.
- `TaskStore.Store.GetTasks`: does not fix the order of tasks with equal `created_at`. SQLite leaves that order unspecified.
- The front end does not model string lengths in UTF-16 code units. Lengths are code points; they differ only for characters outside the Basic Multilingual Plane.
- Rendering is not modelled: markup, CSS and key-press wiring. Only the onChange setters are kept, as plain assignments.
- `todo-frontend/src/components/Login.js` is not part of this model. It is a non-empty check on two fields followed by a post.
