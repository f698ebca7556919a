/**
 * The back end's user and task tables and the route handlers that read and
 * write them. The two SQLite tables are maps: users keyed by their unique
 * username, tasks keyed by their id; AUTOINCREMENT is a pair of counters
 * that only grow. The password hash is a parameter of the store (SHA-256 is
 * not modelled) and the creation time of a task is passed in as an opaque,
 * ordered timestamp.
 */
module TaskStore {
  import opened Remote

  const MsgEmptyCredentials := "用户名和密码不能为空"
  const MsgPasswordTooShort := "密码长度至少为6位"
  const MsgRegistered := "注册成功"
  const MsgUsernameTaken := "用户名已存在"
  const MsgBadCredentials := "用户名或密码错误"
  const MsgNotLoggedIn := "未登录"
  const MsgNoSuchUser := "用户不存在"
  const MsgIncomplete := "参数不完整"
  const MsgTaskAdded := "任务添加成功"
  const MsgNoSuchTask := "任务不存在"
  const MsgNothingToUpdate := "没有需要更新的字段"
  const MsgTaskUpdated := "任务更新成功"
  const MsgTaskDeleted := "任务删除成功"
  /** Column default of `tasks.category` and the default of a missing `category` key. */
  const DefaultCategory := "未分类"
  /** Shortest password `register` accepts. */
  const MinPasswordLength := 6

  /** A row of `users`, without its key. `password` holds the hash. */
  datatype User = User(id: int, password: string)

  /** A row of `tasks`, without its key. `completed` is the stored 0/1 column. */
  datatype TaskRow = TaskRow(userId: int, title: string, category: string, completed: int, createdAt: int)

  /** A task as `get_tasks` returns it. */
  datatype TaskJson = TaskJson(id: int, title: string, category: string, completed: bool, createdAt: int)

  /** The JSON reply of a route: `success: true` with a payload, or a message. */
  datatype ApiResult<+T> = Success(value: T) | Failure(message: string)

  /** The keys of a `PUT /api/tasks/<id>` body; `None` is a key that is absent. */
  datatype Patch = Patch(title: Option<string>, category: Option<string>, completed: Option<bool>)

  /** One `column = ?` clause of the UPDATE statement with its bound value. */
  datatype Assignment = SetTitle(title: string) | SetCategory(category: string) | SetCompleted(flag: int)

  /** Python's `not value` for an optional string: absent or empty. */
  predicate Missing(value: Option<string>)
    ensures Missing(value) <==> value.GetOr("") == ""
  {
    value.None? || value.value == ""
  }

  /** `1 if completed else 0`. */
  function CompletedFlag(completed: bool): (flag: int)
    ensures flag == 0 || flag == 1
    ensures (flag != 0) == completed
  {
    if completed then 1 else 0
  }

  /**
   * One entry of `task_list`: the row's columns under its id, with the
   * stored flag read back as `bool(task['completed'])`.
   */
  function ToJson(id: int, row: TaskRow): (t: TaskJson)
    ensures t.id == id && t.title == row.title && t.category == row.category && t.createdAt == row.createdAt
    ensures t.completed <==> row.completed != 0
    ensures row.completed == 0 || row.completed == 1 ==> CompletedFlag(t.completed) == row.completed
  {
    TaskJson(id, row.title, row.category, row.completed != 0, row.createdAt)
  }

  /** The row after one SET clause. */
  function Assign(row: TaskRow, a: Assignment): TaskRow {
    match a
    case SetTitle(t) => row.(title := t)
    case SetCategory(c) => row.(category := c)
    case SetCompleted(f) => row.(completed := f)
  }

  /** The row after all SET clauses of an UPDATE, applied left to right. */
  function AssignAll(row: TaskRow, clauses: seq<Assignment>): (r: TaskRow)
    ensures r.userId == row.userId && r.createdAt == row.createdAt
    decreases |clauses|
  {
    if clauses == [] then row else AssignAll(Assign(row, clauses[0]), clauses[1..])
  }

  /**
   * What an update body means for a row: each key present replaces its
   * column, `completed` stored as 1 or 0; every other column is kept.
   */
  function ApplyPatch(row: TaskRow, p: Patch): (r: TaskRow)
    ensures r.userId == row.userId && r.createdAt == row.createdAt
    ensures r.title == p.title.GetOr(row.title)
    ensures r.category == p.category.GetOr(row.category)
    ensures p.completed.None? ==> r.completed == row.completed
    ensures p.completed.Some? ==> r.completed == CompletedFlag(p.completed.value)
  {
    var completed := if p.completed.Some? then CompletedFlag(p.completed.value) else row.completed;
    TaskRow(row.userId, p.title.GetOr(row.title), p.category.GetOr(row.category), completed, row.createdAt)
  }

  /** Toggling the stored flag twice, each time to the opposite of what reads back, restores it. */
  lemma ToggleTwiceRestoresCompleted(row: TaskRow)
    ensures var once := ApplyPatch(row, Patch(None, None, Some(!ToJson(0, row).completed)));
      var twice := ApplyPatch(once, Patch(None, None, Some(!ToJson(0, once).completed)));
      ToJson(0, twice).completed == ToJson(0, row).completed && twice.title == row.title
        && twice.category == row.category
  {
  }

  /** `ids` lists tasks from newest to oldest creation time. */
  predicate NewestFirst(tasks: map<int, TaskRow>, ids: seq<int>)
    requires forall i :: 0 <= i < |ids| ==> ids[i] in tasks
  {
    forall i, j :: 0 <= i < j < |ids| ==> tasks[ids[i]].createdAt >= tasks[ids[j]].createdAt
  }

  predicate DistinctIds(ids: seq<int>) {
    forall i, j :: 0 <= i < j < |ids| ==> ids[i] != ids[j]
  }

  /** Places `id` in `ids` after every task created later than it. */
  function InsertNewestFirst(tasks: map<int, TaskRow>, ids: seq<int>, id: int): (r: seq<int>)
    requires id in tasks && forall i :: 0 <= i < |ids| ==> ids[i] in tasks
    ensures |r| == |ids| + 1
    ensures forall x :: x in r <==> x in ids || x == id
    ensures forall i :: 0 <= i < |r| ==> r[i] in tasks
  {
    if ids == [] || tasks[id].createdAt >= tasks[ids[0]].createdAt then [id] + ids
    else
      assert forall x :: x in ids <==> x == ids[0] || x in ids[1..] by {
        assert ids == [ids[0]] + ids[1..];
      }
      [ids[0]] + InsertNewestFirst(tasks, ids[1..], id)
  }

  /** Inserting into a list ordered newest first keeps it ordered. */
  lemma {:induction false} InsertKeepsNewestFirst(tasks: map<int, TaskRow>, ids: seq<int>, id: int)
    requires id in tasks && forall i :: 0 <= i < |ids| ==> ids[i] in tasks
    requires NewestFirst(tasks, ids)
    ensures NewestFirst(tasks, InsertNewestFirst(tasks, ids, id))
  {
    if ids != [] && tasks[id].createdAt < tasks[ids[0]].createdAt {
      var rest := InsertNewestFirst(tasks, ids[1..], id);
      var r := [ids[0]] + rest;
      InsertKeepsNewestFirst(tasks, ids[1..], id);
      forall j | 0 < j < |r| ensures tasks[r[0]].createdAt >= tasks[r[j]].createdAt {
        assert r[j] == rest[j - 1];
        if r[j] != id {
          assert r[j] in ids[1..];
          var k :| 0 <= k < |ids| - 1 && ids[1..][k] == r[j];
          assert ids[k + 1] == r[j];
        }
      }
      forall i, j | 0 < i < j < |r| ensures tasks[r[i]].createdAt >= tasks[r[j]].createdAt {
        assert r[i] == rest[i - 1] && r[j] == rest[j - 1];
      }
    }
  }

  /** Inserting a new id into a list without repeats gives a list without repeats. */
  lemma {:induction false} InsertKeepsDistinct(tasks: map<int, TaskRow>, ids: seq<int>, id: int)
    requires id in tasks && forall i :: 0 <= i < |ids| ==> ids[i] in tasks
    requires DistinctIds(ids) && id !in ids
    ensures DistinctIds(InsertNewestFirst(tasks, ids, id))
  {
    if ids != [] && tasks[id].createdAt < tasks[ids[0]].createdAt {
      var rest := InsertNewestFirst(tasks, ids[1..], id);
      var r := [ids[0]] + rest;
      assert id !in ids[1..];
      InsertKeepsDistinct(tasks, ids[1..], id);
      assert ids[0] !in ids[1..];
      forall i, j | 0 <= i < j < |r| ensures r[i] != r[j] {
        if i == 0 {
          assert r[j] == rest[j - 1];
        } else {
          assert r[i] == rest[i - 1] && r[j] == rest[j - 1];
        }
      }
    }
  }

  class Store {
    /** The password hash (SHA-256 hex digest in the source). */
    const hash: string -> string

    var users: map<string, User>
    var tasks: map<int, TaskRow>
    var nextUserId: int
    var nextTaskId: int

    /** Ids are positive and below the counters, user ids are unique, and every task has an owner id. */
    ghost predicate Valid()
      reads this
    {
      && 1 <= nextUserId && 1 <= nextTaskId
      && (forall u :: u in users ==> 1 <= users[u].id < nextUserId)
      && (forall u, v :: u in users && v in users && users[u].id == users[v].id ==> u == v)
      && (forall id :: id in tasks ==> 1 <= id < nextTaskId && 1 <= tasks[id].userId < nextUserId)
    }

    /** An empty database. */
    constructor (hash: string -> string)
      ensures Valid()
      ensures this.hash == hash && users == map[] && tasks == map[]
    {
      this.hash := hash;
      users, tasks := map[], map[];
      nextUserId, nextTaskId := 1, 1;
    }

    /** `get_user_id`: the id of the user with that name, if any. */
    function UserId(username: string): (r: Option<int>)
      reads this
      requires Valid()
      ensures r.Some? <==> username in users
      ensures r.Some? ==> r.value >= 1 && r.value == users[username].id
    {
      if username in users then Some(users[username].id) else None
    }

    /** The ids of the tasks owned by user `uid`. */
    function OwnedBy(uid: int): set<int>
      reads this
    {
      set id | id in tasks && tasks[id].userId == uid
    }

    /**
     * `register`: an absent or empty username or password is refused before
     * the length check, a password shorter than six is refused, a username
     * already in use is refused; otherwise one user is added under a fresh id
     * with the hashed password.
     */
    method Register(username: Option<string>, password: Option<string>) returns (r: ApiResult<string>)
      requires Valid()
      modifies this`users, this`nextUserId
      ensures Valid()
      ensures Missing(username) || Missing(password) ==>
        r == Failure(MsgEmptyCredentials) && users == old(users)
      ensures !Missing(username) && !Missing(password) && |password.value| < MinPasswordLength ==>
        r == Failure(MsgPasswordTooShort) && users == old(users)
      ensures !Missing(username) && !Missing(password) && |password.value| >= MinPasswordLength ==>
        if username.value in old(users) then
          r == Failure(MsgUsernameTaken) && users == old(users)
        else
          r == Success(MsgRegistered)
          && users == old(users)[username.value := User(old(nextUserId), hash(password.value))]
    {
      if Missing(username) || Missing(password) {
        return Failure(MsgEmptyCredentials);
      }
      if |password.value| < MinPasswordLength {
        return Failure(MsgPasswordTooShort);
      }
      var hashed := hash(password.value);
      if username.value in users {
        // the UNIQUE constraint on users.username raises IntegrityError
        return Failure(MsgUsernameTaken);
      }
      users := users[username.value := User(nextUserId, hashed)];
      nextUserId := nextUserId + 1;
      r := Success(MsgRegistered);
    }

    /**
     * `login`: succeeds, with the user's id and name, exactly when a user of
     * that name is stored with the hash of that password.
     */
    method Login(username: Option<string>, password: Option<string>) returns (r: ApiResult<(int, string)>)
      requires Valid()
      ensures Missing(username) || Missing(password) ==> r == Failure(MsgEmptyCredentials)
      ensures !Missing(username) && !Missing(password) ==>
        (r.Success? <==> username.value in users && users[username.value].password == hash(password.value))
      ensures r.Success? ==> r.value == (users[username.value].id, username.value)
      ensures r.Failure? && !Missing(username) && !Missing(password) ==> r.message == MsgBadCredentials
    {
      if Missing(username) || Missing(password) {
        return Failure(MsgEmptyCredentials);
      }
      var hashed := hash(password.value);
      if username.value in users && users[username.value].password == hashed {
        r := Success((users[username.value].id, username.value));
      } else {
        r := Failure(MsgBadCredentials);
      }
    }

    /**
     * `get_tasks`: a missing username header gives "not logged in", an
     * unknown user "no such user"; otherwise exactly that user's tasks, each
     * once, newest first, with `completed` read back as a boolean.
     */
    method GetTasks(username: Option<string>) returns (r: ApiResult<seq<TaskJson>>)
      requires Valid()
      ensures Missing(username) ==> r == Failure(MsgNotLoggedIn)
      ensures !Missing(username) && username.value !in users ==> r == Failure(MsgNoSuchUser)
      ensures !Missing(username) && username.value in users ==> r.Success?
      ensures r.Success? ==>
        var uid := users[username.value].id;
        && (forall i :: 0 <= i < |r.value| ==>
              r.value[i].id in OwnedBy(uid) && r.value[i] == ToJson(r.value[i].id, tasks[r.value[i].id]))
        && (forall id :: id in OwnedBy(uid) ==> exists i :: 0 <= i < |r.value| && r.value[i].id == id)
        && (forall i, j :: 0 <= i < j < |r.value| ==> r.value[i].id != r.value[j].id)
        && (forall i, j :: 0 <= i < j < |r.value| ==> r.value[i].createdAt >= r.value[j].createdAt)
    {
      if Missing(username) {
        return Failure(MsgNotLoggedIn);
      }
      var userId := UserId(username.value);
      if userId.None? {
        return Failure(MsgNoSuchUser);
      }
      var uid := userId.value;
      // SELECT * FROM tasks WHERE user_id = ? ORDER BY created_at DESC, as a scan of the table
      var owned := OwnedBy(uid);
      var rows: seq<int> := [];
      for id := 1 to nextTaskId
        invariant forall i :: 0 <= i < |rows| ==> rows[i] in tasks
        invariant forall x :: x in rows <==> x in owned && x < id
        invariant NewestFirst(tasks, rows)
        invariant DistinctIds(rows)
      {
        if id in tasks && tasks[id].userId == uid {
          InsertKeepsNewestFirst(tasks, rows, id);
          InsertKeepsDistinct(tasks, rows, id);
          rows := InsertNewestFirst(tasks, rows, id);
        }
      }
      // the loop that builds task_list
      var taskList: seq<TaskJson> := [];
      for i := 0 to |rows|
        invariant |taskList| == i
        invariant forall k :: 0 <= k < i ==> taskList[k] == ToJson(rows[k], tasks[rows[k]])
      {
        taskList := taskList + [ToJson(rows[i], tasks[rows[i]])];
      }
      forall id | id in owned ensures exists i :: 0 <= i < |taskList| && taskList[i].id == id {
        var i :| 0 <= i < |rows| && rows[i] == id;
        assert taskList[i].id == id;
      }
      r := Success(taskList);
    }

    /**
     * `add_task`: an absent or empty username or title is refused, an unknown
     * user is refused; otherwise one task is added under a fresh id, owned by
     * that user, not completed, with the category given or the default when
     * the key is absent.
     */
    method AddTask(username: Option<string>, title: Option<string>, category: Option<string>, now: int)
      returns (r: ApiResult<string>)
      requires Valid()
      modifies this`tasks, this`nextTaskId
      ensures Valid()
      ensures Missing(username) || Missing(title) ==> r == Failure(MsgIncomplete) && tasks == old(tasks)
      ensures !Missing(username) && !Missing(title) && username.value !in users ==>
        r == Failure(MsgNoSuchUser) && tasks == old(tasks)
      ensures !Missing(username) && !Missing(title) && username.value in users ==>
        && r == Success(MsgTaskAdded)
        && old(nextTaskId) !in old(tasks)
        && tasks == old(tasks)[old(nextTaskId) :=
             TaskRow(users[username.value].id, title.value, category.GetOr(DefaultCategory), 0, now)]
    {
      var cat := category.GetOr(DefaultCategory);
      if Missing(username) || Missing(title) {
        return Failure(MsgIncomplete);
      }
      var userId := UserId(username.value);
      if userId.None? {
        return Failure(MsgNoSuchUser);
      }
      tasks := tasks[nextTaskId := TaskRow(userId.value, title.value, cat, 0, now)];
      nextTaskId := nextTaskId + 1;
      r := Success(MsgTaskAdded);
    }

    /**
     * `update_task`: a missing task is refused, then a body with none of
     * title, category, completed is refused, in both cases with no change;
     * otherwise the SET clauses for the keys present, in that order, are
     * applied to that one task. Ownership is not checked.
     */
    method UpdateTask(taskId: int, body: Patch) returns (r: ApiResult<string>)
      requires Valid()
      modifies this`tasks
      ensures Valid()
      ensures taskId !in old(tasks) ==> r == Failure(MsgNoSuchTask) && tasks == old(tasks)
      ensures taskId in old(tasks) && body == Patch(None, None, None) ==>
        r == Failure(MsgNothingToUpdate) && tasks == old(tasks)
      ensures taskId in old(tasks) && body != Patch(None, None, None) ==>
        r == Success(MsgTaskUpdated) && tasks == old(tasks)[taskId := ApplyPatch(old(tasks)[taskId], body)]
    {
      if taskId !in tasks {
        return Failure(MsgNoSuchTask);
      }
      var clauses: seq<Assignment> := [];
      if body.title.Some? {
        clauses := clauses + [SetTitle(body.title.value)];
      }
      if body.category.Some? {
        clauses := clauses + [SetCategory(body.category.value)];
      }
      if body.completed.Some? {
        clauses := clauses + [SetCompleted(CompletedFlag(body.completed.value))];
      }
      if clauses == [] {
        return Failure(MsgNothingToUpdate);
      }
      var row := tasks[taskId];
      assert AssignAll(row, clauses) == ApplyPatch(row, body) by {
        AssignAllMatchesPatch(row, body, clauses);
      }
      tasks := tasks[taskId := AssignAll(row, clauses)];
      r := Success(MsgTaskUpdated);
    }

    /**
     * `delete_task`: a missing task is refused with no change; otherwise
     * exactly that task is removed. Ownership is not checked.
     */
    method DeleteTask(taskId: int) returns (r: ApiResult<string>)
      requires Valid()
      modifies this`tasks
      ensures Valid()
      ensures taskId !in old(tasks) ==> r == Failure(MsgNoSuchTask) && tasks == old(tasks)
      ensures taskId in old(tasks) ==> r == Success(MsgTaskDeleted) && tasks == old(tasks) - {taskId}
    {
      if taskId !in tasks {
        return Failure(MsgNoSuchTask);
      }
      tasks := tasks - {taskId};
      r := Success(MsgTaskDeleted);
    }
  }

  /** The SET clauses an update body produces, applied in order, give `ApplyPatch`. */
  lemma AssignAllMatchesPatch(row: TaskRow, p: Patch, clauses: seq<Assignment>)
    requires clauses ==
      (if p.title.Some? then [SetTitle(p.title.value)] else [])
      + (if p.category.Some? then [SetCategory(p.category.value)] else [])
      + (if p.completed.Some? then [SetCompleted(CompletedFlag(p.completed.value))] else [])
    ensures AssignAll(row, clauses) == ApplyPatch(row, p)
  {
    var row1 := if p.title.Some? then Assign(row, SetTitle(p.title.value)) else row;
    var row2 := if p.category.Some? then Assign(row1, SetCategory(p.category.value)) else row1;
    var tail2 := if p.completed.Some? then [SetCompleted(CompletedFlag(p.completed.value))] else [];
    var tail1 := (if p.category.Some? then [SetCategory(p.category.value)] else []) + tail2;
    assert AssignAll(row2, tail2) == ApplyPatch(row, p);
    assert AssignAll(row1, tail1) == AssignAll(row2, tail2) by {
      if p.category.Some? {
        assert tail1[0] == SetCategory(p.category.value) && tail1[1..] == tail2;
      } else {
        assert tail1 == tail2;
      }
    }
    assert AssignAll(row, clauses) == AssignAll(row1, tail1) by {
      if p.title.Some? {
        assert clauses[0] == SetTitle(p.title.value) && clauses[1..] == tail1;
      } else {
        assert clauses == tail1;
      }
    }
  }
}
