/**
 * The task-list view-model of the front end: a local cache of the user's
 * tasks, the add-form drafts, the two filter selections and a single-slot
 * inline-edit session. Every write goes to the remote task service and, on
 * success, is followed by a full reload of the cache; nothing is patched
 * locally and nothing changes when a call fails.
 *
 * A remote call is request plus completion in one step: each handler takes
 * the replies it would receive as parameters and returns the requests it
 * issued, in order.
 */
module TodoList {
  import opened Remote

  /** Sentinel category substituted for an empty category. */
  const Uncategorized := "未分类"
  /** The filter value that matches every task. */
  const All := "all"

  /** A task as the task service returns it. `createdAt` is opaque here. */
  datatype Task = Task(id: int, title: string, category: string, completed: bool, createdAt: int)

  /** The requests the view-model sends to the task service. */
  datatype Request =
    | ListTasks(username: string)
    | CreateTask(username: string, title: string, category: string)
    | SetCompleted(id: int, completed: bool)
    | EditTask(id: int, title: string, category: string)
    | RemoveTask(id: int)

  // ---------------------------------------------------------------------
  // String helpers

  /**
   * The characters JavaScript's `String.prototype.trim` removes: the
   * WhiteSpace and LineTerminator productions of ECMAScript, that is TAB,
   * VT, FF, SP, NBSP, ZWNBSP, the Unicode "Zs" spaces, LF, CR, LS and PS.
   */
  predicate IsJsWhitespace(c: char)
    ensures IsJsWhitespace(c) ==> c <= '\U{FEFF}'
    ensures c == '\U{85}' || c == '\U{180E}' || c == '\U{200B}' ==> !IsJsWhitespace(c)
  {
    c == '\t' || c == '\n' || c == '\U{0B}' || c == '\U{0C}' || c == '\r' || c == ' '
    || c == '\U{A0}' || c == '\U{1680}' || ('\U{2000}' <= c <= '\U{200A}')
    || c == '\U{2028}' || c == '\U{2029}' || c == '\U{202F}' || c == '\U{205F}'
    || c == '\U{3000}' || c == '\U{FEFF}'
  }

  /** `s.trimStart()`: `s` without its leading whitespace. */
  function TrimStart(s: string): (r: string)
    ensures |r| <= |s| && r == s[|s| - |r|..]
    ensures forall i :: 0 <= i < |s| - |r| ==> IsJsWhitespace(s[i])
    ensures r == "" || !IsJsWhitespace(r[0])
  {
    if s != "" && IsJsWhitespace(s[0]) then TrimStart(s[1..]) else s
  }

  /** `s.trimEnd()`: `s` without its trailing whitespace. */
  function TrimEnd(s: string): (r: string)
    ensures |r| <= |s| && r == s[..|r|]
    ensures forall i :: |r| <= i < |s| ==> IsJsWhitespace(s[i])
    ensures r == "" || !IsJsWhitespace(r[|r| - 1])
  {
    if s != "" && IsJsWhitespace(s[|s| - 1]) then TrimEnd(s[..|s| - 1]) else s
  }

  /**
   * `s.trim()`: no longer than `s`, neither starting nor ending with
   * whitespace, and empty exactly when `s` is all whitespace.
   */
  function Trim(s: string): (r: string)
    ensures |r| <= |s|
    ensures r == "" || (!IsJsWhitespace(r[0]) && !IsJsWhitespace(r[|r| - 1]))
    ensures r == "" <==> forall i :: 0 <= i < |s| ==> IsJsWhitespace(s[i])
  {
    TrimBothEnds(s);
    TrimEnd(TrimStart(s))
  }

  /** What trimming both ends keeps of `s`, and when nothing is kept. */
  lemma TrimBothEnds(s: string)
    ensures var r := TrimEnd(TrimStart(s));
      && (r == "" || (!IsJsWhitespace(r[0]) && !IsJsWhitespace(r[|r| - 1])))
      && (r == "" <==> forall i :: 0 <= i < |s| ==> IsJsWhitespace(s[i]))
  {
    var t := TrimStart(s);
    var r := TrimEnd(t);
    if r != "" {
      assert r[0] == t[0];
    }
  }

  /** `!s.trim()`: nothing is left once surrounding whitespace is removed. */
  predicate IsBlank(s: string) {
    Trim(s) == ""
  }

  /**
   * `category || '未分类'`: only the empty string is replaced; a category
   * made of spaces is sent as it is.
   */
  function CategoryOrDefault(category: string): (r: string)
    ensures r != ""
    ensures category != "" ==> r == category
    ensures r != category ==> r == Uncategorized
  {
    if category == "" then Uncategorized else category
  }

  // ---------------------------------------------------------------------
  // Category list (getCategories)

  /** No element occurs twice. */
  predicate NoDuplicates(s: seq<string>) {
    forall i, j :: 0 <= i < j < |s| ==> s[i] != s[j]
  }

  /**
   * The elements of `s` in the order a JavaScript `Set` built from `s`
   * enumerates them: each distinct value once, at the place it first occurs.
   */
  function DistinctInOrder(s: seq<string>): (r: seq<string>)
    ensures NoDuplicates(r)
    ensures forall x :: x in r <==> x in s
    ensures |r| <= |s|
    decreases |s|
  {
    if s == [] then []
    else
      var prefix := DistinctInOrder(s[..|s| - 1]);
      var last := s[|s| - 1];
      if last in prefix then prefix else prefix + [last]
  }

  /** The position at which `x` first occurs in `s`. */
  function FirstIndex(s: seq<string>, x: string): (k: nat)
    requires x in s
    ensures k < |s| && s[k] == x && x !in s[..k]
  {
    if s[0] == x then 0
    else
      assert x in s[1..] by {
        var i :| 0 <= i < |s| && s[i] == x;
        assert s[1..][i - 1] == x;
      }
      1 + FirstIndex(s[1..], x)
  }

  /** The values of `r`, all taken from `s`, come in the order they first occur in `s`. */
  predicate InFirstOccurrenceOrder(r: seq<string>, s: seq<string>)
    requires forall x :: x in r ==> x in s
  {
    forall i, j :: 0 <= i < j < |r| ==> FirstIndex(s, r[i]) < FirstIndex(s, r[j])
  }

  /** Appending to a sequence does not move the first occurrence of a value already in it. */
  lemma {:induction false} FirstIndexOfExtension(p: seq<string>, tail: seq<string>, x: string)
    requires x in p
    ensures FirstIndex(p + tail, x) == FirstIndex(p, x)
  {
    if p[0] != x {
      assert (p + tail)[1..] == p[1..] + tail;
      assert x in p[1..] by {
        var i :| 0 <= i < |p| && p[i] == x;
        assert p[1..][i - 1] == x;
      }
      FirstIndexOfExtension(p[1..], tail, x);
    }
  }

  /**
   * An order by first occurrence in `p` is still one in `p + [last]`, and
   * it extends with `last` when `last` is new.
   */
  lemma OrderSurvivesExtension(p: seq<string>, last: string, r: seq<string>)
    requires forall x :: x in r ==> x in p
    requires InFirstOccurrenceOrder(r, p)
    ensures InFirstOccurrenceOrder(r, p + [last])
    ensures last !in p ==> InFirstOccurrenceOrder(r + [last], p + [last])
  {
    var s := p + [last];
    forall x | x in r ensures FirstIndex(s, x) == FirstIndex(p, x) < |p| {
      FirstIndexOfExtension(p, [last], x);
    }
    if last !in p {
      var r' := r + [last];
      assert FirstIndex(s, last) == |p| by {
        assert s[..|p|] == p;
      }
      forall i, j | 0 <= i < j < |r'| ensures FirstIndex(s, r'[i]) < FirstIndex(s, r'[j]) {
        assert r'[i] == r[i];
        if j < |r| {
          assert r'[j] == r[j];
        }
      }
    }
  }

  /** `DistinctInOrder` keeps values in the order of their first occurrence. */
  lemma {:induction false} DistinctInOrderKeepsFirstOccurrenceOrder(s: seq<string>)
    ensures InFirstOccurrenceOrder(DistinctInOrder(s), s)
    decreases |s|
  {
    if s != [] {
      var p := s[..|s| - 1];
      var last := s[|s| - 1];
      assert s == p + [last];
      DistinctInOrderKeepsFirstOccurrenceOrder(p);
      OrderSurvivesExtension(p, last, DistinctInOrder(p));
    }
  }

  /** The categories of `tasks`, in task order, duplicates included. */
  function CategoriesOf(tasks: seq<Task>): (cs: seq<string>)
    ensures |cs| == |tasks|
    ensures forall i :: 0 <= i < |tasks| ==> cs[i] == tasks[i].category
  {
    seq(|tasks|, i requires 0 <= i < |tasks| => tasks[i].category)
  }

  /**
   * `getCategories`: `'all'` followed by every category that occurs among
   * the tasks, once each, in first-occurrence order.
   */
  function Categories(tasks: seq<Task>): (r: seq<string>)
    ensures |r| >= 1 && r[0] == All
    ensures NoDuplicates(r[1..])
    ensures forall c :: c in r[1..] <==> exists t :: t in tasks && t.category == c
  {
    var cs := CategoriesOf(tasks);
    var r := [All] + DistinctInOrder(cs);
    assert r[1..] == DistinctInOrder(cs);
    forall c ensures c in cs <==> exists t :: t in tasks && t.category == c {
      if c in cs {
        var i :| 0 <= i < |cs| && cs[i] == c;
        assert tasks[i] in tasks;
      }
      if exists t :: t in tasks && t.category == c {
        var t :| t in tasks && t.category == c;
        var i :| 0 <= i < |tasks| && tasks[i] == t;
        assert cs[i] == c;
      }
    }
    r
  }

  /** Categories after `'all'` come in the order they first occur among the tasks. */
  lemma CategoriesInFirstOccurrenceOrder(tasks: seq<Task>)
    ensures InFirstOccurrenceOrder(Categories(tasks)[1..], CategoriesOf(tasks))
  {
    var cs := CategoriesOf(tasks);
    var r := Categories(tasks);
    assert r[1..] == DistinctInOrder(cs);
    DistinctInOrderKeepsFirstOccurrenceOrder(cs);
  }

  /** With no tasks the category list is just `'all'`. */
  lemma CategoriesOfNoTasks()
    ensures Categories([]) == [All]
  {
    assert CategoriesOf([]) == [];
  }

  /** An example: categories work, home, work give all, work, home. */
  lemma CategoriesExample(a: Task, b: Task, c: Task)
    requires a.category == "work" && b.category == "home" && c.category == "work"
    ensures Categories([a, b, c]) == [All, "work", "home"]
  {
    var cs := CategoriesOf([a, b, c]);
    assert cs == ["work", "home", "work"];
    assert cs[..2] == ["work", "home"];
    assert cs[..2][..1] == ["work"];
    assert ["work"][..0] == [];
    assert DistinctInOrder(["work"]) == ["work"];
    assert DistinctInOrder(["work", "home"]) == ["work", "home"];
  }

  // ---------------------------------------------------------------------
  // Visible tasks (filteredTasks)

  /**
   * `statusMatch && categoryMatch`. The status filter is one of "all",
   * "completed" and "pending"; any other value matches no task.
   */
  predicate Matches(t: Task, status: string, category: string)
    ensures status == All && category == All ==> Matches(t, status, category)
    ensures Matches(t, status, category) ==> category == All || t.category == category
    ensures status == "completed" && Matches(t, status, category) ==> t.completed
    ensures status == "pending" && Matches(t, status, category) ==> !t.completed
    ensures status != All && status != "completed" && status != "pending" ==> !Matches(t, status, category)
  {
    (status == All || (status == "completed" && t.completed) || (status == "pending" && !t.completed))
    && (category == All || t.category == category)
  }

  /** `tasks.filter(...)`: the tasks that match both filters, in cache order. */
  function Filtered(tasks: seq<Task>, status: string, category: string): (r: seq<Task>)
    ensures forall t :: t in r <==> t in tasks && Matches(t, status, category)
    ensures |r| <= |tasks|
  {
    if tasks == [] then []
    else if Matches(tasks[0], status, category) then [tasks[0]] + Filtered(tasks[1..], status, category)
    else Filtered(tasks[1..], status, category)
  }

  /** `a` is `b` with some elements left out, the rest in the same order. */
  predicate IsSubsequence(a: seq<Task>, b: seq<Task>)
    decreases |b|
  {
    a == [] || (b != [] && if a[0] == b[0] then IsSubsequence(a[1..], b[1..]) else IsSubsequence(a, b[1..]))
  }

  /** The visible list keeps the cache's order. */
  lemma {:induction false} FilteredIsSubsequence(tasks: seq<Task>, status: string, category: string)
    ensures IsSubsequence(Filtered(tasks, status, category), tasks)
  {
    if tasks != [] {
      FilteredIsSubsequence(tasks[1..], status, category);
    }
  }

  /** Every matching task is kept as often as it occurs; no other task is kept. */
  lemma {:induction false} FilteredCounts(tasks: seq<Task>, status: string, category: string, t: Task)
    ensures multiset(Filtered(tasks, status, category))[t]
         == if Matches(t, status, category) then multiset(tasks)[t] else 0
  {
    if tasks != [] {
      FilteredCounts(tasks[1..], status, category, t);
      assert tasks == [tasks[0]] + tasks[1..];
    }
  }

  /** With both filters at `'all'` the visible list is the whole cache. */
  lemma {:induction false} FilteredAllIsIdentity(tasks: seq<Task>)
    ensures Filtered(tasks, All, All) == tasks
  {
    if tasks != [] {
      FilteredAllIsIdentity(tasks[1..]);
      assert tasks == [tasks[0]] + tasks[1..];
    }
  }

  /** An example: "completed" keeps only the completed task. */
  lemma FilteredCompletedExample(a: Task, b: Task)
    requires a.completed && !b.completed
    ensures Filtered([a, b], "completed", All) == [a]
  {
    assert [a, b][1..] == [b];
    assert [b][1..] == [];
  }

  // ---------------------------------------------------------------------
  // The view-model

  /** `loadTasks`: the cache after a list reply; only a reply carrying `tasks` replaces it. */
  function AfterLoad(cache: seq<Task>, reply: Reply<Option<seq<Task>>>): (r: seq<Task>)
    ensures reply.Answered? && reply.body.Some? ==> r == reply.body.value
    ensures reply.NetworkError? || reply.body.None? ==> r == cache
  {
    match reply
    case Answered(Some(ts)) => ts
    case _ => cache
  }

  class TodoListView {
    /** The signed-in user, fixed for the component's lifetime. */
    const username: string

    var tasks: seq<Task>
    var newTask: string
    var newTaskCategory: string
    var filterStatus: string
    var filterCategory: string
    /** The edit session: the id being edited (null when none) and its drafts. */
    var editingTask: Option<int>
    var editText: string
    var editCategory: string

    /** The state on mount, before the first load completes. */
    constructor (username: string)
      ensures this.username == username
      ensures tasks == [] && newTask == "" && newTaskCategory == ""
      ensures filterStatus == All && filterCategory == All
      ensures editingTask == None && editText == "" && editCategory == ""
    {
      this.username := username;
      tasks, newTask, newTaskCategory := [], "", "";
      filterStatus, filterCategory := All, All;
      editingTask, editText, editCategory := None, "", "";
    }

    /** The category options of the filter selector. */
    function GetCategories(): (r: seq<string>)
      reads this
      ensures |r| >= 1 && r[0] == All
      ensures forall c :: c in r[1..] <==> exists t :: t in tasks && t.category == c
    {
      Categories(tasks)
    }

    /** The tasks shown under the current filter selection. */
    function FilteredTasks(): (r: seq<Task>)
      reads this
      ensures forall t :: t in r <==> t in tasks && Matches(t, filterStatus, filterCategory)
      ensures filterStatus == All && filterCategory == All ==> r == tasks
    {
      FilteredAllIsIdentity(tasks);
      Filtered(tasks, filterStatus, filterCategory)
    }

    /** `loadTasks`: one list request; the cache is replaced only by a reply carrying tasks. */
    method LoadTasks(reply: Reply<Option<seq<Task>>>) returns (sent: seq<Request>)
      modifies this`tasks
      ensures sent == [ListTasks(username)]
      ensures tasks == AfterLoad(old(tasks), reply)
    {
      sent := [ListTasks(username)];
      if reply.Answered? && reply.body.Some? {
        tasks := reply.body.value;
      }
    }

    /**
     * `handleAddTask`: a blank title sends nothing; otherwise one create
     * request with the category defaulted, and on success a reload and
     * empty add-form drafts.
     */
    method HandleAddTask(reply: Reply<bool>, reload: Reply<Option<seq<Task>>>) returns (sent: seq<Request>)
      modifies this`tasks, this`newTask, this`newTaskCategory
      ensures IsBlank(old(newTask)) ==> sent == [] && unchanged(this)
      ensures !IsBlank(old(newTask)) && !Succeeded(reply) ==>
        sent == [CreateTask(username, old(newTask), CategoryOrDefault(old(newTaskCategory)))] && unchanged(this)
      ensures !IsBlank(old(newTask)) && Succeeded(reply) ==>
        && sent == [CreateTask(username, old(newTask), CategoryOrDefault(old(newTaskCategory))), ListTasks(username)]
        && tasks == AfterLoad(old(tasks), reload)
        && newTask == "" && newTaskCategory == ""
    {
      if IsBlank(newTask) {
        return [];
      }
      sent := [CreateTask(username, newTask, CategoryOrDefault(newTaskCategory))];
      if Succeeded(reply) {
        var reloadSent := LoadTasks(reload);
        sent := sent + reloadSent;
        newTask := "";
        newTaskCategory := "";
      }
    }

    /** `handleToggleComplete(id, completed)`: asks for the opposite flag; reloads on success. */
    method HandleToggleComplete(id: int, completed: bool, reply: Reply<bool>, reload: Reply<Option<seq<Task>>>)
      returns (sent: seq<Request>)
      modifies this`tasks
      ensures !Succeeded(reply) ==> sent == [SetCompleted(id, !completed)] && tasks == old(tasks)
      ensures Succeeded(reply) ==>
        sent == [SetCompleted(id, !completed), ListTasks(username)] && tasks == AfterLoad(old(tasks), reload)
    {
      sent := [SetCompleted(id, !completed)];
      if Succeeded(reply) {
        var reloadSent := LoadTasks(reload);
        sent := sent + reloadSent;
      }
    }

    /** `handleDeleteTask(id)`: nothing is sent unless the user confirms; reloads on success. */
    method HandleDeleteTask(id: int, confirmed: bool, reply: Reply<bool>, reload: Reply<Option<seq<Task>>>)
      returns (sent: seq<Request>)
      modifies this`tasks
      ensures !confirmed ==> sent == [] && tasks == old(tasks)
      ensures confirmed && !Succeeded(reply) ==> sent == [RemoveTask(id)] && tasks == old(tasks)
      ensures confirmed && Succeeded(reply) ==>
        sent == [RemoveTask(id), ListTasks(username)] && tasks == AfterLoad(old(tasks), reload)
    {
      sent := [];
      if confirmed {
        sent := [RemoveTask(id)];
        if Succeeded(reply) {
          var reloadSent := LoadTasks(reload);
          sent := sent + reloadSent;
        }
      }
    }

    /** `handleStartEdit(task)`: opens a session on `task`, discarding any earlier draft. */
    method HandleStartEdit(task: Task)
      modifies this`editingTask, this`editText, this`editCategory
      ensures editingTask == Some(task.id) && editText == task.title && editCategory == task.category
    {
      editingTask := Some(task.id);
      editText := task.title;
      editCategory := task.category;
    }

    /**
     * `handleSaveEdit(id)`: a blank draft title sends nothing and leaves the
     * session open; otherwise one update with the category defaulted, and on
     * success a reload and a closed session.
     */
    method HandleSaveEdit(id: int, reply: Reply<bool>, reload: Reply<Option<seq<Task>>>) returns (sent: seq<Request>)
      modifies this`tasks, this`editingTask, this`editText, this`editCategory
      ensures IsBlank(old(editText)) ==> sent == [] && unchanged(this)
      ensures !IsBlank(old(editText)) && !Succeeded(reply) ==>
        sent == [EditTask(id, old(editText), CategoryOrDefault(old(editCategory)))] && unchanged(this)
      ensures !IsBlank(old(editText)) && Succeeded(reply) ==>
        && sent == [EditTask(id, old(editText), CategoryOrDefault(old(editCategory))), ListTasks(username)]
        && tasks == AfterLoad(old(tasks), reload)
        && editingTask == None && editText == "" && editCategory == ""
    {
      if IsBlank(editText) {
        return [];
      }
      sent := [EditTask(id, editText, CategoryOrDefault(editCategory))];
      if Succeeded(reply) {
        var reloadSent := LoadTasks(reload);
        sent := sent + reloadSent;
        editingTask := None;
        editText := "";
        editCategory := "";
      }
    }

    /** `handleCancelEdit`: closes the session without a request. */
    method HandleCancelEdit()
      modifies this`editingTask, this`editText, this`editCategory
      ensures editingTask == None && editText == "" && editCategory == ""
    {
      editingTask, editText, editCategory := None, "", "";
    }

    /** The title input's change handler. */
    method SetNewTask(text: string)
      modifies this`newTask
      ensures newTask == text
    {
      newTask := text;
    }

    /** The category input's change handler. */
    method SetNewTaskCategory(text: string)
      modifies this`newTaskCategory
      ensures newTaskCategory == text
    {
      newTaskCategory := text;
    }

    /** The status selector's change handler. */
    method SetFilterStatus(status: string)
      modifies this`filterStatus
      ensures filterStatus == status
    {
      filterStatus := status;
    }

    /** The category selector's change handler. */
    method SetFilterCategory(category: string)
      modifies this`filterCategory
      ensures filterCategory == category
    {
      filterCategory := category;
    }

    /** The edit-title input's change handler. */
    method SetEditText(text: string)
      modifies this`editText
      ensures editText == text
    {
      editText := text;
    }

    /** The edit-category input's change handler. */
    method SetEditCategory(text: string)
      modifies this`editCategory
      ensures editCategory == text
    {
      editCategory := text;
    }
  }

  /**
   * Starting an edit on `b` after one on `a` whose drafts were changed
   * leaves only `b`'s values in the session.
   */
  method StartEditDiscardsDraft(view: TodoListView, a: Task, b: Task, draft: string)
    modifies view
    ensures view.editingTask == Some(b.id) && view.editText == b.title && view.editCategory == b.category
    ensures view.tasks == old(view.tasks)
  {
    view.HandleStartEdit(a);
    view.SetEditText(draft);
    view.HandleStartEdit(b);
  }
}
