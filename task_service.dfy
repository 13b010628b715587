/** The in-memory task repository: two tables changed in place, each written back to local storage
    after every successful mutation. */
module Service {
  import opened Wrappers
  import opened Seqs
  import opened Text
  import opened Tasks

  /** The subtasks `create` builds from the ones it is given: numbered base+1, base+2, ... in input order,
      keeping only the titles, all open. */
  function NumberSubtasks(drafts: seq<Subtask>, base: int): seq<Subtask> {
    seq(|drafts|, k requires 0 <= k < |drafts| => Subtask(base + k + 1, drafts[k].title, false))
  }

  /** The record `create` appends to the table `ts`. */
  function NewTask(ts: seq<Task>, data: TaskData, now: string): Task {
    Task(
      data.id.GetOr(MaxTaskId(ts) + 1), data.title, data.description, data.category, data.priority,
      data.dueDate, false, now, None, data.order,
      Some(if data.subtasks.Some? then NumberSubtasks(data.subtasks.value, MaxSubtaskId(ts)) else []))
  }

  /** Without a caller-supplied id the new task's id is one above every id in the table, and each
      new subtask id is above every subtask id in the table and distinct from the other new ones. */
  lemma NewTaskIdsFresh(ts: seq<Task>, data: TaskData, now: string)
    ensures data.id.None? ==> NewTask(ts, data, now).id == MaxTaskId(ts) + 1
    ensures data.id.None? ==> forall i :: 0 <= i < |ts| ==> ts[i].id < NewTask(ts, data, now).id
    ensures var subs := SubtasksOf(NewTask(ts, data, now));
      && (forall k, i, j :: 0 <= k < |subs| && 0 <= i < |ts| && 0 <= j < |SubtasksOf(ts[i])| ==>
            SubtasksOf(ts[i])[j].id < subs[k].id)
      && (forall k1, k2 :: 0 <= k1 < k2 < |subs| ==> subs[k1].id < subs[k2].id)
  {
  }

  /** Appending a task created without a caller-supplied id keeps the table's ids unique. */
  lemma CreateKeepsUniqueIds(ts: seq<Task>, data: TaskData, now: string)
    requires UniqueIds(ts) && data.id.None?
    ensures UniqueIds(ts + [NewTask(ts, data, now)])
  {
    var ts' := ts + [NewTask(ts, data, now)];
    forall i, j | 0 <= i < j < |ts'| ensures ts'[i].id != ts'[j].id {
      if j == |ts| {
        assert ts'[i] == ts[i];
      }
    }
  }

  /** The record `createCategory` appends to the category table `cs`. */
  function NewCategory(cs: seq<Category>, data: CategoryData): (c: Category)
    ensures data.id.None? ==> forall j :: 0 <= j < |cs| ==> cs[j].id < c.id
    ensures c.name == data.name
  {
    Category(data.id.GetOr(MaxCategoryId(cs) + 1), data.name)
  }

  /** Where a subtask operation acts: the first task with `taskId`, then the first subtask in its list
      with `subtaskId`, or the error the operation throws. */
  function LocateSubtask(ts: seq<Task>, taskId: int, subtaskId: int): (r: Result<(nat, nat), Error>)
    ensures r == Err(TaskNotFound) <==> FindTask(ts, taskId).None?
    ensures r.Ok? ==> FindTask(ts, taskId) == Some(r.value.0)
    ensures r.Ok? ==>
      && r.value.0 < |ts| && ts[r.value.0].subtasks.Some?
      && r.value.1 < |ts[r.value.0].subtasks.value|
      && ts[r.value.0].subtasks.value[r.value.1].id == subtaskId
    ensures r.Ok? ==> FindSubtask(ts[r.value.0].subtasks.value, subtaskId) == Some(r.value.1)
    ensures r == Err(SubtaskNotFound) <==>
      exists i :: FindTask(ts, taskId) == Some(i)
        && (ts[i].subtasks.None? || FindSubtask(ts[i].subtasks.value, subtaskId).None?)
  {
    match FindTask(ts, taskId)
    case None => Err(TaskNotFound)
    case Some(i) =>
      if ts[i].subtasks.None? then Err(SubtaskNotFound)
      else match FindSubtask(ts[i].subtasks.value, subtaskId)
        case None => Err(SubtaskNotFound)
        case Some(k) => Ok((i, k))
  }

  /** The table after one step of `reorderTasks`: the first task with `id` gets `order = pos`. */
  function SetOrder(ts: seq<Task>, id: int, pos: int): seq<Task> {
    match FindTask(ts, id)
    case None => ts
    case Some(i) => ts[i := ts[i].(order := Some(pos))]
  }

  /** The table after `reorderTasks` has processed the first n entries of `rs`. */
  function Reordered(ts: seq<Task>, rs: seq<Task>, n: nat): seq<Task>
    requires n <= |rs|
  {
    if n == 0 then ts else SetOrder(Reordered(ts, rs, n - 1), rs[n - 1].id, n - 1)
  }

  /** The last position before n at which `rs` lists `id`. */
  function LastPosition(rs: seq<Task>, id: int, n: nat): (r: Option<nat>)
    requires n <= |rs|
    ensures r.Some? ==> r.value < n && rs[r.value].id == id
    ensures r.Some? ==> forall p :: r.value < p < n ==> rs[p].id != id
    ensures r.None? <==> forall p :: 0 <= p < n ==> rs[p].id != id
  {
    if n == 0 then None
    else if rs[n - 1].id == id then Some(n - 1)
    else LastPosition(rs, id, n - 1)
  }

  /** The task at position j once `reorderTasks` has processed the first n entries of `rs`: the first
      task with a listed id takes as `order` the last position at which that id is listed. */
  function ReorderedTask(ts: seq<Task>, rs: seq<Task>, n: nat, j: nat): Task
    requires n <= |rs| && j < |ts|
  {
    var last := LastPosition(rs, ts[j].id, n);
    if FindTask(ts, ts[j].id) == Some(j) && last.Some? then ts[j].(order := Some(last.value)) else ts[j]
  }

  /** What `reorderTasks` does to each position of the table: the first task with a listed id takes as
      `order` the last position at which that id is listed; every other task, and every other field,
      is unchanged, and the table keeps its length. */
  lemma {:induction false} ReorderedAt(ts: seq<Task>, rs: seq<Task>, n: nat, j: nat)
    requires n <= |rs| && j < |ts|
    ensures |Reordered(ts, rs, n)| == |ts|
    ensures Reordered(ts, rs, n)[j] == ReorderedTask(ts, rs, n, j)
  {
    ReorderedKeepsIds(ts, rs, n);
    if n > 0 {
      var prev := Reordered(ts, rs, n - 1);
      ReorderedKeepsIds(ts, rs, n - 1);
      ReorderedAt(ts, rs, n - 1, j);
      ReorderStep(ts, prev, rs, n, j);
    }
  }

  /** The induction step of ReorderedAt. */
  lemma ReorderStep(ts: seq<Task>, prev: seq<Task>, rs: seq<Task>, n: nat, j: nat)
    requires 0 < n <= |rs| && j < |ts| && |prev| == |ts|
    requires forall i :: 0 <= i < |ts| ==> prev[i].id == ts[i].id
    requires prev[j] == ReorderedTask(ts, rs, n - 1, j)
    ensures SetOrder(prev, rs[n - 1].id, n - 1)[j] == ReorderedTask(ts, rs, n, j)
  {
    var id := rs[n - 1].id;
    FindTaskSameIds(prev, ts, id);
    SetOrderAt(prev, id, n - 1, j);
    if FindTask(ts, id) == Some(j) {
      assert LastPosition(rs, ts[j].id, n) == Some(n - 1);
    } else if ts[j].id == id {
      assert FindTask(ts, ts[j].id) != Some(j);
    } else {
      assert LastPosition(rs, ts[j].id, n) == LastPosition(rs, ts[j].id, n - 1);
    }
  }

  /** One step of `reorderTasks` at one position: only the first task with the id gets the new order. */
  lemma SetOrderAt(ts: seq<Task>, id: int, pos: int, j: nat)
    requires j < |ts|
    ensures |SetOrder(ts, id, pos)| == |ts|
    ensures SetOrder(ts, id, pos)[j] == if FindTask(ts, id) == Some(j) then ts[j].(order := Some(pos)) else ts[j]
  {
  }

  /** `reorderTasks` changes no id and no length. */
  lemma {:induction false} ReorderedKeepsIds(ts: seq<Task>, rs: seq<Task>, n: nat)
    requires n <= |rs|
    ensures |Reordered(ts, rs, n)| == |ts|
    ensures forall j :: 0 <= j < |ts| ==> Reordered(ts, rs, n)[j].id == ts[j].id
  {
    if n > 0 {
      ReorderedKeepsIds(ts, rs, n - 1);
    }
  }

  predicate IsCompleted(t: Task) { t.completed }

  predicate IsActive(t: Task) { !t.completed }

  /** The repository. `savedTasks` and `savedCategories` stand for the two local-storage entries
      (None while the key is absent). */
  class TaskService {
    var tasks: seq<Task>
    var categories: seq<Category>
    var savedTasks: Option<seq<Task>>
    var savedCategories: Option<seq<Category>>

    /** Loads each table from its storage entry, falling back to the bundled seed data. */
    constructor (storedTasks: Option<seq<Task>>, storedCategories: Option<seq<Category>>,
                 seedTasks: seq<Task>, seedCategories: seq<Category>)
      ensures tasks == storedTasks.GetOr(seedTasks) && categories == storedCategories.GetOr(seedCategories)
      ensures savedTasks == storedTasks && savedCategories == storedCategories
    {
      tasks := storedTasks.GetOr(seedTasks);
      categories := storedCategories.GetOr(seedCategories);
      savedTasks := storedTasks;
      savedCategories := storedCategories;
    }

    /** `getAll`: a copy of the table. */
    function GetAll(): (r: seq<Task>)
      reads this
      ensures |r| == |tasks| && forall i :: 0 <= i < |r| ==> r[i] == tasks[i]
    {
      tasks
    }

    /** `getById`: the first task with that id, or nothing. */
    function GetById(id: int): (r: Option<Task>)
      reads this
      ensures r.None? <==> forall i :: 0 <= i < |tasks| ==> tasks[i].id != id
      ensures r.Some? ==> r.value.id == id && r.value in tasks
      ensures r.Some? ==>
        exists i :: 0 <= i < |tasks| && tasks[i] == r.value && forall j :: 0 <= j < i ==> tasks[j].id != id
    {
      match FindTask(tasks, id)
      case None => None
      case Some(i) => Some(tasks[i])
    }

    /** `create`: appends the new task, numbering its subtasks above every subtask in the table. */
    method Create(data: TaskData, now: string) returns (r: Task)
      modifies this
      ensures r == NewTask(old(tasks), data, now)
      ensures tasks == old(tasks) + [r] && savedTasks == Some(tasks)
      ensures !r.completed && r.completedAt == None && r.createdAt == now
      ensures data.id.None? ==> r.id == MaxTaskId(old(tasks)) + 1
      ensures data.subtasks.None? ==> r.subtasks == Some([])
      ensures data.subtasks.Some? ==>
        && r.subtasks.Some? && |r.subtasks.value| == |data.subtasks.value|
        && forall k :: 0 <= k < |data.subtasks.value| ==>
             r.subtasks.value[k] == Subtask(MaxSubtaskId(old(tasks)) + k + 1, data.subtasks.value[k].title, false)
      ensures UniqueIds(old(tasks)) && data.id.None? ==> UniqueIds(tasks)
      ensures categories == old(categories) && savedCategories == old(savedCategories)
      ensures AllConsistent(old(tasks)) ==> AllConsistent(tasks)
    {
      r := NewTask(tasks, data, now);
      if UniqueIds(tasks) && data.id.None? {
        CreateKeepsUniqueIds(tasks, data, now);
      }
      tasks := tasks + [r];
      savedTasks := Some(tasks);
    }

    /** `update`: shallow-merges the patch into the first task with that id. */
    method Update(id: int, patch: TaskPatch) returns (r: Result<Task, Error>)
      modifies this
      ensures FindTask(old(tasks), id).None? ==> r == Err(TaskNotFound) && unchanged(this)
      ensures FindTask(old(tasks), id).Some? ==>
        var i := FindTask(old(tasks), id).value;
        && r == Ok(Merge(old(tasks)[i], patch))
        && tasks == old(tasks)[i := r.value]
        && savedTasks == Some(tasks)
      ensures UniqueIds(old(tasks)) && patch.id.None? ==> UniqueIds(tasks)
      ensures categories == old(categories) && savedCategories == old(savedCategories)
      ensures AllConsistent(old(tasks)) && patch.completed.None? && patch.completedAt.None? ==> AllConsistent(tasks)
    {
      var found := FindTask(tasks, id);
      if found.None? {
        return Err(TaskNotFound);
      }
      var i := found.value;
      tasks := tasks[i := Merge(tasks[i], patch)];
      savedTasks := Some(tasks);
      r := Ok(tasks[i]);
    }

    /** `delete`: removes the first task with that id, keeping the others in order. */
    method Delete(id: int) returns (r: Result<bool, Error>)
      modifies this
      ensures FindTask(old(tasks), id).None? ==> r == Err(TaskNotFound) && unchanged(this)
      ensures FindTask(old(tasks), id).Some? ==>
        var i := FindTask(old(tasks), id).value;
        && r == Ok(true)
        && tasks == old(tasks)[..i] + old(tasks)[i + 1..]
        && savedTasks == Some(tasks)
      ensures UniqueIds(old(tasks)) ==> UniqueIds(tasks) && FindTask(tasks, id).None?
      ensures categories == old(categories) && savedCategories == old(savedCategories)
      ensures AllConsistent(old(tasks)) ==> AllConsistent(tasks)
    {
      var found := FindTask(tasks, id);
      if found.None? {
        return Err(TaskNotFound);
      }
      DeleteRemovesId(tasks, found.value);
      tasks := RemoveAt(tasks, found.value);
      savedTasks := Some(tasks);
      r := Ok(true);
    }

    /** `toggleComplete`: flips `completed` of the first task with that id and sets or clears `completedAt`. */
    method ToggleComplete(id: int, now: string) returns (r: Result<Task, Error>)
      modifies this
      ensures FindTask(old(tasks), id).None? ==> r == Err(TaskNotFound) && unchanged(this)
      ensures FindTask(old(tasks), id).Some? ==>
        var i := FindTask(old(tasks), id).value;
        && r == Ok(ToggleTask(old(tasks)[i], now))
        && tasks == old(tasks)[i := r.value]
        && savedTasks == Some(tasks)
      ensures UniqueIds(old(tasks)) ==> UniqueIds(tasks)
      ensures categories == old(categories) && savedCategories == old(savedCategories)
      ensures AllConsistent(old(tasks)) ==> AllConsistent(tasks)
    {
      var found := FindTask(tasks, id);
      if found.None? {
        return Err(TaskNotFound);
      }
      var i := found.value;
      tasks := tasks[i := ToggleTask(tasks[i], now)];
      savedTasks := Some(tasks);
      r := Ok(tasks[i]);
    }

    /** `getCategories`: a copy of the category table. */
    function GetCategories(): (r: seq<Category>)
      reads this
      ensures |r| == |categories| && forall i :: 0 <= i < |r| ==> r[i] == categories[i]
    {
      categories
    }

    /** `createCategory`: appends a category with the next free id. */
    method CreateCategory(data: CategoryData) returns (r: Category)
      modifies this
      ensures r == NewCategory(old(categories), data)
      ensures data.id.None? ==> r.id == MaxCategoryId(old(categories)) + 1
      ensures categories == old(categories) + [r] && savedCategories == Some(categories)
      ensures tasks == old(tasks) && savedTasks == old(savedTasks)
    {
      r := NewCategory(categories, data);
      categories := categories + [r];
      savedCategories := Some(categories);
    }

    /** `getCompletedTasks`. */
    function GetCompletedTasks(): (r: seq<Task>)
      reads this
      ensures forall t :: t in r <==> t in tasks && t.completed
    {
      Filter(tasks, IsCompleted)
    }

    /** `getActiveTasks`. */
    function GetActiveTasks(): (r: seq<Task>)
      reads this
      ensures forall t :: t in r <==> t in tasks && !t.completed
    {
      Filter(tasks, IsActive)
    }

    /** `getTasksByCategory`. */
    function GetTasksByCategory(category: string): (r: seq<Task>)
      reads this
      ensures forall t :: t in r <==> t in tasks && t.category == category
    {
      Filter(tasks, (t: Task) => t.category == category)
    }

    /** `getTasksByPriority`. */
    function GetTasksByPriority(priority: string): (r: seq<Task>)
      reads this
      ensures forall t :: t in r <==> t in tasks && t.priority == priority
    {
      Filter(tasks, (t: Task) => t.priority == priority)
    }

    /** `getTodaysTasks`, with today's date (yyyy-mm-dd) passed in. */
    function GetTodaysTasks(today: string): (r: seq<Task>)
      reads this
      ensures forall t :: t in r <==> t in tasks && t.dueDate == today && !t.completed
    {
      Filter(tasks, (t: Task) => t.dueDate == today && !t.completed)
    }

    /** `getOverdueTasks`, with today's date passed in; due dates compare as strings. */
    function GetOverdueTasks(today: string): (r: seq<Task>)
      reads this
      ensures forall t :: t in r <==> t in tasks && LexLess(t.dueDate, today) && !t.completed
    {
      Filter(tasks, (t: Task) => LexLess(t.dueDate, today) && !t.completed)
    }

    /** `reorderTasks`: for each listed task in turn, the first table task with its id takes the list
        position as `order`. */
    method ReorderTasks(reordered: seq<Task>) returns (ok: bool)
      modifies this
      ensures tasks == Reordered(old(tasks), reordered, |reordered|)
      ensures |tasks| == |old(tasks)|
      ensures ok && savedTasks == Some(tasks)
      ensures categories == old(categories) && savedCategories == old(savedCategories)
      ensures AllConsistent(old(tasks)) ==> AllConsistent(tasks)
    {
      var index := 0;
      while index < |reordered|
        invariant 0 <= index <= |reordered|
        invariant tasks == Reordered(old(tasks), reordered, index)
        invariant categories == old(categories) && savedCategories == old(savedCategories)
      {
        var found := FindTask(tasks, reordered[index].id);
        if found.Some? {
          var k := found.value;
          tasks := tasks[k := tasks[k].(order := Some(index))];
        }
        index := index + 1;
      }
      ReorderedKeepsIds(old(tasks), reordered, |reordered|);
      forall j | 0 <= j < |tasks| ensures AllConsistent(old(tasks)) ==> Consistent(tasks[j]) {
        ReorderedAt(old(tasks), reordered, |reordered|, j);
      }
      savedTasks := Some(tasks);
      ok := true;
    }

    /** `createSubtask`: appends an open subtask, numbered above every subtask in the table, to the first
        task with that id, creating its list if absent. */
    method CreateSubtask(taskId: int, title: string) returns (r: Result<Task, Error>)
      modifies this
      ensures FindTask(old(tasks), taskId).None? ==> r == Err(TaskNotFound) && unchanged(this)
      ensures FindTask(old(tasks), taskId).Some? ==>
        var i := FindTask(old(tasks), taskId).value;
        var added := Subtask(MaxSubtaskId(old(tasks)) + 1, title, false);
        && r == Ok(old(tasks)[i].(subtasks := Some(SubtasksOf(old(tasks)[i]) + [added])))
        && tasks == old(tasks)[i := r.value]
        && savedTasks == Some(tasks)
      ensures categories == old(categories) && savedCategories == old(savedCategories)
      ensures AllConsistent(old(tasks)) ==> AllConsistent(tasks)
    {
      var found := FindTask(tasks, taskId);
      if found.None? {
        return Err(TaskNotFound);
      }
      var i := found.value;
      var task := tasks[i];
      if task.subtasks.None? {
        task := task.(subtasks := Some([]));
      }
      var added := Subtask(MaxSubtaskId(tasks) + 1, title, false);
      task := task.(subtasks := Some(task.subtasks.value + [added]));
      tasks := tasks[i := task];
      savedTasks := Some(tasks);
      r := Ok(task);
    }

    /** `updateSubtask`: shallow-merges the patch into the located subtask. */
    method UpdateSubtask(taskId: int, subtaskId: int, patch: SubtaskPatch) returns (r: Result<Task, Error>)
      modifies this
      ensures LocateSubtask(old(tasks), taskId, subtaskId).Err? ==>
        r == Err(LocateSubtask(old(tasks), taskId, subtaskId).error) && unchanged(this)
      ensures LocateSubtask(old(tasks), taskId, subtaskId).Ok? ==>
        var (i, k) := LocateSubtask(old(tasks), taskId, subtaskId).value;
        var subs := old(tasks)[i].subtasks.value;
        && r == Ok(old(tasks)[i].(subtasks := Some(subs[k := MergeSubtask(subs[k], patch)])))
        && tasks == old(tasks)[i := r.value]
        && savedTasks == Some(tasks)
      ensures categories == old(categories) && savedCategories == old(savedCategories)
      ensures AllConsistent(old(tasks)) ==> AllConsistent(tasks)
    {
      var found := FindTask(tasks, taskId);
      if found.None? {
        return Err(TaskNotFound);
      }
      var i := found.value;
      var task := tasks[i];
      if task.subtasks.None? {
        return Err(SubtaskNotFound);
      }
      var at := FindSubtask(task.subtasks.value, subtaskId);
      if at.None? {
        return Err(SubtaskNotFound);
      }
      var subs := task.subtasks.value;
      var k := at.value;
      task := task.(subtasks := Some(subs[k := MergeSubtask(subs[k], patch)]));
      tasks := tasks[i := task];
      savedTasks := Some(tasks);
      r := Ok(task);
    }

    /** `deleteSubtask`: removes the located subtask, keeping the others in order. */
    method DeleteSubtask(taskId: int, subtaskId: int) returns (r: Result<Task, Error>)
      modifies this
      ensures LocateSubtask(old(tasks), taskId, subtaskId).Err? ==>
        r == Err(LocateSubtask(old(tasks), taskId, subtaskId).error) && unchanged(this)
      ensures LocateSubtask(old(tasks), taskId, subtaskId).Ok? ==>
        var (i, k) := LocateSubtask(old(tasks), taskId, subtaskId).value;
        var subs := old(tasks)[i].subtasks.value;
        && r == Ok(old(tasks)[i].(subtasks := Some(subs[..k] + subs[k + 1..])))
        && tasks == old(tasks)[i := r.value]
        && savedTasks == Some(tasks)
      ensures categories == old(categories) && savedCategories == old(savedCategories)
      ensures AllConsistent(old(tasks)) ==> AllConsistent(tasks)
    {
      var found := FindTask(tasks, taskId);
      if found.None? {
        return Err(TaskNotFound);
      }
      var i := found.value;
      var task := tasks[i];
      if task.subtasks.None? {
        return Err(SubtaskNotFound);
      }
      var at := FindSubtask(task.subtasks.value, subtaskId);
      if at.None? {
        return Err(SubtaskNotFound);
      }
      task := task.(subtasks := Some(RemoveAt(task.subtasks.value, at.value)));
      tasks := tasks[i := task];
      savedTasks := Some(tasks);
      r := Ok(task);
    }

    /** `toggleSubtaskComplete`: flips the located subtask and completes the parent once every subtask is
        complete; it never reopens the parent. The body takes the source's in-place steps one by one;
        ToggleSubtaskAt states their combined result. */
    method ToggleSubtaskComplete(taskId: int, subtaskId: int, now: string) returns (r: Result<Task, Error>)
      modifies this
      ensures LocateSubtask(old(tasks), taskId, subtaskId).Err? ==>
        r == Err(LocateSubtask(old(tasks), taskId, subtaskId).error) && unchanged(this)
      ensures LocateSubtask(old(tasks), taskId, subtaskId).Ok? ==>
        var (i, k) := LocateSubtask(old(tasks), taskId, subtaskId).value;
        && r == Ok(ToggleSubtaskAt(old(tasks)[i], k, now))
        && tasks == old(tasks)[i := r.value]
        && savedTasks == Some(tasks)
      ensures categories == old(categories) && savedCategories == old(savedCategories)
      ensures AllConsistent(old(tasks)) ==> AllConsistent(tasks)
    {
      var found := FindTask(tasks, taskId);
      if found.None? {
        return Err(TaskNotFound);
      }
      var i := found.value;
      var task := tasks[i];
      if task.subtasks.None? {
        return Err(SubtaskNotFound);
      }
      var at := FindSubtask(task.subtasks.value, subtaskId);
      if at.None? {
        return Err(SubtaskNotFound);
      }
      var subs := task.subtasks.value;
      var k := at.value;
      subs := subs[k := subs[k].(completed := !subs[k].completed)];
      task := task.(subtasks := Some(subs));
      if |subs| > 0 && AllCompleted(subs) {
        task := task.(completed := true, completedAt := Some(now));
      }
      tasks := tasks[i := task];
      savedTasks := Some(tasks);
      r := Ok(task);
    }
  }

  /** With unique ids, removing the task found for an id leaves no task with that id. */
  lemma DeleteRemovesId(ts: seq<Task>, i: nat)
    requires i < |ts|
    ensures UniqueIds(ts) ==> UniqueIds(RemoveAt(ts, i)) && FindTask(RemoveAt(ts, i), ts[i].id).None?
  {
  }

  /** The active and completed queries together hold every task exactly once, each in table order. */
  lemma CompletedActivePartition(ts: seq<Task>, k: nat)
    requires k <= |ts|
    ensures |Filter(ts, IsCompleted)| + |Filter(ts, IsActive)| == |ts|
    ensures multiset(Filter(ts, IsCompleted)) + multiset(Filter(ts, IsActive)) == multiset(ts)
    ensures Filter(ts, IsCompleted) == Filter(ts[..k], IsCompleted) + Filter(ts[k..], IsCompleted)
    ensures Filter(ts, IsActive) == Filter(ts[..k], IsActive) + Filter(ts[k..], IsActive)
  {
    FilterPartition(ts, IsCompleted, IsActive);
    FilterSplit(ts, k, IsCompleted);
    FilterSplit(ts, k, IsActive);
  }

  /** No task is both due today and overdue, and neither query returns a completed task. */
  lemma TodayOverdueDisjoint(svc: TaskService, today: string, t: Task)
    ensures t in svc.GetTodaysTasks(today) ==> t !in svc.GetOverdueTasks(today) && t in svc.GetActiveTasks()
    ensures t in svc.GetOverdueTasks(today) ==> t in svc.GetActiveTasks()
  {
    LexLessTrichotomy(t.dueDate, today);
  }
}
