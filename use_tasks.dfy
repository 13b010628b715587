/** The client-side copy of the repository's tables kept by the `useTasks` hook: after each successful
    repository call the local lists are updated with the call's result; after a failed one they are left
    alone and the error is passed on. */
module Hooks {
  import opened Wrappers
  import opened Seqs
  import opened Tasks
  import opened Service

  /** `prev.map(task => task.Id === id ? updated : task)`. */
  function ReplaceById(prev: seq<Task>, id: int, updated: Task): seq<Task> {
    seq(|prev|, i requires 0 <= i < |prev| => if prev[i].id == id then updated else prev[i])
  }

  /** Replacing by id keeps the length and every task with another id, and agrees with the repository's
      replacement of the first match: it changes nothing when the id is absent and, with unique ids,
      replaces exactly the task the repository found. */
  lemma ReplaceByIdMatchesService(prev: seq<Task>, id: int, updated: Task)
    ensures |ReplaceById(prev, id, updated)| == |prev|
    ensures forall i :: 0 <= i < |prev| ==>
      ReplaceById(prev, id, updated)[i] == if prev[i].id == id then updated else prev[i]
    ensures FindTask(prev, id).None? ==> ReplaceById(prev, id, updated) == prev
    ensures UniqueIds(prev) && FindTask(prev, id).Some? ==>
      ReplaceById(prev, id, updated) == prev[FindTask(prev, id).value := updated]
  {
  }

  /** The test `task => task.Id !== id`. */
  function OtherId(id: int): Task -> bool {
    (t: Task) => t.id != id
  }

  /** `prev.filter(task => task.Id !== id)`. */
  function RemoveById(prev: seq<Task>, id: int): (r: seq<Task>)
    ensures forall t :: t in r <==> t in prev && t.id != id
  {
    Filter(prev, OtherId(id))
  }

  /** Removing by id agrees with the repository's removal of the first match: it changes nothing when the
      id is absent and, with unique ids, removes exactly the task the repository removed. */
  lemma RemoveByIdMatchesService(prev: seq<Task>, id: int)
    ensures FindTask(prev, id).None? ==> RemoveById(prev, id) == prev
    ensures UniqueIds(prev) && FindTask(prev, id).Some? ==>
      RemoveById(prev, id) == RemoveAt(prev, FindTask(prev, id).value)
  {
    match FindTask(prev, id)
    case None =>
      FilterKeepsAll(prev, OtherId(id));
    case Some(k) =>
      if UniqueIds(prev) {
        RemoveByIdUnique(prev, id, k);
      }
  }

  lemma RemoveByIdUnique(prev: seq<Task>, id: int, k: nat)
    requires UniqueIds(prev) && FindTask(prev, id) == Some(k)
    ensures RemoveById(prev, id) == RemoveAt(prev, k)
  {
    var front, back := prev[..k], prev[k + 1..];
    assert forall i :: 0 <= i < |front| ==> OtherId(id)(front[i]);
    forall i | 0 <= i < |back| ensures OtherId(id)(back[i]) {
      assert back[i] == prev[k + 1 + i];
    }
    assert prev == front + [prev[k]] + back;
    FilterDropsOne(front, prev[k], back, OtherId(id));
  }

  /** The section of the list that `reorderTasks(reordered, section)` keeps behind the reordered tasks:
      the completed tasks when the active section was reordered, otherwise the open ones. */
  function OtherSection(section: string): Task -> bool {
    if section == "active" then IsCompleted else IsActive
  }

  /** The section that was reordered. */
  function ThisSection(section: string): Task -> bool {
    if section == "active" then IsActive else IsCompleted
  }

  /** `[...reorderedTasks, ...otherTasks]`. */
  function ReorderLocal(prev: seq<Task>, reordered: seq<Task>, section: string): seq<Task> {
    reordered + Filter(prev, OtherSection(section))
  }

  /** The reordered list starts with `reordered` and ends with the other section's tasks in their previous
      order; when `reordered` is a rearrangement of this section's tasks, the whole list is a
      rearrangement of the previous one. */
  lemma ReorderLocalShape(prev: seq<Task>, reordered: seq<Task>, section: string)
    ensures var r := ReorderLocal(prev, reordered, section);
      && |r| >= |reordered| && r[..|reordered|] == reordered
      && (forall t :: t in r[|reordered|..] <==>
            t in prev && (if section == "active" then t.completed else !t.completed))
    ensures multiset(reordered) == multiset(Filter(prev, ThisSection(section))) ==>
      multiset(ReorderLocal(prev, reordered, section)) == multiset(prev)
  {
    var r := ReorderLocal(prev, reordered, section);
    assert r[|reordered|..] == Filter(prev, OtherSection(section));
    if section == "active" {
      FilterPartition(prev, IsCompleted, IsActive);
    } else {
      FilterPartition(prev, IsActive, IsCompleted);
    }
  }

  /** The hook's state: the repository it calls and its local copies of the two tables. */
  class TasksHook {
    const service: TaskService
    var tasks: seq<Task>
    var categories: seq<Category>

    constructor (service: TaskService)
      ensures this.service == service && tasks == [] && categories == []
    {
      this.service := service;
      tasks := [];
      categories := [];
    }

    /** The local lists mirror the repository's tables. */
    predicate Synced()
      reads this, service
    {
      tasks == service.tasks && categories == service.categories
    }

    /** `loadTasks`: copies both tables from the repository. */
    method LoadTasks()
      modifies this
      ensures Synced()
    {
      tasks := service.GetAll();
      categories := service.GetCategories();
    }

    /** `createTask`: appends the created task. */
    method CreateTask(data: TaskData, now: string) returns (r: Task)
      modifies this, service
      ensures r == NewTask(old(service.tasks), data, now)
      ensures service.tasks == old(service.tasks) + [r]
      ensures tasks == old(tasks) + [r] && categories == old(categories)
      ensures service.savedTasks == Some(service.tasks)
      ensures service.categories == old(service.categories) && service.savedCategories == old(service.savedCategories)
      ensures old(Synced()) ==> Synced()
    {
      r := service.Create(data, now);
      tasks := tasks + [r];
    }

    /** `updateTask`: replaces every local task with that id by the merged task. */
    method UpdateTask(id: int, patch: TaskPatch) returns (r: Result<Task, Error>)
      modifies this, service
      ensures r.Err? <==> FindTask(old(service.tasks), id).None?
      ensures r.Err? ==>
        r.error == TaskNotFound && tasks == old(tasks) && categories == old(categories) && unchanged(service)
      ensures r.Ok? ==>
        var i := FindTask(old(service.tasks), id).value;
        && r.value == Merge(old(service.tasks)[i], patch)
        && service.tasks == old(service.tasks)[i := r.value]
        && tasks == ReplaceById(old(tasks), id, r.value) && categories == old(categories)
      ensures service.categories == old(service.categories) && service.savedCategories == old(service.savedCategories)
      ensures r.Ok? ==> service.savedTasks == Some(service.tasks)
      ensures old(Synced()) && UniqueIds(old(service.tasks)) ==> Synced()
    {
      ghost var before := service.tasks;
      r := service.Update(id, patch);
      if r.Ok? {
        ReplaceByIdMatchesService(before, id, r.value);
        tasks := ReplaceById(tasks, id, r.value);
      }
    }

    /** `deleteTask`: drops every local task with that id. */
    method DeleteTask(id: int) returns (r: Result<bool, Error>)
      modifies this, service
      ensures r.Err? <==> FindTask(old(service.tasks), id).None?
      ensures r.Err? ==>
        r.error == TaskNotFound && tasks == old(tasks) && categories == old(categories) && unchanged(service)
      ensures r.Ok? ==>
        var i := FindTask(old(service.tasks), id).value;
        && service.tasks == old(service.tasks)[..i] + old(service.tasks)[i + 1..]
        && tasks == RemoveById(old(tasks), id) && categories == old(categories)
      ensures service.categories == old(service.categories) && service.savedCategories == old(service.savedCategories)
      ensures r.Ok? ==> service.savedTasks == Some(service.tasks)
      ensures old(Synced()) && UniqueIds(old(service.tasks)) ==> Synced()
    {
      ghost var before := service.tasks;
      r := service.Delete(id);
      if r.Ok? {
        RemoveByIdMatchesService(before, id);
        tasks := RemoveById(tasks, id);
      }
    }

    /** `toggleTaskComplete`: replaces every local task with that id by the toggled task. */
    method ToggleTaskComplete(id: int, now: string) returns (r: Result<Task, Error>)
      modifies this, service
      ensures r.Err? <==> FindTask(old(service.tasks), id).None?
      ensures r.Err? ==>
        r.error == TaskNotFound && tasks == old(tasks) && categories == old(categories) && unchanged(service)
      ensures r.Ok? ==>
        var i := FindTask(old(service.tasks), id).value;
        && r.value == ToggleTask(old(service.tasks)[i], now)
        && service.tasks == old(service.tasks)[i := r.value]
        && tasks == ReplaceById(old(tasks), id, r.value) && categories == old(categories)
      ensures service.categories == old(service.categories) && service.savedCategories == old(service.savedCategories)
      ensures r.Ok? ==> service.savedTasks == Some(service.tasks)
      ensures old(Synced()) && UniqueIds(old(service.tasks)) ==> Synced()
    {
      ghost var before := service.tasks;
      r := service.ToggleComplete(id, now);
      if r.Ok? {
        ReplaceByIdMatchesService(before, id, r.value);
        tasks := ReplaceById(tasks, id, r.value);
      }
    }

    /** `reorderTasks(reordered, section)`: the list becomes the reordered tasks followed by the other
        section's tasks. */
    method ReorderTasks(reordered: seq<Task>, section: string) returns (ok: bool)
      modifies this, service
      ensures ok
      ensures service.tasks == Reordered(old(service.tasks), reordered, |reordered|)
      ensures tasks == ReorderLocal(old(tasks), reordered, section) && categories == old(categories)
      ensures service.savedTasks == Some(service.tasks)
      ensures service.categories == old(service.categories) && service.savedCategories == old(service.savedCategories)
    {
      ok := service.ReorderTasks(reordered);
      tasks := ReorderLocal(tasks, reordered, section);
    }

    /** `createCategory`: appends the created category. */
    method CreateCategory(data: CategoryData) returns (r: Category)
      modifies this, service
      ensures r == NewCategory(old(service.categories), data)
      ensures categories == old(categories) + [r] && tasks == old(tasks)
      ensures service.categories == old(service.categories) + [r] && service.tasks == old(service.tasks)
      ensures service.savedTasks == old(service.savedTasks) && service.savedCategories == Some(service.categories)
      ensures old(Synced()) ==> Synced()
    {
      r := service.CreateCategory(data);
      categories := categories + [r];
    }

    /** `createSubtask`: replaces every local task with that id by the repository's result. */
    method CreateSubtask(taskId: int, title: string) returns (r: Result<Task, Error>)
      modifies this, service
      ensures r.Err? <==> FindTask(old(service.tasks), taskId).None?
      ensures r.Err? ==>
        r.error == TaskNotFound && tasks == old(tasks) && categories == old(categories) && unchanged(service)
      ensures r.Ok? ==>
        var i := FindTask(old(service.tasks), taskId).value;
        var added := Subtask(MaxSubtaskId(old(service.tasks)) + 1, title, false);
        && r.value == old(service.tasks)[i].(subtasks := Some(SubtasksOf(old(service.tasks)[i]) + [added]))
        && service.tasks == old(service.tasks)[i := r.value]
        && tasks == ReplaceById(old(tasks), taskId, r.value) && categories == old(categories)
      ensures service.categories == old(service.categories) && service.savedCategories == old(service.savedCategories)
      ensures r.Ok? ==> service.savedTasks == Some(service.tasks)
      ensures old(Synced()) && UniqueIds(old(service.tasks)) ==> Synced()
    {
      ghost var before := service.tasks;
      r := service.CreateSubtask(taskId, title);
      if r.Ok? {
        ReplaceByIdMatchesService(before, taskId, r.value);
        tasks := ReplaceById(tasks, taskId, r.value);
      }
    }

    /** `updateSubtask`: replaces every local task with that id by the repository's result. */
    method UpdateSubtask(taskId: int, subtaskId: int, patch: SubtaskPatch) returns (r: Result<Task, Error>)
      modifies this, service
      ensures r.Err? <==> LocateSubtask(old(service.tasks), taskId, subtaskId).Err?
      ensures r.Err? ==>
        && r.error == LocateSubtask(old(service.tasks), taskId, subtaskId).error
        && tasks == old(tasks) && categories == old(categories) && unchanged(service)
      ensures r.Ok? ==>
        var (i, k) := LocateSubtask(old(service.tasks), taskId, subtaskId).value;
        var subs := old(service.tasks)[i].subtasks.value;
        && r.value == old(service.tasks)[i].(subtasks := Some(subs[k := MergeSubtask(subs[k], patch)]))
        && service.tasks == old(service.tasks)[i := r.value]
        && tasks == ReplaceById(old(tasks), taskId, r.value) && categories == old(categories)
      ensures service.categories == old(service.categories) && service.savedCategories == old(service.savedCategories)
      ensures r.Ok? ==> service.savedTasks == Some(service.tasks)
      ensures old(Synced()) && UniqueIds(old(service.tasks)) ==> Synced()
    {
      ghost var before := service.tasks;
      r := service.UpdateSubtask(taskId, subtaskId, patch);
      if r.Ok? {
        ReplaceByIdMatchesService(before, taskId, r.value);
        tasks := ReplaceById(tasks, taskId, r.value);
      }
    }

    /** `deleteSubtask`: replaces every local task with that id by the repository's result. */
    method DeleteSubtask(taskId: int, subtaskId: int) returns (r: Result<Task, Error>)
      modifies this, service
      ensures r.Err? <==> LocateSubtask(old(service.tasks), taskId, subtaskId).Err?
      ensures r.Err? ==>
        && r.error == LocateSubtask(old(service.tasks), taskId, subtaskId).error
        && tasks == old(tasks) && categories == old(categories) && unchanged(service)
      ensures r.Ok? ==>
        var (i, k) := LocateSubtask(old(service.tasks), taskId, subtaskId).value;
        var subs := old(service.tasks)[i].subtasks.value;
        && r.value == old(service.tasks)[i].(subtasks := Some(subs[..k] + subs[k + 1..]))
        && service.tasks == old(service.tasks)[i := r.value]
        && tasks == ReplaceById(old(tasks), taskId, r.value) && categories == old(categories)
      ensures service.categories == old(service.categories) && service.savedCategories == old(service.savedCategories)
      ensures r.Ok? ==> service.savedTasks == Some(service.tasks)
      ensures old(Synced()) && UniqueIds(old(service.tasks)) ==> Synced()
    {
      ghost var before := service.tasks;
      r := service.DeleteSubtask(taskId, subtaskId);
      if r.Ok? {
        ReplaceByIdMatchesService(before, taskId, r.value);
        tasks := ReplaceById(tasks, taskId, r.value);
      }
    }

    /** `toggleSubtaskComplete`: replaces every local task with that id by the toggled task. */
    method ToggleSubtaskComplete(taskId: int, subtaskId: int, now: string) returns (r: Result<Task, Error>)
      modifies this, service
      ensures r.Err? <==> LocateSubtask(old(service.tasks), taskId, subtaskId).Err?
      ensures r.Err? ==>
        && r.error == LocateSubtask(old(service.tasks), taskId, subtaskId).error
        && tasks == old(tasks) && categories == old(categories) && unchanged(service)
      ensures r.Ok? ==>
        var (i, k) := LocateSubtask(old(service.tasks), taskId, subtaskId).value;
        && r.value == ToggleSubtaskAt(old(service.tasks)[i], k, now)
        && service.tasks == old(service.tasks)[i := r.value]
        && tasks == ReplaceById(old(tasks), taskId, r.value) && categories == old(categories)
      ensures service.categories == old(service.categories) && service.savedCategories == old(service.savedCategories)
      ensures r.Ok? ==> service.savedTasks == Some(service.tasks)
      ensures old(Synced()) && UniqueIds(old(service.tasks)) ==> Synced()
    {
      ghost var before := service.tasks;
      r := service.ToggleSubtaskComplete(taskId, subtaskId, now);
      if r.Ok? {
        ReplaceByIdMatchesService(before, taskId, r.value);
        tasks := ReplaceById(tasks, taskId, r.value);
      }
    }
  }
}
