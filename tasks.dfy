/** The entities the task repository stores, and the per-task transformations its operations apply. */
module Tasks {
  import opened Wrappers

  /** A checklist item embedded in a task. */
  datatype Subtask = Subtask(id: int, title: string, completed: bool)

  /** A task record. `order` and `subtasks` may be absent from a stored record;
      `completedAt` is null while the task is open. */
  datatype Task = Task(
    id: int,
    title: string,
    description: string,
    category: string,
    priority: string,
    dueDate: string,
    completed: bool,
    createdAt: string,
    completedAt: Option<string>,
    order: Option<int>,
    subtasks: Option<seq<Subtask>>)

  /** A category; tasks refer to it by name. */
  datatype Category = Category(id: int, name: string)

  /** The two errors the repository throws. */
  datatype Error = TaskNotFound | SubtaskNotFound

  /** The object passed to `create`. Its properties are spread into the new task, so a present `id`
      overrides the allocated one; `completed`, `createdAt` and `completedAt` are always overwritten. */
  datatype TaskData = TaskData(
    id: Option<int>,
    title: string,
    description: string,
    category: string,
    priority: string,
    dueDate: string,
    order: Option<int>,
    subtasks: Option<seq<Subtask>>)

  /** The object passed to `createCategory`. */
  datatype CategoryData = CategoryData(id: Option<int>, name: string)

  /** The object passed to `update`: each present property replaces the task's. */
  datatype TaskPatch = TaskPatch(
    id: Option<int>,
    title: Option<string>,
    description: Option<string>,
    category: Option<string>,
    priority: Option<string>,
    dueDate: Option<string>,
    completed: Option<bool>,
    createdAt: Option<string>,
    completedAt: Option<Option<string>>,
    order: Option<int>,
    subtasks: Option<seq<Subtask>>)

  /** The object passed to `updateSubtask`. */
  datatype SubtaskPatch = SubtaskPatch(id: Option<int>, title: Option<string>, completed: Option<bool>)

  const EmptyPatch := TaskPatch(None, None, None, None, None, None, None, None, None, None, None)

  /** `task.subtasks || []`. */
  function SubtasksOf(t: Task): seq<Subtask> {
    if t.subtasks.Some? then t.subtasks.value else []
  }

  /** The completion invariant: a task carries a completion time exactly when it is complete. */
  predicate Consistent(t: Task) {
    t.completed <==> t.completedAt.Some?
  }

  /** The completion invariant over a whole table. */
  predicate AllConsistent(ts: seq<Task>) {
    forall i :: 0 <= i < |ts| ==> Consistent(ts[i])
  }

  /** Every subtask in the list is complete (`every(s => s.completed)`). */
  predicate AllCompleted(subs: seq<Subtask>) {
    forall j :: 0 <= j < |subs| ==> subs[j].completed
  }

  /** No two tasks of the table share an id. */
  predicate UniqueIds(ts: seq<Task>) {
    forall i, j :: 0 <= i < j < |ts| ==> ts[i].id != ts[j].id
  }

  /** `findIndex(task => task.Id === id)`: the first position holding that id. */
  function FindTask(ts: seq<Task>, id: int): (r: Option<nat>)
    ensures r.Some? ==> r.value < |ts| && ts[r.value].id == id
    ensures r.Some? ==> forall j :: 0 <= j < r.value ==> ts[j].id != id
    ensures r.None? <==> forall j :: 0 <= j < |ts| ==> ts[j].id != id
  {
    if |ts| == 0 then None
    else if ts[0].id == id then Some(0)
    else match FindTask(ts[1..], id)
      case None => None
      case Some(k) => Some(k + 1)
  }

  /** `findIndex(s => s.Id === id)` on a subtask list. */
  function FindSubtask(subs: seq<Subtask>, id: int): (r: Option<nat>)
    ensures r.Some? ==> r.value < |subs| && subs[r.value].id == id
    ensures r.Some? ==> forall j :: 0 <= j < r.value ==> subs[j].id != id
    ensures r.None? <==> forall j :: 0 <= j < |subs| ==> subs[j].id != id
  {
    if |subs| == 0 then None
    else if subs[0].id == id then Some(0)
    else match FindSubtask(subs[1..], id)
      case None => None
      case Some(k) => Some(k + 1)
  }

  /** Two tables whose ids agree position by position give the same answer to every lookup. */
  lemma {:induction false} FindTaskSameIds(a: seq<Task>, b: seq<Task>, id: int)
    requires |a| == |b| && forall j :: 0 <= j < |a| ==> a[j].id == b[j].id
    ensures FindTask(a, id) == FindTask(b, id)
  {
    if |a| > 0 && a[0].id != id {
      FindTaskSameIds(a[1..], b[1..], id);
    }
  }

  function Max(a: int, b: int): int {
    if a < b then b else a
  }

  /** `Math.max(...tasks.map(t => t.Id), 0)`. */
  function MaxTaskId(ts: seq<Task>): (m: int)
    ensures m >= 0
    ensures forall j :: 0 <= j < |ts| ==> ts[j].id <= m
    ensures m == 0 || exists j :: 0 <= j < |ts| && ts[j].id == m
  {
    if |ts| == 0 then 0
    else
      var rest := MaxTaskId(ts[1..]);
      assert forall j :: 1 <= j < |ts| ==> ts[j] == ts[1..][j - 1];
      Max(ts[0].id, rest)
  }

  /** `Math.max(...categories.map(c => c.Id), 0)`. */
  function MaxCategoryId(cs: seq<Category>): (m: int)
    ensures m >= 0
    ensures forall j :: 0 <= j < |cs| ==> cs[j].id <= m
    ensures m == 0 || exists j :: 0 <= j < |cs| && cs[j].id == m
  {
    if |cs| == 0 then 0
    else
      var rest := MaxCategoryId(cs[1..]);
      assert forall j :: 1 <= j < |cs| ==> cs[j] == cs[1..][j - 1];
      Max(cs[0].id, rest)
  }

  /** The largest id in one subtask list, or 0. */
  function MaxIdIn(subs: seq<Subtask>): (m: int)
    ensures m >= 0
    ensures forall j :: 0 <= j < |subs| ==> subs[j].id <= m
    ensures m == 0 || exists j :: 0 <= j < |subs| && subs[j].id == m
  {
    if |subs| == 0 then 0
    else
      var rest := MaxIdIn(subs[1..]);
      assert forall j :: 1 <= j < |subs| ==> subs[j] == subs[1..][j - 1];
      Max(subs[0].id, rest)
  }

  /** `Math.max(...tasks.flatMap(t => t.subtasks || []).map(s => s.Id), 0)`: the largest subtask id
      in the whole table (MaxSubtaskIdAttained shows it is 0 or one of those ids). */
  function MaxSubtaskId(ts: seq<Task>): (m: int)
    ensures m >= 0
    ensures forall i, j :: 0 <= i < |ts| && 0 <= j < |SubtasksOf(ts[i])| ==> SubtasksOf(ts[i])[j].id <= m
  {
    if |ts| == 0 then 0
    else
      var rest := MaxSubtaskId(ts[1..]);
      assert forall i :: 1 <= i < |ts| ==> ts[i] == ts[1..][i - 1];
      Max(MaxIdIn(SubtasksOf(ts[0])), rest)
  }

  /** The id `create` and `createSubtask` count from is 0 or the id of some subtask in the table. */
  lemma {:induction false} MaxSubtaskIdAttained(ts: seq<Task>)
    ensures MaxSubtaskId(ts) == 0 ||
      exists i, j :: 0 <= i < |ts| && 0 <= j < |SubtasksOf(ts[i])| && SubtasksOf(ts[i])[j].id == MaxSubtaskId(ts)
  {
    if |ts| > 0 {
      var m, rest := MaxSubtaskId(ts), MaxSubtaskId(ts[1..]);
      if m != 0 && m == rest {
        MaxSubtaskIdAttained(ts[1..]);
        var i, j :| 0 <= i < |ts[1..]| && 0 <= j < |SubtasksOf(ts[1..][i])| && SubtasksOf(ts[1..][i])[j].id == m;
        assert ts[i + 1] == ts[1..][i];
      }
    }
  }

  /** `{ ...task, ...updateData }`. */
  function Merge(t: Task, p: TaskPatch): Task {
    Task(
      p.id.GetOr(t.id), p.title.GetOr(t.title), p.description.GetOr(t.description),
      p.category.GetOr(t.category), p.priority.GetOr(t.priority), p.dueDate.GetOr(t.dueDate),
      p.completed.GetOr(t.completed), p.createdAt.GetOr(t.createdAt), p.completedAt.GetOr(t.completedAt),
      if p.order.Some? then p.order else t.order,
      if p.subtasks.Some? then p.subtasks else t.subtasks)
  }

  /** A patch with no properties changes nothing, and applying the same patch twice is applying it once. */
  lemma MergeLaws(t: Task, p: TaskPatch)
    ensures Merge(t, EmptyPatch) == t
    ensures Merge(Merge(t, p), p) == Merge(t, p)
  {
  }

  /** A merge keeps the completion invariant when the patch touches neither `completed` nor `completedAt`. */
  lemma MergeKeepsConsistent(t: Task, p: TaskPatch)
    requires Consistent(t) && p.completed.None? && p.completedAt.None?
    ensures Consistent(Merge(t, p))
  {
  }

  /** A patch may set `completed` without `completedAt`, so `update` can break the completion invariant. */
  lemma MergeCanBreakConsistent(t: Task)
    requires Consistent(t) && !t.completed
    ensures !Consistent(Merge(t, EmptyPatch.(completed := Some(true))))
  {
  }

  /** The body of `toggleComplete` on the task it found. */
  function ToggleTask(t: Task, now: string): (r: Task)
    ensures r.completed == !t.completed
    ensures Consistent(r)
    ensures r.completed ==> r.completedAt == Some(now)
    ensures r == t.(completed := r.completed, completedAt := r.completedAt)
  {
    var done := !t.completed;
    t.(completed := done, completedAt := if done then Some(now) else None)
  }

  /** Toggling twice restores `completed`; a task that ends open has no completion time. */
  lemma ToggleTwice(t: Task, now1: string, now2: string)
    ensures ToggleTask(ToggleTask(t, now1), now2).completed == t.completed
    ensures !t.completed ==> ToggleTask(ToggleTask(t, now1), now2) == t.(completedAt := None)
    ensures t.completed ==> ToggleTask(ToggleTask(t, now1), now2) == t.(completedAt := Some(now2))
  {
  }

  /** `{ ...subtask, ...updateData }`. */
  function MergeSubtask(s: Subtask, p: SubtaskPatch): Subtask {
    Subtask(p.id.GetOr(s.id), p.title.GetOr(s.title), p.completed.GetOr(s.completed))
  }

  /** A subtask patch with no properties changes nothing, applying the same patch twice is applying it
      once, and a patch without an id keeps the subtask's id. */
  lemma MergeSubtaskLaws(s: Subtask, p: SubtaskPatch)
    ensures MergeSubtask(s, SubtaskPatch(None, None, None)) == s
    ensures MergeSubtask(MergeSubtask(s, p), p) == MergeSubtask(s, p)
    ensures p.id.None? ==> MergeSubtask(s, p).id == s.id
  {
  }

  /** The list without its element at position k (`splice(k, 1)`). */
  function RemoveAt<T>(s: seq<T>, k: nat): (r: seq<T>)
    requires k < |s|
    ensures |r| == |s| - 1
    ensures forall j :: 0 <= j < k ==> r[j] == s[j]
    ensures forall j :: k <= j < |r| ==> r[j] == s[j + 1]
  {
    s[..k] + s[k + 1..]
  }

  /** The body of `toggleSubtaskComplete` on the task and subtask position it found: flip that
      subtask, then complete the parent if every subtask of the non-empty list is now complete. */
  function ToggleSubtaskAt(t: Task, k: nat, now: string): (r: Task)
    requires t.subtasks.Some? && k < |t.subtasks.value|
    ensures r.subtasks.Some? && |SubtasksOf(r)| == |SubtasksOf(t)|
    ensures SubtasksOf(r)[k] == SubtasksOf(t)[k].(completed := !SubtasksOf(t)[k].completed)
    ensures forall j :: 0 <= j < |SubtasksOf(t)| && j != k ==> SubtasksOf(r)[j] == SubtasksOf(t)[j]
    ensures AllCompleted(SubtasksOf(r)) ==> r.completed && r.completedAt == Some(now)
    ensures !AllCompleted(SubtasksOf(r)) ==> r.completed == t.completed && r.completedAt == t.completedAt
    ensures t.completed ==> r.completed
    ensures Consistent(t) ==> Consistent(r)
    ensures r == t.(subtasks := r.subtasks, completed := r.completed, completedAt := r.completedAt)
  {
    var subs := t.subtasks.value;
    var flipped := subs[k := subs[k].(completed := !subs[k].completed)];
    var t1 := t.(subtasks := Some(flipped));
    if |flipped| > 0 && AllCompleted(flipped) then t1.(completed := true, completedAt := Some(now)) else t1
  }

  /** Two open subtasks: completing the first leaves the parent open, completing the second then
      completes the parent at that moment. */
  lemma TwoSubtaskAutoComplete(t: Task, a: Subtask, b: Subtask, now1: string, now2: string)
    requires t.subtasks == Some([a, b]) && !a.completed && !b.completed && !t.completed
    ensures var t1 := ToggleSubtaskAt(t, 0, now1);
      && !t1.completed && t1.completedAt == t.completedAt
      && var t2 := ToggleSubtaskAt(t1, 1, now2);
      && t2.completed && t2.completedAt == Some(now2)
      && SubtasksOf(t2) == [a.(completed := true), b.(completed := true)]
  {
    var t1 := ToggleSubtaskAt(t, 0, now1);
    assert !SubtasksOf(t1)[1].completed;
    var t2 := ToggleSubtaskAt(t1, 1, now2);
    assert SubtasksOf(t2) == [a.(completed := true), b.(completed := true)];
  }
}
