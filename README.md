# Task manager core in Dafny

This project models the core of a single-page task manager. The central piece is its in-memory
repository, `TaskService`. It holds a table of tasks and a table of categories, changes them in place,
and writes the whole table back to local storage after every successful change. Each task has an
embedded list of subtasks. Around the repository sit three smaller pieces:

- the `useTasks` hook, which keeps a client-side copy of both tables in step with the repository;
- the creation form, `TaskForm`, which validates fields and manages a list of pending subtasks;
- the task card, `TaskCard`, which derives the subtask progress, the "c/n" counter and the priority
  badge.

Layout, one module per file:

- `wrappers.dfy` (`Wrappers`): `Option` and `Result`. A thrown `Error("Task not found")` or
  `Error("Subtask not found")` becomes `Err(TaskNotFound)` or `Err(SubtaskNotFound)`.
- `seqs.dfy` (`Seqs`): `Array.prototype.filter` as `Filter`, with its membership, order and partition
  facts.
- `text.dfy` (`Text`): `String.prototype.trim` over the ECMAScript whitespace set, and `<` on strings.
- `tasks.dfy` (`Tasks`): the records (task, subtask, category, the patches) and the per-task
  transformations the repository applies: shallow merge, toggle, and subtask toggle with
  auto-completion.
- `task_service.dfy` (`Service`): class `TaskService`.
  - Its `tasks` and `categories` fields are sequences that the methods reassign.
  - `savedTasks` and `savedCategories` stand for the two local-storage entries.
  - Every mutator states the new table in terms of the old one, and states that an error leaves the
    object unchanged.
  - `reorderTasks` keeps its loop, proved against the fold `Reordered`.
- `use_tasks.dfy` (`Hooks`): class `TasksHook`. It holds a reference to the repository and the local
  lists. Each wrapper changes the local lists only after the repository call succeeds, and states
  the repository's result, its new table, that its saved tables are updated, and that its other
  fields are unchanged. The replace and remove updaters are the functions
  `ReplaceById` and `RemoveById`, each proved to agree with the repository whenever ids are unique;
  the append updaters are written inline in `CreateTask` and `CreateCategory`; `ReorderLocal` is
  proved only to put the reordered tasks first and keep the other section's tasks after them, and to
  be a rearrangement when the reordered tasks rearrange the section.
- `task_form.dfy` (`Form`): class `TaskForm`, holding the form data, errors and subtask input, with its
  handlers. `handleSubmit` builds its error map field by field, as the component does.
- `task_card.dfy` (`Card`): progress, counter and priority mappings as functions.

Points where the code differs from its documented intent, and which the model follows as written:

- `update` merges any patch, including one that sets `completed` without `completedAt`. So the
  invariant "completedAt is set exactly when completed" holds after every operation except such an
  `update`. `Tasks.MergeCanBreakConsistent` states the counterexample. Each `TaskService` method
  states which invariants it preserves.
- The properties of the caller's `taskData` are spread after the allocated id. A caller-supplied `Id`
  therefore wins, even if it is non-positive or already taken. "New ids are fresh and unique" holds
  when no id is supplied. This is stated in `Create` and `CreateKeepsUniqueIds`. The form never
  supplies an id (`Form.SubmittedFormGetsFreshIds`).
- Subtask ids are allocated above every subtask id in the whole table, not per parent. A patch given
  to `updateSubtask` may still change a subtask's id.
- "Delete, then the id is gone" holds only when ids are unique. `delete` removes the first match only.
- The hook replaces or removes every local task with the id, while the repository acts on the first
  match only. The two agree when ids are unique. `Hooks.ReplaceByIdMatchesService` and
  `Hooks.RemoveByIdMatchesService` prove this.

## Model

| member | source | states |
|---|---|---|
| Text.Trim | src/components/molecules/TaskForm.jsx:26 | definition of `trim` over the ECMAScript whitespace and line terminators; its properties are stated by TrimEmptyIff, TrimIsSlice, TrimIsTrimmed and TrimIdempotent |
| Text.TrimEmptyIff | src/components/molecules/TaskForm.jsx:26 | the trimmed title is empty exactly when every character of the title is whitespace |
| Text.TrimIsSlice | src/components/molecules/TaskForm.jsx:49-52 | the trimmed text is a contiguous slice of the input |
| Text.TrimIsTrimmed | src/components/molecules/TaskForm.jsx:49-52 | the trimmed text neither starts nor ends with whitespace |
| Text.TrimIdempotent | src/components/molecules/TaskForm.jsx:49-52 | trimming a trimmed title changes nothing |
| Text.LexLess | src/services/api/taskService.js:141 | definition of string `<` as lexicographic order on characters; its properties are stated by LexLessTrichotomy and LexLessTransitive |
| Text.LexLessTrichotomy | src/services/api/taskService.js:141 | string `<` is irreflexive and asymmetric, and any two different strings are ordered one way |
| Text.LexLessTransitive | src/services/api/taskService.js:141 | string `<` is transitive; with trichotomy it makes the modelled `<` a strict total order (no operation relies on it) |
| Tasks.FindTask | src/services/api/taskService.js:62 | `findIndex`: the index found holds the id and no earlier index does; absent exactly when no task has the id |
| Tasks.FindSubtask | src/services/api/taskService.js:186 | the same first-match lookup on a subtask list |
| Tasks.MaxTaskId | src/services/api/taskService.js:45 | `Math.max(...ids, 0)`: non-negative, at least every task id, and either 0 or one of the ids |
| Tasks.MaxCategoryId | src/services/api/taskService.js:101 | the same bound over category ids |
| Tasks.MaxIdIn | src/services/api/taskService.js:51 | non-negative, at least every id in the list, and either 0 or one of those ids |
| Tasks.MaxSubtaskId | src/services/api/taskService.js:51 | non-negative and at least every subtask id of every task in the table |
| Tasks.MaxSubtaskIdAttained | src/services/api/taskService.js:51 | the maximum subtask id is 0 or the id of some subtask of some task in the table |
| Tasks.Merge | src/services/api/taskService.js:65 | definition of the spread merge `{ ...task, ...updateData }`; its properties are stated by MergeLaws, MergeKeepsConsistent and MergeCanBreakConsistent |
| Tasks.MergeLaws | src/services/api/taskService.js:65 | merging an empty patch is the identity; merging the same patch twice is merging it once |
| Tasks.MergeKeepsConsistent | src/services/api/taskService.js:65 | a merge keeps the completion invariant when the patch sets neither `completed` nor `completedAt` |
| Tasks.MergeCanBreakConsistent | src/services/api/taskService.js:65 | a patch setting `completed: true` on an open task breaks the completion invariant |
| Tasks.ToggleTask | src/services/api/taskService.js:85-87 | `completed` is negated; `completedAt` is `now` when the task becomes complete and null otherwise; no other field changes |
| Tasks.ToggleTwice | src/services/api/taskService.js:85-87 | toggling twice restores `completed`; a task that ends open has no completion time |
| Tasks.MergeSubtask | src/services/api/taskService.js:189 | definition of the spread merge of a subtask with a patch; its properties are stated by MergeSubtaskLaws |
| Tasks.MergeSubtaskLaws | src/services/api/taskService.js:189 | the empty patch changes nothing, a patch applied twice is applied once, and a patch without an id keeps the id |
| Tasks.RemoveAt | src/services/api/taskService.js:75 | `splice(k, 1)`: one element shorter, elements before k kept and those after shifted down by one |
| Tasks.ToggleSubtaskAt | src/services/api/taskService.js:221-227 | only the target subtask flips; a non-empty all-complete list completes the parent at `now`; otherwise the parent's state is untouched; a parent is never reopened; the invariant is kept |
| Tasks.TwoSubtaskAutoComplete | src/services/api/taskService.js:221-227 | with two open subtasks, completing the first leaves the parent open, and completing the second completes it at that second moment |
| Service.NumberSubtasks | src/services/api/taskService.js:50-54 | definition of the subtask numbering `max + index + 1`, each subtask open with its title; its properties are stated by NewTaskIdsFresh |
| Service.NewTask | src/services/api/taskService.js:44-55 | definition of the created task; its properties are stated by NewTaskIdsFresh and CreateKeepsUniqueIds |
| Service.NewTaskIdsFresh | src/services/api/taskService.js:44-54 | without a supplied id the new id is max+1 and above every task id; new subtask ids are above every existing subtask id and increase in input order |
| Service.CreateKeepsUniqueIds | src/services/api/taskService.js:44-56 | appending a task created without a supplied id keeps task ids unique |
| Service.NewCategory | src/services/api/taskService.js:100-103 | without a supplied id the category id is above every existing one; the name is the given name |
| Service.LocateSubtask | src/services/api/taskService.js:180-187 | the task-not-found error occurs exactly when no task has the id; the subtask-not-found error occurs exactly when the first such task has no list or no subtask with the id; otherwise the first matches |
| Service.SetOrder | src/services/api/taskService.js:150-153 | definition of one loop step: the first task with the id gets the position as `order`; its properties are stated by ReorderedAt |
| Service.Reordered | src/services/api/taskService.js:149-154 | definition of the `forEach` as a fold of SetOrder over the first n listed tasks; its properties are stated by ReorderedAt and ReorderedKeepsIds |
| Service.ReorderedAt | src/services/api/taskService.js:149-154 | after the loop, the first task with a listed id has as `order` the last position where that id is listed; unlisted tasks, later duplicates in the table and all other fields are unchanged |
| Service.ReorderedKeepsIds | src/services/api/taskService.js:149-154 | reordering keeps the table's length and every id |
| Service.TaskService.constructor | src/services/api/taskService.js:5-18 | each table is the stored value when the storage key is present, else the seed data |
| Service.TaskService.GetAll | src/services/api/taskService.js:32-35 | a copy of the task table, element for element |
| Service.TaskService.GetById | src/services/api/taskService.js:37-40 | the first task with the id, or nothing exactly when no task has it |
| Service.TaskService.Create | src/services/api/taskService.js:42-59 | appends exactly one task at the end; it is open with null `completedAt` and `createdAt = now`; its id is max+1 unless supplied; its subtasks are renumbered max+1..max+k in order with titles kept and all open, or an empty list; ids stay unique; the invariant is kept |
| Service.TaskService.Update | src/services/api/taskService.js:60-68 | an unknown id is an error and nothing changes; otherwise only the first match is replaced by the merge, the change is saved, and the invariant is kept when the patch leaves the completion fields alone |
| Service.TaskService.Delete | src/services/api/taskService.js:70-78 | an unknown id is an error and nothing changes; otherwise exactly the first match is removed, the rest keep their order, and with unique ids the id is gone |
| Service.TaskService.ToggleComplete | src/services/api/taskService.js:80-91 | an unknown id is an error and nothing changes; otherwise only the first match is toggled, and the invariant and unique ids are kept |
| Service.TaskService.GetCategories | src/services/api/taskService.js:93-96 | a copy of the category table |
| Service.TaskService.CreateCategory | src/services/api/taskService.js:98-107 | appends one category with id max+1 unless supplied, saves, and leaves the tasks alone |
| Service.TaskService.GetCompletedTasks | src/services/api/taskService.js:109-112 | exactly the completed tasks |
| Service.TaskService.GetActiveTasks | src/services/api/taskService.js:114-117 | exactly the open tasks |
| Service.TaskService.GetTasksByCategory | src/services/api/taskService.js:119-122 | exactly the tasks with that category |
| Service.TaskService.GetTasksByPriority | src/services/api/taskService.js:124-127 | exactly the tasks with that priority |
| Service.TaskService.GetTodaysTasks | src/services/api/taskService.js:129-135 | exactly the open tasks due today |
| Service.TaskService.GetOverdueTasks | src/services/api/taskService.js:137-143 | exactly the open tasks whose due-date string is less than today |
| Service.TaskService.ReorderTasks | src/services/api/taskService.js:145-158 | the loop leaves the table equal to the fold `Reordered` over every listed task, saves it, keeps its length and the invariant, and returns true |
| Service.TaskService.CreateSubtask | src/services/api/taskService.js:159-176 | an unknown task is an error and nothing changes; otherwise an open subtask numbered above every subtask in the table is appended to the first match's list, which is created if absent |
| Service.TaskService.UpdateSubtask | src/services/api/taskService.js:178-192 | each error case leaves everything unchanged; otherwise only the located subtask is merged with the patch |
| Service.TaskService.DeleteSubtask | src/services/api/taskService.js:194-208 | each error case leaves everything unchanged; otherwise only the located subtask is removed and the rest keep their order |
| Service.TaskService.ToggleSubtaskComplete | src/services/api/taskService.js:210-231 | each error case leaves everything unchanged; otherwise the located task becomes `ToggleSubtaskAt` of itself, and the invariant is kept |
| Service.DeleteRemovesId | src/services/api/taskService.js:75 | with unique ids, removing the found task keeps ids unique and leaves no task with that id |
| Service.CompletedActivePartition | src/services/api/taskService.js:109-117 | together the completed and active queries hold every task exactly once, and each keeps table order |
| Service.TodayOverdueDisjoint | src/services/api/taskService.js:129-143 | no task is both due today and overdue, and both queries return only open tasks |
| Hooks.ReplaceById | src/hooks/useTasks.js:44-46 | definition of the local `map` replacing every task with the id; its properties are stated by ReplaceByIdMatchesService |
| Hooks.ReplaceByIdMatchesService | src/hooks/useTasks.js:44-46 | replace-by-id keeps the length and every task with another id; it is the identity for an absent id; with unique ids it equals the repository's replacement of the first match |
| Hooks.RemoveById | src/hooks/useTasks.js:58 | keeps exactly the tasks with another id |
| Hooks.RemoveByIdMatchesService | src/hooks/useTasks.js:58 | it is the identity for an absent id, and with unique ids it equals the repository's `splice` of the first match |
| Hooks.ReorderLocal | src/hooks/useTasks.js:89-94 | definition of the reordered tasks followed by the other section's tasks; its properties are stated by ReorderLocalShape |
| Hooks.ReorderLocalShape | src/hooks/useTasks.js:89-94 | the list starts with the reordered tasks and ends with exactly the other section's tasks; when the reordered tasks are a rearrangement of this section, the whole list is a rearrangement of the old one |
| Hooks.TasksHook.constructor | src/hooks/useTasks.js:6-7 | both local lists start empty |
| Hooks.TasksHook.LoadTasks | src/hooks/useTasks.js:11-27 | the local lists become copies of the repository's tables |
| Hooks.TasksHook.CreateTask | src/hooks/useTasks.js:29-39 | the created task is appended locally and in the repository; sync is kept |
| Hooks.TasksHook.UpdateTask | src/hooks/useTasks.js:41-53 | failure exactly when the id is unknown, and then both sides are unchanged; otherwise the result is the merged task, it replaces the repository's first match and every local match, and with unique ids sync is kept |
| Hooks.TasksHook.DeleteTask | src/hooks/useTasks.js:55-64 | failure exactly when the id is unknown, and then both sides are unchanged; otherwise the repository drops its first match and the local list is filtered by id, and with unique ids sync is kept |
| Hooks.TasksHook.ToggleTaskComplete | src/hooks/useTasks.js:66-84 | failure exactly when the id is unknown, and then both sides are unchanged; otherwise the result is the toggled task, it replaces the repository's first match and every local match, and with unique ids sync is kept |
| Hooks.TasksHook.ReorderTasks | src/hooks/useTasks.js:86-100 | the repository is reordered; the local list becomes the reordered tasks followed by the other section's tasks |
| Hooks.TasksHook.CreateCategory | src/hooks/useTasks.js:102-112 | the created category is appended locally and to the repository's categories, whose task table is unchanged; sync is kept |
| Hooks.TasksHook.CreateSubtask | src/hooks/useTasks.js:114-126 | failure exactly when the task is unknown, and then both sides are unchanged; otherwise the result is the task with a new subtask numbered one past the table's maximum subtask id appended, it replaces the repository's match and every local match, and with unique ids sync is kept |
| Hooks.TasksHook.UpdateSubtask | src/hooks/useTasks.js:128-140 | failure exactly when the repository cannot locate the subtask, with its error, and then both sides are unchanged; otherwise the result is the task with the located subtask merged with the patch, it replaces the repository's match and every local match, and with unique ids sync is kept |
| Hooks.TasksHook.DeleteSubtask | src/hooks/useTasks.js:142-154 | the same failure behaviour; otherwise the result is the task without the located subtask, it replaces the repository's match and every local match, and with unique ids sync is kept |
| Hooks.TasksHook.ToggleSubtaskComplete | src/hooks/useTasks.js:156-175 | the same failure behaviour; otherwise the result is the auto-completing subtask toggle, it replaces the repository's match and every local match, and with unique ids sync is kept |
| Form.SetField | src/components/molecules/TaskForm.jsx:77 | sets only the named field; the other fields and the pending subtasks are unchanged |
| Form.RequiredMessage | src/components/molecules/TaskForm.jsx:26-28 | the message is non-empty exactly for the three required fields |
| Form.ValidationErrors | src/components/molecules/TaskForm.jsx:25-28 | an error for title exactly when the trimmed title is empty, for category and for due date exactly when empty, none for the other fields, each with its message, so one error per missing field |
| Form.ClearError | src/components/molecules/TaskForm.jsx:78-80 | the error keys are unchanged, the field's error is empty, and other errors are untouched |
| Form.RemoveSubtask | src/components/molecules/TaskForm.jsx:63-68 | keeps exactly the pending subtasks with another id, in order; the other form fields are unchanged |
| Form.AddSubtask | src/components/molecules/TaskForm.jsx:48-60 | definition of adding the trimmed input as an open subtask with the temporary id when it is not blank; its properties are stated by AddThenRemove and TaskForm.HandleAddSubtask |
| Form.AddThenRemove | src/components/molecules/TaskForm.jsx:48-68 | removing the id just added is the same as removing it alone, and restores the form when the id was fresh |
| Form.SubmittedFormGetsFreshIds | src/services/api/taskService.js:44-54 | a submitted form's task gets id max+1, and its pending subtasks get fresh ids in order with their titles |
| Form.TaskForm.constructor | src/components/molecules/TaskForm.jsx:10-20 | the initial data (priority "medium", no subtasks), no errors, empty input |
| Form.TaskForm.SetNewSubtask | src/components/molecules/TaskForm.jsx:20 | only the subtask input changes |
| Form.TaskForm.HandleSubmit | src/components/molecules/TaskForm.jsx:22-46 | with errors, records exactly `ValidationErrors` and submits nothing, keeping the data; without, submits the current data and resets data, errors and input |
| Form.TaskForm.HandleAddSubtask | src/components/molecules/TaskForm.jsx:48-61 | does nothing for a blank input; otherwise appends one open subtask with the trimmed title and clears the input |
| Form.TaskForm.HandleRemoveSubtask | src/components/molecules/TaskForm.jsx:63-68 | the form data becomes `RemoveSubtask` of the old data; errors and input are untouched |
| Form.TaskForm.HandleChange | src/components/molecules/TaskForm.jsx:76-81 | the field is set, and its error is cleared only if it had a non-empty one |
| Card.CountCompleted | src/components/molecules/TaskCard.jsx:54 | at most the list length; equal to it exactly when all are complete; 0 exactly when none are |
| Card.CountAfterFlip | src/components/molecules/TaskCard.jsx:54 | flipping one subtask changes the count by exactly one, in the direction of the flip |
| Card.RoundedPercent | src/components/molecules/TaskCard.jsx:55 | the half-up rounding of 100·c/n: it brackets that value, lies in 0..100, and is 100 for c = n and 0 for c = 0 |
| Card.RoundedPercentMonotone | src/components/molecules/TaskCard.jsx:55 | more completed subtasks never show less progress |
| Card.CalculateProgress | src/components/molecules/TaskCard.jsx:50-56 | with no subtasks, 100 if completed else 0; otherwise the rounded share, which is in 0..100, 100 when all are complete and 0 when none are |
| Card.SubtaskCounter | src/components/molecules/TaskCard.jsx:102 | c ≤ n, with n the list length, and c = n exactly when all are complete |
| Card.PriorityColor | src/components/molecules/TaskCard.jsx:23-30 | definition of the colour switch; its properties are stated by PriorityStyles |
| Card.PriorityIcon | src/components/molecules/TaskCard.jsx:32-39 | definition of the icon switch; its properties are stated by PriorityStyles |
| Card.PriorityStyles | src/components/molecules/TaskCard.jsx:23-39 | the default colour and the default icon are given exactly to values other than high, medium and low, and those three get distinct colours and distinct icons |
| Card.ToggleSubtaskProgress | src/components/molecules/TaskCard.jsx:50-56 | after a subtask toggle the counter moves by one, and a task auto-completed by it shows full progress |

## Left out

- Local storage and JSON: the two storage entries are the `savedTasks` and `savedCategories` fields, and each successful mutation stores the whole table. Parsing, serialisation and storage failures are not modelled. The bundled seed files are constructor parameters.
- `delay`, Promises and `async`/`await` are not modelled. Every operation is one atomic step; the code has no real concurrency.
- Clock values are not modelled. `new Date().toISOString()` is the parameter `now`, and today's date is the parameter `today`.
- `parseInt` coercion is not modelled; ids are `int`.
- The `Date.now()` temporary subtask id is the parameter `tempId` of `HandleAddSubtask`.
- Rendering, toasts, console logging, the `loading` and `error` flags, and key-press handlers are UI only and not modelled.
- TaskCard's `isOverdue` and `isToday` depend on `Date` parsing and time zones and are not modelled.
- Card.RoundedPercent: computes the exact half-up rounding of 100·c/n in integers, not IEEE `Math.round` of a floating-point quotient. The bounds and endpoints do not depend on this.
- Text.LexLessTrichotomy: string `<` compares code points. For characters outside the Basic Multilingual Plane this can differ from JavaScript's UTF-16 code-unit order. Due dates are ASCII.
- Objects are values. Aliasing between the returned copies and the stored records is not modelled; the copies are exact.
- Records have exactly the fields listed in `Tasks`. Extra or `undefined` properties carried by a spread are not modelled. A category holds only its id and name.
- Hooks.TasksHook.ReorderTasks: states no sync with the repository. The hook's list becomes the concatenation while the repository only rewrites `order`, so the two diverge by design.
- Hooks.TasksHook.LoadTasks: the catch branch is not modelled, because `getAll` and `getCategories` cannot fail in this model.
