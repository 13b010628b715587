/** The task-creation form: its data, its per-field errors and the pending subtask input, and the
    handlers that validate, submit and edit them. */
module Form {
  import opened Wrappers
  import opened Seqs
  import opened Text
  import Tasks
  import Service

  /** The form fields `handleChange` can set. */
  datatype Field = Title | Description | Category | Priority | DueDate

  /** The form's data; `subtasks` holds the pending subtasks with their temporary ids. */
  datatype FormData = FormData(
    title: string,
    description: string,
    category: string,
    priority: string,
    dueDate: string,
    subtasks: seq<Tasks.Subtask>)

  /** The state the form starts in and returns to after a submission. */
  const Initial := FormData("", "", "", "medium", "", [])

  /** `formData[field]`. */
  function Get(fd: FormData, f: Field): string {
    match f
    case Title => fd.title
    case Description => fd.description
    case Category => fd.category
    case Priority => fd.priority
    case DueDate => fd.dueDate
  }

  /** `{ ...prev, [field]: value }`. */
  function SetField(fd: FormData, f: Field, v: string): (r: FormData)
    ensures Get(r, f) == v
    ensures forall g :: g != f ==> Get(r, g) == Get(fd, g)
    ensures r.subtasks == fd.subtasks
  {
    match f
    case Title => fd.(title := v)
    case Description => fd.(description := v)
    case Category => fd.(category := v)
    case Priority => fd.(priority := v)
    case DueDate => fd.(dueDate := v)
  }

  /** The message shown under a required field left empty. */
  function RequiredMessage(f: Field): (msg: string)
    ensures msg == "" <==> f == Description || f == Priority
  {
    match f
    case Title => "Title is required"
    case Category => "Category is required"
    case DueDate => "Due date is required"
    case _ => ""
  }

  /** One check of `handleSubmit`: when it fails, the field gets its message. */
  function AddIf(m: map<Field, string>, failed: bool, f: Field): (r: map<Field, string>)
    requires f !in m
    requires forall g :: g in m ==> m[g] == RequiredMessage(g)
    ensures forall g :: g in r <==> g in m || (failed && g == f)
    ensures |r| == |m| + (if failed then 1 else 0)
    ensures forall g :: g in r ==> r[g] == RequiredMessage(g)
  {
    if failed then m[f := RequiredMessage(f)] else m
  }

  /** The errors `handleSubmit` finds: one for a blank title, one for an empty category and one for an
      empty due date, and nothing else. */
  function ValidationErrors(fd: FormData): (errs: map<Field, string>)
    ensures Title in errs <==> Trim(fd.title) == ""
    ensures Category in errs <==> fd.category == ""
    ensures DueDate in errs <==> fd.dueDate == ""
    ensures Description !in errs && Priority !in errs
    ensures forall f :: f in errs ==> errs[f] == RequiredMessage(f)
    ensures |errs| == (if Trim(fd.title) == "" then 1 else 0) + (if fd.category == "" then 1 else 0)
      + (if fd.dueDate == "" then 1 else 0)
  {
    var a := AddIf(map[], Trim(fd.title) == "", Title);
    assert Description !in a && Priority !in a;
    var b := AddIf(a, fd.category == "", Category);
    assert Description !in b && Priority !in b;
    AddIf(b, fd.dueDate == "", DueDate)
  }

  /** The map `handleSubmit` builds field by field is the one ValidationErrors describes. */
  lemma SubmitErrors(fd: FormData, built: map<Field, string>)
    requires built == (var a: map<Field, string> := if Trim(fd.title) == "" then map[][Title := "Title is required"] else map[];
      var b := if fd.category == "" then a[Category := "Category is required"] else a;
      if fd.dueDate == "" then b[DueDate := "Due date is required"] else b)
    ensures built == ValidationErrors(fd)
  {
  }

  /** The error-clearing step of `handleChange`: a non-empty error on the field becomes "". */
  function ClearError(errors: map<Field, string>, f: Field): (r: map<Field, string>)
    ensures r.Keys == errors.Keys
    ensures f in r ==> r[f] == ""
    ensures forall g :: g in errors && g != f ==> r[g] == errors[g]
  {
    if f in errors && errors[f] != "" then errors[f := ""] else errors
  }

  /** The update `handleAddSubtask` makes to the form data for the input text. */
  function AddSubtask(fd: FormData, input: string, tempId: int): FormData {
    if Trim(input) == "" then fd
    else fd.(subtasks := fd.subtasks + [Tasks.Subtask(tempId, Trim(input), false)])
  }

  /** The update `handleRemoveSubtask` makes: pending subtasks with that id go, the rest keep their order. */
  function RemoveSubtask(fd: FormData, id: int): (r: FormData)
    ensures forall s :: s in r.subtasks <==> s in fd.subtasks && s.id != id
    ensures r == fd.(subtasks := r.subtasks)
  {
    fd.(subtasks := Filter(fd.subtasks, (s: Tasks.Subtask) => s.id != id))
  }

  /** Adding a pending subtask is undone by removing its id: removal after addition is removal alone,
      and when the temporary id was fresh it restores the form. */
  lemma AddThenRemove(fd: FormData, input: string, tempId: int)
    ensures RemoveSubtask(AddSubtask(fd, input, tempId), tempId) == RemoveSubtask(fd, tempId)
    ensures (forall j :: 0 <= j < |fd.subtasks| ==> fd.subtasks[j].id != tempId) ==>
      RemoveSubtask(AddSubtask(fd, input, tempId), tempId) == fd
  {
    var keep := (s: Tasks.Subtask) => s.id != tempId;
    if Trim(input) != "" {
      var added := Tasks.Subtask(tempId, Trim(input), false);
      FilterConcat(fd.subtasks, [added], keep);
      assert Filter([added], keep) == [] by {
        assert [added][1..] == [];
      }
    }
    if forall j :: 0 <= j < |fd.subtasks| ==> fd.subtasks[j].id != tempId {
      FilterKeepsAll(fd.subtasks, keep);
    }
  }

  /** The object a submitted form hands on for creation: it carries no id, and its pending subtasks. */
  function ToTaskData(fd: FormData): Tasks.TaskData {
    Tasks.TaskData(None, fd.title, fd.description, fd.category, fd.priority, fd.dueDate, None, Some(fd.subtasks))
  }

  /** A submitted form never dictates ids: the repository gives the task the next task id and replaces
      each temporary subtask id by a fresh one, keeping the titles in order. */
  lemma SubmittedFormGetsFreshIds(ts: seq<Tasks.Task>, fd: FormData, now: string)
    ensures var t := Service.NewTask(ts, ToTaskData(fd), now);
      && t.id == Tasks.MaxTaskId(ts) + 1
      && t.subtasks.Some? && |t.subtasks.value| == |fd.subtasks|
      && forall k :: 0 <= k < |fd.subtasks| ==>
           t.subtasks.value[k] == Tasks.Subtask(Tasks.MaxSubtaskId(ts) + k + 1, fd.subtasks[k].title, false)
  {
  }

  /** The form component's state. */
  class TaskForm {
    var formData: FormData
    var errors: map<Field, string>
    var newSubtask: string

    constructor ()
      ensures formData == Initial && errors == map[] && newSubtask == ""
    {
      formData := Initial;
      errors := map[];
      newSubtask := "";
    }

    /** Typing into the subtask input. */
    method SetNewSubtask(text: string)
      modifies this
      ensures newSubtask == text && formData == old(formData) && errors == old(errors)
    {
      newSubtask := text;
    }

    /** `handleSubmit`: with errors, records them and submits nothing; otherwise hands the current data to
        the caller (the `onSubmit` callback) and resets the form. */
    method HandleSubmit() returns (submitted: Option<FormData>)
      modifies this
      ensures var errs := ValidationErrors(old(formData));
        |errs| > 0 ==>
          submitted == None && errors == errs && formData == old(formData) && newSubtask == old(newSubtask)
      ensures var errs := ValidationErrors(old(formData));
        |errs| == 0 ==>
          submitted == Some(old(formData)) && formData == Initial && errors == map[] && newSubtask == ""
    {
      var fd := formData;
      var newErrors: map<Field, string> := map[];
      if Trim(fd.title) == "" {
        newErrors := newErrors[Title := "Title is required"];
      }
      if fd.category == "" {
        newErrors := newErrors[Category := "Category is required"];
      }
      if fd.dueDate == "" {
        newErrors := newErrors[DueDate := "Due date is required"];
      }
      SubmitErrors(fd, newErrors);
      if |newErrors| > 0 {
        errors := newErrors;
        return None;
      }
      submitted := Some(formData);
      formData := Initial;
      errors := map[];
      newSubtask := "";
    }

    /** `handleAddSubtask`: appends the trimmed input as an open subtask and clears the input, unless the
        input is blank. */
    method HandleAddSubtask(tempId: int)
      modifies this
      ensures formData == AddSubtask(old(formData), old(newSubtask), tempId)
      ensures newSubtask == if Trim(old(newSubtask)) == "" then old(newSubtask) else ""
      ensures errors == old(errors)
    {
      if Trim(newSubtask) != "" {
        formData := AddSubtask(formData, newSubtask, tempId);
        newSubtask := "";
      }
    }

    /** `handleRemoveSubtask`. */
    method HandleRemoveSubtask(id: int)
      modifies this
      ensures formData == RemoveSubtask(old(formData), id)
      ensures errors == old(errors) && newSubtask == old(newSubtask)
    {
      formData := RemoveSubtask(formData, id);
    }

    /** `handleChange`: sets the field and clears its error if it had one. */
    method HandleChange(field: Field, value: string)
      modifies this
      ensures formData == SetField(old(formData), field, value)
      ensures errors == ClearError(old(errors), field)
      ensures newSubtask == old(newSubtask)
    {
      formData := SetField(formData, field, value);
      if field in errors && errors[field] != "" {
        errors := errors[field := ""];
      }
    }
  }
}
