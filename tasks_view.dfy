/**
 * The task list of components/TasksView.tsx: the form modal (create and
 * edit), toggling, deleting, and the tab filter, as pure functions over an
 * immutable state record (React's `setTasks` receives a new array each time).
 */
module TasksView {
  import opened Records
  import opened Text
  import opened Seqs

  /** The filter tabs `'all' | 'work' | 'personal'`. */
  datatype Tab = AllTab | WorkTab | PersonalTab

  /** The form fields; the modal always sets all five of them. */
  datatype TaskForm = TaskForm(
    title: string,
    description: string,
    priority: Priority,
    category: TaskCategory,
    dueDate: string)

  /** The view's state: the list, the active tab, and the modal with the task being edited. */
  datatype TasksState = TasksState(
    tasks: seq<Task>,
    activeTab: Tab,
    modalOpen: bool,
    editing: Option<Task>,
    form: TaskForm)

  /** The category a tab shows; `'all'` shows every category. */
  predicate ShowsCategory(tab: Tab, c: TaskCategory) {
    match tab
    case AllTab => true
    case WorkTab => c == Work
    case PersonalTab => c == Personal
  }

  /** The category a new task gets: `'personal'` on the `'all'` tab, otherwise the tab's own. */
  function DefaultCategory(tab: Tab): (c: TaskCategory)
    ensures ShowsCategory(tab, c)
    ensures tab == AllTab ==> c == Personal
    ensures tab != AllTab ==> CategoryName(c) == (if tab == WorkTab then "work" else "personal")
  {
    match tab
    case AllTab => Personal
    case WorkTab => Work
    case PersonalTab => Personal
  }

  /** `handleOpenCreate`: no task is being edited and the form is blank. */
  function OpenCreate(s: TasksState): (r: TasksState)
    ensures r.modalOpen && r.editing == None
    ensures r.form == TaskForm("", "", Medium, DefaultCategory(s.activeTab), "")
    ensures r.tasks == s.tasks && r.activeTab == s.activeTab
  {
    s.(modalOpen := true, editing := None, form := TaskForm("", "", Medium, DefaultCategory(s.activeTab), ""))
  }

  /** The value of an optional text field shown in the form (`x || ''`). */
  function OrEmpty(o: Option<string>): string {
    if o.Some? then o.value else ""
  }

  /** `handleOpenEdit`: the form is loaded from the task. */
  function OpenEdit(s: TasksState, t: Task): (r: TasksState)
    ensures r.modalOpen && r.editing == Some(t)
    ensures r.form.title == t.title && r.form.priority == t.priority && r.form.category == t.category
    ensures t.description.Some? ==> r.form.description == t.description.value
    ensures t.description.None? ==> r.form.description == ""
    ensures t.dueDate.Some? ==> r.form.dueDate == t.dueDate.value
    ensures t.dueDate.None? ==> r.form.dueDate == ""
    ensures r.tasks == s.tasks && r.activeTab == s.activeTab
  {
    s.(modalOpen := true, editing := Some(t),
       form := TaskForm(t.title, OrEmpty(t.description), t.priority, t.category, OrEmpty(t.dueDate)))
  }

  /** `{ ...t, ...formData }`: the form's five fields overwrite the task's. */
  function Merge(t: Task, f: TaskForm): (r: Task)
    ensures r.id == t.id && r.completed == t.completed
    ensures r.title == f.title && r.priority == f.priority && r.category == f.category
    ensures r.description == Some(f.description) && r.dueDate == Some(f.dueDate)
  {
    t.(title := f.title, description := Some(f.description), priority := f.priority,
       category := f.category, dueDate := Some(f.dueDate))
  }

  /** The edit branch of `handleSave`: every task with the edited id receives the form. */
  function EditTasks(tasks: seq<Task>, id: string, f: TaskForm): (r: seq<Task>)
    ensures |r| == |tasks|
    ensures forall i :: 0 <= i < |r| && tasks[i].id != id ==> r[i] == tasks[i]
    ensures forall i :: 0 <= i < |r| && tasks[i].id == id ==> r[i] == Merge(tasks[i], f)
  {
    seq(|tasks|, i requires 0 <= i < |tasks| => if tasks[i].id == id then Merge(tasks[i], f) else tasks[i])
  }

  /** The task the create branch of `handleSave` builds; `id` stands for `Date.now().toString()`. */
  function NewTask(id: string, f: TaskForm): (t: Task)
    ensures t.id == id && !t.completed
    ensures t.title == f.title && t.priority == f.priority && t.category == f.category
    ensures t.description == Some(f.description) && t.dueDate == Some(f.dueDate)
  {
    Task(id, f.title, false, f.priority, f.category, Some(f.dueDate), Some(f.description))
  }

  /** The create branch of `handleSave`: the new task goes first. */
  function CreateTask(tasks: seq<Task>, id: string, f: TaskForm): (r: seq<Task>)
    ensures |r| == |tasks| + 1 && r[0] == NewTask(id, f) && r[1..] == tasks
  {
    [NewTask(id, f)] + tasks
  }

  /**
   * `handleSave`: nothing happens when the title is blank after trimming;
   * otherwise the edited task is updated (or a new one prepended) and the modal closes.
   */
  function Save(s: TasksState, newId: string): (r: TasksState)
    ensures Trim(s.form.title) == "" ==> r == s
    ensures Trim(s.form.title) != "" ==>
      !r.modalOpen && r.form == s.form && r.editing == s.editing && r.activeTab == s.activeTab
    ensures Trim(s.form.title) != "" && s.editing.Some? ==>
      r.tasks == EditTasks(s.tasks, s.editing.value.id, s.form)
    ensures Trim(s.form.title) != "" && s.editing.None? ==>
      r.tasks == CreateTask(s.tasks, newId, s.form)
  {
    if Trim(s.form.title) == "" then s
    else
      var tasks := if s.editing.Some? then EditTasks(s.tasks, s.editing.value.id, s.form)
                   else CreateTask(s.tasks, newId, s.form);
      s.(tasks := tasks, modalOpen := false)
  }

  /** `toggleTask`: flips `completed` of the tasks with the id, nothing else. */
  function ToggleTasks(tasks: seq<Task>, id: string): (r: seq<Task>)
    ensures |r| == |tasks|
    ensures forall i :: 0 <= i < |r| && tasks[i].id != id ==> r[i] == tasks[i]
    ensures forall i :: 0 <= i < |r| && tasks[i].id == id ==>
      r[i] == tasks[i].(completed := !tasks[i].completed)
  {
    seq(|tasks|, i requires 0 <= i < |tasks| =>
      if tasks[i].id == id then tasks[i].(completed := !tasks[i].completed) else tasks[i])
  }

  /** Toggling the same id twice restores the list. */
  lemma ToggleTwice(tasks: seq<Task>, id: string)
    ensures ToggleTasks(ToggleTasks(tasks, id), id) == tasks
  {
    var r := ToggleTasks(ToggleTasks(tasks, id), id);
    assert |r| == |tasks|;
    forall i | 0 <= i < |tasks| ensures r[i] == tasks[i] {
    }
  }

  /** `deleteTask`: keeps exactly the tasks whose id differs. */
  function DeleteTasks(tasks: seq<Task>, id: string): seq<Task> {
    Filter(tasks, (t: Task) => t.id != id)
  }

  /** Delete removes every task with the id and keeps all the others, in their order. */
  lemma DeleteSpec(tasks: seq<Task>, id: string)
    ensures forall t :: t in DeleteTasks(tasks, id) <==> t in tasks && t.id != id
    ensures forall t :: multiset(DeleteTasks(tasks, id))[t] == if t.id != id then multiset(tasks)[t] else 0
    ensures IsSubsequence(DeleteTasks(tasks, id), tasks)
  {
    forall t ensures t in DeleteTasks(tasks, id) <==> t in tasks && t.id != id {
      FilterMembership(tasks, (t: Task) => t.id != id, t);
    }
    forall t ensures multiset(DeleteTasks(tasks, id))[t] == if t.id != id then multiset(tasks)[t] else 0 {
      FilterCount(tasks, (t: Task) => t.id != id, t);
    }
    FilterIsSubsequence(tasks, (t: Task) => t.id != id);
  }

  /** Deleting a toggled task is the same as deleting it. */
  lemma {:induction false} DeleteAfterToggle(tasks: seq<Task>, id: string)
    ensures DeleteTasks(ToggleTasks(tasks, id), id) == DeleteTasks(tasks, id)
  {
    if tasks != [] {
      DeleteAfterToggle(tasks[1..], id);
      assert ToggleTasks(tasks, id)[1..] == ToggleTasks(tasks[1..], id);
    }
  }

  /** The test `filteredTasks` applies to each task. */
  predicate Visible(tab: Tab, t: Task) {
    ShowsCategory(tab, t.category) && !t.completed
  }

  /** `filteredTasks`. */
  function FilteredTasks(tasks: seq<Task>, tab: Tab): seq<Task> {
    Filter(tasks, (t: Task) => Visible(tab, t))
  }

  /**
   * The filtered list is the order-preserving subsequence of the incomplete
   * tasks, restricted to the tab's category unless the tab is `'all'`.
   */
  lemma FilteredSpec(tasks: seq<Task>, tab: Tab)
    ensures forall t :: t in FilteredTasks(tasks, tab) <==>
      t in tasks && !t.completed && (tab == AllTab || CategoryName(t.category) == (if tab == WorkTab then "work" else "personal"))
    ensures forall t :: multiset(FilteredTasks(tasks, tab))[t] == if Visible(tab, t) then multiset(tasks)[t] else 0
    ensures IsSubsequence(FilteredTasks(tasks, tab), tasks)
  {
    forall t ensures multiset(FilteredTasks(tasks, tab))[t] == if Visible(tab, t) then multiset(tasks)[t] else 0 {
      FilterCount(tasks, (t: Task) => Visible(tab, t), t);
    }
    forall t ensures t in FilteredTasks(tasks, tab) <==>
      t in tasks && !t.completed && (tab == AllTab || CategoryName(t.category) == (if tab == WorkTab then "work" else "personal"))
    {
      FilterMembership(tasks, (t: Task) => Visible(tab, t), t);
    }
    FilterIsSubsequence(tasks, (t: Task) => Visible(tab, t));
  }

  /**
   * A task created from the modal opened on the current tab (with a
   * non-blank title) is shown first in that tab's list, above the rest.
   */
  lemma CreatedTaskShownFirst(s: TasksState, newId: string, f: TaskForm)
    requires Trim(f.title) != ""
    requires f.category == OpenCreate(s).form.category
    ensures var r := Save(OpenCreate(s).(form := f), newId);
      FilteredTasks(r.tasks, r.activeTab) == [NewTask(newId, f)] + FilteredTasks(s.tasks, s.activeTab)
  {
    var r := Save(OpenCreate(s).(form := f), newId);
    assert r.tasks == [NewTask(newId, f)] + s.tasks;
    FilterConcat([NewTask(newId, f)], s.tasks, (t: Task) => Visible(s.activeTab, t));
  }

  /**
   * Opening a task for editing and saving without touching the form leaves
   * the list as it was, provided the task has both optional fields and is the
   * only task with its id.
   */
  lemma EditUnchangedIsIdentity(s: TasksState, t: Task, newId: string)
    requires Trim(t.title) != ""
    requires t.description.Some? && t.dueDate.Some?
    requires forall i :: 0 <= i < |s.tasks| && s.tasks[i].id == t.id ==> s.tasks[i] == t
    ensures Save(OpenEdit(s, t), newId).tasks == s.tasks
  {
    var r := Save(OpenEdit(s, t), newId).tasks;
    assert |r| == |s.tasks|;
    forall i | 0 <= i < |s.tasks| ensures r[i] == s.tasks[i] {
      if s.tasks[i].id == t.id {
        assert r[i] == Merge(t, OpenEdit(s, t).form);
      }
    }
  }
}
