/** The record shapes of types.ts that the modelled views use. */
module Records {

  datatype Option<+T> = None | Some(value: T)

  datatype Priority = Low | Medium | High

  /** `Task['category']`. */
  datatype TaskCategory = Work | Personal | Health

  /** The string literal of a task category. */
  function CategoryName(c: TaskCategory): string {
    match c
    case Work => "work"
    case Personal => "personal"
    case Health => "health"
  }

  /** `Task`; the optional fields `dueDate` and `description` are `Option`s. */
  datatype Task = Task(
    id: string,
    title: string,
    completed: bool,
    priority: Priority,
    category: TaskCategory,
    dueDate: Option<string>,
    description: Option<string>)

  /** `Transaction['type']`. */
  datatype TxType = Income | Expense

  /** `Transaction`; its `type` field is called `kind` here (`type` is a Dafny keyword). */
  datatype Transaction = Transaction(
    id: string,
    title: string,
    amount: real,
    kind: TxType,
    date: string,
    category: string)

  /** `Note` without the optional checklist, pomodoro and schedule fields, which none of the modelled code sets. */
  datatype Note = Note(
    id: string,
    content: string,
    category: string,
    action: string,
    createdAt: string)
}
