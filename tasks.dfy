/**
 * The `Task` record in its two shapes: the one with an identifier (core/todo.py,
 * core/pydantic_classes.py) and the earlier one without (todo.py).
 */
module Tasks {
  import opened Results
  import opened Enums

  /** A 128-bit identifier. The tool draws it from `uuid4`; here it is given. */
  newtype Uuid = x: int | 0 <= x < 0x1_0000_0000_0000_0000_0000_0000_0000_0000

  /** `context` is `Optional[str]`, so it may be `None`. */
  datatype Task = Task(
    task: string,
    context: Option<string>,
    status: Status,
    priority: Priority,
    tags: set<string>,
    id: Uuid)

  /** The tags invariant the task-creation syntax promises: no tag is empty. */
  predicate TagsWellFormed(t: Task) {
    "" !in t.tags
  }

  /** `Task(task=text, id=id)`: every other field takes its declared default. */
  function NewTask(text: string, id: Uuid): (r: Task)
    ensures r.task == text && r.id == id && TagsWellFormed(r)
    ensures WithoutId(r) == NewLegacyTask(text, Some(""))
  {
    Task(text, Some(""), TODO, MEDIUM, {}, id)
  }

  /** The earlier `Task`: no `id`, and `context` has no default, so callers pass it. */
  datatype LegacyTask = LegacyTask(
    task: string,
    context: Option<string>,
    status: Status,
    priority: Priority,
    tags: set<string>)

  /** `Task(task=text, context=context)` of the earlier shape. */
  function NewLegacyTask(text: string, context: Option<string>): (r: LegacyTask)
    ensures r.task == text && r.context == context
    ensures r.status.Value() == 1 && r.priority.Value() == 3 && |r.tags| == 0
  {
    LegacyTask(text, context, TODO, MEDIUM, {})
  }

  /** The fields the two shapes share. */
  function WithoutId(t: Task): LegacyTask {
    LegacyTask(t.task, t.context, t.status, t.priority, t.tags)
  }

  /** Both shapes default status, priority and tags alike, and a task made with the
      defaults keeps the tags invariant; only the identifier tells two such tasks apart. */
  lemma DefaultsAgree(text: string, id1: Uuid, id2: Uuid)
    ensures WithoutId(NewTask(text, id1)) == NewLegacyTask(text, Some(""))
    ensures TagsWellFormed(NewTask(text, id1))
    ensures NewTask(text, id1) == NewTask(text, id2) <==> id1 == id2
  {
  }
}
