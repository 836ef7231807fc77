/**
 * The records the program passes around: scalar JSON values as they appear
 * in the SMTP settings dictionary, and the task record kept in the
 * configuration and handed to the scheduler.
 */
module Records {
  import opened Wrappers

  /** A scalar value of a JSON/Python dictionary entry. */
  datatype Value = Null | Bool(b: bool) | Int(i: int) | Str(s: string)

  /** Python truthiness of a scalar value. */
  predicate Truthy(v: Value) {
    match v
    case Null => false
    case Bool(b) => b
    case Int(i) => i != 0
    case Str(s) => s != ""
  }

  /** `d.get(key)`: the stored value, or `None` when the key is absent. */
  function Get(d: map<string, Value>, key: string): (v: Value)
    ensures key !in d ==> v == Null
    ensures key in d ==> v == d[key]
  {
    if key in d then d[key] else Null
  }

  /** `d.get(key, default)`. */
  function GetOr(d: map<string, Value>, key: string, default: Value): (v: Value)
    ensures key !in d ==> v == default
    ensures key in d ==> v == d[key]
  {
    if key in d then d[key] else default
  }

  /**
   * A task record: `id`, `api_key` and `email_to` are optional keys
   * (`None` stands for an absent key); the other keys are always present.
   */
  datatype Task = Task(
    id: Option<string>,
    prompt: string,
    interval: string,
    searchInternet: bool,
    enabled: bool,
    apiKey: Option<string>,
    emailTo: Option<string>)

  /** `task.get("id")` is truthy. */
  predicate HasTruthyId(t: Task) {
    t.id.Some? && t.id.value != ""
  }

  /** `task.get("id") == task_id` for a string `task_id`. */
  predicate HasId(t: Task, taskId: string) {
    t.id == Some(taskId)
  }
}
