/**
 * The configuration store: the default configuration, the filling of
 * missing keys on load, and the task list operations that load, change
 * and save the stored configuration. The JSON file is the `file` field of
 * `ConfigStore`; whether a save succeeds is the `writable` parameter.
 */
module Config {
  import opened Wrappers
  import opened Records

  /** The configuration as the program uses it after loading: every top-level key is present. */
  datatype Config = Config(
    geminiApiKey: Value,
    recipientEmail: Value,
    smtpSettings: map<string, Value>,
    scheduledTasks: seq<Task>)

  /** The configuration as written in the file: each top-level key may be absent (`None`). */
  datatype Stored = Stored(
    geminiApiKey: Option<Value>,
    recipientEmail: Option<Value>,
    smtpSettings: Option<map<string, Value>>,
    scheduledTasks: Option<seq<Task>>)

  /** The state of the file: absent, unreadable as JSON, or holding a stored configuration. */
  datatype StoredFile = Missing | Corrupt | Present(stored: Stored)

  /** The sub-keys of the default SMTP settings, in the order they are filled. */
  const SmtpKeys: seq<string> := ["server", "port", "user", "password", "use_tls"]

  const DefaultSmtp: map<string, Value> := map[
    "server" := Str("smtp.example.com"),
    "port" := Int(587),
    "user" := Str("user@example.com"),
    "password" := Str(""),
    "use_tls" := Bool(true)]

  const DefaultConfig := Config(Str(""), Str(""), DefaultSmtp, [])

  /** What `json.dump` writes: every key of the configuration. */
  function Dump(c: Config): Stored {
    Stored(Some(c.geminiApiKey), Some(c.recipientEmail), Some(c.smtpSettings), Some(c.scheduledTasks))
  }

  /**
   * The configuration `load_config` returns for a stored one: absent
   * top-level keys take their defaults, absent SMTP sub-keys take theirs,
   * and every value already present is kept.
   */
  function WithDefaults(s: Stored): (c: Config)
    ensures s.geminiApiKey.Some? ==> c.geminiApiKey == s.geminiApiKey.value
    ensures s.geminiApiKey.None? ==> c.geminiApiKey == DefaultConfig.geminiApiKey
    ensures s.recipientEmail.Some? ==> c.recipientEmail == s.recipientEmail.value
    ensures s.recipientEmail.None? ==> c.recipientEmail == DefaultConfig.recipientEmail
    ensures s.scheduledTasks.Some? ==> c.scheduledTasks == s.scheduledTasks.value
    ensures s.scheduledTasks.None? ==> c.scheduledTasks == []
    ensures s.smtpSettings.None? ==> c.smtpSettings == DefaultSmtp
    ensures s.smtpSettings.Some? ==> forall k :: k in s.smtpSettings.value ==>
              k in c.smtpSettings && c.smtpSettings[k] == s.smtpSettings.value[k]
    ensures forall k :: k in DefaultSmtp ==> k in c.smtpSettings
    ensures forall k :: k in c.smtpSettings ==> k in DefaultSmtp || (s.smtpSettings.Some? && k in s.smtpSettings.value)
    ensures forall k :: k in DefaultSmtp && (s.smtpSettings.None? || k !in s.smtpSettings.value) ==>
              c.smtpSettings[k] == DefaultSmtp[k]
  {
    Config(
      s.geminiApiKey.GetOr(DefaultConfig.geminiApiKey),
      s.recipientEmail.GetOr(DefaultConfig.recipientEmail),
      DefaultSmtp + s.smtpSettings.GetOr(map[]),
      s.scheduledTasks.GetOr(DefaultConfig.scheduledTasks))
  }

  /** What `load_config` returns for each state of the file. */
  function Loaded(f: StoredFile): Config {
    match f
    case Present(s) => WithDefaults(s)
    case _ => DefaultConfig
  }

  /** The file after `load_config`: only a missing file is written, with the default configuration. */
  function AfterLoad(f: StoredFile, writable: bool): StoredFile {
    if f.Missing? && writable then Present(Dump(DefaultConfig)) else f
  }

  /** The inner loop of `load_config`: each absent default SMTP sub-key is added. */
  method FillSmtpDefaults(smtp: map<string, Value>) returns (r: map<string, Value>)
    ensures r == DefaultSmtp + smtp
  {
    r := smtp;
    for i := 0 to |SmtpKeys|
      invariant forall k :: k in r <==> k in smtp || k in SmtpKeys[..i]
      invariant forall k :: k in smtp ==> r[k] == smtp[k]
      invariant forall k :: k in SmtpKeys[..i] && k !in smtp ==> r[k] == DefaultSmtp[k]
    {
      var key := SmtpKeys[i];
      if key !in r {
        r := r[key := DefaultSmtp[key]];
      }
      assert SmtpKeys[..i + 1] == SmtpKeys[..i] + [key];
    }
    assert SmtpKeys[..|SmtpKeys|] == SmtpKeys;
    assert forall k :: k in DefaultSmtp <==> k in SmtpKeys;
  }

  /** `load_config` on a stored configuration: the top-level keys, then the SMTP sub-keys. */
  method FillDefaults(s: Stored) returns (c: Config)
    ensures c == WithDefaults(s)
  {
    var apiKey := if s.geminiApiKey.Some? then s.geminiApiKey.value else DefaultConfig.geminiApiKey;
    var recipient := if s.recipientEmail.Some? then s.recipientEmail.value else DefaultConfig.recipientEmail;
    var smtp := if s.smtpSettings.Some? then s.smtpSettings.value else DefaultConfig.smtpSettings;
    smtp := FillSmtpDefaults(smtp);
    var tasks := if s.scheduledTasks.Some? then s.scheduledTasks.value else DefaultConfig.scheduledTasks;
    c := Config(apiKey, recipient, smtp, tasks);
    assert DefaultSmtp + DefaultSmtp == DefaultSmtp;
  }

  /** `{t.get("id") for t in tasks if t.get("id")}`. */
  function ExistingIds(tasks: seq<Task>): set<string> {
    set t | t in tasks && HasTruthyId(t) :: t.id.value
  }

  /** The duplicate check of `add_task_to_config`: a truthy id that some stored task already carries. */
  predicate IdTaken(tasks: seq<Task>, task: Task) {
    HasTruthyId(task) && task.id.value in ExistingIds(tasks)
  }

  /** The position of the first task with the id, if any. */
  function FirstWithId(tasks: seq<Task>, taskId: string): (r: Option<nat>)
    ensures r.Some? ==> r.value < |tasks| && HasId(tasks[r.value], taskId)
    ensures r.Some? ==> forall i :: 0 <= i < r.value ==> !HasId(tasks[i], taskId)
    ensures r.None? <==> forall i :: 0 <= i < |tasks| ==> !HasId(tasks[i], taskId)
  {
    if tasks == [] then None
    else if HasId(tasks[0], taskId) then Some(0)
    else
      match FirstWithId(tasks[1..], taskId)
      case None => None
      case Some(i) => Some(i + 1)
  }

  /** The loop of `update_task_in_config`: the first task with the id is replaced, then it stops. */
  method ReplaceFirst(tasks: seq<Task>, taskId: string, updated: Task) returns (found: bool, r: seq<Task>)
    ensures found <==> exists i :: 0 <= i < |tasks| && HasId(tasks[i], taskId)
    ensures found ==> r == tasks[FirstWithId(tasks, taskId).value := updated]
    ensures !found ==> r == tasks
  {
    found := false;
    r := tasks;
    var i := 0;
    while i < |tasks|
      invariant 0 <= i <= |tasks|
      invariant forall j :: 0 <= j < i ==> !HasId(tasks[j], taskId)
      invariant r == tasks
    {
      if HasId(tasks[i], taskId) {
        r := tasks[i := updated];
        found := true;
        break;
      }
      i := i + 1;
    }
    if found {
      var first := FirstWithId(tasks, taskId);
      assert first.Some? && first.value == i;
    }
  }

  /** `[task for task in tasks if task.get("id") != task_id]`. */
  function WithoutId(tasks: seq<Task>, taskId: string): (r: seq<Task>)
    ensures |r| <= |tasks|
    ensures forall i :: 0 <= i < |r| ==> !HasId(r[i], taskId)
  {
    if tasks == [] then []
    else if HasId(tasks[0], taskId) then WithoutId(tasks[1..], taskId)
    else [tasks[0]] + WithoutId(tasks[1..], taskId)
  }

  // ---------------------------------------------------------------------
  // Properties of the task list operations

  /** A task without a truthy id is never taken to be a duplicate. */
  lemma NoIdNeverTaken(tasks: seq<Task>, task: Task)
    requires !HasTruthyId(task)
    ensures !IdTaken(tasks, task)
  {
  }

  /** A truthy id is taken exactly when some stored task carries it. */
  lemma IdTakenIff(tasks: seq<Task>, task: Task)
    requires HasTruthyId(task)
    ensures IdTaken(tasks, task) <==> exists i :: 0 <= i < |tasks| && tasks[i].id == task.id
  {
    if IdTaken(tasks, task) {
      var t :| t in tasks && HasTruthyId(t) && t.id.value == task.id.value;
      var i :| 0 <= i < |tasks| && tasks[i] == t;
      assert tasks[i].id == task.id;
    }
    if exists i :: 0 <= i < |tasks| && tasks[i].id == task.id {
      var i :| 0 <= i < |tasks| && tasks[i].id == task.id;
      assert tasks[i] in tasks;
      assert task.id.value in ExistingIds(tasks);
    }
  }

  /** Removal keeps exactly the tasks with another id. */
  lemma {:induction false} WithoutIdMembers(tasks: seq<Task>, taskId: string, t: Task)
    ensures t in WithoutId(tasks, taskId) <==> t in tasks && !HasId(t, taskId)
  {
    if tasks != [] {
      WithoutIdMembers(tasks[1..], taskId, t);
      assert tasks == [tasks[0]] + tasks[1..];
    }
  }

  /** Removal works element by element, so the kept tasks keep their relative order. */
  lemma {:induction false} WithoutIdAppend(a: seq<Task>, b: seq<Task>, taskId: string)
    ensures WithoutId(a + b, taskId) == WithoutId(a, taskId) + WithoutId(b, taskId)
  {
    if a == [] {
      assert a + b == b;
    } else {
      assert (a + b)[1..] == a[1..] + b;
      WithoutIdAppend(a[1..], b, taskId);
    }
  }

  /** Something is removed exactly when some task carries the id; otherwise nothing changes. */
  lemma {:induction false} WithoutIdShrinks(tasks: seq<Task>, taskId: string)
    ensures |WithoutId(tasks, taskId)| < |tasks| <==> exists i :: 0 <= i < |tasks| && HasId(tasks[i], taskId)
    ensures (forall i :: 0 <= i < |tasks| ==> !HasId(tasks[i], taskId)) ==> WithoutId(tasks, taskId) == tasks
  {
    if tasks != [] {
      WithoutIdShrinks(tasks[1..], taskId);
      assert forall i :: 1 <= i < |tasks| ==> tasks[i] == tasks[1..][i - 1];
      if exists i :: 0 <= i < |tasks[1..]| && HasId(tasks[1..][i], taskId) {
        var i :| 0 <= i < |tasks[1..]| && HasId(tasks[1..][i], taskId);
        assert HasId(tasks[i + 1], taskId);
      }
    }
  }

  /** Replacing the first match keeps the length and every other position. */
  lemma ReplaceFirstKeepsOthers(tasks: seq<Task>, taskId: string, updated: Task)
    requires FirstWithId(tasks, taskId).Some?
    ensures var k := FirstWithId(tasks, taskId).value;
      var r := tasks[k := updated];
      |r| == |tasks| && r[k] == updated && forall i :: 0 <= i < |tasks| && i != k ==> r[i] == tasks[i]
  {
  }

  /** A saved configuration loads back as itself once it has every default SMTP sub-key. */
  lemma LoadOfDump(c: Config)
    requires forall k :: k in DefaultSmtp ==> k in c.smtpSettings
    ensures WithDefaults(Dump(c)) == c
  {
    assert DefaultSmtp + c.smtpSettings == c.smtpSettings;
  }

  /** Loading fills the defaults once and for all: saving and loading again changes nothing. */
  lemma WithDefaultsIdempotent(s: Stored)
    ensures WithDefaults(Dump(WithDefaults(s))) == WithDefaults(s)
  {
    LoadOfDump(WithDefaults(s));
  }

  // ---------------------------------------------------------------------
  // The stored file and the operations on it

  class ConfigStore {
    var file: StoredFile

    constructor (file: StoredFile)
      ensures this.file == file
    {
      this.file := file;
    }

    /** `save_config`: the file holds the configuration when the write succeeds, and is untouched otherwise. */
    method SaveConfig(c: Config, writable: bool) returns (ok: bool)
      modifies this
      ensures ok == writable
      ensures file == if writable then Present(Dump(c)) else old(file)
    {
      if writable {
        file := Present(Dump(c));
        ok := true;
      } else {
        ok := false;
      }
    }

    /**
     * `load_config`: a missing file gives the default configuration and
     * is written with it; an unreadable one gives the default and is left
     * alone; a stored one gives its configuration with the defaults filled in.
     */
    method LoadConfig(writable: bool) returns (c: Config)
      modifies this
      ensures c == Loaded(old(file))
      ensures file == AfterLoad(old(file), writable)
    {
      match file
      case Missing =>
        var _ := SaveConfig(DefaultConfig, writable);
        c := DefaultConfig;
      case Corrupt =>
        c := DefaultConfig;
      case Present(s) =>
        c := FillDefaults(s);
    }

    /** `get_tasks`: the task list of the loaded configuration. */
    method GetTasks(writable: bool) returns (tasks: seq<Task>)
      modifies this
      ensures tasks == Loaded(old(file)).scheduledTasks
      ensures file == AfterLoad(old(file), writable)
    {
      var c := LoadConfig(writable);
      tasks := c.scheduledTasks;
    }

    /** `add_task_to_config`: a duplicate id is refused; otherwise the task is appended and the result saved. */
    method AddTaskToConfig(task: Task, writable: bool) returns (ok: bool)
      modifies this
      ensures var before := Loaded(old(file));
        ok <==> !IdTaken(before.scheduledTasks, task) && writable
      ensures var before := Loaded(old(file));
        file == if !IdTaken(before.scheduledTasks, task) && writable
                then Present(Dump(before.(scheduledTasks := before.scheduledTasks + [task])))
                else AfterLoad(old(file), writable)
    {
      var c := LoadConfig(writable);
      if IdTaken(c.scheduledTasks, task) {
        return false;
      }
      c := c.(scheduledTasks := c.scheduledTasks + [task]);
      ok := SaveConfig(c, writable);
    }

    /** `update_task_in_config`: the first task with the id is replaced and the result saved. */
    method UpdateTaskInConfig(taskId: string, updated: Task, writable: bool) returns (ok: bool)
      modifies this
      ensures var before := Loaded(old(file)).scheduledTasks;
        ok <==> FirstWithId(before, taskId).Some? && writable
      ensures var before := Loaded(old(file));
        var k := FirstWithId(before.scheduledTasks, taskId);
        file == if k.Some? && writable
                then Present(Dump(before.(scheduledTasks := before.scheduledTasks[k.value := updated])))
                else AfterLoad(old(file), writable)
    {
      var c := LoadConfig(writable);
      var found, tasks := ReplaceFirst(c.scheduledTasks, taskId, updated);
      if found {
        c := c.(scheduledTasks := tasks);
        ok := SaveConfig(c, writable);
      } else {
        ok := false;
      }
    }

    /** `remove_task_from_config`: every task with the id is dropped; saved only when something was. */
    method RemoveTaskFromConfig(taskId: string, writable: bool) returns (ok: bool)
      modifies this
      ensures var before := Loaded(old(file)).scheduledTasks;
        ok <==> (exists i :: 0 <= i < |before| && HasId(before[i], taskId)) && writable
      ensures var before := Loaded(old(file));
        var kept := WithoutId(before.scheduledTasks, taskId);
        file == if |kept| < |before.scheduledTasks| && writable
                then Present(Dump(before.(scheduledTasks := kept)))
                else AfterLoad(old(file), writable)
    {
      var c := LoadConfig(writable);
      var initialLen := |c.scheduledTasks|;
      WithoutIdShrinks(c.scheduledTasks, taskId);
      c := c.(scheduledTasks := WithoutId(c.scheduledTasks, taskId));
      if |c.scheduledTasks| < initialLen {
        ok := SaveConfig(c, writable);
      } else {
        ok := false;
      }
    }
  }
}
