/**
 * The configuration module's own demonstration run, from a missing file:
 * load the default, change and save it, load it back, add two tasks,
 * update the first, remove the second, try to remove an unknown one, and
 * reload after the "use_tls" sub-key has been deleted from the file.
 */
module ConfigExample {
  import opened Wrappers
  import opened Records
  import opened Config

  const Task1 := Task(Some("task_001"), "Daily summary", "1 day 08:00", false, true, None, None)
  const Task2 := Task(Some("task_002"), "Tech news", "1 hour", true, true, None, None)

  lemma RemoveSecond(first: Task)
    requires first.id == Some("task_001")
    ensures WithoutId([first, Task2], "task_002") == [first]
  {
    assert [first, Task2][1..] == [Task2];
    assert [Task2][1..] == [];
  }

  /** The configuration after step 2: a key, a recipient and an SMTP user set on the default. */
  function Modified(): Config {
    DefaultConfig.(geminiApiKey := Str("test_api_key_123"), recipientEmail := Str("test@example.com"),
                   smtpSettings := DefaultSmtp["user" := Str("smtp_user@example.com")])
  }

  function UpdatedTask1(): Task {
    Task1.(prompt := "Daily news summary", enabled := false)
  }

  function WithTasks(tasks: seq<Task>): StoredFile {
    Present(Dump(Modified().(scheduledTasks := tasks)))
  }

  /** Steps 1 to 3: load from a missing file, change and save, load again. */
  method SettingsStage(store: ConfigStore) returns (initial: Config, loaded: Config)
    requires store.file == Missing
    modifies store
    ensures initial == DefaultConfig && loaded == Modified()
    ensures store.file == WithTasks([])
  {
    initial := store.LoadConfig(true);
    var modified := initial.(geminiApiKey := Str("test_api_key_123"), recipientEmail := Str("test@example.com"),
                             smtpSettings := initial.smtpSettings["user" := Str("smtp_user@example.com")]);
    assert modified == Modified();
    var saved := store.SaveConfig(modified, true);
    LoadOfDump(modified);
    loaded := store.LoadConfig(true);
  }

  /** One add of a task whose id is not yet stored: it goes to the end of the stored list. */
  method AddNew(store: ConfigStore, before: seq<Task>, task: Task)
    requires store.file == WithTasks(before) && !IdTaken(before, task)
    modifies store
    ensures store.file == WithTasks(before + [task])
  {
    LoadOfDump(Modified().(scheduledTasks := before));
    var added := store.AddTaskToConfig(task, true);
  }

  /** Step 4, adding: both tasks are appended in order. */
  method AddStage(store: ConfigStore) returns (afterAdd: seq<Task>)
    requires store.file == WithTasks([])
    modifies store
    ensures afterAdd == [Task1, Task2]
    ensures store.file == WithTasks([Task1, Task2])
  {
    assert ExistingIds([]) == {};
    AddNew(store, [], Task1);
    assert [] + [Task1] == [Task1];
    IdTakenIff([Task1], Task2);
    AddNew(store, [Task1], Task2);
    assert [Task1] + [Task2] == [Task1, Task2];
    LoadOfDump(Modified().(scheduledTasks := [Task1, Task2]));
    afterAdd := store.GetTasks(true);
  }

  /** Step 4, updating: the first task is replaced in place. */
  method UpdateStage(store: ConfigStore) returns (afterUpdate: seq<Task>)
    requires store.file == WithTasks([Task1, Task2])
    modifies store
    ensures afterUpdate == [UpdatedTask1(), Task2]
    ensures store.file == WithTasks([UpdatedTask1(), Task2])
  {
    LoadOfDump(Modified().(scheduledTasks := [Task1, Task2]));
    assert FirstWithId([Task1, Task2], "task_001") == Some(0);
    assert [Task1, Task2][0 := UpdatedTask1()] == [UpdatedTask1(), Task2];
    var updated := store.UpdateTaskInConfig("task_001", UpdatedTask1(), true);
    LoadOfDump(Modified().(scheduledTasks := [UpdatedTask1(), Task2]));
    afterUpdate := store.GetTasks(true);
  }

  /** Step 4, removing: the second task goes; an unknown id removes nothing. */
  method RemoveStage(store: ConfigStore) returns (afterRemove: seq<Task>, removedUnknown: bool)
    requires store.file == WithTasks([UpdatedTask1(), Task2])
    modifies store
    ensures afterRemove == [UpdatedTask1()] && !removedUnknown
    ensures store.file == WithTasks([UpdatedTask1()])
  {
    LoadOfDump(Modified().(scheduledTasks := [UpdatedTask1(), Task2]));
    RemoveSecond(UpdatedTask1());
    var removed := store.RemoveTaskFromConfig("task_002", true);
    LoadOfDump(Modified().(scheduledTasks := [UpdatedTask1()]));
    afterRemove := store.GetTasks(true);
    assert !HasId(afterRemove[0], "task_999");
    removedUnknown := store.RemoveTaskFromConfig("task_999", true);
  }

  /** Step 5: the file loses its "use_tls" sub-key and is loaded again. */
  method ReloadStage(store: ConfigStore) returns (reloaded: Config)
    requires store.file.Present? && store.file.stored.smtpSettings.Some?
    modifies store
    ensures "use_tls" in reloaded.smtpSettings && reloaded.smtpSettings["use_tls"] == DefaultSmtp["use_tls"]
  {
    var current := store.file.stored;
    store.file := Present(current.(smtpSettings := Some(current.smtpSettings.value - {"use_tls"})));
    reloaded := store.LoadConfig(true);
  }

  method Demo() returns (initial: Config, loaded: Config, afterAdd: seq<Task>, afterUpdate: seq<Task>,
                         afterRemove: seq<Task>, removedUnknown: bool, reloaded: Config)
    // 1. a missing file loads as the default
    ensures initial.geminiApiKey == Str("") && initial.scheduledTasks == []
    // 3. the saved changes load back
    ensures loaded.geminiApiKey == Str("test_api_key_123")
    ensures loaded.recipientEmail == Str("test@example.com")
    ensures "user" in loaded.smtpSettings && loaded.smtpSettings["user"] == Str("smtp_user@example.com")
    // 4. task management
    ensures |afterAdd| == 2 && afterAdd[0].id == Some("task_001")
    ensures |afterUpdate| == 2 && afterUpdate[0].prompt == "Daily news summary" && !afterUpdate[0].enabled
    ensures |afterRemove| == 1 && afterRemove[0].id == Some("task_001")
    ensures !removedUnknown
    // 5. a deleted SMTP sub-key comes back with its default
    ensures "use_tls" in reloaded.smtpSettings && reloaded.smtpSettings["use_tls"] == DefaultSmtp["use_tls"]
  {
    var store := new ConfigStore(Missing);
    initial, loaded := SettingsStage(store);
    afterAdd := AddStage(store);
    afterUpdate := UpdateStage(store);
    afterRemove, removedUnknown := RemoveStage(store);
    reloaded := ReloadStage(store);
  }
}
