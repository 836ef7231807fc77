/**
 * The scheduler module's own demonstration run: four tasks are started
 * with a dummy SMTP config, one of them has an interval that does not
 * parse, "joke_task" is removed and the scheduler is stopped.
 */
module SchedulingExample {
  import opened Wrappers
  import opened Records
  import opened Interval
  import opened Scheduling

  /** The dummy config names "host" rather than "server". */
  const DummySmtp: map<string, Value> := map["host" := Str("smtp.example.com"), "port" := Int(587)]
  const MainKey := "MAIN_API_KEY"
  const MainRecipient := "main_recipient@example.com"

  const FiveSeconds := "5 seconds"
  const TenSeconds := "10 seconds"
  const DailyAtEight := "1 day 08:00"
  const BlueMoon := "every blue moon"

  const Joke := Task(Some("joke_task"), "Tell me a joke", FiveSeconds, false, true, None, None)
  const News := Task(Some("news_task"), "Latest AI news", TenSeconds, true, true, Some("TASK_SPECIFIC_KEY"), None)
  const Weather := Task(Some("weather_task"), "Weather in London", DailyAtEight, true, true,
                        None, Some("weather_fan@example.com"))
  const BadInterval := Task(Some("bad_interval_task"), "This won't run", BlueMoon, false, true, None, None)

  function JokeJob(): Job {
    MakeJob("joke_task", "Tell me a joke", Every(5, Second), false, MainRecipient, MainKey, DummySmtp)
  }

  function NewsJob(): Job {
    MakeJob("news_task", "Latest AI news", Every(10, Second), true, MainRecipient, "TASK_SPECIFIC_KEY", DummySmtp)
  }

  function WeatherJob(): Job {
    MakeJob("weather_task", "Weather in London", DailyAt("08:00"), true, "weather_fan@example.com", MainKey,
            DummySmtp)
  }

  lemma JobForJoke()
    ensures JobFor(Joke, 1, MainKey, MainRecipient, DummySmtp) == Some(JokeJob())
  {
    ExampleFiveSeconds();
    JobForParsed(Joke, 1, MainKey, MainRecipient, DummySmtp, Every(5, Second));
  }

  lemma JobForNews()
    ensures JobFor(News, 2, MainKey, MainRecipient, DummySmtp) == Some(NewsJob())
  {
    ExampleTenSeconds();
    JobForParsed(News, 2, MainKey, MainRecipient, DummySmtp, Every(10, Second));
  }

  lemma JobForWeather()
    ensures JobFor(Weather, 3, MainKey, MainRecipient, DummySmtp) == Some(WeatherJob())
  {
    ExampleDailyAtEight();
    JobForParsed(Weather, 3, MainKey, MainRecipient, DummySmtp, DailyAt("08:00"));
  }

  lemma JobForBadInterval()
    ensures JobFor(BadInterval, 4, MainKey, MainRecipient, DummySmtp) == None
  {
    ExampleBlueMoon();
  }

  lemma CandidatesOfFour(t0: Task, t1: Task, t2: Task, t3: Task, apiKey: string, emailTo: string,
                         smtp: map<string, Value>)
    ensures Candidates([t0, t1, t2, t3], apiKey, emailTo, smtp) ==
      [JobFor(t0, 1, apiKey, emailTo, smtp), JobFor(t1, 2, apiKey, emailTo, smtp),
       JobFor(t2, 3, apiKey, emailTo, smtp), JobFor(t3, 4, apiKey, emailTo, smtp)]
  {
    var tasks := [t0, t1, t2, t3];
    var cs := Candidates(tasks, apiKey, emailTo, smtp);
    assert cs[0] == JobFor(tasks[0], 1, apiKey, emailTo, smtp);
    assert cs[1] == JobFor(tasks[1], 2, apiKey, emailTo, smtp);
    assert cs[2] == JobFor(tasks[2], 3, apiKey, emailTo, smtp);
    assert cs[3] == JobFor(tasks[3], 4, apiKey, emailTo, smtp);
  }

  lemma CollectOfFour(a: Job, b: Job, c: Job)
    ensures Collect([Some(a), Some(b), Some(c), None]) == [a, b, c]
  {
    var cs := [Some(a), Some(b), Some(c), None];
    CollectLast([], Some(a));
    assert [] + [Some(a)] == cs[..1];
    CollectLast(cs[..1], Some(b));
    assert cs[..1] + [Some(b)] == cs[..2];
    CollectLast(cs[..2], Some(c));
    assert cs[..2] + [Some(c)] == cs[..3];
    CollectLast(cs[..3], None);
    assert cs[..3] + [None] == cs;
  }

  lemma CandidatesOfExample()
    ensures Candidates([Joke, News, Weather, BadInterval], MainKey, MainRecipient, DummySmtp)
            == [Some(JokeJob()), Some(NewsJob()), Some(WeatherJob()), None]
  {
    CandidatesOfFour(Joke, News, Weather, BadInterval, MainKey, MainRecipient, DummySmtp);
    JobForJoke();
    JobForNews();
    JobForWeather();
    JobForBadInterval();
  }

  /** Three of the four tasks are scheduled, in order; "every blue moon" is dropped. */
  lemma ScheduledExample()
    ensures Scheduled([Joke, News, Weather, BadInterval], MainKey, MainRecipient, DummySmtp)
            == [JokeJob(), NewsJob(), WeatherJob()]
  {
    CandidatesOfExample();
    CollectOfFour(JokeJob(), NewsJob(), WeatherJob());
  }

  lemma RemoveJokeExample()
    ensures WithoutTag([JokeJob(), NewsJob(), WeatherJob()], "joke_task") == [NewsJob(), WeatherJob()]
  {
    var jobs := [JokeJob(), NewsJob(), WeatherJob()];
    assert jobs[1..] == [NewsJob(), WeatherJob()];
    assert jobs[1..][1..] == [WeatherJob()];
    assert jobs[1..][1..][1..] == [];
  }

  /** The start: three of the four tasks become jobs and the worker runs. */
  method StartStage(scheduler: Scheduler) returns (started: seq<Job>)
    requires !scheduler.running
    modifies scheduler
    ensures started == scheduler.jobs == [JokeJob(), NewsJob(), WeatherJob()]
    ensures scheduler.running
  {
    scheduler.Start([Joke, News, Weather, BadInterval], MainKey, MainRecipient, DummySmtp);
    ScheduledExample();
    started := scheduler.jobs;
  }

  /** The removal of "joke_task": the other two jobs stay, in order. */
  method RemoveStage(scheduler: Scheduler) returns (afterRemove: seq<Job>)
    requires scheduler.jobs == [JokeJob(), NewsJob(), WeatherJob()]
    modifies scheduler
    ensures afterRemove == scheduler.jobs == [NewsJob(), WeatherJob()]
    ensures scheduler.running == old(scheduler.running)
  {
    scheduler.RemoveTask("joke_task");
    RemoveJokeExample();
    afterRemove := scheduler.jobs;
  }

  /**
   * The run itself. Returns the jobs after start, after removing
   * "joke_task" and after stop, and the email outcome of one run of the
   * first job.
   */
  method Demo() returns (started: seq<Job>, afterRemove: seq<Job>, afterStop: seq<Job>, outcome: EmailOutcome)
    ensures |started| == 3
    ensures started[0].tag == "joke_task" && started[1].tag == "news_task" && started[2].tag == "weather_task"
    ensures started[0].rule == Every(5, Second) && started[1].rule == Every(10, Second)
    ensures started[2].rule == DailyAt("08:00")
    // the per-task key and recipient win over the global ones, which fill in otherwise
    ensures started[1].args.apiKey == "TASK_SPECIFIC_KEY" && started[2].args.apiKey == "MAIN_API_KEY"
    ensures started[2].args.emailTo == "weather_fan@example.com"
    ensures started[0].args.emailTo == "main_recipient@example.com"
    ensures afterRemove == started[1..]
    ensures afterStop == []
    // the dummy config has no "server", so no email is attempted
    ensures outcome == EmailSkipped
  {
    var scheduler := new Scheduler();
    started := StartStage(scheduler);
    afterRemove := RemoveStage(scheduler);
    assert afterRemove == started[1..];
    scheduler.Stop();
    afterStop := scheduler.jobs;
    assert "server" !in DummySmtp;
    outcome := RunWithoutServer(started[0]);
  }

  /** One run of a job whose SMTP config names no "server": the email step is skipped. */
  method RunWithoutServer(job: Job) returns (outcome: EmailOutcome)
    requires "server" !in job.args.smtp
    ensures outcome == EmailSkipped
  {
    var response;
    response, outcome := RunTask(job.args, "12:00:00", None);
  }
}
