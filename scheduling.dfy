/**
 * The scheduler: the job list with its add/remove operations, the
 * start/stop state machine over the background worker (modelled as a
 * `running` flag) and the action every job runs, which builds the email
 * for a simulated response.
 */
module Scheduling {
  import opened Wrappers
  import opened Text
  import opened Records
  import opened Interval
  import opened Email

  /** The arguments a job captures when it is scheduled. */
  datatype JobArgs = JobArgs(
    taskId: string,
    prompt: string,
    searchInternet: bool,
    emailTo: string,
    apiKey: string,
    smtp: map<string, Value>)

  /** A scheduled job: its tag, its repeat rule and the arguments of its action. */
  datatype Job = Job(tag: string, rule: Rule, args: JobArgs)

  // ---------------------------------------------------------------------
  // Specification of the job list

  /** The id a task is scheduled under: its own, or `task_<position>` (1-based). */
  function EffectiveId(t: Task, position: nat): string {
    match t.id
    case Some(id) => id
    case None => "task_" + NatToString(position)
  }

  /** The job `add_task` creates for a task whose interval parses. */
  function MakeJob(taskId: string, prompt: string, rule: Rule, searchInternet: bool,
                   emailTo: string, apiKey: string, smtp: map<string, Value>): Job
  {
    Job(taskId, rule, JobArgs(taskId, prompt, searchInternet, emailTo, apiKey, smtp))
  }

  /** The job scheduled for the task at `position`, with the per-task fallbacks applied. */
  function JobFor(t: Task, position: nat, apiKey: string, emailTo: string,
                  smtp: map<string, Value>): (j: Option<Job>)
    ensures j.Some? <==> ParseInterval(t.interval).Some?
    ensures j.Some? ==> j.value.tag == j.value.args.taskId == EffectiveId(t, position)
    ensures j.Some? ==> j.value.args.apiKey == (if t.apiKey.Some? then t.apiKey.value else apiKey)
    ensures j.Some? ==> j.value.args.emailTo == (if t.emailTo.Some? then t.emailTo.value else emailTo)
    ensures j.Some? ==> j.value.args.prompt == t.prompt && j.value.args.smtp == smtp
    ensures j.Some? ==> j.value.rule == ParseInterval(t.interval).value
    ensures j.Some? ==> j.value.args.searchInternet == t.searchInternet
  {
    match ParseInterval(t.interval)
    case None => None
    case Some(r) =>
      Some(MakeJob(EffectiveId(t, position), t.prompt, r, t.searchInternet,
                   t.emailTo.GetOr(emailTo), t.apiKey.GetOr(apiKey), smtp))
  }

  /** A task whose interval parses to `r` yields the job for `r`. */
  lemma JobForParsed(t: Task, position: nat, apiKey: string, emailTo: string, smtp: map<string, Value>, r: Rule)
    requires ParseInterval(t.interval) == Some(r)
    ensures JobFor(t, position, apiKey, emailTo, smtp) ==
      Some(MakeJob(EffectiveId(t, position), t.prompt, r, t.searchInternet,
                   t.emailTo.GetOr(emailTo), t.apiKey.GetOr(apiKey), smtp))
  {
  }

  /** What `add_task` yields for each task, in order: a job, or nothing when the interval does not parse. */
  function Candidates(tasks: seq<Task>, apiKey: string, emailTo: string,
                      smtp: map<string, Value>): (cs: seq<Option<Job>>)
    ensures |cs| == |tasks|
    ensures forall k :: 0 <= k < |tasks| ==> cs[k] == JobFor(tasks[k], k + 1, apiKey, emailTo, smtp)
  {
    seq(|tasks|, k requires 0 <= k < |tasks| => JobFor(tasks[k], k + 1, apiKey, emailTo, smtp))
  }

  /** The jobs among `cs`, in order. */
  function Collect(cs: seq<Option<Job>>): (jobs: seq<Job>)
    ensures |jobs| <= |cs|
  {
    if cs == [] then []
    else
      var last := cs[|cs| - 1];
      Collect(cs[..|cs| - 1]) + (if last.Some? then [last.value] else [])
  }

  /** The jobs that scheduling `tasks` in order produces: one per task whose interval parses. */
  function Scheduled(tasks: seq<Task>, apiKey: string, emailTo: string,
                     smtp: map<string, Value>): seq<Job>
  {
    Collect(Candidates(tasks, apiKey, emailTo, smtp))
  }

  /** `[j for j in jobs if tag not in j.tags]`. */
  function WithoutTag(jobs: seq<Job>, tag: string): (r: seq<Job>)
    ensures |r| <= |jobs|
    ensures forall i :: 0 <= i < |r| ==> r[i].tag != tag
  {
    if jobs == [] then []
    else if jobs[0].tag == tag then WithoutTag(jobs[1..], tag)
    else [jobs[0]] + WithoutTag(jobs[1..], tag)
  }

  // ---------------------------------------------------------------------
  // Properties of the specification

  /** Removal keeps exactly the jobs with another tag. */
  lemma {:induction false} WithoutTagMembers(jobs: seq<Job>, tag: string, j: Job)
    ensures j in WithoutTag(jobs, tag) <==> j in jobs && j.tag != tag
  {
    if jobs != [] {
      WithoutTagMembers(jobs[1..], tag, j);
      assert jobs == [jobs[0]] + jobs[1..];
    }
  }

  /** Removal works element by element, so the kept jobs keep their relative order. */
  lemma {:induction false} WithoutTagAppend(a: seq<Job>, b: seq<Job>, tag: string)
    ensures WithoutTag(a + b, tag) == WithoutTag(a, tag) + WithoutTag(b, tag)
  {
    if a == [] {
      assert a + b == b;
    } else {
      assert (a + b)[1..] == a[1..] + b;
      WithoutTagAppend(a[1..], b, tag);
    }
  }

  /** Removing an id no job carries changes nothing. */
  lemma {:induction false} WithoutAbsentTag(jobs: seq<Job>, tag: string)
    requires forall i :: 0 <= i < |jobs| ==> jobs[i].tag != tag
    ensures WithoutTag(jobs, tag) == jobs
  {
    if jobs != [] {
      WithoutAbsentTag(jobs[1..], tag);
      assert jobs == [jobs[0]] + jobs[1..];
    }
  }

  /** Removing twice is removing once. */
  lemma WithoutTagIdempotent(jobs: seq<Job>, tag: string)
    ensures WithoutTag(WithoutTag(jobs, tag), tag) == WithoutTag(jobs, tag)
  {
    WithoutAbsentTag(WithoutTag(jobs, tag), tag);
  }

  lemma CollectLast(cs: seq<Option<Job>>, c: Option<Job>)
    ensures Collect(cs + [c]) == Collect(cs) + (if c.Some? then [c.value] else [])
  {
    assert (cs + [c])[..|cs|] == cs;
  }

  /** A job is collected exactly when some candidate is that job. */
  lemma {:induction false} CollectMembers(cs: seq<Option<Job>>, j: Job)
    ensures j in Collect(cs) <==> exists k :: 0 <= k < |cs| && cs[k] == Some(j)
  {
    if cs != [] {
      var n := |cs| - 1;
      CollectMembers(cs[..n], j);
      if exists k :: 0 <= k < |cs| && cs[k] == Some(j) {
        var k :| 0 <= k < |cs| && cs[k] == Some(j);
        if k < n {
          assert cs[..n][k] == cs[k];
        }
      }
      if j in Collect(cs[..n]) {
        var k :| 0 <= k < n && cs[..n][k] == Some(j);
        assert cs[k] == Some(j);
      }
    }
  }

  /** Nothing is dropped exactly when every candidate is a job. */
  lemma {:induction false} CollectAll(cs: seq<Option<Job>>)
    ensures |Collect(cs)| == |cs| <==> forall k :: 0 <= k < |cs| ==> cs[k].Some?
  {
    if cs != [] {
      var n := |cs| - 1;
      CollectAll(cs[..n]);
      assert forall k :: 0 <= k < n ==> cs[..n][k] == cs[k];
    }
  }

  /** Scheduling one more task appends its job, if any. */
  lemma ScheduledStep(tasks: seq<Task>, i: nat, apiKey: string, emailTo: string, smtp: map<string, Value>)
    requires i < |tasks|
    ensures Scheduled(tasks[..i + 1], apiKey, emailTo, smtp) ==
      Scheduled(tasks[..i], apiKey, emailTo, smtp)
      + (var j := JobFor(tasks[i], i + 1, apiKey, emailTo, smtp); if j.Some? then [j.value] else [])
  {
    var c := JobFor(tasks[i], i + 1, apiKey, emailTo, smtp);
    assert Candidates(tasks[..i + 1], apiKey, emailTo, smtp) == Candidates(tasks[..i], apiKey, emailTo, smtp) + [c];
    CollectLast(Candidates(tasks[..i], apiKey, emailTo, smtp), c);
  }

  /** A job is scheduled exactly when some task, at its 1-based position, produced it. */
  lemma ScheduledMembers(tasks: seq<Task>, apiKey: string, emailTo: string, smtp: map<string, Value>, j: Job)
    ensures j in Scheduled(tasks, apiKey, emailTo, smtp) <==>
      exists k :: 0 <= k < |tasks| && JobFor(tasks[k], k + 1, apiKey, emailTo, smtp) == Some(j)
  {
    var cs := Candidates(tasks, apiKey, emailTo, smtp);
    CollectMembers(cs, j);
    assert forall k :: 0 <= k < |tasks| ==> cs[k] == JobFor(tasks[k], k + 1, apiKey, emailTo, smtp);
  }

  /** Every task is scheduled exactly when every interval parses. */
  lemma ScheduledAll(tasks: seq<Task>, apiKey: string, emailTo: string, smtp: map<string, Value>)
    ensures |Scheduled(tasks, apiKey, emailTo, smtp)| == |tasks| <==>
      forall k :: 0 <= k < |tasks| ==> ParseInterval(tasks[k].interval).Some?
  {
    var cs := Candidates(tasks, apiKey, emailTo, smtp);
    CollectAll(cs);
    assert forall k :: 0 <= k < |tasks| ==> (cs[k].Some? <==> ParseInterval(tasks[k].interval).Some?);
  }

  // ---------------------------------------------------------------------
  // The scheduler state: `_jobs` and whether the worker thread is alive

  class Scheduler {
    var jobs: seq<Job>
    var running: bool

    constructor ()
      ensures jobs == [] && !running
    {
      jobs := [];
      running := false;
    }

    /** `add_task`: schedules one job tagged `taskId` when the interval parses. */
    method AddTask(taskId: string, prompt: string, intervalText: string, searchInternet: bool,
                   emailTo: string, apiKey: string, smtp: map<string, Value>)
      returns (ok: bool)
      modifies this`jobs
      ensures ok <==> ParseInterval(intervalText).Some?
      ensures ok ==>
        jobs == old(jobs) + [MakeJob(taskId, prompt, ParseInterval(intervalText).value, searchInternet,
                                     emailTo, apiKey, smtp)]
      ensures !ok ==> jobs == old(jobs)
    {
      var parsed := ParseInterval(intervalText);
      if parsed.Some? {
        var job := MakeJob(taskId, prompt, parsed.value, searchInternet, emailTo, apiKey, smtp);
        jobs := jobs + [job];
        ok := true;
      } else {
        ok := false;
      }
    }

    /** `remove_task`: drops every job tagged `taskId`, keeping the others in order. */
    method RemoveTask(taskId: string)
      modifies this`jobs
      ensures jobs == WithoutTag(old(jobs), taskId)
    {
      jobs := WithoutTag(jobs, taskId);
    }

    /**
     * `start_scheduler_thread`: a no-op while running; otherwise the job
     * list is rebuilt from `tasks` and the worker is started, even when no
     * task could be scheduled.
     */
    method Start(tasks: seq<Task>, apiKey: string, emailTo: string, smtp: map<string, Value>)
      modifies this
      ensures old(running) ==> jobs == old(jobs)
      ensures !old(running) ==> jobs == Scheduled(tasks, apiKey, emailTo, smtp)
      ensures running
    {
      if running {
        return;
      }
      jobs := [];
      for i := 0 to |tasks|
        invariant !running
        invariant jobs == Scheduled(tasks[..i], apiKey, emailTo, smtp)
      {
        var t := tasks[i];
        var taskId := EffectiveId(t, i + 1);
        var apiKeyToUse := t.apiKey.GetOr(apiKey);
        var emailToUse := t.emailTo.GetOr(emailTo);
        var _ := AddTask(taskId, t.prompt, t.interval, t.searchInternet, emailToUse, apiKeyToUse, smtp);
        ScheduledStep(tasks, i, apiKey, emailTo, smtp);
      }
      assert tasks[..|tasks|] == tasks;
      running := true;
    }

    /** `stop_scheduler_thread`: when running, the worker is stopped and every job is dropped. */
    method Stop()
      modifies this
      ensures !running
      ensures jobs == if old(running) then [] else old(jobs)
    {
      if running {
        running := false;
        jobs := [];
      }
    }
  }

  // ---------------------------------------------------------------------
  // The job's action: `_placeholder_task_function`

  /** The simulated response; `clock` is the `HH:MM:SS` time of the run. */
  function SimulatedResponse(prompt: string, searchInternet: bool, clock: string): string {
    var response := "Simulated Gemini response for '" + prompt + "' obtained at " + clock + ".";
    if searchInternet then "(Simulated search done) " + response else response
  }

  /** Email is attempted only with a non-empty config whose "server" and "user" are truthy. */
  predicate EmailGate(smtp: map<string, Value>) {
    |smtp| > 0 && Truthy(Get(smtp, "server")) && Truthy(Get(smtp, "user"))
  }

  /** `prompt[:n]`. */
  function Take(s: string, n: nat): (r: string)
    ensures |r| == if |s| < n then |s| else n
    ensures r == s[..|r|]
  {
    if |s| <= n then s else s[..n]
  }

  function Subject(prompt: string): string {
    "Scheduled Gemini Response: " + Take(prompt, 30) + "..."
  }

  /** `s.replace('n', '<br>')`: every letter `n` (not newline) becomes `<br>`. */
  function ReplaceN(s: string): (r: string)
    ensures forall i :: 0 <= i < |r| ==> r[i] != 'n'
  {
    if s == [] then []
    else (if s[0] == 'n' then "<br>" else [s[0]]) + ReplaceN(s[1..])
  }

  function HtmlBody(prompt: string, response: string): string {
    "<html><body><h1>Gemini Task Result</h1><p><b>Prompt:</b> " + prompt
      + "</p><hr><p>" + ReplaceN(response) + "</p></body></html>"
  }

  function TextBody(prompt: string, response: string): string {
    "Gemini Task Result\nPrompt: " + prompt + "\n\nResponse:\n" + response
  }

  /** `int(value)` for a scalar: booleans count as 0/1, text must be one decimal token. */
  function PyInt(v: Value): (r: Option<int>)
    ensures v.Int? ==> r == Some(v.i)
    ensures v.Null? ==> r == None
  {
    match v
    case Null => None
    case Bool(b) => Some(if b then 1 else 0)
    case Int(i) => Some(i)
    case Str(s) =>
      var ws := Words(s);
      if |ws| == 1 then ParseInt(ws[0]) else None
  }

  /** How the email step of one run ended. */
  datatype EmailOutcome =
    | EmailSkipped                         // the gate failed
    | EmailKeyMissing(key: string)         // KeyError while reading the config
    | EmailError                           // another exception while building the sender
    | EmailHandedOver(sent: bool, message: Option<Message>, commands: seq<SmtpCommand>)

  /**
   * `_placeholder_task_function`: the simulated response and the outcome of
   * the email step. `clock` stands for the time of the run and `failure`
   * for the SMTP command that raises, if any.
   */
  method RunTask(args: JobArgs, clock: string, failure: Option<SmtpCommand>)
    returns (response: string, outcome: EmailOutcome)
    ensures response == SimulatedResponse(args.prompt, args.searchInternet, clock)
    // the message reaches the sender exactly when the config is complete and the port readable
    ensures outcome.EmailHandedOver? <==>
      EmailGate(args.smtp) && "port" in args.smtp && PyInt(args.smtp["port"]).Some?
      && "password" in args.smtp
    ensures outcome == EmailSkipped <==> !EmailGate(args.smtp)
    ensures outcome == EmailKeyMissing("port") <==> EmailGate(args.smtp) && "port" !in args.smtp
    ensures outcome == EmailError <==>
      EmailGate(args.smtp) && "port" in args.smtp && PyInt(args.smtp["port"]).None?
    ensures outcome == EmailKeyMissing("password") <==>
      EmailGate(args.smtp) && "port" in args.smtp && PyInt(args.smtp["port"]).Some?
      && "password" !in args.smtp
    // a message is built when the password is truthy and the port is not zero
    ensures outcome.EmailHandedOver? ==>
      (outcome.message.Some? <==> Truthy(args.smtp["password"]) && PyInt(args.smtp["port"]) != Some(0))
    ensures outcome.EmailHandedOver? && outcome.message.Some? ==>
      && outcome.message.value.headers ==
           [Header("Subject", Str(Subject(args.prompt))), Header("From", args.smtp["user"]),
            Header("To", Str(args.emailTo))]
      && outcome.message.value.parts ==
           [Part("plain", TextBody(args.prompt, response)), Part("html", HtmlBody(args.prompt, response))]
    // it goes out unless one of the session's commands fails
    ensures outcome.EmailHandedOver? ==>
      (outcome.sent <==>
         outcome.message.Some? &&
         (failure.None? || failure.value !in Session(Truthy(GetOr(args.smtp, "use_tls", Bool(true))))))
  {
    response := SimulatedResponse(args.prompt, args.searchInternet, clock);
    var smtp := args.smtp;
    if !EmailGate(smtp) {
      return response, EmailSkipped;
    }
    if "port" !in smtp {
      return response, EmailKeyMissing("port");
    }
    var port := PyInt(smtp["port"]);
    if port.None? {
      return response, EmailError;
    }
    if "password" !in smtp {
      return response, EmailKeyMissing("password");
    }
    outcome := HandOver(args, response, port.value, failure);
  }

  /**
   * The sender built from the config, with the port read as `port`, and
   * the message for `response` handed to it.
   */
  method HandOver(args: JobArgs, response: string, port: int, failure: Option<SmtpCommand>)
    returns (outcome: EmailOutcome)
    requires EmailGate(args.smtp) && "port" in args.smtp && "password" in args.smtp
    ensures outcome.EmailHandedOver?
    ensures outcome.message.Some? <==> Truthy(args.smtp["password"]) && port != 0
    ensures outcome.message.Some? ==>
      && outcome.message.value.headers ==
           [Header("Subject", Str(Subject(args.prompt))), Header("From", args.smtp["user"]),
            Header("To", Str(args.emailTo))]
      && outcome.message.value.parts ==
           [Part("plain", TextBody(args.prompt, response)), Part("html", HtmlBody(args.prompt, response))]
    ensures outcome.sent <==>
      outcome.message.Some? &&
      (failure.None? || failure.value !in Session(Truthy(GetOr(args.smtp, "use_tls", Bool(true)))))
  {
    var smtp := args.smtp;
    EmailGateKeys(smtp);
    var sender := new EmailSender(smtp["server"], Int(port), smtp["user"], smtp["password"],
                                  GetOr(smtp, "use_tls", Bool(true)));
    var subject := Subject(args.prompt);
    var bodyHtml := HtmlBody(args.prompt, response);
    var bodyText := TextBody(args.prompt, response);
    var sent, message, commands := sender.SendEmail(args.emailTo, subject, bodyHtml, bodyText, failure);
    outcome := EmailHandedOver(sent, message, commands);
  }

  // ---------------------------------------------------------------------
  // Properties of the email step

  /** The gate reads exactly the truthiness of "server" and "user". */
  lemma EmailGateKeys(smtp: map<string, Value>)
    ensures EmailGate(smtp) <==>
      "server" in smtp && Truthy(smtp["server"]) && "user" in smtp && Truthy(smtp["user"])
  {
    if "server" in smtp {
      assert |smtp| > 0 by {
        assert "server" in smtp.Keys;
      }
    }
  }

  /** A subject quotes at most the first 30 characters of the prompt, between a fixed prefix and "...". */
  lemma SubjectShape(prompt: string)
    ensures |Subject(prompt)| <= 60
    ensures |prompt| <= 30 ==> Subject(prompt) == "Scheduled Gemini Response: " + prompt + "..."
    ensures |prompt| > 30 ==> Subject(prompt) == "Scheduled Gemini Response: " + prompt[..30] + "..."
  {
  }

  /** Text without the letter `n` goes into the HTML body unchanged. */
  lemma {:induction false} ReplaceNWithoutLetter(s: string)
    requires forall i :: 0 <= i < |s| ==> s[i] != 'n'
    ensures ReplaceN(s) == s
  {
    if s != [] {
      ReplaceNWithoutLetter(s[1..]);
    }
  }

  /** The replacement works piece by piece. */
  lemma {:induction false} ReplaceNAppend(a: string, b: string)
    ensures ReplaceN(a + b) == ReplaceN(a) + ReplaceN(b)
  {
    if a == [] {
      assert a + b == b;
    } else {
      assert (a + b)[0] == a[0] && (a + b)[1..] == a[1..] + b;
      ReplaceNAppend(a[1..], b);
      var head := if a[0] == 'n' then "<br>" else [a[0]];
      assert ReplaceN(a + b) == head + ReplaceN(a[1..] + b);
      assert ReplaceN(a) == head + ReplaceN(a[1..]);
    }
  }

  /** Every letter `n` grows into the four characters of `<br>`. */
  lemma {:induction false} ReplaceNLength(s: string)
    ensures |ReplaceN(s)| == |s| + 3 * multiset(s)['n']
  {
    if s != [] {
      ReplaceNLength(s[1..]);
      assert s == [s[0]] + s[1..];
      assert multiset(s) == multiset([s[0]]) + multiset(s[1..]);
    }
  }

  /** Every letter `n` becomes `<br>` in place, and the text around it is converted on its own. */
  lemma ReplaceNAt(a: string, b: string)
    ensures ReplaceN("n") == "<br>"
    ensures ReplaceN(a + "n" + b) == ReplaceN(a) + "<br>" + ReplaceN(b)
  {
    assert ReplaceN("n") == "<br>" + ReplaceN([]);
    ReplaceNAppend(a, "n");
    ReplaceNAppend(a + "n", b);
  }

  /** Any other character is copied unchanged. */
  lemma ReplaceNKeeps(a: string, c: char, b: string)
    requires c != 'n'
    ensures ReplaceN(a + [c] + b) == ReplaceN(a) + [c] + ReplaceN(b)
  {
    assert ReplaceN([c]) == [c] + ReplaceN([]);
    ReplaceNAppend(a, [c]);
    ReplaceNAppend(a + [c], b);
  }

  /** A port stored as the text of an integer reads back as that integer. */
  lemma PyIntOfText(i: int)
    ensures PyInt(Str(IntToString(i))) == Some(i)
  {
    PyIntOfPaddedText("", i, "");
    assert "" + IntToString(i) + "" == IntToString(i);
  }

  /** `int()` ignores separators around the number, as in " 587\n". */
  lemma PyIntOfPaddedText(pre: string, i: int, post: string)
    requires forall k :: 0 <= k < |pre| ==> IsSpace(pre[k])
    requires forall k :: 0 <= k < |post| ==> IsSpace(post[k])
    ensures PyInt(Str(pre + IntToString(i) + post)) == Some(i)
  {
    IntToStringIsWord(i);
    WordsOfPadded(pre, IntToString(i), post);
    ParseIntOfIntToString(i);
  }

  /** The HTML body quotes the prompt and the converted response; the text body quotes both unchanged. */
  lemma BodiesQuote(prompt: string, response: string)
    ensures Contains(HtmlBody(prompt, response), ReplaceN(response))
    ensures Contains(TextBody(prompt, response), prompt)
    ensures Contains(TextBody(prompt, response), response)
  {
    var pre := "<html><body><h1>Gemini Task Result</h1><p><b>Prompt:</b> " + prompt + "</p><hr><p>";
    assert HtmlBody(prompt, response) == pre + ReplaceN(response) + "</p></body></html>";
    ContainsInLonger(pre, ReplaceN(response), "</p></body></html>");
    var head := "Gemini Task Result\nPrompt: ";
    var mid := "\n\nResponse:\n";
    assert TextBody(prompt, response) == head + prompt + (mid + response);
    ContainsInLonger(head, prompt, mid + response);
    assert TextBody(prompt, response) == (head + prompt + mid) + response + "";
    ContainsInLonger(head + prompt + mid, response, "");
  }
}
