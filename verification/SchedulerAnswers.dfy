/** What the scheduler does with calls, timers and answers: what is stored, and when. */
module SchedulerAnswers {
  import opened Scheduler
  import opened SchedulerTheorems
  import opened SuggestionService
  import opened SuggestionText
  import opened Text
  import opened Wrappers

  // ---------------------------------------------------------------- schedules that go on

  lemma ExecOneMore(cfg: Config, schedule: seq<Label>, l: Label)
    requires Exec(cfg, schedule).Some?
    ensures Exec(cfg, schedule + [l]) == Next(cfg, Exec(cfg, schedule).value, l)
  {
    assert (schedule + [l])[..|schedule|] == schedule;
  }

  /** None of the labels is a step of goroutine j. */
  predicate Skips(labels: seq<Label>, j: nat) {
    forall i | 0 <= i < |labels| :: labels[i].Run? ==> labels[i].job != j
  }

  /** The steps of others leave a goroutine where it is. */
  lemma {:induction false} JobStays(cfg: Config, before: seq<Label>, between: seq<Label>, j: nat)
    requires Skips(between, j) && Exec(cfg, before + between).Some?
    requires Exec(cfg, before).Some? && j < |Exec(cfg, before).value.jobs|
    ensures var m := Exec(cfg, before + between).value; j < |m.jobs| && m.jobs[j] == Exec(cfg, before).value.jobs[j]
    decreases |between|
  {
    if between == [] {
      assert before + between == before;
    } else {
      var n := |between| - 1;
      assert (before + between)[..|before| + n] == before + between[..n];
      JobStays(cfg, before, between[..n], j);
    }
  }

  // ---------------------------------------------------------------- answers

  /** Goroutine j receives an answer after `before`, and others run until `between` is over. */
  ghost predicate Answering(cfg: Config, before: seq<Label>, j: nat, input: Input, between: seq<Label>) {
    && Exec(cfg, before).Some? && j < |Exec(cfg, before).value.jobs| && Skips(between, j)
    && Exec(cfg, before + [Run(j, input)] + between).Some?
  }

  lemma AnswerWaits(cfg: Config, before: seq<Label>, j: nat, input: Input, between: seq<Label>)
    requires Answering(cfg, before, j, input, between) && !input.Lock?
    ensures var s, m := Exec(cfg, before).value, Exec(cfg, before + [Run(j, input)] + between).value;
            && j < |m.jobs| && Answered(cfg, s.jobs[j].phase, input, s.now).Some?
            && m.jobs[j] == s.jobs[j].(phase := Answered(cfg, s.jobs[j].phase, input, s.now).value)
  {
    var asked := before + [Run(j, input)];
    assert asked[..|before|] == before;
    if Exec(cfg, asked).None? {
      StaysStuck(cfg, asked, between);
    }
    JobStays(cfg, asked, between, j);
  }

  lemma {:induction false} StaysStuck(cfg: Config, before: seq<Label>, labels: seq<Label>)
    requires Exec(cfg, before).None?
    ensures Exec(cfg, before + labels).None?
    decreases |labels|
  {
    if labels == [] {
      assert before + labels == before;
    } else {
      var n := |labels| - 1;
      assert (before + labels)[..|before| + n] == before + labels[..n];
      StaysStuck(cfg, before, labels[..n]);
    }
  }

  /** The suggestion in a good reply that is parsed at this time. */
  function Dated(cfg: Config, decode: Decoder, reply: string, at: nat): Suggestion
    requires Parsed(reply, decode).Success?
  {
    Parsed(reply, decode).value.(generatedAt := cfg.format(at))
  }

  /** The service after a suggestion was published. */
  function Published(s: State, suggestion: Suggestion): State {
    s.(latest := Some(suggestion), lastError := "", lastErrorAt := None)
  }

  /** A good reply takes the goroutine that waits for it to its last critical section, which publishes or does not. */
  lemma GoodReplySteps(cfg: Config, decode: Decoder, s: System, j: nat, text: string, at: nat)
    requires ParsesWith(cfg, decode) && Parsed(text, decode).Success? && j < |s.jobs|
    ensures var committing := Committing(text, at, Dated(cfg, decode, text, at));
            && (s.jobs[j].phase == Requesting && s.now == at ==>
                  Next(cfg, s, Run(j, Reply(text))) == Some(SetPhase(s, j, committing)))
            && (s.jobs[j].phase == committing ==>
                  && Next(cfg, s, Run(j, Lock)) == Some(CommitStep(s, j))
                  && CommitStep(s, j).jobs == s.jobs[j := s.jobs[j].(phase := Completing)]
                  && CommitStep(s, j).service ==
                     if s.service.Newest(s.jobs[j].session) == s.jobs[j].number
                     then Published(s.service, Dated(cfg, decode, text, at)) else s.service)
  {
    assert cfg.parse(text) == Parsed(text, decode);
  }

  /** A good reply is published, with the time of its parsing, if and only if the job's number is still the newest
      when the goroutine enters its last critical section; otherwise nothing that Latest or Status finds changes. */
  lemma GoodReplyPublishes(cfg: Config, decode: Decoder, before: seq<Label>, j: nat, text: string, between: seq<Label>)
    requires ParsesWith(cfg, decode) && Parsed(text, decode).Success?
    requires Answering(cfg, before, j, Reply(text), between)
    ensures var s, schedule := Exec(cfg, before).value, before + [Run(j, Reply(text))] + between;
            var m, last := Exec(cfg, schedule).value, Exec(cfg, schedule + [Run(j, Lock)]);
            && last.Some?
            && var service := last.value.service;
               if m.service.Newest(s.jobs[j].session) == s.jobs[j].number then
                 service == Published(m.service, Dated(cfg, decode, text, s.now))
               else service == m.service
  {
    AnswerWaits(cfg, before, j, Reply(text), between);
    var s, schedule := Exec(cfg, before).value, before + [Run(j, Reply(text))] + between;
    var m := Exec(cfg, schedule).value;
    assert m.jobs[j] == s.jobs[j].(phase := Committing(text, s.now, Dated(cfg, decode, text, s.now))) by {
      assert cfg.parse(text) == Parsed(text, decode);
    }
    GoodReplySteps(cfg, decode, m, j, text, s.now);
    ExecOneMore(cfg, schedule, Run(j, Lock));
  }

  /** What setLastError stores. */
  predicate Reports(service: State, was: State, message: string, now: nat) {
    if Trim(message) == "" then service == was
    else service == was.(lastError := Trim(message), lastErrorAt := Some(now))
  }

  /** A reply that does not pass the checks is reported with the complaint, and leaves the suggestion alone. */
  lemma BadReplyReports(cfg: Config, decode: Decoder, before: seq<Label>, j: nat, text: string, between: seq<Label>)
    requires ParsesWith(cfg, decode) && Parsed(text, decode).Failure?
    requires Answering(cfg, before, j, Reply(text), between)
    ensures var schedule := before + [Run(j, Reply(text))] + between;
            var m, last := Exec(cfg, schedule).value, Exec(cfg, schedule + [Run(j, Lock)]);
            && last.Some?
            && Reports(last.value.service, m.service,
                       "invalid suggestion json: " + cfg.describe(Parsed(text, decode).error), m.now)
  {
    AnswerWaits(cfg, before, j, Reply(text), between);
    ExecOneMore(cfg, before + [Run(j, Reply(text))] + between, Run(j, Lock));
    assert cfg.parse(text) == Parsed(text, decode);
  }

  /** A request that fails is reported with its error. */
  lemma FailedRequestReports(cfg: Config, before: seq<Label>, j: nat, error: string, between: seq<Label>)
    requires Answering(cfg, before, j, ReplyFailed(error), between)
    ensures var schedule := before + [Run(j, ReplyFailed(error))] + between;
            var m, last := Exec(cfg, schedule).value, Exec(cfg, schedule + [Run(j, Lock)]);
            last.Some? && Reports(last.value.service, m.service, error, m.now)
  {
    AnswerWaits(cfg, before, j, ReplyFailed(error), between);
    ExecOneMore(cfg, before + [Run(j, ReplyFailed(error))] + between, Run(j, Lock));
  }

  /** A prompt that cannot be built is reported, and the job ends without a request. */
  lemma FailedPromptReports(cfg: Config, before: seq<Label>, j: nat, error: string, between: seq<Label>)
    requires Answering(cfg, before, j, BuildFailed(error), between)
    ensures var schedule := before + [Run(j, BuildFailed(error))] + between;
            var m, last := Exec(cfg, schedule).value, Exec(cfg, schedule + [Run(j, Lock)]);
            && last.Some? && last.value.jobs[j].phase == Ended
            && Reports(last.value.service, m.service, "build suggestion prompt failed: " + error, m.now)
  {
    AnswerWaits(cfg, before, j, BuildFailed(error), between);
    ExecOneMore(cfg, before + [Run(j, BuildFailed(error))] + between, Run(j, Lock));
  }

  // ---------------------------------------------------------------- calls and timers

  /** The session has the next number, and one armed timer, with this due time, in place of any armed before. */
  predicate Arms(was: State, now: State, session: string, due: nat) {
    && now.Newest(session) == was.Newest(session) + 1
    && |now.timers| == |was.timers| + 1
    && now.timers[|was.timers|] == Timer(session, was.Newest(session) + 1, due, Armed)
    && (forall i | 0 <= i < |was.timers| && was.timers[i].session == session :: now.timers[i].status != Armed)
    && (forall i | 0 <= i < |was.timers| && was.timers[i].session != session :: now.timers[i] == was.timers[i])
  }

  /** What concerns other sessions, and what the jobs have produced, is untouched. */
  ghost predicate Apart(was: State, now: State, session: string) {
    && now.latest == was.latest && now.lastError == was.lastError && now.lastErrorAt == was.lastErrorAt
    && now.active == was.active && now.inFlight == was.inFlight
    && forall other | other != session ::
         now.Newest(other) == was.Newest(other) && now.Recent(other) == was.Recent(other)
  }

  lemma IngestedArms(s: State, debounce: nat, max: int, session: string, text: string, now: nat)
    requires TimersOK(s) && Trim(text) != ""
    ensures Arms(s, Ingested(s, debounce, max, session, text, now), session, now + debounce)
  {
    var s' := Ingested(s, debounce, max, session, text, now);
    IngestedFrame(s, debounce, max, session, text, now);
    if session in s.timerOf {
      StopTimerFrame(s.timers, s.timerOf[session]);
    }
  }

  lemma IngestedApart(s: State, debounce: nat, max: int, session: string, text: string, now: nat)
    ensures Apart(s, Ingested(s, debounce, max, session, text, now), session)
  {
  }

  /** Text that is not blank gives the session the next number and one armed timer, due after the debounce time, in
      place of any armed before; blank text changes nothing. */
  lemma CallArms(cfg: Config, schedule: seq<Label>, session: string, text: string)
    requires Exec(cfg, schedule).Some?
    ensures Exec(cfg, schedule + [Call(session, text)]).Some?
    ensures var s, s' := Exec(cfg, schedule).value, Exec(cfg, schedule + [Call(session, text)]).value;
            && s'.jobs == s.jobs && s'.now == s.now && Apart(s.service, s'.service, session)
            && (if Trim(text) == "" then s'.service == s.service
                else Arms(s.service, s'.service, session, s.now + cfg.debounce))
  {
    ExecTimers(cfg, schedule);
    ExecOneMore(cfg, schedule, Call(session, text));
    CallStep(cfg, Exec(cfg, schedule).value, session, text);
  }

  lemma ExecTimers(cfg: Config, schedule: seq<Label>)
    requires Exec(cfg, schedule).Some?
    ensures TimersOK(Exec(cfg, schedule).value.service)
  {
    ExecInv(cfg, schedule);
  }

  lemma CallStep(cfg: Config, s: System, session: string, text: string)
    requires TimersOK(s.service)
    ensures var s' := Next(cfg, s, Call(session, text)).value;
            && s'.jobs == s.jobs && s'.now == s.now && Apart(s.service, s'.service, session)
            && (if Trim(text) == "" then s'.service == s.service
                else Arms(s.service, s'.service, session, s.now + cfg.debounce))
  {
    IngestedApart(s.service, cfg.debounce, cfg.recentMax, session, text, s.now);
    if Trim(text) != "" {
      IngestedArms(s.service, cfg.debounce, cfg.recentMax, session, text, s.now);
    }
  }

  /** A timer that is armed and due can fire, and then a goroutine has started its job. */
  lemma DueTimerStarts(cfg: Config, schedule: seq<Label>, i: nat)
    requires Exec(cfg, schedule).Some?
    ensures var s, next := Exec(cfg, schedule).value, Exec(cfg, schedule + [Expire(i)]);
            && (next.Some? <==> i < |s.service.timers| && s.service.timers[i].status == Armed
                                && s.service.timers[i].due <= s.now)
            && (next.Some? ==>
                  var timer, now := s.service.timers[i], next.value.service;
                  && next.value.jobs == s.jobs + [Job(i, timer.session, timer.number, Building)]
                  && now == s.service.(timers := s.service.timers[i := timer.(status := Fired)])
                  && next.value.now == s.now)
  {
    ExecOneMore(cfg, schedule, Expire(i));
  }

  /** From a prompt to the end of the job, if nobody interrupts. */
  function Course(j: nat, text: string): seq<Label> {
    [Run(j, Built), Run(j, Lock), Run(j, Reply(text)), Run(j, Lock), Run(j, Lock)]
  }

  /** Completion undoes the mark. */
  lemma MarkedAndCompleted(active: Active, session: string, number: nat, cancel: CancelId)
    requires NoneEmpty(active) && !IsActive(active, session, number)
    ensures Without(With(active, session, number, cancel), session, number) == active
  {
    var inner: map<nat, CancelId> := if session in active then active[session] else map[];
    assert inner[number := cancel] - {number} == inner;
  }

  /** The first half of the course: the prompt and the mark. */
  lemma PromptRuns(cfg: Config, started: seq<Label>, j: nat)
    requires Exec(cfg, started).Some? && j < |Exec(cfg, started).value.jobs|
    requires Exec(cfg, started).value.jobs[j].phase == Building
    ensures var s, last := Exec(cfg, started).value, Exec(cfg, started + [Run(j, Built)] + [Run(j, Lock)]);
            && last.Some? && last.value.now == s.now && last.value.jobs == s.jobs[j := s.jobs[j].(phase := Requesting)]
            && last.value.service == Marked(s.service, s.jobs[j].session, s.jobs[j].number, j)
  {
    ExecOneMore(cfg, started, Run(j, Built));
    ExecOneMore(cfg, started + [Run(j, Built)], Run(j, Lock));
  }

  /** The second half of the course: the reply and the publication. */
  lemma ReplyRuns(cfg: Config, decode: Decoder, asked: seq<Label>, j: nat, text: string)
    requires ParsesWith(cfg, decode) && Parsed(text, decode).Success?
    requires Exec(cfg, asked).Some? && j < |Exec(cfg, asked).value.jobs|
    requires var s := Exec(cfg, asked).value;
             s.jobs[j].phase == Requesting && s.service.Newest(s.jobs[j].session) == s.jobs[j].number
    ensures var s, last := Exec(cfg, asked).value, Exec(cfg, asked + [Run(j, Reply(text))] + [Run(j, Lock)]);
            && last.Some? && last.value.jobs == s.jobs[j := s.jobs[j].(phase := Completing)]
            && last.value.service == Published(s.service, Dated(cfg, decode, text, s.now))
  {
    var s := Exec(cfg, asked).value;
    GoodReplySteps(cfg, decode, s, j, text, s.now);
    ExecOneMore(cfg, asked, Run(j, Reply(text)));
    GoodReplySteps(cfg, decode, Exec(cfg, asked + [Run(j, Reply(text))]).value, j, text, s.now);
    ExecOneMore(cfg, asked + [Run(j, Reply(text))], Run(j, Lock));
  }

  lemma CompletionRuns(cfg: Config, schedule: seq<Label>, j: nat)
    requires Exec(cfg, schedule).Some? && j < |Exec(cfg, schedule).value.jobs|
    requires Exec(cfg, schedule).value.jobs[j].phase == Completing
    ensures var s, last := Exec(cfg, schedule).value, Exec(cfg, schedule + [Run(j, Lock)]);
            && last.Some? && last.value.jobs == s.jobs[j := s.jobs[j].(phase := Ended)]
            && last.value.service == Completed(s.service, s.jobs[j].session, s.jobs[j].number)
  {
    ExecOneMore(cfg, schedule, Run(j, Lock));
  }

  /** A job that has just started with the newest number runs its course. */
  lemma CourseRuns(cfg: Config, decode: Decoder, started: seq<Label>, j: nat, reply: string)
    requires ParsesWith(cfg, decode) && Parsed(reply, decode).Success?
    requires Exec(cfg, started).Some? && j < |Exec(cfg, started).value.jobs|
    requires var s := Exec(cfg, started).value;
             s.jobs[j].phase == Building && s.service.Newest(s.jobs[j].session) == s.jobs[j].number
    ensures var s, last := Exec(cfg, started).value, Exec(cfg, started + Course(j, reply));
            && last.Some? && last.value.jobs == s.jobs[j := s.jobs[j].(phase := Ended)]
            && last.value.service == Published(s.service, Dated(cfg, decode, reply, s.now))
  {
    NotYetActive(cfg, started, j);
    PromptRuns(cfg, started, j);
    var asked := started + [Run(j, Built)] + [Run(j, Lock)];
    ReplyRuns(cfg, decode, asked, j, reply);
    CompletionRuns(cfg, asked + [Run(j, Reply(reply))] + [Run(j, Lock)], j);
    var s := Exec(cfg, started).value;
    MarkedAndCompleted(s.service.active, s.jobs[j].session, s.jobs[j].number, j);
    assert started + Course(j, reply) == started + [Run(j, Built)] + [Run(j, Lock)] + [Run(j, Reply(reply))]
                                         + [Run(j, Lock)] + [Run(j, Lock)];
  }

  lemma NotYetActive(cfg: Config, started: seq<Label>, j: nat)
    requires Exec(cfg, started).Some? && j < |Exec(cfg, started).value.jobs|
    requires Exec(cfg, started).value.jobs[j].phase == Building
    ensures var s := Exec(cfg, started).value;
            && !IsActive(s.service.active, s.jobs[j].session, s.jobs[j].number)
            && NoneEmpty(s.service.active) && s.service.inFlight >= 0
  {
    ExecInv(cfg, started);
    NumbersRunOnce(Exec(cfg, started).value);
  }

  /** Text comes, and the debounce time passes without any more: its timer fires. */
  function Quiet(cfg: Config, s: System, session: string, text: string): seq<Label> {
    [Call(session, text), Wait(cfg.debounce), Expire(|s.service.timers|)]
  }

  lemma QuietStarts(cfg: Config, schedule: seq<Label>, session: string, text: string)
    requires Exec(cfg, schedule).Some? && Trim(text) != ""
    ensures var s := Exec(cfg, schedule).value;
            var started := Exec(cfg, schedule + Quiet(cfg, s, session, text));
            && started.Some? && started.value.now == s.now + cfg.debounce
            && started.value.jobs
               == s.jobs + [Job(|s.service.timers|, session, s.service.Newest(session) + 1, Building)]
            && started.value.service.Newest(session) == s.service.Newest(session) + 1
            && Apart(s.service, started.value.service, session)
  {
    var s := Exec(cfg, schedule).value;
    CallArms(cfg, schedule, session, text);
    var called := schedule + [Call(session, text)];
    ExecOneMore(cfg, called, Wait(cfg.debounce));
    var waited := called + [Wait(cfg.debounce)];
    DueTimerStarts(cfg, waited, |s.service.timers|);
    assert schedule + Quiet(cfg, s, session, text) == waited + [Expire(|s.service.timers|)];
  }

  /** One more job has ended, what it found is what Latest finds, and no job in flight has come or gone. */
  predicate Answers(s: System, last: System, suggestion: Suggestion) {
    && last.service.latest == Some(suggestion) && last.service.lastError == "" && last.service.lastErrorAt == None
    && last.service.active == s.service.active && last.service.inFlight == s.service.inFlight
    && |last.jobs| == |s.jobs| + 1 && last.jobs[..|s.jobs|] == s.jobs && last.jobs[|s.jobs|].phase == Ended
  }

  lemma CourseAnswers(s: System, m: System, last: System, session: string, p: Suggestion)
    requires |m.jobs| == |s.jobs| + 1 && m.jobs[..|s.jobs|] == s.jobs && Apart(s.service, m.service, session)
    requires last.jobs == m.jobs[|s.jobs| := m.jobs[|s.jobs|].(phase := Ended)]
    requires last.service == Published(m.service, p)
    ensures Answers(s, last, p)
  {
  }

  /** Whatever happened before: text that no other text follows in time is answered. Its timer starts a job whose good
      reply is what Latest finds, and which leaves no trace among the jobs in flight. */
  lemma QuietCallPublishes(cfg: Config, decode: Decoder, schedule: seq<Label>, session: string, text: string,
                           reply: string)
    requires Exec(cfg, schedule).Some? && Trim(text) != ""
    requires ParsesWith(cfg, decode) && Parsed(reply, decode).Success?
    ensures var s := Exec(cfg, schedule).value;
            var last := Exec(cfg, schedule + Quiet(cfg, s, session, text) + Course(|s.jobs|, reply));
            last.Some? && Answers(s, last.value, Dated(cfg, decode, reply, s.now + cfg.debounce))
  {
    var s := Exec(cfg, schedule).value;
    QuietStarts(cfg, schedule, session, text);
    var quiet := schedule + Quiet(cfg, s, session, text);
    var m := Exec(cfg, quiet).value;
    CourseRuns(cfg, decode, quiet, |s.jobs|, reply);
    assert m.now == s.now + cfg.debounce;
    var last := Exec(cfg, quiet + Course(|s.jobs|, reply)).value;
    CourseAnswers(s, m, last, session, Dated(cfg, decode, reply, m.now));
    assert Answers(s, last, Dated(cfg, decode, reply, m.now));
  }
}
