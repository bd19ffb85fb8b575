/**
  * The suggestion scheduler as a step system: calls of IngestTerminal, timers that fire when due or
  * later, and one goroutine for each fired timer that runs runJob. Each step is one critical section
  * of the service mutex, or the answer of a call to the outside.
  */
module Scheduler {
  import opened SuggestionService
  import opened SuggestionText
  import opened RecentLines
  import opened Text
  import opened Wrappers

  /** debounce and recentMax are positive once NewService returned; describe words an error of parse, format a time. */
  datatype Config = Config(
    debounce: nat,
    recentMax: int,
    parse: string -> Result<Suggestion, ParseError>,
    describe: ParseError -> string,
    format: nat -> string)

  /** Where a goroutine in runJob stands. */
  datatype Phase =
    | Building
    | Marking
    | Requesting
    | Failing(message: string, inFlight: bool)
    | Committing(reply: string, at: nat, parsed: Suggestion)
    | Completing
    | Ended

  /** One run of runJob, started by a timer. */
  datatype Job = Job(timer: nat, session: string, number: nat, phase: Phase)

  /** Between markInFlight and markCompleted. */
  predicate InFlight(p: Phase) {
    p.Requesting? || p.Committing? || p.Completing? || (p.Failing? && p.inFlight)
  }

  datatype Ingest = Ingest(session: string, text: string)
  datatype Firing = Firing(session: string, at: nat)
  datatype Commit = Commit(job: nat, session: string, number: nat, reply: string, at: nat)

  /** The service, the goroutines, the time, and what happened so far. */
  datatype System = System(
    service: State,
    jobs: seq<Job>,
    now: nat,
    ingests: seq<Ingest>,
    firings: seq<Firing>,
    commits: seq<Commit>)

  const INIT := System(EMPTY, [], 0, [], [], [])

  /** What a call to the outside answers, or nothing for a critical section. */
  datatype Input = Lock | Built | BuildFailed(error: string) | Reply(text: string) | ReplyFailed(error: string)

  datatype Label =
    | Call(session: string, text: string)
    | Wait(span: nat)
    | Expire(timer: nat)
    | Run(job: nat, input: Input)

  function SetPhase(s: System, j: nat, phase: Phase): System
    requires j < |s.jobs|
  {
    s.(jobs := s.jobs[j := s.jobs[j].(phase := phase)])
  }

  /** The last critical section of runJob. */
  function CommitStep(s: System, j: nat): System
    requires j < |s.jobs| && s.jobs[j].phase.Committing?
  {
    var job := s.jobs[j];
    var service := Committed(s.service, job.session, job.number, job.phase.parsed);
    var commits := if s.service.Newest(job.session) != job.number then s.commits
                   else s.commits + [Commit(j, job.session, job.number, job.phase.reply, job.phase.at)];
    SetPhase(s, j, Completing).(service := service, commits := commits)
  }

  function MarkStep(s: System, j: nat): System
    requires j < |s.jobs|
  {
    SetPhase(s, j, Requesting).(service := Marked(s.service, s.jobs[j].session, s.jobs[j].number, j))
  }

  function FailStep(s: System, j: nat): System
    requires j < |s.jobs| && s.jobs[j].phase.Failing?
  {
    SetPhase(s, j, if s.jobs[j].phase.inFlight then Completing else Ended)
      .(service := Errored(s.service, s.jobs[j].phase.message, s.now))
  }

  function CompleteStep(s: System, j: nat): System
    requires j < |s.jobs|
  {
    SetPhase(s, j, Ended).(service := Completed(s.service, s.jobs[j].session, s.jobs[j].number))
  }

  /** Only the goroutine's own phase changes among the jobs, and nothing that IngestTerminal writes changes. */
  predicate JobFrame(s: System, s': System, j: nat)
    requires j < |s.jobs|
  {
    && s'.service.timers == s.service.timers && s'.service.timerOf == s.service.timerOf
    && s'.service.jobSeq == s.service.jobSeq && s'.service.recent == s.service.recent
    && s'.now == s.now && s'.ingests == s.ingests && s'.firings == s.firings
    && |s'.jobs| == |s.jobs| && s'.jobs == s.jobs[j := s.jobs[j].(phase := s'.jobs[j].phase)]
  }

  /** The critical section that the goroutine enters next. */
  function LockStep(s: System, j: nat): (r: Option<System>)
    requires j < |s.jobs|
    ensures r.Some? ==> JobFrame(s, r.value, j)
  {
    match s.jobs[j].phase
    case Marking => Some(MarkStep(s, j))
    case Failing(_, _) => Some(FailStep(s, j))
    case Committing(_, _, _) => Some(CommitStep(s, j))
    case Completing => Some(CompleteStep(s, j))
    case _ => None
  }

  /** The suggestion in a reply that is parsed at this time, if it passes the checks. */
  function Stamped(cfg: Config, reply: string, at: nat): Option<Suggestion> {
    var parsed := cfg.parse(reply);
    if parsed.Success? then Some(parsed.value.(generatedAt := cfg.format(at))) else None
  }

  /** Where an answer from the outside leads; None when the goroutine does not wait for it. */
  function Answered(cfg: Config, p: Phase, input: Input, now: nat): (r: Option<Phase>)
    ensures r.Some? ==> Genuine(cfg, r.value) && (InFlight(r.value) <==> InFlight(p))
    ensures r.Some? ==> p == Building || p == Requesting
  {
    if p == Building && input.Built? then Some(Marking)
    else if p == Building && input.BuildFailed? then
      Some(Failing("build suggestion prompt failed: " + input.error, false))
    else if p == Requesting && input.ReplyFailed? then Some(Failing(input.error, true))
    else if p == Requesting && input.Reply? then
      var parsed := cfg.parse(input.text);
      if parsed.Success? then Some(Committing(input.text, now, Stamped(cfg, input.text, now).value))
      else Some(Failing("invalid suggestion json: " + cfg.describe(parsed.error), true))
    else None
  }

  /** What a job that may still commit holds came from its own reply. */
  predicate Genuine(cfg: Config, p: Phase) {
    p.Committing? ==> Stamped(cfg, p.reply, p.at) == Some(p.parsed)
  }

  /** One step of runJob. */
  function RunStep(cfg: Config, s: System, j: nat, input: Input): (r: Option<System>)
    requires j < |s.jobs|
    ensures r.Some? ==> JobFrame(s, r.value, j)
  {
    if input.Lock? then LockStep(s, j)
    else
      var p := Answered(cfg, s.jobs[j].phase, input, s.now);
      if p.None? then None else Some(SetPhase(s, j, p.value))
  }

  /** A due timer fires and starts runJob in a goroutine. */
  function FireStep(s: System, i: nat): Option<System> {
    if i < |s.service.timers| && s.service.timers[i].status == Armed && s.service.timers[i].due <= s.now then
      var t := s.service.timers[i];
      Some(s.(service := s.service.(timers := s.service.timers[i := t.(status := Fired)]),
              jobs := s.jobs + [Job(i, t.session, t.number, Building)],
              firings := s.firings + [Firing(t.session, s.now)]))
    else None
  }

  function Next(cfg: Config, s: System, l: Label): Option<System> {
    match l
    case Call(session, text) =>
      Some(s.(service := Ingested(s.service, cfg.debounce, cfg.recentMax, session, text, s.now),
              ingests := s.ingests + [Ingest(session, text)]))
    case Wait(span) => Some(s.(now := s.now + span))
    case Expire(timer) => FireStep(s, timer)
    case Run(job, input) => if job < |s.jobs| then RunStep(cfg, s, job, input) else None
  }

  function Exec(cfg: Config, schedule: seq<Label>): Option<System> {
    if schedule == [] then Some(INIT)
    else
      var before := Exec(cfg, schedule[..|schedule| - 1]);
      if before.None? then None else Next(cfg, before.value, schedule[|schedule| - 1])
  }

  // ---------------------------------------------------------------- timers

  /** Each session's current timer carries the session's newest number. */
  predicate CurrentIsNewest(s: State) {
    && s.timerOf.Keys == s.jobSeq.Keys
    && forall session | session in s.timerOf ::
         && s.timerOf[session] < |s.timers|
         && s.timers[s.timerOf[session]].session == session
         && s.timers[s.timerOf[session]].number == s.jobSeq[session]
  }

  /** Only the current timer of a session may be armed. */
  predicate OnlyCurrentArmed(s: State) {
    forall i | 0 <= i < |s.timers| && s.timers[i].status == Armed ::
      s.timers[i].session in s.timerOf && s.timerOf[s.timers[i].session] == i
  }

  predicate NumbersIssued(s: State) {
    forall i | 0 <= i < |s.timers| :: 1 <= s.timers[i].number <= s.Newest(s.timers[i].session)
  }

  predicate NumbersGrow(s: State) {
    forall i, k | 0 <= i < k < |s.timers| && s.timers[i].session == s.timers[k].session ::
      s.timers[i].number < s.timers[k].number
  }

  predicate TimersOK(s: State) { CurrentIsNewest(s) && OnlyCurrentArmed(s) && NumbersIssued(s) && NumbersGrow(s) }

  /** What a call changes: the session's armed timer, one new timer at the end, and the session's entries. */
  predicate CallFrame(s: State, s': State, session: string, due: nat) {
    var n, number := |s.timers|, s.Newest(session) + 1;
    && |s'.timers| == n + 1 && s'.timers[n] == Timer(session, number, due, Armed)
    && (forall i | 0 <= i < n :: s'.timers[i] == s.timers[i].(status := s'.timers[i].status))
    && (forall i | 0 <= i < n && s.timers[i].status != Armed :: s'.timers[i] == s.timers[i])
    && (forall i | 0 <= i < n && s'.timers[i].status == Armed ::
          s.timers[i].status == Armed && s.timers[i].session != session)
    && s'.timerOf == s.timerOf[session := n] && s'.jobSeq == s.jobSeq[session := number]
  }

  lemma IngestedFrame(s: State, debounce: nat, max: int, session: string, text: string, now: nat)
    requires CurrentIsNewest(s) && OnlyCurrentArmed(s) && Trim(text) != ""
    ensures CallFrame(s, Ingested(s, debounce, max, session, text, now), session, now + debounce)
  {
    if session in s.timerOf {
      StopTimerFrame(s.timers, s.timerOf[session]);
    }
  }

  lemma CallKeepsCurrent(s: State, s': State, session: string, due: nat)
    requires TimersOK(s) && CallFrame(s, s', session, due)
    ensures CurrentIsNewest(s') && OnlyCurrentArmed(s')
  {
  }

  lemma CallKeepsNumbers(s: State, s': State, session: string, due: nat)
    requires TimersOK(s) && CallFrame(s, s', session, due)
    ensures NumbersIssued(s') && NumbersGrow(s')
  {
    forall i, k | 0 <= i < k < |s'.timers| && s'.timers[i].session == s'.timers[k].session
      ensures s'.timers[i].number < s'.timers[k].number
    {
      assert s.timers[i].number <= s.Newest(s.timers[i].session);
    }
  }

  lemma IngestedKeepsTimers(s: State, debounce: nat, max: int, session: string, text: string, now: nat)
    requires TimersOK(s)
    ensures TimersOK(Ingested(s, debounce, max, session, text, now))
  {
    if Trim(text) != "" {
      var s' := Ingested(s, debounce, max, session, text, now);
      IngestedFrame(s, debounce, max, session, text, now);
      CallKeepsCurrent(s, s', session, now + debounce);
      CallKeepsNumbers(s, s', session, now + debounce);
    }
  }

  lemma FiredKeepsTimers(s: State, i: nat)
    requires TimersOK(s) && i < |s.timers|
    ensures TimersOK(s.(timers := s.timers[i := s.timers[i].(status := Fired)]))
  {
    var s' := s.(timers := s.timers[i := s.timers[i].(status := Fired)]);
    assert CurrentIsNewest(s');
    assert OnlyCurrentArmed(s');
    assert NumbersIssued(s');
    assert NumbersGrow(s');
  }

  // ---------------------------------------------------------------- jobs

  /** Each job comes from a fired timer of its own. */
  predicate JobsOK(s: System) {
    && (forall k | 0 <= k < |s.jobs| ::
          var j := s.jobs[k];
          && j.timer < |s.service.timers|
          && s.service.timers[j.timer].status == Fired
          && s.service.timers[j.timer].session == j.session
          && s.service.timers[j.timer].number == j.number)
    && (forall k, l | 0 <= k < l < |s.jobs| :: s.jobs[k].timer != s.jobs[l].timer)
  }

  /** No session runs the same number twice. */
  predicate Distinct(jobs: seq<Job>) {
    forall k, l | 0 <= k < |jobs| && 0 <= l < |jobs| && k != l && jobs[k].session == jobs[l].session ::
      jobs[k].number != jobs[l].number
  }

  lemma NumbersRunOnce(s: System)
    requires TimersOK(s.service) && JobsOK(s)
    ensures Distinct(s.jobs)
  {
    forall k, l | 0 <= k < |s.jobs| && 0 <= l < |s.jobs| && k != l && s.jobs[k].session == s.jobs[l].session
      ensures s.jobs[k].number != s.jobs[l].number
    {
      assert s.jobs[k].timer != s.jobs[l].timer;
    }
  }

  lemma CallJobs(cfg: Config, s: System, session: string, text: string)
    requires TimersOK(s.service) && JobsOK(s)
    ensures JobsOK(Next(cfg, s, Call(session, text)).value)
  {
    if Trim(text) != "" {
      IngestedFrame(s.service, cfg.debounce, cfg.recentMax, session, text, s.now);
    }
  }

  lemma ExpireJobs(s: System, i: nat)
    requires JobsOK(s) && FireStep(s, i).Some?
    ensures JobsOK(FireStep(s, i).value)
  {
  }

  lemma NextJobs(cfg: Config, s: System, l: Label)
    requires TimersOK(s.service) && JobsOK(s) && Next(cfg, s, l).Some?
    ensures JobsOK(Next(cfg, s, l).value)
  {
    match l
    case Call(session, text) => CallJobs(cfg, s, session, text);
    case Wait(_) =>
    case Expire(timer) => ExpireJobs(s, timer);
    case Run(_, _) =>
  }

  lemma NextTimers(cfg: Config, s: System, l: Label)
    requires TimersOK(s.service) && Next(cfg, s, l).Some?
    ensures TimersOK(Next(cfg, s, l).value.service)
  {
    if l.Call? {
      IngestedKeepsTimers(s.service, cfg.debounce, cfg.recentMax, l.session, l.text, s.now);
    } else if l.Expire? {
      FiredKeepsTimers(s.service, l.timer);
    }
  }

  // ---------------------------------------------------------------- jobs in flight

  type Active = map<string, map<nat, CancelId>>

  predicate NoneEmpty(active: Active) { forall session | session in active :: active[session] != map[] }

  /** Each entry is the job in flight that it names. */
  ghost predicate Listed(active: Active, jobs: seq<Job>) {
    forall session, number | IsActive(active, session, number) ::
      var k := active[session][number];
      k < |jobs| && InFlight(jobs[k].phase) && jobs[k].session == session && jobs[k].number == number
  }

  predicate Covered(active: Active, jobs: seq<Job>) {
    forall k | 0 <= k < |jobs| && InFlight(jobs[k].phase) :: IsActive(active, jobs[k].session, jobs[k].number)
  }

  /** The nested map holds exactly the jobs in flight, none of its inner maps is empty, and the counter is its size. */
  ghost predicate ActiveOK(s: System) {
    && NoneEmpty(s.service.active) && Listed(s.service.active, s.jobs) && Covered(s.service.active, s.jobs)
    && s.service.inFlight == |Pairs(s.service.active)|
  }

  lemma WithEntry(active: Active, session: string, number: nat, cancel: CancelId)
    ensures forall x, n :: IsActive(With(active, session, number, cancel), x, n) <==>
                           IsActive(active, x, n) || (x == session && n == number)
    ensures forall x, n | IsActive(With(active, session, number, cancel), x, n) ::
              With(active, session, number, cancel)[x][n] ==
              if x == session && n == number then cancel else active[x][n]
    ensures NoneEmpty(active) ==> NoneEmpty(With(active, session, number, cancel))
  {
    var after := With(active, session, number, cancel);
    assert number in after[session];
  }

  lemma WithPairs(active: Active, session: string, number: nat, cancel: CancelId)
    requires !IsActive(active, session, number)
    ensures |Pairs(With(active, session, number, cancel))| == |Pairs(active)| + 1
  {
    WithEntry(active, session, number, cancel);
    var after := With(active, session, number, cancel);
    forall p
      ensures p in Pairs(after) <==> p in Pairs(active) + {(session, number)}
    {
      assert p in Pairs(after) <==> IsActive(after, p.0, p.1);
    }
    assert Pairs(after) == Pairs(active) + {(session, number)};
  }

  /** Removing one entry removes that entry alone. */
  lemma WithoutEntry(active: Active, session: string, number: nat)
    requires IsActive(active, session, number)
    ensures forall x, n :: IsActive(Without(active, session, number), x, n) <==>
                           IsActive(active, x, n) && !(x == session && n == number)
    ensures forall x, n | IsActive(Without(active, session, number), x, n) ::
              Without(active, session, number)[x][n] == active[x][n]
    ensures NoneEmpty(active) ==> NoneEmpty(Without(active, session, number))
  {
    var rest := active[session] - {number};
    forall x, n
      ensures IsActive(Without(active, session, number), x, n) <==>
              IsActive(active, x, n) && !(x == session && n == number)
    {
      if x == session && n in rest {
        assert rest != map[];
      }
    }
  }

  lemma WithoutPairs(active: Active, session: string, number: nat)
    requires IsActive(active, session, number)
    ensures |Pairs(Without(active, session, number))| == |Pairs(active)| - 1
  {
    WithoutEntry(active, session, number);
    var after := Without(active, session, number);
    forall p
      ensures p in Pairs(after) <==> p in Pairs(active) - {(session, number)}
    {
      assert p in Pairs(after) <==> IsActive(after, p.0, p.1);
    }
    assert Pairs(after) == Pairs(active) - {(session, number)};
  }

  lemma MarkActive(s: System, j: nat)
    requires Distinct(s.jobs) && ActiveOK(s) && j < |s.jobs| && s.jobs[j].phase == Marking
    ensures ActiveOK(MarkStep(s, j))
  {
    var job, s' := s.jobs[j], MarkStep(s, j);
    assert !IsActive(s.service.active, job.session, job.number);
    WithPairs(s.service.active, job.session, job.number, j);
    WithEntry(s.service.active, job.session, job.number, j);
    assert Listed(s'.service.active, s'.jobs);
    assert Covered(s'.service.active, s'.jobs);
  }

  lemma CompleteActive(s: System, j: nat)
    requires Distinct(s.jobs) && ActiveOK(s) && j < |s.jobs| && s.jobs[j].phase == Completing
    ensures ActiveOK(CompleteStep(s, j))
  {
    var job, s' := s.jobs[j], CompleteStep(s, j);
    WithoutPairs(s.service.active, job.session, job.number);
    WithoutEntry(s.service.active, job.session, job.number);
    assert Listed(s'.service.active, s'.jobs);
    assert Covered(s'.service.active, s'.jobs);
  }

  lemma QuietActive(s: System, s': System)
    requires ActiveOK(s)
    requires s'.service.active == s.service.active && s'.service.inFlight == s.service.inFlight
    requires |s.jobs| <= |s'.jobs|
    requires forall k | 0 <= k < |s.jobs| ::
               && s'.jobs[k].session == s.jobs[k].session && s'.jobs[k].number == s.jobs[k].number
               && (InFlight(s'.jobs[k].phase) <==> InFlight(s.jobs[k].phase))
    requires forall k | |s.jobs| <= k < |s'.jobs| :: !InFlight(s'.jobs[k].phase)
    ensures ActiveOK(s')
  {
  }

  lemma LockActive(s: System, j: nat)
    requires Distinct(s.jobs) && ActiveOK(s) && j < |s.jobs| && LockStep(s, j).Some?
    ensures ActiveOK(LockStep(s, j).value)
  {
    match s.jobs[j].phase
    case Marking => MarkActive(s, j);
    case Failing(_, _) => QuietActive(s, FailStep(s, j));
    case Committing(_, _, _) => QuietActive(s, CommitStep(s, j));
    case Completing => CompleteActive(s, j);
  }

  lemma RunActive(cfg: Config, s: System, j: nat, input: Input)
    requires Distinct(s.jobs) && ActiveOK(s) && j < |s.jobs| && RunStep(cfg, s, j, input).Some?
    ensures ActiveOK(RunStep(cfg, s, j, input).value)
  {
    if input.Lock? {
      LockActive(s, j);
    } else {
      QuietActive(s, RunStep(cfg, s, j, input).value);
    }
  }

  lemma NextActive(cfg: Config, s: System, l: Label)
    requires Distinct(s.jobs) && ActiveOK(s) && Next(cfg, s, l).Some?
    ensures ActiveOK(Next(cfg, s, l).value)
  {
    match l
    case Call(_, _) => QuietActive(s, Next(cfg, s, l).value);
    case Wait(_) => QuietActive(s, Next(cfg, s, l).value);
    case Expire(timer) => QuietActive(s, FireStep(s, timer).value);
    case Run(job, input) => RunActive(cfg, s, job, input);
  }

  // ---------------------------------------------------------------- commits

  /** The suggestion that the last commit published. */
  function LastCommitted(cfg: Config, commits: seq<Commit>): Option<Suggestion> {
    if commits == [] then None
    else Stamped(cfg, commits[|commits| - 1].reply, commits[|commits| - 1].at)
  }

  predicate AllGenuine(cfg: Config, jobs: seq<Job>) {
    forall k | 0 <= k < |jobs| :: Genuine(cfg, jobs[k].phase)
  }

  predicate PastCommit(p: Phase) { p.Completing? || p.Ended? }

  /** Each commit is by a job that is past it, and with a reply that passed the checks. */
  predicate ByJobs(cfg: Config, commits: seq<Commit>, jobs: seq<Job>) {
    forall c | 0 <= c < |commits| ::
      && commits[c].job < |jobs| && PastCommit(jobs[commits[c].job].phase)
      && jobs[commits[c].job].session == commits[c].session && jobs[commits[c].job].number == commits[c].number
      && cfg.parse(commits[c].reply).Success?
  }

  predicate CommitsGrow(commits: seq<Commit>) {
    forall c, d | 0 <= c < d < |commits| && commits[c].session == commits[d].session ::
      commits[c].number < commits[d].number
  }

  predicate CommitsIssued(s: System) {
    forall c | 0 <= c < |s.commits| :: s.commits[c].number <= s.service.Newest(s.commits[c].session)
  }

  /** Commits are by distinct jobs that are done with it, their numbers grow in each session, and latest is the last. */
  predicate CommitsOK(cfg: Config, s: System) {
    && AllGenuine(cfg, s.jobs) && ByJobs(cfg, s.commits, s.jobs) && CommitsGrow(s.commits) && CommitsIssued(s)
    && s.service.latest == LastCommitted(cfg, s.commits)
  }

  lemma OneMoreGrows(commits: seq<Commit>, m: Commit)
    requires CommitsGrow(commits)
    requires forall c | 0 <= c < |commits| && commits[c].session == m.session :: commits[c].number < m.number
    ensures CommitsGrow(commits + [m])
  {
  }

  lemma CommitOutnumbers(cfg: Config, s: System, j: nat)
    requires Distinct(s.jobs) && CommitsOK(cfg, s) && j < |s.jobs| && s.jobs[j].phase.Committing?
    requires s.service.Newest(s.jobs[j].session) == s.jobs[j].number
    ensures forall c | 0 <= c < |s.commits| && s.commits[c].session == s.jobs[j].session ::
              s.commits[c].number < s.jobs[j].number
  {
    forall c | 0 <= c < |s.commits| && s.commits[c].session == s.jobs[j].session
      ensures s.commits[c].number < s.jobs[j].number
    {
      assert PastCommit(s.jobs[s.commits[c].job].phase);
      assert s.commits[c].number <= s.service.Newest(s.commits[c].session);
    }
  }

  lemma OneMoreByJobs(cfg: Config, commits: seq<Commit>, m: Commit, jobs: seq<Job>)
    requires ByJobs(cfg, commits, jobs) && cfg.parse(m.reply).Success?
    requires m.job < |jobs| && PastCommit(jobs[m.job].phase)
    requires jobs[m.job].session == m.session && jobs[m.job].number == m.number
    ensures ByJobs(cfg, commits + [m], jobs)
  {
  }

  lemma NewestCommits(cfg: Config, s: System, j: nat)
    requires Distinct(s.jobs) && CommitsOK(cfg, s) && j < |s.jobs| && s.jobs[j].phase.Committing?
    requires s.service.Newest(s.jobs[j].session) == s.jobs[j].number
    ensures CommitsOK(cfg, CommitStep(s, j))
  {
    var job, s' := s.jobs[j], CommitStep(s, j);
    var m := Commit(j, job.session, job.number, job.phase.reply, job.phase.at);
    CommitOutnumbers(cfg, s, j);
    OneMoreGrows(s.commits, m);
    assert Genuine(cfg, job.phase);
    CommitsStay(cfg, s.commits, s.jobs, s'.jobs);
    OneMoreByJobs(cfg, s.commits, m, s'.jobs);
  }

  lemma CommitsStay(cfg: Config, commits: seq<Commit>, jobs: seq<Job>, jobs': seq<Job>)
    requires ByJobs(cfg, commits, jobs) && |jobs| <= |jobs'|
    requires forall k | 0 <= k < |jobs| ::
               && jobs'[k].session == jobs[k].session && jobs'[k].number == jobs[k].number
               && (PastCommit(jobs[k].phase) ==> PastCommit(jobs'[k].phase))
    ensures ByJobs(cfg, commits, jobs')
  {
  }

  lemma QuietCommits(cfg: Config, s: System, s': System)
    requires CommitsOK(cfg, s) && s'.commits == s.commits && s'.service.latest == s.service.latest
    requires |s.jobs| <= |s'.jobs| && AllGenuine(cfg, s'.jobs)
    requires forall k | 0 <= k < |s.jobs| ::
               && s'.jobs[k].session == s.jobs[k].session && s'.jobs[k].number == s.jobs[k].number
               && (PastCommit(s.jobs[k].phase) ==> PastCommit(s'.jobs[k].phase))
    requires forall session :: s.service.Newest(session) <= s'.service.Newest(session)
    ensures CommitsOK(cfg, s')
  {
    CommitsStay(cfg, s.commits, s.jobs, s'.jobs);
    forall c | 0 <= c < |s'.commits|
      ensures s'.commits[c].number <= s'.service.Newest(s'.commits[c].session)
    {
      assert s.commits[c].number <= s.service.Newest(s.commits[c].session);
    }
  }

  lemma FrameCommits(cfg: Config, s: System, s': System, j: nat)
    requires CommitsOK(cfg, s) && j < |s.jobs| && JobFrame(s, s', j)
    requires s'.commits == s.commits && s'.service.latest == s.service.latest
    requires Genuine(cfg, s'.jobs[j].phase) && (PastCommit(s.jobs[j].phase) ==> PastCommit(s'.jobs[j].phase))
    ensures CommitsOK(cfg, s')
  {
    QuietCommits(cfg, s, s');
  }

  lemma StaleCommits(cfg: Config, s: System, j: nat)
    requires CommitsOK(cfg, s) && j < |s.jobs| && s.jobs[j].phase.Committing?
    requires s.service.Newest(s.jobs[j].session) != s.jobs[j].number
    ensures CommitsOK(cfg, CommitStep(s, j))
  {
    FrameCommits(cfg, s, CommitStep(s, j), j);
  }

  lemma LockCommits(cfg: Config, s: System, j: nat)
    requires Distinct(s.jobs) && CommitsOK(cfg, s) && j < |s.jobs| && LockStep(s, j).Some?
    ensures CommitsOK(cfg, LockStep(s, j).value)
  {
    match s.jobs[j].phase
    case Marking => FrameCommits(cfg, s, MarkStep(s, j), j);
    case Failing(_, _) => FrameCommits(cfg, s, FailStep(s, j), j);
    case Completing => FrameCommits(cfg, s, CompleteStep(s, j), j);
    case Committing(_, _, _) =>
      if s.service.Newest(s.jobs[j].session) == s.jobs[j].number {
        NewestCommits(cfg, s, j);
      } else {
        StaleCommits(cfg, s, j);
      }
  }

  lemma RunCommits(cfg: Config, s: System, j: nat, input: Input)
    requires Distinct(s.jobs) && CommitsOK(cfg, s) && j < |s.jobs| && RunStep(cfg, s, j, input).Some?
    ensures CommitsOK(cfg, RunStep(cfg, s, j, input).value)
  {
    if input.Lock? {
      LockCommits(cfg, s, j);
    } else {
      FrameCommits(cfg, s, RunStep(cfg, s, j, input).value, j);
    }
  }

  lemma NextCommits(cfg: Config, s: System, l: Label)
    requires Distinct(s.jobs) && CommitsOK(cfg, s) && Next(cfg, s, l).Some?
    ensures CommitsOK(cfg, Next(cfg, s, l).value)
  {
    match l
    case Call(_, _) => QuietCommits(cfg, s, Next(cfg, s, l).value);
    case Wait(_) => QuietCommits(cfg, s, Next(cfg, s, l).value);
    case Expire(timer) => QuietCommits(cfg, s, FireStep(s, timer).value);
    case Run(job, input) => RunCommits(cfg, s, job, input);
  }

  // ---------------------------------------------------------------- pace

  /** Firings of one session are a debounce apart, and an armed timer keeps that distance too. */
  predicate PaceOK(cfg: Config, s: System) {
    && (forall a | 0 <= a < |s.firings| :: s.firings[a].at <= s.now)
    && (forall a, b | 0 <= a < b < |s.firings| && s.firings[a].session == s.firings[b].session ::
          s.firings[a].at + cfg.debounce <= s.firings[b].at)
    && (forall i, a | 0 <= i < |s.service.timers| && 0 <= a < |s.firings|
          && s.service.timers[i].status == Armed && s.service.timers[i].session == s.firings[a].session ::
          s.firings[a].at + cfg.debounce <= s.service.timers[i].due)
  }

  lemma CallPace(cfg: Config, s: System, session: string, text: string)
    requires TimersOK(s.service) && PaceOK(cfg, s)
    ensures PaceOK(cfg, Next(cfg, s, Call(session, text)).value)
  {
    if Trim(text) != "" {
      IngestedFrame(s.service, cfg.debounce, cfg.recentMax, session, text, s.now);
    }
  }

  lemma ExpirePace(cfg: Config, s: System, i: nat)
    requires TimersOK(s.service) && PaceOK(cfg, s) && FireStep(s, i).Some?
    ensures PaceOK(cfg, FireStep(s, i).value)
  {
    var t, s' := s.service.timers[i], FireStep(s, i).value;
    forall k | 0 <= k < |s'.service.timers| && s'.service.timers[k].status == Armed
      ensures s'.service.timers[k] == s.service.timers[k] && s.service.timers[k].session != t.session
    {
    }
  }

  lemma NextPace(cfg: Config, s: System, l: Label)
    requires TimersOK(s.service) && PaceOK(cfg, s) && Next(cfg, s, l).Some?
    ensures PaceOK(cfg, Next(cfg, s, l).value)
  {
    match l
    case Call(session, text) => CallPace(cfg, s, session, text);
    case Wait(_) =>
    case Expire(timer) => ExpirePace(cfg, s, timer);
    case Run(_, _) =>
  }

  // ---------------------------------------------------------------- recent lines

  function TextsOf(ingests: seq<Ingest>, session: string): seq<string> {
    if ingests == [] then []
    else
      var last := ingests[|ingests| - 1];
      TextsOf(ingests[..|ingests| - 1], session) + if last.session == session then [last.text] else []
  }

  predicate WindowOK(cfg: Config, s: System, session: string) {
    s.service.Recent(session) == Stored(TextsOf(s.ingests, session), cfg.recentMax)
  }

  lemma NextWindow(cfg: Config, s: System, l: Label, session: string)
    requires cfg.recentMax > 0 && WindowOK(cfg, s, session) && Next(cfg, s, l).Some?
    ensures WindowOK(cfg, Next(cfg, s, l).value, session)
  {
    if l.Call? {
      var s' := Next(cfg, s, l).value;
      assert s'.ingests[..|s'.ingests| - 1] == s.ingests;
      var texts, texts' := TextsOf(s.ingests, session), TextsOf(s'.ingests, session);
      if l.session == session {
        assert texts' == texts + [l.text] && texts'[..|texts'| - 1] == texts;
      } else {
        assert texts' == texts;
      }
    }
  }

  // ---------------------------------------------------------------- the last error

  /** The last error is trimmed, and has a time exactly if there is one. */
  predicate ErrorOK(s: System) {
    && Tight(s.service.lastError)
    && (s.service.lastError == "" <==> s.service.lastErrorAt == None)
    && (s.service.lastErrorAt.Some? ==> s.service.lastErrorAt.value <= s.now)
  }

  lemma NextError(cfg: Config, s: System, l: Label)
    requires ErrorOK(s) && Next(cfg, s, l).Some?
    ensures ErrorOK(Next(cfg, s, l).value)
  {
    if l.Run? && l.input.Lock? && s.jobs[l.job].phase.Failing? {
      var left, right := TrimParts(s.jobs[l.job].phase.message);
    }
  }

  // ---------------------------------------------------------------- every run

  ghost predicate Inv(cfg: Config, s: System) {
    && TimersOK(s.service) && JobsOK(s) && ActiveOK(s) && CommitsOK(cfg, s) && PaceOK(cfg, s)
    && ErrorOK(s)
    && (cfg.recentMax > 0 ==> forall session :: WindowOK(cfg, s, session))
  }

  lemma {:induction false} ExecInv(cfg: Config, schedule: seq<Label>)
    requires Exec(cfg, schedule).Some?
    ensures Inv(cfg, Exec(cfg, schedule).value)
  {
    if schedule == [] {
      InitInv(cfg);
    } else {
      var before, l := schedule[..|schedule| - 1], schedule[|schedule| - 1];
      ExecInv(cfg, before);
      NextInv(cfg, Exec(cfg, before).value, l);
    }
  }

  lemma InitInv(cfg: Config)
    ensures Inv(cfg, INIT)
  {
    assert Pairs(map[]) == {};
  }

  lemma NextInv(cfg: Config, s: System, l: Label)
    requires Inv(cfg, s) && Next(cfg, s, l).Some?
    ensures Inv(cfg, Next(cfg, s, l).value)
  {
    NextTimers(cfg, s, l);
    NextJobs(cfg, s, l);
    NumbersRunOnce(s);
    NextActive(cfg, s, l);
    NextCommits(cfg, s, l);
    NextPace(cfg, s, l);
    NextError(cfg, s, l);
    if cfg.recentMax > 0 {
      forall session
        ensures WindowOK(cfg, Next(cfg, s, l).value, session)
      {
        NextWindow(cfg, s, l, session);
      }
    }
  }
}
