/** What holds after every schedule of the suggestion scheduler. */
module SchedulerTheorems {
  import opened Scheduler
  import opened SuggestionService
  import opened SuggestionText
  import opened RecentLines
  import opened Text
  import opened Wrappers

  /** A session never has two armed timers, and the armed one carries the session's newest number. */
  lemma OneArmedTimer(cfg: Config, schedule: seq<Label>)
    requires Exec(cfg, schedule).Some?
    ensures var s := Exec(cfg, schedule).value.service;
            forall i, k | 0 <= i < |s.timers| && 0 <= k < |s.timers| && s.timers[i].session == s.timers[k].session
                          && s.timers[i].status == Armed ::
              && s.timers[i].number == s.Newest(s.timers[i].session)
              && (s.timers[k].status == Armed ==> i == k)
  {
    ExecInv(cfg, schedule);
  }

  /** Debounce: two firings for one session lie at least the debounce time apart, whatever the calls were. */
  lemma FiringsApart(cfg: Config, schedule: seq<Label>, a: nat, b: nat)
    requires Exec(cfg, schedule).Some?
    requires a < b < |Exec(cfg, schedule).value.firings|
    requires var f := Exec(cfg, schedule).value.firings; f[a].session == f[b].session
    ensures var f := Exec(cfg, schedule).value.firings; f[a].at + cfg.debounce <= f[b].at
  {
    ExecInv(cfg, schedule);
  }

  /** No job number of a session is run by two goroutines. */
  lemma EachNumberRunsOnce(cfg: Config, schedule: seq<Label>)
    requires Exec(cfg, schedule).Some?
    ensures Distinct(Exec(cfg, schedule).value.jobs)
  {
    ExecInv(cfg, schedule);
    NumbersRunOnce(Exec(cfg, schedule).value);
  }

  // ---------------------------------------------------------------- in-flight accounting

  ghost function InFlightJobs(jobs: seq<Job>): set<nat> {
    set k: nat | k < |jobs| && InFlight(jobs[k].phase)
  }

  function KeyOf(jobs: seq<Job>, k: nat): (string, nat) {
    if k < |jobs| then (jobs[k].session, jobs[k].number) else ("", 0)
  }

  lemma {:induction false} KeysCount(jobs: seq<Job>, ks: set<nat>)
    requires Distinct(jobs) && forall k | k in ks :: k < |jobs|
    ensures |set k | k in ks :: KeyOf(jobs, k)| == |ks|
    decreases |ks|
  {
    var keys := set k | k in ks :: KeyOf(jobs, k);
    if ks != {} {
      var k :| k in ks;
      var rest := set l | l in ks - {k} :: KeyOf(jobs, l);
      KeysCount(jobs, ks - {k});
      forall l | l in ks - {k}
        ensures KeyOf(jobs, l) != KeyOf(jobs, k)
      {
        assert jobs[l].session == jobs[k].session ==> jobs[l].number != jobs[k].number;
      }
      assert keys == rest + {KeyOf(jobs, k)};
      assert KeyOf(jobs, k) !in rest;
    }
  }

  lemma KeysArePairs(s: System)
    requires ActiveOK(s)
    ensures (set k | k in InFlightJobs(s.jobs) :: KeyOf(s.jobs, k)) == Pairs(s.service.active)
  {
    var ks, active := InFlightJobs(s.jobs), s.service.active;
    var keys := set k | k in ks :: KeyOf(s.jobs, k);
    forall p | p in keys
      ensures p in Pairs(active)
    {
      var k :| k in ks && KeyOf(s.jobs, k) == p;
      assert IsActive(active, p.0, p.1);
    }
    forall p | p in Pairs(active)
      ensures p in keys
    {
      assert IsActive(active, p.0, p.1);
      var k: nat := active[p.0][p.1];
      assert k in ks && KeyOf(s.jobs, k) == p;
    }
  }

  /** The counter is the size of the nested map and the number of goroutines between mark and completion. */
  lemma InFlightIsExact(cfg: Config, schedule: seq<Label>)
    requires Exec(cfg, schedule).Some?
    ensures var s := Exec(cfg, schedule).value;
            && s.service.inFlight == |Pairs(s.service.active)| == |InFlightJobs(s.jobs)|
            && NoneEmpty(s.service.active)
  {
    ExecInv(cfg, schedule);
    var s := Exec(cfg, schedule).value;
    NumbersRunOnce(s);
    KeysCount(s.jobs, InFlightJobs(s.jobs));
    KeysArePairs(s);
  }

  /** markCompleted never returns early and never finds the counter at zero. */
  lemma CompletionFindsItsJob(cfg: Config, schedule: seq<Label>, j: nat)
    requires Exec(cfg, schedule).Some?
    requires j < |Exec(cfg, schedule).value.jobs| && Exec(cfg, schedule).value.jobs[j].phase == Completing
    ensures var s := Exec(cfg, schedule).value;
            && IsActive(s.service.active, s.jobs[j].session, s.jobs[j].number)
            && s.service.active[s.jobs[j].session][s.jobs[j].number] == j
            && CompleteStep(s, j).service.inFlight == s.service.inFlight - 1 >= 0
  {
    ExecInv(cfg, schedule);
    var s := Exec(cfg, schedule).value;
    NumbersRunOnce(s);
    assert (s.jobs[j].session, s.jobs[j].number) in Pairs(s.service.active);
  }

  // ---------------------------------------------------------------- stale answers

  /** Within a session, published suggestions come from ever newer jobs. */
  lemma CommitsIncrease(cfg: Config, schedule: seq<Label>, c: nat, d: nat)
    requires Exec(cfg, schedule).Some?
    requires c < d < |Exec(cfg, schedule).value.commits|
    requires var m := Exec(cfg, schedule).value.commits; m[c].session == m[d].session
    ensures var m := Exec(cfg, schedule).value.commits; m[c].number < m[d].number
  {
    ExecInv(cfg, schedule);
  }

  /** The service reads answers with parseSuggestionJSON over some strict JSON decoder. */
  ghost predicate ParsesWith(cfg: Config, decode: Decoder) {
    forall raw :: cfg.parse(raw) == Parsed(raw, decode)
  }

  /** What Latest finds is the checked content of the reply that was committed last, with the time it was parsed,
      and is valid. */
  lemma LatestIsValid(cfg: Config, decode: Decoder, schedule: seq<Label>)
    requires ParsesWith(cfg, decode) && Exec(cfg, schedule).Some?
    ensures var s := Exec(cfg, schedule).value;
            && (s.service.latest == None <==> s.commits == [])
            && (s.commits != [] ==>
                  var m, latest := s.commits[|s.commits| - 1], s.service.latest.value;
                  && Parsed(m.reply, decode).Success?
                  && latest == Parsed(m.reply, decode).value.(generatedAt := cfg.format(m.at))
                  && ValidSuggestion(latest))
  {
    ExecInv(cfg, schedule);
    LatestInState(cfg, decode, Exec(cfg, schedule).value);
  }

  lemma LatestInState(cfg: Config, decode: Decoder, s: System)
    requires ParsesWith(cfg, decode) && CommitsOK(cfg, s)
    ensures s.service.latest == None <==> s.commits == []
    ensures s.commits != [] ==>
              var m, latest := s.commits[|s.commits| - 1], s.service.latest.value;
              && Parsed(m.reply, decode).Success?
              && latest == Parsed(m.reply, decode).value.(generatedAt := cfg.format(m.at))
              && ValidSuggestion(latest)
  {
    if s.commits != [] {
      var m := s.commits[|s.commits| - 1];
      assert cfg.parse(m.reply) == Parsed(m.reply, decode);
      ParsedIsValid(m.reply, decode);
    }
  }

  /** A step is a publication exactly when it is the last section of a job whose number is still the newest. */
  predicate Publishes(s: System, l: Label) {
    && l.Run? && l.input == Lock && l.job < |s.jobs| && s.jobs[l.job].phase.Committing?
    && s.service.Newest(s.jobs[l.job].session) == s.jobs[l.job].number
  }

  /** The step brings a goroutine a reply that passes the checks. */
  predicate BringsGoodReply(cfg: Config, s: System, l: Label) {
    l.Run? && l.input.Reply? && l.job < |s.jobs| && cfg.parse(l.input.text).Success?
  }

  /** No failed, invalid or superseded answer changes what Latest finds; the answer of the newest job does. A good reply
      always takes its goroutine to the section that publishes. */
  lemma OnlyNewestPublishes(cfg: Config, schedule: seq<Label>, l: Label)
    requires Exec(cfg, schedule).Some? && Next(cfg, Exec(cfg, schedule).value, l).Some?
    ensures var s := Exec(cfg, schedule).value; var s' := Next(cfg, s, l).value;
            && s'.service.latest == (if Publishes(s, l) then Some(s.jobs[l.job].phase.parsed) else s.service.latest)
            && |s'.commits| == |s.commits| + (if Publishes(s, l) then 1 else 0)
            && (Publishes(s, l) ==>
                  && Genuine(cfg, s.jobs[l.job].phase)
                  && s'.service.lastError == "")
            && (BringsGoodReply(cfg, s, l) ==>
                  var p := cfg.parse(l.input.text).value.(generatedAt := cfg.format(s.now));
                  s'.jobs[l.job].phase == Committing(l.input.text, s.now, p))
  {
    ExecInv(cfg, schedule);
    var s := Exec(cfg, schedule).value;
    if l.Run? {
      PublishStep(cfg, s, l.job, l.input);
    }
  }

  lemma PublishStep(cfg: Config, s: System, j: nat, input: Input)
    requires j < |s.jobs| && RunStep(cfg, s, j, input).Some? && AllGenuine(cfg, s.jobs)
    ensures var s' := RunStep(cfg, s, j, input).value; var l := Run(j, input);
            && s'.service.latest == (if Publishes(s, l) then Some(s.jobs[j].phase.parsed) else s.service.latest)
            && |s'.commits| == |s.commits| + (if Publishes(s, l) then 1 else 0)
            && (Publishes(s, l) ==> Genuine(cfg, s.jobs[j].phase) && s'.service.lastError == "")
  {
  }

  // ---------------------------------------------------------------- status

  lemma AnyInFlight(jobs: seq<Job>)
    ensures |InFlightJobs(jobs)| > 0 <==> exists j :: 0 <= j < |jobs| && InFlight(jobs[j].phase)
  {
    if j :| 0 <= j < |jobs| && InFlight(jobs[j].phase) {
      assert j in InFlightJobs(jobs);
    } else {
      assert InFlightJobs(jobs) == {};
    }
  }

  /** Status reports work in progress exactly while some goroutine is between mark and completion, and the last
      error as it is stored: never untrimmed, and with a time, which has passed, exactly if there is one. */
  lemma StatusIsExact(cfg: Config, schedule: seq<Label>)
    requires Exec(cfg, schedule).Some?
    ensures var s := Exec(cfg, schedule).value;
            && (s.service.inFlight > 0 <==> exists j :: 0 <= j < |s.jobs| && InFlight(s.jobs[j].phase))
            && Trim(s.service.lastError) == s.service.lastError
            && (s.service.lastError == "" <==> s.service.lastErrorAt == None)
            && (s.service.lastErrorAt.Some? ==> s.service.lastErrorAt.value <= s.now)
  {
    ExecInv(cfg, schedule);
    InFlightIsExact(cfg, schedule);
    AnyInFlight(Exec(cfg, schedule).value.jobs);
    TightTrims(Exec(cfg, schedule).value.service.lastError);
  }

  // ---------------------------------------------------------------- recent lines

  /** The lines that a prompt quotes are the last recentMax of all lines that the session's texts ever held. */
  lemma RecentIsLastLines(cfg: Config, schedule: seq<Label>, session: string)
    requires cfg.recentMax > 0 && Exec(cfg, schedule).Some?
    ensures var s := Exec(cfg, schedule).value;
            var all, recent := AllLines(TextsOf(s.ingests, session)), s.service.Recent(session);
            && |recent| == (if |all| < cfg.recentMax then |all| else cfg.recentMax)
            && forall i | 0 <= i < |recent| :: recent[i] == all[|all| - |recent| + i]
  {
    var s := Exec(cfg, schedule).value;
    assert s.service.Recent(session) == Stored(TextsOf(s.ingests, session), cfg.recentMax) by {
      ExecInv(cfg, schedule);
      assert WindowOK(cfg, s, session);
    }
    assert KeepsLast(s.service.Recent(session), AllLines(TextsOf(s.ingests, session)), cfg.recentMax) by {
      WindowLaw(TextsOf(s.ingests, session), cfg.recentMax);
    }
  }
}
