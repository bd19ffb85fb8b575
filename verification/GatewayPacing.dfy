/** With workers that never overlap the queue keeps its pace, also across stop and restart. */
module GatewayPacing {
  import opened Wrappers
  import opened GatewaySystem
  import opened GatewayInvariants
  import opened GatewayLedger
  import opened GatewayDiscipline
  import opened GatewayLaunches

  /** A tick due at d does not come too early after the hand-offs so far. */
  predicate After(cfg: Config, hs: seq<Handoff>, d: nat) {
    hs == [] || (hs[|hs| - 1].due + cfg.interval <= d && hs[|hs| - 1].at <= d)
  }

  /** Hand-offs use ticks that were due at least an interval apart, each due after the hand-off before it. */
  predicate Spaced(cfg: Config, hs: seq<Handoff>, now: nat) {
    && (forall i | 0 <= i < |hs| :: hs[i].due <= hs[i].at <= now)
    && (forall i | 0 < i < |hs| :: After(cfg, hs[..i], hs[i].due))
  }

  predicate TickerOK(cfg: Config, g: Shared, k: Ticker) {
    && g.now <= k.nextDue && After(cfg, g.log.handoffs, k.nextDue)
    && (k.tick.Some? ==> k.tick.value <= g.now && k.tick.value + cfg.interval <= k.nextDue
                         && After(cfg, g.log.handoffs, k.tick.value))
  }

  ghost predicate Paced(cfg: Config, s: State) {
    && Spaced(cfg, s.g.log.handoffs, s.g.now)
    && (forall t | 0 <= t < |s.threads| && Ticking(s.threads[t]) :: TickerOK(cfg, s.g, s.threads[t].role.ticker.value))
  }

  /** A worker's ticker runs only while no later worker has been launched, so only one ticker runs. */
  lemma OneTicker(s: State, t: Tid, u: Tid)
    requires Threads(s) && OthersDone(s) && t < |s.threads| && u < |s.threads|
    requires Ticking(s.threads[t]) && Ticking(s.threads[u])
    ensures t == u
  {
    assert Local(s.g, s.workers, t, s.threads[t]) && Local(s.g, s.workers, u, s.threads[u]);
  }

  predicate TakesTick(pc: Pc, c: Choice) { pc.Select? && c != ClosedHere }

  /** The step neither takes a tick nor touches a ticker, except that a new worker makes one. */
  predicate TickerFrame(cfg: Config, g: Shared, th: Thread, e: Effect) {
    && e.g.log.handoffs == g.log.handoffs && e.g.now == g.now
    && (e.launched.Some? ==> !Ticking(e.launched.value))
    && (Ticking(e.th) ==> (Ticking(th) && e.th.role.ticker == th.role.ticker)
                          || e.th.role.ticker == Some(Ticker(g.now + cfg.interval, None)))
  }

  lemma UnderQTicker(cfg: Config, g: Shared, th: Thread, job: QJob)
    requires th.pc == HoldQ(job)
    ensures TickerFrame(cfg, g, th, UnderQ(cfg, g, th, job).value)
  {
    match job case StartWorker(_) => case StopQueue => case PopCommand => case PutCommand(_) => case _ =>
  }

  lemma RoleTicker(cfg: Config, g: Shared, t: Tid, th: Thread, c: Choice)
    requires Act(cfg, g, t, th, c).Some? && ShapeLocal(th) && !AtLock(th.pc)
    requires !(th.role.Worker? && TakesTick(th.pc, c))
    ensures TickerFrame(cfg, g, th, Act(cfg, g, t, th, c).value)
  {
    match th.role case Caller => case Reader(_) => case Worker(_, _, _) =>
  }

  /** Only a select that takes a tick is a hand-off, and only a new worker makes a ticker. */
  lemma ActTicker(cfg: Config, g: Shared, t: Tid, th: Thread, c: Choice)
    requires Act(cfg, g, t, th, c).Some? && ShapeLocal(th) && !(th.role.Worker? && TakesTick(th.pc, c))
    ensures TickerFrame(cfg, g, th, Act(cfg, g, t, th, c).value)
  {
    match th.pc
    case HoldQ(job) => UnderQTicker(cfg, g.(locks := g.locks.(queue := None)), th, job);
    case DrainMu(job) => match job { case Adopt(_) => case _ => }
    case _ =>
      if !AtLock(th.pc) {
        RoleTicker(cfg, g, t, th, c);
      }
  }

  lemma PlainStepPaced(cfg: Config, s: State, t: Tid, c: Choice)
    requires Threads(s) && Paced(cfg, s) && t < |s.threads| && Act(cfg, s.g, t, s.threads[t], c).Some?
    requires !(s.threads[t].role.Worker? && TakesTick(s.threads[t].pc, c))
    ensures Paced(cfg, Apply(s, t, Act(cfg, s.g, t, s.threads[t], c).value))
  {
    assert Local(s.g, s.workers, t, s.threads[t]);
    ActTicker(cfg, s.g, t, s.threads[t], c);
  }

  lemma SpacedSnoc(cfg: Config, hs: seq<Handoff>, h: Handoff, now: nat)
    requires Spaced(cfg, hs, now) && h.due <= h.at <= now && After(cfg, hs, h.due)
    ensures Spaced(cfg, hs + [h], now)
  {
    var hs' := hs + [h];
    forall i | 0 < i < |hs'|
      ensures After(cfg, hs'[..i], hs'[i].due)
    {
      assert i < |hs| ==> hs'[..i] == hs[..i];
      assert i == |hs| ==> hs'[..i] == hs;
    }
  }

  lemma HandoffPaced(cfg: Config, s: State, t: Tid, c: Choice)
    requires Threads(s) && OthersDone(s) && Paced(cfg, s) && t < |s.threads| && Act(cfg, s.g, t, s.threads[t], c).Some?
    requires s.threads[t].role.Worker? && TakesTick(s.threads[t].pc, c)
    ensures Paced(cfg, Apply(s, t, Act(cfg, s.g, t, s.threads[t], c).value))
  {
    var s' := Apply(s, t, Act(cfg, s.g, t, s.threads[t], c).value);
    var hs, hs' := s.g.log.handoffs, s'.g.log.handoffs;
    forall u | 0 <= u < |s'.threads| && Ticking(s'.threads[u])
      ensures u == t
    {
      OneTicker(s, t, u);
    }
    SpacedSnoc(cfg, hs, hs'[|hs|], s.g.now);
  }

  lemma QuietPaced(cfg: Config, s: State, l: Label)
    requires Paced(cfg, s) && Next(cfg, s, l).Some? && !l.Go?
    ensures Paced(cfg, Next(cfg, s, l).value)
  {
  }

  lemma {:induction false} ExecPaced(cfg: Config, schedule: seq<Label>)
    requires LaunchesAlone(cfg, schedule) && Exec(cfg, schedule).Some?
    ensures Paced(cfg, Exec(cfg, schedule).value)
  {
    if schedule != [] {
      var n := |schedule| - 1;
      var s, l := Exec(cfg, schedule[..n]).value, schedule[n];
      ExecPaced(cfg, schedule[..n]);
      ExecInv(cfg, schedule[..n]);
      ExecOthersDone(cfg, schedule[..n]);
      if !l.Go? {
        QuietPaced(cfg, s, l);
      } else if s.threads[l.t].role.Worker? && TakesTick(s.threads[l.t].pc, l.c) {
        HandoffPaced(cfg, s, l.t, l.c);
      } else {
        PlainStepPaced(cfg, s, l.t, l.c);
      }
    }
  }

  // ---------------------------------------------------------------- the bound

  lemma {:induction false} DuesSpread(cfg: Config, hs: seq<Handoff>, now: nat, p: nat, q: nat)
    requires Spaced(cfg, hs, now) && p < q < |hs|
    ensures hs[p].at <= hs[p + 1].due && hs[p + 1].due + (q - p - 1) * cfg.interval <= hs[q].due
    ensures hs[p].at <= hs[q].at
  {
    assert After(cfg, hs[..q], hs[q].due);
    if p + 1 < q {
      DuesSpread(cfg, hs, now, p, q - 1);
      assert (q - p - 1) * cfg.interval == (q - p - 2) * cfg.interval + cfg.interval;
    }
  }

  /** The hand-offs from `from` to `from + span`, both included. */
  function Within(hs: seq<Handoff>, from: nat, span: nat): set<nat> {
    set i | 0 <= i < |hs| && from <= hs[i].at <= from + span
  }

  lemma {:induction false} IntervalSize(xs: set<nat>, low: nat, count: nat)
    requires forall i | i in xs :: low <= i < low + count
    ensures |xs| <= count
  {
    if count == 0 {
      assert xs == {};
    } else {
      IntervalSize(xs - {low + count - 1}, low, count - 1);
    }
  }

  lemma Quotient(k: nat, span: nat, interval: nat)
    requires interval > 0 && k * interval <= span
    ensures k <= span / interval
  {
    var q := span / interval;
    assert span < (q + 1) * interval;
    if q + 1 <= k {
      Multiples(q + 1, k, interval);
      assert false;
    }
  }

  lemma Multiples(a: nat, b: nat, interval: nat)
    requires a <= b
    ensures a * interval <= b * interval
  {
    assert b * interval == a * interval + (b - a) * interval;
  }

  lemma First(w: set<nat>) returns (p: nat)
    requires w != {}
    ensures p in w && forall q | q in w :: p <= q
  {
    var p0 :| p0 in w;
    p := p0;
    var below := set q | q in w && q < p0;
    if below != {} {
      p := First(below);
    }
    forall q | q in w
      ensures p <= q
    {
      assert q < p0 ==> q in below;
    }
  }

  lemma PairBound(cfg: Config, hs: seq<Handoff>, now: nat, from: nat, span: nat, p: nat, q: nat)
    requires cfg.interval > 0 && Spaced(cfg, hs, now)
    requires p in Within(hs, from, span) && q in Within(hs, from, span) && p <= q
    ensures q < p + (span / cfg.interval + 2)
  {
    if p < q {
      DuesSpread(cfg, hs, now, p, q);
      Quotient(q - p - 1, span, cfg.interval);
    }
  }

  lemma SpacedBound(cfg: Config, hs: seq<Handoff>, now: nat, from: nat, span: nat)
    requires cfg.interval > 0 && Spaced(cfg, hs, now)
    ensures |Within(hs, from, span)| <= span / cfg.interval + 2
  {
    var w := Within(hs, from, span);
    if w != {} {
      var p := First(w);
      forall q | q in w
        ensures p <= q < p + (span / cfg.interval + 2)
      {
        PairBound(cfg, hs, now, from, span, p, q);
      }
      IntervalSize(w, p, span / cfg.interval + 2);
    }
  }

  /** No window of length `span` sees more than span / interval + 2 hand-offs, whatever stops and
      restarts fall into it. */
  lemma PacingBound(cfg: Config, schedule: seq<Label>, from: nat, span: nat)
    requires cfg.interval > 0
    requires LaunchesAlone(cfg, schedule) && Exec(cfg, schedule).Some?
    ensures |Within(Exec(cfg, schedule).value.g.log.handoffs, from, span)| <= span / cfg.interval + 2
  {
    ExecPaced(cfg, schedule);
    SpacedBound(cfg, Exec(cfg, schedule).value.g.log.handoffs, Exec(cfg, schedule).value.g.now, from, span);
  }

  // ---------------------------------------------------------------- every ticker fires in time

  ghost predicate Timely(cfg: Config, s: State) {
    forall t | 0 <= t < |s.threads| && Ticking(s.threads[t]) ::
      s.g.now <= s.threads[t].role.ticker.value.nextDue <= s.g.now + cfg.interval
  }

  lemma StepTimely(cfg: Config, s: State, t: Tid, c: Choice)
    requires Threads(s) && Timely(cfg, s) && t < |s.threads| && Act(cfg, s.g, t, s.threads[t], c).Some?
    ensures Timely(cfg, Apply(s, t, Act(cfg, s.g, t, s.threads[t], c).value))
  {
    var th := s.threads[t];
    assert Local(s.g, s.workers, t, th);
    if !(th.role.Worker? && TakesTick(th.pc, c)) {
      ActTicker(cfg, s.g, t, th, c);
    }
  }

  lemma QuietTimely(cfg: Config, s: State, l: Label)
    requires Timely(cfg, s) && Next(cfg, s, l).Some? && !l.Go?
    ensures Timely(cfg, Next(cfg, s, l).value)
  {
  }

  lemma {:induction false} ExecTimely(cfg: Config, schedule: seq<Label>)
    requires Exec(cfg, schedule).Some?
    ensures Timely(cfg, Exec(cfg, schedule).value)
  {
    if schedule != [] {
      var n := |schedule| - 1;
      ExecTimely(cfg, schedule[..n]);
      ExecInv(cfg, schedule[..n]);
      if schedule[n].Go? {
        StepTimely(cfg, Exec(cfg, schedule[..n]).value, schedule[n].t, schedule[n].c);
      } else {
        QuietTimely(cfg, Exec(cfg, schedule[..n]).value, schedule[n]);
      }
    }
  }

  /** In every interleaving the ticker of a worker is due within an interval, and when it is due it fires: then a tick
      is waiting for the worker's select. */
  lemma TicksComeInTime(cfg: Config, schedule: seq<Label>, t: Tid)
    requires Exec(cfg, schedule).Some? && t < |Exec(cfg, schedule).value.threads|
    requires Ticking(Exec(cfg, schedule).value.threads[t])
    ensures var s := Exec(cfg, schedule).value;
            var due := s.threads[t].role.ticker.value.nextDue;
            && s.g.now <= due <= s.g.now + cfg.interval
            && (due == s.g.now ==>
                  && Exec(cfg, schedule + [Tick(t)]).Some?
                  && var ticker := Exec(cfg, schedule + [Tick(t)]).value.threads[t].role.ticker.value;
                     ticker.tick.Some? && ticker.nextDue == s.g.now + cfg.interval)
  {
    ExecTimely(cfg, schedule);
    assert (schedule + [Tick(t)])[..|schedule|] == schedule;
  }
}
