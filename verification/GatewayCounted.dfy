/**
  What a schedule says the counters must show: the outcome of each call of the sender, the verdict on each command
  put, and the exact condition for every dropped command to be counted.
 */
module GatewayCounted {
  import opened GatewaySystem
  import opened GatewayInvariants
  import opened GatewayLedger

  // ---------------------------------------------------------------- attempts and their outcomes

  /** How the step ends a call of the sender: a write succeeds or fails, or there is no connection to write to. */
  predicate Ends(s: State, l: Label, ok: bool) {
    && l.Go? && l.t < |s.threads| && s.threads[l.t].role.Worker?
    && var pc := s.threads[l.t].pc;
       || (pc.Writing? && ok == (l.c == Good))
       || (pc.HoldRead? && s.g.registry.Target(s.threads[l.t].role.sid).None? && !ok)
  }

  /** How many calls of the sender the schedule ends with this outcome. */
  ghost function Outcomes(cfg: Config, schedule: seq<Label>, ok: bool): nat {
    if schedule == [] then 0
    else
      var n := |schedule| - 1;
      Outcomes(cfg, schedule[..n], ok)
      + (if Exec(cfg, schedule[..n]).Some? && Ends(Exec(cfg, schedule[..n]).value, schedule[n], ok) then 1 else 0)
  }

  lemma NextOutcome(cfg: Config, s: State, l: Label, ok: bool)
    requires Inv(cfg, s) && Next(cfg, s, l).Some?
    ensures Sum(Next(cfg, s, l).value.g.log.attempts, EndedOf(ok)) ==
            Sum(s.g.log.attempts, EndedOf(ok)) + Bit(Ends(s, l, ok))
  {
    if l.Go? {
      var th := s.threads[l.t];
      assert Local(s.g, s.workers, l.t, th);
      if Returns(s.g, th) {
        var a := SenderAttempts(cfg, s.g, l.t, th, l.c);
        SumAppend(s.g.log.attempts, a, EndedOf(ok));
      } else {
        ActTriesNothing(cfg, s.g, l.t, th, l.c);
      }
    }
  }

  lemma ActTriesNothing(cfg: Config, g: Shared, t: Tid, th: Thread, c: Choice)
    requires Act(cfg, g, t, th, c).Some? && !Returns(g, th)
    ensures Act(cfg, g, t, th, c).value.g.log.attempts == g.log.attempts
  {
    if !AtLock(th.pc) {
      match th.role case Caller => case Reader(_) => case Worker(_, _, _) =>
    }
  }

  lemma {:induction false} AttemptsAreOutcomes(cfg: Config, schedule: seq<Label>, ok: bool)
    requires Exec(cfg, schedule).Some?
    ensures Sum(Exec(cfg, schedule).value.g.log.attempts, EndedOf(ok)) == Outcomes(cfg, schedule, ok)
  {
    if schedule != [] {
      var n := |schedule| - 1;
      ExecInv(cfg, schedule[..n]);
      AttemptsAreOutcomes(cfg, schedule[..n], ok);
      NextOutcome(cfg, Exec(cfg, schedule[..n]).value, schedule[n], ok);
    }
  }

  // ---------------------------------------------------------------- commands put and their verdicts

  /** The critical section of Enqueue, with room for the command or without. */
  predicate Puts(cfg: Config, s: State, l: Label, accepted: bool) {
    && l.Go? && l.t < |s.threads| && s.threads[l.t].pc.HoldQ? && s.threads[l.t].pc.qjob.PutCommand?
    && accepted == (|s.g.queue.commands| < cfg.maxDepth)
  }

  ghost function Verdicts(cfg: Config, schedule: seq<Label>, accepted: bool): nat {
    if schedule == [] then 0
    else
      var n := |schedule| - 1;
      Verdicts(cfg, schedule[..n], accepted)
      + (if Exec(cfg, schedule[..n]).Some? && Puts(cfg, Exec(cfg, schedule[..n]).value, schedule[n], accepted)
         then 1 else 0)
  }

  /** A command is accepted exactly if fewer than maxDepth wait; it is then the last in the queue, with its text and
      its connection. Otherwise only the counter of rejected commands moves. */
  lemma PutOutcome(cfg: Config, s: State, l: Label)
    requires Puts(cfg, s, l, true) || Puts(cfg, s, l, false)
    ensures Next(cfg, s, l).Some?
    ensures var g, g' := s.g, Next(cfg, s, l).value.g;
            var x := Item(s.threads[l.t].pc.qjob.text, |g.log.accepted|, CurrentConn(g.registry));
            if |g.queue.commands| < cfg.maxDepth then
              && g'.log == g.log.(accepted := g.log.accepted + [x])
              && g'.queue == g.queue.(commands := g.queue.commands + [x])
              && g'.metrics == g.metrics.(depth := |g.queue.commands| + 1)
            else
              && g'.log == g.log && g'.queue == g.queue && g'.metrics == g.metrics.(rejected := g.metrics.rejected + 1)
  {
  }

  lemma NextVerdict(cfg: Config, s: State, l: Label)
    requires Next(cfg, s, l).Some?
    ensures var g, g' := s.g, Next(cfg, s, l).value.g;
            && |g'.log.accepted| == |g.log.accepted| + Bit(Puts(cfg, s, l, true))
            && g'.metrics.rejected == g.metrics.rejected + Bit(Puts(cfg, s, l, false))
  {
    if Puts(cfg, s, l, true) || Puts(cfg, s, l, false) {
      PutOutcome(cfg, s, l);
    } else if l.Go? {
      ActRejectsNothing(cfg, s.g, l.t, s.threads[l.t], l.c);
    }
  }

  lemma ActRejectsNothing(cfg: Config, g: Shared, t: Tid, th: Thread, c: Choice)
    requires Act(cfg, g, t, th, c).Some? && !(th.pc.HoldQ? && th.pc.qjob.PutCommand?)
    ensures var g' := Act(cfg, g, t, th, c).value.g;
            g'.log.accepted == g.log.accepted && g'.metrics.rejected == g.metrics.rejected
  {
    if th.pc.HoldQ? {
      match th.pc.qjob case StopQueue => case StartWorker(_) => case _ =>
    } else if !AtLock(th.pc) {
      RoleRejectsNothing(cfg, g, t, th, c);
    }
  }

  lemma RoleRejectsNothing(cfg: Config, g: Shared, t: Tid, th: Thread, c: Choice)
    requires Act(cfg, g, t, th, c).Some? && !AtLock(th.pc)
    ensures var g' := Act(cfg, g, t, th, c).value.g;
            g'.log.accepted == g.log.accepted && g'.metrics.rejected == g.metrics.rejected
  {
    match th.role case Caller => case Reader(_) => case Worker(_, _, _) =>
  }

  lemma {:induction false} VerdictsCounted(cfg: Config, schedule: seq<Label>)
    requires Exec(cfg, schedule).Some?
    ensures var g := Exec(cfg, schedule).value.g;
            |g.log.accepted| == Verdicts(cfg, schedule, true) && g.metrics.rejected == Verdicts(cfg, schedule, false)
  {
    if schedule != [] {
      var n := |schedule| - 1;
      VerdictsCounted(cfg, schedule[..n]);
      NextVerdict(cfg, Exec(cfg, schedule[..n]).value, schedule[n]);
    }
  }

  // ---------------------------------------------------------------- dropped and not counted

  /** StopAndDrop's critical section finds commands in a queue without a worker, and returns before it counts them. */
  predicate DropsUncounted(s: State, l: Label) {
    && l.Go? && l.t < |s.threads| && s.threads[l.t].pc == HoldQ(StopQueue)
    && !s.g.queue.Running() && s.g.queue.commands != []
  }

  ghost predicate DropsCounted(cfg: Config, schedule: seq<Label>) {
    schedule == [] ||
    var n := |schedule| - 1;
    && DropsCounted(cfg, schedule[..n])
    && (Exec(cfg, schedule[..n]).Some? ==> !DropsUncounted(Exec(cfg, schedule[..n]).value, schedule[n]))
  }

  lemma NextUncounted(cfg: Config, s: State, l: Label)
    requires Next(cfg, s, l).Some?
    ensures Next(cfg, s, l).value.g.log.uncounted ==
            s.g.log.uncounted + (if DropsUncounted(s, l) then |s.g.queue.commands| else 0)
  {
    if l.Go? {
      var th := s.threads[l.t];
      if th.pc.HoldQ? {
        match th.pc.qjob { case StopQueue => case StartWorker(_) => case PutCommand(_) => case _ => }
      } else {
        ActQueueFrame(cfg, s.g, l.t, th, l.c);
      }
    }
  }

  lemma {:induction false} UncountedExactly(cfg: Config, schedule: seq<Label>)
    requires Exec(cfg, schedule).Some?
    ensures Exec(cfg, schedule).value.g.log.uncounted == 0 <==> DropsCounted(cfg, schedule)
  {
    if schedule != [] {
      var n := |schedule| - 1;
      UncountedExactly(cfg, schedule[..n]);
      NextUncounted(cfg, Exec(cfg, schedule[..n]).value, schedule[n]);
    }
  }
}
