/**
  The exact condition, over every interleaving, for a connected session to have a worker: no StopAndDrop
  empties and stops the queue of a session that is connected again.
 */
module GatewayServed {
  import opened GatewaySystem
  import opened GatewayInvariants
  import opened GatewayLedger
  import opened GatewayDiscipline

  /** Some Connect has adopted its connection and is about to start the queue. */
  predicate AnyStarting(s: State) {
    exists t :: 0 <= t < |s.threads| && StationOf(s.threads[t].pc) == Starting
  }

  predicate Served(s: State) {
    s.g.registry.Connected() ==> s.g.queue.Running() || AnyStarting(s)
  }

  /** The queue's worker has not ended, and nobody has closed its stop channel. */
  predicate LiveWorker(s: State) {
    && s.g.queue.Running() && s.g.queue.channels.value !in s.g.channels.stopClosed
    && s.g.queue.channels.value < |s.workers| && s.workers[s.g.queue.channels.value] < |s.threads|
    && !s.threads[s.workers[s.g.queue.channels.value]].pc.Done?
  }

  lemma StartingHoldsLock(cfg: Config, s: State)
    requires Inv(cfg, s)
    ensures AnyStarting(s) ==> s.g.locks.writer.Some?
  {
    if t :| 0 <= t < |s.threads| && StationOf(s.threads[t].pc) == Starting {
      assert Local(s.g, s.workers, t, s.threads[t]);
    }
  }

  /** StopAndDrop's critical section, entered while the session is connected and nobody is starting its queue. */
  predicate StopsLate(s: State, l: Label) {
    && l.Go? && l.t < |s.threads| && s.threads[l.t].pc == HoldQ(StopQueue)
    && s.g.registry.Connected() && !AnyStarting(s)
  }

  ghost predicate NoLateStop(cfg: Config, schedule: seq<Label>) {
    schedule == [] ||
    var n := |schedule| - 1;
    && NoLateStop(cfg, schedule[..n])
    && (Exec(cfg, schedule[..n]).Some? ==> !StopsLate(Exec(cfg, schedule[..n]).value, schedule[n]))
  }

  ghost predicate AlwaysServed(cfg: Config, schedule: seq<Label>) {
    && (Exec(cfg, schedule).Some? ==> Served(Exec(cfg, schedule).value))
    && (schedule == [] || AlwaysServed(cfg, schedule[..|schedule| - 1]))
  }

  // ---------------------------------------------------------------- one step

  /** Whoever starts, or was starting and has not started the queue, keeps it served; the others change nothing. */
  lemma StepServed(cfg: Config, s: State, t: Tid, c: Choice)
    requires Inv(cfg, s) && Served(s) && t < |s.threads| && Act(cfg, s.g, t, s.threads[t], c).Some?
    requires s.threads[t].pc != HoldQ(StopQueue)
    ensures Served(Apply(s, t, Act(cfg, s.g, t, s.threads[t], c).value))
  {
    var e := Act(cfg, s.g, t, s.threads[t], c).value;
    var s' := Apply(s, t, e);
    assert Local(s.g, s.workers, t, s.threads[t]);
    ActServed(cfg, s.g, t, s.threads[t], c);
    if !s.g.registry.Connected() && e.g.registry.Connected() {
      assert StationOf(s'.threads[t].pc) == Starting;
    } else if e.g.registry.Connected() && AnyStarting(s) && !e.g.queue.Running() {
      var u :| 0 <= u < |s.threads| && StationOf(s.threads[u].pc) == Starting;
      assert StationOf(s'.threads[u].pc) == Starting;
    }
  }

  /** What one goroutine's step does for the session's queue, other than the section of StopAndDrop. */
  predicate Serves(g: Shared, pc: Pc, e: Effect) {
    && (g.queue.Running() ==> e.g.queue.Running())
    && (e.g.registry.Connected() ==> g.registry.Connected() || StationOf(e.th.pc) == Starting)
    && (StationOf(pc) == Starting ==> StationOf(e.th.pc) == Starting || e.g.queue.Running())
  }

  lemma ActServed(cfg: Config, g: Shared, t: Tid, th: Thread, c: Choice)
    requires Act(cfg, g, t, th, c).Some? && th.pc != HoldQ(StopQueue) && RegistryOK(g.registry)
    ensures Serves(g, th.pc, Act(cfg, g, t, th, c).value)
  {
    match th.pc
    case HoldQ(job) => match job { case StartWorker(_) => case PutCommand(_) => case PopCommand => case _ => }
    case DrainMu(job) => match job { case Adopt(_) => case Leave(_) => case _ => }
    case _ =>
      ActQueueFrame(cfg, g, t, th, c);
      ActRegistryFrame(cfg, g, t, th, c);
  }

  lemma StopServed(cfg: Config, s: State, t: Tid, c: Choice)
    requires t < |s.threads| && s.threads[t].pc == HoldQ(StopQueue)
    ensures Act(cfg, s.g, t, s.threads[t], c).Some?
    ensures Served(Apply(s, t, Act(cfg, s.g, t, s.threads[t], c).value)) <==> !StopsLate(s, Go(t, c))
  {
    var e := Act(cfg, s.g, t, s.threads[t], c).value;
    var s' := Apply(s, t, e);
    assert e.launched.None? && StationOf(e.th.pc) != Starting && StationOf(s.threads[t].pc) != Starting;
    assert e.g.registry == s.g.registry && !e.g.queue.Running();
    assert forall u | 0 <= u < |s.threads| && u != t :: s'.threads[u] == s.threads[u];
  }

  lemma QuietServed(cfg: Config, s: State, l: Label)
    requires Served(s) && Next(cfg, s, l).Some? && !l.Go?
    ensures Served(Next(cfg, s, l).value)
  {
    var s' := Next(cfg, s, l).value;
    QuietBooks(cfg, s, l);
    assert forall u | 0 <= u < |s.threads| :: s'.threads[u].pc == s.threads[u].pc;
    if AnyStarting(s) {
      var u :| 0 <= u < |s.threads| && StationOf(s.threads[u].pc) == Starting;
      assert StationOf(s'.threads[u].pc) == Starting;
    }
  }

  // ---------------------------------------------------------------- every interleaving

  /** A connected session always has a running queue, or a Connect about to start it, if and only if no
      StopAndDrop comes late. */
  lemma {:induction false} ServedExactly(cfg: Config, schedule: seq<Label>)
    requires Exec(cfg, schedule).Some?
    ensures AlwaysServed(cfg, schedule) <==> NoLateStop(cfg, schedule)
  {
    if schedule != [] {
      var n := |schedule| - 1;
      var s, l := Exec(cfg, schedule[..n]).value, schedule[n];
      ServedExactly(cfg, schedule[..n]);
      ExecInv(cfg, schedule[..n]);
      if l.Go? && s.threads[l.t].pc == HoldQ(StopQueue) {
        StopServed(cfg, s, l.t, l.c);
      } else if AlwaysServed(cfg, schedule[..n]) {
        assert Served(s);
        if l.Go? {
          StepServed(cfg, s, l.t, l.c);
        } else {
          QuietServed(cfg, s, l);
        }
      }
    }
  }

  /** Under the reconnect discipline no StopAndDrop comes late: who stops is still inside the window. */
  lemma {:induction false} DisciplineStopsInTime(cfg: Config, schedule: seq<Label>)
    requires Disciplined(cfg, schedule) && Exec(cfg, schedule).Some?
    ensures NoLateStop(cfg, schedule)
  {
    if schedule != [] {
      var n := |schedule| - 1;
      var s, l := Exec(cfg, schedule[..n]).value, schedule[n];
      DisciplineStopsInTime(cfg, schedule[..n]);
      ExecOrderly(cfg, schedule[..n]);
      if StopsLate(s, l) {
        SumAtLeast(s.threads, l.t, ValueOf(InWindow));
      }
    }
  }
}
