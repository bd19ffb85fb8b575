/**
  The gateway under the reconnect discipline: no connection is adopted while a disconnect is still
  between `connected = false` and the end of its StopAndDrop.
 */
module GatewayDiscipline {
  import opened GatewayMetrics
  import opened GatewaySystem
  import opened GatewayInvariants
  import opened GatewayLedger

  /** The step makes a dialled connection the session's connection. */
  predicate Adopts(s: State, l: Label) {
    && l.Go? && l.t < |s.threads| && s.threads[l.t].pc.DrainMu? && s.threads[l.t].pc.job.Adopt?
    && !s.g.registry.Connected()
  }

  ghost predicate Disciplined(cfg: Config, schedule: seq<Label>) {
    schedule == [] ||
    var n := |schedule| - 1;
    && Disciplined(cfg, schedule[..n])
    && (Exec(cfg, schedule[..n]).Some? ==>
          var s := Exec(cfg, schedule[..n]).value;
          Adopts(s, schedule[n]) ==> Total(s.threads, InWindow) == 0)
  }

  /** Where a goroutine stands with respect to starting and stopping the worker. */
  datatype Station = Elsewhere | Starting | Leaving | Stopping(gen: Gen) | Counting

  function StationOf(pc: Pc): Station {
    if (pc.WantQ? || pc.HoldQ?) && pc.qjob.StartWorker? then Starting
    else if BeforeClearing(pc) then Leaving
    else if pc.CloseStop? || pc.AwaitDone? then Stopping(pc.gen)
    else if pc.CountTotal? || pc.CountSession? then Counting
    else Elsewhere
  }

  predicate AllDone(s: State) {
    forall g | 0 <= g < |s.workers| :: g in s.g.channels.doneClosed
  }

  predicate OthersDone(s: State) {
    forall g | 0 <= g < |s.workers| - 1 :: g in s.g.channels.doneClosed
  }

  predicate StationOK(s: State, pc: Pc) {
    match StationOf(pc)
    case Elsewhere => true
    case Starting => !s.g.queue.Running() && AllDone(s)
    case Leaving => s.g.queue.Running()
    case Stopping(g) => !s.g.queue.Running() && g == |s.workers| - 1
    case Counting => !s.g.queue.Running() && AllDone(s)
  }

  /** One disconnect at a time, and a worker exactly while the session is connected or being left. */
  ghost predicate Orderly(s: State) {
    && (forall t | 0 <= t < |s.threads| :: StationOK(s, s.threads[t].pc))
    && Total(s.threads, InWindow) <= (if s.g.registry.Connected() then 0 else 1)
    && OthersDone(s)
    && (s.g.registry.Connected() && !s.g.queue.Running() ==>
          s.g.locks.writer.Some? && s.g.locks.writer.value < |s.threads|
          && StationOf(s.threads[s.g.locks.writer.value].pc) == Starting)
    && (!s.g.registry.Connected() && Total(s.threads, InWindow) == 0 ==> !s.g.queue.Running() && AllDone(s))
    && s.g.log.uncounted == 0
  }

  lemma WindowStations(pc: Pc)
    ensures Value(pc, InWindow) == Bit(!StationOf(pc).Elsewhere? && !StationOf(pc).Starting?)
  {
  }

  /** Two goroutines are never inside the window at once. */
  lemma WindowIsExclusive(s: State, t: Tid, u: Tid)
    requires t < |s.threads| && u < |s.threads| && t != u && Total(s.threads, InWindow) <= 1
    requires Value(s.threads[t].pc, InWindow) == 1
    ensures Value(s.threads[u].pc, InWindow) == 0
  {
    SumAtLeastTwo(s.threads, if t < u then t else u, if t < u then u else t, ValueOf(InWindow));
  }

  /** Only these program points move a goroutine between stations. */
  predicate Pivotal(pc: Pc) {
    || (pc.DrainMu? && (pc.job.Adopt? || pc.job.Leave?))
    || (pc.HoldQ? && (pc.qjob.StartWorker? || pc.qjob.StopQueue?))
    || pc.AwaitDone? || pc.CountTotal? || pc.CountSession?
  }

  /** Everywhere else the goroutine keeps its station ... */
  lemma ActStation(cfg: Config, g: Shared, t: Tid, th: Thread, c: Choice)
    requires Act(cfg, g, t, th, c).Some? && !Pivotal(th.pc)
    ensures StationOf(Act(cfg, g, t, th, c).value.th.pc) == StationOf(th.pc)
  {
    if AtLock(th.pc) {
      LockStation(cfg, g, t, th, c);
    } else {
      match th.role {
        case Caller => CallerStation(g, th, c);
        case Reader(sid) => ReaderStation(g, th, sid, c);
        case Worker(_, _, _) => WorkerStation(cfg, g, t, th, c);
      }
    }
  }

  lemma CallerStation(g: Shared, th: Thread, c: Choice)
    requires CallerAct(g, th, c).Some? && !Pivotal(th.pc)
    ensures StationOf(CallerAct(g, th, c).value.th.pc) == StationOf(th.pc)
  {
  }

  lemma ReaderStation(g: Shared, th: Thread, sid: SessionId, c: Choice)
    requires ReaderAct(g, th, sid, c).Some? && !Pivotal(th.pc)
    ensures StationOf(ReaderAct(g, th, sid, c).value.th.pc) == StationOf(th.pc)
  {
  }

  lemma WorkerStation(cfg: Config, g: Shared, t: Tid, th: Thread, c: Choice)
    requires th.role.Worker? && WorkerAct(cfg, g, t, th, c).Some? && !Pivotal(th.pc)
    ensures StationOf(WorkerAct(cfg, g, t, th, c).value.th.pc) == StationOf(th.pc)
  {
  }

  lemma LockStation(cfg: Config, g: Shared, t: Tid, th: Thread, c: Choice)
    requires Act(cfg, g, t, th, c).Some? && !Pivotal(th.pc) && AtLock(th.pc)
    ensures StationOf(Act(cfg, g, t, th, c).value.th.pc) == StationOf(th.pc)
  {
    match th.pc
    case HoldQ(job) => match job { case PutCommand(_) => case PopCommand => case _ => }
    case DrainMu(_) =>
    case _ =>
  }

  /** ... and the step changes nothing that the discipline speaks about. */
  lemma ActCalm(cfg: Config, g: Shared, t: Tid, th: Thread, c: Choice)
    requires Act(cfg, g, t, th, c).Some? && !Pivotal(th.pc)
    ensures var e := Act(cfg, g, t, th, c).value;
            && e.g.registry.Connected() == g.registry.Connected()
            && e.g.queue.channels == g.queue.channels
            && e.g.log.uncounted == g.log.uncounted
            && (e.launched.Some? ==> e.launched.value.role.Reader?)
  {
    match th.pc
    case HoldQ(job) => match job { case PutCommand(_) => case PopCommand => case _ => }
    case DrainMu(job) => match job { case Submit(_) => case _ => }
    case _ =>
      ActQueueFrame(cfg, g, t, th, c);
      ActRegistryFrame(cfg, g, t, th, c);
  }

  /** A step that keeps the goroutine's station keeps the order. */
  lemma SameStationOrderly(s: State, t: Tid, e: Effect)
    requires Threads(s) && Orderly(s) && t < |s.threads|
    requires StationOf(e.th.pc) == StationOf(s.threads[t].pc)
    requires e.launched.Some? ==> e.launched.value.pc.Reading? && e.launched.value.role.Reader?
    requires e.g.registry.Connected() == s.g.registry.Connected()
    requires e.g.queue.channels == s.g.queue.channels && e.g.log.uncounted == s.g.log.uncounted
    requires s.g.channels.doneClosed <= e.g.channels.doneClosed
    requires LockFrame(s.g.locks, e.g.locks, t) && LocksLocal(e.g.locks, t, e.th.pc)
    ensures Orderly(Apply(s, t, e))
  {
    var s' := Apply(s, t, e);
    EffectTotals(s, t, e);
    WindowStations(s.threads[t].pc);
    WindowStations(e.th.pc);
    assert Local(s.g, s.workers, t, s.threads[t]);
    forall u | 0 <= u < |s'.threads|
      ensures StationOK(s', s'.threads[u].pc)
    {
      assert u < |s.threads| ==> StationOK(s, s.threads[u].pc);
    }
  }

  lemma CalmStepOrderly(cfg: Config, s: State, t: Tid, c: Choice)
    requires Inv(cfg, s) && Orderly(s) && t < |s.threads|
    requires Act(cfg, s.g, t, s.threads[t], c).Some? && !Pivotal(s.threads[t].pc)
    ensures Orderly(Apply(s, t, Act(cfg, s.g, t, s.threads[t], c).value))
  {
    var th := s.threads[t];
    assert Local(s.g, s.workers, t, th);
    ActStation(cfg, s.g, t, th, c);
    ActCalm(cfg, s.g, t, th, c);
    ActRegistryFrame(cfg, s.g, t, th, c);
    ActLockFrame(cfg, s.g, t, th, c);
    ActKeeps(cfg, s.g, s.workers, t, th, c);
    SameStationOrderly(s, t, Act(cfg, s.g, t, th, c).value);
  }

  // ---------------------------------------------------------------- the pivotal steps

  lemma AdoptOrderly(cfg: Config, s: State, t: Tid, c: Choice)
    requires Inv(cfg, s) && Orderly(s) && t < |s.threads| && Act(cfg, s.g, t, s.threads[t], c).Some?
    requires s.threads[t].pc.DrainMu? && s.threads[t].pc.job.Adopt?
    requires !s.g.registry.Connected() ==> Total(s.threads, InWindow) == 0
    ensures Orderly(Apply(s, t, Act(cfg, s.g, t, s.threads[t], c).value))
  {
    var e := Act(cfg, s.g, t, s.threads[t], c).value;
    var s' := Apply(s, t, e);
    assert Local(s.g, s.workers, t, s.threads[t]);
    EffectTotals(s, t, e);
    forall u | 0 <= u < |s'.threads|
      ensures StationOK(s', s'.threads[u].pc)
    {
      assert StationOK(s, s.threads[u].pc);
      SumAtLeast(s.threads, u, ValueOf(InWindow));
      WindowStations(s.threads[u].pc);
    }
  }

  /** disconnect's critical section: it leaves a connected session, or finds nothing to leave. */
  predicate Leaves(g: Shared, e: Effect) {
    && e.launched.None? && e.g == g.(registry := e.g.registry)
    && (|| (g.registry.Connected() && !e.g.registry.Connected() && StationOf(e.th.pc) == Leaving)
        || (e.g.registry.Connected() == g.registry.Connected() && StationOf(e.th.pc) == Elsewhere))
  }

  lemma LeaveEffect(cfg: Config, g: Shared, t: Tid, th: Thread, c: Choice)
    requires Act(cfg, g, t, th, c).Some? && th.pc.DrainMu? && th.pc.job.Leave? && RegistryOK(g.registry)
    ensures Leaves(g, Act(cfg, g, t, th, c).value)
  {
  }

  lemma LeftOrderly(cfg: Config, s: State, t: Tid, e: Effect)
    requires Inv(cfg, s) && Orderly(s) && t < |s.threads| && Leaves(s.g, e)
    requires s.threads[t].pc.DrainMu? && s.threads[t].pc.job.Leave?
    ensures Orderly(Apply(s, t, e))
  {
    var s' := Apply(s, t, e);
    assert Local(s.g, s.workers, t, s.threads[t]);
    EffectTotals(s, t, e);
    WindowStations(s.threads[t].pc);
    WindowStations(e.th.pc);
    forall u | 0 <= u < |s'.threads|
      ensures StationOK(s', s'.threads[u].pc)
    {
      assert StationOK(s, s.threads[u].pc);
    }
  }

  lemma LeaveOrderly(cfg: Config, s: State, t: Tid, c: Choice)
    requires Inv(cfg, s) && Orderly(s) && t < |s.threads| && Act(cfg, s.g, t, s.threads[t], c).Some?
    requires s.threads[t].pc.DrainMu? && s.threads[t].pc.job.Leave?
    ensures Orderly(Apply(s, t, Act(cfg, s.g, t, s.threads[t], c).value))
  {
    LeaveEffect(cfg, s.g, t, s.threads[t], c);
    LeftOrderly(cfg, s, t, Act(cfg, s.g, t, s.threads[t], c).value);
  }

  lemma StartOrderly(cfg: Config, s: State, t: Tid, c: Choice)
    requires Inv(cfg, s) && Orderly(s) && t < |s.threads| && Act(cfg, s.g, t, s.threads[t], c).Some?
    requires s.threads[t].pc.HoldQ? && s.threads[t].pc.qjob.StartWorker?
    ensures Orderly(Apply(s, t, Act(cfg, s.g, t, s.threads[t], c).value))
  {
    var e := Act(cfg, s.g, t, s.threads[t], c).value;
    var s' := Apply(s, t, e);
    assert Local(s.g, s.workers, t, s.threads[t]) && StationOK(s, s.threads[t].pc);
    EffectTotals(s, t, e);
    forall u | 0 <= u < |s'.threads|
      ensures StationOK(s', s'.threads[u].pc)
    {
      if u < |s.threads| {
        assert StationOK(s, s.threads[u].pc) && Local(s.g, s.workers, u, s.threads[u]);
        SumAtLeast(s.threads, u, ValueOf(InWindow));
        WindowStations(s.threads[u].pc);
      }
    }
  }

  /** StopAndDrop's critical section: it stops a running worker, and otherwise returns. */
  predicate Stops(g: Shared, e: Effect) {
    && e.launched.None? && e.g.registry == g.registry && !e.g.queue.Running()
    && e.g.channels == g.channels && e.g.locks.writer == g.locks.writer
    && (g.queue.Running() ==>
          e.g.log.uncounted == g.log.uncounted && StationOf(e.th.pc) == Stopping(g.queue.channels.value))
  }

  lemma StopEffect(cfg: Config, g: Shared, t: Tid, th: Thread, c: Choice)
    requires th.pc == HoldQ(StopQueue)
    ensures Act(cfg, g, t, th, c).Some? && Stops(g, Act(cfg, g, t, th, c).value)
  {
  }

  lemma StoppedOrderly(cfg: Config, s: State, t: Tid, e: Effect)
    requires Inv(cfg, s) && Orderly(s) && t < |s.threads| && s.threads[t].pc == HoldQ(StopQueue) && Stops(s.g, e)
    ensures Orderly(Apply(s, t, e))
  {
    var s' := Apply(s, t, e);
    assert Local(s.g, s.workers, t, s.threads[t]) && StationOK(s, s.threads[t].pc);
    EffectTotals(s, t, e);
    WindowStations(s.threads[t].pc);
    WindowStations(e.th.pc);
    SumAtLeast(s.threads, t, ValueOf(InWindow));
    forall u | 0 <= u < |s'.threads|
      ensures StationOK(s', s'.threads[u].pc)
    {
      if u != t {
        assert StationOK(s, s.threads[u].pc) && Local(s.g, s.workers, u, s.threads[u]);
        WindowIsExclusive(s, t, u);
        WindowStations(s.threads[u].pc);
      }
    }
  }

  /** StopAndDrop: empties the queue, waits for the worker and counts. */
  lemma StopOrderly(cfg: Config, s: State, t: Tid, c: Choice)
    requires Inv(cfg, s) && Orderly(s) && t < |s.threads| && Act(cfg, s.g, t, s.threads[t], c).Some?
    requires s.threads[t].pc == HoldQ(StopQueue)
    ensures Orderly(Apply(s, t, Act(cfg, s.g, t, s.threads[t], c).value))
  {
    StopEffect(cfg, s.g, t, s.threads[t], c);
    StoppedOrderly(cfg, s, t, Act(cfg, s.g, t, s.threads[t], c).value);
  }

  /** Once its worker has answered, disconnect has only counters left to move. */
  lemma SettledOrderly(s: State, t: Tid, e: Effect)
    requires Threads(s) && Orderly(s) && t < |s.threads| && e.launched.None?
    requires StationOf(s.threads[t].pc).Stopping? || StationOf(s.threads[t].pc).Counting?
    requires StationOf(e.th.pc) in {Counting, Elsewhere} && AllDone(s)
    requires e.g == s.g.(metrics := e.g.metrics)
    ensures Orderly(Apply(s, t, e))
  {
    var s' := Apply(s, t, e);
    EffectTotals(s, t, e);
    SumAtLeast(s.threads, t, ValueOf(InWindow));
    WindowStations(s.threads[t].pc);
    WindowStations(e.th.pc);
    assert StationOK(s, s.threads[t].pc);
    forall u | 0 <= u < |s'.threads|
      ensures StationOK(s', s'.threads[u].pc)
    {
      assert StationOK(s, s.threads[u].pc);
    }
  }

  lemma ActSettles(cfg: Config, g: Shared, t: Tid, th: Thread, c: Choice)
    requires Act(cfg, g, t, th, c).Some? && ShapeLocal(th)
    requires th.pc.AwaitDone? || th.pc.CountTotal? || th.pc.CountSession?
    ensures var e := Act(cfg, g, t, th, c).value;
            && e.g == g.(metrics := e.g.metrics) && e.launched.None?
            && StationOf(e.th.pc) in {Counting, Elsewhere}
            && (th.pc.AwaitDone? ==> th.pc.gen in g.channels.doneClosed)
  {
    match th.role case Caller => case Reader(_) => case Worker(_, _, _) =>
  }

  lemma DrainOrderly(cfg: Config, s: State, t: Tid, c: Choice)
    requires Inv(cfg, s) && Orderly(s) && t < |s.threads| && Act(cfg, s.g, t, s.threads[t], c).Some?
    requires s.threads[t].pc.AwaitDone? || s.threads[t].pc.CountTotal? || s.threads[t].pc.CountSession?
    ensures Orderly(Apply(s, t, Act(cfg, s.g, t, s.threads[t], c).value))
  {
    assert Local(s.g, s.workers, t, s.threads[t]) && StationOK(s, s.threads[t].pc);
    ActSettles(cfg, s.g, t, s.threads[t], c);
    SettledOrderly(s, t, Act(cfg, s.g, t, s.threads[t], c).value);
  }

  lemma NextOrderly(cfg: Config, s: State, l: Label)
    requires Inv(cfg, s) && Orderly(s) && Next(cfg, s, l).Some?
    requires Adopts(s, l) ==> Total(s.threads, InWindow) == 0
    ensures Orderly(Next(cfg, s, l).value)
  {
    if l.Go? {
      var pc := s.threads[l.t].pc;
      if !Pivotal(pc) { CalmStepOrderly(cfg, s, l.t, l.c); }
      else if pc.DrainMu? && pc.job.Adopt? { AdoptOrderly(cfg, s, l.t, l.c); }
      else if pc.DrainMu? { LeaveOrderly(cfg, s, l.t, l.c); }
      else if pc.HoldQ? && pc.qjob.StartWorker? { StartOrderly(cfg, s, l.t, l.c); }
      else if pc.HoldQ? { StopOrderly(cfg, s, l.t, l.c); }
      else { DrainOrderly(cfg, s, l.t, l.c); }
    } else {
      QuietOrderly(cfg, s, l);
    }
  }

  lemma QuietOrderly(cfg: Config, s: State, l: Label)
    requires Inv(cfg, s) && Orderly(s) && Next(cfg, s, l).Some? && !l.Go?
    ensures Orderly(Next(cfg, s, l).value)
  {
    var s' := Next(cfg, s, l).value;
    QuietBooks(cfg, s, l);
    forall u | 0 <= u < |s'.threads|
      ensures StationOK(s', s'.threads[u].pc)
    {
      assert u < |s.threads| ==> StationOK(s, s.threads[u].pc);
    }
  }

  lemma {:induction false} ExecOrderly(cfg: Config, schedule: seq<Label>)
    requires Disciplined(cfg, schedule) && Exec(cfg, schedule).Some?
    ensures Orderly(Exec(cfg, schedule).value)
  {
    if schedule != [] {
      var n := |schedule| - 1;
      ExecOrderly(cfg, schedule[..n]);
      ExecInv(cfg, schedule[..n]);
      NextOrderly(cfg, Exec(cfg, schedule[..n]).value, schedule[n]);
    }
  }
}
