/** No interleaving ever gets stuck: waiting never goes round in a circle, and every call can be finished. */
module GatewayProgress {
  import opened Wrappers
  import opened GatewaySystem
  import opened GatewayInvariants
  import opened GatewayLedger

  /** Finished, or left to the network or to the clock rather than to another goroutine. */
  predicate Parked(g: Shared, th: Thread) {
    || th.pc.Done?
    || th.pc.Reading?
    || (th.pc.Select? && th.role.Worker? && th.role.gen !in g.channels.stopClosed)
  }

  /** Goroutine u is what goroutine t waits for: it holds the lock, or will close the done channel. */
  predicate WaitsFor(s: State, t: Tid, u: Tid) {
    t < |s.threads| &&
    match s.threads[t].pc
    case WantMu(_) => s.g.locks.writer == Some(u)
    case WantRead(_) => s.g.locks.writer == Some(u)
    case DrainMu(_) => u in s.g.locks.readers
    case WantQ(_) => s.g.locks.queue == Some(u)
    case AwaitDone(g, _) => g !in s.g.channels.doneClosed && g < |s.workers| && s.workers[g] == u
    case _ => false
  }

  ghost predicate Waits(s: State, t: Tid) {
    exists u: Tid :: WaitsFor(s, t, u)
  }

  /** The order in which goroutines wait: done channel, manager lock, its readers, queue lock. */
  function Rank(pc: Pc): nat {
    match pc
    case AwaitDone(_, _) => 4
    case WantMu(_) => 3
    case WantRead(_) => 3
    case DrainMu(_) => 2
    case WantQ(_) => 1
    case _ => 0
  }

  /** Whatever is waited for stands strictly lower, so no goroutine waits for itself through others;
      and it is not parked. */
  lemma WaitsDescend(s: State, t: Tid, u: Tid)
    requires Threads(s) && WaitsFor(s, t, u)
    ensures u < |s.threads| && Rank(s.threads[u].pc) < Rank(s.threads[t].pc)
    ensures !Parked(s.g, s.threads[u])
  {
    var pc := s.threads[t].pc;
    assert Local(s.g, s.workers, t, s.threads[t]);
    assert pc.AwaitDone? ==> IsWorkerOf(s, pc.gen);
    assert u >= |s.threads| ==> Unheld(s.g.locks, u);
    assert u < |s.threads| ==> Local(s.g, s.workers, u, s.threads[u]);
  }

  /** The outcome that lets the goroutine finish: writes fail, selects see the stop channel. */
  function Urged(pc: Pc): Choice {
    if pc.Select? then ClosedHere else Bad
  }

  ghost predicate CanStep(cfg: Config, s: State, t: Tid) {
    t < |s.threads| && Next(cfg, s, Go(t, Urged(s.threads[t].pc))).Some?
  }

  /** A goroutine that waits for nobody and is not parked can take its next step. */
  lemma FreeCanStep(cfg: Config, s: State, t: Tid)
    requires Threads(s) && t < |s.threads| && !Waits(s, t) && !Parked(s.g, s.threads[t])
    ensures CanStep(cfg, s, t)
  {
    var th := s.threads[t];
    var pc, l := th.pc, s.g.locks;
    assert Local(s.g, s.workers, t, th);
    assert (pc.WantMu? || pc.WantRead?) && l.writer.Some? ==> WaitsFor(s, t, l.writer.value);
    assert pc.WantQ? && l.queue.Some? ==> WaitsFor(s, t, l.queue.value);
    assert pc.DrainMu? ==> forall u | u in l.readers :: WaitsFor(s, t, u);
    assert pc.AwaitDone? && pc.gen !in s.g.channels.doneClosed ==> WaitsFor(s, t, s.workers[pc.gen]);
    if !AtLock(pc) {
      match th.role case Caller => case Reader(_) => case Worker(_, _, _) =>
    }
  }

  /** The goroutines met when one follows what t waits for, what that one waits for, and so on. */
  ghost predicate WaitChain(s: State, chain: seq<Tid>) {
    && chain != []
    && (forall i | 0 <= i < |chain| :: chain[i] < |s.threads|)
    && (forall i | 0 < i < |chain| :: WaitsFor(s, chain[i - 1], chain[i]))
  }

  lemma FollowChain(cfg: Config, s: State, t: Tid) returns (chain: seq<Tid>)
    requires Threads(s) && t < |s.threads| && !Parked(s.g, s.threads[t])
    ensures WaitChain(s, chain) && chain[0] == t
    ensures CanStep(cfg, s, chain[|chain| - 1]) && !Parked(s.g, s.threads[chain[|chain| - 1]])
    decreases Rank(s.threads[t].pc)
  {
    chain := [t];
    if Waits(s, t) {
      var u: Tid :| WaitsFor(s, t, u);
      WaitsDescend(s, t, u);
      var rest := FollowChain(cfg, s, u);
      chain := chain + rest;
    } else {
      FreeCanStep(cfg, s, t);
    }
  }

  lemma {:induction false} ChainIsShort(s: State, chain: seq<Tid>)
    requires Threads(s) && WaitChain(s, chain)
    ensures |chain| + Rank(s.threads[chain[|chain| - 1]].pc) <= Rank(s.threads[chain[0]].pc) + 1
    ensures Rank(s.threads[chain[0]].pc) <= 4
  {
    var n := |chain| - 1;
    if n > 0 {
      ChainIsShort(s, chain[..n]);
      WaitsDescend(s, chain[n - 1], chain[n]);
    }
  }

  /** In every reachable state, every goroutine that is not parked waits, through at most four others,
      for one that can take a step of its own. */
  lemma NeverStuck(cfg: Config, schedule: seq<Label>, t: Tid) returns (chain: seq<Tid>)
    requires Exec(cfg, schedule).Some?
    requires t < |Exec(cfg, schedule).value.threads|
    requires !Parked(Exec(cfg, schedule).value.g, Exec(cfg, schedule).value.threads[t])
    ensures var s := Exec(cfg, schedule).value;
            WaitChain(s, chain) && chain[0] == t && CanStep(cfg, s, chain[|chain| - 1]) && |chain| <= 5
  {
    ExecInv(cfg, schedule);
    chain := FollowChain(cfg, Exec(cfg, schedule).value, t);
    ChainIsShort(Exec(cfg, schedule).value, chain);
  }

  // ---------------------------------------------------------------- every call can be finished

  /** How many steps of its own the goroutine is from rest, when urged; a launch counts as work too. */
  function Work(pc: Pc): nat {
    match pc
    case Dialing => 13
    case WantMu(job) => MuWork(job) + 2
    case DrainMu(job) => MuWork(job) + 1
    case WantQ(job) => QWork(job) + 1
    case HoldQ(job) => QWork(job)
    case UnlockMu(next) => AfterWork(next) + 1
    case CloseLeft(_) => 8
    case CloseSpare(_) => 4
    case CloseStop(_, _) => 4
    case AwaitDone(_, _) => 3
    case CountTotal(_) => 2
    case CountSession(_) => 1
    case SpawnReader(_) => 1
    case NewTicker => 3
    case Select => 2
    case WantRead(_) => 8
    case HoldRead(_) => 7
    case Writing(_, _) => 6
    case CountSent(_) => 3
    case CountFailed(_) => 5
    case CloseDone => 1
    case Reading(_) => 0
    case Done => 0
  }

  function MuWork(job: MuJob): nat {
    match job
    case Adopt(_) => 10
    case Submit(_) => 6
    case Leave(_) => 12
    case AskStatus => 6
    case TouchAfterSend(_) => 3
    case TouchAfterRead(_) => 0
  }

  function AfterWork(next: After): nat {
    match next case ToReader(_) => 1 case ToStop(_) => 8 case Finish => 0
  }

  function QWork(job: QJob): nat {
    match job
    case StartWorker(_) => 8
    case PutCommand(_) => 4
    case StatusDepth(next) => AfterWork(next) + 2
    case LooseDepth => 1
    case StopQueue => 5
    case PopCommand => 9
    case FailureDepth => 3
  }

  function WorkOf(): Thread -> nat { (th: Thread) => Work(th.pc) }

  /** An urged step leaves less work to do. */
  lemma StepWorks(cfg: Config, g: Shared, t: Tid, th: Thread)
    requires Act(cfg, g, t, th, Urged(th.pc)).Some? && !th.pc.Reading?
    ensures Lessens(th.pc, Act(cfg, g, t, th, Urged(th.pc)).value)
  {
    if AtLock(th.pc) {
      LockStepWorks(cfg, g, t, th);
    } else {
      match th.role
      case Caller => CallerWorks(g, th);
      case Reader(sid) => ReaderWorks(g, th, sid);
      case Worker(_, _, _) => WorkerWorks(cfg, g, t, th);
    }
  }

  lemma CallerWorks(g: Shared, th: Thread)
    requires CallerAct(g, th, Urged(th.pc)).Some?
    ensures Lessens(th.pc, CallerAct(g, th, Urged(th.pc)).value)
  {
  }

  lemma ReaderWorks(g: Shared, th: Thread, sid: nat)
    requires ReaderAct(g, th, sid, Urged(th.pc)).Some? && !th.pc.Reading?
    ensures Lessens(th.pc, ReaderAct(g, th, sid, Urged(th.pc)).value)
  {
  }

  lemma WorkerWorks(cfg: Config, g: Shared, t: Tid, th: Thread)
    requires th.role.Worker? && WorkerAct(cfg, g, t, th, Urged(th.pc)).Some?
    ensures Lessens(th.pc, WorkerAct(cfg, g, t, th, Urged(th.pc)).value)
  {
    match th.pc case Select => case Writing(_, _) => case HoldRead(_) => case _ =>
  }

  predicate Lessens(pc: Pc, e: Effect) {
    Work(e.th.pc) + (if e.launched.Some? then Work(e.launched.value.pc) else 0) < Work(pc)
  }

  lemma LockStepWorks(cfg: Config, g: Shared, t: Tid, th: Thread)
    requires Act(cfg, g, t, th, Urged(th.pc)).Some? && AtLock(th.pc)
    ensures Lessens(th.pc, Act(cfg, g, t, th, Urged(th.pc)).value)
  {
    match th.pc
    case HoldQ(job) =>
      match job { case StartWorker(_) => case PutCommand(_) => case PopCommand => case StopQueue => case _ => }
    case DrainMu(job) => match job { case Adopt(_) => case Submit(_) => case Leave(_) => case _ => }
    case _ =>
  }

  lemma StepShrinks(cfg: Config, s: State, u: Tid)
    requires CanStep(cfg, s, u) && !s.threads[u].pc.Reading?
    ensures var s' := Next(cfg, s, Go(u, Urged(s.threads[u].pc))).value;
            && Sum(s'.threads, WorkOf()) < Sum(s.threads, WorkOf())
            && |s.threads| <= |s'.threads|
            && (forall t | 0 <= t < |s.threads| && s.threads[t].role.Caller? :: s'.threads[t].role.Caller?)
  {
    var e := Act(cfg, s.g, u, s.threads[u], Urged(s.threads[u].pc)).value;
    StepWorks(cfg, s.g, u, s.threads[u]);
    ActRegistryFrame(cfg, s.g, u, s.threads[u], Urged(s.threads[u].pc));
    SumUpdate(s.threads, u, e.th, WorkOf());
    if e.launched.Some? {
      SumAppend(s.threads[u := e.th], e.launched.value, WorkOf());
    }
  }

  ghost predicate OnlyGoroutines(labels: seq<Label>) {
    forall i | 0 <= i < |labels| :: labels[i].Go?
  }

  lemma PushOne(cfg: Config, s: State, t: Tid) returns (l: Label)
    requires Inv(cfg, s) && t < |s.threads| && s.threads[t].role.Caller? && !s.threads[t].pc.Done?
    ensures l.Go? && Next(cfg, s, l).Some? && Inv(cfg, Next(cfg, s, l).value)
    ensures var s' := Next(cfg, s, l).value;
            && t < |s'.threads| && s'.threads[t].role.Caller?
            && Sum(s'.threads, WorkOf()) < Sum(s.threads, WorkOf())
  {
    assert Local(s.g, s.workers, t, s.threads[t]);
    var chain := FollowChain(cfg, s, t);
    var u := chain[|chain| - 1];
    l := Go(u, Urged(s.threads[u].pc));
    StepShrinks(cfg, s, u);
    NextInv(cfg, s, l);
  }

  lemma FinishFrom(cfg: Config, s: State, t: Tid) returns (more: seq<Label>)
    requires Inv(cfg, s) && t < |s.threads| && s.threads[t].role.Caller?
    ensures OnlyGoroutines(more) && Run(cfg, s, more).Some?
    ensures t < |Run(cfg, s, more).value.threads| && Run(cfg, s, more).value.threads[t].pc.Done?
    decreases Sum(s.threads, WorkOf())
  {
    more := [];
    if !s.threads[t].pc.Done? {
      var l := PushOne(cfg, s, t);
      var rest := FinishFrom(cfg, Next(cfg, s, l).value, t);
      more := [l] + rest;
      assert more[1..] == rest;
    }
  }

  /** Whatever has happened so far, every API call can be brought to its end by steps of goroutines
      alone: it needs no new call, no tick and no time to pass. */
  lemma EveryCallCanFinish(cfg: Config, schedule: seq<Label>, t: Tid) returns (more: seq<Label>)
    requires Exec(cfg, schedule).Some?
    requires t < |Exec(cfg, schedule).value.threads| && Exec(cfg, schedule).value.threads[t].role.Caller?
    ensures OnlyGoroutines(more) && Exec(cfg, schedule + more).Some?
    ensures var s' := Exec(cfg, schedule + more).value; t < |s'.threads| && s'.threads[t].pc.Done?
  {
    ExecInv(cfg, schedule);
    more := FinishFrom(cfg, Exec(cfg, schedule).value, t);
    ExecThenRun(cfg, schedule, more);
  }
}
