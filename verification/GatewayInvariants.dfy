/** What every interleaving of the gateway's goroutines keeps. */
module GatewayInvariants {
  import opened Wrappers
  import opened GatewayMetrics
  import opened Managers
  import opened GatewaySystem

  // ---------------------------------------------------------------- sums over the goroutines

  function Sum<T>(xs: seq<T>, f: T -> nat): nat {
    if xs == [] then 0 else Sum(xs[..|xs| - 1], f) + f(xs[|xs| - 1])
  }

  lemma {:induction false} SumUpdate<T>(xs: seq<T>, i: nat, x: T, f: T -> nat)
    requires i < |xs|
    ensures Sum(xs[i := x], f) == Sum(xs, f) - f(xs[i]) + f(x)
  {
    var n := |xs| - 1;
    if i == n {
      assert xs[i := x][..n] == xs[..n];
    } else {
      SumUpdate(xs[..n], i, x, f);
      assert xs[i := x][..n] == xs[..n][i := x];
    }
  }

  lemma SumAppend<T>(xs: seq<T>, x: T, f: T -> nat)
    ensures Sum(xs + [x], f) == Sum(xs, f) + f(x)
  {
    assert (xs + [x])[..|xs|] == xs;
  }

  lemma {:induction false} SumAtLeast<T>(xs: seq<T>, i: nat, f: T -> nat)
    requires i < |xs|
    ensures Sum(xs, f) >= f(xs[i])
  {
    if i < |xs| - 1 {
      SumAtLeast(xs[..|xs| - 1], i, f);
    }
  }

  lemma {:induction false} SumAtLeastTwo<T>(xs: seq<T>, i: nat, j: nat, f: T -> nat)
    requires i < j < |xs|
    ensures Sum(xs, f) >= f(xs[i]) + f(xs[j])
  {
    var front := xs[..|xs| - 1];
    if j < |xs| - 1 {
      SumAtLeastTwo(front, i, j, f);
    } else {
      SumAtLeast(front, i, f);
    }
  }

  lemma {:induction false} SumWitness<T>(xs: seq<T>, f: T -> nat) returns (i: nat)
    requires Sum(xs, f) > 0
    ensures i < |xs| && f(xs[i]) > 0
  {
    var n := |xs| - 1;
    if f(xs[n]) > 0 {
      i := n;
    } else {
      i := SumWitness(xs[..n], f);
    }
  }

  /** A quantity that every goroutine contributes to according to where it stands. */
  datatype Measure =
    | InWindow                // inside disconnect, from `connected = false` to the end of StopAndDrop
    | BeforeClear             // ... and StopAndDrop has not emptied the queue yet
    | OwnsConn(c: ConnId)     // will close the connection or hand it to the session
    | OwnsStop(g: Gen)        // will close the stop channel
    | Unsettled               // commands out of the queue that no counter shows yet
    | InHand(x: Item)         // the worker has popped the command and its sender has not tried it yet
    | Untallied(ok: bool)     // attempts with this outcome that the counter of that outcome does not show yet
    | SessionLag              // dropped commands counted in total but not yet for the session

  function JobOf(pc: Pc): Option<QJob> {
    if pc.WantQ? || pc.HoldQ? then Some(pc.qjob) else None
  }

  /** disconnect has taken the session's connection and still holds the manager's lock. */
  function Detaching(pc: Pc): Option<Option<ConnId>> {
    if (pc.WantQ? || pc.HoldQ?) && pc.qjob.StatusDepth? && pc.qjob.next.ToStop? then Some(pc.qjob.next.taken)
    else if pc.UnlockMu? && pc.next.ToStop? then Some(pc.next.taken)
    else None
  }

  function OwnedConn(pc: Pc): Option<ConnId> {
    if (pc.WantMu? || pc.DrainMu?) && pc.job.Adopt? then Some(pc.job.conn)
    else if pc.CloseLeft? || pc.CloseSpare? then Some(pc.conn)
    else if Detaching(pc).Some? then Detaching(pc).value
    else None
  }

  predicate BeforeClearing(pc: Pc) {
    Detaching(pc).Some? || pc.CloseLeft? || ((pc.WantQ? || pc.HoldQ?) && pc.qjob.StopQueue?)
  }

  predicate Windowed(pc: Pc) {
    BeforeClearing(pc) || pc.CloseStop? || pc.AwaitDone? || pc.CountTotal? || pc.CountSession?
  }

  /** A worker has popped a command and no counter shows it yet. */
  predicate Carries(pc: Pc) {
    pc.WantRead? || pc.HoldRead? || pc.Writing? || pc.CountSent? || pc.CountFailed? ||
    ((pc.WantMu? || pc.DrainMu?) && pc.job.TouchAfterSend?)
  }

  /** A sender has returned with this outcome, and run or Touch has yet to count it. */
  predicate Tallying(pc: Pc, ok: bool) {
    if ok then pc.CountSent? || ((pc.WantMu? || pc.DrainMu?) && pc.job.TouchAfterSend?) else pc.CountFailed?
  }

  function Bit(b: bool): nat { if b then 1 else 0 }

  function Value(pc: Pc, m: Measure): nat {
    match m
    case InWindow => Bit(Windowed(pc))
    case BeforeClear => Bit(BeforeClearing(pc))
    case OwnsConn(c) => Bit(OwnedConn(pc) == Some(c))
    case OwnsStop(g) => Bit(pc.CloseStop? && pc.gen == g)
    case Unsettled => if pc.CloseStop? || pc.AwaitDone? || pc.CountTotal? then pc.n else Bit(Carries(pc))
    case InHand(x) => Bit((pc.WantRead? || pc.HoldRead? || pc.Writing?) && pc.item == x)
    case Untallied(ok) => Bit(Tallying(pc, ok))
    case SessionLag => if pc.CountSession? then pc.n else 0
  }

  function ValueOf(m: Measure): Thread -> nat {
    (th: Thread) => Value(th.pc, m)
  }

  function Total(ts: seq<Thread>, m: Measure): nat {
    Sum(ts, ValueOf(m))
  }

  lemma EffectTotals(s: State, t: Tid, e: Effect)
    requires t < |s.threads|
    ensures forall m {:trigger Total(Apply(s, t, e).threads, m)} ::
              Total(Apply(s, t, e).threads, m) == Total(s.threads, m) - Value(s.threads[t].pc, m) + Value(e.th.pc, m)
                                                  + (if e.launched.Some? then Value(e.launched.value.pc, m) else 0)
  {
    forall m
      ensures Total(Apply(s, t, e).threads, m) == Total(s.threads, m) - Value(s.threads[t].pc, m) + Value(e.th.pc, m)
                                                  + (if e.launched.Some? then Value(e.launched.value.pc, m) else 0)
    {
      SumUpdate(s.threads, t, e.th, ValueOf(m));
      if e.launched.Some? {
        SumAppend(s.threads[t := e.th], e.launched.value, ValueOf(m));
      }
    }
  }

  // ---------------------------------------------------------------- what each goroutine keeps

  const SID: SessionId := 1

  predicate AtLock(pc: Pc) { pc.WantMu? || pc.DrainMu? || pc.UnlockMu? || pc.WantQ? || pc.HoldQ? }

  predicate UnderMuJob(job: QJob) { job.StartWorker? || job.PutCommand? || job.StatusDepth? }

  predicate HoldsMu(pc: Pc) {
    pc.DrainMu? || pc.UnlockMu? || ((pc.WantQ? || pc.HoldQ?) && UnderMuJob(pc.qjob))
  }

  predicate LocksLocal(l: Locks, t: Tid, pc: Pc) {
    && (HoldsMu(pc) <==> l.writer == Some(t))
    && (pc.HoldQ? <==> l.queue == Some(t))
    && (pc.HoldRead? <==> t in l.readers)
    && (HoldsMu(pc) && !pc.DrainMu? ==> l.readers == {})
  }

  predicate WorkerPc(pc: Pc) {
    || pc.NewTicker? || pc.Select? || pc.Writing? || pc.CloseDone? || Carries(pc)
    || ((pc.WantQ? || pc.HoldQ?) && (pc.qjob.PopCommand? || pc.qjob.FailureDepth?))
  }

  predicate ReaderPc(pc: Pc) {
    || pc.Reading? || pc.AwaitDone? || ((pc.WantMu? || pc.DrainMu?) && (pc.job.TouchAfterRead? || pc.job.Leave?))
    || Windowed(pc)
    || ((pc.WantQ? || pc.HoldQ?) && pc.qjob == StatusDepth(Finish)) || pc == UnlockMu(Finish)
  }

  /** Which program points each kind of goroutine can be at, and the session id it carries. */
  predicate ShapeLocal(th: Thread) {
    && (th.pc.Done? || (th.role.Worker? <==> WorkerPc(th.pc)))
    && (th.role.Worker? ==>
          && th.role.sid == SID
          && (th.role.ticker.None? <==> th.pc.NewTicker? || th.pc.CloseDone? || th.pc.Done?))
    && (th.role.Reader? ==> th.role.sid == SID && (th.pc.Done? || ReaderPc(th.pc)))
    && (th.role.Caller? ==> !th.pc.Reading?
                            && !((th.pc.WantMu? || th.pc.DrainMu?) && th.pc.job.TouchAfterRead?))
    && ((th.pc.WantMu? || th.pc.DrainMu?) && th.pc.job.Leave? ==>
          th.pc.job.expected == (if th.role.Reader? then SID else NO_ID))
  }

  /** Which program points tell that the session exists, and that it is connected. */
  predicate SessionLocal(r: Registry, th: Thread) {
    && (th.role.Worker? || th.role.Reader? || Windowed(th.pc) || th.pc.SpawnReader? || th.pc.UnlockMu?
        || th.pc.CloseSpare? || JobOf(th.pc).Some?
        ==> r.session.Some?)
    && (JobOf(th.pc).Some? && (JobOf(th.pc).value.StartWorker? || JobOf(th.pc).value.PutCommand?) ==> r.Connected())
  }

  /** A worker's channel pair: it leaves its loop only when told to, and answers once. */
  predicate ChannelLocal(g: Shared, workers: seq<Tid>, t: Tid, th: Thread) {
    && (th.role.Worker? ==>
          && th.role.gen < |workers| && workers[th.role.gen] == t
          && (th.pc.CloseDone? || th.pc.Done? ==> th.role.gen in g.channels.stopClosed)
          && (th.pc.Done? <==> th.role.gen in g.channels.doneClosed))
    && (th.pc.AwaitDone? ==> th.pc.gen in g.channels.stopClosed)
    && (th.pc.CloseStop? || th.pc.AwaitDone? ==> th.pc.gen < |workers|)
  }

  ghost predicate Local(g: Shared, workers: seq<Tid>, t: Tid, th: Thread) {
    && LocksLocal(g.locks, t, th.pc)
    && ShapeLocal(th)
    && SessionLocal(g.registry, th)
    && ChannelLocal(g, workers, t, th)
  }

  /** The manager's fields fit together, and only one session is ever created. */
  predicate RegistryOK(r: Registry) {
    && r.created == (if r.session.Some? then 1 else 0)
    && (r.session.Some? ==> r.session.value.id == SID && r.session.value.connected == r.session.value.conn.Some?)
  }

  /** What a step must establish for the goroutine that takes it and for the one it launches. */
  ghost predicate Keeps(g: Shared, workers: seq<Tid>, t: Tid, e: Effect) {
    && LocksLocal(e.g.locks, t, e.th.pc)
    && ShapeLocal(e.th)
    && SessionLocal(e.g.registry, e.th)
    && RegistryOK(e.g.registry)
    && ChannelLocal(e.g, workers, t, e.th)
    && (e.launched.Some? ==>
          && ShapeLocal(e.launched.value) && SessionLocal(e.g.registry, e.launched.value)
          && (e.launched.value.pc.NewTicker? || e.launched.value.pc.Reading?))
  }

  lemma LockKeeps(g: Shared, workers: seq<Tid>, t: Tid, th: Thread)
    requires Local(g, workers, t, th) && RegistryOK(g.registry)
    ensures th.pc.WantMu? && g.locks.writer.None? ==>
              Keeps(g, workers, t, To(g.(locks := g.locks.(writer := Some(t))), th, DrainMu(th.pc.job)).value)
    ensures th.pc.WantQ? && g.locks.queue.None? ==>
              Keeps(g, workers, t, To(g.(locks := g.locks.(queue := Some(t))), th, HoldQ(th.pc.qjob)).value)
    ensures th.pc.UnlockMu? ==> Keeps(g, workers, t, To(Release(g), th, AfterUnlock(th.pc.next)).value)
  {
  }

  lemma AdoptKeeps(g: Shared, workers: seq<Tid>, t: Tid, th: Thread, conn: ConnId)
    requires Local(g, workers, t, th) && RegistryOK(g.registry)
    requires th.pc == DrainMu(Adopt(conn)) && g.locks.readers == {}
    ensures Keeps(g, workers, t, UnderMu(g, th, Adopt(conn)).value)
  {
  }

  lemma LeaveKeeps(g: Shared, workers: seq<Tid>, t: Tid, th: Thread, expected: SessionId)
    requires Local(g, workers, t, th) && RegistryOK(g.registry)
    requires th.pc == DrainMu(Leave(expected)) && g.locks.readers == {}
    ensures Keeps(g, workers, t, UnderMu(g, th, Leave(expected)).value)
  {
  }

  lemma UnderMuKeeps(g: Shared, workers: seq<Tid>, t: Tid, th: Thread)
    requires Local(g, workers, t, th) && RegistryOK(g.registry) && th.pc.DrainMu? && g.locks.readers == {}
    ensures Keeps(g, workers, t, UnderMu(g, th, th.pc.job).value)
  {
    match th.pc.job
    case Adopt(conn) => AdoptKeeps(g, workers, t, th, conn);
    case Submit(_) =>
    case Leave(expected) => LeaveKeeps(g, workers, t, th, expected);
    case AskStatus =>
    case TouchAfterSend(_) =>
    case TouchAfterRead(_) =>
  }

  lemma StopQueueKeeps(cfg: Config, g: Shared, workers: seq<Tid>, t: Tid, th: Thread)
    requires Local(g, workers, t, th) && RegistryOK(g.registry)
    requires th.pc == HoldQ(StopQueue) || (th.pc.HoldQ? && th.pc.qjob.StartWorker?)
    requires g.queue.Running() ==> g.queue.channels.value < |workers|
    ensures Keeps(g, workers, t, UnderQ(cfg, g.(locks := g.locks.(queue := None)), th, th.pc.qjob).value)
  {
  }

  lemma UnderQKeeps(cfg: Config, g: Shared, workers: seq<Tid>, t: Tid, th: Thread)
    requires Local(g, workers, t, th) && RegistryOK(g.registry) && th.pc.HoldQ?
    requires g.queue.Running() ==> g.queue.channels.value < |workers|
    ensures Keeps(g, workers, t, UnderQ(cfg, g.(locks := g.locks.(queue := None)), th, th.pc.qjob).value)
  {
    match th.pc.qjob
    case StartWorker(_) => StopQueueKeeps(cfg, g, workers, t, th);
    case StopQueue => StopQueueKeeps(cfg, g, workers, t, th);
    case PutCommand(_) =>
    case StatusDepth(_) =>
    case LooseDepth =>
    case PopCommand =>
    case FailureDepth =>
  }

  lemma DropKeeps(g: Shared, workers: seq<Tid>, t: Tid, th: Thread)
    requires Local(g, workers, t, th) && RegistryOK(g.registry) && !th.role.Worker? && DropAct(g, th).Some?
    ensures Keeps(g, workers, t, DropAct(g, th).value)
  {
  }

  lemma CallerKeeps(g: Shared, workers: seq<Tid>, t: Tid, th: Thread, c: Choice)
    requires Local(g, workers, t, th) && RegistryOK(g.registry) && th.role.Caller? && CallerAct(g, th, c).Some?
    requires !AtLock(th.pc)
    ensures Keeps(g, workers, t, CallerAct(g, th, c).value)
  {
    if !th.pc.Dialing? && !th.pc.SpawnReader? && !th.pc.CloseSpare? {
      DropKeeps(g, workers, t, th);
    }
  }

  lemma ReaderKeeps(g: Shared, workers: seq<Tid>, t: Tid, th: Thread, c: Choice)
    requires Local(g, workers, t, th) && RegistryOK(g.registry)
    requires th.role.Reader? && ReaderAct(g, th, th.role.sid, c).Some?
    ensures Keeps(g, workers, t, ReaderAct(g, th, th.role.sid, c).value)
  {
    if !th.pc.Reading? {
      DropKeeps(g, workers, t, th);
    }
  }

  lemma WorkerKeeps(cfg: Config, g: Shared, workers: seq<Tid>, t: Tid, th: Thread, c: Choice)
    requires Local(g, workers, t, th) && RegistryOK(g.registry) && th.role.Worker? && WorkerAct(cfg, g, t, th, c).Some?
    ensures Keeps(g, workers, t, WorkerAct(cfg, g, t, th, c).value)
  {
    match th.pc
    case NewTicker =>
    case Select =>
    case WantRead(_) =>
    case HoldRead(_) =>
    case Writing(_, _) =>
    case CountSent(_) =>
    case CountFailed(_) =>
    case CloseDone =>
    case _ =>
  }

  lemma ActKeeps(cfg: Config, g: Shared, workers: seq<Tid>, t: Tid, th: Thread, c: Choice)
    requires Local(g, workers, t, th) && RegistryOK(g.registry) && Act(cfg, g, t, th, c).Some?
    requires g.queue.Running() ==> g.queue.channels.value < |workers|
    ensures Keeps(g, workers, t, Act(cfg, g, t, th, c).value)
  {
    match th.pc
    case WantMu(_) => LockKeeps(g, workers, t, th);
    case WantQ(_) => LockKeeps(g, workers, t, th);
    case UnlockMu(_) => LockKeeps(g, workers, t, th);
    case DrainMu(_) => UnderMuKeeps(g, workers, t, th);
    case HoldQ(_) => UnderQKeeps(cfg, g, workers, t, th);
    case _ =>
      match th.role
      case Caller => CallerKeeps(g, workers, t, th, c);
      case Reader(_) => ReaderKeeps(g, workers, t, th, c);
      case Worker(_, _, _) => WorkerKeeps(cfg, g, workers, t, th, c);
  }

  predicate TakenOrFreed(l0: Option<Tid>, l1: Option<Tid>, t: Tid) {
    l1 == l0 || (l0.None? && l1 == Some(t)) || (l0 == Some(t) && l1.None?)
  }

  /** A step leaves the locks of other goroutines alone. */
  ghost predicate LockFrame(l0: Locks, l1: Locks, t: Tid) {
    && TakenOrFreed(l0.writer, l1.writer, t)
    && TakenOrFreed(l0.queue, l1.queue, t)
    && (l1.readers == l0.readers || l1.readers == l0.readers - {t}
        || (l1.readers == l0.readers + {t} && l0.writer.None?))
  }

  lemma ActLockFrame(cfg: Config, g: Shared, t: Tid, th: Thread, c: Choice)
    requires LocksLocal(g.locks, t, th.pc) && Act(cfg, g, t, th, c).Some?
    ensures LockFrame(g.locks, Act(cfg, g, t, th, c).value.g.locks, t)
  {
    if AtLock(th.pc) {
      OwnLockFrame(cfg, g, t, th, c);
    } else {
      match th.role case Caller => case Reader(_) => case Worker(_, _, _) =>
    }
  }

  lemma OwnLockFrame(cfg: Config, g: Shared, t: Tid, th: Thread, c: Choice)
    requires LocksLocal(g.locks, t, th.pc) && Act(cfg, g, t, th, c).Some? && AtLock(th.pc)
    ensures LockFrame(g.locks, Act(cfg, g, t, th, c).value.g.locks, t)
  {
    match th.pc
    case DrainMu(_) =>
    case HoldQ(_) =>
    case _ =>
  }

  lemma ActQueueFrame(cfg: Config, g: Shared, t: Tid, th: Thread, c: Choice)
    requires Act(cfg, g, t, th, c).Some? && !th.pc.HoldQ?
    ensures QueueFrame(g, Act(cfg, g, t, th, c).value)
  {
  }

  lemma ActRegistryFrame(cfg: Config, g: Shared, t: Tid, th: Thread, c: Choice)
    requires Act(cfg, g, t, th, c).Some?
    ensures var e := Act(cfg, g, t, th, c).value;
            && (!th.pc.DrainMu? ==> RegistryFrame(g, e))
            && g.channels.stopClosed <= e.g.channels.stopClosed
            && (g.registry.session.Some? ==> e.g.registry.session.Some?)
            && e.g.channels.doneClosed == g.channels.doneClosed
                + (if th.role.Worker? && th.pc.CloseDone? then {th.role.gen} else {})
            && (|| e.th.role == th.role
                || (th.role.Worker? && e.th.role.Worker? && e.th.role == th.role.(ticker := e.th.role.ticker)))
  {
    match th.pc
    case DrainMu(job) => match job { case Adopt(_) => case _ => }
    case _ =>
  }

  ghost predicate Threads(s: State) {
    && (forall t | 0 <= t < |s.threads| :: Local(s.g, s.workers, t, s.threads[t]))
    && (forall t | t >= |s.threads| :: Unheld(s.g.locks, t))
    && RegistryOK(s.g.registry)
    && |s.workers| == s.g.queue.started
    && (s.g.queue.Running() ==> s.g.queue.channels.value == |s.workers| - 1)
    && (forall g | 0 <= g < |s.workers| :: IsWorkerOf(s, g))
    && (forall g | g in s.g.channels.doneClosed :: g < |s.workers|)
  }

  predicate Unheld(l: Locks, t: Tid) {
    l.writer != Some(t) && l.queue != Some(t) && t !in l.readers
  }

  predicate IsWorkerOf(s: State, g: Gen)
    requires g < |s.workers|
  {
    s.workers[g] < |s.threads| && s.threads[s.workers[g]].role.Worker? && s.threads[s.workers[g]].role.gen == g
  }

  /** What the other goroutines rely on survives the step. */
  lemma OthersKeep(cfg: Config, s: State, t: Tid, c: Choice, u: Tid)
    requires Threads(s) && t < |s.threads| && u < |s.threads| && u != t && Act(cfg, s.g, t, s.threads[t], c).Some?
    ensures var e := Act(cfg, s.g, t, s.threads[t], c).value;
            Local(e.g, Apply(s, t, e).workers, u, s.threads[u])
  {
    var th := s.threads[t];
    assert Local(s.g, s.workers, t, th) && Local(s.g, s.workers, u, s.threads[u]);
    ActLockFrame(cfg, s.g, t, th, c);
    ActRegistryFrame(cfg, s.g, t, th, c);
  }


  lemma LaunchKeeps(cfg: Config, s: State, t: Tid, c: Choice)
    requires Threads(s) && t < |s.threads| && Act(cfg, s.g, t, s.threads[t], c).Some?
    requires Act(cfg, s.g, t, s.threads[t], c).value.launched.Some?
    ensures var e := Act(cfg, s.g, t, s.threads[t], c).value;
            Local(e.g, Apply(s, t, e).workers, |s.threads|, e.launched.value)
  {
    var th := s.threads[t];
    assert Local(s.g, s.workers, t, th) && Unheld(s.g.locks, |s.threads|);
    ActKeeps(cfg, s.g, s.workers, t, th, c);
    ActLockFrame(cfg, s.g, t, th, c);
    if th.pc.HoldQ? {
      assert s.g.queue.started !in s.g.channels.doneClosed;
    } else {
      ActQueueFrame(cfg, s.g, t, th, c);
    }
  }

  /** The queue's fields keep counting the workers launched. */
  lemma WorkersKeep(cfg: Config, s: State, t: Tid, c: Choice)
    requires Threads(s) && t < |s.threads| && Act(cfg, s.g, t, s.threads[t], c).Some?
    ensures var e := Act(cfg, s.g, t, s.threads[t], c).value;
            var s' := Apply(s, t, e);
            && |s'.workers| == e.g.queue.started
            && (e.g.queue.Running() ==> e.g.queue.channels.value == |s'.workers| - 1)
            && (forall g | 0 <= g < |s'.workers| :: IsWorkerOf(s', g))
  {
    var th := s.threads[t];
    var e := Act(cfg, s.g, t, th, c).value;
    var s' := Apply(s, t, e);
    ActRegistryFrame(cfg, s.g, t, th, c);
    if !th.pc.HoldQ? {
      ActQueueFrame(cfg, s.g, t, th, c);
    }
    forall g | 0 <= g < |s'.workers|
      ensures IsWorkerOf(s', g)
    {
      if g < |s.workers| {
        assert IsWorkerOf(s, g);
      }
    }
  }

  lemma NextThreads(cfg: Config, s: State, l: Label)
    requires Threads(s) && Next(cfg, s, l).Some?
    ensures Threads(Next(cfg, s, l).value)
  {
    var s' := Next(cfg, s, l).value;
    if l.Go? {
      var t, c := l.t, l.c;
      assert Local(s.g, s.workers, t, s.threads[t]);
      ActKeeps(cfg, s.g, s.workers, t, s.threads[t], c);
      ActLockFrame(cfg, s.g, t, s.threads[t], c);
      ActRegistryFrame(cfg, s.g, t, s.threads[t], c);
      WorkersKeep(cfg, s, t, c);
      forall u | 0 <= u < |s'.threads|
        ensures Local(s'.g, s'.workers, u, s'.threads[u])
      {
        if u == |s.threads| {
          LaunchKeeps(cfg, s, t, c);
        } else if u != t {
          OthersKeep(cfg, s, t, c, u);
        }
      }
      forall u | u >= |s'.threads|
        ensures Unheld(s'.g.locks, u)
      {
        assert Unheld(s.g.locks, u);
      }
    } else {
      QuietKeeps(cfg, s, l);
    }
  }

  /** Calls, the passing of time and the ticks of tickers. */
  lemma QuietKeeps(cfg: Config, s: State, l: Label)
    requires Threads(s) && Next(cfg, s, l).Some? && !l.Go?
    ensures Threads(Next(cfg, s, l).value)
  {
    var s' := Next(cfg, s, l).value;
    forall u | 0 <= u < |s'.threads|
      ensures Local(s'.g, s'.workers, u, s'.threads[u])
    {
      assert u < |s.threads| ==> Local(s.g, s.workers, u, s.threads[u]);
      assert u >= |s.threads| ==> Unheld(s.g.locks, u);
    }
    forall g | 0 <= g < |s'.workers|
      ensures IsWorkerOf(s', g)
    {
      assert IsWorkerOf(s, g);
    }
  }
}
