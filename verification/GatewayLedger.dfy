/** The books of the gateway: where every command, connection and channel is, in every interleaving. */
module GatewayLedger {
  import opened Wrappers
  import opened GatewayMetrics
  import opened Managers
  import opened GatewaySystem
  import opened GatewayInvariants

  function Items(removed: seq<Removal>): seq<Item> {
    seq(|removed|, i requires 0 <= i < |removed| => removed[i].item)
  }

  /** Commands leave the queue in the order in which they were accepted, each once. */
  ghost predicate LogOK(cfg: Config, g: Shared) {
    && g.log.accepted == Items(g.log.removed) + g.queue.commands
    && (forall i | 0 <= i < |g.log.accepted| :: g.log.accepted[i].serial == i)
    && |g.queue.commands| <= cfg.maxDepth
    && g.metrics.depth == |g.queue.commands|
  }

  lemma ActLog(cfg: Config, g: Shared, t: Tid, th: Thread, c: Choice)
    requires LogOK(cfg, g) && RegistryOK(g.registry) && Act(cfg, g, t, th, c).Some?
    ensures LogOK(cfg, Act(cfg, g, t, th, c).value.g)
  {
    var e := Act(cfg, g, t, th, c).value;
    match th.pc
    case HoldQ(job) => UnderQLog(cfg, g, th, job);
    case DrainMu(job) => match job { case Adopt(_) => case Leave(_) => case _ => }
    case _ =>
      ActQueueFrame(cfg, g, t, th, c);
      ActRegistryFrame(cfg, g, t, th, c);
  }

  lemma UnderQLog(cfg: Config, g: Shared, th: Thread, job: QJob)
    requires LogOK(cfg, g)
    ensures LogOK(cfg, UnderQ(cfg, g.(locks := g.locks.(queue := None)), th, job).value.g)
  {
    var g' := UnderQ(cfg, g.(locks := g.locks.(queue := None)), th, job).value.g;
    match job
    case PopCommand =>
      if g.queue.commands != [] {
        assert Items(g'.log.removed) == Items(g.log.removed) + [g.queue.commands[0]];
      }
    case StopQueue =>
      assert Items(g'.log.removed) == Items(g.log.removed) + g.queue.commands;
    case _ =>
  }

  // ---------------------------------------------------------------- the books

  function PoppedOf(x: Item): Removal -> nat { (r: Removal) => Bit(r.popped && r.item == x) }
  function TriedOf(x: Item): Attempt -> nat { (a: Attempt) => Bit(a.item == x) }

  function EndedOf(ok: bool): Attempt -> nat { (a: Attempt) => Bit(a.ok == ok) }

  /** For each measure, what the shared state says the goroutines must hold together. */
  function Ledger(g: Shared, m: Measure): int {
    match m
    case Unsettled =>
      |g.log.accepted| - g.metrics.sent - g.metrics.sendFailed - g.metrics.dropped
      - |g.queue.commands| - g.log.uncounted
    case Untallied(ok) =>
      Sum(g.log.attempts, EndedOf(ok)) - (if ok then g.metrics.sent else g.metrics.sendFailed)
    case SessionLag => g.metrics.dropped - g.metrics.DroppedFor(SID)
    case InHand(x) => Sum(g.log.removed, PoppedOf(x)) - Sum(g.log.attempts, TriedOf(x))
    case OwnsConn(c) =>
      Bit(c < g.conns.dialled) - Bit(CurrentConn(g.registry) == Some(c)) - g.conns.closed[c]
    case OwnsStop(n) => Bit(n < g.queue.started) - Bit(g.queue.channels == Some(n)) - Bit(n in g.channels.stopClosed)
    case InWindow => 0
    case BeforeClear => 0
  }

  predicate Booked(m: Measure) { !m.InWindow? && !m.BeforeClear? }

  /** The step moves the goroutine's share and the books by the same amount. */
  ghost predicate Balanced(g: Shared, pc: Pc, e: Effect, m: Measure) {
    Ledger(e.g, m) - Ledger(g, m) == Value(e.th.pc, m) - Value(pc, m)
  }

  lemma AdoptBooks(g: Shared, th: Thread, conn: ConnId, m: Measure)
    requires th.pc == DrainMu(Adopt(conn)) && RegistryOK(g.registry) && Booked(m)
    ensures Balanced(g, th.pc, UnderMu(g, th, Adopt(conn)).value, m)
  {
  }

  lemma LeaveBooks(g: Shared, th: Thread, expected: SessionId, m: Measure)
    requires th.pc == DrainMu(Leave(expected)) && RegistryOK(g.registry) && Booked(m)
    ensures Balanced(g, th.pc, UnderMu(g, th, Leave(expected)).value, m)
  {
  }

  lemma UnderMuBooks(g: Shared, th: Thread, job: MuJob, m: Measure)
    requires th.pc == DrainMu(job) && RegistryOK(g.registry) && Booked(m)
    ensures Balanced(g, th.pc, UnderMu(g, th, job).value, m)
  {
    match job
    case Adopt(conn) => AdoptBooks(g, th, conn, m);
    case Leave(expected) => LeaveBooks(g, th, expected, m);
    case _ =>
  }

  lemma {:induction false} SumRemovals(removed: seq<Removal>, items: seq<Item>, popped: bool, x: Item)
    ensures Sum(removed + Removals(items, popped), PoppedOf(x))
            == Sum(removed, PoppedOf(x)) + (if popped then multiset(items)[x] else 0)
  {
    if items == [] {
      assert removed + Removals(items, popped) == removed;
    } else {
      var n := |items| - 1;
      assert removed + Removals(items, popped)
          == (removed + Removals(items[..n], popped)) + [Removal(items[n], popped)];
      SumAppend(removed + Removals(items[..n], popped), Removal(items[n], popped), PoppedOf(x));
      SumRemovals(removed, items[..n], popped, x);
      assert items == items[..n] + [items[n]];
    }
  }

  predicate PopsHead(g: Shared, e: Effect)
    requires g.queue.commands != []
  {
    && e.g.log.removed == g.log.removed + Removals([g.queue.commands[0]], true)
    && e.g.log.attempts == g.log.attempts && e.th.pc == WantRead(g.queue.commands[0])
  }

  lemma PopEffect(cfg: Config, g: Shared, th: Thread)
    requires g.queue.commands != []
    ensures PopsHead(g, UnderQ(cfg, g.(locks := g.locks.(queue := None)), th, PopCommand).value)
  {
  }

  lemma PoppedInHand(g: Shared, pc: Pc, e: Effect, x: Item)
    requires pc == HoldQ(PopCommand) && g.queue.commands != [] && PopsHead(g, e)
    ensures Balanced(g, pc, e, InHand(x))
  {
    var head := g.queue.commands[0];
    SumRemovals(g.log.removed, [head], true, x);
    assert multiset([head])[x] == Bit(head == x);
  }

  lemma PopRemovals(cfg: Config, g: Shared, th: Thread, x: Item)
    requires th.pc == HoldQ(PopCommand) && g.queue.commands != []
    ensures Balanced(g, th.pc, UnderQ(cfg, g.(locks := g.locks.(queue := None)), th, PopCommand).value, InHand(x))
  {
    PopEffect(cfg, g, th);
    PoppedInHand(g, th.pc, UnderQ(cfg, g.(locks := g.locks.(queue := None)), th, PopCommand).value, x);
  }

  lemma PopBooks(cfg: Config, g: Shared, th: Thread, m: Measure)
    requires th.pc == HoldQ(PopCommand) && Booked(m)
    ensures Balanced(g, th.pc, UnderQ(cfg, g.(locks := g.locks.(queue := None)), th, PopCommand).value, m)
  {
    if m.InHand? && g.queue.commands != [] {
      PopRemovals(cfg, g, th, m.x);
    }
  }

  lemma StopRemovals(cfg: Config, g: Shared, th: Thread, x: Item)
    requires th.pc == HoldQ(StopQueue)
    ensures Balanced(g, th.pc, UnderQ(cfg, g.(locks := g.locks.(queue := None)), th, StopQueue).value, InHand(x))
  {
    var e := UnderQ(cfg, g.(locks := g.locks.(queue := None)), th, StopQueue).value;
    assert e.g.log.removed == g.log.removed + Removals(g.queue.commands, false);
    assert e.g.log.attempts == g.log.attempts;
    SumRemovals(g.log.removed, g.queue.commands, false, x);
  }

  lemma StopBooks(cfg: Config, g: Shared, th: Thread, m: Measure)
    requires th.pc == HoldQ(StopQueue) && Booked(m)
    ensures Balanced(g, th.pc, UnderQ(cfg, g.(locks := g.locks.(queue := None)), th, StopQueue).value, m)
  {
    if m.InHand? {
      StopRemovals(cfg, g, th, m.x);
    }
  }

  lemma StartBooks(cfg: Config, g: Shared, th: Thread, conn: ConnId, m: Measure)
    requires th.pc == HoldQ(StartWorker(conn)) && Booked(m)
    ensures Balanced(g, th.pc, UnderQ(cfg, g.(locks := g.locks.(queue := None)), th, StartWorker(conn)).value, m)
  {
  }

  lemma PutBooks(cfg: Config, g: Shared, th: Thread, text: string, m: Measure)
    requires th.pc == HoldQ(PutCommand(text)) && Booked(m)
    ensures Balanced(g, th.pc, UnderQ(cfg, g.(locks := g.locks.(queue := None)), th, PutCommand(text)).value, m)
  {
  }

  lemma UnderQBooks(cfg: Config, g: Shared, th: Thread, job: QJob, m: Measure)
    requires th.pc == HoldQ(job) && Booked(m)
    ensures Balanced(g, th.pc, UnderQ(cfg, g.(locks := g.locks.(queue := None)), th, job).value, m)
  {
    match job
    case StopQueue => StopBooks(cfg, g, th, m);
    case PopCommand => PopBooks(cfg, g, th, m);
    case StartWorker(conn) => StartBooks(cfg, g, th, conn, m);
    case PutCommand(text) => PutBooks(cfg, g, th, text, m);
    case _ =>
  }

  lemma DropCounts(g: Shared, th: Thread)
    requires DropAct(g, th).Some? && (th.pc.CountSession? ==> CurrentId(g.registry) == SID)
    ensures Balanced(g, th.pc, DropAct(g, th).value, SessionLag)
  {
  }

  lemma DropOwners(g: Shared, th: Thread, m: Measure)
    requires DropAct(g, th).Some? && (m.OwnsConn? || m.OwnsStop?)
    requires th.pc.CloseStop? ==> th.pc.gen !in g.channels.stopClosed
    ensures Balanced(g, th.pc, DropAct(g, th).value, m)
  {
  }

  lemma DropMoves(g: Shared, th: Thread, m: Measure)
    requires DropAct(g, th).Some? && Booked(m) && !m.SessionLag?
    requires th.pc.CloseStop? ==> th.pc.gen !in g.channels.stopClosed
    ensures Balanced(g, th.pc, DropAct(g, th).value, m)
  {
    if m.OwnsConn? || m.OwnsStop? {
      DropOwners(g, th, m);
    }
  }

  lemma DropBooks(g: Shared, th: Thread, m: Measure)
    requires DropAct(g, th).Some? && Booked(m)
    requires th.pc.CloseStop? ==> th.pc.gen !in g.channels.stopClosed
    requires th.pc.CountSession? ==> CurrentId(g.registry) == SID
    ensures Balanced(g, th.pc, DropAct(g, th).value, m)
  {
    if m.SessionLag? {
      DropCounts(g, th);
    } else {
      DropMoves(g, th, m);
    }
  }

  /** The sender has made this attempt, and nothing is counted yet. */
  ghost predicate Attempts(g: Shared, pc: Pc, e: Effect, a: Attempt) {
    && (pc.HoldRead? || pc.Writing?) && a.item == pc.item
    && e.g.log == g.log.(attempts := g.log.attempts + [a])
    && e.g == g.(log := e.g.log, locks := e.g.locks)
    && e.th.pc == (if a.ok then WantMu(TouchAfterSend(a.item)) else CountFailed(a.item))
  }

  lemma AttemptInHand(g: Shared, pc: Pc, e: Effect, a: Attempt, x: Item)
    requires Attempts(g, pc, e, a)
    ensures Balanced(g, pc, e, InHand(x))
  {
    SumAppend(g.log.attempts, a, TriedOf(x));
  }

  lemma AttemptUntallied(g: Shared, pc: Pc, e: Effect, a: Attempt, ok: bool)
    requires Attempts(g, pc, e, a)
    ensures Balanced(g, pc, e, Untallied(ok))
  {
    SumAppend(g.log.attempts, a, EndedOf(ok));
  }

  lemma AttemptBooks(g: Shared, pc: Pc, e: Effect, a: Attempt, m: Measure)
    requires Attempts(g, pc, e, a) && Booked(m)
    ensures Balanced(g, pc, e, m)
  {
    match m
    case InHand(x) => AttemptInHand(g, pc, e, a, x);
    case Untallied(ok) => AttemptUntallied(g, pc, e, a, ok);
    case _ =>
  }

  /** The sender returns: it found no connection, or it wrote to one. */
  predicate Returns(g: Shared, th: Thread) {
    th.role.Worker? && (th.pc.Writing? || (th.pc.HoldRead? && g.registry.Target(th.role.sid).None?))
  }

  lemma SenderAttempts(cfg: Config, g: Shared, t: Tid, th: Thread, c: Choice) returns (a: Attempt)
    requires Returns(g, th) && WorkerAct(cfg, g, t, th, c).Some?
    ensures Attempts(g, th.pc, WorkerAct(cfg, g, t, th, c).value, a)
    ensures a == if th.pc.Writing? then Attempt(th.pc.item, Some(th.pc.conn), c == Good)
                 else Attempt(th.pc.item, None, false)
  {
    a := if th.pc.Writing? then Attempt(th.pc.item, Some(th.pc.conn), c == Good)
         else Attempt(th.pc.item, None, false);
  }

  lemma CountBooks(cfg: Config, g: Shared, t: Tid, th: Thread, c: Choice, m: Measure)
    requires th.role.Worker? && WorkerAct(cfg, g, t, th, c).Some? && Booked(m)
    requires th.pc.CountSent? || th.pc.CountFailed? || th.pc.CloseDone?
    ensures Balanced(g, th.pc, WorkerAct(cfg, g, t, th, c).value, m)
  {
  }

  lemma LoopBooks(cfg: Config, g: Shared, t: Tid, th: Thread, c: Choice, m: Measure)
    requires th.role.Worker? && WorkerAct(cfg, g, t, th, c).Some? && Booked(m) && !Returns(g, th)
    requires !th.pc.CountSent? && !th.pc.CountFailed? && !th.pc.CloseDone?
    ensures Balanced(g, th.pc, WorkerAct(cfg, g, t, th, c).value, m)
  {
    var e := WorkerAct(cfg, g, t, th, c).value;
    assert e.g == g.(locks := e.g.locks, log := g.log.(handoffs := e.g.log.handoffs));
  }

  lemma WorkerBooks(cfg: Config, g: Shared, t: Tid, th: Thread, c: Choice, m: Measure)
    requires th.role.Worker? && WorkerAct(cfg, g, t, th, c).Some? && Booked(m)
    ensures Balanced(g, th.pc, WorkerAct(cfg, g, t, th, c).value, m)
  {
    if Returns(g, th) {
      var a := SenderAttempts(cfg, g, t, th, c);
      AttemptBooks(g, th.pc, WorkerAct(cfg, g, t, th, c).value, a, m);
    } else if th.pc.CountSent? || th.pc.CountFailed? || th.pc.CloseDone? {
      CountBooks(cfg, g, t, th, c, m);
    } else {
      LoopBooks(cfg, g, t, th, c, m);
    }
  }

  /** A channel that somebody is about to close is not closed yet. */
  ghost predicate StopOpen(g: Shared, pc: Pc) {
    pc.CloseStop? ==> pc.gen !in g.channels.stopClosed
  }

  lemma ConnectBooks(g: Shared, th: Thread, c: Choice, m: Measure)
    requires th.pc.Dialing? || th.pc.SpawnReader? || th.pc.CloseSpare?
    requires Booked(m)
    ensures Balanced(g, th.pc, CallerAct(g, th, c).value, m)
  {
  }

  lemma CallerBooks(g: Shared, th: Thread, c: Choice, m: Measure)
    requires CallerAct(g, th, c).Some? && Booked(m)
    requires StopOpen(g, th.pc) && (th.pc.CountSession? ==> CurrentId(g.registry) == SID)
    ensures Balanced(g, th.pc, CallerAct(g, th, c).value, m)
  {
    if th.pc.Dialing? || th.pc.SpawnReader? || th.pc.CloseSpare? {
      ConnectBooks(g, th, c, m);
    } else {
      DropBooks(g, th, m);
    }
  }

  lemma ReaderBooks(g: Shared, th: Thread, sid: SessionId, c: Choice, m: Measure)
    requires ReaderAct(g, th, sid, c).Some? && Booked(m)
    requires StopOpen(g, th.pc) && (th.pc.CountSession? ==> CurrentId(g.registry) == SID)
    ensures Balanced(g, th.pc, ReaderAct(g, th, sid, c).value, m)
  {
    if !th.pc.Reading? {
      DropBooks(g, th, m);
    }
  }

  lemma LockBooks(cfg: Config, g: Shared, t: Tid, th: Thread, c: Choice, m: Measure)
    requires Act(cfg, g, t, th, c).Some? && Booked(m) && (th.pc.WantMu? || th.pc.WantQ? || th.pc.UnlockMu?)
    ensures Balanced(g, th.pc, Act(cfg, g, t, th, c).value, m)
  {
  }

  lemma ActBooks(cfg: Config, g: Shared, t: Tid, th: Thread, c: Choice, m: Measure)
    requires Act(cfg, g, t, th, c).Some? && Booked(m)
    requires RegistryOK(g.registry) && SessionLocal(g.registry, th) && StopOpen(g, th.pc)
    ensures Balanced(g, th.pc, Act(cfg, g, t, th, c).value, m)
  {
    match th.pc
    case DrainMu(job) => UnderMuBooks(g, th, job, m);
    case HoldQ(job) => UnderQBooks(cfg, g, th, job, m);
    case WantMu(_) => LockBooks(cfg, g, t, th, c, m);
    case WantQ(_) => LockBooks(cfg, g, t, th, c, m);
    case UnlockMu(_) => LockBooks(cfg, g, t, th, c, m);
    case _ =>
      match th.role
      case Caller => CallerBooks(g, th, c, m);
      case Reader(sid) => ReaderBooks(g, th, sid, c, m);
      case Worker(_, _, _) => WorkerBooks(cfg, g, t, th, c, m);
  }

  // ---------------------------------------------------------------- commands wait only for a connection

  predicate Stranded(g: Shared) { |g.queue.commands| > 0 && !g.registry.Connected() }

  lemma UnderMuStranded(g: Shared, th: Thread, job: MuJob)
    requires th.pc == DrainMu(job) && RegistryOK(g.registry)
    ensures var e := UnderMu(g, th, job).value;
            Stranded(e.g) ==> Value(e.th.pc, BeforeClear) >= (if Stranded(g) then Value(th.pc, BeforeClear) else 1)
  {
    match job case Adopt(_) => case Leave(_) => case _ =>
  }

  lemma UnderQStranded(cfg: Config, g: Shared, th: Thread, job: QJob)
    requires th.pc == HoldQ(job) && SessionLocal(g.registry, th) && ShapeLocal(th)
    ensures var e := UnderQ(cfg, g, th, job).value;
            Stranded(e.g) ==> Value(e.th.pc, BeforeClear) >= (if Stranded(g) then Value(th.pc, BeforeClear) else 1)
  {
    match job case PutCommand(_) => case StopQueue => case PopCommand => case _ =>
  }

  lemma RoleStranded(cfg: Config, g: Shared, t: Tid, th: Thread, c: Choice)
    requires Act(cfg, g, t, th, c).Some? && !AtLock(th.pc)
    ensures Value(Act(cfg, g, t, th, c).value.th.pc, BeforeClear) >= Value(th.pc, BeforeClear)
  {
    match th.role case Caller => case Reader(_) => case Worker(_, _, _) =>
  }

  lemma ActStranded(cfg: Config, g: Shared, t: Tid, th: Thread, c: Choice)
    requires Act(cfg, g, t, th, c).Some? && RegistryOK(g.registry) && SessionLocal(g.registry, th) && ShapeLocal(th)
    ensures var e := Act(cfg, g, t, th, c).value;
            Stranded(e.g) ==> Value(e.th.pc, BeforeClear) >= (if Stranded(g) then Value(th.pc, BeforeClear) else 1)
  {
    match th.pc
    case HoldQ(job) => UnderQStranded(cfg, g.(locks := g.locks.(queue := None)), th, job);
    case DrainMu(job) => UnderMuStranded(g, th, job);
    case _ =>
      ActQueueFrame(cfg, g, t, th, c);
      ActRegistryFrame(cfg, g, t, th, c);
      if !AtLock(th.pc) {
        RoleStranded(cfg, g, t, th, c);
      }
  }

  lemma ActNoPanic(cfg: Config, g: Shared, workers: seq<Tid>, t: Tid, th: Thread, c: Choice)
    requires Act(cfg, g, t, th, c).Some? && StopOpen(g, th.pc) && ChannelLocal(g, workers, t, th)
    requires !g.channels.panicked
    ensures !Act(cfg, g, t, th, c).value.g.channels.panicked
  {
    match th.pc
    case DrainMu(job) => match job { case Adopt(_) => case _ => }
    case _ =>
  }

  // ---------------------------------------------------------------- every interleaving

  ghost predicate Books(s: State) {
    forall m {:trigger Total(s.threads, m)} :: Booked(m) ==> Total(s.threads, m) == Ledger(s.g, m)
  }

  /** The invariant of all interleavings. */
  ghost predicate Inv(cfg: Config, s: State) {
    && Threads(s)
    && LogOK(cfg, s.g)
    && Books(s)
    && (Stranded(s.g) ==> Total(s.threads, BeforeClear) > 0)
    && !s.g.channels.panicked
  }

  lemma StopsAreOpen(s: State, t: Tid)
    requires Books(s) && t < |s.threads|
    ensures StopOpen(s.g, s.threads[t].pc)
  {
    var pc := s.threads[t].pc;
    if pc.CloseStop? {
      SumAtLeast(s.threads, t, ValueOf(OwnsStop(pc.gen)));
      assert Total(s.threads, OwnsStop(pc.gen)) == Ledger(s.g, OwnsStop(pc.gen));
    }
  }

  lemma NewcomersHoldNothing(pc: Pc, m: Measure)
    requires pc.NewTicker? || pc.Reading?
    ensures Value(pc, m) == 0
  {
  }

  lemma LaunchedHoldsNothing(cfg: Config, s: State, t: Tid, c: Choice, m: Measure)
    requires Threads(s) && t < |s.threads| && Act(cfg, s.g, t, s.threads[t], c).Some?
    ensures var e := Act(cfg, s.g, t, s.threads[t], c).value;
            e.launched.Some? ==> Value(e.launched.value.pc, m) == 0
  {
    assert Local(s.g, s.workers, t, s.threads[t]);
    ActKeeps(cfg, s.g, s.workers, t, s.threads[t], c);
    var e := Act(cfg, s.g, t, s.threads[t], c).value;
    if e.launched.Some? {
      NewcomersHoldNothing(e.launched.value.pc, m);
    }
  }

  lemma GoBooks(cfg: Config, s: State, t: Tid, c: Choice)
    requires Inv(cfg, s) && t < |s.threads| && Act(cfg, s.g, t, s.threads[t], c).Some?
    ensures Books(Apply(s, t, Act(cfg, s.g, t, s.threads[t], c).value))
  {
    var e := Act(cfg, s.g, t, s.threads[t], c).value;
    forall m | Booked(m)
      ensures Total(Apply(s, t, e).threads, m) == Ledger(e.g, m)
    {
      assert Local(s.g, s.workers, t, s.threads[t]);
      EffectTotals(s, t, e);
      StopsAreOpen(s, t);
      LaunchedHoldsNothing(cfg, s, t, c, m);
      ActBooks(cfg, s.g, t, s.threads[t], c, m);
      assert Total(s.threads, m) == Ledger(s.g, m);
    }
  }

  lemma QuietTotal(cfg: Config, s: State, l: Label, m: Measure)
    requires Next(cfg, s, l).Some? && !l.Go?
    ensures Total(Next(cfg, s, l).value.threads, m) == Total(s.threads, m)
  {
    var s' := Next(cfg, s, l).value;
    match l
    case Call(api) => SumAppend(s.threads, Thread(Caller, Entry(api)), ValueOf(m));
    case Advance(_) =>
    case Tick(t) => SumUpdate(s.threads, t, s'.threads[t], ValueOf(m));
  }

  lemma QuietBooks(cfg: Config, s: State, l: Label)
    requires Next(cfg, s, l).Some? && !l.Go?
    ensures var s' := Next(cfg, s, l).value;
            && (forall m {:trigger Total(s'.threads, m)} :: Total(s'.threads, m) == Total(s.threads, m))
            && s'.g == s.g.(now := s'.g.now)
  {
    forall m
      ensures Total(Next(cfg, s, l).value.threads, m) == Total(s.threads, m)
    {
      QuietTotal(cfg, s, l, m);
    }
  }

  lemma NextInv(cfg: Config, s: State, l: Label)
    requires Inv(cfg, s) && Next(cfg, s, l).Some?
    ensures Inv(cfg, Next(cfg, s, l).value)
  {
    NextThreads(cfg, s, l);
    if l.Go? {
      var t, c := l.t, l.c;
      var e := Act(cfg, s.g, t, s.threads[t], c).value;
      assert Local(s.g, s.workers, t, s.threads[t]);
      EffectTotals(s, t, e);
      GoBooks(cfg, s, t, c);
      ActLog(cfg, s.g, t, s.threads[t], c);
      StopsAreOpen(s, t);
      ActNoPanic(cfg, s.g, s.workers, t, s.threads[t], c);
      ActStranded(cfg, s.g, t, s.threads[t], c);
      SumAtLeast(s.threads, t, ValueOf(BeforeClear));
    } else {
      QuietBooks(cfg, s, l);
    }
  }

  lemma InitInv(cfg: Config)
    ensures Inv(cfg, INIT)
  {
  }

  lemma {:induction false} ExecInv(cfg: Config, schedule: seq<Label>)
    requires Exec(cfg, schedule).Some?
    ensures Inv(cfg, Exec(cfg, schedule).value)
  {
    if schedule == [] {
      InitInv(cfg);
    } else {
      var n := |schedule| - 1;
      ExecInv(cfg, schedule[..n]);
      NextInv(cfg, Exec(cfg, schedule[..n]).value, schedule[n]);
    }
  }
}
