/**
  The gateway as a system of goroutines that interleave freely.

  Every `sync.Mutex`/`RWMutex` operation, channel operation, connection operation and counter
  increment is a step of its own, so a goroutine can be preempted while it holds a lock. The bodies
  of the critical sections are the functions that CommandQueue.dfy and Manager.dfy prove the Go
  methods against. `Act` is what one goroutine can do next, `Next` performs one step of the system,
  and `Exec` runs a schedule, that is, any list of steps.
 */
module GatewaySystem {
  import opened Wrappers
  import opened GatewayMetrics
  import opened CommandQueues
  import opened Managers

  type Tid = nat
  type Gen = nat

  datatype Config = Config(interval: nat, maxDepth: nat)

  /** An accepted command. `serial` and `conn` are history: its place in the log of accepted
      commands, and the session's connection at that moment. */
  datatype Item = Item(text: string, serial: nat, conn: Option<ConnId>)

  /** A time.Ticker: when it next fires, and the due time of the tick waiting in its one-slot channel. */
  datatype Ticker = Ticker(nextDue: nat, tick: Option<nat>)

  datatype Role =
    | Caller
    | Worker(gen: Gen, sid: SessionId, ticker: Option<Ticker>)
    | Reader(sid: SessionId)

  /** What a goroutine does once it holds the manager's write lock. */
  datatype MuJob =
    | Adopt(conn: ConnId)
    | Submit(text: string)
    | Leave(expected: SessionId)
    | AskStatus
    | TouchAfterSend(item: Item)
    | TouchAfterRead(conn: ConnId)

  /** What follows the release of the manager's lock. */
  datatype After = ToReader(conn: ConnId) | ToStop(taken: Option<ConnId>) | Finish

  /** What a goroutine does under the queue's lock; the first three run under the manager's lock too. */
  datatype QJob =
    | StartWorker(conn: ConnId)
    | PutCommand(text: string)
    | StatusDepth(next: After)
    | LooseDepth
    | StopQueue
    | PopCommand
    | FailureDepth

  datatype Pc =
    | Dialing
    | WantMu(job: MuJob)          // in Lock(), before the writer is announced
    | DrainMu(job: MuJob)         // announced: new readers wait, older ones are leaving
    | WantQ(qjob: QJob)
    | HoldQ(qjob: QJob)
    | UnlockMu(next: After)
    | CloseLeft(conn: ConnId)     // disconnect closes the connection it took
    | CloseSpare(conn: ConnId)    // Connect closes the connection it could not place
    | CloseStop(gen: Gen, n: nat)
    | AwaitDone(gen: Gen, n: nat)
    | CountTotal(n: nat)
    | CountSession(n: nat)
    | SpawnReader(conn: ConnId)
    | Reading(conn: ConnId)
    | NewTicker
    | Select
    | WantRead(item: Item)        // in RLock()
    | HoldRead(item: Item)
    | Writing(item: Item, conn: ConnId)
    | CountSent(item: Item)
    | CountFailed(item: Item)
    | CloseDone
    | Done

  datatype Thread = Thread(role: Role, pc: Pc)

  /** How a command left the queue. */
  datatype Removal = Removal(item: Item, popped: bool)

  /** One call of the sender: the connection it tried to write to, if the session had one. */
  datatype Attempt = Attempt(item: Item, conn: Option<ConnId>, ok: bool)

  /** One tick taken by a worker's select: when, and when that tick was due. */
  datatype Handoff = Handoff(at: nat, due: nat)

  datatype Locks = Locks(
    writer: Option<Tid>,          // manager lock: announced writer
    readers: set<Tid>,            // manager lock: readers inside
    queue: Option<Tid>)

  datatype Channels = Channels(
    stopClosed: set<Gen>,
    doneClosed: set<Gen>,
    panicked: bool)               // a closed channel was closed again

  datatype Conns = Conns(dialled: nat, closed: multiset<ConnId>)

  datatype History = History(
    accepted: seq<Item>,
    removed: seq<Removal>,
    attempts: seq<Attempt>,
    handoffs: seq<Handoff>,
    uncounted: nat)               // dropped by a StopAndDrop that found no running worker

  datatype Shared = Shared(
    now: nat,
    locks: Locks,
    registry: Registry,
    queue: Queue<Item>,
    channels: Channels,
    conns: Conns,
    metrics: Counters,
    log: History)

  /** `workers` lists the goroutine of each channel pair. */
  datatype State = State(g: Shared, threads: seq<Thread>, workers: seq<Tid>)

  const START := Shared(0, Locks(None, {}, None), NO_SESSION, EmptyQueue(), Channels({}, {}, false),
                        Conns(0, multiset{}), ZERO, History([], [], [], [], 0))
  const INIT := State(START, [], [])

  /** The outcome of whatever a goroutine leaves to the world: a dial, a read, a write, a select. */
  datatype Choice = Good | Bad | Timeout | ClosedHere

  /** What a step does: the new shared state, where the goroutine is now, and what it launched. */
  datatype Effect = Effect(g: Shared, th: Thread, launched: Option<Thread>)

  function Act(cfg: Config, g: Shared, me: Tid, th: Thread, c: Choice): Option<Effect> {
    match th.pc
    case WantMu(job) =>
      if g.locks.writer.None? then To(g.(locks := g.locks.(writer := Some(me))), th, DrainMu(job)) else None
    case DrainMu(job) =>
      if g.locks.readers == {} then UnderMu(g, th, job) else None
    case UnlockMu(next) =>
      To(Release(g), th, AfterUnlock(next))
    case WantQ(job) =>
      if g.locks.queue.None? then To(g.(locks := g.locks.(queue := Some(me))), th, HoldQ(job)) else None
    case HoldQ(job) =>
      UnderQ(cfg, g.(locks := g.locks.(queue := None)), th, job)
    case _ =>
      match th.role
      case Caller => CallerAct(g, th, c)
      case Reader(sid) => ReaderAct(g, th, sid, c)
      case Worker(gen, sid, ticker) => WorkerAct(cfg, g, me, th, c)
  }

  /** The queue, its logs and its gauge change under the queue's lock only; workers are launched there only. */
  ghost predicate QueueFrame(g: Shared, e: Effect) {
    && e.g.queue == g.queue && e.g.metrics.depth == g.metrics.depth
    && e.g.log.accepted == g.log.accepted && e.g.log.removed == g.log.removed && e.g.log.uncounted == g.log.uncounted
    && (e.launched.Some? ==> e.launched.value.role.Reader?)
  }

  /** The registry changes under the manager's lock only; channels are closed by no one who holds a lock. */
  ghost predicate RegistryFrame(g: Shared, e: Effect) {
    && e.g.registry == g.registry
    && g.channels.stopClosed <= e.g.channels.stopClosed
  }

  ghost predicate ChannelFrame(g: Shared, e: Effect) {
    e.g.channels == g.channels && e.g.conns == g.conns && e.g.log.attempts == g.log.attempts && e.g.now == g.now
  }

  /** The goroutine moves on and launches nothing. */
  function To(g: Shared, th: Thread, pc: Pc): Option<Effect> {
    Some(Effect(g, th.(pc := pc), None))
  }

  function Release(g: Shared): Shared { g.(locks := g.locks.(writer := None)) }

  function AfterUnlock(next: After): Pc {
    match next
    case ToReader(conn) => SpawnReader(conn)
    case ToStop(taken) => if taken.Some? then CloseLeft(taken.value) else WantQ(StopQueue)
    case Finish => Done
  }

  /** The id that the session hands to its queue, its worker and its reader. */
  function CurrentId(r: Registry): SessionId {
    if r.session.Some? then r.session.value.id else NO_ID
  }

  function CurrentConn(r: Registry): Option<ConnId> {
    if r.session.Some? then r.session.value.conn else None
  }

  /** Lines executed with the manager's lock held, up to the next queue operation or the unlock. */
  function UnderMu(g: Shared, th: Thread, job: MuJob): (e: Option<Effect>)
    ensures e.Some? ==> QueueFrame(g, e.value) && ChannelFrame(g, e.value) && e.value.th.role == th.role
    ensures e.Some? ==> e.value.g.locks == g.locks || e.value.g.locks == g.locks.(writer := None)
  {
    match job
    case Adopt(conn) =>
      var (r, adopted) := g.registry.Adopt(conn);
      if adopted then To(g.(registry := r), th, WantQ(StartWorker(conn)))
      else To(Release(g.(registry := r)), th, CloseSpare(conn))
    case Submit(text) =>
      To(g.(registry := g.registry.Ensure()), th,
         WantQ(if g.registry.Connected() then PutCommand(text) else StatusDepth(Finish)))
    case Leave(expected) =>
      To(g.(registry := g.registry.Detach(expected)), th,
         WantQ(StatusDepth(if g.registry.Detaches(expected) then ToStop(g.registry.session.value.conn) else Finish)))
    case AskStatus =>
      To(g.(registry := g.registry.Ensure()), th, WantQ(StatusDepth(Finish)))
    case TouchAfterSend(item) => To(Release(g), th, CountSent(item))
    case TouchAfterRead(conn) => To(Release(g), th, Reading(conn))
  }

  function Removals(items: seq<Item>, popped: bool): (r: seq<Removal>)
    ensures |r| == |items| && forall i | 0 <= i < |r| :: r[i] == Removal(items[i], popped)
  {
    seq(|items|, i requires 0 <= i < |items| => Removal(items[i], popped))
  }

  /** Lines executed with the queue's lock held; g is the state with that lock released. */
  function UnderQ(cfg: Config, g: Shared, th: Thread, job: QJob): (e: Option<Effect>)
    ensures e.Some? ==> RegistryFrame(g, e.value) && ChannelFrame(g, e.value) && e.value.th.role == th.role
    ensures e.Some? && job.StatusDepth? ==> QueueFrame(g, e.value)
    ensures e.Some? ==> e.value.g.locks == g.locks
    ensures e.Some? && e.value.launched.Some? ==>
              e.value.launched.value == Thread(Worker(g.queue.started, CurrentId(g.registry), None), NewTicker)
              && e.value.g.queue.started == g.queue.started + 1
  {
    match job
    case StartWorker(conn) =>
      Some(Effect(g.(queue := g.queue.Start()), th.(pc := WantQ(StatusDepth(ToReader(conn)))),
                  if g.queue.Running() then None
                  else Some(Thread(Worker(g.queue.started, CurrentId(g.registry), None), NewTicker))))
    case PutCommand(text) =>
      if g.queue.Full(cfg.maxDepth) then To(g.(metrics := g.metrics.IncRejected()), th, WantQ(StatusDepth(Finish)))
      else
        var item := Item(text, |g.log.accepted|, CurrentConn(g.registry));
        var q := g.queue.Append(item, cfg.maxDepth);
        To(g.(queue := q, metrics := g.metrics.SetDepth(|q.commands|),
              log := g.log.(accepted := g.log.accepted + [item])),
           th, WantQ(StatusDepth(Finish)))
    case StatusDepth(next) => To(g, th, UnlockMu(next))
    case LooseDepth => To(g, th, Done)
    case FailureDepth => To(g, th, Select)
    case PopCommand =>
      var (q, head) := g.queue.Pop();
      if head.None? then To(g, th, Select)
      else To(g.(queue := q, metrics := g.metrics.SetDepth(|q.commands|),
                 log := g.log.(removed := g.log.removed + Removals([head.value], true))), th, WantRead(head.value))
    case StopQueue =>
      var n := |g.queue.commands|;
      var log := g.log.(removed := g.log.removed + Removals(g.queue.commands, false));
      var g' := g.(queue := g.queue.Stop(), metrics := g.metrics.SetDepth(0), log := log);
      if g.queue.Running() then To(g', th, CloseStop(g.queue.channels.value, n))
      else To(g'.(log := log.(uncounted := log.uncounted + n)), th, Done)
  }

  /** The rest of Connect and disconnect. */
  function CallerAct(g: Shared, th: Thread, c: Choice): (e: Option<Effect>)
    ensures e.Some? ==> QueueFrame(g, e.value) && RegistryFrame(g, e.value)
    ensures e.Some? ==> e.value.g.locks == g.locks && e.value.g.channels.doneClosed == g.channels.doneClosed
    ensures e.Some? ==> e.value.g.log == g.log && e.value.th.role == th.role
  {
    match th.pc
    case Dialing =>
      if c == Good then To(g.(conns := g.conns.(dialled := g.conns.dialled + 1)), th, WantMu(Adopt(g.conns.dialled)))
      else To(g, th, Done)
    case SpawnReader(conn) =>
      Some(Effect(g, th.(pc := Done), Some(Thread(Reader(CurrentId(g.registry)), Reading(conn)))))
    case CloseSpare(conn) => To(CloseConn(g, conn), th, WantQ(LooseDepth))
    case _ => DropAct(g, th)
  }

  function CloseConn(g: Shared, conn: ConnId): Shared {
    g.(conns := g.conns.(closed := g.conns.closed + multiset{conn}))
  }

  /** The end of disconnect, which API calls and upstream readers both run. */
  function DropAct(g: Shared, th: Thread): (e: Option<Effect>)
    ensures e.Some? ==> QueueFrame(g, e.value) && RegistryFrame(g, e.value)
    ensures e.Some? ==> e.value.g.locks == g.locks && e.value.g.channels.doneClosed == g.channels.doneClosed
    ensures e.Some? ==> e.value.g.log == g.log && e.value.th.role == th.role
  {
    match th.pc
    case CloseLeft(conn) => To(CloseConn(g, conn), th, WantQ(StopQueue))
    case CloseStop(gen, n) =>
      To(g.(channels := g.channels.(panicked := g.channels.panicked || gen in g.channels.stopClosed,
                                    stopClosed := g.channels.stopClosed + {gen})), th, AwaitDone(gen, n))
    case AwaitDone(gen, n) =>
      if gen in g.channels.doneClosed then To(g, th, if n > 0 then CountTotal(n) else Done) else None
    case CountTotal(n) => To(g.(metrics := g.metrics.AddDropped(n)), th, CountSession(n))
    case CountSession(n) =>
      To(g.(metrics := g.metrics.AddDroppedForSession(CurrentId(g.registry), n)), th, Done)
    case _ => None
  }

  /** The loop of readUpstream. Any other error, including a failed deadline, leads to disconnect. */
  function ReaderAct(g: Shared, th: Thread, sid: SessionId, c: Choice): (e: Option<Effect>)
    ensures e.Some? ==> QueueFrame(g, e.value) && RegistryFrame(g, e.value)
    ensures e.Some? ==> e.value.g.locks == g.locks && e.value.g.channels.doneClosed == g.channels.doneClosed
    ensures e.Some? ==> e.value.g.log == g.log && e.value.th.role == th.role
  {
    match th.pc
    case Reading(conn) =>
      (match c
       case Good => To(g, th, WantMu(TouchAfterRead(conn)))
       case Timeout => To(g, th, Reading(conn))
       case ClosedHere => if conn in g.conns.closed then To(g, th, Done) else None
       case Bad => To(g, th, WantMu(Leave(sid))))
    case _ => DropAct(g, th)
  }

  /** The loop of CommandQueue.run and the sender it calls, apart from the lock operations. */
  function WorkerAct(cfg: Config, g: Shared, me: Tid, th: Thread, c: Choice): (e: Option<Effect>)
    requires th.role.Worker?
    ensures e.Some? ==> QueueFrame(g, e.value) && RegistryFrame(g, e.value)
    ensures e.Some? ==> e.value.th.role.Worker? && e.value.th.role == th.role.(ticker := e.value.th.role.ticker)
    ensures e.Some? ==>
              var l := e.value.g.locks;
              l == g.locks || l == g.locks.(readers := g.locks.readers - {me})
              || (l == g.locks.(readers := g.locks.readers + {me}) && g.locks.writer.None?)
    ensures e.Some? ==>
              e.value.g.channels.doneClosed == g.channels.doneClosed + (if th.pc.CloseDone? then {th.role.gen} else {})
  {
    var role := th.role;
    match th.pc
    case NewTicker =>
      Some(Effect(g, Thread(role.(ticker := Some(Ticker(g.now + cfg.interval, None))), Select), None))
    case Select =>
      if c == ClosedHere then
        if role.gen in g.channels.stopClosed then Some(Effect(g, Thread(role.(ticker := None), CloseDone), None))
        else None
      else if role.ticker.Some? && role.ticker.value.tick.Some? then
        Some(Effect(g.(log := g.log.(handoffs := g.log.handoffs + [Handoff(g.now, role.ticker.value.tick.value)])),
                    Thread(role.(ticker := Some(role.ticker.value.(tick := None))), WantQ(PopCommand)), None))
      else None
    case WantRead(item) =>
      if g.locks.writer.None? then To(g.(locks := g.locks.(readers := g.locks.readers + {me})), th, HoldRead(item))
      else None
    case HoldRead(item) =>
      var g' := g.(locks := g.locks.(readers := g.locks.readers - {me}));
      var target := g.registry.Target(role.sid);
      if target.Some? then To(g', th, Writing(item, target.value))
      else To(Tried(g', Attempt(item, None, false)), th, CountFailed(item))
    case Writing(item, conn) =>
      if c == Good then
        if conn in g.conns.closed then None
        else To(Tried(g, Attempt(item, Some(conn), true)), th, WantMu(TouchAfterSend(item)))
      else To(Tried(g, Attempt(item, Some(conn), false)), th, CountFailed(item))
    case CountSent(_) => To(g.(metrics := g.metrics.IncSent()), th, Select)
    case CountFailed(_) => To(g.(metrics := g.metrics.IncSendFailed()), th, WantQ(FailureDepth))
    case CloseDone =>
      To(g.(channels := g.channels.(panicked := g.channels.panicked || role.gen in g.channels.doneClosed,
                                    doneClosed := g.channels.doneClosed + {role.gen})), th, Done)
    case _ => None
  }

  function Tried(g: Shared, a: Attempt): Shared {
    g.(log := g.log.(attempts := g.log.attempts + [a]))
  }

  // ---------------------------------------------------------------- the system

  datatype Api = CallConnect | CallEnqueue(text: string) | CallDisconnect | CallStatus

  function Entry(api: Api): Pc {
    match api
    case CallConnect => Dialing
    case CallEnqueue(text) => WantMu(Submit(text))
    case CallDisconnect => WantMu(Leave(NO_ID))
    case CallStatus => WantMu(AskStatus)
  }

  datatype Label = Call(api: Api) | Advance(d: nat) | Tick(t: Tid) | Go(t: Tid, c: Choice)

  predicate Ticking(th: Thread) { th.role.Worker? && th.role.ticker.Some? }

  function Next(cfg: Config, s: State, l: Label): Option<State> {
    match l
    case Call(api) => Some(s.(threads := s.threads + [Thread(Caller, Entry(api))]))
    case Advance(d) =>
      // Tickers fire when due: time does not pass a due tick.
      if forall t | 0 <= t < |s.threads| && Ticking(s.threads[t]) ::
           s.g.now + d <= s.threads[t].role.ticker.value.nextDue
      then Some(s.(g := s.g.(now := s.g.now + d))) else None
    case Tick(t) =>
      if t < |s.threads| && Ticking(s.threads[t]) && s.threads[t].role.ticker.value.nextDue == s.g.now
      then Some(s.(threads := s.threads[t := Fired(cfg, s.threads[t])])) else None
    case Go(t, c) =>
      if t >= |s.threads| then None
      else
        var e := Act(cfg, s.g, t, s.threads[t], c);
        if e.None? then None else Some(Apply(s, t, e.value))
  }

  /** The runtime sends the tick without blocking: it is lost if an earlier one is still waiting. */
  function Fired(cfg: Config, th: Thread): Thread
    requires Ticking(th)
  {
    var k := th.role.ticker.value;
    var tick := if k.tick.Some? then k.tick else Some(k.nextDue);
    th.(role := th.role.(ticker := Some(Ticker(k.nextDue + cfg.interval, tick))))
  }

  function Apply(s: State, t: Tid, e: Effect): State
    requires t < |s.threads|
  {
    var moved := s.threads[t := e.th];
    if e.launched.None? then State(e.g, moved, s.workers)
    else State(e.g, moved + [e.launched.value],
               if e.launched.value.role.Worker? then s.workers + [|s.threads|] else s.workers)
  }

  /** The state after a schedule, if each of its steps was enabled when its turn came. */
  function Exec(cfg: Config, schedule: seq<Label>): Option<State> {
    if schedule == [] then Some(INIT)
    else
      var before := Exec(cfg, schedule[..|schedule| - 1]);
      if before.None? then None else Next(cfg, before.value, schedule[|schedule| - 1])
  }

  /** The state after a schedule that starts in s. */
  function Run(cfg: Config, s: State, schedule: seq<Label>): Option<State>
    decreases |schedule|
  {
    if schedule == [] then Some(s)
    else
      var s' := Next(cfg, s, schedule[0]);
      if s'.None? then None else Run(cfg, s'.value, schedule[1..])
  }

  lemma {:induction false} ExecThenRun(cfg: Config, before: seq<Label>, after: seq<Label>)
    requires Exec(cfg, before).Some?
    ensures Exec(cfg, before + after) == Run(cfg, Exec(cfg, before).value, after)
    decreases |after|
  {
    if after == [] {
      assert before + after == before;
    } else {
      var first := before + [after[0]];
      assert first[..|before|] == before;
      assert before + after == first + after[1..];
      if Exec(cfg, first).Some? {
        ExecThenRun(cfg, first, after[1..]);
      } else {
        ExecStaysStuck(cfg, first, after[1..]);
      }
    }
  }

  lemma {:induction false} ExecStaysStuck(cfg: Config, before: seq<Label>, after: seq<Label>)
    requires Exec(cfg, before).None?
    ensures Exec(cfg, before + after).None?
    decreases |after|
  {
    if after == [] {
      assert before + after == before;
    } else {
      var n := |after| - 1;
      ExecStaysStuck(cfg, before, after[..n]);
      assert (before + after)[..|before + after| - 1] == before + after[..n];
    }
  }
}
