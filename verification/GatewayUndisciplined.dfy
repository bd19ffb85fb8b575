/**
  Why the reconnect discipline is needed: in every state in which the locks are free, one adoption
  inside a disconnect's window breaks what GatewayTheorems.dfy proves with the discipline.
 */
module GatewayUndisciplined {
  import opened Wrappers
  import opened GatewayMetrics
  import opened Managers
  import opened GatewaySystem
  import opened GatewayInvariants
  import opened GatewayLedger

  // ---------------------------------------------------------------- runs of one goroutine

  /** s with shared state g and goroutine t at th. */
  function With(s: State, g: Shared, t: Tid, th: Thread): State
    requires t < |s.threads|
  {
    State(g, s.threads[t := th], s.workers)
  }

  /** n steps of one goroutine in a row, if they launch nothing. */
  function Solo(cfg: Config, g: Shared, t: Tid, th: Thread, n: nat): Option<Effect>
    decreases n
  {
    if n == 0 then Some(Effect(g, th, None))
    else
      var e := Act(cfg, g, t, th, Good);
      if e.None? || e.value.launched.Some? then None else Solo(cfg, e.value.g, t, e.value.th, n - 1)
  }

  function Gos(t: Tid, n: nat): seq<Label> {
    seq(n, _ => Go(t, Good))
  }

  lemma {:induction false} SoloRuns(cfg: Config, s: State, g: Shared, t: Tid, th: Thread, n: nat)
    requires t < |s.threads| && Solo(cfg, g, t, th, n).Some?
    ensures var e := Solo(cfg, g, t, th, n).value;
            Run(cfg, With(s, g, t, th), Gos(t, n)) == Some(With(s, e.g, t, e.th))
    decreases n
  {
    if n > 0 {
      var e := Act(cfg, g, t, th, Good).value;
      assert s.threads[t := th][t := e.th] == s.threads[t := e.th];
      assert Gos(t, n)[1..] == Gos(t, n - 1);
      SoloRuns(cfg, s, e.g, t, e.th, n - 1);
    }
  }

  lemma {:induction false} RunThenRun(cfg: Config, s: State, a: seq<Label>, b: seq<Label>)
    requires Run(cfg, s, a).Some?
    ensures Run(cfg, s, a + b) == Run(cfg, Run(cfg, s, a).value, b)
    decreases |a|
  {
    if a == [] {
      assert a + b == b;
    } else {
      RunThenRun(cfg, Next(cfg, s, a[0]).value, a[1..], b);
      assert (a + b)[1..] == a[1..] + b;
    }
  }

  /** Goroutine t takes n steps in a row from the state that `before` leads to. */
  lemma GoAlone(cfg: Config, s: State, before: seq<Label>, m: State, t: Tid, n: nat)
    returns (after: seq<Label>, m': State)
    requires Run(cfg, s, before) == Some(m) && t < |m.threads|
    requires Solo(cfg, m.g, t, m.threads[t], n).Some?
    ensures Run(cfg, s, after) == Some(m')
    ensures var e := Solo(cfg, m.g, t, m.threads[t], n).value; m' == With(m, e.g, t, e.th)
  {
    var e := Solo(cfg, m.g, t, m.threads[t], n).value;
    m' := With(m, e.g, t, e.th);
    after := before + Gos(t, n);
    assert With(m, m.g, t, m.threads[t]) == m;
    SoloRuns(cfg, m, m.g, t, m.threads[t], n);
    RunThenRun(cfg, s, before, Gos(t, n));
  }

  lemma OneMore(cfg: Config, s: State, before: seq<Label>, m: State, l: Label) returns (after: seq<Label>, m': State)
    requires Run(cfg, s, before) == Some(m) && Next(cfg, m, l).Some?
    ensures Run(cfg, s, after) == Some(m') && Some(m') == Next(cfg, m, l)
  {
    after := before + [l];
    m' := Next(cfg, m, l).value;
    RunThenRun(cfg, s, before, [l]);
    assert Run(cfg, m', [l][1..]) == Some(m');
  }

  predicate LocksFree(g: Shared) { g.locks == Locks(None, {}, None) }

  // ---------------------------------------------------------------- calls that nobody interrupts

  lemma LeaveAlone(cfg: Config, g: Shared, t: Tid)
    requires LocksFree(g) && RegistryOK(g.registry) && g.registry.Connected()
    ensures Solo(cfg, g, t, Thread(Caller, Entry(CallDisconnect)), 5)
            == Some(Effect(g.(registry := g.registry.Detach(NO_ID)),
                           Thread(Caller, CloseLeft(CurrentConn(g.registry).value)), None))
  {
    var g1 := g.(locks := g.locks.(writer := Some(t)));
    var g2 := g1.(registry := g.registry.Detach(NO_ID));
    var next := ToStop(CurrentConn(g.registry));
    var left := Thread(Caller, UnlockMu(next));
    assert Solo(cfg, g2, t, left, 1) == Some(Effect(g2.(locks := g.locks), left.(pc := AfterUnlock(next)), None));
    assert Solo(cfg, g2, t, Thread(Caller, WantQ(StatusDepth(next))), 3) == Solo(cfg, g2, t, left, 1);
    assert Solo(cfg, g1, t, Thread(Caller, DrainMu(Leave(NO_ID))), 4)
        == Solo(cfg, g2, t, Thread(Caller, WantQ(StatusDepth(next))), 3);
  }

  /** Connect, up to the launch of its reader, while the old worker is still running: no worker is launched. */
  lemma ReconnectAlone(cfg: Config, g: Shared, t: Tid)
    requires LocksFree(g) && RegistryOK(g.registry) && !g.registry.Connected() && g.queue.Running()
    ensures var d := g.conns.dialled;
            Solo(cfg, g, t, Thread(Caller, Entry(CallConnect)), 8)
            == Some(Effect(g.(conns := g.conns.(dialled := d + 1), registry := g.registry.Adopt(d).0),
                           Thread(Caller, SpawnReader(d)), None))
  {
    var d := g.conns.dialled;
    var g0 := g.(conns := g.conns.(dialled := d + 1));
    var g1 := g0.(locks := g.locks.(writer := Some(t)));
    var g2 := g1.(registry := g.registry.Adopt(d).0);
    var last := Thread(Caller, UnlockMu(ToReader(d)));
    assert Solo(cfg, g2, t, last, 1) == Some(Effect(g2.(locks := g.locks), last.(pc := SpawnReader(d)), None));
    assert Solo(cfg, g2, t, Thread(Caller, WantQ(StatusDepth(ToReader(d)))), 3) == Solo(cfg, g2, t, last, 1);
    assert Solo(cfg, g2, t, Thread(Caller, WantQ(StartWorker(d))), 5)
        == Solo(cfg, g2, t, Thread(Caller, WantQ(StatusDepth(ToReader(d)))), 3);
    assert Solo(cfg, g1, t, Thread(Caller, DrainMu(Adopt(d))), 6)
        == Solo(cfg, g2, t, Thread(Caller, WantQ(StartWorker(d))), 5);
    assert Solo(cfg, g0, t, Thread(Caller, WantMu(Adopt(d))), 7)
        == Solo(cfg, g1, t, Thread(Caller, DrainMu(Adopt(d))), 6);
  }

  lemma SendAlone(cfg: Config, g: Shared, u: Tid, th: Thread, item: Item, d: ConnId)
    requires LocksFree(g) && th.role.Worker? && th.pc == WantRead(item)
    requires g.registry.Target(th.role.sid) == Some(d) && d !in g.conns.closed
    ensures Solo(cfg, g, u, th, 3)
            == Some(Effect(Tried(g, Attempt(item, Some(d), true)), th.(pc := WantMu(TouchAfterSend(item))), None))
  {
    var g1 := g.(locks := Locks(None, {u}, None));
    assert g1.(locks := g1.locks.(readers := g1.locks.readers - {u})) == g;
    assert Solo(cfg, g, u, th.(pc := Writing(item, d)), 1)
        == Some(Effect(Tried(g, Attempt(item, Some(d), true)), th.(pc := WantMu(TouchAfterSend(item))), None));
    assert Solo(cfg, g1, u, th.(pc := HoldRead(item)), 2) == Solo(cfg, g, u, th.(pc := Writing(item, d)), 1);
  }

  lemma SubmitAlone(cfg: Config, g: Shared, t: Tid, text: string)
    requires LocksFree(g) && g.registry.Connected() && !g.queue.Full(cfg.maxDepth)
    ensures var e := Solo(cfg, g, t, Thread(Caller, Entry(CallEnqueue(text))), 7);
            var x := Item(text, |g.log.accepted|, CurrentConn(g.registry));
            && e.Some? && e.value.th == Thread(Caller, Done)
            && e.value.g == g.(queue := g.queue.Append(x, cfg.maxDepth),
                               metrics := g.metrics.SetDepth(|g.queue.commands| + 1),
                               log := g.log.(accepted := g.log.accepted + [x]))
  {
    var x := Item(text, |g.log.accepted|, CurrentConn(g.registry));
    var g1 := g.(locks := g.locks.(writer := Some(t)));
    var g2 := g1.(queue := g.queue.Append(x, cfg.maxDepth), metrics := g.metrics.SetDepth(|g.queue.commands| + 1),
                  log := g.log.(accepted := g.log.accepted + [x]));
    var last := Thread(Caller, UnlockMu(Finish));
    assert Solo(cfg, g2, t, last, 1) == Some(Effect(g2.(locks := g.locks), Thread(Caller, Done), None));
    assert Solo(cfg, g2, t, Thread(Caller, WantQ(StatusDepth(Finish))), 3) == Solo(cfg, g2, t, last, 1);
    assert Solo(cfg, g1, t, Thread(Caller, WantQ(PutCommand(text))), 5)
        == Solo(cfg, g2, t, Thread(Caller, WantQ(StatusDepth(Finish))), 3);
    assert Solo(cfg, g1, t, Thread(Caller, DrainMu(Submit(text))), 6)
        == Solo(cfg, g1, t, Thread(Caller, WantQ(PutCommand(text))), 5);
  }

  /** The rest of disconnect up to the emptied queue. */
  lemma StopAlone(cfg: Config, g: Shared, t: Tid, k: ConnId)
    requires LocksFree(g)
    ensures var e := Solo(cfg, g, t, Thread(Caller, CloseLeft(k)), 3);
            && e.Some? && LocksFree(e.value.g) && e.value.g.registry == g.registry && e.value.g.queue == g.queue.Stop()
            && e.value.th.role == Caller && e.value.g.conns == CloseConn(g, k).conns && e.value.g.now == g.now
            && e.value.g.log.accepted == g.log.accepted && e.value.g.log.attempts == g.log.attempts
            && e.value.g.log.uncounted == g.log.uncounted + (if g.queue.Running() then 0 else |g.queue.commands|)
  {
    var g1 := CloseConn(g, k);
    var g2 := g1.(locks := g.locks.(queue := Some(t)));
    assert Solo(cfg, g1, t, Thread(Caller, WantQ(StopQueue)), 2)
        == Solo(cfg, g2, t, Thread(Caller, HoldQ(StopQueue)), 1);
    assert Solo(cfg, g, t, Thread(Caller, CloseLeft(k)), 3) == Solo(cfg, g1, t, Thread(Caller, WantQ(StopQueue)), 2);
  }

  // ---------------------------------------------------------------- an adoption inside the window

  /** A disconnect reaches its window, and a whole Connect falls into it. */
  lemma ReconnectInWindow(cfg: Config, s: State) returns (after: seq<Label>, m: State)
    requires LocksFree(s.g) && RegistryOK(s.g.registry) && s.g.registry.Connected() && s.g.queue.Running()
    ensures Run(cfg, s, after) == Some(m)
    ensures var n, d := |s.threads|, s.g.conns.dialled;
            && m.threads == s.threads + [Thread(Caller, CloseLeft(CurrentConn(s.g.registry).value)),
                                         Thread(Caller, SpawnReader(d))]
            && m.g == s.g.(conns := s.g.conns.(dialled := d + 1), registry := s.g.registry.Detach(NO_ID).Adopt(d).0)
  {
    var n := |s.threads|;
    after, m := OneMore(cfg, s, [], s, Call(CallDisconnect));
    LeaveAlone(cfg, s.g, n);
    after, m := GoAlone(cfg, s, after, m, n, 5);
    after, m := OneMore(cfg, s, after, m, Call(CallConnect));
    ReconnectAlone(cfg, m.g, n + 1);
    after, m := GoAlone(cfg, s, after, m, n + 1, 8);
  }

  /** A connection that has not been dialled yet is not the session's and has not been closed. */
  lemma NextDialIsNew(cfg: Config, s: State)
    requires Inv(cfg, s)
    ensures CurrentConn(s.g.registry) != Some(s.g.conns.dialled) && s.g.conns.dialled !in s.g.conns.closed
  {
    var d := s.g.conns.dialled;
    assert Total(s.threads, OwnsConn(d)) == Ledger(s.g, OwnsConn(d));
  }

  /** Whenever a worker holds a popped command, one undisciplined reconnect makes it write the command
      to the new connection. */
  lemma WindowReplays(cfg: Config, s: State, u: Tid) returns (after: seq<Label>)
    requires Inv(cfg, s) && LocksFree(s.g) && s.g.registry.Connected() && s.g.queue.Running()
    requires u < |s.threads| && s.threads[u].pc.WantRead? && s.threads[u].pc.item.conn == CurrentConn(s.g.registry)
    ensures Run(cfg, s, after).Some?
    ensures var a := Attempt(s.threads[u].pc.item, Some(s.g.conns.dialled), true);
            && Run(cfg, s, after).value.g.log.attempts == s.g.log.attempts + [a]
            && a.conn != a.item.conn
  {
    assert Local(s.g, s.workers, u, s.threads[u]);
    NextDialIsNew(cfg, s);
    var m: State;
    after, m := ReconnectInWindow(cfg, s);
    assert m.threads[u] == s.threads[u];
    SendAlone(cfg, m.g, u, m.threads[u], s.threads[u].pc.item, s.g.conns.dialled);
    after, m := GoAlone(cfg, s, after, m, u, 3);
  }

  /** Whatever the state, one undisciplined reconnect leaves a connected session whose worker has been
      stopped; the next command is accepted, never sent, and dropped without being counted. */
  lemma WindowLoses(cfg: Config, s: State, text: string) returns (first: seq<Label>, after: seq<Label>)
    requires Inv(cfg, s) && LocksFree(s.g) && s.g.registry.Connected() && s.g.queue.Running() && cfg.maxDepth > 0
    ensures Run(cfg, s, first).Some?
    ensures var g := Run(cfg, s, first).value.g; g.registry.Connected() && LocksFree(g) && !g.queue.Running()
    ensures Run(cfg, s, after).Some?
    ensures var g := Run(cfg, s, after).value.g;
            && |g.log.accepted| == |s.g.log.accepted| + 1 && g.queue.commands == []
            && g.log.uncounted == s.g.log.uncounted + 1
  {
    var n := |s.threads|;
    var k := CurrentConn(s.g.registry).value;
    var m: State;
    first, m := ReconnectInWindow(cfg, s);
    StopAlone(cfg, m.g, n, k);
    first, m := GoAlone(cfg, s, first, m, n, 3);
    after := Abandon(cfg, s, first, m, text);
  }

  /** A command put into a connected session without a worker is dropped uncounted. */
  lemma Abandon(cfg: Config, s: State, before: seq<Label>, m0: State, text: string) returns (after: seq<Label>)
    requires Run(cfg, s, before) == Some(m0)
    requires LocksFree(m0.g) && RegistryOK(m0.g.registry) && m0.g.registry.Connected()
    requires !m0.g.queue.Running() && m0.g.queue.commands == [] && cfg.maxDepth > 0
    ensures Run(cfg, s, after).Some?
    ensures var g := Run(cfg, s, after).value.g;
            && |g.log.accepted| == |m0.g.log.accepted| + 1 && g.queue.commands == []
            && g.log.uncounted == m0.g.log.uncounted + 1
  {
    var m := m0;
    var n := |m.threads|;
    after, m := OneMore(cfg, s, before, m, Call(CallEnqueue(text)));
    SubmitAlone(cfg, m.g, n, text);
    after, m := GoAlone(cfg, s, after, m, n, 7);
    after, m := OneMore(cfg, s, after, m, Call(CallDisconnect));
    LeaveAlone(cfg, m.g, n + 1);
    var k := CurrentConn(m.g.registry).value;
    after, m := GoAlone(cfg, s, after, m, n + 1, 5);
    StopAlone(cfg, m.g, n + 1, k);
    after, m := GoAlone(cfg, s, after, m, n + 1, 3);
  }

  /** The session id does not tell connections apart: a reader's error, also one that belongs to an
      earlier connection, takes away whatever connection the session has. */
  lemma StaleReaderDetaches(cfg: Config, s: State, u: Tid) returns (after: seq<Label>)
    requires Inv(cfg, s) && LocksFree(s.g) && s.g.registry.Connected()
    requires u < |s.threads| && s.threads[u].pc.Reading?
    ensures Run(cfg, s, after).Some? && !Run(cfg, s, after).value.g.registry.Connected()
    ensures var m := Run(cfg, s, after).value;
            u < |m.threads| && OwnedConn(m.threads[u].pc) == CurrentConn(s.g.registry)
  {
    assert Local(s.g, s.workers, u, s.threads[u]);
    var m: State;
    after, m := OneMore(cfg, s, [], s, Go(u, Bad));
    after, m := OneMore(cfg, s, after, m, Go(u, Good));
    after, m := OneMore(cfg, s, after, m, Go(u, Good));
  }

  // ---------------------------------------------------------------- such states are reached

  /** Connect, up to the start of a queue that has no worker. */
  lemma DialAlone(cfg: Config, g: Shared, t: Tid)
    requires LocksFree(g) && !g.registry.Connected()
    ensures var d := g.conns.dialled;
            Solo(cfg, g, t, Thread(Caller, Entry(CallConnect)), 4)
            == Some(Effect(g.(locks := Locks(Some(t), {}, Some(t)), registry := g.registry.Adopt(d).0,
                              conns := g.conns.(dialled := d + 1)),
                           Thread(Caller, HoldQ(StartWorker(d))), None))
  {
    var d := g.conns.dialled;
    var g0 := g.(conns := g.conns.(dialled := d + 1));
    var g1 := g0.(locks := Locks(Some(t), {}, None));
    var g2 := g1.(registry := g.registry.Adopt(d).0);
    var g3 := g2.(locks := Locks(Some(t), {}, Some(t)));
    assert Solo(cfg, g2, t, Thread(Caller, WantQ(StartWorker(d))), 1)
        == Some(Effect(g3, Thread(Caller, HoldQ(StartWorker(d))), None));
    assert Solo(cfg, g1, t, Thread(Caller, DrainMu(Adopt(d))), 2)
        == Solo(cfg, g2, t, Thread(Caller, WantQ(StartWorker(d))), 1);
    assert Solo(cfg, g0, t, Thread(Caller, WantMu(Adopt(d))), 3)
        == Solo(cfg, g1, t, Thread(Caller, DrainMu(Adopt(d))), 2);
  }

  /** The end of a call that holds the manager's lock: statusLocked and the unlock. */
  lemma StatusAlone(cfg: Config, g: Shared, t: Tid, next: After)
    requires g.locks == Locks(Some(t), {}, None)
    ensures Solo(cfg, g, t, Thread(Caller, WantQ(StatusDepth(next))), 3)
            == Some(Effect(g.(locks := Locks(None, {}, None)), Thread(Caller, AfterUnlock(next)), None))
  {
    var last := Thread(Caller, UnlockMu(next));
    assert Solo(cfg, g, t, last, 1)
        == Some(Effect(g.(locks := Locks(None, {}, None)), last.(pc := AfterUnlock(next)), None));
    assert g.(locks := g.locks.(queue := Some(t))).(locks := g.locks) == g;
  }

  /** A Connect, up to the start of the queue. */
  lemma StartAt(cfg: Config, s: State, before: seq<Label>, m: State) returns (after: seq<Label>, m': State)
    requires Run(cfg, s, before) == Some(m)
    requires LocksFree(m.g) && RegistryOK(m.g.registry) && !m.g.registry.Connected()
    ensures Run(cfg, s, after) == Some(m')
    ensures var n, d := |m.threads|, m.g.conns.dialled;
            && m'.threads == m.threads + [Thread(Caller, HoldQ(StartWorker(d)))] && m'.workers == m.workers
            && m'.g == m.g.(locks := Locks(Some(n), {}, Some(n)), registry := m.g.registry.Adopt(d).0,
                            conns := m.g.conns.(dialled := d + 1))
  {
    after, m' := OneMore(cfg, s, before, m, Call(CallConnect));
    DialAlone(cfg, m.g, |m.threads|);
    after, m' := GoAlone(cfg, s, after, m', |m.threads|, 4);
  }

  /** A Connect that launches a worker, up to the launch of its reader. */
  lemma Launch(cfg: Config, s: State, before: seq<Label>, m: State) returns (after: seq<Label>, m': State)
    requires Run(cfg, s, before) == Some(m)
    requires LocksFree(m.g) && RegistryOK(m.g.registry) && !m.g.registry.Connected() && !m.g.queue.Running()
    ensures Run(cfg, s, after) == Some(m')
    ensures var n, d := |m.threads|, m.g.conns.dialled;
            && m'.threads == m.threads + [Thread(Caller, SpawnReader(d)),
                                          Thread(Worker(m.g.queue.started, SID, None), NewTicker)]
            && m'.workers == m.workers + [n + 1]
            && m'.g == m.g.(registry := m.g.registry.Adopt(d).0, queue := m.g.queue.Start(),
                            conns := m.g.conns.(dialled := d + 1))
  {
    var n, d := |m.threads|, m.g.conns.dialled;
    after, m' := StartAt(cfg, s, before, m);
    after, m' := OneMore(cfg, s, after, m', Go(n, Good));
    assert m'.threads[n] == Thread(Caller, WantQ(StatusDepth(ToReader(d))));
    StatusAlone(cfg, m'.g, n, ToReader(d));
    after, m' := GoAlone(cfg, s, after, m', n, 3);
  }

  lemma PopAlone(cfg: Config, g: Shared, t: Tid, role: Role, due: nat)
    requires LocksFree(g) && g.queue.commands != []
    requires role.Worker? && role.ticker.Some? && role.ticker.value.tick == Some(due)
    ensures var e := Solo(cfg, g, t, Thread(role, Select), 3);
            && e.Some? && e.value.th.pc == WantRead(g.queue.commands[0]) && LocksFree(e.value.g)
            && e.value.g.registry == g.registry && e.value.g.queue == g.queue.Pop().0
            && e.value.th.role == role.(ticker := Some(role.ticker.value.(tick := None)))
            && e.value.g.conns == g.conns && e.value.g.now == g.now
            && e.value.g.log.accepted == g.log.accepted && e.value.g.log.attempts == g.log.attempts
  {
    var role1 := role.(ticker := Some(role.ticker.value.(tick := None)));
    var g1 := g.(log := g.log.(handoffs := g.log.handoffs + [Handoff(g.now, due)]));
    var g2 := g1.(locks := Locks(None, {}, Some(t)));
    assert Solo(cfg, g1, t, Thread(role1, WantQ(PopCommand)), 2)
        == Solo(cfg, g2, t, Thread(role1, HoldQ(PopCommand)), 1);
    assert Solo(cfg, g, t, Thread(role, Select), 3) == Solo(cfg, g1, t, Thread(role1, WantQ(PopCommand)), 2);
  }

  /** A command that a connected session accepts. */
  lemma Accept(cfg: Config, s: State, before: seq<Label>, m: State, text: string) returns (after: seq<Label>, m': State)
    requires Run(cfg, s, before) == Some(m)
    requires LocksFree(m.g) && m.g.registry.Connected() && !m.g.queue.Full(cfg.maxDepth)
    ensures Run(cfg, s, after) == Some(m')
    ensures var x := Item(text, |m.g.log.accepted|, CurrentConn(m.g.registry));
            && m'.threads == m.threads + [Thread(Caller, Done)] && m'.workers == m.workers
            && m'.g == m.g.(queue := m.g.queue.Append(x, cfg.maxDepth),
                            metrics := m.g.metrics.SetDepth(|m.g.queue.commands| + 1),
                            log := m.g.log.(accepted := m.g.log.accepted + [x]))
  {
    var n := |m.threads|;
    after, m' := OneMore(cfg, s, before, m, Call(CallEnqueue(text)));
    SubmitAlone(cfg, m.g, n, text);
    after, m' := GoAlone(cfg, s, after, m', n, 7);
  }

  function TickedRole(cfg: Config, role: Role, now: nat): Role
    requires role.Worker?
  {
    role.(ticker := Some(Ticker(now + cfg.interval + cfg.interval, Some(now + cfg.interval))))
  }

  /** The time comes when a new ticker fires. */
  lemma Fire(cfg: Config, s: State, before: seq<Label>, m: State, u: Tid) returns (after: seq<Label>, m': State)
    requires Run(cfg, s, before) == Some(m) && u < |m.threads| && m.threads[u].role.Worker?
    requires m.threads[u].role.ticker == Some(Ticker(m.g.now + cfg.interval, None))
    requires forall t | 0 <= t < |m.threads| && Ticking(m.threads[t]) ::
               m.g.now + cfg.interval <= m.threads[t].role.ticker.value.nextDue
    ensures Run(cfg, s, after) == Some(m')
    ensures m'.threads == m.threads[u := m.threads[u].(role := TickedRole(cfg, m.threads[u].role, m.g.now))]
    ensures m'.g == m.g.(now := m.g.now + cfg.interval) && m'.workers == m.workers
  {
    after, m' := OneMore(cfg, s, before, m, Advance(cfg.interval));
    after, m' := OneMore(cfg, s, after, m', Tick(u));
  }

  /** A worker that has just been launched makes its ticker, and the time comes when it fires. */
  lemma FirstTick(cfg: Config, s: State, before: seq<Label>, m: State, u: Tid) returns (after: seq<Label>, m': State)
    requires Run(cfg, s, before) == Some(m) && u < |m.threads|
    requires m.threads[u].pc == NewTicker && m.threads[u].role.Worker?
    requires forall t | 0 <= t < |m.threads| && t != u && Ticking(m.threads[t]) ::
               m.g.now + cfg.interval <= m.threads[t].role.ticker.value.nextDue
    ensures Run(cfg, s, after) == Some(m')
    ensures m'.threads == m.threads[u := Thread(TickedRole(cfg, m.threads[u].role, m.g.now), Select)]
    ensures m'.g == m.g.(now := m.g.now + cfg.interval) && m'.workers == m.workers
  {
    var ready: State;
    after, ready := OneMore(cfg, s, before, m, Go(u, Good));
    var role := m.threads[u].role.(ticker := Some(Ticker(m.g.now + cfg.interval, None)));
    assert ready.threads == m.threads[u := Thread(role, Select)];
    after, m' := Fire(cfg, s, after, ready, u);
  }

  predicate HasTick(th: Thread) {
    th.pc == Select && th.role.Worker? && th.role.ticker.Some? && th.role.ticker.value.tick.Some?
  }

  /** The worker's select takes the tick, and the worker pops. */
  lemma PopOne(cfg: Config, s: State, before: seq<Label>, m: State, u: Tid) returns (after: seq<Label>, m': State)
    requires Run(cfg, s, before) == Some(m) && LocksFree(m.g) && u < |m.threads| && HasTick(m.threads[u])
    requires m.g.queue.commands != []
    ensures Run(cfg, s, after) == Some(m') && LocksFree(m'.g) && m'.workers == m.workers
    ensures var role := m.threads[u].role;
            m'.threads == m.threads[u := Thread(role.(ticker := Some(role.ticker.value.(tick := None))),
                                                WantRead(m.g.queue.commands[0]))]
    ensures && m'.g.registry == m.g.registry && m'.g.queue == m.g.queue.Pop().0
            && m'.g.conns == m.g.conns && m'.g.now == m.g.now
            && m'.g.log.accepted == m.g.log.accepted && m'.g.log.attempts == m.g.log.attempts
  {
    var th := m.threads[u];
    PopAlone(cfg, m.g, u, th.role, th.role.ticker.value.tick.value);
    assert Thread(th.role, Select) == th;
    after, m' := GoAlone(cfg, s, before, m, u, 3);
  }

  /** One connection and one command; goroutine 1 is the worker. */
  lemma FirstAccept(cfg: Config, text: string) returns (after: seq<Label>, m: State)
    requires cfg.maxDepth > 0
    ensures Run(cfg, INIT, after) == Some(m) && LocksFree(m.g) && m.g.registry.Connected() && m.g.queue.Running()
    ensures m.threads == [Thread(Caller, SpawnReader(0)), Thread(Worker(0, SID, None), NewTicker), Thread(Caller, Done)]
    ensures var x := Item(text, 0, CurrentConn(m.g.registry));
            && m.g.queue.commands == [x] && m.g.log.accepted == [x] && m.g.log.attempts == []
            && m.g.metrics == ZERO.SetDepth(1)
    ensures m.g.conns == Conns(1, multiset{}) && RegistryOK(m.g.registry) && CurrentConn(m.g.registry) == Some(0)
  {
    after, m := Launch(cfg, INIT, [], INIT);
    after, m := Accept(cfg, INIT, after, m, text);
  }

  /** One connection, one command, one tick: the worker holds the command. */
  lemma FirstPop(cfg: Config, text: string) returns (after: seq<Label>, m: State)
    requires cfg.maxDepth > 0
    ensures Run(cfg, INIT, after) == Some(m) && LocksFree(m.g) && m.g.registry.Connected() && m.g.queue.Running()
    ensures |m.threads| == 3 && m.threads[0].role == Caller && m.threads[2].role == Caller
    ensures var x := Item(text, 0, CurrentConn(m.g.registry));
            && m.threads[1] == Thread(Worker(0, SID, Some(Ticker(m.g.now + cfg.interval, None))), WantRead(x))
            && m.g.log.accepted == [x] && m.g.log.attempts == [] && m.g.queue.commands == []
    ensures m.g.conns == Conns(1, multiset{}) && RegistryOK(m.g.registry) && CurrentConn(m.g.registry) == Some(0)
  {
    after, m := FirstAccept(cfg, text);
    after, m := FirstTick(cfg, INIT, after, m, 1);
    assert m.threads[1] == Thread(TickedRole(cfg, Worker(0, SID, None), m.g.now - cfg.interval), Select);
    assert m.threads[0].role == Caller && m.threads[2].role == Caller;
    after, m := PopOne(cfg, INIT, after, m, 1);
  }

  lemma ExecIsRun(cfg: Config, schedule: seq<Label>)
    ensures Exec(cfg, schedule) == Run(cfg, INIT, schedule)
  {
    ExecThenRun(cfg, [], schedule);
    assert [] + schedule == schedule;
  }

  /** Without the discipline the gateway does replay: whatever the configuration, some schedule writes
      a command to a connection other than the one it was accepted for. */
  lemma ReplayHappens(cfg: Config) returns (schedule: seq<Label>)
    requires cfg.maxDepth > 0
    ensures Exec(cfg, schedule).Some?
    ensures exists a :: a in Exec(cfg, schedule).value.g.log.attempts && a.ok && a.conn != a.item.conn
  {
    var before, m := FirstPop(cfg, "north");
    ExecIsRun(cfg, before);
    ExecInv(cfg, before);
    var after := WindowReplays(cfg, m, 1);
    schedule := before + after;
    RunThenRun(cfg, INIT, before, after);
    ExecIsRun(cfg, schedule);
    assert Attempt(m.threads[1].pc.item, Some(m.g.conns.dialled), true) in Exec(cfg, schedule).value.g.log.attempts;
  }
}
