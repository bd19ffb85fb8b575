/**
  What the gateway does for a command when nobody gets in the way, from every reachable state in which the locks are
  free: Enqueue accepts it, and a worker whose tick is waiting sends the head of the queue and counts the outcome.
 */
module GatewayDelivery {
  import opened Wrappers
  import opened GatewayMetrics
  import opened Managers
  import opened GatewaySystem
  import opened GatewayInvariants
  import opened GatewayLedger
  import opened GatewayUndisciplined

  function Untick(role: Role): Role
    requires role.Worker? && role.ticker.Some?
  {
    role.(ticker := Some(role.ticker.value.(tick := None)))
  }

  /** The worker's select takes the waiting tick, and the worker pops the head under the queue's lock. */
  lemma TakeHead(cfg: Config, g: Shared, t: Tid, th: Thread)
    requires LocksFree(g) && g.queue.commands != [] && HasTick(th)
    ensures var e := Solo(cfg, g, t, th, 3);
            && e.Some? && e.value.th == Thread(Untick(th.role), WantRead(g.queue.commands[0]))
            && e.value.g == g.(queue := g.queue.(commands := g.queue.commands[1..]),
                               metrics := g.metrics.(depth := |g.queue.commands| - 1), log := e.value.g.log)
            && e.value.g.log.attempts == g.log.attempts && e.value.g.log.accepted == g.log.accepted
  {
    var g1 := g.(log := g.log.(handoffs := g.log.handoffs + [Handoff(g.now, th.role.ticker.value.tick.value)]));
    var g2 := g1.(locks := Locks(None, {}, Some(t)));
    assert Solo(cfg, g1, t, Thread(Untick(th.role), WantQ(PopCommand)), 2)
        == Solo(cfg, g2, t, Thread(Untick(th.role), HoldQ(PopCommand)), 1);
    assert Solo(cfg, g, t, th, 3) == Solo(cfg, g1, t, Thread(Untick(th.role), WantQ(PopCommand)), 2);
  }

  /** The sender takes the session's connection under the read lock. */
  lemma TakeConnection(cfg: Config, g: Shared, t: Tid, th: Thread, item: Item, conn: ConnId)
    requires LocksFree(g) && th.role.Worker? && th.pc == WantRead(item)
    requires g.registry.Target(th.role.sid) == Some(conn)
    ensures Solo(cfg, g, t, th, 2) == Some(Effect(g, th.(pc := Writing(item, conn)), None))
  {
    var g1 := g.(locks := Locks(None, {t}, None));
    assert g1.(locks := g1.locks.(readers := g1.locks.readers - {t})) == g;
    assert Solo(cfg, g1, t, th.(pc := HoldRead(item)), 1) == Some(Effect(g, th.(pc := Writing(item, conn)), None));
  }

  /** What run does after the sender has returned. */
  lemma CountSuccess(cfg: Config, g: Shared, t: Tid, th: Thread, item: Item)
    requires LocksFree(g) && th.role.Worker? && th.pc == WantMu(TouchAfterSend(item))
    ensures Solo(cfg, g, t, th, 3) == Some(Effect(g.(metrics := g.metrics.(sent := g.metrics.sent + 1)),
                                                  th.(pc := Select), None))
  {
    var g1 := g.(locks := Locks(Some(t), {}, None));
    assert Release(g1) == g;
    assert Solo(cfg, g, t, th.(pc := CountSent(item)), 1)
        == Some(Effect(g.(metrics := g.metrics.(sent := g.metrics.sent + 1)), th.(pc := Select), None));
    assert Solo(cfg, g1, t, th.(pc := DrainMu(TouchAfterSend(item))), 2)
        == Solo(cfg, g, t, th.(pc := CountSent(item)), 1);
  }

  lemma CountFailure(cfg: Config, g: Shared, t: Tid, th: Thread, item: Item)
    requires LocksFree(g) && th.role.Worker? && th.pc == CountFailed(item)
    ensures Solo(cfg, g, t, th, 3) == Some(Effect(g.(metrics := g.metrics.(sendFailed := g.metrics.sendFailed + 1)),
                                                  th.(pc := Select), None))
  {
    var g1 := g.(metrics := g.metrics.(sendFailed := g.metrics.sendFailed + 1));
    var g2 := g1.(locks := Locks(None, {}, Some(t)));
    assert g2.(locks := g2.locks.(queue := None)) == g1;
    assert Solo(cfg, g2, t, th.(pc := HoldQ(FailureDepth)), 1) == Some(Effect(g1, th.(pc := Select), None));
    assert Solo(cfg, g1, t, th.(pc := WantQ(FailureDepth)), 2) == Solo(cfg, g2, t, th.(pc := HoldQ(FailureDepth)), 1);
  }

  /** The session's connection is not closed. */
  lemma CurrentIsOpen(cfg: Config, s: State)
    requires Inv(cfg, s) && CurrentConn(s.g.registry).Some?
    ensures CurrentConn(s.g.registry).value !in s.g.conns.closed
  {
    var c := CurrentConn(s.g.registry).value;
    assert Total(s.threads, OwnsConn(c)) == Ledger(s.g, OwnsConn(c));
  }

  /** A waiting tick sends the head of the queue to the session's connection, and only the counter of the write's
      outcome moves; the worker is then back at its select, with the rest of the queue. */
  lemma TickSendsHead(cfg: Config, s: State, u: Tid, ok: bool) returns (after: seq<Label>)
    requires Inv(cfg, s) && LocksFree(s.g) && s.g.registry.Connected() && s.g.queue.commands != []
    requires u < |s.threads| && HasTick(s.threads[u])
    ensures Run(cfg, s, after).Some?
    ensures var m, g := Run(cfg, s, after).value, s.g;
            var head, rest := g.queue.commands[0], g.queue.commands[1..];
            && m.threads == s.threads[u := Thread(Untick(s.threads[u].role), Select)] && m.workers == s.workers
            && m.g.queue == g.queue.(commands := rest)
            && m.g.log.attempts == g.log.attempts + [Attempt(head, CurrentConn(g.registry), ok)]
            && m.g.metrics == (if ok then g.metrics.(depth := |rest|, sent := g.metrics.sent + 1)
                               else g.metrics.(depth := |rest|, sendFailed := g.metrics.sendFailed + 1))
            && m.g.registry == g.registry && m.g.conns == g.conns && m.g.log.accepted == g.log.accepted
            && LocksFree(m.g)
  {
    assert Local(s.g, s.workers, u, s.threads[u]);
    var th := s.threads[u];
    var head, conn := s.g.queue.commands[0], CurrentConn(s.g.registry).value;
    CurrentIsOpen(cfg, s);
    TakeHead(cfg, s.g, u, th);
    var m: State;
    after, m := GoAlone(cfg, s, [], s, u, 3);
    TakeConnection(cfg, m.g, u, m.threads[u], head, conn);
    after, m := GoAlone(cfg, s, after, m, u, 2);
    after, m := Write(cfg, s, after, m, u, ok);
  }

  lemma WriteStep(cfg: Config, m: State, u: Tid, ok: bool)
    requires u < |m.threads| && m.threads[u].role.Worker?
    requires m.threads[u].pc.Writing? && m.threads[u].pc.conn !in m.g.conns.closed
    ensures var th := m.threads[u];
            var item := th.pc.item;
            Next(cfg, m, Go(u, if ok then Good else Bad))
            == Some(With(m, Tried(m.g, Attempt(item, Some(th.pc.conn), ok)), u,
                         th.(pc := if ok then WantMu(TouchAfterSend(item)) else CountFailed(item))))
  {
  }

  /** The write itself, with its outcome, and what follows in run. */
  lemma Write(cfg: Config, s: State, before: seq<Label>, m: State, u: Tid, ok: bool)
    returns (after: seq<Label>, m': State)
    requires Run(cfg, s, before) == Some(m) && LocksFree(m.g) && u < |m.threads| && m.threads[u].role.Worker?
    requires m.threads[u].pc.Writing? && m.threads[u].pc.conn !in m.g.conns.closed
    ensures Run(cfg, s, after) == Some(m')
    ensures var g, th := m.g, m.threads[u];
            && m' == With(m, m'.g, u, th.(pc := Select))
            && m'.g == g.(log := g.log.(attempts := g.log.attempts + [Attempt(th.pc.item, Some(th.pc.conn), ok)]),
                          metrics := if ok then g.metrics.(sent := g.metrics.sent + 1)
                                     else g.metrics.(sendFailed := g.metrics.sendFailed + 1))
  {
    var item := m.threads[u].pc.item;
    WriteStep(cfg, m, u, ok);
    after, m' := OneMore(cfg, s, before, m, Go(u, if ok then Good else Bad));
    if ok {
      CountSuccess(cfg, m'.g, u, m'.threads[u], item);
    } else {
      CountFailure(cfg, m'.g, u, m'.threads[u], item);
    }
    after, m' := GoAlone(cfg, s, after, m', u, 3);
  }

  /** A command that finds the session connected and fewer than maxDepth waiting is accepted: it is the last in the
      queue, recorded with its text and the session's connection. */
  lemma EnqueueAccepts(cfg: Config, s: State, text: string) returns (after: seq<Label>)
    requires LocksFree(s.g) && s.g.registry.Connected() && |s.g.queue.commands| < cfg.maxDepth
    ensures Run(cfg, s, after).Some?
    ensures var m, g := Run(cfg, s, after).value, s.g;
            var x := Item(text, |g.log.accepted|, CurrentConn(g.registry));
            && m.threads == s.threads + [Thread(Caller, Done)]
            && m.g == g.(queue := g.queue.(commands := g.queue.commands + [x]),
                         metrics := g.metrics.(depth := |g.queue.commands| + 1),
                         log := g.log.(accepted := g.log.accepted + [x]))
  {
    var m: State;
    after, m := Accept(cfg, s, [], s, text);
  }

  /** From the start: one Connect, one Enqueue, one tick, and one write with its outcome. */
  lemma FirstCommandIsSent(cfg: Config, text: string, ok: bool) returns (schedule: seq<Label>)
    requires cfg.maxDepth > 0
    ensures Exec(cfg, schedule).Some?
    ensures var g := Exec(cfg, schedule).value.g;
            && g.log.attempts == [Attempt(Item(text, 0, Some(0)), Some(0), ok)] && g.queue.commands == []
            && g.metrics == (if ok then ZERO.(sent := 1) else ZERO.(sendFailed := 1))
  {
    var before, m := FirstAccept(cfg, text);
    before, m := FirstTick(cfg, INIT, before, m, 1);
    ExecIsRun(cfg, before);
    ExecInv(cfg, before);
    var after := TickSendsHead(cfg, m, 1, ok);
    schedule := before + after;
    RunThenRun(cfg, INIT, before, after);
    ExecIsRun(cfg, schedule);
  }
}
