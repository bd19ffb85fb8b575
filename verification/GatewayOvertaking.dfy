/** Why launches must be alone: a second worker can send a later command before the first one sends its own. */
module GatewayOvertaking {
  import opened Wrappers
  import opened GatewayMetrics
  import opened Managers
  import opened GatewaySystem
  import opened GatewayInvariants
  import opened GatewayUndisciplined

  /** Goroutine 1 is a worker that holds the first command; the locks are free and nothing has been tried. */
  predicate OldWorkerHolds(cfg: Config, m: State, first: Item) {
    && LocksFree(m.g) && RegistryOK(m.g.registry) && m.g.registry.session.Some? && |m.threads| > 1
    && m.threads[1] == Thread(Worker(0, SID, Some(Ticker(m.g.now + cfg.interval, None))), WantRead(first))
    && first.serial == 0 && m.g.log.accepted == [first] && m.g.log.attempts == []
    && (forall t | 0 <= t < |m.threads| && t != 1 :: !Ticking(m.threads[t]))
    && m.g.queue.commands == [] && m.g.conns.dialled == 1 && (forall c | c in m.g.conns.closed :: c < 1)
  }

  /** A disconnect, up to the emptied and stopped queue. */
  lemma Disconnect(cfg: Config, s: State, before: seq<Label>, m: State) returns (after: seq<Label>, m': State)
    requires Run(cfg, s, before) == Some(m)
    requires LocksFree(m.g) && RegistryOK(m.g.registry) && m.g.registry.Connected()
    ensures Run(cfg, s, after) == Some(m') && LocksFree(m'.g) && m'.workers == m.workers
    ensures |m'.threads| == |m.threads| + 1 && m'.threads[..|m.threads|] == m.threads
    ensures m'.threads[|m.threads|].role == Caller
    ensures && m'.g.registry == m.g.registry.Detach(NO_ID) && m'.g.queue == m.g.queue.Stop()
            && m'.g.conns == CloseConn(m.g, CurrentConn(m.g.registry).value).conns && m'.g.now == m.g.now
            && m'.g.log.accepted == m.g.log.accepted && m'.g.log.attempts == m.g.log.attempts
  {
    var n, k := |m.threads|, CurrentConn(m.g.registry).value;
    after, m' := OneMore(cfg, s, before, m, Call(CallDisconnect));
    LeaveAlone(cfg, m.g, n);
    after, m' := GoAlone(cfg, s, after, m', n, 5);
    StopAlone(cfg, m'.g, n, k);
    after, m' := GoAlone(cfg, s, after, m', n, 3);
  }

  /** The worker holds the command while a disconnect stops its queue and waits for it. */
  lemma StopPastHolder(cfg: Config) returns (after: seq<Label>, m: State, first: Item)
    requires cfg.maxDepth > 0
    ensures Run(cfg, INIT, after) == Some(m) && OldWorkerHolds(cfg, m, first)
    ensures !m.g.registry.Connected() && !m.g.queue.Running()
  {
    after, m := FirstPop(cfg, "north");
    first := m.threads[1].pc.item;
    after, m := Disconnect(cfg, INIT, after, m);
  }

  /** A Connect launches a second worker, which gets a command and its tick. */
  lemma SecondWorkerReady(cfg: Config) returns (after: seq<Label>, m: State, first: Item, u: Tid)
    requires cfg.maxDepth > 0
    ensures Run(cfg, INIT, after) == Some(m) && LocksFree(m.g)
    ensures 1 < u < |m.threads| && HasTick(m.threads[u]) && m.threads[u].role.sid == SID
    ensures m.threads[1].role.Worker? && m.threads[1].role.sid == SID && m.threads[1].pc == WantRead(first)
    ensures first.serial == 0 && m.g.log.attempts == []
    ensures |m.g.queue.commands| == 1 && m.g.queue.commands[0].serial == 1
    ensures m.g.registry.Target(SID) == Some(1) && 1 !in m.g.conns.closed
  {
    after, m, first := StopPastHolder(cfg);
    u := |m.threads| + 1;
    after, m := Launch(cfg, INIT, after, m);
    after, m := Accept(cfg, INIT, after, m, "south");
    after, m := FirstTick(cfg, INIT, after, m, u);
  }

  lemma SendOne(cfg: Config, s: State, before: seq<Label>, m: State, u: Tid, item: Item, d: ConnId)
    returns (after: seq<Label>, m': State)
    requires Run(cfg, s, before) == Some(m) && LocksFree(m.g) && u < |m.threads|
    requires m.threads[u].role.Worker? && m.threads[u].pc == WantRead(item)
    requires m.g.registry.Target(m.threads[u].role.sid) == Some(d) && d !in m.g.conns.closed
    ensures Run(cfg, s, after) == Some(m')
    ensures m'.g == Tried(m.g, Attempt(item, Some(d), true)) && |m'.threads| == |m.threads|
    ensures forall t | 0 <= t < |m.threads| && t != u :: m'.threads[t] == m.threads[t]
  {
    SendAlone(cfg, m.g, u, m.threads[u], item, d);
    after, m' := GoAlone(cfg, s, before, m, u, 3);
  }

  /** Whatever the configuration, some schedule sends the second accepted command before the first. */
  lemma OvertakingHappens(cfg: Config) returns (schedule: seq<Label>)
    requires cfg.maxDepth > 0
    ensures Exec(cfg, schedule).Some?
    ensures var a := Exec(cfg, schedule).value.g.log.attempts;
            |a| == 2 && a[0].ok && a[1].ok && a[0].item.serial > a[1].item.serial
  {
    var m: State, first: Item, u: Tid;
    schedule, m, first, u := SecondWorkerReady(cfg);
    var second := m.g.queue.commands[0];
    schedule, m := PopOne(cfg, INIT, schedule, m, u);
    schedule, m := SendOne(cfg, INIT, schedule, m, u, second, 1);
    schedule, m := SendOne(cfg, INIT, schedule, m, 1, first, 1);
    ExecIsRun(cfg, schedule);
    assert m.g.log.attempts == [Attempt(second, Some(1), true), Attempt(first, Some(1), true)];
  }
}
