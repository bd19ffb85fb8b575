/** What the gateway guarantees: first over every interleaving, then under the reconnect discipline. */
module GatewayTheorems {
  import opened Wrappers
  import opened Managers
  import opened GatewaySystem
  import opened GatewayInvariants
  import opened GatewayLedger
  import opened GatewayDiscipline
  import opened GatewayReconnect
  import opened GatewayMisdirection
  import opened GatewayLaunches
  import opened GatewayOrder
  import opened GatewayServed
  import opened GatewayCounted

  // ---------------------------------------------------------------- every interleaving

  /** Commands leave the queue in acceptance order, the rest is still queued, and the gauge shows how many. */
  lemma QueueIsAcceptedSuffix(cfg: Config, schedule: seq<Label>)
    requires Exec(cfg, schedule).Some?
    ensures var g := Exec(cfg, schedule).value.g;
            && (forall i | 0 <= i < |g.log.accepted| :: g.log.accepted[i].serial == i)
            && |g.log.removed| + |g.queue.commands| == |g.log.accepted|
            && (forall i | 0 <= i < |g.log.removed| :: g.log.removed[i].item == g.log.accepted[i])
            && g.queue.commands == g.log.accepted[|g.log.removed|..]
            && |g.queue.commands| <= cfg.maxDepth
            && g.metrics.depth == |g.queue.commands|
  {
    ExecInv(cfg, schedule);
  }

  lemma {:induction false} RemovalsOf(removed: seq<Removal>, x: Item, i: nat)
    requires i < |removed| && removed[i].item == x
    requires forall j | 0 <= j < |removed| && j != i :: removed[j].item != x
    ensures Sum(removed, PoppedOf(x)) == Bit(removed[i].popped)
  {
    var n := |removed| - 1;
    if i < n {
      RemovalsOf(removed[..n], x, i);
    } else {
      NoRemovalsOf(removed[..n], x);
    }
  }

  lemma {:induction false} NoRemovalsOf(removed: seq<Removal>, x: Item)
    requires forall j | 0 <= j < |removed| :: removed[j].item != x
    ensures Sum(removed, PoppedOf(x)) == 0
  {
    if removed != [] {
      NoRemovalsOf(removed[..|removed| - 1], x);
    }
  }

  /** Each accepted command is in exactly one place: queued, dropped, in one worker's hand, or tried
      exactly once. */
  lemma EachCommandOnce(cfg: Config, schedule: seq<Label>, i: nat)
    requires Exec(cfg, schedule).Some? && i < |Exec(cfg, schedule).value.g.log.accepted|
    ensures var s := Exec(cfg, schedule).value;
            var x := s.g.log.accepted[i];
            Sum(s.g.log.attempts, TriedOf(x)) + Total(s.threads, InHand(x))
            == (if i < |s.g.log.removed| && s.g.log.removed[i].popped then 1 else 0)
  {
    ExecInv(cfg, schedule);
    var s := Exec(cfg, schedule).value;
    var x := s.g.log.accepted[i];
    assert forall j | 0 <= j < |s.g.log.removed| :: s.g.log.removed[j].item == s.g.log.accepted[j];
    if i < |s.g.log.removed| {
      RemovalsOf(s.g.log.removed, x, i);
    } else {
      NoRemovalsOf(s.g.log.removed, x);
    }
    assert Total(s.threads, InHand(x)) == Ledger(s.g, InHand(x));
  }

  lemma ExecBook(cfg: Config, schedule: seq<Label>, m: Measure)
    requires Exec(cfg, schedule).Some? && Booked(m)
    ensures Total(Exec(cfg, schedule).value.threads, m) == Ledger(Exec(cfg, schedule).value.g, m)
  {
    ExecInv(cfg, schedule);
    assert Books(Exec(cfg, schedule).value);
  }

  /** Each outcome of the sender is counted as what it was: the counter, and the goroutines that have yet to
      move it, make up the calls of the sender that the schedule ends with this outcome. */
  lemma OutcomesCounted(cfg: Config, schedule: seq<Label>, ok: bool)
    requires Exec(cfg, schedule).Some?
    ensures var s := Exec(cfg, schedule).value;
            && (if ok then s.g.metrics.sent else s.g.metrics.sendFailed) + Total(s.threads, Untallied(ok))
               == Sum(s.g.log.attempts, EndedOf(ok))
            && Sum(s.g.log.attempts, EndedOf(ok)) == Outcomes(cfg, schedule, ok)
  {
    ExecBook(cfg, schedule, Untallied(ok));
    AttemptsAreOutcomes(cfg, schedule, ok);
  }

  /** The counters account for every accepted command, except for those that a StopAndDrop found in a
      queue without a worker; each outcome has its own counter; the drop counters differ by what is between
      two increments. */
  lemma CountersBalance(cfg: Config, schedule: seq<Label>)
    requires Exec(cfg, schedule).Some?
    ensures var s := Exec(cfg, schedule).value;
            && |s.g.log.accepted| == s.g.metrics.sent + s.g.metrics.sendFailed + s.g.metrics.dropped
                                     + |s.g.queue.commands| + Total(s.threads, Unsettled) + s.g.log.uncounted
            && s.g.metrics.sent + Total(s.threads, Untallied(true)) == Sum(s.g.log.attempts, EndedOf(true))
            && s.g.metrics.sendFailed + Total(s.threads, Untallied(false)) == Sum(s.g.log.attempts, EndedOf(false))
            && s.g.metrics.dropped == s.g.metrics.DroppedFor(SID) + Total(s.threads, SessionLag)
  {
    ExecBook(cfg, schedule, Unsettled);
    ExecBook(cfg, schedule, SessionLag);
    OutcomesCounted(cfg, schedule, true);
    OutcomesCounted(cfg, schedule, false);
  }

  /** Every dialled connection is exactly one of: the session's, in the hands of one goroutine, or
      closed once. */
  lemma EachConnectionOneOwner(cfg: Config, schedule: seq<Label>, c: ConnId)
    requires Exec(cfg, schedule).Some? && c < Exec(cfg, schedule).value.g.conns.dialled
    ensures var s := Exec(cfg, schedule).value;
            Bit(CurrentConn(s.g.registry) == Some(c)) + Total(s.threads, OwnsConn(c)) + s.g.conns.closed[c] == 1
  {
    ExecInv(cfg, schedule);
    var s := Exec(cfg, schedule).value;
    assert Total(s.threads, OwnsConn(c)) == Ledger(s.g, OwnsConn(c));
  }

  /** No channel is closed twice, and each stop channel is the running worker's, about to be closed by
      one goroutine, or closed; a worker has closed its done channel exactly if it has ended. */
  lemma ChannelsCloseOnce(cfg: Config, schedule: seq<Label>, gen: Gen)
    requires Exec(cfg, schedule).Some? && gen < Exec(cfg, schedule).value.g.queue.started
    ensures var s := Exec(cfg, schedule).value;
            && !s.g.channels.panicked
            && Bit(s.g.queue.channels == Some(gen)) + Total(s.threads, OwnsStop(gen))
                + Bit(gen in s.g.channels.stopClosed) == 1
            && gen < |s.workers| && s.workers[gen] < |s.threads|
            && (gen in s.g.channels.doneClosed <==> s.threads[s.workers[gen]].pc.Done?)
            && (gen in s.g.channels.doneClosed ==> gen in s.g.channels.stopClosed)
  {
    ExecInv(cfg, schedule);
    var s := Exec(cfg, schedule).value;
    assert Total(s.threads, OwnsStop(gen)) == Ledger(s.g, OwnsStop(gen));
    assert IsWorkerOf(s, gen);
    assert Local(s.g, s.workers, s.workers[gen], s.threads[s.workers[gen]]);
  }

  /** At most one session is ever created; it is connected exactly if it stores a connection; commands
      wait only while it is connected or a disconnect has yet to clear them. */
  lemma SessionIsConsistent(cfg: Config, schedule: seq<Label>)
    requires Exec(cfg, schedule).Some?
    ensures var s := Exec(cfg, schedule).value;
            && s.g.registry.created <= 1
            && (s.g.registry.Connected() <==> CurrentConn(s.g.registry).Some?)
            && (s.g.queue.commands != [] ==> s.g.registry.Connected() || Total(s.threads, BeforeClear) > 0)
  {
    ExecInv(cfg, schedule);
  }

  /** One goroutine at most is past a lock's door: two that hold the manager's write lock, or the
      queue's lock, are the same; and no reader is inside with an admitted writer. */
  lemma LocksExclude(cfg: Config, schedule: seq<Label>, t: Tid, u: Tid)
    requires Exec(cfg, schedule).Some?
    requires t < |Exec(cfg, schedule).value.threads| && u < |Exec(cfg, schedule).value.threads|
    ensures var s := Exec(cfg, schedule).value;
            var a, b := s.threads[t].pc, s.threads[u].pc;
            && (HoldsMu(a) && HoldsMu(b) ==> t == u)
            && (a.HoldQ? && b.HoldQ? ==> t == u)
            && !(HoldsMu(a) && !a.DrainMu? && b.HoldRead?)
  {
    ExecInv(cfg, schedule);
    var s := Exec(cfg, schedule).value;
    assert Local(s.g, s.workers, t, s.threads[t]) && Local(s.g, s.workers, u, s.threads[u]);
  }

  // ---------------------------------------------------------------- under the reconnect discipline

  /** A command is written only to the connection that was the session's when it was accepted. */
  lemma NoReplay(cfg: Config, schedule: seq<Label>, i: nat)
    requires Disciplined(cfg, schedule) && Exec(cfg, schedule).Some?
    requires i < |Exec(cfg, schedule).value.g.log.attempts|
    ensures var a := Exec(cfg, schedule).value.g.log.attempts[i];
            a.conn.Some? ==> a.conn == a.item.conn
  {
    DisciplineIsInTime(cfg, schedule);
    MisdirectionExactly(cfg, schedule);
  }

  /** What `item.conn` means: a command is accepted only from a connected session, and records its connection. */
  lemma AcceptedWhileCurrent(cfg: Config, schedule: seq<Label>, l: Label)
    requires Exec(cfg, schedule).Some? && Next(cfg, Exec(cfg, schedule).value, l).Some?
    ensures var g, g' := Exec(cfg, schedule).value.g, Next(cfg, Exec(cfg, schedule).value, l).value.g;
            g'.log.accepted == g.log.accepted || (g.registry.Connected() && g'.registry == g.registry && Accepts(g, g'))
  {
    ExecInv(cfg, schedule);
    NextAccepts(cfg, Exec(cfg, schedule).value, l);
  }

  /** With workers that never overlap, the sender tries commands in the order in which they were accepted. */
  lemma SentInOrder(cfg: Config, schedule: seq<Label>, i: nat, j: nat)
    requires LaunchesAlone(cfg, schedule) && Exec(cfg, schedule).Some?
    requires i < j < |Exec(cfg, schedule).value.g.log.attempts|
    ensures var a := Exec(cfg, schedule).value.g.log.attempts; a[i].item.serial < a[j].item.serial
  {
    LaunchedAloneInTurn(cfg, schedule);
    OrderExactly(cfg, schedule);
  }

  /** Every accepted command is queued, settled in a counter, or on its way to one. */
  lemma CountersConserved(cfg: Config, schedule: seq<Label>)
    requires Disciplined(cfg, schedule) && Exec(cfg, schedule).Some?
    ensures var s := Exec(cfg, schedule).value;
            && |s.g.log.accepted| == s.g.metrics.sent + s.g.metrics.sendFailed + s.g.metrics.dropped
                                     + |s.g.queue.commands| + Total(s.threads, Unsettled)
            && s.g.metrics.sent + Total(s.threads, Untallied(true)) == Sum(s.g.log.attempts, EndedOf(true))
            && s.g.metrics.sendFailed + Total(s.threads, Untallied(false)) == Sum(s.g.log.attempts, EndedOf(false))
  {
    CountersBalance(cfg, schedule);
    ExecOrderly(cfg, schedule);
  }

  /** Over every interleaving: nothing is missing from the counters if and only if no StopAndDrop found commands
      in a queue without a worker. */
  lemma ConservedExactly(cfg: Config, schedule: seq<Label>)
    requires Exec(cfg, schedule).Some?
    ensures var s := Exec(cfg, schedule).value;
            && s.g.metrics.sent + Total(s.threads, Untallied(true)) == Sum(s.g.log.attempts, EndedOf(true))
            && s.g.metrics.sendFailed + Total(s.threads, Untallied(false)) == Sum(s.g.log.attempts, EndedOf(false))
    ensures var s := Exec(cfg, schedule).value;
            |s.g.log.accepted| == s.g.metrics.sent + s.g.metrics.sendFailed + s.g.metrics.dropped
                                  + |s.g.queue.commands| + Total(s.threads, Unsettled)
            <==> DropsCounted(cfg, schedule)
  {
    CountersBalance(cfg, schedule);
    UncountedExactly(cfg, schedule);
  }

  /** In every interleaving a running queue has a live worker: one that has not ended and that nobody has stopped. */
  lemma RunningIsLive(cfg: Config, schedule: seq<Label>)
    requires Exec(cfg, schedule).Some? && Exec(cfg, schedule).value.g.queue.Running()
    ensures LiveWorker(Exec(cfg, schedule).value)
  {
    ExecInv(cfg, schedule);
    ChannelsCloseOnce(cfg, schedule, Exec(cfg, schedule).value.g.queue.channels.value);
  }

  /** A connected session has a live worker, except while Connect, which holds the manager's lock, is about to
      launch it; without a session connection or a leaving goroutine there is none. */
  lemma ConnectedHasWorker(cfg: Config, schedule: seq<Label>)
    requires Disciplined(cfg, schedule) && Exec(cfg, schedule).Some?
    ensures var s := Exec(cfg, schedule).value;
            && (s.g.registry.Connected() ==> LiveWorker(s) || AnyStarting(s))
            && (AnyStarting(s) ==> s.g.locks.writer.Some?)
            && (!s.g.registry.Connected() && Total(s.threads, InWindow) == 0 ==>
                  forall gen | 0 <= gen < |s.workers| :: gen in s.g.channels.doneClosed)
  {
    ExecInv(cfg, schedule);
    ExecOrderly(cfg, schedule);
    DisciplineStopsInTime(cfg, schedule);
    ServedExactly(cfg, schedule);
    var s := Exec(cfg, schedule).value;
    StartingHoldsLock(cfg, s);
    if s.g.queue.Running() {
      RunningIsLive(cfg, schedule);
    }
  }
}
