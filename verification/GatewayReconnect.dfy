/**
  When no command is even pending for an earlier connection: over every interleaving, if and only if each
  adoption finds the queue empty and no worker with an untried command in hand.
 */
module GatewayReconnect {
  import opened Wrappers
  import opened GatewayMetrics
  import opened Managers
  import opened GatewaySystem
  import opened GatewayInvariants
  import opened GatewayLedger
  import opened GatewayDiscipline
  import opened GatewayReplay

  // ---------------------------------------------------------------- when commands are accepted

  /** One command more is accepted, for the session's connection. */
  ghost predicate Accepts(g: Shared, g': Shared) {
    exists x :: g'.log.accepted == g.log.accepted + [x] && x.conn == CurrentConn(g.registry) && x.conn.Some?
  }

  lemma NextAccepts(cfg: Config, s: State, l: Label)
    requires Inv(cfg, s) && Next(cfg, s, l).Some?
    ensures var g' := Next(cfg, s, l).value.g;
            g'.log.accepted == s.g.log.accepted
            || (s.g.registry.Connected() && g'.registry == s.g.registry && Accepts(s.g, g'))
  {
    if l.Go? {
      var th := s.threads[l.t];
      assert Local(s.g, s.workers, l.t, th);
      if th.pc.HoldQ? {
        match th.pc.qjob {
          case PutCommand(text) =>
            var x := Item(text, |s.g.log.accepted|, CurrentConn(s.g.registry));
            assert s.g.queue.Full(cfg.maxDepth) || Next(cfg, s, l).value.g.log.accepted == s.g.log.accepted + [x];
          case _ =>
        }
      } else {
        ActQueueFrame(cfg, s.g, l.t, th, l.c);
      }
    }
  }

  // ---------------------------------------------------------------- whose connections commands carry

  /** The connection that the goroutine is about to offer to the session. */
  function Offered(pc: Pc): Option<ConnId> {
    if (pc.WantMu? || pc.DrainMu?) && pc.job.Adopt? then Some(pc.job.conn) else None
  }

  /** No accepted command was accepted for this connection. */
  predicate Novel(accepted: seq<Item>, conn: ConnId) {
    forall i | 0 <= i < |accepted| :: accepted[i].conn != Some(conn)
  }

  predicate DialledOnes(g: Shared) {
    forall i | 0 <= i < |g.log.accepted| ::
      g.log.accepted[i].conn.Some? && g.log.accepted[i].conn.value < g.conns.dialled
  }

  /** Commands carry dialled connections, and none that is still on offer. */
  ghost predicate ConnsKnown(s: State) {
    && DialledOnes(s.g)
    && forall t | 0 <= t < |s.threads| && Offered(s.threads[t].pc).Some? ::
         Novel(s.g.log.accepted, Offered(s.threads[t].pc).value)
  }

  /** What the goroutine offers it offered before, unless it has just dialled it. */
  predicate Offers(g: Shared, pc: Pc, e: Effect) {
    && g.conns.dialled <= e.g.conns.dialled
    && (Offered(e.th.pc).Some? ==> Offered(e.th.pc) == Offered(pc) || Offered(e.th.pc) == Some(g.conns.dialled))
    && (e.launched.Some? ==> Offered(e.launched.value.pc) == None)
  }

  lemma LockOffers(cfg: Config, g: Shared, t: Tid, th: Thread, c: Choice)
    requires Act(cfg, g, t, th, c).Some? && AtLock(th.pc)
    ensures Offers(g, th.pc, Act(cfg, g, t, th, c).value)
  {
    match th.pc
    case HoldQ(job) => match job { case StartWorker(_) => case StopQueue => case _ => }
    case DrainMu(job) => match job { case Adopt(_) => case _ => }
    case _ =>
  }

  lemma WorkerOffers(cfg: Config, g: Shared, t: Tid, th: Thread, c: Choice)
    requires th.role.Worker? && WorkerAct(cfg, g, t, th, c).Some?
    ensures Offers(g, th.pc, WorkerAct(cfg, g, t, th, c).value)
  {
  }

  lemma CallerOffers(g: Shared, th: Thread, c: Choice)
    requires CallerAct(g, th, c).Some?
    ensures Offers(g, th.pc, CallerAct(g, th, c).value)
  {
  }

  lemma ReaderOffers(g: Shared, th: Thread, sid: SessionId, c: Choice)
    requires ReaderAct(g, th, sid, c).Some?
    ensures Offers(g, th.pc, ReaderAct(g, th, sid, c).value)
  {
  }

  lemma RoleOffers(cfg: Config, g: Shared, t: Tid, th: Thread, c: Choice)
    requires Act(cfg, g, t, th, c).Some? && !AtLock(th.pc)
    ensures Offers(g, th.pc, Act(cfg, g, t, th, c).value)
  {
    match th.role
    case Caller => CallerOffers(g, th, c);
    case Reader(sid) => ReaderOffers(g, th, sid, c);
    case Worker(_, _, _) => WorkerOffers(cfg, g, t, th, c);
  }

  lemma ActOffers(cfg: Config, g: Shared, t: Tid, th: Thread, c: Choice)
    requires Act(cfg, g, t, th, c).Some?
    ensures Offers(g, th.pc, Act(cfg, g, t, th, c).value)
  {
    if AtLock(th.pc) {
      LockOffers(cfg, g, t, th, c);
    } else {
      RoleOffers(cfg, g, t, th, c);
    }
  }

  /** The session's connection has been dialled and is not on offer. */
  lemma CurrentIsKnown(cfg: Config, s: State, t: Tid)
    requires Inv(cfg, s) && CurrentConn(s.g.registry).Some?
    ensures CurrentConn(s.g.registry).value < s.g.conns.dialled
    ensures t < |s.threads| ==> Offered(s.threads[t].pc) != CurrentConn(s.g.registry)
  {
    var c := CurrentConn(s.g.registry).value;
    assert Total(s.threads, OwnsConn(c)) == Ledger(s.g, OwnsConn(c));
    if t < |s.threads| {
      SumAtLeast(s.threads, t, ValueOf(OwnsConn(c)));
    }
  }

  lemma StepKnown(cfg: Config, s: State, t: Tid, c: Choice)
    requires ConnsKnown(s) && t < |s.threads| && Act(cfg, s.g, t, s.threads[t], c).Some?
    requires Act(cfg, s.g, t, s.threads[t], c).value.g.log.accepted == s.g.log.accepted
    ensures ConnsKnown(Apply(s, t, Act(cfg, s.g, t, s.threads[t], c).value))
  {
    var s' := Apply(s, t, Act(cfg, s.g, t, s.threads[t], c).value);
    ActOffers(cfg, s.g, t, s.threads[t], c);
    forall u | 0 <= u < |s'.threads| && Offered(s'.threads[u].pc).Some?
      ensures Novel(s'.g.log.accepted, Offered(s'.threads[u].pc).value)
    {
      if u < |s.threads| && Offered(s'.threads[u].pc) == Offered(s.threads[u].pc) {
        assert Novel(s.g.log.accepted, Offered(s.threads[u].pc).value);
      }
    }
  }

  lemma AcceptKnown(cfg: Config, s: State, s': State, x: Item)
    requires Inv(cfg, s) && ConnsKnown(s) && s'.g.log.accepted == s.g.log.accepted + [x]
    requires x.conn.Some? && x.conn == CurrentConn(s.g.registry) && s'.g.conns == s.g.conns
    requires |s'.threads| == |s.threads|
    requires forall u | 0 <= u < |s.threads| ::
               Offered(s'.threads[u].pc).Some? ==> Offered(s'.threads[u].pc) == Offered(s.threads[u].pc)
    ensures ConnsKnown(s')
  {
    CurrentIsKnown(cfg, s, |s.threads|);
    forall u | 0 <= u < |s'.threads| && Offered(s'.threads[u].pc).Some?
      ensures Novel(s'.g.log.accepted, Offered(s'.threads[u].pc).value)
    {
      CurrentIsKnown(cfg, s, u);
      assert Novel(s.g.log.accepted, Offered(s.threads[u].pc).value);
    }
  }

  /** Only a goroutine with the queue's lock adds to the log of accepted commands, and it launches and dials nothing. */
  lemma AcceptFrame(cfg: Config, g: Shared, t: Tid, th: Thread, c: Choice)
    requires Act(cfg, g, t, th, c).Some? && Act(cfg, g, t, th, c).value.g.log.accepted != g.log.accepted
    ensures var e := Act(cfg, g, t, th, c).value;
            e.launched.None? && e.g.conns == g.conns && Offered(e.th.pc).None?
  {
    if !th.pc.HoldQ? {
      ActQueueFrame(cfg, g, t, th, c);
    } else {
      match th.pc.qjob { case PutCommand(_) => case StartWorker(_) => case StopQueue => case _ => }
    }
  }

  lemma {:induction false} ExecKnown(cfg: Config, schedule: seq<Label>)
    requires Exec(cfg, schedule).Some?
    ensures ConnsKnown(Exec(cfg, schedule).value)
  {
    if schedule != [] {
      var n := |schedule| - 1;
      var s, l := Exec(cfg, schedule[..n]).value, schedule[n];
      ExecKnown(cfg, schedule[..n]);
      ExecInv(cfg, schedule[..n]);
      NextKnown(cfg, s, l);
    }
  }

  lemma NextKnown(cfg: Config, s: State, l: Label)
    requires Inv(cfg, s) && ConnsKnown(s) && Next(cfg, s, l).Some?
    ensures ConnsKnown(Next(cfg, s, l).value)
  {
    var s' := Next(cfg, s, l).value;
    NextAccepts(cfg, s, l);
    if !l.Go? {
      QuietBooks(cfg, s, l);
      forall u | 0 <= u < |s'.threads| && Offered(s'.threads[u].pc).Some?
        ensures Novel(s'.g.log.accepted, Offered(s'.threads[u].pc).value)
      {
        assert u < |s.threads| ==> Offered(s.threads[u].pc) == Offered(s'.threads[u].pc);
      }
    } else if s'.g.log.accepted == s.g.log.accepted {
      StepKnown(cfg, s, l.t, l.c);
    } else {
      var x :| s'.g.log.accepted == s.g.log.accepted + [x]
               && x.conn == CurrentConn(s.g.registry) && x.conn.Some?;
      AcceptFrame(cfg, s.g, l.t, s.threads[l.t], l.c);
      AcceptKnown(cfg, s, s', x);
    }
  }

  // ---------------------------------------------------------------- pending commands were accepted

  lemma HeldWasAccepted(cfg: Config, s: State, t: Tid)
    requires Inv(cfg, s) && t < |s.threads| && Untried(s.threads[t].pc)
    ensures s.threads[t].pc.item in s.g.log.accepted
  {
    var x := s.threads[t].pc.item;
    SumAtLeast(s.threads, t, ValueOf(InHand(x)));
    assert Total(s.threads, InHand(x)) == Ledger(s.g, InHand(x));
    var i := SumWitness(s.g.log.removed, PoppedOf(x));
    assert s.g.log.accepted[i] == Items(s.g.log.removed)[i] == x;
  }

  /** An adoption that finds something pending leaves a command of an earlier connection with the new one. */
  lemma AdoptStale(cfg: Config, s: State, t: Tid, c: Choice)
    requires Inv(cfg, s) && ConnsKnown(s) && Adopts(s, Go(t, c)) && Act(cfg, s.g, t, s.threads[t], c).Some?
    requires !NonePending(s)
    ensures !Fresh(Apply(s, t, Act(cfg, s.g, t, s.threads[t], c).value))
  {
    var s' := Apply(s, t, Act(cfg, s.g, t, s.threads[t], c).value);
    var conn := s.threads[t].pc.job.conn;
    assert Local(s.g, s.workers, t, s.threads[t]);
    assert Novel(s.g.log.accepted, conn) && CurrentConn(s'.g.registry) == Some(conn);
    if s.g.queue.commands != [] {
      assert s.g.queue.commands[0] == s.g.log.accepted[|s.g.log.removed|];
      assert s'.g.queue.commands[0].conn != Some(conn);
    } else {
      var u :| 0 <= u < |s.threads| && Untried(s.threads[u].pc);
      HeldWasAccepted(cfg, s, u);
      assert s'.threads[u] == s.threads[u];
      assert !CurrentAt(s'.g.registry, s'.threads[u].pc);
    }
  }

  // ---------------------------------------------------------------- when nothing is left over

  /**
    In every state along the schedule, what is queued or in a worker's hand while the session is
    connected was accepted for that very connection, and nothing was tried on another one.
   */
  ghost predicate AlwaysFresh(cfg: Config, schedule: seq<Label>) {
    && (Exec(cfg, schedule).Some? ==> Fresh(Exec(cfg, schedule).value))
    && (schedule == [] || AlwaysFresh(cfg, schedule[..|schedule| - 1]))
  }

  /** Commands stay with their connection throughout if and only if every adoption finds nothing pending. */
  lemma {:induction false} FreshExactly(cfg: Config, schedule: seq<Label>)
    requires Exec(cfg, schedule).Some?
    ensures AlwaysFresh(cfg, schedule) <==> SafeReconnects(cfg, schedule)
  {
    if schedule != [] {
      var n := |schedule| - 1;
      var s, l := Exec(cfg, schedule[..n]).value, schedule[n];
      FreshExactly(cfg, schedule[..n]);
      ExecInv(cfg, schedule[..n]);
      ExecKnown(cfg, schedule[..n]);
      if Adopts(s, l) && !NonePending(s) {
        AdoptStale(cfg, s, l.t, l.c);
      } else if AlwaysFresh(cfg, schedule[..n]) {
        assert Fresh(s);
        NextFresh(cfg, s, l);
      }
    }
  }
}
