/**
  No command outlives the connection it was accepted for, if every adoption finds nothing pending.
  The reconnect discipline guarantees that.
 */
module GatewayReplay {
  import opened Wrappers
  import opened Managers
  import opened GatewaySystem
  import opened GatewayInvariants
  import opened GatewayLedger
  import opened GatewayDiscipline

  predicate Untried(pc: Pc) { pc.WantRead? || pc.HoldRead? || pc.Writing? }

  /** The command at this program point belongs to the session's connection, if there is one,
      and is being written to no other. */
  predicate CurrentAt(r: Registry, pc: Pc) {
    && (Untried(pc) && r.Connected() ==> pc.item.conn == CurrentConn(r))
    && (pc.Writing? ==> pc.item.conn == Some(pc.conn))
  }

  predicate AllCurrent(r: Registry, commands: seq<Item>) {
    r.Connected() ==> forall i | 0 <= i < |commands| :: commands[i].conn == CurrentConn(r)
  }

  predicate NoneReplayed(attempts: seq<Attempt>) {
    forall i | 0 <= i < |attempts| :: attempts[i].conn.Some? ==> attempts[i].conn == attempts[i].item.conn
  }

  ghost predicate Fresh(s: State) {
    && (forall t | 0 <= t < |s.threads| :: CurrentAt(s.g.registry, s.threads[t].pc))
    && AllCurrent(s.g.registry, s.g.queue.commands)
    && NoneReplayed(s.g.log.attempts)
  }

  /** What the step of one goroutine must keep. */
  predicate StaysCurrent(g: Shared, e: Effect) {
    && CurrentAt(e.g.registry, e.th.pc)
    && AllCurrent(e.g.registry, e.g.queue.commands)
    && NoneReplayed(e.g.log.attempts)
    && (e.g.registry.Connected() ==> g.registry.Connected() && CurrentConn(e.g.registry) == CurrentConn(g.registry))
    && (e.launched.Some? ==> !Untried(e.launched.value.pc))
  }

  predicate IsCurrent(g: Shared, th: Thread) {
    && RegistryOK(g.registry) && SessionLocal(g.registry, th)
    && CurrentAt(g.registry, th.pc) && AllCurrent(g.registry, g.queue.commands) && NoneReplayed(g.log.attempts)
  }

  lemma UnderMuCurrent(g: Shared, th: Thread, job: MuJob)
    requires IsCurrent(g, th) && th.pc == DrainMu(job) && (job.Adopt? ==> g.registry.Connected())
    ensures StaysCurrent(g, UnderMu(g, th, job).value)
  {
    match job case Adopt(_) => case Leave(_) => case Submit(_) => case _ =>
  }

  lemma UnderQCurrent(cfg: Config, g: Shared, th: Thread, job: QJob)
    requires IsCurrent(g, th) && th.pc == HoldQ(job)
    ensures StaysCurrent(g, UnderQ(cfg, g.(locks := g.locks.(queue := None)), th, job).value)
  {
    match job case PutCommand(_) => case PopCommand => case StopQueue => case StartWorker(_) => case _ =>
  }

  /** The sender picks up the session's connection, and that is the command's. */
  lemma WorkerCurrent(cfg: Config, g: Shared, t: Tid, th: Thread, c: Choice)
    requires IsCurrent(g, th) && th.role.Worker? && WorkerAct(cfg, g, t, th, c).Some?
    ensures StaysCurrent(g, WorkerAct(cfg, g, t, th, c).value)
  {
    match th.pc case HoldRead(_) => case Writing(_, _) => case _ =>
  }

  lemma LockCurrent(cfg: Config, g: Shared, t: Tid, th: Thread, c: Choice)
    requires IsCurrent(g, th) && Act(cfg, g, t, th, c).Some? && (th.pc.WantMu? || th.pc.WantQ? || th.pc.UnlockMu?)
    ensures StaysCurrent(g, Act(cfg, g, t, th, c).value)
  {
  }

  lemma ActCurrent(cfg: Config, g: Shared, t: Tid, th: Thread, c: Choice)
    requires IsCurrent(g, th) && Act(cfg, g, t, th, c).Some?
    requires !(th.pc.DrainMu? && th.pc.job.Adopt? && !g.registry.Connected())
    ensures StaysCurrent(g, Act(cfg, g, t, th, c).value)
  {
    if th.pc.HoldQ? {
      UnderQCurrent(cfg, g, th, th.pc.qjob);
    } else if th.pc.DrainMu? {
      UnderMuCurrent(g, th, th.pc.job);
    } else if AtLock(th.pc) {
      LockCurrent(cfg, g, t, th, c);
    } else {
      match th.role {
        case Caller => CallerCurrent(g, th, c);
        case Reader(sid) => ReaderCurrent(g, th, sid, c);
        case Worker(_, _, _) => WorkerCurrent(cfg, g, t, th, c);
      }
    }
  }

  lemma CallerCurrent(g: Shared, th: Thread, c: Choice)
    requires IsCurrent(g, th) && CallerAct(g, th, c).Some?
    ensures StaysCurrent(g, CallerAct(g, th, c).value)
  {
  }

  lemma ReaderCurrent(g: Shared, th: Thread, sid: nat, c: Choice)
    requires IsCurrent(g, th) && ReaderAct(g, th, sid, c).Some?
    ensures StaysCurrent(g, ReaderAct(g, th, sid, c).value)
  {
  }

  lemma StepFresh(cfg: Config, s: State, t: Tid, c: Choice)
    requires Threads(s) && Fresh(s) && t < |s.threads| && Act(cfg, s.g, t, s.threads[t], c).Some?
    requires !Adopts(s, Go(t, c))
    ensures Fresh(Apply(s, t, Act(cfg, s.g, t, s.threads[t], c).value))
  {
    var e := Act(cfg, s.g, t, s.threads[t], c).value;
    var s' := Apply(s, t, e);
    assert Local(s.g, s.workers, t, s.threads[t]);
    ActCurrent(cfg, s.g, t, s.threads[t], c);
    forall u | 0 <= u < |s'.threads|
      ensures CurrentAt(s'.g.registry, s'.threads[u].pc)
    {
      assert u < |s.threads| ==> CurrentAt(s.g.registry, s.threads[u].pc);
    }
  }

  /** No command is queued, and no worker holds one that it has not tried. */
  predicate NonePending(s: State) {
    s.g.queue.commands == [] && forall t | 0 <= t < |s.threads| :: !Untried(s.threads[t].pc)
  }

  /** Every adoption finds nothing pending. */
  ghost predicate SafeReconnects(cfg: Config, schedule: seq<Label>) {
    schedule == [] ||
    var n := |schedule| - 1;
    && SafeReconnects(cfg, schedule[..n])
    && (Exec(cfg, schedule[..n]).Some? ==>
          var s := Exec(cfg, schedule[..n]).value;
          Adopts(s, schedule[n]) ==> NonePending(s))
  }

  /** With no connection and nobody leaving, the queue is empty and no worker is left to hold a command. */
  lemma NothingPending(cfg: Config, s: State)
    requires Inv(cfg, s) && Orderly(s) && !s.g.registry.Connected() && Total(s.threads, InWindow) == 0
    ensures NonePending(s)
  {
    if s.g.queue.commands != [] {
      var t := SumWitness(s.threads, ValueOf(BeforeClear));
      SumAtLeast(s.threads, t, ValueOf(InWindow));
    }
    forall t | 0 <= t < |s.threads|
      ensures !Untried(s.threads[t].pc)
    {
      assert Local(s.g, s.workers, t, s.threads[t]);
    }
  }

  lemma AdoptFresh(cfg: Config, s: State, t: Tid, c: Choice)
    requires Fresh(s) && Adopts(s, Go(t, c)) && Act(cfg, s.g, t, s.threads[t], c).Some? && NonePending(s)
    ensures Fresh(Apply(s, t, Act(cfg, s.g, t, s.threads[t], c).value))
  {
    var s' := Apply(s, t, Act(cfg, s.g, t, s.threads[t], c).value);
    forall u | 0 <= u < |s'.threads|
      ensures CurrentAt(s'.g.registry, s'.threads[u].pc)
    {
      assert !Untried(s.threads[u].pc);
    }
  }

  lemma {:induction false} ExecFresh(cfg: Config, schedule: seq<Label>)
    requires SafeReconnects(cfg, schedule) && Exec(cfg, schedule).Some?
    ensures Fresh(Exec(cfg, schedule).value)
  {
    if schedule != [] {
      var n := |schedule| - 1;
      var s, l := Exec(cfg, schedule[..n]).value, schedule[n];
      ExecFresh(cfg, schedule[..n]);
      ExecInv(cfg, schedule[..n]);
      NextFresh(cfg, s, l);
    }
  }

  lemma NextFresh(cfg: Config, s: State, l: Label)
    requires Inv(cfg, s) && Fresh(s) && Next(cfg, s, l).Some? && (Adopts(s, l) ==> NonePending(s))
    ensures Fresh(Next(cfg, s, l).value)
  {
    if !l.Go? {
      QuietFresh(cfg, s, l);
    } else if Adopts(s, l) {
      AdoptFresh(cfg, s, l.t, l.c);
    } else {
      StepFresh(cfg, s, l.t, l.c);
    }
  }

  /** The reconnect discipline is enough for safe reconnects. */
  lemma {:induction false} DisciplineIsSafe(cfg: Config, schedule: seq<Label>)
    requires Disciplined(cfg, schedule) && Exec(cfg, schedule).Some?
    ensures SafeReconnects(cfg, schedule)
  {
    if schedule != [] {
      var n := |schedule| - 1;
      DisciplineIsSafe(cfg, schedule[..n]);
      var s := Exec(cfg, schedule[..n]).value;
      if Adopts(s, schedule[n]) {
        ExecInv(cfg, schedule[..n]);
        ExecOrderly(cfg, schedule[..n]);
        NothingPending(cfg, s);
      }
    }
  }

  lemma QuietFresh(cfg: Config, s: State, l: Label)
    requires Fresh(s) && Next(cfg, s, l).Some? && !l.Go?
    ensures Fresh(Next(cfg, s, l).value)
  {
    var s' := Next(cfg, s, l).value;
    QuietBooks(cfg, s, l);
    forall u | 0 <= u < |s'.threads|
      ensures CurrentAt(s'.g.registry, s'.threads[u].pc)
    {
      assert u < |s.threads| ==> CurrentAt(s.g.registry, s.threads[u].pc);
    }
  }
}
