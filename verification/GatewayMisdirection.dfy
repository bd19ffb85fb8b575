/**
  The exact condition, over every interleaving, for commands to reach no connection but their own: the sender
  picks up a connection only for commands that no adoption has overtaken.
 */
module GatewayMisdirection {
  import opened Wrappers
  import opened GatewayMetrics
  import opened GatewaySystem
  import opened GatewayInvariants
  import opened GatewayLedger
  import opened GatewayDiscipline
  import opened GatewayReplay
  import opened GatewayReconnect

  // ---------------------------------------------------------------- overtaken commands

  /** A connection was adopted after the command with this serial was accepted. */
  ghost predicate Overtaken(cfg: Config, schedule: seq<Label>, serial: nat) {
    schedule != [] &&
    var n := |schedule| - 1;
    || Overtaken(cfg, schedule[..n], serial)
    || (Exec(cfg, schedule[..n]).Some? &&
        var s := Exec(cfg, schedule[..n]).value;
        Adopts(s, schedule[n]) && serial < |s.g.log.accepted|)
  }

  lemma {:induction false} OvertakenIsAccepted(cfg: Config, schedule: seq<Label>, serial: nat)
    requires Exec(cfg, schedule).Some? && Overtaken(cfg, schedule, serial)
    ensures serial < |Exec(cfg, schedule).value.g.log.accepted|
  {
    var n := |schedule| - 1;
    ExecInv(cfg, schedule[..n]);
    NextAccepts(cfg, Exec(cfg, schedule[..n]).value, schedule[n]);
    if Overtaken(cfg, schedule[..n], serial) {
      OvertakenIsAccepted(cfg, schedule[..n], serial);
    }
  }

  /** Only an adoption gives the session another connection. */
  lemma NextConn(cfg: Config, s: State, l: Label)
    requires Inv(cfg, s) && Next(cfg, s, l).Some? && !Adopts(s, l)
    ensures var r' := Next(cfg, s, l).value.g.registry;
            CurrentConn(r') == CurrentConn(s.g.registry) || CurrentConn(r') == None
  {
    if l.Go? {
      var th := s.threads[l.t];
      assert Local(s.g, s.workers, l.t, th);
      if th.pc.DrainMu? {
        match th.pc.job { case Adopt(_) => case Leave(_) => case _ => }
      } else {
        ActRegistryFrame(cfg, s.g, l.t, th, l.c);
      }
    }
  }

  lemma AdoptsConn(cfg: Config, s: State, l: Label)
    requires Inv(cfg, s) && Next(cfg, s, l).Some? && Adopts(s, l)
    ensures var s' := Next(cfg, s, l).value;
            && CurrentConn(s'.g.registry) == Some(s.threads[l.t].pc.job.conn)
            && s'.g.log.accepted == s.g.log.accepted
  {
    assert Local(s.g, s.workers, l.t, s.threads[l.t]);
  }

  /** The session's connection is the one a command was accepted for exactly if the command is not overtaken. */
  ghost predicate Linked(cfg: Config, schedule: seq<Label>, s: State) {
    CurrentConn(s.g.registry).Some? ==>
      forall i | 0 <= i < |s.g.log.accepted| ::
        s.g.log.accepted[i].conn == CurrentConn(s.g.registry) <==> !Overtaken(cfg, schedule, i)
  }

  lemma {:induction false} ExecLinked(cfg: Config, schedule: seq<Label>)
    requires Exec(cfg, schedule).Some?
    ensures Linked(cfg, schedule, Exec(cfg, schedule).value)
  {
    if schedule != [] {
      var n := |schedule| - 1;
      var s, s', l := Exec(cfg, schedule[..n]).value, Exec(cfg, schedule).value, schedule[n];
      ExecLinked(cfg, schedule[..n]);
      ExecInv(cfg, schedule[..n]);
      if Adopts(s, l) {
        ExecKnown(cfg, schedule[..n]);
        AdoptsConn(cfg, s, l);
        assert Novel(s.g.log.accepted, s.threads[l.t].pc.job.conn);
      } else {
        PlainLinked(cfg, schedule, s, s');
      }
    }
  }

  lemma PlainLinked(cfg: Config, schedule: seq<Label>, s: State, s': State)
    requires schedule != [] && Exec(cfg, schedule[..|schedule| - 1]) == Some(s) && Exec(cfg, schedule) == Some(s')
    requires Inv(cfg, s) && Linked(cfg, schedule[..|schedule| - 1], s) && !Adopts(s, schedule[|schedule| - 1])
    ensures Linked(cfg, schedule, s')
  {
    var n := |schedule| - 1;
    var before, l := schedule[..n], schedule[n];
    NextConn(cfg, s, l);
    NextAccepts(cfg, s, l);
    forall i: nat
      ensures Overtaken(cfg, schedule, i) <==> Overtaken(cfg, before, i)
      ensures Overtaken(cfg, before, i) ==> i < |s.g.log.accepted|
    {
      if Overtaken(cfg, before, i) {
        OvertakenIsAccepted(cfg, before, i);
      }
    }
  }

  // ---------------------------------------------------------------- the sender picks up a connection

  /** writeCommand, under the read lock, takes the connection that it will write to. */
  predicate PicksUp(s: State, l: Label) {
    && l.Go? && l.t < |s.threads| && s.threads[l.t].role.Worker? && s.threads[l.t].pc.HoldRead?
    && s.g.registry.Target(s.threads[l.t].role.sid).Some?
  }

  /** No connection is picked up for an overtaken command. */
  ghost predicate PickUpsInTime(cfg: Config, schedule: seq<Label>) {
    schedule == [] ||
    var n := |schedule| - 1;
    && PickUpsInTime(cfg, schedule[..n])
    && (Exec(cfg, schedule[..n]).Some? ==>
          var s := Exec(cfg, schedule[..n]).value;
          PicksUp(s, schedule[n]) ==> !Overtaken(cfg, schedule[..n], s.threads[schedule[n].t].pc.item.serial))
  }

  /** What is being written goes to its own connection. */
  predicate WritesOwn(pc: Pc) { pc.Writing? ==> pc.item.conn == Some(pc.conn) }

  /** Nothing was tried, or is being written, on a connection other than the one it was accepted for. */
  predicate NoneMisdirected(s: State) {
    NoneReplayed(s.g.log.attempts) && forall t | 0 <= t < |s.threads| :: WritesOwn(s.threads[t].pc)
  }

  predicate IsOwn(a: Attempt) { a.conn.Some? ==> a.conn == a.item.conn }

  /** A step either leaves the attempts alone, or turns what is being written into an attempt. */
  ghost predicate Directs(g: Shared, pc: Pc, e: Effect) {
    && (e.launched.Some? ==> !e.launched.value.pc.Writing?)
    && (|| (e.g.log.attempts == g.log.attempts && WritesOwn(e.th.pc) && WritesOwn(pc))
        || exists a :: e.g.log.attempts == g.log.attempts + [a]
             && (WritesOwn(pc) <==> IsOwn(a)) && WritesOwn(e.th.pc))
  }

  lemma WorkerDirects(cfg: Config, g: Shared, t: Tid, th: Thread, c: Choice)
    requires th.role.Worker? && WorkerAct(cfg, g, t, th, c).Some?
    requires !(th.pc.HoldRead? && g.registry.Target(th.role.sid).Some?)
    ensures Directs(g, th.pc, WorkerAct(cfg, g, t, th, c).value)
  {
    var e := WorkerAct(cfg, g, t, th, c).value;
    match th.pc
    case HoldRead(item) =>
      assert e.g.log.attempts == g.log.attempts + [Attempt(item, None, false)];
    case Writing(item, conn) =>
      assert e.g.log.attempts == g.log.attempts + [Attempt(item, Some(conn), c == Good)];
    case _ =>
  }

  lemma LockDirects(cfg: Config, g: Shared, t: Tid, th: Thread, c: Choice)
    requires Act(cfg, g, t, th, c).Some? && AtLock(th.pc)
    ensures Directs(g, th.pc, Act(cfg, g, t, th, c).value)
  {
    match th.pc
    case HoldQ(job) => match job { case StartWorker(_) => case StopQueue => case PopCommand => case _ => }
    case DrainMu(job) => match job { case Adopt(_) => case _ => }
    case _ =>
  }

  lemma CallerDirects(g: Shared, th: Thread, c: Choice)
    requires CallerAct(g, th, c).Some?
    ensures Directs(g, th.pc, CallerAct(g, th, c).value)
  {
  }

  lemma ReaderDirects(g: Shared, th: Thread, sid: SessionId, c: Choice)
    requires ReaderAct(g, th, sid, c).Some?
    ensures Directs(g, th.pc, ReaderAct(g, th, sid, c).value)
  {
  }

  lemma ActDirects(cfg: Config, g: Shared, t: Tid, th: Thread, c: Choice)
    requires Act(cfg, g, t, th, c).Some?
    requires !(th.role.Worker? && th.pc.HoldRead? && g.registry.Target(th.role.sid).Some?)
    ensures Directs(g, th.pc, Act(cfg, g, t, th, c).value)
  {
    if AtLock(th.pc) {
      LockDirects(cfg, g, t, th, c);
    } else {
      match th.role
      case Caller => CallerDirects(g, th, c);
      case Reader(sid) => ReaderDirects(g, th, sid, c);
      case Worker(_, _, _) => WorkerDirects(cfg, g, t, th, c);
    }
  }

  lemma ReplayedOneMore(attempts: seq<Attempt>, a: Attempt)
    ensures NoneReplayed(attempts + [a]) <==> NoneReplayed(attempts) && IsOwn(a)
  {
    var more := attempts + [a];
    assert more[|attempts|] == a;
    assert forall i | 0 <= i < |attempts| :: more[i] == attempts[i];
  }

  lemma StepDirects(s: State, t: Tid, e: Effect)
    requires t < |s.threads| && Directs(s.g, s.threads[t].pc, e)
    ensures NoneMisdirected(Apply(s, t, e)) <==> NoneMisdirected(s)
  {
    var s' := Apply(s, t, e);
    assert forall u | 0 <= u < |s.threads| && u != t :: s'.threads[u] == s.threads[u];
    assert s'.threads[t] == e.th;
    if e.g.log.attempts != s.g.log.attempts {
      var a :| e.g.log.attempts == s.g.log.attempts + [a] && (WritesOwn(s.threads[t].pc) <==> IsOwn(a));
      ReplayedOneMore(s.g.log.attempts, a);
    }
  }

  /** A pick-up keeps commands with their connections exactly if it takes the command's own. */
  lemma PickUpDirects(cfg: Config, s: State, l: Label)
    requires Inv(cfg, s) && PicksUp(s, l) && Next(cfg, s, l).Some?
    ensures NoneMisdirected(Next(cfg, s, l).value) <==>
            NoneMisdirected(s) && s.threads[l.t].pc.item.conn == CurrentConn(s.g.registry)
  {
    var s', t := Next(cfg, s, l).value, l.t;
    var item, conn := s.threads[t].pc.item, s.g.registry.Target(s.threads[t].role.sid).value;
    assert s'.threads == s.threads[t := s.threads[t].(pc := Writing(item, conn))];
    assert s'.threads[t].pc == Writing(item, conn) && Some(conn) == CurrentConn(s.g.registry);
    assert forall u | 0 <= u < |s.threads| && u != t :: s'.threads[u] == s.threads[u];
    assert WritesOwn(s.threads[t].pc);
  }

  /** The exact law: nothing goes to a foreign connection if and only if no overtaken command is picked up for. */
  lemma {:induction false} MisdirectionExactly(cfg: Config, schedule: seq<Label>)
    requires Exec(cfg, schedule).Some?
    ensures NoneMisdirected(Exec(cfg, schedule).value) <==> PickUpsInTime(cfg, schedule)
  {
    if schedule != [] {
      var n := |schedule| - 1;
      var s, l := Exec(cfg, schedule[..n]).value, schedule[n];
      MisdirectionExactly(cfg, schedule[..n]);
      ExecInv(cfg, schedule[..n]);
      if PicksUp(s, l) {
        ExecLinked(cfg, schedule[..n]);
        HeldWasAccepted(cfg, s, l.t);
        var item := s.threads[l.t].pc.item;
        assert s.g.log.accepted[item.serial] == item;
        PickUpDirects(cfg, s, l);
      } else if l.Go? {
        ActDirects(cfg, s.g, l.t, s.threads[l.t], l.c);
        StepDirects(s, l.t, Act(cfg, s.g, l.t, s.threads[l.t], l.c).value);
      } else {
        QuietDirects(cfg, s, l);
      }
    }
  }

  lemma QuietDirects(cfg: Config, s: State, l: Label)
    requires Next(cfg, s, l).Some? && !l.Go?
    ensures NoneMisdirected(Next(cfg, s, l).value) <==> NoneMisdirected(s)
  {
    var s' := Next(cfg, s, l).value;
    QuietBooks(cfg, s, l);
    assert forall u | 0 <= u < |s.threads| :: s'.threads[u].pc == s.threads[u].pc;
    assert forall u | |s.threads| <= u < |s'.threads| :: WritesOwn(s'.threads[u].pc);
  }

  // ---------------------------------------------------------------- what is enough

  lemma SafeIsInTime(cfg: Config, schedule: seq<Label>)
    requires SafeReconnects(cfg, schedule) && Exec(cfg, schedule).Some?
    ensures PickUpsInTime(cfg, schedule)
  {
    ExecFresh(cfg, schedule);
    MisdirectionExactly(cfg, schedule);
  }

  lemma DisciplineIsInTime(cfg: Config, schedule: seq<Label>)
    requires Disciplined(cfg, schedule) && Exec(cfg, schedule).Some?
    ensures PickUpsInTime(cfg, schedule)
  {
    DisciplineIsSafe(cfg, schedule);
    SafeIsInTime(cfg, schedule);
  }
}
