/** Every interleaving: the session's connection has its reader, and only a caller or a failing read ends it. */
module GatewayReaders {
  import opened Wrappers
  import opened GatewayMetrics
  import opened Managers
  import opened GatewaySystem
  import opened GatewayInvariants
  import opened GatewayLedger
  import opened GatewayDelivery

  // ---------------------------------------------------------------- the session's connection is read

  /** The goroutine is in the Connect that adopted c, or is c's reader. */
  predicate Tends(pc: Pc, c: ConnId) {
    || ((pc.WantQ? || pc.HoldQ?) && (pc.qjob == StartWorker(c) || pc.qjob == StatusDepth(ToReader(c))))
    || pc == UnlockMu(ToReader(c)) || pc == SpawnReader(c) || pc == Reading(c)
    || ((pc.WantMu? || pc.DrainMu?) && pc.job == TouchAfterRead(c))
  }

  /** The goroutine is in the first critical section of disconnect, or waits for it. */
  predicate Leaving(pc: Pc) { (pc.WantMu? || pc.DrainMu?) && pc.job.Leave? }

  /** c is on its way to a reader, has its reader, or a reader that failed is about to take it from the session. */
  predicate Minds(th: Thread, c: ConnId) { Tends(th.pc, c) || (th.role.Reader? && Leaving(th.pc)) }

  predicate Minded(s: State) {
    CurrentConn(s.g.registry).Some? ==>
      exists t :: 0 <= t < |s.threads| && Minds(s.threads[t], CurrentConn(s.g.registry).value)
  }

  /** After a step of the goroutine, c is still minded by it or by the one it launched, or is the session's no more. */
  predicate Mends(e: Effect, c: ConnId) {
    || CurrentConn(e.g.registry) != Some(c) || Minds(e.th, c)
    || (e.launched.Some? && Minds(e.launched.value, c))
  }

  lemma LockMends(cfg: Config, g: Shared, t: Tid, th: Thread, ch: Choice, c: ConnId)
    requires Act(cfg, g, t, th, ch).Some? && SessionLocal(g.registry, th) && ShapeLocal(th) && RegistryOK(g.registry)
    requires AtLock(th.pc) && !th.pc.DrainMu? && Minds(th, c)
    ensures Mends(Act(cfg, g, t, th, ch).value, c)
  {
  }

  lemma DrainMends(g: Shared, th: Thread, c: ConnId)
    requires SessionLocal(g.registry, th) && ShapeLocal(th) && RegistryOK(g.registry)
    requires th.pc.DrainMu? && CurrentConn(g.registry) == Some(c) && Minds(th, c)
    ensures Mends(UnderMu(g, th, th.pc.job).value, c)
  {
  }

  lemma RoleMends(cfg: Config, g: Shared, t: Tid, th: Thread, ch: Choice, c: ConnId)
    requires Act(cfg, g, t, th, ch).Some? && !AtLock(th.pc) && ShapeLocal(th)
    requires Minds(th, c) && c !in g.conns.closed
    ensures Mends(Act(cfg, g, t, th, ch).value, c)
  {
    match th.role case Caller => case Reader(_) => case Worker(_, _, _) =>
  }

  lemma ActMends(cfg: Config, g: Shared, t: Tid, th: Thread, ch: Choice, c: ConnId)
    requires Act(cfg, g, t, th, ch).Some? && SessionLocal(g.registry, th) && ShapeLocal(th) && RegistryOK(g.registry)
    requires CurrentConn(g.registry) == Some(c) && c !in g.conns.closed && Minds(th, c)
    ensures Mends(Act(cfg, g, t, th, ch).value, c)
  {
    if th.pc.DrainMu? {
      DrainMends(g, th, c);
    } else if AtLock(th.pc) {
      LockMends(cfg, g, t, th, ch, c);
    } else {
      RoleMends(cfg, g, t, th, ch, c);
    }
  }

  /** Only an adoption changes the session's connection to another one. */
  lemma ActConn(cfg: Config, g: Shared, t: Tid, th: Thread, ch: Choice)
    requires Act(cfg, g, t, th, ch).Some? && RegistryOK(g.registry)
    ensures var e := Act(cfg, g, t, th, ch).value;
            var c := CurrentConn(e.g.registry);
            c.Some? && c != CurrentConn(g.registry) ==> Tends(e.th.pc, c.value)
  {
    if th.pc.DrainMu? {
      match th.pc.job case Adopt(_) => case Leave(_) => case _ =>
    } else {
      ActRegistryFrame(cfg, g, t, th, ch);
    }
  }

  lemma StepMinded(cfg: Config, s: State, t: Tid, ch: Choice)
    requires Inv(cfg, s) && Minded(s) && t < |s.threads| && Act(cfg, s.g, t, s.threads[t], ch).Some?
    ensures Minded(Apply(s, t, Act(cfg, s.g, t, s.threads[t], ch).value))
  {
    var e := Act(cfg, s.g, t, s.threads[t], ch).value;
    var s' := Apply(s, t, e);
    var c := CurrentConn(e.g.registry);
    assert Local(s.g, s.workers, t, s.threads[t]);
    ActConn(cfg, s.g, t, s.threads[t], ch);
    if c.Some? {
      if c != CurrentConn(s.g.registry) {
        assert Minds(s'.threads[t], c.value);
      } else {
        var u :| 0 <= u < |s.threads| && Minds(s.threads[u], c.value);
        CurrentIsOpen(cfg, s);
        if u == t {
          ActMends(cfg, s.g, t, s.threads[t], ch, c.value);
          assert e.launched.Some? ==> s'.threads[|s.threads|] == e.launched.value;
          assert s'.threads[t] == e.th;
        } else {
          assert Minds(s'.threads[u], c.value);
        }
      }
    }
  }

  lemma QuietMinded(cfg: Config, s: State, l: Label)
    requires Minded(s) && Next(cfg, s, l).Some? && !l.Go?
    ensures Minded(Next(cfg, s, l).value)
  {
    var s' := Next(cfg, s, l).value;
    if CurrentConn(s.g.registry).Some? {
      var u :| 0 <= u < |s.threads| && Minds(s.threads[u], CurrentConn(s.g.registry).value);
      assert Minds(s'.threads[u], CurrentConn(s.g.registry).value);
    }
  }

  /** In every interleaving the session's connection is on its way to a reader, is being read, or is about to be
      taken away by a reader that failed. */
  lemma {:induction false} ConnectedIsRead(cfg: Config, schedule: seq<Label>)
    requires Exec(cfg, schedule).Some?
    ensures Minded(Exec(cfg, schedule).value)
  {
    if schedule != [] {
      var n := |schedule| - 1;
      ConnectedIsRead(cfg, schedule[..n]);
      ExecInv(cfg, schedule[..n]);
      if schedule[n].Go? {
        StepMinded(cfg, Exec(cfg, schedule[..n]).value, schedule[n].t, schedule[n].c);
      } else {
        QuietMinded(cfg, Exec(cfg, schedule[..n]).value, schedule[n]);
      }
    }
  }

  // ---------------------------------------------------------------- what ends a connection

  /** A call of Disconnect, or a read that fails with neither a timeout nor a closed connection. */
  predicate Causes(s: State, l: Label) {
    || l == Call(CallDisconnect)
    || (l.Go? && l.t < |s.threads| && s.threads[l.t].role.Reader? && s.threads[l.t].pc.Reading? && l.c == Bad)
  }

  /** The first critical section of disconnect. */
  predicate Leaves(s: State, l: Label) {
    l.Go? && l.t < |s.threads| && s.threads[l.t].pc.DrainMu? && s.threads[l.t].pc.job.Leave?
  }

  ghost function CauseCount(cfg: Config, schedule: seq<Label>): nat {
    if schedule == [] then 0
    else
      var n := |schedule| - 1;
      CauseCount(cfg, schedule[..n])
      + (if Exec(cfg, schedule[..n]).Some? && Causes(Exec(cfg, schedule[..n]).value, schedule[n]) then 1 else 0)
  }

  ghost function LeaveCount(cfg: Config, schedule: seq<Label>): nat {
    if schedule == [] then 0
    else
      var n := |schedule| - 1;
      LeaveCount(cfg, schedule[..n])
      + (if Exec(cfg, schedule[..n]).Some? && Leaves(Exec(cfg, schedule[..n]).value, schedule[n]) then 1 else 0)
  }

  function LeavingOf(): Thread -> nat { (th: Thread) => Bit(Leaving(th.pc)) }

  lemma RoleLeaving(cfg: Config, g: Shared, t: Tid, th: Thread, c: Choice)
    requires Act(cfg, g, t, th, c).Some? && !AtLock(th.pc) && ShapeLocal(th)
    ensures var e := Act(cfg, g, t, th, c).value;
            && (Leaving(e.th.pc) <==> th.role.Reader? && th.pc.Reading? && c == Bad)
            && (e.launched.Some? ==> !Leaving(e.launched.value.pc))
  {
    match th.role case Caller => case Reader(_) => case Worker(_, _, _) =>
  }

  lemma ActLeaving(cfg: Config, g: Shared, t: Tid, th: Thread, c: Choice)
    requires Act(cfg, g, t, th, c).Some? && ShapeLocal(th)
    ensures var e := Act(cfg, g, t, th, c).value;
            && Bit(Leaving(e.th.pc)) + Bit(th.pc.DrainMu? && th.pc.job.Leave?)
               == Bit(Leaving(th.pc)) + Bit(th.role.Reader? && th.pc.Reading? && c == Bad)
            && (e.launched.Some? ==> !Leaving(e.launched.value.pc))
  {
    if !AtLock(th.pc) {
      RoleLeaving(cfg, g, t, th, c);
    }
  }

  lemma NextLeaving(cfg: Config, s: State, l: Label)
    requires Threads(s) && Next(cfg, s, l).Some?
    ensures Sum(Next(cfg, s, l).value.threads, LeavingOf()) + Bit(Leaves(s, l))
            == Sum(s.threads, LeavingOf()) + Bit(Causes(s, l))
  {
    match l
    case Call(api) => SumAppend(s.threads, Thread(Caller, Entry(api)), LeavingOf());
    case Advance(_) =>
    case Tick(t) => SumUpdate(s.threads, t, Fired(cfg, s.threads[t]), LeavingOf());
    case Go(t, c) =>
      var e := Act(cfg, s.g, t, s.threads[t], c).value;
      assert Local(s.g, s.workers, t, s.threads[t]);
      ActLeaving(cfg, s.g, t, s.threads[t], c);
      SumUpdate(s.threads, t, e.th, LeavingOf());
      if e.launched.Some? {
        SumAppend(s.threads[t := e.th], e.launched.value, LeavingOf());
      }
  }

  /** Each call of Disconnect and each failing read leads to one critical section of disconnect, and nothing else
      does: a timeout or a closed connection, in particular, leads to none. */
  lemma {:induction false} LeavesAreCaused(cfg: Config, schedule: seq<Label>)
    requires Exec(cfg, schedule).Some?
    ensures LeaveCount(cfg, schedule) + Sum(Exec(cfg, schedule).value.threads, LeavingOf())
            == CauseCount(cfg, schedule)
  {
    if schedule != [] {
      var n := |schedule| - 1;
      LeavesAreCaused(cfg, schedule[..n]);
      ExecInv(cfg, schedule[..n]);
      NextLeaving(cfg, Exec(cfg, schedule[..n]).value, schedule[n]);
    }
  }

  /** A connected session ceases to be connected exactly in such a section, which takes the connection away. */
  lemma ConnectionEndsExactly(cfg: Config, schedule: seq<Label>, l: Label)
    requires Exec(cfg, schedule).Some? && Exec(cfg, schedule).value.g.registry.Connected()
    requires Next(cfg, Exec(cfg, schedule).value, l).Some?
    ensures var s := Exec(cfg, schedule).value;
            var s' := Next(cfg, s, l).value;
            && (!s'.g.registry.Connected() <==> Leaves(s, l))
            && (Leaves(s, l) ==> OwnedConn(s'.threads[l.t].pc) == CurrentConn(s.g.registry))
            && (!Leaves(s, l) ==> CurrentConn(s'.g.registry) == CurrentConn(s.g.registry))
  {
    ExecInv(cfg, schedule);
    var s := Exec(cfg, schedule).value;
    if l.Go? {
      StepEnds(cfg, s, l.t, l.c);
    }
  }

  lemma StepEnds(cfg: Config, s: State, t: Tid, c: Choice)
    requires Inv(cfg, s) && s.g.registry.Connected() && t < |s.threads| && Act(cfg, s.g, t, s.threads[t], c).Some?
    ensures var e := Act(cfg, s.g, t, s.threads[t], c).value;
            if Leaves(s, Go(t, c)) then
              !e.g.registry.Connected() && OwnedConn(e.th.pc) == CurrentConn(s.g.registry)
            else e.g.registry.Connected() && CurrentConn(e.g.registry) == CurrentConn(s.g.registry)
  {
    var th := s.threads[t];
    assert Local(s.g, s.workers, t, th);
    if th.pc.DrainMu? {
      match th.pc.job case Adopt(_) => case Leave(_) => LeaveIsOurs(cfg, s, t); case _ =>
    } else {
      ActRegistryFrame(cfg, s.g, t, th, c);
    }
  }

  /** Only the one session's id is ever expected, or none. */
  lemma LeaveIsOurs(cfg: Config, s: State, t: Tid)
    requires Inv(cfg, s) && t < |s.threads| && Leaving(s.threads[t].pc)
    ensures s.threads[t].pc.job.expected == (if s.threads[t].role.Reader? then SID else NO_ID)
  {
    assert Local(s.g, s.workers, t, s.threads[t]);
  }
}
