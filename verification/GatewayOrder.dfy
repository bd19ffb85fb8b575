/**
  The exact condition, over every interleaving, for commands to be tried in the order of acceptance: no
  command is tried while another goroutine holds an earlier one.
 */
module GatewayOrder {
  import opened GatewayMetrics
  import opened GatewaySystem
  import opened GatewayInvariants
  import opened GatewayLedger
  import opened GatewayDiscipline
  import opened GatewayLaunches
  import opened GatewayReplay

  predicate AllBelow(attempts: seq<Attempt>, serial: nat) {
    forall i | 0 <= i < |attempts| :: attempts[i].item.serial < serial
  }

  predicate Increasing(attempts: seq<Attempt>) {
    forall i, j | 0 <= i < j < |attempts| :: attempts[i].item.serial < attempts[j].item.serial
  }

  lemma IncreasingOneMore(attempts: seq<Attempt>, a: Attempt)
    ensures Increasing(attempts + [a]) <==> Increasing(attempts) && AllBelow(attempts, a.item.serial)
  {
    var more := attempts + [a];
    assert more[|attempts|] == a;
    assert forall i | 0 <= i < |attempts| :: more[i] == attempts[i];
  }

  /** What the goroutine holds comes after everything that was tried. */
  predicate NotPassed(attempts: seq<Attempt>, pc: Pc) { Untried(pc) ==> AllBelow(attempts, pc.item.serial) }

  /** Attempts are in the order of acceptance, and none has passed a command that is still in a hand. */
  predicate InTurn(s: State) {
    Increasing(s.g.log.attempts) && forall t | 0 <= t < |s.threads| :: NotPassed(s.g.log.attempts, s.threads[t].pc)
  }

  // ---------------------------------------------------------------- attempts

  /** The sender makes its attempt: it finds no connection, or its write returns. */
  predicate Tries(s: State, l: Label) {
    && l.Go? && l.t < |s.threads| && s.threads[l.t].role.Worker?
    && (s.threads[l.t].pc.Writing?
        || (s.threads[l.t].pc.HoldRead? && s.g.registry.Target(s.threads[l.t].role.sid).None?))
  }

  /** Nobody else holds an earlier command. */
  predicate FirstInHand(s: State, t: Tid)
    requires t < |s.threads| && Untried(s.threads[t].pc)
  {
    forall u | 0 <= u < |s.threads| && u != t && Untried(s.threads[u].pc) ::
      s.threads[t].pc.item.serial < s.threads[u].pc.item.serial
  }

  /** Every attempt is made with the earliest command that is in any hand. */
  ghost predicate TriedInTurn(cfg: Config, schedule: seq<Label>) {
    schedule == [] ||
    var n := |schedule| - 1;
    && TriedInTurn(cfg, schedule[..n])
    && (Exec(cfg, schedule[..n]).Some? ==>
          var s := Exec(cfg, schedule[..n]).value;
          Tries(s, schedule[n]) ==> FirstInHand(s, schedule[n].t))
  }

  lemma WorkerTries(cfg: Config, g: Shared, t: Tid, th: Thread, c: Choice)
    requires th.role.Worker? && WorkerAct(cfg, g, t, th, c).Some?
    requires th.pc.Writing? || (th.pc.HoldRead? && g.registry.Target(th.role.sid).None?)
    ensures var e := WorkerAct(cfg, g, t, th, c).value;
            && e.launched.None? && !Untried(e.th.pc)
            && |e.g.log.attempts| == |g.log.attempts| + 1 && e.g.log.attempts[|g.log.attempts|].item == th.pc.item
            && e.g.log.attempts == g.log.attempts + [e.g.log.attempts[|g.log.attempts|]]
  {
    match th.pc case HoldRead(_) => case Writing(_, _) =>
  }

  lemma TryInTurn(cfg: Config, s: State, l: Label)
    requires Tries(s, l) && Next(cfg, s, l).Some?
    ensures InTurn(Next(cfg, s, l).value) <==> InTurn(s) && FirstInHand(s, l.t)
  {
    var s', t, n := Next(cfg, s, l).value, l.t, |s.g.log.attempts|;
    WorkerTries(cfg, s.g, t, s.threads[t], l.c);
    var a := s'.g.log.attempts[n];
    IncreasingOneMore(s.g.log.attempts, a);
    assert s'.g.log.attempts == s.g.log.attempts + [a];
    assert forall u | 0 <= u < |s.threads| && u != t :: s'.threads[u] == s.threads[u];
    forall serial: nat
      ensures AllBelow(s'.g.log.attempts, serial) <==> AllBelow(s.g.log.attempts, serial) && a.item.serial < serial
    {
      BelowOneMore(s.g.log.attempts, a, serial);
    }
    if InTurn(s') {
      assert NotPassed(s.g.log.attempts, s.threads[t].pc);
      forall u | 0 <= u < |s.threads| && u != t
        ensures NotPassed(s.g.log.attempts, s.threads[u].pc)
        ensures Untried(s.threads[u].pc) ==> s.threads[t].pc.item.serial < s.threads[u].pc.item.serial
      {
        assert NotPassed(s'.g.log.attempts, s'.threads[u].pc);
      }
    }
    if InTurn(s) && FirstInHand(s, t) {
      assert NotPassed(s.g.log.attempts, s.threads[t].pc);
      forall u | 0 <= u < |s'.threads|
        ensures NotPassed(s'.g.log.attempts, s'.threads[u].pc)
      {
        assert NotPassed(s.g.log.attempts, s.threads[u].pc);
      }
    }
  }

  lemma BelowOneMore(attempts: seq<Attempt>, a: Attempt, serial: nat)
    ensures AllBelow(attempts + [a], serial) <==> AllBelow(attempts, serial) && a.item.serial < serial
  {
    var more := attempts + [a];
    assert more[|attempts|] == a;
    assert forall i | 0 <= i < |attempts| :: more[i] == attempts[i];
  }

  // ---------------------------------------------------------------- all other steps

  /** The step makes no attempt; what the goroutine holds it held before, or has just popped. */
  predicate Holds(g: Shared, pc: Pc, e: Effect) {
    && e.g.log.attempts == g.log.attempts
    && (e.launched.Some? ==> !Untried(e.launched.value.pc))
    && (Untried(pc) ==> Untried(e.th.pc) && e.th.pc.item == pc.item)
    && (Untried(e.th.pc) && !Untried(pc) ==> g.queue.commands != [] && e.th.pc.item == g.queue.commands[0])
  }

  lemma WorkerHolds(cfg: Config, g: Shared, t: Tid, th: Thread, c: Choice)
    requires th.role.Worker? && WorkerAct(cfg, g, t, th, c).Some?
    requires !th.pc.Writing? && !(th.pc.HoldRead? && g.registry.Target(th.role.sid).None?)
    ensures Holds(g, th.pc, WorkerAct(cfg, g, t, th, c).value)
  {
    match th.pc case WantRead(_) => case HoldRead(_) => case _ =>
  }

  lemma LockHolds(cfg: Config, g: Shared, t: Tid, th: Thread, c: Choice)
    requires Act(cfg, g, t, th, c).Some? && AtLock(th.pc)
    ensures Holds(g, th.pc, Act(cfg, g, t, th, c).value)
  {
    match th.pc
    case HoldQ(job) => match job { case StartWorker(_) => case StopQueue => case PopCommand => case _ => }
    case DrainMu(job) => match job { case Adopt(_) => case _ => }
    case _ =>
  }

  lemma CallerHolds(g: Shared, th: Thread, c: Choice)
    requires CallerAct(g, th, c).Some?
    ensures Holds(g, th.pc, CallerAct(g, th, c).value)
  {
  }

  lemma ReaderHolds(g: Shared, th: Thread, sid: SessionId, c: Choice)
    requires ReaderAct(g, th, sid, c).Some?
    ensures Holds(g, th.pc, ReaderAct(g, th, sid, c).value)
  {
  }

  lemma ActHolds(cfg: Config, s: State, t: Tid, c: Choice)
    requires t < |s.threads| && Act(cfg, s.g, t, s.threads[t], c).Some? && !Tries(s, Go(t, c))
    ensures Holds(s.g, s.threads[t].pc, Act(cfg, s.g, t, s.threads[t], c).value)
  {
    var th := s.threads[t];
    if AtLock(th.pc) {
      LockHolds(cfg, s.g, t, th, c);
    } else {
      match th.role
      case Caller => CallerHolds(s.g, th, c);
      case Reader(sid) => ReaderHolds(s.g, th, sid, c);
      case Worker(_, _, _) => WorkerHolds(cfg, s.g, t, th, c);
    }
  }

  /** What is still queued comes after everything that was tried. */
  lemma HeadIsAhead(cfg: Config, s: State)
    requires Inv(cfg, s) && s.g.queue.commands != []
    ensures AllBelow(s.g.log.attempts, s.g.queue.commands[0].serial)
  {
    assert s.g.log.accepted[|s.g.log.removed|] == s.g.queue.commands[0];
    forall i | 0 <= i < |s.g.log.attempts|
      ensures s.g.log.attempts[i].item.serial < |s.g.log.removed|
    {
      TriedWasPopped(cfg, s, i);
    }
  }

  lemma TriedWasPopped(cfg: Config, s: State, i: nat)
    requires Inv(cfg, s) && i < |s.g.log.attempts|
    ensures s.g.log.attempts[i].item.serial < |s.g.log.removed|
  {
    var x := s.g.log.attempts[i].item;
    SumAtLeast(s.g.log.attempts, i, TriedOf(x));
    assert Total(s.threads, InHand(x)) == Ledger(s.g, InHand(x));
    var k := SumWitness(s.g.log.removed, PoppedOf(x));
    assert s.g.log.accepted[k] == Items(s.g.log.removed)[k] == x;
  }

  lemma StepInTurn(cfg: Config, s: State, t: Tid, c: Choice)
    requires Inv(cfg, s) && t < |s.threads| && Act(cfg, s.g, t, s.threads[t], c).Some? && !Tries(s, Go(t, c))
    ensures InTurn(Apply(s, t, Act(cfg, s.g, t, s.threads[t], c).value)) <==> InTurn(s)
  {
    var e := Act(cfg, s.g, t, s.threads[t], c).value;
    var s' := Apply(s, t, e);
    ActHolds(cfg, s, t, c);
    if s.g.queue.commands != [] {
      HeadIsAhead(cfg, s);
    }
    HoldsTurn(s, t, e);
  }

  lemma HoldsTurn(s: State, t: Tid, e: Effect)
    requires t < |s.threads| && Holds(s.g, s.threads[t].pc, e)
    requires s.g.queue.commands != [] ==> AllBelow(s.g.log.attempts, s.g.queue.commands[0].serial)
    ensures InTurn(Apply(s, t, e)) <==> InTurn(s)
  {
    var s' := Apply(s, t, e);
    assert forall u | 0 <= u < |s.threads| && u != t :: s'.threads[u] == s.threads[u];
    forall u | 0 <= u < |s.threads|
      ensures NotPassed(s'.g.log.attempts, s'.threads[u].pc) <==> NotPassed(s.g.log.attempts, s.threads[u].pc)
    {
    }
    assert forall u | |s.threads| <= u < |s'.threads| :: NotPassed(s'.g.log.attempts, s'.threads[u].pc);
  }

  lemma QuietInTurn(cfg: Config, s: State, l: Label)
    requires Next(cfg, s, l).Some? && !l.Go?
    ensures InTurn(Next(cfg, s, l).value) <==> InTurn(s)
  {
    var s' := Next(cfg, s, l).value;
    QuietBooks(cfg, s, l);
    assert forall u | 0 <= u < |s.threads| :: s'.threads[u].pc == s.threads[u].pc;
    assert forall u | |s.threads| <= u < |s'.threads| :: !Untried(s'.threads[u].pc);
  }

  // ---------------------------------------------------------------- every interleaving

  /** The exact law: attempts keep the order of acceptance, and pass nothing that is still in a hand, if and only
      if each of them is made with the earliest command in any hand. */
  lemma {:induction false} OrderExactly(cfg: Config, schedule: seq<Label>)
    requires Exec(cfg, schedule).Some?
    ensures InTurn(Exec(cfg, schedule).value) <==> TriedInTurn(cfg, schedule)
  {
    if schedule != [] {
      var n := |schedule| - 1;
      var s, l := Exec(cfg, schedule[..n]).value, schedule[n];
      OrderExactly(cfg, schedule[..n]);
      ExecInv(cfg, schedule[..n]);
      if Tries(s, l) {
        TryInTurn(cfg, s, l);
      } else if l.Go? {
        StepInTurn(cfg, s, l.t, l.c);
      } else {
        QuietInTurn(cfg, s, l);
      }
    }
  }

  lemma OneHolder(s: State, t: Tid, u: Tid)
    requires Threads(s) && OthersDone(s) && t < |s.threads| && u < |s.threads|
    requires s.threads[t].role.Worker? && !s.threads[t].pc.Done? && Untried(s.threads[u].pc)
    ensures t == u
  {
    assert Local(s.g, s.workers, t, s.threads[t]) && Local(s.g, s.workers, u, s.threads[u]);
  }

  /** Workers that never overlap try in turn: there is only one hand. */
  lemma {:induction false} LaunchedAloneInTurn(cfg: Config, schedule: seq<Label>)
    requires LaunchesAlone(cfg, schedule) && Exec(cfg, schedule).Some?
    ensures TriedInTurn(cfg, schedule)
  {
    if schedule != [] {
      var n := |schedule| - 1;
      var s, l := Exec(cfg, schedule[..n]).value, schedule[n];
      LaunchedAloneInTurn(cfg, schedule[..n]);
      ExecInv(cfg, schedule[..n]);
      ExecOthersDone(cfg, schedule[..n]);
      if Tries(s, l) {
        forall u | 0 <= u < |s.threads| && u != l.t && Untried(s.threads[u].pc)
          ensures false
        {
          OneHolder(s, l.t, u);
        }
      }
    }
  }
}
