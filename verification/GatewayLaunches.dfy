/** Workers that never overlap: each is launched when all earlier ones have ended. */
module GatewayLaunches {
  import opened GatewaySystem
  import opened GatewayInvariants
  import opened GatewayDiscipline

  /** Start's critical section finds no worker running and launches one. */
  predicate Launches(s: State, l: Label) {
    && l.Go? && l.t < |s.threads| && s.threads[l.t].pc.HoldQ? && s.threads[l.t].pc.qjob.StartWorker?
    && !s.g.queue.Running()
  }

  /** Every launch finds all earlier workers ended. */
  ghost predicate LaunchesAlone(cfg: Config, schedule: seq<Label>) {
    schedule == [] ||
    var n := |schedule| - 1;
    && LaunchesAlone(cfg, schedule[..n])
    && (Exec(cfg, schedule[..n]).Some? ==>
          var s := Exec(cfg, schedule[..n]).value;
          Launches(s, schedule[n]) ==> AllDone(s))
  }

  predicate DoneStays(g: Shared, e: Effect) {
    g.channels.doneClosed <= e.g.channels.doneClosed
  }

  lemma ActDoneStays(cfg: Config, g: Shared, t: Tid, th: Thread, c: Choice)
    requires Act(cfg, g, t, th, c).Some?
    ensures DoneStays(g, Act(cfg, g, t, th, c).value)
  {
    if !AtLock(th.pc) {
      match th.role case Caller => case Reader(_) => case Worker(_, _, _) =>
    }
  }

  lemma NextOthersDone(cfg: Config, s: State, l: Label)
    requires OthersDone(s) && Next(cfg, s, l).Some? && (Launches(s, l) ==> AllDone(s))
    ensures OthersDone(Next(cfg, s, l).value)
  {
    if l.Go? {
      var th := s.threads[l.t];
      ActDoneStays(cfg, s.g, l.t, th, l.c);
      if !th.pc.HoldQ? {
        ActQueueFrame(cfg, s.g, l.t, th, l.c);
      }
    }
  }

  lemma {:induction false} ExecOthersDone(cfg: Config, schedule: seq<Label>)
    requires LaunchesAlone(cfg, schedule) && Exec(cfg, schedule).Some?
    ensures OthersDone(Exec(cfg, schedule).value)
  {
    if schedule != [] {
      var n := |schedule| - 1;
      ExecOthersDone(cfg, schedule[..n]);
      NextOthersDone(cfg, Exec(cfg, schedule[..n]).value, schedule[n]);
    }
  }

  /** The reconnect discipline is enough: who adopts waits for the last worker's end. */
  lemma {:induction false} DisciplineLaunchesAlone(cfg: Config, schedule: seq<Label>)
    requires Disciplined(cfg, schedule) && Exec(cfg, schedule).Some?
    ensures LaunchesAlone(cfg, schedule)
  {
    if schedule != [] {
      var n := |schedule| - 1;
      var s, l := Exec(cfg, schedule[..n]).value, schedule[n];
      DisciplineLaunchesAlone(cfg, schedule[..n]);
      ExecOrderly(cfg, schedule[..n]);
      if Launches(s, l) {
        assert StationOK(s, s.threads[l.t].pc);
      }
    }
  }
}
