/**
  * The state of the suggestion service and its critical sections (suggestions/service.go).
  * Sessions are named by strings, as in the source; a missing map entry reads as the zero value.
  */
module SuggestionService {
  import opened RecentLines
  import opened SuggestionText
  import opened Text
  import opened Wrappers

  datatype TimerStatus = Armed | Stopped | Fired

  /** A timer made by time.AfterFunc: it runs job number for session once, when due or later, unless stopped before. */
  datatype Timer = Timer(session: string, number: nat, due: nat, status: TimerStatus)

  /** The handle of a cancel function. */
  type CancelId = nat

  datatype State = State(
    recent: map<string, seq<string>>,
    timerOf: map<string, nat>,
    jobSeq: map<string, nat>,
    active: map<string, map<nat, CancelId>>,
    inFlight: int,
    lastError: string,
    lastErrorAt: Option<nat>,
    latest: Option<Suggestion>,
    timers: seq<Timer>)
  {
    function Recent(session: string): seq<string> { if session in recent then recent[session] else [] }

    function Newest(session: string): nat { if session in jobSeq then jobSeq[session] else 0 }
  }

  const EMPTY := State(map[], map[], map[], map[], 0, "", None, None, [])

  /** Timer.Stop: it has no effect on a timer that fired. */
  function StopTimer(timers: seq<Timer>, i: nat): seq<Timer> {
    if i < |timers| && timers[i].status == Armed then timers[i := timers[i].(status := Stopped)] else timers
  }

  lemma StopTimerFrame(timers: seq<Timer>, i: nat)
    ensures var r := StopTimer(timers, i);
            && |r| == |timers| && (i < |r| ==> r[i].status != Armed)
            && forall k | 0 <= k < |r| ::
                 && r[k] == timers[k].(status := r[k].status)
                 && (k != i || timers[k].status != Armed ==> r[k] == timers[k])
  {
  }

  /** The job that was running for this session and number, if it is still in flight. */
  predicate IsActive(active: map<string, map<nat, CancelId>>, session: string, number: nat) {
    session in active && number in active[session]
  }

  ghost function Pairs(active: map<string, map<nat, CancelId>>): set<(string, nat)> {
    set session, number | session in active && number in active[session] :: (session, number)
  }

  // ---------------------------------------------------------------- the critical sections as functions

  function Remembered(s: State, max: int, session: string, text: string): State {
    s.(recent := s.recent[session := TrimRecent(s.Recent(session) + Lines(text), max)])
  }

  /** The next job number and a new timer in place of the old one. */
  function Rescheduled(s: State, session: string, due: nat): State {
    var number := s.Newest(session) + 1;
    var stopped := if session in s.timerOf then StopTimer(s.timers, s.timerOf[session]) else s.timers;
    s.(jobSeq := s.jobSeq[session := number],
       timerOf := s.timerOf[session := |stopped|],
       timers := stopped + [Timer(session, number, due, Armed)])
  }

  function Ingested(s: State, debounce: nat, max: int, session: string, text: string, now: nat): State {
    if Trim(text) == "" then s else Rescheduled(Remembered(s, max, session, text), session, now + debounce)
  }

  function With(active: map<string, map<nat, CancelId>>, session: string, number: nat, cancel: CancelId)
    : map<string, map<nat, CancelId>>
  {
    active[session := (if session in active then active[session] else map[])[number := cancel]]
  }

  function Marked(s: State, session: string, number: nat, cancel: CancelId): State {
    s.(active := With(s.active, session, number, cancel), inFlight := s.inFlight + 1)
  }

  function Without(active: map<string, map<nat, CancelId>>, session: string, number: nat)
    : map<string, map<nat, CancelId>>
    requires IsActive(active, session, number)
  {
    var rest := active[session] - {number};
    if rest == map[] then active - {session} else active[session := rest]
  }

  function Completed(s: State, session: string, number: nat): State {
    if !IsActive(s.active, session, number) then s
    else
      s.(active := Without(s.active, session, number),
         inFlight := if s.inFlight > 0 then s.inFlight - 1 else s.inFlight)
  }

  function Committed(s: State, session: string, number: nat, parsed: Suggestion): State {
    if s.Newest(session) != number then s
    else s.(latest := Some(parsed), lastError := "", lastErrorAt := None)
  }

  function Errored(s: State, message: string, now: nat): State {
    if Trim(message) == "" then s else s.(lastError := Trim(message), lastErrorAt := Some(now))
  }

  // ---------------------------------------------------------------- the service object

  class Service {
    const debounce: nat
    const recentLinesMax: int
    var recentBySess: map<string, seq<string>>
    var timerBySess: map<string, nat>
    var jobSeqBySess: map<string, nat>
    var activeBySess: map<string, map<nat, CancelId>>
    var inFlight: int
    var lastError: string
    /** None is Go's zero time. */
    var lastErrorAt: Option<nat>
    var latest: Suggestion
    var latestFound: bool
    /** The timers that the runtime knows. */
    var timers: seq<Timer>

    ghost function Value(): State
      reads this
    {
      State(recentBySess, timerBySess, jobSeqBySess, activeBySess, inFlight, lastError, lastErrorAt,
            if latestFound then Some(latest) else None, timers)
    }

    /** NewService; durations in milliseconds. */
    constructor (debounce: int, recentLinesMax: int)
      ensures Value() == EMPTY
      ensures this.debounce > 0 && this.recentLinesMax > 0
      ensures this.debounce == if debounce <= 0 then 700 else debounce
      ensures this.recentLinesMax == if recentLinesMax <= 0 then 80 else recentLinesMax
    {
      this.debounce := if debounce <= 0 then 700 else debounce;
      this.recentLinesMax := if recentLinesMax <= 0 then 80 else recentLinesMax;
      recentBySess, timerBySess, jobSeqBySess, activeBySess := map[], map[], map[], map[];
      inFlight, lastError, lastErrorAt, latestFound, timers := 0, "", None, false, [];
      latest := Suggestion([], "", "", "");
    }

    method IngestTerminal(session: string, text: string, now: nat)
      modifies this
      ensures Value() == Ingested(old(Value()), debounce, recentLinesMax, session, text, now)
    {
      if Trim(text) == "" {
        return;
      }
      Remember(session, text);
      Reschedule(session, now);
    }

    /** Lines 86-87. */
    method Remember(session: string, text: string)
      modifies this`recentBySess
      ensures Value() == Remembered(old(Value()), recentLinesMax, session, text)
      ensures KeepsLast(Value().Recent(session), old(Value()).Recent(session) + Lines(text), recentLinesMax)
    {
      var existing := if session in recentBySess then recentBySess[session] else [];
      var lines := AppendLogLines(existing, text);
      recentBySess := recentBySess[session := TrimRecent(lines, recentLinesMax)];
      TrimRecentKeepsLast(lines, recentLinesMax);
    }

    /** Lines 89-97. */
    method Reschedule(session: string, now: nat)
      modifies this`jobSeqBySess, this`timerBySess, this`timers
      ensures Value() == Rescheduled(old(Value()), session, now + debounce)
    {
      var number := (if session in jobSeqBySess then jobSeqBySess[session] else 0) + 1;
      jobSeqBySess := jobSeqBySess[session := number];
      if session in timerBySess {
        timers := StopTimer(timers, timerBySess[session]);
      }
      timerBySess := timerBySess[session := |timers|];
      timers := timers + [Timer(session, number, now + debounce, Armed)];
    }

    method MarkInFlight(session: string, number: nat, cancel: CancelId)
      modifies this
      ensures Value() == Marked(old(Value()), session, number, cancel)
    {
      if session !in activeBySess {
        activeBySess := activeBySess[session := map[]];
      }
      var bySeq: map<nat, CancelId> := activeBySess[session];
      activeBySess := activeBySess[session := bySeq[number := cancel]];
      inFlight := inFlight + 1;
    }

    method MarkCompleted(session: string, number: nat)
      modifies this
      ensures Value() == Completed(old(Value()), session, number)
    {
      if session !in activeBySess {
        return;
      }
      var bySeq := activeBySess[session];
      if number !in bySeq {
        return;
      }
      bySeq := bySeq - {number};
      ghost var before := activeBySess;
      activeBySess := activeBySess[session := bySeq];
      assert |bySeq| == 0 <==> bySeq == map[];
      assert activeBySess - {session} == before - {session};
      if |bySeq| == 0 {
        activeBySess := activeBySess - {session};
      }
      if inFlight > 0 {
        inFlight := inFlight - 1;
      }
    }

    /** The last critical section of runJob. */
    method Commit(session: string, number: nat, parsed: Suggestion)
      modifies this
      ensures Value() == Committed(old(Value()), session, number, parsed)
    {
      var newest := if session in jobSeqBySess then jobSeqBySess[session] else 0;
      if newest != number {
        return;
      }
      latest := parsed;
      latestFound := true;
      lastError := "";
      lastErrorAt := None;
    }

    method SetLastError(message: string, now: nat)
      modifies this
      ensures Value() == Errored(old(Value()), message, now)
    {
      var trimmed := Trim(message);
      if trimmed == "" {
        return;
      }
      lastError := trimmed;
      lastErrorAt := Some(now);
    }

    /** What Status reports, with the time in words; an error that is blank is not reported. */
    method Status(format: Option<nat> -> string) returns (inProgress: bool, error: string, errorAt: string)
      ensures inProgress <==> Value().inFlight > 0
      ensures error == if Trim(Value().lastError) == "" then "" else Value().lastError
      ensures errorAt == if Trim(Value().lastError) == "" then "" else format(Value().lastErrorAt)
    {
      inProgress := inFlight > 0;
      error, errorAt := "", "";
      if Trim(lastError) != "" {
        error := lastError;
        errorAt := format(lastErrorAt);
      }
    }

    /** What Latest hands out. */
    method Latest() returns (r: Option<Suggestion>)
      ensures r == Value().latest
    {
      if !latestFound {
        return None;
      }
      return Some(latest);
    }

    /** Calls every registered cancel function; says whether there was one. */
    method CancelInFlight() returns (some: bool, cancelled: set<CancelId>)
      ensures cancelled == AllCancels(activeBySess)
      ensures some <==> Pairs(activeBySess) != {}
    {
      cancelled := {};
      var sessions := activeBySess.Keys;
      while sessions != {}
        invariant sessions <= activeBySess.Keys
        invariant cancelled == AllCancels(activeBySess - sessions)
        invariant cancelled == {} <==> Pairs(activeBySess - sessions) == {}
        decreases sessions
      {
        var session :| session in sessions;
        var bySeq := activeBySess[session];
        ghost var rest := sessions - {session};
        CancelsOfOneMore(activeBySess, sessions, session);
        cancelled := cancelled + bySeq.Values;
        sessions := sessions - {session};
      }
      assert activeBySess - {} == activeBySess;
      some := |cancelled| != 0;
    }
  }

  /** The cancel functions of all jobs in flight. */
  ghost function AllCancels(active: map<string, map<nat, CancelId>>): set<CancelId> {
    set session, number | session in active && number in active[session] :: active[session][number]
  }

  lemma CancelsOfOneMore(active: map<string, map<nat, CancelId>>, sessions: set<string>, session: string)
    requires session in sessions && sessions <= active.Keys
    ensures AllCancels(active - (sessions - {session})) == AllCancels(active - sessions) + active[session].Values
    ensures Pairs(active - (sessions - {session})) == {} <==>
            Pairs(active - sessions) == {} && active[session].Values == {}
  {
    var before, after := active - sessions, active - (sessions - {session});
    assert forall x | x in after :: x in before || x == session;
    assert forall p | p in Pairs(before) :: p in Pairs(after);
    forall v | v in active[session].Values
      ensures v in AllCancels(after) && Pairs(after) != {}
    {
      var n :| n in active[session] && active[session][n] == v;
      assert after[session] == active[session];
      assert (session, n) in Pairs(after);
    }
    forall v | v in AllCancels(before)
      ensures v in AllCancels(after)
    {
      var x, n :| x in before && n in before[x] && before[x][n] == v;
      assert after[x] == before[x];
    }
    forall p | p in Pairs(after)
      ensures p in Pairs(before) || active[session].Values != {}
    {
      if p.0 == session {
        assert active[session][p.1] in active[session].Values;
      }
    }
  }
}
