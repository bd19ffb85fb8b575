/**
  The session manager (backend/internal/gateway/manager.go): the critical sections of Connect,
  Enqueue, disconnect and writeCommand.

  A connection is the number of the successful dial that produced it.
 */
module Managers {
  import opened Wrappers
  import opened GatewayMetrics
  import opened CommandQueues

  type ConnId = nat

  datatype SessionState = SessionState(id: SessionId, connected: bool, conn: Option<ConnId>)

  /** The manager's `session` and `sessionSeq` fields. */
  datatype Registry = Registry(session: Option<SessionState>, created: nat) {
    predicate Connected() { session.Some? && session.value.connected }

    function Ensure(): Registry {
      if session.Some? then this
      else Registry(Some(SessionState(created + 1, false, None)), created + 1)
    }

    /** Connect's critical section: the new registry, and whether `conn` became the session's connection. */
    function Adopt(conn: ConnId): (r: (Registry, bool)) {
      var e := Ensure();
      if e.session.value.connected then (e, false)
      else (e.(session := Some(e.session.value.(connected := true, conn := Some(conn)))), true)
    }

    /** disconnect's critical section; `expected` is NO_ID for a manual disconnect. */
    predicate Detaches(expected: SessionId) {
      Connected() && (expected == NO_ID || session.value.id == expected)
    }

    function Detach(expected: SessionId): Registry {
      if Detaches(expected) then this.(session := Some(session.value.(connected := false, conn := None)))
      else Ensure()
    }

    /** The connection that writeCommand picks up under the read lock. */
    function Target(sessionID: SessionId): Option<ConnId> {
      if session.None? || session.value.id != sessionID || !session.value.connected then None
      else session.value.conn
    }
  }

  const NO_SESSION := Registry(None, 0)

  class Session {
    const id: SessionId
    const queue: CommandQueue
    var host: string
    var port: int
    var connected: bool
    var conn: Option<ConnId>

    constructor (id: SessionId, queue: CommandQueue)
      ensures this.id == id && this.queue == queue
      ensures State() == SessionState(id, false, None)
    {
      this.id, this.queue := id, queue;
      host, port, connected, conn := "", 0, false, None;
    }

    function State(): SessionState
      reads this
    {
      SessionState(id, connected, conn)
    }
  }

  datatype EnqueueError = NotConnected | QueueFull

  class Manager {
    const metrics: Metrics
    const queueMaxDepth: nat
    var session: Session?
    var sessionSeq: nat

    constructor (queueMaxDepth: nat, metrics: Metrics)
      ensures Valid() && View() == NO_SESSION
      ensures this.queueMaxDepth == queueMaxDepth && this.metrics == metrics
    {
      this.queueMaxDepth, this.metrics := queueMaxDepth, metrics;
      session, sessionSeq := null, 0;
    }

    ghost predicate Valid()
      reads this, session, if session != null then {session.queue} else {}
    {
      session != null ==>
        && session.queue.Valid()
        && session.queue.metrics == metrics
        && session.queue.maxDepth == queueMaxDepth
        && session.queue.sessionID == session.id
    }

    ghost function View(): Registry
      reads this, session
    {
      Registry(if session == null then None else Some(session.State()), sessionSeq)
    }

    /** The session's queue; before the session exists, the empty queue it will be created with. */
    ghost function QueueView(): Queue<string>
      requires Valid()
      reads this, session, if session != null then {session.queue, session.queue.backing} else {}
    {
      if session == null then EmptyQueue() else session.queue.View()
    }

    method EnsureSessionLocked()
      requires Valid()
      modifies this
      ensures Valid() && session != null
      ensures View() == old(View()).Ensure() && QueueView() == old(QueueView())
      ensures old(session) != null ==> session == old(session)
      ensures old(session) == null ==> fresh(session) && fresh(session.queue) && fresh(session.queue.backing)
    {
      if session != null {
        return;
      }
      sessionSeq := sessionSeq + 1;
      var id := sessionSeq;
      var queue := new CommandQueue(id, queueMaxDepth, metrics);
      session := new Session(id, queue);
    }

    /** Lines 98-113 of Connect, after the dial. `spawned` is the worker launched by the queue's Start. */
    method ConnectLocked(host: string, port: int, conn: ConnId) returns (adopted: bool, spawned: Option<nat>)
      requires Valid()
      modifies this, session, if session != null then {session.queue} else {}
      ensures Valid() && session != null
      ensures (View(), adopted) == old(View()).Adopt(conn)
      ensures adopted <==> !old(View()).Connected()
      ensures adopted ==> session.host == host && session.port == port && session.conn == Some(conn)
      ensures !adopted ==> session == old(session) && session.conn == old(session.conn)
                           && session.host == old(session.host) && session.port == old(session.port)
      ensures QueueView() == if adopted then old(QueueView()).Start() else old(QueueView())
      ensures spawned == if adopted && !old(QueueView()).Running() then QueueView().channels else None
    {
      EnsureSessionLocked();
      if session.connected {
        return false, None;
      }
      session.host, session.port := host, port;
      session.conn := Some(conn);
      session.connected := true;
      spawned := session.queue.Start();
      return true, spawned;
    }

    /** Lines 142-156 of Enqueue. */
    method EnqueueLocked(command: string) returns (r: Result<nat, EnqueueError>)
      requires Valid()
      modifies this, metrics, if session != null then {session.queue, session.queue.backing} else {}
      ensures Valid() && session != null
      ensures View() == old(View()).Ensure()
      ensures QueueView() == if old(View()).Connected() then old(QueueView()).Append(command, queueMaxDepth)
                             else old(QueueView())
      ensures r == if !old(View()).Connected() then Failure(NotConnected)
                   else if old(QueueView()).Full(queueMaxDepth) then Failure(QueueFull)
                   else Success(|QueueView().commands|)
      ensures metrics.View() == if r.Success? then old(metrics.View()).SetDepth(|QueueView().commands|)
                                else if r.error.QueueFull? then old(metrics.View()).IncRejected()
                                else old(metrics.View())
    {
      EnsureSessionLocked();
      if !session.connected {
        return Failure(NotConnected);
      }
      var depth := session.queue.Enqueue(command);
      if depth.Failure? {
        return Failure(QueueFull);
      }
      return Success(depth.value);
    }

    /** Lines 313-335 of disconnect: the connection taken from the session, if there was one to take. */
    method DetachLocked(expected: SessionId) returns (detached: bool, taken: Option<ConnId>)
      requires Valid()
      modifies this, session
      ensures Valid() && session != null
      ensures View() == old(View()).Detach(expected)
      ensures detached == old(View()).Detaches(expected)
      ensures detached <==> old(session != null && session.connected && (expected == NO_ID || session.id == expected))
      ensures taken == if detached then old(View()).session.value.conn else None
      ensures detached ==> session == old(session) && !session.connected && session.conn == None
      ensures QueueView() == old(QueueView())
    {
      EnsureSessionLocked();
      if !session.connected {
        return false, None;
      }
      if expected != NO_ID && session.id != expected {
        return false, None;
      }
      taken := session.conn;
      session.conn := None;
      session.connected := false;
      return true, taken;
    }

    /** Lines 224-230 of writeCommand. */
    method WriteTarget(sessionID: SessionId) returns (conn: Option<ConnId>)
      ensures conn == View().Target(sessionID)
    {
      if session == null || session.id != sessionID || !session.connected || session.conn.None? {
        return None;
      }
      return session.conn;
    }
  }
}
