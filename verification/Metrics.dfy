/** The queue counters of the gateway (backend/internal/gateway/metrics.go). */
module GatewayMetrics {

  /** The session id "s-n" as its number n; 0 stands for the empty string. */
  type SessionId = nat
  const NO_ID: SessionId := 0

  /** The value of the counters at one moment. Go's zero values are the initial ones. */
  datatype Counters = Counters(
    depth: nat,
    sent: nat,
    sendFailed: nat,
    rejected: nat,
    dropped: nat,
    droppedBySession: map<SessionId, nat>)
  {
    function SetDepth(d: nat): Counters { this.(depth := d) }
    function IncSent(): Counters { this.(sent := sent + 1) }
    function IncSendFailed(): Counters { this.(sendFailed := sendFailed + 1) }
    function IncRejected(): Counters { this.(rejected := rejected + 1) }
    function AddDropped(n: nat): Counters { this.(dropped := dropped + n) }

    function DroppedFor(session: SessionId): nat {
      if session in droppedBySession then droppedBySession[session] else 0
    }

    function AddDroppedForSession(session: SessionId, n: int): Counters {
      if session == NO_ID || n <= 0 then this
      else this.(droppedBySession := droppedBySession[session := DroppedFor(session) + n])
    }
  }

  const ZERO := Counters(0, 0, 0, 0, 0, map[])

  class Metrics {
    var queueDepth: nat
    var queueSentTotal: nat
    var queueSendFailedTotal: nat
    var queueRejectedTotal: nat
    var queueDroppedTotal: nat
    var droppedBySession: map<SessionId, nat>

    function View(): Counters
      reads this
    {
      Counters(queueDepth, queueSentTotal, queueSendFailedTotal, queueRejectedTotal, queueDroppedTotal,
               droppedBySession)
    }

    constructor ()
      ensures View() == ZERO
    {
      queueDepth, queueSentTotal, queueSendFailedTotal := 0, 0, 0;
      queueRejectedTotal, queueDroppedTotal, droppedBySession := 0, 0, map[];
    }

    method SetQueueDepth(depth: nat)
      modifies this
      ensures View() == old(View()).SetDepth(depth)
    {
      queueDepth := depth;
    }

    method IncQueueSent()
      modifies this
      ensures View() == old(View()).IncSent()
    {
      queueSentTotal := queueSentTotal + 1;
    }

    method IncQueueSendFailed()
      modifies this
      ensures View() == old(View()).IncSendFailed()
    {
      queueSendFailedTotal := queueSendFailedTotal + 1;
    }

    method IncQueueRejected()
      modifies this
      ensures View() == old(View()).IncRejected()
    {
      queueRejectedTotal := queueRejectedTotal + 1;
    }

    method AddQueueDropped(count: nat)
      modifies this
      ensures View() == old(View()).AddDropped(count)
    {
      queueDroppedTotal := queueDroppedTotal + count;
    }

    /** Loads or creates the session's counter, then adds to it. */
    method AddQueueDroppedForSession(session: SessionId, count: int)
      modifies this
      ensures View() == old(View()).AddDroppedForSession(session, count)
    {
      if session == NO_ID || count <= 0 {
        return;
      }
      if session !in droppedBySession {
        droppedBySession := droppedBySession[session := 0];
      }
      droppedBySession := droppedBySession[session := droppedBySession[session] + count];
    }
  }
}
