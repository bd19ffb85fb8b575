/**
  The bounded command queue (backend/internal/gateway/queue.go).

  `Queue` is the abstract queue. Its critical sections are the functions below, which the
  interleaving model in GatewaySystem.dfy takes as atomic actions. `CommandQueue` holds the
  commands in a sliding Go slice over a backing array and is proved to refine them.
 */
module CommandQueues {
  import opened Wrappers
  import opened GatewayMetrics

  /** `channels` is the running worker's stop/done channel pair; pairs are numbered by `started`. */
  datatype Queue<T> = Queue(commands: seq<T>, channels: Option<nat>, started: nat) {
    predicate Running() { channels.Some? }

    function Start(): Queue<T> {
      if Running() then this else this.(channels := Some(started), started := started + 1)
    }

    predicate Full(maxDepth: nat) { |commands| >= maxDepth }

    function Append(command: T, maxDepth: nat): Queue<T> {
      if Full(maxDepth) then this else this.(commands := commands + [command])
    }

    function Pop(): (r: (Queue<T>, Option<T>)) {
      if commands == [] then (this, None)
      else (this.(commands := commands[1..]), Some(commands[0]))
    }

    /** The critical section of StopAndDrop. */
    function Stop(): Queue<T> {
      this.(commands := [], channels := None)
    }
  }

  function EmptyQueue<T>(): Queue<T> { Queue([], None, 0) }

  class CommandQueue {
    // The slice `commands` is backing[offset..offset+length]; its capacity is what remains behind offset.
    var backing: array<string>
    var offset: nat
    var length: nat

    const sessionID: SessionId
    const maxDepth: nat
    const metrics: Metrics

    var running: bool
    var stopCh: Option<nat>
    var doneCh: Option<nat>
    var channelsMade: nat

    ghost predicate Valid()
      reads this
    {
      && offset + length <= backing.Length
      && stopCh == doneCh
      && running == stopCh.Some?
    }

    ghost function View(): Queue<string>
      reads this, backing
      requires Valid()
    {
      Queue(backing[offset..offset + length], stopCh, channelsMade)
    }

    constructor (sessionID: SessionId, maxDepth: nat, metrics: Metrics)
      ensures Valid() && fresh(backing)
      ensures View() == EmptyQueue()
      ensures this.sessionID == sessionID && this.maxDepth == maxDepth && this.metrics == metrics
    {
      backing := new string[maxDepth];
      offset, length := 0, 0;
      this.sessionID, this.maxDepth, this.metrics := sessionID, maxDepth, metrics;
      running, stopCh, doneCh, channelsMade := false, None, None, 0;
    }

    /** `spawned` is the channel pair handed to a new worker goroutine, if one is launched. */
    method Start() returns (spawned: Option<nat>)
      requires Valid()
      modifies this
      ensures Valid() && backing == old(backing)
      ensures View() == old(View()).Start()
      ensures spawned == if old(View()).Running() then None else View().channels
    {
      if running {
        return None;
      }
      stopCh := Some(channelsMade);
      doneCh := Some(channelsMade);
      channelsMade := channelsMade + 1;
      running := true;
      return stopCh;
    }

    /** Go's append: in place while the slice has spare capacity, otherwise into a larger array. */
    method AppendSlice(command: string)
      requires Valid()
      modifies this, backing
      ensures Valid() && (backing == old(backing) || fresh(backing))
      ensures View() == old(View()).(commands := old(View()).commands + [command])
    {
      if offset + length == backing.Length {
        var capacity :| length < capacity;
        var grown := new string[capacity];
        forall i | 0 <= i < length {
          grown[i] := backing[offset + i];
        }
        assert grown[..length] == backing[offset..offset + length];
        backing, offset := grown, 0;
      }
      backing[offset + length] := command;
      length := length + 1;
    }

    method Enqueue(command: string) returns (r: Result<nat, nat>)
      requires Valid()
      modifies this, backing, metrics
      ensures Valid() && (backing == old(backing) || fresh(backing))
      ensures View() == old(View()).Append(command, maxDepth)
      ensures r == if old(View()).Full(maxDepth) then Failure(|View().commands|) else Success(|View().commands|)
      ensures metrics.View() == if r.Failure? then old(metrics.View()).IncRejected()
                                else old(metrics.View()).SetDepth(|View().commands|)
    {
      if length >= maxDepth {
        metrics.IncQueueRejected();
        return Failure(length);
      }
      AppendSlice(command);
      metrics.SetQueueDepth(length);
      return Success(length);
    }

    method Depth() returns (depth: nat)
      requires Valid()
      ensures depth == |View().commands|
    {
      depth := length;
    }

    /** Lines 86-101: empties the slice with `[:0]` and takes the channels if a worker is running. */
    method StopAndDropLocked() returns (dropped: nat, taken: Option<nat>)
      requires Valid()
      modifies this, metrics
      ensures Valid() && backing == old(backing)
      ensures View() == old(View()).Stop()
      ensures dropped == |old(View()).commands| && taken == old(View()).channels
      ensures metrics.View() == old(metrics.View()).SetDepth(0)
    {
      dropped := length;
      length := 0;
      metrics.SetQueueDepth(0);
      if !running {
        return dropped, None;
      }
      taken := stopCh;
      running := false;
      stopCh, doneCh := None, None;
    }

    /** Lines 106-109, reached only when a worker was stopped and has answered on its done channel. */
    method CountDropped(dropped: nat)
      modifies metrics
      ensures metrics.View() ==
              if dropped > 0 then old(metrics.View()).AddDropped(dropped).AddDroppedForSession(sessionID, dropped)
              else old(metrics.View())
    {
      if dropped > 0 {
        metrics.AddQueueDropped(dropped);
        metrics.AddQueueDroppedForSession(sessionID, dropped);
      }
    }

    /** Takes the head with `[1:]`. */
    method Pop() returns (command: Option<string>)
      requires Valid()
      modifies this, metrics
      ensures Valid() && backing == old(backing)
      ensures (View(), command) == old(View()).Pop()
      ensures metrics.View() == if command.None? then old(metrics.View())
                                else old(metrics.View()).SetDepth(|View().commands|)
    {
      if length == 0 {
        return None;
      }
      command := Some(backing[offset]);
      offset, length := offset + 1, length - 1;
      metrics.SetQueueDepth(length);
    }
  }
}
