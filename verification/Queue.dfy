/**
 The runner's task queue over a Redis stream with one consumer group.

 Of Redis this assumes: `XADD` appends; `XREADGROUP ... >` hands the entry after the group's
 cursor to one consumer, advances the cursor and lists the entry as pending; `XACK` unlists
 the stream ID it is given.
 */
module Queue {
  import opened Wrappers

  datatype Status = Unset | Queued

  /** The fields of a task that the queue reads or writes. */
  datatype Task = Task(id: string, kind: string, status: Status, queuedAt: int, workerId: string)

  /** A stream entry; `task` is what its data field decodes to, if it does. */
  datatype Entry = Entry(streamId: string, task: Option<Task>)

  datatype Stream = Stream(log: seq<Entry>, cursor: nat, pending: set<string>)

  const EMPTY := Stream([], 0, {})

  function Append(s: Stream, e: Entry): Stream {
    s.(log := s.log + [e])
  }

  predicate HasNext(s: Stream) {
    s.cursor < |s.log|
  }

  /** The effect of a read that reaches an undelivered entry, `s.log[s.cursor]`. */
  function Deliver(s: Stream): Stream
    requires HasNext(s)
  {
    s.(cursor := s.cursor + 1, pending := s.pending + {s.log[s.cursor].streamId})
  }

  function XAck(s: Stream, id: string): Stream {
    s.(pending := s.pending - {id})
  }

  
  class RedisQueue {
    var stream: Stream
    const consumer: string

    constructor (consumer: string)
      ensures stream == EMPTY && this.consumer == consumer
    {
      stream := EMPTY;
      this.consumer := consumer;
    }

    /**
     Fills in the task and appends it.  `newId` and `now` are the generated ID and the clock,
     `streamId` is Redis' choice; an unmarshalable payload or a request that does not arrive leaves
     the stream as it is, but the task is changed already; a lost reply is an error with the task queued.
     */
    method Enqueue(task: Task, newId: string, now: int, streamId: string, marshals: bool, fault: Fault)
      returns (task': Task, ok: bool)
      modifies this
      ensures task' == task.(id := if task.id == "" then newId else task.id, queuedAt := now, status := Queued)
      ensures ok <==> marshals && fault == NoFault
      ensures stream == if marshals && fault != NotSent then Append(old(stream), Entry(streamId, Some(task')))
                        else old(stream)
    {
      task' := task;
      if task'.id == "" {
        task' := task'.(id := newId);
      }
      task' := task'.(queuedAt := now);
      task' := task'.(status := Queued);
      if !marshals {
        return task', false;
      }
      if fault == NotSent {
        return task', false;
      }
      stream := Append(stream, Entry(streamId, Some(task')));
      return task', fault == NoFault;
    }

    /** No task and no error is the poll timeout; an entry is consumed even when the caller gets an error. */
    method Dequeue(fault: Fault) returns (r: Result<Option<Task>, ()>)
      modifies this
      ensures if fault == NotSent || !HasNext(old(stream)) then
                stream == old(stream) && r == if fault == NoFault then Ok(None) else Err(())
              else
                var e := old(stream).log[old(stream).cursor];
                && stream == Deliver(old(stream))
                && r == if fault == NoFault && e.task.Some? then Ok(Some(e.task.value.(workerId := consumer))) else Err(())
    {
      if fault == NotSent {
        return Err(());
      }
      if !HasNext(stream) {
        return if fault == NoFault then Ok(None) else Err(());
      }
      var msg := stream.log[stream.cursor];
      stream := Deliver(stream);
      if fault == ReplyLost || msg.task.None? {
        return Err(());
      }
      return Ok(Some(msg.task.value.(workerId := consumer)));
    }

    /**
     The task ID is passed where Redis expects a stream ID: of the entries delivered and not yet
     acknowledged, at most the one with that stream ID is cleared, and only if the request arrives.
     */
    method Ack(taskID: string, reached: bool) returns (ok: bool)
      modifies this
      ensures ok == reached
      ensures stream.log == old(stream).log && stream.cursor == old(stream).cursor
      ensures forall id :: id in stream.pending <==> id in old(stream).pending && !(reached && id == taskID)
    {
      if reached {
        stream := XAck(stream, taskID);
      }
      return reached;
    }

    method Nack(taskID: string)
      ensures stream == old(stream)
    {
    }
  }
}
