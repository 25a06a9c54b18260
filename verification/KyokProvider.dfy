/** `SocketLLMProvider` as the object it is: a table of mutable queues, proved against `KyokLink`. */
module KyokProvider {
  import opened Seqs
  import opened KyokLink

  class AnswerQueue {
    var items: seq<Item>

    constructor ()
      ensures items == []
    {
      items := [];
    }
  }

  /** What one resumption of the answer generator does. */
  datatype Resumption = Waits | Yields(chunk: ChunkData) | Returns | Raises(fault: Fault)

  class SocketLLMProvider {
    var outbound: seq<OutFrame>
    var answers: map<RequestId, AnswerQueue>
    /** Every queue ever handed out. A generator keeps its queue after the table forgets it. */
    ghost var queues: map<RequestId, AnswerQueue>
    /** The state as a value, history included. */
    ghost var model: Link

    ghost predicate Valid()
      reads this, queues.Values
    {
      && model.streams.Keys == queues.Keys
      && model.table == answers.Keys <= queues.Keys
      && model.outbound == outbound
      && (forall id :: id in answers ==> queues[id] == answers[id])
      && (forall a, b :: a in queues && b in queues && queues[a] == queues[b] ==> a == b)
      && (forall id :: id in queues ==> queues[id].items == model.streams[id].queue)
    }

    constructor ()
      ensures Valid() && model == EMPTY && queues == map[]
    {
      outbound, answers, queues, model := [], map[], map[], EMPTY;
    }

    /** Opens a completion under an id that has just been minted. */
    method Complete(id: RequestId, request: Request) returns (queue: AnswerQueue)
      requires Valid() && id !in queues
      modifies this
      ensures Valid() && fresh(queue) && queues == old(queues)[id := queue]
      ensures model == Asked(old(model), id, request)
    {
      queue := new AnswerQueue();
      answers := answers[id := queue];
      outbound := outbound + [CompletionRequest(id, request)];
      queues, model := queues[id := queue], Asked(model, id, request);
    }

    method Feed(id: RequestId, item: Item) returns (ok: bool)
      requires Valid()
      modifies this`model, queues.Values
      ensures Valid()
      ensures ok == Accepts(old(model), id)
      ensures model == Fed(old(model), id, item)
    {
      if id !in answers {
        return false;
      }
      var queue := answers[id];
      queue.items := queue.items + [item];
      model := Fed(model, id, item);
      return true;
    }

    /** The read loop's turn for one frame. */
    method Dispatch(frame: InFrame)
      requires Valid()
      modifies this`model, this`outbound, queues.Values
      ensures Valid()
      ensures model == Dispatched(old(model), frame)
    {
      match Payload(frame)
      case Some((id, item)) =>
        var accepted := Feed(id, item);
        if !accepted {
          outbound := outbound + [ErrorReply(Some(id), "no such in-flight completion on this connection")];
          model := model.(outbound := outbound);
        }
      case None =>
        outbound := outbound + [ErrorReply(Complaint(frame).0, Complaint(frame).1)];
        model := model.(outbound := outbound);
    }

    /** Teardown: a failure goes behind whatever each pending queue still holds. */
    method FailPending()
      requires Valid()
      modifies this`model, this`answers, queues.Values
      ensures Valid()
      ensures model == PendingFailed(old(model))
    {
      var pending := answers.Keys;
      while pending != {}
        modifies queues.Values
        invariant pending <= answers.Keys
        invariant forall id :: id in queues ==>
          queues[id].items == (if id in answers && id !in pending then Cut(model.streams[id]) else model.streams[id]).queue
      {
        var id :| id in pending;
        var queue := answers[id];
        queue.items := queue.items + [Fail(Disconnected)];
        pending := pending - {id};
      }
      answers := map[];
      model := PendingFailed(model);
    }

    /** The body of the answer generator between two of its awaits. */
    method Resume(id: RequestId, queue: AnswerQueue) returns (r: Resumption)
      requires Valid() && id in queues && queues[id] == queue
      requires model.streams[id].ending == Open
      modifies this`model, this`answers, queue
      ensures Valid()
      ensures model == Iterated(old(model), id)
      ensures old(queue.items) == [] ==> r == Waits && answers == old(answers)
      ensures old(queue.items) != [] ==>
        match old(queue.items)[0]
        case Done => r == Returns && answers == old(answers) - {id}
        case Fail(fault) => r == Raises(fault) && answers == old(answers) - {id}
        case Piece(data) =>
          if data.wellFormed then r == Yields(data) && answers == old(answers)
          else r == Raises(InvalidChunk) && answers == old(answers) - {id}
    {
      model := Iterated(model, id);
      if queue.items == [] {
        return Waits;
      }
      var item := queue.items[0];
      queue.items := queue.items[1..];
      match item
      case Done =>
        answers := answers - {id};
        return Returns;
      case Fail(fault) =>
        answers := answers - {id};
        return Raises(fault);
      case Piece(data) =>
        if !data.wellFormed {
          answers := answers - {id};
          return Raises(InvalidChunk);
        }
        return Yields(data);
    }

    /** The gap timeout runs out in the middle of a wait, whatever the queue holds by then. */
    method TimeOut(id: RequestId, queue: AnswerQueue) returns (r: Resumption)
      requires Valid() && id in queues && queues[id] == queue
      requires model.streams[id].ending == Open
      modifies this`model, this`answers
      ensures Valid()
      ensures model == TimedOut(old(model), id)
      ensures r == Raises(GapTimeout) && answers == old(answers) - {id}
    {
      answers := answers - {id};
      model := TimedOut(model, id);
      return Raises(GapTimeout);
    }

    /** The reader closes its stream. Only a generator that was ever iterated has a `finally` to leave the table by. */
    method CloseStream(id: RequestId, started: bool)
      requires Valid() && id in queues
      requires model.streams[id].ending == Open && model.streams[id].started == started
      modifies this`model, this`answers
      ensures Valid()
      ensures model == Closed(old(model), id)
      ensures answers == if started then old(answers) - {id} else old(answers)
    {
      if started {
        answers := answers - {id};
      }
      model := Closed(model, id);
    }
  }
}
