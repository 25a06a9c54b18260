/**
 The gateway's half of one `/ws/kyok` connection: the table of in-flight
 completions, the queue behind each, and the stream the relay reads.

 `Link` is the state as a value, and one function per event says what that
 event does to it. `SocketLLMProvider` is the object with mutable queues; each
 of its methods is proved to do exactly what the function says.
 */
module KyokLink {
  import opened Seqs

  type RequestId = string

  /** A published completion envelope; `wellFormed` is what validation at the bridge answers. */
  datatype Request = Request(body: string, wellFormed: bool)

  /** A chunk object; `wellFormed` says whether it validates as a chat-completion chunk. */
  datatype ChunkData = ChunkData(json: string, wellFormed: bool)

  datatype Fault =
    | Refused(refusal: string)
    | Reported(message: string)
    | Disconnected
    | GapTimeout
    | InvalidChunk

  /** What an answer queue holds. */
  datatype Item = Piece(data: ChunkData) | Done | Fail(fault: Fault)

  /** A parsed inbound frame. `None` stands for a field that is absent or of the wrong type. */
  datatype InFrame =
    | Unparseable
    | UnknownType(kind: string)
    | ChunkFrame(id: Option<RequestId>, data: Option<ChunkData>)
    | DoneFrame(id: Option<RequestId>)
    | ErrorFrame(id: Option<RequestId>, message: Option<string>, refusal: Option<string>)

  datatype OutFrame =
    | CompletionRequest(id: RequestId, request: Request)
    | ErrorReply(about: Option<RequestId>, message: string)

  datatype Ending = Open | Completed | Failed(fault: Fault) | Abandoned

  /**
   One completion's answer. `queue` is what has been fed and not yet taken,
   `yielded` what the reader was given, and `heard` the history of everything
   fed. `started` says whether the generator has been iterated at all.
   */
  datatype Stream = Stream(
    queue: seq<Item>,
    yielded: seq<ChunkData>,
    ending: Ending,
    started: bool,
    heard: seq<Item>
  )

  /** `streams` remembers every completion asked; `table` holds the ids in flight. */
  datatype Link = Link(
    streams: map<RequestId, Stream>,
    table: set<RequestId>,
    outbound: seq<OutFrame>
  )

  const FRESH := Stream([], [], Open, false, [])
  const EMPTY := Link(map[], {}, [])

  // ---- what each event does

  function Asked(l: Link, id: RequestId, request: Request): Link {
    Link(l.streams[id := FRESH], l.table + {id}, l.outbound + [CompletionRequest(id, request)])
  }

  function Hear(s: Stream, item: Item): Stream {
    s.(queue := s.queue + [item], heard := s.heard + [item])
  }

  /** Whether a frame for `id` would be accepted: membership in this connection's table, nothing else. */
  predicate Accepts(l: Link, id: RequestId) {
    id in l.table && id in l.streams
  }

  function Fed(l: Link, id: RequestId, item: Item): Link {
    if Accepts(l, id) then l.(streams := l.streams[id := Hear(l.streams[id], item)]) else l
  }

  function Replied(l: Link, about: Option<RequestId>, message: string): Link {
    l.(outbound := l.outbound + [ErrorReply(about, message)])
  }

  /** The item an inbound frame feeds, and to which request; `None` for a frame that is refused unread. */
  function Payload(f: InFrame): Option<(RequestId, Item)> {
    match f
    case ChunkFrame(Some(id), Some(data)) => Some((id, Piece(data)))
    case DoneFrame(Some(id)) => Some((id, Done))
    case ErrorFrame(Some(id), message, refusal) =>
      Some((id, Fail(
        match refusal
        case Some(r) => Refused(r)
        case None =>
          Reported(if message.Some? && message.value != "" then message.value
                   else "LLM provider reported an error"))))
    case _ => None
  }

  function Complaint(f: InFrame): (Option<RequestId>, string) {
    match f
    case Unparseable => (None, "unparseable frame")
    case UnknownType(kind) => (None, "unknown frame type " + kind)
    case ChunkFrame(Some(id), None) => (Some(id), "chunk data must be an object")
    case _ => (None, "frame needs a requestId")
  }

  /** One turn of the read loop. */
  function Dispatched(l: Link, f: InFrame): Link {
    match Payload(f)
    case Some((id, item)) =>
      if Accepts(l, id) then Fed(l, id, item)
      else Replied(l, Some(id), "no such in-flight completion on this connection")
    case None => Replied(l, Complaint(f).0, Complaint(f).1)
  }

  function Cut(s: Stream): Stream {
    s.(queue := s.queue + [Fail(Disconnected)])
  }

  function PendingFailed(l: Link): Link {
    Link(map id | id in l.streams :: if id in l.table then Cut(l.streams[id]) else l.streams[id],
         {}, l.outbound)
  }

  /** What taking `item` makes of a stream whose generator was waiting for it. */
  function Took(s: Stream, item: Item): Stream {
    match item
    case Done => s.(ending := Completed)
    case Fail(fault) => s.(ending := Failed(fault))
    case Piece(data) =>
      if data.wellFormed then s.(yielded := s.yielded + [data])
      else s.(ending := Failed(InvalidChunk))
  }

  /** Stores a stream, and leaves the table if the generator's `finally` ran. */
  function Stored(l: Link, id: RequestId, s: Stream): Link {
    Link(l.streams[id := s], if s.ending == Open then l.table else l.table - {id}, l.outbound)
  }

  /** The reader asks for the next item: takes one, or starts waiting on an empty queue. */
  function Iterated(l: Link, id: RequestId): Link {
    if id !in l.streams || l.streams[id].ending != Open then l
    else
      var s := l.streams[id].(started := true);
      if s.queue == [] then Stored(l, id, s)
      else Stored(l, id, Took(s.(queue := s.queue[1..]), s.queue[0]))
  }

  /** The gap timeout. It may fire at any moment of a wait, item or no item. */
  function TimedOut(l: Link, id: RequestId): Link {
    if id !in l.streams || l.streams[id].ending != Open then l
    else Stored(l, id, l.streams[id].(started := true, ending := Failed(GapTimeout)))
  }

  /** The reader closes the stream. A generator never iterated has no `finally` to run. */
  function Closed(l: Link, id: RequestId): Link {
    if id !in l.streams || l.streams[id].ending != Open then l
    else
      var s := l.streams[id].(ending := Abandoned);
      if s.started then Stored(l, id, s) else l.(streams := l.streams[id := s])
  }

  // ---- what the events mean

  /** `m` is `l` but for the one stream and its entry. */
  ghost predicate OthersSame(l: Link, m: Link, id: RequestId) {
    && m.streams.Keys == l.streams.Keys && m.outbound == l.outbound
    && (forall i :: i in l.streams && i != id ==> m.streams[i] == l.streams[i])
    && (forall i :: i != id ==> (i in m.table <==> i in l.table))
  }

  ghost predicate SameContents(s: Stream, t: Stream) {
    t.queue == s.queue && t.yielded == s.yielded && t.heard == s.heard
  }

  /** The gap timeout fails an open stream with its own fault and takes it out of the table, whatever waits in its queue. */
  lemma TimeoutEnds(l: Link, id: RequestId)
    requires id in l.streams && l.streams[id].ending == Open
    ensures var m := TimedOut(l, id);
      && OthersSame(l, m, id) && id in m.streams && SameContents(l.streams[id], m.streams[id])
      && m.streams[id].ending == Failed(GapTimeout) && id !in m.table
  {
  }

  /** A close abandons an open stream; it leaves the table only if it was ever read. */
  lemma CloseEnds(l: Link, id: RequestId)
    requires id in l.streams && l.streams[id].ending == Open
    ensures var m := Closed(l, id);
      && OthersSame(l, m, id) && id in m.streams && SameContents(l.streams[id], m.streams[id])
      && m.streams[id].ending == Abandoned
      && (id in m.table <==> id in l.table && !l.streams[id].started)
  {
  }

  /** A read of an empty queue waits: nothing changes but that the stream has been read. */
  lemma ReadWaits(l: Link, id: RequestId)
    requires id in l.streams && l.streams[id].ending == Open && l.streams[id].queue == []
    ensures var m := Iterated(l, id);
      && OthersSame(l, m, id) && id in m.streams && SameContents(l.streams[id], m.streams[id])
      && m.streams[id].started && m.streams[id].ending == Open && m.table == l.table
  {
  }

  /** Any other takes the head: a valid chunk is yielded, and everything else ends the stream and takes it out of the table. */
  lemma ReadTakes(l: Link, id: RequestId, item: Item, rest: seq<Item>)
    requires id in l.streams && l.streams[id].ending == Open && l.streams[id].queue == [item] + rest
    ensures var s, m := l.streams[id], Iterated(l, id);
      && OthersSame(l, m, id) && id in m.streams
      && m.streams[id].started && m.streams[id].heard == s.heard && m.streams[id].queue == rest
      && (forall data :: item == Piece(data) && data.wellFormed ==>
            m.streams[id].yielded == s.yielded + [data] && m.streams[id].ending == Open && m.table == l.table)
      && (forall data :: item == Piece(data) && !data.wellFormed ==> LeftAs(s, m, id, Failed(InvalidChunk)))
      && (forall fault :: item == Fail(fault) ==> LeftAs(s, m, id, Failed(fault)))
      && (item == Done ==> LeftAs(s, m, id, Completed))
  {
  }

  /** The stream has ended as `ending`, with nothing more yielded, and is out of the table. */
  ghost predicate LeftAs(s: Stream, m: Link, id: RequestId, ending: Ending) {
    id in m.streams && m.streams[id].ending == ending && m.streams[id].yielded == s.yielded && id !in m.table
  }

  /**
   Every inbound frame, by its fields: a chunk, a `done` or an error for an id in
   the table is one more item for that stream and no answer; anything else
   changes no stream and is answered by one error, with the id if it had one.
   */
  lemma FrameMeans(l: Link, f: InFrame, id: RequestId)
    requires id in l.table && id in l.streams
    ensures var m := Dispatched(l, f);
      && (forall data :: f == ChunkFrame(Some(id), Some(data)) ==> OneMore(l, m, id, Piece(data)))
      && (f == DoneFrame(Some(id)) ==> OneMore(l, m, id, Done))
      && (forall message, refusal :: f == ErrorFrame(Some(id), message, Some(refusal)) ==> OneMore(l, m, id, Fail(Refused(refusal))))
      && (forall message :: f == ErrorFrame(Some(id), Some(message), None) && message != "" ==> OneMore(l, m, id, Fail(Reported(message))))
      && (f == ErrorFrame(Some(id), None, None) || f == ErrorFrame(Some(id), Some(""), None) ==>
            OneMore(l, m, id, Fail(Reported("LLM provider reported an error"))))
      && (f == ChunkFrame(Some(id), None) ==> Answered(l, m, Some(id), "chunk data must be an object"))
  {
  }

  /** The rest: a frame that cannot be read, names no id, or names one that is not in the table. */
  lemma StrayFrameMeans(l: Link, f: InFrame)
    ensures f.Unparseable? ==> Answered(l, Dispatched(l, f), None, "unparseable frame")
    ensures f.UnknownType? ==> Answered(l, Dispatched(l, f), None, "unknown frame type " + f.kind)
    ensures (f.ChunkFrame? && f.id == None) || f == DoneFrame(None) || (f.ErrorFrame? && f.id == None) ==>
      Answered(l, Dispatched(l, f), None, "frame needs a requestId")
    ensures forall id :: Names(f, id) && !Accepts(l, id) ==>
      Answered(l, Dispatched(l, f), Some(id), "no such in-flight completion on this connection")
  {
  }

  /** A frame that can be read, and for which request it is. */
  predicate Names(f: InFrame, id: RequestId) {
    || (f.ChunkFrame? && f.id == Some(id) && f.data.Some?)
    || f == DoneFrame(Some(id))
    || (f.ErrorFrame? && f.id == Some(id))
  }

  ghost predicate OneMore(l: Link, m: Link, id: RequestId, item: Item)
    requires id in l.streams
  {
    && m.table == l.table && m.outbound == l.outbound
    && m.streams == l.streams[id := l.streams[id].(queue := l.streams[id].queue + [item], heard := l.streams[id].heard + [item])]
  }

  predicate Answered(l: Link, m: Link, about: Option<RequestId>, message: string) {
    m.table == l.table && m.streams == l.streams && m.outbound == l.outbound + [ErrorReply(about, message)]
  }

  // ---- the invariant

  function Pieces(chunks: seq<ChunkData>): (items: seq<Item>)
    ensures |items| == |chunks|
  {
    seq(|chunks|, i requires 0 <= i < |chunks| => Piece(chunks[i]))
  }

  predicate FromWire(item: Item) {
    item.Fail? ==> item.fault.Refused? || item.fault.Reported?
  }

  /**
   Nothing fed is lost, reordered or invented: what was yielded, then what is
   queued, is what was heard; and a stream that ended did so on the item that
   follows what it yielded.
   */
  ghost predicate StreamOk(s: Stream, inTable: bool) {
    && (forall item :: item in s.heard ==> FromWire(item))
    && (forall c :: c in s.yielded ==> c.wellFormed)
    && Pieces(s.yielded) <= s.heard
    && (inTable ==> Pieces(s.yielded) + s.queue == s.heard && (s.ending == Open || (s.ending == Abandoned && !s.started)))
    && (s.ending == Open && !inTable ==> Pieces(s.yielded) + s.queue == s.heard + [Fail(Disconnected)])
    && (s.ending == Completed ==> Pieces(s.yielded) + [Done] <= s.heard)
    && (s.ending.Failed? && s.ending.fault != Disconnected && s.ending.fault != GapTimeout ==>
          |s.yielded| < |s.heard| &&
          if s.ending.fault == InvalidChunk
          then s.heard[|s.yielded|].Piece? && !s.heard[|s.yielded|].data.wellFormed
          else s.heard[|s.yielded|] == Fail(s.ending.fault))
    && (s.ending == Failed(Disconnected) ==> Pieces(s.yielded) == s.heard)
  }

  ghost predicate LinkOk(l: Link) {
    && l.table <= l.streams.Keys
    && forall id :: id in l.streams ==> StreamOk(l.streams[id], id in l.table)
  }

  /** While the connection lives, every open stream is in the table. */
  ghost predicate Attended(l: Link) {
    forall id :: id in l.streams && l.streams[id].ending == Open ==> id in l.table
  }

  lemma AskedOk(l: Link, id: RequestId, request: Request)
    requires LinkOk(l) && id !in l.streams
    ensures LinkOk(Asked(l, id, request)) && (Attended(l) ==> Attended(Asked(l, id, request)))
  {
    assert StreamOk(FRESH, true);
  }

  lemma DispatchedOk(l: Link, f: InFrame)
    requires LinkOk(l)
    ensures LinkOk(Dispatched(l, f)) && (Attended(l) ==> Attended(Dispatched(l, f)))
    ensures Dispatched(l, f).streams.Keys == l.streams.Keys
  {
    match Payload(f)
    case Some((id, item)) =>
      if id in l.table {
        var s := l.streams[id];
        var t := Hear(s, item);
        assert Pieces(t.yielded) + t.queue == (Pieces(s.yielded) + s.queue) + [item];
        assert StreamOk(t, true);
      }
    case None =>
  }

  lemma PendingFailedOk(l: Link)
    requires LinkOk(l)
    ensures LinkOk(PendingFailed(l))
  {
    forall id | id in l.streams ensures StreamOk(PendingFailed(l).streams[id], false) {
      var s := l.streams[id];
      if id in l.table {
        assert Pieces(s.yielded) + Cut(s).queue == (Pieces(s.yielded) + s.queue) + [Fail(Disconnected)];
      }
    }
  }

  lemma IteratedOk(l: Link, id: RequestId)
    requires LinkOk(l)
    ensures LinkOk(Iterated(l, id)) && (Attended(l) ==> Attended(Iterated(l, id)))
    ensures Iterated(l, id).streams.Keys == l.streams.Keys
  {
    if id in l.streams && l.streams[id].ending == Open && l.streams[id].queue != [] {
      TookOk(l.streams[id], id in l.table);
    }
  }

  lemma TookOk(s: Stream, inTable: bool)
    requires StreamOk(s, inTable) && s.ending == Open && s.queue != []
    ensures var t := Took(s.(started := true, queue := s.queue[1..]), s.queue[0]);
            StreamOk(t, inTable && t.ending == Open)
  {
    var t := Took(s.(started := true, queue := s.queue[1..]), s.queue[0]);
    var all := Pieces(s.yielded) + s.queue;
    assert all[|s.yielded|] == s.queue[0];
    if |s.yielded| < |s.heard| {
      assert s.heard[|s.yielded|] == s.queue[0];
      assert FromWire(s.heard[|s.yielded|]);
    }
    assert s.queue == [s.queue[0]] + s.queue[1..];
    if t.ending == Open {
      assert Pieces(t.yielded) == Pieces(s.yielded) + [s.queue[0]];
      assert Pieces(t.yielded) + t.queue == all;
    }
  }

  lemma TimedOutOk(l: Link, id: RequestId)
    requires LinkOk(l)
    ensures LinkOk(TimedOut(l, id)) && (Attended(l) ==> Attended(TimedOut(l, id)))
    ensures TimedOut(l, id).streams.Keys == l.streams.Keys
  {
  }

  lemma ClosedOk(l: Link, id: RequestId)
    requires LinkOk(l)
    ensures LinkOk(Closed(l, id)) && (Attended(l) ==> Attended(Closed(l, id)))
    ensures Closed(l, id).streams.Keys == l.streams.Keys
  {
  }
}
