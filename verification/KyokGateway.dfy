/**
 The gateway with any number of `/ws/kyok` connections and arbitrary parties on
 the far end of them: whatever they send, in whatever order, an answer counts
 only on the connection its request was written to.
 */
module KyokGateway {
  import opened Seqs
  import opened KyokLink

  type Conn = nat

  datatype Step =
    | Ask(conn: Conn, id: RequestId, request: Request)
    | Receive(conn: Conn, frame: InFrame)
    | Hangup(conn: Conn)
    | Iterate(conn: Conn, id: RequestId)
    | Timeout(conn: Conn, id: RequestId)
    | Close(conn: Conn, id: RequestId)

  /** `gone` holds the connections whose read loop has ended, `minted` where each request id was asked. */
  datatype Gateway = Gateway(links: map<Conn, Link>, gone: set<Conn>, minted: map<RequestId, Conn>)

  function LinkOf(g: Gateway, c: Conn): Link {
    if c in g.links then g.links[c] else EMPTY
  }

  function Put(g: Gateway, c: Conn, l: Link): Gateway {
    g.(links := g.links[c := l])
  }

  /** One step. A step that cannot happen (an id minted twice, a frame read after the loop ended) changes nothing. */
  function Next(g: Gateway, step: Step): Gateway {
    var c := step.conn;
    var l := LinkOf(g, c);
    match step
    case Ask(_, id, request) => if id in g.minted then g else Put(g, c, Asked(l, id, request)).(minted := g.minted[id := c])
    case Receive(_, frame) => if c in g.gone then g else Put(g, c, Dispatched(l, frame))
    case Hangup(_) => if c in g.gone then g else Put(g, c, PendingFailed(l)).(gone := g.gone + {c})
    case Iterate(_, id) => Put(g, c, Iterated(l, id))
    case Timeout(_, id) => Put(g, c, TimedOut(l, id))
    case Close(_, id) => Put(g, c, Closed(l, id))
  }

  ghost predicate ConnOk(g: Gateway, c: Conn) {
    && LinkOk(LinkOf(g, c))
    && (c !in g.gone ==> Attended(LinkOf(g, c)))
    && forall id :: id in LinkOf(g, c).streams.Keys ==> id in g.minted && g.minted[id] == c
  }

  lemma NextOk(g: Gateway, step: Step)
    requires ConnOk(g, step.conn)
    ensures ConnOk(Next(g, step), step.conn)
  {
    var l := LinkOf(g, step.conn);
    match step
    case Ask(_, id, request) =>
      if id !in g.minted {
        AskedOk(l, id, request);
      }
    case Receive(_, frame) => DispatchedOk(l, frame);
    case Hangup(_) => PendingFailedOk(l);
    case Iterate(_, id) => IteratedOk(l, id);
    case Timeout(_, id) => TimedOutOk(l, id);
    case Close(_, id) => ClosedOk(l, id);
  }

  /** The state after a run of steps, from no connections at all. */
  function After(steps: seq<Step>): Gateway {
    if steps == [] then Gateway(map[], {}, map[])
    else Next(After(steps[..|steps| - 1]), steps[|steps| - 1])
  }

  lemma {:induction false} AfterOk(steps: seq<Step>, c: Conn)
    ensures ConnOk(After(steps), c)
  {
    if steps != [] {
      var prefix, step := steps[..|steps| - 1], steps[|steps| - 1];
      AfterOk(prefix, c);
      if c == step.conn {
        NextOk(After(prefix), step);
      } else {
        assert LinkOf(After(steps), c) == LinkOf(After(prefix), c);
      }
    }
  }

  /** The stream a step leaves for (c, id), when (c, id) had one before. */
  lemma StreamAfterStep(g: Gateway, step: Step, c: Conn, id: RequestId)
    requires ConnOk(g, step.conn) && id in LinkOf(g, c).streams
    ensures id in LinkOf(Next(g, step), c).streams
    ensures var s, t := LinkOf(g, c).streams[id], LinkOf(Next(g, step), c).streams[id];
            || t.heard == s.heard
            || exists frame, item :: step == Receive(c, frame) && c !in g.gone && id in LinkOf(g, c).table &&
                 Payload(frame) == Some((id, item)) && t.heard == s.heard + [item]
  {
    if step.conn == c {
      match step {
        case Receive(_, frame) =>
          if c !in g.gone { DispatchHeard(LinkOf(g, c), frame, id); }
        case Hangup(_) =>
        case Ask(_, _, _) =>
        case Iterate(_, _) =>
        case Timeout(_, _) =>
        case Close(_, _) =>
      }
    }
  }

  /** A frame adds its item to the stream it answers, if that is in the table, and nothing to any other. */
  lemma DispatchHeard(l: Link, frame: InFrame, id: RequestId)
    requires id in l.streams
    ensures id in Dispatched(l, frame).streams
    ensures var s, t := l.streams[id], Dispatched(l, frame).streams[id];
            || t.heard == s.heard
            || exists item :: id in l.table && Payload(frame) == Some((id, item)) && t.heard == s.heard + [item]
  {
    if Payload(frame).Some? && Payload(frame).value.0 == id && id in l.table {
      assert Dispatched(l, frame).streams[id].heard == l.streams[id].heard + [Payload(frame).value.1];
    }
  }

  /** A stream that a step brings into being was asked by that step, and has heard nothing. */
  lemma StreamBornFresh(g: Gateway, step: Step, c: Conn, id: RequestId)
    requires ConnOk(g, step.conn)
    requires id !in LinkOf(g, c).streams && id in LinkOf(Next(g, step), c).streams
    ensures step.Ask? && step.conn == c && step.id == id
    ensures LinkOf(Next(g, step), c).streams[id] == FRESH
  {
  }

  /** Item `k` of what the stream (c, id) heard came in as step `j`, on c itself, after c's own request was asked as step `i`. */
  ghost predicate HeardFrom(steps: seq<Step>, c: Conn, id: RequestId, item: Item, i: nat, j: nat) {
    && i < j < |steps|
    && steps[i].Ask? && steps[i].conn == c && steps[i].id == id
    && steps[j].Receive? && steps[j].conn == c && Payload(steps[j].frame) == Some((id, item))
    && c !in After(steps[..j]).gone
  }

  lemma {:induction false} StreamWasAsked(steps: seq<Step>, c: Conn, id: RequestId) returns (i: nat)
    requires id in LinkOf(After(steps), c).streams
    ensures i < |steps| && steps[i].Ask? && steps[i].conn == c && steps[i].id == id
    decreases |steps|
  {
    assert steps != [];
    var prefix, step := steps[..|steps| - 1], steps[|steps| - 1];
    AfterOk(prefix, step.conn);
    if id in LinkOf(After(prefix), c).streams {
      i := StreamWasAsked(prefix, c, id);
    } else {
      i := |steps| - 1;
      StreamBornFresh(After(prefix), step, c, id);
    }
  }

  /** Everything a stream heard was sent to it: on its own connection, after its own request, before that connection ended. */
  lemma {:induction false} HeardWasReceived(steps: seq<Step>, c: Conn, id: RequestId, k: nat) returns (i: nat, j: nat)
    requires id in LinkOf(After(steps), c).streams && k < |LinkOf(After(steps), c).streams[id].heard|
    ensures HeardFrom(steps, c, id, LinkOf(After(steps), c).streams[id].heard[k], i, j)
    decreases |steps|
  {
    assert steps != [];
    var prefix, step := steps[..|steps| - 1], steps[|steps| - 1];
    var g := After(prefix);
    StreamHeardBefore(prefix, step, c, id, k);
    if k < |LinkOf(g, c).streams[id].heard| {
      i, j := HeardWasReceived(prefix, c, id, k);
      assert prefix[..j] == steps[..j];
    } else {
      i := StreamWasAsked(prefix, c, id);
      j := |steps| - 1;
    }
  }

  /** What a stream has heard after a step it had heard before, but for the one item the step brought. */
  lemma {:induction false} StreamHeardBefore(prefix: seq<Step>, step: Step, c: Conn, id: RequestId, k: nat)
    requires id in LinkOf(Next(After(prefix), step), c).streams
    requires k < |LinkOf(Next(After(prefix), step), c).streams[id].heard|
    ensures id in LinkOf(After(prefix), c).streams
    ensures var s, t := LinkOf(After(prefix), c).streams[id], LinkOf(Next(After(prefix), step), c).streams[id];
      if k < |s.heard| then t.heard[k] == s.heard[k]
      else step.Receive? && step.conn == c && c !in After(prefix).gone && Payload(step.frame) == Some((id, t.heard[k]))
  {
    var g := After(prefix);
    AfterOk(prefix, step.conn);
    if id !in LinkOf(g, c).streams {
      StreamBornFresh(g, step, c, id);
    } else {
      StreamAfterStep(g, step, c, id);
    }
  }

  /**
   A stream ends normally only on a real `done`: one for its id, accepted on
   the connection its request was written to, after the request was written.
   */
  lemma {:induction false} CompletionNeedsItsOwnDone(steps: seq<Step>, c: Conn, id: RequestId)
    requires id in LinkOf(After(steps), c).streams
    requires LinkOf(After(steps), c).streams[id].ending == Completed
    ensures exists i: nat, j: nat :: HeardFrom(steps, c, id, Done, i, j)
  {
    AfterOk(steps, c);
    var s := LinkOf(After(steps), c).streams[id];
    CompletedHeardDone(s, id in LinkOf(After(steps), c).table);
    var i, j := HeardWasReceived(steps, c, id, |s.yielded|);
  }

  lemma CompletedHeardDone(s: Stream, inTable: bool)
    requires StreamOk(s, inTable) && s.ending == Completed
    ensures |s.yielded| < |s.heard| && s.heard[|s.yielded|] == Done
  {
    assert s.heard[|s.yielded|] == (Pieces(s.yielded) + [Done])[|s.yielded|];
  }

  /** No frame but a `done` for the id is read as one. */
  lemma OnlyDoneIsDone(frame: InFrame, id: RequestId)
    ensures Payload(frame) == Some((id, Done)) <==> frame == DoneFrame(Some(id))
  {
  }

  /** Every chunk a stream yielded was likewise sent to it, and validates. */
  lemma YieldedWasReceived(steps: seq<Step>, c: Conn, id: RequestId, k: nat) returns (i: nat, j: nat)
    requires id in LinkOf(After(steps), c).streams && k < |LinkOf(After(steps), c).streams[id].yielded|
    ensures var chunk := LinkOf(After(steps), c).streams[id].yielded[k];
            chunk.wellFormed && HeardFrom(steps, c, id, Piece(chunk), i, j)
  {
    AfterOk(steps, c);
    var s := LinkOf(After(steps), c).streams[id];
    assert s.yielded[k] in s.yielded;
    assert s.heard[k] == Pieces(s.yielded)[k];
    i, j := HeardWasReceived(steps, c, id, k);
  }

  /**
   A frame on connection c that answers a request written to another
   connection changes no stream and no table anywhere; c alone is told that it
   has no such completion.
   */
  lemma {:induction false} ForeignAnswerIsRefused(steps: seq<Step>, c: Conn, d: Conn, id: RequestId, frame: InFrame, item: Item)
    requires c != d && id in LinkOf(After(steps), d).streams
    requires c !in After(steps).gone && Payload(frame) == Some((id, item))
    ensures var g, g' := After(steps), After(steps + [Receive(c, frame)]);
            && LinkOf(g', c) == Replied(LinkOf(g, c), Some(id), "no such in-flight completion on this connection")
            && forall e :: e != c ==> LinkOf(g', e) == LinkOf(g, e)
  {
    var more := steps + [Receive(c, frame)];
    assert more[..|more| - 1] == steps;
    AfterOk(steps, c);
    AfterOk(steps, d);
  }

  // ---- teardown

  function IteratedTimes(l: Link, id: RequestId, n: nat): Link
    decreases n
  {
    if n == 0 then l else IteratedTimes(Iterated(l, id), id, n - 1)
  }

  /**
   Once its connection is gone a stream that is still read ends within as many
   reads as its queue is long: on the terminal it had already been sent, or on
   an invalid chunk, or as disconnected. It never waits again.
   */
  lemma {:induction false} CutStreamEnds(l: Link, id: RequestId)
    requires LinkOk(l) && id in l.streams && id !in l.table && l.streams[id].ending == Open
    ensures l.streams[id].queue != []
    ensures var n := |l.streams[id].queue|; var s := IteratedTimes(l, id, n).streams;
            id in s && s[id].ending != Open && s[id].ending != Failed(GapTimeout) && s[id].ending != Abandoned
    decreases |l.streams[id].queue|
  {
    var s := l.streams[id];
    CutHead(s);
    var m := Iterated(l, id);
    IteratedOk(l, id);
    if m.streams[id].ending == Open {
      CutStreamEnds(m, id);
    } else {
      EndedStays(m, id, |s.queue| - 1);
    }
  }

  /** A cut stream has something to take, and what it takes came off the wire or is the cut. */
  lemma CutHead(s: Stream)
    requires StreamOk(s, false) && s.ending == Open
    ensures s.queue != []
    ensures s.queue[0].Fail? ==> s.queue[0].fault == Disconnected || FromWire(s.queue[0])
  {
    assert |Pieces(s.yielded) + s.queue| == |s.heard| + 1;
    assert (Pieces(s.yielded) + s.queue)[|s.yielded|] == s.queue[0];
    if |s.yielded| < |s.heard| {
      assert s.heard[|s.yielded|] == s.queue[0];
      assert FromWire(s.heard[|s.yielded|]);
    }
  }

  lemma {:induction false} EndedStays(l: Link, id: RequestId, n: nat)
    requires id in l.streams && l.streams[id].ending != Open
    ensures IteratedTimes(l, id, n) == l
    decreases n
  {
    if n > 0 {
      EndedStays(l, id, n - 1);
    }
  }

  /** What a terminal item makes of a stream. */
  function EndedBy(terminal: Item): Ending {
    match terminal
    case Done => Completed
    case Fail(fault) => Failed(fault)
    case Piece(_) => Open
  }

  /** The other way round: valid chunks and a terminal in the queue are read out whole, and the stream ends as the terminal says. */
  lemma {:induction false} QueueReadsOut(l: Link, id: RequestId, chunks: seq<ChunkData>, terminal: Item)
    requires id in l.streams && l.streams[id].ending == Open && !terminal.Piece?
    requires l.streams[id].queue == Pieces(chunks) + [terminal] && forall c :: c in chunks ==> c.wellFormed
    ensures var after := IteratedTimes(l, id, |chunks| + 1);
            && id in after.streams && id !in after.table
            && after.streams[id].yielded == l.streams[id].yielded + chunks
            && after.streams[id].ending == EndedBy(terminal)
    decreases |chunks|
  {
    var m := Iterated(l, id);
    var queue := l.streams[id].queue;
    if chunks == [] {
      assert queue[0] == terminal;
      assert IteratedTimes(m, id, 0) == m;
    } else {
      assert queue[0] == Piece(chunks[0]) && chunks[0] in chunks;
      assert queue[1..] == Pieces(chunks[1..]) + [terminal];
      QueueReadsOut(m, id, chunks[1..], terminal);
      assert l.streams[id].yielded + chunks == l.streams[id].yielded + [chunks[0]] + chunks[1..];
    }
  }

  /** Teardown leaves no completion waiting: every open stream is out of the table with its end in its queue. */
  lemma {:induction false} HangupCutsEverything(steps: seq<Step>, c: Conn, id: RequestId)
    requires c !in After(steps).gone && id in LinkOf(After(steps), c).streams
    ensures var l := LinkOf(After(steps + [Hangup(c)]), c);
            && c in After(steps + [Hangup(c)]).gone && l.table == {}
            && id in l.streams
            && (l.streams[id].ending == Open ==>
                  && l.streams[id].queue == LinkOf(After(steps), c).streams[id].queue + [Fail(Disconnected)]
                  && var end := IteratedTimes(l, id, |l.streams[id].queue|).streams;
                     id in end && end[id].ending != Open)
  {
    var more := steps + [Hangup(c)];
    assert more[..|more| - 1] == steps;
    AfterOk(steps, c);
    AfterOk(more, c);
    var l := LinkOf(After(more), c);
    if l.streams[id].ending == Open {
      CutStreamEnds(l, id);
    }
  }

  /** And nothing is read off the connection any more. */
  lemma {:induction false} NothingReadAfterHangup(steps: seq<Step>, c: Conn, frame: InFrame)
    requires c in After(steps).gone
    ensures After(steps + [Receive(c, frame)]) == After(steps)
  {
    AfterSnoc(steps, Receive(c, frame));
  }

  // ---- the reader's own steps, in a run

  lemma {:induction false} AfterSnoc(steps: seq<Step>, step: Step)
    ensures After(steps + [step]) == Next(After(steps), step)
  {
    assert (steps + [step])[..|steps|] == steps;
  }

  /** `h` is `g` but for the one stream of the one connection, and its entry there. */
  ghost predicate OthersSameIn(g: Gateway, h: Gateway, c: Conn, id: RequestId) {
    && h.gone == g.gone && h.minted == g.minted
    && (forall d :: d != c ==> LinkOf(h, d) == LinkOf(g, d))
    && OthersSame(LinkOf(g, c), LinkOf(h, c), id)
  }

  /** In any run: an ask under a new id opens one fresh stream on its connection, in the table, and queues the request there. */
  lemma {:induction false} AskOpens(steps: seq<Step>, c: Conn, id: RequestId, request: Request)
    requires id !in After(steps).minted
    ensures var g, h := After(steps), After(steps + [Ask(c, id, request)]);
      && LinkOf(h, c).streams == LinkOf(g, c).streams[id := Stream([], [], Open, false, [])]
      && LinkOf(h, c).table == LinkOf(g, c).table + {id}
      && LinkOf(h, c).outbound == LinkOf(g, c).outbound + [CompletionRequest(id, request)]
      && h.minted == g.minted[id := c] && h.gone == g.gone && forall d :: d != c ==> LinkOf(h, d) == LinkOf(g, d)
  {
    AfterSnoc(steps, Ask(c, id, request));
  }

  /** In any run: a frame read on a connection that lives is dispatched there, and touches no other connection. */
  lemma {:induction false} ReceiveDispatches(steps: seq<Step>, c: Conn, frame: InFrame)
    requires c !in After(steps).gone
    ensures var g, h := After(steps), After(steps + [Receive(c, frame)]);
      && LinkOf(h, c) == Dispatched(LinkOf(g, c), frame)
      && h.minted == g.minted && h.gone == g.gone && forall d :: d != c ==> LinkOf(h, d) == LinkOf(g, d)
  {
    AfterSnoc(steps, Receive(c, frame));
  }

  function Sending(c: Conn, id: RequestId, chunks: seq<ChunkData>): (steps: seq<Step>)
    ensures |steps| == |chunks|
  {
    seq(|chunks|, i requires 0 <= i < |chunks| => Receive(c, ChunkFrame(Some(id), Some(chunks[i]))))
  }

  /** The request is in flight on a connection that lives, and this is its stream. */
  predicate InFlight(steps: seq<Step>, c: Conn, id: RequestId, s: Stream) {
    var g := After(steps);
    c !in g.gone && id in LinkOf(g, c).table && id in LinkOf(g, c).streams && LinkOf(g, c).streams[id] == s
  }

  lemma {:induction false} OneMoreQueues(steps: seq<Step>, c: Conn, id: RequestId, s: Stream, frame: InFrame, item: Item)
    requires InFlight(steps, c, id, s) && Payload(frame) == Some((id, item))
    ensures InFlight(steps + [Receive(c, frame)], c, id, Hear(s, item))
  {
    ReceiveDispatches(steps, c, frame);
  }

  function HearAll(s: Stream, items: seq<Item>): Stream {
    s.(queue := s.queue + items, heard := s.heard + items)
  }

  /** Chunks sent for a request in flight queue up behind what it holds, in the order they were sent. */
  lemma {:induction false} ChunksQueueUp(steps: seq<Step>, c: Conn, id: RequestId, s: Stream, chunks: seq<ChunkData>)
    requires InFlight(steps, c, id, s)
    ensures InFlight(steps + Sending(c, id, chunks), c, id, HearAll(s, Pieces(chunks)))
    decreases |chunks|
  {
    if chunks == [] {
      assert steps + Sending(c, id, chunks) == steps;
      assert HearAll(s, Pieces(chunks)) == s;
    } else {
      var frame := ChunkFrame(Some(id), Some(chunks[0]));
      OneMoreQueues(steps, c, id, s, frame, Piece(chunks[0]));
      ChunksQueueUp(steps + [Receive(c, frame)], c, id, Hear(s, Piece(chunks[0])), chunks[1..]);
      FirstSent(steps, c, id, s, chunks);
    }
  }

  lemma {:induction false} FirstSent(steps: seq<Step>, c: Conn, id: RequestId, s: Stream, chunks: seq<ChunkData>)
    requires chunks != []
    ensures steps + Sending(c, id, chunks) ==
      steps + [Receive(c, ChunkFrame(Some(id), Some(chunks[0])))] + Sending(c, id, chunks[1..])
    ensures HearAll(s, Pieces(chunks)) == HearAll(Hear(s, Piece(chunks[0])), Pieces(chunks[1..]))
  {
    assert Pieces(chunks) == [Piece(chunks[0])] + Pieces(chunks[1..]);
  }

  /**
   A whole exchange, begun in any run: a request asked on a connection that
   lives, answered there by valid chunks and a `done`, and read to its end, has
   yielded those chunks, completed, and left the table.
   */
  lemma ExchangeCompletes(steps: seq<Step>, c: Conn, id: RequestId, request: Request, chunks: seq<ChunkData>)
    requires id !in After(steps).minted && c !in After(steps).gone && forall chunk :: chunk in chunks ==> chunk.wellFormed
    ensures var all := steps + [Ask(c, id, request)] + Sending(c, id, chunks) + [Receive(c, DoneFrame(Some(id)))] + Reads(c, id, |chunks| + 1);
      && id in LinkOf(After(all), c).streams && id !in LinkOf(After(all), c).table
      && LinkOf(After(all), c).streams[id].yielded == chunks && LinkOf(After(all), c).streams[id].ending == Completed
  {
    var asked := steps + [Ask(c, id, request)];
    var sent := asked + Sending(c, id, chunks);
    AskOpens(steps, c, id, request);
    ChunksQueueUp(asked, c, id, FRESH, chunks);
    OneMoreQueues(sent, c, id, HearAll(FRESH, Pieces(chunks)), DoneFrame(Some(id)), Done);
    var done := sent + [Receive(c, DoneFrame(Some(id)))];
    assert [] + Pieces(chunks) == Pieces(chunks);
    ReadingGetsAll(done, c, id, chunks, Done);
    assert [] + chunks == chunks;
  }

  /** In any run: the gap timeout of an open stream fails it as timed out, takes it out of its table, and touches nothing else anywhere. */
  lemma {:induction false} TimeoutEndsTheWait(steps: seq<Step>, c: Conn, id: RequestId)
    requires id in LinkOf(After(steps), c).streams && LinkOf(After(steps), c).streams[id].ending == Open
    ensures var g, h := After(steps), After(steps + [Timeout(c, id)]);
      && OthersSameIn(g, h, c, id)
      && SameContents(LinkOf(g, c).streams[id], LinkOf(h, c).streams[id])
      && LinkOf(h, c).streams[id].ending == Failed(GapTimeout) && id !in LinkOf(h, c).table
  {
    AfterSnoc(steps, Timeout(c, id));
    TimeoutEnds(LinkOf(After(steps), c), id);
  }

  /** And a close abandons it, out of the table if it was ever read. */
  lemma {:induction false} CloseAbandons(steps: seq<Step>, c: Conn, id: RequestId)
    requires id in LinkOf(After(steps), c).streams && LinkOf(After(steps), c).streams[id].ending == Open
    ensures var g, h := After(steps), After(steps + [Close(c, id)]);
      && OthersSameIn(g, h, c, id)
      && SameContents(LinkOf(g, c).streams[id], LinkOf(h, c).streams[id])
      && LinkOf(h, c).streams[id].ending == Abandoned
      && (id in LinkOf(h, c).table <==> id in LinkOf(g, c).table && !LinkOf(g, c).streams[id].started)
  {
    AfterSnoc(steps, Close(c, id));
    CloseEnds(LinkOf(After(steps), c), id);
  }

  function Reads(c: Conn, id: RequestId, n: nat): (steps: seq<Step>)
    ensures |steps| == n
  {
    seq(n, _ => Iterate(c, id))
  }

  /** Reading `n` times in a run is what reading `n` times does to the connection's own state. */
  lemma {:induction false} ReadsIterate(steps: seq<Step>, c: Conn, id: RequestId, n: nat)
    ensures LinkOf(After(steps + Reads(c, id, n)), c) == IteratedTimes(LinkOf(After(steps), c), id, n)
    decreases n
  {
    if n == 0 {
      assert steps + Reads(c, id, 0) == steps;
    } else {
      AfterSnoc(steps, Iterate(c, id));
      ReadsIterate(steps + [Iterate(c, id)], c, id, n - 1);
      assert steps + Reads(c, id, n) == (steps + [Iterate(c, id)]) + Reads(c, id, n - 1);
    }
  }

  /** In any run: after a hangup, a reader that keeps reading an open stream is at its end within the reads its queue holds. */
  lemma {:induction false} HangupEndsTheReading(steps: seq<Step>, c: Conn, id: RequestId)
    requires c !in After(steps).gone && id in LinkOf(After(steps), c).streams && LinkOf(After(steps), c).streams[id].ending == Open
    ensures var n := |LinkOf(After(steps), c).streams[id].queue| + 1;
      var end := LinkOf(After(steps + [Hangup(c)] + Reads(c, id, n)), c);
      id in end.streams && end.streams[id].ending != Open && end.streams[id].ending != Failed(GapTimeout)
  {
    var hung := steps + [Hangup(c)];
    HangupCutsEverything(steps, c, id);
    AfterOk(hung, c);
    CutStreamEnds(LinkOf(After(hung), c), id);
    ReadsIterate(hung, c, id, |LinkOf(After(steps), c).streams[id].queue| + 1);
  }

  /** In any run: a queue of valid chunks and a terminal is read out whole by that many reads. */
  lemma {:induction false} ReadingGetsAll(steps: seq<Step>, c: Conn, id: RequestId, chunks: seq<ChunkData>, terminal: Item)
    requires id in LinkOf(After(steps), c).streams && LinkOf(After(steps), c).streams[id].ending == Open && !terminal.Piece?
    requires LinkOf(After(steps), c).streams[id].queue == Pieces(chunks) + [terminal] && forall d :: d in chunks ==> d.wellFormed
    ensures var end := LinkOf(After(steps + Reads(c, id, |chunks| + 1)), c);
      && id in end.streams && id !in end.table
      && end.streams[id].yielded == LinkOf(After(steps), c).streams[id].yielded + chunks
      && end.streams[id].ending == (match terminal case Fail(fault) => Failed(fault) case _ => Completed)
  {
    QueueReadsOut(LinkOf(After(steps), c), id, chunks, terminal);
    ReadsIterate(steps, c, id, |chunks| + 1);
  }
}
