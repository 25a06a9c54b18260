/**
 One `/ws/kyok` connection end to end: the gateway's link, the two directions
 of the wire, and the bridge that serves any number of completions at once.
 Every await is a point where another step may come in between.
 */
module KyokRelay {
  import opened Seqs
  import opened KyokLink

  datatype HandlerEnd = Running | Returned | RefusedWith(refusal: string) | Raised(message: string)

  /** One completion at the bridge: what was asked, and what its handler has done with it. */
  datatype Task = Task(request: Request, chunks: seq<ChunkData>, end: HandlerEnd)

  const MALFORMED := "malformed completionRequest"

  /** The frame a handler's end puts on the wire; a running handler puts none. */
  function EndFrames(id: RequestId, end: HandlerEnd): seq<InFrame> {
    match end
    case Running => []
    case Returned => [DoneFrame(Some(id))]
    case RefusedWith(r) => [ErrorFrame(Some(id), Some("refused by the LLM provider"), Some(r))]
    case Raised(m) => [ErrorFrame(Some(id), Some(m), None)]
  }

  /** A request that does not validate is answered without ever reaching the handler. */
  function Taken(request: Request): Task {
    Task(request, [], if request.wellFormed then Running else Raised(MALFORMED))
  }

  /** A handler's end, as the stream at the other side should see it. */
  function EndItems(end: HandlerEnd): seq<Item> {
    match end
    case Running => []
    case Returned => [Done]
    case RefusedWith(r) => [Fail(Refused(r))]
    case Raised(m) => [Fail(Reported(if m != "" then m else "LLM provider reported an error"))]
  }

  class KyokBridge {
    var outbound: seq<InFrame>

    /** `_serve_one` left alone: validate, stream the handler's chunks, then one last frame. */
    method ServeOne(id: RequestId, request: Request, chunks: seq<ChunkData>, end: HandlerEnd)
      requires end != Running
      modifies this
      ensures outbound == old(outbound) + Served(id, request, chunks, end)
    {
      if !request.wellFormed {
        outbound := outbound + EndFrames(id, Raised(MALFORMED));
        return;
      }
      for k := 0 to |chunks|
        invariant outbound == old(outbound) + ChunkFrames(id, chunks[..k])
      {
        assert ChunkFrames(id, chunks[..k + 1]) == ChunkFrames(id, chunks[..k]) + [ChunkFrame(Some(id), Some(chunks[k]))];
        outbound := outbound + [ChunkFrame(Some(id), Some(chunks[k]))];
      }
      assert chunks[..|chunks|] == chunks;
      match end {
        case Returned => outbound := outbound + [DoneFrame(Some(id))];
        case RefusedWith(refusal) =>
          outbound := outbound + [ErrorFrame(Some(id), Some("refused by the LLM provider"), Some(refusal))];
        case Raised(message) => outbound := outbound + [ErrorFrame(Some(id), Some(message), None)];
      }
    }
  }

  function ChunkFrames(id: RequestId, chunks: seq<ChunkData>): (frames: seq<InFrame>)
    ensures |frames| == |chunks|
  {
    seq(|chunks|, i requires 0 <= i < |chunks| => ChunkFrame(Some(id), Some(chunks[i])))
  }

  /** The frames one completion puts on the wire when its handler yields `chunks` and then ends. */
  function Served(id: RequestId, request: Request, chunks: seq<ChunkData>, end: HandlerEnd): seq<InFrame> {
    if request.wellFormed then ChunkFrames(id, chunks) + EndFrames(id, end) else EndFrames(id, Taken(request).end)
  }

  /** Read at the gateway they are the handler's chunks and then its end, and no one else's answer. */
  lemma ServedAnswers(id: RequestId, other: RequestId, request: Request, chunks: seq<ChunkData>, end: HandlerEnd)
    requires end != Running
    ensures Answer(id, Served(id, request, chunks, end)) ==
      if request.wellFormed then Pieces(chunks) + EndItems(end) else [Fail(Reported(MALFORMED))]
    ensures other != id ==> Answer(other, Served(id, request, chunks, end)) == []
  {
    var frames := ChunkFrames(id, chunks);
    ChunksAnswer(id, chunks);
    EndAnswers(id, end);
    EndAnswers(id, Raised(MALFORMED));
    PickConcat(frames, EndFrames(id, end), For(id));
    if other != id {
      assert forall f :: f in Served(id, request, chunks, end) ==> For(other)(f) == None;
      PickNothing(Served(id, request, chunks, end), For(other));
    }
  }

  lemma EndAnswers(id: RequestId, end: HandlerEnd)
    requires end != Running
    ensures Answer(id, EndFrames(id, end)) == EndItems(end)
  {
    PickOne(EndFrames(id, end)[0], For(id));
    assert EndFrames(id, end) == [EndFrames(id, end)[0]];
  }

  lemma {:induction false} ChunksAnswer(id: RequestId, chunks: seq<ChunkData>)
    ensures Answer(id, ChunkFrames(id, chunks)) == Pieces(chunks)
  {
    if chunks != [] {
      ChunksAnswer(id, chunks[1..]);
      assert ChunkFrames(id, chunks)[1..] == ChunkFrames(id, chunks[1..]);
      assert Pieces(chunks) == [Piece(chunks[0])] + Pieces(chunks[1..]);
    }
  }

  /** The frames on a wire that answer `id`, as items. */
  function For(id: RequestId): InFrame -> Option<Item> {
    (f: InFrame) => match Payload(f)
      case Some((i, item)) => if i == id then Some(item) else None
      case None => None
  }

  function Answer(id: RequestId, frames: seq<InFrame>): seq<Item> {
    Pick(frames, For(id))
  }

  function Asking(): OutFrame -> Option<(RequestId, Request)> {
    (f: OutFrame) => if f.CompletionRequest? then Some((f.id, f.request)) else None
  }

  datatype Step =
    | Ask(id: RequestId, request: Request)
    | GatewayWrites
    | BridgeReads
    | HandlerYields(id: RequestId, chunk: ChunkData)
    | HandlerEnds(id: RequestId, end: HandlerEnd)
    | BridgeWrites
    | GatewayReads
    | Iterate(id: RequestId)
    | Timeout(id: RequestId)
    | Close(id: RequestId)
    | GatewayHangsUp
    | BridgeHangsUp

  /**
   `toBridge` and `toGateway` are the wire, `bridgeOut` the bridge's outbound
   queue. `asked` is the history of requests; the first `taken` of them have
   reached the bridge.
   */
  datatype Relay = Relay(
    link: Link,
    up: bool,
    toBridge: seq<OutFrame>,
    tasks: map<RequestId, Task>,
    bridgeUp: bool,
    bridgeOut: seq<InFrame>,
    toGateway: seq<InFrame>,
    asked: seq<(RequestId, Request)>,
    taken: nat
  )

  const START := Relay(EMPTY, true, [], map[], true, [], [], [], 0)

  predicate Serving(r: Relay, id: RequestId) {
    r.bridgeUp && id in r.tasks && r.tasks[id].end == Running
  }

  /** One step; a step that cannot happen changes nothing. */
  function Next(r: Relay, step: Step): Relay {
    match step
    case Ask(id, request) =>
      if id in r.link.streams then r
      else r.(link := Asked(r.link, id, request), asked := r.asked + [(id, request)])
    case GatewayWrites =>
      if !r.up || r.link.outbound == [] then r
      else r.(link := r.link.(outbound := r.link.outbound[1..]), toBridge := r.toBridge + [r.link.outbound[0]])
    case BridgeReads =>
      if !r.bridgeUp || r.toBridge == [] then r
      else if r.toBridge[0].CompletionRequest? then
        var id, task := r.toBridge[0].id, Taken(r.toBridge[0].request);
        r.(toBridge := r.toBridge[1..], taken := r.taken + 1,
           tasks := r.tasks[id := task], bridgeOut := r.bridgeOut + EndFrames(id, task.end))
      else r.(toBridge := r.toBridge[1..])
    case HandlerYields(id, chunk) =>
      if !Serving(r, id) then r
      else r.(tasks := r.tasks[id := r.tasks[id].(chunks := r.tasks[id].chunks + [chunk])],
              bridgeOut := r.bridgeOut + [ChunkFrame(Some(id), Some(chunk))])
    case HandlerEnds(id, end) =>
      if !Serving(r, id) then r
      else r.(tasks := r.tasks[id := r.tasks[id].(end := end)], bridgeOut := r.bridgeOut + EndFrames(id, end))
    case BridgeWrites =>
      if !r.bridgeUp || r.bridgeOut == [] then r
      else r.(bridgeOut := r.bridgeOut[1..], toGateway := r.toGateway + [r.bridgeOut[0]])
    case GatewayReads =>
      if !r.up || r.toGateway == [] then r
      else r.(link := Dispatched(r.link, r.toGateway[0]), toGateway := r.toGateway[1..])
    case Iterate(id) => r.(link := Iterated(r.link, id))
    case Timeout(id) => r.(link := TimedOut(r.link, id))
    case Close(id) => r.(link := Closed(r.link, id))
    case GatewayHangsUp => if !r.up then r else r.(link := PendingFailed(r.link), up := false)
    case BridgeHangsUp => r.(bridgeUp := false)
  }

  // ---- the invariant

  /** Everything the bridge has put out for `id` so far. */
  function Produced(r: Relay, id: RequestId): seq<Item> {
    if id in r.tasks then Pieces(r.tasks[id].chunks) + EndItems(r.tasks[id].end) else []
  }

  /** What is between the bridge's handler and the gateway's read loop for `id`. */
  function Underway(r: Relay, id: RequestId): seq<Item> {
    Answer(id, r.toGateway) + Answer(id, r.bridgeOut)
  }

  function Heard(l: Link, id: RequestId): seq<Item> {
    if id in l.streams then l.streams[id].heard else []
  }

  /**
   Conservation: what a completion heard, then what is on the wire for it, then
   what waits at the bridge for it, is what its own handler produced. Once its
   entry is gone, what it heard stays a prefix of that.
   */
  ghost predicate Conserved(r: Relay, id: RequestId) {
    if id in r.link.table || id !in r.link.streams
    then Heard(r.link, id) + Underway(r, id) == Produced(r, id)
    else Heard(r.link, id) <= Produced(r, id)
  }

  /** Requests arrive in the order they were asked, each once, each under its own id. */
  ghost predicate RequestsOk(r: Relay) {
    && r.taken <= |r.asked|
    && (forall i, j :: 0 <= i < j < |r.asked| ==> r.asked[i].0 != r.asked[j].0)
    && (forall i :: 0 <= i < |r.asked| ==> r.asked[i].0 in r.link.streams)
    && Pick(r.toBridge, Asking()) + Pick(r.link.outbound, Asking()) == r.asked[r.taken..]
    && (forall i :: 0 <= i < |r.asked| ==> (r.asked[i].0 in r.tasks <==> i < r.taken))
    && (forall i :: 0 <= i < r.taken ==> r.tasks[r.asked[i].0].request == r.asked[i].1)
    && r.tasks.Keys <= r.link.streams.Keys
  }

  ghost predicate RelayOk(r: Relay) {
    && LinkOk(r.link)
    && (r.up ==> Attended(r.link))
    && RequestsOk(r)
    && forall id :: Conserved(r, id)
  }

  lemma LinkStepOk(r: Relay, step: Step)
    requires LinkOk(r.link) && (r.up ==> Attended(r.link))
    ensures LinkOk(Next(r, step).link) && (Next(r, step).up ==> Attended(Next(r, step).link))
  {
    match step
    case Ask(id, request) => if id !in r.link.streams { AskedOk(r.link, id, request); }
    case GatewayReads => if r.up && r.toGateway != [] { DispatchedOk(r.link, r.toGateway[0]); }
    case Iterate(id) => IteratedOk(r.link, id);
    case Timeout(id) => TimedOutOk(r.link, id);
    case Close(id) => ClosedOk(r.link, id);
    case GatewayHangsUp => PendingFailedOk(r.link);
    case _ =>
  }

  lemma AskKeepsRequests(r: Relay, id: RequestId, request: Request)
    requires RequestsOk(r)
    ensures RequestsOk(Next(r, Ask(id, request)))
  {
    if id !in r.link.streams {
      PickSnoc(r.link.outbound, CompletionRequest(id, request), Asking());
      var asked := r.asked + [(id, request)];
      assert asked[r.taken..] == r.asked[r.taken..] + [(id, request)];
    }
  }

  lemma BridgeReadKeepsRequests(r: Relay)
    requires RequestsOk(r)
    ensures RequestsOk(Next(r, BridgeReads))
  {
    if r.bridgeUp && r.toBridge != [] {
      if r.toBridge[0].CompletionRequest? {
        BridgeTakes(r);
      } else {
        PickHead(r.toBridge, Asking());
      }
    }
  }

  /** The request taken is the one that stood next, so the requests taken are one more. */
  lemma BridgeTakes(r: Relay)
    requires RequestsOk(r) && r.bridgeUp && r.toBridge != [] && r.toBridge[0].CompletionRequest?
    ensures RequestsOk(Next(r, BridgeReads))
  {
    NextTaken(r);
    var r' := Next(r, BridgeReads);
    var id := r.toBridge[0].id;
    forall i | 0 <= i < |r.asked| ensures r.asked[i].0 in r'.tasks <==> i < r'.taken {
      assert r.asked[i].0 == id <==> i == r.taken;
    }
    forall i | 0 <= i < r'.taken ensures r'.tasks[r.asked[i].0].request == r.asked[i].1 {
      assert i < r.taken ==> r.asked[i].0 != id;
    }
  }

  lemma RepliesAskNothing(l: Link, f: InFrame)
    ensures Pick(Dispatched(l, f).outbound, Asking()) == Pick(l.outbound, Asking())
    ensures Dispatched(l, f).streams.Keys == l.streams.Keys
  {
    var out := Dispatched(l, f).outbound;
    if out != l.outbound {
      PickSnoc(l.outbound, out[|l.outbound|], Asking());
    }
  }

  lemma GatewayWriteKeepsRequests(r: Relay)
    requires RequestsOk(r)
    ensures RequestsOk(Next(r, GatewayWrites))
  {
    if r.up && r.link.outbound != [] {
      PickMove(r.toBridge, r.link.outbound, Asking());
    }
  }

  /** A step that leaves the requests, their ids and the tasks' envelopes alone. */
  lemma SameRequests(r: Relay, r': Relay)
    requires RequestsOk(r)
    requires r'.toBridge == r.toBridge && r'.asked == r.asked && r'.taken == r.taken
    requires Pick(r'.link.outbound, Asking()) == Pick(r.link.outbound, Asking())
    requires r'.link.streams.Keys == r.link.streams.Keys && r'.tasks.Keys == r.tasks.Keys
    requires forall id :: id in r.tasks ==> r'.tasks[id].request == r.tasks[id].request
    ensures RequestsOk(r')
  {
    forall i | 0 <= i < r.taken ensures r'.tasks[r.asked[i].0].request == r.asked[i].1 {
      assert r.asked[i].0 in r.tasks;
    }
  }

  lemma ReadingKeepsRequests(r: Relay, step: Step)
    requires RequestsOk(r) && (step.Iterate? || step.Timeout? || step.Close?)
    ensures RequestsOk(Next(r, step))
  {
    SameRequests(r, Next(r, step));
  }

  lemma ServingKeepsRequests(r: Relay, step: Step)
    requires RequestsOk(r) && (step.HandlerYields? || step.HandlerEnds? || step.BridgeWrites?)
    ensures RequestsOk(Next(r, step))
  {
    SameRequests(r, Next(r, step));
  }

  lemma RequestsStepOk(r: Relay, step: Step)
    requires RequestsOk(r)
    ensures RequestsOk(Next(r, step))
  {
    match step
    case Ask(id, request) => AskKeepsRequests(r, id, request);
    case GatewayWrites => GatewayWriteKeepsRequests(r);
    case BridgeReads => BridgeReadKeepsRequests(r);
    case GatewayReads =>
      if r.up && r.toGateway != [] { RepliesAskNothing(r.link, r.toGateway[0]); }
      SameRequests(r, Next(r, step));
    case Iterate(_) => ReadingKeepsRequests(r, step);
    case Timeout(_) => ReadingKeepsRequests(r, step);
    case Close(_) => ReadingKeepsRequests(r, step);
    case GatewayHangsUp => SameRequests(r, Next(r, step));
    case BridgeHangsUp => SameRequests(r, Next(r, step));
    case _ => ServingKeepsRequests(r, step);
  }

  lemma BridgeReadConserves(r: Relay, id: RequestId)
    requires LinkOk(r.link) && RequestsOk(r) && Conserved(r, id)
    ensures Conserved(Next(r, BridgeReads), id)
  {
    if r.bridgeUp && r.toBridge != [] && r.toBridge[0].CompletionRequest? {
      var b, end := r.toBridge[0].id, Taken(r.toBridge[0].request).end;
      NextTaken(r);
      EndPicked(b, end, id);
      OutboxGrows(r, Next(r, BridgeReads), b, EndFrames(b, end), EndItems(end), id);
    }
  }

  /** The request at the head of the wire is the next one asked, and new to the bridge. */
  lemma NextTaken(r: Relay)
    requires RequestsOk(r) && r.toBridge != [] && r.toBridge[0].CompletionRequest?
    ensures r.taken < |r.asked| && r.asked[r.taken] == (r.toBridge[0].id, r.toBridge[0].request)
    ensures r.toBridge[0].id !in r.tasks
    ensures Pick(r.toBridge[1..], Asking()) + Pick(r.link.outbound, Asking()) == r.asked[r.taken + 1..]
  {
    var rest := Pick(r.toBridge[1..], Asking()) + Pick(r.link.outbound, Asking());
    PickHead(r.toBridge, Asking());
    assert r.asked[r.taken..] == [(r.toBridge[0].id, r.toBridge[0].request)] + rest;
    assert r.asked[r.taken..][0] == r.asked[r.taken];
    assert r.asked[r.taken..][1..] == r.asked[r.taken + 1..] == rest;
    assert r.asked[r.taken].0 !in r.tasks;
  }

  lemma EndPicked(b: RequestId, end: HandlerEnd, id: RequestId)
    ensures Answer(id, EndFrames(b, end)) == if b == id then EndItems(end) else []
  {
    if end != Running {
      PickOne(EndFrames(b, end)[0], For(id));
    }
  }

  /** Frames for `h` joining the bridge's queue are to `h` what they are, and nothing to anybody else. */
  lemma OutboxGrows(r: Relay, r': Relay, h: RequestId, frames: seq<InFrame>, items: seq<Item>, id: RequestId)
    requires r'.link == r.link && r'.toGateway == r.toGateway && r'.bridgeOut == r.bridgeOut + frames
    requires Answer(id, frames) == if h == id then items else []
    requires LinkOk(r.link) && Conserved(r, id)
    requires Produced(r', id) == Produced(r, id) + if h == id then items else []
    ensures Conserved(r', id)
  {
    PickConcat(r.bridgeOut, frames, For(id));
    JoinsBehind(Heard(r.link, id), Answer(id, r.toGateway), Answer(id, r.bridgeOut), Answer(id, frames));
  }

  lemma JoinsBehind(heard: seq<Item>, sent: seq<Item>, queued: seq<Item>, more: seq<Item>)
    ensures heard + (sent + (queued + more)) == (heard + (sent + queued)) + more
  {
  }

  lemma HandlerYieldConserves(r: Relay, h: RequestId, chunk: ChunkData, id: RequestId)
    requires LinkOk(r.link) && Conserved(r, id)
    ensures Conserved(Next(r, HandlerYields(h, chunk)), id)
  {
    if Serving(r, h) {
      var frame := ChunkFrame(Some(h), Some(chunk));
      PickOne(frame, For(id));
      assert Pieces(r.tasks[h].chunks + [chunk]) + [] == Pieces(r.tasks[h].chunks) + [] + [Piece(chunk)];
      OutboxGrows(r, Next(r, HandlerYields(h, chunk)), h, [frame], [Piece(chunk)], id);
    }
  }

  lemma HandlerEndConserves(r: Relay, h: RequestId, end: HandlerEnd, id: RequestId)
    requires LinkOk(r.link) && Conserved(r, id)
    ensures Conserved(Next(r, HandlerEnds(h, end)), id)
  {
    if Serving(r, h) {
      EndPicked(h, end, id);
      OutboxGrows(r, Next(r, HandlerEnds(h, end)), h, EndFrames(h, end), EndItems(end), id);
    }
  }

  lemma HeardAfterDispatch(l: Link, f: InFrame, id: RequestId)
    ensures Heard(Dispatched(l, f), id) == Heard(l, id) + if Accepts(l, id) then Answer(id, [f]) else []
    ensures Dispatched(l, f).table == l.table && Dispatched(l, f).streams.Keys == l.streams.Keys
  {
    PickOne(f, For(id));
  }

  lemma WireShrinks(wire: seq<InFrame>, behind: seq<Item>, id: RequestId)
    requires wire != []
    ensures Answer(id, wire) + behind == Answer(id, [wire[0]]) + (Answer(id, wire[1..]) + behind)
  {
    PickConcat([wire[0]], wire[1..], For(id));
    assert [wire[0]] + wire[1..] == wire;
  }

  lemma NoTaskNothingProduced(r: Relay, id: RequestId)
    requires RequestsOk(r) && Conserved(r, id) && id !in r.link.streams
    ensures Underway(r, id) == []
  {
    assert Heard(r.link, id) + Underway(r, id) == Underway(r, id);
  }

  lemma GatewayReadConserves(r: Relay, id: RequestId)
    requires LinkOk(r.link) && RequestsOk(r) && Conserved(r, id)
    ensures Conserved(Next(r, GatewayReads), id)
  {
    if r.up && r.toGateway != [] {
      var r' := Next(r, GatewayReads);
      HeardAfterDispatch(r.link, r.toGateway[0], id);
      WireShrinks(r.toGateway, Answer(id, r.bridgeOut), id);
      var now := Answer(id, [r.toGateway[0]]);
      assert Underway(r, id) == now + Underway(r', id);
      if id in r.link.table {
        PassedOn(Heard(r.link, id), now, Underway(r', id));
      } else if id !in r.link.streams {
        NoTaskNothingProduced(r, id);
        assert |now + Underway(r', id)| == 0;
      }
    }
  }

  lemma PassedOn(heard: seq<Item>, now: seq<Item>, later: seq<Item>)
    ensures (heard + now) + later == heard + (now + later)
  {
  }

  lemma BridgeWriteConserves(r: Relay, id: RequestId)
    requires Conserved(r, id)
    ensures Conserved(Next(r, BridgeWrites), id)
  {
    if r.bridgeUp && r.bridgeOut != [] {
      PickMove(r.toGateway, r.bridgeOut, For(id));
    }
  }

  /** A step that leaves what was heard and what is underway as it is, and takes nothing into the table but the new. */
  lemma LocalStepConserves(r: Relay, r': Relay, id: RequestId)
    requires LinkOk(r.link) && Conserved(r, id)
    requires r'.toGateway == r.toGateway && r'.bridgeOut == r.bridgeOut && r'.tasks == r.tasks
    requires Heard(r'.link, id) == Heard(r.link, id)
    requires id in r.link.streams ==> id in r'.link.streams && (id in r'.link.table ==> id in r.link.table)
    ensures Conserved(r', id)
  {
    assert Heard(r.link, id) <= Produced(r, id);
  }

  lemma HeardAfterIterated(l: Link, id: RequestId, other: RequestId)
    ensures Heard(Iterated(l, other), id) == Heard(l, id)
    ensures Iterated(l, other).table <= l.table && Iterated(l, other).streams.Keys == l.streams.Keys
  {
  }

  lemma HeardAfterTimedOut(l: Link, id: RequestId, other: RequestId)
    ensures Heard(TimedOut(l, other), id) == Heard(l, id)
    ensures TimedOut(l, other).table <= l.table && TimedOut(l, other).streams.Keys == l.streams.Keys
  {
  }

  lemma HeardAfterClosed(l: Link, id: RequestId, other: RequestId)
    ensures Heard(Closed(l, other), id) == Heard(l, id)
    ensures Closed(l, other).table <= l.table && Closed(l, other).streams.Keys == l.streams.Keys
  {
  }

  lemma ConservedStep(r: Relay, step: Step, id: RequestId)
    requires LinkOk(r.link) && RequestsOk(r) && Conserved(r, id)
    ensures Conserved(Next(r, step), id)
  {
    match step
    case BridgeReads => BridgeReadConserves(r, id);
    case HandlerYields(h, chunk) => HandlerYieldConserves(r, h, chunk, id);
    case HandlerEnds(h, end) => HandlerEndConserves(r, h, end, id);
    case BridgeWrites => BridgeWriteConserves(r, id);
    case GatewayReads => GatewayReadConserves(r, id);
    case Iterate(i) => TakeConserves(r, step, i, id);
    case Timeout(i) => TakeConserves(r, step, i, id);
    case Close(i) => TakeConserves(r, step, i, id);
    case _ => LocalStepConserves(r, Next(r, step), id);
  }

  lemma TakeConserves(r: Relay, step: Step, taken: RequestId, id: RequestId)
    requires LinkOk(r.link) && Conserved(r, id)
    requires step == Iterate(taken) || step == Timeout(taken) || step == Close(taken)
    ensures Conserved(Next(r, step), id)
  {
    match step {
      case Iterate(_) => HeardAfterIterated(r.link, id, taken);
      case Timeout(_) => HeardAfterTimedOut(r.link, id, taken);
      case Close(_) => HeardAfterClosed(r.link, id, taken);
    }
    LocalStepConserves(r, Next(r, step), id);
  }

  lemma NextOk(r: Relay, step: Step)
    requires RelayOk(r)
    ensures RelayOk(Next(r, step))
  {
    LinkStepOk(r, step);
    RequestsStepOk(r, step);
    forall id ensures Conserved(Next(r, step), id) {
      assert Conserved(r, id);
      ConservedStep(r, step, id);
    }
  }

  /** The state after any run of steps. */
  function After(steps: seq<Step>): Relay {
    if steps == [] then START else Next(After(steps[..|steps| - 1]), steps[|steps| - 1])
  }

  lemma {:induction false} AfterOk(steps: seq<Step>)
    ensures RelayOk(After(steps))
  {
    if steps != [] {
      AfterOk(steps[..|steps| - 1]);
      NextOk(After(steps[..|steps| - 1]), steps[|steps| - 1]);
    }
  }

  // ---- what the invariant gives the reader of a stream

  /** The fault a reader sees when its handler ended with `end`. */
  function FaultOf(end: HandlerEnd): Option<Fault> {
    match end
    case RefusedWith(r) => Some(Refused(r))
    case Raised(m) => Some(Reported(if m != "" then m else "LLM provider reported an error"))
    case _ => None
  }

  /**
   In every reachable state, for every completion: what was yielded is a prefix
   of its own handler's chunks; a stream that completed or failed with the
   provider's own fault yielded all of them and its handler ended exactly that
   way; any other end is the invalid chunk, the timeout, the disconnect or the
   reader's own close, after a prefix.
   */
  lemma {:induction false} RelayDelivers(steps: seq<Step>, id: RequestId)
    requires id in After(steps).link.streams
    ensures var r := After(steps); var s := r.link.streams[id];
      && (s.yielded != [] ==> id in r.tasks)
      && (id in r.tasks ==> s.yielded <= r.tasks[id].chunks)
      && (s.ending == Completed ==> id in r.tasks && r.tasks[id].end == Returned && s.yielded == r.tasks[id].chunks)
      && (s.ending.Failed? && (s.ending.fault.Refused? || s.ending.fault.Reported?) ==>
            id in r.tasks && FaultOf(r.tasks[id].end) == Some(s.ending.fault) && s.yielded == r.tasks[id].chunks)
      && (s.ending == Failed(InvalidChunk) ==>
            id in r.tasks && |s.yielded| < |r.tasks[id].chunks| && !r.tasks[id].chunks[|s.yielded|].wellFormed)
  {
    AfterOk(steps);
    var r := After(steps);
    var s := r.link.streams[id];
    assert Conserved(r, id);
    assert s.heard <= Produced(r, id);
    if id in r.tasks {
      PiecesPrefix(s.yielded, r.tasks[id].chunks, EndItems(r.tasks[id].end));
      if |s.yielded| < |s.heard| {
        assert s.heard[|s.yielded|] == Produced(r, id)[|s.yielded|];
      }
    }
    if s.ending == Completed {
      assert s.heard[|s.yielded|] == (Pieces(s.yielded) + [Done])[|s.yielded|];
    }
  }

  lemma {:induction false} PiecesPrefix(a: seq<ChunkData>, b: seq<ChunkData>, end: seq<Item>)
    requires Pieces(a) <= Pieces(b) + end
    requires forall item :: item in end ==> !item.Piece?
    ensures a <= b
  {
    var all := Pieces(b) + end;
    forall i | 0 <= i < |a| ensures all[i] == Piece(a[i]) {
      assert Pieces(a)[i] == all[i];
    }
    assert end != [] ==> all[|b|] == end[0] && end[0] in end;
    assert |a| <= |b|;
    forall i | 0 <= i < |a| ensures a[i] == b[i] {
      assert all[i] == Pieces(b)[i];
    }
  }

  /** Each request is served by at most one task, under its own id, with the envelope it was asked with. */
  lemma {:induction false} TasksServeWhatWasAsked(steps: seq<Step>, id: RequestId)
    requires id in After(steps).tasks
    ensures Ask(id, After(steps).tasks[id].request) in steps
    decreases |steps|
  {
    assert steps != [];
    var prefix, step := steps[..|steps| - 1], steps[|steps| - 1];
    var r := After(prefix);
    if id in r.tasks {
      TasksServeWhatWasAsked(prefix, id);
      AfterOk(prefix);
      TaskKeepsRequest(r, step, id);
    } else {
      AfterOk(prefix);
      TaskBorn(r, step, id);
      NextTaken(r);
      var i := AskedByStep(prefix, r.taken);
    }
  }

  lemma TaskKeepsRequest(r: Relay, step: Step, id: RequestId)
    requires RequestsOk(r) && id in r.tasks
    ensures id in Next(r, step).tasks && Next(r, step).tasks[id].request == r.tasks[id].request
  {
    if step.BridgeReads? && r.bridgeUp && r.toBridge != [] && r.toBridge[0].CompletionRequest? {
      NextTaken(r);
    }
  }

  lemma TaskBorn(r: Relay, step: Step, id: RequestId)
    requires id !in r.tasks && id in Next(r, step).tasks
    ensures r.toBridge != [] && r.toBridge[0] == CompletionRequest(id, Next(r, step).tasks[id].request)
  {
  }

  lemma AskedGrows(r: Relay, step: Step)
    ensures Next(r, step).asked == r.asked || (step.Ask? && Next(r, step).asked == r.asked + [(step.id, step.request)])
  {
  }

  lemma {:induction false} AskedByStep(steps: seq<Step>, k: nat) returns (i: nat)
    requires k < |After(steps).asked|
    ensures i < |steps| && steps[i] == Ask(After(steps).asked[k].0, After(steps).asked[k].1)
    decreases |steps|
  {
    assert steps != [];
    var prefix := steps[..|steps| - 1];
    AskedGrows(After(prefix), steps[|steps| - 1]);
    if k < |After(prefix).asked| {
      i := AskedByStep(prefix, k);
    } else {
      i := |steps| - 1;
    }
  }

  lemma EndShows(t: Task)
    ensures t.end == Running || (|t.chunks| < |Pieces(t.chunks) + EndItems(t.end)| && !(Pieces(t.chunks) + EndItems(t.end))[|t.chunks|].Piece?)
  {
  }

  lemma PiecesMeanRunning(yielded: seq<ChunkData>, t: Task)
    requires Pieces(yielded) == Pieces(t.chunks) + EndItems(t.end)
    ensures t.end == Running && yielded == t.chunks
  {
    var all := Pieces(t.chunks) + EndItems(t.end);
    EndShows(t);
    assert forall k :: 0 <= k < |all| ==> all[k].Piece?;
    PiecesPrefix(yielded, t.chunks, EndItems(t.end));
  }

  /**
   Nothing is stuck: while the connection is up, with the wire and the bridge's
   queue drained and this stream read dry, a stream still open means a handler
   that has not finished (or a request that has not yet arrived).
   */
  lemma {:induction false} DrainedMeansDelivered(steps: seq<Step>, id: RequestId)
    requires var r := After(steps);
      && r.up && r.toGateway == [] && r.bridgeOut == []
      && id in r.link.streams && r.link.streams[id].queue == [] && r.link.streams[id].ending == Open
    ensures var r := After(steps);
      && (id in r.tasks ==> r.tasks[id].end == Running && r.link.streams[id].yielded == r.tasks[id].chunks)
      && (id !in r.tasks ==> r.link.streams[id].yielded == [])
  {
    AfterOk(steps);
    var r := After(steps);
    var s := r.link.streams[id];
    assert Conserved(r, id);
    assert Pieces(s.yielded) == Produced(r, id);
    if id in r.tasks {
      var t := r.tasks[id];
      PiecesMeanRunning(s.yielded, t);
    }
  }
}
