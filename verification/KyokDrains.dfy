/**
 The relay does not get stuck: from every reachable state, letting the wires
 drain and the reader read on brings a completion to where its handler is.
 `KyokRelay` says that nothing wrong arrives; this says that what is sent does.
 */
module KyokDrains {
  import opened Seqs
  import opened KyokLink
  import opened KyokRelay
  import KyokGateway

  // ---- the same step, again and again

  function Times(step: Step, n: nat): (steps: seq<Step>)
    ensures |steps| == n
  {
    seq(n, _ => step)
  }

  function Repeated(r: Relay, step: Step, n: nat): Relay
    decreases n
  {
    if n == 0 then r else Repeated(Next(r, step), step, n - 1)
  }

  lemma {:induction false} AfterSnoc(steps: seq<Step>, step: Step)
    ensures After(steps + [step]) == Next(After(steps), step)
  {
    assert (steps + [step])[..|steps|] == steps;
  }

  lemma {:induction false} TimesIsRepeated(steps: seq<Step>, step: Step, n: nat)
    ensures After(steps + Times(step, n)) == Repeated(After(steps), step, n)
    decreases n
  {
    if n == 0 {
      assert steps + Times(step, n) == steps;
    } else {
      AfterSnoc(steps, step);
      TimesIsRepeated(steps + [step], step, n - 1);
      assert steps + Times(step, n) == steps + [step] + Times(step, n - 1);
    }
  }

  // ---- draining one queue

  lemma {:induction false} GatewayWritesOut(r: Relay, n: nat)
    requires r.up && n == |r.link.outbound|
    ensures Repeated(r, GatewayWrites, n) == r.(link := r.link.(outbound := []), toBridge := r.toBridge + r.link.outbound)
    decreases n
  {
    if n > 0 {
      GatewayWritesOut(Next(r, GatewayWrites), n - 1);
      assert r.toBridge + r.link.outbound == r.toBridge + [r.link.outbound[0]] + r.link.outbound[1..];
    } else {
      assert r.toBridge + [] == r.toBridge;
    }
  }

  lemma {:induction false} BridgeWritesOut(r: Relay, n: nat)
    requires r.bridgeUp && n == |r.bridgeOut|
    ensures Repeated(r, BridgeWrites, n) == r.(bridgeOut := [], toGateway := r.toGateway + r.bridgeOut)
    decreases n
  {
    if n > 0 {
      BridgeWritesOut(Next(r, BridgeWrites), n - 1);
      assert r.toGateway + r.bridgeOut == r.toGateway + [r.bridgeOut[0]] + r.bridgeOut[1..];
    } else {
      assert r.toGateway + [] == r.toGateway;
    }
  }

  /** A task as it begins: nothing yielded, and over at once if its request does not validate. */
  predicate AsBegun(t: Task) {
    t.chunks == [] && t.end == if t.request.wellFormed then Running else Raised("malformed completionRequest")
  }

  /** `tasks` has grown by tasks that have just begun, and by nothing else. */
  ghost predicate TasksBegun(before: map<RequestId, Task>, tasks: map<RequestId, Task>) {
    && (forall id :: id in before ==> id in tasks && tasks[id] == before[id])
    && (forall id :: id in tasks && id !in before ==> AsBegun(tasks[id]))
  }

  lemma BridgeReadsOne(r: Relay)
    requires RelayOk(r) && r.bridgeUp && r.toBridge != []
    ensures var t := Next(r, BridgeReads);
      && RelayOk(t) && t.toBridge == r.toBridge[1..] && t.link == r.link && t.up == r.up && t.bridgeUp && t.asked == r.asked
      && TasksBegun(r.tasks, t.tasks)
  {
    NextOk(r, BridgeReads);
    if r.toBridge[0].CompletionRequest? { NextTaken(r); }
  }

  /** The bridge reads all that was sent to it. */
  lemma {:induction false} BridgeReadsAll(r: Relay, n: nat)
    requires RelayOk(r) && r.bridgeUp && n == |r.toBridge|
    ensures var t := Repeated(r, BridgeReads, n);
      && RelayOk(t) && t.toBridge == [] && t.link == r.link && t.up == r.up && t.bridgeUp && t.asked == r.asked
      && TasksBegun(r.tasks, t.tasks)
    decreases n
  {
    if n > 0 {
      BridgeReadsOne(r);
      BridgeReadsAll(Next(r, BridgeReads), n - 1);
    }
  }

  /** To its reader a stream is as it was; what it may read next is another matter. */
  ghost predicate SameToReader(l: Link, m: Link) {
    && m.table == l.table && m.streams.Keys == l.streams.Keys
    && forall id :: id in l.streams ==>
         m.streams[id].yielded == l.streams[id].yielded && m.streams[id].ending == l.streams[id].ending
  }

  lemma DispatchIsSameToReader(l: Link, f: InFrame)
    ensures SameToReader(l, Dispatched(l, f))
  {
  }

  lemma {:induction false} GatewayReadsOne(r: Relay)
    requires RelayOk(r) && r.up && r.toGateway != [] && Pick(r.link.outbound, Asking()) == []
    ensures var t := Next(r, GatewayReads);
      && RelayOk(t) && SameToReader(r.link, t.link) && Pick(t.link.outbound, Asking()) == []
      && t == r.(link := t.link, toGateway := r.toGateway[1..])
  {
    NextOk(r, GatewayReads);
    DispatchIsSameToReader(r.link, r.toGateway[0]);
    RepliesAskNothing(r.link, r.toGateway[0]);
  }

  /** The gateway reads all that was sent to it, and asks for nothing by that. */
  lemma {:induction false} GatewayReadsAll(r: Relay, n: nat)
    requires RelayOk(r) && r.up && n == |r.toGateway| && Pick(r.link.outbound, Asking()) == []
    ensures var t := Repeated(r, GatewayReads, n);
      && RelayOk(t) && t.toGateway == [] && SameToReader(r.link, t.link) && Pick(t.link.outbound, Asking()) == []
      && t.up && t.bridgeUp == r.bridgeUp && t.toBridge == r.toBridge && t.bridgeOut == r.bridgeOut
      && t.tasks == r.tasks && t.asked == r.asked && t.taken == r.taken
    decreases n
  {
    if n > 0 {
      GatewayReadsOne(r);
      GatewayReadsAll(Next(r, GatewayReads), n - 1);
    }
  }

  // ---- draining them all

  ghost predicate OnWires(steps: seq<Step>) {
    forall step :: step in steps ==> step in {GatewayWrites, BridgeReads, BridgeWrites, GatewayReads}
  }

  /** Nothing is on its way, and every request asked has its task at the bridge, with the envelope it was asked with. */
  ghost predicate Drained(r: Relay) {
    && r.toBridge == [] && r.bridgeOut == [] && r.toGateway == []
    && forall i :: 0 <= i < |r.asked| ==> r.asked[i].0 in r.tasks && r.tasks[r.asked[i].0].request == r.asked[i].1
  }

  /** `t` is what moving frames along has made of `r`. */
  ghost predicate MovedAlong(r: Relay, t: Relay) {
    && RelayOk(t) && t.up && t.bridgeUp && t.asked == r.asked
    && SameToReader(r.link, t.link) && TasksBegun(r.tasks, t.tasks)
  }

  /** The state after four bursts of steps: out of the gateway, into the bridge, out of the bridge, into the gateway. */
  function Burst(r: Relay, w: nat, x: nat, y: nat, z: nat): Relay {
    Repeated(Repeated(Repeated(Repeated(r, GatewayWrites, w), BridgeReads, x), BridgeWrites, y), GatewayReads, z)
  }

  function Bursts(w: nat, x: nat, y: nat, z: nat): seq<Step> {
    Times(GatewayWrites, w) + Times(BridgeReads, x) + Times(BridgeWrites, y) + Times(GatewayReads, z)
  }

  lemma {:induction false} BurstsAreSteps(steps: seq<Step>, w: nat, x: nat, y: nat, z: nat)
    ensures After(steps + Bursts(w, x, y, z)) == Burst(After(steps), w, x, y, z)
  {
    var first := steps + Times(GatewayWrites, w);
    var second := first + Times(BridgeReads, x);
    var third := second + Times(BridgeWrites, y);
    TimesIsRepeated(steps, GatewayWrites, w);
    TimesIsRepeated(first, BridgeReads, x);
    TimesIsRepeated(second, BridgeWrites, y);
    TimesIsRepeated(third, GatewayReads, z);
    assert steps + Bursts(w, x, y, z) == third + Times(GatewayReads, z);
  }

  ghost predicate DrainsBy(r: Relay, w: nat, x: nat, y: nat, z: nat) {
    MovedAlong(r, Burst(r, w, x, y, z)) && Drained(Burst(r, w, x, y, z))
  }

  /** Each burst as long as its queue, and every queue is empty. */
  lemma BurstsDrain(r: Relay)
    requires RelayOk(r) && r.up && r.bridgeUp
    ensures exists w: nat, x: nat, y: nat, z: nat :: DrainsBy(r, w, x, y, z)
  {
    var w := |r.link.outbound|;
    var a := Repeated(r, GatewayWrites, w);
    GatewayWritesOut(r, w);
    RepeatedOk(r, GatewayWrites, w);
    var x := |a.toBridge|;
    var b := Repeated(a, BridgeReads, x);
    BridgeReadsAll(a, x);
    var y := |b.bridgeOut|;
    var c := Repeated(b, BridgeWrites, y);
    BridgeWritesOut(b, y);
    RepeatedOk(b, BridgeWrites, y);
    AnswersDrain(c, |c.toGateway|);
    assert DrainsBy(r, w, x, y, |c.toGateway|);
  }

  lemma {:induction false} AnswersDrain(c: Relay, z: nat)
    requires RelayOk(c) && c.up && c.bridgeUp && z == |c.toGateway|
    requires c.toBridge == [] && c.bridgeOut == [] && c.link.outbound == []
    ensures MovedAlong(c, Repeated(c, GatewayReads, z)) && Drained(Repeated(c, GatewayReads, z))
  {
    assert Pick(c.link.outbound, Asking()) == [];
    GatewayReadsAll(c, z);
    var t := Repeated(c, GatewayReads, z);
    assert t.asked[t.taken..] == [];
  }

  lemma {:induction false} RepeatedOk(r: Relay, step: Step, n: nat)
    requires RelayOk(r)
    ensures RelayOk(Repeated(r, step, n))
    decreases n
  {
    if n > 0 {
      NextOk(r, step);
      RepeatedOk(Next(r, step), step, n - 1);
    }
  }

  ghost predicate DrainedFrom(steps: seq<Step>, more: seq<Step>) {
    OnWires(more) && MovedAlong(After(steps), After(steps + more)) && Drained(After(steps + more))
  }

  /**
   From every reachable state with both ends up, moving frames along and nothing
   else empties the wires: every request asked has reached its task, and no
   stream and no task is the worse for it.
   */
  lemma {:induction false} WiresDrain(steps: seq<Step>)
    requires After(steps).up && After(steps).bridgeUp
    ensures exists more :: DrainedFrom(steps, more)
  {
    AfterOk(steps);
    BurstsDrain(After(steps));
    var w: nat, x: nat, y: nat, z: nat :| DrainsBy(After(steps), w, x, y, z);
    BurstsDrainFrom(steps, w, x, y, z);
  }

  lemma {:induction false} BurstsDrainFrom(steps: seq<Step>, w: nat, x: nat, y: nat, z: nat)
    requires DrainsBy(After(steps), w, x, y, z)
    ensures DrainedFrom(steps, Bursts(w, x, y, z))
  {
    BurstsAreSteps(steps, w, x, y, z);
    BurstsAreOnWires(w, x, y, z);
  }

  lemma {:induction false} BurstsAreOnWires(w: nat, x: nat, y: nat, z: nat)
    ensures OnWires(Bursts(w, x, y, z))
  {
    forall step | step in Bursts(w, x, y, z) ensures step in {GatewayWrites, BridgeReads, BridgeWrites, GatewayReads} {
      assert step in Times(GatewayWrites, w) || step in Times(BridgeReads, x) || step in Times(BridgeWrites, y) || step in Times(GatewayReads, z);
    }
  }

  // ---- reading on

  lemma {:induction false} IteratesAre(r: Relay, id: RequestId, n: nat)
    ensures Repeated(r, Iterate(id), n) == r.(link := KyokGateway.IteratedTimes(r.link, id, n))
    decreases n
  {
    if n > 0 {
      IteratesAre(Next(r, Iterate(id)), id, n - 1);
    }
  }

  /** What is left to read of a drained stream is what its handler produced and it has not yielded. */
  lemma DrainedQueue(r: Relay, id: RequestId)
    requires RelayOk(r) && r.up && Drained(r) && id in r.tasks && id in r.link.streams && r.link.streams[id].ending == Open
    ensures var s, t := r.link.streams[id], r.tasks[id];
      s.yielded <= t.chunks && s.queue == Pieces(t.chunks[|s.yielded|..]) + EndItems(t.end)
  {
    assert Conserved(r, id);
    RestIsQueued(r.link.streams[id], r.tasks[id]);
  }

  lemma RestIsQueued(s: Stream, t: Task)
    requires Pieces(s.yielded) + s.queue == Pieces(t.chunks) + EndItems(t.end)
    ensures s.yielded <= t.chunks && s.queue == Pieces(t.chunks[|s.yielded|..]) + EndItems(t.end)
  {
    PiecesPrefix(s.yielded, t.chunks, EndItems(t.end));
    var rest := t.chunks[|s.yielded|..];
    assert Pieces(t.chunks) == Pieces(s.yielded) + Pieces(rest);
    assert Pieces(s.yielded) + s.queue == Pieces(s.yielded) + (Pieces(rest) + EndItems(t.end));
    assert (Pieces(s.yielded) + s.queue)[|s.yielded|..] == s.queue;
    assert (Pieces(s.yielded) + (Pieces(rest) + EndItems(t.end)))[|s.yielded|..] == Pieces(rest) + EndItems(t.end);
  }

  ghost predicate ReadTo(r: Relay, id: RequestId, chunks: seq<ChunkData>, ending: Ending) {
    && id in r.link.streams && id !in r.link.table
    && r.link.streams[id].yielded == chunks && r.link.streams[id].ending == ending
  }

  lemma {:induction false} QueueIsRead(r: Relay, id: RequestId, rest: seq<ChunkData>, terminal: Item)
    requires id in r.link.streams && r.link.streams[id].ending == Open && !terminal.Piece?
    requires r.link.streams[id].queue == Pieces(rest) + [terminal] && forall chunk :: chunk in rest ==> chunk.wellFormed
    ensures ReadTo(Repeated(r, Iterate(id), |rest| + 1), id, r.link.streams[id].yielded + rest,
                   if terminal.Fail? then Failed(terminal.fault) else Completed)
  {
    KyokGateway.QueueReadsOut(r.link, id, rest, terminal);
    IteratesAre(r, id, |rest| + 1);
  }

  /** How a stream ends whose handler has ended. */
  function EndingOf(end: HandlerEnd): Ending {
    match end
    case Running => Open
    case Returned => Completed
    case RefusedWith(refusal) => Failed(Refused(refusal))
    case Raised(message) => Failed(Reported(if message == "" then "LLM provider reported an error" else message))
  }

  lemma {:induction false} DrainedReads(r: Relay, id: RequestId, n: nat)
    requires RelayOk(r) && r.up && Drained(r) && id in r.tasks && id in r.link.streams && r.link.streams[id].ending == Open
    requires r.tasks[id].end != Running && forall chunk :: chunk in r.tasks[id].chunks ==> chunk.wellFormed
    requires n == |r.link.streams[id].queue|
    ensures ReadTo(Repeated(r, Iterate(id), n), id, r.tasks[id].chunks, EndingOf(r.tasks[id].end))
  {
    var s, t := r.link.streams[id], r.tasks[id];
    DrainedQueue(r, id);
    var rest, terminal := t.chunks[|s.yielded|..], EndItems(t.end)[0];
    QueueIsRead(r, id, rest, terminal);
    assert s.yielded + rest == t.chunks;
  }

  ghost predicate OnWiresAndReading(steps: seq<Step>, id: RequestId) {
    forall step :: step in steps ==> step in {GatewayWrites, BridgeReads, BridgeWrites, GatewayReads, Iterate(id)}
  }

  ghost predicate ReadFrom(steps: seq<Step>, more: seq<Step>, id: RequestId, chunks: seq<ChunkData>, ending: Ending) {
    OnWiresAndReading(more, id) && ReadTo(After(steps + more), id, chunks, ending)
  }

  /**
   From every reachable state with both ends up: an open stream whose handler has
   ended, with chunks that validate, can be read to its end by moving frames
   along and reading, and has then yielded all of them and ended as it did.
   */
  lemma {:induction false} FinishedHandlersAreHeard(steps: seq<Step>, id: RequestId)
    requires After(steps).up && After(steps).bridgeUp
    requires id in After(steps).link.streams && After(steps).link.streams[id].ending == Open
    requires id in After(steps).tasks && After(steps).tasks[id].end != Running
    requires forall chunk :: chunk in After(steps).tasks[id].chunks ==> chunk.wellFormed
    ensures exists more :: ReadFrom(steps, more, id, After(steps).tasks[id].chunks, EndingOf(After(steps).tasks[id].end))
  {
    WiresDrain(steps);
    var more :| DrainedFrom(steps, more);
    DrainedIsRead(steps, more, id, After(steps).tasks[id]);
  }

  lemma {:induction false} DrainedIsRead(steps: seq<Step>, more: seq<Step>, id: RequestId, t: Task)
    requires DrainedFrom(steps, more)
    requires id in After(steps).link.streams && After(steps).link.streams[id].ending == Open
    requires id in After(steps).tasks && After(steps).tasks[id] == t
    requires t.end != Running && forall chunk :: chunk in t.chunks ==> chunk.wellFormed
    ensures exists on :: ReadFrom(steps, on, id, t.chunks, EndingOf(t.end))
  {
    var n := |After(steps + more).link.streams[id].queue|;
    DrainedReads(After(steps + more), id, n);
    ReadsFollow(steps, more, id, n, t.chunks, EndingOf(t.end));
  }

  lemma {:induction false} ReadsFollow(steps: seq<Step>, more: seq<Step>, id: RequestId, n: nat, chunks: seq<ChunkData>, ending: Ending)
    requires OnWires(more) && ReadTo(Repeated(After(steps + more), Iterate(id), n), id, chunks, ending)
    ensures ReadFrom(steps, more + Times(Iterate(id), n), id, chunks, ending)
  {
    TimesIsRepeated(steps + more, Iterate(id), n);
    assert steps + more + Times(Iterate(id), n) == steps + (more + Times(Iterate(id), n));
  }

  // ---- from the ask to the end

  lemma {:induction false} AskActs(steps: seq<Step>, id: RequestId, request: Request)
    requires id !in After(steps).link.streams
    ensures var r, t := After(steps), After(steps + [Ask(id, request)]);
      && t == r.(link := t.link, asked := r.asked + [(id, request)])
      && t.link.streams == r.link.streams[id := Stream([], [], Open, false, [])] && t.link.table == r.link.table + {id}
  {
    AfterSnoc(steps, Ask(id, request));
  }

  /** Asked under `id`, and not yet read at all. */
  ghost predicate Awaiting(steps: seq<Step>, id: RequestId, t: Task) {
    var r := After(steps);
    && r.up && r.bridgeUp && id in r.link.streams && id in r.tasks && r.tasks[id] == t
    && r.link.streams[id].ending == Open && r.link.streams[id].yielded == []
  }

  /** A request asked in any state with both ends up reaches its handler, or is turned away if it does not validate. */
  lemma {:induction false} RequestsArrive(steps: seq<Step>, id: RequestId, request: Request)
    requires After(steps).up && After(steps).bridgeUp && id !in After(steps).link.streams
    ensures exists more :: OnWires(more) && Awaiting(steps + [Ask(id, request)] + more, id,
      Task(request, [], if request.wellFormed then Running else Raised("malformed completionRequest")))
  {
    AskActs(steps, id, request);
    var asked := steps + [Ask(id, request)];
    WiresDrain(asked);
    var more :| DrainedFrom(asked, more);
    var r, t := After(asked), After(asked + more);
    AfterOk(steps);
    assert r.asked[|r.asked| - 1] == (id, request);
    assert id in t.tasks && t.tasks[id].request == request;
    assert AsBegun(t.tasks[id]);
    assert Awaiting(asked + more, id, t.tasks[id]);
  }

  function Yielding(id: RequestId, chunks: seq<ChunkData>): (steps: seq<Step>)
    ensures |steps| == |chunks|
  {
    seq(|chunks|, i requires 0 <= i < |chunks| => HandlerYields(id, chunks[i]))
  }

  lemma HandlerActs(steps: seq<Step>, id: RequestId, t: Task, step: Step)
    requires Awaiting(steps, id, t) && t.end == Running
    ensures forall chunk :: step == HandlerYields(id, chunk) ==> Awaiting(steps + [step], id, Task(t.request, t.chunks + [chunk], Running))
    ensures forall end :: step == HandlerEnds(id, end) ==> Awaiting(steps + [step], id, Task(t.request, t.chunks, end))
  {
    AfterSnoc(steps, step);
  }

  lemma {:induction false} HandlerYieldsAll(steps: seq<Step>, id: RequestId, t: Task, chunks: seq<ChunkData>)
    requires Awaiting(steps, id, t) && t.end == Running
    ensures Awaiting(steps + Yielding(id, chunks), id, Task(t.request, t.chunks + chunks, Running))
    decreases |chunks|
  {
    if chunks == [] {
      assert steps + Yielding(id, chunks) == steps && t.chunks + chunks == t.chunks;
    } else {
      var step := HandlerYields(id, chunks[0]);
      HandlerActs(steps, id, t, step);
      HandlerYieldsAll(steps + [step], id, Task(t.request, t.chunks + [chunks[0]], Running), chunks[1..]);
      assert steps + Yielding(id, chunks) == steps + [step] + Yielding(id, chunks[1..]);
      assert t.chunks + chunks == t.chunks + [chunks[0]] + chunks[1..];
    }
  }

  lemma HandlerServes(steps: seq<Step>, id: RequestId, request: Request, chunks: seq<ChunkData>, end: HandlerEnd)
    requires Awaiting(steps, id, Task(request, [], Running))
    ensures Awaiting(steps + Yielding(id, chunks) + [HandlerEnds(id, end)], id, Task(request, chunks, end))
  {
    HandlerYieldsAll(steps, id, Task(request, [], Running), chunks);
    assert [] + chunks == chunks;
    HandlerActs(steps + Yielding(id, chunks), id, Task(request, chunks, Running), HandlerEnds(id, end));
  }

  lemma AwaitingIsRead(steps: seq<Step>, id: RequestId, t: Task)
    requires Awaiting(steps, id, t) && t.end != Running && forall chunk :: chunk in t.chunks ==> chunk.wellFormed
    ensures exists reading :: ReadFrom(steps, reading, id, t.chunks, EndingOf(t.end))
  {
    FinishedHandlersAreHeard(steps, id);
  }

  /** What a whole completion is: the ask, frames moving, the handler's chunks and end, and frames moving and reads. */
  function Exchange(id: RequestId, request: Request, moving: seq<Step>, chunks: seq<ChunkData>, end: HandlerEnd): seq<Step> {
    [Ask(id, request)] + moving + Yielding(id, chunks) + [HandlerEnds(id, end)]
  }

  ghost predicate GetsThrough(steps: seq<Step>, id: RequestId, request: Request, chunks: seq<ChunkData>, end: HandlerEnd,
                              moving: seq<Step>, reading: seq<Step>) {
    OnWires(moving) && ReadFrom(steps + Exchange(id, request, moving, chunks, end), reading, id, chunks, EndingOf(end))
  }

  lemma ExchangeGetsThrough(steps: seq<Step>, id: RequestId, request: Request, chunks: seq<ChunkData>, end: HandlerEnd, moving: seq<Step>)
    requires OnWires(moving) && Awaiting(steps + [Ask(id, request)] + moving, id, Task(request, [], Running))
    requires end != Running && forall chunk :: chunk in chunks ==> chunk.wellFormed
    ensures exists reading :: GetsThrough(steps, id, request, chunks, end, moving, reading)
  {
    var begun, all := steps + [Ask(id, request)] + moving, steps + Exchange(id, request, moving, chunks, end);
    HandlerServes(begun, id, request, chunks, end);
    assert begun + Yielding(id, chunks) + [HandlerEnds(id, end)] == all;
    AwaitingIsRead(all, id, Task(request, chunks, end));
    var reading :| ReadFrom(all, reading, id, chunks, EndingOf(end));
    assert GetsThrough(steps, id, request, chunks, end, moving, reading);
  }

  /**
   In every reachable state with both ends up, whatever else is going on: a valid
   request can be asked, served and read to its end, and its reader has then been
   given all of the handler's chunks and the end the handler came to.
   */
  lemma {:induction false} CompletionsGetThrough(steps: seq<Step>, id: RequestId, request: Request, chunks: seq<ChunkData>, end: HandlerEnd)
    requires After(steps).up && After(steps).bridgeUp && id !in After(steps).link.streams
    requires request.wellFormed && end != Running && forall chunk :: chunk in chunks ==> chunk.wellFormed
    ensures exists moving, reading :: GetsThrough(steps, id, request, chunks, end, moving, reading)
  {
    RequestsArrive(steps, id, request);
    var moving :| OnWires(moving) && Awaiting(steps + [Ask(id, request)] + moving, id, Task(request, [], Running));
    ExchangeGetsThrough(steps, id, request, chunks, end, moving);
  }

  ghost predicate TurnedAway(steps: seq<Step>, id: RequestId, request: Request, moving: seq<Step>, reading: seq<Step>) {
    && OnWires(moving)
    && ReadFrom(steps + [Ask(id, request)] + moving, reading, id, [], Failed(Reported("malformed completionRequest")))
  }

  /** And one that does not validate is failed in those words, without a handler. */
  lemma {:induction false} MalformedRequestsAreTurnedAway(steps: seq<Step>, id: RequestId, request: Request)
    requires After(steps).up && After(steps).bridgeUp && id !in After(steps).link.streams && !request.wellFormed
    ensures exists moving, reading :: TurnedAway(steps, id, request, moving, reading)
  {
    RequestsArrive(steps, id, request);
    var t := Task(request, [], Raised("malformed completionRequest"));
    var moving :| OnWires(moving) && Awaiting(steps + [Ask(id, request)] + moving, id, t);
    AwaitingIsRead(steps + [Ask(id, request)] + moving, id, t);
    var reading :| ReadFrom(steps + [Ask(id, request)] + moving, reading, id, [], Failed(Reported("malformed completionRequest")));
    assert TurnedAway(steps, id, request, moving, reading);
  }

  predicate KeptOut(r: Relay, id: RequestId) {
    id in r.tasks && !r.tasks[id].request.wellFormed ==> AsBegun(r.tasks[id])
  }

  lemma StaysKeptOut(r: Relay, step: Step, id: RequestId)
    requires KeptOut(r, id)
    ensures KeptOut(Next(r, step), id)
  {
  }

  /** In no run at all does a request that does not validate reach a handler. */
  lemma {:induction false} MalformedNeverReachesTheHandler(steps: seq<Step>, id: RequestId)
    ensures KeptOut(After(steps), id)
  {
    if steps != [] {
      MalformedNeverReachesTheHandler(steps[..|steps| - 1], id);
      StaysKeptOut(After(steps[..|steps| - 1]), steps[|steps| - 1], id);
    }
  }

  // ---- the other ways a stream ends

  /** A timeout and a close end an open stream there and then, whatever is under way for it. */
  lemma {:induction false} ReaderEndsAtOnce(steps: seq<Step>, id: RequestId)
    requires id in After(steps).link.streams && After(steps).link.streams[id].ending == Open
    ensures var t := After(steps + [Timeout(id)]).link; id in t.streams && t.streams[id].ending == Failed(GapTimeout) && id !in t.table
    ensures var t := After(steps + [Close(id)]).link; id in t.streams && t.streams[id].ending == Abandoned
  {
    AfterSnoc(steps, Timeout(id));
    AfterSnoc(steps, Close(id));
    TimeoutEnds(After(steps).link, id);
    CloseEnds(After(steps).link, id);
  }

  /** The end of the connection at the gateway puts its word behind what every open stream holds; at the bridge it stops the handlers' frames. */
  lemma {:induction false} HangupsAct(steps: seq<Step>, id: RequestId)
    requires id in After(steps).link.streams && After(steps).link.streams[id].ending == Open
    ensures After(steps).up ==>
      var t := After(steps + [GatewayHangsUp]);
      !t.up && t.link.table == {} && id in t.link.streams && t.link.streams[id].queue == After(steps).link.streams[id].queue + [Fail(Disconnected)]
    ensures !After(steps + [BridgeHangsUp]).bridgeUp
  {
    AfterOk(steps);
    AfterSnoc(steps, GatewayHangsUp);
    AfterSnoc(steps, BridgeHangsUp);
  }

  lemma DeadBridgeStep(r: Relay, step: Step)
    requires !r.bridgeUp
    ensures !Next(r, step).bridgeUp && Next(r, step).tasks == r.tasks && Next(r, step).bridgeOut == r.bridgeOut
  {
  }

  /** What the bridge has not put on the wire when its end goes stays there. */
  lemma {:induction false} NothingLeavesADeadBridge(steps: seq<Step>, more: seq<Step>)
    requires !After(steps).bridgeUp
    ensures var r, t := After(steps), After(steps + more); !t.bridgeUp && t.tasks == r.tasks && t.bridgeOut == r.bridgeOut
    decreases |more|
  {
    if more == [] {
      assert steps + more == steps;
    } else {
      var fewer, last := more[..|more| - 1], more[|more| - 1];
      NothingLeavesADeadBridge(steps, fewer);
      AfterSnoc(steps + fewer, last);
      DeadBridgeStep(After(steps + fewer), last);
      assert steps + more == steps + fewer + [last];
    }
  }
}
