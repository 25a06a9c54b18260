/**
 A question can always be answered: from every reachable state with the link up,
 moving frames along brings a new question to the gateway and its answer back.
 `ProviderLink` says that nothing wrong comes back; this says that the answer does.
 */
module ProviderDrains {
  import opened Seqs
  import opened ThreadReads
  import opened ProviderQueries
  import opened ProviderLink

  function Ran(l: Link, steps: seq<Step>): Link
    decreases |steps|
  {
    if steps == [] then l else Ran(Next(l, steps[0]), steps[1..])
  }

  lemma {:induction false} AfterSnoc(steps: seq<Step>, step: Step)
    ensures After(steps + [step]) == Next(After(steps), step)
  {
    assert (steps + [step])[..|steps|] == steps;
  }

  lemma {:induction false} RanIsAfter(steps: seq<Step>, more: seq<Step>)
    ensures After(steps + more) == Ran(After(steps), more)
    decreases |more|
  {
    if more == [] {
      assert steps + more == steps;
    } else {
      AfterSnoc(steps, more[0]);
      RanIsAfter(steps + [more[0]], more[1..]);
      assert steps + more == steps + [more[0]] + more[1..];
    }
  }

  lemma {:induction false} RanOne(l: Link, step: Step, more: seq<Step>)
    ensures Ran(l, [step] + more) == Ran(Next(l, step), more)
  {
    assert ([step] + more)[1..] == more;
  }

  function Times(step: Step, n: nat): (steps: seq<Step>)
    ensures |steps| == n
  {
    seq(n, _ => step)
  }

  lemma {:induction false} RanTimes(l: Link, step: Step, n: nat)
    ensures n == 0 ==> Ran(l, Times(step, n)) == l
    ensures n > 0 ==> Ran(l, Times(step, n)) == Ran(Next(l, step), Times(step, n - 1))
  {
    if n > 0 {
      assert Times(step, n)[1..] == Times(step, n - 1);
    }
  }

  // ---- to the gateway

  lemma {:induction false} ProviderWritesOut(l: Link, n: nat)
    requires l.up && n == |l.desk.outbound|
    ensures Ran(l, Times(ProviderWrites, n)) == l.(desk := l.desk.(outbound := []), asking := l.asking + l.desk.outbound)
    decreases n
  {
    RanTimes(l, ProviderWrites, n);
    if n > 0 {
      ProviderWritesOut(Next(l, ProviderWrites), n - 1);
      assert l.asking + l.desk.outbound == l.asking + [l.desk.outbound[0]] + l.desk.outbound[1..];
    } else {
      assert l.asking + [] == l.asking;
    }
  }

  function Spawned(conn: nat, asking: seq<(QueryId, Ask)>): (tasks: seq<Task>)
    ensures |tasks| == |asking|
  {
    seq(|asking|, i requires 0 <= i < |asking| => Task(conn, asking[i].0, asking[i].1))
  }

  lemma {:induction false} GatewayReadsAll(l: Link, n: nat)
    requires l.up && n == |l.asking|
    ensures Ran(l, Times(GatewayReads, n)) == l.(asking := [], tasks := l.tasks + Spawned(l.conn, l.asking))
    decreases n
  {
    RanTimes(l, GatewayReads, n);
    if n > 0 {
      GatewayReadsAll(Next(l, GatewayReads), n - 1);
      assert Spawned(l.conn, l.asking) == [Task(l.conn, l.asking[0].0, l.asking[0].1)] + Spawned(l.conn, l.asking[1..]);
      assert l.tasks + Spawned(l.conn, l.asking) ==
             l.tasks + [Task(l.conn, l.asking[0].0, l.asking[0].1)] + Spawned(l.conn, l.asking[1..]);
    } else {
      assert l.tasks + Spawned(l.conn, l.asking) == l.tasks;
    }
  }

  // ---- and back

  function FrameOn(conn: nat): Reply -> Option<ResultFrame> {
    (r: Reply) => if r.conn == conn then Some(r.frame) else None
  }

  /** What is queued at the gateway for this connection, in order. */
  function Queued(replies: seq<Reply>, conn: nat): seq<ResultFrame> {
    Pick(replies, FrameOn(conn))
  }

  lemma {:induction false} FirstQueued(replies: seq<Reply>, conn: nat) returns (i: nat)
    requires Queued(replies, conn) != []
    ensures i < |replies| && replies[i].conn == conn && forall j :: 0 <= j < i ==> replies[j].conn != conn
    ensures Queued(replies, conn) == [replies[i].frame] + Queued(Without(replies, i), conn)
  {
    if replies[0].conn == conn {
      i := 0;
      assert Without(replies, 0) == replies[1..];
    } else {
      var j := FirstQueued(replies[1..], conn);
      i := j + 1;
      assert Without(replies, i) == [replies[0]] + Without(replies[1..], j);
      assert ([replies[0]] + Without(replies[1..], j))[1..] == Without(replies[1..], j);
    }
  }

  ghost predicate GatewayWriting(steps: seq<Step>) {
    forall step :: step in steps ==> step.GatewayWrites?
  }

  /** All of it goes out, and nothing else changes. */
  ghost predicate WrittenOut(l: Link, t: Link) {
    && t == l.(replies := t.replies, answering := l.answering + Queued(l.replies, l.conn))
    && Queued(t.replies, l.conn) == []
  }

  lemma {:induction false} GatewayWritesOut(l: Link)
    requires l.up
    ensures exists steps :: GatewayWriting(steps) && WrittenOut(l, Ran(l, steps))
    decreases |Queued(l.replies, l.conn)|
  {
    if Queued(l.replies, l.conn) == [] {
      assert l.answering + [] == l.answering;
      assert Ran(l, []) == l;
      assert GatewayWriting([]) && WrittenOut(l, Ran(l, []));
    } else {
      var i := FirstQueued(l.replies, l.conn);
      var m := Next(l, GatewayWrites(i));
      GatewayWritesOut(m);
      var rest :| GatewayWriting(rest) && WrittenOut(m, Ran(m, rest));
      RanOne(l, GatewayWrites(i), rest);
      OneWrittenFirst(l, i, Ran(m, rest));
      assert GatewayWriting([GatewayWrites(i)] + rest) && WrittenOut(l, Ran(l, [GatewayWrites(i)] + rest));
    }
  }

  lemma {:induction false} OneWrittenFirst(l: Link, i: nat, t: Link)
    requires l.up && i < |l.replies| && l.replies[i].conn == l.conn && forall j :: 0 <= j < i ==> l.replies[j].conn != l.conn
    requires Queued(l.replies, l.conn) == [l.replies[i].frame] + Queued(Without(l.replies, i), l.conn)
    requires WrittenOut(Next(l, GatewayWrites(i)), t)
    ensures WrittenOut(l, t)
  {
    var behind := Queued(Without(l.replies, i), l.conn);
    assert l.answering + ([l.replies[i].frame] + behind) == l.answering + [l.replies[i].frame] + behind;
  }

  /** The question is asked, pending and undecided, on a link that is up. */
  predicate Waits(l: Link, q: QueryId, ask: Ask) {
    l.up && q in l.desk.questions && l.desk.questions[q] == Question(ask, Waiting, None) && q in l.desk.pending
  }

  lemma {:induction false} ProviderReadsUpTo(l: Link, q: QueryId, ask: Ask, front: seq<ResultFrame>, f: ResultFrame)
    requires Waits(l, q, ask) && l.answering == front + [f] && f.queryId == q && forall g :: g in front ==> g.queryId != q
    ensures var t := Ran(l, Times(ProviderReads, |front| + 1));
      q in t.desk.questions && t.desk.questions[q] == Question(ask, Reading(f), None)
    decreases |front|
  {
    RanTimes(l, ProviderReads, |front| + 1);
    var m := Next(l, ProviderReads);
    if front == [] {
      RanTimes(m, ProviderReads, 0);
    } else {
      assert front[0] in front;
      assert m.answering == front[1..] + [f];
      ProviderReadsUpTo(m, q, ask, front[1..], f);
    }
  }

  // ---- there and back

  ghost predicate Carrying(steps: seq<Step>) {
    forall step :: step in steps ==> step.ProviderWrites? || step.GatewayReads? || step.GatewayWrites? || step.ProviderReads?
  }

  /** The question's own task stands last at the gateway, and what is on its way back is as it was. */
  predicate Arrived(l: Link, t: Link, q: QueryId, ask: Ask) {
    && Waits(t, q, ask) && t.conn == l.conn && t.replies == l.replies && t.answering == l.answering
    && t.tasks != [] && t.tasks[|t.tasks| - 1] == Task(t.conn, q, ask)
  }

  lemma {:induction false} PosedArrives(l: Link, q: QueryId, ask: Ask, w: nat, r: nat)
    requires Waits(l, q, ask) && l.desk.outbound != [] && l.desk.outbound[|l.desk.outbound| - 1] == (q, ask)
    requires w == |l.desk.outbound| && r == |l.asking| + w
    ensures Arrived(l, Ran(Ran(l, Times(ProviderWrites, w)), Times(GatewayReads, r)), q, ask)
  {
    ProviderWritesOut(l, w);
    var m := Ran(l, Times(ProviderWrites, w));
    assert m.asking[|m.asking| - 1] == (q, ask);
    GatewayReadsAll(m, r);
  }

  lemma {:induction false} QuestionsArrive(steps: seq<Step>, q: QueryId, ask: Ask)
    requires After(steps).up && q != "" && q !in After(steps).desk.questions
    ensures exists there :: Carrying(there) && Arrived(After(steps), After(steps + [Pose(q, ask)] + there), q, ask)
  {
    var posed := steps + [Pose(q, ask)];
    AfterSnoc(steps, Pose(q, ask));
    var l := After(posed);
    var w := |l.desk.outbound|;
    var r := |l.asking| + w;
    PosedArrives(l, q, ask, w, r);
    var there := Times(ProviderWrites, w) + Times(GatewayReads, r);
    RanIsAfter(posed, Times(ProviderWrites, w));
    RanIsAfter(posed + Times(ProviderWrites, w), Times(GatewayReads, r));
    assert posed + Times(ProviderWrites, w) + Times(GatewayReads, r) == posed + there;
    assert Carrying(there) && Arrived(After(steps), After(posed + there), q, ask);
  }

  /** Nothing on its way back is for `q`. */
  ghost predicate NothingFor(l: Link, q: QueryId) {
    (forall r :: r in l.replies ==> r.frame.queryId != q) && (forall f :: f in l.answering ==> f.queryId != q)
  }

  lemma {:induction false} NothingQueuedFor(replies: seq<Reply>, conn: nat, q: QueryId)
    requires forall r :: r in replies ==> r.frame.queryId != q
    ensures forall f :: f in Queued(replies, conn) ==> f.queryId != q
  {
    if replies != [] {
      assert replies[0] in replies;
      NothingQueuedFor(replies[1..], conn, q);
    }
  }

  /** The frame stands last of what is on its way to the asker, and is the only one for it. */
  ghost predicate OnItsWay(l: Link, q: QueryId, ask: Ask, f: ResultFrame) {
    && Waits(l, q, ask) && f.queryId == q
    && l.answering != [] && l.answering[|l.answering| - 1] == f
    && forall g :: g in l.answering[..|l.answering| - 1] ==> g.queryId != q
  }

  lemma {:induction false} AnswerGoesOut(l: Link, q: QueryId, ask: Ask, f: ResultFrame, before: Link)
    requires Waits(l, q, ask) && f.queryId == q && NothingFor(before, q)
    requires l.replies == before.replies + [Reply(l.conn, f)] && l.answering == before.answering
    ensures exists out :: GatewayWriting(out) && OnItsWay(Ran(l, out), q, ask, f)
  {
    GatewayWritesOut(l);
    var out :| GatewayWriting(out) && WrittenOut(l, Ran(l, out));
    var t := Ran(l, out);
    NothingQueuedFor(before.replies, l.conn, q);
    PickSnoc(before.replies, Reply(l.conn, f), FrameOn(l.conn));
    assert t.answering == before.answering + Queued(before.replies, l.conn) + [f];
    assert t.answering[..|t.answering| - 1] == before.answering + Queued(before.replies, l.conn);
    assert OnItsWay(t, q, ask, f);
  }

  ghost predicate Settled(l: Link, q: QueryId, ask: Ask, f: ResultFrame) {
    q in l.desk.questions && l.desk.questions[q] == Question(ask, Reading(f), None)
  }

  lemma {:induction false} AnswerComesIn(steps: seq<Step>, q: QueryId, ask: Ask, f: ResultFrame)
    requires OnItsWay(After(steps), q, ask, f)
    ensures exists reading :: Carrying(reading) && Settled(After(steps + reading), q, ask, f)
  {
    var l := After(steps);
    var n := |l.answering|;
    ProviderReadsUpTo(l, q, ask, l.answering[..n - 1], f);
    RanIsAfter(steps, Times(ProviderReads, n));
    assert Carrying(Times(ProviderReads, n)) && Settled(After(steps + Times(ProviderReads, n)), q, ask, f);
  }

  ghost predicate BringsBack(steps: seq<Step>, back: seq<Step>, q: QueryId, ask: Ask, f: ResultFrame) {
    Carrying(back) && Settled(After(steps + back), q, ask, f)
  }

  lemma {:induction false} OnItsWayAfter(steps: seq<Step>, q: QueryId, ask: Ask, f: ResultFrame, before: Link)
    requires Waits(After(steps), q, ask) && f.queryId == q && NothingFor(before, q)
    requires After(steps).replies == before.replies + [Reply(After(steps).conn, f)] && After(steps).answering == before.answering
    ensures exists out :: GatewayWriting(out) && OnItsWay(After(steps + out), q, ask, f)
  {
    AnswerGoesOut(After(steps), q, ask, f, before);
    var out :| GatewayWriting(out) && OnItsWay(Ran(After(steps), out), q, ask, f);
    RanIsAfter(steps, out);
  }

  lemma {:induction false} BackInTwo(steps: seq<Step>, out: seq<Step>, reading: seq<Step>, q: QueryId, ask: Ask, f: ResultFrame)
    requires GatewayWriting(out) && Carrying(reading) && Settled(After(steps + out + reading), q, ask, f)
    ensures BringsBack(steps, out + reading, q, ask, f)
  {
    assert steps + out + reading == steps + (out + reading);
  }

  lemma {:induction false} AnswerReachesTheDesk(steps: seq<Step>, q: QueryId, ask: Ask, f: ResultFrame, before: Link)
    requires Waits(After(steps), q, ask) && f.queryId == q && NothingFor(before, q)
    requires After(steps).replies == before.replies + [Reply(After(steps).conn, f)] && After(steps).answering == before.answering
    ensures exists back :: BringsBack(steps, back, q, ask, f)
  {
    OnItsWayAfter(steps, q, ask, f, before);
    var out :| GatewayWriting(out) && OnItsWay(After(steps + out), q, ask, f);
    AnswerComesIn(steps + out, q, ask, f);
    var reading :| Carrying(reading) && Settled(After(steps + out + reading), q, ask, f);
    BackInTwo(steps, out, reading, q, ask, f);
  }

  /** The asker has what the answer says, and its question is off the table. */
  predicate AskerHas(l: Link, q: QueryId, ask: Ask, a: Answer) {
    && q in l.desk.questions && l.desk.questions[q].ask == ask && q !in l.desk.pending
    && (|| (a.Messages? && l.desk.questions[q].verdict == Some(Got(a.result)))
        || (a.Refusal? && l.desk.questions[q].verdict == Some(Raised(a.error))))
  }

  lemma {:induction false} WakingTells(steps: seq<Step>, q: QueryId, ask: Ask, a: Answer)
    requires Settled(After(steps), q, ask, AsFrame(q, a)) && a != NoQueryId
    ensures AskerHas(After(steps + [Wake(q)]), q, ask, a)
  {
    AfterSnoc(steps, Wake(q));
    WakingDelivers(After(steps).desk, q);
  }

  ghost predicate GetsThrough(steps: seq<Step>, q: QueryId, ask: Ask, store: Store, key: Key, there: seq<Step>, i: nat, back: seq<Step>) {
    && Carrying(there) && Carrying(back)
    && AskerHas(After(steps + [Pose(q, ask)] + there + [TaskFinishes(i, store, key)] + back + [Wake(q)]), q, ask,
                AnswerQuery(store, key, AsQuery(q, ask)))
  }

  lemma {:induction false} FinishedGetsThrough(steps: seq<Step>, q: QueryId, ask: Ask, store: Store, key: Key, there: seq<Step>)
    requires q != "" && NothingFor(After(steps), q)
    requires Carrying(there) && Arrived(After(steps), After(steps + [Pose(q, ask)] + there), q, ask)
    ensures exists i: nat, back :: GetsThrough(steps, q, ask, store, key, there, i, back)
  {
    var arrived := steps + [Pose(q, ask)] + there;
    var i := |After(arrived).tasks| - 1;
    var a := AnswerQuery(store, key, AsQuery(q, ask));
    var finished := arrived + [TaskFinishes(i, store, key)];
    AfterSnoc(arrived, TaskFinishes(i, store, key));
    AnswerReachesTheDesk(finished, q, ask, AsFrame(q, a), After(steps));
    var back :| BringsBack(finished, back, q, ask, AsFrame(q, a));
    WakingTells(finished + back, q, ask, a);
    assert GetsThrough(steps, q, ask, store, key, there, i, back);
  }

  /**
   In every reachable state with the link up, whatever else is asked, answered or
   left over from earlier sockets: a new question can be carried to the gateway,
   answered there out of whatever store it then has, and its asker told just that.
   */
  lemma {:induction false} QuestionsGetThrough(steps: seq<Step>, q: QueryId, ask: Ask, store: Store, key: Key)
    requires After(steps).up && q != "" && q !in After(steps).desk.questions
    ensures exists there, i: nat, back :: GetsThrough(steps, q, ask, store, key, there, i, back)
  {
    NothingYetFor(steps, q);
    QuestionsArrive(steps, q, ask);
    var there :| Carrying(there) && Arrived(After(steps), After(steps + [Pose(q, ask)] + there), q, ask);
    FinishedGetsThrough(steps, q, ask, store, key, there);
  }

  lemma {:induction false} NothingYetFor(steps: seq<Step>, q: QueryId)
    requires q !in After(steps).desk.questions
    ensures NothingFor(After(steps), q)
  {
    AfterOk(steps);
    var l := After(steps);
    forall r | r in l.replies ensures r.frame.queryId != q { assert FrameKnown(Answers(steps), l.desk, r.frame); }
    forall f | f in l.answering ensures f.queryId != q { assert FrameKnown(Answers(steps), l.desk, f); }
  }

  // ---- who is told messages

  /** The thread is there, the key serves it, and it is unbound or the key is one of its parties. */
  predicate Entitled(store: Store, threadId: string, key: Key) {
    && threadId in store && store[threadId].providerKey == key
    && (store[threadId].parties == None || key in store[threadId].parties.value)
  }

  ghost predicate ReadByAParty(steps: seq<Step>, j: nat, q: QueryId, ask: Ask, m: seq<Message>) {
    && ComputedAt(steps, j, q, ask) && Entitled(steps[j].store, ask.thread, steps[j].key)
    && |m| <= |steps[j].store[ask.thread].messages|
    && m == steps[j].store[ask.thread].messages[|steps[j].store[ask.thread].messages| - |m|..]
  }

  /** Over any run: an asker gets messages only out of a thread that its key served, and of which it was a party if the thread was bound. */
  lemma {:induction false} OnlyPartiesGetMessages(steps: seq<Step>, q: QueryId, m: seq<Message>)
    requires q in After(steps).desk.questions && After(steps).desk.questions[q].verdict == Some(Got(m))
    ensures exists j: nat :: ReadByAParty(steps, j, q, After(steps).desk.questions[q].ask, m)
  {
    AnsweredByItsOwn(steps, q, m);
    var ask := After(steps).desk.questions[q].ask;
    var j: nat :| AnsweredAt(steps, j, q, ask, m);
    AnswerIsASuffix(steps[j].store, steps[j].key, AsQuery(q, ask));
    assert ReadByAParty(steps, j, q, ask, m);
  }

  // ---- frames that never arrive

  /** A frame lost with its socket leaves its question waiting. */
  lemma {:induction false} LostQuestionWaits(steps: seq<Step>, q: QueryId, ask: Ask, rest: seq<(QueryId, Ask)>)
    requires Waits(After(steps), q, ask) && After(steps).desk.outbound == [(q, ask)] + rest
    ensures var l, t := After(steps), After(steps + [ProviderLoses]);
      t == l.(desk := l.desk.(outbound := rest)) && Waits(t, q, ask)
  {
    AfterSnoc(steps, ProviderLoses);
  }

  /** A wait ends as it is cut: in the clock's words, or as the asker's own cancellation; and the end of the connection ends it in its own. */
  lemma {:induction false} WaitEnds(steps: seq<Step>, q: QueryId, ask: Ask)
    requires Waits(After(steps), q, ask)
    ensures Raises(After(steps + [Timeout(q)]), q, TIMED_OUT) && q !in After(steps + [Timeout(q)]).desk.pending
    ensures var t := After(steps + [Cancel(q)]).desk; q in t.questions && t.questions[q].verdict == Some(Stopped) && q !in t.pending
    ensures Raises(After(steps + [Drop] + [Wake(q)]), q, CLOSED) && After(steps + [Drop]).desk.pending == {}
  {
    AfterSnoc(steps, Timeout(q));
    CuttingEnds(After(steps).desk, q, Raised(TIMED_OUT));
    AfterSnoc(steps, Cancel(q));
    CuttingEnds(After(steps).desk, q, Stopped);
    TeardownFailsWhatWaits(steps, q);
    AfterSnoc(steps + [Drop], Wake(q));
  }

  predicate Raises(l: Link, q: QueryId, reason: string) {
    q in l.desk.questions && l.desk.questions[q].verdict == Some(Raised(reason))
  }

  /** A link that is down comes up again with nothing on its wires and its questions as they were. */
  lemma {:induction false} ConnectStartsAfresh(steps: seq<Step>)
    requires !After(steps).up
    ensures var l, t := After(steps), After(steps + [Connect]);
      t == l.(conn := l.conn + 1, up := true, asking := [], answering := [])
  {
    AfterSnoc(steps, Connect);
  }
}
