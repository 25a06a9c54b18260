/**
 The provider link with questions on it: one asking side, a gateway that spawns
 a task per question on whatever connection it arrived, and sockets that come
 and go underneath.
 */
module ProviderLink {
  import opened Seqs
  import opened ThreadReads
  import opened ProviderQueries

  /** A spawned gateway task: it answers on the connection it was asked on. */
  datatype Task = Task(conn: nat, queryId: QueryId, ask: Ask)

  /** A result queued at the gateway for connection `conn`. */
  datatype Reply = Reply(conn: nat, frame: ResultFrame)

  /**
   `conn` counts connections; `up` is whether the latest is open. `asking` and
   `answering` are the two directions of its wire. Tasks and replies of earlier
   connections may linger.
   */
  datatype Link = Link(
    desk: Desk,
    conn: nat,
    up: bool,
    asking: seq<(QueryId, Ask)>,
    tasks: seq<Task>,
    replies: seq<Reply>,
    answering: seq<ResultFrame>
  )

  const START := Link(Desk(map[], {}, []), 0, false, [], [], [], [])

  datatype Step =
    | Pose(q: QueryId, ask: Ask)
    | Connect
    | ProviderWrites
    /** The frame the writer had in hand when its socket died. */
    | ProviderLoses
    | GatewayReads
    /** Task `i` finishes, whichever one it is, with the store as it is just then. */
    | TaskFinishes(i: nat, store: Store, key: Key)
    | GatewayWrites(i: nat)
    | ProviderReads
    | Timeout(q: QueryId)
    | Cancel(q: QueryId)
    | Wake(q: QueryId)
    | Drop

  function AsQuery(q: QueryId, ask: Ask): Query {
    Query(Some(q), "thread_messages", Some(ask.thread), ask.limit)
  }

  /** The frame an answer goes out as. */
  function AsFrame(q: QueryId, a: Answer): ResultFrame {
    match a
    case Messages(_, result) => ResultFrame(q, None, Some(result))
    case Refusal(_, error) => ResultFrame(q, Some(error), None)
    case NoQueryId => ResultFrame(q, Some(""), None)
  }

  /** What a task puts out when it finishes on this store. */
  function Computed(t: Task, store: Store, key: Key): ResultFrame {
    AsFrame(t.queryId, AnswerQuery(store, key, AsQuery(t.queryId, t.ask)))
  }

  function Without<T>(s: seq<T>, i: nat): seq<T>
    requires i < |s|
  {
    s[..i] + s[i + 1..]
  }

  function Next(l: Link, step: Step): Link {
    match step
    case Pose(q, ask) => if q == "" || q in l.desk.questions then l else l.(desk := Posed(l.desk, q, ask))
    case Connect => if l.up then l else l.(conn := l.conn + 1, up := true, asking := [], answering := [])
    case ProviderWrites =>
      if !l.up || l.desk.outbound == [] then l
      else l.(asking := l.asking + [l.desk.outbound[0]], desk := l.desk.(outbound := l.desk.outbound[1..]))
    case ProviderLoses =>
      if l.desk.outbound == [] then l else l.(desk := l.desk.(outbound := l.desk.outbound[1..]))
    case GatewayReads =>
      if !l.up || l.asking == [] then l
      else l.(asking := l.asking[1..], tasks := l.tasks + [Task(l.conn, l.asking[0].0, l.asking[0].1)])
    case TaskFinishes(i, store, key) =>
      if i >= |l.tasks| then l
      else
        var t := l.tasks[i];
        l.(tasks := Without(l.tasks, i), replies := l.replies + [Reply(t.conn, Computed(t, store, key))])
    case GatewayWrites(i) =>
      // a writer serves its own connection, oldest reply first
      if !l.up || i >= |l.replies| || l.replies[i].conn != l.conn || (exists j :: 0 <= j < i && l.replies[j].conn == l.conn) then l
      else l.(replies := Without(l.replies, i), answering := l.answering + [l.replies[i].frame])
    case ProviderReads =>
      if !l.up || l.answering == [] then l
      else l.(answering := l.answering[1..], desk := Resolved(l.desk, l.answering[0]))
    case Timeout(q) => l.(desk := CutShort(l.desk, q, Raised(TIMED_OUT)))
    case Cancel(q) => l.(desk := CutShort(l.desk, q, Stopped))
    case Wake(q) => l.(desk := Woken(l.desk, q))
    case Drop => if !l.up then l else l.(up := false, asking := [], answering := [], desk := PendingFailed(l.desk, CLOSED))
  }

  function After(steps: seq<Step>): Link {
    if steps == [] then START else Next(After(steps[..|steps| - 1]), steps[|steps| - 1])
  }

  // ---- what holds throughout

  /** An answer together with the question its task was spawned for. */
  type Answered = (ResultFrame, Ask)

  /** Every answer that a task of this run has computed so far. */
  function Answers(steps: seq<Step>): set<Answered> {
    if steps == [] then {}
    else
      var prefix, last := steps[..|steps| - 1], steps[|steps| - 1];
      Answers(prefix) + Computing(After(prefix), last)
  }

  function Computing(l: Link, step: Step): set<Answered> {
    if step.TaskFinishes? && step.i < |l.tasks|
    then {(Computed(l.tasks[step.i], step.store, step.key), l.tasks[step.i].ask)}
    else {}
  }

  /** Step `j` of the run is the one in which a task spawned for question `q` read the store it was given there. */
  ghost predicate ComputedAt(steps: seq<Step>, j: nat, q: QueryId, ask: Ask) {
    && j < |steps| && steps[j].TaskFinishes?
    && var tasks := After(steps[..j]).tasks;
       steps[j].i < |tasks| && tasks[steps[j].i].queryId == q && tasks[steps[j].i].ask == ask
  }

  lemma {:induction false} AnswerHasItsStep(steps: seq<Step>, f: ResultFrame, ask: Ask) returns (j: nat)
    requires (f, ask) in Answers(steps)
    ensures ComputedAt(steps, j, f.queryId, ask)
    ensures f == AsFrame(f.queryId, AnswerQuery(steps[j].store, steps[j].key, AsQuery(f.queryId, ask)))
    decreases |steps|
  {
    var prefix, last := steps[..|steps| - 1], steps[|steps| - 1];
    if (f, ask) in Answers(prefix) {
      j := AnswerHasItsStep(prefix, f, ask);
      assert prefix[..j] == steps[..j];
    } else {
      j := |steps| - 1;
    }
  }

  ghost predicate AskKnown(d: Desk, q: QueryId, ask: Ask) {
    q in d.questions && d.questions[q].ask == ask
  }

  ghost predicate FrameKnown(known: set<Answered>, d: Desk, f: ResultFrame) {
    f.queryId in d.questions && (f, d.questions[f.queryId].ask) in known
  }

  /** A settled question was settled by an answer computed for it, or by the end of its connection; a wait ends so, or is cut short. */
  ghost predicate QuestionOk(known: set<Answered>, q: QueryId, question: Question, pending: bool) {
    && (question.future.Result? || question.future.Failure? ==>
          question.future == Failure(CLOSED) || exists f: ResultFrame :: f.queryId == q && (f, question.ask) in known && Reading(f) == question.future)
    && (match question.verdict
        case None => question.future != Cancelled
        case Some(Got(m)) => question.future == Result(m)
        case Some(Raised(r)) => question.future == Failure(r) || r == TIMED_OUT
        case Some(Stopped) => true)
    && (question.verdict == None && !pending ==> question.future != Waiting)
    && (question.future == Waiting ==> question.verdict == None)
  }

  ghost predicate DeskOk(known: set<Answered>, d: Desk) {
    && d.pending <= d.questions.Keys
    && (forall q :: q in d.questions ==> QuestionOk(known, q, d.questions[q], q in d.pending))
  }

  ghost predicate LinkOk(known: set<Answered>, l: Link) {
    && DeskOk(known, l.desk)
    && (forall a :: a in l.desk.outbound ==> AskKnown(l.desk, a.0, a.1))
    && (forall a :: a in l.asking ==> AskKnown(l.desk, a.0, a.1))
    && (forall t :: t in l.tasks ==> AskKnown(l.desk, t.queryId, t.ask))
    && (forall r :: r in l.replies ==> FrameKnown(known, l.desk, r.frame))
    && (forall f :: f in l.answering ==> FrameKnown(known, l.desk, f))
  }

  /** `e` remembers every question of `d`, with the same ask, and every verdict already given. */
  ghost predicate Remembers(d: Desk, e: Desk) {
    forall q :: q in d.questions ==>
      && q in e.questions && e.questions[q].ask == d.questions[q].ask
      && (d.questions[q].future != Waiting ==> e.questions[q].future == d.questions[q].future)
      && (d.questions[q].verdict.Some? ==> e.questions[q] == d.questions[q])
  }

  lemma ResolvedOk(known: set<Answered>, d: Desk, f: ResultFrame)
    requires DeskOk(known, d) && FrameKnown(known, d, f)
    ensures DeskOk(known, Resolved(d, f)) && Remembers(d, Resolved(d, f))
  {
    var e := Resolved(d, f);
    forall q | q in e.questions ensures QuestionOk(known, q, e.questions[q], q in e.pending) {
      assert QuestionOk(known, q, d.questions[q], q in d.pending);
    }
  }

  lemma PendingFailedOk(known: set<Answered>, d: Desk)
    requires DeskOk(known, d)
    ensures DeskOk(known, PendingFailed(d, CLOSED)) && Remembers(d, PendingFailed(d, CLOSED))
  {
    var e := PendingFailed(d, CLOSED);
    forall q | q in e.questions ensures QuestionOk(known, q, e.questions[q], false) {
      assert QuestionOk(known, q, d.questions[q], q in d.pending);
    }
  }

  lemma WokenOk(known: set<Answered>, d: Desk, q: QueryId)
    requires DeskOk(known, d)
    ensures DeskOk(known, Woken(d, q)) && Remembers(d, Woken(d, q))
  {
    var e := Woken(d, q);
    forall p | p in e.questions ensures QuestionOk(known, p, e.questions[p], p in e.pending) {
      assert QuestionOk(known, p, d.questions[p], p in d.pending);
    }
  }

  lemma CutShortOk(known: set<Answered>, d: Desk, q: QueryId, v: Verdict)
    requires DeskOk(known, d) && (v == Raised(TIMED_OUT) || v == Stopped)
    ensures DeskOk(known, CutShort(d, q, v)) && Remembers(d, CutShort(d, q, v))
  {
    var e := CutShort(d, q, v);
    forall p | p in e.questions ensures QuestionOk(known, p, e.questions[p], p in e.pending) {
      assert QuestionOk(known, p, d.questions[p], p in d.pending);
    }
  }

  lemma PosedOk(known: set<Answered>, d: Desk, q: QueryId, ask: Ask)
    requires DeskOk(known, d) && q !in d.questions
    ensures DeskOk(known, Posed(d, q, ask)) && Remembers(d, Posed(d, q, ask))
  {
    var e := Posed(d, q, ask);
    forall p | p in e.questions ensures QuestionOk(known, p, e.questions[p], p in e.pending) {
      if p != q { assert QuestionOk(known, p, d.questions[p], p in d.pending); }
    }
  }

  /** What is known of the frames in flight stays known as long as the desk remembers. */
  lemma StillKnown(known: set<Answered>, l: Link, e: Desk)
    requires LinkOk(known, l) && DeskOk(known, e) && Remembers(l.desk, e)
    requires forall a :: a in e.outbound ==> a in l.desk.outbound || AskKnown(e, a.0, a.1)
    ensures LinkOk(known, l.(desk := e))
  {
    forall a | a in l.desk.outbound ensures AskKnown(e, a.0, a.1) { assert AskKnown(l.desk, a.0, a.1); }
    forall a | a in l.asking ensures AskKnown(e, a.0, a.1) { assert AskKnown(l.desk, a.0, a.1); }
    forall t | t in l.tasks ensures AskKnown(e, t.queryId, t.ask) { assert AskKnown(l.desk, t.queryId, t.ask); }
    forall r | r in l.replies ensures FrameKnown(known, e, r.frame) { assert FrameKnown(known, l.desk, r.frame); }
    forall f | f in l.answering ensures FrameKnown(known, e, f) { assert FrameKnown(known, l.desk, f); }
  }

  lemma MoreKnown(known: set<Answered>, more: set<Answered>, l: Link)
    requires LinkOk(known, l) && known <= more
    ensures LinkOk(more, l)
  {
    forall q | q in l.desk.questions ensures QuestionOk(more, q, l.desk.questions[q], q in l.desk.pending) {
      assert QuestionOk(known, q, l.desk.questions[q], q in l.desk.pending);
    }
    forall r | r in l.replies ensures FrameKnown(more, l.desk, r.frame) { assert FrameKnown(known, l.desk, r.frame); }
    forall f | f in l.answering ensures FrameKnown(more, l.desk, f) { assert FrameKnown(known, l.desk, f); }
  }

  lemma NextOk(known: set<Answered>, l: Link, step: Step)
    requires LinkOk(known, l) && Computing(l, step) <= known
    ensures LinkOk(known, Next(l, step)) && Remembers(l.desk, Next(l, step).desk)
  {
    match step
    case Pose(q, ask) =>
      if q != "" && q !in l.desk.questions {
        PosedOk(known, l.desk, q, ask);
        StillKnown(known, l, Posed(l.desk, q, ask));
      }
    case ProviderReads =>
      if l.up && l.answering != [] {
        ResolvedOk(known, l.desk, l.answering[0]);
        StillKnown(known, l, Resolved(l.desk, l.answering[0]));
      }
    case Timeout(q) => CutShortOk(known, l.desk, q, Raised(TIMED_OUT)); StillKnown(known, l, CutShort(l.desk, q, Raised(TIMED_OUT)));
    case Cancel(q) => CutShortOk(known, l.desk, q, Stopped); StillKnown(known, l, CutShort(l.desk, q, Stopped));
    case Wake(q) => WokenOk(known, l.desk, q); StillKnown(known, l, Woken(l.desk, q));
    case Drop => PendingFailedOk(known, l.desk); StillKnown(known, l, PendingFailed(l.desk, CLOSED));
    case TaskFinishes(i, store, key) =>
      if i < |l.tasks| { TaskFinishesOk(known, l, i, store, key); }
    case _ => TransportOk(known, l, step);
  }

  lemma TaskFinishesOk(known: set<Answered>, l: Link, i: nat, store: Store, key: Key)
    requires LinkOk(known, l) && i < |l.tasks| && (Computed(l.tasks[i], store, key), l.tasks[i].ask) in known
    ensures LinkOk(known, Next(l, TaskFinishes(i, store, key)))
  {
    assert l.tasks[i] in l.tasks;
    assert FrameKnown(known, l.desk, Computed(l.tasks[i], store, key));
  }

  lemma TransportOk(known: set<Answered>, l: Link, step: Step)
    requires LinkOk(known, l)
    requires step.Connect? || step.ProviderWrites? || step.ProviderLoses? || step.GatewayReads? || step.GatewayWrites?
    ensures LinkOk(known, Next(l, step)) && Remembers(l.desk, Next(l, step).desk)
  {
    if step.GatewayReads? && l.up && l.asking != [] {
      assert l.asking[0] in l.asking;
    }
    if step.GatewayWrites? && step.i < |l.replies| {
      assert l.replies[step.i] in l.replies;
    }
  }

  lemma {:induction false} AfterOk(steps: seq<Step>)
    ensures LinkOk(Answers(steps), After(steps))
  {
    if steps != [] {
      var prefix, last := steps[..|steps| - 1], steps[|steps| - 1];
      AfterOk(prefix);
      MoreKnown(Answers(prefix), Answers(steps), After(prefix));
      NextOk(Answers(steps), After(prefix), last);
    }
  }

  // ---- the theorems

  lemma {:induction false} AfterOneMore(all: seq<Step>, prefix: seq<Step>, last: Step)
    requires all == prefix + [last]
    ensures After(all) == Next(After(prefix), last)
  {
    assert all[..|all| - 1] == prefix;
  }

  lemma RemembersOn(d: Desk, e: Desk, f: Desk)
    requires Remembers(d, e) && Remembers(e, f)
    ensures Remembers(d, f)
  {
  }

  lemma {:induction false} OneStepRemembers(steps: seq<Step>, last: Step)
    ensures Remembers(After(steps).desk, Next(After(steps), last).desk)
  {
    AfterOk(steps);
    var known := Answers(steps) + Computing(After(steps), last);
    MoreKnown(Answers(steps), known, After(steps));
    NextOk(known, After(steps), last);
  }

  lemma {:induction false} DeskRemembers(steps: seq<Step>, more: seq<Step>)
    ensures Remembers(After(steps).desk, After(steps + more).desk)
    decreases |more|
  {
    if more == [] {
      assert steps + more == steps;
    } else {
      var fewer, last := more[..|more| - 1], more[|more| - 1];
      DeskRemembers(steps, fewer);
      OneStepRemembers(steps + fewer, last);
      AfterOneMore(steps + more, steps + fewer, last);
      RemembersOn(After(steps).desk, After(steps + fewer).desk, After(steps + more).desk);
    }
  }

  /** A question settles at most once: whatever happens afterwards, its verdict stands. */
  lemma {:induction false} VerdictsAreFinal(steps: seq<Step>, more: seq<Step>, q: QueryId)
    requires q in After(steps).desk.questions && After(steps).desk.questions[q].verdict.Some?
    ensures q in After(steps + more).desk.questions
    ensures After(steps + more).desk.questions[q] == After(steps).desk.questions[q]
  {
    DeskRemembers(steps, more);
  }

  /** A question the asker got messages for was answered: by a task spawned for it, with what that task read out of the store it had. */
  ghost predicate AnsweredAt(steps: seq<Step>, j: nat, q: QueryId, ask: Ask, m: seq<Message>) {
    ComputedAt(steps, j, q, ask) && AnswerQuery(steps[j].store, steps[j].key, AsQuery(q, ask)) == Messages(q, m)
  }

  /**
   The messages an asker gets were read in a step of the run, out of the store
   of that step, by a task spawned for this very question.
   */
  lemma {:induction false} AnsweredByItsOwn(steps: seq<Step>, q: QueryId, m: seq<Message>)
    requires q in After(steps).desk.questions && After(steps).desk.questions[q].verdict == Some(Got(m))
    ensures Pose(q, After(steps).desk.questions[q].ask) in steps
    ensures exists j: nat :: AnsweredAt(steps, j, q, After(steps).desk.questions[q].ask, m)
  {
    AfterOk(steps);
    var ask := After(steps).desk.questions[q].ask;
    assert QuestionOk(Answers(steps), q, After(steps).desk.questions[q], q in After(steps).desk.pending);
    var f: ResultFrame :| f.queryId == q && (f, ask) in Answers(steps) && Reading(f) == Result(m);
    var j := AnswerHasItsStep(steps, f, ask);
    assert AnsweredAt(steps, j, q, ask, m);
    WasPosed(steps, q);
  }

  /** Likewise a failure that is neither the connection's end nor the clock is the gateway's own refusal of this question. */
  lemma {:induction false} RefusedByItsOwn(steps: seq<Step>, q: QueryId, reason: string)
    requires q in After(steps).desk.questions && After(steps).desk.questions[q].verdict == Some(Raised(reason))
    requires reason != CLOSED && reason != TIMED_OUT
    ensures var ask := After(steps).desk.questions[q].ask;
      exists j: nat :: ComputedAt(steps, j, q, ask) && AsFrame(q, AnswerQuery(steps[j].store, steps[j].key, AsQuery(q, ask))).error == Some(reason)
  {
    AfterOk(steps);
    var ask := After(steps).desk.questions[q].ask;
    assert QuestionOk(Answers(steps), q, After(steps).desk.questions[q], q in After(steps).desk.pending);
    var f: ResultFrame :| f.queryId == q && (f, ask) in Answers(steps) && Reading(f) == Failure(reason);
    var j := AnswerHasItsStep(steps, f, ask);
    assert ComputedAt(steps, j, q, ask);
  }

  lemma {:induction false} WasPosed(steps: seq<Step>, q: QueryId)
    requires q in After(steps).desk.questions
    ensures Pose(q, After(steps).desk.questions[q].ask) in steps
    decreases |steps|
  {
    assert steps != [];
    var prefix, last := steps[..|steps| - 1], steps[|steps| - 1];
    assert steps == prefix + [last];
    if q in After(prefix).desk.questions {
      WasPosed(prefix, q);
      DeskRemembers(prefix, [last]);
    } else {
      assert last == Pose(q, After(steps).desk.questions[q].ask);
    }
  }

  /** When a connection ends, every question still waiting is failed there and then, and nothing is left pending. */
  lemma {:induction false} TeardownFailsWhatWaits(steps: seq<Step>, q: QueryId)
    requires After(steps).up && q in After(steps).desk.questions && After(steps).desk.questions[q].future == Waiting
    ensures After(steps + [Drop]).desk.pending == {}
    ensures q in After(steps + [Drop]).desk.questions
    ensures After(steps + [Drop]).desk.questions[q].future == Failure(CLOSED)
    ensures Woken(After(steps + [Drop]).desk, q).questions[q].verdict == Some(Raised(CLOSED))
  {
    AfterOk(steps);
    assert QuestionOk(Answers(steps), q, After(steps).desk.questions[q], q in After(steps).desk.pending);
    AfterOneMore(steps + [Drop], steps, Drop);
  }

  /** An answer to a question no longer waiting, whatever settled it, leaves the whole desk as it was. */
  lemma {:induction false} LateAnswersChangeNothing(steps: seq<Step>)
    requires var l := After(steps);
      l.answering != [] &&
      (l.answering[0].queryId in l.desk.questions ==> l.desk.questions[l.answering[0].queryId].future != Waiting)
    ensures After(steps + [ProviderReads]).desk == After(steps).desk
  {
    assert (steps + [ProviderReads])[..|steps|] == steps;
  }

  /**
   A question that is failed never gets messages, even if the gateway later
   answers it on another socket: its asker is told that the connection closed,
   unless its wait is cut short first.
   */
  lemma {:induction false} FailedQuestionsStayFailed(steps: seq<Step>, more: seq<Step>, q: QueryId)
    requires After(steps).up && q in After(steps).desk.questions && After(steps).desk.questions[q].future == Waiting
    ensures var l := After(steps + [Drop] + more);
            q in l.desk.questions && l.desk.questions[q].future == Failure(CLOSED) &&
            l.desk.questions[q].verdict in {None, Some(Raised(CLOSED)), Some(Raised(TIMED_OUT)), Some(Stopped)}
  {
    TeardownFailsWhatWaits(steps, q);
    DeskRemembers(steps + [Drop], more);
    AfterOk(steps + [Drop] + more);
    FailedReads(Answers(steps + [Drop] + more), q, After(steps + [Drop] + more).desk);
  }

  lemma FailedReads(known: set<Answered>, q: QueryId, d: Desk)
    requires DeskOk(known, d) && q in d.questions && d.questions[q].future == Failure(CLOSED)
    ensures d.questions[q].verdict in {None, Some(Raised(CLOSED)), Some(Raised(TIMED_OUT)), Some(Stopped)}
  {
    assert QuestionOk(known, q, d.questions[q], q in d.pending);
  }
}
