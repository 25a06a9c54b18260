/**
 Questions a provider asks over its link, and the answers that may come back
 late, out of order, on another socket, or never.
 */
module ProviderQueries {
  import opened Seqs
  import opened ThreadReads

  type QueryId = string

  datatype Ask = Ask(thread: string, limit: Option<int>)

  /** What the asking coroutine is waiting on. */
  datatype Future = Waiting | Result(messages: seq<Message>) | Failure(reason: string) | Cancelled

  /** What the asking coroutine got; `Stopped` if it was itself cancelled while it waited. */
  datatype Verdict = Got(messages: seq<Message>) | Raised(reason: string) | Stopped

  datatype Question = Question(ask: Ask, future: Future, verdict: Option<Verdict>)

  /** The asking side: every question ever asked, the ids in the pending table, and the outbound queue. */
  datatype Desk = Desk(questions: map<QueryId, Question>, pending: set<QueryId>, outbound: seq<(QueryId, Ask)>)

  /** A `queryResult` frame. */
  datatype ResultFrame = ResultFrame(queryId: QueryId, error: Option<string>, result: Option<seq<Message>>)

  const CLOSED := "souk connection closed"
  const TIMED_OUT := "souk did not answer in time"

  function Put(d: Desk, q: QueryId, question: Question): Desk {
    d.(questions := d.questions[q := question])
  }

  function Posed(d: Desk, q: QueryId, ask: Ask): Desk {
    Desk(d.questions[q := Question(ask, Waiting, None)], d.pending + {q}, d.outbound + [(q, ask)])
  }

  function Reading(f: ResultFrame): Future {
    match f.error
    case Some(e) => Failure(e)
    case None => Result(match f.result case Some(r) => r case None => [])
  }

  function Resolved(d: Desk, f: ResultFrame): Desk {
    var q := f.queryId;
    if q !in d.pending || q !in d.questions || d.questions[q].future != Waiting then d
    else Put(d, q, d.questions[q].(future := Reading(f)))
  }

  function Failed(question: Question, reason: string): Question {
    if question.future == Waiting then question.(future := Failure(reason)) else question
  }

  function PendingFailed(d: Desk, reason: string): Desk {
    Desk(map q | q in d.questions :: if q in d.pending then Failed(d.questions[q], reason) else d.questions[q],
         {}, d.outbound)
  }

  /** The coroutine resumes on its settled future, and leaves the table. */
  function Woken(d: Desk, q: QueryId): Desk {
    if q !in d.questions || d.questions[q].verdict.Some? then d
    else
      match d.questions[q].future
      case Result(m) => Put(d, q, d.questions[q].(verdict := Some(Got(m)))).(pending := d.pending - {q})
      case Failure(r) => Put(d, q, d.questions[q].(verdict := Some(Raised(r)))).(pending := d.pending - {q})
      case _ => d
  }

  /**
   The wait is cut short, by its timeout or because the asker is cancelled. That
   may still happen when the future is settled and the coroutine has not resumed.
   */
  function CutShort(d: Desk, q: QueryId, verdict: Verdict): Desk {
    if q !in d.questions || d.questions[q].verdict.Some? then d
    else
      var future := if d.questions[q].future == Waiting then Cancelled else d.questions[q].future;
      Put(d, q, d.questions[q].(future := future, verdict := Some(verdict))).(pending := d.pending - {q})
  }

  // ---- what the events mean

  /** `e` is `d` but for the one question and its entry. */
  ghost predicate OthersSame(d: Desk, e: Desk, q: QueryId) {
    && e.questions.Keys == d.questions.Keys && e.outbound == d.outbound
    && (forall p :: p in d.questions && p != q ==> e.questions[p] == d.questions[p])
    && (forall p :: p != q ==> (p in e.pending <==> p in d.pending))
  }

  /** The answer to a pending question settles it, an error before a result, and a frame with neither as no messages; nobody has resumed by that. */
  lemma AnswerSettles(d: Desk, f: ResultFrame, ask: Ask)
    requires f.queryId in d.pending && f.queryId in d.questions && d.questions[f.queryId] == Question(ask, Waiting, None)
    ensures var e := Resolved(d, f);
      && OthersSame(d, e, f.queryId) && e.pending == d.pending && f.queryId in e.questions
      && (forall error :: f.error == Some(error) ==> e.questions[f.queryId] == Question(ask, Failure(error), None))
      && (forall m :: f.error == None && f.result == Some(m) ==> e.questions[f.queryId] == Question(ask, Result(m), None))
      && (f.error == None && f.result == None ==> e.questions[f.queryId] == Question(ask, Result([]), None))
  {
  }

  /** A settled asker resumes with what its future holds, and leaves the table; one that waits does not resume. */
  lemma WakingDelivers(d: Desk, q: QueryId)
    requires q in d.questions && d.questions[q].verdict == None
    ensures var e := Woken(d, q); var question := d.questions[q];
      && OthersSame(d, e, q) && q in e.questions
      && (forall m :: question.future == Result(m) ==> e.questions[q] == question.(verdict := Some(Got(m))) && q !in e.pending)
      && (forall r :: question.future == Failure(r) ==> e.questions[q] == question.(verdict := Some(Raised(r))) && q !in e.pending)
      && (question.future == Waiting ==> e == d)
  {
  }

  /** A wait cut short ends as it is told, and leaves the table; what the future already held it keeps. */
  lemma CuttingEnds(d: Desk, q: QueryId, v: Verdict)
    requires q in d.questions && d.questions[q].verdict == None
    ensures var e := CutShort(d, q, v);
      && OthersSame(d, e, q) && q in e.questions && q !in e.pending
      && e.questions[q].verdict == Some(v) && e.questions[q].ask == d.questions[q].ask
      && e.questions[q].future == if d.questions[q].future == Waiting then Cancelled else d.questions[q].future
  {
  }

  // ---- the object

  class Waiter {
    var future: Future

    constructor ()
      ensures future == Waiting
    {
      future := Waiting;
    }
  }

  class SoukProvider {
    var outbound: seq<(QueryId, Ask)>
    var pending: map<QueryId, Waiter>
    /** Every waiter ever made: the coroutine keeps its own after the table lets go of it. */
    ghost var waiters: map<QueryId, Waiter>
    ghost var model: Desk

    ghost predicate Valid()
      reads this, waiters.Values
    {
      && model.questions.Keys == waiters.Keys
      && model.pending == pending.Keys <= waiters.Keys
      && model.outbound == outbound
      && (forall q :: q in pending ==> waiters[q] == pending[q])
      && (forall p, q :: p in waiters && q in waiters && waiters[p] == waiters[q] ==> p == q)
      && (forall q :: q in waiters ==> waiters[q].future == model.questions[q].future)
    }

    constructor ()
      ensures Valid() && model == Desk(map[], {}, [])
    {
      outbound, pending, waiters, model := [], map[], map[], Desk(map[], {}, []);
    }

    /** `thread_messages` up to its await, under an id that has just been drawn. */
    method Pose(q: QueryId, ask: Ask) returns (waiter: Waiter)
      requires Valid() && q !in waiters
      modifies this
      ensures Valid() && fresh(waiter) && waiters == old(waiters)[q := waiter]
      ensures model == Posed(old(model), q, ask)
    {
      waiter := new Waiter();
      pending := pending[q := waiter];
      outbound := outbound + [(q, ask)];
      waiters, model := waiters[q := waiter], Posed(model, q, ask);
    }

    method ResolveQuery(f: ResultFrame)
      requires Valid()
      modifies this`model, waiters.Values
      ensures Valid()
      ensures model == Resolved(old(model), f)
    {
      model := Resolved(model, f);
      if f.queryId !in pending || pending[f.queryId].future != Waiting {
        return;
      }
      var waiter := pending[f.queryId];
      match f.error
      case Some(e) => waiter.future := Failure(e);
      case None => waiter.future := Result(match f.result case Some(r) => r case None => []);
    }

    method FailPendingQueries(reason: string)
      requires Valid()
      modifies this`model, this`pending, waiters.Values
      ensures Valid()
      ensures model == PendingFailed(old(model), reason)
    {
      var todo := pending.Keys;
      while todo != {}
        modifies waiters.Values
        invariant todo <= pending.Keys
        invariant forall q :: q in waiters ==>
          waiters[q].future == (if q in pending && q !in todo then Failed(model.questions[q], reason) else model.questions[q]).future
      {
        var q :| q in todo;
        var waiter := pending[q];
        if waiter.future == Waiting {
          waiter.future := Failure(reason);
        }
        todo := todo - {q};
      }
      pending := map[];
      model := PendingFailed(model, reason);
    }

    /** The end of the await: what the coroutine gets, and its `finally`. */
    method Collect(q: QueryId, waiter: Waiter) returns (v: Verdict)
      requires Valid() && q in waiters && waiters[q] == waiter
      requires model.questions[q].verdict == None && (waiter.future.Result? || waiter.future.Failure?)
      modifies this`model, this`pending
      ensures Valid()
      ensures model == Woken(old(model), q) && model.questions[q].verdict == Some(v)
    {
      v := if waiter.future.Result? then Got(waiter.future.messages) else Raised(waiter.future.reason);
      pending := pending - {q};
      model := Woken(model, q);
    }

    /** The other ends of the await: the timeout, and the asker's own cancellation. */
    method GiveUp(q: QueryId, waiter: Waiter, cancelled: bool) returns (v: Verdict)
      requires Valid() && q in waiters && waiters[q] == waiter
      requires model.questions[q].verdict == None
      modifies this`model, this`pending, waiter
      ensures Valid()
      ensures v == (if cancelled then Stopped else Raised(TIMED_OUT)) && model == CutShort(old(model), q, v)
    {
      v := if cancelled then Stopped else Raised(TIMED_OUT);
      if waiter.future == Waiting {
        waiter.future := Cancelled;
      }
      pending := pending - {q};
      model := CutShort(model, q, v);
    }
  }
}
