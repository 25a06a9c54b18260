/**
 The caller's client: what a stream of AG-UI events leaves in its `last_*`
 fields, and which run those fields make the root of a conversation.
 */
module ClientLineage {
  import opened Seqs

  /** An interrupt named by a finished run; absent fields are `None`. */
  datatype Interrupt = Interrupt(toolCallId: Option<string>, id: Option<string>)

  /** `None` is a key the event lacks. A finish that is no interrupt outcome has no interrupts. */
  datatype Event =
    | RunStarted(threadId: Option<string>, runId: Option<string>)
    | ToolCallStart(toolCallId: Option<string>)
    | ToolCallResult(toolCallId: Option<string>)
    | RunFinished(interrupts: seq<Interrupt>)
    | Other

  /** One `run`: the thread it names, whether the connection opened, and the events read from it. */
  datatype Call = Call(threadId: string, connected: bool, events: seq<Event>)

  datatype State = State(
    threadId: Option<string>,
    runId: Option<string>,
    taskId: Option<string>,
    asks: seq<string>
  )

  const FRESH := State(None, None, None, [])

  // ---- the batch definitions

  predicate Malformed(e: Event) {
    (e.ToolCallStart? || e.ToolCallResult?) && e.toolCallId == None
  }

  /** The events up to the first that cannot be read; there the stream raises. */
  function Readable(events: seq<Event>): seq<Event> {
    if events == [] || Malformed(events[0]) then [] else [events[0]] + Readable(events[1..])
  }

  function LastStart(events: seq<Event>): Option<Event> {
    if events == [] then None
    else if events[|events| - 1].RunStarted? then Some(events[|events| - 1])
    else LastStart(events[..|events| - 1])
  }

  function AnnouncedBy(): Event -> Option<string> {
    (e: Event) => if e.ToolCallStart? then e.toolCallId else None
  }

  function AnsweredIn(events: seq<Event>): set<string> {
    set e | e in events && e.ToolCallResult? && e.toolCallId.Some? :: e.toolCallId.value
  }

  function Outside(ids: set<string>): string -> Option<string> {
    (id: string) => if id in ids then None else Some(id)
  }

  /** Tool calls announced and not answered, in announcement order. */
  function Unanswered(events: seq<Event>): seq<string> {
    Pick(Pick(events, AnnouncedBy()), Outside(AnsweredIn(events)))
  }

  /** An interrupt goes by its tool call's id if it has one, else by its own. Empty is as good as none. */
  function AskOf(i: Interrupt): Option<string> {
    if i.toolCallId.Some? && i.toolCallId.value != "" then i.toolCallId
    else if i.id.Some? && i.id.value != "" then i.id
    else None
  }

  function WithInterrupts(asks: seq<string>, interrupts: seq<Interrupt>): seq<string>
    decreases |interrupts|
  {
    if interrupts == [] then asks
    else
      match AskOf(interrupts[0])
      case Some(ask) => WithInterrupts(if ask in asks then asks else asks + [ask], interrupts[1..])
      case None => WithInterrupts(asks, interrupts[1..])
  }

  /** What the last finish left open: everything before it still unanswered, then its interrupts. Nothing, if nothing finished. */
  function OpenAsks(events: seq<Event>): seq<string> {
    if events == [] then []
    else if events[|events| - 1].RunFinished? then
      WithInterrupts(Unanswered(events[..|events| - 1]), events[|events| - 1].interrupts)
    else OpenAsks(events[..|events| - 1])
  }

  /** The thread a stream ended on: the one its last RUN_STARTED named, else the one asked for. */
  function EndThread(threadId: string, seen: seq<Event>): string {
    match LastStart(seen)
    case Some(RunStarted(Some(t), _)) => t
    case _ => threadId
  }

  predicate ContinuesFrom(s: State, threadId: string) {
    s.asks != [] && s.threadId == Some(threadId)
  }

  /** What reading `seen` on an open connection makes of the fields. */
  function Read(s: State, threadId: string, seen: seq<Event>): State {
    var thread := Some(EndThread(threadId, seen));
    match LastStart(seen)
    case Some(RunStarted(_, run)) => State(thread, run, if ContinuesFrom(s, threadId) then s.taskId else run, OpenAsks(seen))
    case _ => State(thread, s.runId, s.taskId, OpenAsks(seen))
  }

  /** What a whole call makes of them. A connection that never opened leaves them alone. */
  function Ran(s: State, c: Call): State {
    if c.connected then Read(s, c.threadId, Readable(c.events)) else s
  }

  // ---- the client

  class SoukClient {
    var lastThreadId: Option<string>
    var lastRunId: Option<string>
    var lastTaskId: Option<string>
    var lastOutstandingAsks: seq<string>

    function Fields(): State
      reads this
    {
      State(lastThreadId, lastRunId, lastTaskId, lastOutstandingAsks)
    }

    constructor ()
      ensures Fields() == FRESH
    {
      lastThreadId, lastRunId, lastTaskId, lastOutstandingAsks := None, None, None, [];
    }

    /** `run`, from the POST to the end of the stream (or to where the caller stops reading, or it raises). */
    method Run(threadId: string, connected: bool, events: seq<Event>)
      modifies this
      ensures Fields() == Ran(old(Fields()), Call(threadId, connected, events))
    {
      var continuesLineage := lastOutstandingAsks != [] && lastThreadId == Some(threadId);
      if !connected {
        return;
      }
      ghost var before := Fields();
      ReadableIsPrefix(events);
      lastThreadId := Some(threadId);
      var announced: seq<string> := [];
      var answered: set<string> := {};
      lastOutstandingAsks := [];
      var i := 0;
      while i < |events| && !Malformed(events[i])
        invariant i <= |Readable(events)|
        invariant announced == Pick(events[..i], AnnouncedBy()) && answered == AnsweredIn(events[..i])
        invariant Fields() == Read(before, threadId, events[..i])
      {
        assert events[..i + 1] == events[..i] + [events[i]];
        announced, answered := OnEvent(events[i], threadId, continuesLineage, announced, answered, before, events[..i]);
        i := i + 1;
      }
      assert events[..i] == Readable(events);
    }

    /** The loop's turn for one event; `before` and `seen` say what the fields stand for. */
    method OnEvent(e: Event, threadId: string, continuesLineage: bool, announced: seq<string>, answered: set<string>,
                   ghost before: State, ghost seen: seq<Event>)
      returns (announced': seq<string>, answered': set<string>)
      requires !Malformed(e) && continuesLineage == ContinuesFrom(before, threadId)
      requires announced == Pick(seen, AnnouncedBy()) && answered == AnsweredIn(seen)
      requires Fields() == Read(before, threadId, seen)
      modifies this
      ensures announced' == Pick(seen + [e], AnnouncedBy()) && answered' == AnsweredIn(seen + [e])
      ensures Fields() == Read(before, threadId, seen + [e])
    {
      ReadOne(before, threadId, seen, e);
      announced', answered' := announced, answered;
      match e
      case RunStarted(t, r) =>
        lastThreadId := Some(match t case Some(value) => value case None => threadId);
        lastRunId := r;
        if !continuesLineage {
          lastTaskId := lastRunId;
        }
      case ToolCallStart(id) => announced' := announced + [id.value];
      case ToolCallResult(id) => answered' := answered + {id.value};
      case RunFinished(interrupts) => lastOutstandingAsks := Outstanding(announced, answered, interrupts);
      case Other =>
    }

    method Outstanding(announced: seq<string>, answered: set<string>, interrupts: seq<Interrupt>) returns (asks: seq<string>)
      ensures asks == WithInterrupts(Pick(announced, Outside(answered)), interrupts)
    {
      asks := [];
      for k := 0 to |announced|
        invariant asks == Pick(announced[..k], Outside(answered))
      {
        PickSnoc(announced[..k], announced[k], Outside(answered));
        assert announced[..k + 1] == announced[..k] + [announced[k]];
        if announced[k] !in answered {
          asks := asks + [announced[k]];
        }
      }
      assert announced[..|announced|] == announced;
      ghost var all := WithInterrupts(asks, interrupts);
      for k := 0 to |interrupts|
        invariant WithInterrupts(asks, interrupts[k..]) == all
      {
        assert interrupts[k..][1..] == interrupts[k + 1..];
        var ask := AskOf(interrupts[k]);
        if ask.Some? && ask.value !in asks {
          asks := asks + [ask.value];
        }
      }
    }
  }

  lemma {:induction false} ReadableIsPrefix(events: seq<Event>)
    ensures Readable(events) <= events
    ensures forall e :: e in Readable(events) ==> !Malformed(e)
    ensures |Readable(events)| < |events| ==> Malformed(events[|Readable(events)|])
  {
    if events != [] && !Malformed(events[0]) {
      ReadableIsPrefix(events[1..]);
    }
  }

  /** One more event, and what it adds to each of the batch definitions. */
  lemma {:induction false} ReadOne(s: State, threadId: string, seen: seq<Event>, e: Event)
    requires !Malformed(e)
    ensures Pick(seen + [e], AnnouncedBy()) == Pick(seen, AnnouncedBy()) + if e.ToolCallStart? then [e.toolCallId.value] else []
    ensures AnsweredIn(seen + [e]) == AnsweredIn(seen) + if e.ToolCallResult? then {e.toolCallId.value} else {}
    ensures LastStart(seen + [e]) == if e.RunStarted? then Some(e) else LastStart(seen)
    ensures OpenAsks(seen + [e]) == if e.RunFinished? then WithInterrupts(Unanswered(seen), e.interrupts) else OpenAsks(seen)
  {
    PickSnoc(seen, e, AnnouncedBy());
    assert (seen + [e])[..|seen|] == seen;
    assert forall x :: x in seen + [e] <==> x in seen || x == e;
  }

  // ---- the asks

  lemma {:induction false} PickOutside(s: seq<string>, ids: set<string>)
    ensures forall x :: x in Pick(s, Outside(ids)) <==> x in s && x !in ids
    ensures NoDuplicates(s) ==> NoDuplicates(Pick(s, Outside(ids)))
  {
    if s != [] {
      PickOutside(s[1..], ids);
      assert s == [s[0]] + s[1..];
      assert NoDuplicates(s) ==> NoDuplicates(s[1..]) && s[0] !in s[1..];
    }
  }

  /** Interrupts join behind what is listed, each ask once, under the tool call's id or, for want of that, their own; nothing listed is disturbed. */
  lemma {:induction false} WithInterruptsExactly(asks: seq<string>, interrupts: seq<Interrupt>)
    ensures asks <= WithInterrupts(asks, interrupts)
    ensures forall x :: x in WithInterrupts(asks, interrupts) <==>
      || x in asks
      || exists i :: i in interrupts && x != "" && (i.toolCallId == Some(x) || (i.toolCallId in {None, Some("")} && i.id == Some(x)))
    ensures NoDuplicates(WithInterrupts(asks, interrupts)) <==> NoDuplicates(asks)
  {
    WithInterruptsNamed(asks, interrupts);
    forall i: Interrupt, x ensures AskOf(i) == Some(x) <==> x != "" && (i.toolCallId == Some(x) || (i.toolCallId in {None, Some("")} && i.id == Some(x))) {
    }
  }

  lemma {:induction false} WithInterruptsNamed(asks: seq<string>, interrupts: seq<Interrupt>)
    ensures asks <= WithInterrupts(asks, interrupts)
    ensures forall x :: x in WithInterrupts(asks, interrupts) <==> x in asks || exists i :: i in interrupts && AskOf(i) == Some(x)
    ensures NoDuplicates(WithInterrupts(asks, interrupts)) <==> NoDuplicates(asks)
    decreases |interrupts|
  {
    if interrupts != [] {
      var rest := interrupts[1..];
      var ask := AskOf(interrupts[0]);
      var next := if ask.Some? && ask.value !in asks then asks + [ask.value] else asks;
      WithInterruptsNamed(next, rest);
      forall x ensures (exists i :: i in interrupts && AskOf(i) == Some(x)) <==> ask == Some(x) || exists i :: i in rest && AskOf(i) == Some(x) {
        assert interrupts == [interrupts[0]] + rest;
      }
      assert NoDuplicates(next) <==> NoDuplicates(asks) by {
        assert next[..|asks|] == asks;
        assert NoDuplicates(next) ==> NoDuplicates(next[..|asks|]);
      }
    }
  }

  /** One interrupt more: its ask goes to the end if it is new, and an ask that is listed already, as a call or by another interrupt, stays where it is. */
  lemma {:induction false} OneInterruptMore(asks: seq<string>, interrupts: seq<Interrupt>, i: Interrupt, x: string)
    ensures WithInterrupts(asks, []) == asks
    ensures x != "" && (i.toolCallId == Some(x) || (i.toolCallId in {None, Some("")} && i.id == Some(x))) ==>
      var listed := WithInterrupts(asks, interrupts);
      WithInterrupts(asks, interrupts + [i]) == if x in listed then listed else listed + [x]
    ensures i.toolCallId in {None, Some("")} && i.id in {None, Some("")} ==>
      WithInterrupts(asks, interrupts + [i]) == WithInterrupts(asks, interrupts)
    decreases |interrupts|
  {
    if interrupts == [] {
      assert ([] + [i])[1..] == [];
    } else {
      var ask := AskOf(interrupts[0]);
      assert (interrupts + [i])[1..] == interrupts[1..] + [i];
      OneInterruptMore(if ask.Some? && ask.value !in asks then asks + [ask.value] else asks, interrupts[1..], i, x);
    }
  }

  /**
   After a finish the client lists exactly what is open: every tool call
   announced and not answered before it, and every ask its interrupts name.
   */
  lemma {:induction false} OpenAsksExactly(prefix: seq<Event>, interrupts: seq<Interrupt>, x: string)
    ensures x in OpenAsks(prefix + [RunFinished(interrupts)]) <==>
      || (ToolCallStart(Some(x)) in prefix && ToolCallResult(Some(x)) !in prefix)
      || exists i :: i in interrupts && x != "" && (i.toolCallId == Some(x) || (i.toolCallId in {None, Some("")} && i.id == Some(x)))
  {
    assert (prefix + [RunFinished(interrupts)])[..|prefix|] == prefix;
    KeptExactly(prefix, AnsweredIn(prefix), x);
    WithInterruptsExactly(Unanswered(prefix), interrupts);
    assert x in AnsweredIn(prefix) <==> ToolCallResult(Some(x)) in prefix;
    assert AnnouncedOnce(prefix, x) <==> ToolCallStart(Some(x)) in prefix by {
      if AnnouncedOnce(prefix, x) {
        var j :| 0 <= j < |prefix| && Announces(prefix[j], x);
        assert prefix[j] == ToolCallStart(Some(x));
      }
      if ToolCallStart(Some(x)) in prefix {
        var j :| 0 <= j < |prefix| && prefix[j] == ToolCallStart(Some(x));
        assert Announces(prefix[j], x);
      }
    }
  }

  /** The last finish alone decides: without one nothing is listed, and what comes after it that is none changes nothing. */
  lemma {:induction false} LastFinishDecides(events: seq<Event>, later: seq<Event>)
    requires forall e :: e in later ==> !e.RunFinished?
    ensures OpenAsks(later) == []
    ensures OpenAsks(events + later) == OpenAsks(events)
    decreases |later|
  {
    if later == [] {
      assert events + later == events;
    } else {
      var fewer, last := later[..|later| - 1], later[|later| - 1];
      assert later == fewer + [last] && last in later;
      LastFinishDecides(events, fewer);
      assert (events + later)[..|events + later| - 1] == events + fewer;
      assert (events + later)[|events + later| - 1] == last;
    }
  }

  /** The calls stand in the order they were announced in. */
  lemma {:induction false} AnnouncedLastStandsLast(prefix: seq<Event>, x: string)
    ensures var calls := OpenAsks(prefix + [RunFinished([])]);
      OpenAsks(prefix + [ToolCallStart(Some(x))] + [RunFinished([])]) == if ToolCallResult(Some(x)) in prefix then calls else calls + [x]
  {
    var more := prefix + [ToolCallStart(Some(x))];
    ReadOne(FRESH, "", prefix, RunFinished([]));
    ReadOne(FRESH, "", more, RunFinished([]));
    ReadOne(FRESH, "", prefix, ToolCallStart(Some(x)));
    assert AnsweredIn(more) == AnsweredIn(prefix);
    PickSnoc(Pick(prefix, AnnouncedBy()), x, Outside(AnsweredIn(prefix)));
    assert x in AnsweredIn(prefix) <==> ToolCallResult(Some(x)) in prefix;
  }

  // ---- the other fields

  /** Event `k` is the last RUN_STARTED that the stream got to. */
  predicate LastStartAt(events: seq<Event>, k: nat) {
    k < |events| && events[k].RunStarted? && forall j :: k < j < |events| ==> !events[j].RunStarted?
  }

  lemma {:induction false} LastStartExactly(events: seq<Event>)
    ensures LastStart(events) == None ==> forall e :: e in events ==> !e.RunStarted?
    ensures forall k: nat :: LastStartAt(events, k) ==> LastStart(events) == Some(events[k])
    ensures (forall e :: e in events ==> !e.RunStarted?) ==> LastStart(events) == None
  {
    if events != [] {
      var front, last := events[..|events| - 1], events[|events| - 1];
      assert events == front + [last];
      LastStartExactly(front);
      forall k: nat | LastStartAt(events, k) ensures LastStart(events) == Some(events[k]) {
        if !last.RunStarted? {
          assert k < |front| && LastStartAt(front, k);
        } else {
          assert k == |front|;
        }
      }
    }
  }

  /**
   What a call leaves in the three ids, by the events it read: those of the last
   RUN_STARTED among them, the thread falling back on the one asked for, and the
   task only if the call does not go on from asks left open on its own thread.
   Without a RUN_STARTED the run and the task stay as they were, and the thread is
   the one asked for. A call that never connected leaves everything.
   */
  lemma FieldsExactly(s: State, c: Call, k: nat)
    ensures !c.connected ==> Ran(s, c) == s
    ensures c.connected && LastStartAt(Readable(c.events), k) ==>
      var start := Readable(c.events)[k];
      && Ran(s, c).runId == start.runId
      && Ran(s, c).threadId == (if start.threadId == None then Some(c.threadId) else start.threadId)
      && Ran(s, c).taskId == (if s.asks != [] && s.threadId == Some(c.threadId) then s.taskId else start.runId)
    ensures c.connected && (forall e :: e in Readable(c.events) ==> !e.RunStarted?) ==>
      Ran(s, c).runId == s.runId && Ran(s, c).threadId == Some(c.threadId) && Ran(s, c).taskId == s.taskId
    ensures c.connected ==> Ran(s, c).asks == OpenAsks(Readable(c.events))
  {
    LastStartExactly(Readable(c.events));
  }

  // ---- asks listed twice

  predicate Announces(e: Event, id: string) {
    e.ToolCallStart? && e.toolCallId == Some(id)
  }

  /** Two events announce one tool call, and it is not among the answered. */
  ghost predicate AnnouncedTwice(events: seq<Event>, answered: set<string>) {
    exists i, j, id :: 0 <= i < j < |events| && Announces(events[i], id) && Announces(events[j], id) && id !in answered
  }

  ghost predicate AnnouncedOnce(events: seq<Event>, id: string) {
    exists j :: 0 <= j < |events| && Announces(events[j], id)
  }

  lemma {:induction false} KeptExactly(events: seq<Event>, answered: set<string>, id: string)
    ensures id in Pick(Pick(events, AnnouncedBy()), Outside(answered)) <==> AnnouncedOnce(events, id) && id !in answered
  {
    PickOutside(Pick(events, AnnouncedBy()), answered);
    AnnouncedExactly(events, id);
  }

  lemma {:induction false} AnnouncedExactly(events: seq<Event>, id: string)
    ensures id in Pick(events, AnnouncedBy()) <==> AnnouncedOnce(events, id)
  {
    if events != [] {
      AnnouncedExactly(events[1..], id);
      if AnnouncedOnce(events[1..], id) {
        var j :| 0 <= j < |events[1..]| && Announces(events[1..][j], id);
        assert Announces(events[j + 1], id);
      }
      if AnnouncedOnce(events, id) {
        var j :| 0 <= j < |events| && Announces(events[j], id);
        if j > 0 { assert Announces(events[1..][j - 1], id); }
      }
    }
  }

  /** A first event adds a pair exactly when it announces, unanswered, what a later one announces too. */
  lemma AnnouncedTwiceHead(e: Event, rest: seq<Event>, answered: set<string>)
    ensures AnnouncedTwice([e] + rest, answered) <==>
      || AnnouncedTwice(rest, answered)
      || (e.ToolCallStart? && e.toolCallId.Some? && e.toolCallId.value !in answered && AnnouncedOnce(rest, e.toolCallId.value))
  {
    var all := [e] + rest;
    if AnnouncedTwice(rest, answered) {
      var i, j, id :| 0 <= i < j < |rest| && Announces(rest[i], id) && Announces(rest[j], id) && id !in answered;
      assert Announces(all[i + 1], id) && Announces(all[j + 1], id);
    }
    if e.ToolCallStart? && e.toolCallId.Some? && e.toolCallId.value !in answered && AnnouncedOnce(rest, e.toolCallId.value) {
      var j :| 0 <= j < |rest| && Announces(rest[j], e.toolCallId.value);
      assert Announces(all[0], e.toolCallId.value) && Announces(all[j + 1], e.toolCallId.value);
    }
    if AnnouncedTwice(all, answered) {
      var i, j, id :| 0 <= i < j < |all| && Announces(all[i], id) && Announces(all[j], id) && id !in answered;
      assert Announces(rest[j - 1], id);
      if i > 0 { assert Announces(rest[i - 1], id); }
    }
  }

  lemma {:induction false} RepeatsExactly(events: seq<Event>, answered: set<string>)
    ensures NoDuplicates(Pick(Pick(events, AnnouncedBy()), Outside(answered))) <==> !AnnouncedTwice(events, answered)
  {
    if events != [] {
      var e, rest := events[0], events[1..];
      assert events == [e] + rest;
      RepeatsExactly(rest, answered);
      AnnouncedTwiceHead(e, rest, answered);
      var announced, kept := Pick(rest, AnnouncedBy()), Pick(Pick(rest, AnnouncedBy()), Outside(answered));
      if e.ToolCallStart? && e.toolCallId.Some? {
        var id := e.toolCallId.value;
        assert Pick(events, AnnouncedBy()) == [id] + announced;
        assert ([id] + announced)[1..] == announced;
        KeptExactly(rest, answered, id);
        ConsDistinct(id, kept);
        assert id in answered ==> Pick([id] + announced, Outside(answered)) == kept;
      } else {
        assert Pick(events, AnnouncedBy()) == announced;
      }
    }
  }

  /**
   After a finish an ask is listed twice exactly when two events before it
   announced one tool call that none of them answered, whatever the interrupts.
   */
  lemma {:induction false} OpenAsksRepeatExactly(prefix: seq<Event>, interrupts: seq<Interrupt>)
    ensures NoDuplicates(OpenAsks(prefix + [RunFinished(interrupts)])) <==> !AnnouncedTwice(prefix, AnsweredIn(prefix))
  {
    assert (prefix + [RunFinished(interrupts)])[..|prefix|] == prefix;
    RepeatsExactly(prefix, AnsweredIn(prefix));
    WithInterruptsExactly(Unanswered(prefix), interrupts);
  }

  /** One tool call announced twice is two asks. */
  lemma AnnouncedTwiceIsTwoAsks()
    ensures var start := ToolCallStart(Some("call")); OpenAsks([start, start, RunFinished([])]) == ["call", "call"]
  {
    var start := ToolCallStart(Some("call"));
    var prefix := [start, start];
    assert [start, start, RunFinished([])][..2] == prefix;
    PickOne(start, AnnouncedBy());
    PickConcat([start], [start], AnnouncedBy());
    assert prefix == [start] + [start];
    PickOne("call", Outside({}));
    PickConcat(["call"], ["call"], Outside({}));
    assert AnsweredIn(prefix) == {};
  }

  // ---- the lineage

  function After(calls: seq<Call>): State {
    if calls == [] then FRESH else Ran(After(calls[..|calls| - 1]), calls[|calls| - 1])
  }

  function Connected(): Call -> Option<Call> {
    (c: Call) => if c.connected then Some(c) else None
  }

  /** Calls whose connection never opened might as well not have been made. */
  lemma {:induction false} FailedCallsLeaveNoTrace(calls: seq<Call>)
    ensures After(calls) == After(Pick(calls, Connected()))
  {
    if calls != [] {
      var prefix, last := calls[..|calls| - 1], calls[|calls| - 1];
      FailedCallsLeaveNoTrace(prefix);
      assert calls == prefix + [last];
      PickSnoc(prefix, last, Connected());
      var made := Pick(prefix, Connected());
      if last.connected {
        assert Pick(calls, Connected()) == made + [last];
        assert (made + [last])[..|made|] == made && (made + [last])[|made|] == last;
      } else {
        assert Pick(calls, Connected()) == made;
      }
    }
  }

  /** Call `i` follows, on the thread it ended on, a call that left asks open. Stated on the two calls alone. */
  predicate Follows(calls: seq<Call>, i: nat)
    requires i < |calls|
  {
    && i > 0
    && OpenAsks(Readable(calls[i - 1].events)) != []
    && calls[i].threadId == EndThread(calls[i - 1].threadId, Readable(calls[i - 1].events))
  }

  /** Where the last call's lineage begins. */
  function Root(calls: seq<Call>): (h: nat)
    requires calls != []
    ensures h < |calls| && !Follows(calls, h)
    ensures forall i :: h < i < |calls| ==> Follows(calls, i)
  {
    var prefix := calls[..|calls| - 1];
    if Follows(calls, |calls| - 1) then
      var h := Root(prefix);
      assert forall i :: 0 < i < |prefix| ==> Follows(prefix, i) == Follows(calls, i);
      h
    else |calls| - 1
  }

  ghost predicate AllConnected(calls: seq<Call>) {
    forall c :: c in calls ==> c.connected
  }

  lemma FollowsIsContinuing(calls: seq<Call>)
    requires calls != [] && AllConnected(calls)
    ensures ContinuesFrom(After(calls[..|calls| - 1]), calls[|calls| - 1].threadId) == Follows(calls, |calls| - 1)
  {
    if |calls| > 1 {
      var prefix := calls[..|calls| - 1];
      assert prefix[|prefix| - 1] in calls;
    }
  }

  /**
   Over any sequence of calls, `last_task_id` is the run that the root of the
   last call's chain started. If the root's stream never said RUN_STARTED there
   is no such run, and the field still holds what it held before the root.
   */
  lemma {:induction false} TaskIsTheRoot(calls: seq<Call>)
    requires calls != [] && AllConnected(calls)
    ensures var root := calls[Root(calls)];
      After(calls).taskId == match LastStart(Readable(root.events))
                             case Some(RunStarted(_, run)) => run
                             case _ => After(calls[..Root(calls)]).taskId
    decreases |calls|
  {
    FollowsIsContinuing(calls);
    var prefix, last := calls[..|calls| - 1], calls[|calls| - 1];
    assert last in calls;
    if Follows(calls, |calls| - 1) {
      forall c | c in prefix ensures c.connected { assert c in calls; }
      TaskIsTheRoot(prefix);
      assert prefix[..Root(prefix)] == calls[..Root(calls)];
    }
  }

  /** The two together, for calls some of which never connected. */
  lemma {:induction false} TaskIsTheRootOfWhatConnected(calls: seq<Call>)
    requires Pick(calls, Connected()) != []
    ensures var made := Pick(calls, Connected()); var root := made[Root(made)];
      After(calls).taskId == match LastStart(Readable(root.events))
                             case Some(RunStarted(_, run)) => run
                             case _ => After(made[..Root(made)]).taskId
  {
    FailedCallsLeaveNoTrace(calls);
    PickedConnected(calls);
    TaskIsTheRoot(Pick(calls, Connected()));
  }

  lemma {:induction false} PickedConnected(calls: seq<Call>)
    ensures AllConnected(Pick(calls, Connected()))
  {
    if calls != [] { PickedConnected(calls[1..]); }
  }

  /** A stream that finishes with asks open but never says RUN_STARTED hands its successor an older task. */
  lemma UnannouncedRootIsStale(s: State, ask: string)
    requires s.taskId == Some("r1") && s.asks == [] && ask != ""
    ensures var unannounced := Call("t", true, [RunFinished([Interrupt(None, Some(ask))])]);
            var next := Call("t", true, [RunStarted(Some("t"), Some("r3"))]);
            && !ContinuesFrom(s, "t")
            && Ran(s, unannounced).asks == [ask]
            && Ran(Ran(s, unannounced), next).runId == Some("r3")
            && Ran(Ran(s, unannounced), next).taskId == Some("r1")
  {
    var finish, start := RunFinished([Interrupt(None, Some(ask))]), RunStarted(Some("t"), Some("r3"));
    assert [finish] == [] + [finish] && [start] == [] + [start];
    ReadOne(s, "t", [], finish);
    ReadOne(s, "t", [], start);
    assert Readable([finish]) == [finish] && Readable([start]) == [start];
    assert finish.interrupts[1..] == [];
  }

  /** Three calls from a fresh client: the last continues the second, and is told the first is its task. */
  lemma UnannouncedRootFromTheStart()
    ensures var first := Call("t", true, [RunStarted(Some("t"), Some("r1")), RunFinished([])]);
      var unannounced := Call("t", true, [RunFinished([Interrupt(None, Some("ask"))])]);
      var next := Call("t", true, [RunStarted(Some("t"), Some("r3"))]);
      Ran(Ran(Ran(FRESH, first), unannounced), next).taskId == Some("r1")
  {
    var events := [RunStarted(Some("t"), Some("r1")), RunFinished([])];
    var s := Ran(FRESH, Call("t", true, events));
    assert events[1..] == [RunFinished([])] && events[1..][1..] == [];
    assert Readable(events) == events;
    assert events[..1] == [RunStarted(Some("t"), Some("r1"))] && events[..1][..0] == [];
    assert LastStart(events) == Some(events[0]);
    PickOne(events[0], AnnouncedBy());
    assert Pick(events[..1], AnnouncedBy()) == [];
    assert Unanswered(events[..1]) == [];
    UnannouncedRootIsStale(s, "ask");
  }
}
