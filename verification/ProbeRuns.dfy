/**
 The pod probe: one read loop, one goroutine per run, and a single writer behind
 a mutex. Each write is one step; anything may happen between two of them.
 */
module ProbeRuns {
  import opened Seqs

  type RunId = string

  datatype Frame =
    | Ack(run: RunId)
    | RunStarted(run: RunId)
    | TextStart(run: RunId)
    | TextContent(run: RunId, delta: string)
    | TextEnd(run: RunId)
    | RunFinished(run: RunId)
    | Finish(run: RunId)

  // ---- the runs

  /**
   One accepted run. `pc` counts what it has done: 1 after the ack, 7 after the
   finish, 8 after its own deferred cancel, 9 once it has left the cancel set.
   `text` is there once the answer has returned.
   */
  datatype Run = Run(id: RunId, pc: nat, text: Option<string>, cancelled: bool)

  datatype Write = Write(run: nat, frame: Frame, ok: bool)

  /** `adding` is the run the read loop has acked but not yet registered and started. */
  datatype Probe = Probe(
    runs: seq<Run>,
    adding: Option<nat>,
    cancels: map<RunId, nat>,
    writes: seq<Write>,
    overlapped: set<RunId>
  )

  const IDLE := Probe([], None, map[], [], {})

  datatype Step =
    | ReadRun(id: RunId)
    | AckFails(id: RunId)
    | Register
    | ReadCancel(id: RunId)
    | Answers(run: nat, text: string)
    | Writes(run: nat, ok: bool)
    | OwnCancel(run: nat)
    | Leaves(run: nat)

  function Script(r: Run): (s: seq<Frame>)
    ensures |s| == 7
  {
    [Ack(r.id), RunStarted(r.id), TextStart(r.id),
     TextContent(r.id, match r.text case Some(t) => t case None => ""),
     TextEnd(r.id), RunFinished(r.id), Finish(r.id)]
  }

  predicate Live(r: Run) {
    r.pc < 9
  }

  /** A run whose goroutine exists: every one but the one the read loop is still adding. */
  predicate Started(s: Probe, i: nat) {
    i < |s.runs| && s.adding != Some(i)
  }

  predicate MayWrite(s: Probe, i: nat) {
    Started(s, i) && s.runs[i].pc < 7 && (s.runs[i].pc == 1 || s.runs[i].text.Some?)
  }

  function Next(s: Probe, step: Step): Probe {
    match step
    case ReadRun(id) =>
      if s.adding.Some? then s
      else s.(runs := s.runs + [Run(id, 1, None, false)],
              adding := Some(|s.runs|),
              writes := s.writes + [Write(|s.runs|, Ack(id), true)],
              overlapped := if exists r :: r in s.runs && r.id == id && Live(r) then s.overlapped + {id} else s.overlapped)
    case AckFails(id) => s
    case Register =>
      if s.adding == None || s.adding.value >= |s.runs| then s
      else s.(cancels := s.cancels[s.runs[s.adding.value].id := s.adding.value], adding := None)
    case ReadCancel(id) =>
      if s.adding.Some? || id !in s.cancels || s.cancels[id] >= |s.runs| then s
      else s.(runs := s.runs[s.cancels[id] := s.runs[s.cancels[id]].(cancelled := true)])
    case Answers(i, text) =>
      if !Started(s, i) || s.runs[i].pc != 2 || s.runs[i].text.Some? then s
      else s.(runs := s.runs[i := s.runs[i].(text := Some(text))])
    case Writes(i, ok) =>
      if !MayWrite(s, i) then s
      else s.(runs := s.runs[i := s.runs[i].(pc := s.runs[i].pc + 1)],
              writes := s.writes + [Write(i, Script(s.runs[i])[s.runs[i].pc], ok)])
    case OwnCancel(i) =>
      if !Started(s, i) || s.runs[i].pc != 7 then s
      else s.(runs := s.runs[i := s.runs[i].(pc := 8, cancelled := true)])
    case Leaves(i) =>
      if !Started(s, i) || s.runs[i].pc != 8 then s
      else s.(runs := s.runs[i := s.runs[i].(pc := 9)], cancels := s.cancels - {s.runs[i].id})
  }

  function After(steps: seq<Step>): Probe {
    if steps == [] then IDLE else Next(After(steps[..|steps| - 1]), steps[|steps| - 1])
  }

  // ---- one run's share of the wire

  function Of(i: nat): Write -> Option<Frame> {
    (w: Write) => if w.run == i then Some(w.frame) else None
  }

  function Done(r: Run): nat {
    if r.pc < 7 then r.pc else 7
  }

  ghost predicate RunOk(s: Probe, i: nat) {
    i < |s.runs| ==>
      && 1 <= s.runs[i].pc <= 9
      && (s.runs[i].text == None ==> s.runs[i].pc <= 2)
      && (s.adding == Some(i) ==> s.runs[i].pc == 1)
      && Pick(s.writes, Of(i)) == Script(s.runs[i])[..Done(s.runs[i])]
  }

  ghost predicate TableOk(s: Probe) {
    && (s.adding.Some? ==> s.adding.value + 1 == |s.runs|)
    && (forall w :: w in s.writes ==> w.run < |s.runs| && w.frame.run == s.runs[w.run].id)
    && (forall id :: id in s.cancels ==> s.cancels[id] < |s.runs| && s.runs[s.cancels[id]].id == id)
  }

  lemma RunWrites(s: Probe, j: nat, ok: bool, i: nat)
    requires RunOk(s, i)
    ensures RunOk(Next(s, Writes(j, ok)), i)
  {
    if MayWrite(s, j) {
      var s' := Next(s, Writes(j, ok));
      var w := s'.writes[|s.writes|];
      PickSnoc(s.writes, w, Of(i));
      if j == i {
        assert Script(s'.runs[i]) == Script(s.runs[i]);
        assert Script(s.runs[i])[..s.runs[i].pc + 1] == Script(s.runs[i])[..s.runs[i].pc] + [w.frame];
      }
    }
  }

  lemma RunRead(s: Probe, id: RunId, i: nat)
    requires TableOk(s) && RunOk(s, i)
    ensures RunOk(Next(s, ReadRun(id)), i)
  {
    if s.adding == None {
      PickSnoc(s.writes, Write(|s.runs|, Ack(id), true), Of(i));
      if i == |s.runs| {
        PickNothing(s.writes, Of(i));
        assert Script(Run(id, 1, None, false))[..1] == [Ack(id)];
      }
    }
  }

  lemma RunNext(s: Probe, step: Step, i: nat)
    requires TableOk(s) && RunOk(s, i)
    ensures RunOk(Next(s, step), i)
  {
    match step
    case ReadRun(id) => RunRead(s, id, i);
    case Writes(j, ok) => RunWrites(s, j, ok, i);
    case _ =>
      var s' := Next(s, step);
      if i < |s.runs| {
        assert Script(s'.runs[i])[..Done(s'.runs[i])] == Script(s.runs[i])[..Done(s.runs[i])];
      }
  }

  lemma TableNext(s: Probe, step: Step)
    requires TableOk(s)
    ensures TableOk(Next(s, step))
  {
    var s' := Next(s, step);
    forall w | w in s'.writes ensures w.run < |s'.runs| && w.frame.run == s'.runs[w.run].id {
      if w !in s.writes {
        assert w == s'.writes[|s.writes|];
      }
    }
  }

  lemma {:induction false} AfterOk(steps: seq<Step>, i: nat)
    ensures TableOk(After(steps)) && RunOk(After(steps), i)
  {
    if steps != [] {
      AfterOk(steps[..|steps| - 1], i);
      TableNext(After(steps[..|steps| - 1]), steps[|steps| - 1]);
      RunNext(After(steps[..|steps| - 1]), steps[|steps| - 1], i);
    }
  }

  function Sent(i: nat): Write -> Option<Frame> {
    (w: Write) => if w.run == i && w.ok then Some(w.frame) else None
  }

  lemma {:induction false} AllSent(writes: seq<Write>, i: nat)
    requires forall w :: w in writes && w.run == i ==> w.ok
    ensures Pick(writes, Sent(i)) == Pick(writes, Of(i))
  {
    if writes != [] {
      AllSent(writes[1..], i);
    }
  }

  /**
   In every interleaving, the frames an accepted run tries to write are a prefix
   of its script, all seven of them by the time its goroutine leaves; and those
   are what the wire shows of it when its writes succeed.
   */
  lemma {:induction false} RunFollowsItsScript(steps: seq<Step>, i: nat)
    requires i < |After(steps).runs|
    ensures var s := After(steps); var r := s.runs[i];
      && Pick(s.writes, Of(i)) == Script(r)[..Done(r)]
      && (!Live(r) ==> Pick(s.writes, Of(i)) == Script(r))
      && ((forall w :: w in s.writes && w.run == i ==> w.ok) ==> Pick(s.writes, Sent(i)) == Script(r)[..Done(r)])
  {
    AfterOk(steps, i);
    var s := After(steps);
    if forall w :: w in s.writes && w.run == i ==> w.ok {
      AllSent(s.writes, i);
    }
  }

  lemma {:induction false} TextWasAnswered(steps: seq<Step>, i: nat)
    requires i < |After(steps).runs| && After(steps).runs[i].text.Some?
    ensures Answers(i, After(steps).runs[i].text.value) in steps
    decreases |steps|
  {
    var prefix, last := steps[..|steps| - 1], steps[|steps| - 1];
    assert steps == prefix + [last];
    if i < |After(prefix).runs| && After(prefix).runs[i].text.Some? {
      TextWasAnswered(prefix, i);
      TextStays(After(prefix), last, i);
    } else {
      TextArrives(After(prefix), last, i);
    }
  }

  lemma TextStays(s: Probe, step: Step, i: nat)
    requires i < |s.runs| && s.runs[i].text.Some?
    ensures i < |Next(s, step).runs| && Next(s, step).runs[i].text == s.runs[i].text
  {
  }

  lemma TextArrives(s: Probe, step: Step, i: nat)
    requires i < |Next(s, step).runs| && Next(s, step).runs[i].text.Some?
    requires i < |s.runs| ==> s.runs[i].text == None
    ensures step == Answers(i, Next(s, step).runs[i].text.value)
  {
  }

  /** These frames are the first of a run: the ack, the events around an answer the run was given, and the finish. */
  ghost predicate InOrder(w: seq<Frame>, id: RunId, steps: seq<Step>, i: nat) {
    && 1 <= |w| <= 7 && w[0] == Ack(id)
    && (|w| > 1 ==> w[1] == RunStarted(id))
    && (|w| > 2 ==> w[2] == TextStart(id))
    && (|w| > 3 ==> exists text :: w[3] == TextContent(id, text) && Answers(i, text) in steps)
    && (|w| > 4 ==> w[4] == TextEnd(id))
    && (|w| > 5 ==> w[5] == RunFinished(id))
    && (|w| > 6 ==> w[6] == Finish(id))
  }

  lemma {:induction false} ScriptInOrder(r: Run, steps: seq<Step>, i: nat)
    requires r.pc >= 1 && (r.text == None ==> r.pc <= 2)
    requires r.text.Some? ==> Answers(i, r.text.value) in steps
    ensures InOrder(Script(r)[..Done(r)], r.id, steps, i)
  {
  }

  /**
   What a run writes, frame by frame, in every interleaving: the ack first, the
   answer that its own step brought in the middle, and the finish last.
   */
  lemma {:induction false} WritesInOrder(steps: seq<Step>, i: nat)
    requires i < |After(steps).runs|
    ensures InOrder(Pick(After(steps).writes, Of(i)), After(steps).runs[i].id, steps, i)
  {
    AfterOk(steps, i);
    var r := After(steps).runs[i];
    if r.text.Some? {
      TextWasAnswered(steps, i);
    }
    ScriptInOrder(r, steps, i);
  }

  // ---- the cancel set, as it is

  class RunContext {
    var fired: bool

    constructor ()
      ensures !fired
    {
      fired := false;
    }
  }

  /** `contexts` remembers the context of every run started, `model` is the probe as a value. */
  class CancelSet {
    var m: map<RunId, RunContext>
    ghost var contexts: map<nat, RunContext>
    ghost var model: Probe

    ghost predicate Valid()
      reads this, contexts.Values
    {
      && TableOk(model)
      && (forall i :: i in contexts <==> Started(model, i))
      && (forall i, j :: i in contexts && j in contexts && contexts[i] == contexts[j] ==> i == j)
      && (forall i :: i in contexts ==> contexts[i].fired == model.runs[i].cancelled)
      && (model.adding.Some? ==> !model.runs[model.adding.value].cancelled)
      && m.Keys == model.cancels.Keys
      && (forall id :: id in m ==> model.cancels[id] in contexts && contexts[model.cancels[id]] == m[id])
    }

    constructor ()
      ensures Valid() && model == IDLE
    {
      m, contexts, model := map[], map[], IDLE;
    }

    /** The read loop enters the context of the run it has just acked. */
    method Add(run: RunId, c: RunContext)
      requires Valid() && model.adding.Some? && model.runs[model.adding.value].id == run
      requires !c.fired && c !in contexts.Values
      modifies this
      ensures Valid() && model == Next(old(model), Register)
      ensures contexts == old(contexts)[old(model).adding.value := c]
    {
      m := m[run := c];
      TableNext(model, Register);
      contexts, model := contexts[model.adding.value := c], Next(model, Register);
    }

    /** The read loop on a `run` frame: the ack, and if that was written the run's context and its entry. */
    method StartRun(run: RunId, acked: bool) returns (c: RunContext)
      requires Valid() && model.adding == None
      modifies this
      ensures Valid() && fresh(c)
      ensures model == if acked then Next(Next(old(model), ReadRun(run)), Register) else Next(old(model), AckFails(run))
      ensures contexts == if acked then old(contexts)[|old(model).runs| := c] else old(contexts)
    {
      c := new RunContext();
      if !acked {
        Elsewhere(AckFails(run));
        return;
      }
      Elsewhere(ReadRun(run));
      Add(run, c);
    }

    /** A goroutine's last deferred call, `i` being its run. */
    method Remove(run: RunId, ghost i: nat)
      requires Valid() && Started(model, i) && model.runs[i].pc == 8 && model.runs[i].id == run
      modifies this
      ensures Valid() && model == Next(old(model), Leaves(i)) && contexts == old(contexts)
    {
      m := m - {run};
      TableNext(model, Leaves(i));
      LeavesEffect(model, i);
      model := Next(model, Leaves(i));
    }

    /** The read loop on a cancel frame. */
    method Cancel(run: RunId)
      requires Valid() && model.adding == None
      modifies this`model, m.Values
      ensures Valid() && model == Next(old(model), ReadCancel(run)) && contexts == old(contexts)
    {
      if run in m {
        var c := m[run];
        c.fired := true;
      }
      model := Next(model, ReadCancel(run));
    }

    /** A goroutine's own deferred cancel of its context. */
    method CancelOwn(c: RunContext, ghost i: nat)
      requires Valid() && Started(model, i) && contexts[i] == c && model.runs[i].pc == 7
      modifies this`model, c
      ensures Valid() && model == Next(old(model), OwnCancel(i)) && contexts == old(contexts)
    {
      c.fired := true;
      model := Next(model, OwnCancel(i));
    }

    /** Every other step of the probe leaves the set and the contexts alone. */
    ghost method Elsewhere(step: Step)
      requires Valid() && (step.ReadRun? || step.AckFails? || step.Answers? || step.Writes?)
      modifies this`model
      ensures Valid() && model == Next(old(model), step) && contexts == old(contexts)
    {
      TableNext(model, step);
      model := Next(model, step);
    }
  }

  lemma LeavesEffect(s: Probe, i: nat)
    requires Started(s, i) && s.runs[i].pc == 8
    ensures var t := Next(s, Leaves(i));
      && t.adding == s.adding && |t.runs| == |s.runs| && t.cancels == s.cancels - {s.runs[i].id}
      && forall j :: 0 <= j < |s.runs| ==> t.runs[j].cancelled == s.runs[j].cancelled
  {
  }

  // ---- cancelling

  /** The read loop enters run `i`, of id `id`, into the cancel set. */
  predicate Registering(s: Probe, step: Step, i: nat, id: RunId) {
    step == Register && s.adding == Some(i) && i < |s.runs| && s.runs[i].id == id
  }

  /** The entry of `id` changes: some run of that id is entered, or leaves. */
  predicate Touching(s: Probe, step: Step, id: RunId) {
    || (step == Register && s.adding.Some? && Registering(s, step, s.adding.value, id))
    || (step.Leaves? && Started(s, step.run) && s.runs[step.run].pc == 8 && s.runs[step.run].id == id)
  }

  function Entering(i: nat, id: RunId): (Probe, Step) -> bool {
    (s: Probe, step: Step) => Registering(s, step, i, id)
  }

  function Changing(id: RunId): (Probe, Step) -> bool {
    (s: Probe, step: Step) => Touching(s, step, id)
  }

  /** Some step entered run `i` under `id`, and no later one entered a run of that id or let one leave. */
  ghost predicate EntryStands(steps: seq<Step>, i: nat, id: RunId) {
    Since(After, steps, 0, Entering(i, id), Changing(id))
  }

  predicate Holds(s: Probe, i: nat, id: RunId) {
    id in s.cancels && s.cancels[id] == i
  }

  lemma HoldsAfter(s: Probe, step: Step, i: nat, id: RunId)
    requires TableOk(s)
    ensures Holds(Next(s, step), i, id) <==>
      Registering(s, step, i, id) || (Holds(s, i, id) && !Touching(s, step, id))
    ensures (Holds(s, i, id) ==> Live(s.runs[i])) && (s.adding == Some(i) ==> RunOk(s, i)) ==>
      Holds(Next(s, step), i, id) ==> Live(Next(s, step).runs[i])
  {
  }

  lemma {:induction false} EntriesExactly(steps: seq<Step>, i: nat, id: RunId)
    ensures TableOk(After(steps))
    ensures Holds(After(steps), i, id) <==> EntryStands(steps, i, id)
    ensures Holds(After(steps), i, id) ==> Live(After(steps).runs[i])
  {
    AfterOk(steps, i);
    if steps != [] {
      var prefix, last := steps[..|steps| - 1], steps[|steps| - 1];
      assert steps == prefix + [last];
      EntriesExactly(prefix, i, id);
      AfterOk(prefix, i);
      HoldsAfter(After(prefix), last, i, id);
      SinceSnoc(After, prefix, last, 0, Entering(i, id), Changing(id));
    }
  }

  /**
   Over any run of steps: a cancel frame read now fires run `i` exactly when
   some step entered `i` under the frame's id and no later step entered a run
   of that id or let one leave. Every other context stays as it is, and none
   of a run that has left is fired.
   */
  lemma {:induction false} CancelFiresExactly(steps: seq<Step>, id: RunId, i: nat)
    requires After(steps).adding == None && i < |After(steps).runs|
    ensures var s, t := After(steps), Next(After(steps), ReadCancel(id));
      && (t.runs[i].cancelled <==> s.runs[i].cancelled || EntryStands(steps, i, id))
      && (EntryStands(steps, i, id) ==> s.runs[i].id == id && Live(s.runs[i]))
  {
    EntriesExactly(steps, i, id);
  }

  /** A goroutine that has written its finish fires its own context and no other; no other step but a cancel fires any. */
  lemma {:induction false} OwnCancelFires(steps: seq<Step>, i: nat, step: Step)
    requires i < |After(steps).runs|
    ensures var s, t := After(steps), Next(After(steps), OwnCancel(i));
      s.adding != Some(i) && s.runs[i].pc == 7 ==>
        t.runs[i].cancelled && forall j :: 0 <= j < |s.runs| && j != i ==> t.runs[j] == s.runs[j]
    ensures var s, t := After(steps), Next(After(steps), step);
      !step.ReadCancel? && step != OwnCancel(i) ==> i < |t.runs| && t.runs[i].cancelled == s.runs[i].cancelled
  {
  }

  /** Where a run id never came twice at once, the cancel set holds exactly its live, started run. */
  ghost predicate CancelsOk(s: Probe, id: RunId) {
    id !in s.overlapped ==>
      && (forall i, j :: 0 <= i < j < |s.runs| && s.runs[i].id == s.runs[j].id == id ==> !Live(s.runs[i]))
      && (forall i :: 0 <= i < |s.runs| && s.runs[i].id == id ==>
            (Live(s.runs[i]) && s.adding != Some(i) <==> id in s.cancels && s.cancels[id] == i))
      && (id in s.cancels ==> s.cancels[id] < |s.runs| && s.runs[s.cancels[id]].id == id)
  }

  lemma CancelsRead(s: Probe, run: RunId, id: RunId)
    requires TableOk(s) && CancelsOk(s, id)
    ensures CancelsOk(Next(s, ReadRun(run)), id)
  {
    var s' := Next(s, ReadRun(run));
    if id !in s'.overlapped && s.adding == None && run == id {
      forall i | 0 <= i < |s.runs| && s.runs[i].id == id ensures !Live(s.runs[i]) {
        assert s.runs[i] in s.runs;
      }
    }
  }

  lemma CancelsRegister(s: Probe, id: RunId)
    requires TableOk(s) && CancelsOk(s, id) && (s.adding.Some? ==> RunOk(s, s.adding.value))
    ensures CancelsOk(Next(s, Register), id)
  {
  }

  /** A step that touches one run only keeps the table right, if the run stays live or takes its entry with it. */
  lemma CancelsNext(s: Probe, step: Step, id: RunId)
    requires TableOk(s) && CancelsOk(s, id) && (s.adding.Some? ==> RunOk(s, s.adding.value))
    ensures CancelsOk(Next(s, step), id)
  {
    match step
    case ReadRun(run) => CancelsRead(s, run, id);
    case Register => CancelsRegister(s, id);
    case Leaves(i) => CancelsLeave(s, i, id);
    case _ => CancelsSame(s, Next(s, step), id);
  }

  lemma CancelsLeave(s: Probe, i: nat, id: RunId)
    requires CancelsOk(s, id)
    ensures CancelsOk(Next(s, Leaves(i)), id)
  {
  }

  lemma CancelsSame(s: Probe, s': Probe, id: RunId)
    requires CancelsOk(s, id)
    requires s'.overlapped == s.overlapped && s'.cancels == s.cancels && s'.adding == s.adding && |s'.runs| == |s.runs|
    requires forall i :: 0 <= i < |s.runs| ==> s'.runs[i].id == s.runs[i].id && Live(s'.runs[i]) == Live(s.runs[i])
    ensures CancelsOk(s', id)
  {
  }

  lemma {:induction false} CancelsAfter(steps: seq<Step>, id: RunId)
    ensures CancelsOk(After(steps), id)
  {
    if steps != [] {
      AfterOk(steps[..|steps| - 1], match After(steps[..|steps| - 1]).adding case Some(i) => i case None => 0);
      CancelsAfter(steps[..|steps| - 1], id);
      CancelsNext(After(steps[..|steps| - 1]), steps[|steps| - 1], id);
    }
  }

  /** A cancel frame for an id that was never live twice at once fires its live run, if it has one, and nothing else. */
  lemma {:induction false} CancelFiresTheLiveRun(steps: seq<Step>, id: RunId, i: nat)
    requires id !in After(steps).overlapped && After(steps).adding == None && i < |After(steps).runs|
    ensures var s, t := After(steps), Next(After(steps), ReadCancel(id));
      t.runs[i].cancelled <==> s.runs[i].cancelled || (s.runs[i].id == id && Live(s.runs[i]))
  {
    CancelsAfter(steps, id);
    AfterOk(steps, i);
  }

  /** All that run `i` does from its first event to the end. */
  function WholeRun(i: nat): seq<Step> {
    [Writes(i, true), Answers(i, "")]
    + [Writes(i, true), Writes(i, true), Writes(i, true), Writes(i, true), Writes(i, true)]
    + [OwnCancel(i), Leaves(i)]
  }

  /** The same run id is offered twice at once, and the first of the two runs comes to its end. */
  function Overlapping(id: RunId): seq<Step> {
    Opening(id) + Opening(id) + WholeRun(0)
  }

  function Ran(s: Probe, steps: seq<Step>): Probe
    decreases |steps|
  {
    if steps == [] then s else Ran(Next(s, steps[0]), steps[1..])
  }

  lemma {:induction false} AfterSnoc(prefix: seq<Step>, step: Step)
    ensures After(prefix + [step]) == Next(After(prefix), step)
  {
    assert (prefix + [step])[..|prefix|] == prefix;
  }

  lemma {:induction false} RanOn(s: Probe, steps: seq<Step>)
    requires steps != []
    ensures Ran(s, steps) == Ran(Next(s, steps[0]), steps[1..])
  {
  }

  lemma {:induction false} RanIsAfter(prefix: seq<Step>, more: seq<Step>)
    ensures Ran(After(prefix), more) == After(prefix + more)
    decreases |more|
  {
    if more == [] {
      NothingAdded(prefix);
    } else {
      RanOn(After(prefix), more);
      AfterSnoc(prefix, more[0]);
      RanIsAfter(prefix + [more[0]], more[1..]);
      Shifted(prefix, more);
    }
  }

  lemma NothingAdded(prefix: seq<Step>)
    ensures prefix + [] == prefix
  {
  }

  lemma Shifted(prefix: seq<Step>, more: seq<Step>)
    requires more != []
    ensures (prefix + [more[0]]) + more[1..] == prefix + more
  {
  }

  lemma {:induction false} RanConcat(s: Probe, a: seq<Step>, b: seq<Step>)
    ensures Ran(s, a + b) == Ran(Ran(s, a), b)
    decreases |a|
  {
    if a == [] {
      assert a + b == b;
    } else {
      assert (a + b)[1..] == a[1..] + b;
      RanConcat(Next(s, a[0]), a[1..], b);
    }
  }

  /** `n` writes in a row move a run that has its answer on by `n`. */
  lemma {:induction false} WritesOn(s: Probe, i: nat, n: nat)
    requires Started(s, i) && s.runs[i].text.Some? && s.runs[i].pc + n <= 7
    ensures var t := Ran(s, seq(n, _ => Writes(i, true)));
      t.runs == s.runs[i := s.runs[i].(pc := s.runs[i].pc + n)] && t.cancels == s.cancels && t.adding == s.adding
    decreases n
  {
    var steps := seq(n, _ => Writes(i, true));
    if n > 0 {
      assert steps[1..] == seq(n - 1, _ => Writes(i, true));
      WritesOn(Next(s, steps[0]), i, n - 1);
    }
  }

  lemma {:induction false} WholeRunLeaves(s: Probe, i: nat)
    requires Started(s, i) && s.runs[i].pc == 1 && s.runs[i].text == None
    ensures var t := Ran(s, WholeRun(i));
      && |t.runs| == |s.runs| && t.adding == s.adding && t.cancels == s.cancels - {s.runs[i].id}
      && forall j :: 0 <= j < |s.runs| && j != i ==> t.runs[j] == s.runs[j]
  {
    var first := [Writes(i, true), Answers(i, "")];
    var middle := [Writes(i, true), Writes(i, true), Writes(i, true), Writes(i, true), Writes(i, true)];
    var last := [OwnCancel(i), Leaves(i)];
    RanConcat(s, first + middle, last);
    RanConcat(s, first, middle);
    var t := Ran(s, first);
    RanTwo(s, first);
    assert t.runs[i].pc == 2 && t.runs[i].text == Some("");
    assert middle == seq(5, _ => Writes(i, true));
    WritesOn(t, i, 5);
    RanTwo(Ran(t, middle), last);
  }

  lemma {:induction false} RanTwo(s: Probe, two: seq<Step>)
    requires |two| == 2
    ensures Ran(s, two) == Next(Next(s, two[0]), two[1])
  {
    assert two[1..] == [two[1]] && two[1..][1..] == [];
    assert Ran(Next(s, two[0]), [two[1]]) == Ran(Next(Next(s, two[0]), two[1]), [two[1]][1..]);
  }

  function Opening(id: RunId): seq<Step> {
    [ReadRun(id), Register]
  }

  /** A run is read and started. */
  lemma {:induction false} OpeningStarts(s: Probe, id: RunId)
    requires s.adding == None
    ensures var t := Ran(s, Opening(id));
      t.adding == None && t.runs == s.runs + [Run(id, 1, None, false)] && t.cancels == s.cancels[id := |s.runs|]
  {
    RanTwo(s, Opening(id));
  }

  lemma TwoStarted(id: RunId)
    ensures var t := Ran(IDLE, Opening(id) + Opening(id)); var r := Run(id, 1, None, false);
      t.adding == None && t.runs == [r, r] && t.cancels == map[id := 1]
  {
    RanConcat(IDLE, Opening(id), Opening(id));
    OpeningStarts(IDLE, id);
    OpeningStarts(Ran(IDLE, Opening(id)), id);
  }

  /** The failing family has this member: both runs were started, the second is live, and a cancel for their id does nothing. */
  lemma OverlapLosesTheCancel(id: RunId)
    ensures var s := After(Overlapping(id));
      && |s.runs| == 2 && s.adding == None && s.runs[1].id == id && Live(s.runs[1]) && !s.runs[1].cancelled
      && Next(s, ReadCancel(id)) == s
  {
    var started := Ran(IDLE, Opening(id) + Opening(id));
    TwoStarted(id);
    WholeRunLeaves(started, 0);
    RanConcat(IDLE, Opening(id) + Opening(id), WholeRun(0));
    OverlapIsARun(id);
  }

  lemma OverlapIsARun(id: RunId)
    ensures After(Overlapping(id)) == Ran(IDLE, Overlapping(id))
  {
    RanIsAfter([], Overlapping(id));
    assert [] + Overlapping(id) == Overlapping(id);
  }

  // ---- one run id's share of the wire

  function Named(id: RunId): Write -> Option<Frame> {
    (w: Write) => if w.frame.run == id then Some(w.frame) else None
  }

  /** What reached the wire under `id`. */
  function NamedSent(id: RunId): Write -> Option<Frame> {
    (w: Write) => if w.frame.run == id && w.ok then Some(w.frame) else None
  }

  lemma {:induction false} AllNamedSent(writes: seq<Write>, id: RunId)
    requires forall w :: w in writes && w.frame.run == id ==> w.ok
    ensures Pick(writes, NamedSent(id)) == Pick(writes, Named(id))
  {
    if writes != [] {
      AllNamedSent(writes[1..], id);
    }
  }

  /** What the runs of `id`, one after the other, should have written. */
  function Told(runs: seq<Run>, id: RunId): seq<Frame> {
    if runs == [] then []
    else
      var last := runs[|runs| - 1];
      Told(runs[..|runs| - 1], id) + if last.id == id then Script(last)[..Done(last)] else []
  }

  lemma {:induction false} ToldIgnores(runs: seq<Run>, i: nat, r: Run, id: RunId)
    requires i < |runs| && r.id == runs[i].id
    requires runs[i].id == id ==> Script(r)[..Done(r)] == Script(runs[i])[..Done(runs[i])]
    ensures Told(runs[i := r], id) == Told(runs, id)
  {
    var front := runs[..|runs| - 1];
    if i < |front| {
      assert runs[i := r][..|runs| - 1] == front[i := r];
      ToldIgnores(front, i, r, id);
    } else {
      assert runs[i := r][..|runs| - 1] == front;
    }
  }

  /** The run that is the last of its id adds to the end of what is told. */
  lemma {:induction false} ToldGrows(runs: seq<Run>, i: nat, r: Run, frame: Frame)
    requires i < |runs| && r.id == runs[i].id
    requires Script(r)[..Done(r)] == Script(runs[i])[..Done(runs[i])] + [frame]
    requires forall j :: i < j < |runs| ==> runs[j].id != r.id
    ensures Told(runs[i := r], r.id) == Told(runs, r.id) + [frame]
  {
    var front := runs[..|runs| - 1];
    if i < |front| {
      assert runs[i := r][..|runs| - 1] == front[i := r];
      ToldGrows(front, i, r, frame);
    } else {
      assert runs[i := r][..|runs| - 1] == front;
    }
  }

  lemma {:induction false} ToldWhenWritten(s: Probe, i: nat, ok: bool, id: RunId)
    requires TableOk(s) && CancelsOk(s, id) && RunOk(s, i) && MayWrite(s, i) && id !in s.overlapped
    requires Pick(s.writes, Named(id)) == Told(s.runs, id)
    ensures Pick(Next(s, Writes(i, ok)).writes, Named(id)) == Told(Next(s, Writes(i, ok)).runs, id)
  {
    var s' := Next(s, Writes(i, ok));
    var r, w := s'.runs[i], s'.writes[|s.writes|];
    assert w.frame.run == r.id;
    PickSnoc(s.writes, w, Named(id));
    if r.id == id {
      ScriptGrows(s.runs[i], r);
      LaterRunsDiffer(s, i);
      ToldGrows(s.runs, i, r, w.frame);
    } else {
      ToldIgnores(s.runs, i, r, id);
    }
  }

  lemma ScriptGrows(before: Run, after: Run)
    requires before.pc < 7 && after == before.(pc := before.pc + 1)
    ensures Script(after)[..Done(after)] == Script(before)[..Done(before)] + [Script(before)[before.pc]]
  {
  }

  /** A run that still writes is the last of its id, where that id is live at most once at a time. */
  lemma LaterRunsDiffer(s: Probe, i: nat)
    requires i < |s.runs| && Live(s.runs[i]) && CancelsOk(s, s.runs[i].id) && s.runs[i].id !in s.overlapped
    ensures forall j :: i < j < |s.runs| ==> s.runs[j].id != s.runs[i].id
  {
  }

  lemma {:induction false} ToldWhenRead(s: Probe, run: RunId, id: RunId)
    requires Pick(s.writes, Named(id)) == Told(s.runs, id)
    ensures Pick(Next(s, ReadRun(run)).writes, Named(id)) == Told(Next(s, ReadRun(run)).runs, id)
  {
    if s.adding == None {
      PickSnoc(s.writes, Write(|s.runs|, Ack(run), true), Named(id));
      ToldSnoc(s.runs, Run(run, 1, None, false), id);
      NewRunHasAcked(run);
    }
  }

  lemma {:induction false} ToldSnoc(runs: seq<Run>, r: Run, id: RunId)
    ensures Told(runs + [r], id) == Told(runs, id) + if r.id == id then Script(r)[..Done(r)] else []
  {
    assert (runs + [r])[..|runs|] == runs;
  }

  lemma NewRunHasAcked(id: RunId)
    ensures var r := Run(id, 1, None, false); Script(r)[..Done(r)] == [Ack(id)]
  {
  }

  /** A step that writes nothing changes at most one run, in a way its script does not show. */
  lemma {:induction false} ToldWhenSilent(s: Probe, step: Step, id: RunId)
    requires TableOk(s) && forall i :: RunOk(s, i)
    requires !step.ReadRun? && !step.Writes?
    ensures Next(s, step).writes == s.writes && Told(Next(s, step).runs, id) == Told(s.runs, id)
  {
    var s' := Next(s, step);
    if s'.runs != s.runs {
      var i := match step case ReadCancel(run) => s.cancels[run] case Answers(i, _) => i case OwnCancel(i) => i case Leaves(i) => i case _ => 0;
      assert RunOk(s, i);
      assert Script(s'.runs[i])[..Done(s'.runs[i])] == Script(s.runs[i])[..Done(s.runs[i])];
      ToldIgnores(s.runs, i, s'.runs[i], id);
    }
  }

  lemma {:induction false} ToldNext(s: Probe, step: Step, id: RunId)
    requires TableOk(s) && CancelsOk(s, id) && forall i :: RunOk(s, i)
    requires id !in s.overlapped
    requires Pick(s.writes, Named(id)) == Told(s.runs, id)
    ensures Pick(Next(s, step).writes, Named(id)) == Told(Next(s, step).runs, id)
  {
    match step
    case ReadRun(run) => ToldWhenRead(s, run, id);
    case Writes(i, ok) =>
      if MayWrite(s, i) {
        assert RunOk(s, i);
        ToldWhenWritten(s, i, ok, id);
      }
    case _ => ToldWhenSilent(s, step, id);
  }

  lemma {:induction false} RunsOk(steps: seq<Step>)
    ensures TableOk(After(steps)) && forall i :: RunOk(After(steps), i)
  {
    AfterOk(steps, 0);
    forall i ensures RunOk(After(steps), i) {
      AfterOk(steps, i);
    }
  }

  /** Every run of an id but the last has left. */
  lemma EarlierRunsAreDone(s: Probe, id: RunId)
    requires CancelsOk(s, id) && id !in s.overlapped
    ensures forall i, j :: 0 <= i < j < |s.runs| && s.runs[i].id == s.runs[j].id == id ==> Done(s.runs[i]) == 7
  {
  }

  lemma {:induction false} WritesAreTold(steps: seq<Step>, id: RunId)
    requires id !in After(steps).overlapped
    ensures Pick(After(steps).writes, Named(id)) == Told(After(steps).runs, id)
  {
    if steps != [] {
      var prefix, last := steps[..|steps| - 1], steps[|steps| - 1];
      WritesAreTold(prefix, id);
      CancelsAfter(prefix, id);
      RunsOk(prefix);
      ToldNext(After(prefix), last, id);
    }
  }

  /**
   What the runs of one id write: as long as the id is live at most once at a
   time, whole scripts one after the other, the last of them perhaps unfinished.
   */
  lemma {:induction false} WritesTellScripts(steps: seq<Step>, id: RunId)
    requires id !in After(steps).overlapped
    ensures Pick(After(steps).writes, Named(id)) == Told(After(steps).runs, id)
    ensures forall i, j :: 0 <= i < j < |After(steps).runs| && After(steps).runs[i].id == After(steps).runs[j].id == id ==>
              Done(After(steps).runs[i]) == 7
  {
    WritesAreTold(steps, id);
    CancelsAfter(steps, id);
    EarlierRunsAreDone(After(steps), id);
  }

  /** And that is the wire as the other end sees it, if the writes under this id succeeded. */
  lemma {:induction false} WireTellsScripts(steps: seq<Step>, id: RunId)
    requires id !in After(steps).overlapped
    requires forall w :: w in After(steps).writes && w.frame.run == id ==> w.ok
    ensures Pick(After(steps).writes, NamedSent(id)) == Told(After(steps).runs, id)
    ensures forall i, j :: 0 <= i < j < |After(steps).runs| && After(steps).runs[i].id == After(steps).runs[j].id == id ==>
              Done(After(steps).runs[i]) == 7
  {
    WritesTellScripts(steps, id);
    AllNamedSent(After(steps).writes, id);
  }
}
