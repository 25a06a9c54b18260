/** Upstream chat-completion chunks become AG-UI events: a fixed grammar, with the text kept. */
module ChatTranslation {
  import opened Seqs

  /** A choice's delta content, or a choice whose reading raises. */
  datatype Choice = Delta(content: Option<string>) | BadChoice(message: string)

  /** One upstream event: `[DONE]`, a chunk, or whatever makes reading raise (bad JSON, a dropped connection). */
  datatype Upstream = DoneMark | Chunk(choices: seq<Choice>) | Broken(message: string)

  datatype Event =
    | RunStarted
    | TextStart
    | TextContent(delta: string)
    | TextEnd
    | RunError(message: string)
    | RunFinished

  /** What got through before the end, and the exception that ended it if one did. */
  datatype Outcome = Outcome(deltas: seq<string>, failure: Option<string>)

  /** A delta that is absent or empty says nothing. */
  function Said(content: Option<string>): seq<string> {
    if content.Some? && content.value != "" then [content.value] else []
  }

  function ThroughChoices(choices: seq<Choice>): Outcome {
    if choices == [] then Outcome([], None)
    else
      match choices[0]
      case BadChoice(m) => Outcome([], Some(m))
      case Delta(content) =>
        var rest := ThroughChoices(choices[1..]);
        Outcome(Said(content) + rest.deltas, rest.failure)
  }

  function Then(first: Outcome, rest: Outcome): Outcome {
    if first.failure.Some? then first else Outcome(first.deltas + rest.deltas, rest.failure)
  }

  function Delivered(upstream: seq<Upstream>): Outcome {
    if upstream == [] then Outcome([], None)
    else
      match upstream[0]
      case DoneMark => Outcome([], None)
      case Broken(m) => Outcome([], Some(m))
      case Chunk(choices) => Then(ThroughChoices(choices), Delivered(upstream[1..]))
  }

  function Contents(deltas: seq<string>): (events: seq<Event>)
    ensures |events| == |deltas|
  {
    seq(|deltas|, i requires 0 <= i < |deltas| => TextContent(deltas[i]))
  }

  /** A run begun, and the text so far: opened by its first delta. */
  function Begun(deltas: seq<string>): seq<Event> {
    if deltas == [] then [RunStarted] else [RunStarted, TextStart] + Contents(deltas)
  }

  const FAILED := "upstream call failed: "

  function Ending(o: Outcome): seq<Event> {
    match o.failure
    case Some(m) => [RunError(FAILED + m)]
    case None => if o.deltas == [] then [RunFinished] else [TextEnd, RunFinished]
  }

  function Told(o: Outcome): seq<Event> {
    Begun(o.deltas) + Ending(o)
  }

  lemma BegunGrows(deltas: seq<string>, d: string)
    ensures Begun(deltas + [d]) == (if deltas == [] then [RunStarted, TextStart] else Begun(deltas)) + [TextContent(d)]
  {
    assert Contents(deltas + [d]) == Contents(deltas) + [TextContent(d)];
    assert deltas == [] ==> Contents(deltas) == [];
  }

  lemma {:induction false} ChunkNext(deltas: seq<string>, upstream: seq<Upstream>)
    requires upstream != [] && upstream[0].Chunk?
    ensures var more := ThroughChoices(upstream[0].choices);
            Then(Outcome(deltas, None), Delivered(upstream)) == Then(Outcome(deltas + more.deltas, more.failure), Delivered(upstream[1..]))
  {
    var more, rest := ThroughChoices(upstream[0].choices), Delivered(upstream[1..]);
    assert deltas + (more.deltas + rest.deltas) == deltas + more.deltas + rest.deltas;
  }

  lemma {:induction false} ChoiceNext(told: seq<string>, choices: seq<Choice>)
    requires choices != []
    ensures choices[0].BadChoice? ==>
      Then(Outcome(told, None), ThroughChoices(choices)) == Outcome(told, Some(choices[0].message))
    ensures choices[0].Delta? ==>
      Then(Outcome(told, None), ThroughChoices(choices)) == Then(Outcome(told + Said(choices[0].content), None), ThroughChoices(choices[1..]))
  {
    if choices[0].Delta? {
      var now, rest := Said(choices[0].content), ThroughChoices(choices[1..]).deltas;
      assert told + (now + rest) == told + now + rest;
    } else {
      assert told + [] == told;
    }
  }

  method RunStream(upstream: seq<Upstream>) returns (events: seq<Event>)
    ensures events == Told(Delivered(upstream))
    ensures forall k: nat :: CleanUpTo(upstream, k) ==> Tells(upstream, events, k)
  {
    forall k: nat | CleanUpTo(upstream, k) ensures Tells(upstream, Told(Delivered(upstream)), k) {
      NothingSaidIsLost(upstream, k);
    }
    events := [RunStarted];
    var started := false;
    var failure: Option<string> := None;
    ghost var deltas: seq<string> := [];
    var i := 0;
    assert upstream[0..] == upstream;
    while i < |upstream| && failure == None && upstream[i] != DoneMark
      invariant i <= |upstream| && started == (deltas != [])
      invariant events == Begun(deltas)
      invariant Then(Outcome(deltas, failure), Delivered(upstream[i..])) == Delivered(upstream)
      decreases |upstream| - i, failure == None
    {
      if upstream[i].Broken? {
        failure := Some(upstream[i].message);
      } else {
        assert upstream[i..][1..] == upstream[i + 1..];
        ChunkNext(deltas, upstream[i..]);
        events, started, failure, deltas := Relay(upstream[i].choices, events, started, deltas);
        i := i + 1;
      }
    }
    if failure.Some? {
      events := events + [RunError(FAILED + failure.value)];
      return;
    }
    assert Delivered(upstream[i..]) == Outcome([], None);
    assert deltas + [] == deltas;
    events := events + if started then [TextEnd, RunFinished] else [RunFinished];
  }

  /** One chunk's choices, in order, up to the first that raises. */
  method Relay(choices: seq<Choice>, soFar: seq<Event>, startedAlready: bool, ghost deltas: seq<string>)
    returns (events: seq<Event>, started: bool, failure: Option<string>, ghost told: seq<string>)
    requires soFar == Begun(deltas) && startedAlready == (deltas != [])
    ensures Outcome(told, failure) == Then(Outcome(deltas, None), ThroughChoices(choices))
    ensures events == Begun(told) && started == (told != [])
  {
    events, started, failure, told := soFar, startedAlready, None, deltas;
    assert choices[0..] == choices;
    for j := 0 to |choices|
      invariant failure == None
      invariant events == Begun(told) && started == (told != [])
      invariant Then(Outcome(told, None), ThroughChoices(choices[j..])) == Then(Outcome(deltas, None), ThroughChoices(choices))
    {
      assert choices[j..][1..] == choices[j + 1..];
      ChoiceNext(told, choices[j..]);
      if choices[j].BadChoice? {
        failure := Some(choices[j].message);
        return;
      }
      var content := choices[j].content;
      assert told + [] == told;
      if content.Some? && content.value != "" {
        BegunGrows(told, content.value);
        if !started {
          events := events + [TextStart];
          started := true;
        }
        events := events + [TextContent(content.value)];
        told := told + [content.value];
      }
    }
  }

  // ---- the grammar, as an automaton of its own

  datatype Phase = Begin | Idle | Opened | Speaking | Closed | Over | Wrong

  function Advance(p: Phase, e: Event): Phase {
    match (p, e)
    case (Begin, RunStarted) => Idle
    case (Idle, TextStart) => Opened
    case (Idle, RunFinished) => Over
    case (Idle, RunError(_)) => Over
    case (Opened, TextContent(_)) => Speaking
    case (Speaking, TextContent(_)) => Speaking
    case (Speaking, TextEnd) => Closed
    case (Speaking, RunError(_)) => Over
    case (Closed, RunFinished) => Over
    case _ => Wrong
  }

  function Reach(events: seq<Event>): Phase {
    if events == [] then Begin else Advance(Reach(events[..|events| - 1]), events[|events| - 1])
  }

  lemma {:induction false} ReachSnoc(events: seq<Event>, e: Event)
    ensures Reach(events + [e]) == Advance(Reach(events), e)
  {
    assert (events + [e])[..|events|] == events;
  }

  lemma {:induction false} ReachSpeaking(deltas: seq<string>)
    ensures Reach(Begun(deltas)) == if deltas == [] then Idle else Speaking
  {
    ReachSnoc([], RunStarted);
    assert [] + [RunStarted] == [RunStarted];
    if deltas != [] {
      var front, last := deltas[..|deltas| - 1], deltas[|deltas| - 1];
      ReachSpeaking(front);
      assert deltas == front + [last];
      BegunGrows(front, last);
      ReachSnoc([RunStarted], TextStart);
      assert [RunStarted] + [TextStart] == [RunStarted, TextStart];
      ReachSnoc(if front == [] then [RunStarted, TextStart] else Begun(front), TextContent(last));
    }
  }

  /** Whatever upstream sends, and wherever it breaks, the events are a complete sentence of the grammar. */
  lemma {:induction false} EventsAreGrammatical(upstream: seq<Upstream>)
    ensures Reach(Told(Delivered(upstream))) == Over
  {
    var o := Delivered(upstream);
    ReachSpeaking(o.deltas);
    EndingCloses(Begun(o.deltas), o);
  }

  lemma {:induction false} EndingCloses(begun: seq<Event>, o: Outcome)
    requires Reach(begun) == if o.deltas == [] then Idle else Speaking
    ensures Reach(begun + Ending(o)) == Over
  {
    match o.failure
    case Some(m) => ReachSnoc(begun, RunError(FAILED + m));
    case None =>
      ReachSnoc(begun, RunFinished);
      ReachSnoc(begun, TextEnd);
      ReachSnoc(begun + [TextEnd], RunFinished);
      assert begun + [TextEnd, RunFinished] == begun + [TextEnd] + [RunFinished];
  }

  // ---- the text

  function DeltaOf(): Event -> Option<string> {
    (e: Event) => if e.TextContent? then Some(e.delta) else None
  }

  function ErrorOf(): Event -> Option<string> {
    (e: Event) => if e.RunError? then Some(e.message) else None
  }

  lemma BegunPicked(deltas: seq<string>)
    ensures Pick(Begun(deltas), DeltaOf()) == deltas && Pick(Begun(deltas), ErrorOf()) == []
  {
    ContentsPicked(deltas);
    PickNothing([RunStarted, TextStart], DeltaOf());
    PickNothing([RunStarted, TextStart], ErrorOf());
    PickConcat([RunStarted, TextStart], Contents(deltas), DeltaOf());
    PickConcat([RunStarted, TextStart], Contents(deltas), ErrorOf());
    PickNothing([RunStarted], DeltaOf());
    PickNothing([RunStarted], ErrorOf());
  }

  lemma EndingPicked(o: Outcome)
    ensures Pick(Ending(o), DeltaOf()) == []
    ensures Pick(Ending(o), ErrorOf()) == match o.failure case Some(m) => [FAILED + m] case None => []
  {
    PickNothing(Ending(o), DeltaOf());
    match o.failure
    case Some(m) => PickOne(RunError(FAILED + m), ErrorOf());
    case None => PickNothing(Ending(o), ErrorOf());
  }

  lemma {:induction false} ContentsPicked(deltas: seq<string>)
    ensures Pick(Contents(deltas), DeltaOf()) == deltas && Pick(Contents(deltas), ErrorOf()) == []
  {
    if deltas != [] {
      assert Contents(deltas)[1..] == Contents(deltas[1..]);
      ContentsPicked(deltas[1..]);
    }
  }

  // ---- upstream's own terms

  /** A chunk of which every choice can be read. */
  ghost predicate Clean(u: Upstream) {
    u.Chunk? && forall c :: c in u.choices ==> c.Delta?
  }

  /** The first `k` are clean chunks, and what follows them, if anything does, is none. */
  ghost predicate CleanUpTo(upstream: seq<Upstream>, k: nat) {
    k <= |upstream| && (forall i :: 0 <= i < k ==> Clean(upstream[i])) && (k < |upstream| ==> !Clean(upstream[k]))
  }

  ghost predicate FirstBad(choices: seq<Choice>, j: nat) {
    j < |choices| && choices[j].BadChoice? && forall i :: 0 <= i < j ==> choices[i].Delta?
  }

  function ContentOf(): Choice -> Option<string> {
    (c: Choice) => if c.Delta? && c.content != None && c.content != Some("") then c.content else None
  }

  /** What the choices say, one after the other, where they say anything. */
  function Spoken(choices: seq<Choice>): seq<string> {
    Pick(choices, ContentOf())
  }

  function ChoicesOf(chunks: seq<Upstream>): seq<Choice> {
    if chunks == [] then [] else (if chunks[0].Chunk? then chunks[0].choices else []) + ChoicesOf(chunks[1..])
  }

  lemma {:induction false} ChoicesAreSpoken(choices: seq<Choice>)
    requires forall c :: c in choices ==> c.Delta?
    ensures ThroughChoices(choices) == Outcome(Spoken(choices), None)
  {
    if choices != [] { ChoicesAreSpoken(choices[1..]); }
  }

  lemma {:induction false} BadChoiceEnds(choices: seq<Choice>, j: nat)
    requires FirstBad(choices, j)
    ensures ThroughChoices(choices) == Outcome(Spoken(choices[..j]), Some(choices[j].message))
  {
    if j > 0 {
      BadChoiceEnds(choices[1..], j - 1);
      assert choices[..j][1..] == choices[1..][..j - 1];
    }
  }

  lemma ThenTwice(a: seq<string>, b: seq<string>, rest: Outcome)
    ensures Then(Outcome(a, None), Then(Outcome(b, None), rest)) == Then(Outcome(a + b, None), rest)
  {
    assert a + (b + rest.deltas) == a + b + rest.deltas;
  }

  lemma SpokenFirst(upstream: seq<Upstream>, k: nat)
    requires 0 < k <= |upstream| && upstream[0].Chunk?
    ensures Spoken(ChoicesOf(upstream[..k])) == Spoken(upstream[0].choices) + Spoken(ChoicesOf(upstream[1..][..k - 1]))
  {
    assert upstream[..k][1..] == upstream[1..][..k - 1];
    PickConcat(upstream[0].choices, ChoicesOf(upstream[1..][..k - 1]), ContentOf());
  }

  /** What clean chunks say stands in front, and does not change what the rest comes to. */
  lemma {:induction false} CleanChunksAreSpoken(upstream: seq<Upstream>, k: nat)
    requires k <= |upstream| && forall i :: 0 <= i < k ==> Clean(upstream[i])
    ensures Delivered(upstream) == Then(Outcome(Spoken(ChoicesOf(upstream[..k])), None), Delivered(upstream[k..]))
  {
    if k == 0 {
      assert upstream[0..] == upstream && [] + Delivered(upstream).deltas == Delivered(upstream).deltas;
    } else {
      var first, rest := upstream[0], upstream[1..];
      assert rest[k - 1..] == upstream[k..];
      CleanChunksAreSpoken(rest, k - 1);
      ChoicesAreSpoken(first.choices);
      SpokenFirst(upstream, k);
      ThenTwice(Spoken(first.choices), Spoken(ChoicesOf(rest[..k - 1])), Delivered(upstream[k..]));
    }
  }

  /** The run says just this, in contents, and then ends well. */
  ghost predicate EndsWell(events: seq<Event>, said: seq<string>) {
    && Pick(events, DeltaOf()) == said && Pick(events, ErrorOf()) == []
    && events != [] && events[|events| - 1] == RunFinished
  }

  /** It says just this and then the one error, and neither closes its text nor finishes. */
  ghost predicate EndsInError(events: seq<Event>, said: seq<string>, message: string) {
    && Pick(events, DeltaOf()) == said && Pick(events, ErrorOf()) == ["upstream call failed: " + message]
    && events != [] && events[|events| - 1] == RunError("upstream call failed: " + message)
    && RunFinished !in events && TextEnd !in events
  }

  lemma OutcomeIsTold(o: Outcome, events: seq<Event>)
    requires events == Told(o)
    ensures o.failure == None ==> EndsWell(events, o.deltas)
    ensures forall m :: o.failure == Some(m) ==> EndsInError(events, o.deltas, m)
  {
    PickConcat(Begun(o.deltas), Ending(o), DeltaOf());
    PickConcat(Begun(o.deltas), Ending(o), ErrorOf());
    BegunPicked(o.deltas);
    EndingPicked(o);
    BegunHasNoEnd(o.deltas);
    assert events[|events| - 1] == Ending(o)[|Ending(o)| - 1];
  }

  lemma BegunHasNoEnd(deltas: seq<string>)
    ensures RunFinished !in Begun(deltas) && TextEnd !in Begun(deltas)
  {
  }

  /**
   What the run tells, in terms of what upstream sent, whose first `k` elements
   are clean chunks: the contents of those, and then the end that the next element
   calls for. `[DONE]` and the end of the stream finish the run; a break, or a
   choice that cannot be read, ends it in the error it raised.
   */
  ghost predicate Tells(upstream: seq<Upstream>, events: seq<Event>, k: nat)
    requires k <= |upstream|
  {
    var said := ChoicesOf(upstream[..k]);
    && (k == |upstream| || upstream[k] == DoneMark ==> EndsWell(events, Spoken(said)))
    && (forall m :: k < |upstream| && upstream[k] == Broken(m) ==> EndsInError(events, Spoken(said), m))
    && (forall j: nat :: k < |upstream| && upstream[k].Chunk? && FirstBad(upstream[k].choices, j) ==>
          EndsInError(events, Spoken(said + upstream[k].choices[..j]), upstream[k].choices[j].message))
  }

  /** The deltas read back are all that was said before the end, in order, and the end is the right one. */
  lemma {:induction false} NothingSaidIsLost(upstream: seq<Upstream>, k: nat)
    requires CleanUpTo(upstream, k)
    ensures Tells(upstream, Told(Delivered(upstream)), k)
  {
    CleanChunksAreSpoken(upstream, k);
    var said := Spoken(ChoicesOf(upstream[..k]));
    OutcomeIsTold(Delivered(upstream), Told(Delivered(upstream)));
    if k < |upstream| && upstream[k].Chunk? {
      forall j: nat | FirstBad(upstream[k].choices, j)
        ensures Delivered(upstream) == Outcome(Spoken(ChoicesOf(upstream[..k]) + upstream[k].choices[..j]), Some(upstream[k].choices[j].message))
      {
        BadChoiceEnds(upstream[k].choices, j);
        PickConcat(ChoicesOf(upstream[..k]), upstream[k].choices[..j], ContentOf());
      }
    } else {
      assert said + [] == said;
    }
  }

  /** Nothing behind the first element that is not a clean chunk makes any difference. */
  lemma NothingBehindIsRead(upstream: seq<Upstream>, k: nat, other: seq<Upstream>)
    requires CleanUpTo(upstream, k) && k < |upstream|
    ensures Told(Delivered(upstream[..k + 1] + other)) == Told(Delivered(upstream))
  {
    var front := upstream[..k + 1] + other;
    CleanChunksAreSpoken(upstream, k);
    CleanChunksAreSpoken(front, k);
    assert front[..k] == upstream[..k] && front[k..][0] == upstream[k] == upstream[k..][0];
    if upstream[k].Chunk? {
      StuckChunk(upstream[k].choices);
    }
  }

  /** A chunk that is not clean raises. */
  lemma {:induction false} StuckChunk(choices: seq<Choice>)
    requires exists c :: c in choices && c.BadChoice?
    ensures ThroughChoices(choices).failure.Some?
  {
    if choices[0].Delta? {
      assert choices == [choices[0]] + choices[1..];
      StuckChunk(choices[1..]);
    }
  }
}
