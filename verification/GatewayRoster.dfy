/** The two tables of a provider connection over any run: the names it has registered, and what it takes as interjections. */
module GatewayRoster {
  import opened Seqs
  import opened GatewaySocket
  import opened GatewayAnswers

  /** What a roster says of a name: its last entry counts. */
  predicate SaysYes(agents: seq<Registration>, name: Name) {
    exists i :: 0 <= i < |agents| && agents[i] == Registration(name, true) && forall j :: i < j < |agents| ==> agents[j].name != name
  }

  lemma {:induction false} TableExactly(agents: seq<Registration>, name: Name)
    ensures name in Table(agents) <==> exists i :: 0 <= i < |agents| && agents[i].name == name
    ensures name in Table(agents) && Table(agents)[name] <==> SaysYes(agents, name)
  {
    if agents != [] {
      var front, last := agents[..|agents| - 1], agents[|agents| - 1];
      TableExactly(front, name);
      if last.name == name {
        assert agents[|agents| - 1].name == name;
        if last.takesInterjections { assert agents[|agents| - 1] == Registration(name, true); }
      } else {
        assert forall i :: 0 <= i < |front| ==> front[i] == agents[i];
        assert SaysYes(front, name) <==> SaysYes(agents, name);
      }
    }
  }

  // ---- the frames that count

  /** A `register` frame that the read loop takes, and that parses. */
  predicate Declares(s: Socket, step: Step) {
    s.up && s.reading == Idle && step.Register? && Parsed(step.agents).Roster?
  }

  /** The broker grants the roster the read loop is waiting on. */
  predicate Grants(s: Socket, step: Step) {
    s.up && s.reading.Registering? && step.RosterAnswered? && step.granted.Some?
  }

  /** The broker lets go of the one name the read loop is waiting on. */
  predicate Deletes(s: Socket, step: Step, name: Name) {
    s.up && s.reading == Deleting(name) && step == DeletionAnswered(None)
  }

  function Granting(name: Name): (Socket, Step) -> bool {
    (s: Socket, step: Step) => Grants(s, step) && name in step.granted.value
  }

  /** A new grant replaces all names, a deletion takes one away. */
  function Ousting(name: Name): (Socket, Step) -> bool {
    (s: Socket, step: Step) => Grants(s, step) || Deletes(s, step, name)
  }

  function DeclaringYes(name: Name): (Socket, Step) -> bool {
    (s: Socket, step: Step) => Declares(s, step) && SaysYes(Parsed(step.agents).agents, name)
  }

  // ---- what each step does to the tables

  lemma NamesAfter(s: Socket, step: Step)
    ensures Next(s, step).registeredNames ==
      if Grants(s, step) then SetOf(step.granted.value)
      else if s.reading.Deleting? && Deletes(s, step, s.reading.name) then s.registeredNames - {s.reading.name}
      else s.registeredNames
  {
  }

  lemma InterjectionsAfter(s: Socket, step: Step)
    ensures Next(s, step).interjections == if Declares(s, step) then Table(Parsed(step.agents).agents) else s.interjections
  {
  }

  lemma {:induction false} AfterSnoc(prefix: seq<Step>, step: Step)
    ensures After(prefix + [step]) == Next(After(prefix), step)
  {
    assert (prefix + [step])[..|prefix|] == prefix;
  }

  /** `registered_names` over any run: the names of the last grant, minus those deleted since. */
  lemma {:induction false} NamesExactly(steps: seq<Step>, name: Name)
    ensures name in After(steps).registeredNames <==> Since(After, steps, 0, Granting(name), Ousting(name))
  {
    if steps != [] {
      var prefix, last := steps[..|steps| - 1], steps[|steps| - 1];
      assert steps == prefix + [last];
      NamesExactly(prefix, name);
      NamesAfter(After(prefix), last);
      SinceSnoc(After, prefix, last, 0, Granting(name), Ousting(name));
    }
  }

  /** `takes_interjections` over any run: what the last roster that parsed says, granted or not. */
  lemma {:induction false} InterjectionsExactly(steps: seq<Step>, name: Name)
    ensures Takes(After(steps), name) <==> Since(After, steps, 0, DeclaringYes(name), Declares)
  {
    if steps != [] {
      var prefix, last := steps[..|steps| - 1], steps[|steps| - 1];
      assert steps == prefix + [last];
      InterjectionsExactly(prefix, name);
      InterjectionsAfter(After(prefix), last);
      if Declares(After(prefix), last) {
        TableExactly(Parsed(last.agents).agents, name);
      }
      SinceSnoc(After, prefix, last, 0, DeclaringYes(name), Declares);
    }
  }

  // ---- when the two tables part

  /** The `register` frames the two tables go back to: the one that stood when the last grant came, and the last one of all. */
  datatype Sources = Sources(names: Option<nat>, interjections: Option<nat>)

  function SourcesOf(steps: seq<Step>): Sources {
    Sources(match LastAt(After, steps, Grants) case None => None case Some(m) => LastAt(After, steps[..m], Declares),
            LastAt(After, steps, Declares))
  }

  /** The roster of a `register` frame that parsed. */
  ghost predicate RosterAt(steps: seq<Step>, k: nat, roster: seq<Registration>) {
    At(After, steps, Declares, k) && Parsed(steps[k].agents) == Roster(roster)
  }

  function Taking(name: Name): (Socket, Step) -> bool {
    (s: Socket, step: Step) => Deletes(s, step, name)
  }

  lemma {:induction false} LastRosterRules(steps: seq<Step>)
    ensures match LastAt(After, steps, Declares)
      case None => After(steps).interjections == map[]
      case Some(k) => steps[k].Register? && Parsed(steps[k].agents).Roster? && After(steps).interjections == Table(Parsed(steps[k].agents).agents)
  {
    if steps != [] {
      LastRosterRules(steps[..|steps| - 1]);
      InterjectionsAfter(After(steps[..|steps| - 1]), steps[|steps| - 1]);
    }
  }

  /** While the broker is asked, it is asked about the last roster that parsed. */
  lemma {:induction false} LastRosterIsAsked(steps: seq<Step>)
    requires After(steps).reading.Registering?
    ensures LastAt(After, steps, Declares).Some?
    ensures var k := LastAt(After, steps, Declares).value;
      steps[k].Register? && Parsed(steps[k].agents) == Roster(After(steps).reading.agents)
    decreases |steps|
  {
    assert steps != [];
    var prefix, last := steps[..|steps| - 1], steps[|steps| - 1];
    ReadingAfter(After(prefix), last);
    if !Declares(After(prefix), last) {
      LastRosterIsAsked(prefix);
    }
  }

  lemma ReadingAfter(s: Socket, step: Step)
    ensures Next(s, step).reading.Registering? ==>
      if Declares(s, step) then Parsed(step.agents) == Roster(Next(s, step).reading.agents)
      else Next(s, step).reading == s.reading && !Grants(s, step)
  {
  }

  /** The registered names are those of the last grant, but for the ones deleted after it. */
  lemma {:induction false} LastGrantRules(steps: seq<Step>, name: Name)
    ensures name in After(steps).registeredNames <==>
      match LastAt(After, steps, Grants)
      case None => false
      case Some(m) => steps[m].RosterAnswered? && steps[m].granted.Some? && name in steps[m].granted.value && !Later(After, steps, Taking(name), m)
  {
    NamesExactly(steps, name);
    LastAtIsLast(After, steps, Grants);
    match LastAt(After, steps, Grants) {
      case None => NoGrantNoName(steps, name);
      case Some(m) => GrantHolds(steps, name, m);
    }
  }

  lemma NoGrantNoName(steps: seq<Step>, name: Name)
    requires forall k: nat :: !At(After, steps, Grants, k)
    ensures !Since(After, steps, 0, Granting(name), Ousting(name))
  {
    if Since(After, steps, 0, Granting(name), Ousting(name)) {
      var k: nat :| Holding(After, steps, 0, Granting(name), Ousting(name), k);
      assert At(After, steps, Grants, k);
    }
  }

  lemma GrantHolds(steps: seq<Step>, name: Name, m: nat)
    requires Holding(After, steps, 0, Grants, Grants, m)
    ensures Since(After, steps, 0, Granting(name), Ousting(name)) <==>
      name in steps[m].granted.value && !Later(After, steps, Taking(name), m)
  {
    if Since(After, steps, 0, Granting(name), Ousting(name)) {
      var k: nat :| Holding(After, steps, 0, Granting(name), Ousting(name), k);
      assert At(After, steps, Grants, k);
      assert At(After, steps, Ousting(name), m);
      assert k == m;
      forall l: nat | m < l ensures !At(After, steps, Taking(name), l) {
        assert !At(After, steps, Ousting(name), l);
      }
    }
    if name in steps[m].granted.value && !Later(After, steps, Taking(name), m) {
      forall l: nat | m < l ensures !At(After, steps, Ousting(name), l) {
        assert !At(After, steps, Grants, l) && !At(After, steps, Taking(name), l);
      }
      assert Holding(After, steps, 0, Granting(name), Ousting(name), m);
    }
  }

  /** The last grant answers the roster it is put down to. */
  lemma {:induction false} LastGrantAnswers(steps: seq<Step>, m: nat)
    requires LastAt(After, steps, Grants) == Some(m)
    ensures SourcesOf(steps).names.Some? && SourcesOf(steps).names.value < m
    ensures After(steps[..m]).reading.Registering?
    ensures RosterAt(steps, SourcesOf(steps).names.value, After(steps[..m]).reading.agents)
  {
    LastAtIsLast(After, steps, Grants);
    LastRosterIsAsked(steps[..m]);
    LastAtIsLast(After, steps[..m], Declares);
    AtPrefix(After, steps, Declares, m, SourcesOf(steps).names.value);
  }

  /**
   Over any run, each table is what its frame made it. The interjections are
   what the last roster that parsed declares. The names are those that the last
   grant gave, in answer to the roster that stood then, minus the ones deleted
   since.
   */
  lemma {:induction false} SourcesFeedTheTables(steps: seq<Step>)
    ensures var s, from := After(steps), SourcesOf(steps);
      match from.interjections
      case None => s.interjections == map[]
      case Some(k) => exists roster :: RosterAt(steps, k, roster) && s.interjections == Table(roster)
    ensures var s, from := After(steps), SourcesOf(steps);
      match from.names
      case None => s.registeredNames == {}
      case Some(k) => exists m: nat :: NamesComeFrom(steps, k, m)
  {
    LastRosterRules(steps);
    LastAtIsLast(After, steps, Declares);
    if SourcesOf(steps).interjections.Some? {
      var k := SourcesOf(steps).interjections.value;
      assert RosterAt(steps, k, Parsed(steps[k].agents).agents);
    }
    NamesHaveTheirSource(steps);
  }

  /** The grant of step `m` is the last, it answers the roster of step `k`, and the names are its names, minus those deleted since. */
  ghost predicate NamesComeFrom(steps: seq<Step>, k: nat, m: nat) {
    && k < m && Holding(After, steps, 0, Grants, Grants, m)
    && After(steps[..m]).reading.Registering? && RosterAt(steps, k, After(steps[..m]).reading.agents)
    && (forall l: nat :: k < l < m ==> !At(After, steps, Declares, l))
    && (forall n :: n in After(steps).registeredNames <==> n in steps[m].granted.value && !Later(After, steps, Taking(n), m))
  }

  lemma {:induction false} NamesHaveTheirSource(steps: seq<Step>)
    ensures match SourcesOf(steps).names
      case None => After(steps).registeredNames == {}
      case Some(k) => exists m: nat :: NamesComeFrom(steps, k, m)
  {
    LastAtIsLast(After, steps, Grants);
    forall n ensures n in After(steps).registeredNames <==>
      match LastAt(After, steps, Grants)
      case None => false
      case Some(m) => steps[m].RosterAnswered? && steps[m].granted.Some? && n in steps[m].granted.value && !Later(After, steps, Taking(n), m)
    {
      LastGrantRules(steps, n);
    }
    if LastAt(After, steps, Grants).Some? {
      var m := LastAt(After, steps, Grants).value;
      LastGrantAnswers(steps, m);
      NothingBetween(steps, m);
      assert NamesComeFrom(steps, SourcesOf(steps).names.value, m);
    }
  }

  lemma NothingBetween(steps: seq<Step>, m: nat)
    requires m <= |steps| && LastAt(After, steps[..m], Declares).Some?
    ensures forall l: nat :: LastAt(After, steps[..m], Declares).value < l < m ==> !At(After, steps, Declares, l)
  {
    LastAtIsLast(After, steps[..m], Declares);
    forall l: nat | LastAt(After, steps[..m], Declares).value < l < m ensures !At(After, steps, Declares, l) {
      AtPrefix(After, steps, Declares, m, l);
    }
  }

  ghost predicate EverDeclared(steps: seq<Step>) {
    exists k: nat :: At(After, steps, Declares, k)
  }

  /**
   Over any run, both tables go back to one and the same roster exactly when no
   roster was ever declared or the last one declared has been granted. A roster
   that was refused, or on which the broker has yet to answer, feeds the
   interjections alone.
   */
  lemma TablesPartExactly(steps: seq<Step>)
    ensures SourcesOf(steps).names == SourcesOf(steps).interjections <==>
      !EverDeclared(steps) || Since(After, steps, 0, Grants, Declares)
  {
    LastAtIsLast(After, steps, Declares);
    LastAtIsLast(After, steps, Grants);
    match LastAt(After, steps, Grants) {
      case None =>
      case Some(m) =>
        LastGrantAnswers(steps, m);
        LastBefore(After, steps, Declares, m);
        GrantLast(steps, m);
    }
  }

  /** The last grant came after the last roster exactly when some grant did. */
  lemma {:induction false} GrantLast(steps: seq<Step>, m: nat)
    requires Holding(After, steps, 0, Grants, Grants, m)
    ensures Since(After, steps, 0, Grants, Declares) <==>
      LastAt(After, steps, Declares) == None || LastAt(After, steps, Declares).value < m
  {
    NotBoth(steps, m);
    LaterExactly(After, steps, Declares, m);
    LastOutlasts(After, steps, Grants, Declares, m);
  }

  lemma NotBoth(steps: seq<Step>, m: nat)
    requires At(After, steps, Grants, m)
    ensures !At(After, steps, Declares, m)
  {
  }

  /** A `register` frame with these agents. */
  function RosteringAll(agents: seq<Registration>): Step {
    Register(Some(Entries(agents)))
  }

  lemma {:induction false} RosteringAllDeclares(s: Socket, agents: seq<Registration>)
    requires s.up && s.reading == Idle && agents != [] && forall r :: r in agents ==> AgentName(r.name)
    ensures var t := Next(s, RosteringAll(agents));
      && t.up && t.reading == Registering(agents) && t.watch == s.watch && t.interjections == Table(agents)
      && t.registeredNames == s.registeredNames
  {
    GoodRosterWaits(s, agents);
  }

  function Rostering(name: Name, takes: bool): Step {
    RosteringAll([Registration(name, takes)])
  }

  function Rostered(s: Socket, name: Name, takes: bool, granted: bool): Socket {
    Next(Next(s, Rostering(name, takes)), RosterAnswered(if granted then Some([name]) else None))
  }

  lemma RosteredLeaves(s: Socket, name: Name, takes: bool, granted: bool)
    requires s.up && s.reading == Idle && AgentName(name)
    ensures var t := Rostered(s, name, takes, granted);
      && t.up && t.reading == Idle && t.watch == s.watch
      && t.interjections == map[name := takes]
      && t.registeredNames == if granted then {name} else s.registeredNames
  {
    RosteringDeclares(s, name, takes);
    assert SetOf([name]) == {name};
  }

  lemma RosteringDeclares(s: Socket, name: Name, takes: bool)
    requires s.up && s.reading == Idle && AgentName(name)
    ensures var t := Next(s, Rostering(name, takes));
      && t.up && t.reading.Registering? && t.watch == s.watch && t.interjections == map[name := takes]
      && t.registeredNames == s.registeredNames
  {
    var roster := [Registration(name, takes)];
    RosteringAllDeclares(s, roster);
    assert roster[..0] == [];
    assert Table(roster) == map[name := takes];
  }

  /** They do part: after a refused roster the link answers for an agent what only the refused one said. */
  lemma RefusedRosterStillSpeaks(s: Socket)
    requires s.up && s.reading == Idle
    ensures var granted := Rostered(s, "a", false, true); var refused := Rostered(granted, "a", true, false);
      && refused.reading == Idle && refused.registeredNames == {"a"} == granted.registeredNames
      && granted.interjections == map["a" := false] && refused.interjections == map["a" := true]
  {
    AgentNameExactly("a");
    RosteredLeaves(s, "a", false, true);
    RosteredLeaves(Rostered(s, "a", false, true), "a", true, false);
  }
}
