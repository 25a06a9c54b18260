/** What each step at the gateway's end of a provider connection answers, by the fields of the frame and of the state it finds. */
module GatewayAnswers {
  import opened Seqs
  import opened Texts
  import opened GatewaySocket

  /** `t` has this one frame more to write than `s`. */
  predicate Adds(s: Socket, t: Socket, frame: Out) {
    t.enqueued == s.enqueued + [frame] && t.outbound == s.outbound + [frame] && t.wire == s.wire && t.closed == s.closed && t.up == s.up
  }

  /** The tables and the watcher are as they were. */
  predicate SameTables(s: Socket, t: Socket) {
    t.registeredNames == s.registeredNames && t.interjections == s.interjections && t.watch == s.watch
  }

  /** A `register` frame that does not parse is answered in the words for its first fault, and changes nothing else. */
  lemma BadRosterIsAnswered(s: Socket, agents: Option<seq<Entry>>, entries: seq<Entry>, i: nat)
    requires s.up && s.reading == Idle
    ensures var t := Next(s, Register(agents));
      agents in {None, Some([])} ==>
        Adds(s, t, Complaint("register needs a non-empty 'agents' list")) && SameTables(s, t) && t.reading == Idle
    ensures var t := Next(s, Register(Some(entries)));
      i < |entries| && entries[i] == NotAnObject && (forall j :: 0 <= j < i ==> Passes(entries[j])) ==>
        Adds(s, t, Complaint("each agent must be an object")) && SameTables(s, t) && t.reading == Idle
    ensures var t := Next(s, Register(Some(entries)));
      i < |entries| && entries[i] == Malformed && (forall j :: 0 <= j < i ==> Passes(entries[j])) ==>
        Adds(s, t, Complaint("invalid agent registration")) && SameTables(s, t) && t.reading == Idle
    ensures var t := Next(s, Register(Some(entries)));
      forall r :: i < |entries| && entries[i] == Entry.Entry(r) && !AgentName(r.name) && (forall j :: 0 <= j < i ==> Passes(entries[j])) ==>
        && Adds(s, t, Complaint("invalid agent name " + r.name + ": names are 1-128 characters of [A-Za-z0-9_-]"))
        && SameTables(s, t) && t.reading == Idle
  {
    if i < |entries| && !Passes(entries[i]) && forall j :: 0 <= j < i ==> Passes(entries[j]) {
      FirstFault(entries, i);
    }
  }

  lemma {:induction false} FirstFault(entries: seq<Entry>, i: nat)
    requires i < |entries| && !Passes(entries[i]) && forall j :: 0 <= j < i ==> Passes(entries[j])
    ensures ProblemOf(entries[i]).Some? && ParsedFrom(entries) == Bad(ProblemOf(entries[i]).value)
  {
    ProblemIs(entries[0]);
    ProblemIs(entries[i]);
    if i > 0 {
      FirstFault(entries[1..], i - 1);
    }
  }

  /** One that parses waits for the broker's answer with its interjections declared already, and queues nothing. */
  lemma {:induction false} GoodRosterWaits(s: Socket, roster: seq<Registration>)
    requires s.up && s.reading == Idle && roster != [] && forall i :: 0 <= i < |roster| ==> AgentName(roster[i].name)
    ensures var t := Next(s, Register(Some(Entries(roster))));
      t == s.(interjections := Table(roster), reading := Registering(roster))
  {
    EntriesParse(roster);
  }

  function Entries(roster: seq<Registration>): (entries: seq<Entry>)
    ensures |entries| == |roster|
  {
    seq(|roster|, i requires 0 <= i < |roster| => Entry.Entry(roster[i]))
  }

  lemma {:induction false} EntriesParse(roster: seq<Registration>)
    requires forall i :: 0 <= i < |roster| ==> AgentName(roster[i].name)
    ensures ParsedFrom(Entries(roster)) == Roster(roster)
  {
    if roster != [] {
      assert Entries(roster)[1..] == Entries(roster[1..]);
      EntriesParse(roster[1..]);
    }
  }

  /** The broker's refusal of a roster is passed on, and the names stay; its grant replaces the names and is answered with them, in order. */
  lemma RosterIsAnswered(s: Socket, names: seq<Name>)
    requires s.up && s.reading.Registering?
    ensures var t := Next(s, RosterAnswered(None));
      Adds(s, t, Complaint("registration refused")) && SameTables(s, t) && t.reading == Idle
    ensures var t := Next(s, RosterAnswered(Some(names)));
      && t.reading == Idle && t.interjections == s.interjections && t.watch == s.watch
      && t.registeredNames == (set n | n in names)
      && exists sorted :: Adds(s, t, Registered(sorted)) && Sorted(sorted, CodesOf) && multiset(sorted) == multiset(names)
  {
    SortedSet(names);
    assert Adds(s, Next(s, RosterAnswered(Some(names))), Registered(SortedNames(names)));
  }

  /** The order of names is that of their code points. */
  lemma {:induction false} CodesAre(n: Name)
    ensures |CodesOf(n)| == |n| && forall i :: 0 <= i < |n| ==> CodesOf(n)[i] == n[i] as int
  {
    if n != "" {
      CodesAre(n[1..]);
    }
  }

  /** A deletion needs a name; the broker's word on it is passed on, and takes the name away if it is a yes. */
  lemma DeletionIsAnswered(s: Socket, name: Name, message: string)
    requires s.up
    ensures s.reading == Idle ==>
      var t := Next(s, DeleteAgent(None)); Adds(s, t, Complaint("deleteAgent needs a name")) && SameTables(s, t) && t.reading == Idle
    ensures s.reading == Idle && name == "" ==>
      var t := Next(s, DeleteAgent(Some(name))); Adds(s, t, Complaint("deleteAgent needs a name")) && SameTables(s, t) && t.reading == Idle
    ensures s.reading == Idle && name != "" ==> Next(s, DeleteAgent(Some(name))) == s.(reading := Deleting(name))
    ensures s.reading == Deleting(name) ==>
      var t := Next(s, DeletionAnswered(Some(message))); Adds(s, t, Complaint(message)) && SameTables(s, t) && t.reading == Idle
    ensures s.reading == Deleting(name) ==>
      var t := Next(s, DeletionAnswered(None));
      && Adds(s, t, Deleted(name)) && t.reading == Idle && t.interjections == s.interjections && t.watch == s.watch
      && t.registeredNames == s.registeredNames - {name}
  {
  }

  /** Work and answers are queued whether or not the provider is still there; a complaint only by the read loop, when it is idle. */
  lemma OthersAreQueued(s: Socket, frame: string)
    ensures var t := Next(s, Deliver(frame)); Adds(s, t, Work(frame)) && SameTables(s, t) && t.reading == s.reading
    ensures var t := Next(s, QueryDone(frame)); Adds(s, t, QueryResult(frame)) && SameTables(s, t) && t.reading == s.reading
    ensures s.up && s.reading == Idle ==>
      var t := Next(s, Other(Some(frame))); Adds(s, t, Complaint(frame)) && SameTables(s, t) && t.reading == Idle
  {
  }

  /** The watcher asks after all the names there are, name by name; at the last it goes back to sleep if any is listed, and closes if none is. */
  lemma WatcherActs(s: Socket, name: Name, listed: bool)
    requires s.up
    ensures s.watch == Asleep && s.registeredNames != {} ==> Next(s, Wake) == s.(watch := Asking(s.registeredNames, map[]))
    ensures s.watch == Asleep && s.registeredNames == {} ==> Next(s, Wake) == s
    ensures s.watch.Asking? && name in s.watch.snapshot && name !in s.watch.heard ==>
      var t := Next(s, HearOf(name, listed)); var snapshot, heard := s.watch.snapshot, s.watch.heard[name := listed];
      && (heard.Keys != snapshot ==> t == s.(watch := Asking(snapshot, heard)))
      && (heard.Keys == snapshot && (exists n :: n in heard && heard[n]) ==> t == s.(watch := Asleep))
      && (heard.Keys == snapshot && (forall n :: n in heard ==> !heard[n]) ==>
            && Adds(s, t, Close("funduq no longer lists these agents; re-register"))
            && t.registeredNames == s.registeredNames && t.interjections == s.interjections
            && t.watch == Returned(snapshot, heard) && t.reading == s.reading)
  {
  }

  /** The writer puts out the frame at the head, and stops behind a close. The read loop leaves on a disconnect, and is not heard of again. */
  lemma WriterActs(s: Socket, frame: Out, rest: seq<Out>)
    requires s.up && !s.closed && s.outbound == [frame] + rest
    ensures Next(s, Write) == s.(outbound := rest, wire := s.wire + [frame], closed := frame.Close?)
  {
  }

  lemma DisconnectEnds(s: Socket, step: Step)
    ensures s.up && s.reading == Idle ==> Next(s, Disconnect) == s.(up := false)
    ensures !s.up && !step.Deliver? && !step.QueryDone? ==> Next(s, step) == s
  {
  }
}
