/**
 The gateway's end of one provider connection: its read loop, its single
 writer, the roster it published and the watcher over that roster.

 `Socket` is the state as a value and `Next` one atomic step of any of the
 coroutines, between two of its awaits. `ProviderSocket` is the object whose
 fields the read loop and the watcher change, proved against those steps.
 */
module GatewaySocket {
  import opened Seqs
  import opened Texts

  type Name = string

  datatype Registration = Registration(name: Name, takesInterjections: bool)

  /** An element of a `register` frame's list. */
  datatype Entry = NotAnObject | Malformed | Entry(registration: Registration)

  datatype Problem = NeedsAgents | AgentNotAnObject | InvalidAgent | BadName(name: Name)

  datatype Parse = Roster(agents: seq<Registration>) | Bad(problem: Problem)

  // ---- parsing a roster

  predicate NameChar(c: char) {
    'A' <= c <= 'Z' || 'a' <= c <= 'z' || '0' <= c <= '9' || c == '_' || c == '-'
  }

  predicate NameChars(s: string) {
    forall i :: 0 <= i < |s| ==> NameChar(s[i])
  }

  /** The pattern's `$` also matches in front of a newline that ends the string. */
  predicate AgentName(name: Name) {
    exists k: nat | k <= 128 :: AdmittedAt(name, k)
  }

  predicate AdmittedAt(name: Name, k: nat) {
    1 <= k <= 128 && k <= |name| && NameChars(name[..k]) && (name[k..] == "" || name[k..] == "\n")
  }

  lemma AdmittedIs(name: Name, k: nat)
    requires AdmittedAt(name, k)
    ensures if name[k..] == "" then k == |name| && NameChars(name) else k == |name| - 1 && name[k] == '\n'
  {
    assert |name[k..]| == |name| - k;
    if name[k..] == "" {
      assert name[..k] == name;
    } else {
      assert name[k] == name[k..][0];
    }
  }

  /** One to 128 of the characters. */
  predicate Stated(name: Name) {
    1 <= |name| <= 128 && NameChars(name)
  }

  /** The rule the error message states, and beside each of its names the one with a newline behind it. */
  lemma AgentNameExactly(name: Name)
    ensures AgentName(name) <==>
      Stated(name) || (name != "" && name[|name| - 1] == '\n' && Stated(name[..|name| - 1]))
  {
    if AgentName(name) {
      var k: nat :| AdmittedAt(name, k);
      AdmittedIs(name, k);
    }
    if Stated(name) { StatedIsAdmitted(name); }
    if name != "" && name[|name| - 1] == '\n' && Stated(name[..|name| - 1]) { LineIsAdmitted(name); }
  }

  lemma StatedIsAdmitted(name: Name)
    requires Stated(name)
    ensures AgentName(name)
  {
    assert name[..|name|] == name && name[|name|..] == "";
    assert AdmittedAt(name, |name|);
  }

  lemma LineIsAdmitted(name: Name)
    requires name != "" && name[|name| - 1] == '\n' && Stated(name[..|name| - 1])
    ensures AgentName(name)
  {
    assert name[|name| - 1..] == "\n";
    assert AdmittedAt(name, |name| - 1);
  }

  /** So this name, which is not one of 1 to 128 such characters, gets through. */
  lemma NewlineGetsThrough()
    ensures AgentName("a\n") && !NameChars("a\n")
  {
    AgentNameExactly("a\n");
    assert "a\n"[..1] == "a" && "a\n"[1] == '\n';
  }

  function ProblemOf(entry: Entry): Option<Problem> {
    match entry
    case NotAnObject => Some(AgentNotAnObject)
    case Malformed => Some(InvalidAgent)
    case Entry(r) => if AgentName(r.name) then None else Some(BadName(r.name))
  }

  function ParsedFrom(entries: seq<Entry>): Parse {
    if entries == [] then Roster([])
    else match ProblemOf(entries[0])
      case Some(problem) => Bad(problem)
      case None =>
        match ParsedFrom(entries[1..])
        case Roster(agents) => Roster([entries[0].registration] + agents)
        case Bad(problem) => Bad(problem)
  }

  function Parsed(agents: Option<seq<Entry>>): Parse {
    if agents == None || agents.value == [] then Bad(NeedsAgents) else ParsedFrom(agents.value)
  }

  method ParseRegistration(agents: Option<seq<Entry>>) returns (p: Parse)
    ensures p == Parsed(agents)
  {
    if agents == None || agents.value == [] {
      return Bad(NeedsAgents);
    }
    var entries := agents.value;
    var parsed: seq<Registration> := [];
    assert entries[0..] == entries;
    for i := 0 to |entries|
      invariant ParsedFrom(entries) == match ParsedFrom(entries[i..])
                                       case Roster(rest) => Roster(parsed + rest)
                                       case Bad(problem) => Bad(problem)
    {
      assert entries[i..][1..] == entries[i + 1..];
      match ProblemOf(entries[i]) {
        case Some(problem) => return Bad(problem);
        case None =>
      }
      parsed := parsed + [entries[i].registration];
    }
    return Roster(parsed);
  }

  /** An entry that passes, and one that does not, with what is wrong with it. */
  ghost predicate Passes(entry: Entry) {
    exists r :: entry == Entry.Entry(r) && AgentName(r.name)
  }

  ghost predicate Fails(entry: Entry, problem: Problem) {
    || (entry == NotAnObject && problem == AgentNotAnObject)
    || (entry == Malformed && problem == InvalidAgent)
    || (exists r :: entry == Entry.Entry(r) && !AgentName(r.name) && problem == BadName(r.name))
  }

  lemma ProblemIs(entry: Entry)
    ensures ProblemOf(entry) == None <==> Passes(entry)
    ensures forall problem :: ProblemOf(entry) == Some(problem) <==> Fails(entry, problem)
  {
  }

  /** A roster parses exactly when every entry does; otherwise its first bad entry is what is complained of. */
  lemma {:induction false} ParsedExactly(entries: seq<Entry>)
    ensures match ParsedFrom(entries)
      case Roster(agents) => |agents| == |entries| && forall i :: 0 <= i < |entries| ==> entries[i] == Entry(agents[i]) && AgentName(agents[i].name)
      case Bad(problem) => exists i :: 0 <= i < |entries| && Fails(entries[i], problem) && forall j :: 0 <= j < i ==> Passes(entries[j])
  {
    if entries != [] {
      ProblemIs(entries[0]);
      if ProblemOf(entries[0]) == None {
        ParsedExactly(entries[1..]);
        match ParsedFrom(entries[1..]) {
          case Roster(agents) =>
            assert forall i :: 1 <= i < |entries| ==> entries[i] == entries[1..][i - 1];
          case Bad(problem) =>
            var i :| 0 <= i < |entries[1..]| && Fails(entries[1..][i], problem) && forall j :: 0 <= j < i ==> Passes(entries[1..][j]);
            assert Fails(entries[i + 1], problem);
            assert forall j :: 1 <= j < i + 1 ==> entries[j] == entries[1..][j - 1];
        }
      }
    }
  }

  /** What each agent's registration says of interjections; a later entry for a name overrides an earlier one. */
  function Table(agents: seq<Registration>): map<Name, bool> {
    if agents == [] then map[]
    else
      var last := agents[|agents| - 1];
      Table(agents[..|agents| - 1])[last.name := last.takesInterjections]
  }

  // ---- the state

  datatype Out =
    | Welcome
    | Complaint(message: string)
    | Registered(names: seq<Name>)
    | Deleted(name: Name)
    | Work(frame: string)
    | QueryResult(frame: string)
    | Close(reason: string)

  /** What the read loop is waiting for: a frame, or the broker's word on one. */
  datatype Reading = Idle | Registering(agents: seq<Registration>) | Deleting(name: Name)

  /** The watcher sleeps, asks after a snapshot name by name, or has returned. */
  datatype Watch = Asleep | Asking(snapshot: set<Name>, heard: map<Name, bool>) | Returned(snapshot: set<Name>, heard: map<Name, bool>)

  datatype Socket = Socket(
    registeredNames: set<Name>,
    interjections: map<Name, bool>,
    outbound: seq<Out>,
    reading: Reading,
    watch: Watch,
    up: bool,
    closed: bool,
    wire: seq<Out>,
    enqueued: seq<Out>
  )

  const ATTACHED := Socket({}, map[], [Welcome], Idle, Asleep, true, false, [], [Welcome])

  datatype Step =
    /** A frame that is answered at once, if at all: unparseable, unexpected, an ack, an event, a finish. */
    | Other(complaint: Option<string>)
    | Register(agents: Option<seq<Entry>>)
    /** The broker's answer to a roster: the names it granted, or an error. */
    | RosterAnswered(granted: Option<seq<Name>>)
    | DeleteAgent(named: Option<Name>)
    | DeletionAnswered(error: Option<string>)
    /** The broker hands over a run or a cancel; a query's task is done. */
    | Deliver(frame: string)
    | QueryDone(frame: string)
    | Wake
    | HearOf(name: Name, listed: bool)
    | Write
    | Disconnect

  function Put(s: Socket, frame: Out): Socket {
    s.(outbound := s.outbound + [frame], enqueued := s.enqueued + [frame])
  }

  function CodesOf(n: Name): Text {
    if n == "" then [] else [n[0] as int] + CodesOf(n[1..])
  }

  /** `sorted`, by code points. */
  function SortedNames(names: seq<Name>): seq<Name> {
    Sort(names, CodesOf)
  }

  function SetOf(names: seq<Name>): set<Name> {
    set n | n in names
  }

  /** The names a grant is answered with: those granted, each as often, in order. */
  lemma SortedSet(names: seq<Name>)
    ensures Sorted(SortedNames(names), CodesOf) && multiset(SortedNames(names)) == multiset(names)
    ensures SetOf(SortedNames(names)) == SetOf(names)
  {
    SortSorts(names, CodesOf);
    assert forall n :: n in SortedNames(names) <==> n in multiset(SortedNames(names));
    assert forall n :: n in names <==> n in multiset(names);
  }

  function Wording(problem: Problem): string {
    match problem
    case NeedsAgents => "register needs a non-empty 'agents' list"
    case AgentNotAnObject => "each agent must be an object"
    case InvalidAgent => "invalid agent registration"
    case BadName(name) => "invalid agent name " + name + ": names are 1-128 characters of [A-Za-z0-9_-]"
  }

  const UNLISTED := Close("funduq no longer lists these agents; re-register")

  function Registers(s: Socket, agents: Option<seq<Entry>>): Socket {
    match Parsed(agents)
    case Bad(problem) => Put(s, Complaint(Wording(problem)))
    case Roster(roster) => s.(interjections := Table(roster), reading := Registering(roster))
  }

  function RosterSettled(s: Socket, granted: Option<seq<Name>>): Socket {
    match granted
    case None => Put(s, Complaint("registration refused")).(reading := Idle)
    case Some(names) =>
      Put(s, Registered(SortedNames(names)))
      .(registeredNames := SetOf(names), reading := Idle)
  }

  function DeletionSettled(s: Socket, name: Name, error: Option<string>): Socket {
    match error
    case Some(message) => Put(s, Complaint(message)).(reading := Idle)
    case None => Put(s, Deleted(name)).(registeredNames := s.registeredNames - {name}, reading := Idle)
  }

  function Asked(s: Socket, name: Name, listed: bool): Socket
    requires s.watch.Asking?
  {
    var snapshot, heard := s.watch.snapshot, s.watch.heard[name := listed];
    if heard.Keys != snapshot then s.(watch := Asking(snapshot, heard))
    else if exists n :: n in heard && heard[n] then s.(watch := Asleep)
    else Put(s, UNLISTED).(watch := Returned(snapshot, heard))
  }

  /** The writer's turn: a frame, or the close, after which it is gone. */
  function Written(s: Socket): Socket {
    if s.closed || s.outbound == [] then s
    else s.(outbound := s.outbound[1..], wire := s.wire + [s.outbound[0]], closed := s.outbound[0].Close?)
  }

  function Turn(s: Socket, step: Step): Socket {
    match step
    case Other(complaint) => if s.reading == Idle && complaint.Some? then Put(s, Complaint(complaint.value)) else s
    case Register(agents) => if s.reading == Idle then Registers(s, agents) else s
    case RosterAnswered(granted) => if s.reading.Registering? then RosterSettled(s, granted) else s
    case DeleteAgent(named) =>
      if s.reading != Idle then s
      else if named == None || named.value == "" then Put(s, Complaint("deleteAgent needs a name"))
      else s.(reading := Deleting(named.value))
    case DeletionAnswered(error) => if s.reading.Deleting? then DeletionSettled(s, s.reading.name, error) else s
    case Deliver(frame) => Put(s, Work(frame))
    case QueryDone(frame) => Put(s, QueryResult(frame))
    case Wake => if s.watch == Asleep && s.registeredNames != {} then s.(watch := Asking(s.registeredNames, map[])) else s
    case HearOf(name, listed) =>
      if s.watch.Asking? && name in s.watch.snapshot && name !in s.watch.heard then Asked(s, name, listed) else s
    case Write => Written(s)
    case Disconnect => if s.reading == Idle then s.(up := false) else s
  }

  /** A step that its coroutine cannot take now changes nothing. After a disconnect only others still queue frames. */
  function Next(s: Socket, step: Step): Socket {
    if s.up || step.Deliver? || step.QueryDone? then Turn(s, step) else s
  }

  function After(steps: seq<Step>): Socket {
    if steps == [] then ATTACHED else Next(After(steps[..|steps| - 1]), steps[|steps| - 1])
  }

  /** What the link says of an agent's taking interjections. */
  predicate Takes(s: Socket, name: Name) {
    name in s.interjections && s.interjections[name]
  }

  // ---- the object

  class ProviderSocket {
    var registeredNames: set<Name>
    var interjections: map<Name, bool>
    var outbound: seq<Out>
    ghost var model: Socket

    ghost predicate Valid()
      reads this
    {
      registeredNames == model.registeredNames && interjections == model.interjections && outbound == model.outbound
    }

    constructor ()
      ensures Valid() && model == ATTACHED
    {
      registeredNames, interjections, outbound, model := {}, map[], [Welcome], ATTACHED;
    }

    /** The read loop on a `register` frame, up to its question to the broker. */
    method OnRegister(agents: Option<seq<Entry>>)
      requires Valid() && model.up && model.reading == Idle
      modifies this
      ensures Valid() && model == Next(old(model), Register(agents))
    {
      var parsed := ParseRegistration(agents);
      match parsed {
        case Bad(problem) => outbound := outbound + [Complaint(Wording(problem))];
        case Roster(roster) => DeclareInterjections(roster);
      }
      model := Next(model, Register(agents));
    }

    method DeclareInterjections(registrations: seq<Registration>)
      modifies this`interjections
      ensures interjections == Table(registrations)
    {
      interjections := map[];
      for i := 0 to |registrations|
        invariant interjections == Table(registrations[..i])
      {
        assert registrations[..i + 1][..i] == registrations[..i];
        interjections := interjections[registrations[i].name := registrations[i].takesInterjections];
      }
      assert registrations[..|registrations|] == registrations;
    }

    /** An agent never declared takes none. */
    function TakesInterjections(name: Name): (takes: bool)
      reads this
      requires Valid()
      ensures takes == Takes(model, name)
    {
      name in interjections && interjections[name]
    }

    /** The rest of a `register` frame, once the broker has answered. */
    method OnRosterAnswered(granted: Option<seq<Name>>)
      requires Valid() && model.up && model.reading.Registering?
      modifies this
      ensures Valid() && model == Next(old(model), RosterAnswered(granted))
    {
      match granted {
        case None => outbound := outbound + [Complaint("registration refused")];
        case Some(names) =>
          var sorted := SortedNames(names);
          SortedSet(names);
          registeredNames := SetOf(sorted);
          outbound := outbound + [Registered(sorted)];
      }
      model := Next(model, RosterAnswered(granted));
    }

    /** The rest of a `deleteAgent` frame, once the broker has answered. */
    method OnDeletionAnswered(name: Name, error: Option<string>)
      requires Valid() && model.up && model.reading == Deleting(name)
      modifies this
      ensures Valid() && model == Next(old(model), DeletionAnswered(error))
    {
      match error {
        case Some(message) => outbound := outbound + [Complaint(message)];
        case None =>
          registeredNames := registeredNames - {name};
          outbound := outbound + [Deleted(name)];
      }
      model := Next(model, DeletionAnswered(error));
    }
  }

  function UpToClose(frames: seq<Out>): seq<Out> {
    if frames == [] then []
    else if frames[0].Close? then [frames[0]]
    else [frames[0]] + UpToClose(frames[1..])
  }

  /** The writer over the queue it finds. */
  method WriteLoop(outbound: seq<Out>) returns (wire: seq<Out>, closed: bool)
    ensures wire == UpToClose(outbound)
    ensures closed <==> wire != [] && wire[|wire| - 1].Close?
    ensures !closed ==> wire == outbound
  {
    wire := [];
    assert outbound[0..] == outbound;
    for i := 0 to |outbound|
      invariant wire == outbound[..i]
      invariant UpToClose(outbound) == wire + UpToClose(outbound[i..])
      invariant forall j :: 0 <= j < i ==> !outbound[j].Close?
    {
      assert outbound[i..][1..] == outbound[i + 1..];
      wire := wire + [outbound[i]];
      if outbound[i].Close? {
        return wire, true;
      }
    }
    return wire, false;
  }

  function WrittenTimes(s: Socket, n: nat): Socket
    decreases n
  {
    if n == 0 then s else WrittenTimes(Written(s), n - 1)
  }

  /** The loop is its turns: with nothing queued meanwhile, the turns put out what the loop does. */
  lemma {:induction false} TurnsAreTheLoop(s: Socket, n: nat)
    requires !s.closed && n >= |s.outbound|
    ensures WrittenTimes(s, n).wire == s.wire + UpToClose(s.outbound)
    decreases n
  {
    if s.outbound == [] || Written(s).closed {
      StuckStays(if s.outbound == [] then s else Written(s), if s.outbound == [] then n else n - 1);
    } else {
      TurnsAreTheLoop(Written(s), n - 1);
    }
  }

  lemma {:induction false} StuckStays(s: Socket, n: nat)
    requires s.closed || s.outbound == []
    ensures WrittenTimes(s, n) == s
    decreases n
  {
    if n > 0 { StuckStays(s, n - 1); }
  }

  // ---- the wire

  ghost predicate WireOk(s: Socket) {
    && s.enqueued == s.wire + s.outbound
    && s.enqueued != [] && s.enqueued[0] == Welcome
    && (s.closed <==> s.wire != [] && s.wire[|s.wire| - 1].Close?)
    && (forall i :: 0 <= i < |s.wire| - 1 ==> !s.wire[i].Close?)
  }

  /** `t` has one more frame queued than `s`, behind all others; a close only as the watcher returns. */
  ghost predicate QueuedOne(s: Socket, t: Socket, frame: Out) {
    && t.enqueued == s.enqueued + [frame] && t.outbound == s.outbound + [frame]
    && (frame.Close? ==> t.watch.Returned? && s.watch.Asking?)
    && (!frame.Close? ==> t.watch == s.watch)
  }

  ghost predicate WireSame(s: Socket, t: Socket) {
    t.wire == s.wire && t.closed == s.closed
  }

  ghost predicate QueueSame(s: Socket, t: Socket) {
    t.enqueued == s.enqueued && t.outbound == s.outbound && (t.watch.Returned? <==> s.watch.Returned?)
  }

  lemma EachStepQueuesAtMostOne(s: Socket, step: Step)
    ensures var t := Next(s, step);
      || (step == Write && t == Written(s))
      || (WireSame(s, t) && (QueueSame(s, t) || exists frame :: QueuedOne(s, t, frame)))
  {
    var t := Next(s, step);
    match step {
      case HearOf(name, listed) =>
        if t.watch.Returned? && !s.watch.Returned? { assert QueuedOne(s, t, UNLISTED); }
      case Deliver(frame) => assert QueuedOne(s, t, Work(frame));
      case QueryDone(frame) => assert QueuedOne(s, t, QueryResult(frame));
      case Wake =>
      case Write =>
      case Disconnect =>
      case _ => ReadLoopQueues(s, step);
    }
  }

  lemma ReadLoopQueues(s: Socket, step: Step)
    requires step.Other? || step.Register? || step.RosterAnswered? || step.DeleteAgent? || step.DeletionAnswered?
    ensures var t := Next(s, step);
      WireSame(s, t) && (QueueSame(s, t) || exists frame :: QueuedOne(s, t, frame))
  {
    var t := Next(s, step);
    match step {
      case RosterAnswered(granted) => if s.up && s.reading.Registering? { SettledQueues(s, granted); }
      case _ => if t.enqueued != s.enqueued { assert QueuedOne(s, t, t.enqueued[|s.enqueued|]); }
    }
  }

  lemma SettledQueues(s: Socket, granted: Option<seq<Name>>)
    ensures var t := RosterSettled(s, granted);
      WireSame(s, t) && exists frame :: QueuedOne(s, t, frame)
  {
    match granted
    case None => assert QueuedOne(s, RosterSettled(s, granted), Complaint("registration refused"));
    case Some(names) => assert QueuedOne(s, RosterSettled(s, granted), Registered(SortedNames(names)));
  }

  lemma WireStep(s: Socket, step: Step)
    requires WireOk(s)
    ensures WireOk(Next(s, step))
  {
    EachStepQueuesAtMostOne(s, step);
    if step == Write && s.up && !s.closed && s.outbound != [] {
      assert s.outbound == [s.outbound[0]] + s.outbound[1..];
    }
  }

  /** Nothing goes out after a close, or once the socket is down. */
  lemma {:induction false} WireIsFinal(s: Socket, steps: seq<Step>)
    requires s.closed || !s.up
    ensures Ran(s, steps).wire == s.wire
    decreases |steps|
  {
    if steps != [] {
      EachStepQueuesAtMostOne(s, steps[0]);
      WireIsFinal(Next(s, steps[0]), steps[1..]);
    }
  }

  function Ran(s: Socket, steps: seq<Step>): Socket
    decreases |steps|
  {
    if steps == [] then s else Ran(Next(s, steps[0]), steps[1..])
  }

  /**
   Over any run: the wire is the first part of everything enqueued, so it opens
   with the welcome, and a close is the last thing on it.
   */
  lemma {:induction false} WireIsEnqueueOrder(steps: seq<Step>)
    ensures WireOk(After(steps))
    ensures var s := After(steps);
      && s.wire <= s.enqueued
      && (s.wire != [] ==> s.wire[0] == Welcome)
      && UpToClose(s.wire) == s.wire
  {
    if steps != [] {
      WireIsEnqueueOrder(steps[..|steps| - 1]);
      WireStep(After(steps[..|steps| - 1]), steps[|steps| - 1]);
    }
    UpToItsOwnClose(After(steps).wire);
  }

  lemma {:induction false} UpToItsOwnClose(frames: seq<Out>)
    requires forall i :: 0 <= i < |frames| - 1 ==> !frames[i].Close?
    ensures UpToClose(frames) == frames
  {
    if frames != [] {
      UpToItsOwnClose(frames[1..]);
      assert frames == [frames[0]] + frames[1..];
    }
  }
}
