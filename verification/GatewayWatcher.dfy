/** The roster watcher over any run: what it closes a connection for, and when that is right. */
module GatewayWatcher {
  import opened Seqs
  import opened GatewaySocket
  import opened GatewayRoster

  // ---- the steps of a check

  /** The watcher wakes, finds names registered, and begins to ask after them. */
  predicate Wakes(s: Socket, step: Step) {
    s.up && step == Wake && s.watch == Asleep && s.registeredNames != {}
  }

  /** It hears of one of its names that it is not listed. */
  function HearsUnlisted(name: Name): (Socket, Step) -> bool {
    (s: Socket, step: Step) =>
      s.up && step == HearOf(name, false) && s.watch.Asking? && name in s.watch.snapshot && name !in s.watch.heard
  }

  function Never(): (Socket, Step) -> bool {
    (_: Socket, _: Step) => false
  }

  /** The step in which the close is queued. */
  predicate Closes(s: Socket, step: Step) {
    s.watch.Asking? && Next(s, step).watch.Returned?
  }

  /** The step of a run's last wake. */
  function LastWake(steps: seq<Step>): Option<nat> {
    LastAt(After, steps, Wakes)
  }

  /** Since step `i` the watcher heard that `name` is not listed. */
  ghost predicate HeardUnlisted(steps: seq<Step>, i: nat, name: Name) {
    Since(After, steps, i + 1, HearsUnlisted(name), Never())
  }

  /** It heard so since step `i`, and `name` was not granted again after that. */
  ghost predicate StillUnlisted(steps: seq<Step>, i: nat, name: Name) {
    Since(After, steps, i + 1, HearsUnlisted(name), Granting(name))
  }

  /** Since step `i` the broker granted `name`, and the grant stands. */
  ghost predicate GrantedSince(steps: seq<Step>, i: nat, name: Name) {
    Since(After, steps, i + 1, Granting(name), Ousting(name))
  }

  /** That grant stands, and after it the watcher heard that `name` is not listed. */
  ghost predicate HeardAfterItsGrant(steps: seq<Step>, i: nat, name: Name) {
    FollowedBy(After, steps, i + 1, Granting(name), Ousting(name), HearsUnlisted(name))
  }

  /** The watcher has yet to hear of this name of its check. */
  predicate Unasked(w: Watch, name: Name) {
    w.Asking? && name in w.snapshot && name !in w.heard
  }

  /** A grant of `name` that comes while the watcher has yet to hear of it. */
  function GrantingInTime(name: Name): (Socket, Step) -> bool {
    (s: Socket, step: Step) => Granting(name)(s, step) && Unasked(s.watch, name)
  }

  /** Since step `i` the broker granted `name` in time, and the grant stands. */
  ghost predicate GrantedInTime(steps: seq<Step>, i: nat, name: Name) {
    Since(After, steps, i + 1, GrantingInTime(name), Ousting(name))
  }

  // ---- what holds of a check

  ghost predicate WatchOk(s: Socket) {
    match s.watch
    case Asleep => true
    case Asking(snapshot, heard) => snapshot != {} && heard.Keys < snapshot
    case Returned(snapshot, heard) => snapshot != {} && heard.Keys == snapshot && forall n :: n in heard ==> !heard[n]
  }

  lemma WatchStep(s: Socket, step: Step)
    requires WatchOk(s)
    ensures WatchOk(Next(s, step))
  {
    if step.HearOf? && s.up && s.watch.Asking? && step.name in s.watch.snapshot {
      assert s.watch.heard[step.name := step.listed].Keys == s.watch.heard.Keys + {step.name};
    }
  }

  /** What a check has in hand: the names it asks after, and of which of them it has heard the worst. */
  function Snapshot(w: Watch): set<Name> {
    if w.Asleep? then {} else w.snapshot
  }

  predicate Unlisted(w: Watch, name: Name) {
    !w.Asleep? && name in w.heard && !w.heard[name]
  }

  lemma WatchAfter(s: Socket, step: Step)
    ensures s.watch.Asleep? && !Wakes(s, step) ==> Next(s, step).watch.Asleep?
    ensures Wakes(s, step) ==> Next(s, step).watch == Asking(s.registeredNames, map[])
    ensures !s.watch.Asleep? && !Next(s, step).watch.Asleep? ==> Snapshot(Next(s, step).watch) == Snapshot(s.watch)
    ensures Next(s, step).watch.Returned? && !s.watch.Returned? ==> Closes(s, step)
  {
  }

  lemma UnlistedAfter(s: Socket, step: Step, name: Name)
    requires !s.watch.Asleep? && !Next(s, step).watch.Asleep?
    ensures Unlisted(Next(s, step).watch, name) <==> HearsUnlisted(name)(s, step) || Unlisted(s.watch, name)
  {
    if !step.HearOf? {
      WatchSame(s, step);
    }
  }

  lemma WatchSame(s: Socket, step: Step)
    requires !step.HearOf? && !s.watch.Asleep?
    ensures Next(s, step).watch == s.watch
  {
  }

  lemma {:induction false} WatchAlwaysOk(steps: seq<Step>)
    ensures WatchOk(After(steps))
    ensures !After(steps).watch.Asleep? ==> LastWake(steps).Some? && LastWake(steps).value < |steps|
  {
    if steps != [] {
      var prefix, last := steps[..|steps| - 1], steps[|steps| - 1];
      WatchAlwaysOk(prefix);
      WatchStep(After(prefix), last);
      WatchAfter(After(prefix), last);
    }
  }

  /** A check under way goes by the names of its wake, and knows what it has heard since. */
  ghost predicate TracksHeard(steps: seq<Step>, i: nat, name: Name) {
    && i < |steps| && Snapshot(After(steps).watch) == After(steps[..i]).registeredNames
    && (Unlisted(After(steps).watch, name) <==> Lasts(After, steps, i + 1, HearsUnlisted(name), Never()))
  }

  /** Meanwhile the registered names are those of the wake, or granted since. */
  ghost predicate TracksNames(steps: seq<Step>, i: nat, name: Name) {
    && i < |steps|
    && (Lasts(After, steps, i + 1, Granting(name), Ousting(name)) ==> name in After(steps).registeredNames)
    && (name in After(steps).registeredNames ==>
          name in After(steps[..i]).registeredNames || Lasts(After, steps, i + 1, Granting(name), Ousting(name)))
  }

  /**
   What the watcher has heard of a name counts, unless the name's standing grant
   came after it was heard of, or the name is none of its check.
   */
  ghost predicate TurnOk(w: Watch, registered: bool, name: Name, granted: bool, inTime: bool, still: bool) {
    && (registered && !granted ==> name in Snapshot(w) && (Unlisted(w, name) <==> still))
    && (inTime ==> granted && name in Snapshot(w) && (Unlisted(w, name) <==> still))
    && (granted && !inTime ==> !still && !Unasked(w, name))
  }

  ghost predicate TracksTurn(steps: seq<Step>, i: nat, name: Name) {
    var s := After(steps);
    TurnOk(s.watch, name in s.registeredNames, name,
           Lasts(After, steps, i + 1, Granting(name), Ousting(name)),
           Lasts(After, steps, i + 1, GrantingInTime(name), Ousting(name)),
           Lasts(After, steps, i + 1, HearsUnlisted(name), Granting(name)))
  }

  lemma TurnStep(s: Socket, step: Step, name: Name, granted: bool, inTime: bool, still: bool)
    requires !s.watch.Asleep? && !Next(s, step).watch.Asleep?
    requires TurnOk(s.watch, name in s.registeredNames, name, granted, inTime, still)
    ensures TurnOk(Next(s, step).watch, name in Next(s, step).registeredNames, name,
                   Granting(name)(s, step) || (granted && !Ousting(name)(s, step)),
                   GrantingInTime(name)(s, step) || (inTime && !Ousting(name)(s, step)),
                   HearsUnlisted(name)(s, step) || (still && !Granting(name)(s, step)))
  {
    NameAfter(s, step, name);
    if step.HearOf? {
      WatchAfter(s, step);
      UnlistedAfter(s, step, name);
      UnaskedAfter(s, step, name);
    } else {
      WatchSame(s, step);
    }
  }

  lemma UnaskedAfter(s: Socket, step: Step, name: Name)
    requires !s.watch.Asleep? && !Next(s, step).watch.Asleep?
    ensures Unasked(Next(s, step).watch, name) ==> Unasked(s.watch, name) && !HearsUnlisted(name)(s, step)
  {
    if !step.HearOf? {
      WatchSame(s, step);
    }
  }

  lemma {:induction false} TurnGoesOn(prefix: seq<Step>, last: Step, i: nat, name: Name)
    requires TracksTurn(prefix, i, name) && i < |prefix|
    requires !After(prefix).watch.Asleep? && !Next(After(prefix), last).watch.Asleep?
    ensures TracksTurn(prefix + [last], i, name)
  {
    AfterSnoc(prefix, last);
    LastsSnoc(After, prefix, last, i + 1, Granting(name), Ousting(name));
    LastsSnoc(After, prefix, last, i + 1, GrantingInTime(name), Ousting(name));
    LastsSnoc(After, prefix, last, i + 1, HearsUnlisted(name), Granting(name));
    TurnStep(After(prefix), last, name,
             Lasts(After, prefix, i + 1, Granting(name), Ousting(name)),
             Lasts(After, prefix, i + 1, GrantingInTime(name), Ousting(name)),
             Lasts(After, prefix, i + 1, HearsUnlisted(name), Granting(name)));
  }

  lemma {:induction false} CheckTracks(steps: seq<Step>, i: nat, name: Name)
    requires LastWake(steps) == Some(i) && !After(steps).watch.Asleep?
    ensures TracksHeard(steps, i, name) && TracksNames(steps, i, name) && TracksTurn(steps, i, name)
    decreases |steps|
  {
    var prefix, last := steps[..|steps| - 1], steps[|steps| - 1];
    assert steps == prefix + [last];
    WatchAfter(After(prefix), last);
    if Wakes(After(prefix), last) {
      CheckBegins(prefix, last, name);
    } else {
      CheckTracks(prefix, i, name);
      CheckGoesOn(prefix, last, i, name);
      NamesGoOn(prefix, last, i, name);
      TurnGoesOn(prefix, last, i, name);
    }
  }

  lemma {:induction false} NothingSoFar(steps: seq<Step>, start: nat, made: (Socket, Step) -> bool, undone: (Socket, Step) -> bool)
    requires |steps| <= start
    ensures !Lasts(After, steps, start, made, undone)
  {
    if steps != [] {
      NothingSoFar(steps[..|steps| - 1], start, made, undone);
    }
  }

  lemma {:induction false} CheckBegins(prefix: seq<Step>, last: Step, name: Name)
    requires Wakes(After(prefix), last)
    ensures TracksHeard(prefix + [last], |prefix|, name) && TracksNames(prefix + [last], |prefix|, name)
    ensures TracksTurn(prefix + [last], |prefix|, name)
  {
    var steps := prefix + [last];
    AfterSnoc(prefix, last);
    assert steps[..|prefix|] == prefix;
    WatchAfter(After(prefix), last);
    NamesAfter(After(prefix), last);
    NothingSoFar(steps, |prefix| + 1, HearsUnlisted(name), Never());
    NothingSoFar(steps, |prefix| + 1, Granting(name), Ousting(name));
    NothingSoFar(steps, |prefix| + 1, HearsUnlisted(name), Granting(name));
    NothingSoFar(steps, |prefix| + 1, GrantingInTime(name), Ousting(name));
  }

  lemma {:induction false} CheckGoesOn(prefix: seq<Step>, last: Step, i: nat, name: Name)
    requires TracksHeard(prefix, i, name)
    requires !After(prefix).watch.Asleep? && !Next(After(prefix), last).watch.Asleep?
    ensures TracksHeard(prefix + [last], i, name)
  {
    AfterSnoc(prefix, last);
    assert (prefix + [last])[..i] == prefix[..i];
    WatchAfter(After(prefix), last);
    UnlistedAfter(After(prefix), last, name);
    LastsSnoc(After, prefix, last, i + 1, HearsUnlisted(name), Never());
  }

  lemma NamesGoOn(prefix: seq<Step>, last: Step, i: nat, name: Name)
    requires TracksNames(prefix, i, name)
    ensures TracksNames(prefix + [last], i, name)
  {
    AfterSnoc(prefix, last);
    assert (prefix + [last])[..i] == prefix[..i];
    NameAfter(After(prefix), last, name);
    LastsSnoc(After, prefix, last, i + 1, Granting(name), Ousting(name));
  }

  lemma NameAfter(s: Socket, step: Step, name: Name)
    ensures name in Next(s, step).registeredNames <==>
      Granting(name)(s, step) || (name in s.registeredNames && !Ousting(name)(s, step))
  {
    NamesAfter(s, step);
  }

  // ---- what it closes for

  ghost predicate HasClose(s: Socket) {
    exists p :: 0 <= p < |s.enqueued| && s.enqueued[p].Close?
  }

  lemma CloseMeansReturned(s: Socket, step: Step)
    requires HasClose(s) <==> s.watch.Returned?
    ensures HasClose(Next(s, step)) <==> Next(s, step).watch.Returned?
  {
    var t := Next(s, step);
    EachStepQueuesAtMostOne(s, step);
    if frame :| QueuedOne(s, t, frame) {
      assert t.enqueued[|s.enqueued|] == frame;
      assert forall p :: 0 <= p < |s.enqueued| ==> t.enqueued[p] == s.enqueued[p];
    }
  }

  lemma {:induction false} CloseOnlyByTheWatcher(steps: seq<Step>)
    ensures HasClose(After(steps)) <==> After(steps).watch.Returned?
  {
    if steps != [] {
      CloseOnlyByTheWatcher(steps[..|steps| - 1]);
      CloseMeansReturned(After(steps[..|steps| - 1]), steps[|steps| - 1]);
    }
  }

  /** A check that ended in a close has heard of exactly its names that they are unlisted. */
  lemma {:induction false} CloseHeardAll(steps: seq<Step>, i: nat, name: Name)
    requires LastWake(steps) == Some(i) && After(steps).watch.Returned?
    ensures i < |steps| && (HeardUnlisted(steps, i, name) <==> name in After(steps[..i]).registeredNames)
  {
    CheckTracks(steps, i, name);
    WatchAlwaysOk(steps);
    ReturnedHeardAll(After(steps), name);
    LastsIsSince(After, steps, i + 1, HearsUnlisted(name), Never());
  }

  lemma ReturnedHeardAll(s: Socket, name: Name)
    requires WatchOk(s) && s.watch.Returned?
    ensures Unlisted(s.watch, name) <==> name in Snapshot(s.watch)
  {
    assert name in s.watch.heard <==> name in s.watch.heard.Keys;
  }

  lemma {:induction false} CloseFoundNames(steps: seq<Step>)
    requires HasClose(After(steps))
    ensures LastWake(steps).Some? && LastWake(steps).value < |steps| && After(steps).watch.Returned?
    ensures After(steps[..LastWake(steps).value]).registeredNames != {}
  {
    CloseOnlyByTheWatcher(steps);
    WatchAlwaysOk(steps);
    CheckTracks(steps, LastWake(steps).value, "");
  }

  /**
   Over any run: the connection is told to close only after a wake of the
   watcher that found names registered, and after it heard of every one of
   those names, and of no other, since that wake, that it is not listed.
   */
  lemma {:induction false} ClosesOnlyWhenNoneIsListed(steps: seq<Step>)
    requires HasClose(After(steps))
    ensures LastWake(steps).Some? && LastWake(steps).value < |steps|
    ensures var i := LastWake(steps).value; var names := After(steps[..i]).registeredNames;
      names != {} && forall n :: n in names <==> HeardUnlisted(steps, i, n)
  {
    CloseFoundNames(steps);
    forall n ensures n in After(steps[..LastWake(steps).value]).registeredNames <==> HeardUnlisted(steps, LastWake(steps).value, n) {
      CloseHeardAll(steps, LastWake(steps).value, n);
    }
  }

  lemma {:induction false} CloseNames(steps: seq<Step>, i: nat, name: Name)
    requires LastWake(steps) == Some(i) && After(steps).watch.Returned?
    ensures i < |steps|
    ensures GrantedSince(steps, i, name) ==> name in After(steps).registeredNames
    ensures name in After(steps).registeredNames ==> name in After(steps[..i]).registeredNames || GrantedSince(steps, i, name)
  {
    CheckTracks(steps, i, name);
    LastsIsSince(After, steps, i + 1, Granting(name), Ousting(name));
  }

  /** At a close, a registered name is still unlisted exactly when it has no standing grant since the wake, or one that came in time. */
  lemma {:induction false} CloseTurn(steps: seq<Step>, i: nat, name: Name)
    requires LastWake(steps) == Some(i) && After(steps).watch.Returned? && name in After(steps).registeredNames
    ensures StillUnlisted(steps, i, name) <==> (GrantedSince(steps, i, name) ==> GrantedInTime(steps, i, name))
  {
    CheckTracks(steps, i, name);
    WatchAlwaysOk(steps);
    ReturnedHeardAll(After(steps), name);
    LastsIsSince(After, steps, i + 1, Granting(name), Ousting(name));
    LastsIsSince(After, steps, i + 1, GrantingInTime(name), Ousting(name));
    LastsIsSince(After, steps, i + 1, HearsUnlisted(name), Granting(name));
  }

  /** For a name with a standing grant, to be still unlisted is to have been heard of after that grant. */
  lemma StillIsAfterTheGrant(steps: seq<Step>, i: nat, name: Name)
    requires GrantedSince(steps, i, name)
    ensures StillUnlisted(steps, i, name) <==> HeardAfterItsGrant(steps, i, name)
  {
    LastIsFollowed(After, steps, i + 1, Granting(name), Ousting(name), HearsUnlisted(name));
  }

  /**
   The step that queues the close does so with every registered name unlisted,
   as far as the watcher can know: heard to be so since the wake, and not
   granted again after that. It does exactly when each name with a standing
   grant since the wake was heard of after that grant.
   */
  lemma {:induction false} CloseIsRightExactly(prefix: seq<Step>, last: Step, i: nat)
    requires Closes(After(prefix), last) && LastWake(prefix + [last]) == Some(i)
    ensures var steps := prefix + [last];
      (forall n :: n in After(steps).registeredNames ==> StillUnlisted(steps, i, n)) <==>
      (forall n :: GrantedSince(steps, i, n) ==> HeardAfterItsGrant(steps, i, n))
  {
    var steps := prefix + [last];
    CloseIsRightInTime(prefix, last, i);
    forall n | GrantedSince(steps, i, n)
      ensures StillUnlisted(steps, i, n) <==> HeardAfterItsGrant(steps, i, n)
      ensures n in After(steps).registeredNames
      ensures StillUnlisted(steps, i, n) <==> GrantedInTime(steps, i, n)
    {
      AfterSnoc(prefix, last);
      StillIsAfterTheGrant(steps, i, n);
      CloseNames(steps, i, n);
      CloseTurn(steps, i, n);
    }
  }

  /** The same, decided at the grant: each name was granted while the watcher had yet to hear of it. */
  lemma {:induction false} CloseIsRightInTime(prefix: seq<Step>, last: Step, i: nat)
    requires Closes(After(prefix), last) && LastWake(prefix + [last]) == Some(i)
    ensures var steps := prefix + [last];
      (forall n :: n in After(steps).registeredNames ==> StillUnlisted(steps, i, n)) <==>
      (forall n :: GrantedSince(steps, i, n) ==> GrantedInTime(steps, i, n))
  {
    var steps := prefix + [last];
    AfterSnoc(prefix, last);
    forall n
      ensures GrantedSince(steps, i, n) ==> n in After(steps).registeredNames
      ensures n in After(steps).registeredNames ==>
        (StillUnlisted(steps, i, n) <==> (GrantedSince(steps, i, n) ==> GrantedInTime(steps, i, n)))
    {
      CloseNames(steps, i, n);
      if n in After(steps).registeredNames {
        CloseTurn(steps, i, n);
      }
    }
  }

  /** The broker granted some roster after step `i`. */
  ghost predicate GrantAfter(steps: seq<Step>, i: nat) {
    Since(After, steps, i + 1, Grants, Never())
  }

  lemma GrantedIsAGrant(steps: seq<Step>, i: nat, name: Name)
    requires GrantedSince(steps, i, name)
    ensures GrantAfter(steps, i)
  {
    var k: nat :| Holding(After, steps, i + 1, Granting(name), Ousting(name), k);
    assert Holding(After, steps, i + 1, Grants, Never(), k);
  }

  /** In particular it is right if no roster was granted while the watcher was asking. */
  lemma {:induction false} CloseIsRightWithoutAGrant(prefix: seq<Step>, last: Step, i: nat)
    requires Closes(After(prefix), last) && LastWake(prefix + [last]) == Some(i)
    requires !GrantAfter(prefix + [last], i)
    ensures forall n :: n in After(prefix + [last]).registeredNames ==> StillUnlisted(prefix + [last], i, n)
  {
    var steps := prefix + [last];
    forall n ensures !GrantedSince(steps, i, n) {
      if GrantedSince(steps, i, n) { GrantedIsAGrant(steps, i, n); }
    }
    CloseIsRightExactly(prefix, last, i);
  }

  /** A link that never had a roster granted is never closed by the watcher. */
  lemma {:induction false} NeverGrantedNeverClosed(steps: seq<Step>)
    requires !Since(After, steps, 0, Grants, Never())
    ensures After(steps).registeredNames == {} && After(steps).watch == Asleep && !HasClose(After(steps))
  {
    LastsIsSince(After, steps, 0, Grants, Never());
    WithoutGrant(steps);
    CloseOnlyByTheWatcher(steps);
  }

  lemma {:induction false} WithoutGrant(steps: seq<Step>)
    requires !Lasts(After, steps, 0, Grants, Never())
    ensures After(steps).registeredNames == {} && After(steps).watch == Asleep
  {
    if steps != [] {
      var prefix, last := steps[..|steps| - 1], steps[|steps| - 1];
      WithoutGrant(prefix);
      NamesAfter(After(prefix), last);
      WatchAfter(After(prefix), last);
    }
  }

  /** It can be wrong: a provider that had a fresh roster granted while the watcher was asking is closed all the same. */
  lemma CloseGoesByTheSnapshot(s: Socket)
    requires s.up && s.reading == Idle && s.watch == Asleep
    ensures var waking := Next(Rostered(s, "a", false, true), Wake); var renewed := Rostered(waking, "b", false, true);
      var told := Next(renewed, HearOf("a", false));
      && told.registeredNames == {"b"} && Closes(renewed, HearOf("a", false)) && told.enqueued == renewed.enqueued + [UNLISTED]
  {
    OneLetterNames();
    RosteredLeaves(s, "a", false, true);
    var waking := Next(Rostered(s, "a", false, true), Wake);
    assert waking.watch == Asking({"a"}, map[]);
    RosteredLeaves(waking, "b", false, true);
    LastOneUnlisted(Rostered(waking, "b", false, true), "a");
  }

  lemma LastOneUnlisted(s: Socket, name: Name)
    requires s.up && s.watch == Asking({name}, map[])
    ensures var told := Next(s, HearOf(name, false));
      && told.registeredNames == s.registeredNames && told.watch.Returned? && told.enqueued == s.enqueued + [UNLISTED]
  {
    assert map[name := false].Keys == {name};
  }

  /** Two agents, a wake, and word that the first is unlisted; then it alone is granted afresh. */
  ghost predicate Overtaken(steps: seq<Step>) {
    && |steps| == 6
    && steps[0] == RosteringAll([Registration("a", false), Registration("b", false)])
    && steps[1] == RosterAnswered(Some(["a", "b"]))
    && steps[2] == Wake
    && steps[3] == HearOf("a", false)
    && steps[4] == RosteringAll([Registration("a", false)])
    && steps[5] == RosterAnswered(Some(["a"]))
  }

  /** The read loop is idle with these names, the watcher at this point. */
  predicate StandsAt(s: Socket, names: set<Name>, watch: Watch) {
    s.up && s.reading == Idle && s.registeredNames == names && s.watch == watch
  }

  lemma AfterOneMore(steps: seq<Step>, k: nat)
    requires k < |steps|
    ensures steps[..k + 1] == steps[..k] + [steps[k]]
    ensures After(steps[..k + 1]) == Next(After(steps[..k]), steps[k])
  {
    assert steps[..k + 1] == steps[..k] + [steps[k]];
    AfterSnoc(steps[..k], steps[k]);
  }

  lemma GrantLeaves(s: Socket, names: seq<Name>)
    requires s.up && s.reading.Registering?
    ensures StandsAt(Next(s, RosterAnswered(Some(names))), SetOf(names), s.watch)
  {
  }

  lemma OneLetterNames()
    ensures AgentName("a") && AgentName("b")
  {
    AgentNameExactly("a");
    AgentNameExactly("b");
  }

  lemma TwoAreGranted(s: Socket, steps: seq<Step>)
    requires s == ATTACHED && Overtaken(steps)
    ensures StandsAt(Next(Next(s, steps[0]), steps[1]), {"a", "b"}, Asleep)
  {
    OneLetterNames();
    RosteringAllDeclares(s, [Registration("a", false), Registration("b", false)]);
    GrantLeaves(Next(s, steps[0]), ["a", "b"]);
    assert SetOf(["a", "b"]) == {"a", "b"};
  }

  lemma OvertakenOpens(steps: seq<Step>)
    requires Overtaken(steps)
    ensures StandsAt(After(steps[..2]), {"a", "b"}, Asleep)
  {
    assert steps[..0] == [];
    TwoAreGranted(After(steps[..0]), steps);
    AfterOneMore(steps, 0);
    AfterOneMore(steps, 1);
  }

  lemma TwoAreAskedAfter(s: Socket)
    requires StandsAt(s, {"a", "b"}, Asleep)
    ensures StandsAt(Next(Next(s, Wake), HearOf("a", false)), {"a", "b"}, Asking({"a", "b"}, map["a" := false]))
  {
    var asking := Next(s, Wake);
    assert StandsAt(asking, {"a", "b"}, Asking({"a", "b"}, map[]));
    FirstOfTwoUnlisted(asking);
  }

  lemma FirstOfTwoUnlisted(s: Socket)
    requires StandsAt(s, {"a", "b"}, Asking({"a", "b"}, map[]))
    ensures StandsAt(Next(s, HearOf("a", false)), {"a", "b"}, Asking({"a", "b"}, map["a" := false]))
  {
    assert map["a" := false].Keys == {"a"};
    assert "b" !in {"a"};
  }

  lemma OvertakenAsks(steps: seq<Step>)
    requires Overtaken(steps)
    ensures StandsAt(After(steps[..4]), {"a", "b"}, Asking({"a", "b"}, map["a" := false]))
  {
    OvertakenOpens(steps);
    TwoAreAskedAfter(After(steps[..2]));
    AfterOneMore(steps, 2);
    AfterOneMore(steps, 3);
  }

  lemma OvertakenDeclares(steps: seq<Step>)
    requires Overtaken(steps)
    ensures var s := After(steps[..5]);
      s.up && s.reading.Registering? && s.watch == Asking({"a", "b"}, map["a" := false])
  {
    OvertakenAsks(steps);
    OneLetterNames();
    RosteringAllDeclares(After(steps[..4]), [Registration("a", false)]);
    AfterOneMore(steps, 4);
  }

  lemma {:induction false} OvertakenRenews(steps: seq<Step>)
    requires Overtaken(steps)
    ensures StandsAt(After(steps), {"a"}, Asking({"a", "b"}, map["a" := false]))
  {
    OvertakenDeclares(steps);
    AfterOneMore(steps, 5);
    assert steps[..6] == steps;
    GrantLeaves(After(steps[..5]), ["a"]);
    assert SetOf(["a"]) == {"a"};
  }

  /**
   It can be wrong without any new name, too: word that the other agent is
   unlisted closes the connection, though the first was granted after it had
   been heard of.
   */
  lemma {:induction false} GrantAfterTheHearingIsMissed(prefix: seq<Step>)
    requires Overtaken(prefix)
    ensures var last := HearOf("b", false); var steps := prefix + [last];
      && Closes(After(prefix), last) && LastWake(steps) == Some(2) && After(steps).registeredNames == {"a"}
      && "a" in After(steps[..2]).registeredNames && HeardUnlisted(steps, 2, "a") && !StillUnlisted(steps, 2, "a")
  {
    var last := HearOf("b", false);
    var steps := prefix + [last];
    OvertakenOpens(prefix);
    OvertakenRenews(prefix);
    AfterSnoc(prefix, last);
    SecondOfTwoUnlisted(After(prefix));
    OvertakenWake(prefix, last);
    assert steps[..2] == prefix[..2];
    CloseHeardAll(steps, 2, "a");
    HearingLapsed(prefix, last);
    LastsIsSince(After, steps, 3, HearsUnlisted("a"), Granting("a"));
  }

  lemma {:induction false} HearingLapsed(prefix: seq<Step>, last: Step)
    requires Overtaken(prefix) && last == HearOf("b", false)
    ensures !Lasts(After, prefix + [last], 3, HearsUnlisted("a"), Granting("a"))
  {
    OvertakenDeclares(prefix);
    assert prefix == prefix[..5] + [prefix[5]];
    LastsSnoc(After, prefix[..5], prefix[5], 3, HearsUnlisted("a"), Granting("a"));
    LastsSnoc(After, prefix, last, 3, HearsUnlisted("a"), Granting("a"));
  }

  lemma SecondOfTwoUnlisted(s: Socket)
    requires s.up && s.watch == Asking({"a", "b"}, map["a" := false])
    ensures Closes(s, HearOf("b", false)) && Next(s, HearOf("b", false)).registeredNames == s.registeredNames
  {
    assert map["a" := false]["b" := false].Keys == {"a", "b"};
  }

  /** Steps other than a wake leave the last wake what it was. */
  lemma {:induction false} NoWakeFrom(steps: seq<Step>, k: nat)
    requires k <= |steps| && forall l :: k <= l < |steps| ==> steps[l] != Wake
    ensures LastWake(steps) == LastWake(steps[..k])
    decreases |steps| - k
  {
    if k < |steps| {
      AfterOneMore(steps, k);
      LastAtSnoc(After, steps[..k], steps[k], Wakes);
      NoWakeFrom(steps, k + 1);
    } else {
      assert steps[..k] == steps;
    }
  }

  lemma OvertakenWakes(steps: seq<Step>)
    requires Overtaken(steps)
    ensures LastWake(steps[..3]) == Some(2)
  {
    OvertakenOpens(steps);
    AfterOneMore(steps, 2);
    LastAtSnoc(After, steps[..2], steps[2], Wakes);
  }

  lemma OvertakenWake(prefix: seq<Step>, last: Step)
    requires Overtaken(prefix) && last == HearOf("b", false)
    ensures LastWake(prefix + [last]) == Some(2)
  {
    var steps := prefix + [last];
    OvertakenWakes(prefix);
    assert steps[..3] == prefix[..3];
    NoWakeFrom(steps, 3);
  }
}
