/** Merging the thread the gateway holds into the messages a caller sent. */
module ThreadHistory {
  import opened Seqs
  import opened ThreadReads
  import ProviderQueries
  import ProviderLink

  datatype RunInput = RunInput(threadId: string, messages: seq<Message>)

  /** A message's id, if it has one that counts. */
  function IdOf(): Message -> Option<string> {
    (m: Message) => if m.id.Some? && m.id.value != "" then m.id else None
  }

  function Ids(messages: seq<Message>): seq<string> {
    Pick(messages, IdOf())
  }

  function Seen(history: seq<Message>): set<string> {
    set m | m in history && m.id.Some? && m.id.value != "" :: m.id.value
  }

  function Unseen(seen: set<string>): Message -> Option<Message> {
    (m: Message) => if m.id.Some? && m.id.value in seen then None else Some(m)
  }

  function Tail(history: seq<Message>, messages: seq<Message>): seq<Message> {
    Pick(messages, Unseen(Seen(history)))
  }

  function Merge(history: seq<Message>, messages: seq<Message>): seq<Message> {
    history + Tail(history, messages)
  }

  /** `answer` is what the link's question came back with: the messages, or nothing if it failed. */
  function WithThreadHistory(input: RunInput, linked: bool, limit: Option<int>, answer: Option<seq<Message>>): RunInput {
    if limit == None || limit.value == 0 || input.threadId == "" || !linked || answer == None || answer.value == [] then input
    else input.(messages := Merge(answer.value, input.messages))
  }

  // ---- nothing lost

  lemma {:induction false} PickUnseen(messages: seq<Message>, seen: set<string>)
    ensures forall m :: m in Pick(messages, Unseen(seen)) <==> m in messages && !(m.id.Some? && m.id.value in seen)
  {
    if messages != [] {
      PickUnseen(messages[1..], seen);
      assert messages == [messages[0]] + messages[1..];
    }
  }

  /** `at` lists, in increasing order, the places of all messages whose id is not seen, and `kept` is what stands there. */
  ghost predicate Keeps(messages: seq<Message>, seen: set<string>, at: seq<nat>, kept: seq<Message>) {
    Increasing(at) && StandAt(messages, at, kept) && AllPlaces(messages, seen, at)
  }

  ghost predicate StandAt(messages: seq<Message>, at: seq<nat>, kept: seq<Message>) {
    |at| == |kept| && forall j :: 0 <= j < |at| ==> at[j] < |messages| && messages[at[j]] == kept[j]
  }

  ghost predicate AllPlaces(messages: seq<Message>, seen: set<string>, at: seq<nat>) {
    forall i: nat :: i in at <==> i < |messages| && !(messages[i].id.Some? && messages[i].id.value in seen)
  }

  lemma {:induction false} KeptInOrder(messages: seq<Message>, seen: set<string>) returns (at: seq<nat>)
    ensures Keeps(messages, seen, at, Pick(messages, Unseen(seen)))
    decreases |messages|
  {
    if messages == [] {
      at := [];
    } else {
      var front, m := messages[..|messages| - 1], messages[|messages| - 1];
      at := KeptInOrder(front, seen);
      assert messages == front + [m];
      PickSnoc(front, m, Unseen(seen));
      if Unseen(seen)(m).Some? {
        KeepOne(front, m, seen, at, Pick(front, Unseen(seen)));
        at := at + [|front|];
      } else {
        SkipOne(front, m, seen, at, Pick(front, Unseen(seen)));
      }
    }
  }

  lemma KeepOne(front: seq<Message>, m: Message, seen: set<string>, at: seq<nat>, kept: seq<Message>)
    requires Keeps(front, seen, at, kept) && Unseen(seen)(m).Some?
    ensures Keeps(front + [m], seen, at + [|front|], kept + [m])
  {
    IncreasingOn(at, |front|);
    StandOn(front, m, at, kept);
    assert forall i: nat :: i in at + [|front|] <==> i in at || i == |front|;
  }

  lemma IncreasingOn(at: seq<nat>, next: nat)
    requires Increasing(at) && forall i :: i in at ==> i < next
    ensures Increasing(at + [next])
  {
    forall i, j | 0 <= i < j < |at| + 1 ensures (at + [next])[i] < (at + [next])[j] {
      if j == |at| { assert at[i] in at; }
    }
  }

  lemma StandOn(front: seq<Message>, m: Message, at: seq<nat>, kept: seq<Message>)
    requires StandAt(front, at, kept)
    ensures StandAt(front + [m], at, kept) && StandAt(front + [m], at + [|front|], kept + [m])
  {
  }

  lemma SkipOne(front: seq<Message>, m: Message, seen: set<string>, at: seq<nat>, kept: seq<Message>)
    requires Keeps(front, seen, at, kept) && Unseen(seen)(m) == None
    ensures Keeps(front + [m], seen, at, kept)
  {
    StandOn(front, m, at, kept);
  }

  /** The window has a message under this one's id, and the id says something. */
  ghost predicate Known(history: seq<Message>, m: Message) {
    exists h :: h in history && h.id == m.id && h.id != None && h.id != Some("")
  }

  /** `at` lists, in increasing order, the places of all messages that are not known, and `kept` is what stands there. */
  ghost predicate KeepsUnknown(history: seq<Message>, messages: seq<Message>, at: seq<nat>, kept: seq<Message>) {
    && Increasing(at) && StandAt(messages, at, kept)
    && forall i: nat :: i in at <==> i < |messages| && !Known(history, messages[i])
  }

  lemma KnownIsSeen(history: seq<Message>, m: Message)
    ensures Known(history, m) <==> m.id.Some? && m.id.value in Seen(history)
  {
  }

  /**
   The result is the window, followed by the caller's messages whose id the
   window has not, each as often as the caller sent it and in the caller's
   order. A message left out is in the window under its id.
   */
  lemma NothingIsLost(history: seq<Message>, messages: seq<Message>)
    ensures history <= Merge(history, messages)
    ensures exists at :: KeepsUnknown(history, messages, at, Merge(history, messages)[|history|..])
    ensures forall m :: m in messages && m !in Merge(history, messages) ==> exists h :: h in history && h.id == m.id && m.id.Some?
  {
    var at := KeptInOrder(messages, Seen(history));
    assert Merge(history, messages)[|history|..] == Tail(history, messages);
    forall m: Message ensures Known(history, m) <==> m.id.Some? && m.id.value in Seen(history) {
      KnownIsSeen(history, m);
    }
    assert KeepsUnknown(history, messages, at, Tail(history, messages));
    PickUnseen(messages, Seen(history));
    forall m | m in messages && m !in Merge(history, messages) ensures exists h :: h in history && h.id == m.id && m.id.Some? {
      assert m.id.Some? && m.id.value in Seen(history);
      var h :| h in history && h.id.Some? && h.id.value != "" && h.id.value == m.id.value;
      assert h in history && h.id == m.id;
    }
  }

  /** The input is left alone without a limit, a thread, a link or an answer, and when the thread is empty; else its messages alone are merged. */
  lemma LeftAloneExactly(input: RunInput, linked: bool, limit: Option<int>, answer: Option<seq<Message>>)
    ensures limit in {None, Some(0)} || input.threadId == "" || !linked || answer in {None, Some([])} ==>
      WithThreadHistory(input, linked, limit, answer) == input
    ensures forall history :: answer == Some(history) && history != [] && linked && input.threadId != "" && limit !in {None, Some(0)} ==>
      WithThreadHistory(input, linked, limit, answer) == RunInput(input.threadId, Merge(history, input.messages))
  {
  }

  // ---- no id twice

  lemma {:induction false} IdsAre(messages: seq<Message>)
    ensures forall x :: x in Ids(messages) <==> exists m :: m in messages && m.id == Some(x) && x != ""
  {
    if messages != [] {
      IdsAre(messages[1..]);
      assert messages == [messages[0]] + messages[1..];
      forall x ensures x in Ids(messages) <==> exists m :: m in messages && m.id == Some(x) && x != "" {
        if x in Ids(messages[1..]) {
          var m :| m in messages[1..] && m.id == Some(x) && x != "";
          assert m in messages;
        } else if x in Ids(messages) {
          assert messages[0].id == Some(x) && messages[0] in messages;
        }
      }
    }
  }

  lemma {:induction false} TailHead(messages: seq<Message>, seen: set<string>)
    requires messages != []
    ensures Pick(messages, Unseen(seen)) ==
      (if Unseen(seen)(messages[0]).Some? then [messages[0]] else []) + Pick(messages[1..], Unseen(seen))
    ensures Ids(messages) == (if IdOf()(messages[0]).Some? then [messages[0].id.value] else []) + Ids(messages[1..])
  {
  }

  lemma {:induction false} TailKeepsDistinct(messages: seq<Message>, seen: set<string>)
    requires NoDuplicates(Ids(messages))
    ensures NoDuplicates(Ids(Pick(messages, Unseen(seen))))
    ensures forall x :: x in Ids(Pick(messages, Unseen(seen))) ==> x in Ids(messages) && x !in seen
  {
    if messages != [] {
      var m, rest := messages[0], messages[1..];
      TailHead(messages, seen);
      if IdOf()(m).Some? {
        ConsDistinct(m.id.value, Ids(rest));
      } else {
        assert Ids(messages) == Ids(rest);
      }
      TailKeepsDistinct(rest, seen);
      var kept := Pick(rest, Unseen(seen));
      if Unseen(seen)(m).Some? {
        PickConcat([m], kept, IdOf());
        PickOne(m, IdOf());
        if IdOf()(m).Some? {
          ConsDistinct(m.id.value, Ids(kept));
        } else {
          assert Ids([m] + kept) == Ids(kept);
        }
      } else {
        assert Pick(messages, Unseen(seen)) == kept;
      }
    }
  }

  lemma ApartDistinct(a: seq<string>, b: seq<string>)
    requires NoDuplicates(a) && NoDuplicates(b)
    requires forall x :: x in b ==> x !in a
    ensures NoDuplicates(a + b)
  {
    forall i, j | 0 <= i < j < |a + b| ensures (a + b)[i] != (a + b)[j] {
      if i < |a| && j >= |a| {
        assert b[j - |a|] in b && a[i] in a;
      }
    }
  }

  /** If neither side repeats an id, the merge repeats none. */
  lemma NoIdTwice(history: seq<Message>, messages: seq<Message>)
    requires NoDuplicates(Ids(history)) && NoDuplicates(Ids(messages))
    ensures NoDuplicates(Ids(Merge(history, messages)))
  {
    var tail := Tail(history, messages);
    TailKeepsDistinct(messages, Seen(history));
    PickConcat(history, tail, IdOf());
    IdsAre(history);
    forall x | x in Ids(tail) ensures x !in Ids(history) {
      assert x !in Seen(history);
    }
    ApartDistinct(Ids(history), Ids(tail));
  }

  // ---- merging again

  lemma {:induction false} PickAgain(messages: seq<Message>, seen: set<string>)
    ensures Pick(Pick(messages, Unseen(seen)), Unseen(seen)) == Pick(messages, Unseen(seen))
  {
    if messages != [] {
      PickAgain(messages[1..], seen);
      var kept := Pick(messages[1..], Unseen(seen));
      if Unseen(seen)(messages[0]).Some? {
        assert Pick(messages, Unseen(seen)) == [messages[0]] + kept;
        assert ([messages[0]] + kept)[0] == messages[0] && ([messages[0]] + kept)[1..] == kept;
      } else {
        assert Pick(messages, Unseen(seen)) == kept;
      }
    }
  }

  lemma {:induction false} SeenVanish(part: seq<Message>, history: seq<Message>)
    requires forall m :: m in part ==> m in history
    ensures Pick(part, Unseen(Seen(history))) == [] <==> forall m :: m in part ==> m.id.Some? && m.id.value != ""
  {
    if part != [] {
      var rest := part[1..];
      assert part == [part[0]] + rest;
      SeenVanish(rest, history);
      if part[0].id.Some? && part[0].id.value != "" {
        assert part[0].id.value in Seen(history);
      } else {
        EmptyIdUnseen(history);
        assert part[0] in part;
      }
    }
  }

  lemma EmptyIdUnseen(history: seq<Message>)
    ensures "" !in Seen(history)
  {
  }

  /** A second merge with the same window changes nothing exactly when every stored message in it has an id. */
  lemma IdempotentExactly(history: seq<Message>, messages: seq<Message>)
    ensures Merge(history, Merge(history, messages)) == Merge(history, messages) <==>
            forall m :: m in history ==> m.id.Some? && m.id.value != ""
  {
    var seen := Seen(history);
    var tail := Tail(history, messages);
    PickConcat(history, tail, Unseen(seen));
    PickAgain(messages, seen);
    SeenVanish(history, history);
    var twice := Pick(history, Unseen(seen)) + tail;
    assert Merge(history, Merge(history, messages)) == history + twice;
    assert (history + twice)[|history|..] == twice && (history + tail)[|history|..] == tail;
    assert |twice| == |tail| ==> Pick(history, Unseen(seen)) == [];
    if Pick(history, Unseen(seen)) == [] { assert twice == tail; }
  }

  /** It does not when a stored message has none. */
  lemma UnmarkedMessageComesTwice()
    ensures var stored := Message(None, "hello");
      Merge([stored], Merge([stored], [])) == [stored, stored] != Merge([stored], [])
  {
    var stored := Message(None, "hello");
    PickUnseen([stored], Seen([stored]));
    assert Unseen(Seen([stored]))(stored) == Some(stored);
    PickOne(stored, Unseen(Seen([stored])));
  }

  // ---- thread order

  /** Where in the thread a message with this id is stored. */
  function Place(thread: seq<Message>, id: string): Option<nat> {
    if thread == [] then None
    else if thread[0].id == Some(id) then Some(0)
    else match Place(thread[1..], id) case None => None case Some(k) => Some(k + 1)
  }

  function PlaceIn(thread: seq<Message>): Message -> Option<nat> {
    (m: Message) => if m.id.Some? && m.id.value != "" then Place(thread, m.id.value) else None
  }

  /** The thread positions of those messages that are stored, in the order they stand. */
  function Places(thread: seq<Message>, messages: seq<Message>): seq<nat> {
    Pick(messages, PlaceIn(thread))
  }

  ghost predicate Increasing(s: seq<nat>) {
    forall i, j :: 0 <= i < j < |s| ==> s[i] < s[j]
  }

  /** Every stored message has an id of its own. */
  ghost predicate WellStored(thread: seq<Message>) {
    && (forall m :: m in thread ==> m.id.Some? && m.id.value != "")
    && (forall i, j :: 0 <= i < j < |thread| ==> thread[i].id != thread[j].id)
  }

  lemma {:induction false} PlaceFinds(thread: seq<Message>, k: nat)
    requires k < |thread| && thread[k].id.Some?
    requires forall i, j :: 0 <= i < j < |thread| ==> thread[i].id != thread[j].id
    ensures Place(thread, thread[k].id.value) == Some(k)
  {
    if k > 0 { PlaceFinds(thread[1..], k - 1); }
  }

  lemma {:induction false} PlaceIs(thread: seq<Message>, id: string)
    ensures match Place(thread, id) case Some(k) => k < |thread| && thread[k].id == Some(id) case None => forall m :: m in thread ==> m.id != Some(id)
  {
    if thread != [] {
      PlaceIs(thread[1..], id);
      assert thread == [thread[0]] + thread[1..];
    }
  }

  lemma {:induction false} PlacesOfWindow(thread: seq<Message>, start: nat)
    requires start <= |thread| && WellStored(thread)
    ensures Places(thread, thread[start..]) == seq(|thread| - start, i requires 0 <= i < |thread| - start => start + i)
    decreases |thread| - start
  {
    if start < |thread| {
      assert thread[start] in thread;
      PlacesOfWindow(thread, start + 1);
      PlaceFinds(thread, start);
      assert thread[start..][1..] == thread[start + 1..];
    }
  }

  /** A caller's message that is stored, but further back than the window reaches. */
  ghost predicate StoredBefore(thread: seq<Message>, start: nat, m: Message) {
    && m.id.Some? && m.id.value != ""
    && Place(thread, m.id.value).Some? && Place(thread, m.id.value).value < start
  }

  lemma {:induction false} PlacesOfTail(thread: seq<Message>, start: nat, messages: seq<Message>)
    requires start <= |thread| && WellStored(thread)
    ensures forall k :: k in Places(thread, Tail(thread[start..], messages)) ==> k < start
    ensures Places(thread, Tail(thread[start..], messages)) == [] <==> forall m :: m in messages ==> !StoredBefore(thread, start, m)
  {
    var history := thread[start..];
    if messages != [] {
      var m, rest := messages[0], messages[1..];
      assert messages == [m] + rest;
      PlacesOfTail(thread, start, rest);
      var kept := Tail(history, rest);
      if m.id.Some? {
        PlaceIs(thread, m.id.value);
        SeenInWindow(thread, start, m.id.value);
      }
      if Unseen(Seen(history))(m).Some? {
        assert Tail(history, messages) == [m] + kept;
        assert ([m] + kept)[1..] == kept;
      } else {
        assert Tail(history, messages) == kept;
      }
      assert m in messages;
    }
  }

  /** An id is seen in the window exactly when it is stored there. */
  lemma {:induction false} SeenInWindow(thread: seq<Message>, start: nat, id: string)
    requires start <= |thread| && WellStored(thread)
    ensures id in Seen(thread[start..]) <==> id != "" && Place(thread, id).Some? && Place(thread, id).value >= start
  {
    PlaceIs(thread, id);
    if id in Seen(thread[start..]) {
      var m :| m in thread[start..] && m.id.Some? && m.id.value != "" && m.id.value == id;
      var i :| 0 <= i < |thread[start..]| && thread[start..][i] == m;
      assert thread[start + i] == m;
      PlaceFinds(thread, start + i);
    }
    if id != "" && Place(thread, id).Some? && Place(thread, id).value >= start {
      assert thread[start..][Place(thread, id).value - start] in thread[start..];
    }
  }

  /**
   Merging the last `limit` messages of a thread gives the stored messages in
   thread order exactly when no caller message is stored further back than that.
   */
  lemma InThreadOrderExactly(thread: seq<Message>, limit: nat, messages: seq<Message>)
    requires WellStored(thread) && thread != [] && limit > 0
    ensures var start := if limit <= |thread| then |thread| - limit else 0;
            Increasing(Places(thread, Merge(LastOf(thread, limit), messages))) <==>
            forall m :: m in messages ==> !StoredBefore(thread, start, m)
  {
    var start := if limit <= |thread| then |thread| - limit else 0;
    var history := LastOf(thread, limit);
    assert history == thread[start..];
    PlacesOfWindow(thread, start);
    PlacesOfTail(thread, start, messages);
    PickConcat(history, Tail(history, messages), PlaceIn(thread));
    var front, back := Places(thread, history), Places(thread, Tail(history, messages));
    if back != [] {
      assert (front + back)[0] == start && (front + back)[|front|] == back[0];
      assert back[0] in back;
    } else {
      assert front + back == front;
    }
  }

  /** A caller message older than the window lands behind it. */
  lemma OldMessageLandsBehind()
    ensures var first, second := Message(Some("1"), "hello"), Message(Some("2"), "again");
      && Merge(LastOf([first, second], 1), [first]) == [second, first]
      && Places([first, second], [second, first]) == [1, 0]
  {
    var first, second := Message(Some("1"), "hello"), Message(Some("2"), "again");
    assert LastOf([first, second], 1) == [second];
    assert "1" !in Seen([second]);
    PickOne(first, Unseen(Seen([second])));
    var thread := [first, second];
    assert thread[1..] == [second];
    assert Place(thread, "1") == Some(0) && Place(thread[1..], "2") == Some(0) && Place(thread, "2") == Some(1);
    PickConcat([second], [first], PlaceIn(thread));
    PickOne(second, PlaceIn(thread));
    PickOne(first, PlaceIn(thread));
  }

  // ---- over the link

  /** What the merge is given of a question that has come to its end. */
  function Fetched(v: ProviderQueries.Verdict): Option<seq<Message>> {
    if v.Got? then Some(v.messages) else None
  }

  /** The key serves the thread and may read it, and this is the merge with the last `limit` messages it holds of it. */
  ghost predicate MergedFrom(store: Store, key: Key, input: RunInput, limit: int, merged: RunInput) {
    && input.threadId in store && store[input.threadId].providerKey == key
    && (store[input.threadId].parties == None || key in store[input.threadId].parties.value)
    && limit > 0
    && var stored := store[input.threadId].messages;
       merged == if stored == [] then input else input.(messages := Merge(LastOf(stored, limit), input.messages))
  }

  /**
   End to end, over any run of the link: if the question for this thread and
   limit brought messages, the run goes on with the merge out of the very store
   that the task answering this question read; if it failed, whoever failed it,
   with its caller's input as it was.
   */
  lemma {:induction false} HistoryOverTheLink(steps: seq<ProviderLink.Step>, q: ProviderQueries.QueryId, input: RunInput, limit: int)
    requires var questions := ProviderLink.After(steps).desk.questions;
      && q in questions && questions[q].ask == ProviderQueries.Ask(input.threadId, Some(limit))
      && questions[q].verdict.Some? && !questions[q].verdict.value.Stopped?
    ensures var question := ProviderLink.After(steps).desk.questions[q];
      var merged := WithThreadHistory(input, true, Some(limit), Fetched(question.verdict.value));
      if question.verdict.value.Got?
      then exists j: nat :: ProviderLink.ComputedAt(steps, j, q, question.ask)
             && MergedFrom(steps[j].store, steps[j].key, input, limit, merged)
      else merged == input
  {
    var question := ProviderLink.After(steps).desk.questions[q];
    if question.verdict.value.Got? {
      var m := question.verdict.value.messages;
      ProviderLink.AnsweredByItsOwn(steps, q, m);
      var j: nat :| ProviderLink.AnsweredAt(steps, j, q, question.ask, m);
      AnswerMerges(steps[j].store, steps[j].key, q, input, limit, m);
    }
  }

  lemma AnswerMerges(store: Store, key: Key, q: ProviderQueries.QueryId, input: RunInput, limit: int, m: seq<Message>)
    requires AnswerQuery(store, key, ProviderLink.AsQuery(q, ProviderQueries.Ask(input.threadId, Some(limit)))) == Messages(q, m)
    ensures MergedFrom(store, key, input, limit, WithThreadHistory(input, true, Some(limit), Some(m)))
  {
    var stored := store[input.threadId].messages;
    assert m == LastOf(stored, limit);
    assert stored == [] <==> m == [];
  }
}
