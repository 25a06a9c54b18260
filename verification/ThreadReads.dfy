/** The gateway's answer to a `query` frame, and what the asking side reads out of it. */
module ThreadReads {
  import opened Seqs

  type Key = string

  /** A stored message; `id` is absent when the record carries none. */
  datatype Message = Message(id: Option<string>, content: string)

  datatype Thread = Thread(providerKey: Key, parties: Option<set<Key>>, messages: seq<Message>)
  type Store = map<string, Thread>

  /** A query frame. `None` is a field absent or of the wrong type; a limit that is no integer stands as 0, which is refused in the same words. */
  datatype Query = Query(queryId: Option<string>, verb: string, threadId: Option<string>, limit: Option<int>)

  datatype Answer =
    | NoQueryId
    | Refusal(queryId: string, error: string)
    | Messages(queryId: string, result: seq<Message>)

  /** The last `n`, or all if there are fewer. */
  function LastOf<T>(s: seq<T>, n: nat): seq<T> {
    if n <= |s| then s[|s| - n..] else s
  }

  /** Unbound threads are open to whoever holds the id, bound ones to their parties. */
  predicate MayRead(store: Store, threadId: string, key: Key) {
    threadId in store && (store[threadId].parties == None || key in store[threadId].parties.value)
  }

  function AnswerQuery(store: Store, key: Key, q: Query): Answer {
    if q.queryId == None || q.queryId.value == "" then NoQueryId
    else
      var id := q.queryId.value;
      if q.verb != "thread_messages" then Refusal(id, "unknown query method")
      else if q.threadId == None || q.threadId.value == "" then Refusal(id, "thread_messages needs a threadId")
      else if q.limit.Some? && q.limit.value <= 0 then Refusal(id, "limit must be a positive integer")
      else
        var t := q.threadId.value;
        if t !in store || store[t].providerKey != key then Refusal(id, "no such thread for this provider")
        else if !MayRead(store, t, key) then Refusal(id, "no such thread for this provider")
        else Messages(id, match q.limit case None => store[t].messages case Some(n) => LastOf(store[t].messages, n))
  }

  /** What comes back is the end of the thread: all of it, or its last `limit` messages. */
  lemma AnswerIsASuffix(store: Store, key: Key, q: Query)
    requires AnswerQuery(store, key, q).Messages?
    ensures var all := store[q.threadId.value].messages; var got := AnswerQuery(store, key, q).result;
      && |got| <= |all| && got == all[|all| - |got|..]
      && |got| == (if q.limit == None || |all| <= q.limit.value then |all| else q.limit.value)
  {
    var all := store[q.threadId.value].messages;
    assert all[0..] == all;
  }

  // ---- who is told what

  const NO_SUCH_THREAD := "no such thread for this provider"

  /** A question about `threadId` with nothing wrong in it. */
  predicate WellPosed(q: Query, id: string, threadId: string) {
    && q.queryId == Some(id) && id != ""
    && q.verb == "thread_messages"
    && q.threadId == Some(threadId) && threadId != ""
    && (q.limit == None || q.limit.value > 0)
  }

  /**
   The party rule, on the record itself: a well-posed question about a thread is
   answered with messages exactly when the key serves the thread and, if the
   thread is bound, is one of its parties; to every other key it is refused in
   the words a thread that does not exist is refused in.
   */
  lemma PartiesAloneRead(store: Store, key: Key, q: Query, id: string, threadId: string)
    requires WellPosed(q, id, threadId)
    ensures threadId !in store ==> AnswerQuery(store, key, q) == Refusal(id, NO_SUCH_THREAD)
    ensures threadId in store && store[threadId].providerKey != key ==> AnswerQuery(store, key, q) == Refusal(id, NO_SUCH_THREAD)
    ensures forall parties :: threadId in store && store[threadId].parties == Some(parties) && key !in parties ==>
      AnswerQuery(store, key, q) == Refusal(id, NO_SUCH_THREAD)
    ensures threadId in store && store[threadId].providerKey == key && store[threadId].parties == None ==>
      exists m :: m <= store[threadId].messages && AnswerQuery(store, key, q) == Messages(id, store[threadId].messages[|m|..])
    ensures forall parties :: threadId in store && store[threadId].providerKey == key && store[threadId].parties == Some(parties) && key in parties ==>
      exists m :: m <= store[threadId].messages && AnswerQuery(store, key, q) == Messages(id, store[threadId].messages[|m|..])
  {
    var a := AnswerQuery(store, key, q);
    if a.Messages? {
      var all := store[threadId].messages;
      AnswerIsASuffix(store, key, q);
      assert all[..|all| - |a.result|] <= all;
    }
  }

  /** And a question with something wrong in it is told the first thing wrong, whatever the store holds. */
  lemma FirstThingWrong(store: Store, key: Key, q: Query, id: string)
    ensures q.queryId == None || q.queryId == Some("") ==> AnswerQuery(store, key, q) == NoQueryId
    ensures q.queryId == Some(id) && id != "" && q.verb != "thread_messages" ==>
      AnswerQuery(store, key, q) == Refusal(id, "unknown query method")
    ensures q.queryId == Some(id) && id != "" && q.verb == "thread_messages" && (q.threadId == None || q.threadId == Some("")) ==>
      AnswerQuery(store, key, q) == Refusal(id, "thread_messages needs a threadId")
    ensures forall t, n :: q == Query(Some(id), "thread_messages", Some(t), Some(n)) && id != "" && t != "" && n <= 0 ==>
      AnswerQuery(store, key, q) == Refusal(id, "limit must be a positive integer")
  {
  }

  /** The store has no such thread, or the key does not serve it, or the thread is bound and the key is none of its parties. */
  predicate Denied(store: Store, threadId: string, key: Key) {
    threadId in store ==>
      || store[threadId].providerKey != key
      || (store[threadId].parties.Some? && key !in store[threadId].parties.value)
  }

  /**
   A denial tells nothing about why: all stores that deny a thread to a key give
   one and the same answer; and one that does not deny it answers otherwise.
   */
  lemma DenialTellsNothing(a: Store, b: Store, key: Key, q: Query)
    requires q.threadId.Some? && Denied(a, q.threadId.value, key)
    ensures Denied(b, q.threadId.value, key) ==> AnswerQuery(a, key, q) == AnswerQuery(b, key, q)
    ensures !Denied(b, q.threadId.value, key) && AnswerQuery(b, key, q).Messages? ==> AnswerQuery(a, key, q) != AnswerQuery(b, key, q)
  {
  }
}
