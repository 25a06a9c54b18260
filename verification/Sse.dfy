/**
 The completion endpoint's event stream: one `data:` event per chunk, then
 `[DONE]` or an error, read back as section 9.2.6 of the WHATWG HTML Standard says.
 */
module Sse {
  import opened Seqs
  import opened Texts
  import KyokLink
  import KyokGateway

  /** What the relay's stream hands over: a chunk's JSON text, or a failure's payload as JSON text. */
  datatype Item = Chunk(json: string) | Failure(payload: string)

  const DONE := "[DONE]"

  function Frame(data: string): string {
    "data: " + data + "\n\n"
  }

  function Framed(datas: seq<string>): string {
    if datas == [] then "" else Frame(datas[0]) + Framed(datas[1..])
  }

  function ErrorJson(payload: string): string {
    "{\"error\": " + payload + "}"
  }

  /** The events a reader is meant to see. */
  function Events(items: seq<Item>): seq<string> {
    if items == [] then [DONE]
    else match items[0]
      case Failure(payload) => [ErrorJson(payload)]
      case Chunk(json) => [json] + Events(items[1..])
  }

  method Sse(items: seq<Item>) returns (body: string)
    ensures body == Framed(Events(items))
  {
    body := "";
    assert items[0..] == items;
    for i := 0 to |items|
      invariant Framed(Events(items)) == body + Framed(Events(items[i..]))
    {
      assert items[i..][1..] == items[i + 1..];
      match items[i] {
        case Failure(payload) =>
          body := body + Frame(ErrorJson(payload));
          assert Framed([ErrorJson(payload)]) == Frame(ErrorJson(payload)) + Framed([]);
          return;
        case Chunk(json) =>
          assert ([json] + Events(items[i + 1..]))[1..] == Events(items[i + 1..]);
          body := body + Frame(json);
      }
    }
    assert Framed([DONE]) == Frame(DONE) + Framed([]);
    body := body + Frame(DONE);
  }

  // ---- reading an event stream

  /** One line that is not blank: a `data` field adds its value to the buffer, anything else is passed over. */
  function Buffered(buffer: string, line: string): string {
    var parts := Split(line, ':');
    var value := Join(parts[1..], ':');
    if parts[0] != "data" then buffer
    else buffer + (if value != "" && value[0] == ' ' then value[1..] else value) + "\n"
  }

  /** A blank line ends an event; one with an empty buffer is none. What is left at the end is dropped. */
  function ReadLines(lines: seq<string>, buffer: string): seq<string> {
    if lines == [] then []
    else if lines[0] != "" then ReadLines(lines[1..], Buffered(buffer, lines[0]))
    else (if buffer == "" then [] else [buffer[..|buffer| - 1]]) + ReadLines(lines[1..], "")
  }

  /** Only lines that have ended count. */
  function EndedLines(body: string): seq<string> {
    var lines := Split(body, '\n');
    lines[..|lines| - 1]
  }

  function Read(body: string): seq<string> {
    ReadLines(EndedLines(body), "")
  }

  ghost predicate OneLine(text: string) {
    '\n' !in text && '\r' !in text
  }

  lemma DataLine(data: string)
    ensures Buffered("", "data: " + data) == data + "\n"
  {
    var line := "data: " + data;
    assert line == "data" + [':'] + (" " + data);
    SplitConcat("data", ':', " " + data);
    SplitWhole("data", ':');
    var rest := Split(" " + data, ':');
    assert (["data"] + rest)[1..] == rest;
    JoinSplit(" " + data, ':');
    assert (" " + data)[1..] == data;
  }

  lemma LinesOfFrame(data: string, rest: string)
    requires OneLine(data)
    ensures EndedLines(Frame(data) + rest) == ["data: " + data, ""] + EndedLines(rest)
  {
    var line := "data: " + data;
    assert Frame(data) + rest == line + ['\n'] + ([] + ['\n'] + rest);
    SplitConcat(line, '\n', [] + ['\n'] + rest);
    SplitConcat([], '\n', rest);
    SplitWhole(line, '\n');
    var tail := Split(rest, '\n');
    assert Split(Frame(data) + rest, '\n') == [line] + ([[]] + tail);
    assert ([line] + ([[]] + tail))[..|tail| + 1] == [line, ""] + tail[..|tail| - 1];
  }

  lemma FrameReads(data: string, rest: string)
    requires OneLine(data)
    ensures Read(Frame(data) + rest) == [data] + Read(rest)
  {
    LinesOfFrame(data, rest);
    DataLine(data);
    var ended := EndedLines(rest);
    var lines := ["data: " + data, ""] + ended;
    assert lines[1..] == [""] + ended && ([""] + ended)[1..] == ended;
    var buffer := data + "\n";
    assert buffer[..|data|] == data;
    assert ReadLines([""] + ended, buffer) == [data] + ReadLines(ended, "");
    assert lines[0] == "data: " + data && lines[0] != "";
  }

  /** Short of its last character a frame is no event yet. */
  lemma CutFrameReads(data: string, n: nat)
    requires OneLine(data) && n < |Frame(data)|
    ensures Read(Frame(data)[..n]) == []
  {
    var line := "data: " + data;
    var cut := Frame(data)[..n];
    if n <= |line| {
      assert cut == line[..n];
      SplitWhole(cut, '\n');
    } else {
      assert cut == line + ['\n'] + [];
      SplitConcat(line, '\n', []);
      SplitWhole(line, '\n');
      assert Split(cut, '\n') == [line, []];
      assert EndedLines(cut) == [line];
      ghost var lines: seq<string> := [line];
      assert lines[1..] == [] && lines[0] != "";
      assert ReadLines(lines, "") == ReadLines(lines[1..], Buffered("", line));
    }
  }

  /** Cut anywhere at all, the stream reads as some first part of its events; whole, as all of them. */
  lemma {:induction false} CutReadsAsPrefix(datas: seq<string>, n: nat)
    requires forall d :: d in datas ==> OneLine(d)
    requires n <= |Framed(datas)|
    ensures Read(Framed(datas)[..n]) <= datas
    ensures n == |Framed(datas)| ==> Read(Framed(datas)[..n]) == datas
  {
    if datas == [] {
      assert Framed(datas)[..n] == "";
    } else {
      var head, rest := Frame(datas[0]), Framed(datas[1..]);
      if n < |head| {
        assert (head + rest)[..n] == head[..n];
        CutFrameReads(datas[0], n);
      } else {
        assert (head + rest)[..n] == head + rest[..n - |head|];
        CutReadsAsPrefix(datas[1..], n - |head|);
        FrameReads(datas[0], rest[..n - |head|]);
        assert datas == [datas[0]] + datas[1..];
      }
    }
  }

  // ---- the terminal frame

  function Jsons(items: seq<Item>): seq<string> {
    Pick(items, JsonOf())
  }

  function JsonOf(): Item -> Option<string> {
    (item: Item) => if item.Chunk? then Some(item.json) else None
  }

  /** JSON text of an object, on one line. */
  ghost predicate ObjectText(text: string) {
    OneLine(text) && text != "" && text[0] == '{'
  }

  ghost predicate ItemsAreJson(items: seq<Item>) {
    forall i :: 0 <= i < |items| ==>
      match items[i] case Chunk(json) => ObjectText(json) case Failure(payload) => OneLine(payload)
  }

  lemma ErrorIsOneLine(payload: string)
    requires OneLine(payload)
    ensures OneLine(ErrorJson(payload)) && ErrorJson(payload) != DONE
  {
    var front := "{\"error\": ";
    assert ErrorJson(payload) == front + payload + "}";
    assert OneLine(front);
    assert ErrorJson(payload)[0] == '{';
  }

  lemma {:induction false} EventsAreJson(items: seq<Item>)
    requires ItemsAreJson(items)
    ensures forall e :: e in Events(items) ==> OneLine(e)
  {
    if items != [] && items[0].Chunk? {
      EventsAreJson(items[1..]);
    } else if items != [] {
      ErrorIsOneLine(items[0].payload);
    }
  }

  /**
   A stream without a failure reads as its chunks and `[DONE]`; one with a
   failure as the chunks before the first and its error, with no `[DONE]`
   anywhere and nothing after.
   */
  lemma {:induction false} EndsOneWay(items: seq<Item>, k: nat)
    requires ItemsAreJson(items) && k <= |items|
    requires (forall i :: 0 <= i < k ==> items[i].Chunk?) && (k < |items| ==> items[k].Failure?)
    ensures Read(Framed(Events(items))) ==
            Jsons(items[..k]) + [if k < |items| then "{\"error\": " + items[k].payload + "}" else "[DONE]"]
    ensures "[DONE]" in Read(Framed(Events(items))) <==> forall item :: item in items ==> item.Chunk?
  {
    EventsAreJson(items);
    var body := Framed(Events(items));
    CutReadsAsPrefix(Events(items), |body|);
    assert body[..|body|] == body;
    EventsUpTo(items, k);
    DoneIsNoJson(items, k);
  }

  lemma {:induction false} EventsUpTo(items: seq<Item>, k: nat)
    requires k <= |items|
    requires (forall i :: 0 <= i < k ==> items[i].Chunk?) && (k < |items| ==> items[k].Failure?)
    ensures Events(items) == Jsons(items[..k]) + [if k < |items| then ErrorJson(items[k].payload) else DONE]
  {
    if k > 0 {
      EventsUpTo(items[1..], k - 1);
      assert items[..k][1..] == items[1..][..k - 1];
    }
  }

  lemma {:induction false} DoneIsNoJson(items: seq<Item>, k: nat)
    requires ItemsAreJson(items) && k <= |items|
    requires (forall i :: 0 <= i < k ==> items[i].Chunk?) && (k < |items| ==> items[k].Failure?)
    ensures DONE in Events(items) <==> k == |items|
    ensures k == |items| <==> forall item :: item in items ==> item.Chunk?
  {
    if k > 0 {
      DoneIsNoJson(items[1..], k - 1);
      assert items == [items[0]] + items[1..];
      assert items[0].Chunk? && ObjectText(items[0].json) && items[0].json != DONE;
    } else if items != [] {
      assert items[0] in items;
      ErrorIsOneLine(items[0].payload);
    }
  }

  // ---- behind a KYOK stream

  /** What the endpoint has written for a stream by now, `wording` being how a fault is put as JSON. */
  function WrittenFor(s: KyokLink.Stream, wording: KyokLink.Fault -> string): string {
    match s.ending
    case Completed => Framed(Events(Chunks(s.yielded)))
    case Failed(fault) => Framed(Events(Chunks(s.yielded) + [Failure(wording(fault))]))
    case _ => Framed(Jsons(Chunks(s.yielded)))
  }

  function Chunks(yielded: seq<KyokLink.ChunkData>): (items: seq<Item>)
    ensures |items| == |yielded| && forall i :: 0 <= i < |items| ==> items[i] == Chunk(yielded[i].json)
  {
    seq(|yielded|, i requires 0 <= i < |yielded| => Chunk(yielded[i].json))
  }

  /** What the client reads of a whole response: the chunks' texts, and behind them what the stream's end calls for. */
  lemma {:induction false} StreamReadsBack(s: KyokLink.Stream, wording: KyokLink.Fault -> string)
    requires forall chunk :: chunk in s.yielded ==> ObjectText(chunk.json)
    requires forall fault :: OneLine(wording(fault))
    ensures var texts := seq(|s.yielded|, i requires 0 <= i < |s.yielded| => s.yielded[i].json); var read := Read(WrittenFor(s, wording));
      && (s.ending == KyokLink.Completed ==> read == texts + ["[DONE]"])
      && (forall fault :: s.ending == KyokLink.Failed(fault) ==> read == texts + ["{\"error\": " + wording(fault) + "}"])
      && (s.ending == KyokLink.Open || s.ending == KyokLink.Abandoned ==> read == texts)
  {
    var items, body := Chunks(s.yielded), WrittenFor(s, wording);
    assert ItemsAreJson(items);
    TextsOfChunks(s.yielded);
    assert body[..|body|] == body;
    match s.ending {
      case Completed =>
        EndsOneWay(items, |items|);
        assert items[..|items|] == items;
      case Failed(fault) =>
        var all := items + [Failure(wording(fault))];
        EndsOneWay(all, |items|);
        assert all[..|items|] == items;
      case _ =>
        JsonsAreChunks(items);
        CutReadsAsPrefix(Jsons(items), |body|);
    }
  }

  lemma {:induction false} TextsOfChunks(yielded: seq<KyokLink.ChunkData>)
    ensures Jsons(Chunks(yielded)) == seq(|yielded|, i requires 0 <= i < |yielded| => yielded[i].json)
  {
    if yielded != [] {
      assert Chunks(yielded)[1..] == Chunks(yielded[1..]);
      TextsOfChunks(yielded[1..]);
    }
  }

  lemma {:induction false} JsonsAreChunks(items: seq<Item>)
    requires ItemsAreJson(items)
    ensures forall e :: e in Jsons(items) ==> ObjectText(e)
  {
    if items != [] {
      JsonsAreChunks(items[1..]);
    }
  }

  /**
   End to end, over any run of the gateway and however the response is cut
   short: a client that reads `[DONE]` for a completion was sent it because the
   LLM provider's own connection had sent a `done` for that request, after the
   request was written to it and before the connection ended.
   */
  lemma {:induction false} DoneReachesTheClientOnlyForADone(
      steps: seq<KyokGateway.Step>, c: KyokGateway.Conn, id: KyokLink.RequestId,
      wording: KyokLink.Fault -> string, n: nat)
    requires id in KyokGateway.LinkOf(KyokGateway.After(steps), c).streams
    requires var s := KyokGateway.LinkOf(KyokGateway.After(steps), c).streams[id];
      && (forall chunk :: chunk in s.yielded ==> ObjectText(chunk.json))
      && (forall fault :: OneLine(wording(fault)))
      && n <= |WrittenFor(s, wording)|
      && DONE in Read(WrittenFor(s, wording)[..n])
    ensures exists i: nat, j: nat :: KyokGateway.HeardFrom(steps, c, id, KyokLink.Done, i, j)
  {
    var s := KyokGateway.LinkOf(KyokGateway.After(steps), c).streams[id];
    DoneMeansCompleted(s, wording, n);
    KyokGateway.CompletionNeedsItsOwnDone(steps, c, id);
  }

  lemma DoneMeansCompleted(s: KyokLink.Stream, wording: KyokLink.Fault -> string, n: nat)
    requires forall chunk :: chunk in s.yielded ==> ObjectText(chunk.json)
    requires forall fault :: OneLine(wording(fault))
    requires n <= |WrittenFor(s, wording)|
    ensures DONE in Read(WrittenFor(s, wording)[..n]) ==> s.ending == KyokLink.Completed
    ensures s.ending == KyokLink.Completed && n == |WrittenFor(s, wording)| ==> DONE in Read(WrittenFor(s, wording)[..n])
  {
    var items := Chunks(s.yielded);
    assert ItemsAreJson(items);
    match s.ending {
      case Completed =>
        EventsAreJson(items);
        CutReadsAsPrefix(Events(items), n);
        DoneIsNoJson(items, |items|);
      case Failed(fault) =>
        var all := items + [Failure(wording(fault))];
        EventsAreJson(all);
        CutReadsAsPrefix(Events(all), n);
        DoneIsNoJson(all, |items|);
      case _ =>
        JsonsAreChunks(items);
        CutReadsAsPrefix(Jsons(items), n);
        var read := Read(Framed(Jsons(items))[..n]);
        assert forall i :: 0 <= i < |read| ==> read[i] == Jsons(items)[i] && Jsons(items)[i] in Jsons(items);
        assert DONE[0] != '{';
    }
  }
}
