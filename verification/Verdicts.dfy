/** The answer to an offered run: given by the agent's runtime, carried by an `ack` frame, read by the gateway. */
module Verdicts {
  import opened Seqs

  /** A field of a JSON frame. */
  datatype Json = Absent | Null | Flag(on: bool) | Text(text: string) | Other(truthy: bool)

  /** Yes, full right now, or never. */
  datatype Answer = Accepted | Declined | Refused(reason: string)

  datatype Invalid = Invalid(complaint: string)

  /** A `run` frame. `envelope` is what the contract's model makes of it. */
  datatype RunFrame = RunFrame(runId: string, agentName: string, problem: Option<Invalid>)

  /** What the provider queues. Everything that is not an ack is of no account here. */
  datatype OutFrame = Ack(runId: Json, accepted: Json, reason: Json) | Unrelated(frame: string)

  const NOT_VALID := "frame does not validate as a DeliveredRun: "

  // ---- the provider's half

  function Bare(runId: string, accepted: bool): OutFrame {
    Ack(Text(runId), Flag(accepted), Absent)
  }

  function Reasoned(runId: string, reason: string): OutFrame {
    Ack(Text(runId), Flag(false), Text(reason))
  }

  /** What the provider has to say to an offer, the runtime being asked only about a valid run of an agent it hosts. */
  function Said(agents: set<string>, frame: RunFrame, runtime: Answer): Answer {
    if frame.agentName !in agents then Declined
    else match frame.problem
      case Some(Invalid(complaint)) => Refused(NOT_VALID + complaint)
      case None => runtime
  }

  class OfferDesk {
    const agents: set<string>
    var outbound: seq<OutFrame>

    constructor (agents: set<string>)
      ensures this.agents == agents && outbound == []
    {
      this.agents, outbound := agents, [];
    }

    /**
     Answers one `run` frame. `runtime` is the runtime's verdict and `meanwhile`
     what other tasks queued while it was being awaited.
     */
    method Offer(frame: RunFrame, runtime: Answer, meanwhile: seq<OutFrame>)
      modifies this`outbound
      ensures outbound == old(outbound) + (if frame.agentName in agents && frame.problem == None then meanwhile else [])
        + [AckFor(agents, frame, runtime)]
    {
      if frame.agentName !in agents {
        outbound := outbound + [Bare(frame.runId, false)];
        return;
      }
      match frame.problem {
        case Some(invalid) =>
          outbound := outbound + [Reasoned(frame.runId, NOT_VALID + invalid.complaint)];
          return;
        case None =>
      }
      outbound := outbound + meanwhile;
      match runtime {
        case Refused(reason) =>
          outbound := outbound + [Reasoned(frame.runId, reason)];
          return;
        case _ =>
      }
      outbound := outbound + [Bare(frame.runId, runtime.Accepted?)];
    }
  }

  // ---- the gateway's half

  /** Whether a field counts as true; `missing` is what it counts as when it is not there. */
  predicate Truthy(field: Json, missing: bool) {
    match field
    case Absent => missing
    case Null => false
    case Flag(on) => on
    case Text(text) => text != ""
    case Other(truthy) => truthy
  }

  /** The verdict's name and, for any verdict, the reason that came with it. */
  datatype Verdict = Verdict(id: Json, verdict: string, reason: Option<string>)

  function ParseVerdict(id: Json, accepted: Json, reason: Json): Verdict {
    var given := if reason.Text? && reason.text != "" then Some(reason.text) else None;
    Verdict(id, if Truthy(accepted, true) then "accepted" else if given.Some? then "refused" else "declined", given)
  }

  /** What is handed to the broker. */
  function AnswerOf(v: Verdict): Answer {
    if v.verdict == "refused" then
      Refused(match v.reason case Some(reason) => if reason != "" then reason else "refused" case None => "refused")
    else if v.verdict == "accepted" then Accepted
    else Declined
  }

  function ReadsAs(frame: OutFrame): Option<(Json, Answer)> {
    match frame
    case Ack(id, accepted, reason) => Some((id, AnswerOf(ParseVerdict(id, accepted, reason))))
    case Unrelated(_) => None
  }

  /** How an answer sounds at the other end. */
  function Heard(answer: Answer): Answer {
    if answer == Refused("") then Declined else answer
  }

  /** What `accepted` may hold for a yes: nothing at all, or anything that counts as true. */
  ghost predicate SaysYes(accepted: Json) {
    || accepted == Absent || accepted == Flag(true) || accepted == Other(true)
    || exists text :: accepted == Text(text) && text != ""
  }

  /** The three readings of an ack, whoever wrote it; a stand-in reason is never needed. */
  lemma AckReadsExactly(id: Json, accepted: Json, reason: Json)
    ensures var a := AnswerOf(ParseVerdict(id, accepted, reason));
      && (a == Accepted <==> SaysYes(accepted))
      && (forall r :: a == Refused(r) <==> !SaysYes(accepted) && reason == Text(r) && r != "")
      && (a == Declined <==> !SaysYes(accepted) && (!reason.Text? || reason == Text("")))
  {
  }

  // ---- end to end

  /** What happens at the provider: offers are answered, other frames are queued. */
  datatype Happening = Offered(frame: RunFrame, runtime: Answer) | Queued(other: string)

  function AckFor(agents: set<string>, frame: RunFrame, runtime: Answer): OutFrame {
    match Said(agents, frame, runtime)
    case Accepted => Bare(frame.runId, true)
    case Declined => Bare(frame.runId, false)
    case Refused(reason) => Reasoned(frame.runId, reason)
  }

  function Queue(agents: set<string>, happenings: seq<Happening>): seq<OutFrame> {
    if happenings == [] then []
    else
      [match happenings[0] case Offered(frame, runtime) => AckFor(agents, frame, runtime) case Queued(other) => Unrelated(other)]
      + Queue(agents, happenings[1..])
  }

  function Offers(agents: set<string>): Happening -> Option<(Json, Answer)> {
    (h: Happening) =>
      match h case Offered(frame, runtime) => Some((Text(frame.runId), Said(agents, frame, runtime))) case Queued(_) => None
  }

  function Reader(): OutFrame -> Option<(Json, Answer)> {
    (f: OutFrame) => ReadsAs(f)
  }

  /** No refusal that the provider voices has an empty reason. */
  ghost predicate ReasonsGiven(agents: set<string>, happenings: seq<Happening>) {
    forall h :: h in happenings && h.Offered? ==> Said(agents, h.frame, h.runtime) != Refused("")
  }

  lemma OneAckReads(agents: set<string>, frame: RunFrame, runtime: Answer)
    ensures ReadsAs(AckFor(agents, frame, runtime)) == Some((Text(frame.runId), Heard(Said(agents, frame, runtime))))
  {
  }

  lemma ReasonsHead(agents: set<string>, h: Happening, rest: seq<Happening>)
    ensures ReasonsGiven(agents, [h] + rest) <==>
      (h.Offered? ==> Said(agents, h.frame, h.runtime) != Refused("")) && ReasonsGiven(agents, rest)
  {
    assert h in [h] + rest && forall x :: x in rest ==> x in [h] + rest;
  }

  /**
   The gateway reads exactly one answer per offered run, in the order they were
   answered and under the offer's own run id. They are the answers the provider
   gave if and only if every refusal among them came with a reason.
   */
  lemma {:induction false} VerdictsArriveExactly(agents: set<string>, happenings: seq<Happening>)
    ensures |Pick(Queue(agents, happenings), Reader())| == |Pick(happenings, Offers(agents))|
    ensures forall i :: 0 <= i < |Pick(happenings, Offers(agents))| ==>
      var said, read := Pick(happenings, Offers(agents))[i], Pick(Queue(agents, happenings), Reader())[i];
      read == (said.0, Heard(said.1))
    ensures Pick(Queue(agents, happenings), Reader()) == Pick(happenings, Offers(agents)) <==> ReasonsGiven(agents, happenings)
  {
    if happenings != [] {
      var h, rest := happenings[0], happenings[1..];
      assert happenings == [h] + rest;
      VerdictsArriveExactly(agents, rest);
      var queue := Queue(agents, happenings);
      assert queue[1..] == Queue(agents, rest);
      PickHead(queue, Reader());
      PickHead(happenings, Offers(agents));
      if h.Offered? {
        OneAckReads(agents, h.frame, h.runtime);
        var read, said := Pick(queue, Reader()), Pick(happenings, Offers(agents));
        assert read[1..] == Pick(Queue(agents, rest), Reader()) && said[1..] == Pick(rest, Offers(agents));
        assert read == [read[0]] + read[1..] && said == [said[0]] + said[1..];
        ReasonsHead(agents, h, rest);
      } else {
        assert Pick(queue, Reader()) == Pick(Queue(agents, rest), Reader());
        ReasonsHead(agents, h, rest);
      }
    }
  }

  /**
   What the broker hears of one offer, by what was offered and what the runtime
   says: no of an agent that is not hosted here, never of an envelope that does
   not validate, and else the runtime's own answer.
   */
  lemma OfferIsHeardExactly(agents: set<string>, frame: RunFrame, runtime: Answer)
    ensures frame.agentName !in agents ==> ReadsAs(AckFor(agents, frame, runtime)) == Some((Text(frame.runId), Declined))
    ensures forall complaint :: frame.agentName in agents && frame.problem == Some(Invalid(complaint)) ==>
      ReadsAs(AckFor(agents, frame, runtime)) == Some((Text(frame.runId), Refused("frame does not validate as a DeliveredRun: " + complaint)))
    ensures frame.agentName in agents && frame.problem == None && runtime != Refused("") ==>
      ReadsAs(AckFor(agents, frame, runtime)) == Some((Text(frame.runId), runtime))
    ensures frame.agentName in agents && frame.problem == None && runtime == Refused("") ==>
      ReadsAs(AckFor(agents, frame, runtime)) == Some((Text(frame.runId), Declined))
  {
  }

  /** And the frame itself, as it is queued. */
  lemma OfferIsAckedExactly(agents: set<string>, frame: RunFrame, runtime: Answer)
    ensures frame.agentName !in agents ==> AckFor(agents, frame, runtime) == Ack(Text(frame.runId), Flag(false), Absent)
    ensures frame.agentName in agents && frame.problem == None && !runtime.Refused? ==>
      AckFor(agents, frame, runtime) == Ack(Text(frame.runId), Flag(runtime == Accepted), Absent)
    ensures forall reason :: frame.agentName in agents && frame.problem == None && runtime == Refused(reason) ==>
      AckFor(agents, frame, runtime) == Ack(Text(frame.runId), Flag(false), Text(reason))
    ensures forall complaint :: frame.agentName in agents && frame.problem == Some(Invalid(complaint)) ==>
      AckFor(agents, frame, runtime) == Ack(Text(frame.runId), Flag(false), Text("frame does not validate as a DeliveredRun: " + complaint))
  {
  }

  /** The family that fails: a refusal without a reason is heard as "full right now", and the run is offered again. */
  lemma EmptyRefusalIsReoffered()
    ensures ReadsAs(AckFor({"a"}, RunFrame("r", "a", None), Refused(""))) == Some((Text("r"), Declined))
    ensures Said({"a"}, RunFrame("r", "a", None), Refused("")) == Refused("")
  {
  }
}
