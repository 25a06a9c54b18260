/**
 The provider's outbound queue outlives its sockets. Frames join at the back
 whenever they like; each connection has one writer that takes a frame in hand
 and sends it.
 */
module ProviderOutbox {
  import opened Seqs

  type Frame = string

  /** What became of a frame a writer took: it went out on socket `conn`, or was lost with it. */
  datatype Fate = Written(conn: nat, frame: Frame) | Lost(conn: nat, frame: Frame)

  /**
   `conn` counts the connections opened so far. `writing` is whether the current
   one has a live writer, `hand` the frame that writer holds.
   */
  datatype Outbox = Outbox(
    queue: seq<Frame>,
    hand: Option<Frame>,
    conn: nat,
    open: bool,
    writing: bool,
    fates: seq<Fate>,
    enqueued: seq<Frame>
  )

  datatype Step =
    | Enqueue(frame: Frame)
    | Connect
    | Take
    | Sent
    | SendRaises
    /** The connection ends. A send cut off in the middle may or may not have reached the wire. */
    | Drop(reached: bool)

  const NEW := Outbox([], None, 0, false, false, [], [])

  function Next(o: Outbox, step: Step): Outbox {
    match step
    case Enqueue(f) => o.(queue := o.queue + [f], enqueued := o.enqueued + [f])
    case Connect => if o.open then o else o.(conn := o.conn + 1, open := true, writing := true)
    case Take =>
      if !o.writing || o.hand.Some? || o.queue == [] then o
      else o.(hand := Some(o.queue[0]), queue := o.queue[1..])
    case Sent =>
      if !o.writing || o.hand == None then o
      else o.(hand := None, fates := o.fates + [Written(o.conn, o.hand.value)])
    case SendRaises =>
      if !o.writing || o.hand == None then o
      else o.(hand := None, writing := false, fates := o.fates + [Lost(o.conn, o.hand.value)])
    case Drop(reached) =>
      if !o.open then o
      else
        o.(hand := None, open := false, writing := false,
           fates := o.fates + (match o.hand case None => [] case Some(f) => [if reached then Written(o.conn, f) else Lost(o.conn, f)]))
  }

  function After(steps: seq<Step>): Outbox {
    if steps == [] then NEW else Next(After(steps[..|steps| - 1]), steps[|steps| - 1])
  }

  function Frames(fates: seq<Fate>): (frames: seq<Frame>)
    ensures |frames| == |fates|
  {
    seq(|fates|, i requires 0 <= i < |fates| => fates[i].frame)
  }

  function InHand(o: Outbox): seq<Frame> {
    match o.hand case None => [] case Some(f) => [f]
  }

  /** Sockets succeed each other, and a lost frame is the last its socket ever saw. */
  ghost predicate Chronicle(fates: seq<Fate>, conn: nat, writing: bool) {
    && (forall i :: 0 <= i < |fates| ==> 1 <= fates[i].conn <= conn)
    && (forall i, j :: 0 <= i < j < |fates| ==> fates[i].conn <= fates[j].conn)
    && (forall i, j :: 0 <= i < j < |fates| && fates[i].Lost? ==> fates[i].conn < fates[j].conn)
    && (forall i :: 0 <= i < |fates| && fates[i].Lost? && writing ==> fates[i].conn < conn)
  }

  predicate FlagsOk(o: Outbox) {
    && (o.writing ==> o.open)
    && (o.open ==> o.conn >= 1)
    && (o.hand.Some? ==> o.writing)
  }

  ghost predicate OutboxOk(o: Outbox) {
    && Frames(o.fates) + InHand(o) + o.queue == o.enqueued
    && FlagsOk(o)
    && Chronicle(o.fates, o.conn, o.writing)
  }

  lemma NextConserves(o: Outbox, step: Step)
    requires Frames(o.fates) + InHand(o) + o.queue == o.enqueued
    ensures var o' := Next(o, step); Frames(o'.fates) + InHand(o') + o'.queue == o'.enqueued
  {
    var o' := Next(o, step);
    match step {
      case Enqueue(f) => assert Frames(o.fates) + InHand(o) + (o.queue + [f]) == o.enqueued + [f];
      case Connect =>
      case Take => if o'.hand != o.hand { assert o.queue == [o.queue[0]] + o.queue[1..]; }
      case _ => if |o'.fates| > |o.fates| { assert Frames(o'.fates) == Frames(o.fates) + InHand(o); }
    }
  }

  lemma ChronicleGrows(fates: seq<Fate>, conn: nat, fate: Fate)
    requires conn >= 1 && Chronicle(fates, conn, true) && fate.conn == conn
    ensures Chronicle(fates + [fate], conn, fate.Written?)
  {
  }

  lemma NextFlags(o: Outbox, step: Step)
    requires FlagsOk(o)
    ensures FlagsOk(Next(o, step))
    ensures Next(o, step).conn >= o.conn && (Next(o, step).writing && !o.writing ==> Next(o, step).conn > o.conn)
  {
  }

  /** A step decides the fate of at most the frame in hand, and a loss ends the writer. */
  lemma FatesGrow(o: Outbox, step: Step)
    requires OutboxOk(o)
    ensures var o' := Next(o, step);
      if |o'.fates| == |o.fates| then o'.fates == o.fates
      else
        && |o'.fates| == |o.fates| + 1 && o'.fates[..|o.fates|] == o.fates
        && o.writing && o'.conn == o.conn == o'.fates[|o.fates|].conn
        && (o'.writing ==> o'.fates[|o.fates|].Written?)
  {
  }

  lemma NextOk(o: Outbox, step: Step)
    requires OutboxOk(o)
    ensures OutboxOk(Next(o, step))
  {
    NextConserves(o, step);
    NextFlags(o, step);
    FatesGrow(o, step);
    var o' := Next(o, step);
    if |o'.fates| > |o.fates| {
      var fate := o'.fates[|o.fates|];
      ChronicleGrows(o.fates, o.conn, fate);
      assert o'.fates == o.fates + [fate];
    }
  }

  lemma {:induction false} AfterOk(steps: seq<Step>)
    ensures OutboxOk(After(steps))
  {
    if steps != [] {
      AfterOk(steps[..|steps| - 1]);
      NextOk(After(steps[..|steps| - 1]), steps[|steps| - 1]);
    }
  }

  function WrittenOnly(): Fate -> Option<Frame> {
    (f: Fate) => if f.Written? then Some(f.frame) else None
  }

  function WrittenOn(conn: nat): Fate -> Option<Frame> {
    (f: Fate) => if f.Written? && f.conn == conn then Some(f.frame) else None
  }

  function LostOnly(): Fate -> Option<Frame> {
    (f: Fate) => if f.Lost? then Some(f.frame) else None
  }

  function EnqueuedBy(): Step -> Option<Frame> {
    (s: Step) => if s.Enqueue? then Some(s.frame) else None
  }

  function LostOn(conn: nat): Fate -> Option<Frame> {
    (f: Fate) => if f.Lost? && f.conn == conn then Some(f.frame) else None
  }

  /** The frames socket after socket carried, one socket after the other. */
  function Wires(fates: seq<Fate>, upTo: nat): seq<Frame> {
    if upTo == 0 then [] else Wires(fates, upTo - 1) + Pick(fates, WrittenOn(upTo))
  }

  /**
   Over any run: what was enqueued is, in order, what left the queue, then what
   the writer holds, then what waits. What left it was written, socket after
   socket in the same order, or lost; and each connection that ended lost at
   most one frame, after everything it wrote.
   */
  lemma {:induction false} QueueSurvivesSockets(steps: seq<Step>)
    ensures var o := After(steps);
      && Pick(steps, EnqueuedBy()) == Frames(o.fates) + InHand(o) + o.queue
      && Pick(o.fates, WrittenOnly()) == Wires(o.fates, o.conn)
      && |Pick(o.fates, LostOnly())| + |Pick(o.fates, WrittenOnly())| == |o.fates|
      && |Pick(o.fates, LostOnly())| <= (if o.writing then o.conn - 1 else o.conn)
      && (forall c: nat :: |Pick(o.fates, LostOn(c))| <= 1)
      && (forall i, j :: 0 <= i < j < |o.fates| && o.fates[i].Lost? ==> o.fates[i].conn != o.fates[j].conn)
  {
    AfterOk(steps);
    EnqueuedHistory(steps);
    var o := After(steps);
    ChronicleTold(o.fates, o.conn, o.writing);
    forall c: nat ensures |Pick(o.fates, LostOn(c))| <= 1 {
      OneLostOn(o.fates, c);
    }
  }

  /** A connection loses at most the one frame, as nothing of it comes after that. */
  lemma {:induction false} OneLostOn(fates: seq<Fate>, c: nat)
    requires forall i, j :: 0 <= i < j < |fates| && fates[i].Lost? ==> fates[i].conn < fates[j].conn
    ensures |Pick(fates, LostOn(c))| <= 1
  {
    if fates != [] {
      OneLostOn(fates[1..], c);
      if fates[0].Lost? && fates[0].conn == c {
        forall f | f in fates[1..] ensures LostOn(c)(f) == None {
          var i :| 0 <= i < |fates[1..]| && fates[1..][i] == f;
          assert fates[i + 1] == f;
        }
        PickNothing(fates[1..], LostOn(c));
      }
    }
  }

  lemma {:induction false} ChronicleTold(fates: seq<Fate>, conn: nat, writing: bool)
    requires Chronicle(fates, conn, writing) && (writing ==> conn >= 1)
    ensures Pick(fates, WrittenOnly()) == Wires(fates, conn)
    ensures |Pick(fates, LostOnly())| + |Pick(fates, WrittenOnly())| == |fates|
    ensures |Pick(fates, LostOnly())| <= if writing then conn - 1 else conn
  {
    WiresInOrder(fates, conn);
    Tally(fates);
    LossesBounded(fates, if writing then conn - 1 else conn);
  }

  lemma {:induction false} EnqueuedHistory(steps: seq<Step>)
    ensures Pick(steps, EnqueuedBy()) == After(steps).enqueued
  {
    if steps != [] {
      var prefix, last := steps[..|steps| - 1], steps[|steps| - 1];
      EnqueuedHistory(prefix);
      PickSnoc(prefix, last, EnqueuedBy());
      assert prefix + [last] == steps;
    }
  }

  lemma {:induction false} Tally(fates: seq<Fate>)
    ensures |Pick(fates, LostOnly())| + |Pick(fates, WrittenOnly())| == |fates|
  {
    if fates != [] {
      Tally(fates[1..]);
    }
  }

  ghost predicate InOrder(fates: seq<Fate>) {
    forall i, j :: 0 <= i < j < |fates| ==> fates[i].conn <= fates[j].conn
  }

  lemma {:induction false} WiresInOrder(fates: seq<Fate>, upTo: nat)
    requires InOrder(fates) && forall i :: 0 <= i < |fates| ==> 1 <= fates[i].conn <= upTo
    ensures Pick(fates, WrittenOnly()) == Wires(fates, upTo)
    decreases |fates|
  {
    if fates == [] {
      NoWires([], upTo);
    } else {
      var front, last := fates[..|fates| - 1], fates[|fates| - 1];
      assert front + [last] == fates;
      WiresInOrder(front, upTo);
      PickSnoc(front, last, WrittenOnly());
      WiresSnoc(front, last, upTo);
    }
  }

  lemma {:induction false} NoWires(fates: seq<Fate>, upTo: nat)
    requires fates == []
    ensures Wires(fates, upTo) == []
  {
    if upTo > 0 { NoWires(fates, upTo - 1); }
  }

  /** What the wires up to `upTo` carry of one fate. */
  function Carried(f: Fate, upTo: nat): seq<Frame> {
    if f.Written? && f.conn <= upTo then [f.frame] else []
  }

  /** A fate later than all others lands at the very end of the wires. */
  lemma {:induction false} WiresSnoc(fates: seq<Fate>, last: Fate, upTo: nat)
    requires forall i :: 0 <= i < |fates| ==> fates[i].conn <= last.conn
    requires 1 <= last.conn
    ensures Wires(fates + [last], upTo) == Wires(fates, upTo) + Carried(last, upTo)
  {
    if upTo > 0 {
      WiresSnoc(fates, last, upTo - 1);
      PickSnoc(fates, last, WrittenOn(upTo));
      if last.conn < upTo {
        NothingWrittenLater(fates, last.conn, upTo);
      }
      Regroup(Wires(fates, upTo - 1), Carried(last, upTo - 1), Pick(fates, WrittenOn(upTo)), last, upTo);
    }
  }

  lemma Regroup(before: seq<Frame>, carried: seq<Frame>, here: seq<Frame>, last: Fate, upTo: nat)
    requires upTo > 0 && carried == Carried(last, upTo - 1) && (last.conn < upTo ==> here == [])
    ensures (before + carried) + (here + (match WrittenOn(upTo)(last) case None => [] case Some(f) => [f]))
            == (before + here) + Carried(last, upTo)
  {
    if last.conn == upTo && last.Written? {
      assert before + [] == before && before + (here + [last.frame]) == before + here + [last.frame];
    } else if last.conn < upTo {
      assert here + [] == [] && before + carried + [] == before + carried && before + [] == before;
    } else {
      assert here + [] == here && before + [] == before && before + here + [] == before + here;
    }
  }

  lemma {:induction false} NothingWrittenLater(fates: seq<Fate>, conn: nat, upTo: nat)
    requires conn < upTo && forall i :: 0 <= i < |fates| ==> fates[i].conn <= conn
    ensures Pick(fates, WrittenOn(upTo)) == []
  {
    forall f | f in fates ensures WrittenOn(upTo)(f) == None {
      var i :| 0 <= i < |fates| && fates[i] == f;
    }
    PickNothing(fates, WrittenOn(upTo));
  }

  lemma {:induction false} LossesBounded(fates: seq<Fate>, bound: nat)
    requires forall i :: 0 <= i < |fates| ==> 1 <= fates[i].conn
    requires forall i :: 0 <= i < |fates| && fates[i].Lost? ==> fates[i].conn <= bound
    requires forall i, j :: 0 <= i < j < |fates| && fates[i].Lost? ==> fates[i].conn < fates[j].conn
    ensures |Pick(fates, LostOnly())| <= bound
    decreases |fates|
  {
    if fates != [] {
      var front, last := fates[..|fates| - 1], fates[|fates| - 1];
      assert front + [last] == fates;
      PickSnoc(front, last, LostOnly());
      LossesBounded(front, if last.Lost? then last.conn - 1 else bound);
    }
  }

  // ---- what gets through

  lemma {:induction false} AfterSnoc(steps: seq<Step>, step: Step)
    ensures After(steps + [step]) == Next(After(steps), step)
  {
    assert (steps + [step])[..|steps|] == steps;
  }

  /** A live writer with this in hand and that in the queue, on this connection, after these fates. */
  predicate WritingOn(o: Outbox, conn: nat, hand: Option<Frame>, queue: seq<Frame>, fates: seq<Fate>) {
    o.open && o.writing && o.conn == conn && o.hand == hand && o.queue == queue && o.fates == fates
  }

  /** A new connection starts a writer of its own with an empty hand, over the queue as it was left. */
  lemma {:induction false} ConnectStartsAWriter(steps: seq<Step>)
    requires !After(steps).open
    ensures var o := After(steps); WritingOn(After(steps + [Connect]), o.conn + 1, None, o.queue, o.fates)
  {
    AfterOk(steps);
    AfterSnoc(steps, Connect);
  }

  /** What becomes of a frame in hand: sent, it went out; raising, it is lost with the writer; cut off, it went either way. */
  lemma {:induction false} HandIsDecided(steps: seq<Step>, conn: nat, f: Frame, queue: seq<Frame>, fates: seq<Fate>)
    requires WritingOn(After(steps), conn, Some(f), queue, fates)
    ensures WritingOn(After(steps + [Sent]), conn, None, queue, fates + [Written(conn, f)])
    ensures var o := After(steps + [SendRaises]);
      o.open && !o.writing && o.hand == None && o.queue == queue && o.fates == fates + [Lost(conn, f)]
    ensures var o := After(steps + [Drop(true)]); !o.open && o.hand == None && o.queue == queue && o.fates == fates + [Written(conn, f)]
    ensures var o := After(steps + [Drop(false)]); !o.open && o.hand == None && o.queue == queue && o.fates == fates + [Lost(conn, f)]
  {
    AfterSnoc(steps, Sent);
    AfterSnoc(steps, SendRaises);
    AfterSnoc(steps, Drop(true));
    AfterSnoc(steps, Drop(false));
  }

  /** A connection that ends with nothing in hand loses nothing. */
  lemma {:induction false} IdleDropLosesNothing(steps: seq<Step>, reached: bool)
    requires After(steps).open && After(steps).hand == None
    ensures var o, o' := After(steps), After(steps + [Drop(reached)]);
      !o'.open && !o'.writing && o'.hand == None && o'.queue == o.queue && o'.fates == o.fates
  {
    AfterSnoc(steps, Drop(reached));
  }

  /** Take and send, as often as there are frames. */
  function Turns(n: nat): seq<Step>
    decreases n
  {
    if n == 0 then [] else [Take, Sent] + Turns(n - 1)
  }

  function AllWritten(conn: nat, frames: seq<Frame>): (fates: seq<Fate>)
    ensures |fates| == |frames|
  {
    seq(|frames|, i requires 0 <= i < |frames| => Written(conn, frames[i]))
  }

  lemma {:induction false} OneTurn(steps: seq<Step>, conn: nat, queue: seq<Frame>, fates: seq<Fate>)
    requires WritingOn(After(steps), conn, None, queue, fates) && queue != []
    ensures WritingOn(After(steps + [Take] + [Sent]), conn, None, queue[1..], fates + [Written(conn, queue[0])])
  {
    AfterSnoc(steps, Take);
    HandIsDecided(steps + [Take], conn, queue[0], queue[1..], fates);
  }

  lemma {:induction false} WriterEmptiesTheQueue(steps: seq<Step>, conn: nat, queue: seq<Frame>, fates: seq<Fate>)
    requires WritingOn(After(steps), conn, None, queue, fates)
    ensures WritingOn(After(steps + Turns(|queue|)), conn, None, [], fates + AllWritten(conn, queue))
    decreases |queue|
  {
    if queue == [] {
      assert steps + Turns(0) == steps && fates + AllWritten(conn, queue) == fates;
    } else {
      OneTurn(steps, conn, queue, fates);
      WriterEmptiesTheQueue(steps + [Take] + [Sent], conn, queue[1..], fates + [Written(conn, queue[0])]);
      assert steps + Turns(|queue|) == steps + [Take] + [Sent] + Turns(|queue[1..]|);
      assert fates + AllWritten(conn, queue) == fates + [Written(conn, queue[0])] + AllWritten(conn, queue[1..]);
    }
  }

  lemma {:induction false} AllWrittenReads(conn: nat, frames: seq<Frame>)
    ensures Pick(AllWritten(conn, frames), WrittenOn(conn)) == frames
  {
    if frames != [] {
      assert AllWritten(conn, frames)[1..] == AllWritten(conn, frames[1..]);
      AllWrittenReads(conn, frames[1..]);
    }
  }

  /**
   In any run: what waited while no connection was open is carried, whole and in
   order, by the next socket, if that stays open for as many turns of its writer.
   */
  lemma {:induction false} NextSocketCarriesTheQueue(steps: seq<Step>)
    requires !After(steps).open
    ensures var o := After(steps); var t := After(steps + [Connect] + Turns(|o.queue|));
      t.queue == [] && t.hand == None && t.conn == o.conn + 1 && Pick(t.fates, WrittenOn(t.conn)) == o.queue
  {
    var o := After(steps);
    ConnectStartsAWriter(steps);
    WriterEmptiesTheQueue(steps + [Connect], o.conn + 1, o.queue, o.fates);
    AfterOk(steps);
    NothingWrittenLater(o.fates, o.conn, o.conn + 1);
    PickConcat(o.fates, AllWritten(o.conn + 1, o.queue), WrittenOn(o.conn + 1));
    AllWrittenReads(o.conn + 1, o.queue);
  }
}
