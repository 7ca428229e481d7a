/**
 The downloading client: one leg is a pass of the frame loop over one connection; a download is a
 bounded sequence of legs joined by reconnect and OpenResume. `on_message` is a sink that may refuse;
 time appears only as observations ("the deadline has expired", "the ack timer is due").
 */
module ResumeClient {
  import opened Basics

  datatype Message = Message(topic: nat, time: int, payload: seq<byte>)

  datatype Eos = Unset | Complete | Cancelled | Failed

  datatype Frame =
    | Batch(number: nat, messages: seq<Message>)
    | Progress
    | EndOfStream(reason: Eos, total: nat)
    | StreamError

  datatype Request = Ack(through: nat) | Cancel

  /** What one pass of the loop observes: flags before the wait, the frame if any, flags after it. */
  datatype Tick = Tick(cancel: bool, expired: bool, frame: Option<Frame>, expiredAfter: bool, cancelAfter: bool,
                       ackDue: bool)

  /**
   What the download has received so far, over all legs. `given` is everything passed to `on_message`;
   `refused` tells that the sink refused the last of it.
   */
  datatype Received = Received(lastSeq: nat, given: seq<Message>, refused: bool, messages: nat, bytes: nat,
                               batches: nat)

  datatype Leg = Leg(got: Received, sinceAck: nat, cancelSent: bool, requests: seq<Request>,
                     eos: Eos, eosTotal: nat, over: bool, resumable: bool)

  /** How the sink answers its n-th call, and which batch bodies decode. */
  datatype World = World(sink: nat -> bool, decodes: nat -> bool)

  const ACK_EVERY_BATCHES := 64

  const NOTHING := Received(0, [], false, 0, 0, 0)

  /** A leg begins with what the legs before it have received: its `seed_last_seq` is that cursor. */
  function NewLeg(got: Received): Leg
  {
    Leg(got, 0, false, [], Unset, 0, false, false)
  }

  // ---- One batch ----

  /** How many of `n` messages, offered from call number `from` on, come before the first refusal. */
  function Taken(sink: nat -> bool, from: nat, n: nat): (k: nat)
    ensures k <= n
    decreases n
  {
    if n == 0 || !sink(from) then 0 else 1 + Taken(sink, from + 1, n - 1)
  }

  function PayloadBytes(ms: seq<Message>): nat
  {
    if ms == [] then 0 else PayloadBytes(ms[..|ms| - 1]) + |ms[|ms| - 1].payload|
  }

  /** How many of the messages reach the sink: the accepted ones and the refused one. */
  function Offered(sink: nat -> bool, from: nat, n: nat): (k: nat)
    ensures k <= n
  {
    var t := Taken(sink, from, n);
    if t < n then t + 1 else n
  }

  /** The loop over a decoded batch: offer until one is refused. */
  method OfferBatch(sink: nat -> bool, given: seq<Message>, ms: seq<Message>)
    returns (given': seq<Message>, accepted: nat, bytes: nat, aborted: bool)
    ensures accepted == Taken(sink, |given|, |ms|) && aborted == (accepted < |ms|)
    ensures given' == given + ms[..Offered(sink, |given|, |ms|)]
    ensures bytes == PayloadBytes(ms[..accepted])
  {
    given', accepted, bytes, aborted := given, 0, 0, false;
    assert ms[..0] == [];
    while accepted < |ms|
      invariant 0 <= accepted <= |ms|
      invariant given' == given + ms[..accepted]
      invariant bytes == PayloadBytes(ms[..accepted])
      invariant Taken(sink, |given|, |ms|) == accepted + Taken(sink, |given| + accepted, |ms| - accepted)
    {
      var m := ms[accepted];
      var ok := sink(|given'|);
      assert given' + [m] == given + ms[..accepted + 1];
      given' := given' + [m];
      if !ok {
        aborted := true;
        return;
      }
      assert ms[..accepted + 1][..accepted] == ms[..accepted];
      bytes := bytes + |m.payload|;
      accepted := accepted + 1;
    }
  }

  /** Taking in one batch: the cursor moves even if the sink refuses part of it. */
  function Receive(got: Received, number: nat, ms: seq<Message>, sink: nat -> bool): Received
  {
    var taken := Taken(sink, |got.given|, |ms|);
    Received(number, got.given + ms[..Offered(sink, |got.given|, |ms|)], taken < |ms|,
             got.messages + taken, got.bytes + PayloadBytes(ms[..taken]), got.batches + 1)
  }

  // ---- One pass of the loop ----

  function Ended(leg: Leg, eos: Eos): Leg
  {
    leg.(eos := eos, over := true)
  }

  function Asking(leg: Leg, r: Request): Leg
  {
    leg.(requests := leg.requests + [r])
  }

  function SendCancelOnce(leg: Leg): Leg
  {
    if leg.cancelSent then leg else Asking(leg, Cancel).(cancelSent := true)
  }

  /** A batch out of sequence or undecodable ends the leg; otherwise it is offered and counted. */
  function OnBatch(leg: Leg, number: nat, ms: seq<Message>, w: World, ackDue: bool): Leg
  {
    if number != leg.got.lastSeq + 1 || !w.decodes(number) then Ended(Asking(leg, Cancel), Failed)
    else
      var next := leg.(got := Receive(leg.got, number, ms, w.sink));
      if next.got.refused then Ended(Asking(next, Cancel), Cancelled)
      else if leg.sinceAck + 1 >= ACK_EVERY_BATCHES || ackDue then Asking(next, Ack(number)).(sinceAck := 0)
      else next.(sinceAck := leg.sinceAck + 1)
  }

  function OnFrame(leg: Leg, f: Frame, w: World, ackDue: bool): Leg
  {
    match f
    case Batch(number, ms) => OnBatch(leg, number, ms, w, ackDue)
    case Progress => leg
    case EndOfStream(reason, total) => Ended(Asking(leg.(eosTotal := total), Ack(leg.got.lastSeq)), reason)
    case StreamError => Ended(leg, Failed)
  }

  function OnSilence(leg: Leg, expired: bool, cancel: bool): Leg
  {
    if expired || cancel then Ended(SendCancelOnce(leg), Cancelled)
    else Ended(leg, Unset).(resumable := true)
  }

  function Pass(leg: Leg, tick: Tick, w: World): Leg
  {
    var l := if tick.cancel then SendCancelOnce(leg) else leg;
    if tick.expired then Ended(Asking(l, Cancel), Cancelled)
    else
      match tick.frame
      case Some(f) => OnFrame(l, f, w, tick.ackDue)
      case None => OnSilence(l, tick.expiredAfter, tick.cancelAfter)
  }

  /** The frame loop over everything it observes, up to where it ends. */
  function RunLeg(leg: Leg, ticks: seq<Tick>, w: World): Leg
    decreases |ticks|
  {
    if ticks == [] || leg.over then leg else RunLeg(Pass(leg, ticks[0], w), ticks[1..], w)
  }

  // ---- What a pass keeps, whatever frames arrive ----

  /** The next batch in sequence arrived, decoded, and was taken in. */
  ghost predicate TookBatch(leg: Leg, next: Leg, tick: Tick, w: World)
  {
    && tick.frame.Some? && tick.frame.value.Batch? && tick.frame.value.number == leg.got.lastSeq + 1
    && next.got == Receive(leg.got, tick.frame.value.number, tick.frame.value.messages, w.sink)
  }

  /** A pass takes in the next batch or nothing; a refusal ends the leg for good. */
  lemma PassReceives(leg: Leg, tick: Tick, w: World)
    ensures var next := Pass(leg, tick, w);
            && (next.got == leg.got || TookBatch(leg, next, tick, w))
            && (next.got != leg.got && next.got.refused ==> next.over && (next.resumable ==> leg.resumable))
  {
    hide OnBatch, Receive;
    if tick.frame.Some? && tick.frame.value.Batch? {
      var l := if tick.cancel then SendCancelOnce(leg) else leg;
      BatchReceives(l, tick.frame.value.number, tick.frame.value.messages, w, tick.ackDue);
    }
  }

  lemma BatchReceives(leg: Leg, number: nat, ms: seq<Message>, w: World, ackDue: bool)
    ensures var next := OnBatch(leg, number, ms, w, ackDue);
            && (next.got == leg.got ||
                (number == leg.got.lastSeq + 1 && next.got == Receive(leg.got, number, ms, w.sink)))
            && (next.got != leg.got && next.got.refused ==> next.over) && next.resumable == leg.resumable
  {
    hide Receive;
  }

  /** Every ack asks to discard at most what has been received. */
  ghost predicate AcksBehind(requests: seq<Request>, cursor: nat)
  {
    forall i | 0 <= i < |requests| && requests[i].Ack? :: requests[i].through <= cursor
  }

  lemma AskingKeepsAcksBehind(leg: Leg, r: Request, cursor: nat)
    requires AcksBehind(leg.requests, cursor) && (r.Ack? ==> r.through <= cursor)
    ensures AcksBehind(Asking(leg, r).requests, cursor)
  {
  }

  lemma LaterAcksBehind(requests: seq<Request>, cursor: nat, later: nat)
    requires AcksBehind(requests, cursor) && cursor <= later
    ensures AcksBehind(requests, later)
  {
  }

  lemma BatchKeepsAcksBehind(leg: Leg, number: nat, ms: seq<Message>, w: World, ackDue: bool)
    requires AcksBehind(leg.requests, leg.got.lastSeq)
    ensures var next := OnBatch(leg, number, ms, w, ackDue);
            AcksBehind(next.requests, next.got.lastSeq) && leg.got.lastSeq <= next.got.lastSeq
  {
    hide AcksBehind, Asking;
    AskingKeepsAcksBehind(leg, Cancel, leg.got.lastSeq);
    if number == leg.got.lastSeq + 1 {
      LaterAcksBehind(leg.requests, leg.got.lastSeq, number);
      var next := leg.(got := Receive(leg.got, number, ms, w.sink));
      AskingKeepsAcksBehind(next, Cancel, number);
      AskingKeepsAcksBehind(next, Ack(number), number);
      AskingKeepsGot(next, Cancel);
      AskingKeepsGot(next, Ack(number));
    }
    AskingKeepsGot(leg, Cancel);
  }

  lemma AskingKeepsGot(leg: Leg, r: Request)
    ensures Asking(leg, r).got == leg.got
  {
  }

  /** Acks never run ahead of the cursor, and the cursor never moves back. */
  lemma PassKeepsAcksBehind(leg: Leg, tick: Tick, w: World)
    requires AcksBehind(leg.requests, leg.got.lastSeq)
    ensures var next := Pass(leg, tick, w);
            AcksBehind(next.requests, next.got.lastSeq) && leg.got.lastSeq <= next.got.lastSeq
  {
    hide AcksBehind, OnBatch;
    var cursor := leg.got.lastSeq;
    AskingKeepsAcksBehind(leg, Cancel, cursor);
    var l := if tick.cancel then SendCancelOnce(leg) else leg;
    AskingKeepsAcksBehind(l, Cancel, cursor);
    if tick.frame.Some? {
      match tick.frame.value {
        case Batch(number, ms) => BatchKeepsAcksBehind(l, number, ms, w, tick.ackDue);
        case EndOfStream(_, total) => AskingKeepsAcksBehind(l.(eosTotal := total), Ack(cursor), cursor);
        case _ =>
      }
    }
  }

  /** The last number acked by a leg that began at `seed`. */
  function LastAcked(requests: seq<Request>, seed: nat): nat
  {
    if requests == [] then seed
    else
      var r := requests[|requests| - 1];
      if r.Ack? then r.through else LastAcked(requests[..|requests| - 1], seed)
  }

  /** Fewer than 64 batches are ever received and not acked while a leg runs. */
  ghost predicate AckCadence(leg: Leg, seed: nat)
  {
    leg.sinceAck < ACK_EVERY_BATCHES && LastAcked(leg.requests, seed) + leg.sinceAck == leg.got.lastSeq
  }

  lemma AskingAcked(leg: Leg, r: Request, seed: nat)
    ensures LastAcked(Asking(leg, r).requests, seed) == if r.Ack? then r.through else LastAcked(leg.requests, seed)
  {
    assert (leg.requests + [r])[..|leg.requests|] == leg.requests;
  }

  /** A running leg keeps the cadence, and an end of stream is acked through the cursor. */
  lemma PassKeepsCadence(leg: Leg, tick: Tick, w: World, seed: nat)
    requires AckCadence(leg, seed)
    ensures var next := Pass(leg, tick, w);
            && (!next.over ==> AckCadence(next, seed))
            && (tick.frame.Some? && tick.frame.value.EndOfStream? && !tick.expired ==>
                  next.over && LastAcked(next.requests, seed) == next.got.lastSeq == leg.got.lastSeq)
  {
    hide LastAcked, Asking, Receive;
    AskingAcked(leg, Cancel, seed);
    AskingKeepsGot(leg, Cancel);
    AskingKeepsCount(leg, Cancel);
    var l := if tick.cancel then SendCancelOnce(leg) else leg;
    if tick.frame.Some? && !tick.expired {
      match tick.frame.value {
        case Batch(number, ms) => BatchKeepsCadence(l, number, ms, w, tick.ackDue, seed);
        case EndOfStream(_, total) =>
          AskingAcked(l.(eosTotal := total), Ack(l.got.lastSeq), seed);
          AskingKeepsGot(l.(eosTotal := total), Ack(l.got.lastSeq));
        case _ =>
      }
    }
  }

  lemma AskingKeepsCount(leg: Leg, r: Request)
    ensures Asking(leg, r).sinceAck == leg.sinceAck && Asking(leg, r).over == leg.over
  {
  }

  lemma BatchKeepsCadence(leg: Leg, number: nat, ms: seq<Message>, w: World, ackDue: bool, seed: nat)
    requires AckCadence(leg, seed)
    ensures var next := OnBatch(leg, number, ms, w, ackDue);
            next.over || AckCadence(next, seed)
  {
    hide LastAcked, Receive;
    if number == leg.got.lastSeq + 1 {
      var next := leg.(got := Receive(leg.got, number, ms, w.sink));
      ReceiveMoves(leg.got, number, ms, w.sink);
      AskingAcked(next, Ack(number), seed);
    }
  }

  lemma ReceiveMoves(got: Received, number: nat, ms: seq<Message>, sink: nat -> bool)
    ensures Receive(got, number, ms, sink).lastSeq == number
  {
  }

  /** How many calls the sink has accepted among the first `n`. */
  function Accepted(sink: nat -> bool, n: nat): nat
  {
    if n == 0 then 0 else Accepted(sink, n - 1) + if sink(n - 1) then 1 else 0
  }

  lemma {:induction false} TakenIsAccepted(sink: nat -> bool, from: nat, n: nat)
    ensures Accepted(sink, from + Offered(sink, from, n)) == Accepted(sink, from) + Taken(sink, from, n)
    decreases n
  {
    if n > 0 && sink(from) {
      TakenIsAccepted(sink, from + 1, n - 1);
      assert from + Offered(sink, from, n) == from + 1 + Offered(sink, from + 1, n - 1);
    }
  }

  /** The payload bytes of the accepted callbacks. */
  function AcceptedBytes(sink: nat -> bool, given: seq<Message>): nat
  {
    if given == [] then 0
    else
      var n := |given| - 1;
      AcceptedBytes(sink, given[..n]) + if sink(n) then |given[n].payload| else 0
  }

  lemma BytesMore(sink: nat -> bool, given: seq<Message>, m: Message)
    ensures AcceptedBytes(sink, given + [m]) == AcceptedBytes(sink, given) + if sink(|given|) then |m.payload| else 0
  {
    assert (given + [m])[..|given|] == given;
  }

  /** `Taken` counts the callbacks before the first refusal. */
  lemma {:induction false} TakenUpToRefusal(sink: nat -> bool, from: nat, n: nat, i: nat)
    requires i <= Taken(sink, from, n) && i < n
    ensures sink(from + i) <==> i < Taken(sink, from, n)
    decreases n
  {
    if i > 0 {
      TakenUpToRefusal(sink, from + 1, n - 1, i - 1);
    }
  }

  lemma OneMoreGiven(given: seq<Message>, ms: seq<Message>, k: nat)
    requires k < |ms|
    ensures given + ms[..k + 1] == given + ms[..k] + [ms[k]]
    ensures PayloadBytes(ms[..k + 1]) == PayloadBytes(ms[..k]) + |ms[k].payload|
  {
    assert ms[..k + 1][..k] == ms[..k];
  }

  lemma {:induction false} TakenBytesThrough(sink: nat -> bool, given: seq<Message>, ms: seq<Message>, k: nat)
    requires k <= Taken(sink, |given|, |ms|)
    ensures AcceptedBytes(sink, given + ms[..k]) == AcceptedBytes(sink, given) + PayloadBytes(ms[..k])
  {
    hide AcceptedBytes, Taken;
    if k == 0 {
      assert given + ms[..0] == given;
    } else {
      TakenBytesThrough(sink, given, ms, k - 1);
      TakenUpToRefusal(sink, |given|, |ms|, k - 1);
      OneMoreGiven(given, ms, k - 1);
      BytesMore(sink, given + ms[..k - 1], ms[k - 1]);
    }
  }

  lemma RefusedBytes(sink: nat -> bool, given: seq<Message>, ms: seq<Message>, t: nat)
    requires t == Taken(sink, |given|, |ms|) < |ms|
    ensures AcceptedBytes(sink, given + ms[..t + 1]) == AcceptedBytes(sink, given) + PayloadBytes(ms[..t])
  {
    hide AcceptedBytes, PayloadBytes, Taken;
    TakenBytesThrough(sink, given, ms, t);
    TakenUpToRefusal(sink, |given|, |ms|, t);
    OneMoreGiven(given, ms, t);
    BytesMore(sink, given + ms[..t], ms[t]);
  }

  lemma TakenBytes(sink: nat -> bool, given: seq<Message>, ms: seq<Message>)
    ensures AcceptedBytes(sink, given + ms[..Offered(sink, |given|, |ms|)]) ==
            AcceptedBytes(sink, given) + PayloadBytes(ms[..Taken(sink, |given|, |ms|)])
  {
    hide AcceptedBytes, PayloadBytes, Taken;
    var t := Taken(sink, |given|, |ms|);
    if t < |ms| {
      RefusedBytes(sink, given, ms, t);
    } else {
      TakenBytesThrough(sink, given, ms, t);
    }
  }

  /** From `a` to `b`, messages and bytes counted are callbacks accepted and batches counted are cursor steps. */
  ghost predicate CountsAgree(a: Received, b: Received, sink: nat -> bool)
  {
    && b.messages - a.messages == Accepted(sink, |b.given|) - Accepted(sink, |a.given|)
    && b.bytes - a.bytes == AcceptedBytes(sink, b.given) - AcceptedBytes(sink, a.given)
    && b.batches - a.batches == b.lastSeq - a.lastSeq
  }

  lemma PassKeepsCounts(leg: Leg, tick: Tick, w: World)
    ensures CountsAgree(leg.got, Pass(leg, tick, w).got, w.sink)
  {
    hide Pass, Accepted, AcceptedBytes;
    PassReceives(leg, tick, w);
    if TookBatch(leg, Pass(leg, tick, w), tick, w) {
      TakenIsAccepted(w.sink, |leg.got.given|, |tick.frame.value.messages|);
      TakenBytes(w.sink, leg.got.given, tick.frame.value.messages);
    }
  }

  /** The batch frame that can be taken in next. */
  predicate NextBatch(leg: Leg, tick: Tick, w: World)
  {
    && tick.frame.Some? && tick.frame.value.Batch?
    && tick.frame.value.number == leg.got.lastSeq + 1 && w.decodes(tick.frame.value.number)
  }

  predicate Refused(leg: Leg, tick: Tick, w: World)
  {
    && NextBatch(leg, tick, w)
    && Taken(w.sink, |leg.got.given|, |tick.frame.value.messages|) < |tick.frame.value.messages|
  }

  predicate Says(tick: Tick, reason: Eos)
  {
    tick.frame.Some? && tick.frame.value.EndOfStream? && tick.frame.value.reason == reason
  }

  /**
   How a running leg ends, by what it observed: at the deadline, by the stream's own end, by a refusal, an error or
   a bad batch, by a cancel that woke the wait, or as a drop to resume. Otherwise it goes on, and it takes in a batch
   exactly when that is the next one.
   */
  lemma PassEndsAsObserved(leg: Leg, tick: Tick, w: World)
    requires !leg.over && !leg.resumable && leg.eos == Unset
    ensures var next := Pass(leg, tick, w);
            && (next.resumable <==> tick.frame.None? && !tick.expired && !tick.expiredAfter && !tick.cancelAfter)
            && (next.eos == Complete <==> !tick.expired && Says(tick, Complete))
            && (next.eos == Cancelled <==>
                  || tick.expired || Says(tick, Cancelled) || Refused(leg, tick, w)
                  || (tick.frame.None? && (tick.expiredAfter || tick.cancelAfter)))
            && (next.eos == Failed <==>
                  !tick.expired && tick.frame.Some? &&
                  (Says(tick, Failed) || tick.frame.value.StreamError? ||
                   (tick.frame.value.Batch? && !NextBatch(leg, tick, w))))
            && (!next.over <==>
                  !tick.expired && tick.frame.Some? &&
                  (tick.frame.value.Progress? || (NextBatch(leg, tick, w) && !Refused(leg, tick, w))))
            && (next.got != leg.got <==> !tick.expired && NextBatch(leg, tick, w))
            && (Says(tick, Complete) && !tick.expired ==> next.eosTotal == tick.frame.value.total)
  {
  }

  /** A cancel the loop has seen is on the wire, and so is one when the client itself gives the stream up. */
  lemma PassAsksToCancel(leg: Leg, tick: Tick, w: World)
    requires leg.cancelSent ==> Cancel in leg.requests
    ensures var next := Pass(leg, tick, w);
            && (next.cancelSent ==> Cancel in next.requests) && leg.requests <= next.requests
            && (tick.cancel || tick.expired || Refused(leg, tick, w) ==> Cancel in next.requests)
            && (tick.frame.None? && (tick.expiredAfter || tick.cancelAfter) ==> Cancel in next.requests)
            && (tick.frame.Some? && tick.frame.value.Batch? && !NextBatch(leg, tick, w) ==> Cancel in next.requests)
  {
    hide OnBatch, Asking;
    var l := if tick.cancel then SendCancelOnce(leg) else leg;
    AskingAsks(leg, Cancel);
    AskingAsks(l, Cancel);
    AskingKeepsGot(leg, Cancel);
    assert l.got == leg.got && (tick.cancel ==> Cancel in l.requests) && leg.requests <= l.requests;
    if tick.frame.Some? {
      match tick.frame.value {
        case Batch(number, ms) => BatchAsks(l, tick, w);
        case EndOfStream(_, total) => AskingAsks(l.(eosTotal := total), Ack(l.got.lastSeq));
        case _ =>
      }
    }
  }

  lemma BatchAsks(leg: Leg, tick: Tick, w: World)
    requires tick.frame.Some? && tick.frame.value.Batch?
    ensures var next := OnBatch(leg, tick.frame.value.number, tick.frame.value.messages, w, tick.ackDue);
            && next.cancelSent == leg.cancelSent && leg.requests <= next.requests
            && (!NextBatch(leg, tick, w) || Refused(leg, tick, w) ==> Cancel in next.requests)
  {
    hide Receive;
    var b := tick.frame.value;
    var next := leg.(got := Receive(leg.got, b.number, b.messages, w.sink));
    ReceiveRefuses(leg.got, b.number, b.messages, w.sink);
    AskingAsks(leg, Cancel);
    AskingAsks(next, Cancel);
    AskingAsks(next, Ack(b.number));
  }

  lemma AskingAsks(leg: Leg, r: Request)
    ensures leg.requests <= Asking(leg, r).requests && r in Asking(leg, r).requests
    ensures Asking(leg, r).cancelSent == leg.cancelSent
    ensures forall x | x in leg.requests :: x in Asking(leg, r).requests
  {
  }

  lemma ReceiveRefuses(got: Received, number: nat, ms: seq<Message>, sink: nat -> bool)
    ensures Receive(got, number, ms, sink).refused <==> Taken(sink, |got.given|, |ms|) < |ms|
  {
  }

  /** A leg is resumable only if nothing told it to stop: no cancel, no deadline, no end of stream. */
  lemma ResumableMeansDropped(leg: Leg, tick: Tick, w: World)
    requires !leg.resumable && Pass(leg, tick, w).resumable
    ensures tick.frame.None? && !tick.expired && !tick.expiredAfter && !tick.cancelAfter
    ensures Pass(leg, tick, w).eos == Unset && Pass(leg, tick, w).got == leg.got
  {
    hide Receive;
  }

  // ---- Delivering a numbered stream ----

  lemma {:induction false} FlattenPrefix(stream: seq<seq<Message>>, k: nat)
    requires k <= |stream|
    ensures Flatten(stream[..k]) <= Flatten(stream)
  {
    if k < |stream| {
      FlattenPrefix(stream[..|stream| - 1], k);
      assert stream[..|stream| - 1][..k] == stream[..k];
    } else {
      assert stream[..k] == stream;
    }
  }

  /** A batch frame carries the batch of that number. */
  ghost predicate Genuine(f: Frame, stream: seq<seq<Message>>)
  {
    f.Batch? ==> 1 <= f.number <= |stream| && f.messages == stream[f.number - 1]
  }

  /** What has been passed on is the stream up to the cursor, short only if the sink refused. */
  ghost predicate InOrder(got: Received, stream: seq<seq<Message>>)
  {
    && got.lastSeq <= |stream|
    && got.given <= Flatten(stream[..got.lastSeq])
    && (!got.refused ==> got.given == Flatten(stream[..got.lastSeq]))
  }

  lemma ReceiveKeepsOrder(got: Received, number: nat, ms: seq<Message>, sink: nat -> bool, stream: seq<seq<Message>>)
    requires InOrder(got, stream) && !got.refused
    requires number == got.lastSeq + 1 <= |stream| && ms == stream[number - 1]
    ensures InOrder(Receive(got, number, ms, sink), stream)
  {
    FlattenStep(stream, got.lastSeq);
    var k := Offered(sink, |got.given|, |ms|);
    assert k == |ms| ==> ms[..k] == ms;
    assert ms[..k] <= ms;
    assert got.given + ms[..k] <= got.given + ms;
  }

  /**
   Whatever genuine frame arrives next, duplicated, reordered or stale, what the sink has been given
   stays the stream in order: no gap, no duplicate.
   */
  lemma PassKeepsOrder(leg: Leg, tick: Tick, w: World, stream: seq<seq<Message>>)
    requires InOrder(leg.got, stream) && !leg.got.refused
    requires tick.frame.Some? ==> Genuine(tick.frame.value, stream)
    ensures InOrder(Pass(leg, tick, w).got, stream)
  {
    hide Pass, InOrder, Receive;
    PassReceives(leg, tick, w);
    if TookBatch(leg, Pass(leg, tick, w), tick, w) {
      ReceiveKeepsOrder(leg.got, tick.frame.value.number, tick.frame.value.messages, w.sink, stream);
    }
  }

  // ---- The loops ----

  /** `runFrameLoop`, over what it observes. */
  method RunFrameLoop(got: Received, ticks: seq<Tick>, w: World) returns (leg: Leg)
    ensures leg == RunLeg(NewLeg(got), ticks, w)
    ensures AcksBehind(leg.requests, leg.got.lastSeq) && got.lastSeq <= leg.got.lastSeq
    ensures CountsAgree(got, leg.got, w.sink)
    ensures leg.over || AckCadence(leg, got.lastSeq)
  {
    hide Pass, AcksBehind, Accepted, AcceptedBytes;
    leg := NewLeg(got);
    NoAcks(leg.got.lastSeq);
    var i := 0;
    while i < |ticks| && !leg.over
      invariant 0 <= i <= |ticks|
      invariant RunLeg(leg, ticks[i..], w) == RunLeg(NewLeg(got), ticks, w)
      invariant AcksBehind(leg.requests, leg.got.lastSeq) && got.lastSeq <= leg.got.lastSeq
      invariant CountsAgree(got, leg.got, w.sink)
      invariant leg.over || AckCadence(leg, got.lastSeq)
    {
      PassKeepsCadence(leg, ticks[i], w, got.lastSeq);
      PassKeepsAcksBehind(leg, ticks[i], w);
      PassKeepsCounts(leg, ticks[i], w);
      assert ticks[i..][1..] == ticks[i + 1..];
      leg := PassOnce(leg, ticks[i], w);
      i := i + 1;
    }
  }

  lemma NoAcks(cursor: nat)
    ensures AcksBehind([], cursor)
  {
  }

  /** The body of the loop up to the frame. */
  method PassOnce(start: Leg, tick: Tick, w: World) returns (leg: Leg)
    ensures leg == Pass(start, tick, w)
  {
    hide OnFrame;
    leg := start;
    if tick.cancel && !leg.cancelSent {
      leg := leg.(cancelSent := true, requests := leg.requests + [Cancel]);
    }
    if tick.expired {
      leg := leg.(requests := leg.requests + [Cancel], eos := Cancelled, over := true);
      return;
    }
    if tick.frame.None? {
      if tick.expiredAfter || tick.cancelAfter {
        if !leg.cancelSent {
          leg := leg.(cancelSent := true, requests := leg.requests + [Cancel]);
        }
        leg := leg.(eos := Cancelled, over := true);
        return;
      }
      leg := leg.(eos := Unset, over := true, resumable := true);
      return;
    }
    leg := FrameOnce(leg, tick.frame.value, w, tick.ackDue);
  }

  /** The body of the loop on a frame. */
  method FrameOnce(start: Leg, f: Frame, w: World, ackDue: bool) returns (leg: Leg)
    ensures leg == OnFrame(start, f, w, ackDue)
  {
    hide OnBatch;
    leg := start;
    match f {
      case Batch(number, ms) =>
        leg := BatchOnce(leg, number, ms, w, ackDue);
      case Progress =>
      case EndOfStream(reason, total) =>
        leg := leg.(eosTotal := total, eos := reason, over := true, requests := leg.requests + [Ack(leg.got.lastSeq)]);
      case StreamError =>
        leg := leg.(eos := Failed, over := true);
    }
  }

  /** The body of the loop on a batch. */
  method BatchOnce(start: Leg, number: nat, ms: seq<Message>, w: World, ackDue: bool) returns (leg: Leg)
    ensures leg == OnBatch(start, number, ms, w, ackDue)
  {
    hide Taken, PayloadBytes;
    leg := start;
    if number != leg.got.lastSeq + 1 || !w.decodes(number) {
      leg := leg.(requests := leg.requests + [Cancel], eos := Failed, over := true);
      return;
    }
    var given, accepted, bytes, aborted := OfferBatch(w.sink, leg.got.given, ms);
    var got := Received(number, given, aborted, leg.got.messages + accepted, leg.got.bytes + bytes,
                        leg.got.batches + 1);
    assert got == Receive(leg.got, number, ms, w.sink);
    hide Receive;
    leg := leg.(got := got);
    if aborted {
      leg := leg.(requests := leg.requests + [Cancel], eos := Cancelled, over := true);
      return;
    }
    leg := leg.(sinceAck := leg.sinceAck + 1);
    if leg.sinceAck >= ACK_EVERY_BATCHES || ackDue {
      leg := leg.(requests := leg.requests + [Ack(number)], sinceAck := 0);
    }
  }

  // ---- The download ----

  const MAX_RESUME_ATTEMPTS := 3

  datatype Answer = Served | Rejected | NoAnswer

  /** What one reconnect attempt observes, in the order the code looks. */
  datatype Attempt = Attempt(cancelAtDrop: bool, expiredBefore: bool, cancelAfterBackoff: bool,
                             expiredAfterBackoff: bool, cancelAtHint: bool,
                             reconnected: bool, expiredAfter: bool, cancelAtOpen: bool, answer: Answer)

  /** The checks a reconnect must pass before it is made. */
  predicate MayReconnect(a: Attempt)
  {
    !a.expiredBefore && !a.cancelAfterBackoff && !a.expiredAfterBackoff && !a.cancelAtHint
  }

  /** How the download stands: still in a leg, or ended with this reason. */
  datatype Result = Running | Done(eos: Eos)

  /** A leg's own counters start at zero; its cursor and what was given carry over. */
  function LegSeed(total: Received): Received
  {
    total.(messages := 0, bytes := 0, batches := 0)
  }

  function Fold(total: Received, leg: Received): Received
  {
    leg.(messages := total.messages + leg.messages, bytes := total.bytes + leg.bytes,
         batches := total.batches + leg.batches)
  }

  ghost predicate Counted(got: Received, sink: nat -> bool)
  {
    && got.messages == Accepted(sink, |got.given|) && got.bytes == AcceptedBytes(sink, got.given)
    && got.batches == got.lastSeq
  }

  lemma FoldCounts(total: Received, leg: Received, sink: nat -> bool)
    requires Counted(total, sink) && CountsAgree(LegSeed(total), leg, sink)
    ensures Counted(Fold(total, leg), sink)
  {
    hide Accepted, AcceptedBytes;
  }

  /** Everything received in the first `n` legs, each begun at the cursor the one before it left. */
  function AfterLegs(w: World, legs: nat -> seq<Tick>, n: nat): Received
  {
    if n == 0 then NOTHING
    else
      var total := AfterLegs(w, legs, n - 1);
      Fold(total, RunLeg(NewLeg(LegSeed(total)), legs(n - 1), w).got)
  }

  /** Each OpenResume, sent when `before[i]` of the legs had run, asks behind exactly the batches received in them. */
  ghost predicate ResumesBehind(w: World, legs: nat -> seq<Tick>, legsRun: nat, before: seq<nat>, cursors: seq<nat>)
  {
    && |before| == |cursors|
    && forall i | 0 <= i < |cursors| ::
         && 1 <= before[i] <= legsRun
         && cursors[i] == AfterLegs(w, legs, before[i]).lastSeq == AfterLegs(w, legs, before[i]).batches
  }

  lemma LegAdded(w: World, legs: nat -> seq<Tick>, n: nat, before: seq<nat>, cursors: seq<nat>)
    requires ResumesBehind(w, legs, n, before, cursors)
    ensures var total := AfterLegs(w, legs, n);
            AfterLegs(w, legs, n + 1) == Fold(total, RunLeg(NewLeg(LegSeed(total)), legs(n), w).got)
    ensures ResumesBehind(w, legs, n + 1, before, cursors)
    ensures Asked(w, legs, n + 1) == Asked(w, legs, n) + LegRun(w, legs, n).requests
  {
  }

  lemma ResumeSent(w: World, legs: nat -> seq<Tick>, n: nat, before: seq<nat>, cursors: seq<nat>)
    requires ResumesBehind(w, legs, n, before, cursors) && n >= 1 && Counted(AfterLegs(w, legs, n), w.sink)
    ensures ResumesBehind(w, legs, n, before + [n], cursors + [AfterLegs(w, legs, n).lastSeq])
  {
    hide AfterLegs;
  }

  lemma NoLegs(w: World, legs: nat -> seq<Tick>)
    ensures AfterLegs(w, legs, 0) == NOTHING && ResumesBehind(w, legs, 0, [], []) && Asked(w, legs, 0) == []
  {
  }

  /** The attempt gets as far as an OpenResume. */
  predicate OpensResume(a: Attempt)
  {
    MayReconnect(a) && a.reconnected && !a.expiredAfter && !a.cancelAtOpen
  }

  predicate ServesLeg(a: Attempt)
  {
    OpensResume(a) && a.answer == Served
  }

  predicate Rejects(a: Attempt)
  {
    OpensResume(a) && a.answer == Rejected
  }

  /** The attempt does not end the download: it is served, or another one is due. */
  predicate GoesOn(a: Attempt)
  {
    MayReconnect(a) && !a.expiredAfter && !Rejects(a)
  }

  /** A leg ran just before attempt `n`. */
  predicate LegBefore(attempts: nat -> Attempt, n: nat)
  {
    n == 0 || ServesLeg(attempts(n - 1))
  }

  /** With `n` reconnects behind it, the download was told to stop. */
  predicate ToldToStop(attempts: nat -> Attempt, n: nat)
  {
    || (n > 0 && MayReconnect(attempts(n - 1)) && attempts(n - 1).expiredAfter)
    || ((n == 0 || GoesOn(attempts(n - 1))) && LegBefore(attempts, n) && attempts(n).cancelAtDrop)
    || ((n == 0 || GoesOn(attempts(n - 1))) && n < MAX_RESUME_ATTEMPTS && !MayReconnect(attempts(n)))
  }

  /** What `n` reconnects mean: each passed its checks, all but the last went on, and each served one had its leg. */
  ghost predicate WentThrough(attempts: nat -> Attempt, n: nat, legsRun: nat, sent: nat)
  {
    && n <= MAX_RESUME_ATTEMPTS
    && (forall k | 0 <= k < n :: MayReconnect(attempts(k)) && (LegBefore(attempts, k) ==> !attempts(k).cancelAtDrop))
    && (forall k | 0 <= k < n - 1 :: GoesOn(attempts(k)))
    && legsRun == 1 + ServedOf(attempts, n) && sent == OpenedOf(attempts, n)
  }

  /** How a download whose last leg was dropped ends. */
  ghost predicate EndsAs(attempts: nat -> Attempt, n: nat, result: Result)
  {
    && (result == Done(Cancelled) <==> ToldToStop(attempts, n))
    && (result == Done(Failed) <==> n > 0 && Rejects(attempts(n - 1)))
    && (result == Done(Unset) ==> n == MAX_RESUME_ATTEMPTS)
    && result.Done? && result != Done(Complete)
  }

  /** The loop's state at its head. */
  ghost predicate SoFar(attempts: nat -> Attempt, n: nat, armed: bool, legsRun: nat, sent: nat)
  {
    && n <= MAX_RESUME_ATTEMPTS && armed == LegBefore(attempts, n)
    && (forall k | 0 <= k < n :: GoesOn(attempts(k)) && (LegBefore(attempts, k) ==> !attempts(k).cancelAtDrop))
    && legsRun == ServedOf(attempts, n) + (if armed then 0 else 1) && sent == OpenedOf(attempts, n)
  }

  lemma NoneTried(attempts: nat -> Attempt)
    ensures SoFar(attempts, 0, true, 0, 0)
  {
  }

  /** Every way on from the head of the loop, once a leg due has run. */
  lemma Decided(attempts: nat -> Attempt, n: nat, armed: bool, before: nat, legsRun: nat, sent: nat)
    requires SoFar(attempts, n, armed, before, sent) && legsRun == if armed then before + 1 else before
    ensures WentThrough(attempts, n, legsRun, sent)
    ensures armed && attempts(n).cancelAtDrop ==> EndsAs(attempts, n, Done(Cancelled))
    ensures !(armed && attempts(n).cancelAtDrop) && n == MAX_RESUME_ATTEMPTS ==> EndsAs(attempts, n, Done(Unset))
    ensures !MayReconnect(attempts(n)) && n < MAX_RESUME_ATTEMPTS ==> EndsAs(attempts, n, Done(Cancelled))
  {
  }

  lemma AttemptDecided(attempts: nat -> Attempt, n: nat, armed: bool, before: nat, legsRun: nat, sent: nat)
    requires SoFar(attempts, n, armed, before, sent) && legsRun == if armed then before + 1 else before
    requires n < MAX_RESUME_ATTEMPTS && MayReconnect(attempts(n)) && !(armed && attempts(n).cancelAtDrop)
    ensures var opens := sent + if OpensResume(attempts(n)) then 1 else 0;
            && (ServesLeg(attempts(n)) || WentThrough(attempts, n + 1, legsRun, opens))
            && (attempts(n).expiredAfter ==> EndsAs(attempts, n + 1, Done(Cancelled)))
            && (Rejects(attempts(n)) ==> EndsAs(attempts, n + 1, Done(Failed)))
            && (GoesOn(attempts(n)) ==> SoFar(attempts, n + 1, ServesLeg(attempts(n)), legsRun, opens))
  {
  }

  function ServedOf(attempts: nat -> Attempt, n: nat): nat
  {
    if n == 0 then 0 else ServedOf(attempts, n - 1) + if ServesLeg(attempts(n - 1)) then 1 else 0
  }

  function OpenedOf(attempts: nat -> Attempt, n: nat): nat
  {
    if n == 0 then 0 else OpenedOf(attempts, n - 1) + if OpensResume(attempts(n - 1)) then 1 else 0
  }

  /** The `n`-th leg, begun with what the legs before it received. */
  function LegRun(w: World, legs: nat -> seq<Tick>, n: nat): Leg
  {
    RunLeg(NewLeg(LegSeed(AfterLegs(w, legs, n))), legs(n), w)
  }

  /** Everything asked of the server in the first `n` legs. */
  function Asked(w: World, legs: nat -> seq<Tick>, n: nat): seq<Request>
  {
    if n == 0 then [] else Asked(w, legs, n - 1) + LegRun(w, legs, n - 1).requests
  }

  /** A latched cancel: once seen it is seen by every later check. */
  ghost predicate CancelLatched(attempts: nat -> Attempt, from: nat)
  {
    forall k | k >= from :: attempts(k).cancelAfterBackoff
  }

  /**
   `downloadSessionResumable`, over the legs and the reconnect attempts it observes. `cursors` lists the
   cursor of each OpenResume sent and `legsBefore` how many legs had run by then, `reconnects` counts the
   reconnects made, `last` is the last leg that ran. A latched cancel allows no further reconnect.
   Every leg but the last was dropped, each served OpenResume is followed by a leg, and the end is decided: a leg
   that was not dropped gives it its own; a dropped one ends Cancelled exactly when the download was told to stop,
   Failed exactly when the server rejected the resume, and without a reason only with the reconnects used up.
   */
  method DownloadResumable(w: World, legs: nat -> seq<Tick>, attempts: nat -> Attempt)
    returns (total: Received, result: Result, last: Leg, reconnects: nat, cursors: seq<nat>, requests: seq<Request>,
             ghost legsRun: nat, ghost legsBefore: seq<nat>)
    ensures WentThrough(attempts, reconnects, legsRun, |cursors|)
    ensures forall from | CancelLatched(attempts, from) :: reconnects <= from
    ensures forall k | 0 <= k < legsRun - 1 :: LegRun(w, legs, k).over && LegRun(w, legs, k).resumable
    ensures total == AfterLegs(w, legs, legsRun) && Counted(total, w.sink)
    ensures last == LegRun(w, legs, legsRun - 1) && requests == Asked(w, legs, legsRun)
    ensures AcksBehind(requests, total.lastSeq)
    ensures ResumesBehind(w, legs, legsRun, legsBefore, cursors)
    ensures total.lastSeq == last.got.lastSeq && total.given == last.got.given
    ensures result == Running <==> !last.over
    ensures last.over && !last.resumable ==> result == Done(last.eos)
    ensures last.over && last.resumable ==> EndsAs(attempts, reconnects, result)
  {
    hide Accepted, AcceptedBytes, AcksBehind, RunLeg, Fold, Counted, CancelLatched, NewLeg, AfterLegs, ResumesBehind,
         LegSeed, Asked, WentThrough, EndsAs, SoFar, ToldToStop, LegRun;
    total, result, reconnects, cursors, requests := NOTHING, Running, 0, [], [];
    legsRun, legsBefore := 0, [];
    NothingCounted(w.sink);
    NoAcks(0);
    var used := 0;
    var armed := true;
    var next := 0;
    last := NewLeg(NOTHING);
    NoneReconnected(attempts);
    NoLegs(w, legs);
    NoneTried(attempts);
    while true
      invariant reconnects == used <= MAX_RESUME_ATTEMPTS
      invariant SoFar(attempts, reconnects, armed, legsRun, |cursors|)
      invariant forall k | 0 <= k < reconnects :: MayReconnect(attempts(k))
      invariant forall k | 0 <= k < legsRun :: LegRun(w, legs, k).over && LegRun(w, legs, k).resumable
      invariant forall from | CancelLatched(attempts, from) :: reconnects <= from
      invariant next == legsRun && total == AfterLegs(w, legs, legsRun) && Counted(total, w.sink) &&
                (armed || legsRun >= 1)
      invariant legsRun >= 1 ==>
                  && last == LegRun(w, legs, legsRun - 1)
                  && total.lastSeq == last.got.lastSeq && total.given == last.got.given
      invariant AcksBehind(requests, total.lastSeq) && requests == Asked(w, legs, legsRun)
      invariant ResumesBehind(w, legs, legsRun, legsBefore, cursors)
      invariant result == Running
      decreases MAX_RESUME_ATTEMPTS - used
    {
      ghost var before := legsRun;
      if armed {
        var leg := RunFrameLoop(LegSeed(total), legs(next), w);
        LegRunIs(w, legs, legsRun);
        LegAdded(w, legs, legsRun, legsBefore, cursors);
        SeedKeepsCursor(total);
        next, legsRun := next + 1, legsRun + 1;
        FoldCounts(total, leg.got, w.sink);
        JoinAcks(requests, total.lastSeq, leg.requests, leg.got.lastSeq);
        FoldKeepsCursor(total, leg.got);
        total := Fold(total, leg.got);
        requests := requests + leg.requests;
        last := leg;
        Decided(attempts, used, armed, before, legsRun, |cursors|);
        if !leg.over {
          return;
        }
        if !leg.resumable {
          result := Done(leg.eos);
          return;
        }
        if attempts(used).cancelAtDrop {
          result := Done(Cancelled);
          return;
        }
      }
      Decided(attempts, used, armed, before, legsRun, |cursors|);
      if used >= MAX_RESUME_ATTEMPTS {
        result := Done(Unset);
        return;
      }
      var a := attempts(used);
      if a.expiredBefore || a.cancelAfterBackoff || a.expiredAfterBackoff {
        result := Done(Cancelled);
        return;
      }
      if MayReconnect(a) {
        AttemptDecided(attempts, used, armed, before, legsRun, |cursors|);
      }
      used := used + 1;
      if a.cancelAtHint {
        result := Done(Cancelled);
        return;
      }
      reconnects := reconnects + 1;
      OneMoreReconnect(attempts, reconnects);
      if !a.reconnected {
        if a.expiredAfter {
          result := Done(Cancelled);
          return;
        }
        armed := false;
        continue;
      }
      if a.expiredAfter {
        result := Done(Cancelled);
        return;
      }
      if a.cancelAtOpen {
        armed := false;
        continue;
      }
      ResumeSent(w, legs, legsRun, legsBefore, cursors);
      cursors, legsBefore := cursors + [total.lastSeq], legsBefore + [legsRun];
      if a.answer == Rejected {
        result := Done(Failed);
        return;
      }
      armed := a.answer == Served;
    }
  }

  lemma LegRunIs(w: World, legs: nat -> seq<Tick>, n: nat)
    ensures LegRun(w, legs, n) == RunLeg(NewLeg(LegSeed(AfterLegs(w, legs, n))), legs(n), w)
  {
  }

  lemma NothingCounted(sink: nat -> bool)
    ensures Counted(NOTHING, sink)
  {
  }

  lemma FoldKeepsCursor(total: Received, leg: Received)
    ensures Fold(total, leg).lastSeq == leg.lastSeq && Fold(total, leg).given == leg.given
  {
  }

  lemma JoinAcks(a: seq<Request>, cursor: nat, b: seq<Request>, later: nat)
    requires AcksBehind(a, cursor) && AcksBehind(b, later) && cursor <= later
    ensures AcksBehind(a + b, later)
  {
  }

  lemma SeedKeepsCursor(total: Received)
    ensures LegSeed(total).lastSeq == total.lastSeq
  {
  }

  lemma NoneReconnected(attempts: nat -> Attempt)
    ensures forall from | CancelLatched(attempts, from) :: 0 <= from
  {
  }

  /** Once a cancel is latched no further reconnect passes its cancel check. */
  lemma OneMoreReconnect(attempts: nat -> Attempt, reconnects: nat)
    requires forall k | 0 <= k < reconnects :: MayReconnect(attempts(k))
    ensures forall from | CancelLatched(attempts, from) :: reconnects <= from
  {
    forall from | CancelLatched(attempts, from)
      ensures reconnects <= from
    {
      assert !MayReconnect(attempts(from));
    }
  }
}
