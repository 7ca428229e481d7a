/**
 What the protocol is for: a download that was dropped can be resumed and brought to its end, whatever happened
 before. From every reachable state with a live session and a reconnect left there is a continuation that delivers
 the whole stream.
 */
module ResumeProgress {
  import opened Basics
  import opened ResumeClient
  import opened RetainBuffer
  import opened ResumeSystem
  import opened ResumeCompletion

  /** The sink takes every message, and every batch body decodes. */
  ghost predicate Willing(w: World)
  {
    (forall n :: w.sink(n)) && (forall n :: w.decodes(n))
  }

  /** A connection just made: nothing under way, and the server about to send what is behind the cursor. */
  ghost predicate Connected(su: Setup, st: State)
  {
    var s, cursor := st.server, Cursor(st.client);
    && st.client.phase.Streaming? && !st.cancel && !st.expired && st.link == Link(true, [], [], [])
    && s.live && s.attached && s.last == cursor
    && cursor <= s.appended <= |su.stream| && s.queue == Window(su, cursor, s.appended)
  }

  lemma {:induction false} AllTaken(sink: nat -> bool, from: nat, n: nat)
    requires forall k :: sink(k)
    ensures Taken(sink, from, n) == n && Offered(sink, from, n) == n
    decreases n
  {
    if n > 0 {
      AllTaken(sink, from + 1, n - 1);
    }
  }

  /** The next batch, taken in whole and acked. */
  lemma PassTakesBatch(leg: Leg, number: nat, ms: seq<Message>, w: World)
    requires Willing(w) && number == leg.got.lastSeq + 1 && !leg.over && !leg.resumable
    ensures var next := Pass(leg, Tick(false, false, Some(Batch(number, ms)), false, false, true), w);
            && !next.over && !next.resumable && next.got.lastSeq == number && !next.got.refused
            && next.requests == leg.requests + [Ack(number)]
  {
    AllTaken(w.sink, |leg.got.given|, |ms|);
  }

  /** The client's pass over the next batch. */
  lemma Delivering(su: Setup, st: State)
    requires Willing(su.world) && Safe(su, st) && st.client.phase.Streaming? && !st.cancel && !st.expired
    requires Cursor(st.client) < |su.stream|
    requires st.link == Link(true, [], [], [Batch(Cursor(st.client) + 1, su.stream[Cursor(st.client)])])
    ensures var next := Step(su, st, Deliver(true));
            && next.client.phase.Streaming? && Cursor(next.client) == Cursor(st.client) + 1
            && next == st.(link := Link(true, [], [], []), client := next.client)
            && Requests(next.client) != [] && next.client.attempts == st.client.attempts
            && Requests(next.client)[|Requests(next.client)| - 1] == Ack(Cursor(next.client))
  {
    hide Safe, Pass;
    StreamingLeg(su, st);
    PassTakesBatch(st.client.leg, Cursor(st.client) + 1, su.stream[Cursor(st.client)], su.world);
  }

  /** The next batch goes from the buffer to the sink, and is discarded by its ack. */
  lemma DeliverNext(su: Setup, actions: seq<Action>) returns (more: seq<Action>)
    requires Willing(su.world) && Connected(su, Run(su, actions))
    requires Cursor(Run(su, actions).client) < Run(su, actions).server.appended
    ensures var st, next := Run(su, actions), Run(su, actions + more);
            && Connected(su, next) && Cursor(next.client) == Cursor(st.client) + 1
            && next.server.appended == st.server.appended && next.client.attempts == st.client.attempts
  {
    hide Run, Safe, ClientStep, Willing;
    var st := Run(su, actions);
    var cursor := Cursor(st.client);
    var b := Batch(cursor + 1, su.stream[cursor]);
    Sending(su, st);
    var a1 := actions + [SendNext];
    RunMore(su, actions, SendNext);
    var a2 := a1 + [WriteFrame];
    RunMore(su, a1, WriteFrame);
    assert [b][1..] == [] && [] + [b] == [b];
    var s2 := Run(su, a2);
    assert s2 == Run(su, a1).(link := Link(true, [], [], [b]));
    RunIsSafe(su, a2);
    Delivering(su, s2);
    var a3 := a2 + [Deliver(true)];
    RunMore(su, a2, Deliver(true));
    var i := |Requests(Run(su, a3).client)| - 1;
    RunMore(su, a3, ServeAck(i));
    PrunedWindow(su, cursor, st.server.appended, cursor + 1);
    more := [SendNext, WriteFrame, Deliver(true), ServeAck(i)];
    assert a3 + [ServeAck(i)] == actions + more;
  }

  lemma StreamingLeg(su: Setup, st: State)
    requires Safe(su, st) && st.client.phase.Streaming?
    ensures !st.client.leg.over && !st.client.leg.resumable
  {
  }

  /** The consumer's next batch is the one behind the cursor. */
  lemma Sending(su: Setup, st: State)
    requires Connected(su, st) && Cursor(st.client) < st.server.appended
    ensures var cursor := Cursor(st.client);
            ServerStep(su, st, SendNext) ==
            st.(link := Link(true, [Batch(cursor + 1, su.stream[cursor])], [], []),
                server := st.server.(last := cursor + 1, sent := st.server.sent + |su.stream[cursor]|))
  {
    NextInWindow(su, Cursor(st.client), st.server.appended, st.server.last);
  }

  /** With the buffer drained the producer can record and append its next batch, however large. */
  lemma ProduceNext(su: Setup, actions: seq<Action>) returns (more: seq<Action>)
    requires Connected(su, Run(su, actions))
    requires Cursor(Run(su, actions).client) == Run(su, actions).server.appended < |su.stream|
    ensures var st, next := Run(su, actions), Run(su, actions + more);
            && Connected(su, next) && next.client == st.client
            && next.server.appended == st.server.appended + 1
  {
    hide Run, ClientOk, LinkOk, CursorOk;
    var st := Run(su, actions);
    RunIsSafe(su, actions);
    var front: seq<Action> := if st.server.ledger == st.server.appended then [Record] else [];
    RunMore(su, actions, Record);
    assert actions + [] == actions;
    var s1 := Run(su, actions + front);
    var k := st.server.appended;
    assert s1 == st.(server := st.server.(ledger := k + 1));
    RunMore(su, actions + front, Append);
    assert st.server.queue == [] && Window(su, k, k + 1) == [] + [EnvelopeOf(su, k + 1)];
    more := front + [Append];
    assert actions + front + [Append] == actions + more;
  }

  /** Everything up to `n` can be delivered. */
  lemma {:induction false} DeliverThrough(su: Setup, actions: seq<Action>, n: nat) returns (more: seq<Action>)
    requires Willing(su.world) && Connected(su, Run(su, actions))
    requires Cursor(Run(su, actions).client) <= n <= |su.stream|
    ensures var next := Run(su, actions + more);
            Connected(su, next) && Cursor(next.client) == n
    decreases n - Cursor(Run(su, actions).client)
  {
    hide Run, Connected, Willing;
    var st := Run(su, actions);
    more := [];
    assert actions + more == actions;
    if Cursor(st.client) < n {
      AppendedAhead(su, st);
      var front: seq<Action> := [];
      if Cursor(st.client) == st.server.appended {
        front := ProduceNext(su, actions);
      }
      AppendedAhead(su, Run(su, actions + front));
      var sent := DeliverNext(su, actions + front);
      var rest := DeliverThrough(su, actions + front + sent, n);
      more := front + sent + rest;
      assert actions + front + sent + rest == actions + more;
    }
  }

  lemma AppendedAhead(su: Setup, st: State)
    requires Connected(su, st)
    ensures Cursor(st.client) <= st.server.appended
  {
  }

  /** The client's pass over the end of the stream. */
  lemma Ending(su: Setup, st: State, total: nat)
    requires Safe(su, st) && st.client.phase.Streaming? && !st.cancel && !st.expired
    requires st.link == Link(true, [], [], [EndOfStream(Complete, total)])
    ensures var next := Step(su, st, Deliver(false));
            next.client.phase == Over(Complete) && next.client.leg.got == st.client.leg.got
  {
    hide Safe;
    StreamingLeg(su, st);
  }

  /** With all delivered, the end of the stream comes through and the download is Complete. */
  lemma EndStream(su: Setup, actions: seq<Action>) returns (more: seq<Action>)
    requires Connected(su, Run(su, actions)) && Cursor(Run(su, actions).client) == |su.stream|
    ensures var st, next := Run(su, actions), Run(su, actions + more);
            next.client.phase == Over(Complete) && next.client.leg.got == st.client.leg.got
  {
    hide Run, Safe, ClientStep;
    var st := Run(su, actions);
    RunIsSafe(su, actions);
    LedgerFull(su, st);
    RunMore(su, actions, FinishProducing);
    var a1 := actions + [FinishProducing];
    NextInWindow(su, |su.stream|, |su.stream|, |su.stream|);
    RunMore(su, a1, SendFinalEos);
    var a2 := a1 + [SendFinalEos];
    var eos := EndOfStream(Complete, st.server.sent);
    assert [] + [eos] == [eos] && [eos][1..] == [];
    assert Run(su, a2).link == Link(true, [], [eos], []);
    RunMore(su, a2, WriteFrame);
    var a3 := a2 + [WriteFrame];
    assert Run(su, a3).link == Link(true, [], [], [eos]) && Run(su, a3).client == st.client;
    RunIsSafe(su, a3);
    Ending(su, Run(su, a3), st.server.sent);
    RunMore(su, a3, Deliver(false));
    more := [FinishProducing, SendFinalEos, WriteFrame, Deliver(false)];
    assert a3 + [Deliver(false)] == actions + more;
  }

  lemma LedgerFull(su: Setup, st: State)
    requires Safe(su, st) && st.server.appended == |su.stream|
    ensures st.server.ledger == |su.stream|
  {
  }

  /** A connected download can be completed. */
  lemma ConnectedCanComplete(su: Setup, actions: seq<Action>) returns (more: seq<Action>)
    requires Willing(su.world) && Connected(su, Run(su, actions))
    ensures var c := Run(su, actions + more).client;
            c.phase == Over(Complete) && c.leg.got.given == Flatten(su.stream)
  {
    hide Run, Connected, Willing, Flatten;
    CursorInStream(su, actions);
    var sent := DeliverThrough(su, actions, |su.stream|);
    var end := EndStream(su, actions + sent);
    more := sent + end;
    assert actions + sent + end == actions + more;
    RunIsSafe(su, actions + sent);
    WholeStream(su, Run(su, actions + sent));
  }

  lemma CursorInStream(su: Setup, actions: seq<Action>)
    requires Connected(su, Run(su, actions))
    ensures Cursor(Run(su, actions).client) <= |su.stream|
  {
  }

  /** A streaming client whose cursor is at the end of the stream has delivered all of it. */
  lemma WholeStream(su: Setup, st: State)
    requires Safe(su, st) && Connected(su, st) && Cursor(st.client) == |su.stream|
    ensures st.client.leg.got.given == Flatten(su.stream)
  {
    hide Flatten;
    assert su.stream[..|su.stream|] == su.stream;
  }

  /** A dropped client with a reconnect left, and a session still alive. */
  ghost predicate CanResume(st: State)
  {
    st.client.phase.Dropped? && st.client.attempts < MAX_RESUME_ATTEMPTS && st.server.live && !st.cancel && !st.expired
  }

  /** One reconnect then makes a connection that goes on exactly where the last one stopped. */
  lemma ResumeConnects(su: Setup, actions: seq<Action>)
    requires CanResume(Run(su, actions))
    ensures var st, next := Run(su, actions), Run(su, actions + [Retry(true, true)]);
            && Connected(su, next) && Cursor(next.client) == Cursor(st.client)
            && next.client.leg.got.given == st.client.leg.got.given
            && next.client.reconnects == st.client.reconnects + 1
  {
    hide Run, ServeResume, LinkOk, ServerOk, ClientOk, CursorOk, Pruned;
    var st := Run(su, actions);
    RunIsSafe(su, actions);
    RunMore(su, actions, Retry(true, true));
    LiveSessionAlwaysResumes(su, actions);
    RearmKeepsClient(su, st.client);
    ServedServer(su, st.server, Cursor(st.client));
  }

  lemma ServedServer(su: Setup, s: Server, cursor: nat)
    requires cursor <= |su.stream|
    ensures var t := ServeResume(su, s, cursor);
            t.live == s.live && t.attached && t.last == cursor && t.appended == s.appended
  {
  }

  /**
   Whatever happened before, drops, losses, duplicates and reorderings included: a dropped download whose session
   lives and that has a reconnect left can be completed with every message delivered.
   */
  lemma DroppedCanComplete(su: Setup, actions: seq<Action>) returns (more: seq<Action>)
    requires Willing(su.world) && CanResume(Run(su, actions))
    ensures var c := Run(su, actions + more).client;
            c.phase == Over(Complete) && c.leg.got.given == Flatten(su.stream)
  {
    hide Run, Connected, Willing, Flatten, CanResume;
    ResumeConnects(su, actions);
    var rest := ConnectedCanComplete(su, actions + [Retry(true, true)]);
    more := [Retry(true, true)] + rest;
    assert actions + [Retry(true, true)] + rest == actions + more;
  }

  /** So can a session just opened. */
  lemma FreshCanComplete(su: Setup) returns (actions: seq<Action>)
    requires Willing(su.world)
    ensures var c := Run(su, actions).client;
            c.phase == Over(Complete) && c.leg.got.given == Flatten(su.stream)
  {
    hide Willing, Flatten;
    assert Window(su, 0, 0) == [];
    assert Connected(su, Run(su, []));
    actions := ConnectedCanComplete(su, []);
    assert [] + actions == actions;
  }

  // ---- How a session and a download end ----

  /**
   A reconnect of a dropped client, decided by what is left to it and by whether the session lives: nothing about
   the cursor can turn it away.
   */
  lemma RetryIsDecided(su: Setup, actions: seq<Action>, reconnected: bool, answered: bool)
    requires Run(su, actions).client.phase.Dropped?
    ensures var st := Run(su, actions);
            var next := Run(su, actions + [Retry(reconnected, answered)]).client;
            var spent, told := st.client.attempts >= MAX_RESUME_ATTEMPTS, st.cancel || st.expired;
            && (next.phase == Over(Unset) <==> spent)
            && (next.phase == Over(Cancelled) <==> !spent && told)
            && (next.phase == Over(Failed) <==> !spent && !told && reconnected && answered && !st.server.live)
            && (next.phase == Streaming <==> !spent && !told && reconnected && answered && st.server.live)
            && (next.phase == Dropped <==> !spent && !told && !(reconnected && answered))
            && next.attempts == st.client.attempts + (if !spent && !told then 1 else 0)
            && Cursor(next) == Cursor(st.client)
  {
    hide Run, ServeResume, LinkOk, ServerOk, CursorOk, Pruned;
    var st := Run(su, actions);
    RunIsSafe(su, actions);
    RunMore(su, actions, Retry(reconnected, answered));
    RearmKeepsClient(su, st.client);
    if st.server.live {
      LiveSessionAlwaysResumes(su, actions);
    }
  }

  /** What ends a live session: its last frame, a failing producer, the client's own cancel, or nobody coming back. */
  predicate EndsSession(st: State, a: Action)
  {
    match a
    case FailStream => !st.server.done
    case HonourCancel => Cancel in Requests(st.client)
    case Evict => !st.link.up
    case SendFinalEos =>
      && st.server.attached && st.link.up && st.server.done && |st.link.control| < CONTROL_CAPACITY
      && NextAfter(st.server.queue, st.server.last).None?
    case _ => false
  }

  lemma ServerStepEnds(su: Setup, st: State, a: Action)
    requires st.server.live
    ensures !ServerStep(su, st, a).server.live <==> EndsSession(st, a)
  {
    hide NextAfter, HasRoom, Pruned, EnvelopeOf, FrameOf, Requests;
  }

  lemma SessionEndsFor(su: Setup, st: State, a: Action)
    requires st.server.live
    ensures !Step(su, st, a).server.live <==> EndsSession(st, a)
  {
    hide NetworkStep, ClientStep, ServerStep;
    OthersKeepSession(su, st, a);
    ServerStepEnds(su, st, a);
  }

  /** Only the server's own steps end a session. */
  lemma OthersKeepSession(su: Setup, st: State, a: Action)
    ensures NetworkStep(su, st, a).server.live == st.server.live && ClientStep(su, st, a).server.live == st.server.live
  {
    hide Pass, Pruned;
  }

  /** A session that has ended stays ended, and queues nothing more. */
  lemma EndedSessionIsSilent(su: Setup, st: State, a: Action)
    requires !st.server.live
    ensures !Step(su, st, a).server.live && Step(su, st, a).server.queue == st.server.queue
    ensures |Step(su, st, a).link.control| <= |st.link.control| && |Step(su, st, a).link.bulk| <= |st.link.bulk|
  {
    hide NextAfter, HasRoom, Pruned, NetworkStep, ClientStep, EnvelopeOf;
    OthersKeepSilence(su, st, a);
  }

  lemma OthersKeepSilence(su: Setup, st: State, a: Action)
    requires !st.server.live
    ensures forall next | next == NetworkStep(su, st, a) || next == ClientStep(su, st, a) ::
              && !next.server.live && next.server.queue == st.server.queue
              && |next.link.control| <= |st.link.control| && |next.link.bulk| <= |st.link.bulk|
  {
    hide Pass, Pruned;
  }

  /** One control frame comes through to a client that is streaming. */
  lemma ControlComesThrough(su: Setup, actions: seq<Action>, f: Frame)
    requires var st := Run(su, actions);
             && st.client.phase.Streaming? && st.link.up && st.link.control != [] && st.link.control[0] == f
             && st.link.wire == []
    ensures var st, next := Run(su, actions), Run(su, actions + [WriteFrame, Deliver(false)]);
            && next.client == Settle(st.client, Pass(st.client.leg, TickOf(st, Some(f), false), su.world))
            && next.server == st.server && next.link == st.link.(control := st.link.control[1..])
            && next.cancel == st.cancel && next.expired == st.expired
  {
    hide Run, Pass;
    RunMore(su, actions, WriteFrame);
    RunMore(su, actions + [WriteFrame], Deliver(false));
    assert actions + [WriteFrame] + [Deliver(false)] == actions + [WriteFrame, Deliver(false)];
    assert [] + [f] == [f] && [f][1..] == [];
  }

  /** A producer that fails is reported: the client ends Failed, with what it had. */
  lemma FailureIsReported(su: Setup, actions: seq<Action>)
    requires Connected(su, Run(su, actions)) && !Run(su, actions).server.done
    ensures var st, next := Run(su, actions), Run(su, actions + [FailStream] + [WriteFrame, Deliver(false)]);
            next.client.phase == Over(Failed) && next.client.leg.got == st.client.leg.got && !next.server.live
  {
    hide Run, Safe, ClientStep, NetworkStep;
    RunIsSafe(su, actions);
    StreamingLeg(su, Run(su, actions));
    RunMore(su, actions, FailStream);
    ControlComesThrough(su, actions + [FailStream], StreamError);
  }

  /** A cancel is asked for with the next frame, honoured, and reported. */
  lemma CancelIsReported(su: Setup, actions: seq<Action>)
    requires Connected(su, Run(su, actions))
    ensures var st := Run(su, actions);
            var asked := actions + [RequestCancel] + [SendProgress] + [WriteFrame, Deliver(false)];
            var next := Run(su, asked + [HonourCancel] + [WriteFrame, Deliver(false)]);
            next.client.phase == Over(Cancelled) && next.client.leg.got == st.client.leg.got && !next.server.live
  {
    hide Run, Safe, NetworkStep, RetryStep;
    var st := Run(su, actions);
    RunMore(su, actions, RequestCancel);
    var a1 := actions + [RequestCancel];
    RunMore(su, a1, SendProgress);
    var a2 := a1 + [SendProgress];
    RunIsSafe(su, actions);
    StreamingLeg(su, st);
    ControlComesThrough(su, a2, Progress);
    var a3 := a2 + [WriteFrame, Deliver(false)];
    RunKeepsMarked(su, actions);
    CancelAsked(st.client.leg, su.world);
    RunMore(su, a3, HonourCancel);
    ControlComesThrough(su, a3 + [HonourCancel], EndOfStream(Cancelled, 0));
  }

  /** A cancel that counts as sent has been sent. */
  predicate SentIfMarked(leg: Leg)
  {
    leg.cancelSent ==> Cancel in leg.requests
  }

  lemma PassKeepsMarked(leg: Leg, tick: Tick, w: World)
    requires SentIfMarked(leg)
    ensures SentIfMarked(Pass(leg, tick, w))
  {
    hide Pass;
    PassAsksToCancel(leg, tick, w);
  }

  lemma StepKeepsMarked(su: Setup, st: State, a: Action)
    requires SentIfMarked(st.client.leg)
    ensures SentIfMarked(Step(su, st, a).client.leg)
  {
    hide Pass, NextAfter, HasRoom, Pruned;
    forall tick
      ensures SentIfMarked(Pass(st.client.leg, tick, su.world))
    {
      PassKeepsMarked(st.client.leg, tick, su.world);
    }
  }

  lemma {:induction false} RunKeepsMarked(su: Setup, actions: seq<Action>)
    ensures SentIfMarked(Run(su, actions).client.leg)
  {
    hide Step;
    if actions != [] {
      RunKeepsMarked(su, actions[..|actions| - 1]);
      StepKeepsMarked(su, Run(su, actions[..|actions| - 1]), actions[|actions| - 1]);
    }
  }

  lemma CancelAsked(leg: Leg, w: World)
    requires !leg.over && !leg.resumable && SentIfMarked(leg)
    ensures var next := Pass(leg, Tick(true, false, Some(Progress), false, true, false), w);
            !next.over && !next.resumable && next.got == leg.got && Cancel in next.requests
  {
  }
}
