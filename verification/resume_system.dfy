/**
 Client, server and network together. The server numbers the batches of one stream, retains them until
 acked, and sends them on a bulk lane that control frames overtake; the network may lose, duplicate or
 reorder; the client may drop, cancel, expire and resume. Every theorem is about all runs.
 */
module ResumeSystem {
  import opened Basics
  import opened ResumeClient
  import opened RetainBuffer

  type Stream = seq<seq<Message>>

  const BULK_CAPACITY := 16
  const CONTROL_CAPACITY := 64

  /**
   The session. `ledger` is the highest number recorded, `appended` the highest made visible; the
   attached consumer has sent everything up to `last`, `sent` messages in all.
   */
  datatype Server = Server(ledger: nat, appended: nat, queue: seq<Envelope>, done: bool, live: bool,
                           attached: bool, last: nat, sent: nat)

  /** One connection: two lanes on the server, then one ordered wire. */
  datatype Link = Link(up: bool, bulk: seq<Frame>, control: seq<Frame>, wire: seq<Frame>)

  datatype Phase = Streaming | Dropped | Over(eos: Eos)

  /** `total` is what earlier legs received, `asked` the requests they sent. */
  datatype Client = Client(total: Received, leg: Leg, asked: seq<Request>, attempts: nat, reconnects: nat, phase: Phase)

  /** Where the final Eos is. `behind` records how many batches it overtook when it was written. */
  datatype Final = NotSent | Queued | Written(behind: nat)

  datatype State = State(server: Server, link: Link, client: Client, cancel: bool, expired: bool,
                         tampered: bool, final: Final)

  /** The stream, the batch sizes, the buffer's bounds and the client's world. */
  datatype Setup = Setup(stream: Stream, size: nat -> nat, maxSeqs: nat, maxBytes: nat, world: World)

  datatype Action =
    | Record | Append | FinishProducing
    | SendNext | SendProgress | SendFinalEos | FailStream | HonourCancel | ServeAck(index: nat) | Evict
    | WriteFrame | Deliver(ackDue: bool) | Tamper(index: nat, ackDue: bool) | DropLink(keep: nat)
    | Silence | RequestCancel | Expire | Retry(reconnected: bool, answered: bool)

  // ---- Views ----

  /** The cursor, and everything ever passed to the sink. */
  function Cursor(c: Client): nat
  {
    c.leg.got.lastSeq
  }

  function Requests(c: Client): seq<Request>
  {
    c.asked + c.leg.requests
  }

  function Everything(c: Client): Received
  {
    Fold(c.total, c.leg.got)
  }

  function EnvelopeOf(su: Setup, number: nat): Envelope
    requires 1 <= number <= |su.stream|
  {
    Envelope(number, su.size(number), su.stream[number - 1])
  }

  function FrameOf(e: Envelope): Frame
  {
    Batch(e.number, e.messages)
  }

  function MessagesThrough(stream: Stream, n: nat): nat
    requires n <= |stream|
  {
    if n == 0 then 0 else MessagesThrough(stream, n - 1) + |stream[n - 1]|
  }

  // ---- The server's steps ----

  function Quiet(s: Server): Server
  {
    s.(live := false, attached := false)
  }

  function ServeResume(su: Setup, s: Server, cursor: nat): Server
    requires cursor <= |su.stream|
  {
    s.(queue := Pruned(s.queue, cursor), attached := true, last := cursor, sent := MessagesThrough(su.stream, cursor))
  }

  predicate MayServeResume(s: Server, cursor: nat)
  {
    s.live && cursor <= s.ledger
  }

  // ---- The client's steps ----

  function TickOf(st: State, f: Option<Frame>, ackDue: bool): Tick
  {
    Tick(st.cancel, st.expired, f, st.expired, st.cancel, ackDue)
  }

  /** The client after a pass of the frame loop: streaming on, dropped, or over. */
  function Settle(c: Client, leg: Leg): Client
  {
    c.(leg := leg, phase := if !leg.over then Streaming else if leg.resumable then Dropped else Over(leg.eos))
  }

  function Receiving(su: Setup, st: State, f: Option<Frame>, ackDue: bool): State
  {
    st.(client := Settle(st.client, Pass(st.client.leg, TickOf(st, f, ackDue), su.world)))
  }

  /** A reconnected client starts a new leg from its cursor. */
  function Rearm(c: Client): Client
  {
    var all := Everything(c);
    c.(total := all, asked := Requests(c), leg := NewLeg(LegSeed(all)), phase := Streaming)
  }

  function RetryStep(su: Setup, st: State, reconnected: bool, answered: bool): State
  {
    var c := st.client;
    if !c.phase.Dropped? then st
    else if c.attempts >= MAX_RESUME_ATTEMPTS then st.(client := c.(phase := Over(Unset)))
    else if st.cancel || st.expired then st.(client := c.(phase := Over(Cancelled)))
    else
      var tried := c.(attempts := c.attempts + 1, reconnects := c.reconnects + 1);
      if !reconnected then st.(client := tried)
      else if !MayServeResume(st.server, Cursor(c)) || Cursor(c) > |su.stream| then
        st.(client := if answered then tried.(phase := Over(Failed)) else tried)
      else
        var server := ServeResume(su, st.server, Cursor(c));
        if answered then st.(server := server, link := Link(true, [], [], []), client := Rearm(tried))
        else st.(server := server.(attached := false), client := tried)
  }

  // ---- One step of the whole ----

  function ServerStep(su: Setup, st: State, a: Action): State
  {
    var s, l := st.server, st.link;
    match a
    case Record =>
      if s.live && !s.done && s.ledger == s.appended < |su.stream| then st.(server := s.(ledger := s.ledger + 1))
      else st
    case Append =>
      if s.live && s.appended < s.ledger <= |su.stream| &&
         HasRoom(s.queue, EnvelopeOf(su, s.appended + 1), su.maxSeqs, su.maxBytes)
      then st.(server := s.(appended := s.appended + 1, queue := s.queue + [EnvelopeOf(su, s.appended + 1)]))
      else st
    case FinishProducing =>
      if s.live && s.appended == s.ledger == |su.stream| then st.(server := s.(done := true)) else st
    case SendNext =>
      var e := NextAfter(s.queue, s.last);
      if s.live && s.attached && l.up && |l.bulk| < BULK_CAPACITY && e.Some?
      then st.(link := l.(bulk := l.bulk + [FrameOf(e.value)]),
               server := s.(last := e.value.number, sent := s.sent + |e.value.messages|))
      else st
    case SendProgress =>
      if s.live && s.attached && l.up && |l.control| < CONTROL_CAPACITY
      then st.(link := l.(control := l.control + [Progress])) else st
    case SendFinalEos =>
      if s.live && s.attached && l.up && s.done && NextAfter(s.queue, s.last).None? && |l.control| < CONTROL_CAPACITY
      then st.(link := l.(control := l.control + [EndOfStream(Complete, s.sent)]), server := Quiet(s), final := Queued)
      else st
    case FailStream =>
      if s.live && !s.done then
        st.(server := Quiet(s),
            link := l.(control := l.control + if l.up then [StreamError, EndOfStream(Failed, 0)] else []))
      else st
    case HonourCancel =>
      if s.live && Cancel in Requests(st.client) then
        st.(server := Quiet(s), link := l.(control := l.control + if l.up then [EndOfStream(Cancelled, 0)] else []))
      else st
    case ServeAck(i) =>
      if s.live && i < |Requests(st.client)| && Requests(st.client)[i].Ack?
      then st.(server := s.(queue := Pruned(s.queue, Requests(st.client)[i].through)))
      else st
    case Evict => if !l.up then st.(server := Quiet(s)) else st
    case _ => st
  }

  function NetworkStep(su: Setup, st: State, a: Action): State
  {
    var l := st.link;
    match a
    case WriteFrame =>
      if !l.up then st
      else if l.control != [] then
        st.(link := l.(control := l.control[1..], wire := l.wire + [l.control[0]]),
            final := if l.control[0].EndOfStream? && l.control[0].reason == Complete then Written(|l.bulk|)
              else st.final)
      else if l.bulk != [] then st.(link := l.(bulk := l.bulk[1..], wire := l.wire + [l.bulk[0]]))
      else st
    case DropLink(keep) =>
      if keep <= |l.wire|
      then st.(link := Link(false, [], [], l.wire[..keep]), server := st.server.(attached := false)) else st
    case _ => st
  }

  function ClientStep(su: Setup, st: State, a: Action): State
  {
    var l := st.link;
    match a
    case Deliver(ackDue) =>
      if st.client.phase.Streaming? && l.wire != [] then
        Receiving(su, st.(link := l.(wire := l.wire[1..])), Some(l.wire[0]), ackDue)
      else st
    case Tamper(i, ackDue) =>
      if st.client.phase.Streaming? && i < |l.wire| then
        Receiving(su, st.(tampered := true), Some(l.wire[i]), ackDue)
      else st
    case Silence =>
      if st.client.phase.Streaming? then
        Receiving(su, st.(link := Link(false, [], [], []), server := st.server.(attached := false)), None, false)
      else st
    case RequestCancel => st.(cancel := true)
    case Expire => st.(expired := true)
    case Retry(reconnected, answered) => RetryStep(su, st, reconnected, answered)
    case _ => st
  }

  function Step(su: Setup, st: State, a: Action): State
  {
    if a.WriteFrame? || a.DropLink? then NetworkStep(su, st, a)
    else if a.Deliver? || a.Tamper? || a.Silence? || a.RequestCancel? || a.Expire? || a.Retry?
    then ClientStep(su, st, a)
    else ServerStep(su, st, a)
  }

  /** A session just opened: nothing produced, a consumer attached to the first connection. */
  function Init(): State
  {
    State(Server(0, 0, [], false, true, true, 0, 0), Link(true, [], [], []),
          Client(NOTHING, NewLeg(NOTHING), [], 0, 0, Streaming), false, false, false, NotSent)
  }

  function Run(su: Setup, actions: seq<Action>): State
  {
    if actions == [] then Init() else Step(su, Run(su, actions[..|actions| - 1]), actions[|actions| - 1])
  }

  // ---- Invariants ----

  /** Envelopes `lo + 1` to `hi`. */
  ghost function Window(su: Setup, lo: nat, hi: nat): (w: seq<Envelope>)
    requires lo <= hi <= |su.stream|
    ensures |w| == hi - lo
  {
    seq(hi - lo, i requires 0 <= i < hi - lo => EnvelopeOf(su, lo + i + 1))
  }

  /** The buffer holds a gapless run of batches, up to the last one appended. */
  ghost predicate ServerOk(su: Setup, s: Server)
  {
    && |s.queue| <= s.appended <= s.ledger <= |su.stream| && s.ledger <= s.appended + 1
    && s.queue == Window(su, s.appended - |s.queue|, s.appended)
    && (s.done ==> s.appended == |su.stream|)
  }

  ghost function PrunedThrough(s: Server): int
  {
    s.appended - |s.queue|
  }

  ghost predicate ClientOk(su: Setup, c: Client)
  {
    && InOrder(c.leg.got, su.stream)
    && Counted(c.total, su.world.sink) && CountsAgree(LegSeed(c.total), c.leg.got, su.world.sink)
    && AcksBehind(c.asked, Cursor(c)) && AcksBehind(c.leg.requests, Cursor(c))
    && c.reconnects <= c.attempts <= MAX_RESUME_ATTEMPTS
    && (c.phase.Streaming? ==> !c.leg.over && !c.leg.resumable && !c.leg.got.refused)
    && (c.phase.Dropped? ==> !c.leg.got.refused)
    && (!c.leg.got.refused ==> Accepted(su.world.sink, |c.leg.got.given|) == |c.leg.got.given|)
  }

  /** Every batch frame is genuine and numbered at most `n`. */
  ghost predicate FramesOk(su: Setup, frames: seq<Frame>, n: nat)
  {
    forall i | 0 <= i < |frames| && frames[i].Batch? :: Genuine(frames[i], su.stream) && frames[i].number <= n
  }

  ghost predicate LinkOk(su: Setup, s: Server, l: Link, cursor: nat)
  {
    && cursor <= s.last <= s.appended
    && s.last <= |su.stream| && s.sent == MessagesThrough(su.stream, s.last)
    && FramesOk(su, l.wire, s.last) && FramesOk(su, l.bulk, s.last)
    && FramesOk(su, l.control, 0)
  }

  /** Nothing the client still needs has been pruned, and nothing it has was never appended. */
  ghost predicate CursorOk(s: Server, cursor: nat)
  {
    PrunedThrough(s) <= cursor <= s.appended
  }

  ghost predicate Safe(su: Setup, st: State)
  {
    && ServerOk(su, st.server) && ClientOk(su, st.client) && CursorOk(st.server, Cursor(st.client))
    && (st.client.phase.Streaming? ==> LinkOk(su, st.server, st.link, Cursor(st.client)))
  }

  // ---- Runs of envelopes ----

  lemma {:induction false} PrunedWindow(su: Setup, lo: nat, hi: nat, through: nat)
    requires lo <= hi <= |su.stream|
    ensures Pruned(Window(su, lo, hi), through) ==
            if through <= lo then Window(su, lo, hi) else if through <= hi then Window(su, through, hi) else []
    decreases hi - lo
  {
    var w := Window(su, lo, hi);
    assert lo < hi ==> w[0] == EnvelopeOf(su, lo + 0 + 1);
    if lo < hi && through > lo {
      assert w[1..] == Window(su, lo + 1, hi);
      PrunedWindow(su, lo + 1, hi, through);
    }
    assert through == hi ==> Window(su, hi, hi) == [];
  }

  lemma {:induction false} NextInWindow(su: Setup, lo: nat, hi: nat, last: nat)
    requires lo <= hi <= |su.stream| && lo <= last
    ensures NextAfter(Window(su, lo, hi), last) == if last < hi then Some(EnvelopeOf(su, last + 1)) else None
    decreases hi - lo
  {
    var w := Window(su, lo, hi);
    assert lo < hi ==> w[0] == EnvelopeOf(su, lo + 0 + 1);
    if lo < hi && lo < last {
      assert w[1..] == Window(su, lo + 1, hi);
      NextInWindow(su, lo + 1, hi, last);
    }
  }

  /** Pruning through a number the client has already received keeps everything it may still need. */
  lemma PruneKeeps(su: Setup, s: Server, through: nat, cursor: nat)
    requires ServerOk(su, s) && CursorOk(s, cursor) && through <= cursor
    ensures var t := s.(queue := Pruned(s.queue, through));
            && ServerOk(su, t) && CursorOk(t, cursor)
            && (through >= PrunedThrough(s) ==> PrunedThrough(t) == through)
  {
    PrunedWindow(su, s.appended - |s.queue|, s.appended, through);
  }

  lemma NextIsNext(su: Setup, s: Server, cursor: nat)
    requires ServerOk(su, s) && CursorOk(s, cursor) && cursor <= s.last <= s.appended
    ensures NextAfter(s.queue, s.last) == if s.last < s.appended then Some(EnvelopeOf(su, s.last + 1)) else None
  {
    NextInWindow(su, s.appended - |s.queue|, s.appended, s.last);
  }

  lemma AppendKeeps(su: Setup, s: Server, cursor: nat)
    requires ServerOk(su, s) && CursorOk(s, cursor) && s.appended < s.ledger && !s.done
    ensures var t := s.(appended := s.appended + 1, queue := s.queue + [EnvelopeOf(su, s.appended + 1)]);
            ServerOk(su, t) && CursorOk(t, cursor)
  {
    var t := s.(appended := s.appended + 1, queue := s.queue + [EnvelopeOf(su, s.appended + 1)]);
    assert t.queue == Window(su, s.appended - |s.queue|, s.appended + 1);
  }

  // ---- Frames ----

  lemma FramesMore(su: Setup, frames: seq<Frame>, f: Frame, n: nat, m: nat)
    requires FramesOk(su, frames, n) && n <= m && (f.Batch? ==> Genuine(f, su.stream) && f.number <= m)
    ensures FramesOk(su, frames + [f], m)
  {
  }

  lemma FramesPrefix(su: Setup, frames: seq<Frame>, k: nat, n: nat)
    requires FramesOk(su, frames, n) && k <= |frames|
    ensures FramesOk(su, frames[..k], n)
  {
  }

  lemma FramesTail(su: Setup, frames: seq<Frame>, n: nat)
    requires FramesOk(su, frames, n) && frames != []
    ensures FramesOk(su, frames[1..], n)
  {
  }

  lemma FramesLater(su: Setup, frames: seq<Frame>, n: nat, m: nat)
    requires FramesOk(su, frames, n) && n <= m
    ensures FramesOk(su, frames, m)
  {
  }

  // ---- The server keeps the invariant ----

  lemma RecordSafe(su: Setup, st: State)
    requires Safe(su, st)
    ensures Safe(su, ServerStep(su, st, Record))
    ensures Safe(su, ServerStep(su, st, FinishProducing))
  {
    hide ClientOk, FramesOk, MessagesThrough, Window;
  }

  lemma AppendSafe(su: Setup, st: State)
    requires Safe(su, st)
    ensures Safe(su, ServerStep(su, st, Append))
  {
    hide ClientOk, FramesOk, MessagesThrough, HasRoom;
    if st.server.appended < st.server.ledger {
      AppendKeeps(su, st.server, Cursor(st.client));
    }
  }

  lemma SendNextSafe(su: Setup, st: State)
    requires Safe(su, st)
    ensures Safe(su, ServerStep(su, st, SendNext))
  {
    hide ClientOk, FramesOk, ServerOk, NextAfter;
    var s, l := st.server, st.link;
    if !st.client.phase.Streaming? {
      var e := NextAfter(s.queue, s.last);
      if e.Some? {
        SentKeepsServer(su, s, e.value.number, s.sent + |e.value.messages|);
      }
      return;
    }
    NextIsNext(su, s, Cursor(st.client));
    if s.last < s.appended {
      ServerBounds(su, s);
      var e := EnvelopeOf(su, s.last + 1);
      FramesMore(su, l.bulk, FrameOf(e), s.last, s.last + 1);
      FramesLater(su, l.wire, s.last, s.last + 1);
      SentKeepsServer(su, s, s.last + 1, s.sent + |e.messages|);
    }
  }

  lemma ServerBounds(su: Setup, s: Server)
    requires ServerOk(su, s)
    ensures s.appended <= |su.stream|
  {
  }

  lemma SentKeepsServer(su: Setup, s: Server, last: nat, sent: nat)
    requires ServerOk(su, s)
    ensures ServerOk(su, s.(last := last, sent := sent))
  {
  }

  /** Control frames other than batches join the control lane. */
  lemma ControlSafe(su: Setup, st: State, f: Frame)
    requires Safe(su, st) && !f.Batch?
    ensures Safe(su, st.(link := st.link.(control := st.link.control + [f])))
  {
    hide ClientOk, ServerOk, MessagesThrough, CursorOk;
    if st.client.phase.Streaming? {
      FramesMore(su, st.link.control, f, 0, 0);
    }
  }

  lemma QuietSafe(su: Setup, st: State)
    requires Safe(su, st)
    ensures Safe(su, st.(server := Quiet(st.server)))
  {
    hide ClientOk, FramesOk, MessagesThrough;
  }

  lemma EosSafe(su: Setup, st: State)
    requires Safe(su, st)
    ensures Safe(su, ServerStep(su, st, SendProgress)) && Safe(su, ServerStep(su, st, SendFinalEos))
    ensures Safe(su, ServerStep(su, st, Evict))
  {
    hide Safe, NextAfter;
    ControlSafe(su, st, Progress);
    ControlSafe(su, st, EndOfStream(Complete, st.server.sent));
    QuietSafe(su, st);
    var next := st.(link := st.link.(control := st.link.control + [EndOfStream(Complete, st.server.sent)]));
    QuietSafe(su, next);
    FinalIsHistory(su, next.(server := Quiet(next.server)), Queued);
  }

  lemma FinalIsHistory(su: Setup, st: State, final: Final)
    requires Safe(su, st)
    ensures Safe(su, st.(final := final))
  {
  }

  lemma FailSafe(su: Setup, st: State)
    requires Safe(su, st)
    ensures Safe(su, ServerStep(su, st, FailStream)) && Safe(su, ServerStep(su, st, HonourCancel))
  {
    hide Safe;
    QuietSafe(su, st);
    var q := st.(server := Quiet(st.server));
    ControlSafe(su, q, EndOfStream(Cancelled, 0));
    ControlSafe(su, q, StreamError);
    var r := q.(link := q.link.(control := q.link.control + [StreamError]));
    ControlSafe(su, r, EndOfStream(Failed, 0));
    assert st.link.control + [StreamError] + [EndOfStream(Failed, 0)] ==
           st.link.control + [StreamError, EndOfStream(Failed, 0)];
    assert st.link.control + [] == st.link.control;
  }

  /** Serving any ack the client ever sent, however late, is safe. */
  lemma AckSafe(su: Setup, st: State, i: nat)
    requires Safe(su, st)
    ensures Safe(su, ServerStep(su, st, ServeAck(i)))
  {
    hide FramesOk, MessagesThrough, ServerOk, InOrder, Counted, CountsAgree, Pruned;
    var c := st.client;
    if i < |Requests(c)| && Requests(c)[i].Ack? {
      assert Requests(c)[i].through <= Cursor(c);
      PruneKeeps(su, st.server, Requests(c)[i].through, Cursor(c));
    }
  }

  lemma ServerStepSafe(su: Setup, st: State, a: Action)
    requires Safe(su, st)
    ensures Safe(su, ServerStep(su, st, a))
  {
    hide Safe;
    match a {
      case Record => RecordSafe(su, st);
      case FinishProducing => RecordSafe(su, st);
      case Append => AppendSafe(su, st);
      case SendNext => SendNextSafe(su, st);
      case SendProgress => EosSafe(su, st);
      case SendFinalEos => EosSafe(su, st);
      case Evict => EosSafe(su, st);
      case FailStream => FailSafe(su, st);
      case HonourCancel => FailSafe(su, st);
      case ServeAck(i) => AckSafe(su, st, i);
      case _ =>
    }
  }

  // ---- The network keeps the invariant ----

  lemma NetworkStepSafe(su: Setup, st: State, a: Action)
    requires Safe(su, st)
    ensures Safe(su, NetworkStep(su, st, a))
  {
    hide ClientOk, ServerOk, MessagesThrough, FramesOk;
    var l, last := st.link, st.server.last;
    DetachKeepsServer(su, st.server);
    if st.client.phase.Streaming? {
      match a {
        case WriteFrame =>
          if l.control != [] {
            FramesTail(su, l.control, 0);
            FramesHead(su, l.control, 0);
            FramesMore(su, l.wire, l.control[0], last, last);
          } else if l.bulk != [] {
            FramesTail(su, l.bulk, last);
            FramesHead(su, l.bulk, last);
            FramesMore(su, l.wire, l.bulk[0], last, last);
          }
        case DropLink(keep) =>
          if keep <= |l.wire| {
            FramesPrefix(su, l.wire, keep, last);
            NoFrames(su, last);
            NoFrames(su, 0);
          }
        case _ =>
      }
    }
  }

  lemma FramesHead(su: Setup, frames: seq<Frame>, n: nat)
    requires FramesOk(su, frames, n) && frames != []
    ensures frames[0].Batch? ==> Genuine(frames[0], su.stream) && frames[0].number <= n
  {
  }

  lemma FramesAt(su: Setup, frames: seq<Frame>, n: nat, i: nat)
    requires FramesOk(su, frames, n) && i < |frames|
    ensures Genuine(frames[i], su.stream) && (frames[i].Batch? ==> frames[i].number <= n)
  {
  }

  lemma NoFrames(su: Setup, n: nat)
    ensures FramesOk(su, [], n)
  {
  }

  lemma DetachKeepsServer(su: Setup, s: Server)
    requires ServerOk(su, s)
    ensures ServerOk(su, s.(attached := false))
  {
  }

  // ---- The client keeps the invariant ----

  /** One pass over a genuine frame keeps the client's promises; the cursor moves by at most that batch. */
  lemma PassKeepsClient(su: Setup, c: Client, tick: Tick)
    requires ClientOk(su, c) && c.phase.Streaming?
    requires tick.frame.Some? ==> Genuine(tick.frame.value, su.stream)
    ensures var d := Settle(c, Pass(c.leg, tick, su.world));
            && ClientOk(su, d) && Cursor(c) <= Cursor(d)
            && (Cursor(d) == Cursor(c) ||
                (tick.frame.Some? && tick.frame.value.Batch? && tick.frame.value.number == Cursor(d) == Cursor(c) + 1))
  {
    hide Pass, InOrder, AcksBehind, Accepted, AcceptedBytes, Counted;
    var leg := Pass(c.leg, tick, su.world);
    PassReceives(c.leg, tick, su.world);
    PassKeepsOrder(c.leg, tick, su.world, su.stream);
    PassKeepsCounts(c.leg, tick, su.world);
    PassKeepsAcksBehind(c.leg, tick, su.world);
    LaterAcksBehind(c.asked, Cursor(c), leg.got.lastSeq);
    PassOverIfRefused(c.leg, tick, su.world);
    PassTakesAll(c.leg, tick, su.world);
  }

  /** Until a refusal, every callback so far was accepted. */
  lemma PassTakesAll(leg: Leg, tick: Tick, w: World)
    requires Accepted(w.sink, |leg.got.given|) == |leg.got.given| && !leg.got.refused
    ensures var got := Pass(leg, tick, w).got;
            !got.refused ==> Accepted(w.sink, |got.given|) == |got.given|
  {
    hide Pass, Accepted, AcceptedBytes;
    PassReceives(leg, tick, w);
    if TookBatch(leg, Pass(leg, tick, w), tick, w) {
      TakenIsAccepted(w.sink, |leg.got.given|, |tick.frame.value.messages|);
    }
  }

  lemma PassOverIfRefused(leg: Leg, tick: Tick, w: World)
    requires !leg.got.refused && !leg.over && !leg.resumable
    ensures var next := Pass(leg, tick, w);
            && (next.resumable ==> next.over)
            && (next.got.refused ==> next.over && !next.resumable)
  {
    hide Receive;
    PassReceives(leg, tick, w);
  }

  lemma ReceivingSafe(su: Setup, st: State, f: Option<Frame>, ackDue: bool)
    requires Safe(su, st) && st.client.phase.Streaming?
    requires f.Some? ==> Genuine(f.value, su.stream) && (f.value.Batch? ==> f.value.number <= st.server.last)
    ensures Safe(su, Receiving(su, st, f, ackDue))
  {
    hide Settle, ClientOk, ServerOk, FramesOk, MessagesThrough, Pass;
    PassKeepsClient(su, st.client, TickOf(st, f, ackDue));
  }

  lemma DeliverSafe(su: Setup, st: State, i: nat, ackDue: bool)
    requires Safe(su, st)
    ensures Safe(su, ClientStep(su, st, Deliver(ackDue))) && Safe(su, ClientStep(su, st, Tamper(i, ackDue)))
  {
    hide ClientOk, ServerOk, FramesOk, MessagesThrough, Receiving;
    var l, last := st.link, st.server.last;
    if st.client.phase.Streaming? {
      if l.wire != [] {
        FramesTail(su, l.wire, last);
        FramesAt(su, l.wire, last, 0);
        ReceivingSafe(su, st.(link := l.(wire := l.wire[1..])), Some(l.wire[0]), ackDue);
      }
      if i < |l.wire| {
        FramesAt(su, l.wire, last, i);
        ReceivingSafe(su, st.(tampered := true), Some(l.wire[i]), ackDue);
      }
    }
  }

  lemma SilenceSafe(su: Setup, st: State)
    requires Safe(su, st)
    ensures Safe(su, ClientStep(su, st, Silence))
  {
    hide ClientOk, ServerOk, FramesOk, MessagesThrough, Receiving;
    if st.client.phase.Streaming? {
      NoFrames(su, st.server.last);
      NoFrames(su, 0);
      DetachKeepsServer(su, st.server);
      ReceivingSafe(su, st.(link := Link(false, [], [], []), server := st.server.(attached := false)), None, false);
    }
  }

  lemma RearmKeepsClient(su: Setup, c: Client)
    requires ClientOk(su, c) && c.phase.Dropped?
    ensures ClientOk(su, Rearm(c)) && Cursor(Rearm(c)) == Cursor(c) && Rearm(c).leg.got.given == c.leg.got.given
  {
    hide Accepted, AcceptedBytes, Flatten;
    FoldCounts(c.total, c.leg.got, su.world.sink);
    JoinAcks(c.asked, Cursor(c), c.leg.requests, Cursor(c));
  }

  lemma TriedKeepsClient(su: Setup, c: Client, phase: Phase)
    requires ClientOk(su, c) && c.phase.Dropped? && !phase.Streaming?
    ensures ClientOk(su, c.(phase := phase))
    ensures c.attempts < MAX_RESUME_ATTEMPTS ==>
              ClientOk(su, c.(attempts := c.attempts + 1, reconnects := c.reconnects + 1, phase := phase))
  {
    hide InOrder, Counted, CountsAgree, AcksBehind;
  }

  /** A live session always serves a resume: the cursor is recorded, and all it needs is retained. */
  lemma ServeResumeSafe(su: Setup, s: Server, cursor: nat)
    requires ServerOk(su, s) && CursorOk(s, cursor)
    ensures cursor <= s.ledger && cursor <= |su.stream|
    ensures var t := ServeResume(su, s, cursor);
            && ServerOk(su, t) && CursorOk(t, cursor) && ServerOk(su, t.(attached := false))
            && t.queue == Window(su, cursor, s.appended)
            && LinkOk(su, t, Link(true, [], [], []), cursor)
  {
    hide MessagesThrough, Pruned;
    PruneKeeps(su, s, cursor, cursor);
    NoFrames(su, cursor);
    NoFrames(su, 0);
  }

  lemma RetrySafe(su: Setup, st: State, reconnected: bool, answered: bool)
    requires Safe(su, st)
    ensures Safe(su, RetryStep(su, st, reconnected, answered))
  {
    hide ClientOk, ServerOk, CursorOk, LinkOk, Rearm, ServeResume;
    var c := st.client;
    if c.phase.Dropped? {
      ServeResumeSafe(su, st.server, Cursor(c));
      ServeResumeCursor(su, st.server, Cursor(c));
      TriedKeepsClient(su, c, Dropped);
      TriedKeepsClient(su, c, Over(Cancelled));
      TriedKeepsClient(su, c, Over(Unset));
      TriedKeepsClient(su, c, Over(Failed));
      if c.attempts < MAX_RESUME_ATTEMPTS {
        RearmKeepsClient(su, c.(attempts := c.attempts + 1, reconnects := c.reconnects + 1));
      }
    }
  }

  lemma ServeResumeCursor(su: Setup, s: Server, cursor: nat)
    requires cursor <= |su.stream| && CursorOk(ServeResume(su, s, cursor), cursor)
    ensures CursorOk(ServeResume(su, s, cursor).(attached := false), cursor)
  {
  }

  lemma ClientStepSafe(su: Setup, st: State, a: Action)
    requires Safe(su, st)
    ensures Safe(su, ClientStep(su, st, a))
  {
    hide ClientOk, ServerOk, CursorOk, LinkOk, RetryStep, Receiving;
    match a {
      case Deliver(ackDue) => DeliverSafe(su, st, 0, ackDue);
      case Tamper(i, ackDue) => DeliverSafe(su, st, i, ackDue);
      case Silence => SilenceSafe(su, st);
      case Retry(reconnected, answered) => RetrySafe(su, st, reconnected, answered);
      case _ =>
    }
  }

  lemma {:induction false} RunIsSafe(su: Setup, actions: seq<Action>)
    ensures Safe(su, Run(su, actions))
  {
    if actions == [] {
      InitSafe(su);
    } else {
      hide Safe, ServerStep, NetworkStep, ClientStep;
      var front := Run(su, actions[..|actions| - 1]);
      var a := actions[|actions| - 1];
      RunIsSafe(su, actions[..|actions| - 1]);
      ServerStepSafe(su, front, a);
      NetworkStepSafe(su, front, a);
      ClientStepSafe(su, front, a);
    }
  }

  lemma InitSafe(su: Setup)
    ensures Safe(su, Init())
  {
    assert su.stream[..0] == [];
    assert Window(su, 0, 0) == [];
  }

  // ---- What every run promises ----

  /**
   Over every run, whatever is dropped, replayed, duplicated, reordered or cancelled: the messages passed
   to the sink are a prefix of the stream; every ack ever sent is at most the cursor; the counters count
   exactly the accepted callbacks and the batches behind the cursor; and there are at most three reconnects.
   */
  lemma DeliveryIsAPrefix(su: Setup, actions: seq<Action>)
    ensures var c := Run(su, actions).client;
            && c.leg.got.given <= Flatten(su.stream)
            && AcksBehind(Requests(c), Cursor(c))
            && Everything(c).batches == Cursor(c)
            && Everything(c).messages == Accepted(su.world.sink, |c.leg.got.given|)
            && Everything(c).bytes == AcceptedBytes(su.world.sink, c.leg.got.given)
            && c.reconnects <= MAX_RESUME_ATTEMPTS
  {
    hide Accepted, AcceptedBytes, Flatten, Run;
    RunIsSafe(su, actions);
    var c := Run(su, actions).client;
    FlattenPrefix(su.stream, Cursor(c));
    FoldCounts(c.total, c.leg.got, su.world.sink);
    JoinAcks(c.asked, Cursor(c), c.leg.requests, Cursor(c));
  }

  /**
   A server that discards only what was acked, or declared received by a resume, can always serve the next
   resume while the session lives: the cursor is accepted, and the buffer then starts exactly behind it.
   */
  lemma LiveSessionAlwaysResumes(su: Setup, actions: seq<Action>)
    requires Run(su, actions).server.live
    ensures var st := Run(su, actions);
            && MayServeResume(st.server, Cursor(st.client)) && Cursor(st.client) <= st.server.appended <= |su.stream|
            && ServeResume(su, st.server, Cursor(st.client)).queue == Window(su, Cursor(st.client), st.server.appended)
  {
    hide Run;
    RunIsSafe(su, actions);
    ServeResumeSafe(su, Run(su, actions).server, Cursor(Run(su, actions).client));
  }

  /** A latched cancel or a passed deadline is never undone, and from then on no step makes another reconnect. */
  lemma CancelStopsReconnects(su: Setup, st: State, a: Action)
    requires st.cancel || st.expired
    ensures Step(su, st, a).cancel || Step(su, st, a).expired
    ensures (st.cancel ==> Step(su, st, a).cancel) && (st.expired ==> Step(su, st, a).expired)
    ensures Step(su, st, a).client.reconnects == st.client.reconnects
  {
    hide Pass, NextAfter, HasRoom, Pruned;
  }
}
