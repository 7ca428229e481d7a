/**
 What Eos COMPLETE means to the client over a wire that keeps order. Control frames overtake batches on
 the server's write loop, so the final Eos can arrive before batches that were sent ahead of it.
 */
module ResumeCompletion {
  import opened Basics
  import opened ResumeClient
  import opened RetainBuffer
  import opened ResumeSystem

  // ---- Definitions ----

  function Batches(frames: seq<Frame>): seq<Frame>
  {
    if frames == [] then []
    else Batches(frames[..|frames| - 1]) + if frames[|frames| - 1].Batch? then [frames[|frames| - 1]] else []
  }

  /** The frames of batches `lo + 1` to `hi`. */
  ghost function Sent(stream: Stream, lo: nat, hi: nat): (f: seq<Frame>)
    requires lo <= hi <= |stream|
    ensures |f| == hi - lo
  {
    seq(hi - lo, i requires 0 <= i < hi - lo => Batch(lo + i + 1, stream[lo + i]))
  }

  predicate IsComplete(f: Frame)
  {
    f.EndOfStream? && f.reason == Complete
  }

  ghost predicate NoComplete(frames: seq<Frame>)
  {
    forall i | 0 <= i < |frames| :: !IsComplete(frames[i])
  }

  ghost predicate OneComplete(frames: seq<Frame>)
  {
    forall i, j | 0 <= i < j < |frames| :: !(IsComplete(frames[i]) && IsComplete(frames[j]))
  }

  /** A final Eos is sent once per session, and where it is, is known. */
  ghost predicate ControlOk(st: State)
  {
    && (st.server.live ==> st.final.NotSent?)
    && (if st.final.Queued? then OneComplete(st.link.control) else NoComplete(st.link.control))
  }

  /** Over an honest wire, the batches under way are exactly those after the cursor. */
  ghost predicate InStep(su: Setup, s: Server, l: Link, cursor: nat)
    requires cursor <= s.last <= |su.stream|
  {
    if l.up then Batches(l.wire) + l.bulk == Sent(su.stream, cursor, s.last)
    else l.bulk == [] && Batches(l.wire) <= Sent(su.stream, cursor, s.last)
  }

  /** A final Eos carries the whole stream's message count. */
  ghost predicate TrueTotal(su: Setup, s: Server, f: Frame)
  {
    IsComplete(f) ==> s.last == |su.stream| && f.total == MessagesThrough(su.stream, |su.stream|)
  }

  /** `behind` batches come after the final Eos at position `p` of the wire, or never. */
  ghost predicate Overtaken(su: Setup, wire: seq<Frame>, cursor: nat, behind: nat, p: nat)
    requires p < |wire|
  {
    IsComplete(wire[p]) ==> cursor + |Batches(wire[..p])| + behind == |su.stream|
  }

  ghost predicate WireOk(su: Setup, st: State)
  {
    && (forall i | 0 <= i < |st.link.control| :: TrueTotal(su, st.server, st.link.control[i]))
    && (forall i | 0 <= i < |st.link.wire| :: TrueTotal(su, st.server, st.link.wire[i]))
    && (if st.final.Written?
        then forall p | 0 <= p < |st.link.wire| :: Overtaken(su, st.link.wire, Cursor(st.client), st.final.behind, p)
        else NoComplete(st.link.wire))
  }

  ghost predicate StreamOk(su: Setup, st: State)
  {
    && LinkOk(su, st.server, st.link, Cursor(st.client)) && InStep(su, st.server, st.link, Cursor(st.client))
    && WireOk(su, st)
  }

  /** A download that ended Complete: exactly the overtaken batches are missing. */
  ghost predicate EndedComplete(su: Setup, st: State)
  {
    && st.final.Written? && Cursor(st.client) + st.final.behind == |su.stream|
    && st.client.leg.eosTotal == MessagesThrough(su.stream, |su.stream|)
    && !st.client.leg.got.refused
  }

  ghost predicate Honest(su: Setup, st: State)
  {
    && Safe(su, st) && ControlOk(st)
    && (!st.tampered && st.client.phase.Streaming? ==> StreamOk(su, st))
    && (!st.tampered && st.client.phase == Over(Complete) ==> EndedComplete(su, st))
  }

  // ---- Sequences of frames ----

  lemma {:induction false} BatchesConcat(a: seq<Frame>, b: seq<Frame>)
    ensures Batches(a + b) == Batches(a) + Batches(b)
  {
    if b == [] {
      assert a + b == a;
    } else {
      hide Batches;
      var front, f := b[..|b| - 1], b[|b| - 1];
      BatchesConcat(a, front);
      BatchesMore(front, f);
      BatchesMore(a + front, f);
      assert b == front + [f] && a + b == a + front + [f];
    }
  }

  lemma BatchesOne(f: Frame)
    ensures Batches([f]) == if f.Batch? then [f] else []
  {
    assert [f][..0] == [];
  }

  lemma BatchesHead(frames: seq<Frame>)
    requires frames != []
    ensures Batches(frames) == (if frames[0].Batch? then [frames[0]] else []) + Batches(frames[1..])
  {
    assert frames == [frames[0]] + frames[1..];
    BatchesConcat([frames[0]], frames[1..]);
    BatchesOne(frames[0]);
  }

  lemma BatchesMore(frames: seq<Frame>, f: Frame)
    ensures Batches(frames + [f]) == Batches(frames) + if f.Batch? then [f] else []
  {
    assert (frames + [f])[..|frames|] == frames;
  }

  lemma {:induction false} BatchesPrefix(frames: seq<Frame>, k: nat)
    requires k <= |frames|
    ensures Batches(frames[..k]) <= Batches(frames)
  {
    if k == |frames| {
      assert frames[..k] == frames;
    } else {
      var front := frames[..|frames| - 1];
      BatchesPrefix(front, k);
      assert front[..k] == frames[..k];
    }
  }

  lemma SentHead(stream: Stream, lo: nat, hi: nat)
    requires lo < hi <= |stream|
    ensures Sent(stream, lo, hi)[0] == Batch(lo + 1, stream[lo])
    ensures Sent(stream, lo, hi)[1..] == Sent(stream, lo + 1, hi)
  {
    assert Sent(stream, lo, hi)[0] == Batch(lo + 0 + 1, stream[lo + 0]);
  }

  lemma SentMore(stream: Stream, lo: nat, hi: nat)
    requires lo <= hi < |stream|
    ensures Sent(stream, lo, hi + 1) == Sent(stream, lo, hi) + [Batch(hi + 1, stream[hi])]
  {
  }

  // ---- The lanes ----

  lemma SendNextInStep(su: Setup, s: Server, l: Link, cursor: nat, sent: nat)
    requires cursor <= s.last < |su.stream| && InStep(su, s, l, cursor) && l.up
    ensures var b := Batch(s.last + 1, su.stream[s.last]);
            InStep(su, s.(last := s.last + 1, sent := sent), l.(bulk := l.bulk + [b]), cursor)
  {
    hide Batches, Sent;
    SentMore(su.stream, cursor, s.last);
    var b := Batch(s.last + 1, su.stream[s.last]);
    assert Batches(l.wire) + (l.bulk + [b]) == Batches(l.wire) + l.bulk + [b];
  }

  lemma WriteBulkInStep(su: Setup, s: Server, l: Link, cursor: nat)
    requires cursor <= s.last <= |su.stream| && InStep(su, s, l, cursor) && l.up && l.bulk != []
    ensures l.bulk[0].Batch?
    ensures InStep(su, s, l.(bulk := l.bulk[1..], wire := l.wire + [l.bulk[0]]), cursor)
  {
    hide Batches;
    BatchesMore(l.wire, l.bulk[0]);
    assert (Batches(l.wire) + l.bulk)[|Batches(l.wire)|] == l.bulk[0];
    assert Batches(l.wire) + [l.bulk[0]] + l.bulk[1..] == Batches(l.wire) + l.bulk;
  }

  lemma WriteControlInStep(su: Setup, s: Server, l: Link, cursor: nat)
    requires cursor <= s.last <= |su.stream| && InStep(su, s, l, cursor) && l.up
    requires l.control != [] && !l.control[0].Batch?
    ensures InStep(su, s, l.(control := l.control[1..], wire := l.wire + [l.control[0]]), cursor)
  {
    hide Batches, Sent;
    BatchesMore(l.wire, l.control[0]);
  }

  /** Taking the head of the wire: either not a batch, or the very next one. */
  lemma HeadInStep(su: Setup, s: Server, l: Link, cursor: nat)
    requires cursor <= s.last <= |su.stream| && InStep(su, s, l, cursor) && l.wire != []
    ensures var rest := l.(wire := l.wire[1..]);
            if l.wire[0].Batch?
            then l.wire[0].number == cursor + 1 <= s.last && InStep(su, s, rest, cursor + 1)
            else InStep(su, s, rest, cursor)
  {
    hide Batches, Sent;
    BatchesHead(l.wire);
    var tail := Batches(l.wire[1..]);
    if l.wire[0].Batch? {
      var all := Sent(su.stream, cursor, s.last);
      assert ([l.wire[0]] + tail) + l.bulk == [l.wire[0]] + (tail + l.bulk);
      assert all[0] == l.wire[0];
      SentHead(su.stream, cursor, s.last);
      assert ([l.wire[0]] + tail)[1..] == tail;
      assert ([l.wire[0]] + (tail + l.bulk))[1..] == tail + l.bulk;
    } else {
      assert [] + tail == tail;
    }
  }

  /** The wire's final Eos keeps its place while frames before it are consumed. */
  lemma HeadOvertaken(su: Setup, wire: seq<Frame>, cursor: nat, behind: nat, p: nat)
    requires p + 1 < |wire| && Overtaken(su, wire, cursor, behind, p + 1)
    ensures Overtaken(su, wire[1..], cursor + (if wire[0].Batch? then 1 else 0), behind, p)
  {
    assert wire[..p + 1][1..] == wire[1..][..p];
    BatchesHead(wire[..p + 1]);
  }

  lemma MoreOvertaken(su: Setup, wire: seq<Frame>, f: Frame, cursor: nat, behind: nat, p: nat)
    requires p < |wire| && Overtaken(su, wire, cursor, behind, p)
    ensures Overtaken(su, wire + [f], cursor, behind, p)
  {
    assert (wire + [f])[..p] == wire[..p];
  }

  // ---- The server's steps ----

  /** A server step that leaves the lanes, the consumer and the client alone. */
  lemma ElsewhereHonest(su: Setup, st: State, next: State)
    requires Honest(su, st) && Safe(su, next)
    requires next.link == st.link && next.client == st.client && next.final == st.final && next.tampered == st.tampered
    requires next.server.last == st.server.last && (next.server.live ==> st.server.live)
    ensures Honest(su, next)
  {
    hide Safe, Batches, MessagesThrough, LinkOk;
    if !st.tampered && st.client.phase.Streaming? {
      SafeLink(su, next);
      SafeLink(su, st);
      assert WireOk(su, next) by {
        hide InStep, LinkOk;
      }
    }
  }

  lemma SafeLink(su: Setup, st: State)
    requires Safe(su, st) && st.client.phase.Streaming?
    ensures LinkOk(su, st.server, st.link, Cursor(st.client))
    ensures Cursor(st.client) <= st.server.last <= st.server.appended <= |su.stream|
  {
  }

  lemma SendNextHonest(su: Setup, st: State)
    requires Honest(su, st)
    ensures Honest(su, ServerStep(su, st, SendNext))
  {
    hide Batches, MessagesThrough, LinkOk, FramesOk, NextAfter, ClientOk, ServerOk, Overtaken;
    var next := ServerStep(su, st, SendNext);
    SendNextSafe(su, st);
    if next != st && !st.tampered && st.client.phase.Streaming? {
      var s, cursor := st.server, Cursor(st.client);
      SafeLink(su, st);
      SafeLink(su, next);
      NextIsNext(su, s, cursor);
      SendNextInStep(su, s, st.link, cursor, next.server.sent);
      assert next.server == s.(last := s.last + 1, sent := next.server.sent);
    }
  }

  /** A frame that is not a final Eos joins the control lane. */
  lemma ControlHonest(su: Setup, st: State, f: Frame)
    requires Honest(su, st) && !f.Batch? && !IsComplete(f)
    ensures Honest(su, st.(link := st.link.(control := st.link.control + [f])))
  {
    hide Safe, Batches, MessagesThrough, LinkOk, Overtaken;
    var next := st.(link := st.link.(control := st.link.control + [f]));
    ControlSafe(su, st, f);
    if !st.tampered && st.client.phase.Streaming? {
      SafeLink(su, st);
      SafeLink(su, next);
    }
  }

  lemma QuietHonest(su: Setup, st: State)
    requires Honest(su, st)
    ensures Honest(su, st.(server := Quiet(st.server)))
  {
    hide Honest, Safe;
    HonestIsSafe(su, st);
    QuietSafe(su, st);
    ElsewhereHonest(su, st, st.(server := Quiet(st.server)));
  }

  lemma HonestIsSafe(su: Setup, st: State)
    requires Honest(su, st)
    ensures Safe(su, st)
  {
  }

  lemma FinalEosHonest(su: Setup, st: State)
    requires Honest(su, st)
    ensures Honest(su, ServerStep(su, st, SendFinalEos))
  {
    hide Batches, MessagesThrough, FramesOk, NextAfter, ClientOk, ServerOk, Overtaken;
    var next := ServerStep(su, st, SendFinalEos);
    EosSafe(su, st);
    if next != st {
      var eos := EndOfStream(Complete, st.server.sent);
      assert OneComplete(st.link.control + [eos]);
      if !st.tampered && st.client.phase.Streaming? {
        SafeLink(su, st);
        SafeLink(su, next);
        NextIsNext(su, st.server, Cursor(st.client));
        DoneMeansAll(su, st.server);
        assert TrueTotal(su, next.server, eos);
      }
    }
  }

  lemma DoneMeansAll(su: Setup, s: Server)
    requires ServerOk(su, s) && s.done
    ensures s.appended == |su.stream|
  {
  }

  lemma FailHonest(su: Setup, st: State)
    requires Honest(su, st)
    ensures Honest(su, ServerStep(su, st, FailStream)) && Honest(su, ServerStep(su, st, HonourCancel))
  {
    hide Honest;
    QuietHonest(su, st);
    var q := st.(server := Quiet(st.server));
    ControlHonest(su, q, EndOfStream(Cancelled, 0));
    ControlHonest(su, q, StreamError);
    var r := q.(link := q.link.(control := q.link.control + [StreamError]));
    ControlHonest(su, r, EndOfStream(Failed, 0));
    assert st.link.control + [StreamError] + [EndOfStream(Failed, 0)] ==
           st.link.control + [StreamError, EndOfStream(Failed, 0)];
    assert st.link.control + [] == st.link.control;
  }

  lemma ServerStepHonest(su: Setup, st: State, a: Action)
    requires Honest(su, st)
    ensures Honest(su, ServerStep(su, st, a))
  {
    hide Honest, Safe, NextAfter, HasRoom, Pruned;
    HonestIsSafe(su, st);
    match a {
      case SendNext => SendNextHonest(su, st);
      case SendProgress => ControlHonest(su, st, Progress);
      case SendFinalEos => FinalEosHonest(su, st);
      case FailStream => FailHonest(su, st);
      case HonourCancel => FailHonest(su, st);
      case Evict => QuietHonest(su, st);
      case _ =>
        ServerStepSafe(su, st, a);
        ElsewhereHonest(su, st, ServerStep(su, st, a));
    }
  }

  // ---- The network's steps ----

  /** Writing the final Eos fixes how many batches it overtakes: all that wait on the bulk lane. */
  lemma WriteFinalHonest(su: Setup, st: State)
    requires Honest(su, st) && st.link.up && st.link.control != [] && IsComplete(st.link.control[0])
    ensures Honest(su, NetworkStep(su, st, WriteFrame))
  {
    hide Batches, MessagesThrough, LinkOk, FramesOk, Sent, ClientOk, ServerOk;
    var l := st.link;
    var next := NetworkStep(su, st, WriteFrame);
    NetworkStepSafe(su, st, WriteFrame);
    assert st.final.Queued?;
    assert NoComplete(l.control[1..]) by {
      assert forall i | 0 <= i < |l.control[1..]| :: l.control[1..][i] == l.control[i + 1];
    }
    if !st.tampered && st.client.phase.Streaming? {
      SafeLink(su, st);
      SafeLink(su, next);
      WriteControlInStep(su, st.server, l, Cursor(st.client));
      assert TrueTotal(su, st.server, l.control[0]);
      var wire := next.link.wire;
      forall p | 0 <= p < |wire|
        ensures Overtaken(su, wire, Cursor(st.client), |l.bulk|, p)
      {
        if p < |l.wire| {
          assert wire[p] == l.wire[p];
        } else {
          assert wire[..p] == l.wire;
          assert |Batches(l.wire) + l.bulk| == |Batches(l.wire)| + |l.bulk|;
        }
      }
    }
  }

  lemma WriteControlHonest(su: Setup, st: State)
    requires Honest(su, st) && st.link.up && st.link.control != [] && !IsComplete(st.link.control[0])
    ensures Honest(su, NetworkStep(su, st, WriteFrame))
  {
    hide Batches, MessagesThrough, FramesOk, Sent, ClientOk, ServerOk, Overtaken;
    var l := st.link;
    var next := NetworkStep(su, st, WriteFrame);
    NetworkStepSafe(su, st, WriteFrame);
    assert forall i | 0 <= i < |l.control[1..]| :: l.control[1..][i] == l.control[i + 1];
    if !st.tampered && st.client.phase.Streaming? {
      SafeLink(su, st);
      SafeLink(su, next);
      FramesAt(su, l.control, 0, 0);
      NotABatch(su, l.control);
      WriteControlInStep(su, st.server, l, Cursor(st.client));
      WrittenKeepsWire(su, st, l.control[0]);
    }
  }

  lemma NotABatch(su: Setup, control: seq<Frame>)
    requires FramesOk(su, control, 0) && control != []
    ensures !control[0].Batch?
  {
  }

  lemma WrittenKeepsWire(su: Setup, st: State, f: Frame)
    requires WireOk(su, st) && !IsComplete(f)
    ensures WireOk(su, st.(link := st.link.(wire := st.link.wire + [f])))
  {
    hide Overtaken;
    var wire := st.link.wire + [f];
    if st.final.Written? {
      forall p | 0 <= p < |wire|
        ensures Overtaken(su, wire, Cursor(st.client), st.final.behind, p)
      {
        if p < |st.link.wire| {
          MoreOvertaken(su, st.link.wire, f, Cursor(st.client), st.final.behind, p);
        } else {
          NotOvertaken(su, wire, Cursor(st.client), st.final.behind, p);
        }
      }
    }
  }

  lemma NotOvertaken(su: Setup, wire: seq<Frame>, cursor: nat, behind: nat, p: nat)
    requires p < |wire| && !IsComplete(wire[p])
    ensures Overtaken(su, wire, cursor, behind, p)
  {
  }

  lemma WriteBulkHonest(su: Setup, st: State)
    requires Honest(su, st) && st.link.up && st.link.control == [] && st.link.bulk != []
    ensures Honest(su, NetworkStep(su, st, WriteFrame))
  {
    hide Batches, MessagesThrough, FramesOk, Sent, ClientOk, ServerOk, Overtaken;
    var l := st.link;
    var next := NetworkStep(su, st, WriteFrame);
    NetworkStepSafe(su, st, WriteFrame);
    if !st.tampered && st.client.phase.Streaming? {
      SafeLink(su, st);
      SafeLink(su, next);
      WriteBulkInStep(su, st.server, l, Cursor(st.client));
      WrittenKeepsWire(su, st, l.bulk[0]);
    }
  }

  lemma DropHonest(su: Setup, st: State, keep: nat)
    requires Honest(su, st)
    ensures Honest(su, NetworkStep(su, st, DropLink(keep)))
  {
    hide Batches, MessagesThrough, FramesOk, Sent, ClientOk, ServerOk;
    var next := NetworkStep(su, st, DropLink(keep));
    NetworkStepSafe(su, st, DropLink(keep));
    if keep <= |st.link.wire| && !st.tampered && st.client.phase.Streaming? {
      SafeLink(su, st);
      SafeLink(su, next);
      var wire := st.link.wire;
      BatchesPrefix(wire, keep);
      assert Batches(wire) <= Batches(wire) + st.link.bulk;
      assert Batches(wire[..keep]) <= Sent(su.stream, Cursor(st.client), st.server.last);
      assert InStep(su, next.server, next.link, Cursor(st.client));
      ShorterWire(su, st, keep);
      assert next.link == Link(false, [], [], wire[..keep]);
    }
  }

  lemma ShorterWire(su: Setup, st: State, keep: nat)
    requires WireOk(su, st) && keep <= |st.link.wire|
    ensures WireOk(su, st.(link := Link(false, [], [], st.link.wire[..keep]), server := st.server.(attached := false)))
  {
    hide Batches, MessagesThrough;
    var wire := st.link.wire;
    if st.final.Written? {
      forall p | 0 <= p < |wire[..keep]|
        ensures Overtaken(su, wire[..keep], Cursor(st.client), st.final.behind, p)
      {
        assert Overtaken(su, wire, Cursor(st.client), st.final.behind, p);
        assert wire[..keep][..p] == wire[..p];
      }
    }
  }

  lemma NetworkStepHonest(su: Setup, st: State, a: Action)
    requires Honest(su, st)
    ensures Honest(su, NetworkStep(su, st, a))
  {
    hide Honest;
    match a {
      case WriteFrame =>
        if st.link.up {
          if st.link.control != [] {
            if IsComplete(st.link.control[0]) {
              WriteFinalHonest(su, st);
            } else {
              WriteControlHonest(su, st);
            }
          } else if st.link.bulk != [] {
            WriteBulkHonest(su, st);
          }
        }
      case DropLink(keep) => DropHonest(su, st, keep);
      case _ =>
    }
  }

  // ---- The client's steps ----

  /** What a delivered frame does to a streaming leg. */
  lemma DeliverOutcome(leg: Leg, tick: Tick, w: World)
    requires tick.frame.Some? && !leg.over && !leg.resumable
    ensures var f, next := tick.frame.value, Pass(leg, tick, w);
            && !next.resumable
            && (!next.over ==>
                  if f.Batch? then next.got.lastSeq == leg.got.lastSeq + 1 else f.Progress? && next.got == leg.got)
            && (next.over && next.eos == Complete ==> IsComplete(f) && next.got == leg.got && next.eosTotal == f.total)
  {
  }

  lemma TailWire(su: Setup, st: State, client: Client)
    requires WireOk(su, st) && st.link.wire != []
    requires Cursor(client) == Cursor(st.client) + if st.link.wire[0].Batch? then 1 else 0
    ensures WireOk(su, st.(link := st.link.(wire := st.link.wire[1..]), client := client))
  {
    hide Overtaken, MessagesThrough;
    var wire := st.link.wire;
    if st.final.Written? {
      forall p | 0 <= p < |wire[1..]|
        ensures Overtaken(su, wire[1..], Cursor(client), st.final.behind, p)
      {
        HeadOvertaken(su, wire, Cursor(st.client), st.final.behind, p);
      }
    }
  }

  lemma DeliverHonest(su: Setup, st: State, ackDue: bool)
    requires Honest(su, st) && st.client.phase.Streaming? && st.link.wire != []
    ensures Honest(su, ClientStep(su, st, Deliver(ackDue)))
  {
    hide Batches, MessagesThrough, LinkOk, Sent, ServerOk, Pass, Overtaken, TrueTotal;
    var next := ClientStep(su, st, Deliver(ackDue));
    DeliverSafe(su, st, 0, ackDue);
    var f, leg := st.link.wire[0], st.client.leg;
    var tick := TickOf(st, Some(f), ackDue);
    DeliverOutcome(leg, tick, su.world);
    assert next.client == Settle(st.client, Pass(leg, tick, su.world));
    if !st.tampered {
      SafeLink(su, st);
      HeadInStep(su, st.server, st.link, Cursor(st.client));
      if next.client.phase.Streaming? {
        SafeLink(su, next);
        TailWire(su, st, next.client);
        assert next == st.(link := st.link.(wire := st.link.wire[1..]), client := next.client);
      } else if next.client.phase == Over(Complete) {
        FinalDelivered(su, st);
      }
    }
  }

  /** The final Eos at the head of the wire: everything is received but what it overtook. */
  lemma FinalDelivered(su: Setup, st: State)
    requires WireOk(su, st) && st.link.wire != [] && IsComplete(st.link.wire[0])
    ensures st.final.Written? && Cursor(st.client) + st.final.behind == |su.stream|
    ensures st.link.wire[0].total == MessagesThrough(su.stream, |su.stream|)
  {
    hide MessagesThrough;
    assert TrueTotal(su, st.server, st.link.wire[0]);
    if st.final.Written? {
      assert Overtaken(su, st.link.wire, Cursor(st.client), st.final.behind, 0);
      assert st.link.wire[..0] == [];
    }
  }

  lemma SilenceNeverComplete(leg: Leg, tick: Tick, w: World)
    requires tick.frame.None?
    ensures Pass(leg, tick, w).over && Pass(leg, tick, w).eos != Complete
  {
  }

  lemma SilenceHonest(su: Setup, st: State)
    requires Honest(su, st) && st.client.phase.Streaming?
    ensures Honest(su, ClientStep(su, st, Silence))
  {
    hide LinkOk, ServerOk, ClientOk, Pass, StreamOk;
    SilenceSafe(su, st);
    SilenceNeverComplete(st.client.leg, TickOf(st, None, false), su.world);
  }

  lemma TamperHonest(su: Setup, st: State, i: nat, ackDue: bool)
    requires Honest(su, st)
    ensures Honest(su, ClientStep(su, st, Tamper(i, ackDue)))
  {
    hide LinkOk, ServerOk, ClientOk, Pass, StreamOk;
    DeliverSafe(su, st, i, ackDue);
  }

  lemma FreshLinkHonest(su: Setup, st: State)
    requires Safe(su, st) && ControlOk(st) && st.client.phase.Streaming?
    requires st.link == Link(true, [], [], []) && st.server.last == Cursor(st.client) && st.server.live
    ensures Honest(su, st)
  {
    hide ServerOk, ClientOk, MessagesThrough;
    SafeLink(su, st);
    assert Sent(su.stream, Cursor(st.client), st.server.last) == [];
  }

  lemma RetryHonest(su: Setup, st: State, reconnected: bool, answered: bool)
    requires Honest(su, st)
    ensures Honest(su, RetryStep(su, st, reconnected, answered))
  {
    hide LinkOk, ServerOk, ClientOk, StreamOk, CursorOk, MessagesThrough, Pruned;
    RetrySafe(su, st, reconnected, answered);
    var next := RetryStep(su, st, reconnected, answered);
    if st.client.phase.Dropped? && next.client.phase.Streaming? {
      assert ControlOk(next);
      FreshLinkHonest(su, next);
    }
  }

  lemma FlagHonest(su: Setup, st: State, cancel: bool, expired: bool)
    requires Honest(su, st)
    ensures Honest(su, st.(cancel := cancel, expired := expired))
  {
    hide LinkOk, ServerOk, ClientOk, InStep, Overtaken, TrueTotal;
  }

  lemma ClientStepHonest(su: Setup, st: State, a: Action)
    requires Honest(su, st)
    ensures Honest(su, ClientStep(su, st, a))
  {
    hide Honest, RetryStep, Receiving;
    match a {
      case Deliver(ackDue) =>
        if st.client.phase.Streaming? && st.link.wire != [] {
          DeliverHonest(su, st, ackDue);
        }
      case Tamper(i, ackDue) => TamperHonest(su, st, i, ackDue);
      case Silence =>
        if st.client.phase.Streaming? {
          SilenceHonest(su, st);
        }
      case RequestCancel => FlagHonest(su, st, true, st.expired);
      case Expire => FlagHonest(su, st, st.cancel, true);
      case Retry(reconnected, answered) => RetryHonest(su, st, reconnected, answered);
      case _ =>
    }
  }

  lemma {:induction false} RunIsHonest(su: Setup, actions: seq<Action>)
    ensures Honest(su, Run(su, actions))
  {
    if actions == [] {
      InitSafe(su);
      FreshLinkHonest(su, Init());
    } else {
      hide Honest, ServerStep, NetworkStep, ClientStep;
      var front, a := Run(su, actions[..|actions| - 1]), actions[|actions| - 1];
      RunIsHonest(su, actions[..|actions| - 1]);
      ServerStepHonest(su, front, a);
      NetworkStepHonest(su, front, a);
      ClientStepHonest(su, front, a);
    }
  }

  // ---- What Eos COMPLETE means ----

  /** The producer never emits an empty batch. */
  ghost predicate NoEmptyBatch(stream: Stream)
  {
    forall i | 0 <= i < |stream| :: stream[i] != []
  }

  lemma {:induction false} FlattenLength(stream: Stream, n: nat)
    requires n <= |stream|
    ensures |Flatten(stream[..n])| == MessagesThrough(stream, n)
  {
    if n > 0 {
      FlattenLength(stream, n - 1);
      FlattenStep(stream, n - 1);
    }
  }

  lemma {:induction false} MessagesGrow(stream: Stream, n: nat, m: nat)
    requires n <= m <= |stream| && NoEmptyBatch(stream)
    ensures MessagesThrough(stream, n) + (m - n) <= MessagesThrough(stream, m)
    decreases m
  {
    if n < m {
      MessagesGrow(stream, n, m - 1);
      assert stream[m - 1] != [];
    }
  }

  /**
   Over a wire that keeps order, a download that ends with Eos COMPLETE has received the stream but for its
   last `behind` batches, the ones that were waiting on the bulk lane when the Eos was written. So the whole
   stream was delivered exactly when the bulk lane was empty then, and the Eos total reveals which: it is
   the whole stream's message count, and equals the messages received exactly in that case.
   */
  lemma CompleteMeansAllIff(su: Setup, actions: seq<Action>)
    requires NoEmptyBatch(su.stream)
    requires !Run(su, actions).tampered && Run(su, actions).client.phase == Over(Complete)
    ensures var st := Run(su, actions);
            && st.final.Written? && Cursor(st.client) + st.final.behind == |su.stream|
            && (st.client.leg.got.given == Flatten(su.stream) <==> st.final.behind == 0)
            && st.client.leg.eosTotal == |Flatten(su.stream)|
            && (Everything(st.client).messages == st.client.leg.eosTotal <==> st.final.behind == 0)
  {
    hide Run, Flatten, Accepted, AcceptedBytes, MessagesThrough;
    RunIsHonest(su, actions);
    var st := Run(su, actions);
    var cursor := Cursor(st.client);
    FlattenLength(su.stream, cursor);
    FlattenLength(su.stream, |su.stream|);
    assert su.stream[..|su.stream|] == su.stream;
    MessagesGrow(su.stream, cursor, |su.stream|);
    FoldCounts(st.client.total, st.client.leg.got, su.world.sink);
  }

  lemma RunMore(su: Setup, front: seq<Action>, a: Action)
    ensures Run(su, front + [a]) == Step(su, Run(su, front), a)
  {
    hide Step;
    assert (front + [a])[..|front|] == front;
  }

  const SENT_ONE: seq<Action> := [Record] + [Append] + [FinishProducing] + [SendNext]
  const OVERTAKING: seq<Action> := SENT_ONE + [SendFinalEos] + [WriteFrame] + [Deliver(false)]

  /** One batch, produced, appended and queued on the bulk lane. */
  lemma OneBatchQueued(su: Setup, m: Message)
    requires su.stream == [[m]]
    ensures Run(su, SENT_ONE) ==
            Init().(server := Server(1, 1, [EnvelopeOf(su, 1)], true, true, true, 1, 1),
                    link := Link(true, [Batch(1, [m])], [], []))
  {
    var e := EnvelopeOf(su, 1);
    assert Run(su, []) == Init();
    assert [] + [Record] == [Record];
    RunMore(su, [], Record);
    RunMore(su, [Record], Append);
    RunMore(su, [Record] + [Append], FinishProducing);
    RunMore(su, [Record] + [Append] + [FinishProducing], SendNext);
    assert [] + [e] == [e];
    assert [] + [FrameOf(e)] == [FrameOf(e)];
  }

  /** The final Eos joins the control lane while that batch still waits. */
  lemma EosQueued(su: Setup, m: Message)
    requires su.stream == [[m]]
    ensures Run(su, SENT_ONE + [SendFinalEos]) ==
            Init().(server := Server(1, 1, [EnvelopeOf(su, 1)], true, false, false, 1, 1), final := Queued,
                    link := Link(true, [Batch(1, [m])], [EndOfStream(Complete, 1)], []))
  {
    OneBatchQueued(su, m);
    hide Run, ClientStep, NetworkStep;
    var e := EnvelopeOf(su, 1);
    assert NextAfter([e], 1) == None by {
      assert [e][1..] == [];
    }
    RunMore(su, SENT_ONE, SendFinalEos);
    var eos: Frame := EndOfStream(Complete, 1);
    assert [] + [eos] == [eos];
  }

  /** It is written first. */
  lemma EosWritten(su: Setup, m: Message)
    requires su.stream == [[m]]
    ensures Run(su, SENT_ONE + [SendFinalEos] + [WriteFrame]) ==
            Init().(server := Server(1, 1, [EnvelopeOf(su, 1)], true, false, false, 1, 1), final := Written(1),
                    link := Link(true, [Batch(1, [m])], [], [EndOfStream(Complete, 1)]))
  {
    EosQueued(su, m);
    hide Run, ClientStep, ServerStep;
    RunMore(su, SENT_ONE + [SendFinalEos], WriteFrame);
    var eos: Frame := EndOfStream(Complete, 1);
    assert [] + [eos] == [eos] && [eos][1..] == [];
  }

  /** A run that ends COMPLETE with nothing delivered: the Eos overtakes the only batch. */
  lemma CompleteCanLoseABatch(su: Setup, m: Message)
    requires su.stream == [[m]]
    ensures var st := Run(su, OVERTAKING);
            && !st.tampered && st.client.phase == Over(Complete)
            && st.final == Written(1) && st.client.leg.got.given == [] && st.client.leg.eosTotal == 1
  {
    EosWritten(su, m);
    hide Run, ServerStep, NetworkStep;
    RunMore(su, SENT_ONE + [SendFinalEos] + [WriteFrame], Deliver(false));
  }
}
