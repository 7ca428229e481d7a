/**
 The cache tee's bounded queue between the pulling thread and the writer thread. Each method is one
 critical section or one write; threads interleave between them in any way.
 */
module CacheTee {
  import opened Basics

  datatype Message = Message(topic: nat, payload: seq<byte>)

  const MAX_QUEUED_BYTES: nat := 32 * 1024 * 1024

  function Bytes(ms: seq<Message>): nat
  {
    if ms == [] then 0 else |ms[0].payload| + Bytes(ms[1..])
  }

  /** The messages for topics of the session dictionary; the writer skips the others. */
  function Known(ms: seq<Message>, topics: set<nat>): seq<Message>
  {
    if ms == [] then [] else (if ms[0].topic in topics then [ms[0]] else []) + Known(ms[1..], topics)
  }

  ghost function TopicsOf(ms: seq<Message>): set<nat>
  {
    set m | m in ms :: m.topic
  }

  /** Both bounds: at most `max` messages, and all but the last of them below the byte limit. */
  ghost predicate Bounded(queue: seq<Message>, bytes: nat, max: nat)
  {
    && bytes == Bytes(queue) && |queue| <= max
    && (queue != [] ==> Bytes(queue[..|queue| - 1]) < MAX_QUEUED_BYTES)
  }

  /** The producer-side counts are those of the known messages accepted. */
  ghost predicate CountsOk(accepted: seq<Message>, topics: set<nat>, count: nat, seen: set<nat>)
  {
    count == |Known(accepted, topics)| && seen == TopicsOf(Known(accepted, topics))
  }

  datatype Enqueued = Accepted | Refused | MustWait

  class Tee {
    const topics: set<nat>
    const maxMessages: nat
    var queue: seq<Message>
    var queuedBytes: nat
    var knownCount: nat
    var knownTopics: set<nat>
    var failed: bool
    var closed: bool
    var abortRequested: bool
    /** The writer thread: running, with at most one message taken off the queue. */
    var running: bool
    var inFlight: Option<Message>
    /** What the writer has written to the file, unknown topics skipped there. */
    var written: seq<Message>

    /** Everything `enqueue` ever accepted, in order. */
    ghost var accepted: seq<Message>

    ghost predicate Valid()
      reads this
    {
      && maxMessages >= 1
      && written + Flight(inFlight) + queue == accepted
      && Bounded(queue, queuedBytes, maxMessages)
      && CountsOk(accepted, topics, knownCount, knownTopics)
      && (inFlight.Some? ==> running || failed)
      && (!running ==> failed || abortRequested || (closed && queue == [] && inFlight.None?))
    }

    constructor (known: set<nat>, capacity: nat)
      requires capacity >= 1
      ensures Valid() && accepted == [] && written == [] && running && !failed && !closed && !abortRequested
      ensures topics == known && maxMessages == capacity && queue == [] && queuedBytes == 0 && inFlight.None?
    {
      topics, maxMessages := known, capacity;
      queue, queuedBytes, knownCount, knownTopics := [], 0, 0, {};
      failed, closed, abortRequested := false, false, false;
      running, inFlight, written, accepted := true, None, [], [];
    }

    /** One look of the blocking `enqueue`. */
    method Enqueue(m: Message) returns (r: Enqueued)
      requires Valid()
      modifies this`queue, this`queuedBytes, this`knownCount, this`knownTopics, this`accepted
      ensures Valid()
      ensures r == if !running || failed || closed || abortRequested then Refused
                   else if |old(queue)| < maxMessages && old(queuedBytes) < MAX_QUEUED_BYTES then Accepted else MustWait
      ensures accepted == if r == Accepted then old(accepted) + [m] else old(accepted)
      ensures queue == if r == Accepted then old(queue) + [m] else old(queue)
    {
      hide Bounded, CountsOk;
      if !running || failed || closed || abortRequested {
        return Refused;
      }
      if !(|queue| < maxMessages && queuedBytes < MAX_QUEUED_BYTES) {
        return MustWait;
      }
      BoundedMore(queue, queuedBytes, maxMessages, m);
      CountsMore(accepted, topics, knownCount, knownTopics, m);
      assert written + Flight(inFlight) + (queue + [m]) == accepted + [m];
      queuedBytes := queuedBytes + |m.payload|;
      if m.topic in topics {
        knownCount := knownCount + 1;
        knownTopics := knownTopics + {m.topic};
      }
      queue := queue + [m];
      accepted := accepted + [m];
      return Accepted;
    }

    method RequestAbort()
      requires Valid()
      modifies this`abortRequested
      ensures Valid() && abortRequested
    {
      abortRequested := true;
    }

    method Close()
      requires Valid()
      modifies this`closed
      ensures Valid() && closed
    {
      closed := true;
    }

    /** The writer's turn on the queue: leave, take the front, or sleep on. */
    method Take() returns (woke: bool)
      requires Valid() && running && inFlight.None?
      modifies this`queue, this`queuedBytes, this`running, this`inFlight
      ensures Valid() && accepted == old(accepted)
      ensures woke == (old(queue) != [] || closed || failed || abortRequested)
      ensures running == !(failed || abortRequested || (old(queue) == [] && closed))
      ensures inFlight == if running && old(queue) != [] then Some(old(queue)[0]) else None
      ensures queue == if inFlight.Some? then old(queue)[1..] else old(queue)
    {
      if !(queue != [] || closed || failed || abortRequested) {
        return false;
      }
      if failed || abortRequested || queue == [] {
        running := false;
        return true;
      }
      var m := queue[0];
      assert written + Flight(None) + queue == written + Flight(Some(m)) + queue[1..];
      BytesPrefix(queue);
      inFlight := Some(m);
      queue := queue[1..];
      queuedBytes := queuedBytes - |m.payload|;
      return true;
    }

    /** The write itself: `ok` covers the writer's result and the latched sink error. A failure ends the thread. */
    method Write(ok: bool)
      requires Valid() && running && inFlight.Some?
      modifies this`written, this`inFlight, this`failed, this`running
      ensures Valid()
      ensures ok ==>
                written == old(written) + [old(inFlight).value] && inFlight.None? && running && failed == old(failed)
      ensures !ok ==> written == old(written) && inFlight == old(inFlight) && failed && !running
    {
      if !ok {
        failed := true;
        running := false;
        return;
      }
      assert written + Flight(inFlight) + queue == (written + [inFlight.value]) + Flight(None) + queue;
      written := written + [inFlight.value];
      inFlight := None;
    }

    /**
     `drainAndClose` once the queue is closed and the writer thread joined; `closeOk` is the writer's and the
     sink's result. It looks at failures only: after an abort it closes a prefix cleanly, and without one it
     has written everything accepted.
     */
    method Drained(closeOk: bool) returns (clean: bool)
      requires Valid() && closed && !running
      ensures clean == (!failed && closeOk)
      ensures !failed ==> written + queue == accepted
      ensures clean && !abortRequested ==> written == accepted
    {
      clean := !failed && closeOk;
      assert written + [] + queue == written + queue && written + [] == written;
    }

    /**
     The publish-time check compares the messages and channels in the closed file, all of known topics, with
     those counted while enqueueing. It passes exactly when every known message accepted has been written: what
     is written is a prefix, and a prefix with an equal count is the whole.
     */
    method CountCheck() returns (passes: bool)
      requires Valid()
      ensures passes <==> Known(written, topics) == Known(accepted, topics)
    {
      var inFile := Known(written, topics);
      var channels := set m | m in inFile :: m.topic;
      WrittenIsPrefix(written, Flight(inFlight) + queue, accepted, topics);
      assert written + (Flight(inFlight) + queue) == accepted;
      passes := |inFile| == knownCount && |channels| == |knownTopics|;
      assert |inFile| == knownCount ==> inFile == Known(accepted, topics)[..|inFile|] == Known(accepted, topics);
      assert channels == TopicsOf(inFile);
    }

    /**
     `finishCacheTee`: drain, then publish a completed download if the counts agree and the rest of the publish
     goes well. A tee is finalized exactly then, so only with every known message it accepted in the file.
     */
    method FinishTee(complete: bool, closeOk: bool, publishOk: bool) returns (r: Outcome)
      requires Valid() && closed && !running
      ensures r == Finalized <==>
                complete && closeOk && publishOk && !failed && Known(written, topics) == Known(accepted, topics)
      ensures r == Finalized && !abortRequested ==> written == accepted
      ensures r == Aborted <==> !complete && closeOk && !failed
    {
      var clean := Drained(closeOk);
      if !clean {
        return FinishFailed;
      }
      if !complete {
        return Aborted;
      }
      var passes := CountCheck();
      return if passes && publishOk then Finalized else FinishFailed;
    }
  }

  datatype Outcome = Finalized | FinishFailed | Aborted

  /** One message accepted, then an abort before the writer's turn. */
  method AbortBeforeWrite(m: Message) returns (tee: Tee)
    ensures fresh(tee) && tee.Valid() && tee.closed && !tee.running && !tee.failed && tee.abortRequested
    ensures tee.topics == {m.topic} && tee.accepted == [m] && tee.written == []
  {
    hide Tee.Valid;
    tee := new Tee({m.topic}, 1);
    var r := tee.Enqueue(m);
    assert r == Accepted;
    tee.RequestAbort();
    var woke := tee.Take();
    tee.Close();
  }

  /** The drain then reports a clean close, and only the count check refuses. */
  method AbortedPrefix(m: Message) returns (clean: bool, passes: bool)
    ensures clean && !passes
  {
    hide Tee.Valid, Known;
    var tee := AbortBeforeWrite(m);
    clean := tee.Drained(true);
    passes := tee.CountCheck();
    OneKnown(m);
  }

  lemma OneKnown(m: Message)
    ensures |Known([m], {m.topic})| == 1 && Known([], {m.topic}) == []
  {
    assert [m][1..] == [];
  }

  function Flight(m: Option<Message>): seq<Message>
  {
    match m
    case None => []
    case Some(x) => [x]
  }

  lemma {:induction false} BytesMore(ms: seq<Message>, m: Message)
    ensures Bytes(ms + [m]) == Bytes(ms) + |m.payload|
  {
    if ms != [] {
      assert (ms + [m])[1..] == ms[1..] + [m];
      BytesMore(ms[1..], m);
    }
  }

  lemma BoundedMore(queue: seq<Message>, bytes: nat, max: nat, m: Message)
    requires Bounded(queue, bytes, max) && |queue| < max && bytes < MAX_QUEUED_BYTES
    ensures Bounded(queue + [m], bytes + |m.payload|, max)
  {
    BytesMore(queue, m);
    assert (queue + [m])[..|queue|] == queue;
  }

  lemma CountsMore(accepted: seq<Message>, topics: set<nat>, count: nat, seen: set<nat>, m: Message)
    requires CountsOk(accepted, topics, count, seen)
    ensures if m.topic in topics then CountsOk(accepted + [m], topics, count + 1, seen + {m.topic})
            else CountsOk(accepted + [m], topics, count, seen)
  {
    hide Known, TopicsOf;
    KnownMore(accepted, m, topics);
  }

  /** Taking the front keeps the byte bound: all but the last message stay below the limit. */
  lemma BytesPrefix(ms: seq<Message>)
    requires ms != []
    ensures Bytes(ms) == |ms[0].payload| + Bytes(ms[1..])
    ensures |ms| > 1 ==> Bytes(ms[1..][..|ms| - 2]) <= Bytes(ms[..|ms| - 1])
  {
    if |ms| > 1 {
      assert ms[..|ms| - 1][1..] == ms[1..][..|ms| - 2];
    }
  }

  lemma {:induction false} KnownConcat(a: seq<Message>, b: seq<Message>, topics: set<nat>)
    ensures Known(a + b, topics) == Known(a, topics) + Known(b, topics)
  {
    if a == [] {
      assert a + b == b;
    } else {
      hide Known;
      var m, rest := a[0], a[1..];
      KnownHead(m, rest, topics);
      KnownHead(m, rest + b, topics);
      KnownConcat(rest, b, topics);
      assert a == [m] + rest && a + b == [m] + (rest + b);
    }
  }

  lemma KnownHead(m: Message, rest: seq<Message>, topics: set<nat>)
    ensures Known([m] + rest, topics) == (if m.topic in topics then [m] else []) + Known(rest, topics)
  {
    assert ([m] + rest)[1..] == rest;
  }

  lemma KnownMore(ms: seq<Message>, m: Message, topics: set<nat>)
    ensures Known(ms + [m], topics) == Known(ms, topics) + if m.topic in topics then [m] else []
    ensures TopicsOf(Known(ms + [m], topics)) ==
            TopicsOf(Known(ms, topics)) + if m.topic in topics then {m.topic} else {}
  {
    KnownConcat(ms, [m], topics);
    assert [m][1..] == [];
    var k := Known(ms, topics);
    if m.topic in topics {
      assert Known(ms + [m], topics) == k + [m];
      forall t
        ensures t in TopicsOf(k + [m]) <==> t in TopicsOf(k) || t == m.topic
      {
        if t in TopicsOf(k) {
          var x :| x in k && x.topic == t;
          assert x in k + [m];
        }
        assert m in k + [m];
      }
    } else {
      assert k + [] == k;
    }
  }

  lemma WrittenIsPrefix(written: seq<Message>, rest: seq<Message>, accepted: seq<Message>, topics: set<nat>)
    requires written + rest == accepted
    ensures Known(written, topics) <= Known(accepted, topics)
  {
    KnownConcat(written, rest, topics);
  }
}
