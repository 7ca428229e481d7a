/**
 The server's retain buffer: a bounded queue of numbered batches that outlives connections. The
 producer appends, an attached consumer takes the next batch after a cursor, acks prune.
 */
module RetainBuffer {
  import opened Basics
  import opened ResumeClient

  datatype Envelope = Envelope(number: nat, bytes: nat, messages: seq<Message>)

  // ---- Specification ----

  function TotalBytes(queue: seq<Envelope>): nat
  {
    if queue == [] then 0 else queue[0].bytes + TotalBytes(queue[1..])
  }

  /** Whether `Append` may go ahead: an empty buffer takes any batch, however large. */
  predicate HasRoom(queue: seq<Envelope>, b: Envelope, maxSeqs: nat, maxBytes: nat)
  {
    queue == [] || (|queue| < maxSeqs && TotalBytes(queue) + b.bytes <= maxBytes)
  }

  /** The lowest-numbered batch after `last`, in a queue kept in ascending order. */
  function NextAfter(queue: seq<Envelope>, last: nat): Option<Envelope>
  {
    if queue == [] then None else if queue[0].number > last then Some(queue[0]) else NextAfter(queue[1..], last)
  }

  function Pruned(queue: seq<Envelope>, through: nat): seq<Envelope>
  {
    if queue == [] || queue[0].number > through then queue else Pruned(queue[1..], through)
  }

  ghost predicate Ascending(queue: seq<Envelope>)
  {
    forall i, j | 0 <= i < j < |queue| :: queue[i].number < queue[j].number
  }

  /** Within both bounds, but for a single oversized batch. */
  ghost predicate Bounded(queue: seq<Envelope>, maxSeqs: nat, maxBytes: nat)
  {
    |queue| <= maxSeqs && (|queue| <= 1 || TotalBytes(queue) <= maxBytes)
  }

  // ---- The buffer ----

  class Buffer {
    var queue: seq<Envelope>
    var totalBytes: nat
    var closed: bool
    const maxSeqs: nat
    const maxBytes: nat

    ghost predicate Valid()
      reads this
    {
      && totalBytes == TotalBytes(queue) && Ascending(queue)
      && 1 <= maxSeqs && Bounded(queue, maxSeqs, maxBytes)
    }

    constructor (seqs: int, bytes: int)
      ensures Valid() && queue == [] && !closed
      ensures maxSeqs == if seqs <= 0 then 256 else seqs
      ensures maxBytes == if bytes <= 0 then 64 * 1024 * 1024 else bytes
    {
      queue, totalBytes, closed := [], 0, false;
      maxSeqs := if seqs <= 0 then 256 else seqs;
      maxBytes := if bytes <= 0 then 64 * 1024 * 1024 else bytes;
    }

    /** One look of the blocking `Append`: false means it must keep waiting. */
    method Append(b: Envelope) returns (returned: bool)
      requires Valid() && forall i | 0 <= i < |queue| :: queue[i].number < b.number
      modifies this`queue, this`totalBytes
      ensures Valid()
      ensures returned == (closed || HasRoom(old(queue), b, maxSeqs, maxBytes))
      ensures queue == if returned && !closed then old(queue) + [b] else old(queue)
    {
      if !closed && |queue| > 0 && (|queue| >= maxSeqs || totalBytes + b.bytes > maxBytes) {
        return false;
      }
      if !closed {
        TotalAppend(queue, b);
        queue := queue + [b];
        totalBytes := totalBytes + b.bytes;
      }
      return true;
    }

    /** One look of the blocking `Next`. */
    method Next(last: nat) returns (r: Option<Envelope>)
      requires Valid()
      ensures r == NextAfter(queue, last)
    {
      var i := 0;
      while i < |queue|
        invariant 0 <= i <= |queue| && NextAfter(queue[i..], last) == NextAfter(queue, last)
      {
        if queue[i].number > last {
          return Some(queue[i]);
        }
        assert queue[i..][1..] == queue[i + 1..];
        i := i + 1;
      }
      return None;
    }

    method Prune(through: nat)
      requires Valid()
      modifies this`queue, this`totalBytes
      ensures Valid() && queue == Pruned(old(queue), through)
    {
      var cut, freed := 0, 0;
      while cut < |queue| && queue[cut].number <= through
        invariant 0 <= cut <= |queue| && Pruned(queue[cut..], through) == Pruned(queue, through)
        invariant freed + TotalBytes(queue[cut..]) == totalBytes
      {
        assert queue[cut..][1..] == queue[cut + 1..];
        freed := freed + queue[cut].bytes;
        cut := cut + 1;
      }
      if cut > 0 {
        PrunedBounded(queue, cut, maxSeqs, maxBytes);
        queue := queue[cut..];
        totalBytes := totalBytes - freed;
      }
    }

    method Close()
      modifies this`closed
      ensures closed
    {
      closed := true;
    }
  }

  lemma {:induction false} TotalAppend(queue: seq<Envelope>, b: Envelope)
    ensures TotalBytes(queue + [b]) == TotalBytes(queue) + b.bytes
  {
    if queue != [] {
      assert (queue + [b])[1..] == queue[1..] + [b];
      TotalAppend(queue[1..], b);
    }
  }

  lemma {:induction false} TotalSuffix(queue: seq<Envelope>, cut: nat)
    requires cut <= |queue|
    ensures TotalBytes(queue[cut..]) <= TotalBytes(queue)
    decreases cut
  {
    if cut > 0 {
      TotalSuffix(queue, cut - 1);
      assert queue[cut - 1..][1..] == queue[cut..];
    }
  }

  lemma PrunedBounded(queue: seq<Envelope>, cut: nat, maxSeqs: nat, maxBytes: nat)
    requires cut <= |queue| && Bounded(queue, maxSeqs, maxBytes)
    ensures Bounded(queue[cut..], maxSeqs, maxBytes)
  {
    TotalSuffix(queue, cut);
  }
}
