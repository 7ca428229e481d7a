/**
 The at-least-once event tier: message bodies are translated whole or not at all, every record counts down
 its batch once its outcome has committed, and a batch is acked when it reaches zero. Producer and worker
 interleave in any way; each action is one atomic step of the code.
 */
module EventTier {
  import opened Basics
  import opened Text
  import E = CatalogEvents

  // ---- Translating a body ----

  /** One element of a body's `Records` list; a missing or misshapen key makes the body malformed. */
  datatype RawRecord = RawRecord(name: string, key: Option<string>)

  /** A body as JSON decodes it: `None` is anything but an object with a list of records. */
  type Body = Option<seq<RawRecord>>

  function Classify(name: string): Option<E.Kind>
  {
    if HasPrefix(name, "ObjectCreated") then Some(E.Catalog)
    else if HasPrefix(name, "ObjectRemoved") then Some(E.Delete)
    else if HasPrefix(name, "LifecycleExpiration") then Some(E.Delete)
    else None
  }

  predicate Relevant(r: RawRecord)
  {
    r.key.Some? && Classify(r.name).Some? && HasSuffix(r.key.value, ".mcap")
  }

  function RelevantPairs(rs: seq<RawRecord>): seq<(E.Kind, string)>
  {
    if rs == [] then []
    else
      var r := rs[|rs| - 1];
      RelevantPairs(rs[..|rs| - 1]) + if Relevant(r) then [(Classify(r.name).value, r.key.value)] else []
  }

  /** What an event of this name asks for; S3 names them by these prefixes. */
  predicate Asks(name: string, kind: E.Kind)
  {
    match kind
    case Catalog => HasPrefix(name, "ObjectCreated")
    case Delete => HasPrefix(name, "ObjectRemoved") || HasPrefix(name, "LifecycleExpiration")
  }

  lemma ClassifiedAsAsked(name: string, kind: E.Kind)
    ensures Classify(name) == Some(kind) <==> Asks(name, kind)
  {
    PrefixStarts(name, "ObjectCreated", 6);
    PrefixStarts(name, "ObjectRemoved", 6);
    PrefixStarts(name, "LifecycleExpiration", 0);
    PrefixStarts(name, "ObjectCreated", 0);
  }

  lemma PrefixStarts(name: string, p: string, i: nat)
    requires i < |p|
    ensures HasPrefix(name, p) ==> name[i] == p[i]
  {
    if HasPrefix(name, p) {
      assert name[..|p|][i] == p[i];
    }
  }

  /** The pairs are exactly what the records ask for, `.mcap` keys only: creates to catalog, removals to delete. */
  lemma {:induction false} PairsAreWhatIsAsked(rs: seq<RawRecord>, kind: E.Kind, key: string)
    ensures (kind, key) in RelevantPairs(rs) <==>
            exists r :: r in rs && r.key == Some(key) && HasSuffix(key, ".mcap") && Asks(r.name, kind)
  {
    hide Asks, Classify, HasSuffix;
    if rs != [] {
      var front, last := rs[..|rs| - 1], rs[|rs| - 1];
      PairsAreWhatIsAsked(front, kind, key);
      ClassifiedAsAsked(last.name, kind);
      assert rs == front + [last] && last in rs;
      assert forall r | r in front :: r in rs;
    }
  }

  /** In the order of the records: what a longer body asks for comes behind what its beginning asks for. */
  lemma {:induction false} PairsInOrder(first: seq<RawRecord>, then_: seq<RawRecord>)
    ensures RelevantPairs(first + then_) == RelevantPairs(first) + RelevantPairs(then_)
  {
    hide Relevant, Classify;
    if then_ == [] {
      assert first + then_ == first;
    } else {
      var n := |then_| - 1;
      PairsInOrder(first, then_[..n]);
      assert (first + then_)[..|first| + n] == first + then_[..n];
    }
  }

  predicate WellShaped(body: Body)
  {
    body.Some? && forall i | 0 <= i < |body.value| :: body.value[i].key.Some?
  }

  /** `translate_body`: everything relevant, in order, or a refusal of the whole body. */
  method TranslateBody(body: Body) returns (pairs: Option<seq<(E.Kind, string)>>)
    ensures pairs == if WellShaped(body) then Some(RelevantPairs(body.value)) else None
  {
    if body.None? {
      return None;
    }
    var records := body.value;
    var found := [];
    var i := 0;
    assert records[..0] == [];
    while i < |records|
      invariant 0 <= i <= |records| && found == RelevantPairs(records[..i])
      invariant forall k | 0 <= k < i :: records[k].key.Some?
    {
      var r := records[i];
      assert records[..i + 1][..i] == records[..i];
      if r.key.None? {
        return None;
      }
      var kind := Classify(r.name);
      if kind.Some? && HasSuffix(r.key.value, ".mcap") {
        found := found + [(kind.value, r.key.value)];
      }
      i := i + 1;
    }
    assert records[..i] == records;
    return Some(found);
  }

  /** What the producer does with a message before any worker sees it. */
  datatype Intake = LeaveUnacked | DeleteNow | Enqueue(pairs: seq<(E.Kind, string)>)

  /**
   `_process_message`: a malformed body is never deleted, a body with nothing to do is deleted at once, and
   anything else is handed on whole.
   */
  method ProcessMessage(body: Body) returns (intake: Intake)
    ensures intake == LeaveUnacked <==> !WellShaped(body)
    ensures intake == DeleteNow <==> WellShaped(body) && RelevantPairs(body.value) == []
    ensures intake.Enqueue? ==> WellShaped(body) && intake.pairs == RelevantPairs(body.value) != []
  {
    var pairs := TranslateBody(body);
    if pairs.None? {
      return LeaveUnacked;
    }
    if pairs.value == [] {
      return DeleteNow;
    }
    return Enqueue(pairs.value);
  }

  // ---- Accounting ----

  /** Where a record is: with the producer, queued, with the worker, failed, or on its way through the countdown. */
  datatype Place = ToPut | Queued | InHand | Failed | Committed | Counted | Told

  /** Where a batch's ack is: not due, due but not yet queued, queued, being deleted, done. */
  datatype AckPlace = NotDue | Due | InQueue | Deleting | Acked

  type Rec = (nat, nat)

  /** The records of a batch just received. */
  function NewRecords(b: nat, n: nat): (m: map<Rec, Place>)
    ensures forall r: Rec :: r in m <==> r.0 == b && r.1 < n
    ensures forall r | r in m :: m[r] == ToPut
  {
    map i: nat | i < n :: (b, i) := ToPut
  }

  lemma {:induction false} NewRecordsSize(b: nat, n: nat)
    ensures |NewRecords(b, n).Keys| == n
  {
    hide NewRecords;
    if n == 0 {
      assert NewRecords(b, 0).Keys == {};
    } else {
      NewRecordsSize(b, n - 1);
      var last: Rec := (b, n - 1);
      assert NewRecords(b, n).Keys == NewRecords(b, n - 1).Keys + {last};
    }
  }

  /** One batch: how many records it has, its countdown, its ack, and the DeleteMessage calls made for it. */
  datatype Batch = Batch(total: nat, remaining: nat, ack: AckPlace, deletes: nat)

  /** Every record and batch received so far, and the intake gate's two counters. */
  datatype State = State(places: map<Rec, Place>, batches: map<nat, Batch>, buffered: int, outstanding: int)

  datatype Action =
    | Receive(b: nat, n: nat)
    | Put(r: Rec) | Take(r: Rec) | Finish(r: Rec, committed: bool)
    | Count(r: Rec) | Tell(r: Rec)
    | QueueAck(b: nat) | DrainAck(b: nat) | Delete(b: nat)

  const EMPTY := State(map[], map[], 0, 0)

  function Max0(x: int): int
  {
    if x < 0 then 0 else x
  }

  predicate At(st: State, r: Rec, p: Place)
  {
    r in st.places && st.places[r] == p
  }

  predicate AckAt(st: State, b: nat, p: AckPlace)
  {
    b in st.batches && st.batches[b].ack == p
  }

  function Move(st: State, r: Rec, p: Place): State
  {
    st.(places := st.places[r := p])
  }

  /** The producer's side: the batch is created and the gate told before any record is put. */
  function ProducerStep(st: State, a: Action): State
  {
    match a
    case Receive(b, n) =>
      if b in st.batches || n == 0 then st
      else State(st.places + NewRecords(b, n), st.batches[b := Batch(n, n, NotDue, 0)],
                 st.buffered + n, st.outstanding + 1)
    case Put(r) => if At(st, r, ToPut) then Move(st, r, Queued) else st
    case DrainAck(b) =>
      if AckAt(st, b, InQueue) then st.(batches := st.batches[b := st.batches[b].(ack := Deleting)]) else st
    case Delete(b) =>
      if AckAt(st, b, Deleting) then
        st.(batches := st.batches[b := st.batches[b].(ack := Acked, deletes := st.batches[b].deletes + 1)],
            outstanding := Max0(st.outstanding - 1))
      else st
    case _ => st
  }

  /** The worker's side; an outcome that raised is never counted. */
  function WorkerStep(st: State, a: Action): State
  {
    match a
    case Take(r) => if At(st, r, Queued) then Move(st, r, InHand) else st
    case Finish(r, committed) => if At(st, r, InHand) then Move(st, r, if committed then Committed else Failed) else st
    case Count(r) =>
      if At(st, r, Committed) && r.0 in st.batches then
        var batch := st.batches[r.0];
        if batch.remaining == 0 then Move(st, r, Counted)
        else
          var ack := if batch.remaining == 1 then Due else batch.ack;
          Move(st, r, Counted).(batches := st.batches[r.0 := batch.(remaining := batch.remaining - 1, ack := ack)])
      else st
    case Tell(r) => if At(st, r, Counted) then Move(st, r, Told).(buffered := Max0(st.buffered - 1)) else st
    case QueueAck(b) =>
      if AckAt(st, b, Due) then st.(batches := st.batches[b := st.batches[b].(ack := InQueue)]) else st
    case _ => st
  }

  function Step(st: State, a: Action): State
  {
    if a.Receive? || a.Put? || a.DrainAck? || a.Delete? then ProducerStep(st, a) else WorkerStep(st, a)
  }

  function Run(actions: seq<Action>): State
  {
    if actions == [] then EMPTY else Step(Run(actions[..|actions| - 1]), actions[|actions| - 1])
  }

  // ---- The invariant ----

  ghost function Untold(st: State): set<Rec>
  {
    set r | r in st.places && st.places[r] != Told
  }

  ghost function Uncounted(st: State, b: nat): set<Rec>
  {
    set r | r in st.places && r.0 == b && st.places[r] != Counted && st.places[r] != Told
  }

  ghost function Unacked(st: State): set<nat>
  {
    set b | b in st.batches && st.batches[b].ack != Acked
  }

  ghost predicate BatchOk(st: State, b: nat)
    requires b in st.batches
  {
    var batch := st.batches[b];
    && batch.remaining == |Uncounted(st, b)|
    && (batch.ack == NotDue <==> batch.remaining > 0)
    && batch.deletes == (if batch.ack == Acked then 1 else 0)
    && (forall i :: (b, i) in st.places <==> 0 <= i < batch.total)
  }

  /** The gate's counters are the true numbers, and every batch's countdown is. */
  ghost predicate Inv(st: State)
  {
    && st.buffered == |Untold(st)| && st.outstanding == |Unacked(st)|
    && (forall r | r in st.places :: r.0 in st.batches)
    && (forall b | b in st.batches :: BatchOk(st, b))
  }

  predicate IsCounted(p: Place)
  {
    p == Counted || p == Told
  }

  /** Nothing about a batch's records changed. */
  lemma BatchKept(st: State, next: State, b: nat)
    requires b in st.batches && BatchOk(st, b) && b in next.batches && next.batches[b] == st.batches[b]
    requires forall q: Rec | q.0 == b :: q in next.places <==> q in st.places
    requires forall q | q in st.places && q.0 == b :: IsCounted(next.places[q]) == IsCounted(st.places[q])
    ensures BatchOk(next, b)
  {
    assert Uncounted(next, b) == Uncounted(st, b);
  }

  lemma OthersKept(st: State, next: State, b: nat)
    requires Inv(st) && next.batches.Keys == st.batches.Keys && next.places.Keys == st.places.Keys
    requires forall c | c in st.batches && c != b :: next.batches[c] == st.batches[c]
    requires forall q | q in st.places && q.0 != b :: next.places[q] == st.places[q]
    ensures forall c | c in st.batches && c != b :: BatchOk(next, c)
    ensures forall q | q in next.places :: q.0 in next.batches
  {
    hide BatchOk;
    forall c | c in st.batches && c != b
      ensures BatchOk(next, c)
    {
      assert BatchOk(st, c);
      BatchKept(st, next, c);
    }
  }

  /** A record that moves between uncounted places disturbs no count. */
  lemma MoveKeeps(st: State, r: Rec, p: Place)
    requires Inv(st) && r in st.places && !IsCounted(p) && !IsCounted(st.places[r])
    ensures Inv(Move(st, r, p))
  {
    hide BatchOk;
    var next := Move(st, r, p);
    assert Untold(next) == Untold(st);
    assert Unacked(next) == Unacked(st);
    OthersKept(st, next, r.0);
    assert BatchOk(st, r.0);
    BatchKept(st, next, r.0);
  }

  lemma SameTold(st: State, next: State)
    requires next.places.Keys == st.places.Keys
    requires forall q | q in st.places :: (next.places[q] == Told) == (st.places[q] == Told)
    ensures Untold(next) == Untold(st)
  {
  }

  lemma SameAcked(st: State, next: State)
    requires next.batches.Keys == st.batches.Keys
    requires forall b | b in st.batches :: (next.batches[b].ack == Acked) == (st.batches[b].ack == Acked)
    ensures Unacked(next) == Unacked(st)
  {
  }

  lemma CountKeeps(st: State, r: Rec)
    requires Inv(st) && At(st, r, Committed)
    ensures st.batches[r.0].remaining > 0
    ensures Inv(WorkerStep(st, Count(r)))
  {
    hide Untold, Unacked, Uncounted;
    assert BatchOk(st, r.0);
    CountsDown(st, r);
    var next := WorkerStep(st, Count(r));
    assert st.batches[r.0].ack == NotDue;
    hide BatchOk;
    SameTold(st, next);
    SameAcked(st, next);
    OthersKept(st, next, r.0);
  }

  lemma CountsDown(st: State, r: Rec)
    requires At(st, r, Committed) && r.0 in st.batches && BatchOk(st, r.0)
    ensures st.batches[r.0].remaining > 0 && BatchOk(WorkerStep(st, Count(r)), r.0)
  {
    var next := WorkerStep(st, Count(r));
    assert r in Uncounted(st, r.0);
    assert Uncounted(next, r.0) == Uncounted(st, r.0) - {r};
  }

  lemma TellKeeps(st: State, r: Rec)
    requires Inv(st) && At(st, r, Counted)
    ensures st.buffered >= 1 && Inv(WorkerStep(st, Tell(r)))
  {
    hide BatchOk;
    var next := WorkerStep(st, Tell(r));
    assert r in Untold(st);
    assert Untold(next) == Untold(st) - {r};
    assert Unacked(next) == Unacked(st);
    OthersKept(st, next, r.0);
    assert BatchOk(st, r.0);
    BatchKept(st, next, r.0);
  }

  /** A batch's ack advances; the records stay where they are. */
  lemma AckKeeps(st: State, b: nat, batch: Batch, outstanding: int)
    requires Inv(st) && b in st.batches && st.batches[b].ack != NotDue && batch.ack != NotDue
    requires batch == st.batches[b].(ack := batch.ack, deletes := batch.deletes)
    requires batch.deletes == (if batch.ack == Acked then 1 else 0) && st.batches[b].ack != Acked
    requires outstanding == st.outstanding - if batch.ack == Acked then 1 else 0
    ensures Inv(st.(batches := st.batches[b := batch], outstanding := outstanding))
  {
    assert BatchOk(st, b);
    AckedBatchOk(st, b, batch, outstanding);
    hide BatchOk;
    var next := st.(batches := st.batches[b := batch], outstanding := outstanding);
    assert b in Unacked(st);
    assert Untold(next) == Untold(st);
    assert Unacked(next) == if batch.ack == Acked then Unacked(st) - {b} else Unacked(st);
    OthersKept(st, next, b);
  }

  lemma AckedBatchOk(st: State, b: nat, batch: Batch, outstanding: int)
    requires b in st.batches && BatchOk(st, b) && st.batches[b].ack != NotDue && batch.ack != NotDue
    requires batch == st.batches[b].(ack := batch.ack, deletes := batch.deletes)
    requires batch.deletes == (if batch.ack == Acked then 1 else 0)
    ensures BatchOk(st.(batches := st.batches[b := batch], outstanding := outstanding), b)
  {
    var next := st.(batches := st.batches[b := batch], outstanding := outstanding);
    assert Uncounted(next, b) == Uncounted(st, b);
  }

  lemma UnackedIsCounted(st: State, b: nat)
    requires Inv(st) && b in st.batches && st.batches[b].ack != Acked
    ensures st.outstanding >= 1 && st.batches[b].deletes == 0
  {
    assert b in Unacked(st);
    assert BatchOk(st, b);
  }

  ghost predicate IsNew(st: State, b: nat)
  {
    b !in st.batches && forall r | r in st.places :: r.0 in st.batches
  }

  lemma ReceivedUntold(st: State, b: nat, n: nat)
    requires IsNew(st, b) && n > 0
    ensures |Untold(ProducerStep(st, Receive(b, n)))| == |Untold(st)| + n
  {
    hide NewRecords;
    NewRecordsSize(b, n);
    var fresh_ := NewRecords(b, n).Keys;
    assert Untold(ProducerStep(st, Receive(b, n))) == Untold(st) + fresh_;
    assert Untold(st) !! fresh_;
  }

  lemma ReceivedUnacked(st: State, b: nat, n: nat)
    requires IsNew(st, b) && n > 0
    ensures |Unacked(ProducerStep(st, Receive(b, n)))| == |Unacked(st)| + 1
  {
    hide NewRecords;
    assert Unacked(ProducerStep(st, Receive(b, n))) == Unacked(st) + {b};
  }

  lemma ReceivedUncounted(st: State, b: nat, n: nat)
    requires IsNew(st, b) && n > 0
    ensures Uncounted(ProducerStep(st, Receive(b, n)), b) == NewRecords(b, n).Keys
  {
    hide NewRecords;
    var next := ProducerStep(st, Receive(b, n));
    forall r: Rec
      ensures r in Uncounted(next, b) <==> r in NewRecords(b, n).Keys
    {
    }
  }

  lemma ReceivedBatchOk(st: State, b: nat, n: nat)
    requires IsNew(st, b) && n > 0
    ensures BatchOk(ProducerStep(st, Receive(b, n)), b)
  {
    hide NewRecords, Uncounted;
    NewRecordsSize(b, n);
    ReceivedUncounted(st, b, n);
  }

  lemma ReceiveKeeps(st: State, b: nat, n: nat)
    requires Inv(st) && b !in st.batches && n > 0
    ensures Inv(ProducerStep(st, Receive(b, n)))
  {
    hide BatchOk, Untold, Unacked, NewRecords;
    var next := ProducerStep(st, Receive(b, n));
    ReceivedUntold(st, b, n);
    ReceivedUnacked(st, b, n);
    ReceivedBatchOk(st, b, n);
    forall c | c in st.batches
      ensures BatchOk(next, c)
    {
      assert BatchOk(st, c);
      BatchKept(st, next, c);
    }
  }

  lemma ProducerKeeps(st: State, a: Action)
    requires Inv(st)
    ensures Inv(ProducerStep(st, a))
  {
    hide Inv;
    match a {
      case Receive(b, n) =>
        if b !in st.batches && n > 0 {
          ReceiveKeeps(st, b, n);
        }
      case Put(r) =>
        if At(st, r, ToPut) {
          MoveKeeps(st, r, Queued);
        }
      case DrainAck(b) =>
        if AckAt(st, b, InQueue) {
          UnackedIsCounted(st, b);
          AckKeeps(st, b, st.batches[b].(ack := Deleting), st.outstanding);
        }
      case Delete(b) =>
        if AckAt(st, b, Deleting) {
          UnackedIsCounted(st, b);
          AckKeeps(st, b, st.batches[b].(ack := Acked, deletes := 1), st.outstanding - 1);
        }
      case _ =>
    }
  }

  lemma WorkerKeeps(st: State, a: Action)
    requires Inv(st)
    ensures Inv(WorkerStep(st, a))
  {
    hide Inv;
    match a {
      case Take(r) =>
        if At(st, r, Queued) {
          MoveKeeps(st, r, InHand);
        }
      case Finish(r, committed) =>
        if At(st, r, InHand) {
          MoveKeeps(st, r, if committed then Committed else Failed);
        }
      case Count(r) =>
        if At(st, r, Committed) {
          CountKeeps(st, r);
        }
      case Tell(r) =>
        if At(st, r, Counted) {
          TellKeeps(st, r);
        }
      case QueueAck(b) =>
        if AckAt(st, b, Due) {
          UnackedIsCounted(st, b);
          AckKeeps(st, b, st.batches[b].(ack := InQueue), st.outstanding);
        }
      case _ =>
    }
  }

  lemma {:induction false} RunKeeps(actions: seq<Action>)
    ensures Inv(Run(actions))
  {
    if actions == [] {
      assert Untold(EMPTY) == {} && Unacked(EMPTY) == {};
    } else {
      hide Inv, ProducerStep, WorkerStep;
      var front, a := Run(actions[..|actions| - 1]), actions[|actions| - 1];
      RunKeeps(actions[..|actions| - 1]);
      ProducerKeeps(front, a);
      WorkerKeeps(front, a);
    }
  }

  // ---- What it gives ----

  /** The worker's outcome of a record: the one `Finish` that found it in hand. */
  ghost predicate Ended(actions: seq<Action>, k: nat, r: Rec, committed: bool)
  {
    k < |actions| && actions[k] == Finish(r, committed) && At(Run(actions[..k]), r, InHand)
  }

  ghost predicate HasCommitted(actions: seq<Action>, r: Rec)
  {
    exists k :: Ended(actions, k, r, true)
  }

  /** A record the worker has not finished yet. */
  predicate Open(p: Place)
  {
    p == ToPut || p == Queued || p == InHand
  }

  /** Behind its worker a record is where its one outcome puts it. */
  ghost predicate PlacedByOutcome(actions: seq<Action>, r: Rec)
  {
    var st := Run(actions);
    && (r in st.places && !Open(st.places[r]) && st.places[r] != Failed ==> HasCommitted(actions, r))
    && (forall k | Ended(actions, k, r, false) :: At(st, r, Failed))
    && (forall k | Ended(actions, k, r, true) :: r in st.places && !Open(st.places[r]) && st.places[r] != Failed)
  }

  /** One step moves a record only along its way, and out of the worker's hand only by its outcome. */
  lemma StepMoves(st: State, a: Action, r: Rec)
    requires Inv(st)
    ensures var next := Step(st, a);
            if r in st.places then
              && r in next.places
              && (next.places[r] != st.places[r] ==> MovesTo(st.places[r], a, r, next.places[r]))
            else r in next.places ==> next.places[r] == ToPut
    ensures At(st, r, InHand) && a.Finish? && a.r == r ==>
              At(Step(st, a), r, if a.committed then Committed else Failed)
  {
    hide BatchOk, Untold, Unacked, NewRecords;
  }

  predicate MovesTo(p: Place, a: Action, r: Rec, q: Place)
  {
    match a
    case Finish(x, committed) => x == r && p == InHand && q == if committed then Committed else Failed
    case _ => (Open(p) && Open(q)) || (p == Committed && q == Counted) || (p == Counted && q == Told)
  }

  lemma RunMore(actions: seq<Action>, a: Action)
    ensures Run(actions + [a]) == Step(Run(actions), a)
  {
    assert (actions + [a])[..|actions|] == actions;
  }

  lemma EndedMore(actions: seq<Action>, a: Action, k: nat, r: Rec, committed: bool)
    ensures Ended(actions + [a], k, r, committed) <==>
            Ended(actions, k, r, committed) ||
            (k == |actions| && a == Finish(r, committed) && At(Run(actions), r, InHand))
  {
    hide Run;
    var all := actions + [a];
    if k < |actions| {
      assert all[..k] == actions[..k] && all[k] == actions[k];
    } else if k == |actions| {
      assert all[..k] == actions && all[k] == a;
    }
  }

  lemma OutcomeMore(actions: seq<Action>, a: Action, r: Rec)
    requires PlacedByOutcome(actions, r) && Inv(Run(actions))
    ensures PlacedByOutcome(actions + [a], r)
  {
    hide Run, Ended, Inv, Step;
    var st := Run(actions);
    RunMore(actions, a);
    StepMoves(st, a, r);
    forall k, committed
      ensures Ended(actions + [a], k, r, committed) <==>
              Ended(actions, k, r, committed) || (k == |actions| && a == Finish(r, committed) && At(st, r, InHand))
    {
      EndedMore(actions, a, k, r, committed);
    }
    if a == Finish(r, true) && At(st, r, InHand) {
      assert Ended(actions + [a], |actions|, r, true);
    }
  }

  lemma NothingEnded(r: Rec)
    ensures PlacedByOutcome([], r)
  {
    assert r !in Run([]).places;
  }

  lemma {:induction false} OutcomesPlace(actions: seq<Action>, r: Rec)
    ensures PlacedByOutcome(actions, r)
  {
    hide Run, PlacedByOutcome, Inv;
    if actions == [] {
      NothingEnded(r);
    } else {
      var front, a := actions[..|actions| - 1], actions[|actions| - 1];
      OutcomesPlace(front, r);
      RunKeeps(front);
      OutcomeMore(front, a, r);
      assert actions == front + [a];
    }
  }

  lemma DueMeansCounted(st: State, b: nat)
    requires Inv(st) && b in st.batches
    ensures st.batches[b].deletes == (if st.batches[b].ack == Acked then 1 else 0)
    ensures st.batches[b].ack != NotDue ==>
              forall i | 0 <= i < st.batches[b].total :: (b, i) in st.places && IsCounted(st.places[(b, i)])
  {
    assert BatchOk(st, b);
    if st.batches[b].ack != NotDue {
      assert Uncounted(st, b) == {};
      forall i | 0 <= i < st.batches[b].total
        ensures (b, i) in st.places && IsCounted(st.places[(b, i)])
      {
        assert (b, i) !in Uncounted(st, b);
      }
    }
  }

  /**
   Ack safety over every interleaving, in terms of what the worker did: a message is deleted at most once for each
   time it is received, and only if every one of its records was in the worker's hand and ended committed.
   */
  lemma AckSafety(actions: seq<Action>, b: nat)
    requires b in Run(actions).batches
    ensures var batch := Run(actions).batches[b];
            && batch.deletes <= 1
            && (batch.ack != NotDue || batch.deletes > 0 ==>
                  forall i: nat | i < batch.total :: HasCommitted(actions, (b, i)))
  {
    hide Run, Inv, HasCommitted;
    RunKeeps(actions);
    DueMeansCounted(Run(actions), b);
    var batch := Run(actions).batches[b];
    if batch.ack != NotDue {
      forall i: nat | i < batch.total
        ensures HasCommitted(actions, (b, i))
      {
        OutcomesPlace(actions, (b, i));
      }
    }
  }

  /** A record whose handling raised keeps its message undeleted, whatever happens afterwards. */
  lemma RaisedKeepsMessage(actions: seq<Action>, k: nat, b: nat, i: nat)
    requires Ended(actions, k, (b, i), false) && b in Run(actions).batches
    ensures At(Run(actions), (b, i), Failed)
    ensures Run(actions).batches[b].ack == NotDue && Run(actions).batches[b].deletes == 0
  {
    hide Run, Ended;
    OutcomesPlace(actions, (b, i));
    RunKeeps(actions);
    assert BatchOk(Run(actions), b);
    DueMeansCounted(Run(actions), b);
  }

  // ---- Nothing is stuck ----

  /** Where a record is after an action of its own, if the worker commits it. */
  function Onward(p: Place, a: Action): Place
  {
    if p == ToPut && a.Put? then Queued
    else if p == Queued && a.Take? then InHand
    else if p == InHand && a.Finish? then Committed
    else if p == Committed && a.Count? then Counted
    else if p == Counted && a.Tell? then Told
    else p
  }

  predicate Handles(a: Action, r: Rec)
  {
    a == Put(r) || a == Take(r) || a == Finish(r, true) || a == Count(r) || a == Tell(r)
  }

  ghost predicate SameBatch(st: State, next: State, b: nat)
  {
    b in st.batches && b in next.batches && next.batches[b].total == st.batches[b].total
  }

  lemma HandleOne(actions: seq<Action>, r: Rec, a: Action)
    requires r in Run(actions).places && Handles(a, r)
    ensures var st, next := Run(actions), Run(actions + [a]);
            next.places == st.places[r := Onward(st.places[r], a)] && SameBatch(st, next, r.0)
  {
    RunKeeps(actions);
    RunMore(actions, a);
    hide Run, BatchOk;
    var st, next := Run(actions), Run(actions + [a]);
    assert next.places == st.places[r := Onward(st.places[r], a)];
  }

  /** Wherever a record is, unless it failed, handling it takes it to its end and moves no other record. */
  lemma RecordCanFinish(actions: seq<Action>, r: Rec) returns (more: seq<Action>)
    requires r in Run(actions).places && Run(actions).places[r] != Failed
    ensures var st, next := Run(actions), Run(actions + more);
            next.places == st.places[r := Told] && SameBatch(st, next, r.0)
  {
    hide Run;
    var a1 := actions + [Put(r)];
    HandleOne(actions, r, Put(r));
    var a2 := a1 + [Take(r)];
    HandleOne(a1, r, Take(r));
    var a3 := a2 + [Finish(r, true)];
    HandleOne(a2, r, Finish(r, true));
    var a4 := a3 + [Count(r)];
    HandleOne(a3, r, Count(r));
    HandleOne(a4, r, Tell(r));
    more := [Put(r), Take(r), Finish(r, true), Count(r), Tell(r)];
    assert a4 + [Tell(r)] == actions + more;
  }

  ghost predicate NoneFailed(st: State, b: nat)
  {
    b in st.batches && forall i: nat | i < st.batches[b].total :: (b, i) in st.places && st.places[(b, i)] != Failed
  }

  lemma {:induction false} RecordsCanFinish(actions: seq<Action>, b: nat, n: nat) returns (more: seq<Action>)
    requires NoneFailed(Run(actions), b) && n <= Run(actions).batches[b].total
    ensures var st, next := Run(actions), Run(actions + more);
            && SameBatch(st, next, b) && NoneFailed(next, b)
            && forall i: nat | i < n :: At(next, (b, i), Told)
  {
    hide Run;
    more := [];
    assert actions + more == actions;
    if n > 0 {
      var front := RecordsCanFinish(actions, b, n - 1);
      var last := RecordCanFinish(actions + front, (b, n - 1));
      more := front + last;
      assert actions + more == actions + front + last;
    }
  }

  lemma AckAdvances(actions: seq<Action>, b: nat, a: Action)
    requires b in Run(actions).batches && (a == QueueAck(b) || a == DrainAck(b) || a == Delete(b))
    ensures var st, next := Run(actions), Run(actions + [a]);
            && b in next.batches
            && (if a.QueueAck? && st.batches[b].ack == Due then next.batches[b].ack == InQueue
                else if a.DrainAck? && st.batches[b].ack == InQueue then next.batches[b].ack == Deleting
                else if a.Delete? && st.batches[b].ack == Deleting then next.batches[b].ack == Acked
                else next.batches[b].ack == st.batches[b].ack)
  {
    RunMore(actions, a);
    hide Run;
  }

  /**
   From every reachable state a message none of whose records failed can still be deleted: no action of the
   producer or the worker takes it off its way.
   */
  lemma NothingIsStuck(actions: seq<Action>, b: nat) returns (more: seq<Action>)
    requires NoneFailed(Run(actions), b)
    ensures b in Run(actions + more).batches && Run(actions + more).batches[b].deletes == 1
  {
    hide Run, Inv;
    var handled := RecordsCanFinish(actions, b, Run(actions).batches[b].total);
    var all := actions + handled;
    RunKeeps(all);
    AllCountedIsDue(Run(all), b);
    AckAdvances(all, b, QueueAck(b));
    AckAdvances(all + [QueueAck(b)], b, DrainAck(b));
    AckAdvances(all + [QueueAck(b)] + [DrainAck(b)], b, Delete(b));
    more := handled + [QueueAck(b), DrainAck(b), Delete(b)];
    assert all + [QueueAck(b)] + [DrainAck(b)] + [Delete(b)] == actions + more;
    RunKeeps(actions + more);
    DueMeansCounted(Run(actions + more), b);
  }

  lemma AllCountedIsDue(st: State, b: nat)
    requires Inv(st) && b in st.batches && forall i: nat | i < st.batches[b].total :: At(st, (b, i), Told)
    ensures st.batches[b].ack != NotDue
  {
    assert BatchOk(st, b);
    assert Uncounted(st, b) == {};
  }

  /**
   The gate's counters are the numbers of unfinished records and unacked batches, so a step that counts one down
   always finds one to count: no clamp at zero, and no guard against a double count, ever acts.
   */
  lemma ClampsNeverAct(actions: seq<Action>, a: Action)
    ensures var st := Run(actions);
            && st.buffered == |Untold(st)| && st.outstanding == |Unacked(st)|
            && (a.Tell? && At(st, a.r, Counted) ==> st.buffered >= 1)
            && (a.Delete? && AckAt(st, a.b, Deleting) ==> st.outstanding >= 1)
            && (a.Count? && At(st, a.r, Committed) ==> a.r.0 in st.batches && st.batches[a.r.0].remaining >= 1)
  {
    RunKeeps(actions);
    var st := Run(actions);
    hide Run;
    match a {
      case Tell(r) =>
        if At(st, r, Counted) {
          TellKeeps(st, r);
        }
      case Delete(b) =>
        if AckAt(st, b, Deleting) {
          UnackedIsCounted(st, b);
        }
      case Count(r) =>
        if At(st, r, Committed) {
          CountKeeps(st, r);
        }
      case _ =>
    }
  }
}
