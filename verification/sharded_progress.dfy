/**
 When a sharded listing ends how: it raises only over a failure, a failure is never passed over, and without one
 the listing can always be brought to its end.
 */
module ShardedProgress {
  import opened Basics
  import opened ShardedListing

  // ---- A listing raises only over a failure ----

  predicate IsFailure(a: Action)
  {
    a.FailRoot? || a.Fail?
  }

  /** A producer that has met no error, and whose error is not on its way to the consumer. */
  predicate Sound(s: Shard)
  {
    s.phase != Erring && Err !in s.queue
  }

  predicate NothingFailed(st: State)
  {
    && st.end != Some(Raised)
    && forall k | 0 <= k < |st.shards| :: Sound(st.shards[k]) && (st.shards[k].phase == Gone ==> Stopped(st))
  }

  lemma StepStaysSound(w: World, st: State, a: Action)
    requires NothingFailed(st) && !IsFailure(a)
    ensures NothingFailed(Step(w, st, a))
  {
    hide Mcaps, RootStep, Produce, Sound;
    if IsProducers(a) && a.k < |st.shards| {
      ProduceStaysSound(st.shards[a.k], a, Stopped(st));
    } else if a.Take? {
      TakeStaysSound(st, a);
    } else if a.ListRoot? || a.CheckRoot? {
      RootStaysSound(w, st, a);
    }
  }

  lemma RootStaysSound(w: World, st: State, a: Action)
    requires NothingFailed(st) && (a.ListRoot? || a.CheckRoot?)
    ensures NothingFailed(RootStep(w, st, a))
  {
    hide Mcaps;
  }

  lemma TakeStaysSound(st: State, a: Action)
    requires NothingFailed(st) && a.Take?
    ensures NothingFailed(ConsumerStep(st, a))
  {
    hide Mcaps;
    assert a.k < |st.shards| ==> Sound(st.shards[a.k]);
  }

  lemma ProduceStaysSound(s: Shard, a: Action, stopped: bool)
    requires Sound(s) && IsProducers(a) && !IsFailure(a)
    ensures Sound(Produce(s, a, stopped)) && (Produce(s, a, stopped).phase == Gone ==> stopped || s.phase == Gone)
  {
  }

  lemma {:induction false} RaisedMeansFailed(w: World, actions: seq<Action>)
    requires forall a | a in actions :: !IsFailure(a)
    ensures NothingFailed(Run(w, actions)) && Run(w, actions).end != Some(Raised)
  {
    hide Step;
    if actions != [] {
      RaisedMeansFailed(w, actions[..|actions| - 1]);
      StepStaysSound(w, Run(w, actions[..|actions| - 1]), actions[|actions| - 1]);
    }
  }

  // ---- A failure is never passed over ----

  predicate FailedAt(st: State, k: nat)
  {
    k < |st.shards| && (st.shards[k].phase == Erring || st.shards[k].phase == Gone)
  }

  lemma StaysFailed(w: World, st: State, a: Action, k: nat)
    requires Inv(w, st) && FailedAt(st, k)
    ensures FailedAt(Step(w, st, a), k)
  {
    hide Mcaps, RootOk, ShardOk, Seen, RootStep, ProducerStep, ConsumerStep;
    assert st.root.place == AmongShards || st.end.Some?;
    RootLeavesShards(w, st, a);
    ConsumerKeepsPhases(st, a, k);
    if IsProducers(a) {
      ProducerStaysFailed(st, a, k);
    }
  }

  lemma RootLeavesShards(w: World, st: State, a: Action)
    requires st.root.place == AmongShards || st.end.Some?
    ensures RootStep(w, st, a).shards == st.shards
  {
    hide Mcaps;
  }

  lemma ConsumerKeepsPhases(st: State, a: Action, k: nat)
    requires k < |st.shards|
    ensures var next := ConsumerStep(st, a);
            k < |next.shards| && next.shards[k].phase == st.shards[k].phase
  {
    hide Mcaps;
  }

  lemma ProducerStaysFailed(st: State, a: Action, k: nat)
    requires IsProducers(a) && FailedAt(st, k)
    ensures FailedAt(ProducerStep(st, a), k)
  {
  }

  /** Once a producer has met an error the listing does not end as if it were whole. */
  lemma {:induction false} FailureIsNotPassedOver(w: World, actions: seq<Action>, more: seq<Action>, k: nat)
    requires w.root != [] && FailedAt(Run(w, actions), k)
    ensures FailedAt(Run(w, actions + more), k) && Run(w, actions + more).end != Some(Exhausted)
  {
    hide Run, Inv, Step;
    RunKeeps(w, actions + more);
    if more == [] {
      assert actions + more == actions;
    } else {
      var n := |more| - 1;
      FailureIsNotPassedOver(w, actions, more[..n], k);
      assert actions + more == (actions + more[..n]) + [more[n]];
      RunThen(w, actions + more[..n], more[n]);
      RunKeeps(w, actions + more[..n]);
      StaysFailed(w, Run(w, actions + more[..n]), more[n], k);
    }
    NotExhausted(w, Run(w, actions + more), k);
  }

  lemma NotExhausted(w: World, st: State, k: nat)
    requires Inv(w, st) && FailedAt(st, k)
    ensures st.end != Some(Exhausted)
  {
  }

  lemma RunThen(w: World, front: seq<Action>, a: Action)
    ensures Run(w, front + [a]) == Step(w, Run(w, front), a)
  {
    hide Step;
    assert (front + [a])[..|front|] == front;
  }

  // ---- Steps that are always possible ----

  /** The listing runs among its shards, and nobody has stopped it. */
  ghost predicate Going(w: World, st: State)
  {
    Inv(w, st) && st.end.None? && !st.stop && st.root.place == AmongShards
  }

  /** A queue that is not empty can be taken from, while some end marker is missing. */
  lemma TakeGoes(w: World, st: State, k: nat)
    requires Going(w, st) && k < |st.shards| && st.shards[k].queue != [] && !st.shards[k].seen
    ensures ConsumerStep(st, Take(k, 0)) == TakeItem(st, k, 0)
  {
    AllSeen(st.shards);
  }

  /** How far a shard is from its end marker being seen. */
  function Distance(s: Shard): nat
  {
    4 * (if s.put < |s.pages| then |s.pages| - s.put else 0) + |s.queue| +
    match s.phase
    case Paging => 5
    case Holding => 4
    case Finishing => 3
    case Ending => 2
    case _ => 0
  }

  /** What the producer does next. */
  function NextOf(s: Shard, k: nat): Action
  {
    match s.phase
    case Paging => if s.put < |s.pages| then Fetch(k) else LeaveLoop(k)
    case Holding => PutPage(k)
    case Finishing => CommitEnd(k)
    case _ => PutEnd(k)
  }

  /** Without a stop the producer's next step brings its shard nearer to the end. */
  lemma ProducerAdvances(s: Shard, k: nat)
    requires ShardOk(s, false) && Sound(s) && s.phase != Gone && s.phase != Ended && !s.seen
    ensures var t := Produce(s, NextOf(s, k), false);
            Distance(t) < Distance(s) && Sound(t) && t.phase != Gone && !t.seen
  {
  }

  /** And so does taking from its queue, unless that is its end marker. */
  lemma TakeAdvances(w: World, st: State, k: nat)
    requires Going(w, st) && k < |st.shards| && st.shards[k].queue != [] && Sound(st.shards[k])
    ensures var next := TakeItem(st, k, 0);
            && next == st.(shards := st.shards[k := next.shards[k]], finished := next.finished)
            && Distance(next.shards[k]) < Distance(st.shards[k]) && Sound(next.shards[k])
            && next.shards[k].phase == st.shards[k].phase
  {
    hide Mcaps;
    var s := st.shards[k];
    assert s.queue[0] in s.queue;
    assert forall x | x in s.queue[1..] :: x in s.queue;
  }

  /** What follows an error in the queue is taken up to it, and then the listing raises. */
  lemma {:induction false} ErrorIsTaken(w: World, actions: seq<Action>, k: nat) returns (more: seq<Action>)
    requires w.root != [] && Going(w, Run(w, actions)) && k < |Run(w, actions).shards|
    requires Run(w, actions).shards[k].phase == Gone && Err in Run(w, actions).shards[k].queue
    ensures Run(w, actions + more).end == Some(Raised)
    decreases |Run(w, actions).shards[k].queue|
  {
    hide Run, Inv, ShardOk, TakeItem;
    var st := Run(w, actions);
    var a := Take(k, 0);
    UnseenGone(w, st, k);
    TakeGoes(w, st, k);
    RunThen(w, actions, a);
    TakeTowardsError(w, st, k);
    if st.shards[k].queue[0] == Err {
      more := [a];
    } else {
      StepKeeps(w, st, a);
      var rest := ErrorIsTaken(w, actions + [a], k);
      more := [a] + rest;
      assert actions + [a] + rest == actions + more;
    }
  }

  lemma UnseenGone(w: World, st: State, k: nat)
    requires Going(w, st) && k < |st.shards| && st.shards[k].phase == Gone
    ensures !st.shards[k].seen && (Err in st.shards[k].queue ==> st.shards[k].queue[0] != Done)
  {
    assert ShardOk(st.shards[k], Stopped(st));
  }

  lemma TakeTowardsError(w: World, st: State, k: nat)
    requires k < |st.shards| && Err in st.shards[k].queue && st.shards[k].queue[0] != Done && !st.stop
    ensures var next := TakeItem(st, k, 0);
            if st.shards[k].queue[0] == Err then next.end == Some(Raised)
            else next.end == st.end && next.root == st.root && !next.stop && |next.shards| == |st.shards| &&
                 next.shards[k].phase == st.shards[k].phase && Err in next.shards[k].queue &&
                 |next.shards[k].queue| < |st.shards[k].queue|
  {
    hide Mcaps;
    var q := st.shards[k].queue;
    assert q == [q[0]] + q[1..];
  }

  /** An error a producer has met can always be brought up to the caller, unless the listing is stopped first. */
  lemma FailureCanRaise(w: World, actions: seq<Action>, k: nat) returns (more: seq<Action>)
    requires w.root != [] && Going(w, Run(w, actions)) && k < |Run(w, actions).shards|
    requires Run(w, actions).shards[k].phase == Erring
    ensures Run(w, actions + more).end == Some(Raised)
  {
    hide Run, Inv;
    var st := Run(w, actions);
    RunThen(w, actions, PutError(k));
    StepKeeps(w, st, PutError(k));
    var rest := ErrorIsTaken(w, actions + [PutError(k)], k);
    more := [PutError(k)] + rest;
    assert actions + [PutError(k)] + rest == actions + more;
  }

  // ---- To the end ----

  /** Nothing has failed and nobody has stopped the listing. */
  ghost predicate Clear(w: World, st: State)
  {
    w.root != [] && Inv(w, st) && NothingFailed(st) && st.end.None? && !st.stop
  }

  lemma ClearShard(w: World, st: State, k: nat)
    requires Clear(w, st) && k < |st.shards|
    ensures ShardOk(st.shards[k], false) && Sound(st.shards[k]) && st.shards[k].phase != Gone && Going(w, st)
    ensures st.shards[k].queue == [] && !st.shards[k].seen ==> st.shards[k].phase != Ended
  {
  }

  /** One step for one shard, after which it is nearer to its end or has reached it; the others are as they were. */
  ghost predicate Nearer(st: State, next: State, k: nat)
  {
    && |next.shards| == |st.shards| && next.root == st.root
    && (forall j | 0 <= j < |st.shards| && j != k :: next.shards[j] == st.shards[j])
    && (k < |st.shards| ==> next.shards[k].seen || Distance(next.shards[k]) < Distance(st.shards[k]))
  }

  lemma ShardStep(w: World, actions: seq<Action>, k: nat) returns (a: Action)
    requires Clear(w, Run(w, actions)) && k < |Run(w, actions).shards| && !Run(w, actions).shards[k].seen
    ensures Clear(w, Run(w, actions + [a])) && Nearer(Run(w, actions), Run(w, actions + [a]), k)
  {
    hide Run, Inv, ShardOk, TakeItem, Produce, Distance, NothingFailed, Sound;
    var st := Run(w, actions);
    var s := st.shards[k];
    ClearShard(w, st, k);
    if s.queue != [] {
      a := Take(k, 0);
      TakeGoes(w, st, k);
      TakeAdvances(w, st, k);
    } else {
      a := NextOf(s, k);
      UncancelledWhile(w, st);
      ProducerAdvances(s, k);
    }
    RunThen(w, actions, a);
    StepKeeps(w, st, a);
    StepStaysSound(w, st, a);
  }

  lemma UncancelledWhile(w: World, st: State)
    requires Clear(w, st)
    ensures !Stopped(st)
  {
  }

  /** One shard brought to its end. */
  lemma {:induction false} ShardEnds(w: World, actions: seq<Action>, k: nat) returns (more: seq<Action>)
    requires Clear(w, Run(w, actions)) && k < |Run(w, actions).shards|
    ensures var st, next := Run(w, actions), Run(w, actions + more);
            && Clear(w, next) && |next.shards| == |st.shards| && next.root == st.root && next.shards[k].seen
            && forall j | 0 <= j < |st.shards| && j != k :: next.shards[j] == st.shards[j]
    decreases Distance(Run(w, actions).shards[k])
  {
    hide Run, Clear, Distance;
    more := [];
    assert actions + more == actions;
    if !Run(w, actions).shards[k].seen {
      var a := ShardStep(w, actions, k);
      if Run(w, actions + [a]).shards[k].seen {
        more := [a];
      } else {
        var rest := ShardEnds(w, actions + [a], k);
        more := [a] + rest;
        assert actions + [a] + rest == actions + more;
      }
    }
  }

  /** The first `n` shards brought to their ends. */
  lemma {:induction false} ShardsEnd(w: World, actions: seq<Action>, n: nat) returns (more: seq<Action>)
    requires Clear(w, Run(w, actions)) && n <= |Run(w, actions).shards|
    ensures var st, next := Run(w, actions), Run(w, actions + more);
            && Clear(w, next) && |next.shards| == |st.shards| && next.root == st.root
            && forall j | 0 <= j < n :: next.shards[j].seen
  {
    hide Run, Clear;
    more := [];
    assert actions + more == actions;
    if n > 0 {
      var front := ShardsEnd(w, actions, n - 1);
      var last := ShardEnds(w, actions + front, n - 1);
      more := front + last;
      assert actions + front + last == actions + more;
    }
  }

  lemma {:induction false} EverySeen(shards: seq<Shard>)
    requires forall k | 0 <= k < |shards| :: shards[k].seen
    ensures Seen(shards) == |shards|
  {
    if shards != [] {
      EverySeen(shards[..|shards| - 1]);
    }
  }

  /** Among the shards: every end marker seen, the listing finishes. */
  lemma ShardsExhaust(w: World, actions: seq<Action>) returns (more: seq<Action>)
    requires Clear(w, Run(w, actions)) && Run(w, actions).root.place == AmongShards
    ensures Run(w, actions + more).end == Some(Exhausted)
  {
    hide Run, RootOk, ShardOk, Seen, NothingFailed;
    var front := ShardsEnd(w, actions, |Run(w, actions).shards|);
    EverySeen(Run(w, actions + front).shards);
    RunThen(w, actions + front, Finish);
    more := front + [Finish];
    assert actions + front + [Finish] == actions + more;
  }

  /** What the delimiter loop does next: with every page taken it goes on to the shards, or is done. */
  lemma RootAdvances(w: World, st: State)
    requires Clear(w, st) && st.root.place != AmongShards
    ensures var next := Step(w, st, if st.root.place == BeforePage then ListRoot else CheckRoot);
            && Inv(w, next) && NothingFailed(next) && !next.stop
            && (next.end.None? || next.end == Some(Exhausted))
            && next.root.taken <= |w.root|
            && (next.root.place == AmongShards || next.end.Some? || next.root.taken > st.root.taken ||
                (next.root.taken == st.root.taken && st.root.place == AfterPage && next.root.place == BeforePage))
    ensures st.root.place == BeforePage ==> Step(w, st, FailRoot).end == Some(Raised)
  {
    var a := if st.root.place == BeforePage then ListRoot else CheckRoot;
    StepKeeps(w, st, a);
    StepStaysSound(w, st, a);
    hide Mcaps, KeysIn, PrefixesIn, ShardOk, Seen, NothingFailed, ShardsOk, NewShards, Flatten;
  }

  /**
   Whatever has happened so far, as long as nothing has failed and nobody has stopped it, the listing can be
   brought to its end.
   */
  lemma {:induction false} ListingCanExhaust(w: World, actions: seq<Action>) returns (more: seq<Action>)
    requires w.root != [] && forall a | a in actions :: !IsFailure(a)
    requires !Run(w, actions).stop && Run(w, actions).end.None?
    ensures Run(w, actions + more).end == Some(Exhausted)
  {
    hide Run, Step, ShardsOk, KeysIn, PrefixesIn, Mcaps, NothingFailed;
    RunKeeps(w, actions);
    RaisedMeansFailed(w, actions);
    more := RootEnds(w, actions);
  }

  lemma {:induction false} RootEnds(w: World, actions: seq<Action>) returns (more: seq<Action>)
    requires Clear(w, Run(w, actions)) && Run(w, actions).root.taken <= |w.root|
    ensures Run(w, actions + more).end == Some(Exhausted)
    decreases |w.root| - Run(w, actions).root.taken, if Run(w, actions).root.place == AfterPage then 1 else 0
  {
    hide Run, Step, Inv, NothingFailed;
    var st := Run(w, actions);
    if st.root.place == AmongShards {
      more := ShardsExhaust(w, actions);
    } else {
      var a := if st.root.place == BeforePage then ListRoot else CheckRoot;
      RootAdvances(w, st);
      RunThen(w, actions, a);
      if Run(w, actions + [a]).end.Some? {
        more := [a];
      } else if Run(w, actions + [a]).root.place == AmongShards {
        var rest := ShardsExhaust(w, actions + [a]);
        more := [a] + rest;
        assert actions + [a] + rest == actions + more;
      } else {
        var rest := RootEnds(w, actions + [a]);
        more := [a] + rest;
        assert actions + [a] + rest == actions + more;
      }
    }
  }

  /** A listing that is stopped can end at once, and only as stopped. */
  lemma StopEnds(w: World, st: State)
    requires Inv(w, st) && st.end.None? && st.stop
    ensures Step(w, st, match st.root.place
                        case BeforePage => ListRoot
                        case AfterPage => CheckRoot
                        case AmongShards => NoticeStop).end == Some(StoppedEarly)
  {
  }
}
