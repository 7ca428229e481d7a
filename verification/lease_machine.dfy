/**
 One cached artifact, its lock file, and everything that may touch it: queries and memory-hit serves
 that take a lease, tees that rematerialize it, tokens that owe the registry references, and other
 processes. Every atomic step of the code is one action; identities do not interact, so the machine
 follows one of them.
 */
module LeaseMachine {
  import opened Basics

  datatype Artifact = Missing | Damaged | Whole(generation: nat)

  /** Who holds a lock: the lease registry, a thread of this process, or another process. */
  datatype Owner = Registry | Agent(id: nat) | Foreign(id: nat)

  /** Where a materialization stands; the exclusive lock is held at `Locked` and `Published` only. */
  datatype Stage =
    | Ticketed | Locked | Published
    | Converting | Handed | Revalidated | Finalized
    | Restoring | RestoreLeased | RestoreChecked | Restored

  /** A thread: idle, validating a lease it acquired, or materializing with `token` references owed. */
  datatype Thread = Idle | Leased | Checked | Tee(stage: Stage, token: nat)

  /** `refs` are the registry's references, `loose` those owed by tokens that callers hold. */
  datatype State = State(artifact: Artifact, made: nat, exclusive: Option<Owner>, shared: set<Owner>,
                         refs: nat, loose: nat, ticket: Option<nat>, threads: map<nat, Thread>)

  datatype Action =
    | AcquireLease(n: nat) | Validate(n: nat) | Retain(n: nat, more: nat) | RetainAgain
    | DropToCaller(n: nat) | RestoreLoose(n: nat, refs: nat) | LoseLoose(n: nat, refs: nat)
    | TakeTicket(n: nat) | DropLease(n: nat) | OweOne(n: nat) | MergeToken(n: nat, refs: nat)
    | LockExclusive(n: nat) | DeleteDamaged(n: nat) | Publish(n: nat)
    | Convert(n: nat) | TakeShared(n: nat) | Revalidate(n: nat) | Adopt(n: nat)
    | Abort(n: nat) | TryRestore(n: nat) | CheckRestore(n: nat) | FinishRestore(n: nat) | GiveUp(n: nat)
    | Settle(n: nat) | ReleaseTicket(n: nat)
    | ForeignShared(n: nat) | ForeignExclusive(n: nat) | ForeignRelease(n: nat)
    | ForeignEvict(n: nat) | ForeignPublish(n: nat) | ForeignDamage(n: nat)

  function ThreadOf(st: State, n: nat): Thread
  {
    if n in st.threads then st.threads[n] else Idle
  }

  function With(st: State, n: nat, t: Thread): State
  {
    st.(threads := st.threads[n := t])
  }

  /** `flock` in non-blocking mode. */
  predicate MayShare(st: State)
  {
    st.exclusive.None?
  }

  predicate MayExclude(st: State)
  {
    st.exclusive.None? && st.shared == {}
  }

  function Share(st: State, o: Owner): State
  {
    st.(shared := st.shared + {o})
  }

  function Unlock(st: State, o: Owner): State
  {
    st.(shared := st.shared - {o}, exclusive := if st.exclusive == Some(o) then None else st.exclusive)
  }

  /** Insert into the registry, or refcount into it; the thread's own lock becomes the registry's or goes. */
  function InsertLease(st: State, n: nat, refs: nat): State
  {
    var st' := Unlock(st, Agent(n));
    if st.refs > 0 then st'.(refs := st.refs + refs) else Share(st', Registry).(refs := refs)
  }

  // ---- Steps ----

  /** A caller's own token: it takes all references, and restores or loses them later. */
  function CallerStep(st: State, a: Action): State
  {
    match a
    case DropToCaller(_) =>
      if st.refs > 0 then Unlock(st, Registry).(refs := 0, loose := st.loose + st.refs) else st
    case RestoreLoose(n, refs) =>
      if ThreadOf(st, n).Checked? && 0 < refs <= st.loose
      then With(InsertLease(st, n, refs), n, Idle).(loose := st.loose - refs) else st
    case LoseLoose(_, refs) => if refs <= st.loose then st.(loose := st.loose - refs) else st
    case _ => st
  }

  function ReaderStep(st: State, a: Action): State
  {
    match a
    case AcquireLease(n) =>
      if ThreadOf(st, n).Idle? && MayShare(st) then With(Share(st, Agent(n)), n, Leased) else st
    case Validate(n) =>
      if !ThreadOf(st, n).Leased? then st
      else if st.artifact.Whole? then With(st, n, Checked)
      else With(Unlock(st, Agent(n)), n, Idle)
    case Retain(n, more) =>
      if ThreadOf(st, n).Checked? then With(InsertLease(st, n, if more == 0 then 1 else more), n, Idle) else st
    case RetainAgain =>
      if st.refs > 0 then st.(refs := st.refs + 1) else st
    case _ => st
  }

  function TeeStep(st: State, a: Action): State
  {
    match a
    case TakeTicket(n) =>
      if ThreadOf(st, n).Idle? && st.ticket.None? then With(st.(ticket := Some(n)), n, Tee(Ticketed, 0)) else st
    case DropLease(n) =>
      if ThreadOf(st, n).Tee? && ThreadOf(st, n).stage == Ticketed && st.refs > 0
      then With(Unlock(st, Registry).(refs := 0), n, Tee(Ticketed, ThreadOf(st, n).token + st.refs))
      else st
    case OweOne(n) =>
      if ThreadOf(st, n).Tee? && ThreadOf(st, n).stage == Ticketed && ThreadOf(st, n).token == 0
      then With(st, n, Tee(Ticketed, 1)) else st
    case MergeToken(n, refs) =>
      if ThreadOf(st, n).Tee? && ThreadOf(st, n).stage == Ticketed && refs <= st.loose
      then With(st, n, Tee(Ticketed, ThreadOf(st, n).token + refs)).(loose := st.loose - refs) else st
    case LockExclusive(n) =>
      if ThreadOf(st, n).Tee? && ThreadOf(st, n).stage == Ticketed && MayExclude(st)
      then With(st.(exclusive := Some(Agent(n))), n, Tee(Locked, ThreadOf(st, n).token)) else st
    case DeleteDamaged(n) =>
      if ThreadOf(st, n).Tee? && ThreadOf(st, n).stage == Locked && st.artifact.Damaged?
      then st.(artifact := Missing) else st
    case Publish(n) =>
      if ThreadOf(st, n).Tee? && ThreadOf(st, n).stage == Locked
      then With(st.(artifact := Whole(st.made + 1), made := st.made + 1), n, Tee(Published, ThreadOf(st, n).token))
      else st
    case _ => st
  }

  /** `finalize` after the rename: the exclusive lock becomes a shared lease, and the artifact is checked under it. */
  function HandoffStep(st: State, a: Action): State
  {
    match a
    case Convert(n) =>
      if ThreadOf(st, n).Tee? && ThreadOf(st, n).stage == Published
      then With(Unlock(st, Agent(n)), n, Tee(Converting, ThreadOf(st, n).token)) else st
    case TakeShared(n) =>
      if ThreadOf(st, n).Tee? && ThreadOf(st, n).stage == Converting then
        if MayShare(st) then With(Share(st, Agent(n)), n, Tee(Handed, ThreadOf(st, n).token))
        else With(st, n, Tee(Restoring, ThreadOf(st, n).token))
      else st
    case Revalidate(n) =>
      if ThreadOf(st, n).Tee? && ThreadOf(st, n).stage == Handed then
        if st.artifact.Whole? then With(st, n, Tee(Revalidated, ThreadOf(st, n).token))
        else With(Unlock(st, Agent(n)), n, Tee(Restoring, ThreadOf(st, n).token))
      else st
    case Adopt(n) =>
      if ThreadOf(st, n).Tee? && ThreadOf(st, n).stage == Revalidated
      then With(InsertLease(st, n, if ThreadOf(st, n).token == 0 then 1 else ThreadOf(st, n).token), n,
                Tee(Finalized, 0))
      else st
    case _ => st
  }

  /** `abortAndCleanup`, from wherever the materialization stands, and the ticket's release at its end. */
  function AbortStep(st: State, a: Action): State
  {
    match a
    case Abort(n) =>
      if ThreadOf(st, n).Tee? && !ThreadOf(st, n).stage.Finalized? && !ThreadOf(st, n).stage.Restored? &&
         !ThreadOf(st, n).stage.Restoring? && !ThreadOf(st, n).stage.RestoreLeased? &&
         !ThreadOf(st, n).stage.RestoreChecked?
      then With(Unlock(st, Agent(n)), n, Tee(Restoring, ThreadOf(st, n).token)) else st
    case TryRestore(n) =>
      if ThreadOf(st, n).Tee? && ThreadOf(st, n).stage == Restoring && ThreadOf(st, n).token > 0 && MayShare(st)
      then With(Share(st, Agent(n)), n, Tee(RestoreLeased, ThreadOf(st, n).token)) else st
    case CheckRestore(n) =>
      if ThreadOf(st, n).Tee? && ThreadOf(st, n).stage == RestoreLeased then
        if st.artifact.Whole? then With(st, n, Tee(RestoreChecked, ThreadOf(st, n).token))
        else With(Unlock(st, Agent(n)), n, Tee(Restoring, ThreadOf(st, n).token))
      else st
    case FinishRestore(n) =>
      if ThreadOf(st, n).Tee? && ThreadOf(st, n).stage == RestoreChecked && ThreadOf(st, n).token > 0
      then With(InsertLease(st, n, ThreadOf(st, n).token), n, Tee(Restored, 0)) else st
    case GiveUp(n) =>
      if ThreadOf(st, n).Tee? && ThreadOf(st, n).stage == Restoring then With(st, n, Tee(Restored, 0)) else st
    case Settle(n) =>
      if ThreadOf(st, n).Tee? && ThreadOf(st, n).stage == Finalized
      then With(st, n, Tee(Restored, ThreadOf(st, n).token)) else st
    case ReleaseTicket(n) =>
      if ThreadOf(st, n).Tee? && ThreadOf(st, n).stage == Restored then With(st.(ticket := None), n, Idle) else st
    case _ => st
  }

  /** Another process: it changes the artifact only under the exclusive lock. */
  function ForeignStep(st: State, a: Action): State
  {
    match a
    case ForeignShared(n) => if MayShare(st) then Share(st, Foreign(n)) else st
    case ForeignExclusive(n) => if MayExclude(st) then st.(exclusive := Some(Foreign(n))) else st
    case ForeignRelease(n) => Unlock(st, Foreign(n))
    case ForeignEvict(n) => if st.exclusive == Some(Foreign(n)) then st.(artifact := Missing) else st
    case ForeignPublish(n) =>
      if st.exclusive == Some(Foreign(n)) then st.(artifact := Whole(st.made + 1), made := st.made + 1) else st
    case ForeignDamage(n) => if st.exclusive == Some(Foreign(n)) then st.(artifact := Damaged) else st
    case _ => st
  }

  predicate IsForeign(a: Action)
  {
    || a.ForeignShared? || a.ForeignExclusive? || a.ForeignRelease?
    || a.ForeignEvict? || a.ForeignPublish? || a.ForeignDamage?
  }

  predicate IsCaller(a: Action)
  {
    a.DropToCaller? || a.RestoreLoose? || a.LoseLoose?
  }

  predicate IsReader(a: Action)
  {
    a.AcquireLease? || a.Validate? || a.Retain? || a.RetainAgain?
  }

  predicate IsHandoff(a: Action)
  {
    a.Convert? || a.TakeShared? || a.Revalidate? || a.Adopt?
  }

  predicate IsAbort(a: Action)
  {
    a.Abort? || a.TryRestore? || a.CheckRestore? || a.FinishRestore? || a.GiveUp? || a.Settle? || a.ReleaseTicket?
  }

  predicate IsTee(a: Action)
  {
    !IsForeign(a) && !IsCaller(a) && !IsReader(a) && !IsHandoff(a) && !IsAbort(a)
  }

  function Step(st: State, a: Action): State
  {
    if IsForeign(a) then ForeignStep(st, a)
    else if IsCaller(a) then CallerStep(st, a)
    else if IsReader(a) then ReaderStep(st, a)
    else if IsHandoff(a) then HandoffStep(st, a)
    else if IsAbort(a) then AbortStep(st, a)
    else TeeStep(st, a)
  }

  function Run(st: State, actions: seq<Action>): State
  {
    if actions == [] then st else Step(Run(st, actions[..|actions| - 1]), actions[|actions| - 1])
  }

  /** Nothing held, nothing retained; whatever artifact lies on the disk. */
  ghost predicate Fresh(st: State)
  {
    && st.exclusive.None? && st.shared == {} && st.refs == 0 && st.loose == 0 && st.ticket.None?
    && st.threads == map[] && (st.artifact.Whole? ==> st.artifact.generation <= st.made)
  }

  // ---- The invariant ----

  predicate HoldsShared(t: Thread)
  {
    t.Leased? || t.Checked? ||
    (t.Tee? && (t.stage.Handed? || t.stage.Revalidated? || t.stage.RestoreLeased? || t.stage.RestoreChecked?))
  }

  predicate HasValidated(t: Thread)
  {
    t.Checked? || (t.Tee? && (t.stage.Revalidated? || t.stage.RestoreChecked?))
  }

  predicate HoldsExclusive(t: Thread)
  {
    t.Tee? && (t.stage.Locked? || t.stage.Published?)
  }

  /** What must hold of one thread. */
  ghost predicate ThreadOk(st: State, n: nat)
  {
    var t := ThreadOf(st, n);
    && (HoldsShared(t) <==> Agent(n) in st.shared)
    && (HoldsExclusive(t) <==> st.exclusive == Some(Agent(n)))
    && (HasValidated(t) ==> st.artifact.Whole?)
    && (t.Tee? <==> st.ticket == Some(n))
    && (t.Tee? && (t.stage.Finalized? || t.stage.Restored?) ==> t.token == 0)
  }

  ghost predicate LocksOk(st: State)
  {
    && (st.exclusive.Some? ==> st.shared == {} && st.exclusive != Some(Registry))
    && (st.refs > 0 <==> Registry in st.shared)
    && (st.refs > 0 ==> st.artifact.Whole?)
  }

  ghost predicate Inv(st: State)
  {
    LocksOk(st) && forall n: nat :: ThreadOk(st, n)
  }

  /** A step that moves one thread keeps the others. */
  lemma OthersOk(st: State, next: State, n: nat)
    requires Inv(st) && LocksOk(next) && ThreadOk(next, n)
    requires forall m | m != n :: ThreadOf(next, m) == ThreadOf(st, m)
    requires forall m: nat | m != n :: (Agent(m) in next.shared <==> Agent(m) in st.shared) &&
                                       (next.exclusive == Some(Agent(m)) <==> st.exclusive == Some(Agent(m))) &&
                                       (next.ticket == Some(m) <==> st.ticket == Some(m))
    requires next.artifact == st.artifact || st.shared == {}
    ensures Inv(next)
  {
    forall m: nat
      ensures ThreadOk(next, m)
    {
      if m != n {
        assert ThreadOk(st, m);
      }
    }
  }

  lemma ReaderStepKeeps(st: State, a: Action)
    requires Inv(st)
    ensures Inv(ReaderStep(st, a))
  {
    hide Inv;
    var next := ReaderStep(st, a);
    if next != st {
      InvAt(st, if a.RetainAgain? then 0 else a.n);
      if a.RetainAgain? {
        RefsOnly(st, next);
      } else {
        OthersOk(st, next, a.n);
      }
    }
  }

  lemma CallerStepKeeps(st: State, a: Action)
    requires Inv(st)
    ensures Inv(CallerStep(st, a))
  {
    hide Inv;
    var next := CallerStep(st, a);
    if next != st {
      InvAt(st, a.n);
      OthersOk(st, next, a.n);
    }
  }

  lemma InvAt(st: State, n: nat)
    requires Inv(st)
    ensures LocksOk(st) && ThreadOk(st, n)
  {
  }

  lemma RefsOnly(st: State, next: State)
    requires Inv(st) && next == st.(refs := next.refs) && (next.refs > 0 <==> st.refs > 0)
    ensures Inv(next)
  {
    forall m: nat
      ensures ThreadOk(next, m)
    {
      assert ThreadOk(st, m);
    }
  }

  lemma TeeStepKeeps(st: State, a: Action)
    requires Inv(st)
    ensures Inv(TeeStep(st, a))
  {
    hide Inv;
    var next := TeeStep(st, a);
    if next != st {
      InvAt(st, a.n);
      OthersOk(st, next, a.n);
    }
  }

  lemma HandoffStepKeeps(st: State, a: Action)
    requires Inv(st)
    ensures Inv(HandoffStep(st, a))
  {
    hide Inv;
    var next := HandoffStep(st, a);
    if next != st {
      InvAt(st, a.n);
      OthersOk(st, next, a.n);
    }
  }

  lemma AbortStepKeeps(st: State, a: Action)
    requires Inv(st)
    ensures Inv(AbortStep(st, a))
  {
    hide Inv;
    var next := AbortStep(st, a);
    if next != st {
      InvAt(st, a.n);
      OthersOk(st, next, a.n);
    }
  }

  lemma ForeignStepKeeps(st: State, a: Action)
    requires Inv(st)
    ensures Inv(ForeignStep(st, a))
  {
    var next := ForeignStep(st, a);
    if next != st {
      forall m: nat
        ensures ThreadOk(next, m)
      {
        assert ThreadOk(st, m);
      }
    }
  }

  /** Every reachable state, whatever tees, queries, serves and other processes did. */
  lemma {:induction false} RunKeeps(st: State, actions: seq<Action>)
    requires Fresh(st)
    ensures Inv(Run(st, actions))
  {
    if actions != [] {
      hide Inv, CallerStep, ReaderStep, TeeStep, HandoffStep, AbortStep, ForeignStep;
      var front, a := Run(st, actions[..|actions| - 1]), actions[|actions| - 1];
      RunKeeps(st, actions[..|actions| - 1]);
      CallerStepKeeps(front, a);
      ReaderStepKeeps(front, a);
      TeeStepKeeps(front, a);
      HandoffStepKeeps(front, a);
      AbortStepKeeps(front, a);
      ForeignStepKeeps(front, a);
    }
  }

  // ---- What it gives ----

  /**
   In every reachable state a retained identity has its shared lock held and a whole artifact, and the next
   step, whoever takes it, leaves that artifact as it is: no publish, no corruption delete, no eviction.
   */
  lemma RetainedArtifactIsPinned(st: State, actions: seq<Action>, a: Action)
    requires Fresh(st) && Run(st, actions).refs > 0
    ensures var now := Run(st, actions);
            && Registry in now.shared && now.exclusive.None? && now.artifact.Whole?
            && Step(now, a).artifact == now.artifact
  {
    hide Run, Step, Inv;
    RunKeeps(st, actions);
    PinnedNow(Run(st, actions), a);
  }

  lemma PinnedNow(now: State, a: Action)
    requires Inv(now) && now.refs > 0
    ensures Registry in now.shared && now.exclusive.None? && now.artifact.Whole?
    ensures Step(now, a).artifact == now.artifact
  {
    hide Inv, CallerStep, ReaderStep, HandoffStep, AbortStep;
    InvAt(now, if a.RetainAgain? then 0 else a.n);
    ArtifactStays(now, a);
  }

  /** Only a materialization at its exclusive lock and other processes touch the artifact. */
  lemma ArtifactStays(st: State, a: Action)
    ensures CallerStep(st, a).artifact == st.artifact && ReaderStep(st, a).artifact == st.artifact
    ensures HandoffStep(st, a).artifact == st.artifact && AbortStep(st, a).artifact == st.artifact
    ensures CallerStep(st, a).made == st.made && ReaderStep(st, a).made == st.made
    ensures HandoffStep(st, a).made == st.made && AbortStep(st, a).made == st.made
  {
  }

  /** Retained from one state to a later one without a break, the artifact is the same throughout. */
  lemma {:induction false} PinnedThroughout(st: State, actions: seq<Action>, more: seq<Action>)
    requires Fresh(st)
    requires forall k :: 0 <= k <= |more| ==> Run(st, actions + more[..k]).refs > 0
    ensures Run(st, actions + more).artifact == Run(st, actions).artifact
  {
    hide Step;
    if more == [] {
      assert actions + more == actions;
    } else {
      var n := |more| - 1;
      forall k | 0 <= k <= n
        ensures Run(st, actions + more[..n][..k]).refs > 0
      {
        assert more[..n][..k] == more[..k];
      }
      PinnedThroughout(st, actions, more[..n]);
      assert actions + more == (actions + more[..n]) + [more[n]];
      RunThen(st, actions + more[..n], more[n]);
      RetainedArtifactIsPinned(st, actions + more[..n], more[n]);
    }
  }

  lemma RunThen(st: State, front: seq<Action>, a: Action)
    ensures Run(st, front + [a]) == Step(Run(st, front), a)
  {
    hide Step;
    assert (front + [a])[..|front|] == front;
  }

  /** An artifact that appears is new: no artifact before it was of its generation. */
  lemma PublishedIsNew(st: State, actions: seq<Action>, a: Action)
    requires Fresh(st)
    ensures var now, next := Run(st, actions), Step(Run(st, actions), a);
            && (now.artifact.Whole? ==> now.artifact.generation <= now.made)
            && (next.artifact.Whole? && next.artifact != now.artifact ==>
                  next.artifact.generation == next.made > now.made)
            && now.made <= next.made
  {
    hide Run, Step;
    MadeBounds(st, actions);
    MakesNew(Run(st, actions), a);
  }

  lemma {:induction false} MadeBounds(st: State, actions: seq<Action>)
    requires Fresh(st)
    ensures var now := Run(st, actions); now.artifact.Whole? ==> now.artifact.generation <= now.made
  {
    hide Step;
    if actions != [] {
      MadeBounds(st, actions[..|actions| - 1]);
      MakesNew(Run(st, actions[..|actions| - 1]), actions[|actions| - 1]);
    }
  }

  lemma MakesNew(st: State, a: Action)
    ensures var next := Step(st, a);
            && st.made <= next.made
            && (next.artifact.Whole? && next.artifact != st.artifact ==>
                  next.artifact.generation == next.made > st.made)
  {
    hide CallerStep, ReaderStep, HandoffStep, AbortStep;
    ArtifactStays(st, a);
  }

  /** References in the registry, owed by callers' tokens, and owed by the materialization under way. */
  function Total(st: State): nat
  {
    st.refs + st.loose +
    if st.ticket.Some? && ThreadOf(st, st.ticket.value).Tee? then ThreadOf(st, st.ticket.value).token else 0
  }

  /** What an action adds to the total; nothing when it is not enabled. */
  function Added(st: State, a: Action): int
  {
    match a
    case Retain(n, more) => if ThreadOf(st, n).Checked? then (if more == 0 then 1 else more) else 0
    case RetainAgain => if st.refs > 0 then 1 else 0
    case OweOne(n) => if ThreadOf(st, n) == Tee(Ticketed, 0) then 1 else 0
    case LoseLoose(_, refs) => if refs <= st.loose then 0 - refs else 0
    case Adopt(n) => if ThreadOf(st, n) == Tee(Revalidated, 0) then 1 else 0
    case GiveUp(n) =>
      if ThreadOf(st, n).Tee? && ThreadOf(st, n).stage == Restoring then 0 - ThreadOf(st, n).token else 0
    case _ => 0
  }

  ghost predicate HolderOk(st: State, n: nat)
  {
    LocksOk(st) && ThreadOk(st, n) && (st.ticket.Some? ==> ThreadOk(st, st.ticket.value))
  }

  lemma CallerConserves(st: State, a: Action)
    requires !a.RetainAgain? && HolderOk(st, a.n)
    ensures Total(CallerStep(st, a)) == Total(st) + if IsCaller(a) then Added(st, a) else 0
  {
  }

  lemma ReaderConserves(st: State, a: Action)
    requires HolderOk(st, if a.RetainAgain? then 0 else a.n)
    ensures Total(ReaderStep(st, a)) == Total(st) + if IsReader(a) then Added(st, a) else 0
  {
  }

  lemma TeeConserves(st: State, a: Action)
    requires !a.RetainAgain? && HolderOk(st, a.n)
    ensures Total(TeeStep(st, a)) == Total(st) + if IsTee(a) then Added(st, a) else 0
  {
  }

  lemma HandoffConserves(st: State, a: Action)
    requires !a.RetainAgain? && HolderOk(st, a.n)
    ensures Total(HandoffStep(st, a)) == Total(st) + if IsHandoff(a) then Added(st, a) else 0
  {
  }

  lemma AbortConserves(st: State, a: Action)
    requires !a.RetainAgain? && HolderOk(st, a.n)
    ensures Total(AbortStep(st, a)) == Total(st) + if IsAbort(a) then Added(st, a) else 0
  {
  }

  lemma ForeignConserves(st: State, a: Action)
    ensures Total(ForeignStep(st, a)) == Total(st)
  {
  }

  /**
   References are conserved: a drop, a merge, an adoption, a restore and every failure on the way move them
   between the registry and the tokens. Only a new holder adds any (a retain, an adoption without a token, a
   tee that owes one), and only a token that is lost or a restore that is given up loses any.
   */
  lemma ReferencesAreConserved(st: State, a: Action)
    requires Inv(st)
    ensures Total(Step(st, a)) == Total(st) + Added(st, a)
  {
    hide Total, CallerStep, ReaderStep, TeeStep, HandoffStep, AbortStep, ForeignStep, LocksOk, ThreadOk;
    if st.ticket.Some? {
      assert ThreadOk(st, st.ticket.value);
    }
    if a.RetainAgain? {
      assert ThreadOk(st, 0);
      ReaderConserves(st, a);
    } else {
      assert ThreadOk(st, a.n);
      CallerConserves(st, a);
      ReaderConserves(st, a);
      TeeConserves(st, a);
      HandoffConserves(st, a);
      AbortConserves(st, a);
      ForeignConserves(st, a);
      if IsForeign(a) {
        ForeignAddsNothing(st, a);
      }
    }
  }

  lemma ForeignAddsNothing(st: State, a: Action)
    requires IsForeign(a)
    ensures Added(st, a) == 0
  {
  }

  /** The ticket leaves only once nothing is owed, and nobody else can have taken it meanwhile. */
  lemma TicketLeavesSettled(st: State, actions: seq<Action>, a: Action)
    requires Fresh(st) && Run(st, actions).ticket.Some?
    requires Step(Run(st, actions), a).ticket != Run(st, actions).ticket
    ensures var now := Run(st, actions);
            && a == ReleaseTicket(now.ticket.value) && Step(now, a).ticket.None?
            && ThreadOf(now, now.ticket.value) == Tee(Restored, 0)
            && now.exclusive != Some(Agent(now.ticket.value)) && Agent(now.ticket.value) !in now.shared
  {
    hide Run, Step, Inv;
    RunKeeps(st, actions);
    TicketLeavesNow(Run(st, actions), a);
  }

  lemma TicketLeavesNow(now: State, a: Action)
    requires Inv(now) && now.ticket.Some? && Step(now, a).ticket != now.ticket
    ensures a == ReleaseTicket(now.ticket.value) && Step(now, a).ticket.None?
    ensures ThreadOf(now, now.ticket.value) == Tee(Restored, 0)
    ensures now.exclusive != Some(Agent(now.ticket.value)) && Agent(now.ticket.value) !in now.shared
  {
    hide Inv, CallerStep, ReaderStep, TeeStep, HandoffStep, ForeignStep;
    TicketStays(now, a);
    TeeKeepsTicket(now, a);
    InvAt(now, if a.RetainAgain? then 0 else a.n);
    InvAt(now, now.ticket.value);
  }

  /** A ticket that is out is touched by its own materialization's end only. */
  lemma TicketStays(st: State, a: Action)
    requires st.ticket.Some?
    ensures CallerStep(st, a).ticket == st.ticket && ReaderStep(st, a).ticket == st.ticket
    ensures ForeignStep(st, a).ticket == st.ticket
  {
  }

  lemma TeeKeepsTicket(st: State, a: Action)
    requires st.ticket.Some?
    ensures TeeStep(st, a).ticket == st.ticket && HandoffStep(st, a).ticket == st.ticket
  {
  }
}
