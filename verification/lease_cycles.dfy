/**
 Whole passes through the lease machine: a materialization that succeeds, one that fails and restores, one that loses
 its artifact between its two locks, and the readers' and callers' ways of retaining. What each pass starts with
 and what it ends with, for every reachable state it can start in.
 */
module LeaseCycles {
  import opened Basics
  import opened LeaseMachine

  /** No lock but the registry's, and no ticket out. */
  ghost predicate Unheld(st: State)
  {
    Inv(st) && st.exclusive.None? && st.shared <= {Registry} && st.ticket.None?
  }

  function AtLeastOne(refs: nat): nat
  {
    if refs == 0 then 1 else refs
  }

  /** What a materialization by `n` looks like at a stage: the locks it holds, the references it owes. */
  function At(st: State, n: nat, stage: Stage, token: nat): State
  {
    With(st.(ticket := Some(n), refs := 0, shared := {},
             exclusive := if stage.Locked? || stage.Published? then Some(Agent(n)) else None),
         n, Tee(stage, token))
  }

  /** An idle thread takes the ticket; the registry's references become the token's. */
  lemma TicketAndDrop(st: State, n: nat)
    requires Unheld(st)
    ensures Step(Step(st, TakeTicket(n)), DropLease(n)) == At(st, n, Ticketed, st.refs)
  {
    hide Inv;
    InvAt(st, n);
    var one := Step(st, TakeTicket(n));
    assert one == With(st.(ticket := Some(n)), n, Tee(Ticketed, 0));
    assert st.refs == 0 ==> st.shared == {};
    assert st.shared - {Registry} == {};
    assert st.threads[n := Tee(Ticketed, 0)][n := Tee(Ticketed, st.refs)] == st.threads[n := Tee(Ticketed, st.refs)];
  }

  /** The callers' references merged in; with nothing owed, the materialization owes one of its own. */
  lemma MergeAndOwe(st: State, n: nat, token: nat, merged: nat)
    requires merged <= st.loose
    ensures Step(Step(At(st, n, Ticketed, token), MergeToken(n, merged)), OweOne(n)) ==
            At(st.(loose := st.loose - merged), n, Ticketed, AtLeastOne(token + merged))
  {
    var x, y := Tee(Ticketed, token), Tee(Ticketed, token + merged);
    assert st.threads[n := x][n := y] == st.threads[n := y];
    assert st.threads[n := y][n := Tee(Ticketed, 1)] == st.threads[n := Tee(Ticketed, 1)];
  }

  lemma Rewritten(st: State, n: nat, x: Thread, y: Thread)
    ensures With(With(st, n, x), n, y) == With(st, n, y)
  {
    assert st.threads[n := x][n := y] == st.threads[n := y];
  }

  function Cleared(artifact: Artifact): Artifact
  {
    if artifact.Damaged? then Missing else artifact
  }

  /** An unheld lock file is locked. */
  lemma Lock(st: State, n: nat, token: nat)
    ensures Step(At(st, n, Ticketed, token), LockExclusive(n)) == At(st, n, Locked, token)
  {
    assert st.threads[n := Tee(Ticketed, token)][n := Tee(Locked, token)] == st.threads[n := Tee(Locked, token)];
  }

  /** Under the exclusive lock a damaged artifact is removed, and no other. */
  lemma Clear(st: State, n: nat, token: nat)
    ensures Step(At(st, n, Locked, token), DeleteDamaged(n)) ==
            At(st.(artifact := Cleared(st.artifact)), n, Locked, token)
  {
  }

  /** Under the exclusive lock the artifact is replaced by one of a new generation. */
  lemma Replace(st: State, n: nat, token: nat)
    ensures Step(At(st, n, Locked, token), Publish(n)) ==
            At(st.(artifact := Whole(st.made + 1), made := st.made + 1), n, Published, token)
  {
    assert st.threads[n := Tee(Locked, token)][n := Tee(Published, token)] == st.threads[n := Tee(Published, token)];
  }

  /** The exclusive lock given up, the shared one taken. */
  lemma ConvertAndShare(st: State, n: nat, token: nat)
    ensures Step(At(st, n, Published, token), Convert(n)) == At(st, n, Converting, token)
    ensures Step(At(st, n, Converting, token), TakeShared(n)) == Share(At(st, n, Handed, token), Agent(n))
  {
    hide CallerStep, ReaderStep, TeeStep, AbortStep, ForeignStep;
    assert st.threads[n := Tee(Published, token)][n := Tee(Converting, token)] ==
           st.threads[n := Tee(Converting, token)];
    assert st.threads[n := Tee(Converting, token)][n := Tee(Handed, token)] == st.threads[n := Tee(Handed, token)];
    assert {} - {Agent(n)} == {};
  }

  /** A whole artifact under the shared lock is adopted: the lock and the token's references become the registry's. */
  lemma CheckAndAdopt(st: State, n: nat, token: nat)
    requires st.artifact.Whole?
    ensures Step(Share(At(st, n, Handed, token), Agent(n)), Revalidate(n)) ==
            Share(At(st, n, Revalidated, token), Agent(n))
    ensures Step(Share(At(st, n, Revalidated, token), Agent(n)), Adopt(n)) ==
            Share(At(st, n, Finalized, 0), Registry).(refs := AtLeastOne(token))
  {
    hide CallerStep, ReaderStep, TeeStep, AbortStep, ForeignStep;
    assert st.threads[n := Tee(Handed, token)][n := Tee(Revalidated, token)] ==
           st.threads[n := Tee(Revalidated, token)];
    assert st.threads[n := Tee(Revalidated, token)][n := Tee(Finalized, 0)] == st.threads[n := Tee(Finalized, 0)];
    assert ({} + {Agent(n)}) - {Agent(n)} == {};
  }

  /** A failed materialization lets go of its lock, and keeps what it owes. */
  lemma Fail(st: State, n: nat, stage: Stage, token: nat)
    requires stage in {Ticketed, Locked, Published, Converting}
    ensures Step(At(st, n, stage, token), Abort(n)) == At(st, n, Restoring, token)
  {
    hide CallerStep, ReaderStep, TeeStep, HandoffStep, ForeignStep;
    assert st.threads[n := Tee(stage, token)][n := Tee(Restoring, token)] == st.threads[n := Tee(Restoring, token)];
    assert {} - {Agent(n)} == {};
  }

  /** It takes a shared lock to put its references back under. */
  lemma Lease(st: State, n: nat, token: nat)
    requires token > 0
    ensures Step(At(st, n, Restoring, token), TryRestore(n)) == Share(At(st, n, RestoreLeased, token), Agent(n))
  {
    hide CallerStep, ReaderStep, TeeStep, HandoffStep, ForeignStep;
    assert st.threads[n := Tee(Restoring, token)][n := Tee(RestoreLeased, token)] ==
           st.threads[n := Tee(RestoreLeased, token)];
  }

  /** Under the lock the artifact is checked; if it is not whole, the lock goes. */
  lemma Recheck(st: State, n: nat, token: nat)
    ensures Step(Share(At(st, n, RestoreLeased, token), Agent(n)), CheckRestore(n)) ==
            if st.artifact.Whole? then Share(At(st, n, RestoreChecked, token), Agent(n))
            else At(st, n, Restoring, token)
  {
    hide CallerStep, ReaderStep, TeeStep, HandoffStep, ForeignStep;
    var x := Tee(RestoreLeased, token);
    assert st.threads[n := x][n := Tee(RestoreChecked, token)] == st.threads[n := Tee(RestoreChecked, token)];
    assert st.threads[n := x][n := Tee(Restoring, token)] == st.threads[n := Tee(Restoring, token)];
    assert ({} + {Agent(n)}) - {Agent(n)} == {};
  }

  /** Checked, the references go back. */
  lemma Restore(st: State, n: nat, token: nat)
    requires token > 0
    ensures Step(Share(At(st, n, RestoreChecked, token), Agent(n)), FinishRestore(n)) ==
            Share(At(st, n, Restored, 0), Registry).(refs := token)
  {
    hide CallerStep, ReaderStep, TeeStep, HandoffStep, ForeignStep;
    assert st.threads[n := Tee(RestoreChecked, token)][n := Tee(Restored, 0)] == st.threads[n := Tee(Restored, 0)];
    assert ({} + {Agent(n)}) - {Agent(n)} == {};
  }

  /** Without an artifact to lease, they can only be given up. */
  lemma Forgo(st: State, n: nat, token: nat)
    ensures Step(At(st, n, Restoring, token), GiveUp(n)) == At(st, n, Restored, 0)
  {
    hide CallerStep, ReaderStep, TeeStep, HandoffStep, ForeignStep;
    assert st.threads[n := Tee(Restoring, token)][n := Tee(Restored, 0)] == st.threads[n := Tee(Restored, 0)];
  }

  /** The ticket goes back at the end. */
  lemma Release(st: State, n: nat)
    ensures ThreadOf(st, n) == Tee(Finalized, 0) ==>
              Step(Step(st, Settle(n)), ReleaseTicket(n)) == With(st.(ticket := None), n, Idle)
    ensures ThreadOf(st, n) == Tee(Restored, 0) ==> Step(st, ReleaseTicket(n)) == With(st.(ticket := None), n, Idle)
  {
    hide CallerStep, ReaderStep, TeeStep, HandoffStep, ForeignStep;
    Rewritten(st.(ticket := None), n, Tee(Restored, 0), Idle);
  }

  // ---- Whole passes ----

  /** The outcome of a pass: nothing held but the registry's lock, and the references where they belong. */
  ghost predicate Ends(st: State, artifact: Artifact, refs: nat, loose: nat)
  {
    && st.artifact == artifact && st.refs == refs && st.loose == loose
    && st.exclusive.None? && st.ticket.None? && st.shared == if refs > 0 then {Registry} else {}
  }

  lemma RunThese(st: State, actions: seq<Action>, states: seq<State>)
    requires |states| == |actions| + 1 && states[0] == st
    requires forall i :: 0 <= i < |actions| ==> states[i + 1] == Step(states[i], actions[i])
    ensures Run(st, actions) == states[|actions|]
  {
    hide Step;
    if actions != [] {
      var n := |actions| - 1;
      RunThese(st, actions[..n], states[..n + 1]);
    }
  }

  /** Ticket, drop and merge: the materialization owes every reference there was. */
  lemma Prepare(st: State, n: nat, merged: nat) returns (actions: seq<Action>)
    requires Unheld(st) && merged <= st.loose
    ensures Run(st, actions) == At(st.(loose := st.loose - merged), n, Ticketed, AtLeastOne(st.refs + merged))
  {
    hide Step, Inv, At;
    actions := [TakeTicket(n), DropLease(n), MergeToken(n, merged), OweOne(n)];
    TicketAndDrop(st, n);
    MergeAndOwe(st, n, st.refs, merged);
    var one, two := Step(st, TakeTicket(n)), At(st, n, Ticketed, st.refs);
    RunThese(st, actions, [st, one, two, Step(two, MergeToken(n, merged)),
                           Step(Step(two, MergeToken(n, merged)), OweOne(n))]);
  }

  lemma {:induction false} RunOn(st: State, front: seq<Action>, more: seq<Action>)
    ensures Run(st, front + more) == Run(Run(st, front), more)
  {
    hide Step;
    if more == [] {
      assert front + more == front;
    } else {
      var n := |more| - 1;
      RunOn(st, front, more[..n]);
      assert (front + more)[..|front| + n] == front + more[..n];
    }
  }

  /** The artifact replaced under the exclusive lock. */
  lemma ReplaceLocked(st: State, n: nat, token: nat) returns (actions: seq<Action>)
    ensures Run(At(st, n, Ticketed, token), actions) ==
            At(st.(artifact := Whole(st.made + 1), made := st.made + 1), n, Published, token)
  {
    hide Step, At;
    var cleared := st.(artifact := Cleared(st.artifact));
    var locked := At(st, n, Locked, token);
    actions := [LockExclusive(n), DeleteDamaged(n), Publish(n)];
    Lock(st, n, token);
    Clear(st, n, token);
    Replace(cleared, n, token);
    RunThese(At(st, n, Ticketed, token), actions,
             [At(st, n, Ticketed, token), locked, At(cleared, n, Locked, token),
              At(cleared.(artifact := Whole(st.made + 1), made := st.made + 1), n, Published, token)]);
  }

  /** The published artifact adopted under the shared lock. */
  lemma HandOver(st: State, n: nat, token: nat) returns (actions: seq<Action>)
    requires st.artifact.Whole?
    ensures Ends(Run(At(st, n, Published, token), actions), st.artifact, AtLeastOne(token), st.loose)
  {
    actions := [Convert(n), TakeShared(n), Revalidate(n), Adopt(n), Settle(n), ReleaseTicket(n)];
    ConvertAndShare(st, n, token);
    CheckAndAdopt(st, n, token);
    var adopted := Share(At(st, n, Finalized, 0), Registry).(refs := AtLeastOne(token));
    Release(adopted, n);
    hide Step;
    RunThese(At(st, n, Published, token), actions,
             [At(st, n, Published, token), At(st, n, Converting, token), Share(At(st, n, Handed, token), Agent(n)),
              Share(At(st, n, Revalidated, token), Agent(n)), adopted, Step(adopted, Settle(n)),
              With(adopted.(ticket := None), n, Idle)]);
  }

  /**
   A materialization of an artifact nobody else holds can succeed: it replaces the artifact by a new one and leaves
   every reference there was, and at least one, on it.
   */
  lemma CanMaterialize(st: State, n: nat, merged: nat) returns (actions: seq<Action>)
    requires Unheld(st) && merged <= st.loose
    ensures Ends(Run(st, actions), Whole(st.made + 1), AtLeastOne(st.refs + merged), st.loose - merged)
  {
    hide Run, Step, At, Inv, Ends, Unheld;
    var base, token := st.(loose := st.loose - merged), AtLeastOne(st.refs + merged);
    var first := Prepare(st, n, merged);
    var second := ReplaceLocked(base, n, token);
    var third := HandOver(base.(artifact := Whole(base.made + 1), made := base.made + 1), n, token);
    RunOn(st, first, second);
    RunOn(st, first + second, third);
    actions := first + second + third;
  }

  /** From a failure on: the references go back onto a whole artifact, and are lost with any other. */
  lemma Recover(st: State, n: nat, token: nat) returns (actions: seq<Action>)
    requires token > 0
    ensures Ends(Run(At(st, n, Restoring, token), actions), st.artifact,
                 if st.artifact.Whole? then token else 0, st.loose)
  {
    var restoring, leased := At(st, n, Restoring, token), Share(At(st, n, RestoreLeased, token), Agent(n));
    Lease(st, n, token);
    Recheck(st, n, token);
    if st.artifact.Whole? {
      actions := [TryRestore(n), CheckRestore(n), FinishRestore(n), ReleaseTicket(n)];
      Restore(st, n, token);
      var restored := Share(At(st, n, Restored, 0), Registry).(refs := token);
      Release(restored, n);
      hide Step;
      RunThese(restoring, actions, [restoring, leased, Share(At(st, n, RestoreChecked, token), Agent(n)), restored,
                                    With(restored.(ticket := None), n, Idle)]);
    } else {
      actions := [TryRestore(n), CheckRestore(n), GiveUp(n), ReleaseTicket(n)];
      Forgo(st, n, token);
      var given := At(st, n, Restored, 0);
      Release(given, n);
      hide Step;
      RunThese(restoring, actions, [restoring, leased, restoring, given, With(given.(ticket := None), n, Idle)]);
    }
  }

  /**
   A materialization that fails under its exclusive lock leaves the artifact, unless it was damaged, and every
   reference there was, and at least one, on it.
   */
  lemma FailureCanRestore(st: State, n: nat, merged: nat) returns (actions: seq<Action>)
    requires Unheld(st) && merged <= st.loose
    ensures Ends(Run(st, actions), Cleared(st.artifact),
                 if st.artifact.Whole? then AtLeastOne(st.refs + merged) else 0, st.loose - merged)
  {
    hide Run, Step, At, Inv, Ends, Unheld;
    var base, token := st.(loose := st.loose - merged), AtLeastOne(st.refs + merged);
    var cleared := base.(artifact := Cleared(base.artifact));
    var first := Prepare(st, n, merged);
    var second := [LockExclusive(n), DeleteDamaged(n), Abort(n)];
    Lock(base, n, token);
    Clear(base, n, token);
    Fail(cleared, n, Locked, token);
    RunThese(At(base, n, Ticketed, token), second,
             [At(base, n, Ticketed, token), At(base, n, Locked, token), At(cleared, n, Locked, token),
              At(cleared, n, Restoring, token)]);
    var third := Recover(cleared, n, token);
    RunOn(st, first, second);
    RunOn(st, first + second, third);
    actions := first + second + third;
  }

  // ---- Between the two locks ----

  /** Another process that gets the lock and evicts before the shared lock is taken. */
  lemma EvictInGap(st: State, n: nat, token: nat, m: nat) returns (actions: seq<Action>)
    ensures Run(At(st, n, Converting, token), actions) == At(st.(artifact := Missing), n, Converting, token)
  {
    var from, to := At(st, n, Converting, token), At(st.(artifact := Missing), n, Converting, token);
    actions := [ForeignExclusive(m), ForeignEvict(m), ForeignRelease(m)];
    assert {} - {Foreign(m)} == {};
    var locked := from.(exclusive := Some(Foreign(m)));
    assert Step(from, ForeignExclusive(m)) == locked;
    assert Step(locked, ForeignEvict(m)) == locked.(artifact := Missing);
    assert Step(locked.(artifact := Missing), ForeignRelease(m)) == to;
    hide Step;
    RunThese(from, actions, [from, locked, locked.(artifact := Missing), to]);
  }

  /** A handoff that finds its artifact gone lets go of the lock it took, and keeps what it owes. */
  lemma HandoffUndone(st: State, n: nat, token: nat)
    requires !st.artifact.Whole?
    ensures Step(Share(At(st, n, Handed, token), Agent(n)), Revalidate(n)) == At(st, n, Restoring, token)
  {
    hide CallerStep, ReaderStep, TeeStep, AbortStep, ForeignStep;
    assert st.threads[n := Tee(Handed, token)][n := Tee(Restoring, token)] == st.threads[n := Tee(Restoring, token)];
    assert ({} + {Agent(n)}) - {Agent(n)} == {};
  }

  /**
   An artifact evicted between the two locks is not adopted: the materialization notices, and ends without a
   reference on an artifact that is not there.
   */
  lemma EvictedIsNotAdopted(st: State, n: nat, token: nat, m: nat) returns (actions: seq<Action>)
    requires token > 0
    ensures Ends(Run(At(st, n, Published, token), actions), Missing, 0, st.loose)
  {
    hide Run, Step, At, Ends;
    var gone := st.(artifact := Missing);
    ConvertAndShare(st, n, token);
    RunThese(At(st, n, Published, token), [Convert(n)], [At(st, n, Published, token), At(st, n, Converting, token)]);
    var gap := EvictInGap(st, n, token, m);
    ConvertAndShare(gone, n, token);
    HandoffUndone(gone, n, token);
    var noticed := [TakeShared(n), Revalidate(n)];
    RunThese(At(gone, n, Converting, token), noticed,
             [At(gone, n, Converting, token), Share(At(gone, n, Handed, token), Agent(n)),
              At(gone, n, Restoring, token)]);
    var rest := Recover(gone, n, token);
    RunOn(At(st, n, Published, token), [Convert(n)], gap);
    RunOn(At(st, n, Published, token), [Convert(n)] + gap, noticed);
    RunOn(At(st, n, Published, token), [Convert(n)] + gap + noticed, rest);
    actions := [Convert(n)] + gap + noticed + rest;
  }

  /** Nor is one that another process has locked in between. */
  lemma LockedIsNotAdopted(st: State, n: nat, token: nat, m: nat)
    ensures Step(Step(At(st, n, Converting, token), ForeignExclusive(m)), TakeShared(n)) ==
            At(st, n, Restoring, token).(exclusive := Some(Foreign(m)))
  {
    hide CallerStep, ReaderStep, TeeStep, AbortStep;
    assert Step(At(st, n, Converting, token), ForeignExclusive(m)) ==
           At(st, n, Converting, token).(exclusive := Some(Foreign(m)));
    assert st.threads[n := Tee(Converting, token)][n := Tee(Restoring, token)] ==
           st.threads[n := Tee(Restoring, token)];
  }

  // ---- Readers and callers ----

  /** A thread that leases and checks the artifact; it is left holding the lock only on a whole one. */
  lemma LeaseAndCheck(st: State, n: nat)
    requires st.exclusive.None? && ThreadOf(st, n).Idle? && Agent(n) !in st.shared
    ensures Step(Step(st, AcquireLease(n)), Validate(n)) ==
            if st.artifact.Whole? then With(Share(st, Agent(n)), n, Checked) else With(st, n, Idle)
  {
    hide CallerStep, TeeStep, AbortStep, HandoffStep, ForeignStep;
    assert st.threads[n := Leased][n := Checked] == st.threads[n := Checked];
    assert st.threads[n := Leased][n := Idle] == st.threads[n := Idle];
    assert (st.shared + {Agent(n)}) - {Agent(n)} == st.shared;
  }

  /** What a thread's lock turns into when it inserts `refs` references. */
  lemma Inserted(st: State, n: nat, refs: nat)
    requires LocksOk(st) && Agent(n) !in st.shared && st.exclusive.None? && refs > 0
    ensures var next := InsertLease(With(Share(st, Agent(n)), n, Checked), n, refs);
            && next.refs == st.refs + refs && next.shared == st.shared + {Registry} && next.loose == st.loose
            && next.artifact == st.artifact && next.exclusive.None? && next.ticket == st.ticket
  {
    assert (st.shared + {Agent(n)}) - {Agent(n)} == st.shared;
  }

  /**
   A reader can retain a whole artifact that nobody has locked, as many times as it asks and at least once; with any
   other artifact nothing changes, and either way no lock but the registry's is left behind.
   */
  lemma ReaderRetains(st: State, n: nat, more: nat)
    requires Inv(st) && st.exclusive.None? && ThreadOf(st, n).Idle?
    ensures var next := Step(Step(Step(st, AcquireLease(n)), Validate(n)), Retain(n, more));
            && next.refs == (if st.artifact.Whole? then st.refs + AtLeastOne(more) else st.refs)
            && next.shared == (if st.artifact.Whole? then st.shared + {Registry} else st.shared)
            && next.artifact == st.artifact && next.exclusive.None? && next.loose == st.loose
            && ThreadOf(next, n).Idle?
  {
    hide Inv, CallerStep, TeeStep, AbortStep, HandoffStep, ForeignStep, InsertLease;
    InvAt(st, n);
    LeaseAndCheck(st, n);
    if st.artifact.Whole? {
      Inserted(st, n, AtLeastOne(more));
    }
  }

  /** A caller that drops takes every reference, and the registry's lock goes. */
  lemma CallerTakesAll(st: State, n: nat)
    requires Inv(st)
    ensures var next := Step(st, DropToCaller(n));
            next == st.(refs := 0, loose := st.loose + st.refs, shared := st.shared - {Registry})
  {
    hide Inv;
    InvAt(st, n);
  }

  /** And it can put them back, any part of them, onto a whole artifact. */
  lemma CallerRestores(st: State, n: nat, refs: nat)
    requires Inv(st) && st.exclusive.None? && ThreadOf(st, n).Idle? && 0 < refs <= st.loose
    ensures var next := Step(Step(Step(st, AcquireLease(n)), Validate(n)), RestoreLoose(n, refs));
            && next.refs == (if st.artifact.Whole? then st.refs + refs else st.refs)
            && next.loose == (if st.artifact.Whole? then st.loose - refs else st.loose)
            && next.shared == (if st.artifact.Whole? then st.shared + {Registry} else st.shared)
            && next.artifact == st.artifact && next.exclusive.None? && ThreadOf(next, n).Idle?
  {
    hide Inv, ReaderStep, TeeStep, AbortStep, HandoffStep, ForeignStep, InsertLease;
    InvAt(st, n);
    LeaseAndCheck(st, n);
    if st.artifact.Whole? {
      Inserted(st, n, refs);
    }
  }
}
