/**
 The fair admission gate: one pull at a time, first come first served, with cancelable waiting. Each
 method is one critical section of the code.
 */
module AdmissionGate {
  import opened Basics

  type Waiter = nat

  datatype Outcome = Admitted | Cancelled | StillWaiting

  /** Those of `arrived` that have not cancelled, in order of arrival. */
  ghost function Uncancelled(arrived: seq<Waiter>, cancelled: set<Waiter>): seq<Waiter>
  {
    if arrived == [] then []
    else
      var w := arrived[|arrived| - 1];
      Uncancelled(arrived[..|arrived| - 1], cancelled) + if w in cancelled then [] else [w]
  }

  class Gate {
    var held: bool
    var queue: seq<Waiter>
    /** Handed the gate by a releaser, not yet woken. */
    var granted: set<Waiter>

    /** Everyone who ever arrived, in order; who cancelled; who was admitted, in order; who has the gate. */
    ghost var arrived: seq<Waiter>
    ghost var cancelled: set<Waiter>
    ghost var admitted: seq<Waiter>
    ghost var holder: Option<Waiter>

    ghost predicate Valid()
      reads this
    {
      && (held <==> holder.Some?)
      && (queue != [] ==> held)
      && granted <= (if holder.Some? then {holder.value} else {})
      && Distinct(arrived)
      && (forall i | 0 <= i < |queue| :: queue[i] in arrived && queue[i] !in granted)
      && Uncancelled(arrived, cancelled) == admitted + queue
      && (holder.Some? ==> holder.value in arrived)
    }

    constructor ()
      ensures Valid() && !held && queue == [] && arrived == []
    {
      held, queue, granted := false, [], {};
      arrived, cancelled, admitted, holder := [], {}, [], None;
    }

    /** The first half of `acquireAdmission`: straight in, or to the back of the queue. */
    method Arrive(w: Waiter) returns (admittedNow: bool)
      requires Valid() && w !in arrived && w !in cancelled
      modifies this
      ensures Valid() && arrived == old(arrived) + [w] && cancelled == old(cancelled)
      ensures admittedNow == !old(held)
      ensures admittedNow ==> holder == Some(w) && queue == old(queue) && admitted == old(admitted) + [w]
      ensures !admittedNow ==> holder == old(holder) && queue == old(queue) + [w] && admitted == old(admitted)
    {
      ArrivalJoins(arrived, w, cancelled);
      DistinctMore(arrived, w);
      arrived := arrived + [w];
      if !held && queue == [] {
        held := true;
        admitted, holder := admitted + [w], Some(w);
        return true;
      }
      assert admitted + (queue + [w]) == admitted + queue + [w];
      queue := queue + [w];
      return false;
    }

    /**
     One wake-up of a waiter: granted beats cancelled. Unlinking happens under the same lock, so a waiter
     that was not granted before it is unlinked is not granted after it either.
     */
    method Wake(w: Waiter, cancelRequested: bool) returns (r: Outcome)
      requires Valid() && (w in queue || w in granted)
      modifies this
      ensures Valid() && arrived == old(arrived) && holder == old(holder) && admitted == old(admitted)
      ensures r == if w in old(granted) then Admitted else if cancelRequested then Cancelled else StillWaiting
      ensures r == Admitted ==> holder == Some(w) && queue == old(queue) && granted == old(granted) - {w}
      ensures r == Cancelled ==>
                cancelled == old(cancelled) + {w} && queue == Without(old(queue), w) && granted == old(granted)
      ensures r == StillWaiting ==> queue == old(queue) && granted == old(granted) && cancelled == old(cancelled)
      ensures r != Cancelled ==> cancelled == old(cancelled)
    {
      if w in granted {
        granted := granted - {w};
        return Admitted;
      }
      if cancelRequested {
        QueueDistinct(arrived, cancelled, admitted, queue);
        CancelRemoves(arrived, cancelled, w, admitted, queue);
        var i := 0;
        assert queue[..0] == [];
        while i < |queue| && queue[i] != w
          invariant 0 <= i <= |queue| && w !in queue[..i]
        {
          i := i + 1;
        }
        WithoutAt(queue, w, i);
        queue := queue[..i] + queue[i + 1..];
        cancelled := cancelled + {w};
        assert w !in granted;
        return Cancelled;
      }
      return StillWaiting;
    }

    /** `releaseAdmission`: the gate passes to the front of the queue, or opens. */
    method Release()
      requires Valid() && holder.Some? && granted == {}
      modifies this
      ensures Valid() && arrived == old(arrived) && cancelled == old(cancelled)
      ensures old(queue) != [] ==>
                && holder == Some(old(queue)[0]) && queue == old(queue)[1..] && held
                && admitted == old(admitted) + [old(queue)[0]] && granted == {old(queue)[0]}
      ensures old(queue) == [] ==> !held && holder.None? && queue == [] && admitted == old(admitted) && granted == {}
    {
      if queue != [] {
        var next := queue[0];
        assert admitted + queue == admitted + [next] + queue[1..];
        QueueDistinct(arrived, cancelled, admitted, queue);
        queue := queue[1..];
        granted := granted + {next};
        admitted, holder := admitted + [next], Some(next);
        return;
      }
      held := false;
      holder := None;
    }
  }

  ghost function Without(s: seq<Waiter>, w: Waiter): seq<Waiter>
  {
    if s == [] then [] else if s[0] == w then s[1..] else [s[0]] + Without(s[1..], w)
  }

  lemma {:induction false} WithoutAt(s: seq<Waiter>, w: Waiter, i: nat)
    requires i < |s| && s[i] == w && w !in s[..i]
    ensures Without(s, w) == s[..i] + s[i + 1..]
  {
    if i > 0 {
      assert s[0] in s[..i];
      assert s[1..][..i - 1] == s[..i][1..];
      WithoutAt(s[1..], w, i - 1);
      assert s[1..][i..] == s[i + 1..];
      assert s[..i] == [s[0]] + s[1..][..i - 1];
    } else {
      assert s[..0] == [];
    }
  }

  lemma ArrivalJoins(arrived: seq<Waiter>, w: Waiter, cancelled: set<Waiter>)
    requires w !in cancelled
    ensures Uncancelled(arrived + [w], cancelled) == Uncancelled(arrived, cancelled) + [w]
  {
    assert (arrived + [w])[..|arrived|] == arrived;
  }

  ghost predicate Distinct(s: seq<Waiter>)
  {
    forall i, j | 0 <= i < j < |s| :: s[i] != s[j]
  }

  lemma DistinctMore(s: seq<Waiter>, w: Waiter)
    requires Distinct(s) && w !in s
    ensures Distinct(s + [w])
  {
  }

  lemma {:induction false} UncancelledWithin(arrived: seq<Waiter>, cancelled: set<Waiter>)
    requires Distinct(arrived)
    ensures forall x | x in Uncancelled(arrived, cancelled) :: x in arrived
    ensures Distinct(Uncancelled(arrived, cancelled))
  {
    if arrived != [] {
      var n := |arrived| - 1;
      UncancelledWithin(arrived[..n], cancelled);
      var u := Uncancelled(arrived[..n], cancelled);
      assert arrived == arrived[..n] + [arrived[n]];
      NotBefore(arrived[..n], arrived[n], u);
      DistinctMore(u, arrived[n]);
      assert u + [] == u;
    }
  }

  lemma NotBefore(front: seq<Waiter>, w: Waiter, u: seq<Waiter>)
    requires Distinct(front + [w]) && forall x | x in u :: x in front
    ensures w !in u
  {
    var all := front + [w];
    forall k | 0 <= k < |front|
      ensures front[k] != w
    {
      assert all[k] == front[k] && all[|front|] == w;
    }
  }

  lemma QueueDistinct(arrived: seq<Waiter>, cancelled: set<Waiter>, admitted: seq<Waiter>, queue: seq<Waiter>)
    requires Distinct(arrived)
    requires Uncancelled(arrived, cancelled) == admitted + queue
    ensures Distinct(queue) && forall x | x in queue :: x !in admitted
  {
    UncancelledWithin(arrived, cancelled);
    var all := admitted + queue;
    forall i, j | 0 <= i < j < |queue|
      ensures queue[i] != queue[j]
    {
      assert all[|admitted| + i] == queue[i] && all[|admitted| + j] == queue[j];
    }
    forall x | x in queue
      ensures x !in admitted
    {
      var j :| 0 <= j < |queue| && queue[j] == x;
      assert all[|admitted| + j] == x;
      forall i | 0 <= i < |admitted|
        ensures admitted[i] != x
      {
        assert all[i] == admitted[i];
      }
    }
  }

  lemma {:induction false} UncancelledLess(arrived: seq<Waiter>, cancelled: set<Waiter>, w: Waiter)
    requires Distinct(arrived)
    ensures Uncancelled(arrived, cancelled + {w}) == Without(Uncancelled(arrived, cancelled), w)
  {
    if arrived != [] {
      var n := |arrived| - 1;
      UncancelledLess(arrived[..n], cancelled, w);
      UncancelledWithin(arrived[..n], cancelled);
      var u := Uncancelled(arrived[..n], cancelled);
      if arrived[n] !in cancelled {
        assert arrived == arrived[..n] + [arrived[n]];
        NotBefore(arrived[..n], arrived[n], u);
        WithoutLast(u, arrived[n], w);
      } else {
        assert u + [] == u && Without(u, w) + [] == Without(u, w);
      }
    }
  }

  lemma {:induction false} WithoutLast(s: seq<Waiter>, last: Waiter, w: Waiter)
    requires last !in s
    ensures Without(s + [last], w) == Without(s, w) + if last == w then [] else [last]
  {
    if s != [] {
      assert (s + [last])[1..] == s[1..] + [last];
      if s[0] != w {
        WithoutLast(s[1..], last, w);
      } else {
        assert last != w;
      }
    }
  }

  lemma {:induction false} WithoutBehind(a: seq<Waiter>, b: seq<Waiter>, w: Waiter)
    requires w !in a
    ensures Without(a + b, w) == a + Without(b, w)
  {
    if a == [] {
      assert a + b == b;
    } else {
      assert (a + b)[1..] == a[1..] + b;
      WithoutBehind(a[1..], b, w);
    }
  }

  /** Cancelling a queued waiter takes it out of the line and moves nobody past anybody. */
  lemma CancelRemoves(arrived: seq<Waiter>, cancelled: set<Waiter>, w: Waiter, admitted: seq<Waiter>,
                      queue: seq<Waiter>)
    requires Distinct(arrived)
    requires Uncancelled(arrived, cancelled) == admitted + queue && w in queue
    ensures Uncancelled(arrived, cancelled + {w}) == admitted + Without(queue, w)
  {
    UncancelledLess(arrived, cancelled, w);
    QueueDistinct(arrived, cancelled, admitted, queue);
    WithoutBehind(admitted, queue, w);
  }
}
