/**
 The lease registry of all identities and the move-only token that owes it references. For every identity,
 references in the registry plus references owed by the tokens at hand are unchanged by drop, move, merge
 and a successful restore.
 */
module LeaseRegistry {
  import opened Basics

  /** `retained_leases_` and `active_identities_`. An entry holds one lock and at least one reference. */
  class Registry {
    var leases: map<string, nat>
    var active: set<string>
    const retryAttempts: nat

    ghost predicate Valid()
      reads this
    {
      forall k | k in leases :: leases[k] >= 1
    }

    function Refs(identity: string): nat
      reads this
    {
      if identity in leases then leases[identity] else 0
    }

    constructor (retries: nat)
      ensures Valid() && leases == map[] && active == {} && retryAttempts == retries
    {
      leases, active, retryAttempts := map[], {}, retries;
    }

    /** `tryBeginMaterialize`: at most one ticket per identity. */
    method TryBegin(identity: string) returns (granted: bool)
      modifies this`active
      ensures granted == (identity !in old(active)) && active == old(active) + {identity}
    {
      granted := identity !in active;
      active := active + {identity};
    }

    method EndMaterialize(identity: string)
      modifies this`active
      ensures active == old(active) - {identity}
    {
      active := active - {identity};
    }

    /** `insertLeaseLocked`: true when this call created the entry, so kept the lock it was passed. */
    method Insert(identity: string, refs: nat) returns (created: bool)
      requires Valid() && refs >= 1
      modifies this`leases
      ensures Valid() && created == (old(Refs(identity)) == 0)
      ensures leases == old(leases)[identity := old(Refs(identity)) + refs]
    {
      if identity in leases {
        leases := leases[identity := leases[identity] + refs];
        return false;
      }
      leases := leases[identity := refs];
      return true;
    }

    /** `dropLeaseForMaterialize`: every reference at once, reported as it goes. */
    method Drop(identity: string) returns (dropped: nat)
      requires Valid()
      modifies this`leases
      ensures Valid() && dropped == old(Refs(identity)) && leases == old(leases) - {identity}
    {
      dropped := if identity in leases then leases[identity] else 0;
      leases := leases - {identity};
    }

    /**
     `restoreLease`: `acquires(k)` tells whether attempt `k` gets a validated lease. It stops at the first
     that does, and gives up after the retries.
     */
    method Restore(identity: string, refs: nat, acquires: nat -> bool) returns (restored: bool)
      requires Valid()
      modifies this`leases
      ensures Valid()
      ensures restored <==> refs > 0 && exists k :: 0 <= k <= retryAttempts && acquires(k)
      ensures leases == if restored then old(leases)[identity := old(Refs(identity)) + refs] else old(leases)
    {
      if refs == 0 {
        return false;
      }
      var attempt := 0;
      while attempt <= retryAttempts
        invariant 0 <= attempt <= retryAttempts + 1 && leases == old(leases)
        invariant forall k | 0 <= k < attempt :: !acquires(k)
      {
        if acquires(attempt) {
          var _ := Insert(identity, refs);
          return true;
        }
        attempt := attempt + 1;
      }
      return false;
    }
  }

  /** `ScopedLeaseDrop`: who to restore to, for which identity, and how many references. */
  class Token {
    var registry: Registry?
    var identity: string
    var refs: nat

    constructor ()
      ensures registry == null && refs == 0
    {
      registry, identity, refs := null, "", 0;
    }

    constructor Of(r: Registry, id: string, n: nat)
      ensures registry == r && identity == id && refs == n
    {
      registry, identity, refs := r, id, n;
    }

    /** What this token owes to `r` for `id`. */
    function Owes(r: Registry, id: string): nat
      reads this
    {
      if registry == r && identity == id then refs else 0
    }

    /** A token without a registry owes nothing. */
    predicate Valid()
      reads this
    {
      registry == null ==> refs == 0
    }

    /** `restoreNow`: the token empties whether or not the restore worked. */
    method RestoreNow(r: Registry, acquires: nat -> bool) returns (restored: bool)
      requires Valid() && r.Valid() && (registry == null || registry == r)
      modifies this, r`leases
      ensures Valid() && r.Valid() && registry == null && refs == 0
      ensures restored || old(refs) == 0 ==> forall id :: r.Refs(id) == old(r.Refs(id)) + old(Owes(r, id))
      ensures !restored ==> r.leases == old(r.leases)
      ensures restored <==> old(refs) > 0 && exists k :: 0 <= k <= r.retryAttempts && acquires(k)
    {
      restored := false;
      if registry != null && refs > 0 {
        restored := r.Restore(identity, refs, acquires);
      }
      registry, refs := null, 0;
    }

    method Dismiss()
      modifies this
      ensures Valid() && refs == 0 && registry == null
    {
      registry, refs := null, 0;
    }

    /** Move assignment: what this token owed is restored first, then the other's obligation moves over. */
    method MoveFrom(other: Token, r: Registry, acquires: nat -> bool) returns (restored: bool)
      requires Valid() && other.Valid() && r.Valid()
      requires (registry == null || registry == r) && (other.registry == null || other.registry == r)
      modifies this, other, r`leases
      ensures Valid() && other.Valid() && r.Valid()
      ensures other != this ==> other.refs == 0 && other.registry == null &&
                                refs == old(other.refs) && registry == old(other.registry) &&
                                identity == old(other.identity)
      ensures restored <==> other != this && old(refs) > 0 && exists k :: 0 <= k <= r.retryAttempts && acquires(k)
      ensures !restored ==> r.leases == old(r.leases)
      ensures other == this ==> refs == old(refs) && registry == old(registry) && identity == old(identity)
      ensures (registry == null || registry == r) && (other.registry == null || other.registry == r)
      ensures restored || old(refs) == 0 || other == this ==>
                forall id :: r.Refs(id) + Owes(r, id) + (if other == this then 0 else other.Owes(r, id)) ==
                             old(r.Refs(id)) + old(Owes(r, id)) + (if other == this then 0 else old(other.Owes(r, id)))
    {
      restored := false;
      if other != this {
        restored := RestoreNow(r, acquires);
        registry, identity, refs := other.registry, other.identity, other.refs;
        other.registry, other.refs := null, 0;
      }
    }

    /** `merge`: independent drops add up; by contract both are about one identity. */
    method Merge(other: Token, r: Registry)
      requires this != other && Valid() && other.Valid()
      requires (registry == null || registry == r) && (other.registry == null || other.registry == r)
      requires refs > 0 && other.refs > 0 ==> identity == other.identity
      modifies this, other
      ensures Valid() && other.Valid() && other.refs == 0 && other.registry == null
      ensures registry == null || registry == r
      ensures forall id :: Owes(r, id) == old(Owes(r, id)) + old(other.Owes(r, id))
    {
      if other.refs == 0 {
        other.registry := null;
        return;
      }
      if refs == 0 {
        registry, identity, refs := other.registry, other.identity, other.refs;
      } else {
        refs := refs + other.refs;
      }
      other.registry, other.refs := null, 0;
    }

    method EnsureRestoresAtLeastOne(r: Registry, id: string)
      requires Valid()
      modifies this
      ensures Valid() && refs >= 1
      ensures old(refs) > 0 ==> refs == old(refs) && registry == old(registry) && identity == old(identity)
      ensures old(refs) == 0 ==> registry == r && identity == id && refs == 1
    {
      if refs == 0 {
        registry, identity, refs := r, id, 1;
      }
    }
  }

  /** `dropLeaseForMaterializeScoped`: what leaves the registry is exactly what the token owes. */
  method DropScoped(r: Registry, identity: string) returns (token: Token)
    requires r.Valid()
    modifies r`leases
    ensures fresh(token) && token.Valid() && r.Valid() && token.registry == r && token.identity == identity
    ensures forall id :: r.Refs(id) + token.Owes(r, id) == old(r.Refs(id))
  {
    var dropped := r.Drop(identity);
    token := new Token.Of(r, identity, dropped);
  }

  /**
   A drop followed by any hand-offs and a successful restore is no change at all: every identity has the
   references it had.
   */
  method DropMoveMergeRestore(r: Registry, identity: string, holder: Token, acquires: nat -> bool)
    returns (restored: bool)
    requires r.Valid() && holder.Valid() && holder.registry == null && acquires(0)
    modifies r`leases, holder
    ensures r.Valid() && holder.refs == 0
    ensures forall id :: r.Refs(id) == old(r.Refs(id))
  {
    var token := DropScoped(r, identity);
    var mover := new Token();
    var _ := mover.MoveFrom(token, r, acquires);
    holder.Merge(mover, r);
    restored := holder.RestoreNow(r, acquires);
  }
}
