/**
 Full reconcile: classify a complete listing against the stored etags, extract on a bounded window
 whose completions arrive in any order, apply each on the single writer, then sweep what is not
 listed. The theorems say what the catalog means afterwards, whatever the order was.
 */
module Reconcile {
  import opened Basics
  import opened HiveKey
  import opened CatalogTables
  import opened CatalogWriter
  import E = CatalogEvents
  import B = CatalogBuilder
  import L = ShardedListing

  datatype Listing = Listing(key: string, stat: Stat)

  type Extractor = string -> Extract

  // ---- Specification ----

  /** The fingerprint skip: the composite is known and its stored etag is the listed one. */
  predicate Unchanged(t: Tables, l: Listing)
  {
    match Resolve(l.key)
    case None => false
    case Some(d) =>
      match CompositeOf(t.dict, d)
      case None => false
      case Some(c) => c in t.files && t.files[c].etag == l.stat.etag
  }

  /** The listings handed to the read phase, in listing order. */
  function Pending(t: Tables, ls: seq<Listing>): seq<Listing>
  {
    if ls == [] then []
    else
      var l := ls[|ls| - 1];
      Pending(t, ls[..|ls| - 1]) + if Resolve(l.key).None? || Unchanged(t, l) then [] else [l]
  }

  function MarkUnparseable(t: Tables, ls: seq<Listing>): Tables
  {
    if ls == [] then t
    else
      var l, u := ls[|ls| - 1], MarkUnparseable(t, ls[..|ls| - 1]);
      if Resolve(l.key).None? then u.(failures := u.failures[l.key := UnparseableKey]) else u
  }

  function ApplyAll(t: Tables, items: seq<Listing>, extract: Extractor): Tables
  {
    if items == [] then t
    else
      var l := items[|items| - 1];
      ApplyExtract(ApplyAll(t, items[..|items| - 1], extract), l.key, l.stat, extract(l.key))
  }

  ghost predicate Dropped(t: Tables, keep: set<Composite>, id: Id)
  {
    exists c :: HasId(t.files, c, id) && c !in keep
  }

  /** The rows in `keep`; overrides of the others cascade away. */
  ghost function Keep(t: Tables, keep: set<Composite>): Tables
  {
    t.(files := map c | c in t.files && c in keep :: t.files[c],
       overrides := map o | o in t.overrides && !Dropped(t, keep, o.0) :: t.overrides[o])
  }

  function Present(dict: Dictionaries, ls: seq<Listing>): set<Composite>
  {
    if ls == [] then {}
    else
      var l := ls[|ls| - 1];
      Present(dict, ls[..|ls| - 1]) +
      match Resolve(l.key)
      case None => {}
      case Some(d) =>
        match CompositeOf(dict, d)
        case None => {}
        case Some(c) => {c}
  }

  /** `record_build`: a new row starts at 1, an existing one counts up. */
  function RecordBuild(t: Tables, scanned: nat, failed: nat): Tables
  {
    t.(build := Some(Build(if t.build.None? then 1 else t.build.value.id + 1, true, scanned, failed)))
  }

  /**
   How far a reconcile got: how many listings were classified, which extractions were applied and in
   which order, and whether the sweep has committed.
   */
  datatype Stage = Classifying(classified: nat) | Applying(order: seq<Listing>) | Swept(order: seq<Listing>)

  ghost function AtStage(t: Tables, ls: seq<Listing>, extract: Extractor, stage: Stage): Tables
  {
    match stage
    case Classifying(n) => if n <= |ls| then MarkUnparseable(t, ls[..n]) else t
    case Applying(order) => ApplyAll(MarkUnparseable(t, ls), order, extract)
    case Swept(order) =>
      var u := ApplyAll(MarkUnparseable(t, ls), order, extract);
      Keep(u, Present(u.dict, ls))
  }

  ghost predicate Reachable(t: Tables, ls: seq<Listing>, stage: Stage)
  {
    match stage
    case Classifying(n) => n <= |ls|
    case Applying(order) => multiset(order) <= multiset(Pending(t, ls))
    case Swept(order) => multiset(order) == multiset(Pending(t, ls))
  }

  // ---- The bucket ----

  ghost predicate DistinctListings(ls: seq<Listing>)
  {
    forall i, j | 0 <= i < j < |ls| :: ls[i].key != ls[j].key
  }

  /** A listing of an object store: distinct keys, none with a leading slash. */
  ghost predicate BucketListing(ls: seq<Listing>)
  {
    DistinctListings(ls) && forall i | 0 <= i < |ls| :: Canonical(ls[i].key)
  }

  ghost predicate Listed(ls: seq<Listing>, key: string)
  {
    exists i :: 0 <= i < |ls| && ls[i].key == key
  }

  /** Some listed key is the file with these dimensions. */
  ghost predicate ListedDims(ls: seq<Listing>, d: Dims)
  {
    exists i :: 0 <= i < |ls| && Resolve(ls[i].key) == Some(d)
  }

  /** What one listing does to its key's entry, given the entry before. */
  ghost function AfterExtract(before: KeyState, l: Listing, ex: Extract): KeyState
  {
    match ex
    case Vanished => before
    case Extracted(reading) => KeyState(ExpectedFile(l.stat, reading), ExpectedFailure(reading))
  }

  /** The entry of a listed key after a finished reconcile. */
  ghost function Outcome(t: Tables, l: Listing, extract: Extractor): KeyState
    requires WellFormed(t)
  {
    if Resolve(l.key).None? then KeyState(None, Some(UnparseableKey))
    else if Unchanged(t, l) then StateOf(t, l.key)
    else AfterExtract(StateOf(t, l.key), l, extract(l.key))
  }

  // ---- Classification ----

  ghost predicate SameFiles(t: Tables, u: Tables)
    requires WellFormed(t) && WellFormed(u)
  {
    forall d :: FileAt(u, d) == FileAt(t, d)
  }

  ghost function MarkedFailure(t: Tables, ls: seq<Listing>, k: string): Option<Failure>
  {
    if Listed(ls, k) && Resolve(k).None? then Some(UnparseableKey) else FailureAt(t, k)
  }

  lemma {:induction false} MarkMeaning(t: Tables, ls: seq<Listing>)
    requires Consistent(t)
    ensures var u := MarkUnparseable(t, ls);
            && u == t.(failures := u.failures) && Consistent(u) && SameFiles(t, u) && Preserves(t, u)
            && forall k :: FailureAt(u, k) == MarkedFailure(t, ls, k)
  {
    hide FilesHaveKeys, FailuresHaveDims, WellFormed, FileAt, Resolve, Listed, Preserves;
    PreservesItself(t);
    if ls == [] {
      forall k
        ensures FailureAt(t, k) == MarkedFailure(t, [], k)
      {
        NothingListedKey(k);
      }
    } else {
      var n := |ls| - 1;
      var front, l := ls[..n], ls[n];
      MarkMeaning(t, front);
      var v, u := MarkUnparseable(t, front), MarkUnparseable(t, ls);
      assert ls == front + [l];
      if Resolve(l.key).None? {
        MarkOne(v, l.key);
        FailuresPreserve(t, v, u.failures);
      }
      forall k
        ensures FailureAt(u, k) == MarkedFailure(t, ls, k)
      {
        ListedMore(front, l, k);
        assert FailureAt(v, k) == MarkedFailure(t, front, k);
      }
    }
  }

  lemma NothingListedKey(k: string)
    ensures !Listed([], k)
  {
  }

  lemma ListedMore(front: seq<Listing>, l: Listing, k: string)
    ensures Listed(front + [l], k) <==> Listed(front, k) || l.key == k
  {
    var ls := front + [l];
    if Listed(front, k) {
      var i :| 0 <= i < |front| && front[i].key == k;
      assert ls[i].key == k;
    }
    assert ls[|front|].key == k ==> Listed(ls, k);
  }

  lemma MarkOne(t: Tables, key: string)
    requires Consistent(t) && Resolve(key).None?
    ensures var u := t.(failures := t.failures[key := UnparseableKey]);
            Consistent(u) && SameFiles(t, u)
  {
    hide AllSound, FileAt, CompositeOf;
    var u := t.(failures := t.failures[key := UnparseableKey]);
    FailuresAreSeparate(t, u.failures);
    forall d | FileAt(u, d).Some?
      ensures Valid(d) && Rebuild(d) !in u.failures
    {
      assert FileAt(t, d).Some?;
      ParseRebuild(d);
      ResolveAcceptsIff(Rebuild(d));
    }
  }

  // ---- Applying in any order ----

  lemma ApplyOneMeaning(t: Tables, l: Listing, ex: Extract)
    requires Consistent(t) && Canonical(l.key) && Resolve(l.key).Some?
    ensures var u := ApplyExtract(t, l.key, l.stat, ex);
            && Consistent(u)
            && StateOf(u, l.key) == AfterExtract(StateOf(t, l.key), l, ex)
            && OnlyAffects(t, u, Resolve(l.key).value) && Preserves(t, u)
            && forall k | k != l.key :: FailureAt(u, k) == FailureAt(t, k)
  {
    hide FileAt, Consistent, Resolve, Canonical, Preserves;
    PreservesItself(t);
    if ex.Extracted? {
      ApplyKeepsConsistent(t, l.key, l.stat, ex.reading);
    }
  }

  ghost predicate AllParseable(items: seq<Listing>)
  {
    forall i | 0 <= i < |items| :: Canonical(items[i].key) && Resolve(items[i].key).Some?
  }

  /** `u` differs from `t` at most in the entries of `items`. */
  ghost predicate TouchesOnly(t: Tables, u: Tables, items: seq<Listing>)
    requires WellFormed(t) && WellFormed(u)
  {
    && (forall d | !ListedDims(items, d) :: FileAt(u, d) == FileAt(t, d))
    && (forall k | !Listed(items, k) :: FailureAt(u, k) == FailureAt(t, k))
  }

  ghost predicate Applied(t: Tables, u: Tables, l: Listing, extract: Extractor)
    requires WellFormed(t) && WellFormed(u)
  {
    StateOf(u, l.key) == AfterExtract(StateOf(t, l.key), l, extract(l.key))
  }

  /** Every listing's entry is decided by that listing alone, whatever was applied around it. */
  lemma {:induction false} ApplyAllMeaning(t: Tables, items: seq<Listing>, extract: Extractor)
    requires Consistent(t) && DistinctListings(items) && AllParseable(items)
    ensures var u := ApplyAll(t, items, extract);
            && Consistent(u) && TouchesOnly(t, u, items) && Preserves(t, u)
            && forall i | 0 <= i < |items| :: Applied(t, u, items[i], extract)
  {
    hide FileAt, WellFormed, FilesHaveKeys, FailuresHaveDims, Resolve, Canonical, ApplyExtract, AfterExtract,
         OnlyAffects, TouchesOnly, Applied, Preserves;
    if items == [] {
      NothingTouched(t);
      PreservesItself(t);
    } else {
      var n := |items| - 1;
      var front, l := items[..n], items[n];
      ApplyAllMeaning(t, front, extract);
      var v := ApplyAll(t, front, extract);
      ApplyOneMeaning(v, l, extract(l.key));
      var u := ApplyAll(t, items, extract);
      assert !Listed(front, l.key);
      LaterKeyUntouched(t, v, front, l);
      LastApplied(t, v, u, l, extract);
      assert items == front + [l];
      TouchesOneMore(t, v, u, front, l);
      PreservesOneMore(t, v, u, l.key);
      forall i | 0 <= i < n
        ensures Applied(t, u, items[i], extract)
      {
        assert Applied(t, v, front[i], extract);
        EarlierKeyKept(t, v, u, front[i], l, extract);
      }
    }
  }

  /** A key touched once keeps its overrides with its file: no file is dropped and brought back. */
  lemma PreservesOneMore(t: Tables, v: Tables, u: Tables, key: string)
    requires WellFormed(t) && WellFormed(v) && WellFormed(u) && Resolve(key).Some?
    requires StateOf(v, key) == StateOf(t, key) && OnlyAffects(v, u, Resolve(key).value)
    requires Preserves(t, v) && Preserves(v, u)
    ensures Preserves(t, u)
  {
    hide WellFormed, FileAt, LookupFile, Preserves, Resolve;
    forall d
      ensures LookupFile(u, d).Some? && LookupFile(v, d).None? ==> LookupFile(t, d).None?
    {
      LookupIsFile(t, d);
      LookupIsFile(v, d);
      LookupIsFile(u, d);
    }
    PreservesInTurn(t, v, u);
  }

  lemma NothingTouched(t: Tables)
    requires WellFormed(t)
    ensures TouchesOnly(t, t, [])
  {
  }

  lemma LastApplied(t: Tables, v: Tables, u: Tables, l: Listing, extract: Extractor)
    requires WellFormed(t) && WellFormed(v) && WellFormed(u)
    requires StateOf(v, l.key) == StateOf(t, l.key)
    requires StateOf(u, l.key) == AfterExtract(StateOf(v, l.key), l, extract(l.key))
    ensures Applied(t, u, l, extract)
  {
  }

  lemma EarlierKeyKept(t: Tables, v: Tables, u: Tables, i: Listing, l: Listing, extract: Extractor)
    requires WellFormed(t) && WellFormed(v) && WellFormed(u) && Applied(t, v, i, extract)
    requires Canonical(i.key) && Canonical(l.key) && Resolve(l.key).Some? && i.key != l.key
    requires OnlyAffects(v, u, Resolve(l.key).value) && FailureAt(u, i.key) == FailureAt(v, i.key)
    ensures Applied(t, u, i, extract)
  {
    hide OnlyAffects, Resolve, StateOf, AfterExtract, WellFormed;
    OtherKeysKeepState(v, u, l.key, i.key);
  }

  lemma TouchesOneMore(t: Tables, v: Tables, u: Tables, front: seq<Listing>, l: Listing)
    requires WellFormed(t) && WellFormed(v) && WellFormed(u) && Resolve(l.key).Some?
    requires TouchesOnly(t, v, front) && OnlyAffects(v, u, Resolve(l.key).value)
    requires forall k | k != l.key :: FailureAt(u, k) == FailureAt(v, k)
    ensures TouchesOnly(t, u, front + [l])
  {
    hide WellFormed, FileAt, Resolve, Listed, ListedDims, FailureAt, TouchesOnly, OnlyAffects;
    var all := front + [l];
    forall d | !ListedDims(all, d)
      ensures FileAt(u, d) == FileAt(t, d)
    {
      ListedDimsMore(front, l, d);
      UntouchedDims(t, v, front, d);
      OtherDims(v, u, Resolve(l.key).value, d);
    }
    forall k | !Listed(all, k)
      ensures FailureAt(u, k) == FailureAt(t, k)
    {
      ListedMore(front, l, k);
      UntouchedKey(t, v, front, k);
    }
    TouchesNoMore(t, u, all);
  }

  lemma UntouchedDims(t: Tables, u: Tables, items: seq<Listing>, d: Dims)
    requires WellFormed(t) && WellFormed(u) && TouchesOnly(t, u, items) && !ListedDims(items, d)
    ensures FileAt(u, d) == FileAt(t, d)
  {
  }

  lemma UntouchedKey(t: Tables, u: Tables, items: seq<Listing>, k: string)
    requires WellFormed(t) && WellFormed(u) && TouchesOnly(t, u, items) && !Listed(items, k)
    ensures FailureAt(u, k) == FailureAt(t, k)
  {
  }

  lemma OtherDims(t: Tables, u: Tables, d: Dims, e: Dims)
    requires WellFormed(t) && WellFormed(u) && OnlyAffects(t, u, d) && e != d
    ensures FileAt(u, e) == FileAt(t, e)
  {
  }

  lemma TouchesNoMore(t: Tables, u: Tables, items: seq<Listing>)
    requires WellFormed(t) && WellFormed(u)
    requires forall d | !ListedDims(items, d) :: FileAt(u, d) == FileAt(t, d)
    requires forall k | !Listed(items, k) :: FailureAt(u, k) == FailureAt(t, k)
    ensures TouchesOnly(t, u, items)
  {
    hide WellFormed, FileAt, Listed, ListedDims, FailureAt;
  }

  /** A key not among `front` keeps its whole entry while `front` is applied. */
  lemma LaterKeyUntouched(t: Tables, v: Tables, front: seq<Listing>, l: Listing)
    requires WellFormed(t) && WellFormed(v) && AllParseable(front)
    requires Canonical(l.key) && Resolve(l.key).Some? && !Listed(front, l.key)
    requires TouchesOnly(t, v, front)
    ensures StateOf(v, l.key) == StateOf(t, l.key)
  {
    hide FileAt, WellFormed;
    NotListedDims(front, l.key);
  }

  lemma NotListedDims(ls: seq<Listing>, key: string)
    requires forall i | 0 <= i < |ls| :: Canonical(ls[i].key)
    requires Canonical(key) && Resolve(key).Some? && !Listed(ls, key)
    ensures !ListedDims(ls, Resolve(key).value)
  {
    hide Resolve;
  }

  // ---- The sweep ----

  lemma KeepWellFormed(t: Tables, keep: set<Composite>)
    requires WellFormed(t)
    ensures WellFormed(Keep(t, keep))
  {
    hide AllSound, RowResolves;
    var u := Keep(t, keep);
    forall c | c in u.files
      ensures RowResolves(u.dict, c, u.files[c])
    {
      assert RowResolves(t.dict, c, t.files[c]);
    }
    forall c, e, id | HasId(u.files, c, id) && HasId(u.files, e, id)
      ensures c == e
    {
      assert HasId(t.files, c, id) && HasId(t.files, e, id);
    }
    forall o | o in u.overrides
      ensures exists c :: HasId(u.files, c, o.0)
    {
      var c :| HasId(t.files, c, o.0);
      assert c in keep;
      assert HasId(u.files, c, o.0);
    }
  }

  /** The cascade of the sweep takes the dropped rows' overrides and no others. */
  lemma KeepPreserves(t: Tables, keep: set<Composite>)
    requires WellFormed(t)
    ensures Preserves(t, Keep(t, keep))
  {
    hide AllSound, FilesResolve, OverridesAttached, CompositeOf;
    var u := Keep(t, keep);
    forall d, key
      ensures OverrideAt(u, d, key) == if LookupFile(u, d).Some? then OverrideAt(t, d, key) else None
    {
      if LookupFile(u, d).Some? {
        var c := CompositeOf(t.dict, d).value;
        assert HasId(t.files, c, t.files[c].id);
        assert !Dropped(t, keep, t.files[c].id);
      }
    }
  }

  lemma KeepMeaning(t: Tables, keep: set<Composite>, d: Dims)
    requires WellFormed(t)
    ensures WellFormed(Keep(t, keep))
    ensures FileAt(Keep(t, keep), d) ==
            if CompositeOf(t.dict, d).Some? && CompositeOf(t.dict, d).value in keep then FileAt(t, d) else None
  {
    hide AllSound, FilesResolve, IdsDistinct, OverridesAttached, CompositeOf;
    KeepWellFormed(t, keep);
    var u := Keep(t, keep);
    if CompositeOf(t.dict, d).Some? && CompositeOf(t.dict, d).value in keep {
      OtherFile(t, u, d);
    }
  }

  /** `present` holds exactly the known composites of the listed files. */
  lemma {:induction false} PresentIsListed(dict: Dictionaries, ls: seq<Listing>, d: Dims)
    requires AllSound(dict) && CompositeOf(dict, d).Some?
    ensures CompositeOf(dict, d).value in Present(dict, ls) <==> ListedDims(ls, d)
  {
    hide CompositeOf, Resolve, AllSound, ListedDims;
    if ls == [] {
      NothingListed(d);
    } else {
      var n := |ls| - 1;
      PresentIsListed(dict, ls[..n], d);
      assert ls == ls[..n] + [ls[n]];
      ListedDimsMore(ls[..n], ls[n], d);
      var r := Resolve(ls[n].key);
      if r.Some? && r.value != d {
        OtherComposite(dict, d, r.value);
      }
    }
  }

  lemma NothingListed(d: Dims)
    ensures !ListedDims([], d)
  {
  }

  lemma ListedDimsMore(front: seq<Listing>, l: Listing, d: Dims)
    ensures ListedDims(front + [l], d) <==> ListedDims(front, d) || Resolve(l.key) == Some(d)
  {
    hide Resolve;
    var ls := front + [l];
    if ListedDims(front, d) {
      var i :| 0 <= i < |front| && Resolve(front[i].key) == Some(d);
      assert Resolve(ls[i].key) == Some(d);
    }
    assert Resolve(ls[|front|].key) == Some(d) ==> ListedDims(ls, d);
  }

  /** The sweep removes every file that is not listed and touches nothing else. */
  lemma SweepMeaning(t: Tables, ls: seq<Listing>)
    requires Consistent(t)
    ensures var u := Keep(t, Present(t.dict, ls));
            && Consistent(u) && u.failures == t.failures && Preserves(t, u)
            && forall d :: FileAt(u, d) == if ListedDims(ls, d) then FileAt(t, d) else None
  {
    hide Preserves, FileAt, Resolve, Valid, Rebuild, CompositeOf, Keep, ListedDims, FailuresHaveDims, FilesHaveKeys,
         AllSound;
    var u := Keep(t, Present(t.dict, ls));
    SweepKeepsRest(t, Present(t.dict, ls));
    KeepPreserves(t, Present(t.dict, ls));
    KeepWellFormed(t, Present(t.dict, ls));
    forall d
      ensures WellFormed(u) && FileAt(u, d) == if ListedDims(ls, d) then FileAt(t, d) else None
    {
      KeepMeaning(t, Present(t.dict, ls), d);
      if CompositeOf(t.dict, d).Some? {
        PresentIsListed(t.dict, ls, d);
      } else {
        NoCompositeNoFile(t, d);
      }
    }
    FewerFilesConsistent(t, u);
  }

  lemma FewerFilesConsistent(t: Tables, u: Tables)
    requires Consistent(t) && WellFormed(u) && u.failures == t.failures && u.dict == t.dict
    requires forall d :: FileAt(u, d) == FileAt(t, d) || FileAt(u, d).None?
    ensures Consistent(u)
  {
    hide FileAt, WellFormed, Resolve, Valid, Rebuild, CompositeOf;
    forall d | FileAt(u, d).Some?
      ensures Valid(d) && Rebuild(d) !in u.failures
    {
      assert FileAt(t, d).Some?;
    }
  }

  lemma SweepKeepsRest(t: Tables, keep: set<Composite>)
    ensures Keep(t, keep).failures == t.failures && Keep(t, keep).dict == t.dict
  {
  }

  lemma NoCompositeNoFile(t: Tables, d: Dims)
    requires WellFormed(t) && CompositeOf(t.dict, d).None?
    ensures FileAt(t, d).None?
  {
  }

  // ---- The finished reconcile ----

  /** What a catalog says, ids and bookkeeping aside: every file and every failure. */
  ghost predicate SameMeaning(t: Tables, u: Tables)
    requires WellFormed(t) && WellFormed(u)
  {
    (forall d :: FileAt(t, d) == FileAt(u, d)) && (forall k :: FailureAt(t, k) == FailureAt(u, k))
  }

  lemma {:induction false} PendingSound(t: Tables, ls: seq<Listing>, l: Listing)
    ensures l in Pending(t, ls) <==> l in ls && Resolve(l.key).Some? && !Unchanged(t, l)
  {
    hide Resolve, Unchanged;
    if ls != [] {
      PendingSound(t, ls[..|ls| - 1], l);
      assert ls == ls[..|ls| - 1] + [ls[|ls| - 1]];
    }
  }

  lemma {:induction false} PendingDistinct(t: Tables, ls: seq<Listing>)
    requires DistinctListings(ls)
    ensures DistinctListings(Pending(t, ls))
  {
    hide Resolve, Unchanged;
    if ls != [] {
      var n := |ls| - 1;
      PendingDistinct(t, ls[..n]);
      var p := Pending(t, ls[..n]);
      forall i | 0 <= i < |p|
        ensures p[i].key != ls[n].key
      {
        PendingSound(t, ls[..n], p[i]);
        var j :| 0 <= j < n && ls[..n][j] == p[i];
      }
    }
  }

  lemma {:induction false} DistinctOnce(p: seq<Listing>, x: Listing)
    requires DistinctListings(p)
    ensures multiset(p)[x] <= 1
  {
    if p != [] {
      var n := |p| - 1;
      DistinctOnce(p[..n], x);
      assert p == p[..n] + [p[n]];
      assert x in p[..n] ==> exists i :: 0 <= i < n && p[..n][i] == x;
    }
  }

  lemma PickedFrom(p: seq<Listing>, order: seq<Listing>, i: nat)
    requires multiset(order) <= multiset(p) && i < |order|
    ensures order[i] in p
  {
    assert order[i] in multiset(order);
  }

  lemma PickedOnce(p: seq<Listing>, order: seq<Listing>, i: nat, j: nat)
    requires DistinctListings(p) && multiset(order) <= multiset(p) && i < j < |order|
    ensures order[i].key != order[j].key
  {
    PickedFrom(p, order, i);
    PickedFrom(p, order, j);
    if order[i].key == order[j].key {
      SameListing(p, order[i], order[j]);
      TwiceInOrder(order, i, j);
      DistinctOnce(p, order[i]);
      assert false;
    }
  }

  /** Any sub-multiset of the pending listings, in any order, is fit to be applied. */
  lemma OrderIsFit(t: Tables, ls: seq<Listing>, order: seq<Listing>)
    requires BucketListing(ls) && multiset(order) <= multiset(Pending(t, ls))
    ensures DistinctListings(order) && AllParseable(order)
  {
    hide Resolve, Unchanged, Pending, Canonical;
    PendingDistinct(t, ls);
    var p := Pending(t, ls);
    forall i | 0 <= i < |order|
      ensures Canonical(order[i].key) && Resolve(order[i].key).Some?
    {
      PickedFrom(p, order, i);
      PendingSound(t, ls, order[i]);
    }
    forall i, j | 0 <= i < j < |order|
      ensures order[i].key != order[j].key
    {
      PickedOnce(p, order, i, j);
    }
  }

  lemma SameListing(p: seq<Listing>, a: Listing, b: Listing)
    requires DistinctListings(p) && a in p && b in p && a.key == b.key
    ensures a == b
  {
  }

  lemma TwiceInOrder(order: seq<Listing>, i: nat, j: nat)
    requires i < j < |order| && order[i] == order[j]
    ensures multiset(order)[order[i]] >= 2
  {
    assert order == order[..j] + [order[j]] + order[j + 1..];
    assert order[i] in order[..j];
  }

  /**
   Every stage of a reconcile, finished or cut short anywhere, is a consistent catalog, in which every file that is
   still there has exactly the overrides it had.
   */
  lemma EveryStageIsConsistent(t: Tables, ls: seq<Listing>, extract: Extractor, stage: Stage)
    requires Consistent(t) && BucketListing(ls) && Reachable(t, ls, stage)
    ensures Consistent(AtStage(t, ls, extract, stage)) && Preserves(t, AtStage(t, ls, extract, stage))
  {
    hide WellFormed, FilesHaveKeys, FailuresHaveDims, BucketListing, MarkUnparseable, ApplyAll, Keep, Present, Pending,
         Preserves, FileAt, TouchesOnly, Applied, DistinctListings, AllParseable, ListedDims;
    match stage {
      case Classifying(n) => MarkMeaning(t, ls[..n]);
      case Applying(order) => AppliedStage(t, ls, extract, order);
      case Swept(order) =>
        AppliedStage(t, ls, extract, order);
        var u := ApplyAll(MarkUnparseable(t, ls), order, extract);
        SweepMeaning(u, ls);
        FewerFilesPreserve(t, u, Keep(u, Present(u.dict, ls)));
    }
  }

  lemma AppliedStage(t: Tables, ls: seq<Listing>, extract: Extractor, order: seq<Listing>)
    requires Consistent(t) && BucketListing(ls) && multiset(order) <= multiset(Pending(t, ls))
    ensures var u := ApplyAll(MarkUnparseable(t, ls), order, extract);
            Consistent(u) && Preserves(t, u)
  {
    hide WellFormed, FilesHaveKeys, FailuresHaveDims, BucketListing, MarkUnparseable, ApplyAll, Pending, Preserves,
         FileAt, TouchesOnly, Applied, DistinctListings, AllParseable;
    MarkMeaning(t, ls);
    OrderIsFit(t, ls, order);
    var v := MarkUnparseable(t, ls);
    ApplyAllMeaning(v, order, extract);
    SameFilesThenPreserve(t, v, ApplyAll(v, order, extract));
  }

  lemma SameFilesThenPreserve(t: Tables, v: Tables, u: Tables)
    requires WellFormed(t) && WellFormed(v) && SameFiles(t, v) && Preserves(t, v) && Preserves(v, u)
    ensures Preserves(t, u)
  {
    hide WellFormed, FileAt, LookupFile, Preserves;
    forall d
      ensures LookupFile(v, d).Some? <==> LookupFile(t, d).Some?
    {
      LookupIsFile(t, d);
      LookupIsFile(v, d);
    }
    PreservesInTurn(t, v, u);
  }

  lemma FewerFilesPreserve(t: Tables, v: Tables, u: Tables)
    requires WellFormed(v) && WellFormed(u) && Preserves(t, v) && Preserves(v, u)
    requires forall d :: FileAt(u, d) == FileAt(v, d) || FileAt(u, d).None?
    ensures Preserves(t, u)
  {
    hide WellFormed, FileAt, LookupFile, Preserves;
    forall d
      ensures LookupFile(u, d).Some? ==> LookupFile(v, d).Some?
    {
      LookupIsFile(v, d);
      LookupIsFile(u, d);
    }
    PreservesInTurn(t, v, u);
  }

  lemma MarkKeepsParseable(t: Tables, ls: seq<Listing>, key: string)
    requires Consistent(t) && Resolve(key).Some?
    ensures Consistent(MarkUnparseable(t, ls)) && StateOf(MarkUnparseable(t, ls), key) == StateOf(t, key)
  {
    hide Consistent, FileAt, Resolve, FailureAt;
    MarkMeaning(t, ls);
  }

  /** After all of the pending listings, and before the sweep: each listed key has its outcome. */
  lemma AppliedOutcome(t: Tables, ls: seq<Listing>, order: seq<Listing>, extract: Extractor, l: Listing)
    requires Consistent(t) && BucketListing(ls) && multiset(order) == multiset(Pending(t, ls)) && l in ls
    ensures var u := ApplyAll(MarkUnparseable(t, ls), order, extract);
            Consistent(u) && StateOf(u, l.key) == Outcome(t, l, extract)
  {
    hide FilesHaveKeys, FailuresHaveDims, WellFormed, MarkUnparseable, ApplyAll, Pending, Resolve, Unchanged, FileAt,
         AfterExtract, StateOf, TouchesOnly;
    var v := MarkUnparseable(t, ls);
    MarkMeaning(t, ls);
    OrderIsFit(t, ls, order);
    ApplyAllMeaning(v, order, extract);
    var u := ApplyAll(v, order, extract);
    PendingSound(t, ls, l);
    if Resolve(l.key).None? {
      UnparseableState(t, v, u, ls, order, l);
    } else {
      MarkKeepsParseable(t, ls, l.key);
      if Unchanged(t, l) {
        NotInOrder(t, ls, order, l);
        LaterKeyUntouched(v, u, order, l);
      } else {
        assert l in multiset(order);
        var i :| 0 <= i < |order| && order[i] == l;
        assert Applied(v, u, order[i], extract);
      }
    }
  }

  /** A skipped listing's key is not among the applied ones. */
  lemma NotInOrder(t: Tables, ls: seq<Listing>, order: seq<Listing>, l: Listing)
    requires DistinctListings(ls) && l in ls && Unchanged(t, l) && multiset(order) == multiset(Pending(t, ls))
    ensures !Listed(order, l.key)
  {
    hide Unchanged, Resolve, Pending;
    if Listed(order, l.key) {
      var i :| 0 <= i < |order| && order[i].key == l.key;
      assert order[i] in multiset(order);
      PendingSound(t, ls, order[i]);
      SameListing(ls, order[i], l);
    }
  }

  lemma UnparseableState(t: Tables, v: Tables, u: Tables, ls: seq<Listing>, order: seq<Listing>, l: Listing)
    requires WellFormed(v) && WellFormed(u) && l in ls && Resolve(l.key).None? && AllParseable(order)
    requires TouchesOnly(v, u, order) && FailureAt(v, l.key) == Some(UnparseableKey)
    ensures StateOf(u, l.key) == KeyState(None, Some(UnparseableKey))
  {
    hide WellFormed, Resolve, FileAt;
    assert !Listed(order, l.key);
  }

  /**
   A finished reconcile, whatever order the extractions completed in: the entry of each listed key is
   decided by its listing and its object; a file that is not listed is gone; a key that is not listed
   keeps its failure entry.
   */
  lemma ReconcileMeaning(t: Tables, ls: seq<Listing>, order: seq<Listing>, extract: Extractor)
    requires Consistent(t) && BucketListing(ls) && multiset(order) == multiset(Pending(t, ls))
    ensures var u := AtStage(t, ls, extract, Swept(order));
            && Consistent(u)
            && (forall l | l in ls :: StateOf(u, l.key) == Outcome(t, l, extract))
            && (forall d | !ListedDims(ls, d) :: FileAt(u, d).None?)
            && (forall k | !Listed(ls, k) :: FailureAt(u, k) == FailureAt(t, k))
  {
    hide FilesHaveKeys, FailuresHaveDims, WellFormed, MarkUnparseable, ApplyAll, Pending, Resolve, Unchanged, FileAt,
         AfterExtract, Keep, Present, Outcome, Listed, ListedDims;
    var v := ApplyAll(MarkUnparseable(t, ls), order, extract);
    EveryStageIsConsistent(t, ls, extract, Applying(order));
    SweepMeaning(v, ls);
    var u := AtStage(t, ls, extract, Swept(order));
    forall l | l in ls
      ensures StateOf(u, l.key) == Outcome(t, l, extract)
    {
      AppliedOutcome(t, ls, order, extract, l);
      ListedKeyHasListedDims(ls, l);
    }
    forall k | !Listed(ls, k)
      ensures FailureAt(u, k) == FailureAt(t, k)
    {
      UnlistedFailureKept(t, ls, order, extract, k);
    }
  }

  lemma ListedKeyHasListedDims(ls: seq<Listing>, l: Listing)
    requires l in ls
    ensures Resolve(l.key).Some? ==> ListedDims(ls, Resolve(l.key).value)
  {
    hide Resolve;
    var i :| 0 <= i < |ls| && ls[i] == l;
  }

  lemma UnlistedFailureKept(t: Tables, ls: seq<Listing>, order: seq<Listing>, extract: Extractor, k: string)
    requires Consistent(t) && BucketListing(ls) && multiset(order) == multiset(Pending(t, ls)) && !Listed(ls, k)
    ensures FailureAt(ApplyAll(MarkUnparseable(t, ls), order, extract), k) == FailureAt(t, k)
  {
    hide FilesHaveKeys, FailuresHaveDims, WellFormed, MarkUnparseable, ApplyAll, Pending, Resolve, Unchanged, FileAt;
    MarkMeaning(t, ls);
    OrderIsFit(t, ls, order);
    ApplyAllMeaning(MarkUnparseable(t, ls), order, extract);
    if Listed(order, k) {
      var i :| 0 <= i < |order| && order[i].key == k;
      assert order[i] in multiset(order);
      PendingSound(t, ls, order[i]);
    }
  }

  /** Two finished runs from one catalog say the same, whatever order their extractions took. */
  lemma OrderDoesNotMatter(t: Tables, ls: seq<Listing>, order1: seq<Listing>, order2: seq<Listing>, extract: Extractor)
    requires Consistent(t) && BucketListing(ls)
    requires multiset(order1) == multiset(Pending(t, ls)) && multiset(order2) == multiset(Pending(t, ls))
    ensures var u1, u2 := AtStage(t, ls, extract, Swept(order1)), AtStage(t, ls, extract, Swept(order2));
            WellFormed(u1) && WellFormed(u2) && SameMeaning(u1, u2)
  {
    hide FilesHaveKeys, FailuresHaveDims, WellFormed, AtStage, Pending, Resolve, Unchanged, FileAt, Outcome;
    ReconcileMeaning(t, ls, order1, extract);
    ReconcileMeaning(t, ls, order2, extract);
    var u1, u2 := AtStage(t, ls, extract, Swept(order1)), AtStage(t, ls, extract, Swept(order2));
    forall d
      ensures FileAt(u1, d) == FileAt(u2, d)
    {
      if ListedDims(ls, d) {
        var i :| 0 <= i < |ls| && Resolve(ls[i].key) == Some(d);
        assert ls[i] in ls;
        assert StateOf(u1, ls[i].key) == StateOf(u2, ls[i].key);
      }
    }
    forall k
      ensures FailureAt(u1, k) == FailureAt(u2, k)
    {
      if Listed(ls, k) {
        var i :| 0 <= i < |ls| && ls[i].key == k;
        assert ls[i] in ls;
        assert StateOf(u1, ls[i].key) == StateOf(u2, ls[i].key);
      }
    }
  }

  /** The bucket does not change during the run: every extraction reads what its etag stands for. */
  ghost predicate SteadyBucket(ls: seq<Listing>, extract: Extractor, contents: (string, string) -> Reading)
  {
    forall l | l in ls :: extract(l.key) == Extracted(contents(l.key, l.stat.etag))
  }

  /** What the bucket alone says about a listed key. */
  ghost function BucketFailure(l: Listing, contents: (string, string) -> Reading): Option<Failure>
  {
    if Resolve(l.key).None? then Some(UnparseableKey) else ExpectedFailure(contents(l.key, l.stat.etag))
  }

  ghost function BucketFile(l: Listing, contents: (string, string) -> Reading): Option<FileMeaning>
  {
    if Resolve(l.key).None? then None else ExpectedFile(l.stat, contents(l.key, l.stat.etag))
  }

  /**
   Over an unchanging bucket a finished reconcile makes the catalog a function of the bucket alone:
   each listed key has the file with the listed etag and its summary, or a failure and no file, and no
   other file exists. Only the size and time stamp of a skipped file may predate the listing.
   */
  lemma CatalogIsAFunctionOfTheBucket(t: Tables, ls: seq<Listing>, order: seq<Listing>, extract: Extractor,
                                      contents: (string, string) -> Reading)
    requires Consistent(t) && E.Faithful(t, contents) && BucketListing(ls) && SteadyBucket(ls, extract, contents)
    requires multiset(order) == multiset(Pending(t, ls))
    ensures var u := AtStage(t, ls, extract, Swept(order));
            && Consistent(u)
            && (forall l | l in ls ::
                  && E.EssenceOf(StateOf(u, l.key).file) == E.EssenceOf(BucketFile(l, contents))
                  && StateOf(u, l.key).failure == BucketFailure(l, contents))
            && (forall d | !ListedDims(ls, d) :: FileAt(u, d).None?)
  {
    hide FilesHaveKeys, FailuresHaveDims, WellFormed, AtStage, Pending, Resolve, Unchanged, FileAt, E.Faithful,
         BucketFile, BucketFailure, E.EssenceOf, Outcome, ListedDims;
    ReconcileMeaning(t, ls, order, extract);
    forall l | l in ls
      ensures E.EssenceOf(Outcome(t, l, extract).file) == E.EssenceOf(BucketFile(l, contents))
      ensures Outcome(t, l, extract).failure == BucketFailure(l, contents)
    {
      OutcomeFromBucket(t, l, extract, contents);
    }
  }

  /** The fingerprint skip: an object is read exactly when no file with its etag is cataloged. */
  lemma ReadUnlessCataloged(t: Tables, ls: seq<Listing>, l: Listing)
    requires WellFormed(t) && l in ls
    ensures l in Pending(t, ls) <==>
            Resolve(l.key).Some? && (StateOf(t, l.key).file.None? || StateOf(t, l.key).file.value.etag != l.stat.etag)
  {
    hide AllSound, FilesResolve, IdsDistinct, OverridesAttached, Pending;
    PendingSound(t, ls, l);
  }

  /** Over an unchanging bucket the next run reads only the objects that make no file. */
  lemma SecondRunReadsOnlyFailures(t: Tables, ls: seq<Listing>, order: seq<Listing>, extract: Extractor,
                                   contents: (string, string) -> Reading, l: Listing)
    requires Consistent(t) && E.Faithful(t, contents) && BucketListing(ls) && SteadyBucket(ls, extract, contents)
    requires multiset(order) == multiset(Pending(t, ls)) && l in ls
    ensures var u := AtStage(t, ls, extract, Swept(order));
            l in Pending(u, ls) <==> Resolve(l.key).Some? && ExpectedFile(l.stat, contents(l.key, l.stat.etag)).None?
  {
    hide FilesHaveKeys, FailuresHaveDims, WellFormed, AtStage, Pending, Resolve, FileAt, E.Faithful, BucketListing;
    CatalogIsAFunctionOfTheBucket(t, ls, order, extract, contents);
    ReadUnlessCataloged(AtStage(t, ls, extract, Swept(order)), ls, l);
  }

  lemma OutcomeFromBucket(t: Tables, l: Listing, extract: Extractor, contents: (string, string) -> Reading)
    requires Consistent(t) && E.Faithful(t, contents) && Canonical(l.key)
    requires extract(l.key) == Extracted(contents(l.key, l.stat.etag))
    ensures E.EssenceOf(Outcome(t, l, extract).file) == E.EssenceOf(BucketFile(l, contents))
    ensures Outcome(t, l, extract).failure == BucketFailure(l, contents)
  {
    hide AllSound, FilesResolve, IdsDistinct, OverridesAttached;
    if Resolve(l.key).Some? && Unchanged(t, l) {
      var d := Resolve(l.key).value;
      assert FileAt(t, d).Some? && FileAt(t, d).value.etag == l.stat.etag;
      assert E.FaithfulFile(d, FileAt(t, d).value, contents);
      assert Rebuild(d) == l.key;
      NeverBoth(t, l.key);
    }
  }

  /** Every object that can be read reads as its listed etag stands for; objects may vanish. */
  ghost predicate HonestReads(ls: seq<Listing>, extract: Extractor, contents: (string, string) -> Reading)
  {
    forall l | l in ls && extract(l.key).Extracted? :: extract(l.key).reading == contents(l.key, l.stat.etag)
  }

  lemma AppliedIsFaithful(t: Tables, u: Tables, l: Listing, extract: Extractor, d: Dims,
                          contents: (string, string) -> Reading)
    requires WellFormed(t) && WellFormed(u) && Canonical(l.key) && Resolve(l.key) == Some(d)
    requires Applied(t, u, l, extract) && E.Faithful(t, contents) && FileAt(u, d).Some?
    requires extract(l.key).Extracted? ==> extract(l.key).reading == contents(l.key, l.stat.etag)
    ensures E.FaithfulFile(d, FileAt(u, d).value, contents)
  {
    hide WellFormed, FileAt, ContentOf, Accepts, Resolve;
    assert Rebuild(d) == l.key;
    if extract(l.key).Vanished? {
      assert FileAt(t, d).Some?;
    }
  }

  lemma ApplyAllKeepsFaithful(t: Tables, items: seq<Listing>, extract: Extractor, contents: (string, string) -> Reading)
    requires Consistent(t) && DistinctListings(items) && AllParseable(items)
    requires E.Faithful(t, contents) && HonestReads(items, extract, contents)
    ensures Consistent(ApplyAll(t, items, extract)) && E.Faithful(ApplyAll(t, items, extract), contents)
  {
    hide WellFormed, FilesHaveKeys, FailuresHaveDims, FileAt, ApplyAll, Applied, TouchesOnly, E.FaithfulFile, Resolve,
         Canonical, DistinctListings;
    ApplyAllMeaning(t, items, extract);
    var u := ApplyAll(t, items, extract);
    forall d | FileAt(u, d).Some?
      ensures E.FaithfulFile(d, FileAt(u, d).value, contents)
    {
      if ListedDims(items, d) {
        var i :| 0 <= i < |items| && Resolve(items[i].key) == Some(d);
        assert items[i] in items && Applied(t, u, items[i], extract);
        AppliedIsFaithful(t, u, items[i], extract, d, contents);
      } else {
        UntouchedDims(t, u, items, d);
      }
    }
  }

  lemma FewerFilesFaithful(t: Tables, u: Tables, contents: (string, string) -> Reading)
    requires WellFormed(t) && WellFormed(u) && E.Faithful(t, contents)
    requires forall d :: FileAt(u, d) == FileAt(t, d) || FileAt(u, d).None?
    ensures E.Faithful(u, contents)
  {
    hide WellFormed, FileAt, E.FaithfulFile;
  }

  lemma HonestOrder(t: Tables, ls: seq<Listing>, order: seq<Listing>, extract: Extractor,
                    contents: (string, string) -> Reading)
    requires multiset(order) <= multiset(Pending(t, ls)) && HonestReads(ls, extract, contents)
    ensures HonestReads(order, extract, contents)
  {
    hide Resolve, Unchanged, Pending;
    forall l | l in order && extract(l.key).Extracted?
      ensures l in ls
    {
      var i :| 0 <= i < |order| && order[i] == l;
      PickedFrom(Pending(t, ls), order, i);
      PendingSound(t, ls, l);
    }
  }

  /**
   Wherever a reconcile stops, finished or cut off, and whatever vanished meanwhile, the next one starts from a
   catalog that is again faithful to the bucket's history.
   */
  lemma ReconcileKeepsFaithful(t: Tables, ls: seq<Listing>, extract: Extractor, stage: Stage,
                               contents: (string, string) -> Reading)
    requires Consistent(t) && E.Faithful(t, contents) && BucketListing(ls) && HonestReads(ls, extract, contents)
    requires Reachable(t, ls, stage)
    ensures Consistent(AtStage(t, ls, extract, stage))
    ensures E.Faithful(AtStage(t, ls, extract, stage), contents)
  {
    hide WellFormed, FilesHaveKeys, FailuresHaveDims, MarkUnparseable, ApplyAll, Keep, Present, Pending, FileAt,
         BucketListing, E.Faithful, HonestReads, DistinctListings, AllParseable, ListedDims;
    var marked := if stage.Classifying? then ls[..stage.classified] else ls;
    MarkMeaning(t, marked);
    var v := MarkUnparseable(t, marked);
    FewerFilesFaithful(t, v, contents);
    if !stage.Classifying? {
      OrderIsFit(t, ls, stage.order);
      HonestOrder(t, ls, stage.order, extract, contents);
      ApplyAllKeepsFaithful(v, stage.order, extract, contents);
      if stage.Swept? {
        var u := ApplyAll(v, stage.order, extract);
        SweepMeaning(u, ls);
        FewerFilesFaithful(u, Keep(u, Present(u.dict, ls)), contents);
      }
    }
  }

  /** A new database: no rows anywhere. */
  function EmptyTables(): Tables
  {
    Tables(Dictionaries(Table(map[], map[], 1), Table(map[], map[], 1), Table(map[], map[], 1), Table(map[], map[], 1),
                        Table(map[], map[], 1), Table(map[], map[], 1), Table(map[], map[], 1)),
           map[], 1, map[], map[], None)
  }

  lemma EmptyIsBlank()
    ensures Blank(EmptyTables())
  {
  }

  /** No file and no failure; the build row may be there. */
  ghost predicate Blank(t: Tables)
  {
    Consistent(t) && (forall d :: FileAt(t, d).None?) && (forall k :: FailureAt(t, k).None?)
  }

  /**
   A rebuild from nothing is exactly the bucket, size and time stamps included, with no failure entry
   for a key that is not listed; so two rebuilds of one bucket say the same although their ids differ.
   */
  lemma RebuildIsExactlyTheBucket(t: Tables, ls: seq<Listing>, order: seq<Listing>, extract: Extractor,
                                  contents: (string, string) -> Reading)
    requires Blank(t) && BucketListing(ls) && SteadyBucket(ls, extract, contents)
    requires multiset(order) == multiset(Pending(t, ls))
    ensures var u := AtStage(t, ls, extract, Swept(order));
            && Consistent(u)
            && (forall l | l in ls ::
                  StateOf(u, l.key) == KeyState(BucketFile(l, contents), BucketFailure(l, contents)))
            && (forall d | !ListedDims(ls, d) :: FileAt(u, d).None?)
            && (forall k | !Listed(ls, k) :: FailureAt(u, k).None?)
  {
    hide FilesHaveKeys, FailuresHaveDims, WellFormed, AtStage, Pending, Resolve, FileAt,
         BucketFile, BucketFailure, Outcome, ListedDims, Listed, Unchanged;
    ReconcileMeaning(t, ls, order, extract);
    forall l | l in ls
      ensures Outcome(t, l, extract) == KeyState(BucketFile(l, contents), BucketFailure(l, contents))
    {
      FreshOutcome(t, l, extract, contents);
    }
  }

  lemma FreshOutcome(t: Tables, l: Listing, extract: Extractor, contents: (string, string) -> Reading)
    requires Blank(t) && extract(l.key) == Extracted(contents(l.key, l.stat.etag))
    ensures Outcome(t, l, extract) == KeyState(BucketFile(l, contents), BucketFailure(l, contents))
  {
    hide Resolve, AllSound, FilesResolve, IdsDistinct, OverridesAttached, FilesHaveKeys, FailuresHaveDims;
    if Resolve(l.key).Some? {
      assert FileAt(t, Resolve(l.key).value).None?;
    }
  }

  /**
   A listed object that vanishes before it is read keeps whatever row it had: the sweep goes by the
   listing. So after a finished reconcile no vanished key has a row exactly when none had one before.
   */
  lemma VanishedRowSurvivesIff(t: Tables, ls: seq<Listing>, order: seq<Listing>, extract: Extractor, l: Listing)
    requires Consistent(t) && BucketListing(ls) && multiset(order) == multiset(Pending(t, ls))
    requires l in ls && extract(l.key) == Vanished
    ensures var u := AtStage(t, ls, extract, Swept(order));
            Consistent(u) && (StateOf(u, l.key).file.None? <==> StateOf(t, l.key).file.None?)
  {
    hide FilesHaveKeys, FailuresHaveDims, WellFormed, AtStage, Pending, Resolve, Unchanged, FileAt;
    ReconcileMeaning(t, ls, order, extract);
  }

  /** Every catalog that holds a file has such a run: the object is rewritten, listed, and vanishes. */
  lemma VanishedRowStays(t: Tables, d: Dims, stat: Stat, extract: Extractor)
    requires Consistent(t) && FileAt(t, d).Some? && FileAt(t, d).value.etag != stat.etag
    requires extract(Rebuild(d)) == Vanished
    ensures var ls := [Listing(Rebuild(d), stat)];
            && BucketListing(ls) && Pending(t, ls) == ls
            && var u := AtStage(t, ls, extract, Swept(ls));
               Consistent(u) && FileAt(u, d) == FileAt(t, d)
  {
    hide WellFormed, FilesHaveKeys, FailuresHaveDims, AtStage, FileAt, Rebuild, Resolve;
    assert Valid(d) by {
      CatalogedIsValid(t, d);
    }
    ParseRebuild(d);
    RebuiltResolves(d);
    var l := Listing(Rebuild(d), stat);
    var ls := [l];
    assert ls[..0] == [] && BucketListing(ls);
    ChangedEtag(t, d, l);
    ReconcileMeaning(t, ls, ls, extract);
    assert l in ls;
    assert StateOf(AtStage(t, ls, extract, Swept(ls)), l.key) == Outcome(t, l, extract);
  }

  lemma CatalogedIsValid(t: Tables, d: Dims)
    requires Consistent(t) && FileAt(t, d).Some?
    ensures Valid(d)
  {
  }

  lemma RebuiltResolves(d: Dims)
    requires Valid(d)
    ensures Resolve(Rebuild(d)) == Some(d)
  {
    ParseRebuild(d);
  }

  lemma ChangedEtag(t: Tables, d: Dims, l: Listing)
    requires WellFormed(t) && FileAt(t, d).Some? && FileAt(t, d).value.etag != l.stat.etag && Resolve(l.key) == Some(d)
    ensures !Unchanged(t, l)
  {
    hide Resolve, AllSound, FilesResolve, IdsDistinct, OverridesAttached;
  }

  /** And there is such a catalog: one file, written into an empty database. */
  lemma VanishedRowExample(extract: Extractor)
    requires extract(Rebuild(SOME_FILE)) == Vanished
    ensures var key := Rebuild(SOME_FILE);
            var t := ApplyReading(EmptyTables(), SOME_FILE, key, Stat("v1", 1, 0), Readable(NO_MESSAGES));
            var ls := [Listing(key, Stat("v2", 2, 1))];
            && Consistent(t) && BucketListing(ls) && Pending(t, ls) == ls
            && var u := AtStage(t, ls, extract, Swept(ls));
               Consistent(u) && FileAt(u, SOME_FILE).Some?
  {
    hide AtStage, Rebuild, Resolve, EmptyTables, ApplyReading, BucketListing, Pending, WellFormed, FileAt, ContentOf,
         FilesHaveKeys, FailuresHaveDims;
    var d, key := SOME_FILE, Rebuild(SOME_FILE);
    EmptyIsBlank();
    ParseRebuild(d);
    RebuiltResolves(d);
    ApplyKeepsConsistent(EmptyTables(), key, Stat("v1", 1, 0), Readable(NO_MESSAGES));
    var t := ApplyReading(EmptyTables(), d, key, Stat("v1", 1, 0), Readable(NO_MESSAGES));
    assert StateOf(t, key).file == FileAt(t, d);
    VanishedRowStays(t, d, Stat("v2", 2, 1), extract);
  }

  const SOME_FILE := Dims("acme", "plant", "arm1", "bag", "2026-01-01", "run.mcap")
  const NO_MESSAGES := Summary(0, 0, 0, 0, [])

  // ---- The run itself ----

  /** A stop event; once set it stays set. `left` is how many more looks find it clear. */
  class StopEvent {
    var left: Option<nat>

    predicate IsSet()
      reads this
    {
      left == Some(0)
    }

    /** `is_set()` as the run sees it. */
    method Look() returns (stopped: bool)
      modifies this
      ensures stopped == old(IsSet())
      ensures old(IsSet()) ==> IsSet()
      ensures old(left).None? ==> left.None?
      ensures old(left).Some? && old(left.value) > 0 ==> left == Some(old(left.value) - 1)
    {
      stopped := left == Some(0);
      if left.Some? && left.value > 0 {
        left := Some(left.value - 1);
      }
    }
  }

  datatype Counts = Counts(cataloged: nat, skipped: nat, failed: nat, deleted: nat)

  datatype Run = Finished(counts: Counts) | Cancelled | ListingFailed

  /** Listings of a parseable key whose stored etag is the listed one. */
  function SkippedIn(t: Tables, ls: seq<Listing>): nat
  {
    if ls == [] then 0
    else
      var l := ls[|ls| - 1];
      SkippedIn(t, ls[..|ls| - 1]) + if Resolve(l.key).Some? && Unchanged(t, l) then 1 else 0
  }

  /** The object can be read and its summary is one the writer accepts. */
  predicate Catalogable(l: Listing, extract: Extractor)
  {
    && Resolve(l.key).Some? && extract(l.key).Extracted?
    && extract(l.key).reading.Readable? && Accepts(extract(l.key).reading.summary)
  }

  function CatalogedIn(items: seq<Listing>, extract: Extractor): nat
  {
    if items == [] then 0
    else CatalogedIn(items[..|items| - 1], extract) + if Catalogable(items[|items| - 1], extract) then 1 else 0
  }

  lemma {:induction false} CatalogedInTurn(first: seq<Listing>, then_: seq<Listing>, extract: Extractor)
    ensures CatalogedIn(first + then_, extract) == CatalogedIn(first, extract) + CatalogedIn(then_, extract)
  {
    hide Catalogable;
    if then_ == [] {
      assert first + then_ == first;
    } else {
      var n := |then_| - 1;
      CatalogedInTurn(first, then_[..n], extract);
      assert (first + then_)[..|first| + n] == first + then_[..n];
    }
  }

  lemma CatalogedPick(left: seq<Listing>, l: Listing, right: seq<Listing>, extract: Extractor)
    ensures CatalogedIn(left + [l] + right, extract) ==
            CatalogedIn(left + right, extract) + if Catalogable(l, extract) then 1 else 0
  {
    hide Catalogable;
    CatalogedInTurn(left + [l], right, extract);
    CatalogedInTurn(left, right, extract);
    assert (left + [l])[..|left|] == left;
  }

  /** The count does not depend on the order of the completions. */
  lemma {:induction false} CatalogedInAnyOrder(a: seq<Listing>, b: seq<Listing>, extract: Extractor)
    requires multiset(a) == multiset(b)
    ensures CatalogedIn(a, extract) == CatalogedIn(b, extract)
    decreases |a|
  {
    hide Catalogable, CatalogedIn;
    if a == [] {
      assert |multiset(b)| == 0;
      assert b == [];
    } else {
      var l, tail := a[0], a[1..];
      assert a == [l] + tail;
      var left, right := PickFirst(l, tail, b);
      CatalogedPick([], l, tail, extract);
      assert [] + [l] + tail == a && [] + tail == tail;
      CatalogedPick(left, l, right, extract);
      CatalogedInAnyOrder(tail, left + right, extract);
    }
  }

  /** The fingerprint test, with the composite taken from the caches. */
  method LooksUnchanged(b: B.Builder, stored: Tables, l: Listing) returns (same: bool)
    requires b.Valid() && b.committed.dict == stored.dict
    ensures same == Unchanged(stored, l)
  {
    hide Resolve, CompositeOf, WellFormed;
    var dims := Resolve(l.key);
    if dims.None? {
      return false;
    }
    var comp := b.CachedComposite(dims.value);
    same := comp.Some? && comp.value in stored.files && stored.files[comp.value].etag == l.stat.etag;
  }

  lemma PendingStep(t: Tables, ls: seq<Listing>, i: nat)
    requires i < |ls|
    ensures Pending(t, ls[..i + 1]) ==
            Pending(t, ls[..i]) + if Resolve(ls[i].key).None? || Unchanged(t, ls[i]) then [] else [ls[i]]
    ensures MarkUnparseable(t, ls[..i + 1]) ==
            var u := MarkUnparseable(t, ls[..i]);
            if Resolve(ls[i].key).None? then u.(failures := u.failures[ls[i].key := UnparseableKey]) else u
    ensures SkippedIn(t, ls[..i + 1]) ==
            SkippedIn(t, ls[..i]) + if Resolve(ls[i].key).Some? && Unchanged(t, ls[i]) then 1 else 0
  {
    hide Resolve, Unchanged;
    assert ls[..i + 1][..i] == ls[..i];
  }

  lemma PendingStart(t: Tables, ls: seq<Listing>)
    ensures Pending(t, ls[..0]) == [] && MarkUnparseable(t, ls[..0]) == t && SkippedIn(t, ls[..0]) == 0
    ensures ls[..|ls|] == ls
  {
  }

  /** The classification loop. */
  method Classify(b: B.Builder, ls: seq<Listing>, stop: StopEvent)
    returns (go: bool, pending: seq<Listing>, skipped: nat, failed: nat, ghost n: nat)
    requires b.Valid()
    modifies b, stop
    ensures b.Valid() && n <= |ls| && b.committed == MarkUnparseable(old(b.committed), ls[..n])
    ensures (!go ==> stop.IsSet()) && (old(stop.left).None? ==> stop.left.None?)
    ensures go ==> n == |ls| && pending == Pending(old(b.committed), ls)
    ensures go ==> skipped == SkippedIn(old(b.committed), ls) && |pending| + skipped + failed == |ls|
  {
    hide WellFormed, Resolve, Unchanged, B.IndexesOf, Pending, MarkUnparseable, SkippedIn;
    ghost var t := b.committed;
    PendingStart(t, ls);
    var stored := b.committed;
    go, pending, skipped, failed, n := true, [], 0, 0, 0;
    var i := 0;
    while i < |ls|
      invariant 0 <= i <= |ls| && n == i && b.Valid() && go
      invariant b.committed == MarkUnparseable(t, ls[..i])
      invariant b.committed.dict == t.dict && stored == t
      invariant old(stop.left).None? ==> stop.left.None?
      invariant pending == Pending(t, ls[..i])
      invariant skipped == SkippedIn(t, ls[..i]) && |pending| + skipped + failed == i
    {
      var stopped := stop.Look();
      if stopped {
        go := false;
        return;
      }
      var l := ls[i];
      PendingStep(t, ls, i);
      var dims := Resolve(l.key);
      if dims.None? {
        b.RecordFailure(l.key, UnparseableKey);
        failed := failed + 1;
      } else {
        var same := LooksUnchanged(b, stored, l);
        if same {
          skipped := skipped + 1;
        } else {
          pending := pending + [l];
        }
      }
      i, n := i + 1, n + 1;
    }
  }

  /** Counts that went up by `total` results, `cataloged` of them cataloged and the others failed. */
  predicate Adds(c: Counts, d: Counts, cataloged: nat, total: nat)
  {
    && d == c.(cataloged := d.cataloged, failed := d.failed) && d.cataloged == c.cataloged + cataloged
    && d.cataloged + d.failed == c.cataloged + c.failed + total
  }

  lemma AddsInTurn(c: Counts, d: Counts, e: Counts, cataloged: nat, total: nat, cataloged': nat, total': nat)
    requires Adds(c, d, cataloged, total) && Adds(d, e, cataloged', total')
    ensures Adds(c, e, cataloged + cataloged', total + total')
  {
  }

  /** One `_apply`: look, write, count, look again. */
  method ApplyNext(b: B.Builder, l: Listing, extract: Extractor, stop: StopEvent, counts: Counts)
    returns (go: bool, counts': Counts, ghost done: bool)
    requires b.Valid()
    modifies b, stop
    ensures b.Valid()
    ensures b.committed == if done then ApplyExtract(old(b.committed), l.key, l.stat, extract(l.key))
            else old(b.committed)
    ensures (!go ==> stop.IsSet()) && (old(stop.left).None? ==> stop.left.None?)
    ensures done <==> !old(stop.IsSet())
    ensures go <==> old(stop.left).None? || old(stop.left).value >= 2
    ensures go ==> done && counts'.cataloged + counts'.failed == counts.cataloged + counts.failed + 1
    ensures go ==> counts'.cataloged == counts.cataloged + if Catalogable(l, extract) then 1 else 0
    ensures go ==> counts'.skipped == counts.skipped && counts'.deleted == counts.deleted
  {
    hide WellFormed, ApplyExtract, B.IndexesOf, Resolve, Accepts;
    counts', done := counts, false;
    var stopped := stop.Look();
    if stopped {
      return false, counts', done;
    }
    var status := b.ApplyOne(l.key, l.stat, extract(l.key));
    done := true;
    counts' := if status == B.Cataloged then counts.(cataloged := counts.cataloged + 1)
               else counts.(failed := counts.failed + 1);
    stopped := stop.Look();
    go := !stopped;
  }

  lemma {:induction false} ApplyAllInTurn(t: Tables, first: seq<Listing>, then_: seq<Listing>, extract: Extractor)
    ensures ApplyAll(t, first + then_, extract) == ApplyAll(ApplyAll(t, first, extract), then_, extract)
  {
    hide ApplyExtract;
    if then_ == [] {
      assert first + then_ == first;
    } else {
      var n := |then_| - 1;
      ApplyAllInTurn(t, first, then_[..n], extract);
      assert (first + then_)[..|first| + n] == first + then_[..n];
    }
  }

  /** Yield `ready` completed results, in whatever order they come, and apply each. */
  method ApplyReady(b: B.Builder, inFlight: multiset<Listing>, ready: nat, extract: Extractor, stop: StopEvent,
                    counts: Counts)
    returns (go: bool, rest: multiset<Listing>, counts': Counts, ghost applied: seq<Listing>)
    requires b.Valid() && ready <= |inFlight|
    modifies b, stop
    ensures b.Valid() && b.committed == ApplyAll(old(b.committed), applied, extract)
    ensures multiset(applied) <= inFlight
    ensures (!go ==> stop.IsSet()) && (old(stop.left).None? ==> stop.left.None?)
    ensures go ==> multiset(applied) + rest == inFlight && |rest| == |inFlight| - ready
    ensures go ==> Adds(counts, counts', CatalogedIn(applied, extract), |applied|)
  {
    hide WellFormed, ApplyExtract, Catalogable, ApplyAll, CatalogedIn, B.IndexesOf;
    ghost var t := b.committed;
    ApplyNone(t, extract);
    go, rest, counts', applied := true, inFlight, counts, [];
    var left := ready;
    while left > 0
      invariant 0 <= left <= |rest| && b.Valid() && go && (old(stop.left).None? ==> stop.left.None?)
      invariant b.committed == ApplyAll(t, applied, extract)
      invariant multiset(applied) + rest == inFlight && |rest| - left == |inFlight| - ready
      invariant Adds(counts, counts', CatalogedIn(applied, extract), |applied|)
    {
      assert |rest| > 0;
      var l :| l in rest;
      ghost var done;
      go, counts', done := ApplyNext(b, l, extract, stop, counts');
      rest := rest - multiset{l};
      if done {
        ApplyMore(t, applied, l, extract);
        applied := applied + [l];
      }
      if !go {
        return;
      }
      left := left - 1;
    }
  }

  /** The first `i` listings have been submitted; each is either applied or still in flight. */
  ghost predicate Accounted(order: seq<Listing>, inFlight: multiset<Listing>, pending: seq<Listing>, i: nat)
  {
    i <= |pending| && multiset(order) + inFlight == multiset(pending[..i])
  }

  lemma Submitted(order: seq<Listing>, inFlight: multiset<Listing>, pending: seq<Listing>, i: nat)
    requires Accounted(order, inFlight, pending, i) && i < |pending|
    ensures Accounted(order, inFlight + multiset{pending[i]}, pending, i + 1)
  {
    assert pending[..i + 1] == pending[..i] + [pending[i]];
  }

  lemma Completed(order: seq<Listing>, inFlight: multiset<Listing>, applied: seq<Listing>, pending: seq<Listing>,
                  i: nat)
    requires Accounted(order, inFlight, pending, i) && multiset(applied) <= inFlight
    ensures Accounted(order + applied, inFlight - multiset(applied), pending, i)
  {
  }

  lemma AccountedWithin(order: seq<Listing>, inFlight: multiset<Listing>, pending: seq<Listing>, i: nat)
    requires Accounted(order, inFlight, pending, i)
    ensures multiset(order) <= multiset(pending)
    ensures i == |pending| && |inFlight| == 0 ==> multiset(order) == multiset(pending) && |order| == |pending|
  {
    assert pending == pending[..i] + pending[i..];
    if i == |pending| && |inFlight| == 0 {
      assert inFlight == multiset{};
      assert |multiset(order)| == |order| && |multiset(pending)| == |pending|;
    }
  }

  /** Some of the extractions in flight complete, and are applied; which ones, and how many, is open. */
  method CompleteSome(b: B.Builder, inFlight: multiset<Listing>, extract: Extractor, stop: StopEvent, counts: Counts,
                      ghost t: Tables, pending: seq<Listing>, i: nat, ghost order: seq<Listing>, ghost start: Counts)
    returns (go: bool, rest: multiset<Listing>, counts': Counts, ghost order': seq<Listing>)
    requires b.Valid() && |inFlight| > 0 && i <= |pending| && Accounted(order, inFlight, pending, i)
    requires b.committed == ApplyAll(t, order, extract)
    requires Adds(start, counts, CatalogedIn(order, extract), |order|)
    modifies b, stop
    ensures b.Valid() && b.committed == ApplyAll(t, order', extract) && multiset(order') <= multiset(pending)
    ensures (!go ==> stop.IsSet()) && (old(stop.left).None? ==> stop.left.None?)
    ensures go ==> Accounted(order', rest, pending, i) && |rest| < |inFlight|
    ensures go ==> Adds(start, counts', CatalogedIn(order', extract), |order'|)
  {
    hide WellFormed, ApplyExtract, ApplyAll, Accounted, B.IndexesOf, CatalogedIn, Adds;
    var ready :| 1 <= ready <= |inFlight|;
    ghost var applied;
    go, rest, counts', applied := ApplyReady(b, inFlight, ready, extract, stop, counts);
    order' := order + applied;
    ApplyAllInTurn(t, order, applied, extract);
    CatalogedInTurn(order, applied, extract);
    Completed(order, inFlight, applied, pending, i);
    AccountedWithin(order', inFlight - multiset(applied), pending, i);
    if go {
      assert inFlight - multiset(applied) == rest;
      AddsInTurn(start, counts, counts', CatalogedIn(order, extract), |order|,
                 CatalogedIn(applied, extract), |applied|);
    }
  }

  /**
   `_bounded_completions` with its consumer: at most `window` results are ever in flight, any of them
   may complete next, and each submitted listing is applied exactly once.
   */
  method ApplyInWindow(b: B.Builder, pending: seq<Listing>, window: nat, extract: Extractor, stop: StopEvent,
                       counts: Counts)
    returns (go: bool, counts': Counts, peak: nat, ghost order: seq<Listing>)
    requires b.Valid() && window >= 1
    modifies b, stop
    ensures b.Valid() && b.committed == ApplyAll(old(b.committed), order, extract)
    ensures multiset(order) <= multiset(pending) && peak <= window
    ensures (!go ==> stop.IsSet()) && (old(stop.left).None? ==> stop.left.None?)
    ensures go ==> multiset(order) == multiset(pending)
    ensures go ==> peak == if |pending| < window then |pending| else window
    ensures go ==> Adds(counts, counts', CatalogedIn(pending, extract), |pending|)
  {
    assert Adds(counts, counts, 0, 0);
    hide WellFormed, ApplyExtract, ApplyAll, Accounted, B.Builder.Valid, CatalogedIn, Adds;
    ghost var t := b.committed;
    ApplyNone(t, extract);
    NothingSubmitted(pending);
    go, counts', peak, order := true, counts, 0, [];
    var inFlight: multiset<Listing> := multiset{};
    var i := 0;
    while i < |pending| || |inFlight| > 0
      invariant 0 <= i <= |pending| && b.Valid() && go && (old(stop.left).None? ==> stop.left.None?)
      invariant b.committed == ApplyAll(t, order, extract)
      invariant Accounted(order, inFlight, pending, i)
      invariant |inFlight| < window && peak == (if i < window then i else window)
      invariant i < |pending| && i < window ==> |inFlight| == i
      invariant Adds(counts, counts', CatalogedIn(order, extract), |order|)
      decreases |pending| - i, |inFlight|
    {
      var stopped := stop.Look();
      if stopped {
        AccountedWithin(order, inFlight, pending, i);
        go := false;
        return;
      }
      if i < |pending| {
        Submitted(order, inFlight, pending, i);
        inFlight := inFlight + multiset{pending[i]};
        i := i + 1;
        peak := if peak < |inFlight| then |inFlight| else peak;
        if |inFlight| < window {
          continue;
        }
      }
      go, inFlight, counts', order := CompleteSome(b, inFlight, extract, stop, counts', t, pending, i, order, counts);
      if !go {
        return;
      }
    }
    AccountedWithin(order, inFlight, pending, i);
    CatalogedInAnyOrder(order, pending, extract);
  }

  lemma NothingSubmitted(pending: seq<Listing>)
    ensures Accounted([], multiset{}, pending, 0)
  {
  }

  lemma ApplyMore(t: Tables, applied: seq<Listing>, l: Listing, extract: Extractor)
    ensures ApplyAll(t, applied + [l], extract) ==
            ApplyExtract(ApplyAll(t, applied, extract), l.key, l.stat, extract(l.key))
    ensures CatalogedIn(applied + [l], extract) ==
            CatalogedIn(applied, extract) + if Catalogable(l, extract) then 1 else 0
  {
    hide ApplyExtract, Catalogable;
    assert (applied + [l])[..|applied|] == applied;
  }

  lemma ApplyNone(t: Tables, extract: Extractor)
    ensures ApplyAll(t, [], extract) == t && CatalogedIn([], extract) == 0
  {
  }

  /** Building `present` from the listing and the caches. */
  method CollectPresent(b: B.Builder, ls: seq<Listing>, stop: StopEvent) returns (go: bool, present: set<Composite>)
    requires b.Valid()
    modifies stop
    ensures go ==> present == Present(b.committed.dict, ls)
    ensures (!go ==> stop.IsSet()) && (old(stop.left).None? ==> stop.left.None?)
  {
    hide Resolve, CompositeOf, WellFormed;
    go, present := true, {};
    var i := 0;
    while i < |ls|
      invariant 0 <= i <= |ls| && present == Present(b.committed.dict, ls[..i])
      invariant old(stop.left).None? ==> stop.left.None?
    {
      var stopped := stop.Look();
      if stopped {
        return false, {};
      }
      assert ls[..i + 1][..i] == ls[..i];
      var dims := Resolve(ls[i].key);
      if dims.Some? {
        var comp := b.CachedComposite(dims.value);
        if comp.Some? {
          present := present + {comp.value};
        }
      }
      i := i + 1;
    }
    assert ls[..i] == ls;
  }

  lemma DeleteOneMore(t: Tables, keep: set<Composite>, c: Composite)
    requires c in keep && c in t.files
    ensures DeleteFile(Keep(t, keep), c) == Keep(t, keep - {c})
  {
    var u, v := DeleteFile(Keep(t, keep), c), Keep(t, keep - {c});
    assert u.files == v.files;
    forall id
      ensures Dropped(t, keep - {c}, id) <==> Dropped(t, keep, id) || id == t.files[c].id
    {
      if Dropped(t, keep, id) {
        var e :| HasId(t.files, e, id) && e !in keep;
        assert e !in keep - {c};
      }
      if id == t.files[c].id {
        assert HasId(t.files, c, id) && c !in keep - {c};
      }
    }
    assert u.overrides == v.overrides;
  }

  lemma KeepEverything(t: Tables, keep: set<Composite>)
    requires t.files.Keys <= keep
    ensures Keep(t, keep) == t
  {
    assert Keep(t, keep).files == t.files;
    assert Keep(t, keep).overrides == t.overrides;
  }

  function Absent(rows: set<Composite>, present: set<Composite>): nat
  {
    |rows - present|
  }

  lemma SweepStart(t: Tables, present: set<Composite>)
    ensures Keep(t, t.files.Keys + present) == t
    ensures Keep(t, {} + present) == Keep(t, present) && Absent({}, present) == 0
  {
    KeepEverything(t, t.files.Keys + present);
    assert {} + present == present;
  }

  lemma SweepStep(t: Tables, rows: set<Composite>, present: set<Composite>, c: Composite)
    requires c in rows && rows <= t.files.Keys
    ensures Keep(t, rows - {c} + present) ==
            if c in present then Keep(t, rows + present) else DeleteFile(Keep(t, rows + present), c)
    ensures Absent(rows, present) == Absent(rows - {c}, present) + if c in present then 0 else 1
  {
    hide Keep, DeleteFile;
    if c in present {
      assert rows - {c} + present == rows + present;
      assert rows - {c} - present == rows - present;
    } else {
      DeleteOneMore(t, rows + present, c);
      assert rows - {c} + present == rows + present - {c};
      assert rows - present == (rows - {c} - present) + {c};
    }
  }

  /** The deletes of the sweep, inside the open transaction. */
  method DeleteAbsent(b: B.Builder, present: set<Composite>, stop: StopEvent) returns (go: bool, deleted: nat)
    requires b.work == b.committed
    modifies b`work, stop
    ensures go ==> b.work == Keep(b.committed, present) && deleted == Absent(b.committed.files.Keys, present)
    ensures (!go ==> stop.IsSet()) && (old(stop.left).None? ==> stop.left.None?)
  {
    hide Keep, DeleteFile, Absent;
    ghost var t := b.committed;
    var rows := b.committed.files.Keys;
    go, deleted := true, 0;
    SweepStart(t, present);
    while rows != {}
      invariant rows <= t.files.Keys && (old(stop.left).None? ==> stop.left.None?)
      invariant b.work == Keep(t, rows + present)
      invariant deleted + Absent(rows, present) == Absent(t.files.Keys, present)
      decreases |rows|
    {
      var stopped := stop.Look();
      if stopped {
        return false, 0;
      }
      var c :| c in rows;
      SweepStep(t, rows, present, c);
      rows := rows - {c};
      if c !in present {
        b.work := DeleteFile(b.work, c);
        deleted := deleted + 1;
      }
    }
  }

  /** The deletion sweep: one transaction, committed whole or rolled back whole. */
  method Sweep(b: B.Builder, present: set<Composite>, stop: StopEvent) returns (go: bool, deleted: nat)
    requires b.Valid()
    modifies b, stop
    ensures b.Valid()
    ensures b.committed == if go then Keep(old(b.committed), present) else old(b.committed)
    ensures (!go ==> stop.IsSet()) && (old(stop.left).None? ==> stop.left.None?)
    ensures go ==> deleted == Absent(old(b.committed).files.Keys, present)
  {
    hide Keep, AllSound, FilesResolve, IdsDistinct, OverridesAttached;
    go, deleted := DeleteAbsent(b, present, stop);
    var stopped := stop.Look();
    if !go || stopped {
      b.Rollback();
      return false, 0;
    }
    SweepKeepsRest(b.committed, present);
    KeepWellFormed(b.committed, present);
    b.Commit();
  }

  /** `record_build`, committed. */
  method StampBuild(b: B.Builder, scanned: nat, failed: nat)
    requires b.Valid()
    modifies b
    ensures b.Valid() && b.committed == RecordBuild(old(b.committed), scanned, failed)
  {
    b.work := RecordBuild(b.work, scanned, failed);
    BuildIsSeparate(b.committed, scanned, failed);
    b.Commit();
  }

  lemma BuildIsSeparate(t: Tables, scanned: nat, failed: nat)
    requires WellFormed(t)
    ensures WellFormed(RecordBuild(t, scanned, failed))
    ensures forall d :: FileAt(RecordBuild(t, scanned, failed), d) == FileAt(t, d)
  {
    var u := RecordBuild(t, scanned, failed);
    forall c | c in u.files
      ensures RowResolves(u.dict, c, u.files[c])
    {
      assert RowResolves(t.dict, c, t.files[c]);
    }
  }

  /**
   `full_reconcile` over what `list_all` yielded and how it ended. The sweep is reached only after an
   exhausted listing and with every pending extraction applied; a run that stops anywhere leaves the
   catalog at one of the stages above, so never with part of a sweep; and a finished run accounts for
   every listing exactly once.
   */
  method FullReconcile(b: B.Builder, ls: seq<Listing>, ended: L.Ended, window: nat, extract: Extractor, stop: StopEvent)
    returns (run: Run, ghost stage: Stage)
    requires b.Valid() && window >= 1
    requires ended == L.StoppedEarly ==> stop.IsSet()
    modifies b, stop
    ensures b.Valid() && Reachable(old(b.committed), ls, stage)
    ensures run == ListingFailed <==> ended == L.Raised
    ensures run == Cancelled ==> stop.IsSet()
    ensures old(stop.IsSet()) && ended != L.Raised ==> run == Cancelled && stage == Classifying(0)
    ensures old(stop.left).None? && ended == L.Exhausted ==> run.Finished?
    ensures run.Finished? ==> ended == L.Exhausted && stage.Swept?
    ensures ended != L.Exhausted ==> stage == Classifying(0)
    ensures run.Finished? ==> run.counts.cataloged + run.counts.skipped + run.counts.failed == |ls|
    ensures run.Finished? ==> run.counts.cataloged == CatalogedIn(Pending(old(b.committed), ls), extract)
    ensures run.Finished? ==> run.counts.skipped == SkippedIn(old(b.committed), ls)
    ensures run.Finished? ==>
              var before := AtStage(old(b.committed), ls, extract, Applying(stage.order));
              run.counts.deleted == Absent(before.files.Keys, Present(before.dict, ls))
    ensures b.committed == if run.Finished?
                           then RecordBuild(AtStage(old(b.committed), ls, extract, stage),
                                            run.counts.cataloged + run.counts.skipped, run.counts.failed)
                           else AtStage(old(b.committed), ls, extract, stage)
  {
    hide WellFormed, ApplyAll, MarkUnparseable, Present, Keep, Pending, ApplyExtract, CatalogedIn, SkippedIn, Absent;
    ghost var t := b.committed;
    stage := Classifying(0);
    MarkNone(t);
    assert ls[..0] == [];
    if ended == L.Raised {
      return ListingFailed, stage;
    }
    var stopped := stop.Look();
    if stopped {
      return Cancelled, stage;
    }
    var pending, skipped, failed;
    ghost var n;
    var go;
    go, pending, skipped, failed, n := Classify(b, ls, stop);
    stage := Classifying(n);
    if !go {
      return Cancelled, stage;
    }
    assert ls[..n] == ls;
    var counts := Counts(0, skipped, failed, 0);
    var peak;
    ghost var order;
    go, counts, peak, order := ApplyInWindow(b, pending, window, extract, stop, counts);
    stage := Applying(order);
    if !go {
      return Cancelled, stage;
    }
    var present;
    go, present := CollectPresent(b, ls, stop);
    if !go {
      return Cancelled, stage;
    }
    var deleted;
    go, deleted := Sweep(b, present, stop);
    if !go {
      return Cancelled, stage;
    }
    stage := Swept(order);
    stopped := stop.Look();
    if stopped {
      return Cancelled, stage;
    }
    StampBuild(b, counts.cataloged + counts.skipped, counts.failed);
    return Finished(counts.(deleted := deleted)), stage;
  }

  /** What a reconcile leaves alone: the build row until it is stamped, and the overrides it does not drop. */
  ghost predicate KeepsBuild(t: Tables, u: Tables)
  {
    u.build == t.build && forall o | o in u.overrides :: o in t.overrides && u.overrides[o] == t.overrides[o]
  }

  lemma {:induction false} MarkKeepsBuild(t: Tables, ls: seq<Listing>)
    ensures KeepsBuild(t, MarkUnparseable(t, ls))
  {
    hide Resolve;
    if ls != [] {
      MarkKeepsBuild(t, ls[..|ls| - 1]);
    }
  }

  lemma ApplyKeepsBuild(t: Tables, key: string, stat: Stat, ex: Extract)
    ensures KeepsBuild(t, ApplyExtract(t, key, stat, ex))
  {
    hide Resolve, ResolveDims, CompositeOf, DictWithTopics, RowFor, Accepts, Refusal;
  }

  lemma {:induction false} ApplyAllKeepsBuild(t: Tables, items: seq<Listing>, extract: Extractor)
    ensures KeepsBuild(t, ApplyAll(t, items, extract))
  {
    hide ApplyExtract;
    if items != [] {
      var n := |items| - 1;
      ApplyAllKeepsBuild(t, items[..n], extract);
      ApplyKeepsBuild(ApplyAll(t, items[..n], extract), items[n].key, items[n].stat, extract(items[n].key));
    }
  }

  /** A finished reconcile stamps above the row it found, adds no override and leaves a well-formed catalog. */
  lemma ReconcileStampsAboveFloor(t: Tables, ls: seq<Listing>, order: seq<Listing>, extract: Extractor,
                                  scanned: nat, failed: nat)
    requires Consistent(t) && BucketListing(ls) && multiset(order) == multiset(Pending(t, ls))
    ensures var u := RecordBuild(AtStage(t, ls, extract, Swept(order)), scanned, failed);
            && WellFormed(u) && u.build.Some? && u.build.value.stamped
            && u.build.value.id > (if t.build.Some? then t.build.value.id else 0)
            && forall o | o in u.overrides :: o in t.overrides && u.overrides[o] == t.overrides[o]
  {
    EveryStageIsConsistent(t, ls, extract, Swept(order));
    BuildIsSeparate(AtStage(t, ls, extract, Swept(order)), scanned, failed);
    hide MarkUnparseable, ApplyAll, Present, WellFormed, Consistent, BucketListing, Pending;
    MarkKeepsBuild(t, ls);
    ApplyAllKeepsBuild(MarkUnparseable(t, ls), order, extract);
  }

  lemma MarkNone(t: Tables)
    ensures MarkUnparseable(t, []) == t
  {
  }
}
