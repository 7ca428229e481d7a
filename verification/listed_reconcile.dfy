/**
 An audit: the sharded listing of a bucket, handed to the full reconcile. What the sweep of a run may delete,
 and what the catalog then says, in terms of the bucket's keys.
 */
module ListedReconcile {
  import opened Basics
  import opened Text
  import opened HiveKey
  import opened CatalogTables
  import opened CatalogWriter
  import opened Reconcile
  import B = CatalogBuilder
  import E = CatalogEvents
  import L = ShardedListing

  /** The listings a run yields; each key is yielded once, with the stat of that moment. */
  function Listings(keys: seq<string>, stat: string -> Stat): (ls: seq<Listing>)
    ensures |ls| == |keys|
  {
    seq(|keys|, i requires 0 <= i < |keys| => Listing(keys[i], stat(keys[i])))
  }

  /** Object keys have no leading slash. */
  ghost predicate Plain(keys: set<string>)
  {
    forall key | key in keys :: Canonical(key)
  }

  /** A file is among the listings exactly when its key was yielded. */
  lemma ListedDimsIsYielded(keys: seq<string>, stat: string -> Stat, d: Dims)
    requires Valid(d) && forall key | key in keys :: Canonical(key)
    ensures ListedDims(Listings(keys, stat), d) <==> Rebuild(d) in keys
  {
    hide Resolve, Rebuild, Valid;
    var ls := Listings(keys, stat);
    RebuiltResolves(d);
    if ListedDims(ls, d) {
      var i :| 0 <= i < |ls| && Resolve(ls[i].key) == Some(d);
      assert keys[i] in keys;
      assert Rebuild(d) == StripSlashes(ls[i].key) == keys[i];
    }
    if Rebuild(d) in keys {
      var i :| 0 <= i < |keys| && keys[i] == Rebuild(d);
      assert Resolve(ls[i].key) == Some(d);
    }
  }

  lemma ListingsAreABucketListing(keys: seq<string>, stat: string -> Stat)
    requires L.Distinct(keys) && forall key | key in keys :: Canonical(key)
    ensures BucketListing(Listings(keys, stat))
  {
    hide Canonical;
    var ls := Listings(keys, stat);
    forall i | 0 <= i < |ls|
      ensures Canonical(ls[i].key)
    {
      assert keys[i] in keys;
    }
    forall i, j | 0 <= i < j < |ls|
      ensures ls[i].key != ls[j].key
    {
      assert keys[i] != keys[j];
    }
  }

  /** A rebuilt key ends in its file name, so in `.mcap`. */
  lemma RebuiltIsMcap(d: Dims)
    requires Valid(d)
    ensures L.IsMcap(Rebuild(d))
  {
    var segs := Segments(d);
    JoinEnds(segs);
  }

  lemma {:induction false} JoinEnds(segs: seq<string>)
    requires segs != []
    ensures HasSuffix(Join(segs), segs[|segs| - 1])
  {
    if |segs| > 1 {
      JoinEnds(segs[1..]);
      var rest := Join(segs[1..]);
      assert Join(segs)[|Join(segs)| - |rest|..] == rest;
    }
  }

  /** A run's yielded keys, as the listings the reconcile is given. */
  function YieldedListings(w: L.World, actions: seq<L.Action>, stat: string -> Stat): seq<Listing>
  {
    Listings(L.Yielded(L.Run(w, actions)), stat)
  }

  ghost predicate Exhausts(w: L.World, prefix: string, always: set<string>, ever: set<string>, actions: seq<L.Action>)
  {
    L.Answers(w, prefix, always, ever) && Plain(ever) && L.Run(w, actions).end == Some(L.Exhausted)
  }

  lemma YieldedIsABucketListing(w: L.World, prefix: string, always: set<string>, ever: set<string>,
                                actions: seq<L.Action>, stat: string -> Stat)
    requires Exhausts(w, prefix, always, ever, actions)
    ensures BucketListing(YieldedListings(w, actions, stat))
  {
    hide L.Run, L.Yielded, L.Answers, BucketListing, Canonical, L.Distinct, Listings;
    L.ListingIsCompleteOrStopped(w, prefix, always, ever, actions);
    ListingsAreABucketListing(L.Yielded(L.Run(w, actions)), stat);
  }

  /** A cataloged file is kept by the sweep if its object was there throughout, and gone if it never was. */
  lemma ListedDimsInBucket(w: L.World, prefix: string, always: set<string>, ever: set<string>,
                           actions: seq<L.Action>, stat: string -> Stat, d: Dims)
    requires Exhausts(w, prefix, always, ever, actions) && Valid(d)
    ensures Rebuild(d) in always && HasPrefix(Rebuild(d), prefix) ==> ListedDims(YieldedListings(w, actions, stat), d)
    ensures ListedDims(YieldedListings(w, actions, stat), d) ==> Rebuild(d) in ever && HasPrefix(Rebuild(d), prefix)
  {
    hide L.Run, L.Yielded, L.Answers, Valid, Rebuild, ListedDims, L.Distinct, Listings, HasPrefix, L.IsMcap, Canonical;
    L.ListingIsCompleteOrStopped(w, prefix, always, ever, actions);
    ListedDimsIsYielded(L.Yielded(L.Run(w, actions)), stat, d);
    RebuiltIsMcap(d);
  }

  /**
   The sweep of an audit deletes no file whose object was under the prefix throughout the listing, and leaves
   none whose object was never there.
   */
  lemma SweepFollowsBucket(t: Tables, w: L.World, prefix: string, always: set<string>, ever: set<string>,
                           actions: seq<L.Action>, stat: string -> Stat, order: seq<Listing>, extract: Extractor)
    requires Consistent(t) && Exhausts(w, prefix, always, ever, actions)
    requires multiset(order) == multiset(Pending(t, YieldedListings(w, actions, stat)))
    ensures var ls := YieldedListings(w, actions, stat);
            var before, after := AtStage(t, ls, extract, Applying(order)), AtStage(t, ls, extract, Swept(order));
            Consistent(before) && Consistent(after) && Sweeps(before, after, prefix, always, ever)
  {
    hide WellFormed, FilesHaveKeys, FailuresHaveDims, AtStage, Pending, YieldedListings, Exhausts, Rebuild, Valid,
         HasPrefix, FileAt, ListedDims;
    var ls := YieldedListings(w, actions, stat);
    YieldedIsABucketListing(w, prefix, always, ever, actions, stat);
    EveryStageIsConsistent(t, ls, extract, Applying(order));
    var before, after := AtStage(t, ls, extract, Applying(order)), AtStage(t, ls, extract, Swept(order));
    SweptFrom(t, ls, order, extract);
    forall d | FileAt(before, d).Some?
      ensures Valid(d)
      ensures Rebuild(d) in always && HasPrefix(Rebuild(d), prefix) ==> FileAt(after, d) == FileAt(before, d)
      ensures FileAt(after, d).Some? ==> Rebuild(d) in ever && HasPrefix(Rebuild(d), prefix)
    {
      CatalogedIsValid(before, d);
      ListedDimsInBucket(w, prefix, always, ever, actions, stat, d);
    }
  }

  ghost predicate Sweeps(before: Tables, after: Tables, prefix: string, always: set<string>, ever: set<string>)
    requires WellFormed(before) && WellFormed(after)
  {
    && (forall d | FileAt(before, d).Some? && Rebuild(d) in always && HasPrefix(Rebuild(d), prefix) ::
          FileAt(after, d) == FileAt(before, d))
    && (forall d | FileAt(after, d).Some? ::
          FileAt(after, d) == FileAt(before, d) && Rebuild(d) in ever && HasPrefix(Rebuild(d), prefix))
  }

  lemma SweptFrom(t: Tables, ls: seq<Listing>, order: seq<Listing>, extract: Extractor)
    requires Consistent(AtStage(t, ls, extract, Applying(order)))
    ensures var before, after := AtStage(t, ls, extract, Applying(order)), AtStage(t, ls, extract, Swept(order));
            Consistent(after) && forall d :: FileAt(after, d) == if ListedDims(ls, d) then FileAt(before, d) else None
  {
    hide Consistent, Keep, Present, ApplyAll, MarkUnparseable, FileAt, ListedDims;
    SweepMeaning(ApplyAll(MarkUnparseable(t, ls), order, extract), ls);
  }

  /**
   An audit run: list, then reconcile. The event is the one the listing looks at, so a listing that was cut
   short is seen, and neither it nor a failed one changes the catalog; the sweep follows the bucket.
   */
  method Audit(b: B.Builder, w: L.World, prefix: string, ghost always: set<string>, ghost ever: set<string>,
               actions: seq<L.Action>, stat: string -> Stat, window: nat, extract: Extractor, stop: StopEvent)
    returns (run: Run, ghost stage: Stage)
    requires b.Valid() && Consistent(b.committed) && window >= 1
    requires L.Answers(w, prefix, always, ever) && Plain(ever)
    requires L.Run(w, actions).end.Some? && (L.Run(w, actions).stop ==> stop.IsSet())
    modifies b, stop
    ensures b.Valid() && (run.Finished? ==> stage.Swept?)
    ensures run == ListingFailed <==> L.Run(w, actions).end == Some(L.Raised)
    ensures run == Cancelled ==> stop.IsSet()
    ensures old(stop.left).None? && L.Run(w, actions).end == Some(L.Exhausted) ==> run.Finished?
    ensures L.Run(w, actions).end != Some(L.Exhausted) ==> !stage.Swept? && b.committed == old(b.committed)
    ensures stage.Swept? ==>
              var ls := YieldedListings(w, actions, stat);
              var before := AtStage(old(b.committed), ls, extract, Applying(stage.order));
              WellFormed(before) && Sweeps(before, b.committed, prefix, always, ever)
  {
    hide L.Run, L.Answers, Plain, Consistent, Pending, YieldedListings, WellFormed, MarkUnparseable, Sweeps, AtStage;
    ghost var t := b.committed;
    L.ListingIsCompleteOrStopped(w, prefix, always, ever, actions);
    var ls := YieldedListings(w, actions, stat);
    run, stage := FullReconcile(b, ls, L.Run(w, actions).end.value, window, extract, stop);
    if stage.Swept? {
      SweepFollowsBucket(t, w, prefix, always, ever, actions, stat, stage.order, extract);
      ghost var after := AtStage(t, ls, extract, stage);
      ConsistentIsWellFormed(after);
      ConsistentIsWellFormed(AtStage(t, ls, extract, Applying(stage.order)));
      if run.Finished? {
        BuildIsSeparate(after, run.counts.cataloged + run.counts.skipped, run.counts.failed);
        SweepsBuilt(AtStage(t, ls, extract, Applying(stage.order)), after, b.committed, prefix, always, ever);
      }
    } else if L.Run(w, actions).end != Some(L.Exhausted) {
      StageZero(t, ls, extract);
    }
  }

  lemma StageZero(t: Tables, ls: seq<Listing>, extract: Extractor)
    ensures AtStage(t, ls, extract, Classifying(0)) == t
  {
    assert ls[..0] == [];
  }

  lemma ConsistentIsWellFormed(t: Tables)
    requires Consistent(t)
    ensures WellFormed(t)
  {
  }

  lemma SweepsBuilt(before: Tables, after: Tables, u: Tables, prefix: string, always: set<string>, ever: set<string>)
    requires WellFormed(before) && WellFormed(after) && WellFormed(u) && Sweeps(before, after, prefix, always, ever)
    requires forall d :: FileAt(u, d) == FileAt(after, d)
    ensures Sweeps(before, u, prefix, always, ever)
  {
    hide WellFormed, FileAt, Rebuild, HasPrefix;
  }

  /**
   A finished audit of a bucket that stays as it is makes the catalog a function of the bucket: each wanted key
   has the file of its object or a failure, and there is no other file.
   */
  lemma AuditedCatalogIsTheBucket(t: Tables, w: L.World, prefix: string, bucket: set<string>, actions: seq<L.Action>,
                                  stat: string -> Stat, order: seq<Listing>, extract: Extractor,
                                  contents: (string, string) -> Reading)
    requires Consistent(t) && E.Faithful(t, contents) && Exhausts(w, prefix, bucket, bucket, actions)
    requires forall key | key in bucket :: extract(key) == Extracted(contents(key, stat(key).etag))
    requires multiset(order) == multiset(Pending(t, YieldedListings(w, actions, stat)))
    ensures var u := AtStage(t, YieldedListings(w, actions, stat), extract, Swept(order));
            && Consistent(u)
            && (forall key | key in bucket && L.Wanted(prefix, key) :: SaysOf(u, key, stat(key), contents))
            && (forall d | FileAt(u, d).Some? :: Rebuild(d) in bucket && HasPrefix(Rebuild(d), prefix))
  {
    hide WellFormed, FilesHaveKeys, FailuresHaveDims, AtStage, Pending, Rebuild, HasPrefix, FileAt, L.Wanted, L.Run,
         L.Yielded, L.Answers, BucketListing, E.Faithful, StateOf, BucketFile, BucketFailure, E.EssenceOf,
         ListedDims, L.Distinct;
    var ls := YieldedListings(w, actions, stat);
    YieldedIsABucketListing(w, prefix, bucket, bucket, actions, stat);
    L.ListingIsCompleteOrStopped(w, prefix, bucket, bucket, actions);
    CatalogIsAFunctionOfTheBucket(t, ls, order, extract, contents);
    SweepFollowsBucket(t, w, prefix, bucket, bucket, actions, stat, order, extract);
    var u := AtStage(t, ls, extract, Swept(order));
    forall key | key in bucket && L.Wanted(prefix, key)
      ensures SaysOf(u, key, stat(key), contents)
    {
      var keys := L.Yielded(L.Run(w, actions));
      var i :| 0 <= i < |keys| && keys[i] == key;
      assert ls[i] in ls;
    }
  }

  /** What the catalog says about a key is what the bucket says, size and time stamp of a skipped file aside. */
  ghost predicate SaysOf(u: Tables, key: string, stat: Stat, contents: (string, string) -> Reading)
    requires WellFormed(u)
  {
    var l := Listing(key, stat);
    && E.EssenceOf(StateOf(u, key).file) == E.EssenceOf(BucketFile(l, contents))
    && StateOf(u, key).failure == BucketFailure(l, contents)
  }
}
