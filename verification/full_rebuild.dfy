/**
 `--rebuild`: a full reconcile of the bucket into an empty database seeded above the old build id, published
 over the served one.
 */
module FullRebuild {
  import opened Basics
  import opened HiveKey
  import opened CatalogTables
  import opened CatalogWriter
  import B = CatalogBuilder
  import L = ShardedListing
  import P = Publish
  import R = Reconcile

  /** A finished reconcile of the seeded database is a build that publishing can trust. */
  lemma ReconcileIsAGoodBuild(floor: Option<nat>, ls: seq<R.Listing>, order: seq<R.Listing>, extract: R.Extractor,
                              scanned: nat, failed: nat)
    requires var seed := P.Seed(R.EmptyTables(), floor);
             R.BucketListing(ls) && multiset(order) == multiset(R.Pending(seed, ls))
    ensures var seed := P.Seed(R.EmptyTables(), floor);
            var built := R.RecordBuild(R.AtStage(seed, ls, extract, R.Swept(order)), scanned, failed);
            P.GoodBuild(seed, Some(built)) && P.Stamped(built)
  {
    hide R.AtStage, R.Pending, R.BucketListing, WellFormed;
    SeedIsBlank(floor);
    R.ReconcileStampsAboveFloor(P.Seed(R.EmptyTables(), floor), ls, order, extract, scanned, failed);
  }

  /** The seed changes the build row only. */
  lemma SeedIsBlank(floor: Option<nat>)
    ensures var seed := P.Seed(R.EmptyTables(), floor);
            R.Blank(seed) && seed.overrides == map[]
  {
  }

  /** What a rebuild of a bucket that stays as it is must say: every listed key as its object reads, no other file. */
  ghost predicate IsTheBucket(u: Tables, ls: seq<R.Listing>, contents: (string, string) -> Reading)
    requires WellFormed(u)
  {
    && (forall l | l in ls :: StateOf(u, l.key) == KeyState(R.BucketFile(l, contents), R.BucketFailure(l, contents)))
    && (forall d | !R.ListedDims(ls, d) :: FileAt(u, d).None?)
    && (forall k | !R.Listed(ls, k) :: FailureAt(u, k).None?)
  }

  lemma SeededRebuildIsTheBucket(floor: Option<nat>, ls: seq<R.Listing>, order: seq<R.Listing>, extract: R.Extractor,
                                 contents: (string, string) -> Reading)
    requires R.BucketListing(ls) && R.SteadyBucket(ls, extract, contents)
    requires multiset(order) == multiset(R.Pending(P.Seed(R.EmptyTables(), floor), ls))
    ensures var u := R.AtStage(P.Seed(R.EmptyTables(), floor), ls, extract, R.Swept(order));
            Consistent(u) && IsTheBucket(u, ls, contents)
  {
    hide R.AtStage, R.Pending, R.BucketListing, WellFormed, FilesHaveKeys, FailuresHaveDims, FileAt, Resolve,
         R.BucketFile, R.BucketFailure, R.ListedDims, R.Listed, P.Seed, R.SteadyBucket;
    SeedIsBlank(floor);
    R.RebuildIsExactlyTheBucket(P.Seed(R.EmptyTables(), floor), ls, order, extract, contents);
  }

  /** What is carried over changes what the catalog says about no file. */
  lemma OverridesSayNothing(t: Tables, u: Tables, ls: seq<R.Listing>, contents: (string, string) -> Reading)
    requires WellFormed(t) && WellFormed(u) && u == t.(overrides := u.overrides) && IsTheBucket(t, ls, contents)
    ensures IsTheBucket(u, ls, contents)
  {
    hide AllSound, FilesResolve, IdsDistinct, OverridesAttached, Resolve, R.BucketFile, R.BucketFailure, R.ListedDims,
         R.Listed;
    forall d
      ensures FileAt(u, d) == FileAt(t, d)
    {
      OverridesAreSeparate(t, u, d);
    }
    SameSaying(t, u, ls, contents);
  }

  lemma OverridesAreSeparate(t: Tables, u: Tables, d: Dims)
    requires WellFormed(t) && WellFormed(u) && u == t.(overrides := u.overrides)
    ensures FileAt(u, d) == FileAt(t, d)
  {
    hide AllSound, FilesResolve, IdsDistinct, OverridesAttached;
    OtherFile(t, u, d);
  }

  lemma SameSaying(t: Tables, u: Tables, ls: seq<R.Listing>, contents: (string, string) -> Reading)
    requires WellFormed(t) && WellFormed(u) && u.failures == t.failures && IsTheBucket(t, ls, contents)
    requires forall d :: FileAt(u, d) == FileAt(t, d)
    ensures IsTheBucket(u, ls, contents)
  {
    hide WellFormed, FileAt, Resolve, R.BucketFile, R.BucketFailure, R.ListedDims, R.Listed;
    forall l | l in ls
      ensures StateOf(u, l.key) == StateOf(t, l.key)
    {
    }
    forall k
      ensures FailureAt(u, k) == FailureAt(t, k)
    {
    }
  }

  /** The reconcile of a rebuild: the temporary database, if the run finished. */
  method BuildTemp(seed: Tables, ls: seq<R.Listing>, ended: L.Ended, window: nat, extract: R.Extractor,
                   stop: R.StopEvent)
    returns (built: Option<Tables>, ghost order: seq<R.Listing>, ghost scanned: nat, ghost failed: nat)
    requires WellFormed(seed) && window >= 1 && (ended == L.StoppedEarly ==> stop.IsSet())
    modifies stop
    ensures built.None? ==> ended == L.Raised || stop.IsSet()
    ensures old(stop.left).None? && ended == L.Exhausted ==> built.Some?
    ensures built.Some? ==>
              && ended == L.Exhausted && multiset(order) == multiset(R.Pending(seed, ls))
              && built.value == R.RecordBuild(R.AtStage(seed, ls, extract, R.Swept(order)), scanned, failed)
  {
    hide R.AtStage, R.Pending, WellFormed, R.RecordBuild, R.CatalogedIn, R.SkippedIn, R.Absent, R.Present, B.IndexesOf;
    var b := new B.Builder(seed);
    var run;
    ghost var stage;
    run, stage := R.FullReconcile(b, ls, ended, window, extract, stop);
    built, order, scanned, failed := None, [], 0, 0;
    if run.Finished? {
      built, order := Some(b.committed), stage.order;
      scanned, failed := run.counts.cataloged + run.counts.skipped, run.counts.failed;
    }
  }

  /**
   The rebuild as a whole. Unless it publishes, what readers see stays. If it publishes, the listing was complete,
   the build id is above the old one, every override of a surviving file is kept, and over a bucket that stayed as
   it was the catalog is that bucket.
   */
  method RebuildAndPublish(p: P.Publisher, w: P.World, ls: seq<R.Listing>, ended: L.Ended, window: nat,
                           extract: R.Extractor, stop: R.StopEvent, ghost contents: (string, string) -> Reading)
    returns (out: P.Outcome, result: Option<Tables>)
    requires window >= 1 && (ended == L.StoppedEarly ==> stop.IsSet())
    requires R.BucketListing(ls)
    requires P.ViewOf(p.front) != P.Torn && (P.ViewOf(p.front).Catalog? ==> WellFormed(P.ViewOf(p.front).tables))
    modifies p, stop
    ensures out != P.Published ==> P.ViewOf(p.front) == old(P.ViewOf(p.front))
    ensures out == P.BuildFailed ==> ended == L.Raised || stop.IsSet()
    ensures ended != L.Exhausted ==> out == P.BuildFailed
    ensures old(stop.left).None? && ended == L.Exhausted ==>
              out == if !w.tempClean then P.TempNotClean
                     else if P.StaysBusy(old(p.front), w) then P.ServedBusy else P.Published
    ensures out == P.Published ==>
              && result.Some? && P.ViewOf(p.front) == P.Catalog(result.value) && ended == L.Exhausted
              && WellFormed(result.value) && result.value.build.Some?
    ensures out == P.Published && R.SteadyBucket(ls, extract, contents) ==> IsTheBucket(result.value, ls, contents)
    ensures out == P.Published && P.FloorOf(old(p.OldTables(w.floorReadable))).Some? ==>
              result.value.build.value.id > P.FloorOf(old(p.OldTables(w.floorReadable))).value
    ensures out == P.Published && old(p.OldTables(w.overridesReadable)).Some? ==>
              forall d, key :: OverrideAt(result.value, d, key) ==
                if LookupFile(result.value, d).Some?
                then OverrideAt(old(p.OldTables(w.overridesReadable)).value, d, key) else None
  {
    hide R.AtStage, R.Pending, WellFormed, IsTheBucket, R.BucketListing, R.SteadyBucket, P.ViewOf, P.Seed,
         P.SwapFronts, OverrideAt, LookupFile, R.EmptyTables, P.GoodBuild, P.HasFrames, Consistent;
    var floor := P.FloorOf(p.OldTables(w.floorReadable));
    var seed := P.Seed(R.EmptyTables(), floor);
    Seeded(floor);
    var built;
    ghost var order, scanned, failed;
    built, order, scanned, failed := BuildTemp(seed, ls, ended, window, extract, stop);
    if built.Some? {
      ReconcileIsAGoodBuild(floor, ls, order, extract, scanned, failed);
      if R.SteadyBucket(ls, extract, contents) {
        SeededRebuildIsTheBucket(floor, ls, order, extract, contents);
        ghost var u := R.AtStage(seed, ls, extract, R.Swept(order));
        WellFormedOf(u);
        R.BuildIsSeparate(u, scanned, failed);
        BuildSaysNothing(u, scanned, failed, ls, contents);
      }
    } else {
      NoBuildIsGood(seed);
    }
    out, result := p.BuildAndPublish(R.EmptyTables(), w.(build := (t: Tables) => built));
    if out == P.Published && R.SteadyBucket(ls, extract, contents) {
      OverridesSayNothing(built.value, result.value, ls, contents);
    }
  }

  lemma Seeded(floor: Option<nat>)
    ensures WellFormed(P.Seed(R.EmptyTables(), floor))
    ensures R.EmptyTables().overrides == map[] && R.EmptyTables().build.None?
  {
    SeedIsBlank(floor);
  }

  lemma WellFormedOf(t: Tables)
    requires Consistent(t)
    ensures WellFormed(t)
  {
  }

  lemma NoBuildIsGood(seed: Tables)
    ensures P.GoodBuild(seed, None)
  {
  }

  lemma BuildSaysNothing(t: Tables, scanned: nat, failed: nat, ls: seq<R.Listing>,
                         contents: (string, string) -> Reading)
    requires WellFormed(t) && WellFormed(R.RecordBuild(t, scanned, failed)) && IsTheBucket(t, ls, contents)
    requires forall d :: FileAt(R.RecordBuild(t, scanned, failed), d) == FileAt(t, d)
    ensures IsTheBucket(R.RecordBuild(t, scanned, failed), ls, contents)
  {
    hide WellFormed, FileAt, IsTheBucket;
    SameSaying(t, R.RecordBuild(t, scanned, failed), ls, contents);
  }
}
