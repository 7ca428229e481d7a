/**
 Atomic publish: build into a temporary file, carry the user's tag overrides over by name, gate the served
 database's write-ahead log, rename. The served path is what readers see; every filesystem step on it is a
 crash point.
 */
module Publish {
  import opened Basics
  import opened HiveKey
  import opened CatalogTables

  // ---- The served path ----

  /** A main file: its generation, and its content unless it is not a database. */
  datatype Main = Main(generation: nat, tables: Option<Tables>)

  /** A write-ahead log: the generation it belongs to, and what its frames lead to if it has any. */
  datatype Wal = Wal(generation: nat, frames: nat, tables: Tables)

  datatype Front = Front(served: Option<Main>, wal: Option<Wal>)

  datatype View = NoCatalog | Garbage | Catalog(tables: Tables) | Torn

  predicate HasFrames(f: Front)
  {
    f.wal.Some? && f.wal.value.frames > 0
  }

  /** What a reader of the served path sees. Frames of another generation would tear it. */
  function ViewOf(f: Front): View
  {
    match f.served
    case None => NoCatalog
    case Some(main) =>
      if HasFrames(f) && f.wal.value.generation != main.generation then Torn
      else if main.tables.None? then Garbage
      else Catalog(if HasFrames(f) then f.wal.value.tables else main.tables.value)
  }

  // ---- Overrides by name ----

  /** The rows of `prior` in `rows` have been carried to `t`, and nothing else. */
  ghost predicate CarriedExactly(built: Tables, t: Tables, prior: Tables, rows: set<(Id, string)>)
  {
    && t == built.(overrides := t.overrides)
    && forall d, key :: OverrideAt(t, d, key) ==
         if LookupFile(built, d).Some? && LookupFile(prior, d).Some? && (LookupFile(prior, d).value, key) in rows
         then OverrideAt(prior, d, key) else None
  }

  lemma LookupIgnoresOverrides(t: Tables, overrides: map<(Id, string), Option<string>>, d: Dims)
    ensures LookupFile(t.(overrides := overrides), d) == LookupFile(t, d)
  {
  }

  /** Two files never share a row id. */
  lemma SameIdSameFile(t: Tables, d: Dims, e: Dims)
    requires WellFormed(t) && LookupFile(t, d).Some? && LookupFile(t, d) == LookupFile(t, e)
    ensures d == e
  {
    hide AllSound, FilesResolve, OverridesAttached, CompositeOf;
    var c, b := CompositeOf(t.dict, d).value, CompositeOf(t.dict, e).value;
    assert HasId(t.files, c, t.files[c].id) && HasId(t.files, b, t.files[c].id);
    assert c == b;
    CompositeDims(t.dict, d);
    CompositeDims(t.dict, e);
  }

  /** The file a row id belongs to, by name. */
  lemma DimsOfRow(t: Tables, c: Composite)
    requires WellFormed(t) && c in t.files
    ensures RefsResolve(t.dict, c) && LookupFile(t, DimsOf(t.dict, c)) == Some(t.files[c].id)
  {
    hide AllSound, IdsDistinct, OverridesAttached, CompositeOf;
    assert RowResolves(t.dict, c, t.files[c]);
    DimsComposite(t.dict, c);
  }

  lemma CarryOne(built: Tables, t: Tables, prior: Tables, rows: set<(Id, string)>, d: Dims, key: string, id: Id)
    requires WellFormed(built) && WellFormed(prior) && CarriedExactly(built, t, prior, rows)
    requires LookupFile(prior, d) == Some(id) && (id, key) in prior.overrides
    ensures LookupFile(built, d).Some? ==>
              var row := (LookupFile(built, d).value, key);
              CarriedExactly(built, t.(overrides := t.overrides[row := prior.overrides[(id, key)]]),
                             prior, rows + {(id, key)})
    ensures LookupFile(built, d).None? ==> CarriedExactly(built, t, prior, rows + {(id, key)})
  {
    hide WellFormed, LookupFile;
    var more := rows + {(id, key)};
    if LookupFile(built, d).Some? {
      var fid := LookupFile(built, d).value;
      var u := t.(overrides := t.overrides[(fid, key) := prior.overrides[(id, key)]]);
      forall e, k
        ensures OverrideAt(u, e, k) ==
                if LookupFile(built, e).Some? && LookupFile(prior, e).Some? && (LookupFile(prior, e).value, k) in more
                then OverrideAt(prior, e, k) else None
      {
        LookupIgnoresOverrides(built, u.overrides, e);
        LookupIgnoresOverrides(built, t.overrides, e);
        CarriedAt(built, t, prior, rows, e, k);
        if LookupFile(built, e) == Some(fid) {
          SameIdSameFile(built, d, e);
        }
        if LookupFile(prior, e) == Some(id) {
          SameIdSameFile(prior, d, e);
        }
      }
    } else {
      forall e, k
        ensures OverrideAt(t, e, k) ==
                if LookupFile(built, e).Some? && LookupFile(prior, e).Some? && (LookupFile(prior, e).value, k) in more
                then OverrideAt(prior, e, k) else None
      {
        CarriedAt(built, t, prior, rows, e, k);
        if LookupFile(prior, e) == Some(id) {
          SameIdSameFile(prior, d, e);
        }
      }
    }
  }

  lemma CarriedAt(built: Tables, t: Tables, prior: Tables, rows: set<(Id, string)>, d: Dims, key: string)
    requires CarriedExactly(built, t, prior, rows)
    ensures OverrideAt(t, d, key) ==
            if LookupFile(built, d).Some? && LookupFile(prior, d).Some? && (LookupFile(prior, d).value, key) in rows
            then OverrideAt(prior, d, key) else None
  {
  }

  /**
   `_carry_forward_tags_override`: the new database's overrides are exactly the old ones restricted to file
   identities that still exist, and every old row is counted once.
   */
  method CarryForward(built: Tables, prior: Tables) returns (t: Tables, carried: nat, dropped: nat)
    requires WellFormed(built) && WellFormed(prior) && built.overrides == map[]
    ensures CarriedExactly(built, t, prior, prior.overrides.Keys) && WellFormed(t)
    ensures carried == |t.overrides| && carried + dropped == |prior.overrides.Keys|
  {
    hide WellFormed, LookupFile, CarriedExactly;
    t, carried, dropped := built, 0, 0;
    NothingCarried(built, prior);
    var left := prior.overrides.Keys;
    ghost var done: set<(Id, string)> := {};
    while left != {}
      invariant left <= prior.overrides.Keys && done == prior.overrides.Keys - left
      invariant CarriedExactly(built, t, prior, done) && carried == |t.overrides| && WellFormed(t)
      invariant carried + dropped + |left| == |prior.overrides.Keys|
      decreases |left|
    {
      var row :| row in left;
      OwnerExists(prior, row);
      var c :| c in prior.files && prior.files[c].id == row.0;
      DimsOfRow(prior, c);
      var d := DimsOf(prior.dict, c);
      CarryOne(built, t, prior, done, d, row.1, row.0);
      var target := LookupFile(built, d);
      if target.None? {
        dropped := dropped + 1;
      } else {
        NotYetCarried(built, t, prior, done, d, row.1);
        CarriedIsAttached(built, t, prior, done, d, row.1, prior.overrides[row]);
        t := t.(overrides := t.overrides[(target.value, row.1) := prior.overrides[row]]);
        carried := carried + 1;
      }
      left := left - {row};
      done := done + {row};
    }
    assert done == prior.overrides.Keys;
  }

  /** The plain INSERT never meets a row that is already there. */
  lemma NotYetCarried(built: Tables, t: Tables, prior: Tables, rows: set<(Id, string)>, d: Dims, key: string)
    requires CarriedExactly(built, t, prior, rows) && LookupFile(built, d).Some? && LookupFile(prior, d).Some?
    requires (LookupFile(prior, d).value, key) !in rows
    ensures (LookupFile(built, d).value, key) !in t.overrides
  {
    CarriedAt(built, t, prior, rows, d, key);
  }

  /** A carried override belongs to a row of the new database. */
  lemma CarriedIsAttached(built: Tables, t: Tables, prior: Tables, rows: set<(Id, string)>, d: Dims, key: string,
                          value: Option<string>)
    requires CarriedExactly(built, t, prior, rows) && WellFormed(t) && LookupFile(built, d).Some?
    ensures WellFormed(t.(overrides := t.overrides[(LookupFile(built, d).value, key) := value]))
  {
    hide AllSound, RowResolves, IdsDistinct, CompositeOf, OverrideAt;
    var c := CompositeOf(built.dict, d).value;
    var u := t.(overrides := t.overrides[(LookupFile(built, d).value, key) := value]);
    assert HasId(u.files, c, u.files[c].id);
    forall e | e in u.files
      ensures RowResolves(u.dict, e, u.files[e])
    {
      assert RowResolves(t.dict, e, t.files[e]);
    }
    SameRowsDistinct(t, u);
  }

  lemma SameRowsDistinct(t: Tables, u: Tables)
    requires IdsDistinct(t) && u.files == t.files && u.nextFile == t.nextFile
    ensures IdsDistinct(u)
  {
  }

  lemma NothingCarried(built: Tables, prior: Tables)
    requires built.overrides == map[]
    ensures CarriedExactly(built, built, prior, {})
  {
  }

  lemma OwnerExists(t: Tables, row: (Id, string))
    requires WellFormed(t) && row in t.overrides
    ensures exists c :: c in t.files && t.files[c].id == row.0
  {
    var c :| HasId(t.files, c, row.0);
  }

  /** The promise in one line: an override survives exactly when its file does. */
  lemma OverridesSurviveIff(built: Tables, t: Tables, prior: Tables, d: Dims, key: string)
    requires CarriedExactly(built, t, prior, prior.overrides.Keys)
    ensures OverrideAt(t, d, key) == if LookupFile(t, d).Some? then OverrideAt(prior, d, key) else None
  {
    LookupIgnoresOverrides(built, t.overrides, d);
    CarriedAt(built, t, prior, prior.overrides.Keys, d, key);
  }

  // ---- Building ----

  /** The stamp of a real build, strictly above the seed; `None` is a build that never stamped. */
  predicate Stamped(t: Tables)
  {
    t.build.Some? && t.build.value.stamped
  }

  /** `_seed_build_id_floor`, over the empty temporary database. */
  function Seed(empty: Tables, floor: Option<nat>): Tables
  {
    match floor
    case None => empty
    case Some(id) => empty.(build := Some(Build(id, false, 0, 0)))
  }

  /** The old build id, if the old catalog could be read and has one. */
  function FloorOf(prior: Option<Tables>): Option<nat>
  {
    if prior.Some? && prior.value.build.Some? then Some(prior.value.build.value.id) else None
  }

  /** What a build makes of the seeded database: no override, and if it stamps, above the row it found. */
  ghost predicate GoodBuild(seed: Tables, built: Option<Tables>)
  {
    built.Some? ==>
      && WellFormed(built.value) && built.value.overrides == map[]
      && (Stamped(built.value) ==> built.value.build.value.id > if seed.build.Some? then seed.build.value.id else 0)
  }

  // ---- Gating and swapping ----

  /** One checkpoint attempt on the served database. Even a busy one may copy safe frames into the main file. */
  datatype Attempt = Clean | Busy(copied: Option<Tables>) | Raises

  datatype Gate = Gated | StillBusy | Broken

  /**
   What the run will observe: whether the served database can be read for its build id and for its
   overrides, whether the temporary file checkpoints clean, and how each gate attempt goes up to the last
   one inside the window.
   */
  datatype World = World(build: Tables -> Option<Tables>, floorReadable: bool, overridesReadable: bool,
                         tempClean: bool, attempts: nat -> Attempt, lastAttempt: nat)

  /** The attempt as it really goes: a file that is not a database always raises. */
  function Effective(f: Front, a: Attempt): Attempt
    requires f.served.Some?
  {
    if f.served.value.tables.None? then Raises else a
  }

  function AfterAttempt(f: Front, a: Attempt): (next: Front)
    requires f.served.Some?
    ensures next.served.Some?
  {
    match Effective(f, a)
    case Raises => f
    case Clean =>
      var main := f.served.value;
      if HasFrames(f) then Front(Some(main.(tables := Some(f.wal.value.tables))), Some(f.wal.value.(frames := 0)))
      else f
    case Busy(copied) =>
      if copied.Some? && HasFrames(f) then f.(served := Some(f.served.value.(tables := copied))) else f
  }

  function GateEnd(f: Front, w: World, k: nat): Gate
    requires f.served.Some? && k <= w.lastAttempt
    decreases w.lastAttempt - k
  {
    match Effective(f, w.attempts(k))
    case Clean => Gated
    case Raises => Broken
    case Busy(_) => if k == w.lastAttempt then StillBusy else GateEnd(AfterAttempt(f, w.attempts(k)), w, k + 1)
  }

  /** The served path after each attempt of the gate. */
  function GateFronts(f: Front, w: World, k: nat): (fs: seq<Front>)
    requires f.served.Some? && k <= w.lastAttempt
    ensures fs != []
    ensures forall i | 0 <= i < |fs| :: fs[i].served.Some?
    decreases w.lastAttempt - k
  {
    var next := AfterAttempt(f, w.attempts(k));
    if Effective(f, w.attempts(k)).Busy? && k < w.lastAttempt then [next] + GateFronts(next, w, k + 1) else [next]
  }

  function Unlinked(f: Front): Front
  {
    f.(wal := None)
  }

  function Replaced(f: Front, new_: Main): Front
  {
    f.(served := Some(new_))
  }

  /** Unlink the sidecars, rename, unlink again. */
  function UnlinkAndSwap(f: Front, new_: Main): seq<Front>
  {
    [Unlinked(f), Replaced(Unlinked(f), new_), Replaced(Unlinked(f), new_)]
  }

  /** The served path after each filesystem step of the swap: these and the start are the crash points. */
  function SwapFronts(f: Front, new_: Main, w: World): seq<Front>
  {
    if f.served.None? then UnlinkAndSwap(f, new_)
    else
      var gate := GateFronts(f, w, 0);
      var last := gate[|gate| - 1];
      match GateEnd(f, w, 0)
      case StillBusy => gate
      case Gated => gate + [Replaced(last, new_), Unlinked(Replaced(last, new_))]
      case Broken => gate + UnlinkAndSwap(last, new_)
  }

  // ---- Crash safety ----

  /** From attempt `k` on, the first attempt that is not busy, if there is one, is number `n`. */
  ghost predicate FirstNotBusy(w: World, k: nat, n: nat)
  {
    k <= n <= w.lastAttempt && !w.attempts(n).Busy? && forall j | k <= j < n :: w.attempts(j).Busy?
  }

  ghost predicate AllBusy(w: World, k: nat)
  {
    forall j | k <= j <= w.lastAttempt :: w.attempts(j).Busy?
  }

  /** There is a database to gate, and a reader holds it for the whole window. */
  ghost predicate StaysBusy(f: Front, w: World)
  {
    f.served.Some? && f.served.value.tables.Some? && AllBusy(w, 0)
  }

  /**
   How the gate ends: on a file that is no database it breaks; otherwise the first attempt that is not busy decides,
   and it stays busy exactly when there is none in the window.
   */
  lemma {:induction false} GateEndsAs(f: Front, w: World, k: nat)
    requires f.served.Some? && k <= w.lastAttempt
    ensures f.served.value.tables.None? ==> GateEnd(f, w, k) == Broken
    ensures f.served.value.tables.Some? ==>
              && (GateEnd(f, w, k) == StillBusy <==> AllBusy(w, k))
              && (GateEnd(f, w, k) == Gated <==> exists n :: FirstNotBusy(w, k, n) && w.attempts(n).Clean?)
    decreases w.lastAttempt - k
  {
    GateStep(f, w, k);
    hide GateFronts, HasFrames;
    if f.served.value.tables.Some? {
      var a, next := w.attempts(k), AfterAttempt(f, w.attempts(k));
      if a.Busy? && k < w.lastAttempt {
        GateEndsAs(next, w, k + 1);
        assert AllBusy(w, k) <==> AllBusy(w, k + 1);
        forall n
          ensures FirstNotBusy(w, k, n) <==> FirstNotBusy(w, k + 1, n)
        {
        }
      } else if !a.Busy? {
        assert FirstNotBusy(w, k, k);
      }
    }
  }

  /** A gate attempt never changes what readers see. */
  lemma AttemptKeepsView(f: Front, a: Attempt)
    requires f.served.Some? && ViewOf(f) != Torn
    ensures ViewOf(AfterAttempt(f, a)) == ViewOf(f)
    ensures Effective(f, a).Clean? ==> !HasFrames(AfterAttempt(f, a))
  {
  }

  lemma {:induction false} GateKeepsView(f: Front, w: World, k: nat)
    requires f.served.Some? && k <= w.lastAttempt && ViewOf(f) != Torn
    ensures forall i | 0 <= i < |GateFronts(f, w, k)| :: ViewOf(GateFronts(f, w, k)[i]) == ViewOf(f)
    ensures GateEnd(f, w, k).Gated? ==> !HasFrames(GateFronts(f, w, k)[|GateFronts(f, w, k)| - 1])
    decreases w.lastAttempt - k
  {
    hide ViewOf, HasFrames, AfterAttempt;
    AttemptKeepsView(f, w.attempts(k));
    var next := AfterAttempt(f, w.attempts(k));
    if Effective(f, w.attempts(k)).Busy? && k < w.lastAttempt {
      GateKeepsView(next, w, k + 1);
      var rest := GateFronts(next, w, k + 1);
      assert GateFronts(f, w, k) == [next] + rest;
      assert ([next] + rest)[|rest|] == rest[|rest| - 1];
    }
  }

  lemma GateStep(f: Front, w: World, k: nat)
    requires f.served.Some? && k <= w.lastAttempt
    ensures var a, next := Effective(f, w.attempts(k)), AfterAttempt(f, w.attempts(k));
            if a.Busy? && k < w.lastAttempt
            then GateFronts(f, w, k) == [next] + GateFronts(next, w, k + 1) &&
                 GateEnd(f, w, k) == GateEnd(next, w, k + 1)
            else GateFronts(f, w, k) == [next] &&
                 GateEnd(f, w, k) == if a.Clean? then Gated else if a.Raises? then Broken else StillBusy
  {
    hide AfterAttempt, Effective;
  }

  /** The front where the gate ended. */
  function GateLast(f: Front, w: World): Front
    requires f.served.Some?
  {
    GateFronts(f, w, 0)[|GateFronts(f, w, 0)| - 1]
  }

  /**
   The one way to lose committed frames: the gate raises on a database that is readable and still has frames
   whose content is not in the main file; the unlink then discards them before the rename.
   */
  predicate LosesFrames(f: Front, new_: Tables, w: World)
  {
    && f.served.Some? && GateEnd(f, w, 0).Broken?
    && var last := GateLast(f, w);
       && HasFrames(last) && last.served.Some? && last.served.value.tables.Some?
       && last.served.value.tables.value != last.wal.value.tables && last.served.value.tables.value != new_
  }

  ghost predicate OldOrNew(f: Front, start: Front, new_: Tables)
  {
    ViewOf(f) == ViewOf(start) || ViewOf(f) == Catalog(new_)
  }

  ghost predicate AllOldOrNew(fs: seq<Front>, start: Front, new_: Tables)
  {
    forall i | 0 <= i < |fs| :: OldOrNew(fs[i], start, new_)
  }

  lemma AllConcat(a: seq<Front>, b: seq<Front>, start: Front, new_: Tables)
    ensures AllOldOrNew(a + b, start, new_) <==> AllOldOrNew(a, start, new_) && AllOldOrNew(b, start, new_)
  {
    hide OldOrNew;
    if AllOldOrNew(a + b, start, new_) {
      forall i | 0 <= i < |a|
        ensures OldOrNew(a[i], start, new_)
      {
        assert (a + b)[i] == a[i];
      }
      forall i | 0 <= i < |b|
        ensures OldOrNew(b[i], start, new_)
      {
        assert (a + b)[|a| + i] == b[i];
      }
    }
  }

  lemma UnlinkSwapViews(f: Front, start: Front, new_: Main)
    requires new_.tables.Some? && ViewOf(f) == ViewOf(start) && ViewOf(start) != Torn
    ensures AllOldOrNew(UnlinkAndSwap(f, new_), start, new_.tables.value) <==>
            OldOrNew(Unlinked(f), start, new_.tables.value)
  {
    var fs := UnlinkAndSwap(f, new_);
    assert fs[0] == Unlinked(f) && fs[1] == Replaced(Unlinked(f), new_) && fs[2] == fs[1];
    assert ViewOf(fs[1]) == Catalog(new_.tables.value);
  }

  lemma UnlinkedView(f: Front, start: Front, new_: Tables)
    requires ViewOf(f) == ViewOf(start) && ViewOf(start) != Torn
    ensures OldOrNew(Unlinked(f), start, new_) <==>
            !(HasFrames(f) && f.served.Some? && f.served.value.tables.Some? &&
              f.served.value.tables.value != f.wal.value.tables && f.served.value.tables.value != new_)
  {
  }

  /**
   At every crash point readers see the whole old catalog or the whole new one, exactly when the gate does not
   break on a readable database that still has frames of its own.
   */
  lemma CrashSafeIff(f: Front, new_: Main, w: World)
    requires new_.tables.Some? && ViewOf(f) != Torn
    ensures AllOldOrNew(SwapFronts(f, new_, w), f, new_.tables.value) <==> !LosesFrames(f, new_.tables.value, w)
  {
    hide AllOldOrNew, OldOrNew, UnlinkAndSwap, ViewOf, HasFrames;
    var t := new_.tables.value;
    if f.served.None? {
      UnlinkSwapViews(f, f, new_);
      UnlinkedView(f, f, t);
    } else {
      var gate, last := GateFronts(f, w, 0), GateLast(f, w);
      GateKeepsView(f, w, 0);
      GateAllGood(gate, f, t);
      match GateEnd(f, w, 0) {
        case StillBusy =>
        case Gated =>
          SwappedViews(last, f, new_);
          AllConcat(gate, [Replaced(last, new_), Unlinked(Replaced(last, new_))], f, t);
        case Broken =>
          UnlinkSwapViews(last, f, new_);
          UnlinkedView(last, f, t);
          AllConcat(gate, UnlinkAndSwap(last, new_), f, t);
      }
    }
  }

  /** Such a run: the gate raises on a readable database, and its committed frames are gone before the rename. */
  lemma FramesCanBeLost(main: Tables, committed: Tables, new_: Tables, w: World)
    requires main != committed && main != new_ && w.attempts(0) == Raises
    ensures var f := Front(Some(Main(1, Some(main))), Some(Wal(1, 1, committed)));
            && ViewOf(f) == Catalog(committed)
            && Unlinked(f) in SwapFronts(f, Main(2, Some(new_)), w) && ViewOf(Unlinked(f)) == Catalog(main)
  {
    var f := Front(Some(Main(1, Some(main))), Some(Wal(1, 1, committed)));
    assert GateFronts(f, w, 0) == [f];
    assert SwapFronts(f, Main(2, Some(new_)), w)[1] == Unlinked(f);
  }

  lemma GateAllGood(gate: seq<Front>, start: Front, new_: Tables)
    requires forall i | 0 <= i < |gate| :: ViewOf(gate[i]) == ViewOf(start)
    ensures AllOldOrNew(gate, start, new_)
  {
  }

  lemma SwappedViews(f: Front, start: Front, new_: Main)
    requires new_.tables.Some? && !HasFrames(f)
    ensures AllOldOrNew([Replaced(f, new_), Unlinked(Replaced(f, new_))], start, new_.tables.value)
  {
  }

  /** A main file never stands beside frames of another generation, whatever goes wrong. */
  lemma NeverTorn(f: Front, new_: Main, w: World)
    requires new_.tables.Some? && ViewOf(f) != Torn
    ensures forall g | g in SwapFronts(f, new_, w) :: ViewOf(g) != Torn
  {
    hide HasFrames;
    if f.served.Some? {
      GateKeepsView(f, w, 0);
      var gate, last := GateFronts(f, w, 0), GateLast(f, w);
      forall g | g in SwapFronts(f, new_, w)
        ensures ViewOf(g) != Torn
      {
        if g in gate {
          var i :| 0 <= i < |gate| && gate[i] == g;
        } else {
          AfterGateNotTorn(last, new_, GateEnd(f, w, 0));
        }
      }
    } else {
      AfterGateNotTorn(f, new_, Broken);
    }
  }

  lemma AfterGateNotTorn(last: Front, new_: Main, end: Gate)
    requires end.Gated? ==> !HasFrames(last)
    ensures forall g | g in UnlinkAndSwap(last, new_) :: ViewOf(g) != Torn
    ensures end.Gated? ==> ViewOf(Replaced(last, new_)) != Torn && ViewOf(Unlinked(Replaced(last, new_))) != Torn
  {
  }

  // ---- The whole publish ----

  datatype Outcome = Published | BuildFailed | Unstamped | TempNotClean | ServedBusy

  class Publisher {
    var front: Front
    /** The served path after each step that touched it. */
    ghost var crashPoints: seq<Front>
    var made: nat

    constructor (f: Front, generation: nat)
      ensures front == f && crashPoints == [] && made == generation
    {
      front, crashPoints, made := f, [], generation;
    }

    /** Every crash point from the n-th on shows readers what `f` shows them. */
    ghost predicate SameViewSince(n: nat, f: Front)
      reads this`crashPoints
    {
      n <= |crashPoints| && forall i | n <= i < |crashPoints| :: ViewOf(crashPoints[i]) == ViewOf(f)
    }

    method Touch(f: Front)
      modifies this`front, this`crashPoints
      ensures front == f && crashPoints == old(crashPoints) + [f]
    {
      front := f;
      crashPoints := crashPoints + [f];
    }

    /** `_gate_old_served_db`: retry until clean, broken, or out of time. */
    method GateServed(w: World) returns (end: Gate)
      requires front.served.Some?
      modifies this`front, this`crashPoints
      ensures end == GateEnd(old(front), w, 0) && crashPoints == old(crashPoints) + GateFronts(old(front), w, 0)
      ensures front == GateLast(old(front), w)
    {
      hide ViewOf, HasFrames, AfterAttempt, GateFronts, GateEnd, Effective;
      var k := 0;
      ghost var start, before := front, crashPoints;
      ghost var seen: seq<Front> := [];
      while true
        invariant 0 <= k <= w.lastAttempt && front.served.Some?
        invariant crashPoints == before + seen
        invariant seen + GateFronts(front, w, k) == GateFronts(start, w, 0)
        invariant GateEnd(front, w, k) == GateEnd(start, w, 0)
        decreases w.lastAttempt - k
      {
        GateStep(front, w, k);
        var a := Effective(front, w.attempts(k));
        var next := AfterAttempt(front, w.attempts(k));
        Touch(next);
        assert before + seen + [next] == before + (seen + [next]);
        if a.Clean? || a.Raises? || k == w.lastAttempt {
          assert (seen + [next])[|seen + [next]| - 1] == next;
          return if a.Clean? then Gated else if a.Raises? then Broken else StillBusy;
        }
        assert seen + ([next] + GateFronts(next, w, k + 1)) == seen + [next] + GateFronts(next, w, k + 1);
        seen := seen + [next];
        k := k + 1;
      }
    }

    /** The catalog the served path holds, if it can be opened and read. */
    function OldTables(readable: bool): Option<Tables>
      reads this`front
    {
      if readable && ViewOf(front).Catalog? then Some(ViewOf(front).tables) else None
    }

    /**
     `build_and_publish`. Every abort leaves what readers see as it was. A publish leaves the new catalog, with
     a build id strictly above the old one's if that could be read, and with exactly the overrides of the old
     catalog whose files still exist.
     */
    method BuildAndPublish(empty: Tables, w: World) returns (out: Outcome, result: Option<Tables>)
      requires empty.overrides == map[] && empty.build.None?
      requires var seed := Seed(empty, FloorOf(OldTables(w.floorReadable)));
               GoodBuild(seed, w.build(seed))
      requires ViewOf(front) != Torn && (ViewOf(front).Catalog? ==> WellFormed(ViewOf(front).tables))
      modifies this
      ensures var built := w.build(Seed(empty, FloorOf(old(OldTables(w.floorReadable)))));
              var ready := built.Some? && Stamped(built.value);
              && (out == BuildFailed <==> built.None?)
              && (out == Unstamped <==> built.Some? && !ready)
              && (out == TempNotClean <==> ready && !w.tempClean)
              && (out == ServedBusy <==> ready && w.tempClean && StaysBusy(old(front), w))
              && (out == Published <==> ready && w.tempClean && !StaysBusy(old(front), w))
      ensures made == old(made) + if out == Published then 1 else 0
      ensures out == Published ==> result.Some? && ViewOf(front) == Catalog(result.value)
      ensures out != Published ==> result.None? && ViewOf(front) == old(ViewOf(front))
      ensures out.BuildFailed? || out.Unstamped? || out.TempNotClean? ==> crashPoints == old(crashPoints)
      ensures out == ServedBusy ==> SameViewSince(|old(crashPoints)|, old(front))
      ensures out == Published ==>
                crashPoints == old(crashPoints) + SwapFronts(old(front), Main(old(made) + 1, result), w)
      ensures out == Published ==>
                var built := w.build(Seed(empty, FloorOf(old(OldTables(w.floorReadable)))));
                && built.Some? && WellFormed(result.value)
                && result.value == built.value.(overrides := result.value.overrides)
      ensures out == Published && FloorOf(old(OldTables(w.floorReadable))).Some? ==>
                result.value.build.Some? &&
                result.value.build.value.id > FloorOf(old(OldTables(w.floorReadable))).value
      ensures out == Published && old(OldTables(w.overridesReadable)).None? ==> result.value.overrides == map[]
      ensures out == Published && old(OldTables(w.overridesReadable)).Some? ==>
                forall d, key :: OverrideAt(result.value, d, key) ==
                  if LookupFile(result.value, d).Some?
                  then OverrideAt(old(OldTables(w.overridesReadable)).value, d, key) else None
    {
      hide WellFormed, CarriedExactly, LookupFile, OverrideAt, GateFronts, GateEnd, HasFrames;
      var prior := OldTables(w.floorReadable);
      var built := w.build(Seed(empty, FloorOf(prior)));
      if built.None? {
        return BuildFailed, None;
      }
      var t := built.value;
      if !Stamped(t) {
        return Unstamped, None;
      }
      assert t.overrides == map[];
      var overridesFrom := OldTables(w.overridesReadable);
      ghost var bare := t;
      if overridesFrom.Some? {
        var carried, dropped;
        t, carried, dropped := CarryForward(t, overridesFrom.value);
        CarriedKeepsBuild(bare, t, overridesFrom.value);
      }
      if !w.tempClean {
        return TempNotClean, None;
      }
      var main := Main(made + 1, Some(t));
      var done := Swap(main, w);
      if !done {
        return ServedBusy, None;
      }
      out, result := Published, Some(t);
    }

    /** Gate or clear the sidecars, rename, clear again; false when the gate stays busy. */
    method Swap(main: Main, w: World) returns (done: bool)
      requires main.tables.Some? && ViewOf(front) != Torn
      modifies this
      ensures done <==> !StaysBusy(old(front), w)
      ensures made == old(made) + if done then 1 else 0
      ensures crashPoints == old(crashPoints) + SwapFronts(old(front), main, w)
      ensures done ==> ViewOf(front) == Catalog(main.tables.value)
      ensures !done ==> ViewOf(front) == old(ViewOf(front))
      ensures !done ==> SameViewSince(|old(crashPoints)|, old(front))
    {
      hide GateEnd, GateFronts, ViewOf, HasFrames;
      ghost var start, before := front, crashPoints;
      if front.served.Some? {
        GateKeepsView(front, w, 0);
        GateEndsAs(front, w, 0);
        var end := GateServed(w);
        if end == StillBusy {
          forall i | |before| <= i < |crashPoints|
            ensures ViewOf(crashPoints[i]) == ViewOf(start)
          {
            assert crashPoints[i] == GateFronts(start, w, 0)[i - |before|];
          }
          return false;
        }
        if end == Broken {
          Touch(Unlinked(front));
        }
      } else {
        Touch(Unlinked(front));
      }
      SwapView(front, main);
      Touch(Replaced(front, main));
      Touch(Unlinked(front));
      made := made + 1;
      done := true;
    }
  }

  lemma CarriedKeepsBuild(built: Tables, t: Tables, prior: Tables)
    requires CarriedExactly(built, t, prior, prior.overrides.Keys)
    ensures t == built.(overrides := t.overrides)
    ensures forall d, key :: OverrideAt(t, d, key) == if LookupFile(t, d).Some? then OverrideAt(prior, d, key) else None
  {
    hide LookupFile, OverrideAt;
    CarriedBuild(built, t, prior);
    forall d, key
      ensures OverrideAt(t, d, key) == if LookupFile(t, d).Some? then OverrideAt(prior, d, key) else None
    {
      OverridesSurviveIff(built, t, prior, d, key);
    }
  }

  lemma CarriedBuild(built: Tables, t: Tables, prior: Tables)
    requires CarriedExactly(built, t, prior, prior.overrides.Keys)
    ensures t == built.(overrides := t.overrides)
  {
  }

  lemma SwapView(f: Front, main: Main)
    requires main.tables.Some?
    ensures ViewOf(Unlinked(Replaced(f, main))) == Catalog(main.tables.value)
  {
  }
}
