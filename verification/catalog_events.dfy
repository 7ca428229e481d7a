/**
 The single-file operations behind the event tier: cataloging one object, deleting one key, and
 the worker's record handler with its HEAD guard. All theorems are about object-store keys.
 */
module CatalogEvents {
  import opened Basics
  import opened Text
  import opened HiveKey
  import opened CatalogTables
  import opened CatalogWriter

  /** A live object: the HEAD result and what reading its summary gives. */
  datatype Object = Object(stat: Stat, reading: Reading)

  datatype Kind = Catalog | Delete

  /** `catalog_object`: a vanished object changes nothing, an unchanged etag is skipped. */
  function CatalogObject(t: Tables, key: string, live: Option<Object>): Tables
  {
    match live
    case None => t
    case Some(o) =>
      match Resolve(key)
      case None => t.(failures := t.failures[key := UnparseableKey])
      case Some(d) => CatalogFile(t.(dict := ResolveDims(t.dict, d)), d, key, o)
  }

  function CatalogFile(t: Tables, d: Dims, key: string, o: Object): Tables
  {
    match CompositeOf(t.dict, d)
    case None => t
    case Some(c) =>
      if c in t.files && t.files[c].etag == o.stat.etag then t
      else Settle(t, c, key, o.stat, o.reading)
  }

  /** The fingerprint skip: the key's file is cataloged with the live etag. */
  ghost predicate Skips(t: Tables, key: string, live: Option<Object>)
    requires WellFormed(t)
  {
    && live.Some? && Resolve(key).Some?
    && var file := FileAt(t, Resolve(key).value);
       file.Some? && file.value.etag == live.value.stat.etag
  }

  /** A live object of a parseable key with a summary that is accepted and can be written. */
  predicate Writes(key: string, live: Option<Object>)
  {
    && live.Some? && Resolve(key).Some?
    && live.value.reading.Readable? && Accepts(live.value.reading.summary)
  }

  /** `delete_by_key`: the parse is NOT checked against the key; unknown dimensions end it early. */
  function DeleteByKey(t: Tables, key: string): Tables
  {
    match Parse(key)
    case None => t
    case Some(d) =>
      match CompositeOf(t.dict, d)
      case None => t
      case Some(c) => DeleteFile(t, c).(failures := t.failures - {key})
  }

  /** The worker's record arm: a delete is honoured only when the object is really gone. */
  function HandleRecord(t: Tables, kind: Kind, key: string, live: Option<Object>): Tables
  {
    match kind
    case Catalog => CatalogObject(t, key, live)
    case Delete => if live.Some? then CatalogObject(t, key, live) else DeleteByKey(t, key)
  }

  // ---- Etags determine content ----

  /** Every stored row is what the object with that key and etag reads as. */
  ghost predicate Faithful(t: Tables, contents: (string, string) -> Reading)
    requires WellFormed(t)
  {
    forall d | FileAt(t, d).Some? :: FaithfulFile(d, FileAt(t, d).value, contents)
  }

  ghost predicate FaithfulFile(d: Dims, m: FileMeaning, contents: (string, string) -> Reading)
  {
    var r := contents(Rebuild(d), m.etag);
    r.Readable? && Accepts(r.summary) && m.content == ContentOf(r.summary)
  }

  ghost predicate FaithfulObject(key: string, live: Option<Object>, contents: (string, string) -> Reading)
  {
    live.Some? ==> live.value.reading == contents(key, live.value.stat.etag)
  }

  /** A file's etag and content: all of it but the size and time stamp the listing carries. */
  datatype Essence = Essence(etag: string, content: Content)

  ghost function EssenceOf(m: Option<FileMeaning>): Option<Essence>
  {
    match m
    case None => None
    case Some(f) => Some(Essence(f.etag, f.content))
  }

  // ---- Cache misses ----

  /** Unknown dimensions prove that the file is neither cataloged nor failed. */
  lemma CacheMissMeansAbsent(t: Tables, key: string)
    requires Consistent(t) && Resolve(key).Some? && CompositeOf(t.dict, Resolve(key).value).None?
    ensures StateOf(t, key) == KeyState(None, None)
  {
  }

  // ---- Cataloging one object ----

  lemma CatalogFileMeaning(t: Tables, d: Dims, key: string, o: Object)
    requires WellFormed(t) && CompositeOf(t.dict, d).Some?
    ensures var u := CatalogFile(t, d, key, o);
            && WellFormed(u) && AllGrow(t.dict, u.dict) && OnlyAffects(t, u, d) && Preserves(t, u)
            && (forall k | k != key :: FailureAt(u, k) == FailureAt(t, k))
            && (if FileAt(t, d).Some? && FileAt(t, d).value.etag == o.stat.etag then u == t
                else FileAt(u, d) == ExpectedFile(o.stat, o.reading) && FailureAt(u, key) == ExpectedFailure(o.reading))
  {
    hide AllGrow, AllSound, ExpectedFile, Preserves;
    GrowsReflexive(t.dict);
    PreservesItself(t);
    SettleMeaning(t, d, key, o.stat, o.reading);
  }

  /**
   Cataloging a live object for a parseable key: the key's state becomes a function of the object
   (skipped or not), nothing else changes, and the invariants are kept.
   */
  lemma CatalogMeaning(t: Tables, key: string, o: Object, contents: (string, string) -> Reading)
    requires Consistent(t) && Faithful(t, contents) && FaithfulObject(key, Some(o), contents)
    requires Canonical(key) && Resolve(key).Some?
    ensures var u := CatalogObject(t, key, Some(o));
            && WellFormed(u) && OnlyAffects(t, u, Resolve(key).value) && Preserves(t, u)
            && AllGrow(t.dict, u.dict) && CompositeOf(u.dict, Resolve(key).value).Some?
            && (forall k | k != key :: FailureAt(u, k) == FailureAt(t, k))
            && EssenceOf(StateOf(u, key).file) == EssenceOf(ExpectedFile(o.stat, o.reading))
            && StateOf(u, key).failure == ExpectedFailure(o.reading)
  {
    hide AllGrow, AllSound, Preserves;
    var d := Resolve(key).value;
    ResolveDimsSound(t.dict, d);
    var dict := ResolveDims(t.dict, d);
    GrowthKeepsMeaning(t, dict);
    var t1 := t.(dict := dict);
    CatalogFileMeaning(t1, d, key, o);
    var u := CatalogObject(t, key, Some(o));
    AllGrowTransitive(t.dict, dict, u.dict);
    CompositeStays(dict, u.dict, d);
    GrownThenPreserves(t, dict, u);
    if FileAt(t1, d).Some? && FileAt(t1, d).value.etag == o.stat.etag {
      assert FaithfulFile(d, FileAt(t, d).value, contents);
      assert Rebuild(d) == key;
    }
  }

  lemma CatalogKeepsInvariants(t: Tables, key: string, o: Object, contents: (string, string) -> Reading)
    requires Consistent(t) && Faithful(t, contents) && FaithfulObject(key, Some(o), contents)
    requires Canonical(key) && Resolve(key).Some?
    ensures Consistent(CatalogObject(t, key, Some(o)))
    ensures Faithful(CatalogObject(t, key, Some(o)), contents)
  {
    hide AllGrow, AllSound, FileAt;
    var d := Resolve(key).value;
    var u := CatalogObject(t, key, Some(o));
    CatalogMeaning(t, key, o, contents);
    ResolveAcceptsIff(key);
    FailuresHaveDimsGrow(t, u, key);
    forall e | FileAt(u, e).Some?
      ensures Valid(e) && Rebuild(e) !in u.failures && FaithfulFile(e, FileAt(u, e).value, contents)
    {
      if e != d {
        assert FileAt(t, e).Some?;
        assert FaithfulFile(e, FileAt(t, e).value, contents);
        DistinctKeys(d, e);
        assert FailureAt(u, Rebuild(e)) == FailureAt(t, Rebuild(e));
      } else {
        assert StateOf(u, key).file.Some?;
        assert FailureAt(u, key).None?;
      }
    }
  }

  lemma DistinctKeys(d: Dims, e: Dims)
    requires Valid(d) && Valid(e) && d != e
    ensures Rebuild(d) != Rebuild(e)
  {
    ParseRebuild(d);
    ParseRebuild(e);
  }

  // ---- Deleting one key ----

  lemma DeleteByKeyMeaning(t: Tables, key: string)
    requires WellFormed(t) && Parse(key).Some?
    ensures var u := DeleteByKey(t, key);
            && WellFormed(u) && u.dict == t.dict
            && FileAt(u, Parse(key).value).None? && OnlyAffects(t, u, Parse(key).value) && Preserves(t, u)
            && (forall k | k != key :: FailureAt(u, k) == FailureAt(t, k))
            && u.failures.Keys <= t.failures.Keys
            && (CompositeOf(t.dict, Parse(key).value).Some? ==> FailureAt(u, key).None?)
  {
    hide WellFormed, Parse, Preserves;
    var d := Parse(key).value;
    PreservesItself(t);
    if CompositeOf(t.dict, d).Some? {
      var v := DeleteFile(t, CompositeOf(t.dict, d).value);
      DeleteMeaning(t, d);
      FailuresAreSeparate(v, t.failures - {key});
      FailuresPreserve(t, v, t.failures - {key});
    }
  }

  lemma DeleteKeepsInvariants(t: Tables, key: string, contents: (string, string) -> Reading)
    requires Consistent(t) && Faithful(t, contents) && Parse(key).Some?
    ensures Consistent(DeleteByKey(t, key)) && Faithful(DeleteByKey(t, key), contents)
  {
    hide WellFormed, FileAt, Parse, Resolve, DeleteByKey, FaithfulFile, Valid, Rebuild, CompositeOf;
    var u := DeleteByKey(t, key);
    DeleteByKeyMeaning(t, key);
    forall e | FileAt(u, e).Some?
      ensures Valid(e) && Rebuild(e) !in u.failures && FaithfulFile(e, FileAt(u, e).value, contents)
    {
      assert FileAt(t, e).Some?;
      assert FaithfulFile(e, FileAt(t, e).value, contents);
    }
    forall k | k in u.failures && Resolve(k).Some?
      ensures CompositeOf(u.dict, Resolve(k).value).Some?
    {
      assert k in t.failures;
    }
  }

  /** No canonical key but `key` loses or changes its file entry. */
  ghost predicate SparesOtherKeys(t: Tables, u: Tables, key: string)
    requires WellFormed(t) && WellFormed(u)
  {
    forall k | Canonical(k) && k != key :: StateOf(u, k).file == StateOf(t, k).file
  }

  lemma OwnRowOnly(t: Tables, u: Tables, key: string, d: Dims)
    requires WellFormed(t) && WellFormed(u) && OnlyAffects(t, u, d)
    requires Rebuild(d) == key || FileAt(u, d) == FileAt(t, d)
    ensures SparesOtherKeys(t, u, key)
  {
    hide WellFormed, FileAt, Rebuild, Parse;
  }

  lemma ForeignRow(t: Tables, u: Tables, key: string, d: Dims)
    requires WellFormed(t) && WellFormed(u) && Valid(d)
    requires Rebuild(d) != key && FileAt(u, d) != FileAt(t, d)
    ensures !SparesOtherKeys(t, u, key)
  {
    hide WellFormed, FileAt, Rebuild, Parse;
    ParseRebuild(d);
    assert Canonical(Rebuild(d)) && Resolve(Rebuild(d)) == Some(d);
    assert StateOf(u, Rebuild(d)).file != StateOf(t, Rebuild(d)).file;
  }

  /**
   `delete_by_key` skips the round-trip guard, so a key that does not rebuild to itself deletes
   some OTHER key's row. It removes nothing but the key's own row exactly when the key rebuilds to
   itself or the row it parses to does not exist.
   */
  lemma DeleteHitsOnlyItsOwnKeyIff(t: Tables, key: string)
    requires Consistent(t) && Parse(key).Some?
    ensures WellFormed(DeleteByKey(t, key))
    ensures SparesOtherKeys(t, DeleteByKey(t, key), key)
            <==> (Rebuild(Parse(key).value) == key || FileAt(t, Parse(key).value).None?)
  {
    hide WellFormed, FileAt, Rebuild, Parse, DeleteByKey, SparesOtherKeys;
    var d := Parse(key).value;
    var u := DeleteByKey(t, key);
    DeleteByKeyMeaning(t, key);
    RebuildParse(key);
    if Rebuild(d) == key || FileAt(t, d).None? {
      OwnRowOnly(t, u, key, d);
    } else {
      ForeignRow(t, u, key, d);
    }
  }

  /** Such keys for every cataloged file: any number of slashes in front, or a newline behind. */
  lemma DeleteCanHitAnotherKey(t: Tables, d: Dims, slashes: nat)
    requires Consistent(t) && FileAt(t, d).Some? && slashes > 0
    ensures DeletesFileOfAnotherKey(t, Slashed(slashes, Rebuild(d)), d)
    ensures DeletesFileOfAnotherKey(t, Rebuild(d) + "\n", d)
  {
    hide WellFormed, FileAt, Rebuild, Valid, Parse, DeletesFileOfAnotherKey;
    assert Valid(d);
    SlashedKeyParses(d, slashes);
    NewlineKeyParses(d);
    AnotherKeyDeletes(t, Slashed(slashes, Rebuild(d)), d);
    AnotherKeyDeletes(t, Rebuild(d) + "\n", d);
  }

  /** `key` is not the file's own, and deleting it removes the file. */
  ghost predicate DeletesFileOfAnotherKey(t: Tables, key: string, d: Dims)
    requires WellFormed(t)
  {
    && key != Rebuild(d) && FileAt(t, d).Some?
    && WellFormed(DeleteByKey(t, key)) && FileAt(DeleteByKey(t, key), d).None?
  }

  lemma AnotherKeyDeletes(t: Tables, key: string, d: Dims)
    requires WellFormed(t) && FileAt(t, d).Some? && Parse(key) == Some(d) && |key| != |Rebuild(d)|
    ensures DeletesFileOfAnotherKey(t, key, d)
  {
    hide WellFormed, FileAt, Rebuild, Parse, DeleteByKey;
    DeleteByKeyMeaning(t, key);
  }

  // ---- Event handling ----

  /**
   A delete event for a parseable key leaves the key's state a function of the live object only:
   recataloged from the live object, or absent if it is gone. No other key changes.
   */
  lemma DeleteEventFollowsLiveObject(t: Tables, key: string, live: Option<Object>,
                                     contents: (string, string) -> Reading)
    requires Consistent(t) && Faithful(t, contents) && FaithfulObject(key, live, contents)
    requires Canonical(key) && Resolve(key).Some?
    ensures var u := HandleRecord(t, Delete, key, live);
            && Consistent(u) && Faithful(u, contents) && OnlyAffects(t, u, Resolve(key).value) && Preserves(t, u)
            && (live.None? ==> StateOf(u, key) == KeyState(None, None))
            && (live.Some? ==>
                  && EssenceOf(StateOf(u, key).file) == EssenceOf(ExpectedFile(live.value.stat, live.value.reading))
                  && StateOf(u, key).failure == ExpectedFailure(live.value.reading))
            && forall k | k != key :: FailureAt(u, k) == FailureAt(t, k)
  {
    hide AllGrow, AllSound, FileAt, Preserves;
    if live.Some? {
      CatalogMeaning(t, key, live.value, contents);
      CatalogKeepsInvariants(t, key, live.value, contents);
    } else {
      DeleteByKeyMeaning(t, key);
      DeleteKeepsInvariants(t, key, contents);
      if CompositeOf(t.dict, Resolve(key).value).None? {
        CacheMissMeansAbsent(t, key);
      }
    }
  }

  /** A create event does the same whenever the object is live, and nothing when it is gone. */
  lemma CreateEventFollowsLiveObject(t: Tables, key: string, live: Option<Object>,
                                     contents: (string, string) -> Reading)
    requires Consistent(t) && Faithful(t, contents) && FaithfulObject(key, live, contents)
    requires Canonical(key) && Resolve(key).Some?
    ensures HandleRecord(t, Catalog, key, live) == if live.None? then t else HandleRecord(t, Delete, key, live)
    ensures Consistent(HandleRecord(t, Catalog, key, live))
    ensures Faithful(HandleRecord(t, Catalog, key, live), contents)
  {
    if live.Some? {
      CatalogKeepsInvariants(t, key, live.value, contents);
    }
  }

  /**
   An event for a key that does not resolve: a live object is recorded as unparseable, and a gone one deletes at most
   the row its key parses to; no file is added, and no other key's failure changes.
   */
  lemma UnparseableEvent(t: Tables, kind: Kind, key: string, live: Option<Object>)
    requires WellFormed(t) && Resolve(key).None?
    ensures var u := HandleRecord(t, kind, key, live);
            && WellFormed(u) && Preserves(t, u)
            && (forall k | k != key :: FailureAt(u, k) == FailureAt(t, k))
            && (live.Some? ==>
                  FailureAt(u, key) == Some(UnparseableKey) && forall d :: FileAt(u, d) == FileAt(t, d))
            && (live.None? && (kind == Catalog || Parse(key).None?) ==> u == t)
            && (live.None? && kind == Delete && Parse(key).Some? ==>
                  FileAt(u, Parse(key).value).None? && OnlyAffects(t, u, Parse(key).value))
  {
    hide WellFormed, Parse, Resolve, Preserves, FileAt;
    PreservesItself(t);
    if live.Some? {
      FailuresAreSeparate(t, t.failures[key := UnparseableKey]);
      FailuresPreserve(t, t, t.failures[key := UnparseableKey]);
    } else if kind == Delete && Parse(key).Some? {
      DeleteByKeyMeaning(t, key);
    }
  }

  /**
   At-least-once delivery is absorbed: once a record has been handled, handling any record for the
   same key again, create or delete, stale or duplicate, changes what no key's entry says.
   */
  lemma ReplayChangesNothing(t: Tables, first: Kind, again: Kind, key: string, live: Option<Object>,
                             contents: (string, string) -> Reading)
    requires Consistent(t) && Faithful(t, contents) && FaithfulObject(key, live, contents)
    requires Canonical(key) && Resolve(key).Some?
    requires first == Delete || live.Some? || again == first
    ensures var u := HandleRecord(t, first, key, live);
            var v := HandleRecord(u, again, key, live);
            && Consistent(u) && Consistent(v) && Preserves(u, v)
            && (forall k :: FailureAt(v, k) == FailureAt(u, k))
            && forall e :: EssenceOf(FileAt(v, e)) == EssenceOf(FileAt(u, e))
  {
    hide AllGrow, AllSound, FileAt, Preserves;
    var u := HandleRecord(t, first, key, live);
    PreservesItself(u);
    CreateEventFollowsLiveObject(t, key, live, contents);
    DeleteEventFollowsLiveObject(t, key, live, contents);
    CreateEventFollowsLiveObject(u, key, live, contents);
    DeleteEventFollowsLiveObject(u, key, live, contents);
    var v := HandleRecord(u, again, key, live);
    var d := Resolve(key).value;
    forall e
      ensures EssenceOf(FileAt(v, e)) == EssenceOf(FileAt(u, e))
    {
      if e == d {
        assert StateOf(v, key).file == FileAt(v, d) && StateOf(u, key).file == FileAt(u, d);
      }
    }
    forall k
      ensures FailureAt(v, k) == FailureAt(u, k)
    {
      if k == key {
        assert StateOf(v, key).failure == FailureAt(v, k) && StateOf(u, key).failure == FailureAt(u, k);
      }
    }
  }
}
