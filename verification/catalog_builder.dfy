/**
 The catalog's single writer: one connection with an open transaction, and in-memory id caches that
 resolvers consult before the tables. Every operation ends with the transaction committed or rolled
 back, the caches equal to the committed dictionaries, and the committed tables equal to the
 operation's specification.
 */
module CatalogBuilder {
  import opened Basics
  import opened HiveKey
  import opened CatalogTables
  import opened CatalogWriter
  import E = CatalogEvents
  import V = Varint

  datatype Caches = Caches(
    customer: map<string, Id>, site: map<(Id, string), Id>, robot: map<(Id, string), Id>, source: map<string, Id>,
    topic: map<string, Id>, schema: map<(string, string), Id>, topicSet: map<seq<(Id, Id)>, Id>)

  function IndexesOf(d: Dictionaries): Caches
  {
    Caches(d.customers.index, d.sites.index, d.robots.index, d.sources.index,
           d.topics.index, d.schemas.index, d.topicSets.index)
  }

  /** A resolver: cache, then `INSERT OR IGNORE`, then `SELECT id`, then fill the cache. */
  method ResolveCached<K(==)>(table: Table<K>, cache: map<K, Id>, k: K)
    returns (table': Table<K>, cache': map<K, Id>, id: Id)
    requires cache == table.index
    ensures table' == Intern(table, k) && cache' == table'.index
    ensures id == table'.index[k]
  {
    if k in cache {
      return table, cache, cache[k];
    }
    table' := Intern(table, k);
    id := table'.index[k];
    cache' := cache[k := id];
  }

  /** `load_caches` for one table: reading every row back gives the UNIQUE index. */
  method LoadCache<K(==)>(table: Table<K>) returns (cache: map<K, Id>)
    requires Sound(table)
    ensures cache == table.index
  {
    cache := map[];
    var ids := table.rows.Keys;
    while ids != {}
      invariant ids <= table.rows.Keys
      invariant forall k | k in cache :: k in table.index && table.index[k] == cache[k]
      invariant forall i | i in table.rows && i !in ids :: table.rows[i] in cache
      decreases |ids|
    {
      var i :| i in ids;
      cache := cache[table.rows[i] := i];
      ids := ids - {i};
    }
    forall k | k in table.index
      ensures k in cache
    {
      assert table.rows[table.index[k]] == k;
    }
  }

  method LoadCaches(d: Dictionaries) returns (caches: Caches)
    requires AllSound(d)
    ensures caches == IndexesOf(d)
  {
    var customer := LoadCache(d.customers);
    var site := LoadCache(d.sites);
    var robot := LoadCache(d.robots);
    var source := LoadCache(d.sources);
    var topic := LoadCache(d.topics);
    var schema := LoadCache(d.schemas);
    var topicSet := LoadCache(d.topicSets);
    caches := Caches(customer, site, robot, source, topic, schema, topicSet);
  }

  /** The four dimension resolvers in turn, each under the parent id the one before returned. */
  method ResolveAll(dict: Dictionaries, caches: Caches, d: Dims)
    returns (dict': Dictionaries, caches': Caches, c: Composite)
    requires caches == IndexesOf(dict)
    ensures dict' == ResolveDims(dict, d) && caches' == IndexesOf(dict')
    ensures CompositeOf(dict', d) == Some(c)
  {
    var customers, customer, cid := ResolveCached(dict.customers, caches.customer, d.customer);
    var sites, site, sid := ResolveCached(dict.sites, caches.site, (cid, d.site));
    var robots, robot, rid := ResolveCached(dict.robots, caches.robot, (sid, d.robot));
    var sources, source, xid := ResolveCached(dict.sources, caches.source, d.source);
    dict' := dict.(customers := customers, sites := sites, robots := robots, sources := sources);
    caches' := caches.(customer := customer, site := site, robot := robot, source := source);
    c := Composite(cid, sid, rid, xid, d.date, d.filename);
  }

  datatype Status = Cataloged | Skipped | Failed

  class Builder {
    var committed: Tables
    var work: Tables
    var caches: Caches

    /** Between operations: nothing pending, and the caches are the committed dictionaries. */
    ghost predicate Valid()
      reads this
    {
      work == committed && caches == IndexesOf(committed.dict) && WellFormed(committed)
    }

    constructor (db: Tables)
      requires WellFormed(db)
      ensures Valid() && committed == db
    {
      committed := db;
      work := db;
      new;
      caches := LoadCaches(db.dict);
    }

    method Commit()
      modifies this`committed
      ensures committed == work
    {
      committed := work;
    }

    /** Roll back and reload the caches, so an id of the lost transaction cannot survive in them. */
    method Rollback()
      requires AllSound(committed.dict)
      modifies this`work, this`caches
      ensures work == committed && caches == IndexesOf(committed.dict)
    {
      work := committed;
      caches := LoadCaches(committed.dict);
    }

    /** `_resolve_ids`: interned ids are committed whatever the extraction then gives. */
    method ResolveIds(d: Dims) returns (c: Composite)
      requires Valid()
      modifies this
      ensures Valid()
      ensures committed == old(committed).(dict := ResolveDims(old(committed).dict, d))
      ensures CompositeOf(committed.dict, d) == Some(c)
    {
      hide WellFormed, ResolveDims, CompositeOf, IndexesOf;
      ResolvedTablesAreWellFormed(committed, d);
      var dict, filled, id := ResolveAll(work.dict, caches, d);
      work := work.(dict := dict);
      caches := filled;
      c := id;
      Commit();
    }

    /** `_quarantine_existing`. */
    method QuarantineExisting(c: Composite, key: string, why: Failure)
      requires Valid()
      modifies this
      ensures Valid() && committed == Quarantine(old(committed), c, key, why)
    {
      work := DeleteFile(work, c);
      work := work.(failures := work.failures[key := why]);
      DeleteWellFormed(committed, c);
      FailuresAreSeparate(DeleteFile(committed, c), work.failures);
      Commit();
    }

    /** `record_failure` and its commit. */
    method RecordFailure(key: string, why: Failure)
      requires Valid()
      modifies this
      ensures Valid() && committed == old(committed).(failures := old(committed).failures[key := why])
    {
      hide FileAt;
      work := work.(failures := work.failures[key := why]);
      FailuresAreSeparate(committed, work.failures);
      Commit();
    }

    /** The loop over `summary.channels`: ids and totals, against the open transaction. */
    method TallyChannels(channels: seq<Channel>) returns (entries: seq<Entry>)
      requires Valid()
      modifies this`work, this`caches
      ensures Tallied(work.dict, entries) == Tally(committed.dict, channels)
      ensures caches == IndexesOf(work.dict)
      ensures work == committed.(dict := work.dict)
    {
      hide Tally, AddEntry, WellFormed, Intern;
      TallyStart(committed.dict, channels);
      entries := [];
      var i := 0;
      while i < |channels|
        invariant 0 <= i <= |channels|
        invariant Tallied(work.dict, entries) == Tally(committed.dict, channels[..i])
        invariant caches == IndexesOf(work.dict)
        invariant work == committed.(dict := work.dict)
      {
        var ch := channels[i];
        TallyStep(committed.dict, channels, i);
        var topics, topicCache, topicId := ResolveCached(work.dict.topics, caches.topic, ch.topic);
        var schemas, schemaCache, schemaId :=
          ResolveCached(work.dict.schemas, caches.schema, (ch.schemaName, ch.schemaEncoding));
        work := work.(dict := work.dict.(topics := topics, schemas := schemas));
        caches := caches.(topic := topicCache, schema := schemaCache);
        entries := AddEntry(entries, topicId, schemaId, ch.count);
        i := i + 1;
      }
    }

    /**
     `_write_file_row`. `fault` stands for any other exception raised inside the transaction. On an
     exception everything is rolled back, the caches are reloaded, and the key is quarantined.
     */
    method WriteRow(c: Composite, key: string, stat: Stat, s: Summary, fault: Option<string>) returns (status: Status)
      requires Valid() && RefsResolve(committed.dict, c)
      modifies this
      ensures Valid()
      ensures fault.None? ==> committed == WriteFileRow(old(committed), c, key, stat, s)
      ensures fault.Some? ==> committed == Quarantine(old(committed), c, key, Faulted(fault.value))
      ensures status == if fault.None? && Accepts(s) then Cataloged else Failed
    {
      hide AllGrow, FileAt, RefsResolve, CompositeOf, Tally, SortEntries, SumEntries, SumChannels, FilesResolve,
           IdsDistinct, OverridesAttached, Sound;
      ghost var t := committed;
      var entries := TallyChannels(s.channels);
      TallySum(t.dict, s.channels);
      SortKeeps(entries);
      var sorted := SortEntries(entries);
      var members := MembersOf(sorted);
      var sets, setCache, setId := ResolveCached(work.dict.topicSets, caches.topicSet, members);
      work := work.(dict := work.dict.(topicSets := sets));
      caches := caches.(topicSet := setCache);
      var total := SumEntries(sorted);
      if fault.Some? || total != s.messageCount || s.start > MAX_INT64 || s.end > MAX_INT64 {
        var why := if fault.Some? then Faulted(fault.value) else
                   if total != s.messageCount then CountMismatch(total, s.messageCount) else TooLarge;
        Rollback();
        QuarantineExisting(c, key, why);
        return Failed;
      }
      var row := FileRow(0, stat.etag, stat.size, stat.mtime, s.start, s.end, s.chunkCount, setId,
                         V.EncodeCounts(CountsOf(sorted)), s.messageCount == 0);
      assert row == RowFor(t.dict, stat, s) && work.dict == DictWithTopics(t.dict, s);
      work := Upsert(work, c, row);
      work := work.(failures := work.failures - {key});
      WrittenTablesAreWellFormed(t, c, key, stat, s);
      Commit();
      return Cataloged;
    }

    /** `catalog_object`, given the HEAD result and what reading the summary would give. */
    method CatalogOne(key: string, live: Option<E.Object>) returns (status: Status)
      requires Valid()
      modifies this
      ensures Valid() && committed == E.CatalogObject(old(committed), key, live)
      ensures status == if E.Skips(old(committed), key, live) then Skipped
                        else if E.Writes(key, live) then Cataloged else Failed
    {
      hide AllGrow, FileAt, FilesResolve, IdsDistinct, OverridesAttached, Sound, CompositeOf, Resolve, ResolveDims,
           Accepts;
      ghost var t := committed;
      if live.None? {
        return Failed;
      }
      var o := live.value;
      var dims := Resolve(key);
      if dims.None? {
        RecordFailure(key, UnparseableKey);
        return Failed;
      }
      var c := ResolveIds(dims.value);
      SkipTest(t, dims.value, c);
      if c in committed.files && committed.files[c].etag == o.stat.etag {
        return Skipped;
      }
      CompositeDims(committed.dict, dims.value);
      match o.reading {
        case Broken(text) =>
          QuarantineExisting(c, key, Unreadable(text));
          return Failed;
        case Readable(s) =>
          status := WriteRow(c, key, o.stat, s, None);
        case Raising(s, text) =>
          status := WriteRow(c, key, o.stat, s, Some(text));
      }
    }

    /** `apply_extract`. */
    method ApplyOne(key: string, stat: Stat, ex: Extract) returns (status: Status)
      requires Valid()
      modifies this
      ensures Valid() && committed == ApplyExtract(old(committed), key, stat, ex)
      ensures status == Cataloged <==>
                Resolve(key).Some? && ex.Extracted? && ex.reading.Readable? && Accepts(ex.reading.summary)
      ensures status != Skipped
    {
      hide AllGrow, FileAt, FilesResolve, IdsDistinct, OverridesAttached, Sound, CompositeOf, Resolve, ResolveDims,
           Accepts;
      if ex.Vanished? {
        return Failed;
      }
      var dims := Resolve(key);
      if dims.None? {
        RecordFailure(key, UnparseableKey);
        return Failed;
      }
      var c := ResolveIds(dims.value);
      CompositeDims(committed.dict, dims.value);
      match ex.reading {
        case Broken(text) =>
          QuarantineExisting(c, key, Unreadable(text));
          return Failed;
        case Readable(s) =>
          status := WriteRow(c, key, stat, s, None);
        case Raising(s, text) =>
          status := WriteRow(c, key, stat, s, Some(text));
      }
    }

    /** `delete_by_key`: ids come from the caches only. */
    method DeleteOne(key: string) returns (deleted: bool)
      requires Valid()
      modifies this
      ensures Valid() && committed == E.DeleteByKey(old(committed), key)
      ensures deleted <==> exists d, c ::
                Parse(key) == Some(d) && CompositeOf(old(committed).dict, d) == Some(c) && c in old(committed).files
    {
      var dims := Parse(key);
      if dims.None? {
        return false;
      }
      var d := dims.value;
      var c := CachedComposite(d);
      if c.None? {
        return false;
      }
      deleted := c.value in work.files;
      work := DeleteFile(work, c.value);
      work := work.(failures := work.failures - {key});
      DeleteWellFormed(committed, c.value);
      FailuresAreSeparate(DeleteFile(committed, c.value), work.failures);
      Commit();
    }

    /** `_composite_ids`, from the caches. */
    function CachedComposite(d: Dims): (c: Option<Composite>)
      requires Valid()
      reads this
      ensures c == CompositeOf(committed.dict, d)
    {
      if d.customer !in caches.customer then None
      else
        var cid := caches.customer[d.customer];
        if (cid, d.site) !in caches.site then None
        else
          var sid := caches.site[(cid, d.site)];
          if (sid, d.robot) !in caches.robot || d.source !in caches.source then None
          else Some(Composite(cid, sid, caches.robot[(sid, d.robot)], caches.source[d.source], d.date, d.filename))
    }

    /** The worker's record arm. */
    method Handle(kind: E.Kind, key: string, live: Option<E.Object>)
      requires Valid()
      modifies this
      ensures Valid() && committed == E.HandleRecord(old(committed), kind, key, live)
    {
      if kind == E.Catalog || live.Some? {
        var _ := CatalogOne(key, live);
      } else {
        var _ := DeleteOne(key);
      }
    }
  }

  lemma TallyStart(dict: Dictionaries, channels: seq<Channel>)
    ensures Tally(dict, channels[..0]) == Tallied(dict, []) && channels[..|channels|] == channels
  {
  }

  lemma TallyStep(dict: Dictionaries, channels: seq<Channel>, i: nat)
    requires i < |channels|
    ensures Tally(dict, channels[..i + 1]) == TallyOne(Tally(dict, channels[..i]), channels[i])
  {
    hide TallyOne;
    assert channels[..i + 1][..i] == channels[..i];
  }

  lemma ResolvedTablesAreWellFormed(t: Tables, d: Dims)
    requires WellFormed(t)
    ensures WellFormed(t.(dict := ResolveDims(t.dict, d)))
  {
    ResolveDimsSound(t.dict, d);
    GrowthKeepsMeaning(t, ResolveDims(t.dict, d));
  }

  /** The row looked up by resolved ids is the file's row, new ids or not. */
  lemma SkipTest(t: Tables, d: Dims, c: Composite)
    requires WellFormed(t) && CompositeOf(ResolveDims(t.dict, d), d) == Some(c)
    ensures FileAt(t, d).Some? <==> c in t.files
    ensures c in t.files ==> FileAt(t, d).value.etag == t.files[c].etag
  {
    hide AllSound, AllGrow, ResolveDims, FilesResolve, IdsDistinct, OverridesAttached, CompositeOf, CountsResolve;
    var u := t.(dict := ResolveDims(t.dict, d));
    ResolveDimsSound(t.dict, d);
    GrowthKeepsMeaning(t, u.dict);
    assert FileAt(u, d) == FileAt(t, d);
  }

  lemma WrittenTablesAreWellFormed(t: Tables, c: Composite, key: string, stat: Stat, s: Summary)
    requires WellFormed(t) && RefsResolve(t.dict, c) && Accepts(s)
    ensures WellFormed(WriteFileRow(t, c, key, stat, s))
  {
    hide AllSound, AllGrow, FileAt, DictWithTopics, RowFor, CountsResolve, DecodeRow;
    DimsComposite(t.dict, c);
    WriteMeaning(t, DimsOf(t.dict, c), key, stat, s);
  }
}
