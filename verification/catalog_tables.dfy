/**
 The catalog database as values: dictionary tables with their UNIQUE index, the `files` table keyed
 by its UNIQUE composite, the failure table and the user tag overrides; and what such a database
 MEANS once every id is decoded through its dictionary.

 A topic set is stored under the fingerprint of its sorted members. SHA-256 is taken as
 collision-free, so the member list itself is the fingerprint.
 */
module CatalogTables {
  import opened Basics
  import opened HiveKey
  import V = Varint

  type Id = nat

  // ---- Dictionary tables ----

  /** A dictionary table: rows by primary key, the UNIQUE index, and the next free rowid. */
  datatype Table<K> = Table(rows: map<Id, K>, index: map<K, Id>, next: Id)

  ghost predicate Sound<K>(t: Table<K>)
  {
    && (forall i | i in t.rows :: i < t.next && t.rows[i] in t.index && t.index[t.rows[i]] == i)
    && (forall k | k in t.index :: t.index[k] in t.rows && t.rows[t.index[k]] == k)
  }

  /** `INSERT OR IGNORE`. */
  function Intern<K(==)>(t: Table<K>, k: K): (u: Table<K>)
    ensures k in u.index
  {
    if k in t.index then t
    else Table(t.rows[t.next := k], t.index[k := t.next], t.next + 1)
  }

  /** Dictionaries are append-only: every id keeps its meaning. */
  ghost predicate Grows<K>(t: Table<K>, u: Table<K>)
  {
    && t.next <= u.next
    && (forall i | i in t.rows :: i in u.rows && u.rows[i] == t.rows[i])
    && (forall k | k in t.index :: k in u.index && u.index[k] == t.index[k])
    && (forall k | k in u.index && k !in t.index :: u.index[k] >= t.next)
  }

  lemma InternSound<K>(t: Table<K>, k: K)
    requires Sound(t)
    ensures Sound(Intern(t, k)) && Grows(t, Intern(t, k))
  {
  }

  lemma GrowsTransitive<K>(t: Table<K>, u: Table<K>, v: Table<K>)
    requires Grows(t, u) && Grows(u, v)
    ensures Grows(t, v)
  {
    forall k | k in v.index && k !in t.index
      ensures v.index[k] >= t.next
    {
      if k in u.index {
        assert v.index[k] == u.index[k];
      }
    }
  }

  // ---- The database ----

  datatype Composite = Composite(customer: Id, site: Id, robot: Id, source: Id, date: string, filename: string)

  datatype FileRow = FileRow(id: Id, etag: string, size: nat, mtime: int, start: nat, end: nat, chunks: nat,
                             topicSet: Id, counts: seq<byte>, hasError: bool)

  datatype Dictionaries = Dictionaries(
    customers: Table<string>,
    sites: Table<(Id, string)>,
    robots: Table<(Id, string)>,
    sources: Table<string>,
    topics: Table<string>,
    schemas: Table<(string, string)>,
    topicSets: Table<seq<(Id, Id)>>)

  /** Why a key is in `catalog_failures`. */
  datatype Failure =
    | UnparseableKey
    | Unreadable(text: string)
    | CountMismatch(sum: nat, expected: nat)
    | TooLarge
    | Faulted(text: string)

  /** The `build_metadata` row; `stamped` tells a real build from the seeded placeholder. */
  datatype Build = Build(id: nat, stamped: bool, scanned: nat, failed: nat)

  datatype Tables = Tables(
    dict: Dictionaries,
    files: map<Composite, FileRow>,
    nextFile: Id,
    failures: map<string, Failure>,
    overrides: map<(Id, string), Option<string>>,
    build: Option<Build>)

  /** `_composite_ids`: the composite of a file, or `None` while some dimension is unknown. */
  function CompositeOf(t: Dictionaries, d: Dims): Option<Composite>
  {
    if d.customer !in t.customers.index then None
    else
      var c := t.customers.index[d.customer];
      if (c, d.site) !in t.sites.index then None
      else
        var s := t.sites.index[(c, d.site)];
        if (s, d.robot) !in t.robots.index || d.source !in t.sources.index then None
        else Some(Composite(c, s, t.robots.index[(s, d.robot)], t.sources.index[d.source], d.date, d.filename))
  }

  /** The four lookups of `_resolve_ids`, each interning on a miss. */
  function ResolveDims(t: Dictionaries, d: Dims): (u: Dictionaries)
  {
    var customers := Intern(t.customers, d.customer);
    var sites := Intern(t.sites, (customers.index[d.customer], d.site));
    var robots := Intern(t.robots, (sites.index[(customers.index[d.customer], d.site)], d.robot));
    t.(customers := customers, sites := sites, robots := robots, sources := Intern(t.sources, d.source))
  }

  ghost predicate AllSound(t: Dictionaries)
  {
    && Sound(t.customers) && Sound(t.sites) && Sound(t.robots) && Sound(t.sources)
    && Sound(t.topics) && Sound(t.schemas) && Sound(t.topicSets)
  }

  ghost predicate AllGrow(t: Dictionaries, u: Dictionaries)
  {
    && Grows(t.customers, u.customers) && Grows(t.sites, u.sites) && Grows(t.robots, u.robots)
    && Grows(t.sources, u.sources) && Grows(t.topics, u.topics) && Grows(t.schemas, u.schemas)
    && Grows(t.topicSets, u.topicSets)
  }

  lemma AllGrowTransitive(t: Dictionaries, u: Dictionaries, v: Dictionaries)
    requires AllGrow(t, u) && AllGrow(u, v)
    ensures AllGrow(t, v)
  {
    GrowsTransitive(t.customers, u.customers, v.customers);
    GrowsTransitive(t.sites, u.sites, v.sites);
    GrowsTransitive(t.robots, u.robots, v.robots);
    GrowsTransitive(t.sources, u.sources, v.sources);
    GrowsTransitive(t.topics, u.topics, v.topics);
    GrowsTransitive(t.schemas, u.schemas, v.schemas);
    GrowsTransitive(t.topicSets, u.topicSets, v.topicSets);
  }

  /** Foreign keys of one `files` row, including that its site and robot nest under its customer. */
  ghost predicate RefsResolve(t: Dictionaries, c: Composite)
  {
    && c.customer in t.customers.rows && c.source in t.sources.rows
    && c.site in t.sites.rows && t.sites.rows[c.site].0 == c.customer
    && c.robot in t.robots.rows && t.robots.rows[c.robot].0 == c.site
  }

  /** The topic set exists, its members resolve, and the blob has one count per member. */
  ghost predicate CountsResolve(t: Dictionaries, row: FileRow)
  {
    && row.topicSet in t.topicSets.rows
    && MembersResolve(t, t.topicSets.rows[row.topicSet])
    && V.DecodeCountsFrom(row.counts, 0).Some?
    && |V.DecodeCountsFrom(row.counts, 0).value| == |t.topicSets.rows[row.topicSet]|
  }

  /** Members resolve and are in strictly increasing `topic_id` order. */
  ghost predicate MembersResolve(t: Dictionaries, members: seq<(Id, Id)>)
  {
    && (forall i | 0 <= i < |members| :: members[i].0 in t.topics.rows && members[i].1 in t.schemas.rows)
    && (forall i, j | 0 <= i < j < |members| :: members[i].0 < members[j].0)
  }

  ghost predicate RowResolves(t: Dictionaries, c: Composite, row: FileRow)
  {
    RefsResolve(t, c) && CountsResolve(t, row)
  }

  ghost predicate FilesResolve(t: Tables)
  {
    forall c | c in t.files :: RowResolves(t.dict, c, t.files[c])
  }

  ghost predicate HasId(files: map<Composite, FileRow>, c: Composite, id: Id)
  {
    c in files && files[c].id == id
  }

  /** Row ids are primary keys. */
  ghost predicate IdsDistinct(t: Tables)
  {
    && (forall c | c in t.files :: t.files[c].id < t.nextFile)
    && (forall c, e, id | HasId(t.files, c, id) && HasId(t.files, e, id) :: c == e)
  }

  /** Overrides reference an existing file. */
  ghost predicate OverridesAttached(t: Tables)
  {
    forall o | o in t.overrides :: exists c :: HasId(t.files, c, o.0)
  }

  ghost predicate WellFormed(t: Tables)
  {
    AllSound(t.dict) && FilesResolve(t) && IdsDistinct(t) && OverridesAttached(t)
  }

  // ---- Meaning ----

  datatype TopicCount = TopicCount(topic: string, schemaName: string, schemaEncoding: string, count: nat)

  datatype Content = Content(start: nat, end: nat, chunks: nat, hasError: bool, topics: set<TopicCount>)

  datatype FileMeaning = FileMeaning(etag: string, size: nat, mtime: int, content: Content)

  /** One decoded entry per topic-set member, in member order. */
  ghost function ZipCounts(t: Dictionaries, members: seq<(Id, Id)>, counts: seq<nat>): (z: seq<TopicCount>)
    requires MembersResolve(t, members) && |counts| == |members|
    ensures |z| == |members|
  {
    seq(|members|, i requires 0 <= i < |members| =>
      TopicCount(t.topics.rows[members[i].0], t.schemas.rows[members[i].1].0, t.schemas.rows[members[i].1].1,
                 counts[i]))
  }

  ghost function Elements<T(!new)>(s: seq<T>): set<T>
  {
    set x | x in s
  }

  ghost function DecodeRow(t: Dictionaries, row: FileRow): FileMeaning
    requires CountsResolve(t, row)
  {
    var zipped := ZipCounts(t, t.topicSets.rows[row.topicSet], V.DecodeCountsFrom(row.counts, 0).value);
    FileMeaning(row.etag, row.size, row.mtime, Content(row.start, row.end, row.chunks, row.hasError, Elements(zipped)))
  }

  /** The id-free reading of the catalog: what it says about the file with these dimensions. */
  ghost function FileAt(t: Tables, d: Dims): Option<FileMeaning>
    requires WellFormed(t)
  {
    match CompositeOf(t.dict, d)
    case None => None
    case Some(c) =>
      if c in t.files then
        assert RowResolves(t.dict, c, t.files[c]);
        Some(DecodeRow(t.dict, t.files[c]))
      else None
  }

  function DimsOf(t: Dictionaries, c: Composite): Dims
    requires RefsResolve(t, c)
  {
    Dims(t.customers.rows[c.customer], t.sites.rows[c.site].1, t.robots.rows[c.robot].1,
         t.sources.rows[c.source], c.date, c.filename)
  }

  /** Composites and dimensions are in one-to-one correspondence ... */
  lemma CompositeDims(t: Dictionaries, d: Dims)
    requires AllSound(t)
    ensures CompositeOf(t, d).Some? ==>
              RefsResolve(t, CompositeOf(t, d).value) && DimsOf(t, CompositeOf(t, d).value) == d
  {
  }

  lemma DimsComposite(t: Dictionaries, c: Composite)
    requires AllSound(t) && RefsResolve(t, c)
    ensures CompositeOf(t, DimsOf(t, c)) == Some(c)
  {
    assert t.sites.rows[c.site] == (c.customer, t.sites.rows[c.site].1);
    assert t.robots.rows[c.robot] == (c.site, t.robots.rows[c.robot].1);
  }

  /** ... so no `files` row is hidden from the id-free reading. */
  lemma EveryRowIsRead(t: Tables, c: Composite)
    requires WellFormed(t) && c in t.files
    ensures RowResolves(t.dict, c, t.files[c])
    ensures FileAt(t, DimsOf(t.dict, c)) == Some(DecodeRow(t.dict, t.files[c]))
  {
    assert RowResolves(t.dict, c, t.files[c]);
    DimsComposite(t.dict, c);
  }

  // ---- Overrides by name ----

  function LookupFile(t: Tables, d: Dims): Option<Id>
  {
    match CompositeOf(t.dict, d)
    case None => None
    case Some(c) => if c in t.files then Some(t.files[c].id) else None
  }

  /** The override of a file, addressed by its dimensions and the tag key. */
  function OverrideAt(t: Tables, d: Dims, key: string): Option<Option<string>>
  {
    match LookupFile(t, d)
    case None => None
    case Some(id) => if (id, key) in t.overrides then Some(t.overrides[(id, key)]) else None
  }

  /** A file of `u` has the overrides it has in `t`. */
  ghost predicate OverridesFollow(t: Tables, u: Tables, d: Dims)
  {
    forall key :: OverrideAt(u, d, key) == if LookupFile(u, d).Some? then OverrideAt(t, d, key) else None
  }

  /**
   What no change of a file touches: the build row, and the user's overrides. Every file that is still cataloged has
   exactly its own, and they go only with the file.
   */
  ghost predicate Preserves(t: Tables, u: Tables)
  {
    u.build == t.build && forall d :: OverridesFollow(t, u, d)
  }

  lemma PreservesItself(t: Tables)
    ensures Preserves(t, t)
  {
  }

  /** Two changes in turn, unless a file that the first removed comes back in the second. */
  lemma PreservesInTurn(t: Tables, u: Tables, v: Tables)
    requires Preserves(t, u) && Preserves(u, v)
    requires forall d :: LookupFile(v, d).Some? && LookupFile(u, d).None? ==> LookupFile(t, d).None?
    ensures Preserves(t, v)
  {
    hide LookupFile;
    forall d, key
      ensures OverrideAt(v, d, key) == if LookupFile(v, d).Some? then OverrideAt(t, d, key) else None
    {
      assert OverridesFollow(t, u, d) && OverridesFollow(u, v, d);
    }
  }

  lemma LookupIsFile(t: Tables, d: Dims)
    requires WellFormed(t)
    ensures LookupFile(t, d).Some? <==> FileAt(t, d).Some?
  {
    hide WellFormed, DecodeRow;
  }

  // ---- How the table changes act on the meaning ----

  lemma DecodeGrows(t: Dictionaries, u: Dictionaries, row: FileRow)
    requires AllGrow(t, u) && CountsResolve(t, row)
    ensures CountsResolve(u, row) && DecodeRow(u, row) == DecodeRow(t, row)
  {
    var members := t.topicSets.rows[row.topicSet];
    var counts := V.DecodeCountsFrom(row.counts, 0).value;
    assert MembersResolve(u, members);
    assert ZipCounts(u, members, counts) == ZipCounts(t, members, counts);
  }

  lemma CompositeGrows(t: Dictionaries, u: Dictionaries, d: Dims)
    requires AllSound(t) && AllSound(u) && AllGrow(t, u)
    ensures CompositeOf(t, d).Some? ==> CompositeOf(u, d) == CompositeOf(t, d)
    ensures CompositeOf(t, d).None? && CompositeOf(u, d).Some? ==> !RefsResolve(t, CompositeOf(u, d).value)
  {
    if CompositeOf(t, d).None? && CompositeOf(u, d).Some? && RefsResolve(t, CompositeOf(u, d).value) {
      var c := CompositeOf(u, d).value;
      CompositeDims(u, d);
      assert DimsOf(t, c) == d;
      DimsComposite(t, c);
    }
  }

  lemma GrowthPreserves(t: Tables, dict: Dictionaries)
    requires WellFormed(t) && AllSound(dict) && AllGrow(t.dict, dict)
    ensures Preserves(t, t.(dict := dict))
  {
    hide AllSound, AllGrow, CompositeOf, IdsDistinct, OverridesAttached, CountsResolve, RefsResolve;
    forall d
      ensures LookupFile(t.(dict := dict), d) == LookupFile(t, d)
    {
      CompositeGrows(t.dict, dict, d);
      if CompositeOf(dict, d).Some? && CompositeOf(dict, d).value in t.files {
        assert RowResolves(t.dict, CompositeOf(dict, d).value, t.files[CompositeOf(dict, d).value]);
      }
    }
  }

  /** Interning new dictionary entries changes the meaning of nothing. */
  lemma GrowthKeepsMeaning(t: Tables, dict: Dictionaries)
    requires WellFormed(t) && AllSound(dict) && AllGrow(t.dict, dict)
    ensures WellFormed(t.(dict := dict))
    ensures forall d :: FileAt(t.(dict := dict), d) == FileAt(t, d)
    ensures Preserves(t, t.(dict := dict))
  {
    var u := t.(dict := dict);
    GrowthPreserves(t, dict);
    forall c | c in t.files
      ensures RowResolves(dict, c, t.files[c])
    {
      assert RowResolves(t.dict, c, t.files[c]);
      DecodeGrows(t.dict, dict, t.files[c]);
    }
    forall d
      ensures FileAt(u, d) == FileAt(t, d)
    {
      CompositeGrows(t.dict, dict, d);
      if CompositeOf(dict, d).Some? && CompositeOf(dict, d).value in t.files {
        var c := CompositeOf(dict, d).value;
        assert RowResolves(t.dict, c, t.files[c]);
        DecodeGrows(t.dict, dict, t.files[c]);
      }
    }
  }

  /** The `ON CONFLICT ... DO UPDATE` upsert: an existing row keeps its id. */
  function Upsert(t: Tables, c: Composite, row: FileRow): Tables
  {
    if c in t.files then t.(files := t.files[c := row.(id := t.files[c].id)])
    else t.(files := t.files[c := row.(id := t.nextFile)], nextFile := t.nextFile + 1)
  }

  lemma UpsertResolves(t: Tables, c: Composite, row: FileRow)
    requires FilesResolve(t) && RowResolves(t.dict, c, row)
    ensures FilesResolve(Upsert(t, c, row))
  {
    var u := Upsert(t, c, row);
    forall e | e in u.files
      ensures RowResolves(u.dict, e, u.files[e])
    {
      if e != c {
        assert RowResolves(t.dict, e, t.files[e]);
      }
    }
  }

  /** An upsert keeps row ids distinct ... */
  lemma UpsertKeepsIds(t: Tables, c: Composite, row: FileRow)
    requires IdsDistinct(t)
    ensures IdsDistinct(Upsert(t, c, row))
  {
    var u := Upsert(t, c, row);
    forall e, f, id | HasId(u.files, e, id) && HasId(u.files, f, id)
      ensures e == f
    {
      if c in t.files || (e != c && f != c) {
        assert HasId(t.files, e, id) && HasId(t.files, f, id);
      }
    }
  }

  /** ... and keeps the file's overrides attached. */
  lemma UpsertKeepsOverrides(t: Tables, c: Composite, row: FileRow)
    requires OverridesAttached(t)
    ensures OverridesAttached(Upsert(t, c, row))
  {
    var u := Upsert(t, c, row);
    forall o | o in u.overrides
      ensures exists e :: HasId(u.files, e, o.0)
    {
      var e :| HasId(t.files, e, o.0);
      assert HasId(u.files, e, o.0);
    }
  }

  lemma UpsertWellFormed(t: Tables, c: Composite, row: FileRow)
    requires WellFormed(t) && RowResolves(t.dict, c, row)
    ensures WellFormed(Upsert(t, c, row))
  {
    UpsertResolves(t, c, row);
    UpsertKeepsIds(t, c, row);
    UpsertKeepsOverrides(t, c, row);
  }

  /** A row keeps its id, and a new row's id has no override yet. */
  lemma UpsertPreserves(t: Tables, c: Composite, row: FileRow)
    requires WellFormed(t)
    ensures Preserves(t, Upsert(t, c, row))
  {
    hide AllSound, FilesResolve, CompositeOf;
    var u := Upsert(t, c, row);
    forall d, key
      ensures OverrideAt(u, d, key) == if LookupFile(u, d).Some? then OverrideAt(t, d, key) else None
    {
      assert (t.nextFile, key) !in t.overrides;
    }
  }

  /** Upserting a row changes the meaning of that file only. */
  lemma UpsertMeaning(t: Tables, d: Dims, row: FileRow)
    requires WellFormed(t) && CompositeOf(t.dict, d).Some? && CountsResolve(t.dict, row)
    ensures var u := Upsert(t, CompositeOf(t.dict, d).value, row);
            && WellFormed(u)
            && FileAt(u, d) == Some(DecodeRow(t.dict, row)) && Preserves(t, u)
            && forall e | e != d :: FileAt(u, e) == FileAt(t, e)
  {
    hide AllSound, IdsDistinct, OverridesAttached, DecodeRow, CountsResolve, Preserves;
    UpsertPreserves(t, CompositeOf(t.dict, d).value, row);
    var c := CompositeOf(t.dict, d).value;
    CompositeDims(t.dict, d);
    UpsertWellFormed(t, c, row);
    var u := Upsert(t, c, row);
    DecodeIgnoresId(t.dict, row, u.files[c].id);
    forall e | e != d
      ensures FileAt(u, e) == FileAt(t, e)
    {
      OtherComposite(t.dict, d, e);
      OtherFile(t, u, e);
    }
  }

  lemma DecodeIgnoresId(t: Dictionaries, row: FileRow, id: Id)
    requires CountsResolve(t, row)
    ensures CountsResolve(t, row.(id := id)) && DecodeRow(t, row.(id := id)) == DecodeRow(t, row)
  {
  }

  /** Different files have different composites. */
  lemma OtherComposite(t: Dictionaries, d: Dims, e: Dims)
    requires AllSound(t) && d != e && CompositeOf(t, d).Some?
    ensures CompositeOf(t, e) != CompositeOf(t, d)
  {
    CompositeDims(t, d);
    CompositeDims(t, e);
  }

  lemma OtherFile(t: Tables, u: Tables, e: Dims)
    requires WellFormed(t) && WellFormed(u) && u.dict == t.dict
    requires CompositeOf(t.dict, e).Some? ==>
               var c := CompositeOf(t.dict, e).value;
               (c in u.files <==> c in t.files) && (c in t.files ==> u.files[c] == t.files[c])
    ensures FileAt(u, e) == FileAt(t, e)
  {
  }

  /** `DELETE FROM files`: the file's overrides go with it (`ON DELETE CASCADE`). */
  function DeleteFile(t: Tables, c: Composite): Tables
  {
    if c !in t.files then t
    else
      t.(files := t.files - {c},
         overrides := map o | o in t.overrides && o.0 != t.files[c].id :: t.overrides[o])
  }

  lemma DeleteKeepsIds(t: Tables, c: Composite)
    requires IdsDistinct(t) && OverridesAttached(t)
    ensures IdsDistinct(DeleteFile(t, c)) && OverridesAttached(DeleteFile(t, c))
  {
    var u := DeleteFile(t, c);
    forall e, f, id | HasId(u.files, e, id) && HasId(u.files, f, id)
      ensures e == f
    {
      assert HasId(t.files, e, id) && HasId(t.files, f, id);
    }
    forall o | o in u.overrides
      ensures exists e :: HasId(u.files, e, o.0)
    {
      var e :| HasId(t.files, e, o.0);
      assert HasId(u.files, e, o.0);
    }
  }

  lemma DeleteWellFormed(t: Tables, c: Composite)
    requires WellFormed(t)
    ensures WellFormed(DeleteFile(t, c))
  {
    var u := DeleteFile(t, c);
    DeleteKeepsIds(t, c);
    forall e | e in u.files
      ensures RowResolves(u.dict, e, u.files[e])
    {
      assert RowResolves(t.dict, e, t.files[e]);
    }
  }

  /** The cascade takes the deleted row's overrides and no others. */
  lemma DeletePreserves(t: Tables, c: Composite)
    requires WellFormed(t)
    ensures Preserves(t, DeleteFile(t, c))
  {
    hide AllSound, FilesResolve, OverridesAttached, CompositeOf;
    var u := DeleteFile(t, c);
    forall d, key
      ensures OverrideAt(u, d, key) == if LookupFile(u, d).Some? then OverrideAt(t, d, key) else None
    {
      if c in t.files && LookupFile(u, d).Some? {
        var e := CompositeOf(t.dict, d).value;
        assert HasId(t.files, e, t.files[e].id) && HasId(t.files, c, t.files[c].id);
      }
    }
  }

  /** Deleting a file's row makes that file unknown and leaves every other file as it was. */
  lemma DeleteMeaning(t: Tables, d: Dims)
    requires WellFormed(t) && CompositeOf(t.dict, d).Some?
    ensures var u := DeleteFile(t, CompositeOf(t.dict, d).value);
            && WellFormed(u)
            && FileAt(u, d).None? && Preserves(t, u)
            && forall e | e != d :: FileAt(u, e) == FileAt(t, e)
  {
    hide Preserves;
    DeletePreserves(t, CompositeOf(t.dict, d).value);
    hide AllSound, IdsDistinct, OverridesAttached, DecodeRow, CountsResolve;
    var c := CompositeOf(t.dict, d).value;
    DeleteWellFormed(t, c);
    forall e | e != d
      ensures FileAt(DeleteFile(t, c), e) == FileAt(t, e)
    {
      OtherComposite(t.dict, d, e);
      OtherFile(t, DeleteFile(t, c), e);
    }
  }

  /** Interning a file's dimensions makes its composite known. */
  lemma ResolveDimsSound(t: Dictionaries, d: Dims)
    requires AllSound(t)
    ensures AllSound(ResolveDims(t, d)) && AllGrow(t, ResolveDims(t, d))
    ensures CompositeOf(ResolveDims(t, d), d).Some?
  {
    var u := ResolveDims(t, d);
    InternSound(t.customers, d.customer);
    InternSound(t.sites, (u.customers.index[d.customer], d.site));
    InternSound(t.robots, (u.sites.index[(u.customers.index[d.customer], d.site)], d.robot));
    InternSound(t.sources, d.source);
  }
}
