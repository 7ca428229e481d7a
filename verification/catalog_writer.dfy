/**
 The per-file transaction: topic-set dedup, the packed counts, the count check, the upsert,
 and quarantine. The functions give the committed result of each operation.
 */
module CatalogWriter {
  import opened Basics
  import opened HiveKey
  import opened CatalogTables
  import V = Varint

  datatype Channel = Channel(topic: string, schemaName: string, schemaEncoding: string, count: nat)

  datatype Summary = Summary(start: nat, end: nat, messageCount: nat, chunkCount: nat, channels: seq<Channel>)

  datatype Stat = Stat(etag: string, size: nat, mtime: int)

  /** What reading an object's summary gives: a summary, one whose write then raises, or an error. */
  datatype Reading = Readable(summary: Summary) | Raising(summary: Summary, text: string) | Broken(text: string)

  /** What the read phase hands to the write phase. */
  datatype Extract = Extracted(reading: Reading) | Vanished

  const MAX_INT64: nat := 0x7FFF_FFFF_FFFF_FFFF

  // ---- Per-topic totals ----

  /** The first position satisfying `p`, or `|xs|`. */
  function Find<T(!new)>(xs: seq<T>, p: T -> bool): (i: nat)
    ensures i <= |xs|
    ensures i < |xs| ==> p(xs[i])
    ensures forall j | 0 <= j < i :: !p(xs[j])
  {
    if xs == [] then 0 else if p(xs[0]) then 0 else 1 + Find(xs[1..], p)
  }

  /** What the summary says about each topic, by name: first schema, summed counts. */
  function NameTotals(channels: seq<Channel>): seq<TopicCount>
  {
    if channels == [] then []
    else AddNamed(NameTotals(channels[..|channels| - 1]), channels[|channels| - 1])
  }

  function AddNamed(totals: seq<TopicCount>, ch: Channel): seq<TopicCount>
  {
    var i := Find(totals, (c: TopicCount) => c.topic == ch.topic);
    if i < |totals| then totals[i := totals[i].(count := totals[i].count + ch.count)]
    else totals + [TopicCount(ch.topic, ch.schemaName, ch.schemaEncoding, ch.count)]
  }

  /** One entry of the writer's `by_topic` dictionary, in insertion order. */
  datatype Entry = Entry(topic: Id, schema: Id, count: nat)

  function AddEntry(entries: seq<Entry>, topic: Id, schema: Id, count: nat): seq<Entry>
  {
    var i := Find(entries, (e: Entry) => e.topic == topic);
    if i < |entries| then entries[i := entries[i].(count := entries[i].count + count)]
    else entries + [Entry(topic, schema, count)]
  }

  datatype Tallied = Tallied(dict: Dictionaries, entries: seq<Entry>)

  function TallyOne(r: Tallied, ch: Channel): Tallied
  {
    var topics := Intern(r.dict.topics, ch.topic);
    var schemas := Intern(r.dict.schemas, (ch.schemaName, ch.schemaEncoding));
    Tallied(r.dict.(topics := topics, schemas := schemas),
            AddEntry(r.entries, topics.index[ch.topic], schemas.index[(ch.schemaName, ch.schemaEncoding)], ch.count))
  }

  function Tally(dict: Dictionaries, channels: seq<Channel>): Tallied
  {
    if channels == [] then Tallied(dict, [])
    else TallyOne(Tally(dict, channels[..|channels| - 1]), channels[|channels| - 1])
  }

  function SumChannels(channels: seq<Channel>): nat
  {
    if channels == [] then 0 else SumChannels(channels[..|channels| - 1]) + channels[|channels| - 1].count
  }

  function SumEntries(entries: seq<Entry>): nat
  {
    if entries == [] then 0 else entries[0].count + SumEntries(entries[1..])
  }

  // ---- Sorting by topic id ----

  function InsertSorted(e: Entry, s: seq<Entry>): seq<Entry>
  {
    if s == [] || e.topic <= s[0].topic then [e] + s else [s[0]] + InsertSorted(e, s[1..])
  }

  function SortEntries(entries: seq<Entry>): seq<Entry>
  {
    if entries == [] then [] else InsertSorted(entries[0], SortEntries(entries[1..]))
  }

  function MembersOf(sorted: seq<Entry>): (m: seq<(Id, Id)>)
    ensures |m| == |sorted|
  {
    seq(|sorted|, i requires 0 <= i < |sorted| => (sorted[i].topic, sorted[i].schema))
  }

  function CountsOf(sorted: seq<Entry>): (c: seq<nat>)
    ensures |c| == |sorted|
  {
    seq(|sorted|, i requires 0 <= i < |sorted| => sorted[i].count)
  }

  // ---- Committed results ----

  /** Whether the transaction accepts a summary: counts add up and times fit a signed column. */
  predicate Accepts(s: Summary)
  {
    SumChannels(s.channels) == s.messageCount && s.start <= MAX_INT64 && s.end <= MAX_INT64
  }

  function Refusal(s: Summary): Failure
  {
    if SumChannels(s.channels) != s.messageCount then CountMismatch(SumChannels(s.channels), s.messageCount)
    else TooLarge
  }

  /** The row an accepted summary is stored as, over the dictionaries that decode it. */
  function DictWithTopics(dict: Dictionaries, s: Summary): Dictionaries
  {
    var r := Tally(dict, s.channels);
    r.dict.(topicSets := Intern(r.dict.topicSets, MembersOf(SortEntries(r.entries))))
  }

  function RowFor(dict: Dictionaries, stat: Stat, s: Summary): FileRow
  {
    var r := Tally(dict, s.channels);
    var sorted := SortEntries(r.entries);
    FileRow(0, stat.etag, stat.size, stat.mtime, s.start, s.end, s.chunkCount,
            DictWithTopics(dict, s).topicSets.index[MembersOf(sorted)],
            V.EncodeCounts(CountsOf(sorted)), s.messageCount == 0)
  }

  /** `_quarantine_existing`: the row and the failure change together. */
  function Quarantine(t: Tables, c: Composite, key: string, why: Failure): Tables
  {
    DeleteFile(t, c).(failures := t.failures[key := why])
  }

  /** `_write_file_row`: the whole transaction, or quarantine over the state before it. */
  function WriteFileRow(t: Tables, c: Composite, key: string, stat: Stat, s: Summary): Tables
  {
    if !Accepts(s) then Quarantine(t, c, key, Refusal(s))
    else
      var u := Upsert(t.(dict := DictWithTopics(t.dict, s)), c, RowFor(t.dict, stat, s));
      u.(failures := u.failures - {key})
  }

  /** `apply_extract` for a reading in hand: resolve the ids, then write or quarantine. */
  function ApplyReading(t: Tables, d: Dims, key: string, stat: Stat, reading: Reading): Tables
  {
    var t1 := t.(dict := ResolveDims(t.dict, d));
    match CompositeOf(t1.dict, d)
    case None => t1
    case Some(c) => Settle(t1, c, key, stat, reading)
  }

  function Settle(t: Tables, c: Composite, key: string, stat: Stat, reading: Reading): Tables
  {
    match reading
    case Broken(text) => Quarantine(t, c, key, Unreadable(text))
    case Raising(_, text) => Quarantine(t, c, key, Faulted(text))
    case Readable(s) => WriteFileRow(t, c, key, stat, s)
  }

  /** `apply_extract`: a vanished object is not recorded. */
  function ApplyExtract(t: Tables, key: string, stat: Stat, ex: Extract): Tables
  {
    match ex
    case Vanished => t
    case Extracted(reading) =>
      match Resolve(key)
      case None => t.(failures := t.failures[key := UnparseableKey])
      case Some(d) => ApplyReading(t, d, key, stat, reading)
  }

  // ---- What the catalog must say about a file, in terms of its object alone ----

  ghost function ContentOf(s: Summary): Content
  {
    Content(s.start, s.end, s.chunkCount, s.messageCount == 0, Elements(NameTotals(s.channels)))
  }

  ghost function ExpectedFile(stat: Stat, reading: Reading): Option<FileMeaning>
  {
    if reading.Readable? && Accepts(reading.summary)
    then Some(FileMeaning(stat.etag, stat.size, stat.mtime, ContentOf(reading.summary)))
    else None
  }

  function ExpectedFailure(reading: Reading): Option<Failure>
  {
    match reading
    case Broken(text) => Some(Unreadable(text))
    case Raising(_, text) => Some(Faulted(text))
    case Readable(s) => if Accepts(s) then None else Some(Refusal(s))
  }

  function FailureAt(t: Tables, key: string): Option<Failure>
  {
    if key in t.failures then Some(t.failures[key]) else None
  }

  // ---- Totals by id and totals by name agree ----

  ghost predicate Matches(dict: Dictionaries, e: Entry, c: TopicCount)
  {
    && e.topic in dict.topics.rows && dict.topics.rows[e.topic] == c.topic
    && e.schema in dict.schemas.rows && dict.schemas.rows[e.schema] == (c.schemaName, c.schemaEncoding)
    && e.count == c.count
  }

  ghost predicate AllMatch(dict: Dictionaries, entries: seq<Entry>, totals: seq<TopicCount>)
  {
    |entries| == |totals| && forall i | 0 <= i < |entries| :: Matches(dict, entries[i], totals[i])
  }

  ghost predicate DistinctTopics(entries: seq<Entry>)
  {
    forall i, j | 0 <= i < j < |entries| :: entries[i].topic != entries[j].topic
  }

  /** Adding a channel by id and by name hits the same position. */
  lemma AddInStep(dict: Dictionaries, entries: seq<Entry>, totals: seq<TopicCount>, ch: Channel, topic: Id, schema: Id)
    requires Sound(dict.topics) && Sound(dict.schemas)
    requires AllMatch(dict, entries, totals) && DistinctTopics(entries)
    requires ch.topic in dict.topics.index && dict.topics.index[ch.topic] == topic
    requires (ch.schemaName, ch.schemaEncoding) in dict.schemas.index
    requires dict.schemas.index[(ch.schemaName, ch.schemaEncoding)] == schema
    ensures AllMatch(dict, AddEntry(entries, topic, schema, ch.count), AddNamed(totals, ch))
    ensures DistinctTopics(AddEntry(entries, topic, schema, ch.count))
  {
    forall i | 0 <= i < |entries|
      ensures entries[i].topic == topic <==> totals[i].topic == ch.topic
    {
      assert Matches(dict, entries[i], totals[i]);
    }
    var i := Find(entries, (e: Entry) => e.topic == topic);
    var j := Find(totals, (c: TopicCount) => c.topic == ch.topic);
    assert i == j;
    var es, ns := AddEntry(entries, topic, schema, ch.count), AddNamed(totals, ch);
    forall k | 0 <= k < |es|
      ensures Matches(dict, es[k], ns[k])
    {
      if k < |entries| {
        assert Matches(dict, entries[k], totals[k]);
      }
    }
  }

  lemma MatchGrows(dict: Dictionaries, u: Dictionaries, entries: seq<Entry>, totals: seq<TopicCount>)
    requires AllMatch(dict, entries, totals)
    requires Grows(dict.topics, u.topics) && Grows(dict.schemas, u.schemas)
    ensures AllMatch(u, entries, totals)
  {
    forall i | 0 <= i < |entries|
      ensures Matches(u, entries[i], totals[i])
    {
      assert Matches(dict, entries[i], totals[i]);
    }
  }

  lemma GrowsReflexive(t: Dictionaries)
    ensures AllGrow(t, t)
  {
  }

  /** The id totals of a summary are its name totals, whatever ids the dictionaries hand out. */
  lemma {:induction false} TallyMeansTotals(dict: Dictionaries, channels: seq<Channel>)
    requires AllSound(dict)
    ensures AllSound(Tally(dict, channels).dict) && AllGrow(dict, Tally(dict, channels).dict)
    ensures AllMatch(Tally(dict, channels).dict, Tally(dict, channels).entries, NameTotals(channels))
    ensures DistinctTopics(Tally(dict, channels).entries)
  {
    if channels != [] {
      var front, ch := channels[..|channels| - 1], channels[|channels| - 1];
      TallyMeansTotals(dict, front);
      var r := Tally(dict, front);
      var u := TallyOne(r, ch).dict;
      InternSound(r.dict.topics, ch.topic);
      InternSound(r.dict.schemas, (ch.schemaName, ch.schemaEncoding));
      AllGrowTransitive(dict, r.dict, u);
      MatchGrows(r.dict, u, r.entries, NameTotals(front));
      AddInStep(u, r.entries, NameTotals(front), ch, u.topics.index[ch.topic],
                u.schemas.index[(ch.schemaName, ch.schemaEncoding)]);
    }
  }

  // ---- Sorting keeps what was counted ----

  lemma {:induction false} InsertSortedKeeps(e: Entry, s: seq<Entry>)
    ensures multiset(InsertSorted(e, s)) == multiset{e} + multiset(s)
    ensures SumEntries(InsertSorted(e, s)) == e.count + SumEntries(s)
  {
    if s == [] || e.topic <= s[0].topic {
      assert ([e] + s)[1..] == s;
    } else {
      InsertSortedKeeps(e, s[1..]);
      assert s == [s[0]] + s[1..];
      assert InsertSorted(e, s)[1..] == InsertSorted(e, s[1..]);
    }
  }

  lemma {:induction false} SortKeeps(entries: seq<Entry>)
    ensures multiset(SortEntries(entries)) == multiset(entries)
    ensures SumEntries(SortEntries(entries)) == SumEntries(entries)
  {
    if entries != [] {
      SortKeeps(entries[1..]);
      InsertSortedKeeps(entries[0], SortEntries(entries[1..]));
      assert entries == [entries[0]] + entries[1..];
    }
  }

  ghost predicate StrictlySorted(s: seq<Entry>)
  {
    forall i, j | 0 <= i < j < |s| :: s[i].topic < s[j].topic
  }

  lemma {:induction false} InsertSortedSorted(e: Entry, s: seq<Entry>)
    requires StrictlySorted(s) && forall i | 0 <= i < |s| :: s[i].topic != e.topic
    ensures StrictlySorted(InsertSorted(e, s))
  {
    if s != [] && e.topic > s[0].topic {
      InsertSortedSorted(e, s[1..]);
      InsertSortedKeeps(e, s[1..]);
      var r := InsertSorted(e, s[1..]);
      forall k | 0 <= k < |r|
        ensures s[0].topic < r[k].topic
      {
        assert r[k] in multiset(r);
        assert r[k] == e || r[k] in s[1..];
      }
    }
  }

  lemma {:induction false} SortSorts(entries: seq<Entry>)
    requires DistinctTopics(entries)
    ensures StrictlySorted(SortEntries(entries))
  {
    if entries != [] {
      SortSorts(entries[1..]);
      SortKeeps(entries[1..]);
      var s := SortEntries(entries[1..]);
      forall i | 0 <= i < |s|
        ensures s[i].topic != entries[0].topic
      {
        assert s[i] in multiset(entries[1..]);
      }
      InsertSortedSorted(entries[0], s);
    }
  }

  lemma {:induction false} SumUpdate(entries: seq<Entry>, i: nat, more: nat)
    requires i < |entries|
    ensures SumEntries(entries[i := entries[i].(count := entries[i].count + more)]) == SumEntries(entries) + more
  {
    var u := entries[i := entries[i].(count := entries[i].count + more)];
    if i == 0 {
      assert u[1..] == entries[1..];
    } else {
      assert u[1..] == entries[1..][i - 1 := entries[i].(count := entries[i].count + more)];
      SumUpdate(entries[1..], i - 1, more);
    }
  }

  lemma {:induction false} SumAppend(entries: seq<Entry>, e: Entry)
    ensures SumEntries(entries + [e]) == SumEntries(entries) + e.count
  {
    if entries != [] {
      assert (entries + [e])[1..] == entries[1..] + [e];
      SumAppend(entries[1..], e);
    }
  }

  /** Merging duplicate topics loses no message. */
  lemma {:induction false} TallySum(dict: Dictionaries, channels: seq<Channel>)
    ensures SumEntries(Tally(dict, channels).entries) == SumChannels(channels)
  {
    if channels != [] {
      var front, ch := channels[..|channels| - 1], channels[|channels| - 1];
      TallySum(dict, front);
      var r := Tally(dict, front);
      var topic := TallyOne(r, ch).dict.topics.index[ch.topic];
      var i := Find(r.entries, (e: Entry) => e.topic == topic);
      if i < |r.entries| {
        SumUpdate(r.entries, i, ch.count);
      } else {
        var schema := TallyOne(r, ch).dict.schemas.index[(ch.schemaName, ch.schemaEncoding)];
        SumAppend(r.entries, Entry(topic, schema, ch.count));
      }
    }
  }

  // ---- The stored blob decodes to the summary's totals ----

  ghost function Sum(counts: seq<nat>): nat
  {
    if counts == [] then 0 else counts[0] + Sum(counts[1..])
  }

  lemma {:induction false} SumOfCounts(sorted: seq<Entry>)
    ensures Sum(CountsOf(sorted)) == SumEntries(sorted)
  {
    if sorted != [] {
      SumOfCounts(sorted[1..]);
      assert CountsOf(sorted)[1..] == CountsOf(sorted[1..]);
    }
  }

  lemma SortedMembersResolve(dict: Dictionaries, entries: seq<Entry>, totals: seq<TopicCount>)
    requires AllMatch(dict, entries, totals) && DistinctTopics(entries)
    ensures MembersResolve(dict, MembersOf(SortEntries(entries)))
  {
    SortSorts(entries);
    SortKeeps(entries);
    var sorted := SortEntries(entries);
    forall i | 0 <= i < |sorted|
      ensures sorted[i].topic in dict.topics.rows && sorted[i].schema in dict.schemas.rows
    {
      assert sorted[i] in multiset(entries);
      var j :| 0 <= j < |entries| && entries[j] == sorted[i];
      assert Matches(dict, entries[j], totals[j]);
    }
  }

  /** Zipping the sorted members with their counts gives every topic its total, and nothing else. */
  lemma ZipIsTotals(dict: Dictionaries, entries: seq<Entry>, totals: seq<TopicCount>)
    requires AllMatch(dict, entries, totals) && DistinctTopics(entries)
    requires MembersResolve(dict, MembersOf(SortEntries(entries)))
    ensures var s := SortEntries(entries);
            Elements(ZipCounts(dict, MembersOf(s), CountsOf(s))) == Elements(totals)
  {
    SortKeeps(entries);
    var sorted := SortEntries(entries);
    var z := ZipCounts(dict, MembersOf(sorted), CountsOf(sorted));
    forall x | x in z
      ensures x in totals
    {
      var i :| 0 <= i < |z| && z[i] == x;
      assert sorted[i] in multiset(entries);
      var j :| 0 <= j < |entries| && entries[j] == sorted[i];
      assert Matches(dict, entries[j], totals[j]);
      assert totals[j] == x;
    }
    forall x | x in totals
      ensures x in z
    {
      var j :| 0 <= j < |totals| && totals[j] == x;
      assert Matches(dict, entries[j], totals[j]);
      assert entries[j] in multiset(sorted);
      var i :| 0 <= i < |sorted| && sorted[i] == entries[j];
      assert z[i] == x;
    }
  }

  /**
   The row written for a summary: its blob has exactly one count per topic-set member, members in
   topic_id order, and the row decodes to the summary's own content, duplicate and zero-count
   topics included.
   */
  lemma RowMeansSummary(dict: Dictionaries, stat: Stat, s: Summary)
    requires AllSound(dict)
    ensures var u, row := DictWithTopics(dict, s), RowFor(dict, stat, s);
            && AllSound(u) && AllGrow(dict, u)
            && CountsResolve(u, row)
            && DecodeRow(u, row) == FileMeaning(stat.etag, stat.size, stat.mtime, ContentOf(s))
  {
    hide AllGrow, Tally, NameTotals, SortEntries, AllMatch, DistinctTopics, MembersResolve;
    var r := Tally(dict, s.channels);
    TallyMeansTotals(dict, s.channels);
    var sorted := SortEntries(r.entries);
    var members := MembersOf(sorted);
    var u := DictWithTopics(dict, s);
    InternSound(r.dict.topicSets, members);
    AllGrowTransitive(dict, r.dict, u);
    MatchGrows(r.dict, u, r.entries, NameTotals(s.channels));
    SortedMembersResolve(u, r.entries, NameTotals(s.channels));
    ZipIsTotals(u, r.entries, NameTotals(s.channels));
    V.CountsRoundTrip(CountsOf(sorted));
  }

  /** The stored counts add up to the summary's message count. */
  lemma RowCountsAddUp(dict: Dictionaries, stat: Stat, s: Summary)
    requires Accepts(s)
    ensures V.DecodeCountsFrom(RowFor(dict, stat, s).counts, 0).Some?
    ensures Sum(V.DecodeCountsFrom(RowFor(dict, stat, s).counts, 0).value) == s.messageCount
  {
    var r := Tally(dict, s.channels);
    V.CountsRoundTrip(CountsOf(SortEntries(r.entries)));
    SumOfCounts(SortEntries(r.entries));
    SortKeeps(r.entries);
    TallySum(dict, s.channels);
  }

  // ---- The state of one key, and what each operation does to it ----

  /** What the catalog says about a key: at most one of the two is set in a consistent catalog. */
  datatype KeyState = KeyState(file: Option<FileMeaning>, failure: Option<Failure>)

  ghost function StateOf(t: Tables, key: string): KeyState
    requires WellFormed(t)
  {
    KeyState(if Resolve(key).Some? then FileAt(t, Resolve(key).value) else None, FailureAt(t, key))
  }

  ghost predicate FilesHaveKeys(t: Tables)
    requires WellFormed(t)
  {
    forall d | FileAt(t, d).Some? :: Valid(d) && Rebuild(d) !in t.failures
  }

  /** A parseable key that failed has its dimensions interned. */
  ghost predicate FailuresHaveDims(t: Tables)
  {
    forall key | key in t.failures && Resolve(key).Some? :: CompositeOf(t.dict, Resolve(key).value).Some?
  }

  /**
   The catalog invariant: tables well-formed, no key both cataloged and failed, and no failed key
   with unknown dimensions.
   */
  ghost predicate Consistent(t: Tables)
  {
    WellFormed(t) && FilesHaveKeys(t) && FailuresHaveDims(t)
  }

  /** A key that is both cataloged and failed does not exist. */
  lemma NeverBoth(t: Tables, key: string)
    requires Consistent(t) && Canonical(key)
    ensures StateOf(t, key).file.None? || StateOf(t, key).failure.None?
  {
  }

  lemma QuarantineMeaning(t: Tables, d: Dims, key: string, why: Failure)
    requires WellFormed(t) && CompositeOf(t.dict, d).Some?
    ensures var u := Quarantine(t, CompositeOf(t.dict, d).value, key, why);
            && WellFormed(u) && u.dict == t.dict
            && u.failures == t.failures[key := why]
            && FileAt(u, d).None?
            && OnlyAffects(t, u, d) && Preserves(t, u)
  {
    hide Preserves;
    var c := CompositeOf(t.dict, d).value;
    DeleteMeaning(t, d);
    var v := DeleteFile(t, c);
    FailuresAreSeparate(v, t.failures[key := why]);
    FailuresPreserve(t, v, t.failures[key := why]);
  }

  lemma FailuresPreserve(t: Tables, u: Tables, failures: map<string, Failure>)
    requires Preserves(t, u)
    ensures Preserves(t, u.(failures := failures))
  {
    hide CompositeOf;
    var v := u.(failures := failures);
    forall d
      ensures OverridesFollow(t, v, d)
    {
      assert OverridesFollow(t, u, d) && LookupFile(v, d) == LookupFile(u, d);
    }
  }

  /** The failure table plays no part in decoding files. */
  lemma FailuresAreSeparate(t: Tables, failures: map<string, Failure>)
    requires WellFormed(t)
    ensures WellFormed(t.(failures := failures))
    ensures forall e :: FileAt(t.(failures := failures), e) == FileAt(t, e)
  {
    var u := t.(failures := failures);
    forall c | c in u.files
      ensures RowResolves(u.dict, c, u.files[c])
    {
      assert RowResolves(t.dict, c, t.files[c]);
    }
  }

  lemma WriteMeaning(t: Tables, d: Dims, key: string, stat: Stat, s: Summary)
    requires WellFormed(t) && CompositeOf(t.dict, d).Some? && Accepts(s)
    ensures var u := WriteFileRow(t, CompositeOf(t.dict, d).value, key, stat, s);
            && WellFormed(u) && AllGrow(t.dict, u.dict)
            && u.failures == t.failures - {key}
            && u.overrides == t.overrides
            && FileAt(u, d) == ExpectedFile(stat, Readable(s))
            && OnlyAffects(t, u, d) && Preserves(t, u)
  {
    hide AllGrow, AllSound, FileAt, DictWithTopics, RowFor, FilesResolve, IdsDistinct, OverridesAttached, Accepts,
         CountsResolve, ContentOf, DecodeRow, Preserves;
    var c := CompositeOf(t.dict, d).value;
    var dict, row := DictWithTopics(t.dict, s), RowFor(t.dict, stat, s);
    RowMeansSummary(t.dict, stat, s);
    var t1 := t.(dict := dict);
    GrowthKeepsMeaning(t, dict);
    CompositeGrows(t.dict, dict, d);
    UpsertMeaning(t1, d, row);
    FailuresAreSeparate(Upsert(t1, c, row), t.failures - {key});
    GrownThenPreserves(t, dict, Upsert(t1, c, row));
    FailuresPreserve(t, Upsert(t1, c, row), t.failures - {key});
  }

  /** Interning names first changes nothing about what is kept. */
  lemma GrownThenPreserves(t: Tables, dict: Dictionaries, u: Tables)
    requires WellFormed(t) && WellFormed(t.(dict := dict)) && Preserves(t.(dict := dict), u)
    requires Preserves(t, t.(dict := dict)) && forall d :: FileAt(t.(dict := dict), d) == FileAt(t, d)
    ensures Preserves(t, u)
  {
    hide WellFormed, FileAt, Preserves, LookupFile;
    forall d
      ensures LookupFile(t.(dict := dict), d).Some? <==> LookupFile(t, d).Some?
    {
      LookupIsFile(t, d);
      LookupIsFile(t.(dict := dict), d);
    }
    PreservesInTurn(t, t.(dict := dict), u);
  }

  /** Every file but `d` reads the same in `u` as in `t`. */
  ghost predicate OnlyAffects(t: Tables, u: Tables, d: Dims)
    requires WellFormed(t) && WellFormed(u)
  {
    forall e | e != d :: FileAt(u, e) == FileAt(t, e)
  }

  lemma SettleMeaning(t: Tables, d: Dims, key: string, stat: Stat, reading: Reading)
    requires WellFormed(t) && CompositeOf(t.dict, d).Some?
    ensures var u := Settle(t, CompositeOf(t.dict, d).value, key, stat, reading);
            && WellFormed(u) && AllGrow(t.dict, u.dict)
            && FileAt(u, d) == ExpectedFile(stat, reading)
            && FailureAt(u, key) == ExpectedFailure(reading)
            && (forall k | k != key :: FailureAt(u, k) == FailureAt(t, k))
            && OnlyAffects(t, u, d) && Preserves(t, u)
  {
    hide WellFormed, AllGrow, AllSound, FileAt, OnlyAffects, Preserves;
    match reading {
      case Broken(text) =>
        GrowsReflexive(t.dict);
        QuarantineMeaning(t, d, key, Unreadable(text));
      case Raising(_, text) =>
        GrowsReflexive(t.dict);
        QuarantineMeaning(t, d, key, Faulted(text));
      case Readable(s) =>
        if Accepts(s) {
          WriteMeaning(t, d, key, stat, s);
        } else {
          GrowsReflexive(t.dict);
          QuarantineMeaning(t, d, key, Refusal(s));
        }
    }
  }

  /**
   Applying a reading makes the file's entry a function of the object alone and touches no other
   file; the failure entry is set or cleared in the same commit.
   */
  lemma ApplyMeaning(t: Tables, d: Dims, key: string, stat: Stat, reading: Reading)
    requires WellFormed(t)
    ensures var u := ApplyReading(t, d, key, stat, reading);
            && WellFormed(u) && AllGrow(t.dict, u.dict) && CompositeOf(u.dict, d).Some?
            && FileAt(u, d) == ExpectedFile(stat, reading)
            && FailureAt(u, key) == ExpectedFailure(reading)
            && (forall k | k != key :: FailureAt(u, k) == FailureAt(t, k))
            && OnlyAffects(t, u, d) && Preserves(t, u)
  {
    hide AllGrow, AllSound, FileAt, ExpectedFile, Preserves;
    ResolveDimsSound(t.dict, d);
    var dict := ResolveDims(t.dict, d);
    GrowthKeepsMeaning(t, dict);
    var t1 := t.(dict := dict);
    SettleMeaning(t1, d, key, stat, reading);
    var u := ApplyReading(t, d, key, stat, reading);
    AllGrowTransitive(t.dict, dict, u.dict);
    CompositeStays(dict, u.dict, d);
    GrownThenPreserves(t, dict, u);
  }

  lemma CompositeStays(t: Dictionaries, u: Dictionaries, d: Dims)
    requires AllGrow(t, u) && CompositeOf(t, d).Some?
    ensures CompositeOf(u, d) == CompositeOf(t, d)
  {
  }

  lemma FailuresHaveDimsGrow(t: Tables, u: Tables, key: string)
    requires FailuresHaveDims(t) && AllGrow(t.dict, u.dict)
    requires forall k | k != key :: FailureAt(u, k) == FailureAt(t, k)
    requires key in u.failures && Resolve(key).Some? ==> CompositeOf(u.dict, Resolve(key).value).Some?
    ensures FailuresHaveDims(u)
  {
    forall k | k in u.failures && Resolve(k).Some?
      ensures CompositeOf(u.dict, Resolve(k).value).Some?
    {
      if k != key {
        assert FailureAt(t, k).Some?;
        CompositeStays(t.dict, u.dict, Resolve(k).value);
      }
    }
  }

  /** Applying a reading for a canonical key keeps the invariant and changes that key's state only. */
  lemma ApplyKeepsConsistent(t: Tables, key: string, stat: Stat, reading: Reading)
    requires Consistent(t) && Canonical(key) && Resolve(key).Some?
    ensures var u := ApplyReading(t, Resolve(key).value, key, stat, reading);
            && Consistent(u)
            && StateOf(u, key) == KeyState(ExpectedFile(stat, reading), ExpectedFailure(reading))
            && OnlyAffects(t, u, Resolve(key).value) && Preserves(t, u)
            && forall k | k != key :: FailureAt(u, k) == FailureAt(t, k)
  {
    hide Preserves;
    var d := Resolve(key).value;
    ResolveAcceptsIff(key);
    ApplyMeaning(t, d, key, stat, reading);
    var u := ApplyReading(t, d, key, stat, reading);
    FailuresHaveDimsGrow(t, u, key);
    forall e | FileAt(u, e).Some?
      ensures Valid(e) && Rebuild(e) !in u.failures
    {
      if e != d {
        assert FileAt(t, e).Some?;
        ParseRebuild(e);
        ParseRebuild(d);
        assert Rebuild(e) != key;
        assert FailureAt(u, Rebuild(e)) == FailureAt(t, Rebuild(e));
      } else {
        assert FailureAt(u, key).None?;
      }
    }
  }

  /** A quarantine, for whatever reason, leaves the key failed and without a row, and the invariant intact. */
  lemma QuarantineKeepsConsistent(t: Tables, key: string, why: Failure)
    requires Consistent(t) && Canonical(key) && Resolve(key).Some? && CompositeOf(t.dict, Resolve(key).value).Some?
    ensures var u := Quarantine(t, CompositeOf(t.dict, Resolve(key).value).value, key, why);
            Consistent(u) && StateOf(u, key) == KeyState(None, Some(why)) && OnlyAffects(t, u, Resolve(key).value)
  {
    hide AllSound, FileAt, CompositeOf;
    var d := Resolve(key).value;
    ResolveAcceptsIff(key);
    QuarantineMeaning(t, d, key, why);
    GrowsReflexive(t.dict);
    var u := Quarantine(t, CompositeOf(t.dict, d).value, key, why);
    FailuresHaveDimsGrow(t, u, key);
    forall e | FileAt(u, e).Some?
      ensures Valid(e) && Rebuild(e) !in u.failures
    {
      assert e != d && FileAt(t, e).Some?;
      ParseRebuild(e);
      ParseRebuild(d);
    }
  }

  /** What a change to one key leaves alone: every other canonical key. */
  lemma OtherKeysKeepState(t: Tables, u: Tables, key: string, k: string)
    requires WellFormed(t) && WellFormed(u)
    requires Canonical(key) && Resolve(key).Some? && Canonical(k) && k != key
    requires OnlyAffects(t, u, Resolve(key).value)
    requires FailureAt(u, k) == FailureAt(t, k)
    ensures StateOf(u, k) == StateOf(t, k)
  {
  }
}
