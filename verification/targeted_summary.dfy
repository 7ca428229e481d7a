/**
 The targeted MCAP summary reader: footer, summary-offset section, coalesced group ranges, against a
 plain scan of the whole summary section (MCAP format specification, "Summary Section", "Summary Offset
 Section", records Footer, Statistics and Summary Offset). Record bodies are read by a `Reader` that sees
 the declared payload and may leave padding; a reader that would run past it fails.
 */
module TargetedSummary {
  import opened Basics

  // ---- Bytes and records ----

  const FOOTER: byte := 0x02
  const SCHEMA: byte := 0x03
  const CHANNEL: byte := 0x04
  const STATISTICS: byte := 0x0B
  const SUMMARY_OFFSET: byte := 0x0E

  const MAGIC: seq<byte> := [0x89, 0x4D, 0x43, 0x41, 0x50, 0x30, 0x0D, 0x0A]
  const FOOTER_LEN := 37
  const FOOTER_PAYLOAD := 20
  const COALESCE_GAP := 4096
  const MAX_OFFSETS_LEN := 64 * 1024

  function LittleEndian(b: seq<byte>): nat
  {
    if b == [] then 0 else b[0] + 256 * LittleEndian(b[1..])
  }

  function Power256(k: nat): nat
  {
    if k == 0 then 1 else 256 * Power256(k - 1)
  }

  /** Byte `i` weighs 256 to the `i`: the sum, built from the other end. */
  function Weighted(b: seq<byte>): nat
  {
    if b == [] then 0 else Weighted(b[..|b| - 1]) + b[|b| - 1] * Power256(|b| - 1)
  }

  lemma {:induction false} LittleEndianWeighs(b: seq<byte>)
    ensures LittleEndian(b) == Weighted(b)
  {
    if b != [] {
      LittleEndianWeighs(b[1..]);
      WeightedTail(b);
    }
  }

  lemma {:induction false} WeightedTail(b: seq<byte>)
    requires b != []
    ensures Weighted(b) == b[0] + 256 * Weighted(b[1..])
  {
    var n := |b| - 1;
    if n > 0 {
      WeightedTail(b[..n]);
      assert b[..n][1..] == b[1..][..n - 1];
      WeighMore(b[n], n);
    }
  }

  lemma WeighMore(d: nat, n: nat)
    requires n > 0
    ensures d * Power256(n) == 256 * (d * Power256(n - 1))
  {
  }

  /** `n` in `k` bytes, least significant first, as a writer packs it. */
  function Packed(n: nat, k: nat): (b: seq<byte>)
    ensures |b| == k
  {
    if k == 0 then [] else [n % 256] + Packed(n / 256, k - 1)
  }

  lemma {:induction false} UnpackPacked(n: nat, k: nat)
    requires n < Power256(k)
    ensures LittleEndian(Packed(n, k)) == n
  {
    if k > 0 {
      UnpackPacked(n / 256, k - 1);
      assert Packed(n, k)[1..] == Packed(n / 256, k - 1);
    }
  }

  datatype Record =
    | Schema(id: nat, name: string, encoding: string)
    | Channel(id: nat, topic: string, schemaId: nat)
    | Statistics(messages: nat, schemaCount: nat, channelCount: nat, chunks: nat, start: nat, end: nat,
                 counts: map<nat, nat>)
    | Offset(group: byte, start: nat, length: nat)

  type Reader = (byte, seq<byte>) -> Option<Record>

  datatype Item = Item(op: byte, rec: Option<Record>)

  predicate Known(op: byte)
  {
    op == SCHEMA || op == CHANNEL || op == STATISTICS || op == SUMMARY_OFFSET
  }

  /** The opcodes the summary is made of. */
  predicate Wanted(op: byte)
  {
    op == SCHEMA || op == CHANNEL || op == STATISTICS
  }

  /** The length of the first framed record, if it is whole. */
  function FrameLen(buf: seq<byte>): (n: Option<nat>)
    ensures n.Some? ==> 9 <= n.value <= |buf|
  {
    if |buf| < 9 then None
    else
      var n := 9 + LittleEndian(buf[1..9]);
      if n > |buf| then None else Some(n)
  }

  /** One framed record: an unknown opcode is skipped over, a known one must be readable. */
  function ReadItem(frame: seq<byte>, rd: Reader): Option<Item>
    requires |frame| >= 9
  {
    if !Known(frame[0]) then Some(Item(frame[0], None))
    else
      match rd(frame[0], frame[9..])
      case None => None
      case Some(r) => Some(Item(frame[0], Some(r)))
  }

  function Records(buf: seq<byte>, rd: Reader): Option<seq<Item>>
    decreases |buf|
  {
    if buf == [] then Some([])
    else
      match FrameLen(buf)
      case None => None
      case Some(n) =>
        match ReadItem(buf[..n], rd)
        case None => None
        case Some(item) =>
          match Records(buf[n..], rd)
          case None => None
          case Some(rest) => Some([item] + rest)
  }

  /** `_iter_records`: `None` is the reader's refusal. */
  method IterRecords(buf: seq<byte>, rd: Reader) returns (r: Option<seq<Item>>)
    ensures r == Records(buf, rd)
  {
    hide ReadItem, FrameLen;
    var pos := 0;
    var items := [];
    assert Records(buf, rd).Some? ==> [] + Records(buf, rd).value == Records(buf, rd).value;
    assert buf[0..] == buf;
    while pos < |buf|
      invariant 0 <= pos <= |buf|
      invariant Records(buf[pos..], rd).None? ==> Records(buf, rd).None?
      invariant Records(buf[pos..], rd).Some? ==> Records(buf, rd) == Some(items + Records(buf[pos..], rd).value)
    {
      var n := FrameLen(buf[pos..]);
      if n.None? {
        return None;
      }
      var frame := buf[pos..][..n.value];
      var item := ReadItem(frame, rd);
      if item.None? {
        return None;
      }
      assert buf[pos..][n.value..] == buf[pos + n.value..];
      ghost var rest := Records(buf[pos + n.value..], rd);
      assert rest.Some? ==> items + ([item.value] + rest.value) == items + [item.value] + rest.value;
      items := items + [item.value];
      pos := pos + n.value;
    }
    assert buf[pos..] == [];
    assert items + [] == items;
    return Some(items);
  }

  // ---- Collecting the summary ----

  /** Dictionaries keyed by id, with the channels' insertion order. */
  datatype Parts = Parts(schemas: map<nat, Record>, channels: map<nat, Record>, order: seq<nat>, stats: Option<Record>)

  const NO_PARTS := Parts(map[], map[], [], None)

  function AddItem(p: Parts, item: Item): Parts
  {
    match item.rec
    case None => p
    case Some(r) =>
      if item.op == SCHEMA && r.Schema? then p.(schemas := p.schemas[r.id := r])
      else if item.op == CHANNEL && r.Channel? then
        p.(channels := p.channels[r.id := r], order := if r.id in p.channels then p.order else p.order + [r.id])
      else if item.op == STATISTICS && r.Statistics? then p.(stats := Some(r))
      else p
  }

  function AddAll(p: Parts, items: seq<Item>): Parts
    decreases |items|
  {
    if items == [] then p else AddAll(AddItem(p, items[0]), items[1..])
  }

  datatype ChannelInfo = ChannelInfo(id: nat, topic: string, schemaName: string, schemaEncoding: string, count: nat)

  datatype FileSummary = FileSummary(start: nat, end: nat, messages: nat, chunks: nat, channels: seq<ChannelInfo>)

  function InfoOf(p: Parts, stats: Record, id: nat): ChannelInfo
    requires id in p.channels && p.channels[id].Channel? && stats.Statistics?
  {
    var ch := p.channels[id];
    var known := ch.schemaId in p.schemas && p.schemas[ch.schemaId].Schema?;
    ChannelInfo(ch.id, ch.topic, if known then p.schemas[ch.schemaId].name else "",
                if known then p.schemas[ch.schemaId].encoding else "",
                if ch.id in stats.counts then stats.counts[ch.id] else 0)
  }

  function InfosOf(p: Parts, stats: Record, order: seq<nat>): seq<ChannelInfo>
    requires stats.Statistics?
  {
    if order == [] then []
    else (if order[0] in p.channels && p.channels[order[0]].Channel? then [InfoOf(p, stats, order[0])] else [])
         + InfosOf(p, stats, order[1..])
  }

  function BuildSummary(p: Parts): Option<FileSummary>
  {
    match p.stats
    case Some(Statistics(messages, _, _, chunks, start, end, _)) =>
      Some(FileSummary(start, end, messages, chunks, InfosOf(p, p.stats.value, p.order)))
    case _ => None
  }

  // ---- What a collected summary says ----

  predicate IsChannel(item: Item, id: nat)
  {
    item.op == CHANNEL && item.rec.Some? && item.rec.value.Channel? && item.rec.value.id == id
  }

  predicate IsSchema(item: Item, id: nat)
  {
    item.op == SCHEMA && item.rec.Some? && item.rec.value.Schema? && item.rec.value.id == id
  }

  predicate IsStatistics(item: Item)
  {
    item.op == STATISTICS && item.rec.Some? && item.rec.value.Statistics?
  }

  /** The last record of the section that satisfies `p`. */
  function Last(items: seq<Item>, p: Item -> bool): (r: Option<Record>)
  {
    if items == [] then None
    else
      var item := items[|items| - 1];
      if p(item) then item.rec else Last(items[..|items| - 1], p)
  }

  function LastChannel(items: seq<Item>, id: nat): Option<Record>
  {
    Last(items, (item: Item) => IsChannel(item, id))
  }

  function LastSchema(items: seq<Item>, id: nat): Option<Record>
  {
    Last(items, (item: Item) => IsSchema(item, id))
  }

  function LastStatistics(items: seq<Item>): Option<Record>
  {
    Last(items, IsStatistics)
  }

  function Lookup(m: map<nat, Record>, id: nat): Option<Record>
  {
    if id in m then Some(m[id]) else None
  }

  ghost predicate HoldsLast(p: Parts, items: seq<Item>)
  {
    && (forall id :: Lookup(p.channels, id) == LastChannel(items, id))
    && (forall id :: Lookup(p.schemas, id) == LastSchema(items, id))
    && p.stats == LastStatistics(items)
  }

  /** Each channel id once. */
  ghost predicate OrderOk(p: Parts)
  {
    && (forall i, j | 0 <= i < j < |p.order| :: p.order[i] != p.order[j])
    && (forall id :: id in p.order <==> id in p.channels)
  }

  lemma LastMore(items: seq<Item>, item: Item, p: Item -> bool)
    ensures Last(items + [item], p) == if p(item) then item.rec else Last(items, p)
  {
    assert (items + [item])[..|items|] == items;
  }

  lemma AddHoldsLast(p: Parts, items: seq<Item>, item: Item)
    requires HoldsLast(p, items)
    ensures HoldsLast(AddItem(p, item), items + [item])
  {
    hide Last;
    var q, all := AddItem(p, item), items + [item];
    forall id
      ensures Lookup(q.channels, id) == LastChannel(all, id) && Lookup(q.schemas, id) == LastSchema(all, id)
    {
      LastMore(items, item, (item: Item) => IsChannel(item, id));
      LastMore(items, item, (item: Item) => IsSchema(item, id));
      assert Lookup(p.channels, id) == LastChannel(items, id);
      assert Lookup(p.schemas, id) == LastSchema(items, id);
    }
    LastMore(items, item, IsStatistics);
  }

  lemma AddKeepsOrder(p: Parts, item: Item)
    requires OrderOk(p)
    ensures OrderOk(AddItem(p, item))
  {
  }

  lemma AddLast(p: Parts, items: seq<Item>, item: Item)
    ensures AddAll(p, items + [item]) == AddItem(AddAll(p, items), item)
  {
    AddAllConcat(p, items, [item]);
  }

  lemma {:induction false} CollectedIsLast(items: seq<Item>)
    ensures HoldsLast(AddAll(NO_PARTS, items), items) && OrderOk(AddAll(NO_PARTS, items))
  {
    hide HoldsLast, OrderOk, AddAll, AddItem;
    if items == [] {
      NothingCollected();
    } else {
      var front, item := items[..|items| - 1], items[|items| - 1];
      CollectedIsLast(front);
      assert items == front + [item];
      AddLast(NO_PARTS, front, item);
      AddHoldsLast(AddAll(NO_PARTS, front), front, item);
      AddKeepsOrder(AddAll(NO_PARTS, front), item);
    }
  }

  lemma NothingCollected()
    ensures HoldsLast(AddAll(NO_PARTS, []), []) && OrderOk(AddAll(NO_PARTS, []))
  {
  }

  /** `info` describes its channel as the section's last records do. */
  ghost predicate Describes(info: ChannelInfo, items: seq<Item>)
  {
    && LastChannel(items, info.id).Some? && LastStatistics(items).Some?
    && var ch, stats := LastChannel(items, info.id).value, LastStatistics(items).value;
       && ch.Channel? && stats.Statistics? && info.topic == ch.topic
       && info.count == (if info.id in stats.counts then stats.counts[info.id] else 0)
       && match LastSchema(items, ch.schemaId) {
            case Some(Schema(_, name, encoding)) => info.schemaName == name && info.schemaEncoding == encoding
            case _ => info.schemaName == "" && info.schemaEncoding == ""
          }
  }

  lemma {:induction false} LastSatisfies(items: seq<Item>, p: Item -> bool)
    ensures Last(items, p).Some? ==> exists item :: item in items && p(item) && item.rec == Last(items, p)
  {
    if items != [] && !p(items[|items| - 1]) {
      LastSatisfies(items[..|items| - 1], p);
    } else if items != [] {
      assert items[|items| - 1] in items;
    }
  }

  lemma LastChannelHasId(items: seq<Item>, id: nat)
    ensures LastChannel(items, id).Some? ==>
            LastChannel(items, id).value.Channel? && LastChannel(items, id).value.id == id
  {
    hide Last;
    LastSatisfies(items, (item: Item) => IsChannel(item, id));
  }

  lemma LastSchemaIsSchema(items: seq<Item>, id: nat)
    ensures LastSchema(items, id).Some? ==> LastSchema(items, id).value.Schema?
  {
    hide Last;
    LastSatisfies(items, (item: Item) => IsSchema(item, id));
  }

  lemma {:induction false} InfosInOrder(p: Parts, stats: Record, order: seq<nat>)
    requires stats.Statistics? && forall id | id in order :: id in p.channels && p.channels[id].Channel?
    ensures |InfosOf(p, stats, order)| == |order|
    ensures forall k | 0 <= k < |order| :: InfosOf(p, stats, order)[k] == InfoOf(p, stats, order[k])
  {
    hide InfoOf;
    if order != [] {
      assert order[0] in order;
      InfosInOrder(p, stats, order[1..]);
      var infos := InfosOf(p, stats, order);
      forall k | 0 <= k < |order|
        ensures infos[k] == InfoOf(p, stats, order[k])
      {
        assert k > 0 ==> infos[k] == InfosOf(p, stats, order[1..])[k - 1];
      }
    }
  }

  lemma InfoDescribes(p: Parts, items: seq<Item>, id: nat)
    requires HoldsLast(p, items) && id in p.channels && p.stats.Some? && p.stats.value.Statistics?
    ensures p.channels[id].Channel? && InfoOf(p, p.stats.value, id).id == id
    ensures Describes(InfoOf(p, p.stats.value, id), items)
  {
    hide LastChannel, LastSchema, LastStatistics;
    LastChannelHasId(items, id);
    assert Lookup(p.channels, id) == LastChannel(items, id);
    var ch := p.channels[id];
    LastSchemaIsSchema(items, ch.schemaId);
    assert Lookup(p.schemas, ch.schemaId) == LastSchema(items, ch.schemaId);
  }

  /**
   A summary lists every channel of the section exactly once, as its last channel record, its last schema
   record and the last statistics record describe it; the totals are those of the last statistics record.
   */
  lemma SummaryMeans(items: seq<Item>)
    ensures var s := BuildSummary(AddAll(NO_PARTS, items));
            && (s.Some? <==> LastStatistics(items).Some?)
            && (s.Some? ==>
                  && ListsEachOnce(s.value.channels, items)
                  && LastStatistics(items).value.Statistics?
                  && var st := LastStatistics(items).value;
                     s.value == FileSummary(st.start, st.end, st.messages, st.chunks, s.value.channels))
  {
    hide AddAll, LastChannel, LastSchema, Last, InfosOf, InfoOf;
    CollectedIsLast(items);
    LastSatisfies(items, IsStatistics);
    var p := AddAll(NO_PARTS, items);
    if p.stats.Some? {
      EachOnce(p, items);
    }
  }

  ghost predicate ListsEachOnce(infos: seq<ChannelInfo>, items: seq<Item>)
  {
    && (forall i, j | 0 <= i < j < |infos| :: infos[i].id != infos[j].id)
    && (forall i | 0 <= i < |infos| :: Describes(infos[i], items))
    && (forall id | LastChannel(items, id).Some? :: exists i :: 0 <= i < |infos| && infos[i].id == id)
  }

  lemma EachOnce(p: Parts, items: seq<Item>)
    requires HoldsLast(p, items) && OrderOk(p) && p.stats.Some? && p.stats.value.Statistics?
    ensures ListsEachOnce(InfosOf(p, p.stats.value, p.order), items)
  {
    hide LastChannel, LastSchema, LastStatistics, Describes, InfoOf, InfosOf, HoldsLast;
    forall id | id in p.order
      ensures p.channels[id].Channel? && InfoOf(p, p.stats.value, id).id == id
      ensures Describes(InfoOf(p, p.stats.value, id), items)
    {
      InfoDescribes(p, items, id);
    }
    InfosInOrder(p, p.stats.value, p.order);
    var infos := InfosOf(p, p.stats.value, p.order);
    forall id | LastChannel(items, id).Some?
      ensures exists i :: 0 <= i < |infos| && infos[i].id == id
    {
      ChannelIsOrdered(p, items, id);
      var i :| 0 <= i < |p.order| && p.order[i] == id;
      assert infos[i].id == id;
    }
  }

  lemma ChannelIsOrdered(p: Parts, items: seq<Item>, id: nat)
    requires HoldsLast(p, items) && OrderOk(p) && LastChannel(items, id).Some?
    ensures id in p.order
  {
    assert Lookup(p.channels, id) == LastChannel(items, id);
  }

  /** Fewer records than the statistics claim: something is missing. */
  predicate Short(p: Parts)
  {
    p.stats.Some? && p.stats.value.Statistics? &&
    (|p.channels| < p.stats.value.channelCount || |p.schemas| < p.stats.value.schemaCount)
  }

  ghost function ChannelIds(items: seq<Item>): set<nat>
  {
    set item | item in items && item.rec.Some? && item.rec.value.Channel? && item.op == CHANNEL :: item.rec.value.id
  }

  ghost function SchemaIds(items: seq<Item>): set<nat>
  {
    set item | item in items && item.rec.Some? && item.rec.value.Schema? && item.op == SCHEMA :: item.rec.value.id
  }

  lemma {:induction false} LastExists(items: seq<Item>, p: Item -> bool, item: Item)
    requires item in items && p(item) && forall x | p(x) :: x.rec.Some?
    ensures Last(items, p).Some?
  {
    if !p(items[|items| - 1]) {
      LastExists(items[..|items| - 1], p, item);
    }
  }

  lemma HasChannel(items: seq<Item>, id: nat)
    ensures LastChannel(items, id).Some? <==> id in ChannelIds(items)
  {
    hide Last;
    LastSatisfies(items, (item: Item) => IsChannel(item, id));
    if id in ChannelIds(items) {
      var item :| item in items && IsChannel(item, id);
      LastExists(items, (item: Item) => IsChannel(item, id), item);
    }
  }

  lemma HasSchema(items: seq<Item>, id: nat)
    ensures LastSchema(items, id).Some? <==> id in SchemaIds(items)
  {
    hide Last;
    LastSatisfies(items, (item: Item) => IsSchema(item, id));
    if id in SchemaIds(items) {
      var item :| item in items && IsSchema(item, id);
      LastExists(items, (item: Item) => IsSchema(item, id), item);
    }
  }

  /** The dictionaries hold one entry for each id in the section. */
  lemma CollectedIds(items: seq<Item>)
    ensures var p := AddAll(NO_PARTS, items);
            && p.channels.Keys == ChannelIds(items) && |p.channels| == |ChannelIds(items)|
            && p.schemas.Keys == SchemaIds(items) && |p.schemas| == |SchemaIds(items)|
            && p.stats == LastStatistics(items)
  {
    hide AddAll, LastChannel, LastSchema, LastStatistics, OrderOk, ChannelIds, SchemaIds;
    CollectedIsLast(items);
    var p := AddAll(NO_PARTS, items);
    forall id
      ensures id in p.channels <==> id in ChannelIds(items)
      ensures id in p.schemas <==> id in SchemaIds(items)
    {
      assert Lookup(p.channels, id) == LastChannel(items, id);
      assert Lookup(p.schemas, id) == LastSchema(items, id);
      HasChannel(items, id);
      HasSchema(items, id);
    }
    assert p.channels.Keys == ChannelIds(items) && p.schemas.Keys == SchemaIds(items);
  }

  /** The section has statistics and at least the channels and schemas they claim. */
  ghost predicate HasAllClaimed(items: seq<Item>)
  {
    && LastStatistics(items).Some? && LastStatistics(items).value.Statistics?
    && LastStatistics(items).value.channelCount <= |ChannelIds(items)|
    && LastStatistics(items).value.schemaCount <= |SchemaIds(items)|
  }

  /** `s` says what the section says: the totals of its statistics, and every channel once, as last described. */
  ghost predicate Summarizes(s: FileSummary, items: seq<Item>)
    requires HasAllClaimed(items)
  {
    var st := LastStatistics(items).value;
    && s == FileSummary(st.start, st.end, st.messages, st.chunks, s.channels)
    && ListsEachOnce(s.channels, items)
  }

  datatype Outcome = Found(summary: FileSummary) | Unavailable | NoSummary

  function Verdict(p: Parts): Outcome
  {
    match BuildSummary(p)
    case None => Unavailable
    case Some(s) => if Short(p) then Unavailable else Found(s)
  }

  /** A collected section gives its summary exactly when nothing claimed is missing. */
  lemma VerdictOnSection(items: seq<Item>)
    ensures var out := Verdict(AddAll(NO_PARTS, items));
            && (out.Found? <==> HasAllClaimed(items)) && (out.Found? || out == Unavailable)
            && (out.Found? ==> Summarizes(out.summary, items))
  {
    hide AddAll, ChannelIds, SchemaIds, LastStatistics, ListsEachOnce;
    CollectedIds(items);
    SummaryMeans(items);
  }

  // ---- The footer and the groups ----

  datatype Footer = Footer(start: nat, offsets: nat)

  /** The footer of a file that ends in a footer record and the magic. */
  function FooterOf(file: seq<byte>): Option<Footer>
  {
    if |file| < FOOTER_LEN || file[|file| - 8..] != MAGIC then None
    else
      var f := file[|file| - FOOTER_LEN..|file| - 8];
      if f[0] != FOOTER || LittleEndian(f[1..9]) != FOOTER_PAYLOAD then None
      else Some(Footer(LittleEndian(f[9..17]), LittleEndian(f[17..25])))
  }

  /** The summary-offset section is where the footer says, ends at the footer, and is not huge. */
  predicate OffsetsInBounds(file: seq<byte>, f: Footer)
  {
    && f.offsets != 0 && f.start <= f.offsets < |file| - FOOTER_LEN
    && |file| - FOOTER_LEN - f.offsets <= MAX_OFFSETS_LEN
  }

  type Groups = map<byte, (nat, nat)>

  function AddGroup(g: Groups, item: Item): Groups
  {
    match item.rec
    case Some(Offset(group, start, length)) => if item.op == SUMMARY_OFFSET then g[group := (start, length)] else g
    case _ => g
  }

  function GroupsOf(g: Groups, items: seq<Item>): Groups
    decreases |items|
  {
    if items == [] then g else GroupsOf(AddGroup(g, items[0]), items[1..])
  }

  predicate Before(a: (nat, nat), b: (nat, nat))
  {
    a.0 < b.0 || (a.0 == b.0 && a.1 <= b.1)
  }

  function InsertGroup(x: (nat, nat), s: seq<(nat, nat)>): seq<(nat, nat)>
  {
    if s == [] || Before(x, s[0]) then [x] + s else [s[0]] + InsertGroup(x, s[1..])
  }

  function AddWanted(g: Groups, op: byte, s: seq<(nat, nat)>): seq<(nat, nat)>
  {
    if op in g then InsertGroup(g[op], s) else s
  }

  /** The wanted groups, sorted by position. */
  function WantedGroups(g: Groups): seq<(nat, nat)>
  {
    AddWanted(g, SCHEMA, AddWanted(g, CHANNEL, AddWanted(g, STATISTICS, [])))
  }

  // ---- Coalescing ----

  datatype Range = Range(lo: nat, hi: nat)

  function MergeOne(merged: seq<Range>, start: nat, length: nat): seq<Range>
  {
    if merged != [] && start <= merged[|merged| - 1].hi + COALESCE_GAP then
      var last := merged[|merged| - 1];
      merged[..|merged| - 1] + [Range(last.lo, if last.hi < start + length then start + length else last.hi)]
    else merged + [Range(start, start + length)]
  }

  /** The merged ranges of the groups, or `None` if one leaves the summary section. */
  function Merge(want: seq<(nat, nat)>, f: Footer): Option<seq<Range>>
  {
    if want == [] then Some([])
    else
      var n := |want| - 1;
      match Merge(want[..n], f)
      case None => None
      case Some(merged) =>
        if f.start <= want[n].0 && want[n].0 + want[n].1 <= f.offsets then Some(MergeOne(merged, want[n].0, want[n].1))
        else None
  }

  function Slice(file: seq<byte>, r: Range): seq<byte>
  {
    if r.lo <= r.hi <= |file| then file[r.lo..r.hi] else []
  }

  /** Scanning the ranges one after another into the same dictionaries. */
  function ScanRanges(file: seq<byte>, ranges: seq<Range>, p: Parts, rd: Reader): Option<Parts>
  {
    if ranges == [] then Some(p)
    else
      match Records(Slice(file, ranges[0]), rd)
      case None => None
      case Some(items) => ScanRanges(file, ranges[1..], AddAll(p, items), rd)
  }

  /** What a targeted read gives, said without any tail buffer. */
  function Targeted(file: seq<byte>, rd: Reader): Outcome
  {
    match FooterOf(file)
    case None => Unavailable
    case Some(f) =>
      if f.start == 0 then NoSummary
      else if !OffsetsInBounds(file, f) then Unavailable
      else
        match Records(file[f.offsets..|file| - FOOTER_LEN], rd)
        case None => Unavailable
        case Some(offsets) => TargetedGroups(file, f, GroupsOf(map[], offsets), rd)
  }

  function TargetedGroups(file: seq<byte>, f: Footer, g: Groups, rd: Reader): Outcome
  {
    if STATISTICS !in g then Unavailable
    else
      match Merge(WantedGroups(g), f)
      case None => Unavailable
      case Some(ranges) =>
        match ScanRanges(file, ranges, NO_PARTS, rd)
        case None => Unavailable
        case Some(p) => Verdict(p)
  }

  // ---- What coalescing keeps ----

  predicate Sorted(want: seq<(nat, nat)>)
  {
    forall i, j | 0 <= i < j < |want| :: want[i].0 <= want[j].0
  }

  lemma {:induction false} InsertElements(x: (nat, nat), s: seq<(nat, nat)>)
    ensures |InsertGroup(x, s)| == |s| + 1
    ensures forall y :: y in InsertGroup(x, s) <==> y == x || y in s
  {
    if s != [] && !Before(x, s[0]) {
      InsertElements(x, s[1..]);
    }
  }

  lemma {:induction false} InsertSorted(x: (nat, nat), s: seq<(nat, nat)>)
    requires Sorted(s)
    ensures Sorted(InsertGroup(x, s))
  {
    if s != [] && !Before(x, s[0]) {
      InsertSorted(x, s[1..]);
      InsertElements(x, s[1..]);
      var r := InsertGroup(x, s[1..]);
      forall k | 0 <= k < |r|
        ensures s[0].0 <= r[k].0
      {
        assert r[k] == x || r[k] in s[1..];
      }
    }
  }

  /** The wanted groups are exactly the listed ones of the three opcodes, in file order. */
  lemma WantedGroupsOk(g: Groups)
    ensures Sorted(WantedGroups(g)) && |WantedGroups(g)| <= 3
    ensures forall op | op in g && Wanted(op) :: g[op] in WantedGroups(g)
    ensures forall x | x in WantedGroups(g) :: exists op :: op in g && Wanted(op) && g[op] == x
  {
    var a := AddWanted(g, STATISTICS, []);
    AddKeeps(g, STATISTICS, []);
    AddKeeps(g, CHANNEL, a);
    AddKeeps(g, SCHEMA, AddWanted(g, CHANNEL, a));
  }

  lemma AddKeeps(g: Groups, op: byte, s: seq<(nat, nat)>)
    requires Sorted(s)
    ensures var t := AddWanted(g, op, s);
            && Sorted(t) && |t| <= |s| + 1
            && (forall x :: x in t <==> x in s || (op in g && g[op] == x))
  {
    if op in g {
      InsertSorted(g[op], s);
      InsertElements(g[op], s);
    }
  }

  /** A boundary of a range is a boundary of some group. */
  ghost predicate FromGroups(r: Range, want: seq<(nat, nat)>)
  {
    r.lo <= r.hi && StartsGroup(r.lo, want) && EndsGroup(r.hi, want)
  }

  ghost predicate StartsGroup(at: nat, want: seq<(nat, nat)>)
  {
    exists i :: 0 <= i < |want| && want[i].0 == at
  }

  ghost predicate EndsGroup(at: nat, want: seq<(nat, nat)>)
  {
    exists i :: 0 <= i < |want| && want[i].0 + want[i].1 == at
  }

  ghost predicate Within(x: (nat, nat), ranges: seq<Range>)
  {
    exists k :: 0 <= k < |ranges| && ranges[k].lo <= x.0 && x.0 + x.1 <= ranges[k].hi
  }

  ghost predicate Apart(ranges: seq<Range>)
  {
    forall i, j | 0 <= i < j < |ranges| :: ranges[i].hi < ranges[j].lo
  }

  ghost predicate MergedOk(ranges: seq<Range>, want: seq<(nat, nat)>, f: Footer)
  {
    && Apart(ranges)
    && (forall k | 0 <= k < |ranges| ::
          FromGroups(ranges[k], want) && f.start <= ranges[k].lo && ranges[k].hi <= f.offsets)
    && (forall i | 0 <= i < |want| :: Within(want[i], ranges))
  }

  lemma BoundsMore(want: seq<(nat, nat)>, x: (nat, nat), at: nat)
    ensures StartsGroup(at, want) ==> StartsGroup(at, want + [x])
    ensures EndsGroup(at, want) ==> EndsGroup(at, want + [x])
    ensures StartsGroup(x.0, want + [x]) && EndsGroup(x.0 + x.1, want + [x])
  {
    var all := want + [x];
    assert all[|want|] == x;
    if StartsGroup(at, want) {
      var i :| 0 <= i < |want| && want[i].0 == at;
      assert all[i].0 == at;
    }
    if EndsGroup(at, want) {
      var i :| 0 <= i < |want| && want[i].0 + want[i].1 == at;
      assert all[i].0 + all[i].1 == at;
    }
  }

  lemma FromMore(r: Range, want: seq<(nat, nat)>, x: (nat, nat))
    requires FromGroups(r, want)
    ensures FromGroups(r, want + [x])
  {
    hide StartsGroup, EndsGroup;
    BoundsMore(want, x, r.lo);
    BoundsMore(want, x, r.hi);
  }

  /** Widening the last range, or starting a new one, keeps the ranges apart and every group inside one. */
  lemma MergeOneOk(ranges: seq<Range>, want: seq<(nat, nat)>, x: (nat, nat), f: Footer)
    requires MergedOk(ranges, want, f) && f.start <= x.0 && x.0 + x.1 <= f.offsets
    requires forall i | 0 <= i < |want| :: want[i].0 <= x.0
    ensures MergedOk(MergeOne(ranges, x.0, x.1), want + [x], f)
  {
    hide FromGroups, Within;
    var next, all := MergeOne(ranges, x.0, x.1), want + [x];
    var n := |next| - 1;
    if ranges != [] {
      LastIsRange(ranges, want, f);
    }
    forall k | 0 <= k < |next|
      ensures FromGroups(next[k], all) && f.start <= next[k].lo && next[k].hi <= f.offsets
    {
      if k < n {
        FromMore(ranges[k], want, x);
      } else {
        LastFrom(ranges, want, x, f);
      }
    }
    forall i | 0 <= i < |all|
      ensures Within(all[i], next)
    {
      if i < |want| {
        WithinMore(want[i], ranges, x);
      } else {
        NewWithin(ranges, want, x, f);
      }
    }
  }

  lemma LastFrom(ranges: seq<Range>, want: seq<(nat, nat)>, x: (nat, nat), f: Footer)
    requires MergedOk(ranges, want, f) && f.start <= x.0 && x.0 + x.1 <= f.offsets
    ensures var next := MergeOne(ranges, x.0, x.1);
            var r := next[|next| - 1];
            FromGroups(r, want + [x]) && f.start <= r.lo && r.hi <= f.offsets
  {
    hide StartsGroup, EndsGroup, Within, Apart;
    BoundsMore(want, x, 0);
    if ranges != [] {
      FromMore(ranges[|ranges| - 1], want, x);
    }
  }

  lemma WithinMore(y: (nat, nat), ranges: seq<Range>, x: (nat, nat))
    requires Within(y, ranges)
    ensures Within(y, MergeOne(ranges, x.0, x.1))
  {
    var k :| 0 <= k < |ranges| && ranges[k].lo <= y.0 && y.0 + y.1 <= ranges[k].hi;
    var next := MergeOne(ranges, x.0, x.1);
    assert next[k].lo <= y.0 && y.0 + y.1 <= next[k].hi;
  }

  lemma StartsBefore(r: Range, want: seq<(nat, nat)>, x: (nat, nat))
    requires FromGroups(r, want) && forall i | 0 <= i < |want| :: want[i].0 <= x.0
    ensures r.lo <= x.0
  {
    hide EndsGroup;
  }

  lemma NewWithin(ranges: seq<Range>, want: seq<(nat, nat)>, x: (nat, nat), f: Footer)
    requires MergedOk(ranges, want, f) && forall i | 0 <= i < |want| :: want[i].0 <= x.0
    ensures Within(x, MergeOne(ranges, x.0, x.1))
  {
    hide FromGroups, Apart;
    var next := MergeOne(ranges, x.0, x.1);
    if ranges != [] {
      StartsBefore(ranges[|ranges| - 1], want, x);
    }
    assert next[|next| - 1].lo <= x.0 && x.0 + x.1 <= next[|next| - 1].hi;
  }

  lemma {:induction false} MergeOk(want: seq<(nat, nat)>, f: Footer)
    requires Sorted(want) && Merge(want, f).Some?
    ensures MergedOk(Merge(want, f).value, want, f)
  {
    hide MergedOk, MergeOne;
    if want == [] {
      NothingMerged(f);
    } else {
      var n := |want| - 1;
      MergeOk(want[..n], f);
      assert want == want[..n] + [want[n]];
      MergeOneOk(Merge(want[..n], f).value, want[..n], want[n], f);
    }
  }

  lemma NothingMerged(f: Footer)
    ensures MergedOk([], [], f)
  {
  }

  // ---- How much is read ----

  function TotalLength(ranges: seq<Range>): nat
  {
    if ranges == [] then 0
    else TotalLength(ranges[..|ranges| - 1]) +
         var r := ranges[|ranges| - 1]; if r.lo <= r.hi then r.hi - r.lo else 0
  }

  function GroupLength(want: seq<(nat, nat)>): nat
  {
    if want == [] then 0 else GroupLength(want[..|want| - 1]) + want[|want| - 1].1
  }

  lemma TotalMore(ranges: seq<Range>, r: Range)
    requires r.lo <= r.hi
    ensures TotalLength(ranges + [r]) == TotalLength(ranges) + r.hi - r.lo
  {
    assert (ranges + [r])[..|ranges|] == ranges;
  }

  /** One more group: its own length, and a gap if it is merged. */
  lemma MergeOneBounded(ranges: seq<Range>, start: nat, length: nat)
    requires ranges != [] ==> ranges[|ranges| - 1].lo <= ranges[|ranges| - 1].hi
    ensures var merged := MergeOne(ranges, start, length);
            || (|merged| == |ranges| && TotalLength(merged) <= TotalLength(ranges) + length + COALESCE_GAP)
            || (|merged| == |ranges| + 1 && TotalLength(merged) == TotalLength(ranges) + length)
  {
    hide TotalLength;
    if ranges != [] && start <= ranges[|ranges| - 1].hi + COALESCE_GAP {
      var front, last := ranges[..|ranges| - 1], ranges[|ranges| - 1];
      assert ranges == front + [last];
      TotalMore(front, last);
      TotalMore(front, Range(last.lo, if last.hi < start + length then start + length else last.hi));
    } else {
      TotalMore(ranges, Range(start, start + length));
    }
  }

  /** The ranges cover the groups plus at most one coalescing gap for each group merged into another. */
  lemma {:induction false} MergeIsBounded(want: seq<(nat, nat)>, f: Footer)
    requires Sorted(want) && Merge(want, f).Some?
    ensures var ranges := Merge(want, f).value;
            && |ranges| <= |want|
            && TotalLength(ranges) <= GroupLength(want) + COALESCE_GAP * (|want| - |ranges|)
  {
    hide MergedOk, MergeOne, TotalLength;
    if want == [] {
      NoReads();
    } else {
      var n := |want| - 1;
      MergeIsBounded(want[..n], f);
      MergeOk(want[..n], f);
      var ranges := Merge(want[..n], f).value;
      if ranges != [] {
        LastIsRange(ranges, want[..n], f);
      }
      MergeOneBounded(ranges, want[n].0, want[n].1);
    }
  }

  lemma LastIsRange(ranges: seq<Range>, want: seq<(nat, nat)>, f: Footer)
    requires MergedOk(ranges, want, f) && ranges != []
    ensures ranges[|ranges| - 1].lo <= ranges[|ranges| - 1].hi
  {
    assert FromGroups(ranges[|ranges| - 1], want);
  }

  // ---- Record boundaries ----

  /** `p` is a record boundary of `buf`: a whole number of framed records come before it. */
  ghost predicate Aligned(buf: seq<byte>, p: nat)
    decreases |buf|
  {
    p == 0 || (FrameLen(buf).Some? && FrameLen(buf).value <= p <= |buf| &&
               Aligned(buf[FrameLen(buf).value..], p - FrameLen(buf).value))
  }

  lemma FrameLenPrefix(buf: seq<byte>, p: nat)
    requires FrameLen(buf).Some? && FrameLen(buf).value <= p <= |buf|
    ensures FrameLen(buf[..p]) == FrameLen(buf)
  {
    assert buf[..p][1..9] == buf[1..9];
  }

  /** Cutting at a boundary cuts the records. */
  lemma {:induction false} SplitRecords(buf: seq<byte>, p: nat, rd: Reader)
    requires Aligned(buf, p) && Records(buf, rd).Some? && p <= |buf|
    ensures Records(buf[..p], rd).Some? && Records(buf[p..], rd).Some?
    ensures Records(buf, rd).value == Records(buf[..p], rd).value + Records(buf[p..], rd).value
    decreases |buf|
  {
    hide ReadItem, FrameLen;
    if p == 0 {
      assert buf[..0] == [] && buf[0..] == buf;
    } else {
      var n := FrameLen(buf).value;
      FrameLenPrefix(buf, p);
      SplitRecords(buf[n..], p - n, rd);
      assert buf[..p][..n] == buf[..n] && buf[..p][n..] == buf[n..][..p - n] && buf[n..][p - n..] == buf[p..];
    }
  }

  /** Boundaries of a buffer behind another boundary. */
  lemma {:induction false} AlignedRest(buf: seq<byte>, p: nat, q: nat)
    requires Aligned(buf, p) && Aligned(buf, q) && p <= q <= |buf|
    ensures Aligned(buf[p..], q - p)
    decreases |buf|
  {
    hide FrameLen;
    if p == 0 {
      assert buf[0..] == buf;
    } else {
      var n := FrameLen(buf).value;
      AlignedRest(buf[n..], p - n, q - n);
      assert buf[n..][p - n..] == buf[p..];
    }
  }

  lemma {:induction false} AlignedCompose(buf: seq<byte>, p: nat, q: nat)
    requires Aligned(buf, p) && p <= |buf| && Aligned(buf[p..], q)
    ensures Aligned(buf, p + q)
    decreases |buf|
  {
    hide FrameLen;
    if p == 0 {
      assert buf[0..] == buf;
    } else {
      var n := FrameLen(buf).value;
      assert buf[n..][p - n..] == buf[p..];
      AlignedCompose(buf[n..], p - n, q);
      AlignedInside(buf[p..], q);
    }
  }

  lemma {:induction false} AlignedInside(buf: seq<byte>, p: nat)
    requires Aligned(buf, p)
    ensures p <= |buf|
  {
  }

  lemma {:induction false} AddAllConcat(p: Parts, a: seq<Item>, b: seq<Item>)
    ensures AddAll(p, a + b) == AddAll(AddAll(p, a), b)
    decreases |a|
  {
    hide AddItem;
    if a == [] {
      assert a + b == b;
    } else {
      assert (a + b)[1..] == a[1..] + b;
      AddAllConcat(AddItem(p, a[0]), a[1..], b);
    }
  }

  /** No record that starts in `[from, to)` has a wanted opcode. */
  ghost predicate NothingWanted(buf: seq<byte>, from: nat, to: nat)
  {
    forall q | from <= q < to && q < |buf| && Aligned(buf, q) :: !Wanted(buf[q])
  }

  /** Unwanted records leave the dictionaries alone. */
  lemma {:induction false} UnwantedAddsNothing(buf: seq<byte>, rd: Reader, p: Parts)
    requires Records(buf, rd).Some? && NothingWanted(buf, 0, |buf|)
    ensures AddAll(p, Records(buf, rd).value) == p
    decreases |buf|
  {
    if buf != [] {
      var n := FrameLen(buf).value;
      assert Aligned(buf, 0) && !Wanted(buf[0]);
      var rest := buf[n..];
      forall q | 0 <= q < |rest| && Aligned(rest, q)
        ensures !Wanted(rest[q])
      {
        assert Aligned(buf, n + q);
      }
      UnwantedAddsNothing(rest, rd, p);
      var items := Records(buf, rd).value;
      assert items[1..] == Records(rest, rd).value;
      assert AddItem(p, items[0]) == p;
    }
  }

  // ---- Targeted equals linear ----

  /** The group of each wanted opcode starts and ends at record boundaries of the section. */
  ghost predicate GroupsAligned(section: seq<byte>, base: nat, g: Groups)
  {
    forall op | op in g && Wanted(op) ::
      && base <= g[op].0 && g[op].0 + g[op].1 <= base + |section|
      && Aligned(section, g[op].0 - base) && Aligned(section, g[op].0 + g[op].1 - base)
  }

  /** Every wanted record of the section lies in the group listed for its opcode. */
  ghost predicate GroupsComplete(section: seq<byte>, base: nat, g: Groups)
  {
    forall q | 0 <= q < |section| && Aligned(section, q) && Wanted(section[q]) ::
      section[q] in g && g[section[q]].0 <= base + q < g[section[q]].0 + g[section[q]].1
  }

  lemma {:induction false} BoundariesAligned(section: seq<byte>, f: Footer, g: Groups, ranges: seq<Range>, k: nat)
    requires GroupsAligned(section, f.start, g) && MergedOk(ranges, WantedGroups(g), f) && k < |ranges|
    ensures f.start <= ranges[k].lo <= ranges[k].hi <= f.start + |section|
    ensures Aligned(section, ranges[k].lo - f.start) && Aligned(section, ranges[k].hi - f.start)
  {
    hide Aligned, Wanted, WantedGroups, Apart, Within;
    WantedGroupsOk(g);
    var want := WantedGroups(g);
    assert FromGroups(ranges[k], want);
    var i :| 0 <= i < |want| && want[i].0 == ranges[k].lo;
    var j :| 0 <= j < |want| && want[j].0 + want[j].1 == ranges[k].hi;
    assert want[i] in want && want[j] in want;
    var op :| op in g && Wanted(op) && g[op] == want[i];
    var op2 :| op2 in g && Wanted(op2) && g[op2] == want[j];
  }

  /** Outside the ranges nothing is wanted. */
  lemma OutsideUnwanted(section: seq<byte>, f: Footer, g: Groups, ranges: seq<Range>, q: nat)
    requires GroupsComplete(section, f.start, g) && MergedOk(ranges, WantedGroups(g), f)
    requires q < |section| && Aligned(section, q)
    requires forall k | 0 <= k < |ranges| :: !(ranges[k].lo <= f.start + q < ranges[k].hi)
    ensures !Wanted(section[q])
  {
    hide Aligned, WantedGroups, Apart, FromGroups;
    WantedGroupsOk(g);
  }

  /** A gap between ranges: nothing in it is wanted, so scanning it adds nothing. */
  lemma GapAddsNothing(section: seq<byte>, from: nat, to: nat, rd: Reader, p: Parts)
    requires from <= to <= |section| && Aligned(section, from) && Aligned(section, to)
    requires Records(section, rd).Some? && NothingWanted(section, from, to)
    ensures Records(section[from..to], rd).Some? && AddAll(p, Records(section[from..to], rd).value) == p
  {
    hide Records, AddAll;
    SplitRecords(section, to, rd);
    AlignedPrefix(section, from, to);
    SplitRecords(section[..to], from, rd);
    assert section[..to][from..] == section[from..to];
    var gap := section[from..to];
    forall q | 0 <= q < |gap| && Aligned(gap, q)
      ensures !Wanted(gap[q])
    {
      SliceBoundary(section, from, to, q);
    }
    UnwantedAddsNothing(gap, rd, p);
  }

  /** A boundary stays one when the buffer is cut at a later boundary. */
  lemma {:induction false} AlignedPrefix(buf: seq<byte>, p: nat, q: nat)
    requires Aligned(buf, p) && Aligned(buf, q) && p <= q <= |buf|
    ensures Aligned(buf[..q], p)
    decreases |buf|
  {
    if p > 0 {
      var n := FrameLen(buf).value;
      FrameLenPrefix(buf, q);
      AlignedPrefix(buf[n..], p - n, q - n);
      assert buf[..q][n..] == buf[n..][..q - n];
    }
  }

  /** A boundary of a prefix is a boundary of the whole. */
  lemma {:induction false} AlignedExtend(buf: seq<byte>, q: nat, p: nat)
    requires q <= |buf| && Aligned(buf[..q], p)
    ensures Aligned(buf, p)
    decreases |buf|
  {
    if p > 0 {
      var n := FrameLen(buf[..q]).value;
      assert buf[..q][1..9] == buf[1..9];
      assert buf[..q][n..] == buf[n..][..q - n];
      AlignedExtend(buf[n..], q - n, p - n);
    }
  }

  lemma SliceBoundary(section: seq<byte>, from: nat, to: nat, q: nat)
    requires from <= to <= |section| && Aligned(section, from) && Aligned(section[from..to], q)
    ensures Aligned(section, from + q)
  {
    hide Aligned;
    assert section[from..to] == section[from..][..to - from];
    AlignedExtend(section[from..], to - from, q);
    AlignedCompose(section, from, q);
  }

  lemma {:induction false} EndIsAligned(buf: seq<byte>, rd: Reader)
    requires Records(buf, rd).Some?
    ensures Aligned(buf, |buf|)
    decreases |buf|
  {
    hide ReadItem;
    if buf != [] {
      EndIsAligned(buf[FrameLen(buf).value..], rd);
    }
  }

  /** The position in the section where the scan stands before range `k`. */
  function Reached(ranges: seq<Range>, k: nat, base: nat): int
    requires k <= |ranges|
  {
    if k == 0 then 0 else ranges[k - 1].hi - base
  }

  lemma BetweenRanges(section: seq<byte>, f: Footer, g: Groups, ranges: seq<Range>, k: nat, from: nat, to: nat)
    requires GroupsComplete(section, f.start, g) && MergedOk(ranges, WantedGroups(g), f) && k <= |ranges|
    requires from == Reached(ranges, k, f.start) && to <= |section|
    requires k < |ranges| ==> f.start + to <= ranges[k].lo
    ensures NothingWanted(section, from, to)
  {
    hide Aligned, WantedGroups, FromGroups, Within, Wanted, GroupsComplete;
    forall q | from <= q < to && q < |section| && Aligned(section, q)
      ensures !Wanted(section[q])
    {
      forall j | 0 <= j < |ranges|
        ensures !(ranges[j].lo <= f.start + q < ranges[j].hi)
      {
        if j < k {
          EarlierEnds(ranges, WantedGroups(g), f, j, k - 1);
        } else {
          LaterStarts(ranges, WantedGroups(g), f, k, j);
        }
      }
      OutsideUnwanted(section, f, g, ranges, q);
    }
  }

  lemma EarlierEnds(ranges: seq<Range>, want: seq<(nat, nat)>, f: Footer, i: nat, j: nat)
    requires MergedOk(ranges, want, f) && i <= j < |ranges|
    ensures ranges[i].hi <= ranges[j].hi
  {
    hide StartsGroup, EndsGroup, Within;
    assert FromGroups(ranges[j], want);
  }

  lemma LaterStarts(ranges: seq<Range>, want: seq<(nat, nat)>, f: Footer, i: nat, j: nat)
    requires MergedOk(ranges, want, f) && i <= j < |ranges|
    ensures ranges[i].lo <= ranges[j].lo
  {
    hide StartsGroup, EndsGroup, Within;
    assert FromGroups(ranges[i], want);
  }

  /** A well-grouped section: framed throughout, its wanted groups aligned and complete. */
  ghost predicate WellGrouped(section: seq<byte>, base: nat, g: Groups, rd: Reader)
  {
    Records(section, rd).Some? && GroupsAligned(section, base, g) && GroupsComplete(section, base, g)
  }

  /** Three pieces of the section: a gap, a range, the rest. */
  lemma ThreePieces(section: seq<byte>, a: nat, b: nat, c: nat, rd: Reader)
    requires a <= b <= c <= |section| && Aligned(section, a) && Aligned(section, b) && Aligned(section, c)
    requires Records(section, rd).Some?
    ensures Records(section[a..], rd).Some? && Records(section[a..b], rd).Some?
    ensures Records(section[b..c], rd).Some? && Records(section[c..], rd).Some?
    ensures Records(section[a..], rd).value ==
            Records(section[a..b], rd).value + (Records(section[b..c], rd).value + Records(section[c..], rd).value)
  {
    hide Records, Aligned;
    SplitRecords(section, a, rd);
    SplitRecords(section, b, rd);
    AlignedRest(section, a, b);
    SplitRecords(section[a..], b - a, rd);
    assert section[a..][..b - a] == section[a..b] && section[a..][b - a..] == section[b..];
    AlignedRest(section, b, c);
    SplitRecords(section[b..], c - b, rd);
    assert section[b..][..c - b] == section[b..c] && section[b..][c - b..] == section[c..];
  }

  /** Scanning the ranges from `k` on adds exactly what scanning the rest of the section adds. */
  lemma {:induction false} ScanFrom(file: seq<byte>, section: seq<byte>, f: Footer, g: Groups, ranges: seq<Range>,
                                    rd: Reader, k: nat, from: nat, p: Parts)
    requires f.start <= f.offsets <= |file| && section == file[f.start..f.offsets]
    requires WellGrouped(section, f.start, g, rd) && MergedOk(ranges, WantedGroups(g), f)
    requires k <= |ranges| && from == Reached(ranges, k, f.start) && from <= |section| && Aligned(section, from)
    ensures Records(section[from..], rd).Some?
    ensures ScanRanges(file, ranges[k..], p, rd) == Some(AddAll(p, Records(section[from..], rd).value))
    decreases |ranges| - k
  {
    hide Records, AddAll, Aligned, GroupsAligned, GroupsComplete, WantedGroups, MergedOk, NothingWanted, AddItem;
    if k == |ranges| {
      EndIsAligned(section, rd);
      BetweenRanges(section, f, g, ranges, k, from, |section|);
      GapAddsNothing(section, from, |section|, rd, p);
      assert section[from..|section|] == section[from..];
      assert ranges[k..] == [];
    } else {
      var r := ranges[k];
      BoundariesAligned(section, f, g, ranges, k);
      var lo, hi := r.lo - f.start, r.hi - f.start;
      FromBeforeNext(ranges, WantedGroups(g), f, k);
      BetweenRanges(section, f, g, ranges, k, from, lo);
      GapAddsNothing(section, from, lo, rd, p);
      ThreePieces(section, from, lo, hi, rd);
      var gap, here := Records(section[from..lo], rd).value, Records(section[lo..hi], rd).value;
      var rest := Records(section[hi..], rd).value;
      AddAllConcat(p, gap, here + rest);
      AddAllConcat(p, here, rest);
      SliceOfSection(file, f, r);
      assert ranges[k..][0] == r && ranges[k..][1..] == ranges[k + 1..];
      ScanFrom(file, section, f, g, ranges, rd, k + 1, hi, AddAll(p, here));
    }
  }

  lemma SliceOfSection(file: seq<byte>, f: Footer, r: Range)
    requires f.start <= r.lo <= r.hi <= f.offsets <= |file|
    ensures Slice(file, r) == file[f.start..f.offsets][r.lo - f.start..r.hi - f.start]
  {
  }

  lemma FromBeforeNext(ranges: seq<Range>, want: seq<(nat, nat)>, f: Footer, k: nat)
    requires MergedOk(ranges, want, f) && k < |ranges|
    ensures Reached(ranges, k, f.start) <= ranges[k].lo - f.start
  {
  }

  /**
   For a well-grouped summary section whose offsets list its groups, the targeted read is the plain scan: the
   summary of every record of the section, found exactly when the section has statistics and no fewer channels and
   schemas than they claim.
   */
  lemma TargetedIsLinear(file: seq<byte>, rd: Reader, f: Footer, offsets: seq<Item>)
    requires FooterOf(file) == Some(f) && f.start != 0 && OffsetsInBounds(file, f)
    requires Records(file[f.offsets..|file| - FOOTER_LEN], rd) == Some(offsets)
    requires WellGrouped(file[f.start..f.offsets], f.start, GroupsOf(map[], offsets), rd)
    ensures var items := Records(file[f.start..f.offsets], rd).value;
            && (Targeted(file, rd).Found? <==> HasAllClaimed(items))
            && (!HasAllClaimed(items) ==> Targeted(file, rd) == Unavailable)
            && (HasAllClaimed(items) ==> Summarizes(Targeted(file, rd).summary, items))
            && Targeted(file, rd) == Verdict(AddAll(NO_PARTS, items))
  {
    hide HasAllClaimed, Summarizes;
    VerdictOnSection(Records(file[f.start..f.offsets], rd).value);
    TargetedIsScanned(file, rd, f, offsets);
  }

  lemma TargetedIsScanned(file: seq<byte>, rd: Reader, f: Footer, offsets: seq<Item>)
    requires FooterOf(file) == Some(f) && f.start != 0 && OffsetsInBounds(file, f)
    requires Records(file[f.offsets..|file| - FOOTER_LEN], rd) == Some(offsets)
    requires WellGrouped(file[f.start..f.offsets], f.start, GroupsOf(map[], offsets), rd)
    ensures Targeted(file, rd) == Verdict(AddAll(NO_PARTS, Records(file[f.start..f.offsets], rd).value))
  {
    hide Records, AddAll, Aligned, GroupsAligned, GroupsComplete, WantedGroups, MergedOk, FooterOf,
         Merge, GroupsOf, ScanRanges, InfosOf;
    var g := GroupsOf(map[], offsets);
    var section := file[f.start..f.offsets];
    if STATISTICS in g {
      WantedGroupsOk(g);
      GroupsInSection(file, f, g);
      MergeSucceeds(WantedGroups(g), f);
      MergeOk(WantedGroups(g), f);
      var ranges := Merge(WantedGroups(g), f).value;
      AlignedAtZero(section);
      ScanFrom(file, section, f, g, ranges, rd, 0, 0, NO_PARTS);
      assert ranges[0..] == ranges && section[0..] == section;
    } else {
      NoStatistics(section, f.start, g);
      StatisticsComeFromRecords(section, rd, NO_PARTS);
    }
  }

  ghost predicate WithoutStatistics(buf: seq<byte>)
  {
    forall q | 0 <= q < |buf| && Aligned(buf, q) :: buf[q] != STATISTICS
  }

  lemma NoStatistics(section: seq<byte>, base: nat, g: Groups)
    requires GroupsComplete(section, base, g) && STATISTICS !in g
    ensures WithoutStatistics(section)
  {
    hide Aligned;
  }

  lemma {:induction false} StatisticsComeFromRecords(buf: seq<byte>, rd: Reader, p: Parts)
    requires Records(buf, rd).Some? && WithoutStatistics(buf)
    ensures AddAll(p, Records(buf, rd).value).stats == p.stats
    decreases |buf|
  {
    if buf != [] {
      var n := FrameLen(buf).value;
      assert Aligned(buf, 0) && buf[0] != STATISTICS;
      var rest := buf[n..];
      forall q | 0 <= q < |rest| && Aligned(rest, q)
        ensures rest[q] != STATISTICS
      {
        assert Aligned(buf, n + q);
      }
      var items := Records(buf, rd).value;
      assert items[1..] == Records(rest, rd).value;
      StatisticsComeFromRecords(rest, rd, AddItem(p, items[0]));
    }
  }

  lemma AlignedAtZero(buf: seq<byte>)
    ensures Aligned(buf, 0)
  {
  }

  lemma GroupsInSection(file: seq<byte>, f: Footer, g: Groups)
    requires f.start <= f.offsets <= |file| && GroupsAligned(file[f.start..f.offsets], f.start, g)
    ensures forall x | x in WantedGroups(g) :: f.start <= x.0 && x.0 + x.1 <= f.offsets
  {
    hide Aligned, WantedGroups;
    WantedGroupsOk(g);
    forall x | x in WantedGroups(g)
      ensures f.start <= x.0 && x.0 + x.1 <= f.offsets
    {
      var op :| op in g && Wanted(op) && g[op] == x;
    }
  }

  lemma {:induction false} MergeSucceeds(want: seq<(nat, nat)>, f: Footer)
    requires forall x | x in want :: f.start <= x.0 && x.0 + x.1 <= f.offsets
    ensures Merge(want, f).Some?
  {
    if want != [] {
      MergeSucceeds(want[..|want| - 1], f);
      assert want[|want| - 1] in want;
    }
  }

  // ---- The read itself ----

  /** `pread`, over the object as it is now; past its end it comes back short. */
  function Pread(file: seq<byte>, lo: nat, hi: nat): seq<byte>
    requires lo <= hi
  {
    if |file| <= lo then [] else if hi <= |file| then file[lo..hi] else file[lo..]
  }

  lemma SubSlice(file: seq<byte>, a: nat, b: nat, lo: nat, hi: nat)
    requires a <= lo <= hi <= b <= |file|
    ensures file[a..b][lo - a..hi - a] == file[lo..hi]
  {
    var part := file[a..b][lo - a..hi - a];
    forall k | 0 <= k < hi - lo
      ensures part[k] == file[lo..hi][k]
    {
      assert part[k] == file[a..b][lo - a + k];
    }
  }

  /** The bytes `[lo, hi)`: out of the tail if it reaches that far back, else with a read of their own. */
  method Fetch(file: seq<byte>, size: nat, tailStart: nat, tail: seq<byte>, lo: nat, hi: nat)
    returns (buf: seq<byte>, gets: seq<Range>)
    requires tailStart <= size <= |file| && tail == file[tailStart..size] && lo <= hi <= size
    ensures buf == file[lo..hi]
    ensures gets == if lo >= tailStart then [] else [Range(lo, hi)]
  {
    if lo >= tailStart {
      SubSlice(file, tailStart, size, lo, hi);
      return tail[lo - tailStart..hi - tailStart], [];
    }
    return Pread(file, lo, hi), [Range(lo, hi)];
  }

  /** The ranges that the tail does not reach back to. */
  ghost function Ahead(ranges: seq<Range>, tailStart: nat): seq<Range>
  {
    if ranges == [] then []
    else
      var r := ranges[|ranges| - 1];
      Ahead(ranges[..|ranges| - 1], tailStart) + if r.lo < tailStart then [r] else []
  }

  /** The loop over `want`. */
  method MergeGroups(want: seq<(nat, nat)>, f: Footer) returns (ranges: Option<seq<Range>>)
    ensures ranges == Merge(want, f)
  {
    hide MergeOne;
    ranges := Some([]);
    var i := 0;
    while i < |want|
      invariant 0 <= i <= |want| && ranges.Some? && ranges == Merge(want[..i], f)
      invariant forall k | 0 <= k < i :: f.start <= want[k].0 && want[k].0 + want[k].1 <= f.offsets
    {
      assert want[..i + 1][..i] == want[..i];
      if !(f.start <= want[i].0 && want[i].0 + want[i].1 <= f.offsets) {
        MergeFails(want, f, i);
        return None;
      }
      ranges := Some(MergeOne(ranges.value, want[i].0, want[i].1));
      i := i + 1;
    }
    assert want[..i] == want;
  }

  lemma {:induction false} MergeFails(want: seq<(nat, nat)>, f: Footer, i: nat)
    requires i < |want| && !(f.start <= want[i].0 && want[i].0 + want[i].1 <= f.offsets)
    ensures Merge(want, f).None?
  {
    if i < |want| - 1 {
      MergeFails(want[..|want| - 1], f, i);
    }
  }

  /** The loop over the merged ranges. */
  method ReadRanges(file: seq<byte>, size: nat, tailStart: nat, tail: seq<byte>, ranges: seq<Range>, rd: Reader)
    returns (p: Option<Parts>, gets: seq<Range>)
    requires tailStart <= size <= |file| && tail == file[tailStart..size]
    requires forall k | 0 <= k < |ranges| :: ranges[k].lo <= ranges[k].hi <= size
    ensures p == ScanRanges(file[..size], ranges, NO_PARTS, rd)
    ensures TotalLength(gets) <= TotalLength(ranges)
    ensures forall r | r in gets :: r in ranges
    ensures p.Some? ==> gets == Ahead(ranges, tailStart)
  {
    hide Records, AddAll, ScanRanges, TotalLength, Slice;
    var parts := NO_PARTS;
    gets := [];
    var i := 0;
    assert ranges[0..] == ranges && ranges[..0] == [];
    while i < |ranges|
      invariant 0 <= i <= |ranges|
      invariant ScanRanges(file[..size], ranges[i..], parts, rd) == ScanRanges(file[..size], ranges, NO_PARTS, rd)
      invariant TotalLength(gets) <= TotalLength(ranges[..i])
      invariant forall r | r in gets :: r in ranges
      invariant gets == Ahead(ranges[..i], tailStart)
    {
      var r := ranges[i];
      assert ranges[..i + 1][..i] == ranges[..i];
      var buf, more := Fetch(file, size, tailStart, tail, r.lo, r.hi);
      SliceOfPrefix(file, size, r);
      var items := IterRecords(buf, rd);
      ScanStep(file[..size], ranges, i, parts, rd);
      TotalStep(ranges, i, gets, more);
      TotalPrefix(ranges, i + 1);
      gets := gets + more;
      if items.None? {
        return None, gets;
      }
      parts := AddAll(parts, items.value);
      i := i + 1;
    }
    ScanEnd(file[..size], ranges, parts, rd);
    assert ranges[..i] == ranges;
    return Some(parts), gets;
  }

  lemma SliceOfPrefix(file: seq<byte>, size: nat, r: Range)
    requires r.lo <= r.hi <= size <= |file|
    ensures Slice(file[..size], r) == file[r.lo..r.hi]
  {
  }

  lemma ScanStep(file: seq<byte>, ranges: seq<Range>, i: nat, p: Parts, rd: Reader)
    requires i < |ranges|
    ensures ScanRanges(file, ranges[i..], p, rd) ==
            match Records(Slice(file, ranges[i]), rd)
            case None => None
            case Some(items) => ScanRanges(file, ranges[i + 1..], AddAll(p, items), rd)
  {
    hide Records, AddAll, Slice;
    assert ranges[i..][1..] == ranges[i + 1..];
  }

  lemma ScanEnd(file: seq<byte>, ranges: seq<Range>, p: Parts, rd: Reader)
    ensures ScanRanges(file, ranges[|ranges|..], p, rd) == Some(p)
  {
  }

  lemma TotalStep(ranges: seq<Range>, i: nat, gets: seq<Range>, more: seq<Range>)
    requires i < |ranges| && ranges[i].lo <= ranges[i].hi && (more == [] || more == [ranges[i]])
    requires TotalLength(gets) <= TotalLength(ranges[..i])
    ensures TotalLength(gets + more) <= TotalLength(ranges[..i + 1])
  {
    hide TotalLength;
    assert ranges[..i + 1] == ranges[..i] + [ranges[i]];
    TotalMore(ranges[..i], ranges[i]);
    TotalMore(gets, ranges[i]);
    assert gets + [] == gets;
  }

  lemma {:induction false} TotalPrefix(ranges: seq<Range>, k: nat)
    requires k <= |ranges|
    ensures TotalLength(ranges[..k]) <= TotalLength(ranges)
  {
    if k < |ranges| {
      TotalPrefix(ranges[..|ranges| - 1], k);
      assert ranges[..|ranges| - 1][..k] == ranges[..k];
    } else {
      assert ranges[..k] == ranges;
    }
  }

  /** The most the group gets may fetch: the groups, and a coalescing gap for each but one. */
  function GroupBudget(want: seq<(nat, nat)>): nat
  {
    GroupLength(want) + COALESCE_GAP * (if |want| == 0 then 0 else |want| - 1)
  }

  ghost predicate ReadsInside(gets: seq<Range>, f: Footer)
  {
    forall r | r in gets :: f.start <= r.lo <= r.hi <= f.offsets
  }

  method ReadGroups(file: seq<byte>, size: nat, tailStart: nat, tail: seq<byte>, f: Footer, g: Groups, rd: Reader)
    returns (out: Outcome, gets: seq<Range>)
    requires tailStart <= size <= |file| && tail == file[tailStart..size] && f.offsets <= size
    ensures out == TargetedGroups(file[..size], f, g, rd)
    ensures ReadsInside(gets, f)
    ensures TotalLength(gets) <= GroupBudget(WantedGroups(g))
    ensures out.Found? ==> Merge(WantedGroups(g), f).Some? && gets == Ahead(Merge(WantedGroups(g), f).value, tailStart)
  {
    hide Ahead, Merge, WantedGroups, ScanRanges, Verdict, TotalLength, GroupLength;
    NoReads();
    if STATISTICS !in g {
      return Unavailable, [];
    }
    var want := WantedGroups(g);
    var ranges := MergeGroups(want, f);
    if ranges.None? {
      return Unavailable, [];
    }
    WantedGroupsOk(g);
    MergeOk(want, f);
    MergeIsBounded(want, f);
    RangesInside(ranges.value, want, f);
    var p;
    p, gets := ReadRanges(file, size, tailStart, tail, ranges.value, rd);
    BudgetHolds(ranges.value, want);
    out := if p.None? then Unavailable else Verdict(p.value);
  }

  lemma NoReads()
    ensures TotalLength([]) == 0
  {
  }

  lemma RangesInside(ranges: seq<Range>, want: seq<(nat, nat)>, f: Footer)
    requires MergedOk(ranges, want, f)
    ensures ReadsInside(ranges, f)
  {
    forall r | r in ranges
      ensures f.start <= r.lo <= r.hi <= f.offsets
    {
      var k :| 0 <= k < |ranges| && ranges[k] == r;
      assert FromGroups(ranges[k], want);
    }
  }

  lemma BudgetHolds(ranges: seq<Range>, want: seq<(nat, nat)>)
    requires |ranges| <= |want| && TotalLength(ranges) <= GroupLength(want) + COALESCE_GAP * (|want| - |ranges|)
    ensures TotalLength(ranges) <= GroupBudget(want)
  {
    if ranges == [] {
      assert TotalLength(ranges) == 0;
    }
  }

  /** The leading magic is looked at exactly when the tail reaches back to it. */
  predicate LeadingMagicRefused(file: seq<byte>, tail: nat)
  {
    FOOTER_LEN <= |file| <= tail && file[..8] != MAGIC
  }

  /** Every read after the first: the offsets section up to the footer, or inside the summary section. */
  ghost predicate ReadsBounded(file: seq<byte>, gets: seq<Range>)
  {
    forall i | 1 <= i < |gets| ::
      && FooterOf(file).Some?
      && var f := FooterOf(file).value;
         (gets[i] == Range(f.offsets, |file| - FOOTER_LEN) && OffsetsInBounds(file, f)) ||
         f.start <= gets[i].lo <= gets[i].hi <= f.offsets
  }

  /** How much a targeted read may fetch in all. */
  function Budget(file: seq<byte>, tail: nat, rd: Reader): nat
  {
    tail + MAX_OFFSETS_LEN +
    match FooterOf(file)
    case None => 0
    case Some(f) =>
      if !OffsetsInBounds(file, f) then 0
      else
        match Records(file[f.offsets..|file| - FOOTER_LEN], rd)
        case None => 0
        case Some(offsets) => GroupBudget(WantedGroups(GroupsOf(map[], offsets)))
  }

  /** What a read that finds a summary fetches: the tail, and what it needs ahead of the tail, once. */
  ghost function Plan(file: seq<byte>, tail: nat, rd: Reader): seq<Range>
  {
    var tailStart := if |file| > tail then |file| - tail else 0;
    match FooterOf(file)
    case None => []
    case Some(f) =>
      if !OffsetsInBounds(file, f) then []
      else
        match Records(file[f.offsets..|file| - FOOTER_LEN], rd)
        case None => []
        case Some(offsets) =>
          match Merge(WantedGroups(GroupsOf(map[], offsets)), f)
          case None => []
          case Some(ranges) =>
            [Range(tailStart, |file|)] +
            (if f.offsets < tailStart then [Range(f.offsets, |file| - FOOTER_LEN)] else []) + Ahead(ranges, tailStart)
  }

  /** The footer out of the tail buffer. */
  method FooterFromTail(buf: seq<byte>) returns (f: Option<Footer>)
    requires |buf| >= FOOTER_LEN
    ensures f == FooterOf(buf)
  {
    if buf[|buf| - 8..] != MAGIC {
      return None;
    }
    var footer := buf[|buf| - FOOTER_LEN..|buf| - 8];
    if footer[0] != FOOTER || LittleEndian(footer[1..9]) != FOOTER_PAYLOAD {
      return None;
    }
    return Some(Footer(LittleEndian(footer[9..17]), LittleEndian(footer[17..25])));
  }

  /** A footer is the same whether read from the file or from any tail that holds it. */
  lemma FooterOfTail(file: seq<byte>, tailStart: nat)
    requires tailStart + FOOTER_LEN <= |file|
    ensures FooterOf(file[tailStart..]) == FooterOf(file)
  {
    hide LittleEndian;
    var t := file[tailStart..];
    assert t[|t| - 8..] == file[|file| - 8..];
    assert t[|t| - FOOTER_LEN..|t| - 8] == file[|file| - FOOTER_LEN..|file| - 8];
  }

  /**
   `read_summary_targeted`, with the listing's `size` for an object that may have changed. The result is
   the same for every tail of at least a footer, but for the leading-magic check; a listing larger than
   the object is refused; and every range that was computed stays inside the summary and offset sections.
   */
  method ReadSummaryTargeted(file: seq<byte>, size: nat, tail: nat, rd: Reader) returns (out: Outcome, gets: seq<Range>)
    requires tail >= FOOTER_LEN
    ensures size > |file| ==> out == Unavailable
    ensures size <= |file| ==>
              out == if LeadingMagicRefused(file[..size], tail) then Unavailable else Targeted(file[..size], rd)
    ensures size <= |file| ==> ReadsBounded(file[..size], gets) && TotalLength(gets) <= Budget(file[..size], tail, rd)
    ensures size <= |file| && out.Found? ==> gets == Plan(file[..size], tail, rd)
  {
    hide Ahead, Merge, Records, FooterOf, WantedGroups, GroupsOf, TargetedGroups, TotalLength;
    NoReads();
    gets := [];
    if size < FOOTER_LEN {
      TooSmall(file[..if size <= |file| then size else |file|]);
      return Unavailable, gets;
    }
    var tailStart := if size > tail then size - tail else 0;
    var buf := Pread(file, tailStart, size);
    gets := [Range(tailStart, size)];
    OneRead(tailStart, size);
    if |buf| != size - tailStart {
      return Unavailable, gets;
    }
    ghost var whole := file[..size];
    assert buf == whole[tailStart..];
    FooterOfTail(whole, tailStart);
    var f := FooterFromTail(buf);
    if f.None? {
      return Unavailable, gets;
    }
    if tailStart == 0 && buf[..8] != MAGIC {
      return Unavailable, gets;
    }
    var footer := f.value;
    if footer.start == 0 {
      return NoSummary, gets;
    }
    var footerPos := size - FOOTER_LEN;
    if footer.offsets == 0 || !(footer.start <= footer.offsets < footerPos) ||
       footerPos - footer.offsets > MAX_OFFSETS_LEN {
      return Unavailable, gets;
    }
    var offsetBytes, more := Fetch(file, size, tailStart, buf, footer.offsets, footerPos);
    assert offsetBytes == whole[footer.offsets..|whole| - FOOTER_LEN];
    OffsetsRead(tailStart, size, footer.offsets, footerPos, more);
    gets := gets + more;
    var offsets := IterRecords(offsetBytes, rd);
    if offsets.None? {
      return Unavailable, gets;
    }
    var g := GroupsOf(map[], offsets.value);
    var groupGets;
    out, groupGets := ReadGroups(file, size, tailStart, buf, footer, g, rd);
    TotalConcat(gets, groupGets);
    gets := gets + groupGets;
  }

  lemma TooSmall(file: seq<byte>)
    requires |file| < FOOTER_LEN
    ensures FooterOf(file).None?
  {
  }

  lemma OneRead(lo: nat, hi: nat)
    requires lo <= hi
    ensures TotalLength([Range(lo, hi)]) == hi - lo
  {
    assert [Range(lo, hi)][..0] == [];
  }

  lemma OffsetsRead(lo: nat, hi: nat, a: nat, b: nat, more: seq<Range>)
    requires lo <= hi && a <= b && (more == [] || more == [Range(a, b)])
    ensures TotalLength([Range(lo, hi)] + more) <= hi - lo + (b - a)
  {
    OneRead(lo, hi);
    TotalMore([Range(lo, hi)], Range(a, b));
    assert [Range(lo, hi)] + [] == [Range(lo, hi)];
  }

  lemma {:induction false} TotalConcat(a: seq<Range>, b: seq<Range>)
    ensures TotalLength(a + b) == TotalLength(a) + TotalLength(b)
  {
    if b == [] {
      assert a + b == a;
    } else {
      var n := |b| - 1;
      TotalConcat(a, b[..n]);
      assert (a + b)[..|a| + n] == a + b[..n];
    }
  }
}
