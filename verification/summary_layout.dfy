/**
 Files as a writer lays them out: framed records in groups of one opcode, a summary-offset record for each group,
 and the footer. The targeted reader gets back what was written.
 */
module SummaryLayout {
  import opened Basics
  import opened TargetedSummary

  /** A record before it is framed. */
  datatype Framed = Framed(op: byte, payload: seq<byte>)

  function Frame(r: Framed): (b: seq<byte>)
    ensures |b| == 9 + |r.payload|
  {
    [r.op] + Packed(|r.payload|, 8) + r.payload
  }

  function Frames(rs: seq<Framed>): seq<byte>
    decreases |rs|
  {
    if rs == [] then [] else Frame(rs[0]) + Frames(rs[1..])
  }

  /** The payload's length fits its eight bytes. */
  predicate Fits(r: Framed)
  {
    |r.payload| < Power256(8)
  }

  ghost predicate AllFit(rs: seq<Framed>)
  {
    forall i | 0 <= i < |rs| :: Fits(rs[i])
  }

  /** Each record as the reader gives it, or a refusal if one cannot be read. */
  function ReadAll(rs: seq<Framed>, rd: Reader): Option<seq<Item>>
    decreases |rs|
  {
    if rs == [] then Some([])
    else
      match ReadAll(rs[1..], rd)
      case None => None
      case Some(rest) =>
        if !Known(rs[0].op) then Some([Item(rs[0].op, None)] + rest)
        else
          match rd(rs[0].op, rs[0].payload)
          case None => None
          case Some(x) => Some([Item(rs[0].op, Some(x))] + rest)
  }

  lemma FirstFrame(r: Framed, rest: seq<byte>)
    requires Fits(r)
    ensures var buf := Frame(r) + rest;
            && FrameLen(buf) == Some(9 + |r.payload|) && buf[0] == r.op
            && buf[..9 + |r.payload|] == Frame(r) && buf[9 + |r.payload|..] == rest
    ensures Frame(r)[9..] == r.payload
  {
    hide LittleEndian, Packed, Power256;
    var buf := Frame(r) + rest;
    assert buf[1..9] == Packed(|r.payload|, 8);
    UnpackPacked(|r.payload|, 8);
  }

  /** Framing and reading are inverse: the records of framed records are those records, and nothing else. */
  lemma {:induction false} FramesRoundTrip(rs: seq<Framed>, rd: Reader)
    requires AllFit(rs)
    ensures Records(Frames(rs), rd) == ReadAll(rs, rd)
    decreases |rs|
  {
    hide FrameLen, Frame, Fits, Known;
    if rs != [] {
      assert Fits(rs[0]);
      FirstFrame(rs[0], Frames(rs[1..]));
      FramesRoundTrip(rs[1..], rd);
    }
  }

  lemma {:induction false} FramesConcat(a: seq<Framed>, b: seq<Framed>)
    ensures Frames(a + b) == Frames(a) + Frames(b)
    decreases |a|
  {
    hide Frame;
    if a == [] {
      assert a + b == b;
    } else {
      FramesConcat(a[1..], b);
      assert (a + b)[1..] == a[1..] + b;
    }
  }

  lemma FramesMore(rs: seq<Framed>, k: nat)
    requires k < |rs|
    ensures |Frames(rs[..k])| + 9 + |rs[k].payload| == |Frames(rs[..k + 1])| <= |Frames(rs)|
  {
    hide Frames, Frame;
    assert rs[..k + 1] == rs[..k] + [rs[k]] && rs == rs[..k + 1] + rs[k + 1..];
    FramesConcat(rs[..k], [rs[k]]);
    FramesConcat(rs[..k + 1], rs[k + 1..]);
    OneFrame(rs[k]);
  }

  lemma OneFrame(r: Framed)
    ensures Frames([r]) == Frame(r)
  {
    assert [r][1..] == [];
  }

  /** The boundaries of framed records are where records begin ... */
  lemma {:induction false} StartIsAligned(rs: seq<Framed>, k: nat)
    requires AllFit(rs) && k <= |rs|
    ensures |Frames(rs[..k])| <= |Frames(rs)| && Aligned(Frames(rs), |Frames(rs[..k])|)
    decreases k
  {
    hide FrameLen, Frame, Fits;
    if k > 0 {
      var rest := rs[1..];
      assert Fits(rs[0]);
      FirstFrame(rs[0], Frames(rest));
      StartIsAligned(rest, k - 1);
      assert rs[..k][0] == rs[0] && rs[..k][1..] == rest[..k - 1];
    }
  }

  /** ... and nowhere else. */
  lemma {:induction false} AlignedIsStart(rs: seq<Framed>, q: nat) returns (k: nat)
    requires AllFit(rs) && Aligned(Frames(rs), q) && q < |Frames(rs)|
    ensures k < |rs| && q == |Frames(rs[..k])| && Frames(rs)[q] == rs[k].op
    decreases |rs|
  {
    hide FrameLen, Frame, Fits;
    var rest := rs[1..];
    assert Fits(rs[0]);
    FirstFrame(rs[0], Frames(rest));
    if q == 0 {
      k := 0;
    } else {
      var n := |Frame(rs[0])|;
      var j := AlignedIsStart(rest, q - n);
      k := j + 1;
      assert rs[..k][0] == rs[0] && rs[..k][1..] == rest[..j];
    }
  }

  // ---- Groups ----

  /** A group: records of one opcode, one after another. */
  datatype Group = Group(op: byte, records: seq<Framed>)

  function RecordsOf(gs: seq<Group>): seq<Framed>
  {
    if gs == [] then [] else RecordsOf(gs[..|gs| - 1]) + gs[|gs| - 1].records
  }

  /** Where group `i` begins in the section. */
  function StartOf(gs: seq<Group>, i: nat): nat
    requires i <= |gs|
  {
    |Frames(RecordsOf(gs[..i]))|
  }

  ghost predicate Grouped(gs: seq<Group>)
  {
    && (forall i, j | 0 <= i < j < |gs| :: gs[i].op != gs[j].op)
    && (forall i | 0 <= i < |gs| :: AllFit(gs[i].records) && OneOpcode(gs[i]))
  }

  ghost predicate OneOpcode(g: Group)
  {
    forall j | 0 <= j < |g.records| :: g.records[j].op == g.op
  }

  /** What the summary-offset record of group `i` must say. */
  function OffsetOf(gs: seq<Group>, base: nat, i: nat): Item
    requires i < |gs|
  {
    Item(SUMMARY_OFFSET, Some(Offset(gs[i].op, base + StartOf(gs, i), |Frames(gs[i].records)|)))
  }

  lemma RecordsMore(gs: seq<Group>, i: nat)
    requires i < |gs|
    ensures RecordsOf(gs[..i + 1]) == RecordsOf(gs[..i]) + gs[i].records
    ensures StartOf(gs, i + 1) == StartOf(gs, i) + |Frames(gs[i].records)|
  {
    assert gs[..i + 1][..i] == gs[..i];
    FramesConcat(RecordsOf(gs[..i]), gs[i].records);
  }

  lemma {:induction false} PrefixRecords(gs: seq<Group>, i: nat)
    requires i <= |gs|
    ensures |RecordsOf(gs[..i])| <= |RecordsOf(gs)| && RecordsOf(gs)[..|RecordsOf(gs[..i])|] == RecordsOf(gs[..i])
  {
    if i == |gs| {
      assert gs[..i] == gs;
    } else {
      PrefixRecords(gs[..|gs| - 1], i);
      assert gs[..|gs| - 1][..i] == gs[..i];
    }
  }

  lemma {:induction false} GroupsFit(gs: seq<Group>)
    requires Grouped(gs)
    ensures AllFit(RecordsOf(gs))
  {
    if gs != [] {
      GroupsFit(gs[..|gs| - 1]);
      assert AllFit(gs[|gs| - 1].records);
    }
  }

  /** Every record of the section lies in its group's stretch, and has its opcode. */
  lemma {:induction false} GroupOfRecord(gs: seq<Group>, k: nat) returns (i: nat)
    requires Grouped(gs) && k < |RecordsOf(gs)|
    ensures i < |gs| && RecordsOf(gs)[k].op == gs[i].op
    ensures StartOf(gs, i) <= |Frames(RecordsOf(gs)[..k])| < StartOf(gs, i) + |Frames(gs[i].records)|
  {
    var n := |gs| - 1;
    var front, last := gs[..n], gs[n];
    var before := RecordsOf(front);
    if k < |before| {
      i := GroupOfRecord(front, k);
      assert RecordsOf(gs)[..k] == before[..k];
      assert front[..i] == gs[..i];
    } else {
      i := n;
      var j := k - |before|;
      assert OneOpcode(last) && RecordsOf(gs)[k] == last.records[j];
      assert RecordsOf(gs)[..k] == before + last.records[..j];
      FramesConcat(before, last.records[..j]);
      FramesMore(last.records, j);
    }
  }

  /** Both ends of a group are boundaries of the section. */
  lemma GroupEndsAligned(gs: seq<Group>, i: nat)
    requires Grouped(gs) && i <= |gs|
    ensures StartOf(gs, i) <= |Frames(RecordsOf(gs))| && Aligned(Frames(RecordsOf(gs)), StartOf(gs, i))
  {
    hide Grouped, AllFit, Aligned;
    GroupsFit(gs);
    PrefixRecords(gs, i);
    StartIsAligned(RecordsOf(gs), |RecordsOf(gs[..i])|);
  }

  /** The offset records list each group where it is. */
  ghost predicate ListsGroups(offsets: seq<Item>, gs: seq<Group>, base: nat)
  {
    |offsets| == |gs| && forall i | 0 <= i < |gs| :: offsets[i] == OffsetOf(gs, base, i)
  }

  lemma {:induction false} GroupsOfMore(g: Groups, items: seq<Item>, item: Item)
    ensures GroupsOf(g, items + [item]) == AddGroup(GroupsOf(g, items), item)
    decreases |items|
  {
    hide AddGroup;
    if items == [] {
      assert ([] + [item])[1..] == [];
    } else {
      assert (items + [item])[1..] == items[1..] + [item];
      GroupsOfMore(AddGroup(g, items[0]), items[1..], item);
    }
  }

  ghost predicate Located(g: Groups, gs: seq<Group>, base: nat, n: nat)
    requires n <= |gs|
  {
    && (forall i | 0 <= i < n :: gs[i].op in g && g[gs[i].op] == (base + StartOf(gs, i), |Frames(gs[i].records)|))
    && (forall op | op in g :: exists i :: 0 <= i < n && gs[i].op == op)
  }

  lemma {:induction false} OffsetsLocate(offsets: seq<Item>, gs: seq<Group>, base: nat, n: nat)
    requires ListsGroups(offsets, gs, base) && Grouped(gs) && n <= |gs|
    ensures Located(GroupsOf(map[], offsets[..n]), gs, base, n)
  {
    hide Frames, AllFit, OneOpcode, StartOf;
    if n > 0 {
      OffsetsLocate(offsets, gs, base, n - 1);
      assert offsets[..n] == offsets[..n - 1] + [offsets[n - 1]];
      GroupsOfMore(map[], offsets[..n - 1], offsets[n - 1]);
      assert offsets[n - 1] == OffsetOf(gs, base, n - 1);
    }
  }

  lemma OffsetsLocateAll(offsets: seq<Item>, gs: seq<Group>, base: nat)
    requires ListsGroups(offsets, gs, base) && Grouped(gs)
    ensures Located(GroupsOf(map[], offsets), gs, base, |gs|)
  {
    hide Located, Grouped, ListsGroups;
    OffsetsLocate(offsets, gs, base, |gs|);
    assert offsets[..|gs|] == offsets by {
      SameLength(offsets, gs, base);
    }
  }

  lemma SameLength(offsets: seq<Item>, gs: seq<Group>, base: nat)
    requires ListsGroups(offsets, gs, base)
    ensures |offsets| == |gs|
  {
  }

  lemma LaidGroupsAligned(g: Groups, gs: seq<Group>, base: nat)
    requires Grouped(gs) && Located(g, gs, base, |gs|)
    ensures GroupsAligned(Frames(RecordsOf(gs)), base, g)
  {
    hide Frames, Aligned, Grouped, StartOf, Wanted;
    forall op | op in g && Wanted(op)
      ensures && base <= g[op].0 && g[op].0 + g[op].1 <= base + |Frames(RecordsOf(gs))|
              && Aligned(Frames(RecordsOf(gs)), g[op].0 - base)
              && Aligned(Frames(RecordsOf(gs)), g[op].0 + g[op].1 - base)
    {
      var i :| 0 <= i < |gs| && gs[i].op == op;
      GroupEndsAligned(gs, i);
      GroupEndsAligned(gs, i + 1);
      RecordsMore(gs, i);
    }
  }

  lemma LaidGroupsComplete(g: Groups, gs: seq<Group>, base: nat)
    requires Grouped(gs) && Located(g, gs, base, |gs|)
    ensures GroupsComplete(Frames(RecordsOf(gs)), base, g)
  {
    hide Frames, Aligned, Grouped, StartOf, AllFit, Wanted;
    var section := Frames(RecordsOf(gs));
    GroupsFit(gs);
    forall q | 0 <= q < |section| && Aligned(section, q) && Wanted(section[q])
      ensures section[q] in g && g[section[q]].0 <= base + q < g[section[q]].0 + g[section[q]].1
    {
      var k := AlignedIsStart(RecordsOf(gs), q);
      var i := GroupOfRecord(gs, k);
    }
  }

  /** A section written in groups, with an offset record for each, is well grouped. */
  lemma LaidOutIsWellGrouped(offsets: seq<Item>, gs: seq<Group>, base: nat, rd: Reader)
    requires Grouped(gs) && ListsGroups(offsets, gs, base) && ReadAll(RecordsOf(gs), rd).Some?
    ensures WellGrouped(Frames(RecordsOf(gs)), base, GroupsOf(map[], offsets), rd)
    ensures Records(Frames(RecordsOf(gs)), rd) == ReadAll(RecordsOf(gs), rd)
  {
    hide Frames, Grouped, ListsGroups, Located, GroupsAligned, GroupsComplete, ReadAll, Records, GroupsOf;
    GroupsFit(gs);
    FramesRoundTrip(RecordsOf(gs), rd);
    OffsetsLocateAll(offsets, gs, base);
    LaidGroupsAligned(GroupsOf(map[], offsets), gs, base);
    LaidGroupsComplete(GroupsOf(map[], offsets), gs, base);
  }

  // ---- The whole file ----

  /** Footer record and magic, behind any data. */
  function FooterBytes(start: nat, offsets: nat, crc: seq<byte>): seq<byte>
  {
    [FOOTER] + Packed(FOOTER_PAYLOAD, 8) + Packed(start, 8) + Packed(offsets, 8) + crc + MAGIC
  }

  lemma FooterRoundTrip(data: seq<byte>, start: nat, offsets: nat, crc: seq<byte>)
    requires start < Power256(8) && offsets < Power256(8) && |crc| == 4
    ensures FooterOf(data + FooterBytes(start, offsets, crc)) == Some(Footer(start, offsets))
  {
    hide LittleEndian, Packed;
    var tail := FooterBytes(start, offsets, crc);
    var file := data + tail;
    assert file[|file| - 8..] == MAGIC;
    var f := file[|file| - FOOTER_LEN..|file| - 8];
    assert f == tail[..29];
    assert f[0] == FOOTER && f[1..9] == Packed(FOOTER_PAYLOAD, 8);
    assert f[9..17] == Packed(start, 8) && f[17..25] == Packed(offsets, 8);
    assert FOOTER_PAYLOAD < Power256(8);
    UnpackPacked(FOOTER_PAYLOAD, 8);
    UnpackPacked(start, 8);
    UnpackPacked(offsets, 8);
  }

  /** Data, the groups, their offset records, the footer. */
  function Laid(data: seq<byte>, gs: seq<Group>, offsets: seq<Framed>, crc: seq<byte>): seq<byte>
  {
    var section := Frames(RecordsOf(gs));
    data + section + Frames(offsets) + FooterBytes(|data|, |data| + |section|, crc)
  }

  /**
   A file laid out by the format is read back: the targeted read finds exactly the summary of the records that
   were written, whenever they include statistics and no fewer channels and schemas than those claim.
   */
  lemma LaidOutFileIsRead(data: seq<byte>, gs: seq<Group>, offsets: seq<Framed>, crc: seq<byte>, rd: Reader)
    requires data != [] && Grouped(gs) && AllFit(offsets) && |crc| == 4
    requires |data| + |Frames(RecordsOf(gs))| < Power256(8) && 0 < |Frames(offsets)| <= MAX_OFFSETS_LEN
    requires ReadAll(RecordsOf(gs), rd).Some? && ReadAll(offsets, rd).Some?
    requires ListsGroups(ReadAll(offsets, rd).value, gs, |data|)
    ensures var out, items := Targeted(Laid(data, gs, offsets, crc), rd), ReadAll(RecordsOf(gs), rd).value;
            && (out.Found? <==> HasAllClaimed(items)) && (out.Found? || out == Unavailable)
            && (out.Found? ==> Summarizes(out.summary, items))
  {
    hide Frames, Grouped, ListsGroups, ReadAll, Records, FooterOf, FooterBytes, HasAllClaimed, Summarizes, WellGrouped,
         Targeted, Power256;
    var section, listed := Frames(RecordsOf(gs)), Frames(offsets);
    var file := Laid(data, gs, offsets, crc);
    var f := Footer(|data|, |data| + |section|);
    FooterLength(f.start, f.offsets, crc);
    FooterRoundTrip(data + section + listed, f.start, f.offsets, crc);
    assert file[f.start..f.offsets] == section;
    assert file[f.offsets..|file| - FOOTER_LEN] == listed;
    FramesRoundTrip(offsets, rd);
    LaidOutIsWellGrouped(ReadAll(offsets, rd).value, gs, |data|, rd);
    TargetedIsLinear(file, rd, f, ReadAll(offsets, rd).value);
  }

  lemma FooterLength(start: nat, offsets: nat, crc: seq<byte>)
    requires |crc| == 4
    ensures |FooterBytes(start, offsets, crc)| == FOOTER_LEN
  {
    hide Packed;
  }

  // ---- Any file ----

  /** Packing is the only way to write a number in so many bytes. */
  lemma {:induction false} PackUnpacked(b: seq<byte>)
    ensures Packed(LittleEndian(b), |b|) == b && LittleEndian(b) < Power256(|b|)
  {
    if b != [] {
      PackUnpacked(b[1..]);
      assert b == [b[0]] + b[1..];
    }
  }

  /** A footer is read only where one was written. */
  lemma FooterOnlyWhereWritten(file: seq<byte>)
    requires FooterOf(file).Some?
    ensures var f, n := FooterOf(file).value, |file| - FOOTER_LEN;
            && f.start < Power256(8) && f.offsets < Power256(8)
            && file == file[..n] + FooterBytes(f.start, f.offsets, file[n + 25..n + 29])
  {
    hide LittleEndian, Packed, Power256;
    var n := |file| - FOOTER_LEN;
    var f := file[n..|file| - 8];
    PackUnpacked(f[1..9]);
    PackUnpacked(f[9..17]);
    PackUnpacked(f[17..25]);
    assert f == [f[0]] + f[1..9] + f[9..17] + f[17..25] + f[25..29];
    assert file == file[..n] + f + file[|file| - 8..];
  }

  /** The records of the ranges, one range after another. */
  function ItemsIn(file: seq<byte>, ranges: seq<Range>, rd: Reader): Option<seq<Item>>
  {
    if ranges == [] then Some([])
    else
      match Records(Slice(file, ranges[0]), rd)
      case None => None
      case Some(items) =>
        match ItemsIn(file, ranges[1..], rd)
        case None => None
        case Some(rest) => Some(items + rest)
  }

  lemma {:induction false} ScanIsCollected(file: seq<byte>, ranges: seq<Range>, p: Parts, rd: Reader)
    ensures ScanRanges(file, ranges, p, rd) ==
            match ItemsIn(file, ranges, rd) case None => None case Some(items) => Some(AddAll(p, items))
    decreases |ranges|
  {
    hide AddAll, Records, Slice;
    if ranges == [] {
      assert AddAll(p, []) == p by {
        NothingAdded(p);
      }
    } else {
      match Records(Slice(file, ranges[0]), rd) {
        case None =>
        case Some(items) =>
          ScanIsCollected(file, ranges[1..], AddAll(p, items), rd);
          if ItemsIn(file, ranges[1..], rd).Some? {
            AddAllConcat(p, items, ItemsIn(file, ranges[1..], rd).value);
          }
      }
    }
  }

  lemma NothingAdded(p: Parts)
    ensures AddAll(p, []) == p
  {
  }

  /** The group an opcode's last summary-offset record names lies in the summary section. */
  ghost predicate ListedInside(g: Groups, op: byte, f: Footer)
  {
    op in g ==> f.start <= g[op].0 && g[op].0 + g[op].1 <= f.offsets
  }

  /**
   Whatever the bytes are. "No summary" is said of exactly the files whose footer says so. A summary is found only
   behind a footer that points at summary offsets which list statistics and nothing wanted outside the summary
   section; and it is then the summary of records read from that section.
   */
  lemma FoundIsJustified(file: seq<byte>, rd: Reader)
    ensures Targeted(file, rd) == NoSummary <==> FooterOf(file).Some? && FooterOf(file).value.start == 0
    ensures var out := Targeted(file, rd);
            out.Found? ==>
              && FooterOf(file).Some?
              && var f := FooterOf(file).value;
                 && f.start != 0 && OffsetsInBounds(file, f)
                 && Records(file[f.offsets..|file| - FOOTER_LEN], rd).Some?
                 && var g := GroupsOf(map[], Records(file[f.offsets..|file| - FOOTER_LEN], rd).value);
                    && STATISTICS in g
                    && ListedInside(g, SCHEMA, f) && ListedInside(g, CHANNEL, f) && ListedInside(g, STATISTICS, f)
                    && Merge(WantedGroups(g), f).Some?
                    && var items := ItemsIn(file, Merge(WantedGroups(g), f).value, rd);
                       items.Some? && HasAllClaimed(items.value) && Summarizes(out.summary, items.value)
  {
    hide Records, FooterOf, WantedGroups, GroupsOf, Merge, ScanRanges, Verdict, AddAll, HasAllClaimed, Summarizes;
    if FooterOf(file).Some? && OffsetsInBounds(file, FooterOf(file).value) {
      var f := FooterOf(file).value;
      var offsets := Records(file[f.offsets..|file| - FOOTER_LEN], rd);
      if offsets.Some? {
        GroupsJustified(file, f, GroupsOf(map[], offsets.value), rd);
      }
    }
  }

  lemma GroupsJustified(file: seq<byte>, f: Footer, g: Groups, rd: Reader)
    ensures var out := TargetedGroups(file, f, g, rd);
            && out != NoSummary
            && (out.Found? ==>
                  && STATISTICS in g
                  && ListedInside(g, SCHEMA, f) && ListedInside(g, CHANNEL, f) && ListedInside(g, STATISTICS, f)
                  && Merge(WantedGroups(g), f).Some?
                  && var items := ItemsIn(file, Merge(WantedGroups(g), f).value, rd);
                     items.Some? && HasAllClaimed(items.value) && Summarizes(out.summary, items.value))
  {
    hide WantedGroups, Merge, ScanRanges, Verdict, AddAll, HasAllClaimed, Summarizes, ItemsIn;
    if STATISTICS in g && Merge(WantedGroups(g), f).Some? {
      var ranges := Merge(WantedGroups(g), f).value;
      ScanIsCollected(file, ranges, NO_PARTS, rd);
      if ItemsIn(file, ranges, rd).Some? {
        VerdictOnSection(ItemsIn(file, ranges, rd).value);
      }
      WantedGroupsOk(g);
      MergedInside(WantedGroups(g), f);
    }
  }

  lemma {:induction false} MergedInside(want: seq<(nat, nat)>, f: Footer)
    requires Merge(want, f).Some?
    ensures forall x | x in want :: f.start <= x.0 && x.0 + x.1 <= f.offsets
  {
    hide MergeOne;
    if want != [] {
      MergedInside(want[..|want| - 1], f);
      assert want == want[..|want| - 1] + [want[|want| - 1]];
    }
  }
}
