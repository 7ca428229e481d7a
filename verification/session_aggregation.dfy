/**
 Session aggregation: files are bucketed by partition, sorted, and swept into sessions. The blocks of
 the sweep are the connected components of "the gap is at most the threshold".
 */
module SessionAggregation {
  import opened Basics
  import opened Text
  import opened HiveKey

  datatype File = File(key: string, min: int, max: int)

  datatype Session = Session(keys: seq<string>, min: int, max: int, partition: string)

  // ---- The partition of a key ----

  function Undated(segs: seq<string>): seq<string>
  {
    if segs == [] then []
    else Undated(segs[..|segs| - 1]) + if HasPrefix(segs[|segs| - 1], DATE) then [] else [segs[|segs| - 1]]
  }

  /** Segments joined with '/', but for separators that would come first. */
  function Joined(segs: seq<string>): string
  {
    if segs == [] then ""
    else
      var out := Joined(segs[..|segs| - 1]);
      (if out == "" then "" else out + "/") + segs[|segs| - 1]
  }

  /** The path without its file name and without any `date=` segment. */
  function PartitionKey(key: string): string
  {
    var segs := Split(key);
    Joined(Undated(segs[..|segs| - 1]))
  }

  lemma {:induction false} SplitHere(s: string, k: nat)
    requires k <= |s| && '/' !in s[..k]
    ensures k < |s| && s[k] == '/' ==> Split(s) == [s[..k]] + Split(s[k + 1..])
    ensures k == |s| ==> Split(s) == [s]
  {
    if k > 0 {
      assert s[0] in s[..k];
      assert s[1..][..k - 1] == s[..k][1..];
      SplitHere(s[1..], k - 1);
      assert s[..k] == [s[0]] + s[1..][..k - 1];
      assert k < |s| ==> s[1..][k..] == s[k + 1..];
      assert s == [s[0]] + s[1..];
    } else if s != "" {
      assert s[..0] == "";
    }
  }

  /** `find('/', pos)`; the key's length stands for "none". */
  method FindSlash(key: string, pos: nat) returns (at: nat)
    requires pos <= |key|
    ensures pos <= at <= |key| && '/' !in key[pos..at] && (at < |key| ==> key[at] == '/')
  {
    at := pos;
    while at < |key| && key[at] != '/'
      invariant pos <= at <= |key| && '/' !in key[pos..at]
    {
      at := at + 1;
    }
  }

  lemma SplitFrom(key: string, pos: nat, at: nat)
    requires pos <= at <= |key| && '/' !in key[pos..at]
    ensures at < |key| && key[at] == '/' ==> Split(key[pos..]) == [key[pos..at]] + Split(key[at + 1..])
    ensures at == |key| ==> Split(key[pos..]) == [key[pos..at]]
  {
    hide Split;
    var rest := key[pos..];
    assert rest[..at - pos] == key[pos..at];
    SplitHere(rest, at - pos);
    if at < |key| {
      assert rest[at - pos + 1..] == key[at + 1..];
      assert rest[at - pos] == key[at];
    } else {
      assert key[pos..at] == rest;
    }
  }

  /** The splitting loop of `partitionKey`. */
  method SplitSegments(key: string) returns (segs: seq<string>)
    ensures segs == Split(key)
  {
    hide Split;
    segs := [];
    var pos := 0;
    assert key[0..] == key;
    while true
      invariant 0 <= pos <= |key| && segs + Split(key[pos..]) == Split(key)
      decreases |key| - pos
    {
      var at := FindSlash(key, pos);
      SplitFrom(key, pos, at);
      if at == |key| {
        segs := segs + [key[pos..at]];
        return;
      }
      assert segs + ([key[pos..at]] + Split(key[at + 1..])) == segs + [key[pos..at]] + Split(key[at + 1..]);
      segs := segs + [key[pos..at]];
      pos := at + 1;
    }
  }

  method ComputePartitionKey(key: string) returns (out: string)
    ensures out == PartitionKey(key)
  {
    hide Split;
    var segs := SplitSegments(key);
    var kept := segs[..|segs| - 1];
    out := "";
    var i := 0;
    assert kept[..0] == [];
    while i < |kept|
      invariant 0 <= i <= |kept| && out == Joined(Undated(kept[..i]))
    {
      assert kept[..i + 1][..i] == kept[..i];
      if !HasPrefix(kept[i], DATE) {
        var before := Undated(kept[..i]);
        assert (before + [kept[i]])[..|before|] == before;
        if out != "" {
          out := out + "/";
        }
        out := out + kept[i];
      } else {
        assert Undated(kept[..i]) + [] == Undated(kept[..i]);
      }
      i := i + 1;
    }
    assert kept[..i] == kept;
  }

  ghost predicate NoSlashes(segs: seq<string>)
  {
    forall i | 0 <= i < |segs| :: '/' !in segs[i]
  }

  lemma {:induction false} JoinMore(segs: seq<string>, x: string)
    ensures Join(segs + [x]) == if segs == [] then x else Join(segs) + "/" + x
  {
    if |segs| == 1 {
      assert (segs + [x])[1..] == [x];
    } else if |segs| > 1 {
      assert (segs + [x])[1..] == segs[1..] + [x];
      JoinMore(segs[1..], x);
    }
  }

  lemma {:induction false} StripConcat(a: string, b: string)
    ensures StripSlashes(a + b) == if StripSlashes(a) == "" then StripSlashes(b) else StripSlashes(a) + b
  {
    if a == "" {
      assert a + b == b;
    } else if a[0] == '/' {
      StripConcat(a[1..], b);
      assert (a + b)[1..] == a[1..] + b;
    }
  }

  lemma StripSegment(x: string)
    requires '/' !in x
    ensures StripSlashes(x) == x && StripSlashes("/" + x) == x
  {
    assert x != "" ==> x[0] in x;
    assert ("/" + x)[1..] == x;
  }

  /** A segment behind a path that may be nothing but separators. */
  lemma StripMore(path: string, x: string)
    requires '/' !in x
    ensures StripSlashes(path + "/" + x) == if StripSlashes(path) == "" then x else StripSlashes(path) + "/" + x
  {
    hide StripSlashes;
    StripSegment(x);
    StripConcat(path, "/" + x);
    assert path + "/" + x == path + ("/" + x);
    assert StripSlashes(path) + "/" + x == StripSlashes(path) + ("/" + x);
  }

  lemma JoinedMore(segs: seq<string>, x: string)
    ensures Joined(segs + [x]) == (if Joined(segs) == "" then "" else Joined(segs) + "/") + x
  {
    assert (segs + [x])[..|segs|] == segs;
  }

  /** Separators that would come first are dropped, and no others. */
  lemma {:induction false} JoinedIsJoin(segs: seq<string>)
    requires NoSlashes(segs)
    ensures Joined(segs) == StripSlashes(Join(segs))
  {
    if segs != [] {
      var front, x := segs[..|segs| - 1], segs[|segs| - 1];
      assert front == [] ==> Joined(front) == "";
      hide Join, StripSlashes, Joined;
      assert segs == front + [x];
      JoinedIsJoin(front);
      JoinedMore(front, x);
      JoinMore(front, x);
      StripSegment(x);
      StripMore(Join(front), x);
      assert "" + x == x;
    }
  }

  lemma {:induction false} UndatedConcat(a: seq<string>, b: seq<string>)
    ensures Undated(a + b) == Undated(a) + Undated(b)
  {
    if b == [] {
      assert a + b == a;
    } else {
      hide HasPrefix;
      var n := |b| - 1;
      UndatedConcat(a, b[..n]);
      assert (a + b)[..|a| + n] == a + b[..n];
      var last := if HasPrefix(b[n], DATE) then [] else [b[n]];
      assert Undated(a) + Undated(b[..n]) + last == Undated(a) + (Undated(b[..n]) + last);
    }
  }

  lemma {:induction false} NoneDated(segs: seq<string>)
    requires forall i | 0 <= i < |segs| :: !HasPrefix(segs[i], DATE)
    ensures Undated(segs) == segs
  {
    if segs != [] {
      NoneDated(segs[..|segs| - 1]);
    }
  }

  lemma PartitionOf(segs: seq<string>)
    requires NoSlashes(segs) && segs != []
    ensures PartitionKey(Join(segs)) == Joined(Undated(segs[..|segs| - 1]))
  {
    SplitJoin(segs);
  }

  /** The partition of a key without dates is its directory. */
  lemma PlainPartition(dirs: seq<string>, name: string)
    requires NoSlashes(dirs) && '/' !in name && forall i | 0 <= i < |dirs| :: !HasPrefix(dirs[i], DATE)
    ensures PartitionKey(Join(dirs + [name])) == StripSlashes(Join(dirs))
  {
    hide PartitionKey, Join, Joined, Undated;
    PartitionOf(dirs + [name]);
    assert (dirs + [name])[..|dirs|] == dirs;
    NoneDated(dirs);
    JoinedIsJoin(dirs);
  }

  lemma WithoutLast(a: seq<string>, b: seq<string>)
    requires b != []
    ensures (a + b)[..|a + b| - 1] == a + b[..|b| - 1]
  {
  }

  lemma DateIsDropped(a: seq<string>, date: string, b: seq<string>)
    requires HasPrefix(date, DATE)
    ensures Undated(a + ([date] + b)) == Undated(a + b)
  {
    assert [date][..0] == [] && Undated([date]) == [];
    hide Undated;
    UndatedConcat(a, [date] + b);
    UndatedConcat([date], b);
    UndatedConcat(a, b);
  }

  /** A date anywhere in the path makes no difference. */
  lemma DateDoesNotMatter(a: seq<string>, date: string, b: seq<string>)
    requires NoSlashes(a) && '/' !in date && NoSlashes(b) && HasPrefix(date, DATE) && b != []
    ensures PartitionKey(Join(a + ([date] + b))) == PartitionKey(Join(a + b))
  {
    hide PartitionKey, Join, Joined, Undated, HasPrefix;
    PartitionOf(a + ([date] + b));
    PartitionOf(a + b);
    WithoutLast(a, b);
    WithoutLast(a, [date] + b);
    WithoutLast([date], b);
    DateIsDropped(a, date, b[..|b| - 1]);
  }

  /** The partition of a catalog key is its first four dimensions, dates and file names aside. */
  lemma HivePartition(d: Dims)
    requires Valid(d)
    ensures PartitionKey(Rebuild(d)) == Join([CUSTOMER + d.customer, SITE + d.site, ROBOT + d.robot, SOURCE + d.source])
  {
    SegmentsHaveNoSlash(d);
    hide Split, PartitionKey, Valid;
    var dirs := [CUSTOMER + d.customer, SITE + d.site, ROBOT + d.robot, SOURCE + d.source];
    var name := Segments(d)[5];
    assert Segments(d) == dirs + [DATE + d.date] + [name];
    assert forall i | 0 <= i < 4 :: dirs[i] == Segments(d)[i];
    assert Segments(d)[4] == DATE + d.date;
    DateDoesNotMatter(dirs, DATE + d.date, [name]);
    assert Segments(d) == dirs + ([DATE + d.date] + [name]);
    assert forall i | 0 <= i < 4 :: dirs[i][0] in {'c', 's', 'r'};
    assert forall t: string | HasPrefix(t, DATE) :: t[0] == t[..5][0];
    PlainPartition(dirs, name);
    assert Join(dirs)[0] == 'c';
  }

  /** So two catalog files share a partition exactly when those four dimensions agree. */
  lemma SamePartitionIff(d: Dims, e: Dims)
    requires Valid(d) && Valid(e)
    ensures PartitionKey(Rebuild(d)) == PartitionKey(Rebuild(e)) <==>
            d.customer == e.customer && d.site == e.site && d.robot == e.robot && d.source == e.source
  {
    HivePartition(d);
    HivePartition(e);
    hide Split, Join, PartitionKey, Rebuild;
    var a := [CUSTOMER + d.customer, SITE + d.site, ROBOT + d.robot, SOURCE + d.source];
    var b := [CUSTOMER + e.customer, SITE + e.site, ROBOT + e.robot, SOURCE + e.source];
    SplitJoin(a);
    SplitJoin(b);
    if a == b {
      assert a[0][|CUSTOMER|..] == d.customer && b[0][|CUSTOMER|..] == e.customer;
      assert a[1][|SITE|..] == d.site && b[1][|SITE|..] == e.site;
      assert a[2][|ROBOT|..] == d.robot && b[2][|ROBOT|..] == e.robot;
      assert a[3][|SOURCE|..] == d.source && b[3][|SOURCE|..] == e.source;
    }
  }

  // ---- Sorting ----

  /** Both sorts order by a time and then a string. */
  type Rank = (int, string)

  predicate Below(a: Rank, b: Rank)
  {
    a.0 < b.0 || (a.0 == b.0 && Less(a.1, b.1))
  }

  function FileRank(f: File): Rank
  {
    (f.min, f.key)
  }

  function SessionRank(s: Session): Rank
  {
    (s.min, s.partition)
  }

  function Insert<T>(x: T, s: seq<T>, rank: T -> Rank): seq<T>
  {
    if s == [] || !Below(rank(s[0]), rank(x)) then [x] + s else [s[0]] + Insert(x, s[1..], rank)
  }

  function SortBy<T>(s: seq<T>, rank: T -> Rank): seq<T>
  {
    if s == [] then [] else Insert(s[0], SortBy(s[1..], rank), rank)
  }

  ghost predicate Ordered<T>(s: seq<T>, rank: T -> Rank)
  {
    forall i, j | 0 <= i < j < |s| :: !Below(rank(s[j]), rank(s[i]))
  }

  lemma BelowTotal(a: Rank, b: Rank)
    ensures Below(a, b) || Below(b, a) || a == b
    ensures !(Below(a, b) && Below(b, a))
  {
    LessTotal(a.1, b.1);
    if Less(a.1, b.1) {
      LessAsymmetric(a.1, b.1);
    }
  }

  lemma BelowTransitive(a: Rank, b: Rank, c: Rank)
    ensures !Below(b, a) && !Below(c, b) ==> !Below(c, a)
  {
    if !Below(b, a) && !Below(c, b) && Below(c, a) {
      BelowTotal(a, b);
      BelowTotal(b, c);
      if a.0 == b.0 == c.0 && Less(c.1, a.1) && Less(a.1, b.1) {
        LessTransitive(c.1, a.1, b.1);
      }
    }
  }

  lemma {:induction false} InsertKeeps<T>(x: T, s: seq<T>, rank: T -> Rank)
    ensures multiset(Insert(x, s, rank)) == multiset{x} + multiset(s)
  {
    hide Below;
    if s != [] && Below(rank(s[0]), rank(x)) {
      InsertKeeps(x, s[1..], rank);
      assert s == [s[0]] + s[1..];
    }
  }

  lemma {:induction false} InsertOrdered<T>(x: T, s: seq<T>, rank: T -> Rank)
    requires Ordered(s, rank)
    ensures Ordered(Insert(x, s, rank), rank)
  {
    hide Below;
    if s == [] {
    } else if !Below(rank(s[0]), rank(x)) {
      forall j | 0 <= j < |s|
        ensures !Below(rank(s[j]), rank(x))
      {
        BelowTransitive(rank(x), rank(s[0]), rank(s[j]));
      }
    } else {
      InsertOrdered(x, s[1..], rank);
      InsertKeeps(x, s[1..], rank);
      BelowTotal(rank(s[0]), rank(x));
      var r := Insert(x, s[1..], rank);
      forall k | 0 <= k < |r|
        ensures !Below(rank(r[k]), rank(s[0]))
      {
        assert r[k] in multiset(r);
        assert r[k] == x || r[k] in s[1..];
      }
    }
  }

  /** Sorting keeps the elements and puts them in order. */
  lemma {:induction false} SortKeeps<T>(s: seq<T>, rank: T -> Rank)
    ensures multiset(SortBy(s, rank)) == multiset(s) && Ordered(SortBy(s, rank), rank)
  {
    hide Below, Insert;
    if s != [] {
      SortKeeps(s[1..], rank);
      InsertKeeps(s[0], SortBy(s[1..], rank), rank);
      InsertOrdered(s[0], SortBy(s[1..], rank), rank);
      assert s == [s[0]] + s[1..];
    }
  }

  /** No two different elements share a rank. */
  ghost predicate TieFree<T>(s: multiset<T>, rank: T -> Rank)
  {
    forall a, b | a in s && b in s && rank(a) == rank(b) :: a == b
  }

  lemma FirstIsLeast<T>(s: seq<T>, rank: T -> Rank, x: T)
    requires Ordered(s, rank) && s != [] && x in s
    ensures !Below(rank(x), rank(s[0]))
  {
    hide Below;
    BelowTotal(rank(x), rank(x));
  }

  lemma SameFirst<T>(s: seq<T>, t: seq<T>, rank: T -> Rank)
    requires Ordered(s, rank) && Ordered(t, rank) && s != [] && t != [] && TieFree(multiset(s), rank)
    requires s[0] in t && t[0] in s
    ensures s[0] == t[0]
  {
    hide Below, Ordered;
    FirstIsLeast(s, rank, t[0]);
    FirstIsLeast(t, rank, s[0]);
    BelowTotal(rank(s[0]), rank(t[0]));
    assert s[0] in multiset(s) && t[0] in multiset(s);
  }

  lemma TailMultiset<T>(s: seq<T>)
    requires s != []
    ensures multiset(s[1..]) == multiset(s) - multiset{s[0]}
  {
    assert s == [s[0]] + s[1..];
  }

  /** Without ties there is only one way to be in order, whichever sort is used. */
  lemma {:induction false} OrderIsUnique<T>(s: seq<T>, t: seq<T>, rank: T -> Rank)
    requires Ordered(s, rank) && Ordered(t, rank) && multiset(s) == multiset(t) && TieFree(multiset(s), rank)
    ensures s == t
  {
    hide Below, Ordered, TieFree;
    assert |s| == |multiset(s)| == |multiset(t)| == |t|;
    if s != [] {
      assert s[0] in multiset(t) && t[0] in multiset(s);
      SameFirst(s, t, rank);
      TailMultiset(s);
      TailMultiset(t);
      OrderedTail(s, rank);
      OrderedTail(t, rank);
      OrderIsUnique(s[1..], t[1..], rank);
      assert s == [s[0]] + s[1..] && t == [t[0]] + t[1..];
    }
  }

  lemma OrderedTail<T>(s: seq<T>, rank: T -> Rank)
    requires Ordered(s, rank) && s != []
    ensures Ordered(s[1..], rank)
    ensures TieFree(multiset(s), rank) ==> TieFree(multiset(s[1..]), rank)
  {
    hide Below;
    TailMultiset(s);
  }

  // ---- The sweep ----

  /** The latest end so far, never below zero: `prev_max` starts there. */
  function PrevMax(items: seq<File>): int
  {
    if items == [] then 0
    else
      var m := PrevMax(items[..|items| - 1]);
      if m < items[|items| - 1].max then items[|items| - 1].max else m
  }

  predicate Splits(items: seq<File>, f: File, threshold: int)
  {
    items == [] || f.min - PrevMax(items) > threshold
  }

  /** The blocks of the sweep over sorted files. */
  function Blocks(items: seq<File>, threshold: int): (bs: seq<seq<File>>)
    ensures items != [] ==> bs != []
  {
    if items == [] then []
    else
      var n := |items| - 1;
      var bs := Blocks(items[..n], threshold);
      if Splits(items[..n], items[n], threshold) then bs + [[items[n]]]
      else bs[..|bs| - 1] + [bs[|bs| - 1] + [items[n]]]
  }

  function MinOf(b: seq<File>): int
    requires b != []
  {
    if |b| == 1 then b[0].min
    else
      var m := MinOf(b[..|b| - 1]);
      if b[|b| - 1].min < m then b[|b| - 1].min else m
  }

  function MaxOf(b: seq<File>): int
    requires b != []
  {
    if |b| == 1 then b[0].max
    else
      var m := MaxOf(b[..|b| - 1]);
      if m < b[|b| - 1].max then b[|b| - 1].max else m
  }

  function KeysOf(b: seq<File>): seq<string>
  {
    if b == [] then [] else KeysOf(b[..|b| - 1]) + [b[|b| - 1].key]
  }

  function SessionOf(b: seq<File>, partition: string): Session
    requires b != []
  {
    Session(KeysOf(b), MinOf(b), MaxOf(b), partition)
  }

  function SessionsOf(bs: seq<seq<File>>, partition: string): seq<Session>
    requires forall i | 0 <= i < |bs| :: bs[i] != []
  {
    if bs == [] then [] else SessionsOf(bs[..|bs| - 1], partition) + [SessionOf(bs[|bs| - 1], partition)]
  }

  lemma {:induction false} BlocksNonEmpty(items: seq<File>, threshold: int)
    ensures forall i | 0 <= i < |Blocks(items, threshold)| :: Blocks(items, threshold)[i] != []
  {
    if items != [] {
      BlocksNonEmpty(items[..|items| - 1], threshold);
    }
  }

  lemma KeysMore(b: seq<File>, f: File)
    ensures KeysOf(b + [f]) == KeysOf(b) + [f.key]
  {
    assert (b + [f])[..|b|] == b;
  }

  lemma SessionMore(b: seq<File>, f: File, partition: string)
    requires b != []
    ensures var s := SessionOf(b, partition);
            SessionOf(b + [f], partition) ==
            Session(s.keys + [f.key], if f.min < s.min then f.min else s.min,
                    if s.max < f.max then f.max else s.max, partition)
  {
    KeysMore(b, f);
    assert (b + [f])[..|b|] == b;
  }

  lemma SessionsMore(bs: seq<seq<File>>, b: seq<File>, partition: string)
    requires b != [] && forall i | 0 <= i < |bs| :: bs[i] != []
    ensures SessionsOf(bs + [b], partition) == SessionsOf(bs, partition) + [SessionOf(b, partition)]
  {
    assert (bs + [b])[..|bs|] == bs;
  }

  /** The sweep loop: the open session is kept apart until a gap closes it. */
  method Sweep(items: seq<File>, partition: string, threshold: int) returns (sessions: seq<Session>)
    ensures forall i | 0 <= i < |Blocks(items, threshold)| :: Blocks(items, threshold)[i] != []
    ensures sessions == SessionsOf(Blocks(items, threshold), partition)
  {
    hide Blocks, PrevMax, SessionOf, SessionsOf;
    sessions := [];
    var cur := Session([], 0, 0, partition);
    var isOpen, prevMax := false, 0;
    var i := 0;
    ghost var closed: seq<seq<File>>, block: seq<File> := [], [];
    SweepStart(items, partition, threshold);
    while i < |items|
      invariant 0 <= i <= |items| && isOpen == (i > 0) && prevMax == PrevMax(items[..i])
      invariant forall k | 0 <= k < |closed| :: closed[k] != []
      invariant sessions == SessionsOf(closed, partition)
      invariant isOpen ==>
                  && block != [] && cur == SessionOf(block, partition)
                  && Blocks(items[..i], threshold) == closed + [block]
      invariant !isOpen ==> closed == []
    {
      var it := items[i];
      SweepStep(items, i, threshold);
      var split := isOpen && it.min - prevMax > threshold;
      if !isOpen || split {
        if isOpen {
          SessionsMore(closed, block, partition);
          sessions := sessions + [cur];
          closed := closed + [block];
        }
        OneFile(it, partition);
        cur := Session([], it.min, it.max, partition);
        isOpen := true;
        block := [it];
      } else {
        SessionMore(block, it, partition);
        assert (closed + [block])[..|closed|] == closed;
        block := block + [it];
      }
      cur := Session(cur.keys + [it.key], if it.min < cur.min then it.min else cur.min,
                     if cur.max < it.max then it.max else cur.max, partition);
      prevMax := if prevMax < it.max then it.max else prevMax;
      i := i + 1;
    }
    BlocksNonEmpty(items, threshold);
    if isOpen {
      SessionsMore(closed, block, partition);
      sessions := sessions + [cur];
    }
  }

  lemma OneFile(f: File, partition: string)
    ensures SessionOf([f], partition) == Session([f.key], f.min, f.max, partition)
  {
    KeysMore([], f);
    assert [] + [f] == [f];
  }

  lemma SweepStart(items: seq<File>, partition: string, threshold: int)
    ensures PrevMax(items[..0]) == 0 && items[..|items|] == items
    ensures SessionsOf([], partition) == [] && Blocks([], threshold) == []
  {
    assert items[..0] == [];
  }

  lemma SweepStep(items: seq<File>, i: nat, threshold: int)
    requires i < |items|
    ensures PrevMax(items[..i + 1]) == if PrevMax(items[..i]) < items[i].max then items[i].max else PrevMax(items[..i])
    ensures var bs := Blocks(items[..i], threshold);
            Blocks(items[..i + 1], threshold) ==
            if Splits(items[..i], items[i], threshold) then bs + [[items[i]]]
            else bs[..|bs| - 1] + [bs[|bs| - 1] + [items[i]]]
    ensures i == 0 ==> Blocks(items[..i], threshold) == []
  {
    assert items[..i + 1][..i] == items[..i];
  }

  // ---- Blocks are connected components ----

  /** Neither file starts more than `threshold` after the other ends. */
  predicate Near(a: File, b: File, threshold: int)
  {
    b.min - a.max <= threshold && a.min - b.max <= threshold
  }

  ghost predicate IsPath(pool: seq<File>, threshold: int, path: seq<File>)
  {
    && |path| >= 1
    && (forall i | 0 <= i < |path| :: path[i] in pool)
    && (forall i | 0 <= i < |path| - 1 :: Near(path[i], path[i + 1], threshold))
  }

  ghost predicate Connected(pool: seq<File>, threshold: int, a: File, b: File)
  {
    exists path :: IsPath(pool, threshold, path) && path[0] == a && path[|path| - 1] == b
  }

  lemma ConnectedSelf(pool: seq<File>, threshold: int, a: File)
    requires a in pool
    ensures Connected(pool, threshold, a, a)
  {
    assert IsPath(pool, threshold, [a]);
  }

  lemma ConnectedMore(pool: seq<File>, more: seq<File>, threshold: int, a: File, b: File)
    requires Connected(pool, threshold, a, b) && forall x | x in pool :: x in more
    ensures Connected(more, threshold, a, b)
  {
    var path :| IsPath(pool, threshold, path) && path[0] == a && path[|path| - 1] == b;
    assert IsPath(more, threshold, path);
  }

  lemma ConnectedStep(pool: seq<File>, threshold: int, a: File, b: File, c: File)
    requires Connected(pool, threshold, a, b) && c in pool && Near(b, c, threshold)
    ensures Connected(pool, threshold, a, c)
  {
    var path :| IsPath(pool, threshold, path) && path[0] == a && path[|path| - 1] == b;
    var longer := path + [c];
    assert IsPath(pool, threshold, longer);
    assert longer[0] == a && longer[|longer| - 1] == c;
  }

  lemma ConnectedSymmetric(pool: seq<File>, threshold: int, a: File, b: File)
    requires Connected(pool, threshold, a, b)
    ensures Connected(pool, threshold, b, a)
  {
    var path :| IsPath(pool, threshold, path) && path[0] == a && path[|path| - 1] == b;
    var n := |path|;
    var back := seq(n, i requires 0 <= i < n => path[n - 1 - i]);
    forall i | 0 <= i < n - 1
      ensures Near(back[i], back[i + 1], threshold)
    {
      assert Near(path[n - 2 - i], path[n - 2 - i + 1], threshold);
    }
    assert IsPath(pool, threshold, back);
    assert back[0] == b && back[n - 1] == a;
  }

  lemma ConnectedJoin(pool: seq<File>, threshold: int, a: File, b: File, c: File)
    requires Connected(pool, threshold, a, b) && Connected(pool, threshold, b, c)
    ensures Connected(pool, threshold, a, c)
  {
    var p :| IsPath(pool, threshold, p) && p[0] == a && p[|p| - 1] == b;
    var q :| IsPath(pool, threshold, q) && q[0] == b && q[|q| - 1] == c;
    var both := p + q[1..];
    forall i | 0 <= i < |both| - 1
      ensures Near(both[i], both[i + 1], threshold)
    {
      if i < |p| - 1 {
        assert Near(p[i], p[i + 1], threshold);
      } else {
        var j := i - (|p| - 1);
        assert both[i] == q[j] && both[i + 1] == q[j + 1];
      }
    }
    assert IsPath(pool, threshold, both);
    assert both[0] == a && both[|both| - 1] == c;
  }

  /** Every file of a block is connected, inside the block, to its first. */
  ghost predicate Chained(b: seq<File>, threshold: int)
  {
    b != [] && forall i | 0 <= i < |b| :: Connected(b, threshold, b[0], b[i])
  }

  /** Everything in a later block starts more than the threshold after everything before it ends. */
  ghost predicate Separated(bs: seq<seq<File>>, threshold: int)
  {
    forall i, j | 0 <= i < j < |bs| :: Beyond(bs[i], bs[j], threshold)
  }

  ghost predicate Beyond(early: seq<File>, late: seq<File>, threshold: int)
  {
    forall x, y | x in early && y in late :: y.min - x.max > threshold
  }

  /** Spans as the catalog has them: not negative, and not ending before they start. */
  ghost predicate GoodSpans(items: seq<File>)
  {
    forall i | 0 <= i < |items| :: 0 <= items[i].min <= items[i].max
  }

  ghost predicate ByStart(items: seq<File>)
  {
    forall i, j | 0 <= i < j < |items| :: items[i].min <= items[j].min
  }

  /** The latest end is reached in the last block. */
  ghost predicate Reaches(b: seq<File>, m: int)
  {
    exists i :: 0 <= i < |b| && b[i].max == m
  }

  lemma {:induction false} PrevMaxBounds(items: seq<File>)
    ensures forall i | 0 <= i < |items| :: items[i].max <= PrevMax(items)
  {
    if items != [] {
      PrevMaxBounds(items[..|items| - 1]);
    }
  }

  /** The blocks, one after another, are the sorted files. */
  lemma {:induction false} BlocksCover(items: seq<File>, threshold: int)
    ensures Flatten(Blocks(items, threshold)) == items
  {
    if items != [] {
      var n := |items| - 1;
      BlocksCover(items[..n], threshold);
      var bs := Blocks(items[..n], threshold);
      assert items == items[..n] + [items[n]];
      if Splits(items[..n], items[n], threshold) {
        FlattenMore(bs, [items[n]]);
      } else {
        var m := |bs| - 1;
        assert bs == bs[..m] + [bs[m]];
        FlattenMore(bs[..m], bs[m]);
        FlattenMore(bs[..m], bs[m] + [items[n]]);
        assert Flatten(bs[..m]) + bs[m] + [items[n]] == Flatten(bs[..m]) + (bs[m] + [items[n]]);
      }
    }
  }

  ghost predicate InBlock(bs: seq<seq<File>>, x: File)
  {
    exists k :: 0 <= k < |bs| && x in bs[k]
  }

  lemma InBlockMore(bs: seq<seq<File>>, b: seq<File>, x: File)
    ensures InBlock(bs + [b], x) <==> InBlock(bs, x) || x in b
  {
    var all := bs + [b];
    if InBlock(bs, x) {
      var k :| 0 <= k < |bs| && x in bs[k];
      assert x in all[k];
    }
    assert all[|bs|] == b;
  }

  lemma {:induction false} InSomeBlock(bs: seq<seq<File>>, x: File)
    ensures x in Flatten(bs) <==> InBlock(bs, x)
  {
    if bs == [] {
      assert !InBlock([], x);
    } else {
      hide InBlock;
      var n := |bs| - 1;
      InSomeBlock(bs[..n], x);
      assert bs == bs[..n] + [bs[n]];
      InBlockMore(bs[..n], bs[n], x);
    }
  }

  /** What the sweep keeps: chained blocks, far apart, the last one reaching furthest. */
  ghost predicate BlocksOk(bs: seq<seq<File>>, items: seq<File>, threshold: int)
  {
    && (forall i | 0 <= i < |bs| :: Chained(bs[i], threshold))
    && Separated(bs, threshold)
    && (items != [] ==> bs != [] && Reaches(bs[|bs| - 1], PrevMax(items)))
  }

  lemma ChainOne(f: File, threshold: int)
    ensures Chained([f], threshold)
  {
    ConnectedSelf([f], threshold, f);
  }

  lemma ChainNonEmpty(b: seq<File>, threshold: int)
    requires Chained(b, threshold)
    ensures b != []
  {
  }

  lemma ChainMore(b: seq<File>, f: File, near: File, threshold: int)
    requires Chained(b, threshold) && near in b && Near(near, f, threshold)
    ensures Chained(b + [f], threshold)
  {
    hide Connected, Near;
    var c := b + [f];
    forall i | 0 <= i < |c|
      ensures Connected(c, threshold, c[0], c[i])
    {
      if i < |b| {
        ConnectedMore(b, c, threshold, b[0], b[i]);
      } else {
        var k :| 0 <= k < |b| && b[k] == near;
        ConnectedMore(b, c, threshold, b[0], b[k]);
        ConnectedStep(c, threshold, b[0], near, f);
      }
    }
  }

  lemma SplitOk(bs: seq<seq<File>>, items: seq<File>, f: File, threshold: int)
    requires BlocksOk(bs, items, threshold) && Flatten(bs) == items
    requires Splits(items, f, threshold) && 0 <= f.min <= f.max && threshold >= 0
    ensures BlocksOk(bs + [[f]], items + [f], threshold)
  {
    hide Chained, Flatten;
    ChainOne(f, threshold);
    PrevMaxMore(items, f);
    var next := bs + [[f]];
    forall i | 0 <= i < |bs|
      ensures Beyond(bs[i], [f], threshold)
    {
      forall x | x in bs[i]
        ensures f.min - x.max > threshold
      {
        InSomeBlock(bs, x);
        PrevMaxBounds(items);
      }
    }
    assert next[|bs|] == [f] && [f][0].max == PrevMax(items + [f]);
  }

  lemma PrevMaxMore(items: seq<File>, f: File)
    ensures PrevMax(items + [f]) == if PrevMax(items) < f.max then f.max else PrevMax(items)
    ensures PrevMax(items) >= 0
  {
    assert (items + [f])[..|items|] == items;
    PrevMaxNonNegative(items);
  }

  lemma {:induction false} PrevMaxNonNegative(items: seq<File>)
    ensures PrevMax(items) >= 0
  {
    if items != [] {
      PrevMaxNonNegative(items[..|items| - 1]);
    }
  }

  lemma JoinOk(bs: seq<seq<File>>, items: seq<File>, f: File, threshold: int)
    requires BlocksOk(bs, items, threshold) && Flatten(bs) == items && items != []
    requires !Splits(items, f, threshold) && 0 <= f.min <= f.max && threshold >= 0
    requires forall x | x in items :: x.min <= f.min
    ensures BlocksOk(bs[..|bs| - 1] + [bs[|bs| - 1] + [f]], items + [f], threshold)
  {
    hide Chained, Flatten, Beyond, Reaches, Separated, PrevMax;
    var last := bs[|bs| - 1];
    ChainNonEmpty(last, threshold);
    PrevMaxMore(items, f);
    ChainToLast(bs, items, f, threshold);
    ReachesMore(last, f, PrevMax(items));
    AllFurtherBeyond(bs, f, threshold);
    SeparatedJoin(bs, last + [f], threshold);
    ChainedJoin(bs, last + [f], threshold);
  }

  lemma ChainedJoin(bs: seq<seq<File>>, b: seq<File>, threshold: int)
    requires bs != [] && Chained(b, threshold) && forall i | 0 <= i < |bs| :: Chained(bs[i], threshold)
    ensures var joined := bs[..|bs| - 1] + [b];
            forall i | 0 <= i < |joined| :: Chained(joined[i], threshold)
  {
    hide Chained;
  }

  lemma AllFurtherBeyond(bs: seq<seq<File>>, f: File, threshold: int)
    requires bs != [] && Separated(bs, threshold) && bs[|bs| - 1] != []
    requires forall x | x in Flatten(bs) :: x.min <= f.min
    ensures forall i | 0 <= i < |bs| - 1 :: Beyond(bs[i], bs[|bs| - 1] + [f], threshold)
  {
    hide Flatten, Beyond, Separated;
    forall i | 0 <= i < |bs| - 1
      ensures Beyond(bs[i], bs[|bs| - 1] + [f], threshold)
    {
      SeparatedAt(bs, threshold, i, |bs| - 1);
      FurtherBeyond(bs, i, f, threshold);
    }
  }

  lemma SeparatedAt(bs: seq<seq<File>>, threshold: int, i: nat, j: nat)
    requires Separated(bs, threshold) && i < j < |bs|
    ensures Beyond(bs[i], bs[j], threshold)
  {
  }

  lemma SeparatedJoin(bs: seq<seq<File>>, b: seq<File>, threshold: int)
    requires Separated(bs, threshold) && bs != [] && forall i | 0 <= i < |bs| - 1 :: Beyond(bs[i], b, threshold)
    ensures Separated(bs[..|bs| - 1] + [b], threshold)
  {
    hide Beyond;
  }

  lemma ChainToLast(bs: seq<seq<File>>, items: seq<File>, f: File, threshold: int)
    requires bs != [] && Chained(bs[|bs| - 1], threshold) && Flatten(bs) == items &&
             Reaches(bs[|bs| - 1], PrevMax(items))
    requires f.min - PrevMax(items) <= threshold && f.min <= f.max && threshold >= 0
    requires forall x | x in items :: x.min <= f.min
    ensures Chained(bs[|bs| - 1] + [f], threshold)
  {
    hide Chained, Flatten, PrevMax;
    var last := bs[|bs| - 1];
    var t :| 0 <= t < |last| && last[t].max == PrevMax(items);
    InSomeBlock(bs, last[t]);
    ChainMore(last, f, last[t], threshold);
  }

  lemma ReachesMore(b: seq<File>, f: File, m: int)
    requires Reaches(b, m)
    ensures Reaches(b + [f], if m < f.max then f.max else m)
  {
    var c := b + [f];
    var t :| 0 <= t < |b| && b[t].max == m;
    assert c[t].max == m && c[|b|].max == f.max;
  }

  lemma FurtherBeyond(bs: seq<seq<File>>, i: nat, f: File, threshold: int)
    requires i < |bs| - 1 && Beyond(bs[i], bs[|bs| - 1], threshold) && bs[|bs| - 1] != []
    requires forall x | x in Flatten(bs) :: x.min <= f.min
    ensures Beyond(bs[i], bs[|bs| - 1] + [f], threshold)
  {
    var first := bs[|bs| - 1][0];
    assert first in bs[|bs| - 1];
    InSomeBlock(bs, first);
  }

  lemma {:induction false} BlocksAreOk(items: seq<File>, threshold: int)
    requires GoodSpans(items) && ByStart(items) && threshold >= 0
    ensures BlocksOk(Blocks(items, threshold), items, threshold)
  {
    hide BlocksOk, PrevMax;
    if items == [] {
      NoBlocksOk(threshold);
    } else {
      var n := |items| - 1;
      var front, f := items[..n], items[n];
      BlocksAreOk(front, threshold);
      BlocksCover(front, threshold);
      var bs := Blocks(front, threshold);
      assert items == front + [f];
      if Splits(front, f, threshold) {
        SplitOk(bs, front, f, threshold);
      } else {
        JoinOk(bs, front, f, threshold);
      }
    }
  }

  lemma NoBlocksOk(threshold: int)
    ensures BlocksOk([], [], threshold)
  {
  }

  lemma FarIsNotNear(bs: seq<seq<File>>, threshold: int, i: nat, j: nat, x: File, y: File)
    requires Separated(bs, threshold) && i < |bs| && j < |bs| && i != j && x in bs[i] && y in bs[j]
    ensures !Near(x, y, threshold)
  {
    if i < j {
      assert Beyond(bs[i], bs[j], threshold);
    } else {
      assert Beyond(bs[j], bs[i], threshold);
    }
  }

  /** A path cannot leave the block it starts in. */
  lemma {:induction false} PathStays(bs: seq<seq<File>>, items: seq<File>, threshold: int, path: seq<File>, k: nat)
    requires Separated(bs, threshold) && Flatten(bs) == items
    requires IsPath(items, threshold, path) && k < |bs| && path[0] in bs[k]
    ensures path[|path| - 1] in bs[k]
    decreases |path|
  {
    hide Separated, Near, Flatten;
    if |path| > 1 {
      InSomeBlock(bs, path[1]);
      assert path[1] in items;
      var j :| 0 <= j < |bs| && path[1] in bs[j];
      assert Near(path[0], path[0 + 1], threshold);
      if j != k {
        FarIsNotNear(bs, threshold, k, j, path[0], path[1]);
        assert false;
      }
      var rest := path[1..];
      assert IsPath(items, threshold, rest) by {
        forall i | 0 <= i < |rest| - 1
          ensures Near(rest[i], rest[i + 1], threshold)
        {
          assert Near(path[i + 1], path[i + 2], threshold);
        }
      }
      PathStays(bs, items, threshold, rest, k);
    }
  }

  ghost predicate SameBlock(bs: seq<seq<File>>, a: File, b: File)
  {
    exists k :: 0 <= k < |bs| && a in bs[k] && b in bs[k]
  }

  /**
   The blocks are exactly the connected components: two files end up in one session if and only if a
   chain of gaps of at most the threshold connects them.
   */
  lemma BlocksAreComponents(items: seq<File>, threshold: int, a: File, b: File)
    requires GoodSpans(items) && ByStart(items) && threshold >= 0 && a in items && b in items
    ensures SameBlock(Blocks(items, threshold), a, b) <==> Connected(items, threshold, a, b)
  {
    hide Blocks, Flatten, Connected;
    BlocksAreOk(items, threshold);
    BlocksCover(items, threshold);
    var bs := Blocks(items, threshold);
    if SameBlock(bs, a, b) {
      var k :| 0 <= k < |bs| && a in bs[k] && b in bs[k];
      BlockConnects(bs, items, threshold, k, a, b);
    }
    if Connected(items, threshold, a, b) {
      ConnectedSameBlock(bs, items, threshold, a, b);
    }
  }

  lemma BlockConnects(bs: seq<seq<File>>, items: seq<File>, threshold: int, k: nat, a: File, b: File)
    requires k < |bs| && Chained(bs[k], threshold) && Flatten(bs) == items && a in bs[k] && b in bs[k]
    ensures Connected(items, threshold, a, b)
  {
    hide Flatten, Connected;
    var block := bs[k];
    var i :| 0 <= i < |block| && block[i] == a;
    var j :| 0 <= j < |block| && block[j] == b;
    ConnectedSymmetric(block, threshold, block[0], block[i]);
    ConnectedJoin(block, threshold, a, block[0], b);
    forall x | x in block
      ensures x in items
    {
      InSomeBlock(bs, x);
    }
    ConnectedMore(block, items, threshold, a, b);
  }

  lemma ConnectedSameBlock(bs: seq<seq<File>>, items: seq<File>, threshold: int, a: File, b: File)
    requires Separated(bs, threshold) && Flatten(bs) == items && a in items && Connected(items, threshold, a, b)
    ensures SameBlock(bs, a, b)
  {
    hide Separated, Flatten;
    InSomeBlock(bs, a);
    var k :| 0 <= k < |bs| && a in bs[k];
    var path :| IsPath(items, threshold, path) && path[0] == a && path[|path| - 1] == b;
    PathStays(bs, items, threshold, path, k);
  }

  /** A session's span is the union of its files' spans: it holds them all ... */
  lemma {:induction false} SpanHolds(b: seq<File>, x: File)
    requires x in b
    ensures MinOf(b) <= x.min && x.max <= MaxOf(b)
  {
    if |b| > 1 && x != b[|b| - 1] {
      assert x in b[..|b| - 1];
      SpanHolds(b[..|b| - 1], x);
    }
  }

  /** ... and begins with one of them and ends with one of them. */
  lemma {:induction false} SpanReached(b: seq<File>) returns (first: File, last: File)
    requires b != []
    ensures first in b && first.min == MinOf(b) && last in b && last.max == MaxOf(b)
  {
    var n := |b| - 1;
    first, last := b[n], b[n];
    if n > 0 {
      var x, y := SpanReached(b[..n]);
      first := if b[n].min < x.min then b[n] else x;
      last := if y.max < b[n].max then b[n] else y;
    }
  }

  // ---- The whole aggregation ----

  /** The files of one partition, in input order. */
  function Bucket(files: seq<File>, partition: string): seq<File>
  {
    if files == [] then []
    else
      var f := files[|files| - 1];
      Bucket(files[..|files| - 1], partition) + if PartitionKey(f.key) == partition then [f] else []
  }

  function SortedBucket(files: seq<File>, partition: string): seq<File>
  {
    SortBy(Bucket(files, partition), FileRank)
  }

  function PartitionSessions(files: seq<File>, partition: string, threshold: int): seq<Session>
  {
    var bs := Blocks(SortedBucket(files, partition), threshold);
    BlocksNonEmpty(SortedBucket(files, partition), threshold);
    SessionsOf(bs, partition)
  }

  function AllSessions(files: seq<File>, order: seq<string>, threshold: int): seq<Session>
  {
    if order == [] then []
    else AllSessions(files, order[..|order| - 1], threshold) + PartitionSessions(files, order[|order| - 1], threshold)
  }

  /** The partitions that occur, in ascending order, as a `std::map` walks them. */
  ghost predicate AscendingPartitions(files: seq<File>, order: seq<string>)
  {
    Ascending(order) && forall p :: p in order <==> Bucket(files, p) != []
  }

  lemma {:induction false} BucketElements(files: seq<File>, partition: string)
    ensures forall x :: multiset(Bucket(files, partition))[x] ==
                        if PartitionKey(x.key) == partition then multiset(files)[x] else 0
  {
    hide PartitionKey;
    if files != [] {
      BucketElements(files[..|files| - 1], partition);
      assert files == files[..|files| - 1] + [files[|files| - 1]];
    }
  }

  ghost predicate Bucketed(buckets: map<string, seq<File>>, files: seq<File>)
  {
    forall p :: (if p in buckets then buckets[p] else []) == Bucket(files, p) && (p in buckets ==> buckets[p] != [])
  }

  lemma BucketStep(buckets: map<string, seq<File>>, files: seq<File>, f: File)
    requires Bucketed(buckets, files)
    ensures var p := PartitionKey(f.key);
            Bucketed(buckets[p := (if p in buckets then buckets[p] else []) + [f]], files + [f])
  {
    hide PartitionKey;
    assert (files + [f])[..|files|] == files;
  }

  /** The bucketing loop. */
  method BucketFiles(files: seq<File>) returns (buckets: map<string, seq<File>>)
    ensures Bucketed(buckets, files)
  {
    hide Bucketed, PartitionKey;
    buckets := map[];
    NothingBucketed();
    var i := 0;
    assert files[..0] == [];
    while i < |files|
      invariant 0 <= i <= |files| && Bucketed(buckets, files[..i])
    {
      assert files[..i + 1] == files[..i] + [files[i]];
      BucketStep(buckets, files[..i], files[i]);
      var p := ComputePartitionKey(files[i].key);
      buckets := buckets[p := (if p in buckets then buckets[p] else []) + [files[i]]];
      i := i + 1;
    }
    assert files[..i] == files;
  }

  lemma NothingBucketed()
    ensures Bucketed(map[], [])
  {
  }

  /** The least of a non-empty set of strings. */
  method Least(s: set<string>) returns (m: string)
    requires s != {}
    ensures m in s && forall x | x in s && x != m :: Less(m, x)
  {
    m :| m in s;
    var rest := s - {m};
    while rest != {}
      invariant rest <= s && m in s && m !in rest
      invariant forall x | x in s && x !in rest && x != m :: Less(m, x)
      decreases |rest|
    {
      var c :| c in rest;
      LessTotal(c, m);
      if Less(c, m) {
        LessAsymmetric(c, m);
        forall x | x in s && x !in rest && x != m
          ensures Less(c, x)
        {
          LessTransitive(c, m, x);
        }
        rest := rest - {c};
        m := c;
      } else {
        rest := rest - {c};
      }
    }
  }

  ghost predicate Ascending(order: seq<string>)
  {
    forall i, j | 0 <= i < j < |order| :: Less(order[i], order[j])
  }

  lemma AscendingMore(order: seq<string>, p: string)
    requires Ascending(order) && forall q | q in order :: Less(q, p)
    ensures Ascending(order + [p])
  {
    hide Less;
  }

  /** The keys of an ordered map, in the order it walks them. */
  method WalkKeys(keys: set<string>) returns (order: seq<string>)
    ensures Ascending(order) && forall p :: p in order <==> p in keys
  {
    hide Less, Ascending;
    var left := keys;
    order := [];
    NoKeys();
    while left != {}
      invariant left <= keys && Ascending(order)
      invariant forall p :: p in order <==> p in keys && p !in left
      invariant forall p, q | p in order && q in left :: Less(p, q)
      decreases |left|
    {
      var p := Least(left);
      AscendingMore(order, p);
      order := order + [p];
      left := left - {p};
    }
  }

  lemma NoKeys()
    ensures Ascending([])
  {
  }

  /**
   `aggregateSessions`: for every partition in ascending order the sorted files are swept, and all
   sessions are then sorted by start and partition. Every input file is in exactly one session, which names its
   files in order, their partition and their span; and two files share one exactly when they belong together.
   */
  method AggregateSessions(files: seq<File>, threshold: int) returns (sessions: seq<Session>, ghost order: seq<string>)
    ensures AscendingPartitions(files, order)
    ensures multiset(sessions) == multiset(AllSessions(files, order, threshold)) && Ordered(sessions, SessionRank)
    ensures multiset(AllKeys(sessions)) == multiset(KeysOf(files))
    ensures InSessionOrder(sessions) && forall s | s in sessions :: MadeOf(s, files)
    ensures DistinctKeys(files) && AllGoodSpans(files) && threshold >= 0 ==>
              forall a, b | a in files && b in files ::
                SameSession(sessions, a, b) <==> BelongTogether(files, threshold, a, b)
  {
    hide SortBy, PartitionSessions, Below, Bucket, Less, Ordered, AscendingPartitions, Bucketed, AllKeys, KeysOf,
         SameSession, BelongTogether, DistinctKeys, AllGoodSpans, MadeOf, InSessionOrder;
    var buckets := BucketFiles(files);
    var partitions := WalkKeys(buckets.Keys);
    BucketsArePartitions(buckets, files, partitions);
    var found: seq<Session> := [];
    var i := 0;
    assert partitions[..0] == [];
    while i < |partitions|
      invariant 0 <= i <= |partitions| && found == AllSessions(files, partitions[..i], threshold)
    {
      var p := partitions[i];
      assert p in buckets.Keys;
      BucketAt(buckets, files, p);
      var swept := SweepBucket(files, buckets[p], p, threshold);
      assert partitions[..i + 1][..i] == partitions[..i];
      found := found + swept;
      i := i + 1;
    }
    assert partitions[..i] == partitions;
    SortKeeps(found, SessionRank);
    sessions := SortBy(found, SessionRank);
    order := partitions;
    EveryKeyOnce(files, order, threshold, sessions);
    SessionOrder(sessions);
    SessionsAreMade(files, order, threshold, sessions);
    if DistinctKeys(files) && AllGoodSpans(files) && threshold >= 0 {
      forall a, b | a in files && b in files
        ensures SameSession(sessions, a, b) <==> BelongTogether(files, threshold, a, b)
      {
        SessionsAreComponents(files, order, threshold, sessions, a, b);
      }
    }
  }

  // ---- What the sessions are ----

  /** By start, and by key where starts are the same. */
  ghost predicate InFileOrder(fs: seq<File>)
  {
    forall i, j | 0 <= i < j < |fs| ::
      fs[i].min < fs[j].min || (fs[i].min == fs[j].min && !Less(fs[j].key, fs[i].key))
  }

  /** By start, and by partition where starts are the same. */
  ghost predicate InSessionOrder(s: seq<Session>)
  {
    forall i, j | 0 <= i < j < |s| ::
      s[i].min < s[j].min || (s[i].min == s[j].min && !Less(s[j].partition, s[i].partition))
  }

  /** A session names its files in order, their partition, and the least span that holds theirs. */
  ghost predicate Names(s: Session, fs: seq<File>)
  {
    && fs != [] && |s.keys| == |fs| && InFileOrder(fs)
    && (forall i | 0 <= i < |fs| :: s.keys[i] == fs[i].key && PartitionKey(fs[i].key) == s.partition)
    && (forall i | 0 <= i < |fs| :: s.min <= fs[i].min && fs[i].max <= s.max)
    && (exists i :: 0 <= i < |fs| && fs[i].min == s.min) && (exists i :: 0 <= i < |fs| && fs[i].max == s.max)
  }

  ghost predicate MadeOf(s: Session, files: seq<File>)
  {
    exists fs: seq<File> :: Names(s, fs) && forall x | x in fs :: x in files
  }

  lemma SessionOrder(s: seq<Session>)
    requires Ordered(s, SessionRank)
    ensures InSessionOrder(s)
  {
    hide Less;
    forall i, j | 0 <= i < j < |s|
      ensures s[i].min < s[j].min || (s[i].min == s[j].min && !Less(s[j].partition, s[i].partition))
    {
      assert !Below(SessionRank(s[j]), SessionRank(s[i]));
    }
  }

  /** A block of an ordered sweep is ordered. */
  lemma {:induction false} BlockOrdered(bs: seq<seq<File>>, k: nat)
    requires Ordered(Flatten(bs), FileRank) && k < |bs|
    ensures InFileOrder(bs[k])
  {
    hide Less;
    var n := |bs| - 1;
    var front := Flatten(bs[..n]);
    if k < n {
      forall i, j | 0 <= i < j < |front|
        ensures !Below(FileRank(front[j]), FileRank(front[i]))
      {
        assert Flatten(bs)[i] == front[i] && Flatten(bs)[j] == front[j];
      }
      BlockOrdered(bs[..n], k);
    } else {
      forall i, j | 0 <= i < j < |bs[n]|
        ensures !Below(FileRank(bs[n][j]), FileRank(bs[n][i]))
      {
        assert Flatten(bs)[|front| + i] == bs[n][i] && Flatten(bs)[|front| + j] == bs[n][j];
      }
    }
  }

  lemma {:induction false} KeysAt(b: seq<File>)
    ensures |KeysOf(b)| == |b| && forall i | 0 <= i < |b| :: KeysOf(b)[i] == b[i].key
  {
    if b != [] {
      KeysAt(b[..|b| - 1]);
    }
  }

  lemma BlockNames(files: seq<File>, p: string, bs: seq<seq<File>>, k: nat)
    requires multiset(Flatten(bs)) == multiset(Bucket(files, p)) && Ordered(Flatten(bs), FileRank)
    requires k < |bs| && bs[k] != []
    ensures MadeOf(SessionOf(bs[k], p), files)
  {
    hide KeysOf, MinOf, MaxOf, Flatten, Bucket, InFileOrder, PartitionKey, Ordered;
    var b, s := bs[k], SessionOf(bs[k], p);
    BlockOrdered(bs, k);
    KeysAt(b);
    var first, last := SpanReached(b);
    forall x | x in b
      ensures x in files && PartitionKey(x.key) == p && s.min <= x.min && x.max <= s.max
    {
      assert InBlock(bs, x);
      InSomeBlock(bs, x);
      BlockFileIsInput(files, p, bs, x);
      SpanHolds(b, x);
    }
    assert Names(s, b);
  }

  lemma PartitionIsMade(files: seq<File>, p: string, threshold: int, s: Session)
    requires s in PartitionSessions(files, p, threshold)
    ensures MadeOf(s, files)
  {
    hide Bucket, Blocks, SessionsOf, SessionOf, Flatten, SortBy, Ordered, MadeOf;
    var bs := Blocks(SortedBucket(files, p), threshold);
    SortedBlocks(files, p, threshold);
    SortKeeps(Bucket(files, p), FileRank);
    SessionsAt(bs, p);
    var k :| 0 <= k < |bs| && s == SessionsOf(bs, p)[k];
    BlockNames(files, p, bs, k);
  }

  lemma SessionsAreMade(files: seq<File>, order: seq<string>, threshold: int, sessions: seq<Session>)
    requires multiset(sessions) == multiset(AllSessions(files, order, threshold))
    ensures forall s | s in sessions :: MadeOf(s, files)
  {
    hide AllSessions, PartitionSessions, MadeOf;
    forall s | s in sessions
      ensures MadeOf(s, files)
    {
      assert s in multiset(sessions);
      InAllSessions(files, order, threshold, s);
      var p :| p in order && s in PartitionSessions(files, p, threshold);
      PartitionIsMade(files, p, threshold, s);
    }
  }

  /** The keys of all sessions together. */
  function AllKeys(sessions: seq<Session>): seq<string>
  {
    if sessions == [] then [] else AllKeys(sessions[..|sessions| - 1]) + sessions[|sessions| - 1].keys
  }

  ghost predicate SameSession(sessions: seq<Session>, a: File, b: File)
  {
    exists s :: s in sessions && a.key in s.keys && b.key in s.keys
  }

  /** One partition, and a chain of gaps within the threshold among its files. */
  ghost predicate BelongTogether(files: seq<File>, threshold: int, a: File, b: File)
  {
    var p := PartitionKey(a.key);
    PartitionKey(b.key) == p && Connected(Bucket(files, p), threshold, a, b)
  }

  lemma {:induction false} AllKeysConcat(a: seq<Session>, b: seq<Session>)
    ensures AllKeys(a + b) == AllKeys(a) + AllKeys(b)
  {
    if b == [] {
      assert a + b == a;
    } else {
      var n := |b| - 1;
      AllKeysConcat(a, b[..n]);
      assert (a + b)[..|a| + n] == a + b[..n];
      assert AllKeys(a) + AllKeys(b[..n]) + b[n].keys == AllKeys(a) + (AllKeys(b[..n]) + b[n].keys);
    }
  }

  lemma AllKeysMore(sessions: seq<Session>, s: Session)
    ensures AllKeys(sessions + [s]) == AllKeys(sessions) + s.keys
  {
    assert (sessions + [s])[..|sessions|] == sessions;
  }

  lemma {:induction false} AllKeysPermuted(a: seq<Session>, b: seq<Session>)
    requires multiset(a) == multiset(b)
    ensures multiset(AllKeys(a)) == multiset(AllKeys(b))
    decreases |a|
  {
    hide AllKeys;
    if a == [] {
      assert |multiset(b)| == 0;
      assert b == [];
    } else {
      var s, tail := a[0], a[1..];
      assert a == [s] + tail;
      var left, right := PickFirst(s, tail, b);
      AllKeysConcat([s], tail);
      AllKeysConcat(left + [s], right);
      AllKeysConcat(left, [s]);
      AllKeysConcat(left, right);
      AllKeysPermuted(tail, left + right);
    }
  }

  lemma {:induction false} KeysConcat(a: seq<File>, b: seq<File>)
    ensures KeysOf(a + b) == KeysOf(a) + KeysOf(b)
  {
    if b == [] {
      assert a + b == a;
    } else {
      var n := |b| - 1;
      KeysConcat(a, b[..n]);
      assert (a + b)[..|a| + n] == a + b[..n];
      assert KeysOf(a) + KeysOf(b[..n]) + [b[n].key] == KeysOf(a) + (KeysOf(b[..n]) + [b[n].key]);
    }
  }

  lemma {:induction false} KeysPermuted(a: seq<File>, b: seq<File>)
    requires multiset(a) == multiset(b)
    ensures multiset(KeysOf(a)) == multiset(KeysOf(b))
    decreases |a|
  {
    hide KeysOf;
    if a == [] {
      assert |multiset(b)| == 0;
      assert b == [];
    } else {
      var f, tail := a[0], a[1..];
      assert a == [f] + tail;
      var left, right := PickFirst(f, tail, b);
      KeysConcat([f], tail);
      KeysConcat(left + [f], right);
      KeysConcat(left, [f]);
      KeysConcat(left, right);
      KeysPermuted(tail, left + right);
    }
  }

  lemma {:induction false} SessionsHoldKeys(bs: seq<seq<File>>, partition: string)
    requires forall i | 0 <= i < |bs| :: bs[i] != []
    ensures AllKeys(SessionsOf(bs, partition)) == KeysOf(Flatten(bs))
  {
    if bs != [] {
      hide KeysOf, AllKeys, MinOf, MaxOf;
      var front, b := bs[..|bs| - 1], bs[|bs| - 1];
      SessionsHoldKeys(front, partition);
      AllKeysMore(SessionsOf(front, partition), SessionOf(b, partition));
      KeysConcat(Flatten(front), b);
    }
  }

  lemma PartitionHoldsKeys(files: seq<File>, partition: string, threshold: int)
    ensures multiset(AllKeys(PartitionSessions(files, partition, threshold))) ==
            multiset(KeysOf(Bucket(files, partition)))
  {
    hide KeysOf, AllKeys, SessionsOf, Blocks, Flatten, SortBy, Bucket, Ordered, FileRank;
    var sorted := SortedBucket(files, partition);
    BlocksNonEmpty(sorted, threshold);
    SessionsHoldKeys(Blocks(sorted, threshold), partition);
    BlocksCover(sorted, threshold);
    SortKeeps(Bucket(files, partition), FileRank);
    KeysPermuted(sorted, Bucket(files, partition));
  }

  /** The buckets one after another. */
  function BucketsInTurn(files: seq<File>, order: seq<string>): seq<File>
  {
    if order == [] then [] else BucketsInTurn(files, order[..|order| - 1]) + Bucket(files, order[|order| - 1])
  }

  lemma {:induction false} AllSessionsHoldKeys(files: seq<File>, order: seq<string>, threshold: int)
    ensures multiset(AllKeys(AllSessions(files, order, threshold))) == multiset(KeysOf(BucketsInTurn(files, order)))
  {
    if order != [] {
      hide KeysOf, AllKeys, PartitionSessions, Bucket;
      var front, p := order[..|order| - 1], order[|order| - 1];
      AllSessionsHoldKeys(files, front, threshold);
      AllKeysConcat(AllSessions(files, front, threshold), PartitionSessions(files, p, threshold));
      PartitionHoldsKeys(files, p, threshold);
      KeysConcat(BucketsInTurn(files, front), Bucket(files, p));
    }
  }

  lemma {:induction false} InTurnCounts(files: seq<File>, order: seq<string>, x: File)
    requires forall i, j | 0 <= i < j < |order| :: order[i] != order[j]
    ensures multiset(BucketsInTurn(files, order))[x] ==
            if PartitionKey(x.key) in order then multiset(files)[x] else 0
  {
    hide PartitionKey, Bucket;
    if order != [] {
      var n := |order| - 1;
      var front, p := order[..n], order[n];
      InTurnCounts(files, front, x);
      BucketElements(files, p);
      assert order == front + [p];
      assert p !in front;
    }
  }

  lemma AscendingDistinct(order: seq<string>)
    requires Ascending(order)
    ensures forall i, j | 0 <= i < j < |order| :: order[i] != order[j]
  {
    hide Less;
    forall i, j | 0 <= i < j < |order|
      ensures order[i] != order[j]
    {
      LessAsymmetric(order[i], order[j]);
    }
  }

  lemma OwnPartition(files: seq<File>, order: seq<string>, x: File)
    requires AscendingPartitions(files, order) && x in files
    ensures PartitionKey(x.key) in order && x in Bucket(files, PartitionKey(x.key))
  {
    hide PartitionKey, Bucket, Less;
    var p := PartitionKey(x.key);
    BucketElements(files, p);
    assert x in multiset(files);
    assert x in multiset(Bucket(files, p));
  }

  lemma BucketsAreAllFiles(files: seq<File>, order: seq<string>)
    requires AscendingPartitions(files, order)
    ensures multiset(BucketsInTurn(files, order)) == multiset(files)
  {
    hide PartitionKey, Bucket, BucketsInTurn;
    AscendingDistinct(order);
    forall x
      ensures multiset(BucketsInTurn(files, order))[x] == multiset(files)[x]
    {
      InTurnCounts(files, order, x);
      if x in files {
        OwnPartition(files, order, x);
      }
    }
  }

  /** The sessions' keys together are the files' keys: every file is in exactly one session, for every threshold. */
  lemma EveryKeyOnce(files: seq<File>, order: seq<string>, threshold: int, sessions: seq<Session>)
    requires AscendingPartitions(files, order)
    requires multiset(sessions) == multiset(AllSessions(files, order, threshold))
    ensures multiset(AllKeys(sessions)) == multiset(KeysOf(files))
  {
    hide AllKeys, KeysOf, AllSessions, BucketsInTurn, AscendingPartitions;
    AllKeysPermuted(sessions, AllSessions(files, order, threshold));
    AllSessionsHoldKeys(files, order, threshold);
    BucketsAreAllFiles(files, order);
    KeysPermuted(BucketsInTurn(files, order), files);
  }

  lemma {:induction false} KeyInBlock(b: seq<File>, key: string)
    ensures key in KeysOf(b) <==> exists x :: x in b && x.key == key
  {
    if b != [] {
      var front, last := b[..|b| - 1], b[|b| - 1];
      KeyInBlock(front, key);
      assert b == front + [last];
      if exists x :: x in b && x.key == key {
        var x :| x in b && x.key == key;
        assert x in front || x == last;
      }
      if key in KeysOf(front) {
        var x :| x in front && x.key == key;
        assert x in b;
      }
      assert last in b;
    }
  }

  lemma {:induction false} InAllSessions(files: seq<File>, order: seq<string>, threshold: int, s: Session)
    ensures s in AllSessions(files, order, threshold) <==>
            exists p :: p in order && s in PartitionSessions(files, p, threshold)
  {
    hide PartitionSessions;
    if order != [] {
      var front, last := order[..|order| - 1], order[|order| - 1];
      InAllSessions(files, front, threshold, s);
      assert order == front + [last];
      if s in AllSessions(files, front, threshold) {
        var p :| p in front && s in PartitionSessions(files, p, threshold);
        assert p in order;
      }
      assert last in order;
    }
  }

  /** A file's key in a block is the file itself. */
  lemma OwnKey(files: seq<File>, p: string, bs: seq<seq<File>>, k: nat, a: File)
    requires DistinctKeys(files) && a in files && k < |bs|
    requires multiset(Flatten(bs)) == multiset(Bucket(files, p))
    ensures a.key in KeysOf(bs[k]) <==> a in bs[k]
    ensures a in bs[k] ==> PartitionKey(a.key) == p
  {
    hide PartitionKey, Bucket, KeysOf, Flatten;
    KeyInBlock(bs[k], a.key);
    if a.key in KeysOf(bs[k]) {
      var x :| x in bs[k] && x.key == a.key;
      InSomeBlock(bs, x);
      BlockFileIsInput(files, p, bs, x);
    }
    if a in bs[k] {
      InSomeBlock(bs, a);
      BlockFileIsInput(files, p, bs, a);
    }
  }

  lemma BlockFileIsInput(files: seq<File>, p: string, bs: seq<seq<File>>, x: File)
    requires x in Flatten(bs) && multiset(Flatten(bs)) == multiset(Bucket(files, p))
    ensures x in files && PartitionKey(x.key) == p
  {
    hide PartitionKey, Bucket, Flatten;
    BucketElements(files, p);
    assert x in multiset(Flatten(bs));
    assert x in multiset(files);
  }

  lemma SortedBlocks(files: seq<File>, p: string, threshold: int)
    ensures var bs := Blocks(SortedBucket(files, p), threshold);
            && Flatten(bs) == SortedBucket(files, p) && multiset(Flatten(bs)) == multiset(Bucket(files, p))
            && forall i | 0 <= i < |bs| :: bs[i] != []
  {
    hide Bucket, SortBy, Ordered, FileRank, Blocks, Flatten;
    SortKeeps(Bucket(files, p), FileRank);
    BlocksCover(SortedBucket(files, p), threshold);
    BlocksNonEmpty(SortedBucket(files, p), threshold);
  }

  /** Inside one partition: a shared session is a shared block. */
  lemma SharedIsSameBlock(files: seq<File>, p: string, threshold: int, a: File, b: File)
    requires DistinctKeys(files) && a in files && b in files
    ensures (exists s :: s in PartitionSessions(files, p, threshold) && a.key in s.keys && b.key in s.keys) <==>
            SameBlock(Blocks(SortedBucket(files, p), threshold), a, b)
  {
    hide PartitionKey, Bucket, KeysOf, Blocks, SessionsOf, MinOf, MaxOf, Flatten, SortedBucket, DistinctKeys;
    var bs := Blocks(SortedBucket(files, p), threshold);
    SortedBlocks(files, p, threshold);
    SessionsAt(bs, p);
    var ss := PartitionSessions(files, p, threshold);
    forall k | 0 <= k < |bs|
      ensures ss[k].keys == KeysOf(bs[k])
      ensures a.key in KeysOf(bs[k]) <==> a in bs[k]
      ensures b.key in KeysOf(bs[k]) <==> b in bs[k]
    {
      OwnKey(files, p, bs, k, a);
      OwnKey(files, p, bs, k, b);
    }
    if SameBlock(bs, a, b) {
      var k :| 0 <= k < |bs| && a in bs[k] && b in bs[k];
      assert ss[k] in ss;
    }
  }

  lemma SameElementsConnect(pool: seq<File>, other: seq<File>, threshold: int, a: File, b: File)
    requires multiset(pool) == multiset(other)
    ensures Connected(pool, threshold, a, b) <==> Connected(other, threshold, a, b)
  {
    hide Connected;
    forall x
      ensures x in pool <==> x in other
    {
      assert x in multiset(pool) <==> x in multiset(other);
    }
    if Connected(pool, threshold, a, b) {
      ConnectedMore(pool, other, threshold, a, b);
    }
    if Connected(other, threshold, a, b) {
      ConnectedMore(other, pool, threshold, a, b);
    }
  }

  lemma PartitionComponents(files: seq<File>, p: string, threshold: int, a: File, b: File)
    requires DistinctKeys(files) && AllGoodSpans(files) && threshold >= 0 && a in files && b in files
    requires PartitionKey(a.key) == p && PartitionKey(b.key) == p
    ensures SameBlock(Blocks(SortedBucket(files, p), threshold), a, b) <==> Connected(Bucket(files, p), threshold, a, b)
  {
    hide PartitionKey, Bucket, Blocks, Connected, SameBlock, SortBy, Ordered, FileRank, DistinctKeys, AllGoodSpans;
    var sorted := SortedBucket(files, p);
    SortKeeps(Bucket(files, p), FileRank);
    SortedBucketGood(files, p);
    BucketElements(files, p);
    assert a in multiset(files) && b in multiset(files);
    assert a in multiset(sorted) && b in multiset(sorted);
    BlocksAreComponents(sorted, threshold, a, b);
    SameElementsConnect(sorted, Bucket(files, p), threshold, a, b);
  }

  /** A block holds files of its own partition only. */
  lemma BlockPartition(files: seq<File>, p: string, threshold: int, a: File, b: File)
    requires DistinctKeys(files) && a in files && b in files &&
             SameBlock(Blocks(SortedBucket(files, p), threshold), a, b)
    ensures PartitionKey(a.key) == p && PartitionKey(b.key) == p
  {
    hide PartitionKey, Bucket, Blocks, KeysOf, Flatten, SortedBucket, DistinctKeys;
    var bs := Blocks(SortedBucket(files, p), threshold);
    SortedBlocks(files, p, threshold);
    var k :| 0 <= k < |bs| && a in bs[k] && b in bs[k];
    OwnKey(files, p, bs, k, a);
    OwnKey(files, p, bs, k, b);
  }

  /**
   Two files share a session of the result if and only if they have one partition and a chain of gaps within the
   threshold among its files connects them.
   */
  lemma SessionsAreComponents(files: seq<File>, order: seq<string>, threshold: int, sessions: seq<Session>, a: File,
                              b: File)
    requires AscendingPartitions(files, order) && DistinctKeys(files) && AllGoodSpans(files) && threshold >= 0
    requires multiset(sessions) == multiset(AllSessions(files, order, threshold)) && a in files && b in files
    ensures SameSession(sessions, a, b) <==> BelongTogether(files, threshold, a, b)
  {
    hide PartitionKey, Bucket, Blocks, Connected, SameBlock, PartitionSessions, AllSessions, DistinctKeys, AllGoodSpans,
         AscendingPartitions;
    var all := AllSessions(files, order, threshold);
    if SameSession(sessions, a, b) {
      var s :| s in sessions && a.key in s.keys && b.key in s.keys;
      assert s in multiset(all);
      InAllSessions(files, order, threshold, s);
      var p :| p in order && s in PartitionSessions(files, p, threshold);
      SharedIsSameBlock(files, p, threshold, a, b);
      BlockPartition(files, p, threshold, a, b);
      PartitionComponents(files, p, threshold, a, b);
    }
    if BelongTogether(files, threshold, a, b) {
      var p := PartitionKey(a.key);
      OwnPartition(files, order, a);
      PartitionComponents(files, p, threshold, a, b);
      SharedIsSameBlock(files, p, threshold, a, b);
      var s :| s in PartitionSessions(files, p, threshold) && a.key in s.keys && b.key in s.keys;
      InAllSessions(files, order, threshold, s);
      assert s in multiset(sessions);
    }
  }

  lemma BucketAt(buckets: map<string, seq<File>>, files: seq<File>, p: string)
    requires Bucketed(buckets, files) && p in buckets
    ensures buckets[p] == Bucket(files, p)
  {
  }

  lemma BucketsArePartitions(buckets: map<string, seq<File>>, files: seq<File>, order: seq<string>)
    requires Bucketed(buckets, files) && Ascending(order) && forall p :: p in order <==> p in buckets.Keys
    ensures AscendingPartitions(files, order)
  {
    hide Bucket, Less;
  }

  method SweepBucket(files: seq<File>, bucket: seq<File>, partition: string, threshold: int)
    returns (swept: seq<Session>)
    requires bucket == Bucket(files, partition)
    ensures swept == PartitionSessions(files, partition, threshold)
  {
    hide Bucket, SortBy, Blocks, SessionsOf;
    swept := Sweep(SortBy(bucket, FileRank), partition, threshold);
  }

  // ---- Order independence ----

  ghost predicate DistinctKeys(files: seq<File>)
  {
    forall a, b | a in files && b in files && a.key == b.key :: a == b
  }

  ghost predicate AllGoodSpans(files: seq<File>)
  {
    forall f | f in files :: 0 <= f.min <= f.max
  }

  /** A sorted bucket depends on the files, not on their order. */
  lemma SortedBucketUnique(a: seq<File>, b: seq<File>, partition: string)
    requires multiset(a) == multiset(b) && DistinctKeys(a)
    ensures SortedBucket(a, partition) == SortedBucket(b, partition)
  {
    hide PartitionKey, Ordered, SortBy, Bucket;
    var x, y := Bucket(a, partition), Bucket(b, partition);
    BucketElements(a, partition);
    BucketElements(b, partition);
    assert multiset(x) == multiset(y);
    SortKeeps(x, FileRank);
    SortKeeps(y, FileRank);
    forall f, g | f in multiset(x) && g in multiset(x) && FileRank(f) == FileRank(g)
      ensures f == g
    {
      assert multiset(a)[f] > 0 && multiset(a)[g] > 0;
      assert f in a && g in a;
    }
    OrderIsUnique(SortBy(x, FileRank), SortBy(y, FileRank), FileRank);
  }

  lemma FirstPartition(s: seq<string>, t: seq<string>)
    requires s != [] && t != [] && (forall p :: p in s <==> p in t)
    requires forall i, j | 0 <= i < j < |s| :: Less(s[i], s[j])
    requires forall i, j | 0 <= i < j < |t| :: Less(t[i], t[j])
    ensures s[0] == t[0]
  {
    hide Less;
    assert s[0] in t && t[0] in s;
    var i :| 0 <= i < |t| && t[i] == s[0];
    var j :| 0 <= j < |s| && s[j] == t[0];
    if i > 0 && j > 0 {
      LessAsymmetric(s[0], s[j]);
    }
  }

  lemma NotAgain(s: seq<string>)
    requires s != [] && forall i, j | 0 <= i < j < |s| :: Less(s[i], s[j])
    ensures s[0] !in s[1..]
  {
    hide Less;
    if s[0] in s[1..] {
      var i :| 0 <= i < |s[1..]| && s[1..][i] == s[0];
      LessAsymmetric(s[0], s[i + 1]);
    }
  }

  /** An ascending sequence is determined by its elements. */
  lemma {:induction false} AscendingUnique(s: seq<string>, t: seq<string>)
    requires forall p :: p in s <==> p in t
    requires forall i, j | 0 <= i < j < |s| :: Less(s[i], s[j])
    requires forall i, j | 0 <= i < j < |t| :: Less(t[i], t[j])
    ensures s == t
  {
    hide Less;
    assert s != [] ==> s[0] in t;
    assert t != [] ==> t[0] in s;
    if s != [] {
      FirstPartition(s, t);
      NotAgain(s);
      NotAgain(t);
      assert s == [s[0]] + s[1..] && t == [t[0]] + t[1..];
      forall p
        ensures p in s[1..] <==> p in t[1..]
      {
        assert p in s <==> p in t;
      }
      AscendingUnique(s[1..], t[1..]);
    }
  }

  lemma SamePartitions(a: seq<File>, b: seq<File>, order1: seq<string>, order2: seq<string>)
    requires multiset(a) == multiset(b) && AscendingPartitions(a, order1) && AscendingPartitions(b, order2)
    ensures order1 == order2
  {
    hide PartitionKey, Bucket, Less;
    forall p
      ensures p in order1 <==> p in order2
    {
      BucketElements(a, p);
      BucketElements(b, p);
      assert multiset(Bucket(a, p)) == multiset(Bucket(b, p));
      assert |Bucket(a, p)| == |multiset(Bucket(a, p))| == |multiset(Bucket(b, p))| == |Bucket(b, p)|;
    }
    AscendingUnique(order1, order2);
  }

  lemma {:induction false} SameSessions(a: seq<File>, b: seq<File>, order: seq<string>, threshold: int)
    requires multiset(a) == multiset(b) && DistinctKeys(a)
    ensures AllSessions(a, order, threshold) == AllSessions(b, order, threshold)
  {
    hide SortedBucket, Blocks, SessionsOf, DistinctKeys;
    if order != [] {
      SameSessions(a, b, order[..|order| - 1], threshold);
      SortedBucketUnique(a, b, order[|order| - 1]);
    }
  }

  // ---- No two sessions tie ----

  /** Sessions of one partition start at strictly later times. */
  ghost predicate StartsRise(s: seq<Session>, partition: string)
  {
    && (forall i | 0 <= i < |s| :: s[i].partition == partition)
    && (forall i, j | 0 <= i < j < |s| :: s[i].min < s[j].min)
  }

  lemma {:induction false} SessionsAt(bs: seq<seq<File>>, partition: string)
    requires forall i | 0 <= i < |bs| :: bs[i] != []
    ensures |SessionsOf(bs, partition)| == |bs|
    ensures forall i | 0 <= i < |bs| :: SessionsOf(bs, partition)[i] == SessionOf(bs[i], partition)
  {
    hide SessionOf;
    if bs != [] {
      SessionsAt(bs[..|bs| - 1], partition);
    }
  }

  lemma BeyondStartsLater(early: seq<File>, late: seq<File>, threshold: int)
    requires early != [] && late != [] && Beyond(early, late, threshold) && threshold >= 0
    requires forall x | x in early :: x.min <= x.max
    ensures MinOf(early) < MinOf(late)
  {
    hide MinOf, MaxOf;
    var x, _ := SpanReached(early);
    var y, _ := SpanReached(late);
  }

  lemma PartitionStartsRise(files: seq<File>, partition: string, threshold: int)
    requires AllGoodSpans(files) && threshold >= 0
    ensures StartsRise(PartitionSessions(files, partition, threshold), partition)
  {
    hide Blocks, SortBy, SessionsOf, Bucket, MinOf, MaxOf, KeysOf, Chained, Beyond;
    var items := SortedBucket(files, partition);
    SortedBucketGood(files, partition);
    BlocksAreOk(items, threshold);
    BlocksNonEmpty(items, threshold);
    BlocksCover(items, threshold);
    var bs := Blocks(items, threshold);
    SessionsAt(bs, partition);
    forall i, j | 0 <= i < j < |bs|
      ensures MinOf(bs[i]) < MinOf(bs[j])
    {
      assert Beyond(bs[i], bs[j], threshold);
      BlockGood(bs, items, i);
      BeyondStartsLater(bs[i], bs[j], threshold);
    }
  }

  lemma BlockGood(bs: seq<seq<File>>, items: seq<File>, i: nat)
    requires Flatten(bs) == items && GoodSpans(items) && i < |bs|
    ensures forall x | x in bs[i] :: x.min <= x.max
  {
    hide Flatten;
    forall x | x in bs[i]
      ensures x.min <= x.max
    {
      InSomeBlock(bs, x);
    }
  }

  lemma SortedBucketGood(files: seq<File>, partition: string)
    requires AllGoodSpans(files)
    ensures GoodSpans(SortedBucket(files, partition)) && ByStart(SortedBucket(files, partition))
  {
    hide Bucket, SortBy, PartitionKey;
    var b := Bucket(files, partition);
    SortKeeps(b, FileRank);
    BucketElements(files, partition);
    var items := SortedBucket(files, partition);
    forall i | 0 <= i < |items|
      ensures 0 <= items[i].min <= items[i].max
    {
      assert items[i] in multiset(items);
      assert multiset(files)[items[i]] > 0;
    }
    forall i, j | 0 <= i < j < |items|
      ensures items[i].min <= items[j].min
    {
      assert !Below(FileRank(items[j]), FileRank(items[i]));
    }
  }

  ghost predicate NoTies(s: seq<Session>)
  {
    forall i, j | 0 <= i < j < |s| :: SessionRank(s[i]) != SessionRank(s[j])
  }

  lemma {:induction false} AllSessionsNoTies(files: seq<File>, order: seq<string>, threshold: int)
    requires AllGoodSpans(files) && threshold >= 0
    requires forall i, j | 0 <= i < j < |order| :: order[i] != order[j]
    ensures NoTies(AllSessions(files, order, threshold))
    ensures forall s | s in AllSessions(files, order, threshold) :: s.partition in order
  {
    hide PartitionSessions, AllGoodSpans;
    if order != [] {
      var n := |order| - 1;
      AllSessionsNoTies(files, order[..n], threshold);
      PartitionStartsRise(files, order[n], threshold);
      NoTiesMore(AllSessions(files, order[..n], threshold), PartitionSessions(files, order[n], threshold),
                 order[..n], order[n]);
      assert order == order[..n] + [order[n]];
    }
  }

  lemma NoTiesMore(s: seq<Session>, t: seq<Session>, order: seq<string>, partition: string)
    requires NoTies(s) && StartsRise(t, partition) && partition !in order && forall x | x in s :: x.partition in order
    ensures NoTies(s + t)
    ensures forall x | x in s + t :: x.partition in order + [partition]
  {
    var u := s + t;
    forall i, j | 0 <= i < j < |u|
      ensures SessionRank(u[i]) != SessionRank(u[j])
    {
      if i < |s| <= j {
        assert u[i] in s;
      }
    }
  }

  lemma NoTiesTieFree(s: seq<Session>)
    requires NoTies(s)
    ensures TieFree(multiset(s), SessionRank)
  {
    forall a, b | a in multiset(s) && b in multiset(s) && SessionRank(a) == SessionRank(b)
      ensures a == b
    {
      var i :| 0 <= i < |s| && s[i] == a;
      var j :| 0 <= j < |s| && s[j] == b;
    }
  }

  /**
   With distinct keys, ordinary spans and a threshold that is not negative, the result of the aggregation
   does not depend on the order of the input, nor on which sort is used.
   */
  lemma InputOrderDoesNotMatter(a: seq<File>, b: seq<File>, order1: seq<string>, order2: seq<string>, threshold: int,
                                s: seq<Session>, t: seq<Session>)
    requires multiset(a) == multiset(b) && DistinctKeys(a) && AllGoodSpans(a) && threshold >= 0
    requires AscendingPartitions(a, order1) && AscendingPartitions(b, order2)
    requires multiset(s) == multiset(AllSessions(a, order1, threshold)) && Ordered(s, SessionRank)
    requires multiset(t) == multiset(AllSessions(b, order2, threshold)) && Ordered(t, SessionRank)
    ensures s == t
  {
    hide AllSessions, Ordered, Bucket, Less, DistinctKeys, AllGoodSpans, NoTies, TieFree;
    SamePartitions(a, b, order1, order2);
    SameSessions(a, b, order1, threshold);
    forall i, j | 0 <= i < j < |order1|
      ensures order1[i] != order1[j]
    {
      LessAsymmetric(order1[i], order1[j]);
    }
    AllSessionsNoTies(a, order1, threshold);
    NoTiesTieFree(AllSessions(a, order1, threshold));
    OrderIsUnique(s, t, SessionRank);
  }

  // ---- Where the stated rule and the code part ----

  /** The file really starts after a gap of more than `threshold` behind everything before it. */
  ghost predicate TrueGap(items: seq<File>, f: File, threshold: int)
  {
    forall x | x in items :: f.min - x.max > threshold
  }

  /**
   "Splits only on a strictly positive gap" is promised for every threshold. It holds for all files exactly
   when the threshold is not negative.
   */
  lemma SplitsOnlyOnPositiveGapIff(threshold: int)
    ensures (forall items, f | items != [] && Splits(items, f, threshold) :: f.min > PrevMax(items)) <==> threshold >= 0
  {
    if threshold < 0 {
      var x := File("", 0, 0);
      assert PrevMax([x][..0]) == 0;
      assert Splits([x], x, threshold) && x.min <= PrevMax([x]);
    }
  }

  /** Two files with identical time stamps then fall into different sessions. */
  lemma NegativeThresholdSplitsTwins(a: string, b: string, threshold: int)
    requires threshold < 0
    ensures |Blocks([File(a, 5, 5), File(b, 5, 5)], threshold)| == 2
  {
    var x, y := File(a, 5, 5), File(b, 5, 5);
    assert [x, y][..1] == [x] && [x][..0] == [];
    assert PrevMax([x]) == 5;
    assert Blocks([x], threshold) == [[x]];
  }

  lemma {:induction false} PrevMaxReached(items: seq<File>)
    ensures PrevMax(items) == 0 || exists x :: x in items && x.max == PrevMax(items)
  {
    if items != [] {
      PrevMaxReached(items[..|items| - 1]);
      assert items[|items| - 1] in items;
    }
  }

  /**
   The running maximum starts at zero, so files that all end before time zero hide a gap. The code splits
   where the rule does exactly when something ends at or after zero, or the file starts beyond the threshold.
   */
  lemma SplitIsTrueGapIff(items: seq<File>, f: File, threshold: int)
    requires items != []
    ensures Splits(items, f, threshold) ==> TrueGap(items, f, threshold)
    ensures TrueGap(items, f, threshold) && !Splits(items, f, threshold) <==>
            TrueGap(items, f, threshold) && f.min <= threshold && forall x | x in items :: x.max < 0
  {
    PrevMaxBounds(items);
    PrevMaxReached(items);
    PrevMaxNonNegative(items);
    if TrueGap(items, f, threshold) && !Splits(items, f, threshold) {
      forall x | x in items
        ensures x.max < 0
      {
      }
    }
  }

  /** Such files: a gap of 80 under a threshold of 20, and one session all the same. */
  lemma GapCanBeMissed()
    ensures var a, b := File("a", -100, -90), File("b", -10, -5);
            TrueGap([a], b, 20) && Blocks([a, b], 20) == [[a, b]]
  {
    var a, b := File("a", -100, -90), File("b", -10, -5);
    assert [a, b][..1] == [a] && [a][..0] == [];
    assert PrevMax([a]) == 0;
    assert Blocks([a], 20) == [[a]];
    assert [[a]][..0] == [] && [a] + [b] == [a, b];
  }
}
