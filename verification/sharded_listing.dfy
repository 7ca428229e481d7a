/**
 The sharded bucket listing: a delimiter listing gives the keys at the root and the first-level prefixes,
 then one producer lists each prefix page by page into a queue, and one consumer yields. A deletion sweep
 trusts the result, so it must be complete, or the stop must be visible.
 */
module ShardedListing {
  import opened Basics
  import opened Text

  // ---- The first-level prefixes partition the keys ----

  /** The part of a key behind the prefix, up to and including its first '/'; `None` for keys at the root. */
  function FirstLevel(rest: string): Option<string>
  {
    if rest == "" then None
    else if rest[0] == '/' then Some("/")
    else
      match FirstLevel(rest[1..])
      case None => None
      case Some(s) => Some([rest[0]] + s)
  }

  /** The common prefix a delimiter listing reports for a key under `prefix`. */
  function ShardOf(prefix: string, key: string): Option<string>
    requires HasPrefix(key, prefix)
  {
    match FirstLevel(key[|prefix|..])
    case None => None
    case Some(s) => Some(prefix + s)
  }

  lemma {:induction false} FirstLevelEnds(rest: string)
    ensures FirstLevel(rest).None? ==> '/' !in rest
    ensures FirstLevel(rest).Some? ==>
              var s := FirstLevel(rest).value;
              HasPrefix(rest, s) && s != "" && s[|s| - 1] == '/' && '/' !in s[..|s| - 1]
  {
    if rest != "" && rest[0] != '/' {
      FirstLevelEnds(rest[1..]);
      assert rest == [rest[0]] + rest[1..];
      if FirstLevel(rest).Some? {
        var t := FirstLevel(rest[1..]).value;
        var s := FirstLevel(rest).value;
        assert s == [rest[0]] + t && s[..|s| - 1] == [rest[0]] + t[..|t| - 1];
        assert rest[..|s|] == [rest[0]] + rest[1..][..|t|];
      }
    }
  }

  lemma {:induction false} FirstLevelUnique(rest: string, s: string)
    requires s != "" && s[|s| - 1] == '/' && '/' !in s[..|s| - 1] && HasPrefix(rest, s)
    ensures FirstLevel(rest) == Some(s)
  {
    assert rest[0] == rest[..|s|][0] == s[0];
    if |s| > 1 {
      assert s[0] in s[..|s| - 1];
      assert s[1..][..|s| - 2] == s[..|s| - 1][1..];
      assert rest[1..][..|s| - 1] == rest[..|s|][1..];
      FirstLevelUnique(rest[1..], s[1..]);
      assert s == [s[0]] + s[1..];
    } else {
      assert s == "/";
    }
  }

  /**
   A key under the prefix is listed by exactly one of the root listing and the shards: it lies under a reported
   prefix if and only if that prefix is its own shard, and it is at the root if and only if it has none.
   */
  lemma ShardsPartitionKeys(prefix: string, key: string, other: string)
    requires HasPrefix(key, prefix) && HasPrefix(other, prefix) && ShardOf(prefix, other).Some?
    ensures HasPrefix(key, ShardOf(prefix, other).value) <==> ShardOf(prefix, key) == ShardOf(prefix, other)
    ensures ShardOf(prefix, key).None? <==> '/' !in key[|prefix|..]
  {
    var rest, s := key[|prefix|..], FirstLevel(other[|prefix|..]).value;
    FirstLevelEnds(other[|prefix|..]);
    FirstLevelEnds(rest);
    assert key == prefix + rest;
    assert |key| >= |prefix + s| ==> key[..|prefix + s|] == prefix + rest[..|s|];
    if HasPrefix(key, prefix + s) {
      assert rest[..|s|] == key[..|prefix + s|][|prefix|..];
      FirstLevelUnique(rest, s);
    }
    if ShardOf(prefix, key) == ShardOf(prefix, other) {
      assert (prefix + FirstLevel(rest).value)[|prefix|..] == FirstLevel(rest).value;
      assert (prefix + s)[|prefix|..] == s;
    }
    if '/' in rest {
      HasFirstLevel(rest);
    }
  }

  lemma {:induction false} HasFirstLevel(rest: string)
    requires '/' in rest
    ensures FirstLevel(rest).Some?
  {
    if rest[0] != '/' {
      HasFirstLevel(rest[1..]);
    }
  }

  // ---- The listing as a state machine ----

  /** One response of the delimiter listing. */
  datatype RootPage = RootPage(prefixes: seq<string>, keys: seq<string>)

  /** What the store answers: the responses of the delimiter listing, and the pages of each prefix. */
  datatype World = World(root: seq<RootPage>, pagesOf: string -> seq<seq<string>>)

  datatype Item = Page(keys: seq<string>) | Done | Err

  /**
   A producer: looking for the next page, with a page to put, out of its loop, about to put its end marker or
   its error, its end marker put, or gone without one. It looks at the stop before it commits to a put, not
   while it puts.
   */
  datatype Phase = Paging | Holding | Finishing | Ending | Erring | Ended | Gone

  /**
   One shard: its pages, how many have been put, what is queued and not yet taken, what the consumer has yielded
   from it, and whether the consumer has seen its end marker.
   */
  datatype Shard = Shard(pages: seq<seq<string>>, put: nat, phase: Phase, queue: seq<Item>, taken: nat,
                         yielded: seq<string>, seen: bool)

  /** How a listing ended: every page seen, stopped early, or an error raised. */
  datatype Ended = Exhausted | StoppedEarly | Raised

  /** Where the listing stands: before a root request, behind a root response, or among the shards. */
  datatype Place = BeforePage | AfterPage | AmongShards

  datatype Root = Root(place: Place, taken: nat, prefixes: seq<string>, yielded: seq<string>)

  datatype State = State(root: Root, shards: seq<Shard>, stop: bool, cancel: bool, finished: nat, end: Option<Ended>)

  datatype Action =
    | ListRoot | FailRoot | CheckRoot
    | Fetch(k: nat) | PutPage(k: nat) | LeaveLoop(k: nat) | CommitEnd(k: nat) | PutEnd(k: nat)
    | Fail(k: nat) | PutError(k: nat) | Leave(k: nat)
    | Take(k: nat, upTo: nat) | NoticeStop | Finish | SetStop

  predicate Stopped(st: State)
  {
    st.stop || st.cancel
  }

  predicate IsMcap(key: string)
  {
    HasSuffix(key, ".mcap")
  }

  function Mcaps(keys: seq<string>): seq<string>
  {
    if keys == [] then []
    else Mcaps(keys[..|keys| - 1]) + if IsMcap(keys[|keys| - 1]) then [keys[|keys| - 1]] else []
  }

  function KeysIn(root: seq<RootPage>): seq<string>
  {
    if root == [] then [] else KeysIn(root[..|root| - 1]) + root[|root| - 1].keys
  }

  function PrefixesIn(root: seq<RootPage>): seq<string>
  {
    if root == [] then [] else PrefixesIn(root[..|root| - 1]) + root[|root| - 1].prefixes
  }

  function EndWith(st: State, end: Ended): State
  {
    st.(end := Some(end), cancel := true)
  }

  function NewShards(w: World, prefixes: seq<string>): seq<Shard>
  {
    seq(|prefixes|, i requires 0 <= i < |prefixes| => Shard(w.pagesOf(prefixes[i]), 0, Paging, [], 0, [], false))
  }

  /** The delimiter loop: the stop is looked at before each request and behind each page. */
  function RootStep(w: World, st: State, a: Action): State
  {
    var r := st.root;
    if st.end.Some? then st
    else
      match a
      case ListRoot =>
        if r.place != BeforePage then st
        else if st.stop then EndWith(st, StoppedEarly)
        else if r.taken < |w.root| then
          var page := w.root[r.taken];
          st.(root := Root(AfterPage, r.taken + 1, r.prefixes + page.prefixes, r.yielded + Mcaps(page.keys)))
        else st
      case FailRoot => if r.place == BeforePage then EndWith(st, Raised) else st
      case CheckRoot =>
        if r.place != AfterPage then st
        else if st.stop then EndWith(st, StoppedEarly)
        else if r.taken < |w.root| then st.(root := r.(place := BeforePage))
        else if r.prefixes == [] then EndWith(st, Exhausted)
        else st.(root := r.(place := AmongShards), shards := NewShards(w, r.prefixes))
      case _ => st
  }

  function WithShard(st: State, k: nat, s: Shard): State
    requires k < |st.shards|
  {
    st.(shards := st.shards[k := s])
  }

  /** One producer. It leaves its loop at the end of its pages or on a stop, and either way goes on to commit. */
  function Produce(s: Shard, a: Action, stopped: bool): Shard
  {
    match a
    case Fetch(_) => if s.phase == Paging && !stopped && s.put < |s.pages| then s.(phase := Holding) else s
    case PutPage(_) =>
      if s.phase == Holding && s.put < |s.pages|
      then s.(phase := Paging, put := s.put + 1, queue := s.queue + [Page(s.pages[s.put])]) else s
    case LeaveLoop(_) => if s.phase == Paging && (stopped || s.put == |s.pages|) then s.(phase := Finishing) else s
    case CommitEnd(_) => if s.phase == Finishing && !stopped then s.(phase := Ending) else s
    case PutEnd(_) => if s.phase == Ending then s.(phase := Ended, queue := s.queue + [Done]) else s
    case Fail(_) => if s.phase == Paging && !stopped then s.(phase := Erring) else s
    case PutError(_) => if s.phase == Erring then s.(phase := Gone, queue := s.queue + [Err]) else s
    case Leave(_) => if s.phase != Ended && stopped then s.(phase := Gone) else s
    case _ => s
  }

  predicate IsProducers(a: Action)
  {
    || a.Fetch? || a.PutPage? || a.LeaveLoop? || a.CommitEnd? || a.PutEnd? || a.Fail? || a.PutError? || a.Leave?
  }

  function ProducerStep(st: State, a: Action): State
    requires IsProducers(a)
  {
    if a.k < |st.shards| then WithShard(st, a.k, Produce(st.shards[a.k], a, Stopped(st))) else st
  }

  /** The consumer's steps. A stop noticed inside a page leaves the rest of it unyielded. */
  function ConsumerStep(st: State, a: Action): State
  {
    if st.end.Some? || st.root.place != AmongShards then st
    else
      match a
      case Take(k, upTo) =>
        if k < |st.shards| && st.shards[k].queue != [] && st.finished < |st.shards| then TakeItem(st, k, upTo) else st
      case NoticeStop => if st.stop then EndWith(st, StoppedEarly) else st
      case Finish => if st.finished == |st.shards| then EndWith(st, Exhausted) else st
      case _ => st
  }

  function TakeItem(st: State, k: nat, upTo: nat): State
    requires k < |st.shards| && st.shards[k].queue != []
  {
    var s := st.shards[k];
    var rest := s.(queue := s.queue[1..]);
    match s.queue[0]
    case Done => WithShard(st, k, rest.(seen := true)).(finished := st.finished + 1)
    case Err => EndWith(WithShard(st, k, rest), Raised)
    case Page(keys) =>
      if st.stop && upTo < |keys| then
        EndWith(WithShard(st, k, rest.(yielded := s.yielded + Mcaps(keys[..upTo]))), StoppedEarly)
      else WithShard(st, k, rest.(taken := s.taken + 1, yielded := s.yielded + Mcaps(keys)))
  }

  function Step(w: World, st: State, a: Action): State
  {
    if a.SetStop? then st.(stop := true)
    else if a.ListRoot? || a.FailRoot? || a.CheckRoot? then RootStep(w, st, a)
    else if IsProducers(a) then ProducerStep(st, a)
    else ConsumerStep(st, a)
  }

  const START := State(Root(BeforePage, 0, [], []), [], false, false, 0, None)

  function Run(w: World, actions: seq<Action>): State
  {
    if actions == [] then START else Step(w, Run(w, actions[..|actions| - 1]), actions[|actions| - 1])
  }

  /** Everything yielded, shard by shard behind the root. */
  function Yielded(st: State): seq<string>
  {
    Flatten(YieldedParts(st))
  }

  function YieldedParts(st: State): (parts: seq<seq<string>>)
    ensures |parts| == |st.shards| + 1
  {
    [st.root.yielded] + seq(|st.shards|, k requires 0 <= k < |st.shards| => st.shards[k].yielded)
  }

  // ---- The invariant ----

  /** The pages put and not yet taken, then the end marker if it is put and not yet seen. */
  ghost function Expected(s: Shard): seq<Item>
    requires s.taken <= s.put <= |s.pages|
  {
    seq(s.put - s.taken, i requires 0 <= i < s.put - s.taken => Page(s.pages[s.taken + i])) +
    if s.phase == Ended && !s.seen then [Done] else []
  }

  /**
   While the listing runs: the queue is in step, what was yielded is what the taken pages hold, and a producer
   that is out of its loop before its last page left on a stop that is still set.
   */
  ghost predicate ShardOk(s: Shard, stopped: bool)
  {
    && s.taken <= s.put <= |s.pages|
    && (s.phase == Holding ==> s.put < |s.pages|)
    && (s.phase == Finishing && s.put < |s.pages| ==> stopped)
    && (s.phase == Ending || s.phase == Ended ==> s.put == |s.pages|)
    && (s.seen ==> s.phase == Ended && s.taken == |s.pages|)
    && (s.phase != Gone ==> s.queue == Expected(s))
    && (s.phase == Gone ==> s.queue == Expected(s) || s.queue == Expected(s) + [Err])
    && s.yielded == Mcaps(Flatten(s.pages[..s.taken]))
  }

  ghost function Seen(shards: seq<Shard>): nat
  {
    if shards == [] then 0 else Seen(shards[..|shards| - 1]) + if shards[|shards| - 1].seen then 1 else 0
  }

  ghost predicate RootOk(w: World, st: State)
  {
    var r := st.root;
    && r.taken <= |w.root|
    && r.prefixes == PrefixesIn(w.root[..r.taken]) && r.yielded == Mcaps(KeysIn(w.root[..r.taken]))
    && (r.place == BeforePage ==> r.taken < |w.root|)
    && (r.place == AmongShards ==> r.taken == |w.root|)
    && (st.end == Some(Exhausted) ==> r.taken == |w.root| && |st.shards| == |r.prefixes|)
  }

  /** The pages of the shards that have been started. */
  ghost function Started(w: World, r: Root): (pages: seq<seq<seq<string>>>)
    ensures r.place == AmongShards ==> |pages| == |r.prefixes|
  {
    if r.place == AmongShards then seq(|r.prefixes|, i requires 0 <= i < |r.prefixes| => w.pagesOf(r.prefixes[i]))
    else []
  }

  /** What a shard has yielded, also in the middle of a page, is where its pages begin. */
  ghost predicate SoFar(yielded: seq<string>, pages: seq<seq<string>>)
  {
    yielded <= Mcaps(Flatten(pages))
  }

  ghost predicate ShardsOk(st: State, pages: seq<seq<seq<string>>>)
  {
    && |st.shards| == |pages|
    && (forall k | 0 <= k < |pages| :: st.shards[k].pages == pages[k] && SoFar(st.shards[k].yielded, pages[k]))
    && (st.end.None? ==>
          (forall k | 0 <= k < |st.shards| :: ShardOk(st.shards[k], Stopped(st))) && st.finished == Seen(st.shards))
    && (st.end == Some(Exhausted) ==>
          forall k | 0 <= k < |st.shards| ::
            st.shards[k].yielded == Mcaps(Flatten(pages[k])) && st.shards[k].phase == Ended)
    && (st.end == Some(StoppedEarly) ==> st.stop)
    && (st.cancel <==> st.end.Some?)
  }

  ghost predicate Inv(w: World, st: State)
  {
    RootOk(w, st) && ShardsOk(st, Started(w, st.root))
  }

  lemma {:induction false} McapsConcat(a: seq<string>, b: seq<string>)
    ensures Mcaps(a + b) == Mcaps(a) + Mcaps(b)
  {
    if b == [] {
      assert a + b == a;
    } else {
      var n := |b| - 1;
      McapsConcat(a, b[..n]);
      assert (a + b)[..|a| + n] == a + b[..n];
    }
  }

  lemma {:induction false} TakenAreFirst(pages: seq<seq<string>>, taken: nat)
    requires taken <= |pages|
    ensures Mcaps(Flatten(pages[..taken])) <= Mcaps(Flatten(pages))
    decreases |pages| - taken
  {
    hide Mcaps, Flatten;
    if taken == |pages| {
      assert pages[..taken] == pages;
    } else {
      TakenAreFirst(pages, taken + 1);
      McapsThrough(pages, taken);
    }
  }

  /** Part of the next page behind the pages taken. */
  lemma PartIsFirst(pages: seq<seq<string>>, taken: nat, upTo: nat)
    requires taken < |pages| && upTo <= |pages[taken]|
    ensures SoFar(Mcaps(Flatten(pages[..taken])) + Mcaps(pages[taken][..upTo]), pages)
  {
    hide Mcaps, Flatten;
    TakenAreFirst(pages, taken + 1);
    McapsThrough(pages, taken);
    McapsConcat(pages[taken][..upTo], pages[taken][upTo..]);
    assert pages[taken] == pages[taken][..upTo] + pages[taken][upTo..];
  }

  // ---- One shard ----

  lemma PutPageOk(s: Shard, stopped: bool)
    requires ShardOk(s, stopped) && s.phase == Holding
    ensures ShardOk(s.(phase := Paging, put := s.put + 1, queue := s.queue + [Page(s.pages[s.put])]), stopped)
  {
    var t := s.(phase := Paging, put := s.put + 1, queue := s.queue + [Page(s.pages[s.put])]);
    assert Expected(s) + [Page(s.pages[s.put])] == Expected(t);
  }

  lemma PutEndOk(s: Shard, stopped: bool)
    requires ShardOk(s, stopped) && s.phase == Ending
    ensures ShardOk(s.(phase := Ended, queue := s.queue + [Done]), stopped)
  {
    assert Expected(s) + [Done] == Expected(s.(phase := Ended, queue := s.queue + [Done]));
  }

  lemma GoneOk(s: Shard, stopped: bool)
    requires ShardOk(s, stopped) && s.phase != Ended
    ensures ShardOk(s.(phase := Gone), stopped)
    ensures s.phase != Gone ==> ShardOk(s.(phase := Gone, queue := s.queue + [Err]), stopped)
  {
    assert Expected(s) == Expected(s.(phase := Gone));
    assert Expected(s) == Expected(s.(phase := Gone, queue := s.queue + [Err]));
  }

  /** Between the loop and the end marker nothing is queued. */
  lemma PhaseOk(s: Shard, phase: Phase, stopped: bool)
    requires ShardOk(s, stopped) && s.phase != Gone && s.phase != Ended && phase != Gone && phase != Ended
    requires phase == Holding ==> s.put < |s.pages|
    requires phase == Finishing && s.put < |s.pages| ==> stopped
    requires phase == Ending ==> s.put == |s.pages|
    ensures ShardOk(s.(phase := phase), stopped)
  {
    assert Expected(s) == Expected(s.(phase := phase));
  }

  lemma ProduceOk(s: Shard, a: Action, stopped: bool)
    requires ShardOk(s, stopped) && IsProducers(a)
    ensures var t := Produce(s, a, stopped);
            ShardOk(t, stopped) && t.pages == s.pages && t.yielded == s.yielded && t.seen == s.seen
  {
    hide ShardOk;
    var t := Produce(s, a, stopped);
    if t != s {
      PutsAreInStep(s, stopped);
      match a {
        case PutPage(_) => PutPageOk(s, stopped);
        case PutEnd(_) => PutEndOk(s, stopped);
        case PutError(_) => GoneOk(s, stopped);
        case Leave(_) => GoneOk(s, stopped);
        case _ => PhaseOk(s, t.phase, stopped);
      }
    }
  }

  lemma PutsAreInStep(s: Shard, stopped: bool)
    requires ShardOk(s, stopped)
    ensures s.put <= |s.pages| && (s.phase == Finishing && s.put < |s.pages| ==> stopped)
  {
  }

  /** A stop that is set does not come off, so what it excuses stays excused. */
  lemma StopExcuses(s: Shard, stopped: bool)
    requires ShardOk(s, stopped)
    ensures ShardOk(s, true)
  {
  }

  /** Taking a page: it is the next one, and yielding it keeps the count of what was taken. */
  lemma TakePageOk(s: Shard, stopped: bool)
    requires ShardOk(s, stopped) && s.queue != [] && s.queue[0].Page?
    ensures s.taken < s.put && s.queue[0].keys == s.pages[s.taken]
    ensures var yielded := s.yielded + Mcaps(s.queue[0].keys);
            ShardOk(s.(queue := s.queue[1..], taken := s.taken + 1, yielded := yielded), stopped)
  {
    hide Mcaps, Flatten;
    assert s.taken < s.put;
    assert Expected(s)[0] == Page(s.pages[s.taken + 0]);
    var t := s.(queue := s.queue[1..], taken := s.taken + 1, yielded := s.yielded + Mcaps(s.queue[0].keys));
    assert Expected(s)[1..] == Expected(t);
    assert s.queue == Expected(s) + [Err] ==> s.queue[1..] == Expected(s)[1..] + [Err];
    McapsThrough(s.pages, s.taken);
  }

  lemma PartOfPageOk(s: Shard, stopped: bool, upTo: nat)
    requires ShardOk(s, stopped) && s.queue != [] && s.queue[0].Page? && upTo <= |s.queue[0].keys|
    ensures SoFar(s.yielded + Mcaps(s.queue[0].keys[..upTo]), s.pages)
  {
    TakePageOk(s, stopped);
    PartIsFirst(s.pages, s.taken, upTo);
  }

  lemma McapsThrough(pages: seq<seq<string>>, taken: nat)
    requires taken < |pages|
    ensures Mcaps(Flatten(pages[..taken + 1])) == Mcaps(Flatten(pages[..taken])) + Mcaps(pages[taken])
  {
    hide Mcaps, Flatten;
    FlattenStep(pages, taken);
    McapsConcat(Flatten(pages[..taken]), pages[taken]);
  }

  /** Taking an end marker: every page of the shard has been taken before it. */
  lemma TakeDoneOk(s: Shard, stopped: bool)
    requires ShardOk(s, stopped) && s.queue != [] && s.queue[0] == Done
    ensures !s.seen && ShardOk(s.(queue := s.queue[1..], seen := true), stopped)
  {
    assert s.phase == Ended && !s.seen;
    assert Expected(s) == [Done];
  }

  // ---- All shards ----

  lemma {:induction false} SeenUpdate(shards: seq<Shard>, k: nat, s: Shard)
    requires k < |shards|
    ensures Seen(shards[k := s]) == Seen(shards) + (if s.seen then 1 else 0) - if shards[k].seen then 1 else 0
  {
    var n := |shards| - 1;
    if k == n {
      assert shards[k := s][..n] == shards[..n];
    } else {
      assert shards[k := s][..n] == shards[..n][k := s];
      SeenUpdate(shards[..n], k, s);
    }
  }

  lemma {:induction false} AllSeen(shards: seq<Shard>)
    ensures Seen(shards) <= |shards|
    ensures Seen(shards) == |shards| ==> forall k | 0 <= k < |shards| :: shards[k].seen
  {
    if shards != [] {
      AllSeen(shards[..|shards| - 1]);
    }
  }

  lemma OkIsSoFar(s: Shard, stopped: bool)
    requires ShardOk(s, stopped)
    ensures SoFar(s.yielded, s.pages)
  {
    TakenAreFirst(s.pages, s.taken);
  }

  /** Changing one shard. */
  lemma ShardChanged(st: State, pages: seq<seq<seq<string>>>, k: nat, s: Shard, finished: nat)
    requires ShardsOk(st, pages) && st.end.None? && k < |st.shards|
    requires ShardOk(s, Stopped(st)) && s.pages == pages[k]
    requires finished == st.finished + (if s.seen then 1 else 0) - if st.shards[k].seen then 1 else 0
    ensures ShardsOk(WithShard(st, k, s).(finished := finished), pages)
  {
    hide ShardOk, SoFar;
    OkIsSoFar(s, Stopped(st));
    SeenUpdate(st.shards, k, s);
  }

  /** After the listing has ended, producers may still leave; nothing that was promised changes. */
  lemma EndedShardChanged(st: State, pages: seq<seq<seq<string>>>, k: nat, s: Shard)
    requires ShardsOk(st, pages) && st.end.Some? && k < |st.shards|
    requires s.pages == st.shards[k].pages && s.yielded == st.shards[k].yielded
    requires st.shards[k].phase == Ended ==> s.phase == Ended
    ensures ShardsOk(WithShard(st, k, s), pages)
  {
  }

  lemma ProducerKeeps(st: State, pages: seq<seq<seq<string>>>, a: Action)
    requires ShardsOk(st, pages) && IsProducers(a)
    ensures ShardsOk(ProducerStep(st, a), pages)
  {
    hide ShardOk, Seen, Produce;
    if a.k < |st.shards| {
      var s := st.shards[a.k];
      var t := Produce(s, a, Stopped(st));
      if st.end.Some? {
        ProduceKeepsYield(s, a, Stopped(st));
        EndedShardChanged(st, pages, a.k, t);
      } else {
        assert ShardOk(s, Stopped(st));
        ProduceOk(s, a, Stopped(st));
        ShardChanged(st, pages, a.k, t, st.finished);
      }
    }
  }

  lemma ProduceKeepsYield(s: Shard, a: Action, stopped: bool)
    ensures var t := Produce(s, a, stopped);
            t.pages == s.pages && t.yielded == s.yielded && (s.phase == Ended ==> t.phase == Ended)
  {
  }

  lemma TakeKeeps(st: State, pages: seq<seq<seq<string>>>, k: nat, upTo: nat)
    requires ShardsOk(st, pages) && st.end.None? && k < |st.shards| && st.shards[k].queue != []
    ensures ShardsOk(TakeItem(st, k, upTo), pages)
  {
    hide ShardOk, Seen, Mcaps, Flatten, SoFar;
    var s := st.shards[k];
    assert ShardOk(s, Stopped(st));
    match s.queue[0] {
      case Done =>
        TakeDoneOk(s, Stopped(st));
        ShardChanged(st, pages, k, s.(queue := s.queue[1..], seen := true), st.finished + 1);
      case Err =>
      case Page(keys) =>
        if !(st.stop && upTo < |keys|) {
          TakePageOk(s, Stopped(st));
          var t := s.(queue := s.queue[1..], taken := s.taken + 1, yielded := s.yielded + Mcaps(keys));
          ShardChanged(st, pages, k, t, st.finished);
        } else {
          PartOfPageOk(s, Stopped(st), upTo);
        }
    }
  }

  lemma FinishKeeps(st: State, pages: seq<seq<seq<string>>>)
    requires ShardsOk(st, pages) && st.end.None? && st.finished == |st.shards|
    ensures ShardsOk(EndWith(st, Exhausted), pages)
  {
    AllSeen(st.shards);
    hide Seen;
    forall k | 0 <= k < |st.shards|
      ensures st.shards[k].yielded == Mcaps(Flatten(pages[k])) && st.shards[k].phase == Ended
    {
      assert ShardOk(st.shards[k], Stopped(st));
      assert pages[k][..|pages[k]|] == pages[k];
    }
  }

  lemma {:induction false} NoneSeen(shards: seq<Shard>)
    requires forall k | 0 <= k < |shards| :: !shards[k].seen
    ensures Seen(shards) == 0
  {
    if shards != [] {
      NoneSeen(shards[..|shards| - 1]);
    }
  }

  lemma ConsumerKeeps(st: State, pages: seq<seq<seq<string>>>, a: Action)
    requires ShardsOk(st, pages)
    ensures ShardsOk(ConsumerStep(st, a), pages)
  {
    hide ShardOk, Seen, TakeItem, Mcaps, Flatten;
    if st.end.None? && st.root.place == AmongShards {
      if a.Take? && a.k < |st.shards| && st.shards[a.k].queue != [] {
        TakeKeeps(st, pages, a.k, a.upTo);
      } else if a.Finish? && st.finished == |st.shards| {
        FinishKeeps(st, pages);
      }
    }
  }

  lemma StopKeeps(st: State, pages: seq<seq<seq<string>>>)
    requires ShardsOk(st, pages)
    ensures ShardsOk(st.(stop := true), pages)
  {
    hide ShardOk, Seen;
    if st.end.None? {
      forall k | 0 <= k < |st.shards|
        ensures ShardOk(st.shards[k], true)
      {
        StopExcuses(st.shards[k], Stopped(st));
      }
    }
  }

  // ---- The root, and every run ----

  lemma RootPageTaken(root: seq<RootPage>, k: nat)
    requires k < |root|
    ensures PrefixesIn(root[..k + 1]) == PrefixesIn(root[..k]) + root[k].prefixes
    ensures Mcaps(KeysIn(root[..k + 1])) == Mcaps(KeysIn(root[..k])) + Mcaps(root[k].keys)
  {
    hide Mcaps;
    assert root[..k + 1][..k] == root[..k];
    McapsConcat(KeysIn(root[..k]), root[k].keys);
  }

  lemma ShardsStart(w: World, prefixes: seq<string>, st: State)
    requires st.shards == NewShards(w, prefixes) && st.end.None? && st.finished == 0 && !st.cancel
    ensures ShardsOk(st, seq(|prefixes|, i requires 0 <= i < |prefixes| => w.pagesOf(prefixes[i])))
  {
    forall k | 0 <= k < |st.shards|
      ensures ShardOk(st.shards[k], Stopped(st)) && !st.shards[k].seen
    {
      assert st.shards[k].pages[..0] == [];
    }
    NoneSeen(st.shards);
  }

  lemma RootKeeps(w: World, st: State, a: Action)
    requires Inv(w, st)
    ensures Inv(w, RootStep(w, st, a))
  {
    hide Mcaps, KeysIn, PrefixesIn, ShardOk, Seen, NewShards;
    var r, next := st.root, RootStep(w, st, a);
    if st.end.None? && a.ListRoot? && r.place == BeforePage && !st.stop {
      RootPageTaken(w.root, r.taken);
    } else if st.end.None? && a.CheckRoot? && next.root.place == AmongShards && r.place == AfterPage {
      NoShardsYet(w, st);
      ShardsStart(w, r.prefixes, next);
    }
  }

  lemma NoShardsYet(w: World, st: State)
    requires Inv(w, st) && st.root.place != AmongShards && st.end.None?
    ensures st.shards == [] && st.finished == 0 && !st.cancel
  {
  }

  lemma StepKeeps(w: World, st: State, a: Action)
    requires Inv(w, st)
    ensures Inv(w, Step(w, st, a))
  {
    hide ShardsOk, ProducerStep, ConsumerStep, RootStep, Mcaps, KeysIn, PrefixesIn, Started;
    if a.SetStop? {
      StopKeeps(st, Started(w, st.root));
    } else if a.ListRoot? || a.FailRoot? || a.CheckRoot? {
      RootKeeps(w, st, a);
    } else if IsProducers(a) {
      ProducerKeeps(st, Started(w, st.root), a);
      ProducerKeepsRoot(w, st, a);
    } else {
      ConsumerKeeps(st, Started(w, st.root), a);
      ConsumerKeepsRoot(w, st, a);
    }
  }

  lemma ProducerKeepsRoot(w: World, st: State, a: Action)
    requires RootOk(w, st) && IsProducers(a)
    ensures RootOk(w, ProducerStep(st, a)) && ProducerStep(st, a).root == st.root
  {
    hide Mcaps, KeysIn, PrefixesIn, Produce;
  }

  lemma ConsumerKeepsRoot(w: World, st: State, a: Action)
    requires Inv(w, st)
    ensures RootOk(w, ConsumerStep(st, a)) && ConsumerStep(st, a).root == st.root
  {
    hide Mcaps, KeysIn, PrefixesIn, ShardOk, Seen, Flatten;
  }

  lemma {:induction false} RunKeeps(w: World, actions: seq<Action>)
    requires w.root != []
    ensures Inv(w, Run(w, actions))
  {
    hide Inv, Step;
    if actions == [] {
      StartOk(w);
    } else {
      RunKeeps(w, actions[..|actions| - 1]);
      StepKeeps(w, Run(w, actions[..|actions| - 1]), actions[|actions| - 1]);
    }
  }

  lemma StartOk(w: World)
    requires w.root != []
    ensures Inv(w, START)
  {
    assert w.root[..0] == [];
  }

  // ---- What is listed is the bucket ----

  ghost predicate Distinct<T>(s: seq<T>)
  {
    forall i, j | 0 <= i < j < |s| :: s[i] != s[j]
  }

  /** A listing of distinct keys that has every key of `always` with the property and none outside `ever`. */
  ghost predicate Lists(keys: seq<string>, always: set<string>, ever: set<string>, mine: string -> bool)
  {
    && Distinct(keys)
    && (forall key | key in keys :: key in ever && mine(key))
    && (forall key | key in always && mine(key) :: key in keys)
  }

  predicate AtRoot(prefix: string, key: string)
  {
    HasPrefix(key, prefix) && ShardOf(prefix, key).None?
  }

  predicate InShard(prefix: string, key: string, shard: string)
  {
    HasPrefix(key, prefix) && ShardOf(prefix, key) == Some(shard)
  }

  /**
   What the store promises, also while objects come and go: `always` are the keys there throughout, `ever` those
   there at some time. The delimiter listing reports the root keys and each first-level prefix once; the listing
   of a prefix reports the keys that begin with it.
   */
  ghost predicate Answers(w: World, prefix: string, always: set<string>, ever: set<string>)
  {
    && w.root != []
    && Lists(KeysIn(w.root), always, ever, (key: string) => AtRoot(prefix, key))
    && Distinct(PrefixesIn(w.root))
    && (forall s | s in PrefixesIn(w.root) :: exists key :: key in ever && InShard(prefix, key, s))
    && (forall key, s | key in always && InShard(prefix, key, s) :: s in PrefixesIn(w.root))
    && (forall s | s in PrefixesIn(w.root) ::
          Lists(Flatten(w.pagesOf(s)), always, ever, (key: string) => HasPrefix(key, s)))
  }

  lemma {:induction false} McapsHold(keys: seq<string>, key: string)
    ensures key in Mcaps(keys) <==> key in keys && IsMcap(key)
  {
    hide IsMcap;
    if keys != [] {
      var n := |keys| - 1;
      McapsHold(keys[..n], key);
      assert keys == keys[..n] + [keys[n]];
    }
  }

  lemma {:induction false} McapsDistinct(keys: seq<string>)
    requires Distinct(keys)
    ensures Distinct(Mcaps(keys))
  {
    hide IsMcap;
    if keys != [] {
      var n := |keys| - 1;
      McapsDistinct(keys[..n]);
      McapsHold(keys[..n], keys[n]);
      assert keys[n] !in keys[..n];
    }
  }

  lemma {:induction false} FlattenHolds(parts: seq<seq<string>>, key: string)
    ensures key in Flatten(parts) <==> exists k :: 0 <= k < |parts| && key in parts[k]
  {
    if parts != [] {
      var n := |parts| - 1;
      var front := parts[..n];
      FlattenHolds(front, key);
      if key in Flatten(front) {
        var k :| 0 <= k < |front| && key in front[k];
        assert key in parts[k];
      }
      if exists k :: 0 <= k < |parts| && key in parts[k] {
        var k :| 0 <= k < |parts| && key in parts[k];
        assert k < n ==> key in front[k];
      }
    }
  }

  /** Parts that are distinct in themselves and share no element are distinct together. */
  lemma {:induction false} FlattenDistinct(parts: seq<seq<string>>)
    requires forall k | 0 <= k < |parts| :: Distinct(parts[k])
    requires forall i, j | 0 <= i < j < |parts| :: forall key | key in parts[i] :: key !in parts[j]
    ensures Distinct(Flatten(parts))
  {
    if parts != [] {
      var n := |parts| - 1;
      var front := parts[..n];
      FlattenDistinct(front);
      forall key | key in Flatten(front)
        ensures key !in parts[n]
      {
        FlattenHolds(front, key);
        var k :| 0 <= k < |front| && key in front[k];
        assert key in parts[k];
      }
      DistinctConcat(Flatten(front), parts[n]);
    }
  }

  lemma DistinctConcat(a: seq<string>, b: seq<string>)
    requires Distinct(a) && Distinct(b) && forall key | key in a :: key !in b
    ensures Distinct(a + b)
  {
    var all := a + b;
    forall i, j | 0 <= i < j < |all|
      ensures all[i] != all[j]
    {
      if j < |a| {
        assert a[i] != a[j];
      } else if i < |a| {
        assert a[i] in a && b[j - |a|] in b;
      } else {
        assert b[i - |a|] != b[j - |a|];
      }
    }
  }

  /** A key that begins with a reported prefix belongs to that shard. */
  lemma UnderShard(w: World, prefix: string, always: set<string>, ever: set<string>, s: string, key: string)
    requires Answers(w, prefix, always, ever) && s in PrefixesIn(w.root)
    ensures HasPrefix(key, s) <==> InShard(prefix, key, s)
  {
    hide PrefixesIn, KeysIn, Flatten, FirstLevel, Distinct, Lists;
    var other :| other in ever && InShard(prefix, other, s);
    ShardExtends(prefix, other, s);
    if HasPrefix(key, s) {
      assert key[..|prefix|] == key[..|s|][..|prefix|] == s[..|prefix|] == prefix;
    }
    if HasPrefix(key, prefix) {
      ShardsPartitionKeys(prefix, key, other);
    }
  }

  lemma ShardExtends(prefix: string, key: string, s: string)
    requires InShard(prefix, key, s)
    ensures HasPrefix(s, prefix)
  {
    assert s == prefix + FirstLevel(key[|prefix|..]).value;
  }

  /** What part `k` of an exhausted listing holds: the root's keys first, then shard by shard. */
  ghost predicate Mine(prefix: string, prefixes: seq<string>, k: nat, key: string)
    requires k <= |prefixes|
  {
    if k == 0 then AtRoot(prefix, key) else InShard(prefix, key, prefixes[k - 1])
  }

  /** Whatever has been yielded so far, by the root loop or from a shard, is of that part, and not twice. */
  lemma PartSound(w: World, prefix: string, always: set<string>, ever: set<string>, st: State, k: nat)
    requires Answers(w, prefix, always, ever) && Inv(w, st) && k <= |st.shards|
    ensures k <= |PrefixesIn(w.root)| && Distinct(YieldedParts(st)[k])
    ensures forall key | key in YieldedParts(st)[k] ::
              key in ever && IsMcap(key) && Mine(prefix, PrefixesIn(w.root), k, key)
  {
    hide Mcaps, KeysIn, PrefixesIn, Flatten, ShardOf, IsMcap, ShardOk, HasPrefix, Distinct, Seen;
    assert w.root[..|w.root|] == w.root;
    if k == 0 {
      RootPartHolds(KeysIn(w.root), prefix, always, ever);
      RootTakenAreFirst(w.root, st.root.taken);
      FirstOfDistinct(st.root.yielded, Mcaps(KeysIn(w.root)));
    } else {
      var s := PrefixesIn(w.root)[k - 1];
      assert s in PrefixesIn(w.root);
      assert YieldedParts(st)[k] == st.shards[k - 1].yielded;
      ShardPartHolds(w, prefix, always, ever, s);
      FirstOfDistinct(st.shards[k - 1].yielded, Mcaps(Flatten(w.pagesOf(s))));
    }
  }

  lemma FirstOfDistinct(a: seq<string>, b: seq<string>)
    requires a <= b && Distinct(b)
    ensures Distinct(a) && forall key | key in a :: key in b
  {
    assert forall i | 0 <= i < |a| :: a[i] == b[i];
  }

  lemma {:induction false} RootTakenAreFirst(root: seq<RootPage>, taken: nat)
    requires taken <= |root|
    ensures Mcaps(KeysIn(root[..taken])) <= Mcaps(KeysIn(root))
    decreases |root| - taken
  {
    hide Mcaps, KeysIn, PrefixesIn;
    if taken == |root| {
      assert root[..taken] == root;
    } else {
      RootTakenAreFirst(root, taken + 1);
      RootPageTaken(root, taken);
    }
  }

  lemma PartComplete(w: World, prefix: string, always: set<string>, ever: set<string>, st: State, k: nat)
    requires Answers(w, prefix, always, ever) && Inv(w, st) && st.end == Some(Exhausted) && k <= |st.shards|
    ensures |st.shards| == |PrefixesIn(w.root)|
    ensures forall key | key in always && IsMcap(key) && Mine(prefix, PrefixesIn(w.root), k, key) ::
              key in YieldedParts(st)[k]
  {
    hide Mcaps, KeysIn, PrefixesIn, Flatten, ShardOf, IsMcap, ShardOk, HasPrefix, Distinct;
    assert w.root[..|w.root|] == w.root;
    if k == 0 {
      RootPartHolds(KeysIn(w.root), prefix, always, ever);
    } else {
      var s := PrefixesIn(w.root)[k - 1];
      assert s in PrefixesIn(w.root);
      StartedAll(w, st);
      assert YieldedParts(st)[k] == Mcaps(Flatten(w.pagesOf(s)));
      ShardPartHolds(w, prefix, always, ever, s);
    }
  }

  lemma StartedAll(w: World, st: State)
    requires Inv(w, st) && st.end == Some(Exhausted)
    ensures |st.shards| == |PrefixesIn(w.root)|
    ensures forall k | 0 <= k < |st.shards| :: st.shards[k].yielded == Mcaps(Flatten(w.pagesOf(PrefixesIn(w.root)[k])))
  {
    hide Mcaps, KeysIn, PrefixesIn, Flatten, ShardOk, Seen;
    assert w.root[..|w.root|] == w.root;
  }

  lemma RootPartHolds(keys: seq<string>, prefix: string, always: set<string>, ever: set<string>)
    requires Lists(keys, always, ever, (key: string) => AtRoot(prefix, key))
    ensures Distinct(Mcaps(keys))
    ensures forall key | key in Mcaps(keys) :: key in ever && IsMcap(key) && AtRoot(prefix, key)
    ensures forall key | key in always && IsMcap(key) && AtRoot(prefix, key) :: key in Mcaps(keys)
  {
    hide Mcaps, IsMcap, AtRoot, Distinct;
    McapsDistinct(keys);
    forall key
      ensures key in Mcaps(keys) <==> key in keys && IsMcap(key)
    {
      McapsHold(keys, key);
    }
  }

  lemma ShardPartHolds(w: World, prefix: string, always: set<string>, ever: set<string>, s: string)
    requires Answers(w, prefix, always, ever) && s in PrefixesIn(w.root)
    ensures var keys := Mcaps(Flatten(w.pagesOf(s)));
            && Distinct(keys)
            && (forall key | key in keys :: key in ever && IsMcap(key) && InShard(prefix, key, s))
            && (forall key | key in always && IsMcap(key) && InShard(prefix, key, s) :: key in keys)
  {
    hide Mcaps, IsMcap, InShard, KeysIn, PrefixesIn, Flatten, HasPrefix, Distinct;
    var all := Flatten(w.pagesOf(s));
    assert Lists(all, always, ever, (key: string) => HasPrefix(key, s));
    McapsDistinct(all);
    forall key
      ensures key in Mcaps(all) <==> key in all && IsMcap(key)
      ensures HasPrefix(key, s) <==> InShard(prefix, key, s)
    {
      McapsHold(all, key);
      UnderShard(w, prefix, always, ever, s, key);
    }
  }

  /** No key belongs to two parts. */
  lemma PartsDisjoint(prefix: string, prefixes: seq<string>, i: nat, j: nat, key: string)
    requires Distinct(prefixes) && i < j <= |prefixes| && Mine(prefix, prefixes, i, key)
    ensures !Mine(prefix, prefixes, j, key)
  {
  }

  /** A key under the prefix belongs to some part. */
  lemma SomePart(w: World, prefix: string, always: set<string>, ever: set<string>, key: string) returns (k: nat)
    requires Answers(w, prefix, always, ever) && key in always && HasPrefix(key, prefix)
    ensures k <= |PrefixesIn(w.root)| && Mine(prefix, PrefixesIn(w.root), k, key)
  {
    hide PrefixesIn, KeysIn, Flatten, HasPrefix, Distinct, Lists;
    match ShardOf(prefix, key) {
      case None => k := 0;
      case Some(s) =>
        assert InShard(prefix, key, s);
        var i :| 0 <= i < |PrefixesIn(w.root)| && PrefixesIn(w.root)[i] == s;
        k := i + 1;
    }
  }

  lemma PartsDistinct(w: World, prefix: string, always: set<string>, ever: set<string>, st: State)
    requires Answers(w, prefix, always, ever) && Inv(w, st)
    ensures Distinct(Yielded(st))
  {
    hide Inv, Mine, PrefixesIn, Distinct, YieldedParts, IsMcap, Flatten;
    var parts, prefixes := YieldedParts(st), PrefixesIn(w.root);
    forall k | 0 <= k < |parts|
      ensures Distinct(parts[k])
    {
      PartSound(w, prefix, always, ever, st, k);
    }
    forall i, j | 0 <= i < j < |parts|
      ensures forall key | key in parts[i] :: key !in parts[j]
    {
      PartSound(w, prefix, always, ever, st, i);
      PartSound(w, prefix, always, ever, st, j);
      forall key | key in parts[i]
        ensures key !in parts[j]
      {
        PartsDisjoint(prefix, prefixes, i, j, key);
      }
    }
    FlattenDistinct(parts);
  }

  lemma MineIsUnderPrefix(prefix: string, prefixes: seq<string>, k: nat, key: string)
    requires k <= |prefixes| && Mine(prefix, prefixes, k, key)
    ensures HasPrefix(key, prefix)
  {
  }

  /**
   For every interleaving of the root loop, producers, stop and teardown, and for a bucket in which objects come
   and go: at no time has a listing yielded a key twice, or one that is not an `.mcap` key under the prefix that was
   there at some time; one that ends by itself has yielded every such key that was there throughout; one that ends
   early has either raised or leaves the stop set, for the caller to see before it sweeps.
   */
  lemma ListingIsCompleteOrStopped(w: World, prefix: string, always: set<string>, ever: set<string>,
                                   actions: seq<Action>)
    requires Answers(w, prefix, always, ever)
    ensures var st := Run(w, actions);
            && Distinct(Yielded(st)) && (forall key | key in Yielded(st) :: key in ever && Wanted(prefix, key))
            && (st.end == Some(Exhausted) ==> Lists(Yielded(st), always, ever, (key: string) => Wanted(prefix, key)))
            && (st.end == Some(StoppedEarly) ==> st.stop)
  {
    hide Run, YieldedParts, Mine, IsMcap, HasPrefix, Distinct, Answers;
    AnswersHaveRoot(w, prefix, always, ever);
    RunKeeps(w, actions);
    var st := Run(w, actions);
    PartsDistinct(w, prefix, always, ever, st);
    forall key | key in Yielded(st)
      ensures key in ever && Wanted(prefix, key)
    {
      FlattenHolds(YieldedParts(st), key);
      var k :| 0 <= k < |YieldedParts(st)| && key in YieldedParts(st)[k];
      PartSound(w, prefix, always, ever, st, k);
      MineIsUnderPrefix(prefix, PrefixesIn(w.root), k, key);
    }
    if st.end == Some(Exhausted) {
      forall key | key in always && Wanted(prefix, key)
        ensures key in Yielded(st)
      {
        var k := SomePart(w, prefix, always, ever, key);
        StartedAll(w, st);
        PartComplete(w, prefix, always, ever, st, k);
        FlattenHolds(YieldedParts(st), key);
      }
    }
  }

  lemma AnswersHaveRoot(w: World, prefix: string, always: set<string>, ever: set<string>)
    requires Answers(w, prefix, always, ever)
    ensures w.root != []
  {
  }

  /** The keys a listing is after. */
  predicate Wanted(prefix: string, key: string)
  {
    HasPrefix(key, prefix) && IsMcap(key)
  }

  lemma {:induction false} DistinctIsASet(s: seq<string>, t: set<string>)
    requires Distinct(s) && forall key :: key in s <==> key in t
    ensures multiset(s) == multiset(t)
  {
    if s == [] {
      assert t == {};
    } else {
      var n := |s| - 1;
      assert s == s[..n] + [s[n]];
      assert s[n] !in s[..n];
      DistinctIsASet(s[..n], t - {s[n]});
    }
  }

  /** So over a bucket that stays as it is, an exhausted listing is exactly its wanted keys, each once. */
  lemma ListingIsTheBucket(w: World, prefix: string, bucket: set<string>, actions: seq<Action>)
    requires Answers(w, prefix, bucket, bucket) && Run(w, actions).end == Some(Exhausted)
    ensures multiset(Yielded(Run(w, actions))) == multiset(set key | key in bucket && Wanted(prefix, key))
  {
    hide Run, Yielded, Answers, Wanted;
    ListingIsCompleteOrStopped(w, prefix, bucket, bucket, actions);
    DistinctIsASet(Yielded(Run(w, actions)), set key | key in bucket && Wanted(prefix, key));
  }
}
