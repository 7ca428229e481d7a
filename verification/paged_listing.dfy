/**
 Paged catalog listing against a server whose page tokens are bound to a catalog generation, and the gated
 listing on top of it. The server may rebuild between any two requests.
 */
module PagedListing {
  import opened Basics

  datatype Sequence = Sequence(name: string, id: nat)

  /** A page token: the generation it was issued for and how far the listing has got. */
  datatype Token = Token(generation: nat, offset: nat)

  datatype Filter = Filter(generation: nat)

  /** How the server meets a request: it may be silent, fail, or serve as many entries as it likes. */
  datatype Mood = Silent | Failing | Serving(upTo: nat)

  /**
   The server as the client meets it: the listing of each generation, the generation at the time of each request,
   how each request is met, and whether the caller has been superseded by then.
   */
  datatype Server = Server(listing: nat -> seq<Sequence>, generation: nat -> nat, mood: nat -> Mood,
                           superseded: nat -> bool)

  datatype Reply = NoReply | Failure | Stale | Page(generation: nat, items: seq<Sequence>, next: Option<Token>)

  /**
   The server's contract: a first page comes from the current generation, unless a filter names another; a later
   page continues its token's generation or is refused as stale. A page that is not the last one is not empty.
   */
  function Respond(s: Server, t: nat, token: Option<Token>, filter: Option<Filter>): Reply
  {
    match s.mood(t)
    case Silent => NoReply
    case Failing => Failure
    case Serving(upTo) =>
      var now := s.generation(t);
      if token.Some? && token.value.generation != now then Stale
      else if token.None? && filter.Some? && filter.value.generation != now then Stale
      else
        var all := s.listing(now);
        var from := if token.None? then 0 else if token.value.offset <= |all| then token.value.offset else |all|;
        var to := if from + upTo + 1 <= |all| then from + upTo + 1 else |all|;
        Page(now, all[from..to], if to == |all| then None else Some(Token(now, to)))
  }

  function IdsOf(items: seq<Sequence>): map<string, nat>
  {
    if items == [] then map[] else IdsOf(items[..|items| - 1])[items[|items| - 1].name := items[|items| - 1].id]
  }

  /** What a progressive consumer holds: cleared on reset, appended to otherwise. */
  function Consumed(pages: seq<(seq<Sequence>, bool)>): seq<Sequence>
  {
    if pages == [] then []
    else
      var p := pages[|pages| - 1];
      (if p.1 then [] else Consumed(pages[..|pages| - 1])) + p.0
  }

  datatype Result = Complete(items: seq<Sequence>) | Partial(items: seq<Sequence>) | StaleVocabulary

  /** How one attempt at a listing ends: every page read, aborted as stale, or given up. */
  datatype Attempt = Exhausted(generation: nat) | WentStale | GaveUp

  const MAX_STALE_RETRIES := 2

  /** One attempt as the server met it: when its first request was sent, how many pages came, and how it ended. */
  datatype Try = Try(start: nat, pages: nat, end: Attempt)

  /** Every request of the attempt that brought a page was sent by a current caller and served from generation `g`. */
  ghost predicate ServedBy(s: Server, from: nat, n: nat, g: nat)
  {
    forall t :: from <= t < from + n ==> !s.superseded(t) && s.mood(t).Serving? && s.generation(t) == g
  }

  /** How much of a listing of `length` entries `n` pages bring. */
  ghost function Reached(s: Server, from: nat, n: nat, length: nat): (r: nat)
    ensures r <= length
  {
    if n == 0 then 0
    else
      var r := Reached(s, from, n - 1, length);
      match s.mood(from + n - 1)
      case Serving(upTo) => if r + upTo + 1 <= length then r + upTo + 1 else length
      case _ => r
  }

  /** What the attempt has in hand: a first part of the listing its first request met. */
  ghost function InHand(s: Server, t: Try): seq<Sequence>
  {
    if t.pages == 0 then []
    else
      var all := s.listing(s.generation(t.start));
      all[..Reached(s, t.start, t.pages, |all|)]
  }

  /** The generation the next request is held to, if any. */
  ghost function Bound(s: Server, t: Try, filter: Option<Filter>): Option<nat>
  {
    if t.pages > 0 then Some(s.generation(t.start))
    else if filter.Some? then Some(filter.value.generation)
    else None
  }

  /** The pages so far do not make up the listing. */
  ghost predicate Unfinished(s: Server, start: nat, n: nat)
  {
    n == 0 || Reached(s, start, n, |s.listing(s.generation(start))|) < |s.listing(s.generation(start))|
  }

  /**
   What makes an attempt end as it did. Pages come from one generation, the filter's if there is one, until they
   make up its listing; before that, the attempt ends at the first request that is not met by a current server's
   page: stale when the catalog has moved on, given up when the caller is superseded or gets no page.
   */
  ghost predicate Went(s: Server, filter: Option<Filter>, t: Try)
  {
    var g, now := s.generation(t.start), t.start + t.pages;
    && ServedBy(s, t.start, t.pages, g)
    && (t.pages > 0 && filter.Some? ==> g == filter.value.generation)
    && (forall n :: 0 <= n < t.pages ==> Unfinished(s, t.start, n))
    && (t.end.Exhausted? <==> !Unfinished(s, t.start, t.pages))
    && (t.end.Exhausted? ==> t.end.generation == g)
    && (t.end.WentStale? <==>
          && Unfinished(s, t.start, t.pages) && !s.superseded(now) && s.mood(now).Serving?
          && Bound(s, t, filter).Some? && Bound(s, t, filter).value != s.generation(now))
    && (t.end.GaveUp? <==>
          Unfinished(s, t.start, t.pages) && (s.superseded(now) || !s.mood(now).Serving?))
  }

  /** The server and the caller decide how an attempt goes: there is one way only. */
  lemma WentOneWay(s: Server, filter: Option<Filter>, t: Try, u: Try)
    requires Went(s, filter, t) && Went(s, filter, u) && t.start == u.start
    ensures t == u
  {
    StopsThere(s, filter, t, u);
    StopsThere(s, filter, u, t);
  }

  /** An attempt does not go on where another one ended. */
  lemma StopsThere(s: Server, filter: Option<Filter>, t: Try, u: Try)
    requires Went(s, filter, t) && Went(s, filter, u) && t.start == u.start
    ensures u.pages <= t.pages
  {
    var now := t.start + t.pages;
    assert t.pages < u.pages ==> Unfinished(s, t.start, t.pages);
  }

  /** A server that serves throughout, from one generation, is listed whole by a caller that stays current. */
  lemma SteadyIsExhausted(s: Server, filter: Option<Filter>, t: Try, g: nat)
    requires Went(s, filter, t) && filter in {None, Some(Filter(g))}
    requires forall now :: now >= t.start ==> !s.superseded(now) && s.mood(now).Serving? && s.generation(now) == g
    ensures t.end == Exhausted(g) && InHand(s, t) == s.listing(g)
  {
    var now := t.start + t.pages;
    assert !s.superseded(now) && s.mood(now).Serving? && s.generation(now) == g;
    assert s.generation(t.start) == g;
  }

  lemma ConsumedMore(pages: seq<(seq<Sequence>, bool)>, page: seq<Sequence>, reset: bool)
    ensures Consumed(pages + [(page, reset)]) == (if reset then [] else Consumed(pages)) + page
  {
    assert (pages + [(page, reset)])[..|pages|] == pages;
  }

  lemma NoIds()
    ensures IdsOf([]) == map[]
  {
  }

  lemma {:induction false} IdsMore(a: seq<Sequence>, b: seq<Sequence>)
    ensures IdsOf(a + b) == IdsOf(a) + IdsOf(b)
  {
    if b == [] {
      assert a + b == a;
    } else {
      var n := |b| - 1;
      IdsMore(a, b[..n]);
      assert (a + b)[..|a| + n] == a + b[..n];
    }
  }

  class Backend {
    /** The published name index, and the generation it was listed from. */
    var index: map<string, nat>
    var generation: nat
    /** Requests sent so far. */
    var clock: nat
    /** Pages handed to the progressive consumer, each with its reset flag. */
    var pages: seq<(seq<Sequence>, bool)>

    constructor ()
      ensures index == map[] && pages == [] && clock == 0
    {
      index, generation, clock, pages := map[], 0, 0, [];
    }

    /** One attempt: page after page of one generation. */
    method ListOnce(s: Server, filter: Option<Filter>)
      returns (a: Attempt, items: seq<Sequence>, ids: map<string, nat>, ghost t: Try)
      modifies this`clock, this`pages
      ensures Went(s, filter, t) && t.start == old(clock) && t.end == a
      ensures items == InHand(s, t) && ids == IdsOf(items)
      ensures a.Exhausted? ==> items == s.listing(a.generation) && Consumed(pages) == items
      ensures a.Exhausted? && filter.Some? ==> a.generation == filter.value.generation
      ensures a.WentStale? ==> clock == t.start + t.pages + 1
      ensures Consumed(pages) == if t.pages > 0 then items else old(Consumed(pages))
      ensures clock == old(clock) + t.pages +
                       if a.Exhausted? || s.superseded(old(clock) + t.pages) then 0 else 1
    {
      hide Respond, IdsOf, Consumed, ServedBy, Reached, Unfinished;
      items, ids := [], map[];
      NoIds();
      var token: Option<Token> := None;
      var served := 0;
      t := Try(clock, 0, GaveUp);
      NothingYet(s, t);
      while true
        invariant ids == IdsOf(items) && t.start == old(clock) && clock == t.start + t.pages
        invariant Underway(s, filter, t, token) && items == InHand(s, t)
        invariant t.pages > 0 ==> served == s.generation(t.start)
        invariant Consumed(pages) == if t.pages > 0 then items else old(Consumed(pages))
        decreases if token.None? then 1 else 0, Left(s, t)
      {
        if s.superseded(clock) {
          GivenUp(s, filter, t, token);
          return GaveUp, items, ids, t;
        }
        var reply := Respond(s, clock, token, filter);
        RefusedWhen(s, clock, token, filter);
        clock := clock + 1;
        match reply {
          case NoReply =>
            GivenUp(s, filter, t, token);
            return GaveUp, items, ids, t;
          case Failure =>
            GivenUp(s, filter, t, token);
            return GaveUp, items, ids, t;
          case Stale =>
            t := t.(end := WentStale);
            return WentStale, items, ids, t;
          case Page(g, page, next) =>
            if token.None? {
              served := g;
            }
            PageContinues(s, t, token, filter);
            ConsumedMore(pages, page, token.None?);
            IdsMore(items, page);
            pages := pages + [(page, token.None?)];
            assert [] + page == page;
            items := items + page;
            ids := ids + IdsOf(page);
            t := t.(pages := t.pages + 1);
            if next.None? {
              t := t.(end := Exhausted(served));
              return Exhausted(served), items, ids, t;
            }
            token := next;
        }
      }
    }

    /** One attempt and what comes of it: a result, or none when an unfiltered one went stale. */
    method ListNow(s: Server, filter: Option<Filter>) returns (r: Option<Result>, items: seq<Sequence>, ghost t: Try)
      modifies this
      ensures Went(s, filter, t) && t.start == old(clock) && items == InHand(s, t)
      ensures r.None? <==> t.end.WentStale? && filter.None?
      ensures t.end.WentStale? ==> clock == t.start + t.pages + 1
      ensures r.Some? ==>
              && (r.value.Complete? <==> t.end.Exhausted?) && (r.value.StaleVocabulary? <==> t.end.WentStale?)
              && (!r.value.StaleVocabulary? ==> r.value.items == items)
      ensures t.end.Exhausted? ==>
              && items == s.listing(generation) && index == IdsOf(items) && Consumed(pages) == items
              && (filter.Some? ==> generation == filter.value.generation)
      ensures !t.end.Exhausted? ==> index == old(index) && generation == old(generation)
    {
      hide Went, InHand, IdsOf, Consumed;
      var a, ids;
      a, items, ids, t := ListOnce(s, filter);
      match a {
        case Exhausted(g) =>
          index, generation := ids, g;
          r := Some(Complete(items));
        case GaveUp => r := Some(Partial(items));
        case WentStale => r := if filter.Some? then Some(StaleVocabulary) else None;
      }
    }

    /**
     `listSequences`: attempt after attempt while the catalog moves on, unless a filter holds it to one
     generation. A listing reported complete is the whole listing of one generation, the consumer holds exactly
     that, and the index changes only then.
     */
    method ListSequences(s: Server, filter: Option<Filter>)
      returns (r: Result, attempts: nat, ghost tries: seq<Try>)
      modifies this
      ensures r.Complete? ==> r.items == s.listing(generation) && index == IdsOf(r.items) && Consumed(pages) == r.items
      ensures r.Complete? && filter.Some? ==> generation == filter.value.generation
      ensures !r.Complete? ==> index == old(index) && generation == old(generation)
      ensures 1 <= attempts == |tries| <= MAX_STALE_RETRIES + 1 && (filter.Some? ==> attempts == 1)
      ensures InTurn(s, filter, old(clock), tries)
      ensures Reports(s, filter, tries[attempts - 1], attempts, r)
      ensures r.StaleVocabulary? ==> clock == tries[attempts - 1].start + tries[attempts - 1].pages + 1
    {
      attempts, tries := 0, [];
      assert InTurn(s, filter, clock, tries);
      hide Went, InHand, IdsOf, Consumed, InTurn, Follows;
      var items: seq<Sequence> := [];
      while attempts <= MAX_STALE_RETRIES
        invariant 0 <= attempts == |tries| <= MAX_STALE_RETRIES + 1
        invariant index == old(index) && generation == old(generation)
        invariant filter.Some? ==> attempts == 0
        invariant InTurn(s, filter, old(clock), tries)
        invariant tries == [] ==> clock == old(clock)
        invariant tries != [] ==> Stalled(s, tries[attempts - 1], clock, items)
      {
        var now;
        ghost var t;
        now, items, t := ListNow(s, filter);
        OneMoreInTurn(s, filter, old(clock), tries, t);
        attempts, tries := attempts + 1, tries + [t];
        if now.Some? {
          return now.value, attempts, tries;
        }
      }
      return Partial(items), attempts, tries;
    }
  }

  /** An attempt that went stale, its refusal just received. */
  ghost predicate Stalled(s: Server, t: Try, clock: nat, items: seq<Sequence>)
  {
    t.end.WentStale? && clock == t.start + t.pages + 1 && items == InHand(s, t)
  }

  /** When a listing is complete, stale or partial, by its last attempt, and what it then has. */
  ghost predicate Reports(s: Server, filter: Option<Filter>, last: Try, attempts: nat, r: Result)
  {
    && (r.Complete? <==> last.end.Exhausted?)
    && (r.StaleVocabulary? <==> last.end.WentStale? && filter.Some?)
    && (!r.StaleVocabulary? ==> r.items == InHand(s, last))
    && (r.Partial? && last.end.WentStale? ==> attempts == MAX_STALE_RETRIES + 1)
  }

  ghost predicate Follows(t: Try, next: Try)
  {
    t.end.WentStale? && next.start == t.start + t.pages + 1
  }

  /** Attempts one after another, each but the last gone stale, the next starting right after the refusal. */
  ghost predicate InTurn(s: Server, filter: Option<Filter>, from: nat, tries: seq<Try>)
  {
    && (tries != [] ==> tries[0].start == from)
    && (forall i :: 0 <= i < |tries| ==> Went(s, filter, tries[i]))
    && (forall i :: 0 <= i < |tries| - 1 ==> Follows(tries[i], tries[i + 1]))
  }

  lemma OneMoreInTurn(s: Server, filter: Option<Filter>, from: nat, tries: seq<Try>, t: Try)
    requires InTurn(s, filter, from, tries) && Went(s, filter, t)
    requires if tries == [] then t.start == from
             else var last := tries[|tries| - 1]; last.end.WentStale? && t.start == last.start + last.pages + 1
    ensures InTurn(s, filter, from, tries + [t])
  {
    hide Went;
  }

  /** An attempt that has not ended: its pages are those of one generation, and the token names the next one. */
  ghost predicate Underway(s: Server, filter: Option<Filter>, t: Try, token: Option<Token>)
  {
    var g := s.generation(t.start);
    && ServedBy(s, t.start, t.pages, g)
    && (t.pages > 0 && filter.Some? ==> g == filter.value.generation)
    && (forall n :: 0 <= n <= t.pages ==> Unfinished(s, t.start, n))
    && token == (if t.pages == 0 then None else Some(Token(g, Reached(s, t.start, t.pages, |s.listing(g)|))))
    && t.end == GaveUp
  }

  /** What the attempt has yet to read. */
  ghost function Left(s: Server, t: Try): nat
  {
    var all := s.listing(s.generation(t.start));
    |all| - Reached(s, t.start, t.pages, |all|)
  }

  lemma NothingYet(s: Server, t: Try)
    requires t.pages == 0 && t.end == GaveUp
    ensures forall filter :: Underway(s, filter, t, None)
  {
  }

  lemma GivenUp(s: Server, filter: Option<Filter>, t: Try, token: Option<Token>)
    requires Underway(s, filter, t, token)
    requires s.superseded(t.start + t.pages) || !s.mood(t.start + t.pages).Serving?
    ensures Went(s, filter, t)
  {
    hide ServedBy, Reached, Unfinished;
  }

  /** When a request gets no page. */
  lemma RefusedWhen(s: Server, t: nat, token: Option<Token>, filter: Option<Filter>)
    ensures var r := Respond(s, t, token, filter);
            && (r.NoReply? || r.Failure? <==> !s.mood(t).Serving?)
            && (r.Stale? <==>
                  && s.mood(t).Serving?
                  && (if token.Some? then token.value.generation != s.generation(t)
                      else filter.Some? && filter.value.generation != s.generation(t)))
  {
  }

  /** A page continues exactly where the pages before it ended, and the last one ends the listing. */
  lemma PageContinues(s: Server, t: Try, token: Option<Token>, filter: Option<Filter>)
    requires Underway(s, filter, t, token) && !s.superseded(t.start + t.pages)
    requires Respond(s, t.start + t.pages, token, filter).Page?
    ensures var p, u := Respond(s, t.start + t.pages, token, filter), t.(pages := t.pages + 1);
            && InHand(s, t) + p.items == InHand(s, u) && p.generation == s.generation(t.start)
            && (p.next.None? ==> InHand(s, u) == s.listing(s.generation(t.start)) &&
                                 Went(s, filter, u.(end := Exhausted(s.generation(t.start)))))
            && (p.next.Some? ==> Underway(s, filter, u, p.next) && (token.Some? ==> Left(s, u) < Left(s, t)))
  {
    var p, u := Respond(s, t.start + t.pages, token, filter), t.(pages := t.pages + 1);
    var all := s.listing(s.generation(t.start));
    var from, to := Reached(s, t.start, t.pages, |all|), Reached(s, t.start, u.pages, |all|);
    assert p.items == all[from..to];
    assert all[..from] + all[from..to] == all[..to];
    assert InHand(s, t) == all[..from];
    assert forall n :: 0 <= n <= t.pages ==> Unfinished(s, u.start, n);
    assert all[..|all|] == all;
  }

  // ---- The gated listing ----

  datatype GateError = NoError | PartialList | SelectionGone | RebuildStorm | ConnectionLost | Superseded

  /** Where a resolution leads: to a result, to another resolution, or nowhere for want of a vocabulary. */
  datatype Next = Done | Again | Unanswered

  datatype GateResult = GateResult(error: GateError, items: seq<Sequence>)

  /** What the gate observes around each attempt, and how names resolve against a vocabulary. */
  datatype GateWorld = GateWorld(
    supersededAtStart: bool, connected: bool, closed: nat -> bool, supersededNow: nat -> bool,
    vocabulary: nat -> Option<nat>, resolves: nat -> bool)

  /** The vocabulary of the `i`th resolution: the cached one at first, if there is one, and else one just fetched. */
  ghost function VocabularyIn(w: GateWorld, cached: Option<nat>, i: nat): Option<nat>
  {
    if i == 1 && cached.Some? then cached else w.vocabulary(i)
  }

  /** The connection was found closed by the fetch of the `i`th resolution. */
  ghost predicate LostFetching(w: GateWorld, cached: Option<nat>, i: nat)
  {
    !(i == 1 && cached.Some?) && w.closed(2 * i)
  }

  /** The `i`th resolution gets as far as a listing. */
  ghost predicate ListsIn(w: GateWorld, cached: Option<nat>, i: nat)
  {
    && !LostFetching(w, cached, i)
    && VocabularyIn(w, cached, i).Some? && w.resolves(VocabularyIn(w, cached, i).value)
  }

  ghost predicate ListedIn(s: Server, w: GateWorld, cached: Option<nat>, i: nat, t: Try)
  {
    VocabularyIn(w, cached, i).Some? && Went(s, Some(Filter(VocabularyIn(w, cached, i).value)), t)
  }

  /** The listings made, each filtered by its resolution's vocabulary, the second after the first. */
  ghost predicate Listings(s: Server, w: GateWorld, cached: Option<nat>, from: nat, tries: seq<Try>)
  {
    && (forall i :: 0 <= i < |tries| ==> ListedIn(s, w, cached, i + 1, tries[i]))
    && (tries != [] ==> tries[0].start == from)
    && (forall i :: 0 <= i < |tries| - 1 ==> Follows(tries[i], tries[i + 1]))
  }

  lemma OneMoreListing(s: Server, w: GateWorld, cached: Option<nat>, from: nat, tries: seq<Try>, t: Try)
    requires Listings(s, w, cached, from, tries)
    requires if tries == [] then t.start == from else Follows(tries[|tries| - 1], t)
    requires ListedIn(s, w, cached, |tries| + 1, t)
    ensures Listings(s, w, cached, from, tries + [t])
  {
    hide ListedIn;
    var more := tries + [t];
    assert forall i :: 0 <= i < |more| ==> more[i] == if i < |tries| then tries[i] else t;
  }

  /** The `i`th resolution's listing leads to another one: it went stale, with the connection and the caller there. */
  ghost predicate GoesOn(w: GateWorld, tries: seq<Try>, i: nat)
    requires 1 <= i <= |tries|
  {
    tries[i - 1].end.WentStale? && !w.closed(2 * i + 1) && !w.supersededNow(i)
  }

  /** When the gate reports what: by what the last resolution met. */
  ghost predicate EndsAs(s: Server, w: GateWorld, cached: Option<nat>, i: nat, tries: seq<Try>, r: GateResult)
  {
    var listed := i > 0 && |tries| == i;
    && (r.error == NoError <==>
          listed && tries[i - 1].end.Exhausted? && !w.closed(2 * i + 1) && !w.supersededNow(i))
    && (r.error == PartialList <==>
          listed && tries[i - 1].end.GaveUp? && !w.closed(2 * i + 1) && !w.supersededNow(i))
    && (r.error == Superseded <==>
          w.supersededAtStart || (listed && !w.closed(2 * i + 1) && w.supersededNow(i)))
    && (r.error == ConnectionLost <==>
          && !w.supersededAtStart
          && (!w.connected || (i > 0 && LostFetching(w, cached, i)) || (listed && w.closed(2 * i + 1))))
    && (r.error == SelectionGone <==>
          && i > 0 && !LostFetching(w, cached, i)
          && VocabularyIn(w, cached, i).Some? && !w.resolves(VocabularyIn(w, cached, i).value))
    && (r.error == RebuildStorm <==>
          && i > 0 && !LostFetching(w, cached, i)
          && (VocabularyIn(w, cached, i).None? || (i == 2 && listed && GoesOn(w, tries, 2))))
    && (r.error == PartialList || (listed && r.error == ConnectionLost && !tries[i - 1].end.WentStale?) ==>
          listed && r.items == InHand(s, tries[i - 1]))
  }

  ghost function ReportOf(w: GateWorld, i: nat, r: Result): GateResult
    requires w.closed(2 * i + 1) || w.supersededNow(i) || !r.StaleVocabulary?
  {
    if w.closed(2 * i + 1) then GateResult(ConnectionLost, if r.StaleVocabulary? then [] else r.items)
    else if w.supersededNow(i) then GateResult(Superseded, [])
    else GateResult(if r.Complete? then NoError else PartialList, r.items)
  }

  /** The result is that of the listing the try made. */
  ghost predicate IsOf(s: Server, t: Try, r: Result)
  {
    && (r.Complete? <==> t.end.Exhausted?) && (r.StaleVocabulary? <==> t.end.WentStale?)
    && (!r.StaleVocabulary? ==> r.items == InHand(s, t))
  }

  lemma EndsBeforeListing(s: Server, w: GateWorld, cached: Option<nat>, i: nat, tries: seq<Try>, r: GateResult)
    requires !w.supersededAtStart && w.connected && |tries| + 1 == i && !ListsIn(w, cached, i)
    requires r.error == if LostFetching(w, cached, i) then ConnectionLost
                        else if VocabularyIn(w, cached, i).None? then RebuildStorm
                        else SelectionGone
    ensures EndsAs(s, w, cached, i, tries, r)
  {
    hide InHand;
  }

  lemma EndsByListing(s: Server, w: GateWorld, cached: Option<nat>, i: nat, tries: seq<Try>, l: Result, r: GateResult)
    requires !w.supersededAtStart && w.connected && |tries| == i > 0 && ListsIn(w, cached, i)
    requires IsOf(s, tries[i - 1], l)
    requires if GoesOn(w, tries, i) then i == 2 && r.error == RebuildStorm else r == ReportOf(w, i, l)
    ensures EndsAs(s, w, cached, i, tries, r)
  {
    hide InHand;
  }

  class Gate {
    const backend: Backend
    /** The cached vocabulary, by its generation. */
    var vocabulary: Option<nat>
    /** Every terminal result emitted. */
    var finished: seq<GateResult>

    constructor (b: Backend)
      ensures backend == b && finished == [] && vocabulary.None?
    {
      backend, finished, vocabulary := b, [], None;
    }

    /** The backend holds the listing of the cached vocabulary's generation, in which the selection resolves. */
    ghost predicate Listed(s: Server, w: GateWorld)
      reads this, backend
    {
      && vocabulary == Some(backend.generation) && w.resolves(backend.generation)
      && backend.index == IdsOf(s.listing(backend.generation))
    }

    /** Where the index is left: changed only by a whole listing of the vocabulary's generation. */
    ghost predicate Settled(s: Server, w: GateWorld, index: map<string, nat>, generation: nat, r: GateResult)
      reads this, backend
    {
      && (r.error == NoError ==> Listed(s, w) && r.items == s.listing(backend.generation))
      && (r.error == PartialList || r.error == SelectionGone || r.error == RebuildStorm ==>
            backend.index == index && backend.generation == generation)
      && (r.error == ConnectionLost || r.error == Superseded ==>
            (backend.index == index && backend.generation == generation) || Listed(s, w))
      && (r.error == Superseded || r.error == SelectionGone || r.error == RebuildStorm ==> r.items == [])
    }

    method Finish(error: GateError, items: seq<Sequence>)
      modifies this`finished
      ensures finished == old(finished) + [GateResult(error, items)]
    {
      finished := finished + [GateResult(error, items)];
    }

    /** What becomes of the listing of the `i`th resolution: reported, unless it is to be made again. */
    method Report(w: GateWorld, i: nat, r: Result) returns (again: bool)
      modifies this`finished, this`vocabulary
      ensures again <==> r.StaleVocabulary? && !w.closed(2 * i + 1) && !w.supersededNow(i)
      ensures again ==> finished == old(finished) && vocabulary == None
      ensures !again ==> vocabulary == old(vocabulary) && finished == old(finished) + [ReportOf(w, i, r)]
    {
      if w.closed(2 * i + 1) {
        Finish(ConnectionLost, if r.StaleVocabulary? then [] else r.items);
        return false;
      }
      if w.supersededNow(i) {
        Finish(Superseded, []);
        return false;
      }
      match r {
        case StaleVocabulary =>
          vocabulary := None;
          return true;
        case Complete(items) => Finish(NoError, items);
        case Partial(items) => Finish(PartialList, items);
      }
      return false;
    }

    /** One resolution of the selection: a vocabulary, a filter, a listing. */
    method Resolve(s: Server, w: GateWorld, i: nat, ghost cached: Option<nat>, ghost from: nat, ghost tries: seq<Try>)
      returns (next: Next, ghost after: seq<Try>)
      requires !w.supersededAtStart && w.connected && |tries| + 1 == i <= 2
      requires vocabulary == if i == 1 then cached else None
      requires Listings(s, w, cached, from, tries)
      requires if tries == [] then backend.clock == from
               else tries[i - 2].end.WentStale? && backend.clock == tries[i - 2].start + tries[i - 2].pages + 1
      modifies this, backend
      ensures ListsIn(w, cached, i) ==> |after| == i && after[..i - 1] == tries
      ensures !ListsIn(w, cached, i) ==> after == tries
      ensures Listings(s, w, cached, from, after)
      ensures next.Again? ==> vocabulary == None && ListsIn(w, cached, i) && GoesOn(w, after, i) &&
                              backend.clock == after[i - 1].start + after[i - 1].pages + 1
      ensures next.Done? <==> finished != old(finished)
      ensures next.Done? ==>
              && |finished| == |old(finished)| + 1 && finished[..|old(finished)|] == old(finished)
              && EndsAs(s, w, cached, i, after, finished[|finished| - 1])
              && Settled(s, w, old(backend.index), old(backend.generation), finished[|finished| - 1])
      ensures !next.Done? ==> backend.index == old(backend.index) && backend.generation == old(backend.generation)
      ensures next.Unanswered? || (next.Again? && i == 2) ==>
              EndsAs(s, w, cached, i, after, GateResult(RebuildStorm, []))
    {
      hide Went, InHand, IdsOf, Consumed, Listings, EndsAs;
      after := tries;
      if vocabulary.None? {
        var fetched := w.vocabulary(i);
        if w.closed(2 * i) {
          EndsBeforeListing(s, w, cached, i, tries, GateResult(ConnectionLost, []));
          Finish(ConnectionLost, []);
          return Done, after;
        }
        if fetched.None? {
          EndsBeforeListing(s, w, cached, i, tries, GateResult(RebuildStorm, []));
          return Unanswered, after;
        }
        vocabulary := fetched;
      }
      if !w.resolves(vocabulary.value) {
        EndsBeforeListing(s, w, cached, i, tries, GateResult(SelectionGone, []));
        Finish(SelectionGone, []);
        return Done, after;
      }
      var r, _, listed := backend.ListSequences(s, Some(Filter(vocabulary.value)));
      OneMoreListing(s, w, cached, from, tries, listed[0]);
      after := tries + [listed[0]];
      var again := Report(w, i, r);
      if again {
        if i == 2 {
          EndsByListing(s, w, cached, i, after, r, GateResult(RebuildStorm, []));
        }
        return Again, after;
      }
      EndsByListing(s, w, cached, i, after, r, finished[|finished| - 1]);
      return Done, after;
    }

    /**
     `listSequencesFilteredAsync`: exactly one terminal result on every path, after at most two attempts to
     resolve the selection; a result without an error is the whole listing of the generation the selection was
     resolved against. However it ends, the index is the old one or that of such a listing.
     */
    method ListFiltered(s: Server, w: GateWorld) returns (attempts: nat, ghost tries: seq<Try>)
      modifies this, backend
      ensures |finished| == |old(finished)| + 1 && finished[..|old(finished)|] == old(finished)
      ensures attempts <= 2 && |tries| <= attempts
      ensures Listings(s, w, old(vocabulary), old(backend.clock), tries)
      ensures attempts == 0 <==> w.supersededAtStart || !w.connected
      ensures attempts == 2 ==> |tries| >= 1 && GoesOn(w, tries, 1)
      ensures |tries| == attempts <==> attempts == 0 || ListsIn(w, old(vocabulary), attempts)
      ensures EndsAs(s, w, old(vocabulary), attempts, tries, finished[|finished| - 1])
      ensures Settled(s, w, old(backend.index), old(backend.generation), finished[|finished| - 1])
    {
      attempts, tries := 0, [];
      assert Listings(s, w, vocabulary, backend.clock, tries);
      if w.supersededAtStart {
        Finish(Superseded, []);
        return;
      }
      if !w.connected {
        Finish(ConnectionLost, []);
        return;
      }
      hide Went, InHand, IdsOf, Consumed, Listings, EndsAs;
      while attempts < 2
        invariant 0 <= attempts == |tries| <= 2 && finished == old(finished)
        invariant backend.index == old(backend.index) && backend.generation == old(backend.generation)
        invariant Listings(s, w, old(vocabulary), old(backend.clock), tries)
        invariant attempts >= 1 ==> ListsIn(w, old(vocabulary), attempts) && GoesOn(w, tries, 1)
        invariant attempts >= 1 ==> var last := tries[attempts - 1];
                                    last.end.WentStale? && backend.clock == last.start + last.pages + 1
        invariant attempts == 2 ==> EndsAs(s, w, old(vocabulary), 2, tries, GateResult(RebuildStorm, []))
        invariant attempts == 0 ==> backend.clock == old(backend.clock)
        invariant vocabulary == if attempts == 0 then old(vocabulary) else None
      {
        attempts := attempts + 1;
        var next;
        next, tries := Resolve(s, w, attempts, old(vocabulary), old(backend.clock), tries);
        if next.Done? {
          return;
        }
        if next.Unanswered? {
          break;
        }
      }
      Finish(RebuildStorm, []);
    }
  }
}
