/**
 The history sync of one connection. Games are numbered from the oldest, so a provider
 history of `n` games is 0..n and grows at its newest end; a cursor `c` asks for the
 games below `c`, and no cursor asks for the newest page.
 */
module HistorySyncs {
  import opened Wrappers

  /** The durable part of a connection. */
  datatype Linked = Linked(observed: set<nat>, cursor: Option<nat>, exhausted: bool)

  /** What one request came to; `Failed` also stands for a page whose transaction did not commit. */
  datatype Fetch = Page(head: nat, low: nat, next: Option<nat>) | Failed

  datatype Outcome = Stopped(cursor: Option<nat>, exhausted: bool) | Aborted

  /** The games from `low` up to but not including `top`. */
  function Range(low: nat, top: nat): (games: set<nat>)
    ensures forall g: nat :: g in games <==> low <= g < top
  {
    if low >= top then {} else Range(low, top - 1) + {top - 1}
  }

  function Top(cursor: Option<nat>, f: Fetch): nat
    requires f.Page?
  {
    if cursor.Some? then cursor.value else f.head
  }

  /** One page and its checkpoint, committed together. */
  function TakePage(s: Linked, cursor: Option<nat>, f: Fetch): Linked
    requires f.Page?
  {
    Linked(s.observed + Range(f.low, Top(cursor, f)), f.next, false)
  }

  predicate NothingNew(s: Linked, cursor: Option<nat>, f: Fetch)
    requires f.Page?
  {
    Range(f.low, Top(cursor, f)) <= s.observed
  }

  /** The loop over at most `|fetches|` pages; the early stop is for connections that were exhausted before. */
  function Pages(s: Linked, was: bool, cursor: Option<nat>, fetches: seq<Fetch>): (Linked, Outcome)
    decreases |fetches|
  {
    if fetches == [] then (s, Stopped(cursor, false))
    else if fetches[0].Failed? then (s, Aborted)
    else
      var after := TakePage(s, cursor, fetches[0]);
      if fetches[0].next.None? || (was && NothingNew(s, cursor, fetches[0])) then (after, Stopped(None, true))
      else Pages(after, was, fetches[0].next, fetches[1..])
  }

  function Start(s: Linked): Option<nat> { if s.exhausted then None else s.cursor }

  /** A whole sync; `finishes` is false when its last transaction does not commit. */
  function Sync(s: Linked, fetches: seq<Fetch>, finishes: bool): Linked {
    Ended(Pages(s, s.exhausted, Start(s), fetches), finishes)
  }

  function Ended(walked: (Linked, Outcome), finishes: bool): Linked {
    if walked.1.Aborted? || !finishes then walked.0 else Linked(walked.0.observed, walked.1.cursor, walked.1.exhausted)
  }

  class Connection {
    var observed: set<nat>
    var syncCursor: Option<nat>
    var historyExhausted: bool

    ghost function St(): Linked
      reads this
    {
      Linked(observed, syncCursor, historyExhausted)
    }

    /** The observations of one page, newest first, and how many of them are new. */
    method UpsertPage(low: nat, top: nat) returns (newObservations: nat)
      modifies this`observed
      ensures observed == old(observed) + Range(low, top)
      ensures newObservations == 0 <==> Range(low, top) <= old(observed)
    {
      newObservations := 0;
      var game := top;
      while game > low
        invariant low <= game <= top || game == top
        invariant observed == old(observed) + Range(game, top)
        invariant newObservations == 0 <==> Range(game, top) <= old(observed)
      {
        game := game - 1;
        assert Range(game, top) == {game} + Range(game + 1, top);
        if game !in observed {
          newObservations := newObservations + 1;
          observed := observed + {game};
        }
      }
    }

    method SaveCheckpoint(cursor: Option<nat>, exhausted: bool)
      modifies this`syncCursor, this`historyExhausted
      ensures syncCursor == cursor && historyExhausted == exhausted
    {
      syncCursor, historyExhausted := cursor, exhausted;
    }

    /** `sync_history`, with what the provider and the transactions come to as parameters; it fails or says where it stopped. */
    method SyncHistory(fetches: seq<Fetch>, finishes: bool) returns (r: Outcome)
      modifies this
      ensures St() == Sync(old(St()), fetches, finishes)
      ensures r == if finishes then Pages(old(St()), old(historyExhausted), Start(old(St())), fetches).1 else Aborted
    {
      var wasExhausted := historyExhausted;
      var cursor: Option<nat> := if wasExhausted then None else syncCursor;
      var finalCursor: Option<nat>, exhausted := cursor, false;
      for i := 0 to |fetches|
        invariant Pages(St(), wasExhausted, cursor, fetches[i..]) == Pages(old(St()), wasExhausted, Start(old(St())), fetches)
        invariant finalCursor == cursor && !exhausted
      {
        assert fetches[i..][0] == fetches[i] && fetches[i..][1..] == fetches[i + 1..];
        var page := fetches[i];
        if page.Failed? {
          return Aborted;
        }
        var news := UpsertPage(page.low, if cursor.Some? then cursor.value else page.head);
        finalCursor := page.next;
        SaveCheckpoint(finalCursor, false);
        if page.next.None? || (wasExhausted && news == 0) {
          exhausted, finalCursor := true, None;
          break;
        }
        cursor := page.next;
      }
      if !finishes {
        return Aborted;
      }
      SaveCheckpoint(finalCursor, exhausted);
      return Stopped(finalCursor, exhausted);
    }
  }

  // ---------------------------------------------------------------- a sync told from its pages

  /** The end of page `i`, which begins there and goes down: where the page before it ended, or where the walk began. */
  function TopAt(cursor: Option<nat>, fetches: seq<Fetch>, i: nat): nat
    requires i < |fetches| && fetches[i].Page?
  {
    var from := if i == 0 then cursor else if fetches[i - 1].Page? then fetches[i - 1].next else None;
    if from.Some? then from.value else fetches[i].head
  }

  predicate OnPage(cursor: Option<nat>, fetches: seq<Fetch>, i: nat, game: nat)
    requires i < |fetches| && fetches[i].Page?
  {
    fetches[i].low <= game < TopAt(cursor, fetches, i)
  }

  /** The game was there before, or is on one of the first `k` pages. */
  ghost predicate SeenBy(observed: set<nat>, cursor: Option<nat>, fetches: seq<Fetch>, k: nat, game: nat)
    requires k <= |fetches| && forall i :: 0 <= i < k ==> fetches[i].Page?
  {
    game in observed || exists i: nat :: i < k && OnPage(cursor, fetches, i, game)
  }

  /** Every game of page `i` was seen before it. */
  ghost predicate Stale(observed: set<nat>, cursor: Option<nat>, fetches: seq<Fetch>, i: nat)
    requires i < |fetches| && forall j :: 0 <= j <= i ==> fetches[j].Page?
  {
    forall game: nat :: OnPage(cursor, fetches, i, game) ==> SeenBy(observed, cursor, fetches, i, game)
  }

  /** The walk ends for good with page `i`: it is the last, or brings nothing new to a connection that had everything. */
  ghost predicate EndsAt(observed: set<nat>, was: bool, cursor: Option<nat>, fetches: seq<Fetch>, i: nat)
    requires i < |fetches| && forall j :: 0 <= j <= i ==> fetches[j].Page?
  {
    fetches[i].next.None? || (was && Stale(observed, cursor, fetches, i))
  }

  /** `k` pages are read: up to the one that ends the walk, or to a failure, or all there may be. */
  ghost predicate Reads(observed: set<nat>, was: bool, cursor: Option<nat>, fetches: seq<Fetch>, k: nat) {
    && k <= |fetches| && (forall i :: 0 <= i < k ==> fetches[i].Page?)
    && (forall i: nat :: i + 1 < k ==> !EndsAt(observed, was, cursor, fetches, i))
    && (k < |fetches| ==> fetches[k].Failed? || (k > 0 && EndsAt(observed, was, cursor, fetches, k - 1)))
  }

  /** Taking the first page changes only where the rest begins. */
  lemma SeenFromNext(observed: set<nat>, cursor: Option<nat>, fetches: seq<Fetch>, k: nat, game: nat)
    requires 1 <= k <= |fetches| && forall i :: 0 <= i < k ==> fetches[i].Page?
    requires k > 1 ==> fetches[0].next.Some?
    ensures SeenBy(observed + Range(fetches[0].low, Top(cursor, fetches[0])), fetches[0].next, fetches[1..], k - 1, game)
       <==> SeenBy(observed, cursor, fetches, k, game)
  {
    var rest, more := fetches[1..], observed + Range(fetches[0].low, Top(cursor, fetches[0]));
    forall i: nat | i < k - 1
      ensures rest[i] == fetches[i + 1] && TopAt(fetches[0].next, rest, i) == TopAt(cursor, fetches, i + 1)
    {
    }
    if SeenBy(observed, cursor, fetches, k, game) && game !in observed {
      var i: nat :| i < k && OnPage(cursor, fetches, i, game);
      if i > 0 {
        assert OnPage(fetches[0].next, rest, i - 1, game);
      }
      assert SeenBy(more, fetches[0].next, rest, k - 1, game);
    }
    if SeenBy(more, fetches[0].next, rest, k - 1, game) && game !in observed {
      if game in more {
        assert OnPage(cursor, fetches, 0, game);
      } else {
        var i: nat :| i < k - 1 && OnPage(fetches[0].next, rest, i, game);
        assert OnPage(cursor, fetches, i + 1, game);
      }
    }
  }

  lemma EndsFromNext(observed: set<nat>, was: bool, cursor: Option<nat>, fetches: seq<Fetch>, i: nat)
    requires 1 <= i < |fetches| && forall j :: 0 <= j <= i ==> fetches[j].Page?
    requires fetches[0].next.Some?
    ensures EndsAt(observed + Range(fetches[0].low, Top(cursor, fetches[0])), was, fetches[0].next, fetches[1..], i - 1)
       <==> EndsAt(observed, was, cursor, fetches, i)
  {
    var more, rest := observed + Range(fetches[0].low, Top(cursor, fetches[0])), fetches[1..];
    assert rest[i - 1] == fetches[i] && forall j :: 0 <= j <= i - 1 ==> rest[j] == fetches[j + 1];
    assert TopAt(fetches[0].next, rest, i - 1) == TopAt(cursor, fetches, i);
    forall game: nat | OnPage(cursor, fetches, i, game)
      ensures SeenBy(more, fetches[0].next, rest, i - 1, game) <==> SeenBy(observed, cursor, fetches, i, game)
    {
      SeenFromNext(observed, cursor, fetches, i, game);
    }
    var h: nat := i - 1;
    if Stale(more, fetches[0].next, rest, h) {
      forall game: nat | OnPage(cursor, fetches, i, game)
        ensures SeenBy(observed, cursor, fetches, i, game)
      {
        assert OnPage(fetches[0].next, rest, h, game);
        assert SeenBy(more, fetches[0].next, rest, h, game);
      }
    }
    if Stale(observed, cursor, fetches, i) {
      forall game: nat | OnPage(fetches[0].next, rest, h, game)
        ensures SeenBy(more, fetches[0].next, rest, h, game)
      {
        assert OnPage(cursor, fetches, i, game);
        assert SeenBy(observed, cursor, fetches, i, game);
      }
    }
  }

  /** How the loop ends after `k` pages, and what it leaves stored. */
  ghost predicate Leaves(s: Linked, was: bool, cursor: Option<nat>, fetches: seq<Fetch>, k: nat, after: Linked, outcome: Outcome)
    requires Reads(s.observed, was, cursor, fetches, k)
  {
    && (forall game: nat :: game in after.observed <==> SeenBy(s.observed, cursor, fetches, k, game))
    && (if k == 0 then after == s else after.cursor == fetches[k - 1].next && !after.exhausted)
    && outcome == (if k > 0 && EndsAt(s.observed, was, cursor, fetches, k - 1) then Stopped(None, true)
                   else if k < |fetches| then Aborted
                   else Stopped(if k == 0 then cursor else fetches[k - 1].next, false))
  }

  lemma NothingRead(s: Linked, was: bool, cursor: Option<nat>, fetches: seq<Fetch>)
    requires fetches == [] || fetches[0].Failed?
    ensures Reads(s.observed, was, cursor, fetches, 0)
    ensures Leaves(s, was, cursor, fetches, 0, Pages(s, was, cursor, fetches).0, Pages(s, was, cursor, fetches).1)
  {
  }

  lemma FirstStale(s: Linked, was: bool, cursor: Option<nat>, fetches: seq<Fetch>)
    requires fetches != [] && fetches[0].Page?
    ensures EndsAt(s.observed, was, cursor, fetches, 0)
       <==> fetches[0].next.None? || (was && NothingNew(s, cursor, fetches[0]))
    ensures forall game: nat ::
              game in TakePage(s, cursor, fetches[0]).observed <==> SeenBy(s.observed, cursor, fetches, 1, game)
  {
    var page := Range(fetches[0].low, Top(cursor, fetches[0]));
    assert TopAt(cursor, fetches, 0) == Top(cursor, fetches[0]);
    forall game: nat
      ensures SeenBy(s.observed, cursor, fetches, 0, game) <==> game in s.observed
      ensures OnPage(cursor, fetches, 0, game) <==> game in page
      ensures SeenBy(s.observed, cursor, fetches, 1, game) <==> game in s.observed || game in page
    {
      if game in page {
        assert OnPage(cursor, fetches, 0, game);
      }
    }
    assert Stale(s.observed, cursor, fetches, 0) <==> page <= s.observed;
  }

  lemma LeavesFromNext(s: Linked, was: bool, cursor: Option<nat>, fetches: seq<Fetch>, k: nat, after: Linked, outcome: Outcome)
    requires fetches != [] && fetches[0].Page? && fetches[0].next.Some? && !EndsAt(s.observed, was, cursor, fetches, 0)
    requires Reads(TakePage(s, cursor, fetches[0]).observed, was, fetches[0].next, fetches[1..], k)
    requires Leaves(TakePage(s, cursor, fetches[0]), was, fetches[0].next, fetches[1..], k, after, outcome)
    ensures Reads(s.observed, was, cursor, fetches, k + 1) && Leaves(s, was, cursor, fetches, k + 1, after, outcome)
  {
    assert forall i :: 0 <= i < k ==> fetches[1..][i] == fetches[i + 1];
    assert forall i :: 0 <= i < k + 1 ==> fetches[i].Page?;
    forall i: nat | 1 <= i <= k
      ensures EndsAt(TakePage(s, cursor, fetches[0]).observed, was, fetches[0].next, fetches[1..], i - 1)
         <==> EndsAt(s.observed, was, cursor, fetches, i)
    {
      EndsFromNext(s.observed, was, cursor, fetches, i);
    }
    forall game: nat
      ensures SeenBy(TakePage(s, cursor, fetches[0]).observed, fetches[0].next, fetches[1..], k, game)
         <==> SeenBy(s.observed, cursor, fetches, k + 1, game)
    {
      SeenFromNext(s.observed, cursor, fetches, k + 1, game);
    }
  }

  lemma {:induction false} PagesExactly(s: Linked, was: bool, cursor: Option<nat>, fetches: seq<Fetch>) returns (k: nat)
    ensures Reads(s.observed, was, cursor, fetches, k)
    ensures Leaves(s, was, cursor, fetches, k, Pages(s, was, cursor, fetches).0, Pages(s, was, cursor, fetches).1)
    decreases |fetches|
  {
    if fetches == [] || fetches[0].Failed? {
      k := 0;
      NothingRead(s, was, cursor, fetches);
    } else {
      FirstStale(s, was, cursor, fetches);
      if EndsAt(s.observed, was, cursor, fetches, 0) {
        k := 1;
      } else {
        k := PagesExactly(TakePage(s, cursor, fetches[0]), was, fetches[0].next, fetches[1..]);
        var done := Pages(TakePage(s, cursor, fetches[0]), was, fetches[0].next, fetches[1..]);
        LeavesFromNext(s, was, cursor, fetches, k, done.0, done.1);
        k := k + 1;
      }
    }
  }

  /**
   One sync, told from its pages. It begins at the newest game if the connection was
   exhausted or has no cursor, else at the cursor, and reads pages up to the one that is the
   last or, if the connection was exhausted, brings nothing new; or to a failure, or to the
   page limit. Whatever it comes to, the games of the pages it read are observed and no
   other; where the last of them ended is the cursor to resume from, unless the walk is over
   and that could be stored.
   */
  lemma SyncExactly(s: Linked, fetches: seq<Fetch>, finishes: bool) returns (k: nat)
    ensures var begin := if s.exhausted then None else s.cursor;
            var after := Sync(s, fetches, finishes);
            && Reads(s.observed, s.exhausted, begin, fetches, k)
            && (forall game: nat :: game in after.observed <==> SeenBy(s.observed, begin, fetches, k, game))
            && (if k > 0 && EndsAt(s.observed, s.exhausted, begin, fetches, k - 1) && finishes then
                  after.cursor.None? && after.exhausted
                else if k > 0 then after.cursor == fetches[k - 1].next && !after.exhausted
                else if fetches == [] && finishes then after.cursor == begin && !after.exhausted
                else after == s)
  {
    k := PagesExactly(s, s.exhausted, Start(s), fetches);
  }

  // ---------------------------------------------------------------- the provider, and no hidden gap

  /**
   What the design assumes of the provider: a page starts where the cursor says, its next
   cursor is where it ends, only the last page has none, and a page that is not the last
   holds at least one game. The newest page is read at a moment when there are `head` games.
   */
  predicate Serves(cursor: Option<nat>, atLeast: nat, atMost: nat, fetches: seq<Fetch>)
    decreases |fetches|
  {
    if fetches == [] || fetches[0].Failed? then true
    else
      var f := fetches[0];
      && atLeast <= f.head <= atMost && f.low <= Top(cursor, f)
      && (f.next.None? ==> f.low == 0)
      && (f.next.Some? ==> f.next.value == f.low < Top(cursor, f) && Serves(f.next, atLeast, atMost, fetches[1..]))
  }

  /** Everything below `h` has been observed, apart from what lies below the cursor. */
  ghost predicate CoveredTo(s: Linked, h: nat) {
    && s.observed <= Range(0, h)
    && (s.exhausted ==> s.cursor.None? && Range(0, h) <= s.observed)
    && (!s.exhausted && s.cursor.Some? ==> s.cursor.value <= h && Range(s.cursor.value, h) <= s.observed)
  }

  /**
   No hidden gap among `n` games: an exhausted connection misses a newest stretch and
   nothing else; one with a saved cursor misses such a stretch and games below the cursor;
   one without either starts again from the newest page and will not stop early.
   */
  ghost predicate NoGap(s: Linked, n: nat) {
    exists h: nat :: h <= n && CoveredTo(s, h)
  }

  /** In the middle of a sync that has walked down to `cursor` from `h`. */
  ghost predicate Walking(s: Linked, was: bool, cursor: nat, h: nat) {
    && cursor <= h && s.observed <= Range(0, h) && Range(cursor, h) <= s.observed
    && s.cursor == Some(cursor) && !s.exhausted
    && (was ==> exists w: nat :: Range(0, w) <= s.observed && s.observed <= Range(0, w) + Range(cursor, h))
  }

  lemma WalkOn(s: Linked, was: bool, cursor: nat, h: nat, f: Fetch)
    requires Walking(s, was, cursor, h) && f.Page? && f.low <= cursor && f.next == Some(f.low)
    ensures Walking(TakePage(s, Some(cursor), f), was, f.low, h)
  {
    var after := TakePage(s, Some(cursor), f);
    assert Range(f.low, h) == Range(f.low, cursor) + Range(cursor, h);
    assert Range(f.low, cursor) <= Range(0, h);
    if was {
      var w: nat :| Range(0, w) <= s.observed && s.observed <= Range(0, w) + Range(cursor, h);
      assert Range(0, w) <= after.observed && after.observed <= Range(0, w) + Range(f.low, h);
    }
  }

  /** A nonempty page without news lies below the old watermark, so nothing above the watermark is missing. */
  lemma EarlyStopIsSafe(s: Linked, cursor: nat, h: nat, f: Fetch)
    requires Walking(s, true, cursor, h) && f.Page? && f.low < cursor && NothingNew(s, Some(cursor), f)
    ensures s.observed == Range(0, h)
  {
    var w: nat :| Range(0, w) <= s.observed && s.observed <= Range(0, w) + Range(cursor, h);
    assert cursor - 1 in Range(f.low, cursor);
    assert cursor - 1 in s.observed && cursor - 1 !in Range(cursor, h);
    assert cursor - 1 in Range(0, w);
    assert Range(0, h) <= Range(0, w) + Range(cursor, h);
  }

  /** What a connection that walked down from `h` has seen: its old stretch, and what it just walked over. */
  lemma WalkingSees(s: Linked, cursor: nat, h: nat) returns (w: nat)
    requires Walking(s, true, cursor, h)
    ensures s.observed == Range(0, w) + Range(cursor, h)
  {
    w :| Range(0, w) <= s.observed && s.observed <= Range(0, w) + Range(cursor, h);
  }

  /**
   Exactly when an early stop hides nothing. A connection that was exhausted has walked down
   from `h` to `cursor` and now reads a page without news, and stops. There is no hidden gap
   if and only if that page held a game, or everything below the cursor had been observed
   before, or nothing had been read above it.
   */
  lemma EarlyStopExactly(s: Linked, cursor: nat, h: nat, f: Fetch)
    requires Walking(s, true, cursor, h) && f.Page? && f.low <= cursor && NothingNew(s, Some(cursor), f)
    ensures NoGap(Linked(TakePage(s, Some(cursor), f).observed, None, true), h)
       <==> f.low < cursor || Range(0, cursor) <= s.observed || cursor == h
  {
    var stopped := Linked(TakePage(s, Some(cursor), f).observed, None, true);
    assert stopped.observed == s.observed;
    assert Range(0, h) == Range(0, cursor) + Range(cursor, h);
    if NoGap(stopped, h) && cursor < h {
      var top: nat :| top <= h && CoveredTo(stopped, top);
      ReachesDown(s.observed, cursor, h, top);
    }
    if f.low < cursor {
      EarlyStopIsSafe(s, cursor, h, f);
      assert CoveredTo(stopped, h);
    } else if Range(0, cursor) <= s.observed {
      assert CoveredTo(stopped, h);
    } else if cursor == h {
      var w := WalkingSees(s, cursor, h);
      var top := if w < h then w else h;
      assert Range(0, w) <= Range(0, h);
      assert CoveredTo(stopped, top);
    }
  }

  /** A gapless set that holds the games from `cursor` to `h` holds all below the cursor. */
  lemma ReachesDown(observed: set<nat>, cursor: nat, h: nat, top: nat)
    requires cursor < h && Range(cursor, h) <= observed == Range(0, top)
    ensures Range(0, cursor) <= observed
  {
    assert h - 1 in Range(cursor, h);
  }

  /** An empty first page that is not the last stops the sync, and hides nothing. */
  lemma EmptyFirstPage(s: Linked, n: nat, f: Fetch)
    requires NoGap(s, n) && s.exhausted && f.Page? && n <= f.low == f.head
    ensures Sync(s, [f], true) == Linked(s.observed, None, true) && NoGap(Sync(s, [f], true), f.head)
  {
    var h: nat :| h <= n && CoveredTo(s, h);
    assert Range(f.low, f.head) == {};
    assert Pages(s, true, None, [f]) == (TakePage(s, None, f), Stopped(None, true));
    assert CoveredTo(Sync(s, [f], true), h);
  }

  lemma LastPage(s: Linked, was: bool, cursor: nat, h: nat, f: Fetch)
    requires Walking(s, was, cursor, h) && f.Page? && f.low == 0
    ensures TakePage(s, Some(cursor), f).observed == Range(0, h)
  {
    assert Range(0, h) == Range(0, cursor) + Range(cursor, h);
  }

  /** The rest of a sync: whatever it comes to, what is stored has no gap below `h`. */
  lemma {:induction false} PagesKeep(s: Linked, was: bool, cursor: nat, h: nat, fetches: seq<Fetch>, atLeast: nat, atMost: nat)
    requires Walking(s, was, cursor, h) && Serves(Some(cursor), atLeast, atMost, fetches)
    ensures var (after, outcome) := Pages(s, was, Some(cursor), fetches);
            && CoveredTo(after, h)
            && (outcome.Stopped? ==> CoveredTo(Linked(after.observed, outcome.cursor, outcome.exhausted), h))
            && s.observed <= after.observed
            && (outcome.Stopped? && !outcome.exhausted ==> outcome.cursor.Some? && outcome.cursor.value + |fetches| <= cursor)
    decreases |fetches|
  {
    if fetches != [] && fetches[0].Page? {
      var f := fetches[0];
      if f.next.None? {
        LastPage(s, was, cursor, h, f);
      } else {
        WalkOn(s, was, cursor, h, f);
        if was && NothingNew(s, Some(cursor), f) {
          EarlyStopIsSafe(s, cursor, h, f);
        } else {
          PagesKeep(TakePage(s, Some(cursor), f), was, f.low, h, fetches[1..], atLeast, atMost);
        }
      }
    }
  }

  /** The first page of a sync that starts from the newest game. */
  lemma HeadPage(s: Linked, n: nat, f: Fetch)
    requires NoGap(s, n) && Start(s).None? && f.Page? && n <= f.head && f.next == Some(f.low) && f.low < f.head
    ensures Walking(TakePage(s, None, f), s.exhausted, f.low, f.head)
  {
    var h: nat :| h <= n && CoveredTo(s, h);
    assert Range(0, h) <= Range(0, f.head) && Range(f.low, f.head) <= Range(0, f.head);
    if s.exhausted {
      assert s.observed == Range(0, h);
      assert Range(0, h) <= TakePage(s, None, f).observed
             && TakePage(s, None, f).observed <= Range(0, h) + Range(f.low, f.head);
    }
  }

  lemma SyncFromHead(s: Linked, n: nat, n': nat, fetches: seq<Fetch>, finishes: bool)
    requires NoGap(s, n) && Start(s).None? && n <= n' && Serves(None, n, n', fetches)
    requires fetches != [] && fetches[0].Page?
    ensures NoGap(Sync(s, fetches, finishes), n')
    ensures Sync(s, fetches, finishes).exhausted ==> Range(0, fetches[0].head) <= Sync(s, fetches, finishes).observed
    ensures s.observed <= Sync(s, fetches, finishes).observed
  {
    var f := fetches[0];
    var h: nat :| h <= n && CoveredTo(s, h);
    assert Range(0, h) <= Range(0, f.head);
    var result := Sync(s, fetches, finishes);
    if f.next.None? {
      assert Pages(s, s.exhausted, None, fetches) == (TakePage(s, None, f), Stopped(None, true));
      assert CoveredTo(result, f.head);
    } else {
      HeadPage(s, n, f);
      var after := TakePage(s, None, f);
      if s.exhausted && NothingNew(s, None, f) {
        assert f.head - 1 in Range(f.low, f.head);
        assert h == f.head;
        assert CoveredTo(after, f.head) && CoveredTo(result, f.head);
      } else {
        PagesKeep(after, s.exhausted, f.low, f.head, fetches[1..], n, n');
        assert Pages(s, s.exhausted, None, fetches) == Pages(after, s.exhausted, Some(f.low), fetches[1..]);
        assert CoveredTo(result, f.head);
      }
    }
  }

  lemma SyncFromCursor(s: Linked, n: nat, n': nat, fetches: seq<Fetch>, finishes: bool)
    requires NoGap(s, n) && Start(s).Some? && n <= n' && Serves(Start(s), n, n', fetches)
    ensures NoGap(Sync(s, fetches, finishes), n')
    ensures s.observed <= Sync(s, fetches, finishes).observed
  {
    var h: nat :| h <= n && CoveredTo(s, h);
    PagesKeep(s, false, s.cursor.value, h, fetches, n, n');
    assert !s.exhausted && Start(s) == Some(s.cursor.value);
    assert Sync(s, fetches, finishes) == Ended(Pages(s, false, Some(s.cursor.value), fetches), finishes);
    assert CoveredTo(Sync(s, fetches, finishes), h);
  }

  /** One sync, however it ends, leaves no hidden gap and forgets no game. */
  lemma SyncKeeps(s: Linked, n: nat, n': nat, fetches: seq<Fetch>, finishes: bool)
    requires NoGap(s, n) && n <= n' && fetches != [] && Serves(Start(s), n, n', fetches)
    ensures NoGap(Sync(s, fetches, finishes), n')
    ensures s.observed <= Sync(s, fetches, finishes).observed
  {
    if fetches[0].Failed? {
      var h: nat :| h <= n && CoveredTo(s, h);
      assert CoveredTo(Sync(s, fetches, finishes), h);
    } else if Start(s).None? {
      SyncFromHead(s, n, n', fetches, finishes);
    } else {
      SyncFromCursor(s, n, n', fetches, finishes);
    }
  }

  // ---------------------------------------------------------------- many syncs

  /** The history grows to `n` games while the sync with these fetches is under way. */
  datatype Session = Session(fetches: seq<Fetch>, finishes: bool, n: nat)

  const UNSEEN := Linked({}, None, false)

  function RunAll(s: Linked, sessions: seq<Session>): Linked
    decreases |sessions|
  {
    if sessions == [] then s
    else RunAll(Sync(s, sessions[0].fetches, sessions[0].finishes), sessions[1..])
  }

  predicate ServesAll(s: Linked, n: nat, sessions: seq<Session>)
    decreases |sessions|
  {
    if sessions == [] then true
    else
      var one := sessions[0];
      && n <= one.n && one.fetches != [] && Serves(Start(s), n, one.n, one.fetches)
      && ServesAll(Sync(s, one.fetches, one.finishes), one.n, sessions[1..])
  }

  function Games(n: nat, sessions: seq<Session>): nat { if sessions == [] then n else sessions[|sessions| - 1].n }

  lemma {:induction false} RunKeeps(s: Linked, n: nat, sessions: seq<Session>)
    requires NoGap(s, n) && ServesAll(s, n, sessions)
    ensures NoGap(RunAll(s, sessions), Games(n, sessions))
    decreases |sessions|
  {
    if sessions == [] {
    } else {
      var one := sessions[0];
      SyncKeeps(s, n, one.n, one.fetches, one.finishes);
      RunKeeps(Sync(s, one.fetches, one.finishes), one.n, sessions[1..]);
      assert Games(one.n, sessions[1..]) == Games(n, sessions);
    }
  }

  /** From a new connection, through crashes, page limits and early stops. */
  lemma NeverAHiddenGap(sessions: seq<Session>)
    requires ServesAll(UNSEEN, 0, sessions)
    ensures var s := RunAll(UNSEEN, sessions); var n := Games(0, sessions);
            && (s.exhausted ==> exists h: nat :: h <= n && Range(0, n) - s.observed == Range(h, n))
            && (!s.exhausted && s.cursor.Some? ==>
                  exists h: nat :: h <= n && Range(0, n) - s.observed <= Range(h, n) + Range(0, s.cursor.value))
  {
    assert CoveredTo(UNSEEN, 0);
    RunKeeps(UNSEEN, 0, sessions);
    var s, n := RunAll(UNSEEN, sessions), Games(0, sessions);
    var h: nat :| h <= n && CoveredTo(s, h);
    if s.exhausted {
      assert Range(0, n) - s.observed == Range(h, n);
    } else if s.cursor.Some? {
      assert Range(0, n) - s.observed <= Range(h, n) + Range(0, s.cursor.value);
    }
  }

  /** A sync that started from the newest page and ends exhausted has observed every game there was when it started. */
  lemma CatchesUp(s: Linked, n: nat, n': nat, fetches: seq<Fetch>)
    requires NoGap(s, n) && n <= n' && fetches != [] && fetches[0].Page? && Start(s).None? && Serves(None, n, n', fetches)
    requires Sync(s, fetches, true).exhausted
    ensures Range(0, n) <= Sync(s, fetches, true).observed
  {
    SyncFromHead(s, n, n', fetches, true);
    assert Range(0, n) <= Range(0, fetches[0].head);
  }

  /** A sync resumed from a cursor that is not cut short either ends exhausted or has come one game down for each page. */
  lemma ResumeMakesProgress(s: Linked, n: nat, n': nat, fetches: seq<Fetch>)
    requires NoGap(s, n) && n <= n' && Start(s).Some? && Serves(Start(s), n, n', fetches)
    requires Pages(s, s.exhausted, Start(s), fetches).1.Stopped?
    ensures var after := Sync(s, fetches, true);
            after.exhausted || (after.cursor.Some? && after.cursor.value + |fetches| <= s.cursor.value)
  {
    var h: nat :| h <= n && CoveredTo(s, h);
    PagesKeep(s, false, s.cursor.value, h, fetches, n, n');
  }

  /** The assumption is needed: an empty page that is not the last makes the early stop hide a gap. */
  lemma EmptyPageHidesAGap()
    ensures var s := Linked({0}, None, true);
            var after := Sync(s, [Page(3, 2, Some(2)), Page(3, 2, Some(2))], true);
            && NoGap(s, 3) && after == Linked({0, 2}, None, true) && !NoGap(after, 3)
  {
    var s := Linked({0}, None, true);
    var fetches := [Page(3, 2, Some(2)), Page(3, 2, Some(2))];
    assert CoveredTo(s, 1);
    assert fetches[1..] == [Page(3, 2, Some(2))];
    var one := TakePage(s, None, fetches[0]);
    assert Range(2, 3) == {2} && Range(2, 2) == {};
    assert one.observed == {0, 2};
    var after := Sync(s, fetches, true);
    assert after.observed == {0, 2};
    forall h: nat | h <= 3
      ensures !CoveredTo(after, h)
    {
      assert 2 in after.observed && 1 !in after.observed;
      assert h > 2 ==> 1 in Range(0, h);
    }
  }
}
